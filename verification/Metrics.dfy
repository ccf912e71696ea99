/** Snapshots of the counters and their cross-tick differences, as percentages of an interval. */
module Metrics {
  import opened Prelude

  datatype Snapshot = Snapshot(at: Option<nat>, byPid: map<Pid, nat>)

  const NO_SNAPSHOT := Snapshot(None, map[])

  type Deltas = map<Pid, real>

  /** Nanoseconds since `prev`, zero without a baseline; an earlier clock also reads zero. */
  function ElapsedSince(prev: Snapshot, current: Snapshot): nat {
    if prev.at.Some? && current.at.Some? then SaturatingSub(current.at.value, prev.at.value) else 0
  }

  function Percent(ns: nat, elapsed: nat): real
    requires elapsed > 0
  {
    ns as real / elapsed as real * 100.0
  }

  /** A reported delta: the share of the interval, or zero without a baseline or an interval. */
  function Share(ns: nat, elapsed: nat, baseline: bool): real {
    if baseline && elapsed > 0 then Percent(ns, elapsed) else 0.0
  }

  /** Every process of the new snapshot, at zero when it has no baseline. */
  function CpuDeltas(prev: Snapshot, current: Snapshot): Deltas {
    var elapsed := ElapsedSince(prev, current);
    map pid | pid in current.byPid ::
      if pid in prev.byPid && elapsed > 0
      then Percent(SaturatingSub(current.byPid[pid], prev.byPid[pid]), elapsed)
      else 0.0
  }

  /** Only the processes with a baseline. */
  function IoDeltas(prev: Snapshot, current: Snapshot): Deltas {
    var elapsed := ElapsedSince(prev, current);
    map pid | pid in current.byPid && pid in prev.byPid && elapsed > 0 ::
      Percent(SaturatingSub(current.byPid[pid], prev.byPid[pid]), elapsed)
  }

  /** One reported value, from the two readings behind it. */
  lemma CpuDeltaIsShare(prev: Snapshot, current: Snapshot, pid: Pid, before: nat, after: nat)
    requires prev.at.Some? && current.at.Some? && prev.at.value <= current.at.value
    requires pid in current.byPid && current.byPid[pid] == after
    requires pid in prev.byPid ==> prev.byPid[pid] == before
    ensures pid in CpuDeltas(prev, current)
    ensures CpuDeltas(prev, current)[pid]
      == Share(SaturatingSub(after, before), current.at.value - prev.at.value, pid in prev.byPid)
  {
  }

  lemma IoDeltaIsShare(prev: Snapshot, current: Snapshot, pid: Pid, before: nat, after: nat)
    requires prev.at.Some? && current.at.Some? && prev.at.value < current.at.value
    requires pid in prev.byPid && prev.byPid[pid] == before
    requires pid in current.byPid && current.byPid[pid] == after
    ensures pid in IoDeltas(prev, current)
    ensures IoDeltas(prev, current)[pid] == Share(SaturatingSub(after, before), current.at.value - prev.at.value, true)
  {
  }

  /** A share passes 100 exactly when there is more of it than of the interval. */
  lemma ShareOverHundred(ns: nat, elapsed: nat)
    requires elapsed > 0
    ensures Share(ns, elapsed, true) > 100.0 <==> ns > elapsed
  {
    var x, e := ns as real, elapsed as real;
    assert x / e * e == x;
    if x / e > 1.0 { assert (x / e - 1.0) * e > 0.0; }
    if x / e <= 1.0 { assert (1.0 - x / e) * e >= 0.0; }
  }

  lemma ShareOrder(a: nat, b: nat, elapsed: nat)
    requires elapsed > 0
    ensures Share(a, elapsed, true) > Share(b, elapsed, true) <==> a > b
  {
    if a > b {
      PercentAdds(a - b, b, elapsed);
      var x, e := (a - b) as real, elapsed as real;
      assert x / e * e == x;
      assert x / e > 0.0;
    } else {
      ShareMonotone(a, b, elapsed, true);
    }
  }

  lemma PercentMonotone(a: nat, b: nat, elapsed: nat)
    requires elapsed > 0 && a <= b
    ensures 0.0 <= Percent(a, elapsed) <= Percent(b, elapsed)
  {
    var x, y, e := a as real, b as real, elapsed as real;
    assert (y - x) / e >= 0.0;
    assert y / e == x / e + (y - x) / e;
  }

  lemma ShareMonotone(a: nat, b: nat, elapsed: nat, baseline: bool)
    requires a <= b
    ensures 0.0 <= Share(a, elapsed, baseline) <= Share(b, elapsed, true)
  {
    if elapsed > 0 {
      PercentMonotone(0, b, elapsed);
      PercentMonotone(0, a, elapsed);
      PercentMonotone(a, b, elapsed);
    }
  }

  lemma PercentZero(elapsed: nat)
    requires elapsed > 0
    ensures Percent(0, elapsed) == 0.0
  {
  }

  lemma PercentAdds(a: nat, b: nat, elapsed: nat)
    requires elapsed > 0
    ensures Percent(a + b, elapsed) == Percent(a, elapsed) + Percent(b, elapsed)
  {
    var x, y, e := a as real, b as real, elapsed as real;
    assert (x + y) / e == x / e + y / e;
  }

  ghost function SumReal<T>(keys: set<T>, f: T -> real): real {
    if keys == {} then 0.0 else
      var k :| k in keys;
      f(k) + SumReal(keys - {k}, f)
  }

  lemma {:induction false} SumRealRemove<T>(keys: set<T>, f: T -> real, x: T)
    requires x in keys
    ensures SumReal(keys, f) == f(x) + SumReal(keys - {x}, f)
  {
    var k :| k in keys && SumReal(keys, f) == f(k) + SumReal(keys - {k}, f);
    if k != x {
      SumRealRemove(keys - {k}, f, x);
      SumRealRemove(keys - {x}, f, k);
      assert keys - {k} - {x} == keys - {x} - {k};
    }
  }

  /** Percentages of one interval add up to the percentage of the sum. */
  lemma {:induction false} SumOfPercents<T>(keys: set<T>, ns: T -> nat, f: T -> real, elapsed: nat)
    requires elapsed > 0
    requires forall k :: k in keys ==> f(k) == Percent(ns(k), elapsed)
    ensures SumReal(keys, f) == Percent(SumSet(keys, ns), elapsed)
  {
    if keys != {} {
      var x :| x in keys;
      SumRealRemove(keys, f, x);
      SumSetRemove(keys, ns, x);
      SumOfPercents(keys - {x}, ns, f, elapsed);
      PercentAdds(ns(x), SumSet(keys - {x}, ns), elapsed);
    }
  }

  lemma {:induction false} AllZero<T>(keys: set<T>, f: T -> real)
    requires forall k :: k in keys ==> f(k) == 0.0
    ensures SumReal(keys, f) == 0.0
  {
    if keys != {} {
      var k :| k in keys && SumReal(keys, f) == f(k) + SumReal(keys - {k}, f);
      AllZero(keys - {k}, f);
    }
  }

  /** A process's value, zero when it has none. */
  function ValueIn(m: Deltas): Pid -> real {
    k => if k in m then m[k] else 0.0
  }

  ghost function SumValues(m: Deltas): real {
    SumReal(m.Keys, ValueIn(m))
  }

  /** How much each process grew between two snapshots; without a baseline, nothing. */
  predicate IsGrowth(prev: Snapshot, current: Snapshot, growth: Pid -> nat) {
    forall g :: g in current.byPid ==>
      growth(g) == if g in prev.byPid then SaturatingSub(current.byPid[g], prev.byPid[g]) else 0
  }

  /** The sum of the reported percentages is the percentage of the summed growth. */
  lemma TotalIsGrowth(prev: Snapshot, current: Snapshot, growth: Pid -> nat)
    requires ElapsedSince(prev, current) > 0 && IsGrowth(prev, current, growth)
    ensures SumValues(CpuDeltas(prev, current))
         == Percent(SumSet(current.byPid.Keys, growth), ElapsedSince(prev, current))
  {
    var deltas, elapsed := CpuDeltas(prev, current), ElapsedSince(prev, current);
    assert deltas.Keys == current.byPid.Keys;
    PercentZero(elapsed);
    SumOfPercents(deltas.Keys, growth, ValueIn(deltas), elapsed);
  }

  /** When the growth fits in the time of `running` CPUs, the total is at most 100 of `online`. */
  lemma TotalWithinMachine(prev: Snapshot, current: Snapshot, growth: Pid -> nat, running: nat, online: nat)
    requires IsGrowth(prev, current, growth) && running <= online && 0 < online
    requires SumSet(current.byPid.Keys, growth) <= running * ElapsedSince(prev, current)
    ensures 0.0 <= SumValues(CpuDeltas(prev, current)) / online as real <= 100.0
  {
    if ElapsedSince(prev, current) == 0 {
      NoIntervalTotalsZero(prev, current);
      assert 0.0 / online as real == 0.0;
    } else {
      TotalWithinInterval(prev, current, growth, running, online);
    }
  }

  lemma NoIntervalTotalsZero(prev: Snapshot, current: Snapshot)
    requires ElapsedSince(prev, current) == 0
    ensures SumValues(CpuDeltas(prev, current)) == 0.0
  {
    var deltas := CpuDeltas(prev, current);
    AllZero(deltas.Keys, ValueIn(deltas));
  }

  lemma TotalWithinInterval(prev: Snapshot, current: Snapshot, growth: Pid -> nat, running: nat, online: nat)
    requires IsGrowth(prev, current, growth) && running <= online && 0 < online
    requires 0 < ElapsedSince(prev, current)
    requires SumSet(current.byPid.Keys, growth) <= running * ElapsedSince(prev, current)
    ensures 0.0 <= SumValues(CpuDeltas(prev, current)) / online as real <= 100.0
  {
    var total, elapsed := SumSet(current.byPid.Keys, growth), ElapsedSince(prev, current);
    TotalIsGrowth(prev, current, growth);
    ShareBound(total, running, online, elapsed);
    assert SumValues(CpuDeltas(prev, current)) == Percent(total, elapsed);
  }

  lemma ShareBound(sum: nat, running: nat, online: nat, elapsed: nat)
    requires 0 < elapsed && 0 < online && running <= online && sum <= running * elapsed
    ensures 0.0 <= Percent(sum, elapsed) / online as real <= 100.0
  {
    ScaleUp(running, online, elapsed);
    var e, o := elapsed as real, online as real;
    Quotient(sum as real, o, e);
    Quotient(Percent(sum, elapsed), 100.0, o);
  }

  lemma ScaleUp(running: nat, online: nat, elapsed: nat)
    requires running <= online
    ensures running * elapsed <= online * elapsed
    ensures (online * elapsed) as real == online as real * elapsed as real
  {
  }

  lemma Quotient(x: real, bound: real, e: real)
    requires 0.0 < e && 0.0 <= x <= bound * e
    ensures 0.0 <= x / e <= bound
  {
  }

  /** `values().sum()`: adds every value once, in the map's own order. */
  method AddUp(m: Deltas) returns (sum: real)
    ensures sum == SumValues(m)
  {
    ghost var f := ValueIn(m);
    sum := 0.0;
    var rest := m.Keys;
    while rest != {}
      invariant rest <= m.Keys
      invariant sum + SumReal(rest, f) == SumReal(m.Keys, f)
      decreases rest
    {
      var k :| k in rest;
      SumRealRemove(rest, f, k);
      sum := sum + m[k];
      rest := rest - {k};
    }
  }

  /** Both snapshots are dated, and time has passed between them. */
  predicate Later(prev: Snapshot, current: Snapshot) {
    prev.at.Some? && current.at.Some? && prev.at.value < current.at.value
  }

  class CpuCollector {
    var prev: Snapshot

    constructor ()
      ensures prev == NO_SNAPSHOT
    {
      prev := NO_SNAPSHOT;
    }

    /**
     One value for every process of the new snapshot and no other: its counter's
     rise as a percentage of the interval, zero where the counter did not rise, and
     zero at first sight or when no time has passed.
    */
    method Deltas(current: Snapshot) returns (out: Deltas)
      modifies this
      ensures prev == current
      ensures out.Keys == current.byPid.Keys
      ensures forall pid :: pid in out && pid !in old(prev).byPid ==> out[pid] == 0.0
      ensures !Later(old(prev), current) ==> forall pid :: pid in out ==> out[pid] == 0.0
      ensures forall pid :: pid in out && pid in old(prev).byPid && current.byPid[pid] <= old(prev).byPid[pid] ==>
                              out[pid] == 0.0
      ensures Later(old(prev), current) ==>
                forall pid :: pid in out && pid in old(prev).byPid && old(prev).byPid[pid] <= current.byPid[pid] ==>
                  out[pid] == (current.byPid[pid] - old(prev).byPid[pid]) as real
                              / (current.at.value - old(prev).at.value) as real * 100.0
      ensures out == CpuDeltas(old(prev), current)
    {
      var elapsed := ElapsedSince(prev, current);
      if elapsed > 0 { PercentZero(elapsed); }
      out := map pid | pid in current.byPid ::
        if pid in prev.byPid && elapsed > 0
        then Percent(SaturatingSub(current.byPid[pid], prev.byPid[pid]), elapsed)
        else 0.0;
      prev := current;
    }
  }

  class IoWaitCollector {
    var prev: Snapshot

    constructor ()
      ensures prev == NO_SNAPSHOT
    {
      prev := NO_SNAPSHOT;
    }

    /**
     One value for every process with a baseline, none for the others and none at
     all when no time has passed: the counter's rise as a percentage of the
     interval, zero where it did not rise.
    */
    method Deltas(current: Snapshot) returns (out: Deltas)
      modifies this
      ensures prev == current
      ensures !Later(old(prev), current) ==> out == map[]
      ensures Later(old(prev), current) ==> out.Keys == current.byPid.Keys * old(prev).byPid.Keys
      ensures forall pid :: pid in out && current.byPid[pid] <= old(prev).byPid[pid] ==> out[pid] == 0.0
      ensures Later(old(prev), current) ==>
                forall pid :: pid in out && old(prev).byPid[pid] <= current.byPid[pid] ==>
                  out[pid] == (current.byPid[pid] - old(prev).byPid[pid]) as real
                              / (current.at.value - old(prev).at.value) as real * 100.0
      ensures out == IoDeltas(old(prev), current)
    {
      var elapsed := ElapsedSince(prev, current);
      if elapsed > 0 { PercentZero(elapsed); }
      out := map pid | pid in current.byPid && pid in prev.byPid && elapsed > 0 ::
        Percent(SaturatingSub(current.byPid[pid], prev.byPid[pid]), elapsed);
      prev := current;
    }
  }
}
