/** Reading the CPU counters: the batched totals, corrected for the slices in flight. */
module CpuMaps {
  import opened Prelude
  import opened Kernel
  import opened System
  import opened CpuAccounting
  import opened Metrics
  import opened Ticks
  import opened ExitLedger
  import opened Batch

  /** The totals with the slices of the first `n` CPUs added. */
  function WithFlights(byPid: map<Pid, nat>, tgids: seq<Pid>, starts: seq<nat>, n: nat, now: nat): map<Pid, nat>
    requires n <= |tgids| && n <= |starts|
  {
    if n == 0 then byPid
    else
      var r := WithFlights(byPid, tgids, starts, n - 1, now);
      var tgid, start := tgids[n - 1], starts[n - 1];
      if tgid != 0 && start != 0 && now > start
      then r[tgid := (if tgid in r then r[tgid] else 0) + (now - start)] else r
  }

  /** What CPU `c` adds to `g`: its time since the start, if `g` is there, is not idle, and started before now. */
  function Slice(tgids: seq<Pid>, starts: seq<nat>, c: nat, g: Pid, now: nat): nat
    requires c < |tgids| == |starts|
  {
    if tgids[c] == g && g != 0 && 0 < starts[c] < now then now - starts[c] else 0
  }

  function Slices(tgids: seq<Pid>, starts: seq<nat>, n: nat, g: Pid, now: nat): seq<nat>
    requires n <= |tgids| == |starts|
  {
    seq(n, c requires 0 <= c < n => Slice(tgids, starts, c, g, now))
  }

  /** Each process gains its slices on every CPU, and is listed if it had an entry or has a slice. */
  lemma {:induction false} SlicesAreAdded(byPid: map<Pid, nat>, tgids: seq<Pid>, starts: seq<nat>, n: nat,
                                          g: Pid, now: nat)
    requires n <= |tgids| == |starts|
    ensures
      var r, sum := WithFlights(byPid, tgids, starts, n, now), SeqSum(Slices(tgids, starts, n, g, now));
      && (g in r <==> g in byPid || sum > 0)
      && (g in r ==> r[g] == (if g in byPid then byPid[g] else 0) + sum)
  {
    if n > 0 {
      assert Slices(tgids, starts, n, g, now)[..n - 1] == Slices(tgids, starts, n - 1, g, now);
      SlicesAreAdded(byPid, tgids, starts, n - 1, g, now);
    }
  }

  method AddInflight(byPid: map<Pid, nat>, tgids: seq<Pid>, starts: seq<nat>, now: nat) returns (r: map<Pid, nat>)
    requires |tgids| == |starts|
    ensures forall g ::
      var sum := SeqSum(Slices(tgids, starts, |tgids|, g, now));
      && (g in r <==> g in byPid || sum > 0)
      && (g in r ==> r[g] == (if g in byPid then byPid[g] else 0) + sum)
    ensures r == WithFlights(byPid, tgids, starts, |tgids|, now)
  {
    r := byPid;
    for c := 0 to |tgids|
      invariant r == WithFlights(byPid, tgids, starts, c, now)
    {
      if tgids[c] != 0 && starts[c] != 0 && now > starts[c] {
        r := r[tgids[c] := (if tgids[c] in r then r[tgids[c]] else 0) + (now - starts[c])];
      }
    }
    forall g
      ensures
        var sum := SeqSum(Slices(tgids, starts, |tgids|, g, now));
        && (g in r <==> g in byPid || sum > 0)
        && (g in r ==> r[g] == (if g in byPid then byPid[g] else 0) + sum)
    {
      SlicesAreAdded(byPid, tgids, starts, |tgids|, g, now);
    }
  }

  /** The correction gives each process its slices and lists exactly those that had an entry or a slice. */
  lemma {:induction false} FlightsAreAdded(m: Maps, byPid: map<Pid, nat>, n: nat, g: Pid, t: nat)
    requires m.WellFormed() && n <= m.Cpus()
    ensures
      var r := WithFlights(byPid, m.currentTgid, m.startTime, n, t);
      && (g in r <==> g in byPid || FlightsOn(m, n, g, t) > 0)
      && (g in r ==> r[g] == (if g in byPid then byPid[g] else 0) + FlightsOn(m, n, g, t))
  {
    if n > 0 {
      FlightsAreAdded(m, byPid, n - 1, g, t);
    }
  }

  lemma {:induction false} FlightsMeanInFlight(m: Maps, n: nat, g: Pid, t: nat)
    requires m.WellFormed() && n <= m.Cpus()
    ensures FlightsOn(m, n, g, t) > 0 <==> exists c :: 0 <= c < n && Flight(m, c, g, t) > 0
  {
    if n > 0 {
      FlightsMeanInFlight(m, n - 1, g, t);
    }
  }

  lemma {:induction false} CorrectedAt(m: Maps, g: Pid, t: nat)
    requires m.WellFormed() && SumsFit(m.cpuNs)
    ensures
      var r := WithFlights(PlainTotals(m.cpuNs), m.currentTgid, m.startTime, m.Cpus(), t);
      && (g in r <==> g in m.cpuNs || InFlight(m, g, t))
      && (g in r ==> r[g] == Reading(m, g, t))
  {
    if g in m.cpuNs { DoesNotWrap(m.cpuNs[g]); }
    FlightsAreAdded(m, PlainTotals(m.cpuNs), m.Cpus(), g, t);
    FlightsMeanInFlight(m, m.Cpus(), g, t);
    ReadingIsTotalAndFlights(m, g, t);
  }

  /** Batched totals plus the correction are the tick's reading of every process. */
  lemma {:induction false} CorrectedIsSnapshot(m: Maps, t: nat)
    requires m.WellFormed() && SumsFit(m.cpuNs)
    ensures WithFlights(PlainTotals(m.cpuNs), m.currentTgid, m.startTime, m.Cpus(), t) == CpuSnapshot(m, t).byPid
  {
    var r, byPid := WithFlights(PlainTotals(m.cpuNs), m.currentTgid, m.startTime, m.Cpus(), t), CpuSnapshot(m, t).byPid;
    forall g ensures (g in r <==> g in byPid) && (g in r ==> r[g] == byPid[g]) {
      CorrectedAt(m, g, t);
      InSnapshot(m, g, t);
    }
    assert r.Keys == byPid.Keys;
  }

  /** In a reachable state every counter fits: none exceeds the CPUs times the clock. */
  lemma {:induction false} ReadingBound(s: System, n: nat, g: Pid)
    requires CpuInv(s) && g != 0 && n <= s.maps.Cpus()
    ensures ReadingOn(s.maps, n, g, s.clock) <= n * s.clock
  {
    if n > 0 {
      ReadingBound(s, n - 1, g);
      Wait(s, s.clock, n - 1, g);
      OneMore(n - 1, s.clock);
    }
  }

  /** So while CPUs times uptime stays within 64 bits, no addition on the read path can overflow. */
  lemma ReachableSumsFit(s: System)
    requires CpuInv(s) && s.maps.Cpus() * s.clock <= U64_MAX
    ensures SumsFit(s.maps.cpuNs)
    ensures forall g :: g in TickAt(s).byPid ==> TickAt(s).byPid[g] <= U64_MAX
  {
    forall g | g in s.maps.cpuNs ensures SeqSum(s.maps.cpuNs[g]) <= U64_MAX {
      ReadingBound(s, s.maps.Cpus(), g);
      ReadingIsTotalAndFlights(s.maps, g, s.clock);
    }
    forall g | g in TickAt(s).byPid ensures TickAt(s).byPid[g] <= U64_MAX {
      ZeroIsUnseen(s, []);
      InSnapshot(s.maps, g, s.clock);
      ReadingBound(s, s.maps.Cpus(), g);
    }
  }
}
