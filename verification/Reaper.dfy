/** The reaper: draining the exit ring after a tick's reads and dropping the entries it names. */
module Reaper {
  import opened Prelude
  import opened Kernel
  import opened System
  import opened ExitLedger
  import opened Candidates

  /** `k` turns of the reaper. */
  function ReapMany(m: Maps, k: nat): (r: Maps)
    requires m.WellFormed() && k <= |m.exits|
    ensures r.WellFormed()
    decreases k
  {
    if k == 0 then m else ReapMany(m.ReapOne(), k - 1)
  }

  /** What a pass removes: the oldest records, and the entries they name, nothing else. */
  lemma {:induction false} ReapManyEffect(m: Maps, k: nat)
    requires m.WellFormed() && k <= |m.exits|
    ensures ReapMany(m, k) == m.(exits := m.exits[k..],
                                 cpuNs := m.cpuNs - Elems(m.exits[..k]),
                                 iowaitNs := m.iowaitNs - Elems(m.exits[..k]))
    decreases k
  {
    if k == 0 {
      assert m.cpuNs - Elems(m.exits[..0]) == m.cpuNs && m.iowaitNs - Elems(m.exits[..0]) == m.iowaitNs;
    } else {
      var one := m.ReapOne();
      ReapManyEffect(one, k - 1);
      assert m.exits[..k] == [m.exits[0]] + one.exits[..k - 1];
      assert Elems(m.exits[..k]) == {m.exits[0]} + Elems(one.exits[..k - 1]);
      assert one.cpuNs - Elems(one.exits[..k - 1]) == m.cpuNs - Elems(m.exits[..k]);
      assert one.iowaitNs - Elems(one.exits[..k - 1]) == m.iowaitNs - Elems(m.exits[..k]);
      assert one.exits[k - 1..] == m.exits[k..];
    }
  }

  function ReapEvents(at: nat, k: nat): seq<Event> {
    seq(k, _ => Reap(at))
  }

  /** An uninterrupted pass is a run of the machine, and a full pass of its drain. */
  lemma {:induction false} ReapIsARun(s: System, k: nat)
    requires s.maps.WellFormed() && k <= |s.maps.exits| && s.clock <= U64_MAX
    ensures
      var es := ReapEvents(s.clock, k);
      && Possible(s, es) && Run(s, es) == s.(maps := ReapMany(s.maps, k))
      && Popped(s, es) == s.maps.exits[..k]
      && (k == Min(BUDGET, |s.maps.exits|) ==> Pass(s, es))
    decreases k
  {
    var es := ReapEvents(s.clock, k);
    if k > 0 {
      var s' := Apply(s, Reap(s.clock));
      assert es[1..] == ReapEvents(s.clock, k - 1);
      ReapIsARun(s', k - 1);
      assert s.maps.exits[..k] == [s.maps.exits[0]] + s'.maps.exits[..k - 1];
    }
    ReapManyEffect(s.maps, k);
  }

  /** Drain up to the budget, deleting each announced process from both counters. */
  method ReapExits(hooks: Hooks)
    requires hooks.Valid()
    modifies hooks`exits, hooks`cpuNs, hooks`iowaitNs
    ensures hooks.Valid()
    ensures
      var n := if |old(hooks.exits)| < 4096 then |old(hooks.exits)| else 4096;
      && hooks.exits == old(hooks.exits)[n..]
      && hooks.cpuNs == old(hooks.cpuNs) - (set g | g in old(hooks.exits)[..n])
      && hooks.iowaitNs == old(hooks.iowaitNs) - (set g | g in old(hooks.exits)[..n])
    ensures hooks.State() == ReapMany(old(hooks.State()), Min(BUDGET, |old(hooks.exits)|))
  {
    ReapManyEffect(hooks.State(), Min(BUDGET, |hooks.exits|));
    ghost var before := hooks.State();
    ghost var all := Min(BUDGET, |hooks.exits|);
    for turn := 0 to BUDGET
      invariant hooks.Valid()
      invariant turn <= all && all - turn <= |hooks.exits|
      invariant |hooks.exits| == |before.exits| - turn
      invariant ReapMany(hooks.State(), all - turn) == ReapMany(before, all)
    {
      ghost var now := hooks.State();
      var record := hooks.NextExit();
      match record {
        case None => return;
        case Some(tgid) =>
          hooks.DeleteCpu(tgid);
          hooks.DeleteIo(tgid);
      }
      assert hooks.State() == now.ReapOne();
    }
  }
}
