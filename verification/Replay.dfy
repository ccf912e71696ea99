/** The hooks in place, driven through a run: the maps they leave are the maps of the machine. */
module Replay {
  import opened Prelude
  import opened Kernel
  import opened System

  /** One event as the programs and user space carry it out. */
  method Perform(hooks: Hooks, s: System, e: Event)
    requires hooks.Valid() && hooks.State() == s.maps && Enabled(s, e)
    modifies hooks, hooks.startTime, hooks.currentTgid
    ensures hooks.startTime == old(hooks.startTime) && hooks.currentTgid == old(hooks.currentTgid)
    ensures hooks.Valid() && hooks.State() == Apply(s, e).maps
  {
    match e
    case Sched(at, cpu, prev, next, state) => hooks.SchedSwitch(cpu, prev, next, state, at);
    case ExitTrace(_, tid, tgid, readable) =>
      hooks.SchedProcessExit(tid, tgid, if readable && tgid in s.groups then Some(s.groups[tgid].live) else None);
    case EvictCpu(_, g) => hooks.DeleteCpu(g);
    case EvictIo(_, g) => hooks.DeleteIo(g);
    case Reap(_) =>
      var g := hooks.NextExit();
      hooks.DeleteCpu(g.value);
      hooks.DeleteIo(g.value);
    case _ =>
  }

  lemma {:induction false} StateAtStep(s: System, es: seq<Event>, k: nat)
    requires s.maps.WellFormed() && Possible(s, es) && k < |es|
    ensures Enabled(StateAt(s, es, k), es[k]) && StateAt(s, es, k + 1) == Apply(StateAt(s, es, k), es[k])
    decreases k
  {
    if k > 0 { StateAtStep(Apply(s, es[0]), es[1..], k - 1); }
  }

  lemma {:induction false} StateAtEnd(s: System, es: seq<Event>)
    requires s.maps.WellFormed() && Possible(s, es)
    ensures StateAt(s, es, |es|) == Run(s, es)
    decreases |es|
  {
    if es != [] { StateAtEnd(Apply(s, es[0]), es[1..]); }
  }

  /** A whole run; the machine is kept beside the maps. */
  method Play(hooks: Hooks, s: System, es: seq<Event>) returns (now: System)
    requires hooks.Valid() && hooks.State() == s.maps && Possible(s, es)
    modifies hooks, hooks.startTime, hooks.currentTgid
    ensures hooks.startTime == old(hooks.startTime) && hooks.currentTgid == old(hooks.currentTgid)
    ensures now == Run(s, es) && hooks.Valid() && hooks.State() == now.maps
  {
    now := s;
    for k := 0 to |es|
      invariant hooks.startTime == old(hooks.startTime) && hooks.currentTgid == old(hooks.currentTgid)
      invariant hooks.Valid() && hooks.State() == now.maps && now == StateAt(s, es, k)
    {
      StateAtStep(s, es, k);
      Perform(hooks, now, es[k]);
      now := Apply(now, es[k]);
    }
    StateAtEnd(s, es);
  }
}
