/**
 The whole machine as a state machine: the maps, the scheduler's true history,
 and the thread groups, moved by the events that can hit them in any order. A
 collector tick changes none of this, so ticks are points of a run and the
 reaper's pops and the LRU's evictions are events of it.
*/
module System {
  import opened Prelude
  import opened History
  import opened Kernel

  /** A thread of a group: running normally, past the `live` decrement, or past its exit tracepoint. */
  datatype Phase = Alive | Exiting | Traced

  /**
   A thread group. `live` is `signal->live`; `offered` counts the records its exit
   path has offered to the ring, `unread` the exit tracepoints that could not read `live`.
  */
  datatype Group = Group(members: map<Pid, Phase>, live: nat, offered: nat, unread: nat)

  datatype System = System(maps: Maps, history: Trace, groups: map<Pid, Group>, clock: nat)

  datatype Event =
    | Sched(at: nat, cpu: nat, prev: Task, next: Task, state: bv32)
    | Spawn(at: nat, tid: Pid, tgid: Pid)
    | ExitBegin(at: nat, tid: Pid, tgid: Pid)
    | ExitTrace(at: nat, tid: Pid, tgid: Pid, readable: bool)
    | Reclaim(at: nat, tid: Pid, tgid: Pid)
    | Release(at: nat, tgid: Pid)
    | EvictCpu(at: nat, tgid: Pid)
    | EvictIo(at: nat, tgid: Pid)
    | Reap(at: nat)

  // ---- what the kernel guarantees about each event ----

  /** Idle is thread 0 of process 0; every other thread belongs to a known group. */
  predicate Known(s: System, t: Task) {
    if t.tid == 0 || t.tgid == 0 then t == Task(0, 0)
    else t.tgid in s.groups && t.tid in s.groups[t.tgid].members
  }

  /**
   A thread on its way out may be preempted, and is switched out for the last time,
   after its id was freed; then it never goes into a D sleep.
  */
  predicate Departing(prev: Task, state: bv32) {
    prev.tid != 0 && prev.tgid != 0 && !DSleep(state)
  }

  /** A thread preempted on its way out comes back, its id freed or not. */
  predicate Returning(s: System, next: Task) {
    && next.tid != 0 && next.tgid != 0
    && LastEdge(s.history, next.tid).WentOut? && !Asleep(LastEdge(s.history, next.tid))
  }

  /** The thread leaving `cpu` is the one that came in there, or, at the first switch seen, one not seen before. */
  predicate Leaves(s: System, cpu: nat, prev: Task) {
    match Latest(s.history, cpu)
    case Some(e) => prev == e.next
    case None => prev.tid == 0 || LastEdge(s.history, prev.tid) == Never
  }

  predicate Elsewhere(s: System, tid: Pid) {
    LastEdge(s.history, tid) == CameIn
  }

  predicate InPhase(s: System, tid: Pid, tgid: Pid, phase: Phase) {
    tgid in s.groups && tid in s.groups[tgid].members && s.groups[tgid].members[tid] == phase
  }

  ghost predicate FreeTid(s: System, tid: Pid) {
    forall g :: g in s.groups ==> tid !in s.groups[g].members
  }

  ghost predicate Enabled(s: System, e: Event) {
    && s.clock <= e.at <= U64_MAX
    && match e
       case Sched(at, cpu, prev, next, state) =>
         && 0 < at && cpu < s.maps.Cpus()
         && (Known(s, prev) || Departing(prev, state))
         && (Known(s, next) || Returning(s, next))
         && Leaves(s, cpu, prev)
         && (next.tid != 0 ==> next.tid != prev.tid && !Elsewhere(s, next.tid))
       case Spawn(_, tid, tgid) =>
         // A clone by a thread that has not begun to exit, or a fork into a free process id.
         && tid != 0 && FreeTid(s, tid)
         && (if tgid in s.groups then exists m :: InPhase(s, m, tgid, Alive) else tid == tgid)
       case ExitBegin(_, tid, tgid) => InPhase(s, tid, tgid, Alive)
       case ExitTrace(_, tid, tgid, _) =>
         // The tracepoint fires while its thread is still on a CPU.
         InPhase(s, tid, tgid, Exiting) && !LastEdge(s.history, tid).WentOut?
       case Reclaim(_, tid, tgid) =>
         // A thread other than the leader frees its own id at its exit; its last switch-out was not a D sleep.
         InPhase(s, tid, tgid, Traced) && tid != tgid && !Asleep(LastEdge(s.history, tid))
       case Release(_, tgid) =>
         // Every thread has exited, and its last switch-out was not a D sleep.
         && tgid in s.groups
         && forall m :: m in s.groups[tgid].members ==>
              s.groups[tgid].members[m] == Traced && !Asleep(LastEdge(s.history, m))
       case EvictCpu(_, _) => true
       case EvictIo(_, _) => true
       case Reap(_) => s.maps.exits != []
  }

  // ---- what each event does ----

  function Record(m: Maps, e: Event): Switch
    requires e.Sched?
  {
    Switch(e.cpu, e.prev, e.next, e.state, e.at, m.StampRefused(e.state, e.prev.tid))
  }

  function NewGroups(groups: map<Pid, Group>, e: Event): map<Pid, Group> {
    match e
    case Spawn(_, tid, tgid) =>
      if tgid in groups then
        var g := groups[tgid];
        groups[tgid := g.(members := g.members[tid := Alive], live := g.live + 1)]
      else groups[tgid := Group(map[tid := Alive], 1, 0, 0)]
    case ExitBegin(_, tid, tgid) =>
      if tgid in groups && groups[tgid].live > 0 then
        var g := groups[tgid];
        groups[tgid := g.(members := g.members[tid := Exiting], live := g.live - 1)]
      else groups
    case ExitTrace(_, tid, tgid, readable) =>
      if tgid in groups then
        var g := groups[tgid];
        groups[tgid := g.(members := g.members[tid := Traced],
                          offered := g.offered + if readable && g.live == 0 then 1 else 0,
                          unread := g.unread + if readable then 0 else 1)]
      else groups
    case Reclaim(_, tid, tgid) =>
      if tgid in groups then groups[tgid := groups[tgid].(members := groups[tgid].members - {tid})] else groups
    case Release(_, tgid) => groups - {tgid}
    case _ => groups
  }

  function NewMaps(s: System, e: Event): (m: Maps)
    requires s.maps.WellFormed()
    requires e.Sched? ==> e.cpu < s.maps.Cpus()
    ensures m.WellFormed()
  {
    match e
    case Sched(at, cpu, prev, next, state) => s.maps.SchedSwitch(cpu, prev, next, state, at)
    case ExitTrace(_, tid, tgid, readable) =>
      s.maps.SchedProcessExit(tid, tgid,
        if readable && tgid in s.groups then Some(s.groups[tgid].live) else None)
    case EvictCpu(_, g) => s.maps.DeleteCpu(g)
    case EvictIo(_, g) => s.maps.DeleteIo(g)
    case Reap(_) => if s.maps.exits != [] then s.maps.ReapOne() else s.maps
    case _ => s.maps
  }

  function Apply(s: System, e: Event): System
    requires s.maps.WellFormed()
    requires e.Sched? ==> e.cpu < s.maps.Cpus()
  {
    System(NewMaps(s, e),
           if e.Sched? then s.history + [Record(s.maps, e)] else s.history,
           NewGroups(s.groups, e),
           e.at)
  }

  /** A run: each event possible where it happens. */
  ghost predicate Possible(s: System, es: seq<Event>)
    requires s.maps.WellFormed()
    decreases |es|
  {
    es == [] || (Enabled(s, es[0]) && Possible(Apply(s, es[0]), es[1..]))
  }

  ghost function Run(s: System, es: seq<Event>): (r: System)
    requires s.maps.WellFormed() && Possible(s, es)
    ensures r.maps.WellFormed()
    decreases |es|
  {
    if es == [] then s else Run(Apply(s, es[0]), es[1..])
  }

  /** The machine after the first `k` events. */
  ghost function StateAt(s: System, es: seq<Event>, k: nat): (m: System)
    requires s.maps.WellFormed() && Possible(s, es) && k <= |es|
    ensures m.maps.WellFormed()
    decreases k
  {
    if k == 0 then s else StateAt(Apply(s, es[0]), es[1..], k - 1)
  }

  /** A run that may follow `s`. */
  ghost predicate Ahead(s: System, es: seq<Event>) {
    s.maps.WellFormed() && Possible(s, es)
  }

  /**
   The state the next tick reads, when `es` is what happens between two ticks. It
   and `Ahead` name `Run` and `Possible` without recursion, so that what is said of
   ticks does not unroll them.
  */
  ghost function Next(s: System, es: seq<Event>): (r: System)
    requires Ahead(s, es)
    ensures r.maps.WellFormed()
  {
    Run(s, es)
  }

  /** `es` takes the machine from `s` to `r`. */
  ghost predicate Leads(s: System, es: seq<Event>, r: System) {
    Ahead(s, es) && r == Next(s, es)
  }

  // ---- where a run may start ----

  /** The number of threads of a group that have not begun to exit. */
  ghost function Living(g: Group): set<Pid> {
    set m | m in g.members && g.members[m] == Alive
  }

  /**
   Programs just attached: empty maps, nothing observed, and any processes already
   there but those of which every thread is past its exit tracepoint: a zombie from
   before will never be announced.
  */
  ghost predicate Init(s: System) {
    && s.maps.WellFormed()
    && s.maps.startTime == seq(s.maps.Cpus(), _ => 0)
    && s.maps.currentTgid == seq(s.maps.Cpus(), _ => 0)
    && s.maps.cpuNs == map[] && s.maps.iowaitNs == map[] && s.maps.sleepSince == map[]
    && s.maps.exits == [] && s.history == [] && s.clock <= U64_MAX
    && GroupsOk(s.groups)
    && forall g :: g in s.groups ==>
         s.groups[g].offered == 0 && s.groups[g].unread == 0 && !Finished(s.groups[g])
  }

  /** Every thread of the group is past its exit tracepoint. */
  predicate Finished(g: Group) {
    forall m :: m in g.members ==> g.members[m] == Traced
  }

  /** `signal->live` counts the living; no thread is in two groups, and none is thread 0. */
  ghost predicate GroupsOk(groups: map<Pid, Group>) {
    && (forall g :: g in groups ==> g != 0 && 0 !in groups[g].members && |Living(groups[g])| == groups[g].live)
    && (forall g, k, m :: g in groups && k in groups && m in groups[g].members && m in groups[k].members ==> g == k)
  }
}
