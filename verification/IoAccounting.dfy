/**
 D-sleep accounting. A stamp stands exactly while its thread sleeps, and the
 counters hold exactly the sleeps whose stamp was kept, whichever CPUs the two
 ends fell on.
*/
module IoAccounting {
  import opened Prelude
  import opened History
  import opened Kernel
  import opened System

  /** A thread has a stamp iff it is off-CPU from a D sleep whose stamp was kept; the stamp is when it left. */
  predicate StampOk(s: System, tid: Pid) {
    var edge := LastEdge(s.history, tid);
    && (tid in s.maps.sleepSince <==> tid != 0 && Asleep(edge) && !edge.dropped)
    && (tid in s.maps.sleepSince ==> s.maps.sleepSince[tid] == edge.at)
    && (edge.WentOut? ==> edge.at <= s.clock)
  }

  /** The thread on a CPU last came in; no two CPUs hold the same one. */
  predicate PlacedOk(s: System, c: nat) {
    Latest(s.history, c).Some? && Latest(s.history, c).value.next.tid != 0
    ==> Elsewhere(s, Latest(s.history, c).value.next.tid)
  }

  predicate ApartOk(s: System, c: nat, d: nat) {
    c != d && Latest(s.history, c).Some? && Latest(s.history, d).Some? && Latest(s.history, c).value.next.tid != 0
    ==> Latest(s.history, c).value.next.tid != Latest(s.history, d).value.next.tid
  }

  /** Only a thread of a known group can be asleep. */
  ghost predicate HousedOk(s: System, tid: Pid) {
    tid != 0 && Asleep(LastEdge(s.history, tid)) ==> !FreeTid(s, tid)
  }

  /** The counter never exceeds the sleep it could measure. */
  predicate IoNoMore(s: System, g: Pid) {
    Total(s.maps.iowaitNs, g) + Slept(s.history, g, true) <= Slept(s.history, g, false)
  }

  ghost predicate IoInv(s: System) {
    && s.maps.WellFormed()
    && (forall tid :: StampOk(s, tid))
    && (forall c :: PlacedOk(s, c))
    && (forall c, d :: ApartOk(s, c, d))
    && (forall tid :: HousedOk(s, tid))
    && (forall g :: g != 0 ==> IoNoMore(s, g))
    && |s.maps.sleepSince| <= s.maps.sleepCapacity
    && 0 !in s.maps.iowaitNs
  }

  predicate IoRemoves(s: System, e: Event, g: Pid) {
    || e == EvictIo(e.at, g)
    || (e.Reap? && s.maps.exits != [] && s.maps.exits[0] == g)
  }

  lemma InitIoInv(s: System)
    requires Init(s)
    ensures IoInv(s)
  {
  }

  // ---- one event ----

  /** A thread leaving a CPU has no stamp yet, and has nothing to do with the one coming in. */
  lemma LeaverIsAwake(s: System, e: Event)
    requires IoInv(s) && Enabled(s, e) && e.Sched? && e.prev.tid != 0
    ensures e.prev.tid !in s.maps.sleepSince && e.prev.tid != e.next.tid
    ensures !LastEdge(s.history, e.prev.tid).WentOut?
  {
    assert PlacedOk(s, e.cpu) && StampOk(s, e.prev.tid);
  }

  /** Bits 1 and 10 of the state tell a D sleep: uninterruptible, and not an idle kernel thread's. */
  predicate LeavesAsleep(e: Event) {
    e.Sched? && e.prev.tid != 0 && (e.state >> 1) & 1 == 1 && (e.state >> 10) & 1 == 0
  }

  /** A sleep goes unmeasured exactly when it begins with the stamp map full. */
  lemma DroppedIffFull(s: System, e: Event)
    requires IoInv(s) && Enabled(s, e) && e.Sched?
    ensures Record(s.maps, e).dropped <==> LeavesAsleep(e) && |s.maps.sleepSince| == s.maps.sleepCapacity
  {
    if e.prev.tid != 0 { LeaverIsAwake(s, e); }
  }

  /** While there is room, a thread that leaves in a D sleep has its stamp after the switch, and only such a thread. */
  lemma RoomMeansStamped(s: System, e: Event)
    requires IoInv(s) && Enabled(s, e) && e.Sched? && e.prev.tid != 0
    ensures |s.maps.sleepSince| < s.maps.sleepCapacity ==>
              (LeavesAsleep(e) <==> e.prev.tid in Apply(s, e).maps.sleepSince)
    ensures e.prev.tid in Apply(s, e).maps.sleepSince ==>
              LeavesAsleep(e) && Apply(s, e).maps.sleepSince[e.prev.tid] == e.at
  {
    LeaverIsAwake(s, e);
  }

  lemma SwitchStamps(s: System, e: Event, tid: Pid)
    requires IoInv(s) && Enabled(s, e) && e.Sched?
    ensures StampOk(Apply(s, e), tid)
  {
    assert StampOk(s, tid);
    LastEdgeAppend(s.history, Record(s.maps, e), tid);
    if e.prev.tid != 0 { LeaverIsAwake(s, e); }
  }

  lemma SwitchPlaces(s: System, e: Event, c: nat, d: nat)
    requires IoInv(s) && Enabled(s, e) && e.Sched?
    ensures PlacedOk(Apply(s, e), c) && ApartOk(Apply(s, e), c, d)
  {
    var rec := Record(s.maps, e);
    LatestAppend(s.history, rec, c);
    LatestAppend(s.history, rec, d);
    assert PlacedOk(s, c) && PlacedOk(s, d) && PlacedOk(s, e.cpu);
    assert ApartOk(s, c, d) && ApartOk(s, c, e.cpu);
    if Latest(s.history, c).Some? {
      LastEdgeAppend(s.history, rec, Latest(s.history, c).value.next.tid);
    }
    LastEdgeAppend(s.history, rec, e.next.tid);
  }

  lemma StepHoused(s: System, e: Event, tid: Pid)
    requires IoInv(s) && Enabled(s, e)
    ensures HousedOk(Apply(s, e), tid)
  {
    assert HousedOk(s, tid);
    var s' := Apply(s, e);
    if e.Sched? { LastEdgeAppend(s.history, Record(s.maps, e), tid); }
    if tid != 0 && Asleep(LastEdge(s'.history, tid)) {
      if e.Sched? && e.prev.tid == tid {
        assert e.prev.tgid in s'.groups && tid in s'.groups[e.prev.tgid].members;
      } else {
        var g :| g in s.groups && tid in s.groups[g].members;
        assert g in s'.groups && tid in s'.groups[g].members;
      }
    }
  }

  /** The sleep the incoming thread has just ended, as its stamp measures it. */
  function Woken(s: System, e: Event): nat
    requires e.Sched?
  {
    if e.next.tid != 0 && e.next.tid in s.maps.sleepSince then SaturatingSub(e.at, s.maps.sleepSince[e.next.tid]) else 0
  }

  /** A switch measures the completed sleep when the stamp was kept, and bills it to the woken process. */
  lemma WakeMeasures(s: System, e: Event)
    requires IoInv(s) && Enabled(s, e) && e.Sched?
    ensures
      var rec := Record(s.maps, e);
      Completed(s.history, rec, false) == Completed(s.history, rec, true) + Woken(s, e)
    ensures NewMaps(s, e).iowaitNs
         == if e.next.tid != 0 && e.next.tid in s.maps.sleepSince
            then AddSlot(s.maps.iowaitNs, s.maps.Cpus(), e.cpu, e.next.tgid, Woken(s, e)) else s.maps.iowaitNs
  {
    assert StampOk(s, e.next.tid);
    if e.prev.tid != 0 { LeaverIsAwake(s, e); }
  }

  /** What one event adds to a counter, against what it adds to the true sleep. */
  lemma {:induction false} StepSlept(s: System, e: Event, g: Pid)
    requires IoInv(s) && Enabled(s, e) && g != 0
    ensures
      var s' := Apply(s, e);
      var all := Slept(s'.history, g, false) - Slept(s.history, g, false);
      var lost := Slept(s'.history, g, true) - Slept(s.history, g, true);
      && 0 <= lost <= all
      && Total(s'.maps.iowaitNs, g) <= Total(s.maps.iowaitNs, g) + all - lost
      && (IoRemoves(s, e, g) ==> Total(s'.maps.iowaitNs, g) == 0)
      && (!IoRemoves(s, e, g) && Slept(s'.history, g, false) <= U64_MAX
          ==> Total(s'.maps.iowaitNs, g) == Total(s.maps.iowaitNs, g) + all - lost)
  {
    if e.Sched? { SwitchSlept(s, e, g); }
  }

  lemma {:induction false} SwitchSlept(s: System, e: Event, g: Pid)
    requires IoInv(s) && Enabled(s, e) && e.Sched? && g != 0
    ensures
      var h, h' := s.history, s.history + [Record(s.maps, e)];
      var all := Slept(h', g, false) - Slept(h, g, false);
      var lost := Slept(h', g, true) - Slept(h, g, true);
      var after := Total(NewMaps(s, e).iowaitNs, g);
      && 0 <= lost <= all
      && after <= Total(s.maps.iowaitNs, g) + all - lost
      && (Slept(h', g, false) <= U64_MAX ==> after == Total(s.maps.iowaitNs, g) + all - lost)
  {
    var rec := Record(s.maps, e);
    SleptAppend(s.history, rec, g, false);
    SleptAppend(s.history, rec, g, true);
    WakeMeasures(s, e);
    assert IoNoMore(s, g);
    var n, ns := s.maps.Cpus(), s.maps.iowaitNs;
    AddSlotAtMost(ns, n, e.cpu, e.next.tgid, Woken(s, e), g);
    SlotWithinTotal(ns, e.cpu, g);
    if e.next.tgid != g {
      OtherKeysStand(ns, n, e.cpu, e.next.tgid, Woken(s, e), g);
    } else if Slept(s.history + [rec], g, false) <= U64_MAX {
      AddSlotEffect(ns, n, e.cpu, g, Woken(s, e), e.cpu, g);
    }
  }

  lemma OtherKeysStand(ns: PerCpu, n: nat, c: nat, g: Pid, x: nat, g': Pid)
    requires Rows(ns, n) && c < n && g != g'
    ensures Total(AddSlot(ns, n, c, g, x), g') == Total(ns, g')
  {
  }

  lemma StepIoInv(s: System, e: Event)
    requires IoInv(s) && Enabled(s, e)
    ensures IoInv(Apply(s, e))
  {
    var s' := Apply(s, e);
    forall tid ensures StampOk(s', tid) && HousedOk(s', tid) {
      assert StampOk(s, tid);
      if e.Sched? { SwitchStamps(s, e, tid); }
      StepHoused(s, e, tid);
    }
    forall c ensures PlacedOk(s', c) {
      assert PlacedOk(s, c);
      if e.Sched? { SwitchPlaces(s, e, c, c); }
    }
    forall c, d ensures ApartOk(s', c, d) {
      assert ApartOk(s, c, d);
      if e.Sched? { SwitchPlaces(s, e, c, d); }
    }
    forall g | g != 0 ensures IoNoMore(s', g) {
      assert IoNoMore(s, g);
      StepSlept(s, e, g);
    }
  }

  /** The exit hook's `forget_thread` never has anything to forget: the thread is on a CPU. */
  lemma ForgetFindsNothing(s: System, e: Event)
    requires IoInv(s) && Enabled(s, e) && e.ExitTrace?
    ensures e.tid !in s.maps.sleepSince && s.maps.ForgetThread(e.tid) == s.maps
  {
    assert StampOk(s, e.tid);
    assert s.maps.sleepSince - {e.tid} == s.maps.sleepSince;
  }

  /**
   A finished thread leaves no stamp behind, whether its id is freed at its own exit
   or with its group, and a recycled id never inherits one.
  */
  lemma NoStampOutlivesItsThread(s: System, e: Event)
    requires IoInv(s) && Enabled(s, e)
    ensures e.Reclaim? ==> e.tid !in s.maps.sleepSince
    ensures e.Release? ==> forall tid :: tid in s.groups[e.tgid].members ==> tid !in s.maps.sleepSince
    ensures e.Spawn? ==> e.tid !in s.maps.sleepSince
  {
    if e.Release? {
      forall tid | tid in s.groups[e.tgid].members ensures tid !in s.maps.sleepSince { assert StampOk(s, tid); }
    }
    if e.Reclaim? { assert StampOk(s, e.tid); }
    if e.Spawn? { assert StampOk(s, e.tid) && HousedOk(s, e.tid); }
  }

  /** The stamp map is no larger than the threads in D sleep at once. */
  lemma StampsBoundedBySleepers(s: System, sleepers: set<Pid>)
    requires IoInv(s)
    requires forall tid :: tid != 0 && Asleep(LastEdge(s.history, tid)) ==> tid in sleepers
    ensures s.maps.sleepSince.Keys <= sleepers && |s.maps.sleepSince| <= |sleepers|
  {
    forall tid | tid in s.maps.sleepSince ensures tid in sleepers { assert StampOk(s, tid); }
    SubsetSize(s.maps.sleepSince.Keys, sleepers);
  }

  // ---- whole runs ----

  ghost predicate IoRemoved(s: System, es: seq<Event>, g: Pid)
    requires s.maps.WellFormed() && Possible(s, es)
    decreases |es|
  {
    es != [] && (IoRemoves(s, es[0], g) || IoRemoved(Apply(s, es[0]), es[1..], g))
  }

  /**
   Along any run a counter grows by at most the D-sleep its threads completed in
   stamps that were kept; by exactly that, when the counter is left alone.
  */
  lemma {:induction false} IoFollowsTruth(s: System, es: seq<Event>, g: Pid)
    requires IoInv(s) && Possible(s, es) && g != 0
    ensures
      var r := Run(s, es);
      var all := Slept(r.history, g, false) - Slept(s.history, g, false);
      var lost := Slept(r.history, g, true) - Slept(s.history, g, true);
      && IoInv(r) && 0 <= lost <= all
      && Total(r.maps.iowaitNs, g) <= Total(s.maps.iowaitNs, g) + all - lost
      && (!IoRemoved(s, es, g) && Slept(r.history, g, false) <= U64_MAX
          ==> Total(r.maps.iowaitNs, g) == Total(s.maps.iowaitNs, g) + all - lost)
    decreases |es|
  {
    if es != [] {
      StepSlept(s, es[0], g);
      StepIoInv(s, es[0]);
      IoFollowsTruth(Apply(s, es[0]), es[1..], g);
    }
  }

  /** From attach on: counter plus dropped intervals is every completed D sleep of the process. */
  lemma {:induction false} IoWaitIsExact(s: System, es: seq<Event>, g: Pid)
    requires Init(s) && Possible(s, es) && g != 0 && !IoRemoved(s, es, g)
    requires Slept(Run(s, es).history, g, false) <= U64_MAX
    ensures Total(Run(s, es).maps.iowaitNs, g) + Slept(Run(s, es).history, g, true)
         == Slept(Run(s, es).history, g, false)
  {
    InitIoInv(s);
    IoFollowsTruth(s, es, g);
  }

  /** In every reachable state the stamps are exactly the kept D sleeps, dated by their switch-out. */
  lemma {:induction false} StampsAreSleepers(s: System, es: seq<Event>, tid: Pid)
    requires Init(s) && Possible(s, es)
    ensures StampOk(Run(s, es), tid) && |Run(s, es).maps.sleepSince| <= s.maps.sleepCapacity
    ensures Run(s, es).maps.sleepCapacity == s.maps.sleepCapacity
  {
    InitIoInv(s);
    IoFollowsTruth(s, es, 1);
    CapacityIsFixed(s, es);
  }

  lemma {:induction false} CapacityIsFixed(s: System, es: seq<Event>)
    requires s.maps.WellFormed() && Possible(s, es)
    ensures Run(s, es).maps.sleepCapacity == s.maps.sleepCapacity
    decreases |es|
  {
    if es != [] { CapacityIsFixed(Apply(s, es[0]), es[1..]); }
  }
}
