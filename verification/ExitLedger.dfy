/**
 Announcing the dead and closing their books: who is announced, in what order the
 ring is drained, and what happens to the time the reaper deletes.
*/
module ExitLedger {
  import opened Prelude
  import opened History
  import opened Kernel
  import opened System
  import opened CpuAccounting

  /** Records drained per reaping pass, at most. */
  const BUDGET: nat := 4096

  // ---- announcement ----

  /** A group that is over has had a record offered, unless some exit could not read `live`. */
  ghost predicate ExitInv(s: System) {
    && s.maps.WellFormed()
    && GroupsOk(s.groups)
    && forall g :: g in s.groups && Finished(s.groups[g]) ==> s.groups[g].offered + s.groups[g].unread >= 1
  }

  lemma SpawnLiving(s: System, e: Event, g: Pid)
    requires ExitInv(s) && Enabled(s, e) && e.Spawn? && g in Apply(s, e).groups
    ensures |Living(Apply(s, e).groups[g])| == Apply(s, e).groups[g].live
  {
    var after := Apply(s, e).groups[g];
    if g == e.tgid {
      if g in s.groups {
        assert Living(after) == Living(s.groups[g]) + {e.tid};
      } else {
        assert Living(after) == {e.tid};
      }
    }
  }

  lemma ExitLiving(s: System, e: Event, g: Pid)
    requires ExitInv(s) && Enabled(s, e) && (e.ExitBegin? || e.ExitTrace?) && g in Apply(s, e).groups
    ensures |Living(Apply(s, e).groups[g])| == Apply(s, e).groups[g].live
  {
    var after := Apply(s, e).groups[g];
    if g == e.tgid {
      var living := Living(s.groups[g]);
      assert Living(after) == if e.ExitBegin? then living - {e.tid} else living;
    }
  }

  /** `live` counts the group's running threads. */
  lemma StepLiving(s: System, e: Event, g: Pid)
    requires ExitInv(s) && Enabled(s, e) && g in Apply(s, e).groups
    ensures |Living(Apply(s, e).groups[g])| == Apply(s, e).groups[g].live
  {
    if e.Spawn? {
      SpawnLiving(s, e, g);
    } else if e.ExitBegin? || e.ExitTrace? {
      ExitLiving(s, e, g);
    } else {
      assert Living(Apply(s, e).groups[g]) == Living(s.groups[g]);
    }
  }

  /** A thread of a group after an event was one before, or is the one just spawned. */
  lemma StepMember(s: System, e: Event, g: Pid, m: Pid)
    requires ExitInv(s) && Enabled(s, e) && g in Apply(s, e).groups && m in Apply(s, e).groups[g].members
    ensures g != 0 && m != 0
    ensures if e.Spawn? && m == e.tid then g == e.tgid else g in s.groups && m in s.groups[g].members
  {
  }

  lemma StepGroupsOk(s: System, e: Event)
    requires ExitInv(s) && Enabled(s, e)
    ensures GroupsOk(Apply(s, e).groups)
  {
    var groups := Apply(s, e).groups;
    forall g | g in groups ensures g != 0 && 0 !in groups[g].members && |Living(groups[g])| == groups[g].live {
      StepLiving(s, e, g);
      if 0 in groups[g].members { StepMember(s, e, g, 0); }
    }
    forall g, k, m | g in groups && k in groups && m in groups[g].members && m in groups[k].members ensures g == k {
      StepMember(s, e, g, m);
      StepMember(s, e, k, m);
    }
  }

  lemma StepExitInv(s: System, e: Event)
    requires ExitInv(s) && Enabled(s, e)
    ensures ExitInv(Apply(s, e))
  {
    StepGroupsOk(s, e);
    forall g | g in Apply(s, e).groups && Finished(Apply(s, e).groups[g])
      ensures Apply(s, e).groups[g].offered + Apply(s, e).groups[g].unread >= 1
    {
      FinishIsOffered(s, e, g);
    }
  }

  lemma FinishIsOffered(s: System, e: Event, g: Pid)
    requires ExitInv(s) && Enabled(s, e) && g in Apply(s, e).groups && Finished(Apply(s, e).groups[g])
    ensures Apply(s, e).groups[g].offered + Apply(s, e).groups[g].unread >= 1
  {
    var after := Apply(s, e).groups[g];
    StepLiving(s, e, g);
    assert Living(after) == {};
    if e.Spawn? || e.ExitBegin? { StillRunning(s, e); }
    if g in s.groups && !Finished(s.groups[g]) {
      var m :| m in s.groups[g].members && s.groups[g].members[m] != Traced;
      assert m in after.members && after.members[m] == Traced;
      assert e.ExitTrace? && e.tgid == g && after.live == s.groups[g].live;
    }
  }

  lemma StillRunning(s: System, e: Event)
    requires ExitInv(s) && Enabled(s, e) && (e.Spawn? || e.ExitBegin?)
    ensures !Finished(Apply(s, e).groups[e.tgid])
  {
    if e.ExitBegin? { assert e.tid in Living(s.groups[e.tgid]); }
    assert Apply(s, e).groups[e.tgid].members[e.tid] != Traced;
  }

  /**
   The tracepoint offers a record exactly when no thread of the group is still
   running normally, the leader or any other, and `live` could be read.
  */
  lemma AnnouncesExactlyTheDead(s: System, e: Event)
    requires ExitInv(s) && Enabled(s, e) && e.ExitTrace?
    ensures
      var before, after := s.groups[e.tgid], Apply(s, e).groups[e.tgid];
      (after.offered == before.offered + 1 <==>
         e.readable && forall m :: m in before.members ==> before.members[m] != Alive)
    ensures Apply(s, e).maps.exits == s.maps.exits
         || (Apply(s, e).maps.exits == s.maps.exits + [e.tgid] && Living(s.groups[e.tgid]) == {})
  {
    var group := s.groups[e.tgid];
    if exists m :: m in group.members && group.members[m] == Alive {
      var m :| m in group.members && group.members[m] == Alive;
      assert m in Living(group);
    } else {
      assert Living(group) == {};
    }
  }

  lemma {:induction false} RunKeepsExitInv(s: System, es: seq<Event>)
    requires ExitInv(s) && Possible(s, es)
    ensures ExitInv(Run(s, es))
    decreases |es|
  {
    if es != [] {
      StepExitInv(s, es[0]);
      RunKeepsExitInv(Apply(s, es[0]), es[1..]);
    }
  }

  /**
   In every state reached from attach, a group whose last tracepoint has fired was
   offered to the ring, unless an exit of the group could not read `live`.
  */
  lemma {:induction false} EveryDeathIsOffered(s: System, es: seq<Event>, g: Pid)
    requires Init(s) && Possible(s, es)
    requires g in Run(s, es).groups
    requires forall m :: m in Run(s, es).groups[g].members ==> Run(s, es).groups[g].members[m] == Traced
    ensures Run(s, es).groups[g].offered + Run(s, es).groups[g].unread >= 1
  {
    InitExitInv(s);
    RunKeepsExitInv(s, es);
  }

  lemma InitExitInv(s: System)
    requires Init(s)
    ensures ExitInv(s)
  {
  }

  // ---- how often ----

  /** The threads of a group between its `live` decrement and its exit tracepoint. */
  ghost function Leaving(g: Group): set<Pid> {
    set m | m in g.members && g.members[m] == Exiting
  }

  /** The run does not free the id of group `g`. */
  predicate Unreleased(es: seq<Event>, g: Pid) {
    forall i :: 0 <= i < |es| && es[i].Release? ==> es[i].tgid != g
  }

  lemma BeginNeedsLiving(s: System, e: Event)
    requires Enabled(s, e) && e.ExitBegin?
    ensures e.tgid in s.groups && Living(s.groups[e.tgid]) != {}
  {
    assert e.tid in Living(s.groups[e.tgid]);
  }

  /** Once `live` is zero, each leaving thread's tracepoint is one record offered or one failed read. */
  lemma StepLeaving(s: System, e: Event, g: Pid)
    requires ExitInv(s) && Enabled(s, e) && g in s.groups && s.groups[g].live == 0 && !(e.Release? && e.tgid == g)
    ensures
      var before := s.groups[g];
      && g in Apply(s, e).groups
      && var after := Apply(s, e).groups[g];
      && after.live == 0 && before.offered <= after.offered && before.unread <= after.unread
      && after.offered + after.unread + |Leaving(after)| == before.offered + before.unread + |Leaving(before)|
  {
    var before, after := s.groups[g], Apply(s, e).groups[g];
    assert Living(before) == {};
    if e.Spawn? { CloneNeedsLiving(s, e); }
    if e.ExitBegin? { BeginNeedsLiving(s, e); }
    if e.ExitTrace? && e.tgid == g {
      assert Leaving(after) == Leaving(before) - {e.tid};
    } else {
      assert Leaving(after) == Leaving(before);
    }
  }

  /**
   From a first record on, the records that can still follow are exactly as many as
   the threads then leaving, less the exits that could not read `live`: over every
   run, until the id is freed.
  */
  lemma {:induction false} OffersThatFollow(s: System, es: seq<Event>, g: Pid)
    requires ExitInv(s) && Possible(s, es) && g in s.groups && s.groups[g].live == 0 && Unreleased(es, g)
    ensures
      var before, r := s.groups[g], Run(s, es);
      && g in r.groups
      && var after := r.groups[g];
      && before.offered <= after.offered && before.unread <= after.unread
      && (after.offered - before.offered) + (after.unread - before.unread) == |Leaving(before)| - |Leaving(after)|
      && ((forall m :: m in after.members ==> after.members[m] == Traced) ==>
            (after.offered - before.offered) + (after.unread - before.unread) == |Leaving(before)|)
    decreases |es|
  {
    if es != [] {
      StepLeaving(s, es[0], g);
      StepExitInv(s, es[0]);
      assert Unreleased(es[1..], g);
      OffersThatFollow(Apply(s, es[0]), es[1..], g);
    }
    if forall m :: m in Run(s, es).groups[g].members ==> Run(s, es).groups[g].members[m] == Traced {
      assert Leaving(Run(s, es).groups[g]) == {};
    }
  }

  /**
   So when a tracepoint offers a record, the further records of its group are at most
   as many as the other threads then leaving, and none if there was no other.
  */
  lemma {:induction false} OffersAfterAnOffer(s: System, e: Event, es: seq<Event>)
    requires ExitInv(s) && Enabled(s, e) && e.ExitTrace?
    requires Apply(s, e).groups[e.tgid].offered > s.groups[e.tgid].offered
    requires Possible(Apply(s, e), es) && Unreleased(es, e.tgid)
    ensures
      var others, offered := Leaving(s.groups[e.tgid]) - {e.tid}, Apply(s, e).groups[e.tgid].offered;
      var r := Run(Apply(s, e), es);
      && e.tgid in r.groups
      && offered <= r.groups[e.tgid].offered <= offered + |others|
      && ((forall m :: m in r.groups[e.tgid].members ==> r.groups[e.tgid].members[m] == Traced)
          && r.groups[e.tgid].unread == s.groups[e.tgid].unread ==>
            r.groups[e.tgid].offered == offered + |others|)
  {
    StepExitInv(s, e);
    assert Leaving(Apply(s, e).groups[e.tgid]) == Leaving(s.groups[e.tgid]) - {e.tid};
    OffersThatFollow(Apply(s, e), es, e.tgid);
  }

  // ---- the ring is a queue ----

  function PoppedBy(s: System, e: Event): seq<Pid> {
    if e.Reap? && s.maps.exits != [] then [s.maps.exits[0]] else []
  }

  function ArrivedBy(s: System, e: Event): seq<Pid>
  {
    if e.ExitTrace? && e.tid != 0 && e.readable && e.tgid in s.groups && s.groups[e.tgid].live == 0
       && |s.maps.exits| < s.maps.ringCapacity
    then [e.tgid] else []
  }

  ghost function Popped(s: System, es: seq<Event>): seq<Pid>
    requires s.maps.WellFormed() && Possible(s, es)
    decreases |es|
  {
    if es == [] then [] else PoppedBy(s, es[0]) + Popped(Apply(s, es[0]), es[1..])
  }

  ghost function Arrived(s: System, es: seq<Event>): seq<Pid>
    requires s.maps.WellFormed() && Possible(s, es)
    decreases |es|
  {
    if es == [] then [] else ArrivedBy(s, es[0]) + Arrived(Apply(s, es[0]), es[1..])
  }

  lemma StepIsFifo(s: System, e: Event)
    requires s.maps.WellFormed() && Enabled(s, e)
    ensures PoppedBy(s, e) + Apply(s, e).maps.exits == s.maps.exits + ArrivedBy(s, e)
  {
  }

  /** What was queued and what arrived is what was popped and what is queued, in one order. */
  lemma {:induction false} RingIsFifo(s: System, es: seq<Event>)
    requires s.maps.WellFormed() && Possible(s, es)
    ensures Popped(s, es) + Run(s, es).maps.exits == s.maps.exits + Arrived(s, es)
    decreases |es|
  {
    if es != [] {
      var s' := Apply(s, es[0]);
      RingIsFifo(s', es[1..]);
      StepIsFifo(s, es[0]);
      Splice(PoppedBy(s, es[0]), Popped(s', es[1..]), Run(s, es).maps.exits,
             s.maps.exits, ArrivedBy(s, es[0]), Arrived(s', es[1..]), s'.maps.exits);
    }
  }

  lemma Splice(p: seq<Pid>, ps: seq<Pid>, end: seq<Pid>, start: seq<Pid>, a: seq<Pid>, more: seq<Pid>, mid: seq<Pid>)
    requires p + mid == start + a && ps + end == mid + more
    ensures (p + ps) + end == start + (a + more)
  {
    assert (p + ps) + end == p + (ps + end) == (p + mid) + more == (start + a) + more;
  }

  /** One tick's worth of events up to the end of its reaping: the budget is spent or the ring is found empty. */
  ghost predicate Pass(s: System, es: seq<Event>)
    requires s.maps.WellFormed()
  {
    && Possible(s, es)
    && |Popped(s, es)| <= BUDGET
    && (|Popped(s, es)| == BUDGET || Run(s, es).maps.exits == [])
  }

  ghost predicate Passes(s: System, runs: seq<seq<Event>>)
    requires s.maps.WellFormed()
    decreases |runs|
  {
    runs == [] || (Pass(s, runs[0]) && Passes(Run(s, runs[0]), runs[1..]))
  }

  ghost function PoppedInPasses(s: System, runs: seq<seq<Event>>): seq<Pid>
    requires s.maps.WellFormed() && Passes(s, runs)
    decreases |runs|
  {
    if runs == [] then [] else Popped(s, runs[0]) + PoppedInPasses(Run(s, runs[0]), runs[1..])
  }

  /** The two begin with the same `p` records. */
  predicate Heads(popped: seq<Pid>, queue: seq<Pid>, p: nat) {
    p <= |popped| && p <= |queue| && popped[..p] == queue[..p]
  }

  /** After k passes the first 4096k records of the queue are gone, in order, whatever arrived behind them. */
  lemma {:induction false} DrainBound(s: System, runs: seq<seq<Event>>, p: nat)
    requires s.maps.WellFormed() && Passes(s, runs)
    requires p <= |s.maps.exits| && p <= BUDGET * |runs|
    ensures Heads(PoppedInPasses(s, runs), s.maps.exits, p)
    decreases |runs|
  {
    if runs != [] {
      var first, t := Popped(s, runs[0]), Run(s, runs[0]);
      var rest := PoppedInPasses(t, runs[1..]);
      assert PoppedInPasses(s, runs) == first + rest;
      PassPops(s, runs[0], p);
      if p > |first| { DrainBound(t, runs[1..], p - |first|); }
      PopOn(first, rest, t.maps.exits, s.maps.exits, Arrived(s, runs[0]), p);
    }
  }

  /** A pass that stops short of the first `p` records has spent its budget, and the others are still queued. */
  lemma {:induction false} PassPops(s: System, es: seq<Event>, p: nat)
    requires s.maps.WellFormed() && Pass(s, es) && p <= |s.maps.exits|
    ensures Popped(s, es) + Run(s, es).maps.exits == s.maps.exits + Arrived(s, es)
    ensures p > |Popped(s, es)| ==> |Popped(s, es)| == BUDGET && p - BUDGET <= |Run(s, es).maps.exits|
  {
    RingIsFifo(s, es);
    assert |Popped(s, es) + Run(s, es).maps.exits| == |s.maps.exits + Arrived(s, es)|;
  }

  /** The head of a queue that is popped in two goes. */
  lemma PopOn(first: seq<Pid>, rest: seq<Pid>, left: seq<Pid>, queue: seq<Pid>, more: seq<Pid>, p: nat)
    requires first + left == queue + more && p <= |queue|
    requires p > |first| ==> Heads(rest, left, p - |first|)
    ensures Heads(first + rest, queue, p)
  {
    assert queue[..p] == (queue + more)[..p] == (first + left)[..p];
    if p > |first| {
      assert (first + rest)[..p] == first + rest[..p - |first|];
      assert (first + left)[..p] == first + left[..p - |first|];
    }
  }

  /** With at most a budget's worth of arrivals per pass, the backlog never grows. */
  lemma {:induction false} BacklogNeverGrows(s: System, es: seq<Event>)
    requires s.maps.WellFormed() && Pass(s, es) && |Arrived(s, es)| <= BUDGET
    ensures |Run(s, es).maps.exits| <= |s.maps.exits|
  {
    RingIsFifo(s, es);
    assert |Popped(s, es) + Run(s, es).maps.exits| == |s.maps.exits + Arrived(s, es)|;
  }

  // ---- the reaper and the living ----

  /** Every queued record names a group that is gone or has no running thread. */
  ghost predicate QueuedAreDead(s: System) {
    forall g :: g in s.maps.exits && g in s.groups ==> Living(s.groups[g]) == {}
  }

  /** No process id is handed out again while a record of its last holder is queued. */
  ghost predicate IdsRest(s: System, es: seq<Event>)
    requires s.maps.WellFormed() && Possible(s, es)
    decreases |es|
  {
    es == [] || (&& (es[0].Spawn? && es[0].tgid !in s.groups ==> es[0].tgid !in s.maps.exits)
                 && IdsRest(Apply(s, es[0]), es[1..]))
  }

  /** Ids rest when none that the run hands out is queued at its start or announced during it. */
  predicate FreshIds(s: System, es: seq<Event>) {
    forall i :: 0 <= i < |es| && es[i].Spawn? ==>
      es[i].tgid !in s.maps.exits && forall j :: 0 <= j < |es| && es[j].ExitTrace? ==> es[j].tgid != es[i].tgid
  }

  lemma {:induction false} FreshIdsRest(s: System, es: seq<Event>)
    requires s.maps.WellFormed() && Possible(s, es) && FreshIds(s, es)
    ensures IdsRest(s, es)
    decreases |es|
  {
    if es != [] {
      var s', rest := Apply(s, es[0]), es[1..];
      forall i | 0 <= i < |rest| && rest[i].Spawn?
        ensures rest[i].tgid !in s'.maps.exits
        ensures forall j :: 0 <= j < |rest| && rest[j].ExitTrace? ==> rest[j].tgid != rest[i].tgid
      {
        assert rest[i] == es[i + 1];
        QueueGrowsBy(s, es[0], rest[i].tgid);
      }
      FreshIdsRest(s', rest);
    }
  }

  /** Only a tracepoint of its own group queues an id. */
  lemma QueueGrowsBy(s: System, e: Event, g: Pid)
    requires s.maps.WellFormed() && Enabled(s, e) && g !in s.maps.exits && !(e.ExitTrace? && e.tgid == g)
    ensures g !in Apply(s, e).maps.exits
  {
  }

  lemma CloneNeedsLiving(s: System, e: Event)
    requires Enabled(s, e) && e.Spawn?
    ensures e.tgid in s.groups ==> Living(s.groups[e.tgid]) != {}
  {
    if e.tgid in s.groups {
      var m :| InPhase(s, m, e.tgid, Alive);
      assert m in Living(s.groups[e.tgid]);
    }
  }

  /** The one event that can put a living group behind a queued record is handing its id out again. */
  lemma StepQueued(s: System, e: Event)
    requires ExitInv(s) && Enabled(s, e) && QueuedAreDead(s)
    ensures QueuedAreDead(Apply(s, e)) <==> !(e.Spawn? && e.tgid !in s.groups && e.tgid in s.maps.exits)
  {
    var s' := Apply(s, e);
    if e.Spawn? && e.tgid !in s.groups && e.tgid in s.maps.exits {
      assert e.tid in Living(s'.groups[e.tgid]);
    } else {
      forall g | g in s'.maps.exits && g in s'.groups
        ensures Living(s'.groups[g]) == {}
      {
        if e.ExitTrace? { AnnouncesExactlyTheDead(s, e); }
        if e.Spawn? { CloneNeedsLiving(s, e); }
        assert g in s.groups && Living(s.groups[g]) == {};
        assert forall m :: m in Living(s'.groups[g]) ==> m in Living(s.groups[g]);
      }
    }
  }

  /** Over every run, if ids rest while queued, no group with a running thread is ever queued, so none is reaped. */
  lemma {:induction false} ReaperSparesTheLiving(s: System, es: seq<Event>)
    requires ExitInv(s) && QueuedAreDead(s) && Possible(s, es) && IdsRest(s, es)
    ensures
      var r := Run(s, es);
      && QueuedAreDead(r)
      && forall at, g :: Enabled(r, Reap(at)) && Removes(r, Reap(at), g) && g in r.groups ==>
           forall m :: m in r.groups[g].members ==> r.groups[g].members[m] != Alive
    decreases |es|
  {
    if es != [] {
      StepQueued(s, es[0]);
      StepExitInv(s, es[0]);
      ReaperSparesTheLiving(Apply(s, es[0]), es[1..]);
    } else {
      forall at, g, m | Enabled(s, Reap(at)) && Removes(s, Reap(at), g) && g in s.groups && m in s.groups[g].members
        ensures s.groups[g].members[m] != Alive
      {
        assert Living(s.groups[g]) == {};
        assert m !in Living(s.groups[g]);
      }
    }
  }

  // ---- the ledger of charged and deleted time ----

  /** The slice a switch charges to `g`. */
  function Charge(s: System, e: Event, g: Pid): nat
    requires s.maps.WellFormed() && (e.Sched? ==> e.cpu < s.maps.Cpus())
  {
    if e.Sched? && e.prev.tid != 0 && e.prev.tgid == g && s.maps.startTime[e.cpu] != 0
    then SaturatingSub(e.at, s.maps.startTime[e.cpu]) else 0
  }

  ghost function Charged(s: System, es: seq<Event>, g: Pid): nat
    requires s.maps.WellFormed() && Possible(s, es)
    decreases |es|
  {
    if es == [] then 0 else Charge(s, es[0], g) + Charged(Apply(s, es[0]), es[1..], g)
  }

  ghost function Deleted(s: System, es: seq<Event>, g: Pid): nat
    requires s.maps.WellFormed() && Possible(s, es)
    decreases |es|
  {
    if es == [] then 0
    else (if Removes(s, es[0], g) then Total(s.maps.cpuNs, g) else 0) + Deleted(Apply(s, es[0]), es[1..], g)
  }

  lemma SwitchTotal(s: System, e: Event, g: Pid)
    requires CpuInv(s) && Enabled(s, e) && e.Sched?
    ensures Total(NewMaps(s, e).cpuNs, g) == Total(s.maps.cpuNs, g) + Charge(s, e, g)
  {
    var charged := s.maps.ChargeOut(e.cpu, e.prev.tid, e.prev.tgid, e.at);
    if e.prev.tid != 0 && s.maps.startTime[e.cpu] != 0 {
      ChargeIsExact(s, e);
      AddSlotEffect(s.maps.cpuNs, s.maps.Cpus(), e.cpu, e.prev.tgid, e.at - s.maps.startTime[e.cpu], e.cpu, g);
    }
    assert NewMaps(s, e).cpuNs == charged.cpuNs;
  }

  lemma StepTotal(s: System, e: Event, g: Pid)
    requires CpuInv(s) && Enabled(s, e)
    ensures Total(Apply(s, e).maps.cpuNs, g)
         == if Removes(s, e, g) then 0 else Total(s.maps.cpuNs, g) + Charge(s, e, g)
  {
    if e.Sched? { SwitchTotal(s, e, g); }
  }

  /** Every nanosecond ever charged is still in the counter or was deleted from it. */
  lemma {:induction false} LedgerBalances(s: System, es: seq<Event>, g: Pid)
    requires CpuInv(s) && Possible(s, es)
    ensures Total(Run(s, es).maps.cpuNs, g) + Deleted(s, es, g) == Total(s.maps.cpuNs, g) + Charged(s, es, g)
    decreases |es|
  {
    if es != [] {
      StepTotal(s, es[0], g);
      StepCpuInv(s, es[0]);
      LedgerBalances(Apply(s, es[0]), es[1..], g);
    }
  }

  lemma {:induction false} TotalWithinReading(m: Maps, n: nat, g: Pid, t: nat)
    requires m.WellFormed() && n <= m.Cpus()
    ensures ReadingOn(m, n, g, t) == FlightsOn(m, n, g, t) + if g in m.cpuNs then SeqSum(m.cpuNs[g][..n]) else 0
  {
    if n > 0 {
      TotalWithinReading(m, n - 1, g, t);
      if g in m.cpuNs {
        assert m.cpuNs[g][..n][..n - 1] == m.cpuNs[g][..n - 1];
      }
    }
  }

  /** A reading is the summed counter plus the slices in flight: what the batched read and the correction add up to. */
  lemma ReadingIsTotalAndFlights(m: Maps, g: Pid, t: nat)
    requires m.WellFormed()
    ensures Reading(m, g, t) == Total(m.cpuNs, g) + Flights(m, g, t)
  {
    TotalWithinReading(m, m.Cpus(), g, t);
    if g in m.cpuNs { assert m.cpuNs[g][..m.Cpus()] == m.cpuNs[g]; }
  }

  /** Over any run, what is read and what was deleted make up what was read before and what ran since. */
  lemma {:induction false} ReadingsBalance(s: System, es: seq<Event>, g: Pid)
    requires CpuInv(s) && Possible(s, es) && g != 0
    ensures
      var r := Run(s, es);
      && s.clock <= r.clock
      && Reading(r.maps, g, r.clock) + Deleted(s, es, g)
         == Reading(s.maps, g, s.clock) + TrueCpu(r.history, s.maps.Cpus(), g, s.clock, r.clock)
    decreases |es|
  {
    var n := s.maps.Cpus();
    if es == [] {
      TrueCpuSplit(s.history, n, g, s.clock, s.clock, s.clock);
    } else {
      var e, s' := es[0], Apply(s, es[0]);
      StepReading(s, e, n, g);
      ReadingIsTotalAndFlights(s.maps, g, s.clock);
      StepCpuInv(s, e);
      StepHeldCpus(s, e);
      RunKeeps(s', es[1..]);
      ReadingsBalance(s', es[1..], g);
      TrueCpuSplit(Run(s, es).history, n, g, s.clock, s'.clock, Run(s, es).clock);
    }
  }

  /**
   Between a tick's read at `s` and the end of its reaping, what is deleted beyond
   what that read saw was run, and charged, after the read. If nothing was charged
   in between, what is deleted was all in the counter at the read.
  */
  lemma {:induction false} DeletedUnseenRanLater(s: System, es: seq<Event>, g: Pid)
    requires CpuInv(s) && Possible(s, es) && g != 0
    ensures
      var r := Run(s, es);
      && s.clock <= r.clock
      && Deleted(s, es, g) <= Reading(s.maps, g, s.clock) + TrueCpu(r.history, s.maps.Cpus(), g, s.clock, r.clock)
      && Deleted(s, es, g) <= Total(s.maps.cpuNs, g) + Charged(s, es, g)
  {
    ReadingsBalance(s, es, g);
    LedgerBalances(s, es, g);
  }

  /**
   An entry deleted by `e` and made again by a later switch-out holds only slices
   that were in flight at the deletion, and time run since.
  */
  lemma {:induction false} RecreatedHoldsOnlyLaterTime(s: System, e: Event, es: seq<Event>, g: Pid)
    requires CpuInv(s) && Enabled(s, e) && Removes(s, e, g) && g != 0
    requires Possible(Apply(s, e), es) && !Removed(Apply(s, e), es, g)
    ensures
      var s', r := Apply(s, e), Run(Apply(s, e), es);
      && e.at <= r.clock
      && var since := TrueCpu(r.history, s'.maps.Cpus(), g, e.at, r.clock);
      && Reading(r.maps, g, r.clock) == Flights(s.maps, g, e.at) + since
      && Total(r.maps.cpuNs, g) <= Flights(s.maps, g, e.at) + since
  {
    var s', r := Apply(s, e), Run(Apply(s, e), es);
    StepCpuInv(s, e);
    ReadingFollowsTruth(s', es, g);
    ReadingIsTotalAndFlights(s'.maps, g, e.at);
    ReadingIsTotalAndFlights(r.maps, g, r.clock);
    SameWatches(s.maps, s'.maps, s.maps.Cpus(), g, e.at);
  }

  lemma {:induction false} SameWatches(m: Maps, k: Maps, n: nat, g: Pid, t: nat)
    requires m.WellFormed() && k.WellFormed() && n <= m.Cpus()
    requires m.startTime == k.startTime && m.currentTgid == k.currentTgid
    ensures FlightsOn(m, n, g, t) == FlightsOn(k, n, g, t)
  {
    if n > 0 { SameWatches(m, k, n - 1, g, t); }
  }

  // ---- witnesses ----

  /** One CPU, one process of two threads, nothing observed yet. */
  function TwoThreadsIn(one: Phase, two: Phase, live: nat, offered: nat, exits: seq<Pid>, clock: nat): System {
    System(Maps([0], [0], map[], map[], map[], exits, 8, 8), [],
           map[1 := Group(map[1 := one, 2 := two], live, offered, 0)], clock)
  }

  lemma TwoThreadsInit()
    ensures Init(TwoThreadsIn(Alive, Alive, 2, 0, [], 0))
  {
    var s := TwoThreadsIn(Alive, Alive, 2, 0, [], 0);
    assert Living(s.groups[1]) == {1, 2};
    assert s.maps.startTime == seq(s.maps.Cpus(), _ => 0);
    assert s.groups[1].members[1] != Traced;
  }

  lemma OneOfTwoBegins(one: Phase, two: Phase, live: nat, exits: seq<Pid>, clock: nat, at: nat, tid: Pid)
    requires (tid == 1 && one == Alive) || (tid == 2 && two == Alive)
    requires 0 < live && clock <= at <= U64_MAX
    ensures
      var s, e := TwoThreadsIn(one, two, live, 0, exits, clock), ExitBegin(at, tid, 1);
      && Enabled(s, e)
      && Apply(s, e) == TwoThreadsIn(if tid == 1 then Exiting else one, if tid == 2 then Exiting else two,
                                     live - 1, 0, exits, at)
  {
    var members := map[1 := one, 2 := two];
    assert members[tid := Exiting]
        == map[1 := if tid == 1 then Exiting else one, 2 := if tid == 2 then Exiting else two];
    assert forall h :: TwoThreadsIn(one, two, 0, 0, exits, clock).groups[1 := h] == map[1 := h];
  }

  lemma OneOfTwoIsTraced(one: Phase, two: Phase, offered: nat, exits: seq<Pid>, clock: nat, at: nat, tid: Pid)
    requires (tid == 1 && one == Exiting) || (tid == 2 && two == Exiting)
    requires |exits| < 8 && clock <= at <= U64_MAX
    ensures
      var s, e := TwoThreadsIn(one, two, 0, offered, exits, clock), ExitTrace(at, tid, 1, true);
      && Enabled(s, e)
      && Apply(s, e) == TwoThreadsIn(if tid == 1 then Traced else one, if tid == 2 then Traced else two,
                                     0, offered + 1, exits + [1], at)
  {
    var members := map[1 := one, 2 := two];
    assert members[tid := Traced] == map[1 := if tid == 1 then Traced else one, 2 := if tid == 2 then Traced else two];
    assert forall h :: TwoThreadsIn(one, two, 0, 0, exits, clock).groups[1 := h] == map[1 := h];
    assert TwoThreadsIn(one, two, 0, 0, exits, clock).maps.sleepSince - {tid} == map[];
  }

  function BothExit(): seq<Event> {
    [ExitBegin(1, 1, 1), ExitBegin(2, 2, 1)] + BothTraced()
  }

  function BothTraced(): seq<Event> {
    [ExitTrace(3, 1, 1, true), ExitTrace(4, 2, 1, true)]
  }

  lemma BothTracedRun()
    ensures var s := TwoThreadsIn(Exiting, Exiting, 0, 0, [], 2);
      Possible(s, BothTraced()) && Run(s, BothTraced()) == TwoThreadsIn(Traced, Traced, 0, 2, [1, 1], 4)
  {
    var s2 := TwoThreadsIn(Exiting, Exiting, 0, 0, [], 2);
    var s3 := TwoThreadsIn(Traced, Exiting, 0, 1, [1], 3);
    var s4 := TwoThreadsIn(Traced, Traced, 0, 2, [1, 1], 4);
    var e3, e4 := ExitTrace(3, 1, 1, true), ExitTrace(4, 2, 1, true);
    OneOfTwoIsTraced(Exiting, Exiting, 0, [], 2, 3, 1);
    OneOfTwoIsTraced(Traced, Exiting, 1, [1], 3, 4, 2);
    Prepend(s4, [], s3, e4, s4);
    Prepend(s3, [e4], s2, e3, s4);
    assert [e3] + [e4] == BothTraced();
  }

  lemma BothExitRun()
    ensures var s := TwoThreadsIn(Alive, Alive, 2, 0, [], 0);
      Init(s) && Possible(s, BothExit()) && Run(s, BothExit()) == TwoThreadsIn(Traced, Traced, 0, 2, [1, 1], 4)
  {
    TwoThreadsInit();
    BothTracedRun();
    var s0 := TwoThreadsIn(Alive, Alive, 2, 0, [], 0);
    var s1 := TwoThreadsIn(Exiting, Alive, 1, 0, [], 1);
    var s2 := TwoThreadsIn(Exiting, Exiting, 0, 0, [], 2);
    var s4 := TwoThreadsIn(Traced, Traced, 0, 2, [1, 1], 4);
    var e1, e2 := ExitBegin(1, 1, 1), ExitBegin(2, 2, 1);
    OneOfTwoBegins(Alive, Alive, 2, [], 0, 1, 1);
    OneOfTwoBegins(Exiting, Alive, 1, [], 1, 2, 2);
    Prepend(s2, BothTraced(), s1, e2, s4);
    Prepend(s1, [e2] + BothTraced(), s0, e1, s4);
    assert [e1] + ([e2] + BothTraced()) == BothExit();
  }

  lemma {:induction false} Prepend(t: System, rest: seq<Event>, s: System, e: Event, end: System)
    requires s.maps.WellFormed() && Enabled(s, e) && Apply(s, e) == t
    requires Possible(t, rest) && Run(t, rest) == end
    ensures Possible(s, [e] + rest) && Run(s, [e] + rest) == end
    ensures IdsRest(s, [e] + rest) ==> IdsRest(t, rest)
  {
    assert ([e] + rest)[1..] == rest;
  }

  lemma {:induction false} Join(s: System, es: seq<Event>, fs: seq<Event>)
    requires s.maps.WellFormed() && Possible(s, es) && Possible(Run(s, es), fs)
    ensures Possible(s, es + fs) && Run(s, es + fs) == Run(Run(s, es), fs)
    decreases |es|
  {
    if es == [] {
      assert es + fs == fs;
    } else {
      assert (es + fs)[0] == es[0] && (es + fs)[1..] == es[1..] + fs;
      Join(Apply(s, es[0]), es[1..], fs);
    }
  }

  lemma {:induction false} JoinRests(s: System, es: seq<Event>, fs: seq<Event>)
    requires s.maps.WellFormed() && Possible(s, es) && Possible(s, es + fs) && Possible(Run(s, es), fs)
    requires IdsRest(s, es + fs)
    ensures IdsRest(Run(s, es), fs)
    decreases |es|
  {
    if es == [] {
      assert es + fs == fs;
    } else {
      assert (es + fs)[0] == es[0] && (es + fs)[1..] == es[1..] + fs;
      JoinRests(Apply(s, es[0]), es[1..], fs);
    }
  }

  /** Two threads that both begin to exit before either tracepoint fires are announced twice. */
  lemma DeathsMayBeOfferedTwice()
    ensures exists s, es :: Init(s) && Possible(s, es) && Run(s, es).maps.exits == [1, 1]
  {
    BothExitRun();
  }

  /** An id handed out again while its record is queued: a living process stands to lose its entry. */
  lemma ReusedIdIsReaped()
    ensures exists s, es ::
      && Init(s) && Possible(s, es) && !IdsRest(s, es)
      && var r := Run(s, es);
         1 in r.groups && Living(r.groups[1]) != {} && Enabled(r, Reap(r.clock)) && Removes(r, Reap(r.clock), 1)
  {
    BothExitRun();
    var s0, s4 := TwoThreadsIn(Alive, Alive, 2, 0, [], 0), TwoThreadsIn(Traced, Traced, 0, 2, [1, 1], 4);
    var again := ReusedId(s4);
    Join(s0, BothExit(), again);
    if IdsRest(s0, BothExit() + again) { JoinRests(s0, BothExit(), again); }
    assert Init(s0) && Possible(s0, BothExit() + again);
  }

  lemma ReusedId(s: System) returns (es: seq<Event>)
    requires s == TwoThreadsIn(Traced, Traced, 0, 2, [1, 1], 4)
    ensures Possible(s, es) && !IdsRest(s, es)
    ensures var r := Run(s, es);
      1 in r.groups && Living(r.groups[1]) != {} && Enabled(r, Reap(r.clock)) && Removes(r, Reap(r.clock), 1)
  {
    var gone := s.(groups := map[], clock := 5);
    var back := gone.(groups := map[1 := Group(map[1 := Alive], 1, 0, 0)], clock := 6);
    assert s.groups - {1} == map[];
    assert Enabled(s, Release(5, 1)) && Apply(s, Release(5, 1)) == gone;
    assert Enabled(gone, Spawn(6, 1, 1)) && Apply(gone, Spawn(6, 1, 1)) == back;
    Prepend(back, [], gone, Spawn(6, 1, 1), back);
    assert !IdsRest(gone, [Spawn(6, 1, 1)]);
    Prepend(gone, [Spawn(6, 1, 1)], s, Release(5, 1), back);
    es := [Release(5, 1)] + [Spawn(6, 1, 1)];
    assert 1 in Living(back.groups[1]);
  }
}
