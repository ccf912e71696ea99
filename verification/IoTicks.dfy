/**
 What consecutive collector ticks report about I/O wait. A sleep is reported in
 full by the tick after it ends, and not at all before.
*/
module IoTicks {
  import opened Prelude
  import opened History
  import opened Kernel
  import opened System
  import opened IoAccounting
  import opened Metrics
  import opened Batch

  ghost function IoTickAt(s: System): Snapshot {
    Snapshot(Some(s.clock), map g | g in s.maps.iowaitNs :: Total(s.maps.iowaitNs, g))
  }

  lemma {:induction false} ClockRises(s: System, es: seq<Event>)
    requires s.maps.WellFormed() && Possible(s, es)
    ensures s.clock <= Run(s, es).clock
    decreases |es|
  {
    if es != [] { ClockRises(Apply(s, es[0]), es[1..]); }
  }

  /** The D-sleep that threads of `g` completed between two states, less that of which the stamp was refused. */
  function KeptSleep(s: System, r: System, g: Pid): int {
    var all := Slept(r.history, g, false) - Slept(s.history, g, false);
    all - (Slept(r.history, g, true) - Slept(s.history, g, true))
  }

  /** The D-sleep that threads of `g` complete during a run, of which the stamp was kept. */
  ghost function Measured(s: System, es: seq<Event>, g: Pid): nat
    requires IoInv(s) && Ahead(s, es) && g != 0
  {
    IoFollowsTruth(s, es, g);
    KeptSleep(s, Next(s, es), g)
  }

  lemma {:induction false} CounterGrows(s: System, es: seq<Event>, g: Pid)
    requires IoInv(s) && Ahead(s, es) && g != 0
    ensures
      var before, after := Total(s.maps.iowaitNs, g), Total(Next(s, es).maps.iowaitNs, g);
      && after <= before + Measured(s, es, g)
      && (!IoRemoved(s, es, g) && Slept(Next(s, es).history, g, false) <= U64_MAX ==>
            after == before + Measured(s, es, g))
  {
    IoFollowsTruth(s, es, g);
  }

  lemma ReportedHasBaseline(s: System, r: System, g: Pid)
    requires s.clock <= r.clock && g in IoDeltas(IoTickAt(s), IoTickAt(r))
    ensures s.clock < r.clock && g in s.maps.iowaitNs && g in r.maps.iowaitNs
  {
  }

  lemma IoDeltaBetween(s: System, r: System, g: Pid, slept: nat)
    requires s.clock < r.clock && g in s.maps.iowaitNs && g in r.maps.iowaitNs
    requires Total(r.maps.iowaitNs, g) <= Total(s.maps.iowaitNs, g) + slept
    ensures g in IoDeltas(IoTickAt(s), IoTickAt(r))
    ensures 0.0 <= IoDeltas(IoTickAt(s), IoTickAt(r))[g] <= Share(slept, r.clock - s.clock, true)
  {
    var before, after := Total(s.maps.iowaitNs, g), Total(r.maps.iowaitNs, g);
    IoDeltaIsShare(IoTickAt(s), IoTickAt(r), g, before, after);
    ShareMonotone(SaturatingSub(after, before), slept, r.clock - s.clock, true);
  }

  lemma IoDeltaExactly(s: System, r: System, g: Pid, slept: nat)
    requires s.clock < r.clock && g in s.maps.iowaitNs && g in r.maps.iowaitNs
    requires Total(r.maps.iowaitNs, g) == Total(s.maps.iowaitNs, g) + slept
    ensures g in IoDeltas(IoTickAt(s), IoTickAt(r))
    ensures IoDeltas(IoTickAt(s), IoTickAt(r))[g] == Share(slept, r.clock - s.clock, true)
  {
    IoDeltaIsShare(IoTickAt(s), IoTickAt(r), g, Total(s.maps.iowaitNs, g), Total(r.maps.iowaitNs, g));
  }

  /**
   Between any two ticks, over any run, no process is reported above the D-sleep
   its threads completed in the interval.
  */
  lemma {:induction false} IoNeverOverReports(s: System, es: seq<Event>, r: System, g: Pid)
    requires IoInv(s) && Leads(s, es, r) && g != 0
    requires g in IoDeltas(IoTickAt(s), IoTickAt(r))
    ensures s.clock < r.clock
    ensures 0.0 <= IoDeltas(IoTickAt(s), IoTickAt(r))[g] <= Share(Measured(s, es, g), r.clock - s.clock, true)
  {
    ClockRises(s, es);
    CounterGrows(s, es, g);
    ReportedHasBaseline(s, r, g);
    IoDeltaBetween(s, r, g, Measured(s, es, g));
  }

  lemma IoEntryStep(s: System, e: Event, g: Pid)
    requires s.maps.WellFormed() && Enabled(s, e) && !IoRemoves(s, e, g) && g in s.maps.iowaitNs
    ensures g in Apply(s, e).maps.iowaitNs
  {
  }

  lemma {:induction false} IoEntryStays(s: System, es: seq<Event>, g: Pid)
    requires s.maps.WellFormed() && Possible(s, es) && !IoRemoved(s, es, g) && g in s.maps.iowaitNs
    ensures g in Run(s, es).maps.iowaitNs
    decreases |es|
  {
    if es != [] {
      IoEntryStep(s, es[0], g);
      IoEntryStays(Apply(s, es[0]), es[1..], g);
    }
  }

  /** An interval over which `g` has a baseline, its counter is left alone, and no slot of it can saturate. */
  ghost predicate Measurable(s: System, es: seq<Event>, g: Pid) {
    && IoInv(s) && Ahead(s, es) && g != 0
    && !IoRemoved(s, es, g) && g in s.maps.iowaitNs
    && s.clock < Next(s, es).clock
    && Slept(Next(s, es).history, g, false) <= U64_MAX
  }

  lemma {:induction false} CounterGrowsExactly(s: System, es: seq<Event>, g: Pid)
    requires Measurable(s, es, g)
    ensures s.clock < Next(s, es).clock && g in s.maps.iowaitNs && g in Next(s, es).maps.iowaitNs
    ensures Total(Next(s, es).maps.iowaitNs, g) == Total(s.maps.iowaitNs, g) + Measured(s, es, g)
  {
    IoEntryStays(s, es, g);
    CounterGrows(s, es, g);
  }

  /** With its counter left alone, a process with a baseline is reported at exactly the D-sleep it completed. */
  lemma {:induction false} IoIntervalIsExact(s: System, es: seq<Event>, g: Pid)
    requires Measurable(s, es, g)
    ensures g in IoDeltas(IoTickAt(s), IoTickAt(Next(s, es)))
    ensures IoDeltas(IoTickAt(s), IoTickAt(Next(s, es)))[g]
         == Share(Measured(s, es, g), Next(s, es).clock - s.clock, true)
  {
    CounterGrowsExactly(s, es, g);
    IoDeltaExactly(s, Next(s, es), g, Measured(s, es, g));
  }

  /** No thread of `g` comes onto a CPU during the run. */
  predicate StaysOff(es: seq<Event>, g: Pid) {
    forall i :: 0 <= i < |es| && es[i].Sched? ==> es[i].next.tgid != g
  }

  lemma {:induction false} NothingCompletes(s: System, es: seq<Event>, g: Pid, droppedOnly: bool)
    requires s.maps.WellFormed() && Possible(s, es) && StaysOff(es, g)
    ensures Slept(Run(s, es).history, g, droppedOnly) == Slept(s.history, g, droppedOnly)
    decreases |es|
  {
    if es != [] {
      if es[0].Sched? { SleptAppend(s.history, Record(s.maps, es[0]), g, droppedOnly); }
      NothingCompletes(Apply(s, es[0]), es[1..], g, droppedOnly);
    }
  }

  lemma UnmeasuredReadsZero(s: System, r: System, g: Pid)
    requires s.clock <= r.clock && g in IoDeltas(IoTickAt(s), IoTickAt(r))
    requires Total(r.maps.iowaitNs, g) <= Total(s.maps.iowaitNs, g)
    ensures IoDeltas(IoTickAt(s), IoTickAt(r))[g] == 0.0
  {
    IoDeltaIsShare(IoTickAt(s), IoTickAt(r), g, Total(s.maps.iowaitNs, g), Total(r.maps.iowaitNs, g));
    PercentZero(r.clock - s.clock);
  }

  /** A process asleep through a whole interval is reported at zero for it. */
  lemma {:induction false} SleepersReadZero(s: System, es: seq<Event>, g: Pid)
    requires IoInv(s) && Ahead(s, es) && g != 0 && StaysOff(es, g)
    requires s.clock <= Next(s, es).clock && g in IoDeltas(IoTickAt(s), IoTickAt(Next(s, es)))
    ensures IoDeltas(IoTickAt(s), IoTickAt(Next(s, es)))[g] == 0.0
  {
    NothingCompletes(s, es, g, false);
    NothingCompletes(s, es, g, true);
    IoFollowsTruth(s, es, g);
    UnmeasuredReadsZero(s, Next(s, es), g);
  }

  // ---- one thread ----

  /** No thread of `g` but `tid` comes onto a CPU during the run. */
  predicate OnlyThread(es: seq<Event>, g: Pid, tid: Pid) {
    forall i :: 0 <= i < |es| && es[i].Sched? && es[i].next.tgid == g ==> es[i].next.tid == tid
  }

  /** How long `tid` has been in a sleep whose stamp was kept. */
  function Pending(s: System, tid: Pid): nat {
    if tid in s.maps.sleepSince && s.maps.sleepSince[tid] <= s.clock then s.clock - s.maps.sleepSince[tid] else 0
  }

  lemma {:induction false} StepPending(s: System, e: Event, g: Pid, tid: Pid)
    requires IoInv(s) && Enabled(s, e) && g != 0 && OnlyThread([e], g, tid)
    ensures
      var s' := Apply(s, e);
      var kept := (Slept(s'.history, g, false) - Slept(s.history, g, false))
                  - (Slept(s'.history, g, true) - Slept(s.history, g, true));
      kept + Pending(s', tid) <= (e.at - s.clock) + Pending(s, tid)
  {
    assert StampOk(s, tid);
    assert [e][0] == e;
    if e.Sched? {
      var rec := Record(s.maps, e);
      SleptAppend(s.history, rec, g, false);
      SleptAppend(s.history, rec, g, true);
      WakeMeasures(s, e);
      if e.prev.tid != 0 { LeaverIsAwake(s, e); }
    }
  }

  /**
   What one thread completes in a run, and the sleep it is still in at the end,
   fit in the run and the sleep it was in at the start.
  */
  lemma {:induction false} OneThreadBound(s: System, es: seq<Event>, g: Pid, tid: Pid)
    requires IoInv(s) && Ahead(s, es) && g != 0 && OnlyThread(es, g, tid)
    ensures s.clock <= Next(s, es).clock
    ensures Measured(s, es, g) + Pending(Next(s, es), tid) <= (Next(s, es).clock - s.clock) + Pending(s, tid)
    decreases |es|
  {
    if es != [] {
      var s' := Apply(s, es[0]);
      StepPending(s, es[0], g, tid);
      StepIoInv(s, es[0]);
      OneThreadBound(s', es[1..], g, tid);
    }
  }

  /**
   A process of which one thread runs, and that one was not asleep at the previous
   tick, never reads above 100. In general it passes 100 by at most that sleep.
  */
  lemma {:induction false} AwakeNeverPassesHundred(s: System, es: seq<Event>, g: Pid, tid: Pid)
    requires IoInv(s) && Ahead(s, es) && g != 0 && OnlyThread(es, g, tid)
    requires g in IoDeltas(IoTickAt(s), IoTickAt(Next(s, es)))
    ensures s.clock < Next(s, es).clock
    ensures
      var elapsed := Next(s, es).clock - s.clock;
      && IoDeltas(IoTickAt(s), IoTickAt(Next(s, es)))[g] <= Share(elapsed + Pending(s, tid), elapsed, true)
      && (tid !in s.maps.sleepSince ==> IoDeltas(IoTickAt(s), IoTickAt(Next(s, es)))[g] <= 100.0)
  {
    ClockRises(s, es);
    CounterGrows(s, es, g);
    OneThreadBound(s, es, g, tid);
    ReportedHasBaseline(s, Next(s, es), g);
    ReportedAtMost(s, Next(s, es), g, Next(s, es).clock - s.clock + Pending(s, tid));
  }

  lemma ReportedAtMost(s: System, r: System, g: Pid, slept: nat)
    requires s.clock < r.clock && g in s.maps.iowaitNs && g in r.maps.iowaitNs
    requires Total(r.maps.iowaitNs, g) <= Total(s.maps.iowaitNs, g) + slept
    ensures g in IoDeltas(IoTickAt(s), IoTickAt(r))
    ensures IoDeltas(IoTickAt(s), IoTickAt(r))[g] <= Share(slept, r.clock - s.clock, true)
    ensures slept <= r.clock - s.clock ==> IoDeltas(IoTickAt(s), IoTickAt(r))[g] <= 100.0
  {
    IoDeltaBetween(s, r, g, slept);
    ShareOverHundred(slept, r.clock - s.clock);
  }

  // ---- one wake-up ----

  /** Event `k` is the only one of the run that brings a thread of `g` onto a CPU. */
  predicate OneWake(es: seq<Event>, g: Pid, k: nat) {
    && k < |es| && es[k].Sched? && es[k].next.tgid == g
    && forall i :: 0 <= i < |es| && i != k && es[i].Sched? ==> es[i].next.tgid != g
  }

  /** The wake-up measures the sleep since the thread's stamp, whenever that was, and the rest of the run nothing. */
  lemma {:induction false} OneWakeMeasures(s: System, es: seq<Event>, g: Pid, k: nat)
    requires IoInv(s) && Ahead(s, es) && OneWake(es, g, k)
    requires es[k].next.tid in StateAt(s, es, k).maps.sleepSince
    ensures g != 0
    ensures StateAt(s, es, k).maps.sleepSince[es[k].next.tid] <= es[k].at <= Next(s, es).clock
    ensures Measured(s, es, g) == es[k].at - StateAt(s, es, k).maps.sleepSince[es[k].next.tid]
    decreases k
  {
    var e, s' := es[0], Apply(s, es[0]);
    StepIoInv(s, e);
    if k == 0 {
      WakeCompletes(s, e);
      ClockRises(s', es[1..]);
      NothingCompletes(s', es[1..], g, false);
      NothingCompletes(s', es[1..], g, true);
    } else {
      assert OneWake(es[1..], g, k - 1);
      OneWakeMeasures(s', es[1..], g, k - 1);
      if e.Sched? {
        SleptAppend(s.history, Record(s.maps, e), g, false);
        SleptAppend(s.history, Record(s.maps, e), g, true);
      }
    }
  }

  lemma WakeCompletes(s: System, e: Event)
    requires IoInv(s) && Enabled(s, e) && e.Sched? && e.next.tid in s.maps.sleepSince
    ensures e.next.tgid != 0 && s.maps.sleepSince[e.next.tid] <= e.at
    ensures
      var h, h', g := s.history, Apply(s, e).history, e.next.tgid;
      (Slept(h', g, false) - Slept(h, g, false)) - (Slept(h', g, true) - Slept(h, g, true))
      == e.at - s.maps.sleepSince[e.next.tid]
  {
    assert StampOk(s, e.next.tid);
    SleptAppend(s.history, Record(s.maps, e), e.next.tgid, false);
    SleptAppend(s.history, Record(s.maps, e), e.next.tgid, true);
    WakeMeasures(s, e);
  }

  /** A measurable interval with one wake-up from a sleep whose stamp was kept. */
  ghost predicate WokenOnce(s: System, es: seq<Event>, g: Pid, k: nat) {
    && Measurable(s, es, g) && OneWake(es, g, k)
    && es[k].next.tid in StateAt(s, es, k).maps.sleepSince
  }

  lemma {:induction false} OneWakeGrows(s: System, es: seq<Event>, g: Pid, k: nat)
    requires WokenOnce(s, es, g, k)
    ensures s.clock < Next(s, es).clock && g in s.maps.iowaitNs && g in Next(s, es).maps.iowaitNs
    ensures AsleepSince(s, es, g, k) <= es[k].at
    ensures Total(Next(s, es).maps.iowaitNs, g) == Total(s.maps.iowaitNs, g) + (es[k].at - AsleepSince(s, es, g, k))
  {
    OneWakeMeasures(s, es, g, k);
    CounterGrowsExactly(s, es, g);
  }

  /** When the thread that event `k` wakes had fallen asleep. */
  ghost function AsleepSince(s: System, es: seq<Event>, g: Pid, k: nat): nat
    requires WokenOnce(s, es, g, k)
  {
    StateAt(s, es, k).maps.sleepSince[es[k].next.tid]
  }

  /**
   The tick after a wake-up reports the whole sleep, whatever else happens before
   and after the wake-up in that interval. So a process woken once reads above 100
   exactly when it had slept longer at the previous tick than passes from the
   wake-up to the next one.
  */
  lemma {:induction false} WakeReportsWholeSleep(s: System, es: seq<Event>, g: Pid, k: nat)
    requires WokenOnce(s, es, g, k)
    ensures
      var r, since := Next(s, es), AsleepSince(s, es, g, k);
      var deltas := IoDeltas(IoTickAt(s), IoTickAt(r));
      && g in deltas && since <= es[k].at
      && deltas[g] == Share(es[k].at - since, r.clock - s.clock, true)
      && (deltas[g] > 100.0 <==> s.clock - since > r.clock - es[k].at)
  {
    OneWakeGrows(s, es, g, k);
    SleepReported(s, Next(s, es), g, AsleepSince(s, es, g, k), es[k].at);
  }

  lemma SleepReported(s: System, r: System, g: Pid, since: nat, woken: nat)
    requires s.clock < r.clock && g in s.maps.iowaitNs && g in r.maps.iowaitNs && since <= woken
    requires Total(r.maps.iowaitNs, g) == Total(s.maps.iowaitNs, g) + (woken - since)
    ensures
      var deltas := IoDeltas(IoTickAt(s), IoTickAt(r));
      && g in deltas
      && deltas[g] == Share(woken - since, r.clock - s.clock, true)
      && (deltas[g] > 100.0 <==> s.clock - since > r.clock - woken)
  {
    ReportedInFull(s, r, g, woken - since);
  }

  lemma ReportedInFull(s: System, r: System, g: Pid, slept: nat)
    requires s.clock < r.clock && g in s.maps.iowaitNs && g in r.maps.iowaitNs
    requires Total(r.maps.iowaitNs, g) == Total(s.maps.iowaitNs, g) + slept
    ensures
      var deltas, elapsed := IoDeltas(IoTickAt(s), IoTickAt(r)), r.clock - s.clock;
      g in deltas && deltas[g] == Share(slept, elapsed, true) && (deltas[g] > 100.0 <==> slept > elapsed)
  {
    IoDeltaExactly(s, r, g, slept);
    ShareOverHundred(slept, r.clock - s.clock);
  }

  /** What the batched read makes of the I/O counters, while no process has slept for 2^64 nanoseconds in all. */
  lemma IoTotalsAreSnapshot(s: System)
    requires IoInv(s) && forall g :: g in s.maps.iowaitNs ==> Slept(s.history, g, false) <= U64_MAX
    ensures SumsFit(s.maps.iowaitNs)
    ensures PlainTotals(s.maps.iowaitNs) == IoTickAt(s).byPid
  {
    forall g | g in s.maps.iowaitNs ensures SeqSum(s.maps.iowaitNs[g]) <= U64_MAX {
      assert IoNoMore(s, g);
    }
    PlainIsExact(s.maps.iowaitNs);
  }
}
