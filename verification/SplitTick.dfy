/**
 A tick whose two reads fall apart: the counters are summed at one instant, the
 slices in flight are added at a later one, and anything may happen in between.
*/
module SplitTick {
  import opened Prelude
  import opened History
  import opened Kernel
  import opened System
  import opened CpuAccounting
  import opened ExitLedger
  import opened Metrics
  import opened Batch
  import opened CpuMaps

  /** What such a tick reads: the counter as of `s`, the slices in flight as of `r`. */
  function SplitReading(s: System, r: System, g: Pid): nat
    requires s.maps.WellFormed() && r.maps.WellFormed()
  {
    Total(s.maps.cpuNs, g) + Flights(r.maps, g, r.clock)
  }

  /**
   It misses exactly what was charged between the two reads, and keeps exactly
   what was deleted between them.
  */
  lemma {:induction false} SplitMissesTheCharged(s: System, es: seq<Event>, g: Pid)
    requires CpuInv(s) && Possible(s, es)
    ensures
      var r := Run(s, es);
      SplitReading(s, r, g) + Charged(s, es, g) == Reading(r.maps, g, r.clock) + Deleted(s, es, g)
  {
    LedgerBalances(s, es, g);
    ReadingIsTotalAndFlights(Run(s, es).maps, g, Run(s, es).clock);
  }

  // ---- never ahead of the truth ----

  /** A slice in flight grows by no more than the time run. */
  lemma StepFlight(s: System, e: Event, c: nat, g: Pid)
    requires CpuInv(s) && Enabled(s, e) && c < s.maps.Cpus() && g != 0
    ensures Apply(s, e).maps.Cpus() == s.maps.Cpus()
    ensures Flight(Apply(s, e).maps, c, g, e.at)
         <= Flight(s.maps, c, g, s.clock) + OnCpu(Apply(s, e).history, c, g, s.clock, e.at)
  {
    StepHeld(s, e, c, g);
    if !Removes(s, e, g) { SlotNeverFalls(s, e, c, g); }
  }

  lemma SlotNeverFalls(s: System, e: Event, c: nat, g: Pid)
    requires CpuInv(s) && Enabled(s, e) && c < s.maps.Cpus() && g != 0 && !Removes(s, e, g)
    ensures Slot(Apply(s, e).maps.cpuNs, c, g) >= Slot(s.maps.cpuNs, c, g)
  {
    if e.Sched? && e.prev.tid != 0 && s.maps.startTime[e.cpu] != 0 {
      ChargeIsExact(s, e);
      AddSlotEffect(s.maps.cpuNs, s.maps.Cpus(), e.cpu, e.prev.tgid, e.at - s.maps.startTime[e.cpu], c, g);
    }
  }

  lemma {:induction false} StepFlights(s: System, e: Event, n: nat, g: Pid)
    requires CpuInv(s) && Enabled(s, e) && n <= s.maps.Cpus() && g != 0
    ensures n <= Apply(s, e).maps.Cpus()
    ensures FlightsOn(Apply(s, e).maps, n, g, e.at)
         <= FlightsOn(s.maps, n, g, s.clock) + TrueCpu(Apply(s, e).history, n, g, s.clock, e.at)
  {
    StepHeldCpus(s, e);
    if n > 0 {
      StepFlights(s, e, n - 1, g);
      StepFlight(s, e, n - 1, g);
    }
  }

  lemma {:induction false} FlightsGrow(s: System, es: seq<Event>, g: Pid)
    requires CpuInv(s) && Possible(s, es) && g != 0
    ensures
      var r := Run(s, es);
      && s.clock <= r.clock
      && Flights(r.maps, g, r.clock)
         <= Flights(s.maps, g, s.clock) + TrueCpu(r.history, s.maps.Cpus(), g, s.clock, r.clock)
    decreases |es|
  {
    var n := s.maps.Cpus();
    if es == [] {
      TrueCpuSplit(s.history, n, g, s.clock, s.clock, s.clock);
    } else {
      var s' := Apply(s, es[0]);
      StepFlights(s, es[0], n, g);
      StepHeldCpus(s, es[0]);
      StepCpuInv(s, es[0]);
      RunKeeps(s', es[1..]);
      FlightsGrow(s', es[1..], g);
      TrueCpuSplit(Run(s, es).history, n, g, s.clock, s'.clock, Run(s, es).clock);
    }
  }

  lemma {:induction false} ReadingIsAtMostRun(s: System, n: nat, g: Pid)
    requires CpuInv(s) && n <= s.maps.Cpus() && g != 0
    ensures ReadingOn(s.maps, n, g, s.clock) <= TrueCpu(s.history, n, g, 0, s.clock)
  {
    if n > 0 {
      ReadingIsAtMostRun(s, n - 1, g);
      assert HoldsNoMore(s, n - 1, g);
    }
  }

  /** However far apart the two reads are and whatever happens between them, the reading is never ahead of the truth. */
  lemma {:induction false} SplitIsNeverAhead(s: System, es: seq<Event>, g: Pid)
    requires CpuInv(s) && Possible(s, es) && g != 0
    ensures
      var r, n := Run(s, es), s.maps.Cpus();
      && s.clock <= r.clock
      && SplitReading(s, r, g) <= Reading(s.maps, g, s.clock) + TrueCpu(r.history, n, g, s.clock, r.clock)
      && SplitReading(s, r, g) <= TrueCpu(r.history, n, g, 0, r.clock)
  {
    var r, n := Run(s, es), s.maps.Cpus();
    FlightsGrow(s, es, g);
    ReadingIsTotalAndFlights(s.maps, g, s.clock);
    ReadingIsAtMostRun(s, n, g);
    RunKeeps(s, es);
    TrueCpuSplit(r.history, n, g, 0, s.clock, r.clock);
  }

  // ---- what two such ticks report ----

  /**
   How far the second read is ahead of the first: the time run in between, less what
   was charged in between and so fell between the two. It may be negative.
  */
  ghost function Late(s: System, es: seq<Event>, g: Pid): int
    requires CpuInv(s) && Ahead(s, es)
  {
    RunKeeps(s, es);
    TrueCpu(Next(s, es).history, s.maps.Cpus(), g, s.clock, Next(s, es).clock) - Charged(s, es, g)
  }

  /** Whatever is removed in between, a split reading is the reading at its first instant and that. */
  lemma {:induction false} SplitIsLate(s: System, es: seq<Event>, g: Pid)
    requires CpuInv(s) && Ahead(s, es) && g != 0
    ensures SplitReading(s, Next(s, es), g) == Reading(s.maps, g, s.clock) + Late(s, es, g)
  {
    SplitMissesTheCharged(s, es, g);
    ReadingsBalance(s, es, g);
  }

  /** Two ticks: counters at `s` and flights at `a`, then counters at `b` and flights at `r`. */
  ghost predicate TwoSplitTicks(s: System, one: seq<Event>, a: System, gap: seq<Event>, b: System,
                                two: seq<Event>, r: System)
  {
    CpuInv(s) && Leads(s, one, a) && Leads(a, gap, b) && Leads(b, two, r)
  }

  lemma {:induction false} LeadsOn(s: System, es: seq<Event>, r: System)
    requires CpuInv(s) && Leads(s, es, r)
    ensures CpuInv(r) && s.clock <= r.clock && r.maps.Cpus() == s.maps.Cpus()
  {
    RunKeeps(s, es);
  }

  /** True on-CPU time between two counter reads, which is the interval a percentage is taken over. */
  ghost function RanBetween(s: System, b: System, g: Pid): nat
    requires s.clock <= b.clock
  {
    TrueCpu(b.history, s.maps.Cpus(), g, s.clock, b.clock)
  }

  /** How much further ahead of its counters the second tick's flights are than the first's. */
  ghost function Further(s: System, one: seq<Event>, b: System, two: seq<Event>, g: Pid): int
    requires CpuInv(s) && Ahead(s, one) && CpuInv(b) && Ahead(b, two)
  {
    Late(b, two, g) - Late(s, one, g)
  }

  /** The counter is left alone up to the second tick's counter read. */
  ghost predicate LeftAlone(s: System, one: seq<Event>, a: System, gap: seq<Event>, g: Pid)
    requires Ahead(s, one) && Ahead(a, gap)
  {
    !Removed(s, one, g) && !Removed(a, gap, g)
  }

  /** Between the ticks a reading grows by at most the true time and that; by exactly it, with nothing removed. */
  lemma {:induction false} SplitGrowthIsTrue(s: System, one: seq<Event>, a: System, gap: seq<Event>, b: System,
                                             two: seq<Event>, r: System, g: Pid)
    requires TwoSplitTicks(s, one, a, gap, b, two, r) && g != 0
    ensures s.clock <= b.clock && CpuInv(b)
    ensures
      var growth := SplitReading(b, r, g) - SplitReading(s, a, g);
      && growth <= RanBetween(s, b, g) + Further(s, one, b, two, g)
      && (LeftAlone(s, one, a, gap, g) ==> growth == RanBetween(s, b, g) + Further(s, one, b, two, g))
  {
    LeadsOn(s, one, a);
    LeadsOn(a, gap, b);
    RunKeeps(a, gap);
    SplitIsLate(s, one, g);
    SplitIsLate(b, two, g);
    ReadingFollowsTruth(s, one, g);
    ReadingFollowsTruth(a, gap, g);
    TrueCpuSplit(b.history, s.maps.Cpus(), g, s.clock, a.clock, b.clock);
  }

  // ---- as percentages ----

  /** The snapshot such a tick keeps, dated when the counters were summed. */
  ghost function SplitSnapshot(s: System, r: System): Snapshot
    requires s.maps.WellFormed() && r.maps.WellFormed()
  {
    Snapshot(Some(s.clock),
             map g | g in s.maps.cpuNs.Keys + (set c | 0 <= c < r.maps.Cpus() :: r.maps.currentTgid[c])
                     && (g in s.maps.cpuNs || Flights(r.maps, g, r.clock) > 0) :: SplitReading(s, r, g))
  }

  /** It is what the batched totals and the later correction add up to. */
  lemma SplitSnapshotIsRead(s: System, r: System)
    requires s.maps.WellFormed() && r.maps.WellFormed() && SumsFit(s.maps.cpuNs)
    ensures WithFlights(PlainTotals(s.maps.cpuNs), r.maps.currentTgid, r.maps.startTime, r.maps.Cpus(), r.clock)
         == SplitSnapshot(s, r).byPid
  {
    var read := WithFlights(PlainTotals(s.maps.cpuNs), r.maps.currentTgid, r.maps.startTime, r.maps.Cpus(), r.clock);
    var kept := SplitSnapshot(s, r).byPid;
    forall g ensures (g in read <==> g in kept) && (g in read ==> read[g] == kept[g]) {
      FlightsAreAdded(r.maps, PlainTotals(s.maps.cpuNs), r.maps.Cpus(), g, r.clock);
      FlightsMeanInFlight(r.maps, r.maps.Cpus(), g, r.clock);
      if g in s.maps.cpuNs { DoesNotWrap(s.maps.cpuNs[g]); }
    }
    assert read.Keys == kept.Keys;
  }

  /** Two split readings of `g`, some time apart, each in its tick's snapshot. */
  ghost predicate Listed(s: System, a: System, b: System, r: System, g: Pid) {
    && s.maps.WellFormed() && a.maps.WellFormed() && b.maps.WellFormed() && r.maps.WellFormed()
    && s.clock < b.clock && g in SplitSnapshot(s, a).byPid && g in SplitSnapshot(b, r).byPid
  }

  /** Between them the reading rose by more than `ran`. */
  ghost predicate RosePast(s: System, a: System, b: System, r: System, g: Pid, ran: nat) {
    Listed(s, a, b, r, g) && SplitReading(b, r, g) - SplitReading(s, a, g) > ran
  }

  ghost predicate RoseWithin(s: System, a: System, b: System, r: System, g: Pid, ran: nat) {
    Listed(s, a, b, r, g) && SplitReading(b, r, g) - SplitReading(s, a, g) <= ran
  }

  /** One reported value against a share, from the two split readings behind it. */
  lemma SplitDelta(s: System, a: System, b: System, r: System, g: Pid)
    requires Listed(s, a, b, r, g)
    ensures
      var deltas := CpuDeltas(SplitSnapshot(s, a), SplitSnapshot(b, r));
      && g in deltas
      && deltas[g] == Share(SaturatingSub(SplitReading(b, r, g), SplitReading(s, a, g)), b.clock - s.clock, true)
  {
    CpuDeltaIsShare(SplitSnapshot(s, a), SplitSnapshot(b, r), g, SplitReading(s, a, g), SplitReading(b, r, g));
  }

  lemma SplitDeltaAtMost(s: System, a: System, b: System, r: System, g: Pid, ran: nat)
    requires RoseWithin(s, a, b, r, g, ran)
    ensures g in CpuDeltas(SplitSnapshot(s, a), SplitSnapshot(b, r))
    ensures CpuDeltas(SplitSnapshot(s, a), SplitSnapshot(b, r))[g] <= Share(ran, b.clock - s.clock, true)
  {
    SplitDelta(s, a, b, r, g);
    ShareOrder(SaturatingSub(SplitReading(b, r, g), SplitReading(s, a, g)), ran, b.clock - s.clock);
  }

  lemma SplitDeltaAbove(s: System, a: System, b: System, r: System, g: Pid, ran: nat)
    requires RosePast(s, a, b, r, g, ran)
    ensures g in CpuDeltas(SplitSnapshot(s, a), SplitSnapshot(b, r))
    ensures CpuDeltas(SplitSnapshot(s, a), SplitSnapshot(b, r))[g] > Share(ran, b.clock - s.clock, true)
  {
    SplitDelta(s, a, b, r, g);
    ShareOrder(SaturatingSub(SplitReading(b, r, g), SplitReading(s, a, g)), ran, b.clock - s.clock);
  }

  /** Two ticks that both list `g`, which is left alone up to the second one's counter read. */
  lemma {:induction false} RiseIsFurther(s: System, one: seq<Event>, a: System, gap: seq<Event>, b: System,
                                         two: seq<Event>, r: System, g: Pid)
    requires TwoSplitTicks(s, one, a, gap, b, two, r) && g != 0 && Listed(s, a, b, r, g)
    ensures s.clock <= b.clock && CpuInv(b)
    ensures Further(s, one, b, two, g) <= 0 ==> RoseWithin(s, a, b, r, g, RanBetween(s, b, g))
    ensures LeftAlone(s, one, a, gap, g) && Further(s, one, b, two, g) > 0 ==>
              RosePast(s, a, b, r, g, RanBetween(s, b, g))
  {
    SplitGrowthIsTrue(s, one, a, gap, b, two, r, g);
  }

  /**
   Over any runs, a process with a baseline is reported above its true share of the
   interval only if the second tick's flights are further ahead of its counters than
   the first one's were. With no removal before the second counter read, always then.
   A slice that ends between the first tick's reads puts that tick behind; a busy
   process and a longer wait between the second tick's reads puts that one ahead.
  */
  lemma {:induction false} OverReportsIffFurther(s: System, one: seq<Event>, a: System, gap: seq<Event>, b: System,
                                                 two: seq<Event>, r: System, g: Pid)
    requires TwoSplitTicks(s, one, a, gap, b, two, r) && g != 0 && Listed(s, a, b, r, g)
    ensures CpuInv(b) && s.clock < b.clock
    ensures
      var deltas := CpuDeltas(SplitSnapshot(s, a), SplitSnapshot(b, r));
      var truth := Share(RanBetween(s, b, g), b.clock - s.clock, true);
      && g in deltas
      && (deltas[g] > truth ==> Further(s, one, b, two, g) > 0)
      && (LeftAlone(s, one, a, gap, g) ==> (deltas[g] > truth <==> Further(s, one, b, two, g) > 0))
  {
    RiseIsFurther(s, one, a, gap, b, two, r, g);
    SplitDelta(s, a, b, r, g);
    if Further(s, one, b, two, g) <= 0 {
      SplitDeltaAtMost(s, a, b, r, g, RanBetween(s, b, g));
    } else if LeftAlone(s, one, a, gap, g) {
      SplitDeltaAbove(s, a, b, r, g, RanBetween(s, b, g));
    }
  }
}
