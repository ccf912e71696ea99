/**
 What consecutive collector ticks report about CPU, for ticks that read the maps
 at one instant. A tick is a point of a run; the next tick is any run later.
*/
module Ticks {
  import opened Prelude
  import opened History
  import opened Kernel
  import opened System
  import opened CpuAccounting
  import opened Metrics

  predicate InFlight(m: Maps, g: Pid, t: nat)
    requires m.WellFormed()
  {
    exists c :: 0 <= c < m.Cpus() && Flight(m, c, g, t) > 0
  }

  /** What a tick at `t` reads: every process with an entry or a slice in flight. */
  ghost function CpuSnapshot(m: Maps, t: nat): Snapshot
    requires m.WellFormed()
  {
    Snapshot(Some(t), map g | g in m.cpuNs.Keys + (set c | 0 <= c < m.Cpus() :: m.currentTgid[c])
                              && (g in m.cpuNs || InFlight(m, g, t)) :: Reading(m, g, t))
  }

  ghost function TickAt(s: System): Snapshot
    requires s.maps.WellFormed()
  {
    CpuSnapshot(s.maps, s.clock)
  }

  lemma InSnapshot(m: Maps, g: Pid, t: nat)
    requires m.WellFormed()
    ensures g in CpuSnapshot(m, t).byPid <==> g in m.cpuNs || InFlight(m, g, t)
    ensures g in CpuSnapshot(m, t).byPid ==> CpuSnapshot(m, t).byPid[g] == Reading(m, g, t)
  {
    if InFlight(m, g, t) {
      var c :| 0 <= c < m.Cpus() && Flight(m, c, g, t) > 0;
      assert m.currentTgid[c] == g;
    }
  }

  /** A process with neither an entry nor a slice reads zero, so leaving it out loses nothing. */
  lemma {:induction false} UnseenReadsZero(m: Maps, n: nat, g: Pid, t: nat)
    requires m.WellFormed() && n <= m.Cpus()
    requires g !in m.cpuNs && !InFlight(m, g, t)
    ensures ReadingOn(m, n, g, t) == 0
  {
    if n > 0 { UnseenReadsZero(m, n - 1, g, t); }
  }

  lemma {:induction false} RunIsForward(s: System, es: seq<Event>)
    requires CpuInv(s) && Ahead(s, es)
    ensures s.clock <= Next(s, es).clock && CpuInv(Next(s, es)) && Next(s, es).maps.Cpus() == s.maps.Cpus()
  {
    RunKeeps(s, es);
  }

  /** True on-CPU time of `g` over the interval a run spans. */
  ghost function Ran(s: System, es: seq<Event>, g: Pid): nat
    requires CpuInv(s) && Ahead(s, es)
  {
    RunIsForward(s, es);
    TrueCpu(Next(s, es).history, s.maps.Cpus(), g, s.clock, Next(s, es).clock)
  }

  // ---- no over-report ----

  /** The counter difference behind a reported delta. */
  ghost function Growth(s: System, es: seq<Event>, g: Pid): nat
    requires Ahead(s, es)
  {
    SaturatingSub(Reading(Next(s, es).maps, g, Next(s, es).clock), Reading(s.maps, g, s.clock))
  }

  lemma {:induction false} GrowthIsTrue(s: System, es: seq<Event>, g: Pid)
    requires CpuInv(s) && Ahead(s, es) && g != 0
    ensures Growth(s, es, g) <= Ran(s, es, g)
    ensures !Removed(s, es, g) ==> Growth(s, es, g) == Ran(s, es, g)
  {
    ReadingFollowsTruth(s, es, g);
    RunIsForward(s, es);
  }

  /** Idle is never in a snapshot. */
  lemma {:induction false} ZeroIsUnseen(s: System, es: seq<Event>)
    requires CpuInv(s) && Ahead(s, es)
    ensures 0 !in TickAt(s).byPid && 0 !in TickAt(Next(s, es)).byPid
  {
    RunIsForward(s, es);
    InSnapshot(s.maps, 0, s.clock);
    InSnapshot(Next(s, es).maps, 0, Next(s, es).clock);
  }

  /** What two ticks report is the growth of a reading, as a share of the interval; a first sight reads zero. */
  lemma DeltaIsGrowth(s: System, r: System, g: Pid)
    requires s.maps.WellFormed() && r.maps.WellFormed() && s.clock <= r.clock
    requires g in TickAt(r).byPid
    ensures
      var deltas := CpuDeltas(TickAt(s), TickAt(r));
      && g in deltas
      && deltas[g] == Share(SaturatingSub(Reading(r.maps, g, r.clock), Reading(s.maps, g, s.clock)),
                            r.clock - s.clock, g in TickAt(s).byPid)
  {
    InSnapshot(s.maps, g, s.clock);
    InSnapshot(r.maps, g, r.clock);
    CpuDeltaIsShare(TickAt(s), TickAt(r), g, Reading(s.maps, g, s.clock), Reading(r.maps, g, r.clock));
  }

  lemma DeltaExactly(s: System, r: System, g: Pid, ran: nat)
    requires s.maps.WellFormed() && r.maps.WellFormed() && s.clock <= r.clock
    requires g in TickAt(s).byPid && g in TickAt(r).byPid
    requires SaturatingSub(Reading(r.maps, g, r.clock), Reading(s.maps, g, s.clock)) == ran
    ensures CpuDeltas(TickAt(s), TickAt(r))[g] == Share(ran, r.clock - s.clock, true)
  {
    DeltaIsGrowth(s, r, g);
  }

  lemma DeltaWithin(s: System, r: System, g: Pid, ran: nat)
    requires s.maps.WellFormed() && r.maps.WellFormed() && s.clock <= r.clock
    requires g in CpuDeltas(TickAt(s), TickAt(r))
    requires SaturatingSub(Reading(r.maps, g, r.clock), Reading(s.maps, g, s.clock)) <= ran
    ensures 0.0 <= CpuDeltas(TickAt(s), TickAt(r))[g] <= Share(ran, r.clock - s.clock, true)
  {
    DeltaIsGrowth(s, r, g);
    ShareMonotone(SaturatingSub(Reading(r.maps, g, r.clock), Reading(s.maps, g, s.clock)), ran,
                  r.clock - s.clock, g in TickAt(s).byPid);
  }

  /**
   Between any two ticks, over any run of switches, exits, evictions, reaps and
   recycled ids, no process is reported above its true on-CPU time.
  */
  lemma {:induction false} NeverOverReports(s: System, es: seq<Event>, g: Pid)
    requires CpuInv(s) && Ahead(s, es)
    requires g in CpuDeltas(TickAt(s), TickAt(Next(s, es)))
    ensures s.clock <= Next(s, es).clock
    ensures 0.0 <= CpuDeltas(TickAt(s), TickAt(Next(s, es)))[g]
                <= Share(Ran(s, es, g), Next(s, es).clock - s.clock, true)
  {
    assert g != 0 by { ZeroIsUnseen(s, es); }
    GrowthIsTrue(s, es, g);
    RunIsForward(s, es);
    DeltaWithin(s, Next(s, es), g, Ran(s, es, g));
  }

  // ---- exactness ----

  lemma {:induction false} EntryStays(s: System, es: seq<Event>, g: Pid)
    requires CpuInv(s) && Possible(s, es) && !Removed(s, es, g)
    requires g in s.maps.cpuNs
    ensures g in Run(s, es).maps.cpuNs
    decreases |es|
  {
    if es != [] {
      StepCpuInv(s, es[0]);
      EntryStays(Apply(s, es[0]), es[1..], g);
    }
  }

  lemma {:induction false} PositiveReadingIsSeen(m: Maps, n: nat, g: Pid, t: nat)
    requires m.WellFormed() && n <= m.Cpus() && ReadingOn(m, n, g, t) > 0
    ensures g in m.cpuNs || InFlight(m, g, t)
  {
    if ReadingOn(m, n - 1, g, t) > 0 { PositiveReadingIsSeen(m, n - 1, g, t); }
  }

  lemma {:induction false} FlightIsRead(m: Maps, n: nat, c: nat, g: Pid, t: nat)
    requires m.WellFormed() && c < n <= m.Cpus()
    ensures ReadingOn(m, n, g, t) >= Flight(m, c, g, t)
  {
    if c < n - 1 { FlightIsRead(m, n - 1, c, g, t); }
  }

  lemma {:induction false} SeenStaysSeen(s: System, es: seq<Event>, g: Pid)
    requires CpuInv(s) && Ahead(s, es) && !Removed(s, es, g)
    requires g in TickAt(s).byPid
    ensures g in TickAt(Next(s, es)).byPid
  {
    var r := Next(s, es);
    ZeroIsUnseen(s, es);
    InSnapshot(s.maps, g, s.clock);
    InSnapshot(r.maps, g, r.clock);
    if g in s.maps.cpuNs {
      EntryStays(s, es, g);
    } else {
      var c :| 0 <= c < s.maps.Cpus() && Flight(s.maps, c, g, s.clock) > 0;
      FlightIsRead(s.maps, s.maps.Cpus(), c, g, s.clock);
      ReadingFollowsTruth(s, es, g);
      PositiveReadingIsSeen(r.maps, r.maps.Cpus(), g, r.clock);
    }
  }

  lemma {:induction false} ReadingGrowsExactly(s: System, es: seq<Event>, g: Pid)
    requires CpuInv(s) && Ahead(s, es) && !Removed(s, es, g) && g in TickAt(s).byPid
    ensures s.clock <= Next(s, es).clock && g in TickAt(Next(s, es)).byPid
    ensures Growth(s, es, g) == Ran(s, es, g)
  {
    SeenStaysSeen(s, es, g);
    assert g != 0 by { ZeroIsUnseen(s, es); }
    GrowthIsTrue(s, es, g);
    RunIsForward(s, es);
  }

  /**
   With its counter left alone, a process seen at one tick is seen at every later
   one and reported at exactly its true on-CPU time, though it never switch out.
  */
  lemma {:induction false} IntervalIsExact(s: System, es: seq<Event>, r: System, g: Pid)
    requires CpuInv(s) && Ahead(s, es) && !Removed(s, es, g) && g in TickAt(s).byPid && r == Next(s, es)
    ensures g in TickAt(r).byPid && s.clock <= r.clock
    ensures CpuDeltas(TickAt(s), TickAt(r))[g] == Share(Ran(s, es, g), r.clock - s.clock, true)
  {
    ReadingGrowsExactly(s, es, g);
    DeltaExactly(s, r, g, Ran(s, es, g));
  }

  /** A run cut into the stretches between ticks. */
  ghost predicate PossibleTicks(s: System, runs: seq<seq<Event>>)
    requires s.maps.WellFormed()
    decreases |runs|
  {
    runs == [] || (Possible(s, runs[0]) && PossibleTicks(Next(s, runs[0]), runs[1..]))
  }

  ghost function AfterTicks(s: System, runs: seq<seq<Event>>): System
    requires s.maps.WellFormed() && PossibleTicks(s, runs)
    decreases |runs|
  {
    if runs == [] then s else AfterTicks(Next(s, runs[0]), runs[1..])
  }

  /** The nanoseconds behind what a tick reports: none without a baseline. */
  ghost function ReportedNs(s: System, es: seq<Event>, g: Pid): nat
    requires Ahead(s, es)
  {
    if g in TickAt(s).byPid && g in TickAt(Next(s, es)).byPid then Growth(s, es, g) else 0
  }

  /** What the collector reports is exactly the share of those nanoseconds. */
  lemma {:induction false} DeltaIsReported(s: System, es: seq<Event>, g: Pid)
    requires CpuInv(s) && Ahead(s, es)
    ensures s.clock <= Next(s, es).clock
    ensures g in CpuDeltas(TickAt(s), TickAt(Next(s, es))) <==> g in TickAt(Next(s, es)).byPid
    ensures ValueIn(CpuDeltas(TickAt(s), TickAt(Next(s, es))))(g)
         == Share(ReportedNs(s, es, g), Next(s, es).clock - s.clock, true)
  {
    RunIsForward(s, es);
    ValueIsShare(s, Next(s, es), g, ReportedNs(s, es, g));
  }

  lemma ValueIsShare(s: System, r: System, g: Pid, ns: nat)
    requires s.maps.WellFormed() && r.maps.WellFormed() && s.clock <= r.clock
    requires ns == if g in TickAt(s).byPid && g in TickAt(r).byPid
                   then SaturatingSub(Reading(r.maps, g, r.clock), Reading(s.maps, g, s.clock)) else 0
    ensures ValueIn(CpuDeltas(TickAt(s), TickAt(r)))(g) == Share(ns, r.clock - s.clock, true)
  {
    if g in TickAt(r).byPid { DeltaIsGrowth(s, r, g); }
    if s.clock < r.clock { PercentZero(r.clock - s.clock); }
  }

  /** The nanoseconds reported for `g` over all the ticks. */
  ghost function Reported(s: System, runs: seq<seq<Event>>, g: Pid): nat
    requires s.maps.WellFormed() && PossibleTicks(s, runs)
    decreases |runs|
  {
    if runs == [] then 0 else ReportedNs(s, runs[0], g) + Reported(Next(s, runs[0]), runs[1..], g)
  }

  /** The reading at the tick that first saw `g`, which that tick reports as zero; none if seen from the start. */
  ghost function FirstSight(s: System, runs: seq<seq<Event>>, g: Pid): nat
    requires s.maps.WellFormed() && PossibleTicks(s, runs)
    decreases |runs|
  {
    if runs == [] || g in TickAt(s).byPid then 0
    else
      var t := Next(s, runs[0]);
      if g in TickAt(t).byPid then Reading(t.maps, g, t.clock) else FirstSight(t, runs[1..], g)
  }

  ghost predicate RemovedInTicks(s: System, runs: seq<seq<Event>>, g: Pid)
    requires s.maps.WellFormed() && PossibleTicks(s, runs)
    decreases |runs|
  {
    runs != [] && (Removed(s, runs[0], g) || RemovedInTicks(Next(s, runs[0]), runs[1..], g))
  }

  /** Without evictions and reaps no counter is removed, so the exact laws hold of every process. */
  predicate Quiet(es: seq<Event>) {
    forall i :: 0 <= i < |es| ==> !es[i].EvictCpu? && !es[i].Reap?
  }

  lemma {:induction false} QuietRemovesNothing(s: System, es: seq<Event>, g: Pid)
    requires s.maps.WellFormed() && Possible(s, es) && Quiet(es)
    ensures !Removed(s, es, g)
    decreases |es|
  {
    if es != [] { QuietRemovesNothing(Apply(s, es[0]), es[1..], g); }
  }

  lemma {:induction false} QuietTicksRemoveNothing(s: System, runs: seq<seq<Event>>, g: Pid)
    requires s.maps.WellFormed() && PossibleTicks(s, runs) && forall i :: 0 <= i < |runs| ==> Quiet(runs[i])
    ensures !RemovedInTicks(s, runs, g)
    decreases |runs|
  {
    if runs != [] {
      QuietRemovesNothing(s, runs[0], g);
      QuietTicksRemoveNothing(Next(s, runs[0]), runs[1..], g);
    }
  }

  lemma {:induction false} AfterTicksKeeps(s: System, runs: seq<seq<Event>>)
    requires CpuInv(s) && PossibleTicks(s, runs)
    ensures
      var r := AfterTicks(s, runs);
      && s.clock <= r.clock && CpuInv(r)
      && forall n: nat, g, a: nat, b: nat ::
           a <= b <= s.clock ==> TrueCpu(r.history, n, g, a, b) == TrueCpu(s.history, n, g, a, b)
    decreases |runs|
  {
    if runs != [] {
      RunKeeps(s, runs[0]);
      AfterTicksKeeps(Next(s, runs[0]), runs[1..]);
    }
  }

  /** One interval's part in the telescope. */
  lemma {:induction false} TickReports(s: System, es: seq<Event>, g: Pid)
    requires CpuInv(s) && Ahead(s, es) && g != 0
    ensures ReportedNs(s, es, g) <= Ran(s, es, g)
    ensures !Removed(s, es, g) ==>
              Reading(Next(s, es).maps, g, Next(s, es).clock) == Reading(s.maps, g, s.clock) + Ran(s, es, g)
    ensures !Removed(s, es, g) && g in TickAt(s).byPid ==>
              g in TickAt(Next(s, es)).byPid && ReportedNs(s, es, g) == Ran(s, es, g)
    ensures g !in TickAt(s).byPid ==> Reading(s.maps, g, s.clock) == 0
    ensures g !in TickAt(Next(s, es)).byPid ==> Reading(Next(s, es).maps, g, Next(s, es).clock) == 0
  {
    RunIsForward(s, es);
    GrowthIsTrue(s, es, g);
    ReadingFollowsTruth(s, es, g);
    UnseenIsZero(s, g);
    UnseenIsZero(Next(s, es), g);
    if !Removed(s, es, g) && g in TickAt(s).byPid { SeenStaysSeen(s, es, g); }
  }

  lemma UnseenIsZero(s: System, g: Pid)
    requires s.maps.WellFormed()
    ensures g !in TickAt(s).byPid ==> Reading(s.maps, g, s.clock) == 0
  {
    InSnapshot(s.maps, g, s.clock);
    if g !in TickAt(s).byPid { UnseenReadsZero(s.maps, s.maps.Cpus(), g, s.clock); }
  }

  /**
   Over any number of ticks the reports add up to the true time, never more. With
   no removal they fall short of it by exactly the reading of the tick that first
   saw the process: by nothing, if it had a baseline from the start.
  */
  lemma {:induction false} ReportsTelescope(s: System, runs: seq<seq<Event>>, g: Pid)
    requires CpuInv(s) && PossibleTicks(s, runs) && g != 0
    ensures
      var r := AfterTicks(s, runs);
      && s.clock <= r.clock && r.maps.WellFormed()
      && var ran := TrueCpu(r.history, s.maps.Cpus(), g, s.clock, r.clock);
      && Reported(s, runs, g) <= ran
      && (!RemovedInTicks(s, runs, g) ==>
            && Reported(s, runs, g) + FirstSight(s, runs, g) == ran
            && ran == Reading(r.maps, g, r.clock) - Reading(s.maps, g, s.clock))
      && (g in TickAt(s).byPid ==> FirstSight(s, runs, g) == 0)
    decreases |runs|
  {
    var n := s.maps.Cpus();
    if runs == [] {
      TrueCpuSplit(s.history, n, g, s.clock, s.clock, s.clock);
    } else {
      var t, r := Next(s, runs[0]), AfterTicks(s, runs);
      RunKeeps(s, runs[0]);
      TickReports(s, runs[0], g);
      AfterTicksKeeps(t, runs[1..]);
      ReportsTelescope(t, runs[1..], g);
      TrueCpuSplit(r.history, n, g, s.clock, t.clock, r.clock);
    }
  }

  /**
   From attach on, a counter that was left alone reads, with its slices in flight,
   exactly the process's on-CPU time since each CPU's first observed switch.
  */
  lemma {:induction false} ExactAccounting(s: System, es: seq<Event>, g: Pid)
    requires Init(s) && Possible(s, es) && !Removed(s, es, g) && g != 0
    ensures Reading(Next(s, es).maps, g, Next(s, es).clock)
         == TrueCpu(Next(s, es).history, s.maps.Cpus(), g, 0, Next(s, es).clock)
  {
    InitCpuInv(s);
    ReadingFollowsTruth(s, es, g);
    RunKeeps(s, es);
    TrueCpuSplit(Next(s, es).history, s.maps.Cpus(), g, 0, s.clock, Next(s, es).clock);
  }

  // ---- conservation ----

  lemma {:induction false} HeldIsExact(s: System, es: seq<Event>, c: nat, g: Pid)
    requires CpuInv(s) && Possible(s, es) && !Removed(s, es, g) && g != 0 && c < s.maps.Cpus()
    requires Held(s.maps, c, g, s.clock) == OnCpu(s.history, c, g, 0, s.clock)
    ensures
      var r := Run(s, es);
      r.maps.Cpus() == s.maps.Cpus() && Held(r.maps, c, g, r.clock) == OnCpu(r.history, c, g, 0, r.clock)
    decreases |es|
  {
    if es != [] {
      StepHeld(s, es[0], c, g);
      StepCpuInv(s, es[0]);
      HeldIsExact(Apply(s, es[0]), es[1..], c, g);
    }
  }

  lemma {:induction false} OccupantRan(h: Trace, c: nat, g: Pid, t: nat, b: nat)
    requires t < b && Occupant(h, c, t) == Some(g)
    ensures OnCpu(h, c, g, 0, b) > 0
  {
    if t < b - 1 { OccupantRan(h, c, g, t, b - 1); }
  }

  /** The processes CPU `c` may owe time to, and idle. */
  function Billed(m: Maps, c: nat): set<Pid>
    requires m.WellFormed() && c < m.Cpus()
  {
    m.cpuNs.Keys + {m.currentTgid[c]} + {0}
  }

  ghost function HeldOn(m: Maps, c: nat, t: nat): Pid -> nat
    requires m.WellFormed() && c < m.Cpus()
  {
    g => Held(m, c, g, t)
  }

  ghost function RanOn(h: Trace, c: nat, a: nat, b: nat): Pid -> nat
    requires a <= b
  {
    g => OnCpu(h, c, g, a, b)
  }

  /**
   Nothing of a CPU's time is lost or counted twice: charged slots, slices in
   flight, idle time and time before the first observed switch fill the clock.
  */
  lemma {:induction false} CpuTimeIsConserved(s: System, es: seq<Event>, c: nat)
    requires Init(s) && Possible(s, es) && c < s.maps.Cpus()
    requires forall g :: !Removed(s, es, g)
    ensures
      var r := Next(s, es);
      && r.maps.Cpus() == s.maps.Cpus()
      && SumSet(Billed(r.maps, c) - {0}, HeldOn(r.maps, c, r.clock))
         + OnCpu(r.history, c, 0, 0, r.clock) + Spent(r.history, c, None, 0, r.clock) == r.clock
  {
    InitCpuInv(s);
    RunIsForward(s, es);
    var r := Next(s, es);
    var who, held, ran := Billed(r.maps, c), HeldOn(r.maps, c, r.clock), RanOn(r.history, c, 0, r.clock);
    forall g | g != 0
      ensures held(g) == ran(g)
    {
      SpentAfterLast(s.history, c, Some(g), 0, s.clock);
      HeldIsExact(s, es, c, g);
    }
    forall t, g | 0 <= t < r.clock && Occupant(r.history, c, t) == Some(g)
      ensures g in who
    {
      OccupantRan(r.history, c, g, t, r.clock);
      assert g != 0 ==> held(g) > 0;
    }
    OneOccupantAtATime(r.history, c, who, 0, r.clock);
    SumSetLe(who, ran, g => OnCpu(r.history, c, g, 0, r.clock));
    SumSetLe(who, g => OnCpu(r.history, c, g, 0, r.clock), ran);
    SumSetRemove(who, ran, 0);
    SumSetLe(who - {0}, ran, held);
    SumSetLe(who - {0}, held, ran);
  }

  // ---- the machine-wide total ----

  /** The CPUs that ever switched, of the first `n`. */
  function Running(h: Trace, n: nat): nat {
    if n == 0 then 0 else Running(h, n - 1) + if Latest(h, n - 1).Some? then 1 else 0
  }

  /** It counts exactly those CPUs of which the history records a switch. */
  lemma {:induction false} RunningCounts(h: Trace, n: nat)
    ensures Running(h, n) == |Switched(h, n)|
  {
    if n > 0 {
      RunningCounts(h, n - 1);
      SwitchedOrSilent(h, n - 1);
      assert Switched(h, n) == if Latest(h, n - 1).Some? then Switched(h, n - 1) + {n - 1} else Switched(h, n - 1);
    }
  }

  ghost predicate HasSwitch(h: Trace, c: nat) {
    exists e :: e in h && e.cpu == c
  }

  ghost function Switched(h: Trace, n: nat): set<nat> {
    set c: nat | c < n && HasSwitch(h, c)
  }

  lemma {:induction false} SwitchedOrSilent(h: Trace, c: nat)
    ensures Latest(h, c).Some? <==> HasSwitch(h, c)
  {
    if h != [] {
      var init, last := h[..|h| - 1], h[|h| - 1];
      SwitchedOrSilent(init, c);
      assert h == init + [last];
      if Latest(init, c).Some? {
        var e :| e in init && e.cpu == c;
        assert e in h;
      }
    }
  }

  lemma {:induction false} SilentCpu(h: Trace, c: nat, g: Pid, a: nat, b: nat)
    requires a <= b && Latest(h, c) == None
    ensures OnCpu(h, c, g, a, b) == 0
  {
    if a < b {
      SilentAlways(h, c, b - 1);
      SilentCpu(h, c, g, a, b - 1);
    }
  }

  lemma {:induction false} SilentAlways(h: Trace, c: nat, t: nat)
    requires Latest(h, c) == None
    ensures LastSwitch(h, c, t) == None
  {
    if h != [] { SilentAlways(h[..|h| - 1], c, t); }
  }

  ghost function TrueCpuOf(h: Trace, n: nat, a: nat, b: nat): Pid -> nat
    requires a <= b
  {
    g => TrueCpu(h, n, g, a, b)
  }

  lemma {:induction false} MachineBound(h: Trace, n: nat, who: set<Pid>, a: nat, b: nat)
    requires a <= b
    ensures SumSet(who, TrueCpuOf(h, n, a, b)) <= Running(h, n) * (b - a)
  {
    if n == 0 {
      SumSetZero(who, TrueCpuOf(h, n, a, b));
    } else {
      MachineBound(h, n - 1, who, a, b);
      SumSetAdd(who, TrueCpuOf(h, n - 1, a, b), RanOn(h, n - 1, a, b), TrueCpuOf(h, n, a, b));
      CpuBound(h, n - 1, who, a, b);
      OneMore(Running(h, n - 1), b - a);
    }
  }

  lemma OneMore(k: nat, d: nat)
    ensures (k + 1) * d == k * d + d
  {
  }

  lemma {:induction false} CpuBound(h: Trace, c: nat, who: set<Pid>, a: nat, b: nat)
    requires a <= b
    ensures SumSet(who, RanOn(h, c, a, b)) <= if Latest(h, c).Some? then b - a else 0
  {
    var ran := RanOn(h, c, a, b);
    if Latest(h, c) == None {
      forall g ensures ran(g) == 0 { SilentCpu(h, c, g, a, b); }
      SumSetZero(who, ran);
    } else {
      OneOccupantAtATime(h, c, who, a, b);
      SumSetLe(who, ran, g => OnCpu(h, c, g, a, b));
    }
  }

  ghost function GrowthIn(s: System, es: seq<Event>, seen: set<Pid>): Pid -> nat
    requires Ahead(s, es)
  {
    g => if g in seen then Growth(s, es, g) else 0
  }

  /** All the growth of an interval fits in the time of the CPUs that ran. */
  lemma {:induction false} GrowthFitsMachine(s: System, es: seq<Event>, who: set<Pid>, seen: set<Pid>)
    requires CpuInv(s) && Ahead(s, es) && 0 !in who
    ensures s.clock <= Next(s, es).clock
    ensures SumSet(who, GrowthIn(s, es, seen))
         <= Running(Next(s, es).history, s.maps.Cpus()) * (Next(s, es).clock - s.clock)
  {
    RunIsForward(s, es);
    var r := Next(s, es);
    var truth := TrueCpuOf(r.history, s.maps.Cpus(), s.clock, r.clock);
    assert SumSet(who, GrowthIn(s, es, seen)) <= SumSet(who, truth) by {
      forall g | g in who
        ensures GrowthIn(s, es, seen)(g) <= truth(g)
      {
        GrowthIsTrue(s, es, g);
      }
      SumSetLe(who, GrowthIn(s, es, seen), truth);
    }
    MachineBound(r.history, s.maps.Cpus(), who, s.clock, r.clock);
  }

  lemma {:induction false} GrowthBehindTicks(s: System, es: seq<Event>)
    requires CpuInv(s) && Ahead(s, es)
    ensures IsGrowth(TickAt(s), TickAt(Next(s, es)), GrowthIn(s, es, TickAt(s).byPid.Keys))
  {
    var r := Next(s, es);
    RunIsForward(s, es);
    forall g | g in TickAt(r).byPid
      ensures g in TickAt(s).byPid ==> Growth(s, es, g) == SaturatingSub(TickAt(r).byPid[g], TickAt(s).byPid[g])
    {
      InSnapshot(s.maps, g, s.clock);
      InSnapshot(r.maps, g, r.clock);
    }
  }

  /**
   The machine-wide figure never passes 100 when no more CPUs run than are online,
   whatever was removed in the interval.
  */
  lemma {:induction false} TotalAtMostHundred(s: System, es: seq<Event>, online: nat)
    requires CpuInv(s) && Ahead(s, es)
    requires 0 < online && Running(Next(s, es).history, s.maps.Cpus()) <= online
    ensures 0.0 <= SumValues(CpuDeltas(TickAt(s), TickAt(Next(s, es)))) / online as real <= 100.0
  {
    RunIsForward(s, es);
    ZeroIsUnseen(s, es);
    var r, seen := Next(s, es), TickAt(s).byPid.Keys;
    GrowthFitsMachine(s, es, TickAt(r).byPid.Keys, seen);
    GrowthBehindTicks(s, es);
    TotalWithinMachine(TickAt(s), TickAt(r), GrowthIn(s, es, seen), Running(r.history, s.maps.Cpus()), online);
  }
}
