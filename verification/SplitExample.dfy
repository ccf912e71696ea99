/**
 A tick caught between its two reads, worked by hand on one CPU and one thread, for
 ticks any time `t` apart. The thread has run all that time when the counters are
 summed, and leaves the CPU a microsecond later, before what is in flight is added.
*/
module SplitExample {
  import opened Prelude
  import opened History
  import opened Kernel
  import opened System
  import opened CpuAccounting
  import opened ExitLedger
  import opened Metrics
  import opened SplitTick
  import opened Example

  /** A tick period for which the clocks below make sense. */
  predicate Period(t: nat) {
    1000 < t && 2 * t <= U64_MAX
  }

  function Out(t: nat): Switch { Switch(0, WORKER, IDLE, 0x1, t + 1000, false) }

  /** What the switch-out charges: all of the slice since 3. */
  function Slice(t: nat): nat { t + 997 }

  /** The first tick's counter read, at `t`. */
  function First(t: nat): System { S3().(clock := t) }

  /** The first tick's read of what is in flight, when nothing is. */
  function Gone(t: nat): System {
    Machine(3, 0, map[1 := [1 + Slice(t)]], map[], map[1 := [1]], [IN1, OUT2, IN3, Out(t)], t + 1000)
  }

  /** The second tick, at `2 * t`, reads both at once. */
  function Later(t: nat): System { Gone(t).(clock := 2 * t) }

  function Leave(t: nat): seq<Event> { [As(Out(t))] }

  function Idle(t: nat): seq<Event> { [EvictIo(2 * t, 7)] }

  /** From attach to the first tick. */
  function ToFirst(t: nat): seq<Event> { [As(IN1), As(OUT2), As(IN3), EvictIo(t, 7)] }

  lemma RunsToFirst(t: nat)
    requires Period(t)
    ensures Init(S0()) && Possible(S0(), ToFirst(t)) && Run(S0(), ToFirst(t)) == First(t)
  {
    Starts();
    Step1();
    Step2();
    Step3();
    var wait := EvictIo(t, 7);
    assert map[1 := [1]] - {7} == map[1 := [1]];
    Prepend(First(t), [], S3(), wait, First(t));
    Prepend(S3(), [wait], S2(), As(IN3), First(t));
    Prepend(S2(), [As(IN3)] + [wait], S1(), As(OUT2), First(t));
    Prepend(S1(), [As(OUT2)] + ([As(IN3)] + [wait]), S0(), As(IN1), First(t));
    assert [As(IN1)] + ([As(OUT2)] + ([As(IN3)] + [wait])) == ToFirst(t);
  }

  lemma FirstIsReached(t: nat)
    requires Period(t)
    ensures Reached(First(t)) && CpuInv(First(t))
  {
    RunsToFirst(t);
    InitCpuInv(S0());
    RunKeeps(S0(), ToFirst(t));
    assert Next(S0(), ToFirst(t)) == First(t);
  }

  lemma Leaves(t: nat)
    requires Period(t)
    ensures Leads(First(t), Leave(t), Gone(t)) && !Removed(First(t), Leave(t), 1)
  {
    var out := Out(t);
    Seen([IN1, OUT2], IN3);
    assert [IN1, OUT2] + [IN3] == [IN1, OUT2, IN3] && [IN1, OUT2, IN3] + [out] == [IN1, OUT2, IN3, out];
    assert Bump([1], 0, Slice(t)) == [1 + Slice(t)] && [1][0 := 0] == [0];
    assert map[1 := [1]][1 := [1 + Slice(t)]] == map[1 := [1 + Slice(t)]];
    Prepend(Gone(t), [], First(t), As(out), Gone(t));
    assert [As(out)] + [] == Leave(t);
    assert Leave(t)[1..] == [];
  }

  lemma Idles(t: nat)
    requires Period(t)
    ensures Leads(Gone(t), Idle(t), Later(t)) && !Removed(Gone(t), Idle(t), 1)
    ensures Leads(Later(t), [], Later(t))
  {
    assert map[1 := [1]] - {7} == map[1 := [1]];
    Prepend(Later(t), [], Gone(t), EvictIo(2 * t, 7), Later(t));
    assert [EvictIo(2 * t, 7)] + [] == Idle(t);
    assert Idle(t)[1..] == [];
  }

  /** On one CPU a reading is what that CPU holds. */
  lemma OneCpu(s: System)
    requires s.maps.WellFormed() && s.maps.Cpus() == 1
    ensures Reading(s.maps, 1, s.clock) == Held(s.maps, 0, 1, s.clock)
    ensures Flights(s.maps, 1, s.clock) == Flight(s.maps, 0, 1, s.clock)
  {
    assert ReadingOn(s.maps, 0, 1, s.clock) == 0 && FlightsOn(s.maps, 0, 1, s.clock) == 0;
  }

  /** The thread ran on from the first read to its switch-out, and not after. */
  lemma RanAMicrosecond(t: nat)
    requires Period(t)
    ensures RanBetween(First(t), Later(t), 1) == 1000
  {
    FirstIsReached(t);
    Leaves(t);
    Idles(t);
    RunKeeps(First(t), Leave(t));
    ReadingFollowsTruth(First(t), Leave(t), 1);
    ReadingFollowsTruth(Gone(t), Idle(t), 1);
    OneCpu(First(t));
    OneCpu(Gone(t));
    OneCpu(Later(t));
    TrueCpuSplit(Later(t).history, 1, 1, First(t).clock, Gone(t).clock, Later(t).clock);
  }

  /** Two ticks, the first of them caught between its reads. */
  lemma TheTicks(t: nat)
    requires Period(t)
    ensures Reached(First(t))
    ensures TwoSplitTicks(First(t), Leave(t), Gone(t), Idle(t), Later(t), [], Later(t))
  {
    FirstIsReached(t);
    Leaves(t);
    Idles(t);
  }

  lemma BothTicksListIt(t: nat)
    requires Period(t)
    ensures Listed(First(t), Gone(t), Later(t), Later(t), 1)
    ensures SplitReading(First(t), Gone(t), 1) == 1 && SplitReading(Later(t), Later(t), 1) == 1 + Slice(t)
  {
    OneCpu(Gone(t));
    OneCpu(Later(t));
  }

  /** Two ticks over which process 1 ran for a microsecond and is reported above 100. */
  ghost predicate Overstated(s: System, a: System, b: System, r: System) {
    && Listed(s, a, b, r, 1) && RanBetween(s, b, 1) == 1000
    && var deltas := CpuDeltas(SplitSnapshot(s, a), SplitSnapshot(b, r));
       1 in deltas && deltas[1] > 100.0
  }

  lemma ReadsAbove(s: System, a: System, b: System, r: System, slice: nat)
    requires Listed(s, a, b, r, 1) && RanBetween(s, b, 1) == 1000 && slice > b.clock - s.clock
    requires SplitReading(s, a, 1) == 1 && SplitReading(b, r, 1) == 1 + slice
    ensures Overstated(s, a, b, r)
  {
    SplitDelta(s, a, b, r, 1);
    ShareOverHundred(slice, b.clock - s.clock);
  }

  /**
   However far apart the ticks, the slice the first one missed is reported by the
   second, though the process ran for a microsecond in between.
  */
  lemma MissedSliceIsReportedLater(t: nat)
    requires Period(t)
    ensures Reached(First(t)) && Later(t).clock - First(t).clock == t
    ensures TwoSplitTicks(First(t), Leave(t), Gone(t), Idle(t), Later(t), [], Later(t))
    ensures Overstated(First(t), Gone(t), Later(t), Later(t))
  {
    TheTicks(t);
    BothTicksListIt(t);
    RanAMicrosecond(t);
    ReadsAbove(First(t), Gone(t), Later(t), Later(t), Slice(t));
  }
}
