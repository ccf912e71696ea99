/**
 A small machine run by hand: one CPU, one thread that sleeps twice, and two ticks
 a second apart around its second waking.
*/
module Example {
  import opened Prelude
  import opened History
  import opened Kernel
  import opened System
  import opened IoAccounting
  import opened Metrics
  import opened IoTicks
  import opened ExitLedger

  const IDLE := Task(0, 0)
  const WORKER := Task(1, 1)

  const IN1 := Switch(0, IDLE, WORKER, 0, 1, false)
  const OUT2 := Switch(0, WORKER, IDLE, 0x2, 2, false)
  const IN3 := Switch(0, IDLE, WORKER, 0, 3, false)
  const OUT4 := Switch(0, WORKER, IDLE, 0x2, 4, false)
  const WAKE := Switch(0, IDLE, WORKER, 0, 3 * HALF, false)

  /** Half a second, in nanoseconds. */
  const HALF: nat := 500_000_000

  function As(e: Switch): Event {
    Sched(e.at, e.cpu, e.prev, e.next, e.state)
  }

  function Machine(start: nat, tgid: Pid, cpu: PerCpu, sleep: map<Pid, nat>, io: PerCpu, h: Trace, clock: nat): System {
    System(Maps([start], [tgid], cpu, sleep, io, [], 8, 8), h, map[1 := Group(map[1 := Alive], 1, 0, 0)], clock)
  }

  function S0(): System { Machine(0, 0, map[], map[], map[], [], 0) }
  function S1(): System { Machine(1, 1, map[], map[], map[], [IN1], 1) }
  function S2(): System { Machine(1, 0, map[1 := [1]], map[1 := 2], map[], [IN1, OUT2], 2) }
  function S3(): System { Machine(3, 1, map[1 := [1]], map[], map[1 := [1]], [IN1, OUT2, IN3], 3) }
  function S4(): System { Machine(3, 0, map[1 := [2]], map[1 := 4], map[1 := [1]], [IN1, OUT2, IN3, OUT4], 4) }

  /** Where the first tick reads, with the thread asleep since 4. */
  function Tick(): System { S4().(clock := 2 * HALF) }

  lemma Starts()
    ensures Init(S0())
  {
    var g := S0().groups[1];
    assert Living(g) == {1};
    assert S0().maps.startTime == seq(1, _ => 0);
    assert g.members[1] != Traced;
  }

  lemma Step1()
    ensures S0().maps.WellFormed() && Enabled(S0(), As(IN1)) && Apply(S0(), As(IN1)) == S1()
  {
    assert InPhase(S0(), 1, 1, Alive);
    assert [0][0 := 1] == [1];
  }

  lemma Step2()
    ensures S1().maps.WellFormed() && Enabled(S1(), As(OUT2)) && Apply(S1(), As(OUT2)) == S2()
  {
    Seen([], IN1);
    assert OneHot(1, 0, 1) == [1] && [1][0 := 0] == [0];
    assert [IN1] + [OUT2] == [IN1, OUT2];
  }

  lemma Step3()
    ensures S2().maps.WellFormed() && Enabled(S2(), As(IN3)) && Apply(S2(), As(IN3)) == S3()
  {
    Seen([IN1], OUT2);
    assert OneHot(1, 0, 1) == [1] && [1][0 := 3] == [3] && [0][0 := 1] == [1];
    assert map[1 := 2] - {1} == map[];
    assert [IN1, OUT2] + [IN3] == [IN1, OUT2, IN3];
  }

  lemma Step4()
    ensures S3().maps.WellFormed() && Enabled(S3(), As(OUT4)) && Apply(S3(), As(OUT4)) == S4()
  {
    Seen([IN1, OUT2], IN3);
    assert Bump([1], 0, 1) == [2] && [1][0 := 0] == [0];
    assert map[1 := [1]][1 := [2]] == map[1 := [2]];
    assert [IN1, OUT2, IN3] + [OUT4] == [IN1, OUT2, IN3, OUT4];
  }

  lemma Step5()
    ensures Enabled(S4(), EvictIo(2 * HALF, 7)) && Apply(S4(), EvictIo(2 * HALF, 7)) == Tick()
  {
    assert map[1 := [1]] - {7} == map[1 := [1]];
  }

  /** What the last switch says of its CPU and of its threads. */
  lemma {:induction false} Seen(h: Trace, e: Switch)
    ensures Latest(h + [e], e.cpu) == Some(e)
    ensures LastEdge(h + [e], e.next.tid) == CameIn
    ensures e.next.tid != e.prev.tid ==> LastEdge(h + [e], e.prev.tid) == WentOut(e.state, e.at, e.dropped)
  {
    LatestAppend(h, e, e.cpu);
    LastEdgeAppend(h, e, e.next.tid);
    LastEdgeAppend(h, e, e.prev.tid);
  }

  lemma ReachesTick()
    ensures var es := [As(IN1), As(OUT2), As(IN3), As(OUT4), EvictIo(2 * HALF, 7)];
      S0().maps.WellFormed() && Possible(S0(), es) && Run(S0(), es) == Tick()
  {
    Step1();
    Step2();
    Step3();
    Step4();
    Step5();
    var last := [EvictIo(2 * HALF, 7)];
    Prepend(Tick(), [], S4(), EvictIo(2 * HALF, 7), Tick());
    Prepend(S4(), last, S3(), As(OUT4), Tick());
    Prepend(S3(), [As(OUT4)] + last, S2(), As(IN3), Tick());
    Prepend(S2(), [As(IN3)] + ([As(OUT4)] + last), S1(), As(OUT2), Tick());
    Prepend(S1(), [As(OUT2)] + ([As(IN3)] + ([As(OUT4)] + last)), S0(), As(IN1), Tick());
    assert [As(IN1)] + ([As(OUT2)] + ([As(IN3)] + ([As(OUT4)] + last)))
        == [As(IN1), As(OUT2), As(IN3), As(OUT4), EvictIo(2 * HALF, 7)];
  }

  /** Half a second after the tick the thread wakes; half a second later comes the next tick. */
  function Second(): seq<Event> {
    [As(WAKE), EvictIo(4 * HALF, 7)]
  }

  lemma SecondRuns()
    ensures Possible(Tick(), Second())
    ensures Next(Tick(), Second()).clock == 4 * HALF
    ensures Next(Tick(), Second()).history == [IN1, OUT2, IN3, OUT4, WAKE]
  {
    Seen([IN1, OUT2, IN3], OUT4);
    assert [IN1, OUT2, IN3] + [OUT4] == [IN1, OUT2, IN3, OUT4];
    assert [IN1, OUT2, IN3, OUT4] + [WAKE] == [IN1, OUT2, IN3, OUT4, WAKE];
    var woken := Apply(Tick(), As(WAKE));
    var evict := EvictIo(4 * HALF, 7);
    Prepend(Apply(woken, evict), [], woken, evict, Apply(woken, evict));
    Prepend(woken, [evict], Tick(), As(WAKE), Apply(woken, evict));
    assert [As(WAKE)] + [evict] == Second();
  }

  lemma {:induction false} SleptInAll(h: Trace)
    requires h == [IN1, OUT2, IN3, OUT4, WAKE]
    ensures Slept(h, 1, false) <= U64_MAX
  {
    SleptAtMost(h, 1, false, 3 * HALF);
    assert |h| * (3 * HALF) == 15 * HALF;
  }

  /** A machine with one thread reports more than 100 for it, over a second of which it sleeps half. */
  ghost predicate OneThreadAbove(s: System, es: seq<Event>) {
    && s.maps.WellFormed() && Possible(s, es)
    && s.groups == map[1 := Group(map[1 := Alive], 1, 0, 0)]
    && Next(s, es).clock == s.clock + 2 * HALF
    && var deltas := IoDeltas(IoTickAt(s), IoTickAt(Next(s, es)));
       1 in deltas && deltas[1] > 100.0
  }

  lemma TickIsSound()
    ensures IoInv(Tick())
  {
    Starts();
    InitIoInv(S0());
    ReachesTick();
    IoFollowsTruth(S0(), [As(IN1), As(OUT2), As(IN3), As(OUT4), EvictIo(2 * HALF, 7)], 1);
  }

  lemma NothingRemoved()
    requires Possible(Tick(), Second())
    ensures !IoRemoved(Tick(), Second(), 1)
  {
    var rest := Second()[1..];
    assert rest == [EvictIo(4 * HALF, 7)] && rest[1..] == [];
    assert !IoRemoves(Tick(), As(WAKE), 1);
    assert !IoRemoves(Apply(Tick(), As(WAKE)), EvictIo(4 * HALF, 7), 1);
  }

  lemma WakePasses()
    ensures OneThreadAbove(Tick(), Second())
  {
    TickIsSound();
    SecondRuns();
    SleptInAll(Next(Tick(), Second()).history);
    NothingRemoved();
    assert OneWake(Second(), 1, 0);
    WakeReportsWholeSleep(Tick(), Second(), 1, 0);
  }

  ghost predicate Reached(s: System) {
    exists s0, es :: Init(s0) && Possible(s0, es) && Next(s0, es) == s
  }

  lemma TickIsReached()
    ensures Reached(Tick())
  {
    Starts();
    ReachesTick();
    assert Next(S0(), [As(IN1), As(OUT2), As(IN3), As(OUT4), EvictIo(2 * HALF, 7)]) == Tick();
  }

  /** Such a machine is reached from attach. */
  lemma OneThreadPassesHundred()
    ensures exists s, es :: Reached(s) && OneThreadAbove(s, es)
  {
    TickIsReached();
    WakePasses();
    Witness(Tick(), Second());
  }

  lemma Witness(s: System, es: seq<Event>)
    requires Reached(s) && OneThreadAbove(s, es)
    ensures exists s, es :: Reached(s) && OneThreadAbove(s, es)
  {
  }
}
