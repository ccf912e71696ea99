/**
 A tick's reads against the hooks, one shared word at a time. A switch charges the
 outgoing process (`charge_out`), then writes the CPU's start time and process id
 (`mark_in`); the collector reads the counter, the process id, the start time and
 the clock. One CPU, every step at its own time, in any interleaving; and then any
 number of CPUs, which share no word.
*/
module TornRead {
  import opened Prelude
  import opened History
  import opened Kernel

  /** A schedule-in: which process, and when. */
  datatype Stint = Stint(tgid: Pid, since: nat)

  /** The order of the two writes of `mark_in`; the hook uses `StartFirst`. */
  datatype Order = StartFirst | TgidFirst

  /** How far a switch in progress has got: charged, and then the first write done. */
  datatype Stage = Entered | Charged | Half

  /** A switch in progress: the thread coming in, the clock its hook read, and its stage. */
  datatype Hook = Hook(next: Task, now: nat, stage: Stage)

  /** The counters as read on this CPU, and the time up to which they had been charged. */
  datatype Counted = Counted(slots: map<Pid, nat>, upTo: nat)

  /**
   How far the collector has got. `stint` is the one whose id it picked up; `still`
   is when it picked it up, or when the switch then in progress had begun.
  */
  datatype Reader =
    | Waiting
    | HasSlots(counted: Counted)
    | HasTgid(counted: Counted, tgid: Pid, stint: Stint, still: nat)
    | HasStart(counted: Counted, tgid: Pid, stint: Stint, still: nat, start: nat)
    | Done(counted: Counted, tgid: Pid, stint: Stint, still: nat, start: nat, now: nat)

  /**
   `slots`, `start` and `current` are the shared words of the CPU, `shown` the stint
   whose id is in `current`, `h` the true switches.
  */
  datatype Cell = Cell(slots: map<Pid, nat>, start: nat, current: Pid, clock: nat, shown: Stint,
                       hook: Option<Hook>, reader: Reader, h: Trace)

  datatype Micro =
    | Enter(next: Task, at: nat)
    | Charge(at: nat)
    | MarkFirst(at: nat)
    | MarkSecond(at: nat)
    | Remove(g: Pid, at: nat)
    | ReadSlots(at: nat)
    | ReadTgid(at: nat)
    | ReadStart(at: nat)
    | ReadClock(at: nat)

  predicate InStage(c: Cell, stage: Stage) {
    c.hook.Some? && c.hook.value.stage == stage
  }

  predicate Can(c: Cell, m: Micro) {
    && c.clock <= m.at
    && match m
       case Enter(next, at) => c.hook.None? && 0 < at && (next.tid == 0 <==> next.tgid == 0)
       case Charge(_) => InStage(c, Entered)
       case MarkFirst(_) => InStage(c, Charged)
       case MarkSecond(_) => InStage(c, Half)
       case Remove(_, _) => true
       case ReadSlots(_) => c.reader.Waiting?
       case ReadTgid(_) => c.reader.HasSlots?
       case ReadStart(_) => c.reader.HasTgid?
       case ReadClock(_) => c.reader.HasStart?
  }

  function SlotOf(slots: map<Pid, nat>, g: Pid): nat {
    if g in slots then slots[g] else 0
  }

  /** `charge_out` of the thread going out; idle, or a CPU with no start yet, bills nothing. */
  function WriteSlots(c: Cell, now: nat): Cell {
    if c.current == 0 || c.start == 0 then c
    else c.(slots := c.slots[c.current := SaturatingAdd(SlotOf(c.slots, c.current), SaturatingSub(now, c.start))])
  }

  /** The two writes of `mark_in`; idle leaves the start time alone. */
  function WriteStart(c: Cell, next: Task, now: nat): Cell {
    if next.tid != 0 then c.(start := now) else c
  }

  function WriteTgid(c: Cell, next: Task, now: nat): Cell {
    c.(current := next.tgid, shown := Stint(next.tgid, now))
  }

  /** The true switch behind a hook: the CPU changes hands when the hook reads the clock. */
  function TrueSwitch(next: Task, at: nat): Switch {
    Switch(0, Task(0, 0), next, 0, at, false)
  }

  /** A time up to which the stint shown has certainly run. */
  function Until(c: Cell): nat {
    if c.hook.Some? then c.hook.value.now else c.clock
  }

  /** The time up to which the counters have been charged. */
  function Covered(c: Cell): nat {
    if c.hook.Some? && c.hook.value.stage != Entered then c.hook.value.now else c.shown.since
  }

  function Do(order: Order, c: Cell, m: Micro): Cell
    requires Can(c, m)
  {
    var later := c.(clock := m.at);
    match m
    case Enter(next, at) => later.(hook := Some(Hook(next, at, Entered)), h := c.h + [TrueSwitch(next, at)])
    case Charge(_) =>
      var Hook(next, now, _) := c.hook.value;
      WriteSlots(later, now).(hook := Some(Hook(next, now, Charged)))
    case MarkFirst(_) =>
      var Hook(next, now, _) := c.hook.value;
      (if order == StartFirst then WriteStart(later, next, now) else WriteTgid(later, next, now))
      .(hook := Some(Hook(next, now, Half)))
    case MarkSecond(_) =>
      var Hook(next, now, _) := c.hook.value;
      (if order == StartFirst then WriteTgid(later, next, now) else WriteStart(later, next, now)).(hook := None)
    case Remove(g, _) => later.(slots := c.slots - {g})
    case ReadSlots(_) => later.(reader := HasSlots(Counted(c.slots, Covered(c))))
    case ReadTgid(_) => later.(reader := HasTgid(c.reader.counted, c.current, c.shown, Until(later)))
    case ReadStart(_) =>
      later.(reader := HasStart(c.reader.counted, c.reader.tgid, c.reader.stint, c.reader.still, c.start))
    case ReadClock(at) =>
      later.(reader := Done(c.reader.counted, c.reader.tgid, c.reader.stint, c.reader.still, c.reader.start, at))
  }

  ghost predicate Interleaving(order: Order, c: Cell, ms: seq<Micro>)
    decreases |ms|
  {
    ms == [] || (Can(c, ms[0]) && Interleaving(order, Do(order, c, ms[0]), ms[1..]))
  }

  ghost function After(order: Order, c: Cell, ms: seq<Micro>): Cell
    requires Interleaving(order, c, ms)
    decreases |ms|
  {
    if ms == [] then c else After(order, Do(order, c, ms[0]), ms[1..])
  }

  /** What `add_inflight` bills once the three reads are done. */
  function Bill(r: Reader): nat
    requires r.Done?
  {
    if r.tgid != 0 && r.start != 0 && r.now > r.start then r.now - r.start else 0
  }

  /** A CPU nobody has switched on yet, and no read in progress. */
  function Fresh(clock: nat): Cell {
    Cell(map[], 0, 0, clock, Stint(0, 0), None, Waiting, [])
  }

  /** The stint ran without a break up to `until`. */
  predicate RanThrough(h: Trace, stint: Stint, until: nat) {
    stint.tgid != 0 ==>
      0 < stint.since <= until && OnCpu(h, 0, stint.tgid, stint.since, until) == until - stint.since
  }

  /** A start time that is the stint's own, or lies after it was last certain to run. */
  predicate FairStart(stint: Stint, still: nat, start: nat) {
    stint.tgid != 0 ==> start == stint.since || still <= start
  }

  /** No counter is ahead of what its process had run by `upTo`. */
  predicate CountedOk(h: Trace, counted: Counted) {
    forall g :: g in counted.slots ==> g != 0 && counted.slots[g] <= OnCpu(h, 0, g, 0, counted.upTo)
  }

  /** The shared words against the switch in progress, or the last one done. */
  predicate WordsOk(c: Cell) {
    && c.current == c.shown.tgid && c.shown.since <= Until(c)
    && (c.current != 0 && (c.hook.None? || c.hook.value.stage != Half || c.hook.value.next.tid == 0) ==>
          c.start == c.shown.since)
    && match c.hook
       case Some(Hook(next, now, stage)) =>
         && 0 < now <= c.clock && Before(c.h, now) && (next.tid == 0 <==> next.tgid == 0)
         && Runs(c.h, 0) == Some(next.tgid)
         && (stage == Half && next.tid != 0 ==> c.start == now)
       case None =>
         c.current != 0 ==> Before(c.h, c.shown.since) && Runs(c.h, 0) == Some(c.current)
  }

  /** The counters read cover the stint then shown, or, during a switch that has charged it, its end. */
  predicate UpToOk(c: Cell, upTo: nat) {
    upTo <= c.shown.since || upTo == Covered(c)
  }

  /** The same, once a stint has been picked up: past its start means up to where it was last certain to run. */
  predicate PickedOk(upTo: nat, stint: Stint, still: nat) {
    upTo <= stint.since || upTo == still
  }

  predicate ReaderOk(c: Cell) {
    match c.reader
    case Waiting => true
    case HasSlots(counted) => CountedOk(c.h, counted) && UpToOk(c, counted.upTo) && counted.upTo <= c.clock
    case HasTgid(counted, tgid, stint, still) =>
      && CountedOk(c.h, counted) && PickedOk(counted.upTo, stint, still) && counted.upTo <= c.clock
      && tgid == stint.tgid && stint.since <= still <= c.clock && RanThrough(c.h, stint, still)
      && FairStart(stint, still, c.start)
      && (c.hook.Some? ==> still <= c.hook.value.now)
    case HasStart(counted, tgid, stint, still, start) =>
      && CountedOk(c.h, counted) && PickedOk(counted.upTo, stint, still) && counted.upTo <= c.clock
      && tgid == stint.tgid && stint.since <= still <= c.clock && RanThrough(c.h, stint, still)
      && FairStart(stint, still, start)
    case Done(counted, tgid, stint, still, start, now) =>
      && CountedOk(c.h, counted) && PickedOk(counted.upTo, stint, still) && counted.upTo <= now
      && tgid == stint.tgid && stint.since <= still <= now <= c.clock && RanThrough(c.h, stint, still)
      && FairStart(stint, still, start)
  }

  predicate TornInv(c: Cell) {
    && Before(c.h, c.clock)
    && WordsOk(c)
    && RanThrough(c.h, c.shown, Until(c))
    && CountedOk(c.h, Counted(c.slots, Covered(c)))
    && ReaderOk(c)
  }

  lemma FreshIsSafe(clock: nat)
    ensures TornInv(Fresh(clock))
  {
  }

  lemma RanThroughAppends(h: Trace, e: Switch, stint: Stint, until: nat)
    requires RanThrough(h, stint, until) && until <= e.at
    ensures RanThrough(h + [e], stint, until)
  {
    if stint.tgid != 0 { SpentAppend(h, e, 0, Some(stint.tgid), stint.since, until); }
  }

  /** While no switch is in progress the stint shown runs on. */
  lemma ShownRuns(c: Cell, t: nat)
    requires TornInv(c) && c.hook.None? && c.clock <= t
    ensures RanThrough(c.h, c.shown, t)
  {
    if c.current != 0 { SpentAfterLast(c.h, 0, Some(c.current), c.shown.since, t); }
  }

  lemma CountedAppends(h: Trace, e: Switch, counted: Counted)
    requires CountedOk(h, counted) && counted.upTo <= e.at
    ensures CountedOk(h + [e], counted)
  {
    forall g | g in counted.slots ensures counted.slots[g] <= OnCpu(h + [e], 0, g, 0, counted.upTo) {
      SpentAppend(h, e, 0, Some(g), 0, counted.upTo);
    }
  }

  lemma EnterKeeps(c: Cell, m: Micro)
    requires TornInv(c) && Can(c, m) && m.Enter?
    ensures TornInv(Do(StartFirst, c, m))
  {
    var e := TrueSwitch(m.next, m.at);
    LatestAppend(c.h, e, 0);
    ShownRuns(c, m.at);
    RanThroughAppends(c.h, e, c.shown, m.at);
    CountedAppends(c.h, e, Counted(c.slots, Covered(c)));
    if !c.reader.Waiting? { CountedAppends(c.h, e, c.reader.counted); }
    if !c.reader.Waiting? && !c.reader.HasSlots? { RanThroughAppends(c.h, e, c.reader.stint, c.reader.still); }
  }

  /** Charging the outgoing stint brings the counters up to the switch, and no further. */
  lemma ChargeCounts(c: Cell, now: nat)
    requires TornInv(c) && InStage(c, Entered) && now == c.hook.value.now
    ensures CountedOk(c.h, Counted(WriteSlots(c, now).slots, now))
  {
    forall g | g in WriteSlots(c, now).slots
      ensures g != 0 && WriteSlots(c, now).slots[g] <= OnCpu(c.h, 0, g, 0, now)
    {
      SpentSplit(c.h, 0, Some(g), 0, c.shown.since, now);
    }
  }

  lemma ChargeKeeps(c: Cell, m: Micro)
    requires TornInv(c) && Can(c, m) && m.Charge?
    ensures TornInv(Do(StartFirst, c, m))
  {
    ChargeCounts(c, c.hook.value.now);
  }

  lemma MarkKeeps(c: Cell, m: Micro)
    requires TornInv(c) && Can(c, m) && (m.MarkFirst? || m.MarkSecond?)
    ensures TornInv(Do(StartFirst, c, m))
  {
    var done := Do(StartFirst, c, m);
    if m.MarkSecond? && done.current != 0 {
      SpentAfterLast(done.h, 0, Some(done.current), done.shown.since, m.at);
    }
  }

  lemma ReadKeeps(c: Cell, m: Micro)
    requires TornInv(c) && Can(c, m) && (m.Remove? || m.ReadSlots? || m.ReadTgid? || m.ReadStart? || m.ReadClock?)
    ensures TornInv(Do(StartFirst, c, m))
  {
    if c.hook.None? { ShownRuns(c, m.at); }
  }

  lemma {:induction false} InterleavingKeeps(c: Cell, ms: seq<Micro>)
    requires TornInv(c) && Interleaving(StartFirst, c, ms)
    ensures TornInv(After(StartFirst, c, ms))
    decreases |ms|
  {
    if ms != [] {
      match ms[0] {
        case Enter(_, _) => EnterKeeps(c, ms[0]);
        case Charge(_) => ChargeKeeps(c, ms[0]);
        case MarkFirst(_) => MarkKeeps(c, ms[0]);
        case MarkSecond(_) => MarkKeeps(c, ms[0]);
        case _ => ReadKeeps(c, ms[0]);
      }
      InterleavingKeeps(Do(StartFirst, c, ms[0]), ms[1..]);
    }
  }

  /**
   From a CPU nobody has switched on, for every interleaving of the reads with any
   number of switches: the start time paired with a process id is never older than
   the schedule-in of the stint that showed the id. It is that stint's own, or that
   of a switch that was in progress when the id was read or began later. So the bill
   passes the time the process truly ran since that schedule-in by at most the time
   since the id was read, or since the switch then in progress began.
  */
  lemma {:induction false} IdleIsNeverBilled(clock: nat, ms: seq<Micro>)
    requires Interleaving(StartFirst, Fresh(clock), ms)
    ensures
      var c := After(StartFirst, Fresh(clock), ms);
      var r := c.reader;
      r.Done? && r.tgid != 0 ==>
        && r.stint.tgid == r.tgid && 0 < r.stint.since <= r.still <= r.now
        && r.stint.since <= r.start && (r.start == r.stint.since || r.still <= r.start)
        && Bill(r) <= OnCpu(c.h, 0, r.tgid, r.stint.since, r.now) + (r.now - r.still)
        && (r.start != r.stint.since ==> Bill(r) <= r.now - r.still)
  {
    FreshIsSafe(clock);
    InterleavingKeeps(Fresh(clock), ms);
    var c := After(StartFirst, Fresh(clock), ms);
    var r := c.reader;
    if r.Done? && r.tgid != 0 {
      SpentSplit(c.h, 0, Some(r.tgid), r.stint.since, r.still, r.now);
    }
  }

  // ---- the whole reading ----

  /** What the tick makes of this CPU for `g`: the counter it read, and the bill when the id was `g`'s. */
  function ReadFor(r: Reader, g: Pid): nat
    requires r.Done?
  {
    SlotOf(r.counted.slots, g) + if r.tgid == g then Bill(r) else 0
  }

  /**
   Counter and id were read during one switch, after it had charged the outgoing
   process and before it put the incoming one's id in place.
  */
  predicate Caught(r: Reader)
    requires r.Done?
  {
    r.tgid != 0 && r.counted.upTo > r.stint.since
  }

  /**
   How far the reading of `g` may be ahead: by the reader's own window, and, caught
   in mid-switch with the old start time, by the stint that was counted and billed.
  */
  function Slack(r: Reader, g: Pid): nat
    requires r.Done?
  {
    if r.tgid != g || g == 0 then 0
    else SaturatingSub(r.now, r.still)
         + if Caught(r) && r.start == r.stint.since then SaturatingSub(r.still, r.stint.since) else 0
  }

  lemma ReadingIsBounded(c: Cell, g: Pid)
    requires TornInv(c) && c.reader.Done? && g != 0
    ensures ReadFor(c.reader, g) <= OnCpu(c.h, 0, g, 0, c.reader.now) + Slack(c.reader, g)
  {
    var r := c.reader;
    var upTo := r.counted.upTo;
    SpentSplit(c.h, 0, Some(g), 0, upTo, r.now);
    if r.tgid == g {
      SpentSplit(c.h, 0, Some(g), 0, r.stint.since, r.still);
      SpentSplit(c.h, 0, Some(g), 0, r.still, r.now);
      if upTo <= r.stint.since { SpentSplit(c.h, 0, Some(g), 0, upTo, r.stint.since); }
    }
  }

  // ---- every CPU ----

  /** The CPUs after their interleavings; they share no word, so each has its own. */
  ghost function Cells(clock: nat, runs: seq<seq<Micro>>): (cells: seq<Cell>)
    requires forall i :: 0 <= i < |runs| ==> Interleaving(StartFirst, Fresh(clock), runs[i])
    ensures |cells| == |runs|
  {
    seq(|runs|, i requires 0 <= i < |runs| => After(StartFirst, Fresh(clock), runs[i]))
  }

  /** Every CPU has been read, and the clock once for all of them. */
  predicate AllRead(cells: seq<Cell>, now: nat) {
    forall i :: 0 <= i < |cells| ==> cells[i].reader.Done? && cells[i].reader.now == now
  }

  function TickReads(cells: seq<Cell>, now: nat, g: Pid): nat
    requires AllRead(cells, now)
  {
    if cells == [] then 0
    else TickReads(cells[..|cells| - 1], now, g) + ReadFor(cells[|cells| - 1].reader, g)
  }

  function TickRan(cells: seq<Cell>, now: nat, g: Pid): nat {
    if cells == [] then 0
    else TickRan(cells[..|cells| - 1], now, g) + OnCpu(cells[|cells| - 1].h, 0, g, 0, now)
  }

  function TickSlack(cells: seq<Cell>, now: nat, g: Pid): nat
    requires AllRead(cells, now)
  {
    if cells == [] then 0
    else TickSlack(cells[..|cells| - 1], now, g) + Slack(cells[|cells| - 1].reader, g)
  }

  lemma {:induction false} SumIsBounded(cells: seq<Cell>, now: nat, g: Pid)
    requires AllRead(cells, now) && g != 0
    requires forall i :: 0 <= i < |cells| ==> TornInv(cells[i])
    ensures TickReads(cells, now, g) <= TickRan(cells, now, g) + TickSlack(cells, now, g)
  {
    if cells != [] {
      SumIsBounded(cells[..|cells| - 1], now, g);
      ReadingIsBounded(cells[|cells| - 1], g);
    }
  }

  /**
   Every read of a tick at its own instant, on any number of CPUs, against any
   switches and removals: the reading of a process passes its true on-CPU time by at
   most the summed slack of the CPUs that showed its id.
  */
  lemma {:induction false} TickIsBounded(clock: nat, runs: seq<seq<Micro>>, now: nat, g: Pid)
    requires forall i :: 0 <= i < |runs| ==> Interleaving(StartFirst, Fresh(clock), runs[i])
    requires AllRead(Cells(clock, runs), now) && g != 0
    ensures TickReads(Cells(clock, runs), now, g)
         <= TickRan(Cells(clock, runs), now, g) + TickSlack(Cells(clock, runs), now, g)
  {
    forall i | 0 <= i < |runs| ensures TornInv(Cells(clock, runs)[i]) {
      FreshIsSafe(clock);
      InterleavingKeeps(Fresh(clock), runs[i]);
    }
    SumIsBounded(Cells(clock, runs), now, g);
  }

  // ---- the other order ----

  lemma {:induction false} StepsAdd(order: Order, c: Cell, m: Micro, rest: seq<Micro>)
    requires Can(c, m) && Interleaving(order, Do(order, c, m), rest)
    ensures Interleaving(order, c, [m] + rest)
    ensures After(order, c, [m] + rest) == After(order, Do(order, c, m), rest)
  {
    assert ([m] + rest)[1..] == rest;
  }

  /** A switch from start to end, at one instant. */
  function Whole(next: Task, at: nat): seq<Micro> {
    [Enter(next, at), Charge(at), MarkFirst(at), MarkSecond(at)]
  }

  /** A whole switch leads from `c` to `d`, and what can follow `d` can follow the switch. */
  lemma {:induction false} WholeAdds(order: Order, c: Cell, next: Task, at: nat, d: Cell, rest: seq<Micro>)
    requires Can(c, Enter(next, at)) && Interleaving(order, d, rest)
    requires
      var charged := Do(order, Do(order, c, Enter(next, at)), Charge(at));
      Do(order, Do(order, charged, MarkFirst(at)), MarkSecond(at)) == d
    ensures Interleaving(order, c, Whole(next, at) + rest)
    ensures After(order, c, Whole(next, at) + rest) == After(order, d, rest)
  {
    var c1 := Do(order, c, Enter(next, at));
    var c2 := Do(order, c1, Charge(at));
    var c3 := Do(order, c2, MarkFirst(at));
    StepsAdd(order, c3, MarkSecond(at), rest);
    StepsAdd(order, c2, MarkFirst(at), [MarkSecond(at)] + rest);
    StepsAdd(order, c1, Charge(at), [MarkFirst(at)] + ([MarkSecond(at)] + rest));
    StepsAdd(order, c, Enter(next, at), [Charge(at)] + ([MarkFirst(at)] + ([MarkSecond(at)] + rest)));
    assert [Enter(next, at)] + ([Charge(at)] + ([MarkFirst(at)] + ([MarkSecond(at)] + rest))) == Whole(next, at) + rest;
  }

  /** Process 1 came in at 10. */
  function Running(): Cell {
    Cell(map[], 10, 1, 10, Stint(1, 10), None, Waiting, [TrueSwitch(Task(1, 1), 10)])
  }

  /** It went out at 20, and the CPU idles. */
  function Idle(): Cell {
    Cell(map[1 := 10], 10, 0, 20, Stint(0, 20), None, Waiting,
         [TrueSwitch(Task(1, 1), 10), TrueSwitch(Task(0, 0), 20)])
  }

  /** At 1000 process 2 comes in, and the collector reads between the two writes. */
  function WakeAndRead(): seq<Micro> {
    [Enter(Task(2, 2), 1000), Charge(1000), MarkFirst(1000),
     ReadSlots(1000), ReadTgid(1000), ReadStart(1000), ReadClock(1001)]
  }

  lemma Wakes()
    ensures Interleaving(TgidFirst, Idle(), WakeAndRead())
    ensures
      var r := After(TgidFirst, Idle(), WakeAndRead()).reader;
      r.Done? && r.tgid == 2 && r.stint == Stint(2, 1000) && r.start == 10 && r.now == 1001
  {
    var ms := WakeAndRead();
    var c1 := Do(TgidFirst, Idle(), ms[0]);
    var c2 := Do(TgidFirst, c1, ms[1]);
    var c3 := Do(TgidFirst, c2, ms[2]);
    var c4 := Do(TgidFirst, c3, ms[3]);
    var c5 := Do(TgidFirst, c4, ms[4]);
    var c6 := Do(TgidFirst, c5, ms[5]);
    StepsAdd(TgidFirst, c6, ms[6], []);
    StepsAdd(TgidFirst, c5, ms[5], ms[6..]);
    StepsAdd(TgidFirst, c4, ms[4], ms[5..]);
    StepsAdd(TgidFirst, c3, ms[3], ms[4..]);
    StepsAdd(TgidFirst, c2, ms[2], ms[3..]);
    StepsAdd(TgidFirst, c1, ms[1], ms[2..]);
    StepsAdd(TgidFirst, Idle(), ms[0], ms[1..]);
  }

  lemma IdlesAndWakes()
    ensures Interleaving(TgidFirst, Running(), Whole(Task(0, 0), 20) + WakeAndRead())
    ensures
      var r := After(TgidFirst, Running(), Whole(Task(0, 0), 20) + WakeAndRead()).reader;
      r.Done? && r.tgid == 2 && r.stint == Stint(2, 1000) && r.start == 10 && r.now == 1001
  {
    Wakes();
    WholeAdds(TgidFirst, Running(), Task(0, 0), 20, Idle(), WakeAndRead());
  }

  /** With the writes the other way round, the waking process is billed the whole idle gap. */
  lemma TgidFirstBillsTheIdleGap()
    ensures
      var c, ms := Fresh(0), Whole(Task(1, 1), 10) + (Whole(Task(0, 0), 20) + WakeAndRead());
      && Interleaving(TgidFirst, c, ms)
      && var r := After(TgidFirst, c, ms).reader;
         r.Done? && r.tgid == 2 && r.stint == Stint(2, 1000) && Bill(r) == 991 && r.now - r.stint.since == 1
  {
    IdlesAndWakes();
    WholeAdds(TgidFirst, Fresh(0), Task(1, 1), 10, Running(), Whole(Task(0, 0), 20) + WakeAndRead());
  }

  // ---- caught in mid-switch ----

  /** Process 1 goes out at `end`; counter and id are read after the charge and before the marks. */
  function ReadInSwitch(end: nat): seq<Micro> {
    [Enter(Task(0, 0), end), Charge(end), ReadSlots(end), ReadTgid(end), ReadStart(end), ReadClock(end)]
  }

  lemma ReadsTwice(end: nat)
    requires 10 < end <= U64_MAX
    ensures Interleaving(StartFirst, Running(), ReadInSwitch(end))
    ensures
      var slots := map[1 := end - 10];
      After(StartFirst, Running(), ReadInSwitch(end)).reader
      == Done(Counted(slots, end), 1, Stint(1, 10), end, 10, end)
  {
    var ms := ReadInSwitch(end);
    var c1 := Do(StartFirst, Running(), ms[0]);
    var c2 := Do(StartFirst, c1, ms[1]);
    var c3 := Do(StartFirst, c2, ms[2]);
    var c4 := Do(StartFirst, c3, ms[3]);
    var c5 := Do(StartFirst, c4, ms[4]);
    StepsAdd(StartFirst, c5, ms[5], []);
    StepsAdd(StartFirst, c4, ms[4], ms[5..]);
    StepsAdd(StartFirst, c3, ms[3], ms[4..]);
    StepsAdd(StartFirst, c2, ms[2], ms[3..]);
    StepsAdd(StartFirst, c1, ms[1], ms[2..]);
    StepsAdd(StartFirst, Running(), ms[0], ms[1..]);
  }

  /** However long it ran, it is then read at twice that: the slack is not an artefact of the bound. */
  lemma CaughtCountsTwice(end: nat)
    requires 10 < end <= U64_MAX
    ensures
      var c, ms := Fresh(0), Whole(Task(1, 1), 10) + ReadInSwitch(end);
      && Interleaving(StartFirst, c, ms)
      && var r := After(StartFirst, c, ms).reader;
         r.Done? && Caught(r) && ReadFor(r, 1) == 2 * (end - 10) && Slack(r, 1) == end - 10
  {
    ReadsTwice(end);
    WholeAdds(StartFirst, Fresh(0), Task(1, 1), 10, Running(), ReadInSwitch(end));
  }

  // ---- the hook itself ----

  /** The charge is the hook's `charge_out` on this CPU's slots. */
  lemma ChargeIsChargeOut(m: Maps, cpu: nat, c: Cell, prev: Task, now: nat, g: Pid)
    requires m.WellFormed() && cpu < m.Cpus() && now <= U64_MAX
    requires c.start == m.startTime[cpu] && forall g :: SlotOf(c.slots, g) == Slot(m.cpuNs, cpu, g)
    requires c.start != 0 ==> prev.tgid == c.current && (prev.tid == 0 <==> prev.tgid == 0)
    ensures SlotOf(WriteSlots(c, now).slots, g) == Slot(m.ChargeOut(cpu, prev.tid, prev.tgid, now).cpuNs, cpu, g)
  {
    assert SlotOf(c.slots, g) == Slot(m.cpuNs, cpu, g);
    assert SlotOf(c.slots, c.current) == Slot(m.cpuNs, cpu, c.current);
  }

  /** The charge and the two writes, uninterrupted, are the hook's `charge_out` and `mark_in` on this CPU. */
  lemma ThreeWritesAreTheHook(m: Maps, cpu: nat, c: Cell, prev: Task, first: nat, second: nat, third: nat)
    requires m.WellFormed() && cpu < m.Cpus()
    requires c.start == m.startTime[cpu] && c.current == m.currentTgid[cpu]
    requires forall g :: SlotOf(c.slots, g) == Slot(m.cpuNs, cpu, g)
    requires Can(c, Charge(first)) && first <= second <= third && c.hook.value.now <= U64_MAX
    requires c.start != 0 ==> prev.tgid == c.current && (prev.tid == 0 <==> prev.tgid == 0)
    ensures
      var Hook(next, now, _) := c.hook.value;
      var charged := Do(StartFirst, c, Charge(first));
      var done := Do(StartFirst, Do(StartFirst, charged, MarkFirst(second)), MarkSecond(third));
      var marked := m.ChargeOut(cpu, prev.tid, prev.tgid, now).MarkIn(cpu, next.tid, next.tgid, now);
      && done.start == marked.startTime[cpu] && done.current == marked.currentTgid[cpu]
      && forall g :: SlotOf(done.slots, g) == Slot(marked.cpuNs, cpu, g)
  {
    var now := c.hook.value.now;
    forall g ensures SlotOf(WriteSlots(c, now).slots, g)
                  == Slot(m.ChargeOut(cpu, prev.tid, prev.tgid, now).cpuNs, cpu, g)
    {
      ChargeIsChargeOut(m, cpu, c, prev, now, g);
    }
    assert Do(StartFirst, c, Charge(first)).slots == WriteSlots(c, now).slots;
  }
}
