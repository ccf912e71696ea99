/**
 The reference the accounting is measured against: the list of context switches
 that happened, and what it says about who was on which CPU at each nanosecond
 and who slept from when to when. Nothing here mentions a map or a stopwatch.
*/
module History {
  import opened Prelude

  datatype Task = Task(tid: Pid, tgid: Pid)

  /** One context switch. `dropped` says that the sleep stamp of `prev` found the stamp map full. */
  datatype Switch = Switch(cpu: nat, prev: Task, next: Task, state: bv32, at: nat, dropped: bool)

  type Trace = seq<Switch>

  /** Uninterruptible sleep, not counting idle kernel threads (TASK_NOLOAD). */
  predicate DSleep(state: bv32) {
    state & (0x2 | 0x400) == 0x2
  }

  // ---- who was on a CPU ----

  /** The last switch on `c` at or before time `t`. */
  function LastSwitch(h: Trace, c: nat, t: nat): Option<Switch> {
    if h == [] then None
    else
      var e := h[|h| - 1];
      if e.cpu == c && e.at <= t then Some(e) else LastSwitch(h[..|h| - 1], c, t)
  }

  /** The process on CPU `c` during nanosecond `t`; unknown before the first switch seen there. */
  function Occupant(h: Trace, c: nat, t: nat): Option<Pid> {
    match LastSwitch(h, c, t)
    case None => None
    case Some(e) => Some(e.next.tgid)
  }

  /** The process on `c` now. */
  function Runs(h: Trace, c: nat): Option<Pid> {
    match Latest(h, c)
    case None => None
    case Some(e) => Some(e.next.tgid)
  }

  /** Nanoseconds of [a, b) during which CPU `c` ran `who` (`None`: an unknown thread). */
  function Spent(h: Trace, c: nat, who: Option<Pid>, a: nat, b: nat): nat
    requires a <= b
  {
    if a == b then 0
    else Spent(h, c, who, a, b - 1) + if Occupant(h, c, b - 1) == who then 1 else 0
  }

  function OnCpu(h: Trace, c: nat, g: Pid, a: nat, b: nat): nat
    requires a <= b
  {
    Spent(h, c, Some(g), a, b)
  }

  /** The true on-CPU time of process `g` over [a, b) on the first `n` CPUs. */
  function TrueCpu(h: Trace, n: nat, g: Pid, a: nat, b: nat): nat
    requires a <= b
  {
    if n == 0 then 0 else TrueCpu(h, n - 1, g, a, b) + OnCpu(h, n - 1, g, a, b)
  }

  /** Every switch is no later than `t`. */
  predicate Before(h: Trace, t: nat) {
    forall i :: 0 <= i < |h| ==> h[i].at <= t
  }

  lemma {:induction false} SpentSplit(h: Trace, c: nat, who: Option<Pid>, a: nat, b: nat, d: nat)
    requires a <= b <= d
    ensures Spent(h, c, who, a, d) == Spent(h, c, who, a, b) + Spent(h, c, who, b, d)
  {
    if b < d {
      SpentSplit(h, c, who, a, b, d - 1);
    }
  }

  /** A later switch does not rewrite the past. */
  lemma {:induction false} SpentAppend(h: Trace, e: Switch, c: nat, who: Option<Pid>, a: nat, b: nat)
    requires a <= b <= e.at
    ensures Spent(h + [e], c, who, a, b) == Spent(h, c, who, a, b)
  {
    if a < b {
      assert (h + [e])[..|h|] == h;
      SpentAppend(h, e, c, who, a, b - 1);
    }
  }

  /** The last switch seen on `c` at all: who runs there now. */
  function Latest(h: Trace, c: nat): Option<Switch> {
    if h == [] then None
    else if h[|h| - 1].cpu == c then Some(h[|h| - 1])
    else Latest(h[..|h| - 1], c)
  }

  lemma {:induction false} LatestIsLast(h: Trace, c: nat, t: nat)
    requires Before(h, t)
    ensures LastSwitch(h, c, t) == Latest(h, c)
  {
    if h != [] {
      LatestIsLast(h[..|h| - 1], c, t);
    }
  }

  lemma {:induction false} LatestAppend(h: Trace, e: Switch, c: nat)
    ensures Latest(h + [e], c) == if e.cpu == c then Some(e) else Latest(h, c)
  {
    assert (h + [e])[..|h|] == h;
  }

  /** After the last switch the occupant stays put, so time accrues to it alone. */
  lemma {:induction false} SpentAfterLast(h: Trace, c: nat, who: Option<Pid>, a: nat, b: nat)
    requires Before(h, a) && a <= b
    ensures Spent(h, c, who, a, b) == if Runs(h, c) == who then b - a else 0
  {
    if a < b {
      LatestIsLast(h, c, b - 1);
      SpentAfterLast(h, c, who, a, b - 1);
    }
  }

  lemma {:induction false} SpentBound(h: Trace, c: nat, who: Option<Pid>, a: nat, b: nat)
    requires a <= b
    ensures Spent(h, c, who, a, b) <= b - a
  {
    if a < b {
      SpentBound(h, c, who, a, b - 1);
    }
  }

  lemma {:induction false} TrueCpuSplit(h: Trace, n: nat, g: Pid, a: nat, b: nat, d: nat)
    requires a <= b <= d
    ensures TrueCpu(h, n, g, a, d) == TrueCpu(h, n, g, a, b) + TrueCpu(h, n, g, b, d)
  {
    if n > 0 {
      TrueCpuSplit(h, n - 1, g, a, b, d);
      SpentSplit(h, n - 1, Some(g), a, b, d);
    }
  }

  lemma {:induction false} TrueCpuAppend(h: Trace, e: Switch, n: nat, g: Pid, a: nat, b: nat)
    requires a <= b <= e.at
    ensures TrueCpu(h + [e], n, g, a, b) == TrueCpu(h, n, g, a, b)
  {
    if n > 0 {
      TrueCpuAppend(h, e, n - 1, g, a, b);
      SpentAppend(h, e, n - 1, Some(g), a, b);
    }
  }

  /**
   A CPU runs one thing at a time: the time of any set of processes that covers
   its occupants, plus its unknown time, is exactly the interval.
  */
  lemma {:induction false} OneOccupantAtATime(h: Trace, c: nat, who: set<Pid>, a: nat, b: nat)
    requires a <= b
    ensures SumSet(who, g => OnCpu(h, c, g, a, b)) + Spent(h, c, None, a, b) <= b - a
    ensures (forall t :: a <= t < b ==> Occupant(h, c, t) == None || Occupant(h, c, t).value in who)
            ==> SumSet(who, g => OnCpu(h, c, g, a, b)) + Spent(h, c, None, a, b) == b - a
  {
    if a == b {
      SumSetZero(who, g => OnCpu(h, c, g, a, b));
    } else {
      var now: Pid -> nat := g => if Occupant(h, c, b - 1) == Some(g) then 1 else 0;
      SumSetAdd(who, g => OnCpu(h, c, g, a, b - 1), now, g => OnCpu(h, c, g, a, b));
      OneOccupantAtATime(h, c, who, a, b - 1);
      match Occupant(h, c, b - 1) {
        case None => SumSetZero(who, now);
        case Some(x) =>
          if x in who { SumSetIndicator(who, now, x); } else { SumSetZero(who, now); }
      }
    }
  }

  // ---- who slept, and for how long ----

  /** The last thing that happened to a thread: nothing yet, came onto a CPU, or left one. */
  datatype Edge = Never | CameIn | WentOut(state: bv32, at: nat, dropped: bool)

  function LastEdge(h: Trace, tid: Pid): Edge {
    if h == [] then Never
    else
      var e := h[|h| - 1];
      if e.next.tid == tid then CameIn
      else if e.prev.tid == tid then WentOut(e.state, e.at, e.dropped)
      else LastEdge(h[..|h| - 1], tid)
  }

  predicate Asleep(e: Edge) {
    e.WentOut? && DSleep(e.state)
  }

  /** The D-sleep the switch `e`, happening after `h`, completes for its incoming thread. */
  function Completed(h: Trace, e: Switch, droppedOnly: bool): nat {
    var edge := LastEdge(h, e.next.tid);
    if e.next.tid != 0 && Asleep(edge) && edge.at <= e.at && (droppedOnly ==> edge.dropped) then e.at - edge.at else 0
  }

  /** D-sleep completed so far by the threads of `g`: all of it, or only the intervals whose stamp was dropped. */
  function Slept(h: Trace, g: Pid, droppedOnly: bool): nat {
    if h == [] then 0
    else
      var past, e := h[..|h| - 1], h[|h| - 1];
      Slept(past, g, droppedOnly) + if e.next.tgid == g then Completed(past, e, droppedOnly) else 0
  }

  lemma {:induction false} LastEdgeAppend(h: Trace, e: Switch, tid: Pid)
    ensures LastEdge(h + [e], tid)
         == if e.next.tid == tid then CameIn
            else if e.prev.tid == tid then WentOut(e.state, e.at, e.dropped)
            else LastEdge(h, tid)
  {
    assert (h + [e])[..|h|] == h;
  }

  lemma {:induction false} SleptAppend(h: Trace, e: Switch, g: Pid, droppedOnly: bool)
    ensures Slept(h + [e], g, droppedOnly)
         == Slept(h, g, droppedOnly) + if e.next.tgid == g then Completed(h, e, droppedOnly) else 0
  {
    assert (h + [e])[..|h|] == h;
  }

  /** No process has slept longer than the switches so far times the clock. */
  lemma {:induction false} SleptAtMost(h: Trace, g: Pid, droppedOnly: bool, t: nat)
    requires Before(h, t)
    ensures Slept(h, g, droppedOnly) <= |h| * t
  {
    if h != [] {
      var past := h[..|h| - 1];
      SleptAtMost(past, g, droppedOnly, t);
      assert Completed(past, h[|h| - 1], droppedOnly) <= t;
      assert |h| * t == |past| * t + t;
    }
  }
}
