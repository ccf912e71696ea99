/**
 What the CPU counters are worth. A process's counter plus the slices still in
 flight moves in step with its true on-CPU time; removing an entry can only lower
 it. Everything a tick reports follows from that.
*/
module CpuAccounting {
  import opened Prelude
  import opened History
  import opened Kernel
  import opened System

  /** The slice CPU `c` has in flight for `g` at time `t`, as user space bills it. */
  function Flight(m: Maps, c: nat, g: Pid, t: nat): nat
    requires m.WellFormed() && c < m.Cpus()
  {
    if m.currentTgid[c] == g && g != 0 && m.startTime[c] != 0 && t > m.startTime[c]
    then t - m.startTime[c] else 0
  }

  /** What CPU `c` holds for `g`: its slot and its slice in flight. */
  function Held(m: Maps, c: nat, g: Pid, t: nat): nat
    requires m.WellFormed() && c < m.Cpus()
  {
    Slot(m.cpuNs, c, g) + Flight(m, c, g, t)
  }

  /** `g`'s reading at `t` over the first `n` CPUs, and over all of them. */
  function ReadingOn(m: Maps, n: nat, g: Pid, t: nat): nat
    requires m.WellFormed() && n <= m.Cpus()
  {
    if n == 0 then 0 else ReadingOn(m, n - 1, g, t) + Held(m, n - 1, g, t)
  }

  function Reading(m: Maps, g: Pid, t: nat): nat
    requires m.WellFormed()
  {
    ReadingOn(m, m.Cpus(), g, t)
  }

  function FlightsOn(m: Maps, n: nat, g: Pid, t: nat): nat
    requires m.WellFormed() && n <= m.Cpus()
  {
    if n == 0 then 0 else FlightsOn(m, n - 1, g, t) + Flight(m, n - 1, g, t)
  }

  function Flights(m: Maps, g: Pid, t: nat): nat
    requires m.WellFormed()
  {
    FlightsOn(m, m.Cpus(), g, t)
  }

  /** The stopwatch of one CPU agrees with the history. An idle CPU keeps a stale start. */
  predicate WatchOk(s: System, c: nat)
    requires s.maps.WellFormed() && c < s.maps.Cpus()
  {
    match Latest(s.history, c)
    case None => s.maps.startTime[c] == 0 && s.maps.currentTgid[c] == 0
    case Some(e) =>
      && s.maps.currentTgid[c] == e.next.tgid
      && s.maps.startTime[c] <= s.clock
      && (e.next.tid == 0 <==> e.next.tgid == 0)
      && (e.next.tid != 0 ==> s.maps.startTime[c] == e.at > 0)
  }

  /** No CPU holds more for a process than it ran it. */
  predicate HoldsNoMore(s: System, c: nat, g: Pid)
    requires s.maps.WellFormed() && c < s.maps.Cpus()
  {
    Held(s.maps, c, g, s.clock) <= OnCpu(s.history, c, g, 0, s.clock)
  }

  ghost predicate CpuInv(s: System) {
    && s.maps.WellFormed()
    && s.clock <= U64_MAX
    && Before(s.history, s.clock)
    && 0 !in s.maps.cpuNs
    && (forall c :: 0 <= c < s.maps.Cpus() ==> WatchOk(s, c))
    && (forall c, g :: 0 <= c < s.maps.Cpus() && g != 0 ==> HoldsNoMore(s, c, g))
  }

  /** Whether `e` takes the counter of `g` away. */
  predicate Removes(s: System, e: Event, g: Pid) {
    || e == EvictCpu(e.at, g)
    || (e.Reap? && s.maps.exits != [] && s.maps.exits[0] == g)
  }

  // ---- one event ----

  /** Letting time pass. */
  lemma Wait(s: System, t: nat, c: nat, g: Pid)
    requires CpuInv(s) && s.clock <= t && c < s.maps.Cpus() && g != 0
    ensures Held(s.maps, c, g, t) == Held(s.maps, c, g, s.clock) + OnCpu(s.history, c, g, s.clock, t)
    ensures Held(s.maps, c, g, t) <= OnCpu(s.history, c, g, 0, t) <= t
  {
    assert WatchOk(s, c) && HoldsNoMore(s, c, g);
    SpentAfterLast(s.history, c, Some(g), s.clock, t);
    SpentSplit(s.history, c, Some(g), 0, s.clock, t);
    SpentBound(s.history, c, Some(g), 0, t);
  }

  /** The saturating subtraction and addition of a switch do neither. */
  lemma ChargeIsExact(s: System, e: Event)
    requires CpuInv(s) && Enabled(s, e) && e.Sched? && e.prev.tid != 0 && s.maps.startTime[e.cpu] != 0
    ensures s.maps.startTime[e.cpu] <= e.at && s.maps.currentTgid[e.cpu] == e.prev.tgid != 0
    ensures Slot(s.maps.cpuNs, e.cpu, e.prev.tgid) + (e.at - s.maps.startTime[e.cpu]) <= U64_MAX
  {
    assert WatchOk(s, e.cpu);
    Wait(s, e.at, e.cpu, e.prev.tgid);
  }

  /** At the instant of a switch, time moves from flight to slot and nothing is gained or lost. */
  lemma SwitchKeepsHeld(s: System, e: Event, c: nat, g: Pid)
    requires CpuInv(s) && Enabled(s, e) && e.Sched? && c < s.maps.Cpus() && g != 0
    ensures Held(NewMaps(s, e), c, g, e.at) == Held(s.maps, c, g, e.at)
  {
    assert WatchOk(s, e.cpu) && WatchOk(s, c);
    var charged := s.maps.ChargeOut(e.cpu, e.prev.tid, e.prev.tgid, e.at);
    if e.prev.tid != 0 && s.maps.startTime[e.cpu] != 0 {
      ChargeIsExact(s, e);
      AddSlotEffect(s.maps.cpuNs, s.maps.Cpus(), e.cpu, e.prev.tgid, e.at - s.maps.startTime[e.cpu], c, g);
    }
    assert NewMaps(s, e).cpuNs == charged.cpuNs;
  }

  /** The history only grows: what a CPU had run by then stays, and what it runs until `e` is its occupant's. */
  lemma StepRan(s: System, e: Event, c: nat, g: Pid)
    requires CpuInv(s) && Enabled(s, e) && c < s.maps.Cpus() && g != 0
    ensures
      var h := Apply(s, e).history;
      && OnCpu(h, c, g, s.clock, e.at) == OnCpu(s.history, c, g, s.clock, e.at)
      && OnCpu(h, c, g, 0, e.at) == OnCpu(s.history, c, g, 0, s.clock) + OnCpu(h, c, g, s.clock, e.at)
  {
    if e.Sched? {
      var rec := Record(s.maps, e);
      SpentAppend(s.history, rec, c, Some(g), s.clock, e.at);
      SpentAppend(s.history, rec, c, Some(g), 0, s.clock);
    }
    SpentSplit(Apply(s, e).history, c, Some(g), 0, s.clock, e.at);
  }

  /** At the instant of any event, what a CPU holds is kept, or cut to the slice in flight. */
  lemma InstantHeld(s: System, e: Event, c: nat, g: Pid)
    requires CpuInv(s) && Enabled(s, e) && c < s.maps.Cpus() && g != 0
    ensures
      var m := Apply(s, e).maps;
      && m.Cpus() == s.maps.Cpus()
      && Held(m, c, g, e.at) == if Removes(s, e, g) then Flight(s.maps, c, g, e.at) else Held(s.maps, c, g, e.at)
  {
    if e.Sched? { SwitchKeepsHeld(s, e, c, g); }
  }

  /** The effect of any event on what a CPU holds. */
  lemma StepHeld(s: System, e: Event, c: nat, g: Pid)
    requires CpuInv(s) && Enabled(s, e) && c < s.maps.Cpus() && g != 0
    ensures
      var s' := Apply(s, e);
      var ran := OnCpu(s'.history, c, g, s.clock, s'.clock);
      && s'.maps.Cpus() == s.maps.Cpus()
      && (!Removes(s, e, g) ==> Held(s'.maps, c, g, s'.clock) == Held(s.maps, c, g, s.clock) + ran)
      && (Removes(s, e, g) ==>
            Held(s'.maps, c, g, s'.clock) == Flight(s.maps, c, g, s'.clock) == Flight(s.maps, c, g, s.clock) + ran)
      && OnCpu(s'.history, c, g, 0, s'.clock) == OnCpu(s.history, c, g, 0, s.clock) + ran
  {
    Wait(s, e.at, c, g);
    InstantHeld(s, e, c, g);
    StepRan(s, e, c, g);
  }

  lemma StepCpuInv(s: System, e: Event)
    requires CpuInv(s) && Enabled(s, e)
    ensures CpuInv(Apply(s, e))
  {
    var s' := Apply(s, e);
    forall c, g | 0 <= c < s.maps.Cpus() && g != 0
      ensures HoldsNoMore(s', c, g)
    {
      assert HoldsNoMore(s, c, g);
      StepHeld(s, e, c, g);
    }
    forall c | 0 <= c < s.maps.Cpus()
      ensures WatchOk(s', c)
    {
      assert WatchOk(s, c);
      if e.Sched? {
        LatestAppend(s.history, Record(s.maps, e), c);
      }
    }
    if e.Sched? {
      assert WatchOk(s, e.cpu);
    }
  }

  lemma {:induction false} StepReading(s: System, e: Event, n: nat, g: Pid)
    requires CpuInv(s) && Enabled(s, e) && n <= s.maps.Cpus() && g != 0
    ensures
      var s' := Apply(s, e);
      var ran := TrueCpu(s'.history, n, g, s.clock, s'.clock);
      && n <= s'.maps.Cpus()
      && (!Removes(s, e, g) ==> ReadingOn(s'.maps, n, g, s'.clock) == ReadingOn(s.maps, n, g, s.clock) + ran)
      && (Removes(s, e, g) ==>
            ReadingOn(s'.maps, n, g, s'.clock) == FlightsOn(s.maps, n, g, s.clock) + ran
            <= ReadingOn(s.maps, n, g, s.clock) + ran)
  {
    if n > 0 {
      StepReading(s, e, n - 1, g);
      StepHeld(s, e, n - 1, g);
    } else {
      StepHeldCpus(s, e);
    }
  }

  lemma StepHeldCpus(s: System, e: Event)
    requires CpuInv(s) && Enabled(s, e)
    ensures Apply(s, e).maps.Cpus() == s.maps.Cpus()
  {
  }

  // ---- whole runs ----

  lemma InitCpuInv(s: System)
    requires Init(s)
    ensures CpuInv(s)
    ensures forall g :: Reading(s.maps, g, s.clock) == 0
    ensures forall g :: g != 0 ==> TrueCpu(s.history, s.maps.Cpus(), g, 0, s.clock) == 0
  {
    forall g ensures Reading(s.maps, g, s.clock) == 0 { NothingRead(s, s.maps.Cpus(), g); }
    forall g | g != 0 ensures TrueCpu(s.history, s.maps.Cpus(), g, 0, s.clock) == 0 { NothingRan(s, s.maps.Cpus(), g); }
  }

  lemma {:induction false} NothingRead(s: System, n: nat, g: Pid)
    requires Init(s) && n <= s.maps.Cpus()
    ensures ReadingOn(s.maps, n, g, s.clock) == 0
  {
    if n > 0 { NothingRead(s, n - 1, g); }
  }

  lemma {:induction false} NothingRan(s: System, n: nat, g: Pid)
    requires Init(s)
    ensures TrueCpu(s.history, n, g, 0, s.clock) == 0
  {
    if n > 0 {
      NothingRan(s, n - 1, g);
      SpentAfterLast(s.history, n - 1, Some(g), 0, s.clock);
    }
  }

  /** Some event of the run takes the counter of `g` away. */
  ghost predicate Removed(s: System, es: seq<Event>, g: Pid)
    requires s.maps.WellFormed() && Possible(s, es)
    decreases |es|
  {
    es != [] && (Removes(s, es[0], g) || Removed(Apply(s, es[0]), es[1..], g))
  }

  /** Facts every run keeps: the invariant, the clock's direction, and the past. */
  lemma {:induction false} RunKeeps(s: System, es: seq<Event>)
    requires CpuInv(s) && Possible(s, es)
    ensures
      var r := Run(s, es);
      && CpuInv(r) && s.clock <= r.clock && r.maps.Cpus() == s.maps.Cpus()
      && forall n: nat, g, a: nat, b: nat ::
           a <= b <= s.clock ==> TrueCpu(r.history, n, g, a, b) == TrueCpu(s.history, n, g, a, b)
    decreases |es|
  {
    if es != [] {
      var e := es[0];
      var s' := Apply(s, e);
      StepCpuInv(s, e);
      StepHeldCpus(s, e);
      RunKeeps(s', es[1..]);
      if e.Sched? {
        forall n: nat, g, a: nat, b: nat | a <= b <= s.clock
          ensures TrueCpu(s'.history, n, g, a, b) == TrueCpu(s.history, n, g, a, b)
        {
          TrueCpuAppend(s.history, Record(s.maps, e), n, g, a, b);
        }
      }
    }
  }

  /**
   The central law. Along any run, whatever is evicted, reaped or recycled, a
   reading grows by at most the true on-CPU time, and by exactly that when the
   counter of `g` is left alone.
  */
  lemma {:induction false} ReadingFollowsTruth(s: System, es: seq<Event>, g: Pid)
    requires CpuInv(s) && Possible(s, es) && g != 0
    ensures
      var r := Run(s, es);
      && s.clock <= r.clock
      && var ran := TrueCpu(r.history, s.maps.Cpus(), g, s.clock, r.clock);
      && Reading(r.maps, g, r.clock) <= Reading(s.maps, g, s.clock) + ran
      && (!Removed(s, es, g) ==> Reading(r.maps, g, r.clock) == Reading(s.maps, g, s.clock) + ran)
    decreases |es|
  {
    if es == [] {
      TrueCpuSplit(s.history, s.maps.Cpus(), g, s.clock, s.clock, s.clock);
    } else {
      var e := es[0];
      var s' := Apply(s, e);
      var n := s.maps.Cpus();
      StepReading(s, e, n, g);
      StepCpuInv(s, e);
      StepHeldCpus(s, e);
      RunKeeps(s', es[1..]);
      ReadingFollowsTruth(s', es[1..], g);
      TrueCpuSplit(Run(s, es).history, n, g, s.clock, s'.clock, Run(s, es).clock);
    }
  }
}
