/** What the published state is worth, through the whole path from switch to row. */
module EndToEnd {
  import opened Prelude
  import opened History
  import opened Kernel
  import opened System
  import opened CpuAccounting
  import opened Metrics
  import opened IoAccounting
  import opened Ticks
  import opened IoTicks
  import opened ExitLedger
  import opened Batch
  import opened Candidates
  import opened ProcessTable
  import opened CpuMaps
  import opened Reaper
  import opened Replay
  import opened Collector

  /** A percentage is not above the process's true share of the time between two ticks. */
  predicate WithinTruth(s: System, r: System, g: Pid, percent: real)
    requires s.clock <= r.clock
  {
    var ran := TrueCpu(r.history, s.maps.Cpus(), g, s.clock, r.clock);
    0.0 <= percent <= Share(ran, r.clock - s.clock, true)
  }

  /**
   What is published at `r`, after a tick at `s`: no row is above its process's
   true share of the interval, and the machine total is at most 100 when no more
   CPUs ran than are online.
  */
  predicate Honest(onlineCpus: nat, out: SystemState, s: System, r: System)
    requires s.clock <= r.clock
  {
    && (forall i :: 0 <= i < |out.processes| ==> WithinTruth(s, r, out.processes[i].pid, out.processes[i].cpu))
    && (Running(r.history, s.maps.Cpus()) <= onlineCpus ==> 0.0 <= out.totalCpuPercent <= 100.0)
  }

  /** The same of I/O wait: not above the D sleep of which the stamp was kept, completed between the ticks. */
  predicate IoWithinTruth(s: System, r: System, g: Pid, percent: real)
    requires s.clock <= r.clock
  {
    0 <= KeptSleep(s, r, g) && 0.0 <= percent <= Share(KeptSleep(s, r, g), r.clock - s.clock, true)
  }

  /** Every I/O-wait figure published at `r`, after a tick at `s`. */
  predicate IoHonest(out: SystemState, s: System, r: System)
    requires s.clock <= r.clock
  {
    forall i :: 0 <= i < |out.processes| && out.processes[i].io.Some? ==>
      IoWithinTruth(s, r, out.processes[i].pid, out.processes[i].io.value)
  }

  lemma {:induction false} ValueNeverOverReports(s: System, es: seq<Event>, g: Pid)
    requires CpuInv(s) && Ahead(s, es)
    ensures s.clock <= Next(s, es).clock
    ensures WithinTruth(s, Next(s, es), g, ValueIn(CpuDeltas(TickAt(s), TickAt(Next(s, es))))(g))
  {
    RunIsForward(s, es);
    if g in CpuDeltas(TickAt(s), TickAt(Next(s, es))) {
      NeverOverReports(s, es, g);
    } else {
      ShareMonotone(0, Ran(s, es, g), Next(s, es).clock - s.clock, false);
    }
  }

  /** The published value, from the two snapshots behind it, over any run between them. */
  lemma {:induction false} PublishedNeverOverReports(c: Collector, out: SystemState, s: System, es: seq<Event>,
                                                     io: Deltas, tracked: nat, rss: map<Pid, nat>)
    requires c.onlineCpus > 0 && CpuInv(s) && Ahead(s, es)
    requires c.Published(out, CpuDeltas(TickAt(s), TickAt(Next(s, es))), io, tracked, rss)
    ensures s.clock <= Next(s, es).clock && Honest(c.onlineCpus, out, s, Next(s, es))
  {
    RunIsForward(s, es);
    forall i | 0 <= i < |out.processes|
      ensures WithinTruth(s, Next(s, es), out.processes[i].pid, out.processes[i].cpu)
    {
      ValueNeverOverReports(s, es, out.processes[i].pid);
    }
    if Running(Next(s, es).history, s.maps.Cpus()) <= c.onlineCpus {
      TotalAtMostHundred(s, es, c.onlineCpus);
    }
  }

  lemma {:induction false} IoValueNeverOverReports(s: System, es: seq<Event>, g: Pid)
    requires IoInv(s) && Ahead(s, es) && g in IoDeltas(IoTickAt(s), IoTickAt(Next(s, es)))
    ensures s.clock <= Next(s, es).clock
    ensures IoWithinTruth(s, Next(s, es), g, IoDeltas(IoTickAt(s), IoTickAt(Next(s, es)))[g])
  {
    ClockRises(s, es);
    ReportedHasBaseline(s, Next(s, es), g);
    IoNeverOverReports(s, es, Next(s, es), g);
  }

  lemma {:induction false} PublishedIoNeverOverReports(c: Collector, out: SystemState, s: System, es: seq<Event>,
                                                       cpu: Deltas, tracked: nat, rss: map<Pid, nat>)
    requires c.onlineCpus > 0 && IoInv(s) && Ahead(s, es)
    requires c.Published(out, cpu, IoDeltas(IoTickAt(s), IoTickAt(Next(s, es))), tracked, rss)
    ensures s.clock <= Next(s, es).clock && IoHonest(out, s, Next(s, es))
  {
    ClockRises(s, es);
    forall i | 0 <= i < |out.processes| && out.processes[i].io.Some?
      ensures IoWithinTruth(s, Next(s, es), out.processes[i].pid, out.processes[i].io.value)
    {
      IoValueNeverOverReports(s, es, out.processes[i].pid);
    }
  }

  // ---- two ticks in a row ----

  /** The machine right after a tick at `s`: its reaping pass is done. */
  function Reaped(s: System): (r: System)
    requires s.maps.WellFormed()
    ensures r.maps.WellFormed()
  {
    s.(maps := ReapMany(s.maps, Min(BUDGET, |s.maps.exits|)))
  }

  /** Everything between two ticks' reads: the first one's reaping, then the run. */
  function Between(s: System, es: seq<Event>): seq<Event> {
    ReapEvents(s.clock, Min(BUDGET, |s.maps.exits|)) + es
  }

  lemma {:induction false} BetweenIsARun(s: System, es: seq<Event>)
    requires CpuInv(s) && Ahead(Reaped(s), es)
    ensures Ahead(s, Between(s, es)) && Next(s, Between(s, es)) == Next(Reaped(s), es)
    ensures s.clock <= Next(Reaped(s), es).clock && CpuInv(Next(Reaped(s), es))
    ensures Next(Reaped(s), es).maps.Cpus() == s.maps.Cpus()
  {
    ReapIsARun(s, Min(BUDGET, |s.maps.exits|));
    Join(s, ReapEvents(s.clock, Min(BUDGET, |s.maps.exits|)), es);
    RunIsForward(s, Between(s, es));
  }

  /** No counter of the machine can have overflowed: CPUs times uptime, and every process's D sleep, fit 64 bits. */
  ghost predicate CountersFit(s: System) {
    s.maps.Cpus() * s.clock <= U64_MAX && forall g :: g != 0 ==> Slept(s.history, g, false) <= U64_MAX
  }

  ghost predicate Sound(s: System) {
    CpuInv(s) && IoInv(s) && CountersFit(s)
  }

  /** A tick at `s`, then `es`, then a tick. */
  ghost predicate Ticking(s: System, es: seq<Event>) {
    CpuInv(s) && IoInv(s) && Ahead(Reaped(s), es) && CountersFit(Next(Reaped(s), es))
  }

  /** What the tick after `es` publishes is within the truth of the time since `s`, of CPU and of I/O wait. */
  ghost predicate TickIsHonest(onlineCpus: nat, out: SystemState, s: System, r: System) {
    s.clock <= r.clock && Honest(onlineCpus, out, s, r) && IoHonest(out, s, r)
  }

  lemma {:induction false} SecondTickIsHonest(c: Collector, out: SystemState, s: System, es: seq<Event>,
                                              tracked: nat, rss: map<Pid, nat>)
    requires c.onlineCpus > 0 && Ticking(s, es)
    requires c.Published(out, CpuDeltas(TickAt(s), TickAt(Next(Reaped(s), es))),
                         IoDeltas(IoTickAt(s), IoTickAt(Next(Reaped(s), es))), tracked, rss)
    ensures TickIsHonest(c.onlineCpus, out, s, Next(Reaped(s), es))
  {
    BetweenIsARun(s, es);
    PublishedNeverOverReports(c, out, s, Between(s, es), IoDeltas(IoTickAt(s), IoTickAt(Next(Reaped(s), es))),
                              tracked, rss);
    PublishedIoNeverOverReports(c, out, s, Between(s, es), CpuDeltas(TickAt(s), TickAt(Next(Reaped(s), es))),
                                tracked, rss);
  }

  lemma {:induction false} EarlierFits(s: System, es: seq<Event>)
    requires Ticking(s, es)
    ensures Sound(s) && Sound(Next(Reaped(s), es))
  {
    BetweenIsARun(s, es);
    Product(s.maps.Cpus(), s.clock, Next(Reaped(s), es).clock);
    IoFollowsTruth(s, Between(s, es), 1);
    forall g | g != 0 ensures Slept(s.history, g, false) <= U64_MAX { IoFollowsTruth(s, Between(s, es), g); }
  }

  lemma Product(n: nat, a: nat, b: nat)
    requires a <= b
    ensures n * a <= n * b
  {
  }

  /** A layout of a map in buckets that each fit one batch. */
  ghost predicate Lays(table: Table, nrCpus: nat, m: PerCpu) {
    TableOk(table, nrCpus) && Represents(table, m) && EveryBucketFits(table)
  }

  /** One tick of the collector on the machine as it stands. */
  method TickOn(c: Collector, hooks: Hooks, s: System, cpuTable: Table, ioTable: Table, rss: map<Pid, nat>)
    returns (out: SystemState)
    requires hooks.Valid() && hooks.State() == s.maps && Sound(s)
    requires c.reader.Valid() && c.Apart(hooks) && c.onlineCpus > 0
    requires Lays(cpuTable, c.reader.nrCpus, s.maps.cpuNs) && Lays(ioTable, c.reader.nrCpus, s.maps.iowaitNs)
    modifies c.reader.keys, c.reader.values, c.cpu, c.iowait, hooks`exits, hooks`cpuNs, hooks`iowaitNs
    ensures hooks.Valid() && hooks.State() == Reaped(s).maps
    ensures c.cpu.prev == TickAt(s) && c.iowait.prev == IoTickAt(s)
    ensures c.Published(out, CpuDeltas(old(c.cpu.prev), TickAt(s)), IoDeltas(old(c.iowait.prev), IoTickAt(s)),
                        |TickAt(s).byPid|, rss)
  {
    ReachableSumsFit(s);
    IoTotalsAreSnapshot(s);
    out := c.Tick(hooks, cpuTable, ioTable, s.clock, rss);
  }

  /** A tick of a collector that ticked at `s`. */
  method NextTick(c: Collector, hooks: Hooks, s: System, es: seq<Event>, r: System, cpuTable: Table, ioTable: Table,
                  rss: map<Pid, nat>)
    returns (out: SystemState)
    requires Ticking(s, es) && r == Next(Reaped(s), es) && Sound(r)
    requires c.cpu.prev == TickAt(s) && c.iowait.prev == IoTickAt(s)
    requires hooks.Valid() && hooks.State() == r.maps
    requires c.reader.Valid() && c.Apart(hooks) && c.onlineCpus > 0
    requires Lays(cpuTable, c.reader.nrCpus, r.maps.cpuNs) && Lays(ioTable, c.reader.nrCpus, r.maps.iowaitNs)
    modifies c.reader.keys, c.reader.values, c.cpu, c.iowait, hooks`exits, hooks`cpuNs, hooks`iowaitNs
    ensures hooks.Valid() && hooks.State() == Reaped(r).maps
    ensures c.cpu.prev == TickAt(r) && c.iowait.prev == IoTickAt(r)
    ensures TickIsHonest(c.onlineCpus, out, s, r)
  {
    out := TickOn(c, hooks, r, cpuTable, ioTable, rss);
    SecondTickIsHonest(c, out, s, es, |TickAt(r).byPid|, rss);
  }

  /**
   A tick, any run of the machine, and another tick: what the second publishes, of
   CPU and of I/O wait, is within the truth of the time between them.
  */
  method TwoTicks(c: Collector, hooks: Hooks, s: System, es: seq<Event>, cpuTable: Table, ioTable: Table,
                  cpuTable2: Table, ioTable2: Table, rss: map<Pid, nat>)
    returns (out: SystemState)
    requires hooks.Valid() && hooks.State() == s.maps && Ticking(s, es)
    requires c.reader.Valid() && c.Apart(hooks) && c.onlineCpus > 0
    requires Lays(cpuTable, c.reader.nrCpus, s.maps.cpuNs) && Lays(ioTable, c.reader.nrCpus, s.maps.iowaitNs)
    requires Lays(cpuTable2, c.reader.nrCpus, Next(Reaped(s), es).maps.cpuNs)
    requires Lays(ioTable2, c.reader.nrCpus, Next(Reaped(s), es).maps.iowaitNs)
    modifies c.reader.keys, c.reader.values, c.cpu, c.iowait, hooks, hooks.startTime, hooks.currentTgid
    ensures TickIsHonest(c.onlineCpus, out, s, Next(Reaped(s), es))
  {
    EarlierFits(s, es);
    out := TickOn(c, hooks, s, cpuTable, ioTable, rss);
    var r := Play(hooks, Reaped(s), es);
    out := NextTick(c, hooks, s, es, r, cpuTable2, ioTable2, rss);
  }
}
