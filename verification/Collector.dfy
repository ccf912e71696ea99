/**
 The collector: reading the maps, correcting for slices in flight, diffing,
 choosing rows, and only then reaping the departed.
*/
module Collector {
  import opened Prelude
  import opened Kernel
  import opened Metrics
  import opened Ticks
  import opened ExitLedger
  import opened Batch
  import opened Candidates
  import opened ProcessTable
  import opened CpuMaps
  import opened Reaper

  const MAX_ROWS: nat := 256

  /** One candidate as a row; `rss` is what `/proc` gave. */
  function Enrich(pid: Pid, cpu: Deltas, io: Deltas, rss: map<Pid, nat>): Process {
    Process(pid, ValueIn(cpu)(pid),
            if pid in rss then Some(rss[pid]) else None,
            if pid in io then Some(io[pid]) else None)
  }

  function EnrichAll(pids: seq<Pid>, cpu: Deltas, io: Deltas, rss: map<Pid, nat>): seq<Process> {
    seq(|pids|, i requires 0 <= i < |pids| => Enrich(pids[i], cpu, io, rss))
  }

  lemma EnrichedRows(pids: seq<Pid>, cpu: Deltas, io: Deltas, rss: map<Pid, nat>)
    ensures RowPids(EnrichAll(pids, cpu, io, rss)) == pids
    ensures Enriched(EnrichAll(pids, cpu, io, rss), cpu, io) && Weighed(EnrichAll(pids, cpu, io, rss), rss)
  {
  }

  datatype SystemState = SystemState(processes: seq<Process>, totalCpuPercent: real, totalIoPercent: real,
                                     tracked: nat, atCapacity: bool)

  class Collector {
    const reader: BatchReader
    const cpu: CpuCollector
    const iowait: IoWaitCollector
    const onlineCpus: nat
    const capacity: nat

    constructor (possibleCpus: nat, onlineCpus: nat, capacity: nat)
      ensures reader.Valid() && reader.nrCpus == possibleCpus
      ensures this.onlineCpus == onlineCpus && this.capacity == capacity
      ensures cpu.prev == NO_SNAPSHOT && iowait.prev == NO_SNAPSHOT
      ensures fresh(reader.keys) && fresh(reader.values) && fresh(cpu) && fresh(iowait)
    {
      reader := new BatchReader(possibleCpus);
      cpu := new CpuCollector();
      iowait := new IoWaitCollector();
      this.onlineCpus, this.capacity := onlineCpus, capacity;
    }

    /** The reader's scratch arrays are its own. */
    ghost predicate Apart(hooks: Hooks)
      reads hooks
    {
      {reader.keys, reader.values} !! {hooks.startTime, hooks.currentTgid}
    }

    /** The counter, summed in batches and corrected for what is running. */
    method ReadCpu(hooks: Hooks, table: Table, now: nat) returns (snapshot: Snapshot)
      requires hooks.Valid() && reader.Valid() && Apart(hooks)
      requires TableOk(table, reader.nrCpus) && Represents(table, hooks.cpuNs)
      modifies reader.keys, reader.values
      ensures snapshot.at == Some(now)
      ensures EveryBucketFits(table) && SumsFit(hooks.cpuNs) ==> snapshot == CpuSnapshot(hooks.State(), now)
    {
      var totals, folded, reached := reader.SumPerCpu(table);
      var byPid := AddInflight(totals, hooks.currentTgid[..], hooks.startTime[..], now);
      snapshot := Snapshot(Some(now), byPid);
      if EveryBucketFits(table) && SumsFit(hooks.cpuNs) {
        CorrectedIsSnapshot(hooks.State(), now);
      }
    }

    /** The two reads of a tick and their differences; the maps are only read. */
    method Observe(hooks: Hooks, cpuTable: Table, ioTable: Table, now: nat)
      returns (cpuDeltas: Deltas, ioDeltas: Deltas, tracked: nat)
      requires hooks.Valid() && reader.Valid() && Apart(hooks)
      requires TableOk(cpuTable, reader.nrCpus) && Represents(cpuTable, hooks.cpuNs)
      requires TableOk(ioTable, reader.nrCpus) && Represents(ioTable, hooks.iowaitNs)
      modifies reader.keys, reader.values, cpu, iowait
      ensures hooks.Valid() && hooks.State() == old(hooks.State())
      ensures EveryBucketFits(cpuTable) && SumsFit(hooks.cpuNs) ==> cpu.prev == CpuSnapshot(hooks.State(), now)
      ensures EveryBucketFits(ioTable) ==> iowait.prev == Snapshot(Some(now), PlainTotals(hooks.iowaitNs))
      ensures cpuDeltas == CpuDeltas(old(cpu.prev), cpu.prev) && ioDeltas == IoDeltas(old(iowait.prev), iowait.prev)
      ensures tracked == |cpu.prev.byPid|
    {
      var cpuSnapshot := ReadCpu(hooks, cpuTable, now);
      tracked := |cpuSnapshot.byPid|;
      cpuDeltas := cpu.Deltas(cpuSnapshot);
      var ioTotals, _, _ := reader.SumPerCpu(ioTable);
      ioDeltas := iowait.Deltas(Snapshot(Some(now), ioTotals));
    }

    /** The published snapshot. */
    method Publish(cpuDeltas: Deltas, ioDeltas: Deltas, tracked: nat, rss: map<Pid, nat>) returns (out: SystemState)
      requires onlineCpus > 0
      ensures Published(out, cpuDeltas, ioDeltas, tracked, rss)
      ensures |cpuDeltas| <= 256 && |ioDeltas| <= 256 ==>
                Elems(RowPids(out.processes)) == cpuDeltas.Keys + ioDeltas.Keys
    {
      var pids := SelectCandidates(cpuDeltas, ioDeltas, MAX_ROWS);
      EnrichedRows(pids, cpuDeltas, ioDeltas, rss);
      if |cpuDeltas| <= 256 && |ioDeltas| <= 256 { AllAreChosen(cpuDeltas, ioDeltas, 256, Elems(pids)); }
      var processes := EnrichAll(pids, cpuDeltas, ioDeltas, rss);
      var totalCpu := AddUp(cpuDeltas);
      var totalIo := AddUp(ioDeltas);
      out := SystemState(processes, totalCpu / onlineCpus as real, totalIo, tracked, tracked >= capacity);
    }

    ghost predicate Published(out: SystemState, cpuDeltas: Deltas, ioDeltas: Deltas, tracked: nat, rss: map<Pid, nat>)
      requires onlineCpus > 0
    {
      && out.totalCpuPercent == SumValues(cpuDeltas) / onlineCpus as real
      && out.totalIoPercent == SumValues(ioDeltas)
      && Enriched(out.processes, cpuDeltas, ioDeltas) && Weighed(out.processes, rss)
      && NoDup(RowPids(out.processes)) && |out.processes| <= 2 * 256
      && Chosen(cpuDeltas, ioDeltas, 256, Elems(RowPids(out.processes)))
      && out.tracked == tracked && (out.atCapacity <==> tracked >= capacity)
    }

    /**
     Read CPU, then I/O wait, publish, and only then reap: what is reaped was
     already in the snapshots this tick keeps as the next baseline.
    */
    method Tick(hooks: Hooks, cpuTable: Table, ioTable: Table, now: nat, rss: map<Pid, nat>) returns (out: SystemState)
      requires hooks.Valid() && reader.Valid() && Apart(hooks) && onlineCpus > 0
      requires TableOk(cpuTable, reader.nrCpus) && Represents(cpuTable, hooks.cpuNs)
      requires TableOk(ioTable, reader.nrCpus) && Represents(ioTable, hooks.iowaitNs)
      modifies reader.keys, reader.values, cpu, iowait, hooks`exits, hooks`cpuNs, hooks`iowaitNs
      ensures hooks.Valid()
      ensures hooks.State() == ReapMany(old(hooks.State()), Min(BUDGET, |old(hooks.exits)|))
      ensures EveryBucketFits(cpuTable) && SumsFit(old(hooks.cpuNs)) ==>
                cpu.prev == CpuSnapshot(old(hooks.State()), now)
      ensures EveryBucketFits(ioTable) ==> iowait.prev == Snapshot(Some(now), PlainTotals(old(hooks.iowaitNs)))
      ensures Published(out, CpuDeltas(old(cpu.prev), cpu.prev), IoDeltas(old(iowait.prev), iowait.prev),
                        |cpu.prev.byPid|, rss)
    {
      var cpuDeltas, ioDeltas, tracked := Observe(hooks, cpuTable, ioTable, now);
      out := Publish(cpuDeltas, ioDeltas, tracked, rss);
      ReapExits(hooks);
    }
  }
}
