# truetop accounting, verified

A Dafny model of how truetop measures processes: eBPF hooks charge on-CPU time and
D-state sleep into kernel maps as the scheduler switches, and a collector in user
space reads those maps once a second, corrects for what is still running, diffs
against the previous tick, picks the rows worth showing, and removes the entries of
processes that have ended. Beside that stand the parts it rests on: the reader of
the kernel's type information (BTF), the batched map read, the probe reads of a task,
and the table's ordering.

`dafny verify dfyconfig.toml` checks the whole project.

## How it is put together

| module | what it holds |
|---|---|
| `Prelude`, `History` | sums and saturating arithmetic; the true history of switches, and from it the true on-CPU and D-sleep time of every process |
| `Kernel`, `System` | the maps as a value, the same maps updated in place by class `Hooks`, and the machine: every event that may hit the maps, in any order |
| `CpuAccounting`, `Ticks`, `SplitTick` | the invariant of the CPU counters over every run, what two ticks report, and what they report when each reads at two instants |
| `IoAccounting`, `IoTicks` | the same for D-state sleep |
| `ExitLedger`, `Reaper` | who is announced as dead, in what order the ring drains, what deletion costs |
| `TornRead` | the hooks against every read of a tick, one shared word per step, on any number of CPUs |
| `Batch`, `CpuMaps`, `Metrics`, `Candidates`, `ProcessTable`, `MemorySort`, `Collector` | user space, from the batch call to the published state |
| `Replay`, `EndToEnd` | the hooks driven through a run, and two ticks of the collector around one |
| `Btf`, `Utf8`, `BtfRoundTrip`, `BtfNames` | the type reader over arbitrary bytes, what its text check accepts, and writers it inverts: of offsets into any strings, and of named types |
| `Example`, `SplitExample` | small machines taken through runs by hand |
| `TaskReads` | the 8-byte load of both ids, and the offset of the run state |

The truth a reading is compared with does not come from the maps. `History.TrueCpu`
counts the nanoseconds at which a CPU's occupant, by the switch history alone, is the
process; `History.Slept` adds up the intervals from a D-state switch-out of a thread
to its next switch-in. A run is any sequence of enabled events: switches, clones and
forks, both halves of a thread's exit, the freeing of a thread's id at its own exit or
of a whole group's, eviction of any key, and single turns of the reaper. A tick that reads
at one instant changes nothing, so it is a point of a run and the interval between
two ticks is a run of any length.

What the events take from the kernel, and nothing more:

- The clock never goes back and is not zero at a switch; it stays below 2^64.
- The thread that leaves a CPU is the one that came in there, or at the first switch
  seen on that CPU one not seen before. The id of the thread that comes in is on no
  other CPU; the thread belongs to a known group, or was preempted on its way out and
  its id may have been freed since.
- Thread 0 and process 0 are idle and go together; the ids in a switch could be read.
- A new thread gets a free id, cloned by a thread that has not begun to exit or forked
  as the first of a free process id.
- A thread's exit lowers `signal->live` first and fires the tracepoint later, while
  the thread is on a CPU. After that the id of a thread other than the leader is freed,
  whether or not its group lives on; the leader's goes with the group, when every
  thread has exited. Before and after, the thread may be switched out and in again, but
  its last switch-out is not a D sleep. Reading `live` may fail.
- At attach, no group is already past its last exit tracepoint; such a zombie is never
  announced.
- A new key of a per-CPU map starts with zero in every slot but the writer's; a
  delete clears all of them.

## What the model shows beyond the comments

- *Sorting by memory.* The comment at `truetop/src/backend.rs:180-181` promises the
  true top for whatever column the table sorts by. That holds for CPU and I/O wait
  (`CandidatesShowTheTop`) and not for memory: at every cap there are processes of
  which the largest is missed whichever tops are chosen (`TopMemoryCanBeMissing`). It
  is sure for memory exactly when every process has fewer than `cap` others ranking as
  high by CPU, or by I/O wait (`MemoryTopIsServedIff`).
- *I/O wait above 100.* The comment at `truetop/src/metrics/iowait.rs:9-10` explains
  more than 100 by threads that block together. One thread can do it, because a sleep
  is reported in full by the tick after it ends and not at all before
  (`WakeReportsWholeSleep`, `SleepersReadZero`). Woken once in an interval, it reads
  above 100 exactly when it had slept longer at the previous tick than passes from the
  wake-up to the next tick. A process of which one thread runs, awake at the previous
  tick, never does (`AwakeNeverPassesHundred`). `OneThreadPassesHundred` is a run with
  ticks a second apart.
- *Two reads in a tick.* The counters are summed and dated first; the slices in flight
  are added later. The reading is never ahead of the truth at the later instant
  (`SplitIsNeverAhead`), but it is ahead of its date by what ran in between, and behind
  by a slice that ended in between. A process is reported above its true share of the
  interval `deltas` divides by exactly when the second tick is further ahead of its
  counters than the first was (`OverReportsIffFurther`). At any tick period there is a
  run in which a process runs for a microsecond and is reported above 100
  (`MissedSliceIsReportedLater`).
- *Caught in mid-switch.* The write order in `mark_in` keeps an idle gap from being
  billed (`IdleIsNeverBilled`). It does not help when counter and process id are both
  read after a switch has charged the outgoing process and before it has put the
  incoming id in place: the stint is then counted and billed (`CaughtCountsTwice`). That
  is the only such case, and with it a whole tick on any number of CPUs is bounded
  (`TickIsBounded`).
- *Forgetting a thread.* `forget_thread` at the exit tracepoint never finds a stamp,
  because the thread is on a CPU and so is not asleep (`ForgetFindsNothing`).
- *Reused ids.* The reaper can take the entry of a living process, in one case only:
  its id was handed out again while a record of the previous holder was still queued
  (`StepQueued`, with a run that does it in `ReusedIdIsReaped`).
- *Who is announced.* `truetop-ebpf/src/exit_notify.rs:25-26` says callers filter to
  the group leader; the caller filters on `live` instead, as its own comment says, and
  the model follows the code. A group may be announced again,
  at most once for each other thread still leaving at the first record
  (`DeathsMayBeOfferedTwice`, `OffersAfterAnOffer`).
- *Dead branches.* The early exits of both BTF walks on an unreadable info word, and
  the header reads' error branches, cannot be taken: every such read is in bounds.

## Model

| member | source | states |
|---|---|---|
| `Kernel.Hooks.constructor` | truetop-ebpf/src/cpu.rs:21-33 | at load every slot is zero, every map and the ring empty |
| `Kernel.Hooks.ChargeOut` | truetop-ebpf/src/cpu.rs:37-53 | this CPU's slot of the outgoing process gains the slice, up to the top of a `u64`; idle, or a CPU with no start yet, bills nothing; no other slot or key moves |
| `Kernel.Hooks.MarkIn` | truetop-ebpf/src/cpu.rs:57-66 | the incoming process is published; its start time too, unless it is idle, which leaves a stale one |
| `Kernel.Hooks.SleepOut` | truetop-ebpf/src/iowait.rs:33-40 | a thread leaving with state bit 1 set and bit 10 clear is stamped, unless its key is new and the map full; nothing else changes |
| `Kernel.Hooks.WakeIn` | truetop-ebpf/src/iowait.rs:43-63 | takes the stamp away and adds the time since to the waking process's slot on this CPU, up to the top of a `u64`; no other slot moves |
| `Kernel.Hooks.SchedSwitch` | truetop-ebpf/src/sched.rs:20-46 | the four effects of one switch, in the hook's order |
| `Kernel.Hooks.ForgetThread` | truetop-ebpf/src/iowait.rs:69-71 | the stamp of that thread, and only it, is gone |
| `Kernel.Hooks.Announce` | truetop-ebpf/src/exit_notify.rs:28-30 | the record goes to the end of the ring, or is dropped when the ring is full |
| `Kernel.Hooks.SchedProcessExit` | truetop-ebpf/src/lifecycle.rs:16-33 | drops the stamp and announces the group when `live` was read as zero; a missing count announces nothing |
| `Kernel.Hooks.NextExit` | truetop/src/reaper.rs:49-51 | takes the oldest record, or none from an empty ring |
| `Kernel.Hooks.DeleteCpu` | truetop/src/batch.rs:23-41 | every CPU's slot of that key goes at once, no other key |
| `Kernel.Hooks.DeleteIo` | truetop/src/reaper.rs:54-54 | the same for the I/O-wait map |
| `Kernel.AddSlotEffect` | truetop-ebpf/src/cpu.rs:46-52 | adding in place, or inserting a new key, raises one slot and the key's sum by the slice, and no other, while the slot does not overflow |
| `CpuAccounting.ChargeIsExact` | truetop-ebpf/src/cpu.rs:45-48 | in every reachable state neither the saturating subtraction nor the saturating addition saturates, whatever was removed |
| `CpuAccounting.SwitchKeepsHeld` | truetop-ebpf/src/sched.rs:41-42 | at the instant of a switch no process gains or loses: what leaves flight enters the slot |
| `CpuAccounting.StepHeld` | truetop-ebpf/src/cpu.rs:37-66 | over any event a CPU's slot plus flight for a process grows by exactly the time it ran there; a removal cuts it to the slice in flight |
| `CpuAccounting.StepCpuInv` | truetop-ebpf/src/cpu.rs:18-33 | every event keeps the invariant: stopwatch agrees with history, and no CPU holds more for a process than it ran |
| `CpuAccounting.ReadingFollowsTruth` | truetop/src/cpu_maps.rs:40-71 | over every run the corrected reading grows by at most the true on-CPU time, and by exactly that when the counter was left alone |
| `Ticks.NeverOverReports` | truetop/src/metrics/cpu.rs:36-53 | between any two ticks, with switches, exits, evictions, reaps and reused ids in any order, no process is reported above its true on-CPU time |
| `Ticks.SeenStaysSeen` | truetop/src/cpu_maps.rs:60-71 | a process seen at one tick is seen at every later one unless its counter was removed, though it be only in flight |
| `Ticks.IntervalIsExact` | truetop/src/metrics/cpu.rs:36-53 | with no removal, the reported percentage is exactly the true on-CPU time of the interval, even for a thread that never switches out |
| `Ticks.ReportsTelescope` | truetop/src/metrics/cpu.rs:28-53 | over any number of ticks the reported nanoseconds add up to at most the true time; with no removal they fall short of it by exactly the reading at first sight, which is reported as zero, and by nothing when there was a baseline from the start |
| `Ticks.DeltaIsReported` | truetop/src/metrics/cpu.rs:41-47 | what `deltas` reports is exactly the share of those nanoseconds |
| `Ticks.ExactAccounting` | truetop-ebpf/src/cpu.rs:5-11 | from attach on, slots plus flights of an untouched counter are the process's on-CPU time since each CPU's first observed switch, through idle gaps and migration |
| `Ticks.QuietTicksRemoveNothing` | truetop-ebpf/src/cpu.rs:5-11 | ticks between which nothing is evicted and no exit is reaped remove no counter, so the exact laws hold there of every process |
| `Ticks.CpuTimeIsConserved` | truetop-ebpf/src/cpu.rs:5-11 | charged, in flight, idle and before-first-switch time of a CPU fill the clock exactly |
| `Ticks.TotalAtMostHundred` | truetop/src/backend.rs:135-135 | the machine total is between 0 and 100 when no more CPUs run than are online, removals or not |
| `Ticks.RunningCounts` | truetop/src/backend.rs:135-135 | the CPUs that bound speaks of are exactly those of which a switch was seen |
| `EndToEnd.PublishedNeverOverReports` | truetop/src/backend.rs:121-160 | of a value published from two snapshots: no row above its process's true share, and the total at most 100 when no more CPUs run than are online |
| `EndToEnd.PublishedIoNeverOverReports` | truetop/src/backend.rs:127-133 | of a value published from two snapshots: no I/O-wait figure above the D sleep its process completed in between |
| `EndToEnd.TwoTicks` | truetop/src/backend.rs:121-160 | a tick, any run of the machine carried out by the hooks, and another tick: every CPU and I/O-wait figure the second publishes, and the CPU total, is within the truth of the time between their reads |
| `Replay.Play` | truetop-ebpf/src/sched.rs:20-46 | over every run the hooks, in place, leave the maps of the machine that the laws speak of |
| `SplitTick.SplitIsNeverAhead` | truetop/src/cpu_maps.rs:42-71 | counters summed at one instant plus slices in flight at a later one never exceed the process's on-CPU time up to the later, whatever happens between |
| `SplitTick.SplitMissesTheCharged` | truetop/src/cpu_maps.rs:42-71 | such a reading misses exactly what was charged between the two instants and keeps exactly what was deleted |
| `SplitTick.SplitIsLate` | truetop/src/cpu_maps.rs:42-71 | whatever is removed, it is the reading at the first instant, plus the time run in between, less what was charged in between |
| `SplitTick.SplitSnapshotIsRead` | truetop/src/batch.rs:99-101 | the snapshot dated at the counter read is what the batched totals and the later correction give |
| `SplitTick.OverReportsIffFurther` | truetop/src/metrics/mod.rs:45-59 | two such ticks report a process above its true share of the time between their counter reads only if the second's flights are further ahead of its counters than the first's, and, with no removal, exactly then |
| `SplitExample.MissedSliceIsReportedLater` | truetop/src/cpu_maps.rs:42-71 | for every tick period, a run from attach in which a process runs a microsecond between two ticks and is reported above 100 |
| `IoAccounting.StepIoInv` | truetop-ebpf/src/iowait.rs:20-30 | every event keeps: a stamp stands exactly while its thread sleeps, dated by its switch-out; no thread is on two CPUs; no counter exceeds the sleep measured |
| `IoAccounting.WakeMeasures` | truetop-ebpf/src/iowait.rs:47-54 | what a wake-up bills is the sleep completed, less the part whose stamp was refused |
| `IoAccounting.DroppedIffFull` | truetop-ebpf/src/iowait.rs:20-24 | a switch leaves a sleep unmeasured iff it begins a D sleep, by its two state bits, with the stamp map at capacity |
| `IoAccounting.RoomMeansStamped` | truetop-ebpf/src/iowait.rs:37-39 | while the map has room a thread has its stamp after the switch iff it left in a D sleep, dated by the switch |
| `IoAccounting.IoFollowsTruth` | truetop-ebpf/src/iowait.rs:33-63 | over every run a counter grows by at most the kept sleeps its threads completed, exactly that when it was left alone |
| `IoAccounting.IoWaitIsExact` | truetop-ebpf/src/iowait.rs:33-63 | slots plus the intervals lost to a full stamp map are every completed D sleep of the process, whichever CPUs its two ends fell on |
| `IoAccounting.StampsAreSleepers` | truetop-ebpf/src/iowait.rs:20-26 | in every reachable state a thread has a stamp iff its last switch-out was a kept D sleep, and the map never passes its capacity |
| `IoAccounting.StampsBoundedBySleepers` | truetop-ebpf/src/iowait.rs:20-24 | there are no more stamps than threads asleep at once |
| `IoAccounting.NoStampOutlivesItsThread` | truetop-ebpf/src/iowait.rs:65-71 | a thread whose id is freed, at its own exit or with its group, leaves no stamp, and a reused thread id inherits none |
| `IoAccounting.ForgetFindsNothing` | truetop-ebpf/src/lifecycle.rs:25-25 | at the exit tracepoint there is never a stamp to drop |
| `IoTicks.IoNeverOverReports` | truetop/src/metrics/iowait.rs:29-45 | no process is reported above the D sleep its threads completed in the interval |
| `IoTicks.IoIntervalIsExact` | truetop/src/metrics/iowait.rs:29-45 | with a baseline and no removal, exactly that sleep is reported |
| `IoTicks.SleepersReadZero` | truetop/src/metrics/iowait.rs:29-45 | a process asleep through a whole interval reads zero for it |
| `IoTicks.WakeReportsWholeSleep` | truetop/src/metrics/iowait.rs:9-14 | over any interval with one wake-up of the process, wherever in it: the whole sleep is reported, above 100 iff it had lasted longer at the previous tick than passes from the wake-up to the next |
| `IoTicks.OneThreadBound` | truetop-ebpf/src/iowait.rs:33-63 | over every run, the sleep one thread completes and the sleep it is still in fit in the interval and the sleep it was in at its start |
| `IoTicks.AwakeNeverPassesHundred` | truetop/src/metrics/iowait.rs:9-14 | a process of which one thread runs passes 100 by at most the sleep that thread was in at the previous tick, so not at all if it was awake |
| `Example.OneThreadPassesHundred` | truetop/src/metrics/iowait.rs:9-14 | a run from attach, on one CPU with one thread, and ticks a second apart, of which the second reports above 100 |
| `IoTicks.IoTotalsAreSnapshot` | truetop/src/batch.rs:99-101 | the batched totals of the I/O map are its slots' true sums while no process has slept 2^64 ns |
| `ExitLedger.StepExitInv` | truetop-ebpf/src/task.rs:68-89 | every event keeps: `live` counts the threads that have not begun to exit, and a finished group has been offered |
| `ExitLedger.AnnouncesExactlyTheDead` | truetop-ebpf/src/lifecycle.rs:25-31 | a record is offered iff no thread of the group is still running, a leader's early exit included, and `live` could be read |
| `ExitLedger.EveryDeathIsOffered` | truetop-ebpf/src/lifecycle.rs:25-31 | in every state reached from attach, a group whose last tracepoint has fired was offered at least once, unless reading `live` failed |
| `ExitLedger.DeathsMayBeOfferedTwice` | truetop-ebpf/src/lifecycle.rs:26-31 | two threads that begin to exit together put two records of one group in the ring |
| `ExitLedger.OffersThatFollow` | truetop-ebpf/src/lifecycle.rs:26-31 | once `live` is zero, records offered from then on and failed reads are exactly as many as the threads that were still leaving, less those still leaving: none follows when no other thread was, over every run until the id is freed |
| `ExitLedger.OffersAfterAnOffer` | truetop-ebpf/src/lifecycle.rs:26-31 | after a record, the group's further records are at most as many as the other threads then leaving; exactly as many, once the group is finished, if every `live` could be read |
| `ExitLedger.RingIsFifo` | truetop/src/reaper.rs:48-57 | over every run, queued then arrived equals popped then still queued, in one order |
| `ExitLedger.DrainBound` | truetop/src/reaper.rs:33-57 | after k passes the first 4096k records are gone, in order, however many arrive behind them |
| `ExitLedger.BacklogNeverGrows` | truetop/src/reaper.rs:29-33 | with at most 4096 arrivals per tick the backlog after a pass is no longer than before |
| `ExitLedger.StepQueued` | truetop/src/reaper.rs:48-57 | an event puts a living group behind a queued record iff it hands that queued id out again |
| `ExitLedger.ReaperSparesTheLiving` | truetop/src/reaper.rs:42-58 | over every run in which ids rest while queued, no group with a running thread is ever reaped |
| `ExitLedger.FreshIdsRest` | truetop/src/reaper.rs:42-58 | ids rest in particular whenever no id handed out is queued before the run or announced during it |
| `ExitLedger.ReusedIdIsReaped` | truetop/src/reaper.rs:42-58 | a run in which an id is reused while queued and the living holder stands to lose its entry |
| `ExitLedger.LedgerBalances` | truetop/src/reaper.rs:3-7 | every nanosecond charged is still in the counter or was deleted from it |
| `ExitLedger.ReadingsBalance` | truetop/src/backend.rs:140-146 | over every run, reading plus deleted time at the end is reading at the start plus time run: a slice in flight is counted once |
| `ExitLedger.DeletedUnseenRanLater` | truetop/src/backend.rs:140-146 | what a pass deletes beyond what its tick read was run, and charged, after that read; if nothing was charged it was all in the counter then |
| `ExitLedger.RecreatedHoldsOnlyLaterTime` | truetop-ebpf/src/cpu.rs:46-52 | an entry made again after a removal holds only slices in flight at the removal and time run since |
| `Reaper.ReapExits` | truetop/src/reaper.rs:42-58 | a pass takes the oldest 4096 records, or all there are, and deletes exactly the entries they name |
| `Reaper.ReapManyEffect` | truetop/src/reaper.rs:48-57 | a pass leaves the later records and every entry it did not name, and nothing it named |
| `Reaper.ReapIsARun` | truetop/src/reaper.rs:48-57 | a pass is a run of single turns, and a whole pass meets the drain's definition |
| `TornRead.IdleIsNeverBilled` | truetop-ebpf/src/cpu.rs:57-66 | from an unswitched CPU, for every interleaving of the three reads with any number of switches: the start time paired with a process is not older than the schedule-in that published it, and the bill passes the time it truly ran since by at most the time since the id was read, or since the switch then in progress began |
| `TornRead.TgidFirstBillsTheIdleGap` | truetop-ebpf/src/cpu.rs:58-61 | with the two writes swapped, an interleaving bills the waking process the idle gap |
| `TornRead.TickIsBounded` | truetop/src/cpu_maps.rs:42-71 | on any number of CPUs, with counter, id, start time and clock each read at its own instant against any switches and removals, a process's reading passes its true on-CPU time by at most the summed windows of the CPUs that showed its id, plus a stint caught in mid-switch |
| `TornRead.CaughtCountsTwice` | truetop-ebpf/src/sched.rs:41-42 | a read of counter and id between charge and marks counts a stint of any length twice, which is what the bound allows |
| `TornRead.ThreeWritesAreTheHook` | truetop-ebpf/src/cpu.rs:37-66 | uninterrupted, the charge and the two single-word writes are `charge_out` and `mark_in` on that CPU |
| `Metrics.CpuCollector.Deltas` | truetop/src/metrics/cpu.rs:36-53 | one value for every process of the new snapshot: its counter's rise over the interval, zero at first sight, after a step back, or when no time passed; the new snapshot becomes the baseline |
| `Metrics.IoWaitCollector.Deltas` | truetop/src/metrics/iowait.rs:29-45 | one value for exactly the processes with a baseline, zero after a step back, and nothing at all when no time passed |
| `Metrics.AddUp` | truetop/src/backend.rs:135-136 | the values' sum, in whatever order the map yields them |
| `CpuMaps.AddInflight` | truetop/src/cpu_maps.rs:60-71 | each process gains the sum of its slices over the CPUs where it is, is not idle, and started before now; it is listed if it had an entry or gains something |
| `CpuMaps.FlightsAreAdded` | truetop/src/cpu_maps.rs:66-70 | the corrected map lists exactly the processes with an entry or a slice, each at its sum |
| `CpuMaps.CorrectedIsSnapshot` | truetop/src/cpu_maps.rs:42-46 | batched totals plus correction are the reading of every process that the tick laws speak of |
| `CpuMaps.ReachableSumsFit` | truetop/src/cpu_maps.rs:68-68 | in every reachable state no addition on the read path overflows while CPUs times uptime fits 64 bits |
| `Batch.BatchReader.NextBatch` | truetop/src/batch.rs:103-130 | a call fills the scratch rows with whole buckets from the cursor, stops on the first that does not fit, and ends with rows in hand |
| `Batch.BatchReader.Fold` | truetop/src/batch.rs:135-146 | folds exactly the live rows, in order, and no stale one behind them |
| `Batch.BatchReader.SumPerCpu` | truetop/src/batch.rs:82-93 | ends; with buckets of at most 4096 entries it gives each key of the map the sum of its slots and no other key; otherwise it folds what lies before the first bucket that can never fit |
| `Batch.FoldSumsEachKey` | truetop/src/batch.rs:135-146 | folding rows of distinct keys gives each key its own row's sum and no other key anything |
| `Batch.FoldIsPlain` | truetop/src/batch.rs:81-93 | the fold over all buckets is the plain per-key sum of the map |
| `Batch.ShortBatchIsNotTheEnd` | truetop/src/batch.rs:106-108 | a batch can come back short with rows still unread |
| `Candidates.SelectNth` | truetop/src/backend.rs:194-194 | rearranges the array so that nothing after the position outranks anything before it |
| `Candidates.TopPids` | truetop/src/backend.rs:191-198 | `cap` highest-valued processes, each once, or all when there are fewer |
| `Candidates.SelectCandidates` | truetop/src/backend.rs:182-187 | the union of a top by CPU and a top by I/O wait, each once, at most twice `cap` |
| `ProcessTable.Visible` | truetop/src/ui/table.rs:100-119 | each matching process as often as it is listed and no other, sorted largest first or reversed; rows that tie stand in the order of the list itself, or the opposite |
| `ProcessTable.CandidatesShowTheTop` | truetop/src/backend.rs:180-198 | sorted by CPU or I/O wait, the first k values over the candidates are the first k over every process, for every k up to `cap` |
| `MemorySort.TopMemoryCanBeMissing` | truetop/src/backend.rs:180-181 | at every cap, real process ids of which the largest by memory is no candidate, whichever tops are chosen |
| `MemorySort.MemoryTopIsServedIff` | truetop/src/backend.rs:180-198 | the top by memory is a candidate for every choice of tops and every memory iff each process has fewer than `cap` others ranking as high by CPU, or by I/O wait |
| `MemorySort.ServedIsFirstRow` | truetop/src/ui/table.rs:110-114 | that top is served iff the first row over the candidates has the memory of the first row over every process |
| `Collector.Collector.ReadCpu` | truetop/src/cpu_maps.rs:42-46 | the read yields the tick's snapshot of the maps at `now` |
| `Collector.Collector.Observe` | truetop/src/backend.rs:122-128 | both reads leave the maps alone and yield the differences from the last tick's snapshots |
| `Collector.Collector.Publish` | truetop/src/backend.rs:130-159 | totals, capacity flag, and one row for each candidate with its values; every process when neither metric lists more than 256 |
| `Collector.Collector.Tick` | truetop/src/backend.rs:121-160 | the published state and the new baselines come from the maps before the reap, and only the reaped records' entries are then gone |
| `Btf.FromBytes` | truetop/src/btf.rs:67-90 | accepts exactly the inputs of at least 24 bytes that begin with the magic in either byte order; every offset is the number its header word spells in that order, counted from the end of the header |
| `Btf.TypeOffsets` | truetop/src/btf.rs:156-168 | the walk ends, in 64-bit arithmetic without overflow, with the records' offsets |
| `Btf.FieldOffset` | truetop/src/btf.rs:112-141 | on every byte string the inline walk answers as a lookup through the type index does: same success, same value, same error |
| `Btf.FieldOffsetIsFirstMember` | truetop/src/btf.rs:123-137 | in terms of the words read: success iff a kind-4 record so named is indexed and has a member with both words in bounds and that name; the value is the first such member's offset word, its low 24 bits if bit 31 of the info word is set, over 8 |
| `Btf.WalkIsBounded` | truetop/src/btf.rs:112-168 | visited records lie within section and data, 12 bytes apart at least, and no index derived from one leaves 64 bits |
| `Btf.OutsideNamesMatchNothing` | truetop/src/btf.rs:104-110 | a name offset outside the data equals the empty query only |
| `Btf.TextIsRead` | truetop/src/btf.rs:104-110 | bytes without a NUL, ended by one or by the end of the data, are read as they stand if they are UTF-8 and as the empty string if not |
| `Utf8.Utf8IffEncoded` | truetop/src/btf.rs:109-109 | the text check accepts exactly the encodings, by section 3 of RFC 3629, of strings of Unicode scalar values |
| `Btf.WordIsNumber` | truetop/src/btf.rs:94-102 | a word in bounds is the number its four bytes spell in the file's byte order |
| `Btf.NextByKind` | truetop/src/btf.rs:203-212 | from record to record by the kind number, 0 to 31, and the count, whatever they are |
| `BtfNames.RoundTrip` | truetop/src/btf.rs:67-212 | types of all kinds that refer to a list of names, written in either byte order and any layout, read back: every field offset and every prototype's parameter count is what the types declare of the names, or the error that nothing so named is declared |
| `BtfNames.DeclaredMemberIsFound` | truetop/src/btf.rs:112-141 | asked for a declared struct and member by name, the reader answers the declared byte offset, if no struct and no member before has the same name |
| `BtfNames.NameReads` | truetop/src/btf.rs:104-110 | the offset the writer gives a name reads as that name |
| `BtfRoundTrip.ReadsBack` | truetop/src/btf.rs:67-212 | the same for any name offsets into any bytes of strings, and every type id maps to the start of its record, with any header length and any gaps before and between the sections |
| `BtfRoundTrip.FieldOffsetReads` | truetop/src/btf.rs:124-133 | the field offset read is the declared one, masked under kind_flag and divided by 8 |
| `BtfRoundTrip.ProtoParamsReads` | truetop/src/btf.rs:145-153 | typedef to pointer to prototype gives the declared parameter count, or the declared error |
| `BtfRoundTrip.ReferentReads` | truetop/src/btf.rs:171-180 | a reference resolves to its declared type iff it is in range and of the expected kind |
| `BtfRoundTrip.WalkVisits` | truetop/src/btf.rs:203-212 | the trailing bytes by kind carry the walk from each written record to the next |
| `TaskReads.OneLoadIsTwoReads` | truetop-ebpf/src/task.rs:42-53 | with adjacent ids, the one 8-byte load gives both ids iff it does not fault or both read zero, in either byte order |
| `TaskReads.DeadIsReadZero` | truetop-ebpf/src/task.rs:76-89 | a group counts as dead iff task, `signal` and `live` can all be read, no pointer is null, and all four bytes of the count are zero |
| `TaskReads.StateIsLowWord` | truetop/src/lib.rs:215-223 | the chosen offset reads the low 32 bits of the old native long, on 4- and 8-byte longs and in either byte order |
| `TaskReads.NewStateIsRead` | truetop/src/lib.rs:215-218 | where the new field exists its own four bytes are read, whatever the old field, the width or the byte order |
| `TaskReads.NoStateNoOffset` | truetop/src/lib.rs:219-222 | with neither field there is no offset |
| `TaskReads.UnreadableIsZero` | truetop-ebpf/src/task.rs:42-53 | a null task and a fault read as zero |
| `TaskReads.FourBytes` | truetop-ebpf/src/task.rs:92-99 | four bytes spell a number least significant first, or most significant first when big-endian |

## Left out

- `IoAccounting.IoWaitIsExact`: asks that the process's total D sleep stay within 64 bits, because past that a slot saturates; `IoFollowsTruth` gives the upper bound without it.
- `IoTicks.IoIntervalIsExact`: the same condition.
- `CpuMaps.ReachableSumsFit`: asks that CPUs times uptime fit 64 bits; beyond it a release build's sum may wrap.
- `Ticks.NeverOverReports`: a tick here reads maps and clock at one instant. `SplitTick` takes the counter read and the in-flight read apart; `TornRead` takes every read apart, for one tick.
- `SplitTick.OverReportsIffFurther`: each of its two reads is one instant, and only the direction that a report is too much implies the condition survives a removal.
- `IoTicks.WakeReportsWholeSleep`: asks for a baseline, an untouched counter and total sleep within 64 bits, as `IoIntervalIsExact` does.
- `EndToEnd.TwoTicks`: each tick reads at one instant, and CPUs times uptime and each process's D sleep fit 64 bits.
- `Batch.BatchReader.SumPerCpu`: the map does not change while it is read, and the values returned by a failed call are not modelled beyond the oversized bucket that makes it fail.
- `TornRead.TickIsBounded`: sequentially consistent single-word reads and writes; weak memory is not modelled.
- `Btf.FieldOffset`: error texts name no type or field; a vector holds at most half the address space, as Rust guarantees.
- `BtfNames.RoundTrip`: record kinds as the Linux kernel BTF specification, section 2.2, lays them out; trailing words are free, so layout rules the reader never looks at are not imposed, and only the names a lookup reads, of types and of struct members, are written from the list. Types come before strings.
- `Candidates.SelectNth`: the library's selection is modelled as a three-way quickselect; only what its contract promises is used.
- `ProcessTable.Visible`: the library sort is modelled as a stable insertion sort, and the text filter as any predicate on rows.
- Floating point: percentages are exact reals, so rounding and NaN ordering are not modelled.
- The LRU policy: eviction may take any key at any time.
- A thread running under an id while the thread that freed it is still on a CPU, or asleep under it when that thread comes back: ids are all the maps can tell threads by.
- A thread that calls `exec` and takes over its leader's id: not an event of the model.
- CPU hotplug, and hooks attached one after another rather than together.
- Ring records too short to hold an id, and failed map syscalls other than the batched read's.
- Identity capture, names, users, memory reads, load average: one map write or file read each, with no law across them.
- The histories behind the charts: a capped queue.
- Rendering, keys, themes, command line, loading and attaching programs, signals, and the bench, demo and packaging scripts.
