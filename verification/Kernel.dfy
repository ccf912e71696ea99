/**
 The kernel half: the maps the eBPF programs share with user space and the hooks
 that write them. `Maps` is the maps as one value, with each hook's effect as a
 function on it; `Hooks` is the same state updated in place, as the programs do.
*/
module Kernel {
  import opened Prelude
  import opened History

  /** Per-CPU hash map: one slot per possible CPU under each process id. */
  type PerCpu = map<Pid, seq<nat>>

  datatype Maps = Maps(
    startTime: seq<nat>,
    currentTgid: seq<Pid>,
    cpuNs: PerCpu,
    sleepSince: map<Pid, nat>,
    iowaitNs: PerCpu,
    exits: seq<Pid>,
    sleepCapacity: nat,
    ringCapacity: nat)
  {
    function Cpus(): nat { |startTime| }

    predicate WellFormed() {
      && |currentTgid| == |startTime|
      && Rows(cpuNs, Cpus())
      && Rows(iowaitNs, Cpus())
    }

    // ---- truetop-ebpf/src/cpu.rs ----

    function ChargeOut(c: nat, tid: Pid, tgid: Pid, now: nat): (m: Maps)
      requires WellFormed() && c < Cpus()
      ensures m.WellFormed() && m == this.(cpuNs := m.cpuNs)
    {
      if tid == 0 || startTime[c] == 0 then this
      else this.(cpuNs := AddSlot(cpuNs, Cpus(), c, tgid, SaturatingSub(now, startTime[c])))
    }

    function MarkIn(c: nat, tid: Pid, tgid: Pid, now: nat): (m: Maps)
      requires WellFormed() && c < Cpus()
      ensures m.WellFormed() && m == this.(startTime := m.startTime, currentTgid := m.currentTgid)
    {
      this.(startTime := if tid != 0 then startTime[c := now] else startTime,
            currentTgid := currentTgid[c := tgid])
    }

    // ---- truetop-ebpf/src/iowait.rs ----

    predicate StampRefused(state: bv32, tid: Pid) {
      tid != 0 && DSleep(state) && tid !in sleepSince && |sleepSince| >= sleepCapacity
    }

    function SleepOut(state: bv32, tid: Pid, now: nat): (m: Maps)
      requires WellFormed()
      ensures m.WellFormed() && m == this.(sleepSince := m.sleepSince)
    {
      if tid == 0 || !DSleep(state) || StampRefused(state, tid) then this
      else this.(sleepSince := sleepSince[tid := now])
    }

    function WakeIn(c: nat, tgid: Pid, tid: Pid, now: nat): (m: Maps)
      requires WellFormed() && c < Cpus()
      ensures m.WellFormed() && m == this.(sleepSince := m.sleepSince, iowaitNs := m.iowaitNs)
    {
      if tid == 0 || tid !in sleepSince then this
      else
        var woken := this.(sleepSince := sleepSince - {tid});
        if tgid == 0 then woken
        else woken.(iowaitNs := AddSlot(iowaitNs, Cpus(), c, tgid, SaturatingSub(now, sleepSince[tid])))
    }

    function ForgetThread(tid: Pid): (m: Maps)
      requires WellFormed()
      ensures m.WellFormed() && m == this.(sleepSince := m.sleepSince)
    {
      this.(sleepSince := sleepSince - {tid})
    }

    // ---- truetop-ebpf/src/sched.rs, lifecycle.rs, exit_notify.rs ----

    function SchedSwitch(c: nat, prev: Task, next: Task, state: bv32, now: nat): (m: Maps)
      requires WellFormed() && c < Cpus()
      ensures m.WellFormed()
    {
      ChargeOut(c, prev.tid, prev.tgid, now)
      .MarkIn(c, next.tid, next.tgid, now)
      .SleepOut(state, prev.tid, now)
      .WakeIn(c, next.tgid, next.tid, now)
    }

    /** A full ring drops the record. */
    function Announce(tgid: Pid): (m: Maps)
      requires WellFormed()
      ensures m.WellFormed() && m == this.(exits := m.exits)
    {
      if |exits| < ringCapacity then this.(exits := exits + [tgid]) else this
    }

    /** `live` is what the probe of `signal->live` returned; `None` when it could not be read. */
    function SchedProcessExit(tid: Pid, tgid: Pid, live: Option<nat>): (m: Maps)
      requires WellFormed()
      ensures m.WellFormed()
    {
      if tid == 0 then this
      else if GroupIsDead(live) then ForgetThread(tid).Announce(tgid)
      else ForgetThread(tid)
    }

    // ---- what user space and the LRU remove ----

    function DeleteCpu(g: Pid): (m: Maps)
      requires WellFormed()
      ensures m.WellFormed() && m == this.(cpuNs := m.cpuNs)
    {
      this.(cpuNs := cpuNs - {g})
    }

    function DeleteIo(g: Pid): (m: Maps)
      requires WellFormed()
      ensures m.WellFormed() && m == this.(iowaitNs := m.iowaitNs)
    {
      this.(iowaitNs := iowaitNs - {g})
    }

    /** One turn of the reaper: pop the oldest record, delete its process from both counters. */
    function ReapOne(): (m: Maps)
      requires WellFormed() && exits != []
      ensures m.WellFormed()
    {
      this.(exits := exits[1..]).DeleteCpu(exits[0]).DeleteIo(exits[0])
    }
  }

  predicate Rows(ns: PerCpu, n: nat) {
    forall g :: g in ns ==> |ns[g]| == n
  }

  /** A missing or unreadable count is not a death. */
  predicate GroupIsDead(live: Option<nat>) {
    live == Some(0)
  }

  /** The in-place add on one CPU's slot. */
  function Bump(slots: seq<nat>, c: nat, x: nat): seq<nat>
    requires c < |slots|
  {
    slots[c := SaturatingAdd(slots[c], x)]
  }

  /** Add to this CPU's slot; a fresh key starts with zero in every other slot. */
  function AddSlot(ns: PerCpu, n: nat, c: nat, g: Pid, x: nat): (r: PerCpu)
    requires Rows(ns, n) && c < n
    ensures Rows(r, n)
  {
    ns[g := if g in ns then Bump(ns[g], c, x) else OneHot(n, c, x)]
  }

  /** The counter slot of `g` on CPU `c`, zero without an entry. */
  function Slot(ns: PerCpu, c: nat, g: Pid): nat {
    if g in ns && c < |ns[g]| then ns[g][c] else 0
  }

  /** The counter of `g` summed over CPUs. */
  function Total(ns: PerCpu, g: Pid): nat {
    if g in ns then SeqSum(ns[g]) else 0
  }

  /** One slot gains the time from `since` to `now`, none if that is not forward, up to the top of a `u64`. */
  ghost predicate AddsTo(before: PerCpu, after: PerCpu, c: nat, g: Pid, now: nat, since: nat) {
    var gain := if now > since then now - since else 0;
    forall k, h ::
      Slot(after, k, h)
      == if k != c || h != g then Slot(before, k, h)
         else if Slot(before, k, h) + gain < 0x1_0000_0000_0000_0000 then Slot(before, k, h) + gain
         else 0xFFFF_FFFF_FFFF_FFFF
  }

  lemma AddSlotEffect(ns: PerCpu, n: nat, c: nat, g: Pid, x: nat, c': nat, g': Pid)
    requires Rows(ns, n) && c < n
    requires Slot(ns, c, g) + x <= U64_MAX
    ensures Slot(AddSlot(ns, n, c, g, x), c', g')
         == Slot(ns, c', g') + if c' == c && g' == g then x else 0
    ensures Total(AddSlot(ns, n, c, g, x), g') == Total(ns, g') + if g' == g then x else 0
  {
    if g in ns { SeqSumUpdate(ns[g], c, ns[g][c] + x); } else { SeqSumOneHot(n, c, x); }
  }

  lemma AddSlotAtMost(ns: PerCpu, n: nat, c: nat, g: Pid, x: nat, g': Pid)
    requires Rows(ns, n) && c < n
    ensures Total(AddSlot(ns, n, c, g, x), g') <= Total(ns, g') + if g' == g then x else 0
  {
    if g in ns { SeqSumUpdate(ns[g], c, SaturatingAdd(ns[g][c], x)); } else { SeqSumOneHot(n, c, x); }
  }

  lemma SlotWithinTotal(ns: PerCpu, c: nat, g: Pid)
    ensures Slot(ns, c, g) <= Total(ns, g)
  {
    if g in ns && c < |ns[g]| { SeqSumUpdate(ns[g], c, 0); }
  }

  /** The maps in place, one method per eBPF function. */
  class Hooks {
    var startTime: array<nat>
    var currentTgid: array<Pid>
    var cpuNs: PerCpu
    var sleepSince: map<Pid, nat>
    var iowaitNs: PerCpu
    var exits: seq<Pid>
    const sleepCapacity: nat
    const ringCapacity: nat

    ghost predicate Valid()
      reads this, startTime, currentTgid
    {
      startTime != currentTgid && State().WellFormed()
    }

    ghost function State(): Maps
      reads this, startTime, currentTgid
    {
      Maps(startTime[..], currentTgid[..], cpuNs, sleepSince, iowaitNs, exits, sleepCapacity, ringCapacity)
    }

    constructor (possibleCpus: nat, sleepCapacity: nat, ringCapacity: nat)
      ensures Valid() && fresh(startTime) && fresh(currentTgid)
      ensures State() == Maps(seq(possibleCpus, _ => 0), seq(possibleCpus, _ => 0), map[], map[], map[], [],
                              sleepCapacity, ringCapacity)
    {
      startTime := new nat[possibleCpus](_ => 0);
      currentTgid := new Pid[possibleCpus](_ => 0);
      cpuNs, sleepSince, iowaitNs, exits := map[], map[], map[], [];
      this.sleepCapacity, this.ringCapacity := sleepCapacity, ringCapacity;
      new;
      assert startTime[..] == seq(possibleCpus, _ => 0);
      assert currentTgid[..] == seq(possibleCpus, _ => 0);
    }

    /** The slot of `tgid` on CPU `c` gains the slice since the CPU's start, short of overflow; no other slot moves. */
    method ChargeOut(c: nat, tid: Pid, tgid: Pid, now: nat)
      requires Valid() && c < startTime.Length && now <= U64_MAX
      modifies this`cpuNs
      ensures tid == 0 || startTime[c] == 0 ==> cpuNs == old(cpuNs)
      ensures tid != 0 && startTime[c] != 0 ==> cpuNs.Keys == old(cpuNs.Keys) + {tgid}
      ensures tid != 0 && startTime[c] != 0 ==> AddsTo(old(cpuNs), cpuNs, c, tgid, now, startTime[c])
      ensures Valid() && State() == old(State()).ChargeOut(c, tid, tgid, now)
    {
      if tid == 0 { return; }
      var start := startTime[c];
      if start == 0 { return; }
      var slice := SaturatingSub(now, start);
      if tgid in cpuNs {
        cpuNs := cpuNs[tgid := Bump(cpuNs[tgid], c, slice)];
      } else {
        cpuNs := cpuNs[tgid := OneHot(startTime.Length, c, slice)];
      }
    }

    method MarkIn(c: nat, tid: Pid, tgid: Pid, now: nat)
      requires Valid() && c < startTime.Length
      modifies startTime, currentTgid
      ensures startTime[c] == if tid != 0 then now else old(startTime[c])
      ensures currentTgid[c] == tgid
      ensures forall k :: 0 <= k < startTime.Length && k != c ==>
                startTime[k] == old(startTime[k]) && currentTgid[k] == old(currentTgid[k])
      ensures Valid() && State() == old(State()).MarkIn(c, tid, tgid, now)
    {
      if tid != 0 {
        startTime[c] := now;
      }
      currentTgid[c] := tgid;
    }

    /** Bit 1 of the state set and bit 10 clear stamps the thread, unless its key is new and the map is full. */
    method SleepOut(state: bv32, tid: Pid, now: nat)
      requires Valid()
      modifies this`sleepSince
      ensures
        var sleeps := tid != 0 && (state >> 1) & 1 == 1 && (state >> 10) & 1 == 0;
        sleepSince == if sleeps && (tid in old(sleepSince) || |old(sleepSince)| < sleepCapacity)
                      then old(sleepSince)[tid := now] else old(sleepSince)
      ensures Valid() && State() == old(State()).SleepOut(state, tid, now)
    {
      if tid == 0 { return; }
      if state & (0x2 | 0x400) == 0x2 {
        if tid in sleepSince || |sleepSince| < sleepCapacity {
          sleepSince := sleepSince[tid := now];
        }
      }
    }

    /** The stamp goes, and the slot of `tgid` on CPU `c` gains the time since; no other slot moves. */
    method WakeIn(c: nat, tgid: Pid, tid: Pid, now: nat)
      requires Valid() && c < startTime.Length && now <= U64_MAX
      modifies this`sleepSince, this`iowaitNs
      ensures sleepSince == if tid != 0 then old(sleepSince) - {tid} else old(sleepSince)
      ensures
        if tid != 0 && tid in old(sleepSince) && tgid != 0
        then iowaitNs.Keys == old(iowaitNs.Keys) + {tgid}
             && AddsTo(old(iowaitNs), iowaitNs, c, tgid, now, old(sleepSince)[tid])
        else iowaitNs == old(iowaitNs)
      ensures Valid() && State() == old(State()).WakeIn(c, tgid, tid, now)
    {
      if tid == 0 || tid !in sleepSince { return; }
      var since := sleepSince[tid];
      sleepSince := sleepSince - {tid};
      if tgid == 0 { return; }
      var slept := SaturatingSub(now, since);
      if tgid in iowaitNs {
        iowaitNs := iowaitNs[tgid := Bump(iowaitNs[tgid], c, slept)];
      } else {
        iowaitNs := iowaitNs[tgid := OneHot(startTime.Length, c, slept)];
      }
    }

    method SchedSwitch(c: nat, prev: Task, next: Task, prevState: bv32, now: nat)
      requires Valid() && c < startTime.Length && now <= U64_MAX
      modifies this`cpuNs, this`sleepSince, this`iowaitNs, startTime, currentTgid
      ensures Valid() && State() == old(State()).SchedSwitch(c, prev, next, prevState, now)
    {
      ChargeOut(c, prev.tid, prev.tgid, now);
      MarkIn(c, next.tid, next.tgid, now);
      SleepOut(prevState, prev.tid, now);
      WakeIn(c, next.tgid, next.tid, now);
    }

    method ForgetThread(tid: Pid)
      requires Valid()
      modifies this`sleepSince
      ensures sleepSince == old(sleepSince) - {tid}
      ensures Valid() && State() == old(State()).ForgetThread(tid)
    {
      sleepSince := sleepSince - {tid};
    }

    method Announce(tgid: Pid)
      requires Valid()
      modifies this`exits
      ensures exits == if |old(exits)| < ringCapacity then old(exits) + [tgid] else old(exits)
      ensures Valid() && State() == old(State()).Announce(tgid)
    {
      if |exits| < ringCapacity {
        exits := exits + [tgid];
      }
    }

    method SchedProcessExit(tid: Pid, tgid: Pid, live: Option<nat>)
      requires Valid()
      modifies this`sleepSince, this`exits
      ensures sleepSince == if tid != 0 then old(sleepSince) - {tid} else old(sleepSince)
      ensures exits == if tid != 0 && live == Some(0) && |old(exits)| < ringCapacity
                       then old(exits) + [tgid] else old(exits)
      ensures Valid() && State() == old(State()).SchedProcessExit(tid, tgid, live)
    {
      if tid == 0 { return; }
      ForgetThread(tid);
      if GroupIsDead(live) {
        Announce(tgid);
      }
    }

    /** Take the oldest record off the ring, if there is one. */
    method NextExit() returns (record: Option<Pid>)
      requires Valid()
      modifies this`exits
      ensures Valid()
      ensures old(exits) == [] ==> record == None && State() == old(State())
      ensures old(exits) != [] ==> record == Some(old(exits)[0]) && State() == old(State()).(exits := old(exits)[1..])
    {
      if exits == [] { return None; }
      record := Some(exits[0]);
      exits := exits[1..];
    }

    method DeleteCpu(g: Pid)
      requires Valid()
      modifies this`cpuNs
      ensures cpuNs == old(cpuNs) - {g}
      ensures Valid() && State() == old(State()).DeleteCpu(g)
    {
      cpuNs := cpuNs - {g};
    }

    method DeleteIo(g: Pid)
      requires Valid()
      modifies this`iowaitNs
      ensures iowaitNs == old(iowaitNs) - {g}
      ensures Valid() && State() == old(State()).DeleteIo(g)
    {
      iowaitNs := iowaitNs - {g};
    }
  }
}
