/**
 Sorting the candidates by memory. They are chosen by CPU and I/O wait, so this
 shows the true top only where truncation cannot drop anyone.
*/
module MemorySort {
  import opened Prelude
  import opened Metrics
  import opened Candidates
  import opened ProcessTable

  function RssOf(rss: map<Pid, nat>, p: Pid): nat {
    if p in rss then rss[p] else 0
  }

  /** Among all processes, none has more memory than every candidate. */
  predicate MemoryTopServed(all: set<Pid>, chosen: set<Pid>, rss: map<Pid, nat>) {
    forall p :: p in all ==> exists q :: q in chosen && RssOf(rss, q) >= RssOf(rss, p)
  }

  /** The processes other than `p` that rank no lower. */
  function Rivals(m: Deltas, p: Pid): set<Pid>
    requires p in m
  {
    set q | q in m && q != p && m[q] >= m[p]
  }

  /** `p` is in every top of `m`, however ties fall: fewer than `cap` others rank as high. */
  predicate Sure(m: Deltas, cap: nat, p: Pid) {
    p in m && |Rivals(m, p)| < cap
  }

  // ---- a top, with or without a given process ----

  lemma {:induction false} HighestIn(m: Deltas, keys: set<Pid>) returns (x: Pid)
    requires keys != {} && keys <= m.Keys
    ensures x in keys && forall q :: q in keys ==> m[x] >= m[q]
  {
    x :| x in keys;
    if keys != {x} {
      var y := HighestIn(m, keys - {x});
      if m[y] > m[x] { x := y; }
    }
  }

  /** `top` is `cap` of the highest among `keys`, or all of them. */
  predicate TopOf(m: Deltas, keys: set<Pid>, cap: nat, top: set<Pid>) {
    && top <= keys <= m.Keys
    && |top| == Min(cap, |keys|)
    && forall p, q :: p in top && q in keys - top ==> m[p] >= m[q]
  }

  lemma {:induction false} SomeTop(m: Deltas, keys: set<Pid>, cap: nat) returns (top: set<Pid>)
    requires keys <= m.Keys
    ensures TopOf(m, keys, cap, top)
    decreases cap
  {
    if cap == 0 || keys == {} {
      top := {};
    } else {
      var x := HighestIn(m, keys);
      var rest := SomeTop(m, keys - {x}, cap - 1);
      top := {x} + rest;
      assert keys - top == (keys - {x}) - rest;
    }
  }

  lemma TopIsTop(m: Deltas, cap: nat, top: set<Pid>)
    requires TopOf(m, m.Keys, cap, top)
    ensures IsTop(m, cap, top)
  {
    assert |m.Keys| == |m|;
  }

  /** A process that is not sure of its place is left out of some top. */
  lemma TopWithout(m: Deltas, cap: nat, p: Pid) returns (top: set<Pid>)
    requires !Sure(m, cap, p)
    ensures IsTop(m, cap, top) && p !in top
  {
    if p !in m {
      top := SomeTop(m, m.Keys, cap);
      TopIsTop(m, cap, top);
    } else {
      var others := m.Keys - {p};
      assert m.Keys == others + {p};
      SubsetSize(Rivals(m, p), others);
      top := SomeTop(m, others, cap);
      forall x | x in top ensures m[x] >= m[p] { TopAreRivals(m, p, top, x, cap); }
      assert m.Keys - top == (others - top) + {p};
      TopIsTop(m, cap, top);
    }
  }

  lemma HigherIsIn(m: Deltas, keys: set<Pid>, cap: nat, top: set<Pid>, x: Pid, q: Pid)
    requires TopOf(m, keys, cap, top) && x in top && q in keys && m[q] > m[x]
    ensures q in top
  {
  }

  /** A top of the others is made of rivals, when there are enough of them. */
  lemma TopAreRivals(m: Deltas, p: Pid, top: set<Pid>, x: Pid, cap: nat)
    requires p in m && |Rivals(m, p)| >= cap && TopOf(m, m.Keys - {p}, cap, top)
    requires x in top
    ensures m[x] >= m[p]
  {
    if m[x] < m[p] {
      forall q | q in Rivals(m, p) ensures q in top - {x} { HigherIsIn(m, m.Keys - {p}, cap, top, x, q); }
      SubsetSize(Rivals(m, p), top - {x});
    }
  }

  lemma SureIsChosen(m: Deltas, cap: nat, p: Pid, top: set<Pid>)
    requires Sure(m, cap, p) && IsTop(m, cap, top)
    ensures p in top
  {
    if p !in top {
      WholeOrCap(m, cap, top, p);
      SubsetSize(top, Rivals(m, p));
    }
  }

  // ---- when a sort by memory is right ----

  lemma AllAreServed(all: set<Pid>, rss: map<Pid, nat>)
    ensures MemoryTopServed(all, all, rss)
  {
    forall p | p in all ensures exists q :: q in all && RssOf(rss, q) >= RssOf(rss, p) {
      assert RssOf(rss, p) >= RssOf(rss, p);
    }
  }

  lemma LeftOutIsNotServed(all: set<Pid>, chosen: set<Pid>, p: Pid)
    requires p in all && p !in chosen
    ensures !MemoryTopServed(all, chosen, map[p := 1])
  {
    forall q | q in chosen ensures RssOf(map[p := 1], q) < RssOf(map[p := 1], p) {}
  }

  /** Whichever tops are chosen, and whatever the memory, the true top by memory is among the candidates. */
  ghost predicate MemoryAlwaysServed(cpu: Deltas, io: Deltas, cap: nat) {
    forall chosen, rss :: Chosen(cpu, io, cap, chosen) ==> MemoryTopServed(cpu.Keys + io.Keys, chosen, rss)
  }

  predicate EveryoneSure(cpu: Deltas, io: Deltas, cap: nat) {
    forall p :: p in cpu.Keys + io.Keys ==> Sure(cpu, cap, p) || Sure(io, cap, p)
  }

  lemma SureAreChosen(cpu: Deltas, io: Deltas, cap: nat, chosen: set<Pid>)
    requires EveryoneSure(cpu, io, cap) && Chosen(cpu, io, cap, chosen)
    ensures chosen == cpu.Keys + io.Keys
  {
    var a, b :| IsTop(cpu, cap, a) && IsTop(io, cap, b) && chosen == a + b;
    TopsHoldAll(cpu, io, cap, a, b);
  }

  lemma TopsHoldAll(cpu: Deltas, io: Deltas, cap: nat, a: set<Pid>, b: set<Pid>)
    requires EveryoneSure(cpu, io, cap) && IsTop(cpu, cap, a) && IsTop(io, cap, b)
    ensures a + b == cpu.Keys + io.Keys
  {
    forall p | p in cpu.Keys + io.Keys ensures p in a + b {
      if Sure(cpu, cap, p) { SureIsChosen(cpu, cap, p, a); } else { SureIsChosen(io, cap, p, b); }
    }
  }

  lemma SureMeansServed(cpu: Deltas, io: Deltas, cap: nat, chosen: set<Pid>, rss: map<Pid, nat>)
    requires EveryoneSure(cpu, io, cap) && Chosen(cpu, io, cap, chosen)
    ensures MemoryTopServed(cpu.Keys + io.Keys, chosen, rss)
  {
    SureAreChosen(cpu, io, cap, chosen);
    AllAreServed(chosen, rss);
  }

  lemma UnsureIsLeftOut(cpu: Deltas, io: Deltas, cap: nat, p: Pid) returns (chosen: set<Pid>)
    requires !Sure(cpu, cap, p) && !Sure(io, cap, p)
    ensures Chosen(cpu, io, cap, chosen) && p !in chosen
  {
    var a := TopWithout(cpu, cap, p);
    var b := TopWithout(io, cap, p);
    chosen := a + b;
  }

  /** A process sure of neither top can be left out by both, and may be the largest. */
  lemma UnsureCanBeMissed(cpu: Deltas, io: Deltas, cap: nat, p: Pid)
    requires p in cpu.Keys + io.Keys && !Sure(cpu, cap, p) && !Sure(io, cap, p)
    ensures !MemoryAlwaysServed(cpu, io, cap)
  {
    var chosen := UnsureIsLeftOut(cpu, io, cap, p);
    LeftOutIsNotServed(cpu.Keys + io.Keys, chosen, p);
  }

  /**
   A sort by memory is sure to show the true top exactly when every process has
   fewer than `cap` others ranking as high by CPU, or by I/O wait.
  */
  lemma MemoryTopIsServedIff(cpu: Deltas, io: Deltas, cap: nat)
    ensures MemoryAlwaysServed(cpu, io, cap) <==> EveryoneSure(cpu, io, cap)
  {
    if EveryoneSure(cpu, io, cap) {
      forall chosen, rss | Chosen(cpu, io, cap, chosen) ensures MemoryTopServed(cpu.Keys + io.Keys, chosen, rss) {
        SureMeansServed(cpu, io, cap, chosen, rss);
      }
    } else {
      var p :| p in cpu.Keys + io.Keys && !(Sure(cpu, cap, p) || Sure(io, cap, p));
      UnsureCanBeMissed(cpu, io, cap, p);
    }
  }

  // ---- what that means for the rows ----

  /** `rows` are the rows of these processes, with their memory, largest first. */
  predicate ByMemory(rows: seq<Process>, pids: set<Pid>, rss: map<Pid, nat>) {
    Elems(RowPids(rows)) == pids && Weighed(rows, rss) && Descending(ByMem, rows)
  }

  lemma RowWeighs(rows: seq<Process>, pids: set<Pid>, rss: map<Pid, nat>, i: nat)
    requires ByMemory(rows, pids, rss) && i < |rows|
    ensures rows[i].pid in pids && Key(ByMem, rows[i]) == RssOf(rss, rows[i].pid) as real
  {
    assert RowPids(rows)[i] in Elems(RowPids(rows));
  }

  lemma RowOf(rows: seq<Process>, pids: set<Pid>, rss: map<Pid, nat>, p: Pid)
    requires ByMemory(rows, pids, rss) && p in pids
    ensures rows != [] && Key(ByMem, rows[0]) >= RssOf(rss, p) as real
  {
    assert p in RowPids(rows);
    var i :| 0 <= i < |rows| && RowPids(rows)[i] == p;
    RowWeighs(rows, pids, rss, i);
  }

  /**
   The first row over the candidates has the memory of the first row over every
   process exactly when that top is served.
  */
  lemma ServedIsFirstRow(all: set<Pid>, chosen: set<Pid>, rss: map<Pid, nat>, short: seq<Process>, full: seq<Process>)
    requires chosen <= all && ByMemory(short, chosen, rss) && ByMemory(full, all, rss) && full != []
    ensures MemoryTopServed(all, chosen, rss) <==> short != [] && Key(ByMem, short[0]) == Key(ByMem, full[0])
  {
    if MemoryTopServed(all, chosen, rss) {
      RowWeighs(full, all, rss, 0);
      var q := ServedBy(all, chosen, rss, full[0].pid);
      ServedShows(all, chosen, rss, short, full, q);
    } else {
      MissedShows(all, chosen, rss, short, full);
    }
  }

  lemma ServedBy(all: set<Pid>, chosen: set<Pid>, rss: map<Pid, nat>, p: Pid) returns (q: Pid)
    requires MemoryTopServed(all, chosen, rss) && p in all
    ensures q in chosen && RssOf(rss, q) >= RssOf(rss, p)
  {
    q :| q in chosen && RssOf(rss, q) >= RssOf(rss, p);
  }

  lemma ServedShows(all: set<Pid>, chosen: set<Pid>, rss: map<Pid, nat>, short: seq<Process>, full: seq<Process>,
                    q: Pid)
    requires chosen <= all && ByMemory(short, chosen, rss) && ByMemory(full, all, rss) && full != []
    requires q in chosen && RssOf(rss, q) >= RssOf(rss, full[0].pid)
    ensures short != [] && Key(ByMem, short[0]) == Key(ByMem, full[0])
  {
    RowWeighs(full, all, rss, 0);
    RowOf(short, chosen, rss, q);
    RowWeighs(short, chosen, rss, 0);
    RowOf(full, all, rss, short[0].pid);
  }

  lemma MissedShows(all: set<Pid>, chosen: set<Pid>, rss: map<Pid, nat>, short: seq<Process>, full: seq<Process>)
    requires ByMemory(short, chosen, rss) && ByMemory(full, all, rss)
    requires !MemoryTopServed(all, chosen, rss)
    ensures full != [] && (short != [] ==> Key(ByMem, short[0]) < Key(ByMem, full[0]))
  {
    var p :| p in all && forall q :: q in chosen ==> RssOf(rss, q) < RssOf(rss, p);
    RowOf(full, all, rss, p);
    if short != [] { RowWeighs(short, chosen, rss, 0); }
  }

  // ---- where it fails ----

  /** Processes 1 to `n`. */
  function UpTo(n: nat): (r: set<Pid>)
    ensures |r| == n && forall q :: q in r <==> 1 <= q <= n
  {
    if n == 0 then {} else UpTo(n - 1) + {n}
  }

  function Everyone(cap: nat): set<Pid> {
    UpTo(cap + 1)
  }

  /** Processes 1 to `cap` busy, and process `cap + 1` less so. */
  function Crowd(cap: nat): Deltas {
    map p | p in Everyone(cap) :: if p == cap + 1 then 1.0 else 2.0
  }

  /**
   At every cap, the collector's among them, there are processes of which a sort
   by memory misses the largest whichever tops are chosen.
  */
  lemma TopMemoryCanBeMissing(cap: nat)
    requires cap > 0
    ensures NonNegative(Crowd(cap)) && 0 !in Crowd(cap) && cap + 1 in Crowd(cap)
    ensures exists chosen :: Chosen(Crowd(cap), map[], cap, chosen)
    ensures forall chosen :: Chosen(Crowd(cap), map[], cap, chosen) ==>
              !MemoryTopServed(Crowd(cap).Keys, chosen, map[cap + 1 := 1])
  {
    var cpu, io: Deltas, least := Crowd(cap), map[], cap + 1;
    var some := SomeChoice(cpu, io, cap);
    forall chosen | Chosen(cpu, io, cap, chosen) ensures !MemoryTopServed(cpu.Keys, chosen, map[least := 1]) {
      var top, none :| IsTop(cpu, cap, top) && IsTop(io, cap, none) && chosen == top + none;
      LeastIsOut(cap, top);
      LeftOutIsNotServed(cpu.Keys, chosen, least);
    }
  }

  /** There is always something to choose. */
  lemma SomeChoice(cpu: Deltas, io: Deltas, cap: nat) returns (chosen: set<Pid>)
    ensures Chosen(cpu, io, cap, chosen)
  {
    var a := SomeTop(cpu, cpu.Keys, cap);
    var b := SomeTop(io, io.Keys, cap);
    TopIsTop(cpu, cap, a);
    TopIsTop(io, cap, b);
    chosen := a + b;
  }

  lemma LeastIsOut(cap: nat, top: set<Pid>)
    requires IsTop(Crowd(cap), cap, top)
    ensures cap + 1 !in top
  {
    var cpu, all, least := Crowd(cap), UpTo(cap + 1), cap + 1;
    assert cpu.Keys == all && |all| == cap + 1;
    if least in top {
      forall q | q in all ensures q in top {
        if q != least { HigherIsIn(cpu, cpu.Keys, cap, top, least, q); }
      }
      SubsetSize(all, top);
    }
  }
}
