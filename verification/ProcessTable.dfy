/**
 The table's ordering, and what the candidate set owes it: sorted by CPU or by
 I/O wait, the candidates show the same leading values as every process would.
*/
module ProcessTable {
  import opened Prelude
  import opened Metrics
  import opened Candidates

  datatype Process = Process(pid: Pid, cpu: real, mem: Option<nat>, io: Option<real>)

  datatype Sort = ByCpu | ByMem | ByIo

  /** The sort key: absent memory or I/O wait ranks as zero. */
  function Key(sort: Sort, p: Process): real {
    match sort
    case ByCpu => p.cpu
    case ByMem => if p.mem.Some? then p.mem.value as real else 0.0
    case ByIo => p.io.GetOr(0.0)
  }

  predicate Descending(sort: Sort, rows: seq<Process>) {
    forall i, j :: 0 <= i < j < |rows| ==> Key(sort, rows[i]) >= Key(sort, rows[j])
  }

  predicate Ascending(sort: Sort, rows: seq<Process>) {
    forall i, j :: 0 <= i < j < |rows| ==> Key(sort, rows[i]) <= Key(sort, rows[j])
  }

  // ---- the rows of a frame ----

  /** After every row with no smaller key: among rows it ties with, last. */
  function Place(sort: Sort, rows: seq<Process>, p: Process): (k: nat)
    requires Descending(sort, rows)
    ensures k <= |rows|
    ensures forall i :: 0 <= i < k ==> Key(sort, rows[i]) >= Key(sort, p)
    ensures forall i :: k <= i < |rows| ==> Key(sort, rows[i]) < Key(sort, p)
  {
    if rows == [] || Key(sort, rows[|rows| - 1]) >= Key(sort, p) then |rows|
    else Place(sort, rows[..|rows| - 1], p)
  }

  function At<T>(s: seq<T>, k: nat, x: T): (r: seq<T>)
    requires k <= |s|
    ensures |r| == |s| + 1
    ensures forall i :: 0 <= i < |r| ==> r[i] == if i < k then s[i] else if i == k then x else s[i - 1]
  {
    s[..k] + [x] + s[k..]
  }

  lemma AtAdds<T>(s: seq<T>, k: nat, x: T)
    requires k <= |s|
    ensures multiset(At(s, k, x)) == multiset(s) + multiset{x}
  {
    assert s == s[..k] + s[k..];
  }

  /** Row `i` is the process at `from[i]`, one of the first `n`. */
  predicate Shows(rows: seq<Process>, from: seq<nat>, processes: seq<Process>, n: nat) {
    && n <= |processes| && |from| == |rows|
    && forall i :: 0 <= i < |from| ==> from[i] < n && rows[i] == processes[from[i]]
  }

  /** By falling key, and by place in the list where keys tie. */
  predicate InOrder(sort: Sort, rows: seq<Process>, from: seq<nat>, i: nat, j: nat)
    requires |from| == |rows| && i < |rows| && j < |rows|
  {
    Key(sort, rows[i]) > Key(sort, rows[j]) || (Key(sort, rows[i]) == Key(sort, rows[j]) && from[i] < from[j])
  }

  predicate Ordered(sort: Sort, rows: seq<Process>, from: seq<nat>)
    requires |from| == |rows|
  {
    forall i, j :: 0 <= i < j < |rows| ==> InOrder(sort, rows, from, i, j)
  }

  /** The rows are the matching processes, each as often as it is listed. */
  ghost predicate Counts(rows: seq<Process>, processes: seq<Process>, matches: Process -> bool) {
    forall p :: multiset(rows)[p] == if matches(p) then multiset(processes)[p] else 0
  }

  lemma {:induction false} InsertOrders(sort: Sort, rows: seq<Process>, from: seq<nat>, p: Process, n: nat)
    requires |from| == |rows| && Ordered(sort, rows, from) && Descending(sort, rows)
    requires forall i :: 0 <= i < |from| ==> from[i] < n
    ensures
      var k := Place(sort, rows, p);
      Ordered(sort, At(rows, k, p), At(from, k, n)) && Descending(sort, At(rows, k, p))
  {
    var k := Place(sort, rows, p);
    forall i, j | 0 <= i < j < |rows| + 1 ensures InOrder(sort, At(rows, k, p), At(from, k, n), i, j) {
      if i != k && j != k { assert InOrder(sort, rows, from, if i < k then i else i - 1, if j < k then j else j - 1); }
    }
  }

  lemma NextCounts(rows: seq<Process>, processes: seq<Process>, n: nat, matches: Process -> bool, k: nat)
    requires n < |processes| && k <= |rows| && Counts(rows, processes[..n], matches)
    ensures matches(processes[n]) ==> Counts(At(rows, k, processes[n]), processes[..n + 1], matches)
    ensures !matches(processes[n]) ==> Counts(rows, processes[..n + 1], matches)
  {
    assert processes[..n + 1] == processes[..n] + [processes[n]];
    AtAdds(rows, k, processes[n]);
  }

  /** The frame of the first `n` processes, largest first. */
  ghost predicate Built(sort: Sort, rows: seq<Process>, from: seq<nat>, processes: seq<Process>, n: nat,
                        matches: Process -> bool)
  {
    Shows(rows, from, processes, n) && Ordered(sort, rows, from) && Descending(sort, rows)
    && Counts(rows, processes[..n], matches)
  }

  lemma InsertShows(rows: seq<Process>, from: seq<nat>, processes: seq<Process>, n: nat, k: nat)
    requires Shows(rows, from, processes, n) && n < |processes| && k <= |rows|
    ensures Shows(rows, from, processes, n + 1) && Shows(At(rows, k, processes[n]), At(from, k, n), processes, n + 1)
  {
  }

  lemma {:induction false} NextBuilt(sort: Sort, rows: seq<Process>, from: seq<nat>, processes: seq<Process>, n: nat,
                  matches: Process -> bool)
    requires n < |processes| && Built(sort, rows, from, processes, n, matches)
    ensures
      var k := Place(sort, rows, processes[n]);
      if matches(processes[n]) then
        Built(sort, At(rows, k, processes[n]), At(from, k, n), processes, n + 1, matches)
      else Built(sort, rows, from, processes, n + 1, matches)
  {
    NextCounts(rows, processes, n, matches, Place(sort, rows, processes[n]));
    InsertShows(rows, from, processes, n, Place(sort, rows, processes[n]));
    InsertOrders(sort, rows, from, processes[n], n);
  }

  lemma {:induction false} TurnedShows(rows: seq<Process>, from: seq<nat>, processes: seq<Process>,
                                       matches: Process -> bool)
    requires Shows(rows, from, processes, |processes|) && Counts(rows, processes, matches)
    ensures Shows(Reverse(rows), Reverse(from), processes, |processes|) && Counts(Reverse(rows), processes, matches)
  {
    ReverseKeeps(rows);
    ReverseKeeps(from);
  }

  lemma {:induction false} TurnedPair(sort: Sort, rows: seq<Process>, from: seq<nat>, i: nat, j: nat)
    requires |from| == |rows| && Ordered(sort, rows, from) && i < j < |rows|
    ensures |Reverse(rows)| == |rows| && |Reverse(from)| == |rows|
    ensures Key(sort, Reverse(rows)[i]) <= Key(sort, Reverse(rows)[j])
    ensures Key(sort, Reverse(rows)[i]) == Key(sort, Reverse(rows)[j]) ==> Reverse(from)[i] > Reverse(from)[j]
  {
    ReverseAt(rows, i);
    ReverseAt(rows, j);
    ReverseAt(from, i);
    ReverseAt(from, j);
    assert InOrder(sort, rows, from, |rows| - 1 - j, |rows| - 1 - i);
  }

  lemma {:induction false} ReverseAt<T>(s: seq<T>, i: nat)
    requires i < |s|
    ensures |Reverse(s)| == |s| && Reverse(s)[i] == s[|s| - 1 - i]
  {
    ReverseKeeps(s);
  }

  lemma TiesInOrder(sort: Sort, rows: seq<Process>, from: seq<nat>)
    requires |from| == |rows| && Ordered(sort, rows, from)
    ensures forall i, j :: 0 <= i < j < |rows| && Key(sort, rows[i]) == Key(sort, rows[j]) ==> from[i] < from[j]
  {
    forall i, j | 0 <= i < j < |rows| && Key(sort, rows[i]) == Key(sort, rows[j]) ensures from[i] < from[j] {
      assert InOrder(sort, rows, from, i, j);
    }
  }

  lemma {:induction false} TurnedOrders(sort: Sort, rows: seq<Process>, from: seq<nat>)
    requires |from| == |rows| && Ordered(sort, rows, from)
    ensures |Reverse(from)| == |Reverse(rows)| && Ascending(sort, Reverse(rows))
    ensures forall i, j :: 0 <= i < j < |Reverse(rows)| ==>
              Key(sort, Reverse(rows)[i]) == Key(sort, Reverse(rows)[j]) ==> Reverse(from)[i] > Reverse(from)[j]
  {
    ReverseKeeps(rows);
    ReverseKeeps(from);
    forall i, j | 0 <= i < j < |Reverse(rows)|
      ensures Key(sort, Reverse(rows)[i]) <= Key(sort, Reverse(rows)[j])
      ensures Key(sort, Reverse(rows)[i]) == Key(sort, Reverse(rows)[j]) ==> Reverse(from)[i] > Reverse(from)[j]
    {
      TurnedPair(sort, rows, from, i, j);
    }
  }

  /**
   The rows of a frame: the processes that match, each as often as it is listed,
   ordered by the active column, largest first unless reversed. `from` says where each
   row stands in the list: ties keep its order, or turn it round with everything else.
  */
  method Visible(processes: seq<Process>, sort: Sort, descending: bool, matches: Process -> bool)
    returns (rows: seq<Process>, ghost from: seq<nat>)
    ensures forall p :: multiset(rows)[p] == if matches(p) then multiset(processes)[p] else 0
    ensures |from| == |rows| && forall i :: 0 <= i < |rows| ==> from[i] < |processes| && rows[i] == processes[from[i]]
    ensures if descending then Descending(sort, rows) else Ascending(sort, rows)
    ensures forall i, j :: 0 <= i < j < |rows| && Key(sort, rows[i]) == Key(sort, rows[j]) ==>
              if descending then from[i] < from[j] else from[i] > from[j]
  {
    rows, from := [], [];
    for n := 0 to |processes|
      invariant Built(sort, rows, from, processes, n, matches)
    {
      NextBuilt(sort, rows, from, processes, n, matches);
      if matches(processes[n]) {
        var k := Place(sort, rows, processes[n]);
        rows, from := At(rows, k, processes[n]), At(from, k, n);
      }
    }
    assert processes[..|processes|] == processes;
    TiesInOrder(sort, rows, from);
    if !descending {
      TurnedShows(rows, from, processes, matches);
      TurnedOrders(sort, rows, from);
      rows, from := Reverse(rows), Reverse(from);
    }
  }

  function Reverse<T>(s: seq<T>): seq<T> {
    if s == [] then [] else [s[|s| - 1]] + Reverse(s[..|s| - 1])
  }

  lemma {:induction false} ReverseKeeps<T>(s: seq<T>)
    ensures |Reverse(s)| == |s| && multiset(Reverse(s)) == multiset(s)
    ensures forall i :: 0 <= i < |s| ==> Reverse(s)[i] == s[|s| - 1 - i]
  {
    if s != [] {
      ReverseKeeps(s[..|s| - 1]);
      assert s == s[..|s| - 1] + [s[|s| - 1]];
    }
  }

  /** Absent memory and absent I/O wait rank as zero. */
  lemma AbsentRanksAsZero(p: Process)
    ensures Key(ByCpu, p) == p.cpu
    ensures p.mem == None ==> Key(ByMem, p) == 0.0
    ensures p.io == None ==> Key(ByIo, p) == 0.0
  {
  }

  // ---- rankings ----

  /** `rows` lists the members of `all` once each, by falling value. */
  predicate Ranking(rows: seq<Pid>, all: set<Pid>, value: Pid -> real) {
    && NoDup(rows) && Elems(rows) == all
    && forall i, j :: 0 <= i < j < |rows| ==> value(rows[i]) >= value(rows[j])
  }

  function AtLeast(all: set<Pid>, value: Pid -> real, x: real): set<Pid> {
    set p | p in all && value(p) >= x
  }

  function Above(all: set<Pid>, value: Pid -> real, x: real): set<Pid> {
    set p | p in all && value(p) > x
  }

  lemma RankCounts(rows: seq<Pid>, all: set<Pid>, value: Pid -> real, i: nat)
    requires Ranking(rows, all, value) && i < |rows|
    ensures |AtLeast(all, value, value(rows[i]))| >= i + 1
    ensures |Above(all, value, value(rows[i]))| <= i
  {
    var x := value(rows[i]);
    ElemsSize(rows[..i + 1]);
    ElemsSize(rows[..i]);
    forall p | p in Elems(rows[..i + 1]) ensures p in AtLeast(all, value, x) {
      var j :| 0 <= j < i + 1 && rows[..i + 1][j] == p;
      assert rows[j] in Elems(rows);
    }
    SubsetSize(Elems(rows[..i + 1]), AtLeast(all, value, x));
    forall p | p in Above(all, value, x) ensures p in Elems(rows[..i]) {
      assert p in Elems(rows);
      var j :| 0 <= j < |rows| && rows[j] == p;
      assert j < i;
      assert rows[..i][j] == p;
    }
    SubsetSize(Above(all, value, x), Elems(rows[..i]));
  }

  /** Anything left out of `some` is matched or beaten by at least `k` of its members. */
  predicate Covers(some: set<Pid>, all: set<Pid>, value: Pid -> real, k: nat) {
    && some <= all
    && forall p :: p in all - some ==> |AtLeast(some, value, value(p))| >= k
  }

  lemma TopAgrees(some: set<Pid>, all: set<Pid>, value: Pid -> real, k: nat, short: seq<Pid>, full: seq<Pid>, i: nat)
    requires Covers(some, all, value, k) && k <= |all| && i < k
    requires Ranking(short, some, value) && Ranking(full, all, value)
    ensures i < |short| && i < |full| && value(short[i]) == value(full[i])
  {
    ElemsSize(short);
    ElemsSize(full);
    if some != all {
      var p :| p in all - some;
      SubsetSize(AtLeast(some, value, value(p)), some);
    }
    RankCounts(short, some, value, i);
    RankCounts(full, all, value, i);
    var x, y := value(short[i]), value(full[i]);
    if x > y {
      SubsetSize(AtLeast(some, value, x), Above(all, value, y));
    } else if x < y {
      var reach := AtLeast(all, value, y);
      if forall p :: p in reach ==> p in some {
        SubsetSize(reach, Above(some, value, x));
      } else {
        var p :| p in reach && p !in some;
        SubsetSize(AtLeast(some, value, value(p)), Above(some, value, x));
      }
    }
  }

  // ---- the candidates ----

  predicate NonNegative(m: Deltas) {
    forall p :: p in m ==> m[p] >= 0.0
  }

  /** A top of `m`, with a top of the other metric beside it, covers everything either metric lists. */
  lemma TopsCover(m: Deltas, other: Deltas, cap: nat, top: set<Pid>, otherTop: set<Pid>)
    requires NonNegative(m) && IsTop(m, cap, top) && IsTop(other, cap, otherTop)
    ensures Covers(top + otherTop, m.Keys + other.Keys, ValueIn(m), cap)
  {
    var some, value := top + otherTop, ValueIn(m);
    forall p | p in m.Keys + other.Keys - some
      ensures |AtLeast(some, value, value(p))| >= cap
    {
      if p in m {
        WholeOrCap(m, cap, top, p);
        SubsetSize(top, AtLeast(some, value, value(p)));
      } else {
        WholeOrCap(other, cap, otherTop, p);
        SubsetSize(otherTop, AtLeast(some, value, value(p)));
      }
    }
  }

  lemma WholeOrCap(m: Deltas, cap: nat, top: set<Pid>, p: Pid)
    requires IsTop(m, cap, top) && p in m && p !in top
    ensures |top| == cap
  {
    if |top| == |m| {
      SubsetSize(top, m.Keys - {p});
    }
  }

  lemma CoversLess(some: set<Pid>, all: set<Pid>, value: Pid -> real, k: nat, cap: nat)
    requires Covers(some, all, value, cap) && k <= cap
    ensures Covers(some, all, value, k)
  {
  }

  /** The rows of some processes, as the collector fills them in. */
  predicate Enriched(rows: seq<Process>, cpu: Deltas, io: Deltas) {
    forall i :: 0 <= i < |rows| ==>
      && rows[i].cpu == (if rows[i].pid in cpu then cpu[rows[i].pid] else 0.0)
      && rows[i].io == (if rows[i].pid in io then Some(io[rows[i].pid]) else None)
  }

  /** Each row carries its process's memory, if there is any to report. */
  predicate Weighed(rows: seq<Process>, rss: map<Pid, nat>) {
    forall i :: 0 <= i < |rows| ==> rows[i].mem == if rows[i].pid in rss then Some(rss[rows[i].pid]) else None
  }

  function RowPids(rows: seq<Process>): seq<Pid> {
    seq(|rows|, i requires 0 <= i < |rows| => rows[i].pid)
  }

  /**
   Whatever metric the table sorts by, CPU or I/O wait, its first `k` values over
   the candidates are its first `k` values over every process.
  */
  lemma CandidatesShowTheTop(cpu: Deltas, io: Deltas, cap: nat, chosen: set<Pid>, sort: Sort, k: nat,
                             short: seq<Process>, full: seq<Process>, i: nat)
    requires NonNegative(cpu) && NonNegative(io) && Chosen(cpu, io, cap, chosen)
    requires sort != ByMem && k <= cap && k <= |cpu.Keys + io.Keys| && i < k
    requires Enriched(short, cpu, io) && Enriched(full, cpu, io)
    requires NoDup(RowPids(short)) && Elems(RowPids(short)) == chosen && Descending(sort, short)
    requires NoDup(RowPids(full)) && Elems(RowPids(full)) == cpu.Keys + io.Keys && Descending(sort, full)
    ensures i < |short| && i < |full| && Key(sort, short[i]) == Key(sort, full[i])
  {
    var a, b :| IsTop(cpu, cap, a) && IsTop(io, cap, b) && chosen == a + b;
    RowsRank(cpu, io, sort, short, chosen);
    RowsRank(cpu, io, sort, full, cpu.Keys + io.Keys);
    PidsShowTheTop(cpu, io, cap, a, b, chosen, sort, k, RowPids(short), RowPids(full), i);
  }

  lemma PidsShowTheTop(cpu: Deltas, io: Deltas, cap: nat, a: set<Pid>, b: set<Pid>, chosen: set<Pid>, sort: Sort,
                       k: nat, short: seq<Pid>, full: seq<Pid>, i: nat)
    requires NonNegative(cpu) && NonNegative(io) && IsTop(cpu, cap, a) && IsTop(io, cap, b) && chosen == a + b
    requires k <= cap && k <= |cpu.Keys + io.Keys| && i < k
    requires Ranking(short, chosen, ValueIn(if sort == ByCpu then cpu else io))
    requires Ranking(full, cpu.Keys + io.Keys, ValueIn(if sort == ByCpu then cpu else io))
    ensures i < |short| && i < |full|
    ensures ValueIn(if sort == ByCpu then cpu else io)(short[i]) == ValueIn(if sort == ByCpu then cpu else io)(full[i])
  {
    var all := cpu.Keys + io.Keys;
    if sort == ByCpu {
      TopAgreesBy(cpu, io, cap, a, b, chosen, all, k, short, full, i);
    } else {
      assert b + a == chosen && io.Keys + cpu.Keys == all;
      TopAgreesBy(io, cpu, cap, b, a, chosen, all, k, short, full, i);
    }
  }

  lemma TopAgreesBy(m: Deltas, other: Deltas, cap: nat, top: set<Pid>, rest: set<Pid>, chosen: set<Pid>, all: set<Pid>,
                    k: nat, short: seq<Pid>, full: seq<Pid>, i: nat)
    requires NonNegative(m) && IsTop(m, cap, top) && IsTop(other, cap, rest)
    requires chosen == top + rest && all == m.Keys + other.Keys
    requires k <= cap && k <= |all| && i < k
    requires Ranking(short, chosen, ValueIn(m)) && Ranking(full, all, ValueIn(m))
    ensures i < |short| && i < |full| && ValueIn(m)(short[i]) == ValueIn(m)(full[i])
  {
    TopsCover(m, other, cap, top, rest);
    CoversLess(chosen, all, ValueIn(m), k, cap);
    TopAgrees(chosen, all, ValueIn(m), k, short, full, i);
  }

  lemma RowsRank(cpu: Deltas, io: Deltas, sort: Sort, rows: seq<Process>, all: set<Pid>)
    requires sort != ByMem && Enriched(rows, cpu, io)
    requires NoDup(RowPids(rows)) && Elems(RowPids(rows)) == all && Descending(sort, rows)
    ensures Ranking(RowPids(rows), all, ValueIn(if sort == ByCpu then cpu else io))
    ensures forall i :: 0 <= i < |rows| ==>
              Key(sort, rows[i]) == ValueIn(if sort == ByCpu then cpu else io)(RowPids(rows)[i])
  {
  }
}
