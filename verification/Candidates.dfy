/**
 Choosing which processes to enrich. Truncating to the top of each metric and
 sorting what is left must show the same top rows as sorting everything.
*/
module Candidates {
  import opened Prelude
  import opened Metrics

  // ---- select_nth_unstable_by ----

  /** Everything before the cut ranks no lower than everything after it. */
  predicate Cut(s: seq<(Pid, real)>, at: nat) {
    forall i, j :: 0 <= i < at <= j < |s| ==> s[i].1 >= s[j].1
  }

  /** The two differ only by a rearrangement inside [lo, hi). */
  predicate Shuffled(s: seq<(Pid, real)>, t: seq<(Pid, real)>, lo: nat, hi: nat) {
    && lo <= hi <= |s| == |t|
    && s[..lo] == t[..lo] && s[hi..] == t[hi..]
    && multiset(s[lo..hi]) == multiset(t[lo..hi])
  }

  lemma SwapShuffles(orig: seq<(Pid, real)>, s: seq<(Pid, real)>, lo: nat, hi: nat, i: nat, j: nat)
    requires Shuffled(orig, s, lo, hi) && lo <= i < hi && lo <= j < hi
    ensures Shuffled(orig, s[i := s[j]][j := s[i]], lo, hi)
  {
    var r := s[lo..hi];
    var t := s[i := s[j]][j := s[i]];
    assert t[lo..hi] == r[i - lo := r[j - lo]][j - lo := r[i - lo]];
    assert t[..lo] == s[..lo] && t[hi..] == s[hi..];
  }

  method Swap(a: array<(Pid, real)>, i: nat, j: nat, ghost orig: seq<(Pid, real)>, ghost lo: nat, ghost hi: nat)
    requires Shuffled(orig, a[..], lo, hi) && lo <= i < hi && lo <= j < hi
    modifies a
    ensures Shuffled(orig, a[..], lo, hi)
    ensures a[i] == old(a[j]) && a[j] == old(a[i])
    ensures forall k :: 0 <= k < a.Length && k != i && k != j ==> a[k] == old(a[k])
  {
    SwapShuffles(orig, a[..], lo, hi, i, j);
    ghost var s := a[..];
    a[i], a[j] := a[j], a[i];
    assert a[..] == s[i := s[j]][j := s[i]];
  }

  lemma ThreeParts<T>(s: seq<T>, lo: nat, hi: nat)
    requires lo <= hi <= |s|
    ensures s == s[..lo] + s[lo..hi] + s[hi..]
  {
  }

  lemma ShuffleKeepsCuts(s: seq<(Pid, real)>, t: seq<(Pid, real)>, lo: nat, hi: nat)
    requires Shuffled(s, t, lo, hi) && Cut(s, lo) && Cut(s, hi)
    ensures multiset(t) == multiset(s) && Cut(t, lo) && Cut(t, hi)
  {
    ThreeParts(s, lo, hi);
    ThreeParts(t, lo, hi);
    forall k | lo <= k < hi
      ensures exists l :: lo <= l < hi && t[k] == s[l]
    {
      assert t[lo..hi][k - lo] in multiset(s[lo..hi]);
      var l :| 0 <= l < hi - lo && s[lo..hi][l] == t[k];
      assert s[lo + l] == t[k];
    }
    forall k | 0 <= k < |s| && !(lo <= k < hi) ensures t[k] == s[k] {
      if k < lo { assert s[..lo][k] == t[..lo][k]; } else { assert s[hi..][k - hi] == t[hi..][k - hi]; }
    }
  }

  /** Three-way partition of [lo, hi) about one of its values: above it, equal to it, below it. */
  method Partition(a: array<(Pid, real)>, lo: nat, hi: nat) returns (gt: nat, lt: nat, pivot: real)
    requires lo < hi <= a.Length
    modifies a
    ensures Shuffled(old(a[..]), a[..], lo, hi)
    ensures lo <= gt < lt <= hi
    ensures forall k :: lo <= k < gt ==> a[k].1 > pivot
    ensures forall k :: gt <= k < lt ==> a[k].1 == pivot
    ensures forall k :: lt <= k < hi ==> a[k].1 < pivot
  {
    ghost var orig := a[..];
    ghost var seen := lo + (hi - lo) / 2;
    pivot := a[lo + (hi - lo) / 2].1;
    var i := lo;
    gt, lt := lo, hi;
    while i < lt
      invariant lo <= gt <= i <= lt <= hi
      invariant Shuffled(orig, a[..], lo, hi)
      invariant forall k :: lo <= k < gt ==> a[k].1 > pivot
      invariant forall k :: gt <= k < i ==> a[k].1 == pivot
      invariant forall k :: lt <= k < hi ==> a[k].1 < pivot
      invariant gt <= seen < lt && a[seen].1 == pivot
      decreases lt - i
    {
      if a[i].1 > pivot {
        if seen == gt { seen := i; }
        Swap(a, gt, i, orig, lo, hi);
        gt, i := gt + 1, i + 1;
      } else if a[i].1 < pivot {
        if seen == lt - 1 { seen := i; }
        lt := lt - 1;
        Swap(a, i, lt, orig, lo, hi);
      } else {
        i := i + 1;
      }
    }
  }

  /** Quickselect, descending: afterwards position `nth` splits the array into its higher and lower parts. */
  method SelectNth(a: array<(Pid, real)>, nth: nat)
    requires nth < a.Length
    modifies a
    ensures multiset(a[..]) == multiset(old(a[..]))
    ensures Cut(a[..], nth) && Cut(a[..], nth + 1)
  {
    var lo, hi := 0, a.Length;
    while hi - lo > 1
      invariant 0 <= lo <= nth < hi <= a.Length
      invariant multiset(a[..]) == multiset(old(a[..]))
      invariant Cut(a[..], lo) && Cut(a[..], hi)
      decreases hi - lo
    {
      ghost var before := a[..];
      var gt, lt, pivot := Partition(a, lo, hi);
      ShuffleKeepsCuts(before, a[..], lo, hi);
      if nth < gt {
        hi := gt;
      } else if nth >= lt {
        lo := lt;
      } else {
        return;
      }
    }
  }

  // ---- top_pids and select_candidates ----

  function Elems<T>(s: seq<T>): set<T> {
    set x | x in s
  }

  predicate NoDup<T(==)>(s: seq<T>) {
    forall i, j :: 0 <= i < j < |s| ==> s[i] != s[j]
  }

  function Min(a: nat, b: nat): nat {
    if a < b then a else b
  }

  /** `top` is `cap` of the highest-valued processes, or all of them when there are fewer. */
  predicate IsTop(values: Deltas, cap: nat, top: set<Pid>) {
    && top <= values.Keys
    && |top| == Min(cap, |values|)
    && forall p, q :: p in top && q in values.Keys - top ==> values[p] >= values[q]
  }

  lemma {:induction false} ElemsSize<T>(s: seq<T>)
    requires NoDup(s)
    ensures |Elems(s)| == |s|
  {
    if s != [] {
      var init, last := s[..|s| - 1], s[|s| - 1];
      assert s == init + [last];
      ElemsSize(init);
      assert last !in Elems(init);
      assert Elems(s) == Elems(init) + {last};
    }
  }

  function Pids(ranked: seq<(Pid, real)>): seq<Pid> {
    seq(|ranked|, i requires 0 <= i < |ranked| => ranked[i].0)
  }

  /** The map's entries for some of its keys, each once. */
  function Entries(values: Deltas, keys: set<Pid>): set<(Pid, real)>
    requires keys <= values.Keys
  {
    set p | p in keys :: (p, values[p])
  }

  /** The map's entries in whatever order it yields them. */
  method Collect(values: Deltas) returns (ranked: seq<(Pid, real)>)
    ensures multiset(ranked) == multiset(Entries(values, values.Keys))
  {
    ranked := [];
    var rest := values.Keys;
    while rest != {}
      invariant rest <= values.Keys
      invariant multiset(ranked) == multiset(Entries(values, values.Keys - rest))
      decreases rest
    {
      var pid :| pid in rest;
      assert Entries(values, values.Keys - (rest - {pid}))
          == Entries(values, values.Keys - rest) + {(pid, values[pid])};
      assert (pid, values[pid]) !in Entries(values, values.Keys - rest);
      ranked := ranked + [(pid, values[pid])];
      rest := rest - {pid};
    }
    assert values.Keys - rest == values.Keys;
  }

  lemma Twice<T>(s: seq<T>, i: nat, j: nat)
    requires i < j < |s| && s[i] == s[j]
    ensures multiset(s)[s[i]] >= 2
  {
    assert s == s[..j] + [s[j]] + s[j + 1..];
    assert s[i] in s[..j];
  }

  /** Any arrangement of the entries lists every process once, with its value. */
  lemma ArrangementOfEntries(values: Deltas, s: seq<(Pid, real)>)
    requires multiset(s) == multiset(Entries(values, values.Keys))
    ensures NoDup(Pids(s)) && Elems(Pids(s)) == values.Keys && |s| == |values|
    ensures forall i :: 0 <= i < |s| ==> s[i].0 in values && s[i].1 == values[s[i].0]
  {
    forall i | 0 <= i < |s| ensures s[i].0 in values && s[i].1 == values[s[i].0] {
      assert s[i] in multiset(s);
    }
    forall i, j | 0 <= i < j < |s| ensures s[i].0 != s[j].0 {
      if s[i] == s[j] { Twice(s, i, j); }
    }
    forall p | p in values ensures p in Elems(Pids(s)) {
      assert (p, values[p]) in multiset(s);
      var i :| 0 <= i < |s| && s[i] == (p, values[p]);
      assert Pids(s)[i] == p;
    }
    ElemsSize(Pids(s));
    assert Elems(Pids(s)) == values.Keys;
  }

  method TopPids(values: Deltas, cap: nat) returns (pids: seq<Pid>)
    ensures NoDup(pids) && IsTop(values, cap, Elems(pids))
  {
    var ranked := Collect(values);
    ArrangementOfEntries(values, ranked);
    if |ranked| > cap {
      var a := new (Pid, real)[|ranked|](i requires 0 <= i < |ranked| => ranked[i]);
      assert a[..] == ranked;
      SelectNth(a, cap);
      ranked := a[..cap];
      ArrangementOfEntries(values, a[..]);
      TruncationIsTop(values, a[..], cap);
    }
    pids := Pids(ranked);
  }

  lemma TruncationIsTop(values: Deltas, s: seq<(Pid, real)>, cap: nat)
    requires cap < |s| == |values| && Cut(s, cap) && NoDup(Pids(s)) && Elems(Pids(s)) == values.Keys
    requires forall i :: 0 <= i < |s| ==> s[i].0 in values && s[i].1 == values[s[i].0]
    ensures NoDup(Pids(s[..cap])) && IsTop(values, cap, Elems(Pids(s[..cap])))
  {
    var top := Pids(s[..cap]);
    assert top == Pids(s)[..cap];
    ElemsSize(top);
    forall p | p in top ensures p in values { assert p in Pids(s); }
    forall p, q | p in Elems(top) && q in values.Keys - Elems(top)
      ensures values[p] >= values[q]
    {
      var i :| 0 <= i < cap && top[i] == p;
      var j :| 0 <= j < |s| && Pids(s)[j] == q;
      assert forall k :: 0 <= k < cap ==> Pids(s)[k] == top[k] && top[k] in Elems(top);
      assert s[i].1 >= s[j].1;
    }
  }

  /** A set's elements in its own order. */
  method ToSeq(chosen: set<Pid>) returns (pids: seq<Pid>)
    ensures NoDup(pids) && Elems(pids) == chosen
  {
    pids := [];
    var rest := chosen;
    while rest != {}
      invariant rest <= chosen && NoDup(pids) && Elems(pids) == chosen - rest
      decreases rest
    {
      var pid :| pid in rest;
      assert pid !in Elems(pids);
      assert Elems(pids + [pid]) == Elems(pids) + {pid};
      pids := pids + [pid];
      rest := rest - {pid};
    }
  }

  /** `chosen` is the union of a top of each metric. */
  ghost predicate Chosen(cpu: Deltas, io: Deltas, cap: nat, chosen: set<Pid>) {
    exists a, b :: IsTop(cpu, cap, a) && IsTop(io, cap, b) && chosen == a + b
  }

  /** When neither metric lists more than `cap`, nobody is dropped. */
  lemma AllAreChosen(cpu: Deltas, io: Deltas, cap: nat, chosen: set<Pid>)
    requires Chosen(cpu, io, cap, chosen) && |cpu| <= cap && |io| <= cap
    ensures chosen == cpu.Keys + io.Keys
  {
    var a, b :| IsTop(cpu, cap, a) && IsTop(io, cap, b) && chosen == a + b;
    WholeTop(cpu, cap, a);
    WholeTop(io, cap, b);
  }

  lemma WholeTop(values: Deltas, cap: nat, top: set<Pid>)
    requires IsTop(values, cap, top) && |values| <= cap
    ensures top == values.Keys
  {
    if p :| p in values.Keys && p !in top { SubsetSize(top, values.Keys - {p}); }
  }

  method SelectCandidates(cpu: Deltas, io: Deltas, cap: nat) returns (pids: seq<Pid>)
    ensures NoDup(pids) && |pids| <= 2 * cap && Chosen(cpu, io, cap, Elems(pids))
  {
    var topCpu := TopPids(cpu, cap);
    var topIo := TopPids(io, cap);
    pids := ToSeq(Elems(topCpu) + Elems(topIo));
    ElemsSize(pids);
    UnionSize(Elems(topCpu), Elems(topIo));
  }

  lemma UnionSize<T>(a: set<T>, b: set<T>)
    ensures |a + b| <= |a| + |b|
  {
    assert a + b == a + (b - a);
    SubsetSize(b - a, b);
  }
}
