/**
 The batched read of a per-CPU hash map: a kernel call that copies whole buckets
 into fixed scratch arrays, and the loop that drives it to the end and sums.
*/
module Batch {
  import opened Prelude
  import opened Kernel

  const BATCH: nat := 4096

  const TWO_TO_THE_64: nat := U64_MAX + 1

  /** A key of the map and its value on every possible CPU. */
  datatype Row = Row(key: Pid, slots: seq<nat>)

  /** The kernel's hash map: its buckets, in the order the cursor visits them. */
  type Table = seq<seq<Row>>

  /** The rows of buckets [a, b), in order. */
  function RowsOf(t: Table, a: nat, b: nat): seq<Row>
    requires a <= b <= |t|
  {
    if a == b then [] else RowsOf(t, a, b - 1) + t[b - 1]
  }

  predicate DistinctKeys(rows: seq<Row>) {
    forall i, j :: 0 <= i < j < |rows| ==> rows[i].key != rows[j].key
  }

  predicate TableOk(t: Table, nrCpus: nat) {
    && (forall b, i :: 0 <= b < |t| && 0 <= i < |t[b]| ==> |t[b][i].slots| == nrCpus)
    && DistinctKeys(RowsOf(t, 0, |t|))
  }

  /** The bucket layout `t` holds exactly the entries of `m`. */
  ghost predicate Represents(t: Table, m: PerCpu) {
    var rows := RowsOf(t, 0, |t|);
    && (forall i :: 0 <= i < |rows| ==> rows[i].key in m && m[rows[i].key] == rows[i].slots)
    && (forall k :: k in m ==> exists i :: 0 <= i < |rows| && rows[i].key == k)
  }

  predicate EveryBucketFits(t: Table) {
    forall b :: 0 <= b < |t| ==> |t[b]| <= 4096
  }

  lemma {:induction false} RowsSplit(t: Table, a: nat, b: nat, d: nat)
    requires a <= b <= d <= |t|
    ensures RowsOf(t, a, d) == RowsOf(t, a, b) + RowsOf(t, b, d)
  {
    if b < d { RowsSplit(t, a, b, d - 1); }
  }

  lemma RowsFront(t: Table, a: nat, b: nat)
    requires a < b <= |t|
    ensures RowsOf(t, a, b) == t[a] + RowsOf(t, a + 1, b)
  {
    RowsSplit(t, a, a + 1, b);
    assert RowsOf(t, a, a + 1) == RowsOf(t, a, a) + t[a];
  }

  lemma {:induction false} RowsWide(t: Table, a: nat, b: nat, n: nat)
    requires a <= b <= |t|
    requires forall b, i :: 0 <= b < |t| && 0 <= i < |t[b]| ==> |t[b][i].slots| == n
    ensures forall i :: 0 <= i < |RowsOf(t, a, b)| ==> |RowsOf(t, a, b)[i].slots| == n
  {
    if a < b { RowsWide(t, a, b - 1, n); }
  }

  // ---- the kernel's side of one call ----

  /** Where a call from bucket `b` with `room` rows of buffer left stops: at a bucket that does not fit, or the end. */
  function StopAt(t: Table, b: nat, room: nat): (stop: nat)
    requires b <= |t|
    ensures b <= stop <= |t|
    ensures |RowsOf(t, b, stop)| <= room
    ensures stop < |t| ==> |RowsOf(t, b, stop)| + |t[stop]| > room
    ensures forall k :: b <= k < stop ==> |t[k]| <= room
    decreases |t| - b
  {
    if b == |t| || |t[b]| > room then b
    else
      var stop := StopAt(t, b + 1, room - |t[b]|);
      assert |RowsOf(t, b, stop)| == |t[b]| + |RowsOf(t, b + 1, stop)| by { RowsFront(t, b, stop); }
      stop
  }

  lemma StopStep(t: Table, b: nat, room: nat)
    requires b < |t| && |t[b]| <= room
    ensures StopAt(t, b, room) == StopAt(t, b + 1, room - |t[b]|)
  {
  }

  /** The opaque token: NULL until a first call has been made. */
  datatype Cursor = Cursor(token: nat, started: bool)

  function Position(cursor: Cursor): nat {
    if cursor.started then cursor.token else 0
  }

  // ---- what user space makes of the rows ----

  /** A `u64` sum, as a release build adds. */
  function WrappingSum(slots: seq<nat>): (r: nat)
    ensures r < 0x1_0000_0000_0000_0000 && (SeqSum(slots) - r) % 0x1_0000_0000_0000_0000 == 0
  {
    SeqSum(slots) % TWO_TO_THE_64
  }

  function FoldRows(totals: map<Pid, nat>, rows: seq<Row>): map<Pid, nat> {
    if rows == [] then totals
    else
      var last := rows[|rows| - 1];
      FoldRows(totals, rows[..|rows| - 1])[last.key := WrappingSum(last.slots)]
  }

  lemma {:induction false} FoldRowsAppend(totals: map<Pid, nat>, a: seq<Row>, b: seq<Row>)
    ensures FoldRows(totals, a + b) == FoldRows(FoldRows(totals, a), b)
  {
    if b == [] {
      assert a + b == a;
    } else {
      assert (a + b)[..|a + b| - 1] == a + b[..|b| - 1];
      FoldRowsAppend(totals, a, b[..|b| - 1]);
    }
  }

  lemma {:induction false} FoldRowsNext(totals: map<Pid, nat>, rows: seq<Row>, i: nat)
    requires i < |rows|
    ensures FoldRows(totals, rows[..i + 1]) == FoldRows(totals, rows[..i])[rows[i].key := WrappingSum(rows[i].slots)]
  {
    assert rows[..i + 1][..i] == rows[..i];
  }

  /** With distinct keys, folding gives every key the sum of its own slots and no other key anything. */
  lemma {:induction false} FoldSumsEachKey(rows: seq<Row>)
    requires DistinctKeys(rows)
    ensures forall k :: k in FoldRows(map[], rows) <==> exists i :: 0 <= i < |rows| && rows[i].key == k
    ensures forall i :: 0 <= i < |rows| ==> FoldRows(map[], rows)[rows[i].key] == WrappingSum(rows[i].slots)
  {
    if rows != [] {
      var init := rows[..|rows| - 1];
      FoldSumsEachKey(init);
      assert rows[|rows| - 1].key in FoldRows(map[], rows);
      forall k | k in FoldRows(map[], rows) ensures exists i :: 0 <= i < |rows| && rows[i].key == k {
        if k in FoldRows(map[], init) {
          var i :| 0 <= i < |init| && init[i].key == k;
          assert rows[i].key == k;
        }
      }
      forall i | 0 <= i < |rows|
        ensures rows[i].key in FoldRows(map[], rows)
        ensures FoldRows(map[], rows)[rows[i].key] == WrappingSum(rows[i].slots)
      {
        if i < |init| { assert init[i] == rows[i]; }
      }
    }
  }

  /** The plain reading: each key of the map with the sum of its slots. */
  function PlainTotals(m: PerCpu): map<Pid, nat> {
    map k | k in m :: WrappingSum(m[k])
  }

  lemma {:induction false} DoesNotWrap(slots: seq<nat>)
    requires SeqSum(slots) <= U64_MAX
    ensures WrappingSum(slots) == SeqSum(slots)
  {
  }

  lemma PlainIsExact(ns: PerCpu)
    requires SumsFit(ns)
    ensures PlainTotals(ns) == map g | g in ns :: Total(ns, g)
  {
    forall g | g in ns ensures PlainTotals(ns)[g] == Total(ns, g) { DoesNotWrap(ns[g]); }
  }

  /** A map that gives every key the sum of its own row, and holds no other key, is the plain one. */
  lemma SumsArePlain(folded: map<Pid, nat>, rows: seq<Row>, m: PerCpu)
    requires forall k :: k in folded <==> exists i :: 0 <= i < |rows| && rows[i].key == k
    requires forall i :: 0 <= i < |rows| ==> folded[rows[i].key] == WrappingSum(rows[i].slots)
    requires forall i :: 0 <= i < |rows| ==> rows[i].key in m && m[rows[i].key] == rows[i].slots
    requires forall k :: k in m ==> exists i :: 0 <= i < |rows| && rows[i].key == k
    ensures folded == PlainTotals(m)
  {
    forall k | k in m ensures k in folded && folded[k] == WrappingSum(m[k]) {
      var i :| 0 <= i < |rows| && rows[i].key == k;
    }
    assert folded.Keys == PlainTotals(m).Keys;
  }

  /** No sum of a `u64` row wraps. */
  ghost predicate SumsFit(ns: PerCpu) {
    forall g :: g in ns ==> SeqSum(ns[g]) <= U64_MAX
  }

  lemma {:induction false} FoldIsPlain(t: Table, m: PerCpu)
    requires DistinctKeys(RowsOf(t, 0, |t|)) && Represents(t, m)
    ensures FoldRows(map[], RowsOf(t, 0, |t|)) == PlainTotals(m)
  {
    var rows := RowsOf(t, 0, |t|);
    FoldSumsEachKey(rows);
    SumsArePlain(FoldRows(map[], rows), rows, m);
  }

  /** Scratch row `i`: key and slots, row-major. */
  predicate HoldsRow(keys: seq<Pid>, values: seq<nat>, n: nat, i: nat, row: Row) {
    && i < |keys| && (i + 1) * n <= |values|
    && keys[i] == row.key
    && i * n <= (i + 1) * n && values[i * n..(i + 1) * n] == row.slots
  }

  /** The first rows of the scratch arrays; what lies beyond is stale. */
  predicate Holds(keys: seq<Pid>, values: seq<nat>, n: nat, rows: seq<Row>) {
    forall i :: 0 <= i < |rows| ==> HoldsRow(keys, values, n, i, rows[i])
  }

  lemma Stride(i: nat, j: nat, n: nat)
    requires i < j
    ensures (i + 1) * n <= j * n && (i + 1) * n == i * n + n
  {
  }

  /** A row written behind the others, leaving what is below it alone. */
  lemma RowAdded(keys: seq<Pid>, values: seq<nat>, keys': seq<Pid>, values': seq<nat>, n: nat,
                 rows: seq<Row>, row: Row, base: nat)
    requires Holds(keys, values, n, rows) && base == |rows| * n
    requires |rows| < |keys| && keys' == keys[|rows| := row.key]
    requires base + n <= |values| == |values'|
    requires forall k :: 0 <= k < base ==> values'[k] == values[k]
    requires values'[base..base + n] == row.slots
    ensures Holds(keys', values', n, rows + [row])
  {
    forall i | 0 <= i < |rows| + 1
      ensures HoldsRow(keys', values', n, i, (rows + [row])[i])
    {
      if i < |rows| {
        Stride(i, |rows|, n);
        assert HoldsRow(keys, values, n, i, rows[i]);
        assert values'[i * n..(i + 1) * n] == values[i * n..(i + 1) * n];
      } else {
        Stride(i, i + 1, n);
      }
    }
  }

  class BatchReader {
    const nrCpus: nat
    const keys: array<Pid>
    const values: array<nat>

    ghost predicate Valid() {
      keys.Length == BATCH && values.Length == BATCH * nrCpus && keys != values
    }

    constructor (nrCpus: nat)
      ensures Valid() && this.nrCpus == nrCpus && fresh(keys) && fresh(values)
    {
      this.nrCpus := nrCpus;
      keys := new Pid[BATCH](_ => 0);
      values := new nat[BATCH * nrCpus](_ => 0);
    }

    /** The kernel writes one row, and nothing below it. */
    method WriteRow(at: nat, row: Row, ghost rows: seq<Row>)
      requires Valid() && at == |rows| < BATCH && |row.slots| == nrCpus
      requires Holds(keys[..], values[..], nrCpus, rows)
      modifies keys, values
      ensures Holds(keys[..], values[..], nrCpus, rows + [row])
    {
      var base := at * nrCpus;
      Stride(at, BATCH, nrCpus);
      keys[at] := row.key;
      for j := 0 to nrCpus
        invariant keys[..] == old(keys[..])[at := row.key]
        invariant forall k :: 0 <= k < base ==> values[k] == old(values[k])
        invariant forall k :: 0 <= k < j ==> values[base + k] == row.slots[k]
      {
        values[base + j] := row.slots[j];
      }
      assert values[..][base..base + nrCpus] == row.slots;
      RowAdded(old(keys[..]), old(values[..]), keys[..], values[..], nrCpus, rows, row, base);
    }

    method WriteBucket(at: nat, bucket: seq<Row>, ghost rows: seq<Row>)
      requires Valid() && at == |rows| && at + |bucket| <= BATCH
      requires forall i :: 0 <= i < |bucket| ==> |bucket[i].slots| == nrCpus
      requires Holds(keys[..], values[..], nrCpus, rows)
      modifies keys, values
      ensures Holds(keys[..], values[..], nrCpus, rows + bucket)
    {
      assert rows + bucket[..0] == rows;
      for i := 0 to |bucket|
        invariant Holds(keys[..], values[..], nrCpus, rows + bucket[..i])
      {
        WriteRow(at + i, bucket[i], rows + bucket[..i]);
        assert rows + bucket[..i] + [bucket[i]] == rows + bucket[..i + 1];
      }
      assert bucket[..|bucket|] == bucket;
    }

    /**
     One call. Whole buckets are copied while they fit; the cursor is left on the
     first that does not. The end of the table is reported with the rows that led
     up to it, and a bucket that does not fit an empty buffer is an error.
    */
    method NextBatch(table: Table, cursor: Cursor) returns (outcome: Option<(nat, bool)>, after: Cursor)
      requires Valid() && TableOk(table, nrCpus) && Position(cursor) <= |table|
      modifies keys, values
      ensures
        var from := Position(cursor);
        var stop := StopAt(table, from, BATCH);
        var rows := RowsOf(table, from, stop);
        && after == Cursor(stop, true)
        && outcome == (if stop == |table| then Some((|rows|, true))
                       else if rows == [] then None
                       else Some((|rows|, false)))
        && (outcome.Some? ==> Holds(keys[..], values[..], nrCpus, rows))
    {
      var from := Position(cursor);
      var b, count := from, 0;
      while b < |table| && |table[b]| <= BATCH - count
        invariant from <= b <= |table| && count == |RowsOf(table, from, b)| <= BATCH
        invariant StopAt(table, from, BATCH) == StopAt(table, b, BATCH - count)
        invariant Holds(keys[..], values[..], nrCpus, RowsOf(table, from, b))
      {
        WriteBucket(count, table[b], RowsOf(table, from, b));
        StopStep(table, b, BATCH - count);
        assert RowsOf(table, from, b + 1) == RowsOf(table, from, b) + table[b];
        count := count + |table[b]|;
        b := b + 1;
      }
      after := Cursor(b, true);
      if b == |table| { return Some((count, true)), after; }
      if count == 0 { return None, after; }
      return Some((count, false)), after;
    }

    /** Sum the first `count` scratch rows into `totals`. */
    method Fold(count: nat, totals: map<Pid, nat>, ghost rows: seq<Row>) returns (folded: map<Pid, nat>)
      requires Valid() && count == |rows| <= BATCH && Holds(keys[..], values[..], nrCpus, rows)
      ensures folded == FoldRows(totals, rows)
    {
      folded := totals;
      assert rows[..0] == [];
      for i := 0 to count
        invariant folded == FoldRows(totals, rows[..i])
      {
        Stride(i, BATCH, nrCpus);
        var slots := values[i * nrCpus..(i + 1) * nrCpus];
        assert slots == rows[i].slots && keys[i] == rows[i].key by {
          assert HoldsRow(keys[..], values[..], nrCpus, i, rows[i]);
          assert slots == values[..][i * nrCpus..(i + 1) * nrCpus];
        }
        FoldRowsNext(totals, rows, i);
        folded := folded[keys[i] := WrappingSum(slots)];
      }
      assert rows[..count] == rows;
    }

    /**
     Every bucket up to the first that can never fit is folded, each row once and
     in order; when all fit, that is the whole map.
    */
    method SumPerCpu(table: Table) returns (totals: map<Pid, nat>, ghost folded: seq<Row>, ghost reached: nat)
      requires Valid() && TableOk(table, nrCpus)
      modifies keys, values
      ensures reached <= |table| && folded == RowsOf(table, 0, reached)
      ensures reached < |table| ==> |table[reached]| > BATCH
      ensures forall b :: 0 <= b < reached ==> |table[b]| <= BATCH
      ensures totals == FoldRows(map[], folded)
      ensures EveryBucketFits(table) ==> folded == RowsOf(table, 0, |table|)
      ensures forall m :: EveryBucketFits(table) && Represents(table, m) ==> totals == PlainTotals(m)
    {
      totals, folded, reached := map[], [], 0;
      var cursor := Cursor(0, false);
      var done := false;
      while !done
        invariant reached <= |table| && Position(cursor) <= |table|
        invariant !done ==> reached == Position(cursor)
        invariant folded == RowsOf(table, 0, reached) && totals == FoldRows(map[], folded)
        invariant forall b :: 0 <= b < reached ==> |table[b]| <= BATCH
        invariant done && reached < |table| ==> |table[reached]| > BATCH
        decreases |table| - reached, !done
      {
        var outcome, after := NextBatch(table, cursor);
        ghost var stop := after.token;
        ghost var rows := RowsOf(table, reached, stop);
        RowsSplit(table, 0, reached, stop);
        match outcome {
          case None =>
            done := true;
          case Some((count, exhausted)) =>
            FoldRowsAppend(map[], folded, rows);
            totals := Fold(count, totals, rows);
            folded := folded + rows;
            if exhausted || count == 0 {
              done := true;
            }
        }
        cursor, reached := after, stop;
      }
      if EveryBucketFits(table) {
        forall m | Represents(table, m) ensures totals == PlainTotals(m) { FoldIsPlain(table, m); }
      }
    }
  }

  /** A batch can come back short with rows still to read: stopping there would lose them. */
  lemma ShortBatchIsNotTheEnd()
    ensures exists t: Table ::
      && EveryBucketFits(t)
      && var stop := StopAt(t, 0, BATCH);
         0 < |RowsOf(t, 0, stop)| < BATCH && RowsOf(t, stop, |t|) != []
  {
    var t: Table := [[Row(0, [])], seq(BATCH, (i: nat) => Row(i + 1, []))];
    assert RowsOf(t, 0, 1) == t[0] && RowsOf(t, 1, 2) == t[1];
    assert StopAt(t, 0, BATCH) == StopAt(t, 1, BATCH - 1) == 1;
    assert EveryBucketFits(t);
  }
}
