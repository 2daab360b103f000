/** The two index kernels of fixed coarsening. `fill_restrict_op` lets
    thread `t` write `t` into the restriction operator's column array at
    position `coarse_rows[t]`; `fill_coarse_indices` numbers the coarse rows
    in a single sequential scan over the fine rows. */
module FixedCoarsening {
  import opened Wrappers

  /** Every non-negative coarse row names a position of the column array. */
  predicate TargetsInBounds(rows: seq<int>, size: nat)
  {
    forall t :: 0 <= t < |rows| && rows[t] >= 0 ==> rows[t] < size
  }

  /** No two threads write the same position. */
  predicate DistinctTargets(rows: seq<int>)
  {
    forall t1, t2 :: 0 <= t1 < t2 < |rows| && rows[t1] >= 0 ==> rows[t1] != rows[t2]
  }

  predicate ThreadsOf(order: seq<int>, n: nat)
  {
    forall j :: 0 <= j < |order| ==> 0 <= order[j] < n
  }

  /** The threads of a kernel launch over `n` elements, in index order. */
  function Threads(n: nat): (r: seq<int>)
    ensures |r| == n && ThreadsOf(r, n)
    ensures forall t :: 0 <= t < n ==> r[t] == t
  {
    seq(n, i => i)
  }

  /** The column array after the threads in `order` have run, one after the
      other: a thread with a negative coarse row writes nothing. */
  function ScatterIn(cols: seq<int>, rows: seq<int>, order: seq<int>): (r: seq<int>)
    requires TargetsInBounds(rows, |cols|) && ThreadsOf(order, |rows|)
    ensures |r| == |cols|
  {
    if |order| == 0 then cols
    else
      var prev := ScatterIn(cols, rows, order[..|order| - 1]);
      var t := order[|order| - 1];
      if rows[t] >= 0 then prev[rows[t] := t] else prev
  }

  /** The positions the threads in `order` write. */
  function Targets(rows: seq<int>, order: seq<int>): set<int>
  {
    set t | t in order && 0 <= t < |rows| && rows[t] >= 0 :: rows[t]
  }

  /** `fill_restrict_op`, its threads run in index order. With distinct
      coarse rows every writing thread's index lands at its coarse row and
      the other positions keep their values, whatever the order; with a
      repeated coarse row the threads race, and index order is the order
      the model picks. */
  method FillRestrictOp(rows: array<int>, cols: array<int>)
    requires rows != cols
    requires TargetsInBounds(rows[..], cols.Length)
    modifies cols
    ensures cols[..] == ScatterIn(old(cols[..]), rows[..], Threads(rows.Length))
    ensures DistinctTargets(rows[..]) ==>
      && (forall t :: 0 <= t < rows.Length && rows[t] >= 0 ==> cols[rows[t]] == t)
      && (forall p :: 0 <= p < cols.Length && p !in Targets(rows[..], Threads(rows.Length)) ==> cols[p] == old(cols[p]))
  {
    for t := 0 to rows.Length
      invariant cols[..] == ScatterIn(old(cols[..]), rows[..], Threads(t))
    {
      assert Threads(t + 1)[..t] == Threads(t);
      if rows[t] >= 0 {
        cols[rows[t]] := t;
      }
    }
    if DistinctTargets(rows[..]) {
      ScatterInPointwise(old(cols[..]), rows[..], Threads(rows.Length));
      forall t | 0 <= t < rows.Length && rows[t] >= 0
        ensures cols[rows[t]] == t
      {
        assert Threads(rows.Length)[t] == t;
      }
    }
  }

  /** Each writing thread's index lands at its coarse row, and a position no
      thread writes keeps its old value. */
  lemma {:induction false} ScatterInPointwise(cols: seq<int>, rows: seq<int>, order: seq<int>)
    requires TargetsInBounds(rows, |cols|) && ThreadsOf(order, |rows|)
    requires DistinctTargets(rows)
    ensures forall t :: t in order && rows[t] >= 0 ==> ScatterIn(cols, rows, order)[rows[t]] == t
    ensures forall p :: 0 <= p < |cols| && p !in Targets(rows, order) ==>
      ScatterIn(cols, rows, order)[p] == cols[p]
  {
    if |order| > 0 {
      var init := order[..|order| - 1];
      var last := order[|order| - 1];
      ScatterInPointwise(cols, rows, init);
      forall t | t in order && rows[t] >= 0
        ensures ScatterIn(cols, rows, order)[rows[t]] == t
      {
        if t != last {
          assert t in init by {
            var j :| 0 <= j < |order| && order[j] == t;
            assert init[j] == t;
          }
          if rows[last] >= 0 {
            assert rows[t] != rows[last] by {
              if t < last {} else {}
            }
          }
        }
      }
      forall p | 0 <= p < |cols| && p !in Targets(rows, order)
        ensures ScatterIn(cols, rows, order)[p] == cols[p]
      {
        assert forall t :: t in init ==> t in order;
        if rows[last] >= 0 {
          assert last in order;
        }
      }
    }
  }

  /** With distinct targets, the threads may run in any order: two schedules
      of the same threads leave the same column array. */
  lemma ScatterOrderFree(cols: seq<int>, rows: seq<int>, o1: seq<int>, o2: seq<int>)
    requires TargetsInBounds(rows, |cols|) && ThreadsOf(o1, |rows|) && ThreadsOf(o2, |rows|)
    requires DistinctTargets(rows)
    requires forall t :: t in o1 <==> t in o2
    ensures ScatterIn(cols, rows, o1) == ScatterIn(cols, rows, o2)
  {
    ScatterInPointwise(cols, rows, o1);
    ScatterInPointwise(cols, rows, o2);
    assert Targets(rows, o1) == Targets(rows, o2);
    var r1, r2 := ScatterIn(cols, rows, o1), ScatterIn(cols, rows, o2);
    forall p | 0 <= p < |cols|
      ensures r1[p] == r2[p]
    {
      if p in Targets(rows, o1) {
        var t :| t in o1 && 0 <= t < |rows| && rows[t] >= 0 && rows[t] == p;
        assert t in o2;
      }
    }
  }

  /** The state of the scan after a number of fine rows: the map so far and
      the index of the next coarse row to match. */
  datatype ScanState = ScanState(rowMap: seq<int>, idx: nat)

  /** The scan of `fill_coarse_indices` as written, over the first `i` fine
      rows of a map of `|m|` entries. `None` once the scan reads
      `coarse_rows[idx]` with `idx` one past the end. */
  function ScanAsWritten(cr: seq<int>, m: seq<int>, i: nat): (r: Option<ScanState>)
    requires i <= |m|
    ensures r.Some? ==> |r.value.rowMap| == |m| && r.value.idx <= |cr|
  {
    if i == 0 then Some(ScanState(m, 0))
    else
      match ScanAsWritten(cr, m, i - 1)
      case None => None
      case Some(s) =>
        if s.idx >= |cr| then None
        else if i - 1 == cr[s.idx] then Some(ScanState(s.rowMap[i - 1 := s.idx], s.idx + 1))
        else Some(s)
  }

  /** The scan with the read guarded by `idx < |cr|`. */
  function Scan(cr: seq<int>, m: seq<int>, i: nat): (r: ScanState)
    requires i <= |m|
    ensures |r.rowMap| == |m| && r.idx <= |cr|
  {
    if i == 0 then ScanState(m, 0)
    else
      var s := Scan(cr, m, i - 1);
      if s.idx < |cr| && i - 1 == cr[s.idx] then ScanState(s.rowMap[i - 1 := s.idx], s.idx + 1)
      else s
  }

  /** Where the scan as written stays in bounds, it computes what the
      guarded scan computes. */
  lemma {:induction false} AsWrittenAgrees(cr: seq<int>, m: seq<int>, i: nat)
    requires i <= |m|
    ensures ScanAsWritten(cr, m, i).Some? ==> ScanAsWritten(cr, m, i).value == Scan(cr, m, i)
  {
    if i > 0 {
      AsWrittenAgrees(cr, m, i - 1);
    }
  }

  /** `fill_coarse_indices` as written: one thread runs the scan over all
      `|m|` fine rows; the reads of `coarse_rows` must stay in bounds. */
  method FillCoarseIndicesAsWritten(cr: array<int>, m: array<int>)
    requires cr != m
    requires ScanAsWritten(cr[..], m[..], m.Length).Some?
    modifies m
    ensures m[..] == ScanAsWritten(cr[..], old(m[..]), m.Length).value.rowMap
  {
    ghost var m0 := m[..];
    var idx := 0;
    for i := 0 to m.Length
      invariant ScanAsWritten(cr[..], m0, i).Some?
      invariant ScanAsWritten(cr[..], m0, i).value == ScanState(m[..], idx)
    {
      PrefixInBounds(cr[..], m0, i + 1, m.Length);
      if i == cr[idx] {
        m[i] := idx;
        idx := idx + 1;
      }
    }
  }

  /** A scan that stays in bounds over `j` rows stayed in bounds over fewer. */
  lemma {:induction false} PrefixInBounds(cr: seq<int>, m: seq<int>, i: nat, j: nat)
    requires i <= j <= |m|
    requires ScanAsWritten(cr, m, j).Some?
    ensures ScanAsWritten(cr, m, i).Some?
  {
    if i < j {
      PrefixInBounds(cr, m, i, j - 1);
    }
  }

  /** `fill_coarse_indices` with the read of `coarse_rows` guarded. */
  method FillCoarseIndices(cr: array<int>, m: array<int>)
    requires cr != m
    modifies m
    ensures m[..] == Scan(cr[..], old(m[..]), m.Length).rowMap
  {
    ghost var m0 := m[..];
    var idx := 0;
    for i := 0 to m.Length
      invariant Scan(cr[..], m0, i) == ScanState(m[..], idx)
    {
      if idx < cr.Length && i == cr[idx] {
        m[i] := idx;
        idx := idx + 1;
      }
    }
  }

  predicate StrictlyIncreasing(cr: seq<int>)
  {
    forall k1, k2 :: 0 <= k1 < k2 < |cr| ==> cr[k1] < cr[k2]
  }

  predicate RowsIn(cr: seq<int>, f: nat)
  {
    forall k :: 0 <= k < |cr| ==> 0 <= cr[k] < f
  }

  /** After `i` fine rows, the next coarse row to match is not below `i`
      and the last one matched is. */
  lemma {:induction false} ScanBoundary(cr: seq<int>, m: seq<int>, i: nat)
    requires i <= |m|
    requires StrictlyIncreasing(cr) && RowsIn(cr, |m|)
    ensures var s := Scan(cr, m, i);
      && (s.idx < |cr| ==> cr[s.idx] >= i)
      && (0 < s.idx ==> cr[s.idx - 1] < i)
  {
    if i > 0 {
      ScanBoundary(cr, m, i - 1);
      var s := Scan(cr, m, i - 1);
      if s.idx < |cr| && i - 1 == cr[s.idx] {
        assert Scan(cr, m, i).idx == s.idx + 1;
        if s.idx + 1 < |cr| {
          assert cr[s.idx] < cr[s.idx + 1];
        }
      } else {
        assert Scan(cr, m, i) == s;
      }
    }
  }

  /** After `i` fine rows, the scan has matched exactly the coarse rows below
      `i`, numbered each matched coarse row by its position, and written
      nowhere else. */
  lemma {:induction false} ScanInvariant(cr: seq<int>, m: seq<int>, i: nat)
    requires i <= |m|
    requires StrictlyIncreasing(cr) && RowsIn(cr, |m|)
    ensures ScanFacts(cr, m, i)
  {
    if i > 0 {
      ScanInvariant(cr, m, i - 1);
      var s := Scan(cr, m, i - 1);
      if s.idx < |cr| && i - 1 == cr[s.idx] {
        ScanMatchStep(cr, m, i);
      } else {
        assert Scan(cr, m, i) == s;
      }
    }
  }

  /** What the scan has done after `i` fine rows: matched exactly the
      coarse rows below `i`, numbered each by its position, and written
      nowhere else. */
  predicate ScanFacts(cr: seq<int>, m: seq<int>, i: nat)
    requires i <= |m| && RowsIn(cr, |m|)
  {
    var s := Scan(cr, m, i);
    && (forall k :: 0 <= k < s.idx ==> cr[k] < i)
    && (forall k :: s.idx <= k < |cr| ==> cr[k] >= i)
    && (forall k :: 0 <= k < s.idx ==> s.rowMap[cr[k]] == k)
    && (forall p :: 0 <= p < |m| && p !in cr[..s.idx] ==> s.rowMap[p] == m[p])
  }

  /** Matching fine row `i - 1` keeps the scan's facts. */
  lemma ScanMatchStep(cr: seq<int>, m: seq<int>, i: nat)
    requires 0 < i <= |m|
    requires StrictlyIncreasing(cr) && RowsIn(cr, |m|)
    requires ScanFacts(cr, m, i - 1)
    requires Scan(cr, m, i - 1).idx < |cr| && i - 1 == cr[Scan(cr, m, i - 1).idx]
    ensures ScanFacts(cr, m, i)
  {
    var s, s' := Scan(cr, m, i - 1), Scan(cr, m, i);
    assert s' == ScanState(s.rowMap[i - 1 := s.idx], s.idx + 1);
    assert cr[..s'.idx] == cr[..s.idx] + [cr[s.idx]];
    forall k | s'.idx <= k < |cr|
      ensures cr[k] >= i
    {
      assert cr[s.idx] < cr[k];
    }
  }

  lemma AllCoarseRowsMatched(cr: seq<int>, m: seq<int>)
    requires StrictlyIncreasing(cr) && RowsIn(cr, |m|)
    ensures Scan(cr, m, |m|).idx == |cr|
  {
    ScanBoundary(cr, m, |m|);
    if Scan(cr, m, |m|).idx < |cr| {
      assert false;
    }
  }

  /** On strictly increasing coarse rows inside the fine range, the guarded
      scan numbers every coarse row by its position, matches all of them,
      and leaves the entries at the other fine rows unchanged. */
  lemma CoarseIndicesNumberRows(cr: seq<int>, m: seq<int>)
    requires StrictlyIncreasing(cr) && RowsIn(cr, |m|)
    ensures Scan(cr, m, |m|).idx == |cr|
    ensures forall k :: 0 <= k < |cr| ==> Scan(cr, m, |m|).rowMap[cr[k]] == k
    ensures forall p :: 0 <= p < |m| && p !in cr ==> Scan(cr, m, |m|).rowMap[p] == m[p]
  {
    AllCoarseRowsMatched(cr, m);
    ScanInvariant(cr, m, |m|);
    assert cr[..|cr|] == cr;
  }

  /** On strictly increasing coarse rows inside the fine range, the scan as
      written stays in bounds exactly when there are no fine rows or the
      last fine row is a coarse row. */
  lemma AsWrittenInBoundsIff(cr: seq<int>, m: seq<int>)
    requires StrictlyIncreasing(cr) && RowsIn(cr, |m|)
    ensures ScanAsWritten(cr, m, |m|).Some? <==> |m| == 0 || (|cr| > 0 && cr[|cr| - 1] == |m| - 1)
  {
    AsWrittenInBoundsUpTo(cr, m, |m|);
  }

  lemma {:induction false} AsWrittenInBoundsUpTo(cr: seq<int>, m: seq<int>, i: nat)
    requires i <= |m|
    requires StrictlyIncreasing(cr) && RowsIn(cr, |m|)
    ensures ScanAsWritten(cr, m, i).Some? <==> i == 0 || (|cr| > 0 && cr[|cr| - 1] >= i - 1)
  {
    if i > 0 {
      AsWrittenInBoundsUpTo(cr, m, i - 1);
      AsWrittenAgrees(cr, m, i - 1);
      PendingRowsIff(cr, m, i - 1);
    }
  }

  /** After `i` fine rows some coarse row is still unmatched exactly when
      the last coarse row is not below `i`. */
  lemma PendingRowsIff(cr: seq<int>, m: seq<int>, i: nat)
    requires i <= |m|
    requires StrictlyIncreasing(cr) && RowsIn(cr, |m|)
    ensures Scan(cr, m, i).idx < |cr| <==> |cr| > 0 && cr[|cr| - 1] >= i
  {
    ScanBoundary(cr, m, i);
    var s := Scan(cr, m, i);
    if s.idx < |cr| {
      assert cr[|cr| - 1] >= cr[s.idx];
    }
  }

  /** The over-read, on the smallest input that shows it: two fine rows of
      which only the first is coarse. The scan matches row 0, then reads
      `coarse_rows[1]` of a one-element array at fine row 1. */
  lemma AsWrittenOverreads()
    ensures StrictlyIncreasing([0]) && RowsIn([0], 2)
    ensures ScanAsWritten([0], [0, 0], 1) == Some(ScanState([0, 0], 1))
    ensures ScanAsWritten([0], [0, 0], 2) == None
  {
    assert [0, 0][0 := 0] == [0, 0];
  }
}
