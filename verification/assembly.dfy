/** Counting the entries of a distributed matrix that this process holds
    but another part owns (`count_non_owning_entries`): each entry's row is
    looked up in the row partition, the entries of other parts are counted
    per part and marked by their position, the positions are stably sorted
    by owning part, and a 0/1 mask of them is turned into send slots by an
    exclusive prefix sum. The OpenMP loops are run sequentially. */
module Assembly {

  /** The part owning each entry's row: `rangeOf` is the range that the
      row partition's `find_range` locates the row in, `partIds` the part
      of each range. */
  function EntryParts(rows: seq<int>, rangeOf: int -> int, partIds: seq<int>): (r: seq<int>)
    requires RangesValid(rows, rangeOf, |partIds|)
    ensures |r| == |rows|
    ensures forall i :: 0 <= i < |rows| ==> r[i] == partIds[rangeOf(rows[i])]
  {
    seq(|rows|, i requires 0 <= i < |rows| => partIds[rangeOf(rows[i])])
  }

  predicate RangesValid(rows: seq<int>, rangeOf: int -> int, numRanges: nat)
  {
    forall i :: 0 <= i < |rows| ==> 0 <= rangeOf(rows[i]) < numRanges
  }

  predicate PartsValid(partIds: seq<int>, numParts: nat)
  {
    forall r :: 0 <= r < |partIds| ==> 0 <= partIds[r] < numParts
  }

  /** The number of entries owned by part `p`. */
  function CountIn(parts: seq<int>, p: int): (n: nat)
    ensures n <= |parts|
  {
    if |parts| == 0 then 0
    else CountIn(parts[..|parts| - 1], p) + (if parts[|parts| - 1] == p then 1 else 0)
  }

  /** `CountIn` counts exactly the occurrences of `p`. */
  lemma {:induction false} CountInIsMultiplicity(parts: seq<int>, p: int)
    ensures CountIn(parts, p) == multiset(parts)[p]
  {
    if |parts| > 0 {
      var init := parts[..|parts| - 1];
      CountInIsMultiplicity(init, p);
      assert parts == init + [parts[|parts| - 1]];
    }
  }

  /** The positions before sorting: an entry of another part is marked by
      its own position, an entry of the local part by -1. */
  function Marks(parts: seq<int>, localPart: int): (r: seq<int>)
    ensures |r| == |parts|
    ensures forall i :: 0 <= i < |parts| ==> (r[i] == -1 <==> parts[i] == localPart)
    ensures forall i :: 0 <= i < |parts| && parts[i] != localPart ==> r[i] == i
  {
    seq(|parts|, i requires 0 <= i < |parts| => if parts[i] != localPart then i else -1)
  }

  /** The sort key of a position: its entry's part, and the local part for -1. */
  function PositionKey(parts: seq<int>, localPart: int, pos: int): int
  {
    if 0 <= pos < |parts| then parts[pos] else localPart
  }

  /** The send counts after the entries `parts` have been counted: every
      part but the local one gains the number of its entries. */
  function CountsAfter(c0: seq<int>, parts: seq<int>, localPart: int): (r: seq<int>)
    ensures |r| == |c0|
  {
    seq(|c0|, p requires 0 <= p < |c0| => c0[p] + (if p == localPart then 0 else CountIn(parts, p)))
  }

  /** Each part but the local one gains its number of entries; the local
      part's count is left as it was. */
  lemma SendCountsGain(c0: seq<int>, parts: seq<int>, localPart: int)
    ensures forall p :: 0 <= p < |c0| && p != localPart ==>
      CountsAfter(c0, parts, localPart)[p] == c0[p] + multiset(parts)[p]
    ensures 0 <= localPart < |c0| ==> CountsAfter(c0, parts, localPart)[localPart] == c0[localPart]
  {
    forall p | 0 <= p < |c0| && p != localPart
      ensures CountsAfter(c0, parts, localPart)[p] == c0[p] + multiset(parts)[p]
    {
      CountInIsMultiplicity(parts, p);
    }
  }

  /** Counting one more entry adds one to its part's count, unless the
      part is the local one. */
  lemma CountsAfterStep(c0: seq<int>, s: seq<int>, i: nat, localPart: int)
    requires i < |s| && 0 <= s[i] < |c0|
    ensures var before := CountsAfter(c0, s[..i], localPart);
      CountsAfter(c0, s[..i + 1], localPart)
        == if s[i] == localPart then before else before[s[i] := before[s[i]] + 1]
  {
    assert s[..i + 1][..i] == s[..i];
  }

  /** The classification loop (the parallel loop run in index order):
      records each entry's part, adds one to the send count of the part for
      every entry of another part, and marks the positions. */
  method ClassifyEntries(
    rows: array<int>, rangeOf: int -> int, partIds: seq<int>, localPart: int,
    sendCount: array<int>, originalPositions: array<int>)
    returns (parts: array<int>)
    requires RangesValid(rows[..], rangeOf, |partIds|) && PartsValid(partIds, sendCount.Length)
    requires originalPositions.Length == rows.Length
    requires rows != sendCount && rows != originalPositions
    requires sendCount != originalPositions
    modifies sendCount, originalPositions
    ensures fresh(parts)
    ensures parts[..] == EntryParts(rows[..], rangeOf, partIds)
    ensures sendCount[..] == CountsAfter(old(sendCount[..]), parts[..], localPart)
    ensures originalPositions[..] == Marks(parts[..], localPart)
  {
    ghost var all := EntryParts(rows[..], rangeOf, partIds);
    ghost var c0 := sendCount[..];
    parts := new int[rows.Length];
    for i := 0 to rows.Length
      invariant parts[..i] == all[..i]
      invariant sendCount[..] == CountsAfter(c0, all[..i], localPart)
      invariant originalPositions[..i] == Marks(all, localPart)[..i]
    {
      CountsAfterStep(c0, all, i, localPart);
      var part := partIds[rangeOf(rows[i])];
      parts[i] := part;
      if part != localPart {
        sendCount[part] := sendCount[part] + 1;
        originalPositions[i] := i;
      } else {
        originalPositions[i] := -1;
      }
      assert originalPositions[..i + 1] == originalPositions[..i] + [originalPositions[i]];
      assert parts[..i + 1] == parts[..i] + [parts[i]];
    }
    assert all[..rows.Length] == all;
    assert parts[..rows.Length] == parts[..];
    assert originalPositions[..rows.Length] == originalPositions[..];
  }

  // ----- a stable sort by key -----

  /** Inserts `x` into `t` after every element whose key is not greater. */
  function Insert(t: seq<int>, x: int, key: int -> int): (r: seq<int>)
    ensures |r| == |t| + 1
  {
    if |t| == 0 then [x]
    else if key(t[|t| - 1]) <= key(x) then t + [x]
    else Insert(t[..|t| - 1], x, key) + [t[|t| - 1]]
  }

  /** Inserting adds `x` and loses nothing. */
  lemma {:induction false} InsertPermutes(t: seq<int>, x: int, key: int -> int)
    ensures multiset(Insert(t, x, key)) == multiset(t) + multiset{x}
  {
    if |t| > 0 && key(t[|t| - 1]) > key(x) {
      InsertPermutes(t[..|t| - 1], x, key);
      assert t == t[..|t| - 1] + [t[|t| - 1]];
    }
  }

  /** `std::stable_sort` with the comparison `key(i) < key(j)`, as an
      insertion sort. */
  function SortByKey(s: seq<int>, key: int -> int): (r: seq<int>)
    ensures |r| == |s|
    ensures multiset(r) == multiset(s)
  {
    if |s| == 0 then []
    else
      assert s == s[..|s| - 1] + [s[|s| - 1]];
      InsertPermutes(SortByKey(s[..|s| - 1], key), s[|s| - 1], key);
      Insert(SortByKey(s[..|s| - 1], key), s[|s| - 1], key)
  }

  predicate SortedBy(s: seq<int>, key: int -> int)
  {
    forall i, j :: 0 <= i < j < |s| ==> key(s[i]) <= key(s[j])
  }

  /** The elements of `s` with key `k`, in their order in `s`. */
  function WithKey(s: seq<int>, key: int -> int, k: int): (r: seq<int>)
    ensures |r| <= |s|
  {
    if |s| == 0 then []
    else WithKey(s[..|s| - 1], key, k) + (if key(s[|s| - 1]) == k then [s[|s| - 1]] else [])
  }

  lemma {:induction false} InsertSorted(t: seq<int>, x: int, key: int -> int)
    requires SortedBy(t, key)
    ensures SortedBy(Insert(t, x, key), key)
  {
    if |t| > 0 && key(t[|t| - 1]) > key(x) {
      var init, last := t[..|t| - 1], t[|t| - 1];
      InsertSorted(init, x, key);
      var r := Insert(init, x, key);
      InsertPermutes(init, x, key);
      forall i | 0 <= i < |r|
        ensures key(r[i]) <= key(last)
      {
        assert r[i] in multiset(init) + multiset{x};
        if r[i] != x {
          var j :| 0 <= j < |init| && init[j] == r[i];
          assert t[j] == r[i];
        }
      }
    }
  }

  /** The sort orders the keys: they never decrease. */
  lemma {:induction false} SortByKeySorted(s: seq<int>, key: int -> int)
    ensures SortedBy(SortByKey(s, key), key)
  {
    if |s| > 0 {
      SortByKeySorted(s[..|s| - 1], key);
      InsertSorted(SortByKey(s[..|s| - 1], key), s[|s| - 1], key);
    }
  }

  lemma {:induction false} WithKeyAppend(a: seq<int>, b: seq<int>, key: int -> int, k: int)
    ensures WithKey(a + b, key, k) == WithKey(a, key, k) + WithKey(b, key, k)
  {
    if |b| > 0 {
      WithKeyAppend(a, b[..|b| - 1], key, k);
      assert (a + b)[..|a + b| - 1] == a + b[..|b| - 1];
    } else {
      assert a + b == a;
    }
  }

  lemma WithKeySingle(y: int, key: int -> int, k: int)
    ensures WithKey([y], key, k) == if key(y) == k then [y] else []
  {
    assert [y][..0] == [];
  }

  lemma {:induction false} InsertStable(t: seq<int>, x: int, key: int -> int, k: int)
    requires SortedBy(t, key)
    ensures WithKey(Insert(t, x, key), key, k)
         == WithKey(t, key, k) + (if key(x) == k then [x] else [])
  {
    if |t| == 0 {
      WithKeySingle(x, key, k);
      assert Insert(t, x, key) == [x];
    } else if key(t[|t| - 1]) <= key(x) {
      InsertAtEnd(t, x, key, k);
    } else {
      SortedInit(t, key);
      InsertStable(t[..|t| - 1], x, key, k);
      InsertBehindLast(t, x, key, k);
    }
  }

  lemma InsertAtEnd(t: seq<int>, x: int, key: int -> int, k: int)
    requires |t| > 0 && key(t[|t| - 1]) <= key(x)
    ensures WithKey(Insert(t, x, key), key, k)
         == WithKey(t, key, k) + (if key(x) == k then [x] else [])
  {
    WithKeySingle(x, key, k);
    assert Insert(t, x, key) == t + [x];
    WithKeyAppend(t, [x], key, k);
  }

  lemma SortedInit(t: seq<int>, key: int -> int)
    requires |t| > 0 && SortedBy(t, key)
    ensures SortedBy(t[..|t| - 1], key)
  {
    var init := t[..|t| - 1];
    forall i, j | 0 <= i < j < |init| ensures key(init[i]) <= key(init[j]) {
      assert init[i] == t[i] && init[j] == t[j];
    }
  }

  /** Inserting in front of the last element keeps the order of each key,
      given that it does so for the elements before it. */
  lemma InsertBehindLast(t: seq<int>, x: int, key: int -> int, k: int)
    requires |t| > 0 && key(t[|t| - 1]) > key(x)
    requires WithKey(Insert(t[..|t| - 1], x, key), key, k)
          == WithKey(t[..|t| - 1], key, k) + (if key(x) == k then [x] else [])
    ensures WithKey(Insert(t, x, key), key, k)
         == WithKey(t, key, k) + (if key(x) == k then [x] else [])
  {
    var init, last := t[..|t| - 1], t[|t| - 1];
    var ins := Insert(init, x, key);
    assert Insert(t, x, key) == ins + [last];
    WithKeyAppend(ins, [last], key, k);
    WithKeySingle(last, key, k);
    var w := WithKey(init, key, k);
    var xs := if key(x) == k then [x] else [];
    var ls := if key(last) == k then [last] else [];
    assert WithKey(t, key, k) == w + ls;
    assert WithKey(Insert(t, x, key), key, k) == w + xs + ls;
    assert xs == [] || ls == [];
  }

  /** The sort is stable: the elements of each key keep their order. */
  lemma {:induction false} SortByKeyStable(s: seq<int>, key: int -> int, k: int)
    ensures WithKey(SortByKey(s, key), key, k) == WithKey(s, key, k)
  {
    if |s| > 0 {
      SortByKeyStable(s[..|s| - 1], key, k);
      SortByKeySorted(s[..|s| - 1], key);
      InsertStable(SortByKey(s[..|s| - 1], key), s[|s| - 1], key, k);
    }
  }

  /** The positions sorted in place by owning part. */
  method StableSortPositions(a: array<int>, parts: seq<int>, localPart: int)
    modifies a
    ensures a[..] == SortByKey(old(a[..]), pos => PositionKey(parts, localPart, pos))
  {
    var sorted := SortByKey(a[..], pos => PositionKey(parts, localPart, pos));
    for i := 0 to a.Length
      invariant forall j :: 0 <= j < i ==> a[j] == sorted[j]
    {
      a[i] := sorted[i];
    }
  }

  // ----- the send slots -----

  /** 0 for a position of the local part, 1 for one of another part. */
  function Mask(s: seq<int>): (r: seq<int>)
    ensures |r| == |s|
    ensures forall i :: 0 <= i < |s| ==> r[i] == (if s[i] == -1 then 0 else 1)
  {
    seq(|s|, i requires 0 <= i < |s| => if s[i] == -1 then 0 else 1)
  }

  function Sum(s: seq<int>): int
  {
    if |s| == 0 then 0 else Sum(s[..|s| - 1]) + s[|s| - 1]
  }

  /** The exclusive prefix sum: each element replaced by the sum of the
      elements before it. */
  function ExclusiveScan(s: seq<int>): (r: seq<int>)
    ensures |r| == |s|
    ensures forall i :: 0 <= i < |s| ==> r[i] == Sum(s[..i])
  {
    seq(|s|, i requires 0 <= i < |s| => Sum(s[..i]))
  }

  method FillMask(positions: array<int>, mask: array<int>)
    requires positions != mask && mask.Length == positions.Length
    modifies mask
    ensures mask[..] == Mask(positions[..])
  {
    for i := 0 to positions.Length
      invariant forall j :: 0 <= j < i ==> mask[j] == Mask(positions[..])[j]
    {
      mask[i] := if positions[i] == -1 then 0 else 1;
    }
  }

  /** The prefix sum of the send positions, in place. */
  method PrefixSum(a: array<int>)
    modifies a
    ensures a[..] == ExclusiveScan(old(a[..]))
  {
    ghost var a0 := a[..];
    var sum := 0;
    for i := 0 to a.Length
      invariant sum == Sum(a0[..i])
      invariant forall j :: 0 <= j < i ==> a[j] == Sum(a0[..j])
      invariant forall j :: i <= j < a.Length ==> a[j] == a0[j]
    {
      assert a0[..i + 1][..i] == a0[..i];
      var v := a[i];
      a[i] := sum;
      sum := sum + v;
    }
  }

  /** `count_non_owning_entries`: the send counts grow by the entries of
      each other part; the positions of those entries end up sorted by part
      (the local part's -1 marks among them at the local part's place); and
      each position's send slot is the number of other parts' entries before
      it. */
  method CountNonOwningEntries(
    rows: array<int>, rangeOf: int -> int, partIds: seq<int>, localPart: int,
    sendCount: array<int>, sendPositions: array<int>, originalPositions: array<int>)
    requires RangesValid(rows[..], rangeOf, |partIds|) && PartsValid(partIds, sendCount.Length)
    requires originalPositions.Length == rows.Length && sendPositions.Length == rows.Length
    requires rows != sendCount && rows != originalPositions && rows != sendPositions
    requires sendCount != originalPositions && sendCount != sendPositions
    requires sendPositions != originalPositions
    modifies sendCount, sendPositions, originalPositions
    ensures var parts := EntryParts(rows[..], rangeOf, partIds);
      && sendCount[..] == CountsAfter(old(sendCount[..]), parts, localPart)
      && originalPositions[..] == SortByKey(Marks(parts, localPart), pos => PositionKey(parts, localPart, pos))
      && sendPositions[..] == ExclusiveScan(Mask(originalPositions[..]))
  {
    var parts := ClassifyEntries(rows, rangeOf, partIds, localPart, sendCount, originalPositions);
    StableSortPositions(originalPositions, parts[..], localPart);
    FillMask(originalPositions, sendPositions);
    PrefixSum(sendPositions);
  }

  // ----- what the results mean -----

  /** The number of positions of other parts is the number of entries that
      the local part does not own. */
  lemma {:induction false} MaskCountsSends(s: seq<int>)
    ensures Sum(Mask(s)) == |s| - multiset(s)[-1]
  {
    if |s| > 0 {
      var init := s[..|s| - 1];
      MaskCountsSends(init);
      assert Mask(s)[..|s| - 1] == Mask(init);
      assert s == init + [s[|s| - 1]];
    }
  }

  lemma {:induction false} MarksCountLocal(parts: seq<int>, localPart: int)
    ensures multiset(Marks(parts, localPart))[-1] == CountIn(parts, localPart)
  {
    if |parts| > 0 {
      var init := parts[..|parts| - 1];
      MarksCountLocal(init, localPart);
      assert Marks(parts, localPart) == Marks(init, localPart) + [Marks(parts, localPart)[|parts| - 1]];
    }
  }

  lemma {:induction false} SumNonDecreasing(m: seq<int>, i: nat, j: nat)
    requires i <= j <= |m|
    requires forall k :: 0 <= k < |m| ==> m[k] >= 0
    ensures Sum(m[..i]) <= Sum(m[..j])
  {
    if i < j {
      SumNonDecreasing(m, i, j - 1);
      assert m[..j][..j - 1] == m[..j - 1];
    }
  }

  /** In an exclusive scan of non-negative numbers, a positive element's
      slot lies below every later slot and below the total. */
  lemma ScanSlots(m: seq<int>)
    requires forall k :: 0 <= k < |m| ==> m[k] >= 0
    ensures forall i, j :: 0 <= i < j < |m| && m[i] > 0 ==> ExclusiveScan(m)[i] < ExclusiveScan(m)[j]
    ensures forall i :: 0 <= i < |m| && m[i] > 0 ==> ExclusiveScan(m)[i] < Sum(m)
  {
    forall i, j | 0 <= i < j < |m| && m[i] > 0
      ensures ExclusiveScan(m)[i] < ExclusiveScan(m)[j]
    {
      assert m[..i + 1][..i] == m[..i];
      SumNonDecreasing(m, i + 1, j);
    }
    forall i | 0 <= i < |m| && m[i] > 0
      ensures ExclusiveScan(m)[i] < Sum(m)
    {
      assert m[..i + 1][..i] == m[..i];
      SumNonDecreasing(m, i + 1, |m|);
      assert m[..|m|] == m;
    }
  }

  /** The send slots of the other parts' positions are distinct and lie
      below the number of entries to send, which is the number of entries
      the local part does not own, after the sort as before it. */
  lemma SendSlots(parts: seq<int>, localPart: int, sorted: seq<int>)
    requires sorted == SortByKey(Marks(parts, localPart), pos => PositionKey(parts, localPart, pos))
    ensures Sum(Mask(sorted)) == |parts| - multiset(parts)[localPart]
    ensures forall i, j :: 0 <= i < j < |sorted| && sorted[i] != -1 ==>
      ExclusiveScan(Mask(sorted))[i] < ExclusiveScan(Mask(sorted))[j]
    ensures forall i :: 0 <= i < |sorted| && sorted[i] != -1 ==>
      ExclusiveScan(Mask(sorted))[i] < Sum(Mask(sorted))
  {
    MaskCountsSends(sorted);
    MarksCountLocal(parts, localPart);
    CountInIsMultiplicity(parts, localPart);
    ScanSlots(Mask(sorted));
  }

  /** Sum of the per-part counts over the parts `[0, n)`. */
  function CountsBelow(parts: seq<int>, n: nat): nat
  {
    if n == 0 then 0 else CountsBelow(parts, n - 1) + CountIn(parts, n - 1)
  }

  lemma {:induction false} CountsBelowAppend(parts: seq<int>, x: int, n: nat)
    ensures CountsBelow(parts + [x], n) == CountsBelow(parts, n) + (if 0 <= x < n then 1 else 0)
  {
    if n > 0 {
      CountsBelowAppend(parts, x, n - 1);
      assert (parts + [x])[..|parts|] == parts;
    }
  }

  /** Every entry belongs to exactly one of the parts, so the counts of all
      parts add up to the number of entries. */
  lemma {:induction false} CountsCoverEntries(parts: seq<int>, n: nat)
    requires forall i :: 0 <= i < |parts| ==> 0 <= parts[i] < n
    ensures CountsBelow(parts, n) == |parts|
  {
    if |parts| == 0 {
      CountsBelowZero(n);
    } else {
      var init := parts[..|parts| - 1];
      CountsCoverEntries(init, n);
      CountsBelowAppend(init, parts[|parts| - 1], n);
      assert init + [parts[|parts| - 1]] == parts;
    }
  }

  lemma {:induction false} CountsBelowZero(n: nat)
    ensures CountsBelow([], n) == 0
  {
    if n > 0 {
      CountsBelowZero(n - 1);
    }
  }

  /** What the send counts gain in total is what the send slots number:
      the entries of all parts but the local one. */
  lemma SendCountsMatchSlots(parts: seq<int>, localPart: int, numParts: nat)
    requires forall i :: 0 <= i < |parts| ==> 0 <= parts[i] < numParts
    requires 0 <= localPart < numParts
    ensures CountsBelow(parts, numParts) - multiset(parts)[localPart]
         == Sum(Mask(SortByKey(Marks(parts, localPart), pos => PositionKey(parts, localPart, pos))))
  {
    CountsCoverEntries(parts, numParts);
    SendSlots(parts, localPart, SortByKey(Marks(parts, localPart), pos => PositionKey(parts, localPart, pos)));
  }
}
