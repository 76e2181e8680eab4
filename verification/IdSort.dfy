/**
 `mdb_midl_sort`: quicksort with an explicit stack of ranges, insertion sort on ranges of at most 8 ids.
 */
module IdSort {
  import opened IdList

  /** The code's `int`: every sum and difference below is checked to be one. */
  newtype int32 = x: int | -0x8000_0000 <= x < 0x8000_0000

  const MAX_INT: int := 0x7fff_ffff

  const SMALL: int32 := 8

  /** `sizeof(int) * CHAR_BIT * 2`: the slots of the explicit stack. */
  const STACK_SLOTS: nat := 64

  /** The longest list for which no sum can exceed an `int`. */
  const SAFE: nat := 0x4000_0003

  method Swap(ids: array<nat>, i: int32, j: int32)
    requires 0 <= i as int < ids.Length && 0 <= j as int < ids.Length
    modifies ids
    ensures ids[..] == Swapped(old(ids[..]), i as nat, j as nat)
  {
    ids[i], ids[j] := ids[j], ids[i];
  }

  /** Slot `j` has moved down to slot `i + 1`, and the slots between have moved up by one. */
  ghost predicate Shifted(s: seq<nat>, t: seq<nat>, i: int, j: int) {
    && |s| == |t| && 0 <= i < j < |s|
    && (forall x :: 0 <= x < |s| && (x <= i || j < x) ==> t[x] == s[x])
    && (forall x :: i + 2 <= x <= j ==> t[x] == s[x - 1])
  }

  lemma ShiftPermutes(s: seq<nat>, t: seq<nat>, l: int, i: int, j: int)
    requires Shifted(s, t, i, j) && t[i + 1] == s[j] && 1 <= l <= i + 1
    ensures Permuted(s, t, l, j)
  {
    assert s[l..j + 1] == s[l..i + 1] + s[i + 1..j] + [s[j]];
    assert t[l..j + 1] == s[l..i + 1] + [s[j]] + s[i + 1..j];
  }

  /** Moves `ids[j]` down to its place. The scan may run below `l`, but stops at `l - 1` because of the cut there. */
  method Insert(ids: array<nat>, l: int32, j: int32)
    requires 1 <= l < j && j as int < ids.Length
    requires Descending(ids[..], l as int, j as int - 1) && forall x :: 1 <= x < l as int ==> ids[x] >= ids[j]
    modifies ids
    ensures Permuted(old(ids[..]), ids[..], l as int, j as int) && Descending(ids[..], l as int, j as int)
  {
    var a := ids[j];
    var i := j - 1;
    ghost var start := ids[..];
    while i >= 1 && ids[i] < a
      invariant l - 1 <= i < j && Shifted(start, ids[..], i as int, j as int)
      invariant forall x :: i as int < x < j as int ==> start[x] < a
    {
      ids[i + 1] := ids[i];
      i := i - 1;
    }
    ids[i + 1] := a;
    ShiftPermutes(start, ids[..], l as int, i as int, j as int);
    ShiftDescends(start, ids[..], l as int, i as int, j as int);
  }

  lemma ShiftDescends(s: seq<nat>, t: seq<nat>, l: int, i: int, j: int)
    requires Shifted(s, t, i, j) && t[i + 1] == s[j] && 1 <= l <= i + 1 && Descending(s, l, j - 1)
    requires (forall x :: i < x < j ==> s[x] < s[j]) && (i >= l ==> s[i] >= s[j])
    ensures Descending(t, l, j)
  {
    forall x, y | l <= x < y <= j ensures t[x] >= t[y] {
      var x' := if x <= i then x else if x == i + 1 then j else x - 1;
      var y' := if y <= i then y else if y == i + 1 then j else y - 1;
      assert t[x] == s[x'] && t[y] == s[y'];
      if y' == j {
        assert s[x'] >= s[i];
      }
    }
  }

  method InsertionSort(ids: array<nat>, ghost n: int, l: int32, ir: int32)
    requires 1 <= l as int <= ir as int + 1 <= n + 1 <= ids.Length && Cut(ids[..], n, l as int - 1)
    requires (l <= ir || ir == 0) && ir as int < MAX_INT
    modifies ids
    ensures Permuted(old(ids[..]), ids[..], l as int, ir as int) && Descending(ids[..], l as int, ir as int)
  {
    ghost var start, low, high := ids[..], l as int, ir as int;
    var j := l + 1;
    while j <= ir
      invariant l + 1 <= j && (j <= ir + 1 || j == l + 1)
      invariant Permuted(start, ids[..], low, high) && Descending(ids[..], low, j as int - 1)
    {
      ghost var before := ids[..];
      CutSurvives(start, before, n, low, high, low - 1);
      Insert(ids, l, j);
      PermutedWiden(before, ids[..], low, j as int, low, high);
      PermutedTrans(start, before, ids[..], low, high);
      j := j + 1;
    }
  }

  /** Swaps two slots of the range if they are in ascending order. */
  method Order(ids: array<nat>, x: int32, y: int32, ghost l: nat, ghost ir: nat, ghost start: seq<nat>)
    requires 1 <= l <= x as int < y as int <= ir < ids.Length == |start| && Permuted(start, ids[..], l, ir)
    modifies ids
    ensures Permuted(start, ids[..], l, ir)
    ensures ids[x] >= ids[y] && {ids[x], ids[y]} == {old(ids[x]), old(ids[y])}
    ensures old(ids[x]) >= old(ids[y]) ==> ids[..] == old(ids[..])
    ensures forall k :: 0 <= k < ids.Length && k != x as int && k != y as int ==> ids[k] == old(ids[k])
  {
    if ids[x] < ids[y] {
      ghost var before := ids[..];
      SwapPermutes(before, x as int, y as int, l, ir);
      Swap(ids, x, y);
      PermutedTrans(start, before, ids[..], l, ir);
    }
  }

  /** The first, middle and last id of a range are in descending order. */
  ghost predicate Staged(s: seq<nat>, l: nat, ir: nat) {
    1 <= l <= ir < |s| && s[l] >= s[(l + ir) / 2] >= s[ir]
  }

  /** Puts the median of the first, middle and last id of the range in slot `l + 1`. */
  method MedianOfThree(ids: array<nat>, l: int32, ir: int32)
    requires 1 <= l && l as int + SMALL as int <= ir as int < ids.Length && l as int + ir as int <= MAX_INT
    modifies ids
    ensures Permuted(old(ids[..]), ids[..], l as int, ir as int)
    ensures ids[l] >= ids[l + 1] >= ids[ir]
    ensures Staged(old(ids[..]), l as nat, ir as nat) ==> ids[l + 1] == old(ids[(l + ir) / 2])
  {
    ghost var start, low, high := ids[..], l as nat, ir as nat;
    var k := (l + ir) / 2;
    SwapPermutes(start, k as int, low + 1, low, high);
    Swap(ids, k, l + 1);
    Order(ids, l, ir, low, high, start);
    Order(ids, l + 1, ir, low, high, start);
    Order(ids, l, l + 1, low, high, start);
  }

  /** Between swaps: up to `i` nothing is below the pivot, from `j` on nothing is above it. */
  ghost predicate Split(s: seq<nat>, l: nat, ir: nat, i: int, j: int, pivot: nat) {
    && (forall x :: l <= x <= i && x < |s| ==> s[x] >= pivot)
    && (forall x :: j <= x <= ir && 0 <= x < |s| ==> s[x] <= pivot)
  }

  /**
   The two unguarded scans. The upward one is stopped by a slot from `j0` on, the downward one by the pivot in
   slot `l + 1`.
   */
  method Scan(ids: array<nat>, l: int32, ir: int32, i0: int32, j0: int32, pivot: nat) returns (i: int32, j: int32)
    requires 1 <= l < ir && ir as int < ids.Length && l + 1 <= i0 <= j0 <= ir && i0 < ir && l + 1 < j0
    requires ids[l + 1] == pivot && Split(ids[..], l as int, ir as int, i0 as int, j0 as int, pivot)
    ensures i0 < i <= ir && l + 1 <= j < j0 && ids[i] <= pivot <= ids[j]
    ensures Split(ids[..], l as int, ir as int, i as int - 1, j as int + 1, pivot)
  {
    i := i0 + 1;
    while ids[i] > pivot
      invariant i0 < i <= ir
      invariant forall x :: l as int <= x < i as int ==> ids[x] >= pivot
      decreases ir - i
    {
      i := i + 1;
    }
    j := j0 - 1;
    while ids[j] < pivot
      invariant l + 1 <= j < j0
      invariant forall x :: j as int < x <= ir as int ==> ids[x] <= pivot
      decreases j
    {
      j := j - 1;
    }
  }

  lemma SwapSplits(s: seq<nat>, l: nat, ir: nat, i: nat, j: nat, pivot: nat)
    requires 1 <= l && l + 1 < i <= j < ir < |s| && Split(s, l, ir, i - 1, j + 1, pivot) && s[i] <= pivot <= s[j]
    ensures Split(Swapped(s, i, j), l, ir, i, j, pivot) && Swapped(s, i, j)[l + 1] == s[l + 1]
  {
  }

  lemma PlacePivot(s: seq<nat>, l: nat, ir: nat, i: nat, j: nat, pivot: nat)
    requires 1 <= l && l + 1 <= j < i <= ir < |s| && Split(s, l, ir, i - 1, j + 1, pivot) && s[l + 1] == pivot <= s[j]
    ensures Split(Swapped(s, l + 1, j), l, ir, i - 1, j, pivot)
  {
  }

  /** The swapping loop, with the median already in slot `l + 1`. */
  method Exchange(ids: array<nat>, l: int32, ir: int32, a: nat) returns (i: int32, j: int32)
    requires 1 <= l && l as int + SMALL as int <= ir as int < ids.Length
    requires ids[l] >= ids[l + 1] == a >= ids[ir]
    modifies ids
    ensures Permuted(old(ids[..]), ids[..], l as int, ir as int)
    ensures l + 1 <= j < i <= ir && ids[l + 1] == a <= ids[j]
    ensures Split(ids[..], l as int, ir as int, i as int - 1, j as int + 1, a)
  {
    ghost var start, low, high := ids[..], l as nat, ir as nat;
    i, j := l + 1, ir;
    while true
      invariant l + 1 <= i <= j <= ir && i < ir && l + 1 < j
      invariant Permuted(start, ids[..], low, high)
      invariant ids[l + 1] == a && Split(ids[..], low, high, i as int, j as int, a)
      decreases j as int - i as int
    {
      i, j := Scan(ids, l, ir, i, j, a);
      if j < i {
        return;
      }
      ghost var before := ids[..];
      SwapPermutes(before, i as nat, j as nat, low, high);
      SwapSplits(before, low, high, i as nat, j as nat, a);
      Swap(ids, i, j);
      PermutedTrans(start, before, ids[..], low, high);
    }
  }

  /** The partition around the id in slot `l + 1`. */
  method PartitionAround(ids: array<nat>, l: int32, ir: int32, a: nat) returns (i: int32, j: int32)
    requires 1 <= l && l as int + SMALL as int <= ir as int < ids.Length
    requires ids[l] >= ids[l + 1] == a >= ids[ir]
    modifies ids
    ensures Permuted(old(ids[..]), ids[..], l as int, ir as int)
    ensures l + 1 <= j < i <= ir && Split(ids[..], l as int, ir as int, i as int - 1, j as int, a)
  {
    ghost var start, low, high := ids[..], l as nat, ir as nat;
    i, j := Exchange(ids, l, ir, a);
    ghost var before := ids[..];
    PutBack(ids, l, j, a);
    SwapPermutes(before, low + 1, j as nat, low, high);
    PlacePivot(before, low, high, i as nat, j as nat, a);
    PermutedTrans(start, before, ids[..], low, high);
  }

  /** The partition: afterwards everything before slot `i` is at least the pivot, everything from `j` on at most. */
  method Partition(ids: array<nat>, l: int32, ir: int32) returns (i: int32, j: int32, ghost pivot: nat)
    requires 1 <= l && l as int + SMALL as int <= ir as int < ids.Length && l as int + ir as int <= MAX_INT
    modifies ids
    ensures Permuted(old(ids[..]), ids[..], l as int, ir as int)
    ensures l + 1 <= j < i <= ir && Split(ids[..], l as int, ir as int, i as int - 1, j as int, pivot)
    ensures Staged(old(ids[..]), l as nat, ir as nat) ==> pivot == old(ids[(l + ir) / 2])
  {
    ghost var start := ids[..];
    MedianOfThree(ids, l, ir);
    ghost var before := ids[..];
    pivot := ids[l + 1];
    i, j := PartitionAround(ids, l, ir, ids[l + 1]);
    PermutedTrans(start, before, ids[..], l as int, ir as int);
  }

  /** The pivot goes between the two parts. */
  method PutBack(ids: array<nat>, l: int32, j: int32, a: nat)
    requires 1 <= l < j && j as int < ids.Length && ids[l + 1] == a
    modifies ids
    ensures ids[..] == Swapped(old(ids[..]), l as nat + 1, j as nat)
  {
    ids[l + 1] := ids[j];
    ids[j] := a;
  }

  // The explicit stack: at most one entry per halving of the list.

  ghost function Pow2(k: nat): nat {
    if k == 0 then 1 else 2 * Pow2(k - 1)
  }

  lemma {:induction false} Pow2Grows(k: nat, m: nat)
    requires k <= m
    ensures Pow2(k) <= Pow2(m)
    decreases m
  {
    if k < m {
      Pow2Grows(k, m - 1);
    }
  }

  lemma Pow2Of28()
    ensures Pow2(28) == 0x1000_0000
  {
    assert Pow2(4) == 16;
    assert Pow2(8) == 256;
    assert Pow2(12) == 4096;
    assert Pow2(16) == 65536;
    assert Pow2(20) == 0x10_0000;
    assert Pow2(24) == 0x100_0000;
  }

  /** A range on level `k` of the stack has been halved `k` times. */
  ghost predicate Fits(n: nat, range: (int, int), k: nat) {
    (range.1 - range.0 + 1) * Pow2(k) <= n
  }

  /** A range still worth partitioning is shallow enough for the stack to take another one. */
  lemma StackHasRoom(n: nat, range: (int, int), k: nat)
    requires n < 0x8000_0000 && Fits(n, range, k) && range.1 - range.0 >= SMALL as int
    ensures 2 * (k + 1) < STACK_SLOTS
  {
    assert 9 * Pow2(k) <= (range.1 - range.0 + 1) * Pow2(k);
    if k >= 28 {
      Pow2Grows(28, k);
      Pow2Of28();
    }
  }

  /** Either part goes on the stack; the smaller part is half as long. */
  lemma HalfFits(n: nat, l: int, ir: int, a: (int, int), k: nat)
    requires Fits(n, (l, ir), k) && 2 * (a.1 - a.0 + 1) <= ir - l + 1
    ensures Fits(n, a, k + 1)
  {
    var size := a.1 - a.0 + 1;
    assert 2 * size * Pow2(k) <= (ir - l + 1) * Pow2(k);
    assert size * Pow2(k + 1) == size * (2 * Pow2(k)) == 2 * size * Pow2(k);
  }

  lemma PartFits(n: nat, l: int, ir: int, a: (int, int), k: nat)
    requires Fits(n, (l, ir), k) && a.1 - a.0 <= ir - l
    ensures Fits(n, a, k)
  {
    assert (a.1 - a.0 + 1) * Pow2(k) <= (ir - l + 1) * Pow2(k);
  }

  /** The explicit stack `istack[1..jstack]` holds the ranges of `pending`, bottom first. */
  ghost predicate Holds(stack: seq<int32>, pending: seq<(int, int)>) {
    && |stack| == STACK_SLOTS && 2 * |pending| < STACK_SLOTS
    && forall k :: 0 <= k < |pending| ==>
         stack[2 * k + 1] as int == pending[k].0 && stack[2 * k + 2] as int == pending[k].1
  }

  /** Some waiting range spans the slots `p` and `p + 1`, so there may be no cut at `p` yet. */
  ghost predicate Open(ranges: seq<(int, int)>, p: int) {
    exists k :: 0 <= k < |ranges| && ranges[k].0 <= p < ranges[k].1
  }

  /** A waiting range lies within the list and is cut off on both sides. */
  ghost predicate CutOff(s: seq<nat>, n: nat, range: (int, int)) {
    && 1 <= range.0 <= range.1 + 1 <= n + 1 && (range.0 <= range.1 || range.1 == 0)
    && Cut(s, n, range.0 - 1) && Cut(s, n, range.1)
  }

  ghost predicate Apart(a: (int, int), b: (int, int)) {
    a.1 < b.0 || b.1 < a.0
  }

  /** Everything the loop keeps: `ranges` are the waiting ranges, the current one last. */
  ghost predicate Sorting(s: seq<nat>, n: nat, ranges: seq<(int, int)>) {
    && n < |s|
    && (forall k :: 0 <= k < |ranges| ==> CutOff(s, n, ranges[k]) && Fits(n, ranges[k], k))
    && (forall k, m :: 0 <= k < m < |ranges| ==> Apart(ranges[k], ranges[m]))
    && (forall p :: 0 <= p <= n && !Open(ranges, p) ==> Cut(s, n, p))
  }

  /** A sorted range that is cut off on both sides has a cut everywhere. */
  lemma DescendingCuts(s: seq<nat>, n: nat, l: int, ir: int, p: int)
    requires n < |s| && CutOff(s, n, (l, ir)) && Descending(s, l, ir) && l <= p < ir
    ensures Cut(s, n, p)
  {
    forall x, y | 1 <= x <= p < y <= n ensures s[x] >= s[y] {
      if x < l {
        assert x <= l - 1 < y;
      } else if y > ir {
        assert x <= ir < y;
      }
    }
  }

  /** Slots between the halves of a partition are cuts. */
  lemma SplitCuts(s: seq<nat>, n: nat, l: nat, ir: nat, i: nat, j: nat, pivot: nat, p: int)
    requires n < |s| && CutOff(s, n, (l, ir)) && Split(s, l, ir, i - 1, j, pivot)
    requires l < j < i <= ir && j - 1 <= p <= i - 1
    ensures Cut(s, n, p)
  {
    forall x, y | 1 <= x <= p < y <= n ensures s[x] >= s[y] {
      if x < l {
        assert x <= l - 1 < y;
      } else if y > ir {
        assert x <= ir < y;
      }
    }
  }

  /** Rearranging the last range leaves every range cut off. */
  lemma RangesSurvive(s: seq<nat>, t: seq<nat>, n: nat, waiting: seq<(int, int)>, last: (int, int))
    requires Sorting(s, n, waiting + [last]) && 1 <= last.0 <= last.1 + 1 <= n + 1
    requires Permuted(s, t, last.0, last.1)
    ensures forall k :: 0 <= k < |waiting| ==> CutOff(t, n, waiting[k]) && Fits(n, waiting[k], k)
    ensures CutOff(t, n, last) && Fits(n, last, |waiting|)
    ensures forall p :: 0 <= p <= n && !Open(waiting + [last], p) ==> Cut(t, n, p)
  {
    var ranges := waiting + [last];
    assert ranges[|waiting|] == last;
    forall k | 0 <= k < |waiting| ensures CutOff(t, n, waiting[k]) && Fits(n, waiting[k], k) {
      assert ranges[k] == waiting[k] && Apart(ranges[k], ranges[|waiting|]);
      CutSurvives(s, t, n, last.0, last.1, waiting[k].0 - 1);
      CutSurvives(s, t, n, last.0, last.1, waiting[k].1);
    }
    CutSurvives(s, t, n, last.0, last.1, last.0 - 1);
    CutSurvives(s, t, n, last.0, last.1, last.1);
    forall p | 0 <= p <= n && !Open(ranges, p) ensures Cut(t, n, p) {
      assert !(ranges[|waiting|].0 <= p < ranges[|waiting|].1);
      CutSurvives(s, t, n, last.0, last.1, p);
    }
  }

  lemma OpenLast(waiting: seq<(int, int)>, last: (int, int), p: int)
    ensures Open(waiting + [last], p) <==> Open(waiting, p) || last.0 <= p < last.1
  {
    var ranges := waiting + [last];
    if Open(waiting, p) {
      var k :| 0 <= k < |waiting| && waiting[k].0 <= p < waiting[k].1;
      assert ranges[k] == waiting[k];
    }
    assert ranges[|waiting|] == last;
  }

  /** Insertion-sorting the current range settles it. */
  lemma RangeSorted(s: seq<nat>, t: seq<nat>, n: nat, waiting: seq<(int, int)>, last: (int, int))
    requires Sorting(s, n, waiting + [last]) && 1 <= last.0 <= last.1 + 1 <= n + 1
    requires Permuted(s, t, last.0, last.1) && Descending(t, last.0, last.1)
    ensures Sorting(t, n, waiting)
  {
    RangesSurvive(s, t, n, waiting, last);
    forall p | 0 <= p <= n && !Open(waiting, p) ensures Cut(t, n, p) {
      OpenLast(waiting, last, p);
      if last.0 <= p < last.1 {
        DescendingCuts(t, n, last.0, last.1, p);
      }
    }
    forall k, m | 0 <= k < m < |waiting| ensures Apart(waiting[k], waiting[m]) {
      assert (waiting + [last])[k] == waiting[k] && (waiting + [last])[m] == waiting[m];
    }
  }

  /** Partitioning the current range replaces it by its two parts, the longer one below the shorter one. */
  lemma RangeParted(s: seq<nat>, t: seq<nat>, n: nat, waiting: seq<(int, int)>,
                    l: nat, ir: nat, i: nat, j: nat, pivot: nat, big: (int, int), small: (int, int))
    requires Sorting(s, n, waiting + [(l as int, ir as int)]) && 1 <= l <= ir <= n && Permuted(s, t, l, ir)
    requires l < j < i <= ir && Split(t, l, ir, i - 1, j, pivot)
    requires Parts((l as int, j - 1), (i as int, ir as int), big, small)
    ensures Sorting(t, n, waiting + [big] + [small])
  {
    var last := (l as int, ir as int);
    RangesSurvive(s, t, n, waiting, last);
    SplitCuts(t, n, l, ir, i, j, pivot, j - 1);
    SplitCuts(t, n, l, ir, i, j, pivot, i - 1);
    PartFits(n, l, ir, big, |waiting|);
    HalfFits(n, l, ir, small, |waiting|);
    PartsCover(t, n, waiting, l, ir, i, j, pivot, big, small);
    PartsApart(waiting, last, big, small);
  }

  /** The two parts of a partition, the longer one first. */
  ghost predicate Parts(left: (int, int), right: (int, int), big: (int, int), small: (int, int)) {
    && ((big == left && small == right) || (big == right && small == left))
    && small.1 - small.0 <= big.1 - big.0
  }

  /** Wherever no range is open after the partition there is a cut. */
  lemma PartsCover(t: seq<nat>, n: nat, waiting: seq<(int, int)>,
                   l: nat, ir: nat, i: nat, j: nat, pivot: nat, big: (int, int), small: (int, int))
    requires n < |t| && CutOff(t, n, (l as int, ir as int)) && l < j < i <= ir && Split(t, l, ir, i - 1, j, pivot)
    requires Parts((l as int, j - 1), (i as int, ir as int), big, small)
    requires forall p :: 0 <= p <= n && !Open(waiting + [(l as int, ir as int)], p) ==> Cut(t, n, p)
    ensures forall p :: 0 <= p <= n && !Open(waiting + [big] + [small], p) ==> Cut(t, n, p)
  {
    forall p | 0 <= p <= n && !Open(waiting + [big] + [small], p) ensures Cut(t, n, p) {
      OpenLast(waiting + [big], small, p);
      OpenLast(waiting, big, p);
      OpenLast(waiting, (l as int, ir as int), p);
      if j - 1 <= p <= i - 1 {
        SplitCuts(t, n, l, ir, i, j, pivot, p);
      }
    }
  }

  lemma PartsApart(waiting: seq<(int, int)>, last: (int, int), big: (int, int), small: (int, int))
    requires forall k, m :: 0 <= k < m < |waiting + [last]| ==> Apart((waiting + [last])[k], (waiting + [last])[m])
    requires Apart(big, small) && last.0 <= big.0 && big.1 <= last.1 && last.0 <= small.0 && small.1 <= last.1
    ensures forall k, m :: 0 <= k < m < |waiting + [big] + [small]| ==>
              Apart((waiting + [big] + [small])[k], (waiting + [big] + [small])[m])
  {
    var old', new' := waiting + [last], waiting + [big] + [small];
    forall k, m | 0 <= k < m < |new'| ensures Apart(new'[k], new'[m]) {
      if k < |waiting| {
        assert Apart(old'[k], old'[if m < |waiting| then m else |waiting|]);
      }
    }
  }

  /** The work left, in terms of the waiting ranges. */
  ghost function Work(ranges: seq<(int, int)>): int {
    if ranges == [] then 0
    else Work(ranges[..|ranges| - 1]) + 2 * (ranges[|ranges| - 1].1 - ranges[|ranges| - 1].0 + 1) + 1
  }

  lemma WorkOfLast(waiting: seq<(int, int)>, last: (int, int))
    ensures Work(waiting + [last]) == Work(waiting) + 2 * (last.1 - last.0 + 1) + 1
  {
    assert (waiting + [last])[..|waiting|] == waiting;
  }

  lemma WorkOfTwo(waiting: seq<(int, int)>, a: (int, int), b: (int, int))
    ensures Work(waiting + [a] + [b]) == Work(waiting) + 2 * (a.1 - a.0 + 1) + 2 * (b.1 - b.0 + 1) + 2
  {
    WorkOfLast(waiting, a);
    WorkOfLast(waiting + [a], b);
  }

  lemma {:induction false} WorkIsNatural(s: seq<nat>, n: nat, ranges: seq<(int, int)>)
    requires forall k :: 0 <= k < |ranges| ==> CutOff(s, n, ranges[k])
    ensures Work(ranges) >= 0
  {
    if ranges != [] {
      WorkIsNatural(s, n, ranges[..|ranges| - 1]);
    }
  }

  /** With no range waiting the list is sorted. */
  lemma AllCut(s: seq<nat>, n: nat)
    requires Sorting(s, n, [])
    ensures Descending(s, 1, n)
  {
    forall x, y | 1 <= x < y <= n ensures s[x] >= s[y] {
      assert !Open([], x);
      assert Cut(s, n, x);
    }
  }

  lemma StartSorting(s: seq<nat>, n: nat)
    requires n < |s|
    ensures Sorting(s, n, [(1, n as int)])
  {
    var ranges := [(1, n as int)];
    forall p | 0 <= p <= n && !Open(ranges, p) ensures Cut(s, n, p) {
      assert !(ranges[0].0 <= p < ranges[0].1);
    }
    assert Pow2(0) == 1;
    assert Fits(n, ranges[0], 0);
  }

  /** The push: the upper bound on top, the lower bound in the slot below it. */
  method Push(istack: array<int32>, jstack: int32, low: int32, high: int32, ghost pending: seq<(int, int)>)
    requires Holds(istack[..], pending) && 2 * (|pending| + 1) < STACK_SLOTS && jstack as int == 2 * (|pending| + 1)
    modifies istack
    ensures Holds(istack[..], pending + [(low as int, high as int)])
  {
    istack[jstack] := high;
    istack[jstack - 1] := low;
  }

  /** The loop invariant: the ids are those of `start`, and `(l, ir)` is the current range. */
  ghost predicate Looping(start: seq<nat>, s: seq<nat>, n: nat, pending: seq<(int, int)>, l: int32, ir: int32) {
    && n < |s| && n < |start| && 1 <= l && 0 <= ir && l as int <= ir as int + 1 <= n + 1
    && Permuted(start, s, 1, n) && Sorting(s, n, pending + [(l as int, ir as int)])
  }

  /** A short range: insertion sort. */
  method Settle(ids: array<nat>, ghost n: nat, l: int32, ir: int32,
                ghost start: seq<nat>, ghost pending: seq<(int, int)>)
    requires Looping(start, ids[..], n, pending, l, ir) && n < MAX_INT
    modifies ids
    ensures n < ids.Length && Permuted(start, ids[..], 1, n) && Sorting(ids[..], n, pending)
    ensures 0 <= Work(pending) < Work(pending + [(l as int, ir as int)])
  {
    ghost var before, last := ids[..], (l as int, ir as int);
    assert (pending + [last])[|pending|] == last;
    assert CutOff(before, n, last);
    InsertionSort(ids, n, l, ir);
    RangeSorted(before, ids[..], n, pending, last);
    PermutedWiden(before, ids[..], last.0, last.1, 1, n);
    PermutedTrans(start, before, ids[..], 1, n);
    WorkOfLast(pending, last);
    WorkIsNatural(ids[..], n, pending);
  }

  /** Partitions a long range and chooses the shorter part to go on with and the longer one to be pushed. */
  method Cleave(ids: array<nat>, ghost n: nat, l: int32, ir: int32,
                ghost start: seq<nat>, ghost pending: seq<(int, int)>, ghost nine: bool)
    returns (l': int32, ir': int32, low: int32, high: int32)
    requires Looping(start, ids[..], n, pending, l, ir)
    requires l as int + SMALL as int <= ir as int && l as int + ir as int <= MAX_INT
    requires nine ==> l == 1 && ir as int == n && NineLast(ids[..], n)
    modifies ids
    ensures Permuted(start, ids[..], 1, n) && |ids[..]| == |start|
    ensures l <= l' <= ir' <= ir && l <= low <= high <= ir
    ensures (high as int - low as int + 1) + (ir' as int - l' as int + 1) <= ir as int - l as int
    ensures Sorting(ids[..], n, pending + [(low as int, high as int)] + [(l' as int, ir' as int)])
    ensures nine ==> l' as int == n - 8 && ir' as int == n
  {
    ghost var before, first, last := ids[..], l as nat, ir as nat;
    var i, j, pivot := Partition(ids, l, ir);
    PermutedWiden(before, ids[..], first, last, 1, n);
    PermutedTrans(start, before, ids[..], 1, n);
    if nine {
      NinePart(before, ids[..], n, i as nat, j as nat);
    }
    ghost var left, right := (first as int, j as int - 1), (i as int, last as int);
    if ir - i + 1 >= j - l {
      RangeParted(before, ids[..], n, pending, first, last, i as nat, j as nat, pivot, right, left);
      return l, j - 1, i, ir;
    } else {
      RangeParted(before, ids[..], n, pending, first, last, i as nat, j as nat, pivot, left, right);
      return i, ir, l, j - 1;
    }
  }

  /** A long range: partition it, push the longer part and go on with the shorter one. */
  method Divide(ids: array<nat>, istack: array<int32>, ghost n: nat, l: int32, ir: int32, jstack: int32,
                ghost start: seq<nat>, ghost pending: seq<(int, int)>, ghost nine: bool)
    returns (l': int32, ir': int32, ghost pushed: (int, int))
    requires Looping(start, ids[..], n, pending, l, ir) && n <= MAX_INT
    requires l as int + SMALL as int <= ir as int && l as int + ir as int <= MAX_INT
    requires jstack as int == 2 * |pending| && Holds(istack[..], pending)
    requires nine ==> l == 1 && ir as int == n && NineLast(ids[..], n)
    modifies ids, istack
    ensures Looping(start, ids[..], n, pending + [pushed], l', ir')
    ensures Holds(istack[..], pending + [pushed])
    ensures 0 <= Work(pending + [pushed] + [(l' as int, ir' as int)]) < Work(pending + [(l as int, ir as int)])
    ensures nine ==> l' as int == n - 8 && ir' as int == n
  {
    ghost var last := (l as int, ir as int);
    assert (pending + [last])[|pending|] == last;
    StackHasRoom(n, last, |pending|);
    var low, high;
    l', ir', low, high := Cleave(ids, n, l, ir, start, pending, nine);
    pushed := (low as int, high as int);
    Push(istack, jstack + 2, low, high, pending);
    WorkShrinks(ids[..], n, pending, last, pushed, (l' as int, ir' as int));
  }

  lemma WorkShrinks(s: seq<nat>, n: nat, waiting: seq<(int, int)>, last: (int, int), a: (int, int), b: (int, int))
    requires Sorting(s, n, waiting + [a] + [b]) && (a.1 - a.0 + 1) + (b.1 - b.0 + 1) <= last.1 - last.0
    ensures 0 <= Work(waiting + [a] + [b]) < Work(waiting + [last])
  {
    WorkOfTwo(waiting, a, b);
    WorkOfLast(waiting, last);
    WorkIsNatural(s, n, waiting + [a] + [b]);
  }

  /** Taking the top range off the stack. */
  lemma PopHolds(stack: seq<int32>, pending: seq<(int, int)>, s: seq<nat>, n: nat)
    requires Holds(stack, pending) && pending != [] && Sorting(s, n, pending)
    ensures var top := pending[|pending| - 1];
            && pending[..|pending| - 1] + [top] == pending && 1 <= top.0 <= top.1 + 1 <= n + 1
            && stack[2 * |pending| - 1] as int == top.0 && stack[2 * |pending|] as int == top.1
            && Holds(stack, pending[..|pending| - 1])
  {
    assert CutOff(s, n, pending[|pending| - 1]);
  }

  method Pop(istack: array<int32>, jstack: int32, ghost start: seq<nat>, ghost s: seq<nat>, ghost n: nat,
             ghost pending: seq<(int, int)>)
    returns (l: int32, ir: int32, ghost rest: seq<(int, int)>)
    requires n < |s| && n < |start| && Permuted(start, s, 1, n) && Sorting(s, n, pending)
    requires pending != [] && jstack as int == 2 * |pending| && Holds(istack[..], pending)
    ensures Looping(start, s, n, rest, l, ir) && rest + [(l as int, ir as int)] == pending
    ensures |rest| == |pending| - 1 && Holds(istack[..], rest)
  {
    PopHolds(istack[..], pending, s, n);
    ir := istack[jstack];
    l := istack[jstack - 1];
    rest := pending[..|pending| - 1];
  }

  // Lists for which the middle of a range is out of reach of an `int`.

  /** How often `v` occurs in slots `l` to `r`. */
  ghost function Times(s: seq<nat>, l: nat, r: nat, v: nat): nat
    requires l <= r + 1 <= |s|
  {
    multiset(s[l..r + 1])[v]
  }

  /** Slots 1 to `n` hold each of the numbers 1 to `n` once. */
  ghost predicate HoldsAll(s: seq<nat>, n: nat) {
    n < |s| && forall v: nat :: Times(s, 1, n, v) == if 1 <= v <= n then 1 else 0
  }

  /** The median of the first, middle and last id is in the middle, and nine ids are below it. */
  ghost predicate NineLast(s: seq<nat>, n: nat) {
    n >= 32 && HoldsAll(s, n) && Staged(s, 1, n) && s[(1 + n) / 2] == 10
  }

  lemma TimesOfParts(t: seq<nat>, n: nat, i: nat, v: nat)
    requires 1 <= i <= n < |t|
    ensures Times(t, 1, n, v) == Times(t, 1, i - 1, v) + Times(t, i, n, v)
  {
    assert t[1..n + 1] == t[1..i] + t[i..n + 1];
  }

  lemma TimesMeans(t: seq<nat>, l: nat, r: nat, v: nat)
    requires l <= r + 1 <= |t|
    ensures Times(t, l, r, v) > 0 <==> exists x :: l <= x <= r && t[x] == v
  {
    if Times(t, l, r, v) > 0 {
      assert v in t[l..r + 1];
      var x :| 0 <= x < |t[l..r + 1]| && t[l..r + 1][x] == v;
      assert t[l + x] == v;
    }
    if x :| l <= x <= r && t[x] == v {
      assert t[l..r + 1][x - l] == v;
    }
  }

  /** Of the numbers 1 to `n`, exactly those below 10 are to the right of the partition. */
  lemma RightPart(t: seq<nat>, n: nat, i: nat, j: nat, v: nat)
    requires HoldsAll(t, n) && n >= 32 && 2 <= j < i <= n && Split(t, 1, n, i - 1, j, 10)
    ensures Times(t, i, n, v) == if 1 <= v <= 9 then 1 else 0
  {
    TimesOfParts(t, n, i, v);
    TimesMeans(t, 1, i - 1, v);
    TimesMeans(t, i, n, v);
    assert t[j] == 10;
    assert v < 10 ==> Times(t, 1, i - 1, v) == 0;
    assert v > 10 ==> Times(t, i, n, v) == 0;
  }

  lemma NineNumbers(m: multiset<nat>)
    requires forall v: nat :: m[v] == if 1 <= v <= 9 then 1 else 0
    ensures |m| == 9
  {
    assert m == multiset{1, 2, 3, 4, 5, 6, 7, 8, 9};
  }

  /** The first partition of such a list leaves nine ids on the right. */
  lemma NinePart(s: seq<nat>, t: seq<nat>, n: nat, i: nat, j: nat)
    requires HoldsAll(s, n) && n >= 32 && Permuted(s, t, 1, n) && 2 <= j < i <= n && Split(t, 1, n, i - 1, j, 10)
    ensures i == n - 8 && j == n - 9
  {
    forall v: nat ensures Times(t, 1, n, v) == if 1 <= v <= n then 1 else 0 {
      assert Times(s, 1, n, v) == Times(t, 1, n, v);
    }
    var m := multiset(t[i..n + 1]);
    forall v: nat ensures m[v] == if 1 <= v <= 9 then 1 else 0 {
      RightPart(t, n, i, j, v);
    }
    NineNumbers(m);
    OnlyOnce(t, n, j, i - 1);
  }

  lemma OnlyOnce(t: seq<nat>, n: nat, x: nat, y: nat)
    requires HoldsAll(t, n) && 1 <= x <= y <= n && t[x] == t[y]
    ensures x == y
  {
    if x < y {
      TimesOfParts(t, n, y, t[x]);
      TimesMeans(t, 1, y - 1, t[x]);
      TimesMeans(t, y, n, t[x]);
    }
  }

  ghost function Falling(n: nat): (s: seq<nat>)
    ensures |s| == n && forall k :: 0 <= k < n ==> s[k] == n - k
  {
    seq(n, k requires 0 <= k < n => n - k)
  }

  lemma {:induction false} FallingHoldsAll(n: nat, v: nat)
    ensures multiset(Falling(n))[v] == if 1 <= v <= n then 1 else 0
  {
    if n > 0 {
      assert Falling(n) == [n] + Falling(n - 1);
      FallingHoldsAll(n - 1, v);
    }
  }

  /** There is such a list of every length from 32 on. */
  lemma NineLastExists(n: nat) returns (s: seq<nat>)
    requires n >= 32
    ensures |s| == n + 1 && s[0] == n && NineLast(s, n)
  {
    s := MiddleIsTen(n, (1 + n) / 2);
  }

  lemma MiddleIsTen(n: nat, mid: nat) returns (s: seq<nat>)
    requires 1 < mid < n - 9
    ensures |s| == n + 1 && s[0] == n && s[1] == n && s[mid] == 10 && s[n] == 1 && HoldsAll(s, n)
  {
    var falling := FallingList(n);
    s := Swapped(falling, mid, n - 9);
    SwapPermutes(falling, mid, n - 9, 1, n);
    StillHoldsAll(falling, s, n);
  }

  lemma FallingList(n: nat) returns (s: seq<nat>)
    requires n > 0
    ensures |s| == n + 1 && s[0] == n && s[1..n + 1] == Falling(n)
    ensures forall k :: 1 <= k <= n ==> s[k] == n + 1 - k
  {
    s := [n] + Falling(n);
  }

  lemma StillHoldsAll(s: seq<nat>, t: seq<nat>, n: nat)
    requires n < |s| && Permuted(s, t, 1, n) && s[1..n + 1] == Falling(n)
    ensures HoldsAll(t, n)
  {
    forall v: nat ensures Times(t, 1, n, v) == if 1 <= v <= n then 1 else 0 {
      FallingHoldsAll(n, v);
    }
  }

  /**
   The main result. For a list of up to 2^30 + 3 ids every `int` expression of the code is in range; the ids end up in
   descending order, are the same ids, and no slot beyond the list is touched. All accesses to `ids` and to the 64-slot
   stack are in bounds. For every longer list there are ids for which the sum of the bounds of a range exceeds an `int`,
   which is where the model stops.
   */
  method Sort(ids: array<nat>) returns (ok: bool)
    requires ids.Length > 0 && ids[0] < ids.Length && ids[0] <= MAX_INT
    modifies ids
    ensures ids[0] == old(ids[0])
    ensures Permuted(old(ids[..]), ids[..], 1, ids[0])
    ensures ok ==> Descending(ids[..], 1, ids[0])
    ensures ids[0] <= SAFE ==> ok
    ensures ids[0] > SAFE && NineLast(old(ids[..]), ids[0]) ==> !ok
  {
    var istack := new int32[STACK_SLOTS];
    ghost var n: nat := ids[0];
    var ir: int32 := ids[0] as int32;
    var l: int32 := 1;
    var jstack: int32 := 0;
    ghost var start, pending: seq<(int, int)> := ids[..], [];
    ghost var nine := NineLast(start, n) && n > SAFE;
    StartSorting(start, n);
    assert pending + [(1, n as int)] == [(1, n as int)];
    while true
      invariant Looping(start, ids[..], n, pending, l, ir) && |start| == ids.Length
      invariant jstack as int == 2 * |pending| && Holds(istack[..], pending)
      invariant n == MAX_INT ==> l == 1 && ir as int == n
      invariant nine ==> ir as int == n && (l as int == n - 8 || (l == 1 && ids[..] == start))
      decreases Work(pending + [(l as int, ir as int)])
    {
      if ir - l < SMALL {
        Settle(ids, n, l, ir, start, pending);
        if jstack == 0 {
          AllCut(ids[..], n);
          return true;
        }
        l, ir, pending := Pop(istack, jstack, start, ids[..], n, pending);
        jstack := jstack - 2;
      } else {
        if l as int + ir as int > MAX_INT {
          return false;
        }
        ghost var pushed;
        l, ir, pushed := Divide(ids, istack, n, l, ir, jstack, start, pending, nine);
        jstack := jstack + 2;
        pending := pending + [pushed];
      }
    }
  }
}
