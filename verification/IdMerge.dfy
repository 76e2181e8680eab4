/**
 Merging, searching and inserting in ID lists: `mdb_midl_xmerge`, `mdb_midl_search`, `mdb_mid2l_search` and
 `mdb_mid2l_insert`.
 */
module IdMerge {
  import opened IdList

  // The in-place merge.

  /**
   The merge under way: `i` ids of `merge` and `j` ids of the old list are still to be placed, the rest stands in
   descending order in slots `k + 1` to `total` and is no larger than what is left.
   */
  ghost predicate Merging(old': seq<nat>, merge: seq<nat>, s: seq<nat>, i: int, j: int, k: int, total: int) {
    && |s| == |old'| && 0 <= i < |merge| && 0 <= j <= k <= total < |s| && j < |s|
    && (forall x :: 1 <= x <= j ==> s[x] == old'[x])
    && (forall x :: total < x < |s| ==> s[x] == old'[x])
    && Descending(s, k + 1, total)
    && (forall x, y :: 1 <= x <= j && k < y <= total ==> s[x] >= s[y])
    && (forall x, y :: 1 <= x <= i && k < y <= total ==> merge[x] >= s[y])
  }

  ghost predicate Placed(old': seq<nat>, merge: seq<nat>, s: seq<nat>, i: int, j: int, k: int, total: int, m: int,
                         n: int)
    requires 0 <= i <= m < |merge| && 0 <= j <= n < |old'| && 0 <= k <= total < |s|
  {
    multiset(s[k + 1..total + 1]) == multiset(old'[j + 1..n + 1]) + multiset(merge[i + 1..m + 1])
  }

  /** Placing an id in slot `k` adds it in front of the finished part. */
  lemma PlaceOne(s: seq<nat>, k: int, total: int, id: nat)
    requires 1 <= k <= total < |s|
    ensures multiset(s[k := id][k..total + 1]) == multiset{id} + multiset(s[k + 1..total + 1])
  {
    assert s[k := id][k..total + 1] == [id] + s[k + 1..total + 1];
  }

  lemma TakeOne(s: seq<nat>, j: int, n: int)
    requires 1 <= j <= n < |s|
    ensures multiset(s[j..n + 1]) == multiset{s[j]} + multiset(s[j + 1..n + 1])
  {
    assert s[j..n + 1] == [s[j]] + s[j + 1..n + 1];
  }

  /** Placing the largest unread id of the old list that is below the next id to merge. */
  lemma PlaceOld(old': seq<nat>, merge: seq<nat>, s: seq<nat>, t: seq<nat>, i: int, j: int, k: int, j': int, k': int,
                 total: int, m: int, n: int)
    requires Merging(old', merge, s, i, j, k, total) && Descending(old', 1, n) && Descending(merge, 1, m)
    requires 1 <= i <= m < |merge| && 1 <= j <= n < |old'| && j < k && s[j] < merge[i]
    requires t == s[k := s[j]] && j' == j - 1 && k' == k - 1
    ensures Merging(old', merge, t, i, j', k', total)
  {
  }

  lemma CountOld(old': seq<nat>, merge: seq<nat>, s: seq<nat>, t: seq<nat>, i: int, j: int, k: int, j': int, k': int,
                 total: int, m: int, n: int)
    requires 0 <= i <= m < |merge| && 1 <= j <= n < |old'| && 1 <= k <= total < |s|
    requires Placed(old', merge, s, i, j, k, total, m, n)
    requires t == s[k := old'[j]] && j' == j - 1 && k' == k - 1
    ensures Placed(old', merge, t, i, j', k', total, m, n)
  {
    TakeOne(old', j, n);
    PlaceOne(s, k, total, old'[j]);
    assert old'[j' + 1..n + 1] == old'[j..n + 1] && t[k' + 1..total + 1] == t[k..total + 1];
  }

  /** Placing the next id to merge, when no unread id of the old list is below it. */
  lemma PlaceMerged(old': seq<nat>, merge: seq<nat>, s: seq<nat>, t: seq<nat>, i: int, j: int, k: int, i': int,
                    k': int, total: int, m: int, n: int)
    requires Merging(old', merge, s, i, j, k, total) && Descending(old', 1, n) && Descending(merge, 1, m)
    requires 1 <= i <= m < |merge| && 0 <= j <= n < |old'| && j < k && (j > 0 ==> s[j] >= merge[i])
    requires t == s[k := merge[i]] && i' == i - 1 && k' == k - 1
    ensures Merging(old', merge, t, i', j, k', total)
  {
  }

  lemma CountMerged(old': seq<nat>, merge: seq<nat>, s: seq<nat>, t: seq<nat>, i: int, j: int, k: int, i': int,
                    k': int, total: int, m: int, n: int)
    requires 1 <= i <= m < |merge| && 0 <= j <= n < |old'| && 1 <= k <= total < |s|
    requires Placed(old', merge, s, i, j, k, total, m, n)
    requires t == s[k := merge[i]] && i' == i - 1 && k' == k - 1
    ensures Placed(old', merge, t, i', j, k', total, m, n)
  {
    TakeOne(merge, i, m);
    PlaceOne(s, k, total, merge[i]);
    assert merge[i' + 1..m + 1] == merge[i..m + 1] && t[k' + 1..total + 1] == t[k..total + 1];
  }

  /** `t` holds the ids of both lists in descending order, and nothing beyond them has changed. */
  ghost predicate Merged(old': seq<nat>, merge: seq<nat>, t: seq<nat>) {
    && |old'| > 0 && |merge| > 0 && |merge| > merge[0] && |t| == |old'| && t[0] == old'[0] + merge[0] < |t|
    && Descending(t, 1, t[0])
    && multiset(t[1..t[0] + 1]) == multiset(old'[1..old'[0] + 1]) + multiset(merge[1..merge[0] + 1])
    && (forall x :: t[0] < x < |t| ==> t[x] == old'[x])
  }

  /** At the start nothing is placed. */
  lemma MergeStarts(old': seq<nat>, merge: seq<nat>, s: seq<nat>, m: nat, n: nat, total: nat)
    requires |old'| > 0 && s == old'[0 := MAX_ID] && total == m + n < |old'| && m < |merge|
    ensures Merging(old', merge, s, m, n, total, total) && Placed(old', merge, s, m, n, total, total, m, n)
  {
  }

  /** With nothing left to merge, what is left of the old list is in place. */
  lemma MergeDone(old': seq<nat>, merge: seq<nat>, s: seq<nat>, t: seq<nat>, j: int, total: int, m: int, n: int)
    requires Merging(old', merge, s, 0, j, j, total) && Descending(old', 1, n)
    requires 0 <= m < |merge| && 0 <= j <= n < |old'| && Placed(old', merge, s, 0, j, j, total, m, n)
    requires t == s[0 := total] && old'[0] == n && merge[0] == m && total == n + m
    ensures Merged(old', merge, t)
  {
    assert t[1..t[0] + 1] == old'[1..j + 1] + s[j + 1..total + 1];
    assert old'[1..old'[0] + 1] == old'[1..j + 1] + old'[j + 1..n + 1];
    assert merge[1..merge[0] + 1] == merge[0 + 1..m + 1];
  }

  /** The inner loop: moves the old ids below `merge[i]` to their places. */
  method MoveOld(idl: array<nat>, merge: array<nat>, mergeId: nat, j0: nat, k0: nat,
                 ghost start: seq<nat>, ghost i: nat, ghost total: nat, ghost m: nat, ghost n: nat)
    returns (j: nat, k: nat)
    requires idl != merge && 1 <= i <= m < merge.Length && j0 <= n < |start| && k0 == i + j0
    requires mergeId == merge[i] <= MAX_ID
    requires Merging(start, merge[..], idl[..], i, j0, k0, total) && idl[0] == MAX_ID
    requires Descending(start, 1, n) && Descending(merge[..], 1, m)
    requires Placed(start, merge[..], idl[..], i, j0, k0, total, m, n)
    modifies idl
    ensures j <= n && k == i + j && (j > 0 ==> idl[j] >= mergeId) && idl[0] == MAX_ID
    ensures Merging(start, merge[..], idl[..], i, j, k, total)
    ensures Placed(start, merge[..], idl[..], i, j, k, total, m, n)
  {
    j, k := j0, k0;
    var oldId := idl[j];
    while oldId < mergeId
      invariant j <= n && k == i + j && idl[0] == MAX_ID && oldId == idl[j]
      invariant Merging(start, merge[..], idl[..], i, j, k, total)
      invariant Placed(start, merge[..], idl[..], i, j, k, total, m, n)
      decreases j
    {
      ghost var before := idl[..];
      idl[k] := oldId;
      assert idl[..] == before[k := before[j]];
      ghost var slot, read := k, j;
      k := k - 1;
      j := j - 1;
      PlaceOld(start, merge[..], before, idl[..], i, read, slot, j, k, total, m, n);
      CountOld(start, merge[..], before, idl[..], i, read, slot, j, k, total, m, n);
      oldId := idl[j];
    }
  }

  /** One round: moves the old ids below `merge[i]` and then `merge[i]` itself to their places. */
  method MergeOne(idl: array<nat>, merge: array<nat>, i: nat, j0: nat, k0: nat,
                  ghost start: seq<nat>, ghost total: nat, ghost m: nat, ghost n: nat)
    returns (i': nat, j: nat, k: nat)
    requires idl != merge && 1 <= i <= m < merge.Length && j0 <= n < |start| && k0 == i + j0 && merge[i] <= MAX_ID
    requires Merging(start, merge[..], idl[..], i, j0, k0, total) && idl[0] == MAX_ID
    requires Descending(start, 1, n) && Descending(merge[..], 1, m)
    requires Placed(start, merge[..], idl[..], i, j0, k0, total, m, n)
    modifies idl
    ensures i' == i - 1 && j <= n && k == i' + j && idl[0] == MAX_ID
    ensures Merging(start, merge[..], idl[..], i', j, k, total)
    ensures Placed(start, merge[..], idl[..], i', j, k, total, m, n)
  {
    var slot;
    j, slot := MoveOld(idl, merge, merge[i], j0, k0, start, i, total, m, n);
    ghost var before := idl[..];
    idl[slot] := merge[i];
    assert idl[..] == before[slot := merge[i]];
    i', k := i - 1, slot - 1;
    PlaceMerged(start, merge[..], before, idl[..], i, j, slot, i', k, total, m, n);
    CountMerged(start, merge[..], before, idl[..], i, j, slot, i', k, total, m, n);
  }

  /** All rounds. What is then left of the old list is in place. */
  method MergeAll(idl: array<nat>, merge: array<nat>, m: nat, n: nat, total: nat, ghost start: seq<nat>)
    returns (ghost j: nat)
    requires idl != merge && m < merge.Length && n < |start| && total == m + n && idl.Length > 0 && idl[0] == MAX_ID
    requires Descending(start, 1, n) && Descending(merge[..], 1, m)
    requires forall x :: 1 <= x <= m ==> merge[x] <= MAX_ID
    requires Merging(start, merge[..], idl[..], m, n, total, total)
    requires Placed(start, merge[..], idl[..], m, n, total, total, m, n)
    modifies idl
    ensures j <= n && Merging(start, merge[..], idl[..], 0, j, j, total)
    ensures Placed(start, merge[..], idl[..], 0, j, j, total, m, n)
  {
    var i, at, k := m, n, total;
    while i > 0
      invariant i <= m && at <= n && k == i + at && idl[0] == MAX_ID
      invariant Merging(start, merge[..], idl[..], i, at, k, total)
      invariant Placed(start, merge[..], idl[..], i, at, k, total, m, n)
    {
      i, at, k := MergeOne(idl, merge, i, at, k, start, total, m, n);
    }
    j := at;
  }

  /**
   The merge: `idl` gets the ids of both lists in descending order. It works backwards, so it never overwrites an
   id it has not read, and slot 0 holds the largest id as a sentinel meanwhile.
   */
  method Merge(idl: array<nat>, merge: array<nat>)
    requires idl != merge && idl.Length > 0 && merge.Length > 0
    requires merge.Length > merge[0] && idl.Length > idl[0] + merge[0]
    requires Descending(idl[..], 1, idl[0]) && Descending(merge[..], 1, merge[0])
    requires forall x :: 1 <= x <= merge[0] ==> merge[x] <= MAX_ID
    modifies idl
    ensures Merged(old(idl[..]), merge[..], idl[..])
  {
    ghost var start: seq<nat> := idl[..];
    var m, n := merge[0], idl[0];
    var total := m + n;
    idl[0] := MAX_ID;
    MergeStarts(start, merge[..], idl[..], m, n, total);
    ghost var j := MergeAll(idl, merge, m, n, total, start);
    ghost var s := idl[..];
    idl[0] := total;
    MergeDone(start, merge[..], s, idl[..], j, total, m, n);
  }

  // Searching and inserting.

  /** `x` is where `id` is, or else the slot before which all is larger and from which on all is smaller. */
  ghost predicate IsPosition(s: seq<nat>, n: nat, id: nat, x: nat) {
    && n < |s| && 1 <= x <= n + 1
    && ((x <= n && s[x] == id) ||
        ((forall p :: 1 <= p < x ==> s[p] > id) && (forall p :: x <= p <= n ==> s[p] < id)))
  }

  /** The searches count in unsigned 32-bit integers. */
  const UINTS: nat := 0x1_0000_0000

  /** The binary search in the first `all` ids of a descending list. */
  method SearchUpTo(ids: array<nat>, all: nat, id: nat) returns (cursor: nat)
    requires all < ids.Length && Descending(ids[..], 1, all)
    ensures IsPosition(ids[..], all, id, cursor)
    ensures (cursor <= all && ids[cursor] == id) <==> id in ids[1..all + 1]
  {
    var base: nat := 0;
    cursor := 1;
    var val := 0;
    var n := all;
    while 0 < n
      invariant base + n <= all && 1 <= cursor <= all + 1
      invariant val == 0 ==> base == 0 && n == all && cursor == 1
      invariant val < 0 ==> cursor == base + n + 1 && cursor <= all && ids[cursor] < id
      invariant val > 0 ==> cursor == base && 1 <= cursor && ids[cursor] > id
      invariant forall p :: 1 <= p <= base ==> ids[p] > id
      invariant forall p :: base + n < p <= all ==> ids[p] < id
    {
      var pivot := n / 2;
      cursor := base + pivot + 1;
      val := if ids[cursor] < id then -1 else if ids[cursor] > id then 1 else 0;
      if val < 0 {
        n := pivot;
      } else if val > 0 {
        base := cursor;
        n := n - (pivot + 1);
      } else {
        assert ids[1..all + 1][cursor - 1] == id;
        return;
      }
    }
    if val > 0 {
      cursor := cursor + 1;
    }
    assert forall p :: 1 <= p <= all ==> ids[p] != id;
  }

  /**
   `mdb_midl_search`. It takes the length modulo 2^32, and the cursor wraps to 0 if that is 2^32 - 1 and all those ids
   are larger.
   */
  method Search(ids: array<nat>, id: nat) returns (cursor: nat)
    requires ids.Length > 0 && ids[0] < ids.Length && Descending(ids[..], 1, ids[0])
    ensures var n := ids[0] % UINTS;
            if n == UINTS - 1 && (forall p :: 1 <= p <= n ==> ids[p] > id) then cursor == 0
            else IsPosition(ids[..], n, id, cursor)
                 && ((cursor <= n && ids[cursor] == id) <==> id in ids[1..n + 1])
  {
    var n := ids[0] % UINTS;
    var x := SearchUpTo(ids, n, id);
    cursor := x % UINTS;
    assert x <= n ==> ids[x] <= id;
  }

  /** An id with the page it belongs to (`MDB_ID2`); lists of these are in ascending order. */
  datatype Page = Page(id: nat, pointer: nat)

  /** `MDB_IDL_UM_MAX`: the most ids such a list can hold. */
  const MAX_PAGES: nat := 0x1_ffff

  ghost predicate Ascending(s: seq<Page>, n: nat) {
    n < |s| && forall x, y :: 1 <= x < y <= n ==> s[x].id < s[y].id
  }

  /** The binary search in the first `all` pages of an ascending list. */
  method SearchPagesUpTo(ids: array<Page>, all: nat, id: nat) returns (cursor: nat)
    requires all < ids.Length && Ascending(ids[..], all)
    ensures 1 <= cursor <= all + 1
    ensures forall p :: 1 <= p < cursor ==> ids[p].id < id
    ensures forall p :: cursor <= p <= all ==> ids[p].id >= id
  {
    var base: nat := 0;
    cursor := 1;
    var val := 0;
    var n := all;
    while 0 < n
      invariant base + n <= all && 1 <= cursor <= all + 1
      invariant val == 0 ==> base == 0 && n == all && cursor == 1
      invariant val < 0 ==> cursor == base + n + 1 && cursor <= all && ids[cursor].id > id
      invariant val > 0 ==> cursor == base && 1 <= cursor && ids[cursor].id < id
      invariant forall p :: 1 <= p <= base ==> ids[p].id < id
      invariant forall p :: base + n < p <= all ==> ids[p].id > id
    {
      var pivot := n / 2;
      cursor := base + pivot + 1;
      val := if id < ids[cursor].id then -1 else if id > ids[cursor].id then 1 else 0;
      if val < 0 {
        n := pivot;
      } else if val > 0 {
        base := cursor;
        n := n - (pivot + 1);
      } else {
        return;
      }
    }
    if val > 0 {
      cursor := cursor + 1;
    }
  }

  /** `mdb_mid2l_search`, with the length modulo 2^32 as in `Search`. */
  method SearchPages(ids: array<Page>, id: nat) returns (cursor: nat)
    requires ids.Length > 0 && Ascending(ids[..], ids[0].id)
    ensures var n := ids[0].id % UINTS;
            if n == UINTS - 1 && (forall p :: 1 <= p <= n ==> ids[p].id < id) then cursor == 0
            else && 1 <= cursor <= n + 1
                 && (forall p :: 1 <= p < cursor ==> ids[p].id < id)
                 && (forall p :: cursor <= p <= n ==> ids[p].id >= id)
  {
    var n := ids[0].id % UINTS;
    var x := SearchPagesUpTo(ids, n, id);
    cursor := x % UINTS;
    assert x <= n ==> ids[x].id >= id;
  }

  /** `t` is `s` with `page` added in order. */
  ghost predicate Inserted(s: seq<Page>, t: seq<Page>, n: nat, page: Page) {
    && |s| == |t| && n + 1 < |s| && t[0].id == n + 1 && Ascending(t, n + 1)
    && multiset(t[1..n + 2]) == multiset(s[1..n + 1]) + multiset{page}
    && (forall x :: n + 1 < x < |t| ==> t[x] == s[x])
  }

  lemma ShiftInserts(s: seq<Page>, t: seq<Page>, n: nat, x: nat, page: Page)
    requires |s| == |t| && n + 1 < |s| && 1 <= x <= n + 1 && Ascending(s, n) && t[0].id == n + 1
    requires forall p :: 1 <= p < x ==> t[p] == s[p] && s[p].id < page.id
    requires t[x] == page && forall p :: x < p <= n + 1 ==> t[p] == s[p - 1] && s[p - 1].id > page.id
    requires forall p :: n + 1 < p < |t| ==> t[p] == s[p]
    ensures Inserted(s, t, n, page)
  {
    ShiftAdds(s, t, n, x, page);
  }

  lemma ShiftAdds(s: seq<Page>, t: seq<Page>, n: nat, x: nat, page: Page)
    requires |s| == |t| && n + 1 < |s| && 1 <= x <= n + 1 && t[x] == page
    requires forall p :: 1 <= p < x ==> t[p] == s[p]
    requires forall p :: x < p <= n + 1 ==> t[p] == s[p - 1]
    ensures multiset(t[1..n + 2]) == multiset(s[1..n + 1]) + multiset{page}
  {
    assert s[1..n + 1] == s[1..x] + s[x..n + 1];
    assert t[1..n + 2] == s[1..x] + [page] + s[x..n + 1];
  }

  /** Moves the pages from slot `x` on up by one and puts `page` there. */
  method Shift(ids: array<Page>, n: nat, x: nat, page: Page)
    requires n + 1 < ids.Length && 1 <= x <= n + 1
    modifies ids
    ensures ids[0] == old(ids[0]) && ids[x] == page
    ensures forall p :: 1 <= p < x ==> ids[p] == old(ids[p])
    ensures forall p :: x < p <= n + 1 ==> ids[p] == old(ids[p - 1])
    ensures forall p :: n + 1 < p < ids.Length ==> ids[p] == old(ids[p])
  {
    var i := n + 1;
    while i > x
      invariant x <= i <= n + 1 && ids[0] == old(ids[0])
      invariant forall p :: 1 <= p <= i && p <= n ==> ids[p] == old(ids[p])
      invariant forall p :: i < p <= n + 1 ==> ids[p] == old(ids[p - 1])
      invariant forall p :: n + 1 < p < ids.Length ==> ids[p] == old(ids[p])
    {
      ids[i] := ids[i - 1];
      i := i - 1;
    }
    ids[x] := page;
  }

  /**
   `mdb_mid2l_insert`: refuses an id that is there (-1) or a full list (-2), otherwise keeps the order. In a list too
   long for a 32-bit counter an id that is there may be refused as if the list were full.
   */
  method InsertPage(ids: array<Page>, page: Page) returns (r: int)
    requires ids.Length > MAX_PAGES && Ascending(ids[..], ids[0].id)
    modifies ids
    ensures r == -1 ==> exists p :: 1 <= p <= old(ids[0].id) && old(ids[..])[p].id == page.id
    ensures (exists p :: 1 <= p <= old(ids[0].id) && old(ids[..])[p].id == page.id) ==>
              r == -1 || (r == -2 && old(ids[0].id) >= UINTS - 1)
    ensures r == -2 <==> r != -1 && old(ids[0].id) >= MAX_PAGES
    ensures r == 0 || r == -1 || r == -2
    ensures r != 0 ==> ids[..] == old(ids[..])
    ensures r == 0 ==> Inserted(old(ids[..]), ids[..], old(ids[0].id), page)
  {
    ghost var s := ids[..];
    var n: nat := ids[0].id;
    var x := SearchPages(ids, page.id);
    if x < 1 {
      return -2;
    }
    if x <= n && ids[x].id == page.id {
      assert s[x].id == page.id;
      return -1;
    }
    if n >= MAX_PAGES {
      return -2;
    }
    assert forall p :: x <= p <= n ==> s[p].id > page.id;
    ids[0] := Page(n + 1, ids[0].pointer);
    Shift(ids, n, x, page);
    ShiftInserts(s, ids[..], n, x, page);
    return 0;
  }
}
