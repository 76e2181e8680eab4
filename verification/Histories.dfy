/**
 Version histories as values: what a `VersionControl` object holds, and what reading and updating it means.

 A history has committed entries, oldest first, and at most one uncommitted ("unstable") entry.
 */
module Histories {
  import opened Common

  datatype Entry<+T> = Entry(version: nat, active: bool, item: T)

  datatype Slot<+T> = Slot(active: bool, item: T)

  datatype History<+T> = History(stable: seq<Entry<T>>, unstable: Option<Slot<T>>)

  function Empty<T>(): History<T> {
    History([], None)
  }

  // Updates by the writer.

  function AddLatest<T>(h: History<T>, item: T): History<T> {
    History(h.stable, Some(Slot(true, item)))
  }

  /** Tombstones the latest version; a history without any version is left alone. */
  function DeleteLatest<T>(h: History<T>): History<T> {
    match h.unstable
    case Some(slot) => History(h.stable, Some(Slot(false, slot.item)))
    case None =>
      if h.stable == [] then h
      else History(h.stable, Some(Slot(false, h.stable[|h.stable| - 1].item)))
  }

  function Commit<T>(h: History<T>, version: nat): History<T> {
    match h.unstable
    case Some(slot) => History(h.stable + [Entry(version, slot.active, slot.item)], None)
    case None => h
  }

  function Rollback<T>(h: History<T>): History<T> {
    History(h.stable, None)
  }

  /** Drops entries older than `base` from the front, but never the last one. */
  function DropOld<T>(s: seq<Entry<T>>, base: nat): (r: seq<Entry<T>>)
    ensures |r| <= |s| && (s != [] ==> r != [])
  {
    if |s| > 1 && s[0].version < base then DropOld(s[1..], base) else s
  }

  lemma {:induction false} DropOldSuffix<T>(s: seq<Entry<T>>, base: nat)
    ensures DropOld(s, base) == s[|s| - |DropOld(s, base)|..]
  {
    if |s| > 1 && s[0].version < base {
      DropOldSuffix(s[1..], base);
    }
  }

  /** `clearStableVersion`: drop old entries, then a lone old tombstone. */
  function Prune<T>(h: History<T>, base: nat): History<T> {
    var s := DropOld(h.stable, base);
    if |s| == 1 && s[0].version < base && !s[0].active then History([], h.unstable) else History(s, h.unstable)
  }

  // Reads.

  /** The newest committed object, if it is not a tombstone. */
  function Tip<T>(h: History<T>): Option<T> {
    if h.stable != [] && h.stable[|h.stable| - 1].active then Some(h.stable[|h.stable| - 1].item) else None
  }

  /** What the writer sees. */
  function Latest<T>(h: History<T>): Option<T> {
    match h.unstable
    case Some(slot) => if slot.active then Some(slot.item) else None
    case None => Tip(h)
  }

  /** The position of the newest entry at or before version `v`, or -1. */
  function IndexAt<T>(s: seq<Entry<T>>, v: nat): (i: int)
    ensures -1 <= i < |s|
    ensures i >= 0 ==> s[i].version <= v
    ensures forall k :: i < k < |s| ==> s[k].version > v
  {
    if s == [] then -1
    else if s[|s| - 1].version <= v then |s| - 1
    else IndexAt(s[..|s| - 1], v)
  }

  /** What a reader at version `v` sees. */
  function ReadAt<T>(h: History<T>, v: nat): Option<T> {
    var i := IndexAt(h.stable, v);
    if i >= 0 && h.stable[i].active then Some(h.stable[i].item) else None
  }

  ghost predicate Increasing<T>(s: seq<Entry<T>>) {
    forall i, j :: 0 <= i < j < |s| ==> s[i].version < s[j].version
  }

  ghost predicate UpTo<T>(s: seq<Entry<T>>, v: nat) {
    forall i :: 0 <= i < |s| ==> s[i].version <= v
  }

  // Committing.

  lemma IndexAtIs<T>(s: seq<Entry<T>>, v: nat, i: int)
    requires -1 <= i < |s| && (i >= 0 ==> s[i].version <= v) && forall k :: i < k < |s| ==> s[k].version > v
    ensures IndexAt(s, v) == i
  {
  }

  /** A commit at `c` keeps the order and changes reads only at or above `c`; the writer's view stays the same. */
  lemma CommitReads<T>(h: History<T>, c: nat, v: nat)
    requires Increasing(h.stable) && (h.unstable.Some? ==> forall i :: 0 <= i < |h.stable| ==> h.stable[i].version < c)
    ensures Increasing(Commit(h, c).stable)
    ensures v < c ==> ReadAt(Commit(h, c), v) == ReadAt(h, v)
    ensures h.unstable.Some? && v >= c ==> ReadAt(Commit(h, c), v) == Latest(h)
    ensures Latest(Commit(h, c)) == Latest(h) && Tip(Commit(h, c)) == Latest(h)
  {
    if h.unstable.Some? {
      var s := Commit(h, c).stable;
      if v < c {
        assert s[..|s| - 1] == h.stable;
      }
    }
  }

  /** A reader at or above every entry sees the newest one. */
  lemma ReadAtTip<T>(h: History<T>, v: nat)
    requires UpTo(h.stable, v)
    ensures ReadAt(h, v) == Tip(h)
  {
  }

  // Pruning.

  /**
   The entry a reader at `v` uses survives pruning, or is a tombstone: it is the last entry, or not older than the
   base, or there is none.
   */
  predicate Keeps<T>(h: History<T>, base: nat, v: nat) {
    var i := IndexAt(h.stable, v);
    i < 0 || i == |h.stable| - 1 || h.stable[i].version >= base || !h.stable[i].active
  }

  /** Exactly the entries older than the base, except the last one, are dropped. */
  lemma {:induction false} DropOldDrops<T>(s: seq<Entry<T>>, base: nat, k: nat)
    requires Increasing(s) && k < |s|
    ensures k < |s| - |DropOld(s, base)| <==> k < |s| - 1 && s[k].version < base
  {
    if |s| > 1 && s[0].version < base && k > 0 {
      DropOldDrops(s[1..], base, k - 1);
    }
  }

  lemma SuffixIndexAt<T>(s: seq<Entry<T>>, m: nat, v: nat)
    requires m <= |s| && Increasing(s)
    ensures IndexAt(s[m..], v) == if IndexAt(s, v) >= m then IndexAt(s, v) - m else -1
  {
    var i := IndexAt(s, v);
    if i >= m {
      IndexAtIs(s[m..], v, i - m);
    } else {
      IndexAtIs(s[m..], v, -1);
    }
  }

  /** Reading after the first `m` entries are dropped. */
  lemma SuffixReads<T>(h: History<T>, m: nat, t: seq<Entry<T>>, v: nat)
    requires m <= |h.stable| && Increasing(h.stable) && t == h.stable[m..]
    ensures ReadAt(History(t, h.unstable), v) == if IndexAt(h.stable, v) >= m then ReadAt(h, v) else None
  {
    SuffixIndexAt(h.stable, m, v);
  }

  /** Dropping a lone tombstone is not visible to any reader. */
  lemma LoneTombstoneReads<T>(h: History<T>, v: nat)
    requires |h.stable| == 1 && !h.stable[0].active
    ensures ReadAt(h, v) == None && ReadAt(History([], h.unstable), v) == None
  {
  }

  lemma PruneReadsAs<T>(h: History<T>, base: nat, v: nat, t: seq<Entry<T>>)
    requires t == DropOld(h.stable, base)
    ensures ReadAt(Prune(h, base), v) == ReadAt(History(t, h.unstable), v)
  {
    if |t| == 1 && !t[0].active {
      LoneTombstoneReads(History(t, h.unstable), v);
    }
  }

  /** Pruning changes what a reader at `v` sees exactly when it drops the live entry that reader uses. */
  lemma PruneReads<T>(h: History<T>, base: nat, v: nat)
    requires Increasing(h.stable)
    ensures ReadAt(Prune(h, base), v) == ReadAt(h, v) <==> Keeps(h, base, v)
    ensures ReadAt(Prune(h, base), v) == ReadAt(h, v) || ReadAt(Prune(h, base), v) == None
  {
    var t, i := DropOld(h.stable, base), IndexAt(h.stable, v);
    var m := |h.stable| - |t|;
    DropOldSuffix(h.stable, base);
    PruneReadsAs(h, base, v, t);
    SuffixReads(h, m, t, v);
    if i >= 0 {
      DropOldDrops(h.stable, base, i);
    }
  }

  /** Pruning keeps the order, the writer's view, the newest committed object and nothing new. */
  lemma PruneKeeps<T>(h: History<T>, base: nat)
    requires Increasing(h.stable)
    ensures Increasing(Prune(h, base).stable)
    ensures Latest(Prune(h, base)) == Latest(h) && Tip(Prune(h, base)) == Tip(h)
    ensures Prune(h, base).unstable == h.unstable
    ensures forall v :: UpTo(h.stable, v) ==> UpTo(Prune(h, base).stable, v)
  {
    DropOldSuffix(h.stable, base);
  }

  lemma PruneSuffix<T>(h: History<T>, base: nat)
    ensures |Prune(h, base).stable| <= |h.stable|
    ensures Prune(h, base).stable == h.stable[|h.stable| - |Prune(h, base).stable|..]
    ensures Prune(h, base).unstable == h.unstable
  {
    DropOldSuffix(h.stable, base);
  }

  /** A reader at or above the oldest surviving entry, or above all entries when none survives, is never affected. */
  lemma AboveOldestIsKept<T>(h: History<T>, base: nat, v: nat)
    requires Increasing(h.stable)
    requires var left := Prune(h, base).stable;
             if left != [] then v >= left[0].version else UpTo(h.stable, v)
    ensures Keeps(h, base, v) && ReadAt(Prune(h, base), v) == ReadAt(h, v)
  {
    var s := DropOld(h.stable, base);
    var i := IndexAt(h.stable, v);
    DropOldSuffix(h.stable, base);
    PruneReads(h, base, v);
    if i >= 0 && Prune(h, base).stable != [] {
      DropOldDrops(h.stable, base, i);
      SuffixIndexAt(h.stable, |h.stable| - |s|, v);
    }
  }

  /** Entries at versions 1 and 5, base 3: the reader at 3 loses the entry it has been reading. */
  lemma PruneLosesReader(h: History<nat>)
    requires h == History([Entry(1, true, 7), Entry(5, true, 8)], None)
    ensures ReadAt(h, 3) == Some(7) && ReadAt(Prune(h, 3), 3) == None
  {
    IndexAtIs(h.stable, 3, 0);
    PruneReads(h, 3, 3);
  }
}
