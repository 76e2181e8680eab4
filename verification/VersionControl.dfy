/**
 The version control of one value, in place, refines the histories of module Histories.
 */
module VersionControls {
  import opened Common
  import opened Histories

  /**
   Committed entries in a vector, and one uncommitted entry that counts only while it is visible: what it held before
   stays behind, unread, when it is made invisible.
   */
  class VersionControl<T(0)> {
    var stable: seq<Entry<T>>
    var latest: Slot<T>
    var visible: bool

    function Value(): History<T>
      reads this
    {
      History(stable, if visible then Some(latest) else None)
    }

    constructor ()
      ensures Value() == Empty()
    {
      stable := [];
      latest := *;
      visible := false;
    }

    method AddLatestVersion(item: T)
      modifies this
      ensures Value() == AddLatest(old(Value()), item)
    {
      latest, visible := Slot(true, item), true;
    }

    method DeleteLatestVersion()
      modifies this
      ensures Value() == DeleteLatest(old(Value()))
    {
      if !visible {
        if stable != [] {
          latest, visible := Slot(true, stable[|stable| - 1].item), true;
        }
      }
      latest := latest.(active := false);
    }

    method GetLatestVersion() returns (r: Option<T>)
      ensures r == Latest(Value())
    {
      if visible {
        if latest.active {
          return Some(latest.item);
        }
      } else if stable != [] {
        if stable[|stable| - 1].active {
          return Some(stable[|stable| - 1].item);
        }
      }
      return None;
    }

    /** Searches from the newest entry down. */
    method GetStableVersion(version: nat) returns (r: Option<T>)
      ensures r == ReadAt(Value(), version)
    {
      var i := |stable|;
      while i > 0
        invariant 0 <= i <= |stable|
        invariant forall k :: i <= k < |stable| ==> stable[k].version > version
      {
        i := i - 1;
        if stable[i].version <= version {
          IndexAtIs(stable, version, i);
          return if stable[i].active then Some(stable[i].item) else None;
        }
      }
      IndexAtIs(stable, version, -1);
      return None;
    }

    /** Erases old entries from the front, one at a time, but not the last one. */
    method EraseOld(base: nat)
      requires |stable| > 0
      modifies this
      ensures stable == DropOld(old(stable), base) && visible == old(visible) && latest == old(latest)
    {
      while |stable| > 1 && stable[0].version < base
        invariant |stable| > 0 && visible == old(visible) && latest == old(latest)
        invariant DropOld(stable, base) == DropOld(old(stable), base)
        decreases |stable|
      {
        stable := stable[1..];
      }
    }

    /** Prunes; reports how many versions are left, committed or not. */
    method ClearStableVersion(base: nat) returns (size: nat)
      modifies this
      ensures Value() == Prune(old(Value()), base)
      ensures size == 0 <==> Value() == Empty()
    {
      if |stable| > 0 {
        EraseOld(base);
        if |stable| == 1 && stable[0].version < base && !stable[0].active {
          stable := [];
        }
      }
      return |stable| + if visible then 1 else 0;
    }

    method ClearUnstableVersion() returns (size: nat)
      modifies this
      ensures Value() == Rollback(old(Value()))
      ensures size == 0 <==> Value() == Empty()
    {
      DisableUnstableVersion();
      return |stable|;
    }

    /** Commits the uncommitted entry. */
    method UpgradeStableVersion(version: nat)
      modifies this
      ensures Value() == Commit(old(Value()), version)
    {
      if visible {
        DisableUnstableVersion();
        stable := stable + [Entry(version, latest.active, latest.item)];
      }
    }

    /** Rolls the uncommitted entry back. */
    method DisableUnstableVersion()
      modifies this
      ensures Value() == Rollback(old(Value())) && latest == old(latest)
    {
      visible := false;
    }
  }

  // Whole runs.

  datatype Update<T> = Add(item: T) | Delete | Upgrade(version: nat) | Disable | Clear(base: nat)

  function Updated<T>(h: History<T>, u: Update<T>): History<T> {
    match u
    case Add(item) => AddLatest(h, item)
    case Delete => DeleteLatest(h)
    case Upgrade(version) => Commit(h, version)
    case Disable => Rollback(h)
    case Clear(base) => Prune(h, base)
  }

  function UpdatedBy<T>(h: History<T>, us: seq<Update<T>>): History<T>
    decreases |us|
  {
    if us == [] then h else UpdatedBy(Updated(h, us[0]), us[1..])
  }

  /** The writer's versions increase: every commit is above all versions committed before it. */
  ghost predicate Ascends<T>(us: seq<Update<T>>, above: nat)
    decreases |us|
  {
    us == [] ||
    match us[0]
    case Upgrade(version) => version > above && Ascends(us[1..], version)
    case _ => Ascends(us[1..], above)
  }

  /** Every prune spares the entry that a reader at `v` uses. */
  ghost predicate SparesReader<T>(h: History<T>, us: seq<Update<T>>, v: nat)
    decreases |us|
  {
    us == [] || ((us[0].Clear? ==> Keeps(h, us[0].base, v)) && SparesReader(Updated(h, us[0]), us[1..], v))
  }

  lemma UpdateKeepsOrder<T>(h: History<T>, u: Update<T>, above: nat)
    requires Increasing(h.stable) && UpTo(h.stable, above) && (u.Upgrade? ==> u.version > above)
    ensures Increasing(Updated(h, u).stable)
    ensures UpTo(Updated(h, u).stable, if u.Upgrade? then u.version else above)
  {
    match u
    case Upgrade(c) => CommitReads(h, c, above);
    case Clear(base) => PruneKeeps(h, base);
    case _ =>
  }

  /** In every run the committed versions are strictly increasing. */
  lemma {:induction false} RunKeepsOrder<T>(h: History<T>, us: seq<Update<T>>, above: nat)
    requires Increasing(h.stable) && UpTo(h.stable, above) && Ascends(us, above)
    ensures Increasing(UpdatedBy(h, us).stable)
    decreases |us|
  {
    if us != [] {
      UpdateKeepsOrder(h, us[0], above);
      RunKeepsOrder(Updated(h, us[0]), us[1..], if us[0].Upgrade? then us[0].version else above);
    }
  }

  lemma UpdateKeepsRead<T>(h: History<T>, u: Update<T>, above: nat, v: nat)
    requires Increasing(h.stable) && UpTo(h.stable, above) && v <= above && (u.Upgrade? ==> u.version > above)
    ensures ReadAt(Updated(h, u), v) == ReadAt(h, v) <==> (u.Clear? ==> Keeps(h, u.base, v))
  {
    match u
    case Upgrade(c) => CommitReads(h, c, v);
    case Clear(base) => PruneReads(h, base, v);
    case _ =>
  }

  /** In every run that spares it, what a reader at `v` sees is what it saw when it began. */
  lemma {:induction false} RunKeepsRead<T>(h: History<T>, us: seq<Update<T>>, above: nat, v: nat)
    requires Increasing(h.stable) && UpTo(h.stable, above) && Ascends(us, above) && v <= above
    requires SparesReader(h, us, v)
    ensures ReadAt(UpdatedBy(h, us), v) == ReadAt(h, v)
    decreases |us|
  {
    if us != [] {
      UpdateKeepsOrder(h, us[0], above);
      UpdateKeepsRead(h, us[0], above, v);
      RunKeepsRead(Updated(h, us[0]), us[1..], if us[0].Upgrade? then us[0].version else above, v);
    }
  }
}
