/**
 The version below which a commit prunes: the oldest that is still read. Whatever was committed at that version or later
 is kept for every reader.
 */
module StoreBase {
  import opened Common
  import opened Histories
  import opened Store
  import opened StoreInvariant
  import opened StoreCommit
  import opened StoreUpgrade
  import opened StoreReaders
  import opened StoreRuns
  import opened StoreUndo
  import opened Snapshots

  /** No version that is read, or may yet be read, is below `base`. */
  ghost predicate BelowReaders(db: Db, base: nat) {
    base <= db.maxVersion && forall i :: 0 <= i < |db.readers| ==> base <= db.readers[i].version
  }

  /** The version a commit starts with is the greatest that no reader is below: the oldest one that is read. */
  lemma BaseIsOldest(db: Db, base: nat)
    requires Valid(db)
    ensures BelowReaders(db, base) <==> base <= StartCommit(db).base
  {
  }

  /** While a commit goes on, it prunes below the readers. */
  ghost predicate BaseOk(db: Db) {
    db.phase.Committing? ==> BelowReaders(db, db.base)
  }

  lemma StepBase(db: Db, ev: Event)
    requires Valid(db) && Enabled(db, ev) && BaseOk(db)
    ensures BaseOk(Apply(db, ev))
  {
    VersionGrows(db, ev);
    if db.phase.Idle? || db.phase.Writing? {
      StepPhase(db, ev);
    }
    if ev.StartCommitting? {
      BaseIsOldest(db, BaseOf(db));
    } else if ev.StopReading? {
      assert forall reader :: reader in EndRead(db, ev.index).readers ==> reader in db.readers;
    }
  }

  lemma {:induction false} RunBase(db: Db, evs: seq<Event>)
    requires Valid(db) && IsRun(db, evs) && BaseOk(db)
    ensures BaseOk(After(db, evs))
    decreases |evs|
  {
    if evs != [] {
      StepKeeps(db, evs[0]);
      StepBase(db, evs[0]);
      RunBase(Apply(db, evs[0]), evs[1..]);
    }
  }

  /** In every reachable state a commit prunes below the version of every active reader. */
  lemma CommitsPruneBelowReaders(evs: seq<Event>)
    requires IsRun(START, evs)
    ensures BaseOk(After(START, evs))
  {
    StartValid();
    RunBase(START, evs);
  }

  // What that keeps.

  /** The entry that a reader at `v` uses. */
  function EntryAt<T>(h: History<T>, v: nat): Option<Entry<T>> {
    var i := IndexAt(h.stable, v);
    if i >= 0 then Some(h.stable[i]) else None
  }

  /** The reader uses no entry that was committed before `floor`. */
  predicate Since<T>(h: History<T>, v: nat, floor: nat) {
    EntryAt(h, v).Some? ==> EntryAt(h, v).value.version >= floor
  }

  lemma PruneEntry<T>(h: History<T>, base: nat, v: nat)
    requires Increasing(h.stable)
    ensures EntryAt(Prune(h, base), v) == EntryAt(h, v) || EntryAt(Prune(h, base), v) == None
  {
    var left := Prune(h, base).stable;
    var m := |h.stable| - |left|;
    PruneSuffix(h, base);
    SuffixIndexAt(h.stable, m, v);
    assert IndexAt(left, v) >= 0 ==> left[IndexAt(left, v)] == h.stable[m + IndexAt(left, v)];
  }

  lemma CommitEntry<T>(h: History<T>, c: nat, v: nat)
    requires v < c
    ensures EntryAt(Commit(h, c), v) == EntryAt(h, v)
  {
    if h.unstable.Some? {
      var s := Commit(h, c).stable;
      assert s[..|s| - 1] == h.stable;
    }
  }

  /** The entry a reader uses stays, or is gone; it is never replaced. */
  ghost predicate EntriesStay(db: Db, after: Db, v: nat, s: Spot, t: Side) {
    && (EntryAt(after.Adj(s), v) == EntryAt(db.Adj(s), v) || EntryAt(after.Adj(s), v) == None)
    && (EntryAt(after.End(t), v) == EntryAt(db.End(t), v) || EntryAt(after.End(t), v) == None)
  }

  lemma ExecuteEntries(db: Db, v: nat, s: Spot, t: Side)
    requires Valid(db) && Enabled(db, ExecuteNext) && v <= db.maxVersion
    ensures EntriesStay(db, db.Execute(), v, s, t)
  {
    match db.prog[0]
    case PruneList(d, x) =>
      PruneListIs(db, d, x, db.Execute(), s);
      PruneListFrame(db, d, x, db.Execute());
      PruneEntry(db.Adj(s), db.base, v);
    case Upgrade(u) =>
      UpgradeIs(db, u, db.Execute(), db.maxVersion + 1, s);
      UpgradeFrame(db, u, db.Execute());
      CommitEntry(db.Adj(s), db.maxVersion + 1, v);
  }

  lemma PickIs(db: Db, o: Oid, t: Side)
    ensures db.Pick(o).adj == db.adj
    ensures db.Pick(o).End(t) == db.End(t) || db.Pick(o).End(t) == Prune(db.End(t), db.base)
  {
  }

  lemma VisitEdgeEntries(db: Db, r: RecordId, v: nat, s: Spot, t: Side)
    requires Valid(db) && Enabled(db, VisitEdge(r))
    ensures EntriesStay(db, db.Pick(db.e.mine[r]), v, s, t)
  {
    assert SideOk(db, t);
    PickIs(db, db.e.mine[r], t);
    PruneEntry(db.End(t), db.base, v);
  }

  lemma FinishEntries(db: Db, v: nat, s: Spot, t: Side)
    requires Valid(db) && Enabled(db, FinishEdge) && v <= db.maxVersion
    ensures EntriesStay(db, db.Finish(db.current.value), v, s, t)
  {
    FinishEnds(db, db.current.value, db.Finish(db.current.value), db.maxVersion + 1, t);
    CommitEntry(db.End(t), db.maxVersion + 1, v);
  }

  lemma StepEntries(db: Db, ev: Event, v: nat, s: Spot, t: Side)
    requires Valid(db) && Enabled(db, ev) && v <= db.maxVersion
    ensures EntriesStay(db, Apply(db, ev), v, s, t)
  {
    if ev.ExecuteNext? {
      ExecuteEntries(db, v, s, t);
    } else if ev.VisitEdge? {
      VisitEdgeEntries(db, ev.rid, v, s, t);
    } else if ev.FinishEdge? {
      FinishEntries(db, v, s, t);
    } else if db.phase.Idle? || db.phase.Writing? {
      StepSteady(db, ev);
      SteadyEntries(db, Apply(db, ev), v, s, t);
    } else {
      OtherStep(db, ev);
    }
  }

  lemma SteadyEntries(db: Db, after: Db, v: nat, s: Spot, t: Side)
    requires Steady(db, after)
    ensures EntriesStay(db, after, v, s, t)
  {
    assert after.Adj(s).stable == db.Adj(s).stable && after.End(t).stable == db.End(t).stable;
  }

  /** The other steps of a commit change no history. */
  lemma OtherStep(db: Db, ev: Event)
    requires Enabled(db, ev) && (db.phase.Committing? || db.phase.Published?)
    requires !ev.ExecuteNext? && !ev.VisitEdge? && !ev.FinishEdge?
    ensures Apply(db, ev).adj == db.adj && Apply(db, ev).ends == db.ends
  {
  }

  /** A step spares what was committed since the version of any active reader. */
  lemma StepSpares(db: Db, ev: Event, keeper: Reader, v: nat, s: Spot, t: Side)
    requires Valid(db) && BaseOk(db) && Enabled(db, ev) && Active(db, keeper)
    ensures Since(db.Adj(s), v, keeper.version) ==> SparesSpot(db, ev, s, v)
    ensures Since(db.End(t), v, keeper.version) ==> SparesSide(db, ev, t, v)
  {
    var i :| 0 <= i < |db.readers| && db.readers[i] == keeper;
    assert db.phase.Committing? ==> db.base <= db.readers[i].version;
  }

  /** While `keeper` reads, no commit prunes what any reader uses and was committed since `keeper`'s version. */
  lemma {:induction false} RunSpares(db: Db, evs: seq<Event>, keeper: Reader, v: nat, s: Spot, t: Side)
    requires Valid(db) && BaseOk(db) && IsRun(db, evs) && Active(db, keeper) && ReadsThrough(db, evs, keeper)
    requires v <= db.maxVersion
    ensures Since(db.Adj(s), v, keeper.version) ==> SpotSpared(db, evs, s, v)
    ensures Since(db.End(t), v, keeper.version) ==> SideSpared(db, evs, t, v)
    decreases |evs|
  {
    if evs != [] {
      var one := Apply(db, evs[0]);
      StepKeeps(db, evs[0]);
      StepBase(db, evs[0]);
      StaysActive(db, evs[0], keeper);
      VersionGrows(db, evs[0]);
      StepEntries(db, evs[0], v, s, t);
      StepSpares(db, evs[0], keeper, v, s, t);
      RunSpares(one, evs[1..], keeper, v, s, t);
    }
  }

  /**
   From any reachable state on, for as long as some reader `keeper` goes on, every other reader that goes on is answered
   the same about every list place and every end whose entry was committed at `keeper`'s version or later.
   */
  lemma ReadsAreKept(before: seq<Event>, evs: seq<Event>, keeper: Reader, reader: Reader, s: Spot, t: Side)
    requires IsRun(START, before) && IsRun(After(START, before), evs)
    requires var db := After(START, before);
             && Active(db, keeper) && ReadsThrough(db, evs, keeper)
             && Active(db, reader) && ReadsThrough(db, evs, reader)
    ensures var db, v := After(START, before), reader.version;
            && (Since(db.Adj(s), v, keeper.version) ==> ListAnswers(db, After(db, evs), v, s, true))
            && (Since(db.End(t), v, keeper.version) ==> EndAnswers(db, After(db, evs), v, t, true))
  {
    var db := After(START, before);
    StartValid();
    RunKeeps(START, before);
    CommitsPruneBelowReaders(before);
    ReadersAreServed(before);
    var i :| 0 <= i < |db.readers| && db.readers[i] == reader;
    RunSpares(db, evs, keeper, reader.version, s, t);
    ReaderAnswers(db, evs, reader, s, t);
  }
}
