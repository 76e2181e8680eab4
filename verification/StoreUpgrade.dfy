/**
 Upgrading the lists and ends of the edge being committed keeps the invariant and the writer's view.
 */
module StoreUpgrade {
  import opened Common
  import opened Histories
  import opened Store
  import opened StoreInvariant
  import opened StoreCommit

  ghost predicate Executing(db: Db) {
    TablesOk(db) && PhaseOk(db) && HistoriesOk(db) && db.phase.Committing? && db.current.Some? && db.prog != []
  }

  // Pruning a vertex's list.

  lemma PruneListIs(db: Db, d: Direction, x: Oid, after: Db, s: Spot)
    requires Executing(db) && db.prog[0] == PruneList(d, x) && after == db.Execute()
    ensures var h, g := db.Adj(s), after.Adj(s);
            && (g == h || g == Prune(h, db.base)) && Increasing(h.stable)
            && Latest(g) == Latest(h) && Tip(g) == Tip(h) && g.unstable == h.unstable
    ensures after.Adj(s) == if s.direction == d && s.vertex == x then Prune(db.Adj(s), db.base) else db.Adj(s)
    ensures Upgrade(s) in after.prog <==> Upgrade(s) in db.prog
  {
    assert SpotOk(db, s);
    PruneKeeps(db.Adj(s), db.base);
    assert db.prog == [db.prog[0]] + db.prog[1..];
  }

  lemma PruneListSpot(db: Db, d: Direction, x: Oid, after: Db, s: Spot)
    requires Executing(db) && db.prog[0] == PruneList(d, x) && after == db.Execute() && SpotOk(db, s)
    ensures SpotOk(after, s)
  {
    if s in db.adj {
      PrunedDated(db.adj[s], db.base, Limit(db), db.maxVersion);
      PrunedSpot(db.adj[s], db.base, db.e, s.edge);
    }
  }

  lemma PruneListFrame(db: Db, d: Direction, x: Oid, after: Db)
    requires Executing(db) && db.prog[0] == PruneList(d, x) && after == db.Execute()
    ensures after == db.(adj := after.adj, prog := db.prog[1..])
  {
  }

  /** Where neither the uncommitted version, nor the newest committed one, nor the commands change. */
  lemma PendingAt(db: Db, after: Db, s: Spot)
    requires after == db.(adj := after.adj, prog := after.prog)
    requires after.Adj(s).unstable == db.Adj(s).unstable && Tip(after.Adj(s)) == Tip(db.Adj(s))
    requires Upgrade(s) in after.prog <==> Upgrade(s) in db.prog
    requires Promised(db, s) && Harmless(db, s) && InstrOk(db, s)
    ensures Promised(after, s) && Harmless(after, s) && InstrOk(after, s)
  {
    assert Owed(after, s) == Owed(db, s);
  }

  lemma PruneListPending(db: Db, d: Direction, x: Oid, after: Db)
    requires Executing(db) && db.prog[0] == PruneList(d, x) && after == db.Execute() && Pending(db)
    ensures Pending(after)
  {
    PruneListFrame(db, d, x, after);
    forall s ensures Promised(after, s) && Harmless(after, s) && InstrOk(after, s) {
      assert Promised(db, s) && Harmless(db, s) && InstrOk(db, s);
      PruneListIs(db, d, x, after, s);
      PendingAt(db, after, s);
    }
    forall s ensures SidePending(after, s) {
      assert SidePending(db, s);
    }
  }

  lemma PruneListHistories(db: Db, d: Direction, x: Oid, after: Db)
    requires Executing(db) && db.prog[0] == PruneList(d, x) && after == db.Execute()
    ensures HistoriesOk(after) && SameView(db, after) && TablesOk(after) && PhaseOk(after)
  {
    PruneListFrame(db, d, x, after);
    forall s ensures SpotOk(after, s) {
      assert SpotOk(db, s);
      PruneListSpot(db, d, x, after, s);
    }
    forall s ensures SideOk(after, s) {
      assert SideOk(db, s);
    }
    forall s ensures Latest(after.Adj(s)) == Latest(db.Adj(s)) {
      PruneListIs(db, d, x, after, s);
    }
  }

  lemma PruneListCommitted(db: Db, d: Direction, x: Oid, after: Db)
    requires Executing(db) && db.prog[0] == PruneList(d, x) && after == db.Execute() && Committed(db)
    ensures Committed(after)
  {
    forall s ensures TipStored(after, s) {
      assert TipStored(db, s);
      PruneListIs(db, d, x, after, s);
    }
    forall s, v: nat ensures ListedExisted(after, s, v) {
      assert ListedExisted(db, s, v);
      PruneListIs(db, d, x, after, s);
      PrunedReads(db.Adj(s), db.base, v);
    }
    forall s, v: nat ensures EndExisted(after, s, v) {
      assert EndExisted(db, s, v);
    }
  }

  lemma PruneListKeeps(db: Db, d: Direction, x: Oid, after: Db)
    requires Valid(db) && Executing(db) && db.prog[0] == PruneList(d, x) && after == db.Execute()
    ensures Valid(after)
  {
    PruneListHistories(db, d, x, after);
    SameViewAgrees(db, after);
    PruneListPending(db, d, x, after);
    PruneListCommitted(db, d, x, after);
    PruneListFrame(db, d, x, after);
    assert ReadersOk(after);
  }

  // Upgrading one place of a list.

  lemma CommitLatest(h: History<Oid>, c: nat, latest: nat)
    requires Dated(h, c, latest) && c == latest + 1
    ensures Dated(Commit(h, c), c, latest) && Latest(Commit(h, c)) == Latest(h) && Commit(h, c).unstable.None?
    ensures h.unstable.Some? ==> Tip(Commit(h, c)) == Latest(h)
    ensures forall v: nat :: v <= latest ==> ReadAt(Commit(h, c), v) == ReadAt(h, v)
  {
    CommitReads(h, c, latest);
    forall v: nat | v <= latest ensures ReadAt(Commit(h, c), v) == ReadAt(h, v) {
      CommitReads(h, c, v);
    }
  }

  lemma UpgradeIs(db: Db, t: Spot, after: Db, c: nat, s: Spot)
    requires Executing(db) && db.prog[0] == Upgrade(t) && after == db.Execute() && c == db.maxVersion + 1
    ensures after.Adj(s) == if s == t then Commit(db.Adj(s), c) else db.Adj(s)
    ensures Latest(after.Adj(s)) == Latest(db.Adj(s))
    ensures s != t ==> (Upgrade(s) in after.prog <==> Upgrade(s) in db.prog)
    ensures Upgrade(s) in after.prog ==> Upgrade(s) in db.prog
    ensures Upgrade(t) in db.prog
  {
    assert SpotOk(db, s);
    CommitLatest(db.Adj(s), c, db.maxVersion);
    assert db.prog == [db.prog[0]] + db.prog[1..];
  }

  lemma UpgradeSpot(db: Db, t: Spot, after: Db, c: nat, s: Spot)
    requires Executing(db) && db.prog[0] == Upgrade(t) && after == db.Execute() && c == db.maxVersion + 1
    requires SpotOk(db, s) && InstrOk(db, t)
    ensures SpotOk(after, s)
  {
    UpgradeIs(db, t, after, c, s);
    if s == t && s in db.adj {
      CommitLatest(db.adj[s], c, db.maxVersion);
    }
  }

  lemma UpgradePending(db: Db, t: Spot, after: Db, c: nat)
    requires Executing(db) && db.prog[0] == Upgrade(t) && after == db.Execute() && c == db.maxVersion + 1
    requires Pending(db)
    ensures Pending(after)
  {
    forall s ensures Promised(after, s) && Harmless(after, s) && InstrOk(after, s) {
      assert Promised(db, s) && Harmless(db, s) && InstrOk(db, s) && SpotOk(db, s);
      UpgradeIs(db, t, after, c, s);
      CommitLatest(db.Adj(s), c, db.maxVersion);
    }
    forall s ensures SidePending(after, s) {
      assert SidePending(db, s);
    }
  }

  /** What is upgraded is the edge being visited, which is stored and not deleted before this version. */
  lemma UpgradeTip(db: Db, t: Spot, after: Db, c: nat)
    requires Executing(db) && db.prog[0] == Upgrade(t) && after == db.Execute() && c == db.maxVersion + 1
    requires TipStored(db, t) && Promised(db, t) && InstrOk(db, t)
    ensures TipStored(after, t)
  {
    UpgradeIs(db, t, after, c, t);
    assert SpotOk(db, t);
    CommitLatest(db.Adj(t), c, db.maxVersion);
    assert StoredOk(db.e, c, db.current, t.edge) && MineOk(db.e, db.current, t.edge);
  }

  lemma UpgradeCommitted(db: Db, t: Spot, after: Db, c: nat)
    requires Executing(db) && db.prog[0] == Upgrade(t) && after == db.Execute() && c == db.maxVersion + 1
    requires Pending(db) && Committed(db)
    ensures Committed(after)
  {
    forall s ensures TipStored(after, s) {
      assert TipStored(db, s) && Promised(db, s) && InstrOk(db, s);
      UpgradeIs(db, t, after, c, s);
      if s == t {
        UpgradeTip(db, t, after, c);
      }
    }
    forall s, v: nat ensures ListedExisted(after, s, v) {
      assert ListedExisted(db, s, v) && SpotOk(db, s);
      UpgradeIs(db, t, after, c, s);
      CommitLatest(db.Adj(s), c, db.maxVersion);
    }
    forall s, v: nat ensures EndExisted(after, s, v) {
      assert EndExisted(db, s, v);
    }
  }

  lemma UpgradeFrame(db: Db, t: Spot, after: Db)
    requires Executing(db) && db.prog[0] == Upgrade(t) && after == db.Execute()
    ensures after == db.(adj := after.adj, prog := db.prog[1..])
  {
  }

  lemma UpgradeHistories(db: Db, t: Spot, after: Db, c: nat)
    requires Executing(db) && db.prog[0] == Upgrade(t) && after == db.Execute() && c == db.maxVersion + 1
    requires InstrOk(db, t)
    ensures HistoriesOk(after) && SameView(db, after) && TablesOk(after) && PhaseOk(after)
  {
    UpgradeFrame(db, t, after);
    forall s ensures SpotOk(after, s) {
      assert SpotOk(db, s);
      UpgradeSpot(db, t, after, c, s);
    }
    forall s ensures SideOk(after, s) {
      assert SideOk(db, s);
    }
    forall s ensures Latest(after.Adj(s)) == Latest(db.Adj(s)) {
      UpgradeIs(db, t, after, c, s);
    }
  }

  lemma UpgradeKeeps(db: Db, t: Spot, after: Db)
    requires Valid(db) && Executing(db) && db.prog[0] == Upgrade(t) && after == db.Execute()
    ensures Valid(after)
  {
    var c := db.maxVersion + 1;
    assert InstrOk(db, t);
    UpgradeHistories(db, t, after, c);
    SameViewAgrees(db, after);
    UpgradePending(db, t, after, c);
    UpgradeCommitted(db, t, after, c);
    UpgradeFrame(db, t, after);
    assert ReadersOk(after);
  }

  // Finishing the edge.

  ghost predicate Finishing(db: Db, o: Oid) {
    && TablesOk(db) && PhaseOk(db) && HistoriesOk(db) && db.phase.Committing? && db.current == Some(o)
    && db.prog == []
  }

  lemma FinishTables(db: Db, o: Oid, after: Db)
    requires Finishing(db, o) && after == db.Finish(o) && OwnsOk(db.e, db.maxVersion)
    ensures TablesOk(after) && PhaseOk(after) && OwnsOk(after.e, db.maxVersion)
  {
    var c, r := db.maxVersion + 1, db.e.At(o).rid;
    assert MineOk(db.e, db.current, r) && StoredOk(db.e, c, db.current, r) && ObjectOk(db.e, db.next, o);
    forall k ensures ObjectOk(after.e, db.next, k) && VersionOk(after.e, c, k) {
      assert ObjectOk(db.e, db.next, k) && VersionOk(db.e, c, k);
    }
    forall k ensures StoredOk(after.e, c, None, k) {
      assert StoredOk(db.e, c, db.current, k);
    }
    forall k ensures MineOk(after.e, None, k) {
      assert MineOk(db.e, db.current, k);
    }
    forall k ensures OwnOk(after.e, db.maxVersion, k) {
      assert OwnOk(db.e, db.maxVersion, k) && MineOk(db.e, db.current, k);
    }
    forall k ensures RecentOk(after.e, db.maxVersion, k) {
      assert RecentOk(db.e, db.maxVersion, k);
    }
  }

  lemma FinishLooks(db: Db, o: Oid, after: Db, k: RecordId, j: Oid)
    requires Finishing(db, o) && after == db.Finish(o)
    ensures after.e.Lookup(k) == db.e.Lookup(k) && after.e.Alive(j) == db.e.Alive(j)
    ensures after.e.At(j) == if j == o then Stamped(db.e.At(o), db.maxVersion + 1) else db.e.At(j)
    ensures after.e.objects.Keys == db.e.objects.Keys && after.e.stored == db.e.stored
  {
    var r := db.e.At(o).rid;
    assert MineOk(db.e, db.current, r) && StoredOk(db.e, db.maxVersion + 1, db.current, r);
    assert MineOk(db.e, db.current, k) && StoredOk(db.e, db.maxVersion + 1, db.current, k);
  }

  lemma FinishEnds(db: Db, o: Oid, after: Db, c: nat, t: Side)
    requires Finishing(db, o) && after == db.Finish(o) && c == db.maxVersion + 1
    ensures after.End(t) == if t.edge == o then Commit(db.End(t), c) else db.End(t)
    ensures Latest(after.End(t)) == Latest(db.End(t))
    ensures forall v: nat :: v <= db.maxVersion ==> ReadAt(after.End(t), v) == ReadAt(db.End(t), v)
  {
    assert SideOk(db, t);
    CommitLatest(db.End(t), c, db.maxVersion);
  }

  lemma FinishHistories(db: Db, o: Oid, after: Db)
    requires Finishing(db, o) && after == db.Finish(o)
    ensures HistoriesOk(after)
  {
    var c := db.maxVersion + 1;
    forall s ensures SpotOk(after, s) {
      assert SpotOk(db, s);
    }
    forall s ensures SideOk(after, s) {
      assert SideOk(db, s);
      if s in db.ends {
        CommitLatest(db.ends[s], c, db.maxVersion);
      }
    }
  }

  lemma FinishView(db: Db, o: Oid, after: Db)
    requires Finishing(db, o) && after == db.Finish(o)
    ensures SameView(db, after)
  {
    var c := db.maxVersion + 1;
    forall k ensures after.e.Lookup(k) == db.e.Lookup(k) {
      FinishLooks(db, o, after, k, o);
    }
    forall k ensures after.e.Alive(k) ==> db.e.Alive(k) {
      FinishLooks(db, o, after, NO_RECORD, k);
    }
    forall t ensures Latest(after.End(t)) == Latest(db.End(t)) {
      FinishEnds(db, o, after, c, t);
    }
  }

  lemma FinishOwed(db: Db, o: Oid, after: Db, s: Spot)
    requires Finishing(db, o) && after == db.Finish(o)
    ensures Owed(after, s) == Owed(db, s)
  {
    var c := db.maxVersion + 1;
    assert MineOk(db.e, db.current, s.edge);
    if s.edge in db.e.mine {
      FinishEnds(db, o, after, c, Side(s.direction, db.e.mine[s.edge]));
    }
  }

  lemma FinishPending(db: Db, o: Oid, after: Db)
    requires Finishing(db, o) && after == db.Finish(o) && Pending(db)
    ensures Pending(after)
  {
    var c := db.maxVersion + 1;
    forall s ensures Promised(after, s) && Harmless(after, s) && InstrOk(after, s) {
      assert Promised(db, s) && Harmless(db, s) && InstrOk(db, s);
      FinishOwed(db, o, after, s);
      if db.Adj(s).unstable.Some? {
        FinishLooks(db, o, after, s.edge, db.Adj(s).unstable.value.item);
      }
    }
    forall s ensures SidePending(after, s) {
      assert SidePending(db, s) && SideOk(db, s);
      FinishEnds(db, o, after, c, s);
      FinishLooks(db, o, after, NO_RECORD, s.edge);
      CommitLatest(db.End(s), c, db.maxVersion);
    }
  }

  lemma FinishCommitted(db: Db, o: Oid, after: Db)
    requires Finishing(db, o) && after == db.Finish(o) && Committed(db)
    ensures Committed(after)
  {
    var c := db.maxVersion + 1;
    forall s ensures TipStored(after, s) {
      assert TipStored(db, s);
      StampedKeepsPast(db.e.At(o), c, db.maxVersion);
      if Tip(db.Adj(s)).Some? {
        FinishLooks(db, o, after, s.edge, Tip(db.Adj(s)).value);
      }
    }
    forall s, v: nat ensures ListedExisted(after, s, v) {
      assert ListedExisted(db, s, v);
      if v < c && ReadAt(db.Adj(s), v).Some? {
        FinishLooks(db, o, after, s.edge, ReadAt(db.Adj(s), v).value);
        StampedKeepsPast(db.e.At(o), c, v);
      }
    }
    forall s, v: nat ensures EndExisted(after, s, v) {
      assert EndExisted(db, s, v);
      FinishEnds(db, o, after, c, s);
      FinishLooks(db, o, after, NO_RECORD, s.edge);
      if v < c {
        StampedKeepsPast(db.e.At(o), c, v);
      }
    }
  }

  lemma FinishQueue(db: Db, o: Oid, after: Db)
    requires Finishing(db, o) && after == db.Finish(o)
    requires QueueOk(db.e, db.maxVersion) && DroppedOk(db.e, db.maxVersion)
    ensures QueueOk(after.e, db.maxVersion) && DroppedOk(after.e, db.maxVersion)
  {
    var p, q, r := db.e, after.e, db.e.At(o).rid;
    assert MineOk(p, db.current, r);
    forall t | t in q.queue ensures TombOk(q, db.maxVersion, t) {
      assert TombOk(p, db.maxVersion, t);
    }
    forall k | k in q.stored && k != r ensures q.stored[k] != o {
      assert StoredOk(p, db.maxVersion + 1, db.current, k);
    }
    forall k ensures k in q.dropped <==>
          k in q.stored && q.At(q.stored[k]).status.CommittedDelete? && q.At(q.stored[k]).version > db.maxVersion
    {
      assert k in q.dropped <==> k in p.dropped || (k == r && p.At(o).status.UncommittedDelete?);
    }
  }

  lemma FinishKeeps(db: Db, o: Oid, after: Db)
    requires Valid(db) && Finishing(db, o) && after == db.Finish(o)
    ensures Valid(after)
  {
    FinishTables(db, o, after);
    FinishHistories(db, o, after);
    FinishView(db, o, after);
    SameViewAgrees(db, after);
    FinishPending(db, o, after);
    FinishCommitted(db, o, after);
    FinishQueue(db, o, after);
    assert ReadersOk(after);
  }
}
