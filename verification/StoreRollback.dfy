/**
 Rolling back keeps the invariant and undoes everything the writer did.
 */
module StoreRollback {
  import opened Common
  import opened Histories
  import opened Store
  import opened StoreInvariant
  import opened StorePublish

  /** In a quiet state, agreement of the committed versions is agreement of what a writer sees. */
  lemma QuietAgrees(db: Db)
    requires Quiet(db) && Settled(db)
    ensures Agreement(db)
  {
    forall d, r ensures EdgeAgrees(db, d, r) {
      assert StoredOk(db.e, Limit(db), None, r) && MineOk(db.e, None, r);
      if db.e.Lookup(r).Some? {
        var o := db.e.Lookup(r).value;
        QuietLive(db.e, db.next, Limit(db), o);
        assert EdgeSettled(db, d, o);
        QuietEnd(db, d, o);
        var x := Tip(db.End(Side(d, o))).value;
        QuietLive(db.v, db.next, Limit(db), x);
        QuietSpot(db, Spot(d, x, r));
      }
    }
    forall s: Spot ensures SpotAgrees(db, s) {
      QuietSpotAgrees(db, s);
    }
  }

  lemma QuietSpotAgrees(db: Db, s: Spot)
    requires Quiet(db) && Settled(db)
    ensures SpotAgrees(db, s)
  {
    assert SpotSettled(db, s) && SpotOk(db, s);
    QuietLive(db.v, db.next, Limit(db), s.vertex);
    if db.v.Lookup(db.v.At(s.vertex).rid) == Some(s.vertex) {
      QuietSpot(db, s);
      if Tip(db.Adj(s)).Some? {
        QuietLive(db.e, db.next, Limit(db), Tip(db.Adj(s)).value);
        if Standing(db.e, Tip(db.Adj(s)).value) {
          QuietEnd(db, s.direction, Tip(db.Adj(s)).value);
        }
      }
    }
  }

  // The tables.

  lemma UndoIs(p: Pool, o: Oid)
    ensures p.Undone().At(o) == p.Unmark(o) && p.Undone().objects.Keys == p.objects.Keys
    ensures p.Undone().At(o).rid == p.At(o).rid && p.Undone().At(o).version == p.At(o).version
    ensures p.Undone().At(o).status.CommittedDelete? == p.At(o).status.CommittedDelete?
    ensures p.Undone().At(o).status.UncommittedCreate? == p.At(o).status.UncommittedCreate?
    ensures forall v :: Existed(p.Undone().At(o), v) == Existed(p.At(o), v)
    ensures p.Undone().Alive(o) ==> p.Alive(o) && p.Undone().stored[p.At(o).rid] == o
    ensures Standing(p.Undone(), o) == Standing(p, o)
  {
  }

  lemma UndoPool(p: Pool, next: Oid, limit: nat, latest: nat)
    requires PoolOk(p, next, limit, None) && OwnsOk(p, latest)
    ensures PoolOk(p.Undone(), next, limit, None) && OwnsOk(p.Undone(), latest)
  {
    var q := p.Undone();
    forall o ensures ObjectOk(q, next, o) && VersionOk(q, limit, o) {
      assert ObjectOk(p, next, o) && VersionOk(p, limit, o);
    }
    forall r ensures StoredOk(q, limit, None, r) {
      assert StoredOk(p, limit, None, r);
    }
    forall r ensures MineOk(q, None, r) && OwnOk(q, latest, r) {
    }
    forall o ensures RecentOk(q, latest, o) {
      assert RecentOk(p, latest, o);
    }
  }

  lemma UndoQueue(p: Pool, latest: nat)
    requires QueueOk(p, latest) && DroppedOk(p, latest) && p.dropped == []
    ensures QueueOk(p.Undone(), latest) && DroppedOk(p.Undone(), latest)
  {
    var q := p.Undone();
    forall o ensures q.At(o).version == p.At(o).version
                     && q.At(o).status.CommittedDelete? == p.At(o).status.CommittedDelete?
    {
      UndoIs(p, o);
    }
    forall t | t in q.queue ensures TombOk(q, latest, t) {
      assert TombOk(p, latest, t);
    }
  }

  // The histories.

  ghost predicate RollingBack(db: Db) {
    TablesOk(db) && PhaseOk(db) && HistoriesOk(db) && db.phase.Writing?
  }

  lemma RollbackIs(db: Db, after: Db, s: Spot, t: Side)
    requires RollingBack(db) && after == db.Rollback()
    ensures after.Adj(s) == if db.Touched(s) then Histories.Rollback(db.Adj(s)) else db.Adj(s)
    ensures after.Adj(s).stable == db.Adj(s).stable && after.End(t).stable == db.End(t).stable
    ensures Tip(after.Adj(s)) == Tip(db.Adj(s)) && Tip(after.End(t)) == Tip(db.End(t))
    ensures after.v == db.v.Undone() && after.e == db.e.Undone()
  {
  }

  lemma RollbackHistories(db: Db, after: Db)
    requires RollingBack(db) && after == db.Rollback()
    ensures HistoriesOk(after)
  {
    forall s ensures SpotOk(after, s) {
      assert SpotOk(db, s);
      UndoIs(db.v, s.vertex);
      forall o ensures after.e.objects.Keys == db.e.objects.Keys && after.e.At(o).rid == db.e.At(o).rid {
        UndoIs(db.e, o);
      }
    }
    forall s ensures SideOk(after, s) {
      assert SideOk(db, s);
      UndoIs(db.v, 0);
      UndoIs(db.e, s.edge);
    }
  }

  lemma RollbackSettled(db: Db, after: Db)
    requires RollingBack(db) && after == db.Rollback() && Settled(db)
    ensures Settled(after)
  {
    forall s, t ensures Tip(after.Adj(s)) == Tip(db.Adj(s)) && Tip(after.End(t)) == Tip(db.End(t)) {
      RollbackIs(db, after, s, t);
    }
    forall o ensures Standing(after.e, o) == Standing(db.e, o) && after.e.At(o).rid == db.e.At(o).rid {
      UndoIs(db.e, o);
    }
    forall x ensures Standing(after.v, x) == Standing(db.v, x) {
      UndoIs(db.v, x);
    }
    forall d, o ensures EdgeSettled(after, d, o) {
      assert EdgeSettled(db, d, o);
    }
    forall s ensures SpotSettled(after, s) {
      assert SpotSettled(db, s);
    }
  }

  /** What an end still shows as uncommitted belongs to an edge that no longer exists. */
  lemma RollbackSide(db: Db, after: Db, s: Side)
    requires RollingBack(db) && after == db.Rollback() && SidePending(db, s)
    ensures SidePending(after, s)
  {
    UndoIs(db.e, s.edge);
    var r := db.e.At(s.edge).rid;
    assert MineOk(db.e, None, r);
  }

  lemma RollbackPending(db: Db, after: Db)
    requires RollingBack(db) && after == db.Rollback() && Pending(db)
    ensures Pending(after)
  {
    forall s ensures Promised(after, s) && Harmless(after, s) && InstrOk(after, s) {
      assert Harmless(db, s) && MineOk(db.e, None, s.edge);
      RollbackIs(db, after, s, Side(Out, 0));
      UndoIs(db.v, s.vertex);
      if db.Adj(s).unstable.Some? {
        UndoIs(db.e, db.Adj(s).unstable.value.item);
      }
    }
    forall s ensures SidePending(after, s) {
      assert SidePending(db, s);
      RollbackSide(db, after, s);
    }
  }

  lemma RollbackCommitted(db: Db, after: Db)
    requires RollingBack(db) && after == db.Rollback() && Committed(db)
    ensures Committed(after)
  {
    forall s ensures TipStored(after, s) {
      assert TipStored(db, s);
      RollbackIs(db, after, s, Side(Out, 0));
      UndoIs(db.v, s.vertex);
      if Tip(db.Adj(s)).Some? {
        UndoIs(db.e, Tip(db.Adj(s)).value);
      }
    }
    forall s, v: nat ensures ListedExisted(after, s, v) {
      assert ListedExisted(db, s, v);
      RollbackIs(db, after, s, Side(Out, 0));
      UndoIs(db.v, s.vertex);
      if ReadAt(db.Adj(s), v).Some? {
        UndoIs(db.e, ReadAt(db.Adj(s), v).value);
      }
    }
    forall s, v: nat ensures EndExisted(after, s, v) {
      assert EndExisted(db, s, v);
      RollbackIs(db, after, Spot(Out, 0, NO_RECORD), s);
      UndoIs(db.e, s.edge);
      if ReadAt(db.End(s), v).Some? {
        UndoIs(db.v, ReadAt(db.End(s), v).value);
      }
    }
  }

  lemma HasMember(rs: seq<RecordId>)
    ensures rs == [] || exists r :: r in rs
  {
    if rs != [] {
      assert rs[0] in rs;
    }
  }

  /** Outside a commit nothing is noted as dropped. */
  lemma NothingDropped(p: Pool, next: Oid, latest: nat)
    requires PoolOk(p, next, latest, None) && DroppedOk(p, latest)
    ensures p.dropped == []
  {
    forall r ensures r !in p.dropped {
      assert StoredOk(p, latest, None, r);
    }
    HasMember(p.dropped);
  }

  lemma RollbackKeeps(db: Db)
    requires Valid(db) && db.phase.Writing?
    ensures Valid(db.Rollback())
  {
    var after := db.Rollback();
    UndoPool(db.v, db.next, Limit(db), db.maxVersion);
    UndoPool(db.e, db.next, Limit(db), db.maxVersion);
    RollbackHistories(db, after);
    RollbackSettled(db, after);
    RollbackPending(db, after);
    QuietAgrees(after);
    RollbackCommitted(db, after);
    NothingDropped(db.v, db.next, db.maxVersion);
    NothingDropped(db.e, db.next, db.maxVersion);
    UndoQueue(db.v, db.maxVersion);
    UndoQueue(db.e, db.maxVersion);
  }
}
