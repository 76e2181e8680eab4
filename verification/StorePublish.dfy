/**
 Publishing a commit keeps the invariant: what the writer saw becomes the newest committed version.
 */
module StorePublish {
  import opened Common
  import opened Histories
  import opened Store
  import opened StoreInvariant
  import opened StoreCommit

  /** Nothing uncommitted is left to visit. */
  ghost predicate Quiet(db: Db) {
    && TablesOk(db) && PhaseOk(db) && HistoriesOk(db) && Pending(db)
    && db.current.None? && db.v.todo == {} && db.e.todo == {}
  }

  /** Everything the tables know is stored, and is either created or deleted for good. */
  lemma QuietStored(p: Pool, next: Oid, limit: nat, r: RecordId)
    requires PoolOk(p, next, limit, None) && p.todo == {}
    ensures r in p.mine ==> r in p.stored && p.mine[r] == p.stored[r]
    ensures r in p.stored ==> p.At(p.stored[r]).status.CommittedCreate? || p.At(p.stored[r]).status.CommittedDelete?
  {
    assert MineOk(p, None, r) && StoredOk(p, limit, None, r);
  }

  /** Alive and not deleted, found by the writer, and standing are the same. */
  lemma QuietLive(p: Pool, next: Oid, limit: nat, x: Oid)
    requires PoolOk(p, next, limit, None) && p.todo == {}
    ensures p.Lookup(p.At(x).rid) == Some(x) ==> Standing(p, x) && p.Alive(x)
    ensures Standing(p, x) ==> p.Lookup(p.At(x).rid) == Some(x) && p.At(x).status.CommittedCreate?
    ensures p.Alive(x) && !p.At(x).status.CommittedDelete? ==> Standing(p, x)
    ensures Standing(p, x) ==> p.At(x).born <= limit
  {
    var r := p.At(x).rid;
    assert MineOk(p, None, r) && StoredOk(p, limit, None, r) && ObjectOk(p, next, x);
  }

  lemma QuietEnd(db: Db, d: Direction, o: Oid)
    requires Quiet(db) && db.e.Alive(o)
    ensures Tip(db.End(Side(d, o))) == Latest(db.End(Side(d, o)))
  {
    assert SidePending(db, Side(d, o));
  }

  lemma QuietSpot(db: Db, s: Spot)
    requires Quiet(db) && db.v.Alive(s.vertex)
    ensures Tip(db.Adj(s)).Some? ==> Latest(db.Adj(s)) == Tip(db.Adj(s))
    ensures Latest(db.Adj(s)).Some? && db.e.Alive(Latest(db.Adj(s)).value) ==> Tip(db.Adj(s)) == Latest(db.Adj(s))
  {
    assert Harmless(db, s) && MineOk(db.e, None, s.edge);
  }

  /** In a quiet state the committed versions agree as the writer's do. */
  lemma QuietEdgeSettled(db: Db, d: Direction, o: Oid)
    requires Quiet(db) && EdgeAgrees(db, d, db.e.At(o).rid)
    ensures EdgeSettled(db, d, o)
  {
    if Standing(db.e, o) {
      QuietLive(db.e, db.next, Limit(db), o);
      QuietEnd(db, d, o);
      var x := Latest(db.End(Side(d, o))).value;
      QuietLive(db.v, db.next, Limit(db), x);
      QuietSpot(db, Spot(d, x, db.e.At(o).rid));
    }
  }

  lemma QuietSpotSettled(db: Db, s: Spot)
    requires Quiet(db) && SpotAgrees(db, s) && TipStored(db, s)
    ensures SpotSettled(db, s)
    ensures Standing(db.v, s.vertex) && Tip(db.Adj(s)).Some? ==>
              var o := Tip(db.Adj(s)).value; Standing(db.e, o) && db.e.At(o).rid == s.edge
  {
    if Standing(db.v, s.vertex) && Tip(db.Adj(s)).Some? {
      var o := Tip(db.Adj(s)).value;
      QuietLive(db.v, db.next, Limit(db), s.vertex);
      QuietSpot(db, s);
      assert StoredOk(db.e, Limit(db), None, s.edge);
      QuietLive(db.e, db.next, Limit(db), o);
      QuietEnd(db, s.direction, o);
    }
  }

  // The step.

  ghost predicate Publishable(db: Db) {
    Quiet(db) && db.phase.Committing?
  }

  lemma PublishPool(p: Pool, next: Oid, latest: nat, c: nat, q: Pool)
    requires PoolOk(p, next, c, None) && p.todo == {} && c == latest + 1 && q == p.Enqueue(c).Closed()
    ensures PoolOk(q, next, c, None) && OwnsOk(q, c)
    ensures forall k :: q.Lookup(k) == p.Lookup(k)
    ensures forall x :: q.Alive(x) == p.Alive(x)
    ensures q.objects == p.objects && q.stored == p.stored && q.mine == map[] && q.todo == {}
  {
    forall k ensures q.Lookup(k) == p.Lookup(k) {
      QuietStored(p, next, c, k);
    }
    forall x ensures q.Alive(x) == p.Alive(x) {
      QuietStored(p, next, c, p.At(x).rid);
    }
    forall k ensures ObjectOk(q, next, k) && VersionOk(q, c, k) {
      assert ObjectOk(p, next, k) && VersionOk(p, c, k);
    }
    forall k ensures StoredOk(q, c, None, k) {
      assert StoredOk(p, c, None, k);
    }
    forall k ensures MineOk(q, None, k) && OwnOk(q, c, k) {
    }
    forall k ensures RecentOk(q, c, k) {
      assert VersionOk(p, c, k);
    }
  }

  lemma EnqueueQueue(p: Pool, next: Oid, latest: nat, c: nat)
    requires PoolOk(p, next, c, None) && c == latest + 1 && QueueOk(p, latest) && DroppedOk(p, latest)
    ensures QueueOk(p.Enqueue(c).Closed(), c) && DroppedOk(p.Enqueue(c).Closed(), c)
  {
    var q := p.Enqueue(c).Closed();
    var n := |p.queue|;
    forall i | 0 <= i < |q.queue| ensures TombOk(q, c, q.queue[i]) {
      if i < n {
        assert q.queue[i] == p.queue[i] && TombOk(p, latest, p.queue[i]);
      } else {
        assert q.queue[i] == Tomb(p.dropped[i - n], c) && p.dropped[i - n] in p.dropped;
        assert StoredOk(p, c, None, p.dropped[i - n]);
      }
    }
    forall i, j | 0 <= i < j < |q.queue|
      ensures q.queue[i].version <= q.queue[j].version && q.queue[i].rid != q.queue[j].rid
    {
      assert i < n ==> q.queue[i] == p.queue[i] && TombOk(p, latest, p.queue[i]);
      assert j >= n ==> p.dropped[j - n] in p.dropped;
    }
    forall r | r in q.stored && Gone(q.At(q.stored[r]), c) ensures Tomb(r, q.At(q.stored[r]).version) in q.queue {
      if Gone(p.At(p.stored[r]), latest) {
        assert Tomb(r, q.At(q.stored[r]).version) in p.queue;
      } else {
        var i :| 0 <= i < |p.dropped| && p.dropped[i] == r;
        assert q.queue[n + i] == Tomb(r, c);
      }
    }
    forall r | r in q.stored ensures q.At(q.stored[r]).version <= c {
      assert StoredOk(p, c, None, r);
    }
  }

  lemma PublishHistories(db: Db, after: Db)
    requires Publishable(db) && after == db.Publish()
    ensures HistoriesOk(after)
  {
    forall s ensures SpotOk(after, s) {
      assert SpotOk(db, s);
    }
    forall s ensures SideOk(after, s) {
      assert SideOk(db, s);
    }
  }

  lemma PublishTables(db: Db, after: Db)
    requires Publishable(db) && after == db.Publish()
    ensures TablesOk(after) && OwnsOk(after.v, after.maxVersion) && OwnsOk(after.e, after.maxVersion) && PhaseOk(after)
    ensures SameView(db, after)
    ensures forall x :: after.v.Alive(x) == db.v.Alive(x)
    ensures forall x :: after.e.Alive(x) == db.e.Alive(x)
    ensures after.v.objects == db.v.objects && after.v.stored == db.v.stored
    ensures after.e.objects == db.e.objects && after.e.stored == db.e.stored
    ensures after.adj == db.adj && after.ends == db.ends && after.prog == [] && after.e.todo == {}
  {
    PublishPool(db.v, db.next, db.maxVersion, after.maxVersion, after.v);
    PublishPool(db.e, db.next, db.maxVersion, after.maxVersion, after.e);
  }

  lemma PublishPending(db: Db, after: Db)
    requires Publishable(db) && after == db.Publish()
    ensures Pending(after)
  {
    PublishTables(db, after);
    forall s ensures Promised(after, s) && Harmless(after, s) && InstrOk(after, s) {
      assert Harmless(db, s);
    }
    forall s ensures SidePending(after, s) {
      assert SidePending(db, s);
    }
  }

  lemma PublishSettled(db: Db, after: Db)
    requires Publishable(db) && after == db.Publish() && Agreement(db) && Committed(db)
    ensures Settled(db) && Settled(after)
  {
    PublishTables(db, after);
    forall d, o ensures EdgeSettled(db, d, o) && EdgeSettled(after, d, o) {
      assert EdgeAgrees(db, d, db.e.At(o).rid);
      QuietEdgeSettled(db, d, o);
    }
    forall s: Spot ensures SpotSettled(db, s) && SpotSettled(after, s) {
      assert SpotAgrees(db, s) && TipStored(db, s);
      QuietSpotSettled(db, s);
    }
  }

  /** At the new version, a stored object exists exactly if it is not deleted. */
  lemma QuietExists(p: Pool, next: Oid, c: nat, x: Oid)
    requires PoolOk(p, next, c, None) && p.todo == {} && x in p.objects
    ensures Existed(p.At(x), c) <==> Standing(p, x)
    ensures p.Alive(x) && !Gone(p.At(x), c) ==> Standing(p, x)
    ensures Standing(p, x) ==> !Gone(p.At(x), c)
  {
    QuietLive(p, next, c, x);
    assert ObjectOk(p, next, x) && VersionOk(p, c, x) && StoredOk(p, c, None, p.At(x).rid);
    assert MineOk(p, None, p.At(x).rid);
  }

  lemma PublishTip(db: Db, after: Db, c: nat, s: Spot)
    requires Publishable(db) && after == db.Publish() && c == after.maxVersion
    requires SpotAgrees(db, s) && TipStored(db, s)
    ensures TipStored(after, s) && ListedExisted(after, s, c)
  {
    PublishTables(db, after);
    QuietSpotSettled(db, s);
    assert SpotOk(db, s);
    ReadAtTip(db.Adj(s), c);
    if s.vertex in db.v.objects {
      QuietExists(db.v, db.next, c, s.vertex);
      if Tip(db.Adj(s)).Some? {
        QuietExists(db.e, db.next, c, Tip(db.Adj(s)).value);
      }
    }
  }

  lemma PublishEnd(db: Db, after: Db, c: nat, s: Side)
    requires Publishable(db) && after == db.Publish() && c == after.maxVersion && EdgeSettled(db, s.direction, s.edge)
    ensures EndExisted(after, s, c)
  {
    PublishTables(db, after);
    assert SideOk(db, s);
    ReadAtTip(db.End(s), c);
    if s.edge in db.e.objects {
      QuietExists(db.e, db.next, c, s.edge);
      if Tip(db.End(s)).Some? {
        QuietExists(db.v, db.next, c, Tip(db.End(s)).value);
      }
    }
  }

  lemma PublishCommitted(db: Db, after: Db, c: nat)
    requires Publishable(db) && after == db.Publish() && c == after.maxVersion && Agreement(db) && Committed(db)
    requires Settled(db)
    ensures Committed(after)
  {
    PublishTables(db, after);
    forall s: Spot ensures TipStored(after, s) {
      assert SpotAgrees(db, s) && TipStored(db, s);
      PublishTip(db, after, c, s);
    }
    forall s: Spot, v: nat ensures ListedExisted(after, s, v) {
      assert SpotAgrees(db, s) && TipStored(db, s) && ListedExisted(db, s, v);
      PublishTip(db, after, c, s);
    }
    forall s: Side, v: nat ensures EndExisted(after, s, v) {
      assert EndExisted(db, s, v) && EdgeSettled(db, s.direction, s.edge);
      PublishEnd(db, after, c, s);
    }
  }

  lemma PublishKeeps(db: Db)
    requires Valid(db) && db.phase.Committing? && db.current.None? && db.v.todo == {} && db.e.todo == {}
    ensures Valid(db.Publish())
  {
    var after, c := db.Publish(), db.maxVersion + 1;
    PublishTables(db, after);
    PublishHistories(db, after);
    SameViewAgrees(db, after);
    PublishPending(db, after);
    PublishSettled(db, after);
    PublishCommitted(db, after, c);
    EnqueueQueue(db.v, db.next, db.maxVersion, c);
    EnqueueQueue(db.e, db.next, db.maxVersion, c);
    assert ReadersOk(after);
  }
}
