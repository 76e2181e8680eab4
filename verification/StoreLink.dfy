/**
 Making vertices and edges and moving an edge's end keep the invariant.
 */
module StoreLink {
  import opened Common
  import opened Histories
  import opened Store
  import opened StoreInvariant
  import opened StoreCascade

  /** No object, live or deleted, is known under the id. */
  ghost predicate Unused(p: Pool, r: RecordId) {
    r !in p.stored && r !in p.mine
  }

  // New objects.

  lemma MakePool(p: Pool, next: Oid, limit: nat, r: RecordId)
    requires PoolOk(p, next, limit, None) && p.todo == p.mine.Keys && Unused(p, r)
    ensures PoolOk(p.Make(r, next), next + 1, limit, None) && p.Make(r, next).todo == p.Make(r, next).mine.Keys
  {
    var q, n := p.Make(r, next), next + 1;
    assert ObjectOk(p, next, next);
    forall k ensures ObjectOk(q, n, k) && VersionOk(q, limit, k) {
      assert ObjectOk(p, next, k) && VersionOk(p, limit, k);
    }
    forall k ensures StoredOk(q, limit, None, k) {
      assert StoredOk(p, limit, None, k);
    }
    forall k ensures MineOk(q, None, k) {
      assert MineOk(p, None, k);
    }
  }

  /** A new object changes no other object and no other lookup. */
  lemma MakeLooks(p: Pool, next: Oid, limit: nat, r: RecordId, k: RecordId)
    requires PoolOk(p, next, limit, None) && Unused(p, r)
    ensures p.Make(r, next).Lookup(k) == if k == r then Some(next) else p.Lookup(k)
  {
    assert ObjectOk(p, next, next) && StoredOk(p, limit, None, k) && MineOk(p, None, k);
  }

  lemma MakeAlive(p: Pool, next: Oid, limit: nat, r: RecordId, k: Oid)
    requires PoolOk(p, next, limit, None) && Unused(p, r)
    ensures k != next ==> p.Make(r, next).At(k) == p.At(k) && p.Make(r, next).Alive(k) == p.Alive(k)
    ensures Standing(p.Make(r, next), k) == Standing(p, k)
    ensures p.Make(r, next).At(next) == Element(r, 0, UncommittedCreate, 0) && next !in p.objects
    ensures p.Make(r, next).Alive(next)
  {
    assert ObjectOk(p, next, next) && ObjectOk(p, next, k);
  }

  lemma MakeQueue(p: Pool, next: Oid, limit: nat, latest: nat, r: RecordId)
    requires PoolOk(p, next, limit, None) && Unused(p, r) && QueueOk(p, latest) && DroppedOk(p, latest)
    ensures QueueOk(p.Make(r, next), latest) && DroppedOk(p.Make(r, next), latest)
  {
    var q := p.Make(r, next);
    assert ObjectOk(p, next, next);
    forall k | k in p.stored ensures q.At(p.stored[k]) == p.At(p.stored[k]) {
      assert StoredOk(p, limit, None, k);
    }
    forall t | t in q.queue ensures TombOk(q, latest, t) {
      assert TombOk(p, latest, t);
    }
  }

  lemma MakeOwns(p: Pool, next: Oid, limit: nat, latest: nat, r: RecordId)
    requires PoolOk(p, next, limit, None) && Unused(p, r) && OwnsOk(p, latest)
    ensures OwnsOk(p.Make(r, next), latest)
  {
    forall k ensures OwnOk(p.Make(r, next), latest, k) {
      assert OwnOk(p, latest, k) && MineOk(p, None, k) && ObjectOk(p, next, next);
    }
    forall k ensures RecentOk(p.Make(r, next), latest, k) {
      assert RecentOk(p, latest, k);
    }
  }

  lemma PoolNext(p: Pool, next: Oid, limit: nat, current: Option<Oid>)
    requires PoolOk(p, next, limit, current)
    ensures PoolOk(p, next + 1, limit, current)
  {
    var n := next + 1;
    forall o ensures ObjectOk(p, n, o) {
      assert ObjectOk(p, next, o);
    }
  }

  // A new vertex.

  lemma MakeVertexHistories(db: Db, r: RecordId)
    requires TablesOk(db) && PhaseOk(db) && HistoriesOk(db) && Unused(db.v, r)
    ensures HistoriesOk(db.MakeVertex(r))
  {
    var after := db.MakeVertex(r);
    assert ObjectOk(db.v, db.next, db.next);
    forall s ensures SpotOk(after, s) {
      assert SpotOk(db, s);
    }
    forall s ensures SideOk(after, s) {
      assert SideOk(db, s);
    }
  }

  lemma MakeVertexAgrees(db: Db, r: RecordId)
    requires TablesOk(db) && PhaseOk(db) && HistoriesOk(db) && Agreement(db) && Unused(db.v, r)
    ensures Agreement(db.MakeVertex(r))
  {
    var after := db.MakeVertex(r);
    forall d, k ensures EdgeAgrees(after, d, k) {
      assert EdgeAgrees(db, d, k);
      if db.e.Lookup(k).Some? {
        var x := Latest(db.End(Side(d, db.e.Lookup(k).value))).value;
        MakeLooks(db.v, db.next, Limit(db), r, db.v.At(x).rid);
        MakeAlive(db.v, db.next, Limit(db), r, x);
        assert StoredOk(db.v, Limit(db), None, db.v.At(x).rid) && MineOk(db.v, None, db.v.At(x).rid);
      }
    }
    forall s: Spot ensures SpotAgrees(after, s) {
      assert SpotAgrees(db, s) && SpotOk(db, s);
      MakeAlive(db.v, db.next, Limit(db), r, s.vertex);
      MakeLooks(db.v, db.next, Limit(db), r, db.v.At(s.vertex).rid);
    }
  }

  lemma MakeVertexSettled(db: Db, r: RecordId)
    requires TablesOk(db) && PhaseOk(db) && Settled(db) && Unused(db.v, r)
    ensures Settled(db.MakeVertex(r))
  {
    var after := db.MakeVertex(r);
    forall d, o ensures EdgeSettled(after, d, o) {
      assert EdgeSettled(db, d, o);
      if Tip(db.End(Side(d, o))).Some? {
        MakeAlive(db.v, db.next, Limit(db), r, Tip(db.End(Side(d, o))).value);
      }
    }
    forall s ensures SpotSettled(after, s) {
      assert SpotSettled(db, s);
      MakeAlive(db.v, db.next, Limit(db), r, s.vertex);
    }
  }

  lemma MakeVertexPending(db: Db, r: RecordId)
    requires TablesOk(db) && PhaseOk(db) && HistoriesOk(db) && Pending(db) && Unused(db.v, r) && db.phase.Writing?
    ensures Pending(db.MakeVertex(r))
  {
    var after := db.MakeVertex(r);
    forall s ensures Owed(after, s) == Owed(db, s) {
    }
    forall s ensures Promised(after, s) {
      assert Promised(db, s);
    }
    forall s ensures Harmless(after, s) {
      assert Harmless(db, s) && SpotOk(db, s);
      MakeAlive(db.v, db.next, Limit(db), r, s.vertex);
    }
    forall s ensures InstrOk(after, s) {
      assert InstrOk(db, s);
    }
    forall s ensures SidePending(after, s) {
      assert SidePending(db, s);
    }
  }

  lemma MakeVertexCommitted(db: Db, r: RecordId)
    requires TablesOk(db) && PhaseOk(db) && HistoriesOk(db) && Committed(db) && Unused(db.v, r)
    ensures Committed(db.MakeVertex(r))
  {
    var after := db.MakeVertex(r);
    forall s ensures TipStored(after, s) {
      assert TipStored(db, s) && SpotOk(db, s);
      MakeAlive(db.v, db.next, Limit(db), r, s.vertex);
    }
    forall s, v ensures ListedExisted(after, s, v) {
      assert ListedExisted(db, s, v);
      MakeAlive(db.v, db.next, Limit(db), r, s.vertex);
    }
    forall s, v ensures EndExisted(after, s, v) {
      assert EndExisted(db, s, v);
      if ReadAt(db.End(s), v).Some? {
        MakeAlive(db.v, db.next, Limit(db), r, ReadAt(db.End(s), v).value);
      }
    }
  }

  lemma MakeVertexKeeps(db: Db, r: RecordId)
    requires Valid(db) && db.phase.Writing? && Unused(db.v, r)
    ensures Valid(db.MakeVertex(r))
  {
    MakePool(db.v, db.next, Limit(db), r);
    PoolNext(db.e, db.next, Limit(db), None);
    MakeVertexHistories(db, r);
    MakeVertexAgrees(db, r);
    MakeVertexSettled(db, r);
    MakeVertexPending(db, r);
    MakeVertexCommitted(db, r);
    MakeQueue(db.v, db.next, Limit(db), db.maxVersion, r);
    MakeOwns(db.v, db.next, Limit(db), db.maxVersion, r);
  }

  // A new edge.

  /** What making an edge leaves in the histories. */
  lemma MakeEdgeIs(db: Db, r: RecordId, x: Oid, y: Oid, s: Spot, t: Side)
    requires TablesOk(db) && PhaseOk(db) && db.phase.Writing? && HistoriesOk(db)
    ensures var after, new_ := db.MakeEdge(r, x, y), s == Spot(Out, x, r) || s == Spot(In, y, r);
            && (new_ ==> after.Adj(s) == AddLatest(db.Adj(s), db.next))
            && (!new_ ==> after.Adj(s) == db.Adj(s))
            && (t.edge == db.next ==> after.End(t) == AddLatest(Empty(), if t.direction.Out? then x else y)
                                      && db.End(t) == Empty())
            && (t.edge != db.next ==> after.End(t) == db.End(t))
  {
    assert SideOk(db, t) && ObjectOk(db.e, db.next, db.next);
  }

  lemma MakeEdgeHistories(db: Db, r: RecordId, x: Oid, y: Oid)
    requires TablesOk(db) && PhaseOk(db) && HistoriesOk(db) && Unused(db.e, r)
    requires LiveVertex(db, x) && LiveVertex(db, y) && x in db.v.objects && y in db.v.objects
    ensures HistoriesOk(db.MakeEdge(r, x, y))
  {
    var after := db.MakeEdge(r, x, y);
    assert ObjectOk(db.e, db.next, db.next);
    forall s ensures SpotOk(after, s) {
      assert SpotOk(db, s);
      MakeEdgeIs(db, r, x, y, s, Side(Out, 0));
    }
    forall s ensures SideOk(after, s) {
      assert SideOk(db, s);
      MakeEdgeIs(db, r, x, y, Spot(Out, x, r), s);
    }
  }

  lemma MakeEdgeEdgeAgrees(db: Db, r: RecordId, x: Oid, y: Oid, d: Direction, k: RecordId)
    requires TablesOk(db) && PhaseOk(db) && HistoriesOk(db) && EdgeAgrees(db, d, k) && Unused(db.e, r)
    requires LiveVertex(db, x) && LiveVertex(db, y)
    ensures EdgeAgrees(db.MakeEdge(r, x, y), d, k)
  {
    MakeLooks(db.e, db.next, Limit(db), r, k);
    assert StoredOk(db.e, Limit(db), None, k) && MineOk(db.e, None, k);
    if k == r {
      MakeEdgeIs(db, r, x, y, Spot(d, if d.Out? then x else y, r), Side(d, db.next));
    } else if db.e.Lookup(k).Some? {
      var o := db.e.Lookup(k).value;
      MakeEdgeIs(db, r, x, y, Spot(d, Latest(db.End(Side(d, o))).value, k), Side(d, o));
      assert ObjectOk(db.e, db.next, o);
    }
  }

  lemma MakeEdgeSpotAgrees(db: Db, r: RecordId, x: Oid, y: Oid, s: Spot)
    requires TablesOk(db) && PhaseOk(db) && HistoriesOk(db) && SpotAgrees(db, s) && Unused(db.e, r)
    requires LiveVertex(db, x) && LiveVertex(db, y)
    ensures SpotAgrees(db.MakeEdge(r, x, y), s)
  {
    MakeLooks(db.e, db.next, Limit(db), r, s.edge);
    MakeEdgeIs(db, r, x, y, s, Side(s.direction, db.next));
    assert SpotOk(db, s);
    if Latest(db.Adj(s)).Some? {
      var o := Latest(db.Adj(s)).value;
      MakeAlive(db.e, db.next, Limit(db), r, o);
      MakeEdgeIs(db, r, x, y, s, Side(s.direction, o));
    }
  }

  lemma MakeEdgeSettled(db: Db, r: RecordId, x: Oid, y: Oid)
    requires TablesOk(db) && PhaseOk(db) && HistoriesOk(db) && Settled(db) && Unused(db.e, r) && db.phase.Writing?
    ensures Settled(db.MakeEdge(r, x, y))
  {
    var after := db.MakeEdge(r, x, y);
    forall o ensures Standing(after.e, o) == Standing(db.e, o)
                     && (Standing(db.e, o) ==> after.e.At(o).rid == db.e.At(o).rid)
    {
      MakeAlive(db.e, db.next, Limit(db), r, o);
    }
    forall s, o ensures Tip(after.Adj(s)) == Tip(db.Adj(s)) && Tip(after.End(o)) == Tip(db.End(o)) {
      MakeEdgeIs(db, r, x, y, s, o);
    }
    forall d, o ensures EdgeSettled(after, d, o) {
      assert EdgeSettled(db, d, o);
    }
    forall s ensures SpotSettled(after, s) {
      assert SpotSettled(db, s);
    }
  }

  lemma MakeEdgeOwed(db: Db, r: RecordId, x: Oid, y: Oid, s: Spot)
    requires TablesOk(db) && PhaseOk(db) && HistoriesOk(db) && Unused(db.e, r) && db.phase.Writing?
    ensures s.edge != r ==> Owed(db.MakeEdge(r, x, y), s) == Owed(db, s)
    ensures s.edge == r ==> !Owed(db, s)
    ensures s.edge == r ==> (Owed(db.MakeEdge(r, x, y), s) <==> s == Spot(Out, x, r) || s == Spot(In, y, r))
  {
    assert MineOk(db.e, None, s.edge);
    MakeEdgeIs(db, r, x, y, s, Side(s.direction, db.next));
    if s.edge in db.e.mine {
      assert ObjectOk(db.e, db.next, db.e.mine[s.edge]);
      MakeEdgeIs(db, r, x, y, s, Side(s.direction, db.e.mine[s.edge]));
    }
  }

  lemma MakeEdgePending(db: Db, r: RecordId, x: Oid, y: Oid)
    requires TablesOk(db) && PhaseOk(db) && HistoriesOk(db) && Pending(db) && Unused(db.e, r) && db.phase.Writing?
    ensures Pending(db.MakeEdge(r, x, y))
  {
    var after := db.MakeEdge(r, x, y);
    forall s ensures Promised(after, s) {
      assert Promised(db, s);
      MakeEdgeOwed(db, r, x, y, s);
      MakeEdgeIs(db, r, x, y, s, Side(Out, 0));
    }
    forall s ensures Harmless(after, s) {
      assert Harmless(db, s) && SpotOk(db, s) && ObjectOk(db.e, db.next, db.next);
      MakeEdgeOwed(db, r, x, y, s);
      MakeEdgeIs(db, r, x, y, s, Side(Out, 0));
      if db.Adj(s).unstable.Some? {
        MakeAlive(db.e, db.next, Limit(db), r, db.Adj(s).unstable.value.item);
      }
    }
    forall s ensures InstrOk(after, s) {
      assert InstrOk(db, s);
    }
    forall s ensures SidePending(after, s) {
      assert SidePending(db, s);
      MakeEdgeIs(db, r, x, y, Spot(Out, x, r), s);
      MakeAlive(db.e, db.next, Limit(db), r, s.edge);
    }
  }

  lemma MakeEdgeCommitted(db: Db, r: RecordId, x: Oid, y: Oid)
    requires TablesOk(db) && PhaseOk(db) && HistoriesOk(db) && Committed(db) && Unused(db.e, r) && db.phase.Writing?
    ensures Committed(db.MakeEdge(r, x, y))
  {
    var after := db.MakeEdge(r, x, y);
    assert ObjectOk(db.e, db.next, db.next);
    forall s ensures TipStored(after, s) {
      assert TipStored(db, s) && StoredOk(db.e, Limit(db), None, s.edge);
      MakeEdgeIs(db, r, x, y, s, Side(Out, 0));
    }
    forall s, v ensures ListedExisted(after, s, v) {
      assert ListedExisted(db, s, v);
      MakeEdgeIs(db, r, x, y, s, Side(Out, 0));
    }
    forall s, v ensures EndExisted(after, s, v) {
      assert EndExisted(db, s, v);
      MakeEdgeIs(db, r, x, y, Spot(Out, x, r), s);
    }
  }

  lemma MakeEdgeKeeps(db: Db, r: RecordId, x: Oid, y: Oid)
    requires Valid(db) && LiveVertex(db, x) && LiveVertex(db, y) && Unused(db.e, r)
    ensures Valid(db.MakeEdge(r, x, y))
  {
    var after := db.MakeEdge(r, x, y);
    assert StoredOk(db.v, Limit(db), None, db.v.At(x).rid) && MineOk(db.v, None, db.v.At(x).rid);
    assert StoredOk(db.v, Limit(db), None, db.v.At(y).rid) && MineOk(db.v, None, db.v.At(y).rid);
    MakePool(db.e, db.next, Limit(db), r);
    PoolNext(db.v, db.next, Limit(db), None);
    MakeEdgeHistories(db, r, x, y);
    forall d, k ensures EdgeAgrees(after, d, k) {
      assert EdgeAgrees(db, d, k);
      MakeEdgeEdgeAgrees(db, r, x, y, d, k);
    }
    forall s: Spot ensures SpotAgrees(after, s) {
      assert SpotAgrees(db, s);
      MakeEdgeSpotAgrees(db, r, x, y, s);
    }
    MakeEdgeSettled(db, r, x, y);
    MakeEdgePending(db, r, x, y);
    MakeEdgeCommitted(db, r, x, y);
    MakeQueue(db.e, db.next, Limit(db), db.maxVersion, r);
    MakeOwns(db.e, db.next, Limit(db), db.maxVersion, r);
  }
}
