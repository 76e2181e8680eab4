/**
 Moving an edge's end to another vertex keeps the invariant; so do the writer's operations as a whole.
 */
module StoreMove {
  import opened Common
  import opened Histories
  import opened Store
  import opened StoreInvariant
  import opened StoreDetach
  import opened StoreCascade
  import opened StoreLink

  /** The situation in which an end is moved. */
  ghost predicate Movable(db: Db, d: Direction, o: Oid, was: Oid, now: Oid) {
    && TablesOk(db) && PhaseOk(db) && Live(db, o) && Latest(db.End(Side(d, o))) == Some(was)
    && EdgeAgrees(db, d, db.e.At(o).rid) && LiveVertex(db, now)
  }

  /** What a move leaves in the histories. */
  lemma MoveIs(db: Db, d: Direction, o: Oid, was: Oid, now: Oid, s: Spot, t: Side)
    requires Movable(db, d, o, was, now)
    ensures var after, r := db.MoveEnd(d, o, was, now), db.e.At(o).rid;
            && (s == Spot(d, now, r) ==> after.Adj(s) == AddLatest(db.Adj(s), o))
            && (s == Spot(d, was, r) && was != now ==> after.Adj(s) == DeleteLatest(db.Adj(s)))
            && (s != Spot(d, now, r) && s != Spot(d, was, r) ==> after.Adj(s) == db.Adj(s))
            && after.End(t) == if t == Side(d, o) then AddLatest(db.End(t), now) else db.End(t)
  {
  }

  /** No stored data changes. */
  lemma MoveKeepsStable(db: Db, d: Direction, o: Oid, was: Oid, now: Oid, s: Spot, t: Side)
    requires Movable(db, d, o, was, now)
    ensures var after := db.MoveEnd(d, o, was, now);
            && after.Adj(s).stable == db.Adj(s).stable && after.End(t).stable == db.End(t).stable
            && Tip(after.Adj(s)) == Tip(db.Adj(s)) && Tip(after.End(t)) == Tip(db.End(t))
            && after.e.objects == db.e.objects && after.e.stored == db.e.stored && after.v == db.v
  {
    MoveIs(db, d, o, was, now, s, t);
    DeleteLatestIs(db.Adj(s));
  }

  /** The edge was already alive, so adding it to the writer's table changes no lookup. */
  lemma MovePool(db: Db, d: Direction, o: Oid, was: Oid, now: Oid)
    requires Movable(db, d, o, was, now)
    ensures var after, r := db.MoveEnd(d, o, was, now), db.e.At(o).rid;
            && TablesOk(after) && PhaseOk(after) && r in after.e.todo && after.e.mine[r] == o
            && (forall k :: after.e.Lookup(k) == db.e.Lookup(k)) && (forall k :: after.e.Alive(k) == db.e.Alive(k))
            && (forall k | k != r :: k in after.e.todo <==> k in db.e.todo)
            && (forall k | k != r :: k in after.e.mine <==> k in db.e.mine)
            && (forall k | k != r && k in db.e.mine :: after.e.mine[k] == db.e.mine[k])
  {
    var after, r := db.MoveEnd(d, o, was, now), db.e.At(o).rid;
    assert StoredOk(db.e, Limit(db), None, r) && MineOk(db.e, None, r) && ObjectOk(db.e, db.next, o);
    forall k ensures ObjectOk(after.e, db.next, k) && VersionOk(after.e, Limit(db), k) {
      assert ObjectOk(db.e, db.next, k) && VersionOk(db.e, Limit(db), k);
    }
    forall k ensures StoredOk(after.e, Limit(db), None, k) {
      assert StoredOk(db.e, Limit(db), None, k);
    }
    forall k ensures MineOk(after.e, None, k) {
      assert MineOk(db.e, None, k);
    }
  }

  lemma MoveHistories(db: Db, d: Direction, o: Oid, was: Oid, now: Oid)
    requires Movable(db, d, o, was, now) && HistoriesOk(db)
    ensures HistoriesOk(db.MoveEnd(d, o, was, now))
  {
    var after := db.MoveEnd(d, o, was, now);
    assert StoredOk(db.e, Limit(db), None, db.e.At(o).rid) && MineOk(db.e, None, db.e.At(o).rid);
    assert StoredOk(db.v, Limit(db), None, db.v.At(now).rid) && MineOk(db.v, None, db.v.At(now).rid);
    forall s ensures SpotOk(after, s) {
      assert SpotOk(db, s);
      MoveIs(db, d, o, was, now, s, Side(d, o));
      MoveKeepsStable(db, d, o, was, now, s, Side(d, o));
    }
    forall s ensures SideOk(after, s) {
      assert SideOk(db, s);
      MoveIs(db, d, o, was, now, Spot(d, was, db.e.At(o).rid), s);
    }
  }

  lemma MoveEdgeAgrees(db: Db, d: Direction, o: Oid, was: Oid, now: Oid, j: Direction, k: RecordId)
    requires Movable(db, d, o, was, now) && EdgeAgrees(db, j, k)
    ensures EdgeAgrees(db.MoveEnd(d, o, was, now), j, k)
  {
    MovePool(db, d, o, was, now);
    if db.e.Lookup(k).Some? {
      var p := db.e.Lookup(k).value;
      MoveIs(db, d, o, was, now, Spot(j, Latest(db.End(Side(j, p))).value, k), Side(j, p));
      MoveIs(db, d, o, was, now, Spot(d, now, db.e.At(o).rid), Side(j, p));
      assert StoredOk(db.e, Limit(db), None, k) && MineOk(db.e, None, k);
    }
  }

  lemma MoveSpotAgrees(db: Db, d: Direction, o: Oid, was: Oid, now: Oid, s: Spot)
    requires Movable(db, d, o, was, now) && SpotAgrees(db, s)
    ensures SpotAgrees(db.MoveEnd(d, o, was, now), s)
  {
    MovePool(db, d, o, was, now);
    MoveIs(db, d, o, was, now, s, Side(s.direction, o));
    DeleteLatestIs(db.Adj(s));
    if Latest(db.Adj(s)).Some? {
      MoveIs(db, d, o, was, now, s, Side(s.direction, Latest(db.Adj(s)).value));
      assert StoredOk(db.e, Limit(db), None, s.edge) && MineOk(db.e, None, s.edge);
    }
  }

  lemma MoveAgrees(db: Db, d: Direction, o: Oid, was: Oid, now: Oid)
    requires Movable(db, d, o, was, now) && Agreement(db)
    ensures Agreement(db.MoveEnd(d, o, was, now))
  {
    var after := db.MoveEnd(d, o, was, now);
    forall k, j ensures EdgeAgrees(after, j, k) {
      assert EdgeAgrees(db, j, k);
      MoveEdgeAgrees(db, d, o, was, now, j, k);
    }
    forall s: Spot ensures SpotAgrees(after, s) {
      assert SpotAgrees(db, s);
      MoveSpotAgrees(db, d, o, was, now, s);
    }
  }

  lemma MoveSettled(db: Db, d: Direction, o: Oid, was: Oid, now: Oid)
    requires Movable(db, d, o, was, now) && Settled(db)
    ensures Settled(db.MoveEnd(d, o, was, now))
  {
    var after := db.MoveEnd(d, o, was, now);
    forall s, t ensures Tip(after.Adj(s)) == Tip(db.Adj(s)) && Tip(after.End(t)) == Tip(db.End(t)) {
      MoveKeepsStable(db, d, o, was, now, s, t);
    }
    forall k ensures Standing(after.e, k) == Standing(db.e, k) {
    }
    forall j, k ensures EdgeSettled(after, j, k) {
      assert EdgeSettled(db, j, k);
    }
    forall s ensures SpotSettled(after, s) {
      assert SpotSettled(db, s);
    }
  }

  /** After a move, upgrades are owed at the edge's ends as they then are. */
  lemma MoveOwed(db: Db, d: Direction, o: Oid, was: Oid, now: Oid, s: Spot)
    requires Movable(db, d, o, was, now) && HistoriesOk(db)
    ensures var after, r, t := db.MoveEnd(d, o, was, now), db.e.At(o).rid, Side(s.direction, o);
            && (s.edge != r ==> Owed(after, s) == Owed(db, s))
            && (s.edge == r ==> (Owed(db, s) <==> r in db.e.mine && db.IsEnd(t, s.vertex)))
            && (s.edge == r && s.direction != d ==> (Owed(after, s) <==> db.IsEnd(t, s.vertex)))
            && (s.edge == r && s.direction == d ==>
                  (Owed(after, s) <==> s.vertex == now || Tip(db.End(t)) == Some(s.vertex)))
  {
    var r := db.e.At(o).rid;
    MovePool(db, d, o, was, now);
    assert MineOk(db.e, None, r) && StoredOk(db.e, Limit(db), None, r) && MineOk(db.e, None, s.edge);
    MoveIs(db, d, o, was, now, s, Side(s.direction, o));
    MoveKeepsStable(db, d, o, was, now, s, Side(s.direction, o));
    if s.edge in db.e.mine {
      MoveIs(db, d, o, was, now, s, Side(s.direction, db.e.mine[s.edge]));
    }
  }

  lemma MovePromised(db: Db, d: Direction, o: Oid, was: Oid, now: Oid, s: Spot)
    requires Movable(db, d, o, was, now) && HistoriesOk(db) && Pending(db) && Settled(db)
    ensures Promised(db.MoveEnd(d, o, was, now), s)
  {
    var r := db.e.At(o).rid;
    assert Promised(db, s);
    MovePool(db, d, o, was, now);
    MoveOwed(db, d, o, was, now, s);
    MoveIs(db, d, o, was, now, s, Side(d, o));
    DeleteLatestIs(db.Adj(s));
    if s.edge == r && r !in db.e.mine && db.IsEnd(Side(s.direction, o), s.vertex) {
      UntouchedEnds(db, o, s);
    }
  }

  /** A vertex that an edge leaves lists it as committed only if it is the edge's committed end. */
  lemma CommittedOnlyAtEnd(db: Db, d: Direction, o: Oid, was: Oid, now: Oid, s: Spot)
    requires Movable(db, d, o, was, now) && HistoriesOk(db) && Committed(db) && Settled(db)
    requires s == Spot(d, was, db.e.At(o).rid) && Tip(db.Adj(s)).Some?
    ensures Tip(db.End(Side(d, o))) == Some(was)
  {
    var k := db.v.At(was).rid;
    assert StoredOk(db.v, Limit(db), None, k) && MineOk(db.v, None, k) && ObjectOk(db.v, db.next, was);
    assert SpotOk(db, s) && TipStored(db, s) && SpotSettled(db, s);
  }

  lemma MoveHarmless(db: Db, d: Direction, o: Oid, was: Oid, now: Oid, s: Spot)
    requires Movable(db, d, o, was, now) && HistoriesOk(db) && Pending(db) && Committed(db) && Settled(db)
    ensures Harmless(db.MoveEnd(d, o, was, now), s)
  {
    var r := db.e.At(o).rid;
    assert Harmless(db, s);
    MovePool(db, d, o, was, now);
    MoveOwed(db, d, o, was, now, s);
    MoveIs(db, d, o, was, now, s, Side(d, o));
    DeleteLatestIs(db.Adj(s));
    if s == Spot(d, was, r) && Tip(db.Adj(s)).Some? {
      CommittedOnlyAtEnd(db, d, o, was, now, s);
    }
  }

  lemma MovePending(db: Db, d: Direction, o: Oid, was: Oid, now: Oid)
    requires Movable(db, d, o, was, now) && HistoriesOk(db) && Pending(db) && Committed(db) && Settled(db)
    ensures Pending(db.MoveEnd(d, o, was, now))
  {
    var after := db.MoveEnd(d, o, was, now);
    MovePool(db, d, o, was, now);
    forall s ensures Promised(after, s) {
      MovePromised(db, d, o, was, now, s);
    }
    forall s ensures Harmless(after, s) {
      MoveHarmless(db, d, o, was, now, s);
    }
    forall s ensures InstrOk(after, s) {
      assert InstrOk(db, s);
    }
    forall s ensures SidePending(after, s) {
      assert SidePending(db, s);
      MoveIs(db, d, o, was, now, Spot(d, was, db.e.At(o).rid), s);
    }
  }

  lemma MoveCommitted(db: Db, d: Direction, o: Oid, was: Oid, now: Oid)
    requires Movable(db, d, o, was, now) && Committed(db)
    ensures Committed(db.MoveEnd(d, o, was, now))
  {
    var after := db.MoveEnd(d, o, was, now);
    forall s ensures TipStored(after, s) {
      assert TipStored(db, s);
      MoveKeepsStable(db, d, o, was, now, s, Side(d, o));
    }
    forall s, v ensures ListedExisted(after, s, v) {
      assert ListedExisted(db, s, v);
      MoveKeepsStable(db, d, o, was, now, s, Side(d, o));
    }
    forall s, v ensures EndExisted(after, s, v) {
      assert EndExisted(db, s, v);
      MoveKeepsStable(db, d, o, was, now, Spot(d, was, db.e.At(o).rid), s);
    }
  }

  lemma SameQueue(p: Pool, q: Pool, latest: nat)
    requires QueueOk(p, latest) && DroppedOk(p, latest)
    requires q.stored == p.stored && q.objects == p.objects && q.queue == p.queue && q.dropped == p.dropped
    ensures QueueOk(q, latest) && DroppedOk(q, latest)
  {
    forall t | t in q.queue ensures TombOk(q, latest, t) {
      assert TombOk(p, latest, t);
    }
  }

  lemma MoveOwns(db: Db, d: Direction, o: Oid, was: Oid, now: Oid)
    requires Movable(db, d, o, was, now) && OwnsOk(db.e, db.maxVersion)
    ensures OwnsOk(db.MoveEnd(d, o, was, now).e, db.maxVersion)
  {
    forall r ensures OwnOk(db.MoveEnd(d, o, was, now).e, db.maxVersion, r) {
      assert OwnOk(db.e, db.maxVersion, r);
    }
    forall k ensures RecentOk(db.MoveEnd(d, o, was, now).e, db.maxVersion, k) {
      assert RecentOk(db.e, db.maxVersion, k);
    }
  }

  lemma MoveKeeps(db: Db, d: Direction, o: Oid, was: Oid, now: Oid)
    requires Valid(db) && Live(db, o) && Latest(db.End(Side(d, o))) == Some(was) && LiveVertex(db, now)
    ensures Valid(db.MoveEnd(d, o, was, now))
  {
    assert EdgeAgrees(db, d, db.e.At(o).rid);
    MovePool(db, d, o, was, now);
    MoveHistories(db, d, o, was, now);
    MoveAgrees(db, d, o, was, now);
    MoveSettled(db, d, o, was, now);
    MovePending(db, d, o, was, now);
    MoveCommitted(db, d, o, was, now);
    MoveOwns(db, d, o, was, now);
    SameQueue(db.e, db.MoveEnd(d, o, was, now).e, db.maxVersion);
  }

  // The operations.

  /** An id the writer does not find has never been used, or its last holder is gone from memory. */
  ghost predicate Usable(p: Pool, r: RecordId) {
    p.Lookup(r).None? ==> Unused(p, r)
  }

  lemma CreateVertexKeeps(db: Db, r: RecordId)
    requires Valid(db) && db.phase.Writing? && Usable(db.v, r)
    ensures Valid(CreateVertex(db, r))
  {
    if db.v.Lookup(r).None? {
      MakeVertexKeeps(db, r);
    }
  }

  /** A looked-up or newly made vertex. */
  lemma VertexFor(db: Db, r: RecordId, other: RecordId)
    requires TablesOk(db) && PhaseOk(db) && db.phase.Writing? && Usable(db.v, r)
    ensures db.v.Lookup(r).Some? ==> LiveVertex(db, db.v.Lookup(r).value)
    ensures db.v.Lookup(r).None? ==>
              var after := db.MakeVertex(r);
              && LiveVertex(after, db.next) && after.e == db.e
              && (other != r ==> after.v.Lookup(other) == db.v.Lookup(other))
              && (Usable(db.v, other) ==> Usable(after.v, other))
  {
    assert StoredOk(db.v, Limit(db), None, r) && MineOk(db.v, None, r);
    assert StoredOk(db.v, Limit(db), None, other) && MineOk(db.v, None, other);
    if db.v.Lookup(r).None? {
      MakeLooks(db.v, db.next, Limit(db), r, r);
      MakeLooks(db.v, db.next, Limit(db), r, other);
      MakeAlive(db.v, db.next, Limit(db), r, db.next);
    }
  }

  /** A vertex that is live stays live when another is made. */
  lemma StillLive(db: Db, r: RecordId, x: Oid)
    requires TablesOk(db) && PhaseOk(db) && LiveVertex(db, x) && Unused(db.v, r)
    ensures LiveVertex(db.MakeVertex(r), x)
  {
    var k := db.v.At(x).rid;
    assert StoredOk(db.v, Limit(db), None, k) && MineOk(db.v, None, k) && ObjectOk(db.v, db.next, x);
    MakeLooks(db.v, db.next, Limit(db), r, k);
    MakeAlive(db.v, db.next, Limit(db), r, x);
  }

  /** A self-loop needs its vertex in memory; otherwise any two ids will do. */
  ghost predicate CanLink(db: Db, r: RecordId, source: RecordId, target: RecordId) {
    && Usable(db.e, r) && Usable(db.v, source) && Usable(db.v, target)
    && (source == target ==> db.v.Lookup(source).Some?)
  }

  lemma CreateEdgeKeeps(db: Db, r: RecordId, source: RecordId, target: RecordId)
    requires Valid(db) && db.phase.Writing? && CanLink(db, r, source, target) && db.e.Lookup(r).None?
    ensures CreateEdge(db, r, source, target).Done? && Valid(CreateEdge(db, r, source, target).db)
  {
    var s, t := db.v.Lookup(source), db.v.Lookup(target);
    var one := if s.None? then db.MakeVertex(source) else db;
    var two := if t.None? then one.MakeVertex(target) else one;
    var x, y := if s.None? then db.next else s.value, if t.None? then one.next else t.value;
    VertexFor(db, source, target);
    VertexFor(db, target, source);
    if s.None? {
      MakeVertexKeeps(db, source);
      if t.Some? {
        StillLive(db, source, y);
      }
    }
    VertexFor(one, target, source);
    if t.None? {
      MakeVertexKeeps(one, target);
      StillLive(one, target, x);
    }
    MakeEdgeKeeps(two, r, x, y);
  }

  lemma DeleteEdgeKeeps(db: Db, r: RecordId)
    requires Valid(db) && db.phase.Writing?
    ensures Valid(DeleteEdge(db, r)) && DeleteEdge(db, r).e.Lookup(r) == None
  {
    if db.e.Lookup(r).Some? {
      var o := db.e.Lookup(r).value;
      assert StoredOk(db.e, Limit(db), None, r) && MineOk(db.e, None, r);
      DeleteEdgeDetaches(db, r, o);
      DetachKeeps(db, o, None, DeleteEdge(db, r), None);
      RetireLooks(db.e, db.next, Limit(db), o, r);
    }
  }

  lemma MoveToNewKeeps(db: Db, d: Direction, o: Oid, was: Oid, vertex: RecordId)
    requires Valid(db) && Live(db, o) && Latest(db.End(Side(d, o))) == Some(was) && Unused(db.v, vertex)
    ensures Valid(db.MakeVertex(vertex).MoveEnd(d, o, was, db.next))
  {
    MakeVertexKeeps(db, vertex);
    VertexFor(db, vertex, vertex);
    MoveKeeps(db.MakeVertex(vertex), d, o, was, db.next);
  }

  /** The end of an edge that the writer finds can be reached. */
  lemma EndIsAlive(db: Db, d: Direction, r: RecordId)
    requires Valid(db) && db.phase.Writing? && db.e.Lookup(r).Some?
    ensures var o := db.e.Lookup(r).value;
            && Live(db, o) && Latest(db.End(Side(d, o))).Some?
            && db.v.Alive(Latest(db.End(Side(d, o))).value)
  {
    assert StoredOk(db.e, Limit(db), None, r) && MineOk(db.e, None, r) && EdgeAgrees(db, d, r);
    var k := db.v.At(Latest(db.End(Side(d, db.e.Lookup(r).value))).value).rid;
    assert StoredOk(db.v, Limit(db), None, k) && MineOk(db.v, None, k);
  }

  /** Altering an end fails only when there is no such edge. */
  lemma AlterEndFails(db: Db, d: Direction, r: RecordId, vertex: RecordId)
    requires Valid(db) && db.phase.Writing?
    ensures AlterEnd(db, d, r, vertex) == Failed(NoEdge) <==> db.e.Lookup(r).None?
    ensures AlterEnd(db, d, r, vertex) != Failed(UnknownEnd)
  {
    if db.e.Lookup(r).Some? {
      EndIsAlive(db, d, r);
    }
  }

  lemma AlterEndKeeps(db: Db, d: Direction, r: RecordId, vertex: RecordId)
    requires Valid(db) && db.phase.Writing? && Usable(db.v, vertex)
    ensures AlterEnd(db, d, r, vertex).Done? ==> Valid(AlterEnd(db, d, r, vertex).db)
  {
    if AlterEnd(db, d, r, vertex).Done? {
      var o := db.e.Lookup(r).value;
      var was := Latest(db.End(Side(d, o))).value;
      EndIsAlive(db, d, r);
      if db.v.Lookup(vertex).Some? {
        VertexFor(db, vertex, vertex);
        MoveKeeps(db, d, o, was, db.v.Lookup(vertex).value);
      } else {
        MoveToNewKeeps(db, d, o, was, vertex);
      }
    }
  }
}
