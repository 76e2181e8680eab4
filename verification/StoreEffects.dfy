/**
 What each operation of the writer changes of what the writer finds, and that it changes nothing else.
 */
module StoreEffects {
  import opened Common
  import opened Histories
  import opened Store
  import opened StoreInvariant
  import opened StoreDetach
  import opened StoreCascade
  import opened StoreLink
  import opened StoreMove
  import opened StoreGraph

  /** The edge under `k` is found as before, with the same end at side `d`. */
  ghost predicate SameEdge(db: Db, after: Db, d: Direction, k: RecordId) {
    after.e.Lookup(k) == db.e.Lookup(k) && EndOf(after, d, k) == EndOf(db, d, k)
  }

  /** The end of an edge is an object known by now. */
  lemma EndIsKnown(db: Db, d: Direction, k: RecordId)
    requires Valid(db) && db.e.Lookup(k).Some?
    ensures var o := db.e.Lookup(k).value;
            && o in db.e.objects && o < db.next && db.e.At(o).rid == k
            && Latest(db.End(Side(d, o))).Some?
            && var x := Latest(db.End(Side(d, o))).value;
            && x in db.v.objects && x < db.next && db.v.Alive(x) && db.v.Lookup(db.v.At(x).rid) == Some(x)
            && EndOf(db, d, k) == Some(db.v.At(x).rid)
  {
    var o := db.e.Lookup(k).value;
    assert StoredOk(db.e, Limit(db), db.current, k) && MineOk(db.e, db.current, k) && ObjectOk(db.e, db.next, o);
    assert EdgeAgrees(db, d, k);
    var x := Latest(db.End(Side(d, o))).value;
    assert StoredOk(db.v, Limit(db), None, db.v.At(x).rid) && MineOk(db.v, None, db.v.At(x).rid);
    assert ObjectOk(db.v, db.next, x);
  }

  // Creating a vertex.

  lemma MakeVertexEdges(db: Db, r: RecordId, d: Direction, k: RecordId)
    requires Valid(db) && Unused(db.v, r)
    ensures SameEdge(db, db.MakeVertex(r), d, k)
  {
    if db.e.Lookup(k).Some? {
      EndIsKnown(db, d, k);
      MakeAlive(db.v, db.next, Limit(db), r, Latest(db.End(Side(d, db.e.Lookup(k).value))).value);
    }
  }

  /** A created vertex is found, exactly if its id can be used; everything else is found as before. */
  lemma CreateVertexFinds(db: Db, r: RecordId, d: Direction, k: RecordId)
    requires Valid(db) && db.phase.Writing?
    ensures var after := CreateVertex(db, r);
            && (after.v.Lookup(r).Some? <==> Usable(db.v, r))
            && (k != r ==> after.v.Lookup(k) == db.v.Lookup(k))
            && (db.v.Lookup(r).Some? ==> after.v.Lookup(r) == db.v.Lookup(r))
            && (Usable(db.v, r) ==> SameEdge(db, after, d, k))
  {
    if Unused(db.v, r) {
      MakeLooks(db.v, db.next, Limit(db), r, r);
      MakeLooks(db.v, db.next, Limit(db), r, k);
      MakeVertexEdges(db, r, d, k);
    } else if db.v.Lookup(r).None? {
      assert StoredOk(db.v, Limit(db), None, r) && MineOk(db.v, None, r) && ObjectOk(db.v, db.next, db.next);
      assert StoredOk(db.v, Limit(db), None, k) && MineOk(db.v, None, k);
    }
  }

  // Creating an edge.

  lemma MakeEdgeLinks(db: Db, r: RecordId, x: Oid, y: Oid, d: Direction, k: RecordId)
    requires Valid(db) && Unused(db.e, r) && LiveVertex(db, x) && LiveVertex(db, y)
    ensures var after := db.MakeEdge(r, x, y);
            && after.v == db.v && EndOf(after, d, r) == Some(db.v.At(if d.Out? then x else y).rid)
            && (k != r ==> SameEdge(db, after, d, k))
  {
    var after, z := db.MakeEdge(r, x, y), if d.Out? then x else y;
    MakeLooks(db.e, db.next, Limit(db), r, r);
    MakeLooks(db.e, db.next, Limit(db), r, k);
    MakeEdgeIs(db, r, x, y, Spot(d, z, r), Side(d, db.next));
    assert StoredOk(db.v, Limit(db), None, db.v.At(z).rid) && MineOk(db.v, None, db.v.At(z).rid);
    assert db.v.Alive(z);
    if k != r && db.e.Lookup(k).Some? {
      EndIsKnown(db, d, k);
      MakeEdgeIs(db, r, x, y, Spot(d, z, r), Side(d, db.e.Lookup(k).value));
    }
  }

  /** The vertex object for an end of a new edge: the one found, or a new one. */
  ghost predicate Provides(db: Db, r: RecordId, after: Db, x: Oid) {
    && Valid(after) && after.phase.Writing? && after.e == db.e && LiveVertex(after, x) && after.v.At(x).rid == r
    && (forall k :: k != r ==> after.v.Lookup(k) == db.v.Lookup(k))
    && (forall d, k :: SameEdge(db, after, d, k))
  }

  lemma FoundOrMade(db: Db, r: RecordId, after: Db, x: Oid)
    requires Valid(db) && db.phase.Writing? && Usable(db.v, r)
    requires after == if db.v.Lookup(r).None? then db.MakeVertex(r) else db
    requires x == if db.v.Lookup(r).None? then db.next else db.v.Lookup(r).value
    ensures Provides(db, r, after, x)
  {
    if db.v.Lookup(r).None? {
      MakeVertexKeeps(db, r);
      MakeAlive(db.v, db.next, Limit(db), r, x);
      MakeLooks(db.v, db.next, Limit(db), r, r);
      forall k | k != r ensures after.v.Lookup(k) == db.v.Lookup(k) {
        MakeLooks(db.v, db.next, Limit(db), r, k);
      }
      forall d, k ensures SameEdge(db, after, d, k) {
        MakeVertexEdges(db, r, d, k);
      }
    } else {
      assert StoredOk(db.v, Limit(db), None, r) && MineOk(db.v, None, r);
    }
  }

  /** The two vertex objects that a new edge joins. */
  lemma EndsAreProvided(db: Db, r: RecordId, source: RecordId, target: RecordId)
    returns (one: Db, two: Db, x: Oid, y: Oid)
    requires Valid(db) && db.phase.Writing? && CanLink(db, r, source, target) && db.e.Lookup(r).None?
    ensures CreateEdge(db, r, source, target) == Done(two.MakeEdge(r, x, y))
    ensures Provides(db, source, one, x) && Provides(one, target, two, y) && two.v.At(x).rid == source
    ensures LiveVertex(two, x)
    ensures (db.v.Lookup(source).Some? ==> one == db) && (db.v.Lookup(target).Some? ==> two == one)
  {
    var s, t := db.v.Lookup(source), db.v.Lookup(target);
    one := if s.None? then db.MakeVertex(source) else db;
    x := if s.None? then db.next else s.value;
    FoundOrMade(db, source, one, x);
    two := if t.None? then one.MakeVertex(target) else one;
    y := if t.None? then one.next else t.value;
    assert one.v.Lookup(target) == t;
    VertexFor(db, source, target);
    FoundOrMade(one, target, two, y);
    if t.None? {
      StillLive(one, target, x);
      assert StoredOk(one.v, Limit(one), None, source) && MineOk(one.v, None, source) && ObjectOk(one.v, one.next, x);
      MakeAlive(one.v, one.next, Limit(one), target, x);
    }
  }

  /** There is an edge from `source` to `target` under `r`, and both are found; all else is found as before. */
  ghost predicate Linked(db: Db, after: Db, r: RecordId, source: RecordId, target: RecordId, d: Direction,
                         k: RecordId) {
    && after.e.Lookup(r).Some? && EndOf(after, Out, r) == Some(source) && EndOf(after, In, r) == Some(target)
    && (k != r ==> SameEdge(db, after, d, k))
    && after.v.Lookup(source).Some? && after.v.Lookup(target).Some?
    && (k != source && k != target ==> after.v.Lookup(k) == db.v.Lookup(k))
    && (db.v.Lookup(k).Some? ==> after.v.Lookup(k) == db.v.Lookup(k))
  }

  /** A created edge runs from `source` to `target`. */
  lemma CreateEdgeLinks(db: Db, r: RecordId, source: RecordId, target: RecordId, d: Direction, k: RecordId)
    requires Valid(db) && db.phase.Writing? && CanLink(db, r, source, target) && db.e.Lookup(r).None?
    ensures CreateEdge(db, r, source, target).Done?
    ensures Linked(db, CreateEdge(db, r, source, target).db, r, source, target, d, k)
  {
    var one, two, x, y := EndsAreProvided(db, r, source, target);
    MakeLooks(two.e, two.next, Limit(two), r, r);
    MakeEdgeLinks(two, r, x, y, Out, k);
    MakeEdgeLinks(two, r, x, y, In, k);
    assert SameEdge(db, one, d, k) && SameEdge(one, two, d, k);
  }

  // Deleting an edge.

  /** A deleted edge is not found; every other edge and every vertex is found as before. */
  lemma DeleteEdgeRemoves(db: Db, r: RecordId, d: Direction, k: RecordId)
    requires Valid(db) && db.phase.Writing?
    ensures var after := DeleteEdge(db, r);
            after.e.Lookup(r) == None && after.v == db.v && (k != r ==> SameEdge(db, after, d, k))
  {
    if db.e.Lookup(r).Some? {
      var o := db.e.Lookup(r).value;
      DeleteEdgeDetaches(db, r, o);
      RetireLooks(db.e, db.next, Limit(db), o, r);
      RetireLooks(db.e, db.next, Limit(db), o, k);
      EndIsKnown(db, d, r);
    }
  }

  // Moving an end.

  /** The situation in which the end of the edge under `r` is moved. */
  ghost predicate Moving(db: Db, d: Direction, r: RecordId, o: Oid, was: Oid, now: Oid) {
    && Valid(db) && db.phase.Writing? && db.e.Lookup(r) == Some(o) && Latest(db.End(Side(d, o))) == Some(was)
    && LiveVertex(db, now)
  }

  lemma MovingIsMovable(db: Db, d: Direction, r: RecordId, o: Oid, was: Oid, now: Oid)
    requires Moving(db, d, r, o, was, now)
    ensures Movable(db, d, o, was, now) && db.e.At(o).rid == r
  {
    EndIsKnown(db, d, r);
    assert EdgeAgrees(db, d, r);
  }

  lemma MovedEnd(db: Db, d: Direction, r: RecordId, o: Oid, was: Oid, now: Oid)
    requires Moving(db, d, r, o, was, now)
    ensures var after := db.MoveEnd(d, o, was, now);
            after.v == db.v && after.e.Lookup(r) == Some(o) && EndOf(after, d, r) == Some(db.v.At(now).rid)
  {
    MovingIsMovable(db, d, r, o, was, now);
    MovePool(db, d, o, was, now);
    MoveIs(db, d, o, was, now, Spot(d, was, r), Side(d, o));
    assert StoredOk(db.v, Limit(db), None, db.v.At(now).rid) && MineOk(db.v, None, db.v.At(now).rid);
  }

  lemma OtherEnds(db: Db, d: Direction, r: RecordId, o: Oid, was: Oid, now: Oid, j: Direction, k: RecordId)
    requires Moving(db, d, r, o, was, now) && (k != r || j != d)
    ensures SameEdge(db, db.MoveEnd(d, o, was, now), j, k)
  {
    MovingIsMovable(db, d, r, o, was, now);
    MovePool(db, d, o, was, now);
    if db.e.Lookup(k).Some? {
      EndIsKnown(db, j, k);
      MoveIs(db, d, o, was, now, Spot(d, was, r), Side(j, db.e.Lookup(k).value));
    }
  }

  /** The edge under `r` ends at `vertex` at side `d`, and the vertex is found; all else is found as before. */
  ghost predicate Moved(db: Db, after: Db, d: Direction, r: RecordId, vertex: RecordId, j: Direction, k: RecordId) {
    && after.e.Lookup(r) == db.e.Lookup(r) && EndOf(after, d, r) == Some(vertex)
    && (k != r || j != d ==> SameEdge(db, after, j, k))
    && after.v.Lookup(vertex).Some? && (k != vertex ==> after.v.Lookup(k) == db.v.Lookup(k))
    && (db.v.Lookup(k).Some? ==> after.v.Lookup(k) == db.v.Lookup(k))
  }

  /** Altering an end moves it to the given vertex. */
  lemma AlterEndMoves(db: Db, d: Direction, r: RecordId, vertex: RecordId, j: Direction, k: RecordId)
    requires Valid(db) && db.phase.Writing? && Usable(db.v, vertex) && db.e.Lookup(r).Some?
    ensures AlterEnd(db, d, r, vertex).Done?
    ensures Moved(db, AlterEnd(db, d, r, vertex).db, d, r, vertex, j, k)
  {
    EndIsKnown(db, d, r);
    var o := db.e.Lookup(r).value;
    var was := Latest(db.End(Side(d, o))).value;
    var one := if db.v.Lookup(vertex).None? then db.MakeVertex(vertex) else db;
    var now := if db.v.Lookup(vertex).None? then db.next else db.v.Lookup(vertex).value;
    FoundOrMade(db, vertex, one, now);
    assert AlterEnd(db, d, r, vertex) == Done(one.MoveEnd(d, o, was, now));
    MovedEnd(one, d, r, o, was, now);
    if k != r || j != d {
      OtherEnds(one, d, r, o, was, now, j, k);
    }
    assert SameEdge(db, one, j, k);
  }

  // Deleting a vertex.

  /** The edge under `k` has neither end at the vertex under `r`. */
  ghost predicate Away(db: Db, r: RecordId, k: RecordId) {
    EndOf(db, Out, k) != Some(r) && EndOf(db, In, k) != Some(r)
  }

  lemma AwayIs(db: Db, r: RecordId, x: Oid, d: Direction, k: RecordId)
    requires Valid(db) && db.v.Lookup(r) == Some(x)
    ensures NotAt(db, d, x, k) <==> EndOf(db, d, k) != Some(r)
  {
    assert StoredOk(db.v, Limit(db), None, r) && MineOk(db.v, None, r);
    if db.e.Lookup(k).Some? {
      EndIsKnown(db, d, k);
    }
  }

  lemma DeleteVertexFrame(db: Db, r: RecordId, ins: seq<RecordId>, outs: seq<RecordId>, x: Oid)
    requires Valid(db) && db.phase.Writing? && db.v.Lookup(r) == Some(x) && ListsOf(db, x, ins, outs)
    ensures DeleteVertex(db, r, ins, outs).v == db.v.Retire(x) && DeleteVertex(db, r, ins, outs).ends == db.ends
  {
    assert StoredOk(db.v, Limit(db), None, r) && MineOk(db.v, None, r);
    SecondList(db, x, ins, outs);
    DeleteAllListedFewer(db, In, x, ins);
    DeleteAllListedFewer(DeleteAllListed(db, In, x, ins), Out, x, outs);
  }

  lemma RetireEnds(db: Db, after: Db, r: RecordId, x: Oid, d: Direction, k: RecordId)
    requires Valid(db) && db.v.Lookup(r) == Some(x) && after.v == db.v.Retire(x) && after.ends == db.ends
    requires after.e.Lookup(k) == db.e.Lookup(k) && Away(db, r, k) && db.phase.Writing?
    ensures SameEdge(db, after, d, k)
  {
    assert StoredOk(db.v, Limit(db), None, r) && MineOk(db.v, None, r);
    if db.e.Lookup(k).Some? {
      EndIsKnown(db, d, k);
      RetireAlive(db.v, db.next, Limit(db), x, Latest(db.End(Side(d, db.e.Lookup(k).value))).value);
    }
  }

  /** A deleted vertex and every edge at it are not found; everything else is found as before. */
  lemma DeleteVertexRemoves(db: Db, r: RecordId, ins: seq<RecordId>, outs: seq<RecordId>, d: Direction, k: RecordId)
    requires Valid(db) && db.phase.Writing?
    requires db.v.Lookup(r).Some? ==> ListsOf(db, db.v.Lookup(r).value, ins, outs)
    ensures var after := DeleteVertex(db, r, ins, outs);
            && after.v.Lookup(r) == None && (k != r ==> after.v.Lookup(k) == db.v.Lookup(k))
            && (if Away(db, r, k) then SameEdge(db, after, d, k) else after.e.Lookup(k) == None)
  {
    if db.v.Lookup(r).Some? {
      var x := db.v.Lookup(r).value;
      DeleteVertexDeletes(db, r, ins, outs, x, k);
      DeleteVertexFrame(db, r, ins, outs, x);
      assert StoredOk(db.v, Limit(db), None, r) && MineOk(db.v, None, r);
      RetireLooks(db.v, db.next, Limit(db), x, k);
      AwayIs(db, r, x, In, k);
      AwayIs(db, r, x, Out, k);
      if Away(db, r, k) {
        RetireEnds(db, DeleteVertex(db, r, ins, outs), r, x, d, k);
      }
    } else {
      EndsAreVertices(db, Out, k);
      EndsAreVertices(db, In, k);
    }
  }
}
