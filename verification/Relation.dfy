/**
 The relation as the code runs it: loops over hash maps in whatever order they produce their keys, updating the store
 in place. Each loop is proved against the step functions of module Store.
 */
module Relations {
  import opened Common
  import opened Histories
  import opened Store
  import opened StoreInvariant
  import opened StoreCascade
  import opened StoreCommit
  import opened StoreUpgrade
  import opened StorePublish
  import opened StoreReaders
  import opened StoreRollback
  import opened StoreRuns
  import opened Snapshots
  import opened Publication

  // Reading a vertex's list.

  /** The keys of one list of a vertex, once each. */
  method KeysOf(db: Db, d: Direction, x: Oid) returns (keys: seq<RecordId>)
    ensures forall k :: k in keys <==> Spot(d, x, k) in db.adj
    ensures Distinct(keys)
  {
    var todo := set s | s in db.adj && s.direction == d && s.vertex == x;
    keys := [];
    while todo != {}
      invariant forall k :: Spot(d, x, k) in db.adj <==> k in keys || Spot(d, x, k) in todo
      invariant forall s :: s in todo ==> s.direction == d && s.vertex == x
      invariant Distinct(keys) && forall k :: k in keys ==> Spot(d, x, k) !in todo
      decreases |todo|
    {
      var s :| s in todo;
      assert s == Spot(d, x, s.edge);
      keys := keys + [s.edge];
      todo := todo - {s};
    }
  }

  datatype EdgesResult = Edges(rids: seq<RecordId>) | NoVertex

  /** `getEdgeIn` and `getEdgeOut` for the writer: exactly the edges listed, once each. */
  method GetEdges(db: Db, d: Direction, r: RecordId) returns (result: EdgesResult)
    ensures result.NoVertex? <==> db.v.Lookup(r).None?
    ensures result.Edges? ==>
              && (forall k :: k in result.rids <==> Listed(db, Spot(d, db.v.Lookup(r).value, k)).Some?)
              && Distinct(result.rids)
  {
    var found := db.v.Lookup(r);
    if found.None? {
      return NoVertex;
    }
    var x, rids := found.value, [];
    var keys := KeysOf(db, d, x);
    for i := 0 to |keys|
      invariant forall k :: k in rids <==> k in keys[..i] && Listed(db, Spot(d, x, k)).Some?
      invariant Distinct(rids)
    {
      var h := Latest(db.Adj(Spot(d, x, keys[i])));
      assert keys[..i + 1] == keys[..i] + [keys[i]];
      if h.Some? && db.e.Alive(h.value) {
        assert keys[i] !in keys[..i];
        rids := rids + [keys[i]];
      }
    }
    assert keys[..|keys|] == keys;
    return Edges(rids);
  }

  /** The same for a reader at version `v`. */
  method GetEdgesAt(db: Db, d: Direction, r: RecordId, v: nat) returns (result: EdgesResult)
    ensures result.NoVertex? <==> db.v.LookupAt(r, v).None?
    ensures result.Edges? ==> AreEdgesAt(db, d, db.v.LookupAt(r, v).value, v, result.rids)
  {
    var found := db.v.LookupAt(r, v);
    if found.None? {
      return NoVertex;
    }
    var x, rids := found.value, [];
    var keys := KeysOf(db, d, x);
    for i := 0 to |keys|
      invariant forall k :: k in rids <==> k in keys[..i] && ListedAt(db, Spot(d, x, k), v).Some?
      invariant Distinct(rids)
    {
      var h := ReadAt(db.Adj(Spot(d, x, keys[i])), v);
      assert keys[..i + 1] == keys[..i] + [keys[i]];
      if h.Some? && db.e.Alive(h.value) {
        assert keys[i] !in keys[..i];
        rids := rids + [keys[i]];
      }
    }
    assert keys[..|keys|] == keys;
    return Edges(rids);
  }

  /** In a consistent store the edges listed at a vertex are exactly those that end there. */
  lemma GetEdgesFindsEnds(db: Db, d: Direction, r: RecordId, k: RecordId)
    requires Valid(db) && db.v.Lookup(r).Some?
    ensures var x := db.v.Lookup(r).value;
            Listed(db, Spot(d, x, k)).Some? <==>
            db.e.Lookup(k).Some? && Latest(db.End(Side(d, db.e.Lookup(k).value))) == Some(x)
  {
    var x := db.v.Lookup(r).value;
    assert SpotAgrees(db, Spot(d, x, k)) && EdgeAgrees(db, d, k);
    assert StoredOk(db.v, Limit(db), None, r) && MineOk(db.v, None, r);
    assert StoredOk(db.e, Limit(db), db.current, k) && MineOk(db.e, db.current, k);
  }

  /** What `GetEdgesAt` returns for a vertex object at version `v`. */
  ghost predicate AreEdgesAt(db: Db, d: Direction, x: Oid, v: nat, rids: seq<RecordId>) {
    Distinct(rids) && forall k :: k in rids <==> ListedAt(db, Spot(d, x, k), v).Some?
  }

  /**
   A reader asks twice for the edges of one vertex of its version. The second answer has nothing new, and it is the
   same as the first exactly if in between no commit prunes, from this vertex's list, an entry that the reader uses.
   */
  lemma EdgesAreStable(db: Db, evs: seq<Event>, reader: Reader, d: Direction, r: RecordId, x: Oid,
                       was: seq<RecordId>, now: seq<RecordId>)
    requires Valid(db) && IsRun(db, evs) && Active(db, reader) && Served(db, reader.version)
    requires ReadsThrough(db, evs, reader)
    requires db.v.LookupAt(r, reader.version) == Some(x) && Existed(db.v.At(x), reader.version)
    requires AreEdgesAt(db, d, x, reader.version, was) && AreEdgesAt(After(db, evs), d, x, reader.version, now)
    ensures After(db, evs).v.LookupAt(r, reader.version) == Some(x)
    ensures forall k :: k in now <==> k in was && SpotSpared(db, evs, Spot(d, x, k), reader.version)
  {
    assert StoredOk(db.v, Limit(db), None, r);
    ReaderAnswers(db, evs, reader, Spot(d, x, r), Side(d, 0));
    forall k ensures k in now <==> k in was && SpotSpared(db, evs, Spot(d, x, k), reader.version) {
      ReaderAnswers(db, evs, reader, Spot(d, x, k), Side(d, 0));
    }
  }

  class Relation {
    var db: Db

    constructor ()
      ensures db == START
    {
      db := START;
    }

    // Deleting a vertex.

    /** One pass over one list. */
    method DeleteList(d: Direction, x: Oid, keys: seq<RecordId>)
      modifies this
      ensures db == DeleteAllListed(old(db), d, x, keys)
    {
      var i := 0;
      while i < |keys|
        invariant 0 <= i <= |keys|
        invariant DeleteAllListed(db, d, x, keys[i..]) == DeleteAllListed(old(db), d, x, keys)
      {
        db := DeleteListed(db, d, x, keys[i]);
        assert keys[i..][1..] == keys[i + 1..];
        i := i + 1;
      }
    }

    /** Deletes a vertex and, with it, exactly the edges that end at it. */
    method DeleteVertexAndEdges(r: RecordId)
      requires Valid(db) && db.phase.Writing?
      modifies this
      ensures Valid(db)
      ensures db.v.Lookup(r) == None
      ensures old(db).v.Lookup(r).None? ==> db == old(db)
      ensures old(db).v.Lookup(r).Some? ==>
                var x := old(db).v.Lookup(r).value;
                forall k :: db.e.Lookup(k) ==
                  if NotAt(old(db), In, x, k) && NotAt(old(db), Out, x, k) then old(db).e.Lookup(k) else None
    {
      var found := db.v.Lookup(r);
      if found.None? {
        return;
      }
      var x := found.value;
      ghost var start := db;
      var ins := KeysOf(db, In, x);
      DeleteList(In, x, ins);
      InPassKeepsKeys(start, r, x, ins);
      var outs := KeysOf(db, Out, x);
      DeleteList(Out, x, outs);
      db := db.RetireVertex(x);
      assert db == DeleteVertex(start, r, ins, outs) && ListsOf(start, x, ins, outs);
      DeleteVertexKeeps(start, r, ins, outs);
      forall k ensures db.v.Lookup(r) == None && db.e.Lookup(k) ==
                  if NotAt(start, In, x, k) && NotAt(start, Out, x, k) then start.e.Lookup(k) else None
      {
        DeleteVertexDeletes(start, r, ins, outs, x, k);
      }
      DeleteVertexDeletes(start, r, ins, outs, x, r);
    }

    // Committing.

    method CommitVertices()
      requires Valid(db) && Between(db)
      modifies this
      ensures Valid(db) && Between(db) && db.v.todo == {} && Same(old(db), db)
    {
      while db.v.todo != {}
        invariant Valid(db) && Between(db) && Same(old(db), db)
        decreases |db.v.todo|
      {
        var r :| r in db.v.todo;
        ghost var before := db;
        assert MineOk(db.v, None, r);
        db := db.CommitVertex(db.v.mine[r]);
        CommitVertexStep(before, r);
        SameViewThen(old(db), before, db);
      }
    }

    /** Everything that is to be done for one edge. */
    method CommitEdge(r: RecordId)
      requires Valid(db) && Between(db) && db.v.todo == {} && r in db.e.todo && r in db.e.mine
      modifies this
      ensures Valid(db) && Between(db) && db.v.todo == {} && db.e.todo == old(db).e.todo - {r} && Same(old(db), db)
    {
      ghost var before := db;
      db := db.Pick(db.e.mine[r]);
      PickStep(before, r);
      while db.prog != []
        invariant Valid(db) && Visiting(db) && db.e.todo == old(db).e.todo - {r} && Same(old(db), db)
        decreases |db.prog|
      {
        before := db;
        db := db.Execute();
        ExecuteStep(before);
        SameViewThen(old(db), before, db);
      }
      before := db;
      db := db.Finish(db.current.value);
      FinishStep(before);
      SameViewThen(old(db), before, db);
    }

    method CommitEdges()
      requires Valid(db) && Between(db) && db.v.todo == {}
      modifies this
      ensures Valid(db) && Between(db) && db.v.todo == {} && db.e.todo == {} && Same(old(db), db)
    {
      while db.e.todo != {}
        invariant Valid(db) && Between(db) && db.v.todo == {} && Same(old(db), db)
        decreases |db.e.todo|
      {
        var r :| r in db.e.todo;
        ghost var before := db;
        assert MineOk(db.e, None, r);
        CommitEdge(r);
        SameViewThen(old(db), before, db);
      }
    }

    /** A whole commit: a reader that begins afterwards finds exactly what the writer saw. */
    method Commit()
      requires Valid(db) && db.phase.Writing?
      modifies this
      ensures Valid(db) && db.phase.Idle? && db.maxVersion == old(db).maxVersion + 1
      ensures forall d, r :: Publishes(old(db), db, db.maxVersion, d, r)
    {
      ghost var before := db;
      db := StartCommit(db);
      StartCommitKeeps(before);
      CommitVertices();
      CommitEdges();
      SameViewThen(before, StartCommit(before), db);
      ghost var done := db;
      db := Sweep(db.Publish());
      PublishStep(before, done, db);
    }

    // Rolling back.

    /** Undoes the deletions of the vertices and edges that the writer touched, one at a time. */
    method UnmarkAll(p: Pool) returns (objects: map<Oid, Element>)
      requires forall r :: r in p.mine ==> p.mine[r] in p.objects && p.objects[p.mine[r]].rid == r
      requires forall o :: o in p.objects && p.objects[o].status.UncommittedDelete? && p.objects[o].rid in p.mine ==>
                 p.mine[p.objects[o].rid] == o
      ensures objects == map o | o in p.objects :: p.Unmark(o)
    {
      var todo := p.mine.Keys;
      objects := p.objects;
      while todo != {}
        invariant todo <= p.mine.Keys && objects.Keys == p.objects.Keys
        invariant forall o :: o in p.objects ==>
                  objects[o] == if p.objects[o].rid in todo then p.objects[o] else p.Unmark(o)
        decreases |todo|
      {
        var r :| r in todo;
        var o := p.mine[r];
        if objects[o].status.UncommittedDelete? {
          objects := objects[o := objects[o].(status := CommittedCreate)];
        }
        todo := todo - {r};
      }
    }

    /** Drops the uncommitted version that a reachable end of an edge lists. */
    method ClearListed(d: Direction, x: Oid, r: RecordId)
      modifies this
      ensures db == old(db).(adj := db.adj) && db.adj.Keys == old(db).adj.Keys
      ensures forall s :: db.Adj(s) ==
                if s == Spot(d, x, r) && db.v.Alive(x) then Rollback(old(db).Adj(s)) else old(db).Adj(s)
    {
      var s := Spot(d, x, r);
      if db.v.Alive(x) && s in db.adj {
        db := db.(adj := db.adj[s := Rollback(db.adj[s])]);
      }
    }

    /** One side of an edge: at the uncommitted end, then at the committed one. */
    method ClearSide(d: Direction, o: Oid, r: RecordId)
      modifies this
      ensures db == old(db).(adj := db.adj) && db.adj.Keys == old(db).adj.Keys
      ensures forall s :: db.Adj(s) ==
                if s.direction == d && s.edge == r && db.v.Alive(s.vertex) && db.IsEnd(Side(d, o), s.vertex)
                then Rollback(old(db).Adj(s)) else old(db).Adj(s)
    {
      var h := db.End(Side(d, o));
      if h.unstable.Some? && h.unstable.value.active {
        ClearListed(d, h.unstable.value.item, r);
      }
      var tip := Tip(h);
      if tip.Some? {
        ClearListed(d, tip.value, r);
      }
    }

    /** Everything that is to be undone for one edge. */
    method UndoEdge(r: RecordId, o: Oid)
      modifies this
      ensures db == old(db).(adj := db.adj, ends := db.ends)
      ensures db.adj.Keys == old(db).adj.Keys && db.ends.Keys == old(db).ends.Keys
      ensures forall s :: db.Adj(s) ==
                if s.edge == r && old(db).v.Alive(s.vertex) && old(db).IsEnd(Side(s.direction, o), s.vertex)
                then Rollback(old(db).Adj(s)) else old(db).Adj(s)
      ensures forall t :: db.End(t) == if t.edge == o then Rollback(old(db).End(t)) else old(db).End(t)
    {
      ghost var start := db;
      ClearSide(Out, o, r);
      ClearSide(In, o, r);
      forall s: Spot ensures db.Adj(s) ==
                if s.edge == r && start.v.Alive(s.vertex) && start.IsEnd(Side(s.direction, o), s.vertex)
                then Rollback(start.Adj(s)) else start.Adj(s)
      {
        assert s.direction == Out || s.direction == In;
      }
      db := db.(ends := map t | t in db.ends :: if t.edge == o then Rollback(db.ends[t]) else db.ends[t]);
      assert forall s :: db.Adj(s) == if s in db.adj then db.adj[s] else Empty();
    }

    /** The edges in any order. */
    method UndoEdges()
      requires TablesOk(db) && PhaseOk(db) && db.phase.Writing?
      modifies this
      ensures db == old(db).(adj := db.adj, ends := db.ends)
      ensures db.adj.Keys == old(db).adj.Keys && db.ends.Keys == old(db).ends.Keys
      ensures ListsUndone(old(db), {}, db) && EndsUndone(old(db), {}, db)
    {
      ghost var start := db;
      var todo := db.e.mine.Keys;
      while todo != {}
        invariant todo <= start.e.mine.Keys && db == start.(adj := db.adj, ends := db.ends)
        invariant db.adj.Keys == start.adj.Keys && db.ends.Keys == start.ends.Keys
        invariant ListsUndone(start, todo, db) && EndsUndone(start, todo, db)
        decreases |todo|
      {
        var r :| r in todo;
        ghost var before := db;
        UndoEdge(r, db.e.mine[r]);
        UndoEdgeStep(start, todo, r, before, db);
        todo := todo - {r};
      }
    }

    /** A whole rollback. */
    method RollbackAll()
      requires Valid(db) && db.phase.Writing?
      modifies this
      ensures db == old(db).Rollback() && Valid(db)
    {
      ghost var start := db;
      TouchedOnce(db.v, db.next, Limit(db));
      TouchedOnce(db.e, db.next, Limit(db));
      var vs := UnmarkAll(db.v);
      var es := UnmarkAll(db.e);
      UndoEdges();
      RollbackKeeps(start);
      UndoneIsRollback(start, db);
      db := db.(v := db.v.Closed().(objects := vs), e := db.e.Closed().(objects := es), phase := Idle);
    }
  }

  lemma UndoneIsRollback(start: Db, db: Db)
    requires db.adj.Keys == start.adj.Keys && db.ends.Keys == start.ends.Keys
    requires ListsUndone(start, {}, db) && EndsUndone(start, {}, db)
    ensures db.adj == start.Rollback().adj && db.ends == start.Rollback().ends
  {
    forall s | s in start.adj ensures db.adj[s] == start.Rollback().adj[s] {
      assert ListUndone(start, {}, db, s);
    }
    forall t | t in start.ends ensures db.ends[t] == start.Rollback().ends[t] {
      assert EndUndone(start, {}, db, t);
    }
  }

  /** The writer's own edge object. */
  ghost predicate Own(db: Db, o: Oid, r: RecordId) {
    db.e.At(o).rid == r && r in db.e.mine && db.e.mine[r] == o
  }

  /** The list entry is undone, unless its edge is still to come. */
  ghost predicate ListUndone(start: Db, todo: set<RecordId>, db: Db, s: Spot) {
    db.Adj(s) == if s.edge !in todo && start.Touched(s) then Rollback(start.Adj(s)) else start.Adj(s)
  }

  ghost predicate EndUndone(start: Db, todo: set<RecordId>, db: Db, t: Side) {
    var r := start.e.At(t.edge).rid;
    db.End(t) == if r !in todo && Own(start, t.edge, r) then Rollback(start.End(t)) else start.End(t)
  }

  ghost predicate ListsUndone(start: Db, todo: set<RecordId>, db: Db) {
    forall s :: ListUndone(start, todo, db, s)
  }

  ghost predicate EndsUndone(start: Db, todo: set<RecordId>, db: Db) {
    forall t :: EndUndone(start, todo, db, t)
  }

  lemma TouchedOnce(p: Pool, next: Oid, limit: nat)
    requires PoolOk(p, next, limit, None)
    ensures forall r :: r in p.mine ==> p.mine[r] in p.objects && p.objects[p.mine[r]].rid == r
    ensures forall o :: o in p.objects && p.objects[o].status.UncommittedDelete? && p.objects[o].rid in p.mine ==>
              p.mine[p.objects[o].rid] == o
  {
    forall r | r in p.mine ensures p.mine[r] in p.objects && p.objects[p.mine[r]].rid == r {
      assert MineOk(p, None, r);
    }
    forall o | o in p.objects && p.objects[o].status.UncommittedDelete? && p.objects[o].rid in p.mine
      ensures p.mine[p.objects[o].rid] == o
    {
      assert ObjectOk(p, next, o) && MineOk(p, None, p.objects[o].rid);
    }
  }

  /** The ends of edges still to come are as they were, so each edge finds the lists it has to undo. */
  lemma UndoEdgeStep(start: Db, todo: set<RecordId>, r: RecordId, before: Db, db: Db)
    requires TablesOk(start) && PhaseOk(start) && start.phase.Writing? && r in todo && r in start.e.mine
    requires before == start.(adj := before.adj, ends := before.ends)
    requires ListsUndone(start, todo, before) && EndsUndone(start, todo, before)
    requires forall s :: db.Adj(s) ==
               if s.edge == r && before.v.Alive(s.vertex) && before.IsEnd(Side(s.direction, start.e.mine[r]), s.vertex)
               then Rollback(before.Adj(s)) else before.Adj(s)
    requires forall t :: db.End(t) == if t.edge == start.e.mine[r] then Rollback(before.End(t)) else before.End(t)
    ensures ListsUndone(start, todo - {r}, db) && EndsUndone(start, todo - {r}, db)
  {
    var o := start.e.mine[r];
    assert MineOk(start.e, None, r);
    forall s ensures ListUndone(start, todo - {r}, db, s) {
      assert ListUndone(start, todo, before, s) && EndUndone(start, todo, before, Side(s.direction, o));
    }
    forall t ensures EndUndone(start, todo - {r}, db, t) {
      assert EndUndone(start, todo, before, t);
    }
  }

  /** Between two visits of a commit. */
  ghost predicate Between(db: Db) {
    db.phase.Committing? && db.current.None?
  }

  /** Within the visit of an edge. */
  ghost predicate Visiting(db: Db) {
    db.phase.Committing? && db.current.Some? && db.v.todo == {}
  }

  ghost predicate Same(db: Db, after: Db) {
    SameView(db, after) && after.maxVersion == db.maxVersion
  }

  lemma CommitVertexStep(db: Db, r: RecordId)
    requires Valid(db) && Between(db) && r in db.v.todo && r in db.v.mine
    ensures var after := db.CommitVertex(db.v.mine[r]);
            Valid(after) && Between(after) && Same(db, after) && after.v.todo == db.v.todo - {r}
  {
    assert MineOk(db.v, None, r);
    CommitVertexKeeps(db, r, db.v.mine[r]);
    CommitVertexView(db, r, db.v.mine[r]);
  }

  lemma PickStep(db: Db, r: RecordId)
    requires Valid(db) && Between(db) && db.v.todo == {} && r in db.e.todo && r in db.e.mine
    ensures var after := db.Pick(db.e.mine[r]);
            Valid(after) && Visiting(after) && Same(db, after) && after.e.todo == db.e.todo - {r}
  {
    assert MineOk(db.e, None, r);
    PickKeeps(db, r, db.e.mine[r]);
    PickView(db, r, db.e.mine[r], db.Pick(db.e.mine[r]));
  }

  lemma ExecuteStep(db: Db)
    requires Valid(db) && Visiting(db) && db.prog != []
    ensures var after := db.Execute();
            && Valid(after) && Visiting(after) && Same(db, after) && after.e.todo == db.e.todo
            && |after.prog| < |db.prog|
  {
    var after := db.Execute();
    match db.prog[0]
    case PruneList(d, x) =>
      PruneListKeeps(db, d, x, after);
      PruneListHistories(db, d, x, after);
    case Upgrade(s) =>
      assert InstrOk(db, s);
      UpgradeKeeps(db, s, after);
      UpgradeHistories(db, s, after, db.maxVersion + 1);
  }

  lemma FinishStep(db: Db)
    requires Valid(db) && Visiting(db) && db.prog == []
    ensures var after := db.Finish(db.current.value);
            && Valid(after) && Between(after) && Same(db, after) && after.e.todo == db.e.todo
            && after.v.todo == {}
  {
    var after := db.Finish(db.current.value);
    FinishKeeps(db, db.current.value, after);
    FinishView(db, db.current.value, after);
  }

  lemma PublishStep(before: Db, done: Db, after: Db)
    requires Valid(before) && Valid(done) && SameView(before, done) && Between(done)
    requires done.v.todo == {} && done.e.todo == {} && after == Sweep(done.Publish())
    ensures Valid(after) && after.phase.Idle? && after.maxVersion == done.maxVersion + 1
    ensures forall d, r :: Publishes(before, after, after.maxVersion, d, r)
  {
    var shown := done.Publish();
    PublishKeeps(done);
    PublishTables(done, shown);
    SweepKeeps(shown);
    SweepView(shown);
    SameViewThen(before, done, shown);
    SameViewThen(before, shown, after);
    forall d, r ensures Publishes(before, after, after.maxVersion, d, r) {
      QuietPublishes(before, after, d, r);
    }
  }

  /** Deleting the edges of one list adds and removes no key. */
  lemma InPassKeepsKeys(db: Db, r: RecordId, x: Oid, ins: seq<RecordId>)
    requires Valid(db) && db.phase.Writing? && db.v.Lookup(r) == Some(x) && Distinct(ins)
    ensures DeleteAllListed(db, In, x, ins).adj.Keys == db.adj.Keys
  {
    assert StoredOk(db.v, Limit(db), None, r) && MineOk(db.v, None, r);
    SecondList(db, x, ins, []);
    DeleteAllListedFewer(db, In, x, ins);
  }
}
