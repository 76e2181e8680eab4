/**
 Every step of a commit keeps the invariant and the writer's view.
 */
module StoreCommit {
  import opened Common
  import opened Histories
  import opened Store
  import opened StoreInvariant

  /** The writer finds the same elements, the same ends and the same lists; perhaps fewer dead objects linger. */
  ghost predicate SameView(db: Db, after: Db) {
    && (forall k :: after.v.Lookup(k) == db.v.Lookup(k)) && (forall k :: after.e.Lookup(k) == db.e.Lookup(k))
    && (forall x :: after.v.At(x).rid == db.v.At(x).rid)
    && (forall s :: Latest(after.Adj(s)) == Latest(db.Adj(s)))
    && (forall t :: Latest(after.End(t)) == Latest(db.End(t)))
    && (forall o :: after.e.Alive(o) ==> db.e.Alive(o))
  }

  lemma SameViewAgrees(db: Db, after: Db)
    requires Agreement(db) && SameView(db, after)
    ensures Agreement(after)
  {
    forall d, r ensures EdgeAgrees(after, d, r) {
      assert EdgeAgrees(db, d, r);
    }
    forall s: Spot ensures SpotAgrees(after, s) {
      assert SpotAgrees(db, s);
    }
  }

  // Starting.

  /** The oldest version still read, or the newest committed one. */
  function BaseOf(db: Db): nat {
    if db.readers == [] then db.maxVersion else db.readers[0].version
  }

  function StartCommit(db: Db): Db {
    db.(phase := Committing, base := BaseOf(db))
  }

  lemma PoolLimit(p: Pool, next: Oid, limit: nat, higher: nat, current: Option<Oid>)
    requires PoolOk(p, next, limit, current) && limit <= higher
    ensures PoolOk(p, next, higher, current)
  {
    forall r ensures StoredOk(p, higher, current, r) {
      assert StoredOk(p, limit, current, r);
    }
    forall o ensures VersionOk(p, higher, o) {
      assert VersionOk(p, limit, o);
    }
  }

  lemma StartCommitHistories(db: Db)
    requires HistoriesOk(db) && db.phase.Writing?
    ensures HistoriesOk(StartCommit(db))
  {
    var after := StartCommit(db);
    forall s ensures SpotOk(after, s) {
      assert SpotOk(db, s);
    }
    forall s ensures SideOk(after, s) {
      assert SideOk(db, s);
    }
  }

  lemma StartCommitPending(db: Db)
    requires Pending(db) && Committed(db)
    ensures Pending(StartCommit(db)) && Committed(StartCommit(db))
  {
    var after := StartCommit(db);
    forall s ensures Owed(after, s) == Owed(db, s) {
    }
    forall s ensures Promised(after, s) && Harmless(after, s) && InstrOk(after, s) && TipStored(after, s) {
      assert Promised(db, s) && Harmless(db, s) && InstrOk(db, s) && TipStored(db, s);
    }
    forall s ensures SidePending(after, s) {
      assert SidePending(db, s);
    }
    forall s, v: nat ensures ListedExisted(after, s, v) {
      assert ListedExisted(db, s, v);
    }
    forall s, v: nat ensures EndExisted(after, s, v) {
      assert EndExisted(db, s, v);
    }
  }

  lemma StartCommitKeeps(db: Db)
    requires Valid(db) && db.phase.Writing?
    ensures Valid(StartCommit(db)) && SameView(db, StartCommit(db))
  {
    PoolLimit(db.v, db.next, db.maxVersion, db.maxVersion + 1, None);
    PoolLimit(db.e, db.next, db.maxVersion, db.maxVersion + 1, None);
    StartCommitHistories(db);
    StartCommitPending(db);
    SameViewAgrees(db, StartCommit(db));
  }

  // A vertex.

  ghost predicate Visitable(p: Pool, r: RecordId, o: Oid) {
    r in p.todo && r in p.mine && p.mine[r] == o
  }

  lemma VisitPool(p: Pool, next: Oid, latest: nat, c: nat, r: RecordId, o: Oid)
    requires PoolOk(p, next, c, None) && OwnsOk(p, latest) && c == latest + 1 && Visitable(p, r, o)
    ensures PoolOk(p.Visit(o, c), next, c, None) && OwnsOk(p.Visit(o, c), latest)
  {
    var q := p.Visit(o, c);
    assert MineOk(p, None, r) && StoredOk(p, c, None, r) && OwnOk(p, latest, r) && ObjectOk(p, next, o);
    forall k ensures ObjectOk(q, next, k) && VersionOk(q, c, k) {
      assert ObjectOk(p, next, k) && VersionOk(p, c, k);
    }
    forall k ensures StoredOk(q, c, None, k) {
      assert StoredOk(p, c, None, k);
    }
    forall k ensures MineOk(q, None, k) {
      assert MineOk(p, None, k);
    }
    forall k ensures OwnOk(q, latest, k) {
      assert OwnOk(p, latest, k) && MineOk(p, None, k);
    }
    forall k ensures RecentOk(q, latest, k) {
      assert RecentOk(p, latest, k);
    }
  }

  /** Storing and stamping changes no lookup by the writer. */
  lemma VisitLooks(p: Pool, next: Oid, c: nat, r: RecordId, o: Oid, k: RecordId)
    requires PoolOk(p, next, c, None) && Visitable(p, r, o)
    ensures p.Visit(o, c).Lookup(k) == p.Lookup(k)
  {
    assert MineOk(p, None, r) && StoredOk(p, c, None, r) && MineOk(p, None, k) && StoredOk(p, c, None, k);
  }

  /** A state stamped at `c` looks the same to everyone before `c`. */
  lemma StampedKeepsPast(e: Element, c: nat, v: nat)
    requires v < c
    ensures Existed(Stamped(e, c), v) == Existed(e, v) && Gone(Stamped(e, c), v) == Gone(e, v)
    ensures Stamped(e, c).rid == e.rid
  {
  }

  lemma VisitAlive(p: Pool, next: Oid, c: nat, r: RecordId, o: Oid, k: Oid)
    requires PoolOk(p, next, c, None) && Visitable(p, r, o)
    ensures p.Visit(o, c).Alive(k) == p.Alive(k)
    ensures p.Visit(o, c).At(k) == if k == o then Stamped(p.At(o), c) else p.At(k)
    ensures p.Visit(o, c).objects.Keys == p.objects.Keys
  {
    assert MineOk(p, None, r) && StoredOk(p, c, None, r);
    if k in p.objects {
      assert MineOk(p, None, p.objects[k].rid) && StoredOk(p, c, None, p.objects[k].rid);
    }
  }

  lemma VisitQueue(p: Pool, next: Oid, latest: nat, c: nat, r: RecordId, o: Oid)
    requires PoolOk(p, next, c, None) && OwnsOk(p, latest) && c == latest + 1 && Visitable(p, r, o)
    requires QueueOk(p, latest) && DroppedOk(p, latest)
    ensures QueueOk(p.Visit(o, c), latest) && DroppedOk(p.Visit(o, c), latest)
  {
    var q := p.Visit(o, c);
    assert MineOk(p, None, r) && StoredOk(p, c, None, r) && OwnOk(p, latest, r);
    forall t | t in q.queue ensures TombOk(q, latest, t) {
      assert TombOk(p, latest, t);
    }
    forall k | k in q.stored && k != r ensures k in p.stored && q.stored[k] == p.stored[k] && q.stored[k] != o {
      assert StoredOk(p, c, None, k);
    }
    assert q.stored[r] == o;
    forall k ensures k in q.dropped <==>
          k in q.stored && q.At(q.stored[k]).status.CommittedDelete? && q.At(q.stored[k]).version > latest
    {
      assert k in q.dropped <==> k in p.dropped || (k == r && p.At(o).status.UncommittedDelete?);
    }
  }

  lemma CommitVertexHistories(db: Db, r: RecordId, o: Oid)
    requires TablesOk(db) && PhaseOk(db) && HistoriesOk(db) && db.phase.Committing? && Visitable(db.v, r, o)
    ensures HistoriesOk(db.CommitVertex(o))
  {
    var after, c := db.CommitVertex(o), db.maxVersion + 1;
    forall s ensures SpotOk(after, s) {
      assert SpotOk(db, s);
      VisitAlive(db.v, db.next, c, r, o, s.vertex);
    }
    forall s ensures SideOk(after, s) {
      assert SideOk(db, s);
      VisitAlive(db.v, db.next, c, r, o, o);
    }
  }

  lemma CommitVertexView(db: Db, r: RecordId, o: Oid)
    requires TablesOk(db) && db.phase.Committing? && Visitable(db.v, r, o)
    ensures SameView(db, db.CommitVertex(o))
  {
    var after, c := db.CommitVertex(o), db.maxVersion + 1;
    forall k ensures after.v.Lookup(k) == db.v.Lookup(k) {
      VisitLooks(db.v, db.next, c, r, o, k);
    }
    forall x ensures after.v.At(x).rid == db.v.At(x).rid {
      VisitAlive(db.v, db.next, c, r, o, x);
    }
  }

  lemma CommitVertexPending(db: Db, r: RecordId, o: Oid)
    requires TablesOk(db) && db.phase.Committing? && Visitable(db.v, r, o) && Pending(db)
    ensures Pending(db.CommitVertex(o))
  {
    var after, c := db.CommitVertex(o), db.maxVersion + 1;
    forall s ensures Owed(after, s) == Owed(db, s) {
    }
    forall s ensures Promised(after, s) && Harmless(after, s) && InstrOk(after, s) {
      assert Promised(db, s) && Harmless(db, s) && InstrOk(db, s);
      VisitAlive(db.v, db.next, c, r, o, s.vertex);
    }
    forall s ensures SidePending(after, s) {
      assert SidePending(db, s);
    }
  }

  lemma CommitVertexCommitted(db: Db, r: RecordId, o: Oid)
    requires TablesOk(db) && db.phase.Committing? && Visitable(db.v, r, o) && Committed(db)
    ensures Committed(db.CommitVertex(o))
  {
    var after, c := db.CommitVertex(o), db.maxVersion + 1;
    forall s ensures TipStored(after, s) {
      assert TipStored(db, s);
      VisitAlive(db.v, db.next, c, r, o, s.vertex);
      StampedKeepsPast(db.v.At(o), c, db.maxVersion);
    }
    forall s, v: nat ensures ListedExisted(after, s, v) {
      assert ListedExisted(db, s, v);
      VisitAlive(db.v, db.next, c, r, o, s.vertex);
      if v < c {
        StampedKeepsPast(db.v.At(o), c, v);
      }
    }
    forall s, v: nat ensures EndExisted(after, s, v) {
      assert EndExisted(db, s, v);
      if v < c && ReadAt(db.End(s), v).Some? {
        VisitAlive(db.v, db.next, c, r, o, ReadAt(db.End(s), v).value);
        StampedKeepsPast(db.v.At(o), c, v);
      }
    }
  }

  lemma CommitVertexKeeps(db: Db, r: RecordId, o: Oid)
    requires Valid(db) && db.phase.Committing? && db.current.None? && Visitable(db.v, r, o)
    ensures Valid(db.CommitVertex(o))
  {
    var after, c := db.CommitVertex(o), db.maxVersion + 1;
    VisitPool(db.v, db.next, db.maxVersion, c, r, o);
    CommitVertexHistories(db, r, o);
    CommitVertexView(db, r, o);
    SameViewAgrees(db, after);
    CommitVertexPending(db, r, o);
    CommitVertexCommitted(db, r, o);
    VisitQueue(db.v, db.next, db.maxVersion, c, r, o);
    assert ReadersOk(after);
  }

  // An edge: picking it.

  ghost predicate Pickable(db: Db, r: RecordId, o: Oid) {
    && TablesOk(db) && OwnsOk(db.e, db.maxVersion) && PhaseOk(db) && HistoriesOk(db)
    && db.phase.Committing? && db.current.None? && db.v.todo == {} && Visitable(db.e, r, o)
  }

  /** `after` has begun with edge object `o`, whatever it is to do next. */
  ghost predicate Begun(db: Db, o: Oid, after: Db) {
    after == db.Begin(o).(prog := after.prog)
  }

  lemma PickTables(db: Db, r: RecordId, o: Oid, after: Db)
    requires Pickable(db, r, o) && Begun(db, o, after)
    ensures TablesOk(after) && OwnsOk(after.e, db.maxVersion) && PhaseOk(after)
  {
    var c := db.maxVersion + 1;
    assert MineOk(db.e, None, r) && StoredOk(db.e, c, None, r) && OwnOk(db.e, db.maxVersion, r);
    forall k ensures ObjectOk(after.e, db.next, k) && VersionOk(after.e, c, k) {
      assert ObjectOk(db.e, db.next, k) && VersionOk(db.e, c, k);
    }
    forall k ensures StoredOk(after.e, c, Some(o), k) {
      assert StoredOk(db.e, c, None, k);
    }
    forall k ensures MineOk(after.e, Some(o), k) {
      assert MineOk(db.e, None, k);
    }
    forall k ensures OwnOk(after.e, db.maxVersion, k) {
      assert OwnOk(db.e, db.maxVersion, k);
    }
    forall k ensures RecentOk(after.e, db.maxVersion, k) {
      assert RecentOk(db.e, db.maxVersion, k);
    }
  }

  lemma PickLooks(db: Db, r: RecordId, o: Oid, after: Db, k: RecordId, j: Oid)
    requires Pickable(db, r, o) && Begun(db, o, after)
    ensures after.e.Lookup(k) == db.e.Lookup(k) && after.e.Alive(j) == db.e.Alive(j)
    ensures after.e.objects == db.e.objects && after.v == db.v && after.adj == db.adj
    ensures db.e.At(o).rid == r
  {
    assert MineOk(db.e, None, r) && StoredOk(db.e, db.maxVersion + 1, None, r);
  }

  /** Pruning an edge's ends changes neither end as the writer or a commit sees it. */
  lemma PickEnds(db: Db, r: RecordId, o: Oid, after: Db, t: Side)
    requires Pickable(db, r, o) && Begun(db, o, after)
    ensures var h, g := db.End(t), after.End(t);
            && (g == h || g == Prune(h, db.base)) && Increasing(h.stable)
            && Latest(g) == Latest(h) && Tip(g) == Tip(h) && g.unstable == h.unstable
  {
    assert SideOk(db, t);
    PruneKeeps(db.End(t), db.base);
  }

  lemma PrunedDated(h: History<Oid>, base: nat, limit: nat, latest: nat)
    requires Dated(h, limit, latest)
    ensures Dated(Prune(h, base), limit, latest)
  {
    PruneKeeps(h, base);
  }

  lemma PrunedSide(h: History<Oid>, base: nat, v: Pool)
    requires VerticesOf(h, v)
    ensures VerticesOf(Prune(h, base), v) && (h.stable == [] ==> Prune(h, base).stable == [])
  {
    PruneSuffix(h, base);
  }

  lemma PrunedSpot(h: History<Oid>, base: nat, e: Pool, r: RecordId)
    requires EdgesOf(h, e, r)
    ensures EdgesOf(Prune(h, base), e, r) && (h.stable == [] ==> Prune(h, base).stable == [])
  {
    PruneSuffix(h, base);
  }

  lemma PickSide(db: Db, r: RecordId, o: Oid, after: Db, s: Side)
    requires Pickable(db, r, o) && Begun(db, o, after) && SideOk(db, s)
    ensures SideOk(after, s)
  {
    if s in db.ends {
      PrunedDated(db.ends[s], db.base, Limit(db), db.maxVersion);
      PrunedSide(db.ends[s], db.base, db.v);
    }
  }

  lemma PickHistories(db: Db, r: RecordId, o: Oid, after: Db)
    requires Pickable(db, r, o) && Begun(db, o, after)
    ensures HistoriesOk(after)
  {
    forall s ensures SpotOk(after, s) {
      assert SpotOk(db, s);
    }
    forall s ensures SideOk(after, s) {
      assert SideOk(db, s);
      PickSide(db, r, o, after, s);
    }
  }

  lemma PickView(db: Db, r: RecordId, o: Oid, after: Db)
    requires Pickable(db, r, o) && Begun(db, o, after)
    ensures SameView(db, after)
  {
    forall k ensures after.e.Lookup(k) == db.e.Lookup(k) {
      PickLooks(db, r, o, after, k, o);
    }
    forall k ensures after.e.Alive(k) ==> db.e.Alive(k) {
      PickLooks(db, r, o, after, r, k);
    }
    forall t ensures Latest(after.End(t)) == Latest(db.End(t)) {
      PickEnds(db, r, o, after, t);
    }
  }

  /** The commands for an edge are upgrades at exactly those of its ends that can be reached. */
  lemma VisitUpgrades(db: Db, d: Direction, o: Oid, s: Spot)
    requires SideOk(db, Side(d, o))
    ensures Upgrade(s) in db.Visit(d, o) <==>
              s.direction == d && s.edge == db.e.At(o).rid && db.v.Alive(s.vertex) && db.IsEnd(Side(d, o), s.vertex)
  {
  }

  lemma PickOwed(db: Db, r: RecordId, o: Oid, after: Db, s: Spot)
    requires Pickable(db, r, o) && after == db.Pick(o)
    ensures s.edge != r ==> Owed(after, s) == Owed(db, s)
    ensures s.edge == r ==> (Owed(after, s) <==> Owed(db, s) && db.v.Alive(s.vertex))
    ensures Upgrade(s) in after.prog ==> s.edge == r && db.v.Alive(s.vertex)
  {
    var begun := db.Begin(o);
    assert MineOk(db.e, None, r) && MineOk(db.e, None, s.edge);
    PickHistories(db, r, o, begun);
    assert SideOk(begun, Side(Out, o)) && SideOk(begun, Side(In, o));
    VisitUpgrades(begun, Out, o, s);
    VisitUpgrades(begun, In, o, s);
    PickEnds(db, r, o, begun, Side(s.direction, o));
    if s.edge in db.e.mine {
      PickEnds(db, r, o, begun, Side(s.direction, db.e.mine[s.edge]));
    }
  }

  lemma PickPending(db: Db, r: RecordId, o: Oid, after: Db)
    requires Pickable(db, r, o) && after == db.Pick(o) && Pending(db)
    ensures Pending(after)
  {
    assert MineOk(db.e, None, r);
    PickLooks(db, r, o, after, r, o);
    forall s ensures Promised(after, s) {
      assert Promised(db, s);
      PickOwed(db, r, o, after, s);
    }
    forall s ensures Harmless(after, s) {
      assert Harmless(db, s);
      PickOwed(db, r, o, after, s);
      if db.Adj(s).unstable.Some? {
        PickLooks(db, r, o, after, r, db.Adj(s).unstable.value.item);
      }
    }
    forall s ensures InstrOk(after, s) {
      PickOwed(db, r, o, after, s);
      if db.v.Alive(s.vertex) {
        var k := db.v.At(s.vertex).rid;
        assert StoredOk(db.v, Limit(db), None, k) && MineOk(db.v, None, k);
      }
    }
    forall s ensures SidePending(after, s) {
      assert SidePending(db, s);
      PickEnds(db, r, o, after, s);
      PickLooks(db, r, o, after, r, s.edge);
    }
  }

  /** A prune shows a reader nothing new. */
  lemma PrunedReads(h: History<Oid>, base: nat, v: nat)
    requires Increasing(h.stable)
    ensures ReadAt(Prune(h, base), v).Some? ==> ReadAt(Prune(h, base), v) == ReadAt(h, v)
  {
    PruneReads(h, base, v);
  }

  lemma PickCommitted(db: Db, r: RecordId, o: Oid, after: Db)
    requires Pickable(db, r, o) && Begun(db, o, after) && Committed(db)
    ensures Committed(after)
  {
    PickLooks(db, r, o, after, r, o);
    forall s ensures TipStored(after, s) {
      assert TipStored(db, s);
    }
    forall s, v: nat ensures ListedExisted(after, s, v) {
      assert ListedExisted(db, s, v);
    }
    forall s, v: nat ensures EndExisted(after, s, v) {
      assert EndExisted(db, s, v);
      PickEnds(db, r, o, after, s);
      PrunedReads(db.End(s), db.base, v);
    }
  }

  lemma PickQueue(db: Db, r: RecordId, o: Oid, after: Db)
    requires Pickable(db, r, o) && Begun(db, o, after)
    requires QueueOk(db.e, db.maxVersion) && DroppedOk(db.e, db.maxVersion)
    ensures QueueOk(after.e, db.maxVersion) && DroppedOk(after.e, db.maxVersion)
  {
    assert MineOk(db.e, None, r);
    forall t | t in after.e.queue ensures TombOk(after.e, db.maxVersion, t) {
      assert TombOk(db.e, db.maxVersion, t);
    }
  }

  lemma PickKeeps(db: Db, r: RecordId, o: Oid)
    requires Valid(db) && db.phase.Committing? && db.current.None? && db.v.todo == {} && Visitable(db.e, r, o)
    ensures Valid(db.Pick(o))
  {
    var after := db.Pick(o);
    PickTables(db, r, o, after);
    PickHistories(db, r, o, after);
    PickView(db, r, o, after);
    SameViewAgrees(db, after);
    PickPending(db, r, o, after);
    PickCommitted(db, r, o, after);
    PickQueue(db, r, o, after);
    assert ReadersOk(after);
  }
}
