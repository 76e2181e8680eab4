/**
 Where the code does not keep its promises, and exactly when it does.
 */
module StoreLimits {
  import opened Common
  import opened Histories
  import opened Store
  import opened StoreInvariant
  import opened StoreLink
  import opened StoreMove
  import opened StorePublish
  import opened StoreReaders
  import opened StoreRuns
  import opened StoreExamples

  // A self-loop on a vertex that is not in memory.

  /** Both lookups come before either insertion, so two vertex objects are made and only the first is kept. */
  lemma SelfLoopDangles(db: Db, r: RecordId, x: RecordId)
    requires TablesOk(db) && PhaseOk(db) && db.phase.Writing? && Unused(db.e, r) && Unused(db.v, x)
    ensures CreateEdge(db, r, x, x).Done? && !Agreement(CreateEdge(db, r, x, x).db)
  {
    var one := db.MakeVertex(x);
    var two := one.MakeVertex(x);
    var after := CreateEdge(db, r, x, x).db;
    assert StoredOk(db.v, Limit(db), None, x) && MineOk(db.v, None, x);
    assert ObjectOk(db.v, db.next, db.next) && ObjectOk(db.e, db.next, db.next);
    assert after == two.MakeEdge(r, db.next, one.next);
    assert after.e.Lookup(r) == Some(two.next);
    assert Latest(after.End(Side(In, two.next))) == Some(one.next);
    assert after.v.At(one.next).rid == x && after.v.Lookup(x) == Some(db.next);
    assert !EdgeAgrees(after, In, r);
  }

  // An id that is given out again.

  /** Where an id is not usable, a deleted object is still stored under it, and stays so when objects are made. */
  lemma NotUsable(p: Pool, next: Oid, limit: nat, r: RecordId)
    requires PoolOk(p, next, limit, None) && p.todo == p.mine.Keys && !Usable(p, r)
    ensures r in p.stored && p.stored[r] < next && Deleted(p.At(p.stored[r]))
  {
    assert StoredOk(p, limit, None, r) && MineOk(p, None, r);
    if r in p.stored {
      assert ObjectOk(p, next, p.stored[r]);
    }
  }

  /** The vertex objects that an edge from `source` to `target` will join. */
  lemma EndsFor(db: Db, source: RecordId, target: RecordId) returns (two: Db, x: Oid, y: Oid)
    ensures two.e == db.e && two.v.stored == db.v.stored && two.next >= db.next
    ensures forall o: Oid :: o < db.next ==> two.v.At(o) == db.v.At(o)
    ensures db.v.Lookup(source).None? ==> two.v.At(x).rid == source && x >= db.next
    ensures db.v.Lookup(target).None? ==> two.v.At(y).rid == target && y >= db.next
    ensures forall r :: db.e.Lookup(r).None? ==> CreateEdge(db, r, source, target) == Done(two.MakeEdge(r, x, y))
  {
    var s, t := db.v.Lookup(source), db.v.Lookup(target);
    var one := if s.None? then db.MakeVertex(source) else db;
    two := if t.None? then one.MakeVertex(target) else one;
    x, y := if s.None? then db.next else s.value, if t.None? then one.next else t.value;
  }

  lemma ReusedEdgeIsLost(db: Db, r: RecordId, source: RecordId, target: RecordId, after: Db)
    requires TablesOk(db) && PhaseOk(db) && db.phase.Writing? && db.e.Lookup(r).None? && !Usable(db.e, r)
    requires CreateEdge(db, r, source, target) == Done(after)
    ensures after.e.Lookup(r) == None
  {
    NotUsable(db.e, db.next, Limit(db), r);
    var two, x, y := EndsFor(db, source, target);
    assert after == two.MakeEdge(r, x, y);
  }

  lemma NewEdge(two: Db, r: RecordId, x: Oid, y: Oid, after: Db)
    requires Unused(two.e, r) && after == two.MakeEdge(r, x, y)
    ensures after.v == two.v && after.e.Lookup(r) == Some(two.next)
    ensures Latest(after.End(Side(Out, two.next))) == Some(x) && Latest(after.End(Side(In, two.next))) == Some(y)
  {
  }

  lemma ReusedVertexDangles(db: Db, r: RecordId, source: RecordId, target: RecordId, after: Db)
    requires TablesOk(db) && PhaseOk(db) && db.phase.Writing? && Unused(db.e, r)
    requires !Usable(db.v, source) || !Usable(db.v, target)
    requires CreateEdge(db, r, source, target) == Done(after)
    ensures !Agreement(after)
  {
    var two, x, y := EndsFor(db, source, target);
    NewEdge(two, r, x, y, after);
    if !Usable(db.v, source) {
      NotUsable(db.v, db.next, Limit(db), source);
      assert !EdgeAgrees(after, Out, r);
    } else {
      NotUsable(db.v, db.next, Limit(db), target);
      assert !EdgeAgrees(after, In, r);
    }
  }

  lemma LinkedIsFound(db: Db, r: RecordId, source: RecordId, target: RecordId, after: Db)
    requires Unused(db.e, r) && CreateEdge(db, r, source, target) == Done(after)
    ensures after.e.Lookup(r).Some?
  {
    var two, x, y := EndsFor(db, source, target);
    NewEdge(two, r, x, y, after);
  }

  /**
   Creating an edge makes it found, and keeps agreement, exactly if all three ids can be used and it is not a self-loop
   on a vertex that is not in memory.
   */
  lemma CreateEdgeAgreesIff(db: Db, r: RecordId, source: RecordId, target: RecordId)
    requires Valid(db) && db.phase.Writing? && db.e.Lookup(r).None?
    ensures CreateEdge(db, r, source, target).Done?
    ensures var after := CreateEdge(db, r, source, target).db;
            after.e.Lookup(r).Some? && Agreement(after) <==> CanLink(db, r, source, target)
  {
    var after := CreateEdge(db, r, source, target).db;
    if CanLink(db, r, source, target) {
      CreateEdgeKeeps(db, r, source, target);
      LinkedIsFound(db, r, source, target, after);
    } else if !Usable(db.e, r) {
      ReusedEdgeIsLost(db, r, source, target, after);
    } else if !Usable(db.v, source) || !Usable(db.v, target) {
      ReusedVertexDangles(db, r, source, target, after);
    } else {
      SelfLoopDangles(db, r, source);
    }
  }

  // Publishing in two steps, and ending a reader in several.

  /** A reader at `v` has to find `r`, which existed then, and after the step it does not. */
  ghost predicate Loses(p: Pool, q: Pool, r: RecordId, v: nat) {
    r in p.stored && Existed(p.At(p.stored[r]), v) && q.LookupAt(r, v) == None
  }

  /** What existed is found as long as it is stored. */
  lemma StoredIsFound(p: Pool, next: Oid, limit: nat, current: Option<Oid>, r: RecordId, v: nat)
    requires PoolOk(p, next, limit, current) && r in p.stored && Existed(p.At(p.stored[r]), v)
    ensures p.LookupAt(r, v) == Some(p.stored[r])
  {
    assert StoredOk(p, limit, current, r) && ObjectOk(p, next, p.stored[r]);
  }

  lemma ReclaimLoses(p: Pool, next: Oid, limit: nat, current: Option<Oid>, latest: nat, bound: nat, r: RecordId, v: nat)
    requires PoolOk(p, next, limit, current) && QueueOk(p, latest)
    ensures Loses(p, p.Reclaim(bound), r, v) <==>
              r in p.stored && Existed(p.At(p.stored[r]), v)
              && Gone(p.At(p.stored[r]), latest) && Gone(p.At(p.stored[r]), bound)
  {
    ReclaimIs(p, bound, r);
    if r in p.stored && Existed(p.At(p.stored[r]), v) {
      ReclaimRemoves(p, latest, bound, r);
      StoredIsFound(p, next, limit, current, r, v);
    }
  }

  /** The delete queues are filled before the new version is current. */
  function Queued(db: Db): Db {
    db.(v := db.v.Enqueue(db.maxVersion + 1), e := db.e.Enqueue(db.maxVersion + 1))
  }

  /** The commit deletes `r`, which existed in the version before. */
  ghost predicate Deletes(p: Pool, r: RecordId, latest: nat) {
    r in p.dropped && r in p.stored && p.At(p.stored[r]).born <= latest
  }

  /** Once the queues are filled, a sweep loses exactly what the commit deletes, if it goes up to the new version. */
  lemma QueuedLoses(p: Pool, next: Oid, latest: nat, c: nat, bound: nat, r: RecordId)
    requires PoolOk(p, next, c, None) && QueueOk(p, latest) && DroppedOk(p, latest) && bound <= c == latest + 1
    ensures Loses(p, p.Enqueue(c).Reclaim(bound), r, latest) <==> bound == c && Deletes(p, r, latest)
    ensures !Loses(p, p.Enqueue(c), r, latest)
  {
    var q := p.Enqueue(c).Closed();
    EnqueueQueue(p, next, latest, c);
    assert q.Reclaim(bound).stored == p.Enqueue(c).Reclaim(bound).stored;
    if r in p.stored && Existed(p.At(p.stored[r]), latest) {
      ReclaimRemoves(q, c, bound, r);
      ReclaimIs(q, bound, r);
      StoredIsFound(p, next, c, None, r, latest);
      assert StoredOk(p, c, None, r);
    }
  }

  /** The pools after a reader ends between the two steps. */
  lemma EndsQueued(db: Db, i: nat, bound: nat)
    requires i < |db.readers| && bound == db.readers[i].version + 1
    ensures var queued, after := Queued(db), EndRead(Queued(db), i);
            && after.v == (if IsLastOldest(db.readers, i) then queued.v.Reclaim(bound) else queued.v)
            && after.e == (if IsLastOldest(db.readers, i) then queued.e.Reclaim(bound) else queued.e)
            && after.maxVersion == db.maxVersion
  {
  }

  /**
   A reader ends after the queues are filled and before the new version is current. The next reader, which still gets
   the old version, then misses exactly what this commit deletes, exactly if the one that ended was the only reader and
   of the old version itself.
   */
  lemma ReaderEndsWhilePublishing(db: Db, i: nat, r: RecordId)
    requires Valid(db) && Enabled(db, MakeVisible) && i < |db.readers|
    ensures var v, after := db.maxVersion, BeginRead(EndRead(Queued(db), i));
            var last := |db.readers| == 1 && db.readers[0].version == v;
            && after.readers[|after.readers| - 1].version == v
            && (Loses(db.v, after.v, r, v) <==> last && Deletes(db.v, r, v))
            && (Loses(db.e, after.e, r, v) <==> last && Deletes(db.e, r, v))
  {
    var v, c, bound := db.maxVersion, db.maxVersion + 1, db.readers[i].version + 1;
    EndsQueued(db, i, bound);
    QueuedLoses(db.v, db.next, v, c, bound, r);
    QueuedLoses(db.e, db.next, v, c, bound, r);
  }

  /** `r` is still stored, existed at `v`, and the next version, which is current by now, deleted it. */
  ghost predicate DeletedNext(p: Pool, r: RecordId, v: nat, latest: nat) {
    r in p.stored && var e := p.At(p.stored[r]);
    e.status.CommittedDelete? && e.born <= v && e.version == v + 1 <= latest
  }

  /**
   A reader that has found itself the last of the oldest version reclaims only later, when other readers may have begun.
   Another reader then misses exactly what the next version deleted, exactly if it is of the same version.
   */
  lemma ReaderEndsOnStaleCheck(db: Db, i: nat, j: nat, r: RecordId)
    requires Valid(db) && i < j < |db.readers|
    ensures var v, after := db.readers[j].version, db.Reclaim(db.readers[i].version + 1);
            var same := v == db.readers[i].version;
            && (Loses(db.v, after.v, r, v) <==> same && DeletedNext(db.v, r, v, db.maxVersion))
            && (Loses(db.e, after.e, r, v) <==> same && DeletedNext(db.e, r, v, db.maxVersion))
  {
    var v, bound := db.readers[j].version, db.readers[i].version + 1;
    assert db.readers[i].version <= v;
    ReclaimLoses(db.v, db.next, Limit(db), None, db.maxVersion, bound, r, v);
    ReclaimLoses(db.e, db.next, Limit(db), db.current, db.maxVersion, bound, r, v);
  }

  // Runs in which that happens.

  lemma ReachedIsValid(db: Db)
    requires Leads(START, db)
    ensures Valid(db)
  {
    var evs :| IsRun(START, evs) && After(START, evs) == db;
    StartValid();
    RunKeeps(START, evs);
  }

  lemma DroppedDeletes()
    ensures Leads(START, DROPPED) && Enabled(DROPPED, MakeVisible) && DROPPED.readers == [Reader(1, 1)]
    ensures Deletes(DROPPED.v, A, 1) && Deletes(DROPPED.e, E, 1) && DROPPED.maxVersion == 1
  {
    Drops();
  }

  /** A reader ends between the two halves of publishing; the next one misses a vertex and an edge of its version. */
  lemma PublishingLoses()
    ensures Leads(START, DROPPED)
    ensures var after := BeginRead(EndRead(Queued(DROPPED), 0));
            Loses(DROPPED.v, after.v, A, 1) && Loses(DROPPED.e, after.e, E, 1)
  {
    DroppedDeletes();
    ReachedIsValid(DROPPED);
    ReaderEndsWhilePublishing(DROPPED, 0, A);
    ReaderEndsWhilePublishing(DROPPED, 0, E);
  }

  /** A second reader begins and the commit is published. */
  lemma PublishesDropped(db: Db)
    requires db == BeginRead(DROPPED).Publish()
    ensures Leads(START, db) && db.readers == [Reader(1, 1), Reader(2, 1)] && db.maxVersion == 2
    ensures DeletedNext(db.v, A, 1, 2) && DeletedNext(db.e, E, 1, 2)
  {
    Drops();
    var one := BeginRead(DROPPED);
    Step(START, DROPPED, StartReading, one);
    Step(START, one, MakeVisible, db);
  }

  /** A reader looks before the second one begins and reclaims after the commit is published. */
  lemma StaleCheckLoses(db: Db)
    requires db == BeginRead(DROPPED).Publish()
    ensures Leads(START, DROPPED) && IsLastOldest(DROPPED.readers, 0) && DROPPED.readers[0].version == 1
    ensures Leads(START, db) && db.readers[1].version == 1
    ensures Loses(db.v, db.Reclaim(2).v, A, 1) && Loses(db.e, db.Reclaim(2).e, E, 1)
  {
    Drops();
    PublishesDropped(db);
    ReachedIsValid(db);
    ReaderEndsOnStaleCheck(db, 0, 1, A);
    ReaderEndsOnStaleCheck(db, 0, 1, E);
  }
}
