/**
 A writer that has not begun to commit changes nothing that is committed, and rolling back brings back everything it
 saw when it began.
 */
module StoreUndo {
  import opened Common
  import opened Histories
  import opened Store
  import opened StoreInvariant
  import opened StoreDetach
  import opened StoreCascade
  import opened StoreLink
  import opened StoreMove
  import opened StorePublish
  import opened StoreReaders
  import opened StoreRollback
  import opened StoreRuns

  /** The objects of `p` that are committed are so in `q`, and existed when they did. */
  ghost predicate SamePast(p: Pool, q: Pool, x: Oid) {
    && Standing(q, x) == Standing(p, x)
    && (forall v :: Existed(q.At(x), v) == Existed(p.At(x), v))
    && (x in p.objects ==> x in q.objects && q.At(x).rid == p.At(x).rid)
  }

  /** All that is committed is the same. */
  ghost predicate Steady(db: Db, after: Db) {
    && (forall x :: SamePast(db.v, after.v, x)) && (forall o :: SamePast(db.e, after.e, o))
    && (forall s :: after.Adj(s).stable == db.Adj(s).stable) && (forall t :: after.End(t).stable == db.End(t).stable)
  }

  lemma SteadyThen(a: Db, b: Db, c: Db)
    requires Steady(a, b) && Steady(b, c)
    ensures Steady(a, c)
  {
    forall x ensures SamePast(a.v, c.v, x) {
      assert SamePast(a.v, b.v, x) && SamePast(b.v, c.v, x);
    }
    forall o ensures SamePast(a.e, c.e, o) {
      assert SamePast(a.e, b.e, o) && SamePast(b.e, c.e, o);
    }
  }

  lemma SteadySame(db: Db, after: Db)
    requires after.v.objects == db.v.objects && after.v.stored == db.v.stored && after.adj == db.adj
    requires after.e.objects == db.e.objects && after.e.stored == db.e.stored && after.ends == db.ends
    ensures Steady(db, after)
  {
    forall x ensures SamePast(db.v, after.v, x) && SamePast(db.e, after.e, x) {
    }
  }

  // Steps.

  lemma MakeSamePast(p: Pool, next: Oid, limit: nat, r: RecordId, x: Oid)
    requires PoolOk(p, next, limit, None) && Unused(p, r)
    ensures SamePast(p, p.Make(r, next), x)
  {
    MakeAlive(p, next, limit, r, x);
  }

  lemma RetireSamePast(p: Pool, next: Oid, limit: nat, o: Oid, x: Oid)
    requires PoolOk(p, next, limit, None) && p.Lookup(p.At(o).rid) == Some(o)
    ensures SamePast(p, p.Retire(o), x)
  {
    RetireStanding(p, next, limit, o, x);
    RetireKeepsPast(p, next, limit, o, x);
    RetireAlive(p, next, limit, o, x);
  }

  lemma MakeVertexSteady(db: Db, r: RecordId)
    requires TablesOk(db) && PhaseOk(db) && db.phase.Writing? && Unused(db.v, r)
    ensures Steady(db, db.MakeVertex(r))
  {
    forall x ensures SamePast(db.v, db.MakeVertex(r).v, x) {
      MakeSamePast(db.v, db.next, Limit(db), r, x);
    }
    forall o ensures SamePast(db.e, db.MakeVertex(r).e, o) {
    }
  }

  lemma MakeEdgeSteady(db: Db, r: RecordId, x: Oid, y: Oid)
    requires TablesOk(db) && PhaseOk(db) && HistoriesOk(db) && db.phase.Writing? && Unused(db.e, r)
    ensures Steady(db, db.MakeEdge(r, x, y))
  {
    var after := db.MakeEdge(r, x, y);
    forall o ensures SamePast(db.e, after.e, o) {
      MakeSamePast(db.e, db.next, Limit(db), r, o);
    }
    forall k ensures SamePast(db.v, after.v, k) {
    }
    forall s, t ensures after.Adj(s).stable == db.Adj(s).stable && after.End(t).stable == db.End(t).stable {
      MakeEdgeIs(db, r, x, y, s, t);
    }
  }

  lemma DetachSteady(db: Db, o: Oid, kept: Option<Spot>, after: Db)
    requires TablesOk(db) && PhaseOk(db) && Live(db, o) && Detached(db, o, kept, after)
    ensures Steady(db, after)
  {
    forall k ensures SamePast(db.e, after.e, k) {
      RetireSamePast(db.e, db.next, Limit(db), o, k);
    }
    forall k ensures SamePast(db.v, after.v, k) {
    }
    forall s ensures after.Adj(s).stable == db.Adj(s).stable {
      DeleteLatestIs(db.Adj(s));
    }
  }

  lemma {:induction false} DeleteAllListedSteady(db: Db, d: Direction, x: Oid, keys: seq<RecordId>)
    requires Cascading(db, d, x, keys)
    ensures Steady(db, DeleteAllListed(db, d, x, keys))
    decreases |keys|
  {
    if keys == [] {
      SteadySame(db, db);
    } else {
      var one := DeleteListed(db, d, x, keys[0]);
      DeleteListedSteady(db, d, x, keys);
      DeleteListedSteps(db, d, x, keys);
      DeleteAllListedSteady(one, d, x, keys[1..]);
      SteadyThen(db, one, DeleteAllListed(db, d, x, keys));
    }
  }

  lemma DeleteListedSteady(db: Db, d: Direction, x: Oid, keys: seq<RecordId>)
    requires Cascading(db, d, x, keys) && keys != []
    ensures Steady(db, DeleteListed(db, d, x, keys[0]))
  {
    var r := keys[0];
    assert SpotAgrees(db, Spot(d, x, r));
    if NotAt(db, d, x, r) {
      NothingListed(db, d, x, r);
      SteadySame(db, db);
    } else {
      ListedIsDetached(db, d, x, r);
      DetachSteady(db, db.e.Lookup(r).value, Some(Spot(d, x, r)), DeleteListed(db, d, x, r));
    }
  }

  lemma RetireVertexSteady(db: Db, x: Oid)
    requires TablesOk(db) && PhaseOk(db) && LiveVertex(db, x)
    ensures Steady(db, db.RetireVertex(x))
  {
    forall k ensures SamePast(db.v, db.RetireVertex(x).v, k) {
      RetireSamePast(db.v, db.next, Limit(db), x, k);
    }
    forall k ensures SamePast(db.e, db.RetireVertex(x).e, k) {
    }
  }

  lemma DeleteVertexSteady(db: Db, r: RecordId, ins: seq<RecordId>, outs: seq<RecordId>)
    requires Valid(db) && db.phase.Writing?
    requires db.v.Lookup(r).Some? ==> ListsOf(db, db.v.Lookup(r).value, ins, outs)
    ensures Steady(db, DeleteVertex(db, r, ins, outs))
  {
    if db.v.Lookup(r).None? {
      SteadySame(db, db);
      return;
    }
    var x := db.v.Lookup(r).value;
    assert StoredOk(db.v, Limit(db), None, r) && MineOk(db.v, None, r);
    SecondList(db, x, ins, outs);
    var one := DeleteAllListed(db, In, x, ins);
    var two := DeleteAllListed(one, Out, x, outs);
    DeleteAllListedSteady(db, In, x, ins);
    DeleteAllListedSteady(one, Out, x, outs);
    DeleteAllListedFewer(one, Out, x, outs);
    DeleteAllListedValid(one, Out, x, outs);
    RetireVertexSteady(two, x);
    SteadyThen(db, one, two);
    SteadyThen(db, two, two.RetireVertex(x));
  }

  lemma MoveSteady(db: Db, d: Direction, o: Oid, was: Oid, now: Oid)
    requires Movable(db, d, o, was, now)
    ensures Steady(db, db.MoveEnd(d, o, was, now))
  {
    var after := db.MoveEnd(d, o, was, now);
    forall s, t ensures after.Adj(s).stable == db.Adj(s).stable && after.End(t).stable == db.End(t).stable {
      MoveKeepsStable(db, d, o, was, now, s, t);
    }
    forall x ensures SamePast(db.v, after.v, x) && SamePast(db.e, after.e, x) {
    }
  }

  lemma CreateEdgeSteady(db: Db, r: RecordId, source: RecordId, target: RecordId)
    requires Valid(db) && db.phase.Writing? && CanLink(db, r, source, target) && db.e.Lookup(r).None?
    ensures Steady(db, DbOf(db, CreateEdge(db, r, source, target)))
  {
    var s, t := db.v.Lookup(source), db.v.Lookup(target);
    var one := if s.None? then db.MakeVertex(source) else db;
    var two := if t.None? then one.MakeVertex(target) else one;
    VertexFor(db, source, target);
    if s.None? {
      MakeVertexKeeps(db, source);
      MakeVertexSteady(db, source);
    } else {
      SteadySame(db, one);
    }
    if t.None? {
      MakeVertexKeeps(one, target);
      MakeVertexSteady(one, target);
    } else {
      SteadySame(one, two);
    }
    SteadyThen(db, one, two);
    var after := DbOf(db, CreateEdge(db, r, source, target));
    var x, y := if s.None? then db.next else s.value, if t.None? then one.next else t.value;
    MakeEdgeSteady(two, r, x, y);
    SteadyThen(db, two, after);
  }

  lemma MoveToNewSteady(db: Db, d: Direction, o: Oid, was: Oid, vertex: RecordId)
    requires Valid(db) && Live(db, o) && Latest(db.End(Side(d, o))) == Some(was) && Unused(db.v, vertex)
    ensures Steady(db, db.MakeVertex(vertex).MoveEnd(d, o, was, db.next))
  {
    var one := db.MakeVertex(vertex);
    MakeVertexKeeps(db, vertex);
    MakeVertexSteady(db, vertex);
    assert EdgeAgrees(one, d, db.e.At(o).rid);
    VertexFor(db, vertex, vertex);
    MoveSteady(one, d, o, was, db.next);
    SteadyThen(db, one, one.MoveEnd(d, o, was, db.next));
  }

  lemma AlterEndSteady(db: Db, d: Direction, r: RecordId, vertex: RecordId)
    requires Valid(db) && db.phase.Writing? && Usable(db.v, vertex)
    ensures Steady(db, DbOf(db, AlterEnd(db, d, r, vertex)))
  {
    SteadySame(db, db);
    if db.e.Lookup(r).Some? && Latest(db.End(Side(d, db.e.Lookup(r).value))).Some? {
      var o := db.e.Lookup(r).value;
      assert StoredOk(db.e, Limit(db), None, r) && MineOk(db.e, None, r) && EdgeAgrees(db, d, r);
      var was := Latest(db.End(Side(d, o))).value;
      if db.v.Lookup(vertex).Some? {
        VertexFor(db, vertex, vertex);
        MoveSteady(db, d, o, was, db.v.Lookup(vertex).value);
      } else {
        MoveToNewSteady(db, d, o, was, vertex);
      }
    }
  }

  lemma RollbackSteady(db: Db)
    requires TablesOk(db) && PhaseOk(db) && HistoriesOk(db) && db.phase.Writing?
    ensures Steady(db, db.Rollback())
  {
    var after := db.Rollback();
    forall x ensures SamePast(db.v, after.v, x) && SamePast(db.e, after.e, x) {
      UndoIs(db.v, x);
      UndoIs(db.e, x);
    }
    forall s, t ensures after.Adj(s).stable == db.Adj(s).stable && after.End(t).stable == db.End(t).stable {
      RollbackIs(db, after, s, t);
    }
  }

  lemma ReclaimSteady(db: Db, bound: nat)
    requires Valid(db)
    ensures Steady(db, db.Reclaim(bound))
  {
    ReclaimedPool(db.v, db.next, Limit(db), db.maxVersion, None, bound);
    ReclaimedPool(db.e, db.next, Limit(db), db.maxVersion, db.current, bound);
    forall x ensures SamePast(db.v, db.Reclaim(bound).v, x) && SamePast(db.e, db.Reclaim(bound).e, x) {
    }
  }

  lemma SweptBySteady(db: Db, i: nat)
    requires Valid(db) && i < |db.readers|
    ensures Steady(db, SweptBy(db, i))
  {
    if IsLastOldest(db.readers, i) {
      var bound := db.readers[i].version + 1;
      ReclaimSteady(db, bound);
    } else {
      SteadySame(db, db);
    }
  }

  lemma EndReadSteady(db: Db, i: nat)
    requires Valid(db) && i < |db.readers|
    ensures Steady(db, EndRead(db, i))
  {
    SweptBySteady(db, i);
    ReadersSteady(db, SweptBy(db, i), EndRead(db, i));
  }

  lemma ReadersSteady(db: Db, swept: Db, after: Db)
    requires Steady(db, swept) && after == swept.(readers := after.readers)
    ensures Steady(db, after)
  {
    SteadySame(swept, after);
    SteadyThen(db, swept, after);
  }

  lemma DeleteEdgeSteady(db: Db, r: RecordId)
    requires Valid(db) && db.phase.Writing?
    ensures Steady(db, DeleteEdge(db, r))
  {
    if db.e.Lookup(r).Some? {
      DeleteEdgeDetaches(db, r, db.e.Lookup(r).value);
      DetachSteady(db, db.e.Lookup(r).value, None, DeleteEdge(db, r));
    } else {
      SteadySame(db, db);
    }
  }

  /** Until a commit begins, no step changes what is committed. */
  lemma StepSteady(db: Db, ev: Event)
    requires Valid(db) && Enabled(db, ev) && (db.phase.Idle? || db.phase.Writing?)
    ensures Steady(db, Apply(db, ev))
  {
    match ev
    case BeginWrite => SteadySame(db, Apply(db, ev));
    case AddVertex(r) =>
      if db.v.Lookup(r).None? {
        MakeVertexSteady(db, r);
      } else {
        SteadySame(db, db);
      }
    case AddEdge(r, s, t) =>
      if db.e.Lookup(r).None? {
        CreateEdgeSteady(db, r, s, t);
      } else {
        SteadySame(db, db);
      }
    case RemoveEdge(r) => DeleteEdgeSteady(db, r);
    case MoveEdge(d, r, x) => AlterEndSteady(db, d, r, x);
    case RemoveVertex(r, ins, outs) => DeleteVertexSteady(db, r, ins, outs);
    case Undo => RollbackSteady(db);
    case StartCommitting => SteadySame(db, Apply(db, ev));
    case StartReading => SteadySame(db, Apply(db, ev));
    case StopReading(i) => EndReadSteady(db, i);
  }

  // Runs without a commit.

  ghost predicate NoCommit(evs: seq<Event>) {
    forall i :: 0 <= i < |evs| ==> !evs[i].StartCommitting?
  }

  lemma {:induction false} DeleteAllListedPhase(db: Db, d: Direction, x: Oid, keys: seq<RecordId>)
    ensures DeleteAllListed(db, d, x, keys).phase == db.phase
    decreases |keys|
  {
    if keys != [] {
      DeleteAllListedPhase(DeleteListed(db, d, x, keys[0]), d, x, keys[1..]);
    }
  }

  lemma StepPhase(db: Db, ev: Event)
    requires Enabled(db, ev) && (db.phase.Idle? || db.phase.Writing?)
    ensures ev.BeginWrite? ==> Apply(db, ev).phase.Writing?
    ensures ev.Undo? ==> Apply(db, ev).phase.Idle?
    ensures ev.StartCommitting? ==> Apply(db, ev).phase.Committing?
    ensures !ev.BeginWrite? && !ev.Undo? && !ev.StartCommitting? ==> Apply(db, ev).phase == db.phase
  {
    if ev.RemoveVertex? && db.v.Lookup(ev.rid).Some? {
      var x := db.v.Lookup(ev.rid).value;
      DeleteAllListedPhase(db, In, x, ev.ins);
      DeleteAllListedPhase(DeleteAllListed(db, In, x, ev.ins), Out, x, ev.outs);
    }
  }

  lemma {:induction false} RunSteady(db: Db, evs: seq<Event>)
    requires Valid(db) && IsRun(db, evs) && (db.phase.Idle? || db.phase.Writing?) && NoCommit(evs)
    ensures Steady(db, After(db, evs)) && Valid(After(db, evs))
    decreases |evs|
  {
    if evs == [] {
      SteadySame(db, db);
    } else {
      var one := Apply(db, evs[0]);
      StepKeeps(db, evs[0]);
      StepSteady(db, evs[0]);
      StepPhase(db, evs[0]);
      RunSteady(one, evs[1..]);
      SteadyThen(db, one, After(db, evs));
    }
  }

  // What a writer sees when nothing is uncommitted.

  /** A writer that begins now finds what is committed. */
  lemma IdleLookup(p: Pool, next: Oid, limit: nat, r: RecordId, x: Oid)
    requires PoolOk(p, next, limit, None) && p.todo == {}
    ensures p.Lookup(r) == Some(x) <==> Standing(p, x) && p.At(x).rid == r
  {
    assert StoredOk(p, limit, None, r) && MineOk(p, None, r);
    QuietLive(p, next, limit, x);
  }

  lemma IdleListed(db: Db, s: Spot)
    requires Valid(db) && db.phase.Idle? && Standing(db.v, s.vertex)
    ensures Listed(db, s) == Tip(db.Adj(s))
  {
    QuietLive(db.v, db.next, Limit(db), s.vertex);
    QuietSpot(db, s);
    assert SpotSettled(db, s);
    if Tip(db.Adj(s)).Some? {
      QuietLive(db.e, db.next, Limit(db), Tip(db.Adj(s)).value);
    }
  }

  /** Two stores in which a writer finds the same vertices and edges, with the same ends and the same lists. */
  ghost predicate SeesSame(db: Db, after: Db, d: Direction, r: RecordId) {
    && after.v.Lookup(r) == db.v.Lookup(r) && after.e.Lookup(r) == db.e.Lookup(r)
    && (db.e.Lookup(r).Some? ==>
          var t := Side(d, db.e.Lookup(r).value);
          Latest(after.End(t)) == Latest(db.End(t)))
    && (db.v.Lookup(r).Some? ==>
          forall k :: Listed(after, Spot(d, db.v.Lookup(r).value, k)) == Listed(db, Spot(d, db.v.Lookup(r).value, k)))
  }

  lemma SameLookup(p: Pool, q: Pool, next: Oid, next': Oid, limit: nat, limit': nat, r: RecordId)
    requires PoolOk(p, next, limit, None) && p.todo == {} && PoolOk(q, next', limit', None) && q.todo == {}
    requires forall x :: SamePast(p, q, x)
    ensures q.Lookup(r) == p.Lookup(r)
  {
    forall x: Oid ensures q.Lookup(r) == Some(x) <==> p.Lookup(r) == Some(x) {
      assert SamePast(p, q, x);
      IdleLookup(p, next, limit, r, x);
      IdleLookup(q, next', limit', r, x);
    }
    assert p.Lookup(r).Some? ==> q.Lookup(r) == Some(p.Lookup(r).value);
    assert q.Lookup(r).Some? ==> p.Lookup(r) == Some(q.Lookup(r).value);
  }

  lemma SteadyEnds(db: Db, after: Db, d: Direction, r: RecordId, o: Oid)
    requires Valid(db) && Valid(after) && db.phase.Idle? && after.phase.Idle? && Steady(db, after)
    requires db.e.Lookup(r) == Some(o) && after.e.Lookup(r) == Some(o)
    ensures Latest(after.End(Side(d, o))) == Latest(db.End(Side(d, o)))
  {
    assert StoredOk(db.e, Limit(db), None, r) && StoredOk(after.e, Limit(after), None, r);
    QuietEnd(db, d, o);
    QuietEnd(after, d, o);
    assert after.End(Side(d, o)).stable == db.End(Side(d, o)).stable;
  }

  lemma SteadyLists(db: Db, after: Db, s: Spot)
    requires Valid(db) && Valid(after) && db.phase.Idle? && after.phase.Idle?
    requires after.Adj(s).stable == db.Adj(s).stable && Standing(db.v, s.vertex) && Standing(after.v, s.vertex)
    ensures Listed(after, s) == Listed(db, s)
  {
    IdleListed(db, s);
    IdleListed(after, s);
  }

  /** What is committed decides what a new writer sees. */
  lemma SteadySees(db: Db, after: Db, d: Direction, r: RecordId)
    requires Valid(db) && Valid(after) && db.phase.Idle? && after.phase.Idle? && Steady(db, after)
    ensures SeesSame(db, after, d, r)
  {
    SameLookup(db.v, after.v, db.next, after.next, Limit(db), Limit(after), r);
    SameLookup(db.e, after.e, db.next, after.next, Limit(db), Limit(after), r);
    if db.e.Lookup(r).Some? {
      SteadyEnds(db, after, d, r, db.e.Lookup(r).value);
    }
    if db.v.Lookup(r).Some? {
      var x := db.v.Lookup(r).value;
      IdleLookup(db.v, db.next, Limit(db), r, x);
      IdleLookup(after.v, after.next, Limit(after), r, x);
      forall k ensures Listed(after, Spot(d, x, k)) == Listed(db, Spot(d, x, k)) {
        assert after.Adj(Spot(d, x, k)).stable == db.Adj(Spot(d, x, k)).stable;
        SteadyLists(db, after, Spot(d, x, k));
      }
    }
  }

  /**
   However many transactions begin, work and roll back, with readers coming and going, the next writer sees what the
   first one saw, and every committed version is untouched.
   */
  lemma RollbackUndoes(db: Db, evs: seq<Event>, d: Direction, r: RecordId)
    requires Valid(db) && db.phase.Idle? && IsRun(db, evs) && NoCommit(evs) && After(db, evs).phase.Idle?
    ensures SeesSame(db, After(db, evs), d, r)
    ensures forall s, v :: ReadAt(After(db, evs).Adj(s), v) == ReadAt(db.Adj(s), v)
    ensures forall t, v :: ReadAt(After(db, evs).End(t), v) == ReadAt(db.End(t), v)
  {
    RunSteady(db, evs);
    SteadySees(db, After(db, evs), d, r);
  }
}
