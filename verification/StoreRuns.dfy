/**
 Runs: any interleaving of one writer's operations, its commits step by step, its rollbacks, and readers that come and
 go. The store is consistent in every state that a run reaches.
 */
module StoreRuns {
  import opened Common
  import opened Histories
  import opened Store
  import opened StoreInvariant
  import opened StoreCascade
  import opened StoreMove
  import opened StoreCommit
  import opened StoreUpgrade
  import opened StorePublish
  import opened StoreReaders
  import opened StoreRollback

  datatype Event =
    | BeginWrite
    | AddVertex(rid: RecordId)
    | AddEdge(rid: RecordId, source: RecordId, target: RecordId)
    | RemoveEdge(rid: RecordId)
    | MoveEdge(direction: Direction, rid: RecordId, vertex: RecordId)
    | RemoveVertex(rid: RecordId, ins: seq<RecordId>, outs: seq<RecordId>)
    | Undo
    | StartCommitting
    | VisitVertex(rid: RecordId)
    | VisitEdge(rid: RecordId)
    | ExecuteNext
    | FinishEdge
    | MakeVisible
    | SweepUp
    | StartReading
    | StopReading(index: nat)

  /** The writer is one transaction; a commit visits its vertices first and then its edges, each in any order. */
  ghost predicate Enabled(db: Db, ev: Event) {
    match ev
    case BeginWrite => db.phase.Idle?
    case AddVertex(r) => db.phase.Writing? && Usable(db.v, r)
    case AddEdge(r, s, t) => db.phase.Writing? && CanLink(db, r, s, t)
    case RemoveEdge(_) => db.phase.Writing?
    case MoveEdge(_, _, x) => db.phase.Writing? && Usable(db.v, x)
    case RemoveVertex(r, ins, outs) =>
      db.phase.Writing? && (db.v.Lookup(r).Some? ==> ListsOf(db, db.v.Lookup(r).value, ins, outs))
    case Undo => db.phase.Writing?
    case StartCommitting => db.phase.Writing?
    case VisitVertex(r) => db.phase.Committing? && r in db.v.todo && r in db.v.mine
    case VisitEdge(r) =>
      db.phase.Committing? && db.current.None? && db.v.todo == {} && r in db.e.todo && r in db.e.mine
    case ExecuteNext => db.phase.Committing? && db.current.Some? && db.prog != []
    case FinishEdge => db.phase.Committing? && db.current.Some? && db.prog == []
    case MakeVisible => db.phase.Committing? && db.current.None? && db.v.todo == {} && db.e.todo == {}
    case SweepUp => db.phase.Published?
    case StartReading => true
    case StopReading(i) => i < |db.readers|
  }

  /** A failed operation leaves the store as it is. */
  function DbOf(db: Db, outcome: Outcome): Db {
    match outcome
    case Done(after) => after
    case Failed(_) => db
  }

  ghost function Apply(db: Db, ev: Event): Db
    requires Enabled(db, ev)
  {
    match ev
    case BeginWrite => db.(phase := Writing)
    case AddVertex(r) => CreateVertex(db, r)
    case AddEdge(r, s, t) => DbOf(db, CreateEdge(db, r, s, t))
    case RemoveEdge(r) => DeleteEdge(db, r)
    case MoveEdge(d, r, x) => DbOf(db, AlterEnd(db, d, r, x))
    case RemoveVertex(r, ins, outs) => DeleteVertex(db, r, ins, outs)
    case Undo => db.Rollback()
    case StartCommitting => StartCommit(db)
    case VisitVertex(r) => db.CommitVertex(db.v.mine[r])
    case VisitEdge(r) => db.Pick(db.e.mine[r])
    case ExecuteNext => db.Execute()
    case FinishEdge => db.Finish(db.current.value)
    case MakeVisible => db.Publish()
    case SweepUp => Sweep(db)
    case StartReading => BeginRead(db)
    case StopReading(i) => EndRead(db, i)
  }

  const NO_OBJECTS := Pool(map[], map[], map[], {}, [], [])

  /** The store when the database is opened. */
  const START := Db(NO_OBJECTS, NO_OBJECTS, map[], map[], 0, 0, Idle, 0, None, [], 1, [])

  lemma StartValid()
    ensures Valid(START)
  {
    forall s ensures SpotAgrees(START, s) && SpotSettled(START, s) && Promised(START, s) && Harmless(START, s) {
    }
  }

  lemma WriteKeeps(db: Db, ev: Event)
    requires Valid(db) && Enabled(db, ev) && db.phase.Writing? && !ev.StartReading? && !ev.StopReading?
    ensures Valid(Apply(db, ev))
  {
    match ev
    case AddVertex(r) => CreateVertexKeeps(db, r);
    case AddEdge(r, s, t) =>
      if db.e.Lookup(r).None? {
        CreateEdgeKeeps(db, r, s, t);
      }
    case RemoveEdge(r) => DeleteEdgeKeeps(db, r);
    case MoveEdge(d, r, x) => AlterEndKeeps(db, d, r, x);
    case RemoveVertex(r, ins, outs) => DeleteVertexKeeps(db, r, ins, outs);
    case Undo => RollbackKeeps(db);
    case StartCommitting => StartCommitKeeps(db);
  }

  lemma CommitKeeps(db: Db, ev: Event)
    requires Valid(db) && Enabled(db, ev) && db.phase.Committing? && !ev.StartReading? && !ev.StopReading?
    ensures Valid(Apply(db, ev))
  {
    match ev
    case VisitVertex(r) => CommitVertexKeeps(db, r, db.v.mine[r]);
    case VisitEdge(r) => PickKeeps(db, r, db.e.mine[r]);
    case ExecuteNext =>
      match db.prog[0] {
        case PruneList(d, x) => PruneListKeeps(db, d, x, db.Execute());
        case Upgrade(s) => UpgradeKeeps(db, s, db.Execute());
      }
    case FinishEdge => FinishKeeps(db, db.current.value, db.Finish(db.current.value));
    case MakeVisible => PublishKeeps(db);
  }

  /** Every step keeps the invariant. */
  lemma StepKeeps(db: Db, ev: Event)
    requires Valid(db) && Enabled(db, ev)
    ensures Valid(Apply(db, ev))
  {
    if ev.StartReading? {
      BeginReadKeeps(db);
    } else if ev.StopReading? {
      EndReadKeeps(db, ev.index);
    } else if db.phase.Writing? {
      WriteKeeps(db, ev);
    } else if db.phase.Committing? {
      CommitKeeps(db, ev);
    } else if db.phase.Published? {
      SweepKeeps(db);
    } else {
      FrameKeeps(db, Apply(db, ev));
    }
  }

  // Runs.

  /** Each event is enabled where it happens. */
  ghost predicate IsRun(db: Db, evs: seq<Event>)
    decreases |evs|
  {
    evs == [] || (Enabled(db, evs[0]) && IsRun(Apply(db, evs[0]), evs[1..]))
  }

  ghost function After(db: Db, evs: seq<Event>): Db
    requires IsRun(db, evs)
    decreases |evs|
  {
    if evs == [] then db else After(Apply(db, evs[0]), evs[1..])
  }

  lemma {:induction false} RunKeeps(db: Db, evs: seq<Event>)
    requires Valid(db) && IsRun(db, evs)
    ensures Valid(After(db, evs))
    decreases |evs|
  {
    if evs != [] {
      StepKeeps(db, evs[0]);
      RunKeeps(Apply(db, evs[0]), evs[1..]);
    }
  }

  /** What a vertex lists at a place, as far as the pointer there can be followed. */
  function Listed(db: Db, s: Spot): Option<Oid> {
    match Latest(db.Adj(s))
    case Some(o) => if db.e.Alive(o) then Some(o) else None
    case None => None
  }

  /**
   In every reachable state, whatever the writer is doing: an edge is listed by a vertex if and only if that vertex is
   its end on that side, both ends exist, and nothing else is listed.
   */
  lemma ListsMatchEnds(evs: seq<Event>, d: Direction, x: Oid, r: RecordId, o: Oid)
    requires IsRun(START, evs)
    ensures var db := After(START, evs);
            db.v.Lookup(db.v.At(x).rid) == Some(x) ==>
              (Listed(db, Spot(d, x, r)) == Some(o) <==>
               db.e.Lookup(r) == Some(o) && Latest(db.End(Side(d, o))) == Some(x))
  {
    StartValid();
    RunKeeps(START, evs);
    var db, s := After(START, evs), Spot(d, x, r);
    assert SpotAgrees(db, s) && EdgeAgrees(db, d, r);
    assert StoredOk(db.e, Limit(db), db.current, r) && MineOk(db.e, db.current, r);
  }

  /** In every reachable state an edge has two ends, and both are vertices of the graph. */
  lemma EndsExist(evs: seq<Event>, d: Direction, r: RecordId)
    requires IsRun(START, evs) && After(START, evs).e.Lookup(r).Some?
    ensures var db := After(START, evs);
            var end := Latest(db.End(Side(d, db.e.Lookup(r).value)));
            end.Some? && db.v.Lookup(db.v.At(end.value).rid) == Some(end.value)
  {
    StartValid();
    RunKeeps(START, evs);
    assert EdgeAgrees(After(START, evs), d, r);
  }
}
