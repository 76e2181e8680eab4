/**
 The store is a graph with versions. A simple model keeps one plain graph for every committed version and one that the
 writer works on; every run of the store follows it step by step, for the writer and for every reader.
 */
module StoreModel {
  import opened Common
  import opened Histories
  import opened Store
  import opened StoreInvariant
  import opened StoreCommit
  import opened StoreReaders
  import opened StoreRuns
  import opened StoreUndo
  import opened Snapshots
  import opened Publication
  import opened StoreGraph
  import opened StoreEffects

  // The simple model.

  datatype Link = Link(source: RecordId, target: RecordId)
  {
    function End(d: Direction): RecordId {
      if d.Out? then source else target
    }

    function Moved(d: Direction, x: RecordId): Link {
      if d.Out? then Link(x, target) else Link(source, x)
    }
  }

  datatype Plain = Plain(vertices: set<RecordId>, edges: map<RecordId, Link>)
  {
    function End(d: Direction, k: RecordId): Option<RecordId> {
      if k in edges then Some(edges[k].End(d)) else None
    }

    function WithVertex(r: RecordId): Plain {
      Plain(vertices + {r}, edges)
    }

    function WithEdge(r: RecordId, s: RecordId, t: RecordId): Plain {
      if r in edges then this else Plain(vertices + {s, t}, edges[r := Link(s, t)])
    }

    function WithoutEdge(r: RecordId): Plain {
      Plain(vertices, edges - {r})
    }

    function WithEnd(d: Direction, r: RecordId, x: RecordId): Plain {
      if r in edges then Plain(vertices + {x}, edges[r := edges[r].Moved(d, x)]) else this
    }

    function WithoutVertex(r: RecordId): Plain {
      Plain(vertices - {r}, map k | k in edges && edges[k].source != r && edges[k].target != r :: edges[k])
    }
  }

  /** `versions[v]` is the graph that was committed as version `v`; `working` is the writer's. */
  datatype Model = Model(versions: seq<Plain>, working: Plain)
  {
    function Newest(): Plain {
      if versions == [] then Plain({}, map[]) else versions[|versions| - 1]
    }

    function Step(ev: Event): Model {
      match ev
      case AddVertex(r) => this.(working := working.WithVertex(r))
      case AddEdge(r, s, t) => this.(working := working.WithEdge(r, s, t))
      case RemoveEdge(r) => this.(working := working.WithoutEdge(r))
      case MoveEdge(d, r, x) => this.(working := working.WithEnd(d, r, x))
      case RemoveVertex(r, _, _) => this.(working := working.WithoutVertex(r))
      case Undo => this.(working := Newest())
      case MakeVisible => this.(versions := versions + [working])
      case _ => this
    }

    function Run(evs: seq<Event>): Model
      decreases |evs|
    {
      if evs == [] then this else Step(evs[0]).Run(evs[1..])
    }
  }

  // What the writer finds.

  /** Under `k` the writer finds a vertex if `g` has one, and an edge with the end that it has in `g`. */
  ghost predicate Shown(db: Db, g: Plain, d: Direction, k: RecordId) {
    && (db.v.Lookup(k).Some? <==> k in g.vertices)
    && (db.e.Lookup(k).Some? <==> k in g.edges) && EndOf(db, d, k) == g.End(d, k)
  }

  /** The writer finds exactly the vertices and edges of `g`, and the ends of the edges are those of `g`. */
  ghost predicate Shows(db: Db, g: Plain) {
    forall d, k :: Shown(db, g, d, k)
  }

  lemma AddVertexShows(db: Db, g: Plain, r: RecordId)
    requires Valid(db) && Shows(db, g) && Enabled(db, AddVertex(r))
    ensures Shows(CreateVertex(db, r), g.WithVertex(r))
  {
    forall d, k ensures Shown(CreateVertex(db, r), g.WithVertex(r), d, k) {
      CreateVertexFinds(db, r, d, k);
      assert Shown(db, g, d, k);
    }
  }

  lemma AddEdgeShown(db: Db, g: Plain, r: RecordId, s: RecordId, t: RecordId, after: Db, d: Direction, k: RecordId)
    requires Shown(db, g, d, k) && Linked(db, after, r, s, t, d, k) && r !in g.edges
    ensures Shown(after, g.WithEdge(r, s, t), d, k)
  {
  }

  lemma AddEdgeShows(db: Db, g: Plain, r: RecordId, s: RecordId, t: RecordId)
    requires Valid(db) && Shows(db, g) && Enabled(db, AddEdge(r, s, t))
    ensures Shows(DbOf(db, CreateEdge(db, r, s, t)), g.WithEdge(r, s, t))
  {
    var after := DbOf(db, CreateEdge(db, r, s, t));
    assert Shown(db, g, Out, r);
    if db.e.Lookup(r).None? {
      forall d, k ensures Shown(after, g.WithEdge(r, s, t), d, k) {
        assert Shown(db, g, d, k);
        CreateEdgeLinks(db, r, s, t, d, k);
        AddEdgeShown(db, g, r, s, t, after, d, k);
      }
    }
  }

  lemma RemoveEdgeShows(db: Db, g: Plain, r: RecordId)
    requires Valid(db) && Shows(db, g) && Enabled(db, RemoveEdge(r))
    ensures Shows(DeleteEdge(db, r), g.WithoutEdge(r))
  {
    forall d, k ensures Shown(DeleteEdge(db, r), g.WithoutEdge(r), d, k) {
      DeleteEdgeRemoves(db, r, d, k);
      assert Shown(db, g, d, k);
    }
  }

  lemma MoveEdgeShown(db: Db, g: Plain, d: Direction, r: RecordId, x: RecordId, after: Db, j: Direction, k: RecordId)
    requires Shown(db, g, j, k) && Moved(db, after, d, r, x, j, k) && r in g.edges && db.e.Lookup(r).Some?
    ensures Shown(after, g.WithEnd(d, r, x), j, k)
  {
  }

  lemma MoveEdgeShows(db: Db, g: Plain, d: Direction, r: RecordId, x: RecordId)
    requires Valid(db) && Shows(db, g) && Enabled(db, MoveEdge(d, r, x))
    ensures Shows(DbOf(db, AlterEnd(db, d, r, x)), g.WithEnd(d, r, x))
  {
    var after := DbOf(db, AlterEnd(db, d, r, x));
    assert Shown(db, g, Out, r);
    if db.e.Lookup(r).Some? {
      forall j, k ensures Shown(after, g.WithEnd(d, r, x), j, k) {
        assert Shown(db, g, j, k);
        AlterEndMoves(db, d, r, x, j, k);
        MoveEdgeShown(db, g, d, r, x, after, j, k);
      }
    }
  }

  lemma RemoveVertexShown(db: Db, g: Plain, r: RecordId, ins: seq<RecordId>, outs: seq<RecordId>, d: Direction,
                          k: RecordId)
    requires Valid(db) && Enabled(db, RemoveVertex(r, ins, outs)) && Shown(db, g, Out, k) && Shown(db, g, In, k)
    ensures Shown(DeleteVertex(db, r, ins, outs), g.WithoutVertex(r), d, k)
  {
    DeleteVertexRemoves(db, r, ins, outs, d, k);
  }

  lemma RemoveVertexShows(db: Db, g: Plain, r: RecordId, ins: seq<RecordId>, outs: seq<RecordId>)
    requires Valid(db) && Shows(db, g) && Enabled(db, RemoveVertex(r, ins, outs))
    ensures Shows(DeleteVertex(db, r, ins, outs), g.WithoutVertex(r))
  {
    forall d, k ensures Shown(DeleteVertex(db, r, ins, outs), g.WithoutVertex(r), d, k) {
      assert Shown(db, g, Out, k) && Shown(db, g, In, k);
      RemoveVertexShown(db, g, r, ins, outs, d, k);
    }
  }

  /** What leaves the writer's view as it is leaves the graph as it is. */
  lemma SameViewShows(db: Db, after: Db, g: Plain)
    requires Valid(db) && Valid(after) && SameView(db, after) && Shows(db, g)
    ensures Shows(after, g)
  {
    forall d, k ensures Shown(after, g, d, k) {
      assert Shown(db, g, d, k);
      if db.e.Lookup(k).Some? {
        EndIsKnown(db, d, k);
        EndIsKnown(after, d, k);
      }
    }
  }

  // What a version holds.

  ghost predicate Had(p: Pool, v: nat, x: Oid, r: RecordId) {
    Existed(p.At(x), v) && p.At(x).rid == r
  }

  /** The end of an edge at `v` is its end in `g`, unless the entry has been pruned. */
  ghost predicate EndHeld(db: Db, v: nat, g: Plain, t: Side) {
    Existed(db.e.At(t.edge), v) && ReadAt(db.End(t), v).Some? ==>
      g.End(t.direction, db.e.At(t.edge).rid) == Some(db.v.At(ReadAt(db.End(t), v).value).rid)
  }

  /** What a vertex lists at `v` is an edge of `g` that ends at the vertex. */
  ghost predicate ListHeld(db: Db, v: nat, g: Plain, s: Spot) {
    Existed(db.v.At(s.vertex), v) && ReadAt(db.Adj(s), v).Some? ==>
      g.End(s.direction, s.edge) == Some(db.v.At(s.vertex).rid)
  }

  /** What existed at `v` is what `g` has, and so are the ends and the lists, as far as they can still be read. */
  ghost predicate Holds(db: Db, v: nat, g: Plain) {
    && (forall r :: r in g.vertices <==> exists x :: Had(db.v, v, x, r))
    && (forall k :: k in g.edges <==> exists o :: Had(db.e, v, o, k))
    && (forall t :: EndHeld(db, v, g, t)) && (forall s :: ListHeld(db, v, g, s))
  }

  /** Versions are never changed. */
  lemma StepHeld(p: Pool, q: Pool, v: nat, r: RecordId)
    requires forall x :: SameAt(p, q, v, x)
    ensures (exists x :: Had(q, v, x, r)) <==> (exists x :: Had(p, v, x, r))
  {
    forall x ensures Had(q, v, x, r) == Had(p, v, x, r) {
      assert SameAt(p, q, v, x);
    }
  }

  lemma StepEndHeld(db: Db, ev: Event, v: nat, g: Plain, t: Side)
    requires Valid(db) && Enabled(db, ev) && v <= db.maxVersion && EndHeld(db, v, g, t)
    ensures EndHeld(Apply(db, ev), v, g, t)
  {
    StepVersion(db, ev, v, Spot(Out, 0, NO_RECORD), t);
    assert SameAt(db.e, Apply(db, ev).e, v, t.edge) && EndExisted(db, t, v);
    if ReadAt(db.End(t), v).Some? {
      assert SameAt(db.v, Apply(db, ev).v, v, ReadAt(db.End(t), v).value);
      assert SideOk(db, t);
    }
  }

  lemma StepListHeld(db: Db, ev: Event, v: nat, g: Plain, s: Spot)
    requires Valid(db) && Enabled(db, ev) && v <= db.maxVersion && ListHeld(db, v, g, s)
    ensures ListHeld(Apply(db, ev), v, g, s)
  {
    StepVersion(db, ev, v, s, Side(Out, 0));
    assert SameAt(db.v, Apply(db, ev).v, v, s.vertex);
  }

  lemma StepHolds(db: Db, ev: Event, v: nat, g: Plain)
    requires Valid(db) && Enabled(db, ev) && v <= db.maxVersion && Holds(db, v, g)
    ensures Holds(Apply(db, ev), v, g)
  {
    var after := Apply(db, ev);
    StepVersion(db, ev, v, Spot(Out, 0, NO_RECORD), Side(Out, 0));
    forall r ensures (r in g.vertices <==> exists x :: Had(after.v, v, x, r))
                     && (r in g.edges <==> exists o :: Had(after.e, v, o, r)) {
      StepHeld(db.v, after.v, v, r);
      StepHeld(db.e, after.e, v, r);
    }
    forall t ensures EndHeld(after, v, g, t) {
      StepEndHeld(db, ev, v, g, t);
    }
    forall s ensures ListHeld(after, v, g, s) {
      StepListHeld(db, ev, v, g, s);
    }
  }

  // Between transactions the writer finds the newest version.

  ghost predicate AtRest(db: Db) {
    Valid(db) && (db.phase.Idle? || db.phase.Published?)
  }

  lemma RestHeld(p: Pool, next: Oid, limit: nat, r: RecordId)
    requires PoolOk(p, next, limit, None) && p.todo == {}
    ensures forall x: Oid :: Had(p, limit, x, r) <==> p.Lookup(r) == Some(x)
    ensures (exists x :: Had(p, limit, x, r)) <==> p.Lookup(r).Some?
  {
    forall x: Oid ensures Had(p, limit, x, r) <==> p.Lookup(r) == Some(x) {
      assert ObjectOk(p, next, x) && VersionOk(p, limit, x);
      assert StoredOk(p, limit, None, r) && MineOk(p, None, r);
    }
    if p.Lookup(r).Some? {
      assert Had(p, limit, p.Lookup(r).value, r);
    }
  }

  lemma RestEnd(db: Db, d: Direction, k: RecordId, o: Oid)
    requires AtRest(db) && db.e.Lookup(k) == Some(o)
    ensures ReadAt(db.End(Side(d, o)), db.maxVersion).Some? && db.e.At(o).rid == k
    ensures EndOf(db, d, k) == Some(db.v.At(ReadAt(db.End(Side(d, o)), db.maxVersion).value).rid)
  {
    EndIsKnown(db, d, k);
    assert EdgeAgrees(db, d, k);
    NewestEnd(db, d, k);
  }

  /** What is listed at the newest version is an edge that ends there. */
  lemma RestList(db: Db, s: Spot)
    requires AtRest(db) && Existed(db.v.At(s.vertex), db.maxVersion) && ReadAt(db.Adj(s), db.maxVersion).Some?
    ensures EndOf(db, s.direction, s.edge) == Some(db.v.At(s.vertex).rid)
  {
    var v, o := db.maxVersion, ReadAt(db.Adj(s), db.maxVersion).value;
    NewestIsWhole(db, s, Side(s.direction, o));
    assert SpotOk(db, s) && ListedExisted(db, s, v) && ObjectOk(db.v, db.next, s.vertex);
    assert db.e.At(o).rid == s.edge;
    RestHeld(db.e, db.next, v, s.edge);
    assert Had(db.e, v, o, s.edge);
    RestEnd(db, s.direction, s.edge, o);
  }

  lemma RestHolds(db: Db, g: Plain)
    requires AtRest(db) && Shows(db, g)
    ensures Holds(db, db.maxVersion, g)
  {
    var v := db.maxVersion;
    forall r ensures (r in g.vertices <==> exists x :: Had(db.v, v, x, r))
                     && (r in g.edges <==> exists o :: Had(db.e, v, o, r)) {
      RestHeld(db.v, db.next, v, r);
      RestHeld(db.e, db.next, v, r);
      assert Shown(db, g, Out, r);
    }
    forall t: Side ensures EndHeld(db, v, g, t) {
      var k := db.e.At(t.edge).rid;
      RestHeld(db.e, db.next, v, k);
      assert Shown(db, g, t.direction, k) && Had(db.e, v, t.edge, k) == Existed(db.e.At(t.edge), v);
      if Existed(db.e.At(t.edge), v) {
        RestEnd(db, t.direction, k, t.edge);
      }
    }
    forall s: Spot ensures ListHeld(db, v, g, s) {
      assert Shown(db, g, s.direction, s.edge);
      if Existed(db.v.At(s.vertex), v) && ReadAt(db.Adj(s), v).Some? {
        RestList(db, s);
      }
    }
  }

  lemma RestShows(db: Db, g: Plain)
    requires AtRest(db) && Holds(db, db.maxVersion, g)
    ensures Shows(db, g)
  {
    var v := db.maxVersion;
    forall d, k ensures Shown(db, g, d, k) {
      RestHeld(db.v, db.next, v, k);
      RestHeld(db.e, db.next, v, k);
      if db.e.Lookup(k).Some? {
        var o := db.e.Lookup(k).value;
        assert Had(db.e, v, o, k) && EndHeld(db, v, g, Side(d, o));
        RestEnd(db, d, k, o);
      }
    }
  }

  // Runs.

  /** The store follows the model. */
  ghost predicate Follows(db: Db, m: Model) {
    && |m.versions| == db.maxVersion + 1 && Shows(db, m.working)
    && (db.phase.Idle? || db.phase.Published? ==> m.working == m.Newest())
    && (forall v :: 0 <= v <= db.maxVersion ==> Holds(db, v, m.versions[v]))
  }

  /** A step that changes what the writer finds. */
  lemma WriteShows(db: Db, ev: Event, m: Model)
    requires Valid(db) && Enabled(db, ev) && db.phase.Writing? && Shows(db, m.working)
    requires ev.AddVertex? || ev.AddEdge? || ev.RemoveEdge? || ev.MoveEdge? || ev.RemoveVertex?
    ensures Shows(Apply(db, ev), m.Step(ev).working)
  {
    match ev
    case AddVertex(r) => AddVertexShows(db, m.working, r);
    case AddEdge(r, s, t) => AddEdgeShows(db, m.working, r, s, t);
    case RemoveEdge(r) => RemoveEdgeShows(db, m.working, r);
    case MoveEdge(d, r, x) => MoveEdgeShows(db, m.working, d, r, x);
    case RemoveVertex(r, ins, outs) => RemoveVertexShows(db, m.working, r, ins, outs);
  }

  /** Every step leaves every committed version as it was. */
  lemma VersionsStay(db: Db, ev: Event, m: Model, after: Db)
    requires Valid(db) && Follows(db, m) && Enabled(db, ev) && after == Apply(db, ev)
    ensures Valid(after) && forall v :: 0 <= v <= db.maxVersion ==> Holds(after, v, m.versions[v])
  {
    StepKeeps(db, ev);
    forall v | 0 <= v <= db.maxVersion ensures Holds(after, v, m.versions[v]) {
      StepHolds(db, ev, v, m.versions[v]);
    }
  }

  lemma UndoFollows(db: Db, m: Model, after: Db)
    requires Valid(db) && Follows(db, m) && Enabled(db, Undo) && after == Apply(db, Undo)
    ensures Follows(after, m.Step(Undo))
  {
    VersionsStay(db, Undo, m, after);
    RestShows(after, m.Newest());
  }

  lemma MadeVisible(db: Db, g: Plain, after: Db)
    requires Valid(db) && Shows(db, g) && Enabled(db, MakeVisible) && after == db.Publish() && Valid(after)
    ensures Shows(after, g) && Holds(after, after.maxVersion, g)
  {
    StepView(db, MakeVisible);
    SameViewShows(db, after, g);
    RestHolds(after, g);
  }

  lemma MakeVisibleFollows(db: Db, m: Model, after: Db)
    requires Valid(db) && Follows(db, m) && Enabled(db, MakeVisible) && after == Apply(db, MakeVisible)
    ensures Follows(after, m.Step(MakeVisible))
  {
    VersionsStay(db, MakeVisible, m, after);
    MadeVisible(db, m.working, after);
    assert after.maxVersion == db.maxVersion + 1 && after.phase.Published?;
  }

  /** The version, and whether a transaction is open, change only where the model says. */
  lemma StepPhases(db: Db, ev: Event)
    requires Enabled(db, ev)
    ensures !ev.MakeVisible? ==> Apply(db, ev).maxVersion == db.maxVersion
    ensures !ev.MakeVisible? && !ev.Undo? && (Apply(db, ev).phase.Idle? || Apply(db, ev).phase.Published?) ==>
              db.phase.Idle? || db.phase.Published?
  {
    if db.phase.Idle? || db.phase.Writing? {
      StepPhase(db, ev);
    }
    if ev.RemoveVertex? && db.v.Lookup(ev.rid).Some? {
      var x := db.v.Lookup(ev.rid).value;
      DeleteAllListedVersions(db, In, x, ev.ins);
      DeleteAllListedVersions(DeleteAllListed(db, In, x, ev.ins), Out, x, ev.outs);
    }
  }

  lemma BeginShows(db: Db, g: Plain)
    requires Shows(db, g)
    ensures Shows(db.(phase := Writing), g)
  {
    forall d, k ensures Shown(db.(phase := Writing), g, d, k) {
      assert Shown(db, g, d, k);
    }
  }

  /** A step that changes no committed version. */
  lemma OtherFollows(db: Db, ev: Event, m: Model, after: Db)
    requires Valid(db) && Follows(db, m) && Enabled(db, ev) && !ev.Undo? && !ev.MakeVisible? && after == Apply(db, ev)
    requires Shows(after, m.Step(ev).working)
    ensures Follows(after, m.Step(ev))
  {
    StepPhases(db, ev);
    VersionsStay(db, ev, m, after);
  }

  /** Every step of the store is the step of the model. */
  lemma StepFollows(db: Db, ev: Event, m: Model)
    requires Valid(db) && Follows(db, m) && Enabled(db, ev)
    ensures Follows(Apply(db, ev), m.Step(ev))
  {
    if ev.Undo? {
      UndoFollows(db, m, Apply(db, ev));
    } else if ev.MakeVisible? {
      MakeVisibleFollows(db, m, Apply(db, ev));
    } else {
      if ev.AddVertex? || ev.AddEdge? || ev.RemoveEdge? || ev.MoveEdge? || ev.RemoveVertex? {
        WriteShows(db, ev, m);
      } else if ev.BeginWrite? {
        BeginShows(db, m.working);
      } else if ev.StartReading? || ev.StopReading? {
        ReadingShows(db, ev, m.working, Apply(db, ev));
      } else {
        StepKeeps(db, ev);
        StepView(db, ev);
        SameViewShows(db, Apply(db, ev), m.working);
      }
      OtherFollows(db, ev, m, Apply(db, ev));
    }
  }

  lemma ReadingShows(db: Db, ev: Event, g: Plain, after: Db)
    requires Valid(db) && Enabled(db, ev) && Shows(db, g) && (ev.StartReading? || ev.StopReading?)
    requires after == Apply(db, ev)
    ensures Shows(after, g)
  {
    if ev.StopReading? {
      EndReadKeeps(db, ev.index);
      EndReadView(db, ev.index);
    } else {
      BeginReadKeeps(db);
    }
    SameViewShows(db, after, g);
  }

  lemma {:induction false} RunFollows(db: Db, evs: seq<Event>, m: Model)
    requires Valid(db) && IsRun(db, evs) && Follows(db, m)
    ensures Follows(After(db, evs), m.Run(evs))
    decreases |evs|
  {
    if evs != [] {
      StepKeeps(db, evs[0]);
      StepFollows(db, evs[0], m);
      RunFollows(Apply(db, evs[0]), evs[1..], m.Step(evs[0]));
    }
  }

  /** The model of a store that has just been opened. */
  const OPENED := Model([Plain({}, map[])], Plain({}, map[]))

  lemma StartFollows()
    ensures Follows(START, OPENED)
  {
  }

  /**
   In every reachable state the writer finds exactly the graph that the simple model is working on: what it has created,
   linked, moved and deleted since it began, on top of what was committed last; nothing of it once it has rolled back.
   */
  lemma WriterSeesModel(evs: seq<Event>)
    requires IsRun(START, evs)
    ensures Shows(After(START, evs), OPENED.Run(evs).working)
  {
    StartValid();
    StartFollows();
    RunFollows(START, evs, OPENED);
  }

  /** What a reader at `v` finds under `k` of what existed then is what `g` has, less what has been pruned. */
  ghost predicate ShownAt(db: Db, v: nat, g: Plain, d: Direction, k: RecordId) {
    && (FoundAt(db.v, k, v) <==> k in g.vertices)
    && (FoundAt(db.e, k, v) <==> k in g.edges)
    && (FoundAt(db.e, k, v) && EndOfAt(db, d, k, v).Some? ==> EndOfAt(db, d, k, v) == g.End(d, k))
    && (forall r :: FoundAt(db.v, r, v) && ListedAt(db, Spot(d, VertexAt(db, r, v), k), v).Some? ==>
          g.End(d, k) == Some(r))
  }

  lemma ServedFinds(p: Pool, next: Oid, limit: nat, current: Option<Oid>, v: nat, k: RecordId)
    requires PoolOk(p, next, limit, current) && forall x :: Snapshots.Held(p, v, x)
    ensures FoundAt(p, k, v) <==> exists x :: Had(p, v, x, k)
    ensures FoundAt(p, k, v) ==> p.At(p.LookupAt(k, v).value).rid == k
  {
    assert StoredOk(p, limit, current, k);
    if FoundAt(p, k, v) {
      assert Had(p, v, p.LookupAt(k, v).value, k);
    }
    if x :| Had(p, v, x, k) {
      assert Snapshots.Held(p, v, x) && ObjectOk(p, next, x);
    }
  }

  lemma ServedShows(db: Db, v: nat, g: Plain, d: Direction, k: RecordId)
    requires Valid(db) && Served(db, v) && Holds(db, v, g)
    ensures ShownAt(db, v, g, d, k)
  {
    ServedFinds(db.v, db.next, Limit(db), None, v, k);
    ServedFinds(db.e, db.next, Limit(db), db.current, v, k);
    if FoundAt(db.e, k, v) {
      assert EndHeld(db, v, g, Side(d, db.e.LookupAt(k, v).value));
    }
    forall r | FoundAt(db.v, r, v) && ListedAt(db, Spot(d, VertexAt(db, r, v), k), v).Some?
      ensures g.End(d, k) == Some(r) {
      ServedFinds(db.v, db.next, Limit(db), None, v, r);
      assert ListHeld(db, v, g, Spot(d, VertexAt(db, r, v), k));
    }
  }

  /**
   In every reachable state every active reader finds exactly the vertices and edges of the graph that was committed as
   its version, whatever has been written, committed, rolled back or reclaimed since. Every end it reads is the edge's
   end in that graph, and everything it finds listed at a vertex is an edge of that graph that ends there.
   */
  lemma ReadersSeeModel(evs: seq<Event>, reader: Reader, d: Direction, k: RecordId)
    requires IsRun(START, evs) && Active(After(START, evs), reader)
    ensures var db, versions := After(START, evs), OPENED.Run(evs).versions;
            |versions| == db.maxVersion + 1 && reader.version < |versions|
            && ShownAt(db, reader.version, versions[reader.version], d, k)
  {
    var db := After(START, evs);
    StartValid();
    StartFollows();
    RunKeeps(START, evs);
    RunFollows(START, evs, OPENED);
    ReadersAreServed(evs);
    var i :| 0 <= i < |db.readers| && db.readers[i] == reader;
    assert Served(db, reader.version);
    ServedShows(db, reader.version, OPENED.Run(evs).versions[reader.version], d, k);
  }
}
