/**
 Runs from the empty store that end in the states the other modules warn of.
 */
module StoreExamples {
  import opened Common
  import opened Histories
  import opened Store
  import opened StoreCommit
  import opened StoreReaders
  import opened StoreRuns
  import opened Snapshots

  /** A run leads from one store to the other. */
  ghost predicate Leads(from: Db, to: Db) {
    exists evs :: IsRun(from, evs) && After(from, evs) == to
  }

  lemma {:induction false} RunThenStep(db: Db, evs: seq<Event>, ev: Event)
    requires IsRun(db, evs) && Enabled(After(db, evs), ev)
    ensures IsRun(db, evs + [ev]) && After(db, evs + [ev]) == Apply(After(db, evs), ev)
    decreases |evs|
  {
    if evs == [] {
      assert [ev][1..] == [];
    } else {
      RunThenStep(Apply(db, evs[0]), evs[1..], ev);
      assert (evs + [ev])[1..] == evs[1..] + [ev];
    }
  }

  lemma LeadsHere(db: Db)
    ensures Leads(db, db)
  {
    assert IsRun(db, []) && After(db, []) == db;
  }

  lemma Step(from: Db, db: Db, ev: Event, after: Db)
    requires Leads(from, db) && Enabled(db, ev) && Apply(db, ev) == after
    ensures Leads(from, after)
  {
    var evs :| IsRun(from, evs) && After(from, evs) == db;
    RunThenStep(from, evs, ev);
  }

  lemma Begins(from: Db, db: Db)
    requires Leads(from, db) && db.phase.Idle?
    ensures Leads(from, db.(phase := Writing))
  {
    Step(from, db, BeginWrite, db.(phase := Writing));
  }

  lemma StartsCommit(from: Db, db: Db, base: nat)
    requires Leads(from, db) && db.phase.Writing? && base == BaseOf(db)
    ensures Leads(from, db.(phase := Committing, base := base))
  {
    Step(from, db, StartCommitting, db.(phase := Committing, base := base));
  }

  /** Nothing is queued and nothing is to be queued. */
  predicate Clear(p: Pool) {
    p.dropped == [] && p.queue == []
  }

  lemma EnqueuesNothing(p: Pool, c: nat)
    requires Clear(p)
    ensures p.Enqueue(c).queue == [] && p.Enqueue(c).dropped == []
  {
  }

  lemma ReclaimsNothing(p: Pool, c: nat)
    requires Clear(p)
    ensures p.Reclaim(c).stored == p.stored && p.Reclaim(c).queue == []
  {
  }

  lemma PublishesIs(db: Db, c: nat)
    requires Clear(db.v) && Clear(db.e) && c == db.maxVersion + 1
    ensures db.Publish() == db.(v := db.v.Closed(), e := db.e.Closed(), maxVersion := c, phase := Published)
  {
    EnqueuesNothing(db.v, c);
    EnqueuesNothing(db.e, c);
  }

  lemma ReclaimsIs(p: Pool, c: nat)
    requires Clear(p)
    ensures p.Reclaim(c) == p
  {
    ReclaimsNothing(p, c);
  }

  lemma SweepsIs(db: Db)
    requires Clear(db.v) && Clear(db.e)
    ensures Sweep(db) == db.(phase := Idle)
  {
    if db.readers == [] {
      ReclaimsIs(db.v, db.maxVersion);
      ReclaimsIs(db.e, db.maxVersion);
    }
  }

  /** The end of a commit that deletes nothing. */
  lemma Publishes(from: Db, db: Db, after: Db)
    requires Leads(from, db) && db.phase.Committing? && db.current.None? && db.v.todo == db.e.todo == {}
    requires Clear(db.v) && Clear(db.e)
    requires after == db.(v := db.v.Closed(), e := db.e.Closed(), maxVersion := db.maxVersion + 1, phase := Idle)
    ensures Leads(from, after)
  {
    PublishesIs(db, db.maxVersion + 1);
    var one := after.(phase := Published);
    Step(from, db, MakeVisible, one);
    SweepsIs(one);
    Step(from, one, SweepUp, after);
  }

  // One edge between two vertices.

  const A := RecordId(1, 1)
  const B := RecordId(1, 2)
  const E := RecordId(2, 1)

  const OUT_A := Spot(Out, 0, E)
  const OUT_B := Spot(Out, 1, E)
  const IN_B := Spot(In, 1, E)
  const SOURCE := Side(Out, 2)
  const TARGET := Side(In, 2)

  function Fresh(r: RecordId): Element {
    Element(r, 0, UncommittedCreate, 0)
  }

  function Made(r: RecordId): Element {
    Element(r, 1, CommittedCreate, 1)
  }

  function Uncommitted(o: Oid): History<Oid> {
    AddLatest(Empty(), o)
  }

  function Since(c: nat, o: Oid): History<Oid> {
    History([Entry(c, true, o)], None)
  }

  /** The edge has been added. */
  const ADDED := Db(
    Pool(map[0 := Fresh(A), 1 := Fresh(B)], map[], map[A := 0, B := 1], {A, B}, [], []),
    Pool(map[2 := Fresh(E)], map[], map[E := 2], {E}, [], []),
    map[OUT_A := Uncommitted(2), IN_B := Uncommitted(2)], map[SOURCE := Uncommitted(0), TARGET := Uncommitted(1)], 3,
    0, Writing, 0, None, [], 1, [])

  /** Its vertices are committed. */
  const PLACED := ADDED.(
    v := Pool(map[0 := Made(A), 1 := Made(B)], map[A := 0, B := 1], map[A := 0, B := 1], {}, [], []),
    phase := Committing)

  /** It is being visited. */
  const PICKED := PLACED.(
    e := Pool(map[2 := Fresh(E)], map[E := 2], map[E := 2], {}, [], []), current := Some(2),
    prog := [PruneList(Out, 0), Upgrade(OUT_A)] + [PruneList(In, 1), Upgrade(IN_B)])

  /** It is itself committed. */
  const LINKED := PLACED.(
    e := Pool(map[2 := Made(E)], map[E := 2], map[E := 2], {}, [], []),
    adj := map[OUT_A := Since(1, 2), IN_B := Since(1, 2)], ends := map[SOURCE := Since(1, 0), TARGET := Since(1, 1)])

  /** Version 1. */
  const CREATED := LINKED.(v := LINKED.v.Closed(), e := LINKED.e.Closed(), maxVersion := 1, phase := Idle)

  lemma Adds()
    ensures Leads(START, ADDED)
  {
    LeadsHere(START);
    var one := START.(phase := Writing);
    Step(START, START, BeginWrite, one);
    var two := one.MakeVertex(A);
    var three := two.MakeVertex(B);
    assert three.MakeEdge(E, 0, 1) == ADDED;
    Step(START, one, AddEdge(E, A, B), ADDED);
  }

  lemma Places()
    ensures Leads(START, PLACED)
  {
    Adds();
    StartsCommit(START, ADDED, 0);
    var one := ADDED.(phase := Committing);
    var two := one.(v := one.v.Visit(0, 1));
    Step(START, one, VisitVertex(A), two);
    assert two.v.Visit(1, 1) == PLACED.v;
    Step(START, two, VisitVertex(B), PLACED);
  }

  // Committing one edge.

  /** Pruning changes nothing. */
  ghost predicate NothingToPrune(h: History<Oid>) {
    |h.stable| <= 1 && forall i :: 0 <= i < |h.stable| ==> h.stable[i].active
  }

  lemma Prunes(from: Db, db: Db, d: Direction, x: Oid)
    requires Leads(from, db) && db.phase.Committing? && db.current.Some? && db.prog != []
    requires db.prog[0] == PruneList(d, x)
    requires forall s: Spot :: s in db.adj && s.direction == d && s.vertex == x ==> NothingToPrune(db.adj[s])
    ensures Leads(from, db.(prog := db.prog[1..]))
  {
    assert db.PrunedAdj(d, x) == db.adj;
    Step(from, db, ExecuteNext, db.(prog := db.prog[1..]));
  }

  lemma Upgrades(from: Db, db: Db, s: Spot)
    requires Leads(from, db) && db.phase.Committing? && db.current.Some? && db.prog != [] && db.prog[0] == Upgrade(s)
    requires s in db.adj
    ensures Leads(from, db.(adj := db.adj[s := Commit(db.adj[s], db.maxVersion + 1)], prog := db.prog[1..]))
  {
    Step(from, db, ExecuteNext, db.Execute());
  }

  /** Prunes a list in which there is nothing to prune and commits one place of it. */
  lemma Lists(from: Db, db: Db, s: Spot, rest: seq<Instr>)
    requires Leads(from, db) && db.phase.Committing? && db.current.Some? && s in db.adj
    requires db.prog == [PruneList(s.direction, s.vertex), Upgrade(s)] + rest
    requires forall t: Spot :: t in db.adj && t.direction == s.direction && t.vertex == s.vertex ==>
               NothingToPrune(db.adj[t])
    ensures Leads(from, db.(adj := db.adj[s := Commit(db.adj[s], db.maxVersion + 1)], prog := rest))
  {
    Prunes(from, db, s.direction, s.vertex);
    Upgrades(from, db.(prog := db.prog[1..]), s);
    assert db.prog[1..][1..] == rest;
  }

  lemma Picks()
    ensures Leads(START, PICKED)
  {
    Places();
    assert PLACED.Pick(2) == PICKED;
    Step(START, PLACED, VisitEdge(E), PICKED);
  }

  lemma FirstCommit(o: Oid)
    ensures Commit(Uncommitted(o), 1) == Since(1, o)
  {
  }

  lemma ListsBoth()
    ensures Leads(START, PICKED.(adj := LINKED.adj, prog := []))
  {
    Picks();
    FirstCommit(2);
    Lists(START, PICKED, OUT_A, [PruneList(In, 1), Upgrade(IN_B)]);
    var one := PICKED.(adj := map[OUT_A := Since(1, 2), IN_B := Uncommitted(2)],
                       prog := [PruneList(In, 1), Upgrade(IN_B)]);
    assert one.adj == PICKED.adj[OUT_A := Since(1, 2)];
    assert one.prog == [PruneList(In, 1), Upgrade(IN_B)] + [];
    Lists(START, one, IN_B, []);
    assert one.adj[IN_B := Since(1, 2)] == LINKED.adj;
  }

  lemma Links()
    ensures Leads(START, LINKED)
  {
    ListsBoth();
    FirstCommit(0);
    FirstCommit(1);
    var one := PICKED.(adj := LINKED.adj, prog := []);
    assert one.Finish(2).ends == LINKED.ends && one.Finish(2).e == LINKED.e;
    Step(START, one, FinishEdge, LINKED);
  }

  lemma Creates()
    ensures Leads(START, CREATED)
  {
    Links();
    Publishes(START, LINKED, CREATED);
  }

  // A reader, and a writer that deletes what it reads.

  /** A reader at version 1. */
  const READING := CREATED.(nextTxn := 2, readers := [Reader(1, 1)])

  /** The source vertex has been deleted and the edge with it. */
  const REMOVED := READING.(
    v := Pool(map[0 := Made(A).(status := UncommittedDelete), 1 := Made(B)], map[A := 0, B := 1], map[A := 0], {A},
              [], []),
    e := Pool(map[2 := Made(E).(status := UncommittedDelete)], map[E := 2], map[E := 2], {E}, [], []),
    adj := map[OUT_A := Since(1, 2), IN_B := DeleteLatest(Since(1, 2))], phase := Writing)

  /** The deleted vertex is committed and the edge is being visited. */
  const VISITED := REMOVED.(
    v := Pool(map[0 := Element(A, 2, CommittedDelete, 1), 1 := Made(B)], map[A := 0, B := 1], map[A := 0], {}, [A], []),
    e := REMOVED.e.(todo := {}), phase := Committing, base := 1, current := Some(2),
    prog := [PruneList(Out, 0), Upgrade(OUT_A)] + [PruneList(In, 1), Upgrade(IN_B)])

  /** Only publishing is left. */
  const DROPPED := VISITED.(
    e := Pool(map[2 := Element(E, 2, CommittedDelete, 1)], map[E := 2], map[E := 2], {}, [E], []),
    adj := map[OUT_A := Since(1, 2), IN_B := History([Entry(1, true, 2), Entry(2, false, 2)], None)],
    current := None, prog := [])

  lemma DeletesEdge(db: Db)
    requires db == READING.(phase := Writing)
    ensures DeleteListed(db, Out, 0, E) == db.(adj := REMOVED.adj, e := REMOVED.e)
  {
    assert db.Unlist(In, 2) == db.(adj := REMOVED.adj);
    assert db.e.Retire(2) == REMOVED.e;
  }

  lemma DeletesSource(db: Db)
    requires db == READING.(phase := Writing)
    ensures DeleteVertex(db, A, [], [E]) == REMOVED
  {
    DeletesEdge(db);
    var one := db.(adj := REMOVED.adj, e := REMOVED.e);
    assert [E][1..] == [];
    assert DeleteAllListed(db, Out, 0, [E]) == one;
    assert one.v.Retire(0) == REMOVED.v;
  }

  lemma KeysOfSource(db: Db)
    requires db == READING.(phase := Writing)
    ensures Enabled(db, RemoveVertex(A, [], [E]))
  {
    assert db.v.Lookup(A) == Some(0);
  }

  lemma Removes()
    ensures Leads(START, REMOVED)
  {
    Creates();
    Step(START, CREATED, StartReading, READING);
    Begins(START, READING);
    var one := READING.(phase := Writing);
    DeletesSource(one);
    KeysOfSource(one);
    Step(START, one, RemoveVertex(A, [], [E]), REMOVED);
  }

  lemma VisitsSource()
    ensures Leads(START, REMOVED.(v := VISITED.v, phase := Committing, base := 1))
  {
    Removes();
    StartsCommit(START, REMOVED, 1);
    var one := REMOVED.(phase := Committing, base := 1);
    assert one.v.Visit(0, 2) == VISITED.v;
    Step(START, one, VisitVertex(A), one.(v := VISITED.v));
  }

  lemma Visits()
    ensures Leads(START, VISITED)
  {
    VisitsSource();
    var one := REMOVED.(v := VISITED.v, phase := Committing, base := 1);
    assert one.Pick(2) == VISITED;
    Step(START, one, VisitEdge(E), VISITED);
  }

  lemma SecondCommit()
    ensures Commit(DeleteLatest(Since(1, 2)), 2) == History([Entry(1, true, 2), Entry(2, false, 2)], None)
  {
  }

  lemma DropsList()
    ensures Leads(START, VISITED.(adj := DROPPED.adj, prog := []))
  {
    Visits();
    SecondCommit();
    Lists(START, VISITED, OUT_A, [PruneList(In, 1), Upgrade(IN_B)]);
    var one := VISITED.(prog := [PruneList(In, 1), Upgrade(IN_B)]);
    assert one.adj == VISITED.adj[OUT_A := Commit(Since(1, 2), 2)];
    assert one.prog == [PruneList(In, 1), Upgrade(IN_B)] + [];
    Lists(START, one, IN_B, []);
    assert one.adj[IN_B := DROPPED.adj[IN_B]] == DROPPED.adj;
  }

  /** A reachable state in which a commit is about to delete what the only reader reads. */
  lemma Drops()
    ensures Leads(START, DROPPED)
  {
    DropsList();
    var one := VISITED.(adj := DROPPED.adj, prog := []);
    assert one.Finish(2).ends == DROPPED.ends;
    assert one.e.Stamp(2, 2) == DROPPED.e;
    Step(START, one, FinishEdge, DROPPED);
  }

  // A reader, and a writer that moves an edge away and back again.

  /** A reader at version 2, which is the same as version 1. */
  const WATCHED := CREATED.(maxVersion := 2, base := 1, nextTxn := 2, readers := [Reader(1, 2)])

  /** The edge has been moved to start at its target. */
  const MOVED := WATCHED.(
    e := WATCHED.e.(mine := map[E := 2], todo := {E}),
    adj := map[OUT_A := DeleteLatest(Since(1, 2)), OUT_B := Uncommitted(2), IN_B := Since(1, 2)],
    ends := map[SOURCE := AddLatest(Since(1, 0), 1), TARGET := Since(1, 1)], phase := Writing)

  const MOVING := MOVED.(
    e := MOVED.e.(todo := {}), phase := Committing, base := 2, current := Some(2),
    prog := [PruneList(Out, 1), Upgrade(OUT_B)]
            + ([PruneList(Out, 0), Upgrade(OUT_A)] + [PruneList(In, 1), Upgrade(IN_B)]))

  const GONE := History([Entry(1, true, 2), Entry(3, false, 2)], None)

  /** Version 3. */
  const SHIFTED := WATCHED.(
    adj := map[OUT_A := GONE, OUT_B := Since(3, 2), IN_B := Since(1, 2)],
    ends := map[SOURCE := History([Entry(1, true, 0), Entry(3, true, 1)], None), TARGET := Since(1, 1)],
    maxVersion := 3, base := 2)

  /** The edge has been moved back, and the commit of that has begun. */
  const RETURNED := SHIFTED.(
    e := MOVED.e,
    adj := map[OUT_A := AddLatest(GONE, 2), OUT_B := DeleteLatest(Since(3, 2)), IN_B := Since(1, 2)],
    ends := map[SOURCE := AddLatest(SHIFTED.ends[SOURCE], 0), TARGET := Since(1, 1)], phase := Committing)

  lemma Watches()
    ensures Leads(START, WATCHED)
  {
    Creates();
    Begins(START, CREATED);
    StartsCommit(START, CREATED.(phase := Writing), 1);
    var one := CREATED.(phase := Committing, base := 1);
    var two := one.(maxVersion := 2, phase := Idle);
    Publishes(START, one, two);
    Step(START, two, StartReading, WATCHED);
  }

  lemma Moves()
    ensures Leads(WATCHED, MOVED)
  {
    LeadsHere(WATCHED);
    Begins(WATCHED, WATCHED);
    var one := WATCHED.(phase := Writing);
    assert one.MoveEnd(Out, 2, 0, 1) == MOVED;
    assert AlterEnd(one, Out, E, B) == Done(MOVED);
    Step(WATCHED, one, MoveEdge(Out, E, B), MOVED);
  }

  lemma BeginsMoved(db: Db)
    requires db == MOVED.(phase := Committing, base := 2)
    ensures db.Begin(2) == MOVING.(prog := [])
  {
    assert db.PrunedEnds(2) == MOVED.ends;
  }

  lemma VisitsMoved(db: Db)
    requires db == MOVING.(prog := [])
    ensures db.Visit(Out, 2) == [PruneList(Out, 1), Upgrade(OUT_B)] + [PruneList(Out, 0), Upgrade(OUT_A)]
    ensures db.Visit(In, 2) == [PruneList(In, 1), Upgrade(IN_B)]
  {
    assert db.v.Alive(0) && db.v.Alive(1);
  }

  lemma PicksMovedIs(db: Db)
    requires db == MOVED.(phase := Committing, base := 2)
    ensures db.Pick(2) == MOVING
  {
    BeginsMoved(db);
    VisitsMoved(MOVING.(prog := []));
  }

  lemma PicksMoved()
    ensures Leads(WATCHED, MOVING)
  {
    Moves();
    StartsCommit(WATCHED, MOVED, 2);
    var one := MOVED.(phase := Committing, base := 2);
    PicksMovedIs(one);
    Step(WATCHED, one, VisitEdge(E), MOVING);
  }

  lemma ThirdCommit()
    ensures Commit(DeleteLatest(Since(1, 2)), 3) == GONE && Commit(Uncommitted(2), 3) == Since(3, 2)
    ensures Commit(AddLatest(Since(1, 0), 1), 3) == SHIFTED.ends[SOURCE]
  {
  }

  const LISTING := MOVING.(
    adj := map[OUT_A := DeleteLatest(Since(1, 2)), OUT_B := Since(3, 2), IN_B := Since(1, 2)],
    prog := [PruneList(Out, 0), Upgrade(OUT_A)] + [PruneList(In, 1), Upgrade(IN_B)])

  lemma ListsTarget()
    ensures Leads(WATCHED, LISTING)
  {
    PicksMoved();
    ThirdCommit();
    Lists(WATCHED, MOVING, OUT_B, LISTING.prog);
    assert MOVING.adj[OUT_B := Since(3, 2)] == LISTING.adj;
  }

  lemma ListsLast(db: Db)
    requires Leads(WATCHED, db) && db == MOVING.(adj := SHIFTED.adj, prog := [PruneList(In, 1), Upgrade(IN_B)])
    ensures Leads(WATCHED, MOVING.(adj := SHIFTED.adj, prog := []))
  {
    assert db.prog == [PruneList(In, 1), Upgrade(IN_B)] + [];
    Lists(WATCHED, db, IN_B, []);
    assert db.adj[IN_B := Since(1, 2)] == SHIFTED.adj;
  }

  lemma ListingIsShort()
    ensures forall s: Spot :: s in LISTING.adj ==> NothingToPrune(LISTING.adj[s])
  {
  }

  lemma SourceIsGone(adj: map<Spot, History<Oid>>)
    requires adj == LISTING.adj
    ensures adj[OUT_A := GONE] == SHIFTED.adj
  {
  }

  lemma ListsSource()
    ensures Leads(WATCHED, MOVING.(adj := SHIFTED.adj, prog := [PruneList(In, 1), Upgrade(IN_B)]))
  {
    ListsTarget();
    ListingIsShort();
    ThirdCommit();
    Lists(WATCHED, LISTING, OUT_A, [PruneList(In, 1), Upgrade(IN_B)]);
    SourceIsGone(LISTING.adj);
  }

  lemma ListsMoved()
    ensures Leads(WATCHED, MOVING.(adj := SHIFTED.adj, prog := []))
  {
    ListsSource();
    ListsLast(MOVING.(adj := SHIFTED.adj, prog := [PruneList(In, 1), Upgrade(IN_B)]));
  }

  /** The moved edge is committed. */
  const SETTLED := MOVED.(adj := SHIFTED.adj, ends := SHIFTED.ends, e := MOVING.e, phase := Committing, base := 2)

  lemma Settles()
    ensures Leads(WATCHED, SETTLED)
  {
    ListsMoved();
    ThirdCommit();
    var one := MOVING.(adj := SHIFTED.adj, prog := []);
    assert one.Finish(2).ends == SHIFTED.ends;
    assert one.e.Stamp(2, 3) == MOVING.e;
    Step(WATCHED, one, FinishEdge, SETTLED);
  }

  lemma Shifts()
    ensures Leads(WATCHED, SHIFTED)
  {
    Settles();
    Publishes(WATCHED, SETTLED, SHIFTED);
  }

  lemma RelistsEdge(adj: map<Spot, History<Oid>>)
    requires adj == SHIFTED.adj
    ensures adj[OUT_B := DeleteLatest(adj[OUT_B])][OUT_A := AddLatest(GONE, 2)] == RETURNED.adj
  {
  }

  lemma MovesBackIs(db: Db)
    requires db == SHIFTED.(phase := Writing)
    ensures db.MoveEnd(Out, 2, 1, 0) == RETURNED.(phase := Writing)
  {
    RelistsEdge(db.adj);
    assert db.ends[SOURCE := AddLatest(db.End(SOURCE), 0)] == RETURNED.ends;
    assert db.e.AddMine(E, 2) == RETURNED.e;
  }

  lemma MovesBack(db: Db)
    requires db == SHIFTED.(phase := Writing)
    ensures AlterEnd(db, Out, E, A) == Done(RETURNED.(phase := Writing))
  {
    MovesBackIs(db);
    assert Latest(db.End(SOURCE)) == Some(1) && db.v.Alive(1);
  }

  lemma Returns()
    ensures Leads(WATCHED, RETURNED)
  {
    Shifts();
    Begins(WATCHED, SHIFTED);
    var one, two := SHIFTED.(phase := Writing), RETURNED.(phase := Writing);
    MovesBack(one);
    Step(WATCHED, one, MoveEdge(Out, E, A), two);
    StartsCommit(WATCHED, two, 2);
  }

  // The reader's version has lost its edge.

  lemma LosesEntry(h: History<Oid>)
    requires |h.stable| == 2 && h.stable[0].version == 1 && h.stable[1].version == 3
    ensures ReadAt(Prune(h, 2), 2) == None
  {
    assert DropOld(h.stable, 2) == h.stable[1..];
  }

  lemma LosesSource(db: Db)
    requires db == RETURNED.Begin(2)
    ensures ReadAt(db.End(SOURCE), 2) == None && db.adj == RETURNED.adj && db.v == RETURNED.v && db.base == 2
    ensures db.Visit(Out, 2) != [] && db.Visit(Out, 2)[0] == PruneList(Out, 0)
    ensures db.phase.Committing? && db.current == Some(2) && db.readers == WATCHED.readers
  {
    var h := AddLatest(SHIFTED.ends[SOURCE], 0);
    assert db.End(SOURCE) == Prune(h, 2);
    LosesEntry(h);
    assert db.v.Alive(0);
  }

  lemma LosesListing(db: Db)
    requires db.adj == RETURNED.adj && db.base == 2
    ensures OUT_A in db.PrunedAdj(Out, 0) && ReadAt(db.PrunedAdj(Out, 0)[OUT_A], 2) == None
  {
    assert db.adj[OUT_A] == AddLatest(GONE, 2);
    LosesEntry(db.adj[OUT_A]);
  }

  lemma WatchedReads()
    ensures Existed(WATCHED.v.At(0), 2) && Existed(WATCHED.e.At(2), 2)
    ensures ListedAt(WATCHED, OUT_A, 2) == Some(2) && EndAt(WATCHED, SOURCE, 2) == Some(0)
  {
    IndexAtIs(Since(1, 2).stable, 2, 0);
    IndexAtIs(Since(1, 0).stable, 2, 0);
  }

  /**
   Visiting the edge again prunes its source, and then the list of its old and new source. The reader that has been
   there all the time finds neither.
   */
  lemma LosesEdge() returns (after: Db)
    ensures Leads(START, WATCHED) && Leads(WATCHED, after)
    ensures WATCHED.readers == after.readers == [Reader(1, 2)]
    ensures Existed(WATCHED.v.At(0), 2) && Existed(WATCHED.e.At(2), 2)
    ensures ListedAt(WATCHED, OUT_A, 2) == Some(2) && ListedAt(after, OUT_A, 2) == None
    ensures EndAt(WATCHED, SOURCE, 2) == Some(0) && EndAt(after, SOURCE, 2) == None
  {
    Watches();
    Returns();
    WatchedReads();
    LosesSource(RETURNED.Begin(2));
    var one := RETURNED.Pick(2);
    Step(WATCHED, RETURNED, VisitEdge(E), one);
    after := one.(adj := one.PrunedAdj(Out, 0), prog := one.prog[1..]);
    LosesListing(one);
    Step(WATCHED, one, ExecuteNext, after);
  }
}
