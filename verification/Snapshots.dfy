/**
 What a reader sees stays the same for as long as it reads.

 A reader holds the version that was current when it began. Every step of every run leaves that version as it was,
 except one: pruning a history that the reader still needs. When that happens, and which reads it changes, is stated
 exactly, history by history.
 */
module Snapshots {
  import opened Common
  import opened Histories
  import opened Store
  import opened StoreInvariant
  import opened StoreCommit
  import opened StoreUpgrade
  import opened StoreReaders
  import opened StoreRuns
  import opened StoreUndo

  // What a reader at version `v` reads.

  /** What vertex `s.vertex` lists at `s`, as far as the pointer there can be followed. */
  function ListedAt(db: Db, s: Spot, v: nat): Option<Oid> {
    match ReadAt(db.Adj(s), v)
    case Some(o) => if db.e.Alive(o) then Some(o) else None
    case None => None
  }

  function EndAt(db: Db, t: Side, v: nat): Option<Oid> {
    match ReadAt(db.End(t), v)
    case Some(x) => if db.v.Alive(x) then Some(x) else None
    case None => None
  }

  ghost predicate SameAt(p: Pool, q: Pool, v: nat, x: Oid) {
    Existed(q.At(x), v) == Existed(p.At(x), v) && (Existed(p.At(x), v) ==> q.At(x).rid == p.At(x).rid)
  }

  /** What existed at `v` has not been reclaimed. */
  ghost predicate Held(p: Pool, v: nat, x: Oid) {
    Existed(p.At(x), v) ==> x in p.objects && p.At(x).rid in p.stored && p.stored[p.At(x).rid] == x
  }

  ghost predicate Served(db: Db, v: nat) {
    v <= db.maxVersion && (forall x :: Held(db.v, v, x)) && (forall o :: Held(db.e, v, o))
  }

  ghost predicate Active(db: Db, reader: Reader) {
    reader in db.readers
  }

  // Any reader may begin.

  lemma NewReaderHeld(p: Pool, next: Oid, limit: nat, latest: nat, current: Option<Oid>, x: Oid)
    requires PoolOk(p, next, limit, current) && OwnsOk(p, latest)
    ensures Held(p, latest, x)
  {
    assert ObjectOk(p, next, x) && RecentOk(p, latest, x);
  }

  lemma NewReaderServed(db: Db)
    requires Valid(db)
    ensures Served(BeginRead(db), db.maxVersion)
  {
    forall x ensures Held(db.v, db.maxVersion, x) && Held(db.e, db.maxVersion, x) {
      NewReaderHeld(db.v, db.next, Limit(db), db.maxVersion, None, x);
      NewReaderHeld(db.e, db.next, Limit(db), db.maxVersion, db.current, x);
    }
  }

  // Steps.

  /** What existed at version `v` is the same in both stores. */
  ghost predicate SameObjects(db: Db, after: Db, v: nat) {
    (forall x :: SameAt(db.v, after.v, v, x)) && (forall o :: SameAt(db.e, after.e, v, o))
  }

  /** A reader at `v` reads the same everywhere. */
  ghost predicate SameVersion(db: Db, after: Db, v: nat) {
    && SameObjects(db, after, v)
    && (forall s :: ReadAt(after.Adj(s), v) == ReadAt(db.Adj(s), v))
    && (forall t :: ReadAt(after.End(t), v) == ReadAt(db.End(t), v))
  }

  /** The step does not prune the list that `s` is in, or it keeps the entry that a reader at `v` uses at `s`. */
  ghost predicate SparesSpot(db: Db, ev: Event, s: Spot, v: nat)
    requires Enabled(db, ev)
  {
    ev.ExecuteNext? && db.prog[0] == PruneList(s.direction, s.vertex) ==> Keeps(db.Adj(s), db.base, v)
  }

  /** The step does not prune the ends of the edge, or it keeps the entry that a reader at `v` uses at `t`. */
  ghost predicate SparesSide(db: Db, ev: Event, t: Side, v: nat)
    requires Enabled(db, ev)
  {
    ev.VisitEdge? && db.e.mine[ev.rid] == t.edge && db.e.At(t.edge).status.CommittedCreate? ==>
      Keeps(db.End(t), db.base, v)
  }

  /** What was found is found still if it is kept, and otherwise it was there and nothing is found. */
  ghost predicate Survives(was: Option<Oid>, now: Option<Oid>, kept: bool) {
    if kept then now == was else was.Some? && now.None?
  }

  lemma SteadyVersion(db: Db, after: Db, v: nat)
    requires Steady(db, after)
    ensures SameVersion(db, after, v)
  {
    forall x ensures SameAt(db.v, after.v, v, x) {
      assert SamePast(db.v, after.v, x);
    }
    forall o ensures SameAt(db.e, after.e, v, o) {
      assert SamePast(db.e, after.e, o);
    }
  }

  lemma VisitVertexVersion(db: Db, r: RecordId, o: Oid, v: nat)
    requires TablesOk(db) && db.phase.Committing? && Visitable(db.v, r, o) && v <= db.maxVersion
    ensures SameVersion(db, db.CommitVertex(o), v)
  {
    var after, c := db.CommitVertex(o), db.maxVersion + 1;
    forall x ensures SameAt(db.v, after.v, v, x) {
      VisitAlive(db.v, db.next, c, r, o, x);
      StampedKeepsPast(db.v.At(o), c, v);
    }
  }

  lemma VisitEdgeReads(db: Db, r: RecordId, o: Oid, v: nat, t: Side)
    requires Pickable(db, r, o)
    ensures SameObjects(db, db.Pick(o), v) && db.Pick(o).adj == db.adj
    ensures Survives(ReadAt(db.End(t), v), ReadAt(db.Pick(o).End(t), v),
                     db.e.At(o).status.CommittedCreate? && t.edge == o ==> Keeps(db.End(t), db.base, v))
  {
    var after := db.Pick(o);
    assert OwnOk(db.e, db.maxVersion, r) && SideOk(db, t);
    PruneReads(db.End(t), db.base, v);
    forall x ensures SameAt(db.v, after.v, v, x) && SameAt(db.e, after.e, v, x) {
    }
  }

  lemma PruneListReads(db: Db, d: Direction, x: Oid, v: nat, s: Spot)
    requires Executing(db) && db.prog[0] == PruneList(d, x)
    ensures SameObjects(db, db.Execute(), v) && db.Execute().ends == db.ends
    ensures Survives(ReadAt(db.Adj(s), v), ReadAt(db.Execute().Adj(s), v),
                     s.direction == d && s.vertex == x ==> Keeps(db.Adj(s), db.base, v))
  {
    var after := db.Execute();
    PruneListFrame(db, d, x, after);
    forall y ensures SameAt(db.v, after.v, v, y) && SameAt(db.e, after.e, v, y) {
    }
    PruneListIs(db, d, x, after, s);
    PruneReads(db.Adj(s), db.base, v);
  }

  lemma UpgradeVersion(db: Db, t: Spot, v: nat)
    requires Executing(db) && db.prog[0] == Upgrade(t) && v <= db.maxVersion
    ensures SameVersion(db, db.Execute(), v)
  {
    var after, c := db.Execute(), db.maxVersion + 1;
    UpgradeFrame(db, t, after);
    forall y ensures SameAt(db.v, after.v, v, y) && SameAt(db.e, after.e, v, y) {
    }
    forall s ensures ReadAt(after.Adj(s), v) == ReadAt(db.Adj(s), v) {
      assert SpotOk(db, s);
      UpgradeIs(db, t, after, c, s);
      CommitLatest(db.Adj(s), c, db.maxVersion);
    }
  }

  lemma FinishVersion(db: Db, o: Oid, v: nat)
    requires Finishing(db, o) && v <= db.maxVersion
    ensures SameVersion(db, db.Finish(o), v)
  {
    var after, c := db.Finish(o), db.maxVersion + 1;
    forall y ensures SameAt(db.v, after.v, v, y) && SameAt(db.e, after.e, v, y) {
      FinishLooks(db, o, after, NO_RECORD, y);
      StampedKeepsPast(db.e.At(o), c, v);
    }
    forall t ensures ReadAt(after.End(t), v) == ReadAt(db.End(t), v) {
      FinishEnds(db, o, after, c, t);
    }
  }

  /** A step that changes no object and no history. */
  lemma IdleVersion(db: Db, after: Db, v: nat)
    requires after.v.objects == db.v.objects && after.e.objects == db.e.objects
    requires after.adj == db.adj && after.ends == db.ends
    ensures SameVersion(db, after, v)
  {
    forall y ensures SameAt(db.v, after.v, v, y) && SameAt(db.e, after.e, v, y) {
    }
  }

  /** What a step does to the version `v`: it changes no object, and a history only by pruning a live entry. */
  ghost predicate VersionStep(db: Db, ev: Event, v: nat, s: Spot, t: Side)
    requires Enabled(db, ev)
  {
    var after := Apply(db, ev);
    && SameObjects(db, after, v)
    && Survives(ReadAt(db.Adj(s), v), ReadAt(after.Adj(s), v), SparesSpot(db, ev, s, v))
    && Survives(ReadAt(db.End(t), v), ReadAt(after.End(t), v), SparesSide(db, ev, t, v))
  }

  /** A step that prunes nothing. */
  lemma PlainStep(db: Db, ev: Event, v: nat, s: Spot, t: Side)
    requires Enabled(db, ev) && !ev.VisitEdge? && SparesSpot(db, ev, s, v) && SameVersion(db, Apply(db, ev), v)
    ensures VersionStep(db, ev, v, s, t)
  {
  }

  lemma ExecuteVersion(db: Db, v: nat, s: Spot, t: Side)
    requires Valid(db) && Enabled(db, ExecuteNext) && v <= db.maxVersion
    ensures VersionStep(db, ExecuteNext, v, s, t)
  {
    match db.prog[0]
    case PruneList(d, x) => PruneListReads(db, d, x, v, s);
    case Upgrade(u) =>
      UpgradeVersion(db, u, v);
      PlainStep(db, ExecuteNext, v, s, t);
  }

  lemma VisitEdgeVersion(db: Db, r: RecordId, v: nat, s: Spot, t: Side)
    requires Valid(db) && Enabled(db, VisitEdge(r))
    ensures VersionStep(db, VisitEdge(r), v, s, t)
  {
    VisitEdgeReads(db, r, db.e.mine[r], v, t);
  }

  lemma CommitVersion(db: Db, ev: Event, v: nat)
    requires Valid(db) && Enabled(db, ev) && v <= db.maxVersion && db.phase.Committing?
    requires !ev.ExecuteNext? && !ev.VisitEdge?
    ensures SameVersion(db, Apply(db, ev), v)
  {
    match ev
    case VisitVertex(r) => VisitVertexVersion(db, r, db.v.mine[r], v);
    case FinishEdge => FinishVersion(db, db.current.value, v);
    case MakeVisible => IdleVersion(db, Apply(db, ev), v);
    case StartReading => IdleVersion(db, Apply(db, ev), v);
    case StopReading(i) => IdleVersion(db, Apply(db, ev), v);
  }

  /**
   No step changes what existed at a committed version. A step changes what is read there of one list place, or of one
   end, exactly when it prunes that very history and a reader at the version uses the entry that goes.
   */
  lemma StepVersion(db: Db, ev: Event, v: nat, s: Spot, t: Side)
    requires Valid(db) && Enabled(db, ev) && v <= db.maxVersion
    ensures VersionStep(db, ev, v, s, t)
  {
    if ev.ExecuteNext? {
      ExecuteVersion(db, v, s, t);
    } else if ev.VisitEdge? {
      VisitEdgeVersion(db, ev.rid, v, s, t);
    } else {
      if db.phase.Committing? {
        CommitVersion(db, ev, v);
      } else if db.phase.Published? {
        IdleVersion(db, Apply(db, ev), v);
      } else {
        StepSteady(db, ev);
        SteadyVersion(db, Apply(db, ev), v);
      }
      PlainStep(db, ev, v, s, t);
    }
  }

  // Nothing a reader needs is reclaimed.

  /** Everything stored before is stored after. */
  ghost predicate Stores(p: Pool, q: Pool) {
    forall r :: r in p.stored ==> r in q.stored && q.stored[r] == p.stored[r]
  }

  lemma {:induction false} DeleteAllListedStores(db: Db, d: Direction, x: Oid, keys: seq<RecordId>)
    ensures DeleteAllListed(db, d, x, keys).v == db.v && DeleteAllListed(db, d, x, keys).e.stored == db.e.stored
    decreases |keys|
  {
    if keys != [] {
      DeleteAllListedStores(DeleteListed(db, d, x, keys[0]), d, x, keys[1..]);
    }
  }

  lemma MakeStores(db: Db, r: RecordId, x: Oid, y: Oid)
    ensures db.MakeVertex(r).v.stored == db.v.stored && db.MakeVertex(r).e == db.e
    ensures db.MakeEdge(r, x, y).v == db.v && db.MakeEdge(r, x, y).e.stored == db.e.stored
  {
  }

  lemma AddEdgeStores(db: Db, r: RecordId, source: RecordId, target: RecordId)
    ensures var after := DbOf(db, CreateEdge(db, r, source, target));
            after.v.stored == db.v.stored && after.e.stored == db.e.stored
  {
    if db.e.Lookup(r).None? {
      var s, t := db.v.Lookup(source), db.v.Lookup(target);
      var one := if s.None? then db.MakeVertex(source) else db;
      var two := if t.None? then one.MakeVertex(target) else one;
      MakeStores(db, source, 0, 0);
      MakeStores(one, target, 0, 0);
      MakeStores(two, r, if s.None? then db.next else s.value, if t.None? then one.next else t.value);
    }
  }

  lemma UnlistStores(db: Db, d: Direction, o: Oid)
    ensures db.Unlist(d, o).v == db.v && db.Unlist(d, o).e == db.e
  {
  }

  lemma RemoveEdgeStores(db: Db, r: RecordId)
    ensures DeleteEdge(db, r).v == db.v && DeleteEdge(db, r).e.stored == db.e.stored
  {
    if db.e.Lookup(r).Some? {
      var o := db.e.Lookup(r).value;
      UnlistStores(db, Out, o);
      UnlistStores(db.Unlist(Out, o), In, o);
    }
  }

  lemma MoveEdgeStores(db: Db, d: Direction, r: RecordId, x: RecordId)
    ensures var after := DbOf(db, AlterEnd(db, d, r, x));
            after.v.stored == db.v.stored && after.e.stored == db.e.stored
  {
    MakeStores(db, x, 0, 0);
  }

  lemma RemoveVertexStores(db: Db, r: RecordId, ins: seq<RecordId>, outs: seq<RecordId>)
    ensures var after := DeleteVertex(db, r, ins, outs);
            after.v.stored == db.v.stored && after.e.stored == db.e.stored
  {
    if db.v.Lookup(r).Some? {
      var x := db.v.Lookup(r).value;
      DeleteAllListedStores(db, In, x, ins);
      DeleteAllListedStores(DeleteAllListed(db, In, x, ins), Out, x, outs);
    }
  }

  lemma WriteStores(db: Db, ev: Event)
    requires Enabled(db, ev) && db.phase.Writing? && !ev.StopReading?
    ensures Apply(db, ev).v.stored == db.v.stored && Apply(db, ev).e.stored == db.e.stored
  {
    match ev
    case AddEdge(r, s, t) => AddEdgeStores(db, r, s, t);
    case RemoveEdge(r) => RemoveEdgeStores(db, r);
    case MoveEdge(d, r, x) => MoveEdgeStores(db, d, r, x);
    case RemoveVertex(r, ins, outs) => RemoveVertexStores(db, r, ins, outs);
    case _ =>
  }

  lemma CommitStores(db: Db, ev: Event)
    requires Enabled(db, ev) && db.phase.Committing? && !ev.StopReading?
    ensures Stores(db.v, Apply(db, ev).v) && Stores(db.e, Apply(db, ev).e)
  {
  }

  lemma StepStores(db: Db, ev: Event)
    requires Enabled(db, ev) && !ev.StopReading? && db.readers != []
    ensures Stores(db.v, Apply(db, ev).v) && Stores(db.e, Apply(db, ev).e)
  {
    if db.phase.Writing? {
      WriteStores(db, ev);
    } else if db.phase.Committing? {
      CommitStores(db, ev);
    }
  }

  lemma StillHeld(p: Pool, q: Pool, v: nat, x: Oid)
    requires Held(p, v, x) && SameAt(p, q, v, x)
    requires var r := p.At(x).rid; Existed(p.At(x), v) && r in p.stored ==> r in q.stored && q.stored[r] == p.stored[r]
    ensures Held(q, v, x)
  {
  }

  /** A reader that goes on is still served after any step, whatever is pruned. */
  lemma StepServes(db: Db, ev: Event, reader: Reader)
    requires Valid(db) && Enabled(db, ev) && Active(db, reader) && Served(db, reader.version)
    requires !Ends(db, ev, reader)
    ensures Served(Apply(db, ev), reader.version)
  {
    var after, v := Apply(db, ev), reader.version;
    StepVersion(db, ev, v, Spot(Out, 0, NO_RECORD), Side(Out, 0));
    VersionGrows(db, ev);
    if !ev.StopReading? {
      StepStores(db, ev);
    }
    forall x ensures Held(after.v, v, x) && Held(after.e, v, x) {
      assert Held(db.v, v, x) && Held(db.e, v, x) && SameAt(db.v, after.v, v, x) && SameAt(db.e, after.e, v, x);
      if ev.StopReading? {
        var j :| 0 <= j < |db.readers| && db.readers[j] == reader;
        EndReadSpares(db, ev.index, j, db.v.At(x).rid);
        EndReadSpares(db, ev.index, j, db.e.At(x).rid);
      }
      StillHeld(db.v, after.v, v, x);
      StillHeld(db.e, after.e, v, x);
    }
  }

  lemma {:induction false} DeleteAllListedVersions(db: Db, d: Direction, x: Oid, keys: seq<RecordId>)
    ensures var after := DeleteAllListed(db, d, x, keys);
            after.maxVersion == db.maxVersion && after.readers == db.readers
    decreases |keys|
  {
    if keys != [] {
      DeleteAllListedVersions(DeleteListed(db, d, x, keys[0]), d, x, keys[1..]);
    }
  }

  lemma VersionGrows(db: Db, ev: Event)
    requires Enabled(db, ev)
    ensures Apply(db, ev).maxVersion >= db.maxVersion
    ensures !ev.StopReading? && !ev.StartReading? ==> Apply(db, ev).readers == db.readers
  {
    if ev.RemoveVertex? && db.v.Lookup(ev.rid).Some? {
      var x := db.v.Lookup(ev.rid).value;
      DeleteAllListedVersions(db, In, x, ev.ins);
      DeleteAllListedVersions(DeleteAllListed(db, In, x, ev.ins), Out, x, ev.outs);
    }
  }

  ghost predicate Ends(db: Db, ev: Event, reader: Reader) {
    ev.StopReading? && ev.index < |db.readers| && db.readers[ev.index] == reader
  }

  lemma StaysActive(db: Db, ev: Event, reader: Reader)
    requires Enabled(db, ev) && Active(db, reader) && !Ends(db, ev, reader)
    ensures Active(Apply(db, ev), reader)
  {
    VersionGrows(db, ev);
    if ev.StopReading? {
      var rs, i := db.readers, ev.index;
      var j :| 0 <= j < |rs| && rs[j] == reader;
      assert (rs[..i] + rs[i + 1..])[if j < i then j else j - 1] == reader;
    }
  }

  // Whole runs.

  /** The reader does not end. */
  ghost predicate ReadsThrough(db: Db, evs: seq<Event>, reader: Reader)
    requires IsRun(db, evs)
    decreases |evs|
  {
    evs == [] || (!Ends(db, evs[0], reader) && ReadsThrough(Apply(db, evs[0]), evs[1..], reader))
  }

  /** No step of the run prunes what a reader at `v` uses at `s`. */
  ghost predicate SpotSpared(db: Db, evs: seq<Event>, s: Spot, v: nat)
    requires IsRun(db, evs)
    decreases |evs|
  {
    evs == [] || (SparesSpot(db, evs[0], s, v) && SpotSpared(Apply(db, evs[0]), evs[1..], s, v))
  }

  ghost predicate SideSpared(db: Db, evs: seq<Event>, t: Side, v: nat)
    requires IsRun(db, evs)
    decreases |evs|
  {
    evs == [] || (SparesSide(db, evs[0], t, v) && SideSpared(Apply(db, evs[0]), evs[1..], t, v))
  }

  lemma SameObjectsThen(a: Db, b: Db, c: Db, v: nat)
    requires SameObjects(a, b, v) && SameObjects(b, c, v)
    ensures SameObjects(a, c, v)
  {
    forall x ensures SameAt(a.v, c.v, v, x) && SameAt(a.e, c.e, v, x) {
      assert SameAt(a.v, b.v, v, x) && SameAt(b.v, c.v, v, x) && SameAt(a.e, b.e, v, x) && SameAt(b.e, c.e, v, x);
    }
  }

  /** Over a whole run: what is read once is read to the end, exactly if no step prunes it. */
  lemma {:induction false} RunVersion(db: Db, evs: seq<Event>, v: nat, s: Spot, t: Side)
    requires Valid(db) && IsRun(db, evs) && v <= db.maxVersion
    ensures SameObjects(db, After(db, evs), v)
    ensures Survives(ReadAt(db.Adj(s), v), ReadAt(After(db, evs).Adj(s), v), SpotSpared(db, evs, s, v))
    ensures Survives(ReadAt(db.End(t), v), ReadAt(After(db, evs).End(t), v), SideSpared(db, evs, t, v))
    decreases |evs|
  {
    if evs == [] {
      IdleVersion(db, db, v);
    } else {
      var one := Apply(db, evs[0]);
      StepKeeps(db, evs[0]);
      StepVersion(db, evs[0], v, s, t);
      VersionGrows(db, evs[0]);
      RunVersion(one, evs[1..], v, s, t);
      SameObjectsThen(db, one, After(db, evs), v);
    }
  }

  lemma {:induction false} RunServes(db: Db, evs: seq<Event>, reader: Reader)
    requires Valid(db) && IsRun(db, evs) && Active(db, reader) && Served(db, reader.version)
    requires ReadsThrough(db, evs, reader)
    ensures Served(After(db, evs), reader.version) && Active(After(db, evs), reader)
    decreases |evs|
  {
    if evs != [] {
      StepKeeps(db, evs[0]);
      StepServes(db, evs[0], reader);
      StaysActive(db, evs[0], reader);
      RunServes(Apply(db, evs[0]), evs[1..], reader);
    }
  }

  // What the reader's calls return.

  /** What existed at the reader's version is what the code's visibility test shows, apart from later creations. */
  lemma VisibleIffExisted(e: Element, v: nat)
    requires e.status.CommittedCreate? || e.status.UncommittedDelete? ==> e.born == e.version
    ensures Existed(e, v) ==> !HiddenAt(e, v)
    ensures !HiddenAt(e, v) && !Existed(e, v) <==>
              e.born > v && (e.status.UncommittedDelete? || (e.status.CommittedDelete? && v < e.version))
  {
  }

  /** A served reader finds everything that existed at its version, and every pointer it reads can be followed. */
  lemma ServedReads(db: Db, v: nat, s: Spot, t: Side)
    requires Valid(db) && Served(db, v)
    ensures Existed(db.v.At(s.vertex), v) ==>
              db.v.LookupAt(db.v.At(s.vertex).rid, v) == Some(s.vertex) && ListedAt(db, s, v) == ReadAt(db.Adj(s), v)
    ensures Existed(db.e.At(t.edge), v) ==>
              db.e.LookupAt(db.e.At(t.edge).rid, v) == Some(t.edge) && EndAt(db, t, v) == ReadAt(db.End(t), v)
  {
    assert Held(db.v, v, s.vertex) && ObjectOk(db.v, db.next, s.vertex) && ListedExisted(db, s, v);
    assert Held(db.e, v, t.edge) && ObjectOk(db.e, db.next, t.edge) && EndExisted(db, t, v);
    if ReadAt(db.Adj(s), v).Some? {
      assert Held(db.e, v, ReadAt(db.Adj(s), v).value);
    }
    if ReadAt(db.End(t), v).Some? {
      assert Held(db.v, v, ReadAt(db.End(t), v).value);
    }
  }

  /** A vertex that existed at `v` is found in both stores; its list shows the same at `s` if that is kept. */
  ghost predicate ListAnswers(db: Db, after: Db, v: nat, s: Spot, kept: bool) {
    Existed(db.v.At(s.vertex), v) ==>
      var r := db.v.At(s.vertex).rid;
      && db.v.LookupAt(r, v) == Some(s.vertex) == after.v.LookupAt(r, v)
      && Survives(ListedAt(db, s, v), ListedAt(after, s, v), kept)
  }

  /** An edge that existed at `v` is found in both stores; it ends at the same vertex at `t` if that is kept. */
  ghost predicate EndAnswers(db: Db, after: Db, v: nat, t: Side, kept: bool) {
    Existed(db.e.At(t.edge), v) ==>
      var r := db.e.At(t.edge).rid;
      && db.e.LookupAt(r, v) == Some(t.edge) == after.e.LookupAt(r, v)
      && Survives(EndAt(db, t, v), EndAt(after, t, v), kept)
  }

  lemma ReaderAnswers(db: Db, evs: seq<Event>, reader: Reader, s: Spot, t: Side)
    requires Valid(db) && IsRun(db, evs) && Active(db, reader) && Served(db, reader.version)
    requires ReadsThrough(db, evs, reader)
    ensures var after, v := After(db, evs), reader.version;
            && ListAnswers(db, after, v, s, SpotSpared(db, evs, s, v))
            && EndAnswers(db, after, v, t, SideSpared(db, evs, t, v))
  {
    var after, v := After(db, evs), reader.version;
    RunVersion(db, evs, v, s, t);
    RunServes(db, evs, reader);
    RunKeeps(db, evs);
    assert SameAt(db.v, after.v, v, s.vertex) && SameAt(db.e, after.e, v, t.edge);
    ServedReads(db, v, s, t);
    ServedReads(after, v, s, t);
  }

  /**
   A reader that begins in any reachable state finds every vertex and edge of its version at any later time while it
   reads, whatever transactions commit or roll back meanwhile. What it reads of one place of one list, or of one end of
   one edge, stays the same exactly if no commit prunes the entry it uses there; otherwise it finds nothing there.
   */
  lemma SnapshotIsStable(before: seq<Event>, evs: seq<Event>, s: Spot, t: Side)
    requires IsRun(START, before)
    requires var db := BeginRead(After(START, before));
             IsRun(db, evs) && ReadsThrough(db, evs, db.readers[|db.readers| - 1])
    ensures var db := BeginRead(After(START, before));
            && ListAnswers(db, After(db, evs), db.maxVersion, s, SpotSpared(db, evs, s, db.maxVersion))
            && EndAnswers(db, After(db, evs), db.maxVersion, t, SideSpared(db, evs, t, db.maxVersion))
  {
    StartValid();
    RunKeeps(START, before);
    BeginReadKeeps(After(START, before));
    NewReaderServed(After(START, before));
    var db := BeginRead(After(START, before));
    ReaderAnswers(db, evs, db.readers[|db.readers| - 1], s, t);
  }

  // Every reader of every reachable state.

  ghost predicate AllServed(db: Db) {
    forall reader :: Active(db, reader) ==> Served(db, reader.version)
  }

  lemma StepServesAll(db: Db, ev: Event)
    requires Valid(db) && Enabled(db, ev) && AllServed(db)
    ensures AllServed(Apply(db, ev))
  {
    forall reader | Active(Apply(db, ev), reader) ensures Served(Apply(db, ev), reader.version) {
      if ev.StartReading? && reader == Reader(db.nextTxn, db.maxVersion) {
        NewReaderServed(db);
      } else {
        WasActive(db, ev, reader);
        StepServes(db, ev, reader);
      }
    }
  }

  /** A reader that is active after a step and did not begin with it was active before. */
  lemma WasActive(db: Db, ev: Event, reader: Reader)
    requires Valid(db) && Enabled(db, ev) && Active(Apply(db, ev), reader)
    requires ev.StartReading? ==> reader != Reader(db.nextTxn, db.maxVersion)
    ensures Active(db, reader) && !Ends(db, ev, reader)
  {
    VersionGrows(db, ev);
    if ev.StopReading? {
      var rs, i := db.readers, ev.index;
      var j :| 0 <= j < |rs| - 1 && (rs[..i] + rs[i + 1..])[j] == reader;
      assert rs[if j < i then j else j + 1] == reader;
    }
  }

  lemma {:induction false} RunServesAll(db: Db, evs: seq<Event>)
    requires Valid(db) && IsRun(db, evs) && AllServed(db)
    ensures AllServed(After(db, evs))
    decreases |evs|
  {
    if evs != [] {
      StepKeeps(db, evs[0]);
      StepServesAll(db, evs[0]);
      RunServesAll(Apply(db, evs[0]), evs[1..]);
    }
  }

  /** In every reachable state nothing has been reclaimed that existed at the version of any active reader. */
  lemma ReadersAreServed(evs: seq<Event>)
    requires IsRun(START, evs)
    ensures AllServed(After(START, evs))
  {
    StartValid();
    RunServesAll(START, evs);
  }

  // Transactions that roll back.

  /** Transactions that roll back are not seen by any reader, neither while they run nor afterwards. */
  lemma RollbackIsUnseen(db: Db, evs: seq<Event>, reader: Reader, s: Spot, t: Side)
    requires Valid(db) && IsRun(db, evs) && (db.phase.Idle? || db.phase.Writing?) && NoCommit(evs)
    requires Active(db, reader) && Served(db, reader.version) && ReadsThrough(db, evs, reader)
    ensures ListAnswers(db, After(db, evs), reader.version, s, true)
    ensures EndAnswers(db, After(db, evs), reader.version, t, true)
  {
    RunSteady(db, evs);
    SteadyVersion(db, After(db, evs), reader.version);
    RunVersion(db, evs, reader.version, s, t);
    ReaderAnswers(db, evs, reader, s, t);
  }
}
