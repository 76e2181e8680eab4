/**
 A commit publishes exactly what its writer saw.
 */
module Publication {
  import opened Common
  import opened Histories
  import opened Store
  import opened StoreInvariant
  import opened StoreCommit
  import opened StoreUpgrade
  import opened StorePublish
  import opened StoreReaders
  import opened StoreRuns
  import opened Snapshots

  lemma SameViewThen(a: Db, b: Db, c: Db)
    requires SameView(a, b) && SameView(b, c)
    ensures SameView(a, c)
  {
  }

  lemma EndReadView(db: Db, i: nat)
    requires Valid(db) && i < |db.readers|
    ensures SameView(db, EndRead(db, i))
  {
    SweptByKeeps(db, i);
    SameViewFrame(db, SweptBy(db, i), EndRead(db, i));
  }

  lemma SameViewFrame(db: Db, swept: Db, after: Db)
    requires SameView(db, swept) && after == swept.(readers := after.readers, phase := after.phase)
    ensures SameView(db, after)
  {
  }

  lemma SweepView(db: Db)
    requires Valid(db)
    ensures SameView(db, Sweep(db))
  {
    if db.readers == [] {
      ReclaimKeeps(db, db.maxVersion);
      SameViewFrame(db, db.Reclaim(db.maxVersion), Sweep(db));
    }
  }

  lemma CommitView(db: Db, ev: Event)
    requires Valid(db) && Enabled(db, ev) && db.phase.Committing?
    ensures SameView(db, Apply(db, ev))
  {
    match ev
    case VisitVertex(r) => CommitVertexView(db, r, db.v.mine[r]);
    case VisitEdge(r) => PickView(db, r, db.e.mine[r], db.Pick(db.e.mine[r]));
    case ExecuteNext =>
      match db.prog[0] {
        case PruneList(d, x) => PruneListHistories(db, d, x, db.Execute());
        case Upgrade(s) =>
          assert InstrOk(db, s);
          UpgradeHistories(db, s, db.Execute(), db.maxVersion + 1);
      }
    case FinishEdge => FinishView(db, db.current.value, db.Finish(db.current.value));
    case MakeVisible => PublishTables(db, db.Publish());
    case StartReading =>
    case StopReading(i) => EndReadView(db, i);
  }

  /** From the start of a commit until the next transaction, no step changes what a writer would see. */
  lemma StepView(db: Db, ev: Event)
    requires Valid(db) && Enabled(db, ev) && !ev.BeginWrite? && (db.phase.Writing? ==> ev.StartCommitting?)
    ensures SameView(db, Apply(db, ev))
  {
    if db.phase.Committing? {
      CommitView(db, ev);
    } else if ev.StartCommitting? {
      StartCommitKeeps(db);
    } else if ev.SweepUp? {
      SweepView(db);
    } else if ev.StopReading? {
      EndReadView(db, ev.index);
    }
  }

  /** The phase and the version, once a commit has started. */
  ghost predicate Progress(db: Db, latest: nat) {
    if db.phase.Committing? then db.maxVersion == latest
    else (db.phase.Published? || db.phase.Idle?) && db.maxVersion == latest + 1
  }

  lemma StepProgress(db: Db, ev: Event, latest: nat)
    requires Enabled(db, ev) && !ev.BeginWrite? && Progress(db, latest)
    ensures Progress(Apply(db, ev), latest)
  {
  }

  ghost predicate NoWriter(evs: seq<Event>) {
    forall i :: 0 <= i < |evs| ==> !evs[i].BeginWrite?
  }

  lemma {:induction false} RunView(db: Db, evs: seq<Event>, latest: nat)
    requires Valid(db) && IsRun(db, evs) && NoWriter(evs) && Progress(db, latest)
    ensures SameView(db, After(db, evs)) && Progress(After(db, evs), latest)
    decreases |evs|
  {
    if evs != [] {
      var one := Apply(db, evs[0]);
      StepKeeps(db, evs[0]);
      StepView(db, evs[0]);
      StepProgress(db, evs[0], latest);
      RunView(one, evs[1..], latest);
      SameViewThen(db, one, After(db, evs));
    }
  }

  // A reader at the newest version of a quiet store.

  lemma NewestLookup(p: Pool, next: Oid, c: nat, r: RecordId)
    requires PoolOk(p, next, c, None) && p.todo == {}
    ensures p.LookupAt(r, c) == p.Lookup(r)
  {
    QuietStored(p, next, c, r);
    assert StoredOk(p, c, None, r);
  }

  lemma NewestList(db: Db, s: Spot)
    requires Quiet(db) && Limit(db) == db.maxVersion && db.v.Alive(s.vertex)
    ensures ListedAt(db, s, db.maxVersion) == Listed(db, s)
  {
    assert SpotOk(db, s);
    ReadAtTip(db.Adj(s), db.maxVersion);
    QuietSpot(db, s);
  }

  lemma NewestEnd(db: Db, d: Direction, r: RecordId)
    requires Quiet(db) && Limit(db) == db.maxVersion && EdgeAgrees(db, d, r) && db.e.Lookup(r).Some?
    ensures EndAt(db, Side(d, db.e.Lookup(r).value), db.maxVersion) == Latest(db.End(Side(d, db.e.Lookup(r).value)))
  {
    var o := db.e.Lookup(r).value;
    assert SideOk(db, Side(d, o)) && StoredOk(db.e, Limit(db), None, r) && MineOk(db.e, None, r);
    ReadAtTip(db.End(Side(d, o)), db.maxVersion);
    QuietEnd(db, d, o);
    QuietLive(db.v, db.next, Limit(db), Latest(db.End(Side(d, o))).value);
  }

  /** Lists of vertices that a writer finds are the same in stores with the same view. */
  lemma SameLists(db: Db, after: Db, s: Spot)
    requires Valid(db) && Valid(after) && SameView(db, after)
    requires db.v.Lookup(db.v.At(s.vertex).rid) == Some(s.vertex)
    ensures Listed(after, s) == Listed(db, s)
  {
    assert SpotAgrees(db, s);
    assert StoredOk(after.e, Limit(after), after.current, s.edge) && MineOk(after.e, after.current, s.edge);
  }

  /** A reader at version `c` of `after` finds what a writer finds in `db`. */
  ghost predicate Publishes(db: Db, after: Db, c: nat, d: Direction, r: RecordId) {
    && after.v.LookupAt(r, c) == db.v.Lookup(r) && after.e.LookupAt(r, c) == db.e.Lookup(r)
    && (db.v.Lookup(r).Some? ==>
          forall k :: ListedAt(after, Spot(d, db.v.Lookup(r).value, k), c)
                      == Listed(db, Spot(d, db.v.Lookup(r).value, k)))
    && (db.e.Lookup(r).Some? ==>
          var t := Side(d, db.e.Lookup(r).value);
          EndAt(after, t, c) == Latest(db.End(t)))
  }

  lemma QuietPublishes(db: Db, after: Db, d: Direction, r: RecordId)
    requires Valid(db) && Valid(after) && SameView(db, after) && (after.phase.Published? || after.phase.Idle?)
    ensures Publishes(db, after, after.maxVersion, d, r)
  {
    var c := after.maxVersion;
    NewestLookup(after.v, after.next, c, r);
    NewestLookup(after.e, after.next, c, r);
    if db.v.Lookup(r).Some? {
      var x := db.v.Lookup(r).value;
      assert StoredOk(db.v, Limit(db), None, r) && MineOk(db.v, None, r);
      QuietLive(after.v, after.next, c, x);
      forall k ensures ListedAt(after, Spot(d, x, k), c) == Listed(db, Spot(d, x, k)) {
        NewestList(after, Spot(d, x, k));
        SameLists(db, after, Spot(d, x, k));
      }
    }
    if db.e.Lookup(r).Some? {
      assert EdgeAgrees(after, d, r);
      NewestEnd(after, d, r);
    }
  }

  /**
   Whatever order the commit takes and whatever readers come and go meanwhile, once it has made its version visible a
   reader at that version finds exactly the vertices, edges, ends and lists that the writer saw when it committed.
   */
  lemma CommitPublishes(db: Db, evs: seq<Event>, d: Direction, r: RecordId)
    requires Valid(db) && db.phase.Writing? && IsRun(StartCommit(db), evs) && NoWriter(evs)
    requires !After(StartCommit(db), evs).phase.Committing?
    ensures Publishes(db, After(StartCommit(db), evs), db.maxVersion + 1, d, r)
  {
    var start := StartCommit(db);
    StartCommitKeeps(db);
    RunKeeps(start, evs);
    RunView(start, evs, db.maxVersion);
    SameViewThen(db, start, After(start, evs));
    QuietPublishes(db, After(start, evs), d, r);
  }
}
