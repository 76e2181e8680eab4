/**
 Readers come and go and deleted elements are reclaimed without disturbing the invariant or any reader that remains.
 */
module StoreReaders {
  import opened Common
  import opened Store
  import opened StoreInvariant
  import opened StoreCommit

  // The steps.

  function BeginRead(db: Db): Db {
    db.(readers := db.readers + [Reader(db.nextTxn, db.maxVersion)], nextTxn := db.nextTxn + 1)
  }

  /** What `isLastMinVersionId` answers for the `i`-th of the active readers, in order of transaction id. */
  predicate IsLastOldest(readers: seq<Reader>, i: nat)
    requires i < |readers|
  {
    i == 0 && (|readers| == 1 || readers[0].version < readers[1].version)
  }

  /** A reader that is the last of the oldest version reclaims what was deleted by the next version. */
  function SweptBy(db: Db, i: nat): (swept: Db)
    requires i < |db.readers|
    ensures swept == db.(v := swept.v, e := swept.e)
  {
    if IsLastOldest(db.readers, i) then db.Reclaim(db.readers[i].version + 1) else db
  }

  function EndRead(db: Db, i: nat): Db
    requires i < |db.readers|
  {
    SweptBy(db, i).(readers := db.readers[..i] + db.readers[i + 1..])
  }

  /** The end of a commit: with no active reader, everything deleted is reclaimed at once. */
  function Sweep(db: Db): Db {
    (if db.readers == [] then db.Reclaim(db.maxVersion) else db).(phase := Idle)
  }

  // What reclaiming removes.

  lemma ReclaimIs(p: Pool, bound: nat, r: RecordId)
    ensures r in p.Reclaim(bound).stored ==> r in p.stored && p.Reclaim(bound).stored[r] == p.stored[r]
    ensures r in p.stored && r !in p.Reclaim(bound).stored ==>
              exists i :: 0 <= i < p.Due(bound) && p.queue[i].rid == r && p.queue[i].version <= bound
    ensures forall i :: 0 <= i < p.Due(bound) ==> p.queue[i].rid !in p.Reclaim(bound).stored
  {
    var n := p.Due(bound);
    var gone := set t | t in p.queue[..n] :: t.rid;
    if r in gone {
      var t :| t in p.queue[..n] && t.rid == r;
      var i :| 0 <= i < n && p.queue[..n][i] == t;
      assert p.queue[i].rid == r;
    }
    forall i | 0 <= i < n ensures p.queue[i].rid in gone {
      assert p.queue[..n][i] == p.queue[i];
    }
  }

  /** Exactly the elements whose deletion is visible, and committed at or before the bound, are removed. */
  lemma ReclaimRemoves(p: Pool, latest: nat, bound: nat, r: RecordId)
    requires QueueOk(p, latest) && r in p.stored
    ensures r !in p.Reclaim(bound).stored <==> Gone(p.At(p.stored[r]), latest) && Gone(p.At(p.stored[r]), bound)
  {
    ReclaimIs(p, bound, r);
    if r !in p.Reclaim(bound).stored {
      var i :| 0 <= i < p.Due(bound) && p.queue[i].rid == r && p.queue[i].version <= bound;
      assert TombOk(p, latest, p.queue[i]);
    }
    if Gone(p.At(p.stored[r]), latest) && Gone(p.At(p.stored[r]), bound) {
      var n, t := p.Due(bound), Tomb(r, p.At(p.stored[r]).version);
      var i :| 0 <= i < |p.queue| && p.queue[i] == t;
      assert i < n;
    }
  }

  lemma ReclaimPool(p: Pool, next: Oid, limit: nat, latest: nat, current: Option<Oid>, bound: nat)
    requires PoolOk(p, next, limit, current) && OwnsOk(p, latest) && QueueOk(p, latest)
    ensures PoolOk(p.Reclaim(bound), next, limit, current) && OwnsOk(p.Reclaim(bound), latest)
  {
    var q := p.Reclaim(bound);
    forall r ensures r in q.stored ==> r in p.stored && q.stored[r] == p.stored[r] {
      ReclaimIs(p, bound, r);
    }
    forall o ensures ObjectOk(q, next, o) && VersionOk(q, limit, o) {
      assert ObjectOk(p, next, o) && VersionOk(p, limit, o);
      if o in p.objects && p.objects[o].rid in p.stored && p.objects[o].rid !in q.stored {
        ReclaimRemoves(p, latest, bound, p.objects[o].rid);
      }
    }
    forall o ensures RecentOk(q, latest, o) {
      assert RecentOk(p, latest, o);
      if o in p.objects && p.objects[o].rid in p.stored && p.objects[o].rid !in q.stored {
        ReclaimRemoves(p, latest, bound, p.objects[o].rid);
      }
    }
    forall r ensures StoredOk(q, limit, current, r) {
      assert StoredOk(p, limit, current, r);
    }
    forall r ensures MineOk(q, current, r) && OwnOk(q, latest, r) {
      assert MineOk(p, current, r) && OwnOk(p, latest, r);
      if r in p.stored && r !in q.stored {
        ReclaimRemoves(p, latest, bound, r);
      }
    }
  }

  /** Reclaiming changes no lookup by the writer and only makes deleted objects unreachable. */
  lemma ReclaimLooks(p: Pool, next: Oid, limit: nat, latest: nat, current: Option<Oid>, bound: nat, r: RecordId, o: Oid)
    requires PoolOk(p, next, limit, current) && OwnsOk(p, latest) && QueueOk(p, latest)
    ensures p.Reclaim(bound).Lookup(r) == p.Lookup(r)
    ensures p.Reclaim(bound).Alive(o) ==> p.Alive(o)
    ensures p.Alive(o) && !Gone(p.At(o), bound) ==> p.Reclaim(bound).Alive(o)
    ensures Standing(p.Reclaim(bound), o) == Standing(p, o)
    ensures p.Reclaim(bound).objects == p.objects && p.Reclaim(bound).mine == p.mine && p.Reclaim(bound).todo == p.todo
    ensures r in p.stored && !Gone(p.At(p.stored[r]), latest) ==>
              r in p.Reclaim(bound).stored && p.Reclaim(bound).stored[r] == p.stored[r]
  {
    assert MineOk(p, current, r) && OwnOk(p, latest, r);
    ReclaimIs(p, bound, r);
    if r in p.stored && r !in p.Reclaim(bound).stored {
      ReclaimRemoves(p, latest, bound, r);
    }
    if o in p.objects {
      var k := p.objects[o].rid;
      ReclaimIs(p, bound, k);
      if k in p.stored && k !in p.Reclaim(bound).stored {
        ReclaimRemoves(p, latest, bound, k);
      }
    }
  }

  /** What stays in the queue stays stored. */
  lemma ReclaimTomb(p: Pool, latest: nat, bound: nat, i: nat)
    requires QueueOk(p, latest) && p.Due(bound) <= i < |p.queue|
    ensures TombOk(p.Reclaim(bound), latest, p.queue[i])
  {
    var t := p.queue[i];
    assert TombOk(p, latest, t);
    ReclaimIs(p, bound, t.rid);
    assert forall j :: 0 <= j < p.Due(bound) ==> p.queue[j].rid != t.rid;
  }

  /** What stays stored stays queued. */
  lemma ReclaimComplete(p: Pool, latest: nat, bound: nat, r: RecordId)
    requires QueueOk(p, latest) && r in p.Reclaim(bound).stored && r in p.stored && Gone(p.At(p.stored[r]), latest)
    ensures Tomb(r, p.At(p.stored[r]).version) in p.Reclaim(bound).queue
  {
    var n, t := p.Due(bound), Tomb(r, p.At(p.stored[r]).version);
    var i :| 0 <= i < |p.queue| && p.queue[i] == t;
    ReclaimIs(p, bound, r);
    assert p.Reclaim(bound).queue[i - n] == t;
  }

  lemma ReclaimDropped(p: Pool, latest: nat, bound: nat)
    requires QueueOk(p, latest) && DroppedOk(p, latest)
    ensures DroppedOk(p.Reclaim(bound), latest)
  {
    var q := p.Reclaim(bound);
    forall r ensures r in q.stored ==> r in p.stored && q.stored[r] == p.stored[r] {
      ReclaimIs(p, bound, r);
    }
    forall r | r in p.dropped ensures r in q.stored {
      if r !in q.stored {
        ReclaimRemoves(p, latest, bound, r);
      }
    }
  }

  lemma ReclaimQueue(p: Pool, latest: nat, bound: nat)
    requires QueueOk(p, latest)
    ensures QueueOk(p.Reclaim(bound), latest)
  {
    var q, n := p.Reclaim(bound), p.Due(bound);
    forall i | 0 <= i < |q.queue| ensures TombOk(q, latest, q.queue[i]) {
      ReclaimTomb(p, latest, bound, n + i);
    }
    forall r | r in q.stored && Gone(q.At(q.stored[r]), latest) ensures Tomb(r, q.At(q.stored[r]).version) in q.queue {
      ReclaimIs(p, bound, r);
      ReclaimComplete(p, latest, bound, r);
    }
  }

  // Reclaiming keeps the invariant.

  lemma ReclaimTables(db: Db, bound: nat)
    requires TablesOk(db) && OwnsOk(db.v, db.maxVersion) && OwnsOk(db.e, db.maxVersion) && PhaseOk(db)
    requires QueueOk(db.v, db.maxVersion) && QueueOk(db.e, db.maxVersion)
    ensures var after := db.Reclaim(bound);
            && TablesOk(after) && OwnsOk(after.v, db.maxVersion) && OwnsOk(after.e, db.maxVersion) && PhaseOk(after)
  {
    ReclaimPool(db.v, db.next, Limit(db), db.maxVersion, None, bound);
    ReclaimPool(db.e, db.next, Limit(db), db.maxVersion, db.current, bound);
    if db.current.Some? {
      var r := db.e.At(db.current.value).rid;
      assert MineOk(db.e, db.current, r);
      ReclaimLooks(db.e, db.next, Limit(db), db.maxVersion, db.current, bound, r, 0);
    }
  }

  /** What reclaiming leaves the same, for all keys at once. */
  ghost predicate Reclaimed(p: Pool, q: Pool, latest: nat) {
    && (forall r :: q.Lookup(r) == p.Lookup(r)) && (forall o :: q.Alive(o) ==> p.Alive(o))
    && (forall o :: Standing(q, o) == Standing(p, o))
    && q.objects == p.objects && q.mine == p.mine && q.todo == p.todo
    && (forall r :: r in p.stored && !Gone(p.At(p.stored[r]), latest) ==> r in q.stored && q.stored[r] == p.stored[r])
  }

  lemma ReclaimedPool(p: Pool, next: Oid, limit: nat, latest: nat, current: Option<Oid>, bound: nat)
    requires PoolOk(p, next, limit, current) && OwnsOk(p, latest) && QueueOk(p, latest)
    ensures Reclaimed(p, p.Reclaim(bound), latest)
  {
    var q := p.Reclaim(bound);
    forall r ensures q.Lookup(r) == p.Lookup(r)
                     && (r in p.stored && !Gone(p.At(p.stored[r]), latest) ==>
                           r in q.stored && q.stored[r] == p.stored[r])
    {
      ReclaimLooks(p, next, limit, latest, current, bound, r, 0);
    }
    forall o ensures (q.Alive(o) ==> p.Alive(o)) && Standing(q, o) == Standing(p, o) {
      ReclaimLooks(p, next, limit, latest, current, bound, NO_RECORD, o);
    }
  }

  ghost predicate ReclaimedDb(db: Db, after: Db) {
    && after == db.(v := after.v, e := after.e)
    && Reclaimed(db.v, after.v, db.maxVersion) && Reclaimed(db.e, after.e, db.maxVersion)
  }

  lemma ReclaimHistories(db: Db, after: Db)
    requires HistoriesOk(db) && ReclaimedDb(db, after)
    ensures HistoriesOk(after)
  {
    forall s ensures SpotOk(after, s) {
      assert SpotOk(db, s);
    }
    forall s ensures SideOk(after, s) {
      assert SideOk(db, s);
    }
  }

  lemma ReclaimSettled(db: Db, after: Db)
    requires Settled(db) && ReclaimedDb(db, after)
    ensures Settled(after)
  {
    forall d, o ensures EdgeSettled(after, d, o) {
      assert EdgeSettled(db, d, o);
    }
    forall s ensures SpotSettled(after, s) {
      assert SpotSettled(db, s);
    }
  }

  lemma ReclaimPending(db: Db, after: Db)
    requires Pending(db) && ReclaimedDb(db, after)
    ensures Pending(after)
  {
    forall s ensures Promised(after, s) && Harmless(after, s) && InstrOk(after, s) {
      assert Promised(db, s) && Harmless(db, s) && InstrOk(db, s);
      assert Owed(after, s) == Owed(db, s);
    }
    forall s ensures SidePending(after, s) {
      assert SidePending(db, s);
    }
  }

  lemma ReclaimCommitted(db: Db, after: Db)
    requires Committed(db) && ReclaimedDb(db, after)
    ensures Committed(after)
  {
    forall s ensures TipStored(after, s) {
      assert TipStored(db, s);
    }
    forall s, v: nat ensures ListedExisted(after, s, v) {
      assert ListedExisted(db, s, v);
    }
    forall s, v: nat ensures EndExisted(after, s, v) {
      assert EndExisted(db, s, v);
    }
  }

  lemma ReclaimKeeps(db: Db, bound: nat)
    requires Valid(db)
    ensures Valid(db.Reclaim(bound)) && SameView(db, db.Reclaim(bound))
  {
    var after := db.Reclaim(bound);
    ReclaimedPool(db.v, db.next, Limit(db), db.maxVersion, None, bound);
    ReclaimedPool(db.e, db.next, Limit(db), db.maxVersion, db.current, bound);
    ReclaimTables(db, bound);
    ReclaimHistories(db, after);
    SameViewAgrees(db, after);
    if !db.phase.Committing? {
      ReclaimSettled(db, after);
    }
    ReclaimPending(db, after);
    ReclaimCommitted(db, after);
    ReclaimQueue(db.v, db.maxVersion, bound);
    ReclaimQueue(db.e, db.maxVersion, bound);
    ReclaimDropped(db.v, db.maxVersion, bound);
    ReclaimDropped(db.e, db.maxVersion, bound);
  }

  // Steps that touch only the readers or the phase.

  lemma FrameHistories(db: Db, after: Db)
    requires after == db.(phase := after.phase, readers := after.readers, nextTxn := after.nextTxn)
    requires Limit(after) == Limit(db) && HistoriesOk(db) && Agreement(db)
    ensures HistoriesOk(after) && Agreement(after)
  {
    forall s ensures SpotOk(after, s) {
      assert SpotOk(db, s);
    }
    forall s ensures SideOk(after, s) {
      assert SideOk(db, s);
    }
    SameViewAgrees(db, after);
  }

  lemma FrameSettled(db: Db, after: Db)
    requires after == db.(phase := after.phase, readers := after.readers, nextTxn := after.nextTxn) && Settled(db)
    ensures Settled(after)
  {
    forall d, o ensures EdgeSettled(after, d, o) {
      assert EdgeSettled(db, d, o);
    }
    forall s ensures SpotSettled(after, s) {
      assert SpotSettled(db, s);
    }
  }

  lemma FramePending(db: Db, after: Db)
    requires after == db.(phase := after.phase, readers := after.readers, nextTxn := after.nextTxn)
    requires Pending(db) && Committed(db)
    ensures Pending(after) && Committed(after)
  {
    forall s ensures Promised(after, s) && Harmless(after, s) && InstrOk(after, s) && TipStored(after, s) {
      assert Promised(db, s) && Harmless(db, s) && InstrOk(db, s) && TipStored(db, s);
      assert Owed(after, s) == Owed(db, s);
    }
    forall s ensures SidePending(after, s) {
      assert SidePending(db, s);
    }
    forall s, v: nat ensures ListedExisted(after, s, v) {
      assert ListedExisted(db, s, v);
    }
    forall s, v: nat ensures EndExisted(after, s, v) {
      assert EndExisted(db, s, v);
    }
  }

  lemma FrameKeeps(db: Db, after: Db)
    requires Valid(db) && after == db.(phase := after.phase, readers := after.readers, nextTxn := after.nextTxn)
    requires Limit(after) == Limit(db) && PhaseOk(after) && ReadersOk(after)
    requires !after.phase.Committing? ==> !db.phase.Committing?
    ensures Valid(after)
  {
    FrameHistories(db, after);
    if !after.phase.Committing? {
      FrameSettled(db, after);
    }
    FramePending(db, after);
  }

  lemma BeginReadKeeps(db: Db)
    requires Valid(db)
    ensures Valid(BeginRead(db))
  {
    FrameKeeps(db, BeginRead(db));
  }

  /** Removing one reader keeps the rest in order. */
  lemma RemoveReader(db: Db, i: nat, after: Db)
    requires ReadersOk(db) && i < |db.readers| && after.readers == db.readers[..i] + db.readers[i + 1..]
    requires after.nextTxn == db.nextTxn && after.maxVersion == db.maxVersion
    ensures ReadersOk(after)
  {
    var rs := after.readers;
    forall k | 0 <= k < |rs| ensures rs[k] == db.readers[if k < i then k else k + 1] {
    }
  }

  lemma SweptByKeeps(db: Db, i: nat)
    requires Valid(db) && i < |db.readers|
    ensures Valid(SweptBy(db, i)) && SameView(db, SweptBy(db, i))
  {
    if IsLastOldest(db.readers, i) {
      var bound := db.readers[i].version + 1;
      ReclaimKeeps(db, bound);
    }
  }

  lemma EndReadKeeps(db: Db, i: nat)
    requires Valid(db) && i < |db.readers|
    ensures Valid(EndRead(db, i))
  {
    var swept, after := SweptBy(db, i), EndRead(db, i);
    SweptByKeeps(db, i);
    RemoveReader(swept, i, after);
    FrameKeeps(swept, after);
  }

  lemma SweepKeeps(db: Db)
    requires Valid(db) && db.phase.Published?
    ensures Valid(Sweep(db))
  {
    if db.readers == [] {
      ReclaimKeeps(db, db.maxVersion);
      FrameKeeps(db.Reclaim(db.maxVersion), Sweep(db));
    } else {
      FrameKeeps(db, Sweep(db));
    }
  }

  // What the remaining readers can rely on.

  /** A reader that ends takes with it nothing that existed at the version of a reader that stays. */
  lemma EndReadSpares(db: Db, i: nat, j: nat, r: RecordId)
    requires Valid(db) && i < |db.readers| && j < |db.readers| && i != j
    ensures var v, after := db.readers[j].version, EndRead(db, i);
            && (r in db.v.stored && Existed(db.v.At(db.v.stored[r]), v) ==>
                  r in after.v.stored && after.v.stored[r] == db.v.stored[r])
            && (r in db.e.stored && Existed(db.e.At(db.e.stored[r]), v) ==>
                  r in after.e.stored && after.e.stored[r] == db.e.stored[r])
  {
    if IsLastOldest(db.readers, i) {
      var bound := db.readers[i].version + 1;
      assert db.readers[j].version >= db.readers[1].version >= bound;
      ReclaimIs(db.v, bound, r);
      ReclaimIs(db.e, bound, r);
      if r in db.v.stored && r !in db.v.Reclaim(bound).stored {
        ReclaimRemoves(db.v, db.maxVersion, bound, r);
      }
      if r in db.e.stored && r !in db.e.Reclaim(bound).stored {
        ReclaimRemoves(db.e, db.maxVersion, bound, r);
      }
    }
  }

  /** All other readers are of newer versions. */
  ghost predicate OldestAlone(readers: seq<Reader>, i: nat)
    requires i < |readers|
  {
    forall j :: 0 <= j < |readers| && j != i ==> readers[j].version > readers[i].version
  }

  lemma LastOldestIs(db: Db, i: nat)
    requires ReadersOk(db) && i < |db.readers|
    ensures IsLastOldest(db.readers, i) <==> OldestAlone(db.readers, i)
  {
    if i > 0 {
      assert db.readers[0].version <= db.readers[i].version;
    }
  }

  /** A reader that ends removes exactly what is deleted in the next version or before, if all others are newer. */
  lemma EndReadReclaims(db: Db, i: nat, r: RecordId)
    requires Valid(db) && i < |db.readers|
    ensures var after, bound, alone := EndRead(db, i), db.readers[i].version + 1, OldestAlone(db.readers, i);
            && (r in db.v.stored ==> var e := db.v.At(db.v.stored[r]);
                  (r !in after.v.stored <==> alone && Gone(e, db.maxVersion) && Gone(e, bound)))
            && (r in db.e.stored ==> var e := db.e.At(db.e.stored[r]);
                  (r !in after.e.stored <==> alone && Gone(e, db.maxVersion) && Gone(e, bound)))
  {
    var bound := db.readers[i].version + 1;
    LastOldestIs(db, i);
    if r in db.v.stored {
      ReclaimRemoves(db.v, db.maxVersion, bound, r);
    }
    if r in db.e.stored {
      ReclaimRemoves(db.e, db.maxVersion, bound, r);
    }
  }

  lemma AllDue(q: seq<Tomb>, bound: nat)
    requires forall i :: 0 <= i < |q| ==> q[i].version <= bound
    ensures DueIn(q, bound) == |q|
  {
  }

  /** A commit that no reader overlaps leaves nothing deleted in memory. */
  lemma SweepEmpties(db: Db, r: RecordId)
    requires Valid(db) && db.phase.Published? && db.readers == []
    ensures var after := Sweep(db);
            && after.v.queue == [] && after.e.queue == []
            && (r in after.v.stored ==> after.v.At(after.v.stored[r]).status.CommittedCreate?)
            && (r in after.e.stored ==> after.e.At(after.e.stored[r]).status.CommittedCreate?)
  {
    var after := Sweep(db);
    forall i | 0 <= i < |db.v.queue| ensures db.v.queue[i].version <= db.maxVersion {
      assert TombOk(db.v, db.maxVersion, db.v.queue[i]);
    }
    forall i | 0 <= i < |db.e.queue| ensures db.e.queue[i].version <= db.maxVersion {
      assert TombOk(db.e, db.maxVersion, db.e.queue[i]);
    }
    AllDue(db.v.queue, db.maxVersion);
    AllDue(db.e.queue, db.maxVersion);
    SweepKeeps(db);
    assert StoredOk(after.v, after.maxVersion, None, r) && StoredOk(after.e, after.maxVersion, None, r);
  }
}
