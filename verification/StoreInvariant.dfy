/**
 What holds of the store in every reachable state.

 Every clause is a predicate about one key, so that a proof names exactly the keys it needs.
 */
module StoreInvariant {
  import opened Common
  import opened Histories
  import opened Store

  // The tables.

  /** Committed objects that are not deleted are stored. */
  ghost predicate ObjectOk(p: Pool, next: Oid, o: Oid) {
    o in p.objects ==>
      var e := p.objects[o];
      && o < next
      && (e.status.CommittedCreate? || e.status.UncommittedDelete? ==>
            e.rid in p.stored && p.stored[e.rid] == o && e.born == e.version)
  }

  ghost predicate VersionOk(p: Pool, limit: nat, o: Oid) {
    o in p.objects ==> p.objects[o].version <= limit
  }

  ghost predicate StoredOk(p: Pool, limit: nat, current: Option<Oid>, r: RecordId) {
    r in p.stored ==>
      var o := p.stored[r];
      && o in p.objects
      && var e := p.objects[o];
      && e.rid == r && e.version <= limit
      && (e.status.UncommittedCreate? ==> current == Some(o))
      && (e.status.UncommittedDelete? ==> r in p.mine && (r in p.todo || current == Some(o)))
  }

  ghost predicate MineOk(p: Pool, current: Option<Oid>, r: RecordId) {
    && (r in p.todo ==> r in p.mine)
    && (r in p.mine ==>
          var o := p.mine[r];
          && o in p.objects && p.objects[o].rid == r
          && (r in p.stored ==> p.stored[r] == o)
          && (r !in p.stored ==>
                p.objects[o].status.UncommittedCreate? && p.objects[o].version == 0
                && (r in p.todo || current == Some(o))))
  }

  ghost predicate PoolOk(p: Pool, next: Oid, limit: nat, current: Option<Oid>) {
    && (forall o :: ObjectOk(p, next, o))
    && (forall o :: VersionOk(p, limit, o))
    && (forall r :: StoredOk(p, limit, current, r))
    && (forall r :: MineOk(p, current, r))
  }

  /** The version that the newest stored data may carry. */
  function Limit(db: Db): nat {
    if db.phase.Committing? then db.maxVersion + 1 else db.maxVersion
  }

  ghost predicate TablesOk(db: Db) {
    && PoolOk(db.v, db.next, Limit(db), None)
    && PoolOk(db.e, db.next, Limit(db), db.current)
  }

  /** No visible deletion is in the writer's table, and none that is committed is still to be visited. */
  ghost predicate OwnOk(p: Pool, latest: nat, r: RecordId) {
    r in p.mine ==> !Gone(p.At(p.mine[r]), latest) && (r in p.todo ==> !p.At(p.mine[r]).status.CommittedDelete?)
  }

  /** An object whose deletion is not yet visible is still stored. */
  ghost predicate RecentOk(p: Pool, latest: nat, o: Oid) {
    o in p.objects && p.objects[o].status.CommittedDelete? && p.objects[o].version > latest ==>
      p.objects[o].rid in p.stored && p.stored[p.objects[o].rid] == o
  }

  ghost predicate OwnsOk(p: Pool, latest: nat) {
    (forall r :: OwnOk(p, latest, r)) && (forall o :: RecentOk(p, latest, o))
  }

  ghost predicate Gone(e: Element, version: nat) {
    e.status.CommittedDelete? && e.version <= version
  }

  /** The tables fit the phase. */
  ghost predicate PhaseOk(db: Db) {
    && (db.phase.Writing? ==> db.v.todo == db.v.mine.Keys && db.e.todo == db.e.mine.Keys)
    && (db.phase.Published? || db.phase.Idle? ==>
          db.v.todo == {} && db.e.todo == {} && db.v.mine == map[] && db.e.mine == map[])
    && (db.current.Some? ==>
          && db.phase.Committing? && db.v.todo == {}
          && var o := db.current.value;
             o in db.e.objects && db.e.objects[o].rid in db.e.mine && db.e.mine[db.e.objects[o].rid] == o
             && db.e.objects[o].rid in db.e.stored && db.e.objects[o].rid !in db.e.todo
             && !db.e.objects[o].status.CommittedDelete?)
    && (db.current.None? ==> db.prog == [])
  }

  // The histories.

  /** Entries are in order, up to `limit`, and those below an uncommitted version are older than it. */
  ghost predicate Dated(h: History<Oid>, limit: nat, latest: nat) {
    Increasing(h.stable) && UpTo(h.stable, limit) && (h.unstable.Some? ==> UpTo(h.stable, latest))
  }

  ghost predicate EdgesOf(h: History<Oid>, e: Pool, r: RecordId) {
    && (forall i :: 0 <= i < |h.stable| ==> h.stable[i].item in e.objects && e.objects[h.stable[i].item].rid == r)
    && (h.unstable.Some? ==> h.unstable.value.item in e.objects && e.objects[h.unstable.value.item].rid == r)
  }

  ghost predicate VerticesOf(h: History<Oid>, v: Pool) {
    && (forall i :: 0 <= i < |h.stable| ==> h.stable[i].active && h.stable[i].item in v.objects)
    && (h.unstable.Some? ==> h.unstable.value.active && h.unstable.value.item in v.objects)
  }

  ghost predicate SpotOk(db: Db, s: Spot) {
    s in db.adj ==>
      && Dated(db.adj[s], Limit(db), db.maxVersion)
      && EdgesOf(db.adj[s], db.e, s.edge)
      && s.vertex in db.v.objects
      && (db.v.objects[s.vertex].status.UncommittedCreate? ==> db.adj[s].stable == [])
  }

  ghost predicate SideOk(db: Db, s: Side) {
    s in db.ends ==>
      && Dated(db.ends[s], Limit(db), db.maxVersion)
      && VerticesOf(db.ends[s], db.v)
      && s.edge in db.e.objects
      && (db.e.objects[s.edge].status.UncommittedCreate? ==> db.ends[s].stable == [])
  }

  ghost predicate HistoriesOk(db: Db) {
    (forall s :: SpotOk(db, s)) && (forall s :: SideOk(db, s))
  }

  // The writer's view agrees with itself.

  /** An edge the writer finds has a vertex the writer finds at side `d`, and that vertex lists the edge. */
  ghost predicate EdgeAgrees(db: Db, d: Direction, r: RecordId) {
    db.e.Lookup(r).Some? ==>
      var o := db.e.Lookup(r).value;
      && Latest(db.End(Side(d, o))).Some?
      && var x := Latest(db.End(Side(d, o))).value;
      && db.v.Lookup(db.v.At(x).rid) == Some(x)
      && Latest(db.Adj(Spot(d, x, r))) == Some(o)
  }

  /** A vertex the writer finds lists only edges that the writer finds and whose side `d` is that vertex. */
  ghost predicate SpotAgrees(db: Db, s: Spot) {
    db.v.Lookup(db.v.At(s.vertex).rid) == Some(s.vertex) && Latest(db.Adj(s)).Some? ==>
      var o := Latest(db.Adj(s)).value;
      db.e.Alive(o) ==> db.e.Lookup(s.edge) == Some(o) && Latest(db.End(Side(s.direction, o))) == Some(s.vertex)
  }

  /** Agreement, leaving aside what the vertex object `but` lists. */
  ghost predicate AgreementBut(db: Db, but: Option<Oid>) {
    (forall d, r :: EdgeAgrees(db, d, r)) && (forall s: Spot :: but != Some(s.vertex) ==> SpotAgrees(db, s))
  }

  ghost predicate Agreement(db: Db) {
    AgreementBut(db, None)
  }

  // The newest committed versions agree too, outside a commit.

  /** A stored object whose deletion is not committed. */
  ghost predicate Standing(p: Pool, o: Oid) {
    o in p.objects && var e := p.objects[o];
    e.rid in p.stored && p.stored[e.rid] == o && (e.status.CommittedCreate? || e.status.UncommittedDelete?)
  }

  ghost predicate EdgeSettled(db: Db, d: Direction, o: Oid) {
    Standing(db.e, o) ==>
      && Tip(db.End(Side(d, o))).Some?
      && var x := Tip(db.End(Side(d, o))).value;
      && Standing(db.v, x)
      && Tip(db.Adj(Spot(d, x, db.e.At(o).rid))) == Some(o)
  }

  ghost predicate SpotSettled(db: Db, s: Spot) {
    Standing(db.v, s.vertex) && Tip(db.Adj(s)).Some? ==>
      Standing(db.e, Tip(db.Adj(s)).value) && Tip(db.End(Side(s.direction, Tip(db.Adj(s)).value))) == Some(s.vertex)
  }

  ghost predicate Settled(db: Db) {
    (forall d, o :: EdgeSettled(db, d, o)) && (forall s :: SpotSettled(db, s))
  }

  // Uncommitted versions.

  /** A commit still has to upgrade the history at `s`. */
  ghost predicate Owed(db: Db, s: Spot) {
    || (s.edge in db.e.todo && s.edge in db.e.mine && db.IsEnd(Side(s.direction, db.e.mine[s.edge]), s.vertex))
    || Upgrade(s) in db.prog
  }

  /** Where an upgrade is owed, an uncommitted listing is of the very edge being committed. */
  ghost predicate Promised(db: Db, s: Spot) {
    Owed(db, s) && db.Adj(s).unstable.Some? && db.Adj(s).unstable.value.active ==>
      s.edge in db.e.mine && db.Adj(s).unstable.value.item == db.e.mine[s.edge]
  }

  /** Where none is owed, an uncommitted version left behind hides nothing and lists nothing. */
  ghost predicate Harmless(db: Db, s: Spot) {
    !Owed(db, s) && db.v.Alive(s.vertex) && db.Adj(s).unstable.Some? ==>
      Tip(db.Adj(s)).None? && !(db.Adj(s).unstable.value.active && db.e.Alive(db.Adj(s).unstable.value.item))
  }

  /** Upgrades in progress are of the edge being visited, at vertices already visited. */
  ghost predicate InstrOk(db: Db, s: Spot) {
    Upgrade(s) in db.prog ==>
      && db.current.Some? && s.edge in db.e.mine && db.e.mine[s.edge] == db.current.value
      && !db.v.At(s.vertex).status.UncommittedCreate?
  }

  ghost predicate SidePending(db: Db, s: Side) {
    db.e.Alive(s.edge) && db.End(s).unstable.Some? ==>
      db.e.At(s.edge).rid in db.e.todo || db.current == Some(s.edge)
  }

  ghost predicate Pending(db: Db) {
    && (forall s :: Promised(db, s))
    && (forall s :: Harmless(db, s))
    && (forall s :: InstrOk(db, s))
    && (forall s :: SidePending(db, s))
  }

  // Committed versions.

  /** What a vertex lists as committed is stored and not deleted. */
  ghost predicate TipStored(db: Db, s: Spot) {
    db.v.Alive(s.vertex) && !Gone(db.v.At(s.vertex), db.maxVersion) && Tip(db.Adj(s)).Some? ==>
      var o := Tip(db.Adj(s)).value;
      s.edge in db.e.stored && db.e.stored[s.edge] == o && !Gone(db.e.At(o), db.maxVersion)
  }

  /** What a vertex that existed at `v` lists at `v` existed at `v`. */
  ghost predicate ListedExisted(db: Db, s: Spot, v: nat) {
    v <= db.maxVersion && s.vertex in db.v.objects && Existed(db.v.At(s.vertex), v) && ReadAt(db.Adj(s), v).Some? ==>
      Existed(db.e.At(ReadAt(db.Adj(s), v).value), v)
  }

  /** The end, at `v`, of an edge that existed at `v` existed at `v`. */
  ghost predicate EndExisted(db: Db, s: Side, v: nat) {
    v <= db.maxVersion && s.edge in db.e.objects && Existed(db.e.At(s.edge), v) && ReadAt(db.End(s), v).Some? ==>
      Existed(db.v.At(ReadAt(db.End(s), v).value), v)
  }

  ghost predicate Committed(db: Db) {
    && (forall s :: TipStored(db, s))
    && (forall s, v :: ListedExisted(db, s, v))
    && (forall s, v :: EndExisted(db, s, v))
  }

  // Readers and delete queues.

  ghost predicate ReadersOk(db: Db) {
    && (forall i, j :: 0 <= i < j < |db.readers| ==>
          db.readers[i].txn < db.readers[j].txn && db.readers[i].version <= db.readers[j].version)
    && (forall i :: 0 <= i < |db.readers| ==>
          db.readers[i].txn < db.nextTxn && db.readers[i].version <= db.maxVersion)
  }

  ghost predicate TombOk(p: Pool, latest: nat, t: Tomb) {
    t.version <= latest && t.rid in p.stored && p.At(p.stored[t.rid]).status.CommittedDelete?
    && p.At(p.stored[t.rid]).version == t.version
  }

  /** The queue holds, in order of version and once each, exactly the stored objects whose deletion is visible. */
  ghost predicate QueueOk(p: Pool, latest: nat) {
    && (forall t :: t in p.queue ==> TombOk(p, latest, t))
    && (forall i, j :: 0 <= i < j < |p.queue| ==>
          p.queue[i].version <= p.queue[j].version && p.queue[i].rid != p.queue[j].rid)
    && (forall r :: r in p.stored && Gone(p.At(p.stored[r]), latest) ==>
          Tomb(r, p.At(p.stored[r]).version) in p.queue)
  }

  /** A commit has noted exactly the objects whose deletion it has committed. */
  ghost predicate DroppedOk(p: Pool, latest: nat) {
    && (forall r :: r in p.dropped <==>
          r in p.stored && p.At(p.stored[r]).status.CommittedDelete? && p.At(p.stored[r]).version > latest)
    && (forall i, j :: 0 <= i < j < |p.dropped| ==> p.dropped[i] != p.dropped[j])
  }

  ghost predicate QueuesOk(db: Db) {
    && QueueOk(db.v, db.maxVersion) && QueueOk(db.e, db.maxVersion)
    && DroppedOk(db.v, db.maxVersion) && DroppedOk(db.e, db.maxVersion)
  }

  ghost predicate ValidBut(db: Db, but: Option<Oid>) {
    && TablesOk(db) && OwnsOk(db.v, db.maxVersion) && OwnsOk(db.e, db.maxVersion) && PhaseOk(db) && HistoriesOk(db)
    && AgreementBut(db, but) && (!db.phase.Committing? ==> Settled(db))
    && Pending(db) && Committed(db)
    && ReadersOk(db) && QueuesOk(db)
  }

  ghost predicate Valid(db: Db) {
    ValidBut(db, None)
  }
}
