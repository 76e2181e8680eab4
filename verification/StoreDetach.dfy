/**
 Deleting an edge, alone or on behalf of a vertex, keeps the invariant.
 */
module StoreDetach {
  import opened Common
  import opened Histories
  import opened Store
  import opened StoreInvariant

  /** Where vertex `x` lists edge object `o` at side `d`. */
  function SpotOf(db: Db, d: Direction, o: Oid): Option<Spot> {
    match Latest(db.End(Side(d, o)))
    case None => None
    case Some(x) => Some(Spot(d, x, db.e.At(o).rid))
  }

  /** `after` is `db` with edge object `o` retired and unlisted at both its ends, except at `kept`. */
  ghost predicate Detached(db: Db, o: Oid, kept: Option<Spot>, after: Db) {
    && after == db.(e := db.e.Retire(o), adj := after.adj)
    && after.adj.Keys == db.adj.Keys
    && (forall s: Spot :: after.Adj(s) ==
          if SpotOf(db, s.direction, o) == Some(s) && kept != Some(s) then DeleteLatest(db.Adj(s)) else db.Adj(s))
  }

  /** The situation in which an edge is deleted. */
  ghost predicate Live(db: Db, o: Oid) {
    db.phase.Writing? && db.e.Lookup(db.e.At(o).rid) == Some(o)
  }

  lemma RetirePool(p: Pool, next: Oid, limit: nat, o: Oid)
    requires PoolOk(p, next, limit, None) && p.Lookup(p.At(o).rid) == Some(o) && p.todo == p.mine.Keys
    ensures PoolOk(p.Retire(o), next, limit, None) && p.Retire(o).todo == p.Retire(o).mine.Keys
  {
    var q, r := p.Retire(o), p.At(o).rid;
    assert ObjectOk(p, next, o) && StoredOk(p, limit, None, r) && MineOk(p, None, r);
    forall k ensures ObjectOk(q, next, k) && VersionOk(q, limit, k) {
      assert ObjectOk(p, next, k) && VersionOk(p, limit, k) && VersionOk(p, limit, o);
    }
    forall k ensures StoredOk(q, limit, None, k) {
      assert StoredOk(p, limit, None, k) && MineOk(p, None, k);
    }
    forall k ensures MineOk(q, None, k) {
      assert MineOk(p, None, k);
    }
  }

  lemma DetachTables(db: Db, o: Oid, kept: Option<Spot>, after: Db)
    requires TablesOk(db) && PhaseOk(db) && Live(db, o) && Detached(db, o, kept, after)
    ensures TablesOk(after) && PhaseOk(after)
  {
    RetirePool(db.e, db.next, Limit(db), o);
  }

  /** `DeleteLatest` adds a tombstone and touches nothing else. */
  lemma DeleteLatestIs(h: History<Oid>)
    ensures DeleteLatest(h).stable == h.stable && Tip(DeleteLatest(h)) == Tip(h) && Latest(DeleteLatest(h)) == None
    ensures DeleteLatest(h).unstable.Some? ==> !DeleteLatest(h).unstable.value.active
  {
  }

  lemma DetachHistories(db: Db, o: Oid, kept: Option<Spot>, after: Db)
    requires TablesOk(db) && HistoriesOk(db) && PhaseOk(db) && Live(db, o) && Detached(db, o, kept, after)
    ensures HistoriesOk(after)
  {
    assert ObjectOk(db.e, db.next, o);
    forall s ensures SpotOk(after, s) {
      assert SpotOk(db, s);
      assert after.Adj(s).stable == db.Adj(s).stable;
    }
    forall s ensures SideOk(after, s) {
      assert SideOk(db, s);
    }
  }

  /** Retiring an object hides it and no other. */
  lemma RetireLooks(p: Pool, next: Oid, limit: nat, o: Oid, k: RecordId)
    requires PoolOk(p, next, limit, None) && p.Lookup(p.At(o).rid) == Some(o)
    ensures p.Retire(o).Lookup(k) == if k == p.At(o).rid then None else p.Lookup(k)
  {
    assert StoredOk(p, limit, None, k) && MineOk(p, None, k) && ObjectOk(p, next, o);
  }

  lemma RetireAlive(p: Pool, next: Oid, limit: nat, o: Oid, k: Oid)
    requires PoolOk(p, next, limit, None) && p.Lookup(p.At(o).rid) == Some(o)
    ensures p.Retire(o).Alive(k) ==> p.Alive(k)
    ensures k != o ==> p.Retire(o).Alive(k) == p.Alive(k)
    ensures p.Retire(o).At(k).rid == p.At(k).rid && p.Retire(o).objects.Keys == p.objects.Keys
  {
    var r := p.At(o).rid;
    assert StoredOk(p, limit, None, r) && MineOk(p, None, r) && ObjectOk(p, next, o);
  }

  lemma DetachEdgeAgrees(db: Db, o: Oid, kept: Option<Spot>, after: Db, d: Direction, k: RecordId)
    requires TablesOk(db) && Live(db, o) && PhaseOk(db) && Detached(db, o, kept, after) && EdgeAgrees(db, d, k)
    ensures EdgeAgrees(after, d, k)
  {
    RetireLooks(db.e, db.next, Limit(db), o, k);
    if after.e.Lookup(k).Some? {
      var s := Spot(d, Latest(db.End(Side(d, db.e.Lookup(k).value))).value, k);
      assert after.Adj(s) == db.Adj(s);
    }
  }

  lemma DetachSpotAgrees(db: Db, o: Oid, kept: Option<Spot>, after: Db, s: Spot)
    requires TablesOk(db) && Live(db, o) && PhaseOk(db) && Detached(db, o, kept, after) && SpotOk(db, s)
    requires SpotAgrees(db, s) && kept != Some(s)
    ensures SpotAgrees(after, s)
  {
    RetireLooks(db.e, db.next, Limit(db), o, s.edge);
    DeleteLatestIs(db.Adj(s));
    if Latest(after.Adj(s)).Some? {
      RetireAlive(db.e, db.next, Limit(db), o, Latest(after.Adj(s)).value);
    }
  }

  lemma DetachAgrees(db: Db, o: Oid, kept: Option<Spot>, after: Db, but: Option<Oid>)
    requires TablesOk(db) && PhaseOk(db) && HistoriesOk(db) && AgreementBut(db, but)
    requires Live(db, o) && Detached(db, o, kept, after) && (kept.Some? ==> but == Some(kept.value.vertex))
    ensures AgreementBut(after, but)
  {
    forall d, k ensures EdgeAgrees(after, d, k) {
      DetachEdgeAgrees(db, o, kept, after, d, k);
    }
    forall s: Spot | but != Some(s.vertex) ensures SpotAgrees(after, s) {
      assert SpotOk(db, s);
      DetachSpotAgrees(db, o, kept, after, s);
    }
  }

  lemma RetireStanding(p: Pool, next: Oid, limit: nat, o: Oid, k: Oid)
    requires PoolOk(p, next, limit, None) && p.Lookup(p.At(o).rid) == Some(o)
    ensures Standing(p.Retire(o), k) == Standing(p, k)
  {
    assert ObjectOk(p, next, o);
  }

  lemma DetachSettled(db: Db, o: Oid, kept: Option<Spot>, after: Db)
    requires TablesOk(db) && PhaseOk(db) && Settled(db) && Live(db, o) && Detached(db, o, kept, after)
    ensures Settled(after)
  {
    forall k ensures Standing(after.e, k) == Standing(db.e, k) && after.e.At(k).rid == db.e.At(k).rid {
      RetireStanding(db.e, db.next, Limit(db), o, k);
    }
    forall s ensures Tip(after.Adj(s)) == Tip(db.Adj(s)) {
      DeleteLatestIs(db.Adj(s));
    }
    forall d, k ensures EdgeSettled(after, d, k) {
      assert EdgeSettled(db, d, k);
    }
    forall s ensures SpotSettled(after, s) {
      assert SpotSettled(db, s);
    }
  }

  // Uncommitted versions.

  /** An edge that only the writer owns is owed upgrades only at its uncommitted ends, which are its latest. */
  lemma OwnEdgeEnds(db: Db, o: Oid, s: Spot)
    requires TablesOk(db) && PhaseOk(db) && HistoriesOk(db) && Live(db, o) && db.e.At(o).status.UncommittedCreate?
    requires s.edge == db.e.At(o).rid && Owed(db, s)
    ensures SpotOf(db, s.direction, o) == Some(s)
  {
    assert MineOk(db.e, None, s.edge) && StoredOk(db.e, Limit(db), None, s.edge) && SideOk(db, Side(s.direction, o));
  }

  /** A committed edge is owed upgrades exactly at its ends once the writer deletes it. */
  lemma DetachOwed(db: Db, o: Oid, kept: Option<Spot>, after: Db, s: Spot)
    requires TablesOk(db) && PhaseOk(db) && Live(db, o) && Detached(db, o, kept, after)
    ensures s.edge != db.e.At(o).rid ==> Owed(after, s) == Owed(db, s)
    ensures s.edge == db.e.At(o).rid ==>
              (Owed(after, s) <==> !db.e.At(o).status.UncommittedCreate? && db.IsEnd(Side(s.direction, o), s.vertex))
    ensures db.prog == []
  {
    var r := db.e.At(o).rid;
    assert MineOk(db.e, None, r) && StoredOk(db.e, Limit(db), None, r);
  }

  /** Before the writer touches it, nothing uncommitted is listed at a committed edge's ends. */
  lemma UntouchedEnds(db: Db, o: Oid, s: Spot)
    requires TablesOk(db) && PhaseOk(db) && Pending(db) && Settled(db) && Live(db, o)
    requires s.edge == db.e.At(o).rid && s.edge !in db.e.mine && db.IsEnd(Side(s.direction, o), s.vertex)
    ensures db.Adj(s).unstable.None?
  {
    assert ObjectOk(db.e, db.next, o) && StoredOk(db.e, Limit(db), None, s.edge);
    assert SidePending(db, Side(s.direction, o));
    assert EdgeSettled(db, s.direction, o) && Harmless(db, s);
  }

  lemma DetachPromised(db: Db, o: Oid, kept: Option<Spot>, after: Db, s: Spot)
    requires TablesOk(db) && PhaseOk(db) && Pending(db) && Settled(db) && Live(db, o) && Detached(db, o, kept, after)
    ensures Promised(after, s)
  {
    var r := db.e.At(o).rid;
    assert Promised(db, s) && MineOk(db.e, None, r) && StoredOk(db.e, Limit(db), None, r);
    DetachOwed(db, o, kept, after, s);
    DeleteLatestIs(db.Adj(s));
    if s.edge == r && r !in db.e.mine && db.IsEnd(Side(s.direction, o), s.vertex) {
      UntouchedEnds(db, o, s);
    }
  }

  /** The latest end of a live edge is a vertex that lists nothing committed for an edge that is not stored. */
  lemma NothingCommitted(db: Db, o: Oid, s: Spot)
    requires TablesOk(db) && PhaseOk(db) && Committed(db) && Live(db, o) && db.e.At(o).status.UncommittedCreate?
    requires SpotOf(db, s.direction, o) == Some(s) && EdgeAgrees(db, s.direction, s.edge)
    ensures Tip(db.Adj(s)) == None
  {
    assert StoredOk(db.e, Limit(db), None, s.edge) && TipStored(db, s);
    assert ObjectOk(db.v, db.next, s.vertex);
    var k := db.v.At(s.vertex).rid;
    assert StoredOk(db.v, Limit(db), None, k) && MineOk(db.v, None, k);
  }

  lemma DetachHarmless(db: Db, o: Oid, kept: Option<Spot>, after: Db, s: Spot)
    requires TablesOk(db) && PhaseOk(db) && HistoriesOk(db) && Pending(db) && Committed(db)
    requires Live(db, o) && Detached(db, o, kept, after) && EdgeAgrees(db, s.direction, db.e.At(o).rid)
    ensures Harmless(after, s)
  {
    var r := db.e.At(o).rid;
    assert Harmless(db, s) && Promised(db, s) && MineOk(db.e, None, r) && StoredOk(db.e, Limit(db), None, r);
    DetachOwed(db, o, kept, after, s);
    DeleteLatestIs(db.Adj(s));
    if after.Adj(s).unstable.Some? {
      RetireAlive(db.e, db.next, Limit(db), o, after.Adj(s).unstable.value.item);
    }
    if s.edge == r && db.e.At(o).status.UncommittedCreate? && Owed(db, s) {
      OwnEdgeEnds(db, o, s);
      NothingCommitted(db, o, s);
    }
  }

  lemma DetachPending(db: Db, o: Oid, kept: Option<Spot>, after: Db, but: Option<Oid>)
    requires TablesOk(db) && PhaseOk(db) && HistoriesOk(db) && Pending(db) && Committed(db) && Settled(db)
    requires AgreementBut(db, but) && Live(db, o) && Detached(db, o, kept, after)
    ensures Pending(after)
  {
    var r := db.e.At(o).rid;
    forall s ensures Promised(after, s) {
      DetachPromised(db, o, kept, after, s);
    }
    forall s ensures Harmless(after, s) {
      assert EdgeAgrees(db, s.direction, r);
      DetachHarmless(db, o, kept, after, s);
    }
    forall s ensures InstrOk(after, s) {
      assert InstrOk(db, s);
    }
    forall s ensures SidePending(after, s) {
      assert SidePending(db, s) && MineOk(db.e, None, r) && StoredOk(db.e, Limit(db), None, r);
      RetireAlive(db.e, db.next, Limit(db), o, s.edge);
    }
  }

  // Committed versions.

  /** Marking or forgetting an uncommitted deletion changes neither what is stored nor what existed. */
  lemma RetireKeepsPast(p: Pool, next: Oid, limit: nat, o: Oid, k: Oid)
    requires PoolOk(p, next, limit, None) && p.Lookup(p.At(o).rid) == Some(o)
    ensures p.Retire(o).stored == p.stored && p.Retire(o).queue == p.queue && p.Retire(o).dropped == p.dropped
    ensures forall v :: Existed(p.Retire(o).At(k), v) == Existed(p.At(k), v)
    ensures p.Retire(o).At(k).status.CommittedDelete? == p.At(k).status.CommittedDelete?
    ensures p.Retire(o).At(k).version == p.At(k).version
  {
    assert ObjectOk(p, next, o) && StoredOk(p, limit, None, p.At(o).rid) && MineOk(p, None, p.At(o).rid);
  }

  lemma DetachCommitted(db: Db, o: Oid, kept: Option<Spot>, after: Db)
    requires TablesOk(db) && PhaseOk(db) && Committed(db) && Live(db, o) && Detached(db, o, kept, after)
    ensures Committed(after)
  {
    forall s ensures TipStored(after, s) {
      assert TipStored(db, s);
      DeleteLatestIs(db.Adj(s));
      if Tip(db.Adj(s)).Some? {
        RetireKeepsPast(db.e, db.next, Limit(db), o, Tip(db.Adj(s)).value);
      }
    }
    forall s, v ensures ListedExisted(after, s, v) {
      assert ListedExisted(db, s, v);
      DeleteLatestIs(db.Adj(s));
      if ReadAt(db.Adj(s), v).Some? {
        RetireKeepsPast(db.e, db.next, Limit(db), o, ReadAt(db.Adj(s), v).value);
      }
    }
    forall s, v ensures EndExisted(after, s, v) {
      assert EndExisted(db, s, v);
      RetireKeepsPast(db.e, db.next, Limit(db), o, s.edge);
    }
  }

  lemma RetireQueue(p: Pool, next: Oid, limit: nat, latest: nat, o: Oid)
    requires PoolOk(p, next, limit, None) && p.Lookup(p.At(o).rid) == Some(o)
    requires QueueOk(p, latest) && DroppedOk(p, latest)
    ensures QueueOk(p.Retire(o), latest) && DroppedOk(p.Retire(o), latest)
  {
    var q := p.Retire(o);
    forall k ensures q.stored == p.stored && q.queue == p.queue && q.dropped == p.dropped
                     && q.At(k).status.CommittedDelete? == p.At(k).status.CommittedDelete?
                     && q.At(k).version == p.At(k).version
    {
      RetireKeepsPast(p, next, limit, o, k);
    }
    forall t | t in q.queue ensures TombOk(q, latest, t) {
      assert TombOk(p, latest, t);
    }
  }

  lemma RetireOwns(p: Pool, next: Oid, limit: nat, latest: nat, o: Oid)
    requires PoolOk(p, next, limit, None) && p.Lookup(p.At(o).rid) == Some(o) && OwnsOk(p, latest)
    ensures OwnsOk(p.Retire(o), latest)
  {
    forall r ensures OwnOk(p.Retire(o), latest, r) {
      assert OwnOk(p, latest, r) && MineOk(p, None, r);
    }
    forall k ensures RecentOk(p.Retire(o), latest, k) {
      assert RecentOk(p, latest, k);
    }
  }

  /** Deleting an edge keeps the invariant, up to what an excused vertex still lists. */
  lemma DetachKeeps(db: Db, o: Oid, kept: Option<Spot>, after: Db, but: Option<Oid>)
    requires ValidBut(db, but) && Live(db, o) && Detached(db, o, kept, after)
    requires kept.Some? ==> but == Some(kept.value.vertex)
    ensures ValidBut(after, but) && after.phase.Writing?
  {
    DetachTables(db, o, kept, after);
    DetachHistories(db, o, kept, after);
    DetachAgrees(db, o, kept, after, but);
    DetachSettled(db, o, kept, after);
    DetachPending(db, o, kept, after, but);
    DetachCommitted(db, o, kept, after);
    RetireQueue(db.e, db.next, Limit(db), db.maxVersion, o);
    RetireOwns(db.e, db.next, Limit(db), db.maxVersion, o);
  }

  // The operations detach.

  lemma UnlistIs(db: Db, d: Direction, o: Oid, s: Spot)
    requires TablesOk(db) && Live(db, o) && EdgeAgrees(db, d, db.e.At(o).rid)
    ensures var after := db.Unlist(d, o);
            && after == db.(adj := after.adj) && after.adj.Keys == db.adj.Keys
            && after.Adj(s) == if SpotOf(db, d, o) == Some(s) then DeleteLatest(db.Adj(s)) else db.Adj(s)
  {
    var x := Latest(db.End(Side(d, o))).value;
    var k := db.v.At(x).rid;
    assert StoredOk(db.v, Limit(db), None, k) && MineOk(db.v, None, k);
  }

  lemma UnlistBoth(db: Db, o: Oid, s: Spot)
    requires TablesOk(db) && Live(db, o) && EdgeAgrees(db, Out, db.e.At(o).rid) && EdgeAgrees(db, In, db.e.At(o).rid)
    ensures var after := db.Unlist(Out, o).Unlist(In, o);
            && after == db.(adj := after.adj) && after.adj.Keys == db.adj.Keys
            && after.Adj(s) == if SpotOf(db, s.direction, o) == Some(s) then DeleteLatest(db.Adj(s)) else db.Adj(s)
  {
    var one := db.Unlist(Out, o);
    UnlistIs(db, Out, o, SpotOf(db, In, o).value);
    UnlistIs(db, Out, o, s);
    assert EdgeAgrees(one, In, db.e.At(o).rid);
    UnlistIs(one, In, o, s);
    assert SpotOf(one, In, o) == SpotOf(db, In, o);
    assert s.direction == Out || s.direction == In;
  }

  lemma DeleteEdgeDetaches(db: Db, r: RecordId, o: Oid)
    requires TablesOk(db) && PhaseOk(db) && AgreementBut(db, None) && db.phase.Writing? && db.e.Lookup(r) == Some(o)
    ensures Live(db, o) && Detached(db, o, None, DeleteEdge(db, r))
  {
    assert StoredOk(db.e, Limit(db), None, r) && MineOk(db.e, None, r);
    assert EdgeAgrees(db, Out, r) && EdgeAgrees(db, In, r);
    UnlistBoth(db, o, SpotOf(db, In, o).value);
    var both, after := db.Unlist(Out, o).Unlist(In, o), DeleteEdge(db, r);
    assert after == both.(e := db.e.Retire(o));
    forall s: Spot ensures after.Adj(s) == both.Adj(s)
    {
    }
    forall s: Spot
      ensures both.Adj(s) == if SpotOf(db, s.direction, o) == Some(s) then DeleteLatest(db.Adj(s)) else db.Adj(s)
    {
      UnlistBoth(db, o, s);
    }
  }

  /** What a vertex lists as its own latest is detached on the other side only. */
  lemma DeleteListedDetaches(db: Db, d: Direction, x: Oid, r: RecordId, o: Oid)
    requires TablesOk(db) && PhaseOk(db) && db.phase.Writing? && EdgeAgrees(db, Opposite(d), r)
    requires db.e.Lookup(r) == Some(o) && Latest(db.End(Side(d, o))) == Some(x)
    requires Latest(db.Adj(Spot(d, x, r))) == Some(o) && db.e.Alive(o)
    ensures Live(db, o) && Detached(db, o, Some(Spot(d, x, r)), DeleteListed(db, d, x, r))
  {
    assert StoredOk(db.e, Limit(db), None, r) && MineOk(db.e, None, r);
    forall s: Spot
      ensures DeleteListed(db, d, x, r).Adj(s) ==
              if SpotOf(db, s.direction, o) == Some(s) && s != Spot(d, x, r) then DeleteLatest(db.Adj(s))
              else db.Adj(s)
    {
      UnlistIs(db, Opposite(d), o, s);
      assert s.direction == d || s.direction == Opposite(d);
    }
    UnlistIs(db, Opposite(d), o, Spot(d, x, r));
  }
}
