/**
 Deleting a vertex deletes exactly the edges that end at it and keeps the invariant.
 */
module StoreCascade {
  import opened Common
  import opened Histories
  import opened Store
  import opened StoreInvariant
  import opened StoreDetach

  ghost predicate LiveVertex(db: Db, x: Oid) {
    db.phase.Writing? && db.v.Lookup(db.v.At(x).rid) == Some(x)
  }

  /** No edge the writer finds under `r` ends at `x` on side `d`. */
  ghost predicate NotAt(db: Db, d: Direction, x: Oid, r: RecordId) {
    db.e.Lookup(r).Some? ==> Latest(db.End(Side(d, db.e.Lookup(r).value))) != Some(x)
  }

  /** `after` has the same ends and finds the same edges as `db`, except perhaps some that end at `x`. */
  ghost predicate Fewer(db: Db, x: Oid, after: Db) {
    && after.v == db.v && after.ends == db.ends && after.adj.Keys == db.adj.Keys && after.phase == db.phase
    && (forall r :: OnlyAt(db, x, after, r))
  }

  ghost predicate OnlyAt(db: Db, x: Oid, after: Db, r: RecordId) {
    || after.e.Lookup(r) == db.e.Lookup(r)
    || (after.e.Lookup(r) == None && !(NotAt(db, In, x, r) && NotAt(db, Out, x, r)))
  }

  /** The vertex's entries under `keys` are still as agreed. */
  ghost predicate Due(db: Db, d: Direction, x: Oid, keys: seq<RecordId>) {
    forall k :: k in keys ==> SpotAgrees(db, Spot(d, x, k))
  }

  ghost predicate Distinct(keys: seq<RecordId>) {
    forall i, j :: 0 <= i < j < |keys| ==> keys[i] != keys[j]
  }

  /** What the vertex lists at `r` is detached, if it lists anything. */
  lemma ListedIsDetached(db: Db, d: Direction, x: Oid, r: RecordId)
    requires TablesOk(db) && PhaseOk(db) && AgreementBut(db, Some(x)) && LiveVertex(db, x)
    requires SpotAgrees(db, Spot(d, x, r)) && db.e.Lookup(r).Some? && !NotAt(db, d, x, r)
    ensures var o := db.e.Lookup(r).value;
            Live(db, o) && Detached(db, o, Some(Spot(d, x, r)), DeleteListed(db, d, x, r)) && db.e.At(o).rid == r
  {
    assert EdgeAgrees(db, d, r) && EdgeAgrees(db, Opposite(d), r);
    assert StoredOk(db.e, Limit(db), None, r) && MineOk(db.e, None, r);
    DeleteListedDetaches(db, d, x, r, db.e.Lookup(r).value);
  }

  lemma NothingListed(db: Db, d: Direction, x: Oid, r: RecordId)
    requires LiveVertex(db, x) && SpotAgrees(db, Spot(d, x, r)) && NotAt(db, d, x, r)
    ensures DeleteListed(db, d, x, r) == db
  {
  }

  /** One key: the edge listed there is deleted. */
  lemma DeleteListedValid(db: Db, d: Direction, x: Oid, r: RecordId)
    requires ValidBut(db, Some(x)) && LiveVertex(db, x) && SpotAgrees(db, Spot(d, x, r))
    ensures ValidBut(DeleteListed(db, d, x, r), Some(x))
  {
    if NotAt(db, d, x, r) {
      NothingListed(db, d, x, r);
    } else {
      ListedIsDetached(db, d, x, r);
      DetachKeeps(db, db.e.Lookup(r).value, Some(Spot(d, x, r)), DeleteListed(db, d, x, r), Some(x));
    }
  }

  lemma DeleteListedFewer(db: Db, d: Direction, x: Oid, r: RecordId)
    requires TablesOk(db) && PhaseOk(db) && AgreementBut(db, Some(x)) && LiveVertex(db, x)
    requires SpotAgrees(db, Spot(d, x, r))
    ensures Fewer(db, x, DeleteListed(db, d, x, r)) && NotAt(DeleteListed(db, d, x, r), d, x, r)
  {
    var after := DeleteListed(db, d, x, r);
    if NotAt(db, d, x, r) {
      NothingListed(db, d, x, r);
    } else {
      ListedIsDetached(db, d, x, r);
      RetireLooks(db.e, db.next, Limit(db), db.e.Lookup(r).value, r);
      forall k ensures OnlyAt(db, x, after, k) {
        RetireLooks(db.e, db.next, Limit(db), db.e.Lookup(r).value, k);
      }
    }
  }

  /** What is listed elsewhere is still as agreed. */
  lemma DeleteListedOthers(db: Db, d: Direction, x: Oid, r: RecordId, s: Spot)
    requires TablesOk(db) && PhaseOk(db) && AgreementBut(db, Some(x)) && LiveVertex(db, x) && SpotOk(db, s)
    requires SpotAgrees(db, Spot(d, x, r)) && SpotAgrees(db, s) && s != Spot(d, x, r)
    ensures SpotAgrees(DeleteListed(db, d, x, r), s)
  {
    if NotAt(db, d, x, r) {
      NothingListed(db, d, x, r);
    } else {
      ListedIsDetached(db, d, x, r);
      DetachSpotAgrees(db, db.e.Lookup(r).value, Some(Spot(d, x, r)), DeleteListed(db, d, x, r), s);
    }
  }

  lemma FewerStill(db: Db, x: Oid, one: Db, two: Db)
    requires Fewer(db, x, one) && Fewer(one, x, two)
    ensures Fewer(db, x, two)
  {
    forall r ensures OnlyAt(db, x, two, r) {
      assert OnlyAt(db, x, one, r) && OnlyAt(one, x, two, r);
    }
  }

  /** The state before the entries under `keys` are visited. */
  ghost predicate Cascading(db: Db, d: Direction, x: Oid, keys: seq<RecordId>) {
    ValidBut(db, Some(x)) && LiveVertex(db, x) && Due(db, d, x, keys) && Distinct(keys)
  }

  lemma DeleteListedSteps(db: Db, d: Direction, x: Oid, keys: seq<RecordId>)
    requires keys != [] && Cascading(db, d, x, keys)
    ensures Cascading(DeleteListed(db, d, x, keys[0]), d, x, keys[1..])
  {
    var k, rest := keys[0], keys[1..];
    var one := DeleteListed(db, d, x, k);
    assert SpotAgrees(db, Spot(d, x, k));
    DeleteListedFewer(db, d, x, k);
    forall j | j in rest ensures SpotAgrees(one, Spot(d, x, j)) {
      assert SpotAgrees(db, Spot(d, x, j)) && SpotOk(db, Spot(d, x, j));
      DeleteListedOthers(db, d, x, k, Spot(d, x, j));
    }
    DeleteListedValid(db, d, x, k);
  }

  /** Every key of one list. */
  lemma {:induction false} DeleteAllListedValid(db: Db, d: Direction, x: Oid, keys: seq<RecordId>)
    requires Cascading(db, d, x, keys)
    ensures ValidBut(DeleteAllListed(db, d, x, keys), Some(x))
    decreases |keys|
  {
    if keys != [] {
      DeleteListedSteps(db, d, x, keys);
      DeleteAllListedValid(DeleteListed(db, d, x, keys[0]), d, x, keys[1..]);
    }
  }

  lemma {:induction false} DeleteAllListedFewer(db: Db, d: Direction, x: Oid, keys: seq<RecordId>)
    requires Cascading(db, d, x, keys)
    ensures Fewer(db, x, DeleteAllListed(db, d, x, keys))
    decreases |keys|
  {
    if keys != [] {
      assert SpotAgrees(db, Spot(d, x, keys[0]));
      DeleteListedSteps(db, d, x, keys);
      DeleteListedFewer(db, d, x, keys[0]);
      DeleteAllListedFewer(DeleteListed(db, d, x, keys[0]), d, x, keys[1..]);
      FewerStill(db, x, DeleteListed(db, d, x, keys[0]), DeleteAllListed(db, d, x, keys));
    }
  }

  lemma {:induction false} DeleteAllListedNotAt(db: Db, d: Direction, x: Oid, keys: seq<RecordId>, k: RecordId)
    requires Cascading(db, d, x, keys) && k in keys
    ensures NotAt(DeleteAllListed(db, d, x, keys), d, x, k)
    decreases |keys|
  {
    var one := DeleteListed(db, d, x, keys[0]);
    assert SpotAgrees(db, Spot(d, x, keys[0]));
    DeleteListedSteps(db, d, x, keys);
    if k == keys[0] {
      DeleteListedFewer(db, d, x, k);
      DeleteAllListedFewer(one, d, x, keys[1..]);
      assert OnlyAt(one, x, DeleteAllListed(one, d, x, keys[1..]), k);
    } else {
      DeleteAllListedNotAt(one, d, x, keys[1..], k);
    }
  }

  lemma {:induction false} DeleteAllListedOthers(db: Db, d: Direction, x: Oid, keys: seq<RecordId>, s: Spot)
    requires Cascading(db, d, x, keys) && SpotAgrees(db, s) && s.direction != d
    ensures SpotAgrees(DeleteAllListed(db, d, x, keys), s)
    decreases |keys|
  {
    if keys != [] {
      assert SpotAgrees(db, Spot(d, x, keys[0])) && SpotOk(db, s);
      DeleteListedSteps(db, d, x, keys);
      DeleteListedOthers(db, d, x, keys[0], s);
      DeleteAllListedOthers(DeleteListed(db, d, x, keys[0]), d, x, keys[1..], s);
    }
  }

  // The vertex itself.

  lemma RetireVertexHistories(db: Db, x: Oid)
    requires TablesOk(db) && PhaseOk(db) && HistoriesOk(db) && LiveVertex(db, x)
    ensures HistoriesOk(db.RetireVertex(x))
  {
    var after := db.RetireVertex(x);
    assert ObjectOk(db.v, db.next, x);
    forall s ensures SpotOk(after, s) {
      assert SpotOk(db, s);
      RetireAlive(db.v, db.next, Limit(db), x, s.vertex);
    }
    forall s ensures SideOk(after, s) {
      assert SideOk(db, s);
      RetireAlive(db.v, db.next, Limit(db), x, x);
    }
  }

  lemma RetireVertexAgrees(db: Db, x: Oid)
    requires TablesOk(db) && PhaseOk(db) && AgreementBut(db, Some(x)) && LiveVertex(db, x)
    requires forall d, r :: NotAt(db, d, x, r)
    ensures Agreement(db.RetireVertex(x))
  {
    var after := db.RetireVertex(x);
    forall k ensures after.v.Lookup(k) == if k == db.v.At(x).rid then None else db.v.Lookup(k) {
      RetireLooks(db.v, db.next, Limit(db), x, k);
    }
    forall y ensures after.v.At(y).rid == db.v.At(y).rid {
      RetireAlive(db.v, db.next, Limit(db), x, y);
    }
    forall d, r ensures EdgeAgrees(after, d, r) {
      assert EdgeAgrees(db, d, r) && NotAt(db, d, x, r);
    }
    forall s: Spot ensures SpotAgrees(after, s) {
      assert s.vertex != x ==> SpotAgrees(db, s);
    }
  }

  lemma RetireVertexSettled(db: Db, x: Oid)
    requires TablesOk(db) && PhaseOk(db) && Settled(db) && LiveVertex(db, x)
    ensures Settled(db.RetireVertex(x))
  {
    var after := db.RetireVertex(x);
    forall y ensures Standing(after.v, y) == Standing(db.v, y) {
      RetireStanding(db.v, db.next, Limit(db), x, y);
    }
    forall d, o ensures EdgeSettled(after, d, o) {
      assert EdgeSettled(db, d, o);
    }
    forall s ensures SpotSettled(after, s) {
      assert SpotSettled(db, s);
    }
  }

  lemma RetireVertexPending(db: Db, x: Oid)
    requires TablesOk(db) && PhaseOk(db) && Pending(db) && LiveVertex(db, x)
    ensures Pending(db.RetireVertex(x))
  {
    var after := db.RetireVertex(x);
    forall s ensures Owed(after, s) == Owed(db, s) {
    }
    forall s ensures Promised(after, s) {
      assert Promised(db, s);
    }
    forall s ensures Harmless(after, s) {
      assert Harmless(db, s);
      RetireAlive(db.v, db.next, Limit(db), x, s.vertex);
    }
    forall s ensures InstrOk(after, s) {
      assert InstrOk(db, s);
    }
    forall s ensures SidePending(after, s) {
      assert SidePending(db, s);
    }
  }

  lemma RetireVertexCommitted(db: Db, x: Oid)
    requires TablesOk(db) && PhaseOk(db) && Committed(db) && LiveVertex(db, x)
    ensures Committed(db.RetireVertex(x))
  {
    var after := db.RetireVertex(x);
    forall s ensures TipStored(after, s) {
      assert TipStored(db, s);
      RetireAlive(db.v, db.next, Limit(db), x, s.vertex);
      RetireKeepsPast(db.v, db.next, Limit(db), x, s.vertex);
    }
    forall s, v ensures ListedExisted(after, s, v) {
      assert ListedExisted(db, s, v);
      RetireKeepsPast(db.v, db.next, Limit(db), x, s.vertex);
      RetireAlive(db.v, db.next, Limit(db), x, s.vertex);
    }
    forall s, v ensures EndExisted(after, s, v) {
      assert EndExisted(db, s, v);
      if ReadAt(db.End(s), v).Some? {
        RetireKeepsPast(db.v, db.next, Limit(db), x, ReadAt(db.End(s), v).value);
      }
    }
  }

  lemma RetireVertexKeeps(db: Db, x: Oid)
    requires ValidBut(db, Some(x)) && LiveVertex(db, x) && forall d, r :: NotAt(db, d, x, r)
    ensures Valid(db.RetireVertex(x))
  {
    RetirePool(db.v, db.next, Limit(db), x);
    RetireVertexHistories(db, x);
    RetireVertexAgrees(db, x);
    RetireVertexSettled(db, x);
    RetireVertexPending(db, x);
    RetireVertexCommitted(db, x);
    RetireQueue(db.v, db.next, Limit(db), db.maxVersion, x);
    RetireOwns(db.v, db.next, Limit(db), db.maxVersion, x);
  }

  /** The sequences hold the keys of the vertex's two lists, once each. */
  ghost predicate ListsOf(db: Db, x: Oid, ins: seq<RecordId>, outs: seq<RecordId>) {
    && Distinct(ins) && Distinct(outs)
    && (forall k :: Spot(In, x, k) in db.adj ==> k in ins)
    && (forall k :: Spot(Out, x, k) in db.adj ==> k in outs)
  }

  /** An edge at `x` is listed there, so its id is a key. */
  lemma EndIsListed(db: Db, d: Direction, x: Oid, r: RecordId)
    requires EdgeAgrees(db, d, r) && !NotAt(db, d, x, r)
    ensures Spot(d, x, r) in db.adj
  {
  }

  /** Both lists visited: the second list is still as agreed when the first is done. */
  lemma SecondList(db: Db, x: Oid, ins: seq<RecordId>, outs: seq<RecordId>)
    requires Valid(db) && LiveVertex(db, x) && Distinct(ins) && Distinct(outs)
    ensures Cascading(db, In, x, ins) && Cascading(DeleteAllListed(db, In, x, ins), Out, x, outs)
  {
    assert Cascading(db, In, x, ins) by {
      forall k | k in ins ensures SpotAgrees(db, Spot(In, x, k)) {
      }
    }
    DeleteAllListedFewer(db, In, x, ins);
    forall k | k in outs ensures SpotAgrees(DeleteAllListed(db, In, x, ins), Spot(Out, x, k)) {
      assert SpotAgrees(db, Spot(Out, x, k));
      DeleteAllListedOthers(db, In, x, ins, Spot(Out, x, k));
    }
    DeleteAllListedValid(db, In, x, ins);
  }

  /** No edge ends at the vertex once both lists are visited. */
  lemma NoEdgeLeft(db: Db, x: Oid, ins: seq<RecordId>, outs: seq<RecordId>, d: Direction, k: RecordId)
    requires Cascading(db, In, x, ins) && Cascading(DeleteAllListed(db, In, x, ins), Out, x, outs)
    requires ListsOf(db, x, ins, outs)
    ensures NotAt(DeleteAllListed(DeleteAllListed(db, In, x, ins), Out, x, outs), d, x, k)
  {
    var one := DeleteAllListed(db, In, x, ins);
    var two := DeleteAllListed(one, Out, x, outs);
    DeleteAllListedFewer(db, In, x, ins);
    DeleteAllListedFewer(one, Out, x, outs);
    assert EdgeAgrees(db, d, k);
    if !NotAt(two, d, x, k) {
      assert OnlyAt(db, x, one, k) && OnlyAt(one, x, two, k);
      EndIsListed(db, d, x, k);
      if d == In {
        DeleteAllListedNotAt(db, In, x, ins, k);
      } else {
        DeleteAllListedNotAt(one, Out, x, outs, k);
      }
      assert false;
    }
  }

  /** In whatever order the hash maps list the keys, deleting a vertex leaves no edge at it. */
  lemma DeleteVertexKeeps(db: Db, r: RecordId, ins: seq<RecordId>, outs: seq<RecordId>)
    requires Valid(db) && db.phase.Writing?
    requires db.v.Lookup(r).Some? ==> ListsOf(db, db.v.Lookup(r).value, ins, outs)
    ensures Valid(DeleteVertex(db, r, ins, outs))
  {
    if db.v.Lookup(r).Some? {
      var x := db.v.Lookup(r).value;
      assert StoredOk(db.v, Limit(db), None, r) && MineOk(db.v, None, r);
      SecondList(db, x, ins, outs);
      var one := DeleteAllListed(db, In, x, ins);
      var two := DeleteAllListed(one, Out, x, outs);
      forall d, k ensures NotAt(two, d, x, k) {
        NoEdgeLeft(db, x, ins, outs, d, k);
      }
      DeleteAllListedFewer(one, Out, x, outs);
      DeleteAllListedValid(one, Out, x, outs);
      RetireVertexKeeps(two, x);
    }
  }

  /** Deleting a vertex deletes it and exactly the edges that end at it. */
  lemma DeleteVertexDeletes(db: Db, r: RecordId, ins: seq<RecordId>, outs: seq<RecordId>, x: Oid, k: RecordId)
    requires Valid(db) && db.phase.Writing? && db.v.Lookup(r) == Some(x) && ListsOf(db, x, ins, outs)
    ensures var after := DeleteVertex(db, r, ins, outs);
            && after.v.Lookup(r) == None
            && after.e.Lookup(k) == if NotAt(db, In, x, k) && NotAt(db, Out, x, k) then db.e.Lookup(k) else None
  {
    assert StoredOk(db.v, Limit(db), None, r) && MineOk(db.v, None, r);
    SecondList(db, x, ins, outs);
    var one := DeleteAllListed(db, In, x, ins);
    var two := DeleteAllListed(one, Out, x, outs);
    DeleteAllListedFewer(db, In, x, ins);
    DeleteAllListedFewer(one, Out, x, outs);
    NoEdgeLeft(db, x, ins, outs, In, k);
    NoEdgeLeft(db, x, ins, outs, Out, k);
    FewerStill(db, x, one, two);
    assert OnlyAt(db, x, two, k);
    RetireLooks(db.v, db.next, Limit(db), x, r);
  }
}
