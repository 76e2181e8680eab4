/**
 The in-memory relation store: vertices and edges as shared objects, the version histories that link them, and every
 step that a writer or a reader takes on them.

 A weak pointer is an object identity; it can be followed while some table still owns the object.
 */
module Store {
  import opened Common
  import opened Histories

  /** The identity of a vertex or edge object. */
  type Oid = nat

  /** `Out` pairs the out-list of a vertex with the source of an edge, `In` the in-list with the target. */
  datatype Direction = Out | In

  function Opposite(d: Direction): Direction {
    if d.Out? then In else Out
  }

  datatype Status = UncommittedCreate | CommittedCreate | UncommittedDelete | CommittedDelete

  /** An object's state. `born`, the version that committed its creation, is for the proofs only: no step reads it. */
  datatype Element = Element(rid: RecordId, version: nat, status: Status, born: nat)

  /** What `checkReadOnly` answers. */
  predicate HiddenAt(e: Element, v: nat) {
    e.status.UncommittedCreate? || (e.status.CommittedDelete? && v >= e.version)
    || (e.status.CommittedCreate? && v < e.version)
  }

  /** What `checkReadWrite` answers. */
  predicate Deleted(e: Element) {
    e.status.UncommittedDelete? || e.status.CommittedDelete?
  }

  /** The object had been created and not yet deleted at version `v`. */
  predicate Existed(e: Element, v: nat) {
    !e.status.UncommittedCreate? && e.born <= v && !(e.status.CommittedDelete? && e.version <= v)
  }

  /** What `updateState` leaves. */
  function Stamped(e: Element, c: nat): Element {
    if e.status.UncommittedCreate? then Element(e.rid, c, CommittedCreate, c)
    else if e.status.UncommittedDelete? then e.(version := c, status := CommittedDelete)
    else e
  }

  /** An entry of a delete queue. */
  datatype Tomb = Tomb(rid: RecordId, version: nat)

  /**
   All objects of one kind: the table every transaction shares, the writer's own table, the part of it that a commit
   still has to visit, the ids the commit found deleted, and the delete queue.
   */
  datatype Pool = Pool(
    objects: map<Oid, Element>, stored: map<RecordId, Oid>, mine: map<RecordId, Oid>, todo: set<RecordId>,
    dropped: seq<RecordId>, queue: seq<Tomb>)
  {
    function At(o: Oid): Element {
      if o in objects then objects[o] else Element(NO_RECORD, 0, UncommittedCreate, 0)
    }

    /** A pointer to the object can still be followed. */
    predicate Alive(o: Oid) {
      o in objects && var r := objects[o].rid; (r in stored && stored[r] == o) || (r in mine && mine[r] == o)
    }

    /** Lookup by the writer. */
    function Lookup(r: RecordId): Option<Oid> {
      if r in stored then if Deleted(At(stored[r])) then None else Some(stored[r])
      else if r in mine then if Deleted(At(mine[r])) then None else Some(mine[r])
      else None
    }

    /** Lookup by a reader at version `v`. */
    function LookupAt(r: RecordId, v: nat): Option<Oid> {
      if r in stored && !HiddenAt(At(stored[r]), v) then Some(stored[r]) else None
    }

    function AddMine(r: RecordId, o: Oid): Pool {
      if r in mine then this else this.(mine := mine[r := o], todo := todo + {r})
    }

    /** Makes a new object `o` that only the writer owns. */
    function Make(r: RecordId, o: Oid): Pool {
      this.(objects := objects[o := Element(r, 0, UncommittedCreate, 0)]).AddMine(r, o)
    }

    /** Deletes on behalf of the writer: forgets an object of its own, marks any other. */
    function Retire(o: Oid): Pool {
      var e := At(o);
      if e.status.UncommittedCreate? then this.(mine := mine - {e.rid}, todo := todo - {e.rid})
      else this.(objects := objects[o := e.(status := UncommittedDelete)]).AddMine(e.rid, o)
    }

    function Emplace(r: RecordId, o: Oid): Pool {
      if r in stored then this else this.(stored := stored[r := o])
    }

    /** Commits the state of `o` at version `c`. */
    function Stamp(o: Oid, c: nat): Pool {
      var e := At(o);
      this.(objects := objects[o := Stamped(e, c)],
            dropped := if e.status.UncommittedDelete? then dropped + [e.rid] else dropped)
    }

    /** Visits an object on commit: stores a new one and stamps it. */
    function Visit(o: Oid, c: nat): Pool {
      (if At(o).status.UncommittedCreate? then Emplace(At(o).rid, o) else this).(todo := todo - {At(o).rid}).Stamp(o, c)
    }

    /** Undoes a pending deletion. */
    function Unmark(o: Oid): Element {
      var e := At(o);
      if e.status.UncommittedDelete? && e.rid in mine then e.(status := CommittedCreate) else e
    }

    /** Drops the writer's table, keeping every object as it is. */
    function Closed(): Pool {
      this.(mine := map[], todo := {}, dropped := [])
    }

    /** Drops the writer's table and undoes its pending deletions. */
    function Undone(): Pool {
      Closed().(objects := map o | o in objects :: Unmark(o))
    }

    /** Hands the ids found deleted to the queue. */
    function Enqueue(c: nat): Pool {
      this.(queue := queue + seq(|dropped|, i requires 0 <= i < |dropped| => Tomb(dropped[i], c)), dropped := [])
    }

    /** How many entries at the front of the queue are at or below `bound`. */
    function Due(bound: nat): nat {
      DueIn(queue, bound)
    }

    /** `pop_front(bound)` followed by erasing what it returned. */
    function Reclaim(bound: nat): Pool {
      var n := Due(bound);
      var gone := set t | t in queue[..n] :: t.rid;
      this.(stored := stored - gone, queue := queue[n..])
    }
  }

  function DueIn(q: seq<Tomb>, bound: nat): (n: nat)
    ensures n <= |q|
    ensures forall i :: 0 <= i < n ==> q[i].version <= bound
    ensures n < |q| ==> q[n].version > bound
  {
    if q == [] || q[0].version > bound then 0 else 1 + DueIn(q[1..], bound)
  }

  /** The place in vertex `vertex`'s list of direction `direction` for edge `edge`. */
  datatype Spot = Spot(direction: Direction, vertex: Oid, edge: RecordId)

  /** The source or target field of an edge object. */
  datatype Side = Side(direction: Direction, edge: Oid)

  datatype Phase = Idle | Writing | Committing | Published

  /** What a commit still has to do for the edge it is visiting. */
  datatype Instr = PruneList(direction: Direction, vertex: Oid) | Upgrade(spot: Spot)

  datatype Reader = Reader(txn: nat, version: nat)

  datatype Db = Db(
    v: Pool, e: Pool, adj: map<Spot, History<Oid>>, ends: map<Side, History<Oid>>, next: Oid,
    maxVersion: nat, phase: Phase, base: nat, current: Option<Oid>, prog: seq<Instr>,
    nextTxn: nat, readers: seq<Reader>)
  {
    function Adj(s: Spot): History<Oid> {
      if s in adj then adj[s] else Empty()
    }

    function End(s: Side): History<Oid> {
      if s in ends then ends[s] else Empty()
    }

    // Writing.

    /** A new vertex object, the writer's own. */
    function MakeVertex(r: RecordId): Db {
      this.(v := v.Make(r, next), next := next + 1)
    }

    /** A new edge object between two vertex objects, listed at both. */
    function MakeEdge(r: RecordId, source: Oid, target: Oid): Db {
      var out, inn := Spot(Out, source, r), Spot(In, target, r);
      this.(e := e.Make(r, next), next := next + 1,
            ends := ends[Side(Out, next) := AddLatest(Empty(), source)][Side(In, next) := AddLatest(Empty(), target)],
            adj := adj[out := AddLatest(Adj(out), next)][inn := AddLatest(Adj(inn), next)])
    }

    /** Unlists an edge at its latest end of direction `d`, if that vertex can be reached. */
    function Unlist(d: Direction, o: Oid): Db {
      match Latest(End(Side(d, o)))
      case None => this
      case Some(x) =>
        var s := Spot(d, x, e.At(o).rid);
        if v.Alive(x) && s in adj then this.(adj := adj[s := DeleteLatest(adj[s])]) else this
    }

    function RetireEdge(o: Oid): Db {
      this.(e := e.Retire(o))
    }

    function RetireVertex(x: Oid): Db {
      this.(v := v.Retire(x))
    }

    /** Moves an edge's end of direction `d` from vertex object `was` to `now`. */
    function MoveEnd(d: Direction, o: Oid, was: Oid, now: Oid): Db {
      var r := e.At(o).rid;
      var from, to := Spot(d, was, r), Spot(d, now, r);
      var unlisted := if from in adj then adj[from := DeleteLatest(adj[from])] else adj;
      this.(adj := unlisted[to := AddLatest(if to in unlisted then unlisted[to] else Empty(), o)],
            ends := ends[Side(d, o) := AddLatest(End(Side(d, o)), now)],
            e := e.AddMine(r, o))
    }

    // Committing.

    function PrunedAdj(d: Direction, x: Oid): map<Spot, History<Oid>> {
      map s | s in adj :: if s.direction == d && s.vertex == x then Prune(adj[s], base) else adj[s]
    }

    function Run(i: Instr): Db {
      match i
      case PruneList(d, x) => this.(adj := PrunedAdj(d, x))
      case Upgrade(s) => if s in adj then this.(adj := adj[s := Commit(adj[s], maxVersion + 1)]) else this
    }

    /** Carries out the next command for the edge being visited. */
    function Execute(): Db {
      if prog == [] then this else Run(prog[0]).(prog := prog[1..])
    }

    /** The commands for one side of an edge: first at the uncommitted end, then at the committed one. */
    function Visit(d: Direction, o: Oid): seq<Instr> {
      var h, r := End(Side(d, o)), e.At(o).rid;
      (if h.unstable.Some? && h.unstable.value.active && v.Alive(h.unstable.value.item)
       then [PruneList(d, h.unstable.value.item), Upgrade(Spot(d, h.unstable.value.item, r))] else [])
      + (if h.stable != [] && v.Alive(h.stable[|h.stable| - 1].item)
         then [PruneList(d, h.stable[|h.stable| - 1].item), Upgrade(Spot(d, h.stable[|h.stable| - 1].item, r))]
         else [])
    }

    /** Starts on the edge object `o`: stores a new edge, prunes the ends of one that is neither new nor deleted. */
    function Begin(o: Oid): Db {
      var r, st := e.At(o).rid, e.At(o).status;
      this.(e := (if st.UncommittedCreate? then e.Emplace(r, o) else e).(todo := e.todo - {r}), current := Some(o),
            ends := if st.UncommittedCreate? || st.UncommittedDelete? then ends else PrunedEnds(o))
    }

    function Pick(o: Oid): Db {
      Begin(o).(prog := Begin(o).Visit(Out, o) + Begin(o).Visit(In, o))
    }

    function PrunedEnds(o: Oid): map<Side, History<Oid>> {
      map s | s in ends :: if s.edge == o then Prune(ends[s], base) else ends[s]
    }

    /** Ends the visit: commits the edge's state and then its two ends. */
    function Finish(o: Oid): Db {
      this.(e := e.Stamp(o, maxVersion + 1), current := None,
            ends := map s | s in ends :: if s.edge == o then Commit(ends[s], maxVersion + 1) else ends[s])
    }

    function CommitVertex(o: Oid): Db {
      this.(v := v.Visit(o, maxVersion + 1))
    }

    /** Hands deleted ids to the queues, makes the new version current and lets go of the writer's tables. */
    function Publish(): Db {
      this.(v := v.Enqueue(maxVersion + 1).Closed(), e := e.Enqueue(maxVersion + 1).Closed(),
            maxVersion := maxVersion + 1, phase := Published)
    }

    /** Erases queued elements up to `bound`, edges first. */
    function Reclaim(bound: nat): Db {
      this.(v := v.Reclaim(bound), e := e.Reclaim(bound))
    }

    // Rolling back.

    /** The history at `s` belongs to an end, uncommitted or committed, of an edge the writer touched. */
    predicate Touched(s: Spot) {
      s.edge in e.mine && v.Alive(s.vertex) && IsEnd(Side(s.direction, e.mine[s.edge]), s.vertex)
    }

    /** `x` is the uncommitted or the newest committed vertex at `s`. */
    predicate IsEnd(s: Side, x: Oid) {
      var h := End(s);
      h.unstable == Some(Slot(true, x)) || Tip(h) == Some(x)
    }

    function Rollback(): Db {
      this.(v := v.Undone(), e := e.Undone(),
            adj := map s | s in adj :: if Touched(s) then Histories.Rollback(adj[s]) else adj[s],
            ends := map s | s in ends :: if e.At(s.edge).rid in e.mine && e.mine[e.At(s.edge).rid] == s.edge
                                         then Histories.Rollback(ends[s]) else ends[s],
            phase := Idle)
    }
  }

  // The writer's operations.

  datatype WriteError = DuplicateEdge | NoEdge | UnknownEnd

  datatype Outcome = Done(db: Db) | Failed(error: WriteError)

  function CreateVertex(db: Db, r: RecordId): Db {
    if db.v.Lookup(r).Some? then db else db.MakeVertex(r)
  }

  /** Both vertices are looked up before either is made. */
  function CreateEdge(db: Db, r: RecordId, source: RecordId, target: RecordId): Outcome {
    if db.e.Lookup(r).Some? then Failed(DuplicateEdge)
    else
      var s, t := db.v.Lookup(source), db.v.Lookup(target);
      var one := if s.None? then db.MakeVertex(source) else db;
      var two := if t.None? then one.MakeVertex(target) else one;
      Done(two.MakeEdge(r, if s.None? then db.next else s.value, if t.None? then one.next else t.value))
  }

  function DeleteEdge(db: Db, r: RecordId): Db {
    match db.e.Lookup(r)
    case None => db
    case Some(o) => db.Unlist(Out, o).Unlist(In, o).RetireEdge(o)
  }

  /** `alterVertexSrc` for `Out`, `alterVertexDst` for `In`. */
  function AlterEnd(db: Db, d: Direction, r: RecordId, vertex: RecordId): Outcome {
    match db.e.Lookup(r)
    case None => Failed(NoEdge)
    case Some(o) =>
      match Latest(db.End(Side(d, o)))
      case None => Failed(UnknownEnd)
      case Some(was) =>
        if !db.v.Alive(was) then Failed(UnknownEnd)
        else
          match db.v.Lookup(vertex)
          case Some(now) => Done(db.MoveEnd(d, o, was, now))
          case None => Done(db.MakeVertex(vertex).MoveEnd(d, o, was, db.next))
  }

  /** Deletes the edge that vertex object `x` lists at `r`, without unlisting it at `x`. */
  function DeleteListed(db: Db, d: Direction, x: Oid, r: RecordId): Db {
    match Latest(db.Adj(Spot(d, x, r)))
    case None => db
    case Some(o) => if db.e.Alive(o) then db.Unlist(Opposite(d), o).RetireEdge(o) else db
  }

  function DeleteAllListed(db: Db, d: Direction, x: Oid, keys: seq<RecordId>): Db
    decreases |keys|
  {
    if keys == [] then db else DeleteAllListed(DeleteListed(db, d, x, keys[0]), d, x, keys[1..])
  }

  /** `ins` and `outs` are the keys of the two lists in the order in which the hash maps produce them. */
  function DeleteVertex(db: Db, r: RecordId, ins: seq<RecordId>, outs: seq<RecordId>): Db {
    match db.v.Lookup(r)
    case None => db
    case Some(x) => DeleteAllListed(DeleteAllListed(db, In, x, ins), Out, x, outs).RetireVertex(x)
  }
}
