/**
 What a transaction reads from the store is a graph in the sense of the searches: always for the writer, and for a
 reader as long as no commit has pruned an end of an edge of its version.
 */
module StoreGraph {
  import opened Common
  import opened Histories
  import opened Store
  import opened StoreInvariant
  import opened StoreRuns
  import opened Snapshots
  import G = GraphView

  /** The vertex found under an id. */
  function Vertex(db: Db, r: RecordId): Oid {
    if db.v.Lookup(r).Some? then db.v.Lookup(r).value else 0
  }

  /** The id of an edge's end, as `getVertexSrc` and `getVertexDst` return it. */
  function EndOf(db: Db, d: Direction, k: RecordId): Option<RecordId> {
    match db.e.Lookup(k)
    case None => None
    case Some(o) =>
      match Latest(db.End(Side(d, o)))
      case Some(x) => if db.v.Alive(x) then Some(db.v.At(x).rid) else None
      case None => None
  }

  /** `g` holds the answers that the relation gives to the writer, in any order. */
  ghost predicate Records(db: Db, g: G.Graph) {
    && (forall r :: r in g.vertices <==> db.v.Lookup(r).Some?)
    && g.edgesOut.Keys == g.vertices && g.edgesIn.Keys == g.vertices && g.edgesInOut.Keys == g.vertices
    && (forall r, k :: r in g.vertices ==> (k in g.edgesOut[r] <==> Listed(db, Spot(Out, Vertex(db, r), k)).Some?))
    && (forall r, k :: r in g.vertices ==> (k in g.edgesIn[r] <==> Listed(db, Spot(In, Vertex(db, r), k)).Some?))
    && (forall r, k :: r in g.vertices ==> (k in g.edgesInOut[r] <==> k in g.edgesIn[r] || k in g.edgesOut[r]))
    && (forall k :: k in g.source <==> db.e.Lookup(k).Some?) && g.target.Keys == g.source.Keys
    && (forall k :: k in g.source ==> EndOf(db, Out, k) == Some(g.source[k]) && EndOf(db, In, k) == Some(g.target[k]))
  }

  /** An edge is listed at a vertex exactly if the vertex is its end. */
  ghost predicate ListedIffEnd(db: Db, d: Direction, r: RecordId, k: RecordId) {
    db.v.Lookup(r).Some? ==>
      (Listed(db, Spot(d, Vertex(db, r), k)).Some? <==> db.e.Lookup(k).Some? && EndOf(db, d, k) == Some(r))
  }

  ghost predicate EndIsVertex(db: Db, d: Direction, k: RecordId) {
    db.e.Lookup(k).Some? ==> EndOf(db, d, k).Some? && db.v.Lookup(EndOf(db, d, k).value).Some?
  }

  lemma ListsShowEnds(db: Db, d: Direction, r: RecordId, k: RecordId)
    requires Valid(db)
    ensures ListedIffEnd(db, d, r, k)
  {
    if db.v.Lookup(r).Some? {
      var x := Vertex(db, r);
      assert SpotAgrees(db, Spot(d, x, k)) && EdgeAgrees(db, d, k);
      assert StoredOk(db.v, Limit(db), None, r) && MineOk(db.v, None, r);
      assert StoredOk(db.e, Limit(db), db.current, k) && MineOk(db.e, db.current, k);
    }
  }

  lemma EndsAreVertices(db: Db, d: Direction, k: RecordId)
    requires Valid(db)
    ensures EndIsVertex(db, d, k)
  {
    if db.e.Lookup(k).Some? {
      assert EdgeAgrees(db, d, k);
      var x := Latest(db.End(Side(d, db.e.Lookup(k).value))).value;
      assert StoredOk(db.v, Limit(db), None, db.v.At(x).rid) && MineOk(db.v, None, db.v.At(x).rid);
    }
  }

  lemma RecordsEnds(db: Db, g: G.Graph)
    requires (forall d, k :: EndIsVertex(db, d, k)) && Records(db, g)
    ensures forall k :: k in g.source ==> k in g.target && g.source[k] in g.vertices && g.target[k] in g.vertices
  {
    forall k | k in g.source ensures k in g.target && g.source[k] in g.vertices && g.target[k] in g.vertices {
      assert EndIsVertex(db, Out, k) && EndIsVertex(db, In, k);
    }
  }

  lemma RecordsLists(db: Db, g: G.Graph)
    requires (forall d, r, k :: ListedIffEnd(db, d, r, k)) && Records(db, g)
    ensures forall r, k :: r in g.vertices && k in g.edgesOut[r] ==> k in g.source && g.source[k] == r
    ensures forall r, k :: r in g.vertices && k in g.edgesIn[r] ==> k in g.target && g.target[k] == r
  {
    forall r, k | r in g.vertices && k in g.edgesOut[r] ensures k in g.source && g.source[k] == r {
      assert ListedIffEnd(db, Out, r, k);
    }
    forall r, k | r in g.vertices && k in g.edgesIn[r] ensures k in g.target && g.target[k] == r {
      assert ListedIffEnd(db, In, r, k);
    }
  }

  lemma RecordsGraph(db: Db, g: G.Graph)
    requires forall d, r, k :: ListedIffEnd(db, d, r, k)
    requires forall d, k :: EndIsVertex(db, d, k)
    requires Records(db, g) && NO_RECORD !in g.vertices
    ensures g.Valid()
  {
    RecordsEnds(db, g);
    RecordsLists(db, g);
  }

  lemma RecordsAll(db: Db, g: G.Graph)
    requires forall d, r, k :: ListedIffEnd(db, d, r, k)
    requires Records(db, g) && g.Valid()
    ensures g.Complete()
  {
    forall k | k in g.source ensures k in g.edgesOut[g.source[k]] && k in g.edgesIn[g.target[k]] {
      assert ListedIffEnd(db, Out, g.source[k], k) && ListedIffEnd(db, In, g.target[k], k);
    }
  }

  /** The precondition of every search holds of what the store answers, and every edge is listed at both its ends. */
  lemma StoreIsGraph(db: Db, g: G.Graph)
    requires Valid(db) && Records(db, g) && NO_RECORD !in g.vertices
    ensures g.Valid() && g.Complete()
  {
    forall d, r, k ensures ListedIffEnd(db, d, r, k) {
      ListsShowEnds(db, d, r, k);
    }
    forall d, k ensures EndIsVertex(db, d, k) {
      EndsAreVertices(db, d, k);
    }
    RecordsGraph(db, g);
    RecordsAll(db, g);
  }

  // A reader.

  /** The vertex that a reader at `v` finds under an id. */
  function VertexAt(db: Db, r: RecordId, v: nat): Oid {
    if db.v.LookupAt(r, v).Some? then db.v.LookupAt(r, v).value else 0
  }

  /** The id of an edge's end at version `v`. */
  function EndOfAt(db: Db, d: Direction, k: RecordId, v: nat): Option<RecordId> {
    match db.e.LookupAt(k, v)
    case None => None
    case Some(o) =>
      match EndAt(db, Side(d, o), v)
      case Some(x) => Some(db.v.At(x).rid)
      case None => None
  }

  /** The reader finds something under `r`, and it existed at the reader's version. */
  ghost predicate FoundAt(p: Pool, r: RecordId, v: nat) {
    p.LookupAt(r, v).Some? && Existed(p.At(p.LookupAt(r, v).value), v)
  }

  /** `g` holds the answers that the relation gives to a reader at `v` about what existed then, in any order. */
  ghost predicate RecordsAt(db: Db, g: G.Graph, v: nat) {
    && (forall r :: r in g.vertices <==> FoundAt(db.v, r, v))
    && g.edgesOut.Keys == g.vertices && g.edgesIn.Keys == g.vertices && g.edgesInOut.Keys == g.vertices
    && (forall r, k :: r in g.vertices ==>
          (k in g.edgesOut[r] <==> ListedAt(db, Spot(Out, VertexAt(db, r, v), k), v).Some?))
    && (forall r, k :: r in g.vertices ==>
          (k in g.edgesIn[r] <==> ListedAt(db, Spot(In, VertexAt(db, r, v), k), v).Some?))
    && (forall r, k :: r in g.vertices ==> (k in g.edgesInOut[r] <==> k in g.edgesIn[r] || k in g.edgesOut[r]))
    && (forall k :: k in g.source <==> FoundAt(db.e, k, v)) && g.target.Keys == g.source.Keys
    && (forall k :: k in g.source ==>
          EndOfAt(db, Out, k, v) == Some(g.source[k]) && EndOfAt(db, In, k, v) == Some(g.target[k]))
  }

  /** At version `v` an edge that existed has an end at `t`. */
  ghost predicate HasEnd(db: Db, t: Side, v: nat) {
    Existed(db.e.At(t.edge), v) ==> ReadAt(db.End(t), v).Some?
  }

  /** At version `v` an edge that is listed at `s` ends there. */
  ghost predicate EndsThere(db: Db, s: Spot, v: nat) {
    Existed(db.v.At(s.vertex), v) && ReadAt(db.Adj(s), v).Some? ==>
      ReadAt(db.End(Side(s.direction, ReadAt(db.Adj(s), v).value)), v) == Some(s.vertex)
  }

  /** The newest version is whole. */
  lemma NewestIsWhole(db: Db, s: Spot, t: Side)
    requires Valid(db) && !db.phase.Committing?
    ensures HasEnd(db, t, db.maxVersion) && EndsThere(db, s, db.maxVersion)
  {
    var v := db.maxVersion;
    NewestTips(db, s, t);
    assert EdgeSettled(db, t.direction, t.edge) && ObjectOk(db.e, db.next, t.edge) && VersionOk(db.e, v, t.edge);
    assert SpotSettled(db, s) && ObjectOk(db.v, db.next, s.vertex) && VersionOk(db.v, v, s.vertex);
    if ReadAt(db.Adj(s), v).Some? {
      NewestTips(db, s, Side(s.direction, ReadAt(db.Adj(s), v).value));
    }
  }

  lemma NewestTips(db: Db, s: Spot, t: Side)
    requires HistoriesOk(db) && !db.phase.Committing?
    ensures ReadAt(db.Adj(s), db.maxVersion) == Tip(db.Adj(s))
    ensures ReadAt(db.End(t), db.maxVersion) == Tip(db.End(t))
  {
    assert SpotOk(db, s) && SideOk(db, t);
    ReadAtTip(db.Adj(s), db.maxVersion);
    ReadAtTip(db.End(t), db.maxVersion);
  }

  /** A version stays whole at an edge's end exactly if no commit prunes the entry that was read there. */
  lemma EndStaysIff(db: Db, evs: seq<Event>, t: Side)
    requires Valid(db) && !db.phase.Committing? && IsRun(db, evs) && Existed(db.e.At(t.edge), db.maxVersion)
    ensures HasEnd(After(db, evs), t, db.maxVersion) <==> SideSpared(db, evs, t, db.maxVersion)
  {
    var s := Spot(t.direction, 0, NO_RECORD);
    NewestIsWhole(db, s, t);
    RunVersion(db, evs, db.maxVersion, s, t);
    assert SameAt(db.e, After(db, evs).e, db.maxVersion, t.edge);
  }

  /** As long as the ends of its edges are spared, what a version lists ends where it is listed. */
  lemma ListingStays(db: Db, evs: seq<Event>, s: Spot)
    requires Valid(db) && !db.phase.Committing? && IsRun(db, evs)
    requires forall t: Side :: Existed(db.e.At(t.edge), db.maxVersion) ==> SideSpared(db, evs, t, db.maxVersion)
    ensures EndsThere(After(db, evs), s, db.maxVersion)
  {
    var after, v := After(db, evs), db.maxVersion;
    RunVersion(db, evs, v, s, Side(s.direction, 0));
    assert SameAt(db.v, after.v, v, s.vertex);
    if Existed(db.v.At(s.vertex), v) && ReadAt(after.Adj(s), v).Some? {
      var t := Side(s.direction, ReadAt(db.Adj(s), v).value);
      NewestIsWhole(db, s, t);
      RunVersion(db, evs, v, s, t);
      assert ListedExisted(db, s, v) && ObjectOk(db.v, db.next, s.vertex);
    }
  }

  // What a served reader reads of a whole version.

  lemma FoundVertex(db: Db, v: nat, x: Oid)
    requires Valid(db) && Served(db, v) && Existed(db.v.At(x), v)
    ensures db.v.LookupAt(db.v.At(x).rid, v) == Some(x) && FoundAt(db.v, db.v.At(x).rid, v)
  {
    ServedReads(db, v, Spot(Out, x, NO_RECORD), Side(Out, 0));
  }

  lemma EndIsFound(db: Db, v: nat, d: Direction, k: RecordId, o: Oid)
    requires Valid(db) && Served(db, v) && db.e.LookupAt(k, v) == Some(o) && Existed(db.e.At(o), v)
    requires HasEnd(db, Side(d, o), v)
    ensures EndOfAt(db, d, k, v).Some? && FoundAt(db.v, EndOfAt(db, d, k, v).value, v)
  {
    var x := ReadAt(db.End(Side(d, o)), v).value;
    ServedReads(db, v, Spot(d, 0, k), Side(d, o));
    assert EndExisted(db, Side(d, o), v);
    FoundVertex(db, v, x);
  }

  lemma ListedIsFound(db: Db, v: nat, d: Direction, r: RecordId, k: RecordId, x: Oid)
    requires Valid(db) && Served(db, v) && db.v.LookupAt(r, v) == Some(x) && Existed(db.v.At(x), v)
    requires EndsThere(db, Spot(d, x, k), v) && ListedAt(db, Spot(d, x, k), v).Some?
    ensures FoundAt(db.e, k, v) && EndOfAt(db, d, k, v) == Some(r)
  {
    var s := Spot(d, x, k);
    var o := ReadAt(db.Adj(s), v).value;
    assert StoredOk(db.v, Limit(db), None, r) && SpotOk(db, s) && ListedExisted(db, s, v);
    assert EdgesOf(db.adj[s], db.e, k);
    ServedReads(db, v, s, Side(d, o));
  }

  /** What `g` needs of one vertex and one edge. */
  ghost predicate ListedEndsAt(db: Db, d: Direction, r: RecordId, k: RecordId, v: nat) {
    FoundAt(db.v, r, v) && ListedAt(db, Spot(d, VertexAt(db, r, v), k), v).Some? ==>
      FoundAt(db.e, k, v) && EndOfAt(db, d, k, v) == Some(r)
  }

  ghost predicate EndFoundAt(db: Db, d: Direction, k: RecordId, v: nat) {
    FoundAt(db.e, k, v) ==> EndOfAt(db, d, k, v).Some? && FoundAt(db.v, EndOfAt(db, d, k, v).value, v)
  }

  lemma RecordsEndsAt(db: Db, g: G.Graph, v: nat)
    requires (forall d, k :: EndFoundAt(db, d, k, v)) && RecordsAt(db, g, v)
    ensures forall k :: k in g.source ==> k in g.target && g.source[k] in g.vertices && g.target[k] in g.vertices
  {
    forall k | k in g.source ensures k in g.target && g.source[k] in g.vertices && g.target[k] in g.vertices {
      assert EndFoundAt(db, Out, k, v) && EndFoundAt(db, In, k, v);
    }
  }

  lemma RecordsListsAt(db: Db, g: G.Graph, v: nat)
    requires (forall d, r, k :: ListedEndsAt(db, d, r, k, v)) && RecordsAt(db, g, v)
    ensures forall r, k :: r in g.vertices && k in g.edgesOut[r] ==> k in g.source && g.source[k] == r
    ensures forall r, k :: r in g.vertices && k in g.edgesIn[r] ==> k in g.target && g.target[k] == r
  {
    forall r, k | r in g.vertices && k in g.edgesOut[r] ensures k in g.source && g.source[k] == r {
      assert ListedEndsAt(db, Out, r, k, v);
    }
    forall r, k | r in g.vertices && k in g.edgesIn[r] ensures k in g.target && g.target[k] == r {
      assert ListedEndsAt(db, In, r, k, v);
    }
  }

  lemma RecordsGraphAt(db: Db, g: G.Graph, v: nat)
    requires forall d, r, k :: ListedEndsAt(db, d, r, k, v)
    requires forall d, k :: EndFoundAt(db, d, k, v)
    requires RecordsAt(db, g, v) && NO_RECORD !in g.vertices
    ensures g.Valid()
  {
    RecordsEndsAt(db, g, v);
    RecordsListsAt(db, g, v);
  }

  lemma WholeIsGraph(db: Db, g: G.Graph, v: nat)
    requires Valid(db) && Served(db, v) && RecordsAt(db, g, v) && NO_RECORD !in g.vertices
    requires (forall t :: HasEnd(db, t, v)) && (forall s :: EndsThere(db, s, v))
    ensures g.Valid()
  {
    forall d, r, k ensures ListedEndsAt(db, d, r, k, v) {
      if FoundAt(db.v, r, v) && ListedAt(db, Spot(d, VertexAt(db, r, v), k), v).Some? {
        ListedIsFound(db, v, d, r, k, VertexAt(db, r, v));
      }
    }
    forall d, k ensures EndFoundAt(db, d, k, v) {
      if FoundAt(db.e, k, v) {
        EndIsFound(db, v, d, k, db.e.LookupAt(k, v).value);
      }
    }
    RecordsGraphAt(db, g, v);
  }

  /**
   The precondition of every search holds of what a reader is answered about its version, in every reachable state: the
   version was current in a state between commits, and no commit since then has pruned an end of one of its edges.
   */
  lemma ReaderIsGraph(before: seq<Event>, evs: seq<Event>, reader: Reader, g: G.Graph)
    requires IsRun(START, before) && !After(START, before).phase.Committing? && IsRun(After(START, before), evs)
    requires reader.version == After(START, before).maxVersion
    requires var db := After(START, before);
             && Active(After(db, evs), reader) && RecordsAt(After(db, evs), g, reader.version)
             && forall t: Side :: Existed(db.e.At(t.edge), db.maxVersion) ==> SideSpared(db, evs, t, db.maxVersion)
    requires NO_RECORD !in g.vertices
    ensures g.Valid()
  {
    var db, v := After(START, before), reader.version;
    StartValid();
    RunKeeps(START, before);
    RunKeeps(db, evs);
    ReadersAreServed(before);
    RunServesAll(db, evs);
    forall t ensures HasEnd(After(db, evs), t, v) {
      ObjectsStay(db, evs, t.edge);
      if Existed(db.e.At(t.edge), v) {
        EndStaysIff(db, evs, t);
      }
    }
    forall s ensures EndsThere(After(db, evs), s, v) {
      ListingStays(db, evs, s);
    }
    WholeIsGraph(After(db, evs), g, v);
  }

  lemma ObjectsStay(db: Db, evs: seq<Event>, o: Oid)
    requires Valid(db) && IsRun(db, evs)
    ensures Existed(After(db, evs).e.At(o), db.maxVersion) == Existed(db.e.At(o), db.maxVersion)
  {
    RunVersion(db, evs, db.maxVersion, Spot(Out, 0, NO_RECORD), Side(Out, 0));
    assert SameAt(db.e, After(db, evs).e, db.maxVersion, o);
  }
}
