/**
 The graph as one transaction reads it, and the edge collectors that every search goes through.

 A read-only transaction sees a fixed graph (module Snapshots says when), so the searches take it as a value.
 `edgesOut`, `edgesIn` and `edgesInOut` are the listings that the in-memory relation returns for a vertex, in whatever
 order the hash tables give.
 */
module GraphView {
  import opened Common

  /** The errors the searches raise before they start. */
  datatype SearchError = NoVertex | NoSource | NoDestination | OutOfRange

  datatype Result<+T> = Ok(value: T) | Err(error: SearchError)

  datatype Descriptor = Descriptor(rid: RecordId, depth: nat)

  datatype Direction = Incoming | Outgoing | Either

  /** A vertex that has a record but no in-memory entry is `OnDisk`. */
  datatype Presence = Absent | OnDisk | InMemory

  datatype Graph = Graph(
    vertices: set<RecordId>,
    onDisk: set<RecordId>,
    edgesOut: map<RecordId, seq<RecordId>>,
    edgesIn: map<RecordId, seq<RecordId>>,
    edgesInOut: map<RecordId, seq<RecordId>>,
    source: map<RecordId, RecordId>,
    target: map<RecordId, RecordId>)
  {
    /** Adjacency and endpoints agree (module StoreGraph says of which transactions this is true). */
    ghost predicate Valid() {
      && NO_RECORD !in vertices
      && edgesOut.Keys == vertices && edgesIn.Keys == vertices && edgesInOut.Keys == vertices
      && source.Keys == target.Keys
      && (forall e :: e in source ==> source[e] in vertices && target[e] in vertices)
      && (forall v, e :: v in vertices && e in edgesOut[v] ==> e in source && source[e] == v)
      && (forall v, e :: v in vertices && e in edgesIn[v] ==> e in source && target[e] == v)
      && (forall v, e :: v in vertices && e in edgesInOut[v] ==> e in edgesIn[v] || e in edgesOut[v])
    }

    /** Besides, every edge is listed at both its ends. */
    ghost predicate Complete()
      requires Valid()
    {
      && (forall e :: e in source ==> e in edgesOut[source[e]] && e in edgesIn[target[e]])
      && (forall v, e :: v in vertices && (e in edgesIn[v] || e in edgesOut[v]) ==> e in edgesInOut[v])
    }

    function Find(v: RecordId): Presence {
      if v in vertices then InMemory else if v in onDisk then OnDisk else Absent
    }

    function Listing(direction: Direction, v: RecordId): seq<RecordId>
      requires v in edgesOut && v in edgesIn && v in edgesInOut
    {
      match direction
      case Outgoing => edgesOut[v]
      case Incoming => edgesIn[v]
      case Either => edgesInOut[v]
    }
  }

  /** Optional user predicates over the records of vertices and edges. */
  datatype PathFilter = PathFilter(vertex: Option<RecordId -> bool>, edge: Option<RecordId -> bool>) {

    /** What `retrieveRdesc` decides for a vertex record. */
    predicate AdmitsVertex(v: RecordId) {
      vertex.Some? ==> vertex.value(v)
    }

    /** What `retrieveRdesc` decides for an edge record. */
    predicate AdmitsEdge(e: RecordId) {
      edge.Some? ==> edge.value(e)
    }
  }

  /** One search request: a graph, the direction to follow, the filter and the edge classes (none = all). */
  datatype Query = Query(graph: Graph, direction: Direction, filter: PathFilter, classes: seq<nat>) {

    /** Edge `e` is listed at `v`, belongs to a requested class and passes the edge filter. */
    ghost predicate Allows(v: RecordId, e: RecordId)
      requires graph.Valid()
    {
      && v in graph.vertices
      && e in graph.Listing(direction, v)
      && (classes == [] || e.classId in classes)
      && filter.AdmitsEdge(e)
    }

    /** Where following `e` from `v` leads. */
    function Across(v: RecordId, e: RecordId): RecordId
      requires e in graph.source && e in graph.target
    {
      match direction
      case Outgoing => graph.target[e]
      case Incoming => graph.source[e]
      case Either => if graph.source[e] != v then graph.source[e] else graph.target[e]
    }

    lemma AllowedEdgeIsKnown(v: RecordId, e: RecordId)
      requires graph.Valid() && Allows(v, e)
      ensures e in graph.source && e in graph.target
      ensures Across(v, e) in graph.vertices
      ensures direction == Outgoing ==> graph.source[e] == v
      ensures Joins(e, v, Across(v, e))
    {
    }

    /** The edge leads from `v` to `w` in the direction to follow. */
    ghost predicate Joins(e: RecordId, v: RecordId, w: RecordId) {
      && e in graph.source && e in graph.target
      && match direction
         case Outgoing => graph.source[e] == v && graph.target[e] == w
         case Incoming => graph.source[e] == w && graph.target[e] == v
         case Either => (graph.source[e] == v && graph.target[e] == w) || (graph.source[e] == w && graph.target[e] == v)
    }

    /** The edge is of a requested class and passes the edge filter. */
    ghost predicate Wants(e: RecordId) {
      (classes == [] || e.classId in classes) && filter.AdmitsEdge(e)
    }

    /** A hop is along an allowed edge that leads from the one vertex to the other, and nothing else is a hop. */
    lemma HopMeans(v: RecordId, w: RecordId)
      requires graph.Valid()
      ensures Hop(v, w) <==> exists e :: Allows(v, e) && Joins(e, v, w)
    {
      if Hop(v, w) {
        var e :| Allows(v, e) && (AllowedEdgeIsKnown(v, e); Across(v, e) == w);
        AllowedEdgeIsKnown(v, e);
      }
      if e :| Allows(v, e) && Joins(e, v, w) {
        AllowedEdgeIsKnown(v, e);
      }
    }

    /** In a complete graph the hops are the edges themselves, those wanted, in the direction to follow. */
    lemma HopIsEdge(v: RecordId, w: RecordId)
      requires graph.Valid() && graph.Complete()
      ensures Hop(v, w) <==> exists e :: Wants(e) && Joins(e, v, w)
    {
      HopMeans(v, w);
      if e :| Wants(e) && Joins(e, v, w) {
        WantedIsAllowed(e, v, w);
      }
    }

    lemma WantedIsAllowed(e: RecordId, v: RecordId, w: RecordId)
      requires graph.Valid() && graph.Complete() && Wants(e) && Joins(e, v, w)
      ensures Allows(v, e)
    {
    }

    /** One hop along an allowed edge, whatever the vertex filter says. */
    ghost predicate Hop(v: RecordId, w: RecordId)
      requires graph.Valid()
    {
      exists e :: Allows(v, e) && (AllowedEdgeIsKnown(v, e); Across(v, e) == w)
    }

    ghost function Hops(): Relation
      requires graph.Valid()
    {
      set v, w | v in graph.vertices && w in graph.vertices && Hop(v, w) :: (v, w)
    }

    /** The hops into vertices that pass the vertex filter: the relation searches are measured by. */
    ghost function Steps(): Relation
      requires graph.Valid()
    {
      set v, w | v in graph.vertices && w in graph.vertices && Hop(v, w) && filter.AdmitsVertex(w) :: (v, w)
    }
  }

  /** A query on a graph whose adjacency and endpoints agree. */
  type Good = q: Query | q.graph.Valid()
    witness Query(Graph({}, {}, map[], map[], map[], map[], map[]), Outgoing, PathFilter(None, None), [])

  /** The steps that searches are measured by. */
  ghost function StepsOf(q: Good): Relation {
    q.Steps()
  }

  type Relation = set<(RecordId, RecordId)>

  /** `es` is an allowed walk from `a` to `b` along out-edges into passing vertices. */
  ghost predicate IsWalk(q: Query, a: RecordId, es: seq<RecordId>, b: RecordId)
    requires q.graph.Valid() && q.direction == Outgoing
    decreases |es|
  {
    if es == [] then a == b
    else
      && q.Allows(a, es[0])
      && q.filter.AdmitsVertex(q.graph.target[es[0]])
      && IsWalk(q, q.graph.target[es[0]], es[1..], b)
  }

  /** The vertices that a walk visits, first and last included. */
  ghost function Stops(q: Query, a: RecordId, es: seq<RecordId>): (r: seq<RecordId>)
    requires forall e :: e in es ==> e in q.graph.target
    ensures |r| == |es| + 1 && r[0] == a
    decreases |es|
  {
    if es == [] then [a] else [a] + Stops(q, q.graph.target[es[0]], es[1..])
  }

  lemma {:induction false} WalkEdgesAreKnown(q: Query, a: RecordId, es: seq<RecordId>, b: RecordId)
    requires q.graph.Valid() && q.direction == Outgoing && IsWalk(q, a, es, b)
    ensures forall e :: e in es ==> e in q.graph.target && e in q.graph.source
    decreases |es|
  {
    if es != [] {
      WalkEdgesAreKnown(q, q.graph.target[es[0]], es[1..], b);
      forall e | e in es ensures e in q.graph.target && e in q.graph.source {
        if e != es[0] {
          assert e in es[1..];
        }
      }
    }
  }

  /** There is a walk of exactly `n` steps from `a` to `b`. */
  ghost predicate ReachableIn(steps: Relation, a: RecordId, b: RecordId, n: nat)
    decreases n
  {
    if n == 0 then a == b
    else exists u :: ReachableIn(steps, a, u, n - 1) && (u, b) in steps
  }

  ghost predicate Reachable(steps: Relation, a: RecordId, b: RecordId) {
    exists n: nat :: ReachableIn(steps, a, b, n)
  }

  /** `n` is the least number of steps from `a` to `b`. */
  ghost predicate IsDistance(steps: Relation, a: RecordId, b: RecordId, n: nat) {
    ReachableIn(steps, a, b, n) && forall k: nat :: k < n ==> !ReachableIn(steps, a, b, k)
  }

  /** `std::reverse` of a walk back, with its stops numbered from 0. */
  function Numbered(back: seq<RecordId>): (path: seq<Descriptor>)
    ensures |path| == |back|
    ensures forall i :: 0 <= i < |path| ==> path[i] == Descriptor(back[|back| - 1 - i], i)
  {
    seq(|back|, i requires 0 <= i < |back| => Descriptor(back[|back| - 1 - i], i))
  }

  /** The edges of one class in a listing, as `keys(classId)` yields them. */
  function OfClass(edges: seq<RecordId>, classId: nat): (r: seq<RecordId>)
    ensures forall e :: e in r <==> e in edges && e.classId == classId
  {
    if edges == [] then []
    else if edges[0].classId == classId then [edges[0]] + OfClass(edges[1..], classId)
    else OfClass(edges[1..], classId)
  }

  /** The edges of a listing that pass the edge filter, in order. */
  function Passing(filter: PathFilter, edges: seq<RecordId>): (r: seq<RecordId>)
    ensures forall e :: e in r <==> e in edges && filter.AdmitsEdge(e)
  {
    if edges == [] then []
    else
      var last := edges[|edges| - 1];
      Passing(filter, edges[..|edges| - 1]) + if filter.AdmitsEdge(last) then [last] else []
  }

  /** Appends the edges that pass the edge filter. */
  method Admitted(filter: PathFilter, edges: seq<RecordId>) returns (r: seq<RecordId>)
    ensures r == Passing(filter, edges)
  {
    r := [];
    for i := 0 to |edges|
      invariant r == Passing(filter, edges[..i])
    {
      assert edges[..i + 1][..i] == edges[..i];
      if filter.AdmitsEdge(edges[i]) {
        r := r + [edges[i]];
      }
    }
    assert edges[..|edges|] == edges;
  }

  /** The edges of the given classes that pass, class by class. */
  function PassingOf(filter: PathFilter, edges: seq<RecordId>, classes: seq<nat>): (r: seq<RecordId>)
    ensures forall e :: e in r <==> e in edges && e.classId in classes && filter.AdmitsEdge(e)
  {
    if classes == [] then []
    else PassingOf(filter, edges, classes[..|classes| - 1])
         + Passing(filter, OfClass(edges, classes[|classes| - 1]))
  }

  /** Appends the edges that pass, one class after the other. */
  method AdmittedOf(filter: PathFilter, edges: seq<RecordId>, classes: seq<nat>) returns (r: seq<RecordId>)
    ensures r == PassingOf(filter, edges, classes)
  {
    r := [];
    for i := 0 to |classes|
      invariant r == PassingOf(filter, edges, classes[..i])
    {
      assert classes[..i + 1][..i] == classes[..i];
      var more := Admitted(filter, OfClass(edges, classes[i]));
      r := r + more;
    }
    assert classes[..|classes|] == classes;
  }

  /** The allowed edges at a vertex, in the order in which a search meets them. */
  function AllowedEdges(q: Query, v: RecordId): (r: seq<RecordId>)
    requires q.graph.Valid() && v in q.graph.vertices
    ensures forall e :: e in r <==> q.Allows(v, e)
  {
    var listing := q.graph.Listing(q.direction, v);
    if q.classes == [] then Passing(q.filter, listing) else PassingOf(q.filter, listing, q.classes)
  }

  /** `getOutEdges` / `getIncidentEdges`: the allowed edges at a vertex, class by class when classes are given. */
  method CollectEdges(q: Query, v: RecordId) returns (r: seq<RecordId>)
    requires q.graph.Valid() && v in q.graph.vertices
    ensures r == AllowedEdges(q, v)
  {
    var listing := q.graph.Listing(q.direction, v);
    if q.classes == [] {
      r := Admitted(q.filter, listing);
    } else {
      r := AdmittedOf(q.filter, listing, q.classes);
    }
  }
}
