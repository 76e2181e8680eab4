/**
 A depth-first search that misses a vertex within its depth limit.
 */
module DepthExamples {
  import opened Common
  import opened GraphView
  import opened BreadthFirst
  import opened DepthTree
  import DepthFirst

  /** `a` leads to `b` and then to `c`, `b` leads to `c`, and `c` leads to `d`. */
  ghost predicate Detour(q: Good, a: RecordId, b: RecordId, c: RecordId, d: RecordId) {
    && {a, b, c, d} <= q.graph.vertices && a != b && a != c && a != d && b != c && b != d && c != d
    && Around(q, a) == [b, c] && Around(q, b) == [c] && Around(q, c) == [d]
  }

  /** The search comes to `c` by way of `b`, at the limit, and does not look further when it meets it again. */
  lemma DetourVisits(q: Good, a: RecordId, b: RecordId, c: RecordId, d: RecordId)
    requires Detour(q, a, b, c, d)
    ensures Visits(q, a, 2) == [Descriptor(a, 0), Descriptor(b, 1), Descriptor(c, 2)]
  {
    var one, three := [Descriptor(a, 0)], [Descriptor(a, 0), Descriptor(b, 1), Descriptor(c, 2)];
    assert [] + [Descriptor(a, 0)] == one && [c][1..] == [] && [b, c][1..] == [c];
    VisitsB(q, a, b, c, d, one);
    assert VisitAll(q, 2, [c], 1, three) == VisitAll(q, 2, [], 1, three);
    assert VisitAll(q, 2, [b, c], 1, one) == VisitAll(q, 2, [c], 1, three);
  }

  lemma VisitsB(q: Good, a: RecordId, b: RecordId, c: RecordId, d: RecordId, one: seq<Descriptor>)
    requires Detour(q, a, b, c, d) && one == [Descriptor(a, 0)]
    ensures Visit(q, 2, b, 1, one) == [Descriptor(a, 0), Descriptor(b, 1), Descriptor(c, 2)]
  {
    var two := [Descriptor(a, 0), Descriptor(b, 1)];
    assert one + [Descriptor(b, 1)] == two && [c][1..] == [];
    assert VisitAll(q, 2, [c], 2, two) == VisitAll(q, 2, [], 2, Visit(q, 2, c, 2, two));
  }

  lemma DetourMisses(q: Good, a: RecordId, b: RecordId, c: RecordId, d: RecordId)
    requires Detour(q, a, b, c, d)
    ensures d !in Seen(Visits(q, a, 2)) && ReachableIn(HopsOf(q), a, d, 2)
  {
    DetourVisits(q, a, b, c, d);
    AroundIsHops(q, a, c);
    AroundIsHops(q, c, d);
    assert ReachableIn(HopsOf(q), a, a, 0);
    assert ReachableIn(HopsOf(q), a, c, 1);
  }

  function DetourQuery(): Query {
    var outs := map[Vertex(1) := [EdgeTo(2), EdgeTo(3)], Vertex(2) := [EdgeTo(5)], Vertex(3) := [EdgeTo(4)],
                    Vertex(4) := []];
    var ins := map[Vertex(1) := [], Vertex(2) := [EdgeTo(2)], Vertex(3) := [EdgeTo(3), EdgeTo(5)],
                   Vertex(4) := [EdgeTo(4)]];
    var sources := map[EdgeTo(2) := Vertex(1), EdgeTo(3) := Vertex(1), EdgeTo(4) := Vertex(3), EdgeTo(5) := Vertex(2)];
    var targets := map[EdgeTo(2) := Vertex(2), EdgeTo(3) := Vertex(3), EdgeTo(4) := Vertex(4), EdgeTo(5) := Vertex(3)];
    var graph := Graph(outs.Keys, {}, outs, ins, map v | v in outs && v in ins :: outs[v] + ins[v], sources, targets);
    Query(graph, Outgoing, PathFilter(None, None), [])
  }

  lemma DetourKeys(q: Query)
    requires q == DetourQuery()
    ensures var g := q.graph;
            && g.edgesOut.Keys == g.vertices && g.edgesIn.Keys == g.vertices && g.edgesInOut.Keys == g.vertices
            && g.source.Keys == g.target.Keys && NO_RECORD !in g.vertices
            && forall e :: e in g.source ==> g.source[e] in g.vertices && g.target[e] in g.vertices
  {
  }

  lemma DetourOuts(q: Query)
    requires q == DetourQuery()
    ensures var g := q.graph;
            forall v, e :: v in g.edgesOut && e in g.edgesOut[v] ==> e in g.source && g.source[e] == v
  {
  }

  lemma DetourIns(q: Query)
    requires q == DetourQuery()
    ensures var g := q.graph;
            forall v, e :: v in g.edgesIn && e in g.edgesIn[v] ==> e in g.target && g.target[e] == v
  {
  }

  lemma DetourBoth(q: Query)
    requires q == DetourQuery()
    ensures var g := q.graph;
            forall v, e :: v in g.edgesInOut && v in g.edgesIn && v in g.edgesOut && e in g.edgesInOut[v] ==>
              e in g.edgesIn[v] || e in g.edgesOut[v]
  {
  }

  lemma DetourIsGraph(q: Query)
    requires q == DetourQuery()
    ensures q.graph.Valid()
  {
    DetourKeys(q);
    DetourOuts(q);
    DetourIns(q);
    DetourBoth(q);
  }

  /** What matters of the graph. */
  ghost predicate DetourEnds(q: Query) {
    && q.direction == Outgoing && q.classes == [] && q.filter.edge.None?
    && (forall i: nat :: 1 <= i <= 4 ==> Vertex(i) in q.graph.vertices && Vertex(i) in q.graph.edgesOut)
    && (forall i: nat :: 2 <= i <= 5 ==> EdgeTo(i) in q.graph.source && EdgeTo(i) in q.graph.target)
    && (forall i: nat :: 2 <= i <= 5 ==> q.graph.target[EdgeTo(i)] == Vertex(if i == 5 then 3 else i))
    && q.graph.edgesOut[Vertex(1)] == [EdgeTo(2), EdgeTo(3)] && q.graph.edgesOut[Vertex(2)] == [EdgeTo(5)]
    && q.graph.edgesOut[Vertex(3)] == [EdgeTo(4)]
  }

  lemma DetourHasEnds(q: Query)
    requires q == DetourQuery()
    ensures DetourEnds(q)
  {
  }

  /** Two edges out, two vertices around. */
  lemma AroundFirst(q: Good, u: RecordId, e: RecordId, f: RecordId)
    requires q.direction == Outgoing && q.classes == [] && q.filter.edge.None?
    requires u in q.graph.vertices && q.graph.edgesOut[u] == [e, f]
    ensures e in q.graph.target && f in q.graph.target && Around(q, u) == [q.graph.target[e], q.graph.target[f]]
  {
    PlainNeighbours(q, u);
    assert q.graph.edgesOut[u][0] == e && q.graph.edgesOut[u][1] == f;
  }

  /** One edge out, one vertex around. */
  lemma AroundOther(q: Good, u: RecordId, e: RecordId)
    requires q.direction == Outgoing && q.classes == [] && q.filter.edge.None?
    requires u in q.graph.vertices && q.graph.edgesOut[u] == [e]
    ensures e in q.graph.target && Around(q, u) == [q.graph.target[e]]
  {
    PlainNeighbours(q, u);
    assert q.graph.edgesOut[u][0] == e;
  }

  lemma DetourIsDetour(q: Good)
    requires DetourEnds(q)
    ensures Detour(q, Vertex(1), Vertex(2), Vertex(3), Vertex(4))
  {
    AroundFirst(q, Vertex(1), EdgeTo(2), EdgeTo(3));
    AroundOther(q, Vertex(2), EdgeTo(5));
    AroundOther(q, Vertex(3), EdgeTo(4));
  }

  lemma NotReported(q: Good, root: RecordId, v: RecordId, found: seq<Descriptor>)
    requires v !in Seen(Visits(q, root, 2)) && found == Selected(q, 0, Visits(q, root, 2))
    ensures forall d :: d in found ==> d.rid != v
  {
    forall d | d in found ensures d.rid != v {
      SelectedIs(q, 0, Visits(q, root, 2), d);
    }
  }

  /** A search to depth 2 that does not report a vertex two hops away. */
  method DetourSearch() returns (found: seq<Descriptor>)
    ensures DetourQuery().graph.Valid() && ReachableIn(HopsOf(DetourQuery()), Vertex(1), Vertex(4), 2)
    ensures forall d :: d in found ==> d.rid != Vertex(4)
  {
    var query := DetourQuery();
    DetourIsGraph(query);
    DetourHasEnds(query);
    var q: Good := query;
    DetourIsDetour(q);
    DetourMisses(q, Vertex(1), Vertex(2), Vertex(3), Vertex(4));
    var r := DepthFirst.Search(q, Descriptor(Vertex(1), 0), 0, 2);
    found := r.value;
    NotReported(q, Vertex(1), Vertex(4), found);
  }
}
