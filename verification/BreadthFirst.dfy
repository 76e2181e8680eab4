/**
 `breadthFirstSearchRdesc`: the loops of the breadth-first search, and what they promise.
 */
module BreadthFirst {
  import opened Common
  import opened GraphView
  import opened Levels
  import opened BreadthRounds
  import opened BreadthExact

  /** Expands one vertex: meets its neighbours one by one. */
  method Expand(minDepth: nat, maxDepth: nat, next: seq<Neighbour>, st0: Bfs) returns (st: Bfs)
    ensures st == Met(minDepth, maxDepth, next, st0)
  {
    st := st0;
    for i := 0 to |next|
      invariant st == Met(minDepth, maxDepth, next[..i], st0)
    {
      st := AddUnique(minDepth, maxDepth, next[i].rid, next[i].passes, st);
      assert next[..i + 1][..i] == next[..i];
    }
    assert next[..|next|] == next;
  }

  /** The search loop proper. */
  method Explore(q: Good, root: Descriptor, minDepth: nat, maxDepth: nat) returns (found: seq<Descriptor>)
    requires root.rid in q.graph.vertices
    ensures IsAnswer(q, root, minDepth, maxDepth, found)
    ensures exists st :: SoundIn(q, root, minDepth, st) && st.found == found
  {
    ghost var rounds := 0;
    var st := Initial(root, minDepth);
    while st.queue != []
      invariant st == After(q, root, minDepth, maxDepth, rounds)
      decreases Remaining(q.graph.vertices, st)
    {
      AfterSound(q, root, minDepth, maxDepth, rounds);
      RoundRemaining(q, root, minDepth, maxDepth, st);
      var next := Neighbours(q, st.queue[0]);
      st := Expand(minDepth, maxDepth, next, Advance(root.rid, st));
      rounds := rounds + 1;
    }
    AfterSound(q, root, minDepth, maxDepth, rounds);
    return st.found;
  }

  /**
   The main result. Whatever the filter, no vertex is reported twice and every one reported is reached through passing
   vertices. The reported depths are exact distances, and nothing in range is missing, exactly if the search nowhere
   stalls before it is done; in particular if the filter rejects no vertex next to a reached one.
   */
  method Search(q: Good, root: Descriptor, minDepth: nat, maxDepth: nat) returns (r: Result<seq<Descriptor>>)
    ensures q.graph.Find(root.rid) == Absent <==> r == Err(NoVertex)
    ensures q.graph.Find(root.rid) == OnDisk ==> r == Ok(if minDepth == 0 then [root] else [])
    ensures q.graph.Find(root.rid) == InMemory ==>
              && r.Ok? && Distinct(r.value) && RootReported(root, minDepth, r.value)
              && (forall d :: d in r.value ==> Reachable(StepsOf(q), root.rid, d.rid))
              && IsAnswer(q, root, minDepth, maxDepth, r.value)
    ensures q.graph.Find(root.rid) == InMemory ==>
              r.Ok? && (ExactDepths(StepsOf(q), root.rid, minDepth, maxDepth, r.value) <==>
                        NoHarm(q, root.rid, minDepth, maxDepth))
    ensures q.graph.Find(root.rid) == InMemory && NeverRejects(q, root.rid) ==> NoHarm(q, root.rid, minDepth, maxDepth)
  {
    if q.graph.Find(root.rid) == Absent {
      return Err(NoVertex);
    } else if q.graph.Find(root.rid) == OnDisk {
      return Ok(if minDepth == 0 then [root] else []);
    }
    var found := Explore(q, root, minDepth, maxDepth);
    ExactIff(q, root, minDepth, maxDepth, found);
    if NeverRejects(q, root.rid) {
      NeverRejectsNoHarm(q, root.rid, minDepth, maxDepth);
    }
    return Ok(found);
  }

  // A graph in which the search stalls.

  /** From `a` the search meets `b`, which is rejected, and then `c`, from which it meets `d`. */
  ghost predicate Spoils(q: Good, a: RecordId, b: RecordId, c: RecordId, d: RecordId) {
    && {a, b, c, d} <= q.graph.vertices && a != b && a != c && a != d && b != c && b != d && c != d
    && NeighboursOf(q, a) == [Neighbour(b, false), Neighbour(c, true)]
    && NeighboursOf(q, c) == [Neighbour(d, true)] && NeighboursOf(q, d) == []
  }

  lemma MetTwo(minDepth: nat, maxDepth: nat, a: Neighbour, b: Neighbour, st: Bfs)
    ensures Met(minDepth, maxDepth, [a], st) == AddUnique(minDepth, maxDepth, a.rid, a.passes, st)
    ensures Met(minDepth, maxDepth, [a, b], st) ==
              AddUnique(minDepth, maxDepth, b.rid, b.passes, AddUnique(minDepth, maxDepth, a.rid, a.passes, st))
  {
    assert [a, b][..1] == [a] && [a][..0] == [];
  }

  /** The first round reports `c` at depth 1 and loses the marker; so the second reports `d` at depth 1 too. */
  lemma SpoiledStates(a: RecordId, b: RecordId, c: RecordId, d: RecordId, root: Descriptor)
    requires a != b && a != c && a != d && b != c && b != d && c != d && root == Descriptor(a, 0)
    requires NO_RECORD !in {a, b, c, d}
    ensures Met(0, 5, [Neighbour(b, false), Neighbour(c, true)], Advance(a, Initial(root, 0)))
            == Bfs({a, b, c}, [c], 0, b, [root, Descriptor(c, 1)])
    ensures Met(0, 5, [Neighbour(d, true)], Advance(a, Bfs({a, b, c}, [c], 0, b, [root, Descriptor(c, 1)])))
            == Bfs({a, b, c, d}, [d], 0, b, [root, Descriptor(c, 1), Descriptor(d, 1)])
  {
    MetTwo(0, 5, Neighbour(b, false), Neighbour(c, true), Advance(a, Initial(root, 0)));
    assert Advance(a, Initial(root, 0)) == Bfs({a}, [], 0, NO_RECORD, [root]);
    var one := Bfs({a, b, c}, [c], 0, b, [root, Descriptor(c, 1)]);
    MetTwo(0, 5, Neighbour(d, true), Neighbour(d, true), Advance(a, one));
  }

  lemma SpoiledRounds(q: Good, a: RecordId, b: RecordId, c: RecordId, d: RecordId, root: Descriptor)
    requires Spoils(q, a, b, c, d) && root == Descriptor(a, 0)
    ensures var st := After(q, root, 0, 5, 3);
            st.queue == [] && st.found == [root, Descriptor(c, 1), Descriptor(d, 1)]
  {
    SpoiledStates(a, b, c, d, root);
    var zero, one := After(q, root, 0, 5, 0), After(q, root, 0, 5, 1);
    assert zero.queue == [a];
    assert one == Bfs({a, b, c}, [c], 0, b, [root, Descriptor(c, 1)]);
    var two := After(q, root, 0, 5, 2);
    assert two == Bfs({a, b, c, d}, [d], 0, b, [root, Descriptor(c, 1), Descriptor(d, 1)]);
    assert After(q, root, 0, 5, 3) == Met(0, 5, [], Advance(a, two));
  }

  lemma SpoiledDistance(q: Good, a: RecordId, b: RecordId, c: RecordId, d: RecordId)
    requires Spoils(q, a, b, c, d)
    ensures IsDistance(StepsOf(q), a, d, 2)
  {
    var steps := StepsOf(q);
    AreNext(q, a);
    AreNext(q, c);
    HopsAre(q, a, d);
    assert Neighbour(c, true) in NeighboursOf(q, a) && Neighbour(d, true) in NeighboursOf(q, c);
    assert ReachableIn(steps, a, a, 0);
    assert ReachableIn(steps, a, c, 1);
    assert ReachableIn(steps, a, d, 2);
    assert !ReachableIn(steps, a, d, 1);
  }

  /** In every such graph the search reports `d`, which is two steps away, at depth 1. */
  lemma RejectedNeighbourSpoilsDepth(q: Good, a: RecordId, b: RecordId, c: RecordId, d: RecordId,
                                     found: seq<Descriptor>)
    requires Spoils(q, a, b, c, d) && IsAnswer(q, Descriptor(a, 0), 0, 5, found)
    ensures Descriptor(d, 1) in found && IsDistance(StepsOf(q), a, d, 2)
  {
    SpoiledDistance(q, a, b, c, d);
    SpoiledRounds(q, a, b, c, d, Descriptor(a, 0));
    AnswerIs(q, Descriptor(a, 0), 0, 5, 3, found);
  }

  /** One of them: 1 leads to 2 and then to 3, which leads to 4, and the filter rejects 2. */
  function Vertex(i: nat): RecordId {
    RecordId(1, i)
  }

  function EdgeTo(i: nat): RecordId {
    RecordId(2, i)
  }

  function Spoiled(): Query {
    var outs := map[Vertex(1) := [EdgeTo(2), EdgeTo(3)], Vertex(2) := [], Vertex(3) := [EdgeTo(4)], Vertex(4) := []];
    var ins := map[Vertex(1) := [], Vertex(2) := [EdgeTo(2)], Vertex(3) := [EdgeTo(3)], Vertex(4) := [EdgeTo(4)]];
    var sources := map[EdgeTo(2) := Vertex(1), EdgeTo(3) := Vertex(1), EdgeTo(4) := Vertex(3)];
    var targets := map[EdgeTo(2) := Vertex(2), EdgeTo(3) := Vertex(3), EdgeTo(4) := Vertex(4)];
    var graph := Graph(outs.Keys, {}, outs, ins, map v | v in outs && v in ins :: outs[v] + ins[v], sources, targets);
    Query(graph, Outgoing, PathFilter(Some(v => v != Vertex(2)), None), [])
  }

  lemma SpoiledIsGraph(q: Query)
    requires q == Spoiled()
    ensures q.graph.Valid()
  {
    SpoiledKeys(q);
    SpoiledOuts(q);
    SpoiledIns(q);
    SpoiledBoth(q);
  }

  lemma SpoiledKeys(q: Query)
    requires q == Spoiled()
    ensures var g := q.graph;
            && g.edgesOut.Keys == g.vertices && g.edgesIn.Keys == g.vertices && g.edgesInOut.Keys == g.vertices
            && g.source.Keys == g.target.Keys && NO_RECORD !in g.vertices
            && forall e :: e in g.source ==> g.source[e] in g.vertices && g.target[e] in g.vertices
  {
  }

  lemma SpoiledOuts(q: Query)
    requires q == Spoiled()
    ensures var g := q.graph;
            forall v, e :: v in g.edgesOut && e in g.edgesOut[v] ==> e in g.source && g.source[e] == v
  {
  }

  lemma SpoiledIns(q: Query)
    requires q == Spoiled()
    ensures var g := q.graph;
            forall v, e :: v in g.edgesIn && e in g.edgesIn[v] ==> e in g.target && g.target[e] == v
  {
  }

  lemma SpoiledBoth(q: Query)
    requires q == Spoiled()
    ensures var g := q.graph;
            forall v, e :: v in g.edgesInOut && v in g.edgesIn && v in g.edgesOut && e in g.edgesInOut[v] ==>
              e in g.edgesIn[v] || e in g.edgesOut[v]
  {
  }

  lemma AllPass(filter: PathFilter, edges: seq<RecordId>)
    requires filter.edge.None? && |edges| <= 2
    ensures Passing(filter, edges) == edges
  {
    if edges != [] {
      var rest := edges[..|edges| - 1];
      assert rest == [] || rest[..0] == [];
      assert edges == rest + [edges[|edges| - 1]];
    }
  }

  /** Without edge filter and classes the neighbours are those across the edges listed. */
  lemma PlainNeighbours(q: Good, u: RecordId)
    requires u in q.graph.vertices && |q.graph.edgesOut[u]| <= 2
    requires q.direction == Outgoing && q.classes == [] && q.filter.edge.None?
    ensures var edges, next := q.graph.edgesOut[u], NeighboursOf(q, u);
            |next| == |edges| && forall i :: 0 <= i < |edges| ==>
              edges[i] in q.graph.source && edges[i] in q.graph.target && next[i] == AcrossEdge(q, u, edges[i])
  {
    var edges := q.graph.edgesOut[u];
    AllPass(q.filter, edges);
    assert AllowedEdges(q, u) == edges;
    EdgesKnown(q, u, edges);
  }

  /** Where the edges are listed and where they lead, and what the filter says. */
  ghost predicate SpoiledEnds(q: Query) {
    && q.direction == Outgoing && q.classes == [] && q.filter.edge.None?
    && LeadsTo(q, 2) && LeadsTo(q, 3) && LeadsTo(q, 4)
    && !q.filter.AdmitsVertex(Vertex(2)) && q.filter.AdmitsVertex(Vertex(3)) && q.filter.AdmitsVertex(Vertex(4))
    && Vertex(1) in q.graph.edgesOut && q.graph.edgesOut[Vertex(1)] == [EdgeTo(2), EdgeTo(3)]
    && Vertex(3) in q.graph.edgesOut && q.graph.edgesOut[Vertex(3)] == [EdgeTo(4)]
    && Vertex(4) in q.graph.edgesOut && q.graph.edgesOut[Vertex(4)] == []
  }

  ghost predicate LeadsTo(q: Query, i: nat) {
    && Vertex(i) in q.graph.vertices && EdgeTo(i) in q.graph.source
    && EdgeTo(i) in q.graph.target && q.graph.target[EdgeTo(i)] == Vertex(i)
  }

  lemma SpoiledHasEnds(q: Query)
    requires q == Spoiled()
    ensures SpoiledEnds(q)
  {
  }

  lemma NextToOne(q: Good)
    requires SpoiledEnds(q)
    ensures NeighboursOf(q, Vertex(1)) == [Neighbour(Vertex(2), false), Neighbour(Vertex(3), true)]
  {
    var edges, next := q.graph.edgesOut[Vertex(1)], NeighboursOf(q, Vertex(1));
    PlainNeighbours(q, Vertex(1));
    assert edges[0] == EdgeTo(2) && edges[1] == EdgeTo(3);
    assert next[0] == Neighbour(Vertex(2), false) && next[1] == Neighbour(Vertex(3), true);
  }

  lemma NextToOthers(q: Good)
    requires SpoiledEnds(q)
    ensures NeighboursOf(q, Vertex(3)) == [Neighbour(Vertex(4), true)] && NeighboursOf(q, Vertex(4)) == []
  {
    PlainNeighbours(q, Vertex(3));
    PlainNeighbours(q, Vertex(4));
  }

  lemma SpoiledSpoils(q: Good)
    requires q == Spoiled()
    ensures Spoils(q, Vertex(1), Vertex(2), Vertex(3), Vertex(4))
  {
    SpoiledHasEnds(q);
    NextToOne(q);
    NextToOthers(q);
  }

  /** What the search answers on that graph. */
  method SpoiledSearch() returns (found: seq<Descriptor>)
    ensures Descriptor(Vertex(4), 1) in found
    ensures Spoiled().graph.Valid() && IsDistance(StepsOf(Spoiled()), Vertex(1), Vertex(4), 2)
  {
    var query := Spoiled();
    SpoiledIsGraph(query);
    var q: Good := query;
    SpoiledSpoils(q);
    var r := Search(q, Descriptor(Vertex(1), 0), 0, 5);
    found := r.value;
    RejectedNeighbourSpoilsDepth(q, Vertex(1), Vertex(2), Vertex(3), Vertex(4), found);
  }
}
