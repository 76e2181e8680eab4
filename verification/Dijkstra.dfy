/**
 `dijkstraShortestPathRdesc`: lazy-heap Dijkstra with a parent map.

 The heap keeps stale entries; a vertex is expanded when it is popped at its recorded distance.
 Ties in the heap are broken arbitrarily. Costs are non-negative reals.
 */
module Dijkstra {
  import opened Common
  import opened GraphView

  type Node = (real, RecordId)

  /** An edge the search may follow, with its cost. */
  datatype Arc = Arc(tail: RecordId, id: RecordId, head: RecordId, weight: real)

  ghost function Cost(cost: RecordId -> real, es: seq<RecordId>): real {
    if es == [] then 0.0 else cost(es[0]) + Cost(cost, es[1..])
  }

  ghost predicate NonNegative(q: Query, cost: RecordId -> real) {
    forall e :: e in q.graph.source ==> cost(e) >= 0.0
  }

  /** The answer the caller is owed: a cheapest allowed walk, its stops and its cost, or nothing if there is no walk. */
  ghost predicate IsCheapest(q: Query, cost: RecordId -> real, src: RecordId, dst: RecordId,
                             total: real, path: seq<Descriptor>)
    requires q.graph.Valid() && q.direction == Outgoing
  {
    if path == [] then
      total == 0.0 && forall es :: !IsWalk(q, src, es, dst)
    else
      && (exists es :: IsWalk(q, src, es, dst) && Cost(cost, es) == total && Follows(q, src, es, path))
      && (forall es :: IsWalk(q, src, es, dst) ==> total <= Cost(cost, es))
  }

  /** `path` lists the stops of the walk `es`, each with its position as depth. */
  ghost predicate Follows(q: Query, src: RecordId, es: seq<RecordId>, path: seq<Descriptor>) {
    && (forall e :: e in es ==> e in q.graph.target)
    && |path| == |es| + 1
    && forall i :: 0 <= i < |path| ==> path[i] == Descriptor(Stops(q, src, es)[i], i)
  }

  // The algorithm itself only needs the finite set of arcs, so its proof is about that set.

  ghost function Arcs(q: Query, cost: RecordId -> real): set<Arc>
    requires q.graph.Valid() && q.direction == Outgoing
  {
    set e | e in q.graph.source && q.Allows(q.graph.source[e], e) && q.filter.AdmitsVertex(q.graph.target[e]) ::
      Arc(q.graph.source[e], e, q.graph.target[e], cost(e))
  }

  ghost predicate IsChain(arcs: set<Arc>, a: RecordId, chain: seq<Arc>, b: RecordId)
    decreases |chain|
  {
    if chain == [] then a == b
    else chain[0] in arcs && chain[0].tail == a && IsChain(arcs, chain[0].head, chain[1..], b)
  }

  ghost function Weight(chain: seq<Arc>): real {
    if chain == [] then 0.0 else chain[0].weight + Weight(chain[1..])
  }

  ghost function Ids(chain: seq<Arc>): (es: seq<RecordId>)
    ensures |es| == |chain|
  {
    if chain == [] then [] else [chain[0].id] + Ids(chain[1..])
  }

  /** The vertices a chain passes, last one first (as the parent walk meets them). */
  ghost function Backwards(a: RecordId, chain: seq<Arc>): (r: seq<RecordId>)
    ensures |r| == |chain| + 1
    decreases |chain|
  {
    if chain == [] then [a] else Backwards(chain[0].head, chain[1..]) + [a]
  }

  /** An allowed walk is a chain of arcs of the same cost. */
  lemma {:induction false} WalkToChain(q: Query, cost: RecordId -> real, a: RecordId, es: seq<RecordId>, b: RecordId)
    returns (chain: seq<Arc>)
    requires q.graph.Valid() && q.direction == Outgoing && IsWalk(q, a, es, b)
    ensures IsChain(Arcs(q, cost), a, chain, b) && Weight(chain) == Cost(cost, es)
    decreases |es|
  {
    if es == [] {
      chain := [];
    } else {
      var e := es[0];
      q.AllowedEdgeIsKnown(a, e);
      var rest := WalkToChain(q, cost, q.graph.target[e], es[1..], b);
      var arc := Arc(q.graph.source[e], e, q.graph.target[e], cost(e));
      assert arc in Arcs(q, cost);
      chain := [arc] + rest;
      assert chain[1..] == rest;
    }
  }

  /** A chain of arcs is an allowed walk with the same cost. */
  lemma {:induction false} ChainToWalk(q: Query, cost: RecordId -> real, a: RecordId, chain: seq<Arc>, b: RecordId)
    requires q.graph.Valid() && q.direction == Outgoing && IsChain(Arcs(q, cost), a, chain, b)
    ensures IsWalk(q, a, Ids(chain), b) && Weight(chain) == Cost(cost, Ids(chain))
    decreases |chain|
  {
    if chain != [] {
      ChainToWalk(q, cost, chain[0].head, chain[1..], b);
      assert Ids(chain)[1..] == Ids(chain[1..]);
    }
  }

  /** The stops of that walk are what the parent walk meets, backwards. */
  lemma {:induction false} ChainStops(q: Query, arcs: set<Arc>, a: RecordId, chain: seq<Arc>, b: RecordId)
    requires IsChain(arcs, a, chain, b)
    requires forall arc :: arc in arcs ==> arc.id in q.graph.target && q.graph.target[arc.id] == arc.head
    ensures forall e :: e in Ids(chain) ==> e in q.graph.target
    ensures forall i :: 0 <= i <= |chain| ==> Stops(q, a, Ids(chain))[i] == Backwards(a, chain)[|chain| - i]
    decreases |chain|
  {
    if chain != [] {
      ChainStops(q, arcs, chain[0].head, chain[1..], b);
      assert Ids(chain)[1..] == Ids(chain[1..]);
    }
  }

  /** What the loop updates: the heap, the tentative distances and the arc each vertex was reached by. */
  datatype State = State(heap: multiset<Node>, distance: map<RecordId, real>, parent: map<RecordId, Arc>)

  /** `v` was reached along `arc` from a vertex expanded before it. */
  ghost predicate Linked(arcs: set<Arc>, distance: map<RecordId, real>, rank: map<RecordId, nat>, v: RecordId,
                         arc: Arc) {
    && arc in arcs && arc.head == v
    && arc.tail in rank && arc.tail in distance && v in distance
    && distance[v] == distance[arc.tail] + arc.weight
    && (v in rank ==> rank[arc.tail] < rank[v])
  }

  /** The parent arcs form a tree rooted at `src`; `rank` is the order of expansion. */
  ghost predicate Tree(arcs: set<Arc>, src: RecordId, distance: map<RecordId, real>, parent: map<RecordId, Arc>,
                       rank: map<RecordId, nat>) {
    && src in distance && distance[src] == 0.0
    && rank.Keys <= distance.Keys
    && (forall v :: v in distance ==> distance[v] >= 0.0)
    && (forall v :: v in distance && v != src ==> v in parent)
    && (forall v {:trigger parent[v]} :: v in parent ==> Linked(arcs, distance, rank, v, parent[v]))
  }

  /**
   Every heap entry is at or above the recorded distance; the frontier is in the heap exactly once at
   its recorded distance, and expanded vertices only as stale entries.
   */
  ghost predicate Frontier(heap: multiset<Node>, distance: map<RecordId, real>, rank: map<RecordId, nat>) {
    && (forall n :: n in heap ==> n.1 in distance && distance[n.1] <= n.0)
    && (forall v :: v in distance ==> heap[(distance[v], v)] == if v in rank then 0 else 1)
  }

  ghost predicate AtLeast(heap: multiset<Node>, bound: real) {
    forall n :: n in heap ==> bound <= n.0
  }

  /** Expanded vertices are no farther than `low` and numbered below the number of them. */
  ghost predicate Ranked(distance: map<RecordId, real>, rank: map<RecordId, nat>, low: real) {
    forall u :: u in rank ==> rank[u] < |rank| && u in distance && distance[u] <= low
  }

  /** An arc out of an expanded vertex cannot improve its head any more. */
  ghost predicate Relaxed(distance: map<RecordId, real>, arc: Arc) {
    && arc.tail in distance && arc.head in distance
    && distance[arc.head] <= distance[arc.tail] + arc.weight
  }

  /** Every arc in `done` leaves an expanded vertex and is relaxed. */
  ghost predicate AllRelaxed(done: set<Arc>, distance: map<RecordId, real>, rank: map<RecordId, nat>) {
    forall arc :: arc in done ==> arc.tail in rank && Relaxed(distance, arc)
  }

  /** The invariant: `low` separates the expanded vertices from the heap, and the arcs in `done` are relaxed. */
  ghost predicate Searching(arcs: set<Arc>, src: RecordId, st: State, rank: map<RecordId, nat>, low: real,
                            done: set<Arc>) {
    && Tree(arcs, src, st.distance, st.parent, rank)
    && Frontier(st.heap, st.distance, rank) && AtLeast(st.heap, low)
    && Ranked(st.distance, rank, low) && AllRelaxed(done, st.distance, rank)
  }

  /** Along any chain, either the tentative distance is already good enough or the chain costs at least the frontier. */
  lemma {:induction false} ChainIsNoCheaper(
    arcs: set<Arc>, distance: map<RecordId, real>, rank: map<RecordId, nat>,
    bounded: bool, bound: real, a: RecordId, spent: real, chain: seq<Arc>, b: RecordId)
    requires forall arc :: arc in arcs ==> arc.weight >= 0.0
    requires IsChain(arcs, a, chain, b)
    requires forall arc :: arc in arcs && arc.tail in rank ==> Relaxed(distance, arc)
    requires forall v :: v in distance && v !in rank ==> bounded && bound <= distance[v]
    requires (a in distance && distance[a] <= spent) || (bounded && bound <= spent)
    ensures (b in distance && distance[b] <= spent + Weight(chain)) || (bounded && bound <= spent + Weight(chain))
    decreases |chain|
  {
    if chain != [] {
      var arc := chain[0];
      if arc.tail in rank {
        assert Relaxed(distance, arc);
      }
      ChainIsNoCheaper(arcs, distance, rank, bounded, bound, arc.head, spent + arc.weight, chain[1..], b);
    }
  }

  /** `priority_queue::top` has something to return: some entry of least distance. */
  lemma {:induction false} LeastExists(heap: multiset<Node>)
    requires heap != multiset{}
    ensures exists n :: n in heap && AtLeast(heap, n.0)
    decreases |heap|
  {
    var x :| x in heap;
    var rest := heap - multiset{x};
    if rest != multiset{} {
      LeastExists(rest);
      var n :| n in rest && AtLeast(rest, n.0);
      LeastOfTwo(heap, x, n);
    } else {
      assert heap == multiset{x};
      assert AtLeast(heap, x.0);
    }
  }

  lemma LeastOfTwo(heap: multiset<Node>, x: Node, n: Node)
    requires x in heap && n in heap && AtLeast(heap - multiset{x}, n.0)
    ensures AtLeast(heap, if x.0 <= n.0 then x.0 else n.0)
  {
    forall m | m in heap ensures (if x.0 <= n.0 then x.0 else n.0) <= m.0 {
      assert m == x || m in heap - multiset{x};
    }
  }

  method Pop(heap: multiset<Node>) returns (top: Node, rest: multiset<Node>)
    requires heap != multiset{}
    ensures top in heap && rest == heap - multiset{top} && |rest| < |heap|
    ensures AtLeast(heap, top.0)
  {
    LeastExists(heap);
    top :| top in heap && forall m | m in heap :: top.0 <= m.0;
    rest := heap - multiset{top};
  }

  // One arc: a strictly better distance `d` for its head. Each part of the invariant on its own.

  lemma ImproveTree(arcs: set<Arc>, src: RecordId, arc: Arc, d: real, distance: map<RecordId, real>,
                    parent: map<RecordId, Arc>, rank: map<RecordId, nat>)
    requires Tree(arcs, src, distance, parent, rank)
    requires arc in arcs && arc.tail in rank && arc.head !in rank && arc.weight >= 0.0
    requires d == distance[arc.tail] + arc.weight && (arc.head in distance ==> d < distance[arc.head])
    ensures Tree(arcs, src, distance[arc.head := d], parent[arc.head := arc], rank)
  {
  }

  lemma ImproveFrontier(v: RecordId, d: real, heap: multiset<Node>, distance: map<RecordId, real>,
                        rank: map<RecordId, nat>)
    requires Frontier(heap, distance, rank)
    requires v !in rank && (v in distance ==> d < distance[v])
    ensures Frontier(heap + multiset{(d, v)}, distance[v := d], rank)
  {
    assert (d, v) !in heap;
    forall n | n in heap + multiset{(d, v)} ensures n.1 in distance[v := d] && distance[v := d][n.1] <= n.0 {
      assert n in heap || n == (d, v);
    }
  }

  lemma ImproveRelaxed(done: set<Arc>, arc: Arc, d: real, distance: map<RecordId, real>, rank: map<RecordId, nat>)
    requires AllRelaxed(done, distance, rank)
    requires arc.tail in rank && arc.tail in distance && arc.head !in rank
    requires d == distance[arc.tail] + arc.weight && (arc.head in distance ==> d < distance[arc.head])
    ensures AllRelaxed(done + {arc}, distance[arc.head := d], rank)
  {
  }

  lemma ImproveAtLeast(heap: multiset<Node>, n: Node, low: real)
    requires AtLeast(heap, low) && low <= n.0
    ensures AtLeast(heap + multiset{n}, low)
  {
    forall m | m in heap + multiset{n} ensures low <= m.0 {
      assert m in heap || m == n;
    }
  }

  /** The body of the inner loop: push and record a strictly better distance. */
  method RelaxArc(ghost arcs: set<Arc>, ghost src: RecordId, arc: Arc, st: State,
                  ghost rank: map<RecordId, nat>, ghost low: real, ghost done: set<Arc>)
    returns (r: State)
    requires Searching(arcs, src, st, rank, low, done)
    requires arc in arcs && arc.tail in rank && arc.weight >= 0.0 && low == st.distance[arc.tail]
    ensures Searching(arcs, src, r, rank, low, done + {arc})
    ensures r.distance.Keys <= st.distance.Keys + {arc.head}
    ensures low == r.distance[arc.tail]
  {
    var nextDist := st.distance[arc.tail] + arc.weight;
    if arc.head in st.distance && st.distance[arc.head] <= nextDist {
      return st;
    }
    ImproveTree(arcs, src, arc, nextDist, st.distance, st.parent, rank);
    ImproveFrontier(arc.head, nextDist, st.heap, st.distance, rank);
    ImproveRelaxed(done, arc, nextDist, st.distance, rank);
    ImproveAtLeast(st.heap, (nextDist, arc.head), low);
    return State(st.heap + multiset{(nextDist, arc.head)}, st.distance[arc.head := nextDist],
                 st.parent[arc.head := arc]);
  }

  /** The loop over the out-edges of a freshly popped vertex, seen as arcs. */
  method Relax(ghost arcs: set<Arc>, ghost src: RecordId, vertex: RecordId, out: seq<Arc>, st: State,
               ghost rank: map<RecordId, nat>, ghost low: real, ghost done: set<Arc>, ghost vertices: set<RecordId>)
    returns (r: State, ghost done': set<Arc>)
    requires Searching(arcs, src, st, rank, low, done)
    requires vertex in rank && low == st.distance[vertex] && st.distance.Keys <= vertices
    requires forall a :: a in out ==> a in arcs && a.tail == vertex && a.weight >= 0.0 && a.head in vertices
    ensures Searching(arcs, src, r, rank, low, done')
    ensures done' == done + Elements(out) && r.distance.Keys <= vertices
  {
    r, done' := st, done;
    for i := 0 to |out|
      invariant Searching(arcs, src, r, rank, low, done')
      invariant done' == done + Elements(out[..i]) && r.distance.Keys <= vertices && low == r.distance[vertex]
    {
      r := RelaxArc(arcs, src, out[i], r, rank, low, done');
      done' := done' + {out[i]};
      ElementsUpTo(out, i, done);
    }
    assert out[..|out|] == out;
  }

  ghost function Elements(out: seq<Arc>): set<Arc> {
    set a | a in out
  }

  lemma ElementsUpTo(out: seq<Arc>, i: nat, done: set<Arc>)
    requires i < |out|
    ensures done + Elements(out[..i + 1]) == done + Elements(out[..i]) + {out[i]}
  {
    assert out[..i + 1] == out[..i] + [out[i]];
  }

  /** The collected edges whose head passes the vertex filter, with their costs. */
  method Passing(q: Query, cost: RecordId -> real, vertex: RecordId, edges: seq<RecordId>) returns (out: seq<Arc>)
    requires forall e :: e in edges ==> e in q.graph.target
    ensures forall a :: a in out <==>
              a.id in edges && a == Arc(vertex, a.id, q.graph.target[a.id], cost(a.id)) && q.filter.AdmitsVertex(a.head)
  {
    out := [];
    for i := 0 to |edges|
      invariant forall a :: a in out <==>
                  && a.id in edges[..i] && a == Arc(vertex, a.id, q.graph.target[a.id], cost(a.id))
                  && q.filter.AdmitsVertex(a.head)
    {
      var next := q.graph.target[edges[i]];
      if q.filter.AdmitsVertex(next) {
        out := out + [Arc(vertex, edges[i], next, cost(edges[i]))];
      }
      assert edges[..i + 1] == edges[..i] + [edges[i]];
    }
    assert edges[..|edges|] == edges;
  }

  /** Between iterations every arc out of an expanded vertex is relaxed. */
  ghost function Outbound(arcs: set<Arc>, rank: map<RecordId, nat>): set<Arc> {
    set arc | arc in arcs && arc.tail in rank
  }

  /** Dropping a stale entry changes nothing. */
  lemma DropStale(heap: multiset<Node>, top: Node, distance: map<RecordId, real>, rank: map<RecordId, nat>, low: real)
    requires Frontier(heap, distance, rank) && AtLeast(heap, low)
    requires top in heap && top.1 in distance && top.0 > distance[top.1]
    ensures Frontier(heap - multiset{top}, distance, rank) && AtLeast(heap - multiset{top}, low)
  {
  }

  /** Popping a vertex at its recorded distance takes its only current entry off the heap. */
  lemma PopFrontier(heap: multiset<Node>, top: Node, distance: map<RecordId, real>, rank: map<RecordId, nat>, n: nat)
    requires Frontier(heap, distance, rank)
    requires top in heap && AtLeast(heap, top.0) && top.1 in distance && top.0 == distance[top.1]
    ensures top.1 !in rank
    ensures Frontier(heap - multiset{top}, distance, rank[top.1 := n]) && AtLeast(heap - multiset{top}, top.0)
  {
    assert heap[(distance[top.1], top.1)] > 0;
  }

  /** Giving a vertex the next rank keeps the tree. */
  lemma ExpandTree(arcs: set<Arc>, src: RecordId, distance: map<RecordId, real>, parent: map<RecordId, Arc>,
                   rank: map<RecordId, nat>, low: real, v: RecordId, n: nat)
    requires Tree(arcs, src, distance, parent, rank) && v in distance && v !in rank
    requires Ranked(distance, rank, low) && low <= distance[v] && n == |rank|
    ensures Tree(arcs, src, distance, parent, rank[v := n])
  {
    forall w | w in parent ensures Linked(arcs, distance, rank[v := n], w, parent[w]) {
      assert Linked(arcs, distance, rank, w, parent[w]);
    }
  }

  lemma ExpandRanked(distance: map<RecordId, real>, rank: map<RecordId, nat>, low: real, v: RecordId, n: nat)
    requires Ranked(distance, rank, low) && v in distance && v !in rank && low <= distance[v] && n == |rank|
    ensures Ranked(distance, rank[v := n], distance[v])
  {
    assert rank[v := n].Keys == rank.Keys + {v};
  }

  /** A vertex popped at its recorded distance has not been expanded before; it gets the next rank. */
  lemma StartExpanding(arcs: set<Arc>, src: RecordId, st: State, top: Node, rank: map<RecordId, nat>, low: real, n: nat)
    requires Searching(arcs, src, st, rank, low, Outbound(arcs, rank))
    requires top in st.heap && AtLeast(st.heap, top.0) && top.1 in st.distance && top.0 == st.distance[top.1]
    requires n == |rank|
    ensures top.1 !in rank
    ensures Searching(arcs, src, st.(heap := st.heap - multiset{top}), rank[top.1 := n], top.0, Outbound(arcs, rank))
  {
    PopFrontier(st.heap, top, st.distance, rank, n);
    ExpandTree(arcs, src, st.distance, st.parent, rank, low, top.1, n);
    ExpandRanked(st.distance, rank, low, top.1, n);
  }

  /** Collects and relaxes the out-edges of the popped vertex. */
  method Expand(q: Query, cost: RecordId -> real, ghost src: RecordId, top: Node, st: State,
                ghost rank: map<RecordId, nat>, ghost low: real)
    returns (r: State, ghost rank': map<RecordId, nat>)
    requires q.graph.Valid() && q.direction == Outgoing && NonNegative(q, cost)
    requires Searching(Arcs(q, cost), src, st, rank, low, Outbound(Arcs(q, cost), rank))
    requires top in st.heap && AtLeast(st.heap, top.0) && top.1 in st.distance && top.0 == st.distance[top.1]
    requires st.distance.Keys <= q.graph.vertices
    ensures top.1 !in rank && rank'.Keys == rank.Keys + {top.1} && r.distance.Keys <= q.graph.vertices
    ensures Searching(Arcs(q, cost), src, r, rank', top.0, Outbound(Arcs(q, cost), rank'))
  {
    var edges := CollectEdges(q, top.1);
    ArcsOut(q, cost, top.1, edges);
    var out := Passing(q, cost, top.1, edges);
    r, rank' := ExpandArcs(Arcs(q, cost), src, top, out, st, rank, low, q.graph.vertices);
  }

  method ExpandArcs(ghost arcs: set<Arc>, ghost src: RecordId, top: Node, out: seq<Arc>, st: State,
                    ghost rank: map<RecordId, nat>, ghost low: real, ghost vertices: set<RecordId>)
    returns (r: State, ghost rank': map<RecordId, nat>)
    requires Searching(arcs, src, st, rank, low, Outbound(arcs, rank))
    requires top in st.heap && AtLeast(st.heap, top.0) && top.1 in st.distance && top.0 == st.distance[top.1]
    requires st.distance.Keys <= vertices
    requires forall a :: a in out <==> a in arcs && a.tail == top.1
    requires forall a :: a in out ==> a.weight >= 0.0 && a.head in vertices
    ensures top.1 !in rank && rank'.Keys == rank.Keys + {top.1} && r.distance.Keys <= vertices
    ensures Searching(arcs, src, r, rank', top.0, Outbound(arcs, rank'))
  {
    ghost var n := |rank|;
    rank' := rank[top.1 := n];
    StartExpanding(arcs, src, st, top, rank, low, n);
    ghost var done;
    r, done := Relax(arcs, src, top.1, out, st.(heap := st.heap - multiset{top}), rank', top.0, Outbound(arcs, rank),
                     vertices);
    OutboundGrows(arcs, rank, top.1, n, out);
  }

  /** Expanding `v` adds exactly the arcs that leave it. */
  lemma OutboundGrows(arcs: set<Arc>, rank: map<RecordId, nat>, v: RecordId, n: nat, out: seq<Arc>)
    requires forall a :: a in out <==> a in arcs && a.tail == v
    ensures Outbound(arcs, rank[v := n]) == Outbound(arcs, rank) + Elements(out)
    ensures rank[v := n].Keys == rank.Keys + {v}
  {
  }

  /** The main loop: on exit `distance[dst]` is optimal if present, and `dst` is unreachable otherwise. */
  method Explore(q: Query, cost: RecordId -> real, src: RecordId, dst: RecordId)
    returns (st: State, ghost rank: map<RecordId, nat>)
    requires q.graph.Valid() && q.direction == Outgoing && NonNegative(q, cost)
    requires src in q.graph.vertices
    ensures Tree(Arcs(q, cost), src, st.distance, st.parent, rank) && dst !in rank
    ensures forall chain :: IsChain(Arcs(q, cost), src, chain, dst) ==>
              dst in st.distance && st.distance[dst] <= Weight(chain)
  {
    st := State(multiset{(0.0, src)}, map[src := 0.0], map[]);
    rank := map[];
    ghost var arcs, low := Arcs(q, cost), 0.0;
    while st.heap != multiset{}
      invariant Searching(arcs, src, st, rank, low, Outbound(arcs, rank))
      invariant st.distance.Keys <= q.graph.vertices && dst !in rank
      decreases q.graph.vertices - rank.Keys, |st.heap|
    {
      var top, rest := Pop(st.heap);
      if top.1 == dst {
        Optimal(arcs, src, dst, st, rank, low, true, top.0);
        return;
      }
      if top.0 > st.distance[top.1] {
        DropStale(st.heap, top, st.distance, rank, low);
        st := st.(heap := rest);
      } else {
        ghost var before := rank.Keys;
        st, rank := Expand(q, cost, src, top, st, rank, low);
        low := top.0;
        Shrinks(q.graph.vertices, before, top.1);
      }
    }
    Optimal(arcs, src, dst, st, rank, low, false, 0.0);
  }

  lemma Shrinks(all: set<RecordId>, done: set<RecordId>, v: RecordId)
    requires v in all && v !in done
    ensures all - (done + {v}) < all - done
  {
    assert v in all - done;
  }

  /** Whether the loop stopped at `dst` or ran out of heap, no chain to `dst` beats its recorded distance. */
  lemma Optimal(arcs: set<Arc>, src: RecordId, dst: RecordId, st: State, rank: map<RecordId, nat>, low: real,
                bounded: bool, bound: real)
    requires Searching(arcs, src, st, rank, low, Outbound(arcs, rank))
    requires forall arc :: arc in arcs ==> arc.weight >= 0.0
    requires dst !in rank
    requires if bounded then (bound, dst) in st.heap && AtLeast(st.heap, bound) else st.heap == multiset{}
    ensures forall chain :: IsChain(arcs, src, chain, dst) ==> dst in st.distance && st.distance[dst] <= Weight(chain)
  {
    forall v | v in st.distance && v !in rank ensures bounded && bound <= st.distance[v] {
      assert st.heap[(st.distance[v], v)] == 1;
    }
    forall arc | arc in arcs && arc.tail in rank ensures Relaxed(st.distance, arc) {
      assert arc in Outbound(arcs, rank);
    }
    forall chain | IsChain(arcs, src, chain, dst)
      ensures dst in st.distance && st.distance[dst] <= Weight(chain)
    {
      ChainIsNoCheaper(arcs, st.distance, rank, bounded, bound, src, 0.0, chain, dst);
    }
  }

  /** The walk back from `dst` along the parent edges. */
  method ParentWalk(q: Query, ghost arcs: set<Arc>, src: RecordId, dst: RecordId, st: State,
                    ghost rank: map<RecordId, nat>)
    returns (back: seq<RecordId>, ghost chain: seq<Arc>)
    requires Tree(arcs, src, st.distance, st.parent, rank) && dst in st.distance && dst !in rank
    requires forall arc :: arc in arcs ==> arc.id in q.graph.source && q.graph.source[arc.id] == arc.tail
    ensures IsChain(arcs, src, chain, dst) && Weight(chain) == st.distance[dst]
    ensures back == Backwards(src, chain)
  {
    back := [dst];
    var vertex := dst;
    chain := [];
    while vertex != src
      invariant vertex in st.distance
      invariant IsChain(arcs, vertex, chain, dst) && st.distance[vertex] + Weight(chain) == st.distance[dst]
      invariant back == Backwards(vertex, chain)
      decreases if vertex in rank then 0 else 1, if vertex in rank then rank[vertex] else 0
    {
      var edge := st.parent[vertex];
      vertex := q.graph.source[edge.id];
      back := back + [vertex];
      chain := [edge] + chain;
    }
  }

  /** The collected edges of `v` are exactly its arcs. */
  lemma ArcsOut(q: Query, cost: RecordId -> real, v: RecordId, edges: seq<RecordId>)
    requires q.graph.Valid() && q.direction == Outgoing && NonNegative(q, cost)
    requires forall e :: e in edges <==> q.Allows(v, e)
    ensures forall e :: e in edges ==> e in q.graph.target && q.graph.target[e] in q.graph.vertices && cost(e) >= 0.0
    ensures forall e :: e in edges && q.filter.AdmitsVertex(q.graph.target[e]) ==>
                          Arc(v, e, q.graph.target[e], cost(e)) in Arcs(q, cost)
    ensures forall arc :: arc in Arcs(q, cost) && arc.tail == v ==>
              && arc.id in edges && arc == Arc(v, arc.id, q.graph.target[arc.id], cost(arc.id))
              && q.filter.AdmitsVertex(arc.head)
  {
    forall e | e in edges
      ensures e in q.graph.target && q.graph.target[e] in q.graph.vertices && cost(e) >= 0.0 && q.graph.source[e] == v
    {
      q.AllowedEdgeIsKnown(v, e);
    }
  }

  /** The search between two vertices that are in memory. */
  method Cheapest(q: Query, cost: RecordId -> real, src: RecordId, dst: RecordId)
    returns (total: real, path: seq<Descriptor>)
    requires q.graph.Valid() && q.direction == Outgoing && NonNegative(q, cost)
    requires src in q.graph.vertices && dst in q.graph.vertices
    ensures IsCheapest(q, cost, src, dst, total, path)
  {
    var st, rank := Explore(q, cost, src, dst);
    forall es | IsWalk(q, src, es, dst)
      ensures dst in st.distance && st.distance[dst] <= Cost(cost, es)
    {
      var chain := WalkToChain(q, cost, src, es, dst);
    }
    if dst !in st.distance {
      return 0.0, [];
    }
    var back, chain := ParentWalk(q, Arcs(q, cost), src, dst, st, rank);
    path := Numbered(back);
    ChainToWalk(q, cost, src, chain, dst);
    ChainStops(q, Arcs(q, cost), src, chain, dst);
    assert Follows(q, src, Ids(chain), path);
    return st.distance[dst], path;
  }

  /** The main result: see `IsCheapest`. The search ends on every finite graph with non-negative costs. */
  method ShortestPath(q: Query, cost: RecordId -> real, src: RecordId, dst: RecordId)
    returns (r: Result<(real, seq<Descriptor>)>)
    requires q.graph.Valid() && q.direction == Outgoing && NonNegative(q, cost)
    ensures q.graph.Find(src) == Absent ==> r == Err(NoSource)
    ensures q.graph.Find(src) != Absent && q.graph.Find(dst) == Absent ==> r == Err(NoDestination)
    ensures q.graph.Find(src) != Absent && q.graph.Find(dst) != Absent ==> r.Ok?
    ensures r.Ok? && (q.graph.Find(src) == OnDisk || q.graph.Find(dst) == OnDisk) ==> r.value == (0.0, [])
    ensures q.graph.Find(src) == InMemory && q.graph.Find(dst) == InMemory ==>
              r.Ok? && IsCheapest(q, cost, src, dst, r.value.0, r.value.1)
  {
    if q.graph.Find(src) == Absent {
      return Err(NoSource);
    } else if q.graph.Find(dst) == Absent {
      return Err(NoDestination);
    } else if q.graph.Find(src) == OnDisk || q.graph.Find(dst) == OnDisk {
      return Ok((0.0, []));
    }
    var total, path := Cheapest(q, cost, src, dst);
    return Ok((total, path));
  }
}
