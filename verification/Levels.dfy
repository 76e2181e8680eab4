/**
 The vertices around a root, level by level, in the order in which a breadth-first search meets them.

 A vertex counts as met also if the vertex filter rejects it; a level holds those met that pass.
 */
module Levels {
  import opened Common
  import opened GraphView

  // Neighbours.

  /** The vertex at the other end of an allowed edge, and whether it is a step. */
  lemma AcrossIsStep(q: Good, u: RecordId, e: RecordId)
    requires q.Allows(u, e)
    ensures e in q.graph.source && e in q.graph.target
    ensures q.Across(u, e) in q.graph.vertices && q.Hop(u, q.Across(u, e))
    ensures q.filter.AdmitsVertex(q.Across(u, e)) ==> (u, q.Across(u, e)) in StepsOf(q)
  {
    q.AllowedEdgeIsKnown(u, e);
  }

  /** A vertex across an incident edge and what the vertex filter says of it. */
  datatype Neighbour = Neighbour(rid: RecordId, passes: bool)

  ghost predicate AreNeighbours(q: Good, u: RecordId, next: seq<Neighbour>) {
    && (forall n :: n in next ==>
          n.rid in q.graph.vertices && q.Hop(u, n.rid) && n.passes == q.filter.AdmitsVertex(n.rid))
    && (forall n :: n in next && n.passes ==> (u, n.rid) in StepsOf(q))
    && (forall w :: q.Hop(u, w) ==> Neighbour(w, q.filter.AdmitsVertex(w)) in next)
  }

  function AcrossEdge(q: Good, u: RecordId, e: RecordId): Neighbour
    requires e in q.graph.source && e in q.graph.target
  {
    Neighbour(q.Across(u, e), q.filter.AdmitsVertex(q.Across(u, e)))
  }

  /** The neighbours in the order in which the edge loop meets them. */
  function NeighboursOf(q: Good, u: RecordId): seq<Neighbour>
    requires u in q.graph.vertices
  {
    var edges := AllowedEdges(q, u);
    EdgesKnown(q, u, edges);
    seq(|edges|, i requires 0 <= i < |edges| => AcrossEdge(q, u, edges[i]))
  }

  method Neighbours(q: Good, u: RecordId) returns (next: seq<Neighbour>)
    requires u in q.graph.vertices
    ensures next == NeighboursOf(q, u) && AreNeighbours(q, u, next)
  {
    var edges := CollectEdges(q, u);
    EdgesKnown(q, u, edges);
    next := [];
    for i := 0 to |edges|
      invariant |next| == i
      invariant forall k :: 0 <= k < i ==> next[k] == AcrossEdge(q, u, edges[k])
    {
      next := next + [AcrossEdge(q, u, edges[i])];
    }
    AreNeighboursOf(q, u, next);
    AreNext(q, u);
  }

  lemma AreNeighboursOf(q: Good, u: RecordId, next: seq<Neighbour>)
    requires u in q.graph.vertices
    requires var edges := AllowedEdges(q, u);
             |next| == |edges| && forall k :: 0 <= k < |edges| ==>
               edges[k] in q.graph.source && edges[k] in q.graph.target && next[k] == AcrossEdge(q, u, edges[k])
    ensures next == NeighboursOf(q, u)
  {
  }

  lemma AreNext(q: Good, u: RecordId)
    requires u in q.graph.vertices
    ensures AreNeighbours(q, u, NeighboursOf(q, u))
  {
    var edges := AllowedEdges(q, u);
    EdgesKnown(q, u, edges);
    AllMet(q, u, edges, NeighboursOf(q, u));
  }

  lemma EdgesKnown(q: Good, u: RecordId, edges: seq<RecordId>)
    requires forall e :: e in edges ==> q.Allows(u, e)
    ensures forall k :: 0 <= k < |edges| ==> edges[k] in q.graph.source && edges[k] in q.graph.target
  {
    forall k | 0 <= k < |edges| ensures edges[k] in q.graph.source && edges[k] in q.graph.target {
      AcrossIsStep(q, u, edges[k]);
    }
  }

  lemma AllMet(q: Good, u: RecordId, edges: seq<RecordId>, next: seq<Neighbour>)
    requires forall e :: e in edges <==> q.Allows(u, e)
    requires forall e :: e in edges ==> e in q.graph.source && e in q.graph.target
    requires |next| == |edges| && forall k :: 0 <= k < |edges| ==> next[k] == AcrossEdge(q, u, edges[k])
    ensures AreNeighbours(q, u, next)
  {
    forall n | n in next
      ensures n.rid in q.graph.vertices && q.Hop(u, n.rid) && n.passes == q.filter.AdmitsVertex(n.rid)
      ensures n.passes ==> (u, n.rid) in StepsOf(q)
    {
      var k :| 0 <= k < |next| && next[k] == n;
      AcrossIsStep(q, u, edges[k]);
    }
    forall w | q.Hop(u, w) ensures Neighbour(w, q.filter.AdmitsVertex(w)) in next {
      var e :| q.Allows(u, e) && (q.AllowedEdgeIsKnown(u, e); q.Across(u, e) == w);
      var k :| 0 <= k < |edges| && edges[k] == e;
      assert next[k] == Neighbour(w, q.filter.AdmitsVertex(w));
    }
  }

  /** The hops from a vertex are to its neighbours. */
  lemma HopsAre(q: Good, u: RecordId, w: RecordId)
    requires u in q.graph.vertices
    ensures q.Hop(u, w) <==> Neighbour(w, q.filter.AdmitsVertex(w)) in NeighboursOf(q, u)
  {
    var edges := AllowedEdges(q, u);
    EdgesKnown(q, u, edges);
    AllMet(q, u, edges, NeighboursOf(q, u));
  }

  // Levels.

  function Rids(met: seq<Neighbour>): set<RecordId> {
    set n | n in met :: n.rid
  }

  /** The vertices that pass, in order. */
  function PassingRids(met: seq<Neighbour>): (r: seq<RecordId>)
    ensures forall v :: v in r <==> Neighbour(v, true) in met
  {
    if met == [] then []
    else
      var last := met[|met| - 1];
      PassingRids(met[..|met| - 1]) + if last.passes then [last.rid] else []
  }

  /** A vertex is met unless it has been seen or met before. */
  function AddMet(seen: set<RecordId>, met: seq<Neighbour>, n: Neighbour): seq<Neighbour> {
    if n.rid in seen || n.rid in Rids(met) then met else met + [n]
  }

  /** The vertices not seen before, each where it comes first. */
  function FirstMet(seen: set<RecordId>, next: seq<Neighbour>): seq<Neighbour> {
    if next == [] then []
    else AddMet(seen, FirstMet(seen, next[..|next| - 1]), next[|next| - 1])
  }

  lemma {:induction false} FirstMetIs(seen: set<RecordId>, next: seq<Neighbour>)
    ensures forall n :: n in FirstMet(seen, next) ==> n in next && n.rid !in seen
    ensures forall n :: n in next ==> n.rid in seen || n.rid in Rids(FirstMet(seen, next))
  {
    if next != [] {
      FirstMetIs(seen, next[..|next| - 1]);
    }
  }

  /** The neighbours of all vertices of a level. */
  function AllNext(q: Good, level: seq<RecordId>): seq<Neighbour> {
    if level == [] then []
    else
      var u := level[|level| - 1];
      AllNext(q, level[..|level| - 1]) + if u in q.graph.vertices then NeighboursOf(q, u) else []
  }

  /** What has been met up to a level, and the vertices of the level. */
  datatype Layer = Layer(seen: set<RecordId>, level: seq<RecordId>)

  /** The vertices first met from a level. */
  function MetFrom(q: Good, layer: Layer): seq<Neighbour> {
    FirstMet(layer.seen, AllNext(q, layer.level))
  }

  function LayerAt(q: Good, root: RecordId, n: nat): Layer {
    if n == 0 then Layer({root}, [root])
    else
      var met := MetFrom(q, LayerAt(q, root, n - 1));
      Layer(LayerAt(q, root, n - 1).seen + Rids(met), PassingRids(met))
  }

  // A level is the vertices at one distance.

  lemma {:induction false} AllNextIs(q: Good, level: seq<RecordId>, n: Neighbour)
    requires forall u :: u in level ==> u in q.graph.vertices
    ensures n in AllNext(q, level) <==> exists u :: u in level && n in NeighboursOf(q, u)
  {
    if level != [] {
      var rest, last := level[..|level| - 1], level[|level| - 1];
      assert level == rest + [last];
      AllNextIs(q, rest, n);
    }
  }

  /** A neighbour of a level is across an edge, and passes exactly if the filter admits it. */
  lemma NextIsAcross(q: Good, level: seq<RecordId>, n: Neighbour)
    requires (forall u :: u in level ==> u in q.graph.vertices) && n in AllNext(q, level)
    ensures n.rid in q.graph.vertices && n.passes == q.filter.AdmitsVertex(n.rid)
    ensures exists u :: u in level && q.Hop(u, n.rid)
  {
    AllNextIs(q, level, n);
    var u :| u in level && n in NeighboursOf(q, u);
    AreNext(q, u);
  }

  /** The next level is what is one step from this level and has not been seen. */
  lemma NextLevelIs(q: Good, layer: Layer, v: RecordId)
    requires forall u :: u in layer.level ==> u in q.graph.vertices
    ensures v in PassingRids(MetFrom(q, layer)) <==>
              v !in layer.seen && exists u :: u in layer.level && (u, v) in StepsOf(q)
  {
    var next, n := AllNext(q, layer.level), Neighbour(v, true);
    FirstMetIs(layer.seen, next);
    if v in PassingRids(MetFrom(q, layer)) {
      NextIsAcross(q, layer.level, n);
    }
    if u :| u in layer.level && (u, v) in StepsOf(q) && v !in layer.seen {
      AreNext(q, u);
      AllNextIs(q, layer.level, n);
      assert n in next;
      var m :| m in MetFrom(q, layer) && m.rid == v;
      NextIsAcross(q, layer.level, m);
    }
  }

  /** `layer` is right for distance `n`: its level is at that distance, and nothing nearer is unseen. */
  ghost predicate IsLayer(q: Good, root: RecordId, n: nat, layer: Layer) {
    && layer.seen <= q.graph.vertices && (forall v :: v in layer.level ==> v in layer.seen)
    && (forall v :: v in layer.level <==> IsDistance(StepsOf(q), root, v, n))
    && (forall v, k: nat :: k <= n && ReachableIn(StepsOf(q), root, v, k) ==> v in layer.seen)
    && (forall v :: v in layer.seen && (v == root || q.filter.AdmitsVertex(v)) ==> Within(StepsOf(q), root, v, n))
  }

  ghost predicate Within(steps: Relation, root: RecordId, v: RecordId, n: nat) {
    exists k: nat :: k <= n && IsDistance(steps, root, v, k)
  }

  lemma FirstLayer(q: Good, root: RecordId)
    requires root in q.graph.vertices
    ensures IsLayer(q, root, 0, LayerAt(q, root, 0))
  {
    assert ReachableIn(StepsOf(q), root, root, 0);
    assert IsDistance(StepsOf(q), root, root, 0);
  }

  /** The last but one vertex of a shortest walk is one step nearer. */
  lemma StepBefore(steps: Relation, root: RecordId, v: RecordId, n: nat) returns (u: RecordId)
    requires IsDistance(steps, root, v, n + 1)
    ensures IsDistance(steps, root, u, n) && (u, v) in steps
  {
    u :| ReachableIn(steps, root, u, n) && (u, v) in steps;
    forall k: nat | k < n ensures !ReachableIn(steps, root, u, k) {
      assert !ReachableIn(steps, root, v, k + 1);
    }
  }

  lemma NextLevelIsDistance(q: Good, root: RecordId, n: nat, layer: Layer, v: RecordId)
    requires IsLayer(q, root, n, layer)
    ensures v in PassingRids(MetFrom(q, layer)) <==> IsDistance(StepsOf(q), root, v, n + 1)
  {
    var steps := StepsOf(q);
    NextLevelIs(q, layer, v);
    if v in PassingRids(MetFrom(q, layer)) {
      var u :| u in layer.level && (u, v) in steps;
      assert ReachableIn(steps, root, v, n + 1);
    }
    if IsDistance(steps, root, v, n + 1) {
      var u := StepBefore(steps, root, v, n);
      assert v in layer.seen ==> Within(steps, root, v, n);
    }
  }

  lemma NextSeen(q: Good, root: RecordId, n: nat, layer: Layer, v: RecordId, k: nat)
    requires IsLayer(q, root, n, layer) && k <= n + 1 && ReachableIn(StepsOf(q), root, v, k)
    ensures v in layer.seen || v in PassingRids(MetFrom(q, layer))
  {
    if v !in layer.seen {
      assert IsDistance(StepsOf(q), root, v, n + 1);
      NextLevelIsDistance(q, root, n, layer, v);
    }
  }

  lemma NextWithin(q: Good, root: RecordId, n: nat, layer: Layer, v: RecordId)
    requires IsLayer(q, root, n, layer) && root in layer.seen
    requires v in layer.seen + Rids(MetFrom(q, layer)) && (v == root || q.filter.AdmitsVertex(v))
    ensures Within(StepsOf(q), root, v, n + 1)
  {
    if v in layer.seen {
      var k: nat :| k <= n && IsDistance(StepsOf(q), root, v, k);
    } else {
      FirstMetIs(layer.seen, AllNext(q, layer.level));
      var m :| m in MetFrom(q, layer) && m.rid == v;
      NextIsAcross(q, layer.level, m);
      assert m == Neighbour(v, true);
      NextLevelIsDistance(q, root, n, layer, v);
    }
  }

  lemma NextLayer(q: Good, root: RecordId, n: nat, layer: Layer, next: Layer)
    requires IsLayer(q, root, n, layer) && root in layer.seen
    requires next == Layer(layer.seen + Rids(MetFrom(q, layer)), PassingRids(MetFrom(q, layer)))
    ensures IsLayer(q, root, n + 1, next)
  {
    forall v ensures v in next.level <==> IsDistance(StepsOf(q), root, v, n + 1) {
      NextLevelIsDistance(q, root, n, layer, v);
    }
    forall v, k: nat | k <= n + 1 && ReachableIn(StepsOf(q), root, v, k) ensures v in next.seen {
      NextSeen(q, root, n, layer, v, k);
    }
    forall v | v in next.seen && (v == root || q.filter.AdmitsVertex(v)) ensures Within(StepsOf(q), root, v, n + 1) {
      NextWithin(q, root, n, layer, v);
    }
    FirstMetIs(layer.seen, AllNext(q, layer.level));
    forall m | m in MetFrom(q, layer) ensures m.rid in q.graph.vertices {
      NextIsAcross(q, layer.level, m);
    }
  }

  /** The levels are the distances in the filtered graph. */
  lemma {:induction false} LevelsAreDistances(q: Good, root: RecordId, n: nat)
    requires root in q.graph.vertices
    ensures IsLayer(q, root, n, LayerAt(q, root, n)) && root in LayerAt(q, root, n).seen
  {
    if n == 0 {
      FirstLayer(q, root);
    } else {
      LevelsAreDistances(q, root, n - 1);
      NextLayer(q, root, n - 1, LayerAt(q, root, n - 1), LayerAt(q, root, n));
    }
  }

  /** Where there is a vertex at some distance there is one at every smaller distance. */
  lemma {:induction false} NearerExists(steps: Relation, root: RecordId, v: RecordId, n: nat, k: nat)
    returns (u: RecordId)
    requires IsDistance(steps, root, v, n) && k <= n
    ensures IsDistance(steps, root, u, k)
    decreases n
  {
    if k == n {
      u := v;
    } else {
      var w := StepBefore(steps, root, v, n - 1);
      u := NearerExists(steps, root, w, n - 1, k);
    }
  }

  // Where a search by levels may lose count.

  /** The search goes on beyond level `n`, and the first vertex met from it is rejected. */
  predicate Stalls(q: Good, root: RecordId, maxDepth: nat, n: nat) {
    var met := MetFrom(q, LayerAt(q, root, n));
    n + 1 < maxDepth && met != [] && !met[0].passes
  }

  predicate StallsFirst(q: Good, root: RecordId, maxDepth: nat, n: nat) {
    Stalls(q, root, maxDepth, n) && forall k: nat :: k < n ==> !Stalls(q, root, maxDepth, k)
  }

  /** The first depth after a stall at level `n` that is asked for. */
  function FirstAsked(minDepth: nat, n: nat): nat {
    if minDepth <= n + 2 then n + 2 else minDepth
  }

  /** Wherever the search first stalls, there is nothing left to report. */
  predicate NoHarm(q: Good, root: RecordId, minDepth: nat, maxDepth: nat) {
    forall n: nat :: n < maxDepth && StallsFirst(q, root, maxDepth, n) ==>
      FirstAsked(minDepth, n) > maxDepth || LayerAt(q, root, FirstAsked(minDepth, n)).level == []
  }
}
