/**
 Depth-first search as a recursion: visit a vertex, then its neighbours one after the other, down to a depth limit.

 This is the reference that the search on a stack of levels is measured by.
 */
module DepthTree {
  import opened Common
  import opened GraphView
  import opened Levels
  import opened BreadthRounds

  /** The hops that a depth-first search follows, whatever the vertex filter says. */
  ghost function HopsOf(q: Good): Relation {
    q.Hops()
  }

  /** The vertices next to `v`, in the order of the edge lists. */
  function Around(q: Good, v: RecordId): (r: seq<RecordId>)
    requires v in q.graph.vertices
    ensures |r| == |NeighboursOf(q, v)| && forall i :: 0 <= i < |r| ==> r[i] == NeighboursOf(q, v)[i].rid
  {
    seq(|NeighboursOf(q, v)|, i requires 0 <= i < |NeighboursOf(q, v)| => NeighboursOf(q, v)[i].rid)
  }

  lemma AroundIsHops(q: Good, v: RecordId, w: RecordId)
    requires v in q.graph.vertices
    ensures w in Around(q, v) <==> (v, w) in HopsOf(q)
    ensures w in Around(q, v) ==> w in q.graph.vertices
  {
    AreNext(q, v);
    var next := NeighboursOf(q, v);
    if w in Around(q, v) {
      var i :| 0 <= i < |next| && next[i].rid == w;
      assert next[i] in next;
    }
    if (v, w) in HopsOf(q) {
      var i :| 0 <= i < |next| && next[i] == Neighbour(w, q.filter.AdmitsVertex(w));
      assert Around(q, v)[i] == w;
    }
  }

  function Seen(visits: seq<Descriptor>): set<RecordId> {
    set d | d in visits :: d.rid
  }

  // The recursion. `visits` is what has been visited so far, each vertex with the level it was visited at.

  function Visit(q: Good, maxDepth: nat, v: RecordId, level: nat, visits: seq<Descriptor>): seq<Descriptor>
    requires level <= maxDepth
    decreases maxDepth - level, 0, 0
  {
    if v in Seen(visits) then visits
    else if level == maxDepth || v !in q.graph.vertices then visits + [Descriptor(v, level)]
    else VisitAll(q, maxDepth, Around(q, v), level + 1, visits + [Descriptor(v, level)])
  }

  function VisitAll(q: Good, maxDepth: nat, vs: seq<RecordId>, level: nat, visits: seq<Descriptor>): seq<Descriptor>
    requires level <= maxDepth
    decreases maxDepth - level, 1, |vs|
  {
    if vs == [] then visits
    else VisitAll(q, maxDepth, vs[1..], level, Visit(q, maxDepth, vs[0], level, visits))
  }

  /** All visits of a search. */
  function Visits(q: Good, root: RecordId, maxDepth: nat): seq<Descriptor> {
    Visit(q, maxDepth, root, 0, [])
  }

  /** What is reported of the visits: those deep enough that pass the filter, and the root. */
  function Selected(q: Good, minDepth: nat, visits: seq<Descriptor>): seq<Descriptor> {
    if visits == [] then []
    else
      var last := visits[|visits| - 1];
      Selected(q, minDepth, visits[..|visits| - 1])
      + if last.depth >= minDepth && (last.depth == 0 || q.filter.AdmitsVertex(last.rid)) then [last] else []
  }

  // What the visits are.

  /**
   No vertex is visited twice, every visit is at the end of a walk as long as its level, and no level is larger than the
   limit or the number of visits before it.
   */
  ghost predicate Walked(q: Good, root: RecordId, maxDepth: nat, visits: seq<Descriptor>) {
    && (forall i, j :: 0 <= i < j < |visits| ==> visits[i].rid != visits[j].rid)
    && (forall i :: 0 <= i < |visits| ==>
          Real(q, root, visits[i].rid, visits[i].depth) && visits[i].depth <= maxDepth && visits[i].depth <= i)
  }

  /** The vertex is at the end of a walk of that length. */
  ghost predicate Real(q: Good, root: RecordId, v: RecordId, level: nat) {
    v in q.graph.vertices && ReachableIn(HopsOf(q), root, v, level)
  }

  lemma AroundIsReal(q: Good, root: RecordId, v: RecordId, level: nat, w: RecordId)
    requires Real(q, root, v, level) && w in Around(q, v)
    ensures Real(q, root, w, level + 1)
  {
    AroundIsHops(q, v, w);
    assert ReachableIn(HopsOf(q), root, v, level) && (v, w) in HopsOf(q);
  }

  lemma RootIsReal(q: Good, root: RecordId)
    requires root in q.graph.vertices
    ensures Real(q, root, root, 0)
  {
  }

  /** Every vertex next to one visited from position `before` on, above the limit, is visited. */
  ghost predicate ClosedFrom(q: Good, maxDepth: nat, before: nat, visits: seq<Descriptor>) {
    forall i, w :: before <= i < |visits| && visits[i].depth < maxDepth && (visits[i].rid, w) in HopsOf(q) ==>
      w in Seen(visits)
  }

  ghost predicate Extends(q: Good, root: RecordId, maxDepth: nat, visits: seq<Descriptor>, after: seq<Descriptor>) {
    visits <= after && Walked(q, root, maxDepth, after) && ClosedFrom(q, maxDepth, |visits|, after)
  }

  lemma SeenGrows(visits: seq<Descriptor>, after: seq<Descriptor>)
    requires visits <= after
    ensures Seen(visits) <= Seen(after)
  {
  }

  lemma ExtendsThen(q: Good, root: RecordId, maxDepth: nat, a: seq<Descriptor>, b: seq<Descriptor>, c: seq<Descriptor>)
    requires Extends(q, root, maxDepth, a, b) && Extends(q, root, maxDepth, b, c)
    ensures Extends(q, root, maxDepth, a, c)
  {
    SeenGrows(b, c);
    forall i, w | |a| <= i < |c| && c[i].depth < maxDepth && (c[i].rid, w) in HopsOf(q) ensures w in Seen(c) {
      if i < |b| {
        assert c[i] == b[i];
      }
    }
  }

  /** One more visit. */
  lemma VisitOne(q: Good, root: RecordId, maxDepth: nat, v: RecordId, level: nat, visits: seq<Descriptor>)
    requires Walked(q, root, maxDepth, visits) && v !in Seen(visits)
    requires level <= maxDepth && level <= |visits| && Real(q, root, v, level)
    ensures Walked(q, root, maxDepth, visits + [Descriptor(v, level)])
    ensures Seen(visits + [Descriptor(v, level)]) == Seen(visits) + {v}
  {
    forall i | 0 <= i < |visits| ensures visits[i].rid != v {
      assert visits[i] in visits;
    }
  }

  /** What visiting `v` leaves. */
  ghost predicate Visited(q: Good, root: RecordId, maxDepth: nat, v: RecordId, visits: seq<Descriptor>,
                          after: seq<Descriptor>) {
    Extends(q, root, maxDepth, visits, after) && v in Seen(after)
  }

  lemma {:induction false} VisitExtends(q: Good, root: RecordId, maxDepth: nat, v: RecordId, level: nat,
                                        visits: seq<Descriptor>)
    requires Walked(q, root, maxDepth, visits) && level <= maxDepth && level <= |visits| && Real(q, root, v, level)
    ensures Visited(q, root, maxDepth, v, visits, Visit(q, maxDepth, v, level, visits))
    decreases maxDepth - level, 0, 0
  {
    if v in Seen(visits) || level == maxDepth {
      LastVisit(q, root, maxDepth, v, level, visits, Visit(q, maxDepth, v, level, visits));
    } else {
      var next, now := level + 1, visits + [Descriptor(v, level)];
      GoDeeper(q, root, maxDepth, v, level, visits, next, now);
      VisitAllExtends(q, root, maxDepth, Around(q, v), next, now);
      DeepVisit(q, root, maxDepth, v, level, visits, next, now);
    }
  }

  lemma LastVisit(q: Good, root: RecordId, maxDepth: nat, v: RecordId, level: nat, visits: seq<Descriptor>,
                  after: seq<Descriptor>)
    requires Walked(q, root, maxDepth, visits) && level <= maxDepth && level <= |visits| && Real(q, root, v, level)
    requires v in Seen(visits) || level == maxDepth
    requires after == if v in Seen(visits) then visits else visits + [Descriptor(v, level)]
    ensures Visited(q, root, maxDepth, v, visits, after)
  {
    if v !in Seen(visits) {
      VisitOne(q, root, maxDepth, v, level, visits);
    }
  }

  lemma DeepVisit(q: Good, root: RecordId, maxDepth: nat, v: RecordId, level: nat, visits: seq<Descriptor>, next: nat,
                  now: seq<Descriptor>)
    requires v in q.graph.vertices && v !in Seen(visits) && level < maxDepth
    requires next == level + 1 && now == visits + [Descriptor(v, level)]
    requires AllVisited(q, root, maxDepth, Around(q, v), now, VisitAll(q, maxDepth, Around(q, v), next, now))
    ensures Visited(q, root, maxDepth, v, visits, Visit(q, maxDepth, v, level, visits))
  {
    NewVisitCloses(q, root, maxDepth, v, level, visits, VisitAll(q, maxDepth, Around(q, v), next, now));
  }

  /** What visiting all of `vs` leaves. */
  ghost predicate AllVisited(q: Good, root: RecordId, maxDepth: nat, vs: seq<RecordId>, visits: seq<Descriptor>,
                             after: seq<Descriptor>) {
    Extends(q, root, maxDepth, visits, after) && forall w :: w in vs ==> w in Seen(after)
  }

  lemma GoDeeper(q: Good, root: RecordId, maxDepth: nat, v: RecordId, level: nat, visits: seq<Descriptor>, next: nat,
                 now: seq<Descriptor>)
    requires Walked(q, root, maxDepth, visits) && level < maxDepth && level <= |visits| && Real(q, root, v, level)
    requires v !in Seen(visits) && next == level + 1 && now == visits + [Descriptor(v, level)]
    ensures Ready(q, root, maxDepth, Around(q, v), next, now)
  {
    AllAroundReal(q, root, v, level, next);
    VisitOne(q, root, maxDepth, v, level, visits);
  }

  /** The vertices may be visited at the level. */
  ghost predicate Ready(q: Good, root: RecordId, maxDepth: nat, vs: seq<RecordId>, level: nat,
                        visits: seq<Descriptor>) {
    && Walked(q, root, maxDepth, visits) && level <= maxDepth && level <= |visits|
    && AllReal(q, root, vs, level)
  }

  ghost predicate AllReal(q: Good, root: RecordId, vs: seq<RecordId>, level: nat) {
    forall w :: w in vs ==> Real(q, root, w, level)
  }

  lemma AllAroundReal(q: Good, root: RecordId, v: RecordId, level: nat, next: nat)
    requires Real(q, root, v, level) && next == level + 1
    ensures AllReal(q, root, Around(q, v), next)
  {
    forall w | w in Around(q, v) ensures Real(q, root, w, next) {
      AroundIsReal(q, root, v, level, w);
    }
  }

  lemma NewVisitCloses(q: Good, root: RecordId, maxDepth: nat, v: RecordId, level: nat, visits: seq<Descriptor>,
                       after: seq<Descriptor>)
    requires v in q.graph.vertices && Extends(q, root, maxDepth, visits + [Descriptor(v, level)], after)
    requires forall w :: w in Around(q, v) ==> w in Seen(after)
    ensures Extends(q, root, maxDepth, visits, after) && v in Seen(after)
  {
    var now := visits + [Descriptor(v, level)];
    assert after[|visits|] == now[|visits|] && after[|visits|] in after;
    forall i, w | |visits| <= i < |after| && after[i].depth < maxDepth && (after[i].rid, w) in HopsOf(q)
      ensures w in Seen(after)
    {
      if i == |visits| {
        AroundIsHops(q, v, w);
      }
    }
  }

  lemma {:induction false} VisitAllExtends(q: Good, root: RecordId, maxDepth: nat, vs: seq<RecordId>, level: nat,
                                           visits: seq<Descriptor>)
    requires level <= maxDepth && Ready(q, root, maxDepth, vs, level, visits)
    ensures AllVisited(q, root, maxDepth, vs, visits, VisitAll(q, maxDepth, vs, level, visits))
    decreases maxDepth - level, 1, |vs|
  {
    if vs != [] {
      var one := Visit(q, maxDepth, vs[0], level, visits);
      VisitExtends(q, root, maxDepth, vs[0], level, visits);
      VisitAllExtends(q, root, maxDepth, vs[1..], level, one);
      AllVisitedThen(q, root, maxDepth, vs, visits, one, VisitAll(q, maxDepth, vs[1..], level, one));
    }
  }

  lemma AllVisitedThen(q: Good, root: RecordId, maxDepth: nat, vs: seq<RecordId>, visits: seq<Descriptor>,
                       one: seq<Descriptor>, all: seq<Descriptor>)
    requires vs != [] && Visited(q, root, maxDepth, vs[0], visits, one)
    requires AllVisited(q, root, maxDepth, vs[1..], one, all)
    ensures AllVisited(q, root, maxDepth, vs, visits, all)
  {
    ExtendsThen(q, root, maxDepth, visits, one, all);
    SeenGrows(one, all);
    forall w | w in vs ensures w in Seen(all) {
      assert w == vs[0] || w in vs[1..];
    }
  }

  /**
   For every depth limit: each vertex is visited once, at the length of a real walk within the limit, the root first;
   and whatever is one hop from a vertex visited above the limit is visited.
   */
  lemma VisitsAre(q: Good, root: RecordId, maxDepth: nat)
    requires root in q.graph.vertices
    ensures var visits := Visits(q, root, maxDepth);
            && Walked(q, root, maxDepth, visits) && ClosedFrom(q, maxDepth, 0, visits)
            && |visits| > 0 && visits[0] == Descriptor(root, 0)
  {
    RootIsReal(q, root);
    VisitExtends(q, root, maxDepth, root, 0, []);
    if maxDepth > 0 {
      GoDeeper(q, root, maxDepth, root, 0, [], 1, [] + [Descriptor(root, 0)]);
      VisitAllExtends(q, root, maxDepth, Around(q, root), 1, [] + [Descriptor(root, 0)]);
    }
  }

  /** Every vertex next to a visited one is visited. */
  ghost predicate Closed(hops: Relation, seen: set<RecordId>) {
    forall v, w :: v in seen && (v, w) in hops ==> w in seen
  }

  lemma {:induction false} AllSeen(hops: Relation, root: RecordId, seen: set<RecordId>, v: RecordId, n: nat)
    requires Closed(hops, seen) && root in seen && ReachableIn(hops, root, v, n)
    ensures v in seen
    decreases n
  {
    if n > 0 {
      var u :| ReachableIn(hops, root, u, n - 1) && (u, v) in hops;
      AllSeen(hops, root, seen, u, n - 1);
    }
  }

  /** Where the limit is out of reach, nothing next to a visited vertex is left out. */
  lemma ClosedWithin(q: Good, root: RecordId, maxDepth: nat, visits: seq<Descriptor>)
    requires Walked(q, root, maxDepth, visits) && ClosedFrom(q, maxDepth, 0, visits) && |visits| <= maxDepth
    ensures Closed(HopsOf(q), Seen(visits))
  {
    forall v, w | v in Seen(visits) && (v, w) in HopsOf(q) ensures w in Seen(visits) {
      var i :| 0 <= i < |visits| && visits[i].rid == v;
      assert visits[i].depth <= i;
    }
  }

  lemma {:induction false} DistinctFit(visits: seq<Descriptor>, vertices: set<RecordId>)
    requires forall i, j :: 0 <= i < j < |visits| ==> visits[i].rid != visits[j].rid
    requires forall i :: 0 <= i < |visits| ==> visits[i].rid in vertices
    ensures |visits| <= |vertices|
    decreases |visits|
  {
    if visits != [] {
      var last := visits[|visits| - 1];
      DistinctFit(visits[..|visits| - 1], vertices - {last.rid});
    }
  }

  /** With a limit of at least the number of vertices, everything that can be reached is visited. */
  lemma VisitsAll(q: Good, root: RecordId, maxDepth: nat, v: RecordId)
    requires root in q.graph.vertices && maxDepth >= |q.graph.vertices|
    ensures v in Seen(Visits(q, root, maxDepth)) <==> Reachable(HopsOf(q), root, v)
  {
    var visits := Visits(q, root, maxDepth);
    VisitsAre(q, root, maxDepth);
    DistinctFit(visits, q.graph.vertices);
    assert visits[0] in visits;
    ClosedWithin(q, root, maxDepth, visits);
    if v in Seen(visits) {
      var i :| 0 <= i < |visits| && visits[i].rid == v;
      assert Real(q, root, v, visits[i].depth);
    }
    if n: nat :| ReachableIn(HopsOf(q), root, v, n) {
      AllSeen(HopsOf(q), root, Seen(visits), v, n);
    }
  }

  // A limit that is in reach.

  ghost predicate Within(hops: Relation, root: RecordId, v: RecordId, limit: nat) {
    exists n: nat :: n <= limit && ReachableIn(hops, root, v, n)
  }

  /** There is a walk to `v` within the limit, and `v` is not visited. */
  ghost predicate Missed(hops: Relation, root: RecordId, maxDepth: nat, visits: seq<Descriptor>, v: RecordId) {
    v !in Seen(visits) && Within(hops, root, v, maxDepth)
  }

  /** `u` was visited at the limit, there is a shorter walk to it, and its neighbour `w` is not visited. */
  ghost predicate CutShort(hops: Relation, root: RecordId, maxDepth: nat, visits: seq<Descriptor>, u: RecordId,
                           w: RecordId) {
    && Descriptor(u, maxDepth) in visits && (u, w) in hops && w !in Seen(visits)
    && maxDepth > 0 && Within(hops, root, u, maxDepth - 1)
  }

  /** What is visited, as far as it matters here. */
  ghost predicate VisitedUpTo(hops: Relation, root: RecordId, maxDepth: nat, visits: seq<Descriptor>) {
    && root in Seen(visits)
    && (forall d :: d in visits ==> d.depth <= maxDepth)
    && (forall d, w :: d in visits && (d.rid, w) in hops && d.depth < maxDepth ==> w in Seen(visits))
  }

  /** On a walk to a vertex that is missed, the last one visited was cut short. */
  lemma {:induction false} FindCut(hops: Relation, root: RecordId, maxDepth: nat, visits: seq<Descriptor>, v: RecordId,
                                   n: nat)
    requires VisitedUpTo(hops, root, maxDepth, visits) && n <= maxDepth && ReachableIn(hops, root, v, n)
    requires v !in Seen(visits)
    ensures exists u, w :: CutShort(hops, root, maxDepth, visits, u, w)
    decreases n
  {
    if n > 0 {
      var u :| ReachableIn(hops, root, u, n - 1) && (u, v) in hops;
      if u in Seen(visits) {
        var d :| d in visits && d.rid == u;
        assert d == Descriptor(u, maxDepth);
        assert CutShort(hops, root, maxDepth, visits, u, v);
      } else {
        FindCut(hops, root, maxDepth, visits, u, n - 1);
      }
    }
  }

  lemma OneMore(hops: Relation, root: RecordId, u: RecordId, w: RecordId, limit: nat, next: nat)
    requires Within(hops, root, u, limit) && (u, w) in hops && next == limit + 1
    ensures Within(hops, root, w, next)
  {
    var n: nat :| n <= limit && ReachableIn(hops, root, u, n);
    var m := n + 1;
    assert ReachableIn(hops, root, w, m);
  }

  lemma MissesIffCut(hops: Relation, root: RecordId, maxDepth: nat, visits: seq<Descriptor>)
    requires VisitedUpTo(hops, root, maxDepth, visits)
    ensures (exists v :: Missed(hops, root, maxDepth, visits, v)) <==>
            (exists u, w :: CutShort(hops, root, maxDepth, visits, u, w))
  {
    if v :| Missed(hops, root, maxDepth, visits, v) {
      var n: nat :| n <= maxDepth && ReachableIn(hops, root, v, n);
      FindCut(hops, root, maxDepth, visits, v, n);
    }
    if u, w :| CutShort(hops, root, maxDepth, visits, u, w) {
      OneMore(hops, root, u, w, maxDepth - 1, maxDepth);
      assert Missed(hops, root, maxDepth, visits, w);
    }
  }

  /** A vertex within the limit is missed exactly if the search comes to some vertex on a detour that uses it up. */
  lemma MissesIff(q: Good, root: RecordId, maxDepth: nat)
    requires root in q.graph.vertices
    ensures var hops, visits := HopsOf(q), Visits(q, root, maxDepth);
            (exists v :: Missed(hops, root, maxDepth, visits, v)) <==>
            (exists u, w :: CutShort(hops, root, maxDepth, visits, u, w))
  {
    var hops, visits := HopsOf(q), Visits(q, root, maxDepth);
    VisitsAre(q, root, maxDepth);
    assert visits[0] in visits;
    forall d, w | d in visits && (d.rid, w) in hops && d.depth < maxDepth ensures w in Seen(visits) {
      var i :| 0 <= i < |visits| && visits[i] == d;
    }
    MissesIffCut(hops, root, maxDepth, visits);
  }

  // What is reported.

  lemma {:induction false} SelectedIs(q: Good, minDepth: nat, visits: seq<Descriptor>, d: Descriptor)
    ensures d in Selected(q, minDepth, visits) <==>
              d in visits && d.depth >= minDepth && (d.depth == 0 || q.filter.AdmitsVertex(d.rid))
  {
    if visits != [] {
      var rest, last := visits[..|visits| - 1], visits[|visits| - 1];
      assert visits == rest + [last];
      SelectedIs(q, minDepth, rest, d);
    }
  }

  lemma {:induction false} SelectedOnce(q: Good, minDepth: nat, visits: seq<Descriptor>)
    requires forall i, j :: 0 <= i < j < |visits| ==> visits[i].rid != visits[j].rid
    ensures Distinct(Selected(q, minDepth, visits))
  {
    if visits != [] {
      var rest, last := visits[..|visits| - 1], visits[|visits| - 1];
      SelectedOnce(q, minDepth, rest);
      forall d | d in Selected(q, minDepth, rest) ensures d.rid != last.rid {
        SelectedIs(q, minDepth, rest, d);
        var i :| 0 <= i < |rest| && rest[i] == d;
      }
    }
  }

  /** A lower bound only leaves out what is not deep enough, and keeps the order. */
  function DeepEnough(minDepth: nat, found: seq<Descriptor>): seq<Descriptor> {
    if found == [] then []
    else
      var last := found[|found| - 1];
      DeepEnough(minDepth, found[..|found| - 1]) + if last.depth >= minDepth then [last] else []
  }

  lemma DeepEnoughMore(minDepth: nat, found: seq<Descriptor>, d: Descriptor)
    ensures DeepEnough(minDepth, found + [d]) == DeepEnough(minDepth, found) + if d.depth >= minDepth then [d] else []
  {
    assert (found + [d])[..|found|] == found;
  }

  lemma {:induction false} BoundOnlyLeavesOut(q: Good, minDepth: nat, visits: seq<Descriptor>)
    ensures Selected(q, minDepth, visits) == DeepEnough(minDepth, Selected(q, 0, visits))
  {
    if visits != [] {
      var rest, last := visits[..|visits| - 1], visits[|visits| - 1];
      BoundOnlyLeavesOut(q, minDepth, rest);
      DeepEnoughMore(minDepth, Selected(q, 0, rest), last);
      assert Selected(q, 0, rest) + [] == Selected(q, 0, rest);
      assert Selected(q, minDepth, rest) + [] == Selected(q, minDepth, rest);
    }
  }
}
