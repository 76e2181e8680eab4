/**
 `bfsShortestPathRdesc`: breadth-first search with a parent map, stopped at the destination.

 The destination is recognised by its id before the filter has a say: if the filter rejects it, the walk back
 looks it up in vain and the call fails.
 */
module PathSearch {
  import opened Common
  import opened GraphView
  import opened Levels

  /** `visited` maps each visited vertex to the vertex it was met from (`NO_RECORD` for the source). */
  datatype Frontier = Frontier(visited: map<RecordId, RecordId>, queue: seq<RecordId>)

  /** `path` is a walk from `src` to `dst`, numbered from 0, with as few steps as possible. */
  ghost predicate IsShortest(steps: Relation, src: RecordId, dst: RecordId, path: seq<Descriptor>) {
    && |path| >= 1 && path[0].rid == src && path[|path| - 1].rid == dst
    && (forall i :: 0 <= i < |path| ==> path[i].depth == i)
    && (forall i :: 0 <= i < |path| - 1 ==> (path[i].rid, path[i + 1].rid) in steps)
    && IsDistance(steps, src, dst, |path| - 1)
  }

  /** Some vertex reached through passing vertices has an allowed edge to `dst`. */
  ghost predicate Touches(q: Query, src: RecordId, dst: RecordId)
    requires q.graph.Valid()
  {
    exists v :: Reachable(q.Steps(), src, v) && q.Hop(v, dst)
  }

  // The invariants of the search. `depth` is the distance of every visited vertex.

  ghost predicate Depths(steps: Relation, root: RecordId, visited: set<RecordId>, depth: map<RecordId, nat>,
                         level: nat) {
    && depth.Keys == visited && root in depth
    && forall v :: v in depth ==> IsDistance(steps, root, v, depth[v]) && depth[v] <= level + 1
  }

  /** Everything within `level` steps has been visited. */
  ghost predicate Covered(steps: Relation, root: RecordId, visited: set<RecordId>, level: nat) {
    forall v, n: nat :: n <= level && ReachableIn(steps, root, v, n) ==> v in visited
  }

  /** The queue holds the rest of the current level, then (from `split` on) what is known of the next one. */
  ghost predicate TwoLevels(queue: seq<RecordId>, depth: map<RecordId, nat>, level: nat, split: nat) {
    && split <= |queue|
    && (forall i :: 0 <= i < |queue| ==> queue[i] in depth && depth[queue[i]] == if i < split then level else level + 1)
  }

  /** A vertex first met while a vertex of the current level is expanded is one step farther than that level. */
  lemma NextDistance(steps: Relation, root: RecordId, visited: set<RecordId>, level: nat, u: RecordId, w: RecordId)
    requires Covered(steps, root, visited, level) && IsDistance(steps, root, u, level)
    requires (u, w) in steps && w !in visited
    ensures IsDistance(steps, root, w, level + 1)
  {
    assert ReachableIn(steps, root, w, level + 1);
  }

  lemma AddKeepsDepths(steps: Relation, root: RecordId, visited: set<RecordId>, depth: map<RecordId, nat>, level: nat,
                       u: RecordId, w: RecordId, next: nat)
    requires Depths(steps, root, visited, depth, level) && Covered(steps, root, visited, level)
    requires u in depth && depth[u] == level && (u, w) in steps && w !in visited && next == level + 1
    ensures Depths(steps, root, visited + {w}, depth[w := next], level)
  {
    NextDistance(steps, root, visited, level, u, w);
  }

  /** Parents are one step closer to the source. */
  ghost predicate Parents(steps: Relation, src: RecordId, visited: map<RecordId, RecordId>, depth: map<RecordId, nat>) {
    && visited.Keys == depth.Keys && src in visited && depth[src] == 0
    && (forall v {:trigger visited[v]} :: v in visited && v != src ==>
          visited[v] in depth && depth[v] == depth[visited[v]] + 1 && (visited[v], v) in steps)
  }

  /** Closed vertices are fully expanded and not adjacent to `dst`; the others wait or are being expanded. */
  ghost predicate Waiting(steps: Relation, depth: map<RecordId, nat>, queue: seq<RecordId>, closed: set<RecordId>,
                          busy: Option<RecordId>) {
    && (forall v, w :: v in closed && (v, w) in steps ==> w in depth)
    && (forall v :: v in depth ==> v in closed || v in queue || Some(v) == busy)
  }

  ghost predicate Searching(steps: Relation, src: RecordId, st: Frontier, depth: map<RecordId, nat>, level: nat,
                            split: nat, closed: set<RecordId>, busy: Option<RecordId>)
  {
    && Depths(steps, src, depth.Keys, depth, level) && Covered(steps, src, depth.Keys, level)
    && TwoLevels(st.queue, depth, level, split)
    && Parents(steps, src, st.visited, depth) && Waiting(steps, depth, st.queue, closed, busy)
    && (busy.Some? ==> busy.value in depth && depth[busy.value] == level)
  }

  /** Meeting a neighbour of `u`: record and queue it the first time, if it passes. */
  function Meet(u: RecordId, n: Neighbour, st: Frontier): (r: Frontier) {
    if n.rid in st.visited || !n.passes then st
    else Frontier(st.visited[n.rid := u], st.queue + [n.rid])
  }

  lemma MeetKeeps(steps: Relation, src: RecordId, st: Frontier, depth: map<RecordId, nat>, level: nat, split: nat,
                  closed: set<RecordId>, u: RecordId, n: Neighbour)
    returns (depth': map<RecordId, nat>)
    requires Searching(steps, src, st, depth, level, split, closed, Some(u))
    requires n.passes ==> (u, n.rid) in steps
    ensures Searching(steps, src, Meet(u, n, st), depth', level, split, closed, Some(u))
    ensures depth'.Keys == if n.passes then depth.Keys + {n.rid} else depth.Keys
    ensures (forall v :: v in depth ==> v in depth') && (n.passes ==> n.rid in depth')
  {
    if n.rid in st.visited || !n.passes {
      assert n.passes ==> depth.Keys == depth.Keys + {n.rid};
      return depth;
    }
    var next := level + 1;
    AddKeepsDepths(steps, src, depth.Keys, depth, level, u, n.rid, next);
    assert depth[n.rid := next].Keys == depth.Keys + {n.rid};
    return depth[n.rid := next];
  }

  /** With an empty queue, everything reachable has been expanded. */
  lemma {:induction false} AllClosed(steps: Relation, src: RecordId, depth: map<RecordId, nat>, closed: set<RecordId>,
                                     v: RecordId, n: nat)
    requires src in depth && Waiting(steps, depth, [], closed, None) && ReachableIn(steps, src, v, n)
    ensures v in depth && v in closed
    decreases n
  {
    if n > 0 {
      var u :| ReachableIn(steps, src, u, n - 1) && (u, v) in steps;
      AllClosed(steps, src, depth, closed, u, n - 1);
    }
  }

  lemma PopKeepsWaiting(steps: Relation, depth: map<RecordId, nat>, queue: seq<RecordId>, closed: set<RecordId>)
    requires Waiting(steps, depth, queue, closed, None) && queue != []
    ensures Waiting(steps, depth, queue[1..], closed, Some(queue[0]))
  {
    assert queue == [queue[0]] + queue[1..];
  }

  lemma NextLevel(steps: Relation, src: RecordId, queue: seq<RecordId>, depth: map<RecordId, nat>, level: nat,
                  closed: set<RecordId>, next: nat)
    requires Depths(steps, src, depth.Keys, depth, level) && Covered(steps, src, depth.Keys, level)
    requires TwoLevels(queue, depth, level, 0) && Waiting(steps, depth, queue, closed, None) && next == level + 1
    ensures Covered(steps, src, depth.Keys, next)
  {
    forall v, n: nat | n <= next && ReachableIn(steps, src, v, n) ensures v in depth.Keys {
      if n == next {
        var u :| ReachableIn(steps, src, u, level) && (u, v) in steps;
        assert u in depth && depth[u] <= level;
      }
    }
  }

  /** Taking a vertex off the queue; the (ghost) level moves on with the first vertex of the next one. */
  lemma PopKeeps(steps: Relation, src: RecordId, st: Frontier, depth: map<RecordId, nat>, level: nat, split: nat,
                 closed: set<RecordId>)
    returns (level': nat, split': nat)
    requires Searching(steps, src, st, depth, level, split, closed, None) && st.queue != []
    ensures Searching(steps, src, Frontier(st.visited, st.queue[1..]), depth, level', split', closed, Some(st.queue[0]))
  {
    PopKeepsWaiting(steps, depth, st.queue, closed);
    if split > 0 {
      return level, split - 1;
    }
    var next := level + 1;
    NextLevel(steps, src, st.queue, depth, level, closed, next);
    return next, |st.queue| - 1;
  }

  /** How much work is left: each vertex is met once and queued at most once. */
  ghost function Left(vertices: set<RecordId>, st: Frontier, depth: map<RecordId, nat>): nat {
    |st.queue| + |vertices - depth.Keys|
  }

  lemma MeetShrinks(vertices: set<RecordId>, depth: map<RecordId, nat>, depth': map<RecordId, nat>, u: RecordId,
                    n: Neighbour, st: Frontier)
    requires st.visited.Keys == depth.Keys <= vertices && n.rid in vertices
    requires depth'.Keys == if n.passes then depth.Keys + {n.rid} else depth.Keys
    ensures depth'.Keys <= vertices
    ensures Left(vertices, Meet(u, n, st), depth') <= Left(vertices, st, depth)
  {
    if n.passes && n.rid !in depth {
      assert vertices - depth.Keys == (vertices - depth'.Keys) + {n.rid};
    } else {
      assert depth'.Keys == depth.Keys;
    }
  }

  /** A vertex of the graph, one step from `u` if it passes, and with the filter's verdict if it is `dst`. */
  ghost predicate Suits(n: Neighbour, steps: Relation, dst: RecordId, admitted: bool, u: RecordId,
                        vertices: set<RecordId>) {
    n.rid in vertices && (n.passes ==> (u, n.rid) in steps) && (n.rid == dst ==> n.passes == admitted)
  }

  /** What the loop keeps: the search goes on, and no work has been added. */
  ghost predicate Going(steps: Relation, src: RecordId, st: Frontier, depth: map<RecordId, nat>,
                        level: nat, split: nat, closed: set<RecordId>, u: RecordId, vertices: set<RecordId>, work: nat)
  {
    && Searching(steps, src, st, depth, level, split, closed, Some(u)) && depth.Keys <= vertices
    && Left(vertices, st, depth) <= work
  }

  lemma MeetOne(steps: Relation, src: RecordId, dst: RecordId, admitted: bool, u: RecordId, n: Neighbour, st: Frontier,
                depth: map<RecordId, nat>, level: nat, split: nat, closed: set<RecordId>, vertices: set<RecordId>,
                work: nat)
    returns (depth': map<RecordId, nat>)
    requires Going(steps, src, st, depth, level, split, closed, u, vertices, work) && dst !in depth
    requires Suits(n, steps, dst, admitted, u, vertices)
    ensures Going(steps, src, Meet(u, n, st), depth', level, split, closed, u, vertices, work)
    ensures (forall v :: v in depth ==> v in depth') && (n.passes ==> n.rid in depth')
    ensures dst in depth' <==> n.rid == dst && admitted
  {
    depth' := MeetKeeps(steps, src, st, depth, level, split, closed, u, n);
    MeetShrinks(vertices, depth, depth', u, n, st);
  }

  /** The loop over the neighbours of `u`; it stops as soon as `dst` is met, whatever the filter says of it. */
  method Expand(ghost steps: Relation, ghost src: RecordId, dst: RecordId, ghost admitted: bool, u: RecordId,
                next: seq<Neighbour>, st0: Frontier, ghost depth0: map<RecordId, nat>, ghost level: nat,
                ghost split: nat, ghost closed: set<RecordId>, ghost vertices: set<RecordId>)
    returns (found: bool, st: Frontier, ghost depth: map<RecordId, nat>)
    requires Searching(steps, src, st0, depth0, level, split, closed, Some(u))
    requires depth0.Keys <= vertices && dst !in depth0
    requires forall n :: n in next ==> Suits(n, steps, dst, admitted, u, vertices)
    ensures Searching(steps, src, st, depth, level, split, closed, Some(u)) && depth.Keys <= vertices
    ensures Left(vertices, st, depth) <= Left(vertices, st0, depth0)
    ensures found <==> exists n :: n in next && n.rid == dst
    ensures dst in depth <==> found && admitted
    ensures !found ==> Recorded(next, depth)
  {
    found, st, depth := false, st0, depth0;
    ghost var work := Left(vertices, st0, depth0);
    for i := 0 to |next|
      invariant Going(steps, src, st, depth, level, split, closed, u, vertices, work)
      invariant dst !in depth && !found && Recorded(next[..i], depth) && Missed(next[..i], dst)
    {
      ghost var before := depth;
      depth := MeetOne(steps, src, dst, admitted, u, next[i], st, depth, level, split, closed, vertices, work);
      RecordedNext(next, i, before, depth, dst);
      st := Meet(u, next[i], st);
      if next[i].rid == dst {
        return true, st, depth;
      }
    }
    assert next[..|next|] == next;
  }

  ghost predicate Recorded(next: seq<Neighbour>, depth: map<RecordId, nat>) {
    forall n :: n in next && n.passes ==> n.rid in depth
  }

  ghost predicate Missed(next: seq<Neighbour>, dst: RecordId) {
    forall n :: n in next ==> n.rid != dst
  }

  lemma RecordedNext(next: seq<Neighbour>, i: nat, depth: map<RecordId, nat>, depth': map<RecordId, nat>, dst: RecordId)
    requires i < |next| && Recorded(next[..i], depth) && Missed(next[..i], dst)
    requires (forall v :: v in depth ==> v in depth') && (next[i].passes ==> next[i].rid in depth')
    ensures Recorded(next[..i + 1], depth') && (next[i].rid != dst ==> Missed(next[..i + 1], dst))
  {
    assert next[..i + 1] == next[..i] + [next[i]];
  }

  lemma CloseKeeps(steps: Relation, src: RecordId, st: Frontier, depth: map<RecordId, nat>, level: nat, split: nat,
                   closed: set<RecordId>, u: RecordId)
    requires Searching(steps, src, st, depth, level, split, closed, Some(u))
    requires forall w :: (u, w) in steps ==> w in depth
    ensures Searching(steps, src, st, depth, level, split, closed + {u}, None)
  {
  }

  /** The walk back along the parents. It ends because each parent is one step closer to the source. */
  method WalkBack(ghost steps: Relation, src: RecordId, dst: RecordId, visited: map<RecordId, RecordId>,
                  ghost depth: map<RecordId, nat>)
    returns (back: seq<RecordId>)
    requires Parents(steps, src, visited, depth) && dst in visited
    ensures |back| == depth[dst] + 1 && back[0] == dst && back[depth[dst]] == src
    ensures forall i :: 0 <= i < |back| - 1 ==> (back[i + 1], back[i]) in steps
  {
    back := [];
    var vertex := dst;
    while vertex != src
      invariant vertex in visited && |back| + depth[vertex] == depth[dst]
      invariant (back + [vertex])[0] == dst
      invariant forall i :: 0 <= i < |back| ==> ((back + [vertex])[i + 1], back[i]) in steps
      decreases depth[vertex]
    {
      back := back + [vertex];
      vertex := visited[vertex];
    }
    back := back + [src];
  }

  /** The state in which the search stops. */
  ghost predicate Stopped(q: Query, src: RecordId, dst: RecordId, found: bool, st: Frontier, depth: map<RecordId, nat>)
    requires q.graph.Valid()
  {
    && Parents(q.Steps(), src, st.visited, depth)
    && (found <==> Touches(q, src, dst))
    && (dst in depth <==> found && q.filter.AdmitsVertex(dst))
    && (dst in depth ==> IsDistance(q.Steps(), src, dst, depth[dst]))
  }

  /** Meeting `dst` next to a visited vertex means that the search touches it. */
  lemma FoundTouches(q: Query, src: RecordId, dst: RecordId, u: RecordId, depth: map<RecordId, nat>, level: nat)
    requires q.graph.Valid() && Depths(q.Steps(), src, depth.Keys, depth, level) && u in depth && q.Hop(u, dst)
    ensures Touches(q, src, dst)
  {
    assert ReachableIn(q.Steps(), src, u, depth[u]);
    assert Reachable(q.Steps(), src, u);
  }

  /** If no expanded vertex has an allowed edge to `dst`, nothing reachable has one. */
  lemma NotTouched(q: Query, src: RecordId, dst: RecordId, depth: map<RecordId, nat>, closed: set<RecordId>)
    requires q.graph.Valid() && src in depth && Waiting(q.Steps(), depth, [], closed, None)
    requires forall v :: v in closed ==> !q.Hop(v, dst)
    ensures !Touches(q, src, dst)
  {
    forall v | Reachable(q.Steps(), src, v) ensures !q.Hop(v, dst) {
      var n: nat :| ReachableIn(q.Steps(), src, v, n);
      AllClosed(q.Steps(), src, depth, closed, v, n);
    }
  }

  /** One iteration: take a vertex off the queue and expand it, unless that meets `dst`. */
  method Iterate(q: Query, src: RecordId, dst: RecordId, st0: Frontier, ghost depth0: map<RecordId, nat>,
                 ghost level0: nat, ghost split0: nat, ghost closed: set<RecordId>)
    returns (found: bool, st: Frontier, ghost depth: map<RecordId, nat>, ghost level: nat, ghost split: nat)
    requires q.graph.Valid() && Searching(q.Steps(), src, st0, depth0, level0, split0, closed, None)
    requires st0.queue != [] && depth0.Keys <= q.graph.vertices && dst !in depth0
    ensures Parents(q.Steps(), src, st.visited, depth) && Depths(q.Steps(), src, depth.Keys, depth, level)
    ensures found <==> q.Hop(st0.queue[0], dst)
    ensures found ==> Touches(q, src, dst)
    ensures dst in depth <==> found && q.filter.AdmitsVertex(dst)
    ensures !found ==>
              && Searching(q.Steps(), src, st, depth, level, split, closed + {st0.queue[0]}, None)
              && depth.Keys <= q.graph.vertices
              && Left(q.graph.vertices, st, depth) < Left(q.graph.vertices, st0, depth0)
  {
    var u := st0.queue[0];
    var next := Neighbours(q, u);
    Verdict(q, u, dst, next);
    level, split := PopKeeps(q.Steps(), src, st0, depth0, level0, split0, closed);
    found, st, depth := Expand(q.Steps(), src, dst, q.filter.AdmitsVertex(dst), u, next,
                               Frontier(st0.visited, st0.queue[1..]), depth0, level, split, closed, q.graph.vertices);
    if found {
      FoundTouches(q, src, dst, u, depth, level);
    } else {
      SuccessorsVisited(q, u, next, depth.Keys);
      CloseKeeps(q.Steps(), src, st, depth, level, split, closed, u);
    }
  }

  /** What the neighbours of one vertex say about `dst`. */
  lemma Verdict(q: Query, u: RecordId, dst: RecordId, next: seq<Neighbour>)
    requires q.graph.Valid() && AreNeighbours(q, u, next)
    ensures forall n :: n in next ==> Suits(n, q.Steps(), dst, q.filter.AdmitsVertex(dst), u, q.graph.vertices)
    ensures q.Hop(u, dst) <==> exists n :: n in next && n.rid == dst
  {
  }

  lemma SuccessorsVisited(q: Query, u: RecordId, next: seq<Neighbour>, visited: set<RecordId>)
    requires q.graph.Valid() && AreNeighbours(q, u, next) && forall n :: n in next && n.passes ==> n.rid in visited
    ensures forall w :: (u, w) in q.Steps() ==> w in visited
  {
    forall w | (u, w) in q.Steps() ensures w in visited {
      assert Neighbour(w, true) in next;
    }
  }

  lemma StartSearching(steps: Relation, src: RecordId)
    ensures Searching(steps, src, Frontier(map[src := NO_RECORD], [src]), map[src := 0], 0, 1, {}, None)
  {
    assert ReachableIn(steps, src, src, 0);
  }

  /** The search loop. */
  method Explore(q: Query, src: RecordId, dst: RecordId)
    returns (found: bool, st: Frontier, ghost depth: map<RecordId, nat>)
    requires q.graph.Valid() && src in q.graph.vertices && src != dst
    ensures Stopped(q, src, dst, found, st, depth)
  {
    ghost var steps := q.Steps();
    StartSearching(steps, src);
    found, st, depth := false, Frontier(map[src := NO_RECORD], [src]), map[src := 0];
    ghost var level: nat, split: nat, closed: set<RecordId> := 0, 1, {};
    while st.queue != []
      invariant Searching(steps, src, st, depth, level, split, closed, None) && depth.Keys <= q.graph.vertices
      invariant dst !in depth && !found
      invariant forall v :: v in closed ==> !q.Hop(v, dst)
      decreases Left(q.graph.vertices, st, depth)
    {
      ghost var u := st.queue[0];
      found, st, depth, level, split := Iterate(q, src, dst, st, depth, level, split, closed);
      if found {
        return;
      }
      closed := closed + {u};
    }
    NotTouched(q, src, dst, depth, closed);
  }

  /** Reading the path off the parents. */
  lemma PathIsShortest(steps: Relation, src: RecordId, dst: RecordId, back: seq<RecordId>, n: nat)
    requires IsDistance(steps, src, dst, n)
    requires |back| == n + 1 && back[0] == dst && back[n] == src
    requires forall i :: 0 <= i < |back| - 1 ==> (back[i + 1], back[i]) in steps
    ensures IsShortest(steps, src, dst, Numbered(back))
  {
    var path := Numbered(back);
    forall i | 0 <= i < |path| - 1 ensures (path[i].rid, path[i + 1].rid) in steps {
      var j := n - 1 - i;
      assert (back[j + 1], back[j]) in steps;
    }
  }

  /** Being reachable in at least one step is being touched and admitted. */
  lemma ReachableIsTouched(q: Query, src: RecordId, dst: RecordId)
    requires q.graph.Valid() && src != dst
    ensures Reachable(q.Steps(), src, dst) <==> Touches(q, src, dst) && q.filter.AdmitsVertex(dst)
  {
    if Reachable(q.Steps(), src, dst) {
      var n: nat :| ReachableIn(q.Steps(), src, dst, n);
      var u :| ReachableIn(q.Steps(), src, u, n - 1) && (u, dst) in q.Steps();
      assert Reachable(q.Steps(), src, u);
    }
    if Touches(q, src, dst) && q.filter.AdmitsVertex(dst) {
      var v :| Reachable(q.Steps(), src, v) && q.Hop(v, dst);
      var n: nat :| ReachableIn(q.Steps(), src, v, n);
      HopIsStep(q, v, dst);
      assert ReachableIn(q.Steps(), src, dst, n + 1);
    }
  }

  lemma HopIsStep(q: Query, v: RecordId, w: RecordId)
    requires q.graph.Valid() && q.Hop(v, w) && q.filter.AdmitsVertex(w)
    ensures (v, w) in q.Steps()
  {
    var e :| q.Allows(v, e) && (q.AllowedEdgeIsKnown(v, e); q.Across(v, e) == w);
    q.AllowedEdgeIsKnown(v, e);
  }

  /**
   The main result. The call fails with `OutOfRange` exactly when the filter rejects `dst` and the search touches
   it; otherwise the answer is empty exactly when `dst` is unreachable, and else a shortest path.
   */
  method ShortestPath(q: Query, src: Descriptor, dst: Descriptor) returns (r: Result<seq<Descriptor>>)
    requires q.graph.Valid() && q.direction == Outgoing
    ensures q.graph.Find(src.rid) == Absent <==> r == Err(NoSource)
    ensures q.graph.Find(src.rid) != Absent && q.graph.Find(dst.rid) == Absent <==> r == Err(NoDestination)
    ensures (q.graph.Find(src.rid) == OnDisk && q.graph.Find(dst.rid) != Absent) ||
            (q.graph.Find(src.rid) != Absent && q.graph.Find(dst.rid) == OnDisk) ==>
              r == Ok([])
    ensures q.graph.Find(src.rid) == InMemory && src.rid == dst.rid ==> r == Ok([src])
    ensures q.graph.Find(src.rid) == InMemory && q.graph.Find(dst.rid) == InMemory && src.rid != dst.rid ==>
              && (r == Err(OutOfRange) <==> !q.filter.AdmitsVertex(dst.rid) && Touches(q, src.rid, dst.rid))
              && (r == Ok([]) || r == Err(OutOfRange) <==> !Reachable(q.Steps(), src.rid, dst.rid))
              && (Reachable(q.Steps(), src.rid, dst.rid) ==> r.Ok? && IsShortest(q.Steps(), src.rid, dst.rid, r.value))
  {
    if q.graph.Find(src.rid) == Absent {
      return Err(NoSource);
    } else if q.graph.Find(dst.rid) == Absent {
      return Err(NoDestination);
    } else if q.graph.Find(src.rid) == OnDisk || q.graph.Find(dst.rid) == OnDisk {
      return Ok([]);
    }
    if src.rid == dst.rid {
      return Ok([src]);
    }
    ReachableIsTouched(q, src.rid, dst.rid);
    var found, st, depth := Explore(q, src.rid, dst.rid);
    if !found {
      return Ok([]);
    }
    if dst.rid !in st.visited {
      return Err(OutOfRange);
    }
    var back := WalkBack(q.Steps(), src.rid, dst.rid, st.visited, depth);
    PathIsShortest(q.Steps(), src.rid, dst.rid, back, depth[dst.rid]);
    return Ok(Numbered(back));
  }
}
