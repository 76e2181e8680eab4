/**
 `breadthFirstSearchRdesc` round by round: a breadth-first search that keeps no depth per vertex.

 One counter is the current level; `marker` remembers the first vertex met on the next level, and the counter moves on
 when that vertex leaves the queue.
 */
module BreadthRounds {
  import opened Common
  import opened GraphView
  import opened Levels

  /** The variables of the search loop (`firstRecordId` is `marker`, `result` is `found`). */
  datatype Bfs = Bfs(visited: set<RecordId>, queue: seq<RecordId>, level: nat, marker: RecordId, found: seq<Descriptor>)

  ghost predicate Distinct(found: seq<Descriptor>) {
    forall i, j :: 0 <= i < j < |found| ==> found[i].rid != found[j].rid
  }

  /** The root comes first if depth 0 is asked for, with the depth its descriptor came with. */
  ghost predicate RootReported(root: Descriptor, minDepth: nat, found: seq<Descriptor>) {
    && (minDepth == 0 ==> root in found)
    && (forall d :: d in found && d.rid == root.rid ==> d == root && minDepth == 0)
  }

  /** Besides the root, exactly the vertices at distance `minDepth` to `maxDepth` are reported, at their distance. */
  ghost predicate ExactDepths(steps: Relation, root: RecordId, minDepth: nat, maxDepth: nat, found: seq<Descriptor>) {
    forall v, n: nat :: v != root ==>
      (Descriptor(v, n) in found <==> minDepth <= n <= maxDepth && IsDistance(steps, root, v, n))
  }

  // One round takes one vertex off the queue and meets its neighbours.

  function Initial(root: Descriptor, minDepth: nat): Bfs {
    Bfs({root.rid}, [root.rid], 0, root.rid, if minDepth == 0 then [root] else [])
  }

  /** The `addUniqueVertex` closure; `passes` is what the vertex filter says of `w`. */
  function AddUnique(minDepth: nat, maxDepth: nat, w: RecordId, passes: bool, st: Bfs): (r: Bfs) {
    if w in st.visited then st
    else
      Bfs(st.visited + {w},
          if st.level + 1 < maxDepth && passes then st.queue + [w] else st.queue,
          st.level,
          if st.marker == NO_RECORD then w else st.marker,
          if minDepth <= st.level + 1 <= maxDepth && passes then st.found + [Descriptor(w, st.level + 1)] else st.found)
  }

  /** Taking the next vertex off the queue; the level moves on when the marker comes by. */
  function Advance(root: RecordId, st: Bfs): (r: Bfs)
    requires st.queue != []
  {
    var vertex := st.queue[0];
    if vertex == st.marker then
      Bfs(st.visited, st.queue[1..], st.level + (if vertex != root then 1 else 0), NO_RECORD, st.found)
    else
      Bfs(st.visited, st.queue[1..], st.level, st.marker, st.found)
  }

  function Met(minDepth: nat, maxDepth: nat, next: seq<Neighbour>, st: Bfs): Bfs {
    if next == [] then st
    else
      var last := next[|next| - 1];
      AddUnique(minDepth, maxDepth, last.rid, last.passes, Met(minDepth, maxDepth, next[..|next| - 1], st))
  }

  function Round(q: Good, root: RecordId, minDepth: nat, maxDepth: nat, st: Bfs): Bfs {
    if st.queue == [] || st.queue[0] !in q.graph.vertices then st
    else Met(minDepth, maxDepth, NeighboursOf(q, st.queue[0]), Advance(root, st))
  }

  function After(q: Good, root: Descriptor, minDepth: nat, maxDepth: nat, n: nat): Bfs {
    if n == 0 then Initial(root, minDepth)
    else Round(q, root.rid, minDepth, maxDepth, After(q, root, minDepth, maxDepth, n - 1))
  }

  /** The queue is empty after some number of rounds, and that is what they have found. */
  ghost predicate IsAnswer(q: Good, root: Descriptor, minDepth: nat, maxDepth: nat, found: seq<Descriptor>) {
    exists n ::
      After(q, root, minDepth, maxDepth, n).queue == [] && After(q, root, minDepth, maxDepth, n).found == found
  }

  lemma {:induction false} NothingMore(q: Good, root: Descriptor, minDepth: nat, maxDepth: nat, n: nat, m: nat)
    requires n <= m && After(q, root, minDepth, maxDepth, n).queue == []
    ensures After(q, root, minDepth, maxDepth, m) == After(q, root, minDepth, maxDepth, n)
    decreases m
  {
    if n < m {
      NothingMore(q, root, minDepth, maxDepth, n, m - 1);
    }
  }

  /** There is one answer. */
  lemma AnswerIs(q: Good, root: Descriptor, minDepth: nat, maxDepth: nat, n: nat, found: seq<Descriptor>)
    requires After(q, root, minDepth, maxDepth, n).queue == []
    requires IsAnswer(q, root, minDepth, maxDepth, found)
    ensures found == After(q, root, minDepth, maxDepth, n).found
  {
    var m :| After(q, root, minDepth, maxDepth, m).queue == [] && After(q, root, minDepth, maxDepth, m).found == found;
    if n <= m {
      NothingMore(q, root, minDepth, maxDepth, n, m);
    } else {
      NothingMore(q, root, minDepth, maxDepth, m, n);
    }
  }

  // Soundness.

  /** With any filter: no vertex is reported twice and each one reported is reached through passing vertices. */
  ghost predicate Sound(steps: Relation, root: Descriptor, minDepth: nat, st: Bfs) {
    && root.rid in st.visited && RootReported(root, minDepth, st.found) && Distinct(st.found)
    && (forall v :: v in st.queue ==> v in st.visited && Reachable(steps, root.rid, v))
    && (forall d :: d in st.found ==> d.rid in st.visited && Reachable(steps, root.rid, d.rid))
  }

  lemma AddKeepsSound(steps: Relation, root: Descriptor, minDepth: nat, maxDepth: nat, st: Bfs, u: RecordId,
                      w: RecordId, passes: bool)
    requires Sound(steps, root, minDepth, st) && Reachable(steps, root.rid, u)
    requires passes ==> (u, w) in steps
    ensures Sound(steps, root, minDepth, AddUnique(minDepth, maxDepth, w, passes, st))
  {
    if passes {
      var n: nat :| ReachableIn(steps, root.rid, u, n);
      assert ReachableIn(steps, root.rid, w, n + 1);
    }
  }

  lemma AdvanceKeepsSound(steps: Relation, root: Descriptor, minDepth: nat, st: Bfs)
    requires Sound(steps, root, minDepth, st) && st.queue != []
    ensures Sound(steps, root, minDepth, Advance(root.rid, st))
    ensures st.queue[0] in st.visited && Reachable(steps, root.rid, st.queue[0])
  {
  }

  lemma {:induction false} MetSound(q: Good, root: Descriptor, minDepth: nat, maxDepth: nat, u: RecordId,
                                    next: seq<Neighbour>, st: Bfs)
    requires SoundIn(q, root, minDepth, st) && Reachable(StepsOf(q), root.rid, u)
    requires forall n :: n in next ==> n.rid in q.graph.vertices && (n.passes ==> (u, n.rid) in StepsOf(q))
    ensures SoundIn(q, root, minDepth, Met(minDepth, maxDepth, next, st))
  {
    if next != [] {
      var rest, last := next[..|next| - 1], next[|next| - 1];
      MetSound(q, root, minDepth, maxDepth, u, rest, st);
      assert last in next;
      AddKeepsSound(StepsOf(q), root, minDepth, maxDepth, Met(minDepth, maxDepth, rest, st), u, last.rid, last.passes);
    }
  }

  ghost predicate SoundIn(q: Good, root: Descriptor, minDepth: nat, st: Bfs) {
    Sound(StepsOf(q), root, minDepth, st) && st.visited <= q.graph.vertices
  }

  lemma RoundSound(q: Good, root: Descriptor, minDepth: nat, maxDepth: nat, st: Bfs)
    requires SoundIn(q, root, minDepth, st)
    ensures SoundIn(q, root, minDepth, Round(q, root.rid, minDepth, maxDepth, st))
  {
    if st.queue != [] {
      var u := st.queue[0];
      AdvanceKeepsSound(StepsOf(q), root, minDepth, st);
      AreNext(q, u);
      MetSound(q, root, minDepth, maxDepth, u, NeighboursOf(q, u), Advance(root.rid, st));
    }
  }

  /** In every round. */
  lemma {:induction false} AfterSound(q: Good, root: Descriptor, minDepth: nat, maxDepth: nat, n: nat)
    requires root.rid in q.graph.vertices
    ensures SoundIn(q, root, minDepth, After(q, root, minDepth, maxDepth, n))
  {
    if n == 0 {
      assert ReachableIn(StepsOf(q), root.rid, root.rid, 0);
    } else {
      AfterSound(q, root, minDepth, maxDepth, n - 1);
      RoundSound(q, root, minDepth, maxDepth, After(q, root, minDepth, maxDepth, n - 1));
    }
  }

  // Termination.

  /** How much work is left: each vertex is met once and queued at most once. */
  ghost function Remaining(vertices: set<RecordId>, st: Bfs): nat {
    |vertices - st.visited| + |st.queue|
  }

  lemma AddRemaining(vertices: set<RecordId>, minDepth: nat, maxDepth: nat, w: RecordId, passes: bool, st: Bfs)
    requires w in vertices && st.visited <= vertices
    ensures var after := AddUnique(minDepth, maxDepth, w, passes, st);
            after.visited <= vertices && Remaining(vertices, after) <= Remaining(vertices, st)
  {
    if w !in st.visited {
      assert vertices - st.visited == (vertices - (st.visited + {w})) + {w};
    }
  }

  lemma {:induction false} MetRemaining(vertices: set<RecordId>, minDepth: nat, maxDepth: nat, next: seq<Neighbour>,
                                        st: Bfs)
    requires (forall n :: n in next ==> n.rid in vertices) && st.visited <= vertices
    ensures var after := Met(minDepth, maxDepth, next, st);
            after.visited <= vertices && Remaining(vertices, after) <= Remaining(vertices, st)
  {
    if next != [] {
      var rest, last := next[..|next| - 1], next[|next| - 1];
      MetRemaining(vertices, minDepth, maxDepth, rest, st);
      assert last in next;
      AddRemaining(vertices, minDepth, maxDepth, last.rid, last.passes, Met(minDepth, maxDepth, rest, st));
    }
  }

  lemma RoundRemaining(q: Good, root: Descriptor, minDepth: nat, maxDepth: nat, st: Bfs)
    requires SoundIn(q, root, minDepth, st) && st.queue != []
    ensures st.queue[0] in q.graph.vertices
    ensures Remaining(q.graph.vertices, Round(q, root.rid, minDepth, maxDepth, st)) < Remaining(q.graph.vertices, st)
  {
    var u := st.queue[0];
    assert u in st.queue;
    AreNext(q, u);
    MetRemaining(q.graph.vertices, minDepth, maxDepth, NeighboursOf(q, u), Advance(root.rid, st));
  }
}
