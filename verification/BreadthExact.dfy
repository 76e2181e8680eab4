/**
 When the depths that the search reports are right, exactly.

 As long as the marker works, the state of the search is determined by the levels of the graph. If the first vertex met
 from a level is rejected, the marker is lost and whatever is found later is reported one step from that level.
 */
module BreadthExact {
  import opened Common
  import opened GraphView
  import opened Levels
  import opened BreadthRounds

  // The state within a level.

  function Described(vs: seq<RecordId>, depth: nat): (r: seq<Descriptor>)
    ensures |r| == |vs| && forall i :: 0 <= i < |vs| ==> r[i] == Descriptor(vs[i], depth)
  {
    seq(|vs|, i requires 0 <= i < |vs| => Descriptor(vs[i], depth))
  }

  /** What is reported of the vertices at depth `depth`. */
  function Report(minDepth: nat, maxDepth: nat, vs: seq<RecordId>, depth: nat): seq<Descriptor> {
    if minDepth <= depth <= maxDepth then Described(vs, depth) else []
  }

  /** `waiting` is left of level `level`, and `met` has been met from the rest of it. */
  function During(minDepth: nat, maxDepth: nat, seen: set<RecordId>, waiting: seq<RecordId>, level: nat,
                  met: seq<Neighbour>, found: seq<Descriptor>): Bfs
  {
    Bfs(seen + Rids(met),
        waiting + if level + 1 < maxDepth then PassingRids(met) else [],
        level,
        if met == [] then NO_RECORD else met[0].rid,
        found + Report(minDepth, maxDepth, PassingRids(met), level + 1))
  }

  lemma PassingMore(met: seq<Neighbour>, n: Neighbour)
    ensures PassingRids(met + [n]) == if n.passes then PassingRids(met) + [n.rid] else PassingRids(met)
  {
    assert (met + [n])[..|met|] == met;
  }

  lemma ReportMore(minDepth: nat, maxDepth: nat, vs: seq<RecordId>, more: seq<RecordId>, n: Neighbour, depth: nat)
    requires more == if n.passes then vs + [n.rid] else vs
    ensures Report(minDepth, maxDepth, more, depth) ==
              Report(minDepth, maxDepth, vs, depth)
              + if n.passes && minDepth <= depth <= maxDepth then [Descriptor(n.rid, depth)] else []
  {
  }

  /** Meeting a vertex for the first time. */
  lemma AddNew(minDepth: nat, maxDepth: nat, seen: set<RecordId>, waiting: seq<RecordId>, level: nat,
               met: seq<Neighbour>, found: seq<Descriptor>, n: Neighbour, vs: seq<RecordId>, more: seq<RecordId>)
    requires n.rid != NO_RECORD && (met != [] ==> met[0].rid != NO_RECORD) && n.rid !in seen && n.rid !in Rids(met)
    requires vs == PassingRids(met) && more == PassingRids(met + [n])
    requires more == if n.passes then vs + [n.rid] else vs
    ensures AddUnique(minDepth, maxDepth, n.rid, n.passes, During(minDepth, maxDepth, seen, waiting, level, met, found))
            == During(minDepth, maxDepth, seen, waiting, level, met + [n], found)
  {
    ReportMore(minDepth, maxDepth, vs, more, n, level + 1);
    assert seen + Rids(met + [n]) == seen + Rids(met) + {n.rid};
    assert waiting + (vs + [n.rid]) == (waiting + vs) + [n.rid];
    var said := Report(minDepth, maxDepth, vs, level + 1);
    assert found + (said + [Descriptor(n.rid, level + 1)]) == (found + said) + [Descriptor(n.rid, level + 1)];
    assert said + [] == said;
  }

  /** Meeting one vertex. */
  lemma AddDuring(minDepth: nat, maxDepth: nat, seen: set<RecordId>, waiting: seq<RecordId>, level: nat,
                  met: seq<Neighbour>, found: seq<Descriptor>, n: Neighbour)
    requires n.rid != NO_RECORD && (met != [] ==> met[0].rid != NO_RECORD)
    ensures AddUnique(minDepth, maxDepth, n.rid, n.passes, During(minDepth, maxDepth, seen, waiting, level, met, found))
            == During(minDepth, maxDepth, seen, waiting, level, AddMet(seen, met, n), found)
  {
    if n.rid !in seen && n.rid !in Rids(met) {
      PassingMore(met, n);
      AddNew(minDepth, maxDepth, seen, waiting, level, met, found, n, PassingRids(met), PassingRids(met + [n]));
    }
  }

  lemma FirstMetMore(seen: set<RecordId>, next: seq<Neighbour>, n: Neighbour)
    ensures FirstMet(seen, next + [n]) == AddMet(seen, FirstMet(seen, next), n)
  {
    assert (next + [n])[..|next|] == next;
  }

  lemma {:induction false} MetStates(minDepth: nat, maxDepth: nat, next: seq<Neighbour>, states: seq<Bfs>)
    requires |states| == |next| + 1
    requires forall k :: 0 <= k < |next| ==>
               AddUnique(minDepth, maxDepth, next[k].rid, next[k].passes, states[k]) == states[k + 1]
    ensures Met(minDepth, maxDepth, next, states[0]) == states[|next|]
    decreases |next|
  {
    if next != [] {
      MetStates(minDepth, maxDepth, next[..|next| - 1], states[..|next|]);
    }
  }

  lemma AddNext(minDepth: nat, maxDepth: nat, seen: set<RecordId>, waiting: seq<RecordId>, level: nat,
                less: seq<Neighbour>, more: seq<Neighbour>, found: seq<Descriptor>, n: Neighbour)
    requires n.rid != NO_RECORD && (forall m :: m in less ==> m.rid != NO_RECORD) && more == less + [n]
    ensures AddUnique(minDepth, maxDepth, n.rid, n.passes,
                      During(minDepth, maxDepth, seen, waiting, level, FirstMet(seen, less), found))
            == During(minDepth, maxDepth, seen, waiting, level, FirstMet(seen, more), found)
  {
    FirstMetIs(seen, less);
    AddDuring(minDepth, maxDepth, seen, waiting, level, FirstMet(seen, less), found, n);
    FirstMetMore(seen, less, n);
  }

  lemma MoreNeighbours(before: seq<Neighbour>, next: seq<Neighbour>, k: nat, less: seq<Neighbour>, more: seq<Neighbour>)
    requires (forall n :: n in before ==> n.rid != NO_RECORD) && (forall n :: n in next ==> n.rid != NO_RECORD)
    requires k < |next| && less == before + next[..k] && more == before + next[..k + 1]
    ensures more == less + [next[k]] && next[k].rid != NO_RECORD && forall m :: m in less ==> m.rid != NO_RECORD
  {
    assert next[k] in next;
  }

  /** The states while the neighbours of one vertex are met. */
  function MeetingStates(minDepth: nat, maxDepth: nat, seen: set<RecordId>, waiting: seq<RecordId>, level: nat,
                         before: seq<Neighbour>, found: seq<Descriptor>, next: seq<Neighbour>): (r: seq<Bfs>)
    ensures |r| == |next| + 1
    ensures forall i :: 0 <= i <= |next| ==>
              r[i] == During(minDepth, maxDepth, seen, waiting, level, FirstMet(seen, before + next[..i]), found)
  {
    seq(|next| + 1, i requires 0 <= i < |next| + 1 =>
      During(minDepth, maxDepth, seen, waiting, level, FirstMet(seen, before + next[..i]), found))
  }

  lemma MeetingFollows(minDepth: nat, maxDepth: nat, seen: set<RecordId>, waiting: seq<RecordId>, level: nat,
                       before: seq<Neighbour>, found: seq<Descriptor>, next: seq<Neighbour>, states: seq<Bfs>, k: nat)
    requires (forall n :: n in before ==> n.rid != NO_RECORD) && (forall n :: n in next ==> n.rid != NO_RECORD)
    requires states == MeetingStates(minDepth, maxDepth, seen, waiting, level, before, found, next) && k < |next|
    ensures AddUnique(minDepth, maxDepth, next[k].rid, next[k].passes, states[k]) == states[k + 1]
  {
    var less, more := before + next[..k], before + next[..k + 1];
    MoreNeighbours(before, next, k, less, more);
    AddNext(minDepth, maxDepth, seen, waiting, level, less, more, found, next[k]);
  }

  /** Meeting the neighbours of one more vertex. */
  lemma MetDuring(minDepth: nat, maxDepth: nat, seen: set<RecordId>, waiting: seq<RecordId>, level: nat,
                  before: seq<Neighbour>, found: seq<Descriptor>, next: seq<Neighbour>)
    requires (forall n :: n in before ==> n.rid != NO_RECORD) && (forall n :: n in next ==> n.rid != NO_RECORD)
    ensures Met(minDepth, maxDepth, next,
                During(minDepth, maxDepth, seen, waiting, level, FirstMet(seen, before), found))
            == During(minDepth, maxDepth, seen, waiting, level, FirstMet(seen, before + next), found)
  {
    var states := MeetingStates(minDepth, maxDepth, seen, waiting, level, before, found, next);
    forall k | 0 <= k < |next|
      ensures AddUnique(minDepth, maxDepth, next[k].rid, next[k].passes, states[k]) == states[k + 1]
    {
      MeetingFollows(minDepth, maxDepth, seen, waiting, level, before, found, next, states, k);
    }
    MetStates(minDepth, maxDepth, next, states);
    assert before + next[..0] == before && before + next[..|next|] == before + next;
  }

  /** Taking a vertex of the level off the queue does not move the level. */
  lemma PopDuring(minDepth: nat, maxDepth: nat, seen: set<RecordId>, waiting: seq<RecordId>, level: nat,
                  met: seq<Neighbour>, found: seq<Descriptor>, root: RecordId)
    requires waiting != [] && waiting[0] in seen && waiting[0] != NO_RECORD && (met != [] ==> met[0].rid !in seen)
    ensures var st := During(minDepth, maxDepth, seen, waiting, level, met, found);
            && st.queue != [] && st.queue[0] == waiting[0]
            && Advance(root, st) == During(minDepth, maxDepth, seen, waiting[1..], level, met, found)
  {
  }

  // The rounds of one level.

  /** After the first `i` vertices of level `level` have been expanded. */
  function Partly(q: Good, minDepth: nat, maxDepth: nat, layer: Layer, level: nat, found: seq<Descriptor>, i: nat): Bfs
    requires i <= |layer.level|
  {
    var met := FirstMet(layer.seen, AllNext(q, layer.level[..i]));
    During(minDepth, maxDepth, layer.seen, layer.level[i..], level, met, found)
  }

  ghost predicate Fits(q: Good, layer: Layer) {
    layer.seen <= q.graph.vertices && forall v :: v in layer.level ==> v in layer.seen
  }

  lemma NextInGraph(q: Good, layer: Layer, i: nat)
    requires Fits(q, layer) && i <= |layer.level|
    ensures forall n :: n in AllNext(q, layer.level[..i]) ==> n.rid != NO_RECORD
  {
    forall n | n in AllNext(q, layer.level[..i]) ensures n.rid != NO_RECORD {
      NextIsAcross(q, layer.level[..i], n);
    }
  }

  lemma AllNextMore(q: Good, level: seq<RecordId>, i: nat)
    requires i < |level| && level[i] in q.graph.vertices
    ensures AllNext(q, level[..i + 1]) == AllNext(q, level[..i]) + NeighboursOf(q, level[i])
  {
    assert level[..i + 1][..i] == level[..i];
  }

  lemma RoundPartly(q: Good, root: RecordId, minDepth: nat, maxDepth: nat, layer: Layer, level: nat,
                    found: seq<Descriptor>, i: nat)
    requires Fits(q, layer) && i < |layer.level|
    ensures Round(q, root, minDepth, maxDepth, Partly(q, minDepth, maxDepth, layer, level, found, i))
            == Partly(q, minDepth, maxDepth, layer, level, found, i + 1)
  {
    var seen, u, rest := layer.seen, layer.level[i], layer.level[i..][1..];
    var before := AllNext(q, layer.level[..i]);
    assert u in layer.level && rest == layer.level[i + 1..];
    NextInGraph(q, layer, i);
    NextInGraph(q, layer, i + 1);
    FirstMetIs(seen, before);
    AllNextMore(q, layer.level, i);
    PopDuring(minDepth, maxDepth, seen, layer.level[i..], level, FirstMet(seen, before), found, root);
    MetDuring(minDepth, maxDepth, seen, rest, level, before, found, NeighboursOf(q, u));
  }

  // The rounds of all levels.

  /** What is reported up to depth `n`, if nothing goes wrong. */
  function FoundUpTo(q: Good, root: Descriptor, minDepth: nat, maxDepth: nat, n: nat): seq<Descriptor> {
    if n == 0 then if minDepth == 0 then [root] else []
    else FoundUpTo(q, root, minDepth, maxDepth, n - 1)
         + Report(minDepth, maxDepth, LayerAt(q, root.rid, n).level, n)
  }

  /** The state when the level before `next` has been expanded and `met` has been met from it. */
  function Ending(minDepth: nat, maxDepth: nat, next: Layer, n: nat, met: seq<Neighbour>, found: seq<Descriptor>): Bfs {
    Bfs(next.seen, if n + 1 < maxDepth then next.level else [], n, if met == [] then NO_RECORD else met[0].rid,
        found + Report(minDepth, maxDepth, next.level, n + 1))
  }

  /** The state when level `n` has been expanded. */
  function EndOf(q: Good, root: Descriptor, minDepth: nat, maxDepth: nat, n: nat): Bfs {
    Ending(minDepth, maxDepth, LayerAt(q, root.rid, n + 1), n, MetFrom(q, LayerAt(q, root.rid, n)),
           FoundUpTo(q, root, minDepth, maxDepth, n))
  }

  lemma EndDuring(minDepth: nat, maxDepth: nat, seen: set<RecordId>, n: nat, met: seq<Neighbour>,
                  found: seq<Descriptor>, next: Layer)
    requires next == Layer(seen + Rids(met), PassingRids(met))
    ensures During(minDepth, maxDepth, seen, [], n, met, found) == Ending(minDepth, maxDepth, next, n, met, found)
  {
  }

  lemma NextLayerIs(q: Good, root: RecordId, n: nat, layer: Layer, next: Layer)
    requires layer == LayerAt(q, root, n) && next == LayerAt(q, root, n + 1)
    ensures next == Layer(layer.seen + Rids(MetFrom(q, layer)), PassingRids(MetFrom(q, layer)))
  {
  }

  lemma AllPartly(q: Good, minDepth: nat, maxDepth: nat, layer: Layer, n: nat, found: seq<Descriptor>)
    ensures Partly(q, minDepth, maxDepth, layer, n, found, |layer.level|)
            == During(minDepth, maxDepth, layer.seen, [], n, MetFrom(q, layer), found)
  {
    var level := layer.level;
    assert level[..|level|] == level && level[|level|..] == [];
  }

  lemma EndingIsPartly(q: Good, minDepth: nat, maxDepth: nat, layer: Layer, n: nat, found: seq<Descriptor>, next: Layer,
                       root: RecordId)
    requires layer == LayerAt(q, root, n) && next == LayerAt(q, root, n + 1)
    ensures Ending(minDepth, maxDepth, next, n, MetFrom(q, layer), found)
            == Partly(q, minDepth, maxDepth, layer, n, found, |layer.level|)
  {
    NextLayerIs(q, root, n, layer, next);
    AllPartly(q, minDepth, maxDepth, layer, n, found);
    EndDuring(minDepth, maxDepth, layer.seen, n, MetFrom(q, layer), found, next);
  }

  lemma EndIsPartly(q: Good, root: Descriptor, minDepth: nat, maxDepth: nat, n: nat)
    ensures var layer := LayerAt(q, root.rid, n);
            EndOf(q, root, minDepth, maxDepth, n)
            == Partly(q, minDepth, maxDepth, layer, n, FoundUpTo(q, root, minDepth, maxDepth, n), |layer.level|)
  {
    EndingIsPartly(q, minDepth, maxDepth, LayerAt(q, root.rid, n), n, FoundUpTo(q, root, minDepth, maxDepth, n),
                   LayerAt(q, root.rid, n + 1), root.rid);
  }

  /** The state when level `n` is about to be expanded. */
  function StartOf(q: Good, root: Descriptor, minDepth: nat, maxDepth: nat, n: nat): Bfs {
    if n == 0 then Initial(root, minDepth) else EndOf(q, root, minDepth, maxDepth, n - 1)
  }

  lemma LayerFits(q: Good, root: RecordId, n: nat)
    requires root in q.graph.vertices
    ensures Fits(q, LayerAt(q, root, n)) && NO_RECORD !in LayerAt(q, root, n).seen
    ensures n > 0 ==> root !in LayerAt(q, root, n).level
  {
    LevelsAreDistances(q, root, n);
    assert ReachableIn(StepsOf(q), root, root, 0);
  }

  /** If the first vertex met passes, it is the first of the next level. */
  lemma {:induction false} FirstPasses(met: seq<Neighbour>)
    requires met != [] && met[0].passes
    ensures PassingRids(met) != [] && PassingRids(met)[0] == met[0].rid
    decreases |met|
  {
    if |met| > 1 {
      FirstPasses(met[..|met| - 1]);
    }
  }

  /** The level counter is right once the first vertex of level `n` has left the queue. */
  lemma StartAdvance(q: Good, root: Descriptor, minDepth: nat, maxDepth: nat, n: nat, layer: Layer)
    requires root.rid in q.graph.vertices && layer == LayerAt(q, root.rid, n) && layer.level != []
    requires n > 0 ==> n < maxDepth && !Stalls(q, root.rid, maxDepth, n - 1)
    ensures var st := StartOf(q, root, minDepth, maxDepth, n);
            && st.queue == layer.level
            && Advance(root.rid, st)
               == Bfs(layer.seen, layer.level[1..], n, NO_RECORD, FoundUpTo(q, root, minDepth, maxDepth, n))
  {
    LayerFits(q, root.rid, n);
    if n > 0 {
      var met := MetFrom(q, LayerAt(q, root.rid, n - 1));
      assert met != [];
      FirstPasses(met);
      assert layer.level[0] in layer.level;
    }
  }

  /** The first round of a level. */
  lemma StartRound(q: Good, root: Descriptor, minDepth: nat, maxDepth: nat, n: nat, layer: Layer)
    requires root.rid in q.graph.vertices && layer == LayerAt(q, root.rid, n) && layer.level != []
    requires n > 0 ==> n < maxDepth && !Stalls(q, root.rid, maxDepth, n - 1)
    ensures Round(q, root.rid, minDepth, maxDepth, StartOf(q, root, minDepth, maxDepth, n))
            == Partly(q, minDepth, maxDepth, layer, n, FoundUpTo(q, root, minDepth, maxDepth, n), 1)
  {
    LayerFits(q, root.rid, n);
    StartAdvance(q, root, minDepth, maxDepth, n, layer);
    FirstRound(q, root.rid, minDepth, maxDepth, layer, n, FoundUpTo(q, root, minDepth, maxDepth, n),
               StartOf(q, root, minDepth, maxDepth, n));
  }

  lemma FirstRound(q: Good, root: RecordId, minDepth: nat, maxDepth: nat, layer: Layer, n: nat, found: seq<Descriptor>,
                   st: Bfs)
    requires Fits(q, layer) && NO_RECORD !in layer.seen && layer.level != [] && st.queue == layer.level
    requires Advance(root, st) == Bfs(layer.seen, layer.level[1..], n, NO_RECORD, found)
    ensures Round(q, root, minDepth, maxDepth, st) == Partly(q, minDepth, maxDepth, layer, n, found, 1)
  {
    var zero := Bfs(layer.seen, layer.level, n, NO_RECORD, found);
    FirstInGraph(q, layer);
    SameRound(q, root, minDepth, maxDepth, st, zero);
    ZeroRound(q, root, minDepth, maxDepth, layer, n, found, zero);
  }

  lemma ZeroRound(q: Good, root: RecordId, minDepth: nat, maxDepth: nat, layer: Layer, n: nat, found: seq<Descriptor>,
                  zero: Bfs)
    requires Fits(q, layer) && layer.level != [] && zero == Bfs(layer.seen, layer.level, n, NO_RECORD, found)
    ensures Round(q, root, minDepth, maxDepth, zero) == Partly(q, minDepth, maxDepth, layer, n, found, 1)
  {
    PartlyZero(q, minDepth, maxDepth, layer, n, found);
    RoundPartly(q, root, minDepth, maxDepth, layer, n, found, 0);
  }

  lemma FirstInGraph(q: Good, layer: Layer)
    requires Fits(q, layer) && layer.level != []
    ensures layer.level[0] in q.graph.vertices && layer.level[0] != NO_RECORD
  {
    assert layer.level[0] in layer.level;
  }

  lemma PartlyZero(q: Good, minDepth: nat, maxDepth: nat, layer: Layer, n: nat, found: seq<Descriptor>)
    ensures Partly(q, minDepth, maxDepth, layer, n, found, 0) == Bfs(layer.seen, layer.level, n, NO_RECORD, found)
  {
    assert layer.level[..0] == [] && layer.level[0..] == layer.level;
  }

  lemma SameRound(q: Good, root: RecordId, minDepth: nat, maxDepth: nat, st: Bfs, zero: Bfs)
    requires st.queue == zero.queue != [] && st.queue[0] in q.graph.vertices
    requires Advance(root, st) == Advance(root, zero)
    ensures Round(q, root, minDepth, maxDepth, st) == Round(q, root, minDepth, maxDepth, zero)
  {
  }

  /** The search comes to the state. */
  ghost predicate Reached(q: Good, root: Descriptor, minDepth: nat, maxDepth: nat, st: Bfs) {
    exists n: nat :: After(q, root, minDepth, maxDepth, n) == st
  }

  lemma RoundReached(q: Good, root: Descriptor, minDepth: nat, maxDepth: nat, st: Bfs, next: Bfs)
    requires Reached(q, root, minDepth, maxDepth, st)
    requires Round(q, root.rid, minDepth, maxDepth, st) == next
    ensures Reached(q, root, minDepth, maxDepth, next)
  {
    var n: nat :| After(q, root, minDepth, maxDepth, n) == st;
    assert After(q, root, minDepth, maxDepth, n + 1) == next;
  }

  lemma {:induction false} RoundsReached(q: Good, root: Descriptor, minDepth: nat, maxDepth: nat, states: seq<Bfs>,
                                         i: nat)
    requires i < |states| && Reached(q, root, minDepth, maxDepth, states[0])
    requires forall k :: 0 <= k < |states| - 1 ==>
               Round(q, root.rid, minDepth, maxDepth, states[k]) == states[k + 1]
    ensures Reached(q, root, minDepth, maxDepth, states[i])
  {
    if i > 0 {
      RoundsReached(q, root, minDepth, maxDepth, states, i - 1);
      RoundReached(q, root, minDepth, maxDepth, states[i - 1], states[i]);
    }
  }

  /** The states from the second round of a level on. */
  function LevelStates(q: Good, minDepth: nat, maxDepth: nat, layer: Layer, n: nat, found: seq<Descriptor>)
    : (r: seq<Bfs>)
    ensures |r| == |layer.level|
    ensures forall i :: 0 <= i < |r| ==> r[i] == Partly(q, minDepth, maxDepth, layer, n, found, i + 1)
  {
    seq(|layer.level|, i requires 0 <= i < |layer.level| => Partly(q, minDepth, maxDepth, layer, n, found, i + 1))
  }

  lemma LevelStatesFollow(q: Good, root: RecordId, minDepth: nat, maxDepth: nat, layer: Layer, n: nat,
                          found: seq<Descriptor>, states: seq<Bfs>, k: nat)
    requires Fits(q, layer) && states == LevelStates(q, minDepth, maxDepth, layer, n, found)
    requires k < |states| - 1
    ensures Round(q, root, minDepth, maxDepth, states[k]) == states[k + 1]
  {
    RoundPartly(q, root, minDepth, maxDepth, layer, n, found, k + 1);
  }

  lemma LevelEnds(q: Good, root: Descriptor, minDepth: nat, maxDepth: nat, layer: Layer, n: nat,
                  found: seq<Descriptor>, first: Bfs, last: Bfs)
    requires Fits(q, layer) && layer.level != []
    requires first == Partly(q, minDepth, maxDepth, layer, n, found, 1)
    requires last == Partly(q, minDepth, maxDepth, layer, n, found, |layer.level|)
    requires Reached(q, root, minDepth, maxDepth, first)
    ensures Reached(q, root, minDepth, maxDepth, last)
  {
    var states := LevelStates(q, minDepth, maxDepth, layer, n, found);
    forall k | 0 <= k < |states| - 1 ensures Round(q, root.rid, minDepth, maxDepth, states[k]) == states[k + 1] {
      LevelStatesFollow(q, root.rid, minDepth, maxDepth, layer, n, found, states, k);
    }
    RoundsReached(q, root, minDepth, maxDepth, states, |states| - 1);
  }

  lemma LevelRounds(q: Good, root: Descriptor, minDepth: nat, maxDepth: nat, n: nat, layer: Layer)
    requires root.rid in q.graph.vertices && layer == LayerAt(q, root.rid, n) && layer.level != []
    requires n > 0 ==> n < maxDepth && !Stalls(q, root.rid, maxDepth, n - 1)
    requires Reached(q, root, minDepth, maxDepth, StartOf(q, root, minDepth, maxDepth, n))
    ensures Reached(q, root, minDepth, maxDepth, EndOf(q, root, minDepth, maxDepth, n))
  {
    var found := FoundUpTo(q, root, minDepth, maxDepth, n);
    var first := Partly(q, minDepth, maxDepth, layer, n, found, 1);
    StartRound(q, root, minDepth, maxDepth, n, layer);
    RoundReached(q, root, minDepth, maxDepth, StartOf(q, root, minDepth, maxDepth, n), first);
    LayerFits(q, root.rid, n);
    EndIsPartly(q, root, minDepth, maxDepth, n);
    LevelEnds(q, root, minDepth, maxDepth, layer, n, found, first, EndOf(q, root, minDepth, maxDepth, n));
  }

  /** Levels above a level that is not empty are not empty. */
  lemma LevelAbove(q: Good, root: RecordId, n: nat)
    requires LayerAt(q, root, n + 1).level != []
    ensures LayerAt(q, root, n).level != [] && MetFrom(q, LayerAt(q, root, n)) != []
  {
  }

  /** The search has not stalled before level `n`, and queues it. */
  ghost predicate Comes(q: Good, root: RecordId, maxDepth: nat, n: nat) {
    && LayerAt(q, root, n).level != [] && (n > 0 ==> n < maxDepth)
    && forall k: nat :: k < n ==> !Stalls(q, root, maxDepth, k)
  }

  lemma ComesBefore(q: Good, root: RecordId, maxDepth: nat, n: nat)
    requires Comes(q, root, maxDepth, n + 1)
    ensures Comes(q, root, maxDepth, n) && !Stalls(q, root, maxDepth, n)
  {
    LevelAbove(q, root, n);
  }

  /** As long as it has not stalled, the search comes to the end of every level that it queues. */
  lemma {:induction false} Arrives(q: Good, root: Descriptor, minDepth: nat, maxDepth: nat, n: nat)
    requires root.rid in q.graph.vertices && Comes(q, root.rid, maxDepth, n)
    ensures Reached(q, root, minDepth, maxDepth, EndOf(q, root, minDepth, maxDepth, n))
  {
    if n == 0 {
      FirstReached(q, root, minDepth, maxDepth);
    } else {
      var k: nat := n - 1;
      ComesBefore(q, root.rid, maxDepth, k);
      Arrives(q, root, minDepth, maxDepth, k);
      NextReached(q, root, minDepth, maxDepth, k);
    }
  }

  lemma NextReached(q: Good, root: Descriptor, minDepth: nat, maxDepth: nat, k: nat)
    requires root.rid in q.graph.vertices && Comes(q, root.rid, maxDepth, k + 1)
    requires Reached(q, root, minDepth, maxDepth, EndOf(q, root, minDepth, maxDepth, k))
    ensures Reached(q, root, minDepth, maxDepth, EndOf(q, root, minDepth, maxDepth, k + 1))
  {
    ComesBefore(q, root.rid, maxDepth, k);
    StartIsEnd(q, root, minDepth, maxDepth, k + 1);
    LevelRounds(q, root, minDepth, maxDepth, k + 1, LayerAt(q, root.rid, k + 1));
  }

  lemma FirstReached(q: Good, root: Descriptor, minDepth: nat, maxDepth: nat)
    requires root.rid in q.graph.vertices
    ensures Reached(q, root, minDepth, maxDepth, EndOf(q, root, minDepth, maxDepth, 0))
  {
    assert After(q, root, minDepth, maxDepth, 0) == StartOf(q, root, minDepth, maxDepth, 0);
    LevelRounds(q, root, minDepth, maxDepth, 0, LayerAt(q, root.rid, 0));
  }

  lemma StartIsEnd(q: Good, root: Descriptor, minDepth: nat, maxDepth: nat, n: nat)
    requires n > 0
    ensures StartOf(q, root, minDepth, maxDepth, n) == EndOf(q, root, minDepth, maxDepth, n - 1)
  {
  }

  // What the rounds report.

  lemma {:induction false} FoundMeans(q: Good, root: Descriptor, minDepth: nat, maxDepth: nat, n: nat, d: Descriptor)
    requires root.rid in q.graph.vertices && d.rid != root.rid
    ensures d in FoundUpTo(q, root, minDepth, maxDepth, n) <==>
              minDepth <= d.depth <= maxDepth && d.depth <= n && IsDistance(StepsOf(q), root.rid, d.rid, d.depth)
  {
    if n == 0 {
      NotAtRoot(StepsOf(q), root.rid, d.rid);
    } else {
      var at := IsDistance(StepsOf(q), root.rid, d.rid, d.depth);
      FoundMeans(q, root, minDepth, maxDepth, n - 1, d);
      LevelMeans(q, root.rid, n, d.rid);
      FoundStep(q, root, minDepth, maxDepth, n, d, at);
    }
  }

  lemma FoundStep(q: Good, root: Descriptor, minDepth: nat, maxDepth: nat, n: nat, d: Descriptor, at: bool)
    requires n > 0 && (d.depth == n ==> (d.rid in LayerAt(q, root.rid, n).level <==> at))
    requires d in FoundUpTo(q, root, minDepth, maxDepth, n - 1) <==>
               minDepth <= d.depth <= maxDepth && d.depth <= n - 1 && at
    ensures d in FoundUpTo(q, root, minDepth, maxDepth, n) <==> minDepth <= d.depth <= maxDepth && d.depth <= n && at
  {
    ReportAdds(minDepth, maxDepth, FoundUpTo(q, root, minDepth, maxDepth, n - 1), LayerAt(q, root.rid, n).level, n, d,
               at);
  }

  lemma ReportAdds(minDepth: nat, maxDepth: nat, found: seq<Descriptor>, level: seq<RecordId>, n: nat, d: Descriptor,
                   at: bool)
    requires n > 0 && (d in found <==> minDepth <= d.depth <= maxDepth && d.depth <= n - 1 && at)
    requires d.depth == n ==> (d.rid in level <==> at)
    ensures d in found + Report(minDepth, maxDepth, level, n) <==>
              minDepth <= d.depth <= maxDepth && d.depth <= n && at
  {
    ReportMeans(minDepth, maxDepth, level, n, d);
  }

  lemma NotAtRoot(steps: Relation, root: RecordId, v: RecordId)
    requires v != root
    ensures !IsDistance(steps, root, v, 0)
  {
  }

  lemma LevelMeans(q: Good, root: RecordId, n: nat, v: RecordId)
    requires root in q.graph.vertices
    ensures v in LayerAt(q, root, n).level <==> IsDistance(StepsOf(q), root, v, n)
  {
    LevelsAreDistances(q, root, n);
  }

  lemma ReportMeans(minDepth: nat, maxDepth: nat, vs: seq<RecordId>, n: nat, d: Descriptor)
    ensures d in Report(minDepth, maxDepth, vs, n) <==> minDepth <= n <= maxDepth && d.depth == n && d.rid in vs
  {
    if d.depth == n && d.rid in vs {
      var i :| 0 <= i < |vs| && vs[i] == d.rid;
      assert Described(vs, n)[i] == d;
    }
  }

  /** An empty level has nothing behind it. */
  lemma NothingBehind(q: Good, root: RecordId, n: nat, v: RecordId, k: nat)
    requires root in q.graph.vertices && LayerAt(q, root, n).level == []
    ensures IsDistance(StepsOf(q), root, v, k) ==> k < n
  {
    LevelsAreDistances(q, root, n);
    if IsDistance(StepsOf(q), root, v, k) && k >= n {
      var u := NearerExists(StepsOf(q), root, v, k, n);
    }
  }

  lemma NothingBeyond(q: Good, root: RecordId, maxDepth: nat, n: nat, v: RecordId, k: nat)
    requires root in q.graph.vertices && (n >= maxDepth || LayerAt(q, root, n + 1).level == [])
    ensures IsDistance(StepsOf(q), root, v, k) && k <= maxDepth ==> k <= n
  {
    if n < maxDepth {
      NothingBehind(q, root, n + 1, v, k);
    }
  }

  lemma FoundIsExactAt(q: Good, root: Descriptor, minDepth: nat, maxDepth: nat, n: nat, d: Descriptor)
    requires root.rid in q.graph.vertices && d.rid != root.rid
    requires IsDistance(StepsOf(q), root.rid, d.rid, d.depth) && d.depth <= maxDepth ==> d.depth <= n
    ensures d in FoundUpTo(q, root, minDepth, maxDepth, n) <==>
              minDepth <= d.depth <= maxDepth && IsDistance(StepsOf(q), root.rid, d.rid, d.depth)
  {
    FoundMeans(q, root, minDepth, maxDepth, n, d);
  }

  /** Reporting up to depth `n` is right if there is nothing to report beyond. */
  lemma FoundIsExact(q: Good, root: Descriptor, minDepth: nat, maxDepth: nat, n: nat)
    requires root.rid in q.graph.vertices && (n >= maxDepth || LayerAt(q, root.rid, n + 1).level == [])
    ensures ExactDepths(StepsOf(q), root.rid, minDepth, maxDepth, FoundUpTo(q, root, minDepth, maxDepth, n))
  {
    forall v, k: nat | v != root.rid
      ensures Descriptor(v, k) in FoundUpTo(q, root, minDepth, maxDepth, n) <==>
                minDepth <= k <= maxDepth && IsDistance(StepsOf(q), root.rid, v, k)
    {
      NothingBeyond(q, root.rid, maxDepth, n, v, k);
      FoundIsExactAt(q, root, minDepth, maxDepth, n, Descriptor(v, k));
    }
  }

  // Without a stall.

  /** Nothing is queued at the end of level `n`. */
  ghost predicate Last(q: Good, root: RecordId, maxDepth: nat, n: nat) {
    n + 1 >= maxDepth || LayerAt(q, root, n + 1).level == []
  }

  lemma LastIsExact(q: Good, root: Descriptor, minDepth: nat, maxDepth: nat, n: nat)
    requires root.rid in q.graph.vertices && Last(q, root.rid, maxDepth, n)
    ensures EndOf(q, root, minDepth, maxDepth, n).queue == []
    ensures ExactDepths(StepsOf(q), root.rid, minDepth, maxDepth, EndOf(q, root, minDepth, maxDepth, n).found)
  {
    MoreIsEmpty(q, root.rid, n + 1);
    FoundIsExact(q, root, minDepth, maxDepth, n + 1);
  }

  lemma MoreIsEmpty(q: Good, root: RecordId, n: nat)
    ensures LayerAt(q, root, n).level == [] ==> LayerAt(q, root, n + 1).level == []
  {
  }

  /** The last level that the search expands if it does not stall. */
  lemma {:induction false} LastLevel(q: Good, root: RecordId, maxDepth: nat, n: nat) returns (last: nat)
    requires (forall k: nat :: !Stalls(q, root, maxDepth, k)) && Comes(q, root, maxDepth, n)
    ensures Comes(q, root, maxDepth, last) && Last(q, root, maxDepth, last)
    decreases maxDepth - n
  {
    if Last(q, root, maxDepth, n) {
      last := n;
    } else {
      last := LastLevel(q, root, maxDepth, n + 1);
    }
  }

  lemma ComesFirst(q: Good, root: RecordId, maxDepth: nat)
    ensures Comes(q, root, maxDepth, 0)
  {
  }

  lemma NoStallIsExact(q: Good, root: Descriptor, minDepth: nat, maxDepth: nat, found: seq<Descriptor>)
    requires root.rid in q.graph.vertices && IsAnswer(q, root, minDepth, maxDepth, found)
    requires forall n: nat :: !Stalls(q, root.rid, maxDepth, n)
    ensures ExactDepths(StepsOf(q), root.rid, minDepth, maxDepth, found)
  {
    ComesFirst(q, root.rid, maxDepth);
    var last := LastLevel(q, root.rid, maxDepth, 0);
    Arrives(q, root, minDepth, maxDepth, last);
    LastIsExact(q, root, minDepth, maxDepth, last);
    AnswerAtEnd(q, root, minDepth, maxDepth, EndOf(q, root, minDepth, maxDepth, last), found);
  }

  lemma AnswerAtEnd(q: Good, root: Descriptor, minDepth: nat, maxDepth: nat, st: Bfs, found: seq<Descriptor>)
    requires IsAnswer(q, root, minDepth, maxDepth, found)
    requires Reached(q, root, minDepth, maxDepth, st) && st.queue == []
    ensures found == st.found
  {
    var n: nat :| After(q, root, minDepth, maxDepth, n) == st;
    AnswerIs(q, root, minDepth, maxDepth, n, found);
  }

  // After a stall.

  /** The marker is a visited vertex that is not in the queue, so it will never come by. */
  ghost predicate MarkerLost(st: Bfs) {
    st.marker != NO_RECORD && st.marker in st.visited && st.marker !in st.queue
  }

  lemma StallLosesMarker(q: Good, root: Descriptor, minDepth: nat, maxDepth: nat, n: nat)
    requires root.rid in q.graph.vertices && Stalls(q, root.rid, maxDepth, n)
    ensures MarkerLost(EndOf(q, root, minDepth, maxDepth, n))
  {
    var layer := LayerAt(q, root.rid, n);
    LayerFits(q, root.rid, n);
    NextLayerIs(q, root.rid, n, layer, LayerAt(q, root.rid, n + 1));
    FirstIsRejected(q, layer, MetFrom(q, layer));
  }

  lemma FirstIsRejected(q: Good, layer: Layer, met: seq<Neighbour>)
    requires Fits(q, layer) && met == MetFrom(q, layer) && met != [] && !met[0].passes
    ensures met[0].rid != NO_RECORD && met[0].rid in Rids(met) && met[0].rid !in PassingRids(met)
  {
    var first, next := met[0], AllNext(q, layer.level);
    FirstMetIs(layer.seen, next);
    assert first in met;
    NextIsAcross(q, layer.level, first);
    if Neighbour(first.rid, true) in met {
      NextIsAcross(q, layer.level, Neighbour(first.rid, true));
    }
  }

  /** From `st` on nothing is forgotten, and what is new in `after` is reported one step from the level of `st`. */
  ghost predicate Later(minDepth: nat, st: Bfs, after: Bfs) {
    && MarkerLost(after) && after.level == st.level && st.visited <= after.visited
    && (forall d :: d in st.found ==> d in after.found)
    && (forall d :: d in after.found && d !in st.found ==>
          d.rid !in st.visited && d.depth == st.level + 1 && minDepth <= d.depth)
  }

  lemma LaterAdd(minDepth: nat, maxDepth: nat, st: Bfs, mid: Bfs, w: RecordId, passes: bool)
    requires Later(minDepth, st, mid)
    ensures Later(minDepth, st, AddUnique(minDepth, maxDepth, w, passes, mid))
  {
  }

  lemma LaterAdvance(minDepth: nat, root: RecordId, st: Bfs, mid: Bfs)
    requires Later(minDepth, st, mid) && mid.queue != []
    ensures Later(minDepth, st, Advance(root, mid))
  {
    assert mid.queue[0] in mid.queue;
  }

  lemma {:induction false} LaterMet(minDepth: nat, maxDepth: nat, st: Bfs, mid: Bfs, next: seq<Neighbour>)
    requires Later(minDepth, st, mid)
    ensures Later(minDepth, st, Met(minDepth, maxDepth, next, mid))
  {
    if next != [] {
      var rest, last := next[..|next| - 1], next[|next| - 1];
      LaterMet(minDepth, maxDepth, st, mid, rest);
      LaterAdd(minDepth, maxDepth, st, Met(minDepth, maxDepth, rest, mid), last.rid, last.passes);
    }
  }

  lemma LaterRound(q: Good, root: RecordId, minDepth: nat, maxDepth: nat, st: Bfs, mid: Bfs)
    requires Later(minDepth, st, mid)
    ensures Later(minDepth, st, Round(q, root, minDepth, maxDepth, mid))
  {
    if mid.queue != [] && mid.queue[0] in q.graph.vertices {
      LaterAdvance(minDepth, root, st, mid);
      LaterMet(minDepth, maxDepth, st, Advance(root, mid), NeighboursOf(q, mid.queue[0]));
    }
  }

  /** A lost marker stays lost: the level never moves again, and whatever is new is reported at the same depth. */
  lemma {:induction false} LostForGood(q: Good, root: Descriptor, minDepth: nat, maxDepth: nat, n: nat, m: nat)
    requires n <= m && MarkerLost(After(q, root, minDepth, maxDepth, n))
    ensures Later(minDepth, After(q, root, minDepth, maxDepth, n), After(q, root, minDepth, maxDepth, m))
    decreases m
  {
    if n < m {
      LostForGood(q, root, minDepth, maxDepth, n, m - 1);
      LaterRound(q, root.rid, minDepth, maxDepth, After(q, root, minDepth, maxDepth, n),
                 After(q, root, minDepth, maxDepth, m - 1));
    }
  }

  /** The answer, seen from a state in which the marker is lost. */
  lemma AnswerLater(q: Good, root: Descriptor, minDepth: nat, maxDepth: nat, st: Bfs, found: seq<Descriptor>)
    returns (fin: Bfs)
    requires root.rid in q.graph.vertices && IsAnswer(q, root, minDepth, maxDepth, found)
    requires Reached(q, root, minDepth, maxDepth, st) && MarkerLost(st)
    ensures fin.found == found && Later(minDepth, st, fin) && SoundIn(q, root, minDepth, fin)
  {
    var n: nat :| After(q, root, minDepth, maxDepth, n) == st;
    var m: nat :|
      After(q, root, minDepth, maxDepth, m).queue == [] && After(q, root, minDepth, maxDepth, m).found == found;
    var k := if n <= m then m else n;
    NothingMore(q, root, minDepth, maxDepth, m, k);
    LostForGood(q, root, minDepth, maxDepth, n, k);
    AfterSound(q, root, minDepth, maxDepth, k);
    fin := After(q, root, minDepth, maxDepth, k);
  }

  // With a stall at level `n`.

  /** `fin` is the state at the end of a search that has stalled at level `n`. */
  ghost predicate Stalled(q: Good, root: Descriptor, minDepth: nat, maxDepth: nat, n: nat, fin: Bfs) {
    SoundIn(q, root, minDepth, fin) && Later(minDepth, EndOf(q, root, minDepth, maxDepth, n), fin)
  }

  lemma StallEnds(q: Good, root: Descriptor, minDepth: nat, maxDepth: nat, n: nat, found: seq<Descriptor>)
    returns (fin: Bfs)
    requires root.rid in q.graph.vertices && IsAnswer(q, root, minDepth, maxDepth, found)
    requires StallsFirst(q, root.rid, maxDepth, n)
    ensures fin.found == found && Stalled(q, root, minDepth, maxDepth, n, fin)
  {
    StallComes(q, root.rid, maxDepth, n);
    Arrives(q, root, minDepth, maxDepth, n);
    StallLosesMarker(q, root, minDepth, maxDepth, n);
    fin := AnswerLater(q, root, minDepth, maxDepth, EndOf(q, root, minDepth, maxDepth, n), found);
  }

  lemma StallComes(q: Good, root: RecordId, maxDepth: nat, n: nat)
    requires StallsFirst(q, root, maxDepth, n)
    ensures Comes(q, root, maxDepth, n)
  {
  }

  lemma EndIs(q: Good, root: Descriptor, minDepth: nat, maxDepth: nat, n: nat, end: Bfs)
    requires end == EndOf(q, root, minDepth, maxDepth, n)
    ensures end.found == FoundUpTo(q, root, minDepth, maxDepth, n + 1) && end.level == n
    ensures end.visited == LayerAt(q, root.rid, n + 1).seen
  {
  }

  /** Nothing is reported deeper than one step from the level of the stall. */
  lemma NothingDeeper(q: Good, root: Descriptor, minDepth: nat, maxDepth: nat, n: nat, fin: Bfs, d: Descriptor)
    requires root.rid in q.graph.vertices && Stalled(q, root, minDepth, maxDepth, n, fin) && d.rid != root.rid
    requires d in fin.found
    ensures minDepth <= d.depth <= n + 1
  {
    EndIs(q, root, minDepth, maxDepth, n, EndOf(q, root, minDepth, maxDepth, n));
    FoundMeans(q, root, minDepth, maxDepth, n + 1, d);
  }

  lemma StallNotExact(q: Good, root: Descriptor, minDepth: nat, maxDepth: nat, n: nat, fin: Bfs, t: nat)
    requires root.rid in q.graph.vertices && Stalled(q, root, minDepth, maxDepth, n, fin)
    requires n + 2 <= t <= maxDepth && minDepth <= t && LayerAt(q, root.rid, t).level != []
    ensures !ExactDepths(StepsOf(q), root.rid, minDepth, maxDepth, fin.found)
  {
    var v := LayerAt(q, root.rid, t).level[0];
    LevelMeans(q, root.rid, t, v);
    LayerFits(q, root.rid, t);
    if Descriptor(v, t) in fin.found {
      NothingDeeper(q, root, minDepth, maxDepth, n, fin, Descriptor(v, t));
    }
  }

  /** If all vertices are at most one step from the level of the stall, all have been met by then. */
  lemma NothingNew(q: Good, root: Descriptor, minDepth: nat, maxDepth: nat, n: nat, fin: Bfs, d: Descriptor)
    requires root.rid in q.graph.vertices && Stalled(q, root, minDepth, maxDepth, n, fin)
    requires LayerAt(q, root.rid, n + 2).level == [] && d in fin.found
    ensures d in FoundUpTo(q, root, minDepth, maxDepth, n + 1)
  {
    EndIs(q, root, minDepth, maxDepth, n, EndOf(q, root, minDepth, maxDepth, n));
    var k := DistanceExists(StepsOf(q), root.rid, d.rid);
    NothingBehind(q, root.rid, n + 2, d.rid, k);
    LevelsAreDistances(q, root.rid, n + 1);
  }

  /** What is reachable has a distance. */
  lemma DistanceExists(steps: Relation, root: RecordId, v: RecordId) returns (k: nat)
    requires Reachable(steps, root, v)
    ensures IsDistance(steps, root, v, k)
  {
    var n: nat :| ReachableIn(steps, root, v, n);
    k := LeastSteps(steps, root, v, n);
  }

  lemma {:induction false} LeastSteps(steps: Relation, root: RecordId, v: RecordId, n: nat) returns (k: nat)
    requires ReachableIn(steps, root, v, n)
    ensures IsDistance(steps, root, v, k)
    decreases n
  {
    if m: nat :| m < n && ReachableIn(steps, root, v, m) {
      k := LeastSteps(steps, root, v, m);
    } else {
      k := n;
    }
  }

  lemma SameFound(steps: Relation, root: RecordId, minDepth: nat, maxDepth: nat, a: seq<Descriptor>, b: seq<Descriptor>)
    requires ExactDepths(steps, root, minDepth, maxDepth, a) && forall d :: d in a <==> d in b
    ensures ExactDepths(steps, root, minDepth, maxDepth, b)
  {
  }

  /** A stall does no harm if nothing is farther than one step from its level. */
  lemma StallAtEnd(q: Good, root: Descriptor, minDepth: nat, maxDepth: nat, n: nat, fin: Bfs)
    requires root.rid in q.graph.vertices && Stalled(q, root, minDepth, maxDepth, n, fin)
    requires LayerAt(q, root.rid, n + 2).level == []
    ensures ExactDepths(StepsOf(q), root.rid, minDepth, maxDepth, fin.found)
  {
    var found := FoundUpTo(q, root, minDepth, maxDepth, n + 1);
    FoundIsExact(q, root, minDepth, maxDepth, n + 1);
    EndIs(q, root, minDepth, maxDepth, n, EndOf(q, root, minDepth, maxDepth, n));
    forall d ensures d in found <==> d in fin.found {
      if d in fin.found {
        NothingNew(q, root, minDepth, maxDepth, n, fin, d);
      }
    }
    SameFound(StepsOf(q), root.rid, minDepth, maxDepth, found, fin.found);
  }

  /** Nor does it if nothing is as far as asked for. */
  lemma StallOutside(q: Good, root: Descriptor, minDepth: nat, maxDepth: nat, n: nat, fin: Bfs)
    requires root.rid in q.graph.vertices && Stalled(q, root, minDepth, maxDepth, n, fin)
    requires minDepth > n + 1 && (minDepth > maxDepth || LayerAt(q, root.rid, minDepth).level == [])
    ensures ExactDepths(StepsOf(q), root.rid, minDepth, maxDepth, fin.found)
  {
    forall v, k: nat | v != root.rid
      ensures Descriptor(v, k) in fin.found <==> minDepth <= k <= maxDepth && IsDistance(StepsOf(q), root.rid, v, k)
    {
      if Descriptor(v, k) in fin.found {
        NothingDeeper(q, root, minDepth, maxDepth, n, fin, Descriptor(v, k));
      }
      if minDepth <= maxDepth {
        NothingBehind(q, root.rid, minDepth, v, k);
      }
    }
  }

  lemma StallExactIff(q: Good, root: Descriptor, minDepth: nat, maxDepth: nat, n: nat, t: nat, found: seq<Descriptor>)
    requires root.rid in q.graph.vertices && IsAnswer(q, root, minDepth, maxDepth, found)
    requires StallsFirst(q, root.rid, maxDepth, n) && t == FirstAsked(minDepth, n)
    ensures ExactDepths(StepsOf(q), root.rid, minDepth, maxDepth, found) <==>
              t > maxDepth || LayerAt(q, root.rid, t).level == []
  {
    var fin := StallEnds(q, root, minDepth, maxDepth, n, found);
    if t <= maxDepth && LayerAt(q, root.rid, t).level != [] {
      StallNotExact(q, root, minDepth, maxDepth, n, fin, t);
    } else if minDepth > n + 1 {
      StallOutside(q, root, minDepth, maxDepth, n, fin);
    } else {
      StallAtEnd(q, root, minDepth, maxDepth, n, fin);
    }
  }

  /** The first stall, if there is one. */
  lemma {:induction false} FirstStall(q: Good, root: RecordId, maxDepth: nat, n: nat) returns (first: nat)
    requires Stalls(q, root, maxDepth, n)
    ensures StallsFirst(q, root, maxDepth, first)
    decreases n
  {
    if k: nat :| k < n && Stalls(q, root, maxDepth, k) {
      first := FirstStall(q, root, maxDepth, k);
    } else {
      first := n;
    }
  }

  /**
   The main result: the depths reported are the distances, and nothing in range is missing, exactly if the search does
   not stall, or stalls first where there is nothing left that it is asked for.
   */
  lemma ExactIff(q: Good, root: Descriptor, minDepth: nat, maxDepth: nat, found: seq<Descriptor>)
    requires root.rid in q.graph.vertices && IsAnswer(q, root, minDepth, maxDepth, found)
    ensures ExactDepths(StepsOf(q), root.rid, minDepth, maxDepth, found) <==> NoHarm(q, root.rid, minDepth, maxDepth)
  {
    if n: nat :| Stalls(q, root.rid, maxDepth, n) {
      var first := FirstStall(q, root.rid, maxDepth, n);
      StallExactIff(q, root, minDepth, maxDepth, first, FirstAsked(minDepth, first), found);
      OneFirstStall(q, root.rid, minDepth, maxDepth, first);
    } else {
      NoStallIsExact(q, root, minDepth, maxDepth, found);
    }
  }

  lemma OneFirstStall(q: Good, root: RecordId, minDepth: nat, maxDepth: nat, n: nat)
    requires StallsFirst(q, root, maxDepth, n)
    ensures var t := FirstAsked(minDepth, n);
            NoHarm(q, root, minDepth, maxDepth) <==> t > maxDepth || LayerAt(q, root, t).level == []
  {
    forall m: nat | StallsFirst(q, root, maxDepth, m) ensures m == n {
    }
  }

  // A simple case.

  /** No allowed edge out of a vertex the search reaches leads into a vertex that the filter rejects. */
  ghost predicate NeverRejects(q: Good, root: RecordId) {
    forall v, w :: Reachable(StepsOf(q), root, v) && q.Hop(v, w) ==> q.filter.AdmitsVertex(w)
  }

  lemma NeverRejectsNoStall(q: Good, root: RecordId, maxDepth: nat, n: nat)
    requires root in q.graph.vertices && NeverRejects(q, root)
    ensures !Stalls(q, root, maxDepth, n)
  {
    var layer := LayerAt(q, root, n);
    var met := MetFrom(q, layer);
    LevelsAreDistances(q, root, n);
    if met != [] {
      FirstMetIs(layer.seen, AllNext(q, layer.level));
      assert met[0] in met;
      NextIsAcross(q, layer.level, met[0]);
      var u :| u in layer.level && q.Hop(u, met[0].rid);
      assert Reachable(StepsOf(q), root, u);
    }
  }

  lemma NeverRejectsNoHarm(q: Good, root: RecordId, minDepth: nat, maxDepth: nat)
    requires root in q.graph.vertices && NeverRejects(q, root)
    ensures NoHarm(q, root, minDepth, maxDepth)
  {
    forall n: nat ensures !Stalls(q, root, maxDepth, n) {
      NeverRejectsNoStall(q, root, maxDepth, n);
    }
  }
}
