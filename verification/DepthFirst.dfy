/**
 `depthFirstSearchRdesc`: depth-first search on a stack of levels.

 `stack[k]` holds the vertices still to be tried at depth `k`, the next one last. The vertex filter only decides what is
 reported, not where the search goes, and never applies to the root.
 */
module DepthFirst {
  import opened Common
  import opened GraphView
  import opened Levels
  import opened BreadthRounds
  import opened DepthTree

  datatype Dfs = Dfs(visited: set<RecordId>, stack: seq<seq<RecordId>>, level: nat, found: seq<Descriptor>)

  // What is left to do.

  function Backwards(vs: seq<RecordId>): (r: seq<RecordId>)
    ensures |r| == |vs| && forall i :: 0 <= i < |vs| ==> r[i] == vs[|vs| - 1 - i]
  {
    seq(|vs|, i requires 0 <= i < |vs| => vs[|vs| - 1 - i])
  }

  /** Everything on the levels up to `k`, the deepest first. */
  function Drain(q: Good, maxDepth: nat, stack: seq<seq<RecordId>>, k: nat, visits: seq<Descriptor>): seq<Descriptor>
    requires k < |stack| && k <= maxDepth
    decreases k
  {
    var now := VisitAll(q, maxDepth, Backwards(stack[k]), k, visits);
    if k == 0 then now else Drain(q, maxDepth, stack, k - 1, now)
  }

  /** Only the levels up to `k` matter. */
  lemma {:induction false} DrainSame(q: Good, maxDepth: nat, a: seq<seq<RecordId>>, b: seq<seq<RecordId>>, k: nat,
                                     visits: seq<Descriptor>)
    requires k < |a| && k < |b| && k <= maxDepth && a[..k + 1] == b[..k + 1]
    ensures Drain(q, maxDepth, a, k, visits) == Drain(q, maxDepth, b, k, visits)
    decreases k
  {
    assert a[k] == a[..k + 1][k] == b[k];
    if k > 0 {
      assert a[..k] == a[..k + 1][..k] == b[..k];
      DrainSame(q, maxDepth, a, b, k - 1, VisitAll(q, maxDepth, Backwards(a[k]), k, visits));
    }
  }

  /** An empty level is nothing to do. */
  lemma DrainEmpty(q: Good, maxDepth: nat, stack: seq<seq<RecordId>>, k: nat, visits: seq<Descriptor>)
    requires k < |stack| && k <= maxDepth && stack[k] == []
    ensures Drain(q, maxDepth, stack, k, visits) == if k == 0 then visits else Drain(q, maxDepth, stack, k - 1, visits)
  {
    assert Backwards(stack[k]) == [];
  }

  /** Taking the last vertex off a level. */
  function Popped(stack: seq<seq<RecordId>>, k: nat): (r: seq<seq<RecordId>>)
    requires k < |stack| && stack[k] != []
    ensures |r| == |stack|
  {
    stack[k := stack[k][..|stack[k]| - 1]]
  }

  /** The vertex taken off is visited first. */
  lemma DrainPopped(q: Good, maxDepth: nat, stack: seq<seq<RecordId>>, k: nat, visits: seq<Descriptor>, v: RecordId)
    requires k < |stack| && k <= maxDepth && stack[k] != [] && v == stack[k][|stack[k]| - 1]
    ensures Drain(q, maxDepth, stack, k, visits) ==
              Drain(q, maxDepth, Popped(stack, k), k, Visit(q, maxDepth, v, k, visits))
  {
    var all, rest := Backwards(stack[k]), Backwards(stack[k][..|stack[k]| - 1]);
    assert all == [v] + rest && all[1..] == rest;
    if k > 0 {
      var now := VisitAll(q, maxDepth, all, k, visits);
      DrainSame(q, maxDepth, stack, Popped(stack, k), k - 1, now);
    }
  }

  /** Pushing the candidates of a vertex one level deeper; that level was empty. */
  function Pushed(stack: seq<seq<RecordId>>, k: nat, candidates: seq<RecordId>): (r: seq<seq<RecordId>>)
    requires 0 < k <= |stack| && (k < |stack| ==> stack[k] == [])
    ensures k < |r|
  {
    if k == |stack| then stack + [candidates] else stack[k := stack[k] + candidates]
  }

  /** The candidates are visited before everything else. */
  lemma DrainPushed(q: Good, maxDepth: nat, stack: seq<seq<RecordId>>, k: nat, candidates: seq<RecordId>,
                    visits: seq<Descriptor>)
    requires 0 < k <= |stack| && k <= maxDepth && (k < |stack| ==> stack[k] == [])
    ensures Drain(q, maxDepth, Pushed(stack, k, candidates), k, visits) ==
              Drain(q, maxDepth, stack, k - 1, VisitAll(q, maxDepth, Backwards(candidates), k, visits))
  {
    var pushed := Pushed(stack, k, candidates);
    assert pushed[k] == candidates;
    assert pushed[..k] == stack[..k];
    DrainSame(q, maxDepth, pushed, stack, k - 1, VisitAll(q, maxDepth, Backwards(candidates), k, visits));
  }

  // The candidates.

  /** Those not in `seen`, in order. */
  function Unseen(vs: seq<RecordId>, seen: set<RecordId>): seq<RecordId> {
    if vs == [] then [] else (if vs[0] in seen then [] else [vs[0]]) + Unseen(vs[1..], seen)
  }

  /** Vertices that have been visited may be left out. */
  lemma {:induction false} UnseenSuffice(q: Good, maxDepth: nat, vs: seq<RecordId>, seen: set<RecordId>, level: nat,
                                         visits: seq<Descriptor>)
    requires level <= maxDepth && seen <= Seen(visits)
    ensures VisitAll(q, maxDepth, Unseen(vs, seen), level, visits) == VisitAll(q, maxDepth, vs, level, visits)
    decreases |vs|
  {
    if vs != [] {
      var rest := Unseen(vs[1..], seen);
      if vs[0] in seen {
        assert Unseen(vs, seen) == rest;
        UnseenSuffice(q, maxDepth, vs[1..], seen, level, visits);
      } else {
        var one := Visit(q, maxDepth, vs[0], level, visits);
        assert Unseen(vs, seen) == [vs[0]] + rest && ([vs[0]] + rest)[1..] == rest;
        VisitGrows(q, maxDepth, vs[0], level, visits);
        UnseenSuffice(q, maxDepth, vs[1..], seen, level, one);
      }
    }
  }

  lemma {:induction false} VisitGrows(q: Good, maxDepth: nat, v: RecordId, level: nat, visits: seq<Descriptor>)
    requires level <= maxDepth
    ensures Seen(visits) <= Seen(Visit(q, maxDepth, v, level, visits))
    decreases maxDepth - level, 0, 0
  {
    SeenGrows(visits, visits + [Descriptor(v, level)]);
    if v !in Seen(visits) && level < maxDepth && v in q.graph.vertices {
      VisitAllGrows(q, maxDepth, Around(q, v), level + 1, visits + [Descriptor(v, level)]);
    }
  }

  lemma {:induction false} VisitAllGrows(q: Good, maxDepth: nat, vs: seq<RecordId>, level: nat, visits: seq<Descriptor>)
    requires level <= maxDepth
    ensures Seen(visits) <= Seen(VisitAll(q, maxDepth, vs, level, visits))
    decreases maxDepth - level, 1, |vs|
  {
    if vs != [] {
      VisitGrows(q, maxDepth, vs[0], level, visits);
      VisitAllGrows(q, maxDepth, vs[1..], level, Visit(q, maxDepth, vs[0], level, visits));
    }
  }

  lemma UnseenMore(vs: seq<RecordId>, i: nat, seen: set<RecordId>)
    requires i < |vs|
    ensures Unseen(vs[i..], seen) == (if vs[i] in seen then [] else [vs[i]]) + Unseen(vs[i + 1..], seen)
  {
    assert vs[i..][1..] == vs[i + 1..];
  }

  lemma BackwardsMore(v: RecordId, vs: seq<RecordId>)
    ensures Backwards([v] + vs) == Backwards(vs) + [v]
  {
  }

  /** The unvisited neighbours, last edge first. */
  method Candidates(q: Good, v: RecordId, visited: set<RecordId>) returns (r: seq<RecordId>)
    requires v in q.graph.vertices
    ensures r == Backwards(Unseen(Around(q, v), visited))
  {
    var next := Neighbours(q, v);
    ghost var around := Around(q, v);
    r := [];
    var i := |next|;
    assert around[i..] == [];
    while i > 0
      invariant 0 <= i <= |next| == |around|
      invariant r == Backwards(Unseen(around[i..], visited))
    {
      i := i - 1;
      UnseenMore(around, i, visited);
      if next[i].rid !in visited {
        BackwardsMore(next[i].rid, Unseen(around[i + 1..], visited));
        r := r + [next[i].rid];
      }
    }
    assert around[0..] == around;
  }

  // The loop.

  /** The level is a valid index, everything deeper is empty, and the level is exhausted only at the bottom. */
  ghost predicate Levelled(st: Dfs) {
    && st.level < |st.stack| && (forall k :: st.level < k < |st.stack| ==> st.stack[k] == [])
    && (st.level > 0 ==> st.stack[st.level] != [])
  }

  /** `visits` is what has been visited, in order, and what is left to do completes it to all visits. */
  ghost predicate Searching(q: Good, root: RecordId, minDepth: nat, maxDepth: nat, st: Dfs, visits: seq<Descriptor>) {
    && st.level < |st.stack| && st.level <= maxDepth
    && (forall k :: st.level < k < |st.stack| ==> st.stack[k] == [])
    && st.visited == Seen(visits) && st.found == Selected(q, minDepth, visits)
    && Drain(q, maxDepth, st.stack, st.level, visits) == Visits(q, root, maxDepth)
  }

  /** Backing up over exhausted levels. */
  method BackUp(q: Good, ghost root: RecordId, ghost minDepth: nat, maxDepth: nat, st: Dfs,
                ghost visits: seq<Descriptor>)
    returns (r: Dfs)
    requires Searching(q, root, minDepth, maxDepth, st, visits)
    ensures r == st.(level := r.level) && r.level <= st.level && Levelled(r)
    ensures Searching(q, root, minDepth, maxDepth, r, visits)
  {
    var level := st.level;
    while level > 0 && st.stack[level] == []
      invariant 0 <= level <= st.level
      invariant forall k :: level < k < |st.stack| ==> st.stack[k] == []
      invariant Drain(q, maxDepth, st.stack, level, visits) == Visits(q, root, maxDepth)
    {
      DrainEmpty(q, maxDepth, st.stack, level, visits);
      level := level - 1;
    }
    return st.(level := level);
  }

  /** What is reported of a vertex visited at the current level. */
  function Report(q: Good, minDepth: nat, v: RecordId, level: nat, found: seq<Descriptor>): seq<Descriptor> {
    if level >= minDepth && (level == 0 || q.filter.AdmitsVertex(v)) then found + [Descriptor(v, level)] else found
  }

  lemma ReportSelects(q: Good, minDepth: nat, visits: seq<Descriptor>, v: RecordId, level: nat)
    ensures Report(q, minDepth, v, level, Selected(q, minDepth, visits)) ==
              Selected(q, minDepth, visits + [Descriptor(v, level)])
    ensures Seen(visits + [Descriptor(v, level)]) == Seen(visits) + {v}
  {
    assert (visits + [Descriptor(v, level)])[..|visits|] == visits;
    assert Selected(q, minDepth, visits) + [] == Selected(q, minDepth, visits);
  }

  /** First visit of `v`, just taken off the current level: report it and descend. */
  method Visiting(q: Good, ghost root: RecordId, minDepth: nat, maxDepth: nat, st: Dfs, v: RecordId,
                  ghost visits: seq<Descriptor>)
    returns (r: Dfs, ghost now: seq<Descriptor>)
    requires Taking(q, root, minDepth, maxDepth, st, visits, v) && v !in st.visited
    ensures Searching(q, root, minDepth, maxDepth, r, now) && r.visited == st.visited + {v}
    ensures InGraph(q, r.stack)
  {
    var level := st.level;
    now := visits + [Descriptor(v, level)];
    ReportSelects(q, minDepth, visits, v, level);
    var found := Report(q, minDepth, v, level, st.found);
    if level >= maxDepth {
      return Dfs(st.visited + {v}, st.stack, level, found), now;
    }
    var candidates := Candidates(q, v, st.visited + {v});
    var deeper := level + 1;
    Descends(q, maxDepth, st.stack, v, level, deeper, candidates, visits, now);
    PushInGraph(q, st.stack, deeper, candidates, v, st.visited + {v});
    r := Dfs(st.visited + {v}, Pushed(st.stack, deeper, candidates), deeper, found);
  }

  lemma Descends(q: Good, maxDepth: nat, stack: seq<seq<RecordId>>, v: RecordId, level: nat, deeper: nat,
                 candidates: seq<RecordId>, visits: seq<Descriptor>, now: seq<Descriptor>)
    requires v in q.graph.vertices && v !in Seen(visits) && deeper == level + 1 <= maxDepth && level < |stack|
    requires (deeper < |stack| ==> stack[deeper] == []) && now == visits + [Descriptor(v, level)]
    requires candidates == Backwards(Unseen(Around(q, v), Seen(now)))
    ensures Drain(q, maxDepth, Pushed(stack, deeper, candidates), deeper, now) ==
              Drain(q, maxDepth, stack, level, Visit(q, maxDepth, v, level, visits))
  {
    DrainPushed(q, maxDepth, stack, deeper, candidates, now);
    BackAgain(Unseen(Around(q, v), Seen(now)));
    UnseenSuffice(q, maxDepth, Around(q, v), Seen(now), deeper, now);
    VisitIs(q, maxDepth, v, level, deeper, visits, now);
  }

  lemma BackAgain(vs: seq<RecordId>)
    ensures Backwards(Backwards(vs)) == vs
  {
  }

  lemma VisitIs(q: Good, maxDepth: nat, v: RecordId, level: nat, deeper: nat, visits: seq<Descriptor>,
                now: seq<Descriptor>)
    requires v in q.graph.vertices && v !in Seen(visits) && deeper == level + 1 <= maxDepth
    requires now == visits + [Descriptor(v, level)]
    ensures Visit(q, maxDepth, v, level, visits) == VisitAll(q, maxDepth, Around(q, v), deeper, now)
  {
  }

  // Termination.

  ghost predicate InGraph(q: Good, stack: seq<seq<RecordId>>) {
    forall k, i :: 0 <= k < |stack| && 0 <= i < |stack[k]| ==> stack[k][i] in q.graph.vertices
  }

  lemma {:induction false} UnseenInside(vs: seq<RecordId>, seen: set<RecordId>)
    ensures forall w :: w in Unseen(vs, seen) ==> w in vs
  {
    if vs != [] {
      UnseenInside(vs[1..], seen);
    }
  }

  lemma PushInGraph(q: Good, stack: seq<seq<RecordId>>, k: nat, candidates: seq<RecordId>, v: RecordId,
                    seen: set<RecordId>)
    requires InGraph(q, stack) && 0 < k <= |stack| && (k < |stack| ==> stack[k] == []) && v in q.graph.vertices
    requires candidates == Backwards(Unseen(Around(q, v), seen))
    ensures InGraph(q, Pushed(stack, k, candidates))
  {
    UnseenInside(Around(q, v), seen);
    forall i | 0 <= i < |candidates| ensures candidates[i] in q.graph.vertices {
      assert candidates[i] in Unseen(Around(q, v), seen);
      AroundIsHops(q, v, candidates[i]);
    }
  }

  ghost function Total(stack: seq<seq<RecordId>>): nat {
    if stack == [] then 0 else |stack[0]| + Total(stack[1..])
  }

  lemma {:induction false} TotalUpdate(stack: seq<seq<RecordId>>, k: nat, level: seq<RecordId>)
    requires k < |stack|
    ensures Total(stack[k := level]) == Total(stack) - |stack[k]| + |level|
  {
    if k == 0 {
      assert stack[0 := level][1..] == stack[1..];
    } else {
      assert stack[k := level][1..] == stack[1..][k - 1 := level];
      TotalUpdate(stack[1..], k - 1, level);
    }
  }

  lemma Unvisited(vertices: set<RecordId>, visited: set<RecordId>, v: RecordId)
    requires visited <= vertices && v in vertices && v !in visited
    ensures |visited| < |vertices| && |visited + {v}| == |visited| + 1
    ensures |vertices - (visited + {v})| < |vertices - visited|
  {
    assert vertices - visited == (vertices - (visited + {v})) + {v};
    assert vertices == visited + (vertices - visited);
  }

  /** After a vertex has been taken off, visiting it comes first. */
  ghost predicate Taking(q: Good, root: RecordId, minDepth: nat, maxDepth: nat, st: Dfs, visits: seq<Descriptor>,
                         v: RecordId) {
    && v in q.graph.vertices && st.level < |st.stack| && st.level <= maxDepth && InGraph(q, st.stack)
    && (forall k :: st.level < k < |st.stack| ==> st.stack[k] == [])
    && st.visited == Seen(visits) && st.found == Selected(q, minDepth, visits)
    && Drain(q, maxDepth, st.stack, st.level, Visit(q, maxDepth, v, st.level, visits)) == Visits(q, root, maxDepth)
  }

  lemma PopKeeps(q: Good, root: RecordId, minDepth: nat, maxDepth: nat, st: Dfs, visits: seq<Descriptor>, v: RecordId,
                 popped: Dfs)
    requires Searching(q, root, minDepth, maxDepth, st, visits) && st.stack[st.level] != [] && InGraph(q, st.stack)
    requires v == st.stack[st.level][|st.stack[st.level]| - 1]
    requires popped == st.(stack := Popped(st.stack, st.level))
    ensures Taking(q, root, minDepth, maxDepth, popped, visits, v) && Total(popped.stack) < Total(st.stack)
    ensures v in st.visited ==> Searching(q, root, minDepth, maxDepth, popped, visits)
  {
    var level := st.stack[st.level];
    DrainPopped(q, maxDepth, st.stack, st.level, visits, v);
    TotalUpdate(st.stack, st.level, level[..|level| - 1]);
  }

  /** One iteration of the search loop. */
  method Iterate(q: Good, ghost root: RecordId, minDepth: nat, maxDepth: nat, st: Dfs, ghost visits: seq<Descriptor>)
    returns (r: Dfs, ghost now: seq<Descriptor>)
    requires Searching(q, root, minDepth, maxDepth, st, visits) && st.stack[st.level] != []
    requires InGraph(q, st.stack) && st.visited <= q.graph.vertices
    ensures Searching(q, root, minDepth, maxDepth, r, now) && Levelled(r)
    ensures InGraph(q, r.stack) && r.visited <= q.graph.vertices
    ensures |q.graph.vertices - r.visited| < |q.graph.vertices - st.visited| ||
            (r.visited == st.visited && Total(r.stack) < Total(st.stack))
  {
    var v := st.stack[st.level][|st.stack[st.level]| - 1];
    var popped := st.(stack := Popped(st.stack, st.level));
    PopKeeps(q, root, minDepth, maxDepth, st, visits, v, popped);
    if v in st.visited {
      now := visits;
      r := BackUp(q, root, minDepth, maxDepth, popped, now);
    } else {
      Unvisited(q.graph.vertices, st.visited, v);
      var one;
      one, now := Visiting(q, root, minDepth, maxDepth, popped, v, visits);
      r := BackUp(q, root, minDepth, maxDepth, one, now);
    }
  }

  lemma Start(q: Good, root: RecordId, minDepth: nat, maxDepth: nat, st: Dfs)
    requires root in q.graph.vertices && st == Dfs({}, [[root]], 0, [])
    ensures Searching(q, root, minDepth, maxDepth, st, []) && Levelled(st) && InGraph(q, st.stack)
  {
    assert Backwards([root]) == [root] && [root][1..] == [];
    assert VisitAll(q, maxDepth, [root], 0, []) == VisitAll(q, maxDepth, [], 0, Visit(q, maxDepth, root, 0, []));
    assert Drain(q, maxDepth, st.stack, 0, []) == VisitAll(q, maxDepth, Backwards(st.stack[0]), 0, []);
  }

  method Explore(q: Good, root: RecordId, minDepth: nat, maxDepth: nat) returns (found: seq<Descriptor>)
    requires root in q.graph.vertices
    ensures found == Selected(q, minDepth, Visits(q, root, maxDepth))
  {
    var st := Dfs({}, [[root]], 0, []);
    ghost var visits: seq<Descriptor> := [];
    Start(q, root, minDepth, maxDepth, st);
    while st.stack[st.level] != []
      invariant Searching(q, root, minDepth, maxDepth, st, visits) && Levelled(st)
      invariant InGraph(q, st.stack) && st.visited <= q.graph.vertices
      decreases |q.graph.vertices - st.visited|, Total(st.stack)
    {
      st, visits := Iterate(q, root, minDepth, maxDepth, st, visits);
    }
    DrainEmpty(q, maxDepth, st.stack, st.level, visits);
    return st.found;
  }

  /** Whether `d` may be reported at all. */
  ghost predicate Reportable(q: Good, root: RecordId, minDepth: nat, maxDepth: nat, d: Descriptor) {
    && minDepth <= d.depth <= maxDepth
    && ReachableIn(HopsOf(q), root, d.rid, d.depth)
    && (d.depth > 0 ==> q.filter.AdmitsVertex(d.rid))
  }

  /** Every vertex that can be reached and passes the filter, and the root, is visited, and reported if deep enough. */
  ghost predicate NothingMissing(q: Good, root: RecordId, minDepth: nat, maxDepth: nat, found: seq<Descriptor>) {
    forall v :: Reachable(HopsOf(q), root, v) && (v == root || q.filter.AdmitsVertex(v)) ==>
      exists d :: d in Visits(q, root, maxDepth) && d.rid == v && (d.depth >= minDepth ==> d in found)
  }

  lemma ReportsVisits(q: Good, root: RecordId, minDepth: nat, maxDepth: nat, found: seq<Descriptor>)
    requires root in q.graph.vertices && found == Selected(q, minDepth, Visits(q, root, maxDepth))
    ensures Distinct(found) && forall d :: d in found ==> Reportable(q, root, minDepth, maxDepth, d)
    ensures maxDepth >= |q.graph.vertices| ==> NothingMissing(q, root, minDepth, maxDepth, found)
  {
    var visits := Visits(q, root, maxDepth);
    VisitsAre(q, root, maxDepth);
    SelectedOnce(q, minDepth, visits);
    forall d | d in found ensures Reportable(q, root, minDepth, maxDepth, d) {
      SelectedIs(q, minDepth, visits, d);
      var i :| 0 <= i < |visits| && visits[i] == d;
      assert Real(q, root, d.rid, d.depth);
    }
    if maxDepth >= |q.graph.vertices| {
      forall v | Reachable(HopsOf(q), root, v) && (v == root || q.filter.AdmitsVertex(v))
        ensures exists d :: d in visits && d.rid == v && (d.depth >= minDepth ==> d in found)
      {
        VisitIsReported(q, root, minDepth, maxDepth, found, v);
      }
    }
  }

  lemma VisitIsReported(q: Good, root: RecordId, minDepth: nat, maxDepth: nat, found: seq<Descriptor>, v: RecordId)
    requires root in q.graph.vertices && found == Selected(q, minDepth, Visits(q, root, maxDepth))
    requires maxDepth >= |q.graph.vertices| && Reachable(HopsOf(q), root, v) && (v == root || q.filter.AdmitsVertex(v))
    ensures exists d :: d in Visits(q, root, maxDepth) && d.rid == v && (d.depth >= minDepth ==> d in found)
  {
    var visits := Visits(q, root, maxDepth);
    VisitsAre(q, root, maxDepth);
    VisitsAll(q, root, maxDepth, v);
    var d :| d in visits && d.rid == v;
    if v == root {
      assert visits[0] in visits;
      SelectedIs(q, minDepth, visits, visits[0]);
    } else {
      SelectedIs(q, minDepth, visits, d);
    }
  }

  /**
   The main result. What is reported is what the recursion visits, in its order and at its levels, less what is above
   the lower bound or rejected by the filter. So every vertex is reported once, at a depth that is the length of a walk
   to it, and with a depth limit of at least the number of vertices nothing that can be reached is left out.
   */
  method Search(q: Good, root: Descriptor, minDepth: nat, maxDepth: nat) returns (r: Result<seq<Descriptor>>)
    ensures q.graph.Find(root.rid) == Absent <==> r == Err(NoVertex)
    ensures q.graph.Find(root.rid) == OnDisk ==> r == Ok(if minDepth == 0 then [root] else [])
    ensures q.graph.Find(root.rid) == InMemory ==>
              r.Ok? && r.value == Selected(q, minDepth, Visits(q, root.rid, maxDepth))
    ensures q.graph.Find(root.rid) == InMemory ==>
              r.Ok? && r.value == DeepEnough(minDepth, Selected(q, 0, Visits(q, root.rid, maxDepth)))
    ensures q.graph.Find(root.rid) == InMemory ==>
              r.Ok? && Distinct(r.value) && forall d :: d in r.value ==> Reportable(q, root.rid, minDepth, maxDepth, d)
    ensures q.graph.Find(root.rid) == InMemory && maxDepth >= |q.graph.vertices| ==>
              r.Ok? && NothingMissing(q, root.rid, minDepth, maxDepth, r.value)
  {
    if q.graph.Find(root.rid) == Absent {
      return Err(NoVertex);
    } else if q.graph.Find(root.rid) == OnDisk {
      return Ok(if minDepth == 0 then [root] else []);
    }
    var found := Explore(q, root.rid, minDepth, maxDepth);
    BoundOnlyLeavesOut(q, minDepth, Visits(q, root.rid, maxDepth));
    ReportsVisits(q, root.rid, minDepth, maxDepth, found);
    return Ok(found);
  }
}
