/**
 Conditions on the properties of a record, and their evaluation through indexes with negation pushed to the leaves.
 */
module Conditions {
  import opened IndexTable
  import opened SignedIndex

  datatype Comparator =
    | Equal | LessEqual | Less | GreaterEqual | Greater | BetweenNoBound | Between | BetweenNoUpper | BetweenNoLower

  /** One comparison: with `value`, or with the two bounds of a `Between`. */
  datatype Condition =
    Condition(property: string, comparator: Comparator, value: Int64, lower: Int64, upper: Int64, negative: bool)
  {
    /** The range that the comparator stands for, negation aside. */
    function Range(): Range {
      match comparator
      case Equal => At(value)
      case LessEqual => UpTo(value, true)
      case Less => UpTo(value, false)
      case GreaterEqual => From(value, true)
      case Greater => From(value, false)
      case BetweenNoBound => Among(lower, upper, false, false)
      case Between => Among(lower, upper, true, true)
      case BetweenNoUpper => Among(lower, upper, true, false)
      case BetweenNoLower => Among(lower, upper, false, true)
    }

    predicate Accepts(v: Int64) {
      Range().Holds(v) != negative
    }
  }

  datatype Operator = And | Or

  datatype Node = Leaf(condition: Condition) | Composite(left: Node, right: Node, op: Operator, negative: bool)

  /** The properties that are not null. */
  type Record = map<string, Int64>

  // Direct evaluation.

  /** A condition on a null property is false, whether negated or not. */
  predicate CheckLeaf(c: Condition, r: Record) {
    c.property in r && c.Accepts(r[c.property])
  }

  /** Short-circuit: the right side first if it is a plain condition, otherwise the left. */
  predicate Check(n: Node, r: Record) {
    match n
    case Leaf(c) => CheckLeaf(c, r)
    case Composite(left, right, And, negative) =>
      if right.Leaf? then if !Check(right, r) then negative else Check(left, r) != negative
      else if !Check(left, r) then negative else Check(right, r) != negative
    case Composite(left, right, Or, negative) =>
      if right.Leaf? then if Check(right, r) then !negative else Check(left, r) != negative
      else if Check(left, r) then !negative else Check(right, r) != negative
  }

  /** Short-circuiting does not change the meaning. */
  lemma CheckMeans(n: Node, r: Record)
    requires n.Composite?
    ensures Check(n, r) <==>
              (if n.op.And? then Check(n.left, r) && Check(n.right, r) else Check(n.left, r) || Check(n.right, r))
              != n.negative
  {
  }

  // Building conditions.

  function Both(m: Node, e: Node): Node {
    Composite(m, e, And, false)
  }

  function EitherOf(m: Node, e: Node): Node {
    Composite(m, e, Or, false)
  }

  /** `operator!`, which a multi-condition has and a plain condition does not: it flips the root. */
  function Not(m: Node): Node
    requires m.Composite?
  {
    m.(negative := !m.negative)
  }

  lemma BuildersMean(m: Node, e: Node, r: Record)
    ensures Check(Both(m, e), r) <==> Check(m, r) && Check(e, r)
    ensures Check(EitherOf(m, e), r) <==> Check(m, r) || Check(e, r)
    ensures m.Composite? ==> (Check(Not(m), r) <==> !Check(m, r))
  {
    CheckMeans(Both(m, e), r);
    CheckMeans(EitherOf(m, e), r);
    if m.Composite? {
      CheckMeans(m, r);
      CheckMeans(Not(m), r);
    }
  }

  // Negation pushed down.

  /** What the recursion over the indexes amounts to for one record. */
  predicate Pushed(n: Node, negate: bool, r: Record) {
    match n
    case Leaf(c) => c.property in r && c.Accepts(r[c.property]) != negate
    case Composite(left, right, op, negative) =>
      var flip := negative != negate;
      if op.And? != flip then Pushed(right, flip, r) && Pushed(left, flip, r)
      else Pushed(right, flip, r) || Pushed(left, flip, r)
  }

  /** Every property is set that is mentioned under an odd number of negations, those of plain conditions aside. */
  predicate SetWhereNegated(n: Node, negate: bool, r: Record) {
    match n
    case Leaf(c) => negate ==> c.property in r
    case Composite(left, right, _, negative) =>
      SetWhereNegated(left, negative != negate, r) && SetWhereNegated(right, negative != negate, r)
  }

  /** No null under a negation decides the outcome: some other part of the condition settles it. */
  predicate Settled(n: Node, negate: bool, r: Record) {
    match n
    case Leaf(c) => negate ==> c.property in r
    case Composite(left, right, op, negative) =>
      var flip := negative != negate;
      var a, b := Check(left, r) != flip, Check(right, r) != flip;
      if op.And? != flip then !a || !b || (Settled(left, flip, r) && Settled(right, flip, r))
      else (!a && !b) || (a && Settled(left, flip, r)) || (b && Settled(right, flip, r))
  }

  /** Pushed-down evaluation accepts exactly the records that the direct check accepts and in which no null decides. */
  lemma {:induction false} PushedIsCheck(n: Node, negate: bool, r: Record)
    ensures Pushed(n, negate, r) <==> Check(n, r) != negate && Settled(n, negate, r)
  {
    if n.Composite? {
      var flip := n.negative != negate;
      PushedIsCheck(n.left, flip, r);
      PushedIsCheck(n.right, flip, r);
      CheckMeans(n, r);
    }
  }

  /** In particular nothing is accepted too much, and nothing too little if no null is under a negation. */
  lemma {:induction false} SetIsSettled(n: Node, negate: bool, r: Record)
    requires SetWhereNegated(n, negate, r)
    ensures Settled(n, negate, r)
  {
    if n.Composite? {
      SetIsSettled(n.left, n.negative != negate, r);
      SetIsSettled(n.right, n.negative != negate, r);
    }
  }

  /** A null that decides: the negation of a pair of comparisons on a missing property is true directly, not pushed. */
  lemma NullMatters(c: Condition, r: Record)
    requires c.property !in r
    ensures var n := Not(Both(Leaf(c), Leaf(c))); Check(n, r) && !Pushed(n, false, r)
  {
    var n := Not(Both(Leaf(c), Leaf(c)));
    CheckMeans(n, r);
    assert !Pushed(Leaf(c), true, r);
  }

  // How often a record is listed.

  /** A value beyond both of two crossed bounds is found below the one and above the other. */
  function Listed(range: Range, flip: bool, v: int): nat {
    if !flip then if range.Holds(v) then 1 else 0
    else
      match range
      case Among(lower, upper, lowIn, upIn) =>
        (if Below(v, lower, !lowIn) then 1 else 0) + if Above(v, upper, !upIn) then 1 else 0
      case _ => if range.Holds(v) then 0 else 1
  }

  function Min(a: nat, b: nat): nat {
    if a <= b then a else b
  }

  function Max(a: nat, b: nat): nat {
    if a <= b then b else a
  }

  function Times(n: Node, negate: bool, r: Record): nat {
    match n
    case Leaf(c) => if c.property in r then Listed(c.Range(), c.negative != negate, r[c.property]) else 0
    case Composite(left, right, op, negative) =>
      var flip := negative != negate;
      if op.And? != flip then Min(Times(right, flip, r), Times(left, flip, r))
      else Max(Times(right, flip, r), Times(left, flip, r))
  }

  /** Where a negation reaches a range, no value is beyond both of its bounds. */
  predicate NotCrossed(n: Node, negate: bool) {
    match n
    case Leaf(c) =>
      c.negative != negate ==>
        match c.Range() {
          case Among(lower, upper, lowIn, upIn) => lower < upper || (lower == upper && (lowIn || upIn))
          case _ => true
        }
    case Composite(left, right, _, negative) =>
      NotCrossed(left, negative != negate) && NotCrossed(right, negative != negate)
  }

  /** A record is listed at all exactly if it is selected, and at most once where no bounds are crossed. */
  lemma {:induction false} TimesMeans(n: Node, negate: bool, r: Record)
    ensures Times(n, negate, r) > 0 <==> Pushed(n, negate, r)
    ensures NotCrossed(n, negate) ==> Times(n, negate, r) <= 1
  {
    if n.Composite? {
      TimesMeans(n.left, n.negative != negate, r);
      TimesMeans(n.right, n.negative != negate, r);
    }
  }

  // Sorted lists of positions.

  ghost predicate Ascending(ps: seq<nat>) {
    forall i, j :: 0 <= i < j < |ps| ==> ps[i] <= ps[j]
  }

  ghost predicate StrictlyAscending(ps: seq<nat>) {
    forall i, j :: 0 <= i < j < |ps| ==> ps[i] < ps[j]
  }

  function Placed(p: nat, ps: seq<nat>): seq<nat> {
    if ps == [] || p <= ps[0] then [p] + ps else [ps[0]] + Placed(p, ps[1..])
  }

  /** The positions of the rows, sorted. */
  function SortedPositions(rows: seq<Row>): seq<nat> {
    if rows == [] then [] else Placed(rows[0].position, SortedPositions(rows[1..]))
  }

  lemma {:induction false} PlacedIs(p: nat, ps: seq<nat>, q: nat)
    ensures q in Placed(p, ps) <==> q == p || q in ps
  {
    if ps != [] && p > ps[0] {
      PlacedIs(p, ps[1..], q);
    }
  }

  lemma {:induction false} PlacedKeeps(p: nat, ps: seq<nat>)
    requires Ascending(ps)
    ensures Ascending(Placed(p, ps))
    ensures StrictlyAscending(ps) && p !in ps ==> StrictlyAscending(Placed(p, ps))
  {
    if ps == [] {
    } else if p <= ps[0] {
      AscendingTail(ps);
      AscendingCons(p, ps);
    } else {
      AscendingTail(ps);
      PlacedKeeps(p, ps[1..]);
      forall q | q in Placed(p, ps[1..]) ensures ps[0] <= q && (StrictlyAscending(ps) ==> ps[0] < q) {
        PlacedIs(p, ps[1..], q);
      }
      AscendingCons(ps[0], Placed(p, ps[1..]));
    }
  }

  /** No two rows are about the same position. */
  ghost predicate OneEach(rows: seq<Row>) {
    forall i, j :: 0 <= i < j < |rows| ==> rows[i].position != rows[j].position
  }

  lemma {:induction false} SortedPositionsAre(rows: seq<Row>)
    ensures Ascending(SortedPositions(rows))
    ensures forall p :: p in SortedPositions(rows) <==> exists i :: 0 <= i < |rows| && rows[i].position == p
    ensures OneEach(rows) ==> StrictlyAscending(SortedPositions(rows))
  {
    if rows != [] {
      SortedPositionsAre(rows[1..]);
      PlacedKeeps(rows[0].position, SortedPositions(rows[1..]));
      forall p ensures p in SortedPositions(rows) <==> p == rows[0].position || p in SortedPositions(rows[1..]) {
        PlacedIs(rows[0].position, SortedPositions(rows[1..]), p);
      }
      forall p ensures p in SortedPositions(rows) <==> exists i :: 0 <= i < |rows| && rows[i].position == p {
        if i :| 0 <= i < |rows| && rows[i].position == p {
          assert i > 0 ==> rows[1..][i - 1].position == p;
        }
        if i :| 0 <= i < |rows[1..]| && rows[1..][i].position == p {
          assert rows[i + 1].position == p;
        }
      }
    }
  }

  /** `std::set_intersection`. */
  function Intersection(a: seq<nat>, b: seq<nat>): seq<nat>
    decreases |a| + |b|
  {
    if a == [] || b == [] then []
    else if a[0] < b[0] then Intersection(a[1..], b)
    else if b[0] < a[0] then Intersection(a, b[1..])
    else [a[0]] + Intersection(a[1..], b[1..])
  }

  /** `std::set_union`. */
  function Union(a: seq<nat>, b: seq<nat>): seq<nat>
    decreases |a| + |b|
  {
    if a == [] then b
    else if b == [] then a
    else if a[0] < b[0] then [a[0]] + Union(a[1..], b)
    else if b[0] < a[0] then [b[0]] + Union(a, b[1..])
    else [a[0]] + Union(a[1..], b[1..])
  }

  ghost predicate AllAtLeast(ps: seq<nat>, low: nat) {
    forall p :: p in ps ==> low <= p
  }

  lemma AscendingTail(ps: seq<nat>)
    requires Ascending(ps) && ps != []
    ensures Ascending(ps[1..]) && AllAtLeast(ps[1..], ps[0]) && AllAtLeast(ps, ps[0])
    ensures forall p :: p in ps <==> p == ps[0] || p in ps[1..]
  {
    assert ps == [ps[0]] + ps[1..];
  }

  lemma AscendingCons(p: nat, ps: seq<nat>)
    requires Ascending(ps) && AllAtLeast(ps, p)
    ensures Ascending([p] + ps)
    ensures StrictlyAscending(ps) && p !in ps ==> StrictlyAscending([p] + ps)
  {
    forall j | 0 <= j < |ps| ensures p <= ps[j] && (p !in ps ==> p < ps[j]) {
      assert ps[j] in ps;
    }
  }

  lemma {:induction false} IntersectionIs(a: seq<nat>, b: seq<nat>, p: nat)
    requires Ascending(a) && Ascending(b)
    ensures p in Intersection(a, b) <==> p in a && p in b
    decreases |a| + |b|
  {
    if a != [] && b != [] {
      AscendingTail(a);
      AscendingTail(b);
      if a[0] < b[0] {
        IntersectionIs(a[1..], b, p);
      } else if b[0] < a[0] {
        IntersectionIs(a, b[1..], p);
      } else {
        IntersectionIs(a[1..], b[1..], p);
      }
    }
  }

  lemma {:induction false} IntersectionAscends(a: seq<nat>, b: seq<nat>)
    requires Ascending(a) && Ascending(b)
    ensures Ascending(Intersection(a, b))
    decreases |a| + |b|
  {
    if a != [] && b != [] {
      AscendingTail(a);
      AscendingTail(b);
      if a[0] < b[0] {
        IntersectionAscends(a[1..], b);
      } else if b[0] < a[0] {
        IntersectionAscends(a, b[1..]);
      } else {
        IntersectionAscends(a[1..], b[1..]);
        forall p | p in Intersection(a[1..], b[1..]) ensures a[0] <= p {
          IntersectionIs(a[1..], b[1..], p);
        }
        AscendingCons(a[0], Intersection(a[1..], b[1..]));
      }
    }
  }

  lemma {:induction false} UnionIs(a: seq<nat>, b: seq<nat>, p: nat)
    requires Ascending(a) && Ascending(b)
    ensures p in Union(a, b) <==> p in a || p in b
    decreases |a| + |b|
  {
    if a != [] && b != [] {
      AscendingTail(a);
      AscendingTail(b);
      if a[0] < b[0] {
        UnionIs(a[1..], b, p);
      } else if b[0] < a[0] {
        UnionIs(a, b[1..], p);
      } else {
        UnionIs(a[1..], b[1..], p);
      }
    }
  }

  lemma {:induction false} UnionAscends(a: seq<nat>, b: seq<nat>)
    requires Ascending(a) && Ascending(b)
    ensures Ascending(Union(a, b))
    decreases |a| + |b|
  {
    if a != [] && b != [] {
      AscendingTail(a);
      AscendingTail(b);
      var x, y := if b[0] < a[0] then a else a[1..], if a[0] < b[0] then b else b[1..];
      var low := if b[0] < a[0] then b[0] else a[0];
      UnionAscends(x, y);
      forall p | p in Union(x, y) ensures low <= p {
        UnionIs(x, y, p);
      }
      AscendingCons(low, Union(x, y));
    }
  }

  // Counting.

  lemma {:induction false} PlacedCounts(p: nat, ps: seq<nat>)
    ensures multiset(Placed(p, ps)) == multiset(ps) + multiset{p}
  {
    if ps != [] && p > ps[0] {
      PlacedCounts(p, ps[1..]);
      assert ps == [ps[0]] + ps[1..];
    }
  }

  /** If all rows about a position are the same, it is listed as often as that row. */
  lemma {:induction false} PositionCounts(rows: seq<Row>, row: Row)
    requires forall i :: 0 <= i < |rows| && rows[i].position == row.position ==> rows[i] == row
    ensures multiset(SortedPositions(rows))[row.position] == multiset(rows)[row]
  {
    if rows != [] {
      PositionCounts(rows[1..], row);
      PlacedCounts(rows[0].position, SortedPositions(rows[1..]));
      assert rows == [rows[0]] + rows[1..];
    }
  }

  lemma CountsTail(ps: seq<nat>, p: nat)
    requires Ascending(ps) && ps != []
    ensures multiset(ps)[p] == multiset(ps[1..])[p] + if p == ps[0] then 1 else 0
    ensures p < ps[0] ==> multiset(ps)[p] == 0
  {
    AscendingTail(ps);
    assert ps == [ps[0]] + ps[1..];
    assert p < ps[0] ==> p !in ps;
  }

  lemma {:induction false} IntersectionCounts(a: seq<nat>, b: seq<nat>, p: nat)
    requires Ascending(a) && Ascending(b)
    ensures multiset(Intersection(a, b))[p] == Min(multiset(a)[p], multiset(b)[p])
    decreases |a| + |b|
  {
    if a != [] && b != [] {
      AscendingTail(a);
      AscendingTail(b);
      CountsTail(a, p);
      CountsTail(b, p);
      if a[0] < b[0] {
        IntersectionCounts(a[1..], b, p);
      } else if b[0] < a[0] {
        IntersectionCounts(a, b[1..], p);
      } else {
        IntersectionCounts(a[1..], b[1..], p);
      }
    }
  }

  lemma {:induction false} UnionCounts(a: seq<nat>, b: seq<nat>, p: nat)
    requires Ascending(a) && Ascending(b)
    ensures multiset(Union(a, b))[p] == Max(multiset(a)[p], multiset(b)[p])
    decreases |a| + |b|
  {
    if a != [] && b != [] {
      AscendingTail(a);
      AscendingTail(b);
      CountsTail(a, p);
      CountsTail(b, p);
      if a[0] < b[0] {
        UnionCounts(a[1..], b, p);
      } else if b[0] < a[0] {
        UnionCounts(a, b[1..], p);
      } else {
        UnionCounts(a[1..], b[1..], p);
      }
    }
  }

  /** A sorted list in which nothing is listed twice is strictly ascending. */
  lemma OnceIsStrict(ps: seq<nat>)
    requires Ascending(ps) && forall p :: multiset(ps)[p] <= 1
    ensures StrictlyAscending(ps)
  {
    forall i, j | 0 <= i < j < |ps| ensures ps[i] < ps[j] {
      assert ps == ps[..i] + [ps[i]] + ps[i + 1..j] + [ps[j]] + ps[j + 1..];
      assert ps[i] == ps[j] ==> multiset(ps)[ps[i]] >= 2;
    }
  }
}
