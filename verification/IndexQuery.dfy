/**
 Answering a tree of conditions from indexes: ranges at the leaves, complementary ranges where a negation reaches them,
 and sorted lists combined on the way up.
 */
module IndexQuery {
  import opened IndexTable
  import opened SignedIndex
  import opened Conditions

  // One condition.

  /** The rows are those whose value satisfies the condition, or fails it if `flip`, as often as it lists them. */
  ghost predicate Selects(ix: Index, rows: seq<Row>, range: Range, flip: bool)
    reads ix
  {
    forall row :: multiset(rows)[row] ==
      if row in ix.positive || row in ix.negative then Listed(range, flip, ValueOf(row.key)) else 0
  }

  /** What is found once each. */
  lemma FoundSelects(ix: Index, rows: seq<Row>, found: Range, range: Range, flip: bool)
    requires ix.Finds(rows, found) && forall v: int :: Listed(range, flip, v) == if found.Holds(v) then 1 else 0
    ensures Selects(ix, rows, range, flip)
  {
    forall row ensures multiset(rows)[row] == if row in rows then 1 else 0 {
      OnceEach(rows, row);
    }
  }

  lemma {:induction false} OnceEach(rows: seq<Row>, row: Row)
    requires NoRepeats(rows)
    ensures multiset(rows)[row] == if row in rows then 1 else 0
  {
    if rows != [] {
      assert rows == [rows[0]] + rows[1..] && rows[0] !in rows[1..];
      OnceEach(rows[1..], row);
    }
  }

  /** What is found below and above. */
  lemma BelowAndAbove(ix: Index, less: seq<Row>, greater: seq<Row>, range: Range, low: Range, high: Range)
    requires ix.Finds(less, low) && ix.Finds(greater, high)
    requires forall v: int ::
               Listed(range, true, v) == (if low.Holds(v) then 1 else 0) + if high.Holds(v) then 1 else 0
    ensures Selects(ix, less + greater, range, true)
  {
    forall row ensures multiset(less + greater)[row] ==
                         (if row in less then 1 else 0) + if row in greater then 1 else 0
    {
      OnceEach(less, row);
      OnceEach(greater, row);
    }
  }

  method NotEqual(ix: Index, value: Int64) returns (rows: seq<Row>)
    requires ix.Valid()
    ensures Selects(ix, rows, At(value), true)
  {
    var less := ix.GetLess(value, false);
    var greater := ix.GetGreater(value, false);
    BelowAndAbove(ix, less, greater, At(value), UpTo(value, false), From(value, false));
    rows := less + greater;
  }

  method NotBetween(ix: Index, lower: Int64, upper: Int64, lowIn: bool, upIn: bool) returns (rows: seq<Row>)
    requires ix.Valid()
    ensures Selects(ix, rows, Among(lower, upper, lowIn, upIn), true)
    ensures NoRepeats(rows) <==>
              forall row :: row in ix.positive || row in ix.negative ==>
                !(Below(ValueOf(row.key), lower, !lowIn) && Above(ValueOf(row.key), upper, !upIn))
  {
    var less := ix.GetLess(lower, !lowIn);
    var greater := ix.GetGreater(upper, !upIn);
    BelowAndAbove(ix, less, greater, Among(lower, upper, lowIn, upIn), UpTo(lower, !lowIn), From(upper, !upIn));
    JoinRepeats(less, greater);
    rows := less + greater;
  }

  /** Joined lists repeat a row exactly when it is in both. */
  lemma JoinRepeats(a: seq<Row>, b: seq<Row>)
    requires NoRepeats(a) && NoRepeats(b)
    ensures NoRepeats(a + b) <==> forall row :: !(row in a && row in b)
  {
    if row :| row in a && row in b {
      var i :| 0 <= i < |a| && a[i] == row;
      var j :| 0 <= j < |b| && b[j] == row;
      assert (a + b)[i] == (a + b)[|a| + j];
    } else {
      NoRepeatsJoined(a, b);
    }
  }

  /** The range that the code asks for instead, where one will do. */
  function Other(range: Range): Range {
    match range
    case UpTo(bound, inclusive) => From(bound, !inclusive)
    case From(bound, inclusive) => UpTo(bound, !inclusive)
    case _ => range
  }

  method RowsFor(ix: Index, c: Condition, flip: bool) returns (rows: seq<Row>)
    requires ix.Valid()
    ensures Selects(ix, rows, c.Range(), flip)
  {
    match c.comparator
    case Equal =>
      if !flip {
        rows := ix.GetEqual(c.value);
        FoundSelects(ix, rows, c.Range(), c.Range(), flip);
      } else {
        rows := NotEqual(ix, c.value);
      }
    case LessEqual =>
      rows := Half(ix, flip, c.value, !flip);
      FoundSelects(ix, rows, if flip then Other(c.Range()) else c.Range(), c.Range(), flip);
    case Less =>
      rows := Half(ix, flip, c.value, flip);
      FoundSelects(ix, rows, if flip then Other(c.Range()) else c.Range(), c.Range(), flip);
    case GreaterEqual =>
      rows := Half(ix, !flip, c.value, !flip);
      FoundSelects(ix, rows, if flip then Other(c.Range()) else c.Range(), c.Range(), flip);
    case Greater =>
      rows := Half(ix, !flip, c.value, flip);
      FoundSelects(ix, rows, if flip then Other(c.Range()) else c.Range(), c.Range(), flip);
    case BetweenNoBound => rows := Bounded(ix, c.lower, c.upper, false, false, flip);
    case Between => rows := Bounded(ix, c.lower, c.upper, true, true, flip);
    case BetweenNoUpper => rows := Bounded(ix, c.lower, c.upper, true, false, flip);
    case BetweenNoLower => rows := Bounded(ix, c.lower, c.upper, false, true, flip);
  }

  /** What lies above or below one bound. */
  method Half(ix: Index, above: bool, bound: Int64, inclusive: bool) returns (rows: seq<Row>)
    requires ix.Valid()
    ensures ix.Finds(rows, if above then From(bound, inclusive) else UpTo(bound, inclusive))
  {
    if above {
      rows := ix.GetGreater(bound, inclusive);
    } else {
      rows := ix.GetLess(bound, inclusive);
    }
  }

  method Bounded(ix: Index, lower: Int64, upper: Int64, lowIn: bool, upIn: bool, flip: bool) returns (rows: seq<Row>)
    requires ix.Valid()
    ensures Selects(ix, rows, Among(lower, upper, lowIn, upIn), flip)
  {
    if !flip {
      rows := ix.GetBetween(lower, upper, lowIn, upIn);
      FoundSelects(ix, rows, Among(lower, upper, lowIn, upIn), Among(lower, upper, lowIn, upIn), flip);
    } else {
      rows := NotBetween(ix, lower, upper, lowIn, upIn);
    }
  }

  /** The only value that the index has at the position. */
  ghost predicate HasOnly(ix: Index, v: Int64, p: nat)
    reads ix
  {
    ix.Has(v, p) && forall w :: ix.Has(w, p) ==> w == v
  }

  /**
   The sorted positions of the records that satisfy a condition, or fail it if `negate`; a position with one value is
   listed as often as the value.
   */
  method LeafRecords(ix: Index, c: Condition, negate: bool) returns (positions: seq<nat>)
    requires ix.Valid()
    ensures Ascending(positions)
    ensures forall p :: p in positions <==> exists v :: ix.Has(v, p) && c.Accepts(v) != negate
    ensures forall p, v: Int64 :: HasOnly(ix, v, p) ==>
              multiset(positions)[p] == Listed(c.Range(), c.negative != negate, v)
  {
    var rows := RowsFor(ix, c, c.negative != negate);
    positions := SortedPositions(rows);
    SortedPositionsAre(rows);
    forall p ensures p in positions <==> exists v :: ix.Has(v, p) && c.Accepts(v) != negate {
      PositionMeans(ix, rows, c, negate, positions, p);
    }
    forall p, v: Int64 | HasOnly(ix, v, p)
      ensures multiset(positions)[p] == Listed(c.Range(), c.negative != negate, v)
    {
      OnlyRow(ix, rows, c.Range(), c.negative != negate, v, p);
    }
  }

  lemma ListedMeans(range: Range, flip: bool, v: int)
    ensures Listed(range, flip, v) > 0 <==> range.Holds(v) != flip
  {
  }

  lemma PositionMeans(ix: Index, rows: seq<Row>, c: Condition, negate: bool, positions: seq<nat>, p: nat)
    requires ix.Valid() && Selects(ix, rows, c.Range(), c.negative != negate)
    requires p in positions <==> exists i :: 0 <= i < |rows| && rows[i].position == p
    ensures p in positions <==> exists v :: ix.Has(v, p) && c.Accepts(v) != negate
  {
    if i :| 0 <= i < |rows| && rows[i].position == p {
      var row := rows[i];
      assert multiset(rows)[row] > 0;
      ListedMeans(c.Range(), c.negative != negate, ValueOf(row.key));
      RowOfValue(if row in ix.positive then ix.positive else ix.negative, row !in ix.positive, row);
      var v: Int64 := ValueOf(row.key);
      assert ix.Has(v, p) && c.Accepts(v) != negate;
    }
    if v: Int64 :| ix.Has(v, p) && c.Accepts(v) != negate {
      KeyRoundTrip(v);
      ListedMeans(c.Range(), c.negative != negate, v);
      assert multiset(rows)[Row(KeyOf(v), p)] > 0;
      assert Row(KeyOf(v), p) in rows;
    }
  }

  lemma OnlyRow(ix: Index, rows: seq<Row>, range: Range, flip: bool, v: Int64, p: nat)
    requires ix.Valid() && Selects(ix, rows, range, flip) && HasOnly(ix, v, p)
    ensures multiset(SortedPositions(rows))[p] == Listed(range, flip, v)
  {
    var row := Row(KeyOf(v), p);
    KeyRoundTrip(v);
    forall i | 0 <= i < |rows| && rows[i].position == p ensures rows[i] == row {
      var other := rows[i];
      assert multiset(rows)[other] > 0;
      RowOfValue(if other in ix.positive then ix.positive else ix.negative, other !in ix.positive, other);
      var w: Int64 := ValueOf(other.key);
      assert ix.Has(w, p);
    }
    PositionCounts(rows, row);
  }

  // A tree of conditions.

  /** Every property that the tree mentions has an index, and every index holds what the records hold. */
  ghost predicate Indexed(n: Node, indexes: map<string, Index>, records: map<nat, Record>)
    reads set k | k in indexes :: indexes[k]
  {
    match n
    case Leaf(c) => c.property in indexes && Reflects(indexes[c.property], c.property, records)
    case Composite(left, right, _, _) => Indexed(left, indexes, records) && Indexed(right, indexes, records)
  }

  ghost predicate Reflects(ix: Index, property: string, records: map<nat, Record>)
    reads ix
  {
    ix.Valid() && forall v, p :: ix.Has(v, p) <==> p in records && property in records[p] && records[p][property] == v
  }

  lemma OnlyValue(ix: Index, property: string, records: map<nat, Record>, p: nat)
    requires Reflects(ix, property, records) && p in records && property in records[p]
    ensures HasOnly(ix, records[p][property], p)
  {
  }

  lemma NoValue(ix: Index, property: string, records: map<nat, Record>, c: Condition, negate: bool, p: nat,
                positions: seq<nat>)
    requires Reflects(ix, property, records) && (p in records ==> property !in records[p])
    requires p in positions <==> exists v :: ix.Has(v, p) && c.Accepts(v) != negate
    ensures multiset(positions)[p] == 0
  {
  }

  /** How often each record is listed. */
  ghost predicate Lists(positions: seq<nat>, n: Node, negate: bool, records: map<nat, Record>) {
    forall p :: multiset(positions)[p] == if p in records then Times(n, negate, records[p]) else 0
  }

  method EvaluateLeaf(c: Condition, negate: bool, ix: Index, ghost records: map<nat, Record>)
    returns (positions: seq<nat>)
    requires Reflects(ix, c.property, records)
    ensures Ascending(positions) && Lists(positions, Leaf(c), negate, records)
  {
    positions := LeafRecords(ix, c, negate);
    forall p: nat ensures multiset(positions)[p] == if p in records then Times(Leaf(c), negate, records[p]) else 0 {
      if p in records && c.property in records[p] {
        OnlyValue(ix, c.property, records, p);
      } else {
        NoValue(ix, c.property, records, c, negate, p, positions);
      }
    }
  }

  /** The recursion: sides combined by intersection or union, whichever the negations carried down make of it. */
  method Evaluate(n: Node, negate: bool, indexes: map<string, Index>, ghost records: map<nat, Record>)
    returns (positions: seq<nat>)
    requires Indexed(n, indexes, records)
    ensures Ascending(positions) && Lists(positions, n, negate, records)
    decreases n
  {
    match n
    case Leaf(c) =>
      positions := EvaluateLeaf(c, negate, indexes[c.property], records);
    case Composite(left, right, op, negative) =>
      var flip := negative != negate;
      var fromRight := Evaluate(right, flip, indexes, records);
      var fromLeft := Evaluate(left, flip, indexes, records);
      if (op.And? && !flip) || (op.Or? && flip) {
        positions := Intersection(fromRight, fromLeft);
        IntersectionAscends(fromRight, fromLeft);
        forall p ensures multiset(positions)[p] == Min(multiset(fromRight)[p], multiset(fromLeft)[p]) {
          IntersectionCounts(fromRight, fromLeft, p);
        }
      } else {
        positions := Union(fromRight, fromLeft);
        UnionAscends(fromRight, fromLeft);
        forall p ensures multiset(positions)[p] == Max(multiset(fromRight)[p], multiset(fromLeft)[p]) {
          UnionCounts(fromRight, fromLeft, p);
        }
      }
  }

  /**
   The indexes give only records that a direct check accepts, and all of those in which no null under a negation
   decides. A record is given more than once only where a negation reaches a range with crossed bounds.
   */
  method Query(n: Node, indexes: map<string, Index>, ghost records: map<nat, Record>) returns (positions: seq<nat>)
    requires Indexed(n, indexes, records)
    ensures Ascending(positions) && Lists(positions, n, false, records)
    ensures forall p :: p in positions <==> p in records && Check(n, records[p]) && Settled(n, false, records[p])
    ensures forall p :: p in records && SetWhereNegated(n, false, records[p]) ==>
              (p in positions <==> Check(n, records[p]))
    ensures NotCrossed(n, false) ==> StrictlyAscending(positions)
  {
    positions := Evaluate(n, false, indexes, records);
    forall p: nat ensures p in positions <==> p in records && Check(n, records[p]) && Settled(n, false, records[p]) {
      assert p in positions <==> multiset(positions)[p] > 0;
      if p in records {
        TimesMeans(n, false, records[p]);
        PushedIsCheck(n, false, records[p]);
      }
    }
    forall p | p in records && SetWhereNegated(n, false, records[p]) ensures Settled(n, false, records[p]) {
      SetIsSettled(n, false, records[p]);
    }
    if NotCrossed(n, false) {
      forall p: nat ensures multiset(positions)[p] <= 1 {
        if p in records {
          TimesMeans(n, false, records[p]);
        }
      }
      OnceIsStrict(positions);
    }
  }
}
