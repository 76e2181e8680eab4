/**
 An index over signed 64-bit values. Values at or above zero are in one table and negative values in another, each
 ordered by the value's bits as an unsigned number; searches over both agree with the order of the values.
 */
module SignedIndex {
  import opened Common
  import opened IndexTable

  const HALF: int := 0x8000_0000_0000_0000
  const WHOLE: int := 0x1_0000_0000_0000_0000

  type Int64 = v: int | -HALF <= v < HALF witness 0

  /** The bits of a value, read as unsigned. */
  function KeyOf(v: Int64): nat {
    if v >= 0 then v else v + WHOLE
  }

  /** The bits of a key, read as signed. */
  function ValueOf(key: nat): int {
    if key < HALF then key else key - WHOLE
  }

  /** Every key of the table belongs to a value of the given sign. */
  ghost predicate SideOf(table: seq<Row>, negative: bool) {
    forall i :: 0 <= i < |table| ==> if negative then HALF <= table[i].key < WHOLE else table[i].key < HALF
  }

  lemma KeyRoundTrip(v: Int64)
    ensures ValueOf(KeyOf(v)) == v && (v < 0 <==> KeyOf(v) >= HALF) && KeyOf(v) < WHOLE
  {
  }

  /** Within one sign the order of the bits is the order of the values. */
  lemma SameSignOrder(key: nat, v: Int64)
    requires key < WHOLE && (key >= HALF <==> v < 0)
    ensures key < KeyOf(v) <==> ValueOf(key) < v
    ensures key == KeyOf(v) <==> ValueOf(key) == v
  {
  }

  // Scanning between two bounds.

  /** The scan stops at this row. */
  predicate Past(row: Row, upper: int, inclusive: bool) {
    (!inclusive && ValueOf(row.key) == upper) || ValueOf(row.key) > upper
  }

  function EndOf(table: seq<Row>, upper: int, inclusive: bool): (n: nat)
    ensures n <= |table|
  {
    if table == [] || Past(table[0], upper, inclusive) then 0 else 1 + EndOf(table[1..], upper, inclusive)
  }

  lemma {:induction false} EndSplits(table: seq<Row>, negative: bool, upper: int, inclusive: bool, i: nat)
    requires Sorted(table) && SideOf(table, negative) && i < |table|
    ensures i < EndOf(table, upper, inclusive) <==> !Past(table[i], upper, inclusive)
  {
    if i > 0 {
      assert InOrder(table, 0, i);
      SortedTail(table);
      assert SideOf(table[1..], negative);
      EndSplits(table[1..], negative, upper, inclusive, i - 1);
    }
  }

  /** What the scan decides about the row at `i`: skip it, stop there or take it. */
  lemma BetweenDecides(table: seq<Row>, lower: Int64, upper: int, lowIn: bool, upIn: bool, i: nat)
    requires Sorted(table) && SideOf(table, lower < 0) && LowerBound(table, KeyOf(lower)) <= i < |table|
    ensures i < StartOf(table, KeyOf(lower), lowIn) <==> !lowIn && ValueOf(table[i].key) == lower
    ensures i < EndOf(table, upper, upIn) <==> !Past(table[i], upper, upIn)
  {
    SkipOrTake(table, KeyOf(lower), i);
    SameSignOrder(table[i].key, lower);
    EndSplits(table, lower < 0, upper, upIn, i);
  }

  method BetweenSearch(c: Cursor, lower: Int64, upper: int, lowIn: bool, upIn: bool) returns (rows: seq<Row>)
    requires c.Valid() && SideOf(c.table, lower < 0)
    modifies c
    ensures c.Valid()
    ensures rows == Slice(c.table, StartOf(c.table, KeyOf(lower), lowIn), EndOf(c.table, upper, upIn))
  {
    ghost var from, to := StartOf(c.table, KeyOf(lower), lowIn), EndOf(c.table, upper, upIn);
    BoundsOrdered(c.table, KeyOf(lower));
    rows := [];
    var row := c.FindRange(KeyOf(lower));
    while row.Some?
      invariant c.Valid() && LowerBound(c.table, KeyOf(lower)) <= c.at
      invariant row == if c.at < |c.table| then Some(c.table[c.at]) else None
      invariant rows == Slice(c.table, from, c.at) && (c.at <= from || c.at <= to)
      decreases |c.table| - c.at
    {
      BetweenDecides(c.table, lower, upper, lowIn, upIn, c.at);
      SliceGrows(c.table, from, c.at);
      var value := ValueOf(row.value.key);
      if !lowIn && value == lower {
        row := c.GetNext();
      } else if (!upIn && value == upper) || value > upper {
        return;
      } else {
        rows := rows + [row.value];
        row := c.GetNext();
      }
    }
  }

  lemma BetweenRowsAre(table: seq<Row>, lower: Int64, upper: int, lowIn: bool, upIn: bool, row: Row)
    requires Sorted(table) && SideOf(table, lower < 0)
    ensures var rows := Slice(table, StartOf(table, KeyOf(lower), lowIn), EndOf(table, upper, upIn));
            && NoRepeats(rows)
            && (row in rows <==> row in table && Within(ValueOf(row.key), lower, upper, lowIn, upIn))
  {
    var from, to := StartOf(table, KeyOf(lower), lowIn), EndOf(table, upper, upIn);
    SliceRows(table, from, to);
    SliceHas(table, from, to, row);
    forall i | 0 <= i < |table|
      ensures from <= i < to <==> Within(ValueOf(table[i].key), lower, upper, lowIn, upIn)
    {
      LowerBoundSplits(table, KeyOf(lower), i);
      UpperBoundSplits(table, KeyOf(lower), i);
      SameSignOrder(table[i].key, lower);
      EndSplits(table, lower < 0, upper, upIn, i);
    }
  }

  // The comparators.

  predicate Below(v: int, bound: int, inclusive: bool) {
    v < bound || (inclusive && v == bound)
  }

  predicate Above(v: int, bound: int, inclusive: bool) {
    v > bound || (inclusive && v == bound)
  }

  predicate Within(v: int, lower: int, upper: int, lowIn: bool, upIn: bool) {
    Above(v, lower, lowIn) && Below(v, upper, upIn)
  }

  datatype Range =
    | At(value: Int64)
    | UpTo(bound: Int64, inclusive: bool)
    | From(bound: Int64, inclusive: bool)
    | Among(lower: Int64, upper: Int64, lowIn: bool, upIn: bool)
  {
    predicate Holds(v: int) {
      match this
      case At(value) => v == value
      case UpTo(bound, inclusive) => Below(v, bound, inclusive)
      case From(bound, inclusive) => Above(v, bound, inclusive)
      case Among(lower, upper, lowIn, upIn) => Within(v, lower, upper, lowIn, upIn)
    }
  }

  /** The rows are those of the table whose value is in the range, once each. */
  ghost predicate Covers(table: seq<Row>, rows: seq<Row>, range: Range) {
    NoRepeats(rows) && forall row :: row in rows <==> row in table && range.Holds(ValueOf(row.key))
  }

  lemma NoRepeatsJoined(a: seq<Row>, b: seq<Row>)
    requires NoRepeats(a) && NoRepeats(b) && forall row :: !(row in a && row in b)
    ensures NoRepeats(a + b)
  {
    forall i, j | 0 <= i < j < |a + b| ensures (a + b)[i] != (a + b)[j] {
      if i < |a| <= j {
        assert a[i] in a && b[j - |a|] in b;
      }
    }
  }

  // What each scan covers.

  lemma ExactCovers(table: seq<Row>, value: Int64, rows: seq<Row>)
    requires Sorted(table) && SideOf(table, value < 0) && rows == RowsAt(table, KeyOf(value))
    ensures Covers(table, rows, At(value))
  {
    forall row ensures (row in rows <==> row in table && ValueOf(row.key) == value) && NoRepeats(rows) {
      RowsAtAre(table, KeyOf(value), row);
      if row in table {
        SameSignOrder(row.key, value);
      }
    }
  }

  lemma BackwardCovers(table: seq<Row>, value: Int64, inclusive: bool, rows: seq<Row>)
    requires Sorted(table) && SideOf(table, value < 0)
    requires rows == (if inclusive then RowsAt(table, KeyOf(value)) else [])
                     + Reversed(table[..LowerBound(table, KeyOf(value))])
    ensures Covers(table, rows, UpTo(value, inclusive))
  {
    var key := KeyOf(value);
    var a, b := if inclusive then RowsAt(table, key) else [], Reversed(table[..LowerBound(table, key)]);
    RowsAtAre(table, key, Row(0, 0));
    RowsBelowAre(table, key, Row(0, 0));
    forall row ensures !(row in a && row in b) {
      RowsAtAre(table, key, row);
      RowsBelowAre(table, key, row);
    }
    NoRepeatsJoined(a, b);
    forall row ensures row in rows <==> row in table && Below(ValueOf(row.key), value, inclusive) {
      RowsAtAre(table, key, row);
      RowsBelowAre(table, key, row);
      if row in table {
        SameSignOrder(row.key, value);
      }
    }
  }

  lemma ForwardCovers(table: seq<Row>, value: Int64, inclusive: bool, rows: seq<Row>)
    requires Sorted(table) && SideOf(table, value < 0)
    requires rows == table[StartOf(table, KeyOf(value), inclusive)..]
    ensures Covers(table, rows, From(value, inclusive))
  {
    forall row ensures NoRepeats(rows) && (row in rows <==> row in table && Above(ValueOf(row.key), value, inclusive)) {
      RowsAboveAre(table, KeyOf(value), inclusive, row);
      if row in table {
        SameSignOrder(row.key, value);
      }
    }
  }

  lemma BetweenCovers(table: seq<Row>, lower: Int64, upper: Int64, lowIn: bool, upIn: bool, rows: seq<Row>)
    requires Sorted(table) && SideOf(table, lower < 0)
    requires rows == Slice(table, StartOf(table, KeyOf(lower), lowIn), EndOf(table, upper, upIn))
    ensures Covers(table, rows, Among(lower, upper, lowIn, upIn))
  {
    forall row ensures NoRepeats(rows)
                       && (row in rows <==> row in table && Within(ValueOf(row.key), lower, upper, lowIn, upIn))
    {
      BetweenRowsAre(table, lower, upper, lowIn, upIn, row);
    }
  }

  /** A table whose values are all in the range is covered by all its rows. */
  lemma WholeCovers(table: seq<Row>, negative: bool, range: Range)
    requires Sorted(table) && SideOf(table, negative)
    requires forall v: Int64 :: (v < 0 <==> negative) ==> range.Holds(v)
    ensures Covers(table, table, range)
  {
    SliceRows(table, 0, |table|);
    assert Slice(table, 0, |table|) == table;
    forall row | row in table ensures range.Holds(ValueOf(row.key)) {
      RowOfValue(table, negative, row);
    }
  }

  /** A table whose values are all outside the range is covered by no row. */
  lemma NoneCovers(table: seq<Row>, negative: bool, range: Range)
    requires SideOf(table, negative)
    requires forall v: Int64 :: (v < 0 <==> negative) ==> !range.Holds(v)
    ensures Covers(table, [], range)
  {
    forall row | row in table ensures !range.Holds(ValueOf(row.key)) {
      RowOfValue(table, negative, row);
    }
  }

  /** Two ranges that agree on the values of one sign are covered alike. */
  lemma SameCover(table: seq<Row>, negative: bool, rows: seq<Row>, range: Range, other: Range)
    requires SideOf(table, negative) && Covers(table, rows, range)
    requires forall v: Int64 :: (v < 0 <==> negative) ==> (range.Holds(v) <==> other.Holds(v))
    ensures Covers(table, rows, other)
  {
    forall row | row in table ensures range.Holds(ValueOf(row.key)) == other.Holds(ValueOf(row.key)) {
      RowOfValue(table, negative, row);
    }
  }

  /** All that a table of one sign holds of a value. */
  lemma RowOfValue(table: seq<Row>, negative: bool, row: Row)
    requires SideOf(table, negative) && row in table
    ensures -HALF <= ValueOf(row.key) < HALF && (ValueOf(row.key) < 0 <==> negative)
    ensures KeyOf(ValueOf(row.key)) == row.key
  {
  }

  class Index {
    var positive: seq<Row>
    var negative: seq<Row>
    const unique: bool

    ghost predicate Valid()
      reads this
    {
      Sorted(positive) && Sorted(negative) && SideOf(positive, false) && SideOf(negative, true)
    }

    /** The record at `position` is indexed under the value `v`. */
    predicate Has(v: Int64, position: nat)
      reads this
    {
      Row(KeyOf(v), position) in if v < 0 then negative else positive
    }

    /** The rows are those of values in the range, in either table, once each. */
    ghost predicate Finds(rows: seq<Row>, range: Range)
      reads this
    {
      && NoRepeats(rows)
      && forall row :: row in rows <==> (row in positive || row in negative) && range.Holds(ValueOf(row.key))
    }

    constructor (unique: bool)
      ensures Valid() && this.unique == unique && positive == [] && negative == []
    {
      positive, negative := [], [];
      this.unique := unique;
    }

    /** The answers of the two tables together. */
    lemma Together(a: seq<Row>, b: seq<Row>, range: Range)
      requires Valid() && Covers(positive, a, range) && Covers(negative, b, range)
      ensures Finds(a + b, range)
    {
      forall row ensures !(row in a && row in b) {
        if row in positive && row in negative {
          RowOfValue(positive, false, row);
          RowOfValue(negative, true, row);
        }
      }
      NoRepeatsJoined(a, b);
    }

    // Searches.

    method GetEqual(value: Int64) returns (rows: seq<Row>)
      requires Valid()
      ensures Finds(rows, At(value))
    {
      if value < 0 {
        var c := new Cursor(negative);
        rows := ExactMatch(c, KeyOf(value));
        ExactCovers(negative, value, rows);
        NoneCovers(positive, false, At(value));
        Together([], rows, At(value));
        assert [] + rows == rows;
      } else {
        var c := new Cursor(positive);
        rows := ExactMatch(c, KeyOf(value));
        ExactCovers(positive, value, rows);
        NoneCovers(negative, true, At(value));
        Together(rows, [], At(value));
        assert rows + [] == rows;
      }
    }

    method GetLess(value: Int64, inclusive: bool) returns (rows: seq<Row>)
      requires Valid()
      ensures Finds(rows, UpTo(value, inclusive))
    {
      ghost var range := UpTo(value, inclusive);
      if value < 0 {
        var c := new Cursor(negative);
        rows := BackwardSearch(c, KeyOf(value), inclusive);
        BackwardCovers(negative, value, inclusive, rows);
        NoneCovers(positive, false, range);
        Together([], rows, range);
        assert [] + rows == rows;
      } else {
        var c := new Cursor(positive);
        var n := new Cursor(negative);
        var above := BackwardSearch(c, KeyOf(value), inclusive);
        BackwardCovers(positive, value, inclusive, above);
        var below := FullScan(n);
        WholeCovers(negative, true, range);
        Together(above, below, range);
        rows := above + below;
      }
    }

    method GetGreater(value: Int64, inclusive: bool) returns (rows: seq<Row>)
      requires Valid()
      ensures Finds(rows, From(value, inclusive))
    {
      ghost var range := From(value, inclusive);
      if value < 0 {
        var c := new Cursor(positive);
        var n := new Cursor(negative);
        var above := FullScan(c);
        WholeCovers(positive, false, range);
        var below := ForwardSearch(n, KeyOf(value), inclusive);
        ForwardCovers(negative, value, inclusive, below);
        Together(above, below, range);
        rows := above + below;
      } else {
        var c := new Cursor(positive);
        rows := ForwardSearch(c, KeyOf(value), inclusive);
        ForwardCovers(positive, value, inclusive, rows);
        NoneCovers(negative, true, range);
        Together(rows, [], range);
        assert rows + [] == rows;
      }
    }

    /** Any bounds, of any sign and in any order. */
    method GetBetween(lower: Int64, upper: Int64, lowIn: bool, upIn: bool) returns (rows: seq<Row>)
      requires Valid()
      ensures Finds(rows, Among(lower, upper, lowIn, upIn))
    {
      ghost var range := Among(lower, upper, lowIn, upIn);
      if lower < 0 && upper < 0 {
        var c := new Cursor(negative);
        rows := BetweenSearch(c, lower, upper, lowIn, upIn);
        BetweenCovers(negative, lower, upper, lowIn, upIn, rows);
        NoneCovers(positive, false, range);
        Together([], rows, range);
        assert [] + rows == rows;
      } else if lower < 0 {
        var c := new Cursor(positive);
        var n := new Cursor(negative);
        var above := BetweenSearch(c, 0, upper, true, upIn);
        BetweenCovers(positive, 0, upper, true, upIn, above);
        SameCover(positive, false, above, Among(0, upper, true, upIn), range);
        var below := BetweenSearch(n, lower, 0, lowIn, true);
        BetweenCovers(negative, lower, 0, lowIn, true, below);
        SameCover(negative, true, below, Among(lower, 0, lowIn, true), range);
        Together(above, below, range);
        rows := above + below;
      } else {
        var c := new Cursor(positive);
        rows := BetweenSearch(c, lower, upper, lowIn, upIn);
        BetweenCovers(positive, lower, upper, lowIn, upIn, rows);
        NoneCovers(negative, true, range);
        Together(rows, [], range);
        assert rows + [] == rows;
      }
    }

    // Changes.

    /**
     Adds a value/position pair. A unique index refuses a value that it already has; an ordinary one takes a pair it
     already has without a second copy.
     */
    method Add(value: Int64, position: nat) returns (ok: bool)
      requires Valid()
      modifies this
      ensures Valid()
      ensures !ok <==> unique && exists p :: old(Has(value, p))
      ensures forall v, p :: Has(v, p) <==> old(Has(v, p)) || (ok && v == value && p == position)
    {
      var key := KeyOf(value);
      var table := if value < 0 then negative else positive;
      if unique {
        var c := new Cursor(table);
        var found := c.Find(key);
        if found.Some? {
          assert found.value == table[c.at] && Row(key, found.value.position) in table;
          assert Has(value, found.value.position);
          return false;
        }
        forall p ensures Row(key, p) !in table {
          RowsAtAre(table, key, Row(key, p));
        }
      }
      var row := Row(key, position);
      var after := Inserted(table, row);
      AddedTable(table, value, position, after);
      if value < 0 {
        negative := after;
      } else {
        positive := after;
      }
      return true;
    }

    /** Removes exactly one pair, if it is there. */
    method Delete(value: Int64, position: nat)
      requires Valid()
      modifies this
      ensures Valid()
      ensures forall v, p :: Has(v, p) <==> old(Has(v, p)) && !(v == value && p == position)
    {
      var table := if value < 0 then negative else positive;
      var at := FindRow(table, KeyOf(value), position);
      if at < 0 {
        return;
      }
      RemovedTable(table, value, at);
      if value < 0 {
        negative := table[..at] + table[at + 1..];
      } else {
        positive := table[..at] + table[at + 1..];
      }
    }
  }

  lemma AddedTable(table: seq<Row>, value: Int64, position: nat, after: seq<Row>)
    requires Sorted(table) && SideOf(table, value < 0) && after == Inserted(table, Row(KeyOf(value), position))
    ensures Sorted(after) && SideOf(after, value < 0)
    ensures forall row :: row in after <==> row in table || row == Row(KeyOf(value), position)
  {
    var row := Row(KeyOf(value), position);
    InsertedSorted(table, row);
    forall other ensures other in after <==> other in table || other == row {
      InsertedRows(table, row, other);
    }
    forall i | 0 <= i < |after| ensures if value < 0 then HALF <= after[i].key < WHOLE else after[i].key < HALF {
      assert after[i] in after;
    }
  }

  lemma RemovedTable(table: seq<Row>, value: Int64, at: nat)
    requires Sorted(table) && SideOf(table, value < 0) && at < |table|
    ensures Sorted(table[..at] + table[at + 1..]) && SideOf(table[..at] + table[at + 1..], value < 0)
    ensures forall row :: row in table[..at] + table[at + 1..] <==> row in table && row != table[at]
  {
    RemovedSorted(table, at, Row(0, 0));
    forall row ensures row in table[..at] + table[at + 1..] <==> row in table && row != table[at] {
      RemovedSorted(table, at, row);
    }
  }

  /** The cursor loop of a deletion: walks the rows of the key until the position is met. */
  method FindRow(table: seq<Row>, key: nat, position: nat) returns (at: int)
    requires Sorted(table)
    ensures -1 <= at < |table|
    ensures at >= 0 ==> table[at] == Row(key, position)
    ensures at < 0 ==> Row(key, position) !in table
  {
    var c := new Cursor(table);
    var row := c.Find(key);
    ghost var from, to := LowerBound(table, key), UpperBound(table, key);
    BoundsOrdered(table, key);
    while row.Some?
      invariant c.Valid() && c.table == table && (row.Some? ==> from <= c.at)
      invariant row == if c.at < |table| then Some(table[c.at]) else None
      invariant forall i :: from <= i < c.at && i < to ==> table[i].position != position
      decreases |table| - c.at
    {
      SkipOrTake(table, key, c.at);
      if row.value.key == key {
        if row.value.position == position {
          return c.at;
        }
      } else {
        break;
      }
      row := c.GetNext();
    }
    NotAmong(table, key, position);
    return -1;
  }

  lemma NotAmong(table: seq<Row>, key: nat, position: nat)
    requires Sorted(table)
    requires forall i :: LowerBound(table, key) <= i < UpperBound(table, key) ==> table[i].position != position
    ensures Row(key, position) !in table
  {
    forall i | 0 <= i < |table| ensures table[i] != Row(key, position) {
      LowerBoundSplits(table, key, i);
      UpperBoundSplits(table, key, i);
    }
  }
}
