/**
 One table of a value index: rows ordered by an unsigned key and then by position, read through a cursor.

 The cursor stands for the key/value store: `Find` and `FindRange` position it, `GetNext` on a new cursor gives the
 first row, and `GetPrev` after a `FindRange` that found nothing gives the last.
 */
module IndexTable {
  import opened Common

  datatype Row = Row(key: nat, position: nat)

  predicate Before(a: Row, b: Row) {
    a.key < b.key || (a.key == b.key && a.position < b.position)
  }

  ghost predicate InOrder(table: seq<Row>, i: nat, j: nat) {
    i < j < |table| ==> Before(table[i], table[j])
  }

  ghost predicate Sorted(table: seq<Row>) {
    forall i, j :: InOrder(table, i, j)
  }

  lemma SortedTail(table: seq<Row>)
    requires Sorted(table) && table != []
    ensures Sorted(table[1..])
  {
    forall i: nat, j: nat ensures InOrder(table[1..], i, j) {
      assert InOrder(table, i + 1, j + 1);
    }
  }

  /** The first row whose key is at least `key`. */
  function LowerBound(table: seq<Row>, key: nat): (n: nat)
    ensures n <= |table|
  {
    if table == [] || table[0].key >= key then 0 else 1 + LowerBound(table[1..], key)
  }

  lemma {:induction false} LowerBoundSplits(table: seq<Row>, key: nat, i: nat)
    requires Sorted(table) && i < |table|
    ensures i < LowerBound(table, key) <==> table[i].key < key
  {
    if i > 0 {
      assert InOrder(table, 0, i);
      SortedTail(table);
      LowerBoundSplits(table[1..], key, i - 1);
    }
  }

  lemma LowerBoundIs(table: seq<Row>, key: nat, n: nat)
    requires Sorted(table) && n <= |table|
    requires n > 0 ==> table[n - 1].key < key
    requires n < |table| ==> table[n].key >= key
    ensures LowerBound(table, key) == n
  {
    if n > 0 {
      LowerBoundSplits(table, key, n - 1);
    }
    if n < |table| {
      LowerBoundSplits(table, key, n);
    }
  }

  /** The first row whose key is above `key`. */
  function UpperBound(table: seq<Row>, key: nat): (n: nat)
    ensures n <= |table|
  {
    if table == [] || table[0].key > key then 0 else 1 + UpperBound(table[1..], key)
  }

  lemma {:induction false} UpperBoundSplits(table: seq<Row>, key: nat, i: nat)
    requires Sorted(table) && i < |table|
    ensures i < UpperBound(table, key) <==> table[i].key <= key
  {
    if i > 0 {
      assert InOrder(table, 0, i);
      SortedTail(table);
      UpperBoundSplits(table[1..], key, i - 1);
    }
  }

  /** Where a scan ends that has seen rows up to the key and then a higher one. */
  lemma UpperBoundIs(table: seq<Row>, key: nat, n: nat)
    requires Sorted(table) && n <= |table|
    requires n > 0 ==> table[n - 1].key <= key
    requires n < |table| ==> table[n].key > key
    ensures UpperBound(table, key) == n
  {
    if n > 0 {
      UpperBoundSplits(table, key, n - 1);
    }
    if n < |table| {
      UpperBoundSplits(table, key, n);
    }
  }

  lemma BoundsOrdered(table: seq<Row>, key: nat)
    requires Sorted(table)
    ensures LowerBound(table, key) <= UpperBound(table, key)
  {
    var n := LowerBound(table, key);
    if n > 0 {
      LowerBoundSplits(table, key, n - 1);
      UpperBoundSplits(table, key, n - 1);
    }
  }

  class Cursor {
    const table: seq<Row>
    /** -1 for a new cursor, the length of the table past its end. */
    var at: int

    ghost predicate Valid()
      reads this
    {
      Sorted(table) && -1 <= at <= |table|
    }

    constructor (table: seq<Row>)
      requires Sorted(table)
      ensures Valid() && this.table == table && at == -1
    {
      this.table := table;
      at := -1;
    }

    method FindRange(key: nat) returns (r: Option<Row>)
      requires Valid()
      modifies this
      ensures Valid() && at == LowerBound(table, key)
      ensures r == if at < |table| then Some(table[at]) else None
    {
      at := 0;
      while at < |table| && table[at].key < key
        invariant 0 <= at <= |table| && (at > 0 ==> table[at - 1].key < key)
        decreases |table| - at
      {
        at := at + 1;
      }
      LowerBoundIs(table, key, at);
      return if at < |table| then Some(table[at]) else None;
    }

    method Find(key: nat) returns (r: Option<Row>)
      requires Valid()
      modifies this
      ensures Valid() && 0 <= at && r == if at < |table| then Some(table[at]) else None
      ensures r.Some? ==> at == LowerBound(table, key) && r.value.key == key
      ensures r.None? ==> LowerBound(table, key) == UpperBound(table, key)
    {
      r := FindRange(key);
      if at < |table| && table[at].key == key {
        return;
      }
      NoRows(table, key);
      at := |table|;
      return None;
    }

    method GetNext() returns (r: Option<Row>)
      requires Valid()
      modifies this
      ensures Valid() && at == if old(at) < |table| then old(at) + 1 else |table|
      ensures r == if at < |table| then Some(table[at]) else None
    {
      if at < |table| {
        at := at + 1;
      }
      return if at < |table| then Some(table[at]) else None;
    }

    method GetPrev() returns (r: Option<Row>)
      requires Valid() && at >= 0
      modifies this
      ensures Valid() && at == old(at) - 1
      ensures r == if at >= 0 then Some(table[at]) else None
    {
      at := at - 1;
      return if at >= 0 then Some(table[at]) else None;
    }
  }

  // Scans.

  /** The rows from the key up to above it. */
  function RowsAt(table: seq<Row>, key: nat): seq<Row>
    requires Sorted(table)
  {
    BoundsOrdered(table, key);
    table[LowerBound(table, key)..UpperBound(table, key)]
  }

  /** All rows with the key. */
  method ExactMatch(c: Cursor, key: nat) returns (rows: seq<Row>)
    requires c.Valid()
    modifies c
    ensures c.Valid() && rows == RowsAt(c.table, key)
  {
    BoundsOrdered(c.table, key);
    rows := [];
    ghost var from := LowerBound(c.table, key);
    var row := c.Find(key);
    if row.None? {
      return;
    }
    while row.Some? && row.value.key == key
      invariant c.Valid() && from <= c.at <= |c.table| && (c.at == from ==> row.Some? && row.value.key == key)
      invariant row == if c.at < |c.table| then Some(c.table[c.at]) else None
      invariant rows == c.table[from..c.at] && (c.at > from ==> c.table[c.at - 1].key == key)
      decreases |c.table| - c.at
    {
      rows := rows + [row.value];
      row := c.GetNext();
    }
    ScanEnds(c.table, key, from, c.at);
  }

  lemma NoRows(table: seq<Row>, key: nat)
    requires Sorted(table)
    requires LowerBound(table, key) < |table| ==> table[LowerBound(table, key)].key != key
    ensures LowerBound(table, key) == UpperBound(table, key)
  {
    var n := LowerBound(table, key);
    if n > 0 {
      LowerBoundSplits(table, key, n - 1);
    }
    if n < |table| {
      LowerBoundSplits(table, key, n);
    }
    UpperBoundIs(table, key, n);
  }

  lemma ScanEnds(table: seq<Row>, key: nat, from: nat, n: nat)
    requires Sorted(table) && from < n <= |table| && table[n - 1].key == key
    requires n < |table| ==> table[n].key != key
    ensures UpperBound(table, key) == n
  {
    assert InOrder(table, n - 1, n);
    UpperBoundIs(table, key, n);
  }

  method FullScan(c: Cursor) returns (rows: seq<Row>)
    requires c.Valid() && c.at == -1
    modifies c
    ensures c.Valid() && rows == c.table
  {
    rows := [];
    var row := c.GetNext();
    while row.Some?
      invariant c.Valid() && 0 <= c.at && row == if c.at < |c.table| then Some(c.table[c.at]) else None
      invariant rows == c.table[..c.at]
      decreases |c.table| - c.at
    {
      rows := rows + [row.value];
      row := c.GetNext();
    }
  }

  function Reversed(rows: seq<Row>): seq<Row> {
    if rows == [] then [] else [rows[|rows| - 1]] + Reversed(rows[..|rows| - 1])
  }

  /** The rows below the key, highest first, after those with the key when they are wanted. */
  method BackwardSearch(c: Cursor, key: nat, inclusive: bool) returns (rows: seq<Row>)
    requires c.Valid()
    modifies c
    ensures c.Valid()
    ensures rows == (if inclusive then RowsAt(c.table, key) else []) + Reversed(c.table[..LowerBound(c.table, key)])
  {
    rows := [];
    if inclusive {
      rows := ExactMatch(c, key);
    }
    ghost var first := rows;
    ghost var from := LowerBound(c.table, key);
    var _ := c.FindRange(key);
    var row := c.GetPrev();
    while row.Some?
      invariant c.Valid() && c.at < from && row == if c.at >= 0 then Some(c.table[c.at]) else None
      invariant rows + Reversed(c.table[..c.at + 1]) == first + Reversed(c.table[..from])
      decreases c.at
    {
      assert c.table[..c.at + 1][..c.at] == c.table[..c.at];
      rows := rows + [row.value];
      row := c.GetPrev();
    }
  }

  /** The rows from `a` up to `b`, none if that is before `a`. */
  function Slice(table: seq<Row>, a: nat, b: nat): seq<Row>
    requires b <= |table|
  {
    if a <= b then table[a..b] else []
  }

  lemma SliceGrows(table: seq<Row>, a: nat, b: nat)
    requires b < |table|
    ensures Slice(table, a, b + 1) == if a <= b then Slice(table, a, b) + [table[b]] else []
  {
  }

  /** Where a forward scan starts to collect. */
  function StartOf(table: seq<Row>, key: nat, inclusive: bool): (n: nat)
    ensures n <= |table|
  {
    if inclusive then LowerBound(table, key) else UpperBound(table, key)
  }

  /** Rows at the key itself come first and are skipped when they are not wanted. */
  lemma SkipOrTake(table: seq<Row>, key: nat, i: nat)
    requires Sorted(table) && LowerBound(table, key) <= i < |table|
    ensures i < UpperBound(table, key) <==> table[i].key == key
  {
    LowerBoundSplits(table, key, i);
    UpperBoundSplits(table, key, i);
  }

  /** The rows above the key, with those at the key when they are wanted. */
  method ForwardSearch(c: Cursor, key: nat, inclusive: bool) returns (rows: seq<Row>)
    requires c.Valid()
    modifies c
    ensures c.Valid() && rows == c.table[StartOf(c.table, key, inclusive)..]
  {
    BoundsOrdered(c.table, key);
    rows := [];
    var wanted := inclusive;
    var row := c.FindRange(key);
    ghost var start := StartOf(c.table, key, inclusive);
    while row.Some?
      invariant c.Valid() && LowerBound(c.table, key) <= c.at
      invariant row == if c.at < |c.table| then Some(c.table[c.at]) else None
      invariant rows == Slice(c.table, start, c.at) && (wanted ==> start <= c.at)
      invariant !wanted ==> !inclusive && c.at <= start
      decreases |c.table| - c.at
    {
      SkipOrTake(c.table, key, c.at);
      SliceGrows(c.table, start, c.at);
      if !wanted && row.value.key == key {
        row := c.GetNext();
      } else {
        wanted := true;
        rows := rows + [row.value];
        row := c.GetNext();
      }
    }
  }

  // What the scans collect.

  ghost predicate NoRepeats(rows: seq<Row>) {
    forall i, j :: 0 <= i < j < |rows| ==> rows[i] != rows[j]
  }

  lemma {:induction false} ReversedRows(rows: seq<Row>, row: Row)
    requires NoRepeats(rows)
    ensures row in Reversed(rows) <==> row in rows
    ensures NoRepeats(Reversed(rows))
  {
    if rows != [] {
      var n := |rows| - 1;
      ReversedRows(rows[..n], row);
      ReversedRows(rows[..n], rows[n]);
      assert rows == rows[..n] + [rows[n]];
    }
  }

  lemma SliceRows(table: seq<Row>, a: nat, b: nat)
    requires Sorted(table) && b <= |table|
    ensures NoRepeats(Slice(table, a, b))
  {
    if a <= b {
      forall i, j | 0 <= i < j < b - a ensures table[a..b][i] != table[a..b][j] {
        assert InOrder(table, a + i, a + j);
      }
    }
  }

  lemma RowsAtAre(table: seq<Row>, key: nat, row: Row)
    requires Sorted(table)
    ensures row in RowsAt(table, key) <==> row in table && row.key == key
    ensures NoRepeats(RowsAt(table, key))
  {
    BoundsOrdered(table, key);
    SliceRows(table, LowerBound(table, key), UpperBound(table, key));
    forall i | 0 <= i < |table|
      ensures LowerBound(table, key) <= i < UpperBound(table, key) <==> table[i].key == key
    {
      LowerBoundSplits(table, key, i);
      UpperBoundSplits(table, key, i);
    }
    SliceHas(table, LowerBound(table, key), UpperBound(table, key), row);
  }

  lemma SliceHas(table: seq<Row>, a: nat, b: nat, row: Row)
    requires b <= |table|
    ensures row in Slice(table, a, b) <==> exists i :: a <= i < b && table[i] == row
  {
    if row in Slice(table, a, b) {
      var j :| 0 <= j < b - a && table[a..b][j] == row;
      assert table[a + j] == row;
    }
    if i :| a <= i < b && table[i] == row {
      assert table[a..b][i - a] == row;
    }
  }

  lemma RowsBelowAre(table: seq<Row>, key: nat, row: Row)
    requires Sorted(table)
    ensures row in Reversed(table[..LowerBound(table, key)]) <==> row in table && row.key < key
    ensures NoRepeats(Reversed(table[..LowerBound(table, key)]))
  {
    var n := LowerBound(table, key);
    SliceRows(table, 0, n);
    ReversedRows(table[..n], row);
    forall i | 0 <= i < |table| ensures i < n <==> table[i].key < key {
      LowerBoundSplits(table, key, i);
    }
    SliceHas(table, 0, n, row);
  }

  lemma RowsAboveAre(table: seq<Row>, key: nat, inclusive: bool, row: Row)
    requires Sorted(table)
    ensures row in table[StartOf(table, key, inclusive)..] <==>
              row in table && (row.key > key || (inclusive && row.key == key))
    ensures NoRepeats(table[StartOf(table, key, inclusive)..])
  {
    var n := StartOf(table, key, inclusive);
    SliceRows(table, n, |table|);
    forall i | 0 <= i < |table| ensures i >= n <==> table[i].key > key || (inclusive && table[i].key == key) {
      LowerBoundSplits(table, key, i);
      UpperBoundSplits(table, key, i);
    }
    SliceHas(table, n, |table|, row);
  }

  // Changing a table.

  /** The table with one more row in its place. */
  function Inserted(table: seq<Row>, row: Row): seq<Row> {
    if table == [] || Before(row, table[0]) then [row] + table
    else if table[0] == row then table
    else [table[0]] + Inserted(table[1..], row)
  }

  lemma {:induction false} InsertedRows(table: seq<Row>, row: Row, other: Row)
    ensures other in Inserted(table, row) <==> other in table || other == row
  {
    if table != [] && !Before(row, table[0]) && table[0] != row {
      InsertedRows(table[1..], row, other);
    }
  }

  ghost predicate AllAfter(table: seq<Row>, row: Row) {
    forall other :: other in table ==> Before(row, other)
  }

  lemma SortedHead(table: seq<Row>)
    requires Sorted(table) && table != []
    ensures AllAfter(table[1..], table[0])
  {
    forall other | other in table[1..] ensures Before(table[0], other) {
      var i :| 0 <= i < |table[1..]| && table[1..][i] == other;
      assert InOrder(table, 0, i + 1);
    }
  }

  lemma SortedCons(row: Row, table: seq<Row>)
    requires Sorted(table) && AllAfter(table, row)
    ensures Sorted([row] + table)
  {
    forall i: nat, j: nat ensures InOrder([row] + table, i, j) {
      if 0 < i < j <= |table| {
        assert InOrder(table, i - 1, j - 1);
      } else if i == 0 < j <= |table| {
        assert table[j - 1] in table;
      }
    }
  }

  lemma {:induction false} InsertedSorted(table: seq<Row>, row: Row)
    requires Sorted(table)
    ensures Sorted(Inserted(table, row))
  {
    if table == [] {
      SortedCons(row, table);
    } else if Before(row, table[0]) {
      SortedHead(table);
      assert table == [table[0]] + table[1..];
      SortedCons(row, table);
    } else if table[0] != row {
      SortedHead(table);
      SortedTail(table);
      InsertedSorted(table[1..], row);
      forall other | other in Inserted(table[1..], row) ensures Before(table[0], other) {
        InsertedRows(table[1..], row, other);
      }
      SortedCons(table[0], Inserted(table[1..], row));
    }
  }

  lemma RemovedSorted(table: seq<Row>, n: nat, other: Row)
    requires Sorted(table) && n < |table|
    ensures Sorted(table[..n] + table[n + 1..])
    ensures other in table[..n] + table[n + 1..] <==> other in table && other != table[n]
  {
    var rest := table[..n] + table[n + 1..];
    forall i: nat, j: nat ensures InOrder(rest, i, j) {
      var a, b := if i < n then i else i + 1, if j < n then j else j + 1;
      assert InOrder(table, a, b);
    }
    if other in rest {
      var i :| 0 <= i < |rest| && rest[i] == other;
      assert InOrder(table, i, n) && InOrder(table, n, i + 1);
    }
    if other in table && other != table[n] {
      var i :| 0 <= i < |table| && table[i] == other;
      assert rest[if i < n then i else i - 1] == other;
    }
  }
}
