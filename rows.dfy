/** The row-cleaning steps: coerce the date column, drop the rows whose
    date did not parse, and sort the survivors by date. */
module Rows {
  import opened Wrappers

  /** A cell as the CSV reader delivers it: text, or a number. */
  datatype Cell = Str(text: string) | Number(value: real)

  /** A parsed calendar date; only its order matters here. */
  type DateKey = int

  /** A row after the date column has been coerced: the parsed date (None
      where parsing failed) beside the row's cells. */
  datatype Row = Row(date: Option<DateKey>, cells: seq<Cell>)

  /** Every row carries a parsed date. */
  predicate AllDated(rows: seq<Row>)
  {
    forall k :: 0 <= k < |rows| ==> rows[k].date.Some?
  }

  /** Every row carries a parsed date and the dates never decrease. */
  predicate SortedByDate(rows: seq<Row>)
  {
    AllDated(rows) &&
    forall i, j :: 0 <= i < j < |rows| ==> rows[i].date.value <= rows[j].date.value
  }

  /** Date coercion: each raw row is paired with the parse of its cell in
      the date column; a cell that does not parse gives None. */
  function CoerceDates(rows: seq<seq<Cell>>, dateCol: nat, parse: Cell -> Option<DateKey>): (r: seq<Row>)
    requires forall k :: 0 <= k < |rows| ==> dateCol < |rows[k]|
    ensures |r| == |rows|
    ensures forall k :: 0 <= k < |rows| ==> r[k] == Row(parse(rows[k][dateCol]), rows[k])
  {
    if rows == [] then []
    else [Row(parse(rows[0][dateCol]), rows[0])] + CoerceDates(rows[1..], dateCol, parse)
  }

  /** A coerced row occurs as often as its raw row does when it carries
      that row's parsed date, and never otherwise. */
  lemma {:induction false} CoerceDatesCounts(rows: seq<seq<Cell>>, dateCol: nat, parse: Cell -> Option<DateKey>, x: Row)
    requires forall k :: 0 <= k < |rows| ==> dateCol < |rows[k]|
    ensures multiset(CoerceDates(rows, dateCol, parse))[x] ==
              if dateCol < |x.cells| && x.date == parse(x.cells[dateCol]) then multiset(rows)[x.cells] else 0
  {
    if rows != [] {
      CoerceDatesCounts(rows[1..], dateCol, parse, x);
      var head, tail := Row(parse(rows[0][dateCol]), rows[0]), CoerceDates(rows[1..], dateCol, parse);
      assert rows == [rows[0]] + rows[1..];
      assert CoerceDates(rows, dateCol, parse) == [head] + tail;
      assert multiset(rows)[x.cells] == multiset(rows[1..])[x.cells] + (if rows[0] == x.cells then 1 else 0);
      assert multiset([head] + tail)[x] == multiset(tail)[x] + (if head == x then 1 else 0);
      assert head == x <==> rows[0] == x.cells && x.date == parse(x.cells[dateCol]);
    }
  }

  /** Drops the rows whose date did not parse, keeping the others in order. */
  function DropUndated(rows: seq<Row>): (r: seq<Row>)
    ensures AllDated(r)
    ensures forall x :: x in r ==> x in rows
  {
    if rows == [] then []
    else (if rows[0].date.Some? then [rows[0]] else []) + DropUndated(rows[1..])
  }

  /** A dated row survives as often as it occurred; an undated row never does. */
  lemma {:induction false} DropUndatedCounts(rows: seq<Row>, x: Row)
    ensures multiset(DropUndated(rows))[x] == if x.date.Some? then multiset(rows)[x] else 0
  {
    if rows != [] {
      DropUndatedCounts(rows[1..], x);
      assert rows == [rows[0]] + rows[1..];
    }
  }

  /** A dated row no later than the first of a sorted sequence can be put in
      front of it. */
  lemma SortedCons(y: Row, rows: seq<Row>)
    requires y.date.Some? && SortedByDate(rows)
    requires rows != [] ==> y.date.value <= rows[0].date.value
    ensures SortedByDate([y] + rows)
  {
    var r := [y] + rows;
    forall i, j | 0 <= i < j < |r|
      ensures r[i].date.value <= r[j].date.value
    {
      if i == 0 {
        assert r[j] == rows[j - 1];
      } else {
        assert r[i] == rows[i - 1] && r[j] == rows[j - 1];
      }
    }
  }

  /** Inserts a dated row into a sorted sequence of rows. */
  function Insert(x: Row, rows: seq<Row>): (r: seq<Row>)
    requires x.date.Some? && SortedByDate(rows)
    ensures SortedByDate(r)
    ensures multiset(r) == multiset(rows) + multiset{x}
    ensures |r| == |rows| + 1
    ensures r[0] == x || (rows != [] && r[0] == rows[0])
  {
    if rows == [] || x.date.value <= rows[0].date.value then
      SortedCons(x, rows);
      [x] + rows
    else
      var rest := Insert(x, rows[1..]);
      InsertBehind(x, rows, rest);
      [rows[0]] + rest
  }

  /** The step of Insert that keeps the first row in front: inserting
      behind it keeps the rows sorted and adds exactly the new row. */
  lemma InsertBehind(x: Row, rows: seq<Row>, rest: seq<Row>)
    requires x.date.Some? && SortedByDate(rows) && rows != []
    requires rows[0].date.value < x.date.value
    requires SortedByDate(rest) && multiset(rest) == multiset(rows[1..]) + multiset{x}
    requires rest != [] && (rest[0] == x || (rows[1..] != [] && rest[0] == rows[1..][0]))
    ensures SortedByDate([rows[0]] + rest)
    ensures multiset([rows[0]] + rest) == multiset(rows) + multiset{x}
  {
    SortedCons(rows[0], rest);
    assert rows == [rows[0]] + rows[1..];
    assert multiset([rows[0]] + rest) == multiset([rows[0]]) + multiset(rest);
  }

  /** Sorts dated rows by date. Rows with equal dates come out in some
      order; nothing here depends on which. */
  function SortByDate(rows: seq<Row>): (r: seq<Row>)
    requires AllDated(rows)
    ensures SortedByDate(r)
    ensures multiset(r) == multiset(rows)
  {
    if rows == [] then []
    else
      assert rows == [rows[0]] + rows[1..];
      Insert(rows[0], SortByDate(rows[1..]))
  }

  /** Date coercion, dropping the undated rows and sorting by date, one
      after the other: every row that comes out carries one of the raw rows
      and that row's parsed date, and the rows come out in date order. */
  function Clean(rows: seq<seq<Cell>>, dateCol: nat, parse: Cell -> Option<DateKey>): (r: seq<Row>)
    requires forall k :: 0 <= k < |rows| ==> dateCol < |rows[k]|
    ensures SortedByDate(r)
    ensures forall k :: 0 <= k < |r| ==>
              r[k].cells in rows && dateCol < |r[k].cells| && r[k].date == parse(r[k].cells[dateCol])
  {
    var coerced := CoerceDates(rows, dateCol, parse);
    var dated := DropUndated(coerced);
    var sorted := SortByDate(dated);
    assert forall k :: 0 <= k < |sorted| ==>
        sorted[k].cells in rows && dateCol < |sorted[k].cells| && sorted[k].date == parse(sorted[k].cells[dateCol]) by {
      forall k | 0 <= k < |sorted|
        ensures sorted[k].cells in rows && dateCol < |sorted[k].cells| && sorted[k].date == parse(sorted[k].cells[dateCol])
      {
        assert sorted[k] in multiset(dated);
        CoercedRow(rows, dateCol, parse, sorted[k]);
      }
    }
    sorted
  }

  /** A coerced row carries one of the raw rows and that row's parse. */
  lemma CoercedRow(rows: seq<seq<Cell>>, dateCol: nat, parse: Cell -> Option<DateKey>, x: Row)
    requires forall k :: 0 <= k < |rows| ==> dateCol < |rows[k]|
    requires x in CoerceDates(rows, dateCol, parse)
    ensures x.cells in rows && dateCol < |x.cells| && x.date == parse(x.cells[dateCol])
  {
    var k :| 0 <= k < |rows| && CoerceDates(rows, dateCol, parse)[k] == x;
  }

  /** The cleaned rows are the dated rows, each as often as its raw row
      occurs: a raw row whose date parses comes out exactly as many times as
      it went in, and nothing else comes out. */
  lemma CleanCounts(rows: seq<seq<Cell>>, dateCol: nat, parse: Cell -> Option<DateKey>, x: Row)
    requires forall k :: 0 <= k < |rows| ==> dateCol < |rows[k]|
    ensures multiset(Clean(rows, dateCol, parse))[x] ==
              if x.date.Some? && dateCol < |x.cells| && x.date == parse(x.cells[dateCol])
              then multiset(rows)[x.cells] else 0
  {
    DropUndatedCounts(CoerceDates(rows, dateCol, parse), x);
    CoerceDatesCounts(rows, dateCol, parse, x);
  }

  /** A raw row whose date parses is among the cleaned rows, with its
      parsed date. */
  lemma CleanKeepsParsed(rows: seq<seq<Cell>>, dateCol: nat, parse: Cell -> Option<DateKey>, r: seq<Cell>)
    requires forall k :: 0 <= k < |rows| ==> dateCol < |rows[k]|
    requires r in rows && dateCol < |r| && parse(r[dateCol]).Some?
    ensures Row(parse(r[dateCol]), r) in Clean(rows, dateCol, parse)
  {
    CleanCounts(rows, dateCol, parse, Row(parse(r[dateCol]), r));
  }

  /** The dates of a sequence of dated rows, in order. */
  function Dates(rows: seq<Row>): (r: seq<DateKey>)
    requires AllDated(rows)
    ensures |r| == |rows|
  {
    seq(|rows|, k requires 0 <= k < |rows| => rows[k].date.value)
  }

  /** Taking one row out of a date-sorted sequence leaves it sorted. */
  lemma SortedWithout(b: seq<Row>, k: int)
    requires SortedByDate(b) && 0 <= k < |b|
    ensures SortedByDate(b[..k] + b[k + 1..])
  {
    var rest := b[..k] + b[k + 1..];
    forall i | 0 <= i < |rest|
      ensures rest[i] == b[if i < k then i else i + 1]
    {
    }
  }

  /** Two date-sorted orderings of the same non-empty rows start with the
      same date, the least one. */
  lemma SortedPermutationsStartAlike(a: seq<Row>, b: seq<Row>)
    requires SortedByDate(a) && SortedByDate(b)
    requires multiset(a) == multiset(b) && a != []
    ensures b != [] && a[0].date.value == b[0].date.value
  {
    assert a[0] in multiset(b);
    assert b[0] in multiset(a);
  }

  /** Taking out of `b` one occurrence of the first row of `a` leaves the
      rows of the rest of `a`. */
  lemma WithoutFirst(a: seq<Row>, b: seq<Row>, k: int)
    requires multiset(a) == multiset(b) && a != [] && 0 <= k < |b| && b[k] == a[0]
    ensures multiset(b[..k] + b[k + 1..]) == multiset(a[1..])
  {
    var without := b[..k] + b[k + 1..];
    assert b == b[..k] + [b[k]] + b[k + 1..];
    assert a == [a[0]] + a[1..];
    assert multiset(b) == multiset(without) + multiset{a[0]};
    assert multiset(a) == multiset(a[1..]) + multiset{a[0]};
    assert multiset(without) == multiset(b) - multiset{a[0]};
  }

  /** Any two date-sorted orderings of the same rows have the same dates
      position by position: the only freedom a sort has is the order of
      rows that share a date. */
  lemma {:induction false} SortedPermutationsShareDates(a: seq<Row>, b: seq<Row>)
    requires SortedByDate(a) && SortedByDate(b)
    requires multiset(a) == multiset(b)
    ensures Dates(a) == Dates(b)
    decreases |a|
  {
    if a == [] {
      assert |b| == |multiset(b)| == 0;
    } else {
      SortedPermutationsStartAlike(a, b);
      assert a[0] in multiset(b);
      var k :| 0 <= k < |b| && b[k] == a[0];
      var rest := b[..k] + b[k + 1..];
      WithoutFirst(a, b, k);
      SortedWithout(b, k);
      SortedPermutationsShareDates(a[1..], rest);
      assert |a| == |b| by {
        assert |a| == |multiset(a)| && |b| == |multiset(b)|;
      }
      forall i | 1 <= i < |a|
        ensures a[i].date.value == b[i].date.value
      {
        SameDateAfterRemoval(a, b, k, i);
      }
    }
  }

  /** The step of the proof above for one position `i` past the first. */
  lemma SameDateAfterRemoval(a: seq<Row>, b: seq<Row>, k: int, i: int)
    requires SortedByDate(a) && SortedByDate(b) && |a| == |b|
    requires 0 <= k < |b| && 1 <= i < |a| && b[k] == a[0] && a[0].date.value == b[0].date.value
    requires SortedByDate(a[1..]) && SortedByDate(b[..k] + b[k + 1..])
    requires Dates(a[1..]) == Dates(b[..k] + b[k + 1..])
    ensures a[i].date.value == b[i].date.value
  {
    var rest := b[..k] + b[k + 1..];
    assert a[i].date.value == Dates(a[1..])[i - 1] == Dates(rest)[i - 1];
    if i <= k {
      assert rest[i - 1] == b[i - 1];
      var d := a[0].date.value;
      assert d <= b[i - 1].date.value;
      assert b[i].date.value <= b[k].date.value;
    } else {
      assert rest[i - 1] == b[i];
    }
  }
}
