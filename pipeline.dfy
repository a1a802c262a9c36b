/** The cleaning and derivation pipeline end to end: rename the headers,
    coerce and filter the date column, sort by date, then derive the price
    ratios and the running total. */
module Pipeline {
  import opened Wrappers
  import opened ColumnRename
  import opened Rows
  import opened Metrics

  /** The table as the CSV reader delivers it: headers and rows of cells. */
  datatype Table = Table(columns: seq<string>, rows: seq<seq<Cell>>)

  /** Every row has one cell per header. */
  predicate Rectangular(t: Table)
  {
    forall r :: r in t.rows ==> |r| == |t.columns|
  }

  /** Headers `a` and `b` are not both recognised as the same column. */
  predicate DistinctTargets(a: string, b: string)
  {
    Classify(a).None? || Classify(a) != Classify(b)
  }

  /** No two headers are recognised as the same semantic column. */
  predicate OneColumnPerTarget(columns: seq<string>)
  {
    forall i, j :: 0 <= i < j < |columns| ==> DistinctTargets(columns[i], columns[j])
  }

  /** Some header is recognised as column `target`. */
  predicate HasColumn(columns: seq<string>, target: Target)
  {
    exists i :: 0 <= i < |columns| && Classify(columns[i]) == Some(target)
  }

  /** Column lookup by name: the position of the first header equal to
      `name`, or None when there is none. */
  function IndexOf(columns: seq<string>, name: string): (r: Option<nat>)
    ensures r.None? <==> name !in columns
    ensures r.Some? ==> r.value < |columns| && columns[r.value] == name &&
                        forall j :: 0 <= j < r.value ==> columns[j] != name
  {
    if columns == [] then None
    else if columns[0] == name then Some(0)
    else
      match IndexOf(columns[1..], name)
      case None => None
      case Some(i) => Some(i + 1)
  }

  /** The position of semantic column `target` after the rename step. */
  function ColumnOf(columns: seq<string>, target: Target): Option<nat>
  {
    IndexOf(NormalizeHeaders(columns), TargetName(target))
  }

  /** Looking up a canonical name after the rename finds a header that was
      recognised as that column, and finds nothing exactly when no header
      was; with one header per column it finds that header. */
  lemma ColumnOfFindsTarget(columns: seq<string>, target: Target)
    ensures ColumnOf(columns, target).None? <==> !HasColumn(columns, target)
    ensures ColumnOf(columns, target).Some? ==>
              ColumnOf(columns, target).value < |columns| &&
              Classify(columns[ColumnOf(columns, target).value]) == Some(target)
    ensures OneColumnPerTarget(columns) ==>
              forall i :: 0 <= i < |columns| && Classify(columns[i]) == Some(target) ==>
                ColumnOf(columns, target) == Some(i)
  {
    var renamed := NormalizeHeaders(columns);
    forall i | 0 <= i < |columns|
      ensures renamed[i] == TargetName(target) <==> Classify(columns[i]) == Some(target)
    {
      NormalizedIsTarget(columns, i, target);
    }
    if OneColumnPerTarget(columns) {
      forall i | 0 <= i < |columns| && Classify(columns[i]) == Some(target)
        ensures ColumnOf(columns, target) == Some(i)
      {
      }
    }
  }

  /** The rename step applied to the table: the rows stay as they are. */
  function RenameTable(t: Table): (r: Table)
    ensures Rectangular(t) ==> Rectangular(r)
  {
    Table(NormalizeHeaders(t.columns), t.rows)
  }

  /** The steps after the rename: coerce the date column, drop the rows
      whose date did not parse and sort by date; then derive the price per
      dozen, the price per donut and the running total. A missing date
      column stops it at the coercion; a missing price or dozens column
      stops it at the first ratio, the price column being looked up first. */
  function Process(t: Table, parse: Cell -> Option<DateKey>): Result<seq<OutputRow>, Error>
    requires Rectangular(t)
  {
    match IndexOf(t.columns, "Date")
    case None => Err(KeyError("Date"))
    case Some(dateCol) =>
      var cleaned := Clean(t.rows, dateCol, parse);
      match IndexOf(t.columns, "TotalPrice")
      case None => Err(KeyError("TotalPrice"))
      case Some(totalCol) =>
        match IndexOf(t.columns, "Dozens")
        case None => Err(KeyError("Dozens"))
        case Some(dozensCol) => Derive(cleaned, dozensCol, totalCol)
  }

  /** The whole pipeline: the rename step, then the remaining steps on the
      renamed table. */
  function Run(t: Table, parse: Cell -> Option<DateKey>): Result<seq<OutputRow>, Error>
    requires Rectangular(t)
    requires OneColumnPerTarget(t.columns)
  {
    Process(RenameTable(t), parse)
  }

  /** When the table has all three columns, processing derives the metrics
      from the cleaned rows, looked up at those columns. */
  lemma ProcessDerives(t: Table, parse: Cell -> Option<DateKey>, dateCol: nat, dozensCol: nat, totalCol: nat)
    requires Rectangular(t)
    requires IndexOf(t.columns, "Date") == Some(dateCol)
    requires IndexOf(t.columns, "Dozens") == Some(dozensCol)
    requires IndexOf(t.columns, "TotalPrice") == Some(totalCol)
    ensures forall k :: 0 <= k < |Clean(t.rows, dateCol, parse)| ==>
              |Clean(t.rows, dateCol, parse)[k].cells| == |t.columns|
    ensures Process(t, parse) == Derive(Clean(t.rows, dateCol, parse), dozensCol, totalCol)
  {
  }

  /** Which column processing reports missing: the date column first, then
      the price column, then the dozens column; with all three present it
      can only fail on the arithmetic. */
  lemma ProcessMissingColumn(t: Table, parse: Cell -> Option<DateKey>)
    requires Rectangular(t)
    ensures Process(t, parse) == Err(KeyError("Date")) <==> "Date" !in t.columns
    ensures Process(t, parse) == Err(KeyError("TotalPrice")) <==>
              "Date" in t.columns && "TotalPrice" !in t.columns
    ensures Process(t, parse) == Err(KeyError("Dozens")) <==>
              "Date" in t.columns && "TotalPrice" in t.columns && "Dozens" !in t.columns
  {
    if "Date" in t.columns && "TotalPrice" in t.columns && "Dozens" in t.columns {
      var dateCol := IndexOf(t.columns, "Date").value;
      var dozensCol := IndexOf(t.columns, "Dozens").value;
      var totalCol := IndexOf(t.columns, "TotalPrice").value;
      ProcessDerives(t, parse, dateCol, dozensCol, totalCol);
      DeriveFails(Clean(t.rows, dateCol, parse), dozensCol, totalCol);
    }
  }

  /** After the rename, the canonical name of a column is among the headers
      exactly when some original header was recognised as that column; with
      one header per column it sits at that header's position. */
  lemma RenamedHasColumn(columns: seq<string>, target: Target)
    ensures TargetName(target) in NormalizeHeaders(columns) <==> HasColumn(columns, target)
  {
    ColumnOfFindsTarget(columns, target);
  }

  /** With at most one header per target, the renamed header is found at
      the position of the header recognised as that target. */
  lemma RenamedColumnAt(columns: seq<string>, target: Target, i: nat)
    requires OneColumnPerTarget(columns)
    requires i < |columns| && Classify(columns[i]) == Some(target)
    ensures IndexOf(NormalizeHeaders(columns), TargetName(target)) == Some(i)
  {
    ColumnOfFindsTarget(columns, target);
  }

  /** The three canonical names after the rename, each present exactly
      when some header was recognised as that column. */
  lemma RenamedHasColumns(columns: seq<string>)
    ensures ("Date" in NormalizeHeaders(columns)) == HasColumn(columns, Date)
    ensures ("TotalPrice" in NormalizeHeaders(columns)) == HasColumn(columns, TotalPrice)
    ensures ("Dozens" in NormalizeHeaders(columns)) == HasColumn(columns, Dozens)
  {
    RenamedHasColumn(columns, Date);
    RenamedHasColumn(columns, TotalPrice);
    RenamedHasColumn(columns, Dozens);
  }

  /** The three canonical names after the rename, each found at the
      position of the header recognised as that column. */
  lemma RenamedColumnsAt(columns: seq<string>, dateCol: nat, dozensCol: nat, totalCol: nat)
    requires OneColumnPerTarget(columns)
    requires dateCol < |columns| && Classify(columns[dateCol]) == Some(Date)
    requires dozensCol < |columns| && Classify(columns[dozensCol]) == Some(Dozens)
    requires totalCol < |columns| && Classify(columns[totalCol]) == Some(TotalPrice)
    ensures IndexOf(NormalizeHeaders(columns), "Date") == Some(dateCol)
    ensures IndexOf(NormalizeHeaders(columns), "Dozens") == Some(dozensCol)
    ensures IndexOf(NormalizeHeaders(columns), "TotalPrice") == Some(totalCol)
  {
    RenamedColumnAt(columns, Date, dateCol);
    RenamedColumnAt(columns, Dozens, dozensCol);
    RenamedColumnAt(columns, TotalPrice, totalCol);
  }

  /** Which column the pipeline reports missing: the date column when no
      header is recognised as the date; otherwise the price column when no
      header is recognised as the price; otherwise the dozens column when no
      header is recognised as the dozens. */
  lemma RunMissingColumn(t: Table, parse: Cell -> Option<DateKey>)
    requires Rectangular(t) && OneColumnPerTarget(t.columns)
    ensures Run(t, parse) == Err(KeyError("Date")) <==> !HasColumn(t.columns, Date)
    ensures Run(t, parse) == Err(KeyError("TotalPrice")) <==>
              HasColumn(t.columns, Date) && !HasColumn(t.columns, TotalPrice)
    ensures Run(t, parse) == Err(KeyError("Dozens")) <==>
              HasColumn(t.columns, Date) && HasColumn(t.columns, TotalPrice) && !HasColumn(t.columns, Dozens)
  {
    ProcessMissingColumn(RenameTable(t), parse);
    RenamedHasColumns(t.columns);
  }

  /** With the columns recognised at the given positions, the renamed table
      has them there, and a run derives the metrics from the cleaned rows. */
  lemma RunDerives(t: Table, parse: Cell -> Option<DateKey>, dateCol: nat, dozensCol: nat, totalCol: nat)
    requires Rectangular(t) && OneColumnPerTarget(t.columns)
    requires dateCol < |t.columns| && Classify(t.columns[dateCol]) == Some(Date)
    requires dozensCol < |t.columns| && Classify(t.columns[dozensCol]) == Some(Dozens)
    requires totalCol < |t.columns| && Classify(t.columns[totalCol]) == Some(TotalPrice)
    ensures forall k :: 0 <= k < |Clean(t.rows, dateCol, parse)| ==>
              |Clean(t.rows, dateCol, parse)[k].cells| == |t.columns|
    ensures Run(t, parse) == Derive(Clean(t.rows, dateCol, parse), dozensCol, totalCol)
  {
    RenamedColumnsAt(t.columns, dateCol, dozensCol, totalCol);
    ProcessDerives(RenameTable(t), parse, dateCol, dozensCol, totalCol);
  }

  /** A successful run found all three columns. */
  lemma RunOkHasColumns(t: Table, parse: Cell -> Option<DateKey>) returns (dateCol: nat, dozensCol: nat, totalCol: nat)
    requires Rectangular(t) && OneColumnPerTarget(t.columns)
    requires Run(t, parse).Ok?
    ensures dateCol < |t.columns| && Classify(t.columns[dateCol]) == Some(Date)
    ensures dozensCol < |t.columns| && Classify(t.columns[dozensCol]) == Some(Dozens)
    ensures totalCol < |t.columns| && Classify(t.columns[totalCol]) == Some(TotalPrice)
  {
    RunMissingColumn(t, parse);
    dateCol :| 0 <= dateCol < |t.columns| && Classify(t.columns[dateCol]) == Some(Date);
    dozensCol :| 0 <= dozensCol < |t.columns| && Classify(t.columns[dozensCol]) == Some(Dozens);
    totalCol :| 0 <= totalCol < |t.columns| && Classify(t.columns[totalCol]) == Some(TotalPrice);
  }

  /** Derivation on the cleaned rows fails exactly when some raw row whose
      date parses holds text in the dozens or the price column. */
  lemma CleanedDeriveFails(rows: seq<seq<Cell>>, width: nat, parse: Cell -> Option<DateKey>,
                           dateCol: nat, dozensCol: nat, totalCol: nat)
    requires forall r :: r in rows ==> |r| == width
    requires dateCol < width && dozensCol < width && totalCol < width
    ensures forall k :: 0 <= k < |Clean(rows, dateCol, parse)| ==>
              |Clean(rows, dateCol, parse)[k].cells| == width
    ensures Derive(Clean(rows, dateCol, parse), dozensCol, totalCol).Err? <==>
              exists r: seq<Cell> :: r in rows && parse(r[dateCol]).Some? && (r[dozensCol].Str? || r[totalCol].Str?)
  {
    CleanedWidth(rows, width, parse, dateCol);
    CleanedTextCell(rows, width, parse, dateCol, dozensCol, totalCol);
    DeriveFails(Clean(rows, dateCol, parse), dozensCol, totalCol);
  }

  /** The cleaned rows keep the width of the table. */
  lemma CleanedWidth(rows: seq<seq<Cell>>, width: nat, parse: Cell -> Option<DateKey>, dateCol: nat)
    requires forall r :: r in rows ==> |r| == width
    requires dateCol < width
    ensures forall k :: 0 <= k < |Clean(rows, dateCol, parse)| ==>
              |Clean(rows, dateCol, parse)[k].cells| == width
  {
  }

  /** Some cleaned row holds text in the dozens or the price column exactly
      when some raw row whose date parses does. */
  lemma CleanedTextCell(rows: seq<seq<Cell>>, width: nat, parse: Cell -> Option<DateKey>,
                        dateCol: nat, dozensCol: nat, totalCol: nat)
    requires forall r :: r in rows ==> |r| == width
    requires dateCol < width && dozensCol < width && totalCol < width
    requires forall k :: 0 <= k < |Clean(rows, dateCol, parse)| ==>
               |Clean(rows, dateCol, parse)[k].cells| == width
    ensures (exists k :: 0 <= k < |Clean(rows, dateCol, parse)| &&
               (Clean(rows, dateCol, parse)[k].cells[dozensCol].Str? ||
                Clean(rows, dateCol, parse)[k].cells[totalCol].Str?)) <==>
            exists r: seq<Cell> :: r in rows && parse(r[dateCol]).Some? && (r[dozensCol].Str? || r[totalCol].Str?)
  {
    var cleaned := Clean(rows, dateCol, parse);
    if exists r: seq<Cell> :: r in rows && parse(r[dateCol]).Some? && (r[dozensCol].Str? || r[totalCol].Str?) {
      var r: seq<Cell> :| r in rows && parse(r[dateCol]).Some? && (r[dozensCol].Str? || r[totalCol].Str?);
      CleanKeepsParsed(rows, dateCol, parse, r);
      var k :| 0 <= k < |cleaned| && cleaned[k] == Row(parse(r[dateCol]), r);
    }
  }

  /** With all three columns present, the pipeline fails on the arithmetic
      exactly when some row whose date parses holds text in the dozens or
      the price column. */
  lemma RunTypeError(t: Table, parse: Cell -> Option<DateKey>, dateCol: nat, dozensCol: nat, totalCol: nat)
    requires Rectangular(t) && OneColumnPerTarget(t.columns)
    requires dateCol < |t.columns| && Classify(t.columns[dateCol]) == Some(Date)
    requires dozensCol < |t.columns| && Classify(t.columns[dozensCol]) == Some(Dozens)
    requires totalCol < |t.columns| && Classify(t.columns[totalCol]) == Some(TotalPrice)
    ensures Run(t, parse) == Err(TypeError) <==>
              exists r: seq<Cell> :: r in t.rows && parse(r[dateCol]).Some? && (r[dozensCol].Str? || r[totalCol].Str?)
  {
    RunDerives(t, parse, dateCol, dozensCol, totalCol);
    CleanedDeriveFails(t.rows, |t.columns|, parse, dateCol, dozensCol, totalCol);
    DeriveFails(Clean(t.rows, dateCol, parse), dozensCol, totalCol);
  }

  /** Derivation on the cleaned rows, when it succeeds, yields the rows whose
      date parses in date order, each as often as it occurs in the input,
      with the numbers of its dozens and price cells. */
  lemma CleanedDeriveRows(rows: seq<seq<Cell>>, width: nat, parse: Cell -> Option<DateKey>,
                          dateCol: nat, dozensCol: nat, totalCol: nat, out: seq<OutputRow>)
    requires forall r :: r in rows ==> |r| == width
    requires dateCol < width && dozensCol < width && totalCol < width
    requires forall k :: 0 <= k < |Clean(rows, dateCol, parse)| ==>
               |Clean(rows, dateCol, parse)[k].cells| == width
    requires Derive(Clean(rows, dateCol, parse), dozensCol, totalCol) == Ok(out)
    ensures forall i, j :: 0 <= i < j < |out| ==> out[i].date <= out[j].date
    ensures forall x :: multiset(SourceRows(out))[x] ==
              if x.date.Some? && dateCol < |x.cells| && x.date == parse(x.cells[dateCol])
              then multiset(rows)[x.cells] else 0
    ensures forall k :: 0 <= k < |out| ==>
              |out[k].cells| == width &&
              parse(out[k].cells[dateCol]) == Some(out[k].date) &&
              out[k].cells[dozensCol] == Number(out[k].dozens) &&
              out[k].cells[totalCol] == Number(out[k].totalPrice)
  {
    var cleaned := Clean(rows, dateCol, parse);
    DeriveKeepsRows(cleaned, dozensCol, totalCol, out);
    CleanedSourceRows(rows, width, parse, dateCol, out);
    SourceRowsAt(out, cleaned);
  }

  /** The order, the counts and the dates of CleanedDeriveRows, from the
      rows a derivation keeps. */
  lemma CleanedSourceRows(rows: seq<seq<Cell>>, width: nat, parse: Cell -> Option<DateKey>,
                          dateCol: nat, out: seq<OutputRow>)
    requires forall k :: 0 <= k < |rows| ==> dateCol < |rows[k]|
    requires dateCol < width
    requires forall k :: 0 <= k < |Clean(rows, dateCol, parse)| ==>
               |Clean(rows, dateCol, parse)[k].cells| == width
    requires SourceRows(out) == Clean(rows, dateCol, parse)
    ensures forall i, j :: 0 <= i < j < |out| ==> out[i].date <= out[j].date
    ensures forall x :: multiset(SourceRows(out))[x] ==
              if x.date.Some? && dateCol < |x.cells| && x.date == parse(x.cells[dateCol])
              then multiset(rows)[x.cells] else 0
    ensures forall k :: 0 <= k < |out| ==>
              |out[k].cells| == width && parse(out[k].cells[dateCol]) == Some(out[k].date)
  {
    var cleaned := Clean(rows, dateCol, parse);
    SourceRowsOrder(out, cleaned);
    SourceRowsCounts(rows, parse, dateCol, out);
    SourceRowsAt(out, cleaned);
  }

  /** Each output row carries the date and the cells of the row it came
      from. */
  lemma SourceRowsAt(out: seq<OutputRow>, rows: seq<Row>)
    requires SourceRows(out) == rows
    ensures |out| == |rows|
    ensures forall k :: 0 <= k < |out| ==> rows[k] == Row(Some(out[k].date), out[k].cells)
  {
    forall k | 0 <= k < |out|
      ensures rows[k] == Row(Some(out[k].date), out[k].cells)
    {
      assert SourceRows(out)[k] == rows[k];
    }
  }

  /** Output rows taken from date-sorted rows are in date order. */
  lemma SourceRowsOrder(out: seq<OutputRow>, rows: seq<Row>)
    requires SortedByDate(rows) && SourceRows(out) == rows
    ensures forall i, j :: 0 <= i < j < |out| ==> out[i].date <= out[j].date
  {
    forall i, j | 0 <= i < j < |out|
      ensures out[i].date <= out[j].date
    {
      assert SourceRows(out)[i].date == Some(out[i].date);
      assert SourceRows(out)[j].date == Some(out[j].date);
    }
  }

  /** Output rows taken from the cleaned rows count each raw row whose date
      parses as often as the input does. */
  lemma SourceRowsCounts(rows: seq<seq<Cell>>, parse: Cell -> Option<DateKey>, dateCol: nat, out: seq<OutputRow>)
    requires forall k :: 0 <= k < |rows| ==> dateCol < |rows[k]|
    requires SourceRows(out) == Clean(rows, dateCol, parse)
    ensures forall x :: multiset(SourceRows(out))[x] ==
              if x.date.Some? && dateCol < |x.cells| && x.date == parse(x.cells[dateCol])
              then multiset(rows)[x.cells] else 0
  {
    forall x
      ensures multiset(SourceRows(out))[x] ==
                if x.date.Some? && dateCol < |x.cells| && x.date == parse(x.cells[dateCol])
                then multiset(rows)[x.cells] else 0
    {
      CleanCounts(rows, dateCol, parse, x);
    }
  }

  /** A successful run yields the rows whose date parses, sorted by date:
      the dates never decrease; a raw row whose date parses appears exactly
      as often as it occurs in the input and nothing else appears; each
      output row carries the parsed date of its raw row and the numbers in
      its dozens and price cells. */
  lemma RunSortedPermutation(t: Table, parse: Cell -> Option<DateKey>, out: seq<OutputRow>,
                             dateCol: nat, dozensCol: nat, totalCol: nat)
    requires Rectangular(t) && OneColumnPerTarget(t.columns)
    requires dateCol < |t.columns| && Classify(t.columns[dateCol]) == Some(Date)
    requires dozensCol < |t.columns| && Classify(t.columns[dozensCol]) == Some(Dozens)
    requires totalCol < |t.columns| && Classify(t.columns[totalCol]) == Some(TotalPrice)
    requires Run(t, parse) == Ok(out)
    ensures forall i, j :: 0 <= i < j < |out| ==> out[i].date <= out[j].date
    ensures forall x :: multiset(SourceRows(out))[x] ==
              if x.date.Some? && dateCol < |x.cells| && x.date == parse(x.cells[dateCol])
              then multiset(t.rows)[x.cells] else 0
    ensures forall k :: 0 <= k < |out| ==>
              |out[k].cells| == |t.columns| &&
              parse(out[k].cells[dateCol]) == Some(out[k].date) &&
              out[k].cells[dozensCol] == Number(out[k].dozens) &&
              out[k].cells[totalCol] == Number(out[k].totalPrice)
  {
    RunDerives(t, parse, dateCol, dozensCol, totalCol);
    CleanedDeriveRows(t.rows, |t.columns|, parse, dateCol, dozensCol, totalCol, out);
  }

  /** In a successful run the running total at each row is the sum of the
      prices of that row and of every row before it in date order. */
  lemma RunCumulativeTotal(t: Table, parse: Cell -> Option<DateKey>, out: seq<OutputRow>)
    requires Rectangular(t) && OneColumnPerTarget(t.columns)
    requires Run(t, parse) == Ok(out)
    ensures forall k :: 0 <= k < |out| ==> out[k].cumulativeTotal == Sum(TotalPrices(out)[..k + 1])
  {
    var rows, dozensCol, totalCol := RunOkDerives(t, parse, out);
    DeriveCumulativeTotal(rows, dozensCol, totalCol, out);
  }

  /** A successful run is a successful derivation on some dated rows. */
  lemma RunOkDerives(t: Table, parse: Cell -> Option<DateKey>, out: seq<OutputRow>)
    returns (rows: seq<Row>, dozensCol: nat, totalCol: nat)
    requires Rectangular(t) && OneColumnPerTarget(t.columns)
    requires Run(t, parse) == Ok(out)
    ensures AllDated(rows)
    ensures forall k :: 0 <= k < |rows| ==> dozensCol < |rows[k].cells| && totalCol < |rows[k].cells|
    ensures Derive(rows, dozensCol, totalCol) == Ok(out)
  {
    var dateCol;
    dateCol, dozensCol, totalCol := RunOkHasColumns(t, parse);
    RunDerives(t, parse, dateCol, dozensCol, totalCol);
    rows := Clean(t.rows, dateCol, parse);
  }

  /** In a successful run, on every row the price per dozen is defined
      exactly when the dozens are not zero and then times the dozens gives
      the price; the price per donut is defined exactly when the price per
      dozen is, and twelve of them make the price per dozen. */
  lemma RunPrices(t: Table, parse: Cell -> Option<DateKey>, out: seq<OutputRow>, k: int)
    requires Rectangular(t) && OneColumnPerTarget(t.columns)
    requires Run(t, parse) == Ok(out)
    requires 0 <= k < |out|
    ensures out[k].pricePerDozen.Some? <==> out[k].dozens != 0.0
    ensures out[k].pricePerDonut.Some? <==> out[k].pricePerDozen.Some?
    ensures out[k].pricePerDozen.Some? ==> out[k].pricePerDozen.value * out[k].dozens == out[k].totalPrice
    ensures out[k].pricePerDonut.Some? ==> out[k].pricePerDonut.value * 12.0 == out[k].pricePerDozen.value
  {
    var rows, dozensCol, totalCol := RunOkDerives(t, parse, out);
    DerivePrices(rows, dozensCol, totalCol, out, k);
  }
}
