/** The derived columns: price per dozen, price per donut and the running
    total of the price, computed on the cleaned, date-sorted rows. */
module Metrics {
  import opened Wrappers
  import opened Rows

  /** The failures the pipeline can stop with: a column looked up by a name
      the table does not have, or arithmetic on a column holding text. */
  datatype Error = KeyError(column: string) | TypeError

  /** One row of the final table: the parsed date, the row's cells, the
      numeric dozens and total price read from them, and the three derived
      columns. A ratio is None where the division has no finite value. */
  datatype OutputRow = OutputRow(
    date: DateKey,
    cells: seq<Cell>,
    dozens: real,
    totalPrice: real,
    pricePerDozen: Option<real>,
    pricePerDonut: Option<real>,
    cumulativeTotal: real)

  /** The sum of a sequence of amounts. */
  function Sum(xs: seq<real>): real
  {
    if xs == [] then 0.0 else xs[0] + Sum(xs[1..])
  }

  /** Running totals of `xs`, accumulated left to right on top of `acc`. */
  function RunningTotal(acc: real, xs: seq<real>): (r: seq<real>)
    ensures |r| == |xs|
    decreases |xs|
  {
    if xs == [] then [] else [acc + xs[0]] + RunningTotal(acc + xs[0], xs[1..])
  }

  /** The cumulative sum of a column. */
  function CumSum(xs: seq<real>): seq<real>
  {
    RunningTotal(0.0, xs)
  }

  /** Each running total is the starting amount plus the sum of the prefix
      up to and including that position. */
  lemma {:induction false} RunningTotalAt(acc: real, xs: seq<real>, i: int)
    requires 0 <= i < |xs|
    ensures RunningTotal(acc, xs)[i] == acc + Sum(xs[..i + 1])
    decreases |xs|
  {
    if i > 0 {
      RunningTotalAt(acc + xs[0], xs[1..], i - 1);
      assert xs[..i + 1][1..] == xs[1..][..i];
    }
  }

  /** The cumulative sum has one entry per amount, and entry `i` is the sum
      of the amounts at positions 0 to `i`. */
  lemma CumSumIsPrefixSum(xs: seq<real>)
    ensures |CumSum(xs)| == |xs|
    ensures forall i :: 0 <= i < |xs| ==> CumSum(xs)[i] == Sum(xs[..i + 1])
  {
    forall i | 0 <= i < |xs|
      ensures CumSum(xs)[i] == Sum(xs[..i + 1])
    {
      RunningTotalAt(0.0, xs, i);
    }
  }

  /** Division of two amounts; None stands for the infinite or undefined
      result of dividing by zero. */
  function Divide(n: real, d: real): (r: Option<real>)
    ensures r.Some? <==> d != 0.0
    ensures r.Some? ==> r.value * d == n
  {
    if d == 0.0 then None else Some(n / d)
  }

  /** The numbers in column `col` of the rows, or None when some row holds
      text there. */
  function Numbers(rows: seq<Row>, col: nat): (r: Option<seq<real>>)
    requires forall k :: 0 <= k < |rows| ==> col < |rows[k].cells|
    ensures r.Some? ==> (|r.value| == |rows| &&
              forall k :: 0 <= k < |rows| ==> rows[k].cells[col] == Number(r.value[k]))
    ensures r.None? <==> exists k :: 0 <= k < |rows| && rows[k].cells[col].Str?
  {
    if rows == [] then Some([])
    else
      match rows[0].cells[col]
      case Str(_) => None
      case Number(x) =>
        match Numbers(rows[1..], col)
        case None =>
          var k :| 0 <= k < |rows[1..]| && rows[1..][k].cells[col].Str?;
          assert rows[k + 1].cells[col].Str?;
          None
        case Some(xs) => Some([x] + xs)
  }

  /** The derived columns on date-sorted rows: per row, total price over
      dozens, total price over twelve times the dozens, and the running
      total of the price column. Text in either numeric column makes the
      division fail. */
  function Derive(rows: seq<Row>, dozensCol: nat, totalCol: nat): (r: Result<seq<OutputRow>, Error>)
    requires AllDated(rows)
    requires forall k :: 0 <= k < |rows| ==> dozensCol < |rows[k].cells| && totalCol < |rows[k].cells|
  {
    match (Numbers(rows, totalCol), Numbers(rows, dozensCol))
    case (Some(totals), Some(dozens)) =>
      var running := CumSum(totals);
      CumSumIsPrefixSum(totals);
      Ok(seq(|rows|, k requires 0 <= k < |rows| =>
        OutputRow(rows[k].date.value, rows[k].cells, dozens[k], totals[k],
                  Divide(totals[k], dozens[k]), Divide(totals[k], dozens[k] * 12.0),
                  running[k])))
    case _ => Err(TypeError)
  }

  /** The price column of the final table. */
  function TotalPrices(out: seq<OutputRow>): (r: seq<real>)
    ensures |r| == |out|
  {
    seq(|out|, k requires 0 <= k < |out| => out[k].totalPrice)
  }

  /** The rows of the final table with the derived columns left off. */
  function SourceRows(out: seq<OutputRow>): (r: seq<Row>)
    ensures |r| == |out|
  {
    seq(|out|, k requires 0 <= k < |out| => Row(Some(out[k].date), out[k].cells))
  }

  /** Derivation succeeds exactly when both numeric columns hold numbers in
      every row, and it never fails any other way. */
  lemma DeriveFails(rows: seq<Row>, dozensCol: nat, totalCol: nat)
    requires AllDated(rows)
    requires forall k :: 0 <= k < |rows| ==> dozensCol < |rows[k].cells| && totalCol < |rows[k].cells|
    ensures Derive(rows, dozensCol, totalCol).Err? ==> Derive(rows, dozensCol, totalCol).error == TypeError
    ensures Derive(rows, dozensCol, totalCol).Err? <==>
              exists k :: 0 <= k < |rows| && (rows[k].cells[dozensCol].Str? || rows[k].cells[totalCol].Str?)
  {
    var n1, n2 := Numbers(rows, totalCol), Numbers(rows, dozensCol);
  }

  /** A successful derivation keeps the rows, in order, and reads the dozens
      and the total price of each from its cells. */
  lemma DeriveKeepsRows(rows: seq<Row>, dozensCol: nat, totalCol: nat, out: seq<OutputRow>)
    requires AllDated(rows)
    requires forall k :: 0 <= k < |rows| ==> dozensCol < |rows[k].cells| && totalCol < |rows[k].cells|
    requires Derive(rows, dozensCol, totalCol) == Ok(out)
    ensures SourceRows(out) == rows
    ensures forall k :: 0 <= k < |out| ==>
              rows[k].cells[dozensCol] == Number(out[k].dozens) &&
              rows[k].cells[totalCol] == Number(out[k].totalPrice)
  {
    var totals, dozens := Numbers(rows, totalCol).value, Numbers(rows, dozensCol).value;
    assert |out| == |rows|;
    forall k | 0 <= k < |rows|
      ensures SourceRows(out)[k] == rows[k]
    {
      assert rows[k].date == Some(rows[k].date.value);
    }
  }

  /** In a successful derivation the running total at each row is the sum
      of the prices of that row and every row before it. */
  lemma DeriveCumulativeTotal(rows: seq<Row>, dozensCol: nat, totalCol: nat, out: seq<OutputRow>)
    requires AllDated(rows)
    requires forall k :: 0 <= k < |rows| ==> dozensCol < |rows[k].cells| && totalCol < |rows[k].cells|
    requires Derive(rows, dozensCol, totalCol) == Ok(out)
    ensures |out| == |rows|
    ensures forall k :: 0 <= k < |out| ==> out[k].cumulativeTotal == Sum(TotalPrices(out)[..k + 1])
  {
    var totals := Numbers(rows, totalCol).value;
    assert TotalPrices(out) == totals;
    CumSumIsPrefixSum(totals);
  }

  /** In a successful derivation the price per dozen is defined exactly when
      the dozens are not zero, and then it times the dozens is the total
      price; the price per donut is defined exactly when the price per dozen
      is, and twelve of them make the price per dozen. */
  lemma DerivePrices(rows: seq<Row>, dozensCol: nat, totalCol: nat, out: seq<OutputRow>, k: int)
    requires AllDated(rows)
    requires forall k :: 0 <= k < |rows| ==> dozensCol < |rows[k].cells| && totalCol < |rows[k].cells|
    requires Derive(rows, dozensCol, totalCol) == Ok(out)
    requires 0 <= k < |out|
    ensures out[k].pricePerDozen.Some? <==> out[k].dozens != 0.0
    ensures out[k].pricePerDonut.Some? <==> out[k].pricePerDozen.Some?
    ensures out[k].pricePerDozen.Some? ==> out[k].pricePerDozen.value * out[k].dozens == out[k].totalPrice
    ensures out[k].pricePerDonut.Some? ==> out[k].pricePerDonut.value * 12.0 == out[k].pricePerDozen.value
  {
    var m := out[k];
    if m.dozens != 0.0 {
      var perDozen, perDonut := m.pricePerDozen.value, m.pricePerDonut.value;
      assert perDonut * (m.dozens * 12.0) == m.totalPrice;
      assert perDozen * m.dozens == m.totalPrice;
      assert (perDonut * 12.0) * m.dozens == perDozen * m.dozens;
    }
  }
}
