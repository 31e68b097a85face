/** The statistical analyzer (`generate_statistical_analysis`): a
    Shapiro-Wilk normality table and an interquartile-range outlier table
    over the numeric columns. */
module StatisticalAnalysis {
  import opened Wrappers
  import opened Seqs
  import opened Stats
  import opened Tables
  import opened Results
  import opened InsightEngine

  const NormalityAlpha: real := 0.05     // p above which a column is called normal
  const MinNormalitySample: nat := 3     // a column needs more values than this to be tested
  const LowerQuartile: real := 0.25
  const UpperQuartile: real := 0.75
  const Whisker: real := 1.5             // fences sit this many IQRs beyond the quartiles

  // ---------------------------------------------------------------- normality

  /** The row of a column with enough values: the test's statistic, p-value
      and verdict, or the error marker when the test raised. */
  function NormalityRowOf(c: Column, shapiro: seq<real> -> ShapiroOutcome): (row: NormalityRow)
    requires |Values(c.cells)| > MinNormalitySample
    ensures row.column == c.name
    ensures row.outcome.Insufficient? <==> shapiro(Values(c.cells)).ShapiroRaised?
    ensures row.outcome.Tested? ==> (row.outcome.normal <==> row.outcome.pValue > NormalityAlpha)
  {
    match shapiro(Values(c.cells))
    case Shapiro(statistic, p) => NormalityRow(c.name, Tested(statistic, p, p > NormalityAlpha))
    case ShapiroRaised => NormalityRow(c.name, Insufficient)
  }

  /** The normality table: columns with at most three values are skipped. */
  function NormalityRows(cols: seq<Column>, shapiro: seq<real> -> ShapiroOutcome): (rows: seq<NormalityRow>)
    ensures |rows| <= |cols|
    decreases |cols|
  {
    if cols == [] then []
    else
      var last := cols[|cols| - 1];
      NormalityRows(cols[..|cols| - 1], shapiro)
      + (if |Values(last.cells)| > MinNormalitySample then [NormalityRowOf(last, shapiro)] else [])
  }

  /** The loop filling `normality_test`, one column at a time. */
  method NormalityTests(cols: seq<Column>, shapiro: seq<real> -> ShapiroOutcome) returns (rows: seq<NormalityRow>)
    ensures rows == NormalityRows(cols, shapiro)
  {
    rows := [];
    var i := 0;
    while i < |cols|
      invariant 0 <= i <= |cols|
      invariant rows == NormalityRows(cols[..i], shapiro)
    {
      var c := cols[i];
      assert cols[..i + 1][..i] == cols[..i];
      if |Values(c.cells)| > MinNormalitySample {
        rows := rows + [NormalityRowOf(c, shapiro)];
      }
      i := i + 1;
    }
    assert cols[..|cols|] == cols;
  }

  /** Exactly the columns with more than three values get a row, each the
      outcome of testing that column. */
  lemma {:induction false} NormalityRowsMembers(cols: seq<Column>, shapiro: seq<real> -> ShapiroOutcome)
    ensures forall row :: row in NormalityRows(cols, shapiro) <==>
      exists c :: c in cols && |Values(c.cells)| > MinNormalitySample && row == NormalityRowOf(c, shapiro)
    decreases |cols|
  {
    if cols != [] {
      NormalityRowsMembers(cols[..|cols| - 1], shapiro);
      assert cols == cols[..|cols| - 1] + [cols[|cols| - 1]];
    }
  }

  /** In a table with distinct column names, a column with three values or
      fewer has no row at all (it is neither normal nor marked). */
  lemma SmallColumnsSkipped(t: Table, shapiro: seq<real> -> ShapiroOutcome, k: nat)
    requires WellFormed(t) && k < |t.columns| && |Values(t.columns[k].cells)| <= MinNormalitySample
    ensures forall row :: row in NormalityRows(NumericColumns(t.columns), shapiro) ==> row.column != t.columns[k].name
  {
    var cols := NumericColumns(t.columns);
    NormalityRowsMembers(cols, shapiro);
    forall row | row in NormalityRows(cols, shapiro) ensures row.column != t.columns[k].name {
      var c :| c in cols && |Values(c.cells)| > MinNormalitySample && row == NormalityRowOf(c, shapiro);
      var j :| 0 <= j < |t.columns| && t.columns[j] == c;
      assert j != k;
    }
  }

  // ---------------------------------------------------------------- outliers

  /** The fences `Q1 - 1.5 IQR` and `Q3 + 1.5 IQR`. */
  function Fences(q1: real, q3: real): (f: (real, real))
    requires q1 <= q3
    ensures f.0 <= q1 <= q3 <= f.1
    ensures f.1 - f.0 == (1.0 + 2.0 * Whisker) * (q3 - q1)
  {
    (q1 - Whisker * (q3 - q1), q3 + Whisker * (q3 - q1))
  }

  /** A value strictly outside the fences; a missing cell never is one. */
  predicate IsOutlier(cell: Cell, lower: real, upper: real) {
    cell.Num? && (cell.x < lower || cell.x > upper)
  }

  function OutlierCount(cells: seq<Cell>, lower: real, upper: real): (n: nat)
    ensures n <= |cells|
    decreases |cells|
  {
    if cells == [] then 0
    else OutlierCount(cells[..|cells| - 1], lower, upper) + (if IsOutlier(cells[|cells| - 1], lower, upper) then 1 else 0)
  }

  /** The quartiles of a column's values, over the sorted values. */
  function Quartiles(xs: seq<real>): (q: (real, real))
    requires |xs| > 0
    ensures q.0 <= q.1
  {
    var s := Sort(xs);
    QuantileMonotone(s, LowerQuartile, UpperQuartile);
    (Quantile(s, LowerQuartile), Quantile(s, UpperQuartile))
  }

  /** The row of one column. The percentage is over the column's length,
      missing cells included; with no value the quartiles are NaN, every
      comparison is false, and nothing is counted. */
  function OutlierRowOf(c: Column): (row: OutlierRow)
    requires |c.cells| > 0
    ensures row.column == c.name
    ensures row.count <= |c.cells| && 0.0 <= row.percent <= 100.0
    ensures row.lower.Some? <==> |Values(c.cells)| > 0
    ensures row.upper.Some? <==> |Values(c.cells)| > 0
    ensures row.lower.None? ==> row.count == 0 && row.percent == 0.0
  {
    var xs := Values(c.cells);
    if |xs| == 0 then OutlierRow(c.name, 0, 0.0, None, None)
    else
      var q := Quartiles(xs);
      var f := Fences(q.0, q.1);
      var n := OutlierCount(c.cells, f.0, f.1);
      PercentOfWhole(n, |c.cells|);
      OutlierRow(c.name, n, n as real / |c.cells| as real * 100.0, Some(f.0), Some(f.1))
  }

  /** With values present, the fences lie outside the quartiles and the
      count is of the cells strictly beyond them. */
  lemma OutlierRowFences(c: Column)
    requires |c.cells| > 0 && |Values(c.cells)| > 0
    ensures var row := OutlierRowOf(c);
      && row.lower.Some? && row.upper.Some?
      && row.lower.value <= Quartiles(Values(c.cells)).0 <= Quartiles(Values(c.cells)).1 <= row.upper.value
      && row.count == OutlierCount(c.cells, row.lower.value, row.upper.value)
  {
  }

  function OutlierRows(cols: seq<Column>): (rows: seq<OutlierRow>)
    requires forall c :: c in cols ==> |c.cells| > 0
    ensures |rows| == |cols|
  {
    Map((c: Column) requires |c.cells| > 0 => OutlierRowOf(c), cols)
  }

  /** Row i of the table is the row of column i. */
  lemma OutlierRowsAt(cols: seq<Column>, i: nat)
    requires i < |cols| && forall c :: c in cols ==> |c.cells| > 0
    ensures OutlierRows(cols)[i] == OutlierRowOf(cols[i])
  {
    MapAt((c: Column) requires |c.cells| > 0 => OutlierRowOf(c), cols, i);
  }

  /** The loop filling `outliers_analysis`, one column at a time. */
  method OutlierTable(cols: seq<Column>) returns (rows: seq<OutlierRow>)
    requires forall c :: c in cols ==> |c.cells| > 0
    ensures rows == OutlierRows(cols)
  {
    rows := [];
    var i := 0;
    while i < |cols|
      invariant 0 <= i <= |cols|
      invariant rows == OutlierRows(cols[..i])
    {
      assert cols[..i + 1][..i] == cols[..i];
      rows := rows + [OutlierRowOf(cols[i])];
      i := i + 1;
    }
    assert cols[..|cols|] == cols;
  }

  /** Missing cells are never counted: at most the column's values are outliers. */
  lemma {:induction false} OutliersAreValues(cells: seq<Cell>, lower: real, upper: real)
    ensures OutlierCount(cells, lower, upper) <= |Values(cells)|
    ensures lower <= upper && (forall i :: 0 <= i < |cells| && cells[i].Num? ==> lower <= cells[i].x <= upper) ==>
      OutlierCount(cells, lower, upper) == 0
    decreases |cells|
  {
    if cells != [] {
      OutliersAreValues(cells[..|cells| - 1], lower, upper);
    }
  }

  /** The worked example: in [1, 2, 3, 4, 5, 100] the quartiles are 2.25 and
      4.75, the fences -1.5 and 8.5, and the one outlier is a sixth of the
      column. */
  lemma OutlierExample(c: Column)
    requires c == Column("sales", Numeric, [Num(1.0), Num(2.0), Num(3.0), Num(4.0), Num(5.0), Num(100.0)])
    ensures OutlierRowOf(c) == OutlierRow("sales", 1, 1.0 / 6.0 * 100.0, Some(-1.5), Some(8.5))
  {
    var xs := Values(c.cells);
    ExampleValues(c.cells);
    ExampleQuartiles(xs);
    var q := Quartiles(xs);
    var f := Fences(q.0, q.1);
    assert f == (-1.5, 8.5);
    ExampleCount(c.cells);
    var n := OutlierCount(c.cells, f.0, f.1);
    OneOutOfSix(n, |c.cells|);
    assert OutlierRowOf(c) == OutlierRow("sales", n, n as real / |c.cells| as real * 100.0, Some(f.0), Some(f.1));
  }

  /** One outlier among six cells, as a percentage (the nonlinear step,
      kept apart from the example's larger context). */
  lemma OneOutOfSix(n: nat, m: nat)
    requires n == 1 && m == 6
    ensures n as real / m as real * 100.0 == 1.0 / 6.0 * 100.0
  {
  }

  lemma ExampleValues(cells: seq<Cell>)
    requires cells == [Num(1.0), Num(2.0), Num(3.0), Num(4.0), Num(5.0), Num(100.0)]
    ensures Values(cells) == [1.0, 2.0, 3.0, 4.0, 5.0, 100.0]
  {
    assert Values(cells[..1]) == [1.0];
    assert cells[..2][..1] == cells[..1];
    assert Values(cells[..2]) == [1.0, 2.0];
    assert cells[..3][..2] == cells[..2];
    assert Values(cells[..3]) == [1.0, 2.0, 3.0];
    assert cells[..4][..3] == cells[..3];
    assert Values(cells[..4]) == [1.0, 2.0, 3.0, 4.0];
    assert cells[..5][..4] == cells[..4];
    assert Values(cells[..5]) == [1.0, 2.0, 3.0, 4.0, 5.0];
    assert cells[..6] == cells;
  }

  lemma ExampleQuartiles(xs: seq<real>)
    requires xs == [1.0, 2.0, 3.0, 4.0, 5.0, 100.0]
    ensures Quartiles(xs) == (2.25, 4.75)
  {
    assert Sorted(xs);
    assert Quantile(xs, LowerQuartile) == 2.25 by {
      ExampleQuantile(xs, LowerQuartile, 1.25, 1);
      assert xs[1] == 2.0 && xs[2] == 3.0;
    }
    assert Quantile(xs, UpperQuartile) == 4.75 by {
      ExampleQuantile(xs, UpperQuartile, 3.75, 3);
      assert xs[3] == 4.0 && xs[4] == 5.0;
    }
    SortOfSorted(xs);
  }

  /** One quantile of the sorted example: its position, and the two values
      it lies between. */
  lemma ExampleQuantile(xs: seq<real>, p: real, pos: real, lo: nat)
    requires |xs| == 6 && Sorted(xs)
    requires 0.0 <= p <= 1.0 && pos == p * 5.0 && lo as real <= pos < lo as real + 1.0 && lo < 5
    ensures Quantile(xs, p) == xs[lo] + (pos - lo as real) * (xs[lo + 1] - xs[lo])
  {
    assert Position(p, 6) == pos;
    assert pos.Floor == lo;
  }

  lemma ExampleCount(cells: seq<Cell>)
    requires cells == [Num(1.0), Num(2.0), Num(3.0), Num(4.0), Num(5.0), Num(100.0)]
    ensures OutlierCount(cells, -1.5, 8.5) == 1
  {
    OutliersAreValues(cells[..5], -1.5, 8.5);
    assert cells[..6] == cells;
  }

  // ---------------------------------------------------------------- the analyzer

  /** Both tables, unless the numeric frame is empty. */
  function StatisticalTables(t: Table, lib: Library): (ds: seq<ResultTable>)
    requires WellFormed(t)
    ensures forall d :: d in ds ==> Admissible(d)
    ensures ds == [] <==> NumericFrameEmpty(t)
    ensures ds != [] ==> |ds| == 2 && ds[0].Normality? && ds[1].Outliers?
  {
    var nums := NumericColumns(t.columns);
    if NumericFrameEmpty(t) then []
    else [Normality(NormalityRows(nums, lib.shapiro)), Outliers(OutlierRows(nums))]
  }

  function StatisticalEntries(t: Table, lib: Library): seq<AnalysisEntry>
    requires WellFormed(t)
  {
    Bundle(StatisticalTables(t, lib), t, lib)
  }

  /** The two loops of the source, then the two entries. */
  method GenerateStatisticalAnalysis(t: Table, lib: Library) returns (analyses: seq<AnalysisEntry>)
    requires WellFormed(t)
    ensures analyses == StatisticalEntries(t, lib)
  {
    var nums := NumericColumns(t.columns);
    var ds: seq<ResultTable> := [];
    if !NumericFrameEmpty(t) {
      var tests := NormalityTests(nums, lib.shapiro);
      var rows := OutlierTable(nums);
      ds := [Normality(tests), Outliers(rows)];
    }
    assert ds == StatisticalTables(t, lib);
    analyses := GenerateEntries(t, lib, ds);
  }

  /** Every outlier row of the analyzer has a percentage in [0, 100], and
      there is one row per numeric column, in column order. */
  lemma OutlierTableBounds(t: Table, lib: Library)
    requires WellFormed(t) && !NumericFrameEmpty(t)
    ensures var rows := OutlierRows(NumericColumns(t.columns));
      && |rows| == |NumericColumns(t.columns)|
      && forall i :: 0 <= i < |rows| ==>
           rows[i].column == NumericColumns(t.columns)[i].name && 0.0 <= rows[i].percent <= 100.0
  {
    var cols := NumericColumns(t.columns);
    forall i | 0 <= i < |cols| ensures OutlierRows(cols)[i] == OutlierRowOf(cols[i]) {
      OutlierRowsAt(cols, i);
    }
  }
}
