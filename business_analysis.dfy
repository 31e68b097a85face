/** The business analyzer (`generate_business_analysis`): each numeric
    column's share of the grand total, and its growth from first to last row. */
module BusinessAnalysis {
  import opened Wrappers
  import opened Stats
  import opened Tables
  import opened Results
  import opened InsightEngine

  // ---------------------------------------------------------------- profitability

  /** A column's sum; missing cells are skipped. */
  function ColumnSum(c: Column): real {
    Sum(Values(c.cells))
  }

  /** `numeric_df.sum().sum()`: the sum over every numeric column, negative
      sums included. */
  function TotalSum(cols: seq<Column>): real
    decreases |cols|
  {
    if cols == [] then 0.0 else TotalSum(cols[..|cols| - 1]) + ColumnSum(cols[|cols| - 1])
  }

  /** The row of a column with a positive sum: its sum, mean and share of the
      grand total in percent, or share 0 when the grand total is not positive. */
  function ProfitRowOf(c: Column, total: real): (row: ProfitRow)
    requires ColumnSum(c) > 0.0
    ensures row.column == c.name && row.total == ColumnSum(c) > 0.0
    ensures row.share > 0.0 <==> total > 0.0
    ensures total > 0.0 ==> row.share == row.total / total * 100.0
    ensures total <= 0.0 ==> row.share == 0.0
  {
    var xs := Values(c.cells);
    var s := Sum(xs);
    ProfitRow(c.name, s, Mean(xs), if total > 0.0 then s / total * 100.0 else 0.0)
  }



  function ProfitRows(cols: seq<Column>, total: real): (rows: seq<ProfitRow>)
    ensures |rows| <= |cols|
    decreases |cols|
  {
    if cols == [] then []
    else
      var last := cols[|cols| - 1];
      ProfitRows(cols[..|cols| - 1], total) + (if ColumnSum(last) > 0.0 then [ProfitRowOf(last, total)] else [])
  }

  /** The loop filling `profitability`, against the grand total computed first. */
  method ProfitabilityTable(cols: seq<Column>) returns (rows: seq<ProfitRow>)
    ensures rows == ProfitRows(cols, TotalSum(cols))
  {
    var total := TotalSum(cols);
    rows := [];
    var i := 0;
    while i < |cols|
      invariant 0 <= i <= |cols|
      invariant rows == ProfitRows(cols[..i], total)
    {
      var c := cols[i];
      assert cols[..i + 1][..i] == cols[..i];
      if ColumnSum(c) > 0.0 {
        rows := rows + [ProfitRowOf(c, total)];
      }
      i := i + 1;
    }
    assert cols[..|cols|] == cols;
  }

  /** Exactly the columns with a positive sum get a row. */
  lemma {:induction false} ProfitRowsMembers(cols: seq<Column>, total: real)
    ensures forall row :: row in ProfitRows(cols, total) <==>
      exists c :: c in cols && ColumnSum(c) > 0.0 && row == ProfitRowOf(c, total)
    decreases |cols|
  {
    if cols != [] {
      ProfitRowsMembers(cols[..|cols| - 1], total);
      assert cols == cols[..|cols| - 1] + [cols[|cols| - 1]];
    }
  }

  function ShareSum(rows: seq<ProfitRow>): real
    decreases |rows|
  {
    if rows == [] then 0.0 else ShareSum(rows[..|rows| - 1]) + rows[|rows| - 1].share
  }

  /** The sum of the positive column sums. */
  function PositiveSum(cols: seq<Column>): real
    decreases |cols|
  {
    if cols == [] then 0.0
    else
      var s := ColumnSum(cols[|cols| - 1]);
      PositiveSum(cols[..|cols| - 1]) + (if s > 0.0 then s else 0.0)
  }

  /** x as a percentage of the grand total. */
  function Percent(x: real, total: real): real
    requires total > 0.0
  {
    x / total * 100.0
  }

  /** The whole, as a percentage of itself (kept apart: the nonlinear step
      is cheap here and expensive inside the callers' larger contexts). */
  lemma PercentWhole(total: real)
    requires total > 0.0
    ensures Percent(total, total) == 100.0
  {
  }

  lemma ShareStep(rs: seq<ProfitRow>, r: ProfitRow, positive: real, total: real)
    requires total > 0.0 && ShareSum(rs) == Percent(positive, total)
    requires r.share == Percent(r.total, total)
    ensures ShareSum(rs + [r]) == Percent(positive + r.total, total)
  {
    assert (rs + [r])[..|rs|] == rs;
    assert Percent(positive, total) + Percent(r.total, total) == Percent(positive + r.total, total);
  }

  /** The shares add up to the positive sums as a percentage of the grand total. */
  lemma {:induction false} ShareSumIsPositiveSum(cols: seq<Column>, total: real)
    requires total > 0.0
    ensures ShareSum(ProfitRows(cols, total)) == Percent(PositiveSum(cols), total)
    decreases |cols|
  {
    if cols != [] {
      var p := cols[..|cols| - 1];
      var last := cols[|cols| - 1];
      ShareSumIsPositiveSum(p, total);
      var rs := ProfitRows(p, total);
      if ColumnSum(last) > 0.0 {
        var r := ProfitRowOf(last, total);
        assert ProfitRows(cols, total) == rs + [r];
        ShareStep(rs, r, PositiveSum(p), total);
        assert PositiveSum(cols) == PositiveSum(p) + ColumnSum(last);
      } else {
        assert ProfitRows(cols, total) == rs;
        assert PositiveSum(cols) == PositiveSum(p);
      }
    } else {
      assert Percent(0.0, total) == 0.0;
    }
  }

  lemma {:induction false} PositiveSumOfPositive(cols: seq<Column>)
    requires forall c :: c in cols ==> ColumnSum(c) > 0.0
    ensures PositiveSum(cols) == TotalSum(cols)
    ensures cols != [] ==> TotalSum(cols) > 0.0
    decreases |cols|
  {
    if cols != [] {
      assert cols[|cols| - 1] in cols;
      PositiveSumOfPositive(cols[..|cols| - 1]);
    }
  }

  /** When every numeric column sums to a positive number, the shares add up
      to 100 percent. */
  lemma SharesAddUpTo100(cols: seq<Column>)
    requires |cols| > 0 && forall c :: c in cols ==> ColumnSum(c) > 0.0
    ensures ShareSum(ProfitRows(cols, TotalSum(cols))) == 100.0
  {
    PositiveSumOfPositive(cols);
    var total := TotalSum(cols);
    ShareSumIsPositiveSum(cols, total);
    PercentWhole(total);
  }

  /** With a column summing below zero the grand total shrinks and a share can
      pass 100 percent: sums 10 and -5 give the first column 200 percent. */
  lemma ShareCanExceed100(cols: seq<Column>)
    requires cols == [Column("revenue", Numeric, [Num(10.0)]), Column("refunds", Numeric, [Num(-5.0)])]
    ensures ProfitRows(cols, TotalSum(cols)) == [ProfitRow("revenue", 10.0, 10.0, 200.0)]
  {
    assert Values(cols[0].cells) == [10.0];
    assert Values(cols[1].cells) == [-5.0];
    assert ColumnSum(cols[0]) == 10.0;
    assert ColumnSum(cols[1]) == -5.0;
    assert cols[..1] == [cols[0]] && cols[..1][..0] == [];
    assert TotalSum(cols[..1]) == 10.0;
    assert TotalSum(cols) == 5.0;
    assert Mean([10.0]) == 10.0;
  }

  // ---------------------------------------------------------------- growth

  /** A column enters the growth table when it has two rows or more and its
      first cell is not the number 0 (a missing first cell does enter). */
  predicate HasGrowth(c: Column) {
    |c.cells| > 1 && c.cells[0] != Num(0.0)
  }

  /** (last - first) / |first| * 100; NaN (None) when an end is missing. */
  function GrowthRowOf(c: Column): (row: GrowthRow)
    requires HasGrowth(c)
    ensures row.column == c.name
    ensures row.percent.Some? <==> c.cells[0].Num? && c.cells[|c.cells| - 1].Num?
  {
    var first, last := c.cells[0], c.cells[|c.cells| - 1];
    if first.Num? && last.Num? then GrowthRow(c.name, Some((last.x - first.x) / Abs(first.x) * 100.0))
    else GrowthRow(c.name, None)
  }

  function GrowthRows(cols: seq<Column>): (rows: seq<GrowthRow>)
    ensures |rows| <= |cols|
    decreases |cols|
  {
    if cols == [] then []
    else
      var last := cols[|cols| - 1];
      GrowthRows(cols[..|cols| - 1]) + (if HasGrowth(last) then [GrowthRowOf(last)] else [])
  }

  /** The loop filling `growth_analysis`, one column at a time. */
  method GrowthTable(cols: seq<Column>) returns (rows: seq<GrowthRow>)
    ensures rows == GrowthRows(cols)
  {
    rows := [];
    var i := 0;
    while i < |cols|
      invariant 0 <= i <= |cols|
      invariant rows == GrowthRows(cols[..i])
    {
      var c := cols[i];
      assert cols[..i + 1][..i] == cols[..i];
      if |c.cells| > 1 {
        var first := c.cells[0];
        if first != Num(0.0) {
          rows := rows + [GrowthRowOf(c)];
        }
      }
      i := i + 1;
    }
    assert cols[..|cols|] == cols;
  }

  /** Exactly the columns with two rows and a first cell other than 0 get a row. */
  lemma {:induction false} GrowthRowsMembers(cols: seq<Column>)
    ensures forall row :: row in GrowthRows(cols) <==> exists c :: c in cols && HasGrowth(c) && row == GrowthRowOf(c)
    decreases |cols|
  {
    if cols != [] {
      GrowthRowsMembers(cols[..|cols| - 1]);
      assert cols == cols[..|cols| - 1] + [cols[|cols| - 1]];
    }
  }

  /** The growth is positive exactly when the last value is above the first,
      and zero exactly when they are equal. */
  lemma GrowthSign(c: Column)
    requires HasGrowth(c) && GrowthRowOf(c).percent.Some?
    ensures var first, last, g := c.cells[0].x, c.cells[|c.cells| - 1].x, GrowthRowOf(c).percent.value;
      && (g > 0.0 <==> last > first)
      && (g == 0.0 <==> last == first)
  {
    var first, last := c.cells[0].x, c.cells[|c.cells| - 1].x;
    var a := Abs(first);
    assert a > 0.0;
    var d := last - first;
    assert d / a * 100.0 > 0.0 <==> d > 0.0;
    assert d / a * 100.0 == 0.0 <==> d == 0.0;
  }

  /** [10, 0, 20] grows by 100 percent: only the two ends count. */
  lemma GrowthExample(c: Column)
    requires c == Column("units", Numeric, [Num(10.0), Num(0.0), Num(20.0)])
    ensures GrowthRowOf(c) == GrowthRow("units", Some(100.0))
  {
  }

  /** In a table with distinct names, a column whose first value is 0 has no
      growth row: it is left out rather than marked. */
  lemma ZeroStartOmitted(t: Table, k: nat)
    requires WellFormed(t) && k < |t.columns| && |t.columns[k].cells| > 0 && t.columns[k].cells[0] == Num(0.0)
    ensures forall row :: row in GrowthRows(NumericColumns(t.columns)) ==> row.column != t.columns[k].name
  {
    var cols := NumericColumns(t.columns);
    GrowthRowsMembers(cols);
    forall row | row in GrowthRows(cols) ensures row.column != t.columns[k].name {
      var c :| c in cols && HasGrowth(c) && row == GrowthRowOf(c);
      var j :| 0 <= j < |t.columns| && t.columns[j] == c;
      assert j != k;
    }
  }

  // ---------------------------------------------------------------- the analyzer

  /** Each table only when it has a row, and neither when the numeric frame is empty. */
  function BusinessTables(t: Table): (ds: seq<ResultTable>)
    ensures forall d :: d in ds ==> Admissible(d)
  {
    var nums := NumericColumns(t.columns);
    var profits := ProfitRows(nums, TotalSum(nums));
    var growth := GrowthRows(nums);
    if NumericFrameEmpty(t) then [] else PresentTables(profits, growth)
  }

  function BusinessEntries(t: Table, lib: Library): seq<AnalysisEntry> {
    Bundle(BusinessTables(t), t, lib)
  }

  /** The two loops of the source, then the entries that have rows. */
  method GenerateBusinessAnalysis(t: Table, lib: Library) returns (analyses: seq<AnalysisEntry>)
    ensures analyses == BusinessEntries(t, lib)
  {
    analyses := [];
    var nums := NumericColumns(t.columns);
    if !NumericFrameEmpty(t) {
      var profits := ProfitabilityTable(nums);
      var growth := GrowthTable(nums);
      var ds: seq<ResultTable> := [];
      if profits != [] {
        ds := ds + [Profitability(profits)];
      }
      if growth != [] {
        ds := ds + [Growth(growth)];
      }
      assert ds == BusinessTables(t);
      analyses := GenerateEntries(t, lib, ds);
    }
  }

  /** The profitability table is there exactly when some numeric column has a
      positive sum (and there is a row). */
  lemma ProfitabilityPresent(t: Table)
    ensures (exists d :: d in BusinessTables(t) && d.Profitability?) <==>
      !NumericFrameEmpty(t) && exists c :: c in NumericColumns(t.columns) && ColumnSum(c) > 0.0
  {
    var nums := NumericColumns(t.columns);
    ProfitRowsNonEmpty(nums, TotalSum(nums));
    ProfitabilityFirst(t);
  }

  /** Where the profitability table goes: first, when it has rows. */
  lemma ProfitabilityFirst(t: Table)
    ensures var nums := NumericColumns(t.columns);
      (exists d :: d in BusinessTables(t) && d.Profitability?) <==>
        !NumericFrameEmpty(t) && ProfitRows(nums, TotalSum(nums)) != []
  {
    var nums := NumericColumns(t.columns);
    var profits := ProfitRows(nums, TotalSum(nums));
    var growth := GrowthRows(nums);
    if !NumericFrameEmpty(t) {
      assert BusinessTables(t) == PresentTables(profits, growth);
      ProfitabilityInPresent(profits, growth);
    }
  }

  /** The tables that have rows, profitability first. */
  function PresentTables(profits: seq<ProfitRow>, growth: seq<GrowthRow>): seq<ResultTable> {
    (if profits == [] then [] else [Profitability(profits)])
    + (if growth == [] then [] else [Growth(growth)])
  }

  lemma ProfitabilityInPresent(profits: seq<ProfitRow>, growth: seq<GrowthRow>)
    ensures (exists d :: d in PresentTables(profits, growth) && d.Profitability?) <==> profits != []
  {
    if profits != [] {
      assert PresentTables(profits, growth)[0] == Profitability(profits);
    }
  }

  /** Some column gets a row exactly when some column has a positive sum. */
  lemma ProfitRowsNonEmpty(cols: seq<Column>, total: real)
    ensures ProfitRows(cols, total) != [] <==> exists c :: c in cols && ColumnSum(c) > 0.0
  {
    var profits := ProfitRows(cols, total);
    ProfitRowsMembers(cols, total);
    if exists c :: c in cols && ColumnSum(c) > 0.0 {
      var c :| c in cols && ColumnSum(c) > 0.0;
      assert ProfitRowOf(c, total) in profits;
    }
    if profits != [] {
      assert profits[0] in profits;
    }
  }
}
