/** The basic analyzer (`generate_basic_analysis`): descriptive statistics,
    the missing-value profile, the general-information table and the
    correlation matrix, each bundled with its insights. */
module BasicAnalysis {
  import opened Wrappers
  import opened Seqs
  import opened Stats
  import opened Tables
  import opened Results
  import opened InsightEngine
  import opened InsightFacts

  // ---------------------------------------------------------------- missing-value profile

  /** The profile row of one column, kept only when the column has a missing
      cell; the percentage is taken over the table's row count. */
  function MissingRowOf(c: Column, rowCount: nat): seq<MissingRow>
    requires |c.cells| == rowCount
  {
    var n := MissingCount(c.cells);
    if n > 0 then [MissingRow(c.name, n, n as real / rowCount as real * 100.0)] else []
  }

  /** The profile filtered to a positive count, in column order. */
  function MissingRows(cols: seq<Column>, rowCount: nat): (rows: seq<MissingRow>)
    requires forall c :: c in cols ==> |c.cells| == rowCount
    ensures |rows| <= |cols|
    decreases |cols|
  {
    if cols == [] then []
    else
      var last := cols[|cols| - 1];
      MissingRows(cols[..|cols| - 1], rowCount) + MissingRowOf(last, rowCount)
  }

  /** Exactly the columns with a missing cell get a row, with their count and
      the count as a percentage of the rows. */
  lemma {:induction false} MissingRowsMembers(cols: seq<Column>, rowCount: nat)
    requires forall c :: c in cols ==> |c.cells| == rowCount
    ensures forall row :: row in MissingRows(cols, rowCount) <==>
      exists c :: c in cols && MissingCount(c.cells) > 0 &&
        row == MissingRow(c.name, MissingCount(c.cells), MissingCount(c.cells) as real / rowCount as real * 100.0)
    decreases |cols|
  {
    if cols != [] {
      MissingRowsMembers(cols[..|cols| - 1], rowCount);
      assert cols == cols[..|cols| - 1] + [cols[|cols| - 1]];
    }
  }

  /** Every percentage of the profile lies in (0, 100]. */
  lemma {:induction false} MissingPercentBounds(cols: seq<Column>, rowCount: nat)
    requires forall c :: c in cols ==> |c.cells| == rowCount
    ensures forall row :: row in MissingRows(cols, rowCount) ==>
      0 < row.count <= rowCount && 0.0 < row.percent <= 100.0
    decreases |cols|
  {
    if cols != [] {
      MissingPercentBounds(cols[..|cols| - 1], rowCount);
      var c := cols[|cols| - 1];
      var n := MissingCount(c.cells);
      if n > 0 {
        PercentOfWhole(n, rowCount);
      }
    }
  }

  /** The counts of the profile add up to the table's missing total, so the
      engine's "in total" insight and the general-information table agree. */
  lemma {:induction false} MissingRowsTotal(cols: seq<Column>, rowCount: nat)
    requires forall c :: c in cols ==> |c.cells| == rowCount
    ensures MissingSum(MissingRows(cols, rowCount)) == TotalMissing(cols)
    ensures MissingRows(cols, rowCount) == [] <==> TotalMissing(cols) == 0
    decreases |cols|
  {
    if cols != [] {
      var p := cols[..|cols| - 1];
      MissingRowsTotal(p, rowCount);
      MissingSumAppend(MissingRows(p, rowCount), MissingRowOf(cols[|cols| - 1], rowCount));
    }
  }

  lemma {:induction false} MissingSumAppend(a: seq<MissingRow>, b: seq<MissingRow>)
    ensures MissingSum(a + b) == MissingSum(a) + MissingSum(b)
    decreases |b|
  {
    if b == [] {
      assert a + b == a;
    } else {
      assert (a + b)[..|a + b| - 1] == a + b[..|b| - 1];
      MissingSumAppend(a, b[..|b| - 1]);
    }
  }

  // ---------------------------------------------------------------- general information

  function GeneralInfoRows(t: Table): seq<InfoRow> {
    [ InfoRow(Rows, t.rowCount),
      InfoRow(Columns, |t.columns|),
      InfoRow(MissingCells, TotalMissing(t.columns)),
      InfoRow(NumericColumnCount, |NumericColumns(t.columns)|),
      InfoRow(TextColumnCount, ObjectColumnCount(t.columns)) ]
  }

  /** The five features, once each; numeric and text columns together are
      at most all columns, and the missing cells at most all cells. */
  lemma GeneralInfoConsistent(t: Table)
    requires WellFormed(t)
    ensures var info := GeneralInfoRows(t);
      && |info| == 5
      && (forall i, j :: 0 <= i < j < 5 ==> info[i].feature != info[j].feature)
      && info[3].value + info[4].value <= info[1].value
      && info[2].value <= info[0].value * info[1].value
  {
    KindCounts(t.columns);
    MissingAtMostCells(t.columns, t.rowCount);
  }

  lemma {:induction false} KindCounts(cols: seq<Column>)
    ensures |NumericColumns(cols)| + ObjectColumnCount(cols) <= |cols|
    decreases |cols|
  {
    if cols != [] {
      KindCounts(cols[..|cols| - 1]);
    }
  }

  lemma {:induction false} MissingAtMostCells(cols: seq<Column>, rowCount: nat)
    requires forall c :: c in cols ==> |c.cells| == rowCount
    ensures TotalMissing(cols) <= rowCount * |cols|
    decreases |cols|
  {
    if cols != [] {
      var last := cols[|cols| - 1];
      assert last in cols;
      MissingAtMostCells(cols[..|cols| - 1], rowCount);
      assert rowCount * |cols| == rowCount * (|cols| - 1) + rowCount;
    }
  }

  // ---------------------------------------------------------------- descriptive statistics

  /** `describe()` of one numeric column over its non-missing values: NaN
      (None) statistics when it has none, and a NaN deviation for one value. */
  function Describe(c: Column, std: seq<real> -> real): Summary {
    var xs := Values(c.cells);
    var s := Sort(xs);
    if |xs| == 0 then Summary(c.name, 0, None, None, None, None, None, None, None)
    else
      Summary(c.name, |xs|, Some(Mean(xs)), if |xs| < 2 then None else Some(std(xs)),
              Some(s[0]), Some(Quantile(s, 0.25)), Some(Quantile(s, 0.5)), Some(Quantile(s, 0.75)),
              Some(s[|s| - 1]))
  }

  /** A column with a value has min <= 25% <= 50% <= 75% <= max, min and max
      are values of the column, and every value lies between them. */
  lemma DescribeOrdered(c: Column, std: seq<real> -> real)
    ensures var xs := Values(c.cells); var r := Describe(c, std);
      && r.count == |xs|
      && (r.min.Some? <==> |xs| > 0)
      && (|xs| > 0 ==>
            && r.min.Some? && r.q1.Some? && r.median.Some? && r.q3.Some? && r.max.Some?
            && r.min.value <= r.q1.value <= r.median.value <= r.q3.value <= r.max.value
            && r.min.value in xs && r.max.value in xs
            && forall i :: 0 <= i < |xs| ==> r.min.value <= xs[i] <= r.max.value)
  {
    var xs := Values(c.cells);
    if |xs| > 0 {
      var s := Sort(xs);
      var r := Describe(c, std);
      assert r.min == Some(s[0]) && r.max == Some(s[|s| - 1]);
      assert r.q1 == Some(Quantile(s, 0.25)) && r.median == Some(Quantile(s, 0.5)) && r.q3 == Some(Quantile(s, 0.75));
      QuantileMonotone(s, 0.25, 0.5);
      QuantileMonotone(s, 0.5, 0.75);
      SortBounds(xs);
    }
  }

  function DescribeColumns(cols: seq<Column>, std: seq<real> -> real): (r: seq<Summary>)
    ensures |r| == |cols| && forall i :: 0 <= i < |cols| ==> r[i] == Describe(cols[i], std)
  {
    seq(|cols|, i requires 0 <= i < |cols| => Describe(cols[i], std))
  }

  // ---------------------------------------------------------------- correlation

  /** `corr()` over the numeric columns: Pearson's r of every ordered pair,
      the diagonal included. */
  function Correlations(cols: seq<Column>, pearson: (seq<Cell>, seq<Cell>) -> Option<real>): (d: ResultTable)
    ensures d.CorrelationMatrix? && Square(d.names, d.r) && |d.names| == |cols|
    ensures forall i, j :: 0 <= i < |cols| && 0 <= j < |cols| ==>
      d.names[i] == cols[i].name && d.r[i][j] == pearson(cols[i].cells, cols[j].cells)
  {
    CorrelationMatrix(
      seq(|cols|, i requires 0 <= i < |cols| => cols[i].name),
      seq(|cols|, i requires 0 <= i < |cols| =>
        seq(|cols|, j requires 0 <= j < |cols| => pearson(cols[i].cells, cols[j].cells))))
  }

  /** Pearson's r does not depend on the order of its two columns, so the
      analyzer's matrix is symmetric and lists every strong pair both ways. */
  lemma CorrelationsBothWays(cols: seq<Column>, pearson: (seq<Cell>, seq<Cell>) -> Option<real>,
                             a: string, b: string, v: real)
    requires forall x, y :: pearson(x, y) == pearson(y, x)
    ensures var d := Correlations(cols, pearson);
      && Symmetric(d.r)
      && (StrongPair(a, b, v) in StrongPairs(d.names, d.r) <==> StrongPair(b, a, v) in StrongPairs(d.names, d.r))
  {
    var d := Correlations(cols, pearson);
    forall i, j | 0 <= i < |d.r| && 0 <= j < |d.r| && j < |d.r[i]| && i < |d.r[j]|
      ensures d.r[i][j] == d.r[j][i]
    {
      assert d.r[i][j] == pearson(cols[i].cells, cols[j].cells);
    }
    StrongPairsBothWays(d.names, d.r, a, b, v);
  }

  // ---------------------------------------------------------------- the analyzer

  /** Why the analyzer as written can stop: `idxmax` of the empty profile. */
  datatype Crash = ArgMaxOfEmpty

  /** Descriptive statistics, unless the numeric frame is empty. */
  function DescriptiveTables(t: Table, std: seq<real> -> real): (ds: seq<ResultTable>)
    ensures forall d :: d in ds ==> d.Descriptive?
  {
    if NumericFrameEmpty(t) then [] else [Descriptive(DescribeColumns(NumericColumns(t.columns), std))]
  }

  /** The missing-value profile, left out when no cell is missing. */
  function MissingTables(t: Table): (ds: seq<ResultTable>)
    requires WellFormed(t)
    ensures forall d :: d in ds ==> Admissible(d)
    ensures ds == [] || (|ds| == 1 && ds[0].MissingProfile?)
  {
    var rows := MissingRows(t.columns, t.rowCount);
    if rows == [] then [] else [MissingProfile(rows)]
  }

  /** The correlation matrix, when there are at least two numeric columns. */
  function CorrelationTables(t: Table, pearson: (seq<Cell>, seq<Cell>) -> Option<real>): (ds: seq<ResultTable>)
    ensures forall d :: d in ds ==> Admissible(d) && d.CorrelationMatrix?
  {
    var nums := NumericColumns(t.columns);
    if |nums| > 1 then [Correlations(nums, pearson)] else []
  }

  /** The tables as the source builds them: the missing-value profile always. */
  function BasicTablesAsWritten(t: Table, lib: Library): seq<ResultTable>
    requires WellFormed(t)
  {
    DescriptiveTables(t, lib.std) + [MissingProfile(MissingRows(t.columns, t.rowCount))]
    + [GeneralInfo(GeneralInfoRows(t))] + CorrelationTables(t, lib.pearson)
  }

  /** The analyzer as written: the engine's `idxmax` raises on an empty
      profile, and the exception ends the whole analysis. */
  function BasicEntriesAsWritten(t: Table, lib: Library): (r: Result<seq<AnalysisEntry>, Crash>)
    requires WellFormed(t)
  {
    var ds := BasicTablesAsWritten(t, lib);
    if forall d :: d in ds ==> Admissible(d) then Success(Bundle(ds, t, lib))
    else Failure(ArgMaxOfEmpty)
  }

  /** The corrected tables: the profile only when some cell is missing. */
  function BasicTables(t: Table, lib: Library): (ds: seq<ResultTable>)
    requires WellFormed(t)
    ensures forall d :: d in ds ==> Admissible(d)
  {
    DescriptiveTables(t, lib.std) + MissingTables(t) + [GeneralInfo(GeneralInfoRows(t))] + CorrelationTables(t, lib.pearson)
  }

  function BasicEntries(t: Table, lib: Library): seq<AnalysisEntry>
    requires WellFormed(t)
  {
    Bundle(BasicTables(t, lib), t, lib)
  }

  /** The corrected analyzer, one `analyses[...] = ...` at a time: the
      missing profile is added only when it has a row. The source adds it
      always and then fails for a table with no missing cell
      (`BasicEntriesAsWritten`). */
  method GenerateBasicAnalysis(t: Table, lib: Library) returns (analyses: seq<AnalysisEntry>)
    requires WellFormed(t)
    ensures analyses == BasicEntries(t, lib)
  {
    var descriptive := DescriptiveTables(t, lib.std);
    var missing := MissingTables(t);
    var info := [GeneralInfo(GeneralInfoRows(t))];
    var correlation := CorrelationTables(t, lib.pearson);
    analyses := GenerateEntries(t, lib, descriptive);
    var es := GenerateEntries(t, lib, missing);
    BundleAppend(descriptive, missing, t, lib);
    analyses := analyses + es;
    es := GenerateEntries(t, lib, info);
    BundleAppend(descriptive + missing, info, t, lib);
    analyses := analyses + es;
    es := GenerateEntries(t, lib, correlation);
    BundleAppend(descriptive + missing + info, correlation, t, lib);
    analyses := analyses + es;
  }

  // ---------------------------------------------------------------- the finding

  /** The analyzer as written fails exactly on a table without a missing cell. */
  lemma AsWrittenFailsIffComplete(t: Table, lib: Library)
    requires WellFormed(t)
    ensures BasicEntriesAsWritten(t, lib).Failure? <==> TotalMissing(t.columns) == 0
  {
    MissingRowsTotal(t.columns, t.rowCount);
    AdmissibleIffProfile(DescriptiveTables(t, lib.std), MissingRows(t.columns, t.rowCount),
      GeneralInfo(GeneralInfoRows(t)), CorrelationTables(t, lib.pearson));
  }

  /** Around an always-admissible descriptive part, general information and
      correlation part, the whole list is admissible exactly when the profile is. */
  lemma AdmissibleIffProfile(a: seq<ResultTable>, rows: seq<MissingRow>, g: ResultTable, c: seq<ResultTable>)
    requires (forall d :: d in a ==> d.Descriptive?) && g.GeneralInfo? && forall d :: d in c ==> Admissible(d)
    ensures (forall d :: d in a + [MissingProfile(rows)] + [g] + c ==> Admissible(d)) <==> |rows| > 0
  {
    var ds := a + [MissingProfile(rows)] + [g] + c;
    assert MissingProfile(rows) in ds;
    if |rows| > 0 {
      forall d | d in ds ensures Admissible(d) {
        assert d in a || d == MissingProfile(rows) || d == g || d in c;
      }
    }
  }

  /** A one-cell table with no missing value makes the analyzer as written fail. */
  lemma CompleteTableCrashes(lib: Library)
    ensures var t := Table(1, [Column("amount", Numeric, [Num(5.0)])]);
      WellFormed(t) && BasicEntriesAsWritten(t, lib) == Failure(ArgMaxOfEmpty)
  {
    var t := Table(1, [Column("amount", Numeric, [Num(5.0)])]);
    assert MissingCount(t.columns[0].cells) == 0;
    assert TotalMissing(t.columns) == 0;
    AsWrittenFailsIffComplete(t, lib);
  }

  /** Where the analyzer as written succeeds, the corrected one returns the
      same entries. */
  lemma CorrectionAgrees(t: Table, lib: Library)
    requires WellFormed(t)
    ensures BasicEntriesAsWritten(t, lib).Success? ==> BasicEntriesAsWritten(t, lib).value == BasicEntries(t, lib)
  {
    AsWrittenFailsIffComplete(t, lib);
    MissingRowsTotal(t.columns, t.rowCount);
  }

  /** The corrected analyzer has the missing-value profile exactly when some
      cell is missing, and always the general-information table. */
  lemma BasicTablesMissing(t: Table, lib: Library)
    requires WellFormed(t)
    ensures (exists d :: d in BasicTables(t, lib) && d.MissingProfile?) <==>
      exists c :: c in t.columns && MissingCount(c.cells) > 0
    ensures GeneralInfo(GeneralInfoRows(t)) in BasicTables(t, lib)
  {
    MissingRowsTotal(t.columns, t.rowCount);
    TotalMissingPositive(t.columns);
    ProfileIffPresent(DescriptiveTables(t, lib.std), MissingTables(t),
      GeneralInfo(GeneralInfoRows(t)), CorrelationTables(t, lib.pearson));
  }

  /** Among descriptive, general-information and correlation tables, a
      profile is present exactly when the missing part is not empty. */
  lemma ProfileIffPresent(a: seq<ResultTable>, m: seq<ResultTable>, g: ResultTable, c: seq<ResultTable>)
    requires forall d :: d in a ==> d.Descriptive?
    requires m == [] || (|m| == 1 && m[0].MissingProfile?)
    requires g.GeneralInfo? && forall d :: d in c ==> d.CorrelationMatrix?
    ensures (exists d :: d in a + m + [g] + c && d.MissingProfile?) <==> m != []
    ensures g in a + m + [g] + c
  {
    var ds := a + m + [g] + c;
    if m != [] {
      assert m[0] in ds;
    }
    if exists d :: d in ds && d.MissingProfile? {
      var d :| d in ds && d.MissingProfile?;
      assert d in a || d in m || d == g || d in c;
    }
  }

  /** Descriptive statistics exactly when the numeric frame is not empty, and
      the correlation matrix exactly when there are two numeric columns. */
  lemma BasicTablesNumeric(t: Table, lib: Library)
    requires WellFormed(t)
    ensures (exists d :: d in BasicTables(t, lib) && d.Descriptive?) <==> !NumericFrameEmpty(t)
    ensures (exists d :: d in BasicTables(t, lib) && d.CorrelationMatrix?) <==> |NumericColumns(t.columns)| > 1
  {
    var a := DescriptiveTables(t, lib.std);
    var c := CorrelationTables(t, lib.pearson);
    if a != [] { assert a[0] in BasicTables(t, lib); }
    if c != [] { assert c[0] in BasicTables(t, lib); }
  }
}
