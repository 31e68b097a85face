/** The in-memory table (a pandas DataFrame read from the uploaded
    workbook) and the library routines the analyzers call but whose numerics
    are not modelled. */
module Tables {
  import opened Wrappers

  type Month = m: int | 1 <= m <= 12 witness 1

  datatype Date = Date(year: int, month: Month, day: int)

  /** One cell. `Null` is pandas' missing marker (NaN, None, NaT). */
  datatype Cell = Null | Num(x: real) | Text(s: string) | Stamp(when: Date)

  /** The dtype families the analyzers select on: `np.number`, `object`
      (text or mixed), and datetime. */
  datatype Kind = Numeric | Object | DateTime

  datatype Column = Column(name: string, kind: Kind, cells: seq<Cell>)

  datatype Table = Table(rowCount: nat, columns: seq<Column>)

  /** A numeric column holds only numbers and missing cells, a datetime
      column only timestamps and missing cells. */
  predicate CellFits(k: Kind, cell: Cell) {
    match k
    case Numeric => cell.Null? || cell.Num?
    case DateTime => cell.Null? || cell.Stamp?
    case Object => true
  }

  predicate FitsKind(c: Column) {
    forall i :: 0 <= i < |c.cells| ==> CellFits(c.kind, c.cells[i])
  }

  /** Row-aligned columns with distinct names. */
  predicate WellFormed(t: Table) {
    && (forall c :: c in t.columns ==> |c.cells| == t.rowCount && FitsKind(c))
    && (forall i, j :: 0 <= i < j < |t.columns| ==> t.columns[i].name != t.columns[j].name)
  }

  datatype ShapiroOutcome = Shapiro(statistic: real, pValue: real) | ShapiroRaised

  /** Library code taken as given: `pd.to_datetime` on one cell (None where
      it cannot parse), the sample standard deviation (called only on two or
      more values), Pearson's r over two columns (None for NaN), and
      `scipy.stats.shapiro`. */
  datatype Library = Library(
    parseDate: Cell -> Option<Date>,
    std: seq<real> -> real,
    pearson: (seq<Cell>, seq<Cell>) -> Option<real>,
    shapiro: seq<real> -> ShapiroOutcome)

  /** `df.select_dtypes(include=[np.number])`, in column order. */
  function NumericColumns(cols: seq<Column>): (r: seq<Column>)
    ensures |r| <= |cols|
    ensures forall c :: c in r <==> c in cols && c.kind == Numeric
    decreases |cols|
  {
    if cols == [] then []
    else
      var last := cols[|cols| - 1];
      assert cols == cols[..|cols| - 1] + [last];
      NumericColumns(cols[..|cols| - 1]) + (if last.kind == Numeric then [last] else [])
  }

  /** Number of `object` columns (`df.select_dtypes(include=['object'])`). */
  function ObjectColumnCount(cols: seq<Column>): (n: nat)
    ensures n <= |cols|
    decreases |cols|
  {
    if cols == [] then 0
    else ObjectColumnCount(cols[..|cols| - 1]) + (if cols[|cols| - 1].kind == Object then 1 else 0)
  }

  /** `numeric_df.empty`: no numeric column, or no row. */
  predicate NumericFrameEmpty(t: Table) {
    |NumericColumns(t.columns)| == 0 || t.rowCount == 0
  }

  /** The numbers of a column with missing cells dropped (`dropna()`), in order. */
  function Values(cells: seq<Cell>): (r: seq<real>)
    ensures |r| <= |cells|
    decreases |cells|
  {
    if cells == [] then []
    else
      var last := cells[|cells| - 1];
      Values(cells[..|cells| - 1]) + (if last.Num? then [last.x] else [])
  }

  /** `isnull().sum()` of one column. */
  function MissingCount(cells: seq<Cell>): (n: nat)
    ensures n <= |cells|
    decreases |cells|
  {
    if cells == [] then 0
    else MissingCount(cells[..|cells| - 1]) + (if cells[|cells| - 1].Null? then 1 else 0)
  }

  /** `df.isnull().sum().sum()`. */
  function TotalMissing(cols: seq<Column>): nat
    decreases |cols|
  {
    if cols == [] then 0
    else TotalMissing(cols[..|cols| - 1]) + MissingCount(cols[|cols| - 1].cells)
  }

  /** A cell is missing exactly when it adds to the missing count. */
  lemma {:induction false} MissingCountPositive(cells: seq<Cell>)
    ensures MissingCount(cells) > 0 <==> exists i :: 0 <= i < |cells| && cells[i].Null?
    decreases |cells|
  {
    if cells != [] {
      var p := cells[..|cells| - 1];
      MissingCountPositive(p);
      if exists i :: 0 <= i < |p| && p[i].Null? {
        var i :| 0 <= i < |p| && p[i].Null?;
        assert cells[i].Null?;
      }
    }
  }

  /** The table has a missing cell exactly when the total count is positive. */
  lemma {:induction false} TotalMissingPositive(cols: seq<Column>)
    ensures TotalMissing(cols) > 0 <==> exists c :: c in cols && MissingCount(c.cells) > 0
    decreases |cols|
  {
    if cols != [] {
      TotalMissingPositive(cols[..|cols| - 1]);
      assert cols == cols[..|cols| - 1] + [cols[|cols| - 1]];
    }
  }
}
