/** The time analyzer (`generate_time_analysis`): the first detected date
    column is converted strictly, made the index, and every remaining numeric
    column is averaged per month, per quarter and per year. */
module TimeAnalysis {
  import opened Wrappers
  import opened Stats
  import opened Tables
  import opened Results
  import opened InsightEngine
  import opened DateDetection

  /** The period columns the analyzer writes into its copy of the table; a
      column under one of these names is never averaged. */
  const PeriodNames: seq<string> := ["month", "quarter", "year"]

  datatype Period = ByMonth | ByQuarter | ByYear

  /** The calendar quarter holding a month. */
  function Quarter(m: Month): (q: int)
    ensures 1 <= q <= 4 && 3 * q - 2 <= m <= 3 * q
  {
    (m - 1) / 3 + 1
  }

  /** The group key of a date for a period. */
  function Key(p: Period, d: Date): int {
    match p
    case ByMonth => d.month
    case ByQuarter => Quarter(d.month)
    case ByYear => d.year
  }

  // ---------------------------------------------------------------- strict conversion

  /** `pd.to_datetime(col)` without `errors='coerce'`: it raises when a
      present cell does not parse; missing cells become NaT (None). */
  function StrictDates(cells: seq<Cell>, parse: Cell -> Option<Date>): (r: Option<seq<Option<Date>>>)
    ensures r.None? <==> exists i :: 0 <= i < |cells| && !cells[i].Null? && parse(cells[i]).None?
    ensures r.Some? ==> |r.value| == |cells|
    ensures r.Some? ==> forall i :: 0 <= i < |cells| ==> r.value[i] == (if cells[i].Null? then None else parse(cells[i]))
    decreases |cells|
  {
    if cells == [] then Some([])
    else
      var n := |cells| - 1;
      var last := cells[n];
      assert forall i :: 0 <= i < n ==> cells[..n][i] == cells[i];
      match StrictDates(cells[..n], parse)
      case None => None
      case Some(ds) =>
        if last.Null? then Some(ds + [None])
        else if parse(last).None? then None
        else Some(ds + [parse(last)])
  }

  // ---------------------------------------------------------------- averaged columns

  /** A column the analyzer averages: numeric, not the date column (which
      became the index) and not one of the period columns. */
  predicate Averaged(c: Column, dateName: string) {
    c.kind == Numeric && c.name != dateName && c.name !in PeriodNames
  }

  function TimeColumns(cols: seq<Column>, dateName: string): (r: seq<Column>)
    ensures |r| <= |cols|
    ensures forall c :: c in r <==> c in cols && Averaged(c, dateName)
    decreases |cols|
  {
    if cols == [] then []
    else
      var last := cols[|cols| - 1];
      assert cols == cols[..|cols| - 1] + [last];
      TimeColumns(cols[..|cols| - 1], dateName) + (if Averaged(last, dateName) then [last] else [])
  }

  // ---------------------------------------------------------------- groups

  predicate Increasing(ks: seq<int>) {
    forall i, j :: 0 <= i < j < |ks| ==> ks[i] < ks[j]
  }

  /** Adds a key to an ascending list of distinct keys. */
  function InsertKey(k: int, ks: seq<int>): (r: seq<int>)
    requires Increasing(ks)
    ensures Increasing(r)
    ensures forall x :: x in r <==> x == k || x in ks
    decreases |ks|
  {
    if ks == [] then [k]
    else if k < ks[0] then
      ConsIncreasing(k, ks);
      [k] + ks
    else if k == ks[0] then ks
    else
      var rest := InsertKey(k, ks[1..]);
      ConsIncreasing(ks[0], rest);
      [ks[0]] + rest
  }

  /** A key below the head of an ascending list (or below all of it) keeps it ascending. */
  lemma ConsIncreasing(k: int, ks: seq<int>)
    requires Increasing(ks)
    requires ks == [] || k < ks[0] || forall x :: x in ks ==> k < x
    ensures Increasing([k] + ks)
  {
    forall i, j | 0 <= i < j < |[k] + ks| ensures ([k] + ks)[i] < ([k] + ks)[j] {
      assert ([k] + ks)[j] == ks[j - 1];
      if i > 0 {
        assert ([k] + ks)[i] == ks[i - 1];
      } else if ks != [] && k < ks[0] && j > 1 {
        assert ks[0] < ks[j - 1];
      } else {
        assert ks[j - 1] in ks;
      }
    }
  }

  /** A row falls in group k: its date converted and has key k. */
  predicate InGroup(date: Option<Date>, p: Period, k: int) {
    date.Some? && Key(p, date.value) == k
  }

  /** The group keys `groupby` produces: ascending, distinct, and exactly the
      keys of the rows with a date (NaT rows fall in no group). */
  function GroupKeys(dates: seq<Option<Date>>, p: Period): (ks: seq<int>)
    ensures Increasing(ks)
    ensures forall k :: k in ks <==> exists i :: 0 <= i < |dates| && InGroup(dates[i], p, k)
    decreases |dates|
  {
    if dates == [] then []
    else
      var n := |dates| - 1;
      var last := dates[n];
      assert forall i :: 0 <= i < n ==> dates[..n][i] == dates[i];
      var ks := GroupKeys(dates[..n], p);
      if last.Some? then InsertKey(Key(p, last.value), ks) else ks
  }

  /** The numbers of one column on the rows of group k, in row order. */
  function GroupValues(dates: seq<Option<Date>>, cells: seq<Cell>, p: Period, k: int): (xs: seq<real>)
    requires |cells| == |dates|
    ensures forall x :: x in xs <==> exists i :: 0 <= i < |dates| && InGroup(dates[i], p, k) && cells[i] == Num(x)
    decreases |dates|
  {
    if dates == [] then []
    else
      var n := |dates| - 1;
      assert forall i :: 0 <= i < n ==> dates[..n][i] == dates[i] && cells[..n][i] == cells[i];
      GroupValues(dates[..n], cells[..n], p, k)
        + (if InGroup(dates[n], p, k) && cells[n].Num? then [cells[n].x] else [])
  }

  /** The column with every cell outside group k replaced by a missing cell. */
  function Masked(dates: seq<Option<Date>>, cells: seq<Cell>, p: Period, k: int): seq<Cell>
    requires |cells| == |dates|
  {
    seq(|dates|, i requires 0 <= i < |dates| => if InGroup(dates[i], p, k) then cells[i] else Null)
  }

  /** The numbers of a group are the `dropna()` of the column with the other
      groups masked out: same order, repeats kept. */
  lemma {:induction false} GroupValuesMasked(dates: seq<Option<Date>>, cells: seq<Cell>, p: Period, k: int)
    requires |cells| == |dates|
    ensures GroupValues(dates, cells, p, k) == Values(Masked(dates, cells, p, k))
    decreases |dates|
  {
    if dates != [] {
      var n := |dates| - 1;
      GroupValuesMasked(dates[..n], cells[..n], p, k);
      assert Masked(dates, cells, p, k)[..n] == Masked(dates[..n], cells[..n], p, k);
    }
  }

  /** `mean()` of a group: NaN (None) when the group has no number in the
      column, otherwise the mean of all its numbers, repeats counted. */
  function GroupMean(dates: seq<Option<Date>>, cells: seq<Cell>, p: Period, k: int): (m: Option<real>)
    requires |cells| == |dates|
    ensures m.Some? <==> exists i :: 0 <= i < |dates| && InGroup(dates[i], p, k) && cells[i].Num?
    ensures m.Some? ==> Values(Masked(dates, cells, p, k)) != [] && m.value == Mean(Values(Masked(dates, cells, p, k)))
  {
    var xs := GroupValues(dates, cells, p, k);
    GroupValuesMasked(dates, cells, p, k);
    assert forall i :: 0 <= i < |dates| && InGroup(dates[i], p, k) && cells[i].Num? ==>
      cells[i] == Num(cells[i].x) && cells[i].x in xs;
    if xs == [] then None
    else
      assert xs[0] in xs;
      assert exists i :: 0 <= i < |dates| && InGroup(dates[i], p, k) && cells[i] == Num(xs[0]);
      Some(Mean(xs))
  }

  /** A group's mean lies between any bounds on the group's numbers. */
  lemma GroupMeanWithin(dates: seq<Option<Date>>, cells: seq<Cell>, p: Period, k: int, lo: real, hi: real)
    requires |cells| == |dates| && GroupMean(dates, cells, p, k).Some?
    requires forall i :: 0 <= i < |dates| && InGroup(dates[i], p, k) && cells[i].Num? ==> lo <= cells[i].x <= hi
    ensures lo <= GroupMean(dates, cells, p, k).value <= hi
  {
    var xs := GroupValues(dates, cells, p, k);
    forall j | 0 <= j < |xs| ensures lo <= xs[j] <= hi {
      assert xs[j] in xs;
    }
    MeanWithin(xs, lo, hi);
  }

  /** `df_temp.groupby(period)[cols].mean()`: one row per group key, one
      column per averaged column. */
  function GroupTableOf(dates: seq<Option<Date>>, cols: seq<Column>, p: Period): (g: GroupTable)
    requires forall c :: c in cols ==> |c.cells| == |dates|
    ensures g.keys == GroupKeys(dates, p) && |g.columns| == |cols| && |g.means| == |g.keys|
    ensures forall b :: 0 <= b < |cols| ==> g.columns[b] == cols[b].name
    ensures forall a :: 0 <= a < |g.keys| ==> |g.means[a]| == |cols|
    ensures forall a, b :: 0 <= a < |g.keys| && 0 <= b < |cols| ==>
      g.means[a][b] == GroupMean(dates, cols[b].cells, p, g.keys[a])
  {
    var keys := GroupKeys(dates, p);
    GroupTable(
      keys,
      seq(|cols|, b requires 0 <= b < |cols| => cols[b].name),
      seq(|keys|, a requires 0 <= a < |keys| =>
        seq(|cols|, b requires 0 <= b < |cols| => assert cols[b] in cols; GroupMean(dates, cols[b].cells, p, keys[a]))))
  }

  /** Every month key lies in 1..12 and every quarter key in 1..4. */
  lemma PeriodKeyRanges(dates: seq<Option<Date>>)
    ensures forall k :: k in GroupKeys(dates, ByMonth) ==> 1 <= k <= 12
    ensures forall k :: k in GroupKeys(dates, ByQuarter) ==> 1 <= k <= 4
  {
  }

  /** The quarterly groups are the quarters of the monthly groups. */
  lemma QuartersOfMonths(dates: seq<Option<Date>>)
    ensures forall q :: q in GroupKeys(dates, ByQuarter) <==>
      exists m: Month :: m in GroupKeys(dates, ByMonth) && Quarter(m) == q
  {
    forall q | q in GroupKeys(dates, ByQuarter)
      ensures exists m: Month :: m in GroupKeys(dates, ByMonth) && Quarter(m) == q
    {
      var i :| 0 <= i < |dates| && InGroup(dates[i], ByQuarter, q);
      var m := dates[i].value.month;
      assert InGroup(dates[i], ByMonth, m);
    }
    forall q | exists m: Month :: m in GroupKeys(dates, ByMonth) && Quarter(m) == q
      ensures q in GroupKeys(dates, ByQuarter)
    {
      var m: Month :| m in GroupKeys(dates, ByMonth) && Quarter(m) == q;
      var i :| 0 <= i < |dates| && InGroup(dates[i], ByMonth, m);
      assert InGroup(dates[i], ByQuarter, q);
    }
  }

  // ---------------------------------------------------------------- the analyzer

  /** No date column: nothing. A date column that will not convert: the
      error table. No averaged column: nothing. Otherwise the monthly,
      quarterly and yearly means. */
  function TimeTables(t: Table, parse: Cell -> Option<Date>): (ds: seq<ResultTable>)
    requires WellFormed(t)
    ensures forall d :: d in ds ==> Admissible(d)
    ensures ds == [] || ds == [TimeError] || (|ds| == 3 && ds[0].Monthly? && ds[1].Quarterly? && ds[2].Yearly?)
  {
    match FirstDateColumn(t.columns, parse)
    case None => []
    case Some(dc) =>
      match StrictDates(dc.cells, parse)
      case None => [TimeError]
      case Some(dates) =>
        var cols := TimeColumns(t.columns, dc.name);
        if cols == [] then []
        else [Monthly(GroupTableOf(dates, cols, ByMonth)), Quarterly(GroupTableOf(dates, cols, ByQuarter)),
              Yearly(GroupTableOf(dates, cols, ByYear))]
  }

  function TimeEntries(t: Table, lib: Library): seq<AnalysisEntry>
    requires WellFormed(t)
  {
    Bundle(TimeTables(t, lib.parseDate), t, lib)
  }

  /** Detection, then the conversion inside the source's `try`, then the
      three group-bys. The date column is looked up by the first detected
      name, which in a table with distinct names is the first date column. */
  method GenerateTimeAnalysis(t: Table, lib: Library) returns (analyses: seq<AnalysisEntry>)
    requires WellFormed(t)
    ensures analyses == TimeEntries(t, lib)
  {
    var names := DetectDateColumns(t, lib.parseDate);
    var ds: seq<ResultTable> := [];
    if names != [] {
      FirstDateColumnHeadsNames(t.columns, lib.parseDate);
      var dc := FirstDateColumn(t.columns, lib.parseDate).value;
      var dates := StrictDates(dc.cells, lib.parseDate);
      if dates.None? {
        ds := [TimeError];
      } else {
        var cols := TimeColumns(t.columns, dc.name);
        if |cols| > 0 {
          ds := [Monthly(GroupTableOf(dates.value, cols, ByMonth)), Quarterly(GroupTableOf(dates.value, cols, ByQuarter)),
                 Yearly(GroupTableOf(dates.value, cols, ByYear))];
        }
      }
    } else {
      FirstDateColumnHeadsNames(t.columns, lib.parseDate);
    }
    assert ds == TimeTables(t, lib.parseDate);
    analyses := GenerateEntries(t, lib, ds);
  }

  /** The three outcomes: no date column detected gives nothing; a present
      date cell that will not convert strictly gives the error table alone;
      otherwise the three period tables come exactly when some column is
      averaged. */
  lemma TimeOutcomes(t: Table, parse: Cell -> Option<Date>)
    requires WellFormed(t)
    ensures DateColumnNames(t.columns, parse) == [] ==> TimeTables(t, parse) == []
    ensures TimeTables(t, parse) == [TimeError] <==>
      && FirstDateColumn(t.columns, parse).Some?
      && var dc := FirstDateColumn(t.columns, parse).value;
         exists i :: 0 <= i < |dc.cells| && !dc.cells[i].Null? && parse(dc.cells[i]).None?
    ensures |TimeTables(t, parse)| == 3 <==>
      && FirstDateColumn(t.columns, parse).Some?
      && var dc := FirstDateColumn(t.columns, parse).value;
         && StrictDates(dc.cells, parse).Some?
         && exists c :: c in t.columns && Averaged(c, dc.name)
  {
    FirstDateColumnHeadsNames(t.columns, parse);
    var first := FirstDateColumn(t.columns, parse);
    if first.Some? && StrictDates(first.value.cells, parse).Some? {
      var cols := TimeColumns(t.columns, first.value.name);
      if cols != [] {
        assert cols[0] in cols;
      }
      if exists c :: c in t.columns && Averaged(c, first.value.name) {
        var c :| c in t.columns && Averaged(c, first.value.name);
        assert c in cols;
      }
    }
  }

  /** When the period tables are built, every one of them has a group: the
      date column has a cell that converts. */
  lemma PeriodTablesHaveGroups(t: Table, parse: Cell -> Option<Date>)
    requires WellFormed(t) && |TimeTables(t, parse)| == 3
    ensures TimeTables(t, parse)[0].Monthly? && |TimeTables(t, parse)[0].monthly.keys| > 0
    ensures TimeTables(t, parse)[1].Quarterly? && |TimeTables(t, parse)[1].quarterly.keys| > 0
    ensures TimeTables(t, parse)[2].Yearly? && |TimeTables(t, parse)[2].yearly.keys| > 0
  {
    var dc := FirstDateColumn(t.columns, parse).value;
    var dates := StrictDates(dc.cells, parse).value;
    var i :| 0 <= i < |dc.cells| && Parses(dc.cells[i], parse);
    assert dates[i] == parse(dc.cells[i]);
    var d := dates[i].value;
    assert Key(ByMonth, d) in GroupKeys(dates, ByMonth);
    assert Key(ByQuarter, d) in GroupKeys(dates, ByQuarter);
    assert Key(ByYear, d) in GroupKeys(dates, ByYear);
  }
}
