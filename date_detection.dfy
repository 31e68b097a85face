/** Date-column detection (`detect_date_columns`): a column counts as a date
    column when coercing it to datetimes leaves at least one timestamp. */
module DateDetection {
  import opened Wrappers
  import opened Tables

  /** A cell that coercion turns into a timestamp rather than NaT. Missing
      cells always coerce to NaT. */
  predicate Parses(cell: Cell, parse: Cell -> Option<Date>) {
    !cell.Null? && parse(cell).Some?
  }

  /** `not to_datetime(col, errors='coerce').isna().all()`. */
  predicate AnyParses(cells: seq<Cell>, parse: Cell -> Option<Date>) {
    exists i :: 0 <= i < |cells| && Parses(cells[i], parse)
  }

  /** The detected names, in column order. */
  function DateColumnNames(cols: seq<Column>, parse: Cell -> Option<Date>): (names: seq<string>)
    ensures |names| <= |cols|
    decreases |cols|
  {
    if cols == [] then []
    else
      var last := cols[|cols| - 1];
      DateColumnNames(cols[..|cols| - 1], parse) + (if AnyParses(last.cells, parse) then [last.name] else [])
  }

  /** The loop of the source: one pass over the columns, appending each name
      whose column has a parsable cell. */
  method DetectDateColumns(t: Table, parse: Cell -> Option<Date>) returns (names: seq<string>)
    ensures names == DateColumnNames(t.columns, parse)
  {
    names := [];
    var i := 0;
    while i < |t.columns|
      invariant 0 <= i <= |t.columns|
      invariant names == DateColumnNames(t.columns[..i], parse)
    {
      var col := t.columns[i];
      var found := false;
      var k := 0;
      while k < |col.cells| && !found
        invariant 0 <= k <= |col.cells|
        invariant found <==> exists j :: 0 <= j < k && Parses(col.cells[j], parse)
      {
        found := Parses(col.cells[k], parse);
        k := k + 1;
      }
      assert t.columns[..i + 1][..i] == t.columns[..i];
      if found {
        names := names + [col.name];
      }
      i := i + 1;
    }
    assert t.columns[..|t.columns|] == t.columns;
  }

  /** Exactly the columns with a parsable cell are detected. */
  lemma {:induction false} DateColumnNamesMembers(cols: seq<Column>, parse: Cell -> Option<Date>)
    ensures forall n :: n in DateColumnNames(cols, parse) <==>
      exists c :: c in cols && c.name == n && AnyParses(c.cells, parse)
    decreases |cols|
  {
    if cols != [] {
      DateColumnNamesMembers(cols[..|cols| - 1], parse);
      assert cols == cols[..|cols| - 1] + [cols[|cols| - 1]];
    }
  }

  /** Detection keeps column order: detecting over two runs of columns is
      detecting over each and concatenating. */
  lemma {:induction false} DateColumnNamesAppend(a: seq<Column>, b: seq<Column>, parse: Cell -> Option<Date>)
    ensures DateColumnNames(a + b, parse) == DateColumnNames(a, parse) + DateColumnNames(b, parse)
    decreases |b|
  {
    if b == [] {
      assert a + b == a;
    } else {
      var b' := b[..|b| - 1];
      assert (a + b)[..|a + b| - 1] == a + b';
      DateColumnNamesAppend(a, b', parse);
    }
  }

  /** The first column that coerces to at least one timestamp; the time
      analysis takes its name from the head of the detected list. */
  function FirstDateColumn(cols: seq<Column>, parse: Cell -> Option<Date>): (r: Option<Column>)
    ensures r.Some? ==> r.value in cols && AnyParses(r.value.cells, parse)
    decreases |cols|
  {
    if cols == [] then None
    else if AnyParses(cols[0].cells, parse) then Some(cols[0])
    else FirstDateColumn(cols[1..], parse)
  }

  /** The first date column exists exactly when some name is detected, and
      its name heads the detected list. */
  lemma {:induction false} FirstDateColumnHeadsNames(cols: seq<Column>, parse: Cell -> Option<Date>)
    ensures FirstDateColumn(cols, parse).Some? <==> DateColumnNames(cols, parse) != []
    ensures FirstDateColumn(cols, parse).Some? ==>
      FirstDateColumn(cols, parse).value.name == DateColumnNames(cols, parse)[0]
    decreases |cols|
  {
    if cols != [] {
      FirstDateColumnHeadsNames(cols[1..], parse);
      assert cols == [cols[0]] + cols[1..];
      DateColumnNamesAppend([cols[0]], cols[1..], parse);
      assert [cols[0]][..0] == [];
    }
  }
}
