/** The report of one upload (`upload_dataset`): the four analyzers run
    over the same table, grouped under their category keys, and the sheet
    each analysis is written to. The report is built on the corrected basic
    analyzer (`BasicEntries`); `BuildReportAsWritten` is the upload as the
    source has it, which fails for a table with no missing cell. */
module Report {
  import opened Wrappers
  import opened Seqs
  import opened Tables
  import opened Results
  import opened InsightEngine
  import opened InsightFacts
  import opened DateDetection
  import opened BasicAnalysis
  import opened TimeAnalysis
  import opened StatisticalAnalysis
  import opened BusinessAnalysis

  const Basic: string := "پایه"
  const Temporal: string := "زمانی"
  const Statistical: string := "آماری"
  const Business: string := "کسب‌وکار"

  /** The category keys, in the order the report lists them. */
  const Categories: seq<string> := [Basic, Temporal, Statistical, Business]

  /** The longest sheet name an Excel workbook accepts. */
  const SheetNameLimit: nat := 31

  datatype Category = Category(name: string, analyses: seq<AnalysisEntry>)

  /** `all_analyses` with the corrected basic analyzer: each analyzer's
      entries under its category key. */
  function BuildReport(t: Table, lib: Library): (r: seq<Category>)
    requires WellFormed(t)
    ensures |r| == |Categories|
  {
    [Category(Categories[0], BasicEntries(t, lib)), Category(Categories[1], TimeEntries(t, lib)),
     Category(Categories[2], StatisticalEntries(t, lib)), Category(Categories[3], BusinessEntries(t, lib))]
  }

  /** The four analyzer calls of the upload view, the basic one corrected. */
  method GenerateReport(t: Table, lib: Library) returns (r: seq<Category>)
    requires WellFormed(t)
    ensures r == BuildReport(t, lib)
  {
    var basic := GenerateBasicAnalysis(t, lib);
    var temporal := GenerateTimeAnalysis(t, lib);
    var statistical := GenerateStatisticalAnalysis(t, lib);
    var business := GenerateBusinessAnalysis(t, lib);
    r := [Category(Categories[0], basic), Category(Categories[1], temporal),
          Category(Categories[2], statistical), Category(Categories[3], business)];
  }

  /** `all_analyses` as the source builds it: the basic analyzer's `idxmax`
      failure ends the whole upload. */
  function BuildReportAsWritten(t: Table, lib: Library): Result<seq<Category>, Crash>
    requires WellFormed(t)
  {
    match BasicEntriesAsWritten(t, lib)
    case Failure(e) => Failure(e)
    case Success(basic) =>
      Success([Category(Categories[0], basic), Category(Categories[1], TimeEntries(t, lib)),
               Category(Categories[2], StatisticalEntries(t, lib)), Category(Categories[3], BusinessEntries(t, lib))])
  }

  /** The upload as written fails exactly for a table with no missing cell;
      otherwise it produces the report the corrected analyzer gives. */
  lemma ReportAsWrittenAgrees(t: Table, lib: Library)
    requires WellFormed(t)
    ensures BuildReportAsWritten(t, lib).Failure? <==> TotalMissing(t.columns) == 0
    ensures BuildReportAsWritten(t, lib).Success? ==> BuildReportAsWritten(t, lib).value == BuildReport(t, lib)
  {
    AsWrittenFailsIffComplete(t, lib);
    CorrectionAgrees(t, lib);
  }

  // ---------------------------------------------------------------- sheet names

  /** `f"{category}_{analysis_name}"[:31]`: a prefix of the joined name, cut
      only when the joined name is longer than the limit. */
  function SheetName(category: string, name: string): (s: string)
    ensures |s| <= SheetNameLimit
    ensures s <= category + "_" + name
    ensures |s| == SheetNameLimit || s == category + "_" + name
  {
    var full := category + "_" + name;
    if |full| <= SheetNameLimit then full else full[..SheetNameLimit]
  }

  /** The sheet of the a-th analysis of a category. */
  function SheetOf(c: Category, a: nat): string
    requires a < |c.analyses|
  {
    SheetName(c.name, Label(c.analyses[a].data))
  }

  /** No label is longer than 18 characters. */
  lemma LabelLength(d: ResultTable)
    ensures |Label(d)| <= 18
  {
  }

  /** The sheet names of the report are never cut: the longest category
      and the longest label still fit in 31 characters. */
  lemma SheetNamesWhole(category: string, d: ResultTable)
    requires category in Categories
    ensures SheetName(category, Label(d)) == category + "_" + Label(d)
  {
    LabelLength(d);
  }

  /** Joined names of two categories tell the category and label apart:
      the four category keys start with four different letters. */
  lemma JoinInjective(c1: string, l1: string, c2: string, l2: string)
    requires c1 in Categories && c2 in Categories
    requires c1 + "_" + l1 == c2 + "_" + l2
    ensures c1 == c2 && l1 == l2
  {
    assert (c1 + "_" + l1)[0] == c1[0] && (c2 + "_" + l2)[0] == c2[0];
    assert c1 == c2;
    assert (c1 + "_" + l1)[|c1| + 1..] == l1;
    assert (c2 + "_" + l2)[|c2| + 1..] == l2;
  }

  /** Different categories never join to the same name. */
  lemma DistinctCategories(c1: string, l1: string, c2: string, l2: string)
    requires c1 in Categories && c2 in Categories && c1 != c2
    ensures c1 + "_" + l1 != c2 + "_" + l2
  {
    assert (c1 + "_" + l1)[0] == c1[0] && (c2 + "_" + l2)[0] == c2[0];
  }

  /** Which table a result is, as an ordinal. */
  function Rank(d: ResultTable): nat {
    match d
    case Descriptive(_) => 0
    case MissingProfile(_) => 1
    case GeneralInfo(_) => 2
    case CorrelationMatrix(_, _) => 3
    case Monthly(_) => 4
    case Quarterly(_) => 5
    case Yearly(_) => 6
    case TimeError => 7
    case Normality(_) => 8
    case Outliers(_) => 9
    case Profitability(_) => 10
    case Growth(_) => 11
  }

  /** Different kinds of table carry different labels. */
  lemma LabelsTellKindsApart(d1: ResultTable, d2: ResultTable)
    requires Label(d1) == Label(d2)
    ensures Rank(d1) == Rank(d2)
  {
  }

  predicate Ascending(ds: seq<ResultTable>) {
    forall a, b :: 0 <= a < b < |ds| ==> Rank(ds[a]) < Rank(ds[b])
  }

  /** Each analyzer lists its tables in a fixed order of kinds, so no kind twice. */
  lemma BasicAscending(t: Table, lib: Library)
    requires WellFormed(t)
    ensures Ascending(BasicTables(t, lib))
  {
    var a, m, c := DescriptiveTables(t, lib.std), MissingTables(t), CorrelationTables(t, lib.pearson);
    assert |a| <= 1 && forall x :: x in a ==> Rank(x) == 0;
    assert |m| <= 1 && forall x :: x in m ==> Rank(x) == 1;
    assert |c| <= 1 && forall x :: x in c ==> Rank(x) == 3;
    var ds := a + m + [GeneralInfo(GeneralInfoRows(t))] + c;
    assert ds == BasicTables(t, lib);
    forall i, j | 0 <= i < j < |ds| ensures Rank(ds[i]) < Rank(ds[j]) {

    }
  }

  lemma TimeAscending(t: Table, parse: Cell -> Option<Date>)
    requires WellFormed(t)
    ensures Ascending(TimeTables(t, parse))
  {
    var ds := TimeTables(t, parse);
    if |ds| == 3 {
      PeriodsAscending(ds);
    }
  }

  lemma PeriodsAscending(ds: seq<ResultTable>)
    requires |ds| == 3 && ds[0].Monthly? && ds[1].Quarterly? && ds[2].Yearly?
    ensures Ascending(ds)
  {
  }

  lemma StatisticalAscending(t: Table, lib: Library)
    requires WellFormed(t)
    ensures Ascending(StatisticalTables(t, lib))
  {
    var ds := StatisticalTables(t, lib);
    if ds != [] {
      NormalityThenOutliers(ds);
    }
  }

  lemma NormalityThenOutliers(ds: seq<ResultTable>)
    requires |ds| == 2 && ds[0].Normality? && ds[1].Outliers?
    ensures Ascending(ds)
  {
  }

  lemma BusinessAscending(t: Table)
    ensures Ascending(BusinessTables(t))
  {
    var nums := NumericColumns(t.columns);
    var profits, growth := ProfitRows(nums, TotalSum(nums)), GrowthRows(nums);
    if !NumericFrameEmpty(t) {
      assert BusinessTables(t) == PresentTables(profits, growth);
      PresentAscending(profits, growth);
    }
  }

  /** Profitability before growth, each at most once. */
  lemma PresentAscending(profits: seq<ProfitRow>, growth: seq<GrowthRow>)
    ensures Ascending(PresentTables(profits, growth))
  {
    var ds := PresentTables(profits, growth);
    assert forall d :: d in ds ==> d.Profitability? || d.Growth?;
    if |ds| == 2 {
      assert ds[0].Profitability? && ds[1].Growth?;
    }
  }

  /** The tables behind each category of the report. */
  function CategoryTables(t: Table, lib: Library, i: nat): (ds: seq<ResultTable>)
    requires WellFormed(t) && i < |Categories|
    ensures forall d :: d in ds ==> Admissible(d)
  {
    if i == 0 then BasicTables(t, lib)
    else if i == 1 then TimeTables(t, lib.parseDate)
    else if i == 2 then StatisticalTables(t, lib)
    else BusinessTables(t)
  }

  /** Category i of the report bundles its tables under its key. */
  lemma CategoryBundles(t: Table, lib: Library, i: nat)
    requires WellFormed(t) && i < |Categories|
    ensures BuildReport(t, lib)[i].analyses == Bundle(CategoryTables(t, lib, i), t, lib)
    ensures BuildReport(t, lib)[i].name == Categories[i]
  {
  }

  /** The tables of category i come in a fixed order of kinds. */
  lemma CategoryAscending(t: Table, lib: Library, i: nat)
    requires WellFormed(t) && i < |Categories|
    ensures Ascending(CategoryTables(t, lib, i))
  {
    if i == 0 {
      BasicAscending(t, lib);
    } else if i == 1 {
      TimeAscending(t, lib.parseDate);
    } else if i == 2 {
      StatisticalAscending(t, lib);
    } else {
      BusinessAscending(t);
    }
  }

  /** Every analysis of the report gets a sheet of its own: within a
      category the labels differ, and across categories the keys do. */
  lemma SheetNamesDistinct(t: Table, lib: Library)
    requires WellFormed(t)
    ensures var r := BuildReport(t, lib);
      forall i, a, j, b ::
        && 0 <= i < |r| && 0 <= a < |r[i].analyses|
        && 0 <= j < |r| && 0 <= b < |r[j].analyses|
        && (i != j || a != b)
        ==> SheetOf(r[i], a) != SheetOf(r[j], b)
  {
    ReportAscending(t, lib);
    SheetsOfLabelledCategories(BuildReport(t, lib));
  }

  /** The entries hold tables of strictly ascending kinds. */
  predicate AscendingEntries(es: seq<AnalysisEntry>) {
    forall a, b :: 0 <= a < b < |es| ==> Rank(es[a].data) < Rank(es[b].data)
  }

  lemma ReportAscending(t: Table, lib: Library)
    requires WellFormed(t)
    ensures forall i :: 0 <= i < |Categories| ==>
      BuildReport(t, lib)[i].name == Categories[i] && AscendingEntries(BuildReport(t, lib)[i].analyses)
  {
    forall i | 0 <= i < |Categories|
      ensures BuildReport(t, lib)[i].name == Categories[i] && AscendingEntries(BuildReport(t, lib)[i].analyses)
    {
      CategoryBundles(t, lib, i);
      CategoryAscending(t, lib, i);
      BundleData(CategoryTables(t, lib, i), t, lib);
    }
  }

  /** Sheet names are distinct in any list of the four categories whose
      analyses hold tables of ascending kinds. */
  lemma SheetsOfLabelledCategories(r: seq<Category>)
    requires |r| == |Categories|
    requires forall i :: 0 <= i < |r| ==> r[i].name == Categories[i] && AscendingEntries(r[i].analyses)
    ensures forall i, a, j, b ::
        && 0 <= i < |r| && 0 <= a < |r[i].analyses|
        && 0 <= j < |r| && 0 <= b < |r[j].analyses|
        && (i != j || a != b)
        ==> SheetOf(r[i], a) != SheetOf(r[j], b)
  {
    forall i, a, j, b |
      && 0 <= i < |r| && 0 <= a < |r[i].analyses|
      && 0 <= j < |r| && 0 <= b < |r[j].analyses|
      && (i != j || a != b)
      ensures SheetOf(r[i], a) != SheetOf(r[j], b)
    {
      var x, y := r[i].analyses[a].data, r[j].analyses[b].data;
      SheetNamesWhole(r[i].name, x);
      SheetNamesWhole(r[j].name, y);
      if i != j {
        DistinctCategories(r[i].name, Label(x), r[j].name, Label(y));
      } else if SheetOf(r[i], a) == SheetOf(r[j], b) {
        JoinInjective(r[i].name, Label(x), r[j].name, Label(y));
        LabelsTellKindsApart(x, y);
        assert false;
      }
    }
  }

  // ---------------------------------------------------------------- what every report holds

  /** Every analysis in the report carries at least one insight, and neither
      its insights nor its recommendations repeat. */
  lemma EveryAnalysisExplained(t: Table, lib: Library)
    requires WellFormed(t)
    ensures var r := BuildReport(t, lib);
      forall i, a :: 0 <= i < |r| && 0 <= a < |r[i].analyses| ==>
        && |r[i].analyses[a].insights| > 0
        && NoDuplicates(r[i].analyses[a].insights)
        && NoDuplicates(r[i].analyses[a].recommendations)
  {
    var r := BuildReport(t, lib);
    forall i, a | 0 <= i < |r| && 0 <= a < |r[i].analyses|
      ensures |r[i].analyses[a].insights| > 0
      ensures NoDuplicates(r[i].analyses[a].insights) && NoDuplicates(r[i].analyses[a].recommendations)
    {
      var ds := CategoryTables(t, lib, i);
      CategoryBundles(t, lib, i);
      BundleAt(ds, t, lib, a);
      Fallback(ds[a], t, lib);
    }
  }

  /** A table without numeric columns gets no statistics of any kind: only
      the missing-value profile, the general information and, at most, the
      time analysis error. */
  lemma NoNumbersNoStatistics(t: Table, lib: Library)
    requires WellFormed(t) && NumericColumns(t.columns) == []
    ensures var r := BuildReport(t, lib);
      forall i, a :: 0 <= i < |r| && 0 <= a < |r[i].analyses| ==>
        var d := r[i].analyses[a].data;
        d.MissingProfile? || d.GeneralInfo? || d.TimeError?
  {
    var r := BuildReport(t, lib);
    forall i, a | 0 <= i < |r| && 0 <= a < |r[i].analyses|
      ensures var d := r[i].analyses[a].data; d.MissingProfile? || d.GeneralInfo? || d.TimeError?
    {
      var ds := CategoryTables(t, lib, i);
      CategoryBundles(t, lib, i);
      NoNumbersTables(t, lib, i);
      BundleAt(ds, t, lib, a);
      assert ds[a] in ds;
    }
  }

  lemma NoNumbersTables(t: Table, lib: Library, i: nat)
    requires WellFormed(t) && NumericColumns(t.columns) == [] && i < |Categories|
    ensures forall d :: d in CategoryTables(t, lib, i) ==> d.MissingProfile? || d.GeneralInfo? || d.TimeError?
  {
    if i == 0 {
      NoNumbersBasic(t, lib);
    } else if i == 1 {
      NoNumbersTime(t, lib.parseDate);
    }
  }

  lemma NoNumbersBasic(t: Table, lib: Library)
    requires WellFormed(t) && NumericColumns(t.columns) == []
    ensures forall d :: d in BasicTables(t, lib) ==> d.MissingProfile? || d.GeneralInfo?
  {
    assert DescriptiveTables(t, lib.std) == [] && CorrelationTables(t, lib.pearson) == [];
  }

  lemma NoNumbersTime(t: Table, parse: Cell -> Option<Date>)
    requires WellFormed(t) && NumericColumns(t.columns) == []
    ensures forall d :: d in TimeTables(t, parse) ==> d.TimeError?
  {
    assert forall c :: c in t.columns ==> c.kind != Numeric;
    TimeOutcomes(t, parse);
  }
}
