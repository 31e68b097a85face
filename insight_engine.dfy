/** The insight engine (`generate_insights_and_recommendations` and
    `generate_smart_analysis`): turns one result table into insight and
    recommendation messages by fixed threshold rules. */
module InsightEngine {
  import opened Wrappers
  import opened Seqs
  import opened Stats
  import opened Tables
  import opened Results

  const DropPercent: real := 50.0          // missing % above which a column should be dropped
  const AdvancedImputationPercent: real := 20.0
  const HighVariation: real := 50.0        // CoV % above which a column is volatile
  const LowVariation: real := 10.0         // CoV % below which a column is stable
  const OutlierPercent: real := 10.0
  const StrongCorrelationCutoff: real := 0.7     // |r| above which a pair is reported
  const ReportedPairs: nat := 3

  /** What the engine may assume of the table it is handed: the two branches
      that call `idxmax` get at least one row, and a correlation matrix is
      square over its names. */
  predicate Admissible(d: ResultTable) {
    match d
    case MissingProfile(rows) => |rows| > 0
    case Profitability(rows) => |rows| > 0
    case CorrelationMatrix(names, r) => Square(names, r)
    case _ => true
  }

  predicate Square(names: seq<string>, r: seq<seq<Option<real>>>) {
    |r| == |names| && forall i :: 0 <= i < |r| ==> |r[i]| == |names|
  }

  // ---------------------------------------------------------------- missing data

  function MissingSum(rows: seq<MissingRow>): nat
    decreases |rows|
  {
    if rows == [] then 0 else MissingSum(rows[..|rows| - 1]) + rows[|rows| - 1].count
  }

  function MissingCounts(rows: seq<MissingRow>): (xs: seq<real>)
    ensures |xs| == |rows| && forall i :: 0 <= i < |rows| ==> xs[i] == rows[i].count as real
  {
    seq(|rows|, i requires 0 <= i < |rows| => rows[i].count as real)
  }

  /** The row `idxmax` picks: the first with the largest missing count. */
  function Worst(rows: seq<MissingRow>): (w: MissingRow)
    requires |rows| > 0
    ensures w in rows
  {
    rows[ArgMax(MissingCounts(rows))]
  }

  /** `idxmax` semantics: no row has more missing cells, and every earlier
      row has strictly fewer. */
  lemma WorstIsFirstLargest(rows: seq<MissingRow>)
    requires |rows| > 0
    ensures forall i :: 0 <= i < |rows| ==> rows[i].count <= Worst(rows).count
    ensures exists k :: 0 <= k < |rows| && rows[k] == Worst(rows) && forall i :: 0 <= i < k ==> rows[i].count < Worst(rows).count
  {
    var k := ArgMax(MissingCounts(rows));
    assert rows[k] == Worst(rows);
  }

  function MissingAdvice(percent: real): seq<Recommendation> {
    if percent > DropPercent then [DropColumn, InvestigateMissing]
    else if percent > AdvancedImputationPercent then [AdvancedImputation, SensitivityAnalysis]
    else [MeanOrMedianImputation, KnnImputation]
  }

  // ---------------------------------------------------------------- descriptive statistics

  /** std / mean * 100, or 0 when the mean is 0; None (NaN) when the mean is
      not 0 but there is a single value, whose sample deviation is NaN. */
  function CoefficientOfVariation(xs: seq<real>, std: seq<real> -> real): Option<real>
    requires |xs| > 0
  {
    var mean := Mean(xs);
    if mean == 0.0 then Some(0.0)
    else if |xs| < 2 then None
    else Some(std(xs) / mean * 100.0)
  }

  /** The recommendation for one column's CoV: NaN compares false both ways. */
  function VariationAdvice(name: string, cv: Option<real>): seq<Recommendation> {
    match cv
    case None => []
    case Some(v) =>
      if v > HighVariation then [HighVolatility(name)]
      else if v < LowVariation then [Stable(name)]
      else []
  }

  function VariationInsightOf(c: Column, std: seq<real> -> real): seq<Insight> {
    var xs := Values(c.cells);
    if |xs| > 0 then [Variation(c.name, CoefficientOfVariation(xs, std))] else []
  }

  function VariationAdviceOf(c: Column, std: seq<real> -> real): seq<Recommendation> {
    var xs := Values(c.cells);
    if |xs| > 0 then VariationAdvice(c.name, CoefficientOfVariation(xs, std)) else []
  }

  function VariationInsights(cols: seq<Column>, std: seq<real> -> real): seq<Insight>
    decreases |cols|
  {
    if cols == [] then []
    else VariationInsights(cols[..|cols| - 1], std) + VariationInsightOf(cols[|cols| - 1], std)
  }

  function VariationRecommendations(cols: seq<Column>, std: seq<real> -> real): seq<Recommendation>
    decreases |cols|
  {
    if cols == [] then []
    else VariationRecommendations(cols[..|cols| - 1], std) + VariationAdviceOf(cols[|cols| - 1], std)
  }

  // ---------------------------------------------------------------- outliers

  /** The rows whose outlier percentage is above the cutoff, in order. */
  function Flagged(rows: seq<OutlierRow>): seq<OutlierRow>
    decreases |rows|
  {
    if rows == [] then []
    else
      var last := rows[|rows| - 1];
      Flagged(rows[..|rows| - 1]) + (if last.percent > OutlierPercent then [last] else [])
  }

  function FlaggedInsights(rows: seq<OutlierRow>): seq<Insight>
    decreases |rows|
  {
    if rows == [] then []
    else
      var last := rows[|rows| - 1];
      FlaggedInsights(rows[..|rows| - 1]) + [OutlierShare(last.column, last.percent)]
  }

  function FlaggedAdvice(rows: seq<OutlierRow>): seq<Recommendation>
    decreases |rows|
  {
    if rows == [] then []
    else
      var last := rows[|rows| - 1];
      FlaggedAdvice(rows[..|rows| - 1]) + [InvestigateOutliers(last.column), Winsorize(last.column)]
  }

  function OutlierInsights(rows: seq<OutlierRow>): seq<Insight> {
    var flagged := Flagged(rows);
    if flagged != [] then [OutlierColumnCount(|flagged|)] + FlaggedInsights(flagged)
    else [OutliersAcceptable]
  }

  function OutlierRecommendations(rows: seq<OutlierRow>): seq<Recommendation> {
    var flagged := Flagged(rows);
    if flagged != [] then FlaggedAdvice(flagged) else [NoOutlierAction]
  }

  // ---------------------------------------------------------------- correlation

  datatype StrongPair = StrongPair(first: string, second: string, r: real)

  predicate IsStrong(x: Option<real>) {
    x.Some? && Abs(x.value) > StrongCorrelationCutoff
  }

  /** The pair (row i, column j), when the two names differ and |r| is large. */
  function PairAt(names: seq<string>, r: seq<seq<Option<real>>>, i: nat, j: nat): seq<StrongPair>
    requires Square(names, r) && i < |names| && j < |names|
  {
    if names[i] != names[j] && IsStrong(r[i][j]) then [StrongPair(names[i], names[j], r[i][j].value)] else []
  }

  /** Strong pairs of row i among its first m columns. */
  function PairsInRow(names: seq<string>, r: seq<seq<Option<real>>>, i: nat, m: nat): seq<StrongPair>
    requires Square(names, r) && i < |names| && m <= |names|
    decreases m
  {
    if m == 0 then [] else PairsInRow(names, r, i, m - 1) + PairAt(names, r, i, m - 1)
  }

  /** Strong pairs of the first m rows, row by row: the order of the source's
      double loop over ordered pairs. */
  function PairsUpTo(names: seq<string>, r: seq<seq<Option<real>>>, m: nat): seq<StrongPair>
    requires Square(names, r) && m <= |names|
    decreases m
  {
    if m == 0 then [] else PairsUpTo(names, r, m - 1) + PairsInRow(names, r, m - 1, |names|)
  }

  function StrongPairs(names: seq<string>, r: seq<seq<Option<real>>>): seq<StrongPair>
    requires Square(names, r)
  {
    PairsUpTo(names, r, |names|)
  }

  function PairInsights(ps: seq<StrongPair>): seq<Insight>
    decreases |ps|
  {
    if ps == [] then []
    else
      var p := ps[|ps| - 1];
      PairInsights(ps[..|ps| - 1]) + [StrongCorrelation(p.first, p.second, p.r)]
  }

  function PairAdvice(ps: seq<StrongPair>): seq<Recommendation>
    decreases |ps|
  {
    if ps == [] then []
    else
      var p := ps[|ps| - 1];
      PairAdvice(ps[..|ps| - 1]) + [RedundantPair(p.first, p.second), ReduceDimensions]
  }

  function CorrelationInsights(names: seq<string>, r: seq<seq<Option<real>>>): seq<Insight>
    requires Square(names, r)
  {
    var pairs := StrongPairs(names, r);
    if pairs != [] then [CorrelationCount(|pairs|)] + PairInsights(Take(pairs, ReportedPairs)) else []
  }

  function CorrelationRecommendations(names: seq<string>, r: seq<seq<Option<real>>>): seq<Recommendation>
    requires Square(names, r)
  {
    var pairs := StrongPairs(names, r);
    if pairs != [] then PairAdvice(Take(pairs, ReportedPairs)) else []
  }

  // ---------------------------------------------------------------- normality

  /** `row.get('نرمال') == 'بله'`: error rows have no flag and count as non-normal. */
  predicate IsNormal(row: NormalityRow) {
    row.outcome.Tested? && row.outcome.normal
  }

  function NormalColumns(rows: seq<NormalityRow>): seq<string>
    decreases |rows|
  {
    if rows == [] then []
    else
      var last := rows[|rows| - 1];
      NormalColumns(rows[..|rows| - 1]) + (if IsNormal(last) then [last.column] else [])
  }

  function NonNormalColumns(rows: seq<NormalityRow>): seq<string>
    decreases |rows|
  {
    if rows == [] then []
    else
      var last := rows[|rows| - 1];
      NonNormalColumns(rows[..|rows| - 1]) + (if IsNormal(last) then [] else [last.column])
  }

  function NormalityRecommendations(nonNormal: nat): seq<Recommendation> {
    if nonNormal > 0 then [NonParametricTests, NormalizingTransform] else [ParametricFine]
  }

  // ---------------------------------------------------------------- profitability

  function Shares(rows: seq<ProfitRow>): (xs: seq<real>)
    ensures |xs| == |rows| && forall i :: 0 <= i < |rows| ==> xs[i] == rows[i].share
  {
    seq(|rows|, i requires 0 <= i < |rows| => rows[i].share)
  }

  /** The row `idxmax` of the share column picks. */
  function TopRow(rows: seq<ProfitRow>): (top: ProfitRow)
    requires |rows| > 0
    ensures top in rows
  {
    rows[ArgMax(Shares(rows))]
  }

  /** `idxmax` semantics: no row has a larger share, and every earlier row
      has a strictly smaller one. */
  lemma TopRowIsFirstLargest(rows: seq<ProfitRow>)
    requires |rows| > 0
    ensures forall i :: 0 <= i < |rows| ==> rows[i].share <= TopRow(rows).share
    ensures exists k :: 0 <= k < |rows| && rows[k] == TopRow(rows) && forall i :: 0 <= i < k ==> rows[i].share < TopRow(rows).share
  {
    var k := ArgMax(Shares(rows));
    assert rows[k] == TopRow(rows);
  }

  // ---------------------------------------------------------------- dispatch

  /** The insights the matching branch appends (before the fallback). */
  function BranchInsights(d: ResultTable, t: Table, lib: Library): seq<Insight>
    requires Admissible(d)
  {
    match d
    case MissingProfile(rows) =>
      var w := Worst(rows);
      [MissingTotal(MissingSum(rows)), MissingWorst(w.column, w.count, w.percent)]
    case Descriptive(_) => VariationInsights(NumericColumns(t.columns), lib.std)
    case Outliers(rows) => OutlierInsights(rows)
    case CorrelationMatrix(names, r) => CorrelationInsights(names, r)
    case Normality(rows) => [NormalityCounts(|NormalColumns(rows)|, |NonNormalColumns(rows)|)]
    case Monthly(_) => [SeasonalPatterns]
    case Profitability(rows) =>
      var top := TopRow(rows);
      [TopContributor(top.column, top.share)]
    case _ => []
  }

  /** The recommendations the matching branch appends (before the fallback). */
  function BranchRecommendations(d: ResultTable, t: Table, lib: Library): seq<Recommendation>
    requires Admissible(d)
  {
    match d
    case MissingProfile(rows) => MissingAdvice(Worst(rows).percent)
    case Descriptive(_) => VariationRecommendations(NumericColumns(t.columns), lib.std)
    case Outliers(rows) => OutlierRecommendations(rows)
    case CorrelationMatrix(names, r) => CorrelationRecommendations(names, r)
    case Normality(rows) => NormalityRecommendations(|NonNormalColumns(rows)|)
    case Monthly(_) => [SeasonalModel, SarimaOrProphet]
    case Profitability(_) => [FocusOnTopContributors, PortfolioAnalysis]
    case _ => []
  }

  /** The insights list as appended, the generic one added when nothing else was. */
  function RawInsights(d: ResultTable, t: Table, lib: Library): seq<Insight>
    requires Admissible(d)
  {
    var ins := BranchInsights(d, t, lib);
    if ins == [] then [QualityAcceptable] else ins
  }

  function RawRecommendations(d: ResultTable, t: Table, lib: Library): seq<Recommendation>
    requires Admissible(d)
  {
    var recs := BranchRecommendations(d, t, lib);
    if BranchInsights(d, t, lib) == [] then recs + [ContinueAdvanced] else recs
  }

  function Insights(d: ResultTable, t: Table, lib: Library): seq<Insight>
    requires Admissible(d)
  {
    Dedup(RawInsights(d, t, lib))
  }

  function Recommendations(d: ResultTable, t: Table, lib: Library): seq<Recommendation>
    requires Admissible(d)
  {
    Dedup(RawRecommendations(d, t, lib))
  }

  /** The entry `generate_smart_analysis` returns. */
  function SmartEntry(d: ResultTable, t: Table, lib: Library): AnalysisEntry
    requires Admissible(d)
  {
    AnalysisEntry(d, Insights(d, t, lib), Recommendations(d, t, lib))
  }

  /** The entries of an analyzer: each of its tables in turn handed to
      `generate_smart_analysis`. */
  function Bundle(ds: seq<ResultTable>, t: Table, lib: Library): (es: seq<AnalysisEntry>)
    requires forall d :: d in ds ==> Admissible(d)
    ensures |es| == |ds|
  {
    Map(d requires Admissible(d) => SmartEntry(d, t, lib), ds)
  }

  /** Entry a of a bundle is the engine's entry for table a. */
  lemma BundleAt(ds: seq<ResultTable>, t: Table, lib: Library, a: nat)
    requires a < |ds| && forall d :: d in ds ==> Admissible(d)
    ensures Bundle(ds, t, lib)[a] == SmartEntry(ds[a], t, lib)
    ensures Bundle(ds, t, lib)[a].data == ds[a]
  {
    MapAt(d requires Admissible(d) => SmartEntry(d, t, lib), ds, a);
  }

  /** A bundle keeps its tables, in order. */
  lemma BundleData(ds: seq<ResultTable>, t: Table, lib: Library)
    requires forall d :: d in ds ==> Admissible(d)
    ensures forall a :: 0 <= a < |ds| ==> Bundle(ds, t, lib)[a].data == ds[a]
  {
    forall a | 0 <= a < |ds| ensures Bundle(ds, t, lib)[a].data == ds[a] {
      BundleAt(ds, t, lib, a);
    }
  }

  /** Each table in turn handed to `generate_smart_analysis`, its entry
      stored under the table's label. */
  method GenerateEntries(t: Table, lib: Library, ds: seq<ResultTable>) returns (es: seq<AnalysisEntry>)
    requires forall d :: d in ds ==> Admissible(d)
    ensures es == Bundle(ds, t, lib)
  {
    es := [];
    var i := 0;
    while i < |ds|
      invariant 0 <= i <= |ds|
      invariant es == Bundle(ds[..i], t, lib)
    {
      var e := GenerateSmartAnalysis(t, lib, ds[i]);
      BundleSnoc(ds, i, t, lib);
      es := es + [e];
      i := i + 1;
    }
    assert ds[..|ds|] == ds;
  }

  /** Bundling one more table appends its entry. */
  lemma BundleSnoc(ds: seq<ResultTable>, i: nat, t: Table, lib: Library)
    requires i < |ds| && forall d :: d in ds ==> Admissible(d)
    ensures Bundle(ds[..i + 1], t, lib) == Bundle(ds[..i], t, lib) + [SmartEntry(ds[i], t, lib)]
  {
    assert forall d :: d in ds[..i + 1] ==> d in ds;
    assert forall d :: d in ds[..i] ==> d in ds;
    MapSnoc(d requires Admissible(d) => SmartEntry(d, t, lib), ds, i);
  }

  /** Bundling a run of tables is bundling each part. */
  lemma BundleAppend(a: seq<ResultTable>, b: seq<ResultTable>, t: Table, lib: Library)
    requires forall d :: d in a + b ==> Admissible(d)
    ensures Bundle(a + b, t, lib) == Bundle(a, t, lib) + Bundle(b, t, lib)
  {
    assert forall d :: d in a ==> d in a + b;
    assert forall d :: d in b ==> d in a + b;
    MapAppend(d requires Admissible(d) => SmartEntry(d, t, lib), a, b);
  }


  // ---------------------------------------------------------------- the loops of the source

  /** The descriptive-statistics branch: one pass over the numeric columns. */
  method DescriptiveBranch(cols: seq<Column>, std: seq<real> -> real)
    returns (insights: seq<Insight>, recommendations: seq<Recommendation>)
    ensures insights == VariationInsights(cols, std)
    ensures recommendations == VariationRecommendations(cols, std)
  {
    insights, recommendations := [], [];
    var i := 0;
    while i < |cols|
      invariant 0 <= i <= |cols|
      invariant insights == VariationInsights(cols[..i], std)
      invariant recommendations == VariationRecommendations(cols[..i], std)
    {
      assert cols[..i + 1][..i] == cols[..i];
      var xs := Values(cols[i].cells);
      if |xs| > 0 {
        var cv := CoefficientOfVariation(xs, std);
        insights := insights + [Variation(cols[i].name, cv)];
        if cv.Some? && cv.value > HighVariation {
          recommendations := recommendations + [HighVolatility(cols[i].name)];
        } else if cv.Some? && cv.value < LowVariation {
          recommendations := recommendations + [Stable(cols[i].name)];
        }
      }
      i := i + 1;
    }
    assert cols[..|cols|] == cols;
  }

  /** The outlier branch: collect the flagged rows, then report each. */
  method OutlierBranch(rows: seq<OutlierRow>)
    returns (insights: seq<Insight>, recommendations: seq<Recommendation>)
    ensures insights == OutlierInsights(rows)
    ensures recommendations == OutlierRecommendations(rows)
  {
    var flagged: seq<OutlierRow> := [];
    var i := 0;
    while i < |rows|
      invariant 0 <= i <= |rows|
      invariant flagged == Flagged(rows[..i])
    {
      assert rows[..i + 1][..i] == rows[..i];
      if rows[i].percent > OutlierPercent {
        flagged := flagged + [rows[i]];
      }
      i := i + 1;
    }
    assert rows[..|rows|] == rows;
    insights, recommendations := [], [];
    if flagged != [] {
      insights := [OutlierColumnCount(|flagged|)];
      var k := 0;
      while k < |flagged|
        invariant 0 <= k <= |flagged|
        invariant insights == [OutlierColumnCount(|flagged|)] + FlaggedInsights(flagged[..k])
        invariant recommendations == FlaggedAdvice(flagged[..k])
      {
        assert flagged[..k + 1][..k] == flagged[..k];
        insights := insights + [OutlierShare(flagged[k].column, flagged[k].percent)];
        recommendations := recommendations + [InvestigateOutliers(flagged[k].column), Winsorize(flagged[k].column)];
        k := k + 1;
      }
      assert flagged[..|flagged|] == flagged;
    } else {
      insights := [OutliersAcceptable];
      recommendations := [NoOutlierAction];
    }
  }

  /** The correlation branch: the double loop over ordered pairs of names,
      then the first three pairs. */
  method CorrelationBranch(names: seq<string>, r: seq<seq<Option<real>>>)
    returns (insights: seq<Insight>, recommendations: seq<Recommendation>)
    requires Square(names, r)
    ensures insights == CorrelationInsights(names, r)
    ensures recommendations == CorrelationRecommendations(names, r)
  {
    var pairs := CollectPairs(names, r);
    insights, recommendations := [], [];
    if pairs != [] {
      insights, recommendations := ReportPairs(pairs);
    }
  }

  /** The double loop over ordered pairs of names, row by row. */
  method CollectPairs(names: seq<string>, r: seq<seq<Option<real>>>) returns (pairs: seq<StrongPair>)
    requires Square(names, r)
    ensures pairs == StrongPairs(names, r)
  {
    pairs := [];
    var i := 0;
    while i < |names|
      invariant 0 <= i <= |names|
      invariant pairs == PairsUpTo(names, r, i)
    {
      var row := RowPairs(names, r, i);
      pairs := pairs + row;
      i := i + 1;
    }
  }

  /** The correlation branch's report: the count, then the first three pairs. */
  method ReportPairs(pairs: seq<StrongPair>) returns (insights: seq<Insight>, recommendations: seq<Recommendation>)
    ensures insights == [CorrelationCount(|pairs|)] + PairInsights(Take(pairs, ReportedPairs))
    ensures recommendations == PairAdvice(Take(pairs, ReportedPairs))
  {
    insights := [CorrelationCount(|pairs|)];
    recommendations := [];
    var reported := Take(pairs, ReportedPairs);
    var k := 0;
    while k < |reported|
      invariant 0 <= k <= |reported|
      invariant insights == [CorrelationCount(|pairs|)] + PairInsights(reported[..k])
      invariant recommendations == PairAdvice(reported[..k])
    {
      assert reported[..k + 1][..k] == reported[..k];
      var p := reported[k];
      insights := insights + [StrongCorrelation(p.first, p.second, p.r)];
      recommendations := recommendations + [RedundantPair(p.first, p.second), ReduceDimensions];
      k := k + 1;
    }
    assert reported[..|reported|] == reported;
  }

  /** The inner loop of the correlation branch: the strong pairs of row i. */
  method RowPairs(names: seq<string>, r: seq<seq<Option<real>>>, i: nat) returns (pairs: seq<StrongPair>)
    requires Square(names, r) && i < |names|
    ensures pairs == PairsInRow(names, r, i, |names|)
  {
    pairs := [];
    var j := 0;
    while j < |names|
      invariant 0 <= j <= |names|
      invariant pairs == PairsInRow(names, r, i, j)
    {
      if names[i] != names[j] && r[i][j].Some? && Abs(r[i][j].value) > StrongCorrelationCutoff {
        pairs := pairs + [StrongPair(names[i], names[j], r[i][j].value)];
      }
      j := j + 1;
    }
  }

  /** The normality branch: split the rows by their flag, then count. */
  method NormalityBranch(rows: seq<NormalityRow>)
    returns (insights: seq<Insight>, recommendations: seq<Recommendation>)
    ensures insights == [NormalityCounts(|NormalColumns(rows)|, |NonNormalColumns(rows)|)]
    ensures recommendations == NormalityRecommendations(|NonNormalColumns(rows)|)
  {
    var normal: seq<string> := [];
    var nonNormal: seq<string> := [];
    var i := 0;
    while i < |rows|
      invariant 0 <= i <= |rows|
      invariant normal == NormalColumns(rows[..i])
      invariant nonNormal == NonNormalColumns(rows[..i])
    {
      assert rows[..i + 1][..i] == rows[..i];
      if rows[i].outcome.Tested? && rows[i].outcome.normal {
        normal := normal + [rows[i].column];
      } else {
        nonNormal := nonNormal + [rows[i].column];
      }
      i := i + 1;
    }
    assert rows[..|rows|] == rows;
    insights := [NormalityCounts(|normal|, |nonNormal|)];
    if nonNormal != [] {
      recommendations := [NonParametricTests, NormalizingTransform];
    } else {
      recommendations := [ParametricFine];
    }
  }

  /** The `if`/`elif` chain on the label: what the matching branch appends. */
  method Branch(d: ResultTable, t: Table, lib: Library)
    returns (insights: seq<Insight>, recommendations: seq<Recommendation>)
    requires Admissible(d)
    ensures insights == BranchInsights(d, t, lib)
    ensures recommendations == BranchRecommendations(d, t, lib)
  {
    match d {
      case MissingProfile(rows) =>
        var w := Worst(rows);
        insights := [MissingTotal(MissingSum(rows)), MissingWorst(w.column, w.count, w.percent)];
        recommendations := MissingAdvice(w.percent);
      case Descriptive(_) =>
        insights, recommendations := DescriptiveBranch(NumericColumns(t.columns), lib.std);
      case Outliers(rows) =>
        insights, recommendations := OutlierBranch(rows);
      case CorrelationMatrix(names, r) =>
        insights, recommendations := CorrelationBranch(names, r);
      case Normality(rows) =>
        insights, recommendations := NormalityBranch(rows);
      case Monthly(_) =>
        insights := [SeasonalPatterns];
        recommendations := [SeasonalModel, SarimaOrProphet];
      case Profitability(rows) =>
        var top := TopRow(rows);
        insights := [TopContributor(top.column, top.share)];
        recommendations := [FocusOnTopContributors, PortfolioAnalysis];
      case _ =>
        insights, recommendations := [], [];
    }
  }

  /** `generate_insights_and_recommendations`. */
  method GenerateInsightsAndRecommendations(d: ResultTable, t: Table, lib: Library)
    returns (insights: seq<Insight>, recommendations: seq<Recommendation>)
    requires Admissible(d)
    ensures insights == Insights(d, t, lib)
    ensures recommendations == Recommendations(d, t, lib)
  {
    insights, recommendations := Branch(d, t, lib);
    if insights == [] {
      insights := insights + [QualityAcceptable];
      recommendations := recommendations + [ContinueAdvanced];
    }
    insights := Dedup(insights);
    recommendations := Dedup(recommendations);
  }

  /** `generate_smart_analysis`: the table with its insights and recommendations. */
  method GenerateSmartAnalysis(t: Table, lib: Library, d: ResultTable) returns (e: AnalysisEntry)
    requires Admissible(d)
    ensures e == SmartEntry(d, t, lib)
  {
    var insights, recommendations := GenerateInsightsAndRecommendations(d, t, lib);
    e := AnalysisEntry(d, insights, recommendations);
  }
}
