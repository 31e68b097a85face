/** The result tables the analyzers build, the insight and recommendation
    messages the insight engine writes about them, and the entry that bundles
    the three. */
module Results {
  import opened Wrappers

  /** One row of `describe()`: count, mean, std, min, 25%, 50%, 75%, max. */
  datatype Summary = Summary(
    column: string, count: nat, mean: Option<real>, std: Option<real>,
    min: Option<real>, q1: Option<real>, median: Option<real>, q3: Option<real>, max: Option<real>)

  datatype MissingRow = MissingRow(column: string, count: nat, percent: real)

  datatype Feature = Rows | Columns | MissingCells | NumericColumnCount | TextColumnCount

  datatype InfoRow = InfoRow(feature: Feature, value: nat)

  /** Group-by-period means: one row per period key (ascending), one column
      per numeric column; None where a group has no value in that column. */
  datatype GroupTable = GroupTable(keys: seq<int>, columns: seq<string>, means: seq<seq<Option<real>>>)

  /** A normality row: the test ran (with the "normal" flag, the source's
      'بله'/'خیر'), or the error marker written when the test raised. */
  datatype NormalityOutcome = Tested(statistic: real, pValue: real, normal: bool) | Insufficient

  datatype NormalityRow = NormalityRow(column: string, outcome: NormalityOutcome)

  datatype OutlierRow = OutlierRow(column: string, count: nat, percent: real, lower: Option<real>, upper: Option<real>)

  datatype ProfitRow = ProfitRow(column: string, total: real, mean: real, share: real)

  datatype GrowthRow = GrowthRow(column: string, percent: Option<real>)

  /** A named result table. The constructor is the analysis label the source
      passes as a string beside the table. */
  datatype ResultTable =
    | Descriptive(summaries: seq<Summary>)
    | MissingProfile(missing: seq<MissingRow>)
    | GeneralInfo(info: seq<InfoRow>)
    | CorrelationMatrix(names: seq<string>, r: seq<seq<Option<real>>>)
    | Monthly(monthly: GroupTable)
    | Quarterly(quarterly: GroupTable)
    | Yearly(yearly: GroupTable)
    | TimeError
    | Normality(tests: seq<NormalityRow>)
    | Outliers(outliers: seq<OutlierRow>)
    | Profitability(profits: seq<ProfitRow>)
    | Growth(growth: seq<GrowthRow>)

  /** The key under which an analyzer stores the table, which is also the
      label it hands to the insight engine. */
  function Label(d: ResultTable): string {
    match d
    case Descriptive(_) => "آمار توصیفی"
    case MissingProfile(_) => "داده‌های مفقودی"
    case GeneralInfo(_) => "اطلاعات کلی"
    case CorrelationMatrix(_, _) => "ماتریس همبستگی"
    case Monthly(_) => "تحلیل ماهانه"
    case Quarterly(_) => "تحلیل فصلی"
    case Yearly(_) => "تحلیل سالانه"
    case TimeError => "خطا"
    case Normality(_) => "آزمون نرمالیتی"
    case Outliers(_) => "تحلیل داده‌های پرت"
    case Profitability(_) => "تحلیل سودآوری"
    case Growth(_) => "درصد رشد کلی"
  }

  /** The insight sentences, with the values each f-string interpolates. */
  datatype Insight =
    | MissingTotal(count: nat)
    | MissingWorst(column: string, count: nat, percent: real)
    | Variation(column: string, cov: Option<real>)
    | OutlierColumnCount(count: nat)
    | OutlierShare(column: string, percent: real)
    | OutliersAcceptable
    | CorrelationCount(count: nat)
    | StrongCorrelation(first: string, second: string, r: real)
    | NormalityCounts(normal: nat, nonNormal: nat)
    | SeasonalPatterns
    | TopContributor(column: string, share: real)
    | QualityAcceptable

  /** The recommendation sentences. */
  datatype Recommendation =
    | DropColumn | InvestigateMissing
    | AdvancedImputation | SensitivityAnalysis
    | MeanOrMedianImputation | KnnImputation
    | HighVolatility(column: string) | Stable(column: string)
    | InvestigateOutliers(column: string) | Winsorize(column: string) | NoOutlierAction
    | RedundantPair(first: string, second: string) | ReduceDimensions
    | NonParametricTests | NormalizingTransform | ParametricFine
    | SeasonalModel | SarimaOrProphet
    | FocusOnTopContributors | PortfolioAnalysis
    | ContinueAdvanced

  datatype AnalysisEntry = AnalysisEntry(data: ResultTable, insights: seq<Insight>, recommendations: seq<Recommendation>)
}
