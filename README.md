# Data analyzer: analysis and insight pipeline

A Dafny model of the analysis core of the Django data-analyzer
(`data_analyzer/analyzer/views.py`). An uploaded spreadsheet becomes a
table of columns. Four analyzers turn it into named result tables: basic,
time, statistical and business. Each table goes through the insight engine,
which writes insight and recommendation messages about it by fixed
threshold rules. The upload view collects the four analyzers' entries
under their category keys and writes each table to a sheet whose name is
cut to 31 characters.

Modules:

- `Tables` holds the input table (`Table`, `Column`, `Cell`), the numeric
  column selection and missing-cell counts. It also holds `Library`, the
  oracles for the pandas/scipy computations that are not modelled: date
  parsing, standard deviation, Pearson r and Shapiro–Wilk.
- `Stats` holds sum, mean, insertion sort, pandas' linear-interpolation
  quantile and `idxmax` as the first largest position.
- `Results` defines the result tables, the insight and recommendation
  messages, and the analysis entry.
  - A result table is one constructor per analysis label, and the label
    string is derived from it.
  - A message is a constructor carrying the values its f-string
    interpolates.
- `DateDetection` models `detect_date_columns`.
- `InsightEngine` and `InsightFacts` model `generate_insights_and_recommendations`
  and `generate_smart_analysis`, and what they promise.
- `BasicAnalysis`, `TimeAnalysis`, `StatisticalAnalysis` and
  `BusinessAnalysis` model the four analyzers.
- `Report` models the `all_analyses` dictionary of the upload view and its
  sheet names.
  - `BuildReport` uses the corrected basic analyzer, which adds the missing
    profile only when it has a row.
  - `BuildReportAsWritten` is the upload as the source has it. It fails for
    a table with no missing cell (see "## Findings").
  - Facts stated about the report hold for the corrected program.
- `Seqs` holds order-keeping de-duplication, `Take` and a generic `Map`.

Every loop of the source is a method with a `while` loop. Its
postcondition ties the result to a recursive specification function, and
lemmas state the properties of that function. The loops are:

- `DetectDateColumns`
- the branch methods of the insight engine
- `NormalityTests`, `OutlierTable`, `ProfitabilityTable` and `GrowthTable`
- `GenerateEntries`: the successive `generate_smart_analysis` calls that
  fill an `analyses` dictionary

The single-expression tables are pure functions: `describe`, the missing
profile, general info, the correlation matrix and the group-by means.

## Model

| member | source | states |
|---|---|---|
| DateDetection.DetectDateColumns | data_analyzer/analyzer/views.py:18-28 | the loop returns the names of the columns, in column order, in which at least one cell parses as a date |
| DateDetection.DateColumnNamesMembers | data_analyzer/analyzer/views.py:18-28 | a name is detected iff some column with that name has a cell that parses |
| DateDetection.DateColumnNamesAppend | data_analyzer/analyzer/views.py:21-25 | detection over two runs of columns is the detection over each, concatenated (column order kept) |
| DateDetection.FirstDateColumnHeadsNames | data_analyzer/analyzer/views.py:199-201 | the column the time analysis uses exists iff a date column was detected, and it is the first detected one |
| InsightEngine.GenerateInsightsAndRecommendations | data_analyzer/analyzer/views.py:30-132 | the method returns the de-duplicated insights and recommendations of the branch its table selects, with the generic pair when the branch appended no insight |
| InsightEngine.Branch | data_analyzer/analyzer/views.py:35-122 | dispatch on the analysis label: each branch method appends exactly the branch's messages |
| InsightEngine.GenerateSmartAnalysis | data_analyzer/analyzer/views.py:134-147 | the entry holds the table unchanged together with the engine's insights and recommendations for it |
| InsightEngine.GenerateEntries | data_analyzer/analyzer/views.py:156-190 | successive `generate_smart_analysis` calls give one entry per table, in order |
| InsightEngine.BundleAt | data_analyzer/analyzer/views.py:134-147 | the a-th entry of an analyzer is the smart entry of its a-th table and carries that table as data |
| InsightEngine.BundleAppend | data_analyzer/analyzer/views.py:151-192 | entries of two runs of tables are the entries of each, concatenated |
| InsightEngine.WorstIsFirstLargest | data_analyzer/analyzer/views.py:37 | the worst missing column has the largest count, and no earlier row has that count (idxmax picks the first maximum) |
| InsightEngine.TopRowIsFirstLargest | data_analyzer/analyzer/views.py:119 | the top contributor has the largest share, and no earlier row has that share |
| InsightEngine.DescriptiveBranch | data_analyzer/analyzer/views.py:52-63 | the loop over numeric columns appends one CoV insight per column with a value and the CoV advice |
| InsightEngine.OutlierBranch | data_analyzer/analyzer/views.py:65-79 | the loop collects the columns above 10 % and appends the count insight and the per-column messages, or the acceptable pair |
| InsightEngine.CollectPairs | data_analyzer/analyzer/views.py:82-86 | the double loop collects the ordered strong pairs, row by row |
| InsightEngine.RowPairs | data_analyzer/analyzer/views.py:84-86 | the inner loop collects the strong pairs of one row |
| InsightEngine.ReportPairs | data_analyzer/analyzer/views.py:88-93 | the count insight, then messages for the first three pairs only |
| InsightEngine.CorrelationBranch | data_analyzer/analyzer/views.py:81-93 | the correlation branch appends the reported pair messages, and nothing when no pair is strong |
| InsightEngine.NormalityBranch | data_analyzer/analyzer/views.py:95-110 | the loop splits rows into normal and non-normal and appends one count insight and the matching advice |
| InsightFacts.MissingDataReport | data_analyzer/analyzer/views.py:35-50 | the missing branch reports the total and the worst column. Advice is drop + investigate above 50 %, advanced imputation + sensitivity above 20 %, and mean/median + KNN otherwise |
| InsightFacts.MissingAdviceDistinct | data_analyzer/analyzer/views.py:42-50 | each missing-advice pair is two distinct messages, so de-duplication keeps both in order |
| InsightFacts.VariationInsightReport | data_analyzer/analyzer/views.py:52-58 | a CoV insight for a name is reported iff some numeric column of the source table has that name, at least one value, and that CoV |
| InsightFacts.VariationInsightFor | data_analyzer/analyzer/views.py:54-58 | the same for the branch's own list |
| InsightFacts.VariationAdviceReport | data_analyzer/analyzer/views.py:60-63 | high-volatility advice iff CoV > 50; stable advice iff CoV < 10 (zero and negative included) |
| InsightFacts.VariationAdviceOfColumn | data_analyzer/analyzer/views.py:56-63 | the advice for one column follows the 50 / 10 cutoffs and needs a value in the column |
| InsightFacts.VariationInsightsMembers | data_analyzer/analyzer/views.py:54-58 | the descriptive insights are exactly the per-column insights |
| InsightFacts.VariationRecommendationsMembers | data_analyzer/analyzer/views.py:54-63 | the descriptive recommendations are exactly the per-column advice |
| InsightFacts.AdviceCanBeEmpty | data_analyzer/analyzer/views.py:52-63 | a one-value column gives one insight and no recommendation at all |
| InsightFacts.SingleValueColumn | data_analyzer/analyzer/views.py:55-57 | the same at the branch level: the CoV of one value is undefined (NaN) and triggers no advice |
| InsightFacts.OutlierQuietReport | data_analyzer/analyzer/views.py:77-79 | with no column above 10 %, exactly the acceptable insight and the no-action advice |
| InsightFacts.OutlierFlaggedReport | data_analyzer/analyzer/views.py:71-76 | with a column above 10 %, the count of flagged columns is reported and the acceptable pair is not |
| InsightFacts.OutlierColumnReport | data_analyzer/analyzer/views.py:67-76 | a column's share insight, its investigate advice and its winsorize advice appear iff its outlier % is above 10 |
| InsightFacts.OutlierShareMembers | data_analyzer/analyzer/views.py:67-74 | the same for the share insight at the branch level |
| InsightFacts.OutlierAdviceMembers | data_analyzer/analyzer/views.py:67-76 | the same for the two recommendations at the branch level |
| InsightFacts.FlaggedMembers | data_analyzer/analyzer/views.py:66-69 | the flagged rows are exactly the rows above 10 % |
| InsightFacts.FlaggedEmpty | data_analyzer/analyzer/views.py:71 | no row is flagged iff every row is at most 10 % |
| InsightFacts.FlaggedInsightsMembers | data_analyzer/analyzer/views.py:73-74 | one share insight per flagged row and nothing else |
| InsightFacts.FlaggedAdviceMembers | data_analyzer/analyzer/views.py:73-76 | two recommendations per flagged row and nothing else |
| InsightFacts.StrongPairsExactly | data_analyzer/analyzer/views.py:82-86 | a pair is strong iff its columns differ and abs(r) > 0.7 |
| InsightFacts.StrongPairsBothWays | data_analyzer/analyzer/views.py:83-86 | on a symmetric matrix every strong pair is also listed reversed |
| InsightFacts.StrongPairMirrored | data_analyzer/analyzer/views.py:83-86 | one direction of the above |
| InsightFacts.PairsInRowMembers | data_analyzer/analyzer/views.py:84-86 | the pairs of one row are those at the visited columns |
| InsightFacts.PairsUpToMembers | data_analyzer/analyzer/views.py:83-86 | the pairs of the first rows are those at the visited cells |
| InsightFacts.PairInsightsMembers | data_analyzer/analyzer/views.py:90-91 | one insight per reported pair |
| InsightFacts.PairAdviceMembers | data_analyzer/analyzer/views.py:90-93 | the redundancy advice per pair and the constant dimension-reduction advice |
| InsightFacts.CorrelationQuietReport | data_analyzer/analyzer/views.py:88-127 | no strong pair leaves the branch empty, so only the generic pair is returned |
| InsightFacts.CorrelationStrongReport | data_analyzer/analyzer/views.py:88-93 | with a strong pair, the count of all strong pairs and the dimension-reduction advice are reported |
| InsightFacts.CorrelationPairsReport | data_analyzer/analyzer/views.py:90-93 | a pair insight or redundancy advice appears iff the pair is among the first three strong pairs |
| InsightFacts.CorrelationBranchPairs | data_analyzer/analyzer/views.py:90-93 | the same at the branch level |
| InsightFacts.NormalityPartition | data_analyzer/analyzer/views.py:96-102 | normal + non-normal = rows; a non-normal row exists iff some row is not flagged normal |
| InsightFacts.NormalityReport | data_analyzer/analyzer/views.py:95-110 | one count insight; two non-parametric/transform recommendations iff a row is not normal, otherwise the parametric one |
| InsightFacts.SeasonalReport | data_analyzer/analyzer/views.py:112-116 | the monthly table gets the seasonal insight and the two time-series recommendations |
| InsightFacts.ProfitabilityReport | data_analyzer/analyzer/views.py:118-122 | the insight names the first column with the largest share; two fixed recommendations |
| InsightFacts.TopContributorNamed | data_analyzer/analyzer/views.py:118-122 | the profitability messages name the top row |
| InsightFacts.UnmatchedLabelsFallBack | data_analyzer/analyzer/views.py:112-127 | quarterly, yearly, general-info, growth and error tables match no branch and get only the generic pair |
| InsightFacts.BranchNeverGeneric | data_analyzer/analyzer/views.py:35-122 | no branch appends the generic messages itself |
| InsightFacts.Fallback | data_analyzer/analyzer/views.py:124-131 | the generic pair appears iff the branch appended no insight; insights are never empty; both lists have no duplicates |
| InsightFacts.NothingAppended | data_analyzer/analyzer/views.py:124-127 | a branch that appends nothing yields exactly the generic pair |
| InsightFacts.AppendedOnly | data_analyzer/analyzer/views.py:124-131 | when the branch appended insights, the result is the de-duplicated branch output |
| InsightFacts.InsightsMembers | data_analyzer/analyzer/views.py:129-131 | a non-generic insight is returned iff the branch appended it |
| InsightFacts.RecommendationsMembers | data_analyzer/analyzer/views.py:129-131 | a non-generic recommendation is returned iff the branch appended it |
| Seqs.Dedup | data_analyzer/analyzer/views.py:130-131 | `list(set(...))`: the result has no duplicates and holds exactly the messages appended (order is first-seen) |
| BasicAnalysis.GenerateBasicAnalysis | data_analyzer/analyzer/views.py:149-192 | the CORRECTED basic analyzer's entries (see "## Findings"; the source as written is `BasicAnalysis.BasicEntriesAsWritten`): descriptive unless the numeric frame is empty (no numeric column or no row), missing profile only if some cell is missing, general info, correlation if two or more numeric columns |
| BasicAnalysis.MissingRows | data_analyzer/analyzer/views.py:161-169 | the profile filtered to count > 0 has at most one row per column (its rows are characterised by `BasicAnalysis.MissingRowsMembers`) |
| BasicAnalysis.CorrelationsBothWays | data_analyzer/analyzer/views.py:83-86 | with a symmetric r, the matrix the analyzer builds at :187 is symmetric, so every strong pair in it is listed in both orders |
| BasicAnalysis.MissingRowsMembers | data_analyzer/analyzer/views.py:161-169 | the profile keeps exactly the columns with a missing count > 0, with percent = count / rows × 100 |
| BasicAnalysis.MissingPercentBounds | data_analyzer/analyzer/views.py:161-169 | each profile row has 0 < count <= rows and 0 < percent <= 100 |
| BasicAnalysis.MissingRowsTotal | data_analyzer/analyzer/views.py:161-169 | the profile's counts add up to all missing cells; the profile is empty iff nothing is missing |
| BasicAnalysis.GeneralInfoConsistent | data_analyzer/analyzer/views.py:173-182 | five distinct features; numeric + text columns at most all columns; missing cells at most rows × columns |
| BasicAnalysis.KindCounts | data_analyzer/analyzer/views.py:179-180 | numeric and text columns together are at most all columns |
| BasicAnalysis.MissingAtMostCells | data_analyzer/analyzer/views.py:178 | the missing-cell total is at most rows × columns |
| BasicAnalysis.DescribeOrdered | data_analyzer/analyzer/views.py:157 | a column with a value has min <= 25 % <= 50 % <= 75 % <= max, min and max are values, and they bound every value |
| BasicAnalysis.DescribeColumns | data_analyzer/analyzer/views.py:157 | one summary per numeric column, in order |
| BasicAnalysis.Correlations | data_analyzer/analyzer/views.py:187 | a square matrix over the numeric columns whose cells are the pairwise r |
| BasicAnalysis.BasicTablesNumeric | data_analyzer/analyzer/views.py:154-190 | a descriptive table iff the numeric frame is not empty (it has a numeric column and a row); a correlation table iff more than one numeric column |
| BasicAnalysis.BasicTablesMissing | data_analyzer/analyzer/views.py:160-183 | the corrected analyzer has a missing profile iff some cell is missing, and always the general info |
| BasicAnalysis.AsWrittenFailsIffComplete | data_analyzer/analyzer/views.py:161-170 | as written, the basic analysis fails exactly when no cell is missing |
| BasicAnalysis.CompleteTableCrashes | data_analyzer/analyzer/views.py:37 | a one-cell table with no missing value makes the as-written analysis fail at idxmax |
| BasicAnalysis.CorrectionAgrees | data_analyzer/analyzer/views.py:149-192 | wherever the as-written analysis succeeds, the corrected one gives the same entries |
| TimeAnalysis.GenerateTimeAnalysis | data_analyzer/analyzer/views.py:194-237 | the time analyzer's entries are those of the time tables |
| TimeAnalysis.TimeOutcomes | data_analyzer/analyzer/views.py:197-235 | no date column gives no entry; the error entry iff a present cell of the first date column does not parse; three period tables iff it parses and some numeric column is averaged |
| TimeAnalysis.PeriodTablesHaveGroups | data_analyzer/analyzer/views.py:214-231 | each of the three period tables has at least one group |
| TimeAnalysis.StrictDates | data_analyzer/analyzer/views.py:203 | strict conversion fails iff a present cell does not parse; otherwise each cell maps to its date, missing to none |
| TimeAnalysis.TimeColumns | data_analyzer/analyzer/views.py:211-212 | the averaged columns are the numeric ones other than the date column and the period names |
| TimeAnalysis.Quarter | data_analyzer/analyzer/views.py:208 | the quarter of a month is 1..4 and contains that month |
| TimeAnalysis.GroupKeys | data_analyzer/analyzer/views.py:216-228 | group keys ascend and are exactly the keys of the dated rows |
| TimeAnalysis.GroupValues | data_analyzer/analyzer/views.py:216-228 | a number is among a group's values iff it is on a row of that key |
| TimeAnalysis.GroupValuesMasked | data_analyzer/analyzer/views.py:216-228 | a group's values are the non-missing numbers of the column with the other groups' cells masked out, in row order with repeats kept |
| TimeAnalysis.GroupMean | data_analyzer/analyzer/views.py:216-228 | a group mean exists iff the group has a number in that column, and it is then the mean of all the group's numbers, repeats counted |
| TimeAnalysis.GroupMeanWithin | data_analyzer/analyzer/views.py:216-228 | a group mean lies between bounds of the group's values |
| TimeAnalysis.GroupTableOf | data_analyzer/analyzer/views.py:216-228 | one row per key, one column per averaged column, each cell the group mean |
| TimeAnalysis.PeriodKeyRanges | data_analyzer/analyzer/views.py:207-208 | month keys are in 1..12 and quarter keys in 1..4 |
| TimeAnalysis.QuartersOfMonths | data_analyzer/analyzer/views.py:207-208 | a quarter appears iff one of its months appears |
| TimeAnalysis.InsertKey | data_analyzer/analyzer/views.py:216 | inserting a key keeps the keys ascending and adds exactly that key |
| StatisticalAnalysis.GenerateStatisticalAnalysis | data_analyzer/analyzer/views.py:239-286 | the statistical analyzer's entries: normality then outliers, or nothing when the numeric frame is empty (no numeric column or no row) |
| StatisticalAnalysis.StatisticalTables | data_analyzer/analyzer/views.py:244-284 | no table iff the numeric frame is empty (no numeric column or no row), else exactly a normality and an outlier table |
| StatisticalAnalysis.NormalityTests | data_analyzer/analyzer/views.py:246-257 | the loop writes one row per column with more than three values |
| StatisticalAnalysis.NormalityRowOf | data_analyzer/analyzer/views.py:249-257 | normal iff p > 0.05; the error row iff the test raised |
| StatisticalAnalysis.NormalityRowsMembers | data_analyzer/analyzer/views.py:247-257 | the rows are exactly those of the columns with more than three values |
| StatisticalAnalysis.SmallColumnsSkipped | data_analyzer/analyzer/views.py:249 | a column with three or fewer values gets no row at all |
| StatisticalAnalysis.OutlierTable | data_analyzer/analyzer/views.py:264-280 | the loop writes one outlier row per numeric column, in order |
| StatisticalAnalysis.OutlierRowsAt | data_analyzer/analyzer/views.py:265-280 | the i-th outlier row is that of the i-th column |
| StatisticalAnalysis.OutlierRowOf | data_analyzer/analyzer/views.py:266-280 | count <= cells, percent in [0, 100]; fences exist iff the column has a value |
| StatisticalAnalysis.OutlierRowFences | data_analyzer/analyzer/views.py:266-272 | lower <= Q1 <= Q3 <= upper, and the count is of values outside the fences |
| StatisticalAnalysis.Fences | data_analyzer/analyzer/views.py:268-270 | the fences enclose the quartiles and span (1 + 2·1.5)·IQR |
| StatisticalAnalysis.Quartiles | data_analyzer/analyzer/views.py:266-267 | Q1 <= Q3 |
| StatisticalAnalysis.OutliersAreValues | data_analyzer/analyzer/views.py:272 | only present values count as outliers; none when every value lies within the fences |
| StatisticalAnalysis.OutlierExample | data_analyzer/analyzer/views.py:264-280 | [1,2,3,4,5,100] gives fences -1.5 and 8.5, one outlier and 100/6 % |
| StatisticalAnalysis.ExampleQuartiles | data_analyzer/analyzer/views.py:266-267 | the quartiles of [1,2,3,4,5,100] are 2.25 and 4.75 |
| StatisticalAnalysis.ExampleCount | data_analyzer/analyzer/views.py:272 | the fences of the example leave exactly one value outside |
| StatisticalAnalysis.OutlierTableBounds | data_analyzer/analyzer/views.py:264-280 | one row per numeric column, named after it, with percent in [0, 100] |
| BusinessAnalysis.GenerateBusinessAnalysis | data_analyzer/analyzer/views.py:288-329 | the business analyzer's entries: profitability if some column sums above 0, growth if some column qualifies |
| BusinessAnalysis.ProfitabilityTable | data_analyzer/analyzer/views.py:295-303 | the loop writes one row per column whose sum is positive |
| BusinessAnalysis.ProfitRowOf | data_analyzer/analyzer/views.py:299-303 | share = sum / total × 100 when the total of all numeric columns is positive, else 0 |
| BusinessAnalysis.ProfitRowsMembers | data_analyzer/analyzer/views.py:297-303 | the rows are exactly those of the columns with a positive sum |
| BusinessAnalysis.ShareSumIsPositiveSum | data_analyzer/analyzer/views.py:296-303 | the shares add up to the positive columns' sum as a percentage of the total |
| BusinessAnalysis.SharesAddUpTo100 | data_analyzer/analyzer/views.py:296-303 | when every numeric column's sum is positive, the shares add up to 100 |
| BusinessAnalysis.ShareCanExceed100 | data_analyzer/analyzer/views.py:296-303 | a negative column shrinks the total, so a share can be 200 % |
| BusinessAnalysis.ProfitabilityPresent | data_analyzer/analyzer/views.py:293-308 | the profitability entry exists iff some numeric column sums above 0 |
| BusinessAnalysis.ProfitabilityFirst | data_analyzer/analyzer/views.py:305-308 | the profitability entry exists iff its table has rows |
| BusinessAnalysis.GrowthTable | data_analyzer/analyzer/views.py:311-321 | the loop writes one row per column longer than one whose first value is not 0 |
| BusinessAnalysis.GrowthRowOf | data_analyzer/analyzer/views.py:315-319 | growth is a number iff the first and last cells hold values |
| BusinessAnalysis.GrowthRowsMembers | data_analyzer/analyzer/views.py:312-321 | the rows are exactly those of the qualifying columns |
| BusinessAnalysis.GrowthSign | data_analyzer/analyzer/views.py:318 | growth is positive iff last > first and zero iff they are equal |
| BusinessAnalysis.GrowthExample | data_analyzer/analyzer/views.py:315-319 | [10, 0, 20] gives growth 100 |
| BusinessAnalysis.ZeroStartOmitted | data_analyzer/analyzer/views.py:317 | a column whose first value is 0 gets no growth row |
| BusinessAnalysis.BusinessTables | data_analyzer/analyzer/views.py:293-327 | every business table can be handed to the engine (it is non-empty where the engine needs rows) |
| Report.GenerateReport | data_analyzer/analyzer/views.py:393-398 | the four analyzers' entries under the four category keys, in order, with the corrected basic analyzer |
| Report.ReportAsWrittenAgrees | data_analyzer/analyzer/views.py:393-398 | the upload as written fails exactly for a table with no missing cell, and otherwise gives the same report as the corrected one |
| Report.SheetName | data_analyzer/analyzer/views.py:405 | the sheet name is a prefix of category_name, at most 31 long, cut only when the joined name is longer |
| Report.SheetNamesWhole | data_analyzer/analyzer/views.py:405 | no category_label name is long enough to be cut |
| Report.LabelLength | data_analyzer/analyzer/views.py:405 | every analysis label has at most 18 characters |
| Report.JoinInjective | data_analyzer/analyzer/views.py:405 | two joined names of known categories are equal only for equal parts |
| Report.DistinctCategories | data_analyzer/analyzer/views.py:393-405 | different categories never give the same sheet name |
| Report.LabelsTellKindsApart | data_analyzer/analyzer/views.py:156-324 | equal labels mean the same kind of table |
| Report.SheetNamesDistinct | data_analyzer/analyzer/views.py:402-406 | no two analyses of a report are written to the same sheet |
| Report.ReportAscending | data_analyzer/analyzer/views.py:393-398 | each category's entries come in a fixed order of kinds, none repeated (report with the corrected basic analyzer) |
| Report.EveryAnalysisExplained | data_analyzer/analyzer/views.py:124-147 | every analysis of the report with the corrected basic analyzer has at least one insight and no duplicated message (as written, a table with no missing cell gives no report at all) |
| Report.NoNumbersNoStatistics | data_analyzer/analyzer/views.py:149-329 | in the report with the corrected basic analyzer, a table without numeric columns yields only the missing profile, general info and the time error |
| Report.NoNumbersBasic | data_analyzer/analyzer/views.py:154-190 | without numeric columns the corrected basic analyzer has only the missing profile and general info |
| TimeAnalysis.TimeTables | data_analyzer/analyzer/views.py:197-235 | the time analyzer's tables are nothing, the error table alone, or the monthly, quarterly and yearly tables in that order |
| Report.NoNumbersTime | data_analyzer/analyzer/views.py:211-235 | without numeric columns the time analyzer can only report the error |
| Stats.Quantile | data_analyzer/analyzer/views.py:266-267 | pandas' linear quantile of sorted values lies between the smallest and the largest |
| Stats.QuantileMonotone | data_analyzer/analyzer/views.py:266-267 | a higher level never gives a lower quantile |
| Stats.ArgMax | data_analyzer/analyzer/views.py:37 | idxmax is the first position of the largest value |
| Stats.SortBounds | data_analyzer/analyzer/views.py:157 | the ends of the sorted values are values and bound every value |
| Stats.MeanWithin | data_analyzer/analyzer/views.py:57 | a mean lies between bounds of its values |
| Tables.NumericColumns | data_analyzer/analyzer/views.py:154 | the numeric selection keeps exactly the numeric columns |
| Tables.MissingCountPositive | data_analyzer/analyzer/views.py:161 | a column's missing count is positive iff it has a missing cell |
| Tables.TotalMissingPositive | data_analyzer/analyzer/views.py:178 | the table's missing total is positive iff some column has a missing cell |

## Left out

- The HTTP views (`home`, `upload_dataset`, `perform_analysis`, `download_analysis_report`), Django messages, sessions, the ORM, forms and URL routing are not modelled. They are I/O plumbing; only the analyzer calls at views.py:393-398 and the sheet name at :405 are.
- Reading and writing Excel files and filesystem paths are left out as I/O.
- Rounding to 2, 3 or 4 decimals and the number formatting inside f-strings are left out. Messages carry the exact values. Numbers are exact `real`s rather than floats.
- Rounding also feeds four decisions, which the model takes on the unrounded values. It can therefore decide differently within half a rounding unit of each cutoff:
  - the missing percentage is rounded to 2 places (:162) before the 50 / 20 tests (:42, :45), so 50.001 gives the drop advice here and not in the source;
  - the outlier percentage is rounded to 2 places (:277) before the 10 test (:68);
  - the correlation matrix is rounded to 3 places (:187) before the abs(r) > 0.7 test (:85), so r = 0.7004 is a strong pair here and not in the source;
  - the share is rounded to 2 places (:302) before `idxmax` (:119), so shares that round to a tie can name a different first column.
- Standard deviation, Pearson r, Shapiro–Wilk and date parsing are abstract oracles in `Library`. They are floating-point library code that is not part of this model.
- Sum, mean, sorting and pandas' linear quantile are defined exactly.
- `pd.to_datetime(errors='coerce')` in detection and the strict `pd.to_datetime` in the time analysis use one per-cell parse oracle. Coerce keeps a cell iff it parses. Strict fails iff a present cell does not parse.
- The error entry of the time analysis does not carry the exception's message text.
- Exceptions from pandas internals are modelled only where the source catches them as an outcome: the Shapiro error row and the time-analysis error entry.
  - The growth `except` branch (:320-321, the error marker) is not modelled. With exact reals, first/|first| cannot raise.
  - A missing first or last value gives growth `None` (NaN).
- `list(set(...))` returns the distinct messages in an unspecified order. The model keeps the first-seen order, and every contract speaks only of membership and distinctness.
- The labels are one constructor per table kind and the label strings are derived from them.
  - The substring tests at :112 and :118 are modelled as matching the monthly and profitability tables.
  - Among the source's labels only those two contain the tested words.
- The time analysis finds its date column by name. The model takes the first detected column itself, which agrees when column names are distinct.
- The analyzers' `analyses` dictionaries are sequences in insertion order. Their keys are distinct labels, as `Report.LabelsTellKindsApart` and `Report.ReportAscending` show.
- `Kind` has numeric, object and datetime columns only. Boolean and category columns, which `select_dtypes` counts as neither numeric nor text (:179-180), are not modelled.
- The groupby key for months and quarters is taken from a date record; calendar validation is in the parse oracle.
- InsightEngine.Worst: its function contract states only membership. Maximality and first-index are in `InsightEngine.WorstIsFirstLargest`.
- InsightEngine.TopRow: the same, with the facts in `InsightEngine.TopRowIsFirstLargest`.
- StatisticalAnalysis.OutlierRowOf: the fences and quartiles are stated in `StatisticalAnalysis.OutlierRowFences` rather than on the function.

The model follows the code in three places where a reader might expect otherwise:

- A profitability share is taken against the sum of all numeric columns, negative ones included. A share can therefore exceed 100 (`BusinessAnalysis.ShareCanExceed100`).
- A column whose first value is 0 is silently omitted from the growth table. It does not get an error marker (`BusinessAnalysis.ZeroStartOmitted`).
- The descriptive branch can return insights with no recommendation (`InsightFacts.AdviceCanBeEmpty`). So "every analysis has a recommendation" does not hold; only insights are never empty.

## Findings

| source | as written | input that shows it | evidently intended | confidence | as-written member | corrected member |
|---|---|---|---|---|---|---|
| data_analyzer/analyzer/views.py:37 | the basic analysis always hands the missing profile, filtered to count > 0, to the engine, whose missing branch calls `idxmax` on it unguarded; on an empty profile `idxmax` raises and the whole upload fails | `Table(1, [Column("amount", Numeric, [Num(5.0)])])`: a table with no missing cell (`BasicAnalysis.CompleteTableCrashes`, and in general `BasicAnalysis.AsWrittenFailsIffComplete`) | a table with no missing value gets no missing-profile entry (or a "no missing data" one), and the other analyses are still produced | not executed | BasicAnalysis.BasicEntriesAsWritten | BasicAnalysis.BasicEntries |
