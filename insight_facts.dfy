/** What the insight engine promises, stated over its specification. */
module InsightFacts {
  import opened Wrappers
  import opened Seqs
  import opened Stats
  import opened Tables
  import opened Results
  import opened InsightEngine

  // ---------------------------------------------------------------- what each fold contains

  lemma {:induction false} VariationInsightsMembers(cols: seq<Column>, std: seq<real> -> real)
    ensures forall x :: x in VariationInsights(cols, std) <==> exists c :: c in cols && x in VariationInsightOf(c, std)
    decreases |cols|
  {
    if cols != [] {
      VariationInsightsMembers(cols[..|cols| - 1], std);
      assert cols == cols[..|cols| - 1] + [cols[|cols| - 1]];
    }
  }

  lemma {:induction false} VariationRecommendationsMembers(cols: seq<Column>, std: seq<real> -> real)
    ensures forall x :: x in VariationRecommendations(cols, std) <==> exists c :: c in cols && x in VariationAdviceOf(c, std)
    decreases |cols|
  {
    if cols != [] {
      VariationRecommendationsMembers(cols[..|cols| - 1], std);
      assert cols == cols[..|cols| - 1] + [cols[|cols| - 1]];
    }
  }

  lemma {:induction false} FlaggedMembers(rows: seq<OutlierRow>)
    ensures forall x :: x in Flagged(rows) <==> x in rows && x.percent > OutlierPercent
    decreases |rows|
  {
    if rows != [] {
      FlaggedMembers(rows[..|rows| - 1]);
      assert rows == rows[..|rows| - 1] + [rows[|rows| - 1]];
    }
  }

  /** No row is flagged exactly when every percentage is at most the threshold. */
  lemma {:induction false} FlaggedEmpty(rows: seq<OutlierRow>)
    ensures Flagged(rows) == [] <==> forall i :: 0 <= i < |rows| ==> rows[i].percent <= OutlierPercent
    decreases |rows|
  {
    if rows != [] {
      FlaggedEmpty(rows[..|rows| - 1]);
    }
  }

  lemma {:induction false} FlaggedInsightsMembers(rows: seq<OutlierRow>)
    ensures forall x :: x in FlaggedInsights(rows) <==> exists r :: r in rows && x == OutlierShare(r.column, r.percent)
    decreases |rows|
  {
    if rows != [] {
      FlaggedInsightsMembers(rows[..|rows| - 1]);
      assert rows == rows[..|rows| - 1] + [rows[|rows| - 1]];
    }
  }

  lemma {:induction false} FlaggedAdviceMembers(rows: seq<OutlierRow>)
    ensures forall x :: x in FlaggedAdvice(rows) <==>
      exists r :: r in rows && (x == InvestigateOutliers(r.column) || x == Winsorize(r.column))
    decreases |rows|
  {
    if rows != [] {
      FlaggedAdviceMembers(rows[..|rows| - 1]);
      assert rows == rows[..|rows| - 1] + [rows[|rows| - 1]];
    }
  }

  lemma {:induction false} PairsInRowMembers(names: seq<string>, r: seq<seq<Option<real>>>, i: nat, m: nat)
    requires Square(names, r) && i < |names| && m <= |names|
    ensures forall p :: p in PairsInRow(names, r, i, m) <==>
      exists j :: 0 <= j < m && p in PairAt(names, r, i, j)
    decreases m
  {
    if m > 0 {
      PairsInRowMembers(names, r, i, m - 1);
    }
  }

  lemma {:induction false} PairsUpToMembers(names: seq<string>, r: seq<seq<Option<real>>>, m: nat)
    requires Square(names, r) && m <= |names|
    ensures forall p :: p in PairsUpTo(names, r, m) <==>
      exists i, j :: 0 <= i < m && 0 <= j < |names| && p in PairAt(names, r, i, j)
    decreases m
  {
    if m > 0 {
      PairsUpToMembers(names, r, m - 1);
      PairsInRowMembers(names, r, m - 1, |names|);
    }
  }

  lemma {:induction false} PairInsightsMembers(ps: seq<StrongPair>)
    ensures forall x :: x in PairInsights(ps) <==> exists p :: p in ps && x == StrongCorrelation(p.first, p.second, p.r)
    decreases |ps|
  {
    if ps != [] {
      PairInsightsMembers(ps[..|ps| - 1]);
      assert ps == ps[..|ps| - 1] + [ps[|ps| - 1]];
    }
  }

  lemma {:induction false} PairAdviceMembers(ps: seq<StrongPair>)
    ensures forall x :: x in PairAdvice(ps) <==>
      exists p :: p in ps && (x == RedundantPair(p.first, p.second) || x == ReduceDimensions)
    decreases |ps|
  {
    if ps != [] {
      PairAdviceMembers(ps[..|ps| - 1]);
      assert ps == ps[..|ps| - 1] + [ps[|ps| - 1]];
    }
  }

  /** Every row is counted once, as normal or as non-normal. */
  lemma {:induction false} NormalityPartition(rows: seq<NormalityRow>)
    ensures |NormalColumns(rows)| + |NonNormalColumns(rows)| == |rows|
    ensures |NonNormalColumns(rows)| > 0 <==> exists i :: 0 <= i < |rows| && !IsNormal(rows[i])
    decreases |rows|
  {
    if rows != [] {
      var p := rows[..|rows| - 1];
      NormalityPartition(p);
      if exists i :: 0 <= i < |p| && !IsNormal(p[i]) {
        var i :| 0 <= i < |p| && !IsNormal(p[i]);
        assert rows[i] == p[i];
      }
      if exists i :: 0 <= i < |rows| && !IsNormal(rows[i]) {
        var i :| 0 <= i < |rows| && !IsNormal(rows[i]);
        if i < |p| { assert p[i] == rows[i]; }
      }
    }
  }

  // ---------------------------------------------------------------- the strong-pair scan

  /** A pair is listed exactly when it is an off-diagonal entry (by name) with |r| > 0.7. */
  lemma StrongPairsExactly(names: seq<string>, r: seq<seq<Option<real>>>, p: StrongPair)
    requires Square(names, r)
    ensures p in StrongPairs(names, r) <==>
      exists i, j :: 0 <= i < |names| && 0 <= j < |names| && names[i] == p.first && names[j] == p.second
        && p.first != p.second && r[i][j] == Some(p.r) && Abs(p.r) > StrongCorrelationCutoff
  {
    PairsUpToMembers(names, r, |names|);
    if p in StrongPairs(names, r) {
      var i, j :| 0 <= i < |names| && 0 <= j < |names| && p in PairAt(names, r, i, j);
      assert names[i] == p.first && names[j] == p.second && r[i][j] == Some(p.r);
    }
    if exists i, j :: 0 <= i < |names| && 0 <= j < |names| && names[i] == p.first && names[j] == p.second
        && p.first != p.second && r[i][j] == Some(p.r) && Abs(p.r) > StrongCorrelationCutoff {
      var i, j :| 0 <= i < |names| && 0 <= j < |names| && names[i] == p.first && names[j] == p.second
        && p.first != p.second && r[i][j] == Some(p.r) && Abs(p.r) > StrongCorrelationCutoff;
      assert p in PairAt(names, r, i, j);
    }
  }

  predicate Symmetric(r: seq<seq<Option<real>>>) {
    forall i, j :: 0 <= i < |r| && 0 <= j < |r| && j < |r[i]| && i < |r[j]| ==> r[i][j] == r[j][i]
  }

  /** On a symmetric matrix every strong pair is listed in both orders. */
  lemma StrongPairsBothWays(names: seq<string>, r: seq<seq<Option<real>>>, a: string, b: string, v: real)
    requires Square(names, r) && Symmetric(r)
    ensures StrongPair(a, b, v) in StrongPairs(names, r) <==> StrongPair(b, a, v) in StrongPairs(names, r)
  {
    if StrongPair(a, b, v) in StrongPairs(names, r) {
      StrongPairMirrored(names, r, a, b, v);
    }
    if StrongPair(b, a, v) in StrongPairs(names, r) {
      StrongPairMirrored(names, r, b, a, v);
    }
  }

  lemma StrongPairMirrored(names: seq<string>, r: seq<seq<Option<real>>>, a: string, b: string, v: real)
    requires Square(names, r) && Symmetric(r) && StrongPair(a, b, v) in StrongPairs(names, r)
    ensures StrongPair(b, a, v) in StrongPairs(names, r)
  {
    StrongPairsExactly(names, r, StrongPair(a, b, v));
    StrongPairsExactly(names, r, StrongPair(b, a, v));
    var i, j :| 0 <= i < |names| && 0 <= j < |names| && names[i] == a && names[j] == b
      && a != b && r[i][j] == Some(v) && Abs(v) > StrongCorrelationCutoff;
    assert r[j][i] == Some(v);
  }

  // ---------------------------------------------------------------- dispatch and fallback

  /** No branch writes the generic insight or the generic recommendation itself. */
  lemma BranchNeverGeneric(d: ResultTable, t: Table, lib: Library)
    requires Admissible(d)
    ensures QualityAcceptable !in BranchInsights(d, t, lib)
    ensures ContinueAdvanced !in BranchRecommendations(d, t, lib)
  {
    match d
    case Descriptive(_) =>
      VariationInsightsMembers(NumericColumns(t.columns), lib.std);
      VariationRecommendationsMembers(NumericColumns(t.columns), lib.std);
    case Outliers(rows) =>
      FlaggedInsightsMembers(Flagged(rows));
      FlaggedAdviceMembers(Flagged(rows));
    case CorrelationMatrix(names, r) =>
      PairInsightsMembers(Take(StrongPairs(names, r), ReportedPairs));
      PairAdviceMembers(Take(StrongPairs(names, r), ReportedPairs));
    case _ =>
  }

  /** The generic pair is added exactly when no branch produced an insight,
      so the returned insights are never empty; both returned lists are free
      of duplicates. */
  lemma Fallback(d: ResultTable, t: Table, lib: Library)
    requires Admissible(d)
    ensures QualityAcceptable in Insights(d, t, lib) <==> BranchInsights(d, t, lib) == []
    ensures ContinueAdvanced in Recommendations(d, t, lib) <==> BranchInsights(d, t, lib) == []
    ensures BranchInsights(d, t, lib) == [] ==> Insights(d, t, lib) == [QualityAcceptable]
    ensures |Insights(d, t, lib)| > 0
    ensures NoDuplicates(Insights(d, t, lib)) && NoDuplicates(Recommendations(d, t, lib))
  {
    BranchNeverGeneric(d, t, lib);
    DedupOne(QualityAcceptable);
    assert QualityAcceptable in RawInsights(d, t, lib) || RawInsights(d, t, lib) != [];
  }

  /** Quarterly, yearly, general-info, growth and error tables match no
      branch: they get only the generic pair. */
  lemma UnmatchedLabelsFallBack(d: ResultTable, t: Table, lib: Library)
    requires d.Quarterly? || d.Yearly? || d.GeneralInfo? || d.Growth? || d.TimeError?
    ensures Insights(d, t, lib) == [QualityAcceptable]
    ensures Recommendations(d, t, lib) == [ContinueAdvanced]
  {
    assert BranchInsights(d, t, lib) == [] && BranchRecommendations(d, t, lib) == [];
    NothingAppended(d, t, lib);
  }

  /** A table no branch writes anything for gets exactly the generic pair. */
  lemma NothingAppended(d: ResultTable, t: Table, lib: Library)
    requires Admissible(d) && BranchInsights(d, t, lib) == [] && BranchRecommendations(d, t, lib) == []
    ensures Insights(d, t, lib) == [QualityAcceptable]
    ensures Recommendations(d, t, lib) == [ContinueAdvanced]
  {
    assert RawInsights(d, t, lib) == [QualityAcceptable];
    assert RawRecommendations(d, t, lib) == [ContinueAdvanced];
    DedupOne(QualityAcceptable);
    DedupOne(ContinueAdvanced);
  }

  /** Apart from the generic insight, the engine returns exactly what the branch appended. */
  lemma InsightsMembers(d: ResultTable, t: Table, lib: Library, x: Insight)
    requires Admissible(d) && x != QualityAcceptable
    ensures x in Insights(d, t, lib) <==> x in BranchInsights(d, t, lib)
  {
  }

  /** Apart from the generic recommendation, the engine returns exactly what the branch appended. */
  lemma RecommendationsMembers(d: ResultTable, t: Table, lib: Library, x: Recommendation)
    requires Admissible(d) && x != ContinueAdvanced
    ensures x in Recommendations(d, t, lib) <==> x in BranchRecommendations(d, t, lib)
  {
  }

  // ---------------------------------------------------------------- per branch

  /** Missing data: the total, the worst column (the first with the largest
      count), and advice by its percentage: above 50, above 20, otherwise. */
  lemma MissingDataReport(rows: seq<MissingRow>, t: Table, lib: Library)
    requires |rows| > 0
    ensures var w := Worst(rows);
      && Insights(MissingProfile(rows), t, lib) == [MissingTotal(MissingSum(rows)), MissingWorst(w.column, w.count, w.percent)]
      && Recommendations(MissingProfile(rows), t, lib) ==
        (if w.percent > 50.0 then [DropColumn, InvestigateMissing]
         else if w.percent > 20.0 then [AdvancedImputation, SensitivityAnalysis]
         else [MeanOrMedianImputation, KnnImputation])
  {
    var d := MissingProfile(rows);
    var w := Worst(rows);
    var ins := [MissingTotal(MissingSum(rows)), MissingWorst(w.column, w.count, w.percent)];
    assert BranchInsights(d, t, lib) == ins;
    assert RawInsights(d, t, lib) == ins;
    assert RawRecommendations(d, t, lib) == MissingAdvice(w.percent);
    DedupTwo(ins[0], ins[1]);
    MissingAdviceDistinct(w.percent);
  }

  lemma MissingAdviceDistinct(percent: real)
    ensures Dedup(MissingAdvice(percent)) == MissingAdvice(percent)
  {
    if percent > DropPercent {
      DedupTwo(DropColumn, InvestigateMissing);
    } else if percent > AdvancedImputationPercent {
      DedupTwo(AdvancedImputation, SensitivityAnalysis);
    } else {
      DedupTwo(MeanOrMedianImputation, KnnImputation);
    }
  }

  /** The CoV advice one column contributes. */
  lemma VariationAdviceOfColumn(c: Column, std: seq<real> -> real, name: string)
    ensures HighVolatility(name) in VariationAdviceOf(c, std) <==>
      c.name == name && |Values(c.cells)| > 0 && HighCoV(c, std)
    ensures Stable(name) in VariationAdviceOf(c, std) <==>
      c.name == name && |Values(c.cells)| > 0 && LowCoV(c, std)
  {
  }

  predicate HighCoV(c: Column, std: seq<real> -> real) {
    var xs := Values(c.cells);
    |xs| > 0 && CoefficientOfVariation(xs, std).Some? && CoefficientOfVariation(xs, std).value > 50.0
  }

  predicate LowCoV(c: Column, std: seq<real> -> real) {
    var xs := Values(c.cells);
    |xs| > 0 && CoefficientOfVariation(xs, std).Some? && CoefficientOfVariation(xs, std).value < 10.0
  }

  /** Descriptive statistics: one CoV insight per numeric column with a value. */
  lemma VariationInsightReport(s: seq<Summary>, t: Table, lib: Library, name: string, cv: Option<real>)
    ensures Variation(name, cv) in Insights(Descriptive(s), t, lib) <==>
      exists c :: c in NumericColumns(t.columns) && c.name == name && |Values(c.cells)| > 0
        && cv == CoefficientOfVariation(Values(c.cells), lib.std)
  {
    var d := Descriptive(s);
    var cols := NumericColumns(t.columns);
    InsightsMembers(d, t, lib, Variation(name, cv));
    assert BranchInsights(d, t, lib) == VariationInsights(cols, lib.std);
    VariationInsightFor(cols, lib.std, name, cv);
  }

  /** The descriptive branch's CoV insights, one per column with a value. */
  lemma VariationInsightFor(cols: seq<Column>, std: seq<real> -> real, name: string, cv: Option<real>)
    ensures Variation(name, cv) in VariationInsights(cols, std) <==>
      exists c :: c in cols && c.name == name && |Values(c.cells)| > 0
        && cv == CoefficientOfVariation(Values(c.cells), std)
  {
    VariationInsightsMembers(cols, std);
  }

  /** Descriptive statistics: a high-volatility recommendation exactly for
      CoV > 50 and a stability one exactly for CoV < 10 (NaN gives neither). */
  lemma VariationAdviceReport(s: seq<Summary>, t: Table, lib: Library, name: string)
    ensures HighVolatility(name) in Recommendations(Descriptive(s), t, lib) <==>
      exists c :: c in NumericColumns(t.columns) && c.name == name && HighCoV(c, lib.std)
    ensures Stable(name) in Recommendations(Descriptive(s), t, lib) <==>
      exists c :: c in NumericColumns(t.columns) && c.name == name && LowCoV(c, lib.std)
  {
    var d := Descriptive(s);
    var cols := NumericColumns(t.columns);
    RecommendationsMembers(d, t, lib, HighVolatility(name));
    RecommendationsMembers(d, t, lib, Stable(name));
    assert BranchRecommendations(d, t, lib) == VariationRecommendations(cols, lib.std);
    VariationRecommendationsMembers(cols, lib.std);
    forall c | c in cols {
      VariationAdviceOfColumn(c, lib.std, name);
    }
  }

  /** The engine can return insights with no recommendation: a numeric column
      with a single non-zero value has a NaN CoV, which passes neither cutoff. */
  lemma AdviceCanBeEmpty(lib: Library)
    ensures var t := Table(1, [Column("a", Numeric, [Num(5.0)])]);
      && Insights(Descriptive([]), t, lib) == [Variation("a", None)]
      && Recommendations(Descriptive([]), t, lib) == []
  {
    var c := Column("a", Numeric, [Num(5.0)]);
    var t := Table(1, [c]);
    var d := Descriptive([]);
    assert [c][..0] == [];
    assert NumericColumns(t.columns) == [c];
    SingleValueColumn(c, lib.std);
    assert BranchInsights(d, t, lib) == [Variation("a", None)];
    assert BranchRecommendations(d, t, lib) == [];
    DedupOne(Variation("a", None));
  }

  lemma SingleValueColumn(c: Column, std: seq<real> -> real)
    requires c == Column("a", Numeric, [Num(5.0)])
    ensures VariationInsights([c], std) == [Variation("a", None)]
    ensures VariationRecommendations([c], std) == []
  {
    var xs := Values(c.cells);
    assert xs == [5.0] by {
      assert c.cells[..0] == [];
      assert Values(c.cells[..0]) == [];
    }
    assert Mean(xs) == 5.0 by {
      assert xs[..0] == [];
      assert Sum(xs) == Sum([]) + 5.0;
    }
    assert CoefficientOfVariation(xs, std) == None;
    assert VariationInsightOf(c, std) == [Variation("a", None)];
    assert VariationAdviceOf(c, std) == [];
    assert [c][..0] == [];
    assert VariationInsights([c], std) == VariationInsights([], std) + VariationInsightOf(c, std);
    assert VariationRecommendations([c], std) == VariationRecommendations([], std) + VariationAdviceOf(c, std);
  }

  /** Outliers: when no column exceeds 10 percent, the single reassuring
      insight and the single "no action" recommendation. */
  lemma OutlierQuietReport(rows: seq<OutlierRow>, t: Table, lib: Library)
    requires forall i :: 0 <= i < |rows| ==> rows[i].percent <= 10.0
    ensures Insights(Outliers(rows), t, lib) == [OutliersAcceptable]
    ensures Recommendations(Outliers(rows), t, lib) == [NoOutlierAction]
  {
    var d := Outliers(rows);
    FlaggedEmpty(rows);
    assert RawInsights(d, t, lib) == [OutliersAcceptable];
    assert RawRecommendations(d, t, lib) == [NoOutlierAction];
    DedupOne(OutliersAcceptable);
    DedupOne(NoOutlierAction);
  }

  /** Outliers: once some column exceeds 10 percent, the count of such columns
      is reported and neither reassurance appears. */
  lemma OutlierFlaggedReport(rows: seq<OutlierRow>, t: Table, lib: Library, i: int)
    requires 0 <= i < |rows| && rows[i].percent > 10.0
    ensures OutlierColumnCount(|Flagged(rows)|) in Insights(Outliers(rows), t, lib)
    ensures OutliersAcceptable !in Insights(Outliers(rows), t, lib)
    ensures NoOutlierAction !in Recommendations(Outliers(rows), t, lib)
  {
    var d := Outliers(rows);
    var flagged := Flagged(rows);
    FlaggedMembers(rows);
    FlaggedInsightsMembers(flagged);
    FlaggedAdviceMembers(flagged);
    assert rows[i] in flagged;
    assert BranchInsights(d, t, lib) == [OutlierColumnCount(|flagged|)] + FlaggedInsights(flagged);
    assert BranchRecommendations(d, t, lib) == FlaggedAdvice(flagged);
    InsightsMembers(d, t, lib, OutlierColumnCount(|flagged|));
    InsightsMembers(d, t, lib, OutliersAcceptable);
    RecommendationsMembers(d, t, lib, NoOutlierAction);
  }

  /** The outlier branch reports a share for exactly the rows above 10 percent. */
  lemma OutlierShareMembers(rows: seq<OutlierRow>, c: string, p: real)
    ensures OutlierShare(c, p) in OutlierInsights(rows) <==>
      exists i :: 0 <= i < |rows| && rows[i].column == c && rows[i].percent == p && p > 10.0
  {
    var flagged := Flagged(rows);
    FlaggedMembers(rows);
    FlaggedInsightsMembers(flagged);
    if OutlierShare(c, p) in OutlierInsights(rows) {
      var r :| r in flagged && OutlierShare(c, p) == OutlierShare(r.column, r.percent);
      var i :| 0 <= i < |rows| && rows[i] == r;
    }
    if exists i :: 0 <= i < |rows| && rows[i].column == c && rows[i].percent == p && p > 10.0 {
      var i :| 0 <= i < |rows| && rows[i].column == c && rows[i].percent == p && p > 10.0;
      assert rows[i] in flagged;
    }
  }

  /** The outlier branch advises on exactly the columns above 10 percent. */
  lemma OutlierAdviceMembers(rows: seq<OutlierRow>, c: string)
    ensures InvestigateOutliers(c) in OutlierRecommendations(rows) <==>
      exists i :: 0 <= i < |rows| && rows[i].column == c && rows[i].percent > 10.0
    ensures Winsorize(c) in OutlierRecommendations(rows) <==>
      exists i :: 0 <= i < |rows| && rows[i].column == c && rows[i].percent > 10.0
  {
    var flagged := Flagged(rows);
    FlaggedMembers(rows);
    FlaggedAdviceMembers(flagged);
    if InvestigateOutliers(c) in OutlierRecommendations(rows) || Winsorize(c) in OutlierRecommendations(rows) {
      var r :| r in flagged && (InvestigateOutliers(c) == InvestigateOutliers(r.column) || Winsorize(c) == Winsorize(r.column));
      var i :| 0 <= i < |rows| && rows[i] == r;
    }
    if exists i :: 0 <= i < |rows| && rows[i].column == c && rows[i].percent > 10.0 {
      var i :| 0 <= i < |rows| && rows[i].column == c && rows[i].percent > 10.0;
      assert rows[i] in flagged;
    }
  }

  /** Outliers: one share insight, one investigation and one winsorising
      recommendation for exactly the columns above 10 percent. */
  lemma OutlierColumnReport(rows: seq<OutlierRow>, t: Table, lib: Library, c: string, p: real)
    ensures OutlierShare(c, p) in Insights(Outliers(rows), t, lib) <==>
      exists i :: 0 <= i < |rows| && rows[i].column == c && rows[i].percent == p && p > 10.0
    ensures InvestigateOutliers(c) in Recommendations(Outliers(rows), t, lib) <==>
      exists i :: 0 <= i < |rows| && rows[i].column == c && rows[i].percent > 10.0
    ensures Winsorize(c) in Recommendations(Outliers(rows), t, lib) <==>
      exists i :: 0 <= i < |rows| && rows[i].column == c && rows[i].percent > 10.0
  {
    var d := Outliers(rows);
    assert BranchInsights(d, t, lib) == OutlierInsights(rows);
    assert BranchRecommendations(d, t, lib) == OutlierRecommendations(rows);
    InsightsMembers(d, t, lib, OutlierShare(c, p));
    RecommendationsMembers(d, t, lib, InvestigateOutliers(c));
    RecommendationsMembers(d, t, lib, Winsorize(c));
    OutlierShareMembers(rows, c, p);
    OutlierAdviceMembers(rows, c);
  }

  /** Correlation without a strong pair: only the generic pair. */
  lemma CorrelationQuietReport(names: seq<string>, r: seq<seq<Option<real>>>, t: Table, lib: Library)
    requires Square(names, r) && StrongPairs(names, r) == []
    ensures Insights(CorrelationMatrix(names, r), t, lib) == [QualityAcceptable]
    ensures Recommendations(CorrelationMatrix(names, r), t, lib) == [ContinueAdvanced]
  {
    var d := CorrelationMatrix(names, r);
    assert BranchInsights(d, t, lib) == [];
    assert BranchRecommendations(d, t, lib) == [];
    DedupOne(QualityAcceptable);
    DedupOne(ContinueAdvanced);
  }

  /** Correlation with strong pairs: the count of strong ordered pairs and
      the "drop one of them" recommendation. */
  lemma CorrelationStrongReport(names: seq<string>, r: seq<seq<Option<real>>>, t: Table, lib: Library)
    requires Square(names, r) && StrongPairs(names, r) != []
    ensures CorrelationCount(|StrongPairs(names, r)|) in Insights(CorrelationMatrix(names, r), t, lib)
    ensures ReduceDimensions in Recommendations(CorrelationMatrix(names, r), t, lib)
  {
    var d := CorrelationMatrix(names, r);
    var pairs := StrongPairs(names, r);
    var reported := Take(pairs, ReportedPairs);
    assert BranchInsights(d, t, lib) == [CorrelationCount(|pairs|)] + PairInsights(reported);
    assert BranchRecommendations(d, t, lib) == PairAdvice(reported);
    InsightsMembers(d, t, lib, CorrelationCount(|pairs|));
    RecommendationsMembers(d, t, lib, ReduceDimensions);
    PairAdviceMembers(reported);
    assert reported[0] in reported;
  }

  /** Correlation: a pair is named, and flagged as redundant, exactly when it
      is among the first three strong pairs. */
  lemma CorrelationPairsReport(names: seq<string>, r: seq<seq<Option<real>>>, t: Table, lib: Library,
                               a: string, b: string, v: real)
    requires Square(names, r)
    ensures StrongCorrelation(a, b, v) in Insights(CorrelationMatrix(names, r), t, lib) <==>
      StrongPair(a, b, v) in Take(StrongPairs(names, r), ReportedPairs)
    ensures RedundantPair(a, b) in Recommendations(CorrelationMatrix(names, r), t, lib) <==>
      exists p :: p in Take(StrongPairs(names, r), ReportedPairs) && p.first == a && p.second == b
  {
    var d := CorrelationMatrix(names, r);
    InsightsMembers(d, t, lib, StrongCorrelation(a, b, v));
    RecommendationsMembers(d, t, lib, RedundantPair(a, b));
    assert BranchInsights(d, t, lib) == CorrelationInsights(names, r);
    assert BranchRecommendations(d, t, lib) == CorrelationRecommendations(names, r);
    CorrelationBranchPairs(names, r, a, b, v);
  }

  /** What the correlation branch appends for one pair. */
  lemma CorrelationBranchPairs(names: seq<string>, r: seq<seq<Option<real>>>, a: string, b: string, v: real)
    requires Square(names, r)
    ensures StrongCorrelation(a, b, v) in CorrelationInsights(names, r) <==>
      StrongPair(a, b, v) in Take(StrongPairs(names, r), ReportedPairs)
    ensures RedundantPair(a, b) in CorrelationRecommendations(names, r) <==>
      exists p :: p in Take(StrongPairs(names, r), ReportedPairs) && p.first == a && p.second == b
  {
    var pairs := StrongPairs(names, r);
    var reported := Take(pairs, ReportedPairs);
    PairInsightsMembers(reported);
    PairAdviceMembers(reported);
    if pairs == [] {
      assert reported == [];
    }
  }

  /** Normality: one count insight whose two counts add up to the number of
      rows, error rows counted as non-normal; the non-parametric advice
      exactly when some row is not normal. */
  lemma NormalityReport(rows: seq<NormalityRow>, t: Table, lib: Library)
    ensures Insights(Normality(rows), t, lib) == [NormalityCounts(|NormalColumns(rows)|, |NonNormalColumns(rows)|)]
    ensures |NormalColumns(rows)| + |NonNormalColumns(rows)| == |rows|
    ensures Recommendations(Normality(rows), t, lib) ==
      if exists i :: 0 <= i < |rows| && !IsNormal(rows[i]) then [NonParametricTests, NormalizingTransform]
      else [ParametricFine]
  {
    var d := Normality(rows);
    NormalityPartition(rows);
    var ins := [NormalityCounts(|NormalColumns(rows)|, |NonNormalColumns(rows)|)];
    assert RawInsights(d, t, lib) == ins;
    DedupOne(ins[0]);
    var recs := NormalityRecommendations(|NonNormalColumns(rows)|);
    assert RawRecommendations(d, t, lib) == recs;
    if |NonNormalColumns(rows)| > 0 {
      DedupTwo(NonParametricTests, NormalizingTransform);
    } else {
      DedupOne(ParametricFine);
    }
  }

  /** Monthly tables get the seasonality pair, whatever they hold. */
  lemma SeasonalReport(g: GroupTable, t: Table, lib: Library)
    ensures Insights(Monthly(g), t, lib) == [SeasonalPatterns]
    ensures Recommendations(Monthly(g), t, lib) == [SeasonalModel, SarimaOrProphet]
  {
    DedupOne(SeasonalPatterns);
    DedupTwo(SeasonalModel, SarimaOrProphet);
  }

  /** Profitability: the first column with the largest share is named. */
  lemma ProfitabilityReport(rows: seq<ProfitRow>, t: Table, lib: Library)
    requires |rows| > 0
    ensures exists k :: (0 <= k < |rows|
      && Insights(Profitability(rows), t, lib) == [TopContributor(rows[k].column, rows[k].share)]
      && (forall i :: 0 <= i < |rows| ==> rows[i].share <= rows[k].share)
      && (forall i :: 0 <= i < k ==> rows[i].share < rows[k].share))
    ensures Recommendations(Profitability(rows), t, lib) == [FocusOnTopContributors, PortfolioAnalysis]
  {
    TopContributorNamed(rows, t, lib);
    TopRowIsFirstLargest(rows);
    var k :| 0 <= k < |rows| && rows[k] == TopRow(rows) && forall i :: 0 <= i < k ==> rows[i].share < TopRow(rows).share;
  }

  lemma TopContributorNamed(rows: seq<ProfitRow>, t: Table, lib: Library)
    requires |rows| > 0
    ensures Insights(Profitability(rows), t, lib) == [TopContributor(TopRow(rows).column, TopRow(rows).share)]
    ensures Recommendations(Profitability(rows), t, lib) == [FocusOnTopContributors, PortfolioAnalysis]
  {
    var d := Profitability(rows);
    var top := TopRow(rows);
    var ins := [TopContributor(top.column, top.share)];
    assert BranchInsights(d, t, lib) == ins;
    assert BranchRecommendations(d, t, lib) == [FocusOnTopContributors, PortfolioAnalysis];
    AppendedOnly(d, t, lib);
    DedupOne(ins[0]);
    DedupTwo(FocusOnTopContributors, PortfolioAnalysis);
  }

  /** When the branch wrote an insight, the engine returns what the branch
      appended, duplicates dropped. */
  lemma AppendedOnly(d: ResultTable, t: Table, lib: Library)
    requires Admissible(d) && BranchInsights(d, t, lib) != []
    ensures Insights(d, t, lib) == Dedup(BranchInsights(d, t, lib))
    ensures Recommendations(d, t, lib) == Dedup(BranchRecommendations(d, t, lib))
  {
  }
}
