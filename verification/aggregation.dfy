/**
 * `aggregateResults`: folding the per-batch responses of the language model
 * and the original rows into one analysis report.
 */
module Aggregation {
  import opened FeedbackTypes
  import opened SeqUtil
  import opened Rounding
  import opened ThemeMerge
  import opened Demographics
  import opened Trends

  /** The report keeps at most this many insights. */
  const InsightCap: nat := 5

  /** Every batch's themes, batch after batch. */
  function AllThemes(rs: seq<ClaudeResponse>): seq<Theme> {
    if rs == [] then [] else AllThemes(rs[..|rs| - 1]) + rs[|rs| - 1].themes
  }

  /** The NPS counts summed field by field over the batches. */
  function NpsTotals(rs: seq<ClaudeResponse>): NpsCounts {
    if rs == [] then NpsCounts(0, 0, 0)
    else
      var t := NpsTotals(rs[..|rs| - 1]);
      var n := rs[|rs| - 1].nps;
      NpsCounts(t.promoters + n.promoters, t.passives + n.passives, t.detractors + n.detractors)
  }

  /** The sentiment counts summed field by field over the batches. */
  function SentimentTotals(rs: seq<ClaudeResponse>): SentimentCounts {
    if rs == [] then SentimentCounts(0, 0, 0) else AddSentiment(SentimentTotals(rs[..|rs| - 1]), rs[|rs| - 1].sentiment)
  }

  /** Every batch's insights, batch after batch. */
  function AllInsights(rs: seq<ClaudeResponse>): seq<string> {
    if rs == [] then [] else AllInsights(rs[..|rs| - 1]) + rs[|rs| - 1].insights
  }

  function NpsTotal(n: NpsCounts): int {
    n.promoters + n.passives + n.detractors
  }

  /** The NPS block of the report: the counts, their shares of the total, and the overall score. */
  function NpsBreakdownOf(n: NpsCounts): NpsBreakdown {
    var total := NpsTotal(n);
    NpsBreakdown(n.promoters, n.passives, n.detractors,
      Percent(n.promoters, total), Percent(n.passives, total), Percent(n.detractors, total),
      Percent(n.promoters - n.detractors, total))
  }

  /** The sentiment block of the report; its shares are taken of the NPS total `npsTotal`. */
  function SentimentMetricsOf(s: SentimentCounts, npsTotal: int): SentimentMetrics {
    SentimentMetrics(s.positive, s.neutral, s.negative,
      Percent(s.positive, npsTotal), Percent(s.neutral, npsTotal), Percent(s.negative, npsTotal))
  }

  /** The report's insights: duplicate-free, first occurrence kept, at most `InsightCap`. */
  function ReportInsights(rs: seq<ClaudeResponse>): seq<string> {
    Take(Dedup(AllInsights(rs)), InsightCap)
  }

  /** The report's themes: the merged table sorted by count, largest first. */
  function ReportThemes(rs: seq<ClaudeResponse>): seq<Theme> {
    SortedThemes(MergeAll(AllThemes(rs)))
  }

  /**
   * The report `aggregateResults` builds from the batch responses `rs` and
   * the rows `data`. `idStamp` and `timestamp` are the two readings of the
   * clock; `rawData` is left empty here.
   */
  function AggregateOf(rs: seq<ClaudeResponse>, data: seq<FeedbackEntry>, idStamp: string, timestamp: int,
                       timeOf: string -> int): AnalysisResult {
    var nps := NpsTotals(rs);
    AnalysisResult("analysis_" + idStamp, timestamp, |data|, ReportThemes(rs), NpsBreakdownOf(nps),
      SentimentMetricsOf(SentimentTotals(rs), NpsTotal(nps)), DemographicsOf(data), TrendsOf(data, timeOf),
      ReportInsights(rs), [])
  }

  // ---------------------------------------------------------------------------
  // The aggregation loop
  // ---------------------------------------------------------------------------

  lemma MergeAllExtend(frags: seq<Theme>, batch: seq<Theme>, j: nat)
    requires j < |batch|
    ensures MergeAll(frags + batch[..j + 1]) == MergeStep(MergeAll(frags + batch[..j]), batch[j])
  {
    var s := frags + batch[..j];
    assert frags + batch[..j + 1] == s + [batch[j]];
    assert (s + [batch[j]])[..|s|] == s;
  }

  lemma ResponsesSnoc(rs: seq<ClaudeResponse>, i: nat)
    requires i < |rs|
    ensures AllThemes(rs[..i + 1]) == AllThemes(rs[..i]) + rs[i].themes
    ensures NpsTotals(rs[..i + 1]) == NpsCounts(NpsTotals(rs[..i]).promoters + rs[i].nps.promoters,
      NpsTotals(rs[..i]).passives + rs[i].nps.passives, NpsTotals(rs[..i]).detractors + rs[i].nps.detractors)
    ensures SentimentTotals(rs[..i + 1]) == AddSentiment(SentimentTotals(rs[..i]), rs[i].sentiment)
    ensures AllInsights(rs[..i + 1]) == AllInsights(rs[..i]) + rs[i].insights
  {
    assert rs[..i + 1][..i] == rs[..i];
  }

  /**
   * The body of the theme loop: the theme is added into the entry of the
   * same name, or appended as a copy when the table has no such entry.
   */
  method MergeTheme(themes: seq<Theme>, theme: Theme) returns (r: seq<Theme>)
    ensures r == MergeStep(themes, theme)
  {
    match IndexOfName(themes, theme.name)
    case Some(k) =>
      var existing := themes[k];
      existing := existing.(
        count := existing.count + theme.count,
        sentiment := SentimentCounts(
          existing.sentiment.positive + theme.sentiment.positive,
          existing.sentiment.neutral + theme.sentiment.neutral,
          existing.sentiment.negative + theme.sentiment.negative),
        quotes := Take(Dedup(existing.quotes + theme.quotes), QuoteCap));
      r := themes[k := existing];
    case None =>
      r := themes + [theme];
  }

  /** The theme loop for one batch: each theme is merged into the table in order. */
  method MergeThemes(table: seq<Theme>, frags: seq<Theme>, batch: seq<Theme>) returns (themes: seq<Theme>)
    requires table == MergeAll(frags)
    ensures themes == MergeAll(frags + batch)
  {
    themes := table;
    assert frags + batch[..0] == frags;
    for j := 0 to |batch|
      invariant themes == MergeAll(frags + batch[..j])
    {
      MergeAllExtend(frags, batch, j);
      themes := MergeTheme(themes, batch[j]);
    }
    assert batch[..|batch|] == batch;
  }

  /**
   * The loop of `aggregateResults` over the batches: merges each batch's
   * themes into the table, adds its NPS and sentiment counts to the totals
   * and appends its insights.
   */
  method AccumulateBatches(results: seq<ClaudeResponse>)
    returns (themes: seq<Theme>, totalPromoters: int, totalPassives: int, totalDetractors: int,
             totalPositive: int, totalNeutral: int, totalNegative: int, allInsights: seq<string>)
    ensures themes == MergeAll(AllThemes(results))
    ensures NpsCounts(totalPromoters, totalPassives, totalDetractors) == NpsTotals(results)
    ensures SentimentCounts(totalPositive, totalNeutral, totalNegative) == SentimentTotals(results)
    ensures allInsights == AllInsights(results)
  {
    themes := [];
    totalPromoters, totalPassives, totalDetractors := 0, 0, 0;
    totalPositive, totalNeutral, totalNegative := 0, 0, 0;
    allInsights := [];
    for i := 0 to |results|
      invariant themes == MergeAll(AllThemes(results[..i]))
      invariant NpsCounts(totalPromoters, totalPassives, totalDetractors) == NpsTotals(results[..i])
      invariant SentimentCounts(totalPositive, totalNeutral, totalNegative) == SentimentTotals(results[..i])
      invariant allInsights == AllInsights(results[..i])
    {
      var result := results[i];
      ResponsesSnoc(results, i);
      themes := MergeThemes(themes, AllThemes(results[..i]), result.themes);
      totalPromoters := totalPromoters + result.nps.promoters;
      totalPassives := totalPassives + result.nps.passives;
      totalDetractors := totalDetractors + result.nps.detractors;
      totalPositive := totalPositive + result.sentiment.positive;
      totalNeutral := totalNeutral + result.sentiment.neutral;
      totalNegative := totalNegative + result.sentiment.negative;
      allInsights := allInsights + result.insights;
    }
    assert results[..|results|] == results;
  }

  /**
   * `aggregateResults`: the totals of the batches, then the derived
   * figures, the demographic breakdown and the trends.
   */
  method AggregateResults(results: seq<ClaudeResponse>, feedbackData: seq<FeedbackEntry>, idStamp: string,
                          timestamp: int, timeOf: string -> int) returns (analysis: AnalysisResult)
    ensures analysis == AggregateOf(results, feedbackData, idStamp, timestamp, timeOf)
  {
    var themes, totalPromoters, totalPassives, totalDetractors, totalPositive, totalNeutral, totalNegative, allInsights
      := AccumulateBatches(results);
    var totalNps := totalPromoters + totalPassives + totalDetractors;
    var npsScore := Percent(totalPromoters - totalDetractors, totalNps);
    var nps := NpsBreakdown(totalPromoters, totalPassives, totalDetractors,
      Percent(totalPromoters, totalNps), Percent(totalPassives, totalNps), Percent(totalDetractors, totalNps),
      npsScore);
    assert nps == NpsBreakdownOf(NpsTotals(results));
    var sentiment := SentimentMetrics(totalPositive, totalNeutral, totalNegative,
      Percent(totalPositive, totalNps), Percent(totalNeutral, totalNps), Percent(totalNegative, totalNps));
    assert sentiment == SentimentMetricsOf(SentimentTotals(results), NpsTotal(NpsTotals(results)));
    var demographics := BuildDemographicsBreakdown(feedbackData);
    var trends := BuildTrends(feedbackData, timeOf);
    analysis := AnalysisResult(
      "analysis_" + idStamp,
      timestamp,
      |feedbackData|,
      SortedThemes(themes),
      nps,
      sentiment,
      demographics,
      trends,
      Take(Dedup(allInsights), InsightCap),
      []);
  }

  // ---------------------------------------------------------------------------
  // Properties of the report
  // ---------------------------------------------------------------------------

  /**
   * The merged table before sorting: each entry is the merged theme of its
   * own name, every name has an entry, and no two entries are equal.
   */
  lemma TableOneThemePerName(frags: seq<Theme>)
    ensures var table := MergeAll(frags);
      && (forall t :: t in table ==> t.name in Names(frags) && t == MergedTheme(frags, t.name))
      && (forall n :: n in Names(frags) ==> exists t :: t in table && t.name == n)
      && Distinct(table)
  {
    var table := MergeAll(frags);
    var d := Dedup(Names(frags));
    MergeAllIsReference(frags);
    assert |table| == |d|;
    forall k | 0 <= k < |table| ensures table[k].name == d[k] && table[k] == MergedTheme(frags, d[k]) {
    }
    forall t | t in table ensures t.name in Names(frags) && t == MergedTheme(frags, t.name) {
      var k :| 0 <= k < |table| && table[k] == t;
      assert d[k] in d;
    }
    forall n | n in Names(frags) ensures exists t :: t in table && t.name == n {
      assert n in d;
      var k :| 0 <= k < |d| && d[k] == n;
      assert table[k] in table;
    }
    forall i, j | 0 <= i < j < |table| ensures table[i] != table[j] {
      assert table[i].name == d[i] && table[j].name == d[j];
    }
  }

  /**
   * The report's themes: one per distinct theme name of all batches, each
   * the merged theme of that name (summed counts and sentiment, the quote
   * rule of `MergedTheme`), never increasing in count.
   */
  lemma ReportThemesSpec(rs: seq<ClaudeResponse>)
    ensures var r := ReportThemes(rs);
      var frags := AllThemes(rs);
      && (forall t :: t in r ==> t.name in Names(frags) && t == MergedTheme(frags, t.name))
      && (forall n :: n in Names(frags) ==> exists t :: t in r && t.name == n)
      && (forall i, j :: 0 <= i < j < |r| ==> r[i].name != r[j].name)
      && (forall i, j :: 0 <= i < j < |r| ==> r[i].count >= r[j].count)
  {
    var frags := AllThemes(rs);
    var table := MergeAll(frags);
    var r := ReportThemes(rs);
    TableOneThemePerName(frags);
    SortedThemesOrder(table);
    forall t | t in r ensures t in table {
      assert t in multiset(table);
    }
    forall n | n in Names(frags) ensures exists t :: t in r && t.name == n {
      var t :| t in table && t.name == n;
      assert t in multiset(r);
    }
    DistinctPermutation(table, r);
    forall i, j | 0 <= i < j < |r| ensures r[i].name != r[j].name {
      assert r[i] in r && r[j] in r;
    }
  }

  /** Themes of equal count appear in the order their names were first seen. */
  lemma ReportThemesTies(rs: seq<ClaudeResponse>, c: int)
    ensures WithKey(ReportThemes(rs), NegCount, -c) == WithKey(MergeAll(AllThemes(rs)), NegCount, -c)
  {
    SortedThemesStable(MergeAll(AllThemes(rs)), c);
  }

  /**
   * Each share is `Math.round(count / total * 100)` of the exact quotient,
   * and the overall score `Math.round((promoters - detractors) / total * 100)`.
   */
  lemma NpsBreakdownIsRoundedShares(n: NpsCounts)
    requires NpsTotal(n) > 0
    ensures var b := NpsBreakdownOf(n);
      var t := NpsTotal(n) as real;
      && b.promotersPercent == JsRound((100 * n.promoters) as real / t)
      && b.passivesPercent == JsRound((100 * n.passives) as real / t)
      && b.detractorsPercent == JsRound((100 * n.detractors) as real / t)
      && b.overallNps == JsRound((100 * (n.promoters - n.detractors)) as real / t)
  {
    var total := NpsTotal(n);
    RoundRatioIsJsRound(100 * n.promoters, total);
    RoundRatioIsJsRound(100 * n.passives, total);
    RoundRatioIsJsRound(100 * n.detractors, total);
    RoundRatioIsJsRound(100 * (n.promoters - n.detractors), total);
  }

  /**
   * With non-negative counts and a positive total, each share lies in
   * [0, 100], the three shares add up to 100 up to rounding, and the overall
   * score lies in [-100, 100]; with a zero total every derived figure is 0.
   */
  lemma NpsBreakdownBounds(n: NpsCounts)
    requires n.promoters >= 0 && n.passives >= 0 && n.detractors >= 0
    ensures var b := NpsBreakdownOf(n);
      && 0 <= b.promotersPercent <= 100 && 0 <= b.passivesPercent <= 100 && 0 <= b.detractorsPercent <= 100
      && -100 <= b.overallNps <= 100
      && (NpsTotal(n) > 0 ==> 99 <= b.promotersPercent + b.passivesPercent + b.detractorsPercent <= 101)
      && (NpsTotal(n) == 0 ==> b.promotersPercent == b.passivesPercent == b.detractorsPercent == b.overallNps == 0)
  {
    var total := NpsTotal(n);
    PercentBounds(n.promoters, total);
    PercentBounds(n.passives, total);
    PercentBounds(n.detractors, total);
    SignedPercentBounds(n.promoters - n.detractors, total);
    if total > 0 {
      PercentsNearHundred(n.promoters, n.passives, n.detractors);
    }
  }

  /**
   * The sentiment shares divide by the NPS total: each lies in [0, 100] when
   * its count does not exceed that total, they add up to 100 up to rounding
   * when the sentiment counts add up to the NPS total, and they are all 0
   * when the NPS total is 0, whatever the sentiment counts.
   */
  lemma SentimentMetricsBounds(s: SentimentCounts, npsTotal: int)
    requires 0 <= s.positive <= npsTotal && 0 <= s.neutral <= npsTotal && 0 <= s.negative <= npsTotal
    ensures var m := SentimentMetricsOf(s, npsTotal);
      && 0 <= m.positivePercent <= 100 && 0 <= m.neutralPercent <= 100 && 0 <= m.negativePercent <= 100
      && (npsTotal > 0 && s.positive + s.neutral + s.negative == npsTotal
          ==> 99 <= m.positivePercent + m.neutralPercent + m.negativePercent <= 101)
  {
    PercentBounds(s.positive, npsTotal);
    PercentBounds(s.neutral, npsTotal);
    PercentBounds(s.negative, npsTotal);
    if npsTotal > 0 && s.positive + s.neutral + s.negative == npsTotal {
      PercentsNearHundred(s.positive, s.neutral, s.negative);
    }
  }

  lemma SentimentMetricsZeroTotal(s: SentimentCounts)
    ensures SentimentMetricsOf(s, 0) == SentimentMetrics(s.positive, s.neutral, s.negative, 0, 0, 0)
  {
  }

  lemma {:induction false} AllInsightsSpec(rs: seq<ClaudeResponse>)
    ensures forall x :: x in AllInsights(rs) <==> exists b :: 0 <= b < |rs| && x in rs[b].insights
  {
    if rs != [] {
      var p := rs[..|rs| - 1];
      AllInsightsSpec(p);
      forall x | x in AllInsights(rs)
        ensures exists b :: 0 <= b < |rs| && x in rs[b].insights
      {
        if x in AllInsights(p) {
          var b :| 0 <= b < |p| && x in p[b].insights;
          assert rs[b] == p[b];
        }
      }
      forall x | exists b :: 0 <= b < |rs| && x in rs[b].insights
        ensures x in AllInsights(rs)
      {
        var b :| 0 <= b < |rs| && x in rs[b].insights;
        if b < |p| {
          assert p[b] == rs[b];
        }
      }
    }
  }

  /**
   * The report's insights are the first `InsightCap` distinct insights in
   * batch order: no repeats, each from some batch, and fewer than the cap
   * only when the batches have no more distinct insights.
   */
  lemma ReportInsightsSpec(rs: seq<ClaudeResponse>)
    ensures var r := ReportInsights(rs);
      && Distinct(r)
      && |r| <= InsightCap
      && r <= Dedup(AllInsights(rs))
      && (forall x :: x in r ==> exists b :: 0 <= b < |rs| && x in rs[b].insights)
      && (|r| < InsightCap ==> r == Dedup(AllInsights(rs)))
  {
    var r := ReportInsights(rs);
    var d := Dedup(AllInsights(rs));
    AllInsightsSpec(rs);
    forall i, j | 0 <= i < j < |r| ensures r[i] != r[j] {
      assert r[i] == d[i] && r[j] == d[j];
    }
    forall x | x in r ensures exists b :: 0 <= b < |rs| && x in rs[b].insights {
      var i :| 0 <= i < |r| && r[i] == x;
      assert d[i] in d;
    }
  }
}
