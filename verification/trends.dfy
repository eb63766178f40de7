/**
 * The per-date trend of a report: the rows that carry a date are grouped by
 * that date (groups in order of first appearance), each group is summarised
 * by its rounded mean score and a score-based sentiment split, and the
 * summaries are sorted by the time their date denotes.
 */
module Trends {
  import opened FeedbackTypes
  import opened SeqUtil
  import opened Rounding

  /** The truthy dates of the rows, in row order, repeats kept. */
  function DatesOf(data: seq<FeedbackEntry>): seq<string> {
    if data == [] then []
    else
      var e := data[|data| - 1];
      DatesOf(data[..|data| - 1]) + (if Truthy(e.date) then [e.date.value] else [])
  }

  /** The rows grouped under `d`, in row order: one per occurrence of `d` among the dates. */
  function GroupOf(data: seq<FeedbackEntry>, d: string): (r: seq<FeedbackEntry>)
    ensures |r| == multiset(DatesOf(data))[d]
  {
    if data == [] then []
    else
      var e := data[|data| - 1];
      GroupOf(data[..|data| - 1], d) + (if Truthy(e.date) && e.date.value == d then [e] else [])
  }

  /** Each row of a date's group is a row of the data that carries that date. */
  lemma {:induction false} GroupMembers(data: seq<FeedbackEntry>, d: string)
    ensures forall e :: e in GroupOf(data, d) ==> e in data && d != "" && e.date == Some(d)
  {
    if data != [] {
      var p := data[..|data| - 1];
      GroupMembers(p, d);
      assert forall e :: e in p ==> e in data;
    }
  }

  /** `entries.reduce((sum, e) => sum + e.nps_score, 0)`. */
  function SumScores(entries: seq<FeedbackEntry>): real {
    if entries == [] then 0.0 else SumScores(entries[..|entries| - 1]) + entries[|entries| - 1].npsScore
  }

  /** `entries.filter(e => p(e.nps_score)).length`. */
  function CountScores(entries: seq<FeedbackEntry>, p: real -> bool): (r: nat)
    ensures r <= |entries|
  {
    if entries == [] then 0
    else CountScores(entries[..|entries| - 1], p) + (if p(entries[|entries| - 1].npsScore) then 1 else 0)
  }

  predicate IsPositiveScore(s: real) { s >= 7.0 }
  predicate IsNeutralScore(s: real) { s == 6.0 }
  predicate IsNegativeScore(s: real) { s <= 5.0 }

  /**
   * The summary of one date's group: the mean score rounded half up, and
   * how many scores are at least 7, exactly 6 and at most 5, each also as a
   * rounded percentage of the group.
   */
  function TrendFor(date: string, entries: seq<FeedbackEntry>): (r: TrendData)
    requires |entries| > 0
    ensures r.date == date
  {
    var total := |entries|;
    var positive := CountScores(entries, IsPositiveScore);
    var neutral := CountScores(entries, IsNeutralScore);
    var negative := CountScores(entries, IsNegativeScore);
    TrendData(date, JsRound(SumScores(entries) / total as real),
      SentimentMetrics(positive, neutral, negative,
        Percent(positive, total), Percent(neutral, total), Percent(negative, total)))
  }

  /**
   * A date's figures: its score is the group's mean rounded to the nearest
   * integer, and each sentiment count is the number of scores in its band,
   * with a percentage in [0, 100].
   */
  lemma TrendFigures(date: string, entries: seq<FeedbackEntry>)
    requires |entries| > 0
    ensures var r := TrendFor(date, entries);
      && r.nps as real - 0.5 <= SumScores(entries) / |entries| as real < r.nps as real + 0.5
      && r.sentiment.positive == CountScores(entries, IsPositiveScore)
      && r.sentiment.neutral == CountScores(entries, IsNeutralScore)
      && r.sentiment.negative == CountScores(entries, IsNegativeScore)
      && 0 <= r.sentiment.positivePercent <= 100
      && 0 <= r.sentiment.neutralPercent <= 100
      && 0 <= r.sentiment.negativePercent <= 100
  {
    var total := |entries|;
    PercentBounds(CountScores(entries, IsPositiveScore), total);
    PercentBounds(CountScores(entries, IsNeutralScore), total);
    PercentBounds(CountScores(entries, IsNegativeScore), total);
  }

  /** The summaries of the dates `ds`, in that order. */
  function Rows(data: seq<FeedbackEntry>, ds: seq<string>): (r: seq<TrendData>)
    requires forall d :: d in ds ==> d in DatesOf(data)
    ensures |r| == |ds|
  {
    if ds == [] then []
    else
      var d := ds[|ds| - 1];
      assert d in ds && d in multiset(DatesOf(data));
      Rows(data, ds[..|ds| - 1]) + [TrendFor(d, GroupOf(data, d))]
  }

  /** Sort key for `new Date(a.date).getTime() - new Date(b.date).getTime()`. */
  function ByTime(timeOf: string -> int): TrendData -> int {
    (t: TrendData) => timeOf(t.date)
  }

  /**
   * The trends of a report: one summary per distinct truthy date, in order
   * of first appearance, then stably sorted by `timeOf` of the date.
   */
  function TrendsOf(data: seq<FeedbackEntry>, timeOf: string -> int): seq<TrendData> {
    SortBy(Rows(data, Dedup(DatesOf(data))), ByTime(timeOf))
  }

  // ---------------------------------------------------------------------------
  // The grouping and summarising loops
  // ---------------------------------------------------------------------------

  lemma NoDates(data: seq<FeedbackEntry>)
    requires !exists k :: 0 <= k < |data| && Truthy(data[k].date)
    ensures DatesOf(data) == []
  {
    DatesOfSpec(data);
  }

  /**
   * The date `Map` after grouping `data` in order: a new date opens an
   * empty group, then the row is appended to its date's group.
   */
  function Groups(data: seq<FeedbackEntry>): map<string, seq<FeedbackEntry>> {
    if data == [] then map[]
    else
      var m := Groups(data[..|data| - 1]);
      var e := data[|data| - 1];
      if Truthy(e.date) then
        var date := e.date.value;
        var m' := if date !in m then m[date := []] else m;
        m'[date := m'[date] + [e]]
      else m
  }

  /** The date map holds exactly the listed dates, each with its group. */
  lemma {:induction false} GroupsSpec(data: seq<FeedbackEntry>)
    ensures forall d :: d in Groups(data) <==> d in DatesOf(data)
    ensures forall d :: d in Groups(data) ==> Groups(data)[d] == GroupOf(data, d)
  {
    if data != [] {
      var p := data[..|data| - 1];
      GroupsSpec(p);
      var e := data[|data| - 1];
      if Truthy(e.date) {
        var date := e.date.value;
        if date !in Groups(p) {
          assert |GroupOf(p, date)| == 0;
        }
      }
    }
  }

  /**
   * The grouping loop of `buildTrends`: each row with a truthy date is
   * appended to the group of that date, a new date opening a new group at
   * the end of the map's order.
   */
  method GroupByDate(data: seq<FeedbackEntry>) returns (dates: seq<string>, groups: map<string, seq<FeedbackEntry>>)
    ensures dates == Dedup(DatesOf(data))
    ensures groups == Groups(data)
  {
    dates := [];
    groups := map[];
    for i := 0 to |data|
      invariant dates == Dedup(DatesOf(data[..i]))
      invariant groups == Groups(data[..i])
    {
      var entry := data[i];
      GroupingStep(data, i, dates, groups);
      if Truthy(entry.date) {
        var date := entry.date.value;
        if date !in groups {
          groups := groups[date := []];
          dates := dates + [date];
        }
        groups := groups[date := groups[date] + [entry]];
      }
    }
    assert data[..|data|] == data;
  }

  /** What one more row does to the listed dates and to the date map. */
  lemma GroupingStep(data: seq<FeedbackEntry>, i: nat, dates: seq<string>, groups: map<string, seq<FeedbackEntry>>)
    requires i < |data| && dates == Dedup(DatesOf(data[..i])) && groups == Groups(data[..i])
    ensures var e := data[i];
      Truthy(e.date) ==>
        && (e.date.value in groups <==> e.date.value in dates)
        && Dedup(DatesOf(data[..i + 1])) == (if e.date.value in dates then dates else dates + [e.date.value])
        && Groups(data[..i + 1]) == (
          var m' := if e.date.value !in groups then groups[e.date.value := []] else groups;
          m'[e.date.value := m'[e.date.value] + [e]])
    ensures !Truthy(data[i].date) ==> Dedup(DatesOf(data[..i + 1])) == dates && Groups(data[..i + 1]) == groups
  {
    var e := data[i];
    assert data[..i + 1][..i] == data[..i];
    if Truthy(e.date) {
      var date := e.date.value;
      GroupsSpec(data[..i]);
      assert DatesOf(data[..i + 1]) == DatesOf(data[..i]) + [date];
      DedupSnoc(DatesOf(data[..i]), date);
    } else {
      assert DatesOf(data[..i + 1]) == DatesOf(data[..i]) + [] == DatesOf(data[..i]);
    }
  }

  /**
   * `buildTrends`: returns no trends when no row has a date; otherwise
   * groups the rows in a `Map` keyed by date, summarises each group in the
   * map's order, and sorts the summaries by time.
   */
  method BuildTrends(data: seq<FeedbackEntry>, timeOf: string -> int) returns (trends: seq<TrendData>)
    ensures trends == TrendsOf(data, timeOf)
  {
    trends := [];
    if !exists k :: 0 <= k < |data| && Truthy(data[k].date) {
      NoDates(data);
      return;
    }
    var dates, groups := GroupByDate(data);
    assert forall d :: d in dates ==> d in DatesOf(data) && d in groups && groups[d] == GroupOf(data, d) by {
      GroupsSpec(data);
    }
    var rows: seq<TrendData> := [];
    for k := 0 to |dates|
      invariant rows == Rows(data, dates[..k])
    {
      var date := dates[k];
      var entries := groups[date];
      assert entries == GroupOf(data, date) && |entries| > 0 by {
        assert date in dates && date in multiset(DatesOf(data));
      }
      var total := |entries|;
      var avgNps := JsRound(SumScores(entries) / total as real);
      var positiveCount := CountScores(entries, IsPositiveScore);
      var neutralCount := CountScores(entries, IsNeutralScore);
      var negativeCount := CountScores(entries, IsNegativeScore);
      var trend := TrendData(date, avgNps,
        SentimentMetrics(positiveCount, neutralCount, negativeCount,
          Percent(positiveCount, total), Percent(neutralCount, total), Percent(negativeCount, total)));
      assert trend == TrendFor(date, entries);
      RowsSnoc(data, dates, k);
      rows := rows + [trend];
    }
    assert dates[..|dates|] == dates;
    trends := SortBy(rows, ByTime(timeOf));
  }

  lemma RowsSnoc(data: seq<FeedbackEntry>, ds: seq<string>, k: nat)
    requires k < |ds| && forall d :: d in ds ==> d in DatesOf(data)
    ensures ds[k] in multiset(DatesOf(data))
    ensures Rows(data, ds[..k + 1]) == Rows(data, ds[..k]) + [TrendFor(ds[k], GroupOf(data, ds[k]))]
  {
    assert ds[k] in ds;
    assert ds[..k + 1][..k] == ds[..k];
  }

  // ---------------------------------------------------------------------------
  // Properties of the trends
  // ---------------------------------------------------------------------------

  /** A date is listed exactly when some row carries it as a non-empty string. */
  lemma {:induction false} DatesOfSpec(data: seq<FeedbackEntry>)
    ensures forall d :: d in DatesOf(data) <==> d != "" && exists k :: 0 <= k < |data| && data[k].date == Some(d)
  {
    if data != [] {
      var p := data[..|data| - 1];
      DatesOfSpec(p);
      forall d | d != "" && exists k :: 0 <= k < |data| && data[k].date == Some(d)
        ensures d in DatesOf(data)
      {
        var k :| 0 <= k < |data| && data[k].date == Some(d);
        if k < |p| {
          assert p[k] == data[k];
        }
      }
      forall d | d in DatesOf(data)
        ensures exists k :: 0 <= k < |data| && data[k].date == Some(d)
      {
        if d in DatesOf(p) {
          var k :| 0 <= k < |p| && p[k].date == Some(d);
          assert data[k] == p[k];
        } else {
          assert data[|data| - 1].date == Some(d);
        }
      }
    }
  }

  /** There are no trends exactly when no row has a truthy date. */
  lemma TrendsEmpty(data: seq<FeedbackEntry>, timeOf: string -> int)
    ensures TrendsOf(data, timeOf) == [] <==> !exists k :: 0 <= k < |data| && Truthy(data[k].date)
  {
    DatesOfSpec(data);
    if exists k :: 0 <= k < |data| && Truthy(data[k].date) {
      var k :| 0 <= k < |data| && Truthy(data[k].date);
      assert data[k].date.value in DatesOf(data);
      assert data[k].date.value in Dedup(DatesOf(data));
    } else {
      NoDates(data);
    }
  }

  lemma RowsSpec(data: seq<FeedbackEntry>, ds: seq<string>)
    requires forall d :: d in ds ==> d in DatesOf(data)
    ensures forall j :: 0 <= j < |ds| ==>
      |GroupOf(data, ds[j])| > 0 && Rows(data, ds)[j] == TrendFor(ds[j], GroupOf(data, ds[j]))
  {
    forall j | 0 <= j < |ds|
      ensures |GroupOf(data, ds[j])| > 0 && Rows(data, ds)[j] == TrendFor(ds[j], GroupOf(data, ds[j]))
    {
      RowAt(data, ds, j);
    }
  }

  lemma {:induction false} RowAt(data: seq<FeedbackEntry>, ds: seq<string>, j: nat)
    requires j < |ds| && forall d :: d in ds ==> d in DatesOf(data)
    ensures |GroupOf(data, ds[j])| > 0 && Rows(data, ds)[j] == TrendFor(ds[j], GroupOf(data, ds[j]))
    decreases |ds|
  {
    var p := ds[..|ds| - 1];
    if j < |p| {
      assert forall e :: e in p ==> e in ds;
      RowAt(data, p, j);
      assert ds[j] == p[j];
    } else {
      assert ds[j] in ds && ds[j] in multiset(DatesOf(data));
    }
  }

  /** Before sorting, each summary is that of its own date's group. */
  lemma RowsAreOwnGroups(data: seq<FeedbackEntry>)
    ensures var rows := Rows(data, Dedup(DatesOf(data)));
      forall t :: t in rows ==> t.date in DatesOf(data) && t == TrendFor(t.date, GroupOf(data, t.date))
  {
    var ds := Dedup(DatesOf(data));
    var rows := Rows(data, ds);
    RowsSpec(data, ds);
    forall t | t in rows
      ensures t.date in DatesOf(data) && t == TrendFor(t.date, GroupOf(data, t.date))
    {
      var j :| 0 <= j < |rows| && rows[j] == t;
      assert ds[j] in ds;
    }
  }

  /** Before sorting, every truthy date has a summary. */
  lemma RowsCoverDates(data: seq<FeedbackEntry>)
    ensures var rows := Rows(data, Dedup(DatesOf(data)));
      forall d :: d in DatesOf(data) ==> exists t :: t in rows && t.date == d
  {
    var ds := Dedup(DatesOf(data));
    var rows := Rows(data, ds);
    RowsSpec(data, ds);
    forall d | d in DatesOf(data)
      ensures exists t :: t in rows && t.date == d
    {
      assert d in ds;
      var j :| 0 <= j < |ds| && ds[j] == d;
      assert rows[j] in rows;
    }
  }

  /** Before sorting, no two summaries are equal: their dates differ. */
  lemma RowsDistinct(data: seq<FeedbackEntry>)
    ensures Distinct(Rows(data, Dedup(DatesOf(data))))
  {
    var ds := Dedup(DatesOf(data));
    var rows := Rows(data, ds);
    RowsSpec(data, ds);
    forall i, j | 0 <= i < j < |rows| ensures rows[i] != rows[j] {
      assert rows[i].date == ds[i] && rows[j].date == ds[j];
    }
  }

  /**
   * Every trend summarises the group of its own date, which is a date some
   * row carries; every such date has a trend; no date has two.
   */
  lemma TrendsOnePerDate(data: seq<FeedbackEntry>, timeOf: string -> int)
    ensures var r := TrendsOf(data, timeOf);
      && (forall t :: t in r ==> t.date in DatesOf(data) && t == TrendFor(t.date, GroupOf(data, t.date)))
      && (forall d :: d in DatesOf(data) ==> exists t :: t in r && t.date == d)
      && (forall i, j :: 0 <= i < j < |r| ==> r[i].date != r[j].date)
  {
    var rows := Rows(data, Dedup(DatesOf(data)));
    var r := TrendsOf(data, timeOf);
    RowsAreOwnGroups(data);
    RowsCoverDates(data);
    RowsDistinct(data);
    assert multiset(r) == multiset(rows);
    forall t | t in r ensures t in rows {
      assert t in multiset(rows);
    }
    forall d | d in DatesOf(data)
      ensures exists t :: t in r && t.date == d
    {
      var t :| t in rows && t.date == d;
      assert t in multiset(r);
    }
    DistinctPermutation(rows, r);
    forall i, j | 0 <= i < j < |r| ensures r[i].date != r[j].date {
      assert r[i] in r && r[j] in r;
    }
  }

  /** The trends are ordered by the time of their date, earliest first. */
  lemma TrendsSorted(data: seq<FeedbackEntry>, timeOf: string -> int)
    ensures var r := TrendsOf(data, timeOf);
      forall i, j :: 0 <= i < j < |r| ==> timeOf(r[i].date) <= timeOf(r[j].date)
  {
    var r := TrendsOf(data, timeOf);
    forall i, j | 0 <= i < j < |r| ensures timeOf(r[i].date) <= timeOf(r[j].date) {
      assert ByTime(timeOf)(r[i]) <= ByTime(timeOf)(r[j]);
    }
  }

  /** Dates denoting the same time keep their first-appearance order. */
  lemma TrendsStable(data: seq<FeedbackEntry>, timeOf: string -> int, time: int)
    ensures WithKey(TrendsOf(data, timeOf), ByTime(timeOf), time)
      == WithKey(Rows(data, Dedup(DatesOf(data))), ByTime(timeOf), time)
  {
    SortByIsStable(Rows(data, Dedup(DatesOf(data))), ByTime(timeOf), time);
  }

  /** Sum of the group sizes of the dates `ds`. */
  function GroupSizes(data: seq<FeedbackEntry>, ds: seq<string>): int {
    if ds == [] then 0 else GroupSizes(data, ds[..|ds| - 1]) + |GroupOf(data, ds[|ds| - 1])|
  }

  lemma {:induction false} GroupSizesAreOccurrences(data: seq<FeedbackEntry>, ds: seq<string>)
    ensures GroupSizes(data, ds) == SumOccurrences(ds, DatesOf(data))
  {
    if ds != [] {
      GroupSizesAreOccurrences(data, ds[..|ds| - 1]);
    }
  }

  /** Every dated row falls in exactly one group: the group sizes add up to the dated rows. */
  lemma GroupsPartitionDatedRows(data: seq<FeedbackEntry>)
    ensures GroupSizes(data, Dedup(DatesOf(data))) == |DatesOf(data)|
  {
    GroupSizesAreOccurrences(data, Dedup(DatesOf(data)));
    GroupSizesSum(DatesOf(data));
  }

  predicate IntegralScores(entries: seq<FeedbackEntry>) {
    forall e :: e in entries ==> e.npsScore == e.npsScore.Floor as real
  }

  lemma {:induction false} CountsPartition(entries: seq<FeedbackEntry>)
    requires IntegralScores(entries)
    ensures CountScores(entries, IsPositiveScore) + CountScores(entries, IsNeutralScore)
      + CountScores(entries, IsNegativeScore) == |entries|
  {
    if entries != [] {
      var p := entries[..|entries| - 1];
      assert forall e :: e in p ==> e in entries;
      CountsPartition(p);
      var s := entries[|entries| - 1].npsScore;
      assert s == s.Floor as real;
      assert s.Floor >= 7 || s.Floor == 6 || s.Floor <= 5;
    }
  }

  /**
   * With whole-number scores every row of a group is counted as exactly one
   * of positive, neutral or negative, and the three percentages add up to
   * 100 up to rounding.
   */
  lemma TrendSentimentPartition(date: string, entries: seq<FeedbackEntry>)
    requires |entries| > 0 && IntegralScores(entries)
    ensures var m := TrendFor(date, entries).sentiment;
      && m.positive + m.neutral + m.negative == |entries|
      && 99 <= m.positivePercent + m.neutralPercent + m.negativePercent <= 101
  {
    CountsPartition(entries);
    var m := TrendFor(date, entries).sentiment;
    PercentsNearHundred(m.positive, m.neutral, m.negative);
  }

  lemma {:induction false} SumScoresBounds(entries: seq<FeedbackEntry>)
    requires forall e :: e in entries ==> 0.0 <= e.npsScore <= 10.0
    ensures 0.0 <= SumScores(entries) <= 10.0 * |entries| as real
  {
    if entries != [] {
      var p := entries[..|entries| - 1];
      assert forall e :: e in p ==> e in entries;
      SumScoresBounds(p);
      assert entries[|entries| - 1] in entries;
    }
  }

  /** With scores on the 0 to 10 scale, a date's rounded mean is on that scale too. */
  lemma TrendNpsRange(date: string, entries: seq<FeedbackEntry>)
    requires |entries| > 0
    requires forall e :: e in entries ==> 0.0 <= e.npsScore <= 10.0
    ensures 0 <= TrendFor(date, entries).nps <= 10
  {
    SumScoresBounds(entries);
    var n := |entries| as real;
    var mean := SumScores(entries) / n;
    assert mean * n == SumScores(entries);
    ScaleDown(0.0, mean, n);
    ScaleDown(mean, 10.0, n);
  }
}
