/**
 * The records that flow through the analyzer: the normalised feedback row,
 * the themes and breakdowns of a report, a stored session, and the
 * per-batch response the language model returns.
 */
module FeedbackTypes {

  datatype Option<T> = None | Some(value: T)

  /** JavaScript truthiness of an optional string: present and non-empty. */
  predicate Truthy(v: Option<string>) {
    v.Some? && v.value != ""
  }

  /** A computation that may throw; `Err` carries the error message. */
  datatype Result<T> = Ok(value: T) | Err(message: string)

  /**
   * One normalised feedback row. The optional columns are absent (`None`)
   * or hold the trimmed cell text. The score is a JavaScript number.
   */
  datatype FeedbackEntry = FeedbackEntry(
    feedbackText: string,
    npsScore: real,
    age: Option<string>,
    location: Option<string>,
    deviceType: Option<string>,
    userSegment: Option<string>,
    date: Option<string>)

  /** Positive / neutral / negative counts. */
  datatype SentimentCounts = SentimentCounts(positive: int, neutral: int, negative: int)

  datatype Theme = Theme(
    name: string,
    count: int,
    sentiment: SentimentCounts,
    quotes: seq<string>,
    description: string)

  datatype NpsCounts = NpsCounts(promoters: int, passives: int, detractors: int)

  datatype NpsBreakdown = NpsBreakdown(
    promoters: int,
    passives: int,
    detractors: int,
    promotersPercent: int,
    passivesPercent: int,
    detractorsPercent: int,
    overallNps: int)

  datatype SentimentMetrics = SentimentMetrics(
    positive: int,
    neutral: int,
    negative: int,
    positivePercent: int,
    neutralPercent: int,
    negativePercent: int)

  datatype DemographicValue = DemographicValue(count: int, avgNps: int, sentiment: SentimentMetrics)

  /** Demographic field name, then observed value, then its statistics. */
  type DemographicData = map<string, map<string, DemographicValue>>

  datatype TrendData = TrendData(date: string, nps: int, sentiment: SentimentMetrics)

  datatype AnalysisResult = AnalysisResult(
    id: string,
    timestamp: int,
    feedbackCount: int,
    themes: seq<Theme>,
    nps: NpsBreakdown,
    sentiment: SentimentMetrics,
    demographics: DemographicData,
    trends: seq<TrendData>,
    insights: seq<string>,
    rawData: seq<FeedbackEntry>)

  datatype AnalysisSession = AnalysisSession(
    id: string,
    name: string,
    created: int,
    feedbackCount: int,
    npsScore: int,
    result: AnalysisResult)

  datatype SentimentLabel = Positive | Neutral | Negative

  /** The structured answer the language model gives for one batch. */
  datatype ClaudeResponse = ClaudeResponse(
    themes: seq<Theme>,
    nps: NpsCounts,
    sentiment: SentimentCounts,
    insights: seq<string>,
    feedbackSentiments: seq<SentimentLabel>)
}
