/**
 * `analyzeFeedback`: the entry point of the analysis. It checks its inputs,
 * sends the batches to the language model one after the other, and
 * aggregates the answers; plus the reading of one model reply in
 * `callClaude`, from the reply text to a batch response.
 */
module Analyzer {
  import opened FeedbackTypes
  import opened Batching
  import opened Aggregation

  const MissingKeyMessage: string := "OpenRouter API key not configured. Set VITE_OPENROUTER_API_KEY in .env"
  const NoDataMessage: string := "No feedback data to analyze"

  /**
   * `callClaude(batch, batchIndex, totalBatches)`: the answer for one batch
   * or the message of the error it throws.
   */
  type BatchCall = (seq<FeedbackEntry>, nat, nat) -> Result<ClaudeResponse>

  /**
   * The answers to `batches`, requested in order; the first failing request
   * ends the run with its error.
   */
  function Collect(batches: seq<seq<FeedbackEntry>>, call: BatchCall, total: nat): Result<seq<ClaudeResponse>> {
    if batches == [] then Ok([])
    else
      match Collect(batches[..|batches| - 1], call, total)
      case Err(m) => Err(m)
      case Ok(rs) =>
        match call(batches[|batches| - 1], |batches| - 1, total)
        case Err(m) => Err(m)
        case Ok(x) => Ok(rs + [x])
  }

  /**
   * The outcome of `analyzeFeedback`: the missing key and the empty input are
   * rejected first; otherwise the batches of 40 are answered in order and
   * aggregated, and the report keeps the input rows.
   */
  function AnalysisOf(data: seq<FeedbackEntry>, apiKey: Option<string>, call: BatchCall, idStamp: string,
                      timestamp: int, timeOf: string -> int): Result<AnalysisResult> {
    if !Truthy(apiKey) then Err(MissingKeyMessage)
    else if data == [] then Err(NoDataMessage)
    else
      var batches := Chunks(data, BatchSize);
      match Collect(batches, call, |batches|)
      case Err(m) => Err(m)
      case Ok(rs) => Ok(AggregateOf(rs, data, idStamp, timestamp, timeOf).(rawData := data))
  }

  lemma CollectSnoc(batches: seq<seq<FeedbackEntry>>, call: BatchCall, total: nat, k: nat)
    requires k < |batches|
    ensures Collect(batches[..k + 1], call, total) ==
      match Collect(batches[..k], call, total)
      case Err(m) => Err(m)
      case Ok(rs) =>
        match call(batches[k], k, total)
        case Err(m) => Err(m)
        case Ok(x) => Ok(rs + [x])
  {
    assert batches[..k + 1][..k] == batches[..k];
  }

  /** Once a request has failed, the run fails with that error whatever follows. */
  lemma {:induction false} CollectStopsAtError(batches: seq<seq<FeedbackEntry>>, call: BatchCall, total: nat, k: nat, m: string)
    requires k <= |batches| && Collect(batches[..k], call, total) == Err(m)
    ensures Collect(batches, call, total) == Err(m)
    decreases |batches| - k
  {
    if k == |batches| {
      assert batches[..k] == batches;
    } else {
      CollectSnoc(batches, call, total, k);
      CollectStopsAtError(batches, call, total, k + 1, m);
    }
  }

  /**
   * `analyzeFeedback`: rejects a missing key and empty input, cuts the rows
   * into batches, requests the batches strictly in order (a failed request
   * ends the run with its error), aggregates the answers, and attaches the
   * input rows to the report.
   */
  method AnalyzeFeedback(feedbackData: seq<FeedbackEntry>, apiKey: Option<string>, callClaude: BatchCall,
                         idStamp: string, timestamp: int, timeOf: string -> int) returns (r: Result<AnalysisResult>)
    ensures r == AnalysisOf(feedbackData, apiKey, callClaude, idStamp, timestamp, timeOf)
  {
    if !Truthy(apiKey) {
      return Err(MissingKeyMessage);
    }
    if |feedbackData| == 0 {
      return Err(NoDataMessage);
    }
    var batches := MakeBatches(feedbackData);
    var allResults: seq<ClaudeResponse> := [];
    for batchIndex := 0 to |batches|
      invariant Collect(batches[..batchIndex], callClaude, |batches|) == Ok(allResults)
    {
      var batch := batches[batchIndex];
      CollectSnoc(batches, callClaude, |batches|, batchIndex);
      var result := callClaude(batch, batchIndex, |batches|);
      if result.Err? {
        CollectStopsAtError(batches, callClaude, |batches|, batchIndex + 1, result.message);
        return Err(result.message);
      }
      allResults := allResults + [result.value];
    }
    assert batches[..|batches|] == batches;
    var aggregatedResult := AggregateResults(allResults, feedbackData, idStamp, timestamp, timeOf);
    aggregatedResult := aggregatedResult.(rawData := feedbackData);
    return Ok(aggregatedResult);
  }

  // ---------------------------------------------------------------------------
  // Properties of a run
  // ---------------------------------------------------------------------------

  /**
   * A successful run has one answer per batch, each the answer to that
   * batch's request; a failed run fails with the error of the first
   * request that failed, every earlier request having succeeded.
   */
  lemma {:induction false} CollectSpec(batches: seq<seq<FeedbackEntry>>, call: BatchCall, total: nat)
    ensures Collect(batches, call, total).Ok? ==>
      var rs := Collect(batches, call, total).value;
      |rs| == |batches| && forall b :: 0 <= b < |batches| ==> call(batches[b], b, total) == Ok(rs[b])
    ensures Collect(batches, call, total).Err? ==>
      exists b :: 0 <= b < |batches| && call(batches[b], b, total) == Err(Collect(batches, call, total).message)
        && forall b' :: 0 <= b' < b ==> call(batches[b'], b', total).Ok?
  {
    if batches != [] {
      var p := batches[..|batches| - 1];
      var last := |batches| - 1;
      CollectSpec(p, call, total);
      match Collect(p, call, total)
      case Err(m) =>
        var b :| 0 <= b < |p| && call(p[b], b, total) == Err(m) && forall b' :: 0 <= b' < b ==> call(p[b'], b', total).Ok?;
        assert batches[b] == p[b];
        forall b' | 0 <= b' < b ensures call(batches[b'], b', total).Ok? {
          assert batches[b'] == p[b'];
        }
      case Ok(rs) =>
        forall b | 0 <= b < |p| ensures call(batches[b], b, total) == Ok(rs[b]) {
          assert batches[b] == p[b];
        }
        match call(batches[last], last, total)
        case Err(m) =>
          forall b' | 0 <= b' < last ensures call(batches[b'], b', total).Ok? {
            assert batches[b'] == p[b'];
          }
        case Ok(x) =>
          var rs' := rs + [x];
          forall b | 0 <= b < |batches| ensures call(batches[b], b, total) == Ok(rs'[b]) {
            if b < |p| {
              assert batches[b] == p[b];
            }
          }
    }
  }

  /** A missing key is reported first, then an empty input, before any request. */
  lemma AnalysisRejections(data: seq<FeedbackEntry>, apiKey: Option<string>, call: BatchCall, idStamp: string,
                           timestamp: int, timeOf: string -> int)
    ensures !Truthy(apiKey) ==> AnalysisOf(data, apiKey, call, idStamp, timestamp, timeOf) == Err(MissingKeyMessage)
    ensures Truthy(apiKey) && data == [] ==> AnalysisOf(data, apiKey, call, idStamp, timestamp, timeOf) == Err(NoDataMessage)
    ensures data == [] ==> AnalysisOf(data, apiKey, call, idStamp, timestamp, timeOf).Err?
  {
  }

  /**
   * A successful report keeps the input rows and counts them, and is the
   * aggregate of one answer per batch of at most 40 consecutive rows.
   */
  lemma AnalysisSuccess(data: seq<FeedbackEntry>, apiKey: Option<string>, call: BatchCall, idStamp: string,
                        timestamp: int, timeOf: string -> int)
    requires AnalysisOf(data, apiKey, call, idStamp, timestamp, timeOf).Ok?
    ensures var batches := Chunks(data, BatchSize);
      var report := AnalysisOf(data, apiKey, call, idStamp, timestamp, timeOf).value;
      && data != [] && Truthy(apiKey)
      && report.rawData == data && report.feedbackCount == |data|
      && |batches| == (|data| + BatchSize - 1) / BatchSize
      && Flatten(batches) == data
      && (forall b :: 0 <= b < |batches| ==> 0 < |batches[b]| <= BatchSize)
      && Collect(batches, call, |batches|).Ok?
      && report == AggregateOf(Collect(batches, call, |batches|).value, data, idStamp, timestamp, timeOf).(rawData := data)
  {
    ChunksPartition(data, BatchSize);
    ChunksCount(data, BatchSize);
  }

  // ---------------------------------------------------------------------------
  // Reading one reply of the language model
  // ---------------------------------------------------------------------------

  /** Position of the first `c` in `s`, if any. */
  function FirstIndexOf(s: string, c: char): (r: Option<nat>)
    ensures r.Some? ==> r.value < |s| && s[r.value] == c && forall k :: 0 <= k < r.value ==> s[k] != c
    ensures r.None? ==> forall k :: 0 <= k < |s| ==> s[k] != c
  {
    if s == [] then None
    else if s[0] == c then Some(0)
    else match FirstIndexOf(s[1..], c)
      case None => None
      case Some(k) => Some(k + 1)
  }

  /** Position of the last `c` in `s`, if any. */
  function LastIndexOf(s: string, c: char): (r: Option<nat>)
    ensures r.Some? ==> r.value < |s| && s[r.value] == c && forall k :: r.value < k < |s| ==> s[k] != c
    ensures r.None? ==> forall k :: 0 <= k < |s| ==> s[k] != c
  {
    if s == [] then None
    else if s[|s| - 1] == c then Some(|s| - 1)
    else LastIndexOf(s[..|s| - 1], c)
  }

  /**
   * The match of `/\{[\s\S]*\}/` in `content`: from the first `{` to the
   * last `}`, when that `}` comes after the `{`.
   */
  function ExtractJsonObject(content: string): Option<string> {
    match FirstIndexOf(content, '{')
    case None => None
    case Some(i) =>
      match LastIndexOf(content, '}')
      case None => None
      case Some(j) => if i < j then Some(content[i..j + 1]) else None
  }

  /**
   * The extraction succeeds exactly when some `{` precedes some `}`; it
   * then returns the longest such slice starting at the leftmost `{`: it
   * starts with `{` and ends with `}`, no `{` comes before it and no `}`
   * after it.
   */
  lemma ExtractJsonObjectSpec(content: string)
    ensures ExtractJsonObject(content).Some?
      <==> exists i, j :: 0 <= i < j < |content| && content[i] == '{' && content[j] == '}'
    ensures ExtractJsonObject(content).Some? ==>
      exists i, j :: 0 <= i < j < |content| && ExtractJsonObject(content).value == content[i..j + 1]
        && content[i] == '{' && content[j] == '}'
        && (forall k :: 0 <= k < i ==> content[k] != '{')
        && (forall k :: j < k < |content| ==> content[k] != '}')
  {
    var first := FirstIndexOf(content, '{');
    var last := LastIndexOf(content, '}');
    if exists i, j :: 0 <= i < j < |content| && content[i] == '{' && content[j] == '}' {
      var i, j :| 0 <= i < j < |content| && content[i] == '{' && content[j] == '}';
      assert first.Some? && first.value <= i;
      assert last.Some? && j <= last.value;
    }
  }

  /** What the request for one batch brought back. */
  datatype Reply =
    | Failed(message: string)           // the request threw, or the service answered with an error status
    | Replied(content: Option<string>)  // `data.content[0]?.text`

  const ErrorPrefix: string := "Claude API error: "

  /**
   * The end of `callClaude`: every failure is rethrown with the prefix
   * `Claude API error: `; a reply without text, or whose text holds no
   * `{...}` slice, fails with its own message; otherwise the slice is
   * handed to `parseJson` (`JSON.parse`).
   */
  function ReadReply(reply: Reply, parseJson: string -> Result<ClaudeResponse>): (r: Result<ClaudeResponse>)
    ensures r.Err? ==> |r.message| >= |ErrorPrefix| && r.message[..|ErrorPrefix|] == ErrorPrefix
    ensures r.Ok? <==> (reply.Replied? && Truthy(reply.content)
      && ExtractJsonObject(reply.content.value).Some?
      && parseJson(ExtractJsonObject(reply.content.value).value).Ok?)
    ensures r.Ok? ==> r == parseJson(ExtractJsonObject(reply.content.value).value)
  {
    match reply
    case Failed(m) => Err(ErrorPrefix + m)
    case Replied(content) =>
      if !Truthy(content) then Err(ErrorPrefix + "No response from Claude")
      else
        match ExtractJsonObject(content.value)
        case None => Err(ErrorPrefix + "Could not parse JSON from Claude response")
        case Some(json) =>
          match parseJson(json)
          case Ok(parsed) => Ok(parsed)
          case Err(m) => Err(ErrorPrefix + m)
  }
}
