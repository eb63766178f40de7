# Feedback analyzer: a verified model of its core

This project models the core of a browser tool that turns survey feedback
into a UX report. It covers three services of the tool:

- **The analysis pipeline** (`claudeAnalyzer.ts`).
  - It rejects a missing API key and an empty input.
  - It cuts the feedback rows into batches of 40 and sends them to a language model one after the other. Each batch's answer is a parameter here.
  - `aggregateResults` folds the answers into one report:
    - themes merged by name, with summed counts and sentiment and a capped union of quotes;
    - NPS and sentiment totals, rounded percentages and the overall NPS;
    - de-duplicated and capped insights;
    - themes sorted by count.
  - It builds the demographic breakdown and the per-date trends from the rows themselves.
  - It cuts the `{...}` slice out of a model reply.
- **The CSV import** (`csvParser.ts`).
  - It normalises header names.
  - It guesses the feedback and score columns by scanning the first rows.
  - It turns every row with feedback text into a normalised feedback entry.
- **The report store and CSV export** (`storage.ts`).
  - The store appends, finds, deletes and renames sessions in the saved history.
  - The export quotes the feedback rows and joins them into CSV text.

Loops in the source are methods with loop invariants, each proved equal to a
specification function. The properties are stated about those functions, as
lemmas.

Modules:

- `FeedbackTypes`: the records.
- `SeqUtil`: `Set` de-duplication, `slice`, and a stable sort by key.
- `Rounding`: `Math.round` on exact quotients.
- `Text`: `trim`, `\s` and ASCII `toLowerCase`.
- `Batching`, `ThemeMerge`, `Aggregation`, `Demographics`, `Trends` and `Analyzer`: the analysis pipeline.
- `CsvParser`: the CSV import.
- `Storage`: the report store.
- `CsvExport`: the CSV export, and a CSV reader that the export is checked against.

Parameters stand in for the parts of the source that are foreign, nondeterministic or outside the core:

- the batch request `callClaude`, and `JSON.parse` of a reply;
- the CSV tokenizer `Papa.parse`;
- the numeral reading of `Number()`;
- the two readings of `Date.now()` and the time a date string denotes (`new Date(d).getTime()`);
- the locale date text of the default session name;
- the number-to-text conversion of the CSV export.

In a few places the code does something other than its names or comments
suggest. The model follows the code:

- **Sentiment shares.** The sentiment percentages divide by `totalNps`, the NPS total, not by the sum of the sentiment counts (`claudeAnalyzer.ts:219-221`).
- **Quotes of a theme seen once.** The theme keeps its quote list whole. The cap of 3 applies only when a name repeats (`claudeAnalyzer.ts:170-173`).
- **Trend score bands.** A trend's three bands are `>= 7`, `== 6` and `<= 5` (`claudeAnalyzer.ts:287-289`). A fractional score such as 6.5 falls in none of them. So the bands partition a group only when the scores are whole numbers (`Trends.CountsPartition`).
- **Choice of feedback column.** The comment at `csvParser.ts:56` speaks of the longest text column. The code takes the first scanned cell whose trimmed text is longer than 20 UTF-16 units (`csvParser.ts:64`).
- **Fallback feedback column.** The comment at `csvParser.ts:90` says "first text column". The tokenizer runs without dynamic typing (`csvParser.ts:18`), so every cell is a string and the fallback is always the first header.
- **Values named like `Object.prototype` members.** The demographic value tables are plain objects (`claudeAnalyzer.ts:241`). A value such as `constructor` or `toString` finds the inherited member at `:247`, so it never gets a record and is not counted (`Demographics.DemographicValueCounts`).

## Model

| member | source | states |
|---|---|---|
| Batching.MakeBatches | src/services/claudeAnalyzer.ts:39-42 | the counting loop yields exactly the consecutive slices of 40 of the input |
| Batching.ChunksPartition | src/services/claudeAnalyzer.ts:39-42 | the batches concatenate back to the input in order; none is empty or holds more than 40 rows; all but the last hold exactly 40 |
| Batching.ChunksCount | src/services/claudeAnalyzer.ts:39-42 | there are ceil(n / 40) batches |
| Analyzer.AnalyzeFeedback | src/services/claudeAnalyzer.ts:29-63 | the run is the specification `AnalysisOf`: rejections first, then batches answered in order, aggregated, with the input rows attached |
| Analyzer.AnalysisRejections | src/services/claudeAnalyzer.ts:30-36 | a missing or empty key fails with the key message before anything else; an empty input then fails with the no-data message; an empty input never succeeds |
| Analyzer.AnalysisSuccess | src/services/claudeAnalyzer.ts:34-62 | a successful report keeps and counts the input rows and aggregates one answer per batch of at most 40 consecutive rows |
| Analyzer.CollectSpec | src/services/claudeAnalyzer.ts:49-56 | a successful run has one answer per batch, in batch order; a failed run carries the error of the first failing request, every earlier request having succeeded |
| Analyzer.CollectStopsAtError | src/services/claudeAnalyzer.ts:49-56 | once a request fails, the run fails with that error whatever the later batches would answer |
| Analyzer.ExtractJsonObjectSpec | src/services/claudeAnalyzer.ts:137-140 | the extraction succeeds exactly when some `{` precedes some `}`, and then returns the slice from the first `{` to the last `}` |
| Analyzer.ReadReply | src/services/claudeAnalyzer.ts:129-146 | every failure carries the `Claude API error: ` prefix; the reply is accepted exactly when it has non-empty text with a `{...}` slice that parses, and the result is the parse of that slice |
| Analyzer.FirstIndexOf | src/services/claudeAnalyzer.ts:137 | the position of the first occurrence of the character, or none when it does not occur |
| Analyzer.LastIndexOf | src/services/claudeAnalyzer.ts:137 | the position of the last occurrence of the character, or none when it does not occur |
| Aggregation.MergeThemes | src/services/claudeAnalyzer.ts:162-175 | the inner theme loop extends the merged table by one batch's themes |
| Aggregation.AccumulateBatches | src/services/claudeAnalyzer.ts:160-189 | after the batch loop the theme table, the six running totals and the insight list are the merge and sums over all batches, in batch order |
| Aggregation.AggregateResults | src/services/claudeAnalyzer.ts:149-230 | the report equals the specification `AggregateOf` of the answers and rows |
| Aggregation.ReportThemesSpec | src/services/claudeAnalyzer.ts:162-205 | the report has one theme per distinct theme name; each is that name's merged theme (summed count and sentiment, the quote rule); counts never increase down the list |
| Aggregation.ReportThemesTies | src/services/claudeAnalyzer.ts:205 | themes of equal count keep the order in which their names were first seen |
| Aggregation.NpsBreakdownIsRoundedShares | src/services/claudeAnalyzer.ts:192-213 | with a positive total, each share is `Math.round(count / total * 100)` of the exact quotient, and the overall NPS is `Math.round((P - D) / total * 100)` |
| Aggregation.NpsBreakdownBounds | src/services/claudeAnalyzer.ts:192-213 | shares lie in [0, 100] and add up to 99, 100 or 101; the overall NPS lies in [-100, 100]; a zero total makes every derived figure 0 |
| Aggregation.SentimentMetricsBounds | src/services/claudeAnalyzer.ts:215-222 | sentiment shares divide by the NPS total; each lies in [0, 100] when its count does not exceed that total; they add up to 100 within rounding when the counts add up to it |
| Aggregation.SentimentMetricsZeroTotal | src/services/claudeAnalyzer.ts:219-221 | with an NPS total of 0 every sentiment share is 0 and the counts are kept |
| Aggregation.AllInsightsSpec | src/services/claudeAnalyzer.ts:188 | an insight is collected exactly when some batch gave it |
| Aggregation.ReportInsightsSpec | src/services/claudeAnalyzer.ts:225 | the report's insights are distinct, at most 5, each from some batch, and they are the first distinct insights in batch order |
| ThemeMerge.IndexOfName | src/services/claudeAnalyzer.ts:163-164 | the `Map` lookup finds the entry with the theme's name, or reports that no entry has it |
| ThemeMerge.MergeAllIsReference | src/services/claudeAnalyzer.ts:162-175 | the merge loop produces exactly the reference table: one theme per distinct name in first-seen order, with summed counts and sentiment, the first fragment's description, and the quote rule |
| ThemeMerge.MergedNamesDistinct | src/services/claudeAnalyzer.ts:162-175 | the names of the merged table are the de-duplicated names of all fragments, in first-seen order |
| ThemeMerge.RepeatedName | src/services/claudeAnalyzer.ts:163-171 | a fragment with a known name adds its counts to the merged theme and unions its quotes, cut to 3 |
| ThemeMerge.NewName | src/services/claudeAnalyzer.ts:172-174 | a fragment with a new name enters the table as it is |
| ThemeMerge.OtherNameUnchanged | src/services/claudeAnalyzer.ts:162-175 | merging a fragment changes no other name's merged theme |
| ThemeMerge.SingleName | src/services/claudeAnalyzer.ts:173 | a name that occurs once keeps that fragment's quote list untouched, however long |
| ThemeMerge.SortedThemesOrder | src/services/claudeAnalyzer.ts:205 | the sorted themes never increase in count and are a permutation of the table |
| ThemeMerge.SortedThemesStable | src/services/claudeAnalyzer.ts:205 | the sort by count is stable |
| SeqUtil.Dedup | src/services/claudeAnalyzer.ts:225 | `[...new Set(s)]` holds each element of `s` once and nothing else |
| SeqUtil.DedupOfDedup | src/services/claudeAnalyzer.ts:170 | de-duplicating `a + b` depends only on the de-duplicated `a` |
| SeqUtil.TakeDedupAbsorbs | src/services/claudeAnalyzer.ts:170-171 | cutting the running quote union to 3 after every merge equals one union of all quotes cut once |
| SeqUtil.SortBy | src/services/claudeAnalyzer.ts:205 | the stable sort's result is ordered by key and is a permutation of its input |
| SeqUtil.SortByIsStable | src/services/claudeAnalyzer.ts:307 | elements with equal keys keep their input order |
| SeqUtil.GroupSizesSum | src/services/claudeAnalyzer.ts:273-282 | grouping by distinct value accounts for every element exactly once |
| Rounding.JsRound | src/services/claudeAnalyzer.ts:286 | `Math.round` yields the integer nearest its argument, halves upwards |
| Rounding.RoundRatioIsJsRound | src/services/claudeAnalyzer.ts:193 | the integer formula `(2n + d) div 2d` equals `Math.round(n / d)` exactly |
| Rounding.PercentBounds | src/services/claudeAnalyzer.ts:210-212 | a share of a positive total rounds to a percentage in [0, 100] |
| Rounding.SignedPercentBounds | src/services/claudeAnalyzer.ts:193 | a signed share such as promoters minus detractors rounds into [-100, 100] |
| Rounding.PercentsNearHundred | src/services/claudeAnalyzer.ts:210-212 | three rounded shares of one total add up to 99, 100 or 101 |
| Demographics.BuildDemographicsBreakdown | src/services/claudeAnalyzer.ts:232-262 | the two nested loops compute the specification `DemographicsOf`, in which a value naming an `Object.prototype` member never gets a record |
| Demographics.CountValues | src/services/claudeAnalyzer.ts:243-258 | the inner loop counts each truthy value of one field into the table; a value whose lookup finds an inherited member adds nothing to it |
| Demographics.DemographicsForSpec | src/services/claudeAnalyzer.ts:236-259 | a visited field is listed exactly when it has a truthy value, with the value table of its truthy values, from which values naming inherited members are absent (`Demographics.ValueCountsAt`) |
| Demographics.DemographicsPresence | src/services/claudeAnalyzer.ts:236-239 | a field key is present exactly when some row has a non-empty value for it |
| Demographics.DemographicValueCounts | src/services/claudeAnalyzer.ts:243-257 | the listed values are exactly the field's truthy values that do not name an inherited member such as `constructor`; each counts the rows holding it; `avgNps` and every sentiment figure stay 0 |
| Demographics.DemographicCountsSum | src/services/claudeAnalyzer.ts:243-257 | one field's counts add up to the number of rows whose value is truthy and names no inherited member (all such rows when no value does) |
| Demographics.PresentValuesSpec | src/services/claudeAnalyzer.ts:244-245 | a value is collected exactly when some row holds it, once per row holding it |
| Demographics.ValueCountsAt | src/services/claudeAnalyzer.ts:247-255 | each distinct value naming no inherited member is listed with its number of occurrences, starting from the zero record; an inherited name is never listed |
| Demographics.CountOne | src/services/claudeAnalyzer.ts:247-255 | one occurrence adds 1 to the value's own record, creates a record at 1 for a new value, and leaves the table as it was for an inherited name; other values are unchanged |
| Demographics.Listed | src/services/claudeAnalyzer.ts:247 | the values that get a record are the input's values naming no inherited member, each as often as in the input |
| Demographics.ConstructorLocation | src/services/claudeAnalyzer.ts:247-255 | a single row from the location `constructor` gives an empty location table |
| Trends.GroupByDate | src/services/claudeAnalyzer.ts:273-282 | the grouping loop yields the distinct dates in first-seen order and the group of each |
| Trends.BuildTrends | src/services/claudeAnalyzer.ts:264-310 | `buildTrends` equals the specification `TrendsOf` |
| Trends.GroupsSpec | src/services/claudeAnalyzer.ts:273-282 | the date map holds exactly the truthy dates, each with its group |
| Trends.GroupOf | src/services/claudeAnalyzer.ts:277-280 | a date's group has one row per occurrence of that date |
| Trends.GroupMembers | src/services/claudeAnalyzer.ts:277-280 | each row of a date's group is a row of the data that carries that date |
| Trends.DatesOfSpec | src/services/claudeAnalyzer.ts:274-276 | a date is collected exactly when some row carries it as a non-empty string |
| Trends.TrendsEmpty | src/services/claudeAnalyzer.ts:268-270 | there are no trends exactly when no row has a date |
| Trends.TrendsOnePerDate | src/services/claudeAnalyzer.ts:273-304 | each trend summarises the group of its own date; every date has a trend; no date has two |
| Trends.TrendFigures | src/services/claudeAnalyzer.ts:286-301 | a trend's score is the rounded mean of its group; each band count is the number of scores in the band, with a percentage in [0, 100] |
| Trends.TrendsSorted | src/services/claudeAnalyzer.ts:307 | the trends are ordered by the time of their date, earliest first |
| Trends.TrendsStable | src/services/claudeAnalyzer.ts:307 | dates denoting the same time keep their first-seen order |
| Trends.GroupsPartitionDatedRows | src/services/claudeAnalyzer.ts:273-282 | the group sizes add up to the number of dated rows |
| Trends.CountsPartition | src/services/claudeAnalyzer.ts:287-289 | with whole-number scores the three bands count every row of a group exactly once |
| Trends.TrendSentimentPartition | src/services/claudeAnalyzer.ts:287-301 | with whole-number scores the band counts add up to the group size and the percentages to 100 within rounding |
| Trends.TrendNpsRange | src/services/claudeAnalyzer.ts:286 | with scores on the 0 to 10 scale, the rounded mean is in [0, 10] |
| Text.TrimIsSlice | src/services/csvParser.ts:20 | `trim` keeps a slice of its input with only white space around it, and the slice neither starts nor ends with white space |
| Text.TrimStartSpec | src/services/csvParser.ts:20 | leading trim drops exactly the leading white space |
| Text.TrimEndSpec | src/services/csvParser.ts:20 | trailing trim drops exactly the trailing white space |
| Text.TrimIdempotent | src/services/csvParser.ts:109 | trimming twice is trimming once |
| Text.Utf16Length | src/services/csvParser.ts:64 | `length` counts UTF-16 units: between one and two per character, and exactly one per character when no character lies beyond U+FFFF |
| Text.Utf16LengthAppend | src/services/csvParser.ts:64 | the unit length of a concatenation is the sum of the parts' lengths |
| Text.ToLower | src/services/csvParser.ts:20 | lower-casing maps every character, keeps the length, leaves no upper-case letter and keeps white space as it was |
| CsvParser.ReplaceWhitespaceRuns | src/services/csvParser.ts:20 | the result holds no white space, is no longer, and holds only `_` and characters of the input |
| CsvParser.ReplaceWhitespaceRunsSplit | src/services/csvParser.ts:20 | text without white space is kept as it is, and each maximal white-space run after it becomes exactly one `_`, the rest being replaced in turn |
| CsvParser.NormalizeHeaderSpec | src/services/csvParser.ts:20 | a normalised header holds no white space and no upper-case letter, is no longer than the raw one, and normalising it again changes nothing |
| CsvParser.DetectColumns | src/services/csvParser.ts:53-96 | the detection loops with their early `break` compute the specification `DetectedColumns`, whose feedback test measures the trimmed cell in UTF-16 units as `.length` does |
| CsvParser.ScanSettles | src/services/csvParser.ts:76 | once both columns are set, later rows change nothing, so the early `break` is harmless |
| CsvParser.ScanPicksFirst | src/services/csvParser.ts:57-77 | for either column, the scan picks the first passing cell row by row, header by header (trimmed text longer than 20 UTF-16 units for feedback, a number in [0, 10] for the score), or leaves the column unset |
| CsvParser.FirstPassing | src/services/csvParser.ts:59-75 | within one row, the first header whose cell passes for a column: trimmed text longer than 20 UTF-16 units for feedback, a number in [0, 10] for the score |
| CsvParser.FirstNumericIndex | src/services/csvParser.ts:80-88 | the fallback score column is the first header whose row-0 cell is any number |
| CsvParser.DetectedColumnsSpec | src/services/csvParser.ts:57-96 | feedback: the first scanned cell longer than 20 UTF-16 units after trimming, else the first header. Score: the first scanned cell with a number in [0, 10], else the first header with a numeric row-0 cell, else unset |
| CsvParser.ScoreOf | src/services/csvParser.ts:112-118 | an entry's score lies in [0, 10]; a truthy score cell whose number lies in [0, 10] gives that number, and any non-zero score is that number |
| CsvParser.EntryKept | src/services/csvParser.ts:101-123 | a row yields an entry exactly when its feedback cell is non-blank after trimming; the entry holds that trimmed text and the row's score |
| CsvParser.EntryOptionalFields | src/services/csvParser.ts:125-140 | each optional column is set exactly when its cell is present and not `''`, and then holds the trimmed cell |
| CsvParser.SomesSpec | src/services/csvParser.ts:142 | keeping the present entries preserves their order, and the kept positions are exactly the present ones, increasing |
| CsvParser.NormalizeRowsSpec | src/services/csvParser.ts:98-143 | the row loop keeps exactly the rows that yield an entry, in input order, and the output is no longer than the input |
| CsvParser.NormalizedEntries | src/services/csvParser.ts:98-143 | the row loop yields some entry exactly when some row has non-blank feedback text. Every entry it yields has trimmed, non-empty feedback text and a score in [0, 10] |
| CsvParser.ParseCsv | src/services/csvParser.ts:14-170 | `parseCSV` equals the specification `ParseOf` |
| CsvParser.ParseOutcome | src/services/csvParser.ts:23-160 | a tokenizer error or an empty table fails with no data and no fields. Otherwise the fields are the headers, and the parse succeeds exactly when some row yields an entry. A success has non-empty data; each entry has trimmed, non-empty text and a score in [0, 10] |
| Storage.LoadSessions | src/services/storage.ts:23-32 | the history is non-empty only when a readable list is stored, and is then that list |
| Storage.ReportStore.AllAnalyses | src/services/storage.ts:23-32 | the history is the stored list when one is stored and readable, and `[]` when nothing is stored or it cannot be read |
| Storage.ReportStore.GetAnalysis | src/services/storage.ts:34-37 | the first session in the history with the id, or nothing exactly when no session has it |
| Storage.SessionOf | src/services/storage.ts:7-14 | the saved session takes its id, timestamp, row count and overall NPS from the report; its name is the given name when that is non-empty, and is never empty |
| Storage.IndexOfId | src/services/storage.ts:36 | the position of the first session with the id, or none exactly when no session has it |
| Storage.ReportStore.SaveAnalysis | src/services/storage.ts:6-21 | appends exactly the new session to the loaded list, writes it back, and returns the report's id |
| Storage.ReportStore.DeleteAnalysis | src/services/storage.ts:39-43 | writes back the loaded list without the sessions with the id |
| Storage.ReportStore.UpdateAnalysisName | src/services/storage.ts:45-52 | renames the first session with the id and writes back; writes nothing when there is none |
| Storage.FindByIdSpec | src/services/storage.ts:34-37 | `getAnalysis` yields the first session with the id, or nothing exactly when none has it |
| Storage.FindAfterSave | src/services/storage.ts:16-37 | after a save, the new id finds the new session unless an older session already had it; other ids find what they found before |
| Storage.WithoutIdSpec | src/services/storage.ts:41 | deleting keeps no session with the id and every other session as often as before |
| Storage.WithoutIdAppend | src/services/storage.ts:41 | deletion works piece by piece, so kept sessions stay in their original order |
| Storage.WithoutAbsentId | src/services/storage.ts:39-43 | deleting an id no session has changes nothing |
| Storage.WithoutIdIdempotent | src/services/storage.ts:39-43 | deleting twice is deleting once |
| Storage.DeleteAfterSave | src/services/storage.ts:16-42 | deleting the id just saved leaves what deleting it before the save would |
| Storage.RenameFirstSpec | src/services/storage.ts:45-52 | only the name of the first session with the id changes; all other sessions and fields stay; with no such session nothing changes |
| Storage.FindAfterRename | src/services/storage.ts:45-52 | after a rename, the id finds the renamed session |
| CsvExport.RowLinesAsWritten | src/services/storage.ts:73-83 | the export has one line per report row |
| CsvExport.ReadQuotedDoubled | src/services/storage.ts:74 | text with every `"` doubled and a closing quote reads back as the original text |
| CsvExport.ReadFieldQuoted | src/services/storage.ts:74 | a quoted feedback cell reads back as the feedback text, whatever commas, quotes or line breaks it holds |
| CsvExport.ReadRecordJoined | src/services/storage.ts:83 | cells joined by `,` read back as the values they encode, up to the line break |
| CsvExport.ReadHeaderLine | src/services/storage.ts:72 | the header line reads back as the seven column titles |
| CsvExport.ReadRowLine | src/services/storage.ts:73-81 | a row with every text column quoted reads back as its seven values |
| CsvExport.ReadRowLines | src/services/storage.ts:83 | the rows joined by line breaks read back as one record per report row, in order |
| CsvExport.CsvTextReadsBack | src/services/storage.ts:71-83 | the export with every text column quoted reads back as the header record followed by each row's seven values, in order |
| CsvExport.ReadRowLineAsWritten | src/services/storage.ts:73-81 | a row as written, whose score and optional cells hold no comma, quote or line break and do not start with a quote, reads back as its seven values, whatever its feedback text holds |
| CsvExport.ReadRowLinesAsWritten | src/services/storage.ts:83 | such rows as written, joined by line breaks, read back as one record per report row, in order |
| CsvExport.AsWrittenReadsBack | src/services/storage.ts:71-83 | the export as written (`CsvExport.CsvTextAsWritten`) reads back as the header record followed by each row's seven values, in order, whenever every cell written raw holds no comma, quote or line break and does not start with a quote |
| CsvExport.AsWrittenSplitsLocation | src/services/storage.ts:73-83 | the export as written reads a location holding a comma back as two fields: the row has eight fields instead of seven, and the later columns shift |
| CsvExport.AustinSplits | src/services/storage.ts:77 | a row from `Austin, TX` reads back with `Austin` and ` TX` as separate columns |

## Left out

- **The request to the language model.** This covers the prompt text, `fetch`, HTTP status handling and `JSON.parse` (`claudeAnalyzer.ts:65-136`). Each batch's outcome is a parameter. Only the reading of a reply (`:129-146`) is modelled.
- **Environment and logging.**
  - The key is a parameter instead of the environment lookup (`claudeAnalyzer.ts:3-4`).
  - The API address and the `console.log` calls are left out.
- **`feedbackSentiments`.** The accumulator (`claudeAnalyzer.ts:47`) collects each answer's `feedbackSentiments` at `:55` and is never read afterwards, so the collected list is not modelled. Spreading an answer's list at `:55` does read it; see the next line.
- Analyzer.ReadReply: takes every accepted reply to be a well-formed `ClaudeResponse` with integer counts. `callClaude` only casts the parsed JSON (`claudeAnalyzer.ts:142`). A reply missing a field, such as `{}`, makes the run throw a `TypeError` without the `Claude API error: ` prefix (at `:55`, or in `aggregateResults` at `:162` or `:188`), and a count sent as text is concatenated at `:165`. Neither is modelled.
- **The clock.** `Date.now()` (`claudeAnalyzer.ts:202-203`) is two parameters, the id text and the timestamp.
- **Dates in the trend sort.** `new Date(d).getTime()` (`claudeAnalyzer.ts:307`) is a parameter mapping each date string to an integer. An invalid date, which gives NaN and an inconsistent comparator, is not modelled.
- **Rounding and floats.**
  - `Rounding.RoundRatio` rounds the exact quotient. JavaScript rounds the float quotient times 100, which can differ at exact halves (for example 29 / 200 * 100).
  - Scores are exact reals, so float summation is not modelled.
- **Aliasing in the theme merge.** The shallow copy `{ ...theme }` (`claudeAnalyzer.ts:173`) shares the sentiment object with the first batch's answer. The model merges themes by value, and the report is the same.
- **The tokenizer and `Number()`.**
  - `Papa.parse` (`csvParser.ts:16-21`) is a parameter that returns the rows as string maps, or throws.
  - `Number()` on a trimmed non-empty string is a parameter. Only its `undefined`-is-NaN and blank-is-0 rules are modelled.
- **Object key order.** A row's header order is taken as the tokenizer gives it. JavaScript's reordering of integer-like keys in `Object.keys` is not modelled.
- **`CsvParser.ParseOf`: the catch branch.** At `csvParser.ts:166` it refers to `REQUIRED_FIELDS`, which is not defined anywhere. The model treats that branch as a plain failure with empty `requiredFields`, as if the name were bound to an empty list.
- **Unused `foundFields`.** The list at `csvParser.ts:47` is computed and never used. Every result reports either no fields or all headers.
- **Google Sheets fetch.** `fetchGoogleSheetAsCSV` (`csvParser.ts:172-197`) is URL parsing and network I/O, and is not part of this model.
- Demographics.CountOne: for a value naming an inherited member, the increment at `claudeAnalyzer.ts:255` lands on that member, outside the table, and is not modelled. For `__proto__` it sets `Object.prototype.count` to NaN; the records keep their own `count`, so the tables are unaffected. `Demographics.InheritedNames` is the ECMAScript set of `Object.prototype` names; members added by other scripts are not modelled.
- **Lower-casing.** `Text.ToLower` lower-cases the ASCII letters only. JavaScript's full Unicode case mapping is not modelled.
- **Browser storage.**
  - `localStorage` and the JSON text in it are a `Blob` value: nothing, unreadable text, or a list of sessions. JSON encoding fidelity is not modelled.
  - `toLocaleDateString` for the default name (`storage.ts:9`) is a parameter.
- **JSON export and downloads.** `exportAsJSON` and `downloadJSON` (`storage.ts:54-69`) and the Blob/DOM download steps of `downloadCSV` (`storage.ts:84-92`) are browser I/O and not modelled.
- **Number-to-text conversion of the score in the export.** This is a parameter. The read-back lemmas require the score's text to hold no comma, quote or line break, which JavaScript number text satisfies.
- **`CsvExport.CsvTextReadsBack`.** It is stated for the corrected export, which quotes every text column (see Findings). The export as written also reads back as its values whenever the score and optional columns hold no comma, quote or line break and do not start with a quote (`CsvExport.AsWrittenReadsBack`); a location holding a comma breaks it (`CsvExport.AsWrittenSplitsLocation`).

## Findings

| source | as written | input that shows it | evidently intended | confidence | as-written member | corrected member |
|---|---|---|---|---|---|---|
| src/services/storage.ts:76-80 | `downloadCSV` quotes only the feedback text. The age, location, device type, user segment and date cells are joined raw. | a row whose location is `Austin, TX`: its line reads back with eight fields, `Austin` and ` TX` in separate columns, and the device type, segment and date each shift one column to the right | every text cell quoted and escaped like the feedback text, so that each row reads back as its seven values | medium; not executed | CsvExport.AsWrittenSplitsLocation | CsvExport.CsvTextReadsBack |
