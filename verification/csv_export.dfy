/**
 * `downloadCSV`: the feedback rows of a report flattened into CSV text,
 * and a reader for CSV text (fields separated by `,`, records by a line
 * break, a field either plain or wrapped in `"` with every inner `"`
 * doubled, as in RFC 4180) against which the export is checked.
 */
module CsvExport {
  import opened FeedbackTypes

  const CsvHeaders: seq<string> := ["Feedback Text", "NPS Score", "Age", "Location", "Device Type", "User Segment", "Date"]

  /** JavaScript's number-to-string conversion, which `join` applies to the score. */
  type NumberText = real -> string

  /** `s.replace(/"/g, '""')`. */
  function DoubleQuotes(s: string): (r: string)
    ensures |r| >= |s|
  {
    if s == [] then []
    else (if s[0] == '"' then "\"\"" else [s[0]]) + DoubleQuotes(s[1..])
  }

  /** `"${s.replace(/"/g, '""')}"`. */
  function QuoteField(s: string): (r: string)
    ensures |r| >= 2
  {
    "\"" + DoubleQuotes(s) + "\""
  }

  /** `v || ''` for an optional text column. */
  function OrEmpty(v: Option<string>): string {
    if v.Some? then v.value else ""
  }

  /** `parts.join(sep)`. */
  function JoinWith(parts: seq<string>, sep: string): (r: string)
    ensures parts != [] ==> |r| >= |parts[0]|
  {
    if parts == [] then ""
    else if |parts| == 1 then parts[0]
    else parts[0] + sep + JoinWith(parts[1..], sep)
  }

  /** The values a row of the export stands for, one per column. */
  function RowValues(e: FeedbackEntry, numberText: NumberText): seq<string> {
    [e.feedbackText, numberText(e.npsScore), OrEmpty(e.age), OrEmpty(e.location),
     OrEmpty(e.deviceType), OrEmpty(e.userSegment), OrEmpty(e.date)]
  }

  /** The cells of one row as `downloadCSV` writes them: only the feedback text is quoted. */
  function RowCellsAsWritten(e: FeedbackEntry, numberText: NumberText): seq<string> {
    [QuoteField(e.feedbackText), numberText(e.npsScore), OrEmpty(e.age), OrEmpty(e.location),
     OrEmpty(e.deviceType), OrEmpty(e.userSegment), OrEmpty(e.date)]
  }

  /** The cells of one row with every text column quoted, the score left plain. */
  function RowCells(e: FeedbackEntry, numberText: NumberText): seq<string> {
    [QuoteField(e.feedbackText), numberText(e.npsScore), QuoteField(OrEmpty(e.age)), QuoteField(OrEmpty(e.location)),
     QuoteField(OrEmpty(e.deviceType)), QuoteField(OrEmpty(e.userSegment)), QuoteField(OrEmpty(e.date))]
  }

  /** `rows.map(row => row.join(','))` over the cells as written. */
  function RowLinesAsWritten(rows: seq<FeedbackEntry>, numberText: NumberText): (r: seq<string>)
    ensures |r| == |rows|
  {
    if rows == [] then []
    else [JoinWith(RowCellsAsWritten(rows[0], numberText), ",")] + RowLinesAsWritten(rows[1..], numberText)
  }

  /** One line per entry, every text column quoted. */
  function RowLines(rows: seq<FeedbackEntry>, numberText: NumberText): (r: seq<string>)
    ensures |r| == |rows|
  {
    if rows == [] then []
    else [JoinWith(RowCells(rows[0], numberText), ",")] + RowLines(rows[1..], numberText)
  }

  function HeaderLine(): string {
    JoinWith(CsvHeaders, ",")
  }

  /** The CSV text `downloadCSV` builds from a report's rows, as written. */
  function CsvTextAsWritten(rawData: seq<FeedbackEntry>, numberText: NumberText): string {
    JoinWith([HeaderLine()] + RowLinesAsWritten(rawData, numberText), "\n")
  }

  /** The CSV export with every text column quoted. */
  function CsvText(rawData: seq<FeedbackEntry>, numberText: NumberText): string {
    JoinWith([HeaderLine()] + RowLines(rawData, numberText), "\n")
  }

  // ---------------------------------------------------------------------------
  // Reading CSV text back
  // ---------------------------------------------------------------------------

  /** A field that can be written without quotes: no `,`, `"` or line break. */
  predicate Plain(s: string) {
    forall i :: 0 <= i < |s| ==> s[i] != ',' && s[i] != '"' && s[i] != '\n'
  }

  /** A field that reads back unchanged without quotes: plain, and not starting with `"`. */
  predicate PlainText(s: string) {
    Plain(s) && (s == [] || s[0] != '"')
  }

  /** Number of leading characters before the first `,` or line break. */
  function PlainLength(s: string): (n: nat)
    ensures n <= |s|
    ensures forall i :: 0 <= i < n ==> s[i] != ',' && s[i] != '\n'
    ensures n < |s| ==> s[n] == ',' || s[n] == '\n'
  {
    if s == [] || s[0] == ',' || s[0] == '\n' then 0 else 1 + PlainLength(s[1..])
  }

  /** The rest of a quoted field after its opening quote: its value, and the text after the closing quote. */
  function ReadQuoted(s: string): (r: Option<(string, string)>)
    ensures r.Some? ==> |r.value.1| < |s|
  {
    if s == [] then None
    else if s[0] == '"' then
      if |s| > 1 && s[1] == '"' then
        match ReadQuoted(s[2..])
        case Some((f, rest)) => Some(("\"" + f, rest))
        case None => None
      else Some(([], s[1..]))
    else
      match ReadQuoted(s[1..])
      case Some((f, rest)) => Some(([s[0]] + f, rest))
      case None => None
  }

  /** One field: quoted when it starts with `"`, otherwise up to the next `,` or line break. */
  function ReadField(s: string): (r: Option<(string, string)>)
    ensures r.Some? ==> |r.value.1| <= |s|
  {
    if s != [] && s[0] == '"' then ReadQuoted(s[1..])
    else
      var n := PlainLength(s);
      Some((s[..n], s[n..]))
  }

  /** One record: its fields, and the text after its line break (empty at the end of the text). */
  function ReadRecord(s: string): (r: Option<(seq<string>, string)>)
    ensures r.Some? ==> |r.value.1| <= |s| && (s != [] ==> |r.value.1| < |s|)
    decreases |s|
  {
    match ReadField(s)
    case None => None
    case Some((f, rest)) =>
      if rest == [] then Some(([f], []))
      else if rest[0] == '\n' then Some(([f], rest[1..]))
      else if rest[0] == ',' then
        match ReadRecord(rest[1..])
        case Some((fs, after)) => Some(([f] + fs, after))
        case None => None
      else None
  }

  /** All records of a CSV text. */
  function ReadRecords(s: string): Option<seq<seq<string>>>
    decreases |s|
  {
    if s == [] then Some([])
    else
      match ReadRecord(s)
      case None => None
      case Some((fields, after)) =>
        match ReadRecords(after)
        case Some(more) => Some([fields] + more)
        case None => None
  }

  // ---------------------------------------------------------------------------
  // Reading back what was written
  // ---------------------------------------------------------------------------

  lemma {:induction false} ReadQuotedDoubled(s: string, rest: string)
    requires rest == [] || rest[0] != '"'
    ensures ReadQuoted(DoubleQuotes(s) + "\"" + rest) == Some((s, rest))
  {
    var t := DoubleQuotes(s) + "\"" + rest;
    if s == [] {
      assert t == "\"" + rest;
      assert t[1..] == rest;
    } else {
      var x := DoubleQuotes(s[1..]) + "\"" + rest;
      ReadQuotedDoubled(s[1..], rest);
      if s[0] == '"' {
        assert t == "\"\"" + x;
        assert t[2..] == x;
        assert "\"" + s[1..] == s;
      } else {
        assert t == [s[0]] + x;
        assert t[1..] == x;
        assert [s[0]] + s[1..] == s;
      }
    }
  }

  /** A quoted field reads back as the original text, whatever it contains. */
  lemma ReadFieldQuoted(s: string, rest: string)
    requires rest == [] || rest[0] != '"'
    ensures ReadField(QuoteField(s) + rest) == Some((s, rest))
  {
    var t := QuoteField(s) + rest;
    assert t[1..] == DoubleQuotes(s) + "\"" + rest;
    ReadQuotedDoubled(s, rest);
  }

  lemma {:induction false} PlainLengthOf(p: string, rest: string)
    requires Plain(p)
    requires rest == [] || rest[0] == ',' || rest[0] == '\n'
    ensures PlainLength(p + rest) == |p|
  {
    if p != [] {
      assert (p + rest)[1..] == p[1..] + rest;
      PlainLengthOf(p[1..], rest);
    } else {
      assert p + rest == rest;
    }
  }

  /** A plain field reads back unchanged. */
  lemma ReadFieldPlain(p: string, rest: string)
    requires Plain(p)
    requires rest == [] || rest[0] == ',' || rest[0] == '\n'
    ensures ReadField(p + rest) == Some((p, rest))
  {
    PlainLengthOf(p, rest);
    assert (p + rest)[..|p|] == p;
    assert (p + rest)[|p|..] == rest;
  }

  /** How a cell holds its value: quoted, or as the value itself when that is plain. */
  predicate Encodes(cell: string, value: string) {
    cell == QuoteField(value) || (cell == value && PlainText(value))
  }

  lemma ReadFieldEncoded(cell: string, value: string, rest: string)
    requires Encodes(cell, value)
    requires rest == [] || rest[0] == ',' || rest[0] == '\n'
    ensures ReadField(cell + rest) == Some((value, rest))
  {
    if cell == QuoteField(value) {
      ReadFieldQuoted(value, rest);
    } else {
      ReadFieldPlain(value, rest);
    }
  }

  /** A line of encoded cells reads back as the values they encode. */
  lemma {:induction false} ReadRecordJoined(cells: seq<string>, values: seq<string>, tail: string, after: string)
    requires |cells| == |values| > 0
    requires forall i :: 0 <= i < |cells| ==> Encodes(cells[i], values[i])
    requires (tail == [] && after == []) || tail == "\n" + after
    ensures ReadRecord(JoinWith(cells, ",") + tail) == Some((values, after))
  {
    if |cells| == 1 {
      ReadFieldEncoded(cells[0], values[0], tail);
      assert [values[0]] == values;
      if tail != [] {
        assert tail[0] == '\n' && tail[1..] == after;
      }
    } else {
      var restLine := JoinWith(cells[1..], ",") + tail;
      assert JoinWith(cells, ",") + tail == cells[0] + ("," + restLine);
      ReadFieldEncoded(cells[0], values[0], "," + restLine);
      assert ("," + restLine)[1..] == restLine;
      ReadRecordJoined(cells[1..], values[1..], tail, after);
      assert [values[0]] + values[1..] == values;
    }
  }

  /** The header line reads back as the seven column titles. */
  lemma ReadHeaderLine(tail: string, after: string)
    requires (tail == [] && after == []) || tail == "\n" + after
    ensures ReadRecord(HeaderLine() + tail) == Some((CsvHeaders, after))
  {
    HeadersPlain();
    ReadRecordJoined(CsvHeaders, CsvHeaders, tail, after);
  }

  /** Every column title is written raw and reads back as itself. */
  lemma HeadersPlain()
    ensures forall i :: 0 <= i < |CsvHeaders| ==> Encodes(CsvHeaders[i], CsvHeaders[i])
  {
    forall i | 0 <= i < |CsvHeaders|
      ensures PlainText(CsvHeaders[i])
    {
      var h := CsvHeaders[i];
      assert forall j :: 0 <= j < |h| ==> h[j] != ',' && h[j] != '"' && h[j] != '\n';
    }
  }

  /** The values a row of the export stands for, one record per entry. */
  function AllValues(rows: seq<FeedbackEntry>, numberText: NumberText): (r: seq<seq<string>>)
    ensures |r| == |rows|
  {
    if rows == [] then [] else [RowValues(rows[0], numberText)] + AllValues(rows[1..], numberText)
  }

  /** The score prints without `,`, `"` or a line break, so it can stay unquoted. */
  predicate PlainScore(e: FeedbackEntry, numberText: NumberText) {
    PlainText(numberText(e.npsScore))
  }

  lemma ReadRowLine(e: FeedbackEntry, numberText: NumberText, tail: string, after: string)
    requires PlainScore(e, numberText)
    requires (tail == [] && after == []) || tail == "\n" + after
    ensures ReadRecord(JoinWith(RowCells(e, numberText), ",") + tail) == Some((RowValues(e, numberText), after))
  {
    var cells := RowCells(e, numberText);
    var values := RowValues(e, numberText);
    assert forall i :: 0 <= i < 7 ==> Encodes(cells[i], values[i]);
    ReadRecordJoined(cells, values, tail, after);
  }

  lemma JoinWithCons(parts: seq<string>, sep: string)
    requires |parts| > 1
    ensures JoinWith(parts, sep) == parts[0] + (sep + JoinWith(parts[1..], sep))
  {
    assert parts[0] + sep + JoinWith(parts[1..], sep) == parts[0] + (sep + JoinWith(parts[1..], sep));
  }

  lemma ReadRecordsStep(s: string, fields: seq<string>, after: string, more: seq<seq<string>>)
    requires s != [] && ReadRecord(s) == Some((fields, after)) && ReadRecords(after) == Some(more)
    ensures ReadRecords(s) == Some([fields] + more)
  {
  }

  /** Lines joined by line breaks read back record by record, when the first line reads back up to its line break. */
  lemma ReadLinesCons(lines: seq<string>, fields: seq<string>, more: seq<seq<string>>)
    requires |lines| > 1
    requires ReadRecord(lines[0] + ("\n" + JoinWith(lines[1..], "\n"))) == Some((fields, JoinWith(lines[1..], "\n")))
    requires ReadRecords(JoinWith(lines[1..], "\n")) == Some(more)
    ensures ReadRecords(JoinWith(lines, "\n")) == Some([fields] + more)
  {
    JoinWithCons(lines, "\n");
    ReadRecordsStep(lines[0] + ("\n" + JoinWith(lines[1..], "\n")), fields, JoinWith(lines[1..], "\n"), more);
  }

  /** A single line reads back as its one record. */
  lemma ReadLinesOne(lines: seq<string>, fields: seq<string>)
    requires |lines| == 1 && lines[0] != []
    requires ReadRecord(lines[0] + []) == Some((fields, []))
    ensures ReadRecords(JoinWith(lines, "\n")) == Some([fields])
  {
    assert lines[0] + [] == lines[0];
    ReadRecordsStep(lines[0], fields, [], []);
    assert [fields] + [] == [fields];
  }

  /** Two lines read back as two records, when the first reads back up to its line break and the second to the end. */
  lemma ReadTwoLines(first: string, second: string, fields: seq<string>, more: seq<string>)
    requires ReadRecord(first + ("\n" + second)) == Some((fields, second))
    requires second != [] && ReadRecord(second + []) == Some((more, []))
    ensures ReadRecords(JoinWith([first, second], "\n")) == Some([fields, more])
  {
    var lines := [first, second];
    assert lines[1..] == [second];
    ReadLinesOne(lines[1..], more);
    ReadLinesCons(lines, fields, [more]);
    assert [fields] + [more] == [fields, more];
  }

  lemma {:induction false} ReadRowLines(rows: seq<FeedbackEntry>, numberText: NumberText)
    requires forall k :: 0 <= k < |rows| ==> PlainScore(rows[k], numberText)
    ensures ReadRecords(JoinWith(RowLines(rows, numberText), "\n")) == Some(AllValues(rows, numberText))
  {
    if rows != [] {
      var lines := RowLines(rows, numberText);
      assert lines[0] == JoinWith(RowCells(rows[0], numberText), ",");
      if |rows| == 1 {
        ReadRowLine(rows[0], numberText, [], []);
        assert |lines[0]| >= 2;
        ReadLinesOne(lines, RowValues(rows[0], numberText));
        assert AllValues(rows, numberText) == [RowValues(rows[0], numberText)];
      } else {
        assert lines[1..] == RowLines(rows[1..], numberText);
        var rest := JoinWith(lines[1..], "\n");
        ReadRowLine(rows[0], numberText, "\n" + rest, rest);
        assert forall k :: 0 <= k < |rows[1..]| ==> rows[1..][k] == rows[k + 1];
        ReadRowLines(rows[1..], numberText);
        ReadLinesCons(lines, RowValues(rows[0], numberText), AllValues(rows[1..], numberText));
      }
    }
  }

  /**
   * The export reads back as the header record followed by one record per
   * entry, in order, holding the entry's text, score text and optional
   * columns (empty when absent), whatever commas, quotes or line breaks
   * those contain, provided the score prints as a plain number.
   */
  lemma CsvTextReadsBack(rawData: seq<FeedbackEntry>, numberText: NumberText)
    requires forall k :: 0 <= k < |rawData| ==> PlainScore(rawData[k], numberText)
    ensures ReadRecords(CsvText(rawData, numberText)) == Some([CsvHeaders] + AllValues(rawData, numberText))
  {
    var lines := [HeaderLine()] + RowLines(rawData, numberText);
    assert CsvText(rawData, numberText) == JoinWith(lines, "\n");
    if rawData == [] {
      ReadHeaderLine([], []);
      assert |HeaderLine()| >= |CsvHeaders[0]| > 0;
      ReadLinesOne(lines, CsvHeaders);
      assert [CsvHeaders] + AllValues(rawData, numberText) == [CsvHeaders];
    } else {
      assert lines[1..] == RowLines(rawData, numberText);
      var rest := JoinWith(lines[1..], "\n");
      ReadHeaderLine("\n" + rest, rest);
      ReadRowLines(rawData, numberText);
      ReadLinesCons(lines, CsvHeaders, AllValues(rawData, numberText));
    }
  }

  // ---------------------------------------------------------------------------
  // The export as written: an unquoted comma splits a column
  // ---------------------------------------------------------------------------

  lemma {:induction false} DoubleQuotesWithoutQuotes(s: string)
    requires '"' !in s
    ensures DoubleQuotes(s) == s
  {
    if s != [] {
      DoubleQuotesWithoutQuotes(s[1..]);
      assert [s[0]] + s[1..] == s;
    }
  }

  /** A cell that itself holds the separator joins like the two cells on either side of it. */
  lemma {:induction false} JoinWithSplit(cells: seq<string>, i: nat, a: string, b: string)
    requires i < |cells| && cells[i] == a + "," + b
    ensures JoinWith(cells, ",") == JoinWith(cells[..i] + [a, b] + cells[i + 1..], ",")
  {
    var split := cells[..i] + [a, b] + cells[i + 1..];
    if i == 0 {
      assert split == [a] + ([b] + cells[1..]);
      assert split[1..] == [b] + cells[1..];
      if |cells| == 1 {
        assert split[1..] == [b];
      } else {
        assert ([b] + cells[1..])[1..] == cells[1..];
      }
    } else {
      JoinWithSplit(cells[1..], i - 1, a, b);
      assert split[1..] == cells[1..][..i - 1] + [a, b] + cells[1..][i..];
      assert split[0] == cells[0];
    }
  }

  /** The values the as-written row of `e` reads back as when its location is `a` and `b` around a comma. */
  function SplitValues(e: FeedbackEntry, numberText: NumberText, a: string, b: string): seq<string> {
    [e.feedbackText, numberText(e.npsScore), OrEmpty(e.age), a, b,
     OrEmpty(e.deviceType), OrEmpty(e.userSegment), OrEmpty(e.date)]
  }

  /** The precondition shared by the lemmas about the as-written export: every unquoted column is plain text, the location `a,b`. */
  predicate SplitsAt(e: FeedbackEntry, numberText: NumberText, a: string, b: string) {
    && PlainScore(e, numberText)
    && e.location == Some(a + "," + b) && PlainText(a) && PlainText(b)
    && PlainText(OrEmpty(e.age)) && PlainText(OrEmpty(e.deviceType))
    && PlainText(OrEmpty(e.userSegment)) && PlainText(OrEmpty(e.date))
  }

  /** The cells `downloadCSV` writes for `e`, with the location's comma read as a separator. */
  function SplitCells(e: FeedbackEntry, numberText: NumberText, a: string, b: string): seq<string> {
    [QuoteField(e.feedbackText), numberText(e.npsScore), OrEmpty(e.age), a, b,
     OrEmpty(e.deviceType), OrEmpty(e.userSegment), OrEmpty(e.date)]
  }

  lemma AsWrittenLineSplits(e: FeedbackEntry, numberText: NumberText, a: string, b: string)
    requires e.location == Some(a + "," + b)
    ensures JoinWith(RowCellsAsWritten(e, numberText), ",") == JoinWith(SplitCells(e, numberText, a, b), ",")
  {
    var written := RowCellsAsWritten(e, numberText);
    JoinWithSplit(written, 3, a, b);
    assert written[..3] + [a, b] + written[4..] == SplitCells(e, numberText, a, b);
  }

  lemma SplitCellsEncode(e: FeedbackEntry, numberText: NumberText, a: string, b: string)
    requires SplitsAt(e, numberText, a, b)
    ensures forall i :: 0 <= i < 8 ==> Encodes(SplitCells(e, numberText, a, b)[i], SplitValues(e, numberText, a, b)[i])
  {
    var cells := SplitCells(e, numberText, a, b);
    var values := SplitValues(e, numberText, a, b);
    assert Encodes(cells[0], values[0]);
    assert Encodes(cells[1], values[1]);
    assert Encodes(cells[2], values[2]);
    assert Encodes(cells[3], values[3]);
    assert Encodes(cells[4], values[4]);
    assert Encodes(cells[5], values[5]);
    assert Encodes(cells[6], values[6]);
    assert Encodes(cells[7], values[7]);
  }

  lemma AsWrittenRowReads(e: FeedbackEntry, numberText: NumberText, a: string, b: string, tail: string, after: string)
    requires SplitsAt(e, numberText, a, b)
    requires (tail == [] && after == []) || tail == "\n" + after
    ensures ReadRecord(JoinWith(SplitCells(e, numberText, a, b), ",") + tail) == Some((SplitValues(e, numberText, a, b), after))
  {
    SplitCellsEncode(e, numberText, a, b);
    ReadRecordJoined(SplitCells(e, numberText, a, b), SplitValues(e, numberText, a, b), tail, after);
  }

  /** The as-written export of one entry: the header line, a line break, and the entry's line. */
  lemma AsWrittenOneLine(e: FeedbackEntry, numberText: NumberText)
    ensures CsvTextAsWritten([e], numberText) == JoinWith([HeaderLine(), JoinWith(RowCellsAsWritten(e, numberText), ",")], "\n")
  {
    assert RowLinesAsWritten([e], numberText) == [JoinWith(RowCellsAsWritten(e, numberText), ",")];
  }

  /**
   * As written, a location holding a comma, such as `Austin, TX`, is not
   * quoted, so the row reads back with eight fields instead of seven: the
   * location splits in two and every column after it shifts by one.
   */
  lemma AsWrittenSplitsLocation(e: FeedbackEntry, numberText: NumberText, a: string, b: string)
    requires SplitsAt(e, numberText, a, b)
    ensures ReadRecords(CsvTextAsWritten([e], numberText)) == Some([CsvHeaders, SplitValues(e, numberText, a, b)])
    ensures |SplitValues(e, numberText, a, b)| == |CsvHeaders| + 1
  {
    var line := JoinWith(SplitCells(e, numberText, a, b), ",");
    AsWrittenOneLine(e, numberText);
    AsWrittenLineSplits(e, numberText, a, b);
    AsWrittenRowReads(e, numberText, a, b, [], []);
    ReadHeaderLine("\n" + line, line);
    ReadTwoLines(HeaderLine(), line, CsvHeaders, SplitValues(e, numberText, a, b));
  }

  /** Every cell the export writes raw is plain text that does not start with `"`. */
  predicate PlainRow(e: FeedbackEntry, numberText: NumberText) {
    && PlainScore(e, numberText)
    && PlainText(OrEmpty(e.age)) && PlainText(OrEmpty(e.location))
    && PlainText(OrEmpty(e.deviceType)) && PlainText(OrEmpty(e.userSegment)) && PlainText(OrEmpty(e.date))
  }

  lemma AsWrittenCellsEncode(e: FeedbackEntry, numberText: NumberText)
    requires PlainRow(e, numberText)
    ensures forall i :: 0 <= i < 7 ==> Encodes(RowCellsAsWritten(e, numberText)[i], RowValues(e, numberText)[i])
  {
    var cells := RowCellsAsWritten(e, numberText);
    var values := RowValues(e, numberText);
    assert Encodes(cells[0], values[0]);
    assert Encodes(cells[1], values[1]);
    assert Encodes(cells[2], values[2]);
    assert Encodes(cells[3], values[3]);
    assert Encodes(cells[4], values[4]);
    assert Encodes(cells[5], values[5]);
    assert Encodes(cells[6], values[6]);
  }

  /** An as-written row whose raw cells are plain reads back as its seven values. */
  lemma ReadRowLineAsWritten(e: FeedbackEntry, numberText: NumberText, tail: string, after: string)
    requires PlainRow(e, numberText)
    requires (tail == [] && after == []) || tail == "\n" + after
    ensures ReadRecord(JoinWith(RowCellsAsWritten(e, numberText), ",") + tail) == Some((RowValues(e, numberText), after))
  {
    AsWrittenCellsEncode(e, numberText);
    ReadRecordJoined(RowCellsAsWritten(e, numberText), RowValues(e, numberText), tail, after);
  }

  lemma {:induction false} ReadRowLinesAsWritten(rows: seq<FeedbackEntry>, numberText: NumberText)
    requires forall k :: 0 <= k < |rows| ==> PlainRow(rows[k], numberText)
    ensures ReadRecords(JoinWith(RowLinesAsWritten(rows, numberText), "\n")) == Some(AllValues(rows, numberText))
  {
    if rows != [] {
      var lines := RowLinesAsWritten(rows, numberText);
      assert lines[0] == JoinWith(RowCellsAsWritten(rows[0], numberText), ",");
      if |rows| == 1 {
        ReadRowLineAsWritten(rows[0], numberText, [], []);
        assert |lines[0]| >= |QuoteField(rows[0].feedbackText)| >= 2;
        ReadLinesOne(lines, RowValues(rows[0], numberText));
        assert AllValues(rows, numberText) == [RowValues(rows[0], numberText)];
      } else {
        assert lines[1..] == RowLinesAsWritten(rows[1..], numberText);
        var rest := JoinWith(lines[1..], "\n");
        ReadRowLineAsWritten(rows[0], numberText, "\n" + rest, rest);
        assert forall k :: 0 <= k < |rows[1..]| ==> rows[1..][k] == rows[k + 1];
        ReadRowLinesAsWritten(rows[1..], numberText);
        ReadLinesCons(lines, RowValues(rows[0], numberText), AllValues(rows[1..], numberText));
      }
    }
  }

  /**
   * The export as written reads back as the header record followed by one
   * record per entry, in order, holding the entry's text (whatever it
   * contains), score text and optional columns, provided every cell written
   * raw is plain text that does not start with `"`.
   */
  lemma AsWrittenReadsBack(rawData: seq<FeedbackEntry>, numberText: NumberText)
    requires forall k :: 0 <= k < |rawData| ==> PlainRow(rawData[k], numberText)
    ensures ReadRecords(CsvTextAsWritten(rawData, numberText)) == Some([CsvHeaders] + AllValues(rawData, numberText))
  {
    var lines := [HeaderLine()] + RowLinesAsWritten(rawData, numberText);
    assert CsvTextAsWritten(rawData, numberText) == JoinWith(lines, "\n");
    if rawData == [] {
      ReadHeaderLine([], []);
      assert |HeaderLine()| >= |CsvHeaders[0]| > 0;
      ReadLinesOne(lines, CsvHeaders);
      assert [CsvHeaders] + AllValues(rawData, numberText) == [CsvHeaders];
    } else {
      assert lines[1..] == RowLinesAsWritten(rawData, numberText);
      var rest := JoinWith(lines[1..], "\n");
      ReadHeaderLine("\n" + rest, rest);
      ReadRowLinesAsWritten(rawData, numberText);
      ReadLinesCons(lines, CsvHeaders, AllValues(rawData, numberText));
    }
  }

  /** The concrete case: a comment from `Austin, TX` reads back with `Austin` and ` TX` as two columns. */
  lemma AustinSplits(numberText: NumberText)
    requires PlainText(numberText(9.0))
    ensures ReadRecords(CsvTextAsWritten([FeedbackEntry("Great", 9.0, None, Some("Austin, TX"), None, None, None)], numberText))
      == Some([CsvHeaders, ["Great", numberText(9.0), "", "Austin", " TX", "", "", ""]])
  {
    var e := FeedbackEntry("Great", 9.0, None, Some("Austin, TX"), None, None, None);
    assert "Austin, TX" == "Austin" + "," + " TX";
    assert PlainText("Austin") && PlainText(" TX");
    AsWrittenSplitsLocation(e, numberText, "Austin", " TX");
  }
}
