/**
 * `parseCSV`: turning the rows of an uploaded CSV file into feedback
 * entries. Header names are normalised, a feedback column and a score
 * column are guessed from the first rows, and every row with a non-blank
 * feedback cell becomes one entry.
 *
 * The CSV tokenizer (Papa Parse) and JavaScript's `Number()` are foreign:
 * the first is a parameter that returns the rows as string maps, the second
 * a parameter that reads a trimmed, non-empty numeral.
 */
module CsvParser {
  import opened FeedbackTypes
  import opened Text

  // ---------------------------------------------------------------------------
  // Header normalisation
  // ---------------------------------------------------------------------------

  /** `s.replace(/\s+/g, '_')`: every maximal run of white space becomes one `_`. */
  function ReplaceWhitespaceRuns(s: string): (r: string)
    ensures NoWhitespace(r)
    ensures |r| <= |s|
    ensures forall c :: c in r ==> c == '_' || c in s
    decreases |s|
  {
    if s == [] then []
    else if IsWhitespace(s[0]) then
      var rest := TrimStart(s);
      TrimStartSpec(s);
      assert |rest| < |s|;
      assert forall c :: c in rest ==> c in s;
      "_" + ReplaceWhitespaceRuns(rest)
    else
      assert forall c :: c in s[1..] ==> c in s;
      [s[0]] + ReplaceWhitespaceRuns(s[1..])
  }

  /** The header transform handed to the tokenizer: trim, lower-case, `_` for each white-space run. */
  function NormalizeHeader(h: string): string {
    ReplaceWhitespaceRuns(ToLower(Trim(h)))
  }

  lemma {:induction false} ReplaceKeepsPlainText(s: string)
    requires NoWhitespace(s)
    ensures ReplaceWhitespaceRuns(s) == s
  {
    if s != [] {
      ReplaceKeepsPlainText(s[1..]);
    }
  }

  lemma {:induction false} TrimStartRun(w: string, b: string)
    requires AllWhitespace(w)
    requires b == [] || !IsWhitespace(b[0])
    ensures TrimStart(w + b) == b
  {
    if w != [] {
      assert (w + b)[1..] == w[1..] + b;
      TrimStartRun(w[1..], b);
    } else {
      assert w + b == b;
    }
  }

  /**
   * What the replacement does: text without white space is kept as it is,
   * and a maximal run of white space after it becomes one `_`, with the
   * rest replaced in turn.
   */
  lemma {:induction false} ReplaceWhitespaceRunsSplit(a: string, w: string, b: string)
    requires NoWhitespace(a)
    requires w != [] && AllWhitespace(w)
    requires b == [] || !IsWhitespace(b[0])
    ensures ReplaceWhitespaceRuns(a + w + b) == a + "_" + ReplaceWhitespaceRuns(b)
  {
    if a == [] {
      assert a + w + b == w + b;
      TrimStartRun(w, b);
    } else {
      assert (a + w + b)[0] == a[0];
      assert (a + w + b)[1..] == a[1..] + w + b;
      ReplaceWhitespaceRunsSplit(a[1..], w, b);
    }
  }

  lemma {:induction false} ToLowerKeepsLowerCase(s: string)
    requires forall i :: 0 <= i < |s| ==> !IsUpper(s[i])
    ensures ToLower(s) == s
  {
    if s != [] {
      ToLowerKeepsLowerCase(s[1..]);
    }
  }

  /**
   * A normalised header holds no white space and no upper-case letter, is no
   * longer than the raw header, and normalising it again changes nothing.
   */
  lemma NormalizeHeaderSpec(h: string)
    ensures var n := NormalizeHeader(h);
      && NoWhitespace(n)
      && (forall i :: 0 <= i < |n| ==> !IsUpper(n[i]))
      && |n| <= |h|
      && NormalizeHeader(n) == n
  {
    var t := Trim(h);
    var l := ToLower(t);
    var n := ReplaceWhitespaceRuns(l);
    forall i | 0 <= i < |n| ensures !IsUpper(n[i]) {
      assert n[i] in n;
      if n[i] != '_' {
        var j :| 0 <= j < |l| && l[j] == n[i];
      }
    }
    TrimKeepsTrimmed(n);
    ToLowerKeepsLowerCase(n);
    ReplaceKeepsPlainText(n);
  }

  // ---------------------------------------------------------------------------
  // What the tokenizer returns, and numbers
  // ---------------------------------------------------------------------------

  /**
   * One parsed row: the header names in key order, and the cell text under
   * each header the row has a cell for (a missing key is `undefined`).
   */
  datatype Record = Record(keys: seq<string>, cells: map<string, string>)

  /** `Papa.parse` either returns its error list and rows, or throws (with an `Error` message or not). */
  datatype PapaOutcome = Parsed(errors: seq<string>, data: seq<Record>) | Thrown(error: Option<string>)

  /** The tokenizer, given the CSV text and the header transform. */
  type PapaParse = (string, string -> string) -> PapaOutcome

  /** `Number()` on a trimmed, non-empty string: `None` is `NaN`. */
  type NumeralParser = string -> Option<real>

  datatype ParseResult = ParseResult(
    success: bool,
    data: seq<FeedbackEntry>,
    error: Option<string>,
    requiredFields: seq<string>,
    foundFields: seq<string>)

  const NoDataMessage := "No data found in CSV"
  const NoValidDataMessage := "No valid data found. Make sure your CSV has at least some feedback entries."
  const ParseErrorPrefix := "CSV parsing error: "
  const ThrownPrefix := "Error parsing CSV: "

  /** How many leading rows the column scan looks at. */
  const ScanDepth: nat := 5

  /** `row[col]`. */
  function Cell(row: Record, col: string): Option<string> {
    if col in row.cells then Some(row.cells[col]) else None
  }

  /** `String(row[col] || '')`. */
  function CellText(row: Record, col: string): string {
    if col in row.cells then row.cells[col] else ""
  }

  /** `Number(v)`: `undefined` is `NaN`, blank text is 0, anything else is read after trimming. */
  function NumberOf(v: Option<string>, parse: NumeralParser): Option<real> {
    if v.None? then None
    else if Trim(v.value) == "" then Some(0.0)
    else parse(Trim(v.value))
  }

  predicate InScoreRange(n: Option<real>) {
    n.Some? && 0.0 <= n.value <= 10.0
  }

  // ---------------------------------------------------------------------------
  // Column detection
  // ---------------------------------------------------------------------------

  /** The column variables; `""` is falsy, like `undefined`. */
  datatype Columns = Columns(feedback: string, score: string) {
    function Get(role: Role): string {
      match role
      case FeedbackRole => feedback
      case ScoreRole => score
    }
  }

  datatype Role = FeedbackRole | ScoreRole

  /**
   * The test a cell passes in the scan: for feedback, trimmed text longer
   * than 20 UTF-16 units (what `length` counts); for the score, a number in [0, 10].
   */
  predicate Qualifies(role: Role, row: Record, col: string, parse: NumeralParser) {
    match role
    case FeedbackRole => Utf16Length(Trim(CellText(row, col))) > 20
    case ScoreRole => InScoreRange(NumberOf(Cell(row, col), parse))
  }

  /** The scan's visit of one cell: each still-unset column variable takes `col` if the cell passes. */
  function VisitCell(st: Columns, row: Record, col: string, parse: NumeralParser): Columns {
    Columns(
      if st.feedback == "" && Qualifies(FeedbackRole, row, col, parse) then col else st.feedback,
      if st.score == "" && Qualifies(ScoreRole, row, col, parse) then col else st.score)
  }

  /** The scan over the cells of `row` under `cols`, in order. */
  function VisitRow(st: Columns, row: Record, cols: seq<string>, parse: NumeralParser): Columns {
    if cols == [] then st
    else VisitCell(VisitRow(st, row, cols[..|cols| - 1], parse), row, cols[|cols| - 1], parse)
  }

  /** The scan over `rows`, row by row, without stopping early. */
  function VisitRows(st: Columns, rows: seq<Record>, headers: seq<string>, parse: NumeralParser): Columns {
    if rows == [] then st
    else VisitRow(VisitRows(st, rows[..|rows| - 1], headers, parse), rows[|rows| - 1], headers, parse)
  }

  function Min(a: nat, b: nat): nat {
    if a < b then a else b
  }

  function Unset(): Columns {
    Columns("", "")
  }

  /** The outcome of the scan over the first `min(5, data.length)` rows. */
  function Scanned(data: seq<Record>, headers: seq<string>, parse: NumeralParser): Columns {
    VisitRows(Unset(), data[..Min(ScanDepth, |data|)], headers, parse)
  }

  predicate IsNumeric(row: Record, col: string, parse: NumeralParser) {
    NumberOf(Cell(row, col), parse).Some?
  }

  /** Position of the first header at or after `from` whose cell in `row` is a number (any number). */
  function FirstNumericIndex(row: Record, cols: seq<string>, parse: NumeralParser, from: nat): (r: Option<nat>)
    requires from <= |cols|
    ensures r.Some? ==> (from <= r.value < |cols| && IsNumeric(row, cols[r.value], parse)
      && forall k :: from <= k < r.value ==> !IsNumeric(row, cols[k], parse))
    ensures r.None? ==> forall k :: from <= k < |cols| ==> !IsNumeric(row, cols[k], parse)
    decreases |cols| - from
  {
    if from == |cols| then None
    else if IsNumeric(row, cols[from], parse) then Some(from)
    else FirstNumericIndex(row, cols, parse, from + 1)
  }

  function ColumnAt(cols: seq<string>, k: Option<nat>): string {
    if k.Some? && k.value < |cols| then cols[k.value] else ""
  }

  /**
   * `headers.find(h => typeof row[h] === 'string' || row[h] == null)`. The
   * tokenizer runs without dynamic typing, so every cell is a string or
   * missing and the first header is found.
   */
  function FirstTextColumn(headers: seq<string>): string {
    if headers == [] then "" else headers[0]
  }

  /** The feedback and score columns chosen from the scan, then from the fallbacks on row 0. */
  function DetectedColumns(data: seq<Record>, headers: seq<string>, parse: NumeralParser): Columns
    requires data != []
  {
    var s := Scanned(data, headers, parse);
    Columns(
      if s.feedback != "" then s.feedback else FirstTextColumn(headers),
      if s.score != "" then s.score else ColumnAt(headers, FirstNumericIndex(data[0], headers, parse, 0)))
  }

  lemma VisitRowSnoc(st: Columns, row: Record, cols: seq<string>, j: nat, parse: NumeralParser)
    requires j < |cols|
    ensures VisitRow(st, row, cols[..j + 1], parse) == VisitCell(VisitRow(st, row, cols[..j], parse), row, cols[j], parse)
  {
    assert cols[..j + 1][..j] == cols[..j];
  }

  /** One row of the scan: every header's cell is visited in order. */
  method ScanRow(before: Columns, row: Record, headers: seq<string>, parse: NumeralParser)
    returns (feedbackCol: string, scoreCol: string)
    ensures Columns(feedbackCol, scoreCol) == VisitRow(before, row, headers, parse)
  {
    feedbackCol, scoreCol := before.feedback, before.score;
    for j := 0 to |headers|
      invariant Columns(feedbackCol, scoreCol) == VisitRow(before, row, headers[..j], parse)
    {
      var col := headers[j];
      VisitRowSnoc(before, row, headers, j, parse);
      var valueStr := Trim(CellText(row, col));
      if feedbackCol == "" && Utf16Length(valueStr) > 20 {
        feedbackCol := col;
      }
      if scoreCol == "" {
        var num := NumberOf(Cell(row, col), parse);
        if num.Some? && 0.0 <= num.value && num.value <= 10.0 {
          scoreCol := col;
        }
      }
    }
    assert headers[..|headers|] == headers;
  }

  /** The score fallback: the first header whose cell in `row` is any number, or "" when none is. */
  method FirstNumericColumn(row: Record, headers: seq<string>, parse: NumeralParser) returns (scoreCol: string)
    ensures scoreCol == ColumnAt(headers, FirstNumericIndex(row, headers, parse, 0))
  {
    scoreCol := "";
    var j := 0;
    while j < |headers|
      invariant 0 <= j <= |headers|
      invariant forall k :: 0 <= k < j ==> !IsNumeric(row, headers[k], parse)
    {
      var num := NumberOf(Cell(row, headers[j]), parse);
      if num.Some? {
        scoreCol := headers[j];
        return;
      }
      j := j + 1;
    }
  }

  /**
   * The scan loop of `parseCSV`: visit the first `min(5, data.length)` rows
   * cell by cell, stopping after a row once both columns are set.
   */
  method ScanRows(data: seq<Record>, headers: seq<string>, parse: NumeralParser)
    returns (feedbackCol: string, scoreCol: string)
    ensures Columns(feedbackCol, scoreCol) == Scanned(data, headers, parse)
  {
    feedbackCol, scoreCol := "", "";
    var limit := Min(ScanDepth, |data|);
    var i := 0;
    while i < limit
      invariant 0 <= i <= limit
      invariant Columns(feedbackCol, scoreCol) == VisitRows(Unset(), data[..i], headers, parse)
    {
      feedbackCol, scoreCol := ScanRow(Columns(feedbackCol, scoreCol), data[i], headers, parse);
      assert data[..i + 1][..i] == data[..i];
      if feedbackCol != "" && scoreCol != "" {
        assert data[..limit][..i + 1] == data[..i + 1];
        assert data[..limit][..limit] == data[..limit];
        ScanSettles(data[..limit], i + 1, limit, headers, parse);
        return;
      }
      i := i + 1;
    }
  }

  /**
   * Lines 52-96 of `parseCSV`: scan the first rows, then fall back where the
   * scan found nothing.
   */
  method DetectColumns(data: seq<Record>, headers: seq<string>, parse: NumeralParser)
    returns (feedbackCol: string, scoreCol: string)
    requires data != []
    ensures Columns(feedbackCol, scoreCol) == DetectedColumns(data, headers, parse)
  {
    feedbackCol, scoreCol := ScanRows(data, headers, parse);
    if scoreCol == "" {
      scoreCol := FirstNumericColumn(data[0], headers, parse);
    }
    if feedbackCol == "" {
      feedbackCol := FirstTextColumn(headers);
    }
  }

  lemma {:induction false} VisitRowSettled(st: Columns, row: Record, cols: seq<string>, parse: NumeralParser)
    requires st.feedback != "" && st.score != ""
    ensures VisitRow(st, row, cols, parse) == st
  {
    if cols != [] {
      VisitRowSettled(st, row, cols[..|cols| - 1], parse);
    }
  }

  /** Once both columns are set after `k` rows, later rows change nothing: the early `break` is harmless. */
  lemma {:induction false} ScanSettles(rows: seq<Record>, k: nat, m: nat, headers: seq<string>, parse: NumeralParser)
    requires k <= m <= |rows|
    requires VisitRows(Unset(), rows[..k], headers, parse).feedback != ""
    requires VisitRows(Unset(), rows[..k], headers, parse).score != ""
    ensures VisitRows(Unset(), rows[..m], headers, parse) == VisitRows(Unset(), rows[..k], headers, parse)
    decreases m
  {
    if m > k {
      ScanSettles(rows, k, m - 1, headers, parse);
      assert rows[..m][..m - 1] == rows[..m - 1];
      VisitRowSettled(VisitRows(Unset(), rows[..k], headers, parse), rows[m - 1], headers, parse);
    }
  }

  // ---------------------------------------------------------------------------
  // The scan described directly
  // ---------------------------------------------------------------------------

  /** A cell that sets the column variable for `role` when it is still unset. */
  predicate Passes(role: Role, row: Record, col: string, parse: NumeralParser) {
    col != "" && Qualifies(role, row, col, parse)
  }

  /** Position of the first header at or after `from` whose cell in `row` passes for `role`. */
  function FirstPassing(role: Role, row: Record, cols: seq<string>, parse: NumeralParser, from: nat): (r: Option<nat>)
    requires from <= |cols|
    ensures r.Some? ==> (from <= r.value < |cols| && Passes(role, row, cols[r.value], parse)
      && forall k :: from <= k < r.value ==> !Passes(role, row, cols[k], parse))
    ensures r.None? ==> forall k :: from <= k < |cols| ==> !Passes(role, row, cols[k], parse)
    decreases |cols| - from
  {
    if from == |cols| then None
    else if Passes(role, row, cols[from], parse) then Some(from)
    else FirstPassing(role, row, cols, parse, from + 1)
  }

  /** The column the scan settles on for `role`: the first row holding a passing cell decides, in header order. */
  function FirstAcross(role: Role, rows: seq<Record>, headers: seq<string>, parse: NumeralParser): string {
    if rows == [] then ""
    else
      var c := ColumnAt(headers, FirstPassing(role, rows[0], headers, parse, 0));
      if c != "" then c else FirstAcross(role, rows[1..], headers, parse)
  }

  /** Within one row, an unset column variable ends up at the first passing non-empty header, or stays unset. */
  lemma VisitCellGet(role: Role, st: Columns, row: Record, col: string, parse: NumeralParser)
    ensures VisitCell(st, row, col, parse).Get(role)
      == if st.Get(role) == "" && Qualifies(role, row, col, parse) then col else st.Get(role)
  {
  }

  /** The first passing position is the only one with no passing position before it. */
  lemma FirstPassingAt(role: Role, row: Record, cols: seq<string>, parse: NumeralParser, k: nat)
    requires k < |cols| && Passes(role, row, cols[k], parse)
    requires forall j :: 0 <= j < k ==> !Passes(role, row, cols[j], parse)
    ensures FirstPassing(role, row, cols, parse, 0) == Some(k)
  {
  }

  /** The first passing header of `p` with one more header `c` at the end. */
  lemma FirstPassingSnoc(role: Role, row: Record, p: seq<string>, c: string, parse: NumeralParser)
    ensures FirstPassing(role, row, p + [c], parse, 0)
      == if FirstPassing(role, row, p, parse, 0).Some? then FirstPassing(role, row, p, parse, 0)
         else if Passes(role, row, c, parse) then Some(|p|)
         else None
  {
    var cols := p + [c];
    var fp := FirstPassing(role, row, p, parse, 0);
    assert forall j :: 0 <= j < |p| ==> cols[j] == p[j];
    if fp.Some? {
      FirstPassingAt(role, row, cols, parse, fp.value);
    } else if Passes(role, row, c, parse) {
      FirstPassingAt(role, row, cols, parse, |p|);
    } else {
      assert forall j :: 0 <= j < |cols| ==> !Passes(role, row, cols[j], parse);
    }
  }

  /** Within one row, an unset column variable ends up at the first passing non-empty header, or stays unset. */
  lemma {:induction false} VisitRowPick(role: Role, st: Columns, row: Record, cols: seq<string>, parse: NumeralParser)
    ensures VisitRow(st, row, cols, parse).Get(role)
      == if st.Get(role) != "" then st.Get(role) else ColumnAt(cols, FirstPassing(role, row, cols, parse, 0))
  {
    if cols != [] {
      var p := cols[..|cols| - 1];
      var c := cols[|cols| - 1];
      VisitRowPick(role, st, row, p, parse);
      VisitCellGet(role, VisitRow(st, row, p, parse), row, c, parse);
      assert cols == p + [c];
      FirstPassingSnoc(role, row, p, c, parse);
      var fp := FirstPassing(role, row, p, parse, 0);
      if fp.Some? {
        assert p[fp.value] == cols[fp.value];
      }
    }
  }

  lemma {:induction false} FirstAcrossSnoc(role: Role, rows: seq<Record>, row: Record, headers: seq<string>, parse: NumeralParser)
    ensures FirstAcross(role, rows + [row], headers, parse)
      == if FirstAcross(role, rows, headers, parse) != "" then FirstAcross(role, rows, headers, parse)
         else ColumnAt(headers, FirstPassing(role, row, headers, parse, 0))
  {
    if rows != [] {
      assert (rows + [row])[1..] == rows[1..] + [row];
      FirstAcrossSnoc(role, rows[1..], row, headers, parse);
    } else {
      assert ([] + [row])[1..] == [];
    }
  }

  /**
   * The scan, for either column: the first row (in order) that holds a
   * passing cell under a non-empty header decides, and within it the first
   * such header; with no such row the column stays unset.
   */
  lemma {:induction false} ScanPicksFirst(role: Role, rows: seq<Record>, headers: seq<string>, parse: NumeralParser)
    ensures VisitRows(Unset(), rows, headers, parse).Get(role) == FirstAcross(role, rows, headers, parse)
  {
    if rows != [] {
      var p := rows[..|rows| - 1];
      var row := rows[|rows| - 1];
      ScanPicksFirst(role, p, headers, parse);
      VisitRowPick(role, VisitRows(Unset(), p, headers, parse), row, headers, parse);
      FirstAcrossSnoc(role, p, row, headers, parse);
      assert p + [row] == rows;
    }
  }

  /**
   * The detected columns: the feedback column is the first cell (row by row,
   * header by header, in the first five rows) with more than 20 characters
   * after trimming, else the first header; the score column is the first
   * such cell holding a number in [0, 10], else the first header whose row-0
   * cell is any number, else unset.
   */
  lemma DetectedColumnsSpec(data: seq<Record>, headers: seq<string>, parse: NumeralParser)
    requires data != []
    ensures var rows := data[..Min(ScanDepth, |data|)];
      var f := FirstAcross(FeedbackRole, rows, headers, parse);
      var s := FirstAcross(ScoreRole, rows, headers, parse);
      && DetectedColumns(data, headers, parse).feedback == (if f != "" then f else FirstTextColumn(headers))
      && DetectedColumns(data, headers, parse).score
        == (if s != "" then s else ColumnAt(headers, FirstNumericIndex(data[0], headers, parse, 0)))
  {
    var rows := data[..Min(ScanDepth, |data|)];
    ScanPicksFirst(FeedbackRole, rows, headers, parse);
    ScanPicksFirst(ScoreRole, rows, headers, parse);
  }

  // ---------------------------------------------------------------------------
  // Row normalisation
  // ---------------------------------------------------------------------------

  /** `row[key]` trimmed when it is neither missing nor `''`. */
  function OptionalCell(row: Record, key: string): Option<string> {
    if key in row.cells && row.cells[key] != "" then Some(Trim(row.cells[key])) else None
  }

  /** The score of a row: the score cell's number when it lies in [0, 10], otherwise 0. */
  function ScoreOf(row: Record, col: string, parse: NumeralParser): (r: real)
    ensures 0.0 <= r <= 10.0
    ensures r != 0.0 ==> col != "" && Truthy(Cell(row, col)) && NumberOf(Cell(row, col), parse) == Some(r)
    ensures col != "" && Truthy(Cell(row, col)) && InScoreRange(NumberOf(Cell(row, col), parse))
      ==> Some(r) == NumberOf(Cell(row, col), parse)
  {
    if col != "" && Truthy(Cell(row, col)) && InScoreRange(NumberOf(Cell(row, col), parse))
    then NumberOf(Cell(row, col), parse).value
    else 0.0
  }

  /** The entry one row yields, or `None` when its feedback text is blank. */
  function EntryOf(row: Record, cols: Columns, parse: NumeralParser): Option<FeedbackEntry> {
    var text := if cols.feedback != "" && Truthy(Cell(row, cols.feedback)) then Trim(row.cells[cols.feedback]) else "";
    if text == "" then None
    else Some(FeedbackEntry(text, ScoreOf(row, cols.score, parse),
      OptionalCell(row, "age"), OptionalCell(row, "location"), OptionalCell(row, "device_type"),
      OptionalCell(row, "user_segment"), OptionalCell(row, "date")))
  }

  /** The entry (or `None`) of every row of `rows`, in order. */
  function Entries(rows: seq<Record>, cols: Columns, parse: NumeralParser): (r: seq<Option<FeedbackEntry>>)
    ensures |r| == |rows|
  {
    if rows == [] then []
    else Entries(rows[..|rows| - 1], cols, parse) + [EntryOf(rows[|rows| - 1], cols, parse)]
  }

  /** The present values of `s`, in order. */
  function Somes<T>(s: seq<Option<T>>): (r: seq<T>)
    ensures |r| <= |s|
  {
    if s == [] then []
    else Somes(s[..|s| - 1]) + (if s[|s| - 1].Some? then [s[|s| - 1].value] else [])
  }

  /** Positions of the present values of `s`. */
  function SomeIndices<T>(s: seq<Option<T>>): seq<nat> {
    if s == [] then []
    else SomeIndices(s[..|s| - 1]) + (if s[|s| - 1].Some? then [|s| - 1] else [])
  }

  /** The entries of `rows`, in order, skipping the rows without feedback text. */
  function NormalizeRows(rows: seq<Record>, cols: Columns, parse: NumeralParser): seq<FeedbackEntry> {
    Somes(Entries(rows, cols, parse))
  }

  /** Positions of the rows that yield an entry. */
  function KeptIndices(rows: seq<Record>, cols: Columns, parse: NumeralParser): seq<nat> {
    SomeIndices(Entries(rows, cols, parse))
  }

  lemma {:induction false} EntriesAt(rows: seq<Record>, cols: Columns, parse: NumeralParser)
    ensures forall k :: 0 <= k < |rows| ==> Entries(rows, cols, parse)[k] == EntryOf(rows[k], cols, parse)
  {
    if rows != [] {
      var prefix := rows[..|rows| - 1];
      EntriesAt(prefix, cols, parse);
      assert forall k :: 0 <= k < |prefix| ==> rows[k] == prefix[k];
    }
  }

  lemma NormalizeRowsSnoc(rows: seq<Record>, i: nat, cols: Columns, parse: NumeralParser)
    requires i < |rows|
    ensures NormalizeRows(rows[..i + 1], cols, parse)
      == NormalizeRows(rows[..i], cols, parse)
        + (if EntryOf(rows[i], cols, parse).Some? then [EntryOf(rows[i], cols, parse).value] else [])
  {
    assert rows[..i + 1][..i] == rows[..i];
    var e := Entries(rows[..i + 1], cols, parse);
    assert e == Entries(rows[..i], cols, parse) + [EntryOf(rows[i], cols, parse)];
    assert e[..|e| - 1] == Entries(rows[..i], cols, parse);
  }

  /**
   * Keeping the present values: they come in their original order, and the
   * kept positions are exactly the present ones, increasing.
   */
  lemma {:induction false} SomesSpec<T>(s: seq<Option<T>>)
    ensures var out := Somes(s);
      var idx := SomeIndices(s);
      && |idx| == |out|
      && (forall p :: 0 <= p < |idx| ==> idx[p] < |s| && s[idx[p]] == Some(out[p]))
      && (forall p, q :: 0 <= p < q < |idx| ==> idx[p] < idx[q])
      && (forall k :: 0 <= k < |s| ==> (s[k].Some? <==> k in idx))
  {
    if s != [] {
      var prefix := s[..|s| - 1];
      SomesSpec(prefix);
      var idx := SomeIndices(s);
      var idxP := SomeIndices(prefix);
      assert forall p :: 0 <= p < |idxP| ==> idxP[p] < |prefix|;
      forall k | 0 <= k < |s| ensures s[k].Some? <==> k in idx {
        if k < |prefix| {
          assert s[k] == prefix[k];
        }
      }
    }
  }

  /**
   * A row yields an entry exactly when its feedback cell is non-blank after
   * trimming; the entry holds that trimmed text (non-empty, and unchanged by
   * trimming again) and the row's score.
   */
  lemma EntryKept(row: Record, cols: Columns, parse: NumeralParser)
    ensures var r := EntryOf(row, cols, parse);
      && (r.Some? <==> (cols.feedback != "" && Trim(CellText(row, cols.feedback)) != ""))
      && (r.Some? ==>
        && r.value.feedbackText == Trim(CellText(row, cols.feedback))
        && r.value.feedbackText != ""
        && Trim(r.value.feedbackText) == r.value.feedbackText
        && r.value.npsScore == ScoreOf(row, cols.score, parse))
  {
    TrimIdempotent(CellText(row, cols.feedback));
  }

  /**
   * Each optional column of an entry is set exactly when the row's cell is
   * neither missing nor empty, and then holds the trimmed cell.
   */
  lemma EntryOptionalFields(row: Record, cols: Columns, parse: NumeralParser)
    requires EntryOf(row, cols, parse).Some?
    ensures var e := EntryOf(row, cols, parse).value;
      && (e.age.Some? <==> Truthy(Cell(row, "age")))
      && (e.location.Some? <==> Truthy(Cell(row, "location")))
      && (e.deviceType.Some? <==> Truthy(Cell(row, "device_type")))
      && (e.userSegment.Some? <==> Truthy(Cell(row, "user_segment")))
      && (e.date.Some? <==> Truthy(Cell(row, "date")))
      && (e.age.Some? ==> e.age.value == Trim(CellText(row, "age")))
      && (e.location.Some? ==> e.location.value == Trim(CellText(row, "location")))
      && (e.deviceType.Some? ==> e.deviceType.value == Trim(CellText(row, "device_type")))
      && (e.userSegment.Some? ==> e.userSegment.value == Trim(CellText(row, "user_segment")))
      && (e.date.Some? ==> e.date.value == Trim(CellText(row, "date")))
  {
  }

  /**
   * The row loop keeps the rows that yield an entry, in their original
   * order, and drops exactly the others: the kept positions increase, and
   * each output entry is the entry of the row at its kept position.
   */
  lemma NormalizeRowsSpec(rows: seq<Record>, cols: Columns, parse: NumeralParser)
    ensures var out := NormalizeRows(rows, cols, parse);
      var idx := KeptIndices(rows, cols, parse);
      && |idx| == |out| <= |rows|
      && (forall p :: 0 <= p < |idx| ==> idx[p] < |rows| && EntryOf(rows[idx[p]], cols, parse) == Some(out[p]))
      && (forall p, q :: 0 <= p < q < |idx| ==> idx[p] < idx[q])
      && (forall k :: 0 <= k < |rows| ==> (EntryOf(rows[k], cols, parse).Some? <==> k in idx))
  {
    SomesSpec(Entries(rows, cols, parse));
    EntriesAt(rows, cols, parse);
  }

  /**
   * The row loop's output is non-empty exactly when some row yields an
   * entry, and every entry it holds has trimmed, non-empty feedback text and
   * a score in [0, 10].
   */
  lemma NormalizedEntries(rows: seq<Record>, cols: Columns, parse: NumeralParser)
    ensures var valid := NormalizeRows(rows, cols, parse);
      && (valid != [] <==> exists k :: 0 <= k < |rows| && EntryOf(rows[k], cols, parse).Some?)
      && (forall e :: e in valid ==>
        e.feedbackText != "" && Trim(e.feedbackText) == e.feedbackText && 0.0 <= e.npsScore <= 10.0)
  {
    var valid := NormalizeRows(rows, cols, parse);
    NormalizeRowsSpec(rows, cols, parse);
    var idx := KeptIndices(rows, cols, parse);
    if valid != [] {
      assert EntryOf(rows[idx[0]], cols, parse).Some?;
    }
    forall e | e in valid
      ensures e.feedbackText != "" && Trim(e.feedbackText) == e.feedbackText && 0.0 <= e.npsScore <= 10.0
    {
      var p :| 0 <= p < |valid| && valid[p] == e;
      EntryKept(rows[idx[p]], cols, parse);
    }
  }

  // ---------------------------------------------------------------------------
  // parseCSV
  // ---------------------------------------------------------------------------

  /** What `parseCSV` returns for `csvContent`. */
  function ParseOf(csvContent: string, papa: PapaParse, parse: NumeralParser): ParseResult {
    match papa(csvContent, NormalizeHeader)
    case Thrown(e) =>
      ParseResult(false, [], Some(ThrownPrefix + (if e.Some? then e.value else "Unknown error")), [], [])
    case Parsed(errors, data) =>
      if |errors| > 0 then ParseResult(false, [], Some(ParseErrorPrefix + errors[0]), [], [])
      else if data == [] then ParseResult(false, [], Some(NoDataMessage), [], [])
      else
        var headers := data[0].keys;
        var valid := NormalizeRows(data, DetectedColumns(data, headers, parse), parse);
        if valid == [] then ParseResult(false, [], Some(NoValidDataMessage), [], headers)
        else ParseResult(true, valid, None, [], headers)
  }

  /**
   * The body of the row loop of `parseCSV`: the entry `row` yields under the
   * detected columns, or `None` when its feedback text is blank.
   */
  method ValidateRow(row: Record, feedbackCol: string, scoreCol: string, parse: NumeralParser)
    returns (r: Option<FeedbackEntry>)
    ensures r == EntryOf(row, Columns(feedbackCol, scoreCol), parse)
  {
    var entry := FeedbackEntry("", 0.0, None, None, None, None, None);
    if feedbackCol != "" && feedbackCol in row.cells && row.cells[feedbackCol] != "" {
      entry := entry.(feedbackText := Trim(row.cells[feedbackCol]));
    }
    if scoreCol != "" && scoreCol in row.cells && row.cells[scoreCol] != "" {
      var score := NumberOf(Some(row.cells[scoreCol]), parse);
      if score.Some? && 0.0 <= score.value && score.value <= 10.0 {
        entry := entry.(npsScore := score.value);
      }
    }
    if entry.feedbackText == "" {
      return None;
    }
    var age := TrimmedCell(row, "age");
    var location := TrimmedCell(row, "location");
    var deviceType := TrimmedCell(row, "device_type");
    var userSegment := TrimmedCell(row, "user_segment");
    var date := TrimmedCell(row, "date");
    entry := entry.(age := age, location := location, deviceType := deviceType,
      userSegment := userSegment, date := date);
    return Some(entry);
  }

  /** One optional column of the row loop: `row[key].trim()` when `row[key]` is neither missing nor `''`. */
  method TrimmedCell(row: Record, key: string) returns (v: Option<string>)
    ensures v == OptionalCell(row, key)
  {
    v := None;
    if key in row.cells && row.cells[key] != "" {
      v := Some(Trim(row.cells[key]));
    }
  }

  /** The row loop of `parseCSV`: the entries of the rows that yield one, in order. */
  method ValidateRows(data: seq<Record>, feedbackCol: string, scoreCol: string, parse: NumeralParser)
    returns (validatedData: seq<FeedbackEntry>)
    ensures validatedData == NormalizeRows(data, Columns(feedbackCol, scoreCol), parse)
  {
    ghost var cols := Columns(feedbackCol, scoreCol);
    validatedData := [];
    for i := 0 to |data|
      invariant validatedData == NormalizeRows(data[..i], cols, parse)
    {
      NormalizeRowsSnoc(data, i, cols, parse);
      var entry := ValidateRow(data[i], feedbackCol, scoreCol, parse);
      if entry.Some? {
        validatedData := validatedData + [entry.value];
      }
    }
    assert data[..|data|] == data;
  }

  /** `parseCSV`. */
  method ParseCsv(csvContent: string, papa: PapaParse, parse: NumeralParser) returns (r: ParseResult)
    ensures r == ParseOf(csvContent, papa, parse)
  {
    var result := papa(csvContent, NormalizeHeader);
    if result.Thrown? {
      var message := if result.error.Some? then result.error.value else "Unknown error";
      return ParseResult(false, [], Some(ThrownPrefix + message), [], []);
    }
    if |result.errors| > 0 {
      return ParseResult(false, [], Some(ParseErrorPrefix + result.errors[0]), [], []);
    }
    var data := result.data;
    if |data| == 0 {
      return ParseResult(false, [], Some(NoDataMessage), [], []);
    }
    var headers := data[0].keys;
    var feedbackCol, scoreCol := DetectColumns(data, headers, parse);
    var validatedData := ValidateRows(data, feedbackCol, scoreCol, parse);

    if |validatedData| == 0 {
      return ParseResult(false, [], Some(NoValidDataMessage), [], headers);
    }
    return ParseResult(true, validatedData, None, [], headers);
  }

  /**
   * The outcome of `parseCSV`: a tokenizer error or an empty table fails
   * with no data and no fields; otherwise the fields are the first row's
   * headers, and the parse succeeds exactly when some row yields an entry.
   * A failure never carries data and always carries a message; a success
   * carries at least one entry, each with trimmed non-empty feedback text
   * and a score in [0, 10].
   */
  lemma ParseOutcome(csvContent: string, papa: PapaParse, parse: NumeralParser)
    ensures var out := papa(csvContent, NormalizeHeader);
      var r := ParseOf(csvContent, papa, parse);
      && (!r.success ==> r.data == [] && r.error.Some?)
      && (r.success ==> r.data != [] && r.error.None?)
      && r.requiredFields == []
      && (out.Parsed? && |out.errors| > 0 ==> r.error == Some(ParseErrorPrefix + out.errors[0]) && r.foundFields == [])
      && (out.Parsed? && out.errors == [] && out.data == [] ==> r.error == Some(NoDataMessage) && r.foundFields == [])
      && (out.Parsed? && out.errors == [] && out.data != [] ==>
        && r.foundFields == out.data[0].keys
        && (r.success <==> (exists k :: 0 <= k < |out.data| && EntryOf(out.data[k], DetectedColumns(out.data, out.data[0].keys, parse), parse).Some?)))
      && (r.success ==> forall e :: e in r.data ==>
        e.feedbackText != "" && Trim(e.feedbackText) == e.feedbackText && 0.0 <= e.npsScore <= 10.0)
  {
    var out := papa(csvContent, NormalizeHeader);
    if out.Parsed? && out.errors == [] && out.data != [] {
      NormalizedEntries(out.data, DetectedColumns(out.data, out.data[0].keys, parse), parse);
    }
  }
}
