/**
 * Merging the themes of all batch responses into one table keyed by theme
 * name (a JavaScript `Map`, which remembers insertion order), and the final
 * ordering of the merged themes by count.
 */
module ThemeMerge {
  import opened FeedbackTypes
  import opened SeqUtil

  /** A repeated theme keeps at most this many quotes. */
  const QuoteCap: nat := 3

  function Names(ts: seq<Theme>): (r: seq<string>)
    ensures |r| == |ts|
  {
    seq(|ts|, i requires 0 <= i < |ts| => ts[i].name)
  }

  /** Position of the theme called `name` in the table, if there is one. */
  function IndexOfName(table: seq<Theme>, name: string): (r: Option<nat>)
    ensures r.Some? ==> r.value < |table| && table[r.value].name == name
    ensures r.None? ==> name !in Names(table)
  {
    if table == [] then None
    else if table[0].name == name then Some(0)
    else match IndexOfName(table[1..], name)
      case Some(k) => Some(k + 1)
      case None => assert Names(table) == [table[0].name] + Names(table[1..]); None
  }

  function AddSentiment(a: SentimentCounts, b: SentimentCounts): SentimentCounts {
    SentimentCounts(a.positive + b.positive, a.neutral + b.neutral, a.negative + b.negative)
  }

  /**
   * A repeated theme: counts are added field by field, and the quotes become
   * the union of both lists in first-appearance order, cut to `QuoteCap`.
   */
  function Combine(existing: Theme, t: Theme): Theme {
    existing.(
      count := existing.count + t.count,
      sentiment := AddSentiment(existing.sentiment, t.sentiment),
      quotes := Take(Dedup(existing.quotes + t.quotes), QuoteCap))
  }

  /** One step of the merge: combine with the entry of the same name or append a copy. */
  function MergeStep(table: seq<Theme>, t: Theme): seq<Theme> {
    match IndexOfName(table, t.name)
    case Some(k) => table[k := Combine(table[k], t)]
    case None => table + [t]
  }

  /** The theme table after merging `frags` in order, starting from an empty `Map`. */
  function MergeAll(frags: seq<Theme>): seq<Theme> {
    if frags == [] then [] else MergeStep(MergeAll(frags[..|frags| - 1]), frags[|frags| - 1])
  }

  // ---------------------------------------------------------------------------
  // Reference definition: each merged theme described directly from all fragments
  // ---------------------------------------------------------------------------

  /** Sum of `count` over the fragments called `n`. */
  function TotalCount(frags: seq<Theme>, n: string): int {
    if frags == [] then 0
    else TotalCount(frags[..|frags| - 1], n) + (if frags[|frags| - 1].name == n then frags[|frags| - 1].count else 0)
  }

  /** Number of fragments called `n`. */
  function Occurrences(frags: seq<Theme>, n: string): nat {
    if frags == [] then 0
    else Occurrences(frags[..|frags| - 1], n) + (if frags[|frags| - 1].name == n then 1 else 0)
  }

  /** Field-wise sum of the sentiment counts of the fragments called `n`. */
  function TotalSentiment(frags: seq<Theme>, n: string): SentimentCounts {
    if frags == [] then SentimentCounts(0, 0, 0)
    else
      var last := frags[|frags| - 1];
      AddSentiment(TotalSentiment(frags[..|frags| - 1], n),
        if last.name == n then last.sentiment else SentimentCounts(0, 0, 0))
  }

  /** All quotes of the fragments called `n`, in fragment order. */
  function QuotesNamed(frags: seq<Theme>, n: string): seq<string> {
    if frags == [] then []
    else QuotesNamed(frags[..|frags| - 1], n) + (if frags[|frags| - 1].name == n then frags[|frags| - 1].quotes else [])
  }

  /** The first fragment called `n`. */
  function FirstNamed(frags: seq<Theme>, n: string): (r: Theme)
    requires n in Names(frags)
    ensures r in frags && r.name == n
  {
    var p := frags[..|frags| - 1];
    assert Names(frags) == Names(p) + [frags[|frags| - 1].name];
    if n in Names(p) then FirstNamed(p, n) else frags[|frags| - 1]
  }

  /**
   * What the merged theme called `n` should be: counts summed over every
   * fragment of that name; the first fragment's description; its quotes
   * untouched when the name occurs once, otherwise the duplicate-free union
   * of all its quotes in first-appearance order, cut to `QuoteCap`.
   */
  function MergedTheme(frags: seq<Theme>, n: string): Theme
    requires n in Names(frags)
  {
    var first := FirstNamed(frags, n);
    Theme(n, TotalCount(frags, n), TotalSentiment(frags, n),
      if Occurrences(frags, n) == 1 then first.quotes else Take(Dedup(QuotesNamed(frags, n)), QuoteCap),
      first.description)
  }

  /** One merged theme per distinct name, in order of first appearance. */
  function Reference(frags: seq<Theme>): seq<Theme> {
    var d := Dedup(Names(frags));
    seq(|d|, k requires 0 <= k < |d| => MergedTheme(frags, d[k]))
  }

  lemma NamesSnoc(p: seq<Theme>, t: Theme)
    ensures Names(p + [t]) == Names(p) + [t.name]
    ensures (p + [t])[..|p|] == p
  {
  }

  lemma {:induction false} AbsentName(frags: seq<Theme>, n: string)
    requires n !in Names(frags)
    ensures TotalCount(frags, n) == 0
    ensures TotalSentiment(frags, n) == SentimentCounts(0, 0, 0)
    ensures QuotesNamed(frags, n) == []
  {
    if frags != [] {
      var p := frags[..|frags| - 1];
      NamesSnoc(p, frags[|frags| - 1]);
      assert frags == p + [frags[|frags| - 1]];
      AbsentName(p, n);
    }
  }

  /** A name occurs among the fragments exactly when some fragment carries it. */
  lemma {:induction false} OccursIffNamed(frags: seq<Theme>, n: string)
    ensures n in Names(frags) <==> Occurrences(frags, n) > 0
  {
    if frags != [] {
      var p := frags[..|frags| - 1];
      NamesSnoc(p, frags[|frags| - 1]);
      assert frags == p + [frags[|frags| - 1]];
      OccursIffNamed(p, n);
    }
  }

  lemma {:induction false} SingleName(frags: seq<Theme>, n: string)
    requires n in Names(frags) && Occurrences(frags, n) == 1
    ensures QuotesNamed(frags, n) == FirstNamed(frags, n).quotes
  {
    var p := frags[..|frags| - 1];
    var t := frags[|frags| - 1];
    assert frags == p + [t];
    NamesSnoc(p, t);
    if t.name == n {
      OccursIffNamed(p, n);
      AbsentName(p, n);
    } else {
      SingleName(p, n);
    }
  }

  /** Adding a fragment leaves the merged theme of every other name as it was. */
  lemma OtherNameUnchanged(p: seq<Theme>, t: Theme, n: string)
    requires n in Names(p) && n != t.name
    ensures n in Names(p + [t])
    ensures MergedTheme(p + [t], n) == MergedTheme(p, n)
  {
    var f := p + [t];
    NamesSnoc(p, t);
    assert f[..|f| - 1] == p;
    assert TotalCount(f, n) == TotalCount(p, n);
    assert TotalSentiment(f, n) == TotalSentiment(p, n);
    assert QuotesNamed(f, n) == QuotesNamed(p, n);
    assert FirstNamed(f, n) == FirstNamed(p, n);
    assert Occurrences(f, n) == Occurrences(p, n);
  }

  /** Merging a fragment of a name seen before: `Combine` of the old merged theme. */
  lemma RepeatedName(p: seq<Theme>, t: Theme)
    requires t.name in Names(p)
    ensures t.name in Names(p + [t])
    ensures MergedTheme(p + [t], t.name) == Combine(MergedTheme(p, t.name), t)
  {
    var n := t.name;
    var f := p + [t];
    NamesSnoc(p, t);
    var m := MergedTheme(p, n);
    OccursIffNamed(p, n);
    assert Occurrences(f, n) == Occurrences(p, n) + 1;
    assert TotalCount(f, n) == m.count + t.count;
    assert TotalSentiment(f, n) == AddSentiment(m.sentiment, t.sentiment);
    assert FirstNamed(f, n) == FirstNamed(p, n);
    assert QuotesNamed(f, n) == QuotesNamed(p, n) + t.quotes;
    if Occurrences(p, n) == 1 {
      SingleName(p, n);
      assert m.quotes == QuotesNamed(p, n);
    } else {
      TakeDedupAbsorbs(QuotesNamed(p, n), t.quotes, QuoteCap);
    }
    assert MergedTheme(f, n).quotes == Combine(m, t).quotes;
  }

  /** Merging a fragment of a new name: exactly that fragment. */
  lemma NewName(p: seq<Theme>, t: Theme)
    requires t.name !in Names(p)
    ensures t.name in Names(p + [t])
    ensures MergedTheme(p + [t], t.name) == t
  {
    var f := p + [t];
    NamesSnoc(p, t);
    AbsentName(p, t.name);
    OccursIffNamed(p, t.name);
    assert Occurrences(p + [t], t.name) == 1;
  }

  /** The merged theme of a name other than `t`'s, at position `j` of the reference table, survives adding `t`. */
  lemma ReferenceKeepsOther(p: seq<Theme>, t: Theme, j: nat)
    requires j < |Dedup(Names(p))| && Dedup(Names(p))[j] != t.name
    ensures Dedup(Names(p))[j] in Names(p + [t])
    ensures MergedTheme(p + [t], Dedup(Names(p))[j]) == Reference(p)[j]
  {
    var n := Dedup(Names(p))[j];
    assert n in Dedup(Names(p));
    OtherNameUnchanged(p, t, n);
  }

  /** Adding a fragment of a new name appends exactly that fragment to the reference table. */
  lemma ReferenceNew(p: seq<Theme>, t: Theme)
    requires t.name !in Names(p)
    ensures Reference(p + [t]) == Reference(p) + [t]
  {
    NamesSnoc(p, t);
    DedupSnoc(Names(p), t.name);
    NewName(p, t);
    var a, b := Reference(p + [t]), Reference(p) + [t];
    forall j | 0 <= j < |a| ensures a[j] == b[j] {
      if j < |b| - 1 {
        ReferenceKeepsOther(p, t, j);
      }
    }
  }

  lemma ReferenceCombined(p: seq<Theme>, t: Theme, k: nat)
    requires k < |Dedup(Names(p))| && Dedup(Names(p))[k] == t.name
    ensures k < |Reference(p + [t])|
    ensures Reference(p + [t])[k] == Combine(Reference(p)[k], t)
  {
    assert t.name in Dedup(Names(p));
    NamesSnoc(p, t);
    DedupSnoc(Names(p), t.name);
    RepeatedName(p, t);
  }

  /** Adding a fragment of a known name, at position `k`, combines it into that entry only. */
  lemma ReferenceRepeated(p: seq<Theme>, t: Theme, k: nat)
    requires k < |Dedup(Names(p))| && Dedup(Names(p))[k] == t.name
    ensures Reference(p + [t]) == Reference(p)[k := Combine(Reference(p)[k], t)]
  {
    assert t.name in Dedup(Names(p));
    NamesSnoc(p, t);
    DedupSnoc(Names(p), t.name);
    var a, b := Reference(p + [t]), Reference(p)[k := Combine(Reference(p)[k], t)];
    forall j | 0 <= j < |a| ensures a[j] == b[j] {
      if j != k {
        ReferenceKeepsOther(p, t, j);
      } else {
        ReferenceCombined(p, t, k);
      }
    }
  }

  /**
   * The merge loop produces exactly the reference table: one theme per
   * distinct name in first-seen order, with summed counts and sentiment and
   * the quote rule above.
   */
  lemma {:induction false} MergeAllIsReference(frags: seq<Theme>)
    ensures MergeAll(frags) == Reference(frags)
  {
    if frags != [] {
      var p := frags[..|frags| - 1];
      var t := frags[|frags| - 1];
      assert frags == p + [t];
      MergeAllIsReference(p);
      var table := MergeAll(p);
      assert Names(table) == Dedup(Names(p));
      match IndexOfName(table, t.name)
      case Some(k) => ReferenceRepeated(p, t, k);
      case None => ReferenceNew(p, t);
    }
  }

  /** The merged table has one entry per distinct theme name, in first-seen order. */
  lemma MergedNamesDistinct(frags: seq<Theme>)
    ensures Names(MergeAll(frags)) == Dedup(Names(frags))
    ensures Distinct(Names(MergeAll(frags)))
  {
    MergeAllIsReference(frags);
  }

  // ---------------------------------------------------------------------------
  // Ordering of the report's themes
  // ---------------------------------------------------------------------------

  /** Sort key for `(a, b) => b.count - a.count`. */
  function NegCount(t: Theme): int {
    -t.count
  }

  /** `Array.from(themes.values()).sort((a, b) => b.count - a.count)`. */
  function SortedThemes(table: seq<Theme>): seq<Theme> {
    SortBy(table, NegCount)
  }

  /**
   * The report's themes never increase in count and are a permutation of
   * the merged table.
   */
  lemma SortedThemesOrder(table: seq<Theme>)
    ensures var r := SortedThemes(table);
      && (forall i, j :: 0 <= i < j < |r| ==> r[i].count >= r[j].count)
      && multiset(r) == multiset(table)
  {
    var r := SortedThemes(table);
    assert SortedBy(r, NegCount);
    forall i, j | 0 <= i < j < |r| ensures r[i].count >= r[j].count {
      assert NegCount(r[i]) <= NegCount(r[j]);
    }
  }

  /** Themes of equal count keep their first-seen order (the sort is stable). */
  lemma SortedThemesStable(table: seq<Theme>, c: int)
    ensures WithKey(SortedThemes(table), NegCount, -c) == WithKey(table, NegCount, -c)
  {
    SortByIsStable(table, NegCount, -c);
  }
}
