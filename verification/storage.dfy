/**
 * The saved-analyses history: a list of sessions kept as one JSON value
 * under a single `localStorage` key. Every operation reads the whole list,
 * changes it, and writes it back.
 */
module Storage {
  import opened FeedbackTypes

  /**
   * What the storage key holds: nothing (or the empty string), text that
   * `JSON.parse` rejects, or a list of sessions.
   */
  datatype Blob = Absent | Unreadable | Stored(sessions: seq<AnalysisSession>)

  /** `getAllAnalyses` on the stored value: the list, or `[]` when there is none or it cannot be read. */
  function LoadSessions(b: Blob): (r: seq<AnalysisSession>)
    ensures r != [] ==> b.Stored? && r == b.sessions
  {
    if b.Stored? then b.sessions else []
  }

  const DefaultNamePrefix := "Analysis - "

  /**
   * The session `saveAnalysis` stores for `result`: its id, timestamp,
   * row count and overall NPS, under `name`, or under a name made from the
   * report's date (`dateLabel`, the locale date text) when `name` is absent
   * or empty.
   */
  function SessionOf(result: AnalysisResult, name: Option<string>, dateLabel: string): (s: AnalysisSession)
    ensures s.id == result.id && s.created == result.timestamp && s.result == result
    ensures s.feedbackCount == result.feedbackCount && s.npsScore == result.nps.overallNps
    ensures s.name != ""
    ensures Truthy(name) ==> s.name == name.value
  {
    AnalysisSession(
      result.id,
      if Truthy(name) then name.value else DefaultNamePrefix + dateLabel,
      result.timestamp,
      result.feedbackCount,
      result.nps.overallNps,
      result)
  }

  predicate HasId(sessions: seq<AnalysisSession>, id: string) {
    exists k :: 0 <= k < |sessions| && sessions[k].id == id
  }

  /** Position of the first session with `id`. */
  function IndexOfId(sessions: seq<AnalysisSession>, id: string): (r: Option<nat>)
    ensures r.Some? ==> (r.value < |sessions| && sessions[r.value].id == id
      && forall k :: 0 <= k < r.value ==> sessions[k].id != id)
    ensures r.None? <==> !HasId(sessions, id)
  {
    if sessions == [] then None
    else if sessions[0].id == id then Some(0)
    else match IndexOfId(sessions[1..], id)
      case Some(k) =>
        assert sessions[k + 1] == sessions[1..][k];
        Some(k + 1)
      case None =>
        assert forall k :: 1 <= k < |sessions| ==> sessions[k] == sessions[1..][k - 1];
        None
  }

  /** `analyses.find(a => a.id === id) || null`. */
  function FindById(sessions: seq<AnalysisSession>, id: string): Option<AnalysisSession> {
    match IndexOfId(sessions, id)
    case Some(k) => Some(sessions[k])
    case None => None
  }

  /** `analyses.filter(a => a.id !== id)`. */
  function WithoutId(sessions: seq<AnalysisSession>, id: string): (r: seq<AnalysisSession>)
    ensures |r| <= |sessions|
  {
    if sessions == [] then []
    else
      var last := sessions[|sessions| - 1];
      WithoutId(sessions[..|sessions| - 1], id) + (if last.id != id then [last] else [])
  }

  /** The list after renaming the first session with `id`; unchanged when there is none. */
  function RenameFirst(sessions: seq<AnalysisSession>, id: string, newName: string): seq<AnalysisSession> {
    match IndexOfId(sessions, id)
    case Some(k) => sessions[k := sessions[k].(name := newName)]
    case None => sessions
  }

  /** `localStorage` under the analyses key. */
  class ReportStore {
    var blob: Blob

    constructor(initial: Blob)
      ensures blob == initial
    {
      blob := initial;
    }

    /** `getAllAnalyses`. */
    function AllAnalyses(): (r: seq<AnalysisSession>)
      reads this
      ensures blob.Stored? ==> r == blob.sessions
      ensures !blob.Stored? ==> r == []
    {
      LoadSessions(blob)
    }

    /** `getAnalysis`. */
    function GetAnalysis(id: string): (r: Option<AnalysisSession>)
      reads this
      ensures r.None? <==> !HasId(AllAnalyses(), id)
      ensures r.Some? ==> r.value.id == id
      ensures r.Some? ==>
        exists k :: (0 <= k < |AllAnalyses()| && AllAnalyses()[k] == r.value && (forall j :: 0 <= j < k ==> AllAnalyses()[j].id != id))
    {
      FindById(AllAnalyses(), id)
    }

    /** `saveAnalysis`: append the new session to the list and write the list back. */
    method SaveAnalysis(result: AnalysisResult, name: Option<string>, dateLabel: string) returns (id: string)
      modifies this
      ensures blob == Stored(old(AllAnalyses()) + [SessionOf(result, name, dateLabel)])
      ensures id == result.id
    {
      var session := SessionOf(result, name, dateLabel);
      var analyses := AllAnalyses();
      analyses := analyses + [session];
      blob := Stored(analyses);
      return result.id;
    }

    /** `deleteAnalysis`: write back the list without the sessions with `id`. */
    method DeleteAnalysis(id: string)
      modifies this
      ensures blob == Stored(WithoutId(old(AllAnalyses()), id))
    {
      var analyses := AllAnalyses();
      var filtered := WithoutId(analyses, id);
      blob := Stored(filtered);
    }

    /** `updateAnalysisName`: rename the first session with `id` and write back; write nothing when there is none. */
    method UpdateAnalysisName(id: string, newName: string)
      modifies this
      ensures HasId(old(AllAnalyses()), id) ==> blob == Stored(RenameFirst(old(AllAnalyses()), id, newName))
      ensures !HasId(old(AllAnalyses()), id) ==> blob == old(blob)
    {
      var analyses := AllAnalyses();
      var index := IndexOfId(analyses, id);
      if index.Some? {
        var k := index.value;
        analyses := analyses[k := analyses[k].(name := newName)];
        blob := Stored(analyses);
      }
    }
  }

  // ---------------------------------------------------------------------------
  // Properties of the history operations
  // ---------------------------------------------------------------------------

  /** `getAnalysis` yields the first session with the id, or nothing when no session has it. */
  lemma FindByIdSpec(sessions: seq<AnalysisSession>, id: string)
    ensures FindById(sessions, id).None? <==> !HasId(sessions, id)
    ensures FindById(sessions, id).Some? ==>
      (exists k :: 0 <= k < |sessions| && FindById(sessions, id).value == sessions[k]
        && sessions[k].id == id && forall j :: 0 <= j < k ==> sessions[j].id != id)
  {
  }

  /**
   * After saving, looking the new id up finds the new session, unless an
   * older session already had that id (then the older one is found); other
   * ids find what they found before.
   */
  lemma {:induction false} FindAfterSave(sessions: seq<AnalysisSession>, s: AnalysisSession, id: string)
    ensures FindById(sessions + [s], id)
      == if HasId(sessions, id) then FindById(sessions, id)
         else if s.id == id then Some(s)
         else None
  {
    var all := sessions + [s];
    assert forall k :: 0 <= k < |sessions| ==> all[k] == sessions[k];
    var i := IndexOfId(all, id);
    if HasId(sessions, id) {
      var k := IndexOfId(sessions, id).value;
      assert i.Some?;
      assert i.value == k;
    } else if s.id == id {
      assert all[|sessions|].id == id;
      assert i == Some(|sessions|);
    } else {
      assert forall k :: 0 <= k < |all| ==> all[k].id != id;
    }
  }

  /** Deleting keeps exactly the sessions with another id, each as often as before. */
  lemma {:induction false} WithoutIdSpec(sessions: seq<AnalysisSession>, id: string)
    ensures forall s :: s in WithoutId(sessions, id) ==> s.id != id
    ensures forall s: AnalysisSession :: s.id != id ==> multiset(WithoutId(sessions, id))[s] == multiset(sessions)[s]
  {
    if sessions != [] {
      var p := sessions[..|sessions| - 1];
      WithoutIdSpec(p, id);
      assert sessions == p + [sessions[|sessions| - 1]];
    }
  }

  /** Deleting works piece by piece, so the kept sessions stay in their original order. */
  lemma {:induction false} WithoutIdAppend(a: seq<AnalysisSession>, b: seq<AnalysisSession>, id: string)
    ensures WithoutId(a + b, id) == WithoutId(a, id) + WithoutId(b, id)
    decreases |b|
  {
    if b != [] {
      var p := b[..|b| - 1];
      WithoutIdAppend(a, p, id);
      assert (a + b)[..|a + b| - 1] == a + p;
    } else {
      assert a + b == a;
    }
  }

  /** Deleting an id no session has changes nothing. */
  lemma {:induction false} WithoutAbsentId(sessions: seq<AnalysisSession>, id: string)
    requires !HasId(sessions, id)
    ensures WithoutId(sessions, id) == sessions
  {
    if sessions != [] {
      var p := sessions[..|sessions| - 1];
      assert !HasId(p, id) by {
        assert forall k :: 0 <= k < |p| ==> p[k] == sessions[k];
      }
      WithoutAbsentId(p, id);
      assert sessions == p + [sessions[|sessions| - 1]];
    }
  }

  /** Deleting twice is deleting once. */
  lemma WithoutIdIdempotent(sessions: seq<AnalysisSession>, id: string)
    ensures WithoutId(WithoutId(sessions, id), id) == WithoutId(sessions, id)
  {
    var r := WithoutId(sessions, id);
    WithoutIdSpec(sessions, id);
    assert forall k :: 0 <= k < |r| ==> r[k] in r;
    WithoutAbsentId(r, id);
  }

  /** Deleting the id just saved leaves the list as deleting it before the save would. */
  lemma DeleteAfterSave(sessions: seq<AnalysisSession>, result: AnalysisResult, name: Option<string>, dateLabel: string)
    ensures WithoutId(sessions + [SessionOf(result, name, dateLabel)], result.id) == WithoutId(sessions, result.id)
  {
    var s := SessionOf(result, name, dateLabel);
    WithoutIdAppend(sessions, [s], result.id);
    assert WithoutId([s], result.id) == [];
  }

  /**
   * Renaming changes only the name of the first session with the id: every
   * other session, and every other field, stays as it was; with no such
   * session the list is unchanged.
   */
  lemma RenameFirstSpec(sessions: seq<AnalysisSession>, id: string, newName: string)
    ensures var r := RenameFirst(sessions, id, newName);
      && |r| == |sessions|
      && (!HasId(sessions, id) ==> r == sessions)
      && (HasId(sessions, id) ==>
        (exists k :: 0 <= k < |sessions|
          && sessions[k].id == id
          && (forall j :: 0 <= j < k ==> sessions[j].id != id)
          && r[k] == sessions[k].(name := newName)
          && (forall j :: 0 <= j < |sessions| && j != k ==> r[j] == sessions[j])))
  {
    if HasId(sessions, id) {
      var k := IndexOfId(sessions, id).value;
      var r := RenameFirst(sessions, id, newName);
      assert r[k] == sessions[k].(name := newName);
    }
  }

  /** After a rename, looking the id up finds the renamed session. */
  lemma FindAfterRename(sessions: seq<AnalysisSession>, id: string, newName: string)
    requires HasId(sessions, id)
    ensures FindById(RenameFirst(sessions, id, newName), id)
      == Some(FindById(sessions, id).value.(name := newName))
  {
    var k := IndexOfId(sessions, id).value;
    var r := RenameFirst(sessions, id, newName);
    assert r[k].id == id;
    assert forall j :: 0 <= j < k ==> r[j] == sessions[j];
    var i := IndexOfId(r, id);
    assert i.Some? && i.value == k;
  }
}
