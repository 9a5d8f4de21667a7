/**
 * The saved trainings in browser storage (the `savedSessions` entry, read with
 * `JSON.parse(localStorage.getItem('savedSessions') || '[]')`), and the save handler that the
 * training page (TrainingSession.jsx) and the shared page (SharedTraining.jsx) both carry:
 * the name is trimmed, a blank name is refused, and otherwise one record is pushed after all
 * stored ones.
 */
module Storage {
  import opened Wrappers
  import opened Text
  import opened Drills
  import Seqs

  /** What the save handler reports (`showSaveMessage`). */
  datatype SaveOutcome = NameMissing | Saved | SaveFailed

  function SaveMessage(o: SaveOutcome): (m: string)
    ensures o.NameMissing? <==> m == "Geef een naam op"
    ensures o.Saved? <==> m == "Training opgeslagen"
    ensures o.SaveFailed? <==> m == "Fout bij opslaan"
  {
    match o
    case NameMissing => "Geef een naam op"
    case Saved => "Training opgeslagen"
    case SaveFailed => "Fout bij opslaan"
  }

  /** The first stored session with that id (`sessions.find(s => s.id === id)`). */
  function FindSession(sessions: seq<SavedSession>, id: int): (r: Option<SavedSession>)
    ensures r.None? <==> forall k :: 0 <= k < |sessions| ==> sessions[k].id != id
    ensures r.Some? ==> exists k :: 0 <= k < |sessions| && sessions[k] == r.value && r.value.id == id &&
                                    forall j :: 0 <= j < k ==> sessions[j].id != id
  {
    if sessions == [] then None
    else if sessions[0].id == id then Some(sessions[0])
    else
      var r := FindSession(sessions[1..], id);
      assert r.Some? ==> exists k :: 0 <= k < |sessions[1..]| && sessions[1..][k] == r.value && r.value.id == id &&
                                     forall j :: 0 <= j < k ==> sessions[1..][j].id != id;
      r
  }

  /** The stored sessions without those whose id is `id` (`sessions.filter(s => s.id !== id)`). */
  function WithoutSession(sessions: seq<SavedSession>, id: int): (r: seq<SavedSession>)
    ensures forall s :: s in r <==> s in sessions && s.id != id
    ensures |r| <= |sessions|
  {
    Seqs.Filter(sessions, (s: SavedSession) => s.id != id)
  }

  /** Deleting keeps every other session, in order: the removed records and the kept ones
      together are the old list, and the kept ones appear in their old relative order
      (deleting from a concatenation deletes from both parts). */
  lemma WithoutSessionSplits(sessions: seq<SavedSession>, id: int)
    ensures multiset(WithoutSession(sessions, id)) + multiset(Seqs.Filter(sessions, (s: SavedSession) => s.id == id))
            == multiset(sessions)
    ensures FindSession(WithoutSession(sessions, id), id).None?
  {
    Seqs.FilterSplits(sessions, (s: SavedSession) => s.id != id, (s: SavedSession) => s.id == id);
    var r := WithoutSession(sessions, id);
    forall k | 0 <= k < |r| ensures r[k].id != id {
      assert r[k] in r;
    }
  }

  lemma WithoutSessionAppend(a: seq<SavedSession>, b: seq<SavedSession>, id: int)
    ensures WithoutSession(a + b, id) == WithoutSession(a, id) + WithoutSession(b, id)
  {
    Seqs.FilterAppend(a, b, (s: SavedSession) => s.id != id);
  }

  /**
   * The `savedSessions` entry. `raw` is `None` when the stored text is not valid JSON; a
   * missing entry reads as the empty list.
   */
  class SessionStore {
    var raw: Option<seq<SavedSession>>

    constructor (stored: Option<seq<SavedSession>>)
      ensures raw == stored
    {
      raw := stored;
    }

    /** The stored list as the pages load it: the empty list when it does not parse. */
    function Sessions(): (r: seq<SavedSession>)
      reads this
      ensures raw.Some? ==> r == raw.value
      ensures raw.None? ==> r == []
    {
      raw.GetOr([])
    }

    /** `localStorage.setItem('savedSessions', JSON.stringify(sessions))` */
    method Write(sessions: seq<SavedSession>)
      modifies this
      ensures raw == Some(sessions)
    {
      raw := Some(sessions);
    }

    /**
     * The save handler: `nameInput` trimmed must not be empty; the stored list is read
     * again, and when it parses one record `{id: now, name, drills: ids}` is pushed after
     * the stored ones and written back. An unparseable entry makes the save fail and
     * leaves it as it is.
     */
    method Save(nameInput: string, ids: seq<int>, now: int) returns (outcome: SaveOutcome)
      modifies this
      ensures Trim(nameInput) == [] ==> outcome == NameMissing && raw == old(raw)
      ensures Trim(nameInput) != [] && old(raw).None? ==> outcome == SaveFailed && raw == old(raw)
      ensures Trim(nameInput) != [] && old(raw).Some? ==>
                outcome == Saved && raw == Some(old(raw).value + [SavedSession(now, Trim(nameInput), ids)])
    {
      var name := Trim(nameInput);
      if name == [] {
        return NameMissing;
      }
      if raw.None? {
        return SaveFailed;
      }
      var existing := raw.value;
      existing := existing + [SavedSession(now, name, ids)];
      raw := Some(existing);
      outcome := Saved;
    }
  }

  /** A successful save keeps every stored record in place and adds exactly one at the end,
      whose name is trimmed and non-blank and whose drills are the given ids in order. */
  lemma SavedRecord(existing: seq<SavedSession>, nameInput: string, ids: seq<int>, now: int)
    requires Trim(nameInput) != []
    ensures var after := existing + [SavedSession(now, Trim(nameInput), ids)];
            |after| == |existing| + 1 && after[..|existing|] == existing &&
            after[|existing|].drills == ids &&
            after[|existing|].name != [] && !IsSpace(after[|existing|].name[0]) &&
            Trim(after[|existing|].name) == after[|existing|].name
  {
    var name := Trim(nameInput);
    var after := existing + [SavedSession(now, name, ids)];
    TrimIdempotent(nameInput);
    assert after[|existing|] == SavedSession(now, name, ids);
    assert after[..|existing|] == existing;
  }
}
