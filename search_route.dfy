/**
 * The search API routes: running a saved search note, and the "related
 * notes" of an attribute (notes with the same attribute name and value
 * first, then notes with the same attribute name), capped at 20 distinct
 * notes.
 */
module SearchRoute {
  import opened Common
  import opened NoteGraph
  import opened AttributeFormatter

  /** The fields of a search hit the route reads and returns. */
  datatype SearchResult = SearchResult(noteId: NoteId, notePathArray: seq<NoteId>, score: int)

  /** The errors the route throws: a missing note, or a note of the wrong type. */
  datatype RouteError = NotFound(noteId: NoteId) | ValidationError(message: string)

  const MAX_RELATED: nat := 20

  /**
   * `searchFromNote`: the note must exist and be a search note; its saved
   * search is then run by `run` (the search service, not part of this model).
   */
  function SearchFromNote<R>(notes: Store, noteId: NoteId, run: Note -> R): (r: Result<R, RouteError>)
    ensures noteId !in notes ==> r == Err(NotFound(noteId))
    ensures noteId in notes && notes[noteId].noteType != "search" ==>
              r == Err(ValidationError("Note '" + noteId + "' is not a search note."))
    ensures r.Ok? <==> noteId in notes && notes[noteId].noteType == "search"
    ensures r.Ok? ==> r.value == run(notes[noteId])
  {
    if noteId !in notes then Err(NotFound(noteId))
    else if notes[noteId].noteType != "search" then Err(ValidationError("Note '" + noteId + "' is not a search note."))
    else Ok(run(notes[noteId]))
  }

  /** Some record of `rs` is for note `id`. */
  predicate HasId(rs: seq<SearchResult>, id: NoteId)
  {
    exists k | 0 <= k < |rs| :: rs[k].noteId == id
  }

  /** The note ids of `rs`. */
  function IdSet(rs: seq<SearchResult>): set<NoteId>
  {
    set k | 0 <= k < |rs| :: rs[k].noteId
  }

  /** The first record of each note of `s`, in the order of `s`. */
  function Firsts(s: seq<SearchResult>): seq<SearchResult>
    decreases |s|
  {
    if |s| == 0 then []
    else
      var p := Firsts(s[..|s| - 1]);
      if HasId(p, s[|s| - 1].noteId) then p else p + [s[|s| - 1]]
  }

  function Take(s: seq<SearchResult>, n: nat): (r: seq<SearchResult>)
    ensures |r| <= n && r <= s
    ensures |s| <= n ==> r == s
  {
    if |s| <= n then s else s[..n]
  }

  /** The related-notes list: the first record of each note, at most 20 of them. */
  function Related(all: seq<SearchResult>): seq<SearchResult>
  {
    Take(Firsts(all), MAX_RELATED)
  }

  /** No two records of `rs` are for the same note. */
  predicate DistinctIds(rs: seq<SearchResult>)
  {
    forall i, j | 0 <= i < j < |rs| :: rs[i].noteId != rs[j].noteId
  }

  /** `Firsts` keeps one record per note, each a record of `s`, and every note of `s` has one. */
  lemma {:induction false} FirstsShape(s: seq<SearchResult>)
    ensures DistinctIds(Firsts(s))
    ensures forall r | r in Firsts(s) :: r in s
    ensures IdSet(Firsts(s)) == IdSet(s)
    decreases |s|
  {
    if |s| > 0 {
      var init := s[..|s| - 1];
      var last := s[|s| - 1];
      FirstsShape(init);
      var p := Firsts(init);
      assert IdSet(s) == IdSet(init) + {last.noteId} by {
        assert forall k | 0 <= k < |init| :: s[k] == init[k];
      }
      assert forall r | r in init :: r in s;
      if HasId(p, last.noteId) {
        var k :| 0 <= k < |p| && p[k].noteId == last.noteId;
        assert last.noteId in IdSet(p);
      } else {
        var q := p + [last];
        assert IdSet(q) == IdSet(p) + {last.noteId} by {
          assert forall k | 0 <= k < |p| :: q[k] == p[k];
          assert q[|p|] == last;
        }
      }
    }
  }

  /** The records kept from a prefix of the list stay first in the records kept from the whole list. */
  lemma {:induction false} FirstsPrefix(s: seq<SearchResult>, k: nat)
    requires k <= |s|
    ensures Firsts(s[..k]) <= Firsts(s)
    decreases |s| - k
  {
    if k < |s| {
      FirstsPrefix(s, k + 1);
      assert s[..k + 1][..k] == s[..k];
    } else {
      assert s[..k] == s;
    }
  }

  /** There are as many kept records as distinct notes in the list. */
  lemma {:induction false} FirstsCount(s: seq<SearchResult>)
    ensures |Firsts(s)| == |IdSet(s)|
    decreases |s|
  {
    var f := Firsts(s);
    FirstsShape(s);
    DistinctCount(f);
  }

  /** A list of records with distinct notes has as many notes as records. */
  lemma {:induction false} DistinctCount(rs: seq<SearchResult>)
    requires DistinctIds(rs)
    ensures |IdSet(rs)| == |rs|
    decreases |rs|
  {
    if |rs| > 0 {
      var init := rs[..|rs| - 1];
      DistinctCount(init);
      assert IdSet(rs) == IdSet(init) + {rs[|rs| - 1].noteId} by {
        assert forall k | 0 <= k < |init| :: rs[k] == init[k];
      }
      assert rs[|rs| - 1].noteId !in IdSet(init);
    }
  }

  /**
   * `getRelatedNotes`: searches for the attribute's name and value, then
   * its name alone (both by `search`, the search service run with fast
   * search and without archived notes); `count` is the number of distinct
   * notes found, `results` the first hit of each note in that order,
   * stopping at 20.
   */
  method GetRelatedNotes(attr: AttributeRow, search: string -> seq<SearchResult>)
    returns (r: Result<(nat, seq<SearchResult>), string>)
    ensures r.Err? <==> FormatAttrForSearch(attr, true).Err?
    ensures r.Ok? ==>
              var all := search(FormatAttrForSearch(attr, true).value) + search(FormatAttrForSearch(attr, false).value);
              r.value.0 == |IdSet(all)| && r.value.1 == Related(all)
  {
    var byNameAndValue := FormatAttrForSearch(attr, true);
    if byNameAndValue.Err? {
      return Err(byNameAndValue.error);
    }
    var byName := FormatAttrForSearch(attr, false);
    var matchingNameAndValue := search(byNameAndValue.value);
    var matchingName := search(byName.value);
    var allResults := matchingNameAndValue + matchingName;
    var count, results := RelatedOf(allResults);
    return Ok((count, results));
  }

  /** The two loops of `getRelatedNotes` over the concatenated hits. */
  method RelatedOf(allResults: seq<SearchResult>) returns (count: nat, results: seq<SearchResult>)
    ensures count == |IdSet(allResults)|
    ensures results == Related(allResults)
  {
    var allResultNoteIds: set<NoteId> := {};
    for k := 0 to |allResults|
      invariant allResultNoteIds == IdSet(allResults[..k])
    {
      assert IdSet(allResults[..k + 1]) == IdSet(allResults[..k]) + {allResults[k].noteId} by {
        assert forall j | 0 <= j < k :: allResults[..k + 1][j] == allResults[..k][j];
      }
      allResultNoteIds := allResultNoteIds + {allResults[k].noteId};
    }
    assert allResults[..|allResults|] == allResults;
    count := |allResultNoteIds|;

    results := [];
    var k := 0;
    while k < |allResults|
      invariant 0 <= k <= |allResults|
      invariant results == Firsts(allResults[..k]) && |results| <= MAX_RELATED
    {
      if |results| >= MAX_RELATED {
        break;
      }
      var record := allResults[k];
      assert allResults[..k + 1][..k] == allResults[..k];
      if HasId(results, record.noteId) {
        k := k + 1;
        continue;
      }
      results := results + [record];
      k := k + 1;
    }
    FirstsPrefix(allResults, k);
    if k == |allResults| {
      assert allResults[..k] == allResults;
    }
  }

  /** At most 20 results, no note twice, each one of the hits. */
  lemma RelatedShape(all: seq<SearchResult>)
    ensures |Related(all)| <= MAX_RELATED
    ensures DistinctIds(Related(all))
    ensures forall r | r in Related(all) :: r in all
  {
    FirstsShape(all);
  }

  /** Fewer than 20 distinct notes: every one of them is in the results, once. */
  lemma RelatedSize(all: seq<SearchResult>)
    ensures |Related(all)| == if |IdSet(all)| < MAX_RELATED then |IdSet(all)| else MAX_RELATED
    ensures |IdSet(all)| <= MAX_RELATED ==> IdSet(Related(all)) == IdSet(all)
  {
    FirstsCount(all);
    FirstsShape(all);
  }

  /**
   * The name-and-value hits come first: the results begin with the
   * related list of those hits alone.
   */
  lemma NameAndValueFirst(matchingNameAndValue: seq<SearchResult>, matchingName: seq<SearchResult>)
    ensures Related(matchingNameAndValue) <= Related(matchingNameAndValue + matchingName)
  {
    var all := matchingNameAndValue + matchingName;
    FirstsPrefix(all, |matchingNameAndValue|);
    assert all[..|matchingNameAndValue|] == matchingNameAndValue;
  }
}
