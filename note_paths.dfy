/**
 * Walks over the parent links of BNote: `getAllNotePaths`, the ranking of
 * `getSortedNotePathRecords`, `getBestNotePath`, `isHiddenCompletely` and
 * `getDistanceToAncestor`. The parent links form a DAG; its acyclicity is
 * stated by a ghost rank that strictly grows from parent to child.
 */
module NotePaths {
  import opened Common
  import opened NoteGraph
  import Inheritance
  import Sorting

  /** Every parent has a smaller rank than its child. */
  ghost predicate Ranked(notes: Store, rank: map<NoteId, nat>)
  {
    forall k | k in notes ::
      k in rank && forall p | p in notes[k].parents :: p in notes && p in rank && rank[p] < rank[k]
  }

  // ---------------------------------------------------------------------
  // getAllNotePaths
  // ---------------------------------------------------------------------

  /** A path from `root` down to `id`, through parent links, meeting `root` only at its head. */
  ghost predicate IsNotePath(notes: Store, q: seq<NoteId>, id: NoteId)
  {
    |q| >= 1 && q[0] == ROOT && q[|q| - 1] == id
    && (forall i :: 0 < i < |q| ==> q[i] != ROOT)
    && (forall i :: 0 < i < |q| ==> q[i] in notes && q[i - 1] in notes[q[i]].parents)
  }

  /** The note paths of `id`, each a list of note ids starting at `root`. */
  function AllNotePaths(notes: Store, ghost rank: map<NoteId, nat>, id: NoteId): (r: seq<seq<NoteId>>)
    requires Ranked(notes, rank) && id in notes
    ensures forall q :: q in r ==> |q| >= 1 && q[|q| - 1] == id
    decreases rank[id], 1
  {
    if id == ROOT then [[ROOT]] else AppendToEach(ParentPaths(notes, rank, notes[id].parents, id), id)
  }

  /** `parentNotes.flatMap(parentNote => parentNote.getAllNotePaths())`. */
  function ParentPaths(notes: Store, ghost rank: map<NoteId, nat>, parents: seq<NoteId>, id: NoteId): seq<seq<NoteId>>
    requires Ranked(notes, rank) && id in notes
    requires forall p :: p in parents ==> p in notes[id].parents
    decreases rank[id], 0, |parents|
  {
    if |parents| == 0 then []
    else AllNotePaths(notes, rank, parents[0]) + ParentPaths(notes, rank, parents[1..], id)
  }

  function AppendToEach(paths: seq<seq<NoteId>>, id: NoteId): (r: seq<seq<NoteId>>)
    ensures |r| == |paths| && forall k :: 0 <= k < |r| ==> r[k] == paths[k] + [id]
  {
    seq(|paths|, k requires 0 <= k < |paths| => paths[k] + [id])
  }

  /**
   * `getAllNotePaths` as the source writes it: the parents' paths are
   * gathered, then the note's id is pushed onto each of them.
   */
  method GetAllNotePaths(notes: Store, ghost rank: map<NoteId, nat>, id: NoteId) returns (paths: seq<seq<NoteId>>)
    requires Ranked(notes, rank) && id in notes
    ensures paths == AllNotePaths(notes, rank, id)
    decreases rank[id], 1
  {
    if id == ROOT {
      return [[ROOT]];
    }
    var gathered := GatherParentPaths(notes, rank, id);
    paths := PushOntoEach(gathered, id);
  }

  /** The `flatMap` of `getAllNotePaths`: every parent's paths, parent by parent. */
  method GatherParentPaths(notes: Store, ghost rank: map<NoteId, nat>, id: NoteId) returns (gathered: seq<seq<NoteId>>)
    requires Ranked(notes, rank) && id in notes
    ensures gathered == ParentPaths(notes, rank, notes[id].parents, id)
    decreases rank[id], 0
  {
    var parents := notes[id].parents;
    gathered := [];
    var i := 0;
    while i < |parents|
      invariant 0 <= i <= |parents|
      invariant gathered + ParentPaths(notes, rank, parents[i..], id) == ParentPaths(notes, rank, parents, id)
    {
      var ps := GetAllNotePaths(notes, rank, parents[i]);
      GatherStep(notes, rank, parents, id, i, gathered);
      gathered := gathered + ps;
      i := i + 1;
    }
    assert gathered + [] == gathered;
  }

  lemma GatherStep(notes: Store, rank: map<NoteId, nat>, parents: seq<NoteId>, id: NoteId, i: nat,
                   gathered: seq<seq<NoteId>>)
    requires Ranked(notes, rank) && id in notes && parents == notes[id].parents && i < |parents|
    requires gathered + ParentPaths(notes, rank, parents[i..], id) == ParentPaths(notes, rank, parents, id)
    ensures gathered + AllNotePaths(notes, rank, parents[i]) + ParentPaths(notes, rank, parents[i + 1..], id)
            == ParentPaths(notes, rank, parents, id)
  {
    var tail := parents[i..];
    assert tail[0] == parents[i] && tail[1..] == parents[i + 1..];
    ParentPathsCons(notes, rank, tail, id);
    ConcatAssoc(gathered, AllNotePaths(notes, rank, parents[i]), ParentPaths(notes, rank, parents[i + 1..], id));
  }

  lemma ParentPathsCons(notes: Store, rank: map<NoteId, nat>, parents: seq<NoteId>, id: NoteId)
    requires Ranked(notes, rank) && id in notes && |parents| > 0
    requires forall p :: p in parents ==> p in notes[id].parents
    ensures ParentPaths(notes, rank, parents, id)
            == AllNotePaths(notes, rank, parents[0]) + ParentPaths(notes, rank, parents[1..], id)
  {
  }

  /** `notePaths.forEach(path => path.push(this.noteId))`. */
  method PushOntoEach(gathered: seq<seq<NoteId>>, id: NoteId) returns (paths: seq<seq<NoteId>>)
    ensures paths == AppendToEach(gathered, id)
  {
    paths := gathered;
    var j := 0;
    while j < |paths|
      invariant 0 <= j <= |paths| == |gathered|
      invariant forall k :: 0 <= k < j ==> paths[k] == gathered[k] + [id]
      invariant forall k :: j <= k < |paths| ==> paths[k] == gathered[k]
    {
      paths := paths[j := paths[j] + [id]];
      j := j + 1;
    }
  }

  lemma {:induction false} ParentPathsSound(notes: Store, rank: map<NoteId, nat>, parents: seq<NoteId>, id: NoteId, h: seq<NoteId>)
    requires Ranked(notes, rank) && id in notes
    requires forall p :: p in parents ==> p in notes[id].parents
    requires h in ParentPaths(notes, rank, parents, id)
    ensures exists p :: p in parents && h in AllNotePaths(notes, rank, p)
    decreases |parents|
  {
    if h !in AllNotePaths(notes, rank, parents[0]) {
      ParentPathsSound(notes, rank, parents[1..], id, h);
      var p :| p in parents[1..] && h in AllNotePaths(notes, rank, p);
      assert p in parents;
    }
  }

  lemma {:induction false} ParentPathsComplete(notes: Store, rank: map<NoteId, nat>, parents: seq<NoteId>, id: NoteId, p: NoteId, h: seq<NoteId>)
    requires Ranked(notes, rank) && id in notes
    requires forall p :: p in parents ==> p in notes[id].parents
    requires p in parents && h in AllNotePaths(notes, rank, p)
    ensures h in ParentPaths(notes, rank, parents, id)
    decreases |parents|
  {
    if parents[0] != p {
      ParentPathsComplete(notes, rank, parents[1..], id, p, h);
    }
  }

  lemma AppendToEachMember(paths: seq<seq<NoteId>>, id: NoteId, q: seq<NoteId>)
    ensures q in AppendToEach(paths, id) <==> |q| >= 1 && q[|q| - 1] == id && q[..|q| - 1] in paths
  {
    var r := AppendToEach(paths, id);
    if q in r {
      var k :| 0 <= k < |r| && r[k] == q;
      assert q[..|q| - 1] == paths[k];
    }
    if |q| >= 1 && q[|q| - 1] == id && q[..|q| - 1] in paths {
      var k :| 0 <= k < |paths| && paths[k] == q[..|q| - 1];
      assert r[k] == q;
    }
  }

  lemma NotePathExtend(notes: Store, h: seq<NoteId>, p: NoteId, id: NoteId)
    requires IsNotePath(notes, h, p)
    requires id in notes && id != ROOT && p in notes[id].parents
    ensures IsNotePath(notes, h + [id], id)
  {
    var q := h + [id];
    assert forall i :: 0 <= i < |h| ==> q[i] == h[i];
  }

  lemma NotePathTruncate(notes: Store, q: seq<NoteId>, id: NoteId)
    requires IsNotePath(notes, q, id) && id != ROOT
    ensures |q| >= 2 && q[|q| - 2] in notes[id].parents
    ensures IsNotePath(notes, q[..|q| - 1], q[|q| - 2])
    ensures q == q[..|q| - 1] + [id]
  {
    var h := q[..|q| - 1];
    assert forall i :: 0 <= i < |h| ==> h[i] == q[i];
  }

  /** The note paths of `id` are exactly the paths from `root` down to it. */
  lemma {:induction false} NotePathsCharacterised(notes: Store, rank: map<NoteId, nat>, id: NoteId)
    requires Ranked(notes, rank) && id in notes
    ensures forall q :: q in AllNotePaths(notes, rank, id) <==> IsNotePath(notes, q, id)
    decreases rank[id]
  {
    if id != ROOT {
      var gathered := ParentPaths(notes, rank, notes[id].parents, id);
      forall q | q in AllNotePaths(notes, rank, id) ensures IsNotePath(notes, q, id) {
        AppendToEachMember(gathered, id, q);
        ParentPathsSound(notes, rank, notes[id].parents, id, q[..|q| - 1]);
        var p :| p in notes[id].parents && q[..|q| - 1] in AllNotePaths(notes, rank, p);
        NotePathsCharacterised(notes, rank, p);
        NotePathExtend(notes, q[..|q| - 1], p, id);
        assert q == q[..|q| - 1] + [id];
      }
      forall q | IsNotePath(notes, q, id) ensures q in AllNotePaths(notes, rank, id) {
        NotePathTruncate(notes, q, id);
        var p := q[|q| - 2];
        NotePathsCharacterised(notes, rank, p);
        ParentPathsComplete(notes, rank, notes[id].parents, id, p, q[..|q| - 1]);
        AppendToEachMember(gathered, id, q);
      }
    } else {
      forall q | IsNotePath(notes, q, ROOT) ensures q == [ROOT] {
      }
    }
  }

  // ---------------------------------------------------------------------
  // isHiddenCompletely
  // ---------------------------------------------------------------------

  /** No note path of the note avoids `_hidden` (the root itself is never hidden). */
  function IsHiddenCompletely(notes: Store, ghost rank: map<NoteId, nat>, id: NoteId): bool
    requires Ranked(notes, rank) && id in notes
    decreases rank[id], 1
  {
    id != ROOT && HiddenViaParents(notes, rank, notes[id].parents, id)
  }

  function HiddenViaParents(notes: Store, ghost rank: map<NoteId, nat>, parents: seq<NoteId>, id: NoteId): bool
    requires Ranked(notes, rank) && id in notes
    requires forall p :: p in parents ==> p in notes[id].parents
    decreases rank[id], 0, |parents|
  {
    if |parents| == 0 then true
    else if parents[0] == ROOT then false
    else if parents[0] == HIDDEN then HiddenViaParents(notes, rank, parents[1..], id)
    else if !IsHiddenCompletely(notes, rank, parents[0]) then false
    else HiddenViaParents(notes, rank, parents[1..], id)
  }

  /** Every note path of `id` passes through `_hidden` before reaching `id`. */
  ghost predicate AllPathsThroughHidden(notes: Store, rank: map<NoteId, nat>, id: NoteId)
    requires Ranked(notes, rank) && id in notes
  {
    forall q :: q in AllNotePaths(notes, rank, id) ==> HIDDEN in q[..|q| - 1]
  }

  ghost predicate AllContainHidden(paths: seq<seq<NoteId>>)
  {
    forall h :: h in paths ==> HIDDEN in h
  }

  lemma {:induction false} HiddenViaParentsMeaning(notes: Store, rank: map<NoteId, nat>, parents: seq<NoteId>, id: NoteId)
    requires Ranked(notes, rank) && id in notes && id != ROOT
    requires forall p :: p in parents ==> p in notes[id].parents
    requires forall p :: p in parents ==> (IsHiddenCompletely(notes, rank, p) <==> AllPathsThroughHidden(notes, rank, p))
    ensures HiddenViaParents(notes, rank, parents, id) <==> AllContainHidden(ParentPaths(notes, rank, parents, id))
    decreases |parents|
  {
    if |parents| > 0 {
      HiddenViaParentsMeaning(notes, rank, parents[1..], id);
      var p := parents[0];
      var own := AllNotePaths(notes, rank, p);
      var rest := ParentPaths(notes, rank, parents[1..], id);
      assert ParentPaths(notes, rank, parents, id) == own + rest;
      assert AllContainHidden(own + rest) <==> AllContainHidden(own) && AllContainHidden(rest);
      OwnPathsHidden(notes, rank, p);
    }
  }

  /** The note paths of a parent all hold `_hidden` exactly when it is `_hidden` or all its paths pass through it. */
  lemma OwnPathsHidden(notes: Store, rank: map<NoteId, nat>, p: NoteId)
    requires Ranked(notes, rank) && p in notes
    ensures AllContainHidden(AllNotePaths(notes, rank, p))
            <==> p != ROOT && (p == HIDDEN || AllPathsThroughHidden(notes, rank, p))
  {
    var own := AllNotePaths(notes, rank, p);
    if p == ROOT {
      assert own[0] == [ROOT];
      assert !AllContainHidden(own);
    } else if p == HIDDEN {
      assert AllContainHidden(own) by {
        forall h | h in own ensures HIDDEN in h {
          assert h[|h| - 1] == HIDDEN;
        }
      }
    } else {
      assert AllContainHidden(own) <==> AllPathsThroughHidden(notes, rank, p) by {
        forall h | h in own ensures HIDDEN in h <==> HIDDEN in h[..|h| - 1] {
          assert h == h[..|h| - 1] + [p];
        }
      }
    }
  }

  /**
   * `isHiddenCompletely` holds exactly when every note path of the note goes
   * through `_hidden` before reaching the note.
   */
  lemma {:induction false} HiddenCompletelyMeansAllPathsHidden(notes: Store, rank: map<NoteId, nat>, id: NoteId)
    requires Ranked(notes, rank) && id in notes
    ensures IsHiddenCompletely(notes, rank, id) <==> AllPathsThroughHidden(notes, rank, id)
    decreases rank[id]
  {
    if id == ROOT {
      assert AllNotePaths(notes, rank, id)[0][..0] == [];
    } else {
      forall p | p in notes[id].parents {
        HiddenCompletelyMeansAllPathsHidden(notes, rank, p);
      }
      var gathered := ParentPaths(notes, rank, notes[id].parents, id);
      HiddenViaParentsMeaning(notes, rank, notes[id].parents, id);
      forall q | q in AllNotePaths(notes, rank, id) ensures q[..|q| - 1] in gathered {
        AppendToEachMember(gathered, id, q);
      }
      forall h | h in gathered ensures h + [id] in AllNotePaths(notes, rank, id) && (h + [id])[..|h|] == h {
        AppendToEachMember(gathered, id, h + [id]);
      }
    }
  }

  // ---------------------------------------------------------------------
  // getDistanceToAncestor
  // ---------------------------------------------------------------------

  const NO_DISTANCE := 999999

  /** Steps up the parent links from `id` to `ancestor`, capped at 999999. */
  function DistanceToAncestor(notes: Store, ghost rank: map<NoteId, nat>, id: NoteId, ancestor: NoteId): (d: nat)
    requires Ranked(notes, rank) && id in notes
    ensures d <= NO_DISTANCE
    decreases rank[id], 1
  {
    if id == ancestor then 0 else MinOverParents(notes, rank, notes[id].parents, id, ancestor, NO_DISTANCE)
  }

  function MinOverParents(notes: Store, ghost rank: map<NoteId, nat>, parents: seq<NoteId>, id: NoteId, ancestor: NoteId, acc: nat): (d: nat)
    requires Ranked(notes, rank) && id in notes
    requires forall p :: p in parents ==> p in notes[id].parents
    ensures d <= acc
    decreases rank[id], 0, |parents|
  {
    if |parents| == 0 then acc
    else
      var via := DistanceToAncestor(notes, rank, parents[0], ancestor) + 1;
      MinOverParents(notes, rank, parents[1..], id, ancestor, if via < acc then via else acc)
  }

  /** The running minimum is at most one more than each parent's distance. */
  lemma {:induction false} MinOverParentsBound(notes: Store, rank: map<NoteId, nat>, parents: seq<NoteId>, id: NoteId, ancestor: NoteId, acc: nat, p: NoteId)
    requires Ranked(notes, rank) && id in notes
    requires forall p :: p in parents ==> p in notes[id].parents
    requires p in parents
    ensures MinOverParents(notes, rank, parents, id, ancestor, acc) <= DistanceToAncestor(notes, rank, p, ancestor) + 1
    decreases |parents|
  {
    if parents[0] != p {
      var via := DistanceToAncestor(notes, rank, parents[0], ancestor) + 1;
      MinOverParentsBound(notes, rank, parents[1..], id, ancestor, if via < acc then via else acc, p);
    }
  }

  /** The running minimum is the starting value or is reached through some parent. */
  lemma {:induction false} MinOverParentsAttained(notes: Store, rank: map<NoteId, nat>, parents: seq<NoteId>, id: NoteId, ancestor: NoteId, acc: nat)
    requires Ranked(notes, rank) && id in notes
    requires forall p :: p in parents ==> p in notes[id].parents
    ensures var d := MinOverParents(notes, rank, parents, id, ancestor, acc);
            d == acc || exists p :: p in parents && d == DistanceToAncestor(notes, rank, p, ancestor) + 1
    decreases |parents|
  {
    if |parents| > 0 {
      var via := DistanceToAncestor(notes, rank, parents[0], ancestor) + 1;
      var acc' := if via < acc then via else acc;
      MinOverParentsAttained(notes, rank, parents[1..], id, ancestor, acc');
      var d := MinOverParents(notes, rank, parents, id, ancestor, acc);
      assert d == MinOverParents(notes, rank, parents[1..], id, ancestor, acc');
      if d == via {
        assert parents[0] in parents;
      } else if d != acc {
        assert d != acc';
        var p :| p in parents[1..] && d == DistanceToAncestor(notes, rank, p, ancestor) + 1;
        assert p in parents;
      }
    }
  }

  /** `c` climbs parent links from its first element to its last. */
  ghost predicate UpChain(notes: Store, c: seq<NoteId>)
  {
    |c| >= 1 && forall i :: 0 <= i < |c| - 1 ==> c[i] in notes && c[i + 1] in notes[c[i]].parents
  }

  /** No chain of parent links from `id` to `ancestor` is shorter than the distance. */
  lemma {:induction false} DistanceIsMinimal(notes: Store, rank: map<NoteId, nat>, c: seq<NoteId>)
    requires Ranked(notes, rank) && UpChain(notes, c) && c[0] in notes
    ensures DistanceToAncestor(notes, rank, c[0], c[|c| - 1]) <= |c| - 1
    decreases |c|
  {
    var id, anc := c[0], c[|c| - 1];
    if id != anc {
      assert |c| >= 2;
      var p := c[1];
      assert UpChain(notes, c[1..]);
      DistanceIsMinimal(notes, rank, c[1..]);
      assert c[1..][|c[1..]| - 1] == anc;
      MinOverParentsBound(notes, rank, notes[id].parents, id, anc, NO_DISTANCE, p);
    }
  }

  /** A distance below 999999 is the length of an actual chain of parent links. */
  lemma {:induction false} DistanceIsAttained(notes: Store, rank: map<NoteId, nat>, id: NoteId, ancestor: NoteId)
    requires Ranked(notes, rank) && id in notes
    requires DistanceToAncestor(notes, rank, id, ancestor) < NO_DISTANCE
    ensures exists c :: UpChain(notes, c) && c[0] == id && c[|c| - 1] == ancestor
                        && |c| - 1 == DistanceToAncestor(notes, rank, id, ancestor)
    decreases rank[id]
  {
    if id == ancestor {
      assert UpChain(notes, [id]);
    } else {
      var d := DistanceToAncestor(notes, rank, id, ancestor);
      MinOverParentsAttained(notes, rank, notes[id].parents, id, ancestor, NO_DISTANCE);
      var p :| p in notes[id].parents && d == DistanceToAncestor(notes, rank, p, ancestor) + 1;
      DistanceIsAttained(notes, rank, p, ancestor);
      var c :| UpChain(notes, c) && c[0] == p && c[|c| - 1] == ancestor
               && |c| - 1 == DistanceToAncestor(notes, rank, p, ancestor);
      assert |[id] + c| - 1 == d;
      UpChainCons(notes, id, c);
    }
  }

  lemma UpChainCons(notes: Store, id: NoteId, c: seq<NoteId>)
    requires UpChain(notes, c) && id in notes && c[0] in notes[id].parents
    ensures UpChain(notes, [id] + c) && ([id] + c)[0] == id && ([id] + c)[|[id] + c| - 1] == c[|c| - 1]
  {
    var c' := [id] + c;
    assert c'[1..] == c;
  }

  // ---------------------------------------------------------------------
  // getSortedNotePathRecords / getBestNotePath
  // ---------------------------------------------------------------------

  datatype NotePathRecord = NotePathRecord(
    notePath: seq<NoteId>,
    isInHoistedSubTree: bool,
    isArchived: bool,
    isHidden: bool)

  /** `isArchived`: the note has (possibly inherited) the label `archived`. */
  predicate IsArchived(notes: Store, id: NoteId)
  {
    HasAttribute(Inheritance.AllAttributes(notes, id), Label, "archived", None)
  }

  function MakeRecord(notes: Store, q: seq<NoteId>, hoistedNoteId: NoteId): (r: NotePathRecord)
    ensures r.notePath == q
    ensures r.isInHoistedSubTree <==> hoistedNoteId == ROOT || hoistedNoteId in q
    ensures r.isArchived <==> exists n :: n in q && IsArchived(notes, n)
    ensures r.isHidden <==> HIDDEN in q
  {
    NotePathRecord(q, hoistedNoteId == ROOT || hoistedNoteId in q, exists n :: n in q && IsArchived(notes, n), HIDDEN in q)
  }

  function MakeRecords(notes: Store, paths: seq<seq<NoteId>>, hoistedNoteId: NoteId): (r: seq<NotePathRecord>)
    ensures |r| == |paths| && forall k :: 0 <= k < |r| ==> r[k] == MakeRecord(notes, paths[k], hoistedNoteId)
  {
    seq(|paths|, k requires 0 <= k < |paths| => MakeRecord(notes, paths[k], hoistedNoteId))
  }

  /** The comparator of `getSortedNotePathRecords`, as a -1/0/+1 style number. */
  function CompareRecords(a: NotePathRecord, b: NotePathRecord): int
  {
    if a.isInHoistedSubTree != b.isInHoistedSubTree then (if a.isInHoistedSubTree then -1 else 1)
    else if a.isArchived != b.isArchived then (if a.isArchived then 1 else -1)
    else if a.isHidden != b.isHidden then (if a.isHidden then 1 else -1)
    else |a.notePath| - |b.notePath|
  }

  function RecordLe(a: NotePathRecord, b: NotePathRecord): bool
  {
    CompareRecords(a, b) <= 0
  }

  /** The comparator is the lexicographic order on (outside hoisted, archived, hidden, length). */
  lemma RecordLeIsLexicographic(a: NotePathRecord, b: NotePathRecord)
    ensures RecordLe(a, b) <==>
      || (a.isInHoistedSubTree && !b.isInHoistedSubTree)
      || (a.isInHoistedSubTree == b.isInHoistedSubTree && !a.isArchived && b.isArchived)
      || (a.isInHoistedSubTree == b.isInHoistedSubTree && a.isArchived == b.isArchived && !a.isHidden && b.isHidden)
      || (a.isInHoistedSubTree == b.isInHoistedSubTree && a.isArchived == b.isArchived && a.isHidden == b.isHidden
          && |a.notePath| <= |b.notePath|)
  {
  }

  lemma RecordLeTotalPreorder()
    ensures Sorting.TotalPreorder(RecordLe)
  {
    forall a, b, c | RecordLe(a, b) && RecordLe(b, c) ensures RecordLe(a, c) {
      RecordLeIsLexicographic(a, b);
      RecordLeIsLexicographic(b, c);
      RecordLeIsLexicographic(a, c);
    }
  }

  function SortedNotePathRecords(notes: Store, ghost rank: map<NoteId, nat>, id: NoteId, hoistedNoteId: NoteId): seq<NotePathRecord>
    requires Ranked(notes, rank) && id in notes
  {
    Sorting.Sort(MakeRecords(notes, AllNotePaths(notes, rank, id), hoistedNoteId), RecordLe)
  }

  /** The ranked records are ordered by the comparator and are exactly the records of all note paths. */
  lemma SortedNotePathRecordsCorrect(notes: Store, rank: map<NoteId, nat>, id: NoteId, hoistedNoteId: NoteId)
    requires Ranked(notes, rank) && id in notes
    ensures Sorting.SortedBy(SortedNotePathRecords(notes, rank, id, hoistedNoteId), RecordLe)
    ensures multiset(SortedNotePathRecords(notes, rank, id, hoistedNoteId))
            == multiset(MakeRecords(notes, AllNotePaths(notes, rank, id), hoistedNoteId))
  {
    RecordLeTotalPreorder();
    Sorting.SortCorrect(MakeRecords(notes, AllNotePaths(notes, rank, id), hoistedNoteId), RecordLe);
  }

  /** `getBestNotePath`: the first ranked record's path, if the note has any path. */
  function BestNotePath(notes: Store, ghost rank: map<NoteId, nat>, id: NoteId, hoistedNoteId: NoteId): Option<seq<NoteId>>
    requires Ranked(notes, rank) && id in notes
  {
    var records := SortedNotePathRecords(notes, rank, id, hoistedNoteId);
    if |records| > 0 then Some(records[0].notePath) else None
  }

  /**
   * The best path is a note path, and no note path ranks before it: it is in
   * the hoisted subtree if any path is, then non-archived if any such path
   * is, then non-hidden, then shortest.
   */
  lemma BestNotePathIsBest(notes: Store, rank: map<NoteId, nat>, id: NoteId, hoistedNoteId: NoteId)
    requires Ranked(notes, rank) && id in notes
    ensures BestNotePath(notes, rank, id, hoistedNoteId).Some? <==> |AllNotePaths(notes, rank, id)| > 0
    ensures BestNotePath(notes, rank, id, hoistedNoteId).Some? ==>
              var best := BestNotePath(notes, rank, id, hoistedNoteId).value;
              IsNotePath(notes, best, id)
              && forall q :: q in AllNotePaths(notes, rank, id) ==>
                   RecordLe(MakeRecord(notes, best, hoistedNoteId), MakeRecord(notes, q, hoistedNoteId))
  {
    var records := MakeRecords(notes, AllNotePaths(notes, rank, id), hoistedNoteId);
    var sorted := SortedNotePathRecords(notes, rank, id, hoistedNoteId);
    SortedNotePathRecordsCorrect(notes, rank, id, hoistedNoteId);
    assert |sorted| == |records| by {
      assert |multiset(sorted)| == |multiset(records)|;
    }
    NotePathsCharacterised(notes, rank, id);
    if |sorted| > 0 {
      assert sorted[0] in multiset(records);
      var i :| 0 <= i < |records| && records[i] == sorted[0];
      forall q | q in AllNotePaths(notes, rank, id)
        ensures RecordLe(MakeRecord(notes, sorted[0].notePath, hoistedNoteId), MakeRecord(notes, q, hoistedNoteId))
      {
        var k :| 0 <= k < |AllNotePaths(notes, rank, id)| && AllNotePaths(notes, rank, id)[k] == q;
        assert records[k] in multiset(sorted);
        var j :| 0 <= j < |sorted| && sorted[j] == records[k];
        if j > 0 {
          assert RecordLe(sorted[0], sorted[j]);
        }
      }
    }
  }
}
