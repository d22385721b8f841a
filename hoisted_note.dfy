/**
 * The hoisted note of the current request: whether it lies in the hidden
 * subtree, and the workspace note it stands for. The hoisted note id comes
 * from the request context and is a parameter here.
 */
module HoistedNote {
  import opened Common
  import opened NoteGraph
  import Inheritance
  import NotePaths

  /**
   * `isHoistedInHiddenSubtree`: never for the root, always for `_hidden`,
   * an error for an unknown note, otherwise whether the note is hidden
   * completely.
   */
  function IsHoistedInHiddenSubtree(notes: Store, ghost rank: map<NoteId, nat>, hoistedNoteId: NoteId): (r: Result<bool, string>)
    requires NotePaths.Ranked(notes, rank)
    ensures hoistedNoteId == ROOT ==> r == Ok(false)
    ensures hoistedNoteId == HIDDEN ==> r == Ok(true)
    ensures hoistedNoteId != ROOT && hoistedNoteId != HIDDEN && hoistedNoteId !in notes ==>
              r == Err("Cannot find hoisted note '" + hoistedNoteId + "'")
    ensures r.Err? <==> hoistedNoteId != ROOT && hoistedNoteId != HIDDEN && hoistedNoteId !in notes
  {
    if hoistedNoteId == ROOT then Ok(false)
    else if hoistedNoteId == HIDDEN then Ok(true)
    else if hoistedNoteId !in notes then Err("Cannot find hoisted note '" + hoistedNoteId + "'")
    else Ok(NotePaths.IsHiddenCompletely(notes, rank, hoistedNoteId))
  }

  /**
   * The hoisted note is in the hidden subtree exactly when it is `_hidden`
   * itself or a note every one of whose note paths passes through `_hidden`.
   */
  lemma HoistedInHiddenMeaning(notes: Store, rank: map<NoteId, nat>, hoistedNoteId: NoteId)
    requires NotePaths.Ranked(notes, rank)
    requires hoistedNoteId != ROOT && hoistedNoteId != HIDDEN && hoistedNoteId in notes
    ensures IsHoistedInHiddenSubtree(notes, rank, hoistedNoteId)
            == Ok(NotePaths.AllPathsThroughHidden(notes, rank, hoistedNoteId))
  {
    NotePaths.HiddenCompletelyMeansAllPathsHidden(notes, rank, hoistedNoteId);
  }

  /** `hasLabel('workspace')` on all the note's attributes, inherited ones included. */
  predicate IsWorkspace(notes: Store, id: NoteId)
  {
    HasAttribute(Inheritance.AllAttributes(notes, id), Label, "workspace", None)
  }

  /**
   * `getWorkspaceNote`: the hoisted note when it exists and is the root or
   * a workspace, otherwise the root note.
   */
  function GetWorkspaceNote(notes: Store, hoistedNoteId: NoteId): (r: NoteId)
    ensures r == hoistedNoteId || r == ROOT
    ensures r != ROOT ==> r in notes && IsWorkspace(notes, r)
    ensures hoistedNoteId in notes && IsWorkspace(notes, hoistedNoteId) ==> r == hoistedNoteId
    ensures ROOT in notes ==> r in notes
  {
    if hoistedNoteId in notes && (hoistedNoteId == ROOT || IsWorkspace(notes, hoistedNoteId)) then hoistedNoteId
    else ROOT
  }
}
