/**
 * `BNote.getSubtree` and `BNote.getSubtreeNotesIncludingTemplated`: depth-first
 * walks that collect every reached note once, in an insertion-ordered set.
 * The walk state (the set, and for `getSubtree` the list of parent/child
 * relationships) is a class; the store and the options stay fixed during a
 * walk. Each walk is proved to list exactly the notes reachable from its
 * start, as a discovery order (`Reach.Generated`) whose set is closed under
 * the walk's successor relation (`Reach.Closed`).
 */
module Subtree {
  import opened Common
  import opened NoteGraph
  import Reach
  import NotePaths

  /** The options of `getSubtree`. */
  datatype SubtreeOptions = SubtreeOptions(includeArchived: bool, includeHidden: bool, resolveSearch: bool)

  /** The defaults of `getSubtree({...} = {})`. */
  const DEFAULT_OPTIONS := SubtreeOptions(true, false, false)

  datatype Relationship = Relationship(parentNoteId: NoteId, childNoteId: NoteId)

  /**
   * `getSearchResultNotes`: the ids the search of a search note yields that
   * name notes of the store, in order. The search itself is not modelled:
   * `searchResults` holds its result ids per search note.
   */
  function SearchResultNotes(notes: Store, searchResults: map<NoteId, seq<NoteId>>, id: NoteId): (r: seq<NoteId>)
    requires id in notes
    ensures forall x :: x in r <==> notes[id].noteType == "search" && id in searchResults
                                    && x in searchResults[id] && x in notes
  {
    if notes[id].noteType != "search" || id !in searchResults then []
    else Filter(searchResults[id], (x: NoteId) => x in notes)
  }

  /** The notes `addSubtreeNotesInner` descends into: the search results of a search note, else the children. */
  function Descend(notes: Store, opts: SubtreeOptions, searchResults: map<NoteId, seq<NoteId>>, id: NoteId): seq<NoteId>
    requires id in notes
  {
    if notes[id].noteType == "search" then
      (if opts.resolveSearch then SearchResultNotes(notes, searchResults, id) else [])
    else notes[id].children
  }

  /** Passes the `_hidden` check: its relationship is recorded. */
  predicate Admitted(opts: SubtreeOptions, id: NoteId)
  {
    id != HIDDEN || opts.includeHidden
  }

  /** Passes the archived check as well: it enters the note set. */
  predicate Kept(notes: Store, opts: SubtreeOptions, id: NoteId)
  {
    Admitted(opts, id) && (opts.includeArchived || !NotePaths.IsArchived(notes, id))
  }

  /** The successor relation of the walk: the descended-into notes that enter the set. */
  function SubtreeSucc(notes: Store, opts: SubtreeOptions, searchResults: map<NoteId, seq<NoteId>>): NoteId -> set<NoteId>
  {
    (x: NoteId) =>
      if x in notes then set c | c in Descend(notes, opts, searchResults, x) && c in notes && Kept(notes, opts, c)
      else {}
  }

  /** Every element after the first was reached from an earlier one. */
  ghost predicate FromEarlier(succ: NoteId -> set<NoteId>, s: seq<NoteId>)
  {
    forall j | 0 < j < |s| :: ReachedBefore(succ, s, j)
  }

  ghost predicate ReachedBefore(succ: NoteId -> set<NoteId>, s: seq<NoteId>, j: int)
    requires 0 <= j < |s|
  {
    exists i :: 0 <= i < j && s[j] in succ(s[i])
  }

  lemma FromEarlierAppend(succ: NoteId -> set<NoteId>, s: seq<NoteId>, x: NoteId, i: nat)
    requires FromEarlier(succ, s) && i < |s| && x in succ(s[i])
    ensures FromEarlier(succ, s + [x])
  {
    var t := s + [x];
    forall j | 0 < j < |t| ensures ReachedBefore(succ, t, j) {
      if j < |s| {
        assert ReachedBefore(succ, s, j);
        var k :| 0 <= k < j && s[j] in succ(s[k]);
        assert t[k] == s[k] && t[j] == s[j];
      } else {
        assert t[i] == s[i] && t[j] == x;
      }
    }
  }

  /** A walk that reached every later note from an earlier one is a discovery order from its first note. */
  lemma FromEarlierGenerated(succ: NoteId -> set<NoteId>, s: seq<NoteId>)
    requires |s| > 0 && FromEarlier(succ, s)
    ensures Reach.Generated(succ, s[0], s)
  {
    forall j | 0 < j < |s| ensures exists i :: 0 <= i < j && s[j] in succ(s[i]) {
      assert ReachedBefore(succ, s, j);
      var i :| 0 <= i < j && s[j] in succ(s[i]);
      assert 0 <= i < j && s[j] in succ(s[i]);
    }
  }

  lemma PrefixMember<T>(a: seq<T>, b: seq<T>, x: T)
    requires a <= b && x in a
    ensures x in b
  {
    var i :| 0 <= i < |a| && a[i] == x;
    assert b[i] == x;
  }

  lemma IndexOfMember(s: seq<NoteId>, x: NoteId) returns (i: nat)
    requires x in s
    ensures i < |s| && s[i] == x
  {
    i :| 0 <= i < |s| && s[i] == x;
  }

  // ---------------------------------------------------------------------
  // getSubtree
  // ---------------------------------------------------------------------

  /** A recorded relationship joins a note of the set to an admitted note it descends into. */
  ghost predicate RelationshipOk(notes: Store, opts: SubtreeOptions, searchResults: map<NoteId, seq<NoteId>>,
                                 noteSet: seq<NoteId>, r: Relationship)
  {
    r.parentNoteId in noteSet && r.parentNoteId in notes
    && r.childNoteId in Descend(notes, opts, searchResults, r.parentNoteId)
    && Admitted(opts, r.childNoteId)
  }

  /**
   * The walk so far: distinct notes of the store that passed both checks,
   * each after the first reached from an earlier one, and sound relationships.
   */
  ghost predicate WalkOk(notes: Store, opts: SubtreeOptions, searchResults: map<NoteId, seq<NoteId>>,
                         noteSet: seq<NoteId>, relationships: seq<Relationship>)
  {
    StoreValid(notes)
    && Distinct(noteSet)
    && (forall x | x in noteSet :: x in notes && Kept(notes, opts, x))
    && FromEarlier(SubtreeSucc(notes, opts, searchResults), noteSet)
    && forall r | r in relationships :: RelationshipOk(notes, opts, searchResults, noteSet, r)
  }

  /** Note `n` is finished: each admitted note it descends into has its relationship, and is in the set if kept. */
  ghost predicate Finished(notes: Store, opts: SubtreeOptions, searchResults: map<NoteId, seq<NoteId>>,
                           noteSet: seq<NoteId>, relationships: seq<Relationship>, n: NoteId)
    requires n in notes
  {
    forall c | c in Descend(notes, opts, searchResults, n) && Admitted(opts, c) ::
      Relationship(n, c) in relationships && (c in notes && Kept(notes, opts, c) ==> c in noteSet)
  }

  /** Every note of the set that is not still being expanded (not in `open`) is finished. */
  ghost predicate FinishedOutside(notes: Store, opts: SubtreeOptions, searchResults: map<NoteId, seq<NoteId>>,
                                  noteSet: seq<NoteId>, relationships: seq<Relationship>, open: set<NoteId>)
  {
    forall n | n in noteSet && n !in open :: n in notes && Finished(notes, opts, searchResults, noteSet, relationships, n)
  }

  /** The first `i` notes of `next` were walked with `parent` as parent. */
  ghost predicate WalkedUpTo(notes: Store, opts: SubtreeOptions, noteSet: seq<NoteId>, relationships: seq<Relationship>,
                             parent: NoteId, next: seq<NoteId>, i: nat)
    requires i <= |next|
  {
    forall k | 0 <= k < i && Admitted(opts, next[k]) ::
      Relationship(parent, next[k]) in relationships
      && (next[k] in notes && Kept(notes, opts, next[k]) ==> next[k] in noteSet)
  }

  /** Walking `next[i]` after the first `i` extends the walked prefix by one. */
  lemma WalkedGrows(notes: Store, opts: SubtreeOptions, ns: seq<NoteId>, rels: seq<Relationship>,
                    ns': seq<NoteId>, rels': seq<Relationship>, parent: NoteId, next: seq<NoteId>, i: nat)
    requires i < |next| && ns <= ns' && rels <= rels'
    requires WalkedUpTo(notes, opts, ns, rels, parent, next, i)
    requires Admitted(opts, next[i]) ==> Relationship(parent, next[i]) in rels'
    requires Kept(notes, opts, next[i]) ==> next[i] in ns'
    ensures WalkedUpTo(notes, opts, ns', rels', parent, next, i + 1)
  {
    forall k | 0 <= k < i && Admitted(opts, next[k])
      ensures Relationship(parent, next[k]) in rels' && (next[k] in notes && Kept(notes, opts, next[k]) ==> next[k] in ns')
    {
      PrefixMember(rels, rels', Relationship(parent, next[k]));
      if next[k] in notes && Kept(notes, opts, next[k]) {
        PrefixMember(ns, ns', next[k]);
      }
    }
  }

  /** Growing the set and the relationships keeps finished notes finished. */
  lemma FinishedGrows(notes: Store, opts: SubtreeOptions, searchResults: map<NoteId, seq<NoteId>>,
                      ns: seq<NoteId>, rels: seq<Relationship>, ns': seq<NoteId>, rels': seq<Relationship>,
                      open: set<NoteId>, open': set<NoteId>)
    requires ns <= ns' && rels <= rels' && open <= open'
    requires forall x | x in ns' && x !in ns :: x in open'
    requires FinishedOutside(notes, opts, searchResults, ns, rels, open)
    ensures FinishedOutside(notes, opts, searchResults, ns', rels', open')
  {
    forall n | n in ns' && n !in open'
      ensures n in notes && Finished(notes, opts, searchResults, ns', rels', n)
    {
      assert n in ns;
      forall c | c in Descend(notes, opts, searchResults, n) && Admitted(opts, c)
        ensures Relationship(n, c) in rels' && (c in notes && Kept(notes, opts, c) ==> c in ns')
      {
        PrefixMember(rels, rels', Relationship(n, c));
        if c in notes && Kept(notes, opts, c) {
          PrefixMember(ns, ns', c);
        }
      }
    }
  }

  /** Recording the relationship `parent -> note` keeps the walk well formed. */
  lemma RecordRelationship(notes: Store, opts: SubtreeOptions, searchResults: map<NoteId, seq<NoteId>>,
                           ns: seq<NoteId>, rels: seq<Relationship>, open: set<NoteId>, parent: NoteId, note: NoteId)
    requires WalkOk(notes, opts, searchResults, ns, rels)
    requires FinishedOutside(notes, opts, searchResults, ns, rels, open)
    requires parent in ns && parent in notes && note in Descend(notes, opts, searchResults, parent) && Admitted(opts, note)
    ensures WalkOk(notes, opts, searchResults, ns, rels + [Relationship(parent, note)])
    ensures FinishedOutside(notes, opts, searchResults, ns, rels + [Relationship(parent, note)], open)
  {
    var rels' := rels + [Relationship(parent, note)];
    forall r | r in rels' ensures RelationshipOk(notes, opts, searchResults, ns, r) {
      if r in rels {
        assert RelationshipOk(notes, opts, searchResults, ns, r);
      }
    }
    FinishedGrows(notes, opts, searchResults, ns, rels, ns, rels', open, open);
  }

  /** Adding a kept note reached from a note of the set (or as the first) keeps the walk well formed. */
  lemma AddNote(notes: Store, opts: SubtreeOptions, searchResults: map<NoteId, seq<NoteId>>,
                ns: seq<NoteId>, rels: seq<Relationship>, open: set<NoteId>, parent: Option<NoteId>, note: NoteId)
    requires WalkOk(notes, opts, searchResults, ns, rels)
    requires FinishedOutside(notes, opts, searchResults, ns, rels, open)
    requires note in notes && note !in ns && Kept(notes, opts, note)
    requires parent.None? ==> ns == []
    requires parent.Some? ==> parent.value in ns && parent.value in notes
                              && note in Descend(notes, opts, searchResults, parent.value)
    ensures WalkOk(notes, opts, searchResults, ns + [note], rels)
    ensures FinishedOutside(notes, opts, searchResults, ns + [note], rels, open + {note})
  {
    var ns' := ns + [note];
    if parent.Some? {
      var i := IndexOfMember(ns, parent.value);
      FromEarlierAppend(SubtreeSucc(notes, opts, searchResults), ns, note, i);
    }
    forall r | r in rels ensures RelationshipOk(notes, opts, searchResults, ns', r) {
      assert RelationshipOk(notes, opts, searchResults, ns, r);
    }
    FinishedGrows(notes, opts, searchResults, ns, rels, ns', rels, open, open + {note});
  }

  /** The state of one `getSubtree` call: `noteSet` and `relationships`. */
  class SubtreeWalk {
    const notes: Store
    const opts: SubtreeOptions
    const searchResults: map<NoteId, seq<NoteId>>
    var noteSet: seq<NoteId>
    var relationships: seq<Relationship>

    constructor (notes: Store, opts: SubtreeOptions, searchResults: map<NoteId, seq<NoteId>>)
      ensures this.notes == notes && this.opts == opts && this.searchResults == searchResults
      ensures noteSet == [] && relationships == []
    {
      this.notes := notes;
      this.opts := opts;
      this.searchResults := searchResults;
      noteSet := [];
      relationships := [];
    }

    ghost function Visited(): set<NoteId>
      reads this
    {
      set x | x in noteSet
    }

    ghost predicate Valid()
      reads this
    {
      WalkOk(notes, opts, searchResults, noteSet, relationships)
    }

    ghost predicate CompleteOutside(open: set<NoteId>)
      reads this
    {
      FinishedOutside(notes, opts, searchResults, noteSet, relationships, open)
    }

    /** `addSubtreeNotesInner(note, parentNote)`. */
    method AddSubtreeNotesInner(note: NoteId, parent: Option<NoteId>, ghost open: set<NoteId>)
      requires Valid() && note in notes
      requires parent.None? ==> noteSet == []
      requires parent.Some? ==> parent.value in noteSet && parent.value in notes
                                && note in Descend(notes, opts, searchResults, parent.value)
      requires CompleteOutside(open)
      modifies this
      ensures Valid() && CompleteOutside(open)
      ensures old(noteSet) <= noteSet && old(relationships) <= relationships
      ensures parent.Some? && Admitted(opts, note) ==> Relationship(parent.value, note) in relationships
      ensures Kept(notes, opts, note) ==> note in noteSet
      ensures !Kept(notes, opts, note) && note !in old(noteSet) ==> noteSet == old(noteSet)
      ensures old(noteSet) == [] && Kept(notes, opts, note) ==> noteSet[0] == note
      ensures parent.None? && !Kept(notes, opts, note) ==> relationships == old(relationships)
      decreases notes.Keys - Visited(), 3
    {
      if note == HIDDEN && !opts.includeHidden {
        return;
      }
      if parent.Some? {
        RecordRelationship(notes, opts, searchResults, noteSet, relationships, open, parent.value, note);
        relationships := relationships + [Relationship(parent.value, note)];
      }
      if note !in noteSet && (opts.includeArchived || !NotePaths.IsArchived(notes, note)) {
        ghost var recorded := relationships;
        Visit(note, parent, open);
        if parent.Some? {
          PrefixMember(recorded, relationships, Relationship(parent.value, note));
        }
      }
    }

    /** The rest of `addSubtreeNotesInner` once `note` passed every check: it is added, then expanded. */
    method Visit(note: NoteId, parent: Option<NoteId>, ghost open: set<NoteId>)
      requires Valid() && note in notes && note !in noteSet && Kept(notes, opts, note)
      requires parent.None? ==> noteSet == []
      requires parent.Some? ==> parent.value in noteSet && parent.value in notes
                                && note in Descend(notes, opts, searchResults, parent.value)
      requires CompleteOutside(open)
      modifies this
      ensures Valid() && CompleteOutside(open)
      ensures old(noteSet) <= noteSet && old(relationships) <= relationships
      ensures note in noteSet
      ensures old(noteSet) == [] ==> noteSet[0] == note
      decreases notes.Keys - Visited(), 2
    {
      AddNote(notes, opts, searchResults, noteSet, relationships, open, parent, note);
      ghost var before := noteSet;
      noteSet := noteSet + [note];
      assert Visited() == (set x | x in before) + {note};
      Expand(note, open);
      PrefixMember(before + [note], noteSet, note);
      assert noteSet[..|before| + 1] == before + [note];
    }

    /** After `note` is added: its children are walked, or for a search note its results when they are resolved. */
    method Expand(note: NoteId, ghost open: set<NoteId>)
      requires Valid() && note in noteSet && note in notes
      requires CompleteOutside(open + {note})
      modifies this
      ensures Valid() && CompleteOutside(open)
      ensures old(noteSet) <= noteSet && old(relationships) <= relationships
      decreases notes.Keys - Visited() + {note}, 1
    {
      if notes[note].noteType == "search" {
        if opts.resolveSearch {
          AddEach(SearchResultNotes(notes, searchResults, note), note, open);
        } else {
          FinishedGrows(notes, opts, searchResults, noteSet, relationships, noteSet, relationships, open + {note}, open + {note});
          assert Finished(notes, opts, searchResults, noteSet, relationships, note);
        }
      } else {
        AddEach(notes[note].children, note, open);
      }
    }

    /**
     * The `for` loops over the children and over `getSearchResultNotes()`
     * (inside `resolveSearchNote`): each is walked with `parent` as parent.
     */
    method AddEach(next: seq<NoteId>, parent: NoteId, ghost open: set<NoteId>)
      requires Valid() && parent in noteSet && parent in notes
      requires next == Descend(notes, opts, searchResults, parent)
      requires CompleteOutside(open + {parent})
      modifies this
      ensures Valid() && CompleteOutside(open)
      ensures old(noteSet) <= noteSet && old(relationships) <= relationships
      decreases notes.Keys - Visited() + {parent}, 0
    {
      var i := 0;
      while i < |next|
        invariant 0 <= i <= |next|
        invariant Valid() && CompleteOutside(open + {parent})
        invariant old(noteSet) <= noteSet && old(relationships) <= relationships
        invariant WalkedUpTo(notes, opts, noteSet, relationships, parent, next, i)
      {
        assert next[i] in notes by {
          if notes[parent].noteType != "search" {
            assert NoteValid(notes, parent);
            assert next[i] in notes[parent].children;
          }
        }
        PrefixMember(old(noteSet), noteSet, parent);
        ghost var setBefore, relsBefore := noteSet, relationships;
        AddSubtreeNotesInner(next[i], Some(parent), open + {parent});
        WalkedGrows(notes, opts, setBefore, relsBefore, noteSet, relationships, parent, next, i);
        i := i + 1;
      }
      forall c | c in next && Admitted(opts, c)
        ensures Relationship(parent, c) in relationships && (c in notes && Kept(notes, opts, c) ==> c in noteSet)
      {
        var k := IndexOfMember(next, c);
        assert WalkedUpTo(notes, opts, noteSet, relationships, parent, next, |next|);
      }
      assert Finished(notes, opts, searchResults, noteSet, relationships, parent);
    }
  }

  /**
   * `getSubtree(options)`: the notes of the subtree of `id` (each once, in
   * visiting order) and every parent/child relationship met on the way,
   * including those to notes already visited through another parent.
   */
  method GetSubtree(notes: Store, id: NoteId, opts: SubtreeOptions, searchResults: map<NoteId, seq<NoteId>>)
    returns (noteIds: seq<NoteId>, relationships: seq<Relationship>)
    requires StoreValid(notes) && id in notes
    ensures Distinct(noteIds)
    ensures !Kept(notes, opts, id) ==> noteIds == [] && relationships == []
    ensures Kept(notes, opts, id) ==> Reach.Generated(SubtreeSucc(notes, opts, searchResults), id, noteIds)
    ensures Kept(notes, opts, id) ==> (set x | x in noteIds) == Reach.Reachable(SubtreeSucc(notes, opts, searchResults), notes.Keys, id)
    ensures Reach.Closed(SubtreeSucc(notes, opts, searchResults), set x | x in noteIds)
    ensures forall x | x in noteIds :: x in notes && Kept(notes, opts, x)
    ensures forall r :: r in relationships <==>
              r.parentNoteId in noteIds && r.parentNoteId in notes
              && r.childNoteId in Descend(notes, opts, searchResults, r.parentNoteId)
              && Admitted(opts, r.childNoteId)
  {
    var walk := new SubtreeWalk(notes, opts, searchResults);
    walk.AddSubtreeNotesInner(id, None, {});
    noteIds, relationships := walk.noteSet, walk.relationships;
    if |noteIds| > 0 {
      FromEarlierGenerated(SubtreeSucc(notes, opts, searchResults), noteIds);
    }
    ghost var succ := SubtreeSucc(notes, opts, searchResults);
    forall x, y | x in noteIds && y in succ(x) ensures y in noteIds {
      assert Finished(notes, opts, searchResults, noteIds, relationships, x);
    }
    forall r | r in relationships ensures RelationshipOk(notes, opts, searchResults, noteIds, r) {
    }
    if Kept(notes, opts, id) {
      Reach.GeneratedClosedIsReachable(succ, notes.Keys, id, noteIds);
    }
    forall r | RelationshipOk(notes, opts, searchResults, noteIds, r) ensures r in relationships {
      assert Finished(notes, opts, searchResults, noteIds, relationships, r.parentNoteId);
    }
  }

  /** `getSubtreeNoteIds`: a note reached by following kept links from a listed note is listed too. */
  lemma SubtreeWithinClosed(notes: Store, opts: SubtreeOptions, searchResults: map<NoteId, seq<NoteId>>,
                            id: NoteId, noteIds: seq<NoteId>, s: set<NoteId>)
    requires Reach.Generated(SubtreeSucc(notes, opts, searchResults), id, noteIds)
    requires Reach.Closed(SubtreeSucc(notes, opts, searchResults), s) && id in s
    ensures forall x | x in noteIds :: x in s
  {
    Reach.GeneratedWithinClosed(SubtreeSucc(notes, opts, searchResults), id, noteIds, s);
  }

  // ---------------------------------------------------------------------
  // getSubtreeNotesIncludingTemplated
  // ---------------------------------------------------------------------

  /** What `inner` walks from a note: its children, then the notes using it as template or inherit source. */
  function TemplatedNext(notes: Store, n: NoteId): seq<NoteId>
    requires n in notes
  {
    notes[n].children + InheritorsOf(notes.Keys, notes[n].targetRelations)
  }

  /** The successors of `inner`, as a relation (never `_hidden`). */
  function TemplatedSucc(notes: Store): NoteId -> set<NoteId>
  {
    (x: NoteId) =>
      if x in notes then set c | c in TemplatedNext(notes, x) && c != HIDDEN
      else {}
  }

  /** All of what `inner` walks from `n`, other than `_hidden`, is in the set. */
  ghost predicate TemplatedFinished(notes: Store, found: seq<NoteId>, n: NoteId)
    requires n in notes
  {
    forall c | c in TemplatedNext(notes, n) && c != HIDDEN :: c in found
  }

  /** The walk so far: distinct notes of the store other than `_hidden`, each after the first reached from an earlier one. */
  ghost predicate TemplatedOk(notes: Store, found: seq<NoteId>)
  {
    StoreValid(notes)
    && Distinct(found)
    && (forall x | x in found :: x in notes && x != HIDDEN)
    && FromEarlier(TemplatedSucc(notes), found)
  }

  /** Every note of the set that is not still being expanded has all its successors in the set. */
  ghost predicate TemplatedFinishedOutside(notes: Store, found: seq<NoteId>, open: set<NoteId>)
  {
    forall n | n in found && n !in open :: n in notes && TemplatedFinished(notes, found, n)
  }

  lemma TemplatedFinishedGrows(notes: Store, found: seq<NoteId>, found': seq<NoteId>, open: set<NoteId>, open': set<NoteId>)
    requires found <= found' && open <= open'
    requires forall x | x in found' && x !in found :: x in open'
    requires TemplatedFinishedOutside(notes, found, open)
    ensures TemplatedFinishedOutside(notes, found', open')
  {
    forall n | n in found' && n !in open'
      ensures n in notes && TemplatedFinished(notes, found', n)
    {
      assert n in found;
      forall c | c in TemplatedNext(notes, n) && c != HIDDEN ensures c in found' {
        PrefixMember(found, found', c);
      }
    }
  }

  /** Adding a note reached from a note of the set (or as the first) keeps the walk well formed. */
  lemma AddTemplated(notes: Store, found: seq<NoteId>, open: set<NoteId>, parent: Option<NoteId>, note: NoteId)
    requires TemplatedOk(notes, found) && TemplatedFinishedOutside(notes, found, open)
    requires note in notes && note !in found && note != HIDDEN
    requires parent.None? ==> found == []
    requires parent.Some? ==> parent.value in found && note in TemplatedSucc(notes)(parent.value)
    ensures TemplatedOk(notes, found + [note])
    ensures TemplatedFinishedOutside(notes, found + [note], open + {note})
  {
    if parent.Some? {
      var i := IndexOfMember(found, parent.value);
      FromEarlierAppend(TemplatedSucc(notes), found, note, i);
    }
    TemplatedFinishedGrows(notes, found, found + [note], open, open + {note});
  }

  /** The templated successors of a note of the store are notes of the store. */
  lemma TemplatedInside(notes: Store)
    requires StoreValid(notes)
    ensures Reach.Inside(TemplatedSucc(notes), notes.Keys)
  {
    forall x | x in notes ensures TemplatedSucc(notes)(x) <= notes.Keys {
      assert NoteValid(notes, x);
      InheritorsOfMembers(notes.Keys, notes[x].targetRelations);
    }
  }

  /** A walk with nothing left open is closed under the successors. */
  lemma TemplatedClosed(notes: Store, found: seq<NoteId>)
    requires TemplatedFinishedOutside(notes, found, {})
    ensures Reach.Closed(TemplatedSucc(notes), set x | x in found)
  {
    var succ := TemplatedSucc(notes);
    forall x, y | x in (set x | x in found) && y in succ(x) ensures y in (set x | x in found) {
      assert TemplatedFinished(notes, found, x);
    }
  }

  /** The state of one `getSubtreeNotesIncludingTemplated` call: its `set`. */
  /** What an earlier prefix of the walk found stays found once the walk goes on. */
  lemma StillFound(before: seq<NoteId>, after: seq<NoteId>, next: seq<NoteId>, i: nat, done: seq<NoteId>)
    requires before <= after && i <= |next|
    requires forall k | 0 <= k < i && next[k] != HIDDEN :: next[k] in before
    requires forall c | c in done && c != HIDDEN :: c in before
    ensures forall k | 0 <= k < i && next[k] != HIDDEN :: next[k] in after
    ensures forall c | c in done && c != HIDDEN :: c in after
  {
    forall k | 0 <= k < i && next[k] != HIDDEN ensures next[k] in after {
      PrefixMember(before, after, next[k]);
    }
    forall c | c in done && c != HIDDEN ensures c in after {
      PrefixMember(before, after, c);
    }
  }

  class TemplatedWalk {
    const notes: Store
    var found: seq<NoteId>

    constructor (notes: Store)
      ensures this.notes == notes && found == []
    {
      this.notes := notes;
      found := [];
    }

    ghost function Visited(): set<NoteId>
      reads this
    {
      set x | x in found
    }

    ghost predicate Valid()
      reads this
    {
      TemplatedOk(notes, found)
    }

    ghost predicate CompleteOutside(open: set<NoteId>)
      reads this
    {
      TemplatedFinishedOutside(notes, found, open)
    }

    /** `inner(note)`. */
    method Inner(note: NoteId, parent: Option<NoteId>, ghost open: set<NoteId>)
      requires Valid() && note in notes
      requires parent.None? ==> found == []
      requires parent.Some? ==> parent.value in found && note in TemplatedSucc(notes)(parent.value) + {HIDDEN}
      requires CompleteOutside(open)
      modifies this
      ensures Valid() && CompleteOutside(open)
      ensures old(found) <= found
      ensures note != HIDDEN ==> note in found
      ensures note == HIDDEN ==> found == old(found)
      ensures old(found) == [] && note != HIDDEN ==> found[0] == note
      decreases notes.Keys - Visited(), 3
    {
      if note in found || note == HIDDEN {
        return;
      }
      AddTemplated(notes, found, open, parent, note);
      ghost var before := found;
      found := found + [note];
      assert Visited() == (set x | x in before) + {note};
      ExpandTemplated(note, open);
      PrefixMember(before + [note], found, note);
      assert found[..|before| + 1] == before + [note];
    }

    /** After `note` is added: its children are walked, then the notes using it as a template. */
    method ExpandTemplated(note: NoteId, ghost open: set<NoteId>)
      requires Valid() && note in found && note in notes
      requires CompleteOutside(open + {note})
      modifies this
      ensures Valid() && CompleteOutside(open)
      ensures old(found) <= found
      decreases notes.Keys - Visited() + {note}, 2
    {
      ghost var children := notes[note].children;
      InnerEach(notes[note].children, note, open, []);
      InnerEach(InheritorsOf(notes.Keys, notes[note].targetRelations), note, open, children);
      assert TemplatedFinished(notes, found, note);
      TemplatedFinishedGrows(notes, found, found, open + {note}, open + {note});
    }

    /**
     * The loop over the children, and the loop over the template/inherit
     * target relations whose owner note exists; `done` lists what the
     * earlier loop already walked.
     */
    method InnerEach(next: seq<NoteId>, parent: NoteId, ghost open: set<NoteId>, ghost done: seq<NoteId>)
      requires Valid() && parent in found && parent in notes
      requires next == notes[parent].children || next == InheritorsOf(notes.Keys, notes[parent].targetRelations)
      requires CompleteOutside(open + {parent})
      requires forall c | c in done && c != HIDDEN :: c in found
      modifies this
      ensures Valid() && CompleteOutside(open + {parent})
      ensures old(found) <= found
      ensures forall c | (c in next || c in done) && c != HIDDEN :: c in found
      decreases notes.Keys - Visited() + {parent}, 1
    {
      var i := 0;
      while i < |next|
        invariant 0 <= i <= |next|
        invariant Valid() && CompleteOutside(open + {parent})
        invariant old(found) <= found
        invariant forall k | 0 <= k < i && next[k] != HIDDEN :: next[k] in found
        invariant forall c | c in done && c != HIDDEN :: c in found
      {
        InnerStep(next, parent, open, done, i);
        i := i + 1;
      }
      forall c | c in next && c != HIDDEN ensures c in found {
        var k := IndexOfMember(next, c);
      }
    }

    /** One turn of `InnerEach`: walk `next[i]`. */
    method InnerStep(next: seq<NoteId>, parent: NoteId, ghost open: set<NoteId>, ghost done: seq<NoteId>, i: nat)
      requires Valid() && parent in found && parent in notes && i < |next|
      requires next == notes[parent].children || next == InheritorsOf(notes.Keys, notes[parent].targetRelations)
      requires CompleteOutside(open + {parent})
      requires forall k | 0 <= k < i && next[k] != HIDDEN :: next[k] in found
      requires forall c | c in done && c != HIDDEN :: c in found
      modifies this
      ensures Valid() && CompleteOutside(open + {parent})
      ensures old(found) <= found
      ensures forall k | 0 <= k < i + 1 && next[k] != HIDDEN :: next[k] in found
      ensures forall c | c in done && c != HIDDEN :: c in found
      decreases notes.Keys - Visited() + {parent}, 0
    {
      assert next[i] in notes by {
        if next == notes[parent].children {
          assert NoteValid(notes, parent);
          assert next[i] in notes[parent].children;
        } else {
          InheritorsOfMembers(notes.Keys, notes[parent].targetRelations);
        }
      }
      ghost var foundBefore := found;
      Inner(next[i], Some(parent), open + {parent});
      StillFound(foundBefore, found, next, i, done);
    }
  }

  /**
   * `getSubtreeNotesIncludingTemplated`: the notes reached from `id` through
   * children and through the notes using a note as template or inherit
   * source, each once; `_hidden` and what lies only below it are not
   * reached.
   */
  method GetSubtreeNotesIncludingTemplated(notes: Store, id: NoteId) returns (r: seq<NoteId>)
    requires StoreValid(notes) && id in notes
    ensures Distinct(r) && forall x | x in r :: x in notes && x != HIDDEN
    ensures id == HIDDEN ==> r == []
    ensures id != HIDDEN ==> Reach.Generated(TemplatedSucc(notes), id, r)
    ensures id != HIDDEN ==> (set x | x in r) == Reach.Reachable(TemplatedSucc(notes), notes.Keys, id)
    ensures Reach.Closed(TemplatedSucc(notes), set x | x in r)
  {
    var walk := new TemplatedWalk(notes);
    walk.Inner(id, None, {});
    r := walk.found;
    if |r| > 0 {
      FromEarlierGenerated(TemplatedSucc(notes), r);
    }
    TemplatedClosed(notes, r);
    if id != HIDDEN {
      TemplatedInside(notes);
      Reach.GeneratedClosedIsReachable(TemplatedSucc(notes), notes.Keys, id, r);
    }
  }
}
