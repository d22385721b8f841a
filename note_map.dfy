/**
 * The note map and tree map of the API: the descendant counts shown on
 * each node, the relation neighbourhood of the map root, the notes and
 * links each map displays, and the count bump of search notes.
 * A note's resolved attributes (`getAttributes()`, owned and inherited)
 * are given as `attrs`; the subtree walk and the search results are
 * given as the notes and relationships they return.
 */
module NoteMap {
  import opened Common
  import opened NoteGraph
  import Subtree

  type Relationship = Subtree.Relationship

  const EXCLUDE_FROM_NOTE_MAP := "excludeFromNoteMap"
  const IMAGE_LINK := "imageLink"
  const SEARCH := "search"

  // ---------------------------------------------------------------------
  // buildDescendantCountMap
  // ---------------------------------------------------------------------

  /** The children of the note at `k` exist and rank below it. */
  ghost predicate ChildRankedAt(notes: Store, rank: map<NoteId, nat>, k: NoteId)
    requires k in notes
  {
    k in rank && forall c | c in notes[k].children :: c in notes && c in rank && rank[c] < rank[k]
  }

  /** The child links form a DAG: ranks strictly fall from parent to child. */
  ghost predicate ChildRanked(notes: Store, rank: map<NoteId, nat>)
  {
    forall k {:trigger ChildRankedAt(notes, rank, k)} | k in notes :: ChildRankedAt(notes, rank, k)
  }

  /** Some `imageLink` relation among the attributes points at `c`. */
  predicate HiddenImage(attrs: seq<Attribute>, c: NoteId)
  {
    exists a | a in attrs :: a.attrType == Relation && a.name == IMAGE_LINK && a.value == c
  }

  /** `getRelations('imageLink').map(rel => rel.value)`. */
  function ImageLinkTargets(attrs: seq<Attribute>): (r: seq<NoteId>)
    ensures forall c :: c in r <==> HiddenImage(attrs, c)
  {
    if |attrs| == 0 then []
    else
      var a := attrs[0];
      assert forall x :: x in attrs <==> x == a || x in attrs[1..];
      (if a.attrType == Relation && a.name == IMAGE_LINK then [a.value] else []) + ImageLinkTargets(attrs[1..])
  }

  /** The children a note counts directly: all but those its `imageLink` relations target. */
  function NonHiddenChildren(n: Note, attrs: seq<Attribute>): (r: seq<NoteId>)
    ensures forall c :: c in r <==> c in n.children && !HiddenImage(attrs, c)
  {
    var hidden := ImageLinkTargets(attrs);
    Filter(n.children, c => c !in hidden)
  }

  /**
   * The descendant count of a note: its children that are not inline
   * images, plus the descendant counts of all its children.
   */
  function DescendantCount(notes: Store, ghost rank: map<NoteId, nat>, attrs: NoteId -> seq<Attribute>,
                           id: NoteId): nat
    requires ChildRanked(notes, rank) && id in notes
    decreases rank[id], 1, 0
  {
    assert ChildRankedAt(notes, rank, id);
    |NonHiddenChildren(notes[id], attrs(id))| + ChildrenCount(notes, rank, attrs, notes[id].children, rank[id])
  }

  /** The sum of the descendant counts of `cs`. */
  function ChildrenCount(notes: Store, ghost rank: map<NoteId, nat>, attrs: NoteId -> seq<Attribute>,
                         cs: seq<NoteId>, ghost bound: nat): nat
    requires ChildRanked(notes, rank)
    requires forall c | c in cs :: c in notes && c in rank && rank[c] < bound
    decreases bound, 0, |cs|
  {
    if |cs| == 0 then 0
    else ChildrenCount(notes, rank, attrs, cs[..|cs| - 1], bound) + DescendantCount(notes, rank, attrs, cs[|cs| - 1])
  }

  /** The note and all its descendants. */
  ghost function Below(notes: Store, rank: map<NoteId, nat>, id: NoteId): (r: set<NoteId>)
    requires ChildRanked(notes, rank) && id in notes
    ensures id in r && r <= notes.Keys
    decreases rank[id], 1, 0
  {
    assert ChildRankedAt(notes, rank, id);
    {id} + BelowAll(notes, rank, notes[id].children, rank[id])
  }

  /** The notes `cs` and all their descendants. */
  ghost function BelowAll(notes: Store, rank: map<NoteId, nat>, cs: seq<NoteId>, bound: nat): (r: set<NoteId>)
    requires ChildRanked(notes, rank)
    requires forall c | c in cs :: c in notes && c in rank && rank[c] < bound
    ensures r <= notes.Keys
    decreases bound, 0, |cs|
  {
    if |cs| == 0 then {}
    else BelowAll(notes, rank, cs[..|cs| - 1], bound) + Below(notes, rank, cs[|cs| - 1])
  }

  /** Below a note lie the note itself and what lies below its children. */
  lemma {:induction false} BelowMeaning(notes: Store, rank: map<NoteId, nat>, id: NoteId, k: NoteId)
    requires ChildRanked(notes, rank) && id in notes
    ensures ChildRankedAt(notes, rank, id)
    ensures k in Below(notes, rank, id) <==> k == id || exists c | c in notes[id].children :: k in Below(notes, rank, c)
  {
    assert ChildRankedAt(notes, rank, id);
    BelowAllMeaning(notes, rank, notes[id].children, rank[id], k);
  }

  lemma {:induction false} BelowAllMeaning(notes: Store, rank: map<NoteId, nat>, cs: seq<NoteId>, bound: nat, k: NoteId)
    requires ChildRanked(notes, rank)
    requires forall c | c in cs :: c in notes && c in rank && rank[c] < bound
    ensures k in BelowAll(notes, rank, cs, bound) <==> exists c | c in cs :: k in Below(notes, rank, c)
    decreases |cs|
  {
    if |cs| > 0 {
      var init := cs[..|cs| - 1];
      var last := cs[|cs| - 1];
      BelowAllMeaning(notes, rank, init, bound, k);
      assert cs == init + [last];
      if exists c | c in cs :: k in Below(notes, rank, c) {
        var c :| c in cs && k in Below(notes, rank, c);
        assert c in init || c == last;
      }
      if exists c | c in init :: k in Below(notes, rank, c) {
        var c :| c in init && k in Below(notes, rank, c);
        assert c in cs;
      }
    }
  }

  lemma BelowAllStep(notes: Store, rank: map<NoteId, nat>, cs: seq<NoteId>, bound: nat, j: nat)
    requires ChildRanked(notes, rank)
    requires forall c | c in cs :: c in notes && c in rank && rank[c] < bound
    requires j < |cs|
    ensures BelowAll(notes, rank, cs[..j + 1], bound) == BelowAll(notes, rank, cs[..j], bound) + Below(notes, rank, cs[j])
  {
    assert cs[..j + 1][..j] == cs[..j];
  }

  lemma ChildrenCountStep(notes: Store, rank: map<NoteId, nat>, attrs: NoteId -> seq<Attribute>,
                          cs: seq<NoteId>, bound: nat, j: nat)
    requires ChildRanked(notes, rank)
    requires forall c | c in cs :: c in notes && c in rank && rank[c] < bound
    requires j < |cs|
    ensures cs[j] in notes
    ensures ChildrenCount(notes, rank, attrs, cs[..j + 1], bound)
            == ChildrenCount(notes, rank, attrs, cs[..j], bound) + DescendantCount(notes, rank, attrs, cs[j])
  {
    assert cs[j] in cs;
    assert cs[..j + 1][..j] == cs[..j];
  }

  /** The listed notes that exist and everything below them. */
  ghost function BelowListed(notes: Store, rank: map<NoteId, nat>, ids: seq<NoteId>): (r: set<NoteId>)
    requires ChildRanked(notes, rank)
    ensures r <= notes.Keys
  {
    if |ids| == 0 then {}
    else BelowListed(notes, rank, ids[..|ids| - 1])
         + (if ids[|ids| - 1] in notes then Below(notes, rank, ids[|ids| - 1]) else {})
  }

  /** What `buildDescendantCountMap` returns: the descendant count of every note at or below a listed note. */
  ghost function CountMap(notes: Store, rank: map<NoteId, nat>, attrs: NoteId -> seq<Attribute>,
                          ids: seq<NoteId>): map<NoteId, nat>
    requires ChildRanked(notes, rank)
  {
    map k | k in BelowListed(notes, rank, ids) :: DescendantCount(notes, rank, attrs, k)
  }

  /** A note counts at least its non-image children, and every descendant count of a child adds to it. */
  lemma {:induction false} ChildrenCountAtLeast(notes: Store, rank: map<NoteId, nat>, attrs: NoteId -> seq<Attribute>,
                                                 cs: seq<NoteId>, bound: nat, c: NoteId)
    requires ChildRanked(notes, rank)
    requires forall x | x in cs :: x in notes && x in rank && rank[x] < bound
    requires c in cs
    ensures ChildrenCount(notes, rank, attrs, cs, bound) >= DescendantCount(notes, rank, attrs, c)
    decreases |cs|
  {
    if cs[|cs| - 1] != c {
      assert c in cs[..|cs| - 1] by {
        var k :| 0 <= k < |cs| && cs[k] == c;
        assert cs[..|cs| - 1][k] == c;
      }
      ChildrenCountAtLeast(notes, rank, attrs, cs[..|cs| - 1], bound, c);
    }
  }

  /** A child's count is strictly below its parent's whenever the child itself is counted. */
  lemma ChildCountBelowParent(notes: Store, rank: map<NoteId, nat>, attrs: NoteId -> seq<Attribute>,
                              id: NoteId, c: NoteId)
    requires ChildRanked(notes, rank) && id in notes
    requires c in notes[id].children && !HiddenImage(attrs(id), c)
    ensures c in notes
    ensures DescendantCount(notes, rank, attrs, c) < DescendantCount(notes, rank, attrs, id)
  {
    assert ChildRankedAt(notes, rank, id);
    ChildrenCountAtLeast(notes, rank, attrs, notes[id].children, rank[id], c);
    assert c in NonHiddenChildren(notes[id], attrs(id));
  }

  /**
   * The memo invariant: every entry is for an existing note, and every
   * entry outside `open` holds the note's descendant count and has
   * everything below the note filed too.
   */
  ghost predicate MemoInv(notes: Store, rank: map<NoteId, nat>, attrs: NoteId -> seq<Attribute>,
                          m: map<NoteId, nat>, open: set<NoteId>)
  {
    ChildRanked(notes, rank)
    && forall k | k in m ::
         k in notes
         && (k !in open ==> m[k] == DescendantCount(notes, rank, attrs, k) && Below(notes, rank, k) <= m.Keys)
  }

  /** Filing a partial entry for a newly opened note keeps the invariant. */
  lemma MemoOpen(notes: Store, rank: map<NoteId, nat>, attrs: NoteId -> seq<Attribute>,
                 m: map<NoteId, nat>, open: set<NoteId>, noteId: NoteId, direct: nat)
    requires MemoInv(notes, rank, attrs, m, open) && noteId in notes
    ensures MemoInv(notes, rank, attrs, m[noteId := direct], open + {noteId})
  {
  }

  /** The open note's partial entry may change freely. */
  lemma MemoBump(notes: Store, rank: map<NoteId, nat>, attrs: NoteId -> seq<Attribute>,
                 m: map<NoteId, nat>, open: set<NoteId>, noteId: NoteId, v: nat)
    requires MemoInv(notes, rank, attrs, m, open) && noteId in open && noteId in m
    ensures MemoInv(notes, rank, attrs, m[noteId := v], open)
  {
    assert m[noteId := v].Keys == m.Keys;
  }

  /** A note whose entry is complete and whose descendants are filed can be closed. */
  lemma MemoClose(notes: Store, rank: map<NoteId, nat>, attrs: NoteId -> seq<Attribute>,
                  m: map<NoteId, nat>, open: set<NoteId>, noteId: NoteId)
    requires MemoInv(notes, rank, attrs, m, open + {noteId}) && noteId in m && noteId !in open
    requires m[noteId] == DescendantCount(notes, rank, attrs, noteId)
    requires Below(notes, rank, noteId) <= m.Keys
    ensures MemoInv(notes, rank, attrs, m, open)
  {
  }

  /**
   * The memo of `buildDescendantCountMap`. `getCount` files a note's
   * direct count before it walks the children, so while a note is open
   * (its children are being walked) its entry is partial.
   */
  class DescendantCounter {
    const notes: Store
    const attrs: NoteId -> seq<Attribute>
    ghost const rank: map<NoteId, nat>
    var noteIdToCountMap: map<NoteId, nat>

    ghost predicate MemoOk(open: set<NoteId>)
      reads this
    {
      MemoInv(notes, rank, attrs, noteIdToCountMap, open)
    }

    constructor (notes: Store, ghost rank: map<NoteId, nat>, attrs: NoteId -> seq<Attribute>)
      requires ChildRanked(notes, rank)
      ensures this.notes == notes && this.rank == rank && this.attrs == attrs
      ensures noteIdToCountMap == map[]
      ensures MemoOk({})
    {
      this.notes := notes;
      this.rank := rank;
      this.attrs := attrs;
      noteIdToCountMap := map[];
    }

    /**
     * `getCount`: the memoised count, else nothing for a missing note, else
     * the note's count computed afresh. The open notes are the callers
     * still walking their children; they rank above this note.
     */
    method GetCount(noteId: NoteId, ghost open: set<NoteId>) returns (r: Option<nat>)
      requires MemoOk(open)
      requires forall o | o in open :: o in noteIdToCountMap
      requires noteId in notes ==> noteId in rank && forall o | o in open :: o in rank && rank[noteId] < rank[o]
      modifies this
      ensures MemoOk(open)
      ensures noteIdToCountMap.Keys
              == old(noteIdToCountMap).Keys + if noteId in notes then Below(notes, rank, noteId) else {}
      ensures forall o | o in open :: noteIdToCountMap[o] == old(noteIdToCountMap)[o]
      ensures r == if noteId in notes then Some(DescendantCount(notes, rank, attrs, noteId)) else None
      decreases if noteId in rank then rank[noteId] else 0, 3
    {
      if noteId in noteIdToCountMap {
        return Some(noteIdToCountMap[noteId]);
      }
      if noteId !in notes {
        return None;
      }
      var count := CountNote(noteId, open);
      return Some(count);
    }

    /**
     * The body of `getCount` for a note not yet counted: file the number of
     * its non-image children, then add each child's count.
     */
    method CountNote(noteId: NoteId, ghost open: set<NoteId>) returns (count: nat)
      requires MemoOk(open)
      requires forall o | o in open :: o in noteIdToCountMap
      requires noteId in notes && noteId !in noteIdToCountMap
      requires noteId in rank && forall o | o in open :: o in rank && rank[noteId] < rank[o]
      modifies this
      ensures MemoOk(open)
      ensures noteIdToCountMap.Keys == old(noteIdToCountMap).Keys + Below(notes, rank, noteId)
      ensures forall o | o in open :: noteIdToCountMap[o] == old(noteIdToCountMap)[o]
      ensures noteId in noteIdToCountMap && count == noteIdToCountMap[noteId]
      ensures count == DescendantCount(notes, rank, attrs, noteId)
      decreases rank[noteId], 2
    {
      var note := notes[noteId];
      assert ChildRankedAt(notes, rank, noteId);
      var nonHiddenNoteIds := NonHiddenChildren(note, attrs(noteId));
      MemoOpen(notes, rank, attrs, noteIdToCountMap, open, noteId, |nonHiddenNoteIds|);
      noteIdToCountMap := noteIdToCountMap[noteId := |nonHiddenNoteIds|];
      CountChildren(noteId, open, |nonHiddenNoteIds|);
      assert noteId !in open;
      MemoClose(notes, rank, attrs, noteIdToCountMap, open, noteId);
      count := noteIdToCountMap[noteId];
    }

    /** The children loop of `getCount`: add every child's count to the open note's entry. */
    method CountChildren(noteId: NoteId, ghost open: set<NoteId>, ghost direct: nat)
      requires noteId in notes
      requires ChildRanked(notes, rank) && ChildRankedAt(notes, rank, noteId)
      requires forall o | o in open :: o in rank && rank[noteId] < rank[o]
      requires MemoOk(open + {noteId})
      requires forall o | o in open :: o in noteIdToCountMap
      requires noteId in noteIdToCountMap && noteIdToCountMap[noteId] == direct
      modifies this
      ensures MemoOk(open + {noteId})
      ensures noteIdToCountMap.Keys
              == old(noteIdToCountMap).Keys + BelowAll(notes, rank, notes[noteId].children, rank[noteId])
      ensures forall o | o in open :: noteIdToCountMap[o] == old(noteIdToCountMap)[o]
      ensures noteId in noteIdToCountMap
      ensures noteIdToCountMap[noteId]
              == direct + ChildrenCount(notes, rank, attrs, notes[noteId].children, rank[noteId])
      decreases rank[noteId], 1
    {
      var children := notes[noteId].children;
      assert children[..0] == [];
      for j := 0 to |children|
        invariant MemoOk(open + {noteId})
        invariant noteIdToCountMap.Keys
                  == old(noteIdToCountMap).Keys + BelowAll(notes, rank, children[..j], rank[noteId])
        invariant forall o | o in open :: noteIdToCountMap[o] == old(noteIdToCountMap)[o]
        invariant noteId in noteIdToCountMap
        invariant noteIdToCountMap[noteId] == direct + ChildrenCount(notes, rank, attrs, children[..j], rank[noteId])
      {
        AddChildCount(noteId, open, j, direct);
        BelowAllStep(notes, rank, children, rank[noteId], j);
      }
      assert children[..|children|] == children;
    }

    /** One turn of the `forEach` of `buildDescendantCountMap`: count the `i`-th listed note. */
    method CountListed(ids: seq<NoteId>, i: nat)
      requires i < |ids|
      requires MemoOk({}) && noteIdToCountMap.Keys == BelowListed(notes, rank, ids[..i])
      modifies this
      ensures MemoOk({}) && noteIdToCountMap.Keys == BelowListed(notes, rank, ids[..i + 1])
    {
      if ids[i] in notes {
        assert ChildRankedAt(notes, rank, ids[i]);
      }
      var _ := GetCount(ids[i], {});
      assert ids[..i + 1][..i] == ids[..i];
    }

    /** One turn of the children loop of `getCount`: add the `j`-th child's count to the open note's entry. */
    method AddChildCount(noteId: NoteId, ghost open: set<NoteId>, j: nat, ghost direct: nat)
      requires noteId in notes && j < |notes[noteId].children|
      requires ChildRanked(notes, rank) && ChildRankedAt(notes, rank, noteId)
      requires forall o | o in open :: o in rank && rank[noteId] < rank[o]
      requires MemoOk(open + {noteId})
      requires forall o | o in open :: o in noteIdToCountMap
      requires noteId in noteIdToCountMap
      requires noteIdToCountMap[noteId]
               == direct + ChildrenCount(notes, rank, attrs, notes[noteId].children[..j], rank[noteId])
      modifies this
      ensures MemoOk(open + {noteId})
      ensures noteIdToCountMap.Keys == old(noteIdToCountMap).Keys + Below(notes, rank, notes[noteId].children[j])
      ensures forall o | o in open :: noteIdToCountMap[o] == old(noteIdToCountMap)[o]
      ensures noteId in noteIdToCountMap
      ensures noteIdToCountMap[noteId]
              == direct + ChildrenCount(notes, rank, attrs, notes[noteId].children[..j + 1], rank[noteId])
      decreases rank[noteId], 0
    {
      var children := notes[noteId].children;
      var child := children[j];
      assert child in children;
      assert noteId !in open;
      var childCount := GetCount(child, open + {noteId});
      ghost var fetched := noteIdToCountMap;
      assert fetched[noteId] == old(noteIdToCountMap)[noteId];
      ChildrenCountStep(notes, rank, attrs, children, rank[noteId], j);
      MemoBump(notes, rank, attrs, fetched, open + {noteId}, noteId, fetched[noteId] + childCount.value);
      noteIdToCountMap := noteIdToCountMap[noteId := noteIdToCountMap[noteId] + childCount.value];
      assert noteIdToCountMap.Keys == fetched.Keys;
    }
  }

  /**
   * `buildDescendantCountMap`: a type error unless given an array; else the
   * memo after counting every listed note, which holds the descendant
   * count of exactly the listed notes and the notes below them.
   */
  method BuildDescendantCountMap(notes: Store, ghost rank: map<NoteId, nat>, attrs: NoteId -> seq<Attribute>,
                                 noteIdsToCount: Option<seq<NoteId>>) returns (r: Result<map<NoteId, nat>, string>)
    requires ChildRanked(notes, rank)
    ensures r.Err? <==> noteIdsToCount.None?
    ensures r.Err? ==> r.error == "noteIdsToCount: type error"
    ensures r.Ok? ==> r.value == CountMap(notes, rank, attrs, noteIdsToCount.value)
  {
    if noteIdsToCount.None? {
      return Err("noteIdsToCount: type error");
    }
    var ids := noteIdsToCount.value;
    var counter := new DescendantCounter(notes, rank, attrs);
    for i := 0 to |ids|
      invariant counter.notes == notes && counter.rank == rank && counter.attrs == attrs
      invariant counter.MemoOk({})
      invariant counter.noteIdToCountMap.Keys == BelowListed(notes, rank, ids[..i])
    {
      counter.CountListed(ids, i);
    }
    assert ids[..|ids|] == ids;
    MemoIsCountMap(notes, rank, attrs, counter.noteIdToCountMap, ids);
    return Ok(counter.noteIdToCountMap);
  }

  lemma MemoIsCountMap(notes: Store, rank: map<NoteId, nat>, attrs: NoteId -> seq<Attribute>,
                       m: map<NoteId, nat>, ids: seq<NoteId>)
    requires ChildRanked(notes, rank)
    requires m.Keys == BelowListed(notes, rank, ids)
    requires forall k | k in m :: k in notes && m[k] == DescendantCount(notes, rank, attrs, k)
    ensures m == CountMap(notes, rank, attrs, ids)
  {
  }

  /**
   * The count map has an entry for a note exactly when the note is listed
   * or lies below a listed note, and that entry is its descendant count.
   */
  lemma {:induction false} CountMapMeaning(notes: Store, rank: map<NoteId, nat>, attrs: NoteId -> seq<Attribute>,
                                           ids: seq<NoteId>, k: NoteId)
    requires ChildRanked(notes, rank)
    ensures k in CountMap(notes, rank, attrs, ids) <==>
              exists id | id in ids && id in notes :: k in Below(notes, rank, id)
    ensures k in CountMap(notes, rank, attrs, ids) ==>
              k in notes && CountMap(notes, rank, attrs, ids)[k] == DescendantCount(notes, rank, attrs, k)
    decreases |ids|
  {
    if |ids| > 0 {
      var init := ids[..|ids| - 1];
      var last := ids[|ids| - 1];
      CountMapMeaning(notes, rank, attrs, init, k);
      assert ids == init + [last];
      if exists id | id in ids && id in notes :: k in Below(notes, rank, id) {
        var id :| id in ids && id in notes && k in Below(notes, rank, id);
        assert id in init || id == last;
      }
      if exists id | id in init && id in notes :: k in Below(notes, rank, id) {
        var id :| id in init && id in notes && k in Below(notes, rank, id);
        assert id in ids;
      }
    }
  }

  // ---------------------------------------------------------------------
  // getNeighbors
  // ---------------------------------------------------------------------

  const IGNORED_RELATIONS: seq<string> := ["relationMapLink", "template", "inherit", "image", "ancestor"]

  /** `isIgnoredRelation`: structural relations are not neighbourhood links. */
  predicate IsIgnoredRelation(r: Attribute)
  {
    r.name in IGNORED_RELATIONS
  }

  /** The note carries a truthy `excludeFromNoteMap` label. */
  predicate Excluded(attrs: NoteId -> seq<Attribute>, id: NoteId)
  {
    IsLabelTruthy(attrs(id), EXCLUDE_FROM_NOTE_MAP)
  }

  /** The note a relation leads to: its target walking forward, its owner walking backward. */
  function FarEnd(r: Attribute, forward: bool): NoteId
  {
    if forward then r.value else r.noteId
  }

  /** The relation is followed: not ignored, and its far end exists and is not excluded. */
  predicate Followed(notes: Store, excluded: NoteId -> bool, r: Attribute, forward: bool)
  {
    !IsIgnoredRelation(r) && FarEnd(r, forward) in notes && !excluded(FarEnd(r, forward))
  }

  /**
   * What `getNeighbors(note, depth)` returns: nothing at depth 0, else the
   * far end of every followed relation (outgoing first, then incoming),
   * each followed by its own neighbours one level shallower. The walk sees
   * each note's `getRelations()` as `relations` and its truthy
   * `excludeFromNoteMap` label as `excluded`.
   */
  function Neighbors(notes: Store, relations: NoteId -> seq<Attribute>, excluded: NoteId -> bool,
                     id: NoteId, depth: nat): seq<NoteId>
    requires id in notes
    decreases depth, 1, 0
  {
    if depth == 0 then []
    else Linked(notes, relations, excluded, relations(id), true, depth)
         + Linked(notes, relations, excluded, notes[id].targetRelations, false, depth)
  }

  /** The ids one loop of `getNeighbors` pushes for the relations `rels`. */
  function Linked(notes: Store, relations: NoteId -> seq<Attribute>, excluded: NoteId -> bool,
                  rels: seq<Attribute>, forward: bool,
                  depth: nat): seq<NoteId>
    requires depth > 0
    decreases depth, 0, |rels|
  {
    if |rels| == 0 then []
    else
      var r := rels[|rels| - 1];
      Linked(notes, relations, excluded, rels[..|rels| - 1], forward, depth)
      + (if Followed(notes, excluded, r, forward)
         then [FarEnd(r, forward)] + Neighbors(notes, relations, excluded, FarEnd(r, forward), depth - 1)
         else [])
  }

  /** `y` is the far end of a relation among `rels` that is not ignored. */
  predicate LinkedBy(rels: seq<Attribute>, forward: bool, y: NoteId)
  {
    exists r | r in rels :: !IsIgnoredRelation(r) && FarEnd(r, forward) == y
  }

  /**
   * `y` is one hop from `id`: an existing note without a truthy
   * `excludeFromNoteMap`, at the far end of an outgoing or incoming
   * relation that is not ignored.
   */
  predicate Hop(notes: Store, relations: NoteId -> seq<Attribute>, excluded: NoteId -> bool, id: NoteId, y: NoteId)
    requires id in notes
  {
    y in notes && !excluded(y)
    && (LinkedBy(relations(id), true, y) || LinkedBy(notes[id].targetRelations, false, y))
  }

  /** `x` is `y` or one of its neighbours within `depth` hops. */
  predicate Near(notes: Store, relations: NoteId -> seq<Attribute>, excluded: NoteId -> bool,
                 y: NoteId, depth: nat, x: NoteId)
    requires y in notes
  {
    x == y || x in Neighbors(notes, relations, excluded, y, depth)
  }

  lemma LinkedBySnoc(rels: seq<Attribute>, forward: bool, y: NoteId)
    requires |rels| > 0
    ensures LinkedBy(rels, forward, y) <==>
              LinkedBy(rels[..|rels| - 1], forward, y)
              || (!IsIgnoredRelation(rels[|rels| - 1]) && FarEnd(rels[|rels| - 1], forward) == y)
  {
    var init := rels[..|rels| - 1];
    var r := rels[|rels| - 1];
    assert rels == init + [r];
    if LinkedBy(rels, forward, y) {
      var q :| q in rels && !IsIgnoredRelation(q) && FarEnd(q, forward) == y;
      assert q in init || q == r;
    }
    if LinkedBy(init, forward, y) {
      var q :| q in init && !IsIgnoredRelation(q) && FarEnd(q, forward) == y;
      assert q in rels;
    }
    assert r in rels;
  }

  lemma {:induction false} LinkedMembers(notes: Store, relations: NoteId -> seq<Attribute>, excluded: NoteId -> bool,
                                         rels: seq<Attribute>,
                                         forward: bool, depth: nat, x: NoteId)
    requires depth > 0
    ensures x in Linked(notes, relations, excluded, rels, forward, depth) <==>
              exists y | LinkedBy(rels, forward, y) && y in notes && !excluded(y) ::
                Near(notes, relations, excluded, y, depth - 1, x)
    decreases |rels|
  {
    if |rels| > 0 {
      LinkedMembers(notes, relations, excluded, rels[..|rels| - 1], forward, depth, x);
      forall y {
        LinkedBySnoc(rels, forward, y);
      }
    }
  }

  /**
   * The neighbourhood, stated without the loops: `x` is a neighbour of
   * `id` within `depth` hops exactly when `depth > 0` and some hop `y` of
   * `id` is `x` or has `x` as a neighbour within `depth - 1` hops.
   */
  lemma NeighborsMeaning(notes: Store, relations: NoteId -> seq<Attribute>, excluded: NoteId -> bool,
                         id: NoteId, depth: nat, x: NoteId)
    requires id in notes
    ensures x in Neighbors(notes, relations, excluded, id, depth) <==>
              depth > 0 && exists y | Hop(notes, relations, excluded, id, y) ::
                Near(notes, relations, excluded, y, depth - 1, x)
  {
    if depth > 0 {
      var out := relations(id);
      var inc := notes[id].targetRelations;
      LinkedMembers(notes, relations, excluded, out, true, depth, x);
      LinkedMembers(notes, relations, excluded, inc, false, depth, x);
      if x in Neighbors(notes, relations, excluded, id, depth) {
        if x in Linked(notes, relations, excluded, out, true, depth) {
          var y :| LinkedBy(out, true, y) && y in notes && !excluded(y)
                   && Near(notes, relations, excluded, y, depth - 1, x);
          assert Hop(notes, relations, excluded, id, y);
        } else {
          var y :| LinkedBy(inc, false, y) && y in notes && !excluded(y)
                   && Near(notes, relations, excluded, y, depth - 1, x);
          assert Hop(notes, relations, excluded, id, y);
        }
      }
      if exists y | Hop(notes, relations, excluded, id, y) :: Near(notes, relations, excluded, y, depth - 1, x) {
        var y :| Hop(notes, relations, excluded, id, y) && Near(notes, relations, excluded, y, depth - 1, x);
        if LinkedBy(out, true, y) {
          assert x in Linked(notes, relations, excluded, out, true, depth);
        } else {
          assert x in Linked(notes, relations, excluded, inc, false, depth);
        }
      }
    }
  }

  /** The hop through which a neighbour was reached. */
  lemma NeighborOrigin(notes: Store, relations: NoteId -> seq<Attribute>, excluded: NoteId -> bool, id: NoteId,
                       depth: nat, x: NoteId) returns (y: NoteId)
    requires id in notes
    requires x in Neighbors(notes, relations, excluded, id, depth)
    ensures depth > 0 && Hop(notes, relations, excluded, id, y) && Near(notes, relations, excluded, y, depth - 1, x)
  {
    NeighborsMeaning(notes, relations, excluded, id, depth, x);
    y :| Hop(notes, relations, excluded, id, y) && Near(notes, relations, excluded, y, depth - 1, x);
  }

  /** A note near a hop is a neighbour. */
  lemma NeighborIntro(notes: Store, relations: NoteId -> seq<Attribute>, excluded: NoteId -> bool, id: NoteId,
                      depth: nat, y: NoteId, x: NoteId)
    requires id in notes && depth > 0
    requires Hop(notes, relations, excluded, id, y) && Near(notes, relations, excluded, y, depth - 1, x)
    ensures x in Neighbors(notes, relations, excluded, id, depth)
  {
    NeighborsMeaning(notes, relations, excluded, id, depth, x);
  }

  /** Every neighbour exists and carries no truthy `excludeFromNoteMap`. */
  lemma {:induction false} NeighborsIncluded(notes: Store, relations: NoteId -> seq<Attribute>,
                                             excluded: NoteId -> bool,
                                             id: NoteId, depth: nat, x: NoteId)
    requires id in notes
    requires x in Neighbors(notes, relations, excluded, id, depth)
    ensures x in notes && !excluded(x)
    decreases depth
  {
    var y := NeighborOrigin(notes, relations, excluded, id, depth, x);
    if x != y {
      NeighborsIncluded(notes, relations, excluded, y, depth - 1, x);
    }
  }

  /** A deeper walk finds every note a shallower one does. */
  lemma {:induction false} NeighborsGrowWithDepth(notes: Store, relations: NoteId -> seq<Attribute>,
                                                  excluded: NoteId -> bool, id: NoteId, depth: nat, x: NoteId)
    requires id in notes
    requires x in Neighbors(notes, relations, excluded, id, depth)
    ensures x in Neighbors(notes, relations, excluded, id, depth + 1)
    decreases depth, 1
  {
    var y := NeighborOrigin(notes, relations, excluded, id, depth, x);
    NearGrows(notes, relations, excluded, y, depth - 1, x);
    NeighborIntro(notes, relations, excluded, id, depth + 1, y, x);
  }

  lemma {:induction false} NearGrows(notes: Store, relations: NoteId -> seq<Attribute>, excluded: NoteId -> bool,
                                     y: NoteId, depth: nat, x: NoteId)
    requires y in notes && Near(notes, relations, excluded, y, depth, x)
    ensures Near(notes, relations, excluded, y, depth + 1, x)
    decreases depth, 2
  {
    if x != y {
      NeighborsGrowWithDepth(notes, relations, excluded, y, depth, x);
    }
  }

  /**
   * `getNeighbors`: one loop over the note's relations pushing targets,
   * one over the relations pointing at it pushing owners; each pushed
   * note is followed by its own neighbours at `depth - 1`.
   */
  method GetNeighbors(notes: Store, relations: NoteId -> seq<Attribute>, excluded: NoteId -> bool,
                      id: NoteId, depth: nat)
    returns (retNoteIds: seq<NoteId>)
    requires id in notes
    ensures retNoteIds == Neighbors(notes, relations, excluded, id, depth)
    decreases depth, 1
  {
    if depth == 0 {
      return [];
    }
    var forward := PushLinked(notes, relations, excluded, relations(id), true, depth);
    var backward := PushLinked(notes, relations, excluded, notes[id].targetRelations, false, depth);
    retNoteIds := forward + backward;
  }

  /** One relation loop of `getNeighbors`. */
  method PushLinked(notes: Store, relations: NoteId -> seq<Attribute>, excluded: NoteId -> bool,
                    rels: seq<Attribute>, forward: bool, depth: nat)
    returns (retNoteIds: seq<NoteId>)
    requires depth > 0
    ensures retNoteIds == Linked(notes, relations, excluded, rels, forward, depth)
    decreases depth, 0
  {
    retNoteIds := [];
    for i := 0 to |rels|
      invariant retNoteIds == Linked(notes, relations, excluded, rels[..i], forward, depth)
    {
      var relation := rels[i];
      assert rels[..i + 1][..i] == rels[..i];
      if IsIgnoredRelation(relation) {
        continue;
      }
      var far := FarEnd(relation, forward);
      if far !in notes || excluded(far) {
        continue;
      }
      retNoteIds := retNoteIds + [far];
      var next := GetNeighbors(notes, relations, excluded, far, depth - 1);
      ghost var before := retNoteIds;
      for k := 0 to |next|
        invariant retNoteIds == before + next[..k]
      {
        retNoteIds := retNoteIds + [next[k]];
      }
      assert next[..|next|] == next;
    }
    assert rels[..|rels|] == rels;
  }

  // ---------------------------------------------------------------------
  // JavaScript `Set`s of note ids, kept in iteration order
  // ---------------------------------------------------------------------

  /** `set.add(x)`: appended unless already there. */
  function SetAdd(s: seq<NoteId>, x: NoteId): (r: seq<NoteId>)
    ensures Distinct(s) ==> Distinct(r)
    ensures forall y :: y in r <==> y in s || y == x
  {
    if x in s then s else s + [x]
  }

  /** Adding every element of `xs`, in order. */
  function SetAddAll(s: seq<NoteId>, xs: seq<NoteId>): (r: seq<NoteId>)
    ensures Distinct(s) ==> Distinct(r)
    ensures forall y :: y in r <==> y in s || y in xs
  {
    if |xs| == 0 then s
    else
      var init := xs[..|xs| - 1];
      assert xs == init + [xs[|xs| - 1]];
      SetAdd(SetAddAll(s, init), xs[|xs| - 1])
  }

  lemma SetAddAllSnoc(s: seq<NoteId>, xs: seq<NoteId>, x: NoteId)
    ensures SetAddAll(s, xs + [x]) == SetAdd(SetAddAll(s, xs), x)
  {
    assert (xs + [x])[..|xs|] == xs;
  }

  function NotEqual(x: NoteId): NoteId -> bool
  {
    y => y != x
  }

  /** `set.delete(x)`: the others, in order. */
  function SetDelete(s: seq<NoteId>, x: NoteId): (r: seq<NoteId>)
    ensures Distinct(s) ==> Distinct(r)
    ensures forall y :: y in r <==> y in s && y != x
  {
    FilterDistinct(s, NotEqual(x));
    Filter(s, NotEqual(x))
  }

  // ---------------------------------------------------------------------
  // getLinkMap
  // ---------------------------------------------------------------------

  /** `becca.getNoteOrThrow` on a missing note. */
  datatype MapError = NoteNotFound(noteId: NoteId)

  /** A link of the relation map: one relation between two shown notes. */
  datatype Link = Link(id: string, sourceNoteId: NoteId, targetNoteId: NoteId, name: string)

  /** The link map: the shown notes, their descendant counts and the links between them. */
  datatype LinkMap = LinkMap(noteIds: seq<NoteId>, noteIdToDescendantCountMap: map<NoteId, nat>, links: seq<Link>)

  /** Every note's `getRelations()`, from its resolved attributes. */
  function RelationsOf(attrs: NoteId -> seq<Attribute>): NoteId -> seq<Attribute>
  {
    id => Relations(attrs(id))
  }

  /** Every note's truthy `excludeFromNoteMap` label. */
  function ExcludedOf(attrs: NoteId -> seq<Attribute>): NoteId -> bool
  {
    id => Excluded(attrs, id)
  }

  /** The exclusion filter: everything when the root itself is excluded, else the notes that are not. */
  function ShownBy(attrs: NoteId -> seq<Attribute>, ignoreExcludeFromNoteMap: bool): NoteId -> bool
  {
    id => ignoreExcludeFromNoteMap || !Excluded(attrs, id)
  }

  /**
   * The notes of the link map, in `Set` order: the root's subtree (for a
   * search root, its search results) passed through the exclusion filter,
   * without a search root itself, then its neighbours three links out.
   */
  function LinkMapNoteIds(notes: Store, attrs: NoteId -> seq<Attribute>, rootId: NoteId,
                          unfilteredNoteIds: seq<NoteId>): seq<NoteId>
    requires rootId in notes
  {
    var kept := SetAddAll([], Filter(unfilteredNoteIds, ShownBy(attrs, Excluded(attrs, rootId))));
    var base := if notes[rootId].noteType == SEARCH then SetDelete(kept, rootId) else kept;
    SetAddAll(base, Neighbors(notes, RelationsOf(attrs), ExcludedOf(attrs), rootId, 3))
  }

  /**
   * A note is on the link map exactly when it passed the exclusion filter
   * and is not the search root, or when it is a neighbour of the root; no
   * note appears twice.
   */
  lemma LinkMapNoteIdsMembers(notes: Store, attrs: NoteId -> seq<Attribute>, rootId: NoteId,
                              unfilteredNoteIds: seq<NoteId>, x: NoteId)
    requires rootId in notes
    ensures Distinct(LinkMapNoteIds(notes, attrs, rootId, unfilteredNoteIds))
    ensures x in LinkMapNoteIds(notes, attrs, rootId, unfilteredNoteIds) <==>
              (x in unfilteredNoteIds && (Excluded(attrs, rootId) || !Excluded(attrs, x))
               && !(notes[rootId].noteType == SEARCH && x == rootId))
              || x in Neighbors(notes, RelationsOf(attrs), ExcludedOf(attrs), rootId, 3)
  {
    assert Distinct<NoteId>([]);
  }

  /**
   * Unless the root itself is excluded, no note with a truthy
   * `excludeFromNoteMap` label is on the link map.
   */
  lemma LinkMapHidesExcluded(notes: Store, attrs: NoteId -> seq<Attribute>, rootId: NoteId,
                             unfilteredNoteIds: seq<NoteId>, x: NoteId)
    requires rootId in notes && !Excluded(attrs, rootId)
    requires x in LinkMapNoteIds(notes, attrs, rootId, unfilteredNoteIds)
    ensures !Excluded(attrs, x)
  {
    LinkMapNoteIdsMembers(notes, attrs, rootId, unfilteredNoteIds, x);
    if x in Neighbors(notes, RelationsOf(attrs), ExcludedOf(attrs), rootId, 3) {
      NeighborsIncluded(notes, RelationsOf(attrs), ExcludedOf(attrs), rootId, 3, x);
    }
  }

  /** The link filter: a structural relation never, else both ends shown, and an image link only to a non-child. */
  predicate LinkKept(notes: Store, noteIds: seq<NoteId>, rel: Attribute)
  {
    rel.attrType == Relation
    && rel.name != "relationMapLink" && rel.name != "template" && rel.name != "inherit"
    && rel.noteId in noteIds && rel.value in noteIds
    && (rel.name == IMAGE_LINK ==> rel.noteId in notes && rel.value !in notes[rel.noteId].children)
  }

  /** A relation drawn as a link, identified by owner, name and target. */
  function ToLink(rel: Attribute): Link
  {
    Link(rel.noteId + "-" + rel.name + "-" + rel.value, rel.noteId, rel.value, rel.name)
  }

  /** The links of the link map: the kept relations among all attributes, in order. */
  function LinkMapLinks(notes: Store, noteIds: seq<NoteId>, rels: seq<Attribute>): (r: seq<Link>)
    ensures |r| <= |rels|
    ensures forall l | l in r :: l.sourceNoteId in noteIds && l.targetNoteId in noteIds
    ensures forall l | l in r :: l.name != "relationMapLink" && l.name != "template" && l.name != "inherit"
    ensures forall l | l in r && l.name == IMAGE_LINK ::
              l.sourceNoteId in notes && l.targetNoteId !in notes[l.sourceNoteId].children
  {
    if |rels| == 0 then []
    else
      var rel := rels[|rels| - 1];
      LinkMapLinks(notes, noteIds, rels[..|rels| - 1]) + if LinkKept(notes, noteIds, rel) then [ToLink(rel)] else []
  }

  /** Every kept relation is drawn as a link. */
  lemma {:induction false} LinkMapLinksComplete(notes: Store, noteIds: seq<NoteId>, rels: seq<Attribute>,
                                                rel: Attribute)
    requires rel in rels && LinkKept(notes, noteIds, rel)
    ensures ToLink(rel) in LinkMapLinks(notes, noteIds, rels)
    decreases |rels|
  {
    var init := rels[..|rels| - 1];
    assert rels == init + [rels[|rels| - 1]];
    if rel != rels[|rels| - 1] {
      LinkMapLinksComplete(notes, noteIds, init, rel);
    }
  }

  /** Every link is drawn from a kept relation. */
  lemma {:induction false} LinkOrigin(notes: Store, noteIds: seq<NoteId>, rels: seq<Attribute>, l: Link)
    returns (rel: Attribute)
    requires l in LinkMapLinks(notes, noteIds, rels)
    ensures rel in rels && LinkKept(notes, noteIds, rel) && l == ToLink(rel)
    decreases |rels|
  {
    var init := rels[..|rels| - 1];
    var last := rels[|rels| - 1];
    if LinkKept(notes, noteIds, last) && l == ToLink(last) {
      rel := last;
    } else {
      rel := LinkOrigin(notes, noteIds, init, l);
      assert rel in rels by {
        assert rels == init + [last];
      }
    }
  }

  /** `new Set(notes.filter(...).map(note => note.noteId))`: the shown notes, first occurrences in order. */
  method AddShown(shown: NoteId -> bool, unfilteredNoteIds: seq<NoteId>) returns (noteIds: seq<NoteId>)
    ensures noteIds == SetAddAll([], Filter(unfilteredNoteIds, shown))
  {
    noteIds := [];
    for i := 0 to |unfilteredNoteIds|
      invariant noteIds == SetAddAll([], Filter(unfilteredNoteIds[..i], shown))
    {
      var u := unfilteredNoteIds[i];
      ghost var done := Filter(unfilteredNoteIds[..i], shown);
      FilterPrefixStep(unfilteredNoteIds, i, shown);
      if shown(u) {
        assert Filter(unfilteredNoteIds[..i + 1], shown) == done + [u];
        SetAddAllSnoc([], done, u);
        noteIds := SetAdd(noteIds, u);
      } else {
        assert Filter(unfilteredNoteIds[..i + 1], shown) == done + [] == done;
      }
    }
    assert unfilteredNoteIds[..|unfilteredNoteIds|] == unfilteredNoteIds;
  }

  /** `noteIds.add(noteId)` for every `noteId` of `xs`, in order. */
  method AddAll(s: seq<NoteId>, xs: seq<NoteId>) returns (noteIds: seq<NoteId>)
    ensures noteIds == SetAddAll(s, xs)
  {
    noteIds := s;
    for k := 0 to |xs|
      invariant noteIds == SetAddAll(s, xs[..k])
    {
      assert xs[..k + 1] == xs[..k] + [xs[k]];
      SetAddAllSnoc(s, xs[..k], xs[k]);
      noteIds := SetAdd(noteIds, xs[k]);
    }
    assert xs[..|xs|] == xs;
  }

  /**
   * `getLinkMap`: the root's shown notes and neighbours, the descendant
   * count of each, and the links among them. The subtree (for a search
   * root, the search results) is passed in as `unfilteredNoteIds`, the
   * whole attribute table as `allAttributes`.
   */
  method GetLinkMap(notes: Store, attrs: NoteId -> seq<Attribute>, ghost rank: map<NoteId, nat>,
                    rootId: NoteId, unfilteredNoteIds: seq<NoteId>, allAttributes: seq<Attribute>)
    returns (r: Result<LinkMap, MapError>)
    requires ChildRanked(notes, rank)
    ensures r.Err? <==> rootId !in notes
    ensures r.Err? ==> r.error == NoteNotFound(rootId)
    ensures r.Ok? ==> r.value.noteIds == LinkMapNoteIds(notes, attrs, rootId, unfilteredNoteIds)
    ensures r.Ok? ==> r.value.noteIdToDescendantCountMap == CountMap(notes, rank, attrs, r.value.noteIds)
    ensures r.Ok? ==> r.value.links == LinkMapLinks(notes, r.value.noteIds, allAttributes)
  {
    if rootId !in notes {
      return Err(NoteNotFound(rootId));
    }
    var ignoreExcludeFromNoteMap := IsLabelTruthy(attrs(rootId), EXCLUDE_FROM_NOTE_MAP);
    var noteIds := AddShown(ShownBy(attrs, ignoreExcludeFromNoteMap), unfilteredNoteIds);
    if notes[rootId].noteType == SEARCH {
      noteIds := SetDelete(noteIds, rootId);
    }
    var neighbors := GetNeighbors(notes, RelationsOf(attrs), ExcludedOf(attrs), rootId, 3);
    noteIds := AddAll(noteIds, neighbors);
    var counts := BuildDescendantCountMap(notes, rank, attrs, Some(noteIds));
    return Ok(LinkMap(noteIds, counts.value, LinkMapLinks(notes, noteIds, allAttributes)));
  }

  // ---------------------------------------------------------------------
  // getTreeMap
  // ---------------------------------------------------------------------

  const IMAGE := "image"

  /** A link of the tree map: one parent/child relationship between two shown notes. */
  datatype TreeLink = TreeLink(sourceNoteId: NoteId, targetNoteId: NoteId)

  /** The tree map: the shown notes, descendant counts and parent/child links. */
  datatype TreeMap = TreeMap(notes: seq<NoteId>, noteIdToDescendantCountMap: map<NoteId, nat>, links: seq<TreeLink>)

  /** `getTargetRelations().find(rel => rel.name === 'imageLink')`. */
  function FirstImageLink(rels: seq<Attribute>): (r: Option<Attribute>)
    ensures r.Some? ==> r.value in rels && r.value.name == IMAGE_LINK
    ensures r.None? <==> forall a | a in rels :: a.name != IMAGE_LINK
  {
    if |rels| == 0 then None
    else if rels[0].name == IMAGE_LINK then Some(rels[0])
    else FirstImageLink(rels[1..])
  }

  /**
   * The image filter of the tree map: a childless image note is hidden when
   * its first `imageLink` comes from one of its parents, as it is then
   * drawn inside that parent.
   */
  predicate ImageShown(notes: Store, id: NoteId)
    requires id in notes
  {
    var n := notes[id];
    n.noteType != IMAGE || |n.children| > 0
    || match FirstImageLink(n.targetRelations)
       case None => true
       case Some(rel) => rel.noteId !in n.parents
  }

  /** Both filters of the tree map. */
  function TreeShownBy(notes: Store, attrs: NoteId -> seq<Attribute>, ignoreExcludeFromNoteMap: bool): NoteId -> bool
  {
    id => id in notes && (ignoreExcludeFromNoteMap || !Excluded(attrs, id)) && ImageShown(notes, id)
  }

  /** The note rows of the tree map: the subtree's notes that pass both filters, in subtree order. */
  function TreeMapRows(notes: Store, attrs: NoteId -> seq<Attribute>, rootId: NoteId, subtreeNoteIds: seq<NoteId>)
    : seq<NoteId>
  {
    Filter(subtreeNoteIds, TreeShownBy(notes, attrs, Excluded(attrs, rootId)))
  }

  function NonEmpty(id: NoteId): bool
  {
    id != ""
  }

  /** The `Set` of the rows' non-empty note ids. */
  function TreeMapNoteIds(notes: Store, attrs: NoteId -> seq<Attribute>, rootId: NoteId, subtreeNoteIds: seq<NoteId>)
    : seq<NoteId>
  {
    SetAddAll([], Filter(TreeMapRows(notes, attrs, rootId, subtreeNoteIds), NonEmpty))
  }

  /**
   * A row is shown exactly when its note is in the subtree, passes the
   * exclusion filter and is not an image drawn inside its parent.
   */
  lemma TreeMapRowsMembers(notes: Store, attrs: NoteId -> seq<Attribute>, rootId: NoteId,
                           subtreeNoteIds: seq<NoteId>, x: NoteId)
    ensures x in TreeMapRows(notes, attrs, rootId, subtreeNoteIds) <==>
              x in subtreeNoteIds && x in notes && (Excluded(attrs, rootId) || !Excluded(attrs, x))
              && ImageShown(notes, x)
    ensures x in TreeMapNoteIds(notes, attrs, rootId, subtreeNoteIds) <==>
              x in TreeMapRows(notes, attrs, rootId, subtreeNoteIds) && x != ""
    ensures Distinct(TreeMapNoteIds(notes, attrs, rootId, subtreeNoteIds))
  {
    assert Distinct<NoteId>([]);
  }

  /** The tree links: the relationships whose both ends are shown, in order. */
  function TreeLinks(noteIds: seq<NoteId>, relationships: seq<Relationship>): (r: seq<TreeLink>)
    ensures |r| <= |relationships|
    ensures forall l | l in r :: l.sourceNoteId in noteIds && l.targetNoteId in noteIds
                                 && Subtree.Relationship(l.sourceNoteId, l.targetNoteId) in relationships
  {
    if |relationships| == 0 then []
    else
      var rel := relationships[|relationships| - 1];
      var init := relationships[..|relationships| - 1];
      assert relationships == init + [rel];
      TreeLinks(noteIds, init)
      + if rel.parentNoteId in noteIds && rel.childNoteId in noteIds then [TreeLink(rel.parentNoteId, rel.childNoteId)]
        else []
  }

  /** Every relationship between two shown notes is drawn. */
  lemma {:induction false} TreeLinksComplete(noteIds: seq<NoteId>, relationships: seq<Relationship>, rel: Relationship)
    requires rel in relationships && rel.parentNoteId in noteIds && rel.childNoteId in noteIds
    ensures TreeLink(rel.parentNoteId, rel.childNoteId) in TreeLinks(noteIds, relationships)
    decreases |relationships|
  {
    var init := relationships[..|relationships| - 1];
    assert relationships == init + [relationships[|relationships| - 1]];
    if rel != relationships[|relationships| - 1] {
      TreeLinksComplete(noteIds, init, rel);
    }
  }

  /** The links loop of `getTreeMap`. */
  method CollectTreeLinks(noteIds: seq<NoteId>, relationships: seq<Relationship>) returns (links: seq<TreeLink>)
    ensures links == TreeLinks(noteIds, relationships)
  {
    links := [];
    for i := 0 to |relationships|
      invariant links == TreeLinks(noteIds, relationships[..i])
    {
      var rel := relationships[i];
      assert relationships[..i + 1][..i] == relationships[..i];
      if rel.parentNoteId !in noteIds || rel.childNoteId !in noteIds {
        continue;
      }
      links := links + [TreeLink(rel.parentNoteId, rel.childNoteId)];
    }
    assert relationships[..|relationships|] == relationships;
  }

  /** `m[k] || 0`. */
  function OrZero(m: map<NoteId, nat>, k: NoteId): nat
  {
    if k in m then m[k] else 0
  }

  /** `m[k] || 1`: a missing or zero count reads as 1. */
  function OrOne(m: map<NoteId, nat>, k: NoteId): (r: nat)
    ensures r >= 1
    ensures k in m && m[k] > 0 ==> r == m[k]
    ensures !(k in m && m[k] > 0) ==> r == 1
  {
    if k in m && m[k] != 0 then m[k] else 1
  }

  predicate IsSearchNote(notes: Store, id: NoteId)
  {
    id in notes && notes[id].noteType == SEARCH
  }

  /** One relationship of `updateDescendantCountMapForSearch`. */
  function SearchStep(notes: Store, m: map<NoteId, nat>, rel: Relationship): map<NoteId, nat>
  {
    if !IsSearchNote(notes, rel.parentNoteId) then m
    else
      var p := rel.parentNoteId;
      var m1 := m[p := OrZero(m, p)];
      m1[p := m1[p] + OrOne(m1, rel.childNoteId)]
  }

  /** The counts after `updateDescendantCountMapForSearch` has seen every relationship. */
  function SearchCounts(notes: Store, m: map<NoteId, nat>, relationships: seq<Relationship>): map<NoteId, nat>
  {
    if |relationships| == 0 then m
    else SearchStep(notes, SearchCounts(notes, m, relationships[..|relationships| - 1]),
                    relationships[|relationships| - 1])
  }

  /** How many relationships have `p` as parent. */
  function ParentCount(relationships: seq<Relationship>, p: NoteId): nat
  {
    if |relationships| == 0 then 0
    else ParentCount(relationships[..|relationships| - 1], p)
         + if relationships[|relationships| - 1].parentNoteId == p then 1 else 0
  }

  /** The search parents of the relationships gain an entry; no other key appears. */
  lemma {:induction false} SearchCountsKeys(notes: Store, m: map<NoteId, nat>, relationships: seq<Relationship>)
    ensures SearchCounts(notes, m, relationships).Keys
            == m.Keys + set rel | rel in relationships && IsSearchNote(notes, rel.parentNoteId) :: rel.parentNoteId
    decreases |relationships|
  {
    if |relationships| > 0 {
      var init := relationships[..|relationships| - 1];
      SearchCountsKeys(notes, m, init);
      assert relationships == init + [relationships[|relationships| - 1]];
    }
  }

  /**
   * Only search parents change: every other note keeps its count, and a
   * search note's count grows by at least one per relationship it is the
   * parent of, since a missing or zero child count adds 1.
   */
  lemma {:induction false} SearchCountsGrow(notes: Store, m: map<NoteId, nat>, relationships: seq<Relationship>,
                                            k: NoteId)
    ensures !IsSearchNote(notes, k) && k in m ==>
              k in SearchCounts(notes, m, relationships) && SearchCounts(notes, m, relationships)[k] == m[k]
    ensures IsSearchNote(notes, k) ==>
              OrZero(SearchCounts(notes, m, relationships), k) >= OrZero(m, k) + ParentCount(relationships, k)
    decreases |relationships|
  {
    if |relationships| > 0 {
      SearchCountsGrow(notes, m, relationships[..|relationships| - 1], k);
    }
  }

  /** `updateDescendantCountMapForSearch`: add each search parent's children's counts to it. */
  method UpdateDescendantCountMapForSearch(notes: Store, noteIdToDescendantCountMap: map<NoteId, nat>,
                                           relationships: seq<Relationship>)
    returns (counts: map<NoteId, nat>)
    ensures counts == SearchCounts(notes, noteIdToDescendantCountMap, relationships)
  {
    counts := noteIdToDescendantCountMap;
    for i := 0 to |relationships|
      invariant counts == SearchCounts(notes, noteIdToDescendantCountMap, relationships[..i])
    {
      var rel := relationships[i];
      assert relationships[..i + 1][..i] == relationships[..i];
      if rel.parentNoteId !in notes || notes[rel.parentNoteId].noteType != SEARCH {
        continue;
      }
      var parentNoteId := rel.parentNoteId;
      counts := counts[parentNoteId := if parentNoteId in counts then counts[parentNoteId] else 0];
      var add := if rel.childNoteId in counts && counts[rel.childNoteId] != 0 then counts[rel.childNoteId] else 1;
      counts := counts[parentNoteId := counts[parentNoteId] + add];
    }
    assert relationships[..|relationships|] == relationships;
  }

  /**
   * `getTreeMap`: the root's subtree through both filters, the parent/child
   * links among the shown notes, and their descendant counts with search
   * notes credited for their results. The subtree is passed in as its
   * notes and relationships.
   */
  method GetTreeMap(notes: Store, attrs: NoteId -> seq<Attribute>, ghost rank: map<NoteId, nat>, rootId: NoteId,
                    subtreeNoteIds: seq<NoteId>, relationships: seq<Relationship>)
    returns (r: Result<TreeMap, MapError>)
    requires ChildRanked(notes, rank)
    ensures r.Err? <==> rootId !in notes
    ensures r.Err? ==> r.error == NoteNotFound(rootId)
    ensures r.Ok? ==> r.value.notes == TreeMapRows(notes, attrs, rootId, subtreeNoteIds)
    ensures r.Ok? ==> r.value.links == TreeLinks(TreeMapNoteIds(notes, attrs, rootId, subtreeNoteIds), relationships)
    ensures r.Ok? ==> r.value.noteIdToDescendantCountMap
                      == SearchCounts(notes, CountMap(notes, rank, attrs, TreeMapNoteIds(notes, attrs, rootId, subtreeNoteIds)),
                                      relationships)
  {
    if rootId !in notes {
      return Err(NoteNotFound(rootId));
    }
    var ignoreExcludeFromNoteMap := IsLabelTruthy(attrs(rootId), EXCLUDE_FROM_NOTE_MAP);
    var rows := Filter(subtreeNoteIds, TreeShownBy(notes, attrs, ignoreExcludeFromNoteMap));
    var noteIds := AddShown(NonEmpty, rows);
    var links := CollectTreeLinks(noteIds, relationships);
    var counts := BuildDescendantCountMap(notes, rank, attrs, Some(noteIds));
    var updated := UpdateDescendantCountMapForSearch(notes, counts.value, relationships);
    return Ok(TreeMap(rows, updated, links));
  }
}
