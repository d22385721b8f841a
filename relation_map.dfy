/**
 * The relation map route: for the notes shown on a relation map, their
 * titles, the relations drawn between them (filtered by the map note's
 * `displayRelations` and `hideRelations` labels), and the inverse-relation
 * names declared by their relation definitions.
 *
 * The SQL lookup of the notes that exist among the requested ids is a
 * parameter (`foundNoteIds`), as are `isAutoLink`, a definition's defined
 * name and its parsed `inverseRelation` (the empty string when it has
 * none).
 */
module RelationMap {
  import opened Common
  import opened NoteGraph
  import NoteMap

  type MapError = NoteMap.MapError

  const DISPLAY_RELATIONS := "displayRelations"
  const HIDE_RELATIONS := "hideRelations"
  const INTERNAL_LINK := "internalLink"

  /** A relation as the map draws it. */
  datatype RelationRow = RelationRow(attributeId: string, sourceNoteId: NoteId, targetNoteId: NoteId, name: string)

  /** The response: note titles, drawn relations, and relation name to inverse name. */
  datatype RelationMapData = RelationMapData(noteTitles: map<NoteId, string>, relations: seq<RelationRow>,
                                             inverseRelations: map<string, string>)

  /** Only `internalLink` is its own inverse before any definition is seen. */
  const INITIAL_INVERSE: map<string, string> := map[INTERNAL_LINK := INTERNAL_LINK]

  /** The response when nothing is asked for. */
  const EMPTY_RESPONSE := RelationMapData(map[], [], INITIAL_INVERSE)

  // ---------------------------------------------------------------------
  // The map note's relation-name lists
  // ---------------------------------------------------------------------

  function TrimAll(tokens: seq<string>): (r: seq<string>)
    ensures |r| == |tokens|
    ensures forall k | 0 <= k < |r| :: r[k] == Trim(tokens[k])
  {
    if |tokens| == 0 then [] else [Trim(tokens[0])] + TrimAll(tokens[1..])
  }

  /** A label value read as a comma-separated list of names: empty when missing or blank. */
  function NameList(value: Option<string>): (r: seq<string>)
    ensures !Truthy(value) ==> r == []
    ensures Truthy(value) ==> |r| == CountChar(value.value, ',') + 1
  {
    if !Truthy(value) then []
    else
      var tokens := Split(value.value, ',');
      SplitLength(value.value, ',');
      TrimAll(tokens)
  }

  // ---------------------------------------------------------------------
  // Relations drawn
  // ---------------------------------------------------------------------

  /**
   * The three relation filters: an automatic link only when its name is
   * displayed; the displayed list when there is one, else not hidden; and a
   * target among the requested notes.
   */
  predicate Drawn(rel: Attribute, displayed: seq<string>, hidden: seq<string>, noteIds: seq<NoteId>,
                  isAutoLink: Attribute -> bool)
  {
    (!isAutoLink(rel) || rel.name in displayed)
    && (|displayed| > 0 ==> rel.name in displayed)
    && (|displayed| == 0 ==> rel.name !in hidden)
    && rel.value in noteIds
  }

  function ToRow(rel: Attribute): RelationRow
  {
    RelationRow(rel.attributeId, rel.noteId, rel.value, rel.name)
  }

  /** One note's drawn relations, in order. */
  function DrawnRelations(rels: seq<Attribute>, displayed: seq<string>, hidden: seq<string>, noteIds: seq<NoteId>,
                          isAutoLink: Attribute -> bool): (r: seq<RelationRow>)
    ensures |r| <= |rels|
    ensures forall row | row in r :: row.targetNoteId in noteIds
    ensures forall row | row in r :: (|displayed| > 0 ==> row.name in displayed) && (|displayed| == 0 ==> row.name !in hidden)
  {
    if |rels| == 0 then []
    else
      (if Drawn(rels[0], displayed, hidden, noteIds, isAutoLink) then [ToRow(rels[0])] else [])
      + DrawnRelations(rels[1..], displayed, hidden, noteIds, isAutoLink)
  }

  /** A row is drawn exactly when it comes from a relation that passes the filters. */
  lemma {:induction false} DrawnRelationsOrigin(rels: seq<Attribute>, displayed: seq<string>, hidden: seq<string>,
                                                noteIds: seq<NoteId>, isAutoLink: Attribute -> bool,
                                                row: RelationRow)
    returns (rel: Attribute)
    requires row in DrawnRelations(rels, displayed, hidden, noteIds, isAutoLink)
    ensures rel in rels && Drawn(rel, displayed, hidden, noteIds, isAutoLink) && row == ToRow(rel)
    decreases |rels|
  {
    if Drawn(rels[0], displayed, hidden, noteIds, isAutoLink) && row == ToRow(rels[0]) {
      rel := rels[0];
    } else {
      rel := DrawnRelationsOrigin(rels[1..], displayed, hidden, noteIds, isAutoLink, row);
      assert rel in rels by {
        assert rels == [rels[0]] + rels[1..];
      }
    }
  }

  lemma {:induction false} DrawnRelationsComplete(rels: seq<Attribute>, displayed: seq<string>, hidden: seq<string>,
                                                  noteIds: seq<NoteId>, isAutoLink: Attribute -> bool,
                                                  rel: Attribute)
    requires rel in rels && Drawn(rel, displayed, hidden, noteIds, isAutoLink)
    ensures ToRow(rel) in DrawnRelations(rels, displayed, hidden, noteIds, isAutoLink)
    decreases |rels|
  {
    if rel != rels[0] {
      DrawnRelationsComplete(rels[1..], displayed, hidden, noteIds, isAutoLink, rel);
    }
  }

  // ---------------------------------------------------------------------
  // Inverse relations
  // ---------------------------------------------------------------------

  /** `getRelationDefinitions()`: the labels named `relation:...`, in order. */
  function RelationDefinitions(attrs: seq<Attribute>): (r: seq<Attribute>)
    ensures forall d :: d in r <==> d in attrs && d.attrType == Label && StartsWith(d.name, "relation:")
  {
    if |attrs| == 0 then []
    else
      (if attrs[0].attrType == Label && StartsWith(attrs[0].name, "relation:") then [attrs[0]] else [])
      + RelationDefinitions(attrs[1..])
  }

  /** One definition: when it names an inverse, each name maps to the other. */
  function InverseStep(inv: map<string, string>, d: Attribute, definedName: Attribute -> string,
                       inverseOf: Attribute -> string): map<string, string>
  {
    if inverseOf(d) == "" then inv
    else inv[definedName(d) := inverseOf(d)][inverseOf(d) := definedName(d)]
  }

  /** The inverse map after every definition of `defs`, in order. */
  function InverseAll(inv: map<string, string>, defs: seq<Attribute>, definedName: Attribute -> string,
                      inverseOf: Attribute -> string): map<string, string>
  {
    if |defs| == 0 then inv
    else InverseStep(InverseAll(inv, defs[..|defs| - 1], definedName, inverseOf), defs[|defs| - 1],
                     definedName, inverseOf)
  }

  lemma {:induction false} InverseAllConcat(inv: map<string, string>, a: seq<Attribute>, b: seq<Attribute>,
                                            definedName: Attribute -> string, inverseOf: Attribute -> string)
    ensures InverseAll(inv, a + b, definedName, inverseOf)
            == InverseAll(InverseAll(inv, a, definedName, inverseOf), b, definedName, inverseOf)
    decreases |b|
  {
    if |b| == 0 {
      assert a + b == a;
    } else {
      InverseAllConcat(inv, a, b[..|b| - 1], definedName, inverseOf);
      assert (a + b)[..|a + b| - 1] == a + b[..|b| - 1];
    }
  }

  /** The entry for `k` is one direction of the definition's pair. */
  predicate InversePair(d: Attribute, k: string, v: string, definedName: Attribute -> string,
                        inverseOf: Attribute -> string)
  {
    inverseOf(d) != ""
    && ((k == definedName(d) && v == inverseOf(d)) || (k == inverseOf(d) && v == definedName(d)))
  }

  /** Both names of every definition with an inverse are keys. */
  lemma {:induction false} InverseKeysComplete(inv: map<string, string>, defs: seq<Attribute>,
                                               definedName: Attribute -> string, inverseOf: Attribute -> string,
                                               d: Attribute)
    requires d in defs && inverseOf(d) != ""
    ensures definedName(d) in InverseAll(inv, defs, definedName, inverseOf)
    ensures inverseOf(d) in InverseAll(inv, defs, definedName, inverseOf)
    decreases |defs|
  {
    var init := defs[..|defs| - 1];
    assert defs == init + [defs[|defs| - 1]];
    if d != defs[|defs| - 1] {
      InverseKeysComplete(inv, init, definedName, inverseOf, d);
    }
  }

  /**
   * Every entry is either an initial one left untouched or one direction
   * of some definition's pair.
   */
  lemma {:induction false} InverseEntryOrigin(inv: map<string, string>, defs: seq<Attribute>,
                                              definedName: Attribute -> string, inverseOf: Attribute -> string,
                                              k: string)
    returns (d: Option<Attribute>)
    requires k in InverseAll(inv, defs, definedName, inverseOf)
    ensures d.None? ==> k in inv && InverseAll(inv, defs, definedName, inverseOf)[k] == inv[k]
    ensures d.Some? ==> d.value in defs
                        && InversePair(d.value, k, InverseAll(inv, defs, definedName, inverseOf)[k], definedName, inverseOf)
    decreases |defs|
  {
    if |defs| == 0 {
      return None;
    }
    var init := defs[..|defs| - 1];
    var last := defs[|defs| - 1];
    assert defs == init + [last];
    if inverseOf(last) != "" && (k == definedName(last) || k == inverseOf(last)) {
      return Some(last);
    }
    d := InverseEntryOrigin(inv, init, definedName, inverseOf, k);
  }

  /** The last definition of a name with an inverse decides both of its entries. */
  lemma LastDefinitionWins(inv: map<string, string>, defs: seq<Attribute>, d: Attribute,
                           definedName: Attribute -> string, inverseOf: Attribute -> string)
    requires |defs| > 0 && d == defs[|defs| - 1] && inverseOf(d) != ""
    ensures InverseAll(inv, defs, definedName, inverseOf)[inverseOf(d)] == definedName(d)
    ensures inverseOf(d) != definedName(d) ==>
              InverseAll(inv, defs, definedName, inverseOf)[definedName(d)] == inverseOf(d)
  {
  }

  // ---------------------------------------------------------------------
  // getRelationMap
  // ---------------------------------------------------------------------

  /** The titles of the found notes. */
  function Titles(notes: Store, found: seq<NoteId>): (r: map<NoteId, string>)
    requires forall id | id in found :: id in notes
    ensures forall id :: id in r <==> id in found
    ensures forall id | id in r :: r[id] == notes[id].title
  {
    if |found| == 0 then map[]
    else
      var init := found[..|found| - 1];
      assert found == init + [found[|found| - 1]];
      Titles(notes, init)[found[|found| - 1] := notes[found[|found| - 1]].title]
  }

  /** The relations drawn for the found notes, note by note. */
  function AllDrawn(attrs: NoteId -> seq<Attribute>, found: seq<NoteId>, displayed: seq<string>, hidden: seq<string>,
                    noteIds: seq<NoteId>, isAutoLink: Attribute -> bool): (r: seq<RelationRow>)
    ensures forall row | row in r :: row.targetNoteId in noteIds
    ensures forall row | row in r :: (|displayed| > 0 ==> row.name in displayed) && (|displayed| == 0 ==> row.name !in hidden)
  {
    if |found| == 0 then []
    else AllDrawn(attrs, found[..|found| - 1], displayed, hidden, noteIds, isAutoLink)
         + DrawnRelations(Relations(attrs(found[|found| - 1])), displayed, hidden, noteIds, isAutoLink)
  }

  /** Every relation definition of the found notes, note by note. */
  function AllDefinitions(attrs: NoteId -> seq<Attribute>, found: seq<NoteId>): seq<Attribute>
  {
    if |found| == 0 then []
    else AllDefinitions(attrs, found[..|found| - 1]) + RelationDefinitions(attrs(found[|found| - 1]))
  }

  /** A definition gathered for the map belongs to a found note. */
  lemma {:induction false} DefinitionOwner(attrs: NoteId -> seq<Attribute>, found: seq<NoteId>, d: Attribute)
    returns (id: NoteId)
    requires d in AllDefinitions(attrs, found)
    ensures id in found && d in RelationDefinitions(attrs(id))
    decreases |found|
  {
    var init := found[..|found| - 1];
    var last := found[|found| - 1];
    assert found == init + [last];
    if d in RelationDefinitions(attrs(last)) {
      return last;
    }
    id := DefinitionOwner(attrs, init, d);
  }

  /** What `getRelationMap` answers once the map note is found. */
  function RelationMapOf(notes: Store, attrs: NoteId -> seq<Attribute>, mapNoteId: NoteId, noteIds: seq<NoteId>,
                         found: seq<NoteId>, isAutoLink: Attribute -> bool, definedName: Attribute -> string,
                         inverseOf: Attribute -> string): RelationMapData
    requires mapNoteId in notes && forall id | id in found :: id in notes
  {
    var displayed := NameList(AttributeValue(attrs(mapNoteId), Label, DISPLAY_RELATIONS));
    var hidden := NameList(AttributeValue(attrs(mapNoteId), Label, HIDE_RELATIONS));
    RelationMapData(Titles(notes, found), AllDrawn(attrs, found, displayed, hidden, noteIds, isAutoLink),
                    InverseAll(INITIAL_INVERSE, AllDefinitions(attrs, found), definedName, inverseOf))
  }

  /**
   * Every inverse entry is `internalLink` to itself, untouched, or one
   * direction of a pair declared by a relation definition of a found note.
   */
  lemma RelationMapInverseOrigin(notes: Store, attrs: NoteId -> seq<Attribute>, mapNoteId: NoteId,
                                 noteIds: seq<NoteId>, found: seq<NoteId>, isAutoLink: Attribute -> bool,
                                 definedName: Attribute -> string, inverseOf: Attribute -> string, k: string)
    returns (owner: Option<(NoteId, Attribute)>)
    requires mapNoteId in notes && forall id | id in found :: id in notes
    requires k in RelationMapOf(notes, attrs, mapNoteId, noteIds, found, isAutoLink, definedName, inverseOf).inverseRelations
    ensures var inv := RelationMapOf(notes, attrs, mapNoteId, noteIds, found, isAutoLink, definedName, inverseOf).inverseRelations;
            owner.None? ==> k == INTERNAL_LINK && inv[k] == INTERNAL_LINK
    ensures var inv := RelationMapOf(notes, attrs, mapNoteId, noteIds, found, isAutoLink, definedName, inverseOf).inverseRelations;
            owner.Some? ==> owner.value.0 in found && owner.value.1 in RelationDefinitions(attrs(owner.value.0))
                            && InversePair(owner.value.1, k, inv[k], definedName, inverseOf)
  {
    var d := InverseEntryOrigin(INITIAL_INVERSE, AllDefinitions(attrs, found), definedName, inverseOf, k);
    if d.None? {
      return None;
    }
    var id := DefinitionOwner(attrs, found, d.value);
    return Some((id, d.value));
  }

  /**
   * `getRelationMap`: nothing but the `internalLink` inverse unless a
   * non-empty array of note ids is asked for; else the map note must
   * exist, and every found note contributes its title, its drawn
   * relations and its inverse-relation definitions.
   */
  method GetRelationMap(notes: Store, attrs: NoteId -> seq<Attribute>, relationMapNoteId: NoteId,
                        noteIds: Option<seq<NoteId>>, foundNoteIds: seq<NoteId>, isAutoLink: Attribute -> bool,
                        definedName: Attribute -> string, inverseOf: Attribute -> string)
    returns (r: Result<RelationMapData, MapError>)
    requires noteIds.Some? ==> forall id | id in foundNoteIds :: id in noteIds.value && id in notes
    ensures noteIds.None? || noteIds.value == [] ==> r == Ok(EMPTY_RESPONSE)
    ensures noteIds.Some? && noteIds.value != [] && relationMapNoteId !in notes ==>
              r == Err(NoteMap.NoteNotFound(relationMapNoteId))
    ensures noteIds.Some? && noteIds.value != [] && relationMapNoteId in notes ==>
              r == Ok(RelationMapOf(notes, attrs, relationMapNoteId, noteIds.value, foundNoteIds,
                                    isAutoLink, definedName, inverseOf))
  {
    if noteIds.None? || |noteIds.value| == 0 {
      return Ok(EMPTY_RESPONSE);
    }
    var ids := noteIds.value;
    if relationMapNoteId !in notes {
      return Err(NoteMap.NoteNotFound(relationMapNoteId));
    }
    var displayRelations := NameList(AttributeValue(attrs(relationMapNoteId), Label, DISPLAY_RELATIONS));
    var hideRelations := NameList(AttributeValue(attrs(relationMapNoteId), Label, HIDE_RELATIONS));
    var noteTitles: map<NoteId, string> := map[];
    var relations: seq<RelationRow> := [];
    var inverseRelations := INITIAL_INVERSE;
    for i := 0 to |foundNoteIds|
      invariant noteTitles == Titles(notes, foundNoteIds[..i])
      invariant relations == AllDrawn(attrs, foundNoteIds[..i], displayRelations, hideRelations, ids, isAutoLink)
      invariant inverseRelations == InverseAll(INITIAL_INVERSE, AllDefinitions(attrs, foundNoteIds[..i]),
                                               definedName, inverseOf)
    {
      var noteId := foundNoteIds[i];
      assert foundNoteIds[..i + 1][..i] == foundNoteIds[..i];
      noteTitles := noteTitles[noteId := notes[noteId].title];
      relations := relations + DrawnRelations(Relations(attrs(noteId)), displayRelations, hideRelations, ids, isAutoLink);
      inverseRelations := AddInverses(inverseRelations, RelationDefinitions(attrs(noteId)), definedName, inverseOf);
      InverseAllConcat(INITIAL_INVERSE, AllDefinitions(attrs, foundNoteIds[..i]), RelationDefinitions(attrs(noteId)),
                       definedName, inverseOf);
    }
    assert foundNoteIds[..|foundNoteIds|] == foundNoteIds;
    return Ok(RelationMapData(noteTitles, relations, inverseRelations));
  }

  /** The inner loop of `getRelationMap`: record the inverse pairs of one note's definitions. */
  method AddInverses(inv: map<string, string>, defs: seq<Attribute>, definedName: Attribute -> string,
                     inverseOf: Attribute -> string)
    returns (inverseRelations: map<string, string>)
    ensures inverseRelations == InverseAll(inv, defs, definedName, inverseOf)
  {
    inverseRelations := inv;
    for j := 0 to |defs|
      invariant inverseRelations == InverseAll(inv, defs[..j], definedName, inverseOf)
    {
      var relationDefinition := defs[j];
      assert defs[..j + 1][..j] == defs[..j];
      var inverseRelation := inverseOf(relationDefinition);
      if inverseRelation != "" {
        inverseRelations := inverseRelations[definedName(relationDefinition) := inverseRelation];
        inverseRelations := inverseRelations[inverseRelation := definedName(relationDefinition)];
      }
    }
    assert defs[..|defs|] == defs;
  }
}
