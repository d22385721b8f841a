/**
 * The in-memory note graph ("becca"): notes held in an arena keyed by note
 * id, each with its owned attributes, parent and child links, the relations
 * that point at it, and its memo caches as explicit optional fields.
 * This module holds the entities, the validity of a store, and the
 * attribute filters and first-match accessors of BNote.
 */
module NoteGraph {
  import opened Common

  type NoteId = string

  datatype AttrType = Label | Relation

  /** The type's spelling in the API ("label" / "relation"). */
  function TypeName(t: AttrType): string
  {
    match t
    case Label => "label"
    case Relation => "relation"
  }

  datatype Attribute = Attribute(
    attributeId: string,
    noteId: NoteId,
    attrType: AttrType,
    name: string,
    value: string,
    isInheritable: bool,
    position: int)

  datatype Note = Note(
    noteId: NoteId,
    title: string,
    noteType: string,
    ownedAttributes: seq<Attribute>,
    parents: seq<NoteId>,
    children: seq<NoteId>,
    targetRelations: seq<Attribute>,
    attributeCache: Option<seq<Attribute>>,
    inheritableAttributeCache: Option<seq<Attribute>>,
    ancestorCache: Option<seq<NoteId>>,
    flatTextCache: Option<string>)

  type Store = map<NoteId, Note>

  const ROOT: NoteId := "root"
  const HIDDEN: NoteId := "_hidden"

  /** No attribute id occurs twice. */
  predicate DistinctIds(s: seq<Attribute>)
  {
    forall i, j :: 0 <= i < j < |s| ==> s[i].attributeId != s[j].attributeId
  }

  function Ids(s: seq<Attribute>): set<string>
  {
    set a | a in s :: a.attributeId
  }

  /**
   * A well-formed store: every note is filed under its own id, its links
   * lead to notes of the store, it owns its owned attributes (with distinct
   * ids), and its target relations are relations whose value is its id.
   */
  ghost predicate StoreValid(notes: Store)
  {
    forall k {:trigger NoteValid(notes, k)} | k in notes :: NoteValid(notes, k)
  }

  /**
   * One note of a valid store: its links point into the store, its owned
   * attributes name it as owner, and its target relations point at it.
   */
  ghost predicate NoteValid(notes: Store, k: NoteId)
    requires k in notes
  {
    notes[k].noteId == k
    && (forall p | p in notes[k].parents :: p in notes)
    && (forall c | c in notes[k].children :: c in notes)
    && (forall a | a in notes[k].ownedAttributes :: a.noteId == k)
    && DistinctIds(notes[k].ownedAttributes)
    && (forall r | r in notes[k].targetRelations :: r.attrType == Relation && r.value == k)
  }

  /** Two stores that differ at most in their caches. */
  ghost predicate SameStructure(a: Store, b: Store)
  {
    a.Keys == b.Keys
    && forall k | k in a ::
      a[k].noteId == b[k].noteId && a[k].title == b[k].title && a[k].noteType == b[k].noteType
      && a[k].ownedAttributes == b[k].ownedAttributes
      && a[k].parents == b[k].parents && a[k].children == b[k].children
      && a[k].targetRelations == b[k].targetRelations
  }

  lemma SameStructureValid(a: Store, b: Store)
    requires SameStructure(a, b) && StoreValid(a)
    ensures StoreValid(b)
  {
    forall k | k in b ensures NoteValid(b, k) {
      assert NoteValid(a, k);
    }
  }

  // ---------------------------------------------------------------------
  // __validateTypeName and the getAttributes / getOwnedAttributes filters.
  // An absent (or empty, hence falsy) type or name is the empty string.
  // ---------------------------------------------------------------------

  const TYPE_ERROR_SUFFIX := "'. Only 'label' and 'relation' are possible values."
  const NAME_ERROR := "Detect '#' or '~' in the attribute's name. In the API, attribute names should be set without these characters."

  /** `__validateTypeName`: unknown types and `#`/`~`-prefixed names are refused. */
  function ValidateTypeName(typ: string, name: string): (r: Result<(), string>)
    ensures r.Ok? <==> (typ == "" || typ == "label" || typ == "relation")
                       && (name == "" || (name[0] != '#' && name[0] != '~'))
    ensures r.Err? && typ != "" && typ != "label" && typ != "relation" ==>
              r.error == "Unrecognized attribute type '" + typ + TYPE_ERROR_SUFFIX
    ensures r.Err? && (typ == "" || typ == "label" || typ == "relation") ==> r.error == NAME_ERROR
  {
    if typ != "" && typ != "label" && typ != "relation" then
      Err("Unrecognized attribute type '" + typ + TYPE_ERROR_SUFFIX)
    else if name != "" && (name[0] == '#' || name[0] == '~') then
      Err(NAME_ERROR)
    else
      Ok(())
  }

  /** An attribute passes the optional type and name filters. */
  predicate Matches(a: Attribute, typ: string, name: string)
  {
    (typ == "" || TypeName(a.attrType) == typ) && (name == "" || a.name == name)
  }

  /** The four-way filter of `getAttributes` over the resolved list. */
  function FilterByTypeName(attrs: seq<Attribute>, typ: string, name: string): (r: seq<Attribute>)
    ensures r == Filter(attrs, a => Matches(a, typ, name))
  {
    var m := (a: Attribute) => Matches(a, typ, name);
    if typ != "" && name != "" then
      var f := (a: Attribute) => a.name == name && TypeName(a.attrType) == typ;
      FilterExt(attrs, f, m);
      Filter(attrs, f)
    else if typ != "" then
      var f := (a: Attribute) => TypeName(a.attrType) == typ;
      FilterExt(attrs, f, m);
      Filter(attrs, f)
    else if name != "" then
      var f := (a: Attribute) => a.name == name;
      FilterExt(attrs, f, m);
      Filter(attrs, f)
    else
      FilterAll(attrs, m);
      attrs
  }

  /**
   * The filter of `getOwnedAttributes`: the value takes part only when both a
   * type and a name are given.
   */
  predicate OwnedMatches(a: Attribute, typ: string, name: string, value: Option<string>)
  {
    Matches(a, typ, name) && (typ == "" || name == "" || value.None? || a.value == value.value)
  }

  function FilterOwned(attrs: seq<Attribute>, typ: string, name: string, value: Option<string>): (r: seq<Attribute>)
    ensures r == Filter(attrs, a => OwnedMatches(a, typ, name, value))
  {
    var m := (a: Attribute) => OwnedMatches(a, typ, name, value);
    if typ != "" && name != "" && value.Some? then
      var f := (a: Attribute) => a.name == name && a.value == value.value && TypeName(a.attrType) == typ;
      FilterExt(attrs, f, m);
      Filter(attrs, f)
    else if typ != "" && name != "" then
      var f := (a: Attribute) => a.name == name && TypeName(a.attrType) == typ;
      FilterExt(attrs, f, m);
      Filter(attrs, f)
    else if typ != "" then
      var f := (a: Attribute) => TypeName(a.attrType) == typ;
      FilterExt(attrs, f, m);
      Filter(attrs, f)
    else if name != "" then
      var f := (a: Attribute) => a.name == name;
      FilterExt(attrs, f, m);
      Filter(attrs, f)
    else
      FilterAll(attrs, m);
      attrs
  }

  /** `getOwnedAttributes(type, name, value)` of the note `n`. */
  function GetOwnedAttributes(n: Note, typ: string, name: string, value: Option<string>): (r: Result<seq<Attribute>, string>)
    ensures r.Err? <==> ValidateTypeName(typ, name).Err?
    ensures r.Ok? ==> forall a :: a in r.value <==> a in n.ownedAttributes && OwnedMatches(a, typ, name, value)
  {
    match ValidateTypeName(typ, name)
    case Err(e) => Err(e)
    case Ok(_) => Ok(FilterOwned(n.ownedAttributes, typ, name, value))
  }

  /** `getOwnedAttribute`: the first owned match, or null. */
  function GetOwnedAttribute(n: Note, typ: string, name: string, value: Option<string>): (r: Result<Option<Attribute>, string>)
    ensures r.Err? <==> ValidateTypeName(typ, name).Err?
    ensures r.Ok? && r.value.Some? ==>
              exists k :: 0 <= k < |n.ownedAttributes| && n.ownedAttributes[k] == r.value.value
                          && OwnedMatches(r.value.value, typ, name, value)
                          && forall j :: 0 <= j < k ==> !OwnedMatches(n.ownedAttributes[j], typ, name, value)
    ensures r.Ok? && r.value.None? ==> forall a :: a in n.ownedAttributes ==> !OwnedMatches(a, typ, name, value)
  {
    match GetOwnedAttributes(n, typ, name, value)
    case Err(e) => Err(e)
    case Ok(attrs) =>
      if |attrs| > 0 then
        FilterFirst(n.ownedAttributes, a => OwnedMatches(a, typ, name, value));
        Ok(Some(attrs[0]))
      else Ok(None)
  }

  // ---------------------------------------------------------------------
  // First-match accessors over a resolved attribute list
  // ---------------------------------------------------------------------

  /** `attributes.find(attr => attr.name === name && attr.type === type)`. */
  function FindAttribute(attrs: seq<Attribute>, t: AttrType, name: string): (r: Option<Attribute>)
    ensures r.Some? ==> exists i :: 0 <= i < |attrs| && attrs[i] == r.value
                          && attrs[i].name == name && attrs[i].attrType == t
                          && forall j :: 0 <= j < i ==> !(attrs[j].name == name && attrs[j].attrType == t)
    ensures r.None? ==> forall a :: a in attrs ==> !(a.name == name && a.attrType == t)
  {
    if |attrs| == 0 then None
    else if attrs[0].name == name && attrs[0].attrType == t then Some(attrs[0])
    else
      var r := FindAttribute(attrs[1..], t, name);
      if r.Some? then
        ghost var i :| 0 <= i < |attrs[1..]| && attrs[1..][i] == r.value
                        && attrs[1..][i].name == name && attrs[1..][i].attrType == t
                        && forall j :: 0 <= j < i ==> !(attrs[1..][j].name == name && attrs[1..][j].attrType == t);
        assert attrs[i + 1] == r.value;
        r
      else r
  }

  /** `getAttributeValue`: the value of the first match, or null. */
  function AttributeValue(attrs: seq<Attribute>, t: AttrType, name: string): (r: Option<string>)
    ensures r.Some? <==> exists a :: a in attrs && a.name == name && a.attrType == t
    ensures r.Some? ==> FindAttribute(attrs, t, name).Some? && r.value == FindAttribute(attrs, t, name).value.value
  {
    match FindAttribute(attrs, t, name)
    case None => None
    case Some(a) => Some(a.value)
  }

  /**
   * `hasAttribute(type, name, value)`: some attribute of that type and name
   * (and, when a value is given, that value).
   */
  predicate HasAttribute(attrs: seq<Attribute>, t: AttrType, name: string, value: Option<string>)
  {
    exists a :: a in attrs && a.name == name && (value.None? || a.value == value.value) && a.attrType == t
  }

  /** `isLabelTruthy`: the first label of that name exists and is not "false". */
  function IsLabelTruthy(attrs: seq<Attribute>, name: string): (r: bool)
    ensures r ==> HasAttribute(attrs, Label, name, None)
    ensures !HasAttribute(attrs, Label, name, None) ==> !r
    ensures r <==> AttributeValue(attrs, Label, name).Some? && AttributeValue(attrs, Label, name).value != "false"
  {
    match FindAttribute(attrs, Label, name)
    case None => false
    case Some(l) => l.value != "false"
  }

  /** `getLabelValues(name)`: the values of every label of that name, in order. */
  function LabelValues(attrs: seq<Attribute>, name: string): (r: seq<string>)
    ensures |r| == |Filter(attrs, a => Matches(a, "label", name))|
    ensures forall k :: 0 <= k < |r| ==> r[k] == Filter(attrs, a => Matches(a, "label", name))[k].value
  {
    var labels := FilterByTypeName(attrs, "label", name);
    seq(|labels|, k requires 0 <= k < |labels| => labels[k].value)
  }

  lemma {:induction false} FindAttributeAgreesWithHas(attrs: seq<Attribute>, t: AttrType, name: string)
    ensures FindAttribute(attrs, t, name).Some? <==> HasAttribute(attrs, t, name, None)
  {
    if FindAttribute(attrs, t, name).Some? {
      var i :| 0 <= i < |attrs| && attrs[i] == FindAttribute(attrs, t, name).value
                 && attrs[i].name == name && attrs[i].attrType == t
                 && forall j :: 0 <= j < i ==> !(attrs[j].name == name && attrs[j].attrType == t);
      assert attrs[i] in attrs;
    }
  }

  // ---------------------------------------------------------------------
  // Target relations
  // ---------------------------------------------------------------------

  predicate IsTemplateOrInherit(r: Attribute)
  {
    r.name == "template" || r.name == "inherit"
  }

  /** `isInherited`: some template/inherit relation points at the note. */
  predicate IsInherited(n: Note)
  {
    exists r :: r in n.targetRelations && IsTemplateOrInherit(r)
  }

  /**
   * The owners of the template/inherit relations among `rels` whose owner
   * note exists (is one of `keys`), in relation order.
   */
  function InheritorsOf(keys: set<NoteId>, rels: seq<Attribute>): seq<NoteId>
  {
    if |rels| == 0 then []
    else (if IsTemplateOrInherit(rels[0]) && rels[0].noteId in keys then [rels[0].noteId] else [])
         + InheritorsOf(keys, rels[1..])
  }

  /** Exactly the owners of the existing notes' template/inherit relations are listed. */
  lemma {:induction false} InheritorsOfMembers(keys: set<NoteId>, rels: seq<Attribute>)
    ensures forall x :: x in InheritorsOf(keys, rels) <==>
              exists rel :: rel in rels && IsTemplateOrInherit(rel) && rel.noteId == x && x in keys
  {
    if |rels| > 0 {
      InheritorsOfMembers(keys, rels[1..]);
      assert forall rel :: rel in rels <==> rel == rels[0] || rel in rels[1..];
    }
  }

  /** One step of the walk over the relations. */
  lemma InheritorsOfStep(keys: set<NoteId>, rels: seq<Attribute>, j: nat)
    requires j < |rels|
    ensures InheritorsOf(keys, rels[j..])
            == (if IsTemplateOrInherit(rels[j]) && rels[j].noteId in keys then [rels[j].noteId] else [])
               + InheritorsOf(keys, rels[j + 1..])
  {
    assert rels[j..][0] == rels[j] && rels[j..][1..] == rels[j + 1..];
  }

  /**
   * `getInheritingNotes`: the note itself followed by the notes that use it
   * as a template or inherit source.
   */
  function InheritingNotes(notes: Store, id: NoteId): (r: seq<NoteId>)
    requires id in notes
    ensures |r| >= 1 && r[0] == id
    ensures forall x :: x in r <==> x == id || exists rel :: rel in notes[id].targetRelations
                                                  && IsTemplateOrInherit(rel) && rel.noteId == x && x in notes
  {
    InheritorsOfMembers(notes.Keys, notes[id].targetRelations);
    [id] + InheritorsOf(notes.Keys, notes[id].targetRelations)
  }

  /** `note.getRelations()`: the relations among the note's resolved attributes, in order. */
  function Relations(attrs: seq<Attribute>): seq<Attribute>
  {
    if |attrs| == 0 then []
    else (if attrs[0].attrType == Relation then [attrs[0]] else []) + Relations(attrs[1..])
  }

  /** `getRelations()` is `getAttributes('relation')`. */
  lemma {:induction false} RelationsAreTypeFiltered(attrs: seq<Attribute>)
    ensures Relations(attrs) == FilterByTypeName(attrs, "relation", "")
  {
    var m := (a: Attribute) => Matches(a, "relation", "");
    if |attrs| > 0 {
      RelationsAreTypeFiltered(attrs[1..]);
      assert FilterByTypeName(attrs[1..], "relation", "") == Filter(attrs[1..], m);
      assert m(attrs[0]) <==> attrs[0].attrType == Relation;
    }
  }
}
