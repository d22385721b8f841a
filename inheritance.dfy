/**
 * Attribute inheritance of BNote, as computed by `__getAttributes` and
 * `__getInheritableAttributes` when no cache is filled: the owned
 * attributes, then every parent's inheritable ones (except on `root` and
 * `_hidden`), then the full sets of `template`/`inherit` targets minus their
 * template marker labels, deduplicated by attribute id with the first
 * occurrence kept. A note already on the recursion path contributes nothing,
 * which is what makes the recursion terminate on cyclic template graphs: the
 * decreases clause below (the notes not yet on the path) is the proof.
 */
module Inheritance {
  import opened Common
  import opened NoteGraph

  /** A relation that makes its target a template of its owner. */
  predicate IsTemplateRelation(a: Attribute)
  {
    a.attrType == Relation && (a.name == "template" || a.name == "inherit")
  }

  /** Labels that mark a template and are not passed on through it. */
  predicate IsTemplateMarker(a: Attribute)
  {
    a.attrType == Label && (a.name == "template" || a.name == "workspacetemplate")
  }

  // ---------------------------------------------------------------------
  // Deduplication by attribute id (the `addedAttributeIds` set)
  // ---------------------------------------------------------------------

  /** Keeps each attribute whose id is neither in `seen` nor earlier in `s`. */
  function DedupeFrom(s: seq<Attribute>, seen: set<string>): (r: seq<Attribute>)
    ensures DistinctIds(r)
    ensures forall a :: a in r ==> a in s && a.attributeId !in seen
    ensures Ids(r) == Ids(s) - seen
  {
    if |s| == 0 then []
    else
      assert Ids(s) == {s[0].attributeId} + Ids(s[1..]) by {
        assert forall a :: a in s <==> a == s[0] || a in s[1..];
      }
      if s[0].attributeId in seen then DedupeFrom(s[1..], seen)
      else
        var rest := DedupeFrom(s[1..], seen + {s[0].attributeId});
        assert Ids([s[0]] + rest) == {s[0].attributeId} + Ids(rest) by {
          assert forall a :: a in [s[0]] + rest <==> a == s[0] || a in rest;
        }
        [s[0]] + rest
  }

  function Dedupe(s: seq<Attribute>): seq<Attribute>
  {
    DedupeFrom(s, {})
  }

  lemma {:induction false} DedupeConcat(a: seq<Attribute>, b: seq<Attribute>, seen: set<string>)
    ensures DedupeFrom(a + b, seen) == DedupeFrom(a, seen) + DedupeFrom(b, seen + Ids(a))
    decreases |a|
  {
    if |a| == 0 {
      assert a + b == b;
      assert Ids(a) == {};
      assert seen + Ids(a) == seen;
    } else {
      assert (a + b)[1..] == a[1..] + b;
      assert Ids(a) == {a[0].attributeId} + Ids(a[1..]) by {
        assert forall x :: x in a <==> x == a[0] || x in a[1..];
      }
      if a[0].attributeId in seen {
        DedupeConcat(a[1..], b, seen);
        assert seen + Ids(a) == seen + Ids(a[1..]);
      } else {
        DedupeConcat(a[1..], b, seen + {a[0].attributeId});
        assert seen + {a[0].attributeId} + Ids(a[1..]) == seen + Ids(a);
      }
    }
  }

  /** A list with distinct ids, none already seen, passes through unchanged. */
  lemma {:induction false} DedupeOfDistinct(s: seq<Attribute>, seen: set<string>)
    requires DistinctIds(s) && Ids(s) !! seen
    ensures DedupeFrom(s, seen) == s
    decreases |s|
  {
    if |s| > 0 {
      assert s[0] in s;
      assert Ids(s[1..]) <= Ids(s);
      forall j | 0 < j < |s| ensures s[j].attributeId != s[0].attributeId {
      }
      assert s[0].attributeId !in Ids(s[1..]);
      DedupeOfDistinct(s[1..], seen + {s[0].attributeId});
    }
  }

  /** Every kept attribute is the first one in `s` carrying its id. */
  lemma {:induction false} DedupeKeepsFirst(s: seq<Attribute>, seen: set<string>, a: Attribute)
    requires a in DedupeFrom(s, seen)
    ensures exists i :: 0 <= i < |s| && s[i] == a && forall j :: 0 <= j < i ==> s[j].attributeId != a.attributeId
    decreases |s|
  {
    if s[0].attributeId in seen {
      DedupeKeepsFirst(s[1..], seen, a);
      var i :| 0 <= i < |s[1..]| && s[1..][i] == a && forall j :: 0 <= j < i ==> s[1..][j].attributeId != a.attributeId;
      assert s[i + 1] == a;
      assert s[0].attributeId != a.attributeId;
      assert forall j :: 0 < j < i + 1 ==> s[j] == s[1..][j - 1];
    } else if a == s[0] {
      assert s[0] == a;
    } else {
      var rest := DedupeFrom(s[1..], seen + {s[0].attributeId});
      assert a in rest;
      assert a.attributeId != s[0].attributeId;
      DedupeKeepsFirst(s[1..], seen + {s[0].attributeId}, a);
      var i :| 0 <= i < |s[1..]| && s[1..][i] == a && forall j :: 0 <= j < i ==> s[1..][j].attributeId != a.attributeId;
      assert s[i + 1] == a;
      assert forall j :: 0 < j < i + 1 ==> s[j] == s[1..][j - 1];
    }
  }

  // ---------------------------------------------------------------------
  // The resolver
  // ---------------------------------------------------------------------

  /** The notes on a recursion path. */
  function PathSet(path: seq<NoteId>): set<NoteId>
  {
    set x | x in path
  }

  /** `__getAttributes(path)` of note `id` with every cache empty. */
  function Resolve(notes: Store, id: NoteId, path: seq<NoteId>): (r: seq<Attribute>)
    ensures DistinctIds(r)
    ensures id in path || id !in notes ==> r == []
    decreases notes.Keys - PathSet(path), 3
  {
    if id in path || id !in notes then [] else Dedupe(Accumulated(notes, id, path))
  }

  /**
   * Everything gathered before deduplication: owned, then inherited from the
   * parents, then what the template/inherit relations among those bring in.
   */
  function Accumulated(notes: Store, id: NoteId, path: seq<NoteId>): seq<Attribute>
    requires id in notes && id !in path
    decreases notes.Keys - PathSet(path), 2
  {
    var parentAttributes := notes[id].ownedAttributes + Inherited(notes, id, path);
    parentAttributes + TemplateAttributes(notes, parentAttributes, id, path)
  }

  /** `__getInheritableAttributes(path)`: the inheritable part, in order. */
  function InheritableOf(notes: Store, id: NoteId, path: seq<NoteId>): (r: seq<Attribute>)
    ensures forall a :: a in r <==> a in Resolve(notes, id, path) && a.isInheritable
    decreases notes.Keys - PathSet(path), 4
  {
    Filter(Resolve(notes, id, path), (a: Attribute) => a.isInheritable)
  }

  /** What the parents pass down: nothing for `root` and `_hidden`. */
  function Inherited(notes: Store, id: NoteId, path: seq<NoteId>): seq<Attribute>
    requires id in notes && id !in path
    decreases notes.Keys - PathSet(path), 1
  {
    if id == ROOT || id == HIDDEN then [] else ParentsInheritable(notes, notes[id].parents, id, path)
  }

  function ParentsInheritable(notes: Store, parents: seq<NoteId>, id: NoteId, path: seq<NoteId>): seq<Attribute>
    requires id in notes && id !in path
    decreases notes.Keys - PathSet(path), 0, |parents|
  {
    if |parents| == 0 then []
    else
      assert PathSet(path + [id]) == PathSet(path) + {id};
      InheritableOf(notes, parents[0], path + [id]) + ParentsInheritable(notes, parents[1..], id, path)
  }

  /** The contributions of the template/inherit relations among `attrs`. */
  function TemplateAttributes(notes: Store, attrs: seq<Attribute>, id: NoteId, path: seq<NoteId>): seq<Attribute>
    requires id in notes && id !in path
    decreases notes.Keys - PathSet(path), 0, |attrs|
  {
    if |attrs| == 0 then []
    else
      var rest := TemplateAttributes(notes, attrs[1..], id, path);
      if IsTemplateRelation(attrs[0]) && attrs[0].value in notes then
        assert PathSet(path + [id]) == PathSet(path) + {id};
        Filter(Resolve(notes, attrs[0].value, path + [id]), (a: Attribute) => !IsTemplateMarker(a)) + rest
      else rest
  }

  /** `getAttributes()` with no filter: the resolution from an empty path. */
  function AllAttributes(notes: Store, id: NoteId): seq<Attribute>
  {
    Resolve(notes, id, [])
  }

  // ---------------------------------------------------------------------
  // Properties
  // ---------------------------------------------------------------------

  /**
   * The resolved list is the owned attributes in their own order, then the
   * parents' inheritable attributes not seen yet, then the template
   * contributions not seen yet.
   */
  lemma ResolveLayout(notes: Store, id: NoteId, path: seq<NoteId>)
    requires id in notes && id !in path
    requires DistinctIds(notes[id].ownedAttributes)
    ensures var owned := notes[id].ownedAttributes;
            var inherited := Inherited(notes, id, path);
            Resolve(notes, id, path)
              == owned
                 + DedupeFrom(inherited, Ids(owned))
                 + DedupeFrom(TemplateAttributes(notes, owned + inherited, id, path), Ids(owned + inherited))
  {
    var owned := notes[id].ownedAttributes;
    var inherited := Inherited(notes, id, path);
    var templates := TemplateAttributes(notes, owned + inherited, id, path);
    DedupeConcat(owned + inherited, templates, {});
    DedupeConcat(owned, inherited, {});
    DedupeOfDistinct(owned, {});
    assert {} + Ids(owned) == Ids(owned);
    assert {} + Ids(owned + inherited) == Ids(owned + inherited);
  }

  /** The owned attributes open the resolved list, in their owned order. */
  lemma ResolveStartsWithOwned(notes: Store, id: NoteId, path: seq<NoteId>)
    requires id in notes && id !in path
    requires DistinctIds(notes[id].ownedAttributes)
    ensures |notes[id].ownedAttributes| <= |Resolve(notes, id, path)|
    ensures Resolve(notes, id, path)[..|notes[id].ownedAttributes|] == notes[id].ownedAttributes
  {
    ResolveLayout(notes, id, path);
  }

  /** `root` and `_hidden` take nothing from their parents. */
  lemma RootAndHiddenInheritNothing(notes: Store, id: NoteId, path: seq<NoteId>)
    requires id in notes && id !in path && (id == ROOT || id == HIDDEN)
    requires DistinctIds(notes[id].ownedAttributes)
    ensures var owned := notes[id].ownedAttributes;
            Resolve(notes, id, path)
              == owned + DedupeFrom(TemplateAttributes(notes, owned, id, path), Ids(owned))
  {
    ResolveLayout(notes, id, path);
    var owned := notes[id].ownedAttributes;
    assert Inherited(notes, id, path) == [];
    assert owned + [] == owned;
  }

  /** Where each parent-inherited attribute comes from. */
  lemma {:induction false} ParentsInheritableSource(notes: Store, parents: seq<NoteId>, id: NoteId, path: seq<NoteId>, a: Attribute)
    requires id in notes && id !in path
    requires a in ParentsInheritable(notes, parents, id, path)
    ensures a.isInheritable
    ensures exists p :: p in parents && a in Resolve(notes, p, path + [id])
    decreases |parents|
  {
    if a !in InheritableOf(notes, parents[0], path + [id]) {
      ParentsInheritableSource(notes, parents[1..], id, path, a);
      var p :| p in parents[1..] && a in Resolve(notes, p, path + [id]);
      assert p in parents;
    }
  }

  /** Where each template-derived attribute comes from. */
  lemma {:induction false} TemplateAttributesSource(notes: Store, attrs: seq<Attribute>, id: NoteId, path: seq<NoteId>, a: Attribute)
    requires id in notes && id !in path
    requires a in TemplateAttributes(notes, attrs, id, path)
    ensures !IsTemplateMarker(a)
    ensures exists t :: t in attrs && IsTemplateRelation(t) && t.value in notes && a in Resolve(notes, t.value, path + [id])
    decreases |attrs|
  {
    var rest := TemplateAttributes(notes, attrs[1..], id, path);
    if a in rest {
      TemplateAttributesSource(notes, attrs[1..], id, path, a);
      var t :| t in attrs[1..] && IsTemplateRelation(t) && t.value in notes && a in Resolve(notes, t.value, path + [id]);
      assert t in attrs;
    } else {
      assert attrs[0] in attrs;
    }
  }

  /**
   * Soundness: every resolved attribute is owned, inherited from a parent
   * (and inheritable; never on `root` or `_hidden`), or taken from a
   * template target (and is not a template marker label).
   */
  lemma ResolveSources(notes: Store, id: NoteId, path: seq<NoteId>, a: Attribute)
    requires a in Resolve(notes, id, path)
    ensures id in notes && id !in path
    ensures || a in notes[id].ownedAttributes
            || (id != ROOT && id != HIDDEN && a.isInheritable
                && exists p :: p in notes[id].parents && a in Resolve(notes, p, path + [id]))
            || (!IsTemplateMarker(a)
                && exists t :: IsTemplateRelation(t) && t.value in notes && a in Resolve(notes, t.value, path + [id])
                               && t in notes[id].ownedAttributes + Inherited(notes, id, path))
  {
    var owned := notes[id].ownedAttributes;
    var inherited := Inherited(notes, id, path);
    var templates := TemplateAttributes(notes, owned + inherited, id, path);
    assert a in owned + inherited + templates;
    if a in templates {
      TemplateAttributesSource(notes, owned + inherited, id, path, a);
    } else if a in inherited {
      assert id != ROOT && id != HIDDEN;
      ParentsInheritableSource(notes, notes[id].parents, id, path, a);
    }
  }

  lemma {:induction false} ParentsInheritableComplete(notes: Store, parents: seq<NoteId>, id: NoteId, path: seq<NoteId>, p: NoteId, a: Attribute)
    requires id in notes && id !in path
    requires p in parents && a in Resolve(notes, p, path + [id]) && a.isInheritable
    ensures a in ParentsInheritable(notes, parents, id, path)
    decreases |parents|
  {
    if parents[0] != p {
      ParentsInheritableComplete(notes, parents[1..], id, path, p, a);
    }
  }

  lemma {:induction false} TemplateAttributesComplete(notes: Store, attrs: seq<Attribute>, id: NoteId, path: seq<NoteId>, t: Attribute, a: Attribute)
    requires id in notes && id !in path
    requires t in attrs && IsTemplateRelation(t) && t.value in notes
    requires a in Resolve(notes, t.value, path + [id]) && !IsTemplateMarker(a)
    ensures a in TemplateAttributes(notes, attrs, id, path)
    decreases |attrs|
  {
    if attrs[0] != t {
      TemplateAttributesComplete(notes, attrs[1..], id, path, t, a);
    }
  }

  /**
   * Completeness on ids: every owned attribute, every inheritable attribute
   * of a parent (except on `root` and `_hidden`) and every non-marker
   * attribute of a template target has its id in the resolved list.
   */
  lemma ResolveComplete(notes: Store, id: NoteId, path: seq<NoteId>, a: Attribute)
    requires id in notes && id !in path
    requires || a in notes[id].ownedAttributes
             || (id != ROOT && id != HIDDEN && a.isInheritable
                 && exists p :: p in notes[id].parents && a in Resolve(notes, p, path + [id]))
             || (!IsTemplateMarker(a)
                 && exists t :: IsTemplateRelation(t) && t.value in notes && a in Resolve(notes, t.value, path + [id])
                                && t in notes[id].ownedAttributes + Inherited(notes, id, path))
    ensures a.attributeId in Ids(Resolve(notes, id, path))
  {
    var owned := notes[id].ownedAttributes;
    var inherited := Inherited(notes, id, path);
    var all := owned + inherited + TemplateAttributes(notes, owned + inherited, id, path);
    if a in owned {
      assert a in all;
    } else if id != ROOT && id != HIDDEN && a.isInheritable
              && exists p :: p in notes[id].parents && a in Resolve(notes, p, path + [id]) {
      var p :| p in notes[id].parents && a in Resolve(notes, p, path + [id]);
      ParentsInheritableComplete(notes, notes[id].parents, id, path, p, a);
      assert a in all;
    } else {
      var t :| IsTemplateRelation(t) && t.value in notes && a in Resolve(notes, t.value, path + [id])
               && t in owned + inherited;
      TemplateAttributesComplete(notes, owned + inherited, id, path, t, a);
      assert a in all;
    }
    assert a.attributeId in Ids(all);
  }

  /** When ids clash, the resolved list keeps the attribute met first. */
  lemma ResolveKeepsFirst(notes: Store, id: NoteId, path: seq<NoteId>, a: Attribute)
    requires a in Resolve(notes, id, path)
    ensures id in notes && id !in path
    ensures exists i :: 0 <= i < |Accumulated(notes, id, path)| && Accumulated(notes, id, path)[i] == a
                        && forall j :: 0 <= j < i ==> Accumulated(notes, id, path)[j].attributeId != a.attributeId
  {
    DedupeKeepsFirst(Accumulated(notes, id, path), {}, a);
  }
}
