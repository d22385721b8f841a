/**
 * The memoising side of BNote: `__getAttributes` / `__getInheritableAttributes`
 * fill the attribute caches of the notes they visit, `invalidateThisCache` and
 * `invalidateSubTree` clear them, `getAncestors` fills the ancestor cache and
 * `sortChildren` reorders a note's children in place. The store is the
 * mutable field `notes` of the class; every method keeps the cache invariant
 * `Valid`.
 */
module NoteCache {
  import opened Common
  import opened NoteGraph
  import Inheritance
  import Sorting
  import Reach
  import NotePaths

  // ---------------------------------------------------------------------
  // The cache invariant
  // ---------------------------------------------------------------------

  /** The attribute belongs to a note of the store, as one of its owned attributes. */
  ghost predicate IsStored(notes: Store, a: Attribute)
  {
    a.noteId in notes && a in notes[a.noteId].ownedAttributes
  }

  ghost predicate AllStored(notes: Store, attrs: seq<Attribute>)
  {
    forall a | a in attrs :: IsStored(notes, a)
  }

  function InheritablePart(c: seq<Attribute>): seq<Attribute>
  {
    Filter(c, (a: Attribute) => a.isInheritable)
  }

  /**
   * What a filled attribute cache of note `k` always satisfies: the owned
   * attributes come first, no id occurs twice, and every entry is an
   * attribute owned by some note of the store.
   */
  ghost predicate AttributeCacheOk(notes: Store, k: NoteId, c: seq<Attribute>)
    requires k in notes
  {
    var owned := notes[k].ownedAttributes;
    |owned| <= |c| && c[..|owned|] == owned
    && DistinctIds(c)
    && AllStored(notes, c)
  }

  /** The parent links of the store, note by note. */
  function ParentMap(notes: Store): map<NoteId, set<NoteId>>
  {
    map k | k in notes :: set p | p in notes[k].parents
  }

  /** A link map as a successor function. */
  function SuccOf(m: map<NoteId, set<NoteId>>): NoteId -> set<NoteId>
  {
    (x: NoteId) => if x in m then m[x] else {}
  }

  /**
   * What a filled ancestor cache of note `k` always satisfies: it lists
   * distinct notes discovered upwards from `k`, and together with `k` it
   * holds every parent of each of its members.
   */
  ghost predicate AncestorCacheOk(notes: Store, k: NoteId, c: seq<NoteId>)
  {
    Distinct(c)
    && Reach.Generated(SuccOf(ParentMap(notes)), k, [k] + c)
    && Reach.Closed(SuccOf(ParentMap(notes)), {k} + set x | x in c)
  }

  ghost predicate NoteCachesOk(notes: Store, k: NoteId)
    requires k in notes
  {
    var n := notes[k];
    (n.attributeCache.Some? <==> n.inheritableAttributeCache.Some?)
    && (n.attributeCache.Some? ==>
          AttributeCacheOk(notes, k, n.attributeCache.value)
          && n.inheritableAttributeCache.value == InheritablePart(n.attributeCache.value))
    && (n.ancestorCache.Some? ==> AncestorCacheOk(notes, k, n.ancestorCache.value))
  }

  /** Every filled cache of the store is well formed. */
  ghost predicate CachesOk(notes: Store)
  {
    forall k {:trigger NoteCachesOk(notes, k)} | k in notes :: NoteCachesOk(notes, k)
  }

  /** The note with its four caches emptied. */
  function Cleared(n: Note): Note
  {
    n.(attributeCache := None, inheritableAttributeCache := None, ancestorCache := None, flatTextCache := None)
  }

  predicate SameCaches(m: Note, n: Note)
  {
    m.attributeCache == n.attributeCache && m.inheritableAttributeCache == n.inheritableAttributeCache
    && m.ancestorCache == n.ancestorCache
  }

  /** Two stores with the same notes, owned attributes and parent links. */
  ghost predicate SameBasis(a: Store, b: Store)
  {
    a.Keys == b.Keys
    && forall k | k in a :: a[k].ownedAttributes == b[k].ownedAttributes && a[k].parents == b[k].parents
  }

  /**
   * `b` is `a` after some cache filling: the same structure, every filled
   * attribute cache kept, every ancestor cache untouched.
   */
  ghost predicate Grows(a: Store, b: Store)
  {
    SameStructure(a, b)
    && (forall k | k in a && a[k].attributeCache.Some? :: b[k].attributeCache == a[k].attributeCache)
    && (forall k | k in a :: b[k].ancestorCache == a[k].ancestorCache)
  }

  /** The notes on the path are left exactly as they were. */
  ghost predicate Untouched(a: Store, b: Store, path: seq<NoteId>)
  {
    forall k | k in path && k in a :: k in b && b[k] == a[k]
  }

  /** `b` is `a` with exactly the notes of `S` cleared. */
  ghost predicate ClearedExactly(a: Store, b: Store, S: set<NoteId>)
  {
    a.Keys == b.Keys
    && forall k | k in b :: b[k] == if k in S then Cleared(a[k]) else a[k]
  }

  // ---------------------------------------------------------------------
  // Preservation of the invariant
  // ---------------------------------------------------------------------

  lemma SameBasisParents(a: Store, b: Store)
    requires SameBasis(a, b)
    ensures ParentMap(a) == ParentMap(b)
  {
  }

  lemma SameStructureParents(a: Store, b: Store)
    requires SameStructure(a, b)
    ensures SuccOf(ParentMap(a)) == SuccOf(ParentMap(b))
  {
    assert SameBasis(a, b);
    SameBasisParents(a, b);
  }

  lemma SameStructureTrans(a: Store, b: Store, c: Store)
    requires SameStructure(a, b) && SameStructure(b, c)
    ensures SameStructure(a, c)
  {
  }

  /** A cache that was well formed stays so while owned attributes and parents do not change. */
  lemma NoteCachesOkTransfer(a: Store, b: Store, k: NoteId)
    requires SameBasis(a, b) && k in a && NoteCachesOk(a, k) && SameCaches(a[k], b[k])
    ensures NoteCachesOk(b, k)
  {
    SameBasisParents(a, b);
    var n := b[k];
    if n.attributeCache.Some? {
      forall x | x in n.attributeCache.value ensures IsStored(b, x) {
        assert IsStored(a, x);
      }
    }
  }

  /** Changing the caches of one note keeps the others well formed. */
  lemma CachesOkUpdate(a: Store, b: Store, id: NoteId)
    requires CachesOk(a) && SameBasis(a, b) && id in a
    requires forall k | k in b && k != id :: SameCaches(a[k], b[k])
    requires NoteCachesOk(b, id)
    ensures CachesOk(b)
  {
    forall k | k in b ensures NoteCachesOk(b, k) {
      if k != id {
        assert NoteCachesOk(a, k);
        NoteCachesOkTransfer(a, b, k);
      }
    }
  }

  /** The invariant, unfolded for the attribute caches of one note. */
  lemma CachedAttributes(notes: Store, id: NoteId)
    requires CachesOk(notes) && id in notes
    ensures notes[id].attributeCache.Some? <==> notes[id].inheritableAttributeCache.Some?
    ensures notes[id].attributeCache.Some? ==>
              AttributeCacheOk(notes, id, notes[id].attributeCache.value)
              && notes[id].inheritableAttributeCache.value == InheritablePart(notes[id].attributeCache.value)
  {
    assert NoteCachesOk(notes, id);
  }

  /** The invariant, unfolded for the ancestor cache of one note. */
  lemma CachedAncestors(notes: Store, id: NoteId)
    requires CachesOk(notes) && id in notes && notes[id].ancestorCache.Some?
    ensures AncestorCacheOk(notes, id, notes[id].ancestorCache.value)
  {
    assert NoteCachesOk(notes, id);
  }

  lemma GrowsTrans(a: Store, b: Store, c: Store)
    requires Grows(a, b) && Grows(b, c)
    ensures Grows(a, c)
  {
  }

  lemma UntouchedTrans(a: Store, b: Store, c: Store, path: seq<NoteId>)
    requires Untouched(a, b, path) && Untouched(b, c, path)
    ensures Untouched(a, c, path)
  {
  }

  lemma AllStoredGrows(a: Store, b: Store, attrs: seq<Attribute>)
    requires SameStructure(a, b) && AllStored(a, attrs)
    ensures AllStored(b, attrs)
  {
    forall x | x in attrs ensures IsStored(b, x) {
      assert IsStored(a, x);
    }
  }

  lemma AllStoredConcat(notes: Store, xs: seq<Attribute>, ys: seq<Attribute>)
    requires AllStored(notes, xs) && AllStored(notes, ys)
    ensures AllStored(notes, xs + ys)
  {
  }

  /** An entry of the filled attribute cache of note `k`. */
  ghost predicate InCache(notes: Store, k: NoteId, a: Attribute)
  {
    k in notes && notes[k].attributeCache.Some? && a in notes[k].attributeCache.value
  }

  /** Every entry of `xs` is inheritable and comes from the attribute cache of one of `parents`. */
  ghost predicate FromParents(notes: Store, parents: seq<NoteId>, xs: seq<Attribute>)
  {
    forall a | a in xs :: a.isInheritable && exists p | p in parents :: InCache(notes, p, a)
  }

  /** A `template` or `inherit` relation among `attrs` whose target note exists. */
  predicate TemplateLink(notes: Store, attrs: seq<Attribute>, t: NoteId)
  {
    t in notes && exists r | r in attrs :: r.attrType == Relation && (r.name == "template" || r.name == "inherit") && r.value == t
  }

  /**
   * Every entry of `xs` is not a template marker and comes from the
   * attribute cache of a note that a `template`/`inherit` relation among
   * `attrs` points to.
   */
  ghost predicate FromTemplates(notes: Store, attrs: seq<Attribute>, xs: seq<Attribute>)
  {
    forall a | a in xs :: !Inheritance.IsTemplateMarker(a) && exists t | TemplateLink(notes, attrs, t) :: InCache(notes, t, a)
  }

  /**
   * `t` exists and a `template`/`inherit` relation points to it that the
   * note owns or, off `root`/`_hidden`, finds in a parent's cache.
   */
  ghost predicate TemplateTarget(notes: Store, id: NoteId, t: NoteId)
    requires id in notes
  {
    t in notes
    && exists rel: Attribute | rel.attrType == Relation && (rel.name == "template" || rel.name == "inherit") && rel.value == t ::
         rel in notes[id].ownedAttributes
         || (id != ROOT && id != HIDDEN && exists p | p in notes[id].parents :: InCache(notes, p, rel))
  }

  /**
   * Where an entry of a freshly resolved attribute list of `id` comes from:
   * it is owned, or (off `root`/`_hidden`) inheritable and in a parent's
   * cache, or not a template marker and in the cache of a template target.
   */
  ghost predicate Sourced(notes: Store, id: NoteId, a: Attribute)
    requires id in notes
  {
    a in notes[id].ownedAttributes
    || (id != ROOT && id != HIDDEN && a.isInheritable && exists p | p in notes[id].parents :: InCache(notes, p, a))
    || (!Inheritance.IsTemplateMarker(a) && exists t | TemplateTarget(notes, id, t) :: InCache(notes, t, a))
  }

  /** Filling caches keeps every `Sourced` entry sourced. */
  lemma SourcedGrows(a: Store, b: Store, id: NoteId, xs: seq<Attribute>)
    requires Grows(a, b) && id in a && forall x | x in xs :: Sourced(a, id, x)
    ensures forall x | x in xs :: Sourced(b, id, x)
  {
    forall t | TemplateTarget(a, id, t)
      ensures TemplateTarget(b, id, t)
    {
      var rel: Attribute :| rel.attrType == Relation && (rel.name == "template" || rel.name == "inherit") && rel.value == t
        && (rel in a[id].ownedAttributes || (id != ROOT && id != HIDDEN && exists p | p in a[id].parents :: InCache(a, p, rel)));
      if rel !in a[id].ownedAttributes {
        var p :| p in a[id].parents && InCache(a, p, rel);
        assert InCache(b, p, rel);
      }
    }
    forall x | x in xs
      ensures Sourced(b, id, x)
    {
      if x !in a[id].ownedAttributes {
        if id != ROOT && id != HIDDEN && x.isInheritable && exists p | p in a[id].parents :: InCache(a, p, x) {
          var p :| p in a[id].parents && InCache(a, p, x);
          assert InCache(b, p, x);
        } else {
          var t :| TemplateTarget(a, id, t) && InCache(a, t, x);
          assert InCache(b, t, x);
        }
      }
    }
  }

  /** The owned prefix, the parents' part and the template part together give `Sourced` entries. */
  lemma ResolvedSourced(notes: Store, id: NoteId, parentAttributes: seq<Attribute>, templateAttributes: seq<Attribute>, cache: seq<Attribute>)
    requires id in notes
    requires |notes[id].ownedAttributes| <= |parentAttributes|
    requires parentAttributes[..|notes[id].ownedAttributes|] == notes[id].ownedAttributes
    requires id == ROOT || id == HIDDEN ==> parentAttributes == notes[id].ownedAttributes
    requires FromParents(notes, notes[id].parents, parentAttributes[|notes[id].ownedAttributes|..])
    requires FromTemplates(notes, parentAttributes, templateAttributes)
    requires forall a | a in cache :: a in parentAttributes + templateAttributes
    ensures forall a | a in cache :: Sourced(notes, id, a)
  {
    var owned := notes[id].ownedAttributes;
    assert parentAttributes == owned + parentAttributes[|owned|..];
    forall a | a in parentAttributes
      ensures a in owned || (id != ROOT && id != HIDDEN && a.isInheritable && exists p | p in notes[id].parents :: InCache(notes, p, a))
    {
      if a !in owned {
        assert a in parentAttributes[|owned|..];
      }
    }
    forall t | TemplateLink(notes, parentAttributes, t)
      ensures TemplateTarget(notes, id, t)
    {
      var rel :| rel in parentAttributes && rel.attrType == Relation && (rel.name == "template" || rel.name == "inherit") && rel.value == t;
      assert rel in owned || (id != ROOT && id != HIDDEN && exists p | p in notes[id].parents :: InCache(notes, p, rel));
    }
    forall a | a in cache
      ensures Sourced(notes, id, a)
    {
      if a !in parentAttributes {
        assert a in templateAttributes;
        var t :| TemplateLink(notes, parentAttributes, t) && InCache(notes, t, a);
        assert TemplateTarget(notes, id, t);
      }
    }
  }

  lemma FromTemplatesConcat(notes: Store, attrs: seq<Attribute>, xs: seq<Attribute>, ys: seq<Attribute>)
    requires FromTemplates(notes, attrs, xs) && FromTemplates(notes, attrs, ys)
    ensures FromTemplates(notes, attrs, xs + ys)
  {
  }

  /** Filled caches stay filled: what came from a cache still does. */
  lemma FromParentsGrows(a: Store, b: Store, parents: seq<NoteId>, xs: seq<Attribute>)
    requires Grows(a, b) && FromParents(a, parents, xs)
    ensures FromParents(b, parents, xs)
  {
    forall x | x in xs
      ensures x.isInheritable && exists p | p in parents :: InCache(b, p, x)
    {
      var p :| p in parents && InCache(a, p, x);
      assert InCache(b, p, x);
    }
  }

  lemma FromTemplatesGrows(a: Store, b: Store, attrs: seq<Attribute>, xs: seq<Attribute>)
    requires Grows(a, b) && FromTemplates(a, attrs, xs)
    ensures FromTemplates(b, attrs, xs)
  {
    forall x | x in xs
      ensures !Inheritance.IsTemplateMarker(x) && exists t | TemplateLink(b, attrs, t) :: InCache(b, t, x)
    {
      var t :| TemplateLink(a, attrs, t) && InCache(a, t, x);
      assert TemplateLink(b, attrs, t) && InCache(b, t, x);
    }
  }

  lemma OwnedStored(notes: Store, id: NoteId)
    requires StoreValid(notes) && id in notes
    ensures AllStored(notes, notes[id].ownedAttributes)
  {
    assert NoteValid(notes, id);
  }

  lemma ParentInStore(a: Store, b: Store, id: NoteId, parents: seq<NoteId>, i: nat)
    requires StoreValid(a) && SameStructure(a, b) && id in a && parents == a[id].parents && i < |parents|
    ensures parents[i] in b
  {
    assert NoteValid(a, id);
    assert parents[i] in a[id].parents;
  }

  lemma RankedSameStructure(a: Store, b: Store, rank: map<NoteId, nat>)
    requires NotePaths.Ranked(a, rank) && SameStructure(a, b)
    ensures NotePaths.Ranked(b, rank)
  {
  }

  /** A store whose caches are all empty is valid when its structure is. */
  lemma ClearedStoreValid(initial: Store)
    requires StoreValid(initial)
    ensures StoreValid(map k | k in initial :: Cleared(initial[k]))
    ensures CachesOk(map k | k in initial :: Cleared(initial[k]))
  {
    var c := map k | k in initial :: Cleared(initial[k]);
    assert SameStructure(initial, c);
    SameStructureValid(initial, c);
    forall k | k in c ensures NoteCachesOk(c, k) {
    }
  }

  /** Filling the attribute cache of one note keeps the store valid. */
  lemma FillAttributeCache(before: Store, id: NoteId, cache: seq<Attribute>)
    requires StoreValid(before) && CachesOk(before) && id in before
    requires before[id].attributeCache.None?
    requires AttributeCacheOk(before, id, cache)
    ensures var after := before[id := before[id].(attributeCache := Some(cache), inheritableAttributeCache := Some(InheritablePart(cache)))];
            StoreValid(after) && CachesOk(after) && Grows(before, after)
  {
    var after := before[id := before[id].(attributeCache := Some(cache), inheritableAttributeCache := Some(InheritablePart(cache)))];
    assert SameStructure(before, after);
    SameStructureValid(before, after);
    CachedAttributes(before, id);
    assert SameBasis(before, after);
    SameBasisParents(before, after);
    AllStoredGrows(before, after, cache);
    if before[id].ancestorCache.Some? {
      CachedAncestors(before, id);
    }
    assert NoteCachesOk(after, id);
    CachesOkUpdate(before, after, id);
  }

  /** Emptying the caches of one note keeps the store valid. */
  lemma ClearOne(before: Store, id: NoteId)
    requires StoreValid(before) && CachesOk(before) && id in before
    ensures StoreValid(before[id := Cleared(before[id])]) && CachesOk(before[id := Cleared(before[id])])
    ensures SameStructure(before, before[id := Cleared(before[id])])
  {
    var after := before[id := Cleared(before[id])];
    assert SameStructure(before, after);
    SameStructureValid(before, after);
    CachesOkUpdate(before, after, id);
  }

  /** Storing a well-formed ancestor list keeps the store valid. */
  lemma FillAncestorCache(before: Store, id: NoteId, list: seq<NoteId>)
    requires StoreValid(before) && CachesOk(before) && id in before
    requires AncestorCacheOk(before, id, list)
    ensures var after := before[id := before[id].(ancestorCache := Some(list))];
            StoreValid(after) && CachesOk(after) && SameStructure(before, after)
            && SuccOf(ParentMap(after)) == SuccOf(ParentMap(before))
            && AncestorCacheOk(after, id, list)
  {
    var after := before[id := before[id].(ancestorCache := Some(list))];
    assert SameStructure(before, after);
    SameStructureValid(before, after);
    SameStructureParents(before, after);
    CachedAttributes(before, id);
    if before[id].attributeCache.Some? {
      AllStoredGrows(before, after, before[id].attributeCache.value);
    }
    assert NoteCachesOk(after, id);
    assert SameBasis(before, after);
    CachesOkUpdate(before, after, id);
  }

  /** Reordering a note's children keeps the store valid. */
  lemma ReorderChildrenValid(before: Store, id: NoteId, children: seq<NoteId>)
    requires StoreValid(before) && CachesOk(before) && id in before
    requires multiset(children) == multiset(before[id].children)
    ensures var after := before[id := before[id].(children := children)];
            StoreValid(after) && CachesOk(after)
  {
    var after := before[id := before[id].(children := children)];
    forall k | k in after ensures NoteValid(after, k) {
      assert NoteValid(before, k);
      if k == id {
        forall c | c in children ensures c in before {
          assert c in multiset(children);
          assert c in before[id].children;
        }
      }
    }
    assert SameBasis(before, after);
    assert NoteCachesOk(before, id);
    NoteCachesOkTransfer(before, after, id);
    CachesOkUpdate(before, after, id);
  }

  // ---------------------------------------------------------------------
  // invalidateSubTree bookkeeping
  // ---------------------------------------------------------------------

  lemma ClearedNothing(a: Store)
    ensures ClearedExactly(a, a, {})
  {
  }

  lemma ClearedOneExactly(a: Store, id: NoteId)
    requires id in a
    ensures ClearedExactly(a, a[id := Cleared(a[id])], {id})
  {
  }

  lemma ClearedCompose(a: Store, b: Store, c: Store, S: set<NoteId>, T: set<NoteId>)
    requires ClearedExactly(a, b, S) && ClearedExactly(b, c, T)
    ensures ClearedExactly(a, c, S + T)
  {
  }

  lemma ClearedSuccessors(a: Store, b: Store, S: set<NoteId>)
    requires ClearedExactly(a, b, S)
    ensures SuccessorMap(a) == SuccessorMap(b)
  {
    assert SameStructure(a, b);
    SameStructureSuccessors(a, b);
  }

  lemma ChildrenInStore(a: Store, id: NoteId)
    requires StoreValid(a) && id in a
    ensures forall c | c in a[id].children :: c in a
  {
    assert NoteValid(a, id);
  }

  class Becca {
    var notes: Store

    ghost predicate Valid()
      reads this
    {
      StoreValid(notes) && CachesOk(notes)
    }

    constructor (initial: Store)
      requires StoreValid(initial)
      ensures notes == map k | k in initial :: Cleared(initial[k])
      ensures Valid()
    {
      ClearedStoreValid(initial);
      notes := map k | k in initial :: Cleared(initial[k]);
    }

    // -------------------------------------------------------------------
    // __getAttributes / __getInheritableAttributes
    // -------------------------------------------------------------------

    /**
     * `__getAttributes(path)`: the cached attribute list of `id`, computed
     * and stored first if the cache is empty; `[]` for a note on the path.
     */
    method ResolveAttributes(id: NoteId, path: seq<NoteId>) returns (r: seq<Attribute>)
      requires Valid() && id in notes
      modifies this
      ensures Valid() && Grows(old(notes), notes) && Untouched(old(notes), notes, path)
      ensures id in path ==> r == [] && notes == old(notes)
      ensures id !in path ==> notes[id].attributeCache == Some(r)
      ensures id !in path && old(notes[id].attributeCache).Some? ==> r == old(notes[id].attributeCache).value && notes == old(notes)
      ensures DistinctIds(r) && AllStored(notes, r)
      ensures id !in path ==> |notes[id].ownedAttributes| <= |r| && r[..|notes[id].ownedAttributes|] == notes[id].ownedAttributes
      ensures id !in path && old(notes[id].attributeCache).None? ==> forall a | a in r :: Sourced(notes, id, a)
      decreases notes.Keys - Inheritance.PathSet(path), 3
    {
      if id in path {
        return [];
      }
      if notes[id].attributeCache.Some? {
        CachedAttributes(notes, id);
        return notes[id].attributeCache.value;
      }
      r := FillAttributes(id, path);
    }

    /**
     * The miss branch of `__getAttributes(path)`: the gathered attributes,
     * deduplicated by id and stored in both caches of the note.
     */
    method FillAttributes(id: NoteId, path: seq<NoteId>) returns (r: seq<Attribute>)
      requires Valid() && id in notes && id !in path && notes[id].attributeCache.None?
      modifies this
      ensures Valid() && Grows(old(notes), notes) && Untouched(old(notes), notes, path)
      ensures notes[id].attributeCache == Some(r)
      ensures DistinctIds(r) && AllStored(notes, r)
      ensures |notes[id].ownedAttributes| <= |r| && r[..|notes[id].ownedAttributes|] == notes[id].ownedAttributes
      ensures forall a | a in r :: Sourced(notes, id, a)
      decreases notes.Keys - Inheritance.PathSet(path), 2
    {
      var all := GatherAttributes(id, path);
      var owned := notes[id].ownedAttributes;
      var cache := Deduplicate(all);
      assert NoteValid(notes, id);
      DedupePrefix(all, owned);
      var inheritable := InheritableOnly(cache);
      ghost var before := notes;
      FillAttributeCache(before, id, cache);
      notes := notes[id := notes[id].(attributeCache := Some(cache), inheritableAttributeCache := Some(inheritable))];
      GrowsTrans(old(notes), before, notes);
      SourcedGrows(before, notes, id, cache);
      r := cache;
    }

    /**
     * What `__getAttributes(path)` gathers before deduplication: the owned
     * and inherited attributes, then what their template/inherit relations
     * bring in.
     */
    method GatherAttributes(id: NoteId, path: seq<NoteId>) returns (all: seq<Attribute>)
      requires Valid() && id in notes && id !in path && notes[id].attributeCache.None?
      modifies this
      ensures Valid() && Grows(old(notes), notes) && Untouched(old(notes), notes, path + [id])
      ensures |notes[id].ownedAttributes| <= |all| && all[..|notes[id].ownedAttributes|] == notes[id].ownedAttributes
      ensures AllStored(notes, all)
      ensures forall a | a in all :: Sourced(notes, id, a)
      decreases notes.Keys - Inheritance.PathSet(path), 1
    {
      var parentAttributes := CollectInherited(id, path);
      ghost var mid := notes;
      var templateAttributes := CollectTemplates(parentAttributes, id, path);
      AllStoredGrows(mid, notes, parentAttributes);
      GrowsTrans(old(notes), mid, notes);
      var owned := notes[id].ownedAttributes;
      all := parentAttributes + templateAttributes;
      assert all[..|owned|] == owned;
      AllStoredConcat(notes, parentAttributes, templateAttributes);
      FromParentsGrows(mid, notes, notes[id].parents, parentAttributes[|owned|..]);
      ResolvedSourced(notes, id, parentAttributes, templateAttributes, all);
    }

    /** The owned attributes followed by the inheritable attributes of each parent, in order. */
    method CollectInherited(id: NoteId, path: seq<NoteId>) returns (attrs: seq<Attribute>)
      requires Valid() && id in notes && id !in path && notes[id].attributeCache.None?
      modifies this
      ensures Valid() && Grows(old(notes), notes) && Untouched(old(notes), notes, path + [id])
      ensures notes[id] == old(notes)[id]
      ensures |notes[id].ownedAttributes| <= |attrs| && attrs[..|notes[id].ownedAttributes|] == notes[id].ownedAttributes
      ensures AllStored(notes, attrs)
      ensures id == ROOT || id == HIDDEN ==> attrs == notes[id].ownedAttributes
      ensures FromParents(notes, notes[id].parents, attrs[|notes[id].ownedAttributes|..])
      decreases notes.Keys - Inheritance.PathSet(path), 0
    {
      var newPath := path + [id];
      assert Inheritance.PathSet(newPath) == Inheritance.PathSet(path) + {id};
      assert id in newPath;
      var owned := notes[id].ownedAttributes;
      OwnedStored(notes, id);
      attrs := owned;
      if id == ROOT || id == HIDDEN {
        return;
      }
      var parents := notes[id].parents;
      var i := 0;
      while i < |parents|
        invariant 0 <= i <= |parents|
        invariant Valid() && Grows(old(notes), notes) && Untouched(old(notes), notes, newPath)
        invariant parents == old(notes)[id].parents
        invariant |owned| <= |attrs| && attrs[..|owned|] == owned
        invariant AllStored(notes, attrs)
        invariant FromParents(notes, parents, attrs[|owned|..])
      {
        ParentInStore(old(notes), notes, id, parents, i);
        ghost var pre := notes;
        var inherited := ResolveInheritable(parents[i], newPath);
        GrowsTrans(old(notes), pre, notes);
        UntouchedTrans(old(notes), pre, notes, newPath);
        AllStoredGrows(pre, notes, attrs);
        AllStoredConcat(notes, attrs, inherited);
        FromParentsGrows(pre, notes, parents, attrs[|owned|..]);
        assert FromParents(notes, parents, inherited) by {
          forall x | x in inherited
            ensures x.isInheritable && exists p | p in parents :: InCache(notes, p, x)
          {
            assert InCache(notes, parents[i], x);
          }
        }
        assert (attrs + inherited)[|owned|..] == attrs[|owned|..] + inherited;
        attrs := attrs + inherited;
        i := i + 1;
      }
    }

    /** The attributes brought in by the template/inherit relations among `attrs`, markers dropped. */
    method CollectTemplates(attrs: seq<Attribute>, id: NoteId, path: seq<NoteId>) returns (templateAttributes: seq<Attribute>)
      requires Valid() && id in notes && id !in path
      modifies this
      ensures Valid() && Grows(old(notes), notes) && Untouched(old(notes), notes, path + [id])
      ensures AllStored(notes, templateAttributes)
      ensures FromTemplates(notes, attrs, templateAttributes)
      ensures (forall r | r in attrs :: !(r.attrType == Relation && (r.name == "template" || r.name == "inherit")))
              ==> templateAttributes == []
      decreases notes.Keys - Inheritance.PathSet(path), 0
    {
      var newPath := path + [id];
      assert Inheritance.PathSet(newPath) == Inheritance.PathSet(path) + {id};
      templateAttributes := [];
      var j := 0;
      while j < |attrs|
        invariant 0 <= j <= |attrs|
        invariant Valid() && Grows(old(notes), notes) && Untouched(old(notes), notes, newPath)
        invariant AllStored(notes, templateAttributes)
        invariant FromTemplates(notes, attrs, templateAttributes)
        invariant (forall r | r in attrs[..j] :: !(r.attrType == Relation && (r.name == "template" || r.name == "inherit")))
                  ==> templateAttributes == []
      {
        var attr := attrs[j];
        assert attrs[..j + 1] == attrs[..j] + [attr];
        if attr.attrType == Relation && (attr.name == "template" || attr.name == "inherit") {
          if attr.value in notes {
            ghost var pre := notes;
            var fromTemplate := ResolveAttributes(attr.value, newPath);
            GrowsTrans(old(notes), pre, notes);
            UntouchedTrans(old(notes), pre, notes, newPath);
            AllStoredGrows(pre, notes, templateAttributes);
            var kept := Filter(fromTemplate, (a: Attribute) => !Inheritance.IsTemplateMarker(a));
            AllStoredConcat(notes, templateAttributes, kept);
            FromTemplatesGrows(pre, notes, attrs, templateAttributes);
            assert FromTemplates(notes, attrs, kept) by {
              assert TemplateLink(notes, attrs, attr.value);
              forall x | x in kept
                ensures !Inheritance.IsTemplateMarker(x) && exists t | TemplateLink(notes, attrs, t) :: InCache(notes, t, x)
              {
                assert InCache(notes, attr.value, x);
              }
            }
            FromTemplatesConcat(notes, attrs, templateAttributes, kept);
            templateAttributes := templateAttributes + kept;
          }
        }
        j := j + 1;
      }
      assert attrs[..j] == attrs;
    }

    /** `__getInheritableAttributes(path)`: the inheritable part of the note's attribute cache. */
    method ResolveInheritable(id: NoteId, path: seq<NoteId>) returns (r: seq<Attribute>)
      requires Valid() && id in notes
      modifies this
      ensures Valid() && Grows(old(notes), notes) && Untouched(old(notes), notes, path)
      ensures id in path ==> r == [] && notes == old(notes)
      ensures id !in path ==> notes[id].attributeCache.Some? && r == InheritablePart(notes[id].attributeCache.value)
      ensures AllStored(notes, r) && forall a | a in r :: a.isInheritable
      decreases notes.Keys - Inheritance.PathSet(path), 4
    {
      if id in path {
        return [];
      }
      if notes[id].inheritableAttributeCache.None? {
        CachedAttributes(notes, id);
        var _ := ResolveAttributes(id, path);
      }
      CachedAttributes(notes, id);
      r := notes[id].inheritableAttributeCache.value;
    }

    /** `getAttributes(type, name)`: validation, then the filtered cache. */
    method GetAttributes(id: NoteId, typ: string, name: string) returns (r: Result<seq<Attribute>, string>)
      requires Valid() && id in notes
      modifies this
      ensures Valid() && Grows(old(notes), notes)
      ensures r.Err? <==> ValidateTypeName(typ, name).Err?
      ensures r.Err? ==> r.error == ValidateTypeName(typ, name).error && notes == old(notes)
      ensures r.Ok? ==> notes[id].attributeCache.Some?
                        && r.value == Filter(notes[id].attributeCache.value, a => Matches(a, typ, name))
      ensures r.Ok? && old(notes[id].attributeCache).Some? ==> notes == old(notes)
    {
      var v := ValidateTypeName(typ, name);
      if v.Err? {
        return Err(v.error);
      }
      if notes[id].attributeCache.None? {
        var _ := ResolveAttributes(id, []);
      }
      r := Ok(FilterByTypeName(notes[id].attributeCache.value, typ, name));
    }

    /** `getAttribute(type, name)`: the first attribute of that type and name, or null. */
    method GetAttribute(id: NoteId, t: AttrType, name: string) returns (r: Option<Attribute>)
      requires Valid() && id in notes
      modifies this
      ensures Valid() && Grows(old(notes), notes)
      ensures notes[id].attributeCache.Some?
      ensures r == FindAttribute(notes[id].attributeCache.value, t, name)
      ensures r.Some? ==> r.value.name == name && r.value.attrType == t && IsStored(notes, r.value)
    {
      var all := GetAttributes(id, "", "");
      FilterAll(notes[id].attributeCache.value, a => Matches(a, "", ""));
      CachedAttributes(notes, id);
      r := FindAttribute(all.value, t, name);
      if r.Some? {
        var i :| 0 <= i < |all.value| && all.value[i] == r.value;
      }
    }

    /** `isLabelTruthy(name)`, through `getLabel`. */
    method IsLabelTruthy(id: NoteId, name: string) returns (b: bool)
      requires Valid() && id in notes
      modifies this
      ensures Valid() && Grows(old(notes), notes)
      ensures notes[id].attributeCache.Some?
      ensures b == NoteGraph.IsLabelTruthy(notes[id].attributeCache.value, name)
    {
      var found := GetAttribute(id, Label, name);
      if found.None? {
        return false;
      }
      b := found.value.value != "false";
    }

    // -------------------------------------------------------------------
    // invalidateThisCache / invalidateSubTree
    // -------------------------------------------------------------------

    /** `invalidateThisCache`: all four caches of the note are emptied. */
    method InvalidateThisCache(id: NoteId)
      requires Valid() && id in notes
      modifies this
      ensures notes == old(notes)[id := Cleared(old(notes)[id])]
      ensures Valid() && SameStructure(old(notes), notes)
    {
      ClearOne(notes, id);
      notes := notes[id := Cleared(notes[id])];
    }

    /**
     * `invalidateSubTree(path)`: clears the caches of the note, then of its
     * children and of the notes using it as a template, recursively; a note
     * on the path is skipped.
     */
    method InvalidateSubTree(id: NoteId, path: seq<NoteId>)
      requires Valid() && id in notes
      modifies this
      ensures Valid()
      ensures ClearedExactly(old(notes), notes, InvalidationSet(SuccessorMap(old(notes)), id, path))
      decreases notes.Keys - Inheritance.PathSet(path), 1
    {
      ghost var m := SuccessorMap(notes);
      if id in path {
        ClearedNothing(notes);
        return;
      }
      InvalidateThisCache(id);
      ClearedOneExactly(old(notes), id);
      var p := path;
      if |notes[id].children| > 0 || |notes[id].targetRelations| > 0 {
        p := path + [id];
      }
      ChildrenInStore(old(notes), id);
      ghost var n1 := notes;
      ClearedSuccessors(old(notes), n1, {id});
      InvalidateChildren(notes[id].children, id, path, p);
      ghost var n2 := notes;
      ClearedCompose(old(notes), n1, n2, {id}, InvalidateEach(m, n1[id].children, id, path));
      ClearedSuccessors(old(notes), n2, {id} + InvalidateEach(m, n1[id].children, id, path));
      assert n2[id].targetRelations == old(notes)[id].targetRelations;
      InvalidateTemplateUsers(notes[id].targetRelations, id, path, p);
      ClearedCompose(old(notes), n2, notes, {id} + InvalidateEach(m, n1[id].children, id, path),
                     InvalidateEach(m, InheritorsOf(n2.Keys, old(notes)[id].targetRelations), id, path));
      InvalidateEachConcat(m, old(notes)[id].children, InheritorsOf(old(notes).Keys, old(notes)[id].targetRelations), id, path);
    }

    /** The `for (const childNote of this.children)` loop of `invalidateSubTree`. */
    method InvalidateChildren(children: seq<NoteId>, id: NoteId, path: seq<NoteId>, p: seq<NoteId>)
      requires Valid() && id in notes && id !in path
      requires |children| > 0 ==> p == path + [id]
      requires forall c | c in children :: c in notes
      modifies this
      ensures Valid()
      ensures ClearedExactly(old(notes), notes, InvalidateEach(SuccessorMap(old(notes)), children, id, path))
      decreases notes.Keys - Inheritance.PathSet(path), 0
    {
      ghost var m := SuccessorMap(notes);
      ghost var done: set<NoteId> := {};
      ClearedNothing(notes);
      assert children[0..] == children;
      var i := 0;
      while i < |children|
        invariant 0 <= i <= |children|
        invariant Valid() && ClearedExactly(old(notes), notes, done)
        invariant done + InvalidateEach(m, children[i..], id, path) == InvalidateEach(m, children, id, path)
      {
        ChildrenStep(m, children, i, id, path, done);
        assert Inheritance.PathSet(p) == Inheritance.PathSet(path) + {id};
        ghost var pre := notes;
        ClearedSuccessors(old(notes), pre, done);
        InvalidateSubTree(children[i], p);
        ClearedCompose(old(notes), pre, notes, done, InvalidationSet(m, children[i], p));
        done := done + InvalidationSet(m, children[i], p);
        i := i + 1;
      }
    }

    /**
     * The `for (const targetRelation of this.targetRelations)` loop of
     * `invalidateSubTree`: the owners of template/inherit relations, when
     * they exist.
     */
    method InvalidateTemplateUsers(rels: seq<Attribute>, id: NoteId, path: seq<NoteId>, p: seq<NoteId>)
      requires Valid() && id in notes && id !in path
      requires |rels| > 0 ==> p == path + [id]
      modifies this
      ensures Valid()
      ensures ClearedExactly(old(notes), notes, InvalidateEach(SuccessorMap(old(notes)), InheritorsOf(old(notes).Keys, rels), id, path))
      decreases notes.Keys - Inheritance.PathSet(path), 0
    {
      ghost var m := SuccessorMap(notes);
      ghost var done: set<NoteId> := {};
      ClearedNothing(notes);
      assert rels[0..] == rels;
      var j := 0;
      while j < |rels|
        invariant 0 <= j <= |rels|
        invariant Valid() && ClearedExactly(old(notes), notes, done)
        invariant done + InvalidateEach(m, InheritorsOf(old(notes).Keys, rels[j..]), id, path)
                  == InvalidateEach(m, InheritorsOf(old(notes).Keys, rels), id, path)
      {
        var rel := rels[j];
        TemplateUsersStep(m, old(notes).Keys, rels, j, id, path, done);
        if IsTemplateOrInherit(rel) && rel.noteId in notes {
          assert Inheritance.PathSet(p) == Inheritance.PathSet(path) + {id};
          ghost var pre := notes;
          ClearedSuccessors(old(notes), pre, done);
          InvalidateSubTree(rel.noteId, p);
          ClearedCompose(old(notes), pre, notes, done, InvalidationSet(m, rel.noteId, p));
          done := done + InvalidationSet(m, rel.noteId, p);
        }
        j := j + 1;
      }
      assert rels[|rels|..] == [];
    }

    // -------------------------------------------------------------------
    // getAncestors
    // -------------------------------------------------------------------

    /**
     * `getAncestors`: the cached list of every note above `id`, computed
     * from the parents' own ancestor lists when the cache is empty.
     */
    method GetAncestors(id: NoteId, ghost rank: map<NoteId, nat>) returns (r: seq<NoteId>)
      requires Valid() && id in notes && NotePaths.Ranked(notes, rank)
      modifies this
      ensures Valid() && SameStructure(old(notes), notes)
      ensures notes[id].ancestorCache == Some(r)
      ensures AncestorCacheOk(notes, id, r)
      ensures old(notes[id].ancestorCache).Some? ==> r == old(notes[id].ancestorCache).value && notes == old(notes)
      decreases rank[id], 1
    {
      if notes[id].ancestorCache.Some? {
        CachedAncestors(notes, id);
        return notes[id].ancestorCache.value;
      }
      ghost var succ := SuccOf(ParentMap(notes));
      var parents := notes[id].parents;
      var seen: set<NoteId> := {};
      var list: seq<NoteId> := [];
      var i := 0;
      while i < |parents|
        invariant 0 <= i <= |parents|
        invariant Valid() && SameStructure(old(notes), notes)
        invariant succ == SuccOf(ParentMap(old(notes))) && SuccOf(ParentMap(notes)) == succ
        invariant parents == old(notes)[id].parents
        invariant Discovered(succ, id, list, seen)
        invariant forall k :: 0 <= k < i ==> parents[k] in seen
      {
        list, seen := AncestorsOfParent(id, rank, old(notes), succ, parents, i, list, seen);
        i := i + 1;
      }
      ParentsAllSeen(succ, old(notes), id, list, seen);
      ghost var before := notes;
      FillAncestorCache(notes, id, list);
      notes := notes[id := notes[id].(ancestorCache := Some(list))];
      SameStructureTrans(old(notes), before, notes);
      r := list;
    }

    /** One turn of the parents loop of `getAncestors`: merge in the `i`-th parent and its ancestors. */
    method AncestorsOfParent(id: NoteId, ghost rank: map<NoteId, nat>, ghost start: Store,
                             ghost succ: NoteId -> set<NoteId>, parents: seq<NoteId>, i: nat,
                             list0: seq<NoteId>, seen0: set<NoteId>)
      returns (list: seq<NoteId>, seen: set<NoteId>)
      requires Valid() && SameStructure(start, notes) && id in start && NotePaths.Ranked(start, rank)
      requires succ == SuccOf(ParentMap(start)) && SuccOf(ParentMap(notes)) == succ
      requires parents == start[id].parents && i < |parents|
      requires Discovered(succ, id, list0, seen0)
      modifies this
      ensures Valid() && SameStructure(start, notes) && SuccOf(ParentMap(notes)) == succ
      ensures Discovered(succ, id, list, seen) && parents[i] in seen && seen0 <= seen
      decreases rank[id], 0
    {
      var parent := parents[i];
      if parent in seen0 {
        return list0, seen0;
      }
      ParentRankBelow(start, rank, id, parents, i);
      ParentOf(succ, start, id, parents, i);
      ghost var pre := notes;
      RankedSameStructure(start, notes, rank);
      var above := GetAncestors(parent, rank);
      SameStructureTrans(start, pre, notes);
      SameStructureParents(pre, notes);
      list, seen := MergeParent(succ, id, parent, above, list0, seen0);
    }

    // -------------------------------------------------------------------
    // sortChildren
    // -------------------------------------------------------------------

    /**
     * `sortChildren`: reorders the children by the position of the branch
     * joining them to this note (a missing branch or position counts as 0);
     * the sort is stable.
     */
    method SortChildren(id: NoteId, notePosition: map<(NoteId, NoteId), int>)
      requires Valid() && id in notes
      modifies this
      ensures Valid()
      ensures notes == old(notes)[id := old(notes)[id].(children := Sorting.Sort(old(notes)[id].children, ChildLe(notePosition, id)))]
      ensures id in notes && multiset(notes[id].children) == multiset(old(notes)[id].children)
      ensures id in notes && Sorting.SortedBy(notes[id].children, ChildLe(notePosition, id))
    {
      var children := notes[id].children;
      ChildLeTotal(notePosition, id);
      Sorting.SortCorrect(children, ChildLe(notePosition, id));
      if |children| == 0 {
        assert notes == notes[id := notes[id].(children := [])];
        return;
      }
      var sorted := Sorting.Sort(children, ChildLe(notePosition, id));
      ReorderChildrenValid(notes, id, sorted);
      notes := notes[id := notes[id].(children := sorted)];
    }
  }


  // ---------------------------------------------------------------------
  // Helpers for the attribute cache
  // ---------------------------------------------------------------------

  /** The `addedAttributeIds` loop: the first attribute of each id, in order. */
  method Deduplicate(all: seq<Attribute>) returns (cache: seq<Attribute>)
    ensures cache == Inheritance.Dedupe(all)
  {
    cache := [];
    var added: set<string> := {};
    var i := 0;
    while i < |all|
      invariant 0 <= i <= |all|
      invariant cache + Inheritance.DedupeFrom(all[i..], added) == Inheritance.Dedupe(all)
    {
      DedupeLoopStep(all, i, added, cache);
      if all[i].attributeId !in added {
        added := added + {all[i].attributeId};
        cache := cache + [all[i]];
      }
      i := i + 1;
    }
  }

  lemma DedupeLoopStep(all: seq<Attribute>, i: nat, added: set<string>, cache: seq<Attribute>)
    requires i < |all| && cache + Inheritance.DedupeFrom(all[i..], added) == Inheritance.Dedupe(all)
    ensures all[i].attributeId in added ==> cache + Inheritance.DedupeFrom(all[i + 1..], added) == Inheritance.Dedupe(all)
    ensures all[i].attributeId !in added ==>
              (cache + [all[i]]) + Inheritance.DedupeFrom(all[i + 1..], added + {all[i].attributeId}) == Inheritance.Dedupe(all)
  {
    DedupeFromStep(all[i..], added);
    assert all[i..][1..] == all[i + 1..];
    if all[i].attributeId !in added {
      var rest := Inheritance.DedupeFrom(all[i + 1..], added + {all[i].attributeId});
      assert (cache + [all[i]]) + rest == cache + ([all[i]] + rest);
    }
  }

  lemma DedupeFromStep(s: seq<Attribute>, seen: set<string>)
    requires |s| > 0
    ensures s[0].attributeId in seen ==> Inheritance.DedupeFrom(s, seen) == Inheritance.DedupeFrom(s[1..], seen)
    ensures s[0].attributeId !in seen ==>
              Inheritance.DedupeFrom(s, seen) == [s[0]] + Inheritance.DedupeFrom(s[1..], seen + {s[0].attributeId})
  {
  }

  /** The push loop filling `__inheritableAttributeCache`. */
  method InheritableOnly(cache: seq<Attribute>) returns (r: seq<Attribute>)
    ensures r == InheritablePart(cache)
  {
    r := [];
    var i := 0;
    while i < |cache|
      invariant 0 <= i <= |cache|
      invariant r == InheritablePart(cache[..i])
    {
      assert cache[..i + 1] == cache[..i] + [cache[i]];
      FilterConcat(cache[..i], [cache[i]], (a: Attribute) => a.isInheritable);
      if cache[i].isInheritable {
        r := r + [cache[i]];
      }
      i := i + 1;
    }
    assert cache[..|cache|] == cache;
  }

  /** Deduplication keeps a distinct-id prefix in place. */
  lemma DedupePrefix(all: seq<Attribute>, owned: seq<Attribute>)
    requires |owned| <= |all| && all[..|owned|] == owned && DistinctIds(owned)
    ensures |owned| <= |Inheritance.Dedupe(all)| && Inheritance.Dedupe(all)[..|owned|] == owned
  {
    assert all == owned + all[|owned|..];
    Inheritance.DedupeConcat(owned, all[|owned|..], {});
    Inheritance.DedupeOfDistinct(owned, {});
  }


  // ---------------------------------------------------------------------
  // Invalidation: the notes reached
  // ---------------------------------------------------------------------

  /** The children of each note, then the notes using it as a template. */
  function SuccessorMap(notes: Store): map<NoteId, seq<NoteId>>
  {
    map k | k in notes :: notes[k].children + InheritorsOf(notes.Keys, notes[k].targetRelations)
  }

  lemma SameStructureSuccessors(a: Store, b: Store)
    requires SameStructure(a, b)
    ensures SuccessorMap(a) == SuccessorMap(b)
  {
  }

  /** One step of the `targetRelations` loop, as a set equation. */
  lemma TemplateUsersStep(m: map<NoteId, seq<NoteId>>, keys: set<NoteId>, rels: seq<Attribute>, j: nat, id: NoteId, path: seq<NoteId>, done: set<NoteId>)
    requires id in m && id !in path && j < |rels|
    ensures var rel := rels[j];
            var rest := InvalidateEach(m, InheritorsOf(keys, rels[j + 1..]), id, path);
            done + InvalidateEach(m, InheritorsOf(keys, rels[j..]), id, path)
            == if IsTemplateOrInherit(rel) && rel.noteId in keys
               then (done + InvalidationSet(m, rel.noteId, path + [id])) + rest
               else done + rest
  {
    InheritorsOfStep(keys, rels, j);
    if IsTemplateOrInherit(rels[j]) && rels[j].noteId in keys {
      InvalidateEachStep(m, InheritorsOf(keys, rels[j..]), id, path);
    } else {
      assert InheritorsOf(keys, rels[j..]) == InheritorsOf(keys, rels[j + 1..]);
    }
  }

  /** One step of the `children` loop, as a set equation. */
  lemma ChildrenStep(m: map<NoteId, seq<NoteId>>, children: seq<NoteId>, i: nat, id: NoteId, path: seq<NoteId>, done: set<NoteId>)
    requires id in m && id !in path && i < |children|
    ensures done + InvalidateEach(m, children[i..], id, path)
            == (done + InvalidationSet(m, children[i], path + [id])) + InvalidateEach(m, children[i + 1..], id, path)
  {
    assert children[i..][0] == children[i] && children[i..][1..] == children[i + 1..];
    InvalidateEachStep(m, children[i..], id, path);
  }

  /** Every successor named in the map is itself a key of the map. */
  ghost predicate SuccessorsInside(m: map<NoteId, seq<NoteId>>)
  {
    forall x, y | x in m && y in m[x] :: y in m
  }

  lemma SuccessorMapInside(notes: Store)
    requires StoreValid(notes)
    ensures SuccessorsInside(SuccessorMap(notes))
  {
    forall x | x in notes ensures forall c | c in notes[x].children :: c in notes {
      assert NoteValid(notes, x);
    }
    forall x | x in notes ensures forall c | c in InheritorsOf(notes.Keys, notes[x].targetRelations) :: c in notes {
      InheritorsOfMembers(notes.Keys, notes[x].targetRelations);
    }
  }

  /** The notes `invalidateSubTree(path)` clears, starting from `id`. */
  ghost function InvalidationSet(m: map<NoteId, seq<NoteId>>, id: NoteId, path: seq<NoteId>): set<NoteId>
    decreases m.Keys - Inheritance.PathSet(path), 1
  {
    if id in path || id !in m then {} else {id} + InvalidateEach(m, m[id], id, path)
  }

  ghost function InvalidateEach(m: map<NoteId, seq<NoteId>>, xs: seq<NoteId>, id: NoteId, path: seq<NoteId>): set<NoteId>
    requires id in m && id !in path
    decreases m.Keys - Inheritance.PathSet(path), 0, |xs|
  {
    if |xs| == 0 then {}
    else
      assert Inheritance.PathSet(path + [id]) == Inheritance.PathSet(path) + {id};
      InvalidationSet(m, xs[0], path + [id]) + InvalidateEach(m, xs[1..], id, path)
  }

  lemma InvalidateEachStep(m: map<NoteId, seq<NoteId>>, xs: seq<NoteId>, id: NoteId, path: seq<NoteId>)
    requires id in m && id !in path && |xs| > 0
    ensures InvalidateEach(m, xs, id, path) == InvalidationSet(m, xs[0], path + [id]) + InvalidateEach(m, xs[1..], id, path)
  {
  }

  lemma {:induction false} InvalidateEachContains(m: map<NoteId, seq<NoteId>>, xs: seq<NoteId>, id: NoteId, path: seq<NoteId>, y: NoteId)
    requires id in m && id !in path && y in xs
    ensures InvalidationSet(m, y, path + [id]) <= InvalidateEach(m, xs, id, path)
    decreases |xs|
  {
    if xs[0] != y {
      InvalidateEachContains(m, xs[1..], id, path, y);
    }
  }

  lemma {:induction false} InvalidateEachSource(m: map<NoteId, seq<NoteId>>, xs: seq<NoteId>, id: NoteId, path: seq<NoteId>, x: NoteId)
    requires id in m && id !in path && x in InvalidateEach(m, xs, id, path)
    ensures exists y :: y in xs && x in InvalidationSet(m, y, path + [id])
    decreases |xs|
  {
    if x !in InvalidationSet(m, xs[0], path + [id]) {
      InvalidateEachSource(m, xs[1..], id, path, x);
      var y :| y in xs[1..] && x in InvalidationSet(m, y, path + [id]);
      assert y in xs;
    }
  }

  lemma {:induction false} InvalidateEachConcat(m: map<NoteId, seq<NoteId>>, xs: seq<NoteId>, ys: seq<NoteId>, id: NoteId, path: seq<NoteId>)
    requires id in m && id !in path
    ensures InvalidateEach(m, xs + ys, id, path) == InvalidateEach(m, xs, id, path) + InvalidateEach(m, ys, id, path)
    decreases |xs|
  {
    if |xs| == 0 {
      assert xs + ys == ys;
    } else {
      assert (xs + ys)[0] == xs[0] && (xs + ys)[1..] == xs[1..] + ys;
      InvalidateEachConcat(m, xs[1..], ys, id, path);
    }
  }

  function SuccessorSet(m: map<NoteId, seq<NoteId>>): NoteId -> set<NoteId>
  {
    (x: NoteId) => if x in m then set y | y in m[x] else {}
  }

  /**
   * Whatever is cleared has its successors cleared too, unless they are on
   * the path (and so were cleared by an enclosing call).
   */
  lemma {:induction false} InvalidationSetClosedModuloPath(m: map<NoteId, seq<NoteId>>, id: NoteId, path: seq<NoteId>, x: NoteId, y: NoteId)
    requires SuccessorsInside(m)
    requires x in InvalidationSet(m, id, path) && y in SuccessorSet(m)(x)
    ensures y in InvalidationSet(m, id, path) || y in path
    decreases m.Keys - Inheritance.PathSet(path)
  {
    assert id !in path && id in m;
    assert Inheritance.PathSet(path + [id]) == Inheritance.PathSet(path) + {id};
    if x == id {
      if y != id && y !in path {
        assert y in m[id];
        assert y in InvalidationSet(m, y, path + [id]);
        InvalidateEachContains(m, m[id], id, path, y);
      }
    } else {
      InvalidateEachSource(m, m[id], id, path, x);
      var c :| c in m[id] && x in InvalidationSet(m, c, path + [id]);
      InvalidationSetClosedModuloPath(m, c, path + [id], x, y);
      if y in InvalidationSet(m, c, path + [id]) {
        InvalidateEachContains(m, m[id], id, path, c);
      }
    }
  }

  /**
   * From an empty path, invalidation reaches every note that can be reached
   * from `id` through children and template/inherit users.
   */
  lemma InvalidationCoversReachable(notes: Store, id: NoteId, s: seq<NoteId>)
    requires StoreValid(notes) && id in notes
    requires Reach.Generated(SuccessorSet(SuccessorMap(notes)), id, s)
    ensures forall j :: 0 <= j < |s| ==> s[j] in InvalidationSet(SuccessorMap(notes), id, [])
  {
    var m := SuccessorMap(notes);
    SuccessorMapInside(notes);
    var S := InvalidationSet(m, id, []);
    forall x, y | x in S && y in SuccessorSet(m)(x) ensures y in S {
      InvalidationSetClosedModuloPath(m, id, [], x, y);
    }
    assert id in S;
    Reach.GeneratedWithinClosed(SuccessorSet(m), id, s, S);
  }

  // ---------------------------------------------------------------------
  // Ancestors: discovery helpers
  // ---------------------------------------------------------------------

  /**
   * `list` holds distinct notes, each a parent of `id` or of an earlier
   * entry, and `seen` is its set of ids.
   */
  ghost predicate Listed(succ: NoteId -> set<NoteId>, id: NoteId, list: seq<NoteId>, seen: set<NoteId>)
  {
    seen == (set x | x in list)
    && Distinct(list)
    && Reach.Generated(succ, id, [id] + list)
  }

  /** `seen` holds the parents of each of its members. */
  ghost predicate ClosedSeen(succ: NoteId -> set<NoteId>, seen: set<NoteId>)
  {
    forall x, y :: x in seen && y in succ(x) ==> y in seen
  }

  /** The loop state of `getAncestors`. */
  ghost predicate Discovered(succ: NoteId -> set<NoteId>, id: NoteId, list: seq<NoteId>, seen: set<NoteId>)
  {
    Listed(succ, id, list, seen) && ClosedSeen(succ, seen)
  }

  lemma ParentRankBelow(a: Store, rank: map<NoteId, nat>, id: NoteId, parents: seq<NoteId>, i: nat)
    requires NotePaths.Ranked(a, rank) && id in a && parents == a[id].parents && i < |parents|
    ensures parents[i] in a && parents[i] in rank && id in rank && rank[parents[i]] < rank[id]
  {
    assert parents[i] in a[id].parents;
  }

  lemma ParentOf(succ: NoteId -> set<NoteId>, a: Store, id: NoteId, parents: seq<NoteId>, i: nat)
    requires succ == SuccOf(ParentMap(a)) && id in a && parents == a[id].parents && i < |parents|
    ensures parents[i] in succ(id)
  {
    assert parents[i] in a[id].parents;
  }

  /** Once every parent of `id` is seen, `id` and its discovered ancestors are closed upwards. */
  lemma ParentsAllSeen(succ: NoteId -> set<NoteId>, a: Store, id: NoteId, list: seq<NoteId>, seen: set<NoteId>)
    requires succ == SuccOf(ParentMap(a)) && id in a
    requires Discovered(succ, id, list, seen)
    requires forall k :: 0 <= k < |a[id].parents| ==> a[id].parents[k] in seen
    ensures Reach.Closed(succ, {id} + set x | x in list)
  {
    forall y | y in succ(id) ensures y in seen {
      assert y in a[id].parents;
    }
  }

  /** Appending a newly discovered parent of a listed note keeps the list well formed. */
  lemma ListedAppend(succ: NoteId -> set<NoteId>, id: NoteId, list: seq<NoteId>, seen: set<NoteId>, x: NoteId, w: NoteId)
    requires Listed(succ, id, list, seen) && x !in seen && (w == id || w in seen) && x in succ(w)
    ensures Listed(succ, id, list + [x], seen + {x})
  {
    assert w in [id] + list;
    var wi := IndexIn([id] + list, w);
    GeneratedExtend(succ, id, [id] + list, x, wi);
    assert [id] + list + [x] == [id] + (list + [x]);
    assert (set y | y in list + [x]) == seen + {x};
    var l := list + [x];
    forall i, j | 0 <= i < j < |l| ensures l[i] != l[j] {
      if j == |list| {
        assert l[i] == list[i] && list[i] in seen;
      }
    }
  }

  /** After merging, everything seen has its parents seen. */
  lemma MergedClosed(succ: NoteId -> set<NoteId>, seen0: set<NoteId>, parent: NoteId, above: seq<NoteId>, seen: set<NoteId>)
    requires ClosedSeen(succ, seen0) && seen0 <= seen && parent in seen
    requires forall x :: x in seen ==> x in seen0 || x == parent || x in above
    requires forall t :: 0 <= t < |above| ==> above[t] in seen
    requires Reach.Closed(succ, {parent} + set x | x in above)
    ensures ClosedSeen(succ, seen)
  {
    AncestorsClosedIntoSeen(succ, parent, above, seen);
  }

  /**
   * One iteration of the outer loop of `getAncestors`: the parent, then each
   * of its ancestors not seen yet, in order.
   */
  method MergeParent(ghost succ: NoteId -> set<NoteId>, id: NoteId, parent: NoteId, above: seq<NoteId>,
                     list0: seq<NoteId>, seen0: set<NoteId>)
    returns (list: seq<NoteId>, seen: set<NoteId>)
    requires Discovered(succ, id, list0, seen0) && parent !in seen0 && parent in succ(id)
    requires Reach.Generated(succ, parent, [parent] + above)
    requires Reach.Closed(succ, {parent} + set x | x in above)
    ensures Discovered(succ, id, list, seen)
    ensures parent in seen && seen0 <= seen
  {
    ListedAppend(succ, id, list0, seen0, parent, id);
    list := list0 + [parent];
    seen := seen0 + {parent};
    var k := 0;
    while k < |above|
      invariant 0 <= k <= |above|
      invariant Listed(succ, id, list, seen)
      invariant parent in seen && seen0 <= seen
      invariant forall x :: x in seen ==> x in seen0 || x == parent || x in above
      invariant forall t :: 0 <= t < k ==> above[t] in seen
    {
      if above[k] !in seen {
        ghost var w := WitnessInAncestors(succ, parent, above, k);
        assert w in seen by {
          if w != parent {
            var t :| 0 <= t < k && above[..k][t] == w;
            assert above[t] == w;
          }
        }
        ListedAppend(succ, id, list, seen, above[k], w);
        list := list + [above[k]];
        seen := seen + {above[k]};
      }
      k := k + 1;
    }
    MergedClosed(succ, seen0, parent, above, seen);
  }

  function IndexIn(s: seq<NoteId>, x: NoteId): (i: nat)
    requires x in s
    ensures i < |s| && s[i] == x
  {
    if s[0] == x then 0 else 1 + IndexIn(s[1..], x)
  }

  lemma GeneratedExtend(succ: NoteId -> set<NoteId>, start: NoteId, s: seq<NoteId>, x: NoteId, w: nat)
    requires Reach.Generated(succ, start, s)
    requires w < |s| && x in succ(s[w])
    ensures Reach.Generated(succ, start, s + [x])
  {
    var t := s + [x];
    forall j | 0 < j < |t| ensures exists i :: 0 <= i < j && t[j] in succ(t[i]) {
      if j == |s| {
        assert t[w] == s[w];
      } else {
        var i :| 0 <= i < j && s[j] in succ(s[i]);
        assert t[i] == s[i];
      }
    }
  }

  /** Each element of a parent's ancestor list has a parent-link witness already discovered. */
  lemma WitnessInAncestors(succ: NoteId -> set<NoteId>, parent: NoteId, above: seq<NoteId>, k: nat) returns (w: NoteId)
    requires Reach.Generated(succ, parent, [parent] + above)
    requires k < |above|
    ensures w == parent || w in above[..k]
    ensures above[k] in succ(w)
  {
    var t := [parent] + above;
    assert t[k + 1] == above[k];
    var i :| 0 <= i < k + 1 && t[k + 1] in succ(t[i]);
    w := t[i];
    if i > 0 {
      assert w == above[i - 1];
    }
  }

  lemma AncestorsClosedIntoSeen(succ: NoteId -> set<NoteId>, parent: NoteId, above: seq<NoteId>, seen: set<NoteId>)
    requires Reach.Closed(succ, {parent} + set x | x in above)
    requires parent in seen && forall t :: 0 <= t < |above| ==> above[t] in seen
    ensures forall y :: y in succ(parent) ==> y in seen
    ensures forall x, y :: x in above && y in succ(x) ==> y in seen
  {
    var S := {parent} + set x | x in above;
    forall y | y in succ(parent) ensures y in seen {
      assert parent in S;
      assert y in S;
      if y != parent {
        var t :| 0 <= t < |above| && above[t] == y;
      }
    }
    forall x, y | x in above && y in succ(x) ensures y in seen {
      assert x in S;
      assert y in S;
      if y != parent {
        var t :| 0 <= t < |above| && above[t] == y;
      }
    }
  }

  // ---------------------------------------------------------------------
  // sortChildren helpers
  // ---------------------------------------------------------------------

  /** `(branch?.notePosition || 0)`: the position of the branch, 0 when missing. */
  function PositionOf(notePosition: map<(NoteId, NoteId), int>, parent: NoteId, child: NoteId): int
  {
    if (child, parent) in notePosition then notePosition[(child, parent)] else 0
  }

  /** The comparator of `sortChildren` as a "less or equal". */
  function ChildLe(notePosition: map<(NoteId, NoteId), int>, parent: NoteId): (NoteId, NoteId) -> bool
  {
    (a: NoteId, b: NoteId) => PositionOf(notePosition, parent, a) - PositionOf(notePosition, parent, b) <= 0
  }

  lemma ChildLeTotal(notePosition: map<(NoteId, NoteId), int>, parent: NoteId)
    ensures Sorting.TotalPreorder(ChildLe(notePosition, parent))
  {
  }
}
