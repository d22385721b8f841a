/**
 * The "inherited attributes" ribbon: the attributes of a note that it does
 * not own, grouped by the note that owns them (owners in ascending id
 * order) and, within one owner, in attribute position order.
 */
module InheritedAttributes {
  import opened Common
  import opened NoteGraph
  import Sorting

  /** JavaScript's `<` on strings: lexicographic on characters, a proper prefix first. */
  predicate StrLess(a: string, b: string)
    decreases |a|
  {
    |b| > 0 && (|a| == 0 || a[0] < b[0] || (a[0] == b[0] && StrLess(a[1..], b[1..])))
  }

  lemma {:induction false} StrLessIrreflexive(a: string)
    ensures !StrLess(a, a)
    decreases |a|
  {
    if |a| > 0 {
      StrLessIrreflexive(a[1..]);
    }
  }

  lemma {:induction false} StrLessTotal(a: string, b: string)
    requires a != b
    ensures StrLess(a, b) || StrLess(b, a)
    decreases |a|
  {
    if |a| > 0 && |b| > 0 && a[0] == b[0] {
      assert a == [a[0]] + a[1..] && b == [b[0]] + b[1..];
      StrLessTotal(a[1..], b[1..]);
    }
  }

  lemma {:induction false} StrLessTrans(a: string, b: string, c: string)
    requires StrLess(a, b) && StrLess(b, c)
    ensures StrLess(a, c)
    decreases |a|
  {
    if |a| > 0 && a[0] == b[0] && b[0] == c[0] {
      StrLessTrans(a[1..], b[1..], c[1..]);
    }
  }

  /**
   * The comparator of `getInheritedAttributes` as a "less or equal": by
   * position within one owner note, otherwise by the owner's id.
   */
  function AttrLe(): (Attribute, Attribute) -> bool
  {
    (a: Attribute, b: Attribute) =>
      (if a.noteId == b.noteId then a.position - b.position else if StrLess(a.noteId, b.noteId) then -1 else 1) <= 0
  }

  lemma AttrLeTotalPreorder()
    ensures Sorting.TotalPreorder(AttrLe())
  {
    var le := AttrLe();
    forall a: Attribute, b: Attribute
      ensures le(a, b) || le(b, a)
    {
      if a.noteId != b.noteId {
        StrLessTotal(a.noteId, b.noteId);
      }
    }
    forall a: Attribute, b: Attribute, c: Attribute | le(a, b) && le(b, c)
      ensures le(a, c)
    {
      if a.noteId != b.noteId && b.noteId != c.noteId {
        StrLessTrans(a.noteId, b.noteId, c.noteId);
        if a.noteId == c.noteId {
          StrLessIrreflexive(a.noteId);
        }
      }
    }
  }

  /** The attribute is not owned by the note `noteId`. */
  function NotOwnedBy(noteId: NoteId): Attribute -> bool
  {
    (a: Attribute) => a.noteId != noteId
  }

  /**
   * `getInheritedAttributes`: of all the attributes of the note `noteId`
   * (`attributes`, own and inherited), those another note owns, sorted.
   */
  function GetInheritedAttributes(attributes: seq<Attribute>, noteId: NoteId): (r: seq<Attribute>)
    ensures forall a | a in r :: a.noteId != noteId
    ensures multiset(r) == multiset(Filter(attributes, NotOwnedBy(noteId)))
    ensures forall a | a in attributes && a.noteId != noteId :: a in r
  {
    var filtered := Filter(attributes, NotOwnedBy(noteId));
    var r := Sorting.Sort(filtered, AttrLe());
    assert forall a | a in r :: a in multiset(filtered);
    assert forall a | a in filtered :: a in multiset(r);
    r
  }

  /**
   * The list is grouped by owner: attributes of one owner are contiguous,
   * owners come in ascending id order, and within one owner the positions
   * ascend.
   */
  lemma InheritedGrouped(attributes: seq<Attribute>, noteId: NoteId)
    ensures var r := GetInheritedAttributes(attributes, noteId);
            forall i, j | 0 <= i < j < |r| ::
              (r[i].noteId == r[j].noteId ==> r[i].position <= r[j].position)
              && (r[i].noteId != r[j].noteId ==> StrLess(r[i].noteId, r[j].noteId))
    ensures var r := GetInheritedAttributes(attributes, noteId);
            forall i, j, k | 0 <= i < j < k < |r| && r[i].noteId == r[k].noteId :: r[j].noteId == r[i].noteId
  {
    var r := GetInheritedAttributes(attributes, noteId);
    AttrLeTotalPreorder();
    Sorting.SortCorrect(Filter(attributes, NotOwnedBy(noteId)), AttrLe());
    assert Sorting.SortedBy(r, AttrLe());
    forall i, j, k | 0 <= i < j < k < |r| && r[i].noteId == r[k].noteId
      ensures r[j].noteId == r[i].noteId
    {
      assert AttrLe()(r[i], r[j]) && AttrLe()(r[j], r[k]);
      if r[j].noteId != r[i].noteId {
        StrLessTrans(r[i].noteId, r[j].noteId, r[k].noteId);
        StrLessIrreflexive(r[i].noteId);
      }
    }
  }
}
