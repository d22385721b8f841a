/**
 * The search expression tree, `OrExp.of`, and the evaluation of the
 * expressions whose `execute` is part of the model: `OrExp`,
 * `AttributeExistsExp` and `DescendantOfExp` (plus `TrueExp`, which passes
 * its input through). A note set is a `set<NoteId>`; the insertion order of
 * the source's `NoteSet` is not kept. The other expression kinds are
 * evaluated by a `leaf` function supplied by the caller, which is only
 * required to return a part of its input, as every expression does.
 *
 * `Run` is the meaning of an expression over a note set; the `Execute`
 * methods, which follow the loops of the source, are proved to compute it.
 */
module SearchExpressions {
  import opened Common
  import opened NoteGraph
  import Reach
  import Subtree

  /** One `orderby` entry: the property path and `asc`/`desc` (absent: as given by the caller). */
  datatype OrderDefinition = OrderDefinition(propertyPath: seq<string>, direction: Option<string>)

  /** `limit` of `OrderByAndLimitExp`: absent, `NaN` (an unparsable number), or a number. */
  datatype Limit = NoLimit | NaNLimit | LimitOf(n: int)

  datatype Exp =
    | TrueExp
    | AndExp(subs: seq<Exp>)
    | OrExp(subs: seq<Exp>)
    | NotExp(sub: Exp)
    | ChildOfExp(sub: Exp)
    | ParentOfExp(sub: Exp)
    | DescendantOfExp(sub: Exp)
    | RelationWhereExp(relationName: string, sub: Exp)
    | PropertyComparisonExp(propertyName: string, operator: string, comparedValue: string)
    | AttributeExistsExp(attributeType: string, attributeName: string, prefixMatch: bool)
    | LabelComparisonExp(attributeType: string, attributeName: string, operator: string, comparedValue: string)
    | NoteFlatTextExp(tokens: seq<string>)
    | NoteContentFulltextExp(operator: string, tokens: seq<string>, raw: bool, flatText: bool)
    | OrderByAndLimitExp(orderDefinitions: seq<OrderDefinition>, limit: Limit, subExpression: Option<Exp>)
    | AncestorExp(ancestorNoteId: string, ancestorDepth: Option<string>)
    | IsHiddenExp

  // ---------------------------------------------------------------------
  // OrExp.of / AndExp.of
  // ---------------------------------------------------------------------

  /** The sub-expressions that are present, in order (`filter(exp => !!exp)`). */
  function Present(subs: seq<Option<Exp>>): (r: seq<Exp>)
    ensures |r| <= |subs|
    ensures forall e :: e in r <==> Some(e) in subs
  {
    if |subs| == 0 then []
    else
      assert forall o :: o in subs <==> o == subs[0] || o in subs[1..];
      (if subs[0].Some? then [subs[0].value] else []) + Present(subs[1..])
  }

  /** `OrExp.of`: the one present expression itself, an `OrExp` of several, or `TrueExp` for none. */
  function OrOf(subs: seq<Option<Exp>>): Exp
  {
    var live := Present(subs);
    if |live| == 1 then live[0] else if |live| > 0 then OrExp(live) else TrueExp
  }

  /**
   * `AndExp.of` (and.ts is not part of this model): taken to treat its list
   * as `OrExp.of` does, building an `AndExp` from several expressions.
   */
  function AndOf(subs: seq<Option<Exp>>): Exp
  {
    var live := Present(subs);
    if |live| == 1 then live[0] else if |live| > 0 then AndExp(live) else TrueExp
  }

  // ---------------------------------------------------------------------
  // Meaning
  // ---------------------------------------------------------------------

  /** The evaluation of an expression kind whose `execute` is outside the model. */
  type Leaf = (Exp, set<NoteId>) -> set<NoteId>

  /** Every expression returns a part of its input. */
  ghost predicate LeafSound(leaf: Leaf)
  {
    forall e, s :: leaf(e, s) <= s
  }

  /** `AttributeExistsExp.isTemplateLabel`. */
  predicate IsTemplateLabel(attributeType: string, attributeName: string)
  {
    attributeType == "label" && (attributeName == "template" || attributeName == "workspacetemplate")
  }

  /**
   * `becca.findAttributes` / `becca.findAttributesWithPrefix` (becca.ts is
   * not part of this model): the owned attributes of the given type whose
   * name is `name`, or starts with it when `prefixMatch` is set.
   */
  function FindAttributes(notes: Store, attributeType: string, name: string, prefixMatch: bool): set<Attribute>
  {
    set k, a | k in notes && a in notes[k].ownedAttributes && TypeName(a.attrType) == attributeType
                 && (if prefixMatch then StartsWith(a.name, name) else a.name == name) :: a
  }

  /** The templated subtree of a note: what `getSubtreeNotesIncludingTemplated` lists. */
  function TemplatedSubtree(notes: Store, id: NoteId): set<NoteId>
    requires id in notes
  {
    if id == HIDDEN then {} else Reach.Reachable(Subtree.TemplatedSucc(notes), notes.Keys, id)
  }

  /** The notes one matching attribute contributes in `AttributeExistsExp.execute`. */
  function Contribution(notes: Store, a: Attribute, templateLabel: bool): set<NoteId>
    requires a.noteId in notes
  {
    if a.isInheritable && !templateLabel then TemplatedSubtree(notes, a.noteId)
    else if IsInherited(notes[a.noteId]) && !templateLabel then set x | x in InheritingNotes(notes, a.noteId)
    else {a.noteId}
  }

  /** Everything the attributes of `attrs` contribute. */
  function Collected(notes: Store, attrs: set<Attribute>, templateLabel: bool): set<NoteId>
  {
    set a, x | a in attrs && a.noteId in notes && x in Contribution(notes, a, templateLabel) :: x
  }

  /** `getSubtree()` with the default options, as a set: empty for `_hidden`. */
  function DefaultSubtree(notes: Store, id: NoteId): set<NoteId>
    requires id in notes
  {
    if id == HIDDEN then {}
    else Reach.Reachable(Subtree.SubtreeSucc(notes, Subtree.DEFAULT_OPTIONS, map[]), notes.Keys, id)
  }

  /** The union of the default subtrees of the notes of `matches`. */
  function Subtrees(notes: Store, matches: set<NoteId>): set<NoteId>
  {
    set m, x | m in matches && m in notes && x in DefaultSubtree(notes, m) :: x
  }

  /**
   * The note set an expression yields on `input`: `OrExp` the union of its
   * sub-expressions' results on the same input; `AttributeExistsExp` the
   * input notes among those the matching attributes contribute;
   * `DescendantOfExp` the input notes lying in the subtree of a note its
   * sub-expression matches among all notes; `TrueExp` the input.
   */
  function Run(notes: Store, e: Exp, input: set<NoteId>, leaf: Leaf): set<NoteId>
    decreases e, 1
  {
    match e
    case TrueExp => input
    case OrExp(subs) => RunAll(notes, subs, input, leaf)
    case AttributeExistsExp(t, name, prefixMatch) =>
      input * Collected(notes, FindAttributes(notes, t, name, prefixMatch), IsTemplateLabel(t, name))
    case DescendantOfExp(sub) => input * Subtrees(notes, Run(notes, sub, notes.Keys, leaf))
    case _ => leaf(e, input)
  }

  /** The union of the results of `subs` on the same input. */
  function RunAll(notes: Store, subs: seq<Exp>, input: set<NoteId>, leaf: Leaf): set<NoteId>
    decreases subs, 0
  {
    if |subs| == 0 then {} else Run(notes, subs[0], input, leaf) + RunAll(notes, subs[1..], input, leaf)
  }

  // ---------------------------------------------------------------------
  // Properties of the meaning
  // ---------------------------------------------------------------------

  /** The attributes found by the lookup belong to notes of the store. */
  lemma AttributeOwnersInStore(notes: Store, attributeType: string, name: string, prefixMatch: bool)
    requires StoreValid(notes)
    ensures forall a | a in FindAttributes(notes, attributeType, name, prefixMatch) :: a.noteId in notes
  {
    forall a | a in FindAttributes(notes, attributeType, name, prefixMatch) ensures a.noteId in notes {
      var k :| k in notes && a in notes[k].ownedAttributes;
      assert NoteValid(notes, k);
    }
  }

  /** `OrExp.of`: with several present expressions it means their union; with none it is `TrueExp`. */
  lemma OrOfMeaning(notes: Store, subs: seq<Option<Exp>>, input: set<NoteId>, leaf: Leaf)
    ensures |Present(subs)| == 0 ==> OrOf(subs) == TrueExp
    ensures |Present(subs)| == 1 ==> OrOf(subs) == Present(subs)[0]
    ensures |Present(subs)| > 0 ==> Run(notes, OrOf(subs), input, leaf) == RunAll(notes, Present(subs), input, leaf)
  {
    var live := Present(subs);
    if |live| == 1 {
      assert live[1..] == [];
    }
  }

  /** `RunAll` holds exactly what some sub-expression yields. */
  lemma {:induction false} RunAllMembers(notes: Store, subs: seq<Exp>, input: set<NoteId>, leaf: Leaf, x: NoteId)
    ensures x in RunAll(notes, subs, input, leaf) <==> exists k :: 0 <= k < |subs| && x in Run(notes, subs[k], input, leaf)
  {
    if |subs| > 0 {
      RunAllMembers(notes, subs[1..], input, leaf, x);
      if x in RunAll(notes, subs[1..], input, leaf) {
        var k :| 0 <= k < |subs[1..]| && x in Run(notes, subs[1..][k], input, leaf);
        assert x in Run(notes, subs[k + 1], input, leaf);
      }
      if exists k :: 0 <= k < |subs| && x in Run(notes, subs[k], input, leaf) {
        var k :| 0 <= k < |subs| && x in Run(notes, subs[k], input, leaf);
        if k > 0 {
          assert subs[1..][k - 1] == subs[k];
        }
      }
    }
  }

  /** Every expression yields a part of its input. */
  lemma {:induction false} RunWithinInput(notes: Store, e: Exp, input: set<NoteId>, leaf: Leaf)
    requires LeafSound(leaf)
    ensures Run(notes, e, input, leaf) <= input
    decreases e, 1
  {
    match e
    case OrExp(subs) => RunAllWithinInput(notes, subs, input, leaf);
    case _ =>
  }

  lemma {:induction false} RunAllWithinInput(notes: Store, subs: seq<Exp>, input: set<NoteId>, leaf: Leaf)
    requires LeafSound(leaf)
    ensures RunAll(notes, subs, input, leaf) <= input
    decreases subs, 0
  {
    if |subs| > 0 {
      RunWithinInput(notes, subs[0], input, leaf);
      RunAllWithinInput(notes, subs[1..], input, leaf);
    }
  }

  /** A `template`/`workspacetemplate` label matches only the notes that own it. */
  lemma TemplateLabelMatchesOwners(notes: Store, name: string, prefixMatch: bool, input: set<NoteId>, leaf: Leaf)
    requires StoreValid(notes)
    requires IsTemplateLabel("label", name)
    ensures Run(notes, AttributeExistsExp("label", name, prefixMatch), input, leaf)
            == input * set a | a in FindAttributes(notes, "label", name, prefixMatch) :: a.noteId
  {
    AttributeOwnersInStore(notes, "label", name, prefixMatch);
    var attrs := FindAttributes(notes, "label", name, prefixMatch);
    assert Collected(notes, attrs, true) == set a | a in attrs :: a.noteId by {
      forall x | x in (set a | a in attrs :: a.noteId) ensures x in Collected(notes, attrs, true) {
        var a :| a in attrs && a.noteId == x;
        assert x in Contribution(notes, a, true);
      }
    }
  }

  /**
   * A note the sub-expression of `DescendantOfExp` matches among all notes
   * is kept when it is in the input, unless it is `_hidden`.
   */
  lemma MatchedNoteKept(notes: Store, sub: Exp, input: set<NoteId>, leaf: Leaf, m: NoteId)
    requires m in Run(notes, sub, notes.Keys, leaf) && m in notes && m != HIDDEN && m in input
    ensures m in Run(notes, DescendantOfExp(sub), input, leaf)
  {
    assert m in DefaultSubtree(notes, m);
  }

  // ---------------------------------------------------------------------
  // execute
  // ---------------------------------------------------------------------

  /** `expression.execute(inputNoteSet)`, dispatched on the kind of expression. */
  method Execute(notes: Store, e: Exp, input: set<NoteId>, leaf: Leaf) returns (r: set<NoteId>)
    requires StoreValid(notes) && LeafSound(leaf)
    ensures r == Run(notes, e, input, leaf)
    decreases e, 1
  {
    match e
    case TrueExp => r := input;
    case OrExp(subs) => r := ExecuteOr(notes, subs, input, leaf);
    case AttributeExistsExp(t, name, prefixMatch) => r := ExecuteAttributeExists(notes, t, name, prefixMatch, input);
    case DescendantOfExp(sub) => r := ExecuteDescendantOf(notes, sub, input, leaf);
    case _ => r := leaf(e, input);
  }

  /** `OrExp.execute`: merges each sub-expression's result on the same input. */
  method ExecuteOr(notes: Store, subs: seq<Exp>, input: set<NoteId>, leaf: Leaf) returns (r: set<NoteId>)
    requires StoreValid(notes) && LeafSound(leaf)
    ensures r == RunAll(notes, subs, input, leaf)
    decreases subs, 0
  {
    r := {};
    var i := 0;
    while i < |subs|
      invariant 0 <= i <= |subs|
      invariant r + RunAll(notes, subs[i..], input, leaf) == RunAll(notes, subs, input, leaf)
    {
      var part := Execute(notes, subs[i], input, leaf);
      assert subs[i..][1..] == subs[i + 1..];
      r := r + part;
      i := i + 1;
    }
  }

  /** Adding one attribute's contribution. */
  lemma CollectedAdd(notes: Store, attrs: set<Attribute>, a: Attribute, templateLabel: bool)
    requires a.noteId in notes
    ensures Collected(notes, attrs + {a}, templateLabel) == Collected(notes, attrs, templateLabel) + Contribution(notes, a, templateLabel)
  {
  }

  /** The notes one matching attribute adds, computed as the loop body of `AttributeExistsExp.execute` does. */
  method ContributionOf(notes: Store, attr: Attribute, templateLabel: bool) returns (s: set<NoteId>)
    requires StoreValid(notes) && attr.noteId in notes
    ensures s == Contribution(notes, attr, templateLabel)
  {
    var noteId := attr.noteId;
    if attr.isInheritable && !templateLabel {
      var subtree := Subtree.GetSubtreeNotesIncludingTemplated(notes, noteId);
      s := set x | x in subtree;
    } else if IsInherited(notes[noteId]) && !templateLabel {
      s := set x | x in InheritingNotes(notes, noteId);
    } else {
      s := {noteId};
    }
  }

  /**
   * `AttributeExistsExp.execute`: every matching attribute adds its owner's
   * templated subtree (inheritable, not a template label), the owner and
   * the notes inheriting from it (owner used as template or inherit
   * source), or else just its owner; the result is cut down to the input.
   */
  method ExecuteAttributeExists(notes: Store, attributeType: string, attributeName: string, prefixMatch: bool,
                                input: set<NoteId>) returns (r: set<NoteId>)
    requires StoreValid(notes)
    ensures r <= input
    ensures r == input * Collected(notes, FindAttributes(notes, attributeType, attributeName, prefixMatch),
                                   IsTemplateLabel(attributeType, attributeName))
  {
    var attrs := FindAttributes(notes, attributeType, attributeName, prefixMatch);
    AttributeOwnersInStore(notes, attributeType, attributeName, prefixMatch);
    var templateLabel := IsTemplateLabel(attributeType, attributeName);
    var resultNoteSet: set<NoteId> := {};
    var rest := attrs;
    while rest != {}
      invariant rest <= attrs
      invariant resultNoteSet == Collected(notes, attrs - rest, templateLabel)
      decreases rest
    {
      var attr :| attr in rest;
      var added := ContributionOf(notes, attr, templateLabel);
      resultNoteSet := resultNoteSet + added;
      CollectedAdd(notes, attrs - rest, attr, templateLabel);
      assert (attrs - rest) + {attr} == attrs - (rest - {attr});
      rest := rest - {attr};
    }
    r := resultNoteSet * input;
  }

  /** Adding one matched note's subtree. */
  lemma SubtreesAdd(notes: Store, matches: set<NoteId>, m: NoteId)
    requires m in notes
    ensures Subtrees(notes, matches + {m}) == Subtrees(notes, matches) + DefaultSubtree(notes, m)
  {
  }

  /** With the default options a note is kept exactly when it is not `_hidden`. */
  lemma DefaultKept(notes: Store, id: NoteId)
    ensures Subtree.Kept(notes, Subtree.DEFAULT_OPTIONS, id) <==> id != HIDDEN
  {
  }

  /** The notes of `getSubtree()` with the default options, as a set. */
  method SubtreeSet(notes: Store, id: NoteId) returns (s: set<NoteId>)
    requires StoreValid(notes) && id in notes
    ensures s == DefaultSubtree(notes, id)
  {
    var noteIds, _ := Subtree.GetSubtree(notes, id, Subtree.DEFAULT_OPTIONS, map[]);
    DefaultKept(notes, id);
    s := set x | x in noteIds;
  }

  /**
   * `DescendantOfExp.execute`: runs the sub-expression on all notes, joins
   * the subtrees of what it matches, and keeps the input notes among them.
   */
  method ExecuteDescendantOf(notes: Store, sub: Exp, input: set<NoteId>, leaf: Leaf) returns (r: set<NoteId>)
    requires StoreValid(notes) && LeafSound(leaf)
    ensures r == input * Subtrees(notes, Run(notes, sub, notes.Keys, leaf))
    decreases DescendantOfExp(sub), 0
  {
    var subResNoteSet := Execute(notes, sub, notes.Keys, leaf);
    RunWithinInput(notes, sub, notes.Keys, leaf);
    var subTreeNoteSet: set<NoteId> := {};
    var rest := subResNoteSet;
    while rest != {}
      invariant rest <= subResNoteSet
      invariant subTreeNoteSet == Subtrees(notes, subResNoteSet - rest)
      decreases rest
    {
      var m :| m in rest;
      var subtree := SubtreeSet(notes, m);
      subTreeNoteSet := subTreeNoteSet + subtree;
      SubtreesAdd(notes, subResNoteSet - rest, m);
      assert (subResNoteSet - rest) + {m} == subResNoteSet - (rest - {m});
      rest := rest - {m};
    }
    r := input * subTreeNoteSet;
  }
}
