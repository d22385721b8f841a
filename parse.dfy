/**
 * The query parser: `getExpression` turns the grouped expression tokens
 * into an expression tree, recording diagnostics in the shared
 * `SearchContext`; `parse` combines it with the archived filter, the
 * ancestor restriction and the full-text part.
 *
 * `getExpression` is a class here: one `ExpressionParser` object holds the
 * state its closures share (the cursor `i`, the collected `expressions`,
 * the operator `op`), and a parenthesised group is parsed by a fresh
 * object over the group's tokens. A JavaScript exception is an `Outcome`
 * of `Thrown`. Reading `.token` of a parenthesised group yields
 * `undefined`; where that value is used as text it is written
 * `"undefined"`, as a template string would show it.
 */
module Parse {
  import opened Common
  import opened HandleParens
  import opened SearchContexts
  import opened SearchExpressions

  /** A completed call, or a thrown exception with its message. */
  datatype Outcome<+T> = Normal(value: T) | Thrown(message: string)

  /**
   * The collaborators of the parser that are not part of this model:
   * `utils.removeDiacritic`, `PropertyComparisonExp.isProperty`,
   * whether `buildComparator(operator, value)` yields a comparator,
   * `ValueExtractor.validate()` for a property path, and the formatted
   * `dayjs()` date for `now`/`today`/`month`/`year` moved by a delta
   * (`None` when the delta is NaN).
   */
  datatype Env = Env(
    removeDiacritic: string -> string,
    isProperty: string -> bool,
    hasComparator: (string, string) -> bool,
    validate: seq<string> -> Option<string>,
    relativeDate: (string, Option<int>) -> string)

  /** Message of the `TypeError` raised by reading a property of `undefined` (the engine's exact text is not modelled). */
  const TYPE_ERROR := "Cannot read properties of undefined"
  const MIXED_AND_OR := "Mixed usage of AND/OR - always use parenthesis to group AND/OR expressions."
  const ORDER_BY_NOT_TOP := "orderBy can appear only on the top expression level"
  const MAX_SAFE_INTEGER := 9007199254740991

  const OPERATORS: seq<string> := ["=", "!=", "*=*", "*=", "=*", ">", ">=", "<", "<=", "%="]
  const DATE_KEYWORDS: seq<string> := ["now", "today", "month", "year"]

  /** `isOperator`: a plain token whose text is one of the comparison operators. */
  predicate IsOperator(t: Token)
  {
    t.Tok? && t.token in OPERATORS
  }

  /** `t.token`: the text of a plain token, `undefined` for a group. */
  function Text(t: Token): Option<string>
  {
    if t.Tok? then Some(t.token) else None
  }

  /** A possibly `undefined` text as a template string shows it. */
  function Shown(s: Option<string>): string
  {
    if s.Some? then s.value else "undefined"
  }

  /** `tokens[k].token`: throws past the end of the list. */
  function TextAt(ts: seq<Token>, k: int): (r: Outcome<Option<string>>)
    ensures r.Thrown? <==> !(0 <= k < |ts|)
    ensures r.Normal? ==> r.value == Text(ts[k])
  {
    if 0 <= k < |ts| then Normal(Text(ts[k])) else Thrown(TYPE_ERROR)
  }

  /** `tokens[k].token === s` for an index inside the list. */
  predicate TokenIs(ts: seq<Token>, k: int, s: string)
  {
    0 <= k < |ts| && ts[k].Tok? && ts[k].token == s
  }

  /**
   * `context(i)`: the original query around a token, twenty characters
   * either side, quoted, with `...` where it was cut.
   */
  function Context(query: string, t: Token): (r: string)
    ensures |r| >= 2 && r[0] == '"' && r[|r| - 1] == '"'
  {
    var startIndex := if t.Tok? then t.startIndex else 0;
    var start := if startIndex - 20 > 0 then startIndex - 20 else 0;
    var endIndex := if t.Tok? && t.endIndex != 0 then t.endIndex else MAX_SAFE_INTEGER;
    var end := if |query| < endIndex + 20 then |query| else endIndex + 20;
    "\"" + (if start != 0 then "..." else "") + (if start < end then query[start..end] else "")
    + (if end != |query| then "..." else "") + "\""
  }

  /** The NaN-propagating `delta += parseInt(...)` / `delta -= parseInt(...)`. */
  function MoveDelta(delta: Option<int>, amount: Option<int>, negative: bool): Option<int>
  {
    if delta.None? || amount.None? then None
    else if negative then Some(delta.value - amount.value)
    else Some(delta.value + amount.value)
  }

  /** An unquoted operand that names an attribute or a note instead of a constant. */
  predicate NotConstant(t: Token)
  {
    t.Tok? && !t.inQuotes && (StartsWith(t.token, "#") || StartsWith(t.token, "~") || t.token == "note")
  }

  function ConstantOnlyMessage(query: string, t: Token): string
    requires t.Tok?
  {
    "Error near token \"" + t.token + "\" in " + Context(query, t) + ", it's possible to compare with constant only."
  }

  // The messages of the other errors the parser records.

  function NoComparatorMessage(query: string, operator: string, t: Token): string
  {
    "Can't find operator '" + operator + "' in " + Context(query, t)
  }

  function RelationComparedMessage(query: string, t: Token): string
  {
    "Relation can be compared only with property, e.g. ~relation.title=hello in " + Context(query, t)
  }

  function ContentOperatorMessage(query: string, t: Token): string
  {
    "After content expected operator, but got \"" + Shown(Text(t)) + "\" in " + Context(query, t)
  }

  function TextOperatorMessage(query: string, given: Option<string>, t: Token): string
  {
    "Virtual attribute \"note.text\" supports only *=* operator, instead given \"" + Shown(given) + "\" in " + Context(query, t)
  }

  function SeparatorMessage(query: string, given: Option<string>, t: Token): string
  {
    "Expected \".\" to separate field path, got \"" + Shown(given) + "\" in " + Context(query, t)
  }

  function UnknownPropertyMessage(query: string, property: Option<string>, t: Token): string
  {
    "Unrecognized note property \"" + Shown(property) + "\" in " + Context(query, t)
  }

  function NotGroupMessage(token: string): string
  {
    "not keyword should be followed by sub-expression in parenthesis, got " + token + " instead"
  }

  function MisplacedMessage(token: string): string
  {
    "Misplaced or incomplete expression \"" + token + "\""
  }

  function UnrecognizedMessage(token: string): string
  {
    "Unrecognized expression \"" + token + "\""
  }

  /** The expressions the note-property, label and relation parsers build; none of them orders. */
  predicate NotOrdering(e: Exp)
  {
    !e.OrderByAndLimitExp?
  }

  predicate NoneOrdering(es: seq<Exp>)
  {
    forall k | 0 <= k < |es| :: NotOrdering(es[k])
  }

  /** `#!name` / `~!name`: the reference is negated. */
  predicate Negated(reference: string)
  {
    StartsWith(SubstrFrom(reference, 1), "!")
  }

  /** The attribute name of a `#…`/`~…` reference, without the sigil and the `!`. */
  function Bare(reference: string): string
  {
    if Negated(reference) then SubstrFrom(SubstrFrom(reference, 1), 1) else SubstrFrom(reference, 1)
  }

  /** The expression a label or relation reference for `name` yields. */
  predicate AttributeExp(e: Exp, isLabel: bool, name: string)
  {
    if isLabel then
      (e.AttributeExistsExp? && e.attributeType == "label" && e.attributeName == name)
      || (e.LabelComparisonExp? && e.attributeType == "label" && e.attributeName == name)
    else
      (e.AttributeExistsExp? && e.attributeType == "relation" && e.attributeName == name)
      || (e.RelationWhereExp? && e.relationName == name)
  }

  // ---------------------------------------------------------------------
  // Combining the collected expressions
  // ---------------------------------------------------------------------

  function Wrap(es: seq<Exp>): (r: seq<Option<Exp>>)
    ensures |r| == |es|
  {
    if |es| == 0 then [] else [Some(es[0])] + Wrap(es[1..])
  }

  /** `getAggregateExpression`: `AndExp.of` unless the operator is `or`. */
  function Aggregate(op: Option<string>, es: seq<Exp>): Exp
  {
    if op == Some("or") then OrOf(Wrap(es)) else AndOf(Wrap(es))
  }

  lemma {:induction false} PresentOfWrap(es: seq<Exp>)
    ensures Present(Wrap(es)) == es
  {
    if |es| > 0 {
      assert Wrap(es)[1..] == Wrap(es[1..]);
      PresentOfWrap(es[1..]);
    }
  }

  /**
   * No expression gives `TrueExp`, one is returned as it is, and two or
   * more are combined by `OrExp` when the operator is `or` and by `AndExp`
   * otherwise (also when no operator was written).
   */
  lemma AggregateMeaning(op: Option<string>, es: seq<Exp>)
    ensures |es| == 0 ==> Aggregate(op, es) == TrueExp
    ensures |es| == 1 ==> Aggregate(op, es) == es[0]
    ensures |es| >= 2 && op == Some("or") ==> Aggregate(op, es) == OrExp(es)
    ensures |es| >= 2 && op != Some("or") ==> Aggregate(op, es) == AndExp(es)
  {
    PresentOfWrap(es);
  }

  lemma AggregateNotOrdering(op: Option<string>, es: seq<Exp>)
    requires NoneOrdering(es)
    ensures NotOrdering(Aggregate(op, es))
  {
    AggregateMeaning(op, es);
  }


  // ---------------------------------------------------------------------
  // The nesting level of a parenthesised group
  // ---------------------------------------------------------------------

  /** `orderby`/`limit` are accepted at this level. */
  predicate OrderByAllowed(level: int)
  {
    level == 0
  }

  /**
   * How a parenthesised group (after `(` or after `not`) is nested.
   * `AsWritten` is the post-increment in `getExpression(group,
   * searchContext, level++)`: the group is parsed at the current level, and
   * the enclosing level goes up by one for the rest of its tokens.
   * `Intended` parses the group one level deeper and leaves the enclosing
   * level as it was.
   */
  datatype Nesting = AsWritten | Intended

  /** The level a group met at `level` is parsed at. */
  function GroupLevel(n: Nesting, level: nat): nat
  {
    if n == AsWritten then level else level + 1
  }

  /** The enclosing level once a group met at `level` is parsed. */
  function LevelAfterGroup(n: Nesting, level: nat): nat
  {
    if n == AsWritten then level + 1 else level
  }

  /** A group met at this level is parsed below the top level. */
  predicate GroupsBelowTop(n: Nesting, level: nat)
  {
    GroupLevel(n, level) > 0
  }

  // ---------------------------------------------------------------------
  // getExpression as functions of the parser state
  // ---------------------------------------------------------------------

  /**
   * What a level parser reads and never changes: its tokens, the
   * collaborators, the context's `originalQuery` and
   * `fuzzyAttributeSearch`, and how groups are nested.
   */
  datatype Input = Input(tokens: seq<Token>, env: Env, query: string, fuzzy: bool, nesting: Nesting)

  /** The diagnostics of the search context: the recorded error and the highlighted tokens. */
  datatype Diag = Diag(error: Option<string>, highlighted: seq<string>)

  function DiagOf(ctx: SearchContext): Diag
    reads ctx
  {
    Diag(ctx.error, ctx.highlightedTokens)
  }

  /** `addError(e)`. */
  function AddErr(d: Diag, e: string): Diag
  {
    d.(error := RecordError(d.error, e))
  }

  /** `highlightedTokens.push(...ts)`. */
  function Highlighted(d: Diag, ts: seq<string>): Diag
  {
    d.(highlighted := d.highlighted + ts)
  }

  /** Diagnostics only accumulate: a recorded error stays, highlighted tokens are only appended. */
  predicate Grown(d: Diag, d': Diag)
  {
    ErrorKept(d.error, d'.error) && d.highlighted <= d'.highlighted
  }

  /** The outcome of a parsing step, the cursor after it and the diagnostics. */
  datatype Res<T> = Res(out: Outcome<T>, i: int, d: Diag)

  /**
   * `resolveConstantOperand` at token `i`: an unquoted `#…`, `~…` or `note`
   * is refused with an error; a quoted token or any other word is the
   * operand itself; `now`/`today`/`month`/`year`, optionally followed by
   * `+ n` or `- n`, become a formatted relative date.
   */
  function OperandOf(c: Input, i: int, d: Diag): (r: Res<Option<string>>)
    requires 0 <= i
    ensures r.d.highlighted == d.highlighted && ErrorKept(d.error, r.d.error)
    ensures r.i == i || (r.i == i + 2 && r.i < |c.tokens|)
    ensures r.out.Thrown? <==> !(i < |c.tokens|) || c.tokens[i].Group?
    ensures r.out.Thrown? ==> r.out.message == TYPE_ERROR
    ensures i < |c.tokens| && NotConstant(c.tokens[i]) ==>
              r == Res(Normal(None), i, AddErr(d, ConstantOnlyMessage(c.query, c.tokens[i])))
    ensures i < |c.tokens| && c.tokens[i].Tok? && !NotConstant(c.tokens[i])
            && (c.tokens[i].inQuotes || c.tokens[i].token !in DATE_KEYWORDS) ==>
              r == Res(Normal(Some(c.tokens[i].token)), i, d)
    ensures r.out == Normal(None) ==> i < |c.tokens| && NotConstant(c.tokens[i])
  {
    if !(i < |c.tokens|) || c.tokens[i].Group? then Res(Thrown(TYPE_ERROR), i, d)
    else
      var operand := c.tokens[i];
      if NotConstant(operand) then Res(Normal(None), i, AddErr(d, ConstantOnlyMessage(c.query, operand)))
      else if operand.inQuotes || operand.token !in DATE_KEYWORDS then Res(Normal(Some(operand.token)), i, d)
      else if i + 2 < |c.tokens| && (TokenIs(c.tokens, i + 1, "+") || TokenIs(c.tokens, i + 1, "-")) then
        var delta := MoveDelta(Some(0), ParseInt(Shown(Text(c.tokens[i + 2]))), TokenIs(c.tokens, i + 1, "-"));
        Res(Normal(Some(c.env.relativeDate(operand.token, delta))), i + 2, d)
      else Res(Normal(Some(c.env.relativeDate(operand.token, Some(0)))), i, d)
  }

  /**
   * `parseLabel`: a label followed by an operator becomes a comparison
   * (`=` read as `*=*` under fuzzy attribute search), refused when there
   * is no comparator for it; otherwise the label only has to exist.
   */
  function LabelOf(c: Input, i: int, d: Diag, labelName: string): (r: Res<Option<Exp>>)
    requires 0 <= i
    ensures ErrorKept(d.error, r.d.error) && i <= r.i
    ensures |r.d.highlighted| > |d.highlighted| && r.d.highlighted[..|d.highlighted| + 1] == d.highlighted + [labelName]
    ensures r.out.Normal? && r.out.value.Some? ==> AttributeExp(r.out.value.value, true, labelName)
    ensures !(i < |c.tokens| - 2 && IsOperator(c.tokens[i + 1])) ==>
              r == Res(Normal(Some(AttributeExistsExp("label", labelName, c.fuzzy))), i, Highlighted(d, [labelName]))
    ensures i < |c.tokens| - 2 && IsOperator(c.tokens[i + 1]) && r.out.Normal? && r.out.value.Some? ==>
              var e := r.out.value.value;
              var written := c.tokens[i + 1].token;
              e.LabelComparisonExp?
              && e.operator == (if c.fuzzy && written == "=" then "*=*" else written)
              && c.env.hasComparator(e.operator, e.comparedValue)
  {
    var d1 := Highlighted(d, [labelName]);
    if i < |c.tokens| - 2 && IsOperator(c.tokens[i + 1]) then ComparedLabelOf(c, i + 2, d1, labelName, c.tokens[i + 1].token)
    else Res(Normal(Some(AttributeExistsExp("label", labelName, c.fuzzy))), i, d1)
  }

  /**
   * The label `labelName` compared by the `written` operator with the
   * operand at token `j`; the operand is highlighted.
   */
  function ComparedLabelOf(c: Input, j: int, d: Diag, labelName: string, written: string): (r: Res<Option<Exp>>)
    requires 1 <= j
    ensures ErrorKept(d.error, r.d.error) && j <= r.i && d.highlighted <= r.d.highlighted
    ensures r.out.Normal? && r.out.value.Some? ==>
              var e := r.out.value.value;
              e.LabelComparisonExp? && e.attributeType == "label" && e.attributeName == labelName
              && e.operator == (if c.fuzzy && written == "=" then "*=*" else written)
              && c.env.hasComparator(e.operator, e.comparedValue)
  {
    var v := OperandOf(c, j, d);
    if v.out.Thrown? then Res(Thrown(v.out.message), v.i, v.d)
    else if v.out.value.None? then Res(Normal(None), v.i, v.d)
    else ComparisonOf(c, v.i, v.d, labelName, written, v.out.value.value)
  }

  /**
   * The label `labelName` compared with the resolved operand `value`: the
   * operand is highlighted, and without a comparator for the operator
   * "Can't find operator" is recorded and nothing is returned.
   */
  function ComparisonOf(c: Input, i: int, d: Diag, labelName: string, written: string, value: string): (r: Res<Option<Exp>>)
    requires 1 <= i <= |c.tokens|
    ensures r.i == i && r.out.Normal? && r.d.highlighted == d.highlighted + [value] && ErrorKept(d.error, r.d.error)
    ensures var operator := if c.fuzzy && written == "=" then "*=*" else written;
            (r.out.value.None? <==> !c.env.hasComparator(operator, value))
            && (r.out.value.Some? ==> r.out.value.value == LabelComparisonExp("label", labelName, operator, value))
  {
    var operator := if c.fuzzy && written == "=" then "*=*" else written;
    if !c.env.hasComparator(operator, value) then
      Res(Normal(None), i, AddErr(Highlighted(d, [value]), NoComparatorMessage(c.query, operator, c.tokens[i - 1])))
    else Res(Normal(Some(LabelComparisonExp("label", labelName, operator, value))), i, Highlighted(d, [value]))
  }

  /**
   * `parseRelation`: a relation followed by `.` is a condition on the
   * target note's property; followed by an operator it is an error (a
   * relation is compared only through a property); otherwise the relation
   * only has to exist.
   */
  function RelationOf(c: Input, i: int, d: Diag, relationName: string): (r: Res<Option<Exp>>)
    requires 0 <= i
    decreases |c.tokens| - i, 1
    ensures Grown(d, r.d) && i <= r.i
    ensures r.out.Normal? && r.out.value.Some? ==> AttributeExp(r.out.value.value, false, relationName)
    ensures i < |c.tokens| - 2 && TokenIs(c.tokens, i + 1, ".") && r.out.Normal? && r.out.value.Some? ==>
              r.out.value.value.RelationWhereExp?
    ensures i < |c.tokens| - 2 && !TokenIs(c.tokens, i + 1, ".") && IsOperator(c.tokens[i + 1]) ==>
              r == Res(Normal(None), i, AddErr(Highlighted(d, [relationName]),
                     RelationComparedMessage(c.query, c.tokens[i])))
    ensures !(i < |c.tokens| - 2 && (TokenIs(c.tokens, i + 1, ".") || IsOperator(c.tokens[i + 1]))) ==>
              r == Res(Normal(Some(AttributeExistsExp("relation", relationName, c.fuzzy))), i, Highlighted(d, [relationName]))
  {
    var d1 := Highlighted(d, [relationName]);
    if i < |c.tokens| - 2 && TokenIs(c.tokens, i + 1, ".") then
      var p := NotePropertyOf(c, i + 1, d1);
      if p.out.Normal? && p.out.value.Some? then Res(Normal(Some(RelationWhereExp(relationName, p.out.value.value))), p.i, p.d)
      else p
    else if i < |c.tokens| - 2 && IsOperator(c.tokens[i + 1]) then
      Res(Normal(None), i, AddErr(d1, RelationComparedMessage(c.query, c.tokens[i])))
    else Res(Normal(Some(AttributeExistsExp("relation", relationName, c.fuzzy))), i, d1)
  }

  /** The `parents`/`children`/`ancestors` steps of a note property path. */
  function RelativeOf(c: Input, i: int, d: Diag, kind: string): (r: Res<Option<Exp>>)
    requires 0 <= i && kind in ["parents", "children", "ancestors"]
    decreases |c.tokens| - i, 1
    ensures Grown(d, r.d) && i <= r.i
    ensures r.out.Normal? && r.out.value.Some? ==>
              var e := r.out.value.value;
              if kind == "parents" then e.ChildOfExp? else if kind == "children" then e.ParentOfExp? else e.DescendantOfExp?
  {
    var p := NotePropertyOf(c, i, d);
    if p.out.Normal? && p.out.value.Some? then
      var e := p.out.value.value;
      Res(Normal(Some(if kind == "parents" then ChildOfExp(e) else if kind == "children" then ParentOfExp(e) else DescendantOfExp(e))),
          p.i, p.d)
    else p
  }

  /** `content`/`rawcontent` after `note.`: an operator and one word searched in the content. */
  function ContentOf(c: Input, i: int, d: Diag, raw: bool): (r: Res<Option<Exp>>)
    requires 0 <= i
    ensures r.d.highlighted == d.highlighted && ErrorKept(d.error, r.d.error) && i <= r.i
    ensures r.out.Normal? && r.out.value.Some? ==>
              r.out.value.value.NoteContentFulltextExp? && r.out.value.value.raw == raw && !r.out.value.value.flatText
              && i < |c.tokens| && IsOperator(c.tokens[i]) && r.out.value.value.operator == c.tokens[i].token
    ensures i < |c.tokens| && !IsOperator(c.tokens[i]) ==>
              r.out == Normal(None)
              && r.d.error == RecordError(d.error, ContentOperatorMessage(c.query, c.tokens[i]))
  {
    if !(i < |c.tokens|) then Res(Thrown(TYPE_ERROR), i, d)
    else if !IsOperator(c.tokens[i]) then
      Res(Normal(None), i, AddErr(d, ContentOperatorMessage(c.query, c.tokens[i])))
    else
      var value := TextAt(c.tokens, i + 1);
      if value.Thrown? then Res(Thrown(value.message), i + 1, d)
      else Res(Normal(Some(NoteContentFulltextExp(c.tokens[i].token, [Shown(value.value)], raw, false))), i + 1, d)
  }

  /**
   * `labels.`/`relations.` after `note.` read a label or relation of the
   * note; `text` must be followed by `*=*` and searches title and content.
   */
  function AttributePathOf(c: Input, i: int, d: Diag, property: string): (r: Res<Option<Exp>>)
    requires 0 <= i < |c.tokens| && property in ["labels", "relations", "text"]
    decreases |c.tokens| - i, 2
    ensures Grown(d, r.d) && i <= r.i
    ensures r.out.Normal? && r.out.value.Some? ==> NotOrdering(r.out.value.value)
    ensures property == "text" && i + 1 < |c.tokens| && !TokenIs(c.tokens, i + 1, "*=*") ==>
              r == Res(Normal(None), i, AddErr(d, TextOperatorMessage(c.query, Text(c.tokens[i + 1]), c.tokens[i])))
    ensures property != "text" && i + 1 < |c.tokens| && !TokenIs(c.tokens, i + 1, ".") ==>
              r == Res(Normal(None), i, AddErr(d, SeparatorMessage(c.query, Text(c.tokens[i + 1]), c.tokens[i])))
    ensures r.out.Normal? && r.out.value.Some? && property == "labels" ==>
              r.out.value.value.AttributeExistsExp? || r.out.value.value.LabelComparisonExp?
    ensures r.out.Normal? && r.out.value.Some? && property == "relations" ==>
              r.out.value.value.AttributeExistsExp? || r.out.value.value.RelationWhereExp?
    ensures r.out.Normal? && r.out.value.Some? && property == "text" ==> r.out.value.value.OrExp?
  {
    var next := TextAt(c.tokens, i + 1);
    if next.Thrown? then Res(Thrown(next.message), i, d)
    else if property == "text" && next.value != Some("*=*") then
      Res(Normal(None), i, AddErr(d, TextOperatorMessage(c.query, next.value, c.tokens[i])))
    else if property != "text" && next.value != Some(".") then
      Res(Normal(None), i, AddErr(d, SeparatorMessage(c.query, next.value, c.tokens[i])))
    else AttributeTargetOf(c, i + 2, d, property)
  }

  /** The word after `labels.`, `relations.` or `text *=*`, at token `i`, and what it is looked for as. */
  function AttributeTargetOf(c: Input, i: int, d: Diag, property: string): (r: Res<Option<Exp>>)
    requires 0 <= i && property in ["labels", "relations", "text"]
    decreases |c.tokens| - i, 4
    ensures Grown(d, r.d) && i <= r.i
    ensures i < |c.tokens| && r.out.Normal? && r.out.value.Some? && property == "labels" ==>
              AttributeExp(r.out.value.value, true, Shown(Text(c.tokens[i])))
    ensures i < |c.tokens| && r.out.Normal? && r.out.value.Some? && property == "relations" ==>
              AttributeExp(r.out.value.value, false, Shown(Text(c.tokens[i])))
    ensures property == "text" && i < |c.tokens| ==>
              var word := Shown(Text(c.tokens[i]));
              r == Res(Normal(Some(OrExp([PropertyComparisonExp("title", "*=*", word),
                                          NoteContentFulltextExp("*=*", [word], false, false)]))), i, d)
  {
    var target := TextAt(c.tokens, i);
    if target.Thrown? then Res(Thrown(target.message), i, d)
    else if property == "labels" || property == "relations" then
      ReferenceOf(c, i, d, property == "labels", Shown(target.value))
    else
      var word := Shown(target.value);
      Res(Normal(Some(OrExp([PropertyComparisonExp("title", "*=*", word),
                             NoteContentFulltextExp("*=*", [word], false, false)]))), i, d)
  }

  /** A note property compared with a constant operand; an empty or missing operand is an error. */
  function PropertyComparisonOf(c: Input, i: int, d: Diag, propertyName: string): (r: Res<Option<Exp>>)
    requires 0 <= i
    ensures r.d.highlighted == d.highlighted && ErrorKept(d.error, r.d.error) && i <= r.i
    ensures r.out.Normal? && r.out.value.Some? ==>
              r.out.value.value.PropertyComparisonExp? && r.out.value.value.propertyName == propertyName
              && r.out.value.value.comparedValue != ""
              && i + 1 < |c.tokens| && r.out.value.value.operator == Shown(Text(c.tokens[i + 1]))
  {
    var operator := TextAt(c.tokens, i + 1);
    if operator.Thrown? then Res(Thrown(operator.message), i, d)
    else
      var v := OperandOf(c, i + 2, d);
      if v.out.Thrown? then Res(Thrown(v.out.message), v.i, v.d)
      else if !Truthy(v.out.value) then Res(Normal(None), v.i, AddErr(v.d, "Unresolved constant operand."))
      else Res(Normal(Some(PropertyComparisonExp(propertyName, Shown(operator.value), v.out.value.value))), v.i, v.d)
  }

  /**
   * `parseNoteProperty`, at the `.` after `note` (or after a relation):
   * `content`/`rawcontent` with an operator search the content, the
   * `parents`/`children`/`ancestors` steps move along the tree, `labels.`
   * and `relations.` read an attribute of that note, `text *=*` searches
   * title and content, and a known property is compared with a constant.
   */
  function NotePropertyOf(c: Input, i: int, d: Diag): (r: Res<Option<Exp>>)
    requires 0 <= i
    decreases |c.tokens| - i, 0
    ensures Grown(d, r.d) && i <= r.i
    ensures r.out.Normal? && r.out.value.Some? ==> NotOrdering(r.out.value.value)
    ensures i < |c.tokens| && !TokenIs(c.tokens, i, ".") ==>
              r == Res(Normal(None), i, AddErr(d, "Expected \".\" to separate field path"))
    ensures TokenIs(c.tokens, i, ".") && r.out.Normal? && r.out.value.Some? ==>
              var e := r.out.value.value;
              (TokenIs(c.tokens, i + 1, "parents") ==> e.ChildOfExp?)
              && (TokenIs(c.tokens, i + 1, "children") ==> e.ParentOfExp?)
              && (TokenIs(c.tokens, i + 1, "ancestors") ==> e.DescendantOfExp?)
              && (TokenIs(c.tokens, i + 1, "content") ==> e.NoteContentFulltextExp? && !e.raw)
              && (TokenIs(c.tokens, i + 1, "rawcontent") ==> e.NoteContentFulltextExp? && e.raw)
  {
    var dot := TextAt(c.tokens, i);
    if dot.Thrown? then Res(Thrown(dot.message), i, d)
    else if dot.value != Some(".") then Res(Normal(None), i, AddErr(d, "Expected \".\" to separate field path"))
    else PropertyOf(c, i + 1, d)
  }

  /**
   * The field after the `.` of a note property path, at token `i`:
   * `content`/`rawcontent` and the tree steps, or any other field.
   */
  function PropertyOf(c: Input, i: int, d: Diag): (r: Res<Option<Exp>>)
    requires 1 <= i
    decreases |c.tokens| - i, 6
    ensures Grown(d, r.d) && i <= r.i
    ensures r.out.Normal? && r.out.value.Some? ==> NotOrdering(r.out.value.value)
    ensures r.out.Normal? && r.out.value.Some? ==>
              var e := r.out.value.value;
              (TokenIs(c.tokens, i, "parents") ==> e.ChildOfExp?)
              && (TokenIs(c.tokens, i, "children") ==> e.ParentOfExp?)
              && (TokenIs(c.tokens, i, "ancestors") ==> e.DescendantOfExp?)
              && (TokenIs(c.tokens, i, "content") ==> e.NoteContentFulltextExp? && !e.raw)
              && (TokenIs(c.tokens, i, "rawcontent") ==> e.NoteContentFulltextExp? && e.raw)
  {
    var name := TextAt(c.tokens, i);
    if name.Thrown? then Res(Thrown(name.message), i, d)
    else if name.value.Some? && name.value.value in ["content", "rawcontent", "parents", "children", "ancestors"] then
      StepOf(c, i, d, name.value.value)
    else FieldOf(c, i, d, name.value)
  }

  /** `content`/`rawcontent` search the content; `parents`/`children`/`ancestors` move along the tree. */
  function StepOf(c: Input, i: int, d: Diag, property: string): (r: Res<Option<Exp>>)
    requires 1 <= i < |c.tokens| && property in ["content", "rawcontent", "parents", "children", "ancestors"]
    decreases |c.tokens| - i, 5
    ensures Grown(d, r.d) && i <= r.i
    ensures r.out.Normal? && r.out.value.Some? ==>
              var e := r.out.value.value;
              NotOrdering(e)
              && (property == "parents" ==> e.ChildOfExp?)
              && (property == "children" ==> e.ParentOfExp?)
              && (property == "ancestors" ==> e.DescendantOfExp?)
              && (property == "content" ==> e.NoteContentFulltextExp? && !e.raw)
              && (property == "rawcontent" ==> e.NoteContentFulltextExp? && e.raw)
  {
    if property == "content" || property == "rawcontent" then ContentOf(c, i + 1, d, property == "rawcontent")
    else RelativeOf(c, i + 1, d, property)
  }

  /**
   * Any other field: `labels`/`relations`/`text` read an attribute or the
   * text, a known property is compared with a constant, and anything else
   * is an unrecognized property.
   */
  function FieldOf(c: Input, i: int, d: Diag, property: Option<string>): (r: Res<Option<Exp>>)
    requires 1 <= i < |c.tokens|
    decreases |c.tokens| - i, 5
    ensures Grown(d, r.d) && i <= r.i
    ensures r.out.Normal? && r.out.value.Some? ==> NotOrdering(r.out.value.value)
    ensures property.Some? && property.value !in ["labels", "relations", "text"] && !c.env.isProperty(property.value) ==>
              r == Res(Normal(None), i, AddErr(d, UnknownPropertyMessage(c.query, property, c.tokens[i])))
  {
    if property == Some("labels") || property == Some("relations") || property == Some("text") then
      AttributePathOf(c, i, d, property.value)
    else if c.env.isProperty(Shown(property)) then
      PropertyComparisonOf(c, i, d, Shown(property))
    else
      Res(Normal(None), i, AddErr(d, UnknownPropertyMessage(c.query, property, c.tokens[i])))
  }

  /** The label (or relation) expression for `name`. */
  function ReferenceOf(c: Input, i: int, d: Diag, isLabel: bool, name: string): (r: Res<Option<Exp>>)
    requires 0 <= i
    decreases |c.tokens| - i, 3
    ensures Grown(d, r.d) && i <= r.i
    ensures r.out.Normal? && r.out.value.Some? ==> AttributeExp(r.out.value.value, isLabel, name)
  {
    if isLabel then LabelOf(c, i, d, name) else RelationOf(c, i, d, name)
  }

  /**
   * `parseAttribute`: `#name` is a label, `~name` a relation; after `#!`
   * or `~!` the expression is negated.
   */
  function AttributeOf(c: Input, i: int, d: Diag, name: string): (r: Res<Option<Exp>>)
    requires 0 <= i && (StartsWith(name, "#") || StartsWith(name, "~"))
    ensures Grown(d, r.d) && i <= r.i
    ensures r.out.Normal? && r.out.value.Some? && Negated(name) ==>
              r.out.value.value.NotExp? && AttributeExp(r.out.value.value.sub, StartsWith(name, "#"), Bare(name))
    ensures r.out.Normal? && r.out.value.Some? && !Negated(name) ==>
              AttributeExp(r.out.value.value, StartsWith(name, "#"), Bare(name))
  {
    var sub := ReferenceOf(c, i, d, StartsWith(name, "#"), Bare(name));
    if sub.out.Normal? && sub.out.value.Some? && Negated(name) then Res(Normal(Some(NotExp(sub.out.value.value))), sub.i, sub.d)
    else sub
  }

  /**
   * The property path of one `orderby` entry, from the token before its
   * first word: `path` followed by the words joined by `.`, and the cursor
   * after the last word.
   */
  function PathOf(ts: seq<Token>, i: int, path: seq<string>): (r: (Outcome<seq<string>>, int))
    decreases |ts| - i
    ensures r.1 > i
    ensures r.0.Thrown? ==> r.0.message == TYPE_ERROR
    ensures r.0.Normal? ==>
              |r.0.value| > |path| && r.0.value[..|path|] == path && r.1 >= i + 2 && !TokenIs(ts, r.1, ".")
  {
    var word := TextAt(ts, i + 1);
    if word.Thrown? then (Thrown(word.message), i + 1)
    else if i + 2 < |ts| && TokenIs(ts, i + 2, ".") then PathOf(ts, i + 2, path + [Shown(word.value)])
    else (Normal(path + [Shown(word.value)]), i + 2)
  }

  /** Every order definition has a non-empty property path and the direction `asc` or `desc`. */
  predicate WellFormedOrder(ds: seq<OrderDefinition>)
  {
    forall k | 0 <= k < |ds| :: |ds[k].propertyPath| > 0 && (ds[k].direction == Some("asc") || ds[k].direction == Some("desc"))
  }

  /**
   * One `orderby` entry from the `orderby` or `,` at `i`, appended to
   * `defs`: a property path, an optional `asc`/`desc` (default `asc`), and
   * the extractor's validation error for the path, if any, recorded.
   */
  function EntryOf(c: Input, i: int, d: Diag, defs: seq<OrderDefinition>): (r: Res<seq<OrderDefinition>>)
    requires 0 <= i < |c.tokens| && WellFormedOrder(defs)
    ensures r.d.highlighted == d.highlighted && ErrorKept(d.error, r.d.error) && i < r.i
    ensures r.out.Thrown? ==> r.out.message == TYPE_ERROR
    ensures r.out.Normal? ==> |r.out.value| == |defs| + 1 && r.out.value[..|defs|] == defs && WellFormedOrder(r.out.value)
  {
    var p := PathOf(c.tokens, i, []);
    if p.0.Thrown? then Res(Thrown(p.0.message), p.1, d)
    else
      var hasDirection := p.1 < |c.tokens| && (TokenIs(c.tokens, p.1, "asc") || TokenIs(c.tokens, p.1, "desc"));
      var direction := if hasDirection then c.tokens[p.1].token else "asc";
      var j := if hasDirection then p.1 + 1 else p.1;
      var validationError := c.env.validate(p.0.value);
      var d1 := if Truthy(validationError) then AddErr(d, validationError.value) else d;
      var defs1 := defs + [OrderDefinition(p.0.value, Some(direction))];
      assert defs1[..|defs|] == defs;
      Res(Normal(defs1), j, d1)
  }

  /** The `orderby` entries from the `orderby` or `,` at `i`, after `defs`, for as long as a `,` follows. */
  function EntriesOf(c: Input, i: int, d: Diag, defs: seq<OrderDefinition>): (r: Res<seq<OrderDefinition>>)
    requires 0 <= i < |c.tokens| && WellFormedOrder(defs)
    decreases |c.tokens| - i
    ensures r.d.highlighted == d.highlighted && ErrorKept(d.error, r.d.error) && i < r.i
    ensures r.out.Thrown? ==> r.out.message == TYPE_ERROR
    ensures r.out.Normal? ==> |r.out.value| > |defs| && r.out.value[..|defs|] == defs && WellFormedOrder(r.out.value)
    ensures r.out.Normal? ==> !(r.i < |c.tokens| && TokenIs(c.tokens, r.i, ","))
  {
    var e := EntryOf(c, i, d, defs);
    if e.out.Normal? && e.i < |c.tokens| && TokenIs(c.tokens, e.i, ",") then
      var r := EntriesOf(c, e.i, e.d, e.out.value);
      assert r.out.Normal? ==> r.out.value[..|defs|] == r.out.value[..|e.out.value|][..|defs|];
      r
    else e
  }

  /**
   * `parseOrderByAndLimit`: the `orderby` entries, if the token is
   * `orderby`, then an optional `limit n`; the result has no
   * sub-expression yet.
   */
  function OrderByAndLimitOf(c: Input, i: int, d: Diag): (r: Res<Exp>)
    requires 0 <= i < |c.tokens|
    ensures r.d.highlighted == d.highlighted && ErrorKept(d.error, r.d.error) && i <= r.i
    ensures r.out.Thrown? ==> r.out.message == TYPE_ERROR
    ensures r.out.Normal? ==>
              r.out.value.OrderByAndLimitExp? && r.out.value.subExpression == None
              && WellFormedOrder(r.out.value.orderDefinitions)
    ensures r.out.Normal? && !TokenIs(c.tokens, i, "orderby") ==> r.out.value.orderDefinitions == []
    ensures r.out.Normal? && r.out.value.limit != NoLimit ==> TokenIs(c.tokens, r.i, "limit")
  {
    var e := if TokenIs(c.tokens, i, "orderby") then EntriesOf(c, i, d, []) else Res(Normal([]), i, d);
    if e.out.Thrown? then Res(Thrown(e.out.message), e.i, e.d)
    else LimitAfter(c, e.out.value, e.i, e.d)
  }

  /** The optional `limit n` after the order entries `defs`, with the cursor at token `i`. */
  function LimitAfter(c: Input, defs: seq<OrderDefinition>, i: int, d: Diag): (r: Res<Exp>)
    ensures r.i == i && r.d == d
    ensures r.out.Thrown? <==> TokenIs(c.tokens, i, "limit") && i + 1 >= |c.tokens|
    ensures r.out.Thrown? ==> r.out.message == TYPE_ERROR
    ensures r.out.Normal? ==> r.out.value.OrderByAndLimitExp? && r.out.value.orderDefinitions == defs
                              && r.out.value.subExpression == None
    ensures r.out.Normal? && r.out.value.limit != NoLimit ==> TokenIs(c.tokens, i, "limit")
  {
    if i < |c.tokens| && TokenIs(c.tokens, i, "limit") then
      var count := TextAt(c.tokens, i + 1);
      if count.Thrown? then Res(Thrown(count.message), i, d)
      else
        var n := ParseInt(Shown(count.value));
        Res(Normal(OrderByAndLimitExp(defs, if n.Some? then LimitOf(n.value) else NaNLimit, None)), i, d)
    else Res(Normal(OrderByAndLimitExp(defs, NoLimit, None)), i, d)
  }

  /** The state of one level parser: cursor, collected expressions, operator and level, with the diagnostics. */
  datatype LevelState = LevelState(i: int, expressions: seq<Exp>, op: Option<string>, level: nat, d: Diag)

  /** The operators `getAggregateExpression` accepts without throwing. */
  predicate ValidOp(op: Option<string>)
  {
    op == None || op == Some("and") || op == Some("or")
  }

  /** `and`/`or`: the first operator of the level is kept; a different one later is an error. */
  function OperatorOf(s: LevelState, token: string): (r: LevelState)
    requires token == "and" || token == "or"
    ensures r == s.(op := r.op, d := r.d) && r.op.Some? && r.d.highlighted == s.d.highlighted
    ensures s.op.None? ==> r.op == Some(token) && r.d == s.d
    ensures s.op.Some? ==> r.op == s.op
    ensures s.op.Some? && s.op != Some(token) ==> r.d.error == RecordError(s.d.error, MIXED_AND_OR)
    ensures s.op == Some(token) ==> r.d == s.d
  {
    if s.op.None? then s.(op := Some(token))
    else if s.op != Some(token) then s.(d := AddErr(s.d, MIXED_AND_OR))
    else s
  }

  /**
   * Any other word in the loop: `and`/`or` set the operator, a comparison
   * operator out of place and an unknown word are errors.
   */
  function WordOf(s: LevelState, token: string): (r: LevelState)
    ensures r == s.(op := r.op, d := r.d) && r.d.highlighted == s.d.highlighted && ErrorKept(s.d.error, r.d.error)
    ensures ValidOp(s.op) ==> ValidOp(r.op)
    ensures token != "and" && token != "or" ==>
              r == s.(d := AddErr(s.d, if token in OPERATORS then MisplacedMessage(token)
                                       else UnrecognizedMessage(token)))
  {
    if token == "and" || token == "or" then OperatorOf(s, token)
    else if token in OPERATORS then s.(d := AddErr(s.d, MisplacedMessage(token)))
    else s.(d := AddErr(s.d, UnrecognizedMessage(token)))
  }

  /** The end of a loop turn that proceeds: with two or more expressions and no operator yet, the operator becomes `and`. */
  function FinishTurn(p: (Step, LevelState)): (r: (Step, LevelState))
    ensures r.0 == p.0 && r.1 == p.1.(op := r.1.op) && (p.1.op.Some? ==> r.1.op == p.1.op)
    ensures ValidOp(p.1.op) ==> ValidOp(r.1.op)
    ensures r.0 == Proceed ==> r.1.op.Some? || |r.1.expressions| <= 1
  {
    if p.0 == Proceed && p.1.op.None? && |p.1.expressions| > 1 then (Proceed, p.1.(op := Some("and"))) else p
  }

  /** `#…`/`~…` in the loop: the attribute expression, if any, is collected. */
  function AttributeTurnOf(c: Input, s: LevelState, token: string): (r: (Step, LevelState))
    requires 0 <= s.i && (StartsWith(token, "#") || StartsWith(token, "~"))
    ensures r.1.i >= s.i && r.1.op == s.op && r.1.level == s.level && Grown(s.d, r.1.d)
    ensures r.0 == Proceed || r.0 == Done(Thrown(TYPE_ERROR))
    ensures r.0.Done? ==> r.1.expressions == s.expressions
    ensures r.0 == Proceed ==>
              r.1.expressions == s.expressions
              || (|r.1.expressions| == |s.expressions| + 1 && r.1.expressions[..|s.expressions|] == s.expressions
                  && var e := r.1.expressions[|s.expressions|];
                     if Negated(token) then e.NotExp? && AttributeExp(e.sub, StartsWith(token, "#"), Bare(token))
                     else AttributeExp(e, StartsWith(token, "#"), Bare(token)))
  {
    var a := AttributeOf(c, s.i, s.d, token);
    var s1 := s.(i := a.i, d := a.d);
    if a.out.Thrown? then (Done(Thrown(TYPE_ERROR)), s1)
    else (Proceed, s1.(expressions := s.expressions + (if a.out.value.Some? then [a.out.value.value] else [])))
  }

  /**
   * `orderby`/`limit` in the loop: below the top level an error and the
   * token is skipped; at the top level the ordering is parsed and returned
   * over what this level collected so far.
   */
  function OrderByTurnOf(c: Input, s: LevelState): (r: (Step, LevelState))
    requires 0 <= s.i < |c.tokens|
    ensures r.1 == s.(i := r.1.i, d := r.1.d) && r.1.i >= s.i && Grown(s.d, r.1.d)
    ensures !OrderByAllowed(s.level) ==> r == (Continue, s.(d := AddErr(s.d, ORDER_BY_NOT_TOP)))
    ensures OrderByAllowed(s.level) ==> r.0.Done? && (r.0.result.Thrown? ==> r.0.result.message == TYPE_ERROR)
    ensures r.0.Done? && r.0.result.Normal? ==>
              r.0.result.value.Some? && r.0.result.value.value.OrderByAndLimitExp?
              && r.0.result.value.value.subExpression == Some(Aggregate(s.op, s.expressions))
              && WellFormedOrder(r.0.result.value.value.orderDefinitions)
  {
    if !OrderByAllowed(s.level) then (Continue, s.(d := AddErr(s.d, ORDER_BY_NOT_TOP)))
    else
      var o := OrderByAndLimitOf(c, s.i, s.d);
      var s1 := s.(i := o.i, d := o.d);
      if o.out.Thrown? then (Done(Thrown(TYPE_ERROR)), s1)
      else (Done(Normal(Some(o.out.value.(subExpression := Some(Aggregate(s.op, s.expressions)))))), s1)
  }

  /** `note` in the loop: the note property expression is collected; none ends the level with nothing. */
  function NoteTurnOf(c: Input, s: LevelState): (r: (Step, LevelState))
    requires 0 <= s.i < |c.tokens|
    ensures r.1.i > s.i && r.1.op == s.op && r.1.level == s.level && Grown(s.d, r.1.d)
    ensures r.0 == Continue ==>
              |r.1.expressions| == |s.expressions| + 1 && r.1.expressions[..|s.expressions|] == s.expressions
              && NotOrdering(r.1.expressions[|s.expressions|])
    ensures r.0 != Continue ==> r.1.expressions == s.expressions
    ensures r.0 == Continue || r.0 == Done(Normal(None)) || r.0 == Done(Thrown(TYPE_ERROR))
  {
    var p := NotePropertyOf(c, s.i + 1, s.d);
    var s1 := s.(i := p.i, d := p.d);
    if p.out.Thrown? then (Done(Thrown(TYPE_ERROR)), s1)
    else if p.out.value.None? then (Done(Normal(None)), s1)
    else (Continue, s1.(expressions := s.expressions + [p.out.value.value]))
  }

  /**
   * A parenthesised group in the loop: parsed by a parser of its own at
   * `GroupLevel`, after which this level is `LevelAfterGroup`; its
   * expression, if any, is collected.
   */
  function GroupTurnOf(c: Input, s: LevelState): (r: (Step, LevelState))
    requires 0 <= s.i < |c.tokens| && c.tokens[s.i].Group?
    decreases Size(c.tokens), 0
    ensures r.1.i == s.i && r.1.op == s.op && r.1.level == LevelAfterGroup(c.nesting, s.level) && Grown(s.d, r.1.d)
    ensures r.0 == Continue || r.0 == Done(Thrown(TYPE_ERROR))
    ensures r.0.Done? ==> r.1.expressions == s.expressions
    ensures r.0 == Continue ==>
              r.1.expressions == s.expressions
              || (|r.1.expressions| == |s.expressions| + 1 && r.1.expressions[..|s.expressions|] == s.expressions)
    ensures GroupsBelowTop(c.nesting, s.level) && NoneOrdering(s.expressions) ==> NoneOrdering(r.1.expressions)
  {
    GroupSmaller(c.tokens, s.i);
    var g := ExpressionOf(c.(tokens := c.tokens[s.i].items), GroupLevel(c.nesting, s.level), s.d);
    var s1 := s.(level := LevelAfterGroup(c.nesting, s.level), d := g.1.d);
    if g.0.Thrown? then (Done(g.0), s1)
    else (Continue, s1.(expressions := s.expressions + (if g.0.value.Some? then [g.0.value.value] else [])))
  }

  /**
   * `not` in the loop: it must be followed by a parenthesised group,
   * parsed as in `GroupTurnOf`, whose expression is collected negated;
   * anything else is an error and is skipped; a group that yields nothing
   * ends the level with nothing.
   */
  function NotTurnOf(c: Input, s: LevelState): (r: (Step, LevelState))
    requires 0 <= s.i < |c.tokens|
    decreases Size(c.tokens), 0
    ensures r.1.i == s.i + 1 && r.1.op == s.op && Grown(s.d, r.1.d)
    ensures r.1.level == s.level || r.1.level == LevelAfterGroup(c.nesting, s.level)
    ensures s.i + 1 == |c.tokens| ==> r.0 == Done(Thrown(TYPE_ERROR))
    ensures s.i + 1 < |c.tokens| && c.tokens[s.i + 1].Tok? ==>
              r == (Continue, s.(i := s.i + 1, d := AddErr(s.d, NotGroupMessage(c.tokens[s.i + 1].token))))
    ensures r.0 == Proceed ==>
              |r.1.expressions| == |s.expressions| + 1 && r.1.expressions[..|s.expressions|] == s.expressions
              && r.1.expressions[|s.expressions|].NotExp?
    ensures r.0 != Proceed ==> r.1.expressions == s.expressions
    ensures r.0 == Proceed || r.0 == Continue || r.0 == Done(Normal(None)) || r.0 == Done(Thrown(TYPE_ERROR))
  {
    var j := s.i + 1;
    if !(j < |c.tokens|) then (Done(Thrown(TYPE_ERROR)), s.(i := j))
    else if c.tokens[j].Tok? then
      (Continue, s.(i := j, d := AddErr(s.d, NotGroupMessage(c.tokens[j].token))))
    else
      GroupSmaller(c.tokens, j);
      var g := ExpressionOf(c.(tokens := c.tokens[j].items), GroupLevel(c.nesting, s.level), s.d);
      var s1 := s.(i := j, level := LevelAfterGroup(c.nesting, s.level), d := g.1.d);
      if g.0.Thrown? then (Done(g.0), s1)
      else if g.0.value.None? then (Done(Normal(None)), s1)
      else (Proceed, s1.(expressions := s.expressions + [NotExp(g.0.value.value)]))
  }

  /**
   * One turn of the loop of `getExpression` at token `s.i`. `Continue` is
   * a `continue`, `Proceed` the end of the loop body, `Done` a `return`
   * from `getExpression`. Only an `orderby`/`limit` at the top level
   * returns an expression.
   */
  function TurnOf(c: Input, s: LevelState): (r: (Step, LevelState))
    requires 0 <= s.i < |c.tokens|
    decreases Size(c.tokens), 1
    ensures r.1.i >= s.i && r.1.level >= s.level && Grown(s.d, r.1.d)
    ensures c.nesting == Intended ==> r.1.level == s.level
    ensures ValidOp(s.op) ==> ValidOp(r.1.op)
    ensures r.0 == Proceed ==> r.1.op.Some? || |r.1.expressions| <= 1
    ensures r.0.Done? && r.0.result.Thrown? ==> r.0.result.message == TYPE_ERROR
    ensures r.0.Done? && r.0.result.Normal? && r.0.result.value.Some? ==>
              var e := r.0.result.value.value;
              OrderByAllowed(r.1.level) && e.OrderByAndLimitExp?
              && e.subExpression == Some(Aggregate(r.1.op, r.1.expressions))
    ensures GroupsBelowTop(c.nesting, s.level) && NoneOrdering(s.expressions) ==> NoneOrdering(r.1.expressions)
  {
    var t := c.tokens[s.i];
    if t.Group? then GroupTurnOf(c, s)
    else if t.token == "#" || t.token == "~" then (Continue, s)
    else if StartsWith(t.token, "#") || StartsWith(t.token, "~") then FinishTurn(AttributeTurnOf(c, s, t.token))
    else if t.token == "orderby" || t.token == "limit" then OrderByTurnOf(c, s)
    else if t.token == "not" then FinishTurn(NotTurnOf(c, s))
    else if t.token == "note" then NoteTurnOf(c, s)
    else FinishTurn((Proceed, WordOf(s, t.token)))
  }

  /** The loop of `getExpression` from state `s`: the outcome and the final state. */
  function LoopOf(c: Input, s: LevelState): (r: (Outcome<Option<Exp>>, LevelState))
    requires 0 <= s.i
    decreases Size(c.tokens), 2, |c.tokens| - s.i
    ensures r.1.i >= s.i && r.1.level >= s.level && Grown(s.d, r.1.d)
    ensures c.nesting == Intended ==> r.1.level == s.level
    ensures ValidOp(s.op) ==> ValidOp(r.1.op)
    ensures r.0.Thrown? ==> r.0.message == TYPE_ERROR
    ensures r.0.Normal? && r.0.value.Some? ==>
              r.0.value.value == Aggregate(r.1.op, r.1.expressions)
              || (OrderByAllowed(r.1.level) && r.0.value.value.OrderByAndLimitExp?
                  && r.0.value.value.subExpression == Some(Aggregate(r.1.op, r.1.expressions)))
    ensures GroupsBelowTop(c.nesting, s.level) && NoneOrdering(s.expressions) ==> NoneOrdering(r.1.expressions)
  {
    if s.i >= |c.tokens| then (Normal(Some(Aggregate(s.op, s.expressions))), s)
    else
      var t := TurnOf(c, s);
      if t.0.Done? then (t.0.result, t.1)
      else LoopOf(c, t.1.(i := t.1.i + 1))
  }

  /**
   * `getExpression(tokens, searchContext, level)`: nothing for no tokens;
   * otherwise the level's expressions combined by its operator (`AndExp`
   * when none was written), or, when an `orderby`/`limit` is met at level
   * 0, an ordering over that combination. A parser started below the top
   * level never yields an ordering.
   */
  function ExpressionOf(c: Input, level: nat, d: Diag): (r: (Outcome<Option<Exp>>, LevelState))
    decreases Size(c.tokens), 3
    ensures r.1.level >= level && Grown(d, r.1.d) && ValidOp(r.1.op)
    ensures |c.tokens| == 0 ==> r.0 == Normal(None)
    ensures r.0.Thrown? ==> r.0.message == TYPE_ERROR
    ensures r.0.Normal? && r.0.value.Some? ==>
              r.0.value.value == Aggregate(r.1.op, r.1.expressions)
              || (level == 0 && r.0.value.value.OrderByAndLimitExp?
                  && r.0.value.value.subExpression == Some(Aggregate(r.1.op, r.1.expressions)))
    ensures GroupsBelowTop(c.nesting, level) ==> NoneOrdering(r.1.expressions)
    ensures level > 0 && r.0.Normal? && r.0.value.Some? ==> NotOrdering(r.0.value.value)
  {
    var s := LevelState(0, [], None, level, d);
    if |c.tokens| == 0 then (Normal(None), s)
    else
      var r := LoopOf(c, s);
      AggregateMeaning(r.1.op, r.1.expressions);
      r
  }

  /**
   * With the intended nesting every group is parsed below the top level:
   * an ordering comes only from the top level, and what it orders is not
   * itself an ordering.
   */
  lemma IntendedOrdersOnlyAtTop(c: Input, level: nat, d: Diag)
    requires c.nesting == Intended
    ensures var r := ExpressionOf(c, level, d);
            r.0.Normal? && r.0.value.Some? && r.0.value.value.OrderByAndLimitExp? ==>
              level == 0 && r.0.value.value.subExpression.Some? && NotOrdering(r.0.value.value.subExpression.value)
  {
    var r := ExpressionOf(c, level, d);
    AggregateNotOrdering(r.1.op, r.1.expressions);
  }

  // ---------------------------------------------------------------------
  // Two queries that tell the nestings apart
  // ---------------------------------------------------------------------

  const LABEL_A := Tok("#a", false, 1, 2)

  /** `(#a) orderby title`: a group holding `#a`, then `orderby title` at the top level. */
  const GROUP_THEN_ORDER_BY: seq<Token> :=
    [Group([LABEL_A]), Tok("orderby", false, 5, 11), Tok("title", false, 13, 17)]

  /** `(#a orderby title)`: one group holding all three tokens. */
  const ORDER_BY_IN_GROUP: seq<Token> :=
    [Group([LABEL_A, Tok("orderby", false, 4, 10), Tok("title", false, 12, 16)])]

  /** `#a` references the label `a`, not negated. */
  lemma LabelAReference()
    ensures StartsWith("#a", "#") && !Negated("#a") && Bare("#a") == "a"
  {
    assert "#a"[..1] == "#";
    assert SubstrFrom("#a", 1) == "a";
    assert "a"[..1] == "a";
  }

  /** The error recorded from a context without one by the validation of the path `title`. */
  function TitleValidated(env: Env): Option<string>
  {
    if Truthy(env.validate(["title"])) then env.validate(["title"]) else None
  }

  /** `orderby title` ordering `sub`. */
  function OrderedByTitle(sub: Exp): Exp
  {
    OrderByAndLimitExp([OrderDefinition(["title"], Some("asc"))], NoLimit, Some(sub))
  }

  /** A level parser over tokens starts its loop at the first token with nothing collected. */
  lemma ExpressionStartsLoop(c: Input, level: nat, d: Diag)
    requires |c.tokens| > 0
    ensures ExpressionOf(c, level, d) == LoopOf(c, LevelState(0, [], None, level, d))
  {
  }

  /** A turn that neither returns nor throws is followed by the rest of the loop from the next token. */
  lemma LoopAfterTurn(c: Input, s: LevelState)
    requires 0 <= s.i < |c.tokens| && !TurnOf(c, s).0.Done?
    ensures LoopOf(c, s) == LoopOf(c, TurnOf(c, s).1.(i := TurnOf(c, s).1.i + 1))
  {
  }

  /** Past the last token the loop yields the one expression it collected. */
  lemma LoopEndsWithOne(c: Input, s: LevelState)
    requires s.i >= |c.tokens| && |s.expressions| == 1
    ensures LoopOf(c, s) == (Normal(Some(s.expressions[0])), s)
  {
    AggregateMeaning(s.op, s.expressions);
  }

  /** `#a` not followed by an operator, met with nothing collected: the label `a` has to exist. */
  lemma LabelATurn(c: Input, s: LevelState)
    requires 0 <= s.i < |c.tokens| && TokenIs(c.tokens, s.i, "#a") && s.expressions == []
    requires !(s.i < |c.tokens| - 2 && IsOperator(c.tokens[s.i + 1]))
    ensures TurnOf(c, s) ==
              (Proceed, s.(expressions := [AttributeExistsExp("label", "a", c.fuzzy)], d := Highlighted(s.d, ["a"])))
  {
    LabelAReference();
    var a := AttributeExistsExp("label", "a", c.fuzzy);
    assert AttributeOf(c, s.i, s.d, "#a") == Res(Normal(Some(a)), s.i, Highlighted(s.d, ["a"]));
  }

  /** Below the top level `orderby` only records its error and is skipped. */
  lemma OrderByBelowTop(c: Input, s: LevelState)
    requires 0 <= s.i < |c.tokens| && TokenIs(c.tokens, s.i, "orderby") && !OrderByAllowed(s.level)
    ensures TurnOf(c, s) == (Continue, s.(d := AddErr(s.d, ORDER_BY_NOT_TOP)))
  {
    assert "orderby"[..1] == "o";
  }

  /** `title` alone in the loop is an unrecognized expression. */
  lemma TitleUnrecognized(c: Input, s: LevelState)
    requires 0 <= s.i < |c.tokens| && TokenIs(c.tokens, s.i, "title") && |s.expressions| <= 1
    ensures TurnOf(c, s) == (Proceed, s.(d := AddErr(s.d, UnrecognizedMessage("title"))))
  {
    assert "title"[..1] == "t" && "title" !in OPERATORS;
  }

  /** `orderby title` at token 1 at the top level: the ordering of the collected `sub`, and the path's validation. */
  lemma OrderByTitleAtTop(c: Input, s: LevelState, sub: Exp)
    requires |c.tokens| == 3 && TokenIs(c.tokens, 1, "orderby") && TokenIs(c.tokens, 2, "title")
    requires s.i == 1 && s.level == 0 && s.op == None && s.expressions == [sub] && s.d.error == None
    ensures TurnOf(c, s) ==
              (Done(Normal(Some(OrderedByTitle(sub)))), s.(i := 3, d := s.d.(error := TitleValidated(c.env))))
  {
    var d1 := s.d.(error := TitleValidated(c.env));
    var defs := [OrderDefinition(["title"], Some("asc"))];
    assert PathOf(c.tokens, 1, []) == (Normal(["title"]), 3);
    assert EntriesOf(c, 1, s.d, []) == Res(Normal(defs), 3, d1);
    assert OrderByAndLimitOf(c, 1, s.d) == Res(Normal(OrderByAndLimitExp(defs, NoLimit, None)), 3, d1);
    AggregateMeaning(None, [sub]);
    assert OrderByTurnOf(c, s) == (Done(Normal(Some(OrderedByTitle(sub)))), s.(i := 3, d := d1));
    assert "orderby"[..1] == "o";
  }

  /**
   * `orderby title` at token 1 below the top level, after one collected
   * expression: the error is recorded, `title` is unrecognized (an error
   * that the first one hides), and the collected expression is the result.
   */
  lemma OrderByTitleBelowTop(c: Input, s: LevelState)
    requires |c.tokens| == 3 && TokenIs(c.tokens, 1, "orderby") && TokenIs(c.tokens, 2, "title")
    requires s.i == 1 && !OrderByAllowed(s.level) && |s.expressions| == 1
    ensures LoopOf(c, s) == (Normal(Some(s.expressions[0])), s.(i := 3, d := AddErr(s.d, ORDER_BY_NOT_TOP)))
  {
    var s2 := s.(d := AddErr(s.d, ORDER_BY_NOT_TOP));
    OrderByBelowTop(c, s);
    LoopAfterTurn(c, s);
    TitleUnrecognized(c, s2.(i := 2));
    assert AddErr(s2.d, UnrecognizedMessage("title")) == s2.d;
    LoopAfterTurn(c, s2.(i := 2));
    LoopEndsWithOne(c, s2.(i := 3));
  }

  /** The level parser over `[#a]` alone, at any level: the label `a` has to exist. */
  lemma LabelAlone(c: Input, level: nat, d: Diag)
    requires c.tokens == [LABEL_A]
    ensures ExpressionOf(c, level, d) ==
              (Normal(Some(AttributeExistsExp("label", "a", c.fuzzy))),
               LevelState(1, [AttributeExistsExp("label", "a", c.fuzzy)], None, level, Highlighted(d, ["a"])))
  {
    var s := LevelState(0, [], None, level, d);
    ExpressionStartsLoop(c, level, d);
    LabelATurn(c, s);
    LoopAfterTurn(c, s);
    LoopEndsWithOne(c, LevelState(1, [AttributeExistsExp("label", "a", c.fuzzy)], None, level, Highlighted(d, ["a"])));
  }

  /** The level parser over `#a orderby title` at the top level: the label, ordered by title. */
  lemma LabelOrderedAtTop(c: Input, d: Diag)
    requires |c.tokens| == 3 && TokenIs(c.tokens, 0, "#a") && TokenIs(c.tokens, 1, "orderby") && TokenIs(c.tokens, 2, "title")
    requires d.error == None
    ensures var a := AttributeExistsExp("label", "a", c.fuzzy);
            ExpressionOf(c, 0, d) ==
              (Normal(Some(OrderedByTitle(a))),
               LevelState(3, [a], None, 0, Highlighted(d, ["a"]).(error := TitleValidated(c.env))))
  {
    var a := AttributeExistsExp("label", "a", c.fuzzy);
    var s := LevelState(0, [], None, 0, d);
    ExpressionStartsLoop(c, 0, d);
    LabelATurn(c, s);
    LoopAfterTurn(c, s);
    OrderByTitleAtTop(c, LevelState(1, [a], None, 0, Highlighted(d, ["a"])), a);
  }

  /** The level parser over `#a orderby title` below the top level: the label alone, and the error. */
  lemma LabelOrderedBelowTop(c: Input, level: nat, d: Diag)
    requires |c.tokens| == 3 && TokenIs(c.tokens, 0, "#a") && TokenIs(c.tokens, 1, "orderby") && TokenIs(c.tokens, 2, "title")
    requires level > 0
    ensures var a := AttributeExistsExp("label", "a", c.fuzzy);
            ExpressionOf(c, level, d) ==
              (Normal(Some(a)), LevelState(3, [a], None, level, AddErr(Highlighted(d, ["a"]), ORDER_BY_NOT_TOP)))
  {
    var a := AttributeExistsExp("label", "a", c.fuzzy);
    var s := LevelState(0, [], None, level, d);
    ExpressionStartsLoop(c, level, d);
    LabelATurn(c, s);
    LoopAfterTurn(c, s);
    OrderByTitleBelowTop(c, LevelState(1, [a], None, level, Highlighted(d, ["a"])));
  }

  /** A query that is one group: the group's expression at the top, with the group's diagnostics. */
  lemma OneGroup(c: Input, d: Diag, e: Exp, inner: LevelState)
    requires |c.tokens| == 1 && c.tokens[0].Group?
    requires ExpressionOf(c.(tokens := c.tokens[0].items), GroupLevel(c.nesting, 0), d) == (Normal(Some(e)), inner)
    ensures ExpressionOf(c, 0, d) == (Normal(Some(e)), LevelState(1, [e], None, LevelAfterGroup(c.nesting, 0), inner.d))
  {
    var s := LevelState(0, [], None, 0, d);
    ExpressionStartsLoop(c, 0, d);
    assert GroupTurnOf(c, s) == (Continue, s.(level := LevelAfterGroup(c.nesting, 0), d := inner.d, expressions := [e]));
    LoopAfterTurn(c, s);
    LoopEndsWithOne(c, LevelState(1, [e], None, LevelAfterGroup(c.nesting, 0), inner.d));
  }

  /**
   * A query that starts with the group `(#a)`: the label collected at the
   * top, and the top level after the group.
   */
  lemma GroupOfLabelFirst(c: Input, d: Diag)
    requires |c.tokens| > 1 && c.tokens[0] == Group([LABEL_A])
    ensures var a := AttributeExistsExp("label", "a", c.fuzzy);
            TurnOf(c, LevelState(0, [], None, 0, d)) ==
              (Continue, LevelState(0, [a], None, LevelAfterGroup(c.nesting, 0), Highlighted(d, ["a"])))
  {
    var s := LevelState(0, [], None, 0, d);
    LabelAlone(c.(tokens := [LABEL_A]), GroupLevel(c.nesting, 0), d);
    assert GroupTurnOf(c, s) == TurnOf(c, s);
  }

  /**
   * As written, `(#a) orderby title` is refused: the group raises the top
   * level to 1, so `orderby` records "orderBy can appear only on the top
   * expression level" and `title` is an unrecognized expression; the result
   * is the label alone, without an ordering.
   */
  lemma AsWrittenRefusesOrderByAfterGroup(env: Env, query: string, fuzzy: bool, h: seq<string>)
    ensures var r := ExpressionOf(Input(GROUP_THEN_ORDER_BY, env, query, fuzzy, AsWritten), 0, Diag(None, h));
            r.0 == Normal(Some(AttributeExistsExp("label", "a", fuzzy)))
            && r.1.d == Diag(Some(ORDER_BY_NOT_TOP), h + ["a"])
  {
    var c := Input(GROUP_THEN_ORDER_BY, env, query, fuzzy, AsWritten);
    var d := Diag(None, h);
    var s0 := LevelState(0, [], None, 0, d);
    var s1 := LevelState(0, [AttributeExistsExp("label", "a", fuzzy)], None, 1, Highlighted(d, ["a"]));
    ExpressionStartsLoop(c, 0, d);
    GroupOfLabelFirst(c, d);
    LoopAfterTurn(c, s0);
    OrderByTitleBelowTop(c, s1.(i := 1));
  }

  /**
   * As written, `(#a orderby title)` is accepted: the group is parsed at
   * level 0, so the ordering inside it is returned, over the label.
   */
  lemma AsWrittenAcceptsOrderByInGroup(env: Env, query: string, fuzzy: bool, h: seq<string>)
    ensures var r := ExpressionOf(Input(ORDER_BY_IN_GROUP, env, query, fuzzy, AsWritten), 0, Diag(None, h));
            r.0 == Normal(Some(OrderedByTitle(AttributeExistsExp("label", "a", fuzzy))))
            && r.1.d == Diag(TitleValidated(env), h + ["a"])
  {
    var c := Input(ORDER_BY_IN_GROUP, env, query, fuzzy, AsWritten);
    var d := Diag(None, h);
    var inner := c.(tokens := ORDER_BY_IN_GROUP[0].items);
    LabelOrderedAtTop(inner, d);
    OneGroup(c, d, OrderedByTitle(AttributeExistsExp("label", "a", fuzzy)), ExpressionOf(inner, 0, d).1);
  }

  /**
   * With the intended nesting, `(#a) orderby title` orders the label: the
   * group leaves the top level at 0.
   */
  lemma IntendedAcceptsOrderByAfterGroup(env: Env, query: string, fuzzy: bool, h: seq<string>)
    ensures var r := ExpressionOf(Input(GROUP_THEN_ORDER_BY, env, query, fuzzy, Intended), 0, Diag(None, h));
            r.0 == Normal(Some(OrderedByTitle(AttributeExistsExp("label", "a", fuzzy))))
            && r.1.d == Diag(TitleValidated(env), h + ["a"])
  {
    var c := Input(GROUP_THEN_ORDER_BY, env, query, fuzzy, Intended);
    var d := Diag(None, h);
    var a := AttributeExistsExp("label", "a", fuzzy);
    var s0 := LevelState(0, [], None, 0, d);
    var s1 := LevelState(1, [a], None, 0, Highlighted(d, ["a"]));
    ExpressionStartsLoop(c, 0, d);
    GroupOfLabelFirst(c, d);
    LoopAfterTurn(c, s0);
    OrderByTitleAtTop(c, s1, a);
  }

  /**
   * With the intended nesting, `(#a orderby title)` is refused: the group
   * is parsed at level 1, where `orderby` records "orderBy can appear only
   * on the top expression level"; the result is the label alone.
   */
  lemma IntendedRefusesOrderByInGroup(env: Env, query: string, fuzzy: bool, h: seq<string>)
    ensures var r := ExpressionOf(Input(ORDER_BY_IN_GROUP, env, query, fuzzy, Intended), 0, Diag(None, h));
            r.0 == Normal(Some(AttributeExistsExp("label", "a", fuzzy)))
            && r.1.d == Diag(Some(ORDER_BY_NOT_TOP), h + ["a"])
  {
    var c := Input(ORDER_BY_IN_GROUP, env, query, fuzzy, Intended);
    var d := Diag(None, h);
    var inner := c.(tokens := ORDER_BY_IN_GROUP[0].items);
    LabelOrderedBelowTop(inner, 1, d);
    OneGroup(c, d, AttributeExistsExp("label", "a", fuzzy), ExpressionOf(inner, 1, d).1);
  }

  // ---------------------------------------------------------------------
  // getExpression
  // ---------------------------------------------------------------------

  datatype Step = Continue | Proceed | Done(result: Outcome<Option<Exp>>)

  /** The number of tokens, counting those inside groups: what nested parsing decreases. */
  function Size(ts: seq<Token>): nat
    decreases ts
  {
    if |ts| == 0 then 0 else 1 + (if ts[0].Group? then Size(ts[0].items) else 0) + Size(ts[1..])
  }

  lemma {:induction false} GroupSmaller(ts: seq<Token>, k: int)
    requires 0 <= k < |ts| && ts[k].Group?
    ensures Size(ts[k].items) < Size(ts)
    decreases ts
  {
    if k > 0 {
      GroupSmaller(ts[1..], k - 1);
    }
  }

  /**
   * One level of `getExpression`: the object holds the state its closures
   * share (the cursor `i`, the collected `expressions`, the operator `op`
   * and the `level` parameter, which `level++` changes), and every method
   * computes the function of that state named in its contract. The
   * context's `originalQuery` and `fuzzyAttributeSearch`, which parsing
   * never changes, are read once by `parse` and handed to every level.
   */
  class ExpressionParser {
    const tokens: seq<Token>
    const ctx: SearchContext
    const env: Env
    const nesting: Nesting
    const query: string
    const fuzzy: bool
    var level: nat
    var i: int
    var expressions: seq<Exp>
    var op: Option<string>

    constructor(tokens: seq<Token>, ctx: SearchContext, env: Env, level: nat, nesting: Nesting, query: string, fuzzy: bool)
      ensures this.tokens == tokens && this.ctx == ctx && this.env == env && this.nesting == nesting
      ensures this.level == level && i == 0 && expressions == [] && op == None
      ensures this.query == query && this.fuzzy == fuzzy
    {
      this.tokens := tokens;
      this.ctx := ctx;
      this.env := env;
      this.nesting := nesting;
      this.query := query;
      this.fuzzy := fuzzy;
      this.level := level;
      i := 0;
      expressions := [];
      op := None;
    }

    /** What this parser reads and never changes. */
    function Given(): Input
    {
      Input(tokens, env, query, fuzzy, nesting)
    }

    /** The parser's state with the context's diagnostics. */
    function State(): LevelState
      reads this, ctx
    {
      LevelState(i, expressions, op, level, DiagOf(ctx))
    }

    method ResolveConstantOperand() returns (r: Outcome<Option<string>>)
      requires 0 <= i
      modifies this`i, ctx`error
      ensures Res(r, i, DiagOf(ctx)) == OperandOf(Given(), old(i), old(DiagOf(ctx)))
    {
      if !(i < |tokens|) || tokens[i].Group? {
        return Thrown(TYPE_ERROR);
      }
      var operand := tokens[i];
      if NotConstant(operand) {
        ctx.AddError(ConstantOnlyMessage(query, operand));
        return Normal(None);
      }
      if operand.inQuotes || operand.token !in DATE_KEYWORDS {
        return Normal(Some(operand.token));
      }
      var delta: Option<int> := Some(0);
      if i + 2 < |tokens| {
        if TokenIs(tokens, i + 1, "+") {
          i := i + 2;
          delta := MoveDelta(delta, ParseInt(Shown(Text(tokens[i]))), false);
        } else if TokenIs(tokens, i + 1, "-") {
          i := i + 2;
          delta := MoveDelta(delta, ParseInt(Shown(Text(tokens[i]))), true);
        }
      }
      return Normal(Some(env.relativeDate(operand.token, delta)));
    }

    method ParseLabel(labelName: string) returns (r: Outcome<Option<Exp>>)
      requires 0 <= i
      modifies this`i, ctx`error, ctx`highlightedTokens
      ensures Res(r, i, DiagOf(ctx)) == LabelOf(Given(), old(i), old(DiagOf(ctx)), labelName)
    {
      ctx.Highlight([labelName]);
      if i < |tokens| - 2 && IsOperator(tokens[i + 1]) {
        var operator := tokens[i + 1].token;
        i := i + 2;
        r := ParseComparedLabel(labelName, operator);
        return;
      }
      return Normal(Some(AttributeExistsExp("label", labelName, fuzzy)));
    }

    method ParseComparedLabel(labelName: string, operator: string) returns (r: Outcome<Option<Exp>>)
      requires 1 <= i
      modifies this`i, ctx`error, ctx`highlightedTokens
      ensures Res(r, i, DiagOf(ctx)) == ComparedLabelOf(Given(), old(i), old(DiagOf(ctx)), labelName, operator)
    {
      ghost var v := OperandOf(Given(), i, DiagOf(ctx));
      var comparedValue := ResolveConstantOperand();
      assert v == Res(comparedValue, i, DiagOf(ctx));
      if comparedValue.Thrown? {
        return Thrown(comparedValue.message);
      }
      if comparedValue.value.None? {
        return Normal(None);
      }
      r := Compare(labelName, operator, comparedValue.value.value);
    }

    /** The comparison of the label with the resolved operand `value`, at the cursor. */
    method Compare(labelName: string, written: string, value: string) returns (r: Outcome<Option<Exp>>)
      requires 1 <= i <= |tokens|
      modifies ctx`error, ctx`highlightedTokens
      ensures Res(r, i, DiagOf(ctx)) == ComparisonOf(Given(), i, old(DiagOf(ctx)), labelName, written, value)
    {
      ctx.Highlight([value]);
      var effective := if fuzzy && written == "=" then "*=*" else written;
      if !env.hasComparator(effective, value) {
        ctx.AddError(NoComparatorMessage(query, effective, tokens[i - 1]));
        return Normal(None);
      }
      return Normal(Some(LabelComparisonExp("label", labelName, effective, value)));
    }

    method ParseRelation(relationName: string) returns (r: Outcome<Option<Exp>>)
      requires 0 <= i
      modifies this`i, ctx`error, ctx`highlightedTokens
      decreases |tokens| - i, 1
      ensures Res(r, i, DiagOf(ctx)) == RelationOf(Given(), old(i), old(DiagOf(ctx)), relationName)
    {
      ctx.Highlight([relationName]);
      if i < |tokens| - 2 && TokenIs(tokens, i + 1, ".") {
        i := i + 1;
        r := ParseNoteProperty();
        if r.Normal? && r.value.Some? {
          r := Normal(Some(RelationWhereExp(relationName, r.value.value)));
        }
      } else if i < |tokens| - 2 && IsOperator(tokens[i + 1]) {
        ctx.AddError(RelationComparedMessage(query, tokens[i]));
        r := Normal(None);
      } else {
        r := Normal(Some(AttributeExistsExp("relation", relationName, fuzzy)));
      }
    }

    method ParseRelative(kind: string) returns (r: Outcome<Option<Exp>>)
      requires 0 <= i && kind in ["parents", "children", "ancestors"]
      modifies this`i, ctx`error, ctx`highlightedTokens
      decreases |tokens| - i, 1
      ensures Res(r, i, DiagOf(ctx)) == RelativeOf(Given(), old(i), old(DiagOf(ctx)), kind)
    {
      r := ParseNoteProperty();
      if r.Normal? && r.value.Some? {
        var e := r.value.value;
        if kind == "parents" {
          r := Normal(Some(ChildOfExp(e)));
        } else if kind == "children" {
          r := Normal(Some(ParentOfExp(e)));
        } else {
          r := Normal(Some(DescendantOfExp(e)));
        }
      }
    }

    method ParseContent(raw: bool) returns (r: Outcome<Option<Exp>>)
      requires 0 <= i
      modifies this`i, ctx`error
      ensures Res(r, i, DiagOf(ctx)) == ContentOf(Given(), old(i), old(DiagOf(ctx)), raw)
    {
      if !(i < |tokens|) {
        return Thrown(TYPE_ERROR);
      }
      var operator := tokens[i];
      if !IsOperator(operator) {
        ctx.AddError(ContentOperatorMessage(query, operator));
        return Normal(None);
      }
      i := i + 1;
      var value := TextAt(tokens, i);
      if value.Thrown? {
        return Thrown(value.message);
      }
      return Normal(Some(NoteContentFulltextExp(operator.token, [Shown(value.value)], raw, false)));
    }

    method ParseAttributePath(property: string) returns (r: Outcome<Option<Exp>>)
      requires 0 <= i < |tokens| && property in ["labels", "relations", "text"]
      modifies this`i, ctx`error, ctx`highlightedTokens
      decreases |tokens| - i, 2
      ensures Res(r, i, DiagOf(ctx)) == AttributePathOf(Given(), old(i), old(DiagOf(ctx)), property)
    {
      var next := TextAt(tokens, i + 1);
      if next.Thrown? {
        return Thrown(next.message);
      }
      if property == "text" && next.value != Some("*=*") {
        ctx.AddError(TextOperatorMessage(query, next.value, tokens[i]));
        return Normal(None);
      }
      if property != "text" && next.value != Some(".") {
        ctx.AddError(SeparatorMessage(query, next.value, tokens[i]));
        return Normal(None);
      }
      i := i + 2;
      r := ParseAttributeTarget(property);
    }

    method ParseAttributeTarget(property: string) returns (r: Outcome<Option<Exp>>)
      requires 0 <= i && property in ["labels", "relations", "text"]
      modifies this`i, ctx`error, ctx`highlightedTokens
      decreases |tokens| - i, 4
      ensures Res(r, i, DiagOf(ctx)) == AttributeTargetOf(Given(), old(i), old(DiagOf(ctx)), property)
    {
      var target := TextAt(tokens, i);
      if target.Thrown? {
        return Thrown(target.message);
      }
      var word := Shown(target.value);
      if property == "labels" || property == "relations" {
        r := ParseReference(property == "labels", word);
      } else {
        r := Normal(Some(OrExp([PropertyComparisonExp("title", "*=*", word),
                                NoteContentFulltextExp("*=*", [word], false, false)])));
      }
    }

    method ParsePropertyComparison(propertyName: string) returns (r: Outcome<Option<Exp>>)
      requires 0 <= i
      modifies this`i, ctx`error
      ensures Res(r, i, DiagOf(ctx)) == PropertyComparisonOf(Given(), old(i), old(DiagOf(ctx)), propertyName)
    {
      var operator := TextAt(tokens, i + 1);
      if operator.Thrown? {
        return Thrown(operator.message);
      }
      i := i + 2;
      var comparedValue := ResolveConstantOperand();
      if comparedValue.Thrown? {
        return Thrown(comparedValue.message);
      }
      if !Truthy(comparedValue.value) {
        ctx.AddError("Unresolved constant operand.");
        return Normal(None);
      }
      return Normal(Some(PropertyComparisonExp(propertyName, Shown(operator.value), comparedValue.value.value)));
    }

    method ParseNoteProperty() returns (r: Outcome<Option<Exp>>)
      requires 0 <= i
      modifies this`i, ctx`error, ctx`highlightedTokens
      decreases |tokens| - i, 0
      ensures Res(r, i, DiagOf(ctx)) == NotePropertyOf(Given(), old(i), old(DiagOf(ctx)))
    {
      var dot := TextAt(tokens, i);
      if dot.Thrown? {
        return Thrown(dot.message);
      }
      if dot.value != Some(".") {
        ctx.AddError("Expected \".\" to separate field path");
        return Normal(None);
      }
      i := i + 1;
      r := ParseProperty();
    }

    /** The field after the `.` of a note property path. */
    method ParseProperty() returns (r: Outcome<Option<Exp>>)
      requires 1 <= i
      modifies this`i, ctx`error, ctx`highlightedTokens
      decreases |tokens| - i, 6
      ensures Res(r, i, DiagOf(ctx)) == PropertyOf(Given(), old(i), old(DiagOf(ctx)))
    {
      var name := TextAt(tokens, i);
      if name.Thrown? {
        return Thrown(name.message);
      }
      if name.value.Some? && name.value.value in ["content", "rawcontent", "parents", "children", "ancestors"] {
        r := ParseStep(name.value.value);
      } else {
        r := ParseField(name.value);
      }
    }

    /** `content`/`rawcontent` or a tree step, at its token. */
    method ParseStep(property: string) returns (r: Outcome<Option<Exp>>)
      requires 1 <= i < |tokens| && property in ["content", "rawcontent", "parents", "children", "ancestors"]
      modifies this`i, ctx`error, ctx`highlightedTokens
      decreases |tokens| - i, 5
      ensures Res(r, i, DiagOf(ctx)) == StepOf(Given(), old(i), old(DiagOf(ctx)), property)
    {
      i := i + 1;
      if property == "content" || property == "rawcontent" {
        r := ParseContent(property == "rawcontent");
      } else {
        r := ParseRelative(property);
      }
    }

    /** Any other field, at its token. */
    method ParseField(property: Option<string>) returns (r: Outcome<Option<Exp>>)
      requires 1 <= i < |tokens|
      modifies this`i, ctx`error, ctx`highlightedTokens
      decreases |tokens| - i, 5
      ensures Res(r, i, DiagOf(ctx)) == FieldOf(Given(), old(i), old(DiagOf(ctx)), property)
    {
      if property == Some("labels") || property == Some("relations") || property == Some("text") {
        r := ParseAttributePath(property.value);
      } else if env.isProperty(Shown(property)) {
        r := ParsePropertyComparison(Shown(property));
      } else {
        ctx.AddError(UnknownPropertyMessage(query, property, tokens[i]));
        r := Normal(None);
      }
    }

    method ParseReference(isLabel: bool, name: string) returns (r: Outcome<Option<Exp>>)
      requires 0 <= i
      modifies this`i, ctx`error, ctx`highlightedTokens
      decreases |tokens| - i, 3
      ensures Res(r, i, DiagOf(ctx)) == ReferenceOf(Given(), old(i), old(DiagOf(ctx)), isLabel, name)
    {
      if isLabel {
        r := ParseLabel(name);
      } else {
        r := ParseRelation(name);
      }
    }

    method ParseAttribute(name: string) returns (r: Outcome<Option<Exp>>)
      requires 0 <= i && (StartsWith(name, "#") || StartsWith(name, "~"))
      modifies this`i, ctx`error, ctx`highlightedTokens
      ensures Res(r, i, DiagOf(ctx)) == AttributeOf(Given(), old(i), old(DiagOf(ctx)), name)
    {
      var isLabel := StartsWith(name, "#");
      var rest := SubstrFrom(name, 1);
      var isNegated := StartsWith(rest, "!");
      if isNegated {
        rest := SubstrFrom(rest, 1);
      }
      r := ParseReference(isLabel, rest);
      if r.Normal? && r.value.Some? && isNegated {
        r := Normal(Some(NotExp(r.value.value)));
      }
    }

    method ParsePropertyPath() returns (r: Outcome<seq<string>>)
      requires 0 <= i < |tokens|
      modifies this`i
      ensures (r, i) == PathOf(tokens, old(i), [])
    {
      var path: seq<string> := [];
      var more := true;
      while more
        invariant more ==> 0 <= i < |tokens| && PathOf(tokens, i, path) == PathOf(tokens, old(i), [])
        invariant !more ==> (Normal(path), i) == PathOf(tokens, old(i), [])
        decreases |tokens| - i, more
      {
        i := i + 1;
        var word := TextAt(tokens, i);
        if word.Thrown? {
          return Thrown(word.message);
        }
        path := path + [Shown(word.value)];
        i := i + 1;
        more := i < |tokens| && TokenIs(tokens, i, ".");
      }
      return Normal(path);
    }

    /** The `orderby` entries, separated by `,`, from the `orderby` at `i`. */
    method ParseOrderDefinitions() returns (r: Outcome<seq<OrderDefinition>>)
      requires 0 <= i < |tokens|
      modifies this`i, ctx`error
      ensures Res(r, i, DiagOf(ctx)) == EntriesOf(Given(), old(i), old(DiagOf(ctx)), [])
    {
      ghost var entries := EntriesOf(Given(), i, DiagOf(ctx), []);
      var orderDefinitions: seq<OrderDefinition> := [];
      var more := true;
      while more
        invariant more ==> 0 <= i < |tokens| && WellFormedOrder(orderDefinitions)
                           && EntriesOf(Given(), i, DiagOf(ctx), orderDefinitions) == entries
        invariant !more ==> Res(Normal(orderDefinitions), i, DiagOf(ctx)) == entries
        decreases |tokens| - i, more
      {
        var entry := ParseOrderEntry(orderDefinitions);
        if entry.Thrown? {
          return Thrown(entry.message);
        }
        orderDefinitions := entry.value;
        more := i < |tokens| && TokenIs(tokens, i, ",");
      }
      return Normal(orderDefinitions);
    }

    /** One `orderby` entry from the `orderby` or `,` at `i`, appended to `defs`. */
    method ParseOrderEntry(defs: seq<OrderDefinition>) returns (r: Outcome<seq<OrderDefinition>>)
      requires 0 <= i < |tokens| && WellFormedOrder(defs)
      modifies this`i, ctx`error
      ensures Res(r, i, DiagOf(ctx)) == EntryOf(Given(), old(i), old(DiagOf(ctx)), defs)
    {
      var path := ParsePropertyPath();
      if path.Thrown? {
        return Thrown(path.message);
      }
      var direction := "asc";
      if i < |tokens| && (TokenIs(tokens, i, "asc") || TokenIs(tokens, i, "desc")) {
        direction := tokens[i].token;
        i := i + 1;
      }
      var validationError := env.validate(path.value);
      if Truthy(validationError) {
        ctx.AddError(validationError.value);
      }
      r := Normal(defs + [OrderDefinition(path.value, Some(direction))]);
    }

    method ParseOrderByAndLimit() returns (r: Outcome<Exp>)
      requires 0 <= i < |tokens|
      modifies this`i, ctx`error
      ensures Res(r, i, DiagOf(ctx)) == OrderByAndLimitOf(Given(), old(i), old(DiagOf(ctx)))
    {
      ghost var spec := OrderByAndLimitOf(Given(), i, DiagOf(ctx));
      var orderDefinitions: seq<OrderDefinition> := [];
      if TokenIs(tokens, i, "orderby") {
        ghost var e := EntriesOf(Given(), i, DiagOf(ctx), []);
        var entries := ParseOrderDefinitions();
        assert e == Res(entries, i, DiagOf(ctx));
        if entries.Thrown? {
          return Thrown(entries.message);
        }
        orderDefinitions := entries.value;
      }
      assert spec == LimitAfter(Given(), orderDefinitions, i, DiagOf(ctx));
      r := Limit(orderDefinitions);
    }

    /** The `limit n` part of `parseOrderByAndLimit`, after the order entries `defs`. */
    method Limit(defs: seq<OrderDefinition>) returns (r: Outcome<Exp>)
      ensures Res(r, i, DiagOf(ctx)) == LimitAfter(Given(), defs, i, DiagOf(ctx))
    {
      var limit := NoLimit;
      if i < |tokens| && TokenIs(tokens, i, "limit") {
        var count := TextAt(tokens, i + 1);
        if count.Thrown? {
          return Thrown(count.message);
        }
        var n := ParseInt(Shown(count.value));
        limit := if n.Some? then LimitOf(n.value) else NaNLimit;
      }
      return Normal(OrderByAndLimitExp(defs, limit, None));
    }

    method Operator(token: string)
      requires token == "and" || token == "or"
      modifies this`op, ctx`error
      ensures State() == OperatorOf(old(State()), token)
    {
      if op.None? {
        op := Some(token);
      } else if op != Some(token) {
        ctx.AddError(MIXED_AND_OR);
      }
    }

    /** A parenthesised group, parsed by a level parser of its own at `groupLevel`. */
    method Nested(items: seq<Token>, groupLevel: nat) returns (r: Outcome<Option<Exp>>)
      requires Size(items) < Size(tokens)
      modifies ctx`error, ctx`highlightedTokens
      decreases Size(tokens), 0
      ensures var g := ExpressionOf(Given().(tokens := items), groupLevel, old(DiagOf(ctx)));
              r == g.0 && DiagOf(ctx) == g.1.d
    {
      var sub := new ExpressionParser(items, ctx, env, groupLevel, nesting, query, fuzzy);
      r := sub.GetExpression();
    }

    method GroupTurn() returns (s: Step)
      requires 0 <= i < |tokens| && tokens[i].Group?
      modifies this`expressions, this`level, ctx`error, ctx`highlightedTokens
      decreases Size(tokens), 1
      ensures (s, State()) == GroupTurnOf(Given(), old(State()))
    {
      GroupSmaller(tokens, i);
      var groupLevel := GroupLevel(nesting, level);
      level := LevelAfterGroup(nesting, level);
      var expression := Nested(tokens[i].items, groupLevel);
      if expression.Thrown? {
        return Done(expression);
      }
      if expression.value.Some? {
        expressions := expressions + [expression.value.value];
      }
      return Continue;
    }

    method AttributeTurn(token: string) returns (s: Step)
      requires 0 <= i && (StartsWith(token, "#") || StartsWith(token, "~"))
      modifies this`i, this`expressions, ctx`error, ctx`highlightedTokens
      ensures (s, State()) == AttributeTurnOf(Given(), old(State()), token)
    {
      var attribute := ParseAttribute(token);
      if attribute.Thrown? {
        return Done(Thrown(TYPE_ERROR));
      }
      if attribute.value.Some? {
        expressions := expressions + [attribute.value.value];
      }
      return Proceed;
    }

    method OrderByTurn() returns (s: Step)
      requires 0 <= i < |tokens|
      modifies this`i, ctx`error
      ensures (s, State()) == OrderByTurnOf(Given(), old(State()))
    {
      if !OrderByAllowed(level) {
        ctx.AddError(ORDER_BY_NOT_TOP);
        return Continue;
      }
      var exp := ParseOrderByAndLimit();
      if exp.Thrown? {
        return Done(Thrown(TYPE_ERROR));
      }
      return Done(Normal(Some(exp.value.(subExpression := Some(Aggregate(op, expressions))))));
    }

    method NotTurn() returns (s: Step)
      requires 0 <= i < |tokens|
      modifies this`i, this`expressions, this`level, ctx`error, ctx`highlightedTokens
      decreases Size(tokens), 1
      ensures (s, State()) == NotTurnOf(Given(), old(State()))
    {
      ghost var spec := NotTurnOf(Given(), State());
      i := i + 1;
      if !(i < |tokens|) {
        assert spec == (Done(Thrown(TYPE_ERROR)), State());
        return Done(Thrown(TYPE_ERROR));
      }
      if tokens[i].Tok? {
        ctx.AddError(NotGroupMessage(tokens[i].token));
        assert spec == (Continue, State());
        return Continue;
      }
      GroupSmaller(tokens, i);
      var groupLevel := GroupLevel(nesting, level);
      ghost var g := ExpressionOf(Given().(tokens := tokens[i].items), groupLevel, DiagOf(ctx));
      level := LevelAfterGroup(nesting, level);
      var expression := Nested(tokens[i].items, groupLevel);
      assert expression == g.0 && DiagOf(ctx) == g.1.d;
      if expression.Thrown? {
        assert spec == (Done(expression), State());
        return Done(expression);
      }
      if expression.value.None? {
        assert spec == (Done(Normal(None)), State());
        return Done(Normal(None));
      }
      expressions := expressions + [NotExp(expression.value.value)];
      assert spec == (Proceed, State());
      return Proceed;
    }

    method NoteTurn() returns (s: Step)
      requires 0 <= i < |tokens|
      modifies this`i, this`expressions, ctx`error, ctx`highlightedTokens
      ensures (s, State()) == NoteTurnOf(Given(), old(State()))
    {
      i := i + 1;
      var expression := ParseNoteProperty();
      if expression.Thrown? {
        return Done(Thrown(TYPE_ERROR));
      }
      if expression.value.None? {
        return Done(Normal(None));
      }
      expressions := expressions + [expression.value.value];
      return Continue;
    }

    method Turn() returns (s: Step)
      requires 0 <= i < |tokens|
      modifies this`i, this`expressions, this`op, this`level, ctx`error, ctx`highlightedTokens
      decreases Size(tokens), 2
      ensures (s, State()) == TurnOf(Given(), old(State()))
    {
      var t := tokens[i];
      if t.Group? {
        s := GroupTurn();
        return;
      }
      var token := t.token;
      if token == "#" || token == "~" {
        return Continue;
      }
      if StartsWith(token, "#") || StartsWith(token, "~") {
        s := AttributeTurn(token);
      } else if token == "orderby" || token == "limit" {
        s := OrderByTurn();
        return;
      } else if token == "not" {
        s := NotTurn();
      } else if token == "note" {
        s := NoteTurn();
        return;
      } else if token == "and" || token == "or" {
        Operator(token);
        s := Proceed;
      } else if token in OPERATORS {
        ctx.AddError(MisplacedMessage(token));
        s := Proceed;
      } else {
        ctx.AddError(UnrecognizedMessage(token));
        s := Proceed;
      }
      if s == Proceed && op.None? && |expressions| > 1 {
        op := Some("and");
      }
    }

    method GetExpression() returns (r: Outcome<Option<Exp>>)
      requires i == 0 && expressions == [] && op == None
      modifies this`i, this`expressions, this`op, this`level, ctx`error, ctx`highlightedTokens
      decreases Size(tokens), 3
      ensures (r, State()) == ExpressionOf(Given(), old(level), old(DiagOf(ctx)))
    {
      if |tokens| == 0 {
        return Normal(None);
      }
      ExpressionStartsLoop(Given(), level, DiagOf(ctx));
      while i < |tokens|
        invariant 0 <= i
        invariant LoopOf(Given(), State()) == ExpressionOf(Given(), old(level), old(DiagOf(ctx)))
        decreases |tokens| - i
      {
        ghost var before := State();
        var s := Turn();
        if s.Done? {
          return s.result;
        }
        LoopAfterTurn(Given(), before);
        i := i + 1;
      }
      return Normal(Some(Aggregate(op, expressions)));
    }
  }

  // ---------------------------------------------------------------------
  // parse
  // ---------------------------------------------------------------------

  const ARCHIVED_FILTER := PropertyComparisonExp("isarchived", "=", "false")

  /**
   * `getAncestorExp`: a search inside a note other than `root` is limited
   * to its descendants; otherwise hidden notes are left out unless they
   * were asked for.
   */
  function GetAncestorExp(ancestorNoteId: Option<string>, ancestorDepth: Option<string>, includeHiddenNotes: bool): (r: Option<Exp>)
    ensures Truthy(ancestorNoteId) && ancestorNoteId.value != "root" ==>
              r == Some(AncestorExp(ancestorNoteId.value, ancestorDepth))
    ensures !(Truthy(ancestorNoteId) && ancestorNoteId.value != "root") ==>
              (r.Some? <==> !includeHiddenNotes) && (r.Some? ==> r.value == NotExp(IsHiddenExp))
  {
    if Truthy(ancestorNoteId) && ancestorNoteId.value != "root" then Some(AncestorExp(ancestorNoteId.value, ancestorDepth))
    else if !includeHiddenNotes then Some(NotExp(IsHiddenExp))
    else None
  }

  /** The full-text tokens as they are searched: their texts without diacritics. */
  function Words(fulltextTokens: seq<Token>, env: Env): (r: seq<string>)
    ensures |r| == |fulltextTokens|
  {
    seq(|fulltextTokens|, k requires 0 <= k < |fulltextTokens| => env.removeDiacritic(Shown(Text(fulltextTokens[k]))))
  }

  /**
   * The expression of `getFulltext` for the searched words: none for no
   * words; otherwise the words are looked for in title and content, or
   * only in the flat text under fast search. It is never an `AndExp`.
   */
  function FulltextOf(words: seq<string>, fastSearch: bool): (r: Option<Exp>)
    ensures r.None? <==> |words| == 0
    ensures |words| > 0 && !fastSearch ==>
              r == Some(OrExp([NoteFlatTextExp(words), NoteContentFulltextExp("*=*", words, false, true)]))
    ensures |words| > 0 && fastSearch ==> r == Some(NoteFlatTextExp(words))
    ensures r.Some? ==> !r.value.AndExp?
  {
    if |words| == 0 then None
    else if !fastSearch then Some(OrExp([NoteFlatTextExp(words), NoteContentFulltextExp("*=*", words, false, true)]))
    else Some(NoteFlatTextExp(words))
  }

  /** `getFulltext`: the searched words are highlighted, and their expression returned. */
  method GetFulltext(fulltextTokens: seq<Token>, ctx: SearchContext, env: Env) returns (r: Option<Exp>)
    modifies ctx`highlightedTokens
    ensures ctx.highlightedTokens == old(ctx.highlightedTokens) + Words(fulltextTokens, env)
    ensures r == FulltextOf(Words(fulltextTokens, env), ctx.fastSearch)
  {
    var tokens := Words(fulltextTokens, env);
    ctx.Highlight(tokens);
    if |tokens| == 0 {
      return None;
    }
    if !ctx.fastSearch {
      return Some(OrExp([NoteFlatTextExp(tokens), NoteContentFulltextExp("*=*", tokens, false, true)]));
    }
    return Some(NoteFlatTextExp(tokens));
  }

  /** What `parse` keeps of `getExpression`'s outcome: an exception becomes `TrueExp`. */
  function Parsed(r: Outcome<Option<Exp>>): Option<Exp>
  {
    if r.Thrown? then Some(TrueExp) else r.value
  }

  /** The top-level parse of the expression tokens, as written: `getExpression(tokens, searchContext)` at level 0. */
  function TopLevel(expressionTokens: seq<Token>, env: Env, ctx: SearchContext, d: Diag): (Outcome<Option<Exp>>, LevelState)
    reads ctx
  {
    ExpressionOf(Input(expressionTokens, env, ctx.originalQuery, ctx.fuzzyAttributeSearch, AsWritten), 0, d)
  }

  /**
   * The expression tokens parsed at the top level; an exception is turned
   * into a recorded error and `TrueExp`.
   */
  method ParseExpressionTokens(expressionTokens: seq<Token>, ctx: SearchContext, env: Env)
    returns (expression: Option<Exp>, failed: bool)
    modifies ctx`error, ctx`highlightedTokens
    ensures var g := TopLevel(expressionTokens, env, ctx, old(DiagOf(ctx)));
            expression == Parsed(g.0) && failed == g.0.Thrown?
            && ctx.highlightedTokens == g.1.d.highlighted
            && ctx.error == (if g.0.Thrown? then RecordError(g.1.d.error, g.0.message) else g.1.d.error)
    ensures ErrorKept(old(ctx.error), ctx.error)
    ensures failed ==> expression == Some(TrueExp) && ctx.HasError()
    ensures |expressionTokens| == 0 ==> !failed && expression == None
  {
    var parser := new ExpressionParser(expressionTokens, ctx, env, 0, AsWritten, ctx.originalQuery, ctx.fuzzyAttributeSearch);
    var r := parser.GetExpression();
    if r.Thrown? {
      ctx.AddError(r.message);
      return Some(TrueExp), true;
    }
    return r.value, false;
  }

  /** The conjuncts of a filter: the parts of an `AndExp`, or the expression itself. */
  function Conjuncts(e: Exp): seq<Exp>
  {
    if e.AndExp? then e.subs else [e]
  }

  /** Every part present in `AndExp.of`, other than an `AndExp`, is a conjunct of the result. */
  lemma AndOfConjuncts(parts: seq<Option<Exp>>, e: Exp)
    requires Some(e) in parts && !e.AndExp?
    ensures e in Conjuncts(AndOf(parts))
  {
    var live := Present(parts);
    assert e in live;
  }

  /** Where no part is an `AndExp`, every conjunct of `AndExp.of` is a part, or `TrueExp` for none. */
  lemma ConjunctsOfAndOf(parts: seq<Option<Exp>>, e: Exp)
    requires forall k | 0 <= k < |parts| :: parts[k].None? || !parts[k].value.AndExp?
    requires e in Conjuncts(AndOf(parts))
    ensures Some(e) in parts || (e == TrueExp && forall k | 0 <= k < |parts| :: parts[k].None?)
  {
    var live := Present(parts);
    if |live| == 1 {
      assert Some(live[0]) in parts;
      var k :| 0 <= k < |parts| && parts[k] == Some(live[0]);
      assert !live[0].AndExp?;
    } else if |live| > 1 {
      assert e in live;
    }
  }

  /** The parts `parse` combines by `AndExp.of` into `filter`, in order. */
  function FilterParts(includeArchivedNotes: bool, ancestor: Option<Exp>, fulltext: Option<Exp>, expression: Option<Exp>)
    : seq<Option<Exp>>
  {
    [if includeArchivedNotes then None else Some(ARCHIVED_FILTER), ancestor, fulltext, expression]
  }

  /**
   * What `filter` requires: the archived filter unless archived notes are
   * included, and each of the other parts present that is not itself an
   * `AndExp`; where none is, nothing else is required.
   */
  lemma FilterConjuncts(includeArchivedNotes: bool, ancestor: Option<Exp>, fulltext: Option<Exp>, expression: Option<Exp>)
    ensures var f := AndOf(FilterParts(includeArchivedNotes, ancestor, fulltext, expression));
            (!includeArchivedNotes ==> ARCHIVED_FILTER in Conjuncts(f))
            && (ancestor.Some? && !ancestor.value.AndExp? ==> ancestor.value in Conjuncts(f))
            && (fulltext.Some? && !fulltext.value.AndExp? ==> fulltext.value in Conjuncts(f))
            && (expression.Some? && !expression.value.AndExp? ==> expression.value in Conjuncts(f))
    ensures var parts := FilterParts(includeArchivedNotes, ancestor, fulltext, expression);
            (forall k | 0 <= k < |parts| :: parts[k].None? || !parts[k].value.AndExp?) ==>
              forall e | e in Conjuncts(AndOf(parts)) :: Some(e) in parts || e == TrueExp
  {
    var parts := FilterParts(includeArchivedNotes, ancestor, fulltext, expression);
    if !includeArchivedNotes {
      AndOfConjuncts(parts, ARCHIVED_FILTER);
    }
    if ancestor.Some? && !ancestor.value.AndExp? {
      AndOfConjuncts(parts, ancestor.value);
    }
    if fulltext.Some? && !fulltext.value.AndExp? {
      AndOfConjuncts(parts, fulltext.value);
    }
    if expression.Some? && !expression.value.AndExp? {
      AndOfConjuncts(parts, expression.value);
    }
    if forall k | 0 <= k < |parts| :: parts[k].None? || !parts[k].value.AndExp? {
      forall e | e in Conjuncts(AndOf(parts))
        ensures Some(e) in parts || e == TrueExp
      {
        ConjunctsOfAndOf(parts, e);
      }
    }
  }

  /**
   * `parse`: the archived filter (unless archived notes are included), the
   * ancestor restriction, the full-text part and the parsed expression,
   * combined by `AndExp.of` into `filter`; the result orders `filter` by
   * `orderBy` (other than `relevancy`) when one is given.
   */
  method ParseQuery(fulltextTokens: seq<Token>, expressionTokens: seq<Token>, ctx: SearchContext, env: Env)
    returns (exp: Exp, filter: Exp)
    modifies ctx`error, ctx`highlightedTokens
    ensures ErrorKept(old(ctx.error), ctx.error)
    ensures filter == AndOf(FilterParts(ctx.includeArchivedNotes,
                                        GetAncestorExp(ctx.ancestorNoteId, ctx.ancestorDepth, ctx.includeHiddenNotes),
                                        FulltextOf(Words(fulltextTokens, env), ctx.fastSearch),
                                        Parsed(TopLevel(expressionTokens, env, ctx, old(DiagOf(ctx))).0)))
    ensures Truthy(ctx.orderBy) && ctx.orderBy.value != "relevancy" ==>
              exp == OrderByAndLimitExp([OrderDefinition(["note", ctx.orderBy.value], ctx.orderDirection)],
                                        if ctx.limit.Some? && ctx.limit.value != 0 then LimitOf(ctx.limit.value) else NoLimit,
                                        Some(filter))
    ensures !(Truthy(ctx.orderBy) && ctx.orderBy.value != "relevancy") ==> exp == filter
  {
    var expression, failed := ParseExpressionTokens(expressionTokens, ctx, env);
    var ancestor := GetAncestorExp(ctx.ancestorNoteId, ctx.ancestorDepth, ctx.includeHiddenNotes);
    var fulltext := GetFulltext(fulltextTokens, ctx, env);
    filter := AndOf(FilterParts(ctx.includeArchivedNotes, ancestor, fulltext, expression));
    exp := filter;
    if Truthy(ctx.orderBy) && ctx.orderBy.value != "relevancy" {
      var limit := if ctx.limit.Some? && ctx.limit.value != 0 then LimitOf(ctx.limit.value) else NoLimit;
      exp := OrderByAndLimitExp([OrderDefinition(["note", ctx.orderBy.value], ctx.orderDirection)], limit, Some(filter));
    }
  }
}
