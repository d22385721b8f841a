/**
 * The search query's token structure and `handleParens`, which groups the
 * tokens between each matching pair of parentheses into one nested group.
 *
 * The grouping is proved against two views of a token list: `Depth`, the
 * nesting depth left open after reading the list left to right (a `)` with
 * nothing open is ignored), which decides whether grouping succeeds; and
 * `Texts`, the token texts with every group written back out between `(`
 * and `)`, which grouping leaves unchanged.
 */
module HandleParens {
  import opened Common

  /**
   * A lexer token (`TokenData`) or a parenthesised group of tokens.
   * `startIndex`/`endIndex` locate the token in the query; 0 stands for
   * "not set", as the parser only ever tests them for truthiness.
   */
  datatype Token =
    | Tok(token: string, inQuotes: bool, startIndex: int, endIndex: int)
    | Group(items: seq<Token>)

  const UNMATCHED_LEFT_PAREN := "Did not find matching right parenthesis."

  predicate IsOpen(t: Token) { t.Tok? && t.token == "(" }

  predicate IsClose(t: Token) { t.Tok? && t.token == ")" }

  /** What a token adds to the nesting: +1 for `(`, -1 for `)`, nothing otherwise. */
  function Delta(t: Token): int
  {
    if IsOpen(t) then 1 else if IsClose(t) then -1 else 0
  }

  /** The opening minus the closing parenthesis tokens of the list (groups count zero). */
  function Net(ts: seq<Token>): int
  {
    if |ts| == 0 then 0 else Net(ts[..|ts| - 1]) + Delta(ts[|ts| - 1])
  }

  /** The depth after one more token, ignoring a `)` when nothing is open. */
  function DepthStep(d: nat, t: Token): nat
  {
    if IsOpen(t) then d + 1 else if IsClose(t) && d > 0 then d - 1 else d
  }

  /** The depth left open after reading `ts` from depth `d`. */
  function DepthFrom(d: nat, ts: seq<Token>): nat
  {
    if |ts| == 0 then d else DepthStep(DepthFrom(d, ts[..|ts| - 1]), ts[|ts| - 1])
  }

  /** The depth left open by `ts`: zero exactly when every `(` has a matching `)`. */
  function Depth(ts: seq<Token>): nat
  {
    DepthFrom(0, ts)
  }

  /** The number of top-level `(` tokens. */
  function CountOpen(ts: seq<Token>): nat
  {
    if |ts| == 0 then 0 else CountOpen(ts[..|ts| - 1]) + (if IsOpen(ts[|ts| - 1]) then 1 else 0)
  }

  /** The token texts, every group written out between `(` and `)`. */
  function Texts(ts: seq<Token>): seq<string>
    decreases ts
  {
    if |ts| == 0 then [] else TextsOf(ts[0]) + Texts(ts[1..])
  }

  function TextsOf(t: Token): seq<string>
    decreases t
  {
    match t
    case Tok(s, _, _, _) => [s]
    case Group(items) => ["("] + Texts(items) + [")"]
  }

  /** No `(` token is left at any nesting level. */
  predicate Grouped(ts: seq<Token>)
    decreases ts
  {
    forall k | 0 <= k < |ts| :: !IsOpen(ts[k]) && (ts[k].Group? ==> Grouped(ts[k].items))
  }

  /** `findIndex` for the first top-level `(` token, or -1. */
  function FirstOpen(ts: seq<Token>): (r: int)
    ensures -1 <= r < |ts|
    ensures r == -1 <==> forall k | 0 <= k < |ts| :: !IsOpen(ts[k])
    ensures r >= 0 ==> IsOpen(ts[r]) && forall k | 0 <= k < r :: !IsOpen(ts[k])
  {
    if |ts| == 0 then -1
    else if IsOpen(ts[0]) then 0
    else
      var r := FirstOpen(ts[1..]);
      assert forall k | 1 <= k < |ts| :: ts[k] == ts[1..][k - 1];
      if r == -1 then -1 else r + 1
  }

  // ---------------------------------------------------------------------
  // Facts about the views
  // ---------------------------------------------------------------------

  lemma {:induction false} NetConcat(a: seq<Token>, b: seq<Token>)
    ensures Net(a + b) == Net(a) + Net(b)
    decreases |b|
  {
    if |b| > 0 {
      assert (a + b)[..|a + b| - 1] == a + b[..|b| - 1];
      NetConcat(a, b[..|b| - 1]);
    } else {
      assert a + b == a;
    }
  }

  lemma {:induction false} DepthConcat(d: nat, a: seq<Token>, b: seq<Token>)
    ensures DepthFrom(d, a + b) == DepthFrom(DepthFrom(d, a), b)
    decreases |b|
  {
    if |b| > 0 {
      assert (a + b)[..|a + b| - 1] == a + b[..|b| - 1];
      DepthConcat(d, a, b[..|b| - 1]);
    } else {
      assert a + b == a;
    }
  }

  lemma {:induction false} CountOpenConcat(a: seq<Token>, b: seq<Token>)
    ensures CountOpen(a + b) == CountOpen(a) + CountOpen(b)
    decreases |b|
  {
    if |b| > 0 {
      assert (a + b)[..|a + b| - 1] == a + b[..|b| - 1];
      CountOpenConcat(a, b[..|b| - 1]);
    } else {
      assert a + b == a;
    }
  }

  lemma {:induction false} TextsConcat(a: seq<Token>, b: seq<Token>)
    ensures Texts(a + b) == Texts(a) + Texts(b)
    decreases |a|
  {
    if |a| > 0 {
      assert (a + b)[0] == a[0] && (a + b)[1..] == a[1..] + b;
      TextsConcat(a[1..], b);
    } else {
      assert a + b == b;
    }
  }

  /** While the unclamped count never drops below zero, the depth is that count. */
  lemma {:induction false} DepthUnclamped(d: nat, ts: seq<Token>)
    requires forall k | 0 <= k <= |ts| :: d + Net(ts[..k]) >= 0
    ensures DepthFrom(d, ts) == d + Net(ts)
    decreases |ts|
  {
    if |ts| > 0 {
      var init := ts[..|ts| - 1];
      forall k | 0 <= k <= |init| ensures d + Net(init[..k]) >= 0 {
        assert init[..k] == ts[..k];
      }
      DepthUnclamped(d, init);
      assert ts[..|ts|] == ts;
    }
  }

  /** A list with no top-level `(` leaves nothing open. */
  lemma {:induction false} DepthWithoutOpen(ts: seq<Token>)
    requires forall k | 0 <= k < |ts| :: !IsOpen(ts[k])
    ensures Depth(ts) == 0 && CountOpen(ts) == 0
    decreases |ts|
  {
    if |ts| > 0 {
      DepthWithoutOpen(ts[..|ts| - 1]);
    }
  }

  lemma OneToken(t: Token)
    ensures Net([t]) == Delta(t) && CountOpen([t]) == (if IsOpen(t) then 1 else 0)
    ensures DepthFrom(0, [t]) == DepthStep(0, t) && Texts([t]) == TextsOf(t)
  {
    assert [t][..0] == [];
  }

  /** A top-level `(` that the scan never closes leaves the list unbalanced. */
  lemma UnmatchedOpen(ts: seq<Token>, leftIdx: nat)
    requires leftIdx < |ts| && forall k | 0 <= k < leftIdx :: !IsOpen(ts[k])
    requires forall k | leftIdx < k <= |ts| :: Net(ts[leftIdx..k]) >= 1
    ensures Depth(ts) != 0
  {
    var prefix, rest := ts[..leftIdx], ts[leftIdx..];
    assert ts == prefix + rest;
    DepthWithoutOpen(prefix);
    DepthConcat(0, prefix, rest);
    assert Depth(ts) == DepthFrom(0, rest);
    forall k | 0 <= k <= |rest| ensures 0 + Net(rest[..k]) >= 0 {
      assert rest[..k] == ts[leftIdx..leftIdx + k];
    }
    DepthUnclamped(0, rest);
    assert rest[..|rest|] == rest == ts[leftIdx..|ts|];
    assert Net(ts[leftIdx..|ts|]) >= 1;
  }

  /** The tokens strictly between a `(` and the `)` that first brings the scan back to zero are balanced. */
  lemma MatchedInner(ts: seq<Token>, leftIdx: nat, rightIdx: nat)
    requires leftIdx < rightIdx < |ts| && IsOpen(ts[leftIdx]) && IsClose(ts[rightIdx])
    requires forall k | leftIdx < k <= rightIdx :: Net(ts[leftIdx..k]) >= 1
    requires Net(ts[leftIdx..rightIdx + 1]) == 0
    ensures Depth(ts[leftIdx + 1..rightIdx]) == 0
  {
    var inner := ts[leftIdx + 1..rightIdx];
    OneToken(ts[leftIdx]);
    forall k | 0 <= k <= |inner| ensures 0 + Net(inner[..k]) >= 0 {
      assert ts[leftIdx..leftIdx + 1 + k] == [ts[leftIdx]] + inner[..k];
      NetConcat([ts[leftIdx]], inner[..k]);
    }
    DepthUnclamped(0, inner);
    assert inner[..|inner|] == inner;
    assert ts[leftIdx..rightIdx + 1] == ([ts[leftIdx]] + inner) + [ts[rightIdx]];
    NetConcat([ts[leftIdx]] + inner, [ts[rightIdx]]);
    NetConcat([ts[leftIdx]], inner);
    OneToken(ts[rightIdx]);
  }

  /** The whole matched segment, from `(` to its `)`, is balanced. */
  lemma MatchedSegment(ts: seq<Token>, leftIdx: nat, rightIdx: nat)
    requires leftIdx < rightIdx < |ts|
    requires forall k | leftIdx < k <= rightIdx :: Net(ts[leftIdx..k]) >= 1
    requires Net(ts[leftIdx..rightIdx + 1]) == 0
    ensures Depth(ts[leftIdx..rightIdx + 1]) == 0
  {
    var seg := ts[leftIdx..rightIdx + 1];
    forall k | 0 <= k <= |seg| ensures 0 + Net(seg[..k]) >= 0 {
      assert seg[..k] == ts[leftIdx..leftIdx + k];
    }
    DepthUnclamped(0, seg);
    assert seg[..|seg|] == seg;
  }

  /** Replacing a balanced segment by a group keeps the depth. */
  lemma ReplaceKeepsDepth(prefix: seq<Token>, seg: seq<Token>, suffix: seq<Token>, g: Token)
    requires forall k | 0 <= k < |prefix| :: !IsOpen(prefix[k])
    requires Depth(seg) == 0 && g.Group?
    ensures Depth(prefix + [g] + suffix) == Depth(prefix + seg + suffix)
  {
    DepthWithoutOpen(prefix);
    DepthConcat(0, prefix + seg, suffix);
    DepthConcat(0, prefix, seg);
    DepthConcat(0, prefix + [g], suffix);
    DepthConcat(0, prefix, [g]);
    OneToken(g);
  }

  /** Replacing `(` inner `)` by a group with the same texts inside keeps the texts. */
  lemma ReplaceKeepsTexts(prefix: seq<Token>, open: Token, inner: seq<Token>, close: Token, suffix: seq<Token>, g: Token)
    requires IsOpen(open) && IsClose(close) && g.Group? && Texts(g.items) == Texts(inner)
    ensures Texts(prefix + [g] + suffix) == Texts(prefix + ([open] + inner + [close]) + suffix)
  {
    var seg := [open] + inner + [close];
    TextsConcat([open] + inner, [close]);
    TextsConcat([open], inner);
    OneToken(open);
    OneToken(close);
    TextsConcat(prefix + seg, suffix);
    TextsConcat(prefix, seg);
    TextsConcat(prefix + [g], suffix);
    TextsConcat(prefix, [g]);
    OneToken(g);
  }

  /** Replacing a segment that starts with `(` by a group removes a top-level `(`. */
  lemma ReplaceDropsOpen(prefix: seq<Token>, seg: seq<Token>, suffix: seq<Token>, g: Token)
    requires |seg| > 0 && IsOpen(seg[0]) && g.Group?
    ensures CountOpen(prefix + [g] + suffix) < CountOpen(prefix + seg + suffix)
  {
    CountOpenConcat(prefix + seg, suffix);
    CountOpenConcat(prefix, seg);
    CountOpenConcat(prefix + [g], suffix);
    CountOpenConcat(prefix, [g]);
    assert seg == [seg[0]] + seg[1..];
    CountOpenConcat([seg[0]], seg[1..]);
    OneToken(seg[0]);
    OneToken(g);
  }

  /** Every group of the list has no `(` left inside it. */
  predicate GroupsGrouped(ts: seq<Token>)
  {
    forall k | 0 <= k < |ts| && ts[k].Group? :: Grouped(ts[k].items)
  }

  // ---------------------------------------------------------------------
  // handleParens
  // ---------------------------------------------------------------------

  /**
   * The `for` loop of `handleParens`: scans from the `(` at `leftIdx`,
   * counting `(` up and `)` down, and stops at the `)` that brings the count
   * back to zero; `|ts|` when there is none.
   */
  lemma NetStep(ts: seq<Token>, i: nat, j: nat)
    requires i <= j < |ts|
    ensures Net(ts[i..j + 1]) == Net(ts[i..j]) + Delta(ts[j])
  {
    assert ts[i..j + 1][..j - i] == ts[i..j];
  }

  method MatchingRight(ts: seq<Token>, leftIdx: nat) returns (rightIdx: nat)
    requires leftIdx < |ts| && IsOpen(ts[leftIdx])
    ensures leftIdx < rightIdx <= |ts|
    ensures forall k | leftIdx < k <= rightIdx :: Net(ts[leftIdx..k]) >= 1
    ensures rightIdx < |ts| ==> IsClose(ts[rightIdx]) && Net(ts[leftIdx..rightIdx + 1]) == 0
  {
    rightIdx := leftIdx;
    var parensLevel := 0;
    while rightIdx < |ts|
      invariant leftIdx <= rightIdx <= |ts|
      invariant parensLevel == Net(ts[leftIdx..rightIdx])
      invariant forall k | leftIdx < k <= rightIdx :: Net(ts[leftIdx..k]) >= 1
    {
      var token := ts[rightIdx];
      NetStep(ts, leftIdx, rightIdx);
      if token.Tok? {
        if token.token == ")" {
          parensLevel := parensLevel - 1;
          if parensLevel == 0 {
            return;
          }
        } else if token.token == "(" {
          parensLevel := parensLevel + 1;
        }
      }
      rightIdx := rightIdx + 1;
    }
  }

  /** Replacing a segment by a group whose items have no `(` left keeps every group grouped. */
  lemma ReplaceKeepsGrouped(prefix: seq<Token>, seg: seq<Token>, suffix: seq<Token>, g: Token)
    requires GroupsGrouped(prefix + seg + suffix) && g.Group? && Grouped(g.items)
    ensures GroupsGrouped(prefix + [g] + suffix)
  {
    var ts, ts' := prefix + seg + suffix, prefix + [g] + suffix;
    forall k | 0 <= k < |ts'| && ts'[k].Group? ensures Grouped(ts'[k].items) {
      if k < |prefix| {
        assert ts'[k] == ts[k];
      } else if k > |prefix| {
        assert ts'[k] == ts[k - 1 + |seg|];
      }
    }
  }

  lemma SliceGroupsGrouped(ts: seq<Token>, i: nat, j: nat)
    requires i <= j <= |ts| && GroupsGrouped(ts)
    ensures GroupsGrouped(ts[i..j])
  {
    forall k | 0 <= k < j - i && ts[i..j][k].Group? ensures Grouped(ts[i..j][k].items) {
      assert ts[i..j][k] == ts[i + k];
    }
  }

  /** One round of the `while` loop: the list after the replacement keeps both views. */
  lemma ReplaceStep(ts: seq<Token>, leftIdx: nat, rightIdx: nat, g: Token)
    requires leftIdx < rightIdx < |ts| && IsOpen(ts[leftIdx]) && IsClose(ts[rightIdx]) && g.Group?
    requires forall k | 0 <= k < leftIdx :: !IsOpen(ts[k])
    requires Depth(ts[leftIdx..rightIdx + 1]) == 0
    requires Texts(g.items) == Texts(ts[leftIdx + 1..rightIdx])
    requires GroupsGrouped(ts) ==> Grouped(g.items)
    ensures var ts' := ts[..leftIdx] + [g] + ts[rightIdx + 1..];
            Depth(ts') == Depth(ts) && Texts(ts') == Texts(ts) && CountOpen(ts') < CountOpen(ts)
            && |ts'| < |ts| && (GroupsGrouped(ts) ==> GroupsGrouped(ts'))
  {
    var prefix, seg, suffix := ts[..leftIdx], ts[leftIdx..rightIdx + 1], ts[rightIdx + 1..];
    SplitAround(ts, leftIdx, rightIdx);
    ReplaceKeepsDepth(prefix, seg, suffix, g);
    ReplaceKeepsTexts(prefix, ts[leftIdx], ts[leftIdx + 1..rightIdx], ts[rightIdx], suffix, g);
    ReplaceDropsOpen(prefix, seg, suffix, g);
    if GroupsGrouped(ts) {
      ReplaceKeepsGrouped(prefix, seg, suffix, g);
    }
  }

  /**
   * `handleParens`: repeatedly replaces the first top-level `(`, its
   * matching `)` and everything between by one group of the recursively
   * grouped inner tokens. It fails exactly when some `(` is never closed;
   * a `)` with nothing open is kept as an ordinary token.
   */
  method HandleParens(tokens: seq<Token>) returns (r: Result<seq<Token>, string>)
    ensures r.Ok? <==> Depth(tokens) == 0
    ensures r.Err? ==> r.error == UNMATCHED_LEFT_PAREN
    ensures r.Ok? ==> Texts(r.value) == Texts(tokens)
    ensures r.Ok? && GroupsGrouped(tokens) ==> Grouped(r.value)
    ensures FirstOpen(tokens) == -1 ==> r == Ok(tokens)
    decreases |tokens|
  {
    if |tokens| == 0 {
      return Ok([]);
    }
    var ts := tokens;
    while true
      invariant |ts| <= |tokens|
      invariant Depth(ts) == Depth(tokens) && Texts(ts) == Texts(tokens)
      invariant GroupsGrouped(tokens) ==> GroupsGrouped(ts)
      invariant FirstOpen(tokens) == -1 ==> ts == tokens
      decreases CountOpen(ts)
    {
      var leftIdx := FirstOpen(ts);
      if leftIdx == -1 {
        DepthWithoutOpen(ts);
        return Ok(ts);
      }
      var rightIdx := MatchingRight(ts, leftIdx);
      if rightIdx >= |ts| {
        UnmatchedOpen(ts, leftIdx);
        return Err(UNMATCHED_LEFT_PAREN);
      }
      MatchedInner(ts, leftIdx, rightIdx);
      MatchedSegment(ts, leftIdx, rightIdx);
      if GroupsGrouped(ts) {
        SliceGroupsGrouped(ts, leftIdx + 1, rightIdx);
      }
      var inner := HandleParens(ts[leftIdx + 1..rightIdx]);
      var g := Group(inner.value);
      ReplaceStep(ts, leftIdx, rightIdx, g);
      ts := ts[..leftIdx] + [g] + ts[rightIdx + 1..];
    }
  }
}
