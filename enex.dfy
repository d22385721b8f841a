/**
 * Evernote (ENEX) import: converting ENEX dates to Trilium's format,
 * extracting a note's HTML from its `<en-note>` wrapper with the list and
 * to-do rewrites applied, and the checks and date fallbacks of `saveNote`.
 * The HTML sanitiser is a parameter.
 */
module Enex {
  import opened Common

  // ---------------------------------------------------------------------
  // parseDate
  // ---------------------------------------------------------------------

  /** A character `text.replace(/[-:]/g, "")` keeps. */
  predicate KeptChar(c: char)
  {
    c != '-' && c != ':'
  }

  /** `text.replace(/[-:]/g, "")`. */
  function StripSeparators(s: string): (r: string)
    ensures |r| <= |s|
    ensures '-' !in r && ':' !in r
    ensures forall c :: c in r <==> c in s && KeptChar(c)
  {
    Filter(s, KeptChar)
  }

  /** `parseDate`: separators removed, then laid out as `YYYY-MM-DD HH:mm:ss.000Z`. */
  function ParseDate(text: string): (r: string)
    ensures EndsWith(r, ".000Z")
  {
    var t := StripSeparators(text);
    var r := Substr(t, 0, 4) + "-" + Substr(t, 4, 2) + "-" + Substr(t, 6, 2)
             + " " + Substr(t, 9, 2) + ":" + Substr(t, 11, 2) + ":" + Substr(t, 13, 2) + ".000Z";
    assert r[|r| - 5..] == ".000Z";
    r
  }

  lemma StripKept(s: string)
    requires forall k | 0 <= k < |s| :: KeptChar(s[k])
    ensures StripSeparators(s) == s
  {
    FilterAll(s, KeptChar);
  }

  lemma StripConcat(a: string, b: string)
    ensures StripSeparators(a + b) == StripSeparators(a) + StripSeparators(b)
  {
    FilterConcat(a, b, KeptChar);
  }

  /** Every character of a digit string is kept. */
  lemma DigitsKept(s: string)
    requires AllDigits(s)
    ensures StripSeparators(s) == s
  {
    StripKept(s);
  }

  /** Removing one separator between two parts. */
  lemma StripSeparator(a: string, sep: char, b: string)
    requires !KeptChar(sep)
    ensures StripSeparators(a + [sep] + b) == StripSeparators(a) + StripSeparators(b)
  {
    StripConcat(a + [sep], b);
    StripConcat(a, [sep]);
  }

  /** The compact date `YYYYMMDD` and its ISO form `YYYY-MM-DD` strip to the same digits. */
  lemma StripIsoDate(y: string, mo: string, d: string)
    requires AllDigits(y) && AllDigits(mo) && AllDigits(d)
    ensures StripSeparators(y + "-" + mo + "-" + d) == y + mo + d
  {
    DigitsKept(y);
    DigitsKept(mo);
    DigitsKept(d);
    var ym := y + "-" + mo;
    StripSeparator(y, '-', mo);
    assert ym == y + ['-'] + mo;
    StripSeparator(ym, '-', d);
    assert y + "-" + mo + "-" + d == ym + ['-'] + d;
  }

  /** The ISO time `Thh:mm:ss` strips to `Thhmmss`. */
  lemma StripIsoTime(h: string, mi: string, se: string)
    requires AllDigits(h) && AllDigits(mi) && AllDigits(se)
    ensures StripSeparators("T" + h + ":" + mi + ":" + se) == "T" + h + mi + se
  {
    var th := "T" + h;
    StripKept(th);
    DigitsKept(mi);
    DigitsKept(se);
    var thm := th + ":" + mi;
    StripSeparator(th, ':', mi);
    assert thm == th + [':'] + mi;
    StripSeparator(thm, ':', se);
    assert "T" + h + ":" + mi + ":" + se == thm + [':'] + se;
  }

  /** The fields `parseDate` picks from a stripped date all lie in its first 15 characters. */
  lemma LayoutOfCompact(y: string, mo: string, d: string, h: string, mi: string, se: string, rest: string)
    requires |y| == 4 && |mo| == 2 && |d| == 2 && |h| == 2 && |mi| == 2 && |se| == 2
    ensures var t := y + mo + d + "T" + h + mi + se + rest;
            Substr(t, 0, 4) == y && Substr(t, 4, 2) == mo && Substr(t, 6, 2) == d
            && Substr(t, 9, 2) == h && Substr(t, 11, 2) == mi && Substr(t, 13, 2) == se
  {
    var t := y + mo + d + "T" + h + mi + se + rest;
    assert t[0..4] == y;
    assert t[4..6] == mo;
    assert t[6..8] == d;
    assert t[9..11] == h;
    assert t[11..13] == mi;
    assert t[13..15] == se;
  }

  /** Trilium's date format: `YYYY-MM-DD HH:mm:ss.000Z`. */
  function TriliumDate(y: string, mo: string, d: string, h: string, mi: string, se: string): string
  {
    y + "-" + mo + "-" + d + " " + h + ":" + mi + ":" + se + ".000Z"
  }

  /** A text that strips to the compact layout parses to the Trilium date of its fields. */
  lemma ParseDateOfStripped(text: string, y: string, mo: string, d: string, h: string, mi: string, se: string, rest: string)
    requires |y| == 4 && |mo| == 2 && |d| == 2 && |h| == 2 && |mi| == 2 && |se| == 2
    requires StripSeparators(text) == y + mo + d + "T" + h + mi + se + rest
    ensures ParseDate(text) == TriliumDate(y, mo, d, h, mi, se)
  {
    LayoutOfCompact(y, mo, d, h, mi, se, rest);
  }

  /** The ISO form strips to the compact one, milliseconds kept at the end. */
  lemma StripIso(y: string, mo: string, d: string, h: string, mi: string, se: string, ms: string)
    requires AllDigits(y) && AllDigits(mo) && AllDigits(d) && AllDigits(h) && AllDigits(mi) && AllDigits(se) && AllDigits(ms)
    ensures StripSeparators(y + "-" + mo + "-" + d + "T" + h + ":" + mi + ":" + se + "." + ms + "Z")
            == y + mo + d + "T" + h + mi + se + ("." + ms + "Z")
  {
    var date := y + "-" + mo + "-" + d;
    var time := "T" + h + ":" + mi + ":" + se;
    var tail := "." + ms + "Z";
    IsoParts(y, mo, d, h, mi, se, ms);
    assert StripSeparators(date + time) == (y + mo + d) + ("T" + h + mi + se) by {
      StripIsoDate(y, mo, d);
      StripIsoTime(h, mi, se);
      StripConcat(date, time);
    }
    assert StripSeparators(date + time + tail) == StripSeparators(date + time) + tail by {
      StripKept(tail);
      StripConcat(date + time, tail);
    }
  }

  /** How the ISO text and its stripped form split into date, time and tail. */
  lemma IsoParts(y: string, mo: string, d: string, h: string, mi: string, se: string, ms: string)
    ensures y + "-" + mo + "-" + d + "T" + h + ":" + mi + ":" + se + "." + ms + "Z"
            == (y + "-" + mo + "-" + d) + ("T" + h + ":" + mi + ":" + se) + ("." + ms + "Z")
    ensures (y + mo + d) + ("T" + h + mi + se) + ("." + ms + "Z") == y + mo + d + "T" + h + mi + se + ("." + ms + "Z")
  {
  }

  /**
   * Both ENEX date forms are accepted: the compact `20181121T193703Z` and
   * the ISO `2013-04-14T16:19:00.000Z` of the Mac client give the same
   * Trilium date, with the milliseconds dropped.
   */
  lemma ParseDateForms(y: string, mo: string, d: string, h: string, mi: string, se: string, ms: string)
    requires |y| == 4 && |mo| == 2 && |d| == 2 && |h| == 2 && |mi| == 2 && |se| == 2 && |ms| == 3
    requires AllDigits(y) && AllDigits(mo) && AllDigits(d) && AllDigits(h) && AllDigits(mi) && AllDigits(se) && AllDigits(ms)
    ensures ParseDate(y + mo + d + "T" + h + mi + se + "Z") == TriliumDate(y, mo, d, h, mi, se)
    ensures ParseDate(y + "-" + mo + "-" + d + "T" + h + ":" + mi + ":" + se + "." + ms + "Z") == TriliumDate(y, mo, d, h, mi, se)
  {
    var compact := y + mo + d + "T" + h + mi + se + "Z";
    StripKept(compact);
    ParseDateOfStripped(compact, y, mo, d, h, mi, se, "Z");
    StripIso(y, mo, d, h, mi, se, ms);
    ParseDateOfStripped(y + "-" + mo + "-" + d + "T" + h + ":" + mi + ":" + se + "." + ms + "Z",
                        y, mo, d, h, mi, se, "." + ms + "Z");
  }

  // ---------------------------------------------------------------------
  // extractContent: the <en-note> wrapper
  // ---------------------------------------------------------------------

  const EN_NOTE_OPEN := "<en-note>"
  const EN_NOTE_CLOSE := "</en-note>"

  lemma OccursAtPrefix(s: string, p: string, k: int)
    requires |s| > 0 && k + |p| <= |s| - 1
    ensures OccursAt(s[..|s| - 1], p, k) <==> OccursAt(s, p, k)
  {
    if 0 <= k {
      assert s[..|s| - 1][k..k + |p|] == s[k..k + |p|];
    }
  }

  /** `s.lastIndexOf(p)`: the last occurrence, or -1. */
  function LastIndexOf(s: string, p: string): (r: int)
    ensures r == -1 || OccursAt(s, p, r)
    ensures r >= 0 ==> forall k :: r < k ==> !OccursAt(s, p, k)
    ensures r == -1 ==> forall k :: !OccursAt(s, p, k)
    decreases |s|
  {
    if |s| < |p| then -1
    else if s[|s| - |p|..] == p then |s| - |p|
    else
      var r := LastIndexOf(s[..|s| - 1], p);
      assert !OccursAt(s, p, |s| - |p|);
      forall k | k + |p| <= |s| - 1
        ensures OccursAt(s[..|s| - 1], p, k) <==> OccursAt(s, p, k)
      {
        OccursAtPrefix(s, p, k);
      }
      r
  }

  /**
   * The first three steps of `extractContent`: the text after the first
   * `<en-note>` (when there is one), then before the last `</en-note>`
   * (when there is one), trimmed.
   */
  function NoteBody(content: string): (r: string)
    ensures |r| <= |content|
  {
    var openingNoteIndex := IndexOf(content, EN_NOTE_OPEN);
    var afterOpening := if openingNoteIndex != -1 then SubstrFrom(content, openingNoteIndex + 9) else content;
    var closingNoteIndex := LastIndexOf(afterOpening, EN_NOTE_CLOSE);
    var inside := if closingNoteIndex != -1 then Substr(afterOpening, 0, closingNoteIndex) else afterOpening;
    Trim(inside)
  }

  /** The first `<en-note>` of a content with no tag before it. */
  lemma FirstOpening(prologue: string, rest: string)
    requires '<' !in prologue
    ensures IndexOf(prologue + EN_NOTE_OPEN + rest, EN_NOTE_OPEN) == |prologue|
  {
    var content := prologue + EN_NOTE_OPEN + rest;
    assert content[|prologue|..|prologue| + 9] == EN_NOTE_OPEN;
    assert OccursAt(content, EN_NOTE_OPEN, |prologue|);
    forall k | 0 <= k < |prologue|
      ensures !OccursAt(content, EN_NOTE_OPEN, k)
    {
      assert content[k] == prologue[k];
      assert prologue[k] in prologue;
    }
  }

  /** The last occurrence is the one with no occurrence after it. */
  lemma LastIndexOfIs(s: string, p: string, i: int)
    requires OccursAt(s, p, i)
    requires forall k :: i < k ==> !OccursAt(s, p, k)
    ensures LastIndexOf(s, p) == i
  {
    var r := LastIndexOf(s, p);
    assert r != -1;
  }

  /**
   * A pattern whose first character does not recur in it, followed by text
   * without that character, occurs last where it was placed.
   */
  lemma LastOccurrence(body: string, p: string, epilogue: string)
    requires |p| >= 1 && forall i | 1 <= i < |p| :: p[i] != p[0]
    requires p[0] !in epilogue
    ensures LastIndexOf(body + p + epilogue, p) == |body|
  {
    var rest := body + p + epilogue;
    assert rest[|body|..|body| + |p|] == p;
    forall k | |body| < k
      ensures !OccursAt(rest, p, k)
    {
      if k + |p| <= |rest| {
        if k < |body| + |p| {
          assert rest[k] == p[k - |body|];
        } else {
          assert rest[k] == epilogue[k - |body| - |p|];
        }
        assert rest[k..k + |p|][0] == rest[k] != p[0];
      }
    }
    LastIndexOfIs(rest, p, |body|);
  }

  /** `</en-note>` starts with the only `<` it contains. */
  lemma CloseTagShape()
    ensures EN_NOTE_CLOSE[0] == '<'
    ensures forall i | 1 <= i < |EN_NOTE_CLOSE| :: EN_NOTE_CLOSE[i] != EN_NOTE_CLOSE[0]
  {
  }

  lemma LastClosing(body: string, epilogue: string)
    requires '<' !in epilogue
    ensures LastIndexOf(body + EN_NOTE_CLOSE + epilogue, EN_NOTE_CLOSE) == |body|
  {
    CloseTagShape();
    LastOccurrence(body, EN_NOTE_CLOSE, epilogue);
  }

  /**
   * A note `<prologue><en-note>body</en-note><epilogue>` whose prologue and
   * epilogue hold no tag gives its trimmed body.
   */
  lemma NoteBodyOfWrapped(prologue: string, body: string, epilogue: string)
    requires '<' !in prologue && '<' !in epilogue
    ensures NoteBody(prologue + EN_NOTE_OPEN + body + EN_NOTE_CLOSE + epilogue) == Trim(body)
  {
    var rest := body + EN_NOTE_CLOSE + epilogue;
    var content := prologue + EN_NOTE_OPEN + rest;
    assert prologue + EN_NOTE_OPEN + body + EN_NOTE_CLOSE + epilogue == content;
    FirstOpening(prologue, rest);
    assert SubstrFrom(content, |prologue| + 9) == rest;
    LastClosing(body, epilogue);
    assert Substr(rest, 0, |body|) == body;
  }

  /** Without the wrapper tags, `extractContent` starts from the whole content, trimmed. */
  lemma NoteBodyUnwrapped(content: string)
    requires !Contains(content, EN_NOTE_OPEN) && !Contains(content, EN_NOTE_CLOSE)
    ensures NoteBody(content) == Trim(content)
  {
  }

  // ---------------------------------------------------------------------
  // extractContent: regular-expression rewrites
  // ---------------------------------------------------------------------

  /** The rewrites' regular expressions. */
  datatype Pattern =
    /** `open\s*close` */
    | Spaced(open: string, close: string)
    /** `<en-todo\s+checked="true"\s*\/>` */
    | TodoChecked
    /** `<en-todo(\s+checked="false")?\s*\/>` */
    | TodoUnchecked

  const EN_TODO := "<en-todo"
  const CHECKED_TRUE := "checked=\"true\""
  const CHECKED_FALSE := "checked=\"false\""
  const SELF_CLOSE := "/>"
  const BALLOT_BOX_WITH_CHECK := "\U{2611} "
  const BALLOT_BOX := "\U{2610} "

  /** The literal every match of the pattern starts with. */
  function Opening(p: Pattern): string
  {
    match p
    case Spaced(open, _) => open
    case _ => EN_TODO
  }

  /** The index after the white space starting at `i`. */
  function SkipSpaces(s: string, i: nat): (r: nat)
    requires i <= |s|
    ensures i <= r <= |s|
    ensures forall k | i <= k < r :: IsJsSpace(s[k])
    ensures r < |s| ==> !IsJsSpace(s[r])
    decreases |s| - i
  {
    if i < |s| && IsJsSpace(s[i]) then SkipSpaces(s, i + 1) else i
  }

  /** `s[i..]` starts with `lit`. */
  predicate LiteralAt(s: string, i: nat, lit: string)
  {
    i <= |s| && StartsWith(s[i..], lit)
  }

  /**
   * The length of the pattern's match at the start of `s`, 0 when it does
   * not match there. The white-space runs are followed by a non-space
   * literal, so the greedy match is the only one.
   */
  function MatchLength(p: Pattern, s: string): (r: nat)
    ensures r <= |s|
    ensures r > 0 ==> StartsWith(s, Opening(p))
  {
    match p
    case Spaced(open, close) =>
      if StartsWith(s, open) then
        var k := SkipSpaces(s, |open|);
        if LiteralAt(s, k, close) && k + |close| > 0 then k + |close| else 0
      else 0
    case TodoChecked =>
      if StartsWith(s, EN_TODO) then
        var k := SkipSpaces(s, 8);
        if k > 8 && LiteralAt(s, k, CHECKED_TRUE) then
          var m := SkipSpaces(s, k + 14);
          if LiteralAt(s, m, SELF_CLOSE) then m + 2 else 0
        else 0
      else 0
    case TodoUnchecked =>
      if StartsWith(s, EN_TODO) then
        var k := SkipSpaces(s, 8);
        if k > 8 && LiteralAt(s, k, CHECKED_FALSE) && LiteralAt(s, SkipSpaces(s, k + 15), SELF_CLOSE) then
          SkipSpaces(s, k + 15) + 2
        else if LiteralAt(s, k, SELF_CLOSE) then k + 2
        else 0
      else 0
  }

  /** `s.replace(pattern, rep)` with the `g` flag: each match, left to right, replaced. */
  function ReplaceMatches(s: string, p: Pattern, rep: string): string
    decreases |s|
  {
    if |s| == 0 then ""
    else
      var n := MatchLength(p, s);
      if n > 0 then rep + ReplaceMatches(s[n..], p, rep)
      else [s[0]] + ReplaceMatches(s[1..], p, rep)
  }

  /** Every pattern here opens with a tag. */
  predicate OpensWithTag(p: Pattern)
  {
    |Opening(p)| > 0 && Opening(p)[0] == '<'
  }

  /** Where the pattern does not match, the first character is kept. */
  lemma ReplaceNoMatch(s: string, p: Pattern, rep: string)
    requires |s| > 0 && MatchLength(p, s) == 0
    ensures ReplaceMatches(s, p, rep) == [s[0]] + ReplaceMatches(s[1..], p, rep)
  {
  }

  /** A tag pattern does not match text that does not start with `<`. */
  lemma NoMatchWithoutOpen(s: string, p: Pattern)
    requires OpensWithTag(p) && |s| > 0 && s[0] != '<'
    ensures MatchLength(p, s) == 0
  {
    if |Opening(p)| <= |s| {
      assert s[..|Opening(p)|][0] != Opening(p)[0];
    }
  }

  /** Splitting a concatenation after its first character. */
  lemma ConsOfConcat(a: string, b: string)
    requires |a| > 0
    ensures |a + b| > 0 && (a + b)[0] == a[0] && (a + b)[1..] == a[1..] + b
  {
  }

  /** Text before the first `<` passes through a rewrite unchanged. */
  lemma {:induction false} ReplaceSkipsText(text: string, rest: string, p: Pattern, rep: string)
    requires OpensWithTag(p) && '<' !in text
    ensures ReplaceMatches(text + rest, p, rep) == text + ReplaceMatches(rest, p, rep)
    decreases |text|
  {
    if |text| > 0 {
      ConsOfConcat(text, rest);
      NoMatchWithoutOpen(text + rest, p);
      ReplaceNoMatch(text + rest, p, rep);
      ReplaceSkipsText(text[1..], rest, p, rep);
      ConcatAssoc([text[0]], text[1..], ReplaceMatches(rest, p, rep));
      assert [text[0]] + text[1..] == text;
    } else {
      assert text + rest == rest;
    }
  }

  /** The list workarounds for CKEditor, in order. */
  const LIST_FIXES: seq<(Pattern, string)> := [
    (Spaced("<li>", "<div>"), "<li>"),
    (Spaced("</div>", "</li>"), "</li>"),
    (Spaced("<ul>", "<ul>"), "<ul><li><ul>"),
    (Spaced("</li>", "<ul>"), "<ul>"),
    (Spaced("</ul>", "</ul>"), "</ul></li></ul>"),
    (Spaced("</ul>", "<li>"), "</ul></li><li>"),
    (Spaced("<ol>", "<ol>"), "<ol><li><ol>"),
    (Spaced("</li>", "<ol>"), "<ol>"),
    (Spaced("</ol>", "</ol>"), "</ol></li></ol>"),
    (Spaced("</ol>", "<li>"), "</ol></li><li>")
  ]

  /** The rewrites applied one after another. */
  function ApplyAll(s: string, rewrites: seq<(Pattern, string)>): string
    decreases |rewrites|
  {
    if |rewrites| == 0 then s
    else ApplyAll(ReplaceMatches(s, rewrites[0].0, rewrites[0].1), rewrites[1..])
  }

  /** The to-do rewrites: checked boxes first, then unchecked ones. */
  function Todos(s: string): string
  {
    ReplaceMatches(ReplaceMatches(s, TodoChecked, BALLOT_BOX_WITH_CHECK), TodoUnchecked, BALLOT_BOX)
  }

  /**
   * `extractContent`: the wrapper removed and trimmed, the list
   * workarounds and the to-do boxes rewritten, then sanitised.
   */
  function ExtractContent(content: string, sanitize: string -> string): string
  {
    sanitize(Todos(ApplyAll(NoteBody(content), LIST_FIXES)))
  }

  // ---------------------------------------------------------------------
  // To-do boxes
  // ---------------------------------------------------------------------

  /** White space as `\s` sees it. */
  predicate AllSpace(w: string)
  {
    forall k | 0 <= k < |w| :: IsJsSpace(w[k])
  }

  /** `<en-todo` + white space + `checked="true"` + white space + `/>`. */
  function CheckedTag(w1: string, w2: string): string
  {
    EN_TODO + w1 + CHECKED_TRUE + w2 + SELF_CLOSE
  }

  /** `<en-todo` + white space + `checked="false"` + white space + `/>`. */
  function UncheckedTag(w1: string, w2: string): string
  {
    EN_TODO + w1 + CHECKED_FALSE + w2 + SELF_CLOSE
  }

  /** `<en-todo` + white space + `/>`. */
  function BareTag(w: string): string
  {
    EN_TODO + w + SELF_CLOSE
  }

  lemma SkipSpacesOver(s: string, i: nat, w: string)
    requires i + |w| < |s| && s[i..i + |w|] == w && AllSpace(w) && !IsJsSpace(s[i + |w|])
    ensures SkipSpaces(s, i) == i + |w|
    decreases |w|
  {
    if |w| > 0 {
      assert s[i] == w[0];
      assert s[i + 1..i + |w|] == w[1..];
      SkipSpacesOver(s, i + 1, w[1..]);
    }
  }

  /** White space `w` after `pre`, ended by a character that is not white space. */
  lemma SkipSpacesAfter(s: string, pre: string, w: string, t: string)
    requires s == pre + (w + t)
    requires AllSpace(w) && |t| > 0 && !IsJsSpace(t[0])
    ensures SkipSpaces(s, |pre|) == |pre| + |w|
  {
    assert s[|pre|..|pre| + |w|] == w;
    assert s[|pre| + |w|] == t[0];
    SkipSpacesOver(s, |pre|, w);
  }

  /** A literal placed after `pre` is found there. */
  lemma LiteralAfter(s: string, pre: string, lit: string, post: string)
    requires s == pre + (lit + post)
    ensures LiteralAt(s, |pre|, lit)
  {
    assert s[|pre|..] == lit + post;
    assert (lit + post)[..|lit|] == lit;
  }

  /** A text starts with the literal it was built from. */
  lemma StartsWithLiteral(s: string, lit: string, post: string)
    requires s == lit + post
    ensures StartsWith(s, lit)
  {
    assert s[..|lit|] == lit;
  }

  /** A literal differing from the text after `pre` at position `j` is not found there. */
  lemma LiteralNotAfter(s: string, pre: string, t: string, lit: string, j: nat)
    requires s == pre + t
    requires j < |t| && j < |lit| && t[j] != lit[j]
    ensures !LiteralAt(s, |pre|, lit)
  {
    assert s[|pre|..] == t;
  }

  lemma ConcatAssoc4(a: string, b: string, c: string, d: string, e: string)
    ensures a + b + c + d + e == a + (b + (c + (d + e)))
  {
  }

  /** How the checked to-do pattern matches: its pieces' positions. */
  lemma CheckedMatchAt(s: string, k: nat, m: nat)
    requires StartsWith(s, EN_TODO) && SkipSpaces(s, 8) == k > 8 && LiteralAt(s, k, CHECKED_TRUE)
    requires k + 14 <= |s| && SkipSpaces(s, k + 14) == m && LiteralAt(s, m, SELF_CLOSE)
    ensures MatchLength(TodoChecked, s) == m + 2
  {
  }

  /** The checked to-do pattern needs `checked="true"` after the white space. */
  lemma CheckedMissAt(s: string, k: nat)
    requires StartsWith(s, EN_TODO) && SkipSpaces(s, 8) == k && !LiteralAt(s, k, CHECKED_TRUE)
    ensures MatchLength(TodoChecked, s) == 0
  {
  }

  /** How the unchecked to-do pattern matches with its `checked="false"` attribute. */
  lemma UncheckedMatchAt(s: string, k: nat, m: nat)
    requires StartsWith(s, EN_TODO) && SkipSpaces(s, 8) == k > 8 && LiteralAt(s, k, CHECKED_FALSE)
    requires k + 15 <= |s| && SkipSpaces(s, k + 15) == m && LiteralAt(s, m, SELF_CLOSE)
    ensures MatchLength(TodoUnchecked, s) == m + 2
  {
  }

  /** How the unchecked to-do pattern matches without an attribute. */
  lemma BareMatchAt(s: string, k: nat)
    requires StartsWith(s, EN_TODO) && SkipSpaces(s, 8) == k
    requires !LiteralAt(s, k, CHECKED_FALSE) && LiteralAt(s, k, SELF_CLOSE)
    ensures MatchLength(TodoUnchecked, s) == k + 2
  {
  }

  /** The unchecked to-do pattern needs `checked="false"` or `/>` after the white space. */
  lemma UncheckedMissAt(s: string, k: nat)
    requires StartsWith(s, EN_TODO) && SkipSpaces(s, 8) == k
    requires !LiteralAt(s, k, CHECKED_FALSE) && !LiteralAt(s, k, SELF_CLOSE)
    ensures MatchLength(TodoUnchecked, s) == 0
  {
  }

  /** The matches of the two to-do patterns at the start of a checked tag. */
  lemma CheckedTagMatches(w1: string, w2: string, rest: string)
    requires |w1| > 0 && AllSpace(w1) && AllSpace(w2)
    ensures MatchLength(TodoChecked, CheckedTag(w1, w2) + rest) == |CheckedTag(w1, w2)|
    ensures MatchLength(TodoUnchecked, CheckedTag(w1, w2) + rest) == 0
  {
    var e := SELF_CLOSE + rest;
    var d := w2 + e;
    var c := CHECKED_TRUE + d;
    var s := CheckedTag(w1, w2) + rest;
    ConcatAssoc4(EN_TODO, w1, CHECKED_TRUE, w2, e);
    ConcatAssoc(EN_TODO + w1 + CHECKED_TRUE + w2, SELF_CLOSE, rest);
    ConcatAssoc(EN_TODO, w1, c);
    ConcatAssoc(EN_TODO + w1, CHECKED_TRUE, d);
    ConcatAssoc(EN_TODO + w1 + CHECKED_TRUE, w2, e);
    StartsWithLiteral(s, EN_TODO, w1 + c);
    SkipSpacesAfter(s, EN_TODO, w1, c);
    LiteralAfter(s, EN_TODO + w1, CHECKED_TRUE, d);
    LiteralNotAfter(s, EN_TODO + w1, c, CHECKED_FALSE, 9);
    LiteralNotAfter(s, EN_TODO + w1, c, SELF_CLOSE, 0);
    SkipSpacesAfter(s, EN_TODO + w1 + CHECKED_TRUE, w2, e);
    LiteralAfter(s, EN_TODO + w1 + CHECKED_TRUE + w2, SELF_CLOSE, rest);
    CheckedMatchAt(s, |EN_TODO + w1|, |EN_TODO + w1 + CHECKED_TRUE + w2|);
    UncheckedMissAt(s, |EN_TODO + w1|);
  }

  /** The matches of the two to-do patterns at the start of an unchecked tag. */
  lemma UncheckedTagMatches(w1: string, w2: string, rest: string)
    requires |w1| > 0 && AllSpace(w1) && AllSpace(w2)
    ensures MatchLength(TodoUnchecked, UncheckedTag(w1, w2) + rest) == |UncheckedTag(w1, w2)|
    ensures MatchLength(TodoChecked, UncheckedTag(w1, w2) + rest) == 0
  {
    var e := SELF_CLOSE + rest;
    var d := w2 + e;
    var c := CHECKED_FALSE + d;
    var s := UncheckedTag(w1, w2) + rest;
    ConcatAssoc4(EN_TODO, w1, CHECKED_FALSE, w2, e);
    ConcatAssoc(EN_TODO + w1 + CHECKED_FALSE + w2, SELF_CLOSE, rest);
    ConcatAssoc(EN_TODO, w1, c);
    ConcatAssoc(EN_TODO + w1, CHECKED_FALSE, d);
    ConcatAssoc(EN_TODO + w1 + CHECKED_FALSE, w2, e);
    StartsWithLiteral(s, EN_TODO, w1 + c);
    SkipSpacesAfter(s, EN_TODO, w1, c);
    LiteralAfter(s, EN_TODO + w1, CHECKED_FALSE, d);
    LiteralNotAfter(s, EN_TODO + w1, c, CHECKED_TRUE, 9);
    SkipSpacesAfter(s, EN_TODO + w1 + CHECKED_FALSE, w2, e);
    LiteralAfter(s, EN_TODO + w1 + CHECKED_FALSE + w2, SELF_CLOSE, rest);
    UncheckedMatchAt(s, |EN_TODO + w1|, |EN_TODO + w1 + CHECKED_FALSE + w2|);
    CheckedMissAt(s, |EN_TODO + w1|);
  }

  /** The matches of the two to-do patterns at the start of a bare tag. */
  lemma BareTagMatches(w: string, rest: string)
    requires AllSpace(w)
    ensures MatchLength(TodoUnchecked, BareTag(w) + rest) == |BareTag(w)|
    ensures MatchLength(TodoChecked, BareTag(w) + rest) == 0
  {
    var e := SELF_CLOSE + rest;
    var s := BareTag(w) + rest;
    ConcatAssoc(EN_TODO + w, SELF_CLOSE, rest);
    ConcatAssoc(EN_TODO, w, e);
    StartsWithLiteral(s, EN_TODO, w + e);
    SkipSpacesAfter(s, EN_TODO, w, e);
    LiteralAfter(s, EN_TODO + w, SELF_CLOSE, rest);
    LiteralNotAfter(s, EN_TODO + w, e, CHECKED_TRUE, 0);
    LiteralNotAfter(s, EN_TODO + w, e, CHECKED_FALSE, 0);
    BareMatchAt(s, |EN_TODO + w|);
    CheckedMissAt(s, |EN_TODO + w|);
  }

  /** An unchecked to-do tag holds no `<` after its first character. */
  lemma UncheckedTagTail(w1: string, w2: string)
    requires AllSpace(w1) && AllSpace(w2)
    ensures [UncheckedTag(w1, w2)[0]] + UncheckedTag(w1, w2)[1..] == UncheckedTag(w1, w2)
    ensures '<' !in UncheckedTag(w1, w2)[1..]
  {
    assert UncheckedTag(w1, w2)[1..] == EN_TODO[1..] + w1 + CHECKED_FALSE + w2 + SELF_CLOSE;
    assert forall k | 0 <= k < |w1| :: w1[k] != '<';
    assert forall k | 0 <= k < |w2| :: w2[k] != '<';
  }

  /** A bare to-do tag holds no `<` after its first character. */
  lemma BareTagTail(w: string)
    requires AllSpace(w)
    ensures [BareTag(w)[0]] + BareTag(w)[1..] == BareTag(w)
    ensures '<' !in BareTag(w)[1..]
  {
    assert BareTag(w)[1..] == EN_TODO[1..] + w + SELF_CLOSE;
    assert forall k | 0 <= k < |w| :: w[k] != '<';
  }

  /**
   * A tag that a pattern does not match at its start, and that holds no
   * other `<` after its first character `c`, passes through.
   */
  lemma UnmatchedTagKept(c: char, tail: string, rest: string, p: Pattern, rep: string)
    requires OpensWithTag(p) && '<' !in tail
    requires MatchLength(p, [c] + (tail + rest)) == 0
    ensures ReplaceMatches([c] + (tail + rest), p, rep) == [c] + (tail + ReplaceMatches(rest, p, rep))
  {
    ConsOfConcat([c], tail + rest);
    ReplaceNoMatch([c] + (tail + rest), p, rep);
    assert [c][1..] + (tail + rest) == tail + rest;
    ReplaceSkipsText(tail, rest, p, rep);
  }

  lemma MatchedTagReplaced(tag: string, rest: string, p: Pattern, rep: string)
    requires MatchLength(p, tag + rest) == |tag| > 0
    ensures ReplaceMatches(tag + rest, p, rep) == rep + ReplaceMatches(rest, p, rep)
  {
    assert (tag + rest)[|tag|..] == rest;
  }

  /** One rewrite pass over text, then a tag it does not match, then the rest. */
  lemma PassKeepsTag(text: string, c: char, tail: string, rest: string, p: Pattern, rep: string)
    requires OpensWithTag(p) && '<' !in text && '<' !in tail
    requires MatchLength(p, [c] + (tail + rest)) == 0
    ensures ReplaceMatches(text + ([c] + (tail + rest)), p, rep)
            == text + ([c] + (tail + ReplaceMatches(rest, p, rep)))
  {
    ReplaceSkipsText(text, [c] + (tail + rest), p, rep);
    UnmatchedTagKept(c, tail, rest, p, rep);
  }

  /** One rewrite pass over text, then a tag it matches, then the rest. */
  lemma PassReplacesTag(text: string, tag: string, rest: string, p: Pattern, rep: string)
    requires OpensWithTag(p) && '<' !in text
    requires MatchLength(p, tag + rest) == |tag| > 0
    ensures ReplaceMatches(text + (tag + rest), p, rep) == text + (rep + ReplaceMatches(rest, p, rep))
  {
    ReplaceSkipsText(text, tag + rest, p, rep);
    MatchedTagReplaced(tag, rest, p, rep);
  }

  /** The grouping the pass lemmas use. */
  lemma Regroup(text: string, tag: string, rest: string)
    requires |tag| > 0
    ensures text + tag + rest == text + ([tag[0]] + (tag[1..] + rest))
    ensures text + tag + rest == text + (tag + rest)
    ensures tag + rest == [tag[0]] + (tag[1..] + rest)
  {
    assert [tag[0]] + tag[1..] == tag;
  }

  /** `<en-todo checked="true"/>`, with any white space, becomes ☑. */
  lemma CheckedTodoBecomesBallotBoxWithCheck(text: string, w1: string, w2: string, rest: string)
    requires '<' !in text && |w1| > 0 && AllSpace(w1) && AllSpace(w2)
    ensures Todos(text + CheckedTag(w1, w2) + rest) == text + BALLOT_BOX_WITH_CHECK + Todos(rest)
  {
    var tag := CheckedTag(w1, w2);
    CheckedTagMatches(w1, w2, rest);
    Regroup(text, tag, rest);
    PassReplacesTag(text, tag, rest, TodoChecked, BALLOT_BOX_WITH_CHECK);
    var once := ReplaceMatches(rest, TodoChecked, BALLOT_BOX_WITH_CHECK);
    ConcatAssoc(text, BALLOT_BOX_WITH_CHECK, once);
    assert '<' !in text + BALLOT_BOX_WITH_CHECK;
    ReplaceSkipsText(text + BALLOT_BOX_WITH_CHECK, once, TodoUnchecked, BALLOT_BOX);
  }

  /** `<en-todo checked="false"/>`, with any white space, becomes ☐. */
  lemma UncheckedTodoBecomesBallotBox(text: string, w1: string, w2: string, rest: string)
    requires '<' !in text && |w1| > 0 && AllSpace(w1) && AllSpace(w2)
    ensures Todos(text + UncheckedTag(w1, w2) + rest) == text + BALLOT_BOX + Todos(rest)
  {
    var tag := UncheckedTag(w1, w2);
    UncheckedTagTail(w1, w2);
    UncheckedTagMatches(w1, w2, rest);
    Regroup(text, tag, rest);
    PassKeepsTag(text, tag[0], tag[1..], rest, TodoChecked, BALLOT_BOX_WITH_CHECK);
    var once := ReplaceMatches(rest, TodoChecked, BALLOT_BOX_WITH_CHECK);
    Regroup(text, tag, once);
    UncheckedTagMatches(w1, w2, once);
    PassReplacesTag(text, tag, once, TodoUnchecked, BALLOT_BOX);
    ConcatAssoc(text, BALLOT_BOX, ReplaceMatches(once, TodoUnchecked, BALLOT_BOX));
  }

  /** `<en-todo/>`, with no `checked` attribute, becomes ☐. */
  lemma BareTodoBecomesBallotBox(text: string, w: string, rest: string)
    requires '<' !in text && AllSpace(w)
    ensures Todos(text + BareTag(w) + rest) == text + BALLOT_BOX + Todos(rest)
  {
    var tag := BareTag(w);
    BareTagTail(w);
    BareTagMatches(w, rest);
    Regroup(text, tag, rest);
    PassKeepsTag(text, tag[0], tag[1..], rest, TodoChecked, BALLOT_BOX_WITH_CHECK);
    var once := ReplaceMatches(rest, TodoChecked, BALLOT_BOX_WITH_CHECK);
    Regroup(text, tag, once);
    BareTagMatches(w, once);
    PassReplacesTag(text, tag, once, TodoUnchecked, BALLOT_BOX);
    ConcatAssoc(text, BALLOT_BOX, ReplaceMatches(once, TodoUnchecked, BALLOT_BOX));
  }

  /** Text without tags is left as it is by every rewrite. */
  lemma {:induction false} PlainTextUnchanged(text: string, rewrites: seq<(Pattern, string)>)
    requires '<' !in text
    requires forall k | 0 <= k < |rewrites| :: OpensWithTag(rewrites[k].0)
    ensures ApplyAll(text, rewrites) == text
    decreases |rewrites|
  {
    if |rewrites| > 0 {
      ReplaceSkipsText(text, "", rewrites[0].0, rewrites[0].1);
      assert text + "" == text;
      PlainTextUnchanged(text, rewrites[1..]);
    }
  }

  // ---------------------------------------------------------------------
  // saveNote
  // ---------------------------------------------------------------------

  /** A label collected from the ENEX note. */
  datatype EnexAttribute = EnexAttribute(attrType: string, name: string, value: string)

  /** The fields the parser collected for one `<note>`; missing ones are `None`. */
  datatype EnexNote = EnexNote(title: Option<string>, content: Option<string>, attributes: seq<EnexAttribute>,
                               utcDateCreated: Option<string>, utcDateModified: Option<string>)

  /** What `saveNote` stores: the note with its extracted content and its two dates. */
  datatype SavedNote = SavedNote(title: string, content: string, attributes: seq<EnexAttribute>,
                                 utcDateCreated: string, utcDateModified: string)

  const MISSING_TITLE_OR_CONTENT := "Missing title or content for note."

  /**
   * `saveNote`: an error without a title or content; otherwise the note
   * with its content extracted, created at its ENEX date or else when the
   * note service created it, and modified at its ENEX date or else when
   * it was created.
   */
  function SaveNote(note: EnexNote, entityDateCreated: string, sanitize: string -> string): (r: Result<SavedNote, string>)
    ensures r.Err? <==> !Truthy(note.title) || !Truthy(note.content)
    ensures r.Err? ==> r.error == MISSING_TITLE_OR_CONTENT
    ensures r.Ok? ==> r.value.title == note.title.value && r.value.attributes == note.attributes
    ensures r.Ok? ==> r.value.content == sanitize(ExtractContent(note.content.value, sanitize))
    ensures r.Ok? && Truthy(note.utcDateCreated) ==> r.value.utcDateCreated == note.utcDateCreated.value
    ensures r.Ok? && !Truthy(note.utcDateCreated) ==> r.value.utcDateCreated == entityDateCreated
    ensures r.Ok? && Truthy(note.utcDateModified) ==> r.value.utcDateModified == note.utcDateModified.value
    ensures r.Ok? && !Truthy(note.utcDateModified) ==> r.value.utcDateModified == r.value.utcDateCreated
  {
    if !Truthy(note.title) || !Truthy(note.content) then Err(MISSING_TITLE_OR_CONTENT)
    else
      var content := ExtractContent(note.content.value, sanitize);
      var utcDateCreated := if Truthy(note.utcDateCreated) then note.utcDateCreated.value else entityDateCreated;
      var utcDateModified := if Truthy(note.utcDateModified) then note.utcDateModified.value else utcDateCreated;
      Ok(SavedNote(note.title.value, sanitize(content), note.attributes, utcDateCreated, utcDateModified))
  }

  /**
   * A note whose ENEX has no `updated` date is recorded as modified when
   * it was created; with neither date, both are the creation time the
   * note service gave it.
   */
  lemma ModifiedFallsBackToCreated(note: EnexNote, entityDateCreated: string, sanitize: string -> string)
    requires Truthy(note.title) && Truthy(note.content) && !Truthy(note.utcDateModified)
    ensures SaveNote(note, entityDateCreated, sanitize).Ok?
    ensures var saved := SaveNote(note, entityDateCreated, sanitize).value;
            saved.utcDateModified == saved.utcDateCreated
            && (!Truthy(note.utcDateCreated) ==> saved.utcDateCreated == entityDateCreated)
  {
  }
}
