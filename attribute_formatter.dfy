/**
 * `formatAttrForSearch`: the search string that finds notes carrying a
 * given attribute, optionally with its value, quoted so that the value
 * reads back as one token.
 */
module AttributeFormatter {
  import opened Common

  /** The attribute fields the formatter reads; `value` may be absent. */
  datatype AttributeRow = AttributeRow(attrType: string, name: string, value: Option<string>)

  /** `\w`: ASCII letters, digits and `_`. */
  predicate IsWordChar(c: char)
  {
    ('a' <= c <= 'z') || ('A' <= c <= 'Z') || ('0' <= c <= '9') || c == '_'
  }

  /** `!/[^\w]/.test(val)`: every character is a word character. */
  predicate AllWord(s: string)
  {
    forall k | 0 <= k < |s| :: IsWordChar(s[k])
  }

  predicate IsQuote(c: char)
  {
    c == '"' || c == '\'' || c == '`'
  }

  /** `val.replace(/"/g, '\\"')`: every `"` preceded by a backslash. */
  function EscapeQuotes(s: string): string
  {
    ReplaceAll(s, "\"", "\\\"")
  }

  /**
   * `formatValue`: a value of word characters as it is; otherwise quoted
   * with the first of `"`, `'`, `` ` `` it does not contain; when it contains
   * all three, double-quoted with its `"` escaped.
   */
  function FormatValue(v: string): (r: string)
    ensures AllWord(v) ==> r == v
    ensures !AllWord(v) ==> |r| >= 2 && r[0] == r[|r| - 1] && IsQuote(r[0])
    ensures !AllWord(v) && !('"' in v && '\'' in v && '`' in v) ==> r[1..|r| - 1] == v && r[0] !in v
  {
    if AllWord(v) then v
    else if '"' !in v then "\"" + v + "\""
    else if '\'' !in v then "'" + v + "'"
    else if '`' !in v then "`" + v + "`"
    else "\"" + EscapeQuotes(v) + "\""
  }

  /** Reading an escaped double-quoted body back: `\"` stands for `"`. */
  function Unescape(s: string): string
  {
    if |s| == 0 then ""
    else if |s| >= 2 && s[0] == '\\' && s[1] == '"' then "\"" + Unescape(s[2..])
    else [s[0]] + Unescape(s[1..])
  }

  /** Reading a formatted value back: an unquoted word, or the body between matching quotes. */
  function ReadValue(s: string): string
  {
    if |s| >= 2 && IsQuote(s[0]) && s[|s| - 1] == s[0] then
      var body := s[1..|s| - 1];
      if s[0] == '"' && |body| >= 2 && exists k :: 0 <= k < |body| - 1 && body[k] == '\\' && body[k + 1] == '"'
      then Unescape(body) else body
    else s
  }

  lemma {:induction false} EscapeStep(s: string)
    requires |s| > 0
    ensures s[0] == '"' ==> EscapeQuotes(s) == "\\\"" + EscapeQuotes(s[1..])
    ensures s[0] != '"' ==> EscapeQuotes(s) == [s[0]] + EscapeQuotes(s[1..])
  {
    assert s[..1] == [s[0]];
    assert s[1..] == s[|"\""|..];
  }

  /** Unescaping undoes the escaping of every `"`. */
  lemma {:induction false} UnescapeEscape(s: string)
    ensures Unescape(EscapeQuotes(s)) == s
    decreases |s|
  {
    if |s| > 0 {
      EscapeStep(s);
      UnescapeEscape(s[1..]);
      var rest := EscapeQuotes(s[1..]);
      if s[0] == '"' {
        assert ("\\\"" + rest)[2..] == rest;
      } else if s[0] == '\\' {
        if |rest| > 0 {
          EscapeFirst(s[1..]);
          assert rest[0] != '"';
        }
        assert ([s[0]] + rest)[1..] == rest;
      } else {
        assert ([s[0]] + rest)[1..] == rest;
      }
    }
  }

  /** The escaped text of a non-empty string never starts with `"`. */
  lemma EscapeFirst(s: string)
    requires |s| > 0
    ensures |EscapeQuotes(s)| > 0 && EscapeQuotes(s)[0] != '"'
  {
    EscapeStep(s);
  }

  /** A double quote in the escaped text. */
  lemma {:induction false} EscapedHasPair(s: string)
    requires '"' in s
    ensures exists k :: 0 <= k < |EscapeQuotes(s)| - 1 && EscapeQuotes(s)[k] == '\\' && EscapeQuotes(s)[k + 1] == '"'
    decreases |s|
  {
    EscapeStep(s);
    var rest := EscapeQuotes(s[1..]);
    if s[0] == '"' {
      assert EscapeQuotes(s)[0] == '\\' && EscapeQuotes(s)[1] == '"';
    } else {
      EscapedHasPair(s[1..]);
      var k :| 0 <= k < |rest| - 1 && rest[k] == '\\' && rest[k + 1] == '"';
      assert EscapeQuotes(s)[k + 1] == '\\' && EscapeQuotes(s)[k + 2] == '"';
    }
  }

  /**
   * The formatted value reads back as the value: a plain word as it is,
   * a quoted one as the text between its quotes, with `\"` read as `"`
   * in the fully escaped form.
   */
  lemma FormatValueReadsBack(v: string)
    ensures ReadValue(FormatValue(v)) == v
  {
    var r := FormatValue(v);
    if AllWord(v) {
      if |v| >= 2 {
        assert IsWordChar(v[0]);
      }
    } else if '"' !in v {
      assert r[1..|r| - 1] == v;
      forall k | 1 <= k < |v|
        ensures v[k] != '"'
      {
        assert v[k] in v;
      }
    } else if '\'' !in v {
      assert r[1..|r| - 1] == v;
    } else if '`' !in v {
      assert r[1..|r| - 1] == v;
    } else {
      var body := EscapeQuotes(v);
      assert r[1..|r| - 1] == body;
      EscapedHasPair(v);
      UnescapeEscape(v);
    }
  }

  /**
   * `formatAttrForSearch`: `#name` for a label, `~name` for a relation;
   * with `searchWithValue` and a non-empty value, `=` and the formatted
   * value follow, a relation comparing its target's `noteId`. Any other
   * attribute type is an error.
   */
  function FormatAttrForSearch(attr: AttributeRow, searchWithValue: bool): (r: Result<string, string>)
    ensures r.Err? <==> attr.attrType != "label" && attr.attrType != "relation"
    ensures r.Ok? ==> |r.value| > |attr.name| && r.value[1..|attr.name| + 1] == attr.name
    ensures r.Ok? ==> r.value[0] == (if attr.attrType == "label" then '#' else '~')
    ensures r.Ok? && !(searchWithValue && attr.value.Some? && attr.value.value != "") ==> |r.value| == |attr.name| + 1
    ensures r.Ok? && searchWithValue && attr.value.Some? && attr.value.value != "" ==>
              var tail := r.value[|attr.name| + 1..];
              if attr.attrType == "relation" then tail == ".noteId=" + FormatValue(attr.value.value)
              else tail == "=" + FormatValue(attr.value.value)
  {
    if attr.attrType != "label" && attr.attrType != "relation" then
      Err("Unrecognized attribute type")
    else
      var prefix := if attr.attrType == "label" then "#" else "~";
      if searchWithValue && attr.value.Some? && attr.value.value != "" then
        var tail := (if attr.attrType == "relation" then ".noteId=" else "=") + FormatValue(attr.value.value);
        PrefixNameTail(prefix, attr.name, tail);
        Ok(prefix + attr.name + tail)
      else
        PrefixNameTail(prefix, attr.name, "");
        assert prefix + attr.name + "" == prefix + attr.name;
        Ok(prefix + attr.name)
  }

  /** Where the prefix, the name and the tail of a search string sit. */
  lemma PrefixNameTail(prefix: string, name: string, tail: string)
    requires |prefix| == 1
    ensures var s := prefix + name + tail;
            |s| == |name| + 1 + |tail| && s[0] == prefix[0]
            && s[1..|name| + 1] == name && s[|name| + 1..] == tail
  {
    var s := prefix + name + tail;
    assert s[1..|name| + 1] == name;
    assert s[|name| + 1..] == tail;
  }
}
