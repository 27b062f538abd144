/** The two markup helpers of the decision tool: `escapeHtml`, which turns
    the five HTML-special characters into entities before user text is put
    into markup, and `stripTags`, which deletes every `<...>` span to get
    plain text back for export. */
module Markup {
  import opened Text

  /** The entity `escapeHtml` writes for a character (the character itself
      when it is not special): a one-pass reference for the chain of
      `replaceAll` calls. */
  function EscapeChar(c: char): string {
    if c == '&' then "&amp;"
    else if c == '<' then "&lt;"
    else if c == '>' then "&gt;"
    else if c == '"' then "&quot;"
    else if c == '\'' then "&#039;"
    else [c]
  }

  /** Escapes character by character, in one pass. */
  function EscapeEach(s: string): (r: string)
    ensures '<' !in r && '>' !in r && '"' !in r && '\'' !in r
  {
    if s == [] then []
    else
      EscapeCharSafe(s[0]);
      EscapeChar(s[0]) + EscapeEach(s[1..])
  }

  /** An entity holds none of the four characters it replaces. */
  lemma EscapeCharSafe(c: char)
    ensures var e := EscapeChar(c);
      '<' !in e && '>' !in e && '"' !in e && '\'' !in e
  {
  }

  /** One of the five entities starts at index `i` of `t`. */
  predicate EntityAt(t: string, i: nat)
    requires i <= |t|
  {
    var rest := t[i..];
    StartsWith(rest, "&amp;") || StartsWith(rest, "&lt;") || StartsWith(rest, "&gt;")
    || StartsWith(rest, "&quot;") || StartsWith(rest, "&#039;")
  }

  /** `escapeHtml`: five `replaceAll` passes, `&` first. */
  function EscapeHtml(s: string): string {
    ReplaceAll(ReplaceAll(ReplaceAll(ReplaceAll(ReplaceAll(s,
      '&', "&amp;"), '<', "&lt;"), '>', "&gt;"), '"', "&quot;"), '\'', "&#039;")
  }

  /** Decodes the five entities; every other character stands for itself.
      A reference inverse of `escapeHtml`. */
  function Unescape(t: string): string
    decreases |t|
  {
    if t == [] then []
    else if StartsWith(t, "&amp;") then "&" + Unescape(t[5..])
    else if StartsWith(t, "&lt;") then "<" + Unescape(t[4..])
    else if StartsWith(t, "&gt;") then ">" + Unescape(t[4..])
    else if StartsWith(t, "&quot;") then "\"" + Unescape(t[6..])
    else if StartsWith(t, "&#039;") then "'" + Unescape(t[6..])
    else [t[0]] + Unescape(t[1..])
  }

  /** Index of the first `c` in `s`. */
  function FirstIndex(s: string, c: char): (k: nat)
    requires c in s
    ensures k < |s| && s[k] == c && c !in s[..k]
  {
    if s[0] == c then 0 else FirstIndex(s[1..], c) + 1
  }

  /** `stripTags`, the global replacement of `/<[^>]*>/` by "": scanning
      left to right, a `<` with a `>` somewhere after it starts a match
      that ends at the first such `>`; a `<` with none is kept. The result
      has no `<` followed anywhere later by `>`, keeps only characters of
      the input, and is the input itself when that holds no `<`. */
  function StripTags(s: string): (r: string)
    ensures |r| <= |s|
    ensures forall x :: x in r ==> x in s
    ensures NoTag(r)
    ensures '<' !in s ==> r == s
    decreases |s|
  {
    if s == [] then []
    else if s[0] == '<' && '>' in s then StripTags(s[FirstIndex(s, '>') + 1..])
    else [s[0]] + StripTags(s[1..])
  }

  /** No `<` is followed, at any distance, by a `>`: nothing shaped `<...>`. */
  predicate NoTag(t: string) {
    forall i, j :: 0 <= i < j < |t| ==> !(t[i] == '<' && t[j] == '>')
  }

  // ---------------------------------------------------------------------
  // escapeHtml

  lemma {:induction false} EscapeHtmlAppend(x: string, y: string)
    ensures EscapeHtml(x + y) == EscapeHtml(x) + EscapeHtml(y)
  {
    var r1x, r1y := ReplaceAll(x, '&', "&amp;"), ReplaceAll(y, '&', "&amp;");
    ReplaceAllAppend(x, y, '&', "&amp;");
    var r2x, r2y := ReplaceAll(r1x, '<', "&lt;"), ReplaceAll(r1y, '<', "&lt;");
    ReplaceAllAppend(r1x, r1y, '<', "&lt;");
    var r3x, r3y := ReplaceAll(r2x, '>', "&gt;"), ReplaceAll(r2y, '>', "&gt;");
    ReplaceAllAppend(r2x, r2y, '>', "&gt;");
    var r4x, r4y := ReplaceAll(r3x, '"', "&quot;"), ReplaceAll(r3y, '"', "&quot;");
    ReplaceAllAppend(r3x, r3y, '"', "&quot;");
    ReplaceAllAppend(r4x, r4y, '\'', "&#039;");
  }

  /** The five passes applied to a single character: the pass for that
      character writes its entity, and no other pass changes anything. */
  lemma EscapeHtmlChar(c: char)
    ensures EscapeHtml([c]) == EscapeChar(c)
  {
    var r1 := ReplaceAll([c], '&', "&amp;");
    ReplaceAllOne(c, '&', "&amp;");
    var r2 := ReplaceAll(r1, '<', "&lt;");
    if c == '&' { ReplaceAllAbsent(r1, '<', "&lt;"); } else { ReplaceAllOne(c, '<', "&lt;"); }
    EscapeHtmlTail(c, r2);
  }

  /** The last three passes, over the output of the first two. */
  lemma EscapeHtmlTail(c: char, r2: string)
    requires r2 == if c == '&' then "&amp;" else if c == '<' then "&lt;" else [c]
    ensures ReplaceAll(ReplaceAll(ReplaceAll(r2, '>', "&gt;"), '"', "&quot;"), '\'', "&#039;") == EscapeChar(c)
  {
    var r3 := ReplaceAll(r2, '>', "&gt;");
    if c == '&' || c == '<' { ReplaceAllAbsent(r2, '>', "&gt;"); } else { ReplaceAllOne(c, '>', "&gt;"); }
    var r4 := ReplaceAll(r3, '"', "&quot;");
    if c == '&' || c == '<' || c == '>' {
      ReplaceAllAbsent(r3, '"', "&quot;");
    } else {
      ReplaceAllOne(c, '"', "&quot;");
    }
    if c == '&' || c == '<' || c == '>' || c == '"' {
      ReplaceAllAbsent(r4, '\'', "&#039;");
    } else {
      ReplaceAllOne(c, '\'', "&#039;");
    }
  }

  /** Replacing `&` first makes the chain of five passes equal to escaping
      each character once: no entity is escaped a second time. */
  lemma {:induction false} EscapeHtmlSinglePass(s: string)
    ensures EscapeHtml(s) == EscapeEach(s)
  {
    if s != [] {
      assert s == [s[0]] + s[1..];
      EscapeHtmlAppend([s[0]], s[1..]);
      EscapeHtmlChar(s[0]);
      EscapeHtmlSinglePass(s[1..]);
    }
  }

  lemma {:induction false} EscapeEachAmpersands(s: string)
    ensures forall i :: 0 <= i < |EscapeEach(s)| && EscapeEach(s)[i] == '&' ==> EntityAt(EscapeEach(s), i)
  {
    if s != [] {
      EscapeEachAmpersands(s[1..]);
      var e, t := EscapeChar(s[0]), EscapeEach(s[1..]);
      var r := e + t;
      assert EscapeEach(s) == r;
      forall i | 0 <= i < |r| && r[i] == '&'
        ensures EntityAt(r, i)
      {
        if i < |e| {
          assert i == 0 && s[0] in "&<>\"'";
          assert r[0..] == e + t;
        } else {
          assert r[i..] == t[i - |e|..];
          assert t[i - |e|] == '&';
        }
      }
    }
  }

  /** No `<`, `>`, `"` or `'` survives escaping. */
  lemma EscapeHtmlSafe(s: string)
    ensures '<' !in EscapeHtml(s) && '>' !in EscapeHtml(s)
    ensures '"' !in EscapeHtml(s) && '\'' !in EscapeHtml(s)
  {
    EscapeHtmlSinglePass(s);
  }

  /** Every `&` in escaped text begins one of the five entities. */
  lemma EscapedAmpersands(s: string)
    ensures forall i :: 0 <= i < |EscapeHtml(s)| && EscapeHtml(s)[i] == '&' ==> EntityAt(EscapeHtml(s), i)
  {
    EscapeHtmlSinglePass(s);
    EscapeEachAmpersands(s);
  }

  lemma UnescapeEntity(e: string, c: char, rest: string)
    requires e in ["&amp;", "&lt;", "&gt;", "&quot;", "&#039;"]
    requires e == EscapeChar(c)
    ensures Unescape(e + rest) == [c] + Unescape(rest)
  {
    var t := e + rest;
    assert t[..|e|] == e && t[|e|..] == rest;
    assert t[0] == '&' && t[1] == e[1];
    if e != "&amp;" {
      assert !StartsWith(t, "&amp;");
    }
    if e != "&amp;" && e != "&lt;" {
      assert !StartsWith(t, "&lt;");
    }
    if e == "&quot;" || e == "&#039;" {
      assert !StartsWith(t, "&gt;");
    }
    if e == "&#039;" {
      assert !StartsWith(t, "&quot;");
    }
  }

  /** A text that does not start with `&` starts with no entity. */
  lemma NoEntityStart(t: string)
    requires t != [] && t[0] != '&'
    ensures !StartsWith(t, "&amp;") && !StartsWith(t, "&lt;") && !StartsWith(t, "&gt;")
    ensures !StartsWith(t, "&quot;") && !StartsWith(t, "&#039;")
  {
  }

  lemma UnescapeEscapeChar(c: char, rest: string)
    ensures Unescape(EscapeChar(c) + rest) == [c] + Unescape(rest)
  {
    if c == '&' {
      UnescapeEntity("&amp;", c, rest);
    } else if c == '<' {
      UnescapeEntity("&lt;", c, rest);
    } else if c == '>' {
      UnescapeEntity("&gt;", c, rest);
    } else if c == '"' {
      UnescapeEntity("&quot;", c, rest);
    } else if c == '\'' {
      UnescapeEntity("&#039;", c, rest);
    } else {
      var t := [c] + rest;
      assert EscapeChar(c) == [c];
      assert t[0] == c && t[0] != '&' && t[1..] == rest;
      NoEntityStart(t);
    }
  }

  lemma {:induction false} UnescapeEscapeEach(s: string)
    ensures Unescape(EscapeEach(s)) == s
  {
    if s != [] {
      UnescapeEscapeChar(s[0], EscapeEach(s[1..]));
      UnescapeEscapeEach(s[1..]);
    }
  }

  /** Decoding the entities gives the original text back: escaping loses
      nothing, and two different texts never escape to the same markup. */
  lemma UnescapeEscapeHtml(s: string)
    ensures Unescape(EscapeHtml(s)) == s
  {
    EscapeHtmlSinglePass(s);
    UnescapeEscapeEach(s);
  }

  lemma EscapeHtmlInjective(s: string, t: string)
    requires EscapeHtml(s) == EscapeHtml(t)
    ensures s == t
  {
    UnescapeEscapeHtml(s);
    UnescapeEscapeHtml(t);
  }

  /** A text without special characters is its own escape. */
  lemma {:induction false} EscapeHtmlPlain(s: string)
    requires forall i :: 0 <= i < |s| ==> s[i] !in "&<>\"'"
    ensures EscapeHtml(s) == s
  {
    EscapeHtmlSinglePass(s);
    EscapeEachPlain(s);
  }

  lemma {:induction false} EscapeEachPlain(s: string)
    requires forall i :: 0 <= i < |s| ==> s[i] !in "&<>\"'"
    ensures EscapeEach(s) == s
  {
    if s != [] {
      EscapeEachPlain(s[1..]);
      assert [s[0]] + s[1..] == s;
    }
  }

  // ---------------------------------------------------------------------
  // stripTags

  /** Text in front of the first `<` passes through untouched. */
  lemma {:induction false} StripTagsPrefix(x: string, y: string)
    requires '<' !in x
    ensures StripTags(x + y) == x + StripTags(y)
  {
    if x != [] {
      var s, rest := x + y, x[1..] + y;
      assert s[0] == x[0] != '<' && s[1..] == rest;
      assert StripTags(s) == [x[0]] + StripTags(rest);
      StripTagsPrefix(x[1..], y);
      assert x == [x[0]] + x[1..];
    } else {
      assert x + y == y;
    }
  }

  /** A tag with no `>` inside it, followed by anything, is deleted. */
  lemma StripTagsTag(name: string, y: string)
    requires '>' !in name
    ensures StripTags("<" + name + ">" + y) == StripTags(y)
  {
    var s := "<" + name + ">" + y;
    var k := |name| + 1;
    assert s[k] == '>';
    assert s[..k] == "<" + name;
    assert FirstIndex(s, '>') == k;
    assert s[k + 1..] == y;
  }

  /** Stripping is idempotent: a text with no `<...>` span is left as it is. */
  lemma {:induction false} StripTagsNoTag(t: string)
    requires NoTag(t)
    ensures StripTags(t) == t
  {
    if t != [] {
      assert forall j :: 0 < j < |t| ==> !(t[0] == '<' && t[j] == '>');
      assert NoTag(t[1..]) by {
        forall i, j | 0 <= i < j < |t| - 1 ensures !(t[1..][i] == '<' && t[1..][j] == '>') {
          assert t[1..][i] == t[i + 1] && t[1..][j] == t[j + 1];
        }
      }
      StripTagsNoTag(t[1..]);
      assert [t[0]] + t[1..] == t;
    }
  }

  lemma StripTagsIdempotent(s: string)
    ensures StripTags(StripTags(s)) == StripTags(s)
  {
    StripTagsNoTag(StripTags(s));
  }

  /** Stripping leaves what escaping produced untouched: escaped text holds no `<`. */
  lemma StripTagsEscaped(s: string)
    ensures StripTags(EscapeHtml(s)) == EscapeHtml(s)
  {
    EscapeHtmlSafe(s);
  }
}
