/**
 * `escapeHtml` from the front end: five global replacements applied in a
 * fixed order, `&` first so that the entities written by the later steps are
 * not escaped again.
 */
module Html {
  import opened Strings

  /** One of the four characters that the escaped text never contains. */
  predicate IsMarkup(c: char)
  {
    c == '<' || c == '>' || c == '"' || c == '\''
  }

  /** One of the five characters that `escapeHtml` rewrites. */
  predicate IsSpecial(c: char)
  {
    c == '&' || IsMarkup(c)
  }

  /**
   * `s.replace(/c/g, r)` for a one-character pattern: every occurrence of `c`
   * is replaced by `r`, every other character is kept, so the length grows by
   * `|r| - 1` per occurrence. When `r` does not contain `c` no `c` is left,
   * and a string without `c` comes back unchanged (the lemmas below).
   */
  function ReplaceAll(s: string, c: char, r: string): (t: string)
    ensures |t| + Occurrences(s, c) == |s| + Occurrences(s, c) * |r|
  {
    if s == [] then [] else (if s[0] == c then r else [s[0]]) + ReplaceAll(s[1..], c, r)
  }

  /** How many times `c` occurs in `s`. */
  function Occurrences(s: string, c: char): nat
  {
    if s == [] then 0 else (if s[0] == c then 1 else 0) + Occurrences(s[1..], c)
  }

  /** A string without `c` comes back unchanged. */
  lemma {:induction false} ReplaceAllAbsent(s: string, c: char, r: string)
    requires c !in s
    ensures ReplaceAll(s, c, r) == s
  {
    if s != [] {
      assert c !in s[1..] by { assert forall i | 0 <= i < |s[1..]| :: s[1..][i] == s[i + 1]; }
      ReplaceAllAbsent(s[1..], c, r);
      assert s == [s[0]] + s[1..];
    }
  }

  /**
   * A character that the replacement does not hold is absent from the result
   * if it is the replaced one or was absent from the input.
   */
  lemma {:induction false} ReplaceAllLeavesOut(s: string, c: char, r: string, d: char)
    requires (d !in s || d == c) && d !in r
    ensures d !in ReplaceAll(s, c, r)
  {
    if s != [] {
      assert d !in s[1..] || d == c by { assert forall i | 0 <= i < |s[1..]| :: s[1..][i] == s[i + 1]; }
      ReplaceAllLeavesOut(s[1..], c, r, d);
    }
  }

  /**
   * `escapeHtml(unsafe)`: the result contains none of `<`, `>`, `"`, `'`.
   */
  function EscapeHtml(unsafe: string): (r: string)
    ensures '<' !in r && '>' !in r && '"' !in r && '\'' !in r
  {
    var amp := ReplaceAll(unsafe, '&', "&amp;");
    var lt := ReplaceAll(amp, '<', "&lt;");
    var gt := ReplaceAll(lt, '>', "&gt;");
    var quot := ReplaceAll(gt, '"', "&quot;");
    var apos := ReplaceAll(quot, '\'', "&#039;");
    ReplaceAllLeavesOut(amp, '<', "&lt;", '<');
    ReplaceAllLeavesOut(lt, '>', "&gt;", '<');
    ReplaceAllLeavesOut(lt, '>', "&gt;", '>');
    ReplaceAllLeavesOut(gt, '"', "&quot;", '<');
    ReplaceAllLeavesOut(gt, '"', "&quot;", '>');
    ReplaceAllLeavesOut(gt, '"', "&quot;", '"');
    ReplaceAllLeavesOut(quot, '\'', "&#039;", '<');
    ReplaceAllLeavesOut(quot, '\'', "&#039;", '>');
    ReplaceAllLeavesOut(quot, '\'', "&#039;", '"');
    ReplaceAllLeavesOut(quot, '\'', "&#039;", '\'');
    apos
  }

  /** A text holding none of the five special characters is returned as it is. */
  lemma EscapeHtmlKeepsPlainText(s: string)
    requires forall c :: c in s ==> !IsSpecial(c)
    ensures EscapeHtml(s) == s
  {
    ReplaceAllAbsent(s, '&', "&amp;");
    ReplaceAllAbsent(s, '<', "&lt;");
    ReplaceAllAbsent(s, '>', "&gt;");
    ReplaceAllAbsent(s, '"', "&quot;");
    ReplaceAllAbsent(s, '\'', "&#039;");
  }

  /** The entity each special character stands for; any other character stays. */
  function EscapeChar(c: char): (r: string)
    ensures |r| >= 1 && (r == [c] <==> !IsSpecial(c))
  {
    if c == '&' then "&amp;"
    else if c == '<' then "&lt;"
    else if c == '>' then "&gt;"
    else if c == '"' then "&quot;"
    else if c == '\'' then "&#039;"
    else [c]
  }

  /** Reference definition: escape character by character, left to right. */
  function EscapeEach(s: string): string
  {
    if s == [] then [] else EscapeChar(s[0]) + EscapeEach(s[1..])
  }

  /** The inverse of escaping: reads the five entities back as their characters. */
  function UnescapeHtml(s: string): string
    decreases |s|
  {
    if s == [] then []
    else if StartsWith(s, "&amp;") then "&" + UnescapeHtml(s[5..])
    else if StartsWith(s, "&lt;") then "<" + UnescapeHtml(s[4..])
    else if StartsWith(s, "&gt;") then ">" + UnescapeHtml(s[4..])
    else if StartsWith(s, "&quot;") then "\"" + UnescapeHtml(s[6..])
    else if StartsWith(s, "&#039;") then "'" + UnescapeHtml(s[6..])
    else [s[0]] + UnescapeHtml(s[1..])
  }

  /** A global replacement distributes over concatenation. */
  lemma {:induction false} ReplaceAllConcat(a: string, b: string, c: char, r: string)
    ensures ReplaceAll(a + b, c, r) == ReplaceAll(a, c, r) + ReplaceAll(b, c, r)
  {
    if a == [] {
      assert a + b == b;
    } else {
      assert (a + b)[0] == a[0];
      assert (a + b)[1..] == a[1..] + b;
      ReplaceAllConcat(a[1..], b, c, r);
    }
  }

  /** Escaping acts on each part of a concatenation separately. */
  lemma EscapeHtmlConcat(a: string, b: string)
    ensures EscapeHtml(a + b) == EscapeHtml(a) + EscapeHtml(b)
  {
    var a1, b1 := ReplaceAll(a, '&', "&amp;"), ReplaceAll(b, '&', "&amp;");
    ReplaceAllConcat(a, b, '&', "&amp;");
    var a2, b2 := ReplaceAll(a1, '<', "&lt;"), ReplaceAll(b1, '<', "&lt;");
    ReplaceAllConcat(a1, b1, '<', "&lt;");
    var a3, b3 := ReplaceAll(a2, '>', "&gt;"), ReplaceAll(b2, '>', "&gt;");
    ReplaceAllConcat(a2, b2, '>', "&gt;");
    var a4, b4 := ReplaceAll(a3, '"', "&quot;"), ReplaceAll(b3, '"', "&quot;");
    ReplaceAllConcat(a3, b3, '"', "&quot;");
    ReplaceAllConcat(a4, b4, '\'', "&#039;");
  }

  /** Replacing in a one-character string. */
  lemma ReplaceAllSingle(c: char, d: char, r: string)
    ensures ReplaceAll([c], d, r) == if c == d then r else [c]
  {
    assert [c][1..] == [];
  }

  /** On a single character the chain of replacements yields that character's entity. */
  lemma EscapeHtmlOfChar(c: char)
    ensures EscapeHtml([c]) == EscapeChar(c)
  {
    if c == '&' {
      EscapeAmpersand();
    } else if c == '<' {
      EscapeLessThan();
    } else if c == '>' {
      EscapeGreaterThan();
    } else if c == '"' {
      EscapeDoubleQuote();
    } else if c == '\'' {
      EscapeSingleQuote();
    } else {
      ReplaceAllSingle(c, '&', "&amp;");
      ReplaceAllSingle(c, '<', "&lt;");
      ReplaceAllSingle(c, '>', "&gt;");
      ReplaceAllSingle(c, '"', "&quot;");
      ReplaceAllSingle(c, '\'', "&#039;");
    }
  }

  // The entity written by each step contains none of the characters that the
  // later steps replace, so it reaches the output unchanged.

  lemma StepsAfterAmpersandKeep(e: string)
    requires '<' !in e && '>' !in e && '"' !in e && '\'' !in e
    ensures ReplaceAll(ReplaceAll(ReplaceAll(ReplaceAll(e, '<', "&lt;"), '>', "&gt;"), '"', "&quot;"), '\'', "&#039;") == e
  {
    ReplaceAllAbsent(e, '<', "&lt;");
    StepsAfterLessThanKeep(e);
  }

  lemma StepsAfterLessThanKeep(e: string)
    requires '>' !in e && '"' !in e && '\'' !in e
    ensures ReplaceAll(ReplaceAll(ReplaceAll(e, '>', "&gt;"), '"', "&quot;"), '\'', "&#039;") == e
  {
    ReplaceAllAbsent(e, '>', "&gt;");
    StepsAfterGreaterThanKeep(e);
  }

  lemma StepsAfterGreaterThanKeep(e: string)
    requires '"' !in e && '\'' !in e
    ensures ReplaceAll(ReplaceAll(e, '"', "&quot;"), '\'', "&#039;") == e
  {
    ReplaceAllAbsent(e, '"', "&quot;");
    ReplaceAllAbsent(e, '\'', "&#039;");
  }

  lemma StepAfterDoubleQuoteKeeps(e: string)
    requires '\'' !in e
    ensures ReplaceAll(e, '\'', "&#039;") == e
  {
    ReplaceAllAbsent(e, '\'', "&#039;");
  }

  lemma EscapeAmpersand()
    ensures EscapeHtml("&") == "&amp;"
  {
    ReplaceAllSingle('&', '&', "&amp;");
    StepsAfterAmpersandKeep("&amp;");
  }

  lemma EscapeLessThan()
    ensures EscapeHtml("<") == "&lt;"
  {
    ReplaceAllSingle('<', '&', "&amp;");
    ReplaceAllSingle('<', '<', "&lt;");
    StepsAfterLessThanKeep("&lt;");
  }

  lemma EscapeGreaterThan()
    ensures EscapeHtml(">") == "&gt;"
  {
    ReplaceAllSingle('>', '&', "&amp;");
    ReplaceAllSingle('>', '<', "&lt;");
    ReplaceAllSingle('>', '>', "&gt;");
    StepsAfterGreaterThanKeep("&gt;");
  }

  lemma EscapeDoubleQuote()
    ensures EscapeHtml("\"") == "&quot;"
  {
    ReplaceAllSingle('"', '&', "&amp;");
    ReplaceAllSingle('"', '<', "&lt;");
    ReplaceAllSingle('"', '>', "&gt;");
    ReplaceAllSingle('"', '"', "&quot;");
    StepAfterDoubleQuoteKeeps("&quot;");
  }

  lemma EscapeSingleQuote()
    ensures EscapeHtml("'") == "&#039;"
  {
    ReplaceAllSingle('\'', '&', "&amp;");
    ReplaceAllSingle('\'', '<', "&lt;");
    ReplaceAllSingle('\'', '>', "&gt;");
    ReplaceAllSingle('\'', '"', "&quot;");
    ReplaceAllSingle('\'', '\'', "&#039;");
  }

  /** The chain of replacements equals escaping character by character. */
  lemma {:induction false} EscapeHtmlIsPerChar(s: string)
    ensures EscapeHtml(s) == EscapeEach(s)
  {
    if s != [] {
      assert s == [s[0]] + s[1..];
      EscapeHtmlConcat([s[0]], s[1..]);
      EscapeHtmlOfChar(s[0]);
      EscapeHtmlIsPerChar(s[1..]);
    }
  }

  /** Unescaping reads one escaped character back off the front. */
  lemma UnescapeEscapedChar(c: char, u: string)
    ensures UnescapeHtml(EscapeChar(c) + u) == [c] + UnescapeHtml(u)
  {
    if c == '&' {
      UnescapeAmpersand(u);
    } else if c == '<' {
      UnescapeLessThan(u);
    } else if c == '>' {
      UnescapeGreaterThan(u);
    } else if c == '"' {
      UnescapeDoubleQuote(u);
    } else if c == '\'' {
      UnescapeSingleQuote(u);
    } else {
      UnescapePlainChar(c, u);
    }
  }

  lemma UnescapePlainChar(c: char, u: string)
    requires c != '&'
    ensures UnescapeHtml([c] + u) == [c] + UnescapeHtml(u)
  {
    var s := [c] + u;
    assert s != [] && s[0] == c && s[1..] == u;
    assert !StartsWith(s, "&amp;") && !StartsWith(s, "&lt;") && !StartsWith(s, "&gt;");
    assert !StartsWith(s, "&quot;") && !StartsWith(s, "&#039;");
  }

  lemma UnescapeAmpersand(u: string)
    ensures UnescapeHtml("&amp;" + u) == "&" + UnescapeHtml(u)
  {
    var s := "&amp;" + u;
    assert s[..5] == "&amp;" && s[5..] == u;
  }

  // Every entity starts with `&`; its second character tells it apart from
  // the entities that are tried before it.

  lemma UnescapeLessThan(u: string)
    ensures UnescapeHtml("&lt;" + u) == "<" + UnescapeHtml(u)
  {
    var s := "&lt;" + u;
    assert !StartsWith(s, "&amp;") by { assert s[1] == 'l'; }
    assert s[..4] == "&lt;" && s[4..] == u;
  }

  lemma UnescapeGreaterThan(u: string)
    ensures UnescapeHtml("&gt;" + u) == ">" + UnescapeHtml(u)
  {
    var s := "&gt;" + u;
    assert !StartsWith(s, "&amp;") && !StartsWith(s, "&lt;") by { assert s[1] == 'g'; }
    assert s[..4] == "&gt;" && s[4..] == u;
  }

  lemma UnescapeDoubleQuote(u: string)
    ensures UnescapeHtml("&quot;" + u) == "\"" + UnescapeHtml(u)
  {
    var s := "&quot;" + u;
    assert !StartsWith(s, "&amp;") && !StartsWith(s, "&lt;") && !StartsWith(s, "&gt;") by { assert s[1] == 'q'; }
    assert s[..6] == "&quot;" && s[6..] == u;
  }

  lemma UnescapeSingleQuote(u: string)
    ensures UnescapeHtml("&#039;" + u) == "'" + UnescapeHtml(u)
  {
    var s := "&#039;" + u;
    assert !StartsWith(s, "&amp;") && !StartsWith(s, "&lt;") && !StartsWith(s, "&gt;") && !StartsWith(s, "&quot;") by {
      assert s[1] == '#';
    }
    assert s[..6] == "&#039;" && s[6..] == u;
  }

  /** Escaping loses nothing: unescaping the escaped text gives the input back. */
  lemma {:induction false} UnescapeEscapeHtml(s: string)
    ensures UnescapeHtml(EscapeHtml(s)) == s
  {
    EscapeHtmlIsPerChar(s);
    UnescapeEscapeEach(s);
  }

  lemma {:induction false} UnescapeEscapeEach(s: string)
    ensures UnescapeHtml(EscapeEach(s)) == s
  {
    if s != [] {
      UnescapeEscapedChar(s[0], EscapeEach(s[1..]));
      UnescapeEscapeEach(s[1..]);
      assert s == [s[0]] + s[1..];
    }
  }

  /** Two different texts never escape to the same text. */
  lemma EscapeHtmlInjective(a: string, b: string)
    ensures EscapeHtml(a) == EscapeHtml(b) ==> a == b
  {
    UnescapeEscapeHtml(a);
    UnescapeEscapeHtml(b);
  }
}
