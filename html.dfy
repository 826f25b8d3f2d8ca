/**
 * The HTML escaper shared by the three pages (`esc` in Game/game.js and
 * Practice/practice.js, `escHtml` in Theory/theory.js): four global
 * replacements applied in sequence, `&` first.
 */
module Html {

  /** `s.replace(/c/g, rep)`: every occurrence of `c` becomes `rep`. */
  function ReplaceAll(s: string, c: char, rep: string): string
    decreases |s|
  {
    if s == [] then []
    else (if s[0] == c then rep else [s[0]]) + ReplaceAll(s[1..], c, rep)
  }

  /** The escaper as the source writes it. */
  function Escape(s: string): string {
    ReplaceAll(ReplaceAll(ReplaceAll(ReplaceAll(s, '&', "&amp;"), '<', "&lt;"), '>', "&gt;"), '"', "&quot;")
  }

  /** Independent reference: the entity for each character, left to right. */
  function EscapeChar(c: char): string {
    if c == '&' then "&amp;"
    else if c == '<' then "&lt;"
    else if c == '>' then "&gt;"
    else if c == '"' then "&quot;"
    else [c]
  }

  function EscapeEach(s: string): string
    decreases |s|
  {
    if s == [] then [] else EscapeChar(s[0]) + EscapeEach(s[1..])
  }

  lemma {:induction false} ReplaceAllAppend(a: string, b: string, c: char, rep: string)
    ensures ReplaceAll(a + b, c, rep) == ReplaceAll(a, c, rep) + ReplaceAll(b, c, rep)
    decreases |a|
  {
    if a == [] {
      assert a + b == b;
    } else {
      ReplaceAllAppend(a[1..], b, c, rep);
      assert (a + b)[1..] == a[1..] + b;
    }
  }

  /** Replacing `c` in a string that does not contain it changes nothing. */
  lemma {:induction false} ReplaceAllAbsent(s: string, c: char, rep: string)
    requires c !in s
    ensures ReplaceAll(s, c, rep) == s
    decreases |s|
  {
    if s != [] {
      ReplaceAllAbsent(s[1..], c, rep);
      assert s == [s[0]] + s[1..];
    }
  }

  /** Because `&` is replaced first, the `&` of each entity that a later
      pass inserts is never escaped again: the chain of four passes equals
      escaping each character once. */
  lemma {:induction false} EscapeIsPerCharacter(s: string)
    ensures Escape(s) == EscapeEach(s)
    decreases |s|
  {
    if s != [] {
      var c, rest := s[0], s[1..];
      assert s == [c] + rest;
      EscapeIsPerCharacter(rest);
      ReplaceAllAppend([c], rest, '&', "&amp;");
      var a1, r1 := ReplaceAll([c], '&', "&amp;"), ReplaceAll(rest, '&', "&amp;");
      ReplaceAllAppend(a1, r1, '<', "&lt;");
      var a2, r2 := ReplaceAll(a1, '<', "&lt;"), ReplaceAll(r1, '<', "&lt;");
      ReplaceAllAppend(a2, r2, '>', "&gt;");
      var a3, r3 := ReplaceAll(a2, '>', "&gt;"), ReplaceAll(r2, '>', "&gt;");
      ReplaceAllAppend(a3, r3, '"', "&quot;");
      EscapeCharChain(c);
    }
  }

  /** The four passes on a one-character string give its entity. */
  lemma EscapeCharChain(c: char)
    ensures ReplaceAll(ReplaceAll(ReplaceAll(ReplaceAll([c], '&', "&amp;"), '<', "&lt;"), '>', "&gt;"), '"', "&quot;")
            == EscapeChar(c)
  {
    if c == '&' { ChainAmp(c); }
    else if c == '<' { ChainLt(c); }
    else if c == '>' { ChainGt(c); }
    else if c == '"' { ChainQuot(c); }
    else { ChainPlain(c); }
  }

  lemma ChainAmp(c: char)
    requires c == '&'
    ensures ReplaceAll(ReplaceAll(ReplaceAll(ReplaceAll([c], '&', "&amp;"), '<', "&lt;"), '>', "&gt;"), '"', "&quot;") == "&amp;"
  {
    assert ReplaceAll([c], '&', "&amp;") == "&amp;";
    assert ReplaceAll("&amp;", '<', "&lt;") == "&amp;";
    assert ReplaceAll("&amp;", '>', "&gt;") == "&amp;";
  }

  lemma ChainLt(c: char)
    requires c == '<'
    ensures ReplaceAll(ReplaceAll(ReplaceAll(ReplaceAll([c], '&', "&amp;"), '<', "&lt;"), '>', "&gt;"), '"', "&quot;") == "&lt;"
  {
    assert ReplaceAll([c], '&', "&amp;") == [c];
    assert ReplaceAll([c], '<', "&lt;") == "&lt;";
    assert ReplaceAll("&lt;", '>', "&gt;") == "&lt;";
  }

  lemma ChainGt(c: char)
    requires c == '>'
    ensures ReplaceAll(ReplaceAll(ReplaceAll(ReplaceAll([c], '&', "&amp;"), '<', "&lt;"), '>', "&gt;"), '"', "&quot;") == "&gt;"
  {
    assert ReplaceAll([c], '&', "&amp;") == [c];
    assert ReplaceAll([c], '<', "&lt;") == [c];
    assert ReplaceAll([c], '>', "&gt;") == "&gt;";
  }

  lemma ChainQuot(c: char)
    requires c == '"'
    ensures ReplaceAll(ReplaceAll(ReplaceAll(ReplaceAll([c], '&', "&amp;"), '<', "&lt;"), '>', "&gt;"), '"', "&quot;") == "&quot;"
  {
  }

  lemma ChainPlain(c: char)
    requires c != '&' && c != '<' && c != '>' && c != '"'
    ensures ReplaceAll(ReplaceAll(ReplaceAll(ReplaceAll([c], '&', "&amp;"), '<', "&lt;"), '>', "&gt;"), '"', "&quot;") == [c]
  {
  }

  /** The escaped text contains no raw `<`, `>` or `"`. */
  lemma {:induction false} EscapeHasNoMarkup(s: string)
    ensures '<' !in Escape(s) && '>' !in Escape(s) && '"' !in Escape(s)
  {
    EscapeIsPerCharacter(s);
    EscapeEachNoMarkup(s);
  }

  lemma {:induction false} EscapeEachNoMarkup(s: string)
    ensures '<' !in EscapeEach(s) && '>' !in EscapeEach(s) && '"' !in EscapeEach(s)
    decreases |s|
  {
    if s != [] {
      EscapeEachNoMarkup(s[1..]);
      var e := EscapeChar(s[0]);
      assert '<' !in e && '>' !in e && '"' !in e;
    }
  }

  /** Text without the four special characters is left as it is. */
  lemma {:induction false} EscapePlainText(s: string)
    requires '&' !in s && '<' !in s && '>' !in s && '"' !in s
    ensures Escape(s) == s
  {
    ReplaceAllAbsent(s, '&', "&amp;");
    ReplaceAllAbsent(s, '<', "&lt;");
    ReplaceAllAbsent(s, '>', "&gt;");
    ReplaceAllAbsent(s, '"', "&quot;");
  }
}
