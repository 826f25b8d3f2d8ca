/**
 * The string normalisation the game applies to short answers:
 * `trim()`, then `toLowerCase()`, then `replace(/\s+/g, ' ')`.
 *
 * Characters are Unicode scalar values. Whitespace is the set JavaScript's
 * `trim` and `\s` share (WhiteSpace and LineTerminator); case is modelled for
 * ASCII letters only.
 */
module Text {

  /** JavaScript whitespace: TAB, LF, VT, FF, CR, SPACE, NBSP, the Unicode
      space separators, LINE/PARAGRAPH SEPARATOR and the byte order mark. */
  predicate IsSpace(c: char) {
    c == ' ' || c == '\t' || c == '\n' || c == '\r'
    || c as int == 0x0B || c as int == 0x0C || c as int == 0xA0
    || c as int == 0x1680 || 0x2000 <= c as int <= 0x200A
    || c as int == 0x2028 || c as int == 0x2029 || c as int == 0x202F
    || c as int == 0x205F || c as int == 0x3000 || c as int == 0xFEFF
  }

  predicate IsUpper(c: char) {
    'A' <= c <= 'Z'
  }

  /** `toLowerCase` on one character (ASCII letters only). */
  function LowerChar(c: char): (d: char)
    ensures !IsUpper(d)
    ensures IsSpace(d) == IsSpace(c)
    ensures !IsUpper(c) ==> d == c
  {
    if IsUpper(c) then (c as int + 32) as char else c
  }

  function Lower(s: string): string {
    seq(|s|, k requires 0 <= k < |s| => LowerChar(s[k]))
  }

  /** `trimStart`: drops the longest whitespace prefix. */
  function TrimStart(s: string): (r: string)
    ensures |r| <= |s| && r == s[|s| - |r|..]
    ensures r == [] || !IsSpace(r[0])
    ensures forall k :: 0 <= k < |s| - |r| ==> IsSpace(s[k])
    decreases |s|
  {
    if |s| > 0 && IsSpace(s[0]) then TrimStart(s[1..]) else s
  }

  /** `trimEnd`: drops the longest whitespace suffix. */
  function TrimEnd(s: string): (r: string)
    ensures |r| <= |s| && r == s[..|r|]
    ensures r == [] || !IsSpace(r[|r| - 1])
    ensures forall k :: |r| <= k < |s| ==> IsSpace(s[k])
    decreases |s|
  {
    if |s| > 0 && IsSpace(s[|s| - 1]) then TrimEnd(s[..|s| - 1]) else s
  }

  /** `trim`: the result has no whitespace at either end, and it is empty
      exactly when the input is all whitespace. */
  function Trim(s: string): (r: string)
    ensures r == [] || (!IsSpace(r[0]) && !IsSpace(r[|r| - 1]))
    ensures (r == []) <==> (forall k :: 0 <= k < |s| ==> IsSpace(s[k]))
  {
    TrimEnd(TrimStart(s))
  }

  /** `replace(/\s+/g, ' ')`: every maximal run of whitespace becomes one space. */
  function Collapse(s: string): (r: string)
    ensures |r| <= |s|
    decreases |s|
  {
    if s == [] then []
    else if IsSpace(s[0]) then [' '] + Collapse(TrimStart(s))
    else [s[0]] + Collapse(s[1..])
  }

  /** Collapsing keeps emptiness and whether each end is whitespace. */
  lemma {:induction false} CollapseEnds(s: string)
    ensures (Collapse(s) == []) <==> (s == [])
    ensures s != [] ==> IsSpace(Collapse(s)[0]) == IsSpace(s[0])
    ensures s != [] ==> IsSpace(Collapse(s)[|Collapse(s)| - 1]) == IsSpace(s[|s| - 1])
    decreases |s|
  {
    if s != [] {
      var x := if IsSpace(s[0]) then ' ' else s[0];
      var t := if IsSpace(s[0]) then TrimStart(s) else s[1..];
      var rest := Collapse(t);
      assert Collapse(s) == [x] + rest;
      CollapseEnds(t);
      if t != [] {
        assert t[|t| - 1] == s[|s| - 1];
      } else if IsSpace(s[0]) {
        assert IsSpace(s[|s| - 1]);
      }
    }
  }

  /** Every whitespace character of the result is a plain space; every other
      character comes from the input. */
  lemma {:induction false} CollapseChars(s: string)
    ensures forall c :: c in Collapse(s) ==> c == ' ' || (!IsSpace(c) && c in s)
    decreases |s|
  {
    if s != [] {
      if IsSpace(s[0]) {
        var t := TrimStart(s);
        assert Collapse(s) == [' '] + Collapse(t);
        CollapseChars(t);
        SuffixChars(s, t);
      } else {
        var t := s[1..];
        assert Collapse(s) == [s[0]] + Collapse(t);
        CollapseChars(t);
        SuffixChars(s, t);
      }
    }
  }

  lemma SuffixChars(s: string, t: string)
    requires |t| <= |s| && t == s[|s| - |t|..]
    ensures forall c :: c in t ==> c in s
  {
    forall c | c in t
      ensures c in s
    {
      var j :| 0 <= j < |t| && t[j] == c;
      assert s[|s| - |t| + j] == c;
    }
  }

  /** The non-whitespace characters of a string, in order. */
  function NonSpace(s: string): (r: string)
    ensures |r| <= |s|
    decreases |s|
  {
    if s == [] then [] else (if IsSpace(s[0]) then [] else [s[0]]) + NonSpace(s[1..])
  }

  lemma NonSpaceCons(c: char, x: string)
    ensures NonSpace([c] + x) == (if IsSpace(c) then [] else [c]) + NonSpace(x)
  {
    assert ([c] + x)[1..] == x;
  }

  /** Trimming the start drops whitespace only. */
  lemma {:induction false} TrimStartNonSpace(s: string)
    ensures NonSpace(TrimStart(s)) == NonSpace(s)
    decreases |s|
  {
    if |s| > 0 && IsSpace(s[0]) {
      TrimStartNonSpace(s[1..]);
    }
  }

  /** Collapsing keeps every non-whitespace character, in order: with the
      whitespace removed, the result and the input are the same text. */
  lemma {:induction false} CollapseKeepsNonSpace(s: string)
    ensures NonSpace(Collapse(s)) == NonSpace(s)
    decreases |s|
  {
    if s != [] {
      if IsSpace(s[0]) {
        var t := TrimStart(s);
        assert Collapse(s) == [' '] + Collapse(t);
        CollapseKeepsNonSpace(t);
        TrimStartNonSpace(s);
        NonSpaceCons(' ', Collapse(t));
      } else {
        assert Collapse(s) == [s[0]] + Collapse(s[1..]);
        CollapseKeepsNonSpace(s[1..]);
        NonSpaceCons(s[0], Collapse(s[1..]));
      }
    }
  }

  /** No two whitespace characters are adjacent in the result. */
  lemma {:induction false} CollapseSingleSpaces(s: string)
    ensures forall k :: 0 <= k < |Collapse(s)| - 1 && IsSpace(Collapse(s)[k]) ==> !IsSpace(Collapse(s)[k + 1])
    decreases |s|
  {
    if s != [] {
      var r := Collapse(s);
      var t := if IsSpace(s[0]) then TrimStart(s) else s[1..];
      CollapseSingleSpaces(t);
      CollapseEnds(t);
      assert r[1..] == Collapse(t);
      forall k | 0 <= k < |r| - 1 && IsSpace(r[k])
        ensures !IsSpace(r[k + 1])
      {
        if k > 0 {
          assert r[k] == Collapse(t)[k - 1] && r[k + 1] == Collapse(t)[k];
        }
      }
    }
  }

  /** The normalisation of Game/game.js: trim, lowercase, collapse whitespace. */
  function Normalize(s: string): string {
    Collapse(Lower(Trim(s)))
  }

  /** The shape every normalised string has: no upper-case letter, no
      whitespace at either end, and every whitespace character a single
      plain space followed by a non-space. */
  predicate IsNormalForm(s: string) {
    (forall k :: 0 <= k < |s| ==> !IsUpper(s[k]))
    && (s == [] || (!IsSpace(s[0]) && !IsSpace(s[|s| - 1])))
    && (forall k :: 0 <= k < |s| && IsSpace(s[k]) ==> s[k] == ' ')
    && (forall k :: 0 <= k < |s| - 1 && IsSpace(s[k]) ==> !IsSpace(s[k + 1]))
  }

  lemma NormalizeIsNormalForm(s: string)
    ensures IsNormalForm(Normalize(s))
  {
    LowerTrimShape(s);
    CollapseNormal(Lower(Trim(s)));
  }

  /** Collapsing a string with no upper-case letter and no whitespace at
      either end yields a string in normal form. */
  lemma CollapseNormal(t: string)
    requires forall k :: 0 <= k < |t| ==> !IsUpper(t[k])
    requires t == [] || (!IsSpace(t[0]) && !IsSpace(t[|t| - 1]))
    ensures IsNormalForm(Collapse(t))
  {
    var r := Collapse(t);
    CollapseEnds(t);
    CollapseChars(t);
    CollapseSingleSpaces(t);
    forall k | 0 <= k < |r|
      ensures !IsUpper(r[k]) && (IsSpace(r[k]) ==> r[k] == ' ')
    {
      CharOfCollapse(t, r, k);
    }
  }

  /** One character of a collapsed string with no upper-case letter. */
  lemma CharOfCollapse(t: string, r: string, k: int)
    requires forall k :: 0 <= k < |t| ==> !IsUpper(t[k])
    requires forall c :: c in r ==> c == ' ' || (!IsSpace(c) && c in t)
    requires 0 <= k < |r|
    ensures !IsUpper(r[k]) && (IsSpace(r[k]) ==> r[k] == ' ')
  {
    assert r[k] in r;
    if r[k] != ' ' {
      var j :| 0 <= j < |t| && t[j] == r[k];
    }
  }

  /** A string already in normal form is left unchanged. */
  lemma {:induction false} NormalFormIsFixed(s: string)
    requires IsNormalForm(s)
    ensures Normalize(s) == s
  {
    TrimFixed(s);
    LowerFixed(s);
    CollapseFixed(s);
  }

  lemma {:induction false} CollapseFixed(s: string)
    requires forall k :: 0 <= k < |s| && IsSpace(s[k]) ==> s[k] == ' ' && k + 1 < |s| && !IsSpace(s[k + 1])
    ensures Collapse(s) == s
    decreases |s|
  {
    if s != [] {
      CollapseFixed(s[1..]);
      if IsSpace(s[0]) {
        assert TrimStart(s[1..]) == s[1..];
        assert TrimStart(s) == s[1..];
      }
    }
  }

  lemma NormalizeIdempotent(s: string)
    ensures Normalize(Normalize(s)) == Normalize(s)
  {
    NormalizeIsNormalForm(s);
    NormalFormIsFixed(Normalize(s));
  }

  /** The normalised input is empty exactly when the input is all whitespace
      (including the empty input). */
  lemma NormalizeEmptyIffBlank(s: string)
    ensures Normalize(s) == [] <==> forall k :: 0 <= k < |s| ==> IsSpace(s[k])
  {
    CollapseEnds(Lower(Trim(s)));
  }

  /** Normalising what the loader stored (`trim().toLowerCase()`) gives the
      same string as normalising the raw answer. */
  lemma NormalizeAbsorbsTrimLower(s: string)
    ensures Normalize(Lower(Trim(s))) == Normalize(s)
  {
    var t := Lower(Trim(s));
    LowerTrimShape(s);
    TrimFixed(t);
    LowerFixed(t);
  }

  /** `trim().toLowerCase()` leaves no whitespace at either end and no
      upper-case letter. */
  lemma LowerTrimShape(s: string)
    ensures var t := Lower(Trim(s));
      && (t == [] || (!IsSpace(t[0]) && !IsSpace(t[|t| - 1])))
      && forall k :: 0 <= k < |t| ==> !IsUpper(t[k])
  {
    var u := Trim(s);
    var t := Lower(u);
    if t != [] {
      assert t[0] == LowerChar(u[0]) && t[|t| - 1] == LowerChar(u[|u| - 1]);
    }
  }

  /** Trimming a string with no whitespace at either end leaves it unchanged. */
  lemma TrimFixed(t: string)
    requires t == [] || (!IsSpace(t[0]) && !IsSpace(t[|t| - 1]))
    ensures Trim(t) == t
  {
    assert TrimStart(t) == t;
  }

  /** Lower-casing a string with no upper-case letter leaves it unchanged. */
  lemma LowerFixed(t: string)
    requires forall k :: 0 <= k < |t| ==> !IsUpper(t[k])
    ensures Lower(t) == t
  {
  }

  /** Decimal notation of an integer, as `String(n)` gives it. */
  function IntToString(n: int): string
    decreases if n < 0 then 1 - n else n
  {
    if n < 0 then "-" + IntToString(-n)
    else if n < 10 then [(48 + n) as char]
    else IntToString(n / 10) + [(48 + n % 10) as char]
  }
}
