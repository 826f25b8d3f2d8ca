/**
 * The URL-fragment encoding shared by the two content browsers
 * (Practice/practice.js and Theory/theory.js): `navigate` writes
 * `'#' + [view, ids...].filter(Boolean).join('/')` and `restoreFromHash`
 * reads `location.hash.replace('#', '').split('/').filter(Boolean)`.
 */
module HashRoute {
  import opened Wrappers

  /** An id as `filter(Boolean)` sees it: `null` and `''` are both dropped. */
  function IdText(id: Option<string>): string {
    id.GetOr("")
  }

  /** `x || null` on a text that may be empty. */
  function OrNull(s: string): (r: Option<string>)
    ensures r.None? <==> s == ""
    ensures r.Some? ==> r.value == s
  {
    if s == "" then None else Some(s)
  }

  /** An id written into a `data-` attribute as `${x || ''}` and read back
      with `x || null`. */
  function Truthy(id: Option<string>): (r: Option<string>)
    ensures r.None? <==> IdText(id) == ""
    ensures r.Some? ==> r == id
  {
    OrNull(IdText(id))
  }

  /** `parts.filter(Boolean)` on strings: drops the empty ones, keeps order. */
  function NonEmpty(parts: seq<string>): (r: seq<string>)
    ensures |r| <= |parts|
    ensures forall p :: p in r ==> p != "" && p in parts
    decreases |parts|
  {
    if parts == [] then []
    else if parts[0] == "" then NonEmpty(parts[1..])
    else [parts[0]] + NonEmpty(parts[1..])
  }

  /** `parts.join(sep)`. */
  function Join(parts: seq<string>, sep: char): string
    decreases |parts|
  {
    if |parts| == 0 then ""
    else if |parts| == 1 then parts[0]
    else parts[0] + [sep] + Join(parts[1..], sep)
  }

  /** `s.split(sep)`: the pieces between separators; never empty. */
  function Split(s: string, sep: char): (r: seq<string>)
    ensures |r| >= 1
    decreases |s|
  {
    if s == [] then [""]
    else
      var rest := Split(s[1..], sep);
      if s[0] == sep then [""] + rest
      else [[s[0]] + rest[0]] + rest[1..]
  }

  /** `s.replace(c, '')` with a one-character pattern: drops the first `c`. */
  function RemoveFirst(s: string, c: char): string
    decreases |s|
  {
    if s == [] then []
    else if s[0] == c then s[1..]
    else [s[0]] + RemoveFirst(s[1..], c)
  }

  /** The fragment `navigate` writes for the given components. */
  function HashOf(parts: seq<string>): string {
    "#" + Join(NonEmpty(parts), '/')
  }

  /** The segments `restoreFromHash` reads from `location.hash`. */
  function Segments(hash: string): seq<string> {
    NonEmpty(Split(RemoveFirst(hash, '#'), '/'))
  }

  lemma {:induction false} NonEmptyOfNonEmpty(parts: seq<string>)
    requires forall k :: 0 <= k < |parts| ==> parts[k] != ""
    ensures NonEmpty(parts) == parts
    decreases |parts|
  {
    if parts != [] {
      NonEmptyOfNonEmpty(parts[1..]);
    }
  }

  lemma {:induction false} SplitNoSeparator(w: string, sep: char)
    requires sep !in w
    ensures Split(w, sep) == [w]
    decreases |w|
  {
    if w != [] {
      assert w == [w[0]] + w[1..];
      SplitNoSeparator(w[1..], sep);
    }
  }

  lemma {:induction false} SplitAtSeparator(w: string, t: string, sep: char)
    requires sep !in w
    ensures Split(w + [sep] + t, sep) == [w] + Split(t, sep)
    decreases |w|
  {
    if w == [] {
      assert w + [sep] + t == [sep] + t;
      assert ([sep] + t)[1..] == t;
    } else {
      assert w == [w[0]] + w[1..];
      SplitAtSeparator(w[1..], t, sep);
      assert (w + [sep] + t)[1..] == w[1..] + [sep] + t;
    }
  }

  /** Splitting a join of separator-free pieces gives the pieces back. */
  lemma {:induction false} SplitJoin(parts: seq<string>, sep: char)
    requires |parts| >= 1
    requires forall p :: p in parts ==> sep !in p
    ensures Split(Join(parts, sep), sep) == parts
    decreases |parts|
  {
    if |parts| == 1 {
      SplitNoSeparator(parts[0], sep);
    } else {
      SplitJoin(parts[1..], sep);
      SplitAtSeparator(parts[0], Join(parts[1..], sep), sep);
      assert parts == [parts[0]] + parts[1..];
    }
  }

  /** Reading back the fragment `navigate` wrote yields exactly its non-empty
      components, provided none of them contains `/`. */
  lemma HashRoundTrip(parts: seq<string>)
    requires forall p :: p in parts ==> '/' !in p
    ensures Segments(HashOf(parts)) == NonEmpty(parts)
  {
    var q := NonEmpty(parts);
    assert RemoveFirst(HashOf(parts), '#') == Join(q, '/');
    if q == [] {
      assert Split("", '/') == [""];
    } else {
      SplitJoin(q, '/');
      assert forall k :: 0 <= k < |q| ==> q[k] in q;
      NonEmptyOfNonEmpty(q);
    }
  }
}
