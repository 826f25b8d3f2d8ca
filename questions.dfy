/**
 * Questions of a lesson, their load-time validation (`validate` in
 * Game/game.js) and the short-answer check of `buildType3`.
 */
module Questions {
  import opened Wrappers
  import opened Text

  /** A non-null JSON `answer` value. The checks compare with `===`, so the
      kind of value matters (the number 1 is not the string "1"). */
  datatype Answer =
    | Number(n: int)
    | Boolean(b: bool)
    | Str(s: string)
    | Strings(items: seq<string>)

  /** A question as stored in practice.json: its numeric `type`, its
      `options` and its `answer`, which is `None` when missing or null.
      The prompt and explanation are display text and are not modelled. */
  datatype RawQuestion = RawQuestion(kind: int, options: seq<string>, answer: Option<Answer>)

  /** A question after validation. Type 1 is `Choice`, type 2 `TrueFalse`,
      type 3 `Short` (its accepted answers trimmed and lower-cased); any
      other type tag is `Untyped`, for which no answer control is built. */
  datatype Question =
    | Choice(options: seq<string>, answer: Answer)
    | TrueFalse(answer: Answer)
    | Short(accepted: seq<string>)
    | Untyped(kind: int, answer: Answer)

  /** `String(a).trim().toLowerCase()`, the form the loader stores. */
  function StoredForm(a: string): string {
    Lower(Trim(a))
  }

  /** The text of a JSON scalar, as `String(a)` gives it. */
  function AnswerTexts(a: Answer): seq<string> {
    match a
    case Strings(items) => items
    case Str(s) => [s]
    case Number(n) => [IntToString(n)]
    case Boolean(b) => [if b then "true" else "false"]
  }

  /** The accepted answers of a type-3 question: an array is mapped
      element-wise, a single value becomes a one-element array; every
      stored answer is already in stored form. */
  function AcceptedForms(a: Answer): (r: seq<string>)
    ensures |r| >= 1 || a.Strings?
    ensures forall k :: 0 <= k < |r| ==> StoredForm(r[k]) == r[k]
  {
    var texts := AnswerTexts(a);
    var r := seq(|texts|, k requires 0 <= k < |texts| => StoredForm(texts[k]));
    assert forall k :: 0 <= k < |r| ==> StoredForm(r[k]) == r[k] by {
      forall k | 0 <= k < |r| ensures StoredForm(r[k]) == r[k] { StoredFormFixed(texts[k]); }
    }
    r
  }

  lemma StoredFormFixed(a: string)
    ensures StoredForm(StoredForm(a)) == StoredForm(a)
  {
    var t := Lower(Trim(a));
    LowerTrimShape(a);
    TrimFixed(t);
    LowerFixed(t);
    calc {
      StoredForm(t);
      Lower(Trim(t));
      Lower(t);
      t;
    }
  }

  /** One kept question, with the type-3 answer rewritten as the loader does. */
  function Normalized(q: RawQuestion): Question
    requires q.answer.Some?
  {
    var a := q.answer.value;
    if q.kind == 1 then Choice(q.options, a)
    else if q.kind == 2 then TrueFalse(a)
    else if q.kind == 3 then Short(AcceptedForms(a))
    else Untyped(q.kind, a)
  }

  /** `validate`: keeps, in order, exactly the questions whose answer is
      present, each normalised. */
  function Validate(raw: seq<RawQuestion>): (r: seq<Question>)
    ensures |r| <= |raw|
    decreases |raw|
  {
    if raw == [] then [] else Keep(raw[0]) + Validate(raw[1..])
  }

  /** What `filter` keeps of one question. */
  function Keep(q: RawQuestion): (r: seq<Question>)
    ensures |r| <= 1
  {
    if q.answer.Some? then [Normalized(q)] else []
  }

  /** Every kept question is the normalised form of an input question that
      has an answer. */
  lemma {:induction false} ValidateKept(raw: seq<RawQuestion>)
    ensures forall q :: q in Validate(raw) ==> exists x :: x in raw && x.answer.Some? && q == Normalized(x)
    decreases |raw|
  {
    if raw != [] {
      ValidateKept(raw[1..]);
      forall q | q in Validate(raw)
        ensures exists x :: x in raw && x.answer.Some? && q == Normalized(x)
      {
        if raw[0].answer.Some? && q == Normalized(raw[0]) {
          assert raw[0] in raw;
        } else {
          assert q in Validate(raw[1..]);
          var x :| x in raw[1..] && x.answer.Some? && q == Normalized(x);
          assert x in raw;
        }
      }
    }
  }

  /** When every question has an answer, all are kept, in order. */
  lemma {:induction false} ValidateAllAnswered(raw: seq<RawQuestion>)
    requires forall j :: 0 <= j < |raw| ==> raw[j].answer.Some?
    ensures |Validate(raw)| == |raw|
    ensures forall j :: 0 <= j < |raw| ==> Validate(raw)[j] == Normalized(raw[j])
    decreases |raw|
  {
    if raw != [] {
      ValidateAllAnswered(raw[1..]);
      assert Validate(raw) == [Normalized(raw[0])] + Validate(raw[1..]);
    }
  }

  /** When no question has an answer, nothing is kept. */
  lemma {:induction false} ValidateNoneAnswered(raw: seq<RawQuestion>)
    requires forall j :: 0 <= j < |raw| ==> raw[j].answer.None?
    ensures Validate(raw) == []
    decreases |raw|
  {
    if raw != [] {
      ValidateNoneAnswered(raw[1..]);
    }
  }

  lemma {:induction false} ValidateAppend(a: seq<RawQuestion>, b: seq<RawQuestion>)
    ensures Validate(a + b) == Validate(a) + Validate(b)
    decreases |a|
  {
    if a == [] {
      assert a + b == b;
    } else {
      var ab := a + b;
      assert ab != [] && ab[0] == a[0] && ab[1..] == a[1..] + b;
      calc {
        Validate(ab);
        Keep(a[0]) + Validate(a[1..] + b);
        { ValidateAppend(a[1..], b); }
        Keep(a[0]) + (Validate(a[1..]) + Validate(b));
        (Keep(a[0]) + Validate(a[1..])) + Validate(b);
        Validate(a) + Validate(b);
      }
    }
  }


  /** `correct.some(a => raw === a)` where `correct` is every accepted answer
      normalised again: exact equality with one of them, never containment. */
  function ShortCorrect(accepted: seq<string>, raw: string): (r: bool)
    ensures r <==> exists k :: 0 <= k < |accepted| && Normalize(accepted[k]) == raw
    decreases |accepted|
  {
    if accepted == [] then false
    else Normalize(accepted[0]) == raw || ShortCorrect(accepted[1..], raw)
  }

  /** What the loader stored (trimmed, lower-cased, not collapsed) is accepted
      by the check exactly when the raw answer would have been. */
  lemma ShortCorrectIgnoresStoredForm(items: seq<string>, raw: string)
    ensures ShortCorrect(seq(|items|, k requires 0 <= k < |items| => StoredForm(items[k])), raw)
            == ShortCorrect(items, raw)
  {
    var stored := seq(|items|, k requires 0 <= k < |items| => StoredForm(items[k]));
    forall k | 0 <= k < |items|
      ensures Normalize(stored[k]) == Normalize(items[k])
    {
      NormalizeAbsorbsTrimLower(items[k]);
    }
  }

  /** An input is accepted for a type-3 question exactly when its
      normalisation equals the normalisation of one raw accepted answer. */
  lemma ShortAcceptsNormalizedInput(items: seq<string>, input: string)
    ensures ShortCorrect(AcceptedForms(Strings(items)), Normalize(input))
            <==> exists k :: 0 <= k < |items| && Normalize(items[k]) == Normalize(input)
  {
    ShortCorrectIgnoresStoredForm(items, Normalize(input));
  }

  /** Case does not matter: "paris" is accepted for the answer "Paris". */
  lemma ShortIgnoresCase()
    ensures ShortCorrect(["Paris"], Normalize("paris"))
  {
    NormalizeParis();
  }

  /** A submission that merely contains the accepted answer is wrong: any
      input normalising to "paris france" is rejected for the answer "paris". */
  lemma ShortRejectsSuperstring(input: string)
    requires Normalize(input) == "paris france"
    ensures !ShortCorrect(["paris"], Normalize(input))
  {
    NormalizeParis();
  }

  lemma NormalizeParis()
    ensures Normalize("paris") == "paris" && Normalize("Paris") == "paris"
  {
    ParisNormalForm();
    NormalFormIsFixed("paris");
    ParisLower();
    NormalizeAbsorbsTrimLower("Paris");
  }

  lemma ParisNormalForm()
    ensures IsNormalForm("paris")
  {
    var p := "paris";
    assert forall k :: 0 <= k < |p| ==> !IsUpper(p[k]) && !IsSpace(p[k]);
  }

  lemma ParisLower()
    ensures Lower(Trim("Paris")) == "paris"
  {
    ParisTrimmed();
    var l := Lower("Paris");
    assert LowerChar('P') == 'p';
    assert l == "paris";
  }

  lemma ParisTrimmed()
    ensures Trim("Paris") == "Paris"
  {
    var c := "Paris";
    assert c[0] == 'P' && c[4] == 's';
    TrimFixed(c);
  }
}
