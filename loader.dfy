/**
 * Entry and loading code of Game/game.js: `parseParams`, the post-fetch part
 * of `loadData` (lookup, empty-lesson check, `validate`, `shuffle`, title
 * lookup) and `shuffle` itself.
 */
module Loader {
  import opened Wrappers
  import opened Questions
  import opened Content

  const ValidClasses: seq<string> := ["class10", "class11", "class12"]
  const ValidSubjects: seq<string> := ["math", "physics", "chemistry", "biology", "technology",
                                      "informatics", "literature", "english", "history", "geography"]

  /** The three ids of the lesson being played. */
  datatype Params = Params(classId: string, subjectId: string, lessonId: string)

  /** Why `parseParams` refused the query string; the message names the
      offending id. */
  datatype ParamError = BadClass(classId: string) | BadSubject(subjectId: string) | MissingLesson

  /** `p.get(name) || ''`: an absent parameter reads as the empty string. */
  function QueryGet(query: map<string, string>, name: string): string {
    if name in query then query[name] else ""
  }

  /** `parseParams`: the class is checked first, then the subject, then the
      lesson; it succeeds exactly when all three checks pass. */
  function ParseParams(query: map<string, string>): (r: Result<Params, ParamError>)
    ensures r.Success? <==>
      QueryGet(query, "class") in ValidClasses && QueryGet(query, "subject") in ValidSubjects
      && QueryGet(query, "lesson") != ""
    ensures r.Success? ==>
      r.value == Params(QueryGet(query, "class"), QueryGet(query, "subject"), QueryGet(query, "lesson"))
    ensures QueryGet(query, "class") !in ValidClasses ==> r == Failure(BadClass(QueryGet(query, "class")))
    ensures QueryGet(query, "class") in ValidClasses && QueryGet(query, "subject") !in ValidSubjects ==>
      r == Failure(BadSubject(QueryGet(query, "subject")))
  {
    var c, s, l := QueryGet(query, "class"), QueryGet(query, "subject"), QueryGet(query, "lesson");
    if c !in ValidClasses then Failure(BadClass(c))
    else if s !in ValidSubjects then Failure(BadSubject(s))
    else if l == "" then Failure(MissingLesson)
    else Success(Params(c, s, l))
  }

  /** The accepted class and subject ids contain no `_`, so the completion
      key written for them identifies the lesson. */
  lemma ValidIdsHaveNoUnderscore(c: string, s: string)
    requires c in ValidClasses && s in ValidSubjects
    ensures '_' !in c && '_' !in s
  {
    assert c == ValidClasses[0] || c == ValidClasses[1] || c == ValidClasses[2];
    var k :| 0 <= k < |ValidSubjects| && ValidSubjects[k] == s;
  }

  /** `shuffle`: swaps each position from the last down to 1 with one at or
      before it, on a copy. `pick(i) % (i + 1)` stands for
      `Math.floor(Math.random() * (i + 1))`. Whatever is picked, the result
      is a permutation of the input. */
  method Shuffle<T>(arr: seq<T>, pick: nat -> nat) returns (r: seq<T>)
    ensures |r| == |arr|
    ensures multiset(r) == multiset(arr)
  {
    var a := new T[|arr|](k requires 0 <= k < |arr| => arr[k]);
    assert a[..] == arr;
    var i := |arr| - 1;
    while i > 0
      invariant -1 <= i < |arr|
      invariant a.Length == |arr|
      invariant multiset(a[..]) == multiset(arr)
      decreases i
    {
      var j := pick(i) % (i + 1);
      a[i], a[j] := a[j], a[i];
      i := i - 1;
    }
    r := a[..];
  }

  /** Why `loadData` threw: the fetch failed, the lesson is not in the
      database, or both of its question lists are empty. */
  datatype LoadError = FetchFailed | LessonNotFound | NoQuestions

  /** What `loadData` leaves in the game record: both question lists, shuffled,
      and the lesson title. */
  datatype Lesson = Lesson(normalQs: seq<Question>, bossQs: seq<Question>, title: string)

  /** The properties every parsed JSON object inherits from
      `Object.prototype`. Each such property is truthy (a function, or the
      prototype itself for `__proto__`) and has no `normal` or `boss`. */
  const InheritedNames: set<string> := {
    "constructor", "hasOwnProperty", "isPrototypeOf", "propertyIsEnumerable",
    "toLocaleString", "toString", "valueOf", "__proto__",
    "__defineGetter__", "__defineSetter__", "__lookupGetter__", "__lookupSetter__"}

  /** `db[classId]?.[subjectId]?.[lessonId]`, truthy or not. An own key
      gives its lesson; a lesson id naming an inherited property gives a
      value without question arrays. */
  function FindLessonData(db: PracticeDb, p: Params): (r: Option<LessonData>)
    ensures r.None? <==>
      !(p.classId in db && p.subjectId in db[p.classId]
        && (p.lessonId in db[p.classId][p.subjectId] || p.lessonId in InheritedNames))
    ensures p.classId in db && p.subjectId in db[p.classId] && p.lessonId in db[p.classId][p.subjectId] ==>
      r == Some(db[p.classId][p.subjectId][p.lessonId])
  {
    if p.classId in db && p.subjectId in db[p.classId] then
      if p.lessonId in db[p.classId][p.subjectId] then Some(db[p.classId][p.subjectId][p.lessonId])
      else if p.lessonId in InheritedNames then Some(LessonData(None, None))
      else None
    else None
  }

  /** No accepted class or subject id names an inherited property, so the
      first two steps of the lookup see own keys only. */
  lemma ValidIdsNotInherited(c: string, s: string)
    requires c in ValidClasses && s in ValidSubjects
    ensures c !in InheritedNames && s !in InheritedNames
  {
    assert c == ValidClasses[0] || c == ValidClasses[1] || c == ValidClasses[2];
    var k :| 0 <= k < |ValidSubjects| && ValidSubjects[k] == s;
  }

  /** A lesson id such as `constructor` that is not an own key of its
      subject still finds a truthy value; with no question arrays there,
      loading stops at the emptiness test rather than at the lookup. */
  lemma InheritedLessonHasNoQuestions(db: PracticeDb, p: Params)
    requires p.classId in db && p.subjectId in db[p.classId]
    requires p.lessonId !in db[p.classId][p.subjectId] && p.lessonId in InheritedNames
    ensures FindLessonData(db, p).Some?
    ensures RawNormal(FindLessonData(db, p).value) == [] && RawBoss(FindLessonData(db, p).value) == []
  {
  }

  /** `Array.isArray(x) ? x : []`. */
  function RawNormal(d: LessonData): seq<RawQuestion> { d.normal.GetOr([]) }
  function RawBoss(d: LessonData): seq<RawQuestion> { d.boss.GetOr([]) }

  /** The title shown in the HUD: from theory.json when it loaded and has a
      non-empty title for the lesson, else the lesson id. */
  function GameTitle(theory: Option<TheoryDb>, p: Params): (r: string)
    ensures theory.None? ==> r == p.lessonId
    ensures r != "" || p.lessonId == ""
  {
    match theory
    case None => p.lessonId
    case Some(db) => LessonTitle(db, p.classId, p.subjectId, p.lessonId)
  }

  /** `loadData` after the fetches. `fetched` is practice.json (`None` when
      the request or the parse fails) and `theory` is theory.json (`None`
      likewise; that failure is silent). The emptiness test is on the raw
      lists, before questions without an answer are dropped. */
  method LoadData(fetched: Option<PracticeDb>, theory: Option<TheoryDb>, p: Params,
                  pickNormal: nat -> nat, pickBoss: nat -> nat)
    returns (r: Result<Lesson, LoadError>)
    ensures fetched.None? <==> r == Failure(FetchFailed)
    ensures r == Failure(LessonNotFound) <==> fetched.Some? && FindLessonData(fetched.value, p).None?
    ensures r == Failure(NoQuestions) <==>
      fetched.Some? && FindLessonData(fetched.value, p).Some?
      && RawNormal(FindLessonData(fetched.value, p).value) == []
      && RawBoss(FindLessonData(fetched.value, p).value) == []
    ensures r.Success? <==>
      fetched.Some? && FindLessonData(fetched.value, p).Some?
      && (RawNormal(FindLessonData(fetched.value, p).value) != [] || RawBoss(FindLessonData(fetched.value, p).value) != [])
    ensures r.Success? ==>
      fetched.Some? && FindLessonData(fetched.value, p).Some?
      && multiset(r.value.normalQs) == multiset(Validate(RawNormal(FindLessonData(fetched.value, p).value)))
      && multiset(r.value.bossQs) == multiset(Validate(RawBoss(FindLessonData(fetched.value, p).value)))
      && r.value.title == GameTitle(theory, p)
  {
    if fetched.None? {
      return Failure(FetchFailed);
    }
    var lessonData := FindLessonData(fetched.value, p);
    if lessonData.None? {
      return Failure(LessonNotFound);
    }
    var rawNormal := RawNormal(lessonData.value);
    var rawBoss := RawBoss(lessonData.value);
    if rawNormal == [] && rawBoss == [] {
      return Failure(NoQuestions);
    }
    var normalQs := Shuffle(Validate(rawNormal), pickNormal);
    var bossQs := Shuffle(Validate(rawBoss), pickBoss);
    r := Success(Lesson(normalQs, bossQs, GameTitle(theory, p)));
  }

  /** A lesson whose every question lacks an answer loads, with no questions
      at all: the emptiness test sees the raw lists. */
  lemma AllUnansweredStillLoads(d: LessonData)
    requires RawNormal(d) != [] || RawBoss(d) != []
    requires forall k :: 0 <= k < |RawNormal(d)| ==> RawNormal(d)[k].answer.None?
    requires forall k :: 0 <= k < |RawBoss(d)| ==> RawBoss(d)[k].answer.None?
    ensures Validate(RawNormal(d)) == [] && Validate(RawBoss(d)) == []
  {
    ValidateNoneAnswered(RawNormal(d));
    ValidateNoneAnswered(RawBoss(d));
  }
}
