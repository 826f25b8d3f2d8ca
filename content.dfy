/**
 * The two content databases the pages fetch (theory.json and practice.json),
 * the lookups every page makes in them, and the display metadata the two
 * browsers share.
 */
module Content {
  import opened Wrappers
  import opened Questions

  /** One entry of a theory.json subject array. A missing or empty `title`
      is the empty string (both are falsy). */
  datatype TheoryLesson = TheoryLesson(id: string, title: string)

  /** theory.json: class id to subject id to an array of lessons. */
  type TheoryDb = map<string, map<string, seq<TheoryLesson>>>

  /** One lesson of practice.json. A `normal` or `boss` member that is not
      an array is `None`. */
  datatype LessonData = LessonData(normal: Option<seq<RawQuestion>>, boss: Option<seq<RawQuestion>>)

  /** practice.json: class id to subject id to lesson id to lesson. */
  type PracticeDb = map<string, map<string, map<string, LessonData>>>

  /** The property name JavaScript uses for a possibly-null id: `null`
      converts to the string "null". */
  function JsKey(id: Option<string>): string {
    match id
    case Some(s) => s
    case None => "null"
  }

  /** `lessons.find(l => l.id === id)`: the first lesson with that id. */
  function FindLesson(lessons: seq<TheoryLesson>, id: string): (r: Option<TheoryLesson>)
    ensures r.None? <==> forall k :: 0 <= k < |lessons| ==> lessons[k].id != id
    ensures r.Some? ==> exists k :: 0 <= k < |lessons| && lessons[k] == r.value && lessons[k].id == id
                                    && forall j :: 0 <= j < k ==> lessons[j].id != id
    decreases |lessons|
  {
    if lessons == [] then None
    else if lessons[0].id == id then Some(lessons[0])
    else
      var r := FindLesson(lessons[1..], id);
      assert r.Some? ==> exists k :: 0 <= k < |lessons| && lessons[k] == r.value && lessons[k].id == id
                                     && forall j :: 0 <= j < k ==> lessons[j].id != id by {
        if r.Some? {
          var k :| 0 <= k < |lessons[1..]| && lessons[1..][k] == r.value && lessons[1..][k].id == id
                   && forall j :: 0 <= j < k ==> lessons[1..][j].id != id;
          assert lessons[k + 1] == r.value;
          forall j | 0 <= j < k + 1 ensures lessons[j].id != id {
            if j > 0 { assert lessons[j] == lessons[1..][j - 1]; }
          }
        }
      }
      r
  }

  /** The subject array of theory.json, or `[]` when the class or the
      subject is missing. */
  function TheoryLessons(db: TheoryDb, classId: string, subjectId: string): seq<TheoryLesson> {
    if classId in db && subjectId in db[classId] then db[classId][subjectId] else []
  }

  /** `found?.title || lessonId`: the title of the first lesson with that id
      when it has a non-empty one, the id otherwise. */
  function LessonTitle(db: TheoryDb, classId: string, subjectId: string, lessonId: string): (r: string)
    ensures (forall k :: 0 <= k < |TheoryLessons(db, classId, subjectId)| ==>
               TheoryLessons(db, classId, subjectId)[k].id != lessonId) ==> r == lessonId
    ensures r == lessonId || (exists k :: 0 <= k < |TheoryLessons(db, classId, subjectId)|
                                && TheoryLessons(db, classId, subjectId)[k].id == lessonId
                                && TheoryLessons(db, classId, subjectId)[k].title == r)
    ensures r != "" || lessonId == ""
  {
    match FindLesson(TheoryLessons(db, classId, subjectId), lessonId)
    case Some(l) => if l.title != "" then l.title else lessonId
    case None => lessonId
  }

  /** Sum of `size(m[k])` over the keys of `m`; the order of the keys does
      not matter (`SumRemove`). */
  ghost function SumSizes<V>(m: map<string, V>, size: V -> nat): nat
    decreases |m|
  {
    if m == map[] then 0
    else
      var k :| k in m;
      size(m[k]) + SumSizes(m - {k}, size)
  }

  /** Any key can be taken out first. */
  lemma {:induction false} SumRemove<V>(m: map<string, V>, size: V -> nat, k: string)
    requires k in m
    ensures SumSizes(m, size) == size(m[k]) + SumSizes(m - {k}, size)
    decreases |m|
  {
    var k' :| k' in m && SumSizes(m, size) == size(m[k']) + SumSizes(m - {k'}, size);
    if k' != k {
      var m1 := m - {k'};
      assert k in m1;
      SumRemove(m1, size, k);
      var m2 := m - {k};
      assert k' in m2;
      SumRemove(m2, size, k');
      assert m1 - {k} == m2 - {k'};
    }
  }

  /** Adding a new key adds its size. */
  lemma SumAdd<V>(m: map<string, V>, size: V -> nat, k: string, v: V)
    requires k !in m
    ensures SumSizes(m[k := v], size) == size(v) + SumSizes(m, size)
  {
    SumRemove(m[k := v], size, k);
    assert m[k := v] - {k} == m;
  }

  /** No single entry exceeds the sum. */
  lemma EntryBelowSum<V>(m: map<string, V>, size: V -> nat, k: string)
    requires k in m
    ensures size(m[k]) <= SumSizes(m, size)
  {
    SumRemove(m, size, k);
  }

  function PracticeSubjectSize(lessons: map<string, LessonData>): nat {
    |lessons|
  }

  function TheorySubjectSize(lessons: seq<TheoryLesson>): nat {
    |lessons|
  }

  /** `countLessons` of Practice/practice.js: 0 for a missing class, else the
      number of lesson keys over the class's subjects. */
  ghost function PracticeLessonCount(db: PracticeDb, classId: string): nat {
    if classId in db then SumSizes(db[classId], PracticeSubjectSize) else 0
  }

  /** `countLessons` of Theory/theory.js: 0 for a missing class, else the sum
      of the subject array lengths. */
  ghost function TheoryLessonCount(db: TheoryDb, classId: string): nat {
    if classId in db then SumSizes(db[classId], TheorySubjectSize) else 0
  }

  /** Adding a lesson to a subject of practice.json raises the count of that
      class by one and leaves every other class's count alone. */
  lemma {:induction false} PracticeCountAddLesson(db: PracticeDb, c: string, s: string, l: string, d: LessonData, c2: string)
    requires c in db && s in db[c] && l !in db[c][s]
    ensures PracticeLessonCount(db[c := db[c][s := db[c][s][l := d]]], c) == PracticeLessonCount(db, c) + 1
    ensures c2 != c ==> PracticeLessonCount(db[c := db[c][s := db[c][s][l := d]]], c2) == PracticeLessonCount(db, c2)
  {
    AddLessonSameClass(db[c], s, l, d);
    var db' := db[c := db[c][s := db[c][s][l := d]]];
    assert db'[c] == db[c][s := db[c][s][l := d]];
    if c2 != c && c2 in db {
      assert db'[c2] == db[c2];
    }
  }

  /** The sum over a class's subjects after one lesson has been added. */
  lemma AddLessonSameClass(subj: map<string, map<string, LessonData>>, s: string, l: string, d: LessonData)
    requires s in subj && l !in subj[s]
    ensures SumSizes(subj[s := subj[s][l := d]], PracticeSubjectSize) == SumSizes(subj, PracticeSubjectSize) + 1
  {
    var subj' := subj[s := subj[s][l := d]];
    SumRemove(subj, PracticeSubjectSize, s);
    SumRemove(subj', PracticeSubjectSize, s);
    assert subj' - {s} == subj - {s};
    assert |subj[s][l := d]| == |subj[s]| + 1;
  }

  /** Appending a lesson to a subject array of theory.json raises the count of
      that class by one. */
  lemma {:induction false} TheoryCountAddLesson(db: TheoryDb, c: string, s: string, les: TheoryLesson)
    requires c in db && s in db[c]
    ensures TheoryLessonCount(db[c := db[c][s := db[c][s] + [les]]], c) == TheoryLessonCount(db, c) + 1
  {
    var subj := db[c];
    var subj' := subj[s := subj[s] + [les]];
    SumRemove(subj, TheorySubjectSize, s);
    SumRemove(subj', TheorySubjectSize, s);
    assert subj' - {s} == subj - {s};
  }

  /** A class's count is at least the size of each of its subjects. */
  lemma SubjectWithinClassCount(db: PracticeDb, c: string, s: string)
    requires c in db && s in db[c]
    ensures |db[c][s]| <= PracticeLessonCount(db, c)
  {
    EntryBelowSum(db[c], PracticeSubjectSize, s);
  }
}

/** `CLASS_META` and `SUBJECT_META`, shared by the two browsers. */
module Meta {
  import opened Wrappers

  function ClassLabel(id: string): Option<string> {
    if id == "class10" then Some("Khối 10")
    else if id == "class11" then Some("Khối 11")
    else if id == "class12" then Some("Khối 12")
    else None
  }

  function SubjectLabel(id: string): Option<string> {
    if id == "math" then Some("Toán")
    else if id == "physics" then Some("Vật lý")
    else if id == "chemistry" then Some("Hóa học")
    else if id == "biology" then Some("Sinh học")
    else if id == "technology" then Some("Công nghệ")
    else if id == "informatics" then Some("Tin học")
    else if id == "literature" then Some("Văn học")
    else if id == "english" then Some("Tiếng Anh")
    else if id == "history" then Some("Lịch sử")
    else if id == "geography" then Some("Địa lý")
    else None
  }
}
