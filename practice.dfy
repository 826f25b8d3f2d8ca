/**
 * The practice browser of Practice/practice.js: the state `st` of its
 * three views (home, class, subject), the URL fragment that mirrors it,
 * the breadcrumb, and the lesson facts the subject view shows (title,
 * completion). The page's markup is not modelled; `Render` keeps the one
 * state change rendering makes, the reset of `pendingLessonId`.
 */
module Practice {
  import opened Wrappers
  import HashRoute
  import Content
  import Meta
  import Completion
  import Html
  import Loader

  datatype View = Home | ClassView | SubjectView

  /** The name a view has in `st.view` and in the fragment. */
  function ViewName(v: View): string {
    match v
    case Home => "home"
    case ClassView => "class"
    case SubjectView => "subject"
  }

  /** `views.includes(name)`, and the view so named. */
  function ViewNamed(name: string): (r: Option<View>)
    ensures forall v :: r == Some(v) <==> ViewName(v) == name
  {
    if name == "home" then Some(Home)
    else if name == "class" then Some(ClassView)
    else if name == "subject" then Some(SubjectView)
    else None
  }

  /** The routing part of `st`. */
  datatype Route = Route(view: View, classId: Option<string>, subjectId: Option<string>)

  /** The fragment `navigate` writes. */
  function WriteHash(r: Route): string {
    HashRoute.HashOf([ViewName(r.view), HashRoute.IdText(r.classId), HashRoute.IdText(r.subjectId)])
  }

  /** What `restoreFromHash` takes from a fragment: nothing unless the first
      segment names a view; the ids are the next two segments, if any. */
  function ReadHash(hash: string): (r: Option<Route>)
    ensures r.Some? ==> |HashRoute.Segments(hash)| > 0
                        && ViewNamed(HashRoute.Segments(hash)[0]) == Some(r.value.view)
    ensures r.None? <==> |HashRoute.Segments(hash)| == 0 || ViewNamed(HashRoute.Segments(hash)[0]).None?
  {
    var parts := HashRoute.Segments(hash);
    if |parts| == 0 then None
    else
      match ViewNamed(parts[0])
      case None => None
      case Some(v) =>
        Some(Route(v, if |parts| > 1 then HashRoute.OrNull(parts[1]) else None,
                      if |parts| > 2 then HashRoute.OrNull(parts[2]) else None))
  }

  /** An id the page can hold: absent, or a non-empty text without `/`. */
  predicate GoodId(id: Option<string>) {
    id.None? || (id.value != "" && '/' !in id.value)
  }

  /** A route the fragment can carry: good ids, and no subject without a class. */
  predicate GoodRoute(r: Route) {
    GoodId(r.classId) && GoodId(r.subjectId) && (r.subjectId.Some? ==> r.classId.Some?)
  }

  /** Reading back the fragment `navigate` wrote restores the same route. */
  lemma HashRoundTrip(r: Route)
    requires GoodRoute(r)
    ensures ReadHash(WriteHash(r)) == Some(r)
  {
    var parts := [ViewName(r.view), HashRoute.IdText(r.classId), HashRoute.IdText(r.subjectId)];
    assert forall p :: p in parts ==> '/' !in p;
    HashRoute.HashRoundTrip(parts);
    var name := ViewName(r.view);
    assert parts[1..][1..] == [HashRoute.IdText(r.subjectId)];
    if r.subjectId.Some? {
      assert HashRoute.NonEmpty([HashRoute.IdText(r.subjectId)]) == [r.subjectId.value];
      assert HashRoute.NonEmpty(parts) == [name, r.classId.value, r.subjectId.value];
    } else if r.classId.Some? {
      assert HashRoute.NonEmpty([HashRoute.IdText(r.subjectId)]) == [];
      assert HashRoute.NonEmpty(parts) == [name, r.classId.value];
    } else {
      assert HashRoute.NonEmpty([HashRoute.IdText(r.subjectId)]) == [];
      assert HashRoute.NonEmpty(parts) == [name];
    }
  }

  /** A subject id written without a class id is read back as the class id. */
  lemma SubjectWithoutClassShifts(v: View, s: string)
    requires s != "" && '/' !in s
    ensures ReadHash(WriteHash(Route(v, None, Some(s)))) == Some(Route(v, Some(s), None))
  {
    var parts := [ViewName(v), "", s];
    assert forall p :: p in parts ==> '/' !in p;
    HashRoute.HashRoundTrip(parts);
    assert parts[1..][1..] == [s];
    assert HashRoute.NonEmpty([s]) == [s];
    assert HashRoute.NonEmpty(parts) == [ViewName(v), s];
  }

  /** One breadcrumb item: its caption and where clicking it navigates. */
  datatype Crumb = Crumb(caption: string, view: View, cls: Option<string>, sub: Option<string>)

  const HomeLabel: string := "Luyện Tập"

  /** `renderBreadcrumb`'s list: home always, then the class when set, then
      the subject when set, each labelled from the metadata or by its id. */
  function Crumbs(classId: Option<string>, subjectId: Option<string>): (r: seq<Crumb>)
    ensures |r| == 1 + (if HashRoute.IdText(classId) != "" then 1 else 0) + (if HashRoute.IdText(subjectId) != "" then 1 else 0)
    ensures r[0] == Crumb(HomeLabel, Home, None, None)
    ensures forall k :: 0 < k < |r| ==> r[k].cls == classId && r[k].caption != ""
    ensures HashRoute.IdText(classId) != "" ==>
      r[1] == Crumb(Meta.ClassLabel(classId.value).GetOr(classId.value), ClassView, classId, None)
    ensures HashRoute.IdText(subjectId) != "" ==>
      r[|r| - 1] == Crumb(Meta.SubjectLabel(subjectId.value).GetOr(subjectId.value), SubjectView, classId, subjectId)
  {
    var home := [Crumb(HomeLabel, Home, None, None)];
    var cls := if HashRoute.IdText(classId) != "" then
      [Crumb(Meta.ClassLabel(classId.value).GetOr(classId.value), ClassView, classId, None)] else [];
    var sub := if HashRoute.IdText(subjectId) != "" then
      [Crumb(Meta.SubjectLabel(subjectId.value).GetOr(subjectId.value), SubjectView, classId, subjectId)] else [];
    home + cls + sub
  }

  /** Clicking an earlier breadcrumb item navigates to a route whose own
      breadcrumb ends at that item. */
  lemma CrumbClickTruncates(classId: Option<string>, subjectId: Option<string>, k: nat)
    requires GoodId(classId) && GoodId(subjectId)
    requires k < |Crumbs(classId, subjectId)|
    ensures var c := Crumbs(classId, subjectId)[k];
      Crumbs(HashRoute.Truthy(c.cls), HashRoute.Truthy(c.sub)) == Crumbs(classId, subjectId)[..k + 1]
  {
    var r := Crumbs(classId, subjectId);
    var c := r[k];
    if k == 0 {
      assert Crumbs(None, None) == [r[0]];
    } else if c.view == ClassView {
      assert c.sub == None;
      assert classId.Some? && r[1] == c;
      assert Crumbs(classId, None) == [r[0], r[1]] == r[..2];
      if HashRoute.IdText(subjectId) != "" {
        assert r[2].view == SubjectView;
        assert k == 1;
      }
    } else {
      assert c.view == SubjectView && k == |r| - 1;
      assert r[..k + 1] == r;
    }
  }

  /** `esc`: `null` and `undefined` print as nothing; the escaped text has no
      markup characters and plain text is kept. */
  function Esc(s: Option<string>): (r: string)
    ensures '<' !in r && '>' !in r && '"' !in r
    ensures s.None? ==> r == ""
    ensures s.Some? && '&' !in s.value && '<' !in s.value && '>' !in s.value && '"' !in s.value ==> r == s.value
  {
    var t := s.GetOr("");
    Html.EscapeHasNoMarkup(t);
    if '&' !in t && '<' !in t && '>' !in t && '"' !in t then
      Html.EscapePlainText(t);
      Html.Escape(t)
    else Html.Escape(t)
  }

  /** `getLessonTitle`: the id itself unless theory.json loaded and both ids
      are set; then the title of the first lesson with that id, if it has
      one. */
  function GetLessonTitle(theory: Option<Content.TheoryDb>, classId: Option<string>, subjectId: Option<string>,
                          lessonId: string): (r: string)
    ensures theory.None? || HashRoute.IdText(classId) == "" || HashRoute.IdText(subjectId) == "" ==> r == lessonId
    ensures r != "" || lessonId == ""
    ensures theory.Some? && HashRoute.IdText(classId) != "" && HashRoute.IdText(subjectId) != "" ==>
      r == Content.LessonTitle(theory.value, classId.value, subjectId.value, lessonId)
  {
    if theory.None? || HashRoute.IdText(classId) == "" || HashRoute.IdText(subjectId) == "" then lessonId
    else Content.LessonTitle(theory.value, classId.value, subjectId.value, lessonId)
  }

  /** The list shows a lesson under the same title the game shows for it. */
  lemma TitleAgreesWithGame(theory: Option<Content.TheoryDb>, p: Loader.Params)
    requires p.classId != "" && p.subjectId != ""
    ensures GetLessonTitle(theory, Some(p.classId), Some(p.subjectId), p.lessonId) == Loader.GameTitle(theory, p)
  {
  }

  /** `isDone`: an entry exists under the key built from the current ids
      (`null` prints as "null"); unreadable storage gives false. */
  predicate IsDone(saved: Option<Completion.Store>, classId: Option<string>, subjectId: Option<string>,
                   lessonId: string)
  {
    Completion.IsDone(saved, Completion.Key(Content.JsKey(classId), Content.JsKey(subjectId), lessonId))
  }

  /** After the game marks a lesson completed, the subject view of that
      class and subject shows that lesson done and every other lesson as
      before; if the saved text did not parse, the others show not done. */
  lemma DoneAfterGame(saved: Option<Completion.Store>, p: Loader.Params, e: Completion.Entry, other: string)
    requires p.classId in Loader.ValidClasses && p.subjectId in Loader.ValidSubjects
    ensures var after := Some(Completion.Marked(saved, Completion.Key(p.classId, p.subjectId, p.lessonId), e));
      IsDone(after, Some(p.classId), Some(p.subjectId), other) <==>
        other == p.lessonId || IsDone(saved, Some(p.classId), Some(p.subjectId), other)
  {
    Loader.ValidIdsHaveNoUnderscore(p.classId, p.subjectId);
    Completion.KeyInjective(p.classId, p.subjectId, p.lessonId, p.classId, p.subjectId, other);
  }

  /** `DB[classId]?.[subjectId] || {}`. */
  function SubjectLessons(db: Content.PracticeDb, classId: Option<string>, subjectId: Option<string>)
    : map<string, Content.LessonData>
  {
    var c, s := Content.JsKey(classId), Content.JsKey(subjectId);
    if c in db && s in db[c] then db[c][s] else map[]
  }

  /** Whether rendering resets `pendingLessonId`: only the subject view does
      it, after listing a non-empty subject, and only when the class has
      metadata (otherwise reading its label throws first). */
  predicate ClearsPending(db: Content.PracticeDb, r: Route) {
    r.view == SubjectView && |SubjectLessons(db, r.classId, r.subjectId)| > 0
    && Meta.ClassLabel(Content.JsKey(r.classId)).Some?
  }

  /** The page and its state `st`; `hash` is `location.hash`, `db` and
      `theory` the loaded practice.json and theory.json. */
  class Browser {
    var view: View
    var classId: Option<string>
    var subjectId: Option<string>
    var pendingLessonId: Option<string>
    var hash: string
    var db: Content.PracticeDb
    var theory: Option<Content.TheoryDb>

    function Current(): Route
      reads this
    {
      Route(view, classId, subjectId)
    }

    /** The breadcrumb `renderBreadcrumb` draws for the current state. */
    function Breadcrumb(): seq<Crumb>
      reads this
    {
      Crumbs(classId, subjectId)
    }

    /** The page as it loads, before `init`. */
    constructor(hash0: string)
      ensures Current() == Route(Home, None, None) && pendingLessonId == None
      ensures hash == hash0 && db == map[] && theory == None
    {
      view, classId, subjectId, pendingLessonId := Home, None, None, None;
      hash := hash0;
      db, theory := map[], None;
    }

    /** `render`, for its effect on `st`. */
    method Render()
      modifies this
      ensures Current() == old(Current()) && hash == old(hash) && db == old(db) && theory == old(theory)
      ensures pendingLessonId == if ClearsPending(db, Current()) then None else old(pendingLessonId)
    {
      if view == SubjectView && |SubjectLessons(db, classId, subjectId)| > 0
         && Meta.ClassLabel(Content.JsKey(classId)).Some? {
        pendingLessonId := None;
      }
    }

    /** `navigate`: sets the route, writes the fragment and renders. */
    method Navigate(v: View, c: Option<string>, s: Option<string>)
      modifies this
      ensures Current() == Route(v, c, s) && hash == WriteHash(Route(v, c, s))
      ensures db == old(db) && theory == old(theory)
      ensures pendingLessonId == if ClearsPending(db, Route(v, c, s)) then None else old(pendingLessonId)
    {
      view, classId, subjectId := v, c, s;
      hash := HashRoute.HashOf([ViewName(v), HashRoute.IdText(c), HashRoute.IdText(s)]);
      Render();
    }

    /** A click on breadcrumb item `k`; the last item, the current one, does
        nothing. */
    method ClickCrumb(k: nat)
      modifies this
      ensures k + 1 < |old(Breadcrumb())| ==>
        var c := old(Breadcrumb())[k];
        Current() == Route(c.view, HashRoute.Truthy(c.cls), HashRoute.Truthy(c.sub)) && hash == WriteHash(Current())
        && pendingLessonId == if ClearsPending(db, Current()) then None else old(pendingLessonId)
      ensures k + 1 >= |old(Breadcrumb())| ==>
        Current() == old(Current()) && hash == old(hash) && pendingLessonId == old(pendingLessonId)
      ensures db == old(db) && theory == old(theory)
    {
      var crumbs := Crumbs(classId, subjectId);
      if k + 1 < |crumbs| {
        var c := crumbs[k];
        Navigate(c.view, HashRoute.OrNull(HashRoute.IdText(c.cls)), HashRoute.OrNull(HashRoute.IdText(c.sub)));
      }
    }

    /** `restoreFromHash`: adopts the route in the fragment, if it names one. */
    method RestoreFromHash()
      modifies this
      ensures ReadHash(hash).Some? ==> Current() == ReadHash(hash).value
      ensures ReadHash(hash).None? ==> Current() == old(Current())
      ensures hash == old(hash) && pendingLessonId == old(pendingLessonId) && db == old(db) && theory == old(theory)
    {
      var parts := HashRoute.Segments(hash);
      if |parts| > 0 && ViewNamed(parts[0]).Some? {
        view := ViewNamed(parts[0]).value;
        classId := if |parts| > 1 then HashRoute.OrNull(parts[1]) else None;
        subjectId := if |parts| > 2 then HashRoute.OrNull(parts[2]) else None;
      }
    }

    /** `applyURLParams`: with a class and a subject in the query, opens
        that subject, remembers the lesson to highlight (`lesson`, else
        `done`) and clears the URL. */
    method ApplyURLParams(query: map<string, string>)
      modifies this
      ensures ArrivesWith(query) ==>
        && Current() == Route(SubjectView, Some(Loader.QueryGet(query, "class")), Some(Loader.QueryGet(query, "subject")))
        && pendingLessonId == PendingFrom(query)
        && hash == ""
      ensures !ArrivesWith(query) ==>
        Current() == old(Current()) && pendingLessonId == old(pendingLessonId) && hash == old(hash)
      ensures db == old(db) && theory == old(theory)
    {
      var cls := Loader.QueryGet(query, "class");
      var subj := Loader.QueryGet(query, "subject");
      if cls == "" || subj == "" {
        return;
      }
      classId, subjectId, view := Some(cls), Some(subj), SubjectView;
      var lesId := Loader.QueryGet(query, "lesson");
      pendingLessonId := if lesId != "" then Some(lesId) else HashRoute.OrNull(Loader.QueryGet(query, "done"));
      hash := "";
    }

    /** `init`, once the two fetches settled: nothing more happens when
        practice.json did not load; otherwise the query decides the view,
        the fragment is read only when the query did not, and the page
        renders. */
    method Init(query: map<string, string>, fetched: Option<Content.PracticeDb>, theory0: Option<Content.TheoryDb>)
      modifies this
      ensures theory == theory0
      ensures fetched.None? ==>
        Current() == old(Current()) && pendingLessonId == old(pendingLessonId) && hash == old(hash) && db == old(db)
      ensures fetched.Some? ==> db == fetched.value
      ensures fetched.Some? && ArrivesWith(query) ==>
        && Current() == Route(SubjectView, Some(Loader.QueryGet(query, "class")), Some(Loader.QueryGet(query, "subject")))
        && pendingLessonId == (if ClearsPending(db, Current()) then None else PendingFrom(query))
        && hash == ""
      ensures fetched.Some? && !ArrivesWith(query) && old(view) == Home && ReadHash(old(hash)).Some? ==>
        Current() == ReadHash(old(hash)).value
        && pendingLessonId == (if ClearsPending(db, Current()) then None else old(pendingLessonId))
      ensures fetched.Some? && !ArrivesWith(query) && (old(view) != Home || ReadHash(old(hash)).None?) ==>
        Current() == old(Current())
        && pendingLessonId == (if ClearsPending(db, Current()) then None else old(pendingLessonId))
    {
      theory := theory0;
      if fetched.None? {
        return;
      }
      db := fetched.value;
      ApplyURLParams(query);
      if view == Home {
        RestoreFromHash();
      }
      Render();
    }
  }

  /** The query opens a subject: both `class` and `subject` are non-empty. */
  predicate ArrivesWith(query: map<string, string>) {
    Loader.QueryGet(query, "class") != "" && Loader.QueryGet(query, "subject") != ""
  }

  /** `lesId || doneId || null`. */
  function PendingFrom(query: map<string, string>): (r: Option<string>)
    ensures Loader.QueryGet(query, "lesson") != "" ==> r == Some(Loader.QueryGet(query, "lesson"))
    ensures Loader.QueryGet(query, "lesson") == "" ==> r == HashRoute.OrNull(Loader.QueryGet(query, "done"))
  {
    var lesId := Loader.QueryGet(query, "lesson");
    if lesId != "" then Some(lesId) else HashRoute.OrNull(Loader.QueryGet(query, "done"))
  }

  /** Coming back from a won game (`?class=&subject=&done=`) opens that
      subject with the finished lesson to highlight, then forgets it once
      a non-empty subject list of a known class is drawn. */
  lemma ReturnFromGame(query: map<string, string>, p: Loader.Params)
    requires query == map["class" := p.classId, "subject" := p.subjectId, "done" := p.lessonId]
    requires p.classId != "" && p.subjectId != "" && p.lessonId != ""
    ensures ArrivesWith(query) && PendingFrom(query) == Some(p.lessonId)
  {
    assert Loader.QueryGet(query, "lesson") == "";
  }

  /** The theory page's "practice this lesson" link
      (`?class=&subject=&lesson=`) opens that subject with the lesson to
      highlight, even when a `done` parameter is also present. */
  lemma ArriveFromTheory(query: map<string, string>, c: string, s: string, l: string)
    requires c != "" && s != "" && l != ""
    requires "class" in query && query["class"] == c && "subject" in query && query["subject"] == s
    requires "lesson" in query && query["lesson"] == l
    ensures ArrivesWith(query) && PendingFrom(query) == Some(l)
  {
  }
}
