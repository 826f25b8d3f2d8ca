/**
 * The theory browser of Theory/theory.js: the state of its four views
 * (home, class, subject, lesson), the URL fragment that mirrors it and the
 * breadcrumb. Rendering changes no state here, so only its breadcrumb is
 * modelled.
 */
module Theory {
  import opened Wrappers
  import HashRoute
  import Content
  import Meta

  datatype View = Home | ClassView | SubjectView | LessonView

  function ViewName(v: View): string {
    match v
    case Home => "home"
    case ClassView => "class"
    case SubjectView => "subject"
    case LessonView => "lesson"
  }

  /** `views.includes(name)`, and the view so named. */
  function ViewNamed(name: string): (r: Option<View>)
    ensures forall v :: r == Some(v) <==> ViewName(v) == name
  {
    if name == "home" then Some(Home)
    else if name == "class" then Some(ClassView)
    else if name == "subject" then Some(SubjectView)
    else if name == "lesson" then Some(LessonView)
    else None
  }

  /** `state`. */
  datatype Route = Route(view: View, classId: Option<string>, subjectId: Option<string>, lessonId: Option<string>)

  /** The fragment `navigate` writes. */
  function WriteHash(r: Route): string {
    HashRoute.HashOf([ViewName(r.view), HashRoute.IdText(r.classId), HashRoute.IdText(r.subjectId), HashRoute.IdText(r.lessonId)])
  }

  /** What `restoreFromHash` takes from a fragment. */
  function ReadHash(hash: string): (r: Option<Route>)
    ensures r.None? <==> |HashRoute.Segments(hash)| == 0 || ViewNamed(HashRoute.Segments(hash)[0]).None?
    ensures r.Some? ==> ViewNamed(HashRoute.Segments(hash)[0]) == Some(r.value.view)
  {
    var parts := HashRoute.Segments(hash);
    if |parts| == 0 then None
    else
      match ViewNamed(parts[0])
      case None => None
      case Some(v) =>
        Some(Route(v, if |parts| > 1 then HashRoute.OrNull(parts[1]) else None,
                      if |parts| > 2 then HashRoute.OrNull(parts[2]) else None,
                      if |parts| > 3 then HashRoute.OrNull(parts[3]) else None))
  }

  predicate GoodId(id: Option<string>) {
    id.None? || (id.value != "" && '/' !in id.value)
  }

  /** Good ids, and each id only below the ones before it. */
  predicate GoodRoute(r: Route) {
    GoodId(r.classId) && GoodId(r.subjectId) && GoodId(r.lessonId)
    && (r.subjectId.Some? ==> r.classId.Some?) && (r.lessonId.Some? ==> r.subjectId.Some?)
  }

  /** Reading back the fragment `navigate` wrote restores the same route. */
  lemma HashRoundTrip(r: Route)
    requires GoodRoute(r)
    ensures ReadHash(WriteHash(r)) == Some(r)
  {
    var name := ViewName(r.view);
    var parts := [name, HashRoute.IdText(r.classId), HashRoute.IdText(r.subjectId), HashRoute.IdText(r.lessonId)];
    assert forall p :: p in parts ==> '/' !in p;
    HashRoute.HashRoundTrip(parts);
    assert parts[1..][1..] == parts[2..] && parts[2..][1..] == parts[3..] && parts[3..][1..] == [];
    var n3 := if r.lessonId.Some? then [r.lessonId.value] else [];
    assert HashRoute.NonEmpty(parts[3..]) == n3;
    var n2 := (if r.subjectId.Some? then [r.subjectId.value] else []) + n3;
    assert HashRoute.NonEmpty(parts[2..]) == n2;
    var n1 := (if r.classId.Some? then [r.classId.value] else []) + n2;
    assert HashRoute.NonEmpty(parts[1..]) == n1;
    assert HashRoute.NonEmpty(parts) == [name] + n1;
  }

  /** One breadcrumb item: its caption and where clicking it navigates. */
  datatype Crumb = Crumb(caption: string, view: View, cls: Option<string>, sub: Option<string>, les: Option<string>)

  const HomeLabel: string := "Lý thuyết"

  /** The caption of the lesson item: the title of the first lesson with
      that id in the current subject when it has one, else the id. */
  function LessonCaption(db: Option<Content.TheoryDb>, r: Route): (c: string)
    requires HashRoute.IdText(r.lessonId) != ""
    ensures c != ""
    ensures db.None? ==> c == r.lessonId.value
    ensures c == r.lessonId.value ||
      (exists k :: 0 <= k < |Content.TheoryLessons(db.value, Content.JsKey(r.classId), Content.JsKey(r.subjectId))|
         && Content.TheoryLessons(db.value, Content.JsKey(r.classId), Content.JsKey(r.subjectId))[k].id == r.lessonId.value
         && Content.TheoryLessons(db.value, Content.JsKey(r.classId), Content.JsKey(r.subjectId))[k].title == c)
  {
    Content.LessonTitle(db.GetOr(map[]), Content.JsKey(r.classId), Content.JsKey(r.subjectId), r.lessonId.value)
  }

  /** `renderBreadcrumb`'s list: home, then class, subject and lesson, each
      when set. */
  function Crumbs(db: Option<Content.TheoryDb>, r: Route): (cs: seq<Crumb>)
    ensures |cs| == 1 + (if HashRoute.IdText(r.classId) != "" then 1 else 0) + (if HashRoute.IdText(r.subjectId) != "" then 1 else 0)
                      + (if HashRoute.IdText(r.lessonId) != "" then 1 else 0)
    ensures cs[0] == Crumb(HomeLabel, Home, None, None, None)
    ensures forall k :: 0 < k < |cs| ==> cs[k].cls == r.classId && cs[k].caption != ""
    ensures HashRoute.IdText(r.lessonId) != "" ==>
      cs[|cs| - 1] == Crumb(LessonCaption(db, r), LessonView, r.classId, r.subjectId, r.lessonId)
  {
    var home := [Crumb(HomeLabel, Home, None, None, None)];
    var cls := if HashRoute.IdText(r.classId) != "" then [ClassCrumb(r)] else [];
    var sub := if HashRoute.IdText(r.subjectId) != "" then [SubjectCrumb(r)] else [];
    var les := if HashRoute.IdText(r.lessonId) != "" then
      [Crumb(LessonCaption(db, r), LessonView, r.classId, r.subjectId, r.lessonId)] else [];
    home + cls + sub + les
  }

  /** The class item: labelled from `CLASS_META`, or by the id. */
  function ClassCrumb(r: Route): (c: Crumb)
    requires HashRoute.IdText(r.classId) != ""
    ensures c.caption != "" && c.view == ClassView && c.cls == r.classId && c.sub == None && c.les == None
    ensures Meta.ClassLabel(r.classId.value).None? ==> c.caption == r.classId.value
  {
    Crumb(Meta.ClassLabel(r.classId.value).GetOr(r.classId.value), ClassView, r.classId, None, None)
  }

  /** The subject item: labelled from `SUBJECT_META`, or by the id. */
  function SubjectCrumb(r: Route): (c: Crumb)
    requires HashRoute.IdText(r.subjectId) != ""
    ensures c.caption != "" && c.view == SubjectView && c.cls == r.classId && c.sub == r.subjectId && c.les == None
    ensures Meta.SubjectLabel(r.subjectId.value).None? ==> c.caption == r.subjectId.value
  {
    Crumb(Meta.SubjectLabel(r.subjectId.value).GetOr(r.subjectId.value), SubjectView, r.classId, r.subjectId, None)
  }

  /** The route clicking a crumb navigates to. */
  function Target(c: Crumb): Route {
    Route(c.view, HashRoute.Truthy(c.cls), HashRoute.Truthy(c.sub), HashRoute.Truthy(c.les))
  }

  /** Clicking an earlier breadcrumb item of a well-formed route navigates to
      a route whose own breadcrumb ends at that item. */
  lemma CrumbClickTruncates(db: Option<Content.TheoryDb>, r: Route, k: nat)
    requires GoodRoute(r)
    requires k < |Crumbs(db, r)|
    ensures Crumbs(db, Target(Crumbs(db, r)[k])) == Crumbs(db, r)[..k + 1]
  {
    var cs := Crumbs(db, r);
    var t := Target(cs[k]);
    if k == 0 {
      assert Crumbs(db, t) == [cs[0]];
    } else if k == 1 {
      assert t == Route(ClassView, r.classId, None, None);
      assert Crumbs(db, t) == [cs[0], cs[1]] == cs[..2];
    } else if k == 2 {
      assert t == Route(SubjectView, r.classId, r.subjectId, None);
      assert Crumbs(db, t) == [cs[0], cs[1], cs[2]] == cs[..3];
    } else {
      assert t == r.(view := LessonView);
      assert cs[..k + 1] == cs;
    }
  }

  /** The page and its `state`; `hash` is `location.hash` and `db` the
      loaded theory.json (`None` until it loads or when it fails). */
  class Browser {
    var view: View
    var classId: Option<string>
    var subjectId: Option<string>
    var lessonId: Option<string>
    var hash: string
    var db: Option<Content.TheoryDb>

    function Current(): Route
      reads this
    {
      Route(view, classId, subjectId, lessonId)
    }

    function Breadcrumb(): seq<Crumb>
      reads this
    {
      Crumbs(db, Current())
    }

    constructor(hash0: string)
      ensures Current() == Route(Home, None, None, None) && hash == hash0 && db == None
    {
      view, classId, subjectId, lessonId := Home, None, None, None;
      hash := hash0;
      db := None;
    }

    /** `navigate`: sets the state and writes the fragment; rendering
        changes no state. */
    method Navigate(v: View, c: Option<string>, s: Option<string>, l: Option<string>)
      modifies this
      ensures Current() == Route(v, c, s, l) && hash == WriteHash(Current()) && db == old(db)
    {
      view, classId, subjectId, lessonId := v, c, s, l;
      hash := HashRoute.HashOf([ViewName(v), HashRoute.IdText(c), HashRoute.IdText(s), HashRoute.IdText(l)]);
    }

    /** A click on breadcrumb item `k`; the current (last) one does nothing. */
    method ClickCrumb(k: nat)
      modifies this
      ensures k + 1 < |old(Breadcrumb())| ==>
        Current() == Target(old(Breadcrumb())[k]) && hash == WriteHash(Current())
      ensures k + 1 >= |old(Breadcrumb())| ==> Current() == old(Current()) && hash == old(hash)
      ensures db == old(db)
    {
      var crumbs := Crumbs(db, Current());
      if k + 1 < |crumbs| {
        var c := crumbs[k];
        Navigate(c.view, HashRoute.OrNull(HashRoute.IdText(c.cls)), HashRoute.OrNull(HashRoute.IdText(c.sub)), HashRoute.OrNull(HashRoute.IdText(c.les)));
      }
    }

    /** `restoreFromHash`. */
    method RestoreFromHash()
      modifies this
      ensures ReadHash(hash).Some? ==> Current() == ReadHash(hash).value
      ensures ReadHash(hash).None? ==> Current() == old(Current())
      ensures hash == old(hash) && db == old(db)
    {
      var parts := HashRoute.Segments(hash);
      if |parts| > 0 && ViewNamed(parts[0]).Some? {
        view := ViewNamed(parts[0]).value;
        classId := if |parts| > 1 then HashRoute.OrNull(parts[1]) else None;
        subjectId := if |parts| > 2 then HashRoute.OrNull(parts[2]) else None;
        lessonId := if |parts| > 3 then HashRoute.OrNull(parts[3]) else None;
      }
    }

    /** `init`: the fragment is read first, then theory.json (`None` when the
        fetch or the parse fails) is stored. */
    method Init(fetched: Option<Content.TheoryDb>)
      modifies this
      ensures ReadHash(old(hash)).Some? ==> Current() == ReadHash(old(hash)).value
      ensures ReadHash(old(hash)).None? ==> Current() == old(Current())
      ensures hash == old(hash) && db == fetched
    {
      RestoreFromHash();
      db := fetched;
    }
  }
}
