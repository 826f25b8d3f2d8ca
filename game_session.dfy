/**
 * The game page of Game/game.js as the page runs it: the record `G` is an
 * object whose fields the handlers update in place. Every method here makes
 * the same change as the transition of the same name in `GameState`, so
 * what `GameProperties` proves about those transitions holds of a session.
 */
module GameSession {
  import opened Wrappers
  import opened Questions
  import GameState
  import GameProperties
  import Loader
  import Completion
  import Content
  import Text

  /** The game record `G`: the ids and title of the lesson (fixed once the
      page has loaded) and the runtime fields. */
  class Session {
    const classId: string
    const subjectId: string
    const lessonId: string
    const lessonTitle: string

    var normalQs: seq<Question>
    var bossQs: seq<Question>
    var phase: GameState.Phase
    var nIndex: nat
    var bIndex: nat
    var energy: int
    var energyMax: int
    var answered: bool
    var timer: Option<Question>
    var bossSecsLeft: int
    var ring: GameState.Ring
    var normalCorrect: nat
    var normalWrong: nat
    var bossCorrect: nat
    var bossWrong: nat
    var screen: GameState.Screen
    var advanceEnabled: bool
    var panel: GameState.Panel

    /** The runtime fields as one value. */
    function State(): GameState.Snapshot
      reads this
    {
      GameState.Snapshot(normalQs, bossQs, phase, nIndex, bIndex, energy, energyMax, answered,
                         timer, bossSecsLeft, ring, normalCorrect, normalWrong, bossCorrect, bossWrong,
                         screen, advanceEnabled, panel)
    }

    /** The record after `parseParams`, `loadData` (questions stored, energy
        seeded) and `startGame`, which ends in `setNormalUI`. */
    constructor(p: Loader.Params, lesson: Loader.Lesson)
      ensures classId == p.classId && subjectId == p.subjectId && lessonId == p.lessonId
      ensures lessonTitle == lesson.title
      ensures State() == GameState.Start(lesson.normalQs, lesson.bossQs)
      ensures GameState.Inv(State())
    {
      classId, subjectId, lessonId := p.classId, p.subjectId, p.lessonId;
      lessonTitle := lesson.title;
      normalQs, bossQs := lesson.normalQs, lesson.bossQs;
      energyMax := |lesson.normalQs|;
      energy := 0;
      phase := GameState.NormalPhase;
      nIndex, bIndex := 0, 0;
      answered := false;
      timer := None;
      bossSecsLeft := GameState.BossTime;
      ring := GameState.Calm;
      normalCorrect, normalWrong, bossCorrect, bossWrong := 0, 0, 0, 0;
      screen := GameState.Playing;
      panel := GameState.Hidden;
      advanceEnabled := true;
      new;
      GameProperties.StartInv(lesson.normalQs, lesson.bossQs);
    }

    method SetNormalUI()
      modifies this
      ensures State() == GameState.SetNormalUI(old(State()))
    {
      panel := GameState.Hidden;
      advanceEnabled := true;
    }

    method StopBossTimer()
      modifies this
      ensures State() == GameState.StopBossTimer(old(State()))
    {
      if timer.Some? {
        timer := None;
      }
    }

    method EndGame(result: GameState.Screen)
      modifies this
      ensures State() == GameState.EndGame(old(State()), result)
    {
      StopBossTimer();
      screen := result;
    }

    method ShowQuestion(q: Question, mode: GameState.Phase)
      modifies this
      ensures State() == GameState.ShowQuestion(old(State()), q, mode)
    {
      answered := false;
      panel := GameState.Open(mode, q, None);
    }

    method StartBossTimer(q: Question)
      modifies this
      ensures State() == GameState.StartBossTimer(old(State()), q)
    {
      StopBossTimer();
      bossSecsLeft := GameState.BossTime;
      ring := GameState.Calm;
      timer := Some(q);
    }

    method StartBossQuestion()
      modifies this
      ensures State() == GameState.StartBossQuestion(old(State()))
    {
      if bIndex >= |bossQs| {
        EndGame(if energy > 0 then GameState.Won else GameState.Lost);
        return;
      }
      var q := bossQs[bIndex];
      ShowQuestion(q, GameState.BossPhase);
      StartBossTimer(q);
    }

    method ActivateBossPhase()
      modifies this
      ensures State() == GameState.ActivateBossPhase(old(State()))
    {
      if nIndex < |normalQs| {
        return;
      }
      if |bossQs| == 0 {
        EndGame(if energy > 0 then GameState.Won else GameState.Lost);
        return;
      }
      phase := GameState.BossPhase;
      bIndex := 0;
      advanceEnabled := false;
      assert State() == old(State()).(phase := GameState.BossPhase, bIndex := 0, advanceEnabled := false);
      StartBossQuestion();
    }

    method AddNextButton(mode: GameState.Phase, q: Question)
      modifies this
      ensures State() == GameState.AddNextButton(old(State()), mode, q)
    {
      var isLastBoss := mode == GameState.BossPhase && bIndex >= |bossQs| - 1;
      var isLastNormal := mode == GameState.NormalPhase && nIndex >= |normalQs| - 1;
      var caption := if isLastBoss then GameState.SeeResults
                   else if isLastNormal then GameState.FaceBoss
                   else GameState.NextQuestion;
      panel := GameState.Open(mode, q, Some(caption));
    }

    /** The scoring part of `handleAnswer`. */
    method Score(isRight: bool, mode: GameState.Phase)
      modifies this
      ensures State() == GameState.Score(old(State()), isRight, mode)
    {
      if mode == GameState.NormalPhase {
        if isRight {
          energy := energy + 1;
          normalCorrect := normalCorrect + 1;
        } else {
          normalWrong := normalWrong + 1;
        }
      } else {
        StopBossTimer();
        if isRight {
          bossCorrect := bossCorrect + 1;
        } else {
          bossWrong := bossWrong + 1;
          energy := GameState.Floor0(energy - 1);
        }
      }
    }

    method HandleAnswer(isRight: bool, q: Question, mode: GameState.Phase)
      modifies this
      ensures State() == GameState.HandleAnswer(old(State()), isRight, q, mode)
    {
      if answered {
        return;
      }
      answered := true;
      Score(isRight, mode);
      if mode == GameState.BossPhase && energy <= 0 {
        EndGame(GameState.Lost);
        return;
      }
      AddNextButton(mode, q);
    }

    /** The advance button's click handler. */
    method ClickAdvance()
      modifies this
      ensures State() == GameState.ClickAdvance(old(State()))
    {
      if !advanceEnabled || phase != GameState.NormalPhase {
        return;
      }
      if nIndex >= |normalQs| {
        ActivateBossPhase();
        return;
      }
      advanceEnabled := false;
      ShowQuestion(normalQs[nIndex], GameState.NormalPhase);
    }

    /** The click handler of option button `i` (type 1). */
    method ClickOption(i: nat)
      modifies this
      ensures State() == GameState.ClickOption(old(State()), i)
    {
      if panel.Open? && panel.q.Choice? && i < |panel.q.options| && !answered {
        var q := panel.q;
        HandleAnswer(q.answer == Number(i), q, panel.mode);
      }
    }

    /** The click handler of the true and false buttons (type 2). */
    method ClickTrueFalse(chosen: bool)
      modifies this
      ensures State() == GameState.ClickTrueFalse(old(State()), chosen)
    {
      if panel.Open? && panel.q.TrueFalse? && !answered {
        var q := panel.q;
        HandleAnswer(q.answer == Boolean(chosen), q, panel.mode);
      }
    }

    /** The submit handler of the text field (type 3). */
    method SubmitShort(text: string)
      modifies this
      ensures State() == GameState.SubmitShort(old(State()), text)
    {
      if panel.Open? && panel.q.Short? && !answered {
        var raw := Text.Normalize(text);
        if raw != [] {
          var q := panel.q;
          HandleAnswer(ShortCorrect(q.accepted, raw), q, panel.mode);
        }
      }
    }

    /** The next button's click handler. */
    method ClickNext()
      modifies this
      ensures State() == GameState.ClickNext(old(State()))
    {
      if !(panel.Open? && panel.next.Some?) {
        return;
      }
      var mode := panel.mode;
      ghost var h := old(State()).(panel := GameState.Hidden);
      panel := GameState.Hidden;
      assert State() == h;
      if mode == GameState.NormalPhase {
        nIndex := nIndex + 1;
        assert State() == h.(nIndex := h.nIndex + 1);
        if nIndex >= |normalQs| {
          ActivateBossPhase();
        } else {
          SetNormalUI();
        }
      } else {
        bIndex := bIndex + 1;
        assert State() == h.(bIndex := h.bIndex + 1);
        if bIndex >= |bossQs| && energy > 0 {
          EndGame(GameState.Won);
        } else {
          StartBossQuestion();
        }
      }
    }

    /** One run of the boss timer's interval callback. */
    method Tick()
      modifies this
      ensures State() == GameState.Tick(old(State()))
    {
      if timer.None? {
        return;
      }
      var q := timer.value;
      bossSecsLeft := bossSecsLeft - 1;
      ring := GameState.RingFor(GameState.Floor0(bossSecsLeft));
      if bossSecsLeft <= 0 {
        TimeUp(q);
      }
    }

    /** The end of the countdown inside the interval callback. */
    method TimeUp(q: Question)
      modifies this
      ensures State() == GameState.TimeUp(old(State()), q)
    {
      StopBossTimer();
      if answered {
        return;
      }
      ghost var u := State().(answered := true, bossWrong := bossWrong + 1, energy := GameState.Floor0(energy - 1));
      answered := true;
      bossWrong := bossWrong + 1;
      energy := GameState.Floor0(energy - 1);
      assert State() == u;
      if energy <= 0 {
        EndGame(GameState.Lost);
      } else {
        AddNextButton(GameState.BossPhase, q);
      }
    }

    /** Whatever the player or the timer does next; the invariant of the game
        record is kept. */
    method Dispatch(e: GameState.Event)
      modifies this
      ensures State() == GameState.Apply(old(State()), e)
      ensures GameState.Inv(old(State())) ==> GameState.Inv(State())
    {
      if GameState.Inv(State()) {
        GameProperties.ApplyInv(State(), e);
      }
      if screen != GameState.Playing {
        return;
      }
      match e
      case Advance => ClickAdvance();
      case PickOption(i) => ClickOption(i);
      case PickTrueFalse(b) => ClickTrueFalse(b);
      case SubmitText(text) => SubmitShort(text);
      case Next => ClickNext();
      case TimerTick => Tick();
    }

    /** `markCompleted`: records the lesson as done with the number of right
        answers of both phases. */
    method MarkCompleted(store: Completion.LocalStore, now: int)
      modifies store
      ensures store.saved == Some(Completion.Marked(old(store.saved),
                                                    Completion.Key(classId, subjectId, lessonId),
                                                    Completion.Entry(now, bossCorrect + normalCorrect)))
    {
      store.MarkCompleted(classId, subjectId, lessonId, now, bossCorrect + normalCorrect);
    }
  }

  /** Why `init` shows the error screen: the parameters were refused or the
      lesson did not load. */
  datatype StartError = BadParams(param: Loader.ParamError) | NotLoaded(load: Loader.LoadError)

  /** `init`: parse the parameters, load the lesson, then start the game.
      `fetched`, `theory` and the two `pick` functions stand for the two
      fetches and `Math.random`. */
  method Init(query: map<string, string>, fetched: Option<Content.PracticeDb>, theory: Option<Content.TheoryDb>,
              pickNormal: nat -> nat, pickBoss: nat -> nat)
    returns (r: Result<Session, StartError>)
    ensures Loader.ParseParams(query).Failure? ==> r == Failure(BadParams(Loader.ParseParams(query).error))
    ensures Loader.ParseParams(query).Success? && fetched.None? ==> r == Failure(NotLoaded(Loader.FetchFailed))
    ensures Loader.ParseParams(query).Success? && fetched.Some? ==>
      var d := Loader.FindLessonData(fetched.value, Loader.ParseParams(query).value);
      && (r == Failure(NotLoaded(Loader.LessonNotFound)) <==> d.None?)
      && (r == Failure(NotLoaded(Loader.NoQuestions)) <==>
            d.Some? && Loader.RawNormal(d.value) == [] && Loader.RawBoss(d.value) == [])
      && (r.Success? <==> d.Some? && (Loader.RawNormal(d.value) != [] || Loader.RawBoss(d.value) != []))
    ensures r.Success? ==>
      && Loader.ParseParams(query).Success? && fetched.Some?
      && var p := Loader.ParseParams(query).value;
      && var d := Loader.FindLessonData(fetched.value, p);
      && d.Some?
      && multiset(r.value.normalQs) == multiset(Questions.Validate(Loader.RawNormal(d.value)))
      && multiset(r.value.bossQs) == multiset(Questions.Validate(Loader.RawBoss(d.value)))
      && fresh(r.value)
      && r.value.classId == p.classId && r.value.subjectId == p.subjectId && r.value.lessonId == p.lessonId
      && r.value.lessonTitle == Loader.GameTitle(theory, p)
      && r.value.State() == GameState.Start(r.value.normalQs, r.value.bossQs)
      && GameState.Inv(r.value.State())
  {
    var parsed := Loader.ParseParams(query);
    if parsed.Failure? {
      return Failure(BadParams(parsed.error));
    }
    var loaded := Loader.LoadData(fetched, theory, parsed.value, pickNormal, pickBoss);
    if loaded.Failure? {
      return Failure(NotLoaded(loaded.error));
    }
    var g := new Session(parsed.value, loaded.value);
    r := Success(g);
  }
}
