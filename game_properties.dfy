/**
 * What the game promises, proved about the transitions of `GameState`:
 * the invariant holds from the start and after every event, the energy
 * stays in bounds, each question is scored at most once, the guard makes a
 * second answer change nothing, and the boss phase, the countdown and the
 * end screens follow the rules of Game/game.js.
 */
module GameProperties {
  import opened Wrappers
  import opened Questions
  import opened Text
  import opened GameState

  // ----- the invariant is preserved -----

  lemma StartInv(normalQs: seq<Question>, bossQs: seq<Question>)
    ensures Inv(Start(normalQs, bossQs))
  {
  }

  /** The state `activateBossPhase` is entered in: every normal question
      moved past, panel hidden, no timer. */
  predicate ReadyForBoss(t: Snapshot) {
    && t.screen == Playing && t.phase == NormalPhase && t.panel.Hidden? && t.timer.None?
    && t.nIndex == |t.normalQs| && t.energyMax == |t.normalQs|
    && 0 <= t.energy == t.normalCorrect && NormalScored(t) == t.nIndex
    && t.bIndex == 0 && BossScored(t) == 0
  }

  lemma ActivateInv(t: Snapshot)
    requires ReadyForBoss(t)
    ensures Inv(ActivateBossPhase(t))
  {
    if |t.bossQs| > 0 {
      var u := t.(phase := BossPhase, bIndex := 0, advanceEnabled := false);
      var q := u.bossQs[0];
      assert ActivateBossPhase(t) == StartBossTimer(ShowQuestion(u, q, BossPhase), q);
      assert RingFor(BossTime) == Calm;
    }
  }

  lemma AdvanceInv(s: Snapshot)
    requires Inv(s) && s.screen == Playing
    ensures Inv(ClickAdvance(s))
  {
    if s.advanceEnabled && s.phase == NormalPhase && s.nIndex >= |s.normalQs| {
      ActivateInv(s);
    }
  }

  /** `handleAnswer` on the question on screen, before it was answered. */
  lemma HandleAnswerInv(s: Snapshot, isRight: bool, q: Question, mode: Phase)
    requires Inv(s) && s.screen == Playing && !s.answered
    requires s.panel == Open(mode, q, None)
    ensures Inv(HandleAnswer(s, isRight, q, mode))
  {
    var t := Score(s.(answered := true), isRight, mode);
    if mode == NormalPhase {
      assert t.timer == s.timer;
    } else {
      assert t.timer.None?;
    }
  }

  lemma OptionInv(s: Snapshot, i: nat)
    requires Inv(s) && s.screen == Playing
    ensures Inv(ClickOption(s, i))
  {
    match s.panel
    case Open(mode, q, _) =>
      if q.Choice? && i < |q.options| && !s.answered {
        HandleAnswerInv(s, q.answer == Number(i), q, mode);
      }
    case Hidden =>
  }

  lemma TrueFalseInv(s: Snapshot, chosen: bool)
    requires Inv(s) && s.screen == Playing
    ensures Inv(ClickTrueFalse(s, chosen))
  {
    match s.panel
    case Open(mode, q, _) =>
      if q.TrueFalse? && !s.answered {
        HandleAnswerInv(s, q.answer == Boolean(chosen), q, mode);
      }
    case Hidden =>
  }

  lemma SubmitInv(s: Snapshot, text: string)
    requires Inv(s) && s.screen == Playing
    ensures Inv(SubmitShort(s, text))
  {
    match s.panel
    case Open(mode, q, _) =>
      if q.Short? && !s.answered && Normalize(text) != [] {
        HandleAnswerInv(s, ShortCorrect(q.accepted, Normalize(text)), q, mode);
      }
    case Hidden =>
  }

  lemma NextInv(s: Snapshot)
    requires Inv(s) && s.screen == Playing
    ensures Inv(ClickNext(s))
  {
    match s.panel
    case Open(mode, q, Some(_)) =>
      var h := s.(panel := Hidden);
      if mode == NormalPhase {
        var t := h.(nIndex := h.nIndex + 1);
        if t.nIndex >= |t.normalQs| {
          ActivateInv(t);
        }
      } else {
        var t := h.(bIndex := h.bIndex + 1);
        if !(t.bIndex >= |t.bossQs| && t.energy > 0) {
          assert t.bIndex < |t.bossQs|;
          assert RingFor(BossTime) == Calm;
        }
      }
    case _ =>
  }

  lemma TickInv(s: Snapshot)
    requires Inv(s) && s.screen == Playing
    ensures Inv(Tick(s))
  {
  }

  lemma ApplyInv(s: Snapshot, e: Event)
    requires Inv(s)
    ensures Inv(Apply(s, e))
  {
    if s.screen == Playing {
      match e
      case Advance => AdvanceInv(s);
      case PickOption(i) => OptionInv(s, i);
      case PickTrueFalse(b) => TrueFalseInv(s, b);
      case SubmitText(text) => SubmitInv(s, text);
      case Next => NextInv(s);
      case TimerTick => TickInv(s);
    }
  }

  lemma {:induction false} RunInv(s: Snapshot, es: seq<Event>)
    requires Inv(s)
    ensures Inv(Run(s, es))
    decreases |es|
  {
    if es != [] {
      ApplyInv(s, es[0]);
      RunInv(Apply(s, es[0]), es[1..]);
    }
  }

  /** The question lists are never changed by an event. */
  lemma ApplyKeepsQuestions(s: Snapshot, e: Event)
    ensures Apply(s, e).normalQs == s.normalQs && Apply(s, e).bossQs == s.bossQs
  {
    if s.screen == Playing {
      match e
      case Advance => AdvanceKeeps(s);
      case PickOption(i) => OptionKeeps(s, i);
      case PickTrueFalse(b) => TrueFalseKeeps(s, b);
      case SubmitText(text) => SubmitKeepsQuestions(s, text);
      case Next => NextKeeps(s);
      case TimerTick => TickKeeps(s);
    }
  }

  predicate SameQuestions(s: Snapshot, t: Snapshot) {
    t.normalQs == s.normalQs && t.bossQs == s.bossQs
  }

  lemma AdvanceKeeps(s: Snapshot)
    ensures SameQuestions(s, ClickAdvance(s))
  {
  }

  lemma OptionKeeps(s: Snapshot, i: nat)
    ensures SameQuestions(s, ClickOption(s, i))
  {
    if s.panel.Open? && s.panel.q.Choice? && i < |s.panel.q.options| && !s.answered {
      HandleAnswerKeepsQuestions(s, s.panel.q.answer == Number(i), s.panel.q, s.panel.mode);
    }
  }

  lemma TrueFalseKeeps(s: Snapshot, b: bool)
    ensures SameQuestions(s, ClickTrueFalse(s, b))
  {
    if s.panel.Open? && s.panel.q.TrueFalse? && !s.answered {
      HandleAnswerKeepsQuestions(s, s.panel.q.answer == Boolean(b), s.panel.q, s.panel.mode);
    }
  }

  lemma NextKeeps(s: Snapshot)
    ensures SameQuestions(s, ClickNext(s))
  {
  }

  lemma TickKeeps(s: Snapshot)
    ensures SameQuestions(s, Tick(s))
  {
  }

  lemma SubmitKeepsQuestions(s: Snapshot, text: string)
    ensures SubmitShort(s, text).normalQs == s.normalQs && SubmitShort(s, text).bossQs == s.bossQs
  {
    if s.panel.Open? && s.panel.q.Short? && !s.answered {
      var raw := Normalize(text);
      if raw != [] {
        var isRight := ShortCorrect(s.panel.q.accepted, raw);
        HandleAnswerKeepsQuestions(s, isRight, s.panel.q, s.panel.mode);
        assert SubmitShort(s, text) == HandleAnswer(s, isRight, s.panel.q, s.panel.mode);
      }
    }
  }

  lemma HandleAnswerKeepsQuestions(s: Snapshot, isRight: bool, q: Question, mode: Phase)
    ensures HandleAnswer(s, isRight, q, mode).normalQs == s.normalQs
    ensures HandleAnswer(s, isRight, q, mode).bossQs == s.bossQs
  {
    if !s.answered {
      assert SameQuestions(s, Score(s.(answered := true), isRight, mode));
    }
  }

  lemma {:induction false} RunKeepsQuestions(s: Snapshot, es: seq<Event>)
    ensures Run(s, es).normalQs == s.normalQs && Run(s, es).bossQs == s.bossQs
    decreases |es|
  {
    if es != [] {
      ApplyKeepsQuestions(s, es[0]);
      RunKeepsQuestions(Apply(s, es[0]), es[1..]);
    }
  }

  /** Every state a game can reach satisfies the invariant. */
  lemma ReachableInv(normalQs: seq<Question>, bossQs: seq<Question>, es: seq<Event>)
    ensures Inv(Run(Start(normalQs, bossQs), es))
    ensures Run(Start(normalQs, bossQs), es).normalQs == normalQs
    ensures Run(Start(normalQs, bossQs), es).bossQs == bossQs
  {
    StartInv(normalQs, bossQs);
    RunInv(Start(normalQs, bossQs), es);
    RunKeepsQuestions(Start(normalQs, bossQs), es);
  }

  // ----- energy and scoring -----

  /** The energy never leaves `0 .. energyMax`. */
  lemma EnergyInBounds(s: Snapshot)
    requires Inv(s)
    ensures 0 <= s.energy <= s.energyMax
  {
    assert s.normalCorrect <= NormalScored(s);
  }

  lemma ReachableEnergyInBounds(normalQs: seq<Question>, bossQs: seq<Question>, es: seq<Event>)
    ensures var s := Run(Start(normalQs, bossQs), es); 0 <= s.energy <= s.energyMax
  {
    ReachableInv(normalQs, bossQs, es);
    EnergyInBounds(Run(Start(normalQs, bossQs), es));
  }

  /** No more results are recorded than there are questions. */
  lemma ScoredWithinQuestions(s: Snapshot)
    requires Inv(s)
    ensures NormalScored(s) <= |s.normalQs| && BossScored(s) <= |s.bossQs|
  {
  }

  /** One event records at most one result, and only when the question on
      screen was not yet answered; afterwards it is. */
  lemma ScoredAtMostOnce(s: Snapshot, e: Event)
    requires Inv(s)
    ensures var t := Apply(s, e);
      && NormalScored(s) <= NormalScored(t) && BossScored(s) <= BossScored(t)
      && NormalScored(t) + BossScored(t) <= NormalScored(s) + BossScored(s) + 1
      && (NormalScored(t) + BossScored(t) > NormalScored(s) + BossScored(s) ==> !s.answered && t.answered)
  {
    StepCases(s, e);
  }

  /** The energy rises only on a right answer to a normal question, by one,
      and falls only on a wrong boss answer or a timeout, by one. */
  lemma EnergyChanges(s: Snapshot, e: Event)
    requires Inv(s)
    ensures var t := Apply(s, e);
      && (t.energy > s.energy ==>
            s.phase == NormalPhase && t.energy == s.energy + 1 && t.normalCorrect == s.normalCorrect + 1)
      && (t.energy < s.energy ==>
            s.phase == BossPhase && t.energy == s.energy - 1 && t.bossWrong == s.bossWrong + 1)
  {
    StepCases(s, e);
  }

  /** What `ScoredAtMostOnce` says of one step from `s` to `t`. */
  predicate OneResult(s: Snapshot, t: Snapshot) {
    && NormalScored(s) <= NormalScored(t) && BossScored(s) <= BossScored(t)
    && NormalScored(t) + BossScored(t) <= NormalScored(s) + BossScored(s) + 1
    && (NormalScored(t) + BossScored(t) > NormalScored(s) + BossScored(s) ==> !s.answered && t.answered)
  }

  /** What `EnergyChanges` says of one step from `s` to `t`. */
  predicate EnergyStep(s: Snapshot, t: Snapshot) {
    && (t.energy > s.energy ==>
          s.phase == NormalPhase && t.energy == s.energy + 1 && t.normalCorrect == s.normalCorrect + 1)
    && (t.energy < s.energy ==>
          s.phase == BossPhase && t.energy == s.energy - 1 && t.bossWrong == s.bossWrong + 1)
  }

  /** Both step properties, handler by handler. */
  lemma StepCases(s: Snapshot, e: Event)
    requires Inv(s)
    ensures OneResult(s, Apply(s, e)) && EnergyStep(s, Apply(s, e))
  {
    if s.screen == Playing {
      match e
      case Advance => AdvanceStep(s);
      case PickOption(i) => OptionStep(s, i);
      case PickTrueFalse(b) => TrueFalseStep(s, b);
      case SubmitText(text) => SubmitStep(s, text);
      case Next => NextStep(s);
      case TimerTick => TickStep(s);
    }
  }

  lemma OptionStep(s: Snapshot, i: nat)
    requires Inv(s) && s.screen == Playing
    ensures OneResult(s, ClickOption(s, i)) && EnergyStep(s, ClickOption(s, i))
  {
    if s.panel.Open? && s.panel.q.Choice? && i < |s.panel.q.options| && !s.answered {
      AnswerStep(s, s.panel.q.answer == Number(i), s.panel.q);
    }
  }

  lemma TrueFalseStep(s: Snapshot, b: bool)
    requires Inv(s) && s.screen == Playing
    ensures OneResult(s, ClickTrueFalse(s, b)) && EnergyStep(s, ClickTrueFalse(s, b))
  {
    if s.panel.Open? && s.panel.q.TrueFalse? && !s.answered {
      AnswerStep(s, s.panel.q.answer == Boolean(b), s.panel.q);
    }
  }

  lemma SubmitStep(s: Snapshot, text: string)
    requires Inv(s) && s.screen == Playing
    ensures OneResult(s, SubmitShort(s, text)) && EnergyStep(s, SubmitShort(s, text))
  {
    if s.panel.Open? && s.panel.q.Short? && !s.answered {
      SubmitNormalized(s, text);
      if Normalize(text) != [] {
        AnswerStep(s, ShortCorrect(s.panel.q.accepted, Normalize(text)), s.panel.q);
      }
    }
  }

  lemma AnswerStep(s: Snapshot, isRight: bool, q: Question)
    requires Inv(s) && s.screen == Playing && s.panel.Open? && !s.answered
    ensures var t := HandleAnswer(s, isRight, q, s.panel.mode); OneResult(s, t) && EnergyStep(s, t)
  {
  }

  lemma AdvanceStep(s: Snapshot)
    requires Inv(s) && s.screen == Playing
    ensures OneResult(s, ClickAdvance(s)) && EnergyStep(s, ClickAdvance(s))
  {
  }

  lemma NextStep(s: Snapshot)
    requires Inv(s) && s.screen == Playing
    ensures OneResult(s, ClickNext(s)) && EnergyStep(s, ClickNext(s))
  {
  }

  lemma TickStep(s: Snapshot)
    requires Inv(s) && s.screen == Playing
    ensures OneResult(s, Tick(s)) && EnergyStep(s, Tick(s))
  {
  }

  /** During the normal phase the energy is exactly the number of normal
      questions answered right. */
  lemma NormalEnergyIsCorrectCount(s: Snapshot)
    requires Inv(s) && s.phase == NormalPhase
    ensures s.energy == s.normalCorrect
  {
  }

  // ----- the double-submission guard -----

  /** Once the question on screen is answered, no answer control and no
      timer tick changes anything. */
  lemma AnsweredGuard(s: Snapshot, e: Event)
    requires Inv(s) && s.answered
    requires e.PickOption? || e.PickTrueFalse? || e.SubmitText? || e.TimerTick?
    ensures Apply(s, e) == s
  {
  }

  /** Every question shown starts unanswered. */
  lemma ShownQuestionIsUnanswered(s: Snapshot, e: Event)
    requires Inv(s)
    ensures var t := Apply(s, e);
      t.screen == Playing && t.panel.Open? && t.panel.next.None? ==> !t.answered
  {
    ApplyInv(s, e);
  }

  // ----- the per-type answer checks -----

  /** A type-1 question is answered right exactly when the clicked index is
      the answer. */
  lemma ChoiceCheck(s: Snapshot, i: nat)
    requires Inv(s) && s.screen == Playing && !s.answered
    requires s.panel.Open? && s.panel.q.Choice? && i < |s.panel.q.options|
    ensures s.panel.mode == NormalPhase ==>
      (Apply(s, PickOption(i)).normalCorrect == s.normalCorrect + 1 <==> s.panel.q.answer == Number(i))
    ensures s.panel.mode == BossPhase ==>
      (Apply(s, PickOption(i)).bossCorrect == s.bossCorrect + 1 <==> s.panel.q.answer == Number(i))
  {
  }

  /** A type-2 question is answered right exactly when the chosen boolean is
      the answer. */
  lemma TrueFalseCheck(s: Snapshot, chosen: bool)
    requires Inv(s) && s.screen == Playing && !s.answered
    requires s.panel.Open? && s.panel.q.TrueFalse?
    ensures s.panel.mode == NormalPhase ==>
      (Apply(s, PickTrueFalse(chosen)).normalCorrect == s.normalCorrect + 1 <==> s.panel.q.answer == Boolean(chosen))
    ensures s.panel.mode == BossPhase ==>
      (Apply(s, PickTrueFalse(chosen)).bossCorrect == s.bossCorrect + 1 <==> s.panel.q.answer == Boolean(chosen))
  {
  }

  lemma ApplySubmit(s: Snapshot, text: string)
    requires s.screen == Playing
    ensures Apply(s, SubmitText(text)) == SubmitShort(s, text)
  {
  }

  lemma SubmitNormalized(s: Snapshot, text: string)
    requires s.panel.Open? && s.panel.q.Short? && !s.answered
    ensures Normalize(text) == [] ==> SubmitShort(s, text) == s
    ensures Normalize(text) != [] ==>
      SubmitShort(s, text) == HandleAnswer(s, ShortCorrect(s.panel.q.accepted, Normalize(text)), s.panel.q, s.panel.mode)
  {
  }

  /** A blank submission changes nothing. */
  lemma ShortBlankIgnored(s: Snapshot, text: string)
    requires s.screen == Playing && s.panel.Open? && s.panel.q.Short?
    requires forall k :: 0 <= k < |text| ==> IsSpace(text[k])
    ensures Apply(s, SubmitText(text)) == s
  {
    NormalizeEmptyIffBlank(text);
    ApplySubmit(s, text);
    if !s.answered {
      SubmitNormalized(s, text);
    }
  }

  /** Any other submission is scored, and is right exactly when its
      normalisation equals the normalisation of an accepted answer. */
  lemma ShortScored(s: Snapshot, text: string)
    requires Inv(s) && s.screen == Playing && !s.answered
    requires s.panel.Open? && s.panel.q.Short?
    requires exists k :: 0 <= k < |text| && !IsSpace(text[k])
    ensures Apply(s, SubmitText(text)).answered
    ensures s.panel.mode == NormalPhase ==>
      (Apply(s, SubmitText(text)).normalCorrect == s.normalCorrect + 1 <==>
         exists k :: 0 <= k < |s.panel.q.accepted| && Normalize(s.panel.q.accepted[k]) == Normalize(text))
    ensures s.panel.mode == BossPhase ==>
      (Apply(s, SubmitText(text)).bossCorrect == s.bossCorrect + 1 <==>
         exists k :: 0 <= k < |s.panel.q.accepted| && Normalize(s.panel.q.accepted[k]) == Normalize(text))
  {
    NormalizeEmptyIffBlank(text);
    ApplySubmit(s, text);
    SubmitNormalized(s, text);
    var isRight := ShortCorrect(s.panel.q.accepted, Normalize(text));
    HandleAnswerScores(s, isRight, s.panel.q, s.panel.mode);
  }

  /** `handleAnswer` on an unanswered question records exactly one result,
      right or wrong as `isRight` says. */
  lemma HandleAnswerScores(s: Snapshot, isRight: bool, q: Question, mode: Phase)
    requires !s.answered
    ensures var t := HandleAnswer(s, isRight, q, mode);
      && t.answered
      && (mode == NormalPhase ==> (t.normalCorrect == s.normalCorrect + 1 <==> isRight))
      && (mode == BossPhase ==> (t.bossCorrect == s.bossCorrect + 1 <==> isRight))
  {
  }

  // ----- the boss phase -----

  /** `activateBossPhase` after the last normal question: with no boss
      questions the game ends, won exactly when energy is left; otherwise the
      boss phase starts at its first question with a full timer. */
  lemma ActivateRules(t: Snapshot)
    requires ReadyForBoss(t)
    ensures |t.bossQs| == 0 ==> ActivateBossPhase(t).screen == (if t.energy > 0 then Won else Lost)
    ensures |t.bossQs| > 0 ==>
      var u := ActivateBossPhase(t);
      && u.screen == Playing && u.phase == BossPhase && u.bIndex == 0 && !u.answered
      && u.panel == Open(BossPhase, t.bossQs[0], None)
      && u.timer == Some(t.bossQs[0]) && u.bossSecsLeft == BossTime
  {
  }

  /** Activation before the last normal question is refused. */
  lemma ActivateTooEarly(t: Snapshot)
    requires t.nIndex < |t.normalQs|
    ensures ActivateBossPhase(t) == t
  {
  }

  /** The next button after the last normal question leads to the boss
      phase, or straight to the end screen when there are no boss
      questions. */
  lemma LastNormalNext(s: Snapshot)
    requires Inv(s) && s.screen == Playing && NormalPending(s) && s.nIndex == |s.normalQs| - 1
    ensures var t := Apply(s, Next);
      && (|s.bossQs| == 0 ==> t.screen == (if s.energy > 0 then Won else Lost))
      && (|s.bossQs| > 0 ==> t.screen == Playing && t.phase == BossPhase && t.bIndex == 0
                             && t.panel == Open(BossPhase, s.bossQs[0], None) && t.timer == Some(s.bossQs[0]))
  {
    var t := s.(panel := Hidden).(nIndex := s.nIndex + 1);
    assert ReadyForBoss(t);
    ActivateRules(t);
  }

  /** Any answer to a boss question that leaves no energy loses the game,
      even a right answer given with no energy; one that leaves energy adds
      the next button. In both cases the timer is stopped. */
  lemma BossAnswerRules(s: Snapshot, e: Event)
    requires Inv(s) && s.screen == Playing && s.phase == BossPhase && !s.answered
    requires e.PickOption? || e.PickTrueFalse? || e.SubmitText?
    ensures var t := Apply(s, e);
      t.answered ==>
        && t.timer.None?
        && (t.screen == Lost <==> t.energy == 0)
        && (t.screen == Playing ==> t.panel.next.Some?)
        && (s.energy == 0 ==> t.screen == Lost)
  {
  }

  /** The next button after a boss question moves to the next one; the game
      is won exactly when that was the last, and never lost here. */
  lemma BossNextRules(s: Snapshot)
    requires Inv(s) && s.screen == Playing && s.phase == BossPhase && s.panel.next.Some?
    ensures var t := Apply(s, Next);
      && t.bIndex == s.bIndex + 1
      && (t.screen == Won <==> s.bIndex + 1 >= |s.bossQs|)
      && t.screen != Lost
      && (t.screen == Playing ==>
            t.panel == Open(BossPhase, s.bossQs[s.bIndex + 1], None) && !t.answered
            && t.timer == Some(s.bossQs[s.bIndex + 1]) && t.bossSecsLeft == BossTime)
  {
  }

  /** The caption of the next button of a boss question announces the
      results exactly on the last one. */
  lemma BossNextLabel(s: Snapshot)
    requires Inv(s) && s.screen == Playing && s.phase == BossPhase
    ensures (NextLabelFor(s, BossPhase) == SeeResults) <==> s.bIndex == |s.bossQs| - 1
  {
  }

  // ----- the countdown -----

  /** One tick takes a second off; the ring follows the seconds left. While
      seconds remain nothing else changes; at zero the timer stops and the
      question is scored wrong once, costing one energy (not below zero),
      and the game is lost exactly when no energy is left. */
  lemma TickRules(s: Snapshot)
    requires Inv(s) && s.screen == Playing && s.timer.Some?
    ensures var t := Apply(s, TimerTick);
      && t.bossSecsLeft == s.bossSecsLeft - 1
      && t.ring == RingFor(t.bossSecsLeft)
      && (t.bossSecsLeft > 0 ==> t == s.(bossSecsLeft := t.bossSecsLeft, ring := t.ring))
      && (t.bossSecsLeft == 0 ==>
            && t.timer.None? && t.answered
            && t.bossWrong == s.bossWrong + 1 && t.bossCorrect == s.bossCorrect
            && t.energy == Floor0(s.energy - 1)
            && (t.screen == Lost <==> t.energy == 0))
  {
  }

  /** The ring is critical at ten seconds or less, warns at twenty or less,
      and only gets more urgent as time runs out. */
  lemma RingThresholds(a: int, b: int)
    requires a <= b
    ensures (RingFor(a) == Critical <==> a <= 10) && (RingFor(a) == Warn <==> 10 < a <= 20)
    ensures RingFor(b) == Critical ==> RingFor(a) == Critical
    ensures RingFor(b) == Warn ==> RingFor(a) != Calm
  {
  }

  function Ticks(n: nat): (r: seq<Event>)
    ensures |r| == n && forall k :: 0 <= k < n ==> r[k] == TimerTick
  {
    seq(n, k => TimerTick)
  }

  /** An unanswered boss question is scored wrong after exactly as many
      ticks as seconds are left, and not before. */
  lemma {:induction false} TimeoutAfterSecondsLeft(s: Snapshot, n: nat)
    requires Inv(s) && s.screen == Playing && s.timer.Some?
    requires n == s.bossSecsLeft
    ensures var t := Run(s, Ticks(n));
      && t.timer.None? && t.answered
      && t.bossWrong == s.bossWrong + 1 && t.bossCorrect == s.bossCorrect
      && t.energy == Floor0(s.energy - 1)
    decreases n
  {
    var u := Apply(s, TimerTick);
    TickRules(s);
    ApplyInv(s, TimerTick);
    assert Ticks(n)[0] == TimerTick && Ticks(n)[1..] == Ticks(n - 1);
    if n > 1 {
      TimeoutAfterSecondsLeft(u, n - 1);
    } else {
      assert Ticks(0) == [];
    }
  }

  // ----- the end screens -----

  /** The end screens are final: no sequence of events changes anything. */
  lemma {:induction false} EndScreenIsFinal(s: Snapshot, es: seq<Event>)
    requires s.screen != Playing
    ensures Run(s, es) == s
    decreases |es|
  {
    if es != [] {
      EndScreenIsFinal(Apply(s, es[0]), es[1..]);
    }
  }

  /** A won game has every question scored and energy left; a lost one has
      no energy left. */
  lemma EndScreens(normalQs: seq<Question>, bossQs: seq<Question>, es: seq<Event>)
    ensures var s := Run(Start(normalQs, bossQs), es);
      && (s.screen == Won ==>
            s.energy > 0 && NormalScored(s) == |normalQs| && BossScored(s) == |bossQs|)
      && (s.screen == Lost ==> s.energy == 0 && NormalScored(s) == |normalQs|)
  {
    ReachableInv(normalQs, bossQs, es);
  }

  // ----- a whole game -----

  /** A lesson of two normal questions and one boss question. */
  const PlayNormal: seq<Question> := [Choice(["a", "b"], Number(0)), TrueFalse(Boolean(true))]
  const PlayBoss: seq<Question> := [Choice(["x", "y"], Number(1))]

  /** The states of a game in which every answer is right. */
  const FirstAnswered: Snapshot :=
    Start(PlayNormal, PlayBoss).(energy := 1, normalCorrect := 1, answered := true, advanceEnabled := false,
                                 panel := Open(NormalPhase, PlayNormal[0], Some(NextQuestion)))
  const BetweenNormals: Snapshot := FirstAnswered.(nIndex := 1, panel := Hidden, advanceEnabled := true)
  const SecondAnswered: Snapshot :=
    BetweenNormals.(energy := 2, normalCorrect := 2, advanceEnabled := false,
                    panel := Open(NormalPhase, PlayNormal[1], Some(FaceBoss)))
  const BossAsked: Snapshot :=
    SecondAnswered.(nIndex := 2, phase := BossPhase, answered := false, timer := Some(PlayBoss[0]),
                    bossSecsLeft := BossTime, ring := Calm, panel := Open(BossPhase, PlayBoss[0], None))
  const BossAnswered: Snapshot :=
    BossAsked.(answered := true, timer := None, bossCorrect := 1,
               panel := Open(BossPhase, PlayBoss[0], Some(SeeResults)))
  const GameWon: Snapshot := BossAnswered.(bIndex := 1, panel := Hidden, screen := Won)

  lemma PerfectNormalOne()
    ensures Run(Start(PlayNormal, PlayBoss), [Advance, PickOption(0)]) == FirstAnswered
  {
    RunTwo(Start(PlayNormal, PlayBoss), Advance, PickOption(0));
  }

  lemma PerfectNormalTwo()
    ensures Run(FirstAnswered, [Next, Advance, PickTrueFalse(true)]) == SecondAnswered
  {
    RunThree(FirstAnswered, Next, Advance, PickTrueFalse(true));
    assert Apply(FirstAnswered, Next) == BetweenNormals;
  }

  lemma PerfectBoss()
    ensures Run(SecondAnswered, [Next, PickOption(1), Next]) == GameWon
  {
    RunThree(SecondAnswered, Next, PickOption(1), Next);
    assert Apply(SecondAnswered, Next) == BossAsked;
    assert Apply(BossAsked, PickOption(1)) == BossAnswered;
  }

  /** Two normal questions and one boss question, all answered right: the
      game is won with every answer counted and two energy left. */
  lemma PerfectGame()
    ensures var s := Run(Start(PlayNormal, PlayBoss),
                         [Advance, PickOption(0), Next, Advance, PickTrueFalse(true), Next, PickOption(1), Next]);
      s.screen == Won && s.normalCorrect == 2 && s.bossCorrect == 1 && s.energy == 2 && s.energyMax == 2
  {
    PerfectNormalOne();
    PerfectNormalTwo();
    PerfectBoss();
    PerfectEvents();
    RunCompose(Start(PlayNormal, PlayBoss), FirstAnswered, SecondAnswered, GameWon,
               [Advance, PickOption(0)], [Next, Advance, PickTrueFalse(true)], [Next, PickOption(1), Next]);
  }

  lemma PerfectEvents()
    ensures [Advance, PickOption(0)] + [Next, Advance, PickTrueFalse(true)] + [Next, PickOption(1), Next]
         == [Advance, PickOption(0), Next, Advance, PickTrueFalse(true), Next, PickOption(1), Next]
  {
  }

  lemma RunTwo(s: Snapshot, e1: Event, e2: Event)
    ensures Run(s, [e1, e2]) == Apply(Apply(s, e1), e2)
  {
    assert [e1, e2][1..] == [e2];
    assert [e2][1..] == [];
    var s1 := Apply(s, e1);
    assert Run(s1, [e2]) == Run(Apply(s1, e2), []);
  }

  lemma RunThree(s: Snapshot, e1: Event, e2: Event, e3: Event)
    ensures Run(s, [e1, e2, e3]) == Apply(Apply(Apply(s, e1), e2), e3)
  {
    assert [e1, e2, e3][1..] == [e2, e3];
    RunTwo(Apply(s, e1), e2, e3);
  }

  lemma RunCompose(s0: Snapshot, s1: Snapshot, s2: Snapshot, s3: Snapshot, a: seq<Event>, b: seq<Event>, c: seq<Event>)
    requires Run(s0, a) == s1 && Run(s1, b) == s2 && Run(s2, c) == s3
    ensures Run(s0, a + b + c) == s3
  {
    RunConcat(s0, a + b, c);
    RunConcat(s0, a, b);
  }

  lemma {:induction false} RunConcat(s: Snapshot, a: seq<Event>, b: seq<Event>)
    ensures Run(s, a + b) == Run(Run(s, a), b)
    decreases |a|
  {
    if a == [] {
      assert a + b == b;
    } else {
      assert (a + b)[0] == a[0] && (a + b)[1..] == a[1..] + b;
      RunConcat(Apply(s, a[0]), a[1..], b);
    }
  }
}
