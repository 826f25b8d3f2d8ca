/**
 * The game record `G` of Game/game.js as a value, and every transition the
 * page's handlers make on it, as pure functions. `GameSession.Session`
 * holds the same fields and runs these transitions in place.
 *
 * The delayed calls of the page (the 400 ms before a normal question is
 * shown, the 350 ms enemy-leave animation, the 600 ms before the first boss
 * question, the delay before `endGame('lose')`) are taken as immediate:
 * during each of them no control that triggers a handler is enabled and the
 * boss timer is stopped, so nothing else can happen in between.
 */
module GameState {
  import opened Wrappers
  import opened Questions
  import opened Text

  /** `BOSS_TIME`: seconds allowed for one boss question. */
  const BossTime: int := 60

  /** `G.phase`, and equally the `mode` argument of the handlers. */
  datatype Phase = NormalPhase | BossPhase

  /** Which screen is showing: the game, or one of the two end screens. */
  datatype Screen = Playing | Won | Lost

  /** The colour class of the countdown ring. */
  datatype Ring = Calm | Warn | Critical

  /** The caption `addNextButton` gives the next button. */
  datatype NextLabel = NextQuestion | FaceBoss | SeeResults

  /** The question panel: hidden, or showing question `q` asked in `mode`,
      with the next button once `addNextButton` has added it. The answer
      controls of the panel are those `buildType1/2/3` build for `q`. */
  datatype Panel = Hidden | Open(mode: Phase, q: Question, next: Option<NextLabel>)

  /** The runtime fields of `G`, the countdown (`timer` is
      `G.bossTimerInterval`, holding the question its closure captured), and
      the parts of the page that decide which handlers can run. */
  datatype Snapshot = Snapshot(
    normalQs: seq<Question>, bossQs: seq<Question>,
    phase: Phase, nIndex: nat, bIndex: nat,
    energy: int, energyMax: int, answered: bool,
    timer: Option<Question>, bossSecsLeft: int, ring: Ring,
    normalCorrect: nat, normalWrong: nat, bossCorrect: nat, bossWrong: nat,
    screen: Screen, advanceEnabled: bool, panel: Panel)

  /** `Math.max(0, x)`. */
  function Floor0(x: int): (r: int)
    ensures r >= 0 && r >= x && (x >= 0 ==> r == x)
  {
    if x < 0 then 0 else x
  }

  /** The ring's colour for the seconds left: critical at 10 or less, warn at
      20 or less, calm otherwise. */
  function RingFor(secs: int): Ring {
    if secs <= 10 then Critical else if secs <= 20 then Warn else Calm
  }

  /** The state after `loadData` (energy seeded: the maximum is the number of
      normal questions, the energy 0) and `startGame` (`setNormalUI`). */
  function Start(normalQs: seq<Question>, bossQs: seq<Question>): Snapshot {
    Snapshot(normalQs, bossQs, NormalPhase, 0, 0, 0, |normalQs|, false,
             None, BossTime, Calm, 0, 0, 0, 0, Playing, true, Hidden)
  }

  /** `setNormalUI`: panel hidden, advance button shown and enabled. */
  function SetNormalUI(s: Snapshot): Snapshot {
    s.(panel := Hidden, advanceEnabled := true)
  }

  /** `stopBossTimer`. */
  function StopBossTimer(s: Snapshot): Snapshot {
    s.(timer := None)
  }

  /** `endGame(result)`: stops the timer and shows the end screen. */
  function EndGame(s: Snapshot, result: Screen): Snapshot {
    StopBossTimer(s).(screen := result)
  }

  /** `showQuestion`: resets the guard and opens the panel on `q`. */
  function ShowQuestion(s: Snapshot, q: Question, mode: Phase): Snapshot {
    s.(answered := false, panel := Open(mode, q, None))
  }

  /** `startBossTimer`: stops any running timer, then starts a full one for `q`. */
  function StartBossTimer(s: Snapshot, q: Question): Snapshot {
    StopBossTimer(s).(bossSecsLeft := BossTime, ring := Calm, timer := Some(q))
  }

  /** `G.energy > 0 ? 'win' : 'lose'`. */
  function Verdict(s: Snapshot): Screen {
    if s.energy > 0 then Won else Lost
  }

  /** `startBossQuestion`. */
  function StartBossQuestion(s: Snapshot): Snapshot {
    if s.bIndex >= |s.bossQs| then EndGame(s, Verdict(s))
    else
      var q := s.bossQs[s.bIndex];
      StartBossTimer(ShowQuestion(s, q, BossPhase), q)
  }

  /** `activateBossPhase`. */
  function ActivateBossPhase(s: Snapshot): Snapshot {
    if s.nIndex < |s.normalQs| then s
    else if |s.bossQs| == 0 then EndGame(s, Verdict(s))
    else StartBossQuestion(s.(phase := BossPhase, bIndex := 0, advanceEnabled := false))
  }

  /** The caption chosen by `isLastBoss` / `isLastNormal`. */
  function NextLabelFor(s: Snapshot, mode: Phase): NextLabel {
    if mode == BossPhase && s.bIndex >= |s.bossQs| - 1 then SeeResults
    else if mode == NormalPhase && s.nIndex >= |s.normalQs| - 1 then FaceBoss
    else NextQuestion
  }

  /** `addNextButton`: the next button appears under question `q`. */
  function AddNextButton(s: Snapshot, mode: Phase, q: Question): Snapshot {
    s.(panel := Open(mode, q, Some(NextLabelFor(s, mode))))
  }

  /** The scoring part of `handleAnswer`. */
  function Score(s: Snapshot, isRight: bool, mode: Phase): Snapshot {
    if mode == NormalPhase then
      if isRight then s.(energy := s.energy + 1, normalCorrect := s.normalCorrect + 1)
      else s.(normalWrong := s.normalWrong + 1)
    else
      var t := StopBossTimer(s);
      if isRight then t.(bossCorrect := t.bossCorrect + 1)
      else t.(bossWrong := t.bossWrong + 1, energy := Floor0(t.energy - 1))
  }

  /** `handleAnswer`. */
  function HandleAnswer(s: Snapshot, isRight: bool, q: Question, mode: Phase): Snapshot {
    if s.answered then s
    else
      var t := Score(s.(answered := true), isRight, mode);
      if mode == BossPhase && t.energy <= 0 then EndGame(t, Lost)
      else AddNextButton(t, mode, q)
  }

  // ----- the handlers of the page's controls and of the timer -----

  /** The advance button; a disabled or hidden button cannot be clicked. */
  function ClickAdvance(s: Snapshot): Snapshot {
    if !s.advanceEnabled then s
    else if s.phase != NormalPhase then s
    else if s.nIndex >= |s.normalQs| then ActivateBossPhase(s)
    else ShowQuestion(s.(advanceEnabled := false), s.normalQs[s.nIndex], NormalPhase)
  }

  /** Option button `i` of a type-1 question: right when `i === q.answer`. */
  function ClickOption(s: Snapshot, i: nat): Snapshot {
    match s.panel
    case Open(mode, q, _) =>
      if q.Choice? && i < |q.options| then
        if s.answered then s else HandleAnswer(s, q.answer == Number(i), q, mode)
      else s
    case Hidden => s
  }

  /** The true or false button of a type-2 question: right when
      `chosen === q.answer`. */
  function ClickTrueFalse(s: Snapshot, chosen: bool): Snapshot {
    match s.panel
    case Open(mode, q, _) =>
      if q.TrueFalse? then
        if s.answered then s else HandleAnswer(s, q.answer == Boolean(chosen), q, mode)
      else s
    case Hidden => s
  }

  /** Submitting `text` to a type-3 question: nothing happens when it is
      blank; otherwise it is right when its normalisation equals the
      normalisation of one accepted answer. */
  function SubmitShort(s: Snapshot, text: string): Snapshot {
    match s.panel
    case Open(mode, q, _) =>
      if q.Short? then
        if s.answered then s
        else
          var raw := Normalize(text);
          if raw == [] then s else HandleAnswer(s, ShortCorrect(q.accepted, raw), q, mode)
      else s
    case Hidden => s
  }

  /** The next button, present once `addNextButton` has run. */
  function ClickNext(s: Snapshot): Snapshot {
    match s.panel
    case Open(mode, q, Some(_)) =>
      var h := s.(panel := Hidden);
      if mode == NormalPhase then
        var t := h.(nIndex := h.nIndex + 1);
        if t.nIndex >= |t.normalQs| then ActivateBossPhase(t) else SetNormalUI(t)
      else
        var t := h.(bIndex := h.bIndex + 1);
        if t.bIndex >= |t.bossQs| && t.energy > 0 then EndGame(t, Won) else StartBossQuestion(t)
    case _ => s
  }

  /** One second of the boss countdown; nothing happens when no timer runs. */
  function Tick(s: Snapshot): Snapshot {
    match s.timer
    case None => s
    case Some(q) =>
      var t := s.(bossSecsLeft := s.bossSecsLeft - 1);
      var t := t.(ring := RingFor(Floor0(t.bossSecsLeft)));
      if t.bossSecsLeft > 0 then t else TimeUp(t, q)
  }

  /** The countdown reached zero on question `q`: the timer stops and, unless
      the question was answered in time, it counts as a wrong answer. */
  function TimeUp(s: Snapshot, q: Question): Snapshot {
    var t := StopBossTimer(s);
    if t.answered then t
    else
      var t := t.(answered := true, bossWrong := t.bossWrong + 1, energy := Floor0(t.energy - 1));
      if t.energy <= 0 then EndGame(t, Lost) else AddNextButton(t, BossPhase, q)
  }

  /** What can happen on the game screen. */
  datatype Event =
    | Advance
    | PickOption(i: nat)
    | PickTrueFalse(chosen: bool)
    | SubmitText(text: string)
    | Next
    | TimerTick

  /** One event. Once an end screen shows, the game screen and every control
      on it are hidden and the timer is stopped, so nothing changes. */
  function Apply(s: Snapshot, e: Event): Snapshot {
    if s.screen != Playing then s
    else
      match e
      case Advance => ClickAdvance(s)
      case PickOption(i) => ClickOption(s, i)
      case PickTrueFalse(b) => ClickTrueFalse(s, b)
      case SubmitText(text) => SubmitShort(s, text)
      case Next => ClickNext(s)
      case TimerTick => Tick(s)
  }

  /** A sequence of events, in order. */
  function Run(s: Snapshot, es: seq<Event>): Snapshot
    decreases |es|
  {
    if es == [] then s else Run(Apply(s, es[0]), es[1..])
  }

  // ----- the invariant -----

  function NormalScored(s: Snapshot): nat { s.normalCorrect + s.normalWrong }
  function BossScored(s: Snapshot): nat { s.bossCorrect + s.bossWrong }

  /** The current normal question has been scored and the player has not
      moved on yet. */
  predicate NormalPending(s: Snapshot) {
    s.panel.Open? && s.panel.mode == NormalPhase && s.panel.next.Some?
  }

  /** The state of the game screen while it is being played. */
  predicate PlayingInv(s: Snapshot)
    requires s.screen == Playing
  {
    var N, B := |s.normalQs|, |s.bossQs|;
    && (s.panel.Open? ==> (s.answered <==> s.panel.next.Some?))
    && (s.advanceEnabled ==> s.phase == NormalPhase && s.panel.Hidden?)
    && (s.phase == NormalPhase ==>
          s.panel.Open? ==> s.panel.mode == NormalPhase && s.nIndex < N && s.panel.q == s.normalQs[s.nIndex])
    && (s.phase == BossPhase ==>
          && s.panel.Open? && s.panel.mode == BossPhase
          && s.bIndex < B && s.panel.q == s.bossQs[s.bIndex]
          && (s.panel.next.Some? ==> s.energy > 0)
          && BossScored(s) == s.bIndex + (if s.answered then 1 else 0))
    && (s.timer.Some? <==> s.phase == BossPhase && !s.answered)
    && (s.timer.Some? ==>
          s.timer.value == s.panel.q && 0 < s.bossSecsLeft <= BossTime && s.ring == RingFor(s.bossSecsLeft))
  }

  /** What holds after every event: the energy stays between 0 and the normal
      questions answered right, each question is counted at most once (the
      counters equal the questions moved past plus the one on screen when it
      has been scored), and the end screens are reached only by the rules of
      the source. */
  predicate Inv(s: Snapshot) {
    var N, B := |s.normalQs|, |s.bossQs|;
    && s.energyMax == N
    && 0 <= s.energy <= s.normalCorrect
    && s.energy >= s.normalCorrect - s.bossWrong
    && s.nIndex <= N && s.bIndex <= B
    && NormalScored(s) == s.nIndex + (if NormalPending(s) then 1 else 0)
    && (NormalPending(s) ==> s.nIndex < N)
    && (s.phase == NormalPhase ==> s.energy == s.normalCorrect && s.bIndex == 0 && BossScored(s) == 0)
    && (s.phase == BossPhase ==> s.nIndex == N && B > 0)
    && (s.screen == Playing ==> PlayingInv(s))
    && (s.screen != Playing ==> s.timer.None? && s.nIndex == N && !NormalPending(s))
    && (s.screen == Won ==> s.energy > 0 && (s.phase == BossPhase ==> s.bIndex == B && BossScored(s) == B)
                                         && (s.phase == NormalPhase ==> B == 0))
    && (s.screen == Lost ==> s.energy == 0 && (s.phase == BossPhase ==> s.answered && s.bIndex < B && BossScored(s) == s.bIndex + 1)
                                          && (s.phase == NormalPhase ==> B == 0))
  }
}
