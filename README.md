# Study Helper — a verified model of the game and the two content browsers

Study Helper is a set of static web pages for high-school students. Three of
them hold its logic:

- **Game** (Game/game.js) turns one practice lesson into a two-phase
  game. In the *normal* phase each right answer earns one unit of energy. In
  the *boss* phase each question has a 60-second countdown. A wrong answer
  or a timeout costs one unit of energy (never below zero), and the game is
  lost as soon as no energy is left after a boss answer. A won game can be
  recorded as completed in localStorage.
- **Practice** (Practice/practice.js) browses practice.json by class and
  subject. It shows which lessons are completed and starts the game. It
  keeps its view in the URL fragment and accepts `?class=&subject=&lesson=`
  and `?class=&subject=&done=` links.
- **Theory** (Theory/theory.js) browses theory.json by class, subject and
  lesson. It keeps its view in the URL fragment.

The model is written in Dafny, in the form each part has in the source:

- The game record `G`, updated in place by the handlers, is the class
  `GameSession.Session`. Each of its methods is specified by a pure
  transition of the same name in `GameState` on the value
  `GameState.Snapshot`, and the properties are proved about those
  transitions in `GameProperties`.
- The two browsers are the classes `Practice.Browser` and `Theory.Browser`.
  Their breadcrumbs and URL fragments are pure functions.
- The loader and the pure helpers are functions: `parseParams`, `validate`,
  the short-answer normalisation, the HTML escaper, the completion store
  and the lesson counts. `shuffle` and `loadData` are methods.

Shared modules:
- `Wrappers`: `Option` and `Result`.
- `Text`: `trim`, `toLowerCase` and `\s+` collapsing.
- `Html`: `esc` and `escHtml`.
- `HashRoute`: the `#view/id/...` encoding.
- `Questions`: question records and `validate`.
- `Content`: the two databases, title lookup and lesson counts.
- `Meta`: `CLASS_META` and `SUBJECT_META`.
- `Completion`: the `sh_game_completed` store.
- `Loader`: `parseParams`, `shuffle` and `loadData`.

The page's delayed calls are taken as immediate. These are the 400 ms
before a normal question, the 350 ms enemy-leave animation, the 600 ms
before the first boss question and the delay before `endGame('lose')`.
During each of them no control that fires a handler is enabled and the boss
timer is stopped. The events the model accepts are: the advance button, an
option button, a true/false button, a short-answer submit, the next button
and one timer tick. Once an end screen shows, events change nothing.

## Model

| member | source | states |
|---|---|---|
| GameSession.Session.constructor | Game/game.js:161-189 | The record after `loadData` and `startGame`: the ids and title are stored, the energy maximum is the number of normal questions, the energy is 0, the normal phase starts with the advance button enabled, and the game invariant holds. |
| GameSession.Session.SetNormalUI | Game/game.js:542-550 | Hides the question panel and enables the advance button; nothing else changes. |
| GameSession.Session.ClickAdvance | Game/game.js:552-563 | The advance handler: a disabled button or the boss phase does nothing; after the last normal question it activates the boss phase; otherwise it disables the button and shows the current normal question. |
| GameSession.Session.ShowQuestion | Game/game.js:568-590 | Clears the answered guard and opens the panel on the question, with no next button. |
| GameSession.Session.ClickOption | Game/game.js:594-615 | An option click on a type-1 question is passed to `handleAnswer` as right exactly when its index equals the answer; a click once answered does nothing. |
| GameSession.Session.ClickTrueFalse | Game/game.js:617-641 | A true/false click is passed to `handleAnswer` as right exactly when the chosen boolean equals the answer. |
| GameSession.Session.SubmitShort | Game/game.js:643-673 | A blank submission does nothing; any other is right exactly when its normalisation equals an accepted answer's. |
| GameSession.Session.HandleAnswer | Game/game.js:678-714 | Updates the record exactly as `GameState.HandleAnswer` prescribes. |
| GameSession.Session.Score | Game/game.js:686-703 | Updates the score, streak and energy exactly as `GameState.Score` prescribes. |
| GameSession.Session.AddNextButton | Game/game.js:727-740 | Adds the next button, captioned for the last boss question, the last normal question, or neither. |
| GameSession.Session.ClickNext | Game/game.js:742-765 | The next button: in the normal phase it advances `nIndex` and either activates the boss phase or restores the normal UI; in the boss phase it advances `bIndex` and wins when that was the last question with energy left, else starts the next boss question. |
| GameSession.Session.ActivateBossPhase | Game/game.js:796-817 | Refused while normal questions remain. With no boss questions the game ends, won exactly with energy left. Otherwise the boss phase starts at question 0. |
| GameSession.Session.StartBossQuestion | Game/game.js:822-830 | Past the last boss question the game ends by the energy verdict; otherwise it shows the question and starts its timer. |
| GameSession.Session.StartBossTimer | Game/game.js:835-858 | Stops any running timer, then starts a full 60-second one for the question with a calm ring. |
| GameSession.Session.Tick | Game/game.js:858-884 | One interval callback: one second off, the ring set from the seconds left, and the expiry handling at zero. |
| GameSession.Session.TimeUp | Game/game.js:884-902 | At zero the timer stops. An unanswered question is scored wrong and costs one energy (floored at 0). The game is lost when no energy is left; otherwise the next button is added. |
| GameSession.Session.StopBossTimer | Game/game.js:906-912 | Clears the timer and changes nothing else. |
| GameSession.Session.EndGame | Game/game.js:977-995 | Stops the timer and shows the end screen. |
| GameSession.Session.Dispatch | Game/game.js:552-563 | Any one event changes the record as `GameState.Apply` says and keeps the game invariant. |
| GameSession.Session.MarkCompleted | Game/game.js:1019-1026 | The store gains the entry `{ts: now, correct: bossCorrect + normalCorrect}` under `class__subject__lesson`, keeping every other entry of a readable store. |
| GameSession.Init | Game/game.js:1053-1083 | Refused parameters show the parameter error and a failed fetch the fetch error. Otherwise the lesson is missing, or both its raw lists are empty, or it starts: each outcome holds exactly in its case. A started game is a fresh record for the parsed ids with the game title, in the start state on the shuffled validated questions of that lesson, satisfying the invariant. |
| GameProperties.StartInv | Game/game.js:525-550 | The start state satisfies the game invariant: energy between 0 and the number of right normal answers, scored counts match the indices, and what the screen shows matches the phase. |
| GameProperties.ApplyInv | Game/game.js:552-904 | Every handler keeps the game invariant. |
| GameProperties.RunInv | Game/game.js:552-904 | Any sequence of events keeps the game invariant. |
| GameProperties.ActivateInv | Game/game.js:796-817 | Activating the boss phase after the last normal question keeps the invariant. |
| GameProperties.AdvanceInv | Game/game.js:552-563 | The advance handler keeps the invariant. |
| GameProperties.HandleAnswerInv | Game/game.js:678-714 | Answering the question on screen keeps the invariant. |
| GameProperties.OptionInv | Game/game.js:594-615 | Option clicks keep the invariant. |
| GameProperties.TrueFalseInv | Game/game.js:617-641 | True/false clicks keep the invariant. |
| GameProperties.SubmitInv | Game/game.js:643-673 | Short-answer submissions keep the invariant. |
| GameProperties.NextInv | Game/game.js:742-765 | The next button keeps the invariant. |
| GameProperties.TickInv | Game/game.js:858-902 | Timer ticks keep the invariant. |
| GameProperties.ApplyKeepsQuestions | Game/game.js:161-189 | No event changes the two question lists. |
| GameProperties.SubmitKeepsQuestions | Game/game.js:643-673 | A submission leaves both question lists unchanged. |
| GameProperties.HandleAnswerKeepsQuestions | Game/game.js:678-714 | Scoring leaves both question lists unchanged. |
| GameProperties.RunKeepsQuestions | Game/game.js:161-189 | No sequence of events changes the question lists. |
| GameProperties.ReachableInv | Game/game.js:525-904 | Every state reachable from the start satisfies the invariant and still holds the loaded questions. |
| GameProperties.EnergyInBounds | Game/game.js:278-279 | Under the invariant the energy lies between 0 and `energyMax`. |
| GameProperties.ReachableEnergyInBounds | Game/game.js:278-279 | In every reachable state the energy lies between 0 and `energyMax`. |
| GameProperties.ScoredWithinQuestions | Game/game.js:678-714 | No more normal or boss results are recorded than there are questions of that kind. |
| GameProperties.ScoredAtMostOnce | Game/game.js:679-680 | One event records at most one result, only if the question on screen was unanswered, and leaves it answered. |
| GameProperties.EnergyChanges | Game/game.js:686-703 | Energy rises only by one, on a right normal answer; it falls only by one, on a wrong boss answer or a timeout. |
| GameProperties.NormalEnergyIsCorrectCount | Game/game.js:686-688 | During the normal phase the energy equals the number of right normal answers. |
| GameProperties.AnsweredGuard | Game/game.js:679 | Once the question is answered, answer controls and ticks change nothing. |
| GameProperties.ShownQuestionIsUnanswered | Game/game.js:568-570 | A question on screen without a next button is unanswered. |
| GameProperties.ChoiceCheck | Game/game.js:601-603 | A type-1 click scores right exactly when the clicked index is the answer, in either phase. |
| GameProperties.TrueFalseCheck | Game/game.js:624-627 | A type-2 click scores right exactly when the chosen boolean is the answer, in either phase. |
| GameProperties.ApplySubmit | Game/game.js:654-666 | On the game screen a submission event is the submit handler. |
| GameProperties.SubmitNormalized | Game/game.js:654-665 | A submission whose normalised text is empty changes nothing; any other is `handleAnswer` with the exact-match verdict. |
| GameProperties.ShortBlankIgnored | Game/game.js:656-657 | A whitespace-only submission changes nothing. |
| GameProperties.ShortScored | Game/game.js:656-665 | A non-blank submission is scored, and is right exactly when its normalisation equals that of an accepted answer. |
| GameProperties.HandleAnswerScores | Game/game.js:678-701 | On an unanswered question exactly one result is recorded, right exactly when `isRight`. |
| GameProperties.ActivateRules | Game/game.js:796-817 | With no boss questions the game ends, won exactly with energy left. Otherwise the boss phase opens on question 0 with a full timer. |
| GameProperties.ActivateTooEarly | Game/game.js:798-801 | Activation while normal questions remain changes nothing. |
| GameProperties.LastNormalNext | Game/game.js:749-756 | The next button after the last normal question leads to the boss phase, or straight to the end screen when there are no boss questions. |
| GameProperties.BossAnswerRules | Game/game.js:692-713 | A boss answer stops the timer. It loses the game exactly when no energy is left, even when right with zero energy; otherwise it adds the next button. |
| GameProperties.BossNextRules | Game/game.js:758-764 | The next button in the boss phase moves to the next question. It wins exactly after the last one and never loses. |
| GameProperties.BossNextLabel | Game/game.js:732-735 | The boss next button announces the results exactly on the last boss question. |
| GameProperties.TickRules | Game/game.js:858-902 | A tick takes one second off and sets the ring. Before zero nothing else changes; at zero the question is scored wrong once and loses exactly when no energy is left. |
| GameProperties.RingThresholds | Game/game.js:874-882 | The ring is critical at ≤10 s and warns at ≤20 s, and only grows more urgent as time runs out. |
| GameProperties.Ticks | Game/game.js:858-859 | A run of `n` timer ticks. |
| GameProperties.TimeoutAfterSecondsLeft | Game/game.js:858-902 | An unanswered boss question is scored wrong after exactly as many ticks as seconds are left. |
| GameProperties.EndScreenIsFinal | Game/game.js:977-995 | After an end screen no event changes anything. |
| GameProperties.EndScreens | Game/game.js:977-995 | A won game has energy left and every question scored; a lost game has no energy left. |
| GameProperties.PerfectNormalOne | Game/game.js:552-615 | Advancing and answering the first normal question right gives one energy and the next button. |
| GameProperties.PerfectNormalTwo | Game/game.js:617-769 | Next, advance and a right true/false give two energy and the "face the boss" button. |
| GameProperties.PerfectBoss | Game/game.js:796-830 | Next, a right boss answer, and next again win the game. |
| GameProperties.PerfectGame | Game/game.js:525-995 | Two normal questions and one boss question all answered right: the game is won with 2/2 energy and three right answers. |
| GameProperties.RunCompose | Game/game.js:552-904 | Runs compose: three runs in a row are one run over the joined events. |
| GameProperties.RunConcat | Game/game.js:552-904 | Running `a + b` is running `a` then `b`. |
| GameState.Start | Game/game.js:276-279 | Definition: the record after `loadData` and `startGame`. It has the loaded lists, the normal phase at question 0, energy 0 out of a maximum equal to the number of normal questions, and no result recorded. The panel is hidden and advance is enabled. `GameProperties.StartInv` proves the invariant of it. |
| GameState.Verdict | Game/game.js:804 | Definition: `G.energy > 0 ? 'win' : 'lose'`. `GameProperties.EndScreens` proves that a win has energy left and a loss none. |
| GameState.RingFor | Game/game.js:874-882 | Definition: critical at 10 seconds or less, warning at 20 or less, calm otherwise. `GameProperties.RingThresholds` states these bounds and the monotonicity. |
| GameState.NextLabelFor | Game/game.js:732-740 | Definition: the results caption on the last boss question, the boss caption on the last normal question, "next" otherwise. `GameProperties.BossNextLabel` proves the boss case. |
| GameState.Apply | Game/game.js:552-904 | Definition: one user or timer event dispatched to its handler, and nothing once an end screen shows. `GameProperties.ApplyInv`, `ApplyKeepsQuestions` and `EndScreenIsFinal` are its partners. |
| GameState.Run | Game/game.js:552-904 | Definition: a sequence of events applied in order. `GameProperties.RunConcat`, `RunInv` and `RunKeepsQuestions` are its partners. |
| GameState.Floor0 | Game/game.js:699 | `Math.max(0, x)` is non-negative, at least `x`, and `x` itself when non-negative. |
| Loader.ParseParams | Game/game.js:214-235 | Succeeds exactly when the class and subject are valid and the lesson is non-empty. The class is checked before the subject, and an absent parameter reads as empty. |
| Loader.QueryGet | Game/game.js:216-218 | Definition: `p.get(name) \|\| ''`, so an absent parameter reads as the empty string. |
| Loader.FindLessonData | Game/game.js:244-250 | Nothing exactly when the class or subject is missing, or the lesson is neither an own key nor an inherited `Object` property. An own key gives its own lesson. |
| Loader.ValidIdsNotInherited | Game/game.js:214-235 | No accepted class or subject id names an inherited `Object` property. |
| Loader.InheritedLessonHasNoQuestions | Game/game.js:244-257 | A lesson id such as `constructor` that is not an own key is found, with both question lists empty, so loading stops with "no questions". |
| Loader.ValidIdsHaveNoUnderscore | Game/game.js:220-223 | The accepted class and subject ids contain no `_`. |
| Loader.Shuffle | Game/game.js:147-154 | Whatever random picks are made, the result is a permutation of the input of the same length. |
| Loader.LoadData | Game/game.js:240-291 | The cases are: a failed fetch; a missing lesson (an id naming an inherited `Object` property is found, with no lists); both raw lists empty (checked before validation); success. Each holds exactly in its case. On success the question lists are permutations of the validated lists and the title is the game title. |
| Loader.GameTitle | Game/game.js:281-290 | The title is the lesson id when theory.json is missing; it is never empty for a non-empty id. |
| Loader.AllUnansweredStillLoads | Game/game.js:256-274 | A non-empty lesson whose questions all lack answers passes the emptiness test and loads with no questions. |
| Questions.Validate | Game/game.js:261-274 | Validation never adds questions. |
| Questions.Normalized | Game/game.js:263-272 | Definition: one kept question by its type tag. Type 3 has its answers rewritten to their stored forms, and the other tags keep the answer as it is. `Questions.AcceptedForms` and `ValidateKept` state its properties. |
| Questions.Keep | Game/game.js:263-272 | One question yields at most one kept question. |
| Questions.ValidateKept | Game/game.js:261-274 | Every kept question is the normalised form of an input question that has an answer. |
| Questions.ValidateAllAnswered | Game/game.js:261-274 | When every question has an answer, all are kept, in order, each normalised. |
| Questions.ValidateNoneAnswered | Game/game.js:261-274 | When no question has an answer, nothing is kept. |
| Questions.ValidateAppend | Game/game.js:261-274 | Validation distributes over concatenation, so the input order is kept. |
| Questions.AcceptedForms | Game/game.js:266-271 | A scalar answer becomes one stored form and an array is mapped element-wise; every stored form is trimmed and lower-cased already. |
| Questions.StoredFormFixed | Game/game.js:266-271 | Storing a stored answer again changes nothing. |
| Questions.ShortCorrect | Game/game.js:659-662 | Right exactly when the normalised input equals the normalisation of some accepted answer (equality, not containment). |
| Questions.ShortCorrectIgnoresStoredForm | Game/game.js:266-271 | Checking against the stored forms gives the same verdict as checking against the raw answers. |
| Questions.ShortAcceptsNormalizedInput | Game/game.js:656-662 | An input is accepted exactly when its normalisation equals the normalisation of a raw accepted answer. |
| Questions.ShortIgnoresCase | Game/game.js:656-662 | "paris" is accepted for the answer "Paris". |
| Questions.ShortRejectsSuperstring | Game/game.js:661-662 | An input normalising to "paris france" is rejected for the answer "paris". |
| Questions.NormalizeParis | Game/game.js:656 | "paris" and "Paris" both normalise to "paris". |
| Text.TrimStart | Game/game.js:656 | Drops exactly the leading whitespace: the result is a suffix of the input, starts with no whitespace, and everything dropped is whitespace. |
| Text.TrimEnd | Game/game.js:656 | Drops exactly the trailing whitespace: the result is a prefix of the input, ends with no whitespace, and everything dropped is whitespace. |
| Text.Lower | Game/game.js:656 | Definition: `toLowerCase` character by character over ASCII letters. `Text.LowerChar`, `LowerFixed` and `LowerTrimShape` state its properties. |
| Text.Trim | Game/game.js:656 | `trim()`: no whitespace at either end, and empty exactly when the input is all whitespace. |
| Text.Collapse | Game/game.js:656 | Collapsing whitespace runs never lengthens the text. |
| Text.Normalize | Game/game.js:656 | Definition: trim, then lower-case, then collapse whitespace runs. `Text.NormalizeIsNormalForm`, `NormalizeIdempotent` and `NormalizeEmptyIffBlank` state its properties. |
| Text.LowerChar | Game/game.js:656 | Lower-casing leaves no upper-case letter, keeps whitespace and fixes non-letters. |
| Text.CollapseEnds | Game/game.js:656 | Collapsing whitespace runs leaves the first and last characters unchanged in kind. |
| Text.CollapseChars | Game/game.js:656 | Every character of the collapsed text is a plain space or a non-whitespace character of the input. |
| Text.CollapseSingleSpaces | Game/game.js:656 | After collapsing, no whitespace character is followed by another. |
| Text.NonSpace | Game/game.js:656 | The non-whitespace characters of a text, in order; never longer than the text. |
| Text.TrimStartNonSpace | Game/game.js:656 | Trimming the start drops whitespace only: the non-whitespace characters are the same. |
| Text.CollapseKeepsNonSpace | Game/game.js:656 | Collapsing whitespace runs keeps every non-whitespace character, in order: with all whitespace removed, the result equals the input. |
| Text.TrimFixed | Game/game.js:656 | A string with no whitespace at either end is its own trim. |
| Text.LowerFixed | Game/game.js:656 | A string with no upper-case letter is its own lower-case form. |
| Text.LowerTrimShape | Game/game.js:266-271 | A trimmed, lower-cased string has no whitespace at either end and no upper-case letter. |
| Text.NormalizeIsNormalForm | Game/game.js:656 | A normalised string is trimmed, lower-case and singly spaced. |
| Text.CollapseNormal | Game/game.js:656 | Collapsing a trimmed lower-case string gives normal form. |
| Text.NormalFormIsFixed | Game/game.js:656 | Normalising a string in normal form leaves it unchanged. |
| Text.CollapseFixed | Game/game.js:656 | A singly spaced string is its own collapse. |
| Text.NormalizeIdempotent | Game/game.js:656 | Normalising twice is normalising once. |
| Text.NormalizeEmptyIffBlank | Game/game.js:656-657 | The normalised input is empty exactly when the input is all whitespace. |
| Text.NormalizeAbsorbsTrimLower | Game/game.js:266-271 | Normalising a trimmed, lower-cased string gives the same as normalising the original. |
| Html.ReplaceAllAppend | Game/game.js:143-145 | A global replacement distributes over concatenation. |
| Html.ReplaceAllAbsent | Game/game.js:143-145 | Replacing an absent character changes nothing. |
| Html.Escape | Game/game.js:143-145 | Definition: the four global replacements in source order, `&` first. `Html.EscapeIsPerCharacter` ties it to the per-character reference `Html.EscapeEach`. |
| Html.EscapeIsPerCharacter | Game/game.js:143-145 | The four chained replacements equal escaping each character on its own, `&` first so no entity is escaped twice. |
| Html.EscapeCharChain | Game/game.js:143-145 | Each character goes through the chain of replacements to its own entity. |
| Html.ChainAmp | Game/game.js:143-145 | `&` becomes `&amp;` and later replacements keep it. |
| Html.ChainLt | Game/game.js:143-145 | `<` becomes `&lt;`. |
| Html.ChainGt | Game/game.js:143-145 | `>` becomes `&gt;`. |
| Html.ChainQuot | Game/game.js:143-145 | `"` becomes `&quot;`. |
| Html.ChainPlain | Game/game.js:143-145 | Any other character is kept. |
| Html.EscapeHasNoMarkup | Theory/theory.js:327-333 | The escaped text contains no raw `<`, `>` or `"`. |
| Html.EscapeEachNoMarkup | Theory/theory.js:327-333 | The per-character escape contains no raw `<`, `>` or `"`. |
| Html.EscapePlainText | Theory/theory.js:327-333 | Text without the four special characters is left as it is. |
| HashRoute.HashOf | Practice/practice.js:145-146 | Definition: `'#' +` the non-empty components joined with `/`. `HashRoute.HashRoundTrip` is its inverse. |
| HashRoute.Segments | Practice/practice.js:361-362 | Definition: the first `#` removed, split at `/`, empty pieces dropped. `HashRoute.HashRoundTrip` is its partner. |
| HashRoute.NonEmpty | Practice/practice.js:145 | `filter(Boolean)` keeps only non-empty components, all from the input. |
| HashRoute.Split | Practice/practice.js:362 | `split` never returns an empty array. |
| HashRoute.NonEmptyOfNonEmpty | Practice/practice.js:145 | Filtering components that are all non-empty keeps them all. |
| HashRoute.SplitNoSeparator | Practice/practice.js:362 | A text without the separator splits into itself. |
| HashRoute.SplitAtSeparator | Practice/practice.js:362 | Splitting at the first separator peels off the first piece. |
| HashRoute.SplitJoin | Practice/practice.js:145 | Splitting a join of separator-free pieces gives the pieces back. |
| HashRoute.HashRoundTrip | Practice/practice.js:360-370 | Reading the fragment `navigate` wrote yields exactly its non-empty components, provided none contains `/`. |
| HashRoute.OrNull | Practice/practice.js:367-368 | `x || null`: absent exactly for the empty text, and the text itself otherwise. |
| HashRoute.Truthy | Practice/practice.js:190-197 | The `\|\| ''` written into a `data-` attribute and the `\|\| null` read back keep a non-empty id and drop an empty one. The attribute itself is taken as returning the text written (see "## Left out"). |
| Content.FindLesson | Practice/practice.js:66 | `find` returns the first lesson with the id, and nothing exactly when none has it. |
| Content.LessonTitle | Practice/practice.js:66-67 | The title of the first matching lesson when non-empty, else the id; never empty for a non-empty id. |
| Content.PracticeLessonCount | Practice/practice.js:229-232 | Definition: 0 for a missing class, else the number of lesson keys summed over its subjects. `Content.PracticeCountAddLesson` and `SubjectWithinClassCount` state its properties. |
| Content.TheoryLessonCount | Theory/theory.js:155-158 | Definition: 0 for a missing class, else the subject array lengths summed. `Content.TheoryCountAddLesson` states its property. |
| Content.SumRemove | Practice/practice.js:229-232 | The lesson sum does not depend on the order of the keys. |
| Content.SumAdd | Practice/practice.js:229-232 | A new key adds its own size to the sum. |
| Content.EntryBelowSum | Practice/practice.js:229-232 | No subject exceeds the class sum. |
| Content.PracticeCountAddLesson | Practice/practice.js:229-232 | Adding a lesson raises its class's count by one and leaves every other class's count unchanged. |
| Content.TheoryCountAddLesson | Theory/theory.js:155-158 | Appending a lesson to a subject array raises that class's count by one. |
| Content.SubjectWithinClassCount | Practice/practice.js:229-232 | A class's count is at least the size of each of its subjects. |
| Completion.Key | Game/game.js:1023 | Definition: `class__subject__lesson`. `Completion.KeyInjective` proves that it identifies the lesson for ids without `_`. |
| Completion.IsDone | Practice/practice.js:71-77 | Definition: an entry exists under the key, and an unreadable store gives false. `Completion.DoneAfterMark` is its partner. |
| Completion.Marked | Game/game.js:1021-1025 | The new store maps the key to the entry. Every other key is present exactly when it was in a readable saved store, with its old value. |
| Completion.DoneAfterMark | Practice/practice.js:71-77 | A marked key reads as done; other keys keep their status. |
| Completion.NotShorter | Game/game.js:1023 | Where two `__` splits of one key differ in length, the shorter prefix is followed by `_` in the longer. |
| Completion.SplitAtSeparator | Game/game.js:1023 | For ids without `_`, a split of the key at `__` is unique. |
| Completion.KeyInjective | Game/game.js:1023 | For class and subject ids without `_`, two keys are equal exactly when the three ids are. |
| Completion.LocalStore.constructor | Game/game.js:1021 | The store starts with the parsed saved text. |
| Completion.LocalStore.MarkCompleted | Game/game.js:1019-1026 | The store becomes the marked store. |
| Practice.ViewNamed | Practice/practice.js:363-365 | A name is accepted exactly when it is the name of a view, and yields that view. |
| Practice.WriteHash | Practice/practice.js:145-146 | Definition: the fragment of the view and the set ids. `Practice.HashRoundTrip` is its inverse. |
| Practice.ReadHash | Practice/practice.js:360-370 | A route is read exactly when the first segment names a view. |
| Practice.HashRoundTrip | Practice/practice.js:140-149 | A reload restores the route `navigate` wrote, for ids that are non-empty, contain no `/`, and give no subject without a class. |
| Practice.SubjectWithoutClassShifts | Practice/practice.js:145 | A subject written without a class reads back as the class. |
| Practice.Crumbs | Practice/practice.js:168-182 | Home first, then the class crumb and the subject crumb when those ids are set, labelled by metadata or the id; each non-home crumb carries the class id. |
| Practice.CrumbClickTruncates | Practice/practice.js:184-199 | Clicking an earlier crumb navigates to a route whose breadcrumb ends at that crumb. |
| Practice.Esc | Practice/practice.js:55-59 | `null` escapes to empty; the result has no raw markup characters and plain text is kept. |
| Practice.GetLessonTitle | Practice/practice.js:62-68 | The id unless theory.json loaded and both ids are set; then the theory title lookup; never empty for a non-empty id. |
| Practice.TitleAgreesWithGame | Practice/practice.js:62-68 | The list shows a lesson under the title the game shows for it. |
| Practice.DoneAfterGame | Practice/practice.js:71-77 | After the game marks a lesson of a valid class and subject, exactly that lesson and the previously done ones read as done. |
| Practice.PendingFrom | Practice/practice.js:102 | `lesson` wins over `done`; empty values count as absent. |
| Practice.ArrivesWith | Practice/practice.js:84-91 | Definition: both `class` and `subject` are non-empty, the test `applyURLParams` passes before it changes anything. |
| Practice.IsDone | Practice/practice.js:71-77 | Definition: `isDone` under the key built from the current ids, with a null id printed as "null". `Practice.DoneAfterGame` is its partner. |
| Practice.SubjectLessons | Practice/practice.js:272 | Definition: `DB[classId]?.[subjectId] \|\| {}`. |
| Practice.ClearsPending | Practice/practice.js:269-345 | Definition: the subject view, listing a non-empty subject, of a class with metadata. `Practice.Browser.Render` clears the pending lesson exactly then. |
| Practice.ReturnFromGame | Practice/practice.js:83-106 | The link back from a won game opens the subject with the finished lesson to highlight. |
| Practice.ArriveFromTheory | Practice/practice.js:83-106 | The theory page's practice link opens the subject with its lesson to highlight. |
| Practice.Browser.constructor | Practice/practice.js:21-26 | The page starts at home with no ids and nothing pending. |
| Practice.Browser.Render | Practice/practice.js:329-345 | Rendering changes only `pendingLessonId`. It is cleared exactly when the subject view lists a non-empty subject of a class with metadata. |
| Practice.Browser.Navigate | Practice/practice.js:140-149 | Sets the route, writes its fragment, and renders. |
| Practice.Browser.ClickCrumb | Practice/practice.js:195-199 | A click on an earlier crumb navigates to its route; the current crumb does nothing. |
| Practice.Browser.RestoreFromHash | Practice/practice.js:360-370 | Adopts the fragment's route when it names a view, and otherwise changes nothing. |
| Practice.Browser.ApplyURLParams | Practice/practice.js:83-106 | With a class and a subject in the query: the subject view opens, the lesson to highlight is `lesson` or else `done`, and the fragment is cleared. Without them nothing changes. |
| Practice.Browser.Init | Practice/practice.js:375-399 | Nothing happens without practice.json. Otherwise the query decides the view, the fragment is read only when the view is still home, and the page renders. |
| Theory.ViewNamed | Theory/theory.js:314-316 | A name is accepted exactly when it is the name of one of the four views. |
| Theory.WriteHash | Theory/theory.js:302-303 | Definition: the fragment of the view and the set ids. `Theory.HashRoundTrip` is its inverse. |
| Theory.ReadHash | Theory/theory.js:311-322 | A route is read exactly when the first segment names a view. |
| Theory.HashRoundTrip | Theory/theory.js:295-306 | A reload restores the route `navigate` wrote, for ids that are non-empty, contain no `/`, and are set in order. |
| Theory.LessonCaption | Theory/theory.js:101-108 | The lesson crumb shows the title of a lesson with that id in the subject, or the id; never empty. |
| Theory.ClassCrumb | Theory/theory.js:89-94 | The class crumb navigates to the class view of that class alone, with a non-empty caption that falls back to the id when the class has no label. |
| Theory.SubjectCrumb | Theory/theory.js:95-100 | The subject crumb navigates to the subject view of that class and subject, with a non-empty caption that falls back to the id when the subject has no label. |
| Theory.Crumbs | Theory/theory.js:86-108 | Home first, then class, subject and lesson crumbs for the ids that are set; the lesson crumb is last. |
| Theory.CrumbClickTruncates | Theory/theory.js:110-126 | Clicking an earlier crumb navigates to a route whose breadcrumb ends at that crumb. |
| Theory.Browser.constructor | Theory/theory.js:19 | The page starts at home with no ids and no data. |
| Theory.Browser.Navigate | Theory/theory.js:295-306 | Sets the four fields and writes the fragment. |
| Theory.Browser.ClickCrumb | Theory/theory.js:119-126 | A click on an earlier crumb navigates to its route; the current crumb does nothing. |
| Theory.Browser.RestoreFromHash | Theory/theory.js:311-322 | Adopts the fragment's route when it names a view, and otherwise changes nothing. |
| Theory.Browser.Init | Theory/theory.js:338-351 | Reads the fragment first, then stores theory.json or nothing. |

## Left out

- Audio, the canvas scene, sprites, the preplash video, the HUD and all other markup are display only. So are the theme sync and `postMessage`.
- Real timers are left out. `setInterval` is the `TimerTick` event, and every `setTimeout` in the game is taken as immediate, for the reasons given above.
- `Math.random` is not modelled. `Loader.Shuffle` takes the random picks as a function parameter.
- `fetch` and `JSON.parse` are left out. Each loaded file is an `Option` of its parsed content. JSON values of unexpected shape are not modelled: a non-number `type` tag, an array answer with non-string items, or a non-object in localStorage.
- Questions.AcceptedForms: a numeric `answer` is modelled as an integer only, and its text as the decimal digits of that integer. A fractional JSON number such as `9.8` has no value in the model. Neither has one that `String()` writes in exponent form, such as `1e21` (stored as `"1e+21"`).
- The URL fragment is kept verbatim: `navigate` writes it with `history.replaceState` and `restoreFromHash` reads `location.hash`, and the model stores and reads the same text. A browser percent-encodes spaces, `"`, `<`, `>`, backticks and every non-ASCII character in a fragment. So the real page restores by `Practice.HashRoundTrip`, `Theory.HashRoundTrip` and `HashRoute.HashRoundTrip` only the ids free of those characters. An id such as `bai 1` or a Vietnamese one reads back percent-encoded.
- `encodeURIComponent` is not modelled. The `href` links between pages are not modelled either, except as the query maps the pages receive.
- `Loader.LoadData`: the emptiness test comes before `validate`, as in the code. A lesson whose every question lacks an answer therefore loads with no questions (`Loader.AllUnansweredStillLoads`). The outcome then depends on the exact lists: with no boss questions either, the game shows its end screen with no energy left.
- Case folding to lower case is modelled for ASCII letters only. `toLowerCase` on other characters is not modelled.
- Question type tags other than 1, 2 and 3 (`Untyped`) get no answer controls, as in the code; only the timer can end such a question.
- The theory breadcrumb inserts its captions into the page without escaping. Only the captions themselves are modelled.
- HashRoute.Truthy takes the round trip of an id through an unescaped `data-` attribute (practice.js:190-197, theory.js:115-125) as the identity. The HTML parser does not return every id unchanged. An id holding `"` is cut at the quote, and one holding a character reference reads back decoded (`a&amp;b` as `a&b`). On the page a click on the crumb of such an id navigates to the altered id.
- Practice.Browser.ClickCrumb: navigates to the ids as written into the crumb, so for an id holding `"` or a character reference it promises the route the page would reach only if the attribute kept the id unchanged (see `HashRoute.Truthy` above).
- Theory.Browser.ClickCrumb: the same gap as `Practice.Browser.ClickCrumb`, for the theory breadcrumb (theory.js:115-125).
- Practice.CrumbClickTruncates: holds of the model; on the page it holds only for ids free of `"` and `&`.
- Theory.CrumbClickTruncates: holds of the model; on the page it holds only for ids free of `"` and `&`.
- `renderSubject` of Practice reads `CLASS_META[classId].label` after finding lessons. For a class without metadata this throws, so `pendingLessonId` stays set. `Practice.ClearsPending` models that throw and nothing else of the markup. `Meta.ClassLabel` models `CLASS_META` as a map of the listed classes only. An id naming an inherited `Object` property, such as `constructor`, finds a truthy value in the page. There `renderSubject` does not throw and `pendingLessonId` is cleared, unlike the model. A render that throws, such as the theory class view of a class without metadata (theory.js:169) or the practice class or subject view of such a class (practice.js:241-243), stops before the breadcrumb is drawn. `Practice.Browser.Breadcrumb`, `Theory.Browser.Breadcrumb` and both `ClickCrumb` methods still offer the crumbs of such a route.
- `Content.PracticeLessonCount` and `Content.TheoryLessonCount` are ghost sums over map keys. JavaScript's key order does not affect a sum.
- Instruct/ is not part of this model.
