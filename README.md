# Quiz session of ignite-quiz, modelled in Dafny

ignite-quiz is a React Native quiz app. This project models the one part of it
with real logic: the session state machine of the `Quiz` screen
(`src/screens/Quiz/index.tsx`), plus the `Question` component it renders
(`src/components/Question/index.tsx`).

The screen keeps three pieces of React state: `points`, `currentQuestion` and
`alternativeSelected`. It also keeps the card's drag offset `cardPosition`.
Its handlers work as follows:

- Pressing an option selects it.
- Confirming with nothing selected opens the skip prompt ('Pular').
- Confirming with a selection scores it against the question's `correct` index, then advances.
- Advancing moves to the next question, or on the last one finishes.
- Finishing appends one record to the history store, then navigates to `finish`.
- Stopping opens the stop prompt ('Parar'). 'Sim' navigates `home`; 'Não' does nothing.
- Dragging the card left by 200 or more and releasing it opens the skip prompt.

Modules:

- `Catalog` (catalog.dfy): questions, quizzes, and the lookup by id made at mount.
- `Scoring` (scoring.dfy): what a confirmed answer is worth, and the score of a log of answers.
- `QuestionView` (question_view.dfy): the options the `Question` component renders, their `checked`
  flag and the index each one selects.
- `QuizSession` (quiz_session.dfy): the screen's state as a value. It has one function per
  handler giving the state after it, an invariant, and the lemmas about them. It also models
  the screen as a sequence of user events (`Step`, `Run`).
- `QuizScreen` (quiz_screen.dfy): the screen as a class `Session`. Its fields are updated in
  place by one method per handler. Each method is proved to leave exactly the state that the
  matching `QuizSession` function describes, and to keep the invariant.
- `QuizScenarios` (scenarios.dfy): small concrete sessions worked through the model.

How the source's semantics are represented:

- **Render snapshots.** Each handler reads the state of the render that created it. A queued
  update such as `setPoints(prev => prev + 1)` lands after the handler returns. So when the
  confirm handler scores the last answer and then finishes in the same call, the finish handler
  reads the old `points`. The model passes these "rendered" points explicitly. As a result the
  stored record and the finish screen leave out a correct last answer, while the screen's own
  `points` counts it (`LastCorrectAnswerNotRecorded`, `AllCorrectRecordsOneLess`).
- **Alerts.** Each `Alert.alert` is an open prompt held in the state. The user's answer ('Sim'
  or 'Não') is a separate event. While a prompt is open, nothing else on the screen responds.
- **History store.** The store is a ghost sequence of records that only finishing appends to.
  The record's id is the clock reading, given as a parameter.
- **Navigation.** `navigate` is an abstract `Screen` value: still on the quiz, `Finish(points,
  total)`, or `Home`. No event reaches the screen after it has navigated away.
- **Drag offsets.** `translationX` and `cardPosition` are `real`. The source compares them only
  with `< 0` and `<= -200`.

Behaviour of the code that the model keeps as written:

- The confirm handler moves to the next question right after scoring the answer
  (src/screens/Quiz/index.tsx:130). The effect that would advance on a change of `points` is
  commented out (:224-228). The overlay is always given status 0 (:236).
- The record stores the points as the finish handler saw them, not the final count (see above).
- Skipping through the drag gesture does not clear the selection. "Sim" on that prompt only
  runs `handleNextQuestion`, so an option selected before the drag stays selected on the next
  question (`DragSkipKeepsSelection`). The selection is cleared only by a confirm that had one.
- An unknown quiz id is not an error path: the screen would read fields of `undefined`. The
  model requires the id to be listed and the quiz to have a question.

## Model

| member | source | states |
|---|---|---|
| Catalog.FirstIndex | src/screens/Quiz/index.tsx:219 | the position found is the first quiz carrying the id; no earlier quiz carries it; `|catalog|` when none does |
| Catalog.FindById | src/screens/Quiz/index.tsx:218-222 | `filter(...)[0]` finds a quiz iff the id is listed; the quiz found carries the id and no earlier catalog entry does |
| Scoring.Score | src/screens/Quiz/index.tsx:124-128 | the points earned by a log of confirmed answers never exceed the number of answers |
| Scoring.ScoreExtremes | src/screens/Quiz/index.tsx:124-128 | zero points iff no answer was correct; full points iff every answer was correct |
| Scoring.ScoreAppend | src/screens/Quiz/index.tsx:124-128 | confirming one more answer raises the score by exactly 1 if it is correct, otherwise by 0 |
| QuestionView.OptionsFrom | src/components/Question/index.tsx:66-73 | the map yields one option per alternative, in order: title, key number, checked iff selection equals its index, press passes its index |
| QuestionView.Options | src/components/Question/index.tsx:66-73 | one option per alternative, in the same order; option i is checked iff the selection is i; pressing option i selects i |
| QuestionView.CheckedIsTheSelection | src/components/Question/index.tsx:70 | at most one option is checked; none when the selection is null; the selected one when it exists |
| QuestionView.KeysDistinct | src/components/Question/index.tsx:68 | the options' keys are pairwise distinct |
| QuizSession.Selected | src/components/Question/index.tsx:71 | pressing option i sets the selection to i whatever it was, so pressing it again changes nothing; nothing else changes |
| QuizSession.SkipAsked | src/screens/Quiz/index.tsx:89-94 | raising the skip prompt opens it and changes nothing else |
| QuizSession.StopAsked | src/screens/Quiz/index.tsx:134-148 | raising the stop prompt opens it and changes nothing else |
| QuizSession.Finished | src/screens/Quiz/index.tsx:96-109 | finishing appends exactly one record (quiz title and level, the points it was given, the number of questions) and navigates to `finish` with those points and that total; nothing else changes |
| QuizSession.Advanced | src/screens/Quiz/index.tsx:111-117 | below the last index, the index rises by exactly 1 and nothing else changes; on the last index, the index stays, one record is appended and the screen navigates to `finish`; the index stays in bounds |
| QuizSession.Confirmed | src/screens/Quiz/index.tsx:119-132 | with no selection, only the skip prompt opens; with one, points rise by 1 iff it equals the question's `correct`, the answer is logged, the selection becomes null, and the index advances or the session finishes with the points shown before this answer; points never drop |
| QuizSession.SkipAnswered | src/screens/Quiz/index.tsx:89-94 | the prompt closes; 'Sim' behaves exactly like `handleNextQuestion` with the current points; 'Não' changes nothing else |
| QuizSession.StopAnswered | src/screens/Quiz/index.tsx:134-148 | the prompt closes and no record is written; 'Sim' only navigates `home`; 'Não' changes nothing else |
| QuizSession.Dragged | src/screens/Quiz/index.tsx:200-206 | the card follows a move only when `translationX < 0`; otherwise nothing changes |
| QuizSession.Released | src/screens/Quiz/index.tsx:207-216 | releasing at `translationX <= -200` opens the skip prompt, otherwise the prompt is unchanged; the card returns to 0 either way |
| QuizSession.RenderedOptions | src/screens/Quiz/index.tsx:263-268 | the rendered question shows one option per alternative of the current question, at most one checked, none while nothing is selected |
| QuizSession.Step | src/screens/Quiz/index.tsx:261-275 | each event the screen wires up keeps the question index in bounds |
| QuizSession.InitialInv | src/screens/Quiz/index.tsx:42-48 | the state right after loading (0 points, question 0, no selection) satisfies the session invariant |
| QuizSession.AdvancedInv | src/screens/Quiz/index.tsx:111-117 | advancing keeps the invariant: index in bounds, and a record appears only together with navigation to `finish` |
| QuizSession.ConfirmedInv | src/screens/Quiz/index.tsx:119-132 | confirming keeps the invariant, in particular `points` equal to the number of correct confirmed answers |
| QuizSession.StepInv | src/screens/Quiz/index.tsx:261-275 | every event keeps the invariant |
| QuizSession.RunInv | src/screens/Quiz/index.tsx:41-222 | over any sequence of events the invariant holds and `points` never decreases |
| QuizSession.NavigatedIsFinal | src/screens/Quiz/index.tsx:105-108 | once the screen has navigated, the event filter (`Enabled`) drops every event, so with `Finished` as one atomic step a session finishes at most once; the source's live window during the `historyAdd` await (:97-108) is outside the model |
| QuizSession.StoppedWritesNothing | src/screens/Quiz/index.tsx:134-148 | a session that ends at `home` has left the history store exactly as it found it; one that finished has kept the earlier records and appended exactly one, the record of this quiz with the points shown on the finish screen |
| QuizSession.AnsweringEveryQuestion | src/screens/Quiz/index.tsx:96-132 | answering all N questions in turn finishes with exactly one record; the final points count all correct answers; the record and the finish screen count all but the last |
| QuizSession.LastCorrectAnswerNotRecorded | src/screens/Quiz/index.tsx:96-132 | when the last answer is correct, the stored record's points are one less than the screen's points |
| QuizSession.DragSkipKeepsSelection | src/screens/Quiz/index.tsx:207-216 | accepting a skip raised by the drag gesture advances the index and keeps the current selection |
| QuizSession.DecliningChangesNothing | src/screens/Quiz/index.tsx:89-94 | opening the skip or stop prompt and answering 'Não' leaves the state exactly as before, including after a confirm with no selection |
| QuizScreen.Session.constructor | src/screens/Quiz/index.tsx:42-48 | mounting with a listed id loads the first quiz with that id, with 0 points, the first question, no selection, the card at 0, and the store unchanged |
| QuizScreen.Session.SetAlternativeSelected | src/components/Question/index.tsx:71 | the new state is `Selected` of the old one |
| QuizScreen.Session.HandleSkipConfirm | src/screens/Quiz/index.tsx:89-94 | the new state is `SkipAsked` of the old one |
| QuizScreen.Session.HandleStop | src/screens/Quiz/index.tsx:134-148 | the new state is `StopAsked` of the old one, and the press is reported handled (`true`) |
| QuizScreen.Session.HandleFinished | src/screens/Quiz/index.tsx:96-109 | appends the record to the store, then navigates; the new state is `Finished` of the old one and the invariant holds |
| QuizScreen.Session.HandleNextQuestion | src/screens/Quiz/index.tsx:111-117 | the new state is `Advanced` of the old one and the invariant holds |
| QuizScreen.Session.HandleConfirm | src/screens/Quiz/index.tsx:119-132 | the new state is `Confirmed` of the old one (scored with the points snapshotted at the start) and the invariant holds |
| QuizScreen.Session.AnswerSkip | src/screens/Quiz/index.tsx:90-92 | the new state is `SkipAnswered` of the old one |
| QuizScreen.Session.AnswerStop | src/screens/Quiz/index.tsx:135-145 | the new state is `StopAnswered` of the old one |
| QuizScreen.Session.OnPanUpdate | src/screens/Quiz/index.tsx:200-206 | the new state is `Dragged` of the old one; the card never sits right of 0 |
| QuizScreen.Session.OnPanEnd | src/screens/Quiz/index.tsx:207-216 | the new state is `Released` of the old one |
| QuizScenarios.AllCorrectRecordsOneLess | src/screens/Quiz/index.tsx:96-132 | 3 questions with correct answers 0, 1, 2, answered 0, 1, 2: 3 points on screen, but `finish` and the record show 2 |
| QuizScenarios.AllWrongRecordsZero | src/screens/Quiz/index.tsx:96-132 | 2 questions with correct answers 0, 1, answered 1, 0: 0 points, and a record with 0 |
| QuizScenarios.SkipThenCorrect | src/screens/Quiz/index.tsx:89-132 | skipping question 1 of 2 and answering question 2 correctly: 1 point on screen, a record with 0 |
| QuizScenarios.StopMidSession | src/screens/Quiz/index.tsx:134-148 | one answer, then stop and 'Sim': the screen is `home` and the store is unchanged |

## Left out

- Animations and styling are not modelled, because they are floating-point work on the animation thread: the shake, the drag rotation, scroll-driven opacity and translation, the entering and exiting keyframes, and `withTiming`/`withSequence`. The card's return to 0 on release is modelled as its final value.
- The pan gesture's `activateAfterLongPress(100)` timing is not modelled.
- `handleFinished` is modelled as one atomic step: append, then navigate. In the source, `historyAdd` is awaited and the screen stays live meanwhile. A second finish during that wait, which would store a second record, is outside the model.
- A failing `historyAdd` is not modelled. The storage module (`historyAdd`, `historyGetAll`, `historyRemove`) is not part of this model; the store is an append-only sequence.
- The record id and the `finish` route parameters are kept as numbers. Their conversion with `toString`/`String` is not modelled.
- The loading phase (`isLoading` and the `Loading` render) is folded into the constructor, which also performs the lookup effect.
- Each handler is taken to run on a render that already shows all earlier updates. Two presses that land before a re-render are not modelled.
- The History screen, ProgressBar, Level, OverlayFeedback, Option, QuizCard and App.tsx are presentational or outside the session, and are not modelled.
- QuestionView.ExitCallbackRunsUnmount: the exit animation's callback (src/components/Question/index.tsx:56-62) is not modelled. It only forwards `finished` to `onUnmount`, and the Quiz screen never passes `onUnmount` to `Question` (src/screens/Quiz/index.tsx:263-268), so it has no effect on the session.
- The event model (`Step`, `Run`) drops events that cannot reach the screen: any touch while a prompt is open, a prompt answer with no matching prompt, a press of a nonexistent option, and anything after navigation. The class expresses the same conditions as preconditions.
