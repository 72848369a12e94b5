/**
 * The Quiz screen's session as values: a snapshot of its state, one function
 * per handler giving the state after it, and the properties of those
 * transitions. The `Session` class in module QuizScreen is proved against
 * these functions.
 *
 * Each handler runs on the values of the render that created it: the
 * `points`, `currentQuestion` and `alternativeSelected` it reads are the ones
 * on screen when it was invoked, and a `setX(prev => prev + 1)` it queues is
 * applied to the latest state. So a handler that both queues an update and
 * then reads the same state (confirm, then finish) sees the old value.
 */
module QuizSession {
  import opened Wrappers
  import opened Catalog
  import opened Scoring
  import QuestionView

  /** `CARD_SKIP_AREA`: releasing the card at or beyond this horizontal offset offers a skip. */
  const CardSkipArea: real := -200.0

  /** The two buttons of each `Alert`: 'Sim' (yes) and 'Não' (no). */
  datatype Choice = Sim | Nao

  /** Which `Alert` is open, if any; while one is open nothing else on the screen can be touched. */
  datatype Prompt = NoPrompt | SkipPrompt | StopPrompt

  /**
   * Where `navigate` has sent the user: still on the quiz, on the `finish`
   * screen with the points and total it was given, or back `home`.
   */
  datatype Screen = OnQuiz | Finish(points: nat, total: nat) | Home

  /** What `historyAdd` stores; `id` is the clock reading that the source turns into a string. */
  datatype Record = Record(id: nat, title: string, level: int, points: nat, questions: nat)

  /**
   * A snapshot of the screen: its three pieces of React state, the card's drag
   * offset, the open prompt, the route, the history store, and (for the
   * proofs) the log of answers confirmed so far.
   */
  datatype State = State(
    points: nat,
    currentQuestion: nat,
    alternativeSelected: Option<int>,
    cardPosition: real,
    prompt: Prompt,
    screen: Screen,
    history: seq<Record>,
    confirmed: seq<Answer>)

  /** The state once the quiz is loaded: nothing scored, first question, no selection. */
  function Initial(stored: seq<Record>): State {
    State(0, 0, None, 0.0, NoPrompt, OnQuiz, stored, [])
  }

  /** The screen is shown and no prompt covers it, so its buttons and the card respond. */
  predicate Interactive(s: State) {
    s.screen == OnQuiz && s.prompt == NoPrompt
  }

  /** `currentQuestion` indexes a question of the quiz. */
  predicate InBounds(quiz: Quiz, s: State) {
    s.currentQuestion < |quiz.questions|
  }

  /** The record `handleFinished` passes to `historyAdd`. */
  function RecordOf(quiz: Quiz, renderedPoints: nat, clock: nat): Record {
    Record(clock, quiz.title, quiz.level, renderedPoints, |quiz.questions|)
  }

  /** `r` is a record of this quiz carrying `points`. */
  predicate RecordFor(r: Record, quiz: Quiz, points: nat) {
    r.title == quiz.title && r.level == quiz.level && r.points == points && r.questions == |quiz.questions|
  }

  /**
   * What holds throughout a session that began with the store holding
   * `stored`: the index stays on a question, the card only ever sits left of
   * its rest position, `points` counts the correct confirmed answers, and the
   * store gains a record only by finishing, then exactly one, carrying the
   * points shown on the finish screen, which miss at most the last answer.
   */
  ghost predicate Inv(quiz: Quiz, stored: seq<Record>, s: State) {
    && |quiz.questions| > 0
    && s.currentQuestion < |quiz.questions|
    && s.cardPosition <= 0.0
    && s.points == Score(quiz.questions, s.confirmed)
    && (s.prompt != NoPrompt ==> s.screen == OnQuiz)
    && (!s.screen.Finish? ==> s.history == stored)
    && (s.screen.Finish? ==>
          && s.screen.total == |quiz.questions|
          && s.screen.points <= s.points <= s.screen.points + 1
          && |s.history| == |stored| + 1
          && s.history[..|stored|] == stored
          && RecordFor(s.history[|stored|], quiz, s.screen.points))
  }

  /** Pressing option `index` of the `Question` component: `setAlternativeSelected(index)`. */
  function Selected(s: State, index: nat): (r: State)
    ensures r.alternativeSelected == Some(index)
    ensures r.(alternativeSelected := s.alternativeSelected) == s
  {
    s.(alternativeSelected := Some(index))
  }

  /** `handleSkipConfirm`: opens the skip prompt and changes nothing else. */
  function SkipAsked(s: State): (r: State)
    ensures r.prompt == SkipPrompt
    ensures r.(prompt := s.prompt) == s
  {
    s.(prompt := SkipPrompt)
  }

  /** `handleStop`: opens the stop prompt and changes nothing else. */
  function StopAsked(s: State): (r: State)
    ensures r.prompt == StopPrompt
    ensures r.(prompt := s.prompt) == s
  {
    s.(prompt := StopPrompt)
  }

  /**
   * `handleFinished`: appends one record built from the quiz and the points
   * the handler saw, then navigates to `finish` with those points and the
   * number of questions.
   */
  function Finished(quiz: Quiz, s: State, renderedPoints: nat, clock: nat): (r: State)
    ensures |r.history| == |s.history| + 1 && r.history[..|s.history|] == s.history
    ensures RecordFor(r.history[|s.history|], quiz, renderedPoints) && r.history[|s.history|].id == clock
    ensures r.screen == Finish(renderedPoints, |quiz.questions|)
    ensures r.(history := s.history, screen := s.screen) == s
  {
    s.(history := s.history + [RecordOf(quiz, renderedPoints, clock)],
       screen := Finish(renderedPoints, |quiz.questions|))
  }

  /**
   * `handleNextQuestion`: moves to the next question unless this is the last
   * one, in which case it finishes with the points the handler saw.
   */
  function Advanced(quiz: Quiz, s: State, renderedPoints: nat, clock: nat): (r: State)
    requires InBounds(quiz, s)
    ensures InBounds(quiz, r)
    ensures s.currentQuestion < |quiz.questions| - 1 ==>
              r.currentQuestion == s.currentQuestion + 1 && r.(currentQuestion := s.currentQuestion) == s
    ensures s.currentQuestion == |quiz.questions| - 1 ==>
              && r.currentQuestion == s.currentQuestion
              && r.screen == Finish(renderedPoints, |quiz.questions|)
              && r.history == s.history + [RecordOf(quiz, renderedPoints, clock)]
              && r.(history := s.history, screen := s.screen) == s
  {
    if s.currentQuestion < |quiz.questions| - 1 then s.(currentQuestion := s.currentQuestion + 1)
    else Finished(quiz, s, renderedPoints, clock)
  }

  /**
   * `handleConfirm`: without a selection it only opens the skip prompt;
   * otherwise it scores the selection against the current question, logs the
   * answer, advances with the points shown before this answer, and clears the
   * selection.
   */
  function Confirmed(quiz: Quiz, s: State, clock: nat): (r: State)
    requires InBounds(quiz, s)
    ensures InBounds(quiz, r)
    ensures s.points <= r.points <= s.points + 1
    ensures s.alternativeSelected.None? ==> r == s.(prompt := SkipPrompt)
    ensures s.alternativeSelected.Some? ==>
              && r.points == s.points + (if IsCorrect(quiz.questions[s.currentQuestion], s.alternativeSelected.value) then 1 else 0)
              && r.confirmed == s.confirmed + [Answer(s.currentQuestion, s.alternativeSelected.value)]
              && r.alternativeSelected == None
              && r.prompt == s.prompt && r.cardPosition == s.cardPosition
    ensures s.alternativeSelected.Some? && s.currentQuestion < |quiz.questions| - 1 ==>
              r.currentQuestion == s.currentQuestion + 1 && r.screen == s.screen && r.history == s.history
    ensures s.alternativeSelected.Some? && s.currentQuestion == |quiz.questions| - 1 ==>
              && r.currentQuestion == s.currentQuestion
              && r.screen == Finish(s.points, |quiz.questions|)
              && r.history == s.history + [RecordOf(quiz, s.points, clock)]
  {
    match s.alternativeSelected
    case None => SkipAsked(s)
    case Some(selected) =>
      var scored := if IsCorrect(quiz.questions[s.currentQuestion], selected) then s.(points := s.points + 1) else s;
      var logged := scored.(confirmed := s.confirmed + [Answer(s.currentQuestion, selected)]);
      Advanced(quiz, logged, s.points, clock).(alternativeSelected := None)
  }

  /** The user's answer to the skip prompt: 'Sim' runs `handleNextQuestion`, 'Não' does nothing. */
  function SkipAnswered(quiz: Quiz, s: State, choice: Choice, clock: nat): (r: State)
    requires InBounds(quiz, s)
    ensures InBounds(quiz, r) && r.prompt == NoPrompt
    ensures choice == Nao ==> r == s.(prompt := NoPrompt)
    ensures choice == Sim ==> r == Advanced(quiz, s.(prompt := NoPrompt), s.points, clock)
  {
    var closed := s.(prompt := NoPrompt);
    if choice == Sim then Advanced(quiz, closed, s.points, clock) else closed
  }

  /** The user's answer to the stop prompt: 'Sim' navigates `home`, 'Não' does nothing; no record is written. */
  function StopAnswered(s: State, choice: Choice): (r: State)
    ensures r.history == s.history && r.prompt == NoPrompt
    ensures choice == Nao ==> r == s.(prompt := NoPrompt)
    ensures choice == Sim ==> r.screen == Home && r.(screen := s.screen) == s.(prompt := NoPrompt)
  {
    var closed := s.(prompt := NoPrompt);
    if choice == Sim then closed.(screen := Home) else closed
  }

  /** The pan gesture's `onUpdate`: the card follows the finger only while it is left of where it started. */
  function Dragged(s: State, translationX: real): (r: State)
    ensures translationX < 0.0 ==> r.cardPosition == translationX
    ensures r.(cardPosition := s.cardPosition) == s
    ensures translationX >= 0.0 ==> r == s
  {
    if translationX < 0.0 then s.(cardPosition := translationX) else s
  }

  /**
   * The pan gesture's `onEnd`: releasing at or beyond `CARD_SKIP_AREA` opens
   * the skip prompt; either way the card goes back to 0.
   */
  function Released(s: State, translationX: real): (r: State)
    ensures r.cardPosition == 0.0
    ensures translationX <= CardSkipArea ==> r.prompt == SkipPrompt
    ensures translationX > CardSkipArea ==> r.prompt == s.prompt
    ensures r.(cardPosition := s.cardPosition, prompt := s.prompt) == s
  {
    (if translationX <= CardSkipArea then SkipAsked(s) else s).(cardPosition := 0.0)
  }

  /** The options the screen renders for the current question, given its selection. */
  function RenderedOptions(quiz: Quiz, s: State): (opts: seq<QuestionView.OptionView>)
    requires InBounds(quiz, s)
    ensures |opts| == |quiz.questions[s.currentQuestion].alternatives|
    ensures forall i, j :: 0 <= i < j < |opts| ==> !(opts[i].checked && opts[j].checked)
    ensures s.alternativeSelected.None? ==> forall i :: 0 <= i < |opts| ==> !opts[i].checked
  {
    QuestionView.Options(quiz.questions[s.currentQuestion].alternatives, s.alternativeSelected)
  }

  /** One thing the user can do on the screen. */
  datatype Event =
    | PressOption(index: nat)
    | PressConfirm(clock: nat)
    | PressStop
    | AnswerSkip(choice: Choice, clock: nat)
    | AnswerStop(choice: Choice)
    | DragUpdate(translationX: real)
    | DragEnd(translationX: real)

  /**
   * Whether the event can reach the screen: an open prompt takes every touch,
   * a prompt's answer needs that prompt open, an option must exist to be
   * pressed, and nothing reaches the screen after it navigated away.
   */
  predicate Enabled(quiz: Quiz, s: State, e: Event) {
    match e
    case PressOption(i) => Interactive(s) && InBounds(quiz, s) && i < |quiz.questions[s.currentQuestion].alternatives|
    case AnswerSkip(_, _) => s.screen == OnQuiz && s.prompt == SkipPrompt
    case AnswerStop(_) => s.screen == OnQuiz && s.prompt == StopPrompt
    case _ => Interactive(s)
  }

  /** The state after one event; an event that cannot reach the screen leaves it as it is. */
  function Step(quiz: Quiz, s: State, e: Event): (r: State)
    requires InBounds(quiz, s)
    ensures InBounds(quiz, r)
  {
    if !Enabled(quiz, s, e) then s
    else match e
      case PressOption(i) => Selected(s, i)
      case PressConfirm(clock) => Confirmed(quiz, s, clock)
      case PressStop => StopAsked(s)
      case AnswerSkip(choice, clock) => SkipAnswered(quiz, s, choice, clock)
      case AnswerStop(choice) => StopAnswered(s, choice)
      case DragUpdate(x) => Dragged(s, x)
      case DragEnd(x) => Released(s, x)
  }

  /** The state after a sequence of events, in order. */
  function Run(quiz: Quiz, s: State, events: seq<Event>): (r: State)
    requires InBounds(quiz, s)
    ensures InBounds(quiz, r)
    decreases |events|
  {
    if events == [] then s else Run(quiz, Step(quiz, s, events[0]), events[1..])
  }

  // ---------------------------------------------------------------------------
  // The invariant holds from the start and across every event.

  lemma InitialInv(quiz: Quiz, stored: seq<Record>)
    requires |quiz.questions| > 0
    ensures Inv(quiz, stored, Initial(stored)) && Interactive(Initial(stored))
  {
  }

  /** Advancing keeps the invariant when the points it was given lag the current ones by at most the last answer. */
  lemma AdvancedInv(quiz: Quiz, stored: seq<Record>, s: State, renderedPoints: nat, clock: nat)
    requires Inv(quiz, stored, s) && Interactive(s)
    requires renderedPoints <= s.points <= renderedPoints + 1
    ensures Inv(quiz, stored, Advanced(quiz, s, renderedPoints, clock))
  {
    var r := Advanced(quiz, s, renderedPoints, clock);
    if s.currentQuestion == |quiz.questions| - 1 {
      assert r.history[..|stored|] == stored;
    }
  }

  lemma {:induction false} ConfirmedInv(quiz: Quiz, stored: seq<Record>, s: State, clock: nat)
    requires Inv(quiz, stored, s) && Interactive(s)
    ensures Inv(quiz, stored, Confirmed(quiz, s, clock))
  {
    if s.alternativeSelected.Some? {
      var selected := s.alternativeSelected.value;
      var a := Answer(s.currentQuestion, selected);
      ScoreAppend(quiz.questions, s.confirmed, a);
      var scored := if IsCorrect(quiz.questions[s.currentQuestion], selected) then s.(points := s.points + 1) else s;
      var logged := scored.(confirmed := s.confirmed + [a]);
      AdvancedInv(quiz, stored, logged, s.points, clock);
    }
  }

  lemma {:induction false} StepInv(quiz: Quiz, stored: seq<Record>, s: State, e: Event)
    requires Inv(quiz, stored, s)
    ensures Inv(quiz, stored, Step(quiz, s, e))
  {
    if Enabled(quiz, s, e) {
      match e
      case PressConfirm(clock) => ConfirmedInv(quiz, stored, s, clock);
      case AnswerSkip(choice, clock) =>
        if choice == Sim { AdvancedInv(quiz, stored, s.(prompt := NoPrompt), s.points, clock); }
      case _ =>
    }
  }

  /**
   * Over any sequence of events from the start: the invariant holds, and
   * points never go down.
   */
  lemma {:induction false} RunInv(quiz: Quiz, stored: seq<Record>, s: State, events: seq<Event>)
    requires Inv(quiz, stored, s)
    ensures Inv(quiz, stored, Run(quiz, s, events))
    ensures s.points <= Run(quiz, s, events).points
    decreases |events|
  {
    if events != [] {
      var next := Step(quiz, s, events[0]);
      StepInv(quiz, stored, s, events[0]);
      assert s.points <= next.points;
      RunInv(quiz, stored, next, events[1..]);
    }
  }

  /** Once the screen has navigated away, no event changes anything: the session finishes at most once. */
  lemma {:induction false} NavigatedIsFinal(quiz: Quiz, s: State, events: seq<Event>)
    requires InBounds(quiz, s) && s.screen != OnQuiz
    ensures Run(quiz, s, events) == s
    decreases |events|
  {
    if events != [] {
      NavigatedIsFinal(quiz, s, events[1..]);
    }
  }

  /**
   * Stopping writes nothing: a session that ends on the home screen left the
   * store exactly as it found it.
   */
  lemma StoppedWritesNothing(quiz: Quiz, stored: seq<Record>, events: seq<Event>)
    requires |quiz.questions| > 0
    ensures Run(quiz, Initial(stored), events).screen == Home ==> Run(quiz, Initial(stored), events).history == stored
    ensures Run(quiz, Initial(stored), events).screen.Finish? ==>
              |Run(quiz, Initial(stored), events).history| == |stored| + 1 &&
              Run(quiz, Initial(stored), events).history[..|stored|] == stored &&
              RecordFor(Run(quiz, Initial(stored), events).history[|stored|], quiz,
                        Run(quiz, Initial(stored), events).screen.points)
  {
    RunInv(quiz, stored, Initial(stored), events);
  }

  // ---------------------------------------------------------------------------
  // Answering every question in turn.

  /** The events of pressing option `picks[k]` and then confirming, for each `k` in turn. */
  function Answering(picks: seq<nat>, clock: nat): (events: seq<Event>)
    ensures |events| == 2 * |picks|
  {
    if picks == [] then [] else [PressOption(picks[0]), PressConfirm(clock)] + Answering(picks[1..], clock)
  }

  /** The answers logged by picking `picks` on questions `first`, `first + 1`, ... */
  function AnswersFrom(first: nat, picks: seq<nat>): (log: seq<Answer>)
    ensures |log| == |picks|
    ensures picks != [] ==> log[0] == Answer(first, picks[0])
    decreases |picks|
  {
    if picks == [] then [] else [Answer(first, picks[0])] + AnswersFrom(first + 1, picks[1..])
  }

  /** One step of `AnswersFrom`: the first pick's answer, then the answers of the rest. */
  lemma AnswersFromCons(first: nat, picks: seq<nat>)
    requires picks != []
    ensures AnswersFrom(first, picks) == [Answer(first, picks[0])] + AnswersFrom(first + 1, picks[1..])
  {
  }

  /** The answers of all picks are those of all but the last, then the last. */
  lemma {:induction false} AnswersFromSnoc(first: nat, picks: seq<nat>)
    requires picks != []
    ensures AnswersFrom(first, picks) ==
            AnswersFrom(first, picks[..|picks| - 1]) + [Answer(first + |picks| - 1, picks[|picks| - 1])]
    decreases |picks|
  {
    var last := [Answer(first + |picks| - 1, picks[|picks| - 1])];
    if |picks| == 1 {
      assert picks[..0] == [] && picks[1..] == [];
      AnswersFromCons(first, picks);
    } else {
      var head := [Answer(first, picks[0])];
      var tail := picks[1..];
      var init := picks[..|picks| - 1];
      assert tail[|tail| - 1] == picks[|picks| - 1];
      assert init[0] == picks[0] && init[1..] == tail[..|tail| - 1];
      AnswersFromCons(first, picks);
      AnswersFromSnoc(first + 1, tail);
      AnswersFromCons(first, init);
      calc {
        AnswersFrom(first, picks);
        head + AnswersFrom(first + 1, tail);
        head + (AnswersFrom(first + 1, tail[..|tail| - 1]) + last);
        (head + AnswersFrom(first + 1, init[1..])) + last;
        AnswersFrom(first, init) + last;
      }
    }
  }

  /** Each pick names an option of the question it answers: `picks[k]` answers question `first + k`. */
  predicate PicksExist(quiz: Quiz, first: nat, picks: seq<nat>)
    decreases |picks|
  {
    picks == [] ||
    (first < |quiz.questions| && picks[0] < |quiz.questions[first].alternatives| &&
     PicksExist(quiz, first + 1, picks[1..]))
  }

  /** One round of the answering run: press the pick on an interactive screen, then confirm. */
  lemma AnsweringRound(quiz: Quiz, s: State, picks: seq<nat>, clock: nat)
    requires InBounds(quiz, s) && Interactive(s) && picks != []
    requires picks[0] < |quiz.questions[s.currentQuestion].alternatives|
    ensures Run(quiz, s, Answering(picks, clock)) ==
            Run(quiz, Confirmed(quiz, Selected(s, picks[0]), clock), Answering(picks[1..], clock))
  {
    var events := Answering(picks, clock);
    var rest := Answering(picks[1..], clock);
    assert events[0] == PressOption(picks[0]) && events[1..][0] == PressConfirm(clock) && events[1..][1..] == rest;
  }

  /** What pressing an existing option and confirming does to an interactive session. */
  lemma PickConfirmed(quiz: Quiz, stored: seq<Record>, s: State, pick: nat, clock: nat)
    requires Inv(quiz, stored, s) && Interactive(s)
    requires pick < |quiz.questions[s.currentQuestion].alternatives|
    ensures var r := Confirmed(quiz, Selected(s, pick), clock);
            && Inv(quiz, stored, r)
            && r.confirmed == s.confirmed + [Answer(s.currentQuestion, pick)]
            && (s.currentQuestion < |quiz.questions| - 1 ==> Interactive(r) && r.currentQuestion == s.currentQuestion + 1)
            && (s.currentQuestion == |quiz.questions| - 1 ==>
                  r.screen == Finish(s.points, |quiz.questions|) && r.history == stored + [RecordOf(quiz, s.points, clock)])
  {
    ConfirmedInv(quiz, stored, Selected(s, pick), clock);
  }

  /** The facts the answering run establishes once it has been through every question. */
  ghost predicate AnsweredAll(quiz: Quiz, stored: seq<Record>, s: State, picks: seq<nat>, clock: nat, t: State)
    requires |picks| > 0
  {
    var before := s.confirmed + AnswersFrom(s.currentQuestion, picks[..|picks| - 1]);
    && t.confirmed == s.confirmed + AnswersFrom(s.currentQuestion, picks)
    && t.screen == Finish(Score(quiz.questions, before), |quiz.questions|)
    && t.history == stored + [RecordOf(quiz, Score(quiz.questions, before), clock)]
  }

  /** Answering the last question finishes with the points shown before that answer. */
  lemma AnsweringLast(quiz: Quiz, stored: seq<Record>, s: State, picks: seq<nat>, clock: nat)
    requires Inv(quiz, stored, s) && Interactive(s)
    requires |picks| == 1 && s.currentQuestion == |quiz.questions| - 1
    requires PicksExist(quiz, s.currentQuestion, picks)
    ensures AnsweredAll(quiz, stored, s, picks, clock, Run(quiz, s, Answering(picks, clock)))
  {
    AnsweringRound(quiz, s, picks, clock);
    PickConfirmed(quiz, stored, s, picks[0], clock);
    assert picks[1..] == [] && picks[..0] == [];
    assert s.confirmed + AnswersFrom(s.currentQuestion, []) == s.confirmed;
  }

  /** The answering run's outcome from the next question is its outcome from this one. */
  lemma AnsweredAllShift(quiz: Quiz, stored: seq<Record>, s: State, s2: State, picks: seq<nat>, clock: nat, t: State)
    requires |picks| > 1
    requires s2.currentQuestion == s.currentQuestion + 1
    requires s2.confirmed == s.confirmed + [Answer(s.currentQuestion, picks[0])]
    requires AnsweredAll(quiz, stored, s2, picks[1..], clock, t)
    ensures AnsweredAll(quiz, stored, s, picks, clock, t)
  {
    var c := s.currentQuestion;
    var head := [Answer(c, picks[0])];
    var init := picks[..|picks| - 1];
    assert init[0] == picks[0] && init[1..] == picks[1..][..|picks[1..]| - 1];
    assert AnswersFrom(c, init) == head + AnswersFrom(c + 1, init[1..]);
    assert s.confirmed + AnswersFrom(c, init) == s2.confirmed + AnswersFrom(c + 1, picks[1..][..|picks[1..]| - 1]);
    assert AnswersFrom(c, picks) == head + AnswersFrom(c + 1, picks[1..]);
    assert s.confirmed + AnswersFrom(c, picks) == s2.confirmed + AnswersFrom(c + 1, picks[1..]);
  }

  lemma {:induction false} AnsweringRest(quiz: Quiz, stored: seq<Record>, s: State, picks: seq<nat>, clock: nat)
    requires Inv(quiz, stored, s) && Interactive(s)
    requires |picks| == |quiz.questions| - s.currentQuestion
    requires PicksExist(quiz, s.currentQuestion, picks)
    ensures AnsweredAll(quiz, stored, s, picks, clock, Run(quiz, s, Answering(picks, clock)))
    decreases |picks|
  {
    if s.currentQuestion == |quiz.questions| - 1 {
      AnsweringLast(quiz, stored, s, picks, clock);
    } else {
      var s2 := Confirmed(quiz, Selected(s, picks[0]), clock);
      AnsweringRound(quiz, s, picks, clock);
      PickConfirmed(quiz, stored, s, picks[0], clock);
      AnsweringRest(quiz, stored, s2, picks[1..], clock);
      AnsweredAllShift(quiz, stored, s, s2, picks, clock, Run(quiz, s2, Answering(picks[1..], clock)));
    }
  }

  /**
   * A session that answers all N questions, one option each, finishes and
   * writes exactly one record. Its final points count the correct answers,
   * while the record, like the finish screen, counts all answers but the last.
   */
  lemma AnsweringEveryQuestion(quiz: Quiz, stored: seq<Record>, picks: seq<nat>, clock: nat)
    requires |quiz.questions| > 0 && |picks| == |quiz.questions|
    requires PicksExist(quiz, 0, picks)
    ensures var t := Run(quiz, Initial(stored), Answering(picks, clock));
            && t.points == Score(quiz.questions, AnswersFrom(0, picks))
            && t.screen == Finish(Score(quiz.questions, AnswersFrom(0, picks[..|picks| - 1])), |quiz.questions|)
            && t.history == stored + [RecordOf(quiz, Score(quiz.questions, AnswersFrom(0, picks[..|picks| - 1])), clock)]
  {
    InitialInv(quiz, stored);
    AnsweringRest(quiz, stored, Initial(stored), picks, clock);
    RunInv(quiz, stored, Initial(stored), Answering(picks, clock));
    assert [] + AnswersFrom(0, picks) == AnswersFrom(0, picks);
    assert [] + AnswersFrom(0, picks[..|picks| - 1]) == AnswersFrom(0, picks[..|picks| - 1]);
  }

  /** A correct last answer is counted in the final points but not in the stored record. */
  lemma LastCorrectAnswerNotRecorded(quiz: Quiz, stored: seq<Record>, picks: seq<nat>, clock: nat)
    requires |quiz.questions| > 0 && |picks| == |quiz.questions|
    requires PicksExist(quiz, 0, picks)
    requires Scores(quiz.questions, Answer(|picks| - 1, picks[|picks| - 1]))
    ensures var t := Run(quiz, Initial(stored), Answering(picks, clock));
            |t.history| == |stored| + 1 && t.history[|stored|].points + 1 == t.points
  {
    AnsweringEveryQuestion(quiz, stored, picks, clock);
    AnswersFromSnoc(0, picks);
    ScoreAppend(quiz.questions, AnswersFrom(0, picks[..|picks| - 1]), Answer(|picks| - 1, picks[|picks| - 1]));
  }

  // ---------------------------------------------------------------------------
  // Prompts and the drag gesture.

  /** Skipping through the drag gesture advances without clearing the selection. */
  lemma DragSkipKeepsSelection(quiz: Quiz, s: State, translationX: real, clock: nat, i: nat)
    requires InBounds(quiz, s) && Interactive(s)
    requires s.alternativeSelected == Some(i) && s.currentQuestion < |quiz.questions| - 1
    requires translationX <= CardSkipArea
    ensures var t := SkipAnswered(quiz, Released(s, translationX), Sim, clock);
            t.currentQuestion == s.currentQuestion + 1 && t.alternativeSelected == Some(i)
  {
  }

  /** Opening a prompt and declining it leaves the session exactly as it was. */
  lemma DecliningChangesNothing(quiz: Quiz, s: State, clock: nat)
    requires InBounds(quiz, s) && Interactive(s)
    ensures SkipAnswered(quiz, SkipAsked(s), Nao, clock) == s
    ensures StopAnswered(StopAsked(s), Nao) == s
    ensures s.alternativeSelected.None? ==> SkipAnswered(quiz, Confirmed(quiz, s, clock), Nao, clock) == s
  {
  }
}
