/**
 * The `Quiz` screen as an object: its React state and the card's shared drag
 * value are fields that the handlers update in place, the history store is a
 * ghost sequence the finish handler appends to, and every handler is proved
 * to leave the state that the matching function of QuizSession describes.
 */
module QuizScreen {
  import opened Wrappers
  import opened Catalog
  import opened Scoring
  import opened QuizSession

  class Session {
    /** The quiz found at mount; never changed afterwards. */
    const quiz: Quiz
    /** The history store's contents when the screen was entered. */
    ghost const stored: seq<Record>

    var points: nat
    var currentQuestion: nat
    var alternativeSelected: Option<int>
    /** `cardPosition.value`, the card's horizontal drag offset. */
    var cardPosition: real
    var prompt: Prompt
    var screen: Screen
    /** The history store (`historyAdd` appends to it). */
    ghost var history: seq<Record>
    /** The answers confirmed so far, in order. */
    ghost var confirmed: seq<Answer>

    ghost function Snapshot(): State
      reads this
    {
      State(points, currentQuestion, alternativeSelected, cardPosition, prompt, screen, history, confirmed)
    }

    ghost predicate Valid()
      reads this
    {
      Inv(quiz, stored, Snapshot())
    }

    /**
     * Mounting the screen for quiz `id`: the first quiz of the catalog with
     * that id, no points, the first question, nothing selected.
     */
    constructor (catalog: seq<Quiz>, id: string, ghost storedBefore: seq<Record>)
      requires Listed(catalog, id)
      requires |FindById(catalog, id).value.questions| > 0
      ensures Valid() && Interactive(Snapshot())
      ensures quiz == FindById(catalog, id).value && stored == storedBefore
      ensures Snapshot() == Initial(storedBefore)
    {
      quiz := FindById(catalog, id).value;
      stored := storedBefore;
      points, currentQuestion, alternativeSelected := 0, 0, None;
      cardPosition, prompt, screen := 0.0, NoPrompt, OnQuiz;
      history, confirmed := storedBefore, [];
    }

    /** Pressing option `index` of the current question. */
    method SetAlternativeSelected(index: nat)
      requires Valid() && Interactive(Snapshot())
      requires index < |quiz.questions[currentQuestion].alternatives|
      modifies this`alternativeSelected
      ensures Valid() && Snapshot() == Selected(old(Snapshot()), index)
    {
      alternativeSelected := Some(index);
    }

    /** `handleSkipConfirm`: opens the 'Pular' prompt. */
    method HandleSkipConfirm()
      requires Valid() && Interactive(Snapshot())
      modifies this`prompt
      ensures Valid() && Snapshot() == SkipAsked(old(Snapshot()))
    {
      prompt := SkipPrompt;
    }

    /** `handleStop`: opens the 'Parar' prompt and reports the press as handled. */
    method HandleStop() returns (handled: bool)
      requires Valid() && Interactive(Snapshot())
      modifies this`prompt
      ensures Valid() && Snapshot() == StopAsked(old(Snapshot()))
      ensures handled
    {
      prompt := StopPrompt;
      handled := true;
    }

    /**
     * `handleFinished`: appends the record to the history store, then
     * navigates to `finish`. `renderedPoints` is the `points` of the render
     * whose handler is running, at most one behind the current value.
     */
    method HandleFinished(renderedPoints: nat, clock: nat)
      requires Valid() && Interactive(Snapshot())
      requires renderedPoints <= points <= renderedPoints + 1
      modifies this`history, this`screen
      ensures Valid() && Snapshot() == Finished(quiz, old(Snapshot()), renderedPoints, clock)
    {
      history := history + [RecordOf(quiz, renderedPoints, clock)];
      screen := Finish(renderedPoints, |quiz.questions|);
      assert history[..|stored|] == stored;
    }

    /** `handleNextQuestion`, run with the `points` of the render whose handler is running. */
    method HandleNextQuestion(renderedPoints: nat, clock: nat)
      requires Valid() && Interactive(Snapshot())
      requires renderedPoints <= points <= renderedPoints + 1
      modifies this`currentQuestion, this`history, this`screen
      ensures Valid() && Snapshot() == Advanced(quiz, old(Snapshot()), renderedPoints, clock)
    {
      if currentQuestion < |quiz.questions| - 1 {
        currentQuestion := currentQuestion + 1;
      } else {
        HandleFinished(renderedPoints, clock);
      }
    }

    /**
     * `handleConfirm`: asks to skip when nothing is selected; otherwise scores
     * the selection, advances with the points this render shows, and clears
     * the selection.
     */
    method HandleConfirm(clock: nat)
      requires Valid() && Interactive(Snapshot())
      modifies this
      ensures Valid() && Snapshot() == Confirmed(quiz, old(Snapshot()), clock)
    {
      if alternativeSelected == None {
        HandleSkipConfirm();
        return;
      }
      var selected := alternativeSelected.value;
      var renderedPoints := points;
      ScoreAppend(quiz.questions, confirmed, Answer(currentQuestion, selected));
      if IsCorrect(quiz.questions[currentQuestion], selected) {
        points := points + 1;
      }
      confirmed := confirmed + [Answer(currentQuestion, selected)];
      HandleNextQuestion(renderedPoints, clock);
      alternativeSelected := None;
    }

    /** Answering the 'Pular' prompt: 'Sim' runs `handleNextQuestion`, 'Não' does nothing. */
    method AnswerSkip(choice: Choice, clock: nat)
      requires Valid() && screen == OnQuiz && prompt == SkipPrompt
      modifies this`prompt, this`currentQuestion, this`history, this`screen
      ensures Valid() && Snapshot() == SkipAnswered(quiz, old(Snapshot()), choice, clock)
    {
      prompt := NoPrompt;
      if choice == Sim {
        HandleNextQuestion(points, clock);
      }
    }

    /** Answering the 'Parar' prompt: 'Sim' navigates `home`, 'Não' does nothing. */
    method AnswerStop(choice: Choice)
      requires Valid() && screen == OnQuiz && prompt == StopPrompt
      modifies this`prompt, this`screen
      ensures Valid() && Snapshot() == StopAnswered(old(Snapshot()), choice)
    {
      prompt := NoPrompt;
      if choice == Sim {
        screen := Home;
      }
    }

    /** The pan gesture's `onUpdate`. */
    method OnPanUpdate(translationX: real)
      requires Valid() && Interactive(Snapshot())
      modifies this`cardPosition
      ensures Valid() && Snapshot() == Dragged(old(Snapshot()), translationX)
    {
      var isMovingLeft := translationX < 0.0;
      if isMovingLeft {
        cardPosition := translationX;
      }
    }

    /** The pan gesture's `onEnd`; the card's return to 0 is animated in the source. */
    method OnPanEnd(translationX: real)
      requires Valid() && Interactive(Snapshot())
      modifies this`prompt, this`cardPosition
      ensures Valid() && Snapshot() == Released(old(Snapshot()), translationX)
    {
      var canSkipCard := translationX <= CardSkipArea;
      if canSkipCard {
        HandleSkipConfirm();
      }
      cardPosition := 0.0;
    }
  }
}
