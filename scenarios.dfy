/**
 * Concrete sessions, worked through the model: what the screen shows and
 * stores for a few small quizzes.
 */
module QuizScenarios {
  import opened Wrappers
  import opened Catalog
  import opened Scoring
  import opened QuizSession

  /** A quiz whose question `k` has three alternatives and `correct[k]` as its right one. */
  function SmallQuiz(correct: seq<nat>): (quiz: Quiz)
    ensures |quiz.questions| == |correct|
    ensures forall k :: 0 <= k < |correct| ==>
              |quiz.questions[k].alternatives| == 3 && quiz.questions[k].correct == correct[k]
  {
    Quiz("q", "Quiz", 1, seq(|correct|, k requires 0 <= k < |correct| => Question("", ["a", "b", "c"], correct[k])))
  }

  /**
   * Three questions answered correctly: three points on the screen, but the
   * finish screen and the stored record carry two, since the last answer's
   * point is queued after the finish handler read `points`.
   */
  lemma AllCorrectRecordsOneLess(stored: seq<Record>, clock: nat)
    ensures var t := Run(SmallQuiz([0, 1, 2]), Initial(stored), Answering([0, 1, 2], clock));
            && t.points == 3
            && t.screen == Finish(2, 3)
            && t.history == stored + [Record(clock, "Quiz", 1, 2, 3)]
  {
    var quiz := SmallQuiz([0, 1, 2]);
    var picks: seq<nat> := [0, 1, 2];
    assert picks[1..] == [1, 2] && picks[1..][1..] == [2] && picks[..2] == [0, 1];
    AnsweringEveryQuestion(quiz, stored, picks, clock);
    assert AnswersFrom(0, picks) == [Answer(0, 0), Answer(1, 1), Answer(2, 2)];
    assert AnswersFrom(0, [0, 1]) == [Answer(0, 0), Answer(1, 1)];
    assert Score(quiz.questions, [Answer(2, 2)]) == 1;
    assert Score(quiz.questions, [Answer(1, 1), Answer(2, 2)]) == 2;
    assert Score(quiz.questions, [Answer(1, 1)]) == 1;
  }

  /** Two questions answered wrongly: no point anywhere. */
  lemma AllWrongRecordsZero(stored: seq<Record>, clock: nat)
    ensures var t := Run(SmallQuiz([0, 1]), Initial(stored), Answering([1, 0], clock));
            t.points == 0 && t.screen == Finish(0, 2) && t.history == stored + [Record(clock, "Quiz", 1, 0, 2)]
  {
    var quiz := SmallQuiz([0, 1]);
    var picks: seq<nat> := [1, 0];
    assert picks[1..] == [0] && picks[..1] == [1];
    AnsweringEveryQuestion(quiz, stored, picks, clock);
    assert AnswersFrom(0, picks) == [Answer(0, 1), Answer(1, 0)];
    assert AnswersFrom(0, [1]) == [Answer(0, 1)];
    assert Score(quiz.questions, [Answer(1, 0)]) == 0;
  }

  /**
   * Confirming the first of two questions with nothing selected, accepting the
   * skip, then answering the second correctly: one point on the screen, none
   * in the record.
   */
  lemma SkipThenCorrect(stored: seq<Record>, clock: nat)
    ensures var t := Run(SmallQuiz([0, 1]), Initial(stored),
                         [PressConfirm(clock), AnswerSkip(Sim, clock), PressOption(1), PressConfirm(clock)]);
            t.points == 1 && t.screen == Finish(0, 2) && t.history == stored + [Record(clock, "Quiz", 1, 0, 2)]
  {
    var quiz := SmallQuiz([0, 1]);
    var events := [PressConfirm(clock), AnswerSkip(Sim, clock), PressOption(1), PressConfirm(clock)];
    var s0 := Initial(stored);
    var s1 := Step(quiz, s0, events[0]);
    assert s1 == s0.(prompt := SkipPrompt);
    var s2 := Step(quiz, s1, events[1]);
    assert s2 == s0.(currentQuestion := 1);
    var s3 := Step(quiz, s2, events[2]);
    assert s3 == s2.(alternativeSelected := Some(1));
    var s4 := Step(quiz, s3, events[3]);
    assert Score(quiz.questions, [Answer(1, 1)]) == 1;
    assert s4.points == 1 && s4.screen == Finish(0, 2) && s4.history == stored + [Record(clock, "Quiz", 1, 0, 2)];
    assert Run(quiz, s0, events) == Run(quiz, s1, events[1..]);
    assert Run(quiz, s1, events[1..]) == Run(quiz, s2, events[2..]);
    assert Run(quiz, s2, events[2..]) == Run(quiz, s3, events[3..]);
    assert Run(quiz, s3, events[3..]) == Run(quiz, s4, []);
  }

  /** Answering one question and then stopping: home, with the store untouched. */
  lemma StopMidSession(stored: seq<Record>, clock: nat)
    ensures var t := Run(SmallQuiz([0, 1]), Initial(stored),
                         [PressOption(0), PressConfirm(clock), PressStop, AnswerStop(Sim)]);
            t.screen == Home && t.history == stored && t.points == 1
  {
    var quiz := SmallQuiz([0, 1]);
    var events := [PressOption(0), PressConfirm(clock), PressStop, AnswerStop(Sim)];
    var s0 := Initial(stored);
    var s1 := Step(quiz, s0, events[0]);
    var s2 := Step(quiz, s1, events[1]);
    assert Score(quiz.questions, [Answer(0, 0)]) == 1;
    assert s2.points == 1 && s2.currentQuestion == 1 && s2.screen == OnQuiz && s2.prompt == NoPrompt;
    var s3 := Step(quiz, s2, events[2]);
    var s4 := Step(quiz, s3, events[3]);
    assert s4 == s2.(screen := Home);
    assert Run(quiz, s0, events) == Run(quiz, s1, events[1..]);
    assert Run(quiz, s1, events[1..]) == Run(quiz, s2, events[2..]);
    assert Run(quiz, s2, events[2..]) == Run(quiz, s3, events[3..]);
    assert Run(quiz, s3, events[3..]) == Run(quiz, s4, []);
  }
}
