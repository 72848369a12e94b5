/**
 * What the confirm handler counts: a confirmed answer scores one point when the
 * selected alternative is the question's `correct` one.
 */
module Scoring {
  import opened Catalog

  /** One confirmed answer: the index of the question answered and the alternative selected. */
  datatype Answer = Answer(question: nat, selected: int)

  /** The comparison `questions[current].correct === alternativeSelected`. */
  predicate IsCorrect(q: Question, selected: int) {
    q.correct == selected
  }

  /** The answer is to a question of the quiz and picks its correct alternative. */
  predicate Scores(questions: seq<Question>, a: Answer) {
    a.question < |questions| && IsCorrect(questions[a.question], a.selected)
  }

  /** How many answers of `log` score. */
  function Score(questions: seq<Question>, log: seq<Answer>): (s: nat)
    ensures s <= |log|
  {
    if log == [] then 0
    else (if Scores(questions, log[0]) then 1 else 0) + Score(questions, log[1..])
  }

  /** No point means no scoring answer, and full points mean every answer scored. */
  lemma {:induction false} ScoreExtremes(questions: seq<Question>, log: seq<Answer>)
    ensures Score(questions, log) == 0 <==> forall k :: 0 <= k < |log| ==> !Scores(questions, log[k])
    ensures Score(questions, log) == |log| <==> forall k :: 0 <= k < |log| ==> Scores(questions, log[k])
  {
    if log != [] {
      ScoreExtremes(questions, log[1..]);
      assert forall k :: 1 <= k < |log| ==> log[k] == log[1..][k - 1];
    }
  }

  /** Confirming one more answer adds one point exactly when that answer scores. */
  lemma {:induction false} ScoreAppend(questions: seq<Question>, log: seq<Answer>, a: Answer)
    ensures Score(questions, log + [a]) == Score(questions, log) + if Scores(questions, a) then 1 else 0
  {
    if log != [] {
      assert (log + [a])[1..] == log[1..] + [a];
      ScoreAppend(questions, log[1..], a);
    }
  }
}
