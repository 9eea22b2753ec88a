/**
 * The deterministic feasibility classifier: from the current weighted score,
 * the final exam's weight and the desired grade, decide whether the goal is
 * already achieved, reachable with a given exam score, or out of reach.
 */
module Feasibility {

  /** The three kinds of result the calculator shows. */
  datatype Kind = Success | Impossible | Achieved

  /**
   * What each result message says, with the numbers it reports; the wording
   * and the rounding to one decimal place are presentation.
   */
  datatype Message =
    | AdvisoryText(text: string)                     // the advisory service's own explanation
    | FinalGradeReached(current: real)               // no final exam, goal met
    | GradeFrozen(current: real)                     // no final exam, goal missed
    | ScoreOutOfReach(desired: real, required: real) // would need more than 100%
    | GoalSecured(desired: real)                     // a 0% on the final still suffices
    | ScoreNeeded(required: real, desired: real)     // score at least `required` on the final

  datatype ResultState = ResultState(kind: Kind, message: Message)

  /**
   * The course grade obtained when the student scores `examScore` percent on
   * a final exam worth `finalExamWeight` percent of the grade.
   */
  function FinalGrade(current: real, finalExamWeight: real, examScore: real): real
  {
    current + examScore / 100.0 * finalExamWeight
  }

  /** The exam score, in percent, at which the course grade equals `desired`. */
  function RequiredScore(current: real, finalExamWeight: real, desired: real): real
    requires finalExamWeight != 0.0
  {
    (desired - current) / finalExamWeight * 100.0
  }

  /** The branch cascade after the advisory check; the first matching rule wins. */
  function Classify(current: real, finalExamWeight: real, desired: real): ResultState
  {
    if finalExamWeight == 0.0 then
      if current >= desired then ResultState(Achieved, FinalGradeReached(current))
      else ResultState(Impossible, GradeFrozen(current))
    else
      var required := RequiredScore(current, finalExamWeight, desired);
      if required > 100.0 then ResultState(Impossible, ScoreOutOfReach(desired, required))
      else if required <= 0.0 then ResultState(Achieved, GoalSecured(desired))
      else ResultState(Success, ScoreNeeded(required, desired))
  }

  /**
   * The required score is the exact inverse of FinalGrade: scoring it reaches
   * the desired grade, and every score reaches the desired grade exactly when
   * it is at least the required score.
   */
  lemma RequiredScoreIsLeast(current: real, finalExamWeight: real, desired: real, examScore: real)
    requires finalExamWeight > 0.0
    ensures FinalGrade(current, finalExamWeight, RequiredScore(current, finalExamWeight, desired)) == desired
    ensures FinalGrade(current, finalExamWeight, examScore) >= desired
            <==> examScore >= RequiredScore(current, finalExamWeight, desired)
  {
    var required := RequiredScore(current, finalExamWeight, desired);
    var rate := (desired - current) / finalExamWeight;
    assert rate * finalExamWeight == desired - current;
    assert required / 100.0 == rate;
    assert FinalGrade(current, finalExamWeight, required) == current + rate * finalExamWeight;
    var delta := (examScore - required) / 100.0;
    assert FinalGrade(current, finalExamWeight, examScore)
           == FinalGrade(current, finalExamWeight, required) + delta * finalExamWeight;
    assert delta >= 0.0 <==> delta * finalExamWeight >= 0.0 by {
      if delta < 0.0 {
        assert delta * finalExamWeight < 0.0;
      }
    }
  }

  /**
   * With no final exam the grade cannot change: the goal is achieved when the
   * current score meets it and impossible otherwise; no score is ever required.
   */
  lemma ClassifyZeroWeight(current: real, desired: real)
    ensures Classify(current, 0.0, desired).kind == Achieved <==> current >= desired
    ensures Classify(current, 0.0, desired).kind == Impossible <==> current < desired
    ensures Classify(current, 0.0, desired).kind != Success
  {
  }

  /**
   * The meaning of the three outcomes, for every final exam weight the form
   * accepts: achieved when a 0% on the final already reaches the goal,
   * impossible when even 100% falls short, and success otherwise, with a
   * required score in (0,100] that is the least score reaching the goal.
   */
  lemma ClassifyMeaning(current: real, finalExamWeight: real, desired: real)
    requires finalExamWeight >= 0.0
    ensures Classify(current, finalExamWeight, desired).kind == Achieved
            <==> FinalGrade(current, finalExamWeight, 0.0) >= desired
    ensures Classify(current, finalExamWeight, desired).kind == Impossible
            <==> FinalGrade(current, finalExamWeight, 100.0) < desired
    ensures Classify(current, finalExamWeight, desired).kind == Success
            <==> FinalGrade(current, finalExamWeight, 0.0) < desired <= FinalGrade(current, finalExamWeight, 100.0)
    ensures Classify(current, finalExamWeight, desired).kind == Success ==>
              var m := Classify(current, finalExamWeight, desired).message;
              && m.ScoreNeeded?
              && m.desired == desired
              && 0.0 < m.required <= 100.0
              && FinalGrade(current, finalExamWeight, m.required) == desired
              && forall s :: FinalGrade(current, finalExamWeight, s) >= desired <==> s >= m.required
  {
    if finalExamWeight > 0.0 {
      var required := RequiredScore(current, finalExamWeight, desired);
      RequiredScoreIsLeast(current, finalExamWeight, desired, 0.0);
      RequiredScoreIsLeast(current, finalExamWeight, desired, 100.0);
      forall s ensures FinalGrade(current, finalExamWeight, s) >= desired <==> s >= required {
        RequiredScoreIsLeast(current, finalExamWeight, desired, s);
      }
    }
  }

  /**
   * With a final exam, the outcome is decided by the raw numbers alone:
   * impossible exactly when current + finalExamWeight < desired, achieved
   * exactly when current >= desired.
   */
  lemma ClassifyByScores(current: real, finalExamWeight: real, desired: real)
    requires finalExamWeight > 0.0
    ensures Classify(current, finalExamWeight, desired).kind == Impossible
            <==> current + finalExamWeight < desired
    ensures Classify(current, finalExamWeight, desired).kind == Achieved
            <==> current >= desired
  {
    ClassifyMeaning(current, finalExamWeight, desired);
  }

  /**
   * Boundaries favour the student: needing exactly 100% is a success, not an
   * impossibility, and needing exactly 0% counts as already achieved.
   */
  lemma BoundariesFavourStudent(current: real, finalExamWeight: real)
    requires finalExamWeight > 0.0
    ensures Classify(current, finalExamWeight, current + finalExamWeight)
            == ResultState(Success, ScoreNeeded(100.0, current + finalExamWeight))
    ensures Classify(current, finalExamWeight, current)
            == ResultState(Achieved, GoalSecured(current))
  {
    var desired := current + finalExamWeight;
    assert RequiredScore(current, finalExamWeight, desired) == 100.0 by {
      assert (desired - current) / finalExamWeight == 1.0;
    }
  }
}
