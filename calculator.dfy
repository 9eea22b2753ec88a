/**
 * The grade calculator's submit handler: the form values validated by the
 * schema, the weight gate, the weighted score, the advisory verdict and the
 * deterministic classifier, run in that order.
 */
module Calculator {
  import opened Wrappers
  import opened Aggregation
  import opened Feasibility

  /** The form's values once the schema has validated them. */
  datatype FormValues = FormValues(categories: seq<Category>, finalExamWeight: real, desiredGrade: real)

  /**
   * The schema's constraints: at least one category, every name non-empty,
   * every weight, score, the final exam weight and the desired grade in [0,100].
   */
  predicate FormValid(v: FormValues)
  {
    && |v.categories| >= 1
    && (forall i :: 0 <= i < |v.categories| ==> |v.categories[i].name| >= 1 && InRange(v.categories[i]))
    && 0.0 <= v.finalExamWeight <= 100.0
    && 0.0 <= v.desiredGrade <= 100.0
  }

  /** What the advisory impossibility detector is asked. */
  datatype AdvisoryRequest = AdvisoryRequest(currentWeightedScore: real, finalExamWeight: real, desiredGrade: real)

  /** What it answers. */
  datatype AdvisoryOutput = AdvisoryOutput(isImpossible: bool, message: string)

  /** The awaited call either answers or throws. */
  datatype Reply = Answered(output: AdvisoryOutput) | Threw

  /** The advisory verdict, when it says impossible, replaces the deterministic one. */
  function Reconcile(advisory: AdvisoryOutput, deterministic: ResultState): ResultState
  {
    if advisory.isImpossible then ResultState(Impossible, AdvisoryText(advisory.message))
    else deterministic
  }

  /**
   * The `result` the handler leaves behind, `None` for no result. The
   * advisory service is a parameter: any function from the request to a reply.
   */
  function Submit(values: FormValues, advisor: AdvisoryRequest -> Reply): Option<ResultState>
    requires FormValid(values)
  {
    if !WeightsBalanced(TotalWeight(values.categories, values.finalExamWeight)) then None
    else
      var current := WeightedScore(values.categories);
      match advisor(AdvisoryRequest(current, values.finalExamWeight, values.desiredGrade))
      case Threw => None
      case Answered(advisory) =>
        Some(Reconcile(advisory, Classify(current, values.finalExamWeight, values.desiredGrade)))
  }

  /**
   * No result is left exactly when the weights are more than 0.01 away from
   * 100 or the advisory call throws; a failing advisory call is not replaced
   * by the deterministic verdict.
   */
  lemma SubmitNoResult(values: FormValues, advisor: AdvisoryRequest -> Reply)
    requires FormValid(values)
    ensures Submit(values, advisor).None?
            <==> || Abs(TotalWeight(values.categories, values.finalExamWeight) - 100.0) > 0.01
                 || advisor(AdvisoryRequest(WeightedScore(values.categories), values.finalExamWeight, values.desiredGrade)).Threw?
  {
  }

  /**
   * An advisory "impossible" wins with its own message whatever the
   * deterministic rule says; an advisory "possible" leaves the deterministic
   * classification unchanged.
   */
  lemma SubmitAdvisoryOverride(values: FormValues, advisor: AdvisoryRequest -> Reply)
    requires FormValid(values)
    requires WeightsBalanced(TotalWeight(values.categories, values.finalExamWeight))
    ensures var current := WeightedScore(values.categories);
            var reply := advisor(AdvisoryRequest(current, values.finalExamWeight, values.desiredGrade));
            && (reply.Answered? && reply.output.isImpossible ==>
                  Submit(values, advisor) == Some(ResultState(Impossible, AdvisoryText(reply.output.message))))
            && (reply.Answered? && !reply.output.isImpossible ==>
                  Submit(values, advisor) == Some(Classify(current, values.finalExamWeight, values.desiredGrade)))
  {
  }

  /**
   * When the advisory says the goal is possible, the result means what the
   * classifier promises about the current weighted score: achieved when a 0%
   * on the final reaches the desired grade, impossible when 100% does not,
   * and otherwise success with a required score in (0,100] that is the least
   * score reaching it.
   */
  lemma SubmitFollowsClassifier(values: FormValues, advisor: AdvisoryRequest -> Reply)
    requires FormValid(values)
    requires WeightsBalanced(TotalWeight(values.categories, values.finalExamWeight))
    requires var reply := advisor(AdvisoryRequest(WeightedScore(values.categories), values.finalExamWeight, values.desiredGrade));
             reply.Answered? && !reply.output.isImpossible
    ensures Submit(values, advisor).Some?
    ensures var current := WeightedScore(values.categories);
            var w := values.finalExamWeight;
            var goal := values.desiredGrade;
            var r := Submit(values, advisor).value;
            && (r.kind == Achieved <==> FinalGrade(current, w, 0.0) >= goal)
            && (r.kind == Impossible <==> FinalGrade(current, w, 100.0) < goal)
            && (r.kind == Success ==>
                  && r.message.ScoreNeeded?
                  && r.message.desired == goal
                  && 0.0 < r.message.required <= 100.0
                  && FinalGrade(current, w, r.message.required) == goal
                  && forall s :: FinalGrade(current, w, s) >= goal <==> s >= r.message.required)
  {
    ClassifyMeaning(WeightedScore(values.categories), values.finalExamWeight, values.desiredGrade);
  }

  /**
   * The categories are only summed: listing them in another order leaves the
   * same result, given the same advisory service.
   */
  lemma SubmitIgnoresCategoryOrder(values: FormValues, reordered: seq<Category>, advisor: AdvisoryRequest -> Reply)
    requires FormValid(values)
    requires multiset(reordered) == multiset(values.categories)
    ensures FormValid(values.(categories := reordered))
    ensures Submit(values.(categories := reordered), advisor) == Submit(values, advisor)
  {
    var cs := values.categories;
    forall i | 0 <= i < |reordered|
      ensures |reordered[i].name| >= 1 && InRange(reordered[i])
    {
      assert reordered[i] in multiset(cs);
    }
    assert |reordered| == |multiset(reordered)| == |multiset(cs)| == |cs|;
    ReorderingPreservesTotals(cs, reordered, values.finalExamWeight);
  }

  /**
   * Once the weights pass the gate, the current weighted score sent to the
   * advisory service lies between 0 and the category weights' sum, which is
   * at most 100.01 minus the final exam's weight.
   */
  lemma SubmitScoreInRange(values: FormValues)
    requires FormValid(values)
    requires WeightsBalanced(TotalWeight(values.categories, values.finalExamWeight))
    ensures 0.0 <= WeightedScore(values.categories) <= SumOf(values.categories, Weight)
    ensures SumOf(values.categories, Weight) + values.finalExamWeight <= 100.01
  {
    WeightedScoreBounds(values.categories);
    WeightsBalancedRange(TotalWeight(values.categories, values.finalExamWeight));
  }

  /**
   * An advisory service that applies, exactly, the rule its prompt states:
   * impossible when the current score is above the desired grade and the
   * final exam has weight, or when 100% on the final would still fall short.
   */
  function PromptRule(request: AdvisoryRequest): Reply
  {
    var r := request;
    if (r.currentWeightedScore > r.desiredGrade && r.finalExamWeight != 0.0)
       || r.currentWeightedScore + r.finalExamWeight < r.desiredGrade
    then Answered(AdvisoryOutput(true, "The desired grade cannot be reached."))
    else Answered(AdvisoryOutput(false, ""))
  }

  /**
   * Because the advisory verdict is never checked against the arithmetic, an
   * advisory service following its own prompt turns every goal the
   * classifier reports as already achieved, with a final exam still to come
   * and the current score above the desired grade, into an impossible one.
   */
  lemma PromptRuleOverridesAchievedGoal(values: FormValues)
    requires FormValid(values)
    requires WeightsBalanced(TotalWeight(values.categories, values.finalExamWeight))
    requires values.finalExamWeight > 0.0
    requires WeightedScore(values.categories) > values.desiredGrade
    ensures Classify(WeightedScore(values.categories), values.finalExamWeight, values.desiredGrade).kind == Achieved
    ensures Submit(values, PromptRule).Some?
    ensures Submit(values, PromptRule).value.kind == Impossible
  {
  }

  /** The calculator component's state: the loading flag and the shown result. */
  class GradeCalculator {
    var isLoading: bool
    var result: Option<ResultState>

    constructor ()
      ensures !isLoading && result == None
    {
      isLoading := false;
      result := None;
    }

    /**
     * The submit handler. The new result depends only on the form values and
     * the advisory service, never on the previous state.
     */
    method OnSubmit(values: FormValues, advisor: AdvisoryRequest -> Reply)
      requires FormValid(values)
      modifies this
      ensures !isLoading
      ensures result == Submit(values, advisor)
    {
      isLoading := true;
      result := None;

      var totalWeight := TotalWeight(values.categories, values.finalExamWeight);
      if Abs(totalWeight - 100.0) > 0.01 {
        isLoading := false;
        return;
      }

      var current := WeightedScore(values.categories);
      var reply := advisor(AdvisoryRequest(current, values.finalExamWeight, values.desiredGrade));
      if reply.Threw? {
        isLoading := false;
        return;
      }

      if reply.output.isImpossible {
        result := Some(ResultState(Impossible, AdvisoryText(reply.output.message)));
        isLoading := false;
        return;
      }

      var w, goal := values.finalExamWeight, values.desiredGrade;
      if w == 0.0 {
        if current >= goal {
          result := Some(ResultState(Achieved, FinalGradeReached(current)));
        } else {
          result := Some(ResultState(Impossible, GradeFrozen(current)));
        }
        isLoading := false;
        return;
      }

      var required := (goal - current) / w * 100.0;
      if required > 100.0 {
        result := Some(ResultState(Impossible, ScoreOutOfReach(goal, required)));
      } else if required <= 0.0 {
        result := Some(ResultState(Achieved, GoalSecured(goal)));
      } else {
        result := Some(ResultState(Success, ScoreNeeded(required, goal)));
      }
      isLoading := false;
    }
  }
}
