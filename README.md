# Grade feasibility engine

This is a Dafny model of the submit handler of the GradeAchiever grade calculator
(`onSubmit` in `src/components/grade-calculator.tsx`). A student enters graded
categories (name, weight, score), the weight of the final exam and a desired
course grade. The handler then:

1. rejects the input unless the category weights plus the final exam weight are
   within 0.01 of 100 (the weight gate);
2. computes the current weighted score, the sum of `score / 100 * weight`;
3. asks an external advisory impossibility detector; when it says "impossible",
   its message becomes the result and nothing else is computed;
4. otherwise classifies the goal as `achieved`, `impossible` or `success`. A zero
   final exam weight is a special case. Otherwise the required exam score is
   `(desired - current) / finalExamWeight * 100`.

Numbers are exact `real`s. The advisory service is a parameter: any function from
its request (current weighted score, final exam weight, desired grade) to a reply,
which either answers `{isImpossible, message}` or throws.

Files:
- `wrappers.dfy`: `Option`, for the `result` state that may be `null`.
- `aggregation.dfy`: categories, the two `reduce` folds (`SumOf`, a left fold),
  `TotalWeight`, `WeightedScore`, the weight gate `WeightsBalanced`, and lemmas
  about reordering and bounds.
- `feasibility.dfy`: the result state `{kind, message}`, the classifier
  `Classify`, and its meaning. `FinalGrade(current, w, s)` is the course grade for
  an exam score `s`. The required score is proved to be its exact inverse.
- `calculator.dfy`: the validated form values, the advisory request and reply,
  `Reconcile`, the whole handler as the function `Submit`, and the component state
  as the class `GradeCalculator`. Its `OnSubmit` method runs the handler's branch
  cascade step by step and is proved equal to `Submit`.

Two behaviours of the code worth noting:
- When the advisory call fails, the code catches the error, shows a toast and
  leaves no result (`grade-calculator.tsx:161-168`). It does not fall back to the
  deterministic verdict.
- The `achieved` result for a positive final exam weight reports the desired
  grade, not the current score (`grade-calculator.tsx:151`).

## Model

| member | source | states |
|---|---|---|
| Aggregation.Abs | src/components/grade-calculator.tsx:102 | the distance used by the gate is non-negative and is `x` or `-x` |
| Aggregation.WeightsBalancedRange | src/components/grade-calculator.tsx:98-111 | the gate accepts a weight total exactly when it lies in [99.99, 100.01] |
| Aggregation.SumOfAppend | src/components/grade-calculator.tsx:98-100 | the `reduce` sum over a concatenation is the sum of the two parts |
| Aggregation.SumOfPermutation | src/components/grade-calculator.tsx:113-116 | a `reduce` sum is the same for any reordering of the categories |
| Aggregation.ReorderingPreservesTotals | src/components/grade-calculator.tsx:98-116 | reordering the categories changes neither the total weight nor the current weighted score |
| Aggregation.ContributionBounds | src/components/grade-calculator.tsx:114 | one category's contribution lies between 0 and its weight when weight and score are in [0,100] |
| Aggregation.WeightedScoreBounds | src/components/grade-calculator.tsx:113-116 | with weights and scores in [0,100], the current weighted score lies between 0 and the sum of the category weights |
| Feasibility.RequiredScoreIsLeast | src/components/grade-calculator.tsx:138-139 | scoring the required score gives exactly the desired grade, and any exam score reaches the desired grade iff it is at least the required score |
| Feasibility.ClassifyZeroWeight | src/components/grade-calculator.tsx:129-136 | with a zero final exam weight the result is achieved iff current >= desired, impossible otherwise, never success |
| Feasibility.ClassifyMeaning | src/components/grade-calculator.tsx:129-160 | for any final weight >= 0: achieved iff 0% on the final reaches the goal; impossible iff 100% falls short; success otherwise, with a required score in (0,100] that exactly reaches the goal and is the least score that does |
| Feasibility.ClassifyByScores | src/components/grade-calculator.tsx:138-152 | with a positive final weight: impossible iff current + finalWeight < desired, achieved iff current >= desired |
| Feasibility.BoundariesFavourStudent | src/components/grade-calculator.tsx:141-152 | a required score of exactly 100 is success (reported as 100), one of exactly 0 is achieved |
| Calculator.SubmitNoResult | src/components/grade-calculator.tsx:95-168 | no result is left iff the weight total is more than 0.01 from 100 or the advisory call throws |
| Calculator.SubmitAdvisoryOverride | src/components/grade-calculator.tsx:118-127 | an advisory "impossible" yields impossible with exactly its message; an advisory "possible" yields the deterministic classification |
| Calculator.SubmitFollowsClassifier | src/components/grade-calculator.tsx:124-160 | past the gate with an advisory "possible", the result has the meaning of the classifier applied to the current weighted score: achieved iff 0% reaches the goal, impossible iff 100% falls short, otherwise success reporting the desired grade and a required score in (0,100] that is the least score reaching it |
| Calculator.SubmitIgnoresCategoryOrder | src/components/grade-calculator.tsx:98-122 | listing the categories in another order keeps the form valid and gives the same result for the same advisory service (one reply per request) |
| Calculator.SubmitScoreInRange | src/components/grade-calculator.tsx:40-116 | past the gate, the score sent to the advisory service lies between 0 and the category weights' sum, which is at most 100.01 minus the final exam weight |
| Calculator.PromptRuleOverridesAchievedGoal | src/ai/flows/impossible-grade-detector.ts:63-69 | for every valid, balanced form with a positive final exam weight and a current score above the desired grade, the classifier says achieved, yet an advisory service applying its prompt's rule makes the result impossible |
| Calculator.GradeCalculator.constructor | src/components/grade-calculator.tsx:73-74 | the component starts not loading and with no result |
| Calculator.GradeCalculator.OnSubmit | src/components/grade-calculator.tsx:93-172 | the handler ends not loading, and its result is `Submit` of the form values and advisory service, whatever the previous result was |

## Left out

- The advisory detector itself (`src/ai/flows/impossible-grade-detector.ts`), a language-model call made over the network. It is an arbitrary function from its request to a reply, so one request has one reply; the real call can answer the same request differently on two submissions. `PromptRule` models only the rule that its prompt states.
- Floating-point rounding. Every number is an exact real, so `RequiredScoreIsLeast` holds exactly where the code's floats may be off by rounding.
- WeightsBalancedRange: the closed interval [99.99, 100.01] holds for exact reals only. In doubles the code rejects one category of weight 70.01 (or 69.99) with a final exam weight of 30, since |100.01 - 100| evaluates to 0.010000000000005116, yet accepts 50 + 50.01, whose sum rounds to 100.00999999999999.
- BoundariesFavourStudent: holds for exact reals only. One category of weight 75 and score 82, a final exam weight of 25 and a desired grade of 86.5 need exactly 100% over reals (success), but the code computes a current score of 61.49999999999999 and a required score of 100.00000000000003, and reports impossible.
- ClassifyByScores: holds for exact reals only; with the same input (current 61.5, final weight 25, desired 86.5) current + finalWeight equals desired, yet the code's doubles classify it as impossible.
- SumOfPermutation: order independence holds for exact reals only. The code's `reduce` adds doubles, and double addition is not associative (0.1 + 0.2 + 0.3 differs from 0.3 + 0.2 + 0.1).
- ReorderingPreservesTotals: holds for exact reals only; with doubles, reordering can move the weight total across the 0.01 tolerance.
- SubmitIgnoresCategoryOrder: holds for exact reals only; with doubles, reordering can change the outcome at the 0.01 weight tolerance or at a required score of exactly 0 or 100.
- Message wording and `toFixed` formatting. Each message is a `Message` value carrying the numbers the text interpolates.
- The toast notifications, console logging, JSX rendering, the add/remove category buttons and the loading spinner. The `isLoading` flag is kept as a field.
- Schema coercion of strings to numbers. The validated ranges are the precondition `FormValid`.
- Async ordering around the awaited advisory call. The handler is modelled as running to completion.
- Exceptions other than the advisory call's. Nothing else in the handler can throw on validated input.
