/**
 * The weight validator and the score aggregator of the grade calculator:
 * the two `reduce` folds over the graded categories and the 100%-sum gate.
 */
module Aggregation {

  /** One graded component of the course (homework, a midterm, ...). */
  datatype Category = Category(name: string, weight: real, score: real)

  function Weight(c: Category): real { c.weight }

  /** What one category adds to the course grade: its score, as a fraction, times its weight. */
  function Contribution(c: Category): real { c.score / 100.0 * c.weight }

  /**
   * `cs.reduce((sum, cat) => sum + f(cat), 0)`: a left fold, so the last
   * category is added last.
   */
  function SumOf(cs: seq<Category>, f: Category -> real): real
  {
    if cs == [] then 0.0 else SumOf(cs[..|cs| - 1], f) + f(cs[|cs| - 1])
  }

  /** Sum of the category weights plus the final exam's weight. */
  function TotalWeight(cs: seq<Category>, finalExamWeight: real): real
  {
    SumOf(cs, Weight) + finalExamWeight
  }

  /** The current weighted score: the sum of every category's contribution. */
  function WeightedScore(cs: seq<Category>): real
  {
    SumOf(cs, Contribution)
  }

  function Abs(x: real): (r: real)
    ensures r >= 0.0 && (r == x || r == -x)
  {
    if x < 0.0 then -x else x
  }

  /** The weight gate: the weights are accepted unless they are more than 0.01 away from 100. */
  predicate WeightsBalanced(totalWeight: real)
  {
    !(Abs(totalWeight - 100.0) > 0.01)
  }

  /** The gate accepts exactly the totals in the closed interval [99.99, 100.01]. */
  lemma WeightsBalancedRange(totalWeight: real)
    ensures WeightsBalanced(totalWeight) <==> 99.99 <= totalWeight <= 100.01
  {
  }

  /** The fold distributes over concatenation. */
  lemma {:induction false} SumOfAppend(a: seq<Category>, b: seq<Category>, f: Category -> real)
    ensures SumOf(a + b, f) == SumOf(a, f) + SumOf(b, f)
    decreases |b|
  {
    if b == [] {
      assert a + b == a;
    } else {
      var ab := a + b;
      assert ab[..|ab| - 1] == a + b[..|b| - 1];
      assert ab[|ab| - 1] == b[|b| - 1];
      SumOfAppend(a, b[..|b| - 1], f);
    }
  }

  /** The fold does not depend on the order of the categories. */
  lemma {:induction false} SumOfPermutation(s: seq<Category>, t: seq<Category>, f: Category -> real)
    requires multiset(s) == multiset(t)
    ensures SumOf(s, f) == SumOf(t, f)
    decreases |s|
  {
    if s == [] {
      assert |t| == |multiset(t)| == 0;
    } else {
      var x := s[|s| - 1];
      var s' := s[..|s| - 1];
      assert s == s' + [x];
      assert x in multiset(t);
      var i :| 0 <= i < |t| && t[i] == x;
      var t' := t[..i] + t[i + 1..];
      assert t == t[..i] + [x] + t[i + 1..];
      assert multiset(t) == multiset(t[..i]) + multiset{x} + multiset(t[i + 1..]);
      assert multiset(s) == multiset(s') + multiset{x};
      assert multiset(t') == multiset(t[..i]) + multiset(t[i + 1..]);
      assert multiset(s') == multiset(s) - multiset{x};
      assert multiset(t') == multiset(t) - multiset{x};
      SumOfPermutation(s', t', f);
      SumOfAppend(t[..i] + [x], t[i + 1..], f);
      SumOfAppend(t[..i], [x], f);
      SumOfAppend(t[..i], t[i + 1..], f);
      assert SumOf([x], f) == f(x) by {
        assert [x][..0] == [];
      }
    }
  }

  /** Reordering the categories changes neither the total weight nor the weighted score. */
  lemma ReorderingPreservesTotals(s: seq<Category>, t: seq<Category>, finalExamWeight: real)
    requires multiset(s) == multiset(t)
    ensures TotalWeight(s, finalExamWeight) == TotalWeight(t, finalExamWeight)
    ensures WeightedScore(s) == WeightedScore(t)
  {
    SumOfPermutation(s, t, Weight);
    SumOfPermutation(s, t, Contribution);
  }

  /** A category whose weight and score are percentages in [0,100]. */
  predicate InRange(c: Category)
  {
    0.0 <= c.weight <= 100.0 && 0.0 <= c.score <= 100.0
  }

  /**
   * With every weight and score in [0,100], the current weighted score lies
   * between 0 and the sum of the category weights.
   */
  lemma {:induction false} WeightedScoreBounds(cs: seq<Category>)
    requires forall i :: 0 <= i < |cs| ==> InRange(cs[i])
    ensures 0.0 <= WeightedScore(cs) <= SumOf(cs, Weight)
    decreases |cs|
  {
    if cs != [] {
      var c := cs[|cs| - 1];
      assert InRange(c);
      WeightedScoreBounds(cs[..|cs| - 1]);
      ContributionBounds(c);
    }
  }

  lemma ContributionBounds(c: Category)
    requires InRange(c)
    ensures 0.0 <= Contribution(c) <= c.weight
  {
    var fraction := c.score / 100.0;
    assert 0.0 <= fraction <= 1.0;
    assert Contribution(c) == fraction * c.weight;
    NonNegativeProduct(fraction, c.weight);
    NonNegativeProduct(1.0 - fraction, c.weight);
  }

  lemma NonNegativeProduct(a: real, b: real)
    requires 0.0 <= a && 0.0 <= b
    ensures 0.0 <= a * b
  {
  }
}
