/** Sums and rounded means of integers. */
module Averages {
  import opened Options

  function SumOf(values: seq<int>): int {
    if values == [] then 0 else SumOf(values[..|values| - 1]) + values[|values| - 1]
  }

  /** Rounded half up, as Math.round does. */
  function Average(values: seq<int>): Option<int> {
    if values == [] then None else Some((2 * SumOf(values) + |values|) / (2 * |values|))
  }

  // ----- what they mean -----

  /** Subtotals from zero, each larger by the next value, lead to the sum. */
  ghost predicate IsSum(values: seq<int>, sum: int) {
    exists subtotals: seq<int> :: AreSubtotals(values, subtotals) && subtotals[|values|] == sum
  }

  predicate AreSubtotals(values: seq<int>, subtotals: seq<int>) {
    && |subtotals| == |values| + 1 && subtotals[0] == 0
    && forall k | 0 <= k < |values| :: subtotals[k + 1] == subtotals[k] + values[k]
  }

  /** The mean of the values, if there are any, to the nearest integer; upwards from a half. */
  ghost predicate IsMean(values: seq<int>, mean: Option<int>) {
    if values == [] then mean == None
    else mean.Some? && exists sum :: IsSum(values, sum) && IsNearest(sum, |values|, mean.value)
  }

  /** mean - 1/2 <= sum / n < mean + 1/2 */
  predicate IsNearest(sum: int, n: nat, mean: int) {
    2 * n * mean <= 2 * sum + n < 2 * n * (mean + 1)
  }

  lemma {:induction false} SumIsSum(values: seq<int>)
    ensures IsSum(values, SumOf(values))
    decreases |values|
  {
    var subtotals := [0];
    if values == [] {
      assert AreSubtotals(values, subtotals);
    } else {
      var init := values[..|values| - 1];
      SumIsSum(init);
      var before :| AreSubtotals(init, before) && before[|init|] == SumOf(init);
      subtotals := before + [SumOf(values)];
      assert AreSubtotals(values, subtotals);
    }
  }

  lemma {:induction false} OnlySum(values: seq<int>, sum: int)
    requires IsSum(values, sum)
    ensures sum == SumOf(values)
    decreases |values|
  {
    if values != [] {
      var init := values[..|values| - 1];
      var subtotals :| AreSubtotals(values, subtotals) && subtotals[|values|] == sum;
      assert AreSubtotals(init, subtotals[..|values|]);
      OnlySum(init, subtotals[|init|]);
    }
  }

  lemma {:induction false} AverageIsMean(values: seq<int>)
    ensures IsMean(values, Average(values))
  {
    if values != [] {
      SumIsSum(values);
      DivisionRounds(SumOf(values), |values|);
    }
  }

  lemma {:induction false} DivisionRounds(sum: int, n: nat)
    requires n > 0
    ensures IsNearest(sum, n, (2 * sum + n) / (2 * n))
  {
  }

  /** There is only one. */
  lemma {:induction false} OnlyMean(values: seq<int>, a: Option<int>, b: Option<int>)
    requires IsMean(values, a) && IsMean(values, b)
    ensures a == b
  {
    if values != [] {
      var s :| IsSum(values, s) && IsNearest(s, |values|, a.value);
      var t :| IsSum(values, t) && IsNearest(t, |values|, b.value);
      OnlySum(values, s);
      OnlySum(values, t);
      OnlyNearest(s, |values|, a.value, b.value);
    }
  }

  lemma {:induction false} OnlyNearest(sum: int, n: nat, a: int, b: int)
    requires n > 0 && IsNearest(sum, n, a) && IsNearest(sum, n, b)
    ensures a == b
  {
  }

  /** It lies between the least and the greatest value. */
  lemma {:induction false} MeanIsBetween(values: seq<int>, mean: Option<int>, low: int, high: int)
    requires values != [] && IsMean(values, mean)
    requires forall k | 0 <= k < |values| :: low <= values[k] <= high
    ensures low <= mean.value <= high
  {
    var n, a := |values|, mean.value;
    var sum :| IsSum(values, sum) && IsNearest(sum, n, a);
    OnlySum(values, sum);
    SumIsBetween(values, low, high);
    NearestIsBetween(sum, n, a, low, high);
  }

  lemma {:induction false} NearestIsBetween(sum: int, n: nat, mean: int, low: int, high: int)
    requires n > 0 && n * low <= sum <= n * high && IsNearest(sum, n, mean)
    ensures low <= mean <= high
  {
    assert 2 * n * low <= 2 * sum + n < 2 * n * (mean + 1);
    assert 2 * n * mean <= 2 * sum + n < 2 * n * (high + 1);
  }

  lemma {:induction false} SumIsBetween(values: seq<int>, low: int, high: int)
    requires forall k | 0 <= k < |values| :: low <= values[k] <= high
    ensures |values| * low <= SumOf(values) <= |values| * high
    decreases |values|
  {
    if values != [] {
      SumIsBetween(values[..|values| - 1], low, high);
    }
  }

  /** It does not depend on the order of the values. */
  lemma {:induction false} MeanOfReordered(values: seq<int>, reordered: seq<int>, mean: Option<int>)
    requires multiset(values) == multiset(reordered) && IsMean(values, mean)
    ensures IsMean(reordered, mean)
  {
    SumOfReordered(values, reordered);
    SameLength(values, reordered);
    AverageIsMean(values);
    AverageIsMean(reordered);
    OnlyMean(values, mean, Average(values));
  }

  lemma {:induction false} SameLength(values: seq<int>, reordered: seq<int>)
    requires multiset(values) == multiset(reordered)
    ensures |values| == |reordered|
  {
    assert |multiset(values)| == |values| && |multiset(reordered)| == |reordered|;
  }

  lemma {:induction false} SumOfReordered(values: seq<int>, reordered: seq<int>)
    requires multiset(values) == multiset(reordered)
    ensures SumOf(values) == SumOf(reordered)
    decreases |values|
  {
    SameLength(values, reordered);
    if values != [] {
      var init, last := values[..|values| - 1], values[|values| - 1];
      assert values == init + [last];
      assert last in multiset(reordered);
      var k :| 0 <= k < |reordered| && reordered[k] == last;
      Without(reordered, k);
      SumOfReordered(init, reordered[..k] + reordered[k + 1..]);
      SumWithout(reordered, k);
    }
  }

  lemma {:induction false} Without(values: seq<int>, k: nat)
    requires k < |values|
    ensures multiset(values[..k] + values[k + 1..]) == multiset(values) - multiset{values[k]}
  {
    assert values == values[..k] + [values[k]] + values[k + 1..];
  }

  lemma {:induction false} SumWithout(values: seq<int>, k: nat)
    requires k < |values|
    ensures SumOf(values[..k] + values[k + 1..]) == SumOf(values) - values[k]
    decreases |values|
  {
    var n := |values| - 1;
    if k == n {
      assert values[..k] + values[k + 1..] == values[..n];
    } else {
      SumWithout(values[..n], k);
      assert (values[..k] + values[k + 1..])[..n - 1] == values[..n][..k] + values[..n][k + 1..];
    }
  }
}
