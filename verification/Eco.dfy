/** The carbon score: a weighted average of the next hours, in which earlier hours weigh more. */
module Eco {
  import opened Quantities

  const WEIGHTS: seq<real> := [0.40, 0.25, 0.15, 0.10, 0.06, 0.04]
  const PENALTY := 999.0

  function Hours(values: seq<int>): nat {
    Min(|values|, 6)
  }

  function WeightedSum(values: seq<int>, n: nat): real
    requires n <= Hours(values)
  {
    if n == 0 then 0.0 else WeightedSum(values, n - 1) + values[n - 1] as real * WEIGHTS[n - 1]
  }

  function TotalWeight(n: nat): real
    requires n <= 6
  {
    if n == 0 then 0.0 else TotalWeight(n - 1) + WEIGHTS[n - 1]
  }

  lemma {:induction false} TotalWeightIsPositive(n: nat)
    requires n <= 6
    ensures TotalWeight(n) >= 0.0 && (n > 0 ==> TotalWeight(n) > 0.0)
  {
    if n > 0 {
      TotalWeightIsPositive(n - 1);
    }
  }

  /** The score is the average whose product with the total weight is the weighted sum. */
  method ComputeEcoScore(values: seq<int>) returns (score: real, increase: bool)
    ensures values == [] ==> score == PENALTY
    ensures values != [] ==> score * TotalWeight(Hours(values)) == WeightedSum(values, Hours(values))
    ensures increase <==> |values| >= 2 && values[1] > values[0]
  {
    if |values| == 0 {
      return PENALTY, false;
    }
    score := 0.0;
    var totalWeight := 0.0;
    var limit := |values|;
    if limit > 6 {
      limit := 6;
    }
    for i := 0 to limit
      invariant score == WeightedSum(values, i) && totalWeight == TotalWeight(i)
    {
      score := score + values[i] as real * WEIGHTS[i];
      totalWeight := totalWeight + WEIGHTS[i];
    }
    TotalWeightIsPositive(limit);
    score := score / totalWeight;
    increase := false;
    if |values| >= 2 {
      increase := values[1] > values[0];
    }
  }

  lemma ProductOrder(x: real, y: real, w: real)
    requires x <= y && w >= 0.0
    ensures x * w <= y * w
  {
    assert (y - x) * w >= 0.0;
  }

  lemma NoHours(values: seq<int>, x: real)
    ensures x * TotalWeight(0) == 0.0 == WeightedSum(values, 0)
  {
  }

  /** What one hour adds. */
  lemma OneHour(values: seq<int>, n: nat, low: int, high: int) returns (w: real, hour: real)
    requires 0 < n <= Hours(values) && low <= values[n - 1] <= high
    ensures WeightedSum(values, n) == WeightedSum(values, n - 1) + hour
    ensures TotalWeight(n) == TotalWeight(n - 1) + w
    ensures low as real * w <= hour <= high as real * w
  {
    w := WEIGHTS[n - 1];
    hour := values[n - 1] as real * w;
    ProductOrder(low as real, values[n - 1] as real, w);
    ProductOrder(values[n - 1] as real, high as real, w);
  }

  lemma SumBounds(low: real, high: real, total: real, sum: real, w: real, hour: real, total': real, sum': real)
    requires low * total <= sum <= high * total && low * w <= hour <= high * w
    requires total' == total + w && sum' == sum + hour
    ensures low * total' <= sum' <= high * total'
  {
    assert low * total' == low * total + low * w;
    assert high * total' == high * total + high * w;
  }

  lemma {:induction false} SumBetween(values: seq<int>, n: nat, low: int, high: int)
    requires n <= Hours(values) && forall i :: 0 <= i < n ==> low <= values[i] <= high
    ensures low as real * TotalWeight(n) <= WeightedSum(values, n) <= high as real * TotalWeight(n)
  {
    hide TotalWeight, WeightedSum;
    if n == 0 {
      NoHours(values, low as real);
      NoHours(values, high as real);
    } else {
      SumBetween(values, n - 1, low, high);
      var w, hour := OneHour(values, n, low, high);
      SumBounds(low as real, high as real, TotalWeight(n - 1), WeightedSum(values, n - 1), w, hour,
                TotalWeight(n), WeightedSum(values, n));
    }
  }

  lemma QuotientBetween(low: real, score: real, high: real, w: real)
    requires w > 0.0 && low * w <= score * w <= high * w
    ensures low <= score <= high
  {
    assert score * w / w == score && low * w / w == low && high * w / w == high;
  }

  /** Whatever number the average is, it lies between the smallest and the largest of the hours it weighs. */
  lemma ScoreBetween(values: seq<int>, score: real, low: int, high: int)
    requires values != [] && score * TotalWeight(Hours(values)) == WeightedSum(values, Hours(values))
    requires forall i :: 0 <= i < Hours(values) ==> low <= values[i] <= high
    ensures low as real <= score <= high as real
  {
    var n := Hours(values);
    TotalWeightIsPositive(n);
    SumBetween(values, n, low, high);
    QuotientBetween(low as real, score, high as real, TotalWeight(n));
  }

  lemma {:induction false} SumAfterChange(values: seq<int>, n: nat, i: nat, v: int)
    requires n <= Hours(values) && i < |values|
    ensures WeightedSum(values[i := v], n)
         == WeightedSum(values, n) + if i < n then (v - values[i]) as real * WEIGHTS[i] else 0.0
  {
    if n > 0 {
      SumAfterChange(values, n - 1, i, v);
    }
  }

  /** A forecast that is higher in one hour scores more if that hour is earlier; hours after the sixth do not matter. */
  lemma EarlierHoursWeighMore(values: seq<int>, i: nat, j: nat, extra: nat)
    requires i < j < |values| && extra > 0
    ensures var n := Hours(values);
            var early, late := values[i := values[i] + extra], values[j := values[j] + extra];
            && WeightedSum(late, n) >= WeightedSum(values, n)
            && (i < 6 <==> WeightedSum(early, n) > WeightedSum(late, n))
            && (i >= 6 ==> WeightedSum(early, n) == WeightedSum(values, n))
  {
    var n := Hours(values);
    AddedWeight(values, i, extra);
    AddedWeight(values, j, extra);
    hide WeightedSum;
    if j < n {
      ProductOrderStrict(extra as real, WEIGHTS[j], WEIGHTS[i]);
    }
  }

  /** What a higher value in one hour adds to the sum. */
  lemma AddedWeight(values: seq<int>, i: nat, extra: nat)
    requires i < |values| && extra > 0
    ensures var n := Hours(values);
            var more := WeightedSum(values[i := values[i] + extra], n);
            if i < n then more == WeightedSum(values, n) + extra as real * WEIGHTS[i] && more > WeightedSum(values, n)
            else more == WeightedSum(values, n)
  {
    var n := Hours(values);
    SumAfterChange(values, n, i, values[i] + extra);
    hide WeightedSum;
    if i < n {
      var x, w := extra as real, WEIGHTS[i];
      assert (values[i] + extra - values[i]) as real == x;
      assert w > 0.0;
      ProductOrderStrict(w, 0.0, x);
    }
  }

  lemma ProductOrderStrict(w: real, x: real, y: real)
    requires x < y && w > 0.0
    ensures w * x < w * y
  {
    assert w * (y - x) > 0.0;
  }

  /** A cluster without a forecast scores worse than any whose hours stay below 999. */
  lemma NoForecastIsWorst(values: seq<int>, score: real)
    requires values != [] && score * TotalWeight(Hours(values)) == WeightedSum(values, Hours(values))
    requires forall i :: 0 <= i < Hours(values) ==> 0 <= values[i] < 999
    ensures 0.0 <= score < PENALTY
  {
    hide WeightedSum, TotalWeight;
    ScoreBetween(values, score, 0, 998);
  }
}
