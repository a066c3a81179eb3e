/** The Alert Evaluator: the mean of all prices, with a zero guard for an
    empty list, compared inclusively against a threshold. */
module Alert {

  /** The evaluator's answer: whether the mean reached the threshold, and the mean. */
  datatype AlertResult = AlertResult(exceeded: bool, average: real)

  /** Sum of the prices, added left to right from zero. */
  function Sum(xs: seq<real>): real
    decreases |xs|
  {
    if |xs| == 0 then 0.0 else Sum(xs[..|xs| - 1]) + xs[|xs| - 1]
  }

  /** The mean price, or 0 for an empty list. */
  function CalculateAverage(prices: seq<real>): (avg: real)
    ensures |prices| == 0 ==> avg == 0.0
    ensures |prices| > 0 ==> avg * (|prices| as real) == Sum(prices)
  {
    if |prices| == 0 then 0.0 else Sum(prices) / (|prices| as real)
  }

  /** A lower bound on each price, scaled by the count, bounds the sum. */
  lemma {:induction false} SumAtLeast(xs: seq<real>, lo: real)
    requires forall k :: 0 <= k < |xs| ==> lo <= xs[k]
    ensures (|xs| as real) * lo <= Sum(xs)
    decreases |xs|
  {
    if |xs| > 0 {
      var n := |xs|;
      SumAtLeast(xs[..n - 1], lo);
      assert (n as real) * lo == ((n - 1) as real) * lo + lo;
    }
  }

  /** An upper bound on each price, scaled by the count, bounds the sum. */
  lemma {:induction false} SumAtMost(xs: seq<real>, hi: real)
    requires forall k :: 0 <= k < |xs| ==> xs[k] <= hi
    ensures Sum(xs) <= (|xs| as real) * hi
    decreases |xs|
  {
    if |xs| > 0 {
      var n := |xs|;
      SumAtMost(xs[..n - 1], hi);
      assert (n as real) * hi == ((n - 1) as real) * hi + hi;
    }
  }

  /** Strict form: prices all below a level sum to less than the count times it. */
  lemma {:induction false} SumBelow(xs: seq<real>, hi: real)
    requires |xs| > 0
    requires forall k :: 0 <= k < |xs| ==> xs[k] < hi
    ensures Sum(xs) < (|xs| as real) * hi
    decreases |xs|
  {
    var n := |xs|;
    if n == 1 {
      assert Sum(xs) == Sum(xs[..0]) + xs[0];
    } else {
      SumBelow(xs[..n - 1], hi);
      assert (n as real) * hi == ((n - 1) as real) * hi + hi;
    }
  }

  /** A non-empty mean lies within any bounds that every price lies within,
      in particular between the least and the greatest price. */
  lemma AverageWithin(prices: seq<real>, lo: real, hi: real)
    requires |prices| > 0
    requires forall k :: 0 <= k < |prices| ==> lo <= prices[k] <= hi
    ensures lo <= CalculateAverage(prices) <= hi
  {
    var n := |prices| as real;
    var avg := CalculateAverage(prices);
    SumAtLeast(prices, lo);
    SumAtMost(prices, hi);
    assert avg * n == Sum(prices);
  }

  /** The evaluator: the alert is raised when the mean is at or above the
      threshold, so a mean exactly at the threshold raises it. */
  function CheckAveragePrice(prices: seq<real>, threshold: real): (r: AlertResult)
    ensures r.average == CalculateAverage(prices)
    ensures |prices| == 0 ==> r == AlertResult(0.0 >= threshold, 0.0)
    ensures |prices| > 0 ==> (r.exceeded <==> Sum(prices) >= threshold * (|prices| as real))
  {
    var avg := CalculateAverage(prices);
    MeanReachesIffSumReaches(prices, threshold);
    AlertResult(avg >= threshold, avg)
  }

  lemma MeanReachesIffSumReaches(prices: seq<real>, threshold: real)
    ensures |prices| > 0 ==>
      (CalculateAverage(prices) >= threshold <==> Sum(prices) >= threshold * (|prices| as real))
  {
    if |prices| > 0 {
      var n := |prices| as real;
      var avg := CalculateAverage(prices);
      assert avg * n == Sum(prices);
      if avg >= threshold {
        assert avg * n >= threshold * n;
      } else {
        assert avg * n < threshold * n;
      }
    }
  }

  /** When every price is at or above the threshold the alert is raised. */
  lemma AllAtOrAboveAlerts(prices: seq<real>, threshold: real)
    requires |prices| > 0
    requires forall k :: 0 <= k < |prices| ==> threshold <= prices[k]
    ensures CheckAveragePrice(prices, threshold).exceeded
  {
    SumAtLeast(prices, threshold);
    MeanReachesIffSumReaches(prices, threshold);
  }

  /** When every price is below the threshold no alert is raised. */
  lemma AllBelowQuiet(prices: seq<real>, threshold: real)
    requires forall k :: 0 <= k < |prices| ==> prices[k] < threshold
    requires |prices| > 0 || threshold > 0.0
    ensures !CheckAveragePrice(prices, threshold).exceeded
  {
    if |prices| > 0 {
      SumBelow(prices, threshold);
      MeanReachesIffSumReaches(prices, threshold);
    }
  }
}
