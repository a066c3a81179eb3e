/** The Threshold Segmenter: the loop of the chart renderer that cuts the
    price line into red and green segments around a fixed threshold. Only
    the list of segments the loop would draw is modelled, not the drawing. */
module Segmenter {

  /** Prices at or above this level count as "above" (green). */
  const Threshold: real := 0.75

  datatype Color = Red | Green

  /** A point of the chart: a time in epoch seconds and a price. */
  datatype Point = Point(time: real, price: real)

  /** A straight line from `start` to `end` drawn in `color`. */
  datatype Segment = Segment(start: Point, end: Point, color: Color)

  predicate Below(price: real)
  {
    price < Threshold
  }

  /** A pair of consecutive prices crosses the threshold when exactly one of
      them is below it; a price equal to the threshold is not below. */
  predicate Crosses(p0: real, p1: real)
  {
    Below(p0) != Below(p1)
  }

  /** The point of the series at index i. */
  function At(times: seq<real>, prices: seq<real>, i: int): Point
    requires |times| == |prices|
    requires 0 <= i < |prices|
  {
    Point(times[i], prices[i])
  }

  /** Where along the pair the straight line between the two prices meets
      the threshold, as a fraction of the way from the first to the second. */
  function CrossingFraction(p0: real, p1: real): (f: real)
    requires Crosses(p0, p1)
    ensures 0.0 <= f <= 1.0
    ensures p0 + f * (p1 - p0) == Threshold
  {
    var d := p1 - p0;
    assert d != 0.0;
    var f := (Threshold - p0) / d;
    assert f * d == Threshold - p0;
    if p0 < p1 then
      assert 0.0 <= Threshold - p0 <= d;
      f
    else
      assert d <= Threshold - p0 <= 0.0;
      f
  }

  /** The interpolated crossing time, computed as the renderer computes it:
      time difference times price gap to the threshold, over price difference. */
  function CrossingTime(t0: real, p0: real, t1: real, p1: real): (tc: real)
    requires Crosses(p0, p1)
    ensures tc == t0 + CrossingFraction(p0, p1) * (t1 - t0)
    ensures t0 <= t1 ==> t0 <= tc <= t1
    ensures t1 <= t0 ==> t1 <= tc <= t0
  {
    var d := p1 - p0;
    assert d != 0.0;
    var tc := t0 + (t1 - t0) * (Threshold - p0) / d;
    CrossingTimeIsFraction(t0, p0, t1, p1);
    FractionScalesWithin(CrossingFraction(p0, p1), t0, t1);
    tc
  }

  lemma CrossingTimeIsFraction(t0: real, p0: real, t1: real, p1: real)
    requires Crosses(p0, p1)
    ensures t0 + (t1 - t0) * (Threshold - p0) / (p1 - p0) == t0 + CrossingFraction(p0, p1) * (t1 - t0)
  {
    var d := p1 - p0;
    var f := CrossingFraction(p0, p1);
    assert f == (Threshold - p0) / d;
    assert (t1 - t0) * (Threshold - p0) / d == (t1 - t0) * ((Threshold - p0) / d);
  }

  lemma FractionScalesWithin(f: real, t0: real, t1: real)
    requires 0.0 <= f <= 1.0
    ensures t0 <= t1 ==> t0 <= t0 + f * (t1 - t0) <= t1
    ensures t1 <= t0 ==> t1 <= t0 + f * (t1 - t0) <= t0
  {
    var d := t1 - t0;
    assert d - f * d == (1.0 - f) * d;
    if t0 <= t1 {
      assert 0.0 <= f * d;
      assert 0.0 <= (1.0 - f) * d;
    } else {
      assert f * d <= 0.0;
      assert (1.0 - f) * d <= 0.0;
    }
  }

  /** The price the straight line from `a` to `b` has at time t. */
  function LinePrice(a: Point, b: Point, t: real): real
    requires a.time != b.time
  {
    a.price + (b.price - a.price) * (t - a.time) / (b.time - a.time)
  }

  /** The crossing time is where the drawn line between the two samples
      has exactly the threshold price. */
  lemma CrossingOnLine(a: Point, b: Point)
    requires Crosses(a.price, b.price)
    requires a.time != b.time
    ensures LinePrice(a, b, CrossingTime(a.time, a.price, b.time, b.price)) == Threshold
  {
    var f := CrossingFraction(a.price, b.price);
    var tc := CrossingTime(a.time, a.price, b.time, b.price);
    var dt := b.time - a.time;
    assert tc - a.time == f * dt;
    assert (tc - a.time) / dt == f;
    assert (b.price - a.price) * (tc - a.time) / dt == (b.price - a.price) * f;
  }

  /** The segments one consecutive pair contributes. */
  function PairSegments(a: Point, b: Point): (r: seq<Segment>)
    ensures |r| == (if Crosses(a.price, b.price) then 2 else 1)
    ensures r[0].start == a && r[|r| - 1].end == b
    ensures Below(a.price) && Below(b.price) <==> r == [Segment(a, b, Red)]
    ensures !Below(a.price) && !Below(b.price) <==> r == [Segment(a, b, Green)]
    ensures Crosses(a.price, b.price) ==>
      && r[0].color == Red && r[1].color == Green
      && r[0].end == r[1].start
      && r[0].end == Point(CrossingTime(a.time, a.price, b.time, b.price), Threshold)
      && (a.time <= b.time ==> a.time <= r[0].end.time <= b.time)
      && (b.time <= a.time ==> b.time <= r[0].end.time <= a.time)
  {
    if a.price < Threshold && b.price < Threshold then
      [Segment(a, b, Red)]
    else if a.price >= Threshold && b.price >= Threshold then
      [Segment(a, b, Green)]
    else
      var c := Point(CrossingTime(a.time, a.price, b.time, b.price), Threshold);
      [Segment(a, c, Red), Segment(c, b, Green)]
  }

  /** The segments the renderer's loop draws for the whole series: nothing
      for fewer than two prices, otherwise those of the pairs (i-1, i) for
      i from 1 to n-1, in that order. */
  function Segments(times: seq<real>, prices: seq<real>): (r: seq<Segment>)
    requires |times| == |prices|
    ensures |prices| < 2 ==> r == []
    ensures |prices| >= 2 ==> |prices| - 1 <= |r| <= 2 * (|prices| - 1)
    decreases |prices|
  {
    if |prices| < 2 then
      []
    else
      var n := |prices|;
      Segments(times[..n - 1], prices[..n - 1]) + PairSegments(At(times, prices, n - 2), At(times, prices, n - 1))
  }

  /** The loop of the renderer, appending each pair's segments in turn. */
  method CreatePlot(times: seq<real>, prices: seq<real>) returns (segs: seq<Segment>)
    requires |times| == |prices|
    ensures segs == Segments(times, prices)
  {
    segs := [];
    if |prices| == 0 {
      return;
    }
    for i := 1 to |prices|
      invariant segs == Segments(times[..i], prices[..i])
    {
      SegmentsStep(times, prices, i);
      segs := segs + PairSegments(Point(times[i - 1], prices[i - 1]), Point(times[i], prices[i]));
    }
    assert times[..|prices|] == times;
    assert prices[..|prices|] == prices;
  }

  /** Number of consecutive pairs that cross the threshold. */
  function CrossingCount(prices: seq<real>): (c: nat)
    ensures |prices| >= 2 ==> c <= |prices| - 1
    ensures |prices| < 2 ==> c == 0
    decreases |prices|
  {
    if |prices| < 2 then 0
    else
      var n := |prices|;
      CrossingCount(prices[..n - 1]) + (if Crosses(prices[n - 2], prices[n - 1]) then 1 else 0)
  }

  /** One segment per non-crossing pair and two per crossing pair. */
  lemma {:induction false} SegmentCount(times: seq<real>, prices: seq<real>)
    requires |times| == |prices| >= 2
    ensures |Segments(times, prices)| == |prices| - 1 + CrossingCount(prices)
    decreases |prices|
  {
    var n := |prices|;
    if n > 2 {
      SegmentCount(times[..n - 1], prices[..n - 1]);
      assert prices[..n - 1][..n - 2] == prices[..n - 2];
    }
  }

  /** Segments of a prefix of the series are a prefix of the segments of
      the whole series: pairs are handled strictly left to right. */
  lemma {:induction false} SegmentsPrefix(times: seq<real>, prices: seq<real>, k: nat)
    requires |times| == |prices|
    requires k <= |prices|
    ensures Segments(times[..k], prices[..k]) <= Segments(times, prices)
    decreases |prices|
  {
    var n := |prices|;
    if k == n {
      assert times[..k] == times && prices[..k] == prices;
    } else if n >= 2 {
      SegmentsPrefix(times[..n - 1], prices[..n - 1], k);
      assert times[..n - 1][..k] == times[..k];
      assert prices[..n - 1][..k] == prices[..k];
    }
  }

  /** One turn of the loop: the segments up to sample i are those up to
      sample i-1 followed by the segments of pair (i-1, i). */
  lemma SegmentsStep(times: seq<real>, prices: seq<real>, i: nat)
    requires |times| == |prices|
    requires 1 <= i < |prices|
    ensures Segments(times[..i + 1], prices[..i + 1])
         == Segments(times[..i], prices[..i]) + PairSegments(At(times, prices, i - 1), At(times, prices, i))
  {
    assert times[..i + 1][..i] == times[..i];
    assert prices[..i + 1][..i] == prices[..i];
  }

  /** Pair (i-1, i) is handled exactly once: its segments appear in the
      output right after those of all earlier pairs. */
  lemma PairBlock(times: seq<real>, prices: seq<real>, i: nat)
    requires |times| == |prices|
    requires 1 <= i < |prices|
    ensures var r := Segments(times, prices);
            var s := |Segments(times[..i], prices[..i])|;
            var pair := PairSegments(At(times, prices, i - 1), At(times, prices, i));
            s + |pair| <= |r| && r[s..s + |pair|] == pair
  {
    var r := Segments(times, prices);
    var front := Segments(times[..i], prices[..i]);
    var pair := PairSegments(At(times, prices, i - 1), At(times, prices, i));
    SegmentsStep(times, prices, i);
    SegmentsPrefix(times, prices, i + 1);
    PrefixSlice(front, pair, r);
  }

  lemma PrefixSlice(front: seq<Segment>, pair: seq<Segment>, r: seq<Segment>)
    requires front + pair <= r
    ensures |front| + |pair| <= |r| && r[|front|..|front| + |pair|] == pair
  {
    assert r[..|front| + |pair|] == front + pair;
    assert (front + pair)[|front|..] == pair;
  }

  /** Consecutive segments meet end to start. */
  predicate Chained(r: seq<Segment>)
  {
    forall j :: 0 <= j < |r| - 1 ==> r[j].end == r[j + 1].start
  }

  lemma ChainedConcat(x: seq<Segment>, y: seq<Segment>)
    requires Chained(x) && Chained(y)
    requires |x| > 0 && |y| > 0 && x[|x| - 1].end == y[0].start
    ensures Chained(x + y)
  {
    var xy := x + y;
    forall j | 0 <= j < |xy| - 1
      ensures xy[j].end == xy[j + 1].start
    {
      if j < |x| - 1 {
        assert xy[j] == x[j] && xy[j + 1] == x[j + 1];
      } else if j == |x| - 1 {
        assert xy[j] == x[|x| - 1] && xy[j + 1] == y[0];
      } else {
        assert xy[j] == y[j - |x|] && xy[j + 1] == y[j - |x| + 1];
      }
    }
  }

  /** The drawn line is continuous: it starts at the first sample, ends at
      the last, and every segment starts where the previous one ended. */
  lemma {:induction false} SegmentsContinuous(times: seq<real>, prices: seq<real>)
    requires |times| == |prices| >= 2
    ensures var r := Segments(times, prices);
            && r[0].start == At(times, prices, 0)
            && r[|r| - 1].end == At(times, prices, |prices| - 1)
            && Chained(r)
    decreases |prices|
  {
    var n := |prices|;
    var a, b := At(times, prices, n - 2), At(times, prices, n - 1);
    var pair := PairSegments(a, b);
    var front := Segments(times[..n - 1], prices[..n - 1]);
    assert Segments(times, prices) == front + pair;
    assert pair[0].start == a && pair[|pair| - 1].end == b;
    PairChained(a, b);
    if n == 2 {
      assert front == [];
      assert front + pair == pair;
    } else {
      SegmentsContinuous(times[..n - 1], prices[..n - 1]);
      assert At(times[..n - 1], prices[..n - 1], 0) == At(times, prices, 0);
      assert At(times[..n - 1], prices[..n - 1], n - 2) == a;
      ChainedConcat(front, pair);
      assert (front + pair)[0] == front[0];
      assert (front + pair)[|front + pair| - 1] == pair[|pair| - 1];
    }
  }

  lemma PairChained(a: Point, b: Point)
    ensures Chained(PairSegments(a, b))
  {
  }

  /** Non-decreasing timestamps give segments that never run backwards in time. */
  predicate NonDecreasing(times: seq<real>)
  {
    forall i, j :: 0 <= i <= j < |times| ==> times[i] <= times[j]
  }

  lemma {:induction false} SegmentsForwardInTime(times: seq<real>, prices: seq<real>)
    requires |times| == |prices|
    requires NonDecreasing(times)
    ensures forall j :: 0 <= j < |Segments(times, prices)| ==>
      Segments(times, prices)[j].start.time <= Segments(times, prices)[j].end.time
    decreases |prices|
  {
    var n := |prices|;
    if n >= 2 {
      var pair := PairSegments(At(times, prices, n - 2), At(times, prices, n - 1));
      var front := Segments(times[..n - 1], prices[..n - 1]);
      SegmentsForwardInTime(times[..n - 1], prices[..n - 1]);
      assert times[n - 2] <= times[n - 1];
      var r := front + pair;
      forall j | 0 <= j < |r|
        ensures r[j].start.time <= r[j].end.time
      {
        if j >= |front| {
          assert r[j] == pair[j - |front|];
        }
      }
    }
  }

  /** A crossing is coloured the same way whichever way the price moves:
      the part before the crossing red, the part after it green. So for a
      falling crossing the red part is drawn at or above the threshold. */
  lemma FallingCrossingColours(a: Point, b: Point)
    requires !Below(a.price) && Below(b.price)
    ensures var r := PairSegments(a, b);
            && r[0].color == Red && r[0].start.price >= Threshold
            && r[1].color == Green && r[1].end.price < Threshold
  {
  }
}
