/** The page handler: one request runs the parser on the fetched payload,
    answers with a plain error text when the series is empty, and otherwise
    returns the segments to draw, the alert line and the mean price. The
    fetch itself is not modelled: its outcome is the handler's parameter. */
module Page {
  import opened Wrappers
  import opened Series
  import opened Segmenter
  import opened Alert

  const ErrorMessage: string := "Error fetching or parsing data."
  const AlertMessage: string := "Alert: The average price has reached or exceeded 0.75!"

  /** What the page shows: the error text, or the chart's segments, the
      notification line (empty when there is no alert) and the mean price. */
  datatype Response =
    | ErrorPage(text: string)
    | ChartPage(segments: seq<Segment>, notification: string, average: real)

  function Index(data: Option<Payload>): (resp: Response)
    ensures resp.ErrorPage? <==> !Accepted(data) || |data.value.chart| == 0
    ensures resp.ErrorPage? ==> resp.text == ErrorMessage
    ensures resp.ChartPage? ==>
      && |data.value.chart| - 1 <= |resp.segments| <= 2 * (|data.value.chart| - 1)
      && (resp.notification == AlertMessage <==> resp.average >= Threshold)
      && (resp.notification == "" <==> resp.average < Threshold)
      && resp.average * (|data.value.chart| as real) == Sum(ParseData(data).prices)
  {
    var series := ParseData(data);
    if |series.times| == 0 || |series.prices| == 0 then
      ErrorPage(ErrorMessage)
    else
      var segs := Segments(series.times, series.prices);
      var alert := CheckAveragePrice(series.prices, Threshold);
      ChartPage(segs, if alert.exceeded then AlertMessage else "", alert.average)
  }

  /** The mean shown on the page lies within any bounds that hold of every
      price in the chart list. */
  lemma IndexAverageWithinChart(data: Option<Payload>, lo: real, hi: real)
    requires Index(data).ChartPage?
    requires forall k :: 0 <= k < |data.value.chart| ==> lo <= data.value.chart[k].p <= hi
    ensures lo <= Index(data).average <= hi
  {
    var prices := ParseData(data).prices;
    assert forall k :: 0 <= k < |prices| ==> prices[k] == data.value.chart[k].p;
    AverageWithin(prices, lo, hi);
  }

  /** With at least two chart entries the drawn line runs without a gap
      from the first entry to the last. */
  lemma IndexLineContinuous(data: Option<Payload>)
    requires Accepted(data) && |data.value.chart| >= 2
    ensures var resp := Index(data);
            var chart := data.value.chart;
            && resp.ChartPage?
            && resp.segments[0].start == Point(chart[0].t as real, chart[0].p)
            && resp.segments[|resp.segments| - 1].end == Point(chart[|chart| - 1].t as real, chart[|chart| - 1].p)
            && Chained(resp.segments)
  {
    var s := ParseData(data);
    SegmentsContinuous(s.times, s.prices);
  }

  /** The page draws each pair of consecutive chart entries exactly as the
      segmenter colours it: the segments of entries (i-1, i) come right
      after those of the page for the first i entries. */
  lemma IndexPairBlock(data: Option<Payload>, i: nat)
    requires Accepted(data)
    requires 1 <= i < |data.value.chart|
    ensures var chart := data.value.chart;
            var resp := Index(data);
            var before := |Index(Some(Payload(SuccessCode, chart[..i]))).segments|;
            var pair := PairSegments(Point(chart[i - 1].t as real, chart[i - 1].p), Point(chart[i].t as real, chart[i].p));
            && resp.ChartPage?
            && before + |pair| <= |resp.segments|
            && resp.segments[before..before + |pair|] == pair
  {
    var s := ParseData(data);
    var front := ParseData(Some(Payload(SuccessCode, data.value.chart[..i])));
    assert front.times == s.times[..i];
    assert front.prices == s.prices[..i];
    PairBlock(s.times, s.prices, i);
  }
}
