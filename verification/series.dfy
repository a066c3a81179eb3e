/** The Series Parser: reduces the upstream price payload to two parallel
    sequences, timestamps and prices, or to an empty pair on failure. */
module Series {
  import opened Wrappers

  /** Result code the upstream API uses for success. */
  const SuccessCode: int := 0

  /** One entry of the payload's chart list: epoch seconds and a price. */
  datatype ChartEntry = ChartEntry(t: int, p: real)

  /** The decoded payload: its result code and its chart list. */
  datatype Payload = Payload(result: int, chart: seq<ChartEntry>)

  /** Parallel sequences of timestamps (epoch seconds) and prices. */
  datatype PriceSeries = PriceSeries(times: seq<real>, prices: seq<real>)

  /** True when the parser accepts the payload at all. */
  predicate Accepted(data: Option<Payload>)
  {
    data.Some? && data.value.result == SuccessCode
  }

  /** The parser: an absent payload or a non-zero result code gives the
      empty pair whatever chart data is present; otherwise entry k of the
      chart becomes element k of both sequences, in the delivered order. */
  function ParseData(data: Option<Payload>): (s: PriceSeries)
    ensures !Accepted(data) ==> s.times == [] && s.prices == []
    ensures Accepted(data) ==>
      && |s.times| == |data.value.chart|
      && |s.prices| == |data.value.chart|
      && (forall k :: 0 <= k < |data.value.chart| ==>
            s.times[k] == data.value.chart[k].t as real && s.prices[k] == data.value.chart[k].p)
  {
    if data.None? || data.value.result != SuccessCode then
      PriceSeries([], [])
    else
      var chart := data.value.chart;
      PriceSeries(seq(|chart|, k requires 0 <= k < |chart| => chart[k].t as real),
                  seq(|chart|, k requires 0 <= k < |chart| => chart[k].p))
  }

  /** Rebuilds a chart list from a series whose timestamps are whole seconds. */
  function ToChart(s: PriceSeries): (chart: seq<ChartEntry>)
    requires |s.times| == |s.prices|
    ensures |chart| == |s.prices|
    ensures forall k :: 0 <= k < |chart| ==> chart[k].p == s.prices[k] && chart[k].t as real <= s.times[k]
  {
    seq(|s.prices|, k requires 0 <= k < |s.prices| => ChartEntry(s.times[k].Floor, s.prices[k]))
  }

  /** Parsing an accepted payload loses nothing and reorders nothing: the
      chart list can be rebuilt from the two sequences. */
  lemma ParseRoundTrip(chart: seq<ChartEntry>)
    ensures ToChart(ParseData(Some(Payload(SuccessCode, chart)))) == chart
  {
    var s := ParseData(Some(Payload(SuccessCode, chart)));
    var back := ToChart(s);
    forall k | 0 <= k < |chart|
      ensures back[k] == chart[k]
    {
      assert s.times[k] == chart[k].t as real;
      assert (chart[k].t as real).Floor == chart[k].t;
    }
  }

  /** The two sequences the parser returns are always of one length, so
      one of them is empty exactly when the other is. */
  lemma ParseParallel(data: Option<Payload>)
    ensures |ParseData(data).times| == |ParseData(data).prices|
    ensures ParseData(data).times == [] <==> ParseData(data).prices == []
    ensures ParseData(data).prices == [] <==> !Accepted(data) || |data.value.chart| == 0
  {
  }
}
