# CROW price chart: a Dafny model of its segmenting, parsing and alert logic

The program polls a price API for the CROW token and turns the reply into a
chart. Prices are coloured red below a fixed threshold of 0.75 and green at or
above it. It also raises an alert when the mean price reaches that threshold.
This project models the pure logic behind that page:

- `Series`: the parser. It reduces the payload, which is a result code plus a
  chart list of (epoch seconds, price) entries, to two parallel sequences. It
  returns the empty pair when the payload is absent or the result code is not 0.
- `Segmenter`: the loop inside the chart renderer. It walks the consecutive
  price pairs and emits one red segment, one green segment, or a red segment up
  to the interpolated crossing point followed by a green one.
- `Alert`: the mean of the prices, 0 for an empty list, compared with `>=`
  against the threshold.
- `Page`: the request handler. It takes the fetched payload as a parameter and
  answers with the error text when the series is empty. Otherwise it returns the
  segments, the notification line and the mean.
- `Scenarios`: worked cases of the segmenter and the evaluator.
- `Wrappers`: the `Option` type the payload arrives in.

Prices and times are exact `real`s. A timestamp is its epoch-seconds number.

The loop is `range(1, len(prices))`, so it handles every i from 1 to n-1
inclusive, and `Segments` does the same. The alert text is the one at
test_crow.py:103, "Alert: The average price has reached or exceeded 0.75!",
and `Page.AlertMessage` holds it verbatim.

The crossing branch always draws the part before the crossing red and the part
after it green, whichever way the price moves. So a falling crossing draws red
over prices at or above the threshold. This is kept as written, and
`Segmenter.FallingCrossingColours` states it.

## Model

| member | source | states |
|---|---|---|
| Series.ParseData | test_crow.py:22-31 | An absent payload or a non-zero result code gives two empty sequences, whatever chart data is present. Otherwise both sequences have the chart's length, and element k of each comes from chart entry k, in the delivered order and unsorted. |
| Series.ParseRoundTrip | test_crow.py:27-31 | Parsing an accepted payload loses and reorders nothing: the chart list can be rebuilt from the two sequences. |
| Series.ParseParallel | test_crow.py:22-31 | The two sequences always have the same length. They are empty exactly when the payload is rejected or its chart is empty. |
| Segmenter.CrossingFraction | test_crow.py:47-49 | In the crossing branch the price difference is non-zero. The interpolation fraction lies in [0, 1], and interpolating the prices with it gives exactly the threshold. |
| Segmenter.CrossingTime | test_crow.py:49 | The crossing time is the earlier time plus the fraction of the time difference. It lies between the two sample times, inclusive, in whichever order they come. |
| Segmenter.CrossingOnLine | test_crow.py:49-53 | When the two times differ, the straight line through the two samples has exactly the threshold price at the crossing time. |
| Segmenter.PairSegments | test_crow.py:41-53 | A pair gives one segment unless it crosses, and then two. Both below gives one red segment and both at or above gives one green segment (each an iff). A crossing gives red then green, meeting at the point (interpolated crossing time, 0.75), whose time lies between the samples' times. |
| Segmenter.Segments | test_crow.py:40-53 | Fewer than two prices give no segments. Otherwise the count lies between n-1 and 2(n-1). |
| Segmenter.CreatePlot | test_crow.py:37-53 | The loop over i from 1 to n-1 that appends each pair's segments produces exactly the segments of the whole series. |
| Segmenter.SegmentCount | test_crow.py:40-53 | For n >= 2 the number of segments is n-1 plus the number of crossing pairs. |
| Segmenter.SegmentsPrefix | test_crow.py:40 | The segments of any prefix of the series are a prefix of the segments of the whole series, because pairs are handled left to right. |
| Segmenter.PairBlock | test_crow.py:40-53 | The segments of pair (i-1, i) appear right after those of all earlier pairs. |
| Segmenter.SegmentsContinuous | test_crow.py:43-53 | The drawn line starts at the first sample and ends at the last. Every segment starts where the previous one ended. |
| Segmenter.SegmentsForwardInTime | test_crow.py:49-53 | With non-decreasing timestamps, no segment runs backwards in time. |
| Segmenter.FallingCrossingColours | test_crow.py:47-53 | A falling crossing is still coloured red then green, so its red part starts at or above the threshold and its green part ends below it. |
| Alert.CalculateAverage | test_crow.py:76-79 | An empty list gives 0. Otherwise the mean times the count equals the sum. |
| Alert.AverageWithin | test_crow.py:76-79 | A non-empty mean lies within any bounds that hold of every price, so it lies between the least and greatest price. |
| Alert.CheckAveragePrice | test_crow.py:81-83 | The result carries the mean. For a non-empty list the alert is raised exactly when the sum reaches threshold times count. For an empty list the result is (0 >= threshold, 0). |
| Alert.AllAtOrAboveAlerts | test_crow.py:81-83 | When every price is at or above the threshold, the alert is raised. The comparison is inclusive. |
| Alert.AllBelowQuiet | test_crow.py:81-83 | When every price is below a positive threshold, no alert is raised. |
| Page.Index | test_crow.py:90-103 | The handler takes the error path exactly when the payload is rejected or its chart is empty, and then answers with the fixed error text. Otherwise the segment count lies between n-1 and 2(n-1). The notification is the alert text exactly when the mean is at or above 0.75, and empty otherwise. The mean times the count is the sum of the prices. |
| Page.IndexAverageWithinChart | test_crow.py:93-99 | The mean shown lies within any bounds that hold of every chart price. |
| Page.IndexPairBlock | test_crow.py:40-53 | On the page, the segments of chart entries (i-1, i) are exactly those the segmenter gives that pair (colours and crossing point), placed right after the segments of the page for the first i entries. |
| Page.IndexLineContinuous | test_crow.py:93-98 | With at least two chart entries, the drawn line runs without a gap from the first entry to the last. |
| Scenarios.AllBelowSeries | test_crow.py:40-43 | Prices 0.5, 0.6, 0.4 give two red segments. |
| Scenarios.PairAtThreshold | test_crow.py:44-46 | A pair with both prices at exactly 0.75 gives one green segment. |
| Scenarios.RisingCrossing | test_crow.py:47-53 | From (0, 0.5) to (10, 1.0), the price crosses at time 5: red up to (5, 0.75), then green. |
| Scenarios.MeanAtThresholdAlerts | test_crow.py:81-83 | Prices 0.7, 0.8, 0.75 have mean 0.75 and raise the alert. |
| Scenarios.EmptyMeanQuiet | test_crow.py:76-78 | An empty list has mean 0 and raises no alert. |

## Left out

- `fetch_data` (test_crow.py:14-20): a network call. Its outcome, a payload or nothing, is the parameter of `Page.Index`.
- Drawing (test_crow.py:34, 43-53, 55-70): the matplotlib calls, axis formatting, PNG rendering and base64 encoding are foreign library calls. Only the list of segments the loop would draw is kept.
- The web layer (test_crow.py:9, 85-88, 104-138): the Flask app and route, the no-store header hook, the HTML template, the auto-refresh script and `run_server`. Its comment says 5 minutes but its literal interval is 1000 ms. The 7-decimal formatting of the mean is also omitted.
- `datetime.fromtimestamp` (test_crow.py:28): the local-timezone conversion is not modelled. A timestamp stays its epoch-seconds number, as a `real`, so crossing times are exact rather than rounded to microseconds. Two consequences are not modelled: `fromtimestamp` raises for a `t` outside the platform's range, which crashes that request, whereas `Series.ParseData` accepts every int and `Page.Index` then returns a chart page; and naive local times can step backwards at a daylight-saving change, so the source can draw a segment running backwards in time even when the epoch seconds never decrease. `Segmenter.SegmentsForwardInTime` and the bounds of `Segmenter.CrossingTime` hold for epoch seconds, not for the local times the source plots.
- Floating point: prices and means are exact reals. No claim is made about IEEE rounding.
- Series.ParseData: `not data` is also true of an empty dictionary. Such a payload is modelled as `None`. A payload missing its `Result`, `data` or `chart` keys, or with fields of other types, would crash the request; the model cannot express it.
- Segmenter.CreatePlot: it returns at once for an empty series, where the source's `range(1, 0)` is simply empty. The result is the same empty list.
- Alert.CheckAveragePrice: the threshold is an explicit parameter rather than a default argument. `Page.Index` passes 0.75, the value the handler relies on.
