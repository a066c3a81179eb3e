/** Concrete cases of the segmenter and the alert evaluator. */
module Scenarios {
  import opened Segmenter
  import opened Alert

  /** A series entirely below the threshold gives one red segment per pair. */
  lemma AllBelowSeries()
    ensures Segments([0.0, 1.0, 2.0], [0.5, 0.6, 0.4]) ==
      [Segment(Point(0.0, 0.5), Point(1.0, 0.6), Red), Segment(Point(1.0, 0.6), Point(2.0, 0.4), Red)]
  {
    assert [0.0, 1.0, 2.0][..2] == [0.0, 1.0];
    assert [0.5, 0.6, 0.4][..2] == [0.5, 0.6];
  }

  /** A pair exactly at the threshold is one green segment. */
  lemma PairAtThreshold()
    ensures PairSegments(Point(0.0, 0.75), Point(1.0, 0.75)) == [Segment(Point(0.0, 0.75), Point(1.0, 0.75), Green)]
  {
  }

  /** Rising from 0.5 at time 0 to 1.0 at time 10 crosses at time 5. */
  lemma RisingCrossing()
    ensures PairSegments(Point(0.0, 0.5), Point(10.0, 1.0)) ==
      [Segment(Point(0.0, 0.5), Point(5.0, 0.75), Red), Segment(Point(5.0, 0.75), Point(10.0, 1.0), Green)]
  {
  }

  /** A mean exactly at the threshold raises the alert. */
  lemma MeanAtThresholdAlerts()
    ensures CheckAveragePrice([0.7, 0.8, 0.75], 0.75) == AlertResult(true, 0.75)
  {
    assert Sum([0.7, 0.8, 0.75]) == 2.25 by {
      assert [0.7, 0.8, 0.75][..2] == [0.7, 0.8];
      assert [0.7, 0.8][..1] == [0.7];
      assert [0.7][..0] == [];
    }
  }

  /** An empty list has mean 0 and raises no alert. */
  lemma EmptyMeanQuiet()
    ensures CheckAveragePrice([], 0.75) == AlertResult(false, 0.0)
  {
  }
}
