/**
 The three update sequences the statistics-update tests replay, stated over
 the update function for every run of the same shape (any distinct request
 ids with the tests' outcomes and configuration, and the tests' timestamps
 except for the size-cap run, which allows any increasing timestamps), with
 the tests' own runs shown to have that shape: the minimum-sample gate, opening at the
 threshold and latching afterwards; the size cap keeping the newest
 requests; and the inclusive age window.
 */
module Scenarios {
  import opened SortedSet
  import opened CircuitBreaker

  function Fail(id: string, ts: int): Sample
  {
    Sample(Failure, id, "url_pattern", ts)
  }

  function Succeed(id: string, ts: int): Sample
  {
    Sample(Success, id, "url_pattern", ts)
  }

  /** A breaker with no samples recorded and closed, whatever its info record holds. */
  predicate Unused(b: Store)
  {
    b.success == [] && b.failure == [] && b.state == Closed
  }

  /**
   One checkpoint of a fresh run whose written samples fit the size cap:
   the sets are exactly the written samples, and the stored ratio is the
   failure percentage of the window counts the caller has worked out.
   */
  lemma FreshCheckpoint(b: Store, xs: seq<Sample>, cfg: Config, k: nat, nSucc: nat, nFail: nat)
    requires ValidConfig(cfg) && Unused(b)
    requires Fresh(xs) && 0 < k <= |xs|
    requires |Written(xs[..k], Success)| <= cfg.maxSampleCount
    requires |Written(xs[..k], Failure)| <= cfg.maxSampleCount
    requires InWindowCount(Written(xs[..k], Success), xs[k - 1].timestamp, cfg.entriesMaxAgeMS) == nSucc
    requires InWindowCount(Written(xs[..k], Failure), xs[k - 1].timestamp, cfg.entriesMaxAgeMS) == nFail
    ensures var r := RecordAll(b, xs[..k], cfg);
      && r.success == Written(xs[..k], Success) && r.failure == Written(xs[..k], Failure)
      && r.hasInfo && r.pattern == xs[k - 1].pattern
      && r.failRatio == FailRatio(nFail, nSucc)
  {
    FreshUpdate(b, xs, cfg, k);
  }

  // ---------------------------------------------------------------------------
  // Failure percentage, minimum-sample gate and latching
  // ---------------------------------------------------------------------------

  const ErrorPercentageConfig := Config(50, 10, 4, 10)

  const ErrorPercentageRun: seq<Sample> := [
    Fail("req_1", 0), Fail("req_2", 1), Fail("req_3", 2),
    Succeed("req_4", 3), Succeed("req_5", 4), Succeed("req_6", 5), Succeed("req_7", 6),
    Fail("req_8", 7), Fail("req_9", 8), Fail("req_10", 9), Fail("req_11", 10)]

  /** Three failures, four successes, four failures, at timestamps 0 to 10. */
  predicate ErrorPercentageShape(xs: seq<Sample>)
  {
    && |xs| == 11 && Fresh(xs)
    && (forall i :: 0 <= i < |xs| ==> xs[i].timestamp == i && xs[i].pattern == "url_pattern")
    && (forall i :: 0 <= i < |xs| ==> xs[i].outcome == if 3 <= i < 7 then Success else Failure)
  }

  lemma ErrorPercentageRunTimes()
    ensures forall i :: 0 <= i < |ErrorPercentageRun| ==>
      ErrorPercentageRun[i].timestamp == i && ErrorPercentageRun[i].pattern == "url_pattern"
  {
  }

  lemma ErrorPercentageRunOutcomes()
    ensures forall i :: 0 <= i < |ErrorPercentageRun| ==>
      ErrorPercentageRun[i].outcome == if 3 <= i < 7 then Success else Failure
  {
  }

  lemma ErrorPercentageRunDistinct()
    ensures forall i, j :: 0 <= i < j < |ErrorPercentageRun| ==> ErrorPercentageRun[i].requestId != ErrorPercentageRun[j].requestId
  {
  }

  /** The test's own run has this shape. */
  lemma ErrorPercentageRunHasShape()
    ensures ErrorPercentageShape(ErrorPercentageRun)
  {
    ErrorPercentageRunTimes();
    ErrorPercentageRunOutcomes();
    ErrorPercentageRunDistinct();
  }

  // What the run writes to each set, the window counts at each update,
  // whether each update meets the gate and the threshold, and the store
  // after each update.

  lemma ErrorPercentageWritten1(xs: seq<Sample>)
    requires ErrorPercentageShape(xs)
    ensures Written(xs[..1], Success) == []
    ensures Written(xs[..1], Failure) == [Entry(xs[0].requestId, 0)]
  {
    assert xs[..1][..0] == xs[..0];
  }

  lemma ErrorPercentageWritten2(xs: seq<Sample>)
    requires ErrorPercentageShape(xs)
    ensures Written(xs[..2], Success) == []
    ensures Written(xs[..2], Failure) == [Entry(xs[0].requestId, 0), Entry(xs[1].requestId, 1)]
  {
    ErrorPercentageWritten1(xs);
    assert xs[..2][..1] == xs[..1];
  }

  lemma ErrorPercentageWritten3(xs: seq<Sample>)
    requires ErrorPercentageShape(xs)
    ensures Written(xs[..3], Success) == []
    ensures Written(xs[..3], Failure) == [Entry(xs[0].requestId, 0), Entry(xs[1].requestId, 1), Entry(xs[2].requestId, 2)]
  {
    ErrorPercentageWritten2(xs);
    assert xs[..3][..2] == xs[..2];
  }

  lemma ErrorPercentageWritten4(xs: seq<Sample>)
    requires ErrorPercentageShape(xs)
    ensures Written(xs[..4], Success) == [Entry(xs[3].requestId, 3)]
    ensures Written(xs[..4], Failure) == [Entry(xs[0].requestId, 0), Entry(xs[1].requestId, 1), Entry(xs[2].requestId, 2)]
  {
    ErrorPercentageWritten3(xs);
    assert xs[..4][..3] == xs[..3];
  }

  lemma ErrorPercentageWritten5(xs: seq<Sample>)
    requires ErrorPercentageShape(xs)
    ensures Written(xs[..5], Success) == [Entry(xs[3].requestId, 3), Entry(xs[4].requestId, 4)]
    ensures Written(xs[..5], Failure) == [Entry(xs[0].requestId, 0), Entry(xs[1].requestId, 1), Entry(xs[2].requestId, 2)]
  {
    ErrorPercentageWritten4(xs);
    assert xs[..5][..4] == xs[..4];
  }

  lemma ErrorPercentageWritten6(xs: seq<Sample>)
    requires ErrorPercentageShape(xs)
    ensures Written(xs[..6], Success) == [Entry(xs[3].requestId, 3), Entry(xs[4].requestId, 4), Entry(xs[5].requestId, 5)]
    ensures Written(xs[..6], Failure) == [Entry(xs[0].requestId, 0), Entry(xs[1].requestId, 1), Entry(xs[2].requestId, 2)]
  {
    ErrorPercentageWritten5(xs);
    assert xs[..6][..5] == xs[..5];
  }

  lemma ErrorPercentageWritten7(xs: seq<Sample>)
    requires ErrorPercentageShape(xs)
    ensures Written(xs[..7], Success) == [Entry(xs[3].requestId, 3), Entry(xs[4].requestId, 4), Entry(xs[5].requestId, 5), Entry(xs[6].requestId, 6)]
    ensures Written(xs[..7], Failure) == [Entry(xs[0].requestId, 0), Entry(xs[1].requestId, 1), Entry(xs[2].requestId, 2)]
  {
    ErrorPercentageWritten6(xs);
    assert xs[..7][..6] == xs[..6];
  }

  lemma ErrorPercentageWritten8(xs: seq<Sample>)
    requires ErrorPercentageShape(xs)
    ensures Written(xs[..8], Success) == [Entry(xs[3].requestId, 3), Entry(xs[4].requestId, 4), Entry(xs[5].requestId, 5), Entry(xs[6].requestId, 6)]
    ensures Written(xs[..8], Failure) == [Entry(xs[0].requestId, 0), Entry(xs[1].requestId, 1), Entry(xs[2].requestId, 2), Entry(xs[7].requestId, 7)]
  {
    ErrorPercentageWritten7(xs);
    assert xs[..8][..7] == xs[..7];
  }

  lemma ErrorPercentageWritten9(xs: seq<Sample>)
    requires ErrorPercentageShape(xs)
    ensures Written(xs[..9], Success) == [Entry(xs[3].requestId, 3), Entry(xs[4].requestId, 4), Entry(xs[5].requestId, 5), Entry(xs[6].requestId, 6)]
    ensures Written(xs[..9], Failure) == [Entry(xs[0].requestId, 0), Entry(xs[1].requestId, 1), Entry(xs[2].requestId, 2), Entry(xs[7].requestId, 7), Entry(xs[8].requestId, 8)]
  {
    ErrorPercentageWritten8(xs);
    assert xs[..9][..8] == xs[..8];
  }

  lemma ErrorPercentageWritten10(xs: seq<Sample>)
    requires ErrorPercentageShape(xs)
    ensures Written(xs[..10], Success) == [Entry(xs[3].requestId, 3), Entry(xs[4].requestId, 4), Entry(xs[5].requestId, 5), Entry(xs[6].requestId, 6)]
    ensures Written(xs[..10], Failure) == [Entry(xs[0].requestId, 0), Entry(xs[1].requestId, 1), Entry(xs[2].requestId, 2), Entry(xs[7].requestId, 7), Entry(xs[8].requestId, 8), Entry(xs[9].requestId, 9)]
  {
    ErrorPercentageWritten9(xs);
    assert xs[..10][..9] == xs[..9];
  }

  lemma ErrorPercentageWritten11(xs: seq<Sample>)
    requires ErrorPercentageShape(xs)
    ensures Written(xs[..11], Success) == [Entry(xs[3].requestId, 3), Entry(xs[4].requestId, 4), Entry(xs[5].requestId, 5), Entry(xs[6].requestId, 6)]
    ensures Written(xs[..11], Failure) == [Entry(xs[0].requestId, 0), Entry(xs[1].requestId, 1), Entry(xs[2].requestId, 2), Entry(xs[7].requestId, 7), Entry(xs[8].requestId, 8), Entry(xs[9].requestId, 9), Entry(xs[10].requestId, 10)]
  {
    ErrorPercentageWritten10(xs);
    assert xs[..11][..10] == xs[..10];
  }

  lemma ErrorPercentageCounts1(xs: seq<Sample>)
    requires ErrorPercentageShape(xs)
    ensures |Written(xs[..1], Success)| == 0 && |Written(xs[..1], Failure)| == 1
    ensures InWindowCount(Written(xs[..1], Success), 0, 10) == 0
    ensures InWindowCount(Written(xs[..1], Failure), 0, 10) == 1
  {
    ErrorPercentageWritten1(xs);
    InWindowCountExtremes([], 0, 10);
    InWindowCountExtremes([Entry(xs[0].requestId, 0)], 0, 10);
  }

  lemma ErrorPercentageCounts2(xs: seq<Sample>)
    requires ErrorPercentageShape(xs)
    ensures |Written(xs[..2], Success)| == 0 && |Written(xs[..2], Failure)| == 2
    ensures InWindowCount(Written(xs[..2], Success), 1, 10) == 0
    ensures InWindowCount(Written(xs[..2], Failure), 1, 10) == 2
  {
    ErrorPercentageWritten2(xs);
    InWindowCountExtremes([], 1, 10);
    InWindowCountExtremes([Entry(xs[0].requestId, 0), Entry(xs[1].requestId, 1)], 1, 10);
  }

  lemma ErrorPercentageCounts3(xs: seq<Sample>)
    requires ErrorPercentageShape(xs)
    ensures |Written(xs[..3], Success)| == 0 && |Written(xs[..3], Failure)| == 3
    ensures InWindowCount(Written(xs[..3], Success), 2, 10) == 0
    ensures InWindowCount(Written(xs[..3], Failure), 2, 10) == 3
  {
    ErrorPercentageWritten3(xs);
    InWindowCountExtremes([], 2, 10);
    InWindowCountExtremes([Entry(xs[0].requestId, 0), Entry(xs[1].requestId, 1), Entry(xs[2].requestId, 2)], 2, 10);
  }

  lemma ErrorPercentageCounts4(xs: seq<Sample>)
    requires ErrorPercentageShape(xs)
    ensures |Written(xs[..4], Success)| == 1 && |Written(xs[..4], Failure)| == 3
    ensures InWindowCount(Written(xs[..4], Success), 3, 10) == 1
    ensures InWindowCount(Written(xs[..4], Failure), 3, 10) == 3
  {
    ErrorPercentageWritten4(xs);
    InWindowCountExtremes([Entry(xs[3].requestId, 3)], 3, 10);
    InWindowCountExtremes([Entry(xs[0].requestId, 0), Entry(xs[1].requestId, 1), Entry(xs[2].requestId, 2)], 3, 10);
  }

  lemma ErrorPercentageCounts5(xs: seq<Sample>)
    requires ErrorPercentageShape(xs)
    ensures |Written(xs[..5], Success)| == 2 && |Written(xs[..5], Failure)| == 3
    ensures InWindowCount(Written(xs[..5], Success), 4, 10) == 2
    ensures InWindowCount(Written(xs[..5], Failure), 4, 10) == 3
  {
    ErrorPercentageWritten5(xs);
    InWindowCountExtremes([Entry(xs[3].requestId, 3), Entry(xs[4].requestId, 4)], 4, 10);
    InWindowCountExtremes([Entry(xs[0].requestId, 0), Entry(xs[1].requestId, 1), Entry(xs[2].requestId, 2)], 4, 10);
  }

  lemma ErrorPercentageCounts6(xs: seq<Sample>)
    requires ErrorPercentageShape(xs)
    ensures |Written(xs[..6], Success)| == 3 && |Written(xs[..6], Failure)| == 3
    ensures InWindowCount(Written(xs[..6], Success), 5, 10) == 3
    ensures InWindowCount(Written(xs[..6], Failure), 5, 10) == 3
  {
    ErrorPercentageWritten6(xs);
    InWindowCountExtremes([Entry(xs[3].requestId, 3), Entry(xs[4].requestId, 4), Entry(xs[5].requestId, 5)], 5, 10);
    InWindowCountExtremes([Entry(xs[0].requestId, 0), Entry(xs[1].requestId, 1), Entry(xs[2].requestId, 2)], 5, 10);
  }

  lemma ErrorPercentageCounts7(xs: seq<Sample>)
    requires ErrorPercentageShape(xs)
    ensures |Written(xs[..7], Success)| == 4 && |Written(xs[..7], Failure)| == 3
    ensures InWindowCount(Written(xs[..7], Success), 6, 10) == 4
    ensures InWindowCount(Written(xs[..7], Failure), 6, 10) == 3
  {
    ErrorPercentageWritten7(xs);
    InWindowCountExtremes([Entry(xs[3].requestId, 3), Entry(xs[4].requestId, 4), Entry(xs[5].requestId, 5), Entry(xs[6].requestId, 6)], 6, 10);
    InWindowCountExtremes([Entry(xs[0].requestId, 0), Entry(xs[1].requestId, 1), Entry(xs[2].requestId, 2)], 6, 10);
  }

  lemma ErrorPercentageCounts8(xs: seq<Sample>)
    requires ErrorPercentageShape(xs)
    ensures |Written(xs[..8], Success)| == 4 && |Written(xs[..8], Failure)| == 4
    ensures InWindowCount(Written(xs[..8], Success), 7, 10) == 4
    ensures InWindowCount(Written(xs[..8], Failure), 7, 10) == 4
  {
    ErrorPercentageWritten8(xs);
    InWindowCountExtremes([Entry(xs[3].requestId, 3), Entry(xs[4].requestId, 4), Entry(xs[5].requestId, 5), Entry(xs[6].requestId, 6)], 7, 10);
    InWindowCountExtremes([Entry(xs[0].requestId, 0), Entry(xs[1].requestId, 1), Entry(xs[2].requestId, 2), Entry(xs[7].requestId, 7)], 7, 10);
  }

  lemma ErrorPercentageCounts9(xs: seq<Sample>)
    requires ErrorPercentageShape(xs)
    ensures |Written(xs[..9], Success)| == 4 && |Written(xs[..9], Failure)| == 5
    ensures InWindowCount(Written(xs[..9], Success), 8, 10) == 4
    ensures InWindowCount(Written(xs[..9], Failure), 8, 10) == 5
  {
    ErrorPercentageWritten9(xs);
    InWindowCountExtremes([Entry(xs[3].requestId, 3), Entry(xs[4].requestId, 4), Entry(xs[5].requestId, 5), Entry(xs[6].requestId, 6)], 8, 10);
    InWindowCountExtremes([Entry(xs[0].requestId, 0), Entry(xs[1].requestId, 1), Entry(xs[2].requestId, 2), Entry(xs[7].requestId, 7), Entry(xs[8].requestId, 8)], 8, 10);
  }

  lemma ErrorPercentageCounts10(xs: seq<Sample>)
    requires ErrorPercentageShape(xs)
    ensures |Written(xs[..10], Success)| == 4 && |Written(xs[..10], Failure)| == 6
    ensures InWindowCount(Written(xs[..10], Success), 9, 10) == 4
    ensures InWindowCount(Written(xs[..10], Failure), 9, 10) == 6
  {
    ErrorPercentageWritten10(xs);
    InWindowCountExtremes([Entry(xs[3].requestId, 3), Entry(xs[4].requestId, 4), Entry(xs[5].requestId, 5), Entry(xs[6].requestId, 6)], 9, 10);
    InWindowCountExtremes([Entry(xs[0].requestId, 0), Entry(xs[1].requestId, 1), Entry(xs[2].requestId, 2), Entry(xs[7].requestId, 7), Entry(xs[8].requestId, 8), Entry(xs[9].requestId, 9)], 9, 10);
  }

  lemma ErrorPercentageCounts11(xs: seq<Sample>)
    requires ErrorPercentageShape(xs)
    ensures |Written(xs[..11], Success)| == 4 && |Written(xs[..11], Failure)| == 7
    ensures InWindowCount(Written(xs[..11], Success), 10, 10) == 4
    ensures InWindowCount(Written(xs[..11], Failure), 10, 10) == 7
  {
    ErrorPercentageWritten11(xs);
    InWindowCountExtremes([Entry(xs[3].requestId, 3), Entry(xs[4].requestId, 4), Entry(xs[5].requestId, 5), Entry(xs[6].requestId, 6)], 10, 10);
    InWindowCountExtremes([Entry(xs[0].requestId, 0), Entry(xs[1].requestId, 1), Entry(xs[2].requestId, 2), Entry(xs[7].requestId, 7), Entry(xs[8].requestId, 8), Entry(xs[9].requestId, 9), Entry(xs[10].requestId, 10)], 10, 10);
  }

  lemma ErrorPercentageOpens1(xs: seq<Sample>)
    requires ErrorPercentageShape(xs)
    ensures !OpensAt(xs, ErrorPercentageConfig, 1)
  {
    ErrorPercentageCounts1(xs);
    assert xs[0].timestamp == 0;
  }

  lemma ErrorPercentageOpens2(xs: seq<Sample>)
    requires ErrorPercentageShape(xs)
    ensures !OpensAt(xs, ErrorPercentageConfig, 2)
  {
    ErrorPercentageCounts2(xs);
    assert xs[1].timestamp == 1;
  }

  lemma ErrorPercentageOpens3(xs: seq<Sample>)
    requires ErrorPercentageShape(xs)
    ensures !OpensAt(xs, ErrorPercentageConfig, 3)
  {
    ErrorPercentageCounts3(xs);
    assert xs[2].timestamp == 2;
  }

  lemma ErrorPercentageOpens4(xs: seq<Sample>)
    requires ErrorPercentageShape(xs)
    ensures OpensAt(xs, ErrorPercentageConfig, 4)
  {
    ErrorPercentageCounts4(xs);
    assert xs[3].timestamp == 3;
  }

  /**
   An intermediate checkpoint, not asserted by the test.
   After update 1, a failure at time 0: 0 successes and 1 failure
   stored, 0 and 1 of them in the window respectively; ratio 100%; closed: fewer than 4 samples in the window.
   */
  lemma ErrorPercentageAfter1(b: Store, xs: seq<Sample>)
    requires Unused(b) && ErrorPercentageShape(xs)
    ensures var r := RecordAll(b, xs[..1], ErrorPercentageConfig);
      && |r.success| == 0 && |r.failure| == 1
      && r.hasInfo && r.pattern == "url_pattern" && r.state == Closed && r.failRatio == 100
  {
    ErrorPercentageCounts1(xs);
    assert xs[0].timestamp == 0;
    ErrorPercentageOpens1(xs);
    assert !OpenedWithin(xs, ErrorPercentageConfig, 1);
    FreshCheckpoint(b, xs, ErrorPercentageConfig, 1, 0, 1);
    FreshState(b, xs, ErrorPercentageConfig, 1);
  }

  /**
   An intermediate checkpoint, not asserted by the test.
   After update 2, a failure at time 1: 0 successes and 2 failures
   stored, 0 and 2 of them in the window respectively; ratio 100%; closed: fewer than 4 samples in the window.
   */
  lemma ErrorPercentageAfter2(b: Store, xs: seq<Sample>)
    requires Unused(b) && ErrorPercentageShape(xs)
    ensures var r := RecordAll(b, xs[..2], ErrorPercentageConfig);
      && |r.success| == 0 && |r.failure| == 2
      && r.hasInfo && r.pattern == "url_pattern" && r.state == Closed && r.failRatio == 100
  {
    ErrorPercentageCounts2(xs);
    assert xs[1].timestamp == 1;
    ErrorPercentageOpens1(xs);
    assert !OpenedWithin(xs, ErrorPercentageConfig, 1);
    ErrorPercentageOpens2(xs);
    assert !OpenedWithin(xs, ErrorPercentageConfig, 2);
    FreshCheckpoint(b, xs, ErrorPercentageConfig, 2, 0, 2);
    FreshState(b, xs, ErrorPercentageConfig, 2);
  }

  /**
   After update 3, a failure at time 2: 0 successes and 3 failures
   stored, 0 and 3 of them in the window respectively; ratio 100%; closed: fewer than 4 samples in the window.
   */
  lemma ErrorPercentageAfter3(b: Store, xs: seq<Sample>)
    requires Unused(b) && ErrorPercentageShape(xs)
    ensures var r := RecordAll(b, xs[..3], ErrorPercentageConfig);
      && |r.success| == 0 && |r.failure| == 3
      && r.hasInfo && r.pattern == "url_pattern" && r.state == Closed && r.failRatio == 100
  {
    ErrorPercentageCounts3(xs);
    assert xs[2].timestamp == 2;
    ErrorPercentageOpens1(xs);
    assert !OpenedWithin(xs, ErrorPercentageConfig, 1);
    ErrorPercentageOpens2(xs);
    assert !OpenedWithin(xs, ErrorPercentageConfig, 2);
    ErrorPercentageOpens3(xs);
    assert !OpenedWithin(xs, ErrorPercentageConfig, 3);
    FreshCheckpoint(b, xs, ErrorPercentageConfig, 3, 0, 3);
    FreshState(b, xs, ErrorPercentageConfig, 3);
  }

  /**
   After update 4, a success at time 3: 1 success and 3 failures
   stored, 1 and 3 of them in the window respectively; ratio 75%; opens: 4 samples meet the minimum of 4 and 75% meets the threshold.
   */
  lemma ErrorPercentageAfter4(b: Store, xs: seq<Sample>)
    requires Unused(b) && ErrorPercentageShape(xs)
    ensures var r := RecordAll(b, xs[..4], ErrorPercentageConfig);
      && |r.success| == 1 && |r.failure| == 3
      && r.hasInfo && r.pattern == "url_pattern" && r.state == Open && r.failRatio == 75
  {
    ErrorPercentageCounts4(xs);
    assert xs[3].timestamp == 3;
    ErrorPercentageOpens4(xs);
    OpenedWithinGrows(xs, ErrorPercentageConfig, 4, 4);
    FreshCheckpoint(b, xs, ErrorPercentageConfig, 4, 1, 3);
    FreshState(b, xs, ErrorPercentageConfig, 4);
  }

  /**
   An intermediate checkpoint, not asserted by the test.
   After update 5, a success at time 4: 2 successes and 3 failures
   stored, 2 and 3 of them in the window respectively; ratio 60%; stays open, since nothing here closes it.
   */
  lemma ErrorPercentageAfter5(b: Store, xs: seq<Sample>)
    requires Unused(b) && ErrorPercentageShape(xs)
    ensures var r := RecordAll(b, xs[..5], ErrorPercentageConfig);
      && |r.success| == 2 && |r.failure| == 3
      && r.hasInfo && r.pattern == "url_pattern" && r.state == Open && r.failRatio == 60
  {
    ErrorPercentageCounts5(xs);
    assert xs[4].timestamp == 4;
    ErrorPercentageOpens4(xs);
    OpenedWithinGrows(xs, ErrorPercentageConfig, 4, 5);
    FreshCheckpoint(b, xs, ErrorPercentageConfig, 5, 2, 3);
    FreshState(b, xs, ErrorPercentageConfig, 5);
  }

  /**
   After update 6, a success at time 5: 3 successes and 3 failures
   stored, 3 and 3 of them in the window respectively; ratio 50%; stays open, since nothing here closes it.
   */
  lemma ErrorPercentageAfter6(b: Store, xs: seq<Sample>)
    requires Unused(b) && ErrorPercentageShape(xs)
    ensures var r := RecordAll(b, xs[..6], ErrorPercentageConfig);
      && |r.success| == 3 && |r.failure| == 3
      && r.hasInfo && r.pattern == "url_pattern" && r.state == Open && r.failRatio == 50
  {
    ErrorPercentageCounts6(xs);
    assert xs[5].timestamp == 5;
    ErrorPercentageOpens4(xs);
    OpenedWithinGrows(xs, ErrorPercentageConfig, 4, 6);
    FreshCheckpoint(b, xs, ErrorPercentageConfig, 6, 3, 3);
    FreshState(b, xs, ErrorPercentageConfig, 6);
  }

  /**
   After update 7, a success at time 6: 4 successes and 3 failures
   stored, 4 and 3 of them in the window respectively; ratio 42%; stays open, since nothing here closes it.
   */
  lemma ErrorPercentageAfter7(b: Store, xs: seq<Sample>)
    requires Unused(b) && ErrorPercentageShape(xs)
    ensures var r := RecordAll(b, xs[..7], ErrorPercentageConfig);
      && |r.success| == 4 && |r.failure| == 3
      && r.hasInfo && r.pattern == "url_pattern" && r.state == Open && r.failRatio == 42
  {
    ErrorPercentageCounts7(xs);
    assert xs[6].timestamp == 6;
    ErrorPercentageOpens4(xs);
    OpenedWithinGrows(xs, ErrorPercentageConfig, 4, 7);
    FreshCheckpoint(b, xs, ErrorPercentageConfig, 7, 4, 3);
    FreshState(b, xs, ErrorPercentageConfig, 7);
  }

  /**
   After update 8, a failure at time 7: 4 successes and 4 failures
   stored, 4 and 4 of them in the window respectively; ratio 50%; stays open, since nothing here closes it.
   */
  lemma ErrorPercentageAfter8(b: Store, xs: seq<Sample>)
    requires Unused(b) && ErrorPercentageShape(xs)
    ensures var r := RecordAll(b, xs[..8], ErrorPercentageConfig);
      && |r.success| == 4 && |r.failure| == 4
      && r.hasInfo && r.pattern == "url_pattern" && r.state == Open && r.failRatio == 50
  {
    ErrorPercentageCounts8(xs);
    assert xs[7].timestamp == 7;
    ErrorPercentageOpens4(xs);
    OpenedWithinGrows(xs, ErrorPercentageConfig, 4, 8);
    FreshCheckpoint(b, xs, ErrorPercentageConfig, 8, 4, 4);
    FreshState(b, xs, ErrorPercentageConfig, 8);
  }

  /**
   An intermediate checkpoint, not asserted by the test.
   After update 9, a failure at time 8: 4 successes and 5 failures
   stored, 4 and 5 of them in the window respectively; ratio 55%; stays open, since nothing here closes it.
   */
  lemma ErrorPercentageAfter9(b: Store, xs: seq<Sample>)
    requires Unused(b) && ErrorPercentageShape(xs)
    ensures var r := RecordAll(b, xs[..9], ErrorPercentageConfig);
      && |r.success| == 4 && |r.failure| == 5
      && r.hasInfo && r.pattern == "url_pattern" && r.state == Open && r.failRatio == 55
  {
    ErrorPercentageCounts9(xs);
    assert xs[8].timestamp == 8;
    ErrorPercentageOpens4(xs);
    OpenedWithinGrows(xs, ErrorPercentageConfig, 4, 9);
    FreshCheckpoint(b, xs, ErrorPercentageConfig, 9, 4, 5);
    FreshState(b, xs, ErrorPercentageConfig, 9);
  }

  /**
   An intermediate checkpoint, not asserted by the test.
   After update 10, a failure at time 9: 4 successes and 6 failures
   stored, 4 and 6 of them in the window respectively; ratio 60%; stays open, since nothing here closes it.
   */
  lemma ErrorPercentageAfter10(b: Store, xs: seq<Sample>)
    requires Unused(b) && ErrorPercentageShape(xs)
    ensures var r := RecordAll(b, xs[..10], ErrorPercentageConfig);
      && |r.success| == 4 && |r.failure| == 6
      && r.hasInfo && r.pattern == "url_pattern" && r.state == Open && r.failRatio == 60
  {
    ErrorPercentageCounts10(xs);
    assert xs[9].timestamp == 9;
    ErrorPercentageOpens4(xs);
    OpenedWithinGrows(xs, ErrorPercentageConfig, 4, 10);
    FreshCheckpoint(b, xs, ErrorPercentageConfig, 10, 4, 6);
    FreshState(b, xs, ErrorPercentageConfig, 10);
  }

  /**
   After update 11, a failure at time 10: 4 successes and 7 failures
   stored, 4 and 7 of them in the window respectively; ratio 63%; stays open, since nothing here closes it.
   */
  lemma ErrorPercentageAfter11(b: Store, xs: seq<Sample>)
    requires Unused(b) && ErrorPercentageShape(xs)
    ensures var r := RecordAll(b, xs[..11], ErrorPercentageConfig);
      && |r.success| == 4 && |r.failure| == 7
      && r.hasInfo && r.pattern == "url_pattern" && r.state == Open && r.failRatio == 63
  {
    ErrorPercentageCounts11(xs);
    assert xs[10].timestamp == 10;
    ErrorPercentageOpens4(xs);
    OpenedWithinGrows(xs, ErrorPercentageConfig, 4, 11);
    FreshCheckpoint(b, xs, ErrorPercentageConfig, 11, 4, 7);
    FreshState(b, xs, ErrorPercentageConfig, 11);
  }

  // ---------------------------------------------------------------------------
  // Size cap
  // ---------------------------------------------------------------------------

  const MaxSetSizeConfig := Config(50, 10, 4, 10)

  const MaxSetSizeRun: seq<Sample> := [
    Succeed("req_1", 1), Succeed("req_2", 2), Succeed("req_3", 3), Succeed("req_4", 4),
    Succeed("req_5", 5), Succeed("req_6", 6), Succeed("req_7", 7), Succeed("req_8", 8),
    Succeed("req_9", 9), Succeed("req_10", 10), Succeed("req_11", 11), Succeed("req_12", 12),
    Succeed("req_13", 13), Succeed("req_14", 14), Succeed("req_15", 15), Succeed("req_16", 16),
    Succeed("req_17", 17), Succeed("req_18", 18), Succeed("req_19", 19), Succeed("req_20", 20)]

  /**
   Twenty successes with distinct ids at strictly increasing timestamps
   (the test's run uses 1 to 20; the size cap does not depend on which).
   */
  predicate MaxSetSizeShape(xs: seq<Sample>)
  {
    && |xs| == 20 && Fresh(xs)
    && (forall i :: 0 <= i < |xs| ==> xs[i].outcome == Success && xs[i].pattern == "url_pattern")
  }

  lemma MaxSetSizeRunOrdered()
    ensures forall i, j :: 0 <= i < j < |MaxSetSizeRun| ==> MaxSetSizeRun[i].timestamp < MaxSetSizeRun[j].timestamp
  {
  }

  lemma MaxSetSizeRunDistinct()
    ensures forall i, j :: 0 <= i < j < |MaxSetSizeRun| ==> MaxSetSizeRun[i].requestId != MaxSetSizeRun[j].requestId
  {
  }

  /** The test's own run has this shape. */
  lemma MaxSetSizeRunHasShape()
    ensures MaxSetSizeShape(MaxSetSizeRun)
  {
    MaxSetSizeRunOrdered();
    MaxSetSizeRunDistinct();
  }

  /**
   After twenty successes under a cap of ten, the success set holds exactly
   ten members: the last ten requests, none of the first ten.
   */
  lemma DontExceedMaxSetSize(b: Store, xs: seq<Sample>)
    requires Unused(b) && MaxSetSizeShape(xs)
    ensures var r := RecordAll(b, xs, MaxSetSizeConfig);
      && |r.success| == 10
      && (forall i :: 0 <= i < 10 ==> xs[i].requestId !in Scores(r.success))
      && (forall i :: 10 <= i < 20 ==> xs[i].requestId in Scores(r.success))
      && r.pattern == "url_pattern"
  {
    NewestRequestsRemain(b, xs, MaxSetSizeConfig, Success);
    assert xs[19].pattern == "url_pattern";
  }

  // ---------------------------------------------------------------------------
  // Age window
  // ---------------------------------------------------------------------------

  const AgeRangeConfig := Config(50, 3, 1, 100)

  const AgeRangeRun: seq<Sample> := [
    Succeed("req_1", 1), Succeed("req_2", 2),
    Fail("req_3", 3), Fail("req_4", 4), Fail("req_5", 5), Fail("req_6", 6),
    Succeed("req_7", 7), Succeed("req_8", 8), Succeed("req_9", 9), Succeed("req_10", 10)]

  /** Two successes, four failures, four successes, at timestamps 1 to 10. */
  predicate AgeRangeShape(xs: seq<Sample>)
  {
    && |xs| == 10 && Fresh(xs)
    && (forall i :: 0 <= i < |xs| ==> xs[i].timestamp == i + 1 && xs[i].pattern == "url_pattern")
    && (forall i :: 0 <= i < |xs| ==> xs[i].outcome == if 2 <= i < 6 then Failure else Success)
  }

  lemma AgeRangeRunTimes()
    ensures forall i :: 0 <= i < |AgeRangeRun| ==>
      AgeRangeRun[i].timestamp == i + 1 && AgeRangeRun[i].pattern == "url_pattern"
  {
  }

  lemma AgeRangeRunOutcomes()
    ensures forall i :: 0 <= i < |AgeRangeRun| ==>
      AgeRangeRun[i].outcome == if 2 <= i < 6 then Failure else Success
  {
  }

  lemma AgeRangeRunDistinct()
    ensures forall i, j :: 0 <= i < j < |AgeRangeRun| ==> AgeRangeRun[i].requestId != AgeRangeRun[j].requestId
  {
  }

  /** The test's own run has this shape. */
  lemma AgeRangeRunHasShape()
    ensures AgeRangeShape(AgeRangeRun)
  {
    AgeRangeRunTimes();
    AgeRangeRunOutcomes();
    AgeRangeRunDistinct();
  }

  // What the run writes to each set, the window counts at each update,
  // whether each update meets the gate and the threshold, and the store
  // after each update.

  lemma AgeRangeWritten1(xs: seq<Sample>)
    requires AgeRangeShape(xs)
    ensures Written(xs[..1], Success) == [Entry(xs[0].requestId, 1)]
    ensures Written(xs[..1], Failure) == []
  {
    assert xs[..1][..0] == xs[..0];
  }

  lemma AgeRangeWritten2(xs: seq<Sample>)
    requires AgeRangeShape(xs)
    ensures Written(xs[..2], Success) == [Entry(xs[0].requestId, 1), Entry(xs[1].requestId, 2)]
    ensures Written(xs[..2], Failure) == []
  {
    AgeRangeWritten1(xs);
    assert xs[..2][..1] == xs[..1];
  }

  lemma AgeRangeWritten3(xs: seq<Sample>)
    requires AgeRangeShape(xs)
    ensures Written(xs[..3], Success) == [Entry(xs[0].requestId, 1), Entry(xs[1].requestId, 2)]
    ensures Written(xs[..3], Failure) == [Entry(xs[2].requestId, 3)]
  {
    AgeRangeWritten2(xs);
    assert xs[..3][..2] == xs[..2];
  }

  lemma AgeRangeWritten4(xs: seq<Sample>)
    requires AgeRangeShape(xs)
    ensures Written(xs[..4], Success) == [Entry(xs[0].requestId, 1), Entry(xs[1].requestId, 2)]
    ensures Written(xs[..4], Failure) == [Entry(xs[2].requestId, 3), Entry(xs[3].requestId, 4)]
  {
    AgeRangeWritten3(xs);
    assert xs[..4][..3] == xs[..3];
  }

  lemma AgeRangeWritten5(xs: seq<Sample>)
    requires AgeRangeShape(xs)
    ensures Written(xs[..5], Success) == [Entry(xs[0].requestId, 1), Entry(xs[1].requestId, 2)]
    ensures Written(xs[..5], Failure) == [Entry(xs[2].requestId, 3), Entry(xs[3].requestId, 4), Entry(xs[4].requestId, 5)]
  {
    AgeRangeWritten4(xs);
    assert xs[..5][..4] == xs[..4];
  }

  lemma AgeRangeWritten6(xs: seq<Sample>)
    requires AgeRangeShape(xs)
    ensures Written(xs[..6], Success) == [Entry(xs[0].requestId, 1), Entry(xs[1].requestId, 2)]
    ensures Written(xs[..6], Failure) == [Entry(xs[2].requestId, 3), Entry(xs[3].requestId, 4), Entry(xs[4].requestId, 5), Entry(xs[5].requestId, 6)]
  {
    AgeRangeWritten5(xs);
    assert xs[..6][..5] == xs[..5];
  }

  lemma AgeRangeWritten7(xs: seq<Sample>)
    requires AgeRangeShape(xs)
    ensures Written(xs[..7], Success) == [Entry(xs[0].requestId, 1), Entry(xs[1].requestId, 2), Entry(xs[6].requestId, 7)]
    ensures Written(xs[..7], Failure) == [Entry(xs[2].requestId, 3), Entry(xs[3].requestId, 4), Entry(xs[4].requestId, 5), Entry(xs[5].requestId, 6)]
  {
    AgeRangeWritten6(xs);
    assert xs[..7][..6] == xs[..6];
  }

  lemma AgeRangeWritten8(xs: seq<Sample>)
    requires AgeRangeShape(xs)
    ensures Written(xs[..8], Success) == [Entry(xs[0].requestId, 1), Entry(xs[1].requestId, 2), Entry(xs[6].requestId, 7), Entry(xs[7].requestId, 8)]
    ensures Written(xs[..8], Failure) == [Entry(xs[2].requestId, 3), Entry(xs[3].requestId, 4), Entry(xs[4].requestId, 5), Entry(xs[5].requestId, 6)]
  {
    AgeRangeWritten7(xs);
    assert xs[..8][..7] == xs[..7];
  }

  lemma AgeRangeWritten9(xs: seq<Sample>)
    requires AgeRangeShape(xs)
    ensures Written(xs[..9], Success) == [Entry(xs[0].requestId, 1), Entry(xs[1].requestId, 2), Entry(xs[6].requestId, 7), Entry(xs[7].requestId, 8), Entry(xs[8].requestId, 9)]
    ensures Written(xs[..9], Failure) == [Entry(xs[2].requestId, 3), Entry(xs[3].requestId, 4), Entry(xs[4].requestId, 5), Entry(xs[5].requestId, 6)]
  {
    AgeRangeWritten8(xs);
    assert xs[..9][..8] == xs[..8];
  }

  lemma AgeRangeWritten10(xs: seq<Sample>)
    requires AgeRangeShape(xs)
    ensures Written(xs[..10], Success) == [Entry(xs[0].requestId, 1), Entry(xs[1].requestId, 2), Entry(xs[6].requestId, 7), Entry(xs[7].requestId, 8), Entry(xs[8].requestId, 9), Entry(xs[9].requestId, 10)]
    ensures Written(xs[..10], Failure) == [Entry(xs[2].requestId, 3), Entry(xs[3].requestId, 4), Entry(xs[4].requestId, 5), Entry(xs[5].requestId, 6)]
  {
    AgeRangeWritten9(xs);
    assert xs[..10][..9] == xs[..9];
  }

  lemma AgeRangeCounts1(xs: seq<Sample>)
    requires AgeRangeShape(xs)
    ensures |Written(xs[..1], Success)| == 1 && |Written(xs[..1], Failure)| == 0
    ensures InWindowCount(Written(xs[..1], Success), 1, 3) == 1
    ensures InWindowCount(Written(xs[..1], Failure), 1, 3) == 0
  {
    AgeRangeWritten1(xs);
    InWindowCountExtremes([Entry(xs[0].requestId, 1)], 1, 3);
    InWindowCountExtremes([], 1, 3);
  }

  lemma AgeRangeCounts2(xs: seq<Sample>)
    requires AgeRangeShape(xs)
    ensures |Written(xs[..2], Success)| == 2 && |Written(xs[..2], Failure)| == 0
    ensures InWindowCount(Written(xs[..2], Success), 2, 3) == 2
    ensures InWindowCount(Written(xs[..2], Failure), 2, 3) == 0
  {
    AgeRangeWritten2(xs);
    InWindowCountExtremes([Entry(xs[0].requestId, 1), Entry(xs[1].requestId, 2)], 2, 3);
    InWindowCountExtremes([], 2, 3);
  }

  lemma AgeRangeCounts3(xs: seq<Sample>)
    requires AgeRangeShape(xs)
    ensures |Written(xs[..3], Success)| == 2 && |Written(xs[..3], Failure)| == 1
    ensures InWindowCount(Written(xs[..3], Success), 3, 3) == 2
    ensures InWindowCount(Written(xs[..3], Failure), 3, 3) == 1
  {
    AgeRangeWritten3(xs);
    InWindowCountExtremes([Entry(xs[0].requestId, 1), Entry(xs[1].requestId, 2)], 3, 3);
    InWindowCountExtremes([Entry(xs[2].requestId, 3)], 3, 3);
  }

  lemma AgeRangeCounts4(xs: seq<Sample>)
    requires AgeRangeShape(xs)
    ensures |Written(xs[..4], Success)| == 2 && |Written(xs[..4], Failure)| == 2
    ensures InWindowCount(Written(xs[..4], Success), 4, 3) == 2
    ensures InWindowCount(Written(xs[..4], Failure), 4, 3) == 2
  {
    AgeRangeWritten4(xs);
    InWindowCountExtremes([Entry(xs[0].requestId, 1), Entry(xs[1].requestId, 2)], 4, 3);
    InWindowCountExtremes([Entry(xs[2].requestId, 3), Entry(xs[3].requestId, 4)], 4, 3);
  }

  lemma AgeRangeCounts5(xs: seq<Sample>)
    requires AgeRangeShape(xs)
    ensures |Written(xs[..5], Success)| == 2 && |Written(xs[..5], Failure)| == 3
    ensures InWindowCount(Written(xs[..5], Success), 5, 3) == 1
    ensures InWindowCount(Written(xs[..5], Failure), 5, 3) == 3
  {
    AgeRangeWritten5(xs);
    InWindowCountExtremes([Entry(xs[0].requestId, 1)], 5, 3);
    InWindowCountExtremes([Entry(xs[1].requestId, 2)], 5, 3);
    InWindowCountAppend([Entry(xs[0].requestId, 1)], [Entry(xs[1].requestId, 2)], 5, 3);
    assert [Entry(xs[0].requestId, 1), Entry(xs[1].requestId, 2)] == [Entry(xs[0].requestId, 1)] + [Entry(xs[1].requestId, 2)];
    InWindowCountExtremes([Entry(xs[2].requestId, 3), Entry(xs[3].requestId, 4), Entry(xs[4].requestId, 5)], 5, 3);
  }

  lemma AgeRangeCounts6(xs: seq<Sample>)
    requires AgeRangeShape(xs)
    ensures |Written(xs[..6], Success)| == 2 && |Written(xs[..6], Failure)| == 4
    ensures InWindowCount(Written(xs[..6], Success), 6, 3) == 0
    ensures InWindowCount(Written(xs[..6], Failure), 6, 3) == 4
  {
    AgeRangeWritten6(xs);
    InWindowCountExtremes([Entry(xs[0].requestId, 1), Entry(xs[1].requestId, 2)], 6, 3);
    InWindowCountExtremes([Entry(xs[2].requestId, 3), Entry(xs[3].requestId, 4), Entry(xs[4].requestId, 5), Entry(xs[5].requestId, 6)], 6, 3);
  }

  lemma AgeRangeCounts7(xs: seq<Sample>)
    requires AgeRangeShape(xs)
    ensures |Written(xs[..7], Success)| == 3 && |Written(xs[..7], Failure)| == 4
    ensures InWindowCount(Written(xs[..7], Success), 7, 3) == 1
    ensures InWindowCount(Written(xs[..7], Failure), 7, 3) == 3
  {
    AgeRangeWritten7(xs);
    InWindowCountExtremes([Entry(xs[0].requestId, 1), Entry(xs[1].requestId, 2)], 7, 3);
    InWindowCountExtremes([Entry(xs[6].requestId, 7)], 7, 3);
    InWindowCountAppend([Entry(xs[0].requestId, 1), Entry(xs[1].requestId, 2)], [Entry(xs[6].requestId, 7)], 7, 3);
    assert [Entry(xs[0].requestId, 1), Entry(xs[1].requestId, 2), Entry(xs[6].requestId, 7)] == [Entry(xs[0].requestId, 1), Entry(xs[1].requestId, 2)] + [Entry(xs[6].requestId, 7)];
    InWindowCountExtremes([Entry(xs[2].requestId, 3)], 7, 3);
    InWindowCountExtremes([Entry(xs[3].requestId, 4), Entry(xs[4].requestId, 5), Entry(xs[5].requestId, 6)], 7, 3);
    InWindowCountAppend([Entry(xs[2].requestId, 3)], [Entry(xs[3].requestId, 4), Entry(xs[4].requestId, 5), Entry(xs[5].requestId, 6)], 7, 3);
    assert [Entry(xs[2].requestId, 3), Entry(xs[3].requestId, 4), Entry(xs[4].requestId, 5), Entry(xs[5].requestId, 6)] == [Entry(xs[2].requestId, 3)] + [Entry(xs[3].requestId, 4), Entry(xs[4].requestId, 5), Entry(xs[5].requestId, 6)];
  }

  lemma AgeRangeCounts8(xs: seq<Sample>)
    requires AgeRangeShape(xs)
    ensures |Written(xs[..8], Success)| == 4 && |Written(xs[..8], Failure)| == 4
    ensures InWindowCount(Written(xs[..8], Success), 8, 3) == 2
    ensures InWindowCount(Written(xs[..8], Failure), 8, 3) == 2
  {
    AgeRangeWritten8(xs);
    InWindowCountExtremes([Entry(xs[0].requestId, 1), Entry(xs[1].requestId, 2)], 8, 3);
    InWindowCountExtremes([Entry(xs[6].requestId, 7), Entry(xs[7].requestId, 8)], 8, 3);
    InWindowCountAppend([Entry(xs[0].requestId, 1), Entry(xs[1].requestId, 2)], [Entry(xs[6].requestId, 7), Entry(xs[7].requestId, 8)], 8, 3);
    assert [Entry(xs[0].requestId, 1), Entry(xs[1].requestId, 2), Entry(xs[6].requestId, 7), Entry(xs[7].requestId, 8)] == [Entry(xs[0].requestId, 1), Entry(xs[1].requestId, 2)] + [Entry(xs[6].requestId, 7), Entry(xs[7].requestId, 8)];
    InWindowCountExtremes([Entry(xs[2].requestId, 3), Entry(xs[3].requestId, 4)], 8, 3);
    InWindowCountExtremes([Entry(xs[4].requestId, 5), Entry(xs[5].requestId, 6)], 8, 3);
    InWindowCountAppend([Entry(xs[2].requestId, 3), Entry(xs[3].requestId, 4)], [Entry(xs[4].requestId, 5), Entry(xs[5].requestId, 6)], 8, 3);
    assert [Entry(xs[2].requestId, 3), Entry(xs[3].requestId, 4), Entry(xs[4].requestId, 5), Entry(xs[5].requestId, 6)] == [Entry(xs[2].requestId, 3), Entry(xs[3].requestId, 4)] + [Entry(xs[4].requestId, 5), Entry(xs[5].requestId, 6)];
  }

  lemma AgeRangeCounts9(xs: seq<Sample>)
    requires AgeRangeShape(xs)
    ensures |Written(xs[..9], Success)| == 5 && |Written(xs[..9], Failure)| == 4
    ensures InWindowCount(Written(xs[..9], Success), 9, 3) == 3
    ensures InWindowCount(Written(xs[..9], Failure), 9, 3) == 1
  {
    AgeRangeWritten9(xs);
    InWindowCountExtremes([Entry(xs[0].requestId, 1), Entry(xs[1].requestId, 2)], 9, 3);
    InWindowCountExtremes([Entry(xs[6].requestId, 7), Entry(xs[7].requestId, 8), Entry(xs[8].requestId, 9)], 9, 3);
    InWindowCountAppend([Entry(xs[0].requestId, 1), Entry(xs[1].requestId, 2)], [Entry(xs[6].requestId, 7), Entry(xs[7].requestId, 8), Entry(xs[8].requestId, 9)], 9, 3);
    assert [Entry(xs[0].requestId, 1), Entry(xs[1].requestId, 2), Entry(xs[6].requestId, 7), Entry(xs[7].requestId, 8), Entry(xs[8].requestId, 9)] == [Entry(xs[0].requestId, 1), Entry(xs[1].requestId, 2)] + [Entry(xs[6].requestId, 7), Entry(xs[7].requestId, 8), Entry(xs[8].requestId, 9)];
    InWindowCountExtremes([Entry(xs[2].requestId, 3), Entry(xs[3].requestId, 4), Entry(xs[4].requestId, 5)], 9, 3);
    InWindowCountExtremes([Entry(xs[5].requestId, 6)], 9, 3);
    InWindowCountAppend([Entry(xs[2].requestId, 3), Entry(xs[3].requestId, 4), Entry(xs[4].requestId, 5)], [Entry(xs[5].requestId, 6)], 9, 3);
    assert [Entry(xs[2].requestId, 3), Entry(xs[3].requestId, 4), Entry(xs[4].requestId, 5), Entry(xs[5].requestId, 6)] == [Entry(xs[2].requestId, 3), Entry(xs[3].requestId, 4), Entry(xs[4].requestId, 5)] + [Entry(xs[5].requestId, 6)];
  }

  lemma AgeRangeCounts10(xs: seq<Sample>)
    requires AgeRangeShape(xs)
    ensures |Written(xs[..10], Success)| == 6 && |Written(xs[..10], Failure)| == 4
    ensures InWindowCount(Written(xs[..10], Success), 10, 3) == 4
    ensures InWindowCount(Written(xs[..10], Failure), 10, 3) == 0
  {
    AgeRangeWritten10(xs);
    InWindowCountExtremes([Entry(xs[0].requestId, 1), Entry(xs[1].requestId, 2)], 10, 3);
    InWindowCountExtremes([Entry(xs[6].requestId, 7), Entry(xs[7].requestId, 8), Entry(xs[8].requestId, 9), Entry(xs[9].requestId, 10)], 10, 3);
    InWindowCountAppend([Entry(xs[0].requestId, 1), Entry(xs[1].requestId, 2)], [Entry(xs[6].requestId, 7), Entry(xs[7].requestId, 8), Entry(xs[8].requestId, 9), Entry(xs[9].requestId, 10)], 10, 3);
    assert [Entry(xs[0].requestId, 1), Entry(xs[1].requestId, 2), Entry(xs[6].requestId, 7), Entry(xs[7].requestId, 8), Entry(xs[8].requestId, 9), Entry(xs[9].requestId, 10)] == [Entry(xs[0].requestId, 1), Entry(xs[1].requestId, 2)] + [Entry(xs[6].requestId, 7), Entry(xs[7].requestId, 8), Entry(xs[8].requestId, 9), Entry(xs[9].requestId, 10)];
    InWindowCountExtremes([Entry(xs[2].requestId, 3), Entry(xs[3].requestId, 4), Entry(xs[4].requestId, 5), Entry(xs[5].requestId, 6)], 10, 3);
  }

  lemma AgeRangeOpens1(xs: seq<Sample>)
    requires AgeRangeShape(xs)
    ensures !OpensAt(xs, AgeRangeConfig, 1)
  {
    AgeRangeCounts1(xs);
    assert xs[0].timestamp == 1;
  }

  lemma AgeRangeOpens2(xs: seq<Sample>)
    requires AgeRangeShape(xs)
    ensures !OpensAt(xs, AgeRangeConfig, 2)
  {
    AgeRangeCounts2(xs);
    assert xs[1].timestamp == 2;
  }

  lemma AgeRangeOpens3(xs: seq<Sample>)
    requires AgeRangeShape(xs)
    ensures !OpensAt(xs, AgeRangeConfig, 3)
  {
    AgeRangeCounts3(xs);
    assert xs[2].timestamp == 3;
  }

  lemma AgeRangeOpens4(xs: seq<Sample>)
    requires AgeRangeShape(xs)
    ensures OpensAt(xs, AgeRangeConfig, 4)
  {
    AgeRangeCounts4(xs);
    assert xs[3].timestamp == 4;
  }

  /**
   After update 1, a success at time 1: 1 success and 0 failures
   stored, 1 and 0 of them in the window respectively; ratio 0%; closed: the ratio is below 50%.
   */
  lemma AgeRangeAfter1(b: Store, xs: seq<Sample>)
    requires Unused(b) && AgeRangeShape(xs)
    ensures var r := RecordAll(b, xs[..1], AgeRangeConfig);
      && |r.success| == 1 && |r.failure| == 0
      && r.hasInfo && r.pattern == "url_pattern" && r.state == Closed && r.failRatio == 0
  {
    AgeRangeCounts1(xs);
    assert xs[0].timestamp == 1;
    AgeRangeOpens1(xs);
    assert !OpenedWithin(xs, AgeRangeConfig, 1);
    FreshCheckpoint(b, xs, AgeRangeConfig, 1, 1, 0);
    FreshState(b, xs, AgeRangeConfig, 1);
  }

  /**
   After update 2, a success at time 2: 2 successes and 0 failures
   stored, 2 and 0 of them in the window respectively; ratio 0%; closed: the ratio is below 50%.
   */
  lemma AgeRangeAfter2(b: Store, xs: seq<Sample>)
    requires Unused(b) && AgeRangeShape(xs)
    ensures var r := RecordAll(b, xs[..2], AgeRangeConfig);
      && |r.success| == 2 && |r.failure| == 0
      && r.hasInfo && r.pattern == "url_pattern" && r.state == Closed && r.failRatio == 0
  {
    AgeRangeCounts2(xs);
    assert xs[1].timestamp == 2;
    AgeRangeOpens1(xs);
    assert !OpenedWithin(xs, AgeRangeConfig, 1);
    AgeRangeOpens2(xs);
    assert !OpenedWithin(xs, AgeRangeConfig, 2);
    FreshCheckpoint(b, xs, AgeRangeConfig, 2, 2, 0);
    FreshState(b, xs, AgeRangeConfig, 2);
  }

  /**
   After update 3, a failure at time 3: 2 successes and 1 failure
   stored, 2 and 1 of them in the window respectively; ratio 33%; closed: the ratio is below 50%.
   */
  lemma AgeRangeAfter3(b: Store, xs: seq<Sample>)
    requires Unused(b) && AgeRangeShape(xs)
    ensures var r := RecordAll(b, xs[..3], AgeRangeConfig);
      && |r.success| == 2 && |r.failure| == 1
      && r.hasInfo && r.pattern == "url_pattern" && r.state == Closed && r.failRatio == 33
  {
    AgeRangeCounts3(xs);
    assert xs[2].timestamp == 3;
    AgeRangeOpens1(xs);
    assert !OpenedWithin(xs, AgeRangeConfig, 1);
    AgeRangeOpens2(xs);
    assert !OpenedWithin(xs, AgeRangeConfig, 2);
    AgeRangeOpens3(xs);
    assert !OpenedWithin(xs, AgeRangeConfig, 3);
    FreshCheckpoint(b, xs, AgeRangeConfig, 3, 2, 1);
    FreshState(b, xs, AgeRangeConfig, 3);
  }

  /**
   After update 4, a failure at time 4: 2 successes and 2 failures
   stored, 2 and 2 of them in the window respectively; ratio 50%; opens: 4 samples meet the minimum of 1 and 50% meets the threshold.
   */
  lemma AgeRangeAfter4(b: Store, xs: seq<Sample>)
    requires Unused(b) && AgeRangeShape(xs)
    ensures var r := RecordAll(b, xs[..4], AgeRangeConfig);
      && |r.success| == 2 && |r.failure| == 2
      && r.hasInfo && r.pattern == "url_pattern" && r.state == Open && r.failRatio == 50
  {
    AgeRangeCounts4(xs);
    assert xs[3].timestamp == 4;
    AgeRangeOpens4(xs);
    OpenedWithinGrows(xs, AgeRangeConfig, 4, 4);
    FreshCheckpoint(b, xs, AgeRangeConfig, 4, 2, 2);
    FreshState(b, xs, AgeRangeConfig, 4);
  }

  /**
   After update 5, a failure at time 5: 2 successes and 3 failures
   stored, 1 and 3 of them in the window respectively; ratio 75%; stays open, since nothing here closes it.
   */
  lemma AgeRangeAfter5(b: Store, xs: seq<Sample>)
    requires Unused(b) && AgeRangeShape(xs)
    ensures var r := RecordAll(b, xs[..5], AgeRangeConfig);
      && |r.success| == 2 && |r.failure| == 3
      && r.hasInfo && r.pattern == "url_pattern" && r.state == Open && r.failRatio == 75
  {
    AgeRangeCounts5(xs);
    assert xs[4].timestamp == 5;
    AgeRangeOpens4(xs);
    OpenedWithinGrows(xs, AgeRangeConfig, 4, 5);
    FreshCheckpoint(b, xs, AgeRangeConfig, 5, 1, 3);
    FreshState(b, xs, AgeRangeConfig, 5);
  }

  /**
   After update 6, a failure at time 6: 2 successes and 4 failures
   stored, 0 and 4 of them in the window respectively; ratio 100%; stays open, since nothing here closes it.
   */
  lemma AgeRangeAfter6(b: Store, xs: seq<Sample>)
    requires Unused(b) && AgeRangeShape(xs)
    ensures var r := RecordAll(b, xs[..6], AgeRangeConfig);
      && |r.success| == 2 && |r.failure| == 4
      && r.hasInfo && r.pattern == "url_pattern" && r.state == Open && r.failRatio == 100
  {
    AgeRangeCounts6(xs);
    assert xs[5].timestamp == 6;
    AgeRangeOpens4(xs);
    OpenedWithinGrows(xs, AgeRangeConfig, 4, 6);
    FreshCheckpoint(b, xs, AgeRangeConfig, 6, 0, 4);
    FreshState(b, xs, AgeRangeConfig, 6);
  }

  /**
   After update 7, a success at time 7: 3 successes and 4 failures
   stored, 1 and 3 of them in the window respectively; ratio 75%; stays open, since nothing here closes it.
   */
  lemma AgeRangeAfter7(b: Store, xs: seq<Sample>)
    requires Unused(b) && AgeRangeShape(xs)
    ensures var r := RecordAll(b, xs[..7], AgeRangeConfig);
      && |r.success| == 3 && |r.failure| == 4
      && r.hasInfo && r.pattern == "url_pattern" && r.state == Open && r.failRatio == 75
  {
    AgeRangeCounts7(xs);
    assert xs[6].timestamp == 7;
    AgeRangeOpens4(xs);
    OpenedWithinGrows(xs, AgeRangeConfig, 4, 7);
    FreshCheckpoint(b, xs, AgeRangeConfig, 7, 1, 3);
    FreshState(b, xs, AgeRangeConfig, 7);
  }

  /**
   After update 8, a success at time 8: 4 successes and 4 failures
   stored, 2 and 2 of them in the window respectively; ratio 50%; stays open, since nothing here closes it.
   */
  lemma AgeRangeAfter8(b: Store, xs: seq<Sample>)
    requires Unused(b) && AgeRangeShape(xs)
    ensures var r := RecordAll(b, xs[..8], AgeRangeConfig);
      && |r.success| == 4 && |r.failure| == 4
      && r.hasInfo && r.pattern == "url_pattern" && r.state == Open && r.failRatio == 50
  {
    AgeRangeCounts8(xs);
    assert xs[7].timestamp == 8;
    AgeRangeOpens4(xs);
    OpenedWithinGrows(xs, AgeRangeConfig, 4, 8);
    FreshCheckpoint(b, xs, AgeRangeConfig, 8, 2, 2);
    FreshState(b, xs, AgeRangeConfig, 8);
  }

  /**
   After update 9, a success at time 9: 5 successes and 4 failures
   stored, 3 and 1 of them in the window respectively; ratio 25%; stays open, since nothing here closes it.
   */
  lemma AgeRangeAfter9(b: Store, xs: seq<Sample>)
    requires Unused(b) && AgeRangeShape(xs)
    ensures var r := RecordAll(b, xs[..9], AgeRangeConfig);
      && |r.success| == 5 && |r.failure| == 4
      && r.hasInfo && r.pattern == "url_pattern" && r.state == Open && r.failRatio == 25
  {
    AgeRangeCounts9(xs);
    assert xs[8].timestamp == 9;
    AgeRangeOpens4(xs);
    OpenedWithinGrows(xs, AgeRangeConfig, 4, 9);
    FreshCheckpoint(b, xs, AgeRangeConfig, 9, 3, 1);
    FreshState(b, xs, AgeRangeConfig, 9);
  }

  /**
   After update 10, a success at time 10: 6 successes and 4 failures
   stored, 4 and 0 of them in the window respectively; ratio 0%; stays open, since nothing here closes it.
   */
  lemma AgeRangeAfter10(b: Store, xs: seq<Sample>)
    requires Unused(b) && AgeRangeShape(xs)
    ensures var r := RecordAll(b, xs[..10], AgeRangeConfig);
      && |r.success| == 6 && |r.failure| == 4
      && r.hasInfo && r.pattern == "url_pattern" && r.state == Open && r.failRatio == 0
  {
    AgeRangeCounts10(xs);
    assert xs[9].timestamp == 10;
    AgeRangeOpens4(xs);
    OpenedWithinGrows(xs, AgeRangeConfig, 4, 10);
    FreshCheckpoint(b, xs, AgeRangeConfig, 10, 4, 0);
    FreshState(b, xs, AgeRangeConfig, 10);
  }
}
