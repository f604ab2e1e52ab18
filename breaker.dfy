/**
 The statistics update of a queue circuit breaker. Every dispatched queue
 request is reported as a success or a failure of its URL pattern; one update
 records the sample in the matching sorted set, trims that set to its newest
 members, counts both sets over the age window, stores the failure ratio and
 the pattern in the breaker's info record, and opens the breaker once enough
 samples fail often enough. Closing again is left to another component, so
 within this update an open breaker stays open.
 */
module CircuitBreaker {
  import opened SortedSet

  datatype Outcome = Success | Failure

  /** Half-open is set and cleared by the reset mechanism only. */
  datatype State = Closed | Open | HalfOpen

  /** The per-call configuration passed with every update. */
  datatype Config = Config(
    errorThresholdPercentage: int,
    entriesMaxAgeMS: int,
    minSampleCount: int,
    maxSampleCount: int)

  predicate ValidConfig(c: Config)
  {
    && c.maxSampleCount >= 1
    && c.entriesMaxAgeMS >= 0
    && 0 <= c.errorThresholdPercentage <= 100
    && c.minSampleCount >= 0
  }

  /** One reported outcome of a queued request. */
  datatype Sample = Sample(outcome: Outcome, requestId: string, pattern: string, timestamp: int)

  /**
   Everything one breaker keeps in the store: the success and failure sorted
   sets, and the info record (whether it exists yet, its pattern, state and
   failure ratio). An absent info record reads as a closed breaker.
   */
  datatype Store = Store(
    success: seq<Entry>,
    failure: seq<Entry>,
    hasInfo: bool,
    pattern: string,
    state: State,
    failRatio: nat)

  datatype Status = Recorded | InvalidConfiguration

  /** The status a call reports: a configuration outside its ranges is refused. */
  function StatusOf(cfg: Config): Status
  {
    if ValidConfig(cfg) then Recorded else InvalidConfiguration
  }

  /** The store of a breaker that never recorded a sample. */
  const Initial := Store([], [], false, "", Closed, 0)

  ghost predicate ValidStore(b: Store)
  {
    ValidSet(b.success) && ValidSet(b.failure)
  }

  /** The sorted set a sample of the given outcome is written to. */
  function SetOf(b: Store, o: Outcome): seq<Entry>
  {
    if o == Success then b.success else b.failure
  }

  function Opposite(o: Outcome): Outcome
  {
    if o == Success then Failure else Success
  }

  /** A sorted set exists in the store exactly while it has members. */
  predicate Exists(s: seq<Entry>)
  {
    s != []
  }

  // ---------------------------------------------------------------------------
  // Failure ratio
  // ---------------------------------------------------------------------------

  /**
   The failure percentage of a window, rounded down; 0 for an empty window.
   */
  function FailRatio(fails: nat, successes: nat): (r: nat)
    ensures r <= 100
    ensures fails + successes == 0 ==> r == 0
  {
    if fails + successes == 0 then 0 else 100 * fails / (fails + successes)
  }

  /** Over a non-empty window the ratio is the failure percentage rounded down. */
  lemma FailRatioIsFloor(fails: nat, successes: nat)
    requires fails + successes > 0
    ensures var r := FailRatio(fails, successes);
      r * (fails + successes) <= 100 * fails < (r + 1) * (fails + successes)
  {
  }

  /**
   Over a non-empty window the ratio is 100 exactly when nothing succeeded,
   and 0 exactly when failures are under one percent (in particular when
   nothing failed).
   */
  lemma FailRatioExtremes(fails: nat, successes: nat)
    requires fails + successes > 0
    ensures FailRatio(fails, successes) == 100 <==> successes == 0
    ensures FailRatio(fails, successes) == 0 <==> 100 * fails < fails + successes
  {
    var total := fails + successes;
    var r := FailRatio(fails, successes);
    FailRatioIsFloor(fails, successes);
    if successes == 0 {
      if r < 100 {
        MulMonotone(r + 1, 100, total);
      }
    }
    if r == 100 {
      assert r * total == 100 * total;
    }
    if r == 0 {
      assert (r + 1) * total == total;
    } else {
      MulMonotone(1, r, total);
    }
  }

  lemma MulMonotone(a: nat, b: nat, c: nat)
    requires a <= b
    ensures a * c <= b * c
  {
  }

  // ---------------------------------------------------------------------------
  // One update
  // ---------------------------------------------------------------------------

  /**
   One update of the statistics. In order: add the sample to the set of its
   outcome, trim that set to its `maxSampleCount` newest members, count the
   members of both sets no older than `entriesMaxAgeMS` at the sample's
   timestamp, compute the failure ratio, open a closed breaker when the
   window holds at least `minSampleCount` samples and the ratio reaches the
   threshold, and write pattern, state and ratio to the info record.
   */
  function Record(b: Store, x: Sample, cfg: Config): (r: Store)
    requires ValidConfig(cfg)
    ensures r.hasInfo && r.pattern == x.pattern
    ensures SetOf(r, Opposite(x.outcome)) == SetOf(b, Opposite(x.outcome))
    ensures SetOf(r, x.outcome)
         == TrimToNewest(Add(SetOf(b, x.outcome), x.requestId, x.timestamp), cfg.maxSampleCount)
    ensures Exists(SetOf(r, x.outcome)) && |SetOf(r, x.outcome)| <= cfg.maxSampleCount
    ensures
      var fails := InWindowCount(r.failure, x.timestamp, cfg.entriesMaxAgeMS);
      var successes := InWindowCount(r.success, x.timestamp, cfg.entriesMaxAgeMS);
      && r.failRatio == FailRatio(fails, successes)
      && (b.state == Closed ==>
            (r.state == Open <==>
               fails + successes >= cfg.minSampleCount && r.failRatio >= cfg.errorThresholdPercentage))
    ensures r.state == b.state || (b.state == Closed && r.state == Open)
  {
    var written := TrimToNewest(Add(SetOf(b, x.outcome), x.requestId, x.timestamp), cfg.maxSampleCount);
    var success := if x.outcome == Success then written else b.success;
    var failure := if x.outcome == Failure then written else b.failure;
    var successes := InWindowCount(success, x.timestamp, cfg.entriesMaxAgeMS);
    var fails := InWindowCount(failure, x.timestamp, cfg.entriesMaxAgeMS);
    var ratio := FailRatio(fails, successes);
    var opens := b.state == Closed
      && fails + successes >= cfg.minSampleCount
      && ratio >= cfg.errorThresholdPercentage;
    Store(success, failure, true, x.pattern, if opens then Open else b.state, ratio)
  }

  /** An update keeps both sets in rank order with each member once. */
  lemma RecordPreservesValid(b: Store, x: Sample, cfg: Config)
    requires ValidConfig(cfg) && ValidStore(b)
    ensures ValidStore(Record(b, x, cfg))
  {
    var added := Add(SetOf(b, x.outcome), x.requestId, x.timestamp);
    AddValid(SetOf(b, x.outcome), x.requestId, x.timestamp);
    TrimKeepsNewest(added, cfg.maxSampleCount);
  }

  /** One call of the update: a sample and the configuration passed with it. */
  datatype Call = Call(sample: Sample, cfg: Config)

  /** One call on a store: the update, or no change when the configuration is refused. */
  function Apply(b: Store, c: Call): Store
  {
    if ValidConfig(c.cfg) then Record(b, c.sample, c.cfg) else b
  }

  /**
   The store after a sequence of calls, oldest first. Every call brings its
   own configuration, so threshold, age, gate and cap may change between calls.
   An info record, once written, is never removed, and a last call in range
   leaves its pattern there.
   */
  function RecordCalls(b: Store, cs: seq<Call>): (r: Store)
    ensures b.hasInfo ==> r.hasInfo
    ensures cs != [] && ValidConfig(cs[|cs| - 1].cfg) ==>
      r.hasInfo && r.pattern == cs[|cs| - 1].sample.pattern
    decreases |cs|
  {
    if cs == [] then b else Apply(RecordCalls(b, cs[..|cs| - 1]), cs[|cs| - 1])
  }

  /** The calls that pass the same configuration with every sample. */
  function SameConfig(xs: seq<Sample>, cfg: Config): seq<Call>
  {
    seq(|xs|, i requires 0 <= i < |xs| => Call(xs[i], cfg))
  }

  /**
   The store after a sequence of updates that all pass the configuration
   `cfg`, as every run of the test does. After at least one update the info
   record exists and holds the pattern of the last sample.
   */
  function RecordAll(b: Store, xs: seq<Sample>, cfg: Config): (r: Store)
    requires ValidConfig(cfg)
    ensures xs != [] ==> r.hasInfo && r.pattern == xs[|xs| - 1].pattern
    decreases |xs|
  {
    if xs == [] then b else Record(RecordAll(b, xs[..|xs| - 1], cfg), xs[|xs| - 1], cfg)
  }

  /** One more call extends a run by `Apply`. */
  lemma RecordCallsStep(b: Store, cs: seq<Call>, n: nat)
    requires n < |cs|
    ensures RecordCalls(b, cs[..n + 1]) == Apply(RecordCalls(b, cs[..n]), cs[n])
  {
    assert cs[..n + 1][..n] == cs[..n];
  }

  /** `RecordAll` is the run of calls that all pass the same configuration. */
  lemma {:induction false} RecordAllIsRecordCalls(b: Store, xs: seq<Sample>, cfg: Config)
    requires ValidConfig(cfg)
    ensures RecordAll(b, xs, cfg) == RecordCalls(b, SameConfig(xs, cfg))
  {
    if xs != [] {
      var n := |xs| - 1;
      RecordAllIsRecordCalls(b, xs[..n], cfg);
      assert SameConfig(xs, cfg)[..n] == SameConfig(xs[..n], cfg);
    }
  }

  // ---------------------------------------------------------------------------
  // Properties of update sequences
  // ---------------------------------------------------------------------------

  /**
   Latching: once the breaker is open (or in any state other than closed),
   no sequence of calls changes its state, whatever configurations they
   pass and whatever the ratio does.
   */
  lemma {:induction false} StateLatches(b: Store, cs: seq<Call>)
    requires b.state != Closed
    ensures RecordCalls(b, cs).state == b.state
  {
    if cs != [] {
      StateLatches(b, cs[..|cs| - 1]);
    }
  }

  /** Calls, whatever their configurations, only ever move a breaker from closed to open. */
  lemma {:induction false} OnlyClosedToOpen(b: Store, cs: seq<Call>)
    ensures var s := RecordCalls(b, cs).state;
      s == b.state || (b.state == Closed && s == Open)
  {
    if cs != [] {
      OnlyClosedToOpen(b, cs[..|cs| - 1]);
    }
  }

  /**
   Size bound: starting from well-formed sets of at most `cap` members, and
   with no call passing a `maxSampleCount` above `cap`, both sets stay
   well-formed and never hold more than `cap` members.
   */
  lemma {:induction false} SetsStayBounded(b: Store, cs: seq<Call>, cap: nat)
    requires ValidStore(b)
    requires |b.success| <= cap && |b.failure| <= cap
    requires forall i :: 0 <= i < |cs| ==> cs[i].cfg.maxSampleCount <= cap
    ensures var r := RecordCalls(b, cs);
      && ValidStore(r)
      && |r.success| <= cap
      && |r.failure| <= cap
  {
    if cs != [] {
      var n := |cs| - 1;
      assert forall i :: 0 <= i < n ==> cs[..n][i] == cs[i];
      SetsStayBounded(b, cs[..n], cap);
      var prev := RecordCalls(b, cs[..n]);
      assert RecordCalls(b, cs) == Apply(prev, cs[n]);
      if ValidConfig(cs[n].cfg) {
        RecordPreservesValid(prev, cs[n].sample, cs[n].cfg);
      }
    }
  }

  /**
   Updates of one outcome never touch the other outcome's set; in particular
   the success set does not come into existence before the first success.
   */
  lemma {:induction false} OtherSetUntouched(b: Store, cs: seq<Call>, o: Outcome)
    requires forall i :: 0 <= i < |cs| ==> cs[i].sample.outcome == o
    ensures SetOf(RecordCalls(b, cs), Opposite(o)) == SetOf(b, Opposite(o))
  {
    if cs != [] {
      OtherSetUntouched(b, cs[..|cs| - 1], o);
    }
  }

  /**
   Age is only a read-time filter: while the written set fits within
   `maxSampleCount`, an update deletes nothing, however old its members are.
   */
  lemma RecordDeletesNothingBelowCap(b: Store, x: Sample, cfg: Config)
    requires ValidConfig(cfg) && ValidStore(b)
    requires |SetOf(b, x.outcome)| <= cfg.maxSampleCount
    requires x.requestId in Scores(SetOf(b, x.outcome)) || |SetOf(b, x.outcome)| < cfg.maxSampleCount
    ensures Scores(SetOf(Record(b, x, cfg), x.outcome))
         == Scores(SetOf(b, x.outcome))[x.requestId := x.timestamp]
  {
    var s := SetOf(b, x.outcome);
    var added := Add(s, x.requestId, x.timestamp);
    AddSize(s, x.requestId, x.timestamp);
    assert |added| <= cfg.maxSampleCount;
    assert TrimToNewest(added, cfg.maxSampleCount) == added;
    AddScores(s, x.requestId, x.timestamp);
  }

  /**
   Recording a request id that is already in the written set replaces its
   timestamp and leaves the set's size as it was.
   */
  lemma RecordSameIdKeepsSize(b: Store, x: Sample, cfg: Config)
    requires ValidConfig(cfg) && ValidStore(b)
    requires |SetOf(b, x.outcome)| <= cfg.maxSampleCount
    requires x.requestId in Scores(SetOf(b, x.outcome))
    ensures |SetOf(Record(b, x, cfg), x.outcome)| == |SetOf(b, x.outcome)|
    ensures Scores(SetOf(Record(b, x, cfg), x.outcome)) == Scores(SetOf(b, x.outcome))[x.requestId := x.timestamp]
  {
    var s := SetOf(b, x.outcome);
    var added := Add(s, x.requestId, x.timestamp);
    AddSize(s, x.requestId, x.timestamp);
    AddScores(s, x.requestId, x.timestamp);
    assert TrimToNewest(added, cfg.maxSampleCount) == added;
  }

  /**
   Eviction of the oldest: the written set after an update is the newest
   `maxSampleCount` members of the set with the sample added, and each
   member dropped ranks below every survivor.
   */
  lemma RecordEvictsOldest(b: Store, x: Sample, cfg: Config)
    requires ValidConfig(cfg) && ValidStore(b)
    ensures var added := Add(SetOf(b, x.outcome), x.requestId, x.timestamp);
      var kept := SetOf(Record(b, x, cfg), x.outcome);
      && |kept| == (if |added| <= cfg.maxSampleCount then |added| else cfg.maxSampleCount)
      && added == added[..|added| - |kept|] + kept
      && (forall i, y :: 0 <= i < |added| - |kept| && y in kept ==> Before(added[i], y))
  {
    var added := Add(SetOf(b, x.outcome), x.requestId, x.timestamp);
    AddValid(SetOf(b, x.outcome), x.requestId, x.timestamp);
    TrimKeepsNewest(added, cfg.maxSampleCount);
  }

  /** One update of a closed breaker whose sets cannot reach the gate leaves it closed. */
  lemma GateNotMet(b: Store, x: Sample, cfg: Config)
    requires ValidConfig(cfg) && b.state == Closed
    requires |b.success| + |b.failure| + 1 < cfg.minSampleCount
    ensures var r := Record(b, x, cfg);
      && r.state == Closed
      && |r.success| + |r.failure| <= |b.success| + |b.failure| + 1
  {
    var r := Record(b, x, cfg);
    assert |SetOf(r, x.outcome)| <= |SetOf(b, x.outcome)| + 1;
    assert InWindowCount(r.success, x.timestamp, cfg.entriesMaxAgeMS) <= |r.success|;
    assert InWindowCount(r.failure, x.timestamp, cfg.entriesMaxAgeMS) <= |r.failure|;
  }

  /**
   The minimum-sample gate: a closed breaker stays closed, whatever the
   ratio, while at every call the stored members and the samples reported
   so far number fewer than that call's `minSampleCount`, because its
   window can never hold enough samples.
   */
  lemma {:induction false} ClosedBelowMinSamples(b: Store, cs: seq<Call>)
    requires b.state == Closed
    requires forall i :: 0 <= i < |cs| ==> |b.success| + |b.failure| + i + 1 < cs[i].cfg.minSampleCount
    ensures var r := RecordCalls(b, cs);
      && r.state == Closed
      && |r.success| + |r.failure| <= |b.success| + |b.failure| + |cs|
  {
    if cs != [] {
      var n := |cs| - 1;
      assert forall i :: 0 <= i < n ==> cs[..n][i] == cs[i];
      ClosedBelowMinSamples(b, cs[..n]);
      var prev := RecordCalls(b, cs[..n]);
      var c := cs[n];
      assert RecordCalls(b, cs) == Apply(prev, c);
      assert |prev.success| + |prev.failure| + 1 < c.cfg.minSampleCount;
      if ValidConfig(c.cfg) {
        GateNotMet(prev, c.sample, c.cfg);
      }
    }
  }

  /** The entries a sequence of samples writes to the set of one outcome, oldest first. */
  function Written(xs: seq<Sample>, o: Outcome): (r: seq<Entry>)
    ensures |r| <= |xs|
    decreases |xs|
  {
    if xs == [] then []
    else
      var x := xs[|xs| - 1];
      Written(xs[..|xs| - 1], o) + (if x.outcome == o then [Entry(x.requestId, x.timestamp)] else [])
  }

  /** Every request of the sequence is new and later than all earlier ones. */
  predicate Fresh(xs: seq<Sample>)
  {
    forall i, j :: 0 <= i < j < |xs| ==>
      xs[i].timestamp < xs[j].timestamp && xs[i].requestId != xs[j].requestId
  }

  /** Every entry written comes from a sample of that outcome. */
  lemma {:induction false} WrittenMembers(xs: seq<Sample>, o: Outcome, e: Entry)
    requires e in Written(xs, o)
    ensures exists i :: 0 <= i < |xs| && xs[i].outcome == o && e == Entry(xs[i].requestId, xs[i].timestamp)
  {
    var n := |xs| - 1;
    if e in Written(xs[..n], o) {
      WrittenMembers(xs[..n], o, e);
      var i :| 0 <= i < n && xs[..n][i].outcome == o
        && e == Entry(xs[..n][i].requestId, xs[..n][i].timestamp);
      assert xs[..n][i] == xs[i];
    } else {
      assert xs[n].outcome == o && e == Entry(xs[n].requestId, xs[n].timestamp);
    }
  }

  /** In a fresh sequence, everything written before the last sample is older and has another id. */
  lemma WrittenBeforeLast(xs: seq<Sample>, o: Outcome, e: Entry)
    requires Fresh(xs) && xs != []
    requires e in Written(xs[..|xs| - 1], o)
    ensures e.ts < xs[|xs| - 1].timestamp && e.id != xs[|xs| - 1].requestId
  {
    var n := |xs| - 1;
    WrittenMembers(xs[..n], o, e);
    var i :| 0 <= i < n && xs[..n][i].outcome == o
      && e == Entry(xs[..n][i].requestId, xs[..n][i].timestamp);
    assert xs[..n][i] == xs[i];
  }

  /**
   With fresh requests (new ids, increasing timestamps) recorded into empty
   sets, each set holds exactly the newest `maxSampleCount` samples of its
   outcome, in arrival order.
   */
  lemma {:induction false} FreshSetsAreNewest(b: Store, xs: seq<Sample>, cfg: Config, o: Outcome)
    requires ValidConfig(cfg) && b.success == [] && b.failure == []
    requires Fresh(xs)
    ensures SetOf(RecordAll(b, xs, cfg), o) == TrimToNewest(Written(xs, o), cfg.maxSampleCount)
  {
    if xs != [] {
      var n := |xs| - 1;
      var x := xs[n];
      assert Fresh(xs[..n]);
      FreshSetsAreNewest(b, xs[..n], cfg, o);
      var prev := RecordAll(b, xs[..n], cfg);
      if x.outcome == o {
        var s := SetOf(prev, o);
        var w := Written(xs[..n], o);
        forall e | e in s
          ensures e.ts < x.timestamp && e.id != x.requestId
        {
          TrimSubset(w, cfg.maxSampleCount, e);
          WrittenBeforeLast(xs, o, e);
        }
        AddNewest(s, x.requestId, x.timestamp);
        TrimAppend(w, Entry(x.requestId, x.timestamp), cfg.maxSampleCount);
        assert Written(xs, o) == w + [Entry(x.requestId, x.timestamp)];
        var r := Record(prev, x, cfg);
        assert SetOf(r, o) == TrimToNewest(Add(s, x.requestId, x.timestamp), cfg.maxSampleCount);
        assert SetOf(r, o) == TrimToNewest(Written(xs, o), cfg.maxSampleCount);
        assert RecordAll(b, xs, cfg) == r;
      } else {
        assert Written(xs, o) == Written(xs[..n], o);
      }
    }
  }

  lemma FreshPrefix(xs: seq<Sample>, k: nat)
    requires Fresh(xs) && k <= |xs|
    ensures Fresh(xs[..k])
  {
    var ys := xs[..k];
    forall i, j | 0 <= i < j < |ys|
      ensures ys[i].timestamp < ys[j].timestamp && ys[i].requestId != ys[j].requestId
    {
      assert ys[i] == xs[i] && ys[j] == xs[j];
    }
  }

  /** A sequence of samples of one outcome writes all of them, in order. */
  lemma {:induction false} WrittenSingleOutcome(xs: seq<Sample>, o: Outcome)
    requires forall i :: 0 <= i < |xs| ==> xs[i].outcome == o
    ensures |Written(xs, o)| == |xs|
    ensures forall i :: 0 <= i < |xs| ==> Written(xs, o)[i] == Entry(xs[i].requestId, xs[i].timestamp)
  {
    if xs != [] {
      var n := |xs| - 1;
      WrittenSingleOutcome(xs[..n], o);
      forall i | 0 <= i < n
        ensures Written(xs, o)[i] == Entry(xs[i].requestId, xs[i].timestamp)
      {
        assert xs[..n][i] == xs[i];
      }
    }
  }

  /**
   Count eviction: after a fresh sequence of at least `maxSampleCount`
   samples of one outcome, the set of that outcome holds exactly the request
   ids of the last `maxSampleCount` samples; every earlier one was removed.
   */
  lemma NewestRequestsRemain(b: Store, xs: seq<Sample>, cfg: Config, o: Outcome)
    requires ValidConfig(cfg) && b.success == [] && b.failure == []
    requires Fresh(xs) && |xs| >= cfg.maxSampleCount
    requires forall i :: 0 <= i < |xs| ==> xs[i].outcome == o
    ensures var s := SetOf(RecordAll(b, xs, cfg), o);
      && |s| == cfg.maxSampleCount
      && forall i :: 0 <= i < |xs| ==>
           (xs[i].requestId in Scores(s) <==> i >= |xs| - cfg.maxSampleCount)
  {
    var m := cfg.maxSampleCount;
    FreshSetsAreNewest(b, xs, cfg, o);
    WrittenSingleOutcome(xs, o);
    SuffixIds(xs, Written(xs, o), m);
  }

  lemma SuffixIds(xs: seq<Sample>, w: seq<Entry>, m: nat)
    requires Fresh(xs) && m <= |xs| && |w| == |xs|
    requires forall i :: 0 <= i < |xs| ==> w[i] == Entry(xs[i].requestId, xs[i].timestamp)
    ensures var s := TrimToNewest(w, m);
      && |s| == m
      && forall i :: 0 <= i < |xs| ==> (xs[i].requestId in Scores(s) <==> i >= |xs| - m)
  {
    var s := TrimToNewest(w, m);
    forall i | 0 <= i < |xs|
      ensures xs[i].requestId in Scores(s) <==> i >= |xs| - m
    {
      if i >= |xs| - m {
        assert s[i - (|xs| - m)].id == xs[i].requestId;
      } else {
        forall j | 0 <= j < |s|
          ensures s[j].id != xs[i].requestId
        {
          assert s[j] == w[j + |xs| - m];
        }
      }
    }
  }

  /**
   The k-th update of a fresh sequence: both sets are the newest samples of
   their outcome, the stored ratio is the failure percentage of those within
   the age window at the k-th timestamp, and a closed breaker opens exactly
   when that window is large enough and the ratio reaches the threshold.
   */
  lemma FreshUpdate(b: Store, xs: seq<Sample>, cfg: Config, k: nat)
    requires ValidConfig(cfg) && b.success == [] && b.failure == []
    requires Fresh(xs) && 0 < k <= |xs|
    ensures
      var prev := RecordAll(b, xs[..k - 1], cfg);
      var r := RecordAll(b, xs[..k], cfg);
      var now := xs[k - 1].timestamp;
      var successes := InWindowCount(r.success, now, cfg.entriesMaxAgeMS);
      var fails := InWindowCount(r.failure, now, cfg.entriesMaxAgeMS);
      && r.success == TrimToNewest(Written(xs[..k], Success), cfg.maxSampleCount)
      && r.failure == TrimToNewest(Written(xs[..k], Failure), cfg.maxSampleCount)
      && r.hasInfo && r.pattern == xs[k - 1].pattern
      && r.failRatio == FailRatio(fails, successes)
      && (prev.state == Closed ==>
            (r.state == Open <==>
               fails + successes >= cfg.minSampleCount && r.failRatio >= cfg.errorThresholdPercentage))
      && (r.state == prev.state || (prev.state == Closed && r.state == Open))
      && (r.state == Open <==> prev.state == Open || (prev.state == Closed && OpensAt(xs, cfg, k)))
  {
    var ys := xs[..k];
    var prev := RecordAll(b, xs[..k - 1], cfg);
    var r := Record(prev, xs[k - 1], cfg);
    assert ys[..|ys| - 1] == xs[..k - 1];
    assert RecordAll(b, ys, cfg) == r;
    FreshPrefix(xs, k);
    FreshSetsAreNewest(b, ys, cfg, Success);
    FreshSetsAreNewest(b, ys, cfg, Failure);
  }

  /**
   Whether the k-th update of a fresh sequence finds at least
   `minSampleCount` samples in the age window and a failure percentage at
   or above the threshold.
   */
  predicate OpensAt(xs: seq<Sample>, cfg: Config, k: nat)
    requires ValidConfig(cfg) && 0 < k <= |xs|
  {
    var now := xs[k - 1].timestamp;
    var successes := InWindowCount(TrimToNewest(Written(xs[..k], Success), cfg.maxSampleCount), now, cfg.entriesMaxAgeMS);
    var fails := InWindowCount(TrimToNewest(Written(xs[..k], Failure), cfg.maxSampleCount), now, cfg.entriesMaxAgeMS);
    fails + successes >= cfg.minSampleCount && FailRatio(fails, successes) >= cfg.errorThresholdPercentage
  }

  /** Whether one of the first k updates of a fresh sequence met the gate and the threshold. */
  predicate OpenedWithin(xs: seq<Sample>, cfg: Config, k: nat)
    requires ValidConfig(cfg) && k <= |xs|
  {
    k > 0 && (OpenedWithin(xs, cfg, k - 1) || OpensAt(xs, cfg, k))
  }

  /** Once one update has met the gate and the threshold, every longer prefix has too. */
  lemma {:induction false} OpenedWithinGrows(xs: seq<Sample>, cfg: Config, j: nat, k: nat)
    requires ValidConfig(cfg) && j <= k <= |xs|
    ensures OpenedWithin(xs, cfg, j) ==> OpenedWithin(xs, cfg, k)
    decreases k
  {
    if j < k {
      OpenedWithinGrows(xs, cfg, j, k - 1);
    }
  }

  /**
   Latching over a fresh sequence: a breaker that starts closed is open
   after the first k updates exactly when one of them met the gate and the
   threshold, and closed otherwise.
   */
  lemma {:induction false} FreshState(b: Store, xs: seq<Sample>, cfg: Config, k: nat)
    requires ValidConfig(cfg) && b.success == [] && b.failure == [] && b.state == Closed
    requires Fresh(xs) && k <= |xs|
    ensures RecordAll(b, xs[..k], cfg).state == if OpenedWithin(xs, cfg, k) then Open else Closed
  {
    if k == 0 {
      assert xs[..0] == [];
    } else {
      FreshState(b, xs, cfg, k - 1);
      FreshUpdate(b, xs, cfg, k);
    }
  }

  // ---------------------------------------------------------------------------
  // The store as an object updated in place
  // ---------------------------------------------------------------------------

  /** One breaker's keys in the store, updated in place by `RecordOutcome`. */
  class CircuitStore {
    var success: seq<Entry>
    var failure: seq<Entry>
    var hasInfo: bool
    var pattern: string
    var state: State
    var failRatio: nat

    ghost predicate Valid()
      reads this
    {
      ValidStore(View())
    }

    function View(): Store
      reads this
    {
      Store(success, failure, hasInfo, pattern, state, failRatio)
    }

    constructor ()
      ensures Valid() && View() == Initial
    {
      success, failure := [], [];
      hasInfo, pattern := false, "";
      state, failRatio := Closed, 0;
    }

    /**
     Records one outcome as a single indivisible update. A configuration
     outside its ranges is refused before anything is written.
     */
    method RecordOutcome(outcome: Outcome, requestId: string, pattern': string,
                         timestamp: int, cfg: Config) returns (status: Status)
      requires Valid()
      modifies this
      ensures Valid()
      ensures status == StatusOf(cfg)
      ensures ValidConfig(cfg) ==>
        View() == Record(old(View()), Sample(outcome, requestId, pattern', timestamp), cfg)
      ensures !ValidConfig(cfg) ==> View() == old(View())
    {
      if !ValidConfig(cfg) {
        return InvalidConfiguration;
      }
      ghost var before := View();
      RecordPreservesValid(before, Sample(outcome, requestId, pattern', timestamp), cfg);
      // insert, then trim the set just written
      if outcome == Success {
        success := TrimToNewest(Add(success, requestId, timestamp), cfg.maxSampleCount);
      } else {
        failure := TrimToNewest(Add(failure, requestId, timestamp), cfg.maxSampleCount);
      }
      // count both sets over the age window
      var successes := InWindowCount(success, timestamp, cfg.entriesMaxAgeMS);
      var fails := InWindowCount(failure, timestamp, cfg.entriesMaxAgeMS);
      var ratio := FailRatio(fails, successes);
      // only a closed breaker opens; nothing here closes one
      if state == Closed && fails + successes >= cfg.minSampleCount
         && ratio >= cfg.errorThresholdPercentage {
        state := Open;
      }
      failRatio := ratio;
      pattern := pattern';
      hasInfo := true;
      status := Recorded;
      assert View() == Record(before, Sample(outcome, requestId, pattern', timestamp), cfg);
    }

    /**
     Performs a sequence of calls one after the other, oldest first, each
     with its own configuration, and reports the status of each.
     */
    method RecordEach(cs: seq<Call>) returns (statuses: seq<Status>)
      requires Valid()
      modifies this
      ensures Valid() && View() == RecordCalls(old(View()), cs)
      ensures |statuses| == |cs|
      ensures forall i :: 0 <= i < |cs| ==> statuses[i] == StatusOf(cs[i].cfg)
    {
      ghost var start := View();
      statuses := [];
      var i := 0;
      while i < |cs|
        invariant 0 <= i <= |cs|
        invariant Valid() && View() == RecordCalls(start, cs[..i])
        invariant |statuses| == i
        invariant forall j :: 0 <= j < i ==> statuses[j] == StatusOf(cs[j].cfg)
      {
        var c := cs[i];
        RecordCallsStep(start, cs, i);
        ghost var before := View();
        var x := c.sample;
        assert Sample(x.outcome, x.requestId, x.pattern, x.timestamp) == x;
        var status := RecordOutcome(x.outcome, x.requestId, x.pattern, x.timestamp, c.cfg);
        assert View() == Apply(before, c);
        statuses := statuses + [status];
        i := i + 1;
      }
      assert cs[..|cs|] == cs;
    }
  }
}
