# Queue circuit breaker: statistics update

A model of the statistics update of gateleen's queue circuit breaker. Every
dispatched queue request is reported for its URL pattern as a success or a
failure. One update does the following, in order:

1. It adds the request id, scored by its timestamp, to the success or the
   failure sorted set.
2. It trims that set to its `maxSampleCount` newest members.
3. It counts the members of both sets whose age at the update's timestamp
   is at most `entriesMaxAgeMS`.
4. It stores the failure percentage, rounded down, in the breaker's info
   record, together with the pattern.
5. It opens a closed breaker when the window holds at least `minSampleCount`
   samples and the percentage reaches `errorThresholdPercentage`.

Nothing in the update closes a breaker again.

The update script itself runs inside the store and is known here through the
test that drives it,
`gateleen-queue/src/test/java/org/swisspush/gateleen/queue/queuing/circuitbreaker/lua/UpdateQueueCircuitBreakerStatsLuaScriptTests.java`.
Its three scenarios are replayed as lemmas.

The files:

- `sorted_set.dfy` (module `SortedSet`) holds the store's sorted sets. A set
  is a sequence of entries in rank order: by score, then by id compared
  character by character. It provides:
  - ZADD (`Add`);
  - rank trimming (`TrimToNewest`);
  - the window count (`InWindowCount`);
  - the member-to-score view (`Scores`).
- `breaker.dfy` (module `CircuitBreaker`) holds:
  - the configuration, the sample and the store of one breaker (two sets and
    the info record);
  - the update as a function on values (`Record`);
  - sequences of calls (`RecordCalls`). Each call passes its own
    configuration, and a call whose configuration is refused changes
    nothing;
  - runs whose calls all pass one configuration (`RecordAll`), as every run
    of the test does;
  - the class `CircuitStore`. Its method `RecordOutcome` updates the
    breaker's keys in place and is proved equal to `Record`. Its method
    `RecordEach` performs a sequence of calls and is proved equal to
    `RecordCalls`;
  - the properties of update sequences.
- `scenarios.dfy` (module `Scenarios`) holds the test's three runs. Each is
  stated for every run of the same shape: any distinct request ids, with
  the test's outcomes and configuration. The error-percentage and age-window
  runs also fix the test's timestamps. The size-cap run allows any strictly
  increasing timestamps, since the cap does not depend on them. Each test
  run is shown to have its shape.

Three definitions carry most of the proofs about sequences of updates:

- A *fresh* sequence has strictly increasing timestamps and distinct request
  ids, as in every scenario of the test.
- `Written(xs, o)` lists the entries such a sequence writes to the set of
  outcome `o`.
- `OpenedWithin(xs, cfg, k)` says whether one of the first `k` updates met
  the gate and the threshold.

## Model

| member | source | states |
|---|---|---|
| SortedSet.Scores | gateleen-queue/src/test/java/org/swisspush/gateleen/queue/queuing/circuitbreaker/lua/UpdateQueueCircuitBreakerStatsLuaScriptTests.java:84-91 | a request id is a member of the set read back exactly when some entry of the set carries it |
| SortedSet.RemoveId | gateleen-queue/src/test/java/org/swisspush/gateleen/queue/queuing/circuitbreaker/lua/UpdateQueueCircuitBreakerStatsLuaScriptTests.java:138-160 | removing a member keeps exactly the entries with other ids, and never grows the set |
| SortedSet.InsertSorted | gateleen-queue/src/test/java/org/swisspush/gateleen/queue/queuing/circuitbreaker/lua/UpdateQueueCircuitBreakerStatsLuaScriptTests.java:138-160 | inserting at the entry's rank yields the old entries plus the new one, as a multiset |
| SortedSet.Add | gateleen-queue/src/test/java/org/swisspush/gateleen/queue/queuing/circuitbreaker/lua/UpdateQueueCircuitBreakerStatsLuaScriptTests.java:138-160 | after adding a request id with its timestamp, the set holds that entry and every old entry with another id, and nothing else; it grows by at most one |
| SortedSet.AddValid | gateleen-queue/src/test/java/org/swisspush/gateleen/queue/queuing/circuitbreaker/lua/UpdateQueueCircuitBreakerStatsLuaScriptTests.java:138-160 | adding keeps a set in rank order with each request id once |
| SortedSet.AddScores | gateleen-queue/src/test/java/org/swisspush/gateleen/queue/queuing/circuitbreaker/lua/UpdateQueueCircuitBreakerStatsLuaScriptTests.java:138-160 | after adding, the member-to-score view is the old view with the request id mapped to the new timestamp |
| SortedSet.AddSize | gateleen-queue/src/test/java/org/swisspush/gateleen/queue/queuing/circuitbreaker/lua/UpdateQueueCircuitBreakerStatsLuaScriptTests.java:138-160 | adding an id already present keeps the size; adding a new id grows it by one |
| SortedSet.AddNewest | gateleen-queue/src/test/java/org/swisspush/gateleen/queue/queuing/circuitbreaker/lua/UpdateQueueCircuitBreakerStatsLuaScriptTests.java:78-80 | an entry newer than every member and with a new id is appended at the end of the rank order |
| SortedSet.TrimToNewest | gateleen-queue/src/test/java/org/swisspush/gateleen/queue/queuing/circuitbreaker/lua/UpdateQueueCircuitBreakerStatsLuaScriptTests.java:81-91 | trimming to a cap leaves min(size, cap) members; `TrimKeepsNewest` shows that they are the top ranks |
| SortedSet.TrimKeepsNewest | gateleen-queue/src/test/java/org/swisspush/gateleen/queue/queuing/circuitbreaker/lua/UpdateQueueCircuitBreakerStatsLuaScriptTests.java:81-91 | trimming leaves min(size, cap) members and removes nothing while the set fits. It removes only a prefix of the rank order, so every removed member ranks below every survivor: it is older, or equally old with a smaller id |
| SortedSet.TrimAppend | gateleen-queue/src/test/java/org/swisspush/gateleen/queue/queuing/circuitbreaker/lua/UpdateQueueCircuitBreakerStatsLuaScriptTests.java:78-91 | trimming after each append gives the same set as appending everything and trimming once |
| SortedSet.InWindowCount | gateleen-queue/src/test/java/org/swisspush/gateleen/queue/queuing/circuitbreaker/lua/UpdateQueueCircuitBreakerStatsLuaScriptTests.java:108-119 | the window count never exceeds the set's size; `InWindowCountIsWindowSize` gives its exact value |
| SortedSet.InWindowCountExtremes | gateleen-queue/src/test/java/org/swisspush/gateleen/queue/queuing/circuitbreaker/lua/UpdateQueueCircuitBreakerStatsLuaScriptTests.java:108-119 | a set whose members are all at most the maximum age old counts in full; a set whose members are all older counts nothing |
| SortedSet.InWindowCountAppend | gateleen-queue/src/test/java/org/swisspush/gateleen/queue/queuing/circuitbreaker/lua/UpdateQueueCircuitBreakerStatsLuaScriptTests.java:108-119 | the window count of a set split in two is the sum of the two counts |
| SortedSet.InWindowCountIsWindowSize | gateleen-queue/src/test/java/org/swisspush/gateleen/queue/queuing/circuitbreaker/lua/UpdateQueueCircuitBreakerStatsLuaScriptTests.java:108-119 | the window count is the number of distinct request ids whose age is at most the maximum age, the boundary included |
| CircuitBreaker.FailRatio | gateleen-queue/src/test/java/org/swisspush/gateleen/queue/queuing/circuitbreaker/lua/UpdateQueueCircuitBreakerStatsLuaScriptTests.java:124-128 | the stored ratio is a percentage of at most 100, and 0 when the window is empty |
| CircuitBreaker.FailRatioIsFloor | gateleen-queue/src/test/java/org/swisspush/gateleen/queue/queuing/circuitbreaker/lua/UpdateQueueCircuitBreakerStatsLuaScriptTests.java:55-67 | over a non-empty window the ratio is 100 times the failures over the total, rounded down (3 of 7 gives 42, 7 of 11 gives 63) |
| CircuitBreaker.FailRatioExtremes | gateleen-queue/src/test/java/org/swisspush/gateleen/queue/queuing/circuitbreaker/lua/UpdateQueueCircuitBreakerStatsLuaScriptTests.java:100-111 | over a non-empty window the ratio is 100 exactly when nothing succeeded, and 0 exactly when failures are under one percent |
| CircuitBreaker.Record | gateleen-queue/src/test/java/org/swisspush/gateleen/queue/queuing/circuitbreaker/lua/UpdateQueueCircuitBreakerStatsLuaScriptTests.java:138-160 | one update: the info record exists with the given pattern; only the set named by the outcome changes; it becomes the newest `maxSampleCount` members after adding the sample; the ratio is the window ratio; a closed breaker opens exactly at the gate and threshold; otherwise the state is kept |
| CircuitBreaker.RecordPreservesValid | gateleen-queue/src/test/java/org/swisspush/gateleen/queue/queuing/circuitbreaker/lua/UpdateQueueCircuitBreakerStatsLuaScriptTests.java:138-160 | an update keeps both sets in rank order with each request id once |
| CircuitBreaker.RecordCalls | gateleen-queue/src/test/java/org/swisspush/gateleen/queue/queuing/circuitbreaker/lua/UpdateQueueCircuitBreakerStatsLuaScriptTests.java:31-66 | after a sequence of calls, each with its own configuration, an info record that existed still exists, and a last call in range leaves its pattern in it |
| CircuitBreaker.RecordAll | gateleen-queue/src/test/java/org/swisspush/gateleen/queue/queuing/circuitbreaker/lua/UpdateQueueCircuitBreakerStatsLuaScriptTests.java:78-80 | after at least one update under one configuration, the info record exists and holds the pattern of the last sample |
| CircuitBreaker.RecordAllIsRecordCalls | gateleen-queue/src/test/java/org/swisspush/gateleen/queue/queuing/circuitbreaker/lua/UpdateQueueCircuitBreakerStatsLuaScriptTests.java:137-159 | a run under one configuration is the sequence of calls that all pass that configuration, so every property of call sequences holds for it |
| CircuitBreaker.StateLatches | gateleen-queue/src/test/java/org/swisspush/gateleen/queue/queuing/circuitbreaker/lua/UpdateQueueCircuitBreakerStatsLuaScriptTests.java:50-67 | once the breaker is not closed, no sequence of calls changes its state, whatever configuration each call passes and whatever the ratio does |
| CircuitBreaker.OnlyClosedToOpen | gateleen-queue/src/test/java/org/swisspush/gateleen/queue/queuing/circuitbreaker/lua/UpdateQueueCircuitBreakerStatsLuaScriptTests.java:104-119 | over any sequence of calls, each with its own configuration, the only state change is from closed to open |
| CircuitBreaker.SetsStayBounded | gateleen-queue/src/test/java/org/swisspush/gateleen/queue/queuing/circuitbreaker/lua/UpdateQueueCircuitBreakerStatsLuaScriptTests.java:77-81 | after any sequence of calls whose `maxSampleCount` never exceeds a bound, both sets stay well formed and within that bound |
| CircuitBreaker.OtherSetUntouched | gateleen-queue/src/test/java/org/swisspush/gateleen/queue/queuing/circuitbreaker/lua/UpdateQueueCircuitBreakerStatsLuaScriptTests.java:31-39 | calls of one outcome never change the other outcome's set, whatever their configurations, so the success set does not exist before the first success |
| CircuitBreaker.RecordDeletesNothingBelowCap | gateleen-queue/src/test/java/org/swisspush/gateleen/queue/queuing/circuitbreaker/lua/UpdateQueueCircuitBreakerStatsLuaScriptTests.java:108-119 | age is a read-time filter only: below the cap, an update removes no member however old; the new scores are the old ones with the request's timestamp set |
| CircuitBreaker.RecordSameIdKeepsSize | gateleen-queue/src/test/java/org/swisspush/gateleen/queue/queuing/circuitbreaker/lua/UpdateQueueCircuitBreakerStatsLuaScriptTests.java:150-152 | while the set fits the call's cap, reporting a request id already in the set replaces its timestamp and keeps the set's size |
| CircuitBreaker.RecordEvictsOldest | gateleen-queue/src/test/java/org/swisspush/gateleen/queue/queuing/circuitbreaker/lua/UpdateQueueCircuitBreakerStatsLuaScriptTests.java:83-91 | the written set keeps min(size, cap) members, and every member evicted ranks below every survivor |
| CircuitBreaker.GateNotMet | gateleen-queue/src/test/java/org/swisspush/gateleen/queue/queuing/circuitbreaker/lua/UpdateQueueCircuitBreakerStatsLuaScriptTests.java:31-40 | one update of a closed breaker whose sets, plus the new sample, hold fewer members than `minSampleCount` leaves it closed and grows the sets by at most one member |
| CircuitBreaker.ClosedBelowMinSamples | gateleen-queue/src/test/java/org/swisspush/gateleen/queue/queuing/circuitbreaker/lua/UpdateQueueCircuitBreakerStatsLuaScriptTests.java:31-40 | a closed breaker stays closed, whatever the ratio, while at every call the stored members plus the samples so far number fewer than that call's `minSampleCount` |
| CircuitBreaker.FreshSetsAreNewest | gateleen-queue/src/test/java/org/swisspush/gateleen/queue/queuing/circuitbreaker/lua/UpdateQueueCircuitBreakerStatsLuaScriptTests.java:73-91 | after a fresh sequence from empty sets, each set is the newest `maxSampleCount` of the entries written to it |
| CircuitBreaker.NewestRequestsRemain | gateleen-queue/src/test/java/org/swisspush/gateleen/queue/queuing/circuitbreaker/lua/UpdateQueueCircuitBreakerStatsLuaScriptTests.java:83-91 | after a fresh sequence of at least `maxSampleCount` samples of one outcome, the set holds exactly `maxSampleCount` members: a request id is present exactly when its sample is among the last `maxSampleCount` |
| CircuitBreaker.FreshUpdate | gateleen-queue/src/test/java/org/swisspush/gateleen/queue/queuing/circuitbreaker/lua/UpdateQueueCircuitBreakerStatsLuaScriptTests.java:124-128 | at the k-th update of a fresh sequence: the sets are the newest written entries; the ratio is the window ratio at the k-th timestamp; the pattern is the k-th sample's; a closed breaker opens exactly when the gate and threshold are met there |
| CircuitBreaker.OpenedWithinGrows | gateleen-queue/src/test/java/org/swisspush/gateleen/queue/queuing/circuitbreaker/lua/UpdateQueueCircuitBreakerStatsLuaScriptTests.java:50-67 | once one update has met the gate and threshold, every longer prefix has too |
| CircuitBreaker.FreshState | gateleen-queue/src/test/java/org/swisspush/gateleen/queue/queuing/circuitbreaker/lua/UpdateQueueCircuitBreakerStatsLuaScriptTests.java:42-67 | a breaker that starts closed is open after the first k updates of a fresh sequence exactly when one of them met the gate and threshold, and closed otherwise |
| CircuitBreaker.CircuitStore.constructor | gateleen-queue/src/test/java/org/swisspush/gateleen/queue/queuing/circuitbreaker/lua/UpdateQueueCircuitBreakerStatsLuaScriptTests.java:24-26 | a new breaker has no info record, no sets and is closed |
| CircuitBreaker.CircuitStore.RecordOutcome | gateleen-queue/src/test/java/org/swisspush/gateleen/queue/queuing/circuitbreaker/lua/UpdateQueueCircuitBreakerStatsLuaScriptTests.java:138-160 | updates the fields in place so that the store equals `Record` of the old store; a configuration out of range is refused with `InvalidConfiguration` and changes nothing |
| CircuitBreaker.CircuitStore.RecordEach | gateleen-queue/src/test/java/org/swisspush/gateleen/queue/queuing/circuitbreaker/lua/UpdateQueueCircuitBreakerStatsLuaScriptTests.java:78-80 | a loop of calls, each with its own configuration, leaves the store equal to `RecordCalls` of the calls, in order; it reports each call as recorded or refused for its configuration |
| Scenarios.ErrorPercentageRunHasShape | gateleen-queue/src/test/java/org/swisspush/gateleen/queue/queuing/circuitbreaker/lua/UpdateQueueCircuitBreakerStatsLuaScriptTests.java:31-66 | the test's eleven calls (three failures, four successes, four failures at times 0 to 10) are a fresh run of the scenario's shape |
| Scenarios.ErrorPercentageAfter1 | gateleen-queue/src/test/java/org/swisspush/gateleen/queue/queuing/circuitbreaker/lua/UpdateQueueCircuitBreakerStatsLuaScriptTests.java:32 | an intermediate checkpoint derived by the model, not asserted by the test: after one failure, closed with ratio 100 |
| Scenarios.ErrorPercentageAfter2 | gateleen-queue/src/test/java/org/swisspush/gateleen/queue/queuing/circuitbreaker/lua/UpdateQueueCircuitBreakerStatsLuaScriptTests.java:33 | an intermediate checkpoint derived by the model, not asserted by the test: after two failures, closed with ratio 100 |
| Scenarios.ErrorPercentageAfter3 | gateleen-queue/src/test/java/org/swisspush/gateleen/queue/queuing/circuitbreaker/lua/UpdateQueueCircuitBreakerStatsLuaScriptTests.java:31-40 | after three failures the info record and the failure set exist, the success set does not, and the breaker is closed at 100 because fewer than four samples are in the window |
| Scenarios.ErrorPercentageAfter4 | gateleen-queue/src/test/java/org/swisspush/gateleen/queue/queuing/circuitbreaker/lua/UpdateQueueCircuitBreakerStatsLuaScriptTests.java:42-48 | the first success makes four samples: both sets exist and the breaker opens at 75 |
| Scenarios.ErrorPercentageAfter5 | gateleen-queue/src/test/java/org/swisspush/gateleen/queue/queuing/circuitbreaker/lua/UpdateQueueCircuitBreakerStatsLuaScriptTests.java:51 | an intermediate checkpoint derived by the model, not asserted by the test: open, ratio 60 |
| Scenarios.ErrorPercentageAfter6 | gateleen-queue/src/test/java/org/swisspush/gateleen/queue/queuing/circuitbreaker/lua/UpdateQueueCircuitBreakerStatsLuaScriptTests.java:50-53 | open, ratio 50 |
| Scenarios.ErrorPercentageAfter7 | gateleen-queue/src/test/java/org/swisspush/gateleen/queue/queuing/circuitbreaker/lua/UpdateQueueCircuitBreakerStatsLuaScriptTests.java:55-57 | open, ratio 42 (3 of 7, rounded down), below the threshold yet still open |
| Scenarios.ErrorPercentageAfter8 | gateleen-queue/src/test/java/org/swisspush/gateleen/queue/queuing/circuitbreaker/lua/UpdateQueueCircuitBreakerStatsLuaScriptTests.java:59-61 | open, ratio 50 |
| Scenarios.ErrorPercentageAfter9 | gateleen-queue/src/test/java/org/swisspush/gateleen/queue/queuing/circuitbreaker/lua/UpdateQueueCircuitBreakerStatsLuaScriptTests.java:64 | an intermediate checkpoint derived by the model, not asserted by the test: open, ratio 55 |
| Scenarios.ErrorPercentageAfter10 | gateleen-queue/src/test/java/org/swisspush/gateleen/queue/queuing/circuitbreaker/lua/UpdateQueueCircuitBreakerStatsLuaScriptTests.java:65 | an intermediate checkpoint derived by the model, not asserted by the test: open, ratio 60 |
| Scenarios.ErrorPercentageAfter11 | gateleen-queue/src/test/java/org/swisspush/gateleen/queue/queuing/circuitbreaker/lua/UpdateQueueCircuitBreakerStatsLuaScriptTests.java:63-69 | after the whole run: open, ratio 63 (7 of 11, rounded down; the sample exactly ten units old still counts), pattern "url_pattern" |
| Scenarios.MaxSetSizeRunHasShape | gateleen-queue/src/test/java/org/swisspush/gateleen/queue/queuing/circuitbreaker/lua/UpdateQueueCircuitBreakerStatsLuaScriptTests.java:78-80 | the test's loop of twenty successes req_1 to req_20 is a fresh run of one outcome |
| Scenarios.DontExceedMaxSetSize | gateleen-queue/src/test/java/org/swisspush/gateleen/queue/queuing/circuitbreaker/lua/UpdateQueueCircuitBreakerStatsLuaScriptTests.java:73-93 | after twenty successes under a cap of ten, the success set has ten members: none of the first ten requests, all of the last ten; the pattern is stored |
| Scenarios.AgeRangeRunHasShape | gateleen-queue/src/test/java/org/swisspush/gateleen/queue/queuing/circuitbreaker/lua/UpdateQueueCircuitBreakerStatsLuaScriptTests.java:100-118 | the test's ten calls (two successes, four failures, four successes at times 1 to 10) are a fresh run of the scenario's shape |
| Scenarios.AgeRangeAfter1 | gateleen-queue/src/test/java/org/swisspush/gateleen/queue/queuing/circuitbreaker/lua/UpdateQueueCircuitBreakerStatsLuaScriptTests.java:100-101 | closed, ratio 0 |
| Scenarios.AgeRangeAfter2 | gateleen-queue/src/test/java/org/swisspush/gateleen/queue/queuing/circuitbreaker/lua/UpdateQueueCircuitBreakerStatsLuaScriptTests.java:102-103 | closed, ratio 0 |
| Scenarios.AgeRangeAfter3 | gateleen-queue/src/test/java/org/swisspush/gateleen/queue/queuing/circuitbreaker/lua/UpdateQueueCircuitBreakerStatsLuaScriptTests.java:104-105 | closed, ratio 33: enough samples but below the threshold |
| Scenarios.AgeRangeAfter4 | gateleen-queue/src/test/java/org/swisspush/gateleen/queue/queuing/circuitbreaker/lua/UpdateQueueCircuitBreakerStatsLuaScriptTests.java:106-107 | opens at ratio 50: the threshold comparison is inclusive |
| Scenarios.AgeRangeAfter5 | gateleen-queue/src/test/java/org/swisspush/gateleen/queue/queuing/circuitbreaker/lua/UpdateQueueCircuitBreakerStatsLuaScriptTests.java:108-109 | open, ratio 75: req_1, four units old, has left the window |
| Scenarios.AgeRangeAfter6 | gateleen-queue/src/test/java/org/swisspush/gateleen/queue/queuing/circuitbreaker/lua/UpdateQueueCircuitBreakerStatsLuaScriptTests.java:110-111 | open, ratio 100 |
| Scenarios.AgeRangeAfter7 | gateleen-queue/src/test/java/org/swisspush/gateleen/queue/queuing/circuitbreaker/lua/UpdateQueueCircuitBreakerStatsLuaScriptTests.java:112-113 | open, ratio 75 |
| Scenarios.AgeRangeAfter8 | gateleen-queue/src/test/java/org/swisspush/gateleen/queue/queuing/circuitbreaker/lua/UpdateQueueCircuitBreakerStatsLuaScriptTests.java:114-115 | open, ratio 50 |
| Scenarios.AgeRangeAfter9 | gateleen-queue/src/test/java/org/swisspush/gateleen/queue/queuing/circuitbreaker/lua/UpdateQueueCircuitBreakerStatsLuaScriptTests.java:116-117 | open, ratio 25 |
| Scenarios.AgeRangeAfter10 | gateleen-queue/src/test/java/org/swisspush/gateleen/queue/queuing/circuitbreaker/lua/UpdateQueueCircuitBreakerStatsLuaScriptTests.java:118-121 | open, ratio 0, pattern "url_pattern": the breaker stays open with no failure in the window |

Each `…After` lemma also states the sizes of both sets, that the info record
exists and that the pattern is "url_pattern". The test reads back set
existence, state, ratio and pattern; the contents of both sets after a fresh
run are stated once, for every run, by `CircuitBreaker.FreshSetsAreNewest`.

## Left out

- The store and its client: sets, hashes, key names ("q:infos" and the
  others), script loading and evaluation, and the reads of the assertions.
  A breaker's keys are the fields of one `Store` value or `CircuitStore`
  object.
- Conversion of numbers to and from strings, for script arguments and for
  hash fields.
- Atomicity under concurrent callers, and the store being unavailable.
  `RecordOutcome` is one indivisible method, and a failure of the store is
  not modelled.
- The half-open and reset transitions. They belong to another component.
  `HalfOpen` exists in `State` only so that latching can be stated for every
  state other than closed. The comments at lines 55 and 59 of the test speak
  of "half_open", but the test's assertions keep the state "open". The model
  follows the assertions.
- Floating-point arithmetic in the script. The ratio is the exact integer
  floor of 100 times the failures over the total. The test's values (42, 63,
  33) rule out rounding to nearest or up, but not the error of a quotient
  computed in doubles. If the script computes `floor(fails / total * 100)`
  in doubles, a whole-number result can land just below it. For example, 29
  failures out of 100 give 28.999999999999996, which is stored as 28, where
  the model stores 29. A cap of 100 makes such inputs reachable.
- Ids as bytes. Ties in score are broken by comparing ids character by
  character, as Unicode scalar values, whereas the store compares the bytes
  of their UTF-8 encoding. UTF-8 preserves code-point order, so the two
  orders agree on every id the model can express. Byte strings that are not
  valid UTF-8 are not modelled.
- SortedSet.TrimToNewest: its own contract gives only the size of the
  result. That the result is the top ranks is proved separately, in
  `TrimKeepsNewest`, because a suffix clause on the function made the
  scenario proofs too costly.
- SortedSet.InWindowCount: its own contract only bounds the count by the
  set's size. The exact value is proved separately, in
  `InWindowCountIsWindowSize` and `InWindowCountExtremes`, because
  quantified clauses on the function made every update proof too costly.
- The upper end of the window. A member counts when its age at the update's
  timestamp is at most `entriesMaxAgeMS`, so a member scored after that
  timestamp also counts. No scenario reports samples out of order.
- The configuration ranges are the model's choice: `maxSampleCount >= 1`,
  `entriesMaxAgeMS >= 0`, `errorThresholdPercentage` in 0..100 and
  `minSampleCount >= 0`. Other values are refused with `InvalidConfiguration`.
  The test only ever passes values in these ranges.
- Whether the pattern is set once or overwritten. The model overwrites it on
  every call. Every call of the test passes "url_pattern", so setting it
  once and overwriting it read back the same value, and the test cannot
  tell the two apart.
- Request ids in the scenarios. Each scenario lemma holds for every run of
  its shape, with any distinct ids. The test's literal runs are shown to be
  such runs, not replayed literally.
- Scores as doubles. The store keeps sorted-set scores as double-precision
  floats, so timestamps above 2^53 lose precision and can tie. `Entry.ts` is
  an exact integer. This makes no difference for millisecond timestamps.
- The fresh-run properties (`FreshSetsAreNewest`, `NewestRequestsRemain`,
  `FreshUpdate`, `OpenedWithinGrows`, `FreshState`) and the scenarios are
  stated for runs under one configuration (`RecordAll`), as in the test.
  The properties of call sequences (`StateLatches`, `OnlyClosedToOpen`,
  `SetsStayBounded`, `OtherSetUntouched`, `ClosedBelowMinSamples`,
  `CircuitStore.RecordEach`) allow a different configuration on every call.
