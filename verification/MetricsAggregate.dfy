/** The metrics of one model: what its records and artifacts add up to, and how that is
    merged into the entry published before. */
module MetricsAggregate {
  import opened Options
  import opened LedgerRecords
  import opened BenchmarkMetrics
  import opened Averages
  import JobHistory

  /** GeneratedModelBenchmarkMetrics; a field that is left out is None. */
  datatype Metrics = Metrics(
    expectedBuildCount: Option<int>,
    finalizedBuildCount: Option<int>,
    averageJsonSizeBytes: Option<int>,
    promptCohortId: Option<string>,
    cohort: CohortMeasurements,
    counters: Counters,
    providerCallTrackingJobCount: Option<int>,
    completedAttemptTrackingJobCount: Option<int>)

  /** COHORT_MEASUREMENT_FIELDS, refreshed as a set. */
  datatype CohortMeasurements = CohortMeasurements(
    inferenceSampleCount: Option<int>,
    configurationSampleCount: Option<int>,
    configurationIsConsistent: Option<bool>,
    outputCapSampleCount: Option<int>,
    outputCapIsConsistent: Option<bool>,
    averageInferenceMs: Option<int>,
    finalizedAttemptCount: Option<int>,
    outputCapTokens: Option<int>)

  const NO_COHORT := CohortMeasurements(None, None, None, None, None, None, None, None)
  const NO_METRICS := Metrics(None, None, None, None, NO_COHORT, NO_COUNTERS, None, None)

  // ----- counters -----

  function Tracked(r: Option<Record>, counter: Counters -> Option<int>): Option<int> {
    if r.Some? && counter(r.value.counters).Some? && counter(r.value.counters).value >= 0
    then counter(r.value.counters) else None
  }

  function TrackingJobCount(records: seq<Option<Record>>, counter: Counters -> Option<int>): nat {
    if records == [] then 0
    else
      var last := if Tracked(records[|records| - 1], counter).Some? then 1 else 0;
      TrackingJobCount(records[..|records| - 1], counter) + last
  }

  function Sum(records: seq<Option<Record>>, counter: Counters -> Option<int>): int {
    if records == [] then 0
    else Sum(records[..|records| - 1], counter) + OrZero(Tracked(records[|records| - 1], counter))
  }

  function Total(records: seq<Option<Record>>, expected: int, counter: Counters -> Option<int>): Option<int> {
    if |records| == expected && TrackingJobCount(records, counter) == expected
    then Some(Sum(records, counter)) else None
  }

  function SumTrackedCounters(records: seq<Option<Record>>, expected: int): Counters {
    Counters(
      Total(records, expected, (c: Counters) => c.providerCallCount),
      Total(records, expected, (c: Counters) => c.completedAttemptCount),
      Total(records, expected, (c: Counters) => c.rejectedResponseCount),
      Total(records, expected, (c: Counters) => c.failedAttemptCount),
      Total(records, expected, (c: Counters) => c.failedRunCount),
      Total(records, expected, (c: Counters) => c.interruptedRunCount))
  }

  lemma {:induction false} TrackingIsComplete(records: seq<Option<Record>>, counter: Counters -> Option<int>)
    ensures TrackingJobCount(records, counter) <= |records|
    ensures TrackingJobCount(records, counter) == |records|
      <==> forall k | 0 <= k < |records| :: Tracked(records[k], counter).Some?
    decreases |records|
  {
    if records != [] {
      TrackingIsComplete(records[..|records| - 1], counter);
    }
  }

  /** The sum of an event count over the histories of a cohort. */
  function Events(histories: seq<seq<Op>>, count: seq<Op> -> int): int {
    if histories == [] then 0
    else Events(histories[..|histories| - 1], count) + count(histories[|histories| - 1])
  }

  lemma {:induction false} SumIsEvents(records: seq<Option<Record>>, histories: seq<seq<Op>>,
                                       counter: Counters -> Option<int>, count: seq<Op> -> int)
    requires |records| == |histories|
    requires forall k | 0 <= k < |records| ::
      Tracked(records[k], counter).Some? && Tracked(records[k], counter).value == count(histories[k])
    ensures Sum(records, counter) == Events(histories, count)
    decreases |records|
  {
    if records != [] {
      SumIsEvents(records[..|records| - 1], histories[..|histories| - 1], counter, count);
    }
  }

  ghost predicate AllTrack(records: seq<Option<Record>>, counter: Counters -> Option<int>) {
    forall k | 0 <= k < |records| :: Tracked(records[k], counter).Some?
  }

  /** A total is published exactly when every job tracks the counter, and is then the number of
      events in the whole history of every job. */
  ghost predicate IsExactTotal(total: Option<int>, histories: seq<seq<Op>>, counter: Counters -> Option<int>,
                               count: seq<Op> -> int)
  {
    && (total.Some? <==> AllTrack(Records(histories), counter))
    && (total.Some? ==> total.value == Events(histories, count))
  }

  function Records(histories: seq<seq<Op>>): seq<Option<Record>> {
    seq(|histories|, k requires 0 <= k < |histories| => After(histories[k]))
  }

  /** Main result: all six cohort totals are exact. */
  lemma {:induction false} CohortTotalsAreExact(histories: seq<seq<Op>>)
    ensures
      var totals := SumTrackedCounters(Records(histories), |histories|);
      && IsExactTotal(totals.providerCallCount, histories, (c: Counters) => c.providerCallCount,
                      (h: seq<Op>) => JobHistory.Tallied(h).calls)
      && IsExactTotal(totals.completedAttemptCount, histories, (c: Counters) => c.completedAttemptCount,
                      (h: seq<Op>) => |JobHistory.Tallied(h).responses|)
      && IsExactTotal(totals.rejectedResponseCount, histories, (c: Counters) => c.rejectedResponseCount,
                      (h: seq<Op>) => |JobHistory.Tallied(h).rejections|)
      && IsExactTotal(totals.failedAttemptCount, histories, (c: Counters) => c.failedAttemptCount,
                      (h: seq<Op>) => JobHistory.Lost(h).failedAttempts)
      && IsExactTotal(totals.failedRunCount, histories, (c: Counters) => c.failedRunCount,
                      (h: seq<Op>) => JobHistory.Lost(h).failedRuns)
      && IsExactTotal(totals.interruptedRunCount, histories, (c: Counters) => c.interruptedRunCount,
                      (h: seq<Op>) => JobHistory.Lost(h).interruptedRuns)
  {
    ResponseTotals(histories);
    LossTotals(histories);
  }

  lemma {:induction false} ResponseTotals(histories: seq<seq<Op>>)
    ensures
      var totals := SumTrackedCounters(Records(histories), |histories|);
      && IsExactTotal(totals.providerCallCount, histories, (c: Counters) => c.providerCallCount,
                      (h: seq<Op>) => JobHistory.Tallied(h).calls)
      && IsExactTotal(totals.completedAttemptCount, histories, (c: Counters) => c.completedAttemptCount,
                      (h: seq<Op>) => |JobHistory.Tallied(h).responses|)
      && IsExactTotal(totals.rejectedResponseCount, histories, (c: Counters) => c.rejectedResponseCount,
                      (h: seq<Op>) => |JobHistory.Tallied(h).rejections|)
  {
    forall k | 0 <= k < |histories| ensures JobHistory.Faithful(After(histories[k]), JobHistory.Tallied(histories[k])) {
      JobHistory.CountersAreExact(histories[k]);
    }
    TotalIsExact(histories, (c: Counters) => c.providerCallCount, (h: seq<Op>) => JobHistory.Tallied(h).calls);
    TotalIsExact(histories, (c: Counters) => c.completedAttemptCount, (h: seq<Op>) => |JobHistory.Tallied(h).responses|);
    TotalIsExact(histories, (c: Counters) => c.rejectedResponseCount, (h: seq<Op>) => |JobHistory.Tallied(h).rejections|);
  }

  lemma {:induction false} LossTotals(histories: seq<seq<Op>>)
    ensures
      var totals := SumTrackedCounters(Records(histories), |histories|);
      && IsExactTotal(totals.failedAttemptCount, histories, (c: Counters) => c.failedAttemptCount,
                      (h: seq<Op>) => JobHistory.Lost(h).failedAttempts)
      && IsExactTotal(totals.failedRunCount, histories, (c: Counters) => c.failedRunCount,
                      (h: seq<Op>) => JobHistory.Lost(h).failedRuns)
      && IsExactTotal(totals.interruptedRunCount, histories, (c: Counters) => c.interruptedRunCount,
                      (h: seq<Op>) => JobHistory.Lost(h).interruptedRuns)
  {
    forall k | 0 <= k < |histories| ensures JobHistory.LossesAre(After(histories[k]), JobHistory.Lost(histories[k])) {
      JobHistory.LossesAreExact(histories[k]);
    }
    TotalIsExact(histories, (c: Counters) => c.failedAttemptCount, (h: seq<Op>) => JobHistory.Lost(h).failedAttempts);
    TotalIsExact(histories, (c: Counters) => c.failedRunCount, (h: seq<Op>) => JobHistory.Lost(h).failedRuns);
    TotalIsExact(histories, (c: Counters) => c.interruptedRunCount, (h: seq<Op>) => JobHistory.Lost(h).interruptedRuns);
  }

  lemma {:induction false} TotalIsExact(histories: seq<seq<Op>>, counter: Counters -> Option<int>, count: seq<Op> -> int)
    requires forall k | 0 <= k < |histories| && Tracked(After(histories[k]), counter).Some? ::
      Tracked(After(histories[k]), counter).value == count(histories[k])
    ensures IsExactTotal(Total(Records(histories), |histories|, counter), histories, counter, count)
  {
    var records := Records(histories);
    TrackingIsComplete(records, counter);
    if TrackingJobCount(records, counter) == |records| {
      SumIsEvents(records, histories, counter, count);
    }
  }

  // ----- samples -----

  /** The record's sample, when it is valid and of the artifact on disk. */
  function TimedSample(r: Option<Record>, artifact: Option<Artifact>): Option<Sample> {
    if artifact.Some? && r.Some? && r.value.sample.Some? && IsSample(r.value.sample.value)
       && r.value.sample.value.artifactSha256 == artifact.value.hash
    then r.value.sample else None
  }

  predicate PromptMatches(configuration: Option<Configuration>, job: Job, tools: Tools) {
    && configuration.Some? && IsConfiguration(configuration.value)
    && job.promptText.Some? && configuration.value.promptSha256 == tools.hash(job.promptText.value)
  }

  predicate ConfigurationMatches(configuration: Option<Configuration>, job: Job, tools: Tools) {
    && PromptMatches(configuration, job, tools)
    && configuration.value.requestConfigurationVersion.Some?
    && configuration.value.requestConfiguration.Some?
  }

  /** What the loop over the artifacts gathers. */
  datatype Gathered = Gathered(
    bytes: seq<int>,                // of the artifacts that parse
    timing: seq<Sample>,
    promptProvenanceCount: nat,
    configured: seq<Sample>,
    outputCaps: seq<int>)

  const EMPTY := Gathered([], [], 0, [], [])

  function GatherOne(g: Gathered, job: Job, r: Option<Record>, artifact: Option<Artifact>, tools: Tools): Gathered {
    var g1 := if artifact.Some? then g.(bytes := g.bytes + [artifact.value.bytes]) else g;
    var sample := TimedSample(r, artifact);
    if sample.None? then g1
    else
      var configuration := sample.value.configuration;
      var g2 := g1.(timing := g1.timing + [sample.value],
                    promptProvenanceCount :=
                      g1.promptProvenanceCount + if PromptMatches(configuration, job, tools) then 1 else 0);
      if !ConfigurationMatches(configuration, job, tools) then g2
      else
        g2.(configured := g2.configured + [sample.value],
            outputCaps := g2.outputCaps + match sample.value.acceptedOutputTokens case Some(t) => [t] case None => [])
  }

  function Gather(jobs: seq<Job>, records: seq<Option<Record>>, artifacts: seq<Option<Artifact>>, tools: Tools): Gathered
    requires |jobs| == |records| == |artifacts|
  {
    if jobs == [] then EMPTY
    else
      var n := |jobs| - 1;
      GatherOne(Gather(jobs[..n], records[..n], artifacts[..n], tools), jobs[n], records[n], artifacts[n], tools)
  }

  method GatherSamples(jobs: seq<Job>, records: seq<Option<Record>>, artifacts: seq<Option<Artifact>>, tools: Tools)
    returns (g: Gathered)
    requires |jobs| == |records| == |artifacts|
    ensures g == Gather(jobs, records, artifacts, tools)
  {
    var bytes, timing, provenance, configured, outputCaps := [], [], 0, [], [];
    for k := 0 to |jobs|
      invariant Gathered(bytes, timing, provenance, configured, outputCaps)
             == Gather(jobs[..k], records[..k], artifacts[..k], tools)
    {
      assert jobs[..k + 1][..k] == jobs[..k] && records[..k + 1][..k] == records[..k]
          && artifacts[..k + 1][..k] == artifacts[..k];
      if artifacts[k].Some? {
        bytes := bytes + [artifacts[k].value.bytes];
        var sample := TimedSample(records[k], artifacts[k]);
        if sample.Some? {
          timing := timing + [sample.value];
          if PromptMatches(sample.value.configuration, jobs[k], tools) {
            provenance := provenance + 1;
          }
          if ConfigurationMatches(sample.value.configuration, jobs[k], tools) {
            configured := configured + [sample.value];
            if sample.value.acceptedOutputTokens.Some? {
              outputCaps := outputCaps + [sample.value.acceptedOutputTokens.value];
            }
          }
        }
      }
    }
    assert jobs[..|jobs|] == jobs && records[..|jobs|] == records && artifacts[..|jobs|] == artifacts;
    g := Gathered(bytes, timing, provenance, configured, outputCaps);
  }

  // ----- metrics -----

  function ConfigurationKey(sample: Sample): (bool, Option<string>, bool)
    requires sample.configuration.Some?
  {
    var c := sample.configuration.value;
    (c.directRoute, if c.requestConfiguration.Some? then c.requestConfiguration else c.reasoningOverride, c.toolsEnabled)
  }

  predicate SameConfiguration(samples: seq<Sample>) {
    && (forall k | 0 <= k < |samples| :: samples[k].configuration.Some?)
    && (forall k | 0 <= k < |samples| :: ConfigurationKey(samples[k]) == ConfigurationKey(samples[0]))
  }

  predicate AllEqual(values: seq<int>) {
    forall k | 0 <= k < |values| :: values[k] == values[0]
  }

  function Times(samples: seq<Sample>): seq<int> {
    seq(|samples|, k requires 0 <= k < |samples| => samples[k].inferenceTimeMs)
  }

  function Attempts(samples: seq<Sample>): seq<int> {
    seq(|samples|, k requires 0 <= k < |samples| => samples[k].attemptCount)
  }

  function MeasuredCohort(g: Gathered, expected: int): CohortMeasurements {
    var capIsConsistent := |g.outputCaps| == expected && expected > 0 && AllEqual(g.outputCaps);
    var isConsistent := |g.configured| == expected && expected > 0 && SameConfiguration(g.configured) && capIsConsistent;
    CohortMeasurements(
      Some(|g.timing|),
      Some(|g.configured|),
      Some(isConsistent),
      Some(|g.outputCaps|),
      Some(capIsConsistent),
      if isConsistent then Average(Times(g.configured)) else None,
      if isConsistent then Some(SumOf(Attempts(g.configured))) else None,
      if capIsConsistent then Some(g.outputCaps[0]) else None)
  }

  /** Every artifact of the cohort is there and parses. */
  predicate IsComplete(artifacts: seq<Option<Artifact>>) {
    artifacts != [] && forall k | 0 <= k < |artifacts| :: artifacts[k].Some?
  }

  function OrElse<T>(a: Option<T>, b: Option<T>): Option<T> {
    if a.Some? then a else b
  }

  /** pickDefined over the cumulative counters: the ones that are defined win. */
  function OverrideCounters(previous: Counters, totals: Counters): Counters {
    Counters(
      OrElse(totals.providerCallCount, previous.providerCallCount),
      OrElse(totals.completedAttemptCount, previous.completedAttemptCount),
      OrElse(totals.rejectedResponseCount, previous.rejectedResponseCount),
      OrElse(totals.failedAttemptCount, previous.failedAttemptCount),
      OrElse(totals.failedRunCount, previous.failedRunCount),
      OrElse(totals.interruptedRunCount, previous.interruptedRunCount))
  }

  /** The entry refreshGeneratedMetrics publishes over `previous` for a complete cohort. */
  function NextMetrics(previous: Option<Metrics>, jobs: seq<Job>, records: seq<Option<Record>>,
                       artifacts: seq<Option<Artifact>>, cohortId: string, tools: Tools): Metrics
    requires |jobs| == |records| == |artifacts|
  {
    var expected := |jobs|;
    var g := Gather(jobs, records, artifacts, tools);
    var measured := MeasuredCohort(g, expected);
    var totals := SumTrackedCounters(records, expected);
    var base := if previous.Some? then previous.value else NO_METRICS;
    var completeProvenance := |g.configured| == expected && expected > 0 && |g.outputCaps| == expected;
    Metrics(
      Some(expected),
      Some(|g.bytes|),
      Average(g.bytes),
      if g.promptProvenanceCount == expected && expected > 0 then Some(cohortId) else base.promptCohortId,
      if completeProvenance then measured
      else base.cohort.(inferenceSampleCount :=
             OrElse(base.cohort.inferenceSampleCount, measured.inferenceSampleCount)),
      OverrideCounters(base.counters, totals),
      if totals.providerCallCount.Some? then Some(TrackingJobCount(records, (c: Counters) => c.providerCallCount))
      else base.providerCallTrackingJobCount,
      if totals.completedAttemptCount.Some? then Some(TrackingJobCount(records, (c: Counters) => c.completedAttemptCount))
      else base.completedAttemptTrackingJobCount)
  }

  /** The published entry is what publishing these records and artifacts leaves. */
  predicate Holds(published: Option<Metrics>, jobs: seq<Job>, records: seq<Option<Record>>,
                  artifacts: seq<Option<Artifact>>, cohortId: string, tools: Tools)
    requires |jobs| == |records| == |artifacts|
  {
    published == Some(NextMetrics(published, jobs, records, artifacts, cohortId, tools))
  }

  /** Publishing twice is publishing once. */
  lemma {:induction false} PublishedHolds(previous: Option<Metrics>, jobs: seq<Job>, records: seq<Option<Record>>,
                       artifacts: seq<Option<Artifact>>, cohortId: string, tools: Tools)
    requires |jobs| == |records| == |artifacts|
    ensures Holds(Some(NextMetrics(previous, jobs, records, artifacts, cohortId, tools)),
                  jobs, records, artifacts, cohortId, tools)
  {
  }

  lemma {:induction false} GatherCounts(jobs: seq<Job>, records: seq<Option<Record>>, artifacts: seq<Option<Artifact>>, tools: Tools)
    requires |jobs| == |records| == |artifacts|
    ensures
      var g := Gather(jobs, records, artifacts, tools);
      && |g.bytes| <= |jobs|
      && (|g.bytes| == |jobs| <==> forall k | 0 <= k < |artifacts| :: artifacts[k].Some?)
      && (|g.bytes| == |jobs| ==> forall k | 0 <= k < |jobs| :: g.bytes[k] == artifacts[k].value.bytes)
    decreases |jobs|
  {
    if jobs != [] {
      var n := |jobs| - 1;
      GatherCounts(jobs[..n], records[..n], artifacts[..n], tools);
    }
  }

  // ----- the entry in two parts -----

  /** All but the counters: what depends on the samples and on the artifacts. */
  predicate HoldsApart(published: Option<Metrics>, jobs: seq<Job>, records: seq<Option<Record>>,
                       artifacts: seq<Option<Artifact>>, cohortId: string, tools: Tools)
    requires |jobs| == |records| == |artifacts|
  {
    && published.Some?
    && var next := NextMetrics(published, jobs, records, artifacts, cohortId, tools);
       published.value == next.(counters := published.value.counters,
                                providerCallTrackingJobCount := published.value.providerCallTrackingJobCount,
                                completedAttemptTrackingJobCount := published.value.completedAttemptTrackingJobCount)
  }

  /** A total that the records add up to is the one that is published. */
  predicate IsPublished(total: Option<int>, published: Option<int>) {
    total.Some? ==> published == total
  }

  /** The counters: every total that all records add up to is published, with its coverage. */
  predicate CountersHold(published: Option<Metrics>, records: seq<Option<Record>>) {
    && published.Some?
    && var totals, counters := SumTrackedCounters(records, |records|), published.value.counters;
       && IsPublished(totals.providerCallCount, counters.providerCallCount)
       && IsPublished(totals.completedAttemptCount, counters.completedAttemptCount)
       && IsPublished(totals.rejectedResponseCount, counters.rejectedResponseCount)
       && IsPublished(totals.failedAttemptCount, counters.failedAttemptCount)
       && IsPublished(totals.failedRunCount, counters.failedRunCount)
       && IsPublished(totals.interruptedRunCount, counters.interruptedRunCount)
       && (totals.providerCallCount.Some? ==> published.value.providerCallTrackingJobCount == Some(|records|))
       && (totals.completedAttemptCount.Some? ==> published.value.completedAttemptTrackingJobCount == Some(|records|))
  }

  lemma {:induction false} HoldsInTwo(published: Option<Metrics>, jobs: seq<Job>, records: seq<Option<Record>>,
                                      artifacts: seq<Option<Artifact>>, cohortId: string, tools: Tools)
    requires |jobs| == |records| == |artifacts|
    ensures Holds(published, jobs, records, artifacts, cohortId, tools)
       <==> HoldsApart(published, jobs, records, artifacts, cohortId, tools) && CountersHold(published, records)
  {
  }

  predicate SameSample(a: Option<Record>, b: Option<Record>) {
    a.Some? == b.Some? && SampleOf(a) == SampleOf(b)
  }

  lemma {:induction false} GatherOfSameSamples(jobs: seq<Job>, a: seq<Option<Record>>, b: seq<Option<Record>>,
                                               artifacts: seq<Option<Artifact>>, tools: Tools)
    requires |jobs| == |a| == |b| == |artifacts|
    requires forall k | 0 <= k < |a| :: SameSample(a[k], b[k])
    ensures Gather(jobs, a, artifacts, tools) == Gather(jobs, b, artifacts, tools)
    decreases |jobs|
  {
    if jobs != [] {
      var n := |jobs| - 1;
      GatherOfSameSamples(jobs[..n], a[..n], b[..n], artifacts[..n], tools);
    }
  }

  /** With the same samples, what is not a counter stays as it is. */
  lemma {:induction false} ApartOfSameSamples(published: Option<Metrics>, jobs: seq<Job>, a: seq<Option<Record>>,
                                              b: seq<Option<Record>>, artifacts: seq<Option<Artifact>>,
                                              cohortId: string, tools: Tools)
    requires |jobs| == |a| == |b| == |artifacts|
    requires forall k | 0 <= k < |a| :: SameSample(a[k], b[k])
    ensures HoldsApart(published, jobs, a, artifacts, cohortId, tools)
       <==> HoldsApart(published, jobs, b, artifacts, cohortId, tools)
  {
    GatherOfSameSamples(jobs, a, b, artifacts, tools);
  }

  // ----- what the entry means -----

  ghost predicate CounterMeans(published: Option<int>, records: seq<Option<Record>>, counter: Counters -> Option<int>) {
    AllTrack(records, counter) ==> published == Some(Sum(records, counter))
  }

  ghost predicate CoverageMeans(published: Option<int>, records: seq<Option<Record>>, counter: Counters -> Option<int>) {
    AllTrack(records, counter) ==> published == Some(|records|)
  }

  /** What it means for a complete cohort: the counts and the sizes are those of exactly these
      artifacts, and so is every counter that all of these records track, with its coverage. */
  lemma {:induction false} HoldsMeans(published: Option<Metrics>, jobs: seq<Job>, records: seq<Option<Record>>,
                   artifacts: seq<Option<Artifact>>, cohortId: string, tools: Tools)
    requires |jobs| == |records| == |artifacts|
    requires IsComplete(artifacts)
    requires Holds(published, jobs, records, artifacts, cohortId, tools)
    ensures
      var m := published.value;
      var sizes := seq(|artifacts|, k requires 0 <= k < |artifacts| => artifacts[k].value.bytes);
      && m.expectedBuildCount == m.finalizedBuildCount == Some(|jobs|)
      && IsMean(sizes, m.averageJsonSizeBytes)
      && CounterMeans(m.counters.providerCallCount, records, (c: Counters) => c.providerCallCount)
      && CounterMeans(m.counters.completedAttemptCount, records, (c: Counters) => c.completedAttemptCount)
      && CounterMeans(m.counters.rejectedResponseCount, records, (c: Counters) => c.rejectedResponseCount)
      && CounterMeans(m.counters.failedAttemptCount, records, (c: Counters) => c.failedAttemptCount)
      && CounterMeans(m.counters.failedRunCount, records, (c: Counters) => c.failedRunCount)
      && CounterMeans(m.counters.interruptedRunCount, records, (c: Counters) => c.interruptedRunCount)
      && CoverageMeans(m.providerCallTrackingJobCount, records, (c: Counters) => c.providerCallCount)
      && CoverageMeans(m.completedAttemptTrackingJobCount, records, (c: Counters) => c.completedAttemptCount)
  {
    GatherCounts(jobs, records, artifacts, tools);
    var g := Gather(jobs, records, artifacts, tools);
    var sizes := seq(|artifacts|, k requires 0 <= k < |artifacts| => artifacts[k].value.bytes);
    assert g.bytes == sizes;
    AverageIsMean(sizes);
    TrackingIsComplete(records, (c: Counters) => c.providerCallCount);
    TrackingIsComplete(records, (c: Counters) => c.completedAttemptCount);
    TrackingIsComplete(records, (c: Counters) => c.rejectedResponseCount);
    TrackingIsComplete(records, (c: Counters) => c.failedAttemptCount);
    TrackingIsComplete(records, (c: Counters) => c.failedRunCount);
    TrackingIsComplete(records, (c: Counters) => c.interruptedRunCount);
  }

  // ----- the measurements of the cohort -----

  /** The record has a valid sample of the artifact on disk. */
  predicate IsTimed(r: Option<Record>, artifact: Option<Artifact>) {
    && r.Some? && r.value.sample.Some? && IsSample(r.value.sample.value)
    && artifact.Some? && r.value.sample.value.artifactSha256 == artifact.value.hash
  }

  /** It is of a build whose prompt, configuration and output cap are on record: the prompt is the
      job's own, and the configuration says in what version it is and what was asked for. */
  predicate HasProvenance(job: Job, r: Option<Record>, artifact: Option<Artifact>, tools: Tools) {
    && IsTimed(r, artifact)
    && var sample := r.value.sample.value;
       && sample.acceptedOutputTokens.Some?
       && sample.configuration.Some? && IsConfiguration(sample.configuration.value)
       && job.promptText.Some? && sample.configuration.value.promptSha256 == tools.hash(job.promptText.value)
       && sample.configuration.value.requestConfigurationVersion.Some?
       && sample.configuration.value.requestConfiguration.Some?
  }

  /** Any two were asked for in the same way. */
  predicate AreAlike(samples: seq<Sample>) {
    forall j, k | 0 <= j < k < |samples| ::
      && samples[j].configuration.Some? && samples[k].configuration.Some?
      && samples[j].configuration.value.directRoute == samples[k].configuration.value.directRoute
      && samples[j].configuration.value.requestConfiguration == samples[k].configuration.value.requestConfiguration
      && samples[j].configuration.value.toolsEnabled == samples[k].configuration.value.toolsEnabled
  }

  lemma {:induction false} AlikeMeans(samples: seq<Sample>)
    requires forall k | 0 <= k < |samples| ::
      samples[k].configuration.Some? && samples[k].configuration.value.requestConfiguration.Some?
    ensures SameConfiguration(samples) <==> AreAlike(samples)
  {
    if AreAlike(samples) {
      forall k | 0 <= k < |samples| ensures ConfigurationKey(samples[k]) == ConfigurationKey(samples[0]) {
      }
    }
    if SameConfiguration(samples) {
      forall j, k | 0 <= j < k < |samples| ensures ConfigurationKey(samples[j]) == ConfigurationKey(samples[k]) {
      }
    }
  }

  ghost predicate AllHaveProvenance(jobs: seq<Job>, records: seq<Option<Record>>, artifacts: seq<Option<Artifact>>, tools: Tools)
    requires |jobs| == |records| == |artifacts|
  {
    forall k | 0 <= k < |jobs| :: HasProvenance(jobs[k], records[k], artifacts[k], tools)
  }

  /** The samples a cohort is measured by: those of its records, in the order of the jobs. */
  ghost predicate AreSamples(samples: seq<Sample>, records: seq<Option<Record>>) {
    && |samples| == |records|
    && forall k | 0 <= k < |samples| :: records[k].Some? && records[k].value.sample == Some(samples[k])
  }

  ghost predicate AreCaps(caps: seq<int>, samples: seq<Sample>) {
    && |caps| == |samples|
    && forall k | 0 <= k < |caps| :: samples[k].acceptedOutputTokens == Some(caps[k])
  }

  lemma {:induction false} GatherOneProvenance(g: Gathered, job: Job, r: Option<Record>, artifact: Option<Artifact>, tools: Tools)
    requires |g.outputCaps| <= |g.configured| <= |g.timing|
    ensures
      var h := GatherOne(g, job, r, artifact, tools);
      && |h.outputCaps| <= |h.configured| <= |h.timing| <= |g.timing| + 1
      && if HasProvenance(job, r, artifact, tools) then
           var sample := TimedSample(r, artifact).value;
           && r.value.sample == Some(sample) && sample.acceptedOutputTokens.Some?
           && h.promptProvenanceCount == g.promptProvenanceCount + 1
           && h.timing == g.timing + [sample]
           && h.configured == g.configured + [sample]
           && h.outputCaps == g.outputCaps + [sample.acceptedOutputTokens.value]
         else h.outputCaps == g.outputCaps
  {
  }

  /** The loop over the artifacts finds provenance for every job exactly when every job has it. */
  lemma {:induction false} GatherProvenance(jobs: seq<Job>, records: seq<Option<Record>>, artifacts: seq<Option<Artifact>>, tools: Tools)
    requires |jobs| == |records| == |artifacts|
    ensures
      var g := Gather(jobs, records, artifacts, tools);
      && |g.outputCaps| <= |g.configured| <= |g.timing| <= |jobs|
      && (|g.outputCaps| == |jobs| <==> AllHaveProvenance(jobs, records, artifacts, tools))
    decreases |jobs|
  {
    if jobs != [] {
      var n := |jobs| - 1;
      GatherProvenance(jobs[..n], records[..n], artifacts[..n], tools);
      GatherOneProvenance(Gather(jobs[..n], records[..n], artifacts[..n], tools), jobs[n], records[n], artifacts[n], tools);
    }
  }

  /** It then gathers every sample, with its cap, in the order of the jobs. */
  lemma {:induction false} GatherAllSamples(jobs: seq<Job>, records: seq<Option<Record>>, artifacts: seq<Option<Artifact>>, tools: Tools)
    requires |jobs| == |records| == |artifacts|
    requires AllHaveProvenance(jobs, records, artifacts, tools)
    ensures
      var g := Gather(jobs, records, artifacts, tools);
      && g.promptProvenanceCount == |jobs| && g.timing == g.configured
      && AreSamples(g.configured, records) && AreCaps(g.outputCaps, g.configured)
    decreases |jobs|
  {
    if jobs != [] {
      var n := |jobs| - 1;
      var before := Gather(jobs[..n], records[..n], artifacts[..n], tools);
      GatherAllSamples(jobs[..n], records[..n], artifacts[..n], tools);
      GatherOneProvenance(before, jobs[n], records[n], artifacts[n], tools);
      SamplesGoOn(before.configured, before.outputCaps, records, records[n].value.sample.value);
    }
  }

  lemma {:induction false} SamplesGoOn(samples: seq<Sample>, caps: seq<int>, records: seq<Option<Record>>, sample: Sample)
    requires records != [] && AreSamples(samples, records[..|records| - 1]) && AreCaps(caps, samples)
    requires records[|records| - 1].Some? && records[|records| - 1].value.sample == Some(sample)
    requires sample.acceptedOutputTokens.Some?
    ensures AreSamples(samples + [sample], records) && AreCaps(caps + [sample.acceptedOutputTokens.value], samples + [sample])
  {
  }

  lemma {:induction false} ProvenAreAsked(jobs: seq<Job>, records: seq<Option<Record>>, artifacts: seq<Option<Artifact>>, tools: Tools,
                                          samples: seq<Sample>)
    requires |jobs| == |records| == |artifacts| && AllHaveProvenance(jobs, records, artifacts, tools)
    requires AreSamples(samples, records)
    ensures forall k | 0 <= k < |samples| ::
      samples[k].configuration.Some? && samples[k].configuration.value.requestConfiguration.Some?
  {
    forall k | 0 <= k < |samples| ensures HasProvenance(jobs[k], records[k], artifacts[k], tools) {
    }
  }

  /** How the measurements are computed from the samples and their caps. */
  predicate AreMeasured(c: CohortMeasurements, samples: seq<Sample>, caps: seq<int>)
    requires |samples| == |caps| > 0
  {
    c == CohortMeasurements(
      Some(|samples|), Some(|samples|), Some(SameConfiguration(samples) && AllEqual(caps)), Some(|caps|), Some(AllEqual(caps)),
      if SameConfiguration(samples) && AllEqual(caps) then Average(Times(samples)) else None,
      if SameConfiguration(samples) && AllEqual(caps) then Some(SumOf(Attempts(samples))) else None,
      if AllEqual(caps) then Some(caps[0]) else None)
  }

  lemma {:induction false} CohortIsMeasured(published: Option<Metrics>, jobs: seq<Job>, records: seq<Option<Record>>,
                   artifacts: seq<Option<Artifact>>, cohortId: string, tools: Tools) returns (samples: seq<Sample>, caps: seq<int>)
    requires |jobs| == |records| == |artifacts| && jobs != []
    requires AllHaveProvenance(jobs, records, artifacts, tools)
    requires Holds(published, jobs, records, artifacts, cohortId, tools)
    ensures AreSamples(samples, records) && AreCaps(caps, samples)
    ensures published.value.promptCohortId == Some(cohortId) && AreMeasured(published.value.cohort, samples, caps)
  {
    GatherAllSamples(jobs, records, artifacts, tools);
    var g := Gather(jobs, records, artifacts, tools);
    samples, caps := g.configured, g.outputCaps;
  }

  /** Any two are equal. */
  predicate Agree(values: seq<int>) {
    forall j, k | 0 <= j < k < |values| :: values[j] == values[k]
  }

  lemma {:induction false} AgreeMeans(values: seq<int>)
    ensures AllEqual(values) <==> Agree(values)
  {
    if Agree(values) {
      forall k | 0 <= k < |values| ensures values[k] == values[0] {
      }
    }
  }

  /** The measurements published for a cohort with complete provenance are those of its
      samples: every job is covered; the cap, the configuration and what is averaged over them
      are published exactly when they agree. Otherwise the set published before stays. */
  lemma {:induction false} CohortMeans(published: Option<Metrics>, jobs: seq<Job>, records: seq<Option<Record>>,
                   artifacts: seq<Option<Artifact>>, cohortId: string, tools: Tools) returns (samples: seq<Sample>, caps: seq<int>)
    requires |jobs| == |records| == |artifacts| && jobs != []
    requires AllHaveProvenance(jobs, records, artifacts, tools)
    requires Holds(published, jobs, records, artifacts, cohortId, tools)
    ensures AreSamples(samples, records) && AreCaps(caps, samples)
    ensures published.value.promptCohortId == Some(cohortId)
    ensures MeasuresMean(published.value.cohort, samples, caps)
  {
    samples, caps := CohortIsMeasured(published, jobs, records, artifacts, cohortId, tools);
    ProvenAreAsked(jobs, records, artifacts, tools, samples);
    MeasuredMeans(published.value.cohort, samples, caps);
  }

  /** All are counted. The cap is published exactly when all caps agree, the mean time and the number
      of attempts exactly when the configurations do so too. */
  ghost predicate MeasuresMean(c: CohortMeasurements, samples: seq<Sample>, caps: seq<int>)
    requires caps != []
  {
    var n, consistent := Some(|samples|), AreAlike(samples) && Agree(caps);
    && c.inferenceSampleCount == c.configurationSampleCount == c.outputCapSampleCount == n
    && c.outputCapIsConsistent == Some(Agree(caps))
    && c.outputCapTokens == (if Agree(caps) then Some(caps[0]) else None)
    && c.configurationIsConsistent == Some(consistent)
    && c.averageInferenceMs.Some? == c.finalizedAttemptCount.Some? == consistent
    && (consistent ==>
          && IsMean(seq(|samples|, k requires 0 <= k < |samples| => samples[k].inferenceTimeMs), c.averageInferenceMs)
          && IsSum(seq(|samples|, k requires 0 <= k < |samples| => samples[k].attemptCount), c.finalizedAttemptCount.value))
  }

  lemma {:induction false} MeasuredMeans(c: CohortMeasurements, samples: seq<Sample>, caps: seq<int>)
    requires |samples| == |caps| > 0 && AreMeasured(c, samples, caps)
    requires forall k | 0 <= k < |samples| ::
      samples[k].configuration.Some? && samples[k].configuration.value.requestConfiguration.Some?
    ensures MeasuresMean(c, samples, caps)
  {
    assert Times(samples) == seq(|samples|, k requires 0 <= k < |samples| => samples[k].inferenceTimeMs);
    assert Attempts(samples) == seq(|samples|, k requires 0 <= k < |samples| => samples[k].attemptCount);
    AlikeMeans(samples);
    AgreeMeans(caps);
    AverageIsMean(Times(samples));
    SumIsSum(Attempts(samples));
  }

  // ----- incomplete provenance -----

  /** The jobs with a timed sample. */
  ghost function TimedJobs(records: seq<Option<Record>>, artifacts: seq<Option<Artifact>>): set<int>
    requires |records| == |artifacts|
  {
    set k | 0 <= k < |records| && IsTimed(records[k], artifacts[k])
  }

  lemma {:induction false} TimedAreCounted(jobs: seq<Job>, records: seq<Option<Record>>, artifacts: seq<Option<Artifact>>, tools: Tools)
    requires |jobs| == |records| == |artifacts|
    ensures |Gather(jobs, records, artifacts, tools).timing| == |TimedJobs(records, artifacts)|
    decreases |jobs|
  {
    if jobs != [] {
      var n := |jobs| - 1;
      TimedAreCounted(jobs[..n], records[..n], artifacts[..n], tools);
      TimedGoOn(records, artifacts, n);
      OneIsTimed(Gather(jobs[..n], records[..n], artifacts[..n], tools), jobs[n], records[n], artifacts[n], tools);
    }
  }

  lemma {:induction false} TimedGoOn(records: seq<Option<Record>>, artifacts: seq<Option<Artifact>>, n: nat)
    requires |records| == |artifacts| == n + 1
    ensures |TimedJobs(records, artifacts)|
         == |TimedJobs(records[..n], artifacts[..n])| + if IsTimed(records[n], artifacts[n]) then 1 else 0
  {
    var before, now := TimedJobs(records[..n], artifacts[..n]), TimedJobs(records, artifacts);
    forall k ensures k in before <==> k in now && k != n {
      if 0 <= k < n {
        assert records[..n][k] == records[k] && artifacts[..n][k] == artifacts[k];
      }
    }
    assert before == now - {n};
  }

  lemma {:induction false} OneIsTimed(g: Gathered, job: Job, r: Option<Record>, artifact: Option<Artifact>, tools: Tools)
    ensures |GatherOne(g, job, r, artifact, tools).timing| == |g.timing| + if IsTimed(r, artifact) then 1 else 0
  {
  }

  /** The prompt of the job is the one its timed sample was made with. */
  predicate HasPrompt(job: Job, r: Option<Record>, artifact: Option<Artifact>, tools: Tools) {
    && IsTimed(r, artifact)
    && r.value.sample.value.configuration.Some? && IsConfiguration(r.value.sample.value.configuration.value)
    && job.promptText.Some? && r.value.sample.value.configuration.value.promptSha256 == tools.hash(job.promptText.value)
  }

  lemma {:induction false} PromptsAreCounted(jobs: seq<Job>, records: seq<Option<Record>>, artifacts: seq<Option<Artifact>>, tools: Tools)
    requires |jobs| == |records| == |artifacts|
    ensures
      var count := Gather(jobs, records, artifacts, tools).promptProvenanceCount;
      && count <= |jobs|
      && (count == |jobs| <==> forall k | 0 <= k < |jobs| :: HasPrompt(jobs[k], records[k], artifacts[k], tools))
    decreases |jobs|
  {
    if jobs != [] {
      var n := |jobs| - 1;
      PromptsAreCounted(jobs[..n], records[..n], artifacts[..n], tools);
    }
  }

  /** The prompt cohort is named as soon as all prompts are known, and else stays as it was. */
  lemma {:induction false} PromptCohortMeans(previous: Option<Metrics>, jobs: seq<Job>, records: seq<Option<Record>>,
                   artifacts: seq<Option<Artifact>>, cohortId: string, tools: Tools)
    requires |jobs| == |records| == |artifacts| && jobs != []
    ensures
      NextMetrics(previous, jobs, records, artifacts, cohortId, tools).promptCohortId ==
      if forall k | 0 <= k < |jobs| :: HasPrompt(jobs[k], records[k], artifacts[k], tools) then Some(cohortId)
      else if previous.Some? then previous.value.promptCohortId else None
  {
    PromptsAreCounted(jobs, records, artifacts, tools);
  }

  /** Without complete provenance the measurements published before stay, but for a first count
      of the timed samples. */
  lemma {:induction false} PartialProvenanceKeepsCohort(previous: Metrics, jobs: seq<Job>, records: seq<Option<Record>>,
                   artifacts: seq<Option<Artifact>>, cohortId: string, tools: Tools)
    requires |jobs| == |records| == |artifacts|
    requires !AllHaveProvenance(jobs, records, artifacts, tools)
    ensures
      var next := NextMetrics(Some(previous), jobs, records, artifacts, cohortId, tools).cohort;
      && next == previous.cohort.(inferenceSampleCount := next.inferenceSampleCount)
      && next.inferenceSampleCount == (if previous.cohort.inferenceSampleCount.Some? then previous.cohort.inferenceSampleCount
                                       else Some(|TimedJobs(records, artifacts)|))
  {
    TimedAreCounted(jobs, records, artifacts, tools);
    GatherProvenance(jobs, records, artifacts, tools);
  }
}
