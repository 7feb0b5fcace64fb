/** What an operation does to the promise of the markers when it is recorded on a record that has
    lost its marker: after a refresh, and during one. */
module LateOperations {
  import opened Options
  import opened LedgerRecords
  import opened BenchmarkMetrics
  import opened MetricsAggregate
  import opened PublishedMetrics
  import opened JobHistory

  // ----- the totals -----

  lemma {:induction false} SumOfChanged(records: seq<Option<Record>>, j: nat, r: Option<Record>, counter: Counters -> Option<int>)
    requires j < |records|
    ensures Sum(records[j := r], counter) - OrZero(Tracked(r, counter)) == Sum(records, counter) - OrZero(Tracked(records[j], counter))
    decreases |records|
  {
    var n := |records| - 1;
    if j < n {
      SumOfChanged(records[..n], j, r, counter);
      assert records[j := r][..n] == records[..n][j := r];
    } else {
      assert records[j := r][..n] == records[..n];
    }
  }

  /** The sums of all six counters. */
  function Totals(records: seq<Option<Record>>): Counters {
    Counters(
      Some(Sum(records, (c: Counters) => c.providerCallCount)),
      Some(Sum(records, (c: Counters) => c.completedAttemptCount)),
      Some(Sum(records, (c: Counters) => c.rejectedResponseCount)),
      Some(Sum(records, (c: Counters) => c.failedAttemptCount)),
      Some(Sum(records, (c: Counters) => c.failedRunCount)),
      Some(Sum(records, (c: Counters) => c.interruptedRunCount)))
  }

  predicate AllPresent(records: seq<Option<Record>>) {
    forall k | 0 <= k < |records| :: records[k].Some? && AllTracked(records[k].value.counters)
  }

  predicate PresentAreTracked(records: seq<Option<Record>>) {
    forall k | 0 <= k < |records| && records[k].Some? :: AllTracked(records[k].value.counters)
  }

  /** A job of the cohort has no record, so that no totals are published. */
  predicate MissesARecord(records: seq<Option<Record>>) {
    exists k | 0 <= k < |records| :: records[k].None?
  }

  /** Totals are published for a cohort of present records, and for no other. */
  lemma {:induction false} TotalsOfPresent(records: seq<Option<Record>>)
    requires PresentAreTracked(records)
    ensures SumTrackedCounters(records, |records|) == if AllPresent(records) then Totals(records) else NO_COUNTERS
  {
    TrackingIsComplete(records, (c: Counters) => c.providerCallCount);
    TrackingIsComplete(records, (c: Counters) => c.completedAttemptCount);
    TrackingIsComplete(records, (c: Counters) => c.rejectedResponseCount);
    TrackingIsComplete(records, (c: Counters) => c.failedAttemptCount);
    TrackingIsComplete(records, (c: Counters) => c.failedRunCount);
    TrackingIsComplete(records, (c: Counters) => c.interruptedRunCount);
  }

  /** Another record with other counters changes one of the totals. */
  lemma {:induction false} TotalsOfChanged(records: seq<Option<Record>>, j: nat, r: Option<Record>)
    requires AllPresent(records) && j < |records| && r.Some? && AllTracked(r.value.counters)
    ensures Totals(records[j := r]) == Totals(records) <==> r.value.counters == records[j].value.counters
  {
    SumOfChanged(records, j, r, (c: Counters) => c.providerCallCount);
    SumOfChanged(records, j, r, (c: Counters) => c.completedAttemptCount);
    SumOfChanged(records, j, r, (c: Counters) => c.rejectedResponseCount);
    SumOfChanged(records, j, r, (c: Counters) => c.failedAttemptCount);
    SumOfChanged(records, j, r, (c: Counters) => c.failedRunCount);
    SumOfChanged(records, j, r, (c: Counters) => c.interruptedRunCount);
  }

  lemma {:induction false} PresenceStays(records: seq<Option<Record>>, j: nat, r: Option<Record>)
    requires j < |records| && records[j].Some? && r.Some? && AllTracked(r.value.counters) && PresentAreTracked(records)
    ensures PresentAreTracked(records[j := r])
    ensures AllPresent(records) <==> AllPresent(records[j := r])
    ensures AllPresent(records) <==> !MissesARecord(records)
  {
    if !AllPresent(records) {
      var k :| 0 <= k < |records| && records[k].None?;
      assert records[j := r][k].None?;
    }
  }

  /** When the published counters hold, they still do exactly when the record's have not changed,
      or a record is missing and no totals are published. */
  lemma {:induction false} CountersDecide(published: Option<Metrics>, records: seq<Option<Record>>, j: nat, r: Option<Record>)
    requires CountersHold(published, records) && PresentAreTracked(records)
    requires j < |records| && records[j].Some? && r.Some? && AllTracked(r.value.counters)
    ensures CountersHold(published, records[j := r]) <==>
      r.value.counters == records[j].value.counters || MissesARecord(records)
  {
    PresenceStays(records, j, r);
    TotalsOfPresent(records);
    TotalsOfPresent(records[j := r]);
    if AllPresent(records) {
      TotalsOfChanged(records, j, r);
    }
  }

  // ----- after a refresh -----

  /** All markers are clear, all artifacts are there, and the published metrics are true. */
  predicate IsSettled(c: Cohort, s: System) {
    Sized(c, s) && AllClean(s) && HasAllArtifacts(c, s) && Truthful(c, s) && PresentAreTracked(s.records)
  }

  /** Main result on late operations, from any such state, for every operation on a record that is
      there: either the operation sets the marker, or all markers stay clear and the published
      metrics stay true if and only if no counter has changed, or a record of the cohort is missing
      and no totals are published. */
  lemma {:induction false} LateOperationIsSeenExactlyWhen(c: Cohort, s: System, j: nat, op: Op)
    requires IsSettled(c, s) && j < |s.records| && s.records[j].Some? && !op.Acknowledge?
    ensures
      var r, next := s.records[j].value, AfterOperation(s, j, op);
      if SetsTheMarker(op, r) then !AllClean(next)
      else
        && AllClean(next)
        && (Truthful(c, next) <==> Apply(op, Some(r)).value.counters == r.counters || MissesARecord(s.records))
  {
    var r, next := s.records[j].value, AfterOperation(s, j, op);
    assert IsClean(s.records[j]);
    TrackedStaysTracked(op, r);
    WhichOperationsSetTheMarker(op, r);
    assert next.records[j] == Apply(op, Some(r));
    if !SetsTheMarker(op, r) {
      UnmarkedOperation(c, s, j, op);
      HoldsInTwo(s.published, c.jobs, s.records, Artifacts(s.files, c.tools), c.cohortId, c.tools);
      CountersDecide(s.published, s.records, j, next.records[j]);
    }
  }

  /** An operation that does not set the marker, told by whether it counts anything. */
  lemma {:induction false} Unmarked(c: Cohort, s: System, j: nat, op: Op, counts: bool)
    requires IsSettled(c, s) && j < |s.records| && s.records[j].Some? && !op.Acknowledge?
    requires !SetsTheMarker(op, s.records[j].value) && Apply(op, s.records[j]).Some?
    requires counts <==> Apply(op, s.records[j]).value.counters != s.records[j].value.counters
    ensures AllClean(AfterOperation(s, j, op))
    ensures Truthful(c, AfterOperation(s, j, op)) <==> !counts || MissesARecord(s.records)
  {
    LateOperationIsSeenExactlyWhen(c, s, j, op);
  }

  /** A provider call is missed, */
  lemma {:induction false} LateCallIsMissed(c: Cohort, s: System, j: nat, attempt: int, pid: int, now: int)
    requires IsSettled(c, s) && j < |s.records| && s.records[j].Some? && attempt > 0
    ensures
      var late := AfterOperation(s, j, ProviderCall(attempt, pid, now));
      AllClean(late) && (Truthful(c, late) <==> MissesARecord(s.records))
  {
    CallsAreCounted(s.records[j].value, attempt, pid, now);
    Unmarked(c, s, j, ProviderCall(attempt, pid, now), true);
  }

  lemma {:induction false} CallsAreCounted(r: Record, attempt: int, pid: int, now: int)
    requires AllTracked(r.counters) && attempt > 0
    ensures
      var next := Apply(ProviderCall(attempt, pid, now), Some(r));
      next.Some? && next.value.counters != r.counters
  {
  }

  /** a completed attempt unless the present run had completed it already, */
  lemma {:induction false} LateCompletionIsMissed(c: Cohort, s: System, j: nat, attempt: int, pid: int, now: int)
    requires IsSettled(c, s) && j < |s.records| && s.records[j].Some? && attempt > 0
    requires StrictlyIncreasing(Completed(s.records[j]))
    ensures
      var late := AfterOperation(s, j, CompletedAttempt(attempt, pid, now));
      AllClean(late) && (Truthful(c, late) <==> attempt in Completed(s.records[j]) || MissesARecord(s.records))
  {
    CompletionsAreCounted(s.records[j].value, attempt, pid, now);
    Unmarked(c, s, j, CompletedAttempt(attempt, pid, now), attempt !in Completed(s.records[j]));
  }

  lemma {:induction false} CompletionsAreCounted(r: Record, attempt: int, pid: int, now: int)
    requires AllTracked(r.counters) && attempt > 0 && StrictlyIncreasing(Completed(Some(r)))
    ensures
      var next := Apply(CompletedAttempt(attempt, pid, now), Some(r));
      next.Some? && (next.value.counters == r.counters <==> attempt in Completed(Some(r)))
  {
    AppendUniqueOfSorted(Some(Completed(Some(r))), attempt);
  }

  /** The attempt that a retry follows is newly lost: it was reached and not given up yet, or it has
      responded and was not rejected yet. */
  predicate LosesAnAttempt(r: Record, attempt: int) {
    || r.retryCount < attempt - 1 <= OrZero(r.runAttemptCount)
    || (attempt - 1 in OrEmpty(r.completedRunAttempts) && attempt - 1 !in OrEmpty(r.rejectedRunAttempts))
  }

  /** a retry unless it loses no attempt, */
  lemma {:induction false} LateRetryIsMissed(c: Cohort, s: System, j: nat, attempt: int, pid: int, now: int)
    requires IsSettled(c, s) && j < |s.records| && s.records[j].Some?
    requires StrictlyIncreasing(Rejected(s.records[j]))
    ensures
      var late := AfterOperation(s, j, Retry(attempt, pid, now));
      AllClean(late) && (Truthful(c, late) <==> !LosesAnAttempt(s.records[j].value, attempt) || MissesARecord(s.records))
  {
    RetriesAreCounted(s.records[j].value, attempt, pid, now);
    Unmarked(c, s, j, Retry(attempt, pid, now), LosesAnAttempt(s.records[j].value, attempt));
  }

  lemma {:induction false} RetriesAreCounted(r: Record, attempt: int, pid: int, now: int)
    requires AllTracked(r.counters) && StrictlyIncreasing(OrEmpty(r.rejectedRunAttempts))
    ensures
      var next := Apply(Retry(attempt, pid, now), Some(r));
      next.Some? && (next.value.counters == r.counters <==> !LosesAnAttempt(r, attempt))
  {
    AppendUniqueOfSorted(r.rejectedRunAttempts, attempt - 1);
  }

  /** and a failure, as when the upload throws after the job has been saved, unless the job had
      failed already. */
  lemma {:induction false} LateFailureIsMissed(c: Cohort, s: System, j: nat, message: string, durationMs: Option<int>, now: int)
    requires IsSettled(c, s) && j < |s.records| && s.records[j].Some?
    ensures
      var late := AfterOperation(s, j, Fail(message, durationMs, now));
      && AllClean(late)
      && (Truthful(c, late) <==> s.records[j].value.state == Failed || MissesARecord(s.records))
  {
    FailuresAreCounted(s.records[j].value, message, durationMs, now);
    Unmarked(c, s, j, Fail(message, durationMs, now), s.records[j].value.state != Failed);
  }

  lemma {:induction false} FailuresAreCounted(r: Record, message: string, durationMs: Option<int>, now: int)
    requires AllTracked(r.counters)
    ensures
      var next := Apply(Fail(message, durationMs, now), Some(r));
      next.Some? && (next.value.counters == r.counters <==> r.state == Failed)
  {
  }

  // ----- during a refresh -----

  /** The rest of a refresh that has read all artifacts, if nothing else happens. */
  function RestOfRefresh(c: Cohort, s: System): System
    requires Sized(c, s) && Enabled(c, s, WriteMetrics)
  {
    Next(c, Next(c, s, WriteMetrics), ClearMarkers)
  }

  /** Main result on late operations during a refresh: an operation that sets no marker makes a clean
      record differ from the snapshot. Then nothing is published, another changed record keeps its
      marker if it has one, and if none has, all markers are cleared, whether or not the operation
      counts anything. The entry is then true exactly if the one from before the refresh already
      held apart from the counters, and has the totals after the operation. */
  lemma {:induction false} LateOperationDuringRefresh(c: Cohort, s: System, j: nat, op: Op)
    requires Sized(c, s) && Enabled(c, s, WriteMetrics) && j < |s.records| && !op.Acknowledge?
    requires s.records[j].Some? && IsClean(s.records[j]) && !SetsTheMarker(op, s.records[j].value)
    requires Apply(op, s.records[j]) != s.refresher.snapshot[j]
    ensures
      var next := AfterOperation(s, j, op);
      var snapshot, end := s.refresher.snapshot, RestOfRefresh(c, next);
      && end.published == s.published
      && (forall k | 0 <= k < |s.records| && k != j && s.records[k] != snapshot[k] :: end.records[k] == s.records[k])
      && (AllClean(end) <==> forall k | 0 <= k < |s.records| && k != j && s.records[k] != snapshot[k] :: IsClean(s.records[k]))
      && (Truthful(c, end) <==>
            && HoldsApart(s.published, c.jobs, s.records, Artifacts(s.files, c.tools), c.cohortId, c.tools)
            && CountersHold(s.published, next.records))
  {
    var next := AfterOperation(s, j, op);
    WhichOperationsSetTheMarker(op, s.records[j].value);
    RefreshOfChanged(c, next, j);
    TruthInTwo(c, s, next);
    OthersAreClean(s, next, j);
  }

  /** The rest of a refresh when a clean record has changed since the snapshot. */
  lemma {:induction false} RefreshOfChanged(c: Cohort, s: System, j: nat)
    requires Sized(c, s) && Enabled(c, s, WriteMetrics) && j < |s.records|
    requires s.records[j].Some? && IsClean(s.records[j]) && s.records[j] != s.refresher.snapshot[j]
    ensures
      var end := RestOfRefresh(c, s);
      && |end.records| == |s.records| && end.published == s.published && Sized(c, end)
      && (forall k | 0 <= k < |s.records| && s.records[k] != s.refresher.snapshot[k] :: end.records[k] == s.records[k])
      && (AllClean(end) <==> OnlyCleanOnesChanged(s))
      && (Truthful(c, end) <==> Truthful(c, s))
  {
    var locked := Next(c, s, WriteMetrics);
    ClearsAllExactlyWhen(c, locked);
    ClearingChangesNoMeasure(c, locked);
  }

  lemma {:induction false} TruthInTwo(c: Cohort, s: System, next: System)
    requires Sized(c, s) && Sized(c, next) && next.files == s.files && next.published == s.published
    requires forall k | 0 <= k < |s.records| :: SameSample(s.records[k], next.records[k])
    ensures Truthful(c, next) <==>
      && HoldsApart(s.published, c.jobs, s.records, Artifacts(s.files, c.tools), c.cohortId, c.tools)
      && CountersHold(s.published, next.records)
  {
    var artifacts := Artifacts(s.files, c.tools);
    ApartOfSameSamples(s.published, c.jobs, s.records, next.records, artifacts, c.cohortId, c.tools);
    HoldsInTwo(s.published, c.jobs, next.records, artifacts, c.cohortId, c.tools);
  }

  lemma {:induction false} OthersAreClean(s: System, next: System, j: nat)
    requires s.refresher.Reading? && next.refresher == s.refresher && |s.records| == |s.refresher.snapshot| && j < |s.records|
    requires |next.records| == |s.records| && next.records == s.records[j := next.records[j]]
    requires next.records[j] != s.refresher.snapshot[j] && IsClean(next.records[j])
    ensures OnlyCleanOnesChanged(next) <==>
      forall k | 0 <= k < |s.records| && k != j && s.records[k] != s.refresher.snapshot[k] :: IsClean(s.records[k])
  {
    forall k | 0 <= k < |s.records| && k != j ensures next.records[k] == s.records[k] {
    }
  }
}
