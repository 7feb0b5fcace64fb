/** How many failed attempts one run can add to a job. */
module RunAttempts {
  import opened Options
  import opened LedgerRecords

  /** What happens within a run, between markRunning and its end. */
  predicate IsMidRun(op: Op) {
    op.ProviderCall? || op.CompletedAttempt? || op.Retry? || op.StartFinalize? || op.Acknowledge?
  }

  predicate EndsRun(op: Op) {
    op.Fail? || op.Interrupt? || op.Recover? || op.EndFinalize?
  }

  function Play(r: Record, ops: seq<Op>): Record {
    if ops == [] then r
    else
      var before := Play(r, ops[..|ops| - 1]);
      match Apply(ops[|ops| - 1], Some(before))
      case Some(next) => next
      case None => before
  }

  /** The highest attempt for which a provider call was made. */
  function Started(ops: seq<Op>): int {
    if ops == [] then 0
    else
      var before := Started(ops[..|ops| - 1]);
      match ops[|ops| - 1]
      case ProviderCall(attempt, _, _) => Max(before, attempt)
      case _ => before
  }

  /** The record markRunning leaves, with a tracked failed-attempt counter. */
  predicate IsFresh(r: Record) {
    && r.state == Running && r.retryCount == 0 && r.runAttemptCount == Some(0)
    && r.counters.failedAttemptCount.Some? && r.counters.failedAttemptCount.value >= 0
  }

  function FailedSince(r: Record, now: Record): int {
    OrZero(now.counters.failedAttemptCount) - OrZero(r.counters.failedAttemptCount)
  }

  /** Every finalization is of an attempt that was started and not yet retried past. */
  predicate FinalizesInProgress(r: Record, ops: seq<Op>) {
    forall k | 0 <= k < |ops| && ops[k].StartFinalize? ::
      Play(r, ops[..k]).retryCount < ops[k].sample.attemptCount <= Started(ops[..k])
  }

  /** What holds in the middle of a run that began with `r`. */
  predicate Bounded(r: Record, now: Record, started: int) {
    && now.counters.failedAttemptCount.Some?
    && 0 <= FailedSince(r, now) <= now.retryCount
    && FailedSince(r, now) <= started
    && OrZero(now.runAttemptCount) <= started
    && IsActive(now.state)
  }

  lemma {:induction false} StepIsBounded(r: Record, now: Record, started: int, op: Op)
    requires IsFresh(r) && Bounded(r, now, started) && IsMidRun(op)
    requires op.StartFinalize? ==> now.retryCount < op.sample.attemptCount <= started
    ensures
      var next := Apply(op, Some(now));
      next.Some? && Bounded(r, next.value, if op.ProviderCall? then Max(started, op.attempt) else started)
  {
  }

  lemma {:induction false} RunIsBounded(r: Record, ops: seq<Op>)
    requires IsFresh(r) && FinalizesInProgress(r, ops)
    requires forall k | 0 <= k < |ops| :: IsMidRun(ops[k])
    ensures Bounded(r, Play(r, ops), Started(ops))
    decreases |ops|
  {
    if ops != [] {
      var before := ops[..|ops| - 1];
      forall k | 0 <= k < |before| ensures before[..k] == ops[..k] {
      }
      RunIsBounded(r, before);
      StepIsBounded(r, Play(r, before), Started(before), ops[|ops| - 1]);
    }
  }

  /** Main result: up to and including its first ending, a run adds at most as many failed
      attempts as the highest attempt it started. */
  lemma {:induction false} FailuresAtMostStarted(r: Record, ops: seq<Op>, end: Op)
    requires IsFresh(r) && FinalizesInProgress(r, ops) && EndsRun(end)
    requires forall k | 0 <= k < |ops| :: IsMidRun(ops[k])
    ensures
      var last := Apply(end, Some(Play(r, ops)));
      last.Some? && 0 <= FailedSince(r, last.value) <= Started(ops)
  {
    RunIsBounded(r, ops);
  }

  /** Failing a job that has failed already adds nothing to any counter. */
  lemma {:induction false} RefailingAddsNothing(r: Record, message: string, durationMs: Option<int>, now: int)
    requires r.state == Failed
    ensures
      var again := MarkFailed(Some(r), message, durationMs, now);
      && again.state == Failed
      && again.counters == CarriedCounters(Some(r))
      && again.rejectedRunAttempts == r.rejectedRunAttempts
      && OrEmpty(again.completedRunAttempts) == OrEmpty(r.completedRunAttempts)
  {
  }

  // ----- when the finalized attempt has been given up already -----

  const SAMPLE: Sample := Sample(0, 0, "", 2, None, None)

  /** Attempts 1 and 2 are started and both given up, then attempt 2 is finalized and the
      run fails: three failed attempts out of two. */
  lemma {:induction false} FinalizingALostAttemptCountsItTwice()
    ensures
      var r := MarkRunning(None, 1, {}, 0).value;
      var ops := [ProviderCall(1, 1, 0), ProviderCall(2, 1, 0), Retry(2, 1, 0), Retry(3, 1, 0), StartFinalize(SAMPLE, 1, 0)];
      && IsFresh(r) && Started(ops) == 2
      && FailedSince(r, MarkFailed(Some(Play(r, ops)), "", None, 0)) == 3
  {
    var r := MarkRunning(None, 1, {}, 0).value;
    var ops := [ProviderCall(1, 1, 0), ProviderCall(2, 1, 0), Retry(2, 1, 0), Retry(3, 1, 0), StartFinalize(SAMPLE, 1, 0)];
    var p1 := [] + [ops[0]];
    var p2 := p1 + [ops[1]];
    var p3 := p2 + [ops[2]];
    var p4 := p3 + [ops[3]];
    assert p4 + [ops[4]] == ops;
    PlayMore(r, [], ops[0]);
    PlayMore(r, p1, ops[1]);
    PlayMore(r, p2, ops[2]);
    PlayMore(r, p3, ops[3]);
    PlayMore(r, p4, ops[4]);
  }

  lemma {:induction false} PlayMore(r: Record, ops: seq<Op>, op: Op)
    requires Apply(op, Some(Play(r, ops))).Some?
    ensures Play(r, ops + [op]) == Apply(op, Some(Play(r, ops))).value
    ensures Started(ops + [op]) == if op.ProviderCall? then Max(Started(ops), op.attempt) else Started(ops)
  {
    assert (ops + [op])[..|ops|] == ops;
  }

  /** A run that finalizes and then fails meets the bound exactly when some attempt it
      started had not been counted as failed before the finalization. */
  lemma {:induction false} FinalizeThenFailBound(r: Record, ops: seq<Op>, sample: Sample, pid: int, now: int)
    requires IsFresh(r) && sample.attemptCount >= 1
    requires forall k | 0 <= k < |ops| :: IsMidRun(ops[k]) && !ops[k].StartFinalize?
    ensures
      var begun := Play(r, ops);
      var last := MarkFailed(Some(BeginFinalize(Some(begun), sample, pid, now)), "", None, now);
      FailedSince(r, last) <= Started(ops) <==> FailedSince(r, begun) < Started(ops)
  {
    RunIsBounded(r, ops);
  }

  // ----- any run of the store's operations -----

  /** The operation counts a failed attempt: a retry the attempt before it, a failure the last one. */
  predicate CountsAFailure(now: Record, op: Op) {
    match op
    case Retry(attempt, _, _) => now.retryCount < attempt - 1 <= OrZero(now.runAttemptCount)
    case Fail(_, _, _) => now.state != Failed && now.retryCount < OrZero(now.runAttemptCount)
    case _ => false
  }

  predicate TracksFailures(r: Record) {
    r.counters.failedAttemptCount.Some? && r.counters.failedAttemptCount.value >= 0
  }

  lemma {:induction false} StepCounts(r: Record, ops: seq<Op>)
    requires ops != [] && TracksFailures(Play(r, ops[..|ops| - 1]))
    ensures
      var before, now := Play(r, ops[..|ops| - 1]), Play(r, ops);
      && TracksFailures(now)
      && FailedSince(r, now) == FailedSince(r, before) + if CountsAFailure(before, ops[|ops| - 1]) then 1 else 0
  {
    OperationCounts(Play(r, ops[..|ops| - 1]), ops[|ops| - 1]);
  }

  lemma {:induction false} OperationCounts(now: Record, op: Op)
    requires TracksFailures(now)
    ensures
      var next := Apply(op, Some(now));
      && next.Some? && TracksFailures(next.value)
      && next.value.counters.failedAttemptCount.value
         == now.counters.failedAttemptCount.value + if CountsAFailure(now, op) then 1 else 0
  {
  }

  predicate IsWithinBound(r: Record, ops: seq<Op>) {
    FailedSince(r, Play(r, ops)) <= Started(ops)
  }

  /** A failed attempt is counted only if some attempt that was started had not been. */
  predicate OneIsLeft(r: Record, ops: seq<Op>, op: Op) {
    CountsAFailure(Play(r, ops), op) ==> FailedSince(r, Play(r, ops)) < Started(ops)
  }

  /** Main result for every sequence of the store's operations, late and repeated ones included,
      from a record that tracks its failures: there are never more failed attempts than attempts
      started exactly when each one that is counted finds one left. */
  lemma {:induction false} BoundHoldsExactlyWhen(r: Record, ops: seq<Op>)
    requires TracksFailures(r)
    ensures TracksFailures(Play(r, ops))
    ensures (forall k | 0 <= k <= |ops| :: IsWithinBound(r, ops[..k]))
       <==> (forall k | 0 <= k < |ops| :: OneIsLeft(r, ops[..k], ops[k]))
    decreases |ops|
  {
    if ops == [] {
      assert ops[..0] == ops;
    } else {
      var before := ops[..|ops| - 1];
      BoundHoldsExactlyWhen(r, before);
      forall k | 0 <= k <= |before| ensures before[..k] == ops[..k] {
      }
      StepIsWithinBound(r, before, ops);
      assert ops[..|ops|] == ops;
    }
  }

  lemma {:induction false} StepIsWithinBound(r: Record, before: seq<Op>, ops: seq<Op>)
    requires ops != [] && before == ops[..|ops| - 1] && TracksFailures(Play(r, before))
    ensures TracksFailures(Play(r, ops))
    ensures IsWithinBound(r, before) ==> (IsWithinBound(r, ops) <==> OneIsLeft(r, before, ops[|before|]))
  {
    StepCounts(r, ops);
  }

  // ----- how batch-generate finalizes -----

  /** attemptCount of generateAndSave: one, or the highest attempt a retry announced. */
  function AttemptCount(ops: seq<Op>): int {
    if ops == [] then 1
    else
      var before := AttemptCount(ops[..|ops| - 1]);
      match ops[|ops| - 1]
      case Retry(attempt, _, _) => Max(before, attempt)
      case _ => before
  }

  /** The attempt it names is never one that a retry has followed. */
  lemma {:induction false} AttemptIsInProgress(r: Record, ops: seq<Op>)
    requires IsFresh(r)
    requires forall k | 0 <= k < |ops| :: IsMidRun(ops[k]) && !ops[k].StartFinalize?
    ensures Play(r, ops).retryCount == AttemptCount(ops) - 1
    decreases |ops|
  {
    if ops != [] {
      AttemptIsInProgress(r, ops[..|ops| - 1]);
    }
  }

  /** A job of batch-generate whose accepted attempt made its provider call meets the bound,
      both when its finalization succeeds and when the job is failed after that. */
  lemma {:induction false} BatchRunMeetsBound(r: Record, ops: seq<Op>, sample: Sample, pid: int, now: int, end: Op)
    requires IsFresh(r) && (end.EndFinalize? ==> end.sample == sample) && EndsRun(end)
    requires forall k | 0 <= k < |ops| :: IsMidRun(ops[k]) && !ops[k].StartFinalize?
    requires sample.attemptCount == AttemptCount(ops) <= Started(ops)
    ensures
      var last := Apply(end, Some(BeginFinalize(Some(Play(r, ops)), sample, pid, now)));
      && last.Some?
      && FailedSince(r, last.value) <= Started(ops)
      && (end.EndFinalize? ==> FailedSince(r, MarkFailed(last, "", None, now)) <= Started(ops))
  {
    RunIsBounded(r, ops);
    AttemptIsInProgress(r, ops);
  }
}
