/** What the fields of a job's record say, other than its counters: after every history of the store's
    operations. */
module RecordHistory {
  import opened Options
  import opened LedgerRecords

  // ----- state and fields -----

  /** Which fields a record has in which state. */
  predicate IsCoherent(r: Record) {
    && (r.endedAt.Some? <==> r.state in {Succeeded, Failed, Interrupted})
    && (r.error.Some? <==> r.state in {Failed, Interrupted})
    && (r.pendingSample.Some? <==> r.state == Finalizing)
    && (r.lastRunDurationMs.Some? ==> r.state in {Failed, Interrupted} && r.lastRunDurationMs.value >= 0)
    && (r.state in {Running, Finalizing} ==> r.ownerPid.Some?)
    && (r.state == Succeeded ==> r.sample.Some?)
    && r.retryCount >= 0
  }

  lemma {:induction false} RecordsAreCoherent(history: seq<Op>)
    requires forall k | 0 <= k < |history| && history[k].StartFinalize? :: IsSample(history[k].sample)
    ensures After(history).Some? ==> IsCoherent(After(history).value)
    decreases |history|
  {
    if history != [] {
      var before, op := history[..|history| - 1], history[|history| - 1];
      RecordsAreCoherent(before);
      StepIsCoherent(op, After(before));
    }
  }

  lemma {:induction false} StepIsCoherent(op: Op, current: Option<Record>)
    requires current.Some? ==> IsCoherent(current.value)
    requires op.StartFinalize? ==> IsSample(op.sample)
    ensures Apply(op, current).Some? ==> IsCoherent(Apply(op, current).value)
  {
    if op.Recover? && current.Some? {
      ReconcileIsCoherent(op, current.value);
    }
  }

  lemma {:induction false} ReconcileIsCoherent(op: Op, r: Record)
    requires op.Recover? && IsCoherent(r)
    ensures IsCoherent(Reconcile(r, op.pid, op.alive, op.artifact, op.verify, op.now))
  {
    if !ReconcileMoves(op, r) {
      ReconcileKeeps(op, r);
    }
  }

  /** A reconcile ends work that nobody is at. */
  predicate ReconcileMoves(op: Op, r: Record) {
    && op.Recover? && !IsActiveElsewhere(r, op.pid, op.alive)
    && (r.state == Running || (r.state == Finalizing && r.pendingSample.Some? && IsSample(r.pendingSample.value)))
  }

  lemma {:induction false} ReconcileKeeps(op: Op, r: Record)
    requires op.Recover? && !ReconcileMoves(op, r)
    ensures
      var next := Reconcile(r, op.pid, op.alive, op.artifact, op.verify, op.now);
      && next == r.(sample := next.sample, generatedMetricsDirty := next.generatedMetricsDirty)
      && next.sample.Some? == r.sample.Some?
  {
  }

  // ----- what an operation is to the job -----

  /** Another living process is at work on the job. */
  predicate IsTaken(current: Option<Record>, pid: int, alive: set<int>) {
    && current.Some? && (current.value.state == Running || current.value.state == Finalizing)
    && match current.value.ownerPid
       case Some(owner) => owner != pid && owner > 0 && owner in alive
       case None => false
  }

  predicate HasPending(current: Option<Record>) {
    && current.Some? && current.value.state == Finalizing
    && current.value.pendingSample.Some? && IsSample(current.value.pendingSample.value)
  }

  /** A run that is accepted. */
  predicate Starts(op: Op, current: Option<Record>) {
    op.Run? && !IsTaken(current, op.pid, op.alive)
  }

  /** A reconcile finds the build of a finalization that died, */
  predicate Resumes(op: Op, current: Option<Record>) {
    && op.Recover? && !IsTaken(current, op.pid, op.alive) && HasPending(current)
    && op.artifact.Some? && op.artifact.value.hash == current.value.pendingSample.value.artifactSha256
  }

  /** or does not find it, */
  predicate Loses(op: Op, current: Option<Record>) {
    && op.Recover? && !IsTaken(current, op.pid, op.alive) && HasPending(current)
    && (op.artifact.None? || op.artifact.value.hash != current.value.pendingSample.value.artifactSha256)
  }

  /** or a run that died. */
  predicate Ends(op: Op, current: Option<Record>) {
    op.Recover? && !IsTaken(current, op.pid, op.alive) && current.Some? && current.value.state == Running
  }

  /** The stop signal reaches a job that is at work, or is not known yet. */
  predicate Stops(op: Op, current: Option<Record>) {
    op.Interrupt? && (current.None? || current.value.state == Running || current.value.state == Finalizing)
  }

  /** A reconcile finds another artifact than the one the sample is of. */
  predicate Repairs(op: Op, current: Option<Record>) {
    && op.Recover? && op.verify && current.Some? && !IsTaken(current, op.pid, op.alive)
    && current.value.state != Running && !HasPending(current)
    && current.value.sample.Some? && IsSample(current.value.sample.value) && op.artifact.Some?
    && (op.artifact.value.hash != current.value.sample.value.artifactSha256
        || op.artifact.value.bytes != current.value.sample.value.jsonBytes)
  }

  /** A call of a job that has no record makes one. */
  predicate Creates(op: Op, current: Option<Record>) {
    && current.None?
    && match op
       case ProviderCall(attempt, _, _) => attempt > 0
       case CompletedAttempt(attempt, _, _) => attempt > 0
       case Run(_, _, _) => true
       case Retry(_, _, _) => true
       case Fail(_, _, _) => true
       case Interrupt(_, _) => true
       case StartFinalize(_, _, _) => true
       case EndFinalize(_, _) => true
       case _ => false
  }

  // ----- the last operation that sets a field -----

  /** What an operation sets a field to; None when it leaves it as it is. */
  type Setter<!T> = (Op, Option<Record>) -> Option<T>

  function SetAt<T>(history: seq<Op>, sets: Setter<T>, k: nat): Option<T>
    requires k < |history|
  {
    sets(history[k], After(history[..k]))
  }

  /** The value is what the last operation to set it has set it to. */
  predicate IsLastSet<T(==)>(history: seq<Op>, sets: Setter<T>, initial: T, value: T) {
    && (forall k: nat | k < |history| && SetAt(history, sets, k).Some?
          && (forall j: nat | k < j < |history| :: SetAt(history, sets, j).None?) ::
          value == SetAt(history, sets, k).value)
    && ((forall k: nat | k < |history| :: SetAt(history, sets, k).None?) ==> value == initial)
  }

  lemma {:induction false} LastSetGoesOn<T>(before: seq<Op>, history: seq<Op>, sets: Setter<T>, initial: T, was: T, now: T)
    requires history != [] && before == history[..|history| - 1] && IsLastSet(before, sets, initial, was)
    requires now == match SetAt(history, sets, |before|) case Some(value) => value case None => was
    ensures IsLastSet(history, sets, initial, now)
  {
    var n := |before|;
    forall k: nat | k < n ensures SetAt(history, sets, k) == SetAt(before, sets, k) {
      assert history[..k] == before[..k];
    }
    forall k: nat | k < |history| && SetAt(history, sets, k).Some?
        && (forall j: nat | k < j < |history| :: SetAt(history, sets, j).None?)
      ensures now == SetAt(history, sets, k).value
    {
      if k < n {
        assert SetAt(history, sets, n).None?;
        assert SetAt(before, sets, k).Some? && forall j: nat | k < j < n :: SetAt(before, sets, j).None?;
      }
    }
    if forall k: nat | k < |history| :: SetAt(history, sets, k).None? {
      assert SetAt(history, sets, n).None?;
      assert forall k: nat | k < n :: SetAt(before, sets, k).None?;
    }
  }

  lemma {:induction false} AfterOneMore(history: seq<Op>, k: nat)
    requires k < |history|
    ensures After(history[..k + 1]) == Apply(history[k], After(history[..k]))
  {
    assert history[..k + 1][..k] == history[..k];
  }

  function FieldAt<T>(history: seq<Op>, field: Option<Record> -> T, k: nat): T
    requires k <= |history|
  {
    field(After(history[..k]))
  }

  /** If every operation does to a field what it is said to, the field is as it was set last. */
  lemma {:induction false} FieldIsLastSet<T>(history: seq<Op>, sets: Setter<T>, field: Option<Record> -> T, initial: T)
    requires field(None) == initial
    requires forall k: nat | k < |history| ::
      FieldAt(history, field, k + 1) == match SetAt(history, sets, k) case Some(value) => value case None => FieldAt(history, field, k)
    ensures IsLastSet(history, sets, initial, field(After(history)))
    decreases |history|
  {
    if history != [] {
      var n := |history| - 1;
      var before := history[..n];
      forall k: nat | k <= n
        ensures FieldAt(before, field, k) == FieldAt(history, field, k)
        ensures k < n ==> SetAt(before, sets, k) == SetAt(history, sets, k)
      {
        assert before[..k] == history[..k];
      }
      FieldIsLastSet(before, sets, field, initial);
      LastSetGoesOn(before, history, sets, initial, field(After(before)), FieldAt(history, field, n + 1));
      assert history[..n + 1] == history;
    }
  }

  // ----- the sample -----

  function SetsSample(op: Op, current: Option<Record>): Option<Option<Sample>> {
    if op.EndFinalize? then Some(Some(op.sample))
    else if Resumes(op, current) then Some(current.value.pendingSample)
    else if Repairs(op, current) then
      Some(Some(current.value.sample.value.(jsonBytes := op.artifact.value.bytes, artifactSha256 := op.artifact.value.hash)))
    else None
  }

  lemma {:induction false} StepSetsSample(op: Op, current: Option<Record>)
    ensures SampleOf(Apply(op, current)) == match SetsSample(op, current) case Some(s) => s case None => SampleOf(current)
  {
  }

  /** Main result: the sample of a record is that of the last finalization that was completed, by
      itself or by a reconcile, or as a reconcile has repaired it since. Every other operation
      keeps it: a new run, a failure and an interruption too. */
  lemma {:induction false} SampleIsLastSet(history: seq<Op>)
    ensures IsLastSet(history, SetsSample, None, SampleOf(After(history)))
  {
    forall k: nat | k < |history|
      ensures FieldAt(history, SampleOf, k + 1)
           == match SetAt(history, SetsSample, k) case Some(value) => value case None => FieldAt(history, SampleOf, k)
    {
      AfterOneMore(history, k);
      StepSetsSample(history[k], After(history[..k]));
    }
    FieldIsLastSet(history, SetsSample, SampleOf, None);
  }

  // ----- the times -----

  function StartOf(current: Option<Record>): Option<int> {
    if current.Some? then Some(current.value.startedAt) else None
  }

  function SetsStart(op: Op, current: Option<Record>): Option<Option<int>> {
    if Starts(op, current) || Creates(op, current) then Some(Some(op.now)) else None
  }

  lemma {:induction false} StepSetsStart(op: Op, current: Option<Record>)
    ensures StartOf(Apply(op, current)) == match SetsStart(op, current) case Some(s) => s case None => StartOf(current)
  {
  }

  /** A job has started when its last run did, or else when it was first heard of. */
  lemma {:induction false} StartIsLastSet(history: seq<Op>)
    ensures IsLastSet(history, SetsStart, None, StartOf(After(history)))
  {
    forall k: nat | k < |history|
      ensures FieldAt(history, StartOf, k + 1)
           == match SetAt(history, SetsStart, k) case Some(value) => value case None => FieldAt(history, StartOf, k)
    {
      AfterOneMore(history, k);
      StepSetsStart(history[k], After(history[..k]));
    }
    FieldIsLastSet(history, SetsStart, StartOf, None);
  }

  /** How a run ended: when, why, and after how long. */
  datatype Ending = Ending(state: JobState, endedAt: int, error: Option<string>, durationMs: Option<int>)

  function EndingOf(current: Option<Record>): Option<Ending> {
    match current
    case None => None
    case Some(r) =>
      if r.endedAt.None? then None else Some(Ending(r.state, r.endedAt.value, r.error, r.lastRunDurationMs))
  }

  function SinceStart(current: Option<Record>, now: int): Option<int> {
    Some(if current.Some? && now > current.value.startedAt then now - current.value.startedAt else 0)
  }

  function SetsEnding(op: Op, current: Option<Record>): Option<Option<Ending>> {
    if Starts(op, current) || op.StartFinalize? then Some(None)
    else if op.Fail? then
      Some(Some(Ending(Failed, op.now, Some(op.message),
                       if op.durationMs.Some? && op.durationMs.value >= 0 then op.durationMs else None)))
    else if op.EndFinalize? || Resumes(op, current) then Some(Some(Ending(Succeeded, op.now, None, None)))
    else if Stops(op, current) then Some(Some(Ending(Interrupted, op.now, Some(op.reason), SinceStart(current, op.now))))
    else if Ends(op, current) then
      Some(Some(Ending(Interrupted, op.now, Some("Previous process ended before this job finalized."), SinceStart(current, op.now))))
    else if Loses(op, current) then
      Some(Some(Ending(Interrupted, op.now, Some("Final artifact did not match the pending benchmark sample."), None)))
    else None
  }

  lemma {:induction false} StepSetsEnding(op: Op, current: Option<Record>)
    requires current.Some? ==> IsCoherent(current.value)
    ensures EndingOf(Apply(op, current)) == match SetsEnding(op, current) case Some(e) => e case None => EndingOf(current)
  {
    match op
    case Recover(_, _, _, _, _) => ReconcileSetsEnding(op, current);
    case Fail(_, _, _) => FailureSetsEnding(op, current);
    case Interrupt(_, _) => InterruptionSetsEnding(op, current);
    case _ =>
  }

  lemma {:induction false} ReconcileSetsEnding(op: Op, current: Option<Record>)
    requires op.Recover? && (current.Some? ==> IsCoherent(current.value))
    ensures EndingOf(Apply(op, current)) == match SetsEnding(op, current) case Some(e) => e case None => EndingOf(current)
  {
    if current.Some? {
      if !ReconcileMoves(op, current.value) {
        ReconcileKeepsEnding(op, current.value);
      } else if current.value.state == Running {
        EndingOfDeadRun(op, current.value);
      } else {
        EndingOfDeadFinalization(op, current.value);
      }
    }
  }

  lemma {:induction false} ReconcileKeepsEnding(op: Op, r: Record)
    requires op.Recover? && !ReconcileMoves(op, r)
    ensures SetsEnding(op, Some(r)) == None
    ensures EndingOf(Apply(op, Some(r))) == EndingOf(Some(r))
  {
    ReconcileKeeps(op, r);
  }

  lemma {:induction false} EndingOfDeadRun(op: Op, r: Record)
    requires ReconcileMoves(op, r) && r.state == Running
    ensures SetsEnding(op, Some(r)) == Some(EndingOf(Apply(op, Some(r))))
  {
  }

  lemma {:induction false} EndingOfDeadFinalization(op: Op, r: Record)
    requires ReconcileMoves(op, r) && r.state == Finalizing
    ensures SetsEnding(op, Some(r)) == Some(EndingOf(Apply(op, Some(r))))
  {
  }

  lemma {:induction false} FailureSetsEnding(op: Op, current: Option<Record>)
    requires op.Fail?
    ensures EndingOf(Apply(op, current)) == match SetsEnding(op, current) case Some(e) => e case None => EndingOf(current)
  {
  }

  lemma {:induction false} InterruptionSetsEnding(op: Op, current: Option<Record>)
    requires op.Interrupt?
    ensures EndingOf(Apply(op, current)) == match SetsEnding(op, current) case Some(e) => e case None => EndingOf(current)
  {
  }

  /** How and when a job ended is what the last operation to end its work says; it has not ended
      if a run or a finalization has begun since. */
  lemma {:induction false} EndingIsLastSet(history: seq<Op>)
    requires forall k | 0 <= k < |history| && history[k].StartFinalize? :: IsSample(history[k].sample)
    ensures IsLastSet(history, SetsEnding, None, EndingOf(After(history)))
  {
    forall k: nat | k < |history|
      ensures FieldAt(history, EndingOf, k + 1)
           == match SetAt(history, SetsEnding, k) case Some(value) => value case None => FieldAt(history, EndingOf, k)
    {
      AfterOneMore(history, k);
      RecordsAreCoherent(history[..k]);
      StepSetsEnding(history[k], After(history[..k]));
    }
    FieldIsLastSet(history, SetsEnding, EndingOf, None);
  }

  // ----- who is at work -----

  datatype Work = Work(state: JobState, owner: Option<int>, pending: Option<Sample>)

  /** The work on a job that has not ended. */
  function WorkOf(current: Option<Record>): Option<Work> {
    match current
    case None => None
    case Some(r) => if r.endedAt.Some? then None else Some(Work(r.state, r.ownerPid, r.pendingSample))
  }

  function SetsWork(op: Op, current: Option<Record>): Option<Option<Work>> {
    if Starts(op, current) then Some(Some(Work(Running, Some(op.pid), None)))
    else if op.StartFinalize? then Some(Some(Work(Finalizing, Some(op.pid), Some(op.sample))))
    else if op.Fail? || op.EndFinalize? || Resumes(op, current) || Stops(op, current) || Ends(op, current) || Loses(op, current)
    then Some(None)
    else if Creates(op, current) then Some(Some(Work(Running, Some(op.pid), None)))
    else None
  }

  lemma {:induction false} StepSetsWork(op: Op, current: Option<Record>)
    requires current.Some? ==> IsCoherent(current.value)
    ensures WorkOf(Apply(op, current)) == match SetsWork(op, current) case Some(w) => w case None => WorkOf(current)
  {
  }

  /** A job is at work as the last run, finalization or first call has left it, in the process that
      made it, until something ends the work. */
  lemma {:induction false} WorkIsLastSet(history: seq<Op>)
    requires forall k | 0 <= k < |history| && history[k].StartFinalize? :: IsSample(history[k].sample)
    ensures IsLastSet(history, SetsWork, None, WorkOf(After(history)))
  {
    forall k: nat | k < |history|
      ensures FieldAt(history, WorkOf, k + 1)
           == match SetAt(history, SetsWork, k) case Some(value) => value case None => FieldAt(history, WorkOf, k)
    {
      AfterOneMore(history, k);
      RecordsAreCoherent(history[..k]);
      StepSetsWork(history[k], After(history[..k]));
    }
    FieldIsLastSet(history, SetsWork, WorkOf, None);
  }
}
