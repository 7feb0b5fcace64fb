/** What the counters and attempt lists of a record say about the job's whole history. */
module JobHistory {
  import opened Options
  import opened LedgerRecords

  // ----- sorted lists of attempts -----

  predicate StrictlyIncreasing(s: seq<int>) {
    forall j, k | 0 <= j < k < |s| :: s[j] < s[k]
  }

  function Elems(s: seq<int>): set<int> {
    set x | x in s
  }

  lemma {:induction false} InsertHas(s: seq<int>, x: int)
    ensures forall y :: y in Insert(s, x) <==> y in s || y == x
    decreases |s|
  {
    if s != [] {
      assert s == [s[0]] + s[1..];
      InsertHas(s[1..], x);
    }
  }

  lemma {:induction false} InsertKeepsOrder(s: seq<int>, x: int)
    requires StrictlyIncreasing(s)
    ensures StrictlyIncreasing(Insert(s, x))
    ensures |Insert(s, x)| == |s| + if x in s then 0 else 1
    decreases |s|
  {
    if s != [] && s[0] < x {
      InsertKeepsOrder(s[1..], x);
      InsertHas(s[1..], x);
      var t := Insert(s[1..], x);
      assert s == [s[0]] + s[1..];
      forall k | 0 <= k < |t| ensures s[0] < t[k] {
        assert t[k] in t;
      }
    }
  }

  lemma {:induction false} InsertSorted(s: seq<int>, x: int)
    requires StrictlyIncreasing(s)
    ensures StrictlyIncreasing(Insert(s, x))
    ensures Elems(Insert(s, x)) == Elems(s) + {x}
    ensures |Insert(s, x)| == |s| + if x in s then 0 else 1
  {
    InsertHas(s, x);
    InsertKeepsOrder(s, x);
  }

  lemma {:induction false} InsertLast(s: seq<int>, x: int)
    requires forall k | 0 <= k < |s| :: s[k] < x
    ensures Insert(s, x) == s + [x]
    decreases |s|
  {
    if s != [] {
      InsertLast(s[1..], x);
      assert s == [s[0]] + s[1..];
    }
  }

  lemma {:induction false} SortUniqueOfSorted(s: seq<int>)
    requires StrictlyIncreasing(s)
    ensures SortUnique(s) == s
    decreases |s|
  {
    if s != [] {
      var init := s[..|s| - 1];
      SortUniqueOfSorted(init);
      InsertLast(init, s[|s| - 1]);
    }
  }

  lemma {:induction false} AppendUniqueOfSorted(attempts: Option<seq<int>>, x: int)
    requires StrictlyIncreasing(OrEmpty(attempts))
    ensures
      var s := OrEmpty(attempts);
      var t := AppendUnique(attempts, x);
      StrictlyIncreasing(t) && Elems(t) == Elems(s) + {x} && |t| == |s| + if x in s then 0 else 1
  {
    SortUniqueOfSorted(OrEmpty(attempts));
    InsertSorted(OrEmpty(attempts), x);
  }

  // ----- the events of a history -----

  /** The events, counted from the operations and from whether they were accepted, which the
      state of the record decides; its counters and lists are not looked at. An attempt is named by its run and its
      number: `responses` are those that returned a response, `rejections` those whose
      response was given up later; `reached` is the highest attempt of the present run, or
      the one being finalized. */
  datatype Tally = Tally(runs: nat, calls: nat, reached: int, responses: set<(nat, int)>, rejections: set<(nat, int)>)

  const NOTHING: Tally := Tally(0, 0, 0, {}, {})

  /** The attempt an operation declares lost: the one a retry follows, or the last one
      of a run that fails for the first time. */
  function LostAttempt(op: Op, current: Option<Record>, reached: int): Option<int> {
    match op
    case Retry(attempt, _, _) => Some(attempt - 1)
    case Fail(_, _, _) => if current.Some? && current.value.state == Failed then None else Some(reached)
    case _ => None
  }

  function Count(t: Tally, op: Op, current: Option<Record>): Tally {
    match op
    case Run(pid, alive, now) =>
      if MarkRunning(current, pid, alive, now).Some? then t.(runs := t.runs + 1, reached := 0) else t
    case ProviderCall(attempt, _, _) =>
      if attempt > 0 then t.(calls := t.calls + 1, reached := Max(t.reached, attempt)) else t
    case CompletedAttempt(attempt, _, _) =>
      if attempt > 0 then t.(responses := t.responses + {(t.runs, attempt)}) else t
    case StartFinalize(sample, _, _) => t.(reached := sample.attemptCount)
    case _ =>
      var lost := LostAttempt(op, current, t.reached);
      if lost.Some? && (t.runs, lost.value) in t.responses
      then t.(rejections := t.rejections + {(t.runs, lost.value)})
      else t
  }

  function Tallied(history: seq<Op>): Tally {
    if history == [] then NOTHING
    else
      var before := history[..|history| - 1];
      Count(Tallied(before), history[|history| - 1], After(before))
  }

  // ----- one run's part of a set of events -----

  function OfRun(events: set<(nat, int)>, run: nat): set<int> {
    set e | e in events && e.0 == run :: e.1
  }

  lemma {:induction false} OfRunHas(events: set<(nat, int)>, run: nat, attempt: int)
    ensures attempt in OfRun(events, run) <==> (run, attempt) in events
  {
    if (run, attempt) in events {
      assert (run, attempt).1 in OfRun(events, run);
    }
  }

  lemma {:induction false} OfRunAdd(events: set<(nat, int)>, run: nat, attempt: int)
    ensures OfRun(events + {(run, attempt)}, run) == OfRun(events, run) + {attempt}
  {
    var more := events + {(run, attempt)};
    forall a ensures a in OfRun(more, run) <==> a in OfRun(events, run) + {attempt} {
      OfRunHas(more, run, a);
      OfRunHas(events, run, a);
    }
  }

  lemma {:induction false} OfRunIsEmpty(events: set<(nat, int)>, run: nat)
    requires forall e | e in events :: e.0 < run
    ensures OfRun(events, run) == {}
  {
  }

  // ----- the invariant of a record -----

  ghost predicate ListIs(attempts: seq<int>, events: set<(nat, int)>, run: nat) {
    StrictlyIncreasing(attempts) && Elems(attempts) == OfRun(events, run)
  }

  ghost predicate Counts(counter: Option<int>, events: nat) {
    counter.Some? ==> counter.value == events
  }

  /** The counters that are tracked are exact, and the lists are those of the present run. */
  ghost predicate Exact(r: Record, t: Tally) {
    && Counts(r.counters.providerCallCount, t.calls)
    && Counts(r.counters.completedAttemptCount, |t.responses|)
    && Counts(r.counters.rejectedResponseCount, |t.rejections|)
    && OrZero(r.runAttemptCount) == t.reached
    && ListIs(OrEmpty(r.completedRunAttempts), t.responses, t.runs)
    && ListIs(OrEmpty(r.rejectedRunAttempts), t.rejections, t.runs)
  }

  /** With no record yet, nothing has happened. */
  ghost predicate Faithful(current: Option<Record>, t: Tally) {
    && t.rejections <= t.responses
    && (forall e | e in t.responses :: e.0 <= t.runs)
    && match current
       case None => t == NOTHING
       case Some(r) => Exact(r, t)
  }

  lemma {:induction false} NewEvent(attempts: Option<seq<int>>, events: set<(nat, int)>, run: nat, attempt: int, counter: Option<int>)
    requires ListIs(OrEmpty(attempts), events, run) && Counts(counter, |events|)
    ensures
      var now := AppendUnique(attempts, attempt);
      var count := AddToCounter(true, counter, |now| - |OrEmpty(attempts)|);
      && ListIs(now, events + {(run, attempt)}, run)
      && Counts(count, |events + {(run, attempt)}|)
      && |now| - |OrEmpty(attempts)| == |events + {(run, attempt)}| - |events|
  {
    AppendUniqueOfSorted(attempts, attempt);
    OfRunAdd(events, run, attempt);
    OfRunHas(events, run, attempt);
    assert attempt in OrEmpty(attempts) <==> attempt in Elems(OrEmpty(attempts));
    if (run, attempt) in events {
      assert events + {(run, attempt)} == events;
    }
  }

  lemma {:induction false} NothingYet(run: nat)
    ensures ListIs([], {}, run)
  {
  }

  lemma {:induction false} StepRun(t: Tally, op: Op, current: Option<Record>)
    requires op.Run? && Faithful(current, t)
    ensures Faithful(Apply(op, current), Count(t, op, current))
  {
    OfRunIsEmpty(t.responses, t.runs + 1);
    OfRunIsEmpty(t.rejections, t.runs + 1);
    assert Elems([]) == {};
  }

  lemma {:induction false} StepCompletedAttempt(t: Tally, op: Op, current: Option<Record>)
    requires op.CompletedAttempt? && Faithful(current, t)
    ensures Faithful(Apply(op, current), Count(t, op, current))
  {
    NothingYet(t.runs);
    if op.attempt > 0 {
      var counter := if current.Some? then current.value.counters.completedAttemptCount else Some(0);
      NewEvent(Some(Completed(current)), t.responses, t.runs, op.attempt, counter);
    }
  }

  /** rejectAttempt counts an attempt exactly when it responded and was not counted yet. */
  lemma {:induction false} RejectIsExact(r: Record, t: Tally, attempt: int)
    requires Exact(r, t)
    ensures
      var now := if (t.runs, attempt) in t.responses then t.rejections + {(t.runs, attempt)} else t.rejections;
      var (list, count) := RejectAttempt(Some(r), attempt);
      ListIs(OrEmpty(list), now, t.runs) && Counts(count, |now|)
  {
    assert attempt in OrEmpty(r.completedRunAttempts) <==> attempt in Elems(OrEmpty(r.completedRunAttempts));
    OfRunHas(t.responses, t.runs, attempt);
    NewEvent(r.rejectedRunAttempts, t.rejections, t.runs, attempt, r.counters.rejectedResponseCount);
  }

  lemma {:induction false} StepRetry(t: Tally, op: Op, current: Option<Record>)
    requires op.Retry? && Faithful(current, t)
    ensures Faithful(Apply(op, current), Count(t, op, current))
  {
    NothingYet(t.runs);
    if current.Some? {
      RejectIsExact(current.value, t, op.attempt - 1);
    }
  }

  lemma {:induction false} StepFail(t: Tally, op: Op, current: Option<Record>)
    requires op.Fail? && Faithful(current, t)
    ensures Faithful(Apply(op, current), Count(t, op, current))
  {
    NothingYet(t.runs);
    if current.Some? {
      RejectIsExact(current.value, t, t.reached);
    }
  }

  predicate IsOther(op: Op) {
    op.ProviderCall? || op.Interrupt? || op.StartFinalize? || op.EndFinalize? || op.Recover? || op.Acknowledge?
  }

  lemma {:induction false} StepOther(t: Tally, op: Op, current: Option<Record>)
    requires IsOther(op) && Faithful(current, t)
    ensures Faithful(Apply(op, current), Count(t, op, current))
  {
    NothingYet(t.runs);
    if current.Some? {
      OtherKeepsLists(op, current.value);
      if !op.ProviderCall? {
        OtherKeepsCounters(op, current.value);
      }
    }
  }

  lemma {:induction false} OtherKeepsLists(op: Op, r: Record)
    requires IsOther(op)
    ensures
      var now := Apply(op, Some(r));
      && now.Some?
      && OrEmpty(now.value.completedRunAttempts) == OrEmpty(r.completedRunAttempts)
      && OrEmpty(now.value.rejectedRunAttempts) == OrEmpty(r.rejectedRunAttempts)
  {
  }

  lemma {:induction false} OtherKeepsCounters(op: Op, r: Record)
    requires IsOther(op) && !op.ProviderCall?
    ensures
      var now := Apply(op, Some(r)).value;
      && now.counters.providerCallCount == r.counters.providerCallCount
      && now.counters.completedAttemptCount == r.counters.completedAttemptCount
      && now.counters.rejectedResponseCount == r.counters.rejectedResponseCount
      && now.runAttemptCount == if op.StartFinalize? then Some(op.sample.attemptCount) else r.runAttemptCount
  {
  }

  /** Main result: over every sequence of operations from an empty ledger, a counter that is
      defined is the number of its events in the whole history, and the attempt lists are
      the strictly increasing lists of the present run's events. */
  lemma {:induction false} CountersAreExact(history: seq<Op>)
    ensures Faithful(After(history), Tallied(history))
    decreases |history|
  {
    if history != [] {
      var before := history[..|history| - 1];
      var op := history[|history| - 1];
      CountersAreExact(before);
      match op
      case Run(_, _, _) => StepRun(Tallied(before), op, After(before));
      case CompletedAttempt(_, _, _) => StepCompletedAttempt(Tallied(before), op, After(before));
      case Retry(_, _, _) => StepRetry(Tallied(before), op, After(before));
      case Fail(_, _, _) => StepFail(Tallied(before), op, After(before));
      case _ => StepOther(Tallied(before), op, After(before));
    }
  }

  /** Rejected attempts are completed attempts of the same run, and never more of them. */
  lemma {:induction false} RejectedAmongCompleted(history: seq<Op>)
    requires After(history).Some?
    ensures
      var r := After(history).value;
      && StrictlyIncreasing(OrEmpty(r.rejectedRunAttempts))
      && Elems(OrEmpty(r.rejectedRunAttempts)) <= Elems(OrEmpty(r.completedRunAttempts))
      && (r.counters.rejectedResponseCount.Some? && r.counters.completedAttemptCount.Some? ==>
            r.counters.rejectedResponseCount.value <= r.counters.completedAttemptCount.value)
  {
    CountersAreExact(history);
    var t := Tallied(history);
    SubsetIsSmaller(t.rejections, t.responses);
    forall a | a in OfRun(t.rejections, t.runs) ensures a in OfRun(t.responses, t.runs) {
      OfRunHas(t.rejections, t.runs, a);
      OfRunHas(t.responses, t.runs, a);
    }
  }

  lemma {:induction false} SubsetIsSmaller(a: set<(nat, int)>, b: set<(nat, int)>)
    requires a <= b
    ensures |a| <= |b|
  {
    assert b == a + (b - a);
  }

  // ----- failed attempts, failed runs and interrupted runs -----

  /** `reached` is as above, and the attempts up to `givenUp` are those a retry has followed. */
  datatype Losses = Losses(reached: int, givenUp: int, failedAttempts: nat, failedRuns: nat, interruptedRuns: nat)

  const NO_LOSSES: Losses := Losses(0, 0, 0, 0, 0)

  /** The run that ends without a result: one that was still active. */
  predicate Interrupts(op: Op, current: Option<Record>) {
    match op
    case Interrupt(_, _) => current.None? || IsActive(current.value.state)
    case Recover(pid, alive, artifact, _, _) =>
      && current.Some? && !IsActiveElsewhere(current.value, pid, alive)
      && (current.value.state == Running || LostItsBuild(current.value, artifact))
    case _ => false
  }

  predicate IsResumable(r: Record) {
    r.state == Finalizing && r.pendingSample.Some? && IsSample(r.pendingSample.value)
  }

  /** The pending sample is not of the artifact on disk. */
  predicate LostItsBuild(r: Record, artifact: Option<Artifact>) {
    IsResumable(r) && (artifact.None? || artifact.value.hash != r.pendingSample.value.artifactSha256)
  }

  function CountLosses(t: Losses, op: Op, current: Option<Record>): Losses {
    match op
    case Run(pid, alive, now) =>
      if current.Some? && IsActiveElsewhere(current.value, pid, alive) then t else t.(reached := 0, givenUp := 0)
    case ProviderCall(attempt, _, _) => if attempt > 0 then t.(reached := Max(t.reached, attempt)) else t
    case Retry(attempt, _, _) =>
      // only an attempt that was reached can fail, and only once
      var fails := t.givenUp < attempt - 1 <= t.reached;
      t.(givenUp := Max(t.givenUp, attempt - 1), failedAttempts := t.failedAttempts + if fails then 1 else 0)
    case Fail(_, _, _) =>
      if current.Some? && current.value.state == Failed then t
      else t.(failedRuns := t.failedRuns + 1, failedAttempts := t.failedAttempts + if t.givenUp < t.reached then 1 else 0)
    case StartFinalize(sample, _, _) => t.(reached := sample.attemptCount, givenUp := Max(0, sample.attemptCount - 1))
    case EndFinalize(sample, _) => t.(givenUp := Max(0, sample.attemptCount - 1))
    case _ => t.(interruptedRuns := t.interruptedRuns + if Interrupts(op, current) then 1 else 0)
  }

  function Lost(history: seq<Op>): Losses {
    if history == [] then NO_LOSSES
    else
      var before := history[..|history| - 1];
      CountLosses(Lost(before), history[|history| - 1], After(before))
  }

  ghost predicate LossesAre(current: Option<Record>, t: Losses) {
    match current
    case None => t == NO_LOSSES
    case Some(r) =>
      && OrZero(r.runAttemptCount) == t.reached
      && r.retryCount == t.givenUp
      && Counts(r.counters.failedAttemptCount, t.failedAttempts)
      && Counts(r.counters.failedRunCount, t.failedRuns)
      && Counts(r.counters.interruptedRunCount, t.interruptedRuns)
      && (r.counters.failedRunCount.None? ==> t.failedRuns == 0)
      && (r.counters.interruptedRunCount.None? ==> t.interruptedRuns == 0)
  }

  lemma {:induction false} StepOfRun(t: Losses, op: Op, current: Option<Record>)
    requires (op.Run? || op.ProviderCall? || op.CompletedAttempt? || op.Retry?) && LossesAre(current, t)
    ensures LossesAre(Apply(op, current), CountLosses(t, op, current))
  {
  }

  lemma {:induction false} StepOfEnding(t: Losses, op: Op, current: Option<Record>)
    requires (op.Fail? || op.Interrupt? || op.StartFinalize? || op.EndFinalize?) && LossesAre(current, t)
    ensures LossesAre(Apply(op, current), CountLosses(t, op, current))
  {
  }

  /** A counter that may be undefined for zero goes on by some events. */
  predicate Continues(now: Option<int>, before: Option<int>, events: nat) {
    OrZero(now) == OrZero(before) + events && (now.None? ==> before.None?)
  }

  /** Reconcile adds an interrupted run or leaves the counters as they are. */
  lemma {:induction false} ReconcileCounts(op: Op, r: Record)
    requires op.Recover?
    ensures
      var now := Reconcile(r, op.pid, op.alive, op.artifact, op.verify, op.now);
      && now.runAttemptCount == r.runAttemptCount && now.retryCount == r.retryCount
      && now.counters == r.counters.(failedRunCount := now.counters.failedRunCount,
                                     interruptedRunCount := now.counters.interruptedRunCount)
      && Continues(now.counters.failedRunCount, r.counters.failedRunCount, 0)
      && Continues(now.counters.interruptedRunCount, r.counters.interruptedRunCount,
                   if Interrupts(op, Some(r)) then 1 else 0)
  {
    if IsResumable(r) && !IsActiveElsewhere(r, op.pid, op.alive) {
      ResumingCounts(op, r);
    }
  }

  lemma {:induction false} ResumingCounts(op: Op, r: Record)
    requires op.Recover? && IsResumable(r) && !IsActiveElsewhere(r, op.pid, op.alive)
    ensures
      var now := Reconcile(r, op.pid, op.alive, op.artifact, op.verify, op.now);
      && now.runAttemptCount == r.runAttemptCount && now.retryCount == r.retryCount
      && now.counters == CarriedCounters(Some(r)).(interruptedRunCount :=
           Some(OrZero(r.counters.interruptedRunCount) + if LostItsBuild(r, op.artifact) then 1 else 0))
  {
  }

  lemma {:induction false} StepOfRecovery(t: Losses, op: Op, current: Option<Record>)
    requires (op.Recover? || op.Acknowledge?) && LossesAre(current, t)
    ensures LossesAre(Apply(op, current), CountLosses(t, op, current))
  {
    if op.Recover? && current.Some? {
      ReconcileCounts(op, current.value);
    }
  }

  /** Main result: the three counters of losses, where they are defined, are exact too. */
  lemma {:induction false} LossesAreExact(history: seq<Op>)
    ensures LossesAre(After(history), Lost(history))
    decreases |history|
  {
    if history != [] {
      var before := history[..|history| - 1];
      LossesAreExact(before);
      var op := history[|history| - 1];
      if op.Run? || op.ProviderCall? || op.CompletedAttempt? || op.Retry? {
        StepOfRun(Lost(before), op, After(before));
      } else if op.Recover? || op.Acknowledge? {
        StepOfRecovery(Lost(before), op, After(before));
      } else {
        StepOfEnding(Lost(before), op, After(before));
      }
    }
  }

  // ----- untracked counters -----

  /** These four counters, where the record does not track them, stay untracked through every
      operation; the two run counters turn from undefined to zero. */
  lemma {:induction false} UntrackedStaysUntracked(op: Op, r: Record)
    ensures
      var c := r.counters;
      var d := Apply(op, Some(r)).value.counters;
      && (c.providerCallCount.None? ==> d.providerCallCount.None?)
      && (c.completedAttemptCount.None? ==> d.completedAttemptCount.None?)
      && (c.rejectedResponseCount.None? ==> d.rejectedResponseCount.None?)
      && (c.failedAttemptCount.None? ==> d.failedAttemptCount.None?)
  {
  }

  predicate IsTracked(counter: Option<int>) {
    counter.Some? && counter.value >= 0
  }

  predicate AllTracked(c: Counters) {
    && IsTracked(c.providerCallCount) && IsTracked(c.completedAttemptCount) && IsTracked(c.rejectedResponseCount)
    && IsTracked(c.failedAttemptCount) && IsTracked(c.failedRunCount) && IsTracked(c.interruptedRunCount)
  }

  predicate IsNoLess(now: Counters, before: Counters)
    requires AllTracked(now) && AllTracked(before)
  {
    && before.providerCallCount.value <= now.providerCallCount.value
    && before.completedAttemptCount.value <= now.completedAttemptCount.value
    && before.rejectedResponseCount.value <= now.rejectedResponseCount.value
    && before.failedAttemptCount.value <= now.failedAttemptCount.value
    && before.failedRunCount.value <= now.failedRunCount.value
    && before.interruptedRunCount.value <= now.interruptedRunCount.value
  }

  lemma {:induction false} RejectingAdds(r: Record, attempt: int)
    requires IsTracked(r.counters.rejectedResponseCount)
    ensures
      var (_, count) := RejectAttempt(Some(r), attempt);
      IsTracked(count) && r.counters.rejectedResponseCount.value <= count.value
  {
  }

  lemma {:induction false} TrackedThroughRuns(op: Op, r: Record)
    requires AllTracked(r.counters)
    requires op.Run? || op.ProviderCall? || op.CompletedAttempt? || op.Retry?
    ensures
      var d := Apply(op, Some(r)).value.counters;
      AllTracked(d) && IsNoLess(d, r.counters)
  {
    if op.Retry? {
      RejectingAdds(r, op.attempt - 1);
    }
  }

  lemma {:induction false} TrackedThroughEndings(op: Op, r: Record)
    requires AllTracked(r.counters)
    requires op.Fail? || op.Interrupt? || op.StartFinalize? || op.EndFinalize?
    ensures
      var d := Apply(op, Some(r)).value.counters;
      AllTracked(d) && IsNoLess(d, r.counters)
  {
    if op.Fail? {
      RejectingAdds(r, RunAttemptCount(Some(r)));
    }
  }

  lemma {:induction false} TrackedThroughRecovery(op: Op, r: Record)
    requires AllTracked(r.counters)
    requires op.Recover? || op.Acknowledge?
    ensures
      var d := Apply(op, Some(r)).value.counters;
      AllTracked(d) && IsNoLess(d, r.counters)
  {
    if op.Recover? {
      ReconcileCounts(op, r);
    }
  }

  /** Once every counter is tracked, no operation loses one or turns one back. */
  lemma {:induction false} TrackedStaysTracked(op: Op, r: Record)
    requires AllTracked(r.counters)
    ensures
      var d := Apply(op, Some(r)).value.counters;
      AllTracked(d) && IsNoLess(d, r.counters)
  {
    if op.Run? || op.ProviderCall? || op.CompletedAttempt? || op.Retry? {
      TrackedThroughRuns(op, r);
    } else if op.Recover? || op.Acknowledge? {
      TrackedThroughRecovery(op, r);
    } else {
      TrackedThroughEndings(op, r);
    }
  }

  /** A job whose first operation is markRunning tracks every counter for ever. */
  lemma {:induction false} StartedJobsTrackEverything(history: seq<Op>)
    requires history != [] && history[0].Run?
    ensures After(history).Some? && AllTracked(After(history).value.counters)
    decreases |history|
  {
    if |history| == 1 {
      assert history[..0] == [];
    } else {
      var before := history[..|history| - 1];
      StartedJobsTrackEverything(before);
      TrackedStaysTracked(history[|history| - 1], After(before).value);
    }
  }
}
