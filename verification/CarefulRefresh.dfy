/** Five conditions that a program can check, under which the markers of a model always tell
    whether its published metrics are out of date. */
module CarefulRefresh {
  import opened Options
  import opened LedgerRecords
  import opened BenchmarkMetrics
  import opened MetricsAggregate
  import opened PublishedMetrics
  import JobHistory

  datatype Care =
    | NotFinalizing     // a refresh begins while no job is finalizing
    | OwnArtifacts      // an artifact is written only while its job is finalizing
    | NewTimes          // while it reads, no run or success gets the time that the record it read has
    | MarkerLeft        // markers are not cleared when only clean records have changed
    | TotalsPublished   // while all markers are clear, what sets none leaves the published totals

  const ALL_CARES := {NotFinalizing, OwnArtifacts, NewTimes, MarkerLeft, TotalsPublished}

  /** The operation gives a run the start, or a success the end, that the record read has. */
  predicate RepeatsATime(op: Op, current: Option<Record>, read: Option<Record>) {
    && read.Some? && Apply(op, current) != current
    && match op
       case Run(_, _, now) => read.value.state == Running && read.value.startedAt == now
       case EndFinalize(_, now) => read.value.state == Succeeded && read.value.endedAt == Some(now)
       case Recover(_, _, _, _, now) =>
         IsFinalizing(current) && read.value.state == Succeeded && read.value.endedAt == Some(now)
       case _ => false
  }

  predicate Meets(c: Cohort, s: System, e: Event, care: Care)
    requires Sized(c, s) && Enabled(c, s, e)
  {
    match care
    case NotFinalizing => e.BeginRefresh? ==> forall k | 0 <= k < |s.records| :: !IsFinalizing(s.records[k])
    case OwnArtifacts => e.WriteArtifact? ==> IsFinalizing(s.records[e.job])
    case NewTimes =>
      e.JobStep? && s.refresher.Reading? ==> !RepeatsATime(e.op, s.records[e.job], s.refresher.snapshot[e.job])
    case MarkerLeft => e.ClearMarkers? ==> !OnlyCleanOnesChanged(s)
    case TotalsPublished =>
      e.JobStep? && AllClean(s) && HasAllArtifacts(c, s) && s.records[e.job].Some? && !SetsTheMarker(e.op, s.records[e.job].value) ==>
        CountersHold(s.published, AfterOperation(s, e.job, e.op).records)
  }

  ghost predicate IsCareful(c: Cohort, states: seq<System>, events: seq<Event>, cares: set<Care>)
    requires IsRun(c, states, events)
  {
    forall k, care | 0 <= k < |events| && care in cares :: Meets(c, states[k], events[k], care)
  }

  // ----- what has become of a record since it was read -----

  /** Failures and interruptions, in all runs of the job. */
  function Endings(r: Record): int {
    OrZero(r.counters.failedRunCount) + OrZero(r.counters.interruptedRunCount)
  }

  /** The record is in the state in which it was, and has not left it in between. */
  predicate IsSameStay(was: Record, now: Record) {
    && now.state == was.state
    && match was.state
       case Running => now.startedAt == was.startedAt
       case Succeeded => now.endedAt == was.endedAt
       case Failed => Endings(now) == Endings(was)
       case Interrupted => Endings(now) == Endings(was)
       case Finalizing => true
  }

  /** Only a record that has left its state can have another artifact. */
  predicate Follows(was: Option<Record>, now: Option<Record>, untouched: bool) {
    && (now.None? ==> was.None? && untouched)
    && (was.Some? ==>
          && now.Some? && was.value.state != Finalizing
          && Endings(now.value) >= Endings(was.value)
          && (IsSameStay(was.value, now.value) ==> untouched))
  }

  predicate IsUntouched(seen: map<nat, Option<Artifact>>, k: nat, artifact: Option<Artifact>) {
    k in seen ==> seen[k] == artifact
  }

  /** A finalizing record is marked; what the refresher has seen of an artifact is what is there,
      unless the record has left its state; and when no record has changed since the snapshot, what
      was aggregated is what is there. */
  predicate IsCurrent(c: Cohort, s: System)
    requires Sized(c, s)
  {
    && NoneFinalizesUnmarked(s)
    && match s.refresher
       case Idle => true
       case Reading(snapshot, _, seen) =>
         forall k: nat | k < |s.records| ::
           Follows(snapshot[k], s.records[k], IsUntouched(seen, k, Verified(s.files[k], c.tools)))
       case Locked(snapshot, aggregated) =>
         && (forall k | 0 <= k < |s.records| :: !IsFinalizing(snapshot[k]))
         && !OnlyArtifactsChanged(c, s, aggregated)
  }

  predicate NoneFinalizesUnmarked(s: System) {
    forall k | 0 <= k < |s.records| && IsFinalizing(s.records[k]) :: !IsClean(s.records[k])
  }

  // ----- one operation -----

  lemma {:induction false} EndingsGrow(op: Op, r: Record)
    requires !op.Acknowledge?
    ensures Apply(op, Some(r)).Some?
    ensures
      var next := Apply(op, Some(r)).value;
      && Endings(next) >= Endings(r)
      && (next.state != r.state && (next.state == Failed || next.state == Interrupted) ==> Endings(next) > Endings(r))
  {
    if op.Recover? {
      RecoveryEndings(op, r);
    }
  }

  lemma {:induction false} RecoveryEndings(op: Op, r: Record)
    requires op.Recover?
    ensures
      var next := Apply(op, Some(r)).value;
      && Endings(next) >= Endings(r)
      && (next.state != r.state && (next.state == Failed || next.state == Interrupted) ==> Endings(next) > Endings(r))
  {
    JobHistory.ReconcileCounts(op, r);
  }

  /** A run or a success is entered with the time of the operation, and keeps it. */
  lemma {:induction false} StatesAreEntered(op: Op, r: Record, was: Record)
    requires !op.Acknowledge? && Apply(op, Some(r)).Some? && !RepeatsATime(op, Some(r), Some(was))
    requires was.state == Running || was.state == Succeeded
    ensures IsSameStay(was, Apply(op, Some(r)).value) ==> IsSameStay(was, r)
  {
  }

  lemma {:induction false} OperationFollows(op: Op, was: Option<Record>, now: Option<Record>, untouched: bool)
    requires !op.Acknowledge? && Follows(was, now, untouched) && !RepeatsATime(op, now, was)
    ensures Follows(was, Apply(op, now), untouched)
  {
    if was.Some? {
      EndingsGrow(op, now.value);
      if was.value.state == Running || was.value.state == Succeeded {
        StatesAreEntered(op, now.value, was.value);
      }
    }
  }

  /** Only a finalization makes a record finalizing, and it sets the marker. */
  lemma {:induction false} FinalizingIsMarked(op: Op, current: Option<Record>)
    requires !op.Acknowledge? && (IsFinalizing(current) ==> !IsClean(current))
    ensures IsFinalizing(Apply(op, current)) ==> !IsClean(Apply(op, current))
  {
  }

  // ----- the steps -----

  lemma {:induction false} StepStaysCurrent(c: Cohort, s: System, e: Event)
    requires Sized(c, s) && Enabled(c, s, e) && IsCurrent(c, s)
    requires Meets(c, s, e, NotFinalizing) && Meets(c, s, e, OwnArtifacts) && Meets(c, s, e, NewTimes)
    ensures Sized(c, Next(c, s, e)) && IsCurrent(c, Next(c, s, e))
  {
    match e
    case JobStep(job, op) => JobStepStaysCurrent(c, s, job, op);
    case WriteArtifact(job, build) => ArtifactStaysCurrent(c, s, job, build);
    case WriteMetrics => WriteStaysCurrent(c, s);
    case ClearMarkers => ClearStaysCurrent(c, s);
    case _ =>
  }

  lemma {:induction false} JobStepStaysCurrent(c: Cohort, s: System, job: nat, op: Op)
    requires Sized(c, s) && Enabled(c, s, JobStep(job, op)) && IsCurrent(c, s)
    requires Meets(c, s, JobStep(job, op), NewTimes)
    ensures IsCurrent(c, Next(c, s, JobStep(job, op)))
  {
    FinalizingIsMarked(op, s.records[job]);
    if s.refresher.Reading? {
      OperationFollows(op, s.refresher.snapshot[job], s.records[job],
                       IsUntouched(s.refresher.seen, job, Verified(s.files[job], c.tools)));
    }
  }

  lemma {:induction false} ArtifactStaysCurrent(c: Cohort, s: System, job: nat, build: string)
    requires Sized(c, s) && Enabled(c, s, WriteArtifact(job, build)) && IsCurrent(c, s) && IsFinalizing(s.records[job])
    ensures IsCurrent(c, Next(c, s, WriteArtifact(job, build)))
  {
    if s.refresher.Locked? {
      assert s.records[job] != s.refresher.snapshot[job];
    }
  }

  lemma {:induction false} WriteStaysCurrent(c: Cohort, s: System)
    requires Sized(c, s) && Enabled(c, s, WriteMetrics) && IsCurrent(c, s)
    ensures !OnlyArtifactsChanged(c, s, SeenArtifacts(s.refresher.seen, |s.records|))
    ensures IsCurrent(c, Next(c, s, WriteMetrics))
  {
    var snapshot := s.refresher.snapshot;
    forall k: nat | k < |s.records|
      ensures !IsFinalizing(snapshot[k])
      ensures s.records[k] == snapshot[k] ==> s.refresher.seen[k] == Verified(s.files[k], c.tools)
    {
      assert Follows(snapshot[k], s.records[k], IsUntouched(s.refresher.seen, k, Verified(s.files[k], c.tools)));
    }
  }

  lemma {:induction false} ClearStaysCurrent(c: Cohort, s: System)
    requires Sized(c, s) && Enabled(c, s, ClearMarkers) && IsCurrent(c, s)
    ensures IsCurrent(c, Next(c, s, ClearMarkers))
  {
    var next := Next(c, s, ClearMarkers);
    forall k | 0 <= k < |next.records| && IsFinalizing(next.records[k]) ensures !IsClean(next.records[k]) {
      assert s.records[k] != s.refresher.snapshot[k];
    }
  }

  lemma {:induction false} CareLosesNothing(c: Cohort, s: System, e: Event)
    requires Sized(c, s) && Enabled(c, s, e) && IsCurrent(c, s)
    requires Meets(c, s, e, OwnArtifacts) && Meets(c, s, e, MarkerLeft) && Meets(c, s, e, TotalsPublished)
    ensures !Loses(c, s, e)
  {
    match e
    case WriteArtifact(job, build) => assert !IsClean(s.records[job]);
    case WriteMetrics => WriteStaysCurrent(c, s);
    case _ =>
  }

  // ----- whole runs -----

  lemma {:induction false} RunStaysCurrent(c: Cohort, states: seq<System>, events: seq<Event>, k: nat)
    requires IsRun(c, states, events) && k < |states| && NoneFinalizesUnmarked(states[0])
    requires forall j | 0 <= j < k ::
      && Meets(c, states[j], events[j], NotFinalizing) && Meets(c, states[j], events[j], OwnArtifacts)
      && Meets(c, states[j], events[j], NewTimes)
    ensures Sized(c, states[k]) && IsCurrent(c, states[k])
    decreases k
  {
    if k > 0 {
      RunStaysCurrent(c, states, events, k - 1);
      StepStaysCurrent(c, states[k - 1], events[k - 1]);
    }
  }

  /** Main result: in every interleaving of the store's operations, artifact writes, crashes and
      refreshes that meets the five conditions, at every moment: when all markers are clear and all
      artifacts are there, the published metrics are those of exactly these records and artifacts. */
  lemma {:induction false} MarkersAcknowledgeMetrics(c: Cohort, states: seq<System>, events: seq<Event>, k: nat)
    requires IsRun(c, states, events) && k < |states| && NoneFinalizesUnmarked(states[0])
    requires IsCareful(c, states, events, ALL_CARES)
    ensures Inv(c, states[k])
    ensures AllClean(states[k]) && HasAllArtifacts(c, states[k]) ==> Truthful(c, states[k])
  {
    forall j | 0 <= j < k ensures !Loses(c, states[j], events[j]) {
      RunStaysCurrent(c, states, events, j);
      CareLosesNothing(c, states[j], events[j]);
    }
    RunKeepsInv(c, states, events, k);
  }

  /** The converse of NewTimes: metrics are aggregated from an artifact that is not there any more,
      with every record as it was read, only after an operation that repeated a recorded time. */
  lemma {:induction false} StaleOnlyByRepeating(c: Cohort, states: seq<System>, events: seq<Event>, k: nat) returns (m: nat)
    requires IsRun(c, states, events) && k < |states| && NoneFinalizesUnmarked(states[0])
    requires IsCareful(c, states, events, {NotFinalizing, OwnArtifacts})
    requires Sized(c, states[k]) && states[k].refresher.Locked?
    requires OnlyArtifactsChanged(c, states[k], states[k].refresher.aggregated)
    ensures m < k && events[m].JobStep? && states[m].refresher.Reading?
    ensures RepeatsATime(events[m].op, states[m].records[events[m].job], states[m].refresher.snapshot[events[m].job])
  {
    if forall j | 0 <= j < k :: Meets(c, states[j], events[j], NewTimes) {
      RunStaysCurrent(c, states, events, k);
      assert false;
    }
    m :| m < k && !Meets(c, states[m], events[m], NewTimes);
  }

  // ----- when every change is marked -----

  /** Every operation that changes a record sets its marker or finds it set. */
  ghost predicate EveryChangeIsMarked(c: Cohort, states: seq<System>, events: seq<Event>)
    requires IsRun(c, states, events)
  {
    forall k | 0 <= k < |events| && events[k].JobStep? ::
      var now := Apply(events[k].op, states[k].records[events[k].job]);
      now == states[k].records[events[k].job] || !IsClean(now)
  }

  predicate ChangedAreMarked(s: System) {
    s.refresher.Idle? ||
    (|s.records| == |s.refresher.snapshot| &&
      forall k | 0 <= k < |s.records| && s.records[k] != s.refresher.snapshot[k] :: !IsClean(s.records[k]))
  }

  /** Then the other three conditions are enough: a changed record keeps its marker. */
  lemma {:induction false} MarkedChangesAreAcknowledged(c: Cohort, states: seq<System>, events: seq<Event>, k: nat)
    requires IsRun(c, states, events) && k < |states| && NoneFinalizesUnmarked(states[0])
    requires IsCareful(c, states, events, {NotFinalizing, OwnArtifacts, NewTimes}) && EveryChangeIsMarked(c, states, events)
    ensures Inv(c, states[k]) && IsCurrent(c, states[k]) && ChangedAreMarked(states[k])
    decreases k
  {
    if k > 0 {
      var s, e := states[k - 1], events[k - 1];
      MarkedChangesAreAcknowledged(c, states, events, k - 1);
      if e.JobStep? {
        MarkedStepLosesNothing(c, s, e.job, e.op);
      }
      CareLosesNothing(c, s, e);
      StepKeepsInv(c, s, e);
      StepStaysCurrent(c, s, e);
      StepKeepsChangedMarked(c, s, e);
    }
  }

  lemma {:induction false} StepKeepsChangedMarked(c: Cohort, s: System, e: Event)
    requires Sized(c, s) && Enabled(c, s, e) && ChangedAreMarked(s)
    requires e.JobStep? ==>
      Apply(e.op, s.records[e.job]) == s.records[e.job] || !IsClean(Apply(e.op, s.records[e.job]))
    ensures ChangedAreMarked(Next(c, s, e))
  {
  }

  lemma {:induction false} MarkedStepLosesNothing(c: Cohort, s: System, job: nat, op: Op)
    requires Sized(c, s) && Enabled(c, s, JobStep(job, op)) && Acknowledged(c, s)
    requires Apply(op, s.records[job]) == s.records[job] || !IsClean(Apply(op, s.records[job]))
    ensures !Loses(c, s, JobStep(job, op))
  {
    if AllClean(s) && HasAllArtifacts(c, s) && s.records[job].Some? {
      assert IsClean(s.records[job]);
      WhichOperationsSetTheMarker(op, s.records[job].value);
      HoldsInTwo(s.published, c.jobs, s.records, Artifacts(s.files, c.tools), c.cohortId, c.tools);
      if Apply(op, s.records[job]) == s.records[job] {
        assert AfterOperation(s, job, op).records == s.records;
      }
    }
  }
}
