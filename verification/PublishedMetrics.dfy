/** Publishing a model's metrics while its jobs go on: every interleaving of the store's operations,
    artifact writes and one refresher at a time, any of which may die between two steps.
    Records, artifacts and jobs of the model are indexed alike. */
module PublishedMetrics {
  import opened Options
  import opened LedgerRecords
  import opened BenchmarkMetrics
  import opened MetricsAggregate

  /** Where the refresher is: it reads the ledger, then one artifact after the other without
      the lock; then, holding the lock, it writes the metrics and after that the markers. */
  datatype Refresher =
    | Idle
    | Reading(snapshot: seq<Option<Record>>, previous: Option<Metrics>, seen: map<nat, Option<Artifact>>)
    | Locked(snapshot: seq<Option<Record>>, aggregated: seq<Option<Artifact>>)

  datatype System = System(
    records: seq<Option<Record>>,
    files: seq<Option<string>>,
    published: Option<Metrics>,
    refresher: Refresher)

  datatype Event =
    | JobStep(job: nat, op: Op)
    | WriteArtifact(job: nat, build: string)
    | BeginRefresh
    | ReadArtifact(job: nat)
    | WriteMetrics
    | ClearMarkers
    | RefresherDies

  datatype Cohort = Cohort(jobs: seq<Job>, cohortId: string, tools: Tools)

  predicate IsFinalizing(current: Option<Record>) {
    current.Some? && current.value.state == Finalizing
  }

  /** Every operation of the store on a record in any state, whatever a reconcile finds. */
  predicate Enabled(c: Cohort, s: System, e: Event)
    requires |s.records| == |s.files|
  {
    match e
    case JobStep(job, op) => job < |s.records| && !s.refresher.Locked? && !op.Acknowledge?
    case WriteArtifact(job, build) => job < |s.files|
    case BeginRefresh => s.refresher.Idle?
    case ReadArtifact(job) => s.refresher.Reading? && job < |s.records|
    case WriteMetrics => s.refresher.Reading? && forall k | 0 <= k < |s.records| :: k in s.refresher.seen
    case ClearMarkers => s.refresher.Locked?
    case RefresherDies => true
  }

  function SeenArtifacts(seen: map<nat, Option<Artifact>>, n: nat): seq<Option<Artifact>>
    requires forall k | 0 <= k < n :: k in seen
  {
    seq(n, k requires 0 <= k < n => seen[k])
  }

  function Artifacts(files: seq<Option<string>>, tools: Tools): seq<Option<Artifact>> {
    seq(|files|, k requires 0 <= k < |files| => Verified(files[k], tools))
  }

  /** The entry the refresher would publish; None when it has nothing new to publish. */
  function Update(c: Cohort, snapshot: seq<Option<Record>>, previous: Option<Metrics>, seen: seq<Option<Artifact>>): Option<Metrics>
    requires |c.jobs| == |snapshot| == |seen|
  {
    if !IsComplete(seen) then None
    else
      var next := NextMetrics(previous, c.jobs, snapshot, seen, c.cohortId, c.tools);
      if previous == Some(next) then None else Some(next)
  }

  /** Dirty markers of the records that are still those of the snapshot are cleared. */
  function Cleared(records: seq<Option<Record>>, snapshot: seq<Option<Record>>): seq<Option<Record>>
    requires |records| == |snapshot|
  {
    seq(|records|, k requires 0 <= k < |records| =>
      if records[k].Some? && records[k].value.generatedMetricsDirty != Some(false) && records[k] == snapshot[k]
      then Some(records[k].value.(generatedMetricsDirty := Some(false)))
      else records[k])
  }

  predicate Sized(c: Cohort, s: System) {
    && |s.records| == |s.files| == |c.jobs|
    && (s.refresher.Idle? || |s.refresher.snapshot| == |c.jobs|)
    && (s.refresher.Locked? ==> |s.refresher.aggregated| == |c.jobs|)
  }

  /** The state after an operation on one record. */
  function AfterOperation(s: System, j: nat, op: Op): System
    requires j < |s.records|
  {
    s.(records := s.records[j := Apply(op, s.records[j])])
  }

  function Next(c: Cohort, s: System, e: Event): System
    requires Sized(c, s) && Enabled(c, s, e)
  {
    match e
    case JobStep(job, op) => AfterOperation(s, job, op)
    case WriteArtifact(job, build) => s.(files := s.files[job := Some(build)])
    case BeginRefresh => s.(refresher := Reading(s.records, s.published, map[]))
    case ReadArtifact(job) =>
      s.(refresher := s.refresher.(seen := s.refresher.seen[job := Verified(s.files[job], c.tools)]))
    case WriteMetrics =>
      var snapshot, seen := s.refresher.snapshot, SeenArtifacts(s.refresher.seen, |s.records|);
      var update := Update(c, snapshot, s.refresher.previous, seen);
      s.(published := if update.Some? && s.records == snapshot then update else s.published,
         refresher := Locked(snapshot, seen))
    case ClearMarkers => s.(records := Cleared(s.records, s.refresher.snapshot), refresher := Idle)
    case RefresherDies => s.(refresher := Idle)
  }

  // ----- what the markers promise -----

  predicate IsClean(current: Option<Record>) {
    current.Some? ==> current.value.generatedMetricsDirty == Some(false)
  }

  /** The marker says that the generated metrics do not know this record yet. */
  predicate IsMarked(current: Option<Record>) {
    current.Some? && current.value.generatedMetricsDirty == Some(true)
  }

  /** The published entry holds the aggregate of exactly the present records and artifacts. */
  predicate Truthful(c: Cohort, s: System)
    requires Sized(c, s)
  {
    Holds(s.published, c.jobs, s.records, Artifacts(s.files, c.tools), c.cohortId, c.tools)
  }

  predicate HasARecord(s: System) {
    exists k | 0 <= k < |s.records| :: s.records[k].Some?
  }

  predicate AllClean(s: System) {
    && HasARecord(s)
    && (forall k | 0 <= k < |s.records| :: IsClean(s.records[k]))
  }

  predicate HasAllArtifacts(c: Cohort, s: System) {
    IsComplete(Artifacts(s.files, c.tools))
  }

  /** The promise: when all markers are clear and all artifacts are there, the entry is true. */
  predicate Acknowledged(c: Cohort, s: System)
    requires Sized(c, s)
  {
    AllClean(s) && HasAllArtifacts(c, s) ==> Truthful(c, s)
  }

  /** A refresh of what is there would have something to publish. */
  predicate IsDue(c: Cohort, s: System)
    requires Sized(c, s)
  {
    Update(c, s.records, s.published, Artifacts(s.files, c.tools)).Some?
  }

  lemma {:induction false} DueMeansUntrue(c: Cohort, s: System)
    requires Sized(c, s)
    ensures IsDue(c, s) <==> HasAllArtifacts(c, s) && !Truthful(c, s)
  {
  }

  // ----- the steps that break it -----

  /** The operations that set the marker of a record that was clear: an accepted run, both ends of
      a finalization, and a reconcile that changes something. All others carry it along. */
  predicate SetsTheMarker(op: Op, r: Record) {
    match op
    case Run(pid, alive, _) => !IsActiveElsewhere(r, pid, alive)
    case Recover(_, _, _, _, _) => Apply(op, Some(r)) != Some(r)
    case StartFinalize(_, _, _) => true
    case EndFinalize(_, _) => true
    case _ => false
  }

  /** Records have changed since the snapshot, but none that is marked, so that all markers go. */
  predicate OnlyCleanOnesChanged(s: System)
    requires !s.refresher.Idle? && |s.records| == |s.refresher.snapshot|
  {
    && s.records != s.refresher.snapshot
    && forall k | 0 <= k < |s.records| && s.records[k] != s.refresher.snapshot[k] :: IsClean(s.records[k])
  }

  /** No record has changed, but an artifact is not the one that was read. */
  predicate OnlyArtifactsChanged(c: Cohort, s: System, seen: seq<Option<Artifact>>)
    requires !s.refresher.Idle?
  {
    s.records == s.refresher.snapshot && Artifacts(s.files, c.tools) != seen
  }

  /** The steps after which all markers are clear and the entry is not true. An operation on one
      of a complete cohort's records, none of which is marked, that sets no marker and leaves a
      total that is not published; an artifact written, or metrics written from an artifact that
      has changed since, while the finalizing record has lost its marker; and clearing the markers
      when only clean records or only artifacts have changed while something is due. */
  predicate Loses(c: Cohort, s: System, e: Event)
    requires Sized(c, s) && Enabled(c, s, e)
  {
    match e
    case JobStep(job, op) =>
      && AllClean(s) && HasAllArtifacts(c, s)
      && s.records[job].Some? && !SetsTheMarker(op, s.records[job].value)
      && !CountersHold(s.published, AfterOperation(s, job, op).records)
    case WriteArtifact(job, build) => AllClean(s) && IsDue(c, Next(c, s, e))
    case WriteMetrics =>
      && AllClean(s) && OnlyArtifactsChanged(c, s, SeenArtifacts(s.refresher.seen, |s.records|))
      && IsDue(c, Next(c, s, e))
    case ClearMarkers =>
      && HasARecord(s)
      && (OnlyCleanOnesChanged(s) || OnlyArtifactsChanged(c, s, s.refresher.aggregated))
      && IsDue(c, s)
    case _ => false
  }

  // ----- the invariant -----

  predicate Inv(c: Cohort, s: System) {
    Sized(c, s) && Acknowledged(c, s) && Remembers(c, s)
  }

  /** The entry is the one the refresher has read; and while no record has changed since, what has
      been written holds for the artifacts it has read. */
  predicate Remembers(c: Cohort, s: System)
    requires Sized(c, s)
  {
    match s.refresher
    case Idle => true
    case Reading(_, previous, _) => previous == s.published
    case Locked(snapshot, aggregated) =>
      s.records == snapshot && IsComplete(aggregated) ==>
        Holds(s.published, c.jobs, snapshot, aggregated, c.cohortId, c.tools)
  }

  // ----- one operation -----

  lemma {:induction false} WhichOperationsSetTheMarker(op: Op, r: Record)
    requires IsClean(Some(r)) && !op.Acknowledge?
    ensures Apply(op, Some(r)).Some?
    ensures IsMarked(Apply(op, Some(r))) <==> SetsTheMarker(op, r)
    ensures !SetsTheMarker(op, r) ==> IsClean(Apply(op, Some(r))) && SameSample(Apply(op, Some(r)), Some(r))
  {
  }

  /** An operation removes no record, and clears no marker. */
  lemma {:induction false} OperationsClearNothing(op: Op, current: Option<Record>)
    requires !op.Acknowledge?
    ensures current.Some? ==> Apply(op, current).Some?
    ensures Apply(op, current).Some? && IsClean(Apply(op, current)) ==> current.Some? && IsClean(current)
  {
  }

  lemma {:induction false} AllWereClean(s: System, j: nat, op: Op)
    requires j < |s.records| && !op.Acknowledge? && AllClean(AfterOperation(s, j, op))
    ensures AllClean(s)
  {
    var next := AfterOperation(s, j, op);
    OperationsClearNothing(op, s.records[j]);
    var k :| 0 <= k < |next.records| && next.records[k].Some?;
    assert IsClean(next.records[k]) && s.records[k].Some?;
    forall i | 0 <= i < |s.records| ensures IsClean(s.records[i]) {
      assert IsClean(next.records[i]);
    }
  }

  /** From a state with clear markers, all artifacts and a true entry. */
  lemma {:induction false} UnmarkedOperation(c: Cohort, s: System, j: nat, op: Op)
    requires Sized(c, s) && AllClean(s) && Truthful(c, s) && j < |s.records| && !op.Acknowledge?
    requires s.records[j].Some? && !SetsTheMarker(op, s.records[j].value)
    ensures
      var next := AfterOperation(s, j, op);
      AllClean(next) && (Truthful(c, next) <==> CountersHold(s.published, next.records))
  {
    var next, artifacts := AfterOperation(s, j, op), Artifacts(s.files, c.tools);
    assert IsClean(s.records[j]);
    WhichOperationsSetTheMarker(op, s.records[j].value);
    assert next.records[j].Some?;
    ApartOfSameSamples(s.published, c.jobs, s.records, next.records, artifacts, c.cohortId, c.tools);
    HoldsInTwo(s.published, c.jobs, s.records, artifacts, c.cohortId, c.tools);
    HoldsInTwo(s.published, c.jobs, next.records, artifacts, c.cohortId, c.tools);
  }

  // ----- the steps -----

  lemma {:induction false} JobStepLosesExactlyWhen(c: Cohort, s: System, job: nat, op: Op)
    requires Inv(c, s) && Enabled(c, s, JobStep(job, op))
    ensures Acknowledged(c, Next(c, s, JobStep(job, op))) <==> !Loses(c, s, JobStep(job, op))
  {
    var next := Next(c, s, JobStep(job, op));
    if AllClean(next) {
      AllWereClean(s, job, op);
    }
    if AllClean(s) && HasAllArtifacts(c, s) {
      assert IsClean(s.records[job]);
      if s.records[job].None? {
        MissingRecordIsSeen(s, job, op);
      } else if SetsTheMarker(op, s.records[job].value) {
        WhichOperationsSetTheMarker(op, s.records[job].value);
        assert !IsClean(next.records[job]);
      } else {
        UnmarkedOperation(c, s, job, op);
      }
    }
  }

  /** An operation on a job that has no record makes none, or one that is not clean. */
  lemma {:induction false} MissingRecordIsSeen(s: System, j: nat, op: Op)
    requires j < |s.records| && s.records[j].None? && !op.Acknowledge?
    ensures
      var next := AfterOperation(s, j, op);
      next == s || !AllClean(next)
  {
    var next := AfterOperation(s, j, op);
    OperationsClearNothing(op, None);
    assert next.records[j] == Apply(op, None);
    if next.records[j].None? {
      assert next.records == s.records;
    } else {
      assert !IsClean(next.records[j]);
    }
  }

  /** Whether the entry is replaced or kept, it then holds. */
  lemma {:induction false} WrittenHolds(c: Cohort, snapshot: seq<Option<Record>>, previous: Option<Metrics>, seen: seq<Option<Artifact>>)
    requires |c.jobs| == |snapshot| == |seen| && IsComplete(seen)
    ensures
      var update := Update(c, snapshot, previous, seen);
      Holds(if update.Some? then update else previous, c.jobs, snapshot, seen, c.cohortId, c.tools)
  {
    PublishedHolds(previous, c.jobs, snapshot, seen, c.cohortId, c.tools);
  }

  /** When what was read is still there, the entry is true after the write. */
  lemma {:induction false} WriteIsTruthful(c: Cohort, s: System)
    requires Inv(c, s) && Enabled(c, s, WriteMetrics) && s.records == s.refresher.snapshot
    requires Artifacts(s.files, c.tools) == SeenArtifacts(s.refresher.seen, |s.records|) && HasAllArtifacts(c, s)
    ensures Truthful(c, Next(c, s, WriteMetrics))
  {
    WrittenHolds(c, s.refresher.snapshot, s.published, Artifacts(s.files, c.tools));
  }

  lemma {:induction false} WriteLosesExactlyWhen(c: Cohort, s: System)
    requires Inv(c, s) && Enabled(c, s, WriteMetrics)
    ensures Acknowledged(c, Next(c, s, WriteMetrics)) <==> !Loses(c, s, WriteMetrics)
  {
    var next, seen := Next(c, s, WriteMetrics), SeenArtifacts(s.refresher.seen, |s.records|);
    DueMeansUntrue(c, next);
    assert AllClean(next) <==> AllClean(s);
    if s.records == s.refresher.snapshot && Artifacts(s.files, c.tools) == seen && HasAllArtifacts(c, s) {
      WriteIsTruthful(c, s);
    }
  }

  /** The records agree in all that is aggregated: the counters and the sample. */
  predicate SameMeasures(a: Option<Record>, b: Option<Record>) {
    SameSample(a, b) && (a.Some? ==> a.value.counters == b.value.counters)
  }

  lemma {:induction false} SumOfSameMeasures(a: seq<Option<Record>>, b: seq<Option<Record>>, counter: Counters -> Option<int>)
    requires |a| == |b|
    requires forall k | 0 <= k < |a| :: SameMeasures(a[k], b[k])
    ensures Sum(a, counter) == Sum(b, counter) && TrackingJobCount(a, counter) == TrackingJobCount(b, counter)
    decreases |a|
  {
    if a != [] {
      SumOfSameMeasures(a[..|a| - 1], b[..|b| - 1], counter);
    }
  }

  lemma {:induction false} HoldsForSameMeasures(published: Option<Metrics>, c: Cohort, a: seq<Option<Record>>, b: seq<Option<Record>>,
                            artifacts: seq<Option<Artifact>>)
    requires |c.jobs| == |a| == |b| == |artifacts|
    requires forall k | 0 <= k < |a| :: SameMeasures(a[k], b[k])
    ensures Holds(published, c.jobs, a, artifacts, c.cohortId, c.tools)
         == Holds(published, c.jobs, b, artifacts, c.cohortId, c.tools)
  {
    GatherOfSameSamples(c.jobs, a, b, artifacts, c.tools);
    SumOfSameMeasures(a, b, (x: Counters) => x.providerCallCount);
    SumOfSameMeasures(a, b, (x: Counters) => x.completedAttemptCount);
    SumOfSameMeasures(a, b, (x: Counters) => x.rejectedResponseCount);
    SumOfSameMeasures(a, b, (x: Counters) => x.failedAttemptCount);
    SumOfSameMeasures(a, b, (x: Counters) => x.failedRunCount);
    SumOfSameMeasures(a, b, (x: Counters) => x.interruptedRunCount);
  }

  /** Clearing markers changes nothing that is aggregated. */
  lemma {:induction false} ClearingChangesNoMeasure(c: Cohort, s: System)
    requires Sized(c, s) && s.refresher.Locked?
    ensures Truthful(c, s) <==> Truthful(c, Next(c, s, ClearMarkers))
  {
    HoldsForSameMeasures(s.published, c, s.records, Cleared(s.records, s.refresher.snapshot), Artifacts(s.files, c.tools));
  }

  /** All markers are clear afterwards exactly when every record that has changed is clean. */
  lemma {:induction false} ClearsAllExactlyWhen(c: Cohort, s: System)
    requires Sized(c, s) && s.refresher.Locked?
    ensures AllClean(Next(c, s, ClearMarkers)) <==>
      HasARecord(s) && (s.records == s.refresher.snapshot || OnlyCleanOnesChanged(s))
  {
    var next := Next(c, s, ClearMarkers);
    forall k | 0 <= k < |s.records|
      ensures next.records[k].Some? == s.records[k].Some?
      ensures IsClean(next.records[k]) <==> s.records[k] == s.refresher.snapshot[k] || IsClean(s.records[k])
    {
    }
    if HasARecord(s) {
      var k :| 0 <= k < |s.records| && s.records[k].Some?;
      assert next.records[k].Some?;
    }
  }

  lemma {:induction false} ClearLosesExactlyWhen(c: Cohort, s: System)
    requires Inv(c, s) && Enabled(c, s, ClearMarkers)
    ensures Acknowledged(c, Next(c, s, ClearMarkers)) <==> !Loses(c, s, ClearMarkers)
  {
    ClearsAllExactlyWhen(c, s);
    ClearingChangesNoMeasure(c, s);
    DueMeansUntrue(c, s);
  }

  /** Main result on one step: the promise is kept exactly by the steps that do not lose. */
  lemma {:induction false} StepLosesExactlyWhen(c: Cohort, s: System, e: Event)
    requires Inv(c, s) && Enabled(c, s, e)
    ensures Acknowledged(c, Next(c, s, e)) <==> !Loses(c, s, e)
  {
    match e
    case JobStep(job, op) => JobStepLosesExactlyWhen(c, s, job, op);
    case WriteArtifact(job, build) => DueMeansUntrue(c, Next(c, s, e));
    case WriteMetrics => WriteLosesExactlyWhen(c, s);
    case ClearMarkers => ClearLosesExactlyWhen(c, s);
    case _ =>
  }

  lemma {:induction false} StepRemembers(c: Cohort, s: System, e: Event)
    requires Sized(c, s) && Remembers(c, s) && Enabled(c, s, e)
    ensures Sized(c, Next(c, s, e)) && Remembers(c, Next(c, s, e))
  {
    match e
    case JobStep(job, op) => OperationsClearNothing(op, s.records[job]);
    case WriteMetrics => WriteRemembers(c, s);
    case _ =>
  }

  lemma {:induction false} WriteRemembers(c: Cohort, s: System)
    requires Sized(c, s) && Remembers(c, s) && Enabled(c, s, WriteMetrics)
    ensures Remembers(c, Next(c, s, WriteMetrics))
  {
    var seen := SeenArtifacts(s.refresher.seen, |s.records|);
    if IsComplete(seen) {
      WrittenHolds(c, s.refresher.snapshot, s.published, seen);
    }
  }

  lemma {:induction false} StepKeepsInv(c: Cohort, s: System, e: Event)
    requires Inv(c, s) && Enabled(c, s, e) && !Loses(c, s, e)
    ensures Inv(c, Next(c, s, e))
  {
    StepLosesExactlyWhen(c, s, e);
    StepRemembers(c, s, e);
  }

  // ----- whole runs -----

  /** Any ledger, artifacts and metrics for which the promise holds; an empty ledger is one. */
  predicate Initial(c: Cohort, s: System) {
    Sized(c, s) && s.refresher.Idle? && Acknowledged(c, s)
  }

  /** `states` is a run of the system: each state follows the one before by an enabled event. */
  ghost predicate IsRun(c: Cohort, states: seq<System>, events: seq<Event>) {
    && |states| == |events| + 1
    && Initial(c, states[0])
    && forall k | 0 <= k < |events| ::
         && Sized(c, states[k]) && Enabled(c, states[k], events[k])
         && states[k + 1] == Next(c, states[k], events[k])
  }

  lemma {:induction false} RunKeepsInv(c: Cohort, states: seq<System>, events: seq<Event>, k: nat)
    requires IsRun(c, states, events) && k < |states|
    requires forall j | 0 <= j < k :: !Loses(c, states[j], events[j])
    ensures Inv(c, states[k])
    decreases k
  {
    if k > 0 {
      RunKeepsInv(c, states, events, k - 1);
      StepKeepsInv(c, states[k - 1], events[k - 1]);
    }
  }

  /** Main result, exactly: in every interleaving of all these steps, the promise holds in every
      state if and only if no step loses. */
  lemma {:induction false} AcknowledgedThroughoutExactlyWhen(c: Cohort, states: seq<System>, events: seq<Event>)
    requires IsRun(c, states, events)
    ensures (forall k | 0 <= k < |states| :: Sized(c, states[k]) && Acknowledged(c, states[k]))
       <==> (forall k | 0 <= k < |events| :: !Loses(c, states[k], events[k]))
  {
    if forall k | 0 <= k < |events| :: !Loses(c, states[k], events[k]) {
      forall k | 0 <= k < |states| ensures Sized(c, states[k]) && Acknowledged(c, states[k]) {
        RunKeepsInv(c, states, events, k);
      }
    }
    if forall k | 0 <= k < |states| :: Sized(c, states[k]) && Acknowledged(c, states[k]) {
      forall k | 0 <= k < |events| ensures !Loses(c, states[k], events[k]) {
        NoneLosesBefore(c, states, events, k + 1);
      }
    }
  }

  lemma {:induction false} NoneLosesBefore(c: Cohort, states: seq<System>, events: seq<Event>, n: nat)
    requires IsRun(c, states, events) && n <= |events|
    requires forall k | 0 <= k < |states| :: Sized(c, states[k]) && Acknowledged(c, states[k])
    ensures forall k | 0 <= k < n :: !Loses(c, states[k], events[k])
    decreases n
  {
    if n > 0 {
      NoneLosesBefore(c, states, events, n - 1);
      RunKeepsInv(c, states, events, n - 1);
      StepLosesExactlyWhen(c, states[n - 1], events[n - 1]);
      assert Acknowledged(c, states[n]);
    }
  }

  lemma {:induction false} RunRemembers(c: Cohort, states: seq<System>, events: seq<Event>, k: nat)
    requires IsRun(c, states, events) && k < |states|
    ensures Sized(c, states[k]) && Remembers(c, states[k])
    decreases k
  {
    if k > 0 {
      RunRemembers(c, states, events, k - 1);
      StepRemembers(c, states[k - 1], events[k - 1]);
    }
  }

  /** In every run a refresh that finds incomplete provenance keeps the cohort measured before, but for
      a first count of the timed samples. */
  lemma {:induction false} PartialRefreshKeepsCohort(c: Cohort, states: seq<System>, events: seq<Event>, k: nat)
    requires IsRun(c, states, events) && k < |events| && events[k].WriteMetrics? && states[k].published.Some?
    requires
      var s := states[k];
      !AllHaveProvenance(c.jobs, s.refresher.snapshot, SeenArtifacts(s.refresher.seen, |s.records|), c.tools)
    ensures states[k + 1].published.Some?
    ensures
      var before, after := states[k].published.value.cohort, states[k + 1].published.value.cohort;
      && after == before.(inferenceSampleCount := after.inferenceSampleCount)
      && (before.inferenceSampleCount.Some? ==> after == before)
  {
    RunRemembers(c, states, events, k);
    var s := states[k];
    PartialProvenanceKeepsCohort(s.published.value, c.jobs, s.refresher.snapshot,
                                 SeenArtifacts(s.refresher.seen, |s.records|), c.cohortId, c.tools);
  }

  /** A refresher may die at any time; it leaves everything as it is, and another may begin. */
  lemma {:induction false} RefresherMayDie(c: Cohort, s: System)
    requires Sized(c, s)
    ensures Enabled(c, s, RefresherDies) && Next(c, s, RefresherDies) == s.(refresher := Idle)
    ensures Enabled(c, Next(c, s, RefresherDies), BeginRefresh)
  {
  }

  /** Only ClearMarkers clears a marker; it holds the lock and writes no metrics. */
  lemma {:induction false} MarkersFollowTheWrite(c: Cohort, states: seq<System>, events: seq<Event>, k: nat, j: nat)
    requires IsRun(c, states, events) && k < |events|
    requires j < |states[k].records| && j < |states[k + 1].records|
    requires states[k + 1].records[j].Some? && IsClean(states[k + 1].records[j])
    requires !(states[k].records[j].Some? && IsClean(states[k].records[j]))
    ensures events[k].ClearMarkers? && states[k].refresher.Locked?
    ensures states[k + 1].published == states[k].published
    ensures states[k].records[j] == states[k].refresher.snapshot[j]
    ensures Truthful(c, states[k]) <==> Truthful(c, states[k + 1])
  {
    match events[k]
    case JobStep(job, op) => OperationsClearNothing(op, states[k].records[job]);
    case ClearMarkers => ClearingChangesNoMeasure(c, states[k]);
    case _ =>
  }

  // ----- the methods behind the refresher's steps -----

  /** The ledger's records of one model, and its entry in the generated metrics. */
  class Publisher {
    var records: seq<Option<Record>>
    var published: Option<Metrics>

    constructor (records: seq<Option<Record>>, published: Option<Metrics>)
      ensures this.records == records && this.published == published
    {
      this.records, this.published := records, published;
    }

    /** persistGeneratedMetrics, by a process that dies after `writes` of its two durable writes:
        the metrics, and then the markers. These are the steps WriteMetrics and ClearMarkers. */
    method PersistGeneratedMetrics(snapshot: seq<Option<Record>>, update: Option<Metrics>, writes: nat)
      requires |records| == |snapshot|
      modifies this
      ensures published == if writes >= 1 && update.Some? && old(records) == snapshot then update else old(published)
      ensures records == if writes >= 2 then Cleared(old(records), snapshot) else old(records)
    {
      if writes < 1 {
        return;
      }
      var stale := false;
      for k := 0 to |records|
        invariant records == old(records) && published == old(published)
        invariant stale <==> exists j | 0 <= j < k :: records[j] != snapshot[j]
      {
        if records[k] != snapshot[k] {
          stale := true;
        }
      }
      if update.Some? && !stale && published != update {
        published := update;
      }
      if writes < 2 {
        return;
      }
      var ledger := records;
      for k := 0 to |records|
        invariant records == old(records) && |ledger| == |records|
        invariant published == if update.Some? && old(records) == snapshot then update else old(published)
        invariant forall j | 0 <= j < |records| ::
          ledger[j] == if j < k then Cleared(records, snapshot)[j] else records[j]
      {
        if records[k].Some? && records[k].value.generatedMetricsDirty != Some(false) && records[k] == snapshot[k] {
          ledger := ledger[k := Some(records[k].value.(generatedMetricsDirty := Some(false)))];
        }
      }
      records := ledger;
    }

    /** refreshGeneratedMetrics, undisturbed: on a complete cohort it publishes the aggregate of
        exactly these records and artifacts and leaves no marker; on an incomplete one it
        publishes nothing. */
    method RefreshGeneratedMetrics(c: Cohort, files: seq<Option<string>>)
      requires |records| == |files| == |c.jobs|
      modifies this
      ensures IsComplete(Artifacts(files, c.tools)) ==>
        Holds(published, c.jobs, old(records), Artifacts(files, c.tools), c.cohortId, c.tools)
      ensures !IsComplete(Artifacts(files, c.tools)) ==> published == old(published)
      ensures records == Cleared(old(records), old(records)) && forall k | 0 <= k < |records| :: IsClean(records[k])
    {
      var snapshot, previous := records, published;
      var artifacts: seq<Option<Artifact>> := [];
      for k := 0 to |files|
        invariant artifacts == Artifacts(files, c.tools)[..k]
      {
        artifacts := artifacts + [Verified(files[k], c.tools)];
      }
      assert artifacts == Artifacts(files, c.tools);
      PublishedHolds(previous, c.jobs, snapshot, artifacts, c.cohortId, c.tools);
      PersistGeneratedMetrics(snapshot, Update(c, snapshot, previous, artifacts), 2);
    }
  }
}
