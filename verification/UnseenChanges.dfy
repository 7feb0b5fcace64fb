/** Runs that keep four of the five conditions and break the promise of the markers, so that none
    of the five can be left out; and the refresh that puts everything right again. */
module UnseenChanges {
  import opened Options
  import opened LedgerRecords
  import opened BenchmarkMetrics
  import opened MetricsAggregate
  import opened PublishedMetrics
  import opened CarefulRefresh
  import opened JobHistory
  import opened Averages
  import LateOperations

  ghost predicate IsCarefulRun(c: Cohort, states: seq<System>, events: seq<Event>, cares: set<Care>) {
    && IsRun(c, states, events) && IsCareful(c, states, events, cares)
    && Sized(c, Last(states))
  }

  function Last(states: seq<System>): System
    requires states != []
  {
    states[|states| - 1]
  }

  /** One step more. */
  lemma {:induction false} Extend(c: Cohort, states: seq<System>, events: seq<Event>, e: Event, cares: set<Care>)
    returns (states': seq<System>, events': seq<Event>)
    requires IsCarefulRun(c, states, events, cares)
    requires Enabled(c, Last(states), e) && forall care | care in cares :: Meets(c, Last(states), e, care)
    ensures IsCarefulRun(c, states', events', cares)
    ensures Last(states') == Next(c, Last(states), e)
  {
    states', events' := states + [Next(c, Last(states), e)], events + [e];
    NextIsSized(c, Last(states), e);
  }

  lemma {:induction false} NextIsSized(c: Cohort, s: System, e: Event)
    requires Sized(c, s) && Enabled(c, s, e)
    ensures Sized(c, Next(c, s, e))
  {
  }

  // ----- a refresh that nothing disturbs -----

  lemma {:induction false} ReadArtifacts(c: Cohort, states: seq<System>, events: seq<Event>, n: nat)
    returns (states': seq<System>, events': seq<Event>)
    requires IsCarefulRun(c, states, events, ALL_CARES)
    requires Last(states).refresher.Reading? && n <= |Last(states).files|
    ensures IsCarefulRun(c, states', events', ALL_CARES)
    ensures
      var s, end := Last(states), Last(states');
      && end.refresher.Reading? && end == s.(refresher := s.refresher.(seen := end.refresher.seen))
      && forall k: nat | k < n :: k in end.refresher.seen && end.refresher.seen[k] == Verified(s.files[k], c.tools)
    decreases n
  {
    if n == 0 {
      states', events' := states, events;
    } else {
      states', events' := ReadArtifacts(c, states, events, n - 1);
      states', events' := Extend(c, states', events', ReadArtifact(n - 1), ALL_CARES);
    }
  }

  /** Wherever a run has come to, a refresh that begins while no job is finalizing, and that nothing
      disturbs, clears all markers and, when all artifacts are there, makes the entry true. */
  lemma {:induction false} RefreshCatchesUp(c: Cohort, states: seq<System>, events: seq<Event>)
    returns (states': seq<System>, events': seq<Event>)
    requires IsCarefulRun(c, states, events, ALL_CARES) && Last(states).refresher.Idle?
    requires forall k | 0 <= k < |Last(states).records| :: !IsFinalizing(Last(states).records[k])
    ensures IsCarefulRun(c, states', events', ALL_CARES)
    ensures
      var s, end := Last(states), Last(states');
      && end.files == s.files && end.refresher.Idle?
      && end.records == Cleared(s.records, s.records)
      && (HasAllArtifacts(c, end) ==> Truthful(c, end))
      && (!HasAllArtifacts(c, end) ==> end.published == s.published)
  {
    var s := Last(states);
    states', events' := Extend(c, states, events, BeginRefresh, ALL_CARES);
    states', events' := ReadArtifacts(c, states', events', |s.files|);
    var read := Last(states');
    assert SeenArtifacts(read.refresher.seen, |s.records|) == Artifacts(s.files, c.tools);
    states', events' := Extend(c, states', events', WriteMetrics, ALL_CARES);
    WrittenIsTrue(c, read);
    ClearingChangesNoMeasure(c, Last(states'));
    states', events' := Extend(c, states', events', ClearMarkers, ALL_CARES);
  }

  lemma {:induction false} WrittenIsTrue(c: Cohort, s: System)
    requires Sized(c, s) && Enabled(c, s, WriteMetrics)
    requires s.records == s.refresher.snapshot && s.refresher.previous == s.published
    requires SeenArtifacts(s.refresher.seen, |s.records|) == Artifacts(s.files, c.tools)
    ensures
      var next := Next(c, s, WriteMetrics);
      && (HasAllArtifacts(c, s) ==> Truthful(c, next))
      && (!HasAllArtifacts(c, s) ==> next.published == s.published)
  {
    if HasAllArtifacts(c, s) {
      WrittenHolds(c, s.records, s.published, Artifacts(s.files, c.tools));
    }
  }

  // ----- the runs -----

  /** A cohort whose builds all parse, with two digests. */
  function CohortOf(jobs: seq<Job>): Cohort {
    Cohort.Cohort(jobs, "cohort", Tools(DigestOf, (s: string) => |s|, (s: string) => true))
  }

  function DigestOf(text: string): string {
    seq(64, k => if text == "build" then '0' else '1')
  }

  function Measured(build: string): Sample {
    Sample(0, |build|, DigestOf(build), 1, None, None)
  }

  /** The run breaks the promise in its last state, and keeps all conditions but one. */
  ghost predicate GoesUnseen(c: Cohort, states: seq<System>, events: seq<Event>, broken: Care) {
    IsCarefulRun(c, states, events, ALL_CARES - {broken}) && !Acknowledged(c, Last(states))
  }

  function NoRecords(files: seq<Option<string>>): System {
    System(seq(|files|, k => None), files, None, Idle)
  }

  lemma {:induction false} EmptyRun(c: Cohort, files: seq<Option<string>>) returns (states: seq<System>, events: seq<Event>)
    requires |files| == |c.jobs|
    ensures IsCarefulRun(c, states, events, ALL_CARES) && Last(states) == NoRecords(files)
  {
    states, events := [NoRecords(files)], [];
  }

  lemma {:induction false} FewerCares(c: Cohort, states: seq<System>, events: seq<Event>, cares: set<Care>)
    requires IsCarefulRun(c, states, events, ALL_CARES) && cares <= ALL_CARES
    ensures IsCarefulRun(c, states, events, cares)
  {
  }

  lemma {:induction false} AllParse(c: Cohort, s: System)
    requires c == CohortOf(c.jobs) && |s.files| > 0
    requires forall k | 0 <= k < |s.files| :: s.files[k].Some? && |s.files[k].value| > 4
    ensures HasAllArtifacts(c, s)
  {
    forall k | 0 <= k < |s.files| ensures Verified(s.files[k], c.tools).Some? {
    }
  }

  // ----- TotalsPublished is needed -----

  /** The job is started, and interrupted by a stop signal. */
  lemma {:induction false} StoppedJob(c: Cohort) returns (states: seq<System>, events: seq<Event>)
    requires |c.jobs| == 1
    ensures IsCarefulRun(c, states, events, ALL_CARES)
    ensures
      var end := Last(states);
      && end.records[0].Some? && end.records[0].value.state == Interrupted && AllTracked(end.records[0].value.counters)
      && end.files == [Some("build")] && end.refresher.Idle?
  {
    states, events := EmptyRun(c, [Some("build")]);
    states, events := Extend(c, states, events, JobStep(0, Run(7, {7}, 0)), ALL_CARES);
    states, events := Extend(c, states, events, JobStep(0, Interrupt("Interrupted by SIGINT.", 0)), ALL_CARES);
  }

  lemma {:induction false} SettledJob(c: Cohort) returns (states: seq<System>, events: seq<Event>)
    requires |c.jobs| == 1 && c == CohortOf(c.jobs)
    ensures IsCarefulRun(c, states, events, ALL_CARES)
    ensures LateOperations.IsSettled(c, Last(states)) && Last(states).refresher.Idle?
    ensures Last(states).records[0].Some?
  {
    states, events := StoppedJob(c);
    AllParse(c, Last(states));
    states, events := RefreshCatchesUp(c, states, events);
    OneRecordIsSettled(c, Last(states));
  }

  lemma {:induction false} OneRecordIsSettled(c: Cohort, s: System)
    requires Sized(c, s) && HasAllArtifacts(c, s) && Truthful(c, s)
    requires |s.records| == 1 && s.records[0].Some? && IsClean(s.records[0]) && AllTracked(s.records[0].value.counters)
    ensures LateOperations.IsSettled(c, s)
  {
    OneRecordIsClean(s);
  }

  /** A job is interrupted by a stop signal, a refresh goes by, and then the provider call that was
      under way is recorded. */
  lemma {:induction false} LateCallGoesUnseen(job: Job) returns (states: seq<System>, events: seq<Event>)
    ensures GoesUnseen(CohortOf([job]), states, events, TotalsPublished)
  {
    states, events := SettledJob(CohortOf([job]));
    states, events := CallIsMissed(CohortOf([job]), states, events);
  }

  lemma {:induction false} OneRecordIsClean(s: System)
    requires |s.records| == 1 && s.records[0].Some? && IsClean(s.records[0])
    ensures AllClean(s)
  {
  }

  lemma {:induction false} CallIsMissed(c: Cohort, before: seq<System>, done: seq<Event>)
    returns (states: seq<System>, events: seq<Event>)
    requires IsCarefulRun(c, before, done, ALL_CARES)
    requires LateOperations.IsSettled(c, Last(before)) && Last(before).refresher.Idle?
    requires |Last(before).records| == 1 && Last(before).records[0].Some?
    ensures GoesUnseen(c, states, events, TotalsPublished)
  {
    var cares := ALL_CARES - {TotalsPublished};
    FewerCares(c, before, done, cares);
    CallMeetsTheOthers(c, Last(before), JobStep(0, ProviderCall(1, 7, 0)));
    states, events := Extend(c, before, done, JobStep(0, ProviderCall(1, 7, 0)), cares);
    LateOperations.LateCallIsMissed(c, Last(before), 0, 1, 7, 0);
    MissedIsUnseen(c, Last(before), Last(states));
  }

  lemma {:induction false} CallMeetsTheOthers(c: Cohort, s: System, e: Event)
    requires Sized(c, s) && |s.records| == 1 && s.refresher.Idle?
    requires e == JobStep(0, ProviderCall(1, 7, 0))
    ensures Enabled(c, s, e) && forall care | care in ALL_CARES - {TotalsPublished} :: Meets(c, s, e, care)
  {
  }

  lemma {:induction false} MissedIsUnseen(c: Cohort, s: System, late: System)
    requires HasAllArtifacts(c, s) && |s.records| == 1 && s.records[0].Some?
    requires Sized(c, late) && late.files == s.files && AllClean(late)
    requires Truthful(c, late) <==> LateOperations.MissesARecord(s.records)
    ensures !Acknowledged(c, late)
  {
  }

  // ----- a finalized job -----

  /** A job that has no record is started, and its first attempt responds. */
  lemma {:induction false} AnsweredJob(c: Cohort, before: seq<System>, done: seq<Event>, j: nat)
    returns (states: seq<System>, events: seq<Event>)
    requires IsCarefulRun(c, before, done, ALL_CARES) && Last(before).refresher.Idle?
    requires j < |Last(before).records| && Last(before).records[j].None?
    ensures IsCarefulRun(c, states, events, ALL_CARES)
    ensures |Last(states).records| == |Last(before).records|
    ensures Last(states) == Last(before).(records := Last(before).records[j := Last(states).records[j]])
    ensures IsMarked(Last(states).records[j]) && Last(states).records[j].value.state == Running
  {
    states, events := Extend(c, before, done, JobStep(j, Run(7, {7}, 0)), ALL_CARES);
    states, events := Extend(c, states, events, JobStep(j, CompletedAttempt(1, 7, 0)), ALL_CARES);
  }

  /** The record after a finalization at time 0. */
  function Finalized(current: Option<Record>, build: string): Record {
    CompleteFinalize(Some(BeginFinalize(current, Measured(build), 7, 0)), Measured(build), 0)
  }

  /** A record whose marker is set is finalized, while a refresher may be reading. */
  lemma {:induction false} FinalizeJob(c: Cohort, before: seq<System>, done: seq<Event>, j: nat, build: string, cares: set<Care>)
    returns (states: seq<System>, events: seq<Event>)
    requires IsCarefulRun(c, before, done, cares) && j < |Last(before).records| && IsMarked(Last(before).records[j])
    requires !Last(before).refresher.Locked? && (NewTimes in cares ==> Last(before).refresher.Idle?)
    ensures IsCarefulRun(c, states, events, cares)
    ensures
      var s := Last(before);
      Last(states) == s.(records := s.records[j := Some(Finalized(s.records[j], build))], files := s.files[j := Some(build)])
  {
    states, events := Extend(c, before, done, JobStep(j, StartFinalize(Measured(build), 7, 0)), cares);
    states, events := Extend(c, states, events, WriteArtifact(j, build), cares);
    states, events := Extend(c, states, events, JobStep(j, EndFinalize(Measured(build), 0)), cares);
  }

  // ----- NewTimes and NotFinalizing are needed: metrics of an artifact that is not there any more -----

  lemma {:induction false} SizeTells(published: Option<Metrics>, c: Cohort, records: seq<Option<Record>>, file: string)
    requires c == CohortOf(c.jobs) && |c.jobs| == |records| == 1 && |file| > 4
    requires Holds(published, c.jobs, records, [Verified(Some(file), c.tools)], c.cohortId, c.tools)
    ensures published.Some? && published.value.averageJsonSizeBytes == Some(|file|)
  {
    var artifacts := [Verified(Some(file), c.tools)];
    HoldsMeans(published, c.jobs, records, artifacts, c.cohortId, c.tools);
    MeanIsBetween(seq(1, k requires 0 <= k < 1 => artifacts[k].value.bytes), published.value.averageJsonSizeBytes, |file|, |file|);
  }

  lemma {:induction false} SizeBetrays(c: Cohort, s: System, old_file: string, new_file: string)
    requires c == CohortOf(c.jobs) && Sized(c, s) && |c.jobs| == 1
    requires 4 < |old_file| < |new_file| || 4 < |new_file| < |old_file|
    requires s.files == [Some(new_file)]
    requires Holds(s.published, c.jobs, s.records, [Verified(Some(old_file), c.tools)], c.cohortId, c.tools)
    ensures HasAllArtifacts(c, s) && !Truthful(c, s)
  {
    AllParse(c, s);
    SizeTells(s.published, c, s.records, old_file);
    assert Artifacts(s.files, c.tools) == [Verified(Some(new_file), c.tools)];
    if Truthful(c, s) {
      SizeTells(s.published, c, s.records, new_file);
      assert false;
    }
  }

  /** The refresher has read one artifact, another one is there, and the record is as it was. */
  predicate HasReadAnother(c: Cohort, s: System, old_file: string, new_file: string) {
    && Sized(c, s) && |s.records| == 1 && IsMarked(s.records[0]) && s.files == [Some(new_file)]
    && s.refresher == Reading(s.records, s.published, map[0 := Verified(Some(old_file), c.tools)])
  }

  lemma {:induction false} OldArtifactGoesUnseen(c: Cohort, before: seq<System>, done: seq<Event>,
                                                 old_file: string, new_file: string, broken: Care)
    returns (states: seq<System>, events: seq<Event>)
    requires c == CohortOf(c.jobs) && IsCarefulRun(c, before, done, ALL_CARES - {broken})
    requires 4 < |old_file| < |new_file| || 4 < |new_file| < |old_file|
    requires HasReadAnother(c, Last(before), old_file, new_file)
    ensures GoesUnseen(c, states, events, broken)
  {
    var cares := ALL_CARES - {broken};
    states, events := Extend(c, before, done, WriteMetrics, cares);
    OldArtifactIsWritten(c, Last(before), old_file, new_file);
    OldArtifactIsAcknowledged(c, Last(states), old_file, new_file);
    states, events := Extend(c, states, events, ClearMarkers, cares);
  }

  lemma {:induction false} OldArtifactIsAcknowledged(c: Cohort, s: System, old_file: string, new_file: string)
    requires c == CohortOf(c.jobs) && Sized(c, s) && |c.jobs| == 1 && s.records[0].Some? && s.files == [Some(new_file)]
    requires 4 < |old_file| < |new_file| || 4 < |new_file| < |old_file|
    requires s.refresher.Locked? && s.refresher.snapshot == s.records
    requires Holds(s.published, c.jobs, s.records, [Verified(Some(old_file), c.tools)], c.cohortId, c.tools)
    ensures Sized(c, Next(c, s, ClearMarkers)) && !Acknowledged(c, Next(c, s, ClearMarkers))
  {
    SizeBetrays(c, s, old_file, new_file);
    ClearingChangesNoMeasure(c, s);
    OneRecordIsClean(Next(c, s, ClearMarkers));
  }

  lemma {:induction false} OldArtifactIsWritten(c: Cohort, s: System, old_file: string, new_file: string)
    requires c == CohortOf(c.jobs) && HasReadAnother(c, s, old_file, new_file) && |old_file| > 4
    ensures Enabled(c, s, WriteMetrics)
    ensures
      var next, seen := Next(c, s, WriteMetrics), [Verified(Some(old_file), c.tools)];
      && next == s.(published := next.published, refresher := Locked(s.records, seen))
      && Holds(next.published, c.jobs, s.records, seen, c.cohortId, c.tools)
  {
    var seen := [Verified(Some(old_file), c.tools)];
    OneIsSeen(c, s, old_file, new_file);
    WrittenHolds(c, s.records, s.published, seen);
  }

  lemma {:induction false} OneIsSeen(c: Cohort, s: System, old_file: string, new_file: string)
    requires c == CohortOf(c.jobs) && HasReadAnother(c, s, old_file, new_file) && |old_file| > 4
    ensures Enabled(c, s, WriteMetrics) && SeenArtifacts(s.refresher.seen, 1) == [Verified(Some(old_file), c.tools)]
    ensures IsComplete([Verified(Some(old_file), c.tools)])
  {
  }

  /** Finalizing with another build and then again with the first restores the record. */
  lemma {:induction false} FinalizingRestores(current: Option<Record>, build: string, another: string)
    ensures
      var r := Some(Finalized(current, build));
      Finalized(Some(Finalized(r, another)), build) == r.value
  {
  }

  /** A refresh has read a succeeded record; the job is finalized with another build, whose artifact
      the refresh reads, and then again with the first one, at the time recorded before. */
  lemma {:induction false} RefinalizationGoesUnseen(job: Job) returns (states: seq<System>, events: seq<Event>)
    ensures GoesUnseen(CohortOf([job]), states, events, NewTimes)
  {
    var c, cares := CohortOf([job]), ALL_CARES - {NewTimes};
    states, events := EmptyRun(c, [None]);
    states, events := AnsweredJob(c, states, events, 0);
    FinalizingRestores(Last(states).records[0], "build", "another");
    states, events := FinalizeJob(c, states, events, 0, "build", ALL_CARES);
    states, events := Extend(c, states, events, BeginRefresh, ALL_CARES);
    FewerCares(c, states, events, cares);
    states, events := ReadBetween(c, states, events);
    states, events := OldArtifactGoesUnseen(c, states, events, "another", "build", NewTimes);
  }

  lemma {:induction false} ReadBetween(c: Cohort, before: seq<System>, done: seq<Event>)
    returns (states: seq<System>, events: seq<Event>)
    requires IsCarefulRun(c, before, done, ALL_CARES - {NewTimes})
    requires |Last(before).records| == 1 && IsMarked(Last(before).records[0]) && Last(before).files == [Some("build")]
    requires Last(before).refresher == Reading(Last(before).records, Last(before).published, map[])
    requires Some(Finalized(Some(Finalized(Last(before).records[0], "another")), "build")) == Last(before).records[0]
    ensures IsCarefulRun(c, states, events, ALL_CARES - {NewTimes})
    ensures HasReadAnother(c, Last(states), "another", "build")
  {
    var cares := ALL_CARES - {NewTimes};
    states, events := FinalizeJob(c, before, done, 0, "another", cares);
    states, events := Extend(c, states, events, ReadArtifact(0), cares);
    states, events := FinalizeJob(c, states, events, 0, "build", cares);
    assert Last(states).records == Last(before).records;
  }

  /** A job that has an artifact of an earlier build is being finalized. */
  lemma {:induction false} FinalizingJob(c: Cohort) returns (states: seq<System>, events: seq<Event>)
    requires |c.jobs| == 1
    ensures IsCarefulRun(c, states, events, ALL_CARES)
    ensures
      var s := Last(states);
      && IsMarked(s.records[0]) && IsFinalizing(s.records[0]) && s.files == [Some("build")] && s.refresher.Idle?
  {
    states, events := EmptyRun(c, [Some("build")]);
    states, events := AnsweredJob(c, states, events, 0);
    states, events := Extend(c, states, events, JobStep(0, StartFinalize(Measured("another"), 7, 0)), ALL_CARES);
  }

  /** A refresh begins then and reads that artifact; the new one is written, with the record still
      finalizing as it was read. */
  lemma {:induction false} FinalizationGoesUnseen(job: Job) returns (states: seq<System>, events: seq<Event>)
    ensures GoesUnseen(CohortOf([job]), states, events, NotFinalizing)
  {
    var c, cares := CohortOf([job]), ALL_CARES - {NotFinalizing};
    states, events := FinalizingJob(c);
    FewerCares(c, states, events, cares);
    states, events := Extend(c, states, events, BeginRefresh, cares);
    states, events := Extend(c, states, events, ReadArtifact(0), cares);
    states, events := Extend(c, states, events, WriteArtifact(0, "another"), cares);
    states, events := OldArtifactGoesUnseen(c, states, events, "build", "another", NotFinalizing);
  }

  // ----- OwnArtifacts is needed -----

  /** A job succeeds and is published. */
  lemma {:induction false} PublishedJob(c: Cohort) returns (states: seq<System>, events: seq<Event>)
    requires |c.jobs| == 1 && c == CohortOf(c.jobs)
    ensures IsCarefulRun(c, states, events, ALL_CARES)
    ensures
      var s := Last(states);
      && s.records[0].Some? && IsClean(s.records[0]) && s.files == [Some("build")] && s.refresher.Idle?
      && Holds(s.published, c.jobs, s.records, [Verified(Some("build"), c.tools)], c.cohortId, c.tools)
  {
    states, events := EmptyRun(c, [None]);
    states, events := AnsweredJob(c, states, events, 0);
    states, events := FinalizeJob(c, states, events, 0, "build", ALL_CARES);
    states, events := RefreshCatchesUp(c, states, events);
    PublishedIsThat(c, Last(states), "build");
  }

  /** Then its artifact is replaced from outside. */
  lemma {:induction false} ForeignArtifactGoesUnseen(job: Job) returns (states: seq<System>, events: seq<Event>)
    ensures GoesUnseen(CohortOf([job]), states, events, OwnArtifacts)
  {
    var c, cares := CohortOf([job]), ALL_CARES - {OwnArtifacts};
    states, events := PublishedJob(c);
    FewerCares(c, states, events, cares);
    states, events := Extend(c, states, events, WriteArtifact(0, "another"), cares);
    OneRecordIsClean(Last(states));
    SizeBetrays(c, Last(states), "build", "another");
  }

  lemma {:induction false} PublishedIsThat(c: Cohort, s: System, file: string)
    requires c == CohortOf(c.jobs) && Sized(c, s) && |c.jobs| == 1 && s.files == [Some(file)] && |file| > 4
    requires HasAllArtifacts(c, s) ==> Truthful(c, s)
    ensures Holds(s.published, c.jobs, s.records, [Verified(Some(file), c.tools)], c.cohortId, c.tools)
  {
    AllParse(c, s);
    assert Artifacts(s.files, c.tools) == [Verified(Some(file), c.tools)];
  }

  // ----- MarkerLeft is needed -----

  predicate FirstHasFailed(s: System) {
    && |s.records| == 2 && s.records[0].Some?
    && s.records[0].value.state == Failed && s.records[0].value.error == Some("timeout")
  }

  predicate SecondIsMissing(s: System) {
    && |s.records| == 2 && s.records[1].None? && s.refresher.Idle?
    && s.published == None && s.files == [Some("build"), None]
  }

  /** The first of two jobs has failed, */
  lemma {:induction false} FailedJob(c: Cohort) returns (states: seq<System>, events: seq<Event>)
    requires |c.jobs| == 2
    ensures IsCarefulRun(c, states, events, ALL_CARES)
    ensures FirstHasFailed(Last(states)) && SecondIsMissing(Last(states))
  {
    states, events := EmptyRun(c, [Some("build"), None]);
    states, events := Extend(c, states, events, JobStep(0, Run(7, {7}, 0)), ALL_CARES);
    states, events := Extend(c, states, events, JobStep(0, Fail("timeout", None, 0)), ALL_CARES);
  }

  /** a refresh goes by, and then the second succeeds. */
  lemma {:induction false} OneFailedOneSucceeded(c: Cohort) returns (states: seq<System>, events: seq<Event>)
    requires |c.jobs| == 2
    ensures IsCarefulRun(c, states, events, ALL_CARES)
    ensures
      var s := Last(states);
      && s.published == None && s.files == [Some("build"), Some("another")] && s.refresher.Idle?
      && FirstHasFailed(s) && IsClean(s.records[0]) && IsMarked(s.records[1]) && s.records[1].value.state == Succeeded
  {
    states, events := FailedJob(c);
    assert Artifacts(Last(states).files, c.tools)[1].None?;
    states, events := RefreshCatchesUp(c, states, events);
    states, events := AnsweredJob(c, states, events, 1);
    states, events := FinalizeJob(c, states, events, 1, "another", ALL_CARES);
  }

  /** While a second refresh reads, a failure is recorded on the job that has failed already: it
      changes no counter, but the metrics are not written, and the marker of the other job goes. */
  lemma {:induction false} FailureDuringRefreshGoesUnseen(failed: Job, succeeded: Job)
    returns (states: seq<System>, events: seq<Event>)
    ensures GoesUnseen(CohortOf([failed, succeeded]), states, events, MarkerLeft)
  {
    var c, cares := CohortOf([failed, succeeded]), ALL_CARES - {MarkerLeft};
    states, events := OneFailedOneSucceeded(c);
    states, events := Extend(c, states, events, BeginRefresh, ALL_CARES);
    states, events := ReadArtifacts(c, states, events, 2);
    FewerCares(c, states, events, cares);
    states, events := FailureIsMissed(c, states, events);
  }

  lemma {:induction false} FailureIsMissed(c: Cohort, before: seq<System>, done: seq<Event>)
    returns (states: seq<System>, events: seq<Event>)
    requires |c.jobs| == 2 && c == CohortOf(c.jobs) && IsCarefulRun(c, before, done, ALL_CARES - {MarkerLeft})
    requires Last(before).published == None && Last(before).files == [Some("build"), Some("another")]
    requires FirstHasFailed(Last(before)) && IsClean(Last(before).records[0]) && IsMarked(Last(before).records[1])
    requires Enabled(c, Last(before), WriteMetrics) && Last(before).refresher.snapshot == Last(before).records
    ensures GoesUnseen(c, states, events, MarkerLeft)
  {
    var cares := ALL_CARES - {MarkerLeft};
    states, events := Extend(c, before, done, JobStep(0, Fail("Upload failed.", None, 1)), cares);
    states, events := Extend(c, states, events, WriteMetrics, cares);
    MarkerGoes(c, Last(states));
    states, events := Extend(c, states, events, ClearMarkers, cares);
  }

  lemma {:induction false} MarkerGoes(c: Cohort, s: System)
    requires Sized(c, s) && |c.jobs| == 2 && c == CohortOf(c.jobs) && s.refresher.Locked?
    requires s.published == None && s.files == [Some("build"), Some("another")]
    requires s.records[0].Some? && s.records[0] != s.refresher.snapshot[0] && IsClean(s.records[0])
    requires s.records[1] == s.refresher.snapshot[1]
    ensures Sized(c, Next(c, s, ClearMarkers)) && !Acknowledged(c, Next(c, s, ClearMarkers))
  {
    assert OnlyCleanOnesChanged(s);
    ClearsAllExactlyWhen(c, s);
    AllParse(c, s);
  }
}
