/** BenchmarkMetricsStore: the ledger file, the artifacts beside it, and the methods that
    rewrite them one durable write at a time. */
module BenchmarkMetrics {
  import opened Options
  import opened WhiteSpace
  import LR = LedgerRecords

  type Record = LR.Record
  type Sample = LR.Sample

  datatype Job = Job(promptSlug: string, promptText: Option<string>, modelKey: string, filePath: string)

  function JobKey(job: Job): string {
    job.modelKey + "/" + job.promptSlug
  }

  // ----- the ledger file -----

  datatype LedgerFile = Missing | Unreadable | Stored(version: int, jobs: map<string, Record>)

  /** Version 1 counted provider calls differently, so that counter is dropped. */
  function MigrateLegacy(r: Record): Record {
    r.(counters := r.counters.(providerCallCount := None))
  }

  function ReadLedger(file: LedgerFile): map<string, Record> {
    match file
    case Stored(version, jobs) =>
      if version == 1 then map key | key in jobs :: MigrateLegacy(jobs[key])
      else if version == 2 then jobs
      else map[]
    case _ => map[]
  }

  /** What is read of a ledger: version 1 without its provider calls and otherwise as it is, version 2 as
      it is, and nothing of any other. */
  lemma {:induction false} LedgerVersions(version: int, jobs: map<string, Record>, key: string)
    ensures key in ReadLedger(Stored(version, jobs)) <==> key in jobs && 1 <= version <= 2
    ensures key in jobs && version == 2 ==> ReadLedger(Stored(version, jobs))[key] == jobs[key]
    ensures key in jobs && version == 1 ==>
      var r := ReadLedger(Stored(version, jobs))[key];
      && r.counters.providerCallCount == None
      && r.(counters := r.counters.(providerCallCount := jobs[key].counters.providerCallCount)) == jobs[key]
  {
  }

  function Lookup(jobs: map<string, Record>, key: string): Option<Record> {
    if key in jobs then Some(jobs[key]) else None
  }

  // ----- artifacts -----

  /** The foreign functions: the digest, the UTF-8 length and the build validator. */
  datatype Tools = Tools(hash: string -> string, byteLength: string -> nat, isBuild: string -> bool)

  /** isMissingBenchmarkArtifact, for a file that exists. */
  predicate IsPlaceholder(text: string, tools: Tools) {
    tools.byteLength(text) == 0 || (tools.byteLength(text) <= 4 && Trimmed(text) in {"", "{}"})
  }

  function Verified(file: Option<string>, tools: Tools): Option<LR.Artifact> {
    if file.None? || IsPlaceholder(file.value, tools) || !tools.isBuild(file.value) then None
    else Some(LR.Artifact(tools.byteLength(file.value), tools.hash(file.value)))
  }

  /** The file holds nothing but blanks, or empty braces between blanks. */
  ghost predicate IsEmptyText(text: string) {
    IsBlank(text) || exists before, after :: IsBlank(before) && IsBlank(after) && text == before + "{}" + after
  }

  /** An artifact is there exactly when the file is a valid build and no placeholder: neither without
      bytes nor of at most four that say nothing. */
  lemma {:induction false} VerifiedMeans(text: string, tools: Tools)
    ensures Verified(Some(text), tools).Some? <==>
      tools.isBuild(text) && tools.byteLength(text) > 0 && !(tools.byteLength(text) <= 4 && IsEmptyText(text))
  {
    var first, last := TrimmedMeans(text);
    if exists before, after :: IsBlank(before) && IsBlank(after) && text == before + "{}" + after {
      var before, after :| IsBlank(before) && IsBlank(after) && text == before + "{}" + after;
      assert text == before + ("{}" + after);
      TrimmedIsThere(before, "{}", after);
    }
  }

  function FileAt(files: map<string, string>, path: string): Option<string> {
    if path in files then Some(files[path]) else None
  }

  // ----- finalizeSuccess as four durable writes -----

  /** What is durable: a job's record and its artifact. */
  datatype Durable = Durable(record: Option<Record>, file: Option<string>)

  /** The sample finalizeSuccess builds from its arguments. */
  function SampleFor(build: string, inferenceTimeMs: int, attemptCount: int, tokens: Option<int>,
                     configuration: Option<LR.Configuration>, tools: Tools): Sample
  {
    LR.Sample(
      LR.Max(0, inferenceTimeMs), tools.byteLength(build), tools.hash(build), LR.Max(1, attemptCount),
      if tokens.Some? && tokens.value > 0 then tokens else None,
      if configuration.Some? && LR.IsConfiguration(configuration.value) then configuration else None)
  }

  /** The state after the first `writes` of the four writes. */
  function FinalizedUpTo(writes: nat, d: Durable, build: string, sample: Sample, pid: int, now: int): Durable {
    var d1 := if writes < 1 then d else
      d.(record := LR.Apply(LR.CompletedAttempt(sample.attemptCount, pid, now), d.record));
    var d2 := if writes < 2 then d1 else d1.(record := Some(LR.BeginFinalize(d1.record, sample, pid, now)));
    var d3 := if writes < 3 then d2 else d2.(file := Some(build));
    if writes < 4 then d3 else d3.(record := Some(LR.CompleteFinalize(d3.record, sample, now)))
  }

  // ----- reconcile -----

  function ReconcileJobs(jobs: seq<Job>, ledger: map<string, Record>, files: map<string, string>,
                         pid: int, alive: set<int>, verify: bool, now: int, tools: Tools): map<string, Record>
  {
    if jobs == [] then ledger
    else
      var job := jobs[|jobs| - 1];
      var before := ReconcileJobs(jobs[..|jobs| - 1], ledger, files, pid, alive, verify, now, tools);
      if JobKey(job) !in before then before
      else
        var artifact := Verified(FileAt(files, job.filePath), tools);
        before[JobKey(job) := LR.Reconcile(before[JobKey(job)], pid, alive, artifact, verify, now)]
  }

  /** The generated metrics no longer match what reconcile leaves. */
  predicate NeedsRefresh(r: Record, pid: int, alive: set<int>, artifact: Option<LR.Artifact>, verify: bool, now: int) {
    && !LR.IsActiveElsewhere(r, pid, alive)
    && (r.generatedMetricsDirty != Some(false) || LR.Reconcile(r, pid, alive, artifact, verify, now) != r)
  }

  function RefreshRequired(jobs: seq<Job>, ledger: map<string, Record>, files: map<string, string>,
                           pid: int, alive: set<int>, verify: bool, now: int, tools: Tools): bool
  {
    if jobs == [] then false
    else
      var job := jobs[|jobs| - 1];
      var rest := jobs[..|jobs| - 1];
      var before := ReconcileJobs(rest, ledger, files, pid, alive, verify, now, tools);
      || RefreshRequired(rest, ledger, files, pid, alive, verify, now, tools)
      || (JobKey(job) in before
          && NeedsRefresh(before[JobKey(job)], pid, alive, Verified(FileAt(files, job.filePath), tools), verify, now))
  }

  /** A refresh is asked for exactly when some listed job that nobody else is at work on has a record
      that was not clean before, or is another one now. */
  lemma {:induction false} RefreshRequiredMeans(jobs: seq<Job>, ledger: map<string, Record>, files: map<string, string>,
                                                pid: int, alive: set<int>, verify: bool, now: int, tools: Tools)
    ensures
      var end := ReconcileJobs(jobs, ledger, files, pid, alive, verify, now, tools);
      && end.Keys == ledger.Keys
      && (RefreshRequired(jobs, ledger, files, pid, alive, verify, now, tools) <==>
            exists k | 0 <= k < |jobs| :: JobKey(jobs[k]) in ledger && AsksForRefresh(ledger[JobKey(jobs[k])], end[JobKey(jobs[k])], pid, alive))
      && forall key | key in ledger :: HasFollowed(ledger[key], end[key], pid, alive)
    decreases |jobs|
  {
    if jobs != [] {
      var n := |jobs| - 1;
      var rest := jobs[..n];
      RefreshRequiredMeans(rest, ledger, files, pid, alive, verify, now, tools);
      var before := ReconcileJobs(rest, ledger, files, pid, alive, verify, now, tools);
      var end := ReconcileJobs(jobs, ledger, files, pid, alive, verify, now, tools);
      var key := JobKey(jobs[n]);
      if key in ledger {
        FollowsOn(ledger[key], before[key], pid, alive, Verified(FileAt(files, jobs[n].filePath), tools), verify, now);
      }
      forall k | 0 <= k < n && JobKey(jobs[k]) in ledger
        ensures AsksForRefresh(ledger[JobKey(rest[k])], before[JobKey(rest[k])], pid, alive)
            ==> AsksForRefresh(ledger[JobKey(jobs[k])], end[JobKey(jobs[k])], pid, alive)
      {
      }
    }
  }

  predicate AsksForRefresh(was: Record, now: Record, pid: int, alive: set<int>) {
    && !LR.IsActiveElsewhere(was, pid, alive)
    && (was.generatedMetricsDirty != Some(false) || now != was)
  }

  /** A record that has changed is marked, and was not another process's. */
  predicate HasFollowed(was: Record, now: Record, pid: int, alive: set<int>) {
    now == was || (now.generatedMetricsDirty == Some(true) && !LR.IsActiveElsewhere(was, pid, alive) && !LR.IsActiveElsewhere(now, pid, alive))
  }

  lemma {:induction false} FollowsOn(was: Record, before: Record, pid: int, alive: set<int>, artifact: Option<LR.Artifact>,
                                     verify: bool, now: int)
    requires HasFollowed(was, before, pid, alive)
    ensures
      var end := LR.Reconcile(before, pid, alive, artifact, verify, now);
      && HasFollowed(was, end, pid, alive)
      && (AsksForRefresh(was, before, pid, alive) ==> AsksForRefresh(was, end, pid, alive))
      && (NeedsRefresh(before, pid, alive, artifact, verify, now) ==> AsksForRefresh(was, end, pid, alive))
      && (AsksForRefresh(was, end, pid, alive) ==>
            AsksForRefresh(was, before, pid, alive) || NeedsRefresh(before, pid, alive, artifact, verify, now))
  {
  }

  class BenchmarkMetricsStore {
    const pid: int
    var file: LedgerFile
    var files: map<string, string>

    constructor (pid: int)
      ensures this.pid == pid && Jobs() == map[] && files == map[]
    {
      this.pid := pid;
      file := Missing;
      files := map[];
    }

    function Jobs(): map<string, Record>
      reads this
    {
      ReadLedger(file)
    }

    function RecordOf(job: Job): Option<Record>
      reads this
    {
      Lookup(Jobs(), JobKey(job))
    }

    function DurableOf(job: Job): Durable
      reads this
    {
      Durable(RecordOf(job), FileAt(files, job.filePath))
    }

    method WriteLedger(jobs: map<string, Record>)
      modifies this`file
      ensures Jobs() == jobs
    {
      file := Stored(2, jobs);
    }

    method GetSample(job: Job) returns (sample: Option<Sample>)
      ensures sample.Some? <==> RecordOf(job).Some? && RecordOf(job).value.sample.Some?
                                && LR.IsSample(RecordOf(job).value.sample.value)
      ensures sample.Some? ==> sample == RecordOf(job).value.sample
    {
      sample := None;
      var jobs := ReadLedger(file);
      if JobKey(job) in jobs {
        var kept := jobs[JobKey(job)].sample;
        if kept.Some? && LR.IsSample(kept.value) {
          sample := kept;
        }
      }
    }

    /** updateRecord: read, change one record, write. A refused update writes nothing. */
    method UpdateRecord(job: Job, update: Option<Record> -> Option<Record>) returns (accepted: bool)
      modifies this`file
      ensures
        var next := update(old(RecordOf(job)));
        && accepted == next.Some?
        && Jobs() == if next.Some? then old(Jobs())[JobKey(job) := next.value] else old(Jobs())
    {
      var jobs := ReadLedger(file);
      var next := update(Lookup(jobs, JobKey(job)));
      accepted := next.Some?;
      if next.Some? {
        WriteLedger(jobs[JobKey(job) := next.value]);
      }
    }

    method MarkRunning(job: Job, alive: set<int>, now: int) returns (accepted: bool)
      modifies this`file
      ensures
        var next := LR.MarkRunning(old(RecordOf(job)), pid, alive, now);
        && accepted == next.Some?
        && Jobs() == if next.Some? then old(Jobs())[JobKey(job) := next.value] else old(Jobs())
    {
      accepted := UpdateRecord(job, current => LR.MarkRunning(current, pid, alive, now));
    }

    method MarkProviderCall(job: Job, attempt: int, now: int) returns (accepted: bool)
      modifies this`file
      ensures
        var next := LR.MarkProviderCall(old(RecordOf(job)), attempt, pid, now);
        && accepted == (attempt > 0)
        && Jobs() == if accepted then old(Jobs())[JobKey(job) := next.value] else old(Jobs())
    {
      if attempt <= 0 {
        return false;
      }
      accepted := UpdateRecord(job, current => LR.MarkProviderCall(current, attempt, pid, now));
    }

    method MarkCompletedAttempt(job: Job, attempt: int, now: int) returns (accepted: bool)
      modifies this`file
      ensures
        var next := LR.MarkCompletedAttempt(old(RecordOf(job)), attempt, pid, now);
        && accepted == (attempt > 0)
        && Jobs() == if accepted then old(Jobs())[JobKey(job) := next.value] else old(Jobs())
    {
      if attempt <= 0 {
        return false;
      }
      accepted := UpdateRecord(job, current => LR.MarkCompletedAttempt(current, attempt, pid, now));
    }

    method MarkRetry(job: Job, attempt: int, now: int)
      modifies this`file
      ensures Jobs() == old(Jobs())[JobKey(job) := LR.MarkRetry(old(RecordOf(job)), attempt, pid, now)]
    {
      var _ := UpdateRecord(job, current => Some(LR.MarkRetry(current, attempt, pid, now)));
    }

    method MarkFailed(job: Job, message: string, durationMs: Option<int>, now: int)
      modifies this`file
      ensures Jobs() == old(Jobs())[JobKey(job) := LR.MarkFailed(old(RecordOf(job)), message, durationMs, now)]
    {
      var _ := UpdateRecord(job, current => Some(LR.MarkFailed(current, message, durationMs, now)));
    }

    method MarkInterrupted(job: Job, reason: string, now: int)
      modifies this`file
      ensures Jobs() == old(Jobs())[JobKey(job) := LR.MarkInterrupted(old(RecordOf(job)), reason, now)]
    {
      var _ := UpdateRecord(job, current => Some(LR.MarkInterrupted(current, reason, now)));
    }

    /** finalizeSuccess, by a process that dies after `writes` durable writes (four of them
        are the whole of it). */
    method FinalizeSuccess(job: Job, build: string, sample: Sample, now: int, writes: nat)
      requires sample.attemptCount > 0
      modifies this
      ensures DurableOf(job) == FinalizedUpTo(writes, old(DurableOf(job)), build, sample, pid, now)
      ensures forall key | key != JobKey(job) :: Lookup(Jobs(), key) == Lookup(old(Jobs()), key)
      ensures forall path | path != job.filePath :: FileAt(files, path) == FileAt(old(files), path)
    {
      if writes < 1 {
        return;
      }
      var _ := MarkCompletedAttempt(job, sample.attemptCount, now);
      if writes < 2 {
        return;
      }
      var _ := UpdateRecord(job, current => Some(LR.BeginFinalize(current, sample, pid, now)));
      if writes < 3 {
        return;
      }
      files := files[job.filePath := build];
      if writes < 4 {
        return;
      }
      var _ := UpdateRecord(job, current => Some(LR.CompleteFinalize(current, sample, now)));
    }

    method Reconcile(jobs: seq<Job>, alive: set<int>, verify: bool, now: int, tools: Tools)
      returns (refreshRequired: bool)
      modifies this`file
      ensures Jobs() == ReconcileJobs(jobs, old(Jobs()), files, pid, alive, verify, now, tools)
      ensures refreshRequired == RefreshRequired(jobs, old(Jobs()), files, pid, alive, verify, now, tools)
    {
      var ledger := ReadLedger(file);
      var changed := false;
      refreshRequired := false;
      for i := 0 to |jobs|
        invariant ledger == ReconcileJobs(jobs[..i], old(Jobs()), files, pid, alive, verify, now, tools)
        invariant refreshRequired == RefreshRequired(jobs[..i], old(Jobs()), files, pid, alive, verify, now, tools)
        invariant !changed ==> ledger == old(Jobs())
        invariant file == old(file)
      {
        assert jobs[..i + 1][..i] == jobs[..i];
        var key := JobKey(jobs[i]);
        if key in ledger {
          var current := ledger[key];
          var artifact := Verified(FileAt(files, jobs[i].filePath), tools);
          var next := LR.Reconcile(current, pid, alive, artifact, verify, now);
          if NeedsRefresh(current, pid, alive, artifact, verify, now) {
            refreshRequired := true;
          }
          if next != current {
            changed := true;
          }
          ledger := ledger[key := next];
        }
      }
      assert jobs[..|jobs|] == jobs;
      if changed {
        WriteLedger(ledger);
      }
    }
  }
}
