/** What a later reconcile makes of a finalization that died between its durable writes. */
module FinalizeRecovery {
  import opened Options
  import LR = LedgerRecords
  import opened BenchmarkMetrics

  /** The digest is a SHA-256 digest and, as far as this model goes, has no collisions. */
  ghost predicate IsDigest(tools: Tools) {
    && (forall s :: LR.IsSha256(tools.hash(s)))
    && (forall s, t :: tools.hash(s) == tools.hash(t) ==> s == t)
  }

  /** The sample records the size and the digest of this text. */
  predicate Describes(sample: Sample, text: string, tools: Tools) {
    sample.jsonBytes == tools.byteLength(text) && sample.artifactSha256 == tools.hash(text)
  }

  predicate Parses(text: string, tools: Tools) {
    Verified(Some(text), tools).Some?
  }

  /** A valid sample that was taken from some text, so that equal digests mean equal sizes. */
  ghost predicate Genuine(sample: Sample, tools: Tools) {
    LR.IsSample(sample) && exists text :: Describes(sample, text, tools)
  }

  /** The record's sample, if it has one, describes the artifact on disk. */
  predicate SampleMatchesDisk(d: Durable, tools: Tools) {
    LR.SampleOf(d.record).Some? ==>
      && LR.IsSample(LR.SampleOf(d.record).value)
      && d.file.Some? && Describes(LR.SampleOf(d.record).value, d.file.value, tools)
  }

  /** What every record satisfies: a finalizing one has a genuine pending sample. */
  ghost predicate PendingIsGenuine(current: Option<Record>, tools: Tools) {
    current.Some? && current.value.state == LR.Finalizing ==>
      current.value.pendingSample.Some? && Genuine(current.value.pendingSample.value, tools)
  }

  lemma {:induction false} SampleForIsGenuine(build: string, inferenceTimeMs: int, attemptCount: int, tokens: Option<int>,
                           configuration: Option<LR.Configuration>, tools: Tools)
    requires IsDigest(tools)
    ensures
      var sample := SampleFor(build, inferenceTimeMs, attemptCount, tokens, configuration, tools);
      && Genuine(sample, tools) && Describes(sample, build, tools)
      && sample.inferenceTimeMs == (if inferenceTimeMs < 0 then 0 else inferenceTimeMs)
      && sample.attemptCount == (if attemptCount < 1 then 1 else attemptCount)
      && (sample.acceptedOutputTokens.Some? <==> tokens.Some? && tokens.value > 0)
      && (sample.acceptedOutputTokens.Some? ==> sample.acceptedOutputTokens == tokens)
      && (sample.configuration.Some? <==> configuration.Some? && LR.IsConfiguration(configuration.value))
      && (sample.configuration.Some? ==> sample.configuration == configuration)
  {
    var sample := SampleFor(build, inferenceTimeMs, attemptCount, tokens, configuration, tools);
    assert LR.IsSha256(tools.hash(build));
    assert Describes(sample, build, tools);
  }

  /** Every history whose finalizations use genuine samples keeps the pending one. */
  lemma {:induction false} HistoriesKeepPending(history: seq<LR.Op>, tools: Tools)
    requires forall k | 0 <= k < |history| && history[k].StartFinalize? :: Genuine(history[k].sample, tools)
    ensures PendingIsGenuine(LR.After(history), tools)
    decreases |history|
  {
    if history != [] {
      var before := history[..|history| - 1];
      forall k | 0 <= k < |before| ensures before[k] == history[k] {
      }
      HistoriesKeepPending(before, tools);
      StepKeepsPending(history[|history| - 1], LR.After(before), tools);
    }
  }

  lemma {:induction false} StepKeepsPending(op: LR.Op, current: Option<Record>, tools: Tools)
    requires PendingIsGenuine(current, tools)
    requires op.StartFinalize? ==> Genuine(op.sample, tools)
    ensures PendingIsGenuine(LR.Apply(op, current), tools)
  {
  }

  /** Process `pid` owns the job, or nobody is at work on it. */
  predicate OwnedBy(current: Option<Record>, pid: int) {
    current.Some? && LR.IsActive(current.value.state) ==> current.value.ownerPid == Some(pid)
  }

  /** The whole of a crash: `writes` durable writes of a finalization by `pid`, then a
      reconcile by another process while `pid` is dead. */
  function Recovered(writes: nat, d: Durable, build: string, sample: Sample, pid: int, alive: set<int>,
                     other: int, verify: bool, now: int, later: int, tools: Tools): Durable
  {
    Restarted(FinalizedUpTo(writes, d, build, sample, pid, now), alive, other, verify, later, tools)
  }

  function Restarted(crashed: Durable, alive: set<int>, other: int, verify: bool, later: int, tools: Tools): Durable {
    crashed.(record := LR.Apply(LR.Recover(other, alive, Verified(crashed.file, tools), verify, later), crashed.record))
  }

  ghost predicate CrashSetting(d: Durable, build: string, sample: Sample, pid: int, alive: set<int>, other: int, tools: Tools) {
    && IsDigest(tools)
    && Genuine(sample, tools) && Describes(sample, build, tools)
    && PendingIsGenuine(d.record, tools)
    && OwnedBy(d.record, pid)
    && pid !in alive && other != pid
  }

  lemma {:induction false} SameDigestSameText(a: Sample, text: string, tools: Tools)
    requires IsDigest(tools) && Genuine(a, tools) && a.artifactSha256 == tools.hash(text)
    ensures Describes(a, text, tools)
  {
  }

  lemma {:induction false} FinalizingKeepsOwner(writes: nat, d: Durable, build: string, sample: Sample, pid: int, now: int, tools: Tools)
    requires PendingIsGenuine(d.record, tools) && OwnedBy(d.record, pid) && Genuine(sample, tools)
    ensures
      var crashed := FinalizedUpTo(writes, d, build, sample, pid, now);
      PendingIsGenuine(crashed.record, tools) && OwnedBy(crashed.record, pid)
  {
  }

  lemma {:induction false} RestartSettles(crashed: Durable, pid: int, alive: set<int>, other: int, verify: bool, later: int, tools: Tools)
    requires PendingIsGenuine(crashed.record, tools) && OwnedBy(crashed.record, pid) && pid !in alive
    ensures
      var r := Restarted(crashed, alive, other, verify, later, tools).record;
      r.Some? ==> !LR.IsActive(r.value.state)
  {
  }

  /** No record of the dead process stays running or finalizing, wherever it died. */
  lemma {:induction false} NothingStaysActive(writes: nat, d: Durable, build: string, sample: Sample, pid: int, alive: set<int>,
                           other: int, verify: bool, now: int, later: int, tools: Tools)
    requires CrashSetting(d, build, sample, pid, alive, other, tools)
    ensures
      var r := Recovered(writes, d, build, sample, pid, alive, other, verify, now, later, tools).record;
      r.Some? ==> !LR.IsActive(r.value.state)
  {
    FinalizingKeepsOwner(writes, d, build, sample, pid, now, tools);
    RestartSettles(FinalizedUpTo(writes, d, build, sample, pid, now), pid, alive, other, verify, later, tools);
  }

  /** Dying before the pending sample is durable: the run is lost, the sample kept. */
  lemma {:induction false} CrashBeforePending(writes: nat, d: Durable, build: string, sample: Sample, pid: int, alive: set<int>,
                           other: int, verify: bool, now: int, later: int, tools: Tools)
    requires CrashSetting(d, build, sample, pid, alive, other, tools) && writes < 2
    requires d.record.Some? && d.record.value.state == LR.Running
    ensures
      var end := Recovered(writes, d, build, sample, pid, alive, other, verify, now, later, tools);
      && end.record.Some? && end.record.value.state == LR.Interrupted
      && LR.SampleOf(end.record) == LR.SampleOf(d.record)
      && end.file == d.file
  {
  }

  /** Reconcile makes of a valid pending sample the record's sample, if the artifact is its own. */
  lemma {:induction false} PendingDecides(crashed: Durable, alive: set<int>, other: int, verify: bool, later: int, tools: Tools)
    requires crashed.record.Some? && crashed.record.value.state == LR.Finalizing
    requires crashed.record.value.pendingSample.Some? && LR.IsSample(crashed.record.value.pendingSample.value)
    requires crashed.record.value.ownerPid.Some? && crashed.record.value.ownerPid.value !in alive
    ensures
      var end, artifact := Restarted(crashed, alive, other, verify, later, tools), Verified(crashed.file, tools);
      && end.file == crashed.file && end.record.Some?
      && if artifact.Some? && artifact.value.hash == crashed.record.value.pendingSample.value.artifactSha256
         then end.record.value.state == LR.Succeeded && end.record.value.sample == crashed.record.value.pendingSample
         else end.record.value.state == LR.Interrupted && end.record.value.sample == crashed.record.value.sample
  {
  }

  lemma {:induction false} CrashedWithPending(writes: nat, d: Durable, build: string, sample: Sample, pid: int, now: int)
    requires writes == 2 || writes == 3
    ensures
      var crashed := FinalizedUpTo(writes, d, build, sample, pid, now);
      && crashed.file == (if writes == 3 then Some(build) else d.file)
      && crashed.record.Some?
      && var r := crashed.record.value;
         r.state == LR.Finalizing && r.pendingSample == Some(sample) && r.ownerPid == Some(pid)
         && r.sample == LR.SampleOf(d.record)
  {
  }

  lemma {:induction false} RecoveredWithPending(writes: nat, d: Durable, build: string, sample: Sample, pid: int, alive: set<int>,
                             other: int, verify: bool, now: int, later: int, tools: Tools)
    requires LR.IsSample(sample) && pid !in alive
    requires writes == 2 || writes == 3
    ensures
      var end := Recovered(writes, d, build, sample, pid, alive, other, verify, now, later, tools);
      var artifact := Verified(end.file, tools);
      var isPending := artifact.Some? && artifact.value.hash == sample.artifactSha256;
      && end.file == (if writes == 3 then Some(build) else d.file)
      && end.record.Some?
      && end.record.value.state == (if isPending then LR.Succeeded else LR.Interrupted)
      && LR.SampleOf(end.record) == (if isPending then Some(sample) else LR.SampleOf(d.record))
  {
    CrashedWithPending(writes, d, build, sample, pid, now);
    var crashed := FinalizedUpTo(writes, d, build, sample, pid, now);
    PendingDecides(crashed, alive, other, verify, later, tools);
  }

  /** Dying with the pending sample durable: the job has succeeded exactly when the artifact
      on disk has the pending digest, that is, when it is the new build. */
  lemma {:induction false} CrashWithPending(writes: nat, d: Durable, build: string, sample: Sample, pid: int, alive: set<int>,
                         other: int, verify: bool, now: int, later: int, tools: Tools)
    requires CrashSetting(d, build, sample, pid, alive, other, tools)
    requires writes == 2 || writes == 3
    requires Parses(build, tools)
    ensures
      var end := Recovered(writes, d, build, sample, pid, alive, other, verify, now, later, tools);
      && end.file == (if writes == 3 then Some(build) else d.file)
      && end.record.Some?
      && end.record.value.state == (if end.file == Some(build) then LR.Succeeded else LR.Interrupted)
      && LR.SampleOf(end.record) == (if end.file == Some(build) then Some(sample) else LR.SampleOf(d.record))
  {
    RecoveredWithPending(writes, d, build, sample, pid, alive, other, verify, now, later, tools);
  }

  /** Dying after the last write changes nothing any more. */
  lemma {:induction false} CrashWhenDone(writes: nat, d: Durable, build: string, sample: Sample, pid: int, alive: set<int>,
                      other: int, verify: bool, now: int, later: int, tools: Tools)
    requires CrashSetting(d, build, sample, pid, alive, other, tools)
    requires writes >= 4 && Parses(build, tools)
    ensures
      var end := Recovered(writes, d, build, sample, pid, alive, other, verify, now, later, tools);
      && end == FinalizedUpTo(writes, d, build, sample, pid, now)
      && end.record.Some? && end.record.value.state == LR.Succeeded && LR.SampleOf(end.record) == Some(sample)
      && end.file == Some(build)
  {
  }

  /** Main result: wherever the process dies, a sample that described the artifact on disk
      has a successor that describes the artifact on disk now. */
  lemma {:induction false} SampleStaysTruthful(writes: nat, d: Durable, build: string, sample: Sample, pid: int, alive: set<int>,
                            other: int, verify: bool, now: int, later: int, tools: Tools)
    requires CrashSetting(d, build, sample, pid, alive, other, tools)
    requires Parses(build, tools)
    requires SampleMatchesDisk(d, tools)
    ensures
      var end := Recovered(writes, d, build, sample, pid, alive, other, verify, now, later, tools);
      && SampleMatchesDisk(end, tools)
      && (LR.SampleOf(d.record).Some? ==> LR.SampleOf(end.record).Some?)
  {
    if writes < 2 {
      EarlyCrashStaysTruthful(writes, d, build, sample, pid, alive, other, verify, now, later, tools);
    } else if writes < 4 {
      CrashWithPending(writes, d, build, sample, pid, alive, other, verify, now, later, tools);
    } else {
      CrashWhenDone(writes, d, build, sample, pid, alive, other, verify, now, later, tools);
    }
  }

  lemma {:induction false} EarlyCrashStaysTruthful(writes: nat, d: Durable, build: string, sample: Sample, pid: int, alive: set<int>,
                                other: int, verify: bool, now: int, later: int, tools: Tools)
    requires CrashSetting(d, build, sample, pid, alive, other, tools)
    requires writes < 2 && SampleMatchesDisk(d, tools)
    ensures
      var end := Recovered(writes, d, build, sample, pid, alive, other, verify, now, later, tools);
      && SampleMatchesDisk(end, tools)
      && (LR.SampleOf(d.record).Some? ==> LR.SampleOf(end.record).Some?)
  {
    var crashed := FinalizedUpTo(writes, d, build, sample, pid, now);
    if crashed.record.Some? {
      StepKeepsPending(LR.CompletedAttempt(sample.attemptCount, pid, now), d.record, tools);
      ReconcileStaysTruthful(crashed.record.value, d.file, other, alive, verify, later, tools);
    }
  }

  /** A reconcile never spoils a sample, whatever state the record is in. */
  lemma {:induction false} ReconcileStaysTruthful(r: Record, file: Option<string>, pid: int, alive: set<int>, verify: bool, now: int, tools: Tools)
    requires IsDigest(tools) && PendingIsGenuine(Some(r), tools)
    requires SampleMatchesDisk(Durable(Some(r), file), tools)
    ensures
      var next := LR.Reconcile(r, pid, alive, Verified(file, tools), verify, now);
      && SampleMatchesDisk(Durable(Some(next), file), tools)
      && (r.sample.Some? ==> next.sample.Some?)
  {
    if r.state == LR.Finalizing && file.Some? && r.pendingSample.value.artifactSha256 == tools.hash(file.value) {
      SameDigestSameText(r.pendingSample.value, file.value, tools);
    }
  }

  /** The build has to parse: after the third write the job is recovered as succeeded if and
      only if it does, and otherwise the old sample stays beside the new artifact. */
  lemma {:induction false} RecoveryNeedsParsableBuild(d: Durable, build: string, sample: Sample, pid: int, alive: set<int>,
                                   other: int, verify: bool, now: int, later: int, tools: Tools)
    requires CrashSetting(d, build, sample, pid, alive, other, tools)
    ensures
      var end := Recovered(3, d, build, sample, pid, alive, other, verify, now, later, tools);
      && end.file == Some(build) && end.record.Some?
      && (end.record.value.state == LR.Succeeded <==> Parses(build, tools))
      && (!Parses(build, tools) ==>
            end.record.value.state == LR.Interrupted && LR.SampleOf(end.record) == LR.SampleOf(d.record))
  {
    RecoveredWithPending(3, d, build, sample, pid, alive, other, verify, now, later, tools);
  }

  // ----- the whole ledger -----

  /** What reconcile may do to one record: leave a living process alone, and leave none of
      the others active. */
  ghost predicate Settled(was: Record, now: Record, pid: int, alive: set<int>, tools: Tools) {
    && PendingIsGenuine(Some(now), tools)
    && (LR.IsActive(now.state) ==> now == was)
    && (LR.IsActiveElsewhere(was, pid, alive) ==> now == was)
  }

  lemma {:induction false} ReconcileOne(r: Record, pid: int, alive: set<int>, artifact: Option<LR.Artifact>, verify: bool, now: int, tools: Tools)
    requires PendingIsGenuine(Some(r), tools)
    ensures
      var next := LR.Reconcile(r, pid, alive, artifact, verify, now);
      && Settled(r, next, pid, alive, tools)
      && (LR.IsActive(next.state) ==> LR.IsActiveElsewhere(next, pid, alive))
  {
  }

  /** No listed job is left active unless a living process other than this one owns it. */
  lemma {:induction false} ReconcileSettles(jobs: seq<Job>, ledger: map<string, Record>, files: map<string, string>,
                                            pid: int, alive: set<int>, verify: bool, now: int, tools: Tools)
    requires forall key | key in ledger :: PendingIsGenuine(Some(ledger[key]), tools)
    ensures
      var end := ReconcileJobs(jobs, ledger, files, pid, alive, verify, now, tools);
      && end.Keys == ledger.Keys
      && (forall key | key in ledger :: Settled(ledger[key], end[key], pid, alive, tools))
      && (forall k | 0 <= k < |jobs| && JobKey(jobs[k]) in ledger ::
            LR.IsActive(end[JobKey(jobs[k])].state) ==> LR.IsActiveElsewhere(end[JobKey(jobs[k])], pid, alive))
    decreases |jobs|
  {
    if jobs != [] {
      var rest := jobs[..|jobs| - 1];
      ReconcileSettles(rest, ledger, files, pid, alive, verify, now, tools);
      var last := jobs[|jobs| - 1];
      var before := ReconcileJobs(rest, ledger, files, pid, alive, verify, now, tools);
      if JobKey(last) in before {
        ReconcileOne(before[JobKey(last)], pid, alive, Verified(FileAt(files, last.filePath), tools), verify, now, tools);
      }
      forall k | 0 <= k < |rest| ensures rest[k] == jobs[k] {
      }
    }
  }
}
