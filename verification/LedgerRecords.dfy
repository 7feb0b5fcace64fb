/** One job's record in the benchmark ledger, and what every transition writes into it.
    A field that the ledger file leaves out is None. */
module LedgerRecords {
  import opened Options

  datatype JobState = Running | Finalizing | Succeeded | Failed | Interrupted

  datatype Configuration = Configuration(
    promptSha256: string,
    directRoute: bool,
    reasoningOverride: Option<string>,
    requestConfigurationVersion: Option<int>,
    requestConfiguration: Option<string>,
    acceptedConfiguration: Option<string>,
    toolsEnabled: bool)

  datatype Sample = Sample(
    inferenceTimeMs: int,
    jsonBytes: int,
    artifactSha256: string,
    attemptCount: int,
    acceptedOutputTokens: Option<int>,
    configuration: Option<Configuration>)

  /** None means that the job predates the counter. */
  datatype Counters = Counters(
    providerCallCount: Option<int>,
    completedAttemptCount: Option<int>,
    rejectedResponseCount: Option<int>,
    failedAttemptCount: Option<int>,
    failedRunCount: Option<int>,
    interruptedRunCount: Option<int>)

  datatype Record = Record(
    state: JobState,
    startedAt: int,
    endedAt: Option<int>,
    retryCount: int,
    counters: Counters,
    runAttemptCount: Option<int>,
    completedRunAttempts: Option<seq<int>>,
    rejectedRunAttempts: Option<seq<int>>,
    error: Option<string>,
    lastRunDurationMs: Option<int>,
    ownerPid: Option<int>,
    sample: Option<Sample>,
    pendingSample: Option<Sample>,
    generatedMetricsDirty: Option<bool>)

  // ----- validators -----

  predicate IsSha256(s: string) {
    |s| == 64 && forall k | 0 <= k < 64 :: '0' <= s[k] <= '9' || 'a' <= s[k] <= 'f'
  }

  /** Sixty-four small hexadecimal digits. */
  lemma {:induction false} Sha256Means(s: string)
    ensures IsSha256(s) <==> |s| == 64 && forall k | 0 <= k < 64 :: s[k] in "0123456789abcdef"
  {
    forall c: char ensures c in "0123456789abcdef" <==> '0' <= c <= '9' || 'a' <= c <= 'f' {
      HexCodes(c);
    }
  }

  lemma {:induction false} HexCodes(c: char)
    ensures c in "0123456789abcdef" <==> '0' <= c <= '9' || 'a' <= c <= 'f'
  {
    var digits := "0123456789abcdef";
    if '0' <= c <= '9' {
      assert digits[c as int - 48] == c;
    } else if 'a' <= c <= 'f' {
      assert digits[c as int - 87] == c;
    }
  }

  predicate IsConfiguration(c: Configuration) {
    && IsSha256(c.promptSha256)
    && (c.requestConfigurationVersion.Some? ==> c.requestConfigurationVersion.value in {1, 2})
    && (c.requestConfiguration.Some? ==> c.requestConfiguration.value != "")
    && (c.requestConfigurationVersion == Some(2) <==> c.acceptedConfiguration.Some?)
  }

  predicate IsSample(s: Sample) {
    && s.inferenceTimeMs >= 0 && s.jsonBytes >= 0
    && IsSha256(s.artifactSha256)
    && s.attemptCount > 0
    && (s.acceptedOutputTokens.Some? ==> s.acceptedOutputTokens.value > 0)
    && (s.configuration.Some? ==> IsConfiguration(s.configuration.value))
  }

  /** What is wrong with a configuration: its digest, its version, a request that is empty, or a record
      of the accepted request that is there for another version than 2 or missing for it. */
  predicate IsFaulty(c: Configuration) {
    || |c.promptSha256| != 64 || (exists k | 0 <= k < 64 :: c.promptSha256[k] !in "0123456789abcdef")
    || !(c.requestConfigurationVersion in {None, Some(1), Some(2)})
    || c.requestConfiguration == Some("")
    || (c.acceptedConfiguration.Some? && c.requestConfigurationVersion != Some(2))
    || (c.acceptedConfiguration.None? && c.requestConfigurationVersion == Some(2))
  }

  /** A sample is refused exactly when a number is too small, its digest is none or its configuration
      is faulty. */
  lemma {:induction false} ValidSamples(s: Sample)
    ensures IsSample(s) <==>
      && 0 <= s.inferenceTimeMs && 0 <= s.jsonBytes && 1 <= s.attemptCount
      && |s.artifactSha256| == 64 && (forall k | 0 <= k < 64 :: s.artifactSha256[k] in "0123456789abcdef")
      && (s.acceptedOutputTokens.None? || 1 <= s.acceptedOutputTokens.value)
      && (s.configuration.None? || !IsFaulty(s.configuration.value))
  {
    Sha256Means(s.artifactSha256);
    if s.configuration.Some? {
      Sha256Means(s.configuration.value.promptSha256);
    }
  }

  predicate IsAlive(pid: Option<int>, alive: set<int>) {
    pid.Some? && pid.value > 0 && pid.value in alive
  }

  // ----- carried fields -----

  function OrZero(n: Option<int>): int {
    match n case Some(v) => v case None => 0
  }

  function OrEmpty(attempts: Option<seq<int>>): seq<int> {
    match attempts case Some(a) => a case None => []
  }

  const NO_COUNTERS := Counters(None, None, None, None, None, None)
  const ZERO_COUNTERS := Counters(Some(0), Some(0), Some(0), Some(0), Some(0), Some(0))

  /** carriedCounters: the last two counters start at zero, the others stay untracked. */
  function CarriedCounters(current: Option<Record>): Counters {
    var counters := if current.Some? then current.value.counters else NO_COUNTERS;
    counters.(failedRunCount := Some(OrZero(counters.failedRunCount)),
              interruptedRunCount := Some(OrZero(counters.interruptedRunCount)))
  }

  /** A record with the carried counters and run state and nothing else. */
  function Carried(current: Option<Record>, state: JobState, startedAt: int, retryCount: int): Record {
    var counters := CarriedCounters(current);
    match current
    case None =>
      Record(state, startedAt, None, retryCount, counters, None, None, None, None, None, None, None, None, None)
    case Some(r) =>
      Record(state, startedAt, None, retryCount, counters, r.runAttemptCount, r.completedRunAttempts,
             r.rejectedRunAttempts, None, None, None, None, None, r.generatedMetricsDirty)
  }

  /** ongoingRecord: the record as it is, or a running one when there is none. */
  function Ongoing(current: Option<Record>, pid: int, now: int): Record {
    match current
    case None => Carried(None, Running, now, 0).(ownerPid := Some(pid))
    case Some(r) =>
      r.(counters := CarriedCounters(current),
         ownerPid := if r.ownerPid.Some? then r.ownerPid else Some(pid))
  }

  // ----- counting -----

  /** addToCounter on a counter of `current`. */
  function AddToCounter(recorded: bool, counter: Option<int>, increment: int): Option<int> {
    if increment <= 0 then counter
    else if !recorded then Some(increment)
    else if counter.Some? && counter.value >= 0 then Some(counter.value + increment)
    else None
  }

  function Insert(s: seq<int>, x: int): seq<int> {
    if s == [] || x < s[0] then [x] + s
    else if x == s[0] then s
    else [s[0]] + Insert(s[1..], x)
  }

  function SortUnique(s: seq<int>): seq<int> {
    if s == [] then [] else Insert(SortUnique(s[..|s| - 1]), s[|s| - 1])
  }

  function AppendUnique(attempts: Option<seq<int>>, attempt: int): seq<int> {
    Insert(SortUnique(OrEmpty(attempts)), attempt)
  }

  /** rejectAttempt: the new list and the new count. */
  function RejectAttempt(current: Option<Record>, attempt: int): (Option<seq<int>>, Option<int>) {
    match current
    case None => (None, None)
    case Some(r) =>
      if attempt !in OrEmpty(r.completedRunAttempts) then
        (r.rejectedRunAttempts, r.counters.rejectedResponseCount)
      else
        var rejected := AppendUnique(r.rejectedRunAttempts, attempt);
        (Some(rejected),
         AddToCounter(true, r.counters.rejectedResponseCount,
                      |rejected| - |OrEmpty(r.rejectedRunAttempts)|))
  }

  function Max(a: int, b: int): int { if a >= b then a else b }

  // ----- transitions; None is a refusal (the source throws and writes nothing) -----

  function StartedAt(current: Option<Record>, now: int): int {
    if current.Some? then current.value.startedAt else now
  }

  function RetryCount(current: Option<Record>): int {
    if current.Some? then current.value.retryCount else 0
  }

  function RunAttemptCount(current: Option<Record>): int {
    if current.Some? then OrZero(current.value.runAttemptCount) else 0
  }

  function CounterOf(current: Option<Record>, counter: Counters -> Option<int>): Option<int> {
    if current.Some? then counter(current.value.counters) else None
  }

  function SampleOf(current: Option<Record>): Option<Sample> {
    if current.Some? then current.value.sample else None
  }

  function Completed(current: Option<Record>): seq<int> {
    if current.Some? then OrEmpty(current.value.completedRunAttempts) else []
  }

  function Rejected(current: Option<Record>): seq<int> {
    if current.Some? then OrEmpty(current.value.rejectedRunAttempts) else []
  }

  predicate IsActive(state: JobState) {
    state == Running || state == Finalizing
  }

  predicate IsActiveElsewhere(r: Record, pid: int, alive: set<int>) {
    IsActive(r.state) && r.ownerPid != Some(pid) && IsAlive(r.ownerPid, alive)
  }

  function MarkRunning(current: Option<Record>, pid: int, alive: set<int>, now: int): Option<Record> {
    if current.Some? && IsActiveElsewhere(current.value, pid, alive) then None
    else Some(Record(
      Running, now, None, 0,
      if current.Some? then CarriedCounters(current) else ZERO_COUNTERS,
      Some(0), Some([]), Some([]), None, None, Some(pid), SampleOf(current), None, Some(true)))
  }

  function MarkProviderCall(current: Option<Record>, attempt: int, pid: int, now: int): Option<Record> {
    if attempt <= 0 then None
    else
      var r := Ongoing(current, pid, now);
      Some(r.(
        runAttemptCount := Some(Max(RunAttemptCount(current), attempt)),
        completedRunAttempts := Some(Completed(current)),
        rejectedRunAttempts := Some(Rejected(current)),
        counters := r.counters.(providerCallCount :=
          AddToCounter(current.Some?, CounterOf(current, (c: Counters) => c.providerCallCount), 1))))
  }

  function MarkCompletedAttempt(current: Option<Record>, attempt: int, pid: int, now: int): Option<Record> {
    if attempt <= 0 then None
    else
      var r := Ongoing(current, pid, now);
      var completed := AppendUnique(Some(Completed(current)), attempt);
      Some(r.(
        completedRunAttempts := Some(completed),
        rejectedRunAttempts := Some(Rejected(current)),
        counters := r.counters.(completedAttemptCount :=
          AddToCounter(current.Some?, CounterOf(current, (c: Counters) => c.completedAttemptCount),
                       |completed| - |Completed(current)|))))
  }

  function MarkRetry(current: Option<Record>, attempt: int, pid: int, now: int): Record {
    var r := Ongoing(current, pid, now);
    var retryCount := Max(RetryCount(current), attempt - 1);
    var newlyFailed := if retryCount > RetryCount(current) && RunAttemptCount(current) >= attempt - 1 then 1 else 0;
    var (rejected, rejectedCount) := RejectAttempt(current, attempt - 1);
    r.(retryCount := retryCount,
       completedRunAttempts := Some(Completed(current)),
       rejectedRunAttempts := rejected,
       counters := r.counters.(
         rejectedResponseCount := rejectedCount,
         failedAttemptCount :=
           AddToCounter(current.Some?, CounterOf(current, (c: Counters) => c.failedAttemptCount), newlyFailed)))
  }

  function MarkFailed(current: Option<Record>, error: string, durationMs: Option<int>, now: int): Record {
    var newlyFailedRuns := if current.Some? && current.value.state == Failed then 0 else 1;
    var terminalAttempt := RunAttemptCount(current);
    var newlyFailedAttempts := if newlyFailedRuns > 0 && terminalAttempt > RetryCount(current) then 1 else 0;
    var r := Carried(current, Failed, StartedAt(current, now), RetryCount(current));
    var (rejected, rejectedCount) :=
      if newlyFailedRuns > 0 then RejectAttempt(current, terminalAttempt)
      else (r.rejectedRunAttempts, r.counters.rejectedResponseCount);
    r.(endedAt := Some(now),
       completedRunAttempts := Some(Completed(current)),
       rejectedRunAttempts := rejected,
       error := Some(error),
       lastRunDurationMs := if durationMs.Some? && durationMs.value >= 0 then durationMs else None,
       sample := SampleOf(current),
       counters := r.counters.(
         rejectedResponseCount := rejectedCount,
         failedAttemptCount :=
           AddToCounter(current.Some?, CounterOf(current, (c: Counters) => c.failedAttemptCount), newlyFailedAttempts),
         failedRunCount := Some(OrZero(r.counters.failedRunCount) + newlyFailedRuns)))
  }

  function MarkInterrupted(current: Option<Record>, reason: string, now: int): Record {
    if current.Some? && !IsActive(current.value.state) then current.value
    else
      var startedAt := StartedAt(current, now);
      var r := Carried(current, Interrupted, startedAt, RetryCount(current));
      r.(endedAt := Some(now),
         error := Some(reason),
         lastRunDurationMs := Some(Max(0, now - startedAt)),
         sample := SampleOf(current),
         counters := r.counters.(interruptedRunCount := Some(OrZero(r.counters.interruptedRunCount) + 1)))
  }

  /** finalizeSuccess, before the artifact is written. */
  function BeginFinalize(current: Option<Record>, sample: Sample, pid: int, now: int): Record {
    Carried(current, Finalizing, StartedAt(current, now), Max(0, sample.attemptCount - 1)).(
      runAttemptCount := Some(sample.attemptCount),
      ownerPid := Some(pid),
      sample := SampleOf(current),
      pendingSample := Some(sample),
      generatedMetricsDirty := Some(true))
  }

  /** finalizeSuccess, after the artifact is written. */
  function CompleteFinalize(current: Option<Record>, sample: Sample, now: int): Record {
    Carried(current, Succeeded, StartedAt(current, now), Max(0, sample.attemptCount - 1)).(
      endedAt := Some(now),
      sample := Some(sample),
      generatedMetricsDirty := Some(true))
  }

  /** What verifiedArtifact reports about a file. */
  datatype Artifact = Artifact(bytes: int, hash: string)

  /** One turn of the loop of reconcile, for a job that has a record. */
  function Reconcile(r: Record, pid: int, alive: set<int>, artifact: Option<Artifact>, verify: bool, now: int): Record {
    if IsActiveElsewhere(r, pid, alive) then r
    else if r.state == Running then
      r.(state := Interrupted,
         endedAt := Some(now),
         error := Some("Previous process ended before this job finalized."),
         lastRunDurationMs := Some(Max(0, now - r.startedAt)),
         counters := r.counters.(interruptedRunCount := Some(OrZero(r.counters.interruptedRunCount) + 1)),
         ownerPid := None,
         generatedMetricsDirty := Some(true))
    else if r.state == Finalizing && r.pendingSample.Some? && IsSample(r.pendingSample.value) then
      var resumed := Carried(Some(r), Succeeded, r.startedAt, r.retryCount).(
        endedAt := Some(now), generatedMetricsDirty := Some(true));
      if artifact.Some? && artifact.value.hash == r.pendingSample.value.artifactSha256 then
        resumed.(sample := r.pendingSample)
      else
        resumed.(
          state := Interrupted,
          error := Some("Final artifact did not match the pending benchmark sample."),
          counters := resumed.counters.(interruptedRunCount := Some(OrZero(r.counters.interruptedRunCount) + 1)),
          sample := r.sample)
    else if r.sample.None? || !IsSample(r.sample.value) || !verify || artifact.None? then r
    else if artifact.value.hash != r.sample.value.artifactSha256 || artifact.value.bytes != r.sample.value.jsonBytes then
      r.(sample := Some(r.sample.value.(jsonBytes := artifact.value.bytes, artifactSha256 := artifact.value.hash)),
         generatedMetricsDirty := Some(true))
    else r
  }

  // ----- every operation on a record -----

  datatype Op =
    | Run(pid: int, alive: set<int>, now: int)
    | ProviderCall(attempt: int, pid: int, now: int)
    | CompletedAttempt(attempt: int, pid: int, now: int)
    | Retry(attempt: int, pid: int, now: int)
    | Fail(message: string, durationMs: Option<int>, now: int)
    | Interrupt(reason: string, now: int)
    | StartFinalize(sample: Sample, pid: int, now: int)
    | EndFinalize(sample: Sample, now: int)
    | Recover(pid: int, alive: set<int>, artifact: Option<Artifact>, verify: bool, now: int)
    | Acknowledge

  /** The record after an operation; a refused operation leaves it as it is. */
  function Apply(op: Op, current: Option<Record>): Option<Record> {
    match op
    case Run(pid, alive, now) => OrKeep(MarkRunning(current, pid, alive, now), current)
    case ProviderCall(attempt, pid, now) => OrKeep(MarkProviderCall(current, attempt, pid, now), current)
    case CompletedAttempt(attempt, pid, now) => OrKeep(MarkCompletedAttempt(current, attempt, pid, now), current)
    case Retry(attempt, pid, now) => Some(MarkRetry(current, attempt, pid, now))
    case Fail(message, durationMs, now) => Some(MarkFailed(current, message, durationMs, now))
    case Interrupt(reason, now) => Some(MarkInterrupted(current, reason, now))
    case StartFinalize(sample, pid, now) => Some(BeginFinalize(current, sample, pid, now))
    case EndFinalize(sample, now) => Some(CompleteFinalize(current, sample, now))
    case Recover(pid, alive, artifact, verify, now) =>
      if current.None? then None else Some(Reconcile(current.value, pid, alive, artifact, verify, now))
    case Acknowledge =>
      if current.None? then None else Some(current.value.(generatedMetricsDirty := Some(false)))
  }

  function OrKeep(next: Option<Record>, current: Option<Record>): Option<Record> {
    if next.Some? then next else current
  }

  /** The record after a whole history, from an empty ledger. */
  function After(history: seq<Op>): Option<Record> {
    if history == [] then None
    else Apply(history[|history| - 1], After(history[..|history| - 1]))
  }
}
