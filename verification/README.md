# MineBench: verified models of its protocols, codecs and schedulers

MineBench benchmarks language models on voxel builds. Around the pages and the network it has a
number of small, stateful protocols: a job ledger that survives crashes, a hand-written scanner
that pulls blocks out of JSON while it is still arriving, a binary build format, a line-based
build stream with an auditor in front of it, and a handful of caches, limiters and schedulers.
This project models those parts in Dafny and proves what they keep.

Code that changes state step by step is a class or a method with loops here too, and each such
method is tied by its `ensures` to a specification function; what the program is for is then proved
about those functions, over every input, every history or every run. `dafny verify dfyconfig.toml`
checks everything.

| module | what it models |
|---|---|
| `Options`, `WhiteSpace` | absent values, and JavaScript's white space and `trim` |
| `JsonText`, `BlockScanner`, `ArrayFinder`, `PrimitiveGuard`, `BlockStream`, `TopLevelObjects` | the incremental JSON scanner of the local build worker, against a printer for all JSON texts of RFC 8259 (sections 2, 4, 5 and 7), with any whitespace and any escapes |
| `LedgerRecords`, `JobHistory`, `RecordHistory`, `RunAttempts` | the operations on one job record of the benchmark ledger, and what its counters, attempt lists and other fields say about the job's whole history |
| `BenchmarkMetrics`, `FinalizeRecovery`, `ArtifactTruth` | the store's methods over the ledger file and the artifacts; a finalization as four durable writes, what a later reconcile makes of a crash between them, and when the sample describes the artifact |
| `Averages`, `MetricsAggregate` | the aggregate of a cohort, and how it is merged into the entry published before |
| `PublishedMetrics`, `CarefulRefresh`, `LateOperations`, `UnseenChanges` | the dirty markers that acknowledge its publication while jobs go on: which steps break their promise, conditions under which none does, operations that come late, and runs that show each condition to be needed |
| `LedgerLock` | the O_EXCL lock file as a step system of any number of processes, each of which may terminate anywhere |
| `Utf8`, `PaletteText`, `BinaryV4` | the binary v4 build encoding, down to the bytes of the JSON palette; UTF-8 by RFC 3629, section 3, and lists of strings by RFC 8259 |
| `JsonValue`, `StreamReader`, `ArtifactAudit` | the client's reader of a build stream, the auditor of stored streams, and how far the auditor predicts the reader |
| `BuildCache` | the LRU cache of hydrated builds |
| `RateLimiter` | the fixed-window request limiter |
| `BreadthFirst`, `ToolCallSearch` | the search for a tool call through JSON nested in strings |
| `WorkerPool` | the generation worker pool |
| `ApiHealth` | the degraded-service banner |
| `RequestGate` | the concurrency gate of the load script |
| `PackedPosition`, `MeshCost` | the packing of coordinates by bit operations, and the neighbour index over it |

Foreign calls are parameters or explicit assumptions: `JSON.parse` is any partial function from text
to values (the tool-call search also assumes that a value is never larger than the text it was
parsed from, and the auditor that white space alone does not parse), SHA-256 is a function without
collisions, files are map entries replaced as a whole, and clocks, process ids and the set of
living processes are inputs.

## What turned out not to hold

Some natural claims are false of the code. For each there is a concrete run or state, and a condition
under which the claim does hold, proved in both directions.

- An artifact that passes the audit need not be delivered: the auditor looks at three blocks of a
  chunk, the reader skips falsy entries (`ArtifactAudit.PassesButFallsBack`). It is delivered exactly
  when no chunk holds a falsy entry (`ArtifactAudit.AuditPredictsDelivery`), which passing
  guarantees for chunks of at most three blocks.
- Clear dirty markers do not always mean that the published metrics are true: the store accepts every
  operation on a record in any state, only some of them set the marker, and a refresh clears the
  markers of unchanged records also when it has written nothing. Over all interleavings of all steps,
  from any ledger that keeps it, the promise holds throughout exactly when no step is one of those that
  `PublishedMetrics.Loses` lists, told by the markers, totals and artifacts at that moment
  (`PublishedMetrics.AcknowledgedThroughoutExactlyWhen`). Five conditions that can be checked before
  each step rule them all out (`CarefulRefresh.MarkersAcknowledgeMetrics`), and none can be left out:
  - no refresh begins while a job is finalizing (`UnseenChanges.FinalizationGoesUnseen`: the old
    artifact is read, the new one written under the same record);
  - artifacts are written only while their job is finalizing (`UnseenChanges.ForeignArtifactGoesUnseen`);
  - while a refresh reads, no run or success is recorded with the very time the record read has
    (`UnseenChanges.RefinalizationGoesUnseen`: a job is finalized twice and its record comes back);
    conversely, an artifact other than the one read is taken for it only after such a repetition
    (`CarefulRefresh.StaleOnlyByRepeating`);
  - markers are not cleared when records have changed during the refresh and none of these is marked
    (`UnseenChanges.FailureDuringRefreshGoesUnseen`: nothing is published, and the marker of another
    job goes; `LateOperations.LateOperationDuringRefresh` says for every late operation when);
  - no operation leaves other totals than those published without setting a marker while all are clear
    (`UnseenChanges.LateCallGoesUnseen`; `LateOperations.LateOperationIsSeenExactlyWhen` and the four
    lemmas after it say for every late operation when).

  If every operation set the marker of a record that it changes, the first three would be enough
  (`CarefulRefresh.MarkedChangesAreAcknowledged`).
- A job whose upload throws after it was saved is counted as saved and as failed
  (`WorkerPool.UploadThrowCountsTwice`); the verdicts add up exactly when no upload throws in a job that
  was not told to stop (`WorkerPool.VerdictsAddUpExactlyWhen`). The failure it then records is missed
  too if a refresh has gone by since the job was saved, unless the job had failed before
  (`LateOperations.LateFailureIsMissed`).
- The store lets a run count more failed attempts than it started, when the finalized attempt had been
  given up already (`RunAttempts.FinalizingALostAttemptCountsItTwice`). It never does exactly when each
  failed attempt that is counted finds one left (`RunAttempts.BoundHoldsExactlyWhen`, for every
  sequence of operations). batch-generate does not do so: it finalizes the highest attempt
  a retry has announced, and its runs meet the bound when that attempt made its provider call
  (`RunAttempts.BatchRunMeetsBound`).
- A finalization that died after writing an artifact that does not parse is recovered as interrupted,
  with the old sample beside the new artifact (`FinalizeRecovery.RecoveryNeedsParsableBuild`).
- The sample of a job does not always describe its artifact: a finalization that has died after writing
  its artifact leaves the old sample beside it until a reconcile adopts the new one, and a new run, a
  failure, an interruption or another finalization that dies early abandons it
  (`ArtifactTruth.NewRunAbandonsTheBuild`). The sample describes the artifact, or has still to be
  adopted, throughout a run exactly when no step does that (`ArtifactTruth.TruthfulThroughoutExactlyWhen`).
- Stale-lock takeover is not atomic: two processes that read the same dead owner can both come to be
  inside (`LedgerLock.TakeoverRace`). A takeover is safe exactly when no living process holds the lock
  (`LedgerLock.TakeoverIsSafeExactlyWhen`): otherwise the call that takes over is beside the holder as
  soon as it tries again (`LedgerLock.TakeoverKeepsApartExactlyWhen`). A run is safe exactly when all
  its takeovers are (`LedgerLock.SafeThroughoutExactlyWhen`); a takeover that finds the file still
  naming the owner it has read always is (`LedgerLock.CheckedTakeoverIsSafe`).
- Failures at 0, 20 and 25 seconds leave the health banner up with no timer pending, unless the timer
  comes more than 19.9 seconds late (`ApiHealth.StuckBanner`); `ApiHealth.BannerComesDownExactlyWhen`
  says which states do.
- A call can slip into the request gate before a woken one resumes; the limit holds exactly when none
  does (`RequestGate.LimitHoldsExactlyWhen`), and nothing bounds the excess
  (`RequestGate.ExcessIsUnbounded`).
- The rate limiter is better than twice its maximum: at most 2 * max - 1 requests in any ten seconds
  (`RateLimiter.AdmissionRate`), a bound that is reached for every max (`RateLimiter.BoundIsReached`).

## Model

| member | source | states |
|---|---|---|
| ArrayFinder.FindArrayStart | components/local/localBuildParse.worker.ts:76-120 | The index loop over string and escape flags returns exactly what the recursive search `Find` describes, on every text, malformed ones too |
| ArrayFinder.BracketAfter | components/local/localBuildParse.worker.ts:76-120 | From a quote, the position of the `[` after the name, a colon and blanks, or -1, in terms of the text from that quote on |
| ArrayFinder.FindsFirstArray | components/local/localBuildParse.worker.ts:76-120 | On every JSON text, with any whitespace, escapes and nesting, the search lands on the `[` of the first member in text order with an array value and that name as it is spelled (a name spelled with escapes is another one, as in the program), and gives -1 when there is none |
| PrimitiveGuard.GuardMeans | components/local/localBuildParse.worker.ts:138 | The guard matches exactly the texts in which somewhere a quoted name, lines or boxes in any case of its letters, is followed by blanks, a colon, blanks and an opening bracket |
| BlockScanner.RunValue | components/local/localBuildParse.worker.ts:336-405 | Scanning any printed value, whatever its strings hold, returns the machine to the same depths outside any string, and cuts exactly the outermost objects of the value at array level |
| BlockScanner.RunMembers | components/local/localBuildParse.worker.ts:336-405 | Inside an object, scanning all its members leaves the machine exactly as it was |
| BlockStream.StreamCutsOutermost | components/local/localBuildParse.worker.ts:295-408 | For every JSON text that passes the lines/boxes guard, the slices cut are the printed texts of the outermost objects of the first blocks array, in order, nested arrays included |
| BlockStream.StreamsExactlyWhen | components/local/localBuildParse.worker.ts:295-305 | Every JSON text is streamed if and only if it has a first blocks array and mentions no array of lines or boxes; one that holds such a member anywhere, however it is spelled and spaced, is left to the full parser |
| BlockStream.StreamCutsObjectElements | components/local/localBuildParse.worker.ts:295-408 | When that array has no array elements, the slices are exactly the printed texts of its object elements, in order |
| BlockStream.StreamOfPrefix | components/local/localBuildParse.worker.ts:295-408 | On every prefix cut behind the array's bracket, streaming yields exactly those slices that are already complete there |
| BlockStream.MaybeEmitProgress | components/local/localBuildParse.worker.ts:318-334 | A message with all pending blocks is posted exactly when there are any and it is forced, or 6000 blocks or 48 ms are reached; posted and pending blocks together stay the same, and each message counts all blocks delivered up to it |
| BlockStream.CloseObject | components/local/localBuildParse.worker.ts:388-405 | Closing an object adds the block its slice parses to, if it parses, and keeps the account of delivered blocks |
| BlockStream.ScanChar | components/local/localBuildParse.worker.ts:336-405 | The branches of the loop body make exactly one step of the scanning machine and report the object that ends there |
| BlockStream.StreamBlocks | components/local/localBuildParse.worker.ts:295-408 | The result is the parsable slices in order; there is one if and only if the text mentions no array of lines or boxes and the search finds the blocks array; and the posted messages deliver exactly these blocks, for every clock |
| TopLevelObjects.ScanSimulatesTop | components/local/localBuildParse.worker.ts:177-227 | The object-only scanner and the array scanner cut the same objects as long as the text stays inside the array |
| TopLevelObjects.TopCutsOutermost | lib/ai/jsonExtract.ts:12-57 | Over any row of JSON texts, the top-level slices are the outermost objects of all of them, in order |
| TopLevelObjects.LimitKeepsPrefix | components/local/localBuildParse.worker.ts:177-227 | Stopping at the limit keeps exactly the first parsable objects |
| TopLevelObjects.ParseTopLevelJsonObjects | components/local/localBuildParse.worker.ts:177-227 | The loop returns the top-level slices that parse, in order, up to the limit |
| LedgerRecords.ValidSamples | scripts/benchmarkMetrics.ts:188-247 | A sample is refused exactly when a number is too small, a digest is not 64 small hexadecimal digits, or its configuration has another version than 1 or 2, an empty request or an accepted request that does not go with the version |
| JobHistory.AppendUniqueOfSorted | scripts/benchmarkMetrics.ts:332-336 | Adding an attempt to a strictly increasing list keeps it strictly increasing, with that attempt added once |
| JobHistory.RejectIsExact | scripts/benchmarkMetrics.ts:340-358 | An attempt is counted as rejected exactly when it had responded in this run and was not counted yet |
| JobHistory.CountersAreExact | scripts/benchmarkMetrics.ts:320-358 | After every sequence of store operations, a defined call, completed-attempt or rejection counter equals the number of such events in the whole history, and the attempt lists are the strictly increasing lists of the present run's events |
| JobHistory.RejectedAmongCompleted | scripts/benchmarkMetrics.ts:340-358 | Rejected attempts are a strictly increasing subset of the completed ones, and never outnumber them in the counters |
| JobHistory.LossesAreExact | scripts/benchmarkMetrics.ts:636-726 | After every sequence of store operations, the retry count and the run's attempt count are the highest attempts given up and reached, and a defined counter of failed attempts, failed runs or interrupted runs equals the number of such events in the whole history |
| JobHistory.UntrackedStaysUntracked | scripts/benchmarkMetrics.ts:320-330 | Of the counters an existing record leaves undefined, those of provider calls, completed attempts, rejected responses and failed attempts stay undefined through every operation |
| JobHistory.TrackedStaysTracked | scripts/benchmarkMetrics.ts:97-106 | Once all counters are defined no operation loses one or turns one back |
| JobHistory.StartedJobsTrackEverything | scripts/benchmarkMetrics.ts:573-601 | A job whose first operation is markRunning tracks every counter for ever |
| RecordHistory.RecordsAreCoherent | scripts/benchmarkMetrics.ts:573-889 | After every history a record has an end exactly when it is not at work, an error exactly when it failed or was interrupted, a pending sample exactly while it is finalizing, an owner while it is at work, and a sample when it succeeded |
| RecordHistory.SampleIsLastSet | scripts/benchmarkMetrics.ts:573-889 | After every history the sample is that of the last finalization completed, by itself or by a reconcile, or as a reconcile has repaired it since; every other operation keeps it, a new run, a failure and an interruption too |
| RecordHistory.StartIsLastSet | scripts/benchmarkMetrics.ts:573-781 | After every history the start is the time of the last accepted run, or else of the operation that made the record |
| RecordHistory.EndingIsLastSet | scripts/benchmarkMetrics.ts:573-889 | After every history the end state, its time, error and duration are those of the last operation that ended the work, and absent if a run or a finalization has begun since |
| RecordHistory.WorkIsLastSet | scripts/benchmarkMetrics.ts:573-889 | After every history a job is at work in the state, for the owner and with the pending sample of the last run, finalization or first call, until an operation ends the work |
| RunAttempts.FailuresAtMostStarted | scripts/benchmarkMetrics.ts:603-726 | Up to and including its first ending, a run adds at most as many failed attempts as the highest attempt it started, when each finalization is of an attempt still in progress |
| RunAttempts.RefailingAddsNothing | scripts/benchmarkMetrics.ts:670-699 | Failing a failed job again changes no counter and no attempt list |
| RunAttempts.FinalizingALostAttemptCountsItTwice | scripts/benchmarkMetrics.ts:670-699 | A concrete run of store operations with three failed attempts out of two started |
| RunAttempts.FinalizeThenFailBound | scripts/benchmarkMetrics.ts:636-699 | A run that finalizes and then fails meets the bound if and only if fewer attempts had been counted as failed than started |
| RunAttempts.BoundHoldsExactlyWhen | scripts/benchmarkMetrics.ts:603-781 | Over every sequence of store operations, late and repeated ones included, the failed attempts counted never exceed the attempts started if and only if each retry or failure that counts one finds an attempt started and not yet counted |
| RunAttempts.AttemptIsInProgress | scripts/batch-generate.ts:512-514 | The attempt count batch-generate keeps is one more than the record's retry count at every moment of a run, so that the attempt it finalizes was never given up |
| RunAttempts.BatchRunMeetsBound | scripts/batch-generate.ts:508-575 | A run that ends with finalizing that attempt, which made its provider call, adds at most as many failed attempts as it started, however it ends and also when it is failed after its success |
| BenchmarkMetrics.LedgerVersions | scripts/benchmarkMetrics.ts:461-506 | A version 1 ledger is read without its provider calls and otherwise as stored, version 2 as stored, any other as empty |
| BenchmarkMetrics.VerifiedMeans | scripts/benchmarkMetrics.ts:276-300 | An artifact counts exactly when its file is a valid build and not a placeholder: empty, or at most four bytes that are blank or hold only empty braces |
| BenchmarkMetrics.RefreshRequiredMeans | scripts/benchmarkMetrics.ts:783-889 | A reconcile asks for a refresh if and only if the record of some listed job that no other living process is at work on was not clean before or has changed; whatever changes is marked |
| BenchmarkMetrics.BenchmarkMetricsStore.WriteLedger | scripts/benchmarkMetrics.ts:508-510 | What was written is what a later read returns |
| BenchmarkMetrics.BenchmarkMetricsStore.GetSample | scripts/benchmarkMetrics.ts:554-557 | The record's sample if and only if there is one and it is valid |
| BenchmarkMetrics.BenchmarkMetricsStore.UpdateRecord | scripts/benchmarkMetrics.ts:559-571 | Exactly one record changes, and a refused update writes nothing |
| BenchmarkMetrics.BenchmarkMetricsStore.MarkRunning | scripts/benchmarkMetrics.ts:573-601 | A new run is refused while another living process is at work on the job, else it replaces this record only |
| BenchmarkMetrics.BenchmarkMetricsStore.MarkProviderCall | scripts/benchmarkMetrics.ts:603-617 | Refused for a non-positive attempt, else one record changes as specified |
| BenchmarkMetrics.BenchmarkMetricsStore.MarkCompletedAttempt | scripts/benchmarkMetrics.ts:619-634 | Refused for a non-positive attempt, else one record changes as specified |
| BenchmarkMetrics.BenchmarkMetricsStore.MarkRetry | scripts/benchmarkMetrics.ts:636-656 | One record changes as specified, the others stay |
| BenchmarkMetrics.BenchmarkMetricsStore.MarkFailed | scripts/benchmarkMetrics.ts:670-699 | One record changes as specified, the others stay |
| BenchmarkMetrics.BenchmarkMetricsStore.MarkInterrupted | scripts/benchmarkMetrics.ts:701-726 | One record changes as specified, the others stay |
| BenchmarkMetrics.BenchmarkMetricsStore.FinalizeSuccess | scripts/benchmarkMetrics.ts:728-781 | Dying after any number of the four durable writes leaves this job's record and artifact exactly as that many writes make them, and every other job and file untouched |
| BenchmarkMetrics.BenchmarkMetricsStore.Reconcile | scripts/benchmarkMetrics.ts:783-889 | The ledger afterwards is the fold of the per-job reconciliation, and a refresh is asked for exactly when a touched record was dirty or has changed |
| FinalizeRecovery.SampleForIsGenuine | scripts/benchmarkMetrics.ts:728-781 | The sample built by a finalization is valid and describes the build; it has the given time and attempt count unless they are too small, the token count if it is positive and the configuration if it is valid |
| FinalizeRecovery.HistoriesKeepPending | scripts/benchmarkMetrics.ts:728-858 | In every history a finalizing record holds a valid pending sample |
| FinalizeRecovery.NothingStaysActive | scripts/benchmarkMetrics.ts:794-858 | Wherever a finalization dies, reconcile by another process leaves the record neither running nor finalizing |
| FinalizeRecovery.CrashBeforePending | scripts/benchmarkMetrics.ts:728-858 | Dying before the pending sample is durable ends in interrupted, with the old sample and artifact |
| FinalizeRecovery.CrashWithPending | scripts/benchmarkMetrics.ts:728-858 | Dying after it ends in succeeded with the pending sample exactly when the artifact on disk is the new build, else in interrupted with the prior sample |
| FinalizeRecovery.CrashWhenDone | scripts/benchmarkMetrics.ts:728-858 | After the last write reconcile changes nothing |
| FinalizeRecovery.SampleStaysTruthful | scripts/benchmarkMetrics.ts:728-858 | For every crash point, a sample that described the artifact on disk has a successor that describes the artifact on disk now |
| FinalizeRecovery.ReconcileStaysTruthful | scripts/benchmarkMetrics.ts:783-889 | Reconcile never makes a truthful sample untrue, whatever state the record is in |
| FinalizeRecovery.RecoveryNeedsParsableBuild | scripts/benchmarkMetrics.ts:290-300 | After the artifact is written the job is recovered as succeeded if and only if the build parses |
| FinalizeRecovery.ReconcileSettles | scripts/benchmarkMetrics.ts:783-889 | Over a whole job list, no listed job is left active unless another living process owns it, and the jobs of living processes are untouched |
| ArtifactTruth.StepStaysTruthfulExactlyWhen | scripts/benchmarkMetrics.ts:573-889 | From a state in which the sample describes the artifact, or the artifact of a finalization that has died waits to be adopted, each operation, finalization or crash leads to such a state if and only if it does not abandon the one that waits |
| ArtifactTruth.TruthfulThroughoutExactlyWhen | scripts/benchmarkMetrics.ts:573-889 | In every run of these steps from a job that is not known yet, that holds throughout if and only if no step abandons a build; with none waiting the sample describes the artifact on disk |
| ArtifactTruth.NewRunAbandonsTheBuild | scripts/benchmarkMetrics.ts:573-601 | A finalization that dies with its artifact written, and then a new run before any reconcile, leave the sample of the artifact that is gone |
| Averages.AverageIsMean | scripts/benchmarkMetrics.ts:302-305 | For every list the average is its sum, as its running subtotals define it, over its length, rounded to the nearest integer and upwards from a half; none for an empty list |
| Averages.MeanIsBetween | scripts/benchmarkMetrics.ts:302-305 | That mean lies between the least and the greatest value |
| Averages.MeanOfReordered | scripts/benchmarkMetrics.ts:302-305 | It does not depend on the order of the values |
| MetricsAggregate.CohortTotalsAreExact | scripts/benchmarkMetrics.ts:398-421 | Each of the six cohort totals is published if and only if every job tracks its counter, and is then the number of such events in the whole histories of all jobs |
| MetricsAggregate.GatherSamples | scripts/benchmarkMetrics.ts:964-976 | The loop over the artifacts gathers sizes, samples, provenance and output caps as the fold specifies |
| MetricsAggregate.PublishedHolds | scripts/benchmarkMetrics.ts:1031-1068 | Publishing the same records and artifacts again changes nothing |
| MetricsAggregate.HoldsMeans | scripts/benchmarkMetrics.ts:1031-1068 | For a complete cohort the published counts and mean size are those of exactly these artifacts, and each of the six counters that all records track, and the coverage of the two that have one, is that of exactly these records |
| MetricsAggregate.GatherProvenance | scripts/benchmarkMetrics.ts:964-989 | The loop over the artifacts finds complete provenance if and only if every job has a timed sample of the artifact on disk with its prompt, its configuration and its output cap |
| MetricsAggregate.CohortMeans | scripts/benchmarkMetrics.ts:979-1069 | With complete provenance the published prompt cohort, sample counts, output cap, consistency flags, mean time and attempt count are those of the samples of exactly these records; the cap and the averages are published exactly when they are consistent |
| MetricsAggregate.PromptCohortMeans | scripts/benchmarkMetrics.ts:1041-1052 | The prompt cohort is named exactly when the timed sample of every job was made with the job's own prompt, and else stays as published before |
| MetricsAggregate.PartialProvenanceKeepsCohort | scripts/benchmarkMetrics.ts:1033-1069 | Without complete provenance the measurements published before stay, but for a first count of timed samples |
| PublishedMetrics.StepLosesExactlyWhen | scripts/benchmarkMetrics.ts:573-1073 | From any state that keeps the promise of the markers, each store operation, artifact write, crash or step of a refresh keeps it if and only if it is not one of the steps listed: an unmarked operation that leaves other totals, an artifact changed or used after it has changed while all markers are clear or about to be, or markers cleared over changes that were not published |
| PublishedMetrics.AcknowledgedThroughoutExactlyWhen | scripts/benchmarkMetrics.ts:573-1073 | In every interleaving of every store operation on any record, artifact writes, crashes and refreshes, from any ledger that keeps the promise, clear markers and complete artifacts mean throughout that the published entry is the aggregate of exactly these records and artifacts, if and only if no step is one of those |
| CarefulRefresh.MarkersAcknowledgeMetrics | scripts/benchmarkMetrics.ts:891-1073 | In every such interleaving that meets five conditions a program can check before each step, whenever all markers are clear and all artifacts are there, the published entry is the aggregate of exactly these records and artifacts |
| CarefulRefresh.StaleOnlyByRepeating | scripts/benchmarkMetrics.ts:897-908 | When a refresh that began with no job finalizing finds every record as it was read but an artifact changed, some run or success was recorded meanwhile with the very time that the record read has |
| CarefulRefresh.MarkedChangesAreAcknowledged | scripts/benchmarkMetrics.ts:891-1073 | In every interleaving in which each operation that changes a record leaves it marked, three of the conditions are enough, and a record changed during a refresh keeps its marker |
| LateOperations.LateOperationIsSeenExactlyWhen | scripts/benchmarkMetrics.ts:573-858 | From any state with clear markers, all artifacts and true metrics, every operation on a present record either sets its marker, or leaves all markers clear and the published metrics true if and only if it changes no counter or a record of the cohort is missing |
| LateOperations.LateCallIsMissed | scripts/benchmarkMetrics.ts:603-617 | From such a state a provider call leaves all markers clear, and the metrics true if and only if a record is missing |
| LateOperations.LateCompletionIsMissed | scripts/benchmarkMetrics.ts:619-634 | The same for a completed attempt, if and only if the present run had completed it already or a record is missing |
| LateOperations.LateRetryIsMissed | scripts/benchmarkMetrics.ts:636-656 | The same for a retry, if and only if the attempt before it was not reached or already given up, and not a response still to be rejected, or a record is missing |
| LateOperations.LateFailureIsMissed | scripts/benchmarkMetrics.ts:670-699 | The same for a failure, if and only if the job had failed already or a record is missing |
| LateOperations.LateOperationDuringRefresh | scripts/benchmarkMetrics.ts:891-929 | An operation that changes a clean record without marking it while a refresh is about to write: nothing is published, all markers are clear afterwards if and only if no other record has changed that is not clean, whether or not a counter changes, and the metrics are then true if and only if they were apart from the counters and have the totals after the operation |
| UnseenChanges.RefreshCatchesUp | scripts/benchmarkMetrics.ts:891-1073 | After any run that meets the conditions, an undisturbed refresh begun with no job finalizing goes on to a state with all markers of present records clear in which, if all artifacts are there, the metrics are true |
| UnseenChanges.LateCallGoesUnseen | scripts/benchmarkMetrics.ts:603-617 | A run that meets the other four conditions: a stop signal, a refresh, and then the provider call under way is recorded; all markers are clear and the metrics are not true |
| UnseenChanges.RefinalizationGoesUnseen | scripts/benchmarkMetrics.ts:891-929 | A run that meets the other four: a succeeded job is finalized with another build and again with the first during a refresh, at the time recorded before; the size of the build in between is published and the marker cleared |
| UnseenChanges.FinalizationGoesUnseen | scripts/benchmarkMetrics.ts:728-781 | A run that meets the other four: a refresh begins during a finalization and reads the artifact that is then replaced; its size is published and the marker cleared |
| UnseenChanges.ForeignArtifactGoesUnseen | scripts/benchmarkMetrics.ts:728-781 | A run that meets the other four: the artifact of a published job is replaced with no finalization under way |
| UnseenChanges.FailureDuringRefreshGoesUnseen | scripts/benchmarkMetrics.ts:909-926 | A run that meets the other four: while a refresh reads, a failure is recorded on a job that has failed already; the metrics are not written, and the marker of the other job, which has succeeded, is cleared all the same |
| PublishedMetrics.MarkersFollowTheWrite | scripts/benchmarkMetrics.ts:918-927 | In every such interleaving a marker is cleared only under the lock after the metrics write, only on a record equal to the one read, and never together with a change of the metrics or of their truth |
| PublishedMetrics.PartialRefreshKeepsCohort | scripts/benchmarkMetrics.ts:1033-1069 | In every run a refresh that finds incomplete provenance keeps the cohort measured before, but for a first count of timed samples |
| PublishedMetrics.RefresherMayDie | scripts/benchmarkMetrics.ts:891-929 | A refresher may die between any two steps; nothing it has not written changes, and another may begin |
| PublishedMetrics.Publisher.PersistGeneratedMetrics | scripts/benchmarkMetrics.ts:891-929 | Dying after none, one or both of its writes: the metrics change only if no record of the model has changed since the snapshot, and afterwards exactly the markers of unchanged records are cleared |
| PublishedMetrics.Publisher.RefreshGeneratedMetrics | scripts/benchmarkMetrics.ts:931-1073 | An undisturbed refresh publishes the aggregate of exactly these records and artifacts when the cohort is complete, nothing otherwise, and leaves no marker |
| PublishedMetrics.WhichOperationsSetTheMarker | scripts/benchmarkMetrics.ts:573-858 | On a clean record, exactly an accepted run, both ends of a finalization and a reconcile with an effect set the marker |
| PublishedMetrics.MissingRecordIsSeen | scripts/benchmarkMetrics.ts:573-858 | An operation on a job without a record changes nothing or leaves a record that is not clean |
| LedgerLock.TakeoverIsSafeExactlyWhen | scripts/benchmarkMetrics.ts:524-529 | From a safe state a takeover leads to a safe one if and only if no living process holds the lock |
| LedgerLock.TakeoverKeepsApartExactlyWhen | scripts/benchmarkMetrics.ts:512-552 | After a takeover below the attempt limit and the next creation of the lock file, the call that took over holds the lock alone, and the ledger is the fold of the updates, if and only if no living process held it before |
| LedgerLock.SafeThroughoutExactlyWhen | scripts/benchmarkMetrics.ts:512-552 | A run of any number of processes that may terminate anywhere is safe throughout if and only if each of its takeovers finds the lock held by no living process |
| LedgerLock.CheckedTakeoverIsSafe | scripts/benchmarkMetrics.ts:512-571 | With lock-file creation and pid write as separate steps, any number of processes and terminations anywhere, if each takeover finds the file still naming the owner it has read: at most one living call holds the lock, the ledger is the fold in lock order of the updates made by living and dead calls, each done call is applied exactly once and a timed-out call not at all |
| LedgerLock.OneStepEach | scripts/benchmarkMetrics.ts:512-552 | A living call that is neither done nor timed out can make exactly one step; having read the owner it takes over if that is a process that is gone, and waits otherwise |
| LedgerLock.UndisturbedCallIsDone | scripts/benchmarkMetrics.ts:512-552 | A call that finds no lock file and is not disturbed is done after six steps, with its update applied and the lock file gone |
| LedgerLock.TriesAreCounted | scripts/benchmarkMetrics.ts:518-535 | In every run a call gives up after exactly 500 tries that found the lock taken, and no sooner |
| LedgerLock.LockIsSafe | scripts/benchmarkMetrics.ts:512-571 | With nobody terminating no owner is found dead, no takeover can happen and every state is exclusive in the sense of CheckedTakeoverIsSafe |
| LedgerLock.TakeoverRace | scripts/benchmarkMetrics.ts:524-529 | A concrete run in which two processes take over from the same dead owner and are both inside |
| PaletteText.ParseOfStringify | scripts/prototype-binary-v4.ts:42-62 | Parsing the printed list of names gives it back, for all names: quotes, backslashes, control characters and all other characters |
| Utf8.DecodeOfEncode | scripts/prototype-binary-v4.ts:42-62 | Decoding the UTF-8 bytes of any text gives it back |
| Utf8.DecodesExactlyEncodings | scripts/prototype-binary-v4.ts:60 | A sequence of bytes is decoded to a text if and only if it is that text's encoding |
| PaletteText.ParseMeans | scripts/prototype-binary-v4.ts:60 | A text is parsed to a list of names if and only if it is a JSON text of that list, with any blanks, escapes, code units and surrogate pairs |
| PaletteText.EscapeIsShortest | scripts/prototype-binary-v4.ts:38 | Stringify writes every character in the shortest way there is, with small hexadecimal digits |
| PaletteText.PaletteSize | scripts/prototype-binary-v4.ts:42-48 | A palette whose text fits its length field has fewer than 2^16 names, so no type id wraps |
| BinaryV4.PaletteIsFirstOccurrences | scripts/prototype-binary-v4.ts:24-39 | The palette holds each type exactly once, ordered by first occurrence |
| BinaryV4.InternName | scripts/prototype-binary-v4.ts:32-38 | A name gets the id of its place in the list, which grows only for a new name; map and list stay in step |
| BinaryV4.WriteHeader | scripts/prototype-binary-v4.ts:42-49 | The in-place big-endian writes produce the sixteen header bytes |
| BinaryV4.EncodeV4 | scripts/prototype-binary-v4.ts:17-57 | The loops over the typed arrays produce the specified bytes, or fail when a length does not fit its field |
| BinaryV4.DecodeV4 | scripts/prototype-binary-v4.ts:59-87 | The loops decode exactly as specified, and fail exactly on a bad magic, an unreadable palette or missing bytes |
| BinaryV4.EncodedLayout | scripts/prototype-binary-v4.ts:20-53 | The bytes of every build: the letters MBV4, version 4, the palette's length and the block count with the most significant byte first, four zeros, the palette's text, then three little-endian words for each corner modulo 2^16 and one for the place of each type among the names |
| BinaryV4.DecodeOfEncoded | scripts/prototype-binary-v4.ts:17-87 | For every build that can be encoded at all, decoding gives the same blocks in the same order with their types, coordinates taken modulo 2^16 |
| BinaryV4.RoundTripExactly | scripts/prototype-binary-v4.ts:17-87 | The round trip is exact if and only if all coordinates lie in 0 to 65535 |
| StreamReader.SplitInTwo | components/arena/Arena.tsx:740-742 | Splitting a text whose last line was kept aside, and then the rest, gives the lines of the whole text |
| StreamReader.Reader.ProcessLine | components/arena/Arena.tsx:678-725 | One line has exactly the effect of its event on the gathered state, or throws on an error event; blank and unparsable lines do nothing |
| StreamReader.Reader.Append | lib/voxel/packedBlocks.ts:67-94 | Appending a chunk adds its non-falsy entries in order |
| StreamReader.Reader.Feed | components/arena/Arena.tsx:740-747 | One piece of text handles the lines it finishes and keeps the rest |
| StreamReader.Reader.ReadAll | components/arena/Arena.tsx:727-775 | However the text is cut into pieces, the outcome (delivery, fallback or error, with all its data) is that of splitting the whole text on newlines once |
| StreamReader.SplitMeans | components/arena/Arena.tsx:740-742 | The lines of a text hold no newline and give the text when they are joined by newlines |
| StreamReader.StoredMeans | lib/voxel/packedBlocks.ts:67-92 | What is stored of a chunk is exactly its entries that are not falsy, in order |
| StreamReader.OutcomeMeans | components/arena/Arena.tsx:678-775 | For every text: with an error event the client fails with the message of the first one; otherwise it delivers, with the variant and checksum named last, all entries of all chunks that are not falsy, if and only if some event is complete and the last usable total, if it is a finite number that is not negative, is at most their number; else it falls back |
| ArtifactAudit.EventsOfLines | scripts/audit-arena-artifacts.ts:203-226 | The events audited are those of exactly the non-empty lines, in order, and there are any only if all of these parse |
| ArtifactAudit.SpotCheck | scripts/audit-arena-artifacts.ts:239-258 | No problem exactly when the first, the middle and the last block are well formed |
| ArtifactAudit.CheckEvent | scripts/audit-arena-artifacts.ts:218-276 | No problem exactly when the event fits what came before it |
| ArtifactAudit.CheckTotals | scripts/audit-arena-artifacts.ts:279-298 | No problem exactly when identity, checksum and announced counts agree |
| ArtifactAudit.VerifyStreamPayload | scripts/audit-arena-artifacts.ts:197-299 | The auditor returns null exactly when every non-empty line parses, every event fits its place and all announced counts agree with the chunks |
| ArtifactAudit.SameEvents | components/arena/Arena.tsx:573-580 | Auditor and client see the same events in a text whose non-empty lines all parse |
| ArtifactAudit.OutcomeOfPassing | components/arena/Arena.tsx:678-775 | On any artifact that passes, the client never throws; it falls back exactly when the last total it was told exceeds the number of entries it could store, and otherwise delivers these with the announced variant and checksum |
| ArtifactAudit.AuditPredictsDelivery | scripts/audit-arena-artifacts.ts:197-299 | With a positive numeric total in the last complete event, the client ends with exactly the concatenation of all chunk blocks, as many as that total, if and only if no chunk holds a falsy entry, and else falls back |
| ArtifactAudit.SmallChunksAreDelivered | scripts/audit-arena-artifacts.ts:239-258 | For chunks of at most three blocks, passing rules falsy entries out |
| ArtifactAudit.PassesButFallsBack | scripts/audit-arena-artifacts.ts:243-258 | The events of a concrete artifact, given as parsed values rather than as a text, with a null as second of four blocks: they pass, and the client falls back on them |
| BuildCache.TrimmedIsLongest | components/arena/Arena.tsx:1527-1536 | Eviction leaves the longest suffix of the recency list that fits both limits |
| BuildCache.EvictsTheOldest | components/arena/Arena.tsx:1499-1564 | After any reads and inserts the cache fits its limits and is a most recent part of the full access history, so whatever was evicted is older than everything kept |
| BuildCache.FoundIsLatest | components/arena/Arena.tsx:1499-1564 | After any reads and inserts the build found under a key is the one inserted last under it |
| BuildCache.InsertIsFound | components/arena/Arena.tsx:1499-1537 | After any reads and inserts, an insert within the limit for entries is found if and only if it fits the total limit, and a heavier one changes nothing |
| BuildCache.TouchLosesNothing | components/arena/Arena.tsx:1541-1552 | After any reads and inserts, a read loses nothing and makes what it finds the last to be evicted |
| BuildCache.KeysTell | components/arena/Arena.tsx:933-935 | Two references without colons in build and variant share a cache key if and only if they are the same, but for the checksum "none", which passes for a missing one |
| BuildCache.NewestStays | components/arena/Arena.tsx:1499-1537 | An entry survives its own insert if and only if it fits the total limit |
| BuildCache.BuildCache.Insert | components/arena/Arena.tsx:1499-1537 | An admissible insert moves the key to the recent end and leaves the longest fitting suffix; an inadmissible one changes nothing; the byte counter stays the sum of the weights |
| BuildCache.BuildCache.Forget | components/arena/Arena.tsx:1528-1535 | Removing a key takes exactly its weight off the counter, which is never clipped, and both maps keep equal keys |
| BuildCache.BuildCache.Evict | components/arena/Arena.tsx:1527-1536 | The eviction loop drops the oldest entries until both limits hold, and no more |
| BuildCache.BuildCache.TouchKey | components/arena/Arena.tsx:1541-1552 | A hit returns the build and moves it to the recent end in both maps; a miss changes nothing |
| BuildCache.BuildCache.Read | components/arena/Arena.tsx:1539-1564 | The exact key is read first, and a preview may be served by the full build |
| RateLimiter.Limiter.MaybePrune | middleware.ts:106-116 | Every 256th request removes exactly the expired buckets |
| RateLimiter.Limiter.ConsumeBuckets | middleware.ts:118-145 | The preview loop decides on the first exceeded rule, and the commit loop counts all keys of an admitted request together |
| RateLimiter.Limiter.Handle | middleware.ts:106-145 | A request is decided on the buckets left by pruning |
| RateLimiter.PruningIsInvisible | middleware.ts:106-145 | While the clock does not go back, the pruned limiter decides every request like one that is never pruned |
| RateLimiter.DenialCountsNothing | middleware.ts:126-131 | A denied request changes no count, and the wait it is told is the number of whole seconds until the exceeded window ends |
| RateLimiter.BucketIsLastWindow | middleware.ts:118-145 | A key's bucket is the end and the number of admissions of its last window, and no window holds more than the maximum |
| RateLimiter.AdmissionRate | middleware.ts:118-145 | At most max requests of a key per window and at most 2 * max - 1 in any half-open ten-second span |
| RateLimiter.BoundIsReached | middleware.ts:118-145 | For every maximum of one or more and every key, a run that reaches that bound |
| BreadthFirst.FirstIsUnique | scripts/convert-voxel-tool-call.ts:239-276 | The first match in breadth-first order is unique |
| BreadthFirst.FirstComesFirst | scripts/convert-voxel-tool-call.ts:239-276 | The first match is reached by fewer turns than every other, or by as many that take an earlier child where they part |
| BreadthFirst.NothingLeft | scripts/convert-voxel-tool-call.ts:239-276 | When the queue is empty every reachable node has been looked at |
| ToolCallSearch.ChildrenAreSmaller | scripts/convert-voxel-tool-call.ts:255-273 | Replacing a node by its children, parsed strings included, makes the queue smaller |
| ToolCallSearch.ExtractToolCall | scripts/convert-voxel-tool-call.ts:239-276 | The search ends on every payload; it returns nothing if and only if no path of items, properties and JSON held in strings leads to a call, and otherwise the call and the path that come first: after the fewest turns, and of these the earliest |
| ToolCallSearch.MaybeParseMeans | scripts/convert-voxel-tool-call.ts:146-157 | A string is looked into exactly when, between blanks, it is an object or array that parses, or begins like one and has a top-level object that does; its value is then the whole or the first such object |
| ToolCallSearch.MatchMeans | scripts/convert-voxel-tool-call.ts:171-237 | A node is taken for a call exactly when it has the function's arguments, or is an envelope, or names the tool itself or in its function, with a payload that is no text or holds JSON; and what is then handed on |
| ToolCallSearch.DecimalMeans | scripts/convert-voxel-tool-call.ts:250-252 | The index in a path is the decimal number of the item |
| ToolCallSearch.ProviderShapesAgree | scripts/convert-voxel-tool-call.ts:171-237 | The same arguments are read from every provider shape, as a record or as text, whatever other properties surround them |
| ToolCallSearch.WrapperIsTransparent | scripts/convert-voxel-tool-call.ts:239-276 | Wrapping a payload in an array of one element, an object of one property or JSON text, if the wrapper is no call itself, leaves the search to find the same call one level deeper, behind the longer path |
| WorkerPool.LaunchFills | scripts/batch-generate.ts:1186-1195 | Launching stops only at the limit, on an empty queue or after a stop |
| WorkerPool.StepKeepsInv | scripts/batch-generate.ts:1166-1258 | Every step keeps the invariant, and every step but the stop signal leaves less to do |
| WorkerPool.RunsAreSafe | scripts/batch-generate.ts:1155-1261 | In every run in-flight jobs never exceed the concurrency, the launched jobs are a prefix of the list, no place stays free while jobs wait, and the run is over after four steps per job and one stop |
| WorkerPool.NeverStuck | scripts/batch-generate.ts:1249-1258 | An unresolved pool has a job in flight that can make a step |
| WorkerPool.ResolvedMeansDone | scripts/batch-generate.ts:1249-1258 | A resolved pool has resolved once, all launched jobs are settled, nothing can happen any more, without a stop all jobs were launched, and the verdicts add up |
| WorkerPool.UploadThrowCountsTwice | scripts/batch-generate.ts:1214-1243 | A concrete run in which one job is counted as saved and as failed |
| WorkerPool.TotalsAreCounts | scripts/batch-generate.ts:1206-1247 | In every run the totals are the numbers of jobs saved, of failures of jobs not told to stop, of uploads refused and of jobs ended by the stop |
| WorkerPool.VerdictsAddUpExactlyWhen | scripts/batch-generate.ts:1206-1258 | When a run is over, the jobs saved, failed and interrupted add up to the launched ones if and only if no upload threw in a job that was not told to stop |
| WorkerPool.Generation.LaunchAsManyAsFit | scripts/batch-generate.ts:1186-1195 | The loop launches the jobs the specification launches |
| WorkerPool.Generation.GenerationReturns | scripts/batch-generate.ts:1206-1247 | The whole new state after a generation has returned or thrown |
| WorkerPool.Generation.UploadReturns | scripts/batch-generate.ts:1216-1247 | The whole new state after an upload has returned or thrown |
| WorkerPool.Generation.FinallyBlock | scripts/batch-generate.ts:1249-1258 | The whole new state after the finally block, with the resolution or the jobs it launches |
| WorkerPool.Generation.HandleStop | scripts/batch-generate.ts:1166-1178 | The first stop signal aborts exactly the active jobs |
| ApiHealth.KeepsExactlyTheWindow | lib/apiHealth.ts:36-118 | After every event the list holds exactly the failures of the last thirty seconds not cleared since, in order |
| ApiHealth.BannerIsHeld | lib/apiHealth.ts:63-92 | The banner goes up only on two failures in the window, never comes down before six seconds, and while it is up with fewer than two failures a timer is pending |
| ApiHealth.QuietBannerComesDown | lib/apiHealth.ts:53-84 | With fewer than two failures the banner comes down by itself, after one or two timer firings, however late these come |
| ApiHealth.BannerComesDownExactlyWhen | lib/apiHealth.ts:53-92 | From any state with two failures or more, if nothing else happens but the timer, on time or any time later, the banner comes down if and only if a timer is pending and finds all failures but the last older than thirty seconds when it fires; otherwise it stays up with no timer pending |
| ApiHealth.AfterFailureComesDownExactlyWhen | lib/apiHealth.ts:94-107 | After a recorded failure that leaves two or more, that is if and only if all failures but the last lie within a tenth of a second, plus what the timer is late, of the oldest |
| ApiHealth.StuckBanner | lib/apiHealth.ts:94-107 | Failures at 0, 20 and 25 seconds leave it up if and only if the timer is at most 19.9 seconds late |
| ApiHealth.Monitor.PruneFailures | lib/apiHealth.ts:36-41 | The loop drops exactly the expired front of the list |
| ApiHealth.Monitor.UpdateHealth | lib/apiHealth.ts:63-92 | The whole new state of banner and timer |
| ApiHealth.Monitor.RecordFailure | lib/apiHealth.ts:94-107 | The whole new state after a failure |
| ApiHealth.Monitor.RecordSuccess | lib/apiHealth.ts:109-118 | The whole new state after a success: all failures of its endpoint are gone, the others stay in order |
| ApiHealth.Monitor.TimerFires | lib/apiHealth.ts:53-61 | The whole new state after the timer |
| RequestGate.NobodyIsLost | scripts/load-arena.ts:160-184 | In every run each call is in exactly one place, calls are woken in arrival order, and while anyone waits active and woken calls reach the limit |
| RequestGate.OnlySlippingInExceeds | scripts/load-arena.ts:166-183 | A step breaks the limit if and only if it is an arrival that slips in before a woken call |
| RequestGate.LimitHoldsExactlyWhen | scripts/load-arena.ts:160-184 | A run stays within the limit throughout if and only if no call ever slips in |
| RequestGate.QuietArrivalsKeepTheLimit | scripts/load-arena.ts:160-184 | The limit holds in every run in which no call arrives while a woken one has yet to resume |
| RequestGate.ExcessIsUnbounded | scripts/load-arena.ts:160-184 | Behind a limit of one, any number of calls can come to run at once |
| RequestGate.RequestGate.Call | scripts/load-arena.ts:166-176 | An arriving call waits exactly when the gate is full |
| RequestGate.RequestGate.AfterWait | scripts/load-arena.ts:173-176 | A woken call becomes active when it resumes, not before |
| RequestGate.RequestGate.FinallyBlock | scripts/load-arena.ts:179-182 | A finishing call wakes the head of the queue, if any |
| PackedPosition.EncodePosition | scripts/measure-mesh-cost.ts:34-36 | The masks, shifts and bitwise ors make the number with three digits in base 1024, for negative coordinates too |
| PackedPosition.KeysCollide | scripts/measure-mesh-cost.ts:34-36 | Two positions share a key if and only if their coordinates agree modulo 1024 |
| MeshCost.SixFaces | scripts/measure-mesh-cost.ts:24-32 | A block's faces are those drawn towards the six positions one step away along one axis, each under its own name |
| MeshCost.IndexAgrees | scripts/measure-mesh-cost.ts:93-108 | For blocks with coordinates in 0 to 1022 the index answers for every block and neighbour position what the geometry says, the last allowed block winning; wrapped keys never hit a block |
| MeshCost.WrapsAt1023 | scripts/measure-mesh-cost.ts:34-36 | With a coordinate of 1023 a wrapped neighbour key does hit a block |
| MeshCost.CountFacesOf | scripts/measure-mesh-cost.ts:103-114 | The inner loop counts the faces of a block that the geometry exposes |
| MeshCost.CountFaces | scripts/measure-mesh-cost.ts:93-117 | The printed face and visible-block totals are those defined on 3D coordinates |

## Left out

- LedgerLock.CheckedTakeoverIsSafe: a termination is of a whole process, whose id is not reused; partial pid writes and file-system errors other than the ones handled are not modelled.
- PublishedMetrics.AcknowledgedThroughoutExactlyWhen: covers one model whose jobs are listed once each, and one refresher at a time; while a refresher holds the lock nobody else writes the ledger (`LedgerLock`).
- CarefulRefresh.MarkersAcknowledgeMetrics: ranges over the same runs, in which a reconcile may find any artifact; the ledger it starts from has no record that is finalizing and clean at once.
- PublishedMetrics.Publisher.PersistGeneratedMetrics: handles one model where the program handles several under one lock.
- PublishedMetrics.Publisher.RefreshGeneratedMetrics: handles one model, whose jobs are listed once each.
- RunAttempts.FailuresAtMostStarted: assumes that a finalized attempt was started and had not been retried past; `RunAttempts.BoundHoldsExactlyWhen` is the exact condition for every sequence of operations, and `RunAttempts.BatchRunMeetsBound` shows that batch-generate keeps to it.
- BenchmarkMetrics.BenchmarkMetricsStore.Reconcile: does not model the warnings it returns.
- BenchmarkMetrics.BenchmarkMetricsStore.UpdateRecord: takes the lock for granted; `LedgerLock` models it. Two jobs whose keys collide through a slash in a slug, and key order inside compared JSON texts, are not told apart.
- BlockStream.StreamBlocks: does not model cancellation by a newer request, the numeric hint read from the text, or how a slice becomes a block (the parse is a parameter).
- BinaryV4.DecodeV4: refuses malformed UTF-8, palettes other than arrays of strings and escapes of lone surrogates, where the program would substitute characters, index into other values or keep half a character; characters are Unicode scalar values; hosts are little-endian; the version byte is not looked at, as in the program.
- StreamReader.Reader.ReadAll: starts from decoded text; time-outs, HTTP, gzip, UTF-8 decoding, an empty body, progress callbacks, the server-validated flag and load hints are left out.
- StreamReader.Reader.ProcessLine: leaves out progress callbacks, the server-validated flag and load hints.
- StreamReader.Reader.Append: keeps the stored entries as they are; their conversion to 16-bit typed arrays and a type table, and memory limits, are left out. A coordinate that is an object whose conversion to a number throws is not considered.
- ToolCallSearch.ExtractToolCall: leaves out the `seen` set, since `JSON.parse` returns trees and no object is queued twice.
- RateLimiter.Limiter.Handle: takes the rules as given; how keys are built from paths, addresses and cookies is not modelled.
- WorkerPool.Generation.GenerationReturns: assumes that markRunning and markFailed do not throw and that job labels differ; a second stop signal exits the process and is not modelled.
- ApiHealth.Monitor.UpdateHealth: leaves out the notification of listeners.
- RequestGate.RequestGate.Call: leaves out the wait-time callback.
- FinalizeRecovery.SampleStaysTruthful: assumes that the digest has no collisions and that the dead process id is not reused.
- Deleting or importing artifacts by other tools, the summary printed from the metrics, and argument parsing.
- The rest of the arena page (voting, skipping, prefetching), rendering, ranking, HTTP, storage and the database.
