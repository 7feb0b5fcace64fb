/** Whether a job's sample describes the artifact on disk, over every sequence of the store's operations
    and of finalizations, each of which may die between two of its durable writes. */
module ArtifactTruth {
  import opened Options
  import LR = LedgerRecords
  import opened BenchmarkMetrics
  import opened FinalizeRecovery

  datatype Action =
    | Operation(op: LR.Op)
    | Finalization(writes: nat, build: string, sample: Sample, pid: int, now: int)

  /** Any operation of the store; a reconcile looks at the artifact. Only finalizations write it. */
  ghost predicate IsPossible(d: Durable, a: Action, tools: Tools) {
    match a
    case Operation(op) =>
      && !op.StartFinalize? && !op.EndFinalize?
      && (op.Recover? ==> op.artifact == Verified(d.file, tools))
    case Finalization(_, build, sample, _, _) => Genuine(sample, tools) && Describes(sample, build, tools)
  }

  function Perform(d: Durable, a: Action): Durable {
    match a
    case Operation(op) => d.(record := LR.Apply(op, d.record))
    case Finalization(writes, build, sample, pid, now) => FinalizedUpTo(writes, d, build, sample, pid, now)
  }

  /** A finalization has died after it wrote the artifact that its pending sample describes. */
  predicate HasWritten(d: Durable, tools: Tools) {
    && d.record.Some? && d.record.value.state == LR.Finalizing && d.record.value.pendingSample.Some?
    && d.file.Some? && Describes(d.record.value.pendingSample.value, d.file.value, tools)
  }

  /** The sample describes the artifact, or a reconcile has still to adopt the one that does. */
  ghost predicate IsTruthful(d: Durable, tools: Tools) {
    PendingIsGenuine(d.record, tools) && (SampleMatchesDisk(d, tools) || HasWritten(d, tools))
  }

  /** The steps after which nobody will adopt it: the record is not finalizing any more, or for
      another build that is not written. */
  predicate Abandons(d: Durable, a: Action, tools: Tools) {
    && !SampleMatchesDisk(d, tools) && d.record.Some? && d.file.Some?
    && match a
       case Operation(Run(pid, alive, _)) => !LR.IsActiveElsewhere(d.record.value, pid, alive)
       case Operation(Fail(_, _, _)) => true
       case Operation(Interrupt(_, _)) => true
       case Operation(Recover(pid, alive, _, _, _)) =>
         !LR.IsActiveElsewhere(d.record.value, pid, alive) && !Parses(d.file.value, tools)
       case Finalization(writes, _, sample, _, _) => writes == 2 && !Describes(sample, d.file.value, tools)
       case _ => false
  }

  lemma {:induction false} SampleIsKept(op: LR.Op, current: Option<Record>)
    requires !op.EndFinalize? && !op.Recover?
    ensures LR.SampleOf(LR.Apply(op, current)) == LR.SampleOf(current)
  {
  }

  /** From a sample that describes the artifact. */
  lemma {:induction false} MatchingStaysTruthful(d: Durable, a: Action, tools: Tools)
    requires IsDigest(tools) && IsPossible(d, a, tools) && PendingIsGenuine(d.record, tools) && SampleMatchesDisk(d, tools)
    ensures IsTruthful(Perform(d, a), tools)
  {
    match a
    case Operation(op) =>
      StepKeepsPending(op, d.record, tools);
      if op.Recover? {
        if d.record.Some? {
          ReconcileStaysTruthful(d.record.value, d.file, op.pid, op.alive, op.verify, op.now, tools);
        }
      } else {
        SampleIsKept(op, d.record);
      }
    case Finalization(writes, build, sample, pid, now) =>
      FinalizationStaysTruthful(d, writes, build, sample, pid, now, tools);
  }

  lemma {:induction false} FinalizationStaysTruthful(d: Durable, writes: nat, build: string, sample: Sample, pid: int, now: int, tools: Tools)
    requires Genuine(sample, tools) && Describes(sample, build, tools) && IsTruthful(d, tools)
    ensures PendingIsGenuine(FinalizedUpTo(writes, d, build, sample, pid, now).record, tools)
    ensures writes >= 3 || SampleMatchesDisk(d, tools) ==> IsTruthful(FinalizedUpTo(writes, d, build, sample, pid, now), tools)
  {
    SampleIsKept(LR.CompletedAttempt(sample.attemptCount, pid, now), d.record);
  }

  /** From a pending sample that describes it, when the other does not. */
  lemma {:induction false} WrittenStaysTruthfulExactlyWhen(d: Durable, a: Action, tools: Tools)
    requires IsDigest(tools) && IsPossible(d, a, tools) && PendingIsGenuine(d.record, tools)
    requires HasWritten(d, tools) && !SampleMatchesDisk(d, tools)
    ensures IsTruthful(Perform(d, a), tools) <==> !Abandons(d, a, tools)
  {
    match a
    case Operation(op) =>
      StepKeepsPending(op, d.record, tools);
      WrittenAndOperation(d, op, tools);
    case Finalization(writes, build, sample, pid, now) =>
      WrittenAndFinalization(d, writes, build, sample, pid, now, tools);
  }

  lemma {:induction false} WrittenAndOperation(d: Durable, op: LR.Op, tools: Tools)
    requires IsPossible(d, Operation(op), tools) && PendingIsGenuine(d.record, tools)
    requires HasWritten(d, tools) && !SampleMatchesDisk(d, tools)
    ensures
      var next := Perform(d, Operation(op));
      SampleMatchesDisk(next, tools) || HasWritten(next, tools) <==> !Abandons(d, Operation(op), tools)
  {
  }

  lemma {:induction false} WrittenAndFinalization(d: Durable, writes: nat, build: string, sample: Sample, pid: int, now: int, tools: Tools)
    requires Genuine(sample, tools) && Describes(sample, build, tools) && PendingIsGenuine(d.record, tools)
    requires HasWritten(d, tools) && !SampleMatchesDisk(d, tools)
    ensures
      var a := Finalization(writes, build, sample, pid, now);
      IsTruthful(Perform(d, a), tools) <==> !Abandons(d, a, tools)
  {
    FinalizationStaysTruthful(d, writes, build, sample, pid, now, tools);
  }

  /** Main result on one step. */
  lemma {:induction false} StepStaysTruthfulExactlyWhen(d: Durable, a: Action, tools: Tools)
    requires IsDigest(tools) && IsPossible(d, a, tools) && IsTruthful(d, tools)
    ensures IsTruthful(Perform(d, a), tools) <==> !Abandons(d, a, tools)
  {
    if SampleMatchesDisk(d, tools) {
      MatchingStaysTruthful(d, a, tools);
    } else {
      WrittenStaysTruthfulExactlyWhen(d, a, tools);
    }
  }

  // ----- whole runs -----

  /** From a job that is not known yet, whatever artifact it has. */
  ghost predicate IsRun(states: seq<Durable>, actions: seq<Action>, tools: Tools) {
    && |states| == |actions| + 1 && states[0].record.None?
    && forall k | 0 <= k < |actions| ::
         IsPossible(states[k], actions[k], tools) && states[k + 1] == Perform(states[k], actions[k])
  }

  lemma {:induction false} RunStaysTruthful(states: seq<Durable>, actions: seq<Action>, tools: Tools, k: nat)
    requires IsDigest(tools) && IsRun(states, actions, tools) && k < |states|
    requires forall j | 0 <= j < k :: !Abandons(states[j], actions[j], tools)
    ensures IsTruthful(states[k], tools)
    decreases k
  {
    if k > 0 {
      RunStaysTruthful(states, actions, tools, k - 1);
      StepStaysTruthfulExactlyWhen(states[k - 1], actions[k - 1], tools);
    }
  }

  /** Main result: in every run, the sample describes the artifact whenever no finalization is pending,
      or is still to be adopted from one that has died, if and only if nothing is done to the job
      between such a death and the reconcile that adopts it. */
  lemma {:induction false} TruthfulThroughoutExactlyWhen(states: seq<Durable>, actions: seq<Action>, tools: Tools)
    requires IsDigest(tools) && IsRun(states, actions, tools)
    ensures (forall k | 0 <= k < |states| :: IsTruthful(states[k], tools))
       <==> (forall k | 0 <= k < |actions| :: !Abandons(states[k], actions[k], tools))
    ensures forall k | 0 <= k < |states| && IsTruthful(states[k], tools) && !HasWritten(states[k], tools) ::
      SampleMatchesDisk(states[k], tools)
  {
    if forall k | 0 <= k < |actions| :: !Abandons(states[k], actions[k], tools) {
      forall k | 0 <= k < |states| ensures IsTruthful(states[k], tools) {
        RunStaysTruthful(states, actions, tools, k);
      }
    }
    if forall k | 0 <= k < |states| :: IsTruthful(states[k], tools) {
      forall k | 0 <= k < |actions| ensures !Abandons(states[k], actions[k], tools) {
        assert IsTruthful(states[k + 1], tools);
        StepStaysTruthfulExactlyWhen(states[k], actions[k], tools);
      }
    }
  }

  /** Such a run: a succeeded job is finalized again, dies with the other artifact written, and is
      started anew before any reconcile: it has the sample of the artifact that is gone. */
  lemma {:induction false} NewRunAbandonsTheBuild(d: Durable, build: string, sample: Sample, pid: int, alive: set<int>,
                                                  other: int, now: int, later: int, tools: Tools)
    requires CrashSetting(d, build, sample, pid, alive, other, tools)
    requires LR.SampleOf(d.record).Some? && !Describes(LR.SampleOf(d.record).value, build, tools)
    ensures
      var died := Perform(d, Finalization(3, build, sample, pid, now));
      var end := Perform(died, Operation(LR.Run(other, alive, later)));
      HasWritten(died, tools) && end.record.Some? && end.record.value.state == LR.Running && !IsTruthful(end, tools)
  {
    SampleIsKept(LR.CompletedAttempt(sample.attemptCount, pid, now), d.record);
  }
}
