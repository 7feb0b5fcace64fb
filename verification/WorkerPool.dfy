/** The generation worker pool: a queue of jobs, at most `concurrency` of them in flight, and a
    promise that resolves when the work is over. A job is known by its place in launch order. */
module WorkerPool {
  import opened Options

  /** How far the work on a launched job has come. */
  datatype Phase =
    | Running     // generateAndSave has not returned
    | Uploading   // uploadBuild has not returned
    | Ending      // counted as completed; its finally block is still to run
    | Settled

  datatype Outcome = Fine | NotOk | Threw

  datatype Pool = Pool(
    queue: seq<string>,
    launched: seq<string>,
    phases: seq<Phase>,
    aborted: seq<bool>,
    active: set<nat>,
    inFlight: int,
    started: int,
    totals: Totals,
    stopRequested: bool,
    resolved: int)

  datatype Totals = Totals(
    completed: int,
    success: int,
    failed: int,
    uploadFailures: int,
    // not counted by the program, only told to the reader of its output:
    interrupted: int,
    failedAfterSuccess: int)

  const ZERO := Totals(0, 0, 0, 0, 0, 0)

  datatype Setup = Setup(jobs: seq<string>, concurrency: int, upload: bool)

  datatype Event =
    | GenerationEnds(job: nat, outcome: Outcome)
    | UploadEnds(job: nat, outcome: Outcome)
    | Finally(job: nat)
    | Stop

  // ----- steps -----

  function LaunchOne(p: Pool): Pool
    requires p.queue != []
  {
    p.(queue := p.queue[1..], launched := p.launched + [p.queue[0]], phases := p.phases + [Running],
       aborted := p.aborted + [false], active := p.active + {|p.launched|},
       inFlight := p.inFlight + 1, started := p.started + 1)
  }

  function LaunchNext(p: Pool, concurrency: int): Pool
    decreases |p.queue|
  {
    if !p.stopRequested && p.inFlight < concurrency && p.queue != [] then LaunchNext(LaunchOne(p), concurrency) else p
  }

  function Empty(setup: Setup): Pool {
    Pool(setup.jobs, [], [], [], {}, 0, 0, ZERO, false, 0)
  }

  function Begin(setup: Setup): Pool {
    LaunchNext(Empty(setup), setup.concurrency)
  }

  predicate Enabled(p: Pool, e: Event) {
    match e
    case GenerationEnds(job, _) => job < |p.phases| && p.phases[job] == Running
    case UploadEnds(job, _) => job < |p.phases| && p.phases[job] == Uploading
    case Finally(job) => job < |p.phases| && p.phases[job] == Ending
    case Stop => !p.stopRequested && p.resolved == 0
  }

  /** The catch block; a job that was told to stop is not counted as failed. */
  function Caught(t: Totals, aborted: bool): Totals {
    t.(completed := t.completed + 1, failed := t.failed + if aborted then 0 else 1)
  }

  function CountGeneration(t: Totals, outcome: Outcome, aborted: bool, upload: bool): Totals {
    match outcome
    case Fine => t.(success := t.success + 1, completed := t.completed + if upload then 0 else 1)
    case _ => Caught(t.(interrupted := t.interrupted + if aborted then 1 else 0), aborted)
  }

  function CountUpload(t: Totals, outcome: Outcome, aborted: bool): Totals {
    match outcome
    case Fine => t.(completed := t.completed + 1)
    case NotOk => t.(completed := t.completed + 1, uploadFailures := t.uploadFailures + 1)
    case Threw => Caught(t.(failedAfterSuccess := t.failedAfterSuccess + if aborted then 0 else 1), aborted)
  }

  function GenerationEnded(p: Pool, job: nat, outcome: Outcome, upload: bool): Pool
    requires job < |p.phases| == |p.aborted|
  {
    p.(phases := p.phases[job := if outcome == Fine && upload then Uploading else Ending],
       active := if outcome == Threw then p.active else p.active - {job},
       totals := CountGeneration(p.totals, outcome, p.aborted[job], upload))
  }

  function UploadEnded(p: Pool, job: nat, outcome: Outcome): Pool
    requires job < |p.phases| == |p.aborted|
  {
    p.(phases := p.phases[job := Ending], totals := CountUpload(p.totals, outcome, p.aborted[job]))
  }

  /** The finally block, before new jobs are launched. */
  function Freed(p: Pool, job: nat): Pool
    requires job < |p.phases|
  {
    p.(phases := p.phases[job := Settled], active := p.active - {job}, inFlight := p.inFlight - 1)
  }

  function Left(p: Pool, job: nat, concurrency: int): Pool
    requires job < |p.phases|
  {
    var q := Freed(p, job);
    if (q.queue == [] || q.stopRequested) && q.inFlight == 0 then q.(resolved := q.resolved + 1)
    else LaunchNext(q, concurrency)
  }

  function Stopped(p: Pool): Pool {
    p.(stopRequested := true,
       aborted := seq(|p.aborted|, i requires 0 <= i < |p.aborted| => p.aborted[i] || i in p.active))
  }

  function Step(p: Pool, e: Event, setup: Setup): Pool
    requires |p.phases| == |p.aborted| && Enabled(p, e)
  {
    match e
    case GenerationEnds(job, outcome) => GenerationEnded(p, job, outcome, setup.upload)
    case UploadEnds(job, outcome) => UploadEnded(p, job, outcome)
    case Finally(job) => Left(p, job, setup.concurrency)
    case Stop => Stopped(p)
  }

  // ----- the invariant -----

  /** Jobs in a phase. */
  function InPhase(phases: seq<Phase>, phase: Phase): nat {
    if phases == [] then 0
    else InPhase(phases[..|phases| - 1], phase) + (if phases[|phases| - 1] == phase then 1 else 0)
  }

  function Unsettled(phases: seq<Phase>): nat {
    InPhase(phases, Running) + InPhase(phases, Uploading) + InPhase(phases, Ending)
  }

  /** Every completed or uploading job has one verdict, but those saved and then failed have two. */
  ghost predicate AddUp(t: Totals, phases: seq<Phase>) {
    && t.completed == InPhase(phases, Ending) + InPhase(phases, Settled)
    && t.success + t.failed + t.interrupted == t.completed + InPhase(phases, Uploading) + t.failedAfterSuccess
  }

  /** Everything but that the pool is full: what also holds while jobs are being launched. */
  ghost predicate HasRoom(p: Pool, setup: Setup) {
    && p.launched + p.queue == setup.jobs
    && |p.phases| == |p.aborted| == |p.launched| == p.started
    && 0 <= p.inFlight <= setup.concurrency
    && p.inFlight == Unsettled(p.phases)
    && AddUp(p.totals, p.phases)
    && (forall job | job in p.active :: job < |p.phases|)
    && (forall job | 0 <= job < |p.phases| :: p.phases[job] == Running ==> job in p.active)
  }

  ghost predicate Inv(p: Pool, setup: Setup) {
    && HasRoom(p, setup)
    && p.resolved == (if p.inFlight == 0 then 1 else 0)
    && (p.queue != [] && !p.stopRequested ==> p.inFlight == setup.concurrency)
  }

  /** What is left to do: four steps at most for a queued job, fewer for a launched one. */
  function Work(p: Pool): nat {
    4 * |p.queue| + PhaseWork(p.phases)
  }

  function PhaseWork(phases: seq<Phase>): nat {
    if phases == [] then 0 else PhaseWork(phases[..|phases| - 1]) + WorkOf(phases[|phases| - 1])
  }

  function WorkOf(phase: Phase): nat {
    match phase
    case Running => 3
    case Uploading => 2
    case Ending => 1
    case Settled => 0
  }

  lemma {:induction false} PhaseChanges(phases: seq<Phase>, job: nat, to: Phase, phase: Phase)
    requires job < |phases|
    ensures InPhase(phases[job := to], phase)
         == InPhase(phases, phase) - (if phases[job] == phase then 1 else 0) + (if to == phase then 1 else 0)
    decreases |phases|
  {
    var init := phases[..|phases| - 1];
    if job < |init| {
      PhaseChanges(init, job, to, phase);
      assert phases[job := to][..|phases| - 1] == init[job := to];
    } else {
      assert phases[job := to][..|phases| - 1] == init;
    }
  }

  lemma {:induction false} WorkChanges(phases: seq<Phase>, job: nat, to: Phase)
    requires job < |phases|
    ensures PhaseWork(phases[job := to]) == PhaseWork(phases) - WorkOf(phases[job]) + WorkOf(to)
    decreases |phases|
  {
    var init := phases[..|phases| - 1];
    if job < |init| {
      WorkChanges(init, job, to);
      assert phases[job := to][..|phases| - 1] == init[job := to];
    } else {
      assert phases[job := to][..|phases| - 1] == init;
    }
  }

  lemma {:induction false} SomeInPhase(phases: seq<Phase>, phase: Phase)
    ensures InPhase(phases, phase) > 0 <==> phase in phases
    decreases |phases|
  {
    if phases != [] {
      SomeInPhase(phases[..|phases| - 1], phase);
      assert phases == phases[..|phases| - 1] + [phases[|phases| - 1]];
    }
  }

  lemma {:induction false} LaunchOneHasRoom(p: Pool, setup: Setup)
    requires HasRoom(p, setup) && p.queue != [] && p.inFlight < setup.concurrency
    ensures HasRoom(LaunchOne(p), setup) && Work(LaunchOne(p)) <= Work(p)
  {
    var q := LaunchOne(p);
    assert q.phases[..|p.phases|] == p.phases;
    assert q.launched + q.queue == p.launched + p.queue;
  }

  /** Launching fills the pool: it stops only at the limit, on an empty queue or after a stop. */
  lemma {:induction false} LaunchFills(p: Pool, setup: Setup)
    requires HasRoom(p, setup)
    ensures
      var q := LaunchNext(p, setup.concurrency);
      && HasRoom(q, setup) && Work(q) <= Work(p)
      && (q.queue != [] && !q.stopRequested ==> q.inFlight == setup.concurrency)
      && q.resolved == p.resolved && q.stopRequested == p.stopRequested && q.inFlight >= p.inFlight
      && (p.queue != [] && !p.stopRequested && p.inFlight < setup.concurrency ==> q.inFlight > p.inFlight)
      && (p.queue == [] ==> q == p)
    decreases |p.queue|
  {
    if !p.stopRequested && p.inFlight < setup.concurrency && p.queue != [] {
      LaunchOneHasRoom(p, setup);
      LaunchFills(LaunchOne(p), setup);
    }
  }

  lemma {:induction false} BeginKeepsInv(setup: Setup)
    requires setup.jobs != [] && setup.concurrency >= 1
    ensures Inv(Begin(setup), setup) && Work(Begin(setup)) <= 4 * |setup.jobs|
  {
    LaunchFills(Empty(setup), setup);
  }

  /** Every step keeps the invariant; every step but the stop signal leaves less to do. */
  lemma {:induction false} StepKeepsInv(p: Pool, e: Event, setup: Setup)
    requires Inv(p, setup) && Enabled(p, e)
    ensures Inv(Step(p, e, setup), setup)
    ensures if e.Stop? then Work(Step(p, e, setup)) == Work(p) && Step(p, e, setup).stopRequested
            else Work(Step(p, e, setup)) < Work(p) && Step(p, e, setup).stopRequested == p.stopRequested
    ensures p.launched <= Step(p, e, setup).launched
  {
    match e
    case GenerationEnds(job, outcome) => GenerationKeepsInv(p, job, outcome, setup);
    case UploadEnds(job, outcome) => UploadKeepsInv(p, job, outcome, setup);
    case Finally(job) => LeavingKeepsInv(p, job, setup);
    case Stop => StopKeepsInv(p, setup);
  }

  /** What a change of one job's phase does to the counts. */
  lemma {:induction false} MovesOn(phases: seq<Phase>, job: nat, to: Phase)
    requires job < |phases|
    ensures
      var next := phases[job := to];
      && Unsettled(next) == Unsettled(phases) - (if phases[job] == Settled then 0 else 1) + (if to == Settled then 0 else 1)
      && PhaseWork(next) == PhaseWork(phases) - WorkOf(phases[job]) + WorkOf(to)
      && InPhase(next, Uploading) == InPhase(phases, Uploading) - (if phases[job] == Uploading then 1 else 0)
                                     + (if to == Uploading then 1 else 0)
      && InPhase(next, Ending) + InPhase(next, Settled) == InPhase(phases, Ending) + InPhase(phases, Settled)
           - (if phases[job] in {Ending, Settled} then 1 else 0) + (if to in {Ending, Settled} then 1 else 0)
  {
    PhaseChanges(phases, job, to, Running);
    PhaseChanges(phases, job, to, Uploading);
    PhaseChanges(phases, job, to, Ending);
    PhaseChanges(phases, job, to, Settled);
    WorkChanges(phases, job, to);
  }

  lemma {:induction false} GenerationAddsUp(t: Totals, phases: seq<Phase>, job: nat, outcome: Outcome, aborted: bool, upload: bool)
    requires job < |phases| && phases[job] == Running && AddUp(t, phases)
    ensures
      var to := if outcome == Fine && upload then Uploading else Ending;
      AddUp(CountGeneration(t, outcome, aborted, upload), phases[job := to])
  {
    MovesOn(phases, job, if outcome == Fine && upload then Uploading else Ending);
  }

  lemma {:induction false} UploadAddsUp(t: Totals, phases: seq<Phase>, job: nat, outcome: Outcome, aborted: bool)
    requires job < |phases| && phases[job] == Uploading && AddUp(t, phases)
    ensures AddUp(CountUpload(t, outcome, aborted), phases[job := Ending])
  {
    MovesOn(phases, job, Ending);
  }

  lemma {:induction false} UploadKeepsInv(p: Pool, job: nat, outcome: Outcome, setup: Setup)
    requires Inv(p, setup) && Enabled(p, UploadEnds(job, outcome))
    ensures
      var q := UploadEnded(p, job, outcome);
      Inv(q, setup) && Work(q) < Work(p) && q.stopRequested == p.stopRequested && q.launched == p.launched
  {
    MovesOn(p.phases, job, Ending);
    UploadAddsUp(p.totals, p.phases, job, outcome, p.aborted[job]);
  }

  lemma {:induction false} StopKeepsInv(p: Pool, setup: Setup)
    requires Inv(p, setup) && Enabled(p, Stop)
    ensures Inv(Stopped(p), setup) && Work(Stopped(p)) == Work(p)
  {
  }

  lemma {:induction false} GenerationKeepsInv(p: Pool, job: nat, outcome: Outcome, setup: Setup)
    requires Inv(p, setup) && Enabled(p, GenerationEnds(job, outcome))
    ensures
      var q := GenerationEnded(p, job, outcome, setup.upload);
      Inv(q, setup) && Work(q) < Work(p) && q.stopRequested == p.stopRequested && q.launched == p.launched
  {
    MovesOn(p.phases, job, if outcome == Fine && setup.upload then Uploading else Ending);
    GenerationAddsUp(p.totals, p.phases, job, outcome, p.aborted[job], setup.upload);
  }

  lemma {:induction false} LeavingHasRoom(p: Pool, job: nat, setup: Setup)
    requires Inv(p, setup) && Enabled(p, Finally(job))
    ensures HasRoom(Freed(p, job), setup) && Work(Freed(p, job)) < Work(p)
    ensures p.inFlight > 0 && p.resolved == 0
  {
    MovesOn(p.phases, job, Settled);
    SomeInPhase(p.phases, Ending);
  }

  lemma {:induction false} LeavingKeepsInv(p: Pool, job: nat, setup: Setup)
    requires Inv(p, setup) && Enabled(p, Finally(job))
    ensures
      var q := Left(p, job, setup.concurrency);
      Inv(q, setup) && Work(q) < Work(p) && q.stopRequested == p.stopRequested && p.launched <= q.launched
  {
    LeavingHasRoom(p, job, setup);
    LaunchFills(Freed(p, job), setup);
  }

  // ----- runs -----

  /** The pool after a list of events; None when one of them could not happen. */
  function Run(setup: Setup, events: seq<Event>): Option<Pool> {
    if events == [] then Some(Begin(setup))
    else
      match Run(setup, events[..|events| - 1])
      case None => None
      case Some(p) =>
        var e := events[|events| - 1];
        if |p.phases| == |p.aborted| && Enabled(p, e) then Some(Step(p, e, setup)) else None
  }

  /** Main result: in every run at most `concurrency` jobs are in flight, the launched jobs are a
      prefix of the list, each launched once, no place stays free while jobs wait, and the run
      is over after four steps per job and the one stop. */
  lemma {:induction false} RunsAreSafe(setup: Setup, events: seq<Event>)
    requires setup.jobs != [] && setup.concurrency >= 1 && Run(setup, events).Some?
    ensures
      var p := Run(setup, events).value;
      && Inv(p, setup) && p.launched <= setup.jobs
      && |events| + Work(p) <= 4 * |setup.jobs| + (if p.stopRequested then 1 else 0)
    decreases |events|
  {
    if events == [] {
      BeginKeepsInv(setup);
    } else {
      var init := events[..|events| - 1];
      RunsAreSafe(setup, init);
      StepKeepsInv(Run(setup, init).value, events[|events| - 1], setup);
    }
  }

  /** An unresolved pool has a job in flight, and some job can always make a step. */
  lemma {:induction false} NeverStuck(p: Pool, setup: Setup) returns (e: Event)
    requires Inv(p, setup) && p.resolved == 0
    ensures p.inFlight > 0 && Enabled(p, e) && !e.Stop?
    ensures Enabled(p, Stop) <==> !p.stopRequested
  {
    SomeInPhase(p.phases, Running);
    SomeInPhase(p.phases, Uploading);
    SomeInPhase(p.phases, Ending);
    if InPhase(p.phases, Running) > 0 {
      var job: nat :| job < |p.phases| && p.phases[job] == Running;
      return GenerationEnds(job, Fine);
    } else if InPhase(p.phases, Uploading) > 0 {
      var job: nat :| job < |p.phases| && p.phases[job] == Uploading;
      return UploadEnds(job, Fine);
    } else {
      var job: nat :| job < |p.phases| && p.phases[job] == Ending;
      return Finally(job);
    }
  }

  /** The pool resolves exactly once: when it has, every launched job has settled, nothing can
      happen any more, and without a stop every job of the list was launched. The verdicts add
      up to the launched jobs, but for those counted as saved and then as failed. */
  lemma {:induction false} ResolvedMeansDone(p: Pool, e: Event, setup: Setup)
    requires Inv(p, setup) && p.resolved != 0
    ensures p.resolved == 1 && !Enabled(p, e)
    ensures forall job | 0 <= job < |p.phases| :: p.phases[job] == Settled
    ensures p.totals.completed == |p.launched| && (!p.stopRequested && setup.concurrency >= 1 ==> p.launched == setup.jobs)
    ensures p.totals.success + p.totals.failed + p.totals.interrupted == |p.launched| + p.totals.failedAfterSuccess
  {
    SomeInPhase(p.phases, Running);
    SomeInPhase(p.phases, Uploading);
    SomeInPhase(p.phases, Ending);
    PhasesAddUp(p.phases);
    forall job | 0 <= job < |p.phases| ensures p.phases[job] == Settled {
    }
  }

  lemma {:induction false} PhasesAddUp(phases: seq<Phase>)
    ensures InPhase(phases, Running) + InPhase(phases, Uploading) + InPhase(phases, Ending) + InPhase(phases, Settled)
      == |phases|
    decreases |phases|
  {
    if phases != [] {
      PhasesAddUp(phases[..|phases| - 1]);
    }
  }

  /** One job whose upload throws: it is counted both as saved and as failed. */
  lemma {:induction false} UploadThrowCountsTwice()
    ensures
      var events := [GenerationEnds(0, Fine), UploadEnds(0, Threw), Finally(0)];
      var end := Run(Setup(["job"], 1, true), events);
      end.Some? && end.value.resolved == 1 && end.value.launched == ["job"]
      && end.value.totals.success == 1 && end.value.totals.failed == 1
  {
    var setup := Setup(["job"], 1, true);
    var a, b, c := GenerationEnds(0, Fine), UploadEnds(0, Threw), Finally(0);
    assert [a, b, c][..2] == [a, b] && [a, b][..1] == [a] && [a][..0] == [];
    var begun := Pool([], ["job"], [Running], [false], {0}, 1, 1, ZERO, false, 0);
    assert Begin(setup) == begun by {
      assert ["job"][1..] == [];
    }
    assert Run(setup, [a]).Some?;
    assert Run(setup, [a, b]).Some?;
  }

  /** The upload of a job that was not told to stop throws. */
  predicate UploadThrows(before: Option<Pool>, e: Event) {
    && before.Some? && e.UploadEnds? && e.outcome == Threw
    && e.job < |before.value.aborted| && !before.value.aborted[e.job]
  }

  lemma {:induction false} LaunchingCountsNothing(p: Pool, concurrency: int)
    ensures LaunchNext(p, concurrency).totals == p.totals
    decreases |p.queue|
  {
    if !p.stopRequested && p.inFlight < concurrency && p.queue != [] {
      LaunchingCountsNothing(LaunchOne(p), concurrency);
    }
  }

  lemma {:induction false} StepFailsAfterSuccess(p: Pool, e: Event, setup: Setup)
    requires |p.phases| == |p.aborted| && Enabled(p, e)
    ensures Step(p, e, setup).totals.failedAfterSuccess
         == p.totals.failedAfterSuccess + if UploadThrows(Some(p), e) then 1 else 0
  {
    if e.Finally? {
      LaunchingCountsNothing(Freed(p, e.job), setup.concurrency);
    }
  }

  lemma {:induction false} FailuresAfterSuccess(setup: Setup, events: seq<Event>)
    requires Run(setup, events).Some?
    ensures 0 <= Run(setup, events).value.totals.failedAfterSuccess
    ensures Run(setup, events).value.totals.failedAfterSuccess == 0
       <==> forall k | 0 <= k < |events| :: !UploadThrows(Run(setup, events[..k]), events[k])
    decreases |events|
  {
    if events == [] {
      LaunchingCountsNothing(Empty(setup), setup.concurrency);
    } else {
      var init := events[..|events| - 1];
      FailuresAfterSuccess(setup, init);
      forall k | 0 <= k <= |init| ensures init[..k] == events[..k] {
      }
      StepFailsAfterSuccess(Run(setup, init).value, events[|init|], setup);
    }
  }

  /** When a run is over, the jobs saved, failed and interrupted add up to the launched ones if and
      only if no upload has thrown in a job that was not told to stop. */
  lemma {:induction false} VerdictsAddUpExactlyWhen(setup: Setup, events: seq<Event>)
    requires setup.jobs != [] && setup.concurrency >= 1
    requires Run(setup, events).Some? && Run(setup, events).value.resolved != 0
    ensures
      var p := Run(setup, events).value;
      p.totals.success + p.totals.failed + p.totals.interrupted == |p.launched| <==>
      forall k | 0 <= k < |events| :: !UploadThrows(Run(setup, events[..k]), events[k])
  {
    RunsAreSafe(setup, events);
    ResolvedMeansDone(Run(setup, events).value, Stop, setup);
    FailuresAfterSuccess(setup, events);
  }

  // ----- what the totals count -----

  /** How often something has happened in a run. */
  function Occurrences(setup: Setup, events: seq<Event>, counted: (Pool, Event) -> bool): nat {
    if events == [] then 0
    else
      var init := events[..|events| - 1];
      var p := Run(setup, init);
      Occurrences(setup, init, counted) + if p.Some? && counted(p.value, events[|events| - 1]) then 1 else 0
  }

  predicate IsAborted(p: Pool, job: nat) {
    job < |p.aborted| && p.aborted[job]
  }

  predicate IsSaved(p: Pool, e: Event) {
    e.GenerationEnds? && e.outcome == Fine
  }

  /** Nothing came of it, or it threw, and nobody had told the job to stop. */
  predicate IsFailed(p: Pool, e: Event) {
    !IsAborted(p, if e.Stop? then 0 else e.job)
    && ((e.GenerationEnds? && e.outcome != Fine) || (e.UploadEnds? && e.outcome == Threw))
  }

  predicate IsNotUploaded(p: Pool, e: Event) {
    e.UploadEnds? && e.outcome == NotOk
  }

  predicate IsStoppedJob(p: Pool, e: Event) {
    e.GenerationEnds? && e.outcome != Fine && IsAborted(p, e.job)
  }

  /** The totals are what they are called: the jobs saved, the failures of jobs not told to stop, the
      uploads that were refused, and the jobs that ended because they were told to stop. */
  lemma {:induction false} TotalsAreCounts(setup: Setup, events: seq<Event>)
    requires Run(setup, events).Some?
    ensures
      var t := Run(setup, events).value.totals;
      && t.success == Occurrences(setup, events, IsSaved)
      && t.failed == Occurrences(setup, events, IsFailed)
      && t.uploadFailures == Occurrences(setup, events, IsNotUploaded)
      && t.interrupted == Occurrences(setup, events, IsStoppedJob)
    decreases |events|
  {
    if events == [] {
      LaunchingCountsNothing(Empty(setup), setup.concurrency);
    } else {
      var init := events[..|events| - 1];
      TotalsAreCounts(setup, init);
      StepCounts(Run(setup, init).value, events[|init|], setup);
    }
  }

  lemma {:induction false} StepCounts(p: Pool, e: Event, setup: Setup)
    requires |p.phases| == |p.aborted| && Enabled(p, e)
    ensures
      var t := Step(p, e, setup).totals;
      && t.success == p.totals.success + (if IsSaved(p, e) then 1 else 0)
      && t.failed == p.totals.failed + (if IsFailed(p, e) then 1 else 0)
      && t.uploadFailures == p.totals.uploadFailures + (if IsNotUploaded(p, e) then 1 else 0)
      && t.interrupted == p.totals.interrupted + (if IsStoppedJob(p, e) then 1 else 0)
  {
    if e.Finally? {
      LaunchingCountsNothing(Freed(p, e.job), setup.concurrency);
    }
  }

  // ----- the program -----

  class Generation {
    const setup: Setup
    var queue: seq<string>
    var aborted: seq<bool>
    var active: set<nat>
    var inFlight: int
    var started: nat
    var completed: int
    var success: int
    var failed: int
    var uploadFailures: int
    var stopRequested: bool
    var resolved: int
    ghost var phases: seq<Phase>
    ghost var launched: seq<string>
    ghost var interrupted: int
    ghost var failedAfterSuccess: int

    ghost function Now(): Pool
      reads this
    {
      Pool(queue, launched, phases, aborted, active, inFlight, started, Verdicts(), stopRequested, resolved)
    }

    ghost function Verdicts(): Totals
      reads this
    {
      Totals(completed, success, failed, uploadFailures, interrupted, failedAfterSuccess)
    }

    /** Kept by every method: each makes the step of the same name, and StepKeepsInv is about those. */
    ghost predicate Valid()
      reads this
    {
      Inv(Now(), setup)
    }

    constructor (setup: Setup)
      requires setup.jobs != [] && setup.concurrency >= 1
      ensures Valid() && Now() == Begin(setup) && this.setup == setup
    {
      this.setup := setup;
      queue, launched, phases, aborted, active := setup.jobs, [], [], [], {};
      inFlight, started, completed, success, failed, uploadFailures := 0, 0, 0, 0, 0, 0;
      stopRequested, resolved, interrupted, failedAfterSuccess := false, 0, 0, 0;
      new;
      BeginKeepsInv(setup);
      assert Now() == Empty(setup);
      LaunchAsManyAsFit();
    }

    method LaunchAsManyAsFit()
      requires HasRoom(Now(), setup)
      modifies this
      ensures Now() == LaunchNext(old(Now()), setup.concurrency)
    {
      while !stopRequested && inFlight < setup.concurrency && queue != []
        invariant HasRoom(Now(), setup)
        invariant LaunchNext(Now(), setup.concurrency) == LaunchNext(old(Now()), setup.concurrency)
        decreases |queue|
      {
        LaunchOneHasRoom(Now(), setup);
        LaunchOneMore();
      }
    }

    method LaunchOneMore()
      requires queue != [] && |launched| == started
      modifies this
      ensures Now() == LaunchOne(old(Now()))
    {
      ghost var next := LaunchOne(Now());
      var job := queue[0];
      queue := queue[1..];
      active := active + {started};
      started := started + 1;
      inFlight := inFlight + 1;
      aborted := aborted + [false];
      launched, phases := launched + [job], phases + [Running];
      assert Now() == next;
    }

    /** Both the end of the work and the catch block count the job as completed. */
    method Complete(job: nat)
      requires job < |phases|
      modifies this`completed, this`phases
      ensures completed == old(completed) + 1 && phases == old(phases)[job := Ending]
    {
      completed := completed + 1;
      phases := phases[job := Ending];
    }

    method GenerationReturns(job: nat, outcome: Outcome)
      requires Valid() && Enabled(Now(), GenerationEnds(job, outcome))
      modifies this
      ensures Now() == GenerationEnded(old(Now()), job, outcome, setup.upload)
    {
      ghost var next := GenerationEnded(Now(), job, outcome, setup.upload);
      if outcome != Threw {
        active := active - {job};
      }
      if outcome == Fine {
        success := success + 1;
        if setup.upload {
          phases := phases[job := Uploading];
          assert Verdicts() == next.totals;
          return;
        }
      } else if !aborted[job] {
        failed := failed + 1;
      } else {
        interrupted := interrupted + 1;
      }
      Complete(job);
      assert Verdicts() == next.totals;
    }

    method UploadReturns(job: nat, outcome: Outcome)
      requires Valid() && Enabled(Now(), UploadEnds(job, outcome))
      modifies this
      ensures Now() == UploadEnded(old(Now()), job, outcome)
    {
      ghost var next := UploadEnded(Now(), job, outcome);
      if outcome == NotOk {
        uploadFailures := uploadFailures + 1;
      } else if outcome == Threw && !aborted[job] {
        failed := failed + 1;
        failedAfterSuccess := failedAfterSuccess + 1;
      }
      Complete(job);
      assert Verdicts() == next.totals;
    }

    method FinallyBlock(job: nat)
      requires Valid() && Enabled(Now(), Finally(job))
      modifies this
      ensures Now() == Left(old(Now()), job, setup.concurrency)
    {
      LeavingHasRoom(Now(), job, setup);
      active := active - {job};
      inFlight := inFlight - 1;
      phases := phases[job := Settled];
      if (queue == [] || stopRequested) && inFlight == 0 {
        resolved := resolved + 1;
      } else {
        LaunchAsManyAsFit();
      }
    }

    /** The first stop signal: no new jobs, and every active job is told to abort. */
    method HandleStop()
      requires Valid() && Enabled(Now(), Stop)
      modifies this
      ensures Now() == Stopped(old(Now()))
    {
      stopRequested := true;
      var waiting := active;
      while waiting != {}
        invariant waiting <= active
        invariant Now() == old(Now()).(stopRequested := true, aborted := aborted)
        invariant |aborted| == |old(aborted)|
        invariant forall i | 0 <= i < |aborted| :: aborted[i] == (old(aborted)[i] || (i in active && i !in waiting))
        decreases |waiting|
      {
        var job :| job in waiting;
        waiting := waiting - {job};
        aborted := aborted[job := true];
      }
    }
  }
}
