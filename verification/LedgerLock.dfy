/** withLedgerLock: mutual exclusion by a lock file, its creation and the writing of the
    owner's pid being separate steps, under every interleaving of any number of calls. */
module LedgerLock {
  import opened Options

  const MAX_ATTEMPTS := 500

  datatype LockFile = Absent | Empty | Owner(pid: int)

  /** Where a call of withLedgerLock stands. */
  datatype Pc<L> =
    | Trying(attempt: nat)               // about to create the lock file
    | Blocked(attempt: nat)              // the file existed; about to read it
    | SawOwner(attempt: nat, owner: Option<int>)
    | Opened                             // created the file, pid not written yet
    | Entered                            // about to read the ledger
    | HasRead(copy: L)
    | Finished                           // operation() is over, by success or by an exception
    | Closed                             // descriptor closed, about to unlink
    | Done
    | TimedOut

  datatype Call<L, U> = Call(pid: int, update: U, pc: Pc<L>)

  /** `acquired` lists the calls in the order in which they created the lock file. */
  datatype State<L, U> = State(
    calls: map<int, Call<L, U>>,
    alive: set<int>,
    lock: LockFile,
    ledger: L,
    acquired: seq<int>)

  datatype Event =
    | Create(call: int)
    | WritePid(call: int)
    | ReadOwner(call: int)
    | Takeover(call: int)
    | Wait(call: int)
    | ReadLedger(call: int)
    | RunUpdate(call: int)
    | Close(call: int)
    | Unlink(call: int)
    | Terminate(pid: int)

  function At<L, U>(s: State<L, U>, call: int, pc: Pc<L>): State<L, U>
    requires call in s.calls
  {
    s.(calls := s.calls[call := s.calls[call].(pc := pc)])
  }

  /** The owner that was read is a process that is gone. */
  predicate IsStale<L, U>(s: State<L, U>, owner: Option<int>) {
    owner.Some? && owner.value > 0 && owner.value !in s.alive
  }

  predicate Enabled<L, U>(s: State<L, U>, e: Event) {
    if e.Terminate? then true
    else
      && e.call in s.calls && s.calls[e.call].pid in s.alive
      && var pc := s.calls[e.call].pc;
         match e
         case Create(_) => pc.Trying?
         case WritePid(_) => pc.Opened?
         case ReadOwner(_) => pc.Blocked?
         case Takeover(_) => pc.SawOwner? && IsStale(s, pc.owner)
         case Wait(_) => pc.SawOwner? && !IsStale(s, pc.owner)
         case ReadLedger(_) => pc.Entered?
         case RunUpdate(_) => pc.HasRead?
         case Close(_) => pc.Finished?
         case Unlink(_) => pc.Closed?
         case Terminate(_) => true
  }

  /** `apply` is operation() on the ledger it read; None when it throws. */
  function Next<L, U>(apply: (U, L) -> Option<L>, s: State<L, U>, e: Event): State<L, U>
    requires Enabled(s, e)
  {
    match e
    case Create(call) =>
      var attempt := s.calls[call].pc.attempt;
      if attempt >= MAX_ATTEMPTS then At(s, call, TimedOut)
      else if s.lock.Absent? then At(s, call, Opened).(lock := Empty, acquired := s.acquired + [call])
      else At(s, call, Blocked(attempt))
    case WritePid(call) => At(s, call, Entered).(lock := Owner(s.calls[call].pid))
    case ReadOwner(call) =>
      At(s, call, SawOwner(s.calls[call].pc.attempt, match s.lock case Owner(pid) => Some(pid) case _ => None))
    case Takeover(call) => At(s, call, Trying(s.calls[call].pc.attempt + 1)).(lock := Absent)
    case Wait(call) => At(s, call, Trying(s.calls[call].pc.attempt + 1))
    case ReadLedger(call) => At(s, call, HasRead(s.ledger))
    case RunUpdate(call) =>
      var result := apply(s.calls[call].update, s.calls[call].pc.copy);
      At(s, call, Finished).(ledger := if result.Some? then result.value else s.ledger)
    case Close(call) => At(s, call, Closed)
    case Unlink(call) => At(s, call, Done).(lock := Absent)
    case Terminate(pid) => s.(alive := s.alive - {pid})
  }

  // ----- the invariant -----

  /** Between creating the lock file and removing it. */
  predicate HoldsLock<L>(pc: Pc<L>) {
    pc.Opened? || IsInside(pc) || pc.Finished? || pc.Closed?
  }

  /** Inside operation(). */
  predicate IsInside<L>(pc: Pc<L>) {
    pc.Entered? || pc.HasRead?
  }

  predicate NotYetApplied<L>(pc: Pc<L>) {
    pc.Opened? || IsInside(pc)
  }

  /** The updates applied one after the other; one that throws changes nothing. */
  function Fold<L, U>(apply: (U, L) -> Option<L>, ledger: L, updates: seq<U>): L {
    if updates == [] then ledger
    else
      var before := Fold(apply, ledger, updates[..|updates| - 1]);
      match apply(updates[|updates| - 1], before)
      case Some(next) => next
      case None => before
  }

  function Updates<L, U>(calls: map<int, Call<L, U>>, ids: seq<int>): seq<U>
    requires forall k | 0 <= k < |ids| :: ids[k] in calls
  {
    seq(|ids|, k requires 0 <= k < |ids| => calls[ids[k]].update)
  }

  predicate IsKnown<L, U>(s: State<L, U>) {
    forall k | 0 <= k < |s.acquired| :: s.acquired[k] in s.calls
  }

  /** The calls that got the lock and whose operation() is over, in lock order; a call that died
      before its update was written is not among them. */
  function Applied<L, U>(calls: map<int, Call<L, U>>, ids: seq<int>): (applied: seq<int>)
    requires forall k | 0 <= k < |ids| :: ids[k] in calls
    ensures forall k | 0 <= k < |applied| :: applied[k] in calls
  {
    if ids == [] then []
    else
      var before := Applied(calls, ids[..|ids| - 1]);
      if NotYetApplied(calls[ids[|ids| - 1]].pc) then before else before + [ids[|ids| - 1]]
  }

  lemma {:induction false} AppliedHas<L, U>(calls: map<int, Call<L, U>>, ids: seq<int>)
    requires forall k | 0 <= k < |ids| :: ids[k] in calls
    ensures forall id :: id in Applied(calls, ids) <==> id in ids && !NotYetApplied(calls[id].pc)
    decreases |ids|
  {
    if ids != [] {
      var init, last := ids[..|ids| - 1], ids[|ids| - 1];
      AppliedHas(calls, init);
      assert ids == init + [last];
    }
  }

  /** A living process is between creating the lock file and removing it. */
  predicate Holds<L, U>(s: State<L, U>, id: int) {
    id in s.calls && s.calls[id].pid in s.alive && HoldsLock(s.calls[id].pc)
  }

  ghost predicate IsHeld<L, U>(s: State<L, U>) {
    exists id :: Holds(s, id)
  }

  /** What the holder of the lock may rely on: it was the last to create the lock file, the file
      is its own, and the ledger is as it read it. */
  ghost predicate IsSafe<L, U>(s: State<L, U>, id: int)
    requires id in s.calls
  {
    var c := s.calls[id];
    && s.acquired != [] && s.acquired[|s.acquired| - 1] == id
    && s.lock == (if c.pc.Opened? then Empty else Owner(c.pid))
    && (c.pc.HasRead? ==> c.pc.copy == s.ledger)
  }

  ghost predicate Inv<L, U>(apply: (U, L) -> Option<L>, initial: L, s: State<L, U>) {
    && IsKnown(s)
    && (forall j, k | 0 <= j < k < |s.acquired| :: s.acquired[j] != s.acquired[k])
    && (forall id | id in s.calls :: id in s.acquired <==> HoldsLock(s.calls[id].pc) || s.calls[id].pc.Done?)
    && (forall id | Holds(s, id) :: IsSafe(s, id))
    && s.ledger == Fold(apply, initial, Updates(s.calls, Applied(s.calls, s.acquired)))
  }

  ghost predicate Initial<L, U>(s: State<L, U>) {
    && s.lock == Absent && s.acquired == []
    && (forall id | id in s.calls :: s.calls[id].pc == Trying(0) && s.calls[id].pid in s.alive)
  }

  lemma {:induction false} InitialHolds<L, U>(apply: (U, L) -> Option<L>, s: State<L, U>)
    requires Initial(s)
    ensures Inv(apply, s.ledger, s)
  {
  }

  // ----- the steps -----

  /** Moving one call on changes no update, and so not what the applied calls fold to. */
  lemma {:induction false} AppliedIsKept<L, U>(calls: map<int, Call<L, U>>, call: int, pc: Pc<L>, ids: seq<int>)
    requires call in calls && forall k | 0 <= k < |ids| :: ids[k] in calls
    requires NotYetApplied(pc) == NotYetApplied(calls[call].pc) || call !in ids
    ensures
      var next := calls[call := calls[call].(pc := pc)];
      && Applied(next, ids) == Applied(calls, ids)
      && Updates(next, Applied(next, ids)) == Updates(calls, Applied(calls, ids))
    decreases |ids|
  {
    AppliedHas(calls, ids);
    if ids != [] {
      AppliedIsKept(calls, call, pc, ids[..|ids| - 1]);
    }
  }

  /** A call that does not hold the lock and does not get it now. */
  lemma {:induction false} OutsideKeepsInv<L, U>(apply: (U, L) -> Option<L>, initial: L, s: State<L, U>, call: int, pc: Pc<L>)
    requires Inv(apply, initial, s) && call in s.calls
    requires !HoldsLock(s.calls[call].pc) && !s.calls[call].pc.Done?
    requires !HoldsLock(pc) && !pc.Done?
    ensures Inv(apply, initial, At(s, call, pc))
  {
    AppliedIsKept(s.calls, call, pc, s.acquired);
    HoldersStay(s, call, pc);
  }

  lemma {:induction false} HoldersStay<L, U>(s: State<L, U>, call: int, pc: Pc<L>)
    requires call in s.calls && !HoldsLock(pc) && forall id | Holds(s, id) :: IsSafe(s, id)
    ensures forall id | Holds(At(s, call, pc), id) :: IsSafe(At(s, call, pc), id)
  {
    forall id | Holds(At(s, call, pc), id) ensures IsSafe(At(s, call, pc), id) {
      assert Holds(s, id);
    }
  }

  /** The holder of the lock goes on and still holds it. */
  lemma {:induction false} InsideKeepsInv<L, U>(apply: (U, L) -> Option<L>, initial: L, s: State<L, U>, call: int, pc: Pc<L>)
    requires Inv(apply, initial, s) && Holds(s, call)
    requires HoldsLock(pc) && !pc.Opened?
    requires NotYetApplied(pc) == NotYetApplied(s.calls[call].pc)
    requires pc.HasRead? ==> pc.copy == s.ledger
    ensures Inv(apply, initial, At(s, call, pc).(lock := Owner(s.calls[call].pid)))
  {
    AppliedIsKept(s.calls, call, pc, s.acquired);
    OnlyHolder(apply, initial, s, call, At(s, call, pc).(lock := Owner(s.calls[call].pid)));
    assert IsSafe(s, call);
  }

  /** Whatever the holder of the lock does, nobody else comes to hold it. */
  lemma {:induction false} OnlyHolder<L, U>(apply: (U, L) -> Option<L>, initial: L, s: State<L, U>, call: int, next: State<L, U>)
    requires Inv(apply, initial, s) && Holds(s, call) && next.alive == s.alive
    requires call in next.calls && next.calls == s.calls[call := next.calls[call]]
    ensures forall id | Holds(next, id) :: id == call
  {
    forall id | Holds(next, id) ensures id == call {
      if id != call {
        HolderIsUnique(apply, initial, s, id, call);
      }
    }
  }

  lemma {:induction false} HolderIsUnique<L, U>(apply: (U, L) -> Option<L>, initial: L, s: State<L, U>, a: int, b: int)
    requires Inv(apply, initial, s) && Holds(s, a) && Holds(s, b)
    ensures a == b
  {
    assert IsSafe(s, a) && IsSafe(s, b);
  }

  lemma {:induction false} CreateKeepsInv<L, U>(apply: (U, L) -> Option<L>, initial: L, s: State<L, U>, call: int)
    requires Inv(apply, initial, s) && call in s.calls
    requires s.calls[call].pc.Trying? && s.lock.Absent?
    ensures Inv(apply, initial, At(s, call, Opened).(lock := Empty, acquired := s.acquired + [call]))
  {
    var next := At(s, call, Opened).(lock := Empty, acquired := s.acquired + [call]);
    AppliedIsKept(s.calls, call, Opened, s.acquired);
    assert next.acquired[..|s.acquired|] == s.acquired;
    forall id | Holds(next, id) ensures IsSafe(next, id) {
      if id != call {
        assert Holds(s, id);
      }
    }
    forall id | id in next.calls
      ensures id in next.acquired <==> HoldsLock(next.calls[id].pc) || next.calls[id].pc.Done?
    {
      assert id in next.acquired <==> id in s.acquired || id == call;
    }
  }

  lemma {:induction false} RunUpdateKeepsInv<L, U>(apply: (U, L) -> Option<L>, initial: L, s: State<L, U>, call: int)
    requires Inv(apply, initial, s) && Holds(s, call) && s.calls[call].pc.HasRead?
    ensures
      var result := apply(s.calls[call].update, s.calls[call].pc.copy);
      Inv(apply, initial, At(s, call, Finished).(ledger := if result.Some? then result.value else s.ledger))
  {
    assert IsSafe(s, call);
    var init := s.acquired[..|s.acquired| - 1];
    AppliedIsKept(s.calls, call, Finished, init);
    var result := apply(s.calls[call].update, s.calls[call].pc.copy);
    var next := At(s, call, Finished).(ledger := if result.Some? then result.value else s.ledger);
    OnlyHolder(apply, initial, s, call, next);
    FoldOfOneMore(apply, initial, next.calls, Applied(next.calls, init), call);
  }

  lemma {:induction false} FoldOfOneMore<L, U>(apply: (U, L) -> Option<L>, initial: L, calls: map<int, Call<L, U>>, ids: seq<int>, call: int)
    requires call in calls && forall k | 0 <= k < |ids| :: ids[k] in calls
    ensures
      var before := Fold(apply, initial, Updates(calls, ids));
      var result := apply(calls[call].update, before);
      Fold(apply, initial, Updates(calls, ids + [call])) == if result.Some? then result.value else before
  {
    var updates := Updates(calls, ids + [call]);
    assert updates[..|updates| - 1] == Updates(calls, ids);
  }

  lemma {:induction false} UnlinkKeepsInv<L, U>(apply: (U, L) -> Option<L>, initial: L, s: State<L, U>, call: int)
    requires Inv(apply, initial, s) && Holds(s, call) && s.calls[call].pc.Closed?
    ensures Inv(apply, initial, At(s, call, Done).(lock := Absent))
  {
    AppliedIsKept(s.calls, call, Done, s.acquired);
    OnlyHolder(apply, initial, s, call, At(s, call, Done).(lock := Absent));
  }

  /** A takeover is safe exactly when no living process holds the lock: it removes the lock file,
      which is that process's own if there is one. */
  lemma {:induction false} TakeoverIsSafeExactlyWhen<L, U>(apply: (U, L) -> Option<L>, initial: L, s: State<L, U>, call: int)
    requires Inv(apply, initial, s) && Enabled(s, Takeover(call))
    ensures Inv(apply, initial, Next(apply, s, Takeover(call))) <==> !IsHeld(s)
  {
    var pc := Trying(s.calls[call].pc.attempt + 1);
    var next := Next(apply, s, Takeover(call));
    AppliedIsKept(s.calls, call, pc, s.acquired);
    if IsHeld(s) {
      var id :| Holds(s, id);
      assert Holds(next, id);
    } else {
      forall id ensures !Holds(next, id) {
        assert Holds(next, id) ==> Holds(s, id);
      }
    }
  }

  /** The lock file still holds the owner that was read. */
  predicate OwnerIsStillThere<L, U>(s: State<L, U>, e: Event)
    requires Enabled(s, e)
  {
    e.Takeover? ==> s.lock == Owner(s.calls[e.call].pc.owner.value)
  }

  /** A check a caller could make: if the file still names the dead owner, nobody alive holds it. */
  lemma {:induction false} StillThereMeansNotHeld<L, U>(apply: (U, L) -> Option<L>, initial: L, s: State<L, U>, e: Event)
    requires Inv(apply, initial, s) && Enabled(s, e) && e.Takeover? && OwnerIsStillThere(s, e)
    ensures !IsHeld(s)
  {
  }

  /** Every step but an unsafe takeover keeps the invariant, a termination at any point included. */
  lemma {:induction false} StepKeepsInv<L, U>(apply: (U, L) -> Option<L>, initial: L, s: State<L, U>, e: Event)
    requires Inv(apply, initial, s) && Enabled(s, e) && (e.Takeover? ==> !IsHeld(s))
    ensures Inv(apply, initial, Next(apply, s, e))
  {
    match e
    case Terminate(pid) => TerminateKeepsInv(apply, initial, s, pid);
    case Takeover(call) => TakeoverIsSafeExactlyWhen(apply, initial, s, call);
    case Create(call) =>
      if s.calls[call].pc.attempt < MAX_ATTEMPTS && s.lock.Absent? {
        CreateKeepsInv(apply, initial, s, call);
      } else {
        OutsideKeepsInv(apply, initial, s, call, Next(apply, s, e).calls[call].pc);
      }
    case ReadOwner(call) => OutsideKeepsInv(apply, initial, s, call, Next(apply, s, e).calls[call].pc);
    case Wait(call) => OutsideKeepsInv(apply, initial, s, call, Next(apply, s, e).calls[call].pc);
    case RunUpdate(call) => RunUpdateKeepsInv(apply, initial, s, call);
    case Unlink(call) => UnlinkKeepsInv(apply, initial, s, call);
    case _ => HolderKeepsInv(apply, initial, s, e);
  }

  /** Writing the pid, reading the ledger and closing the file. */
  lemma {:induction false} HolderKeepsInv<L, U>(apply: (U, L) -> Option<L>, initial: L, s: State<L, U>, e: Event)
    requires Inv(apply, initial, s) && Enabled(s, e) && (e.WritePid? || e.ReadLedger? || e.Close?)
    ensures Inv(apply, initial, Next(apply, s, e))
  {
    assert Holds(s, e.call) && IsSafe(s, e.call);
    InsideKeepsInv(apply, initial, s, e.call, Next(apply, s, e).calls[e.call].pc);
  }

  lemma {:induction false} TerminateKeepsInv<L, U>(apply: (U, L) -> Option<L>, initial: L, s: State<L, U>, pid: int)
    requires Inv(apply, initial, s)
    ensures Inv(apply, initial, s.(alive := s.alive - {pid}))
  {
    var next := s.(alive := s.alive - {pid});
    forall id | Holds(next, id) ensures IsSafe(next, id) {
      assert Holds(s, id);
    }
  }

  // ----- whole runs -----

  ghost predicate IsRun<L, U>(apply: (U, L) -> Option<L>, states: seq<State<L, U>>, events: seq<Event>) {
    && |states| == |events| + 1
    && Initial(states[0])
    && forall k | 0 <= k < |events| ::
         Enabled(states[k], events[k]) && states[k + 1] == Next(apply, states[k], events[k])
  }

  lemma {:induction false} RunKeepsInv<L, U>(apply: (U, L) -> Option<L>, states: seq<State<L, U>>, events: seq<Event>, k: nat)
    requires IsRun(apply, states, events) && k < |states|
    requires forall j | 0 <= j < k && events[j].Takeover? :: !IsHeld(states[j])
    ensures Inv(apply, states[0].ledger, states[k])
    decreases k
  {
    if k == 0 {
      InitialHolds(apply, states[0]);
    } else {
      RunKeepsInv(apply, states, events, k - 1);
      StepKeepsInv(apply, states[0].ledger, states[k - 1], events[k - 1]);
    }
  }

  /** The exact condition: a run is safe throughout if and only if each takeover finds the lock
      held by no living process. */
  lemma {:induction false} SafeThroughoutExactlyWhen<L, U>(apply: (U, L) -> Option<L>, states: seq<State<L, U>>, events: seq<Event>)
    requires IsRun(apply, states, events)
    ensures (forall k | 0 <= k < |states| :: Inv(apply, states[0].ledger, states[k]))
       <==> (forall j | 0 <= j < |events| && events[j].Takeover? :: !IsHeld(states[j]))
  {
    if forall j | 0 <= j < |events| && events[j].Takeover? :: !IsHeld(states[j]) {
      forall k | 0 <= k < |states| ensures Inv(apply, states[0].ledger, states[k]) {
        RunKeepsInv(apply, states, events, k);
      }
    }
    if forall k | 0 <= k < |states| :: Inv(apply, states[0].ledger, states[k]) {
      forall j | 0 <= j < |events| && events[j].Takeover? ensures !IsHeld(states[j]) {
        assert Inv(apply, states[0].ledger, states[j + 1]);
        TakeoverIsSafeExactlyWhen(apply, states[0].ledger, states[j], events[j].call);
      }
    }
  }

  /** What a safe state means. */
  ghost predicate IsExclusive<L, U>(apply: (U, L) -> Option<L>, initial: L, s: State<L, U>) {
    && (forall a, b | Holds(s, a) && Holds(s, b) :: a == b)
    && IsKnown(s)
    && s.ledger == Fold(apply, initial, Updates(s.calls, Applied(s.calls, s.acquired)))
    && (forall i, j | 0 <= i < j < |s.acquired| :: s.acquired[i] != s.acquired[j])
    && (forall id | id in s.calls && s.calls[id].pc.Done? :: id in Applied(s.calls, s.acquired))
    && (forall id | id in s.calls && s.calls[id].pc.TimedOut? :: id !in Applied(s.calls, s.acquired))
  }

  lemma {:induction false} InvIsExclusive<L, U>(apply: (U, L) -> Option<L>, initial: L, s: State<L, U>)
    requires Inv(apply, initial, s)
    ensures IsExclusive(apply, initial, s)
  {
    AppliedHas(s.calls, s.acquired);
    forall a, b | Holds(s, a) && Holds(s, b) ensures a == b {
      HolderIsUnique(apply, initial, s, a, b);
    }
  }

  /** What an unsafe takeover leads to: when the call tries again, it creates the lock file beside
      the process that holds the lock. So the two stay apart exactly when there was none. */
  lemma {:induction false} TakeoverKeepsApartExactlyWhen<L, U>(apply: (U, L) -> Option<L>, initial: L, s: State<L, U>, call: int)
    requires Inv(apply, initial, s) && Enabled(s, Takeover(call)) && s.calls[call].pc.attempt + 1 < MAX_ATTEMPTS
    ensures
      var taken := Next(apply, s, Takeover(call));
      && Enabled(taken, Create(call))
      && var next := Next(apply, taken, Create(call));
         && Holds(next, call)
         && (!IsHeld(s) <==> IsExclusive(apply, initial, next))
         && (!IsHeld(s) <==> forall id | Holds(next, id) :: id == call)
  {
    var taken := Next(apply, s, Takeover(call));
    var next := Next(apply, taken, Create(call));
    assert Holds(next, call);
    if IsHeld(s) {
      var id :| Holds(s, id);
      assert Holds(next, id) && id != call;
    } else {
      TakeoverIsSafeExactlyWhen(apply, initial, s, call);
      StepKeepsInv(apply, initial, taken, Create(call));
      InvIsExclusive(apply, initial, next);
    }
  }

  /** Main result, in every run in which processes may terminate anywhere, if each takeover finds
      the lock file still naming the owner it has read: at most one living call holds the lock;
      the ledger is the fold, in lock order, of the updates of all calls that got past theirs,
      dead or alive; a call that is done has been applied exactly once, and one that timed out
      not at all. */
  lemma {:induction false} CheckedTakeoverIsSafe<L, U>(apply: (U, L) -> Option<L>, states: seq<State<L, U>>, events: seq<Event>, k: nat)
    requires IsRun(apply, states, events) && k < |states|
    requires forall j | 0 <= j < k :: OwnerIsStillThere(states[j], events[j])
    ensures IsExclusive(apply, states[0].ledger, states[k])
  {
    CheckedTakeoverKeepsInv(apply, states, events, k);
    InvIsExclusive(apply, states[0].ledger, states[k]);
  }

  lemma {:induction false} CheckedTakeoverKeepsInv<L, U>(apply: (U, L) -> Option<L>, states: seq<State<L, U>>, events: seq<Event>, k: nat)
    requires IsRun(apply, states, events) && k < |states|
    requires forall j | 0 <= j < k :: OwnerIsStillThere(states[j], events[j])
    ensures Inv(apply, states[0].ledger, states[k])
    decreases k
  {
    if k == 0 {
      InitialHolds(apply, states[0]);
    } else {
      CheckedTakeoverKeepsInv(apply, states, events, k - 1);
      if events[k - 1].Takeover? {
        StillThereMeansNotHeld(apply, states[0].ledger, states[k - 1], events[k - 1]);
      }
      StepKeepsInv(apply, states[0].ledger, states[k - 1], events[k - 1]);
    }
  }

  /** In particular when nobody terminates: then no owner is ever found dead. */
  lemma {:induction false} LockIsSafe<L, U>(apply: (U, L) -> Option<L>, states: seq<State<L, U>>, events: seq<Event>, k: nat)
    requires IsRun(apply, states, events) && k < |states|
    requires forall j | 0 <= j < k :: !events[j].Terminate?
    ensures IsExclusive(apply, states[0].ledger, states[k])
    ensures forall j | 0 <= j < k :: !events[j].Takeover?
  {
    forall j | 0 <= j < k ensures !events[j].Takeover? {
      OwnersStayAlive(apply, states, events, j);
    }
    RunKeepsInv(apply, states, events, k);
    InvIsExclusive(apply, states[0].ledger, states[k]);
  }

  /** Every process is alive, and so is every owner in the lock file or read from it. */
  ghost predicate OwnersAreAlive<L, U>(s: State<L, U>) {
    && (s.lock.Owner? ==> s.lock.pid in s.alive)
    && forall id | id in s.calls ::
         && s.calls[id].pid in s.alive
         && (s.calls[id].pc.SawOwner? && s.calls[id].pc.owner.Some? ==> s.calls[id].pc.owner.value in s.alive)
  }

  lemma {:induction false} OwnersStayAlive<L, U>(apply: (U, L) -> Option<L>, states: seq<State<L, U>>, events: seq<Event>, k: nat)
    requires IsRun(apply, states, events) && k < |states|
    requires forall j | 0 <= j < k :: !events[j].Terminate?
    ensures OwnersAreAlive(states[k])
    decreases k
  {
    if k > 0 {
      OwnersStayAlive(apply, states, events, k - 1);
    }
  }

  // ----- every call gets on -----

  predicate IsOver<L>(pc: Pc<L>) {
    pc.Done? || pc.TimedOut?
  }

  /** A living call that is not over can make exactly one step; when it has seen who owns the lock,
      it takes over from a process that is gone and waits for every other. */
  lemma {:induction false} OneStepEach<L, U>(s: State<L, U>, call: int) returns (e: Event)
    requires call in s.calls && s.calls[call].pid in s.alive && !IsOver(s.calls[call].pc)
    ensures Enabled(s, e) && !e.Terminate? && e.call == call
    ensures forall other: Event | !other.Terminate? && other.call == call && Enabled(s, other) :: other == e
    ensures
      var pc := s.calls[call].pc;
      pc.SawOwner? ==>
        e == if pc.owner.Some? && pc.owner.value >= 1 && pc.owner.value !in s.alive then Takeover(call) else Wait(call)
  {
    var pc := s.calls[call].pc;
    e := match pc
      case Trying(_) => Create(call)
      case Opened => WritePid(call)
      case Blocked(_) => ReadOwner(call)
      case SawOwner(_, owner) => if IsStale(s, owner) then Takeover(call) else Wait(call)
      case Entered => ReadLedger(call)
      case HasRead(_) => RunUpdate(call)
      case Finished => Close(call)
      case _ => Unlink(call);
  }

  /** A call that finds no lock file and is not disturbed is done after six steps: the ledger is
      updated, unless the update throws, and the lock file is gone. */
  lemma {:induction false} UndisturbedCallIsDone<L, U>(apply: (U, L) -> Option<L>, s: State<L, U>, call: int)
    returns (states: seq<State<L, U>>, events: seq<Event>)
    requires call in s.calls && s.calls[call].pid in s.alive && s.lock.Absent?
    requires s.calls[call].pc.Trying? && s.calls[call].pc.attempt < 500
    ensures |states| == 7 && |events| == 6 && states[0] == s
    ensures forall k | 0 <= k < 6 :: Enabled(states[k], events[k]) && states[k + 1] == Next(apply, states[k], events[k])
    ensures
      var end, result := states[6], apply(s.calls[call].update, s.ledger);
      && call in end.calls && end.calls[call].pc == Done && end.lock == Absent && end.acquired == s.acquired + [call]
      && end.ledger == if result.Some? then result.value else s.ledger
  {
    var a := Next(apply, s, Create(call));
    var b := Next(apply, a, WritePid(call));
    var c := Next(apply, b, ReadLedger(call));
    var d := Next(apply, c, RunUpdate(call));
    var e := Next(apply, d, Close(call));
    states := [s, a, b, c, d, e, Next(apply, e, Unlink(call))];
    events := [Create(call), WritePid(call), ReadLedger(call), RunUpdate(call), Close(call), Unlink(call)];
  }

  /** How often a call has found the lock taken and gone on to try again. */
  function Tries(events: seq<Event>, call: int): nat {
    if events == [] then 0
    else
      var e := events[|events| - 1];
      Tries(events[..|events| - 1], call) + if (e.Wait? || e.Takeover?) && e.call == call then 1 else 0
  }

  ghost predicate HasTried<L>(pc: Pc<L>, tries: nat) {
    match pc
    case Trying(attempt) => attempt == tries <= 500
    case Blocked(attempt) => attempt == tries < 500
    case SawOwner(attempt, _) => attempt == tries < 500
    case TimedOut => tries == 500
    case _ => tries < 500
  }

  /** A call gives up after exactly five hundred tries, and no sooner. */
  lemma {:induction false} TriesAreCounted<L, U>(apply: (U, L) -> Option<L>, states: seq<State<L, U>>, events: seq<Event>, k: nat, call: int)
    requires IsRun(apply, states, events) && k < |states| && call in states[0].calls
    ensures call in states[k].calls && HasTried(states[k].calls[call].pc, Tries(events[..k], call))
    decreases k
  {
    if k > 0 {
      TriesAreCounted(apply, states, events, k - 1, call);
      assert events[..k][..k - 1] == events[..k - 1];
      StepIsCounted(apply, states[k - 1], events[k - 1], call, Tries(events[..k - 1], call));
    }
  }

  lemma {:induction false} StepIsCounted<L, U>(apply: (U, L) -> Option<L>, s: State<L, U>, e: Event, call: int, tries: nat)
    requires call in s.calls && HasTried(s.calls[call].pc, tries) && Enabled(s, e)
    ensures
      var next := Next(apply, s, e);
      && call in next.calls
      && HasTried(next.calls[call].pc, tries + if (e.Wait? || e.Takeover?) && e.call == call then 1 else 0)
  {
  }

  // ----- the race -----

  lemma {:induction false} ExtendRun<L, U>(apply: (U, L) -> Option<L>, states: seq<State<L, U>>, events: seq<Event>, e: Event)
    returns (states': seq<State<L, U>>, events': seq<Event>)
    requires IsRun(apply, states, events) && Enabled(states[|states| - 1], e)
    ensures IsRun(apply, states', events')
    ensures states'[|states'| - 1] == Next(apply, states[|states| - 1], e)
  {
    states', events' := states + [Next(apply, states[|states| - 1], e)], events + [e];
  }

  /** Calls 1 and 2 have both read the pid of process 3, which is gone by now. */
  ghost predicate BothSawTheDead(s: State<int, int>) {
    && s.alive == {1, 2} && 1 in s.calls && 2 in s.calls
    && s.calls[1].pid == 1 && s.calls[1].pc == SawOwner(0, Some(3))
    && s.calls[2].pid == 2 && s.calls[2].pc == SawOwner(0, Some(3))
  }

  lemma {:induction false} OwnerDies(keep: (int, int) -> Option<int>) returns (states: seq<State<int, int>>, events: seq<Event>)
    ensures IsRun(keep, states, events) && BothSawTheDead(states[|states| - 1])
  {
    var waiting := Call(1, 0, Trying(0));
    states, events :=
      [State(map[1 := waiting, 2 := waiting.(pid := 2), 3 := waiting.(pid := 3)], {1, 2, 3}, Absent, 0, [])], [];
    states, events := ExtendRun(keep, states, events, Create(3));
    states, events := ExtendRun(keep, states, events, WritePid(3));
    states, events := ExtendRun(keep, states, events, Create(1));
    states, events := ExtendRun(keep, states, events, Create(2));
    states, events := ExtendRun(keep, states, events, ReadOwner(1));
    states, events := ExtendRun(keep, states, events, ReadOwner(2));
    states, events := ExtendRun(keep, states, events, Terminate(3));
  }

  /** Unchecked, a takeover is not safe: two calls that read the same dead owner take the lock
      over one after the other, and the second removes the first one's lock file. */
  lemma {:induction false} TakeoverRace(keep: (int, int) -> Option<int>) returns (states: seq<State<int, int>>, events: seq<Event>)
    ensures IsRun(keep, states, events)
    ensures
      var end := states[|states| - 1];
      && 1 in end.calls && IsInside(end.calls[1].pc)
      && 2 in end.calls && IsInside(end.calls[2].pc)
  {
    states, events := OwnerDies(keep);
    states, events := ExtendRun(keep, states, events, Takeover(1));
    states, events := ExtendRun(keep, states, events, Create(1));
    states, events := ExtendRun(keep, states, events, WritePid(1));
    states, events := ExtendRun(keep, states, events, Takeover(2));
    states, events := ExtendRun(keep, states, events, Create(2));
    states, events := ExtendRun(keep, states, events, WritePid(2));
  }
}
