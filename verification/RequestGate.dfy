/** The request gate: calls beyond the limit wait in a queue, and a finishing call wakes one.
    A woken call counts as active only once it has resumed. */
module RequestGate {
  import opened Options

  /** Calls are numbered as they arrive. The last three fields record the history. */
  datatype Gate = Gate(
    limit: nat,
    active: int,
    queue: seq<nat>,
    woken: seq<nat>,
    running: seq<nat>,
    next: nat,
    waited: seq<nat>,
    wokenSoFar: seq<nat>,
    finished: seq<nat>)

  datatype Event =
    | Arrive
    | Finish(place: nat)   // of a running call
    | Resume(place: nat)   // of a woken call

  predicate Enabled(g: Gate, e: Event) {
    match e
    case Arrive => true
    case Finish(place) => place < |g.running|
    case Resume(place) => place < |g.woken|
  }

  function Dropped(s: seq<nat>, place: nat): seq<nat>
    requires place < |s|
  {
    s[..place] + s[place + 1..]
  }

  predicate MustWait(g: Gate) {
    g.limit > 0 && g.active >= g.limit
  }

  function Step(g: Gate, e: Event): Gate
    requires Enabled(g, e)
  {
    match e
    case Arrive =>
      if MustWait(g) then g.(queue := g.queue + [g.next], waited := g.waited + [g.next], next := g.next + 1)
      else g.(active := g.active + 1, running := g.running + [g.next], next := g.next + 1)
    case Finish(place) =>
      var left := g.(active := g.active - 1, running := Dropped(g.running, place), finished := g.finished + [g.running[place]]);
      if g.queue == [] then left
      else left.(queue := g.queue[1..], woken := g.woken + [g.queue[0]], wokenSoFar := g.wokenSoFar + [g.queue[0]])
    case Resume(place) =>
      g.(active := g.active + 1, running := g.running + [g.woken[place]], woken := Dropped(g.woken, place))
  }

  function Fresh(limit: nat): Gate {
    Gate(limit, 0, [], [], [], 0, [], [], [])
  }

  /** The gate after a list of events; None when one of them could not happen. */
  function Run(limit: nat, events: seq<Event>): Option<Gate> {
    if events == [] then Some(Fresh(limit))
    else
      match Run(limit, events[..|events| - 1])
      case None => None
      case Some(g) => if Enabled(g, events[|events| - 1]) then Some(Step(g, events[|events| - 1])) else None
  }

  // ----- what always holds -----

  /** Every call that has arrived is in exactly one place. */
  ghost predicate Everyone(g: Gate) {
    forall call: nat ::
      multiset(g.queue)[call] + multiset(g.woken)[call] + multiset(g.running)[call] + multiset(g.finished)[call]
      == if call < g.next then 1 else 0
  }

  /** Waiting calls are woken first come, first served. */
  ghost predicate InOrder(g: Gate) {
    && g.waited == g.wokenSoFar + g.queue
    && (forall i | 0 <= i < |g.waited| :: g.waited[i] < g.next)
    && (forall i, j | 0 <= i < j < |g.waited| :: g.waited[i] < g.waited[j])
  }

  ghost predicate Inv(g: Gate) {
    && Everyone(g) && InOrder(g)
    && g.active == |g.running|
    && (g.queue != [] ==> g.limit > 0 && g.active + |g.woken| >= g.limit)
  }

  /** One step: calls are woken in the order they came, none is lost, and while anyone waits the
      gate is fully taken. */
  lemma {:induction false} StepKeepsInv(g: Gate, e: Event)
    requires Inv(g) && Enabled(g, e)
    ensures Inv(Step(g, e)) && Step(g, e).limit == g.limit
  {
    StepLosesNobody(g, e);
    StepKeepsOrder(g, e);
  }

  lemma {:induction false} StepKeepsOrder(g: Gate, e: Event)
    requires InOrder(g) && Enabled(g, e)
    ensures InOrder(Step(g, e))
  {
    if e.Finish? && g.queue != [] {
      assert g.queue == [g.queue[0]] + g.queue[1..];
    }
  }

  lemma {:induction false} StepLosesNobody(g: Gate, e: Event)
    requires Everyone(g) && Enabled(g, e)
    ensures Everyone(Step(g, e))
  {
    match e
    case Arrive => ArrivalLosesNobody(g);
    case Finish(place) => FinishLosesNobody(g, place);
    case Resume(place) => ResumeLosesNobody(g, place);
  }

  lemma {:induction false} ArrivalLosesNobody(g: Gate)
    requires Everyone(g)
    ensures Everyone(Step(g, Arrive))
  {
    var h := Step(g, Arrive);
    Appended(g.queue, g.next);
    Appended(g.running, g.next);
    assert multiset(h.queue) + multiset(h.running) == multiset(g.queue) + multiset(g.running) + multiset{g.next};
    forall call: nat
      ensures multiset(h.queue)[call] + multiset(h.woken)[call] + multiset(h.running)[call] + multiset(h.finished)[call]
           == if call < h.next then 1 else 0
    {
      assert multiset(h.queue)[call] + multiset(h.running)[call]
          == multiset(g.queue)[call] + multiset(g.running)[call] + if call == g.next then 1 else 0;
    }
  }

  lemma {:induction false} FinishLosesNobody(g: Gate, place: nat)
    requires Everyone(g) && Enabled(g, Finish(place))
    ensures Everyone(Step(g, Finish(place)))
  {
    DroppedLeaves(g.running, place);
    Appended(g.finished, g.running[place]);
    if g.queue != [] {
      DroppedLeaves(g.queue, 0);
      assert Dropped(g.queue, 0) == g.queue[1..];
      Appended(g.woken, g.queue[0]);
    }
  }

  lemma {:induction false} ResumeLosesNobody(g: Gate, place: nat)
    requires Everyone(g) && Enabled(g, Resume(place))
    ensures Everyone(Step(g, Resume(place)))
  {
    DroppedLeaves(g.woken, place);
    Appended(g.running, g.woken[place]);
  }

  lemma {:induction false} Appended(s: seq<nat>, call: nat)
    ensures multiset(s + [call]) == multiset(s) + multiset{call}
  {
  }

  lemma {:induction false} DroppedLeaves(s: seq<nat>, place: nat)
    requires place < |s|
    ensures multiset(s) == multiset(Dropped(s, place)) + multiset{s[place]}
  {
    assert s == s[..place] + [s[place]] + s[place + 1..];
  }

  /** Main result on the queue: in every run the calls are woken in the order in which they came,
      none is lost, and while anyone waits active and woken calls reach the limit. */
  lemma {:induction false} NobodyIsLost(limit: nat, events: seq<Event>)
    requires Run(limit, events).Some?
    ensures Inv(Run(limit, events).value) && Run(limit, events).value.limit == limit
    decreases |events|
  {
    if events != [] {
      var init := events[..|events| - 1];
      NobodyIsLost(limit, init);
      StepKeepsInv(Run(limit, init).value, events[|events| - 1]);
    }
  }

  // ----- the limit -----

  predicate WithinLimit(g: Gate) {
    g.limit > 0 ==> g.active + |g.woken| <= g.limit
  }

  /** A call arrives while a woken one has yet to resume, and finds what looks like a free place. */
  predicate SlipsIn(g: Gate, e: Event) {
    e == Arrive && !MustWait(g) && g.limit > 0 && g.active + |g.woken| == g.limit
  }

  /** Every step keeps the limit but the arrival that slips in before a woken call. */
  lemma {:induction false} OnlySlippingInExceeds(g: Gate, e: Event)
    requires Inv(g) && WithinLimit(g) && Enabled(g, e)
    ensures WithinLimit(Step(g, e)) <==> !SlipsIn(g, e)
    ensures SlipsIn(g, e) ==> g.woken != []
  {
  }

  predicate NoneSlipsIn(limit: nat, events: seq<Event>) {
    events == [] || (NoneSlipsIn(limit, events[..|events| - 1])
      && var before := Run(limit, events[..|events| - 1]);
         before.Some? && !SlipsIn(before.value, events[|events| - 1]))
  }

  predicate AlwaysWithinLimit(limit: nat, events: seq<Event>) {
    (events == [] || AlwaysWithinLimit(limit, events[..|events| - 1]))
    && Run(limit, events).Some? && WithinLimit(Run(limit, events).value)
  }

  /** Main result on the limit: a run stays within it throughout if and only if no call ever
      slips in before a woken one. */
  lemma {:induction false} LimitHoldsExactlyWhen(limit: nat, events: seq<Event>)
    requires Run(limit, events).Some?
    ensures AlwaysWithinLimit(limit, events) <==> NoneSlipsIn(limit, events)
    decreases |events|
  {
    if events != [] {
      var init := events[..|events| - 1];
      LimitHoldsExactlyWhen(limit, init);
      if AlwaysWithinLimit(limit, init) {
        NobodyIsLost(limit, init);
        LastIsWithin(limit, init);
        OnlySlippingInExceeds(Run(limit, init).value, events[|events| - 1]);
      }
    }
  }

  lemma {:induction false} LastIsWithin(limit: nat, events: seq<Event>)
    requires AlwaysWithinLimit(limit, events)
    ensures Run(limit, events).Some? && WithinLimit(Run(limit, events).value)
  {
  }

  /** In particular when no call arrives while a woken one has yet to resume. */
  predicate ArrivesOnlyWhenNoneIsWoken(limit: nat, events: seq<Event>) {
    events == [] || (ArrivesOnlyWhenNoneIsWoken(limit, events[..|events| - 1])
      && var before := Run(limit, events[..|events| - 1]);
         before.Some? && (events[|events| - 1] == Arrive ==> before.value.woken == []))
  }

  lemma {:induction false} QuietArrivalsKeepTheLimit(limit: nat, events: seq<Event>)
    requires Run(limit, events).Some? && ArrivesOnlyWhenNoneIsWoken(limit, events)
    ensures AlwaysWithinLimit(limit, events)
    decreases |events|
  {
    if events != [] {
      var init := events[..|events| - 1];
      QuietArrivalsKeepTheLimit(limit, init);
      NobodyIsLost(limit, init);
      LastIsWithin(limit, init);
      OnlySlippingInExceeds(Run(limit, init).value, events[|events| - 1]);
    }
  }

  // ----- how far the limit can be exceeded -----

  /** The same event n times. */
  function Times(e: Event, n: nat): seq<Event> {
    if n == 0 then [] else Times(e, n - 1) + [e]
  }

  /** The counts that decide what happens next. */
  ghost predicate Counts(limit: nat, events: seq<Event>, active: int, queued: nat, woken: nat) {
    var g := Run(limit, events);
    g.Some? && g.value.limit == limit && g.value.active == |g.value.running| == active
    && |g.value.queue| == queued && |g.value.woken| == woken
  }

  lemma {:induction false} OneMore(limit: nat, events: seq<Event>, e: Event)
    requires Run(limit, events).Some? && Enabled(Run(limit, events).value, e)
    ensures Run(limit, events + [e]) == Some(Step(Run(limit, events).value, e))
  {
    assert (events + [e])[..|events|] == events;
  }

  lemma {:induction false} ArriveOnce(events: seq<Event>, active: int, queued: nat)
    requires Counts(1, events, active, queued, 0) && active >= 1
    ensures Counts(1, events + [Arrive], active, queued + 1, 0)
  {
    OneMore(1, events, Arrive);
  }

  lemma {:induction false} FinishOnce(events: seq<Event>, active: int, queued: nat, woken: nat)
    requires Counts(1, events, active, queued, woken) && active >= 1 && queued >= 1
    ensures Counts(1, events + [Finish(0)], active - 1, queued - 1, woken + 1)
  {
    OneMore(1, events, Finish(0));
  }

  lemma {:induction false} ResumeOnce(events: seq<Event>, active: int, woken: nat)
    requires Counts(1, events, active, 0, woken) && woken >= 1
    ensures Counts(1, events + [Resume(0)], active + 1, 0, woken - 1)
  {
    OneMore(1, events, Resume(0));
  }

  lemma {:induction false} ManyArrive(events: seq<Event>, active: int, queued: nat, n: nat)
    requires Counts(1, events, active, queued, 0) && active >= 1
    ensures Counts(1, events + Times(Arrive, n), active, queued + n, 0)
    decreases n
  {
    if n == 0 {
      assert events + Times(Arrive, 0) == events;
    } else {
      ManyArrive(events, active, queued, n - 1);
      ArriveOnce(events + Times(Arrive, n - 1), active, queued + n - 1);
      assert events + Times(Arrive, n) == (events + Times(Arrive, n - 1)) + [Arrive];
    }
  }

  lemma {:induction false} ManyFinish(events: seq<Event>, active: int, n: nat)
    requires Counts(1, events, active, n, 0) && active >= n
    ensures Counts(1, events + Times(Finish(0), n), active - n, 0, n)
  {
    ManyFinishOf(events, active, n, n);
  }

  lemma {:induction false} ManyFinishOf(events: seq<Event>, active: int, queued: nat, n: nat)
    requires Counts(1, events, active, queued, 0) && active >= n && queued >= n
    ensures Counts(1, events + Times(Finish(0), n), active - n, queued - n, n)
    decreases n
  {
    if n == 0 {
      assert events + Times(Finish(0), 0) == events;
    } else {
      ManyFinishOf(events, active, queued, n - 1);
      FinishOnce(events + Times(Finish(0), n - 1), active - (n - 1), queued - (n - 1), n - 1);
      assert events + Times(Finish(0), n) == (events + Times(Finish(0), n - 1)) + [Finish(0)];
    }
  }

  lemma {:induction false} ManyResume(events: seq<Event>, active: int, woken: nat, n: nat)
    requires Counts(1, events, active, 0, woken) && woken >= n
    ensures Counts(1, events + Times(Resume(0), n), active + n, 0, woken - n)
    decreases n
  {
    if n == 0 {
      assert events + Times(Resume(0), 0) == events;
    } else {
      ManyResume(events, active, woken, n - 1);
      ResumeOnce(events + Times(Resume(0), n - 1), active + n - 1, woken - (n - 1));
      assert events + Times(Resume(0), n) == (events + Times(Resume(0), n - 1)) + [Resume(0)];
    }
  }

  /** Nothing bounds the excess: behind a limit of one, any number of calls can come to run. */
  lemma {:induction false} ExcessIsUnbounded(n: nat) returns (events: seq<Event>)
    requires n >= 1
    ensures Counts(1, events, n, 0, 0)
    decreases n
  {
    if n == 1 {
      events := [] + [Arrive];
      OneMore(1, [], Arrive);
    } else {
      var before := ExcessIsUnbounded(n - 1);
      events := OneRoundMore(before, n - 1);
    }
  }

  /** With n calls running: n more queue up, all n finish and wake them, one call slips in, and
      the woken ones resume. */
  lemma {:induction false} OneRoundMore(before: seq<Event>, n: nat) returns (events: seq<Event>)
    requires n >= 1 && Counts(1, before, n, 0, 0)
    ensures Counts(1, events, n + 1, 0, 0)
  {
    ManyArrive(before, n, 0, n);
    var queued := before + Times(Arrive, n);
    ManyFinish(queued, n, n);
    var woken := queued + Times(Finish(0), n);
    OneMore(1, woken, Arrive);
    ManyResume(woken + [Arrive], 1, n, n);
    events := woken + [Arrive] + Times(Resume(0), n);
  }

  // ----- the class -----

  /** run(), cut where it gives up control: before the wait, after it, and in the finally block. */
  class RequestGate {
    const limit: nat
    var active: int
    var queue: seq<nat>
    ghost var woken: seq<nat>
    ghost var running: seq<nat>
    ghost var next: nat
    ghost var waited: seq<nat>
    ghost var wokenSoFar: seq<nat>
    ghost var finished: seq<nat>

    constructor (limit: nat)
      ensures Now() == Fresh(limit) && this.limit == limit
    {
      this.limit, active, queue := limit, 0, [];
      woken, running, next, waited, wokenSoFar, finished := [], [], 0, [], [], [];
    }

    ghost function Now(): Gate
      reads this
    {
      Gate(limit, active, queue, woken, running, next, waited, wokenSoFar, finished)
    }

    /** A call enters at once, or leaves its number in the queue and waits. */
    method Call(call: nat) returns (waits: bool)
      requires call == next
      modifies this
      ensures waits == MustWait(old(Now())) && Now() == Step(old(Now()), Arrive)
    {
      waits := limit > 0 && active >= limit;
      if waits {
        queue := queue + [call];
        waited := waited + [call];
      } else {
        active := active + 1;
        running := running + [call];
      }
      next := next + 1;
    }

    method AfterWait(ghost place: nat)
      requires place < |woken|
      modifies this
      ensures Now() == Step(old(Now()), Resume(place))
    {
      active := active + 1;
      running, woken := running + [woken[place]], Dropped(woken, place);
    }

    method FinallyBlock(ghost place: nat) returns (wakes: Option<nat>)
      requires place < |running|
      modifies this
      ensures wakes == if old(queue) == [] then None else Some(old(queue)[0])
      ensures Now() == Step(old(Now()), Finish(place))
    {
      active := active - 1;
      finished, running := finished + [running[place]], Dropped(running, place);
      if queue == [] {
        return None;
      }
      wakes := Some(queue[0]);
      woken, wokenSoFar := woken + [queue[0]], wokenSoFar + [queue[0]];
      queue := queue[1..];
    }
  }
}
