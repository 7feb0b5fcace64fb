/** The session's health signal: recent failures, a banner, and one recovery timer. */
module ApiHealth {
  import opened Options

  const WATCH_WINDOW := 30_000
  const TO_DEGRADE := 2
  const MIN_VISIBLE := 6_000
  const GRACE := 100

  datatype Failure = Failure(endpoint: string, at: int)

  /** The module's variables; the timer is the time at which it is due. */
  datatype Health = Health(failures: seq<Failure>, degraded: bool, degradedSince: Option<int>, timer: Option<int>)

  datatype Event =
    | Failed(endpoint: string, now: int)
    | Succeeded(endpoint: string, now: int)
    | TimerFired(now: int)

  // ----- steps -----

  /** Drops the expired failures at the front. */
  function Pruned(failures: seq<Failure>, now: int): seq<Failure> {
    if failures != [] && failures[0].at < now - WATCH_WINDOW then Pruned(failures[1..], now) else failures
  }

  /** The failures of other endpoints. */
  function Cleared(failures: seq<Failure>, endpoint: string): seq<Failure> {
    if failures == [] then []
    else
      var rest := Cleared(failures[..|failures| - 1], endpoint);
      if failures[|failures| - 1].endpoint == endpoint then rest else rest + [failures[|failures| - 1]]
  }

  function Updated(h: Health, now: int): Health {
    if |h.failures| >= TO_DEGRADE then
      if h.degraded then h else h.(degraded := true, degradedSince := Some(now))
    else if h.degraded then
      if h.degradedSince.None? || now - h.degradedSince.value >= MIN_VISIBLE
      then h.(degraded := false, degradedSince := None)
      else h.(timer := Some(now + (MIN_VISIBLE - (now - h.degradedSince.value))))
    else h
  }

  function Max(a: int, b: int): int { if a >= b then a else b }

  function Step(h: Health, e: Event): Health {
    match e
    case Failed(endpoint, now) =>
      var updated := Updated(h.(failures := Pruned(h.failures, now) + [Failure(endpoint, now)]), now);
      updated.(timer := Some(now + Max(0, updated.failures[0].at + WATCH_WINDOW + GRACE - now)))
    case Succeeded(endpoint, now) =>
      if h.failures == [] then h else Updated(h.(failures := Pruned(Cleared(h.failures, endpoint), now)), now)
    case TimerFired(now) =>
      Updated(h.(timer := None, failures := Pruned(h.failures, now)), now)
  }

  const HEALTHY := Health([], false, None, None)

  /** A timer event needs a pending timer, but may come at any time. */
  predicate Enabled(h: Health, e: Event) {
    e.TimerFired? ==> h.timer.Some?
  }

  function After(events: seq<Event>): Health {
    if events == [] then HEALTHY else Step(After(events[..|events| - 1]), events[|events| - 1])
  }

  ghost predicate IsRun(events: seq<Event>) {
    && (forall i | 0 <= i < |events| :: Enabled(After(events[..i]), events[i]))
    && (forall i, j | 0 <= i < j < |events| :: events[i].now <= events[j].now)
  }

  // ----- the failures kept -----

  /** The failures recorded and not cleared since by a success of their endpoint. */
  function Uncleared(events: seq<Event>): seq<Failure> {
    if events == [] then []
    else UnclearedAfter(Uncleared(events[..|events| - 1]), events[|events| - 1])
  }

  function UnclearedAfter(all: seq<Failure>, e: Event): seq<Failure> {
    match e
    case Failed(endpoint, now) => all + [Failure(endpoint, now)]
    case Succeeded(endpoint, _) => Cleared(all, endpoint)
    case TimerFired(_) => all
  }

  function InWindow(failures: seq<Failure>, now: int): seq<Failure> {
    if failures == [] then []
    else
      var rest := InWindow(failures[..|failures| - 1], now);
      if failures[|failures| - 1].at < now - 30_000 then rest else rest + [failures[|failures| - 1]]
  }

  predicate InOrder(failures: seq<Failure>) {
    forall i, j | 0 <= i < j < |failures| :: failures[i].at <= failures[j].at
  }

  lemma {:induction false} PrunedIsInWindow(failures: seq<Failure>, now: int)
    requires InOrder(failures)
    ensures Pruned(failures, now) == InWindow(failures, now)
    decreases |failures|
  {
    if failures != [] {
      if failures[0].at < now - WATCH_WINDOW {
        WithoutFirst(failures, now);
        PrunedIsInWindow(failures[1..], now);
      } else {
        AllInWindow(failures, now);
      }
    }
  }

  lemma {:induction false} WithoutFirst(failures: seq<Failure>, now: int)
    requires failures != [] && failures[0].at < now - WATCH_WINDOW
    ensures InWindow(failures, now) == InWindow(failures[1..], now)
    decreases |failures|
  {
    if |failures| > 1 {
      WithoutFirst(failures[..|failures| - 1], now);
      assert failures[..|failures| - 1][1..] == failures[1..][..|failures| - 2];
    }
  }

  lemma {:induction false} AllInWindow(failures: seq<Failure>, now: int)
    requires forall i | 0 <= i < |failures| :: failures[i].at >= now - WATCH_WINDOW
    ensures InWindow(failures, now) == failures
    decreases |failures|
  {
    if failures != [] {
      AllInWindow(failures[..|failures| - 1], now);
    }
  }

  /** Filtering twice, and filtering in either order. */
  lemma {:induction false} Filters(failures: seq<Failure>, endpoint: string, earlier: int, now: int)
    requires earlier <= now
    ensures InWindow(InWindow(failures, earlier), now) == InWindow(failures, now)
    ensures InWindow(Cleared(failures, endpoint), now) == Cleared(InWindow(failures, now), endpoint)
    decreases |failures|
  {
    if failures != [] {
      var init, last := failures[..|failures| - 1], failures[|failures| - 1];
      Filters(init, endpoint, earlier, now);
      assert (InWindow(init, earlier) + [last])[..|InWindow(init, earlier)|] == InWindow(init, earlier);
      assert (Cleared(init, endpoint) + [last])[..|Cleared(init, endpoint)|] == Cleared(init, endpoint);
      assert (InWindow(init, now) + [last])[..|InWindow(init, now)|] == InWindow(init, now);
    }
  }

  lemma {:induction false} FiltersSelect(failures: seq<Failure>, endpoint: string, now: int)
    ensures forall f | f in Cleared(failures, endpoint) || f in InWindow(failures, now) :: f in failures
    decreases |failures|
  {
    if failures != [] {
      var init := failures[..|failures| - 1];
      FiltersSelect(init, endpoint, now);
      assert failures == init + [failures[|failures| - 1]];
    }
  }

  lemma {:induction false} FiltersKeepOrder(failures: seq<Failure>, endpoint: string, now: int)
    requires InOrder(failures)
    ensures InOrder(Cleared(failures, endpoint)) && InOrder(InWindow(failures, now))
    ensures forall f | f in Cleared(failures, endpoint) || f in InWindow(failures, now) :: f in failures
    decreases |failures|
  {
    FiltersSelect(failures, endpoint, now);
    if failures != [] {
      var init, last := failures[..|failures| - 1], failures[|failures| - 1];
      FiltersKeepOrder(init, endpoint, now);
      forall f | f in init ensures f.at <= last.at {
      }
      LatestKeepsOrder(Cleared(init, endpoint), last);
      LatestKeepsOrder(InWindow(init, now), last);
    }
  }

  lemma {:induction false} LatestKeepsOrder(failures: seq<Failure>, last: Failure)
    requires InOrder(failures) && forall f | f in failures :: f.at <= last.at
    ensures InOrder(failures + [last])
  {
  }

  lemma {:induction false} RunPrefix(events: seq<Event>)
    requires IsRun(events) && events != []
    ensures IsRun(events[..|events| - 1])
    ensures |events| > 1 ==> events[|events| - 2].now <= events[|events| - 1].now
    ensures Enabled(After(events[..|events| - 1]), events[|events| - 1])
  {
    var init := events[..|events| - 1];
    forall i | 0 <= i < |init| ensures Enabled(After(init[..i]), init[i]) {
      assert init[..i] == events[..i];
    }
  }

  lemma {:induction false} UnclearedInOrder(events: seq<Event>)
    requires IsRun(events)
    ensures InOrder(Uncleared(events))
    ensures events != [] ==> forall f | f in Uncleared(events) :: f.at <= events[|events| - 1].now
    ensures events == [] ==> Uncleared(events) == []
    decreases |events|
  {
    if events != [] {
      RunPrefix(events);
      UnclearedInOrder(events[..|events| - 1]);
      var e := events[|events| - 1];
      if e.Succeeded? {
        FiltersKeepOrder(Uncleared(events[..|events| - 1]), e.endpoint, 0);
      }
    }
  }

  lemma {:induction false} StepKeepsWindow(h: Health, e: Event, all: seq<Failure>, earlier: int)
    requires InOrder(all) && h.failures == InWindow(all, earlier) && earlier <= e.now
    ensures Step(h, e).failures == InWindow(UnclearedAfter(all, e), e.now)
  {
    match e
    case Failed(endpoint, now) =>
      PruningKeepsWindow(all, earlier, now);
      assert (all + [Failure(endpoint, now)])[..|all|] == all;
    case Succeeded(endpoint, now) => SuccessKeepsWindow(h, endpoint, now, all, earlier);
    case TimerFired(now) => PruningKeepsWindow(all, earlier, now);
  }

  lemma {:induction false} SuccessKeepsWindow(h: Health, endpoint: string, now: int, all: seq<Failure>, earlier: int)
    requires InOrder(all) && h.failures == InWindow(all, earlier) && earlier <= now
    ensures Step(h, Succeeded(endpoint, now)).failures == InWindow(Cleared(all, endpoint), now)
  {
    ClearingKeepsWindow(all, endpoint, earlier);
    FiltersKeepOrder(all, endpoint, earlier);
    PruningKeepsWindow(Cleared(all, endpoint), earlier, now);
  }

  lemma {:induction false} PruningKeepsWindow(all: seq<Failure>, earlier: int, now: int)
    requires InOrder(all) && earlier <= now
    ensures Pruned(InWindow(all, earlier), now) == InWindow(all, now)
    ensures InWindow(all, earlier) == [] ==> InWindow(all, now) == []
  {
    FiltersKeepOrder(all, "", earlier);
    Filters(all, "", earlier, now);
    PrunedIsInWindow(InWindow(all, earlier), now);
  }

  lemma {:induction false} ClearingKeepsWindow(all: seq<Failure>, endpoint: string, now: int)
    ensures Cleared(InWindow(all, now), endpoint) == InWindow(Cleared(all, endpoint), now)
  {
    Filters(all, endpoint, now, now);
  }

  /** Main result on the failures: after every event the list holds exactly the failures recorded
      in the last thirty seconds and not cleared since, in order. */
  lemma {:induction false} KeepsExactlyTheWindow(events: seq<Event>)
    requires IsRun(events)
    ensures events != [] ==> After(events).failures == InWindow(Uncleared(events), events[|events| - 1].now)
    ensures events == [] ==> After(events).failures == []
    decreases |events|
  {
    if events != [] {
      var init, e := events[..|events| - 1], events[|events| - 1];
      RunPrefix(events);
      KeepsExactlyTheWindow(init);
      UnclearedInOrder(init);
      StepKeepsWindow(After(init), e, Uncleared(init), if init == [] then e.now else init[|init| - 1].now);
    }
  }

  // ----- the banner -----

  /** When the banner that is up went up. */
  function RoseAt(events: seq<Event>): Option<int> {
    if events == [] || !After(events).degraded then None
    else if After(events[..|events| - 1]).degraded then RoseAt(events[..|events| - 1])
    else Some(events[|events| - 1].now)
  }

  /** Main result on the banner: it goes up only on two failures within the window, it never
      comes down before it has been up for six seconds, and while it is up with fewer than two
      failures a recovery timer is pending. */
  lemma {:induction false} BannerIsHeld(events: seq<Event>)
    requires IsRun(events)
    ensures After(events).degradedSince == RoseAt(events)
    ensures After(events).degraded == RoseAt(events).Some?
    ensures After(events).degraded && |After(events).failures| < 2 ==> After(events).timer.Some?
    ensures events != [] ==>
      var init, now := events[..|events| - 1], events[|events| - 1].now;
      var before, after := After(init), After(events);
      && (!before.degraded && after.degraded ==> |after.failures| >= 2)
      && (before.degraded && !after.degraded ==>
            |after.failures| < 2 && RoseAt(init).Some? && now - RoseAt(init).value >= 6_000)
    decreases |events|
  {
    if events != [] {
      RunPrefix(events);
      BannerIsHeld(events[..|events| - 1]);
      StepHoldsBanner(After(events[..|events| - 1]), events[|events| - 1]);
    }
  }

  lemma {:induction false} StepHoldsBanner(h: Health, e: Event)
    requires h.degraded == h.degradedSince.Some?
    requires h.degraded && |h.failures| < TO_DEGRADE ==> h.timer.Some?
    ensures
      var g := Step(h, e);
      && g.degraded == g.degradedSince.Some?
      && (g.degraded && |g.failures| < TO_DEGRADE ==> g.timer.Some?)
      && (g.degraded ==> g.degradedSince == if h.degraded then h.degradedSince else Some(e.now))
      && (!h.degraded && g.degraded ==> |g.failures| >= TO_DEGRADE)
      && (h.degraded && !g.degraded ==> |g.failures| < TO_DEGRADE && e.now - h.degradedSince.value >= MIN_VISIBLE)
  {
  }

  // ----- when nothing else happens -----

  /** The pending timer fires, `late` milliseconds after it was due. */
  function Fire(h: Health, late: nat): Health {
    if h.timer.None? then h else Step(h, TimerFired(h.timer.value + late))
  }

  lemma {:induction false} PrunedIsSuffix(failures: seq<Failure>, now: int)
    ensures
      var cut := |failures| - |Pruned(failures, now)|;
      && 0 <= cut && Pruned(failures, now) == failures[cut..]
      && (forall i | 0 <= i < cut :: failures[i].at < now - WATCH_WINDOW)
      && (cut < |failures| ==> failures[cut].at >= now - WATCH_WINDOW)
    decreases |failures|
  {
    if failures != [] && failures[0].at < now - WATCH_WINDOW {
      PrunedIsSuffix(failures[1..], now);
      var cut := |failures| - |Pruned(failures, now)|;
      forall i | 0 <= i < cut ensures failures[i].at < now - WATCH_WINDOW {
        if i > 0 {
          assert failures[1..][i - 1] == failures[i];
        }
      }
    }
  }

  /** With fewer than two failures the banner comes down by itself: at the pending timer, or at
      the one that is set then for the moment the six seconds are over. */
  lemma {:induction false} QuietBannerComesDown(h: Health, late: nat, later: nat)
    requires h.degraded && h.degradedSince.Some? && h.timer.Some? && |h.failures| < 2
    ensures !Fire(Fire(h, late), later).degraded && Fire(Fire(h, late), later).timer.None?
    ensures Fire(h, late).degraded ==> Fire(h, late).timer == Some(h.degradedSince.value + 6_000)
  {
    PrunedIsSuffix(h.failures, h.timer.value + late);
    var g := Fire(h, late);
    if g.degraded {
      PrunedIsSuffix(g.failures, g.timer.value + later);
    }
  }

  /** From any state with two failures or more, if nothing else happens but the timer: the banner
      comes down if and only if a timer is pending and finds all failures but the last expired.
      Otherwise it stays up with no timer pending. Either way nothing more happens then. */
  lemma {:induction false} BannerComesDownExactlyWhen(h: Health, late: nat, later: nat)
    requires h.degraded && h.degradedSince.Some? && |h.failures| >= 2 && InOrder(h.failures)
    ensures !Fire(Fire(h, late), later).degraded <==>
      h.timer.Some? && h.failures[|h.failures| - 2].at < h.timer.value + late - 30_000
    ensures Fire(Fire(h, late), later).timer.None?
  {
    if h.timer.Some? {
      var n, now := |h.failures|, h.timer.value + late;
      PrunedIsSuffix(h.failures, now);
      var cut := n - |Pruned(h.failures, now)|;
      assert h.failures[n - 2].at < now - WATCH_WINDOW <==> cut > n - 2;
      FiringLeaves(h, late, later, cut);
    }
  }

  /** What the timer does, told by the number of failures it drops. */
  lemma {:induction false} FiringLeaves(h: Health, late: nat, later: nat, cut: nat)
    requires h.degraded && h.degradedSince.Some? && |h.failures| >= TO_DEGRADE && h.timer.Some?
    requires cut <= |h.failures| && Pruned(h.failures, h.timer.value + late) == h.failures[cut..]
    ensures !Fire(Fire(h, late), later).degraded <==> cut > |h.failures| - 2
    ensures Fire(Fire(h, late), later).timer.None?
  {
    var g := Fire(h, late);
    if cut > |h.failures| - 2 && g.degraded {
      PrunedIsSuffix(g.failures, g.timer.value + later);
    }
  }

  /** In particular after a recorded failure that leaves two or more: exactly when all of them but
      the last were recorded less than a tenth of a second after the oldest, plus what the timer
      is late. */
  lemma {:induction false} AfterFailureComesDownExactlyWhen(h: Health, endpoint: string, now: int, late: nat, later: nat)
    requires InOrder(h.failures) && (forall f | f in h.failures :: f.at <= now)
    requires h.degraded == h.degradedSince.Some?
    requires |Step(h, Failed(endpoint, now)).failures| >= 2
    ensures
      var g := Step(h, Failed(endpoint, now));
      var n := |g.failures|;
      !Fire(Fire(g, late), later).degraded <==> g.failures[n - 2].at < g.failures[0].at + 100 + late
  {
    FailureIsListed(h, endpoint, now);
    BannerComesDownExactlyWhen(Step(h, Failed(endpoint, now)), late, later);
  }

  lemma {:induction false} FailureIsListed(h: Health, endpoint: string, now: int)
    requires InOrder(h.failures) && (forall f | f in h.failures :: f.at <= now)
    ensures
      var g := Step(h, Failed(endpoint, now));
      && g.failures != [] && g.failures[|g.failures| - 1] == Failure(endpoint, now)
      && g.failures[0].at >= now - WATCH_WINDOW && InOrder(g.failures)
      && g.timer == Some(g.failures[0].at + WATCH_WINDOW + GRACE)
  {
    PrunedIsSuffix(h.failures, now);
  }

  /** Failures at 0, 20 and 25 seconds leave the banner up for good, unless the timer comes more than
      19.9 seconds late. */
  lemma {:induction false} StuckBanner(late: nat, later: nat)
    ensures
      var h := Step(Step(HEALTHY, Failed("a", 0)), Failed("b", 20_000));
      var end := Fire(Fire(Step(h, Failed("c", 25_000)), late), later);
      end.timer.None? && (end.degraded <==> late <= 19_900)
  {
    var h := Step(Step(HEALTHY, Failed("a", 0)), Failed("b", 20_000));
    assert h.failures == [Failure("a", 0), Failure("b", 20_000)];
    var g := Step(h, Failed("c", 25_000));
    assert g.failures == [Failure("a", 0), Failure("b", 20_000), Failure("c", 25_000)];
    BannerComesDownExactlyWhen(g, late, later);
  }

  // ----- the module -----

  class Monitor {
    var failures: seq<Failure>
    var degraded: bool
    var degradedSince: Option<int>
    var timer: Option<int>

    constructor ()
      ensures Now() == HEALTHY
    {
      failures, degraded, degradedSince, timer := [], false, None, None;
    }

    ghost function Now(): Health
      reads this
    {
      Health(failures, degraded, degradedSince, timer)
    }

    method PruneFailures(now: int)
      modifies `failures
      ensures failures == Pruned(old(failures), now)
    {
      while failures != [] && failures[0].at < now - WATCH_WINDOW
        invariant Pruned(failures, now) == Pruned(old(failures), now)
        decreases |failures|
      {
        failures := failures[1..];
      }
    }

    method UpdateHealth(now: int)
      modifies `degraded, `degradedSince, `timer
      ensures Now() == Updated(old(Now()), now)
    {
      if |failures| >= TO_DEGRADE {
        if !degraded {
          degraded, degradedSince := true, Some(now);
        }
      } else if degraded {
        if degradedSince.None? || now - degradedSince.value >= MIN_VISIBLE {
          degraded, degradedSince := false, None;
        } else {
          ScheduleRecoveryCheck(now, MIN_VISIBLE - (now - degradedSince.value));
        }
      }
    }

    method ScheduleRecoveryCheck(now: int, delay: int)
      modifies `timer
      ensures timer == Some(now + delay)
    {
      timer := Some(now + delay);
    }

    method RecordFailure(endpoint: string, now: int)
      modifies this
      ensures Now() == Step(old(Now()), Failed(endpoint, now))
    {
      PruneFailures(now);
      failures := failures + [Failure(endpoint, now)];
      UpdateHealth(now);
      var oldestAt := if failures != [] then failures[0].at else now;
      ScheduleRecoveryCheck(now, Max(0, oldestAt + WATCH_WINDOW + GRACE - now));
    }

    method RecordSuccess(endpoint: string, now: int)
      modifies this
      ensures Now() == Step(old(Now()), Succeeded(endpoint, now))
    {
      if failures == [] {
        return;
      }
      ClearEndpoint(endpoint);
      PruneFailures(now);
      UpdateHealth(now);
    }

    method ClearEndpoint(endpoint: string)
      modifies `failures
      ensures failures == Cleared(old(failures), endpoint)
    {
      var i := |failures| - 1;
      ghost var was := failures;
      while i >= 0
        invariant -1 <= i < |was|
        invariant failures == was[..i + 1] + Cleared(was[i + 1..], endpoint)
      {
        ClearOneMore(was, i, endpoint);
        if failures[i].endpoint == endpoint {
          failures := failures[..i] + failures[i + 1..];
        }
        i := i - 1;
      }
      assert was[0..] == was;
    }

    method TimerFires(now: int)
      requires timer.Some?
      modifies this
      ensures Now() == Step(old(Now()), TimerFired(now))
    {
      timer := None;
      PruneFailures(now);
      UpdateHealth(now);
    }
  }

  lemma {:induction false} ClearOneMore(was: seq<Failure>, i: nat, endpoint: string)
    requires i < |was|
    ensures
      var now := was[..i + 1] + Cleared(was[i + 1..], endpoint);
      && now[i] == was[i]
      && was[..i] + Cleared(was[i..], endpoint)
        == if was[i].endpoint == endpoint then now[..i] + now[i + 1..] else now
  {
    ClearedFromBack(was[i..], endpoint);
    assert was[i..][1..] == was[i + 1..];
    DropBetween(was[..i], was[i], Cleared(was[i + 1..], endpoint));
    assert was[..i + 1] == was[..i] + [was[i]];
  }

  lemma {:induction false} DropBetween(a: seq<Failure>, f: Failure, b: seq<Failure>)
    ensures (a + [f] + b)[..|a|] + (a + [f] + b)[|a| + 1..] == a + b
    ensures a + ([f] + b) == a + [f] + b
  {
  }

  lemma {:induction false} ClearedFromBack(failures: seq<Failure>, endpoint: string)
    requires failures != []
    ensures Cleared(failures, endpoint)
      == (if failures[0].endpoint == endpoint then [] else [failures[0]]) + Cleared(failures[1..], endpoint)
    decreases |failures|
  {
    if |failures| > 1 {
      ClearedFromBack(failures[..|failures| - 1], endpoint);
      assert failures[..|failures| - 1][1..] == failures[1..][..|failures| - 2];
    }
  }
}
