/** The fixed-window request limiter: buckets per key, pruned now and then. */
module RateLimiter {
  import opened Options

  const WINDOW := 10_000
  const PRUNE_INTERVAL := 256

  datatype Bucket = Bucket(resetAt: int, count: nat)

  datatype Rule = Rule(key: string, maxPerWindow: int)

  datatype Request = Request(rules: seq<Rule>, now: int)

  datatype Decision = Allowed | Denied(retryAfterSeconds: int)

  type Buckets = map<string, Bucket>

  // ----- one request -----

  /** The bucket of a key whose window is still running. */
  function Live(buckets: Buckets, key: string, now: int): Option<Bucket> {
    if key in buckets && buckets[key].resetAt > now then Some(buckets[key]) else None
  }

  /** The bucket after one more request. */
  function Next(buckets: Buckets, key: string, now: int): Bucket {
    match Live(buckets, key, now)
    case None => Bucket(now + WINDOW, 1)
    case Some(bucket) => Bucket(bucket.resetAt, bucket.count + 1)
  }

  predicate Exceeds(buckets: Buckets, rule: Rule, now: int) {
    Next(buckets, rule.key, now).count > rule.maxPerWindow
  }

  /** The first rule that would be exceeded, or their number. */
  function FirstExceeded(buckets: Buckets, rules: seq<Rule>, now: int): (i: nat)
    ensures i <= |rules|
    ensures i < |rules| ==> Exceeds(buckets, rules[i], now)
    ensures forall j | 0 <= j < i :: !Exceeds(buckets, rules[j], now)
  {
    if rules == [] || Exceeds(buckets, rules[0], now) then 0 else 1 + FirstExceeded(buckets, rules[1..], now)
  }

  predicate Mentions(rules: seq<Rule>, key: string) {
    exists rule | rule in rules :: rule.key == key
  }

  function Committed(buckets: Buckets, rules: seq<Rule>, now: int): Buckets {
    var keys := set rule | rule in rules :: rule.key;
    map key | key in buckets.Keys + keys :: if key in keys then Next(buckets, key, now) else buckets[key]
  }

  function RoundedUp(milliseconds: int): int {
    (milliseconds + 999) / 1000
  }

  function Decide(buckets: Buckets, request: Request): Decision {
    var i := FirstExceeded(buckets, request.rules, request.now);
    if i == |request.rules| then Allowed
    else Denied(RoundedUp(Next(buckets, request.rules[i].key, request.now).resetAt - request.now))
  }

  /** The buckets after a request: all its keys are counted together, or none is. */
  function Consumed(buckets: Buckets, request: Request): Buckets {
    if Decide(buckets, request).Allowed? then Committed(buckets, request.rules, request.now) else buckets
  }

  function Pruned(buckets: Buckets, now: int): Buckets {
    map key | key in buckets && buckets[key].resetAt > now :: buckets[key]
  }

  // ----- the limiter -----

  class Limiter {
    var buckets: Buckets
    var sinceLastPrune: nat

    constructor ()
      ensures buckets == map[] && sinceLastPrune == 0
    {
      buckets, sinceLastPrune := map[], 0;
    }

    method MaybePrune(now: int)
      modifies this
      ensures sinceLastPrune == if old(sinceLastPrune) + 1 < 256 then old(sinceLastPrune) + 1 else 0
      ensures buckets == if old(sinceLastPrune) + 1 < 256 then old(buckets) else Pruned(old(buckets), now)
    {
      sinceLastPrune := sinceLastPrune + 1;
      if sinceLastPrune < PRUNE_INTERVAL {
        return;
      }
      sinceLastPrune := 0;
      var keys := buckets.Keys;
      while keys != {}
        invariant keys <= buckets.Keys <= old(buckets).Keys
        invariant forall key | key in buckets :: buckets[key] == old(buckets)[key]
        invariant forall key | key in old(buckets) && old(buckets)[key].resetAt > now :: key in buckets
        invariant forall key | key in buckets && key !in keys :: buckets[key].resetAt > now
        invariant sinceLastPrune == 0
        decreases |keys|
      {
        var key :| key in keys;
        keys := keys - {key};
        if buckets[key].resetAt <= now {
          buckets := buckets - {key};
        }
      }
    }

    /** Looks at every rule first and counts only when all of them leave room. */
    method ConsumeBuckets(rules: seq<Rule>, now: int) returns (decision: Decision)
      modifies `buckets
      ensures decision == Decide(old(buckets), Request(rules, now))
      ensures buckets == Consumed(old(buckets), Request(rules, now))
    {
      var previews: seq<(string, Bucket)> := [];
      for i := 0 to |rules|
        invariant buckets == old(buckets) && |previews| == i
        invariant forall j | 0 <= j < i :: previews[j] == (rules[j].key, Next(buckets, rules[j].key, now))
        invariant FirstExceeded(buckets, rules, now) >= i
      {
        var rule := rules[i];
        var found := rule.key in buckets && buckets[rule.key].resetAt > now;
        var resetAt := if found then buckets[rule.key].resetAt else now + WINDOW;
        var nextCount := if found then buckets[rule.key].count + 1 else 1;
        if nextCount > rule.maxPerWindow {
          return Denied(RoundedUp(resetAt - now));
        }
        previews := previews + [(rule.key, Bucket(resetAt, nextCount))];
      }
      for i := 0 to |previews|
        invariant buckets == Committed(old(buckets), rules[..i], now)
      {
        CommitOneMore(old(buckets), rules, i, now);
        buckets := buckets[previews[i].0 := previews[i].1];
      }
      assert rules[..|rules|] == rules;
      return Allowed;
    }

    method Handle(request: Request) returns (decision: Decision)
      modifies this
      ensures
        var before := State(old(buckets), old(sinceLastPrune));
        decision == Decide(Prepared(before, request.now), request)
        && State(buckets, sinceLastPrune) == Step(before, request)
    {
      MaybePrune(request.now);
      decision := ConsumeBuckets(request.rules, request.now);
    }
  }

  lemma {:induction false} CommitOneMore(buckets: Buckets, rules: seq<Rule>, i: nat, now: int)
    requires i < |rules|
    ensures Committed(buckets, rules[..i + 1], now)
         == Committed(buckets, rules[..i], now)[rules[i].key := Next(buckets, rules[i].key, now)]
  {
    assert rules[..i + 1] == rules[..i] + [rules[i]];
    var less, more := set rule | rule in rules[..i] :: rule.key, set rule | rule in rules[..i + 1] :: rule.key;
    forall key ensures key in more <==> key in less + {rules[i].key} {
    }
  }

  // ----- runs -----

  datatype State = State(buckets: Buckets, sinceLastPrune: nat)

  /** The buckets a request finds: pruned first when it is time. */
  function Prepared(s: State, now: int): Buckets {
    if s.sinceLastPrune + 1 < PRUNE_INTERVAL then s.buckets else Pruned(s.buckets, now)
  }

  function Step(s: State, request: Request): State {
    State(Consumed(Prepared(s, request.now), request),
          if s.sinceLastPrune + 1 < PRUNE_INTERVAL then s.sinceLastPrune + 1 else 0)
  }

  function After(requests: seq<Request>): State {
    if requests == [] then State(map[], 0) else Step(After(requests[..|requests| - 1]), requests[|requests| - 1])
  }

  /** The decision on the last request. */
  function LastDecision(requests: seq<Request>): Decision
    requires requests != []
  {
    var request := requests[|requests| - 1];
    Decide(Prepared(After(requests[..|requests| - 1]), request.now), request)
  }

  /** The same limiter, never pruned. */
  function Unpruned(requests: seq<Request>): Buckets {
    if requests == [] then map[] else Consumed(Unpruned(requests[..|requests| - 1]), requests[|requests| - 1])
  }

  predicate ClockMovesForward(requests: seq<Request>) {
    forall i, j | 0 <= i < j < |requests| :: requests[i].now <= requests[j].now
  }

  /** From some time on the two limiters cannot be told apart. */
  ghost predicate Alike(a: Buckets, b: Buckets, now: int) {
    forall key, later | now <= later :: Live(a, key, later) == Live(b, key, later)
  }

  lemma {:induction false} AlikeDecideAlike(a: Buckets, b: Buckets, request: Request)
    requires Alike(a, b, request.now)
    ensures Decide(a, request) == Decide(b, request)
    ensures Alike(Consumed(a, request), Consumed(b, request), request.now)
  {
    var now := request.now;
    forall key ensures Next(a, key, now) == Next(b, key, now) {
      assert Live(a, key, now) == Live(b, key, now);
    }
    var i, j := FirstExceeded(a, request.rules, now), FirstExceeded(b, request.rules, now);
    assert i == j by {
      assert forall k | 0 <= k < |request.rules| :: Exceeds(a, request.rules[k], now) == Exceeds(b, request.rules[k], now);
    }
    var a', b' := Consumed(a, request), Consumed(b, request);
    forall key, later | now <= later ensures Live(a', key, later) == Live(b', key, later) {
      assert Live(a, key, later) == Live(b, key, later);
    }
  }

  /** Pruning is invisible: while the clock does not go back, the pruned limiter decides every
      request like one that never forgets a bucket. */
  lemma {:induction false} PruningIsInvisible(requests: seq<Request>)
    requires ClockMovesForward(requests)
    ensures requests != [] ==>
      LastDecision(requests) == Decide(Unpruned(requests[..|requests| - 1]), requests[|requests| - 1])
      && Alike(After(requests).buckets, Unpruned(requests), requests[|requests| - 1].now)
    ensures requests == [] ==> After(requests).buckets == Unpruned(requests)
    decreases |requests|
  {
    if requests != [] {
      var init, request := requests[..|requests| - 1], requests[|requests| - 1];
      PruningIsInvisible(init);
      var s, full := After(init), Unpruned(init);
      if init != [] {
        assert init[|init| - 1].now <= request.now;
      }
      assert Alike(s.buckets, full, request.now);
      assert Alike(Prepared(s, request.now), full, request.now) by {
        forall key, later | request.now <= later
          ensures Live(Prepared(s, request.now), key, later) == Live(full, key, later)
        {
          assert Live(s.buckets, key, later) == Live(full, key, later);
        }
      }
      AlikeDecideAlike(Prepared(s, request.now), full, request);
    }
  }

  /** A denied request changes no count, and the time it is told to wait is the number of whole
      seconds until the window of the first exceeded rule has ended: never too early, and never
      a full second too late. */
  lemma {:induction false} DenialCountsNothing(buckets: Buckets, request: Request)
    requires Decide(buckets, request).Denied?
    ensures Consumed(buckets, request) == buckets
    ensures
      var rule := request.rules[FirstExceeded(buckets, request.rules, request.now)];
      var wait := Decide(buckets, request).retryAfterSeconds;
      var live := Live(buckets, rule.key, request.now);
      && Live(buckets, rule.key, request.now + 1000 * wait).None?
      && wait >= 1
      && (live.Some? ==>
            live.value.count >= rule.maxPerWindow && Live(buckets, rule.key, request.now + 1000 * (wait - 1)) == live)
  {
  }

  // ----- how many requests get through -----

  /** The times at which requests naming the key were admitted. */
  function Admissions(requests: seq<Request>, key: string): seq<int> {
    if requests == [] then []
    else
      var request := requests[|requests| - 1];
      var before := Admissions(requests[..|requests| - 1], key);
      if LastDecision(requests).Allowed? && Mentions(request.rules, key) then before + [request.now] else before
  }

  function InSpan(times: seq<int>, from: int): nat {
    if times == [] then 0
    else InSpan(times[..|times| - 1], from) + (if from <= times[|times| - 1] < from + 10_000 then 1 else 0)
  }

  /** Admissions grouped into windows: each starts with its first admission. */
  function Windows(times: seq<int>): seq<seq<int>> {
    if times == [] then []
    else
      Extended(Windows(times[..|times| - 1]), times[|times| - 1])
  }

  function Extended(windows: seq<seq<int>>, time: int): seq<seq<int>> {
    if windows == [] || windows[|windows| - 1] == [] || windows[|windows| - 1][0] + WINDOW <= time
    then windows + [[time]]
    else windows[..|windows| - 1] + [windows[|windows| - 1] + [time]]
  }

  ghost predicate AreWindows(windows: seq<seq<int>>) {
    && (forall i | 0 <= i < |windows| :: windows[i] != [])
    && (forall i, k | 0 <= i < |windows| && 0 <= k < |windows[i]| ::
          windows[i][0] <= windows[i][k] < windows[i][0] + 10_000)
    && (forall i | 0 < i < |windows| :: windows[i - 1][0] + 10_000 <= windows[i][0])
  }

  predicate IsSorted(times: seq<int>) {
    forall i, j | 0 <= i < j < |times| :: times[i] <= times[j]
  }

  function InSpanOfWindows(windows: seq<seq<int>>, from: int): nat {
    if windows == [] then 0
    else InSpanOfWindows(windows[..|windows| - 1], from) + InSpan(windows[|windows| - 1], from)
  }

  lemma {:induction false} ExtendedAreWindows(windows: seq<seq<int>>, time: int, more: seq<seq<int>>)
    requires AreWindows(windows) && (windows != [] ==> LastTime(windows) <= time) && more == Extended(windows, time)
    ensures AreWindows(more) && LastTime(more) == time
  {
    if windows != [] {
      var last := windows[|windows| - 1];
      assert last[0] <= last[|last| - 1];
      assert forall k | 0 <= k < |windows| - 1 :: more[k] == windows[k];
    }
  }

  lemma {:induction false} SpanOfExtended(windows: seq<seq<int>>, time: int, from: int, more: seq<seq<int>>)
    requires AreWindows(windows) && more == Extended(windows, time)
    ensures InSpanOfWindows(more, from) == InSpanOfWindows(windows, from) + if from <= time < from + WINDOW then 1 else 0
  {
    if windows == [] || windows[|windows| - 1][0] + WINDOW <= time {
      assert more[..|windows|] == windows;
      assert [time][..0] == [];
      assert InSpan([time], from) == if from <= time < from + WINDOW then 1 else 0;
    } else {
      var last := windows[|windows| - 1];
      assert (last + [time])[..|last|] == last;
      assert more[..|windows| - 1] == windows[..|windows| - 1];
    }
  }

  lemma {:induction false} WindowsAreWindows(times: seq<int>, from: int)
    requires IsSorted(times)
    ensures AreWindows(Windows(times))
    ensures times != [] ==> Windows(times) != [] && LastTime(Windows(times)) == times[|times| - 1]
    ensures times == [] ==> Windows(times) == []
    ensures InSpanOfWindows(Windows(times), from) == InSpan(times, from)
    decreases |times|
  {
    if times != [] {
      var init, time := times[..|times| - 1], times[|times| - 1];
      WindowsAreWindows(init, from);
      if init != [] {
        assert init[|init| - 1] <= time;
      }
      ExtendedAreWindows(Windows(init), time, Windows(times));
      SpanOfExtended(Windows(init), time, from, Windows(times));
    }
  }

  function LastTime(windows: seq<seq<int>>): int
    requires windows != [] && windows[|windows| - 1] != []
  {
    windows[|windows| - 1][|windows[|windows| - 1]| - 1]
  }

  lemma {:induction false} SpanAtMostLength(times: seq<int>, from: int)
    ensures InSpan(times, from) <= |times|
    ensures times != [] && times[0] < from ==> InSpan(times, from) < |times|
    ensures (forall i | 0 <= i < |times| :: !(from <= times[i] < from + WINDOW)) ==> InSpan(times, from) == 0
    decreases |times|
  {
    if times != [] {
      SpanAtMostLength(times[..|times| - 1], from);
    }
  }

  lemma {:induction false} OldWindowsAreOver(windows: seq<seq<int>>, from: int)
    requires AreWindows(windows)
    requires windows != [] ==> windows[|windows| - 1][0] + WINDOW <= from
    ensures InSpanOfWindows(windows, from) == 0
    decreases |windows|
  {
    if windows != [] {
      var init := windows[..|windows| - 1];
      if init != [] {
        assert windows[|init| - 1][0] + WINDOW <= windows[|init|][0];
      }
      OldWindowsAreOver(init, from);
      SpanAtMostLength(windows[|windows| - 1], from);
    }
  }

  /** A span of ten seconds reaches two windows at most, and misses the first request of the
      earlier one if it reaches both. */
  lemma {:induction false} SpanReachesTwoWindows(windows: seq<seq<int>>, from: int, max: nat)
    requires AreWindows(windows) && forall i | 0 <= i < |windows| :: |windows[i]| <= max
    ensures InSpanOfWindows(windows, from) <= if max == 0 then 0 else 2 * max - 1
    decreases |windows|
  {
    if windows != [] {
      var init, last := windows[..|windows| - 1], windows[|windows| - 1];
      SpanAtMostLength(last, from);
      if last[0] >= from + WINDOW {
        SpanReachesTwoWindows(init, from, max);
      } else if init == [] {
        assert InSpanOfWindows(init, from) == 0;
      } else {
        var before := init[|init| - 1];
        assert windows[|init| - 1][0] + WINDOW <= windows[|init|][0];
        SpanAtMostLength(before, from);
        var rest := init[..|init| - 1];
        if rest != [] {
          assert windows[|rest| - 1][0] + WINDOW <= windows[|rest|][0];
          assert rest[|rest| - 1][0] + WINDOW <= before[0];
        }
        assert before[0] < from;
        OldWindowsAreOver(rest, from);
      }
    }
  }

  /** Every rule for the key allows at most max requests per window. */
  ghost predicate AtMost(requests: seq<Request>, key: string, max: nat) {
    forall i, rule | 0 <= i < |requests| && rule in requests[i].rules && rule.key == key :: rule.maxPerWindow <= max
  }

  ghost predicate Tracks(buckets: Buckets, key: string, windows: seq<seq<int>>) {
    if windows == [] then key !in buckets
    else
      var last := windows[|windows| - 1];
      last != [] && key in buckets && buckets[key] == Bucket(last[0] + 10_000, |last|)
  }

  /** The bucket of a key is its last window: its end, and the number of requests in it. */
  lemma {:induction false} BucketIsLastWindow(requests: seq<Request>, key: string, max: nat)
    requires ClockMovesForward(requests) && AtMost(requests, key, max)
    ensures
      var windows := Windows(Admissions(requests, key));
      Tracks(Unpruned(requests), key, windows) && forall i | 0 <= i < |windows| :: |windows[i]| <= max
    decreases |requests|
  {
    if requests != [] {
      var init, request := requests[..|requests| - 1], requests[|requests| - 1];
      assert AtMost(init, key, max) by {
        forall i, rule | 0 <= i < |init| && rule in init[i].rules && rule.key == key ensures rule.maxPerWindow <= max {
          assert rule in requests[i].rules;
        }
      }
      BucketIsLastWindow(init, key, max);
      PruningIsInvisible(requests);
      var times := Admissions(init, key);
      if LastDecision(requests).Allowed? && Mentions(request.rules, key) {
        assert (times + [request.now])[..|times|] == times;
        OneMoreAdmitted(Unpruned(init), request, key, Windows(times), max);
      } else {
        NotAdmitted(Unpruned(init), request, key, Windows(times));
      }
    }
  }

  lemma {:induction false} AdmissionsAreSorted(requests: seq<Request>, key: string)
    requires ClockMovesForward(requests)
    ensures IsSorted(Admissions(requests, key))
    ensures Admissions(requests, key) != [] ==>
      requests != [] && Admissions(requests, key)[|Admissions(requests, key)| - 1] <= requests[|requests| - 1].now
    decreases |requests|
  {
    if requests != [] {
      var init := requests[..|requests| - 1];
      AdmissionsAreSorted(init, key);
      if init != [] {
        assert init[|init| - 1].now <= requests[|requests| - 1].now;
      }
      SortedWithLast(Admissions(init, key), requests[|requests| - 1].now);
    }
  }

  lemma {:induction false} SortedWithLast(times: seq<int>, now: int)
    requires IsSorted(times) && (times != [] ==> times[|times| - 1] <= now)
    ensures IsSorted(times + [now])
  {
  }

  lemma {:induction false} NotAdmitted(buckets: Buckets, request: Request, key: string, windows: seq<seq<int>>)
    requires Tracks(buckets, key, windows) && (Decide(buckets, request).Denied? || !Mentions(request.rules, key))
    ensures Tracks(Consumed(buckets, request), key, windows)
  {
  }

  lemma {:induction false} OneMoreAdmitted(buckets: Buckets, request: Request, key: string, windows: seq<seq<int>>, max: nat)
    requires Tracks(buckets, key, windows) && Mentions(request.rules, key) && Decide(buckets, request).Allowed?
    requires forall rule | rule in request.rules && rule.key == key :: rule.maxPerWindow <= max
    requires forall i | 0 <= i < |windows| :: |windows[i]| <= max
    ensures
      var more := Extended(windows, request.now);
      Tracks(Consumed(buckets, request), key, more) && forall i | 0 <= i < |more| :: |more[i]| <= max
  {
    var rule :| rule in request.rules && rule.key == key;
    var i :| 0 <= i < |request.rules| && request.rules[i] == rule;
    assert !Exceeds(buckets, request.rules[i], request.now);
  }

  /** Main result: at most max requests of a key per window, and at most 2 * max - 1 in any ten
      seconds, whatever the requests are, if the clock does not go back. */
  lemma {:induction false} AdmissionRate(requests: seq<Request>, key: string, max: nat, from: int)
    requires ClockMovesForward(requests) && AtMost(requests, key, max)
    ensures
      var windows := Windows(Admissions(requests, key));
      AreWindows(windows) && forall i | 0 <= i < |windows| :: |windows[i]| <= max
    ensures InSpan(Admissions(requests, key), from) <= if max == 0 then 0 else 2 * max - 1
  {
    BucketIsLastWindow(requests, key, max);
    AdmissionsAreSorted(requests, key);
    WindowsAreWindows(Admissions(requests, key), from);
    SpanReachesTwoWindows(Windows(Admissions(requests, key)), from, max);
  }

  // ----- the bound is reached -----

  /** The first request opens a window; the others of that window come in its last millisecond. */
  function Moment(max: nat, k: nat): int {
    if k == 0 then 0 else if k < max then WINDOW - 1 else WINDOW
  }

  function Burst(key: string, max: nat, n: nat): seq<Request> {
    seq(n, k requires 0 <= k < n => Request([Rule(key, max)], Moment(max, k)))
  }

  function Moments(max: nat, n: nat): seq<int> {
    seq(n, k requires 0 <= k < n => Moment(max, k))
  }

  /** For every limit: of 2 * max requests in two windows all but the first get through within
      ten seconds. */
  lemma {:induction false} BoundIsReached(key: string, max: nat)
    requires max >= 1
    ensures
      var requests := Burst(key, max, 2 * max);
      && ClockMovesForward(requests) && AtMost(requests, key, max)
      && InSpan(Admissions(requests, key), 9_999) == 2 * max - 1
  {
    BurstIsFair(key, max, 2 * max, Burst(key, max, 2 * max));
    BurstIsAdmitted(key, max, 2 * max);
    AllButTheFirst(max, 2 * max);
  }

  lemma {:induction false} BurstIsFair(key: string, max: nat, n: nat, requests: seq<Request>)
    requires requests == Burst(key, max, n)
    ensures ClockMovesForward(requests) && AtMost(requests, key, max)
  {
    forall i | 0 <= i < n ensures requests[i].rules == [Rule(key, max)] && requests[i].now == Moment(max, i) {
    }
  }

  /** The bucket of the key after n requests. */
  function BurstBuckets(key: string, max: nat, n: nat): Buckets
    requires n <= 2 * max
  {
    if n == 0 then map[]
    else if n <= max then map[key := Bucket(WINDOW, n)]
    else map[key := Bucket(2 * WINDOW, n - max)]
  }

  lemma {:induction false} BurstIsAdmitted(key: string, max: nat, n: nat)
    requires 1 <= max && n <= 2 * max
    ensures Unpruned(Burst(key, max, n)) == BurstBuckets(key, max, n)
    ensures Admissions(Burst(key, max, n), key) == Moments(max, n)
    decreases n
  {
    if n > 0 {
      BurstIsAdmitted(key, max, n - 1);
      BurstIsFair(key, max, n, Burst(key, max, n));
      BurstGoesOn(key, max, n - 1);
      OneMoreRequest(Burst(key, max, n - 1), Burst(key, max, n), key, max, BurstBuckets(key, max, n - 1), Moment(max, n - 1));
    }
  }

  lemma {:induction false} BurstGoesOn(key: string, max: nat, n: nat)
    requires n < 2 * max
    ensures Burst(key, max, n + 1) == Burst(key, max, n) + [Request([Rule(key, max)], Moment(max, n))]
    ensures Moments(max, n + 1) == Moments(max, n) + [Moment(max, n)]
    ensures
      var buckets, next := BurstBuckets(key, max, n), Next(BurstBuckets(key, max, n), key, Moment(max, n));
      buckets.Keys <= {key} && next.count <= max && BurstBuckets(key, max, n + 1) == map[key := next]
  {
  }

  lemma {:induction false} OneMoreRequest(before: seq<Request>, requests: seq<Request>, key: string, max: nat, buckets: Buckets, now: int)
    requires requests == before + [Request([Rule(key, max)], now)] && ClockMovesForward(requests)
    requires Unpruned(before) == buckets && buckets.Keys <= {key} && Next(buckets, key, now).count <= max
    ensures Unpruned(requests) == map[key := Next(buckets, key, now)]
    ensures Admissions(requests, key) == Admissions(before, key) + [now]
  {
    assert requests[..|before|] == before;
    PruningIsInvisible(requests);
    OneRule(buckets, requests[|before|], key, max);
  }

  /** A request of one rule which still finds room. */
  lemma {:induction false} OneRule(buckets: Buckets, request: Request, key: string, max: nat)
    requires request.rules == [Rule(key, max)] && buckets.Keys <= {key}
    requires Next(buckets, key, request.now).count <= max
    ensures Decide(buckets, request).Allowed? && Mentions(request.rules, key)
    ensures Consumed(buckets, request) == map[key := Next(buckets, key, request.now)]
  {
    assert request.rules[0] == Rule(key, max);
    assert Rule(key, max) in request.rules;
    assert Consumed(buckets, request).Keys == {key};
  }

  lemma {:induction false} AllButTheFirst(max: nat, n: nat)
    requires 1 <= max && 1 <= n
    ensures InSpan(Moments(max, n), WINDOW - 1) == n - 1
    decreases n
  {
    assert Moments(max, n)[..n - 1] == Moments(max, n - 1);
    if n > 1 {
      AllButTheFirst(max, n - 1);
    }
  }
}
