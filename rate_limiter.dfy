/**
 * The rate limiter every API call passes through. It combines a reactive gate,
 * driven by the quota the server last reported, with a proactive sliding window
 * of the timestamps of recent calls.
 *
 * Time is an integer clock in seconds that the caller passes in; a sleep is
 * returned to the caller as the number of seconds the clock must advance.
 */
module RateLimit {
  import opened Common

  /** Length of the sliding window, in seconds. */
  const Window := 3600
  /** Below this many remaining points the server-reported quota takes over. */
  const LowQuota := 100
  /** Seconds added after the server's reset instant before calling again. */
  const ResetMargin := 5
  /** The ceiling `__init__` defaults to, and the one the program's single shared limiter uses. */
  const DefaultMaxRequests := 4900

  /**
   * The `rateLimit` object of a response, when it is a non-empty object.
   * `remaining` is None when the key is absent or null; `resetAt` is None when
   * the key is absent, null or the empty string, and otherwise the parsed
   * instant in seconds.
   */
  datatype RateLimitInfo = RateLimitInfo(remaining: Option<int>, resetAt: Option<int>)

  /** The limiter's fields: the window, and the last server-reported quota. */
  datatype LimiterState = LimiterState(requests: seq<int>, remaining: Option<int>, resetAt: Option<int>)

  /**
   * What one `acquire` does: the new state, the seconds slept and whether the
   * call was recorded in the window; or the IndexError raised when the window
   * is empty yet not below the ceiling (only possible when the ceiling is <= 0).
   */
  datatype Acquired =
    | Granted(state: LimiterState, sleep: int, recorded: bool)
    | IndexFailure(state: LimiterState)

  /** The timestamps of `ts` that are less than a window old at `now`, in order. */
  function Recent(ts: seq<int>, now: int): (r: seq<int>)
    ensures |r| <= |ts|
    ensures forall t :: t in r <==> t in ts && now - t < Window
  {
    if ts == [] then []
    else
      var rest := Recent(ts[..|ts| - 1], now);
      var t := ts[|ts| - 1];
      assert ts == ts[..|ts| - 1] + [t];
      if now - t < Window then rest + [t] else rest
  }

  /** The filter keeps every fresh timestamp as often as it occurred and drops every stale one. */
  lemma {:induction false} RecentCounts(ts: seq<int>, now: int)
    ensures forall t :: multiset(Recent(ts, now))[t] == if now - t < Window then multiset(ts)[t] else 0
  {
    if ts != [] {
      var prefix := ts[..|ts| - 1];
      RecentCounts(prefix, now);
      assert ts == prefix + [ts[|ts| - 1]];
    }
  }

  /** The reactive gate: a low server-reported quota and a reset instant still ahead. */
  predicate ReactiveWait(s: LimiterState, now: int)
  {
    && s.remaining.Some? && s.remaining.value < LowQuota
    && s.resetAt.Some? && s.resetAt.value != 0
    && s.resetAt.value - now + ResetMargin > 0
  }

  /** One `acquire` at clock `now` with window ceiling `maxRequests`. */
  function AcquireStep(maxRequests: int, s: LimiterState, now: int): (a: Acquired)
    ensures a.Granted? ==> a.sleep >= 0
    ensures a.Granted? ==> a.state.remaining == s.remaining && a.state.resetAt == s.resetAt
    ensures a.IndexFailure? ==> maxRequests <= 0
  {
    if ReactiveWait(s, now) then
      Granted(s.(requests := []), s.resetAt.value - now + ResetMargin, false)
    else
      var window := Recent(s.requests, now);
      if |window| >= maxRequests then
        if window == [] then IndexFailure(s.(requests := window))
        else
          assert window[0] in window;
          Granted(s.(requests := [now]), Window - (now - window[0]) + 1, true)
      else
        Granted(s.(requests := window + [now]), 0, true)
  }

  /** What one `acquire` does, as seen by its callers: from a state and a clock to its outcome. */
  type Acquirer = (LimiterState, int) -> Acquired

  /** The limiter's `acquire` with window ceiling `maxRequests`. */
  function Gate(maxRequests: int): Acquirer
  {
    (s, now) => AcquireStep(maxRequests, s, now)
  }

  /** An acquire that never raises. */
  ghost predicate AlwaysGrants(acquire: Acquirer)
  {
    forall s, now :: acquire(s, now).Granted?
  }

  /** An acquire that never moves the clock back. */
  ghost predicate SleepsForward(acquire: Acquirer)
  {
    forall s, now :: acquire(s, now).Granted? ==> acquire(s, now).sleep >= 0
  }

  /** An acquire that leaves the server-reported quota alone. */
  ghost predicate KeepsQuota(acquire: Acquirer)
  {
    forall s, now :: acquire(s, now).state.remaining == s.remaining && acquire(s, now).state.resetAt == s.resetAt
  }

  /** With a positive ceiling the limiter never raises; whatever the ceiling, it only sleeps forward and keeps the quota. */
  lemma GateBehaves(maxRequests: int)
    ensures maxRequests >= 1 ==> AlwaysGrants(Gate(maxRequests))
    ensures SleepsForward(Gate(maxRequests)) && KeepsQuota(Gate(maxRequests))
  {
  }

  /** The program's shared limiter, built with the default ceiling, never raises. */
  lemma DefaultGateGrants()
    ensures AlwaysGrants(Gate(DefaultMaxRequests))
  {
    GateBehaves(DefaultMaxRequests);
  }

  /** `update_from_response`: None stands for an absent, null or empty `rateLimit` object. */
  function UpdateStep(s: LimiterState, info: Option<RateLimitInfo>): LimiterState
  {
    match info
    case None => s
    case Some(i) => s.(remaining := i.remaining, resetAt := if i.resetAt.Some? then i.resetAt else s.resetAt)
  }

  /**
   * A recorded call leaves at most the ceiling in the window (one, for a
   * ceiling below one), and a proactive sleep lasts until the first timestamp
   * of the filtered window has left it (the oldest one when the window is in
   * clock order, `AcquireSleepsPastOldest`).
   */
  lemma AcquireWindowBound(maxRequests: int, s: LimiterState, now: int)
    ensures var a := AcquireStep(maxRequests, s, now);
      && (a.Granted? && a.recorded ==> |a.state.requests| <= if maxRequests < 1 then 1 else maxRequests)
      && (a.Granted? && a.recorded && a.sleep > 0 ==>
            Recent(s.requests, now) != [] && now + a.sleep - Recent(s.requests, now)[0] > Window)
  {
  }

  lemma ReactiveAcquire(maxRequests: int, s: LimiterState, now: int)
    requires ReactiveWait(s, now)
    ensures AcquireStep(maxRequests, s, now) == Granted(LimiterState([], s.remaining, s.resetAt), s.resetAt.value - now + ResetMargin, false)
    ensures now + AcquireStep(maxRequests, s, now).sleep == s.resetAt.value + ResetMargin
  {
  }

  /**
   * Outside the reactive gate the call is always recorded, with the pre-sleep
   * clock, after the stale timestamps were dropped; the window is cleared only
   * when it was full.
   */
  lemma ProactiveAcquire(maxRequests: int, s: LimiterState, now: int)
    requires !ReactiveWait(s, now) && maxRequests >= 1
    ensures var a := AcquireStep(maxRequests, s, now);
      && a.Granted? && a.recorded
      && (|Recent(s.requests, now)| < maxRequests ==> a.sleep == 0 && a.state.requests == Recent(s.requests, now) + [now])
      && (|Recent(s.requests, now)| >= maxRequests ==> a.sleep > 0 && a.state.requests == [now])
  {
    var window := Recent(s.requests, now);
    if |window| >= maxRequests {
      assert window[0] in window;
    }
  }

  /** A call goes unrecorded exactly when the reactive gate made it sleep. */
  lemma UnrecordedIffReactive(maxRequests: int, s: LimiterState, now: int)
    requires maxRequests >= 1
    ensures AcquireStep(maxRequests, s, now).Granted?
    ensures !AcquireStep(maxRequests, s, now).recorded <==> ReactiveWait(s, now)
  {
  }

  lemma UpdateFacts(s: LimiterState, i: RateLimitInfo)
    ensures UpdateStep(s, None) == s
    ensures UpdateStep(s, Some(i)).remaining == i.remaining
    ensures UpdateStep(s, Some(i)).resetAt == if i.resetAt.Some? then i.resetAt else s.resetAt
    ensures UpdateStep(s, Some(i)).requests == s.requests
  {
  }

  /** Calls into the limiter, in the order they happen. */
  datatype Event = AcquireAt(now: int) | UpdateWith(info: Option<RateLimitInfo>)

  function Replay(maxRequests: int, s: LimiterState, events: seq<Event>): LimiterState
    decreases |events|
  {
    if events == [] then s
    else
      var s' := match events[0]
        case AcquireAt(now) => AcquireStep(maxRequests, s, now).state
        case UpdateWith(info) => UpdateStep(s, info);
      Replay(maxRequests, s', events[1..])
  }

  /** With a positive ceiling the window never holds more than the ceiling, whatever happens. */
  lemma {:induction false} ReplayKeepsWindowBound(maxRequests: int, s: LimiterState, events: seq<Event>)
    requires maxRequests >= 1 && |s.requests| <= maxRequests
    ensures |Replay(maxRequests, s, events).requests| <= maxRequests
    decreases |events|
  {
    if events != [] {
      match events[0]
      case AcquireAt(now) =>
        AcquireWindowBound(maxRequests, s, now);
        ReplayKeepsWindowBound(maxRequests, AcquireStep(maxRequests, s, now).state, events[1..]);
      case UpdateWith(info) =>
        ReplayKeepsWindowBound(maxRequests, UpdateStep(s, info), events[1..]);
    }
  }

  /** Timestamps in the order of the clock. */
  predicate Sorted(ts: seq<int>)
  {
    forall i, j :: 0 <= i < j < |ts| ==> ts[i] <= ts[j]
  }

  /** No timestamp later than `now`. */
  predicate NotAfter(ts: seq<int>, now: int)
  {
    forall t :: t in ts ==> t <= now
  }

  /** Dropping the stale timestamps keeps the window in clock order. */
  lemma {:induction false} RecentSorted(ts: seq<int>, now: int)
    requires Sorted(ts)
    ensures Sorted(Recent(ts, now))
  {
    if ts != [] {
      var prefix, t := ts[..|ts| - 1], ts[|ts| - 1];
      assert Sorted(prefix);
      RecentSorted(prefix, now);
      var rest := Recent(prefix, now);
      assert forall i :: 0 <= i < |prefix| ==> prefix[i] <= t;
      assert forall x :: x in rest ==> x <= t by {
        forall x | x in rest ensures x <= t {
          assert x in prefix;
        }
      }
      if now - t < Window {
        assert Recent(ts, now) == rest + [t] by {
          assert ts[..|ts| - 1] == prefix;
        }
        forall i, j | 0 <= i < j < |rest| + 1
          ensures (rest + [t])[i] <= (rest + [t])[j]
        {
          if j == |rest| {
            assert rest[i] in rest;
          }
        }
      } else {
        assert Recent(ts, now) == rest by {
          assert ts[..|ts| - 1] == prefix;
        }
      }
    }
  }

  /** An acquire at a clock no earlier than any recorded call keeps the window in clock order. */
  lemma AcquireSorted(maxRequests: int, s: LimiterState, now: int)
    requires Sorted(s.requests) && NotAfter(s.requests, now)
    ensures Sorted(AcquireStep(maxRequests, s, now).state.requests)
    ensures NotAfter(AcquireStep(maxRequests, s, now).state.requests, now)
  {
    var window := Recent(s.requests, now);
    RecentSorted(s.requests, now);
    assert NotAfter(window, now);
    forall i, j | 0 <= i < j < |window| + 1
      ensures (window + [now])[i] <= (window + [now])[j]
    {
      if j == |window| {
        assert window[i] in window;
      }
    }
  }

  /** In a sorted window the first timestamp is the oldest. */
  lemma SortedFirstOldest(ts: seq<int>)
    requires Sorted(ts) && ts != []
    ensures forall t :: t in ts ==> ts[0] <= t
  {
  }

  /**
   * With the window in clock order, a proactive sleep lasts until the oldest
   * call in the window has left it, and one second longer.
   */
  lemma AcquireSleepsPastOldest(maxRequests: int, s: LimiterState, now: int)
    requires Sorted(s.requests)
    ensures var a, window := AcquireStep(maxRequests, s, now), Recent(s.requests, now);
      a.Granted? && a.recorded && a.sleep > 0 ==>
        && window != []
        && (forall t :: t in window ==> window[0] <= t)
        && now + a.sleep - window[0] == Window + 1
  {
    var window := Recent(s.requests, now);
    RecentSorted(s.requests, now);
    if window != [] {
      SortedFirstOldest(window);
    }
    AcquireWindowBound(maxRequests, s, now);
  }

  /** Every acquire in `events` happens at `clock` or later, and the acquires' clocks never decrease. */
  predicate ClocksFrom(clock: int, events: seq<Event>)
    decreases |events|
  {
    events == [] ||
    match events[0]
    case AcquireAt(now) => clock <= now && ClocksFrom(now, events[1..])
    case UpdateWith(_) => ClocksFrom(clock, events[1..])
  }

  /** A clock that never goes back keeps the window in clock order, whatever else happens. */
  lemma {:induction false} ReplaySorted(maxRequests: int, s: LimiterState, clock: int, events: seq<Event>)
    requires Sorted(s.requests) && NotAfter(s.requests, clock) && ClocksFrom(clock, events)
    ensures Sorted(Replay(maxRequests, s, events).requests)
    decreases |events|
  {
    if events != [] {
      match events[0]
      case AcquireAt(now) =>
        AcquireSorted(maxRequests, s, now);
        ReplaySorted(maxRequests, AcquireStep(maxRequests, s, now).state, now, events[1..]);
      case UpdateWith(info) =>
        ReplaySorted(maxRequests, UpdateStep(s, info), clock, events[1..]);
    }
  }

  /**
   * The instants at which the calls go out when successive acquires start at
   * `starts`: each one after its acquire's sleep. A raising acquire ends the run.
   */
  function Sends(maxRequests: int, s: LimiterState, starts: seq<int>): (r: seq<int>)
    ensures |r| <= |starts|
    decreases |starts|
  {
    if starts == [] then []
    else
      var a := AcquireStep(maxRequests, s, starts[0]);
      if a.IndexFailure? then [] else [starts[0] + a.sleep] + Sends(maxRequests, a.state, starts[1..])
  }

  /** A window whose timestamps are all fresh is kept whole. */
  lemma {:induction false} RecentAllFresh(ts: seq<int>, now: int)
    requires forall i :: 0 <= i < |ts| ==> now - ts[i] < Window
    ensures Recent(ts, now) == ts
  {
    if ts != [] {
      RecentAllFresh(ts[..|ts| - 1], now);
    }
  }

  /** The first acquire of a run, when it is granted, sends the run's first call. */
  lemma SendsStep(maxRequests: int, s: LimiterState, starts: seq<int>)
    ensures starts != [] && AcquireStep(maxRequests, s, starts[0]).Granted? ==>
      var a := AcquireStep(maxRequests, s, starts[0]);
      Sends(maxRequests, s, starts) == [starts[0] + a.sleep] + Sends(maxRequests, a.state, starts[1..])
  {
  }

  /**
   * The window does not hold the ceiling per hour. With a ceiling of one, a
   * call at 0 fills it; the next acquire at 0 sleeps until 3601, clears the
   * window and records the pre-sleep 0; an acquire at 3601 then finds that
   * timestamp stale and goes out at once. Two calls go out at 3601.
   */
  lemma CeilingNotEnforced()
    ensures Sends(1, LimiterState([], None, None), [0, 0, 3601]) == [0, 3601, 3601]
  {
    var s1 := LimiterState([0], None, None);
    CeilingFirstCall(s1);
    CeilingFullWait(s1);
    CeilingStaleWindow(s1);
    SendsStep(1, s1, [3601]);
    SendsStep(1, s1, [0, 3601]);
    assert [0, 3601][1..] == [3601];
    SendsStep(1, LimiterState([], None, None), [0, 0, 3601]);
    assert [0, 0, 3601][1..] == [0, 3601];
  }

  /** The three acquires of `CeilingNotEnforced`, one at a time. */
  lemma CeilingFirstCall(s1: LimiterState)
    requires s1 == LimiterState([0], None, None)
    ensures AcquireStep(1, LimiterState([], None, None), 0) == Granted(s1, 0, true)
  {
  }

  lemma CeilingFullWait(s1: LimiterState)
    requires s1 == LimiterState([0], None, None)
    ensures AcquireStep(1, s1, 0) == Granted(s1, 3601, true)
  {
    assert Recent([0], 0) == [0];
  }

  lemma CeilingStaleWindow(s1: LimiterState)
    requires s1 == LimiterState([0], None, None)
    ensures AcquireStep(1, s1, 3601) == Granted(LimiterState([3601], None, None), 0, true)
  {
    assert Recent([0], 3601) == [];
  }

  /** Every timestamp the window holds after an acquire is less than a window old at that clock. */
  lemma AcquireWindowFresh(maxRequests: int, s: LimiterState, now: int)
    requires AcquireStep(maxRequests, s, now).Granted?
    ensures forall t :: t in AcquireStep(maxRequests, s, now).state.requests ==> now - t < Window
  {
  }

  class RateLimiter {
    const maxRequests: int
    var requests: seq<int>
    var remaining: Option<int>
    var resetAt: Option<int>

    function State(): LimiterState
      reads this
    {
      LimiterState(requests, remaining, resetAt)
    }

    constructor (maxRequestsPerHour: int)
      ensures maxRequests == maxRequestsPerHour
      ensures State() == LimiterState([], None, None)
    {
      maxRequests := maxRequestsPerHour;
      requests := [];
      remaining := None;
      resetAt := None;
    }

    /**
     * Waits until one more call is allowed. Returns the seconds slept and
     * `ok == false` when the call raised instead.
     */
    method Acquire(now: int) returns (sleep: int, ok: bool)
      modifies this
      ensures var a := AcquireStep(maxRequests, old(State()), now);
        && State() == a.state
        && ok == a.Granted?
        && sleep == (if a.Granted? then a.sleep else 0)
    {
      sleep := 0;
      ok := true;
      if remaining.Some? && remaining.value < LowQuota {
        if resetAt.Some? && resetAt.value != 0 {
          var sleepTime := resetAt.value - now + ResetMargin;
          if sleepTime < 0 {
            sleepTime := 0;
          }
          if sleepTime > 0 {
            sleep := sleepTime;
            requests := [];
            return;
          }
        }
      }
      requests := Recent(requests, now);
      if |requests| >= maxRequests {
        if requests == [] {
          ok := false;
          return;
        }
        sleep := Window - (now - requests[0]) + 1;
        requests := [];
      }
      requests := requests + [now];
    }

    method UpdateFromResponse(info: Option<RateLimitInfo>)
      modifies this
      ensures State() == UpdateStep(old(State()), info)
    {
      if info.Some? {
        remaining := info.value.remaining;
        if info.value.resetAt.Some? {
          resetAt := info.value.resetAt;
        }
      }
    }
  }
}
