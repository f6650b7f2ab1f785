/**
 * One paginated search call: the retry policy around a single attempt, the
 * classification of what an attempt yields, and the page normalisation that
 * turns every failure into an empty last page.
 *
 * The HTTP exchange is an oracle `reply: nat -> Reply` giving what attempt
 * number `i` (from 0) receives; the retry library's wait before attempt `i + 1`
 * is the caller-supplied `backoff(i)`.
 */
module Client {
  import opened Common
  import opened RateLimit
  import opened Api

  /** The retry policy stops after this many attempts. */
  const MaxAttempts := 5

  /** How an attempt ends: with a body, with an error that is retried, or with one that is not. */
  datatype Verdict = Success(body: Body) | Transient | Hard

  /**
   * Status 200 with a usable `data` yields the body; 502, 503 and transport
   * errors are retried; every other status, and a null `data`, is final.
   */
  function Classify(reply: Reply): Verdict
  {
    match reply
    case TransportFailure => Transient
    case Response(status, body) =>
      if status == 200 then
        // `.get("rateLimit")` on a null `data` raises, and that error is not retried
        if body.data.Null? then Hard else Success(body)
      else if status == 502 || status == 503 then Transient
      else Hard
  }

  lemma ClassifyVerdicts(reply: Reply)
    ensures var v := Classify(reply);
      && (v.Success? <==> reply.Response? && reply.status == 200 && !reply.body.data.Null?)
      && (v.Success? ==> v.body == reply.body)
      && (v.Transient? <==> reply.TransportFailure? || reply.status == 502 || reply.status == 503)
  {
  }

  function RateLimitOf(body: Body): Option<RateLimitInfo>
  {
    match body.data
    case Present(d) => d.rateLimit
    case _ => None
  }

  datatype QueryOutcome = Fetched(body: Body) | HardFailure | RetriesExhausted

  /** Outcome, limiter state afterwards, attempts made and the clock afterwards. */
  datatype QueryRun = QueryRun(outcome: QueryOutcome, state: LimiterState, attempts: nat, clock: int)

  /** What one attempt decides: the query ends, or it goes on from the next attempt at `clock`. */
  datatype Turn =
    | Ends(outcome: QueryOutcome, state: LimiterState, clock: int)
    | Continues(state: LimiterState, clock: int)

  /**
   * One attempt, given what the limiter did and how the reply classifies: a
   * raising limiter and a final error end the query, a body ends it after
   * feeding its telemetry to the limiter, and a transient error ends it only on
   * the `last` attempt, otherwise waiting `wait` seconds before the next one.
   */
  function TurnOf(a: Acquired, v: Verdict, now: int, wait: nat, last: bool): (t: Turn)
    ensures t.Continues? ==> !last && a.Granted? && v.Transient?
  {
    match a
    case IndexFailure(s') => Ends(HardFailure, s', now)
    case Granted(s', sleep, _) =>
      match v
      case Success(body) => Ends(Fetched(body), UpdateStep(s', RateLimitOf(body)), now + sleep)
      case Hard => Ends(HardFailure, s', now + sleep)
      case Transient => if last then Ends(RetriesExhausted, s', now + sleep) else Continues(s', now + sleep + wait)
  }

  /**
   * The retried query from attempt number `attempt` on, each attempt passing
   * through `acquire` first.
   */
  function RunQuerySpec(acquire: Acquirer, s: LimiterState, now: int, reply: nat -> Reply, backoff: nat -> nat, attempt: nat): QueryRun
    requires attempt < MaxAttempts
    decreases MaxAttempts - attempt
  {
    match TurnOf(acquire(s, now), Classify(reply(attempt)), now, backoff(attempt), attempt + 1 == MaxAttempts)
    case Ends(outcome, s', t) => QueryRun(outcome, s', attempt + 1, t)
    case Continues(s', t) => RunQuerySpec(acquire, s', t, reply, backoff, attempt + 1)
  }

  /** One attempt of the retried query: what it returns, or the attempt it hands over to. */
  lemma RunQueryUnfold(acquire: Acquirer, s: LimiterState, now: int, reply: nat -> Reply, backoff: nat -> nat, attempt: nat)
    requires attempt < MaxAttempts
    ensures var a, r, v := acquire(s, now), RunQuerySpec(acquire, s, now, reply, backoff, attempt), Classify(reply(attempt));
      && (a.IndexFailure? ==> r == QueryRun(HardFailure, a.state, attempt + 1, now))
      && (a.Granted? && v.Success? ==>
            r == QueryRun(Fetched(v.body), UpdateStep(a.state, RateLimitOf(v.body)), attempt + 1, now + a.sleep))
      && (a.Granted? && v.Hard? ==> r == QueryRun(HardFailure, a.state, attempt + 1, now + a.sleep))
      && (a.Granted? && v.Transient? && attempt + 1 == MaxAttempts ==>
            r == QueryRun(RetriesExhausted, a.state, attempt + 1, now + a.sleep))
      && (a.Granted? && v.Transient? && attempt + 1 < MaxAttempts ==>
            r == RunQuerySpec(acquire, a.state, now + a.sleep + backoff(attempt), reply, backoff, attempt + 1))
  {
  }

  /** Between one and five attempts. */
  lemma {:induction false} RunQueryAttemptCount(acquire: Acquirer, s: LimiterState, now: int, reply: nat -> Reply, backoff: nat -> nat, attempt: nat)
    requires attempt < MaxAttempts
    ensures attempt < RunQuerySpec(acquire, s, now, reply, backoff, attempt).attempts <= MaxAttempts
    decreases MaxAttempts - attempt
  {
    var a := acquire(s, now);
    if a.Granted? && Classify(reply(attempt)).Transient? && attempt + 1 < MaxAttempts {
      RunQueryAttemptCount(acquire, a.state, now + a.sleep + backoff(attempt), reply, backoff, attempt + 1);
    }
  }

  /** The clock only moves forward. */
  lemma {:induction false} RunQueryClock(acquire: Acquirer, s: LimiterState, now: int, reply: nat -> Reply, backoff: nat -> nat, attempt: nat)
    requires attempt < MaxAttempts && SleepsForward(acquire)
    ensures RunQuerySpec(acquire, s, now, reply, backoff, attempt).clock >= now
    decreases MaxAttempts - attempt
  {
    var a := acquire(s, now);
    var r := RunQuerySpec(acquire, s, now, reply, backoff, attempt);
    if a.Granted? {
      assert a.sleep >= 0;
      if Classify(reply(attempt)).Transient? && attempt + 1 < MaxAttempts {
        var later := now + a.sleep + backoff(attempt);
        RunQueryClock(acquire, a.state, later, reply, backoff, attempt + 1);
        assert r == RunQuerySpec(acquire, a.state, later, reply, backoff, attempt + 1);
      } else {
        assert r.clock == now + a.sleep;
      }
    }
  }

  /** Every attempt before the last one ended in a transient failure. */
  lemma {:induction false} RunQueryRetriedOnlyTransient(acquire: Acquirer, s: LimiterState, now: int, reply: nat -> Reply, backoff: nat -> nat, attempt: nat)
    requires attempt < MaxAttempts
    ensures var r := RunQuerySpec(acquire, s, now, reply, backoff, attempt);
      forall i :: attempt <= i < r.attempts - 1 ==> Classify(reply(i)).Transient?
    decreases MaxAttempts - attempt
  {
    var a := acquire(s, now);
    var r := RunQuerySpec(acquire, s, now, reply, backoff, attempt);
    if a.Granted? && Classify(reply(attempt)).Transient? && attempt + 1 < MaxAttempts {
      var later := now + a.sleep + backoff(attempt);
      RunQueryRetriedOnlyTransient(acquire, a.state, later, reply, backoff, attempt + 1);
      assert r == RunQuerySpec(acquire, a.state, later, reply, backoff, attempt + 1);
    } else {
      assert r.attempts == attempt + 1;
    }
  }

  /** A query that ends with a body got it from its last attempt, a success. */
  lemma {:induction false} RunQueryFetchedLast(acquire: Acquirer, s: LimiterState, now: int, reply: nat -> Reply, backoff: nat -> nat, attempt: nat)
    requires attempt < MaxAttempts
    ensures var r := RunQuerySpec(acquire, s, now, reply, backoff, attempt);
      r.outcome.Fetched? ==> attempt < r.attempts && Classify(reply(r.attempts - 1)) == Success(r.outcome.body)
    decreases MaxAttempts - attempt
  {
    RunQueryUnfold(acquire, s, now, reply, backoff, attempt);
    var a, v := acquire(s, now), Classify(reply(attempt));
    var r := RunQuerySpec(acquire, s, now, reply, backoff, attempt);
    if a.Granted? && v.Transient? && attempt + 1 < MaxAttempts {
      var later := now + a.sleep + backoff(attempt);
      RunQueryFetchedLast(acquire, a.state, later, reply, backoff, attempt + 1);
      assert r == RunQuerySpec(acquire, a.state, later, reply, backoff, attempt + 1);
    } else if a.Granted? && v.Success? {
      assert r.outcome == Fetched(v.body) && r.attempts == attempt + 1;
    } else {
      assert !r.outcome.Fetched?;
    }
  }

  /** A hard failure comes from a final error on the last attempt, when the limiter does not raise. */
  lemma {:induction false} RunQueryHardLast(acquire: Acquirer, s: LimiterState, now: int, reply: nat -> Reply, backoff: nat -> nat, attempt: nat)
    requires attempt < MaxAttempts && AlwaysGrants(acquire)
    ensures var r := RunQuerySpec(acquire, s, now, reply, backoff, attempt);
      r.outcome.HardFailure? ==> attempt < r.attempts && Classify(reply(r.attempts - 1)).Hard?
    decreases MaxAttempts - attempt
  {
    RunQueryUnfold(acquire, s, now, reply, backoff, attempt);
    var a := acquire(s, now);
    assert a.Granted?;
    if Classify(reply(attempt)).Transient? && attempt + 1 < MaxAttempts {
      RunQueryHardLast(acquire, a.state, now + a.sleep + backoff(attempt), reply, backoff, attempt + 1);
    }
  }

  /** Exhaustion takes all five attempts, the last of them transient. */
  lemma {:induction false} RunQueryExhaustedLast(acquire: Acquirer, s: LimiterState, now: int, reply: nat -> Reply, backoff: nat -> nat, attempt: nat)
    requires attempt < MaxAttempts
    ensures var r := RunQuerySpec(acquire, s, now, reply, backoff, attempt);
      r.outcome.RetriesExhausted? ==> r.attempts == MaxAttempts && Classify(reply(r.attempts - 1)).Transient?
    decreases MaxAttempts - attempt
  {
    RunQueryUnfold(acquire, s, now, reply, backoff, attempt);
    var a := acquire(s, now);
    if a.Granted? && Classify(reply(attempt)).Transient? && attempt + 1 < MaxAttempts {
      RunQueryExhaustedLast(acquire, a.state, now + a.sleep + backoff(attempt), reply, backoff, attempt + 1);
    }
  }

  /**
   * The retry policy: at most five attempts; every attempt before the last one
   * was transient; the last one decides: a body on status 200, a hard failure on
   * a non-retryable error, exhaustion after five transient ones. The clock only
   * moves forward.
   */
  lemma RunQueryOutcome(acquire: Acquirer, s: LimiterState, now: int, reply: nat -> Reply, backoff: nat -> nat, attempt: nat)
    requires attempt < MaxAttempts && AlwaysGrants(acquire) && SleepsForward(acquire)
    ensures var r := RunQuerySpec(acquire, s, now, reply, backoff, attempt);
      && attempt < r.attempts <= MaxAttempts
      && r.clock >= now
      && (forall i :: attempt <= i < r.attempts - 1 ==> Classify(reply(i)).Transient?)
      && (r.outcome.Fetched? ==> Classify(reply(r.attempts - 1)) == Success(r.outcome.body))
      && (r.outcome.HardFailure? ==> Classify(reply(r.attempts - 1)).Hard?)
      && (r.outcome.RetriesExhausted? ==> r.attempts == MaxAttempts && Classify(reply(r.attempts - 1)).Transient?)
  {
    RunQueryAttemptCount(acquire, s, now, reply, backoff, attempt);
    RunQueryClock(acquire, s, now, reply, backoff, attempt);
    RunQueryRetriedOnlyTransient(acquire, s, now, reply, backoff, attempt);
    RunQueryFetchedLast(acquire, s, now, reply, backoff, attempt);
    RunQueryHardLast(acquire, s, now, reply, backoff, attempt);
    RunQueryExhaustedLast(acquire, s, now, reply, backoff, attempt);
  }

  /** The rate-limit telemetry of a successful reply reaches the limiter; failures leave the quota alone. */
  lemma {:induction false} RunQueryTelemetry(acquire: Acquirer, s: LimiterState, now: int, reply: nat -> Reply, backoff: nat -> nat, attempt: nat)
    requires attempt < MaxAttempts && KeepsQuota(acquire)
    ensures var r := RunQuerySpec(acquire, s, now, reply, backoff, attempt);
      && (r.outcome.Fetched? ==> exists s' :: r.state == UpdateStep(s', RateLimitOf(r.outcome.body)))
      && (!r.outcome.Fetched? ==> r.state.remaining == s.remaining && r.state.resetAt == s.resetAt)
    decreases MaxAttempts - attempt
  {
    var a := acquire(s, now);
    if a.Granted? {
      match Classify(reply(attempt))
      case Success(body) =>
        assert RunQuerySpec(acquire, s, now, reply, backoff, attempt).state == UpdateStep(a.state, RateLimitOf(body));
      case Hard =>
      case Transient =>
        if attempt + 1 < MaxAttempts {
          RunQueryTelemetry(acquire, a.state, now + a.sleep + backoff(attempt), reply, backoff, attempt + 1);
        }
    }
  }

  /** `run_query_async` with its retry decorator. */
  method RunQuery(limiter: RateLimiter, reply: nat -> Reply, backoff: nat -> nat, now: int)
    returns (outcome: QueryOutcome, attempts: nat, clock: int)
    modifies limiter
    ensures var r := RunQuerySpec(Gate(limiter.maxRequests), old(limiter.State()), now, reply, backoff, 0);
      && outcome == r.outcome && attempts == r.attempts && clock == r.clock
      && limiter.State() == r.state
  {
    outcome, attempts, clock := RetryFrom(limiter, reply, backoff, now, 0);
  }

  /**
   * One attempt: acquire, send, classify. Either the query ends here with
   * `outcome`, or the attempt was transient with attempts to spare and the run
   * goes on from the next attempt at `clock`, after the backoff.
   */
  method Attempt(limiter: RateLimiter, reply: nat -> Reply, backoff: nat -> nat, now: int, attempt: nat)
    returns (done: bool, outcome: QueryOutcome, clock: int)
    requires attempt < MaxAttempts
    modifies limiter
    ensures var t := TurnOf(AcquireStep(limiter.maxRequests, old(limiter.State()), now), Classify(reply(attempt)),
                            now, backoff(attempt), attempt + 1 == MaxAttempts);
      && done == t.Ends? && limiter.State() == t.state && clock == t.clock
      && (done ==> outcome == t.outcome)
  {
    var sleep, ok := limiter.Acquire(now);
    if !ok {
      return true, HardFailure, now;
    }
    clock := now + sleep;
    var verdict := Classify(reply(attempt));
    if verdict.Success? {
      var info := RateLimitOf(verdict.body);
      if info.Some? {
        limiter.UpdateFromResponse(info);
      }
      done, outcome := true, Fetched(verdict.body);
    } else if verdict.Hard? {
      done, outcome := true, HardFailure;
    } else if attempt + 1 == MaxAttempts {
      done, outcome := true, RetriesExhausted;
    } else {
      done, outcome, clock := false, RetriesExhausted, clock + backoff(attempt);
    }
  }

  /** The retry decorator from attempt number `attempt` on: one attempt, then the next one if it was transient. */
  method RetryFrom(limiter: RateLimiter, reply: nat -> Reply, backoff: nat -> nat, now: int, attempt: nat)
    returns (outcome: QueryOutcome, attempts: nat, clock: int)
    requires attempt < MaxAttempts
    modifies limiter
    ensures var r := RunQuerySpec(Gate(limiter.maxRequests), old(limiter.State()), now, reply, backoff, attempt);
      && outcome == r.outcome && attempts == r.attempts && clock == r.clock
      && limiter.State() == r.state
    decreases MaxAttempts - attempt
  {
    ghost var s0 := limiter.State();
    assert Gate(limiter.maxRequests)(s0, now) == AcquireStep(limiter.maxRequests, s0, now);
    var done;
    done, outcome, clock := Attempt(limiter, reply, backoff, now, attempt);
    attempts := attempt + 1;
    if !done {
      outcome, attempts, clock := RetryFrom(limiter, reply, backoff, clock, attempt + 1);
    }
  }

  /** What `fetch_page` returns; None stands for a JSON null. */
  datatype Page = Page(nodes: Option<seq<RepoNode>>, pageInfo: Option<PageInfo>)

  /** The page `fetch_page` returns for any failure. */
  const EmptyPage := Page(Some([]), Some(NoMorePages))

  /** `obj.get(key, default)`: a default for an absent key, None for null. */
  function GetOr<T>(f: Field<T>, default: T): Option<T>
  {
    match f
    case Missing => Some(default)
    case Null => None
    case Present(v) => Some(v)
  }

  /**
   * `fetch_page`'s reading of a query outcome. Records only come from a
   * successful reply's `search.nodes`, and a next page is announced only when
   * that reply's `pageInfo` said so; a failed query, a missing `data` or
   * `search`, and a null `search` (whose lookup raises) all give the empty page.
   */
  function NormalizePage(outcome: QueryOutcome): (p: Page)
    ensures !outcome.Fetched? ==> p == EmptyPage
    ensures p.nodes.Some? && p.nodes.value != [] ==>
              && outcome.Fetched? && outcome.body.data.Present?
              && outcome.body.data.value.search.Present?
              && outcome.body.data.value.search.value.nodes == Present(p.nodes.value)
    ensures p.pageInfo.Some? && p.pageInfo.value.hasNextPage ==>
              && outcome.Fetched? && outcome.body.data.Present?
              && outcome.body.data.value.search.Present?
              && outcome.body.data.value.search.value.pageInfo == Present(p.pageInfo.value)
    ensures outcome.Fetched? && outcome.body.data.Present? && outcome.body.data.value.search.Present? ==>
              var sr := outcome.body.data.value.search.value;
              p == Page(GetOr(sr.nodes, []), GetOr(sr.pageInfo, NoMorePages))
  {
    match outcome
    case Fetched(body) =>
      (match body.data
       case Present(d) =>
         (match d.search
          case Present(sr) => Page(GetOr(sr.nodes, []), GetOr(sr.pageInfo, NoMorePages))
          case _ => EmptyPage)
       case _ => EmptyPage)
    case _ => EmptyPage
  }

  /** `fetch_page`: the retried query, normalised; it never raises. */
  method FetchPage(limiter: RateLimiter, reply: nat -> Reply, backoff: nat -> nat, now: int)
    returns (page: Page, attempts: nat, clock: int)
    modifies limiter
    ensures var r := RunQuerySpec(Gate(limiter.maxRequests), old(limiter.State()), now, reply, backoff, 0);
      && page == NormalizePage(r.outcome) && attempts == r.attempts && clock == r.clock
      && limiter.State() == r.state
  {
    var outcome;
    outcome, attempts, clock := RunQuery(limiter, reply, backoff, now);
    page := NormalizePage(outcome);
  }
}
