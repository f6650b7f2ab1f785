/**
 * The crawl: for each search query in turn, pages are fetched in rounds from
 * a queue of continuation cursors, their nodes are appended to a buffer until
 * the repository limit is reached, and the buffer is flushed to the store in
 * fixed-size batches, with a final flush of what remains.
 *
 * The search API is an oracle `server(u, f)(i)`: what attempt `i` of the `f`-th
 * page fetch of the crawl receives when it requests unit `u`, a query and a
 * cursor. `dayOf` maps the clock to the calendar day
 * the store records samples under; `fault(b)` is the statement at which the
 * `b`-th flush raises, if any.
 */
module Crawler {
  import opened Common
  import opened RateLimit
  import opened Api
  import opened Client
  import opened Store

  /** Upper bound on the fetches dispatched in one round. */
  const MaxConcurrentRequests := 20
  /** The buffer is flushed in batches of this many nodes. */
  const DbBatchSize := 5000

  /** A queued unit of work: a search query and the cursor to continue after. */
  datatype Unit = Unit(query: string, cursor: Option<string>)

  /** The search API, by requested unit and fetch number; the reply to each attempt. */
  type Server = (Unit, nat) -> nat -> Reply

  /** The search queries that units of `q` belong to. */
  function QueriesOf(q: seq<Unit>): set<string>
  {
    set u | u in q :: u.query
  }

  lemma QueriesOfConcat(a: seq<Unit>, b: seq<Unit>)
    ensures QueriesOf(a + b) == QueriesOf(a) + QueriesOf(b)
  {
    assert forall u :: u in a + b <==> u in a || u in b;
  }

  /** Putting continuations of the first `n` units back behind the rest of the queue brings in no new query. */
  lemma RequeueQueries(queue: seq<Unit>, n: nat, next: seq<Unit>)
    requires n <= |queue| && QueriesOf(next) <= QueriesOf(queue[..n])
    ensures QueriesOf(queue[n..] + next) <= QueriesOf(queue)
  {
    assert queue == queue[..n] + queue[n..];
    QueriesOfConcat(queue[..n], queue[n..]);
    QueriesOfConcat(queue[n..], next);
  }

  /** How the crawl ends: normally, or with the exception that aborts it. */
  datatype Outcome = Completed | PageInfoMissing | FlushFailed

  /** Number of units one round takes from the queue. */
  function RoundSize(limit: int, total: int, queued: nat): (n: int)
    ensures n <= MaxConcurrentRequests && n <= limit - total && n <= queued
    ensures n == MaxConcurrentRequests || n == limit - total || n == queued
  {
    var m := if limit - total < MaxConcurrentRequests then limit - total else MaxConcurrentRequests;
    if queued < m then queued else m
  }

  /** What processing one fetched page contributes. */
  datatype PageStep =
    | Accepted(added: seq<RepoNode>, next: Option<Unit>)
    | PageInfoNull(added: seq<RepoNode>)   // `.get` on a null `pageInfo` raises after the nodes were buffered

  function NodesOf(page: Page): seq<RepoNode>
  {
    if page.nodes.Some? then page.nodes.value else []
  }

  /**
   * One page's results, with `total` nodes already buffered: its nodes up to
   * the limit, and the continuation unit when the page announces a next page
   * and the limit is not reached. A page without nodes contributes nothing.
   */
  function AcceptPage(limit: int, total: int, u: Unit, page: Page): (a: PageStep)
    ensures a.added <= NodesOf(page)
    ensures total <= limit ==> |a.added| == if |NodesOf(page)| < limit - total then |NodesOf(page)| else limit - total
    ensures a.PageInfoNull? <==> NodesOf(page) != [] && page.pageInfo.None?
    ensures a.Accepted? && a.next.Some? <==>
              && NodesOf(page) != [] && page.pageInfo.Some? && page.pageInfo.value.hasNextPage
              && total + |a.added| < limit
    ensures a.Accepted? && a.next.Some? ==> a.next.value == Unit(u.query, page.pageInfo.value.endCursor)
  {
    var nodes := NodesOf(page);
    if nodes == [] then Accepted([], None)
    else
      var added := PyPrefix(nodes, limit - total);
      match page.pageInfo
      case None => PageInfoNull(added)
      case Some(info) =>
        if info.hasNextPage && total + |added| < limit then Accepted(added, Some(Unit(u.query, info.endCursor)))
        else Accepted(added, None)
  }

  /** A flush that was committed: the batch and the clock it ran at. */
  datatype FlushRecord = FlushRecord(batch: seq<RepoNode>, clock: int)

  function Batches(log: seq<FlushRecord>): (b: seq<seq<RepoNode>>)
    ensures |b| == |log| && forall i :: 0 <= i < |log| ==> b[i] == log[i].batch
  {
    if log == [] then [] else Batches(log[..|log| - 1]) + [log[|log| - 1].batch]
  }

  /** The store after the flushes of `log`, flush number `i` failing at statement `fault(i)`. */
  function Committed(t: Tables, log: seq<FlushRecord>, dayOf: int -> int, fault: nat -> Option<nat>): Option<Tables>
  {
    if log == [] then Some(t)
    else
      var r := log[|log| - 1];
      match Committed(t, log[..|log| - 1], dayOf, fault)
      case None => None
      case Some(t') => Write(t', r.batch, dayOf(r.clock), r.clock, fault(|log| - 1))
  }

  lemma CommittedSnoc(t: Tables, log: seq<FlushRecord>, r: FlushRecord, dayOf: int -> int, fault: nat -> Option<nat>)
    requires Committed(t, log, dayOf, fault).Some?
    ensures Committed(t, log + [r], dayOf, fault)
         == Write(Committed(t, log, dayOf, fault).value, r.batch, dayOf(r.clock), r.clock, fault(|log|))
  {
    assert (log + [r])[..|log|] == log;
  }

  /** Committed flushes keep the store's invariants. */
  lemma {:induction false} CommittedValid(t: Tables, log: seq<FlushRecord>, dayOf: int -> int, fault: nat -> Option<nat>)
    requires TablesValid(t)
    ensures Committed(t, log, dayOf, fault).Some? ==> TablesValid(Committed(t, log, dayOf, fault).value)
  {
    if log != [] {
      var prefix, r := log[..|log| - 1], log[|log| - 1];
      CommittedValid(t, prefix, dayOf, fault);
      if Committed(t, prefix, dayOf, fault).Some? {
        WritePreservesValid(Committed(t, prefix, dayOf, fault).value, r.batch, dayOf(r.clock), r.clock, fault(|log| - 1));
      }
    }
  }

  /**
   * Every node of a committed flush is stored under its id, and no stored
   * repository is ever removed.
   */
  lemma {:induction false} CommittedStoresNodes(t: Tables, log: seq<FlushRecord>, dayOf: int -> int, fault: nat -> Option<nat>)
    requires Committed(t, log, dayOf, fault).Some?
    ensures var c := Committed(t, log, dayOf, fault).value;
      && t.repos.Keys <= c.repos.Keys
      && forall n :: n in Flatten(Batches(log)) ==> n.id.Some? && n.id.value in c.repos
  {
    if log != [] {
      var prefix, r := log[..|log| - 1], log[|log| - 1];
      CommittedStoresNodes(t, prefix, dayOf, fault);
      var c' := Committed(t, prefix, dayOf, fault).value;
      var c := Committed(t, log, dayOf, fault).value;
      assert Batches(log) == Batches(prefix) + [r.batch];
      FlattenSnoc(Batches(prefix), r.batch);
      if r.batch != [] {
        WriteEffect(c', r.batch, dayOf(r.clock), r.clock, fault(|log| - 1));
        forall n | n in r.batch ensures n.id.Some? && n.id.value in c.repos {
          assert n.id.value in BatchIds(r.batch);
        }
      }
    }
  }

  /** Counters and buffer of the crawl. */
  datatype Progress = Progress(total: int, buffer: seq<RepoNode>, clock: int, fetches: nat, flushes: nat)

  /**
   * The bookkeeping the crawl keeps: `total` counts every node appended, which
   * never exceeds a positive limit; the flushed batches followed by the buffer
   * are exactly the appended nodes; every flush so far took a full batch.
   */
  ghost predicate Accounted(limit: int, p: Progress, appended: seq<RepoNode>, log: seq<FlushRecord>)
  {
    && p.total == |appended|
    && p.flushes == |log|
    && (p.total <= limit || p.total == 0)
    && Flatten(Batches(log)) + p.buffer == appended
    && forall i :: 0 <= i < |log| ==> |log[i].batch| == DbBatchSize
  }

  /** What the store holds is the start state with the logged flushes applied. */
  ghost predicate StoreMatches(db: Database, t0: Tables, log: seq<FlushRecord>, dayOf: int -> int, fault: nat -> Option<nat>)
    reads db
  {
    db.Valid() && Committed(t0, log, dayOf, fault) == Some(db.Snapshot())
  }

  lemma AccountedAdd(limit: int, p: Progress, appended: seq<RepoNode>, log: seq<FlushRecord>,
                     added: seq<RepoNode>, clock: int, fetches: nat)
    requires Accounted(limit, p, appended, log) && p.total + |added| <= limit
    ensures Accounted(limit, Progress(p.total + |added|, p.buffer + added, clock, fetches, p.flushes), appended + added, log)
  {
    assert Flatten(Batches(log)) + (p.buffer + added) == (Flatten(Batches(log)) + p.buffer) + added;
  }

  lemma AccountedFlush(limit: int, p: Progress, appended: seq<RepoNode>, log: seq<FlushRecord>)
    requires Accounted(limit, p, appended, log) && |p.buffer| >= DbBatchSize
    ensures var batch := p.buffer[..DbBatchSize];
      Accounted(limit, p.(buffer := p.buffer[DbBatchSize..], flushes := p.flushes + 1), appended,
                log + [FlushRecord(batch, p.clock)])
  {
    var batch := p.buffer[..DbBatchSize];
    var log' := log + [FlushRecord(batch, p.clock)];
    assert Batches(log') == Batches(log) + [batch] by {
      assert log'[..|log|] == log;
    }
    FlattenSnoc(Batches(log), batch);
    assert batch + p.buffer[DbBatchSize..] == p.buffer;
  }

  /**
   * One call of the bulk writer, as flush number `|log|` of the crawl: on
   * success the flush joins the log, on failure the store is as it was.
   */
  method FlushBatch(db: Database, batch: seq<RepoNode>, clock: int, flushes: nat, dayOf: int -> int, fault: nat -> Option<nat>,
                    ghost t0: Tables, ghost log: seq<FlushRecord>)
    returns (ok: bool)
    requires flushes == |log| && StoreMatches(db, t0, log, dayOf, fault)
    modifies db
    ensures ok ==> StoreMatches(db, t0, log + [FlushRecord(batch, clock)], dayOf, fault)
    ensures !ok ==> StoreMatches(db, t0, log, dayOf, fault) && Committed(t0, log + [FlushRecord(batch, clock)], dayOf, fault).None?
  {
    ok := db.BulkInsert(batch, dayOf(clock), clock, fault(flushes));
    CommittedSnoc(t0, log, FlushRecord(batch, clock), dayOf, fault);
  }

  /** What a round's pages contribute: the buffered nodes, the queued continuations, whether it raised. */
  datatype RoundResult = RoundResult(added: seq<RepoNode>, next: seq<Unit>, crashed: bool)

  /**
   * The pages of one round taken in dispatch order, with `total` nodes already
   * buffered before the first; the first page whose null `pageInfo` raises ends it.
   */
  function Process(limit: int, total: int, units: seq<Unit>, pages: seq<Page>): RoundResult
    requires |units| == |pages|
    decreases |units|
  {
    if units == [] then RoundResult([], [], false)
    else
      var n := |units| - 1;
      Extend(limit, total, Process(limit, total, units[..n], pages[..n]), units[n], pages[n])
  }

  /**
   * The round so far, `r`, followed by the page of unit `u`: nothing changes
   * once a page raised; otherwise the page's nodes are added, and its
   * continuation queued or its raise recorded.
   */
  function Extend(limit: int, total: int, r: RoundResult, u: Unit, page: Page): RoundResult
  {
    if r.crashed then r
    else
      var step := AcceptPage(limit, total + |r.added|, u, page);
      if step.PageInfoNull? then RoundResult(r.added + step.added, r.next, true)
      else RoundResult(r.added + step.added, r.next + (if step.next.Some? then [step.next.value] else []), false)
  }

  /**
   * The fetches of `units`, one after the other from limiter state `s` at
   * `clock`, the first of them being fetch number `fetches` of the crawl; each
   * requests its own unit. The pages, the limiter state and the clock afterwards.
   */
  function FetchRun(acquire: Acquirer, s: LimiterState, clock: int, fetches: nat,
                    server: Server, backoff: nat -> nat, units: seq<Unit>): (r: (seq<Page>, LimiterState, int))
    ensures |r.0| == |units|
    decreases |units|
  {
    if units == [] then ([], s, clock)
    else
      var q := RunQuerySpec(acquire, s, clock, server(units[0], fetches), backoff, 0);
      var rest := FetchRun(acquire, q.state, q.clock, fetches + 1, server, backoff, units[1..]);
      ([NormalizePage(q.outcome)] + rest.0, rest.1, rest.2)
  }

  /** The first fetch of a run: the page of its first unit, then the fetches of the others. */
  method FetchNext(limiter: RateLimiter, server: Server, backoff: nat -> nat, clock: int, fetches: nat, units: seq<Unit>)
    returns (page: Page, clock': int)
    requires units != []
    modifies limiter
    ensures var r := FetchRun(Gate(limiter.maxRequests), old(limiter.State()), clock, fetches, server, backoff, units);
      var rest := FetchRun(Gate(limiter.maxRequests), limiter.State(), clock', fetches + 1, server, backoff, units[1..]);
      r.0 == [page] + rest.0 && r.1 == rest.1 && r.2 == rest.2
  {
    var attempts;
    page, attempts, clock' := FetchPage(limiter, server(units[0], fetches), backoff, clock);
  }

  /**
   * The fetches a round gathers, performed one after the other in dispatch
   * order; the `f`-th fetch of the crawl requests its unit `u` from `server(u, f)`.
   */
  method FetchAll(units: seq<Unit>, clock: int, fetches: nat, limiter: RateLimiter,
                  server: Server, backoff: nat -> nat)
    returns (pages: seq<Page>, clock': int, fetches': nat)
    modifies limiter
    ensures |pages| == |units| && fetches' == fetches + |units|
    ensures var r := FetchRun(Gate(limiter.maxRequests), old(limiter.State()), clock, fetches, server, backoff, units);
      pages == r.0 && limiter.State() == r.1 && clock' == r.2
  {
    if units == [] {
      return [], clock, fetches;
    }
    var page, clock1 := FetchNext(limiter, server, backoff, clock, fetches, units);
    var rest;
    rest, clock', fetches' := FetchAll(units[1..], clock1, fetches + 1, limiter, server, backoff);
    pages := [page] + rest;
  }

  /** One step of `Process`: the round so far, then its last page. */
  lemma ProcessLast(limit: int, total: int, units: seq<Unit>, pages: seq<Page>)
    requires |units| == |pages| && units != []
    ensures Process(limit, total, units, pages)
         == Extend(limit, total, Process(limit, total, units[..|units| - 1], pages[..|units| - 1]), units[|units| - 1], pages[|units| - 1])
  {
  }

  /**
   * The nodes a round buffers stay within the limit, and each page queues at
   * most one continuation, only after buffering at least one node.
   */
  lemma {:induction false} ProcessBounds(limit: int, total: int, units: seq<Unit>, pages: seq<Page>)
    requires |units| == |pages| && total <= limit
    ensures var r := Process(limit, total, units, pages);
      total + |r.added| <= limit && |r.next| <= |units| && |r.added| >= |r.next|
    decreases |units|
  {
    if units != [] {
      var n := |units| - 1;
      ProcessLast(limit, total, units, pages);
      ProcessBounds(limit, total, units[..n], pages[..n]);
    }
  }

  /** Continuations are queued only for the queries of the round's units. */
  lemma {:induction false} ProcessQueries(limit: int, total: int, units: seq<Unit>, pages: seq<Page>)
    requires |units| == |pages|
    ensures QueriesOf(Process(limit, total, units, pages).next) <= QueriesOf(units)
    decreases |units|
  {
    if units != [] {
      var n := |units| - 1;
      ProcessLast(limit, total, units, pages);
      ProcessQueries(limit, total, units[..n], pages[..n]);
      var r := Process(limit, total, units[..n], pages[..n]);
      var step := AcceptPage(limit, total + |r.added|, units[n], pages[n]);
      assert units == units[..n] + [units[n]];
      QueriesOfConcat(units[..n], [units[n]]);
      if step.Accepted? {
        QueriesOfConcat(r.next, if step.next.Some? then [step.next.value] else []);
      }
    }
  }

  /** A page that raises: it has nodes and a null `pageInfo`. */
  predicate Raises(page: Page)
  {
    NodesOf(page) != [] && page.pageInfo.None?
  }

  /** A round raises only when one of its pages does. */
  lemma {:induction false} ProcessCrashedOnlyIf(limit: int, total: int, units: seq<Unit>, pages: seq<Page>)
    requires |units| == |pages| && Process(limit, total, units, pages).crashed
    ensures exists j :: 0 <= j < |pages| && Raises(pages[j])
    decreases |units|
  {
    var n := |units| - 1;
    ProcessLast(limit, total, units, pages);
    var r := Process(limit, total, units[..n], pages[..n]);
    if r.crashed {
      ProcessCrashedOnlyIf(limit, total, units[..n], pages[..n]);
      var j :| 0 <= j < |pages[..n]| && Raises(pages[..n][j]);
      assert pages[j] == pages[..n][j];
    } else {
      assert Raises(pages[n]);
    }
  }

  /** A round raises when one of its pages does. */
  lemma {:induction false} ProcessCrashedIf(limit: int, total: int, units: seq<Unit>, pages: seq<Page>, j: nat)
    requires |units| == |pages| && j < |pages| && Raises(pages[j])
    ensures Process(limit, total, units, pages).crashed
    decreases |units|
  {
    var n := |units| - 1;
    ProcessLast(limit, total, units, pages);
    if j < n {
      assert pages[..n][j] == pages[j];
      ProcessCrashedIf(limit, total, units[..n], pages[..n], j);
    } else {
      var r := Process(limit, total, units[..n], pages[..n]);
      assert AcceptPage(limit, total + |r.added|, units[n], pages[n]).PageInfoNull?;
    }
  }

  /** Once a page raised, the later pages of the round are not looked at. */
  lemma {:induction false} ProcessAfterCrash(limit: int, total: int, units: seq<Unit>, pages: seq<Page>, k: nat)
    requires |units| == |pages| && k <= |units| && Process(limit, total, units[..k], pages[..k]).crashed
    ensures Process(limit, total, units, pages) == Process(limit, total, units[..k], pages[..k])
    decreases |units|
  {
    if k < |units| {
      var n := |units| - 1;
      ProcessLast(limit, total, units, pages);
      assert units[..n][..k] == units[..k] && pages[..n][..k] == pages[..k];
      ProcessAfterCrash(limit, total, units[..n], pages[..n], k);
      assert Process(limit, total, units[..n], pages[..n]).crashed;
    } else {
      assert units[..k] == units && pages[..k] == pages;
    }
  }

  /** Pages without nodes contribute nothing. */
  lemma {:induction false} ProcessNoNodes(limit: int, total: int, units: seq<Unit>, pages: seq<Page>)
    requires |units| == |pages|
    requires forall j :: 0 <= j < |pages| ==> NodesOf(pages[j]) == []
    ensures Process(limit, total, units, pages) == RoundResult([], [], false)
    decreases |units|
  {
    if units != [] {
      var n := |units| - 1;
      ProcessLast(limit, total, units, pages);
      assert forall j :: 0 <= j < |pages[..n]| ==> pages[..n][j] == pages[j];
      ProcessNoNodes(limit, total, units[..n], pages[..n]);
      assert NodesOf(pages[n]) == [];
    }
  }

  /** The loop step of `ProcessResults`: one more page of the round. */
  lemma ProcessStep(limit: int, total: int, units: seq<Unit>, pages: seq<Page>, j: nat,
                    added: seq<RepoNode>, next: seq<Unit>)
    requires |units| == |pages| && j < |units| && total <= limit
    requires Process(limit, total, units[..j], pages[..j]) == RoundResult(added, next, false)
    ensures var step := AcceptPage(limit, total + |added|, units[j], pages[j]);
      && total + |added| + |step.added| <= limit
      && Process(limit, total, units[..j + 1], pages[..j + 1])
           == if step.PageInfoNull? then RoundResult(added + step.added, next, true)
              else RoundResult(added + step.added, next + (if step.next.Some? then [step.next.value] else []), false)
  {
    assert units[..j + 1][..j] == units[..j] && pages[..j + 1][..j] == pages[..j];
    ProcessLast(limit, total, units[..j + 1], pages[..j + 1]);
    ProcessBounds(limit, total, units[..j], pages[..j]);
  }

  /**
   * The results of one round, in dispatch order: the nodes each page adds to
   * the buffer and the continuation units it queues. `crashed` is set by the
   * first page whose null `pageInfo` raises; the nodes it added are kept.
   */
  method ProcessResults(limit: int, total: int, units: seq<Unit>, pages: seq<Page>)
    returns (added: seq<RepoNode>, next: seq<Unit>, crashed: bool)
    requires |units| == |pages| && total <= limit
    ensures Process(limit, total, units, pages) == RoundResult(added, next, crashed)
    ensures total + |added| <= limit
  {
    added, next, crashed := [], [], false;
    for j := 0 to |units|
      invariant Process(limit, total, units[..j], pages[..j]) == RoundResult(added, next, false)
      invariant total + |added| <= limit
    {
      var step := AcceptPage(limit, total + |added|, units[j], pages[j]);
      ProcessStep(limit, total, units, pages, j, added, next);
      added := added + step.added;
      if step.PageInfoNull? {
        crashed := true;
        ProcessAfterCrash(limit, total, units, pages, j + 1);
        return;
      }
      if step.next.Some? {
        next := next + [step.next.value];
      }
    }
    assert units[..|units|] == units && pages[..|pages|] == pages;
  }

  /**
   * One round: take `RoundSize` units off the queue, fetch their pages, buffer
   * what each page contributes and queue its continuation, then flush one batch
   * if the buffer holds a full one.
   */
  method RunRound(limit: int, queue: seq<Unit>, p: Progress, limiter: RateLimiter, db: Database,
                  server: Server, backoff: nat -> nat, dayOf: int -> int, fault: nat -> Option<nat>,
                  ghost t0: Tables, ghost appended: seq<RepoNode>, ghost log: seq<FlushRecord>)
    returns (rest: seq<Unit>, p': Progress, outcome: Outcome, ghost appended': seq<RepoNode>, ghost log': seq<FlushRecord>)
    requires queue != [] && p.total < limit
    requires Accounted(limit, p, appended, log) && StoreMatches(db, t0, log, dayOf, fault)
    modifies limiter, db
    ensures Accounted(limit, p', appended', log') && StoreMatches(db, t0, log', dayOf, fault)
    ensures appended <= appended' && log <= log'
    ensures p'.fetches == p.fetches + RoundSize(limit, p.total, |queue|)
    ensures |rest| <= |queue|
    ensures QueriesOf(rest) <= QueriesOf(queue)
    ensures p'.total - p.total >= |rest| - (|queue| - RoundSize(limit, p.total, |queue|))
    ensures var st := Round(limit, Gate(limiter.maxRequests), server, backoff, Walk(queue, p.total, old(limiter.State()), p.clock, p.fetches));
      && appended' == appended + st.result.added && (outcome == PageInfoMissing <==> st.result.crashed)
      && Walk(rest, p'.total, limiter.State(), p'.clock, p'.fetches) == st.walk
  {
    var n := RoundSize(limit, p.total, |queue|);
    var added, next, crashed, clock, fetches := FetchRound(limit, queue, p.total, p.clock, p.fetches, limiter, server, backoff);
    rest := queue[n..] + next;
    AccountedAdd(limit, p, appended, log, added, clock, fetches);
    p' := Progress(p.total + |added|, p.buffer + added, clock, fetches, p.flushes);
    appended', log' := appended + added, log;
    if crashed {
      outcome := PageInfoMissing;
      return;
    }
    p', outcome, log' := FlushIfFull(limit, p', db, dayOf, fault, t0, appended', log');
  }

  /** Fetching and processing the first `RoundSize` units of the queue. */
  method FetchRound(limit: int, queue: seq<Unit>, total: int, clock: int, fetches: nat, limiter: RateLimiter,
                    server: Server, backoff: nat -> nat)
    returns (added: seq<RepoNode>, next: seq<Unit>, crashed: bool, clock': int, fetches': nat)
    requires queue != [] && total < limit
    modifies limiter
    ensures var n := RoundSize(limit, total, |queue|);
      var run := FetchRun(Gate(limiter.maxRequests), old(limiter.State()), clock, fetches, server, backoff, queue[..n]);
      && Process(limit, total, queue[..n], run.0) == RoundResult(added, next, crashed)
      && limiter.State() == run.1 && clock' == run.2
      && fetches' == fetches + n
      && total + |added| <= limit && |next| <= n && |added| >= |next|
      && QueriesOf(queue[n..] + next) <= QueriesOf(queue)
    ensures var st := Round(limit, Gate(limiter.maxRequests), server, backoff, Walk(queue, total, old(limiter.State()), clock, fetches));
      && st.result == RoundResult(added, next, crashed)
      && st.walk == Walk(queue[RoundSize(limit, total, |queue|)..] + next, total + |added|, limiter.State(), clock', fetches')
  {
    var n := RoundSize(limit, total, |queue|);
    var units := queue[..n];
    var pages;
    pages, clock', fetches' := FetchAll(units, clock, fetches, limiter, server, backoff);
    added, next, crashed := ProcessResults(limit, total, units, pages);
    ProcessBounds(limit, total, units, pages);
    ProcessQueries(limit, total, units, pages);
    RequeueQueries(queue, n, next);
  }

  /** The flush at the end of a round: the first full batch, when the buffer holds one. */
  method FlushIfFull(limit: int, p: Progress, db: Database, dayOf: int -> int, fault: nat -> Option<nat>,
                     ghost t0: Tables, ghost appended: seq<RepoNode>, ghost log: seq<FlushRecord>)
    returns (p': Progress, outcome: Outcome, ghost log': seq<FlushRecord>)
    requires Accounted(limit, p, appended, log) && StoreMatches(db, t0, log, dayOf, fault)
    modifies db
    ensures Accounted(limit, p', appended, log') && StoreMatches(db, t0, log', dayOf, fault)
    ensures log <= log' && outcome != PageInfoMissing
    ensures p'.total == p.total && p'.clock == p.clock && p'.fetches == p.fetches
    ensures |p.buffer| < DbBatchSize ==> outcome == Completed && p' == p && log' == log
    ensures |p.buffer| >= DbBatchSize && outcome == Completed ==>
              log' == log + [FlushRecord(p.buffer[..DbBatchSize], p.clock)] && p'.buffer == p.buffer[DbBatchSize..]
  {
    p', outcome, log' := p, Completed, log;
    if |p.buffer| >= DbBatchSize {
      var batch := p.buffer[..DbBatchSize];
      var ok := FlushBatch(db, batch, p.clock, p.flushes, dayOf, fault, t0, log);
      if !ok {
        outcome := FlushFailed;
        return;
      }
      AccountedFlush(limit, p, appended, log);
      log' := log + [FlushRecord(batch, p.clock)];
      p' := p.(buffer := p.buffer[DbBatchSize..], flushes := p.flushes + 1);
    }
  }

  /** Where pagination stands: the queue, the nodes buffered, the limiter, the clock and the fetches made. */
  datatype Walk = Walk(queue: seq<Unit>, total: int, state: LimiterState, clock: int, fetches: nat)

  /**
   * What pagination did: the units fetched and their pages, in order, the
   * nodes taken from them, whether a page raised, the rounds run and where it
   * stopped.
   */
  datatype Trace = Trace(units: seq<Unit>, pages: seq<Page>, added: seq<RepoNode>, crashed: bool, rounds: nat, end: Walk)

  /** One round from `w`: the units it takes, their pages, what processing them gives, and the walk after it. */
  datatype RoundStep = RoundStep(units: seq<Unit>, pages: seq<Page>, result: RoundResult, walk: Walk)

  /**
   * The round `RunRound` performs from `w`: the first `RoundSize` queued units
   * are fetched and processed, and the continuations go behind the rest of the
   * queue.
   */
  function Round(limit: int, acquire: Acquirer, server: Server, backoff: nat -> nat, w: Walk): (s: RoundStep)
    requires w.total < limit && w.queue != []
    ensures 1 <= |s.units| == |s.pages| <= |w.queue| && s.units == w.queue[..|s.units|]
    ensures s.walk.total == w.total + |s.result.added| <= limit && s.walk.fetches == w.fetches + |s.units|
    ensures |s.walk.queue| - s.walk.total < |w.queue| - w.total
  {
    var n := RoundSize(limit, w.total, |w.queue|);
    var units := w.queue[..n];
    var run := FetchRun(acquire, w.state, w.clock, w.fetches, server, backoff, units);
    var r := Process(limit, w.total, units, run.0);
    ProcessBounds(limit, w.total, units, run.0);
    RoundStep(units, run.0, r, Walk(w.queue[n..] + r.next, w.total + |r.added|, run.1, run.2, w.fetches + n))
  }

  /**
   * Rounds from `w` while the limit is not reached and units are queued; a
   * round in which a page raises is the last.
   */
  function Paginate(limit: int, acquire: Acquirer, server: Server, backoff: nat -> nat, w: Walk): (t: Trace)
    ensures |t.units| == |t.pages| && t.end.fetches == w.fetches + |t.units|
    ensures t.end.total == w.total + |t.added| && (w.total <= limit ==> t.end.total <= limit)
    ensures !t.crashed ==> t.end.queue == [] || t.end.total >= limit
    ensures t.units == [] <==> w.total >= limit || w.queue == []
    ensures t.units == [] ==> t == Trace([], [], [], false, 0, w)
    decreases limit - w.total + |w.queue|
  {
    if w.total >= limit || w.queue == [] then Trace([], [], [], false, 0, w)
    else
      var s := Round(limit, acquire, server, backoff, w);
      if s.result.crashed then Trace(s.units, s.pages, s.result.added, true, 1, s.walk)
      else
        var t := Paginate(limit, acquire, server, backoff, s.walk);
        Trace(s.units + t.units, s.pages + t.pages, s.result.added + t.added, t.crashed, t.rounds + 1, t.end)
  }

  /**
   * The search queries in turn, each paginated from a single unit without a
   * cursor, until they run out, the limit is reached or a page raises.
   */
  function CrawlTrace(limit: int, acquire: Acquirer, server: Server, backoff: nat -> nat,
                      queries: seq<string>, w: Walk): (t: Trace)
    ensures |t.units| == |t.pages| && t.end.fetches == w.fetches + |t.units|
    ensures t.end.total == w.total + |t.added| && (w.total <= limit ==> t.end.total <= limit)
    decreases |queries|
  {
    if queries == [] || w.total >= limit then Trace([], [], [], false, 0, w.(queue := []))
    else
      var q := Paginate(limit, acquire, server, backoff, w.(queue := [Unit(queries[0], None)]));
      if q.crashed then q
      else
        var t := CrawlTrace(limit, acquire, server, backoff, queries[1..], q.end.(queue := []));
        Trace(q.units + t.units, q.pages + t.pages, q.added + t.added, t.crashed, q.rounds + t.rounds, t.end)
  }

  /** A round of a single unit is that unit's page. */
  lemma ProcessSingle(limit: int, total: int, u: Unit, page: Page)
    ensures var a := AcceptPage(limit, total, u, page);
      Process(limit, total, [u], [page])
        == if a.PageInfoNull? then RoundResult(a.added, [], true)
           else RoundResult(a.added, if a.next.Some? then [a.next.value] else [], false)
  {
    ProcessLast(limit, total, [u], [page]);
  }

  /** One of `pages` raises. */
  predicate SomeRaises(pages: seq<Page>)
  {
    exists j :: 0 <= j < |pages| && Raises(pages[j])
  }

  lemma SomeRaisesConcat(a: seq<Page>, b: seq<Page>)
    ensures SomeRaises(a + b) <==> SomeRaises(a) || SomeRaises(b)
  {
    if SomeRaises(a + b) {
      var j :| 0 <= j < |a + b| && Raises((a + b)[j]);
      if j >= |a| {
        assert b[j - |a|] == (a + b)[j];
      }
    }
    if SomeRaises(a) {
      var j :| 0 <= j < |a| && Raises(a[j]);
      assert (a + b)[j] == a[j];
    }
    if SomeRaises(b) {
      var j :| 0 <= j < |b| && Raises(b[j]);
      assert (a + b)[|a| + j] == b[j];
    }
  }

  /** A round raises exactly when one of its pages does. */
  lemma ProcessCrashed(limit: int, total: int, units: seq<Unit>, pages: seq<Page>)
    requires |units| == |pages|
    ensures Process(limit, total, units, pages).crashed <==> SomeRaises(pages)
  {
    if Process(limit, total, units, pages).crashed {
      ProcessCrashedOnlyIf(limit, total, units, pages);
    }
    if SomeRaises(pages) {
      var j :| 0 <= j < |pages| && Raises(pages[j]);
      ProcessCrashedIf(limit, total, units, pages, j);
    }
  }

  /** Pagination raises exactly when one of the pages it fetched raises. */
  lemma {:induction false} PaginateCrash(limit: int, acquire: Acquirer, server: Server, backoff: nat -> nat, w: Walk)
    ensures var t := Paginate(limit, acquire, server, backoff, w);
      t.crashed <==> SomeRaises(t.pages)
    decreases limit - w.total + |w.queue|
  {
    if !(w.total >= limit || w.queue == []) {
      var st := Round(limit, acquire, server, backoff, w);
      ProcessCrashed(limit, w.total, st.units, st.pages);
      if !st.result.crashed {
        var t' := Paginate(limit, acquire, server, backoff, st.walk);
        PaginateCrash(limit, acquire, server, backoff, st.walk);
        SomeRaisesConcat(st.pages, t'.pages);
      }
    } else {
      assert Paginate(limit, acquire, server, backoff, w).pages == [];
    }
  }

  /** The crawl raises exactly when one of the pages it fetched raises. */
  lemma {:induction false} CrawlTraceCrash(limit: int, acquire: Acquirer, server: Server, backoff: nat -> nat,
                                           queries: seq<string>, w: Walk)
    ensures var t := CrawlTrace(limit, acquire, server, backoff, queries, w);
      t.crashed <==> SomeRaises(t.pages)
    decreases |queries|
  {
    if !(queries == [] || w.total >= limit) {
      var q := Paginate(limit, acquire, server, backoff, w.(queue := [Unit(queries[0], None)]));
      PaginateCrash(limit, acquire, server, backoff, w.(queue := [Unit(queries[0], None)]));
      if !q.crashed {
        var t' := CrawlTrace(limit, acquire, server, backoff, queries[1..], q.end.(queue := []));
        CrawlTraceCrash(limit, acquire, server, backoff, queries[1..], q.end.(queue := []));
        SomeRaisesConcat(q.pages, t'.pages);
      }
    } else {
      assert CrawlTrace(limit, acquire, server, backoff, queries, w).pages == [];
    }
  }

  /** Page `j` announces a next page, after which unit `j + 1` continues `query` at its end cursor. */
  predicate Continues(query: string, units: seq<Unit>, pages: seq<Page>, j: int)
    requires 0 <= j && j + 1 < |units| && j < |pages|
  {
    && NodesOf(pages[j]) != [] && pages[j].pageInfo.Some? && pages[j].pageInfo.value.hasNextPage
    && units[j + 1] == Unit(query, pages[j].pageInfo.value.endCursor)
  }

  /** Every unit after the first continues after the page before it. */
  predicate Chained(query: string, units: seq<Unit>, pages: seq<Page>)
    requires |units| == |pages|
  {
    forall j :: 0 <= j < |units| - 1 ==> Continues(query, units, pages, j)
  }

  lemma ChainedCons(query: string, u: Unit, page: Page, units: seq<Unit>, pages: seq<Page>)
    requires |units| == |pages| && Chained(query, units, pages)
    requires units != [] ==> Continues(query, [u] + units, [page] + pages, 0)
    ensures Chained(query, [u] + units, [page] + pages)
  {
    forall j | 1 <= j < |units|
      ensures Continues(query, [u] + units, [page] + pages, j)
    {
      assert Continues(query, units, pages, j - 1);
    }
  }

  /** The step of `PaginateChain`: a first page `page` of unit `u`, followed by the pagination `t'` of its continuations `next`. */
  lemma ChainStep(u: Unit, page: Page, next: seq<Unit>, t': Trace, t: Trace)
    requires |t'.units| == |t'.pages| == t'.rounds
    requires t'.units != [] ==> next != [] && t'.units[0] == next[0] && Chained(next[0].query, t'.units, t'.pages)
    requires next != [] ==>
               && next[0].query == u.query && NodesOf(page) != [] && page.pageInfo.Some? && page.pageInfo.value.hasNextPage
               && next[0] == Unit(u.query, page.pageInfo.value.endCursor)
    requires t.units == [u] + t'.units && t.pages == [page] + t'.pages && t.rounds == t'.rounds + 1
    ensures |t.units| == t.rounds && t.units[0] == u && Chained(u.query, t.units, t.pages)
  {
    if t'.units != [] {
      assert t.units[1] == t'.units[0] && t.pages[0] == page;
      assert Continues(u.query, t.units, t.pages, 0);
    }
    ChainedCons(u.query, u, page, t'.units, t'.pages);
  }

  /**
   * `Paginate` from a single queued unit: the unit's page, processed by
   * `AcceptPage`, then, unless it raised, pagination from its continuation.
   */
  lemma PaginateSingle(limit: int, acquire: Acquirer, server: Server, backoff: nat -> nat, w: Walk)
    returns (page: Page, w': Walk)
    requires w.total < limit && |w.queue| == 1
    ensures var a := AcceptPage(limit, w.total, w.queue[0], page);
      && w'.total == w.total + |a.added|
      && (a.Accepted? ==> w'.queue == if a.next.Some? then [a.next.value] else [])
      && limit - w'.total + |w'.queue| < limit - w.total + |w.queue|
      && var t' := Paginate(limit, acquire, server, backoff, w');
         Paginate(limit, acquire, server, backoff, w)
           == if a.PageInfoNull? then Trace([w.queue[0]], [page], a.added, true, 1, w')
              else Trace([w.queue[0]] + t'.units, [page] + t'.pages, a.added + t'.added, t'.crashed, t'.rounds + 1, t'.end)
  {
    var st := Round(limit, acquire, server, backoff, w);
    RoundSingle(limit, acquire, server, backoff, w);
    PaginateRound(limit, acquire, server, backoff, w);
    page, w' := st.pages[0], st.walk;
    assert st.units == [w.queue[0]] && st.pages == [page];
  }

  /**
   * Pagination of one query from a queue of at most one unit: every round
   * fetches one page, the first unit is the queued one, and each later unit
   * continues the same query after the cursor the page before it announced.
   */
  lemma {:induction false} PaginateChain(limit: int, acquire: Acquirer, server: Server, backoff: nat -> nat, w: Walk)
    requires |w.queue| <= 1
    ensures var t := Paginate(limit, acquire, server, backoff, w);
      && |t.units| == t.rounds
      && (t.units != [] ==> t.units[0] == w.queue[0] && Chained(w.queue[0].query, t.units, t.pages))
    decreases limit - w.total + |w.queue|
  {
    if !(w.total >= limit || w.queue == []) {
      var page, w' := PaginateSingle(limit, acquire, server, backoff, w);
      var a := AcceptPage(limit, w.total, w.queue[0], page);
      if a.Accepted? {
        var t' := Paginate(limit, acquire, server, backoff, w');
        PaginateChain(limit, acquire, server, backoff, w');
        ChainStep(w.queue[0], page, w'.queue, t', Paginate(limit, acquire, server, backoff, w));
      }
    }
  }

  /** A page that ends its query's pagination: it has no nodes or announces no next page. */
  predicate LastOfQuery(page: Page)
  {
    NodesOf(page) == [] || (page.pageInfo.Some? && !page.pageInfo.value.hasNextPage)
  }

  /** When `t` stops below the limit without raising, its last page ends the query's pagination. */
  predicate EndsOnLastPage(limit: int, t: Trace)
  {
    !t.crashed && t.end.total < limit && t.pages != [] ==> LastOfQuery(t.pages[|t.pages| - 1])
  }

  /** A page accepted without a continuation while the limit is not reached has no nodes or announces no next page. */
  lemma AcceptPageStops(limit: int, total: int, u: Unit, page: Page)
    ensures var a := AcceptPage(limit, total, u, page);
      a.Accepted? && a.next.None? && total + |a.added| < limit ==> LastOfQuery(page)
  {
  }

  /** The step of `PaginateLastPage`: the page `page` followed by the pagination `t'` from `w'`. */
  lemma LastPageStep(limit: int, page: Page, w': Walk, t': Trace, t: Trace)
    requires w'.total < limit && w'.queue == [] ==> LastOfQuery(page)
    requires |t'.units| == |t'.pages| && (t'.units == [] ==> t' == Trace([], [], [], false, 0, w'))
    requires !t'.crashed ==> t'.end.queue == [] || t'.end.total >= limit
    requires EndsOnLastPage(limit, t')
    requires t.pages == [page] + t'.pages && t.crashed == t'.crashed && t.end == t'.end
    ensures EndsOnLastPage(limit, t)
  {
    if t'.pages != [] {
      assert t.pages[|t.pages| - 1] == t'.pages[|t'.pages| - 1];
    }
  }

  /**
   * When pagination of one query stops below the limit without raising, the
   * last page it fetched had no nodes or announced no next page.
   */
  lemma {:induction false} PaginateLastPage(limit: int, acquire: Acquirer, server: Server, backoff: nat -> nat, w: Walk)
    requires |w.queue| <= 1
    ensures EndsOnLastPage(limit, Paginate(limit, acquire, server, backoff, w))
    decreases limit - w.total + |w.queue|
  {
    if !(w.total >= limit || w.queue == []) {
      var page, w' := PaginateSingle(limit, acquire, server, backoff, w);
      if AcceptPage(limit, w.total, w.queue[0], page).Accepted? {
        AcceptPageStops(limit, w.total, w.queue[0], page);
        PaginateLastPage(limit, acquire, server, backoff, w');
        LastPageStep(limit, page, w', Paginate(limit, acquire, server, backoff, w'), Paginate(limit, acquire, server, backoff, w));
      }
    }
  }

  /** `Paginate` when a round runs: that round, then, unless it raised, pagination from where it left off. */
  lemma PaginateRound(limit: int, acquire: Acquirer, server: Server, backoff: nat -> nat, w: Walk)
    requires w.total < limit && w.queue != []
    ensures var st := Round(limit, acquire, server, backoff, w);
      var t' := Paginate(limit, acquire, server, backoff, st.walk);
      Paginate(limit, acquire, server, backoff, w)
        == if st.result.crashed then Trace(st.units, st.pages, st.result.added, true, 1, st.walk)
           else Trace(st.units + t'.units, st.pages + t'.pages, st.result.added + t'.added, t'.crashed, t'.rounds + 1, t'.end)
  {
  }

  /** The nodes appended after a round, against those of the whole pagination. */
  lemma AppendTaken(appended: seq<RepoNode>, taken: seq<RepoNode>, added: seq<RepoNode>, whole: seq<RepoNode>)
    requires taken + added <= whole
    ensures (appended + taken) + added == appended + (taken + added)
    ensures (appended + taken) + added <= appended + whole
  {
  }

  /**
   * How a pagination or crawl that ended with `outcome` at `w` (the queue
   * aside) relates to its trace `t`: unless a flush failed, the nodes appended
   * are those of the trace, it raised exactly when the trace did, it ran the
   * trace's rounds and left the limiter, the clock, the total and the fetch
   * count where the trace ends; after a failed flush, the nodes appended are a
   * prefix of the trace's.
   */
  ghost predicate Reached(t: Trace, outcome: Outcome, appended: seq<RepoNode>, appended': seq<RepoNode>, rounds: nat, w: Walk)
  {
    && (outcome != FlushFailed ==>
          && appended' == appended + t.added && (outcome == PageInfoMissing <==> t.crashed) && rounds == t.rounds
          && w.state == t.end.state && w.clock == t.end.clock && w.total == t.end.total && w.fetches == t.end.fetches)
    && (outcome == FlushFailed ==> appended' <= appended + t.added)
  }

  lemma ReachedByRound(whole: Trace, taken: seq<RepoNode>, st: RoundStep, outcome: Outcome,
                       appended: seq<RepoNode>, appended': seq<RepoNode>, rounds: nat, w: Walk)
    requires outcome != Completed && (outcome == PageInfoMissing <==> st.result.crashed)
    requires appended' == appended + taken && taken <= whole.added
    requires st.result.crashed ==>
               whole.added == taken && whole.crashed && whole.end == st.walk && whole.rounds == rounds
    requires st.walk.state == w.state && st.walk.clock == w.clock && st.walk.total == w.total && st.walk.fetches == w.fetches
    ensures Reached(whole, outcome, appended, appended', rounds, w)
  {
  }

  lemma ReachedByEnd(whole: Trace, taken: seq<RepoNode>, rest: Trace, appended: seq<RepoNode>, appended': seq<RepoNode>,
                     rounds: nat, w: Walk)
    requires appended' == appended + taken && Resumes(whole, taken, rounds, rest)
    requires rest == Trace([], [], [], false, 0, rest.end)
    requires rest.end.state == w.state && rest.end.clock == w.clock && rest.end.total == w.total && rest.end.fetches == w.fetches
    ensures Reached(whole, Completed, appended, appended', rounds, w)
  {
    assert taken + [] == taken;
  }

  /** A query that ended the crawl, after the nodes `taken` and the `rounds` of the queries before it. */
  lemma ReachedByQuery(whole: Trace, taken: seq<RepoNode>, q: Trace, outcome: Outcome,
                       appended': seq<RepoNode>, rounds: nat, r: nat, w: Walk)
    requires outcome != Completed && Reached(q, outcome, taken, appended', r, w)
    requires taken + q.added <= whole.added
    requires q.crashed ==>
               whole.added == taken + q.added && whole.crashed && whole.end == q.end && whole.rounds == rounds + q.rounds
    ensures Reached(whole, outcome, [], appended', rounds + r, w)
  {
    assert [] + whole.added == whole.added;
  }

  /** `CrawlTrace` when no query is left or the limit is reached. */
  lemma CrawlTraceDone(limit: int, acquire: Acquirer, server: Server, backoff: nat -> nat, queries: seq<string>, w: Walk)
    requires (queries == [] || w.total >= limit) && w.queue == []
    ensures CrawlTrace(limit, acquire, server, backoff, queries, w) == Trace([], [], [], false, 0, w)
  {
  }

  /** `CrawlTrace` when a query is paginated: that query, then, unless it raised, the crawl of the rest. */
  lemma CrawlTraceStep(limit: int, acquire: Acquirer, server: Server, backoff: nat -> nat, queries: seq<string>, w: Walk)
    requires queries != [] && w.total < limit
    ensures var q := Paginate(limit, acquire, server, backoff, w.(queue := [Unit(queries[0], None)]));
      var t' := CrawlTrace(limit, acquire, server, backoff, queries[1..], q.end.(queue := []));
      CrawlTrace(limit, acquire, server, backoff, queries, w)
        == if q.crashed then q
           else Trace(q.units + t'.units, q.pages + t'.pages, q.added + t'.added, t'.crashed, q.rounds + t'.rounds, t'.end)
  {
  }

  /** A chain of pages started by a unit of `query` fetches only units of `query`. */
  lemma {:induction false} ChainedQuery(query: string, units: seq<Unit>, pages: seq<Page>)
    requires |units| == |pages| && Chained(query, units, pages) && units != [] && units[0].query == query
    ensures forall u :: u in units ==> u.query == query
  {
    forall j | 0 <= j < |units|
      ensures units[j].query == query
    {
      if j > 0 {
        assert Continues(query, units, pages, j - 1);
      }
    }
  }

  /**
   * Every query of a crawl that stops below the limit without raising was
   * dispatched, without a cursor.
   */
  lemma {:induction false} CrawlTraceCovers(limit: int, acquire: Acquirer, server: Server, backoff: nat -> nat,
                                            queries: seq<string>, w: Walk)
    ensures var t := CrawlTrace(limit, acquire, server, backoff, queries, w);
      !t.crashed && t.end.total < limit ==> forall q :: q in queries ==> Unit(q, None) in t.units
    decreases |queries|
  {
    if queries != [] && w.total < limit {
      var w0 := w.(queue := [Unit(queries[0], None)]);
      var q := Paginate(limit, acquire, server, backoff, w0);
      PaginateChain(limit, acquire, server, backoff, w0);
      CrawlTraceStep(limit, acquire, server, backoff, queries, w);
      if !q.crashed {
        var t' := CrawlTrace(limit, acquire, server, backoff, queries[1..], q.end.(queue := []));
        CrawlTraceCovers(limit, acquire, server, backoff, queries[1..], q.end.(queue := []));
        assert q.units[0] in q.units;
        forall x | x in queries
          ensures !t'.crashed && t'.end.total < limit ==> Unit(x, None) in q.units + t'.units
        {
          if x != queries[0] {
            assert x in queries[1..];
          }
        }
      }
    }
  }

  /** A crawl fetches units of its own queries only. */
  lemma {:induction false} CrawlTraceOwnQueries(limit: int, acquire: Acquirer, server: Server, backoff: nat -> nat,
                                                queries: seq<string>, w: Walk)
    ensures forall u :: u in CrawlTrace(limit, acquire, server, backoff, queries, w).units ==> u.query in queries
    decreases |queries|
  {
    if queries != [] && w.total < limit {
      var w0 := w.(queue := [Unit(queries[0], None)]);
      var q := Paginate(limit, acquire, server, backoff, w0);
      PaginateChain(limit, acquire, server, backoff, w0);
      if q.units != [] {
        ChainedQuery(queries[0], q.units, q.pages);
      }
      CrawlTraceStep(limit, acquire, server, backoff, queries, w);
      if !q.crashed {
        var t' := CrawlTrace(limit, acquire, server, backoff, queries[1..], q.end.(queue := []));
        CrawlTraceOwnQueries(limit, acquire, server, backoff, queries[1..], q.end.(queue := []));
        forall u | u in t'.units
          ensures u.query in queries
        {
          assert u.query in queries[1..];
        }
      }
    }
  }

  /** Paginating the next query, `queries[0]`, of a crawl that resumes `whole`. */
  lemma ResumeQuery(limit: int, acquire: Acquirer, server: Server, backoff: nat -> nat, queries: seq<string>,
                    w: Walk, whole: Trace, taken: seq<RepoNode>, rounds: nat)
    requires queries != [] && w.total < limit
    requires Resumes(whole, taken, rounds, CrawlTrace(limit, acquire, server, backoff, queries, w))
    ensures var q := Paginate(limit, acquire, server, backoff, w.(queue := [Unit(queries[0], None)]));
      && taken + q.added <= whole.added
      && (q.crashed ==>
            whole.added == taken + q.added && whole.crashed && whole.end == q.end && whole.rounds == rounds + q.rounds)
      && (!q.crashed ==>
            Resumes(whole, taken + q.added, rounds + q.rounds,
                    CrawlTrace(limit, acquire, server, backoff, queries[1..], q.end.(queue := []))))
  {
    var q := Paginate(limit, acquire, server, backoff, w.(queue := [Unit(queries[0], None)]));
    var t' := CrawlTrace(limit, acquire, server, backoff, queries[1..], q.end.(queue := []));
    CrawlTraceStep(limit, acquire, server, backoff, queries, w);
    ResumeAfter(whole, taken, rounds, CrawlTrace(limit, acquire, server, backoff, queries, w), q, t');
  }

  /** Resuming `whole` at `t`, made of a first part `q` and, unless `q` raised, the rest `t'`. */
  lemma ResumeAfter(whole: Trace, taken: seq<RepoNode>, rounds: nat, t: Trace, q: Trace, t': Trace)
    requires Resumes(whole, taken, rounds, t)
    requires t == if q.crashed then q
                  else Trace(q.units + t'.units, q.pages + t'.pages, q.added + t'.added, t'.crashed, q.rounds + t'.rounds, t'.end)
    ensures taken + q.added <= whole.added
    ensures q.crashed ==>
              whole.added == taken + q.added && whole.crashed && whole.end == q.end && whole.rounds == rounds + q.rounds
    ensures !q.crashed ==> Resumes(whole, taken + q.added, rounds + q.rounds, t')
  {
    if !q.crashed {
      assert taken + (q.added + t'.added) == (taken + q.added) + t'.added;
    }
  }

  /** `Paginate` when no round runs. */
  lemma PaginateDone(limit: int, acquire: Acquirer, server: Server, backoff: nat -> nat, w: Walk)
    requires w.total >= limit || w.queue == []
    ensures Paginate(limit, acquire, server, backoff, w) == Trace([], [], [], false, 0, w)
  {
  }

  /** `whole` is what remains, `t`, after the nodes `taken` and the `rounds` already run. */
  predicate Resumes(whole: Trace, taken: seq<RepoNode>, rounds: nat, t: Trace)
  {
    whole.added == taken + t.added && whole.crashed == t.crashed && whole.end == t.end && whole.rounds == rounds + t.rounds
  }

  /** Running the next round of a pagination that resumes `whole`. */
  lemma ResumeRound(limit: int, acquire: Acquirer, server: Server, backoff: nat -> nat, w: Walk,
                    whole: Trace, taken: seq<RepoNode>, rounds: nat)
    requires w.total < limit && w.queue != []
    requires Resumes(whole, taken, rounds, Paginate(limit, acquire, server, backoff, w))
    ensures var st := Round(limit, acquire, server, backoff, w);
      && taken + st.result.added <= whole.added
      && (st.result.crashed ==>
            whole.added == taken + st.result.added && whole.crashed && whole.end == st.walk && whole.rounds == rounds + 1)
      && (!st.result.crashed ==>
            Resumes(whole, taken + st.result.added, rounds + 1, Paginate(limit, acquire, server, backoff, st.walk)))
  {
    var st := Round(limit, acquire, server, backoff, w);
    var t' := Paginate(limit, acquire, server, backoff, st.walk);
    PaginateRound(limit, acquire, server, backoff, w);
    ResumeAfter(whole, taken, rounds, Paginate(limit, acquire, server, backoff, w),
                Trace(st.units, st.pages, st.result.added, st.result.crashed, 1, st.walk), t');
  }

  /** A round from a single queued unit: that unit's page, and at most the one continuation it announces. */
  lemma RoundSingle(limit: int, acquire: Acquirer, server: Server, backoff: nat -> nat, w: Walk)
    requires w.total < limit && |w.queue| == 1
    ensures var st := Round(limit, acquire, server, backoff, w);
      var a := AcceptPage(limit, w.total, w.queue[0], st.pages[0]);
      && st.units == w.queue && |st.pages| == 1
      && st.result.crashed == a.PageInfoNull? && st.result.added == a.added
      && (!st.result.crashed ==> st.walk.queue == if a.next.Some? then [a.next.value] else [])
  {
    var st := Round(limit, acquire, server, backoff, w);
    assert st.pages == [st.pages[0]];
    ProcessSingle(limit, w.total, w.queue[0], st.pages[0]);
  }

  /**
   * Where a pagination resuming `whole` stands at `w`, after the nodes `taken`
   * were appended to `appended`: still running, with the rest of `whole` to
   * come, or stopped, with `whole` reached.
   */
  ghost predicate PagedAt(limit: int, acquire: Acquirer, server: Server, backoff: nat -> nat, whole: Trace, outcome: Outcome,
                          appended: seq<RepoNode>, taken: seq<RepoNode>, rounds: nat, w: Walk)
  {
    && (outcome == Completed ==> Resumes(whole, taken, rounds, Paginate(limit, acquire, server, backoff, w)))
    && (outcome != Completed ==> Reached(whole, outcome, appended, appended + taken, rounds, w.(queue := [])))
  }

  /** A pagination that stopped, emptied its queue or reached the limit has reached `whole`. */
  lemma PagedAtEnd(limit: int, acquire: Acquirer, server: Server, backoff: nat -> nat, whole: Trace, outcome: Outcome,
                   appended: seq<RepoNode>, taken: seq<RepoNode>, rounds: nat, w: Walk)
    requires w.queue == [] || w.total >= limit || outcome != Completed
    requires PagedAt(limit, acquire, server, backoff, whole, outcome, appended, taken, rounds, w)
    ensures Reached(whole, outcome, appended, appended + taken, rounds, w.(queue := []))
  {
    if outcome == Completed {
      PaginateDone(limit, acquire, server, backoff, w);
      ReachedByEnd(whole, taken, Trace([], [], [], false, 0, w), appended, appended + taken, rounds, w.(queue := []));
    }
  }

  /** One round of the pagination of `query`, resuming `whole`. */
  method NextRound(limit: int, query: string, queue: seq<Unit>, p: Progress, rounds: nat, limiter: RateLimiter, db: Database,
                   server: Server, backoff: nat -> nat, dayOf: int -> int, fault: nat -> Option<nat>,
                   ghost t0: Tables, ghost whole: Trace, ghost appended: seq<RepoNode>, ghost taken: seq<RepoNode>,
                   ghost log: seq<FlushRecord>)
    returns (queue': seq<Unit>, p': Progress, outcome: Outcome, rounds': nat, ghost taken': seq<RepoNode>,
             ghost log': seq<FlushRecord>, ghost w': Walk)
    requires queue != [] && p.total < limit && |queue| <= 1 && QueriesOf(queue) <= {query}
    requires Accounted(limit, p, appended + taken, log) && StoreMatches(db, t0, log, dayOf, fault)
    requires PagedAt(limit, Gate(limiter.maxRequests), server, backoff, whole, Completed, appended, taken, rounds,
                     Walk(queue, p.total, limiter.State(), p.clock, p.fetches))
    modifies limiter, db
    ensures Accounted(limit, p', appended + taken', log') && StoreMatches(db, t0, log', dayOf, fault)
    ensures taken <= taken' && log <= log'
    ensures rounds' == rounds + 1 && p'.fetches == p.fetches + 1
    ensures |queue'| <= 1 && QueriesOf(queue') <= {query}
    ensures limit - p'.total + |queue'| < limit - p.total + |queue|
    ensures w' == Walk(queue', p'.total, limiter.State(), p'.clock, p'.fetches)
    ensures PagedAt(limit, Gate(limiter.maxRequests), server, backoff, whole, outcome, appended, taken', rounds', w')
  {
    ghost var w := Walk(queue, p.total, limiter.State(), p.clock, p.fetches);
    ghost var st := Round(limit, Gate(limiter.maxRequests), server, backoff, w);
    ResumeRound(limit, Gate(limiter.maxRequests), server, backoff, w, whole, taken, rounds);
    ghost var appended';
    queue', p', outcome, appended', log' := RunRound(limit, queue, p, limiter, db, server, backoff, dayOf, fault, t0, appended + taken, log);
    AppendTaken(appended, taken, st.result.added, whole.added);
    taken' := taken + st.result.added;
    rounds' := rounds + 1;
    w' := Walk(queue', p'.total, limiter.State(), p'.clock, p'.fetches);
    if outcome != Completed {
      ReachedByRound(whole, taken', st, outcome, appended, appended + taken', rounds', w'.(queue := []));
    }
  }

  /**
   * The pagination of one search query: rounds run while the limit is not
   * reached and a continuation is queued. The queue never holds more than one
   * unit, so every round dispatches exactly one fetch.
   */
  method CrawlQuery(limit: int, query: string, p: Progress, limiter: RateLimiter, db: Database,
                    server: Server, backoff: nat -> nat, dayOf: int -> int, fault: nat -> Option<nat>,
                    ghost t0: Tables, ghost appended: seq<RepoNode>, ghost log: seq<FlushRecord>)
    returns (p': Progress, outcome: Outcome, rounds: nat, ghost appended': seq<RepoNode>, ghost log': seq<FlushRecord>)
    requires p.total < limit
    requires Accounted(limit, p, appended, log) && StoreMatches(db, t0, log, dayOf, fault)
    modifies limiter, db
    ensures Accounted(limit, p', appended', log') && StoreMatches(db, t0, log', dayOf, fault)
    ensures appended <= appended' && log <= log'
    ensures rounds >= 1 && p'.fetches == p.fetches + rounds
    ensures Reached(Paginate(limit, Gate(limiter.maxRequests), server, backoff,
                             Walk([Unit(query, None)], p.total, old(limiter.State()), p.clock, p.fetches)),
                    outcome, appended, appended', rounds, Walk([], p'.total, limiter.State(), p'.clock, p'.fetches))
  {
    var queue := [Unit(query, None)];
    p', outcome, rounds, log' := p, Completed, 0, log;
    ghost var w := Walk(queue, p.total, limiter.State(), p.clock, p.fetches);
    ghost var whole := Paginate(limit, Gate(limiter.maxRequests), server, backoff, w);
    ghost var taken: seq<RepoNode> := [];
    assert appended + taken == appended;
    while p'.total < limit && queue != [] && outcome == Completed
      invariant |queue| <= 1 && QueriesOf(queue) <= {query}
      invariant Accounted(limit, p', appended + taken, log') && StoreMatches(db, t0, log', dayOf, fault)
      invariant log <= log'
      invariant p'.fetches == p.fetches + rounds
      invariant rounds == 0 ==> queue != [] && p' == p && outcome == Completed
      invariant w == Walk(queue, p'.total, limiter.State(), p'.clock, p'.fetches)
      invariant PagedAt(limit, Gate(limiter.maxRequests), server, backoff, whole, outcome, appended, taken, rounds, w)
      decreases limit - p'.total + |queue|
    {
      queue, p', outcome, rounds, taken, log', w := NextRound(limit, query, queue, p', rounds, limiter, db, server, backoff,
                                                               dayOf, fault, t0, whole, appended, taken, log');
    }
    PagedAtEnd(limit, Gate(limiter.maxRequests), server, backoff, whole, outcome, appended, taken, rounds, w);
    appended' := appended + taken;
  }

  /**
   * Where a crawl resuming `whole` stands before query `qi`: still running, with
   * the rest of `whole` to come, or stopped, with `whole` reached.
   */
  ghost predicate CrawlAt(limit: int, acquire: Acquirer, server: Server, backoff: nat -> nat, queries: seq<string>, qi: nat,
                          whole: Trace, outcome: Outcome, appended: seq<RepoNode>, rounds: nat, w: Walk)
    requires qi <= |queries|
  {
    && (outcome == Completed ==> Resumes(whole, appended, rounds, CrawlTrace(limit, acquire, server, backoff, queries[qi..], w)))
    && (outcome != Completed ==> Reached(whole, outcome, [], appended, rounds, w))
  }

  /** A crawl that stopped, ran out of queries or reached the limit has reached `whole`. */
  lemma CrawlAtEnd(limit: int, acquire: Acquirer, server: Server, backoff: nat -> nat, queries: seq<string>, qi: nat,
                   whole: Trace, outcome: Outcome, appended: seq<RepoNode>, rounds: nat, w: Walk)
    requires qi <= |queries| && w.queue == [] && (qi == |queries| || w.total >= limit || outcome != Completed)
    requires CrawlAt(limit, acquire, server, backoff, queries, qi, whole, outcome, appended, rounds, w)
    ensures Reached(whole, outcome, [], appended, rounds, w)
  {
    if outcome == Completed {
      CrawlTraceDone(limit, acquire, server, backoff, queries[qi..], w);
      ReachedByEnd(whole, appended, Trace([], [], [], false, 0, w), [], appended, rounds, w);
    }
  }

  /** The next query of the crawl, `queries[qi]`, paginated where the crawl resuming `whole` stands. */
  method NextQuery(limit: int, queries: seq<string>, qi: nat, p: Progress, rounds: nat, limiter: RateLimiter, db: Database,
                   server: Server, backoff: nat -> nat, dayOf: int -> int, fault: nat -> Option<nat>,
                   ghost t0: Tables, ghost whole: Trace, ghost appended: seq<RepoNode>, ghost log: seq<FlushRecord>)
    returns (p': Progress, outcome: Outcome, rounds': nat, ghost appended': seq<RepoNode>, ghost log': seq<FlushRecord>, ghost w': Walk)
    requires qi < |queries| && p.total < limit
    requires Accounted(limit, p, appended, log) && StoreMatches(db, t0, log, dayOf, fault)
    requires CrawlAt(limit, Gate(limiter.maxRequests), server, backoff, queries, qi,
                     whole, Completed, appended, rounds, Walk([], p.total, limiter.State(), p.clock, p.fetches))
    modifies limiter, db
    ensures Accounted(limit, p', appended', log') && StoreMatches(db, t0, log', dayOf, fault)
    ensures rounds' > rounds && p'.fetches - p.fetches == rounds' - rounds
    ensures w' == Walk([], p'.total, limiter.State(), p'.clock, p'.fetches)
    ensures CrawlAt(limit, Gate(limiter.maxRequests), server, backoff, queries, qi + 1, whole, outcome, appended', rounds', w')
  {
    ghost var w := Walk([], p.total, limiter.State(), p.clock, p.fetches);
    ghost var q := Paginate(limit, Gate(limiter.maxRequests), server, backoff, w.(queue := [Unit(queries[qi], None)]));
    assert queries[qi..][0] == queries[qi] && queries[qi..][1..] == queries[qi + 1..];
    ResumeQuery(limit, Gate(limiter.maxRequests), server, backoff, queries[qi..], w, whole, appended, rounds);
    var r;
    p', outcome, r, appended', log' := CrawlQuery(limit, queries[qi], p, limiter, db, server, backoff, dayOf, fault, t0, appended, log);
    rounds' := rounds + r;
    w' := Walk([], p'.total, limiter.State(), p'.clock, p'.fetches);
    if outcome != Completed {
      ReachedByQuery(whole, appended, q, outcome, appended', rounds, r, w');
    } else {
      assert q.end.(queue := []) == w';
    }
  }

  /** The loop over the search queries, until the limit is reached or a round raises. */
  method RunQueries(limit: int, queries: seq<string>, limiter: RateLimiter, db: Database,
                    server: Server, backoff: nat -> nat, dayOf: int -> int, fault: nat -> Option<nat>, now: int,
                    ghost t0: Tables)
    returns (p: Progress, outcome: Outcome, rounds: nat, queriesRun: nat, ghost appended: seq<RepoNode>, ghost log: seq<FlushRecord>)
    requires StoreMatches(db, t0, [], dayOf, fault)
    modifies limiter, db
    ensures Accounted(limit, p, appended, log) && StoreMatches(db, t0, log, dayOf, fault)
    ensures p.fetches == rounds && queriesRun <= |queries| && rounds >= queriesRun
    ensures limit <= 0 ==> rounds == 0 && log == []
    ensures outcome.Completed? && p.total < limit ==> queriesRun == |queries|
    ensures Reached(CrawlTrace(limit, Gate(limiter.maxRequests), server, backoff, queries, Walk([], 0, old(limiter.State()), now, 0)),
                    outcome, [], appended, rounds, Walk([], p.total, limiter.State(), p.clock, p.fetches))
  {
    p := Progress(0, [], now, 0, 0);
    appended, log := [], [];
    rounds, queriesRun := 0, 0;
    outcome := Completed;
    ghost var w := Walk([], 0, limiter.State(), now, 0);
    ghost var whole := CrawlTrace(limit, Gate(limiter.maxRequests), server, backoff, queries, w);
    assert queries[0..] == queries;
    while queriesRun < |queries| && p.total < limit && outcome == Completed
      invariant Accounted(limit, p, appended, log) && StoreMatches(db, t0, log, dayOf, fault)
      invariant p.fetches == rounds && queriesRun <= |queries| && rounds >= queriesRun
      invariant limit <= 0 ==> rounds == 0 && log == []
      invariant w == Walk([], p.total, limiter.State(), p.clock, p.fetches)
      invariant CrawlAt(limit, Gate(limiter.maxRequests), server, backoff, queries, queriesRun, whole, outcome, appended, rounds, w)
      decreases |queries| - queriesRun
    {
      p, outcome, rounds, appended, log, w := NextQuery(limit, queries, queriesRun, p, rounds, limiter, db, server, backoff, dayOf, fault,
                                                        t0, whole, appended, log);
      queriesRun := queriesRun + 1;
    }
    CrawlAtEnd(limit, Gate(limiter.maxRequests), server, backoff, queries, queriesRun, whole, outcome, appended, rounds, w);
  }

  /**
   * The flush after the loop: what is left in the buffer, when anything is,
   * goes to the store as one last batch.
   */
  method FinalFlush(limit: int, p: Progress, db: Database, dayOf: int -> int, fault: nat -> Option<nat>,
                    ghost t0: Tables, ghost appended: seq<RepoNode>, ghost log: seq<FlushRecord>)
    returns (ok: bool, ghost log': seq<FlushRecord>)
    requires Accounted(limit, p, appended, log) && StoreMatches(db, t0, log, dayOf, fault)
    modifies db
    ensures StoreMatches(db, t0, log', dayOf, fault)
    ensures p.buffer == [] ==> ok && log' == log
    ensures p.buffer != [] && ok ==> log' == log + [FlushRecord(p.buffer, p.clock)]
    ensures !ok ==> log' == log
    ensures ok ==> Flatten(Batches(log')) == appended
    ensures Flatten(Batches(log')) <= appended
    ensures forall i :: 0 <= i < |log'| - 1 ==> |log'[i].batch| == DbBatchSize
  {
    ok, log' := true, log;
    if p.buffer != [] {
      ok := FlushBatch(db, p.buffer, p.clock, p.flushes, dayOf, fault, t0, log);
      if ok {
        FlattenSnoc(Batches(log), p.buffer);
        log' := log + [FlushRecord(p.buffer, p.clock)];
        assert Batches(log') == Batches(log) + [p.buffer] by {
          assert log'[..|log|] == log;
        }
      }
    }
  }

  /**
   * The whole crawl over `queries`, from clock `now`, with an empty buffer:
   * each query is paginated in turn until the limit is reached, and what is
   * left in the buffer is flushed at the end. `appended` are the nodes taken
   * from the pages, in order; `log` the flushes the store committed.
   */
  method Crawl(limit: int, queries: seq<string>, limiter: RateLimiter, db: Database,
               server: Server, backoff: nat -> nat, dayOf: int -> int, fault: nat -> Option<nat>, now: int)
    returns (outcome: Outcome, total: int, fetches: nat, rounds: nat, queriesRun: nat,
             ghost appended: seq<RepoNode>, ghost log: seq<FlushRecord>)
    requires db.Valid()
    modifies limiter, db
    ensures db.Valid() && Committed(old(db.Snapshot()), log, dayOf, fault) == Some(db.Snapshot())
    ensures total == |appended| && (total <= limit || total == 0)
    ensures fetches == rounds && queriesRun <= |queries| && rounds >= queriesRun
    ensures limit <= 0 ==> fetches == 0 && log == [] && db.Snapshot() == old(db.Snapshot())
    ensures Flatten(Batches(log)) <= appended
    ensures forall i :: 0 <= i < |log| - 1 ==> |log[i].batch| == DbBatchSize
    ensures outcome.Completed? ==> Flatten(Batches(log)) == appended
    ensures outcome.Completed? ==> forall n :: n in appended ==> n.id.Some? && n.id.value in db.Snapshot().repos
    ensures outcome.Completed? && total < limit ==> queriesRun == |queries|
    ensures var t := CrawlTrace(limit, Gate(limiter.maxRequests), server, backoff, queries, Walk([], 0, old(limiter.State()), now, 0));
      && (outcome != FlushFailed ==>
            && appended == t.added && (outcome == PageInfoMissing <==> t.crashed) && rounds == t.rounds
            && limiter.State() == t.end.state && total == t.end.total && fetches == t.end.fetches)
      && (outcome == FlushFailed ==> appended <= t.added)
  {
    ghost var t0 := db.Snapshot();
    var p;
    p, outcome, rounds, queriesRun, appended, log := RunQueries(limit, queries, limiter, db, server, backoff, dayOf, fault, now, t0);
    total, fetches := p.total, p.fetches;
    assert [] + CrawlTrace(limit, Gate(limiter.maxRequests), server, backoff, queries, Walk([], 0, old(limiter.State()), now, 0)).added
        == CrawlTrace(limit, Gate(limiter.maxRequests), server, backoff, queries, Walk([], 0, old(limiter.State()), now, 0)).added;
    if outcome != Completed {
      return;
    }
    var ok;
    ok, log := FinalFlush(limit, p, db, dayOf, fault, t0, appended, log);
    if !ok {
      outcome := FlushFailed;
      return;
    }
    CommittedStoresNodes(t0, log, dayOf, fault);
  }
}
