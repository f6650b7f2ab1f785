# Github-Crawler, modelled in Dafny

This project models the crawler in `main.py`. The crawler walks a fixed list of
GitHub search queries and pages through each with the GraphQL search API. It
passes every call through a rate limiter and retries transient server errors.
It buffers the repositories it receives and writes them to PostgreSQL in bulk
batches. Each batch is one transaction: an upsert of every repository row, then
a star-history insert that ignores duplicates.

The model keeps the program's structure, one Dafny module per piece:

- `Queries` (`queries.dfy`): the query partitioner. `SEARCH_QUERIES` is the
  cross product of 8 languages, 6 creation years and 5 star buckets, rendered as
  `language:L stars:s1..s2 created:Y-01-01..Y-12-31`.
- `RateLimit` (`rate_limiter.dfy`): the `RateLimiter` class.
  - Its fields are `requests`, `remaining` and `reset_at`, and its methods
    update them in place.
  - The function `AcquireStep` and the function `UpdateStep` specify the
    methods, and the lemmas are stated about those functions.
  - Time is an integer clock in seconds that the caller passes in. A sleep is
    returned as the number of seconds the clock advances.
- `Client` (`client.dfy`): `run_query_async` with its retry decorator, and
  `fetch_page`.
  - The HTTP exchange is an oracle giving the reply that attempt `i` receives.
  - The retry library's wait is a caller-supplied `backoff`.
- `Store` (`store.dfy`): `batch_insert_repos_bulk`, as a transaction over two
  abstract tables.
  - `repositories` is a map from `repo_id` to its row, plus the counter that
    hands out surrogate ids.
  - `repository_star_history` is a map keyed by (surrogate id, day).
  - A storage-fault oracle names the statement, if any, at which the database
    raises.
  - `StoreScenario` works one concrete batch through the writer: two pages that
    share a repository.
- `Crawler` (`crawler.dfy`): the scheduling and buffering loop of
  `crawl_repositories_optimized`.
  - There is one cursor queue per query. Each round takes
    `min(20, limit - total, qsize)` units, and pages are cut to the remaining
    limit.
  - A continuation is queued only for a non-empty page that announces a next
    page while the limit is not reached.
  - The buffer is flushed in batches of 5000, and any remainder is flushed at
    the end.
  - The fetches of a round run one after the other in dispatch order, which is
    the order in which `gather` returns their results.
  - The search API is an oracle indexed by the requested unit (query and
    cursor) and the fetch number. Each fetch requests its own unit.
  - `CrawlTrace` is the reference definition of the whole crawl over the
    server's pages, and `Paginate` that of one query. The loops are proved to
    follow them.
- `Api` and `Common` (`api.dfy`, `common.dfy`): the shape of the JSON the API
  returns, and small shared definitions.
  - A key that is absent, a key that is null and a key with a value are kept
    apart, because `dict.get` treats them differently.
  - `PyPrefix` is Python's `s[:n]`.

Behaviours of the code that the model keeps, where a reading of the design
alone might suggest otherwise:

- Adjacent star buckets share their endpoints (10, 50, 200 and 1000). The
  search range `a..b` includes both ends, so the facets overlap rather than
  partition the repositories (`Queries.FacetsOverlap`).
- When the reactive branch of `acquire` sleeps, the call is not recorded in the
  window, and `remaining` is not reset.
- After a proactive sleep, the timestamp recorded is the clock from before the
  sleep, and the window is cleared first. So the window does not hold the
  ceiling per hour: with a ceiling of one, acquires at 0, 0 and 3601 send two
  calls at 3601 (`RateLimit.CeilingNotEnforced`). The proven bound
  (`RateLimit.ReplayKeepsWindowBound`) is on the length of the list of recorded
  timestamps, not on the number of calls sent within an hour.
- When `max_requests` is 0 or less and the window is empty, `acquire` raises an
  IndexError (`self.requests[0]`). That error is not retried.
- A status-200 reply whose `data` is null makes `.get("rateLimit")` raise. That
  error is not one the retry decorator retries, so `fetch_page` returns an
  empty page. A null `search` also gives an empty page.
- A page with nodes and a null `pageInfo` raises in the crawl loop after its
  nodes were buffered. That exception is not caught and ends the crawl
  (`Crawler.Outcome.PageInfoMissing`).
- A query's queue starts with one unit, and each processed page queues at most
  one continuation. So the queue never holds more than one unit, and every
  round dispatches exactly one fetch. The limit of 20 concurrent fetches is
  never reached.
- A node without `id`, `owner.login`, `name` or `stargazerCount` makes the
  record comprehension raise a KeyError. The whole batch then fails.

## Model

| member | source | states |
|---|---|---|
| Queries.SearchQueriesCount | main.py:40-55 | the configured partition has exactly 8 x 6 x 5 = 240 queries |
| Queries.SearchQueriesOrder | main.py:50-55 | query number (i*6 + j)*5 + k is language i, year j and bucket k, so the language is outermost, then the year, then the bucket |
| Queries.SearchQueriesDistinct | main.py:40-55 | no search string occurs twice in the configured list |
| Queries.FacetsAt | main.py:50-55 | for any dimensions, position (i, j, k) of the cross product holds the facet of language i, year j and bucket k |
| Queries.FacetsLength | main.py:50-55 | the cross product has one facet per (language, year, bucket) triple |
| Queries.FacetsMembership | main.py:50-55 | a facet is produced exactly when its language, year and bucket are all configured |
| Queries.FacetsDistinct | main.py:50-55 | duplicate-free dimensions give a cross product without duplicates |
| Queries.RenderedDistinct | main.py:50-55 | duplicate-free dimensions and language names without spaces render to distinct query strings |
| Queries.NatToStringInjective | main.py:51 | two numbers with the same decimal text are equal |
| Queries.RenderInjective | main.py:51 | two facets whose languages contain no space and that render to the same search string are the same facet |
| Queries.BucketsShareEndpoints | main.py:42-48 | every star bucket starts at the upper end of the previous one |
| Queries.FacetsOverlap | main.py:42-55 | the partition has two different facets with the same language and year where one bucket ends at the star count the other starts at, so a repository with that count matches both and the facets are not disjoint |
| RateLimit.Recent | main.py:117 | the filtered window is no longer than the original, and a timestamp is in it exactly when it was in the original and is less than 3600 s old |
| RateLimit.RecentCounts | main.py:117 | the filter keeps every fresh timestamp as many times as it occurred and drops every stale one |
| RateLimit.AcquireStep | main.py:102-125 | acquire never sleeps a negative time, never changes `remaining` or `reset_at`, and raises only when the ceiling is at most 0 |
| RateLimit.GateBehaves | main.py:102-125 | with a ceiling of at least 1, acquire never raises; with any ceiling it only sleeps forward and keeps the reported quota |
| RateLimit.ReactiveAcquire | main.py:106-114 | when `remaining` < 100 and `reset_at` is set with a reset still ahead, acquire sleeps until `reset_at` + 5, empties the window, keeps `remaining`, and does not record the call |
| RateLimit.ProactiveAcquire | main.py:116-125 | otherwise the call is recorded with the pre-sleep clock after stale timestamps are dropped: without a sleep when the window is below the ceiling, and after a positive sleep into a cleared window when it is full |
| RateLimit.UnrecordedIffReactive | main.py:106-125 | with a ceiling of at least 1, acquire always grants, and a call goes unrecorded exactly when the reactive branch made it sleep |
| RateLimit.AcquireWindowBound | main.py:116-125 | a recorded call leaves at most max(1, ceiling) timestamps in the window, and a proactive sleep lasts until the first timestamp of the filtered window has left it |
| RateLimit.RecentSorted | main.py:117 | filtering a window that is in clock order keeps it in clock order |
| RateLimit.AcquireSorted | main.py:102-125 | an acquire at a clock no earlier than every recorded call keeps the window in clock order, with no timestamp after that clock |
| RateLimit.ReplaySorted | main.py:102-133 | when the acquires' clocks never go back, any sequence of acquires and updates keeps the window in clock order |
| RateLimit.AcquireSleepsPastOldest | main.py:116-125 | with the window in clock order, its first timestamp is its oldest, and a proactive sleep ends one second after that oldest call has left the window |
| RateLimit.CeilingNotEnforced | main.py:116-125 | with a ceiling of one, acquires starting at 0, 0 and 3601 send calls at 0, 3601 and 3601: two calls within one window |
| RateLimit.DefaultGateGrants | main.py:95-136 | the shared limiter, built with the default ceiling of 4900, never raises |
| RateLimit.AcquireWindowFresh | main.py:113-125 | after a granted acquire every timestamp in the window is less than 3600 s old |
| RateLimit.ReplayKeepsWindowBound | main.py:116-133 | with a ceiling of at least 1, any sequence of acquires and updates keeps the list of recorded timestamps within the ceiling |
| RateLimit.UpdateFacts | main.py:127-133 | an absent or empty `rateLimit` changes nothing; otherwise `remaining` is always overwritten, possibly with None, `reset_at` only when `resetAt` is present, and the window never |
| RateLimit.RateLimiter.constructor | main.py:95-100 | a new limiter has the given ceiling, an empty window and no reported quota |
| RateLimit.RateLimiter.Acquire | main.py:102-125 | the fields afterwards, the sleep and whether the call raised are those of the acquire step from the old fields |
| RateLimit.RateLimiter.UpdateFromResponse | main.py:127-133 | the fields afterwards are those of the update step from the old fields |
| Client.ClassifyVerdicts | main.py:181-194 | an attempt succeeds exactly on status 200 with non-null `data`, and then yields that body; it is retried exactly on 502, 503 or a transport error; anything else is final |
| Client.TurnOf | main.py:157-194 | one attempt continues to the next one only when the limiter granted it, its reply was transient and it was not the last attempt |
| Client.RunQueryAttemptCount | main.py:157-161 | a query makes at least one and at most five attempts |
| Client.RunQueryClock | main.py:157-194 | the clock never moves back over a query |
| Client.RunQueryRetriedOnlyTransient | main.py:157-194 | every attempt before the last one ended in a retryable error |
| Client.RunQueryFetchedLast | main.py:157-194 | a query that returns a body got it from its last attempt, which was a success |
| Client.RunQueryHardLast | main.py:157-194 | when the limiter never raises, a hard failure is the final error of the last attempt |
| Client.RunQueryExhaustedLast | main.py:157-161 | giving up takes all five attempts, the last of them transient |
| Client.RunQueryOutcome | main.py:157-194 | the retry policy as a whole: 1 to 5 attempts, only transient errors retried, the last attempt deciding the outcome, and a clock that only moves forward |
| Client.RunQueryTelemetry | main.py:181-189 | a successful reply's `rateLimit` reaches the limiter; a failed query leaves the reported quota as it was |
| Client.RunQuery | main.py:157-194 | the outcome, attempt count, clock and limiter state are those of the retry specification run through the limiter's acquire |
| Client.Attempt | main.py:102-194 | one attempt passes through the limiter's acquire, feeds a successful reply's `rateLimit` back to it, and ends the query or hands over to the next attempt exactly as the one-attempt step says |
| Client.RetryFrom | main.py:157-194 | from attempt `i` on, the retried query behaves as the retry specification from attempt `i` |
| Client.NormalizePage | main.py:282-295 | every failure gives `([], hasNextPage False)`; nodes and a next-page flag come only from a successful reply's `search`; missing keys read as an empty list and no next page |
| Client.FetchPage | main.py:282-295 | the page is the normalised outcome of the retried query, and the limiter and clock are as after that query |
| Store.PrepareAll | main.py:220-231 | records are prepared exactly when every node has the subscripted keys, with one record per node, `full_name = owner/name` and the node's fields |
| Store.UpsertStep | main.py:234-242 | a stored id changes only `stars`, `updated_at` and `last_crawled_at = NOW()`; a new id gets a row with the next surrogate id; other rows are untouched |
| Store.UpsertKeys | main.py:234-242 | one upsert adds its id as a key, and adds a row only when the id is new |
| Store.UpsertCounter | main.py:234-242 | one upsert hands out a surrogate id only for a new row and leaves the history alone |
| Store.UpsertAllKeys | main.py:234-242 | the upserts add exactly the batch's ids, hand out one surrogate id per new row and leave the history alone |
| Store.UpsertAllKeySet | main.py:234-242 | the stored ids after the upserts are the old ones plus the batch's |
| Store.UpsertAllCounter | main.py:234-242 | the counter advances by the number of rows added, and the history is untouched |
| Store.UpsertAllHistoryFree | main.py:234-242 | the upserts neither read nor write the history table |
| Store.UpsertAllKeepsColumns | main.py:234-242 | a stored row keeps its id, owner, name, `full_name` and `created_at` |
| Store.UpsertAllLatest | main.py:234-242 | a batch id's `stars` and `updated_at` come from its last record, a stored id gets `last_crawled_at = NOW()`, and rows the batch does not mention are unchanged |
| Store.UpsertAllEarliest | main.py:234-242 | a row first inserted by the batch takes owner, name, `full_name` and `created_at` from that id's first record |
| Store.UpsertAllValid | main.py:234-242 | the upserts keep surrogate ids unique and below the counter, and keep `full_name = owner/name` |
| Store.IdMap | main.py:249-257 | the lookup maps exactly the batch ids that are stored, each to its row's surrogate id |
| Store.IdMapCovers | main.py:249-257 | looking up every stored id yields every surrogate id |
| Store.StarRecords | main.py:260-267 | every star record carries a looked-up id, and when every id resolves there is one record per node, in batch order |
| Store.StarRecordsIds | main.py:260-267 | the star records carry exactly the looked-up ids of the batch |
| Store.InsertHistoryShape | main.py:269-275 | the history gains exactly the (id, day) keys of the star records, and a key already present keeps its value |
| Store.InsertHistoryRecorded | main.py:269-275 | samples whose (id, day) is already recorded leave the history unchanged |
| Store.Write | main.py:209-231 | an empty batch changes nothing, and a batch with an incomplete node commits nothing |
| Store.WriteOutcome | main.py:212-275 | a non-empty, complete batch commits the full flush when no statement fails, and nothing when one does |
| Store.WritePreservesValid | main.py:212-275 | a committed flush keeps the tables' invariants, including that every history row refers to a stored repository |
| Store.FlushEffect | main.py:234-275 | a flush adds exactly the batch ids, keeps the fixed columns of stored rows, gives new rows `full_name = owner/name`, and adds one (id, day) sample per batch repository without overwriting any |
| Store.PreparedIds | main.py:220-249 | the records prepared from a batch carry exactly the batch's ids |
| Store.AllIdsResolve | main.py:249-267 | after the upserts every record's id resolves, so the history gets one sample per record |
| Store.WriteEffect | main.py:209-275 | a committed non-empty batch stores every node's repository, leaves the fixed columns of existing rows alone, and adds exactly one sample per repository and day |
| Store.UpsertAgain | main.py:234-242 | upserting the same submission again adds no row and changes nothing but `last_crawled_at` |
| Store.ReupsertIdMap | main.py:234-257 | re-upserting ids that are all stored leaves their surrogate ids unchanged |
| Store.FlushAgainHistory | main.py:260-275 | flushing the same submission again on the same day adds or changes no history sample |
| Store.WriteIdempotent | main.py:209-275 | repeating a committed batch on the same day adds no row and no sample and changes every row only in `last_crawled_at` |
| Store.RunTransaction | main.py:212-275 | the transaction succeeds exactly when no statement among its upserts, lookup and inserts fails, and then yields the flushed tables |
| Store.RunUpserts | main.py:234-242 | the upsert statements succeed exactly when none of them fails, and then give the upsert fold |
| Store.RunHistoryInserts | main.py:269-275 | the history inserts succeed exactly when none of them fails, and then give the conflict-ignoring insert |
| Store.Database.constructor | main.py:200-213 | a new database is empty, valid, and starts surrogate ids at 1 |
| Store.Database.BulkInsert | main.py:200-275 | the tables afterwards are the committed flush on success and exactly the old tables on any failure, and they stay valid |
| StoreScenario.OverlappingPagesComplete | main.py:220-231 | the overlapping batch can be prepared |
| StoreScenario.OverlappingPagesIds | main.py:220-249 | the prepared overlapping batch carries the five ids A to E |
| StoreScenario.OverlappingPagesBatchIds | main.py:249 | the overlapping batch's nodes carry the five ids A to E |
| StoreScenario.OverlappingPagesLatest | main.py:234-242 | the last record for the repeated repository A has 4 stars |
| StoreScenario.OverlappingPagesWritten | main.py:209-275 | the overlapping batch commits into empty tables |
| StoreScenario.OverlappingPagesStored | main.py:234-242 | six nodes of which one repeats store five repositories with surrogate ids 1 to 5 |
| StoreScenario.OverlappingPagesLaterStars | main.py:234-242 | the repository on both pages carries the star count of its later occurrence |
| StoreScenario.OverlappingPagesSampled | main.py:260-275 | every stored repository has exactly one history sample, for the day of the flush |
| StoreScenario.FreshFlushSampled | main.py:260-275 | a flush into empty tables records one sample per stored repository, for the flush's day |
| Crawler.RoundSize | main.py:348 | a round takes at most 20 units, at most `limit - total` and at most the queue length, and it equals the smallest of them |
| Crawler.AcceptPage | main.py:369-375 | a page adds a prefix of its nodes, cut to the remaining limit; a continuation with the page's end cursor is queued exactly when the page had nodes, announced a next page and the limit is not reached; a null `pageInfo` raises only when there were nodes |
| Crawler.ProcessBounds | main.py:363-375 | a round's pages keep the total within the limit and queue at most one continuation per page, each after at least one node |
| Crawler.ProcessQueries | main.py:363-375 | continuations are queued only for the queries of the round's own units |
| Crawler.ProcessCrashedOnlyIf | main.py:363-375 | a round raises only if one of its pages has nodes and a null `pageInfo` |
| Crawler.ProcessCrashedIf | main.py:363-375 | a round raises whenever one of its pages has nodes and a null `pageInfo` |
| Crawler.ProcessAfterCrash | main.py:363-375 | after a page raises, the later pages of the round are not looked at |
| Crawler.ProcessNoNodes | main.py:369 | pages without nodes contribute nothing and queue nothing |
| Crawler.ProcessResults | main.py:363-375 | the loop over a round's results buffers and queues exactly what the round's pages contribute, and stays within the limit |
| Crawler.FetchRun | main.py:345-360 | a run of n fetches yields n pages |
| Crawler.FetchNext | main.py:352-360 | the next fetch of a run gives that run's first page and limiter state |
| Crawler.FetchAll | main.py:345-360 | the round yields one page per unit, in dispatch order, and counts one fetch per unit |
| Crawler.FetchRound | main.py:343-375 | a round fetches `RoundSize` units and buffers what they contribute, within the limit; it queues at most one continuation per unit, each after a node and only for queries already queued |
| Crawler.RunRound | main.py:343-395 | a round keeps the bookkeeping: the flushed batches followed by the buffer equal the appended nodes, and the total stays within the limit; the store equals the committed flushes; the rest of the queue and the outcome are as the round's pages determine |
| Crawler.FlushIfFull | main.py:377-392 | with at least 5000 buffered nodes exactly the first 5000 are flushed and the rest kept; otherwise nothing happens |
| Crawler.FlushBatch | main.py:380 | a successful flush joins the committed log; a failed one leaves the store as it was |
| Crawler.AccountedAdd | main.py:369-372 | appending a page's nodes within the limit keeps the bookkeeping |
| Crawler.AccountedFlush | main.py:377-392 | flushing the first 5000 buffered nodes keeps the bookkeeping |
| Crawler.CommittedValid | main.py:377-402 | committed flushes keep the tables' invariants |
| Crawler.CommittedStoresNodes | main.py:377-402 | every node of a committed flush is stored under its id, and no stored repository is removed |
| Crawler.RequeueQueries | main.py:352-375 | putting a round's continuations behind the rest of the queue brings in no new query |
| Crawler.QueriesOfConcat | main.py:340-375 | the queries of two queued parts together are the queries of each part |
| Crawler.Round | main.py:343-375 | a round takes at least one and at most all queued units, in queue order, gets one page per unit, keeps the total within the limit and counts one fetch per unit |
| Crawler.Paginate | main.py:343-395 | rounds run until the limit is reached or the queue is empty, unless a page raises; no round runs exactly when the limit is already reached or nothing is queued; the total counts the nodes taken and stays within the limit |
| Crawler.CrawlTrace | main.py:336-398 | the queries are paginated in turn, each from its first page; the total counts the nodes taken and stays within the limit, and one fetch is counted per page |
| Crawler.ProcessCrashed | main.py:363-375 | a round raises exactly when one of its pages has nodes and a null `pageInfo` |
| Crawler.PaginateCrash | main.py:343-395 | paginating a query raises exactly when one of the pages it fetched has nodes and a null `pageInfo` |
| Crawler.CrawlTraceCrash | main.py:336-398 | the crawl raises exactly when one of the pages it fetched has nodes and a null `pageInfo` |
| Crawler.PaginateChain | main.py:340-375 | one query's pagination makes one fetch per round; its first unit is the queued one, and each later unit is the same query at the end cursor of the page before it, which had nodes and announced a next page |
| Crawler.PaginateLastPage | main.py:369-375 | a query's pagination that stops below the limit without raising stops on a page with no nodes or with no next page |
| Crawler.ChainedQuery | main.py:352-375 | a chain of continuations started by a query fetches units of that query only |
| Crawler.CrawlTraceCovers | main.py:336-341 | a crawl that stops below the limit without raising dispatched every configured query, first without a cursor |
| Crawler.CrawlTraceOwnQueries | main.py:336-375 | every unit a crawl fetches belongs to one of the configured queries |
| Crawler.NextRound | main.py:343-395 | one round of a query's pagination moves the crawl along its reference trace: the nodes it buffers, the raise and the limiter, clock, total and fetch count are the trace's next round |
| Crawler.CrawlQuery | main.py:340-395 | paginating one query appends exactly the nodes of `Paginate` from that query's first unit, raises exactly when that pagination does, runs its rounds and leaves the limiter, clock, total and fetch count where it ends; after a failed flush the nodes appended are a prefix of those; the store stays in step with the committed flushes |
| Crawler.NextQuery | main.py:338-397 | paginating the next query moves the crawl along its reference trace by that query's pagination |
| Crawler.RunQueries | main.py:336-398 | the loop over the queries appends exactly the nodes of `CrawlTrace`, raises exactly when it does, and ends where it ends, unless a flush failed, when the nodes are a prefix; no round runs when the limit is not positive, and a completed loop below the limit ran every query |
| Crawler.FinalFlush | main.py:400-402 | a non-empty buffer is written as one last batch; on success the flushed batches concatenated are exactly the appended nodes, and a failure leaves the log as it was |
| Crawler.Crawl | main.py:301-402 | unless a flush failed, the nodes appended are exactly those of the reference crawl `CrawlTrace` over the server's pages, the crawl raises exactly when that trace does, and the limiter, total and fetch count end where it ends; the store is the start state with the committed flushes applied; every flush before the last is a full batch of 5000; on completion the flushed batches concatenated are exactly the appended nodes, each stored under its id |

## Left out

- The HTTP session, the POST, the GraphQL text and the JSON decoding (main.py:63-86, main.py:162-180) are replaced by the reply oracle. A body that is not a JSON object is not modelled.
- The connection pool, `executemany` and `fetch` (main.py:212-213, main.py:320-328) are replaced by the two abstract tables and the storage-fault oracle.
- The tenacity wait (main.py:159) is the caller-supplied `backoff`; only the five-attempt bound and the retryable/final split are modelled.
- Elapsed time outside the sleeps: the clock advances only by the limiter's sleeps and the retry waits. The POST and the response read (main.py:168-180), the JSON decoding and every flush (main.py:380, main.py:401) take no time in the model, while the program reads `time.time()` afresh at every acquire (main.py:104). So the clock and limiter state that `Client.RunQuery`, `Client.FetchPage`, `Crawler.NextRound`, `Crawler.CrawlQuery`, `Crawler.RunQueries` and `Crawler.Crawl` promise are those of a run in which network and database time is zero. A real crawl, which spends time on each request, fills the window more slowly than the model does.
- An empty `endCursor` is falsy at main.py:170, so a continuation with cursor `""` sends the same request as the query's first page. The server oracle is keyed by the unit and may answer `Unit(q, Some(""))` and `Unit(q, None)` differently; the model does not identify the two.
- `time.time()`, `datetime.utcnow()` and the ISO 8601 parsing (main.py:104, main.py:133, main.py:142-151) are left out. Timestamps are integer seconds, and `now` is a parameter. A node's `createdAt` or `updatedAt` that is missing or fails to parse becomes `now`, as `parse_github_datetime_fast` does. A present `resetAt` is taken as already parsed.
- RateLimit.UpdateFacts: a `resetAt` string that `fromisoformat` rejects raises ValueError (main.py:133) after `remaining` was already overwritten (main.py:130). The model has no unparseable `resetAt`, so neither that error nor the half-done update it leaves is modelled.
- The day that `recorded_at` resolves to is defined in the schema, which is not part of this model. It is the `dayOf` parameter of the crawl and the `day` parameter of the writer.
- The `last_crawled_at` default of a newly inserted row is also defined in the schema. The model keeps it as None.
- The asyncio lock and the concurrency of `gather` are left out. Limiter calls are sequential, and a round's fetches run one after the other in dispatch order.
- `gather(return_exceptions=True)` can only deliver an exception for a task that raised. `fetch_page` catches every error itself, so that branch (main.py:364-365) is unreachable and not modelled.
- Progress printing, the rate and ETA arithmetic and the final statistics (main.py:379-390, main.py:404-415) are float arithmetic and console output.
- Closing the pool and the synchronous `crawl_repositories` wrapper are left out.
- `test.py`, `test/db_connection.py` and `database/db_client.py` are live-service checks and schema loading, and are not part of this model.
- Store.WriteIdempotent: stated for batches whose nodes all carry `updatedAt`. Without it, a repeated flush stores the time of the second flush as `updated_at`, so the row changes.
- RateLimit.ReplayKeepsWindowBound: stated only for a ceiling of at least 1. With a smaller ceiling a recorded call still leaves one timestamp (RateLimit.AcquireWindowBound).
- Client.RunQueryHardLast: stated for a limiter that never raises. An acquire that raises IndexError is also a hard failure, but on an attempt whose reply is never read.
- Crawler.Crawl: after a failed flush the model promises only that the appended nodes are a prefix of the reference trace's, and the committed batches a prefix of the appended nodes.
- Crawl takes the query list as a parameter. The program passes `Queries.SearchQueries()`.
- Surrogate ids are taken from a counter that advances only on inserted rows. PostgreSQL sequences can skip values on conflicts, so the model's ids are one possible assignment of the unique ids the schema guarantees.
