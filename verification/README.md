# Verification of the atgraph backfill

A Dafny model of the Bluesky backfill: the pipeline of page submitters, repo workers, ingest workers and a result
collector; the retry loop around every call; the walk over one repository; the engines' ingest; and the graph that the
Cypher transactions build. `dafny verify dfyconfig.toml` checks it.

## How it is organised

| file | what it models |
|---|---|
| `Errors.dfy` | Go error values by type, text and wrapping; `errors.Unwrap`, `errors.As`, `suppressATProtoErr` |
| `Backoff.dfy` | 64-bit duration arithmetic that wraps, and doubling in unbounded integers |
| `RateLimit.dfy` | `WithRetry` and `calculateWaitTime` as a class with metric counters; a recursive specification and its theorems |
| `RepoWalk.dfy`, `RepoJobs.dfy` | `resolveLexicon`; `getRepo` and a repo worker's job around it |
| `ProfileGraph.dfy`, `Replay.dfy` | the write transactions on a mutable graph; provenance; convergence of replays |
| `Engines.dfy` | the record channel, both engines' `Ingest`, ingest under `WithRetry` |
| `Pipeline.dfy`, `WorkerPool.dfy` | the step machine, and the mutable pool whose turns are its steps |
| `PipelineLaws.dfy`, `PipelineResults.dfy` | what every step keeps, and what follows: exactly once, refinement, accounting |
| `Pagination.dfy` | following cursors; which pages are listed, when `BackfillRepos` returns |
| `PipelineProgress.dfy`, `PipelineShutdown.dfy` | deadlock freedom and run lengths; how cancelled runs end and exactly when a shutdown can hang |
| `PipelineCuts.dfy` | how far into each page a run has got, and what these beginnings hold in jobs, items and fetches that never return |
| `PipelineOrder.dfy`, `PipelineInflight.dfy` | order with one worker; exactly when `jobsInflight` can go negative |
| `Backfill.dfy` | the whole backfill against a network, and the graph after repeated backfills |
| `Bags.dfy` | multisets and sums over a sequence of actors |

One step of the machine is one channel operation, one counter update or one operation call of one goroutine. Any enabled
step may come next, which covers every scheduling and every choice of a `select`. Pages, jobs, items and the number of
workers W are arbitrary. What the outside world answers is data: a script of outcomes per `WithRetry`, an ordered list of
(key, record) pairs per repository, a page per cursor, an environment per transaction.

## What comes out

Behaviour of the code that a reader may not expect. Each is kept as it is and proved:

- An uncancelled `BackfillRepos` can return if and only if the cursors run into one the server does not know: nothing
  closes `results` (`Pagination.BackfillReturnsIff`).
- Cancelling can leave `Start` hanging for ever if and only if beginnings of the listed pages yield more than 2W items and
  contain fewer than W repositories whose fetch never returns (`PipelineShutdown.ShutdownHangsIff`); if all fetches
  return, if and only if the listing holds more than 2W items (`PipelineShutdown.FiniteShutdownHangsIff`, and
  `Backfill.BackfillHangsIff` in terms of the network). The stuck states are characterised exactly, and both kinds come
  about (`PipelineShutdown.StuckIffShape`).
- `jobsInflight` rises per job and falls per item, so an account with n items leaves it at 1 - n
  (`PipelineResults.InflightAtRest`, `Backfill.InflightDrifts`). Cancelled or not, it can go negative if and only if
  some page has a beginning that yields more items than it has active repositories and contains fewer than W whose
  fetch never returns (`PipelineInflight.InflightNegativeIff`).
- An ingest is never retried and every value sent on `results` is nil, whatever the engine returned
  (`Engines.SingleIngestAttempt`, `PipelineResults.ResultsAreNil`).
- Because keys are walked in order and the first unsupported record ends the walk, an account that has posted, reposted,
  liked or blocked contributes no follow (`RepoWalk.FeedActivityHidesFollows`).
- A profile's first ingest sets no handle, and a node first created by a follow never gets a type
  (`ProfileGraph.PropertyProvenance`).
- A repository reported as not found, taken down or deactivated ends its job without an error and without items, also when
  the report comes with status 429 (`Errors.SuppressedIff`, `RepoJobs.FirstCallOfJob`).
- A retried transaction function would close its channel twice and panic; two rows would block it
  (`Engines.ExecuteWrite`).
- The back-off makes min(R, K+1) calls if and only if base * 2^K < 2^63 or the cap R is at most K+1
  (`RateLimit.CallsExactIff`). Without a cap it gives up at all if and only if one of the first 64 machine back-offs
  reaches the maximum wait (`RateLimit.UncappedHintFreeReturnsIff`); `RateLimit.OverflowNeverReturns` is an instance
  that does not. bsky/ratelimit.go:67 fixes the maximum wait at 30 s, so the shipped handler never meets this case.
- Replaying a list of writes |L| times, and at least twice, is enough for the graph's properties as well as its shape;
  |L| cannot be lowered for any length (`Replay.ReplayFixesProperties`, `Replay.ReplayBoundTight`).

## Model

| member | source | states |
|---|---|---|
| Errors.AsFindsFirst | bsky/ratelimit.go:186-190 | `errors.As` finds the first API error among an error and all it wraps, in the order they are met |
| Errors.SuppressedIff | bsky/ratelimit.go:174-207 | an error is suppressed if and only if it has one of the three texts, or the first API error it wraps has status 400 and one of the first two |
| RateLimit.OneCallDecides | bsky/ratelimit.go:84-123 | what one call decides, by the error's type, text, status and hint: nil after one call; the loop going round at once for an API error other than 429; for a 429 the cancellation, the end of the budget with this 429, or the wait for the clamped hint or the capped product and the next call |
| RateLimit.TriedAgainThen | bsky/ratelimit.go:84-123 | failures within the budget cost their calls, and waits base, 2 base, 4 base and so on for the 429s among them; the call after them decides |
| RateLimit.RateLimitHandler.WithRetry | bsky/ratelimit.go:75-146 | the loop gives the result, number of calls and waits of the recursive specification; rate-limit hits, retry counter (twice per completed attempt, as its loop invariant says at every loop head) and failure counters move accordingly |
| RateLimit.RateLimitHandler.CalculateWaitTime | bsky/ratelimit.go:149-171 | the server hint if there is one; else never more than the maximum wait, and exactly base * 2^attempt, base by operation type, while that is at most the maximum |
| RateLimit.LastCallDecides | bsky/ratelimit.go:83-145 | a run that returns has called the operation at least once and stopped at its last call; exhaustion wraps that call's 429 and the budget is spent there |
| RateLimit.EarlierCallsRetry | bsky/ratelimit.go:83-123 | no call before the last is final, and calls = waits + stutters + the final or cancelled one |
| RateLimit.StutteringIsInvisible | bsky/ratelimit.go:84-123 | deleting all API errors other than 429 changes neither result nor waits, and accounts exactly for the calls |
| RateLimit.CappedRunsReturn | bsky/ratelimit.go:84-116 | with a cap R, R outcomes other than stutters make the run return, within R calls plus stutters |
| RateLimit.UncappedHintedReturnsIff | bsky/ratelimit.go:84-117 | without a cap, steady 429s with hints end if and only if one hint reaches a positive maximum wait |
| RateLimit.NoOverflowWithoutHints | bsky/ratelimit.go:166-170 | without hints and with maximum wait at most 2^62, the machine back-off is exact in every state and every wait is the ideal one |
| RateLimit.NoOverflowWithCap | bsky/ratelimit.go:84-170 | with hints mixed in, a cap R with base * 2^(R-1) < 2^63 keeps every wait exact |
| RateLimit.BackoffSchedule | bsky/ratelimit.go:84-171 | steady hint-free 429s, any cap R: exactly min(R, K+1) calls and the waits in closed form, if base * 2^K < 2^63 or the cap ends the loop by call K+1 |
| RateLimit.TotalWaitBound | bsky/ratelimit.go:84-171 | with maximum wait at most 2^62: min(R, K+1) calls, total wait base * (2^R - 1) when the cap ends it, else base * (2^K - 1) + maxWait, always below three times the maximum |
| RateLimit.CallsExactIff | bsky/ratelimit.go:84-170 | for every cap R: min(R, K+1) calls if and only if base * 2^K < 2^63 or 0 < R <= K+1 |
| RateLimit.UncappedHintFreeReturnsIff | bsky/ratelimit.go:84-170 | whatever the durations, steady hint-free 429s without a cap end the loop if and only if one of the first 64 machine back-offs reaches a positive maximum wait, and then with the call after which it first does |
| RateLimit.OverflowNeverReturns | bsky/ratelimit.go:84-170 | an instance with no such back-off: base 2^62, maximum 2^62 + 1 |
| RateLimit.StockSchedule | bsky/ratelimit.go:53-72 | the stock durations give min(R, 7) read or min(R, 6) write calls for every cap R, 7 and 6 without one, and the total wait when the ceiling ends it |
| Backoff.MachineBackoffExact | bsky/ratelimit.go:166 | the shift and the product do not wrap while base * 2^n fits in 63 bits |
| Backoff.MachineBackoffOverflows | bsky/ratelimit.go:166 | one bit more and the machine value is negative |
| RepoWalk.VisitDecides | bsky/repo.go:57-115 | an entry is sent if and only if its record is a profile or a follow in its own collection; else the error tells an unreadable record, a wrong type and an unsupported collection apart |
| RepoWalk.EmittedFields | bsky/repo.go:117-126 | field by field: item k has did, handle, rev, sig and version of the repository, and nsid and record of its k-th entry |
| RepoWalk.ResolveLexicon | bsky/repo.go:47-132 | sends, in order, the items of the longest good prefix with those fields; returns nil if and only if the whole tree was good, else the error of the first entry that is not |
| RepoWalk.LessIff | bsky/repo.go:55-64 | the key order: the first difference decides, a proper prefix comes first |
| RepoWalk.WalkIsLongestGoodPrefix | bsky/repo.go:55-129 | the emitted items are those of the one good prefix that cannot be extended |
| RepoWalk.FollowsEmittedIff | bsky/repo.go:65-115 | follows are emitted if and only if a readable follow is preceded by readable profiles only |
| RepoWalk.EarlierCollectionHidesFollows | bsky/repo.go:55-115 | with sorted keys and normalised collections, a key below the follow collection that is not a profile means only profiles are emitted |
| RepoWalk.FeedActivityHidesFollows | bsky/repo.go:65-115 | a post, repost, like or block record means no follow is emitted |
| RepoJobs.GetRepo | bsky/worker.go:240-283 | the very error of the stage that fails, with nothing sent; a walk error becomes success |
| RepoJobs.ProcessJob | bsky/worker.go:217-235 | a job's result and the items its calls send |
| RepoJobs.WalkRunsAtMostOnce | bsky/worker.go:217-283 | only the last call of a job can reach the walk: a job sends the items of one walk, or nothing |
| RepoJobs.JobIsRetry | bsky/worker.go:217-283 | a job is the retry loop as a read operation over exactly the errors of its stages, whichever of the five they are |
| RepoJobs.FirstCallOfJob | bsky/worker.go:217-283 | by the first call: the repository's items and nil; nil and nothing for an error that is not an API error or is suppressed; the cancellation; else another call |
| RepoJobs.RetriedJobSends | bsky/worker.go:217-283 | after any failures within the budget, from any stages, the call that fetches the repository ends the job, which sends all its items once |
| RepoJobs.StockJobGivesUp | bsky/worker.go:217-227 | steady 429s from any stages: the stock configuration gives the job up after min(R, 7) calls, nothing sent |
| Engines.RecordChannel.Send | graph/neo4j/ingest.go:171 | send on the capacity-1 channel: sent, blocked when full, panic when closed |
| Engines.ExecuteWrite | graph/neo4j/ingest.go:132-174 | running the transaction function completes if and only if it runs at most once and yields at most one row; then the channel is closed with at most one record |
| Engines.Drain | graph/neo4j/ingest.go:29-54 | the receive loop over a closed channel makes exactly one receive more than it holds, unless it meets the cancelled context |
| Engines.Neo4jEngine.Transact | graph/neo4j/ingest.go:126-234 | success if and only if the transaction commits, then the channel is closed with the rows of the query; else the first failing stage's error; the graph changes by exactly that write, or not at all |
| Engines.Neo4jEngine.Ingest | graph/neo4j/ingest.go:20-118 | the whole new graph in the item's own fields: the one relationship of a follow from a node that is there, its subject's bare node, the new or updated profile, or no change; nil or a joined error with its cause, never a bare API error; the receives |
| Engines.IngestIsWrite | graph/neo4j/ingest.go:139-214 | the queries' parameters: what the write of an item does to any graph, field by field, creation time in milliseconds of whole seconds |
| Engines.FillBlock | graph/clickhouse/ingest.go:141-182 | the insert block is the one row of the item column by column, creation time in nanoseconds, version cut to 8 bits; the created column is empty if the time does not parse, and only then is the block not rectangular |
| Engines.ClickHouseProfile | graph/clickhouse/ingest.go:126-198 | hands the server the row of the item whenever it is connected; the channel is always closed, with one record exactly on success |
| Engines.ClickHouseIngest | graph/clickhouse/ingest.go:22-118 | hands over the row of a profile, column by column, and nothing for any other item; nil or a joined error with its cause; the receives |
| Engines.SingleIngestAttempt | bsky/worker.go:171-188 | an ingest that returns nil or a joined error is called once and WithRetry returns nil |
| Engines.IngestReport | bsky/worker.go:171-188 | the value an ingest worker sends on results is nil |
| Engines.WalkItemsAreWritten | bsky/repo.go:71-78 | every emitted item has a query in the graph engine |
| ProfileGraph.Database.MergeProfile | graph/neo4j/ingest.go:139-155 | MERGE with ON CREATE and ON MATCH, one row |
| ProfileGraph.Database.MergeFollow | graph/neo4j/ingest.go:200-204 | MATCH source, MERGE target, MERGE relationship; one row if the source exists, else none and no change |
| ProfileGraph.EdgesStayAnchored | graph/neo4j/ingest.go:200-204 | edge end points exist after any history |
| ProfileGraph.BirthIsForever | graph/neo4j/ingest.go:139-155 | nodes and edges stay; type, created and ingested never change |
| ProfileGraph.PropertyProvenance | graph/neo4j/ingest.go:139-155 | after any history from the empty graph: birth properties from the creating event if it was a profile ingest, sync properties from the last profile ingest that found the node |
| Replay.ReplayConverges | graph/neo4j/ingest.go:139-214 | as many passes over L as L has writes, each in its own order, reach a graph no further pass adds to |
| Replay.FixedPointIsClosure | graph/neo4j/ingest.go:139-214 | its ids are the start and profile ids closed under the follows of L, its edges the start edges and the follows with a source among them, both directions |
| Replay.ReplayOrderIrrelevant | graph/neo4j/ingest.go:139-214 | any two such replays of permutations of L end with the same ids and edges |
| Replay.OnePassSuffices | graph/neo4j/ingest.go:200-204 | one pass is enough if every follow comes after its source's profile |
| Replay.OnePassSufficesIff | graph/neo4j/ingest.go:200-204 | one pass is enough if and only if every follow whose source is there in the end has come after its source, itself or in a repetition |
| Replay.ReplayFixesProperties | graph/neo4j/ingest.go:139-155 | after as many replays of L in its own order as L has writes, and at least two, a further one changes nothing but `updated` |
| Replay.OnePassTooFewForProperties | graph/neo4j/ingest.go:139-155 | the second pass is needed: after one ingest of any single profile the next still changes its properties |
| Replay.ReplayBoundTight | graph/neo4j/ingest.go:200-214 | for every length n there is a list whose replays reach the fixed point with the n-th pass and no earlier, so neither bound can be lowered |
| WorkerPools.WorkerPool.constructor | bsky/worker.go:47-128 | the pool starts in the machine's initial state |
| WorkerPools.WorkerPool.ListRepos | bsky/backfill.go:37-97 | a page and its submitter, or the listing error; whole new state |
| WorkerPools.WorkerPool.Submit | bsky/worker.go:134-146 | an error for a job without a repository; else the select: refused by context or done, accepted into a free place, else nothing moves |
| WorkerPools.WorkerPool.SubmitPage | bsky/backfill.go:75-95 | filter, count up, Submit, count down on failure |
| WorkerPools.WorkerPool.RepoTurn | bsky/worker.go:193-238 | one turn of a repo worker and the walk it runs |
| WorkerPools.WorkerPool.IngestTurn | bsky/worker.go:148-191 | one turn of an ingest worker |
| WorkerPools.WorkerPool.CollectorTurn | bsky/backfill.go:14-32 | one turn of the collector |
| WorkerPools.WorkerPool.ContextTurn | bsky/worker.go:120-123 | cancellation, then the done channel |
| WorkerPools.WorkerPool.SafeTurn | bsky/worker.go:99-238 | every turn keeps the pool reachable, with all laws and every emitted item in exactly one place |
| PipelineLaws.InvStep | bsky/worker.go:134-238 | every step keeps the capacities, the job, item, flow, order and counter laws and the nil results |
| PipelineLaws.ReachableInv | bsky/backfill.go:10-98 | so every reachable state has them, before and after cancellation |
| PipelineResults.ExactlyOnce | bsky/worker.go:160-188 | every emitted item is in exactly one of items, an ingest worker, results, the collector, the consumed set; each received item owes exactly one result; ingest is called at most once for it |
| PipelineResults.RefinesNestedLoop | bsky/backfill.go:75-95 | at rest and uncancelled, the multiset of ingested items is that of the nested loop over the listed pages, for every W and interleaving |
| Pagination.PaginationComplete | bsky/backfill.go:34-50 | against cursors that run through a finite listing, every page is listed once and every active repository accepted once |
| Pagination.ReachableListed | bsky/backfill.go:34-97 | in every reachable state the pages listed are those along the cursors followed from "", and the lister stands at the next one, at the end, or at a failure |
| Pagination.BackfillReturnsIff | bsky/backfill.go:14-52 | an uncancelled BackfillRepos can return if and only if the cursors followed from "" reach one the server does not know, and then with the listing error |
| Pagination.ReturnedAtRestIff | bsky/backfill.go:34-52 | over a finite listing, an uncancelled backfill at rest has returned if and only if the listing ends in a failing request |
| PipelineResults.ResultsAreNil | bsky/backfill.go:20-27 | no error ever reaches the collector |
| PipelineResults.AnyOutcomeIsReportedNil | bsky/worker.go:171-188 | whatever an engine may return, nil or joined, can come of the ingest of a held item, and what is then reported for that item is nil |
| PipelineResults.InflightAccounting | bsky/backfill.go:81-92 | jobsInflight is accepted jobs plus unresolved submissions minus results subtracted, in every reachable state |
| PipelineResults.InflightAtRest | bsky/backfill.go:28-29 | at rest it is jobs accepted minus items emitted |
| PipelineResults.InflightNeverNegative | bsky/backfill.go:81-92 | whatever the fetches do, it is never negative while no accepted job has more than one item; the exact condition is the next but one |
| PipelineInflight.InflightIsOffered | bsky/backfill.go:75-95 | uncancelled, it is the active repositories gone past minus the results subtracted |
| PipelineInflight.InflightNegativeIff | bsky/backfill.go:28-92 | for every listing, cancelled or not: it can go negative if and only if some page has a beginning that yields more items than it has active repositories and contains fewer than W whose fetch never returns |
| PipelineResults.BackPressure | bsky/worker.go:50-52 | at most 3W jobs accepted and unfinished, at most 5W items emitted whose result is not received |
| PipelineProgress.DeadlockFree | bsky/worker.go:148-238 | W >= 1, no cancellation, fetches that return: a state not at rest has an enabled step, however full the buffers |
| PipelineProgress.MeasureStep | bsky/worker.go:134-238 | over a listing that ends, in success or failure: every step, cancelled or not, lowers the steps still to come; every uncancelled one by exactly one |
| PipelineProgress.RunLength | bsky/backfill.go:10-53 | an uncancelled run is at rest if and only if it has made a number of steps fixed by the listing alone, and can never make more |
| PipelineProgress.EveryRunEnds | bsky/backfill.go:10-53 | no run, cancelled at any point or never, is longer than that number plus 2W + 3 |
| PipelineProgress.DriveToRest | bsky/backfill.go:10-53 | from any healthy state rest can be reached, in as many steps as the measure says |
| PipelineShutdown.StuckIffShape | bsky/worker.go:152-236 | after cancellation, a live worker and no worker step now or later if and only if one of the two shapes holds; never both |
| PipelineShutdown.ShapePersists | bsky/worker.go:188 | both shapes persist in every continuation |
| PipelineCuts.ReachableTaken | bsky/worker.go:134-207 | in every uncancelled reachable state the jobs taken are beginnings of the listed pages, what follows being in the jobs channel in order or in a submitter's hand |
| PipelineCuts.BegunWithinCuts | bsky/worker.go:207-283 | in every reachable state, the items of walks begun come from beginnings of the pages with fewer than W fetches that never return |
| PipelineShutdown.CancelledRunEnds | bsky/worker.go:99-130 | where a cancelled run can go no further, BackfillRepos has returned, done is closed, and the workers have all left or are in one of the two shapes; all left if no beginnings of the pages overfill a channel |
| PipelineShutdown.CancellationTakesNothingAway | bsky/worker.go:152-189 | a select keeps its other cases and the sends are not guarded: cancelling disables no step but calls of getRepo and the cancellation itself |
| PipelineShutdown.CancelledFetchGivesUp | bsky/worker.go:217-258 | a worker found fetching at the cancellation gives its job up, having sent nothing of it |
| PipelineShutdown.CancelledCanReturn | bsky/backfill.go:14-95 | from every cancelled state, whatever the listing and however full the channels, BackfillRepos and its group can finish by their own steps alone, accepting nothing more |
| PipelineShutdown.ShutdownHangsIff | bsky/worker.go:130-188 | for every W and every listing: a cancelled state from which Start returns in no continuation is reachable if and only if beginnings of the pages yield more than 2W items and contain fewer than W repositories whose fetch never returns; likewise for each of the two shapes |
| PipelineShutdown.FiniteShutdownHangsIff | bsky/worker.go:130-188 | over a finite listing: if and only if beginnings of its own pages do; when all fetches return, if and only if its pages together hold more than 2W items |
| PipelineOrder.SingleWorkerOrder | bsky/worker.go:148-238 | W = 1: in every state emitted = ingested, then the item held, then the items queued; ingested = results received, then queued, then to be reported; uncancelled, emitted is the loop's sequence so far |
| PipelineOrder.SingleWorkerRefinesLoop | bsky/worker.go:148-238 | W = 1: at rest ingest was called in the order of the loop over the accepted jobs |
| Backfill.BackfillRefinesLoop | bsky/backfill.go:10-98 | end to end: the engine is handed exactly the items of the sequential backfill of the network |
| Backfill.CappedFetchesReturn | bsky/worker.go:217-227 | a retry cap makes every fetch return, which is all that progress asks of the network |
| Backfill.BackfillLength | bsky/backfill.go:10-98 | end to end: an uncancelled backfill is at rest if and only if it has made the number of steps that the network's calls and walk items fix, for any number of workers |
| Backfill.WriteOfIsIngest | graph/neo4j/ingest.go:139-214 | the transaction an item stands for is what the engine does with it |
| Backfill.BackfillHangsIff | bsky/worker.go:99-130 | end to end: cancelling can leave the pool hanging if and only if beginnings of the network's pages do, counted in walk items and fetches that never return; when all fetches return, if and only if the sequential backfill has more than 2W items |
| Backfill.RepeatedBackfillsConverge | graph/neo4j/ingest.go:139-214 | repeated backfills of one network, with any numbers of workers, interleavings and orders of commit, drive the graph to the closure |
| Backfill.InflightDrifts | bsky/backfill.go:28-29 | one account with n items leaves jobsInflight at 1 - n |

## Left out

- Engines.Neo4jEngine.Transact: the transaction function runs once and transactions are serial; `Engines.ExecuteWrite` says exactly when more runs go wrong.
- Backfill.RepeatedBackfillsConverge: every ingest of a finished backfill is taken to commit.
- Calls of `getRepo` under a cancelled context: they end in an error before the walk, and which one is not modelled; the job is given up.
- RateLimit.RateLimitHandler.WithRetry: the attempt counter is unbounded; it would wrap only after 2^63 attempts.
- Engines.FillBlock: the server's answer to a block that is not rectangular is part of the environment.
- XRPC, HTTP, identity lookup, CAR and CBOR decoding: their outcomes are data.
- NSID normalisation and MST iteration in the indigo library: an entry carries its normalised collection, and key order is a premise where it matters.
- RFC 3339 parsing: a parsed time or none.
- The texts of library errors: error texts are arbitrary, only comparisons with the three suppressed texts matter.
- Wall-clock time: waits are accumulated durations, hints are the time left.
- Telemetry other than the retry, failure and in-flight counters; logging; `StartMonitor`.
- Deadline and scheduling of the driver session, ClickHouse storage and merges, generated query code.
- The `main` programs, environment and firehose.
- A worker count below one and nil `Active` pointers.
