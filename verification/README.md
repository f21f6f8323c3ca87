# Wazuh MCP gateway: models and proofs

A Dafny 4.11 model of the parts of the gateway that keep state under concurrency or compile one language into another,
with proofs of what those parts promise. `dafny verify dfyconfig.toml` checks everything.

Each file is one component. A file opens with the data and the specification functions, follows with a class or methods
in the form of the source (fields that methods reassign, the source's loops) proved against those functions, and closes
with the theorems. Components that run interleaved are also given as step systems: a world, one event for each stretch of
code between two awaits, and theorems over every finite run.

| file | component |
|---|---|
| `TokenBuckets.dfy` | the token bucket: exact window accounting and optimality |
| `LocalLimiter.dfy`, `LimiterWindows.dfy` | the in-process two-tier limiter, and its answers told by the windows of both tiers |
| `RedisBucket.dfy` | the Lua script, the time to live of its keys, the key names |
| `Readings.dfy` | what the script grants on readings in any order |
| `CircuitBreaker.dfy` | the three-state breaker, as an object and as a timed system of calls in flight |
| `Fleet.dfy`, `RedisLimiter.dfy` | N replicas over one Redis with open breakers, timeouts and local fallbacks |
| `SharedLedger.dfy`, `FleetBounds.dfy` | what the whole fleet lets through, by readings, by running time and by return |
| `FleetOutcomes.dfy` | how calls of the fleet end, and which errors the fallback covers |
| `FleetBreakers.dfy`, `FleetFallbacks.dfy` | when a replica sends a script, and what its own limiter answers otherwise |
| `FleetRuns.dfy`, `FleetInstants.dfy` | the runs in which those bounds fail, and exactly when they do |
| `Delivery.dfy`, `AuditSink.dfy`, `QueuedSinks.dfy`, `SinkFates.dfy` | the audit queue: retry, the ledger of events, the drain loops, where each batch ends up |
| `FileRotation.dfy`, `BulkIndex.dfy` | the file sink's rotation; the indexer sink's idempotent retry |
| `XmlText.dfy`, `XmlReader.dfy`, `RuleXml.dfy`, `RuleReader.dfy`, `RuleRoundTrip.dfy` | rule definitions to XML and back |
| `Hunt.dfy` | the hunting grammar and its compilation to an OpenSearch bool query |
| `SecretCache.dfy` | the single-flight secret cache |
| `Jwks.dfy` | the signing-key cache and its refresh throttle |
| `IssuerIndex.dfy` | the issuer index and tenant resolution |
| `Prelude.dfy`, `Numerals.dfy` | shared vocabulary |

## Assumptions

- Floats are reals. Redis, HTTP, the indexer and the inner secret store are steps that succeed, fail or time out as they like.
- The fleet reads one shared clock in whole milliseconds that never goes back. A replica reads it before it sends a script,
  as the code does, and the script runs with that reading at any later time; theorems that need a limit on this lag state
  it (`TimelyRun`). Redis loses a key only after its expiry. Replicas share one configuration.
- Code between two awaits is atomic, as asyncio makes it.
- The XML reader follows XML 1.0 (sections 2.2, 2.4, 2.11, 3.3.3, 4.1 and 4.6) for what the printer emits: one element with
  text-only children, ASCII names, decimal references. A Dafny character is never a surrogate.
- An index refuses a search whose date math it cannot read, or with a value it cannot read for its field. Which values
  those are, in which fields it looks for prefixes, and how it compares values are parameters.

## Where the code is not what its text says

- `redis_limiter.py:138` catches `Exception`, and a cancellation is not one: cancelled probes keep their place in the
  HALF_OPEN budget. HALF_OPEN can be left exactly while a call is pending, stale ones included, or a probe of the budget
  was not cancelled (`CanLeaveHalfOpenIff`); when the call timeout is shorter than the open duration, a window whose probes
  were all cancelled is never left (`WedgedIffAllProbesCancelled`), otherwise a stale call may end it (`StaleCallRescues`),
  so that losing all probes decides exactly for those configurations (`OnlyCancellationsWedgeIff`).
- A call admitted while CLOSED can decide a later HALF_OPEN window. It cannot exactly when the call timeout is shorter than
  the open duration (`ProbeIntegrity`); the constructor accepts either.
- The comments at `token_bucket.lua:30` and `docs/deploy/redis.md:100` promise that a clock reading behind the stored one
  credits nothing. The script stores the older reading, so the next one is credited the same time again
  (`StaleTimestampOvergrants`): between two positions the window bound holds for all buckets and requests exactly when no
  reading between them steps back (`WindowBoundIffNeverBack`); the forward steps are what is credited (`ForwardBound`).
- The replica reads the clock before it sends a script (`redis_limiter.py:240`), so scripts that overtake one another are
  enough to bring readings out of order: the fleet bound holds in all runs only when scripts never lag
  (`FleetBoundIffPrompt`, `OutOfOrderIsUnbounded`). It holds in every run whose readings stay in order (`FleetBound`), and
  with the backward steps added in every run (`FleetBoundInAnyOrder`).
- Counted by their return the calls of a window have no bound (`ReturnsAloneAreUnbounded`) unless the shared window is
  extended by the longest call (`FleetBoundByReturn`). At a single instant the plain bound holds for calls of at most d
  milliseconds exactly when r * d < 1000 (`InstantBoundIff`).
- The fallback is promised for every Redis call failure, server errors included (`redis_limiter.py:189-192`). Errors other than
  connection errors and timeouts escape `acquire` (`ErrorEscapes`): an error has escaped from a call exactly if such an
  error met it with its script out or its reply unused (`RaisedIff`), and in runs without them and without cancellations
  every finished call was let through or refused by a limiter (`FallbackAnswers`).
- Two tenants can share a session key exactly when one id, with a colon after it, starts the other
  (`SessionKeysCollideIff`).
- The base sink abandons an event on stop without recording a drop; the batched loops call `task_done` before sending, so a
  stop can lose a batch that `join` no longer counts (`BatchedStopCanLoseEvents`), and does exactly when there is one in
  hand (`StopLosesExactlyTheBatch`).
- With `keep` below one a rotation overwrites archive 1; no other rename overwrites a file (`LastRenameOverwritesIff`).
- A time range "up to 30d" excludes 30d itself, however it is spelled (`ThirtyDaysAreRefused`). One that ends in a newline
  passes validation and fails in the index, and so does a value that its field cannot hold, such as text for `rule.level`
  (`CompilationPreservesMeaning`).
- Pages of a hunt are chained by the sort values of the last hit, and the sort is by timestamp alone: the next page begins
  with the next hit exactly if that hit does not share the last one's timestamp; those that do are skipped
  (`PagesFollowIff`).
- A cancelled waiter of a secret cancels the future its whole flight shares (`EveryoneHearsTheFetch`, `CancellationSpreads`),
  and an invalidation during a fetch is undone by that fetch (`InvalidationIsFinalIff`).
- Issuers are stored without their final slashes and compared to a token's as it stands, so a token whose issuer ends in a
  slash is never accepted (`AcceptedIff`); `oauth_issuer` is a `HttpUrl`, whose text ends in one when there is no path.
- A miss is not throttled by the refreshes of discovery, and a second miss during a refresh does not wait for it
  (`RefreshesExactlyWhenAllowed`).

## Model

| member | source | states |
|---|---|---|
| TokenBuckets.TokenBucket.Create | src/wazuh_mcp/rate_limit/token_bucket.py:15-30 | a bucket is made, full, exactly for a positive capacity and refill |
| TokenBuckets.TokenBucket.RefreshTokens | src/wazuh_mcp/rate_limit/token_bucket.py:32-37 | the new state: refilled for positive elapsed time only, clamped, stamped |
| TokenBuckets.TokenBucket.TryAcquire | src/wazuh_mcp/rate_limit/token_bucket.py:39-44 | the new state and the verdict, as the specification all window theorems are about |
| TokenBuckets.WindowBound | src/wazuh_mcp/rate_limit/token_bucket.py:22-44 | every window [s, t] of every run grants at most c + r(t - s) |
| TokenBuckets.GrantedIffWindowsAllow | src/wazuh_mcp/rate_limit/token_bucket.py:22-44 | a request is granted iff granting it keeps every window ending now within c + r(t - s) |
| TokenBuckets.RefusedRequestHasFullWindow | src/wazuh_mcp/rate_limit/token_bucket.py:39-44 | a refusal names a window that the request would overfill |
| TokenBuckets.NoPolicyGrantsMore | src/wazuh_mcp/rate_limit/token_bucket.py:22-44 | no choice of unit requests that respects every window ever grants more than the bucket has |
| LocalLimiter.InProcessRateLimiter.TakeTenantToken | src/wazuh_mcp/rate_limit/limiter.py:52-59 | one token from the tenant's bucket, made full on first use; session buckets untouched |
| LocalLimiter.InProcessRateLimiter.TakeSessionToken | src/wazuh_mcp/rate_limit/limiter.py:60-68 | the same for the session's bucket; tenant buckets untouched |
| LocalLimiter.InProcessRateLimiter.AcquireToken | src/wazuh_mcp/rate_limit/limiter.py:49-68 | over dictionaries of bucket objects: both tiers in order, a session refusal leaving the tenant token spent |
| LocalLimiter.TenantNonInterference | src/wazuh_mcp/rate_limit/limiter.py:46-68 | what a tenant sees of any interleaved run is what it would see of its own calls alone |
| LocalLimiter.LazyCreationIsInvisible | src/wazuh_mcp/rate_limit/limiter.py:52-61 | creating buckets on first use gives every outcome that creating them full beforehand gives |
| LimiterWindows.AnsweredAsDue | src/wazuh_mcp/rate_limit/limiter.py:46-68 | over every run with a clock that never goes back: refused by the tenant's tier iff some window of the tenant ending now has no room, by the session's tier iff only some window of the session has none (the tenant token stays spent), granted iff all have |
| LimiterWindows.SessionWindowBound | src/wazuh_mcp/rate_limit/limiter.py:60-68 | the calls of one session granted in [s, t] number at most the session's c + r(t - s) |
| LimiterWindows.TenantWindowBound | src/wazuh_mcp/rate_limit/limiter.py:49-59 | the same for a tenant, counting also the calls that only their session refused |
| LimiterWindows.SessionsMeetInTheTenant | src/wazuh_mcp/rate_limit/limiter.py:46-68 | the other sessions of a tenant matter to a call only through the tokens they took from the tenant's bucket |
| RedisBucket.ScriptMatchesBucket | src/wazuh_mcp/rate_limit/lua/token_bucket.lua:12-46 | at every clock reading the script's reply and stored state are the in-process bucket's |
| RedisBucket.MissingKeyIsFull | src/wazuh_mcp/rate_limit/lua/token_bucket.lua:22-26 | a missing key is a full bucket |
| RedisBucket.TtlCoversBothBuckets | src/wazuh_mcp/rate_limit/redis_limiter.py:169-179 | within half the time to live an empty bucket of either tier refills; that half is at least 30 seconds |
| RedisBucket.ExpiryIsInvisible | src/wazuh_mcp/rate_limit/lua/token_bucket.lua:36-46 | along any run, readings in any order and lagging behind Redis, replies are those of a key that never expires |
| RedisBucket.ExpiryIsInvisibleIff | src/wazuh_mcp/rate_limit/lua/token_bucket.lua:36-46 | expiry goes unnoticed in all runs of a given lag iff an empty bucket refills in the time to live less that lag |
| RedisBucket.CodeTtlIsInvisible | src/wazuh_mcp/rate_limit/redis_limiter.py:169-179 | the time to live the code computes hides expiry for both tiers of any configuration while scripts lag at most half of it |
| Readings.ForwardBound | src/wazuh_mcp/rate_limit/lua/token_bucket.lua:28-46 | over any run, the scripts of any stretch are granted at most c + r times the sum of the forward steps of their readings |
| Readings.StepBackBound | src/wazuh_mcp/rate_limit/lua/token_bucket.lua:28-46 | in terms of the first and last reading: the window bound plus r times the backward steps between them |
| Readings.WindowBoundIffNeverBack | src/wazuh_mcp/rate_limit/lua/token_bucket.lua:28-46 | for readings with ends in order the window bound holds for all rates and request sizes iff none between them steps back |
| Readings.StaleTimestampOvergrants | src/wazuh_mcp/rate_limit/lua/token_bucket.lua:28-44 | for all k, readings that take turns grant k + 1 where the window allows two |
| RedisBucket.TenantKeysAreDistinct | src/wazuh_mcp/rate_limit/redis_limiter.py:218-222 | tenant keys name one tenant and are never session keys |
| RedisBucket.SessionKeysAreDistinct | src/wazuh_mcp/rate_limit/redis_limiter.py:221-222 | without colons in tenant ids, session keys name one session |
| RedisBucket.SessionKeysCollideIff | src/wazuh_mcp/rate_limit/redis_limiter.py:221-222 | some sessions of two tenants share a key iff one id with its colon is a prefix of the other with its colon |
| RedisBucket.ColonsCollide | src/wazuh_mcp/rate_limit/redis_limiter.py:221-222 | with colons two sessions can share a key |
| CircuitBreaker.RedisCircuitBreaker.Create | src/wazuh_mcp/rate_limit/redis_limiter.py:56-84 | a breaker is made exactly for a valid configuration, CLOSED and blank |
| CircuitBreaker.RedisCircuitBreaker.MoveTo | src/wazuh_mcp/rate_limit/redis_limiter.py:90-113 | a transition's whole new state; none when the state is the same |
| CircuitBreaker.RedisCircuitBreaker.AdmitCall | src/wazuh_mcp/rate_limit/redis_limiter.py:124-133 | the admission section: promotion, refusal while OPEN, the probe budget |
| CircuitBreaker.RedisCircuitBreaker.Succeeded | src/wazuh_mcp/rate_limit/redis_limiter.py:145-150 | the new state after a success is recorded |
| CircuitBreaker.RedisCircuitBreaker.Failed | src/wazuh_mcp/rate_limit/redis_limiter.py:152-166 | the new state after a failure is recorded, a stale one included |
| CircuitBreaker.BreakerHistory | src/wazuh_mcp/rate_limit/redis_limiter.py:90-166 | over every run: CLOSED counts exactly the trailing failures, below the threshold; OPEN and HALF_OPEN hold the threshold and the latest failure's instant; HALF_OPEN counts its window's probes within 1..max |
| CircuitBreaker.StateChanges | src/wazuh_mcp/rate_limit/redis_limiter.py:90-166 | over every run, each change of state iff its cause: OPEN only to HALF_OPEN, by an arrival after cooling; HALF_OPEN by the first result; CLOSED only to OPEN, by the threshold-th failure in a row; the last transition names the change |
| CircuitBreaker.CallsInFlight | src/wazuh_mcp/rate_limit/redis_limiter.py:124-150 | over every run, a call starts iff CLOSED, or OPEN and cooled since the latest failure, or HALF_OPEN with probes left |
| CircuitBreaker.NothingStartsWhileCooling | src/wazuh_mcp/rate_limit/redis_limiter.py:115-166 | from an open breaker nothing starts, and it stays open, until the open duration after the latest failure, whatever is recorded meanwhile |
| CircuitBreaker.OpenAdmitsAfterCooling | src/wazuh_mcp/rate_limit/redis_limiter.py:115-133 | while OPEN a call is admitted iff the open duration has passed since the latest failure |
| CircuitBreaker.HalfOpenNeverWedges | src/wazuh_mcp/rate_limit/redis_limiter.py:124-166 | without cancellation HALF_OPEN has a pending probe, its counter counts exactly those, and any result ends the window |
| CircuitBreaker.HalfOpenIsBrief | src/wazuh_mcp/rate_limit/redis_limiter.py:124-166 | without cancellation HALF_OPEN lasts at most one call timeout |
| CircuitBreaker.BudgetLostIffAllProbesCancelled | src/wazuh_mcp/rate_limit/redis_limiter.py:130-140 | the budget is exhausted with no probe left iff every probe of the window was cancelled |
| CircuitBreaker.CanLeaveHalfOpenIff | src/wazuh_mcp/rate_limit/redis_limiter.py:124-166 | in every reachable state some later run leaves HALF_OPEN iff a call is pending or a probe of the budget was not cancelled |
| CircuitBreaker.WedgedIffAllProbesCancelled | src/wazuh_mcp/rate_limit/redis_limiter.py:124-166 | over punctual runs with the call timeout below the open duration, HALF_OPEN is never left again iff all its probes were cancelled |
| CircuitBreaker.StaleCallRescues | src/wazuh_mcp/rate_limit/redis_limiter.py:124-166 | for every other configuration a punctual run in which all probes were cancelled and a stale call still ends the window |
| CircuitBreaker.OnlyCancellationsWedgeIff | src/wazuh_mcp/rate_limit/redis_limiter.py:115-166 | over all punctual runs "never left iff all probes cancelled" holds iff the call timeout is below the open duration |
| CircuitBreaker.WedgedForever | src/wazuh_mcp/rate_limit/redis_limiter.py:124-166 | with its budget exhausted and no call pending a breaker never changes and never admits a call again |
| CircuitBreaker.CancellationWedges | src/wazuh_mcp/rate_limit/redis_limiter.py:136-140 | every configuration has a punctual run that gets there |
| CircuitBreaker.ProbeIntegrity | src/wazuh_mcp/rate_limit/redis_limiter.py:115-166 | over punctual runs only a window's own probes are pending in it, iff the call timeout is below the open duration |
| CircuitBreaker.StaleCallReachesWindow | src/wazuh_mcp/rate_limit/redis_limiter.py:115-166 | otherwise a run in which a call admitted while CLOSED is pending in HALF_OPEN |
| FleetBounds.FleetBound | src/wazuh_mcp/rate_limit/redis_limiter.py:234-339 | over every interleaving of N replicas whose readings reach the tenant key in order, the calls let through on readings of [s, t] number at most (N + 1)(c + r(t - s)) |
| FleetBounds.FleetBoundPrompt | src/wazuh_mcp/rate_limit/redis_limiter.py:234-339 | scripts that do not lag keep their readings in order, so the bound holds in all such runs |
| FleetBounds.FleetBoundInAnyOrder | src/wazuh_mcp/rate_limit/redis_limiter.py:234-339 | for readings in any order, the calls let through on tokens taken in [s, t]: the lag and the backward steps widen the shared window, and nothing else does |
| FleetRuns.OutOfOrderIsUnbounded | src/wazuh_mcp/rate_limit/redis_limiter.py:234-339 | for any k, one replica and one clock, a run in which k calls are let through on readings of a window that allows two tokens a bucket |
| FleetRuns.FleetBoundIffPrompt | src/wazuh_mcp/rate_limit/redis_limiter.py:234-339 | the bound holds for all settings and all runs of a given lag iff that lag is zero |
| FleetBounds.EveryCallHoldsAToken | src/wazuh_mcp/rate_limit/redis_limiter.py:275-339 | each call let through holds a token of the shared bucket or of its own replica's fallback |
| FleetBounds.FleetBoundWithin | src/wazuh_mcp/rate_limit/redis_limiter.py:275-339 | the bound of `FleetBound` for calls that begin and return in [s, t] |
| FleetBounds.FleetBoundByReturn | src/wazuh_mcp/rate_limit/redis_limiter.py:275-339 | counted by return: the shared window extended by the longest call, the N local ones as they are |
| FleetInstants.InstantBoundIff | src/wazuh_mcp/rate_limit/redis_limiter.py:275-339 | at one instant at most (N + 1)c calls of up to d milliseconds return, in all runs, iff r * d < 1000 |
| FleetRuns.ReturnsAloneAreUnbounded | src/wazuh_mcp/rate_limit/redis_limiter.py:275-339 | for any k, a run in which k calls return in a millisecond that allows two tokens a bucket |
| FleetOutcomes.RaisedIff | src/wazuh_mcp/rate_limit/redis_limiter.py:275-339 | over every run, a call raised by refusal, escaped error or cancellation iff an event met it that way; an error escapes iff it is neither a connection error nor a timeout |
| FleetOutcomes.FallbackAnswers | src/wazuh_mcp/rate_limit/redis_limiter.py:189-192 | without such errors and cancellations every finished call was let through or refused by a limiter |
| FleetOutcomes.ErrorEscapes | src/wazuh_mcp/rate_limit/redis_limiter.py:293-301 | for every configuration, a run of one call from which an error escapes |
| FleetBreakers.ShadowMirrors | src/wazuh_mcp/rate_limit/redis_limiter.py:124-143 | over every run, each replica's breaker and its calls at Redis are those of a breaker run made of the replica's entries, replies, failures and cancellations |
| FleetBreakers.SendsOrFallsBack | src/wazuh_mcp/rate_limit/redis_limiter.py:281-292 | a ready call sends its script iff what its replica has been through lets it: closed, cooled since the latest failure, or fewer than the maximum sent since HALF_OPEN; otherwise it falls back |
| FleetBreakers.HalfOpenSendsFew | src/wazuh_mcp/rate_limit/redis_limiter.py:130-133 | in HALF_OPEN a replica has sent between one and the maximum of scripts |
| FleetBreakers.CoolingSendsNothing | src/wazuh_mcp/rate_limit/redis_limiter.py:115-129 | from an open breaker a replica sends nothing until the open duration after its latest failure |
| FleetFallbacks.FallbackIsRan | src/wazuh_mcp/rate_limit/redis_limiter.py:224-230 | a replica's own limiter is exactly what the calls that fell back to it made of it |
| FleetFallbacks.FallbackAnswersAsDue | src/wazuh_mcp/rate_limit/redis_limiter.py:285-301 | a call that falls back is let through iff all windows of both its tiers at that replica have room, and refused otherwise |
| RedisLimiter.RedisRateLimiter.Enter | src/wazuh_mcp/rate_limit/redis_limiter.py:281-292 | on the object, the step the fleet takes: admission, then Redis with a reading of the clock, or the fallback |
| RedisLimiter.RedisRateLimiter.Settle | src/wazuh_mcp/rate_limit/redis_limiter.py:303-339 | on the object, the step the fleet takes: a timely reply is recorded; refusal raises, tenant grant goes on to the session, session grant returns |
| RedisLimiter.RedisRateLimiter.Fail | src/wazuh_mcp/rate_limit/redis_limiter.py:293-301 | on the object, the step the fleet takes: a failure is recorded; only connection errors and timeouts fall back |
| RedisLimiter.RedisRateLimiter.EnsureFallback | src/wazuh_mcp/rate_limit/redis_limiter.py:224-230 | the limiter is created empty once and kept |
| RedisLimiter.RedisRateLimiter.FallBack | src/wazuh_mcp/rate_limit/redis_limiter.py:285-301 | on the object, the step the fleet takes: the local limiter decides; the breaker is untouched |
| Delivery.DeliverWithRetry | src/wazuh_mcp/observability/sinks/base.py:132-153 | between 1 and m attempts; ends at the first that succeeds, is cut off by stop, or is the m-th; bounds on the time waited |
| Delivery.GivesUpIffAllFail | src/wazuh_mcp/observability/sinks/base.py:139-153 | the drop is recorded iff all m attempts fail and no backoff is cut off; the waits total base(2^(m-1) - 1) |
| QueuedSinks.QueuedSink.Put | src/wazuh_mcp/observability/sinks/base.py:56-94 | enqueue, or drop the oldest, on both sides of start, with the join counter right |
| QueuedSinks.QueuedSink.SubmitEvent | src/wazuh_mcp/observability/sinks/base.py:56-94 | a submit is the ledger's submit step |
| QueuedSinks.QueuedSink.StartSink | src/wazuh_mcp/observability/sinks/base.py:96-104 | a start is the ledger's start step: the buffer becomes the queue |
| QueuedSinks.QueuedSink.Send | src/wazuh_mcp/observability/sinks/base.py:127-153 | runs the retry loop and books its verdict in the ledger |
| QueuedSinks.QueuedSink.DrainOne | src/wazuh_mcp/observability/sinks/base.py:123-130 | one turn: what arrives meanwhile, then the oldest event, delivered as the retry loop decides |
| QueuedSinks.QueuedSink.DrainLoop | src/wazuh_mcp/observability/sinks/base.py:120-130 | the state after any script of waits, turn by turn; it ends only after stop with an empty queue |
| QueuedSinks.QueuedSink.Gather | src/wazuh_mcp/observability/sinks/http.py:53-66 | events are taken until the batch is full or the time is up, `task_done` at once |
| QueuedSinks.QueuedSink.BatchedDrainLoop | src/wazuh_mcp/observability/sinks/wazuh_indexer.py:106-126 | the state after any script of waits; it ends only after stop with queue and buffer empty |
| QueuedSinks.DrainedReaches | src/wazuh_mcp/observability/sinks/base.py:120-130 | the base loop takes only steps of the ledger, so every invariant of its runs holds of it |
| QueuedSinks.BatchDrainedReaches | src/wazuh_mcp/observability/sinks/http.py:48-69 | so do the batched loops |
| SinkFates.VerdictTold | src/wazuh_mcp/observability/sinks/base.py:132-153 | the four ends of a delivery told by its attempts: the last made succeeded, all failed, stop cut a backoff off, none was made |
| SinkFates.TurnTakesTheOldest | src/wazuh_mcp/observability/sinks/base.py:120-127 | a turn takes the oldest event that waits, unless its time ran out or none does |
| SinkFates.GatherTakesTheOldest | src/wazuh_mcp/observability/sinks/http.py:53-66 | so does each wait of the batched loops, as long as the batch is not full |
| SinkFates.BaseLoopBooks | src/wazuh_mcp/observability/sinks/base.py:120-153 | over any script of waits, each event handed over is delivered iff its last attempt succeeded, recorded as failed iff all failed, let go of iff cut off by stop or never tried; nothing else is booked |
| SinkFates.BatchedLoopBooks | src/wazuh_mcp/observability/sinks/http.py:48-105 | the same for the batches of the batched loops, where a batch cut off by stop is recorded as failed event by event |
| AuditSink.SinkInvariant | src/wazuh_mcp/observability/sinks/base.py:56-153 | over every run and all kinds of sink: each event is in exactly one place of the ledger; the queue is the last events submitted, at most maxsize; order is kept; the join counter is right; batches cut up what was taken |
| AuditSink.DeliveredInOrder | src/wazuh_mcp/observability/sinks/base.py:120-153 | delivered, in flight and waiting, in this order, is a subsequence of what was submitted |
| AuditSink.StartNeverDrops | src/wazuh_mcp/observability/sinks/base.py:96-104 | starting moves the buffer into the queue unchanged |
| AuditSink.OverflowDropsOldest | src/wazuh_mcp/observability/sinks/base.py:59-94 | an overflow drop happens iff maxsize events wait, and hits the oldest |
| AuditSink.SubmitRaisesOnlyUnbuffered | src/wazuh_mcp/observability/sinks/base.py:59-64 | submit raises iff the sink has not started and maxsize is not positive |
| AuditSink.JoinCoversTheBaseLoop | src/wazuh_mcp/observability/sinks/base.py:106-130 | with the base loop the join counter is zero iff nothing waits or is in flight; cancelling then loses nothing |
| AuditSink.JoinCoversOnlyTheQueueWhenBatched | src/wazuh_mcp/observability/sinks/http.py:60-68 | with the batched loops it is zero iff the queue is empty |
| AuditSink.BatchedStopCanLoseEvents | src/wazuh_mcp/observability/sinks/http.py:60-69 | a run in which stop loses a taken event without a record |
| AuditSink.StopLosesExactlyTheBatch | src/wazuh_mcp/observability/sinks/base.py:106-118 | over every run of a batched sink, a stop after `join` cancels exactly the batch in hand: all events are accounted for iff it is empty |
| FileRotation.FileSink.RotateIfNeeded | src/wazuh_mcp/observability/sinks/file.py:34-49 | the descending loop turns any directory into the shifted one |
| FileRotation.NoRenameOverwrites | src/wazuh_mcp/observability/sinks/file.py:39-48 | whenever the loop moves archive i up, there is no archive i + 1 |
| FileRotation.LastRenameOverwritesIff | src/wazuh_mcp/observability/sinks/file.py:39-49 | the rename of the current file overwrites archive 1 iff keep is below one and there is one |
| FileRotation.FileSink.DeliverLine | src/wazuh_mcp/observability/sinks/file.py:51-54 | rotate if due, then append |
| FileRotation.RotationKeepsLatest | src/wazuh_mcp/observability/sinks/file.py:34-54 | from an empty directory: archives oldest to newest, then the current file, are the latest lines written; at most max(keep, 1) archives |
| FileRotation.FilesStaySmall | src/wazuh_mcp/observability/sinks/file.py:34-54 | no file reaches the rotate size plus the longest line; no archive is below the rotate size |
| BulkIndex.BuildBulkBody | src/wazuh_mcp/observability/sinks/wazuh_indexer.py:94-104 | one action per event, in order, all in one day's index, with the event's id if it has one |
| BulkIndex.WrittenReadsBack | src/wazuh_mcp/observability/sinks/wazuh_indexer.py:91-104 | after a clean write each event is found as submitted in "<prefix>-<day>" under its id, the last one if an id repeats; those without an id are added in order; nothing else changes |
| BulkIndex.RetriesAreIdempotent | src/wazuh_mcp/observability/sinks/wazuh_indexer.py:128-162 | partly applied failures of one day, of events with ids, then a success, leave the indices of one clean write |
| BulkIndex.HarmShows | src/wazuh_mcp/observability/sinks/wazuh_indexer.py:91-104 | an applied event without an id, or of another day, leaves a second copy |
| BulkIndex.IdempotentIffHarmless | src/wazuh_mcp/observability/sinks/wazuh_indexer.py:91-162 | for new events, retries are invisible iff every failure was harmless |
| XmlText.EscapeIsOnePass | src/wazuh_mcp/wazuh/rule_render.py:102-104 | the three replacement passes are one character map |
| XmlText.QuoteAttrIsOnePass | src/wazuh_mcp/wazuh/rule_render.py:107-108 | attribute quoting in one pass: which quote, and whether double quotes become references |
| XmlText.NormalizeEscaped | src/wazuh_mcp/wazuh/rule_render.py:102-104 | line-end normalization (section 2.11 of XML 1.0) passes through escaping |
| XmlReader.QuotedValueReadsBack | src/wazuh_mcp/wazuh/rule_render.py:107-108 | a quoted value survives reading and attribute normalization (section 3.3.3 of XML 1.0) |
| XmlReader.PrintedDocumentParses | src/wazuh_mcp/wazuh/rule_render.py:102-147 | a printed document parses iff its characters are legal, and then to itself up to line ends |
| RuleXml.RenderRuleXml | src/wazuh_mcp/wazuh/rule_render.py:111-147 | the list of parts, joined, is the printed document of the rule |
| RuleXml.AppendFields | src/wazuh_mcp/wazuh/rule_render.py:133-135 | one `field` element for each entry, in order |
| RuleXml.AppendOptions | src/wazuh_mcp/wazuh/rule_render.py:143-145 | one `options` element for each entry, in order |
| RuleReader.RuleReadsBack | src/wazuh_mcp/wazuh/rule_render.py:111-147 | reading a rule's document gives the rule, up to the three pairs of rules that print alike |
| RuleReader.SidsReadBack | src/wazuh_mcp/wazuh/rule_render.py:122-123 | the joined rule ids read back, negative ones and none included |
| RuleReader.GroupsReadBack | src/wazuh_mcp/wazuh/rule_render.py:141-142 | group names without commas read back from the joined text |
| Numerals.IntReadsBack | src/wazuh_mcp/wazuh/rule_render.py:117 | `str` of an integer reads back |
| RuleRoundTrip.RenderedIsWellFormed | src/wazuh_mcp/wazuh/rule_render.py:70-147 | the rendering parses iff the character check accepts the rule, and then holds the rule's elements and no others |
| RuleRoundTrip.RoundTrip | src/wazuh_mcp/wazuh/rule_render.py:70-147 | reading the rendering gives the rule's canonical form iff the validator accepts its characters and group names |
| RuleRoundTrip.ComesBackUnchanged | src/wazuh_mcp/wazuh/rule_render.py:41-147 | a valid rule comes back unchanged iff it has no carriage return in its texts and none of the empty lists that print as something else |
| RuleRoundTrip.RenderingIsInjective | src/wazuh_mcp/wazuh/rule_render.py:41-147 | valid rules that print alike have the same canonical form |
| Hunt.TimeRangeSpelling | src/wazuh_mcp/wazuh/query.py:32-48 | the pattern accepts exactly a positive number, a unit, and at most one final newline |
| Hunt.ThirtyDaysAreRefused | src/wazuh_mcp/wazuh/query.py:42-50 | of all strings that match the pattern and span up to thirty days, exactly "30d", "720h" and "43200m", with or without a final newline, are refused |
| Hunt.BuildHuntDsl | src/wazuh_mcp/tools/hunt.py:166-194 | the two loops emit the compiled query with its constant sort, source fields and limit; `must_not` and `search_after` only when not empty |
| Hunt.LeafCount | src/wazuh_mcp/tools/hunt.py:166-183 | the query has one leaf for each clause and one for the time window |
| Hunt.CompilationPreservesMeaning | src/wazuh_mcp/tools/hunt.py:77-194 | for all valid arguments, documents and indices the query matches iff the document is in the window, satisfies all `must` and none of `must_not`; the index refuses the search iff the time range ends in a newline or a clause's value is unreadable for its field |
| Hunt.PageHolds | src/wazuh_mcp/tools/hunt.py:185-194 | a page is the first `size` of the hits meant, newest first, after the cursor if there is one |
| Hunt.PagesFollowIff | src/wazuh_mcp/tools/hunt.py:185-215 | the page after hit k begins with hit k + 1 iff the two do not tie |
| Hunt.PivotIsValid | src/wazuh_mcp/tools/hunt.py:227-264 | a pivot's arguments are valid iff its time range is |
| Hunt.PivotMeans | src/wazuh_mcp/tools/hunt.py:237-270 | a pivot finds the alerts of the window whose primary field holds the value; refused iff the range ends in a newline or the field cannot hold the value |
| SecretCache.CachingSecretStore.FastPath | src/wazuh_mcp/secrets/caching.py:36-42 | the value of a live entry, or nothing |
| SecretCache.CachingSecretStore.Enter | src/wazuh_mcp/secrets/caching.py:45-56 | the first section under the lock: hit, own a new flight, or join one |
| SecretCache.CachingSecretStore.Leave | src/wazuh_mcp/secrets/caching.py:58-74 | the second section: values cached, errors not, the flight gone, the future set unless cancelled |
| SecretCache.CachingSecretStore.Invalidate | src/wazuh_mcp/secrets/caching.py:78-79 | the entry goes, flights stay |
| SecretCache.SingleFlight | src/wazuh_mcp/secrets/caching.py:44-73 | over every interleaving: at most one call fetches a secret, and it is in `_inflight` iff one does |
| SecretCache.NobodyWaitsForNothing | src/wazuh_mcp/secrets/caching.py:50-76 | a waiting call's owner is still fetching, or the call can wake up |
| SecretCache.CacheServesFreshFetches | src/wazuh_mcp/secrets/caching.py:38-49 | cached values were fetched, never raised; a served one was stored less than the time to live ago |
| SecretCache.FetchesOnlyWhenNeeded | src/wazuh_mcp/secrets/caching.py:44-56 | over every run, a call under the lock is served iff the latest value published is younger than the time to live and not invalidated; otherwise it waits for the fetch under way, and fetches iff there is none |
| SecretCache.BeginsWithTheCache | src/wazuh_mcp/secrets/caching.py:36-43 | a call that begins is served at once under the same condition |
| SecretCache.EveryoneHearsTheFetch | src/wazuh_mcp/secrets/caching.py:58-76 | each caller of a flight hears what its fetch answered or raised, iff no waiter cancelled the future |
| SecretCache.WithoutCancellation | src/wazuh_mcp/secrets/caching.py:58-76 | in runs without cancelled waiters everyone does |
| SecretCache.CancellationSpreads | src/wazuh_mcp/secrets/caching.py:70-76 | a run in which one cancelled waiter fails another waiter and the owner, though the value is cached |
| SecretCache.InvalidationIsFinalIff | src/wazuh_mcp/secrets/caching.py:70-79 | in every later run all later calls are answered by later fetches, iff no fetch of the secret was under way |
| Jwks.JwksCache.Consult | src/wazuh_mcp/auth/jwks_cache.py:56-63 | serve a known key, claim the right to refresh, or refuse |
| Jwks.JwksCache.Install | src/wazuh_mcp/auth/jwks_cache.py:82-91 | an answer with keys replaces them; any other keeps them |
| Jwks.ThrottleBound | src/wazuh_mcp/auth/jwks_cache.py:58-62 | over every interleaving a window of length W sees at most floor(W / ttl) + 1 refreshes on a miss |
| Jwks.RefreshesExactlyWhenAllowed | src/wazuh_mcp/auth/jwks_cache.py:54-63 | a known key starts nothing; an unknown one starts a refresh iff no miss did less than ttl ago, the first always |
| Jwks.KeysChangeOnlyByAnswer | src/wazuh_mcp/auth/jwks_cache.py:82-91 | only an answer with keys, to the lock's holder, changes the keys |
| Jwks.KeysAreTheLatest | src/wazuh_mcp/auth/jwks_cache.py:81-91 | over every run, the keys are those of the latest answer that had any, none before the first |
| Jwks.MissEndsWithTheAnswer | src/wazuh_mcp/auth/jwks_cache.py:56-63 | a call whose refresh on a miss is answered ends with its kid's entry in the answer, or in the latest keys if the answer has none |
| Jwks.OneRequestAtATime | src/wazuh_mcp/auth/jwks_cache.py:65-91 | one call at most holds the lock while a request is out |
| Jwks.DiscoveryRefreshesOnce | src/wazuh_mcp/auth/jwks_cache.py:65-91 | over every interleaving discovery succeeds at most once, and its refresh is answered at most once, by the one call that waits for it |
| Jwks.DiscoveryIsFinal | src/wazuh_mcp/auth/jwks_cache.py:65-79 | the discovered address never changes |
| IssuerIndex.Index.constructor | src/wazuh_mcp/tenancy/issuer_index.py:36-51 | the loop builds the two dictionaries the lookups are about |
| IssuerIndex.CanonicalHasNoSlash | src/wazuh_mcp/tenancy/issuer_index.py:27-28 | the canonical form is the text without its final slashes |
| IssuerIndex.GetIsTheOnlyOwner | src/wazuh_mcp/tenancy/issuer_index.py:36-61 | an issuer leads to a tenant iff that entry alone is configured with it |
| IssuerIndex.GetIgnoresOrder | src/wazuh_mcp/tenancy/issuer_index.py:36-61 | the lookup by issuer is the same for every order of the same entries |
| IssuerIndex.TenantIdsIgnoreOrder | src/wazuh_mcp/tenancy/issuer_index.py:39-40 | the lookup by id is the same for every order when entries with one id are equal |
| IssuerIndex.LastEntryWins | src/wazuh_mcp/tenancy/issuer_index.py:39-40 | in every list of entries the last one with an id is the one the lookup gives |
| IssuerIndex.OrderIsIrrelevantIff | src/wazuh_mcp/tenancy/issuer_index.py:39-40 | all orders of the entries give the same lookups by id iff entries with one id are equal |
| IssuerIndex.ValidIssuersOf | src/wazuh_mcp/auth/oauth.py:65-69 | the set of accepted issuers, from the global one and the index |
| IssuerIndex.AcceptedIff | src/wazuh_mcp/auth/oauth.py:65-85 | for every token issuer: it passes the check iff it ends in no slash and is the stripped global issuer or that of some tenant |
| IssuerIndex.ConfiguredIssuerIsAcceptedIff | src/wazuh_mcp/auth/oauth.py:65-85 | a tenant's issuer, spelled as configured, passes iff that spelling does not end in a slash |
| IssuerIndex.PickRbac | src/wazuh_mcp/auth/oauth.py:263-273 | the loop computes the role `FirstRoleIsFirst` is about |
| IssuerIndex.FirstRoleIsFirst | src/wazuh_mcp/auth/oauth.py:263-273 | the role is that of the first claim in priority order that gives one; none iff no claim does |
| IssuerIndex.BuildSession | src/wazuh_mcp/auth/oauth.py:143-199 | over the two dictionaries: the session or the error that the resolution theorems are about |
| IssuerIndex.SessionHolds | src/wazuh_mcp/auth/oauth.py:143-223 | the subject; the role of the first claim that gives one, the default only if none does; the user of the configured claim, by the configuration of the tenant or else of the issuer's only owner |
| IssuerIndex.RefusedIff | src/wazuh_mcp/auth/oauth.py:143-192 | exact conditions for each of the four refusals |
| IssuerIndex.OwnedIssuerStaysHome | src/wazuh_mcp/auth/oauth.py:143-182 | a session from a uniquely owned issuer is its owner's or carries an unregistered id, never another registered tenant's |
| IssuerIndex.SessionsOfATenant | src/wazuh_mcp/auth/oauth.py:143-182 | a tenant's sessions come from its own issuer or from one without a unique owner |
| IssuerIndex.UnclaimedNeedsAnOwner | src/wazuh_mcp/auth/oauth.py:171-176 | a token without a tenant claim gets in iff its issuer has exactly one owner, and as that owner |

## Left out

- Metrics, traces, logging, HTTP, Vault, AWS, SQLite and YAML; `server.py`, transports, prompts, resources and the per-tool handlers.
- JWT signatures and time claims, argon2, age, UUIDs and hashing: library code. Event ids are given.
- What `_source` and `terminate_after` do to a page; both are constants of the query.
- Role filters, policy resolvers, the multi-sink router, the server client and pools, the single-field query builders: short case analyses.
- Loading the Lua script (`_script_sha`): a load before the script, or a reload on NOSCRIPT, shows only as a later reading of the clock (`Resend`).
- `acquire` of the Redis limiter is modelled as its stretches between awaits, not as one method: other calls run between them.
- Float rounding. Skew between the clocks of replicas: `Readings.dfy` covers readings of any origin, the fleet's theorems one clock.
- `start` called twice on a sink, and `maxsize` changing. In `submit` the three tries to enqueue have no await between them and are one step.
- The drain loops are driven by a finite script of what happens at each wait; what arrives during a delivery is met at the next wait, when the queue is the same.
- JSON encoding of file lines, bulk bodies and HTTP bodies: a line is its text, an action its fields. `HttpSink` encodes its body before the `try` (`http.py:73`), so an event that cannot be encoded would end its drain task; the ledger has no such step.
- Regular expression syntax in rules is a predicate; `str.strip` and the text of JSON values other than strings and integers are parameters.
- Key import and token decoding between the key lookup and the session; `aclose`.
- FileRotation.FilesStaySmall: counts characters of a line where the source counts encoded bytes.
