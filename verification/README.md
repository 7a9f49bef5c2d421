# Verified model of the component-base library

This project models the parts of the `component-base` Go library whose guarantees are about
whole runs: rate limiting over a shared or in-process token bucket, the Redis lease lock, the
HMAC credential validator, the circuit breaker, the batching middleware, message settlement,
the unit of work, the Redis profile registry, aggregated and coded errors, and UTF-8 reversal.

Each file is one component. Code that changes things step by step is a class or a method with
loops, proved equal to a specification function on values; the laws are lemmas about every
run of that function, every interleaving, or every tree.

- `RateMath`, `TokenBucket`, `RedisBackend`, `RateDecision`, `DistributedLimiter`: the Lua
  token bucket, the store it lives in, and the limiter in front of it. The ideal bucket of
  `TokenBucket` never expires; `RedisBackend` proves that the stored one cannot be told from it.
- `LocalLimiter`: the swept table of buckets in one process.
- `Lease`: the lock, as atomic steps of many clients on one store.
- `HmacCredential`: the timestamp window, the nonce store and its cleanup.
- `CircuitBreaker`, `BatchMiddleware`, `Settlement`: the messaging middleware and `Ack`/`Nack`.
- `UnitOfWork`: trees of nested transaction calls and hooks, on any context they can reach.
- `ProfileRegistry`: availability, backoff and binding of Redis profiles.
- `ErrorAggregate`, `ErrorCodes`: error trees, wrapper chains and codes.
- `Utf8Reverse`: `Reverse` over byte strings.
- `Wrappers`: options, results, and what a network may do to a request.

Conventions. Tokens and rates are reals. Clock readings are parameters, in the unit of the
source (milliseconds in the Lua script, nanoseconds elsewhere). A Redis key is gone from its
deadline on. A request may be lost, or carried out with its answer lost; the client then sees
an error. Where Go iterates over a map in unspecified order, the methods pick any element.
Integers are unbounded, except that the shared bucket's lifetime and wait are 64-bit.

Some readings of the source that the proofs settle:

- For the one-token calls that are made of it, every window of the shared bucket obeys its bound
  exactly when the callers' clocks do not disagree at all: under any skew of a millisecond or more, a run
  in which two clocks take turns mints tokens without end. For requests of any size the bound
  holds, policy by policy, exactly for readings that never go back.
- A key of the shared bucket may expire without being noticed: five seconds of grace in its
  lifetime absorb a drift of less than five seconds, from one request for a key to the next,
  between the callers' clocks and the server's. A larger drift is absorbed exactly when an emptied
  bucket refills in the lifetime less the drift.
- The in-process limiter keeps keys apart exactly when an emptied bucket refills within ten
  minutes and one nanosecond, the shortest idle time after which a key can be swept.
- Keeping a nonce for twice the validity is exactly enough: any shorter time admits a replay. So
  does a nonce store that fails to write, whose error the validator drops.
- The signed text runs timestamp and nonce together, so it does not tell them apart by itself; it
  does as long as the accepted timestamps have one length (`UsedOnceIffOneLength`).
- The announced retry seconds are enough for every policy whose wait for one token fits in 64
  bits of nanoseconds, and for no other (`AnnouncementsHoldIff`).
- Renewing a lease for less than a millisecond removes its key and reports success
  (`ShortRenewalLosesTheKey`).
- `filterErrors` says its result is always flattened; it is not (`FilterOutFlattensIff`,
  `FilterOutKeepsNesting`).
- `IsCode` says it looks at any error of the chain; it stops at the first error that carries no
  code (`IsCodeSeesLeadingCodes`, `CodeUnderMessage`).
- `WithStack` hides an error from `errors.Is` exactly when it has an `Unwrap` and no code: the
  layer's own `Unwrap` skips it (`WrappedStaysOnChainIff`).
- `Reverse` panics on exactly those strings that start with an undecodable byte or with an ASCII
  byte and an undecodable one, and reverses exactly the valid ones (`PanicsIffOverruns`,
  `ReversesIffValid`).
- A hook that uses the context of its own, committed transaction opens no transaction there, and
  what it registers on it never runs.

## Model

| member | source | states |
|---|---|---|
| RateMath.RefillComposes | pkg/ratelimit/redisadapter/backend.go:35-36 | capped refill composes: refilling for s and then for t is refilling once for s + t |
| TokenBucket.TokensStayInRange | pkg/ratelimit/redisadapter/backend.go:36-47 | in every run, whatever the clock does, 0 <= tokens <= burst |
| TokenBucket.StepReplies | pkg/ratelimit/redisadapter/backend.go:20-49 | a call for nothing or on an impossible policy is denied for a second; any other is allowed, without a wait, iff the tokens are there, and takes them |
| TokenBucket.LevelIsRefilled | pkg/ratelimit/redisadapter/backend.go:24-36 | a missing key has a full bucket; a stored one gains rate x time up to the burst, and nothing when the clock goes back |
| TokenBucket.DeniedCallsCostNothing | pkg/ratelimit/redisadapter/backend.go:24-48 | with nondecreasing readings, erasing any set of denied calls from a run leaves every other decision and retry time unchanged |
| TokenBucket.AdmissionBound | pkg/ratelimit/redisadapter/backend.go:35-48 | over every run the tokens granted are at most burst + rate x (sum of positive clock advances) |
| TokenBucket.WindowBound | pkg/ratelimit/redisadapter/backend.go:35-48 | when readings never go back, any window of a run grants at most burst + rate x window length |
| TokenBucket.WindowBoundIffNoSkew | pkg/ratelimit/redisadapter/backend.go:35-90 | for every policy, bucket and start: if callers' clocks may disagree by so much, the bound holds for every window of every run of one-token calls iff they may not disagree at all |
| TokenBucket.WindowBoundIffNeverBack | pkg/ratelimit/redisadapter/backend.go:35-48 | for every policy and list of readings, the bound holds for every window of every run of the script with those readings and any token requests iff no reading is below an earlier one |
| TokenBucket.RetryAfterIsExact | pkg/ratelimit/redisadapter/backend.go:40-45 | after a denial with r ms and no admission in between, the same request is allowed iff r ms have passed and it is within the burst |
| RedisBackend.Backend.Eval | pkg/ratelimit/redisadapter/backend.go:12-50 | the script, statement by statement, is the ideal bucket's step on what the key shows, written back with a new deadline |
| RedisBackend.Backend.Allow | pkg/ratelimit/redisadapter/backend.go:65-122 | argument errors leave the store alone; otherwise one script run for one token with the computed lifetime, in 64-bit arithmetic, charged even if its answer is lost or is no pair of integers |
| RedisBackend.DecodesEncoded | pkg/ratelimit/redisadapter/backend.go:49-122 | the script's reply, handed over unchanged, is read back as its decision and its wait, in nanoseconds where that fits 64 bits |
| RedisBackend.DecodesPairsOnly | pkg/ratelimit/redisadapter/backend.go:94-122 | only a list that starts with two integers is taken for an answer |
| RedisBackend.LifetimeRefills | pkg/ratelimit/redisadapter/backend.go:76-79 | where the lifetime fits in 64 bits, a bucket is full again once its key's lifetime less five seconds has passed |
| RedisBackend.ToleratesIffFits | pkg/ratelimit/redisadapter/backend.go:76-79 | a drift below five seconds is absorbed iff burst/rate plus five seconds is a 64-bit number of nanoseconds |
| RedisBackend.ExpiryIsInvisible | pkg/ratelimit/redisadapter/backend.go:24-90 | in every run over all keys the requests for one key get exactly the answers of a bucket of their own that never expires, if its clocks drift by no more than its lifetime leaves room for |
| RedisBackend.InvisibleIffTolerated | pkg/ratelimit/redisadapter/backend.go:24-90 | for each drift, every run with no more is answered so iff an emptied bucket refills in the lifetime less the drift; below five seconds, iff the lifetime fits in 64 bits |
| DistributedLimiter.Decide | pkg/ratelimit/distributed.go:23-39 | a call is limited exactly when a usable backend denied it, with the wait rounded up past the next whole second; every failure opens the limiter; nil is dereferenced |
| DistributedLimiter.AnnouncedSecondsSuffice | pkg/ratelimit/distributed.go:27-38 | waiting RetryAfterSeconds after a denial is enough and at most a second longer than the bucket's exact retry time, unless that time overflows 64 bits; then it is too short |
| DistributedLimiter.AnnouncementsHoldIff | pkg/ratelimit/distributed.go:27-38 | from any start, every announced wait is enough iff the wait of an empty bucket for one token fits in 64 bits of nanoseconds |
| DistributedLimiter.WaitFits | pkg/ratelimit/redisadapter/backend.go:76-108 | a bucket whose lifetime fits in 64 bits never announces a wait that does not |
| LocalLimiter.Limiter.Sweep | pkg/ratelimit/local.go:78-93 | a due sweep drops every idle entry, then arbitrary ones down to the maximum, and touches no other entry |
| LocalLimiter.Limiter.Decide | pkg/ratelimit/local.go:50-102 | an invalid policy is limited for a second; keyed calls sweep, touch one slot and decide on its bucket; others use the one global bucket |
| LocalLimiter.DecideOn | pkg/ratelimit/local.go:50-53 | a nil limiter limits for a second, any other decides |
| LocalLimiter.SharesSlot | pkg/ratelimit/local.go:65-67 | keys have slots of their own, but no key is the key "anonymous" |
| LocalLimiter.SweepsEveryMinute | pkg/ratelimit/local.go:78-102 | the first call a minute or more after the last sweep sweeps, dropping only entries; any other call loses none; the touched slot is seen now |
| LocalLimiter.SweepBoundsTheTable | pkg/ratelimit/local.go:84-92 | a sweep leaves at most 10000 entries and the touched one, and no fewer live ones than it must |
| LocalLimiter.DenialIsExact | pkg/ratelimit/local.go:111-126 | a denial costs nothing and announces exactly the time to the next whole token, truncated to nanoseconds, and that rounded up to seconds, at least one |
| LocalLimiter.SoloRetryIsExact | pkg/ratelimit/local.go:58-63 | in every run of one bucket, with only denials in between, a call is denied before the announced wait and allowed after it |
| LocalLimiter.KeyedRetryIsExact | pkg/ratelimit/local.go:65-126 | the same for each key in every run of a keyed limiter, crowded or not; only a sweep in between can let it in sooner |
| LocalLimiter.SoloAdmissionBound | pkg/ratelimit/local.go:58-63 | a run of one bucket admits at most the burst plus rate x its length |
| LocalLimiter.SurvivorsAreRecent | pkg/ratelimit/local.go:78-100 | after every call of every run, each entry in the table was seen less than 11 minutes ago |
| LocalLimiter.FullWhenSweptSuffices | pkg/ratelimit/local.go:69-102 | if an emptied bucket refills in the idle time, decisions for a key in an uncrowded run depend on that key's calls only |
| LocalLimiter.FullWhenSweptNeeded | pkg/ratelimit/local.go:78-83 | if it does not, then from any starting instant some uncrowded run of a single key is decided differently because of a sweep |
| LocalLimiter.IndependentIffFullWhenSwept | pkg/ratelimit/local.go:12-102 | whenever the program starts, keys are limited independently in every uncrowded run iff burst <= rate x (10 minutes + 1 ns) |
| Lease.Service.Acquire | pkg/redis/lease/service.go:86-141 | argument errors change nothing; otherwise SET NX with the given token, and a lease exactly when it was set |
| Lease.Service.Renew | pkg/redis/lease/service.go:144-201 | compare-and-expire; a lease with new TTL and AcquiredAt exactly when the key still held its token |
| Lease.Service.Release | pkg/redis/lease/service.go:204-232 | compare-and-delete; an empty lease is released without effect |
| Lease.Service.CheckOwnership | pkg/redis/lease/service.go:235-273 | true exactly when the live key holds the lease's token |
| Lease.AcquireAnswers | pkg/redis/lease/service.go:86-141 | the error of every fault, a lease for a free key, a refusal for another; the store changes iff the request arrives, is sound and finds the key free |
| Lease.RenewAnswers | pkg/redis/lease/service.go:144-201 | the error of every fault, the lease with new TTL and time for the holder, false for anybody else |
| Lease.ReleaseAnswers | pkg/redis/lease/service.go:204-232 | only a lost request or answer is an error |
| Lease.CheckAnswers | pkg/redis/lease/service.go:235-273 | the error of every fault, and otherwise whether the token is the live key's |
| Lease.AcquireTakesFreeKeys | pkg/redis/lease/service.go:86-141 | in every world a delivered acquire wins iff its arguments are sound and the key is free, and then holds that key and no other changes |
| Lease.AcquiredKeyExpires | pkg/redis/lease/service.go:108-119 | an acquired key is held for max(1 ms, TTL) and free from then on |
| Lease.ReleaseFreesTheKey | pkg/redis/lease/service.go:15-21 | a holder's release that arrives frees its key and no other; any other release changes nothing |
| Lease.ReleasedKeyIsGranted | pkg/redis/lease/service.go:86-232 | once its holder has released a key, the next acquire of it wins |
| Lease.CheckTellsTheHolder | pkg/redis/lease/service.go:235-273 | a check answers who holds the key and changes nothing |
| Lease.RunInv | pkg/redis/lease/service.go:32-44 | in every run with fresh tokens no two leases share a token, and every token on the server has been issued |
| Lease.LeaseIsStable | pkg/redis/lease/service.go:15-30 | from a successful acquire or renewal to its deadline or the holder's release, in any interleaving, no other acquire of the key succeeds and the holder's checks and renewals do |
| Lease.RenewalKeepsTheKey | pkg/redis/lease/service.go:23-200 | a renewal succeeds exactly for the holder and a positive TTL, and answers the new lease; the holder then has the key until the TTL has passed, if that was at least 1 ms, and else loses it at once |
| Lease.ShortRenewalLosesTheKey | pkg/redis/lease/service.go:144-200 | acquiring any key and renewing for under 1 ms both report success and leave the key free |
| Lease.LostLeaseStaysLost | pkg/redis/lease/service.go:15-30 | once a lease's token is not under its key, no later step of any run renews it, finds it owned, or lets its release change the store |
| HmacCredential.NonceStore.Exists | pkg/grpc/interceptors/credential.go:473-478 | unless the lookup fails, true exactly for nonces on record, expired or not |
| HmacCredential.NonceStore.Store | pkg/grpc/interceptors/credential.go:481-486 | unless the write fails, the nonce is put on record until now + ttl, and no other changes |
| HmacCredential.NonceStore.Cleanup | pkg/grpc/interceptors/credential.go:488-500 | a pass drops exactly the nonces whose expiry is strictly past |
| HmacCredential.Validator.Validate | pkg/grpc/interceptors/credential.go:123-172 | with or without a nonce store: accepted iff of type HMAC, in the window, its nonce looked up and unused, its secret known and its signature right, as its access key until now + validity; records just accepted nonces, for twice the validity |
| HmacCredential.RefusalNamesTheFirstCheck | pkg/grpc/interceptors/credential.go:123-158 | a refusal is that of the first check that fails; without one the credential is accepted |
| HmacCredential.RecordedAfter | pkg/grpc/interceptors/credential.go:160-163 | only an accepted nonce is recorded, only cleanup passes in between drop others, and only those past |
| HmacCredential.CleaningDropsThePast | pkg/grpc/interceptors/credential.go:488-500 | cleanup passes leave exactly the nonces not strictly past at any of them |
| HmacCredential.FirstUseIsAccepted | pkg/grpc/interceptors/credential.go:123-172 | after every run from an empty store, refused credentials included, a genuine credential whose nonce no accepted one has used is accepted |
| HmacCredential.AcceptedAtMostOnce | pkg/grpc/interceptors/credential.go:128-163 | in every run of validations and cleanups on a store that does not fail to write, a credential with a given nonempty nonce and timestamp is accepted at most once |
| HmacCredential.RetentionIsTight | pkg/grpc/interceptors/credential.go:150-163 | whenever it starts, every run is free of replays iff the store never fails to write and nonces are kept at least twice the validity |
| HmacCredential.SameText | pkg/grpc/interceptors/credential.go:175-176 | one signed text stands for two timestamps only if one is the other with more digits, so at least ten times as far from zero |
| HmacCredential.UsedOnceIffOneLength | pkg/grpc/interceptors/credential.go:123-180 | for one access key and a signature that tells texts apart, no signature that came with a nonce is accepted twice in any run with readings from lo to hi iff ten times the least positive accepted timestamp, and ten times the largest negative one, are out of reach |
| CircuitBreaker.SimpleCircuitBreaker.Call | pkg/messaging/middleware.go:362-394 | the outcome and the whole new state of one call |
| CircuitBreaker.StateReflectsHistory | pkg/messaging/middleware.go:362-394 | between calls never half-open; closed iff failures < max(maxFailures, 1); failures counts executed failures since the last executed success |
| CircuitBreaker.NextCall | pkg/messaging/middleware.go:362-394 | after every run the next call is executed iff fewer failures than the threshold trail or the timeout has passed since the last; what it answers, when it trips and when it closes the breaker |
| CircuitBreaker.OutageBound | pkg/messaging/middleware.go:362-394 | while all fail, n executed calls over time T satisfy n <= threshold or (n - threshold) x timeout < T |
| BatchMiddleware.Batcher.Append | pkg/messaging/middleware.go:433 | append keeps the waiting messages and adds the new one, in place or in a larger array |
| BatchMiddleware.Batcher.Flush | pkg/messaging/middleware.go:420-429 | the handler gets the whole waiting batch, which is then emptied even when it fails |
| BatchMiddleware.Batcher.Handle | pkg/messaging/middleware.go:432-443 | flushes exactly when the batch is full or the interval has passed |
| BatchMiddleware.BatchesConserveMessages | pkg/messaging/middleware.go:416-445 | delivered batches followed by the pending one are the received messages in order; sizes are bounded by max(batchSize, 1) |
| BatchMiddleware.FlushesWhenDue | pkg/messaging/middleware.go:432-443 | in every run a message hands over all that came since the last flush iff that is a full batch or the interval has passed since then; else all of it waits |
| BatchMiddleware.NothingOverdue | pkg/messaging/middleware.go:432-443 | whatever waits is less than a batch and its last message came within the interval after the last flush |
| Settlement.Message.Settle | pkg/messaging/port.go:98-126 | the first Ack or Nack sets the flag and starts its callback; every later one does nothing |
| Settlement.Deliver | pkg/messaging/nsq/subscriber.go:100-113 | a delivery starts exactly one callback: the handler's first choice, or the one its result calls for |
| Settlement.RunInv | pkg/messaging/port.go:110-136 | in every state of every interleaving at most one goroutine holds the mutex, and the flag is set by exactly one claim |
| Settlement.SettledExactlyOnce | pkg/messaging/rabbitmq/subscriber.go:194-205 | over every interleaving at most one callback is started; a finished subscriber leaves the message settled, with one callback started or certain to be |
| Settlement.FirstIsForGood | pkg/messaging/port.go:110-136 | a settled message stays settled, by the same goroutine, for the same reason |
| Settlement.UninterruptedCallSettles | pkg/messaging/port.go:98-126 | the interleaved steps of one undisturbed call do what the sequential one does |
| Settlement.StartedWasAsked | pkg/messaging/port.go:98-126 | over every interleaving the callback that starts was asked for by its goroutine's own call, or by the handler's result |
| Settlement.SubscriberFinishes | pkg/messaging/nsq/subscriber.go:100-113 | the subscriber is done after at most nine steps of its own, and takes no more once it has seen the message settled |
| Settlement.UntouchedFollowsResult | pkg/messaging/nsq/subscriber.go:100-113 | if nobody else settles it, the message is acknowledged iff the handler returned no error |
| Settlement.NeverStuck | pkg/messaging/port.go:114-135 | after the handler returns, the subscriber can step unless another goroutine holds the mutex, which then can |
| Settlement.NobodyIsStuck | pkg/messaging/port.go:98-126 | any other goroutine may call Ack or Nack, and goes on unless the mutex is held by one that can |
| UnitOfWork.RegisterAfterCommit | pkg/uow/gorm/uow.go:74-84 | a hook is queued exactly when there is one and the context has a transaction |
| UnitOfWork.WithinTransaction | pkg/uow/gorm/uow.go:86-111 | joins the transaction of the context it is given or opens one; errors and events of every path |
| UnitOfWork.Transaction | pkg/uow/gorm/uow.go:96-104 | begin, callback on the new context, then rollback on its error, else commit |
| UnitOfWork.RunHooks | pkg/uow/gorm/uow.go:105-109 | exactly the hooks queued at commit run, in order, with whatever transactions they open, in spite of failures and late registrations |
| UnitOfWork.TransactionLife | pkg/uow/gorm/uow.go:86-111 | whatever the callback does, its transaction is rolled back iff it fails, else committed if the database lets it, and then exactly the hooks queued by then run, in order |
| UnitOfWork.OneTransaction | pkg/uow/gorm/uow.go:74-111 | a tree that stays inside opens exactly one transaction; if it commits, every hook of the tree runs once in registration order, otherwise none |
| UnitOfWork.TransactionsAreSeparate | pkg/uow/gorm/uow.go:74-111 | code given no context of a transaction neither queues on it, ends it nor runs its hooks, and nor does any hook it queues |
| UnitOfWork.EveryTransactionEnds | pkg/uow/gorm/uow.go:38-111 | in every program each transaction that begins ends exactly once; if it commits, exactly the hooks queued on it until then run, once, in order, otherwise none; on a context made by WithTx none ever runs |
| ProfileRegistry.NamedProfile.MarkAvailable | pkg/redis/runtime/runtime.go:399-410 | clears the error, the retry time and the delay |
| ProfileRegistry.NamedProfile.MarkUnavailable | pkg/redis/runtime/runtime.go:412-432 | records the error, doubles or starts the capped delay and sets the retry time |
| ProfileRegistry.Registry.constructor | pkg/redis/runtime/runtime.go:103-124 | named, configured profiles only, each with its own handle and untried |
| ProfileRegistry.Registry.Connect | pkg/redis/runtime/runtime.go:137-175 | every profile takes its own outcome, unless the default fails first |
| ProfileRegistry.Registry.HealthCheck | pkg/redis/runtime/runtime.go:209-259 | every profile is pinged, retried when due or skipped, unless the default fails first |
| ProfileRegistry.RoundOutcome | pkg/redis/runtime/runtime.go:137-259 | what one round makes of a profile: error, delay and retry time by whether it was up or due and how the probe went; nothing if the default fails |
| ProfileRegistry.Registry.Status | pkg/redis/runtime/runtime.go:328-350 | the status is that of the profile's health |
| ProfileRegistry.Registry.Bind | pkg/redis/runtime/runtime.go:298-313 | the binding is that of the profiles' health |
| ProfileRegistry.BindAgreesWithStatus | pkg/redis/runtime/runtime.go:276-350 | Bind yields the named handle iff Status is available; the default only stands in for missing profiles, and only if enabled |
| ProfileRegistry.BackoffClosedForm | pkg/redis/runtime/runtime.go:399-432 | in every reachable state n consecutive failures mean a delay of min(30s x 2^(n-1), 5min); error, delay and retry time are clear together iff n = 0 |
| ProfileRegistry.RoundsBackOff | pkg/redis/runtime/runtime.go:137-350 | after any rounds of Connect and HealthCheck, some stopped by the default, each configured name is bound to its handle and available iff its own failure streak is 0, else down until the closed-form retry time |
| ProfileRegistry.ReconnectsWhenDue | pkg/redis/runtime/runtime.go:231-249 | after n > 0 failures a health check reconnects iff the closed-form delay since the last failure has passed |
| ProfileRegistry.FailuresAreSpread | pkg/redis/runtime/runtime.go:209-259 | while all probes fail, the n-th comes at least the sum of the first n - 1 delays after the first |
| ErrorAggregate.NewAggregate | pkg/errors/aggregate.go:32-47 | nil entries are dropped; nil when nothing is left |
| ErrorAggregate.NilEntriesVanish | pkg/errors/aggregate.go:32-47 | nil entries vanish wherever they stand, the others stay in order |
| ErrorAggregate.Visit | pkg/errors/aggregate.go:89-110 | the visitor sees exactly the leaves, in order, until it asks to stop |
| ErrorAggregate.Is | pkg/errors/aggregate.go:83-87 | true iff some leaf matches |
| ErrorAggregate.Error | pkg/errors/aggregate.go:55-81 | the distinct leaf messages in first-seen order, in brackets iff there are several |
| ErrorAggregate.DistinctInOrder | pkg/errors/aggregate.go:55-81 | every message is listed once, none else, in the order first seen |
| ErrorAggregate.JoinSplits | pkg/errors/aggregate.go:64-74 | messages are separated by a comma and a blank |
| ErrorAggregate.TextOfFew | pkg/errors/aggregate.go:55-81 | one message stands for itself, two are in brackets |
| ErrorAggregate.MatchesError | pkg/errors/aggregate.go:141-148 | true iff some matcher takes the error |
| ErrorAggregate.FilterOut | pkg/errors/aggregate.go:127-138 | the recursive filtering of an error, nil when nothing is left |
| ErrorAggregate.FilterErrors | pkg/errors/aggregate.go:154-163 | the surviving errors of a list, in order |
| ErrorAggregate.Flatten | pkg/errors/aggregate.go:167-185 | one aggregate of all leaves in order, nil for none |
| ErrorAggregate.FlattenIsInvisible | pkg/errors/aggregate.go:55-110 | the flattening of a built aggregate is built, and Error and Is give the same for both |
| ErrorAggregate.FlattenIsIdempotent | pkg/errors/aggregate.go:167-185 | flattening twice is flattening once |
| ErrorAggregate.FilteringFiltersLeaves | pkg/errors/aggregate.go:127-163 | filtering keeps exactly the leaves no matcher takes, in order, at any depth |
| ErrorAggregate.FlattenCommutesWithFilterOut | pkg/errors/aggregate.go:127-185 | flattening and filtering commute |
| ErrorAggregate.FilterOutFlattensIff | pkg/errors/aggregate.go:150-163 | the filtered list is flat iff every nested aggregate loses all its leaves |
| ErrorAggregate.FilterOutKeepsNesting | pkg/errors/aggregate.go:150-163 | without matchers a list of one aggregate is returned as it is, not flat |
| ErrorCodes.Cause | pkg/errors/errors.go:347-365 | the error at the end of the chain of non-nil causes |
| ErrorCodes.Registry.Register | pkg/errors/code.go:79-88 | code 0 panics; any other replaces what was registered |
| ErrorCodes.Registry.MustRegister | pkg/errors/code.go:92-105 | code 0 and a code already there panic |
| ErrorCodes.WrappersKeepCoderAndCause | pkg/errors/errors.go:145-260 | any stack of WithStack, Wrap and WithMessage layers leaves ParseCoder and Cause unchanged |
| ErrorCodes.WrappersKeepIsCode | pkg/errors/code.go:125-139 | WithStack and Wrap layers leave IsCode unchanged |
| ErrorCodes.WrapCAddsCode | pkg/errors/errors.go:314-325 | IsCode(WrapC(e, c0), c) iff c = c0 or IsCode(e, c); the new code is what parsing finds; the cause stays |
| ErrorCodes.ConstructorsSetText | pkg/errors/errors.go:145-325 | a stack layer keeps the message, every other constructor sets it, nil stays nil |
| ErrorCodes.WithCodeIsARoot | pkg/errors/errors.go:306-312 | a new coded error has its code alone and is its own cause |
| ErrorCodes.ParsesTheFirstCode | pkg/errors/code.go:110-123 | ParseCoder gives what is registered for the first code on the chain, the unknown coder without one, nil for nil |
| ErrorCodes.WrappedStaysOnChainIff | pkg/errors/errors.go:145-221 | an error is on its wrapper's Unwrap chain unless the wrapper is a stack layer and the error has an Unwrap and no code |
| ErrorCodes.ConstructorsBuild | pkg/errors/errors.go:145-221 | no constructor puts a stack layer directly on a coded error |
| ErrorCodes.SkippingLosesNoCode | pkg/errors/errors.go:173-179 | for errors the constructors build, the skipping Unwrap never jumps over the first code |
| ErrorCodes.IsCodeSeesLeadingCodes | pkg/errors/code.go:124-139 | IsCode finds a code iff an error of the chain carries it and every error before that is coded |
| ErrorCodes.IsCodeFindsAllIff | pkg/errors/code.go:124-139 | for an error, IsCode finds every code carried on its chain, and no other, iff each of them comes before the first error without a code |
| ErrorCodes.MessageHidesCodes | pkg/errors/code.go:110-139 | a message layer hides every code from IsCode, though all are still on the chain and ParseCoder finds the first |
| ErrorCodes.CodeUnderMessage | pkg/errors/code.go:124-139 | WithMessage over WithCode carries its code on the chain and IsCode denies it |
| Utf8Reverse.DecodeEncode | pkg/util/stringutil/stringutil.go:59-61 | decoding what was encoded gives the rune and its width |
| Utf8Reverse.EncodeDecode | pkg/util/stringutil/stringutil.go:59-61 | a decodable prefix is the encoding of a scalar value, the one decoded |
| Utf8Reverse.ValidIffEncoded | pkg/util/stringutil/stringutil.go:59-61 | a string decodes without error iff it is the encoding of some scalar values |
| Utf8Reverse.ReverseString | pkg/util/stringutil/stringutil.go:55-64 | for every string, the bytes filled from the end of the buffer, or a panic |
| Utf8Reverse.PanicsIffOverruns | pkg/util/stringutil/stringutil.go:55-64 | panics iff an undecodable byte is first, or second after an ASCII byte |
| Utf8Reverse.ReversesIffValid | pkg/util/stringutil/stringutil.go:55-64 | the bytes are the runes in reverse order iff the string is valid UTF-8 |
| Utf8Reverse.ReversalLaws | pkg/util/stringutil/stringutil.go:55-64 | the reversal of a valid string is valid, as long, decodes to the runes reversed, and reverses back to the original |

## Left out

- RedisBackend.Backend.Eval: leaves the script's retry time unbounded; its conversion beyond 64-bit milliseconds on the way out is not modelled.
- TokenBucket.AdmissionBound: is over reals; the rounding of stored tokens to text and back is not modelled.
- LocalLimiter.Limiter.Decide: takes golang.org/x/time/rate as an abstract bucket with one clock reading per call, and Reserve followed by CancelAt as having no effect; concurrent calls are serialised.
- HmacCredential.Validator.Validate: is sequential, two validations do not overlap; the signature the secret gives is data of the request.
- CircuitBreaker.SimpleCircuitBreaker.Call and BatchMiddleware.Batcher.Handle: are sequential; the source holds no lock across check and update.
- BatchMiddleware.Batcher.Handle: the handler is taken not to keep its slice, whose array is reused.
- Settlement.SettledExactlyOnce: says a claimed callback is about to be started; that the scheduler lets its goroutine run is not modelled. Nil messages, decoding and broker-side automatic responses are not part of this model.
- UnitOfWork.WithinTransaction: takes callbacks and hooks as the finite trees of calls they make, each with the error it finally returns; panics are not modelled.
- ProfileRegistry.Registry.HealthCheck: connection outcomes and readings are parameters; observers, closing of clients and concurrent rounds are not modelled.
- ErrorAggregate.Visit: other implementations of the Aggregate interface, which the source visits one level deep, are not modelled.
- ErrorCodes.Cause: stack frames, formatting and errors with several causes are not modelled.
- Redis, NSQ, RabbitMQ, MongoDB, MySQL, GORM and gRPC clients, logging, TLS, JSON and YAML: input and output.
- Retry, deduplication, metrics, filter and priority middleware (each wraps one handler call), string sets and the plain registry (maps), keyspaces (string prefixes) and the backpressure semaphore (a buffered channel) are not part of this model.
