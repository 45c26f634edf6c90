# Verified model of the deduplication engine

The service fingerprints an HTTP request, asks a two-level store whether the fingerprint was seen
within the deduplication window, and answers with a redirect, a 409 or a 500. This project models
that engine in Dafny and proves what it guarantees.

There are two layers.

**The sequential layer** follows the source's objects. `LocalCaches.LocalCache` is the 256-shard L1
cache over an array of maps, `Stores.MemoryStore` and `Stores.RedisStore` are the two backends behind
the interface `Stores.Backend`, `CachedStores.CachedStore` puts L1 in front of either, `Fingerprints`
holds the pooled hashers and the two ways to compute a key, and `Handlers.XAccelHandler` makes the
decision and counts outcomes.
Each method is specified by a function of the values it reads; clock readings, faults and chunk
boundaries are parameters.

**The protocol** (`Protocol`) is a transition system over any number of instances, calls and sweeps.
A call moves through the points between which the code holds no lock: clock sample, L1 lookup, eviction
under the write lock, backend answer or failure, expiry sample, L1 write. A failed backend call may
have committed some time before it reports the error, may commit after that, or never. A run is any
sequence of enabled steps, and `Reachable` means "the outcome of some run from the start". `Invariant` traces every L1 entry, backend entry and
answer to the arming (the backend write that created the key) behind it. `Solo` and `Alone` connect
the layers in both directions: every sequential call and sweep is a run of the protocol, and every run
in which one call, or one sweep, is left alone with the clock until it ends is the sequential one.
`Histories` and `Serial` lift this to whole histories of calls and sweeps on any number of instances,
again in both directions.

Main results, each for all runs or all inputs:

- A refusal is justified by an arming of the same key less than two windows plus the lag before the
  clock sample that decided it (no more than one window if the backend refused), and that bound is
  reached (`Safety.RefusalsAreJustified`,
  `Liveness.BoundIsTight`). The lag bounds the time between a backend answer and the expiry sample
  of the same call; every finite run respects some lag.
- Admissions of one key commit strictly more than a window apart across all instances, also when
  failed calls wrote the key (`Safety.AdmissionsExclude`); a burst on an idle key admits exactly one
  call (`Safety.ExactlyOneIsAdmitted`). The handler's redirects are bounded per window, dated by the
  instant that decided them (`Safety.RedirectsAreBounded`); dated by the instant they are returned,
  they are bounded per window less the slowest return, because a slow first response and a prompt
  second one may leave close together (`Responses.ResponsesAreBounded`).
- L1 hits never prolong blocking: on a quiet key a call that is over, has not failed and found nobody
  else arming the key is admitted, whatever the interleaving (`Liveness.RefusalsDoNotSlide`,
  `Liveness.QuietCallIsAdmitted`), and such calls exist (`Liveness.QuietKeyIsAdmitted`).
- An outage drains L1 within a window (`Outage`), and sweeping bounds L1 (`MemoryBound`).
- The shard function is perfectly balanced (`Fnv1a.ShardsAreBalanced`).

Four promises turn out not to hold as written, and are replaced by exact conditions:

- `internal/store/cached_store.go:19` says false positives are impossible. One arises whenever an L1 entry
  outlives the backend entry it stands for: because another instance had armed the key earlier and this
  one was told "duplicate" (`Refinement.FalsePositive`), or on a single instance because the clock is
  read again for L1 after the backend has answered (`Refinement.SlowStamp`); in both cases the protocol
  reaches a refusal at an instant when the backend no longer holds the key
  (`Histories.FalsePositiveHappens`, `Histories.SlowStampHappens`). For calls, sweeps and late writes that
  follow one another, on any number of instances, with any delays inside a call and any faults, the
  answers are those of the bare backend if and only if no query looks up within a window of the last refresh by its
  own instance while the backend would not confirm the duplicate; refreshes are determined by that
  instance's own queries (`Refinement.CachedRefinesBareIff`). Every run in which calls, sweeps and late
  writes take turns has exactly one such history, read off its steps and their instants
  (`Serial.History`), so the condition decides the run (`Serial.SerialRefinesBareIff`). If every key stays on one instance, the
  condition becomes one on pairs of queries (`Refinement.StickyRefinesBareIff`); if moreover calls take
  no time and never fail, some answer differs exactly when a key is queried at the very instant its
  entry expires and again within a window (`Refinement.InstantRefinesBareIff`).
- An L1 lookup whose clock sample precedes the entry's expiry need not hit: the entry can expire and be
  evicted between sample and lookup. It is sure to hit if and only if the lookup itself precedes the
  expiry (`Liveness.LookupSureToHitIff`).
- The arming behind an L1 refusal need not precede the refusal's clock sample, since the entry can be
  written between sample and lookup (`Liveness.LateArming`). It is sure to precede it if and only if
  sample and lookup happen at the same instant (`Liveness.ArmingPrecedesIff`); a refusal by the backend
  always follows its arming (`Safety.RefusalsAreJustified`).
- `README.md:41` of the service documents separators and a body cap in the fingerprint. The code
  concatenates method, target and whole body (`internal/fingerprint/fingerprint.go:122-127`), so the
  model does too; `HashInput` states exactly which requests share a fingerprint input
  (`HashInput.TwinIff`) and that no cap applies to the body (`HashInput.BodyIsNotCapped`).

Assumptions: the clock is a monotone integer, the window is positive (`internal/config/config.go:247`)
and the same for every call, and a backend entry still counts at its expiry instant, as in
`MemoryStore`. SHA-256 with hex encoding is an arbitrary function; it is never assumed injective.

`dafny verify dfyconfig.toml` checks the project.

## Model

| member | source | states |
|---|---|---|
| Fnv1a.ShardIndex | internal/store/localcache.go:114-121 | the loop computes the low byte of 64-bit wrap-around FNV-1a of the key |
| Fnv1a.LowByteRecurrence | internal/store/localcache.go:115-120 | the 64-bit hash, masked, equals an 8-bit recurrence `x := (x xor b) * 0xB3` from 0x25 for every key |
| Fnv1a.OneByteApart | internal/store/localcache.go:114-121 | two keys that differ in exactly one byte never share a shard |
| Fnv1a.StringsAreExactlyLengthN | internal/store/localcache.go:114-116 | the strings counted by the balance result are all byte strings of their length and no others |
| Fnv1a.ShardsAreBalanced | internal/store/localcache.go:114-121 | for every length n+1 each shard receives exactly 256^n of the 256^(n+1) byte strings |
| Eviction.EvictionIsUnobservable | internal/store/localcache.go:38-111 | in every chronological history of sets, lookups with their two clock samples, and sweeps, the answers are those of a table from which nothing is ever removed |
| LocalCaches.LocalCache.constructor | internal/store/localcache.go:29-35 | 256 empty shards, the empty table |
| LocalCaches.LocalCache.Contains | internal/store/localcache.go:38-60 | the answer is `now < expiry` on the flat table; the entry is removed exactly when both clock samples have reached its expiry; every key stays in its own shard |
| LocalCaches.LocalCache.Set | internal/store/localcache.go:63-71 | the flat table with the key's expiry replaced by now + ttl, stored in the shard that FNV-1a selects |
| LocalCaches.LocalCache.Len | internal/store/localcache.go:74-82 | the sum over the shards is the size of the flat table |
| LocalCaches.LocalCache.Sweep | internal/store/localcache.go:99-111 | the flat table restricted to the entries that outlive the sample |
| LocalCaches.LocalCache.SweepLoop | internal/store/localcache.go:85-96 | every entry left outlives each tick that no cancellation precedes, every old entry that outlives all of them is left unchanged, and there are no others |
| LocalCaches.EntriesSitInTheirShard | internal/store/localcache.go:64-65 | every entry sits in the shard of the 8-bit recurrence, so the balance laws hold of the cache |
| Stores.MemoryStore.IsDuplicate | internal/store/store.go:137-158 | set if absent with a TTL, present up to and including the expiry instant; an erroring store changes nothing |
| Stores.RedisStore.IsDuplicate | internal/store/store.go:79-94 | the same contract when the network is sound; any fault is unavailability, and a lost reply has committed |
| Stores.Backend.IsDuplicate | internal/store/store.go:25-30 | one contract for both stores: set if absent; with Redis an answer is unavailable iff the network fails, and the keyspace is unchanged iff the request is lost or the key present; the memory store is unavailable iff its Err field is set |
| CachedStores.CachedStore.IsDuplicate | internal/store/cached_store.go:42-59 | over either backend and under any fault, reply, both tables and hit and miss counters are those of the function `Call`; after an L1 miss the reply is an error iff the backend fails; misses equal backend calls and L1 writes equal misses minus errors |
| CachedStores.CachedStore.CacheLen | internal/store/cached_store.go:73-75 | the number of entries of the flat L1 table |
| Fingerprints.Copy | internal/fingerprint/fingerprint.go:126-130 | the hasher absorbs all chunks in order, the count is the body length, and success means the body did not fail |
| Fingerprints.ConcatLaws | internal/fingerprint/fingerprint.go:126-130 | joining chunks leaves a single chunk alone and does not depend on how the body is split |
| Fingerprints.StreamHashInto | internal/fingerprint/fingerprint.go:117-137 | for any leftover hasher state the digest of method, target and streamed body lands in the buffer; a failed read leaves the buffer alone |
| Fingerprints.StreamingRedisKey | internal/fingerprint/fingerprint.go:98-103 | for a readable body the key is the six bytes of "dedup:" and the digest of method, target and the concatenated chunks, however they are split; the body length is exact and the hasher is back in the pool |
| Fingerprints.FromHTTP | internal/fingerprint/fingerprint.go:56-71 | the request with its whole body, an empty one for a nil body, none for a failing one |
| Fingerprints.RedisKey | internal/fingerprint/fingerprint.go:77-82 | the same key from the buffered fields, for any leftover hasher state |
| HashInput.SameInputIff | internal/fingerprint/fingerprint.go:145-148 | for token methods and origin-form targets two requests feed the digest the same bytes iff methods agree and target ++ body agree |
| HashInput.SameKeyIff | internal/fingerprint/fingerprint.go:98-103 | two requests have the same key under every digest iff methods agree and target ++ body agree |
| HashInput.DelimitedInputsAreInjective | internal/fingerprint/fingerprint.go:145-148 | when no body starts with a byte or percent-escape that could continue a target, same input iff same request |
| HashInput.TwinIff | internal/fingerprint/fingerprint.go:122-127 | a different request with the same input exists iff the target is longer than the slash or the body starts with a byte or percent-escape that could continue it; the other request's target is origin-form too |
| HashInput.BodyIsNotCapped | internal/fingerprint/fingerprint.go:126-130 | requests that agree up to any cap on the body and differ after it have different inputs |
| Handlers.XAccelHandler.Handle | internal/handler/xaccel.go:47-114 | excluded methods are redirected to prefix ++ target and leave the store alone, unreadable bodies follow the fail-open flag, all others get 409 for a duplicate, the prefixed redirect for a first request and the flag's choice for an error, by the store's reply on the streamed key; each outcome counter and the cache counters grow by one exactly in their own case |
| Handlers.XAccelHandler.Allow | internal/handler/xaccel.go:118-122 | a redirect to prefix ++ target, counted once |
| Handlers.XAccelHandler.HandleStoreErr | internal/handler/xaccel.go:125-131 | redirect if fail-open, 500 otherwise |
| Invariant.RunKeepsInv | internal/store/cached_store.go:42-59 | every run of calls, sweeps and clock keeps the invariant that traces each L1 entry, backend entry and answer to an arming; no arming is ever revised and time moves forward |
| Safety.RefusalsAreJustified | internal/store/cached_store.go:42-59 | in every reachable state each refusal has an arming of its key, made by another call, with sample < arming + 2 windows + lag, and sample <= arming + window if the backend refused |
| Safety.AdmissionsExclude | internal/store/store.go:137-158 | any two admissions of a key, and an admission and a write left by a failed call, are strictly more than a window apart |
| Safety.ArmedKeyIsRefused | internal/store/store.go:147-154 | for a window after an arming the backend answers "duplicate" and changes nothing |
| Safety.WriteBlocksForAWindow | internal/store/store.go:79-94 | a backend write, even one whose reply was lost or that arrived after the error was reported, blocks the key for a window in every continuation |
| Safety.AnswersAreFinal | internal/store/cached_store.go:44-58 | a finished call keeps its answer and its deciding instant in every continuation, also when its failed write reaches the backend late |
| Safety.ResponseOfCall | internal/handler/xaccel.go:85-131 | a refused call gets a 409 and no other call does, an admitted one a redirect to prefix ++ target, a failed one what the flag selects |
| Safety.RedirectsAreBounded | internal/handler/xaccel.go:85-131 | in any closed interval of one window, counting by the deciding instant, a key gets at most one redirect, plus one per failure on it when failing open |
| Safety.ExactlyOneIsAdmitted | internal/store/cached_store.go:42-59 | of any positive number of overlapping error-free calls on an idle key with admissions within a window of each other, exactly one is admitted |
| Safety.BurstIsAnswered | internal/handler/xaccel.go:85-131 | of such a burst exactly one call is redirected to its prefixed target and all others get a 409 |
| Responses.ResponsesAreBounded | internal/handler/xaccel.go:85-131 | counting by the instant of return, the same bound holds for any interval of a window less the slowest return |
| Solo.SequentialCallIsARun | internal/store/cached_store.go:42-59 | the protocol has a run of every sequential `Call`, clock reading by clock reading and fault by fault, that yields its reply at the instant the code decides it, its L1 and its backend, and moves nothing else |
| Alone.SoloRunsAreSequentialCalls | internal/store/cached_store.go:42-59 | every run of a call alone with the clock until it returns is the sequential `Call` for the instants and the fault of its own steps, which are in order |
| Solo.SequentialSweepIsARun | internal/store/localcache.go:99-111 | the protocol has a run of 256 shard steps that leaves exactly the entries `LocalCache.Sweep` leaves and moves nothing else |
| Alone.SoloSweepsAreSequentialSweeps | internal/store/localcache.go:99-111 | every run of a sweep alone with the clock until it ends leaves exactly those entries, for the sample it started with |
| Histories.HistoryIsARun | internal/store/cached_store.go:42-59 | every history of calls, sweeps and late writes on any instances, with their instants and faults, is a run of the protocol that gives each query its answer at its own deciding instant and ends in the same tables |
| Serial.SerialRunIsAHistory | internal/store/cached_store.go:42-59 | the history read off the steps of any run in which calls, sweeps and late writes take turns makes sense: its queries are the calls one for one, answered as the fleet answers them at their own instants, and the tables are the fleet's |
| Serial.SerialRefinesBareIff | internal/store/cached_store.go:42-59 | every such run answers its calls as the bare backend iff, in its history, none looks up inside its instance's refresh period when the backend would not confirm the duplicate |
| Liveness.RefusalsDoNotSlide | internal/store/cached_store.go:44-58 | once two windows and the lag have passed since the last arming, a later call is refused only because the key was armed again meanwhile |
| Liveness.QuietCallIsAdmitted | internal/store/cached_store.go:44-58 | in every run from such a state, a call on the key that is over, has not failed and found nobody else arming the key is admitted |
| Liveness.QuietKeyIsAdmitted | internal/store/store.go:147-156 | and from every such state some run admits it, on any instance |
| Liveness.BoundIsTight | internal/store/cached_store.go:56-58 | for every window and lag some run refuses at arming + 2 windows + lag - 1 with one arming in the whole run |
| Liveness.RemovedEntriesHaveExpired | internal/store/localcache.go:50-58 | no step of any interleaving removes an L1 entry before its expiry |
| Liveness.UnexpiredEntryIsHit | internal/store/localcache.go:41-59 | a lookup before the expiry of the last write to the slot hits |
| Liveness.LookupSureToHitIff | internal/store/localcache.go:41-59 | with a sample before the expiry, taken before or after the entry was written, every reachable lookup at clock c hits iff c is before the expiry too |
| Liveness.LateArming | internal/store/localcache.go:41-45 | for any sample n before lookup c some run refuses on an arming later than n |
| Liveness.ArmingPrecedesIff | internal/store/localcache.go:41-45 | every reachable hit with sample n and lookup c rests on an arming no later than n iff n = c |
| Outage.OutageDrainsL1 | internal/store/cached_store.go:51-58 | once no backend call is answered and none is half done, L1 is never written, no call that had not returned is admitted, and each that is refused hit L1 with a sample within a window |
| Outage.OutageIsDecidedByFlag | internal/handler/xaccel.go:87-98 | a window later every new request that is answered gets the response the fail-open flag selects |
| Outage.NeverUp | cmd/server/main.go:237-241 | with a store that errors from the start L1 stays empty and no call is refused or admitted |
| MemoryBound.EntriesAreYoung | internal/store/localcache.go:99-111 | if a sweep completes every period, each entry was written less than window + period ago by a call that missed L1 and got a backend answer |
| MemoryBound.WritesAreAnsweredMisses | internal/store/cached_store.go:51-58 | in every interleaving the L1 writes are exactly the finished calls that missed L1 and got a non-error answer |
| MemoryBound.CacheLenIsBounded | internal/store/cached_store.go:73-75 | then L1 holds no more entries than the distinct keys written in that span |
| MemoryBound.LenIsBounded | internal/store/localcache.go:74-82 | counted shard by shard while the system runs on, L1 has no more entries than the distinct keys written from a window and a period before the count began until it ended |
| MemoryBound.UndisturbedLen | internal/store/localcache.go:74-82 | if nothing happens during the count, it is the size of the table |
| Refinement.DuplicateIff | internal/store/store.go:25-29 | a query finds its key taken iff an earlier event armed the key no more than a window ago, be it a query, one whose reply was lost, or a late write |
| Refinement.HitIffCovered | internal/store/cached_store.go:44-58 | L1 answers a query iff its lookup falls within a window of its instance's last refresh, which only that instance's queries, their instants and faults determine |
| Refinement.CachedRefinesBareIff | internal/store/cached_store.go:42-59 | with any instances, delays and faults, sweeps and late writes anywhere, cached and bare answers coincide on a history iff no query looks up inside its instance's refresh period when it fails or the backend no longer holds the key |
| Refinement.StickyRefinesBareIff | internal/store/cached_store.go:42-59 | if each key stays on one instance, they coincide iff no query looks up within a window of the stamp of a refresh and fails or reaches the backend after the entry of that refresh and of every late write since |
| Refinement.InstantRefinesBareIff | internal/store/cached_store.go:42-59 | if moreover calls take no time and never fail, they coincide iff no key is queried at its backend expiry instant and again within a window |
| Refinement.BackendCallsAdmitIff | internal/store/cached_store.go:48-51 | if each key stays on one instance, an answered query that falls through to the backend is admitted iff it is neither at the expiry instant nor within the life of an entry left by a lost reply or a late write |
| Refinement.FalsePositive | internal/store/cached_store.go:19 | the three-query histories, on two instances or on one, that refuse what the bare store admits |
| Refinement.SlowStamp | internal/store/localcache.go:63-71 | the two-query histories on one instance that do so because the first stamped its entry late |
| Histories.FalsePositiveHappens | internal/store/cached_store.go:19 | for every window above one the protocol reaches an L1 refusal whose sample is an instant at which the backend no longer holds the key, by way of a second instance |
| Histories.SlowStampHappens | internal/store/cached_store.go:51-58 | it reaches one on a single instance whenever a stamp may lag the backend by two or more |

## Left out

- The Redis client, its pool, Ping, Close and millisecond rounding of TTLs; Redis is an atomic set-if-absent whose call may fail before, after or during the write.
- The compression function of SHA-256 and hex encoding; both are one arbitrary function of the absorbed bytes.
- Configuration loading and validation; method exclusion is an arbitrary predicate, so upper-casing of methods is not modelled.
- Logging, Prometheus plumbing, middleware, the health endpoint, TLS, signals and Nginx; of the metrics only the outcome and cache counters are kept.
- Context deadlines; a timeout is one more store error.
- Int64 overflow of nanosecond times and clocks that run backwards; times are unbounded integers and the clock is monotone.
- `Hash` and `StreamingHash`, which are the two key functions without the prefix.
- Restarts of an instance, which empty its L1, and changes of the window between calls.
- Serial.SerialRefinesBareIff: runs in which calls, sweeps or late writes overlap are not compared with the bare backend, because they have no single order of calls to replay there; the safety results cover them.
- RWMutex fairness and memory reclamation; a lock region is one atomic step.
