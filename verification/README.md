# MCP Conduit: verified model of the gateway's stateful core

MCP Conduit is a gateway between MCP clients and MCP servers. This project models the parts of it whose
correctness rests on state, order and interleaving, and proves their promises for every input, every run and
every interleaving.

| Files | Part of the gateway |
|---|---|
| `JsonText`, `EscapeInjectivity`, `PrintInjectivity`, `CanonicalJson`, `KeyOrder`, `CacheKey` | JSON printing, recursive key sorting, cache keys and approval fingerprints |
| `SlidingBucket`, `SlidingWindow`, `BucketEviction` | the sliding-window limiter: one bucket against a log that never forgets, the bounded map, and what eviction does to the bound |
| `CompositeLimits` | the checks of one request, and many requests whose checks interleave at every `await` |
| `WaitQueue` | the polling FIFO queue in front of the limiter |
| `LruCache`, `CacheStore`, `CacheRuns` | the LRU, the cache store with its two secondary indexes, whole runs of the store |
| `Inflight`, `CachePath` | single flight, and the cacheable path of a tool call on top of it and of the store |
| `CircuitBreaker` | the breaker, with requests that report after the state has changed |
| `LineFraming`, `PendingRequests`, `RespawnBudget` | the stdio client: lines, pending requests, restarts |
| `Approvals` | governance approvals from the tool call to the decision and back |
| `Levenshtein` | suggestions for misspelt configuration keys |
| `Sequences`, `Numbers`, `Wrappers` | shared facts about sequences, sets and numbers, and `Option` |

Code that works by updating fields is a class with those fields; its methods are proved equal to functions on
values, and the promises are lemmas about runs of these functions. Runs are datatypes whose outermost
constructor is the latest step, so that every theorem about runs is an induction over them. Concurrency is a
state machine whose steps are the synchronous segments between two awaits. Times are integers (milliseconds);
where the source reads the clock twice in one operation the model has two readings. SHA-256 is an injective
constructor. Texts are sequences of UTF-16 code units where their content matters.

Where the code falls short of what its comments or its answers promise, the model follows the code and says exactly
when the promise holds:

- An own `__proto__` property is lost by the sorting loop (src/utils/deep-sort.ts:34-36), so the canonical text
  does not see it (`ProtoIsLost`). `PromiseNeedsNoProto`, `CacheKeyNeedsNoProto` and `BoundToArgs` say exactly for
  which values, cache keys and approvals "equal up to key order" holds; the theorems above them are stated up to
  key order and `__proto__` keys, for all values.
- `halfOpenRequests` is documented as the probes in flight (src/router/circuit-breaker.ts:83-89). A straggler's
  success frees a slot too; `ProbesWithinMaximum` gives the exact condition for the bound on real probes.
- `rejectAllPending` is documented to leave no request suspended (src/proxy/stdio-mcp-client.ts:141-149). With
  a reused JSON-RPC id it can: `ReuseStrandsRequest`, with the exact conditions in `RejectAllSettlesAll` and
  `OrphansExactly`.
- A line holding the JSON value `null` makes the reader throw (src/proxy/stdio-mcp-client.ts:417), which ends the
  gateway's process through the handler at src/index.ts:18-21. `ExitsAtNull` says exactly when.
- Eviction of buckets is by insertion, not by use (src/rate-limit/limiter.ts:72-81), and can drop live buckets. Then
  the window bound fails: one bucket more than the map can hold, and twice the limit is admitted at one instant
  (`OverfillingAdmitsTwice`). `BoundNeedsRoom` says exactly when it holds; the theorems about single runs ask that
  the run keeps the bucket (`KeepsBucket`), which `FewBucketsKept` gives for every run over few buckets.
- A denial always names a `reset_at` and a `retry_after` (src/rate-limit/limiter.ts:114-127), also under a limit of
  zero, which the configuration accepts except per minute and global or per client (src/config/schema.ts:263-276).
  Nothing is ever admitted then (`ZeroLimitNeverAdmits`); `ResetAtNeedsPositiveLimit` gives the exact condition.
- A streamed upstream reply has no body on the cacheable path, so it is answered, and cached, as an empty object
  (src/gateway/pipeline.ts:801-811). `AnswersComeFromUpstream` says which answer each reply gives.
- `half_open_max_requests: 0` is accepted (src/config/schema.ts:190-198); a tripped breaker then admits no request
  (`IdleHalfOpenAdmits`, `OpenAdmitsAfterTimeout`, `RecoveryByProbing`).

## Model

| member | source | states |
|---|---|---|
| PrintInjectivity.PrintInjective | src/utils/deep-sort.ts:46-48 | the JSON printer (escapes of section 25.5.2 of ECMA-262) gives two values the same text only if they are the same value |
| CanonicalJson.DeepSortCanonical | src/utils/deep-sort.ts:22-41 | two values sort to the same value exactly when they are equal up to key order at every depth and up to `__proto__` keys |
| CanonicalJson.StringifyCanonical | src/utils/deep-sort.ts:46-48 | equal canonical texts exactly for values equal up to key order and `__proto__` keys |
| CanonicalJson.StringifyUpToKeyOrder | src/utils/deep-sort.ts:46-48 | the promise of the module, for two values without `__proto__` keys: equal texts exactly for values equal up to key order at every depth |
| CanonicalJson.PromiseNeedsNoProto | src/utils/deep-sort.ts:46-48 | and for no other value: a value keeps that promise towards all values without `__proto__` keys exactly when it has none itself |
| CanonicalJson.SortingLosesProto | src/utils/deep-sort.ts:34-36 | a value with a `__proto__` key at any depth is not equal, up to key order, to its sorted form, which has the same text |
| CanonicalJson.ProtoIsLost | src/utils/deep-sort.ts:34-36 | with one it fails: a concrete pair of different values with one text |
| CanonicalJson.DeepSortKeepsValue | src/utils/deep-sort.ts:22-41 | sorting keeps the value (up to key order and `__proto__`) and is idempotent |
| KeyOrder.SortedInOrder | src/utils/deep-sort.ts:32-37 | at every depth the keys of a sorted value come in the engine's order: array indices by value, then the others by code units |
| KeyOrder.IndexExactly | src/utils/deep-sort.ts:32-37 | array indices are exactly the decimal texts of 0 to 4294967294 |
| KeyOrder.BeforeExactly | src/utils/deep-sort.ts:33 | the comparison of keys is that order, said by values and by the first unit that differs |
| CanonicalJson.SortValue | src/utils/deep-sort.ts:22-41 | the recursive loops that map arrays and assign sorted keys compute the sorted form the lemmas are about, integer-like keys in the engine's order |
| CacheKey.FilterArgs | src/cache/cache-key.ts:76-90 | the filter loop builds the filtered object |
| CacheKey.FilteredArgsMembers | src/cache/cache-key.ts:76-90 | filtering keeps exactly the arguments that are not ignored (and not `__proto__`), each once |
| CacheKey.CacheKeyIdentity | src/cache/cache-key.ts:40-61 | two requests have one cache key exactly when server, tool, tenant and group agree and the arguments that count agree up to key order and `__proto__` keys |
| CacheKey.CacheKeyUpToKeyOrder | src/cache/cache-key.ts:40-61 | when no counted argument has a `__proto__` key, exactly when they agree up to key order alone |
| CacheKey.CacheKeyNeedsNoProto | src/cache/cache-key.ts:40-61 | and for no other request: a request shares its key, among requests without `__proto__` keys, with its equals only, exactly when it has none itself |
| CacheKey.FingerprintIdentity | src/governance/runtime.ts:385-393 | approval fingerprints agree exactly when server, tool and arguments (up to key order and `__proto__` keys) agree, although the three parts are joined by line feeds |
| CacheKey.SameFingerprintSameArgs | src/governance/runtime.ts:385-393 | for one server and tool, whatever their names, equal fingerprints mean equal arguments up to key order and `__proto__` keys |
| CacheKey.FingerprintNeedsNoProto | src/governance/runtime.ts:385-393 | the fingerprint tells arguments apart up to key order alone exactly when they have no `__proto__` key |
| SlidingBucket.RetryAfterReachesReset | src/rate-limit/limiter.ts:114-127 | `retry_after` seconds reach `reset_at` and overshoot it by at most 1000 ms |
| SlidingBucket.PrunedAsLog | src/rate-limit/limiter.ts:50-65 | for every cutoff still to come the pruned bucket holds what a log that never forgets holds |
| SlidingBucket.WindowBound | src/rate-limit/limiter.ts:110-144 | in every history of a bucket each closed interval of the window's length holds at most `limit` admissions |
| SlidingBucket.WindowBoundUnder | src/rate-limit/limiter.ts:110-144 | and when consumes ask for different limits, those admitted under this limit or a lower one still number at most `limit` in each such interval |
| SlidingBucket.RemainingIsWhatFollows | src/rate-limit/limiter.ts:86-144 | `remaining` is the number of further consumes that would be admitted at that time; a check is allowed exactly if there is one, a consume if there was one before it |
| SlidingBucket.ResetAtTells | src/rate-limit/limiter.ts:86-144 | `reset_at` is the last time at which anything in the bucket counts after an admitted consume, the last at which all stamps count after another answer, and one window from now for an empty bucket |
| SlidingBucket.RetryAfterTells | src/rate-limit/limiter.ts:114-127 | exactly the denials name a pause, the least number of seconds, at least one, that reaches `reset_at` |
| SlidingBucket.BucketShape | src/rate-limit/limiter.ts:50-144 | stamps stay sorted, not in the future and at most `limit` |
| SlidingBucket.FullAdmitsNothing | src/rate-limit/limiter.ts:114-127 | a full bucket admits nothing while its oldest stamp is valid |
| SlidingBucket.DenialEndsAtReset | src/rate-limit/limiter.ts:110-127 | after a denial a consume under the same limit is admitted exactly when it comes strictly after the `reset_at` of the denial and the limit is positive |
| SlidingBucket.ResetNeedsPositiveLimit | src/rate-limit/limiter.ts:114-127 | every denial is lifted at its `reset_at` exactly for the limits from 1 on |
| SlidingWindow.StorageKeyInjective | src/rate-limit/limiter.ts:39-41 | different keys or windows never share a bucket, whatever the key contains |
| SlidingWindow.ResetReaches | src/rate-limit/limiter.ts:160-167 | a reset reaches exactly the key itself and the keys nested below it |
| SlidingWindow.BucketOfRun | src/rate-limit/limiter.ts:50-144 | in a run that keeps it a bucket lives as if its own operations were the only ones |
| SlidingWindow.AnswersAsLog | src/rate-limit/limiter.ts:86-144 | in every run that keeps the bucket `check` and `consume` answer as with a log that never forgets |
| SlidingWindow.AdmittedWithinLimit | src/rate-limit/limiter.ts:50-144 | in every run that keeps the bucket each closed interval of length `window_ms` holds at most `limit` admitted requests |
| SlidingWindow.AdmittedUnderLimit | src/rate-limit/limiter.ts:50-144 | with requests for different limits on one bucket, those admitted under this limit or a lower one keep the bound |
| SlidingWindow.RemainingExact | src/rate-limit/limiter.ts:86-144 | in every state of the limiter `remaining` is how many further requests are admitted at that time, and exactly the denials name a pause |
| SlidingWindow.ResetAtExact | src/rate-limit/limiter.ts:110-127 | after a denial, in every run that keeps the bucket and its limit, a consume is admitted exactly when it is strictly later than `reset_at` and the limit is positive |
| SlidingWindow.ResetAtNeedsPositiveLimit | src/rate-limit/limiter.ts:114-127 | on every bucket the limiter keeps the promise of `reset_at` in all such runs exactly for the limits from 1 on |
| SlidingWindow.ZeroLimitNeverAdmits | src/rate-limit/limiter.ts:114-127 | with limit zero it fails: a client that waits for the `reset_at` it was given is denied again |
| SlidingWindow.RunWithinCap | src/rate-limit/limiter.ts:72-81 | the map of buckets never exceeds its cap, for every cap from 1 on and every run |
| SlidingWindow.EvictionKeepsNewest | src/rate-limit/limiter.ts:72-81 | a full map keeps exactly its newest buckets, nine tenths of the cap rounded down, in their order and unchanged; one that is not full keeps all |
| BucketEviction.OrderByAge | src/rate-limit/limiter.ts:50-144 | in every run the map keeps its buckets in the order in which they were made, which is the order of their eviction, and none without stamps |
| BucketEviction.FewBucketsKept | src/rate-limit/limiter.ts:72-81 | a run over no more buckets than the map can hold keeps every bucket it does not reset |
| BucketEviction.OverfillingAdmitsTwice | src/rate-limit/limiter.ts:72-81 | for every cap and positive limit, a run over one bucket more that admits twice the limit to one bucket at one instant |
| BucketEviction.BoundNeedsRoom | src/rate-limit/limiter.ts:72-81 | the window bound of a bucket holds in all runs over at most n buckets exactly when the map can hold n buckets (or the limit admits nothing) |
| SlidingWindow.SlidingWindowLimiter.GetValid | src/rate-limit/limiter.ts:50-65 | returns the valid stamps and leaves exactly them, deleting an empty bucket |
| SlidingWindow.SlidingWindowLimiter.EvictIfFull | src/rate-limit/limiter.ts:72-81 | a full map loses exactly its oldest buckets, down to nine tenths of the cap |
| SlidingWindow.SlidingWindowLimiter.Check | src/rate-limit/limiter.ts:86-104 | answer and new state of a check |
| SlidingWindow.SlidingWindowLimiter.Consume | src/rate-limit/limiter.ts:110-144 | answer and new state of a consume, with eviction before a new bucket is inserted |
| SlidingWindow.SlidingWindowLimiter.GetUsage | src/rate-limit/limiter.ts:149-155 | counts the valid stamps and gives the oldest |
| SlidingWindow.SlidingWindowLimiter.Reset | src/rate-limit/limiter.ts:160-167 | deletes exactly the buckets with the prefix and keeps the order of the others |
| SlidingWindow.SlidingWindowLimiter.ResetAll | src/rate-limit/limiter.ts:172-174 | forgets everything |
| CompositeLimits.ChecksDistinct | src/rate-limit/rate-limiter.ts:45-99 | the checks of one request are on pairwise distinct buckets, whatever the names contain; which checks they are is stated in the next rows |
| CompositeLimits.BuiltChecks | src/rate-limit/rate-limiter.ts:296-329 | a built check has the given key, one of the configured limits and the window of that limit, 60 000, 3 600 000 or 86 400 000 ms, and every configured limit has its check |
| CompositeLimits.RequestChecksFor | src/rate-limit/rate-limiter.ts:45-99 | a request is checked against exactly the limits set for it, each in its window: global, client, and by the first override of the server the server, its tool, and the client on the tool |
| CompositeLimits.ClientChecksFor | src/rate-limit/rate-limiter.ts:45-57 | the checks of the client side are exactly the global and the client limits |
| CompositeLimits.ServerChecksFor | src/rate-limit/rate-limiter.ts:63-89 | those of the server side are exactly what the first override of the server sets |
| CompositeLimits.ChecksInOrder | src/rate-limit/rate-limiter.ts:45-99 | broad limits come before narrow ones and short windows before long ones, which decides who denies a request |
| CompositeLimits.StampsOfRequest | src/rate-limit/rate-limiter.ts:248-275 | in every interleaving a request has added one timestamp per check it passed, in order, and no other; allowed means all, denied at check i keeps the first i |
| CompositeLimits.VerdictExactly | src/rate-limit/rate-limiter.ts:259-275 | in every interleaving a request is denied exactly by a check that is denied, and allowed exactly when all its checks have passed |
| CompositeLimits.StampsAreDistinct | src/rate-limit/rate-limiter.ts:259-275 | for checks on distinct buckets, no bucket is charged twice for one request, and exactly the buckets of the passed checks are charged |
| CompositeLimits.RequestChargedOnce | src/rate-limit/rate-limiter.ts:45-128 | so it is for every request, whatever the names of its client, server and tool contain |
| CompositeLimits.AllowedWithinLimit | src/rate-limit/rate-limiter.ts:248-275 | in every interleaving that keeps a bucket at most `limit` allowed requests used it within any closed interval of its window's length |
| CompositeLimits.AllowedWithinCap | src/rate-limit/rate-limiter.ts:248-275 | with no more buckets in use than the map can hold, that is so in every interleaving without a reset of the bucket |
| CompositeLimits.CheckHolds | src/rate-limit/rate-limiter.ts:248-275 | each check holds for the requests that are subject to it, even if others charge the same bucket under other limits |
| CompositeLimits.ConfiguredLimitsHold | src/rate-limit/rate-limiter.ts:45-128 | end to end: of the requests that the configuration limits under a key at most the configured number is allowed within any closed minute, hour or day, in every interleaving that keeps the bucket |
| CompositeLimits.ClientLimitsHold | src/rate-limit/rate-limiter.ts:52-54 | for instance every client is allowed no more requests per closed minute, hour and day than `per_client` gives it |
| CompositeLimits.AllowedIsCharged | src/rate-limit/rate-limiter.ts:259-275 | no allowed request escapes these counts: it was charged for every check it is subject to |
| CompositeLimits.LookingChangesNothing | src/rate-limit/rate-limiter.ts:280-285 | a check changes no answer that any other check or consume gives at the same time |
| CompositeLimits.LooksPassTogether | src/rate-limit/rate-limiter.ts:104-106 | checking without consuming ends at the first limit that by itself would deny the request, with its answer, and passes exactly when there is none |
| CompositeLimits.LooksTakeNothing | src/rate-limit/rate-limiter.ts:278-285 | the second loop takes nothing from any bucket and collects what each limit by itself would say |
| CompositeLimits.AloneIsTrace | src/rate-limit/rate-limiter.ts:248-275 | an uninterrupted consuming request is such a process, decided in the end, and what it returns is the answer that denied its last step |
| CompositeLimits.MostRestrictive | src/rate-limit/rate-limiter.ts:278-285 | the loop finds the first answer with the least remaining quota |
| CompositeLimits.RateLimiter.FirstDenied | src/rate-limit/rate-limiter.ts:259-275 | the consuming loop, uninterrupted, stops exactly where the request's process would |
| CompositeLimits.RateLimiter.EvaluateChecks | src/rate-limit/rate-limiter.ts:248-293 | an uninterrupted request is blocked by the first denied check, with its answer, or gets the most restrictive of the answers given afterwards |
| WaitQueue.ResolveTakesFreeSlots | src/rate-limit/queue.ts:127-142 | the resolving loop serves min(waiting, free slots) entries and adds exactly one stamp for each |
| WaitQueue.SplitByDeadline | src/rate-limit/queue.ts:111-125 | rejecting takes out exactly the entries whose deadline has come and keeps exactly the others, both in the order of the list |
| WaitQueue.PassKeyServes | src/rate-limit/queue.ts:103-147 | one key's turn rejects the expired entries, resolves the FIFO prefix the slots allow, keeps the rest, and touches no other key or outcome |
| WaitQueue.PassServesKeys | src/rate-limit/queue.ts:103-147 | a pass does so for every key at the very state its turn finds: its list untouched, its bucket untouched or emptied by an eviction; exactly one slot is taken for each entry resolved, and afterwards only an eviction touches the bucket |
| WaitQueue.TurnAfterPrefix | src/rate-limit/queue.ts:103-147 | the state a key's turn finds is the one the pass over the keys before it has left |
| WaitQueue.PassKeyBelowCap | src/rate-limit/queue.ts:127-142 | below the cap of the limiter a turn adds at most one bucket and leaves all others alone |
| WaitQueue.PassServesExactly | src/rate-limit/queue.ts:103-147 | with room for all its keys in the limiter a pass resolves, for each key, min(survivors, slots free when the pass began) and adds exactly as many stamps |
| WaitQueue.TickServesEveryKey | src/rate-limit/queue.ts:100-157 | one timer tick serves every key in this sense and keeps the invariants of the queue |
| WaitQueue.TickServesExactly | src/rate-limit/queue.ts:100-157 | with room for all waiting keys, exactly how many entries of each key a tick resolves and how many slots it takes |
| WaitQueue.TickKeepsPlaces | src/rate-limit/queue.ts:100-157 | a tick never reorders the keys, and a list that is left keeps its limit and its window |
| WaitQueue.EnqueueGood | src/rate-limit/queue.ts:56-85 | a disabled queue and a full list settle the new entry as disabled or as full and change nothing else; otherwise it waits at the end of its list, which keeps the limit and window of its first caller or is new and last in the order, and no outcome and no other list changes |
| WaitQueue.StopRejectsAll | src/rate-limit/queue.ts:169-181 | stopping rejects exactly the entries that wait and changes no other outcome |
| WaitQueue.EveryEntryAccountedFor | src/rate-limit/queue.ts:56-181 | in every run every entry is exactly one of waiting and settled, no list exceeds `max_queue_size`, and the timer runs exactly while somebody waits |
| WaitQueue.OutcomesTellHistory | src/rate-limit/queue.ts:56-181 | in every run an entry is resolved exactly if in some tick, unexpired, its place in line was among the slots free at the turn of its key, timed out exactly if a tick found it past its deadline, and refused or stopped exactly by its enqueue or by a stop |
| WaitQueue.RequestQueue.Enqueue | src/rate-limit/queue.ts:56-93 | new queue after an entry: the outcome of a refused one written out, and otherwise its place, the limit and window of its list, and what stays |
| WaitQueue.RequestQueue.RejectExpired | src/rate-limit/queue.ts:111-125 | the splicing loop leaves the survivors and settles the expired |
| WaitQueue.RequestQueue.ResolveAvailable | src/rate-limit/queue.ts:127-142 | the check-and-consume loop on the real limiter does what the lemma above counts |
| WaitQueue.RequestQueue.ProcessKey | src/rate-limit/queue.ts:103-147 | one key of one tick: new queue and new limiter |
| WaitQueue.RequestQueue.ProcessAllPendingRequests | src/rate-limit/queue.ts:100-157 | the whole tick in insertion order, and the end of polling when nobody waits |
| WaitQueue.RequestQueue.Stop | src/rate-limit/queue.ts:169-181 | the two loops of `stop` |
| LruCache.ByteBoundNeverEvicts | src/cache/cache-store.ts:35-58 | a byte bound of max entries times the largest entry never evicts: the count bound has made room before |
| LruCache.LruCache.Get | src/cache/cache-store.ts:63-65 | a lookup makes the key the most recently used one |
| LruCache.LruCache.Set | src/cache/cache-store.ts:35-58 | storing disposes of the old value or, in a full cache, of the least recently used slot, and of nothing else |
| LruCache.LruCache.MakeRoom | src/cache/cache-store.ts:42-48 | the loop over the byte bound |
| LruCache.LruCache.Delete | src/cache/cache-store.ts:112-120 | deleting disposes of the slot |
| LruCache.LruCache.Clear | src/cache/cache-store.ts:220-223 | clearing disposes of every slot |
| CacheStore.ToolKeyInjective | src/cache/cache-store.ts:54-55 | `tool@server` keys tell tools and servers apart when server ids contain no `@` |
| CacheStore.ToolKeyAmbiguous | src/cache/cache-store.ts:54-55 | every server id with an `@` shares its tool keys with another tool of another server |
| CacheStore.SetListings | src/cache/cache-store.ts:52-57 | after the dispose callbacks of a `set` the indexes are exact for what is left |
| CacheStore.CacheStore.constructor | src/cache/cache-store.ts:28-61 | an empty store satisfies the invariant |
| CacheStore.CacheStore.Get | src/cache/cache-store.ts:63-82 | a hit is the stored entry, at most `ttl` seconds old; an older one is deleted; hits and misses are counted |
| CacheStore.CacheStore.Set | src/cache/cache-store.ts:89-107 | an oversized entry changes nothing, another one is stored last, over its old value or the least recently used entry, and the indexes stay exact |
| CacheStore.CacheStore.Delete | src/cache/cache-store.ts:112-120 | removes exactly the key, from the map and from both indexes |
| CacheStore.CacheStore.DeleteByServer | src/cache/cache-store.ts:126-146 | removes and counts exactly the entries of the server |
| CacheStore.CacheStore.DeleteByTool | src/cache/cache-store.ts:151-173 | removes and counts exactly the entries of the tool of the server |
| CacheStore.CacheStore.Dispose | src/cache/cache-store.ts:52-57 | takes the key out of both index sets of the value |
| CacheStore.CacheStore.Clear | src/cache/cache-store.ts:220-227 | empties map, indexes and counters |
| CacheRuns.StoreWithinMap | src/cache/cache-store.ts:63-173 | in every run the store holds a part of what an unbounded map would hold: it never invents, revives or alters an entry |
| CacheRuns.LookupsAsMap | src/cache/cache-store.ts:63-173 | as long as nothing is evicted every lookup answers as that map, expired entries aside |
| CacheRuns.RecencyByLastUse | src/cache/cache-store.ts:63-107 | in every run the keys are in the order of their last uses |
| CacheRuns.VictimIsLeastRecentlyUsed | src/cache/cache-store.ts:41-58 | a full store gives up exactly the entry whose last use is the longest ago |
| CacheRuns.HitsExactly | src/cache/cache-store.ts:63-173 | in every run a lookup finds exactly the entry that was stored under the key and since then neither replaced, deleted nor given up as the least recently used, as long as it is at most `ttl` seconds old |
| Inflight.SingleFlight | src/cache/inflight.ts:30-64 | at any time at most one unfinished factory run per key |
| Inflight.JoinersShareOutcome | src/cache/inflight.ts:36-40 | every caller gets the outcome, value or error, of the one run it led or joined, for the key it asked for |
| Inflight.OneRunPerLeader | src/cache/inflight.ts:44-63 | factory runs are as many as the callers that were not coalesced |
| Inflight.EmptyWhenAllClean | src/cache/inflight.ts:52-60 | the map is empty exactly when all runs have settled and cleaned up |
| Inflight.NobodyIsStuck | src/cache/inflight.ts:30-64 | a waiting caller waits for nothing but its run |
| Inflight.AlwaysGood | src/cache/inflight.ts:30-64 | the map holds exactly the unfinished runs, and `coalesced` counts the callers that joined |
| Inflight.InflightTracker.Deduplicate | src/cache/inflight.ts:30-64 | the synchronous part of a call joins the run of the key or starts one, and leaves nothing when the factory throws |
| Inflight.InflightTracker.Finally | src/cache/inflight.ts:52-54 | the reaction to settling deletes the entry of that run and of no other |
| CachePath.AnswersComeFromUpstream | src/gateway/pipeline.ts:703-917 | in every interleaving each successful answer (hit, miss, coalesced, tool error) is the result in an error-free reply of upstream, or an empty object if that reply was streamed or had no result, to a call with the same server, tool, tenant, group and filtered arguments, up to key order and `__proto__` keys |
| CachePath.AnswersForEqualArgs | src/gateway/pipeline.ts:703-917 | when no request has a `__proto__` key, to a call with the same filtered arguments up to key order alone |
| CachePath.AnswersNeedNoProto | src/gateway/pipeline.ts:703-917 | a request is answered, in all runs among requests without `__proto__` keys, with what upstream gave for its own arguments up to key order exactly when it has none itself |
| CachePath.HitsAreFresh | src/gateway/pipeline.ts:722-736 | a hit is at most as old as the time to live under the policy of the call that stored it, counted from when that call stored it, after upstream's reply to a call with the same identity, and is no object with a member `isError` that is true |
| CachePath.OnlySuccessIsCached | src/gateway/pipeline.ts:801-866 | every cached result is what some error-free reply gave, and no object with a member `isError` that is true, wherever that member stands |
| CachePath.AnswersTellReplies | src/gateway/pipeline.ts:798-917 | every answer that is not a hit or a rate limit is what the reply to the run says: an exception, the code and message of a JSON-RPC error or else -32603 and "Upstream error", a tool error exactly if `isError` is true, or a miss |
| CachePath.FinishExactly | src/gateway/pipeline.ts:815-903 | the end of a call: errors and tool errors leave the store alone, any other result is a miss and is stored, with the time to live of its policy, exactly unless it is too large; no other answer and no other entry but the evicted changes |
| CachePath.LookUpExactly | src/gateway/pipeline.ts:703-736 | a lookup hits exactly an entry of its key within its time to live, and drops one that has outlived it |
| CachePath.NextSound | src/gateway/pipeline.ts:703-917 | every step keeps the invariant that ties store, flights, receipts and answers |
| CachePath.Pipeline.LookUpCall | src/gateway/pipeline.ts:703-736 | the lookup on the real store is a step of the machine and answers a hit with the stored result |
| CachePath.Pipeline.CallUpstream | src/gateway/pipeline.ts:798-814 | the call to the real tracker is a step of the machine |
| CachePath.Pipeline.FinishCall | src/gateway/pipeline.ts:815-917 | on the real store: a delivered result is answered as a tool error exactly if it has a member `isError` that is true and otherwise as a miss, which is stored unless it is too large; no other answer changes the store |
| CircuitBreaker.SlotsNeverLeak | src/router/circuit-breaker.ts:52-113 | for every configuration, in every run with stragglers and resets, 0 <= halfOpenRequests <= max, and it is at most the probes in flight, which exceed it at most by the successes of stragglers |
| CircuitBreaker.IdleHalfOpenAdmits | src/router/circuit-breaker.ts:71-76 | half-open with none of its probes in flight the breaker admits exactly when `half_open_max_requests` is at least 1 |
| CircuitBreaker.ProbesWithinMaximum | src/router/circuit-breaker.ts:98-106 | at most `half_open_max_requests` real probes are in flight in every run exactly when `success_threshold` is at most 1 or no probe is admitted at all |
| CircuitBreaker.StragglerOverfills | src/router/circuit-breaker.ts:98-106 | for every other configuration a run with more probes than the maximum |
| CircuitBreaker.SuccessesClose | src/router/circuit-breaker.ts:98-107 | without failure or reset a half-open breaker closes at exactly the `success_threshold`-th success (the first, if that is not positive) |
| CircuitBreaker.RecoveryByProbing | src/router/circuit-breaker.ts:80-107 | probing one request at a time never deadlocks and closes the breaker, exactly when `half_open_max_requests` is at least 1 |
| CircuitBreaker.CountersTellHistory | src/router/circuit-breaker.ts:91-144 | closed, `failureCount` is the number of failures since the last success or reset; otherwise `lastFailureTime` is the time of the latest failure |
| CircuitBreaker.LeavesClosedExactly | src/router/circuit-breaker.ts:120-130 | the breaker leaves closed, to open, at exactly the `failure_threshold`-th failure in a row (the first, if that is not positive) |
| CircuitBreaker.OpenAdmitsAfterTimeout | src/router/circuit-breaker.ts:57-69 | open, it admits exactly from `reset_timeout_ms` after the latest failure on, and only if `half_open_max_requests` is at least 1 |
| CircuitBreaker.TripsAreOpenings | src/router/circuit-breaker.ts:173-175 | `tripCount` is the number of entries into open |
| CircuitBreaker.StateTellsHistory | src/router/circuit-breaker.ts:52-170 | in every run state, half-open successes and slots are what the events alone say: closed until enough failures in a row, open until the timeout, half-open until a failure reopens or enough successes close it, closed by every reset, and not by the success of a straggler while open |
| CircuitBreaker.AdmitsExactly | src/router/circuit-breaker.ts:52-78 | so a request is admitted exactly when the history says so; a closed breaker admits every request and does not change |
| CircuitBreaker.FailureTimeTold | src/router/circuit-breaker.ts:120-170 | `lastFailureTime` is the time of the latest failure since the last reset |
| CircuitBreaker.CircuitBreaker.TryExecute | src/router/circuit-breaker.ts:52-78 | answer and new state of `canExecute`, which `AdmitsExactly` and `StateTellsHistory` characterise for every run |
| CircuitBreaker.CircuitBreaker.RecordSuccess | src/router/circuit-breaker.ts:91-113 | new state of `onSuccess` |
| CircuitBreaker.CircuitBreaker.RecordFailure | src/router/circuit-breaker.ts:120-144 | new state of `onFailure` |
| CircuitBreaker.CircuitBreaker.Reset | src/router/circuit-breaker.ts:164-170 | new state of `reset` |
| LineFraming.LinesJoinBack | src/proxy/stdio-mcp-client.ts:401-405 | cutting a text into lines loses nothing, and neither lines nor leftover hold a line feed |
| LineFraming.LinesUnique | src/proxy/stdio-mcp-client.ts:401-405 | lines and a leftover joined are cut into the same lines and leftover |
| JsonText.NoLineFeedInValue | src/proxy/stdio-mcp-client.ts:200-202 | no printed JSON value holds a line feed |
| LineFraming.PrintedMessagesAreLines | src/proxy/stdio-mcp-client.ts:200-202 | JSON texts written one per line come out one per line: no JSON text holds a line feed |
| LineFraming.TrimExactly | src/proxy/stdio-mcp-client.ts:404 | trimming takes the white space of ECMA-262 off both ends, all of it and nothing else |
| LineFraming.MessagesArrive | src/proxy/stdio-mcp-client.ts:284-416 | a peer that prints one value other than null on a line, with blank lines and white space as it likes, is read back message by message, verbatim and in order, however its output is cut into chunks |
| LineFraming.ChunksMerge | src/proxy/stdio-mcp-client.ts:284-287 | feeding two chunks is feeding their concatenation |
| LineFraming.ChunkingDoesNotMatter | src/proxy/stdio-mcp-client.ts:284-287 | the lines handled, the leftover and the exit depend on the received text alone, and the leftover holds no line feed |
| LineFraming.ExitsAtNull | src/proxy/stdio-mcp-client.ts:401-417 | the process ends exactly when some complete line, trimmed, is a JSON text (section 2 of RFC 8259) with the value `null` |
| LineFraming.TrimmedNull | src/proxy/stdio-mcp-client.ts:404-412 | of the trimmed lines exactly the text `null` has that value: trimming cuts off all the white space JSON allows |
| LineFraming.NullTextExits | src/proxy/stdio-mcp-client.ts:408-417 | for instance at the text `null` followed by a line feed |
| LineFraming.IndexOfLineFeed | src/proxy/stdio-mcp-client.ts:403 | the first line feed, or -1 |
| LineFraming.LineReader.OnChunk | src/proxy/stdio-mcp-client.ts:284-287 | buffer and handled lines after a chunk |
| LineFraming.LineReader.DrainBuffer | src/proxy/stdio-mcp-client.ts:401-416 | the loop over the buffer, which ends because the buffer gets shorter |
| PendingRequests.AlwaysGood | src/proxy/stdio-mcp-client.ts:190-207 | in every run, with ids reused at will, the running timers are exactly those of the unsettled requests and every pending entry is unsettled and under its own id |
| PendingRequests.TimerSettles | src/proxy/stdio-mcp-client.ts:191-196 | no request waits for ever: its timer runs and settles it |
| PendingRequests.RejectAllSettlesAll | src/proxy/stdio-mcp-client.ts:367-375 | rejecting all pending leaves none unsettled exactly when every unsettled request is pending |
| PendingRequests.OrphansExactly | src/proxy/stdio-mcp-client.ts:190-207 | exactly two kinds of step break that: sending with the id of a pending request, and a late write failure of a settled request whose id was taken |
| PendingRequests.AnswerableRuns | src/proxy/stdio-mcp-client.ts:164-208 | every unsettled request is answerable all along a run exactly when the run has no such step |
| PendingRequests.ReplySettlesItsRequest | src/proxy/stdio-mcp-client.ts:417-453 | a reply settles exactly the unsettled request with its id |
| PendingRequests.DistinctIdsAnswered | src/proxy/stdio-mcp-client.ts:164-208 | in every run that reuses no outstanding id all unsettled requests stay answerable (section 5 of the JSON-RPC 2.0 specification) and rejecting all settles all |
| PendingRequests.HistoryTold | src/proxy/stdio-mcp-client.ts:181-206 | in every run the entry of an id belongs to the latest request sent under it unless something has deleted it since, and own ids count up from 1 |
| PendingRequests.OutcomesTellHistory | src/proxy/stdio-mcp-client.ts:164-208 | a promise is resolved exactly by the reply to the id it is pending under, timed out exactly by its own timer, failed exactly by its own write, and rejected exactly by a rejection that finds it pending; what is settled stays |
| PendingRequests.ReuseStrandsRequest | src/proxy/stdio-mcp-client.ts:198 | two requests with one id: the first outlives the rejection of all |
| PendingRequests.StdioClient.DoForward | src/proxy/stdio-mcp-client.ts:181-201 | registers a request under the given or the next own id, with its timer |
| PendingRequests.StdioClient.OnTimeout | src/proxy/stdio-mcp-client.ts:191-196 | the timer callback |
| PendingRequests.StdioClient.OnWriteError | src/proxy/stdio-mcp-client.ts:202-206 | the callback of a failed write |
| PendingRequests.StdioClient.OnReply | src/proxy/stdio-mcp-client.ts:417-453 | a parsed line with an id |
| PendingRequests.StdioClient.RejectAllPending | src/proxy/stdio-mcp-client.ts:367-375 | the loop clears and rejects every pending entry |
| RespawnBudget.RecordTellsHistory | src/proxy/stdio-mcp-client.ts:341-361 | the counter is the number of fast exits since it was last cleared, at most 10, and the pause counts from the latest exit |
| RespawnBudget.AtMostTenSpawns | src/proxy/stdio-mcp-client.ts:219-231 | between two clearing events no run spawns more than 10 processes |
| RespawnBudget.CrashLoopIsBounded | src/proxy/stdio-mcp-client.ts:219-240 | a run without reset, signal kill or process living 2000 ms spawns at most 10 processes |
| RespawnBudget.SpawnsAreSpaced | src/proxy/stdio-mcp-client.ts:232-240 | the spawn after the n-th fast exit comes at least min(250 * 2^(n-1), 30000) ms after it |
| RespawnBudget.LaunchExactly | src/proxy/stdio-mcp-client.ts:219-240 | from the history alone: a process is spawned exactly when none lives, the client is not stopped, fewer than 10 fast exits in a row lie behind and the pause after the latest is over; otherwise the refusal and the remaining wait |
| RespawnBudget.PausesDouble | src/proxy/stdio-mcp-client.ts:351-355 | the pauses in milliseconds: 250, 500, 1000, 2000, 4000, 8000, 16000 and then 30000 |
| RespawnBudget.FastExitExactly | src/proxy/stdio-mcp-client.ts:341-361 | an exit counts as fast exactly if no signal caused it and the process lived less than 2000 ms; any other exit clears the count |
| RespawnBudget.SpentStaysDown | src/proxy/stdio-mcp-client.ts:227-231 | with the budget spent nothing is spawned until it is reset |
| RespawnBudget.ChildProcess.EnsureProcess | src/proxy/stdio-mcp-client.ts:219-282 | running, shut down, out of budget, cooling down or spawned, in this order |
| RespawnBudget.ChildProcess.OnExit | src/proxy/stdio-mcp-client.ts:341-361 | the record after an exit, with the doubled and capped pause |
| RespawnBudget.ChildProcess.ResetRespawnBudget | src/proxy/stdio-mcp-client.ts:382-385 | clears the record |
| Approvals.AlwaysTold | src/governance/store.ts:113-274 | in every run, under policies that may change from event to event, each row tells its history: who asked for what and when, under which policy it expires, and which one decision, if any, was accepted and under which policy |
| Approvals.GrantTracesBack | src/governance/runtime.ts:264-281 | an approval id is granted exactly when it was created by a call of the same client, workspace, server, tool and arguments (up to key order and `__proto__` keys), is unexpired under the policy at creation, and was approved once, in time, by a holder of a role required by the policy at that time, other than the requester unless that policy allows it |
| Approvals.ObjectionExactly | src/governance/runtime.ts:301-332 | each refusal of a decision in exactly its cases, and none exactly for an open row, decided in one's own name by an approver the policy admits |
| Approvals.MayDecideExactly | src/governance/runtime.ts:318-332 | who that is, written out: a holder, by some binding, of a configured role (owner, admin or approver by default), and the requester only if self-approval is allowed |
| Approvals.EntitledIsAccepted | src/governance/runtime.ts:283-336 | in every run such a decision on an undecided, unexpired request is accepted |
| Approvals.EntitledDecisionGrants | src/governance/runtime.ts:264-336 | and final: whatever happens afterwards, an approval opens the gate until its expiry for the request it was asked for and for no other, and a rejection never does |
| Approvals.MatchesExactly | src/utils/pattern.ts:12-18 | a pattern names itself, and with a trailing `*` everything that starts with the rest of it |
| Approvals.GateOpensRequest | src/governance/store.ts:113-172 | a call without an approval id finds the open request of its subject, or makes one that is open until its expiry, by default an hour later |
| Approvals.SameSubjectUpToKeyOrder | src/governance/runtime.ts:385-393 | for arguments without `__proto__` keys a grant is bound to the arguments up to key order alone |
| Approvals.BoundToArgs | src/governance/runtime.ts:385-393 | and for no others: the condition is exact |
| Approvals.GrantIgnoresProto | src/governance/runtime.ts:264-281 | a grant for the arguments `{}` is one for `{"__proto__": null}`, and conversely |
| Approvals.DecidedStays | src/governance/store.ts:226-254 | a row that is approved, rejected or expired never changes again |
| Approvals.AlwaysOnePending | src/governance/store.ts:113-171 | in every run at most one request per client, workspace, server, tool and fingerprint is pending |
| Approvals.PruneExactly | src/governance/store.ts:350-360 | reading the table expires the pending rows whose time has come, and does nothing else |
| Approvals.GovernanceStore.PruneExpiredApprovalRequests | src/governance/store.ts:350-360 | expires exactly the pending rows whose time has come |
| Approvals.GovernanceStore.CreateOrReuseApprovalRequest | src/governance/store.ts:113-172 | returns the open request of the subject, or a new one |
| Approvals.GovernanceStore.DecideRequest | src/governance/store.ts:226-254 | decides a pending row and no other |
| Approvals.GovernanceStore.VerifyApprovalGrant | src/governance/store.ts:256-274 | finds the row exactly when it is approved, matches and is unexpired |
| Approvals.GovernanceRuntime.GetRolesForClient | src/governance/runtime.ts:82-92 | exactly the roles that some binding of the workspace gives the client, once each and in the fixed order |
| Approvals.GovernanceRuntime.Reload | src/gateway/gateway.ts:398-410 | a reload replaces the policy and keeps the rows |
| Approvals.GovernanceRuntime.CreateApprovalRequest | src/governance/runtime.ts:233-241 | the new table, with the default time to live of an hour |
| Approvals.GovernanceRuntime.DecideApproval | src/governance/runtime.ts:283-364 | accepted exactly for a pending row, in one's own name, by a holder of a required role who is not the requester unless self-approval is allowed; otherwise the first objection in the order of the checks, and nothing changes but expiry |
| Approvals.GovernanceRuntime.EnforceApprovalRequirement | src/gateway/pipeline.ts:1060-1131 | the gate opens exactly for a granted id and refuses any other id; without an id a request is created or reused |
| Levenshtein.DistanceIsLeast | src/config/loader.ts:221-241 | the recurrence gives the least number of insertions, deletions and substitutions over all edit scripts |
| Levenshtein.NoScriptIsShorter | src/config/loader.ts:232-236 | no edit script, at whatever positions it edits, is shorter |
| Levenshtein.ShortestWorks | src/config/loader.ts:232-236 | one edit script is as short |
| Levenshtein.ComputeDistance | src/config/loader.ts:221-241 | the nested loops fill the table with the distances of all prefixes and return that of the whole texts |
| Levenshtein.FindClosestKey | src/config/loader.ts:243-256 | the first known key of least distance among those within 3, or none if there is none |

## Left out

- HTTP transport, admin routes, dashboard, CLI, telemetry, log database, webhooks, plugin hooks: input, output and plumbing.
- Redis limiter and second-level cache: stores outside the process with another specification.
- SHA-256, tokens, URL and path checks: library code; the digest is injective here.
- SQL text and row conversion: the approvals table is a map, and each operation reads the clock once although the code reads it several times.
- Policies, access lists, guardrails, wildcard namespaces, redaction, pagination, configuration merging: first-match rules that would only add easy members.
- Replica health hysteresis, managed runtime rollback, waiting through `consumeWithQueue`, `CacheStore.deleteByPrefix`: not part of this model.
- JavaScript `undefined` inside arguments, and numbers by value: numbers are their printed texts, so -0 is 0, and the infinities that a parsed `1e999` gives, printed as `null`, are excluded.
- What a streamed reply holds: on the cacheable path nobody reads the stream.
- Freshness after a destructive call: invalidation runs before the upstream call (src/gateway/pipeline.ts:575-594), so entries may be stored again while it runs.
- A factory that calls `deduplicate` for its own key before it returns: no factory of the gateway does.
- Recovery through routing: the router never selects an open replica (src/router/registry.ts:571-580), so the breaker's recovery is stated for requests that reach it.
- The audit trail of approvals, and the choice of fresh row ids: ids are assumed not to repeat.
- Notifications and session ids of the stdio client; of the lines handed to the parser only the value `null` matters to the reader.
- Decoding of chunks cut inside a UTF-8 sequence, several live children at a time, and an `error` event of a child that lives on: the stdio model starts from decoded text and one child.
- SlidingWindow.SlidingWindowLimiter.EvictIfFull: the target is nine tenths of the cap rounded down; the code computes it in floating point, where rounding of `maxBuckets * 0.9` could differ for huge caps.
- CompositeLimits.RateLimiter.EvaluateChecks: runs at one clock reading and without interruption; interleaved requests are the process machine of the same module.
- WaitQueue.RequestQueue.Enqueue: one limiter serves all keys, as the rate limiter uses the queue; a limiter per key is not modelled.
- WaitQueue.RequestQueue.ProcessAllPendingRequests: the whole tick reads the clock once, so the limiter calls inside it see the time at which the tick began.
- RespawnBudget.ChildProcess.EnsureProcess: the refusals for a missing command or for shell characters on Windows, which come after the budget checks, are not modelled.
- LruCache.LruCache.Set: storing the identical object again skips the callback in the package; values have no identity here, and the outcome for the store is the same.
- Approvals.GovernanceStore.CreateOrReuseApprovalRequest: notes, reasons, trace ids and the stored copy of the arguments are not columns of the model.
