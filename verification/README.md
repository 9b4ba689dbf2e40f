# AxCom backend: verified models

Dafny models of the parts of the AxCom commerce backend that carry real algorithms, protocols
or state machines, with the properties they keep. `dafny verify dfyconfig.toml` checks the
whole project.

| file | what it models |
|---|---|
| `DepGraph.dfy`, `Engine.dfy` | the module dependency sorter (Kahn's algorithm in any map order, the cycle-path walk) and the engine's Init and Shutdown order |
| `LocalBus.dfy` | the in-process event bus as a system of atomic steps: workers, retries, the bounded dead-letter channel, the close/drain handshake |
| `RateLimit.dfy`, `RateLimitWindow.dfy`, `RateLimitStores.dfy`, `RateLimitAdmission.dfy`, `RateLimitExact.dfy`, `RateLimitFallback.dfy`, `Recovery.dfy` | the token bucket, its in-process and Redis stores, exactly which requests are let through, what forgetting a bucket can change, the fallback between the stores, and its recovery under every interleaving |
| `CategoryTree.dfy`, `CategoryService.dfy` | the category graph downwards (descendants) and upwards (cycle check), and the commands that must keep it a forest with distinct slugs |
| `MemoryCache.dfy`, `CacheManager.dfy` | the bounded memory cache against an unbounded map, and the two-tier manager's staleness |
| `Inventory.dfy`, `InventoryServices.dfy`, `History.dfy` | compensated stock changes under partial failure, conservation, the audit trail, and the history its events leave through the concurrent bus |
| `Payments.dfy` | the payment and refund status machine around unreliable providers and database writes |
| `Orders.dfy`, `Delivery.dfy`, `Idempotency.dfy`, `Pipeline.dfy` | orders with their transactional outbox, the relay, the idempotent handler under overlapping deliveries, and the three put together |
| `RabbitRetry.dfy` | tiered retries over RabbitMQ |
| `Auth.dfy` | sessions, rotation, password resets, lockout |
| `Cart.dfy` | the cart service and the guest-cart merge |
| `Common.dfy`, `Counting.dfy` | shared datatypes, and counting over sequences |

## How it is built

The Go code works in place, so each service is a class whose methods follow the code branch by
branch. A method's postcondition ties the new state to a step function of the old one, and the
properties are proved about that function over every sequence of calls. Whatever the code
cannot decide itself is a parameter: the clock (never running backwards where that matters),
which reads, writes and provider calls fail, what a generator or a listing returns, the order in
which a map is visited (`:|`) and the interleaving of goroutines (the sequence of steps).
Durations are `int` or `real`, floating-point numbers are `real`.

Reading order: the step functions say what a call does; the lemmas named in the table below say
what every run of calls keeps; the classes show that the loops and branches of the code compute
the step functions.

## Results where the code does less than it seems to promise

- Modules with duplicate names never sort, whatever their requirements
  (`DepGraph.ValidateAndSort`); the cycle is reported as unknown exactly when the name picked first,
  any of those that lead into a cycle (`DepGraph.StuckIff`), is the empty one, as it must be for
  `DepGraph.UnnamedLoop`.
- The rate limiter's janitor goes unnoticed for the configurations of a key exactly when all refill
  within five minutes or none ever allows anything (`RateLimitExact.JanitorUnnoticedIff`). Otherwise
  it also breaks the limit: a window of the in-process store can grant more than burst + rate * d
  exactly when the bounding configuration allows something and does not refill within five minutes
  (`RateLimitExact.WindowsHoldIff`), as slow global limits do (`RateLimitExact.GlobalLimits`). Then,
  and only then, the fallback store exceeds twice that bound
  (`RateLimitFallback.FallbackWindowsHoldIff`). `RateLimitWindow.MemoryWindow` and
  `RateLimitStores.FallbackOneConfig` say by how much at most.
- "Three probes before recovery" is broken exactly by recoveries whose count straddles a failure:
  the failure falls between a ping's increment and its check, or the ping is added to a count from
  before the failure that has not been reset yet (`Recovery.EarlyRecoveryIff`). Without these two
  races it is kept, and recovery is not late either (`Recovery.RecoveryWithoutRaces`).
- `AddCategory` and `UpdateCategory` ignore an error of the category listing: a call leaves two
  categories with one slug exactly when the listing fails, the slug is taken, everything else is in
  order and the write works (`CategoryService.StepSlugs`). The unique slug index of the shipped
  databases makes that write fail (`CategoryService.SlugIndexKeepsDistinct`).
- The cache outgrows its capacity exactly when an absent key is incremented at capacity, or is set
  while nothing met is expired and the victim picked is the empty key (`MemoryCache.OverflowsIff`,
  `MemoryCache.StaysWithinIff`; when a set can do so is known before the call,
  `MemoryCache.SetMayOverflowIff`).
- The idempotent handler takes no lock: an event is handled more often than its failed marks explain
  exactly when two overlapping deliveries of it take effect (`Idempotency.BrokenIffOverlap`), and a
  schedule is safe whatever handlers and marks do exactly when no lookup finds nothing while another
  delivery of the event is between its lookup and its end (`Idempotency.KeptIffSerial`).
- The history's records are written in the order in which the bus's workers finish. Read by
  timestamp they replay to the stored stock, for every way of listing equal timestamps, exactly when
  different records of one location never share a timestamp (`History.HistoryReplaysIff`).
- The null sentinel is stored with JSON quotes and compared without: "not found" is never
  answered from a cache (`CacheManager.NotFoundIsNeverCached`). A call panics exactly when no tier
  answers, the fetch finds a record and the jitter of its L2 write rounds to nothing
  (`CacheManager.PanicsIff`).
- The manager's values can be as old as a whole life in L2 followed by a whole life in L1, because
  the backfill restarts the L1 clock; that age is reached (`CacheManager.StalenessIsReached`).
- A reservation whose ID generation fails after the stock was saved, a failed compensating
  save, and a transfer that takes an unreadable destination for an empty one change the total
  stock; no other reservation, release or transfer does (`Inventory.ConservedIff`).
- The audit trail of stock events gets a gap exactly at a change that is neither undone nor
  reported, and at a report whose old quantity is wrong for a failed read (`Inventory.AuditedIff`,
  `Inventory.AuditedRunIff`).
- Stock events that went through the outbox relay arrive as bytes; a history record is there if
  and only if an event with that pointer payload was handled (`History.RecordsAreHandledEvents`).
- A refund that succeeded but was reported as an error can be repeated exactly when the record could
  be written back as failed (`Payments.LostReplyRefundsAgainIff`); without such a write-back it
  happens at most once.
- The outcome of a merge is independent of the order of the guest's lines exactly when the account
  cart is full already or has room for all newcomers (`Cart.OrderIsIrrelevantIff`); merging a cart
  into itself deletes it (`Cart.SelfMergeLosesTheCart`).

## Model

| member | source | states |
|---|---|---|
| `DepGraph.IndexByName` | axcom-backend/internal/engine/depgraph.go:16-19 | The index holds exactly the module names, each mapped to a listed module of that name. |
| `DepGraph.FindMissing` | axcom-backend/internal/engine/depgraph.go:22-32 | Finds the first requirement, in declaration order, that no module provides; finds none exactly when every requirement is provided. |
| `DepGraph.BuildDegrees` | axcom-backend/internal/engine/depgraph.go:35-46 | Each in-degree is the number of requirements listed under the name; each module is listed as a dependent once per requirement (a multiset equation). |
| `DepGraph.InitialQueue` | axcom-backend/internal/engine/depgraph.go:49-54 | In any map order, the queue holds exactly the names without requirements, once each. |
| `DepGraph.Release` | axcom-backend/internal/engine/depgraph.go:63-68 | After the inner loop the degrees count the requirements not yet sorted, and exactly the sorted and queued names have degree zero. |
| `DepGraph.PopKeepsState` | axcom-backend/internal/engine/depgraph.go:57-63 | Popping a name turns its listings into pending decrements; all its requirements are sorted already. |
| `DepGraph.Kahn` | axcom-backend/internal/engine/depgraph.go:56-69 | The loop ends with an empty queue, a duplicate-free, dependency-first prefix of the modules, and degrees that are zero exactly for the sorted names. |
| `DepGraph.StuckRequiresStuck` | axcom-backend/internal/engine/depgraph.go:71-75 | When the queue is empty, every unsorted name requires an unsorted name. |
| `DepGraph.StuckWalk` | axcom-backend/internal/engine/depgraph.go:71-75 | If every stuck name requires a stuck name, each of them leads into a cycle. |
| `DepGraph.StuckIff` | axcom-backend/internal/engine/depgraph.go:71-75 | With distinct names, the names whose degree stays positive are exactly those from which requirements lead into a cycle. |
| `DepGraph.OrderIsAcyclic` | axcom-backend/internal/engine/depgraph.go:9-10 | A dependency-first order of modules with distinct names rules out every cycle. |
| `DepGraph.NextStuck` | axcom-backend/internal/engine/depgraph.go:106-113 | Finds the first stuck, unvisited requirement, or none exists. |
| `DepGraph.FindCycle` | axcom-backend/internal/engine/depgraph.go:81-132 | Terminates; starts from some stuck name, the first one met, and answers "(unknown)" if and only if that name is empty or nothing is stuck; otherwise the path begins there, walks through distinct stuck modules along requirement edges and closes on an earlier entry, unless its last module requires no stuck one. |
| `DepGraph.LassoHoldsCycle` | axcom-backend/internal/engine/depgraph.go:81-132 | A reported path always contains a requirement cycle. |
| `DepGraph.StalledIsCyclic` | axcom-backend/internal/engine/depgraph.go:71-75 | For distinct names a stall means a cycle, the first stuck name leads into one, and the reported path is one that runs into itself. |
| `DepGraph.ValidateAndSort` | axcom-backend/internal/engine/depgraph.go:14-78 | Succeeds if and only if names are distinct, every requirement is present and the relation is acyclic; the result is a permutation with each module after all it requires; a missing requirement is reported exactly when there is one, and it is the first; a reported cycle is real and begins with the name picked first; "(unknown)" is reported exactly when that name, which leads into a cycle, is empty. |
| `DepGraph.UnnamedLoop` | axcom-backend/internal/engine/depgraph.go:84-93 | For one module without a name that requires itself the cycle is reported as unknown. |
| `Engine.Engine.Boot` | axcom-backend/internal/engine/engine.go:85-90 | Boots exactly the wirable module sets, initialising dependencies first; a wiring error initialises nothing; an Init error stops after exactly the modules before it. |
| `Engine.Engine.Shutdown` | axcom-backend/internal/engine/engine.go:63-69 | Stops the active modules in exactly the reverse order. |
| `Engine.DependenciesOutliveDependents` | axcom-backend/internal/engine/engine.go:341-346 | Over a boot and a shutdown, a required module is initialised once before and stopped once after each module that requires it. |
| `LocalBus.Configure` | axcom-backend/internal/events/bus.go:61-89 | Positive settings are kept; the others become 3 attempts, 100 dead letters, 50 ms and 2 s. |
| `LocalBus.BackoffDoublesToCap` | axcom-backend/internal/events/bus.go:156-176 | The pause before attempt k + 2 is the initial backoff times 2^k, capped from the second pause on. |
| `LocalBus.RunKeepsInv` | axcom-backend/internal/events/bus.go:105-248 | Every interleaving keeps the WaitGroup equal to the live workers, the close handshake in order, the channel within its size and every job consistent. |
| `LocalBus.EveryHandlerHears` | axcom-backend/internal/events/bus.go:105-139 | In every interleaving the handlers of a topic are, in order, those subscribed to it before Close, and the accepted pairs are, in order, exactly the events published before Close with each handler subscribed to their topic so far. |
| `LocalBus.DeadLetterChannelIsSafe` | axcom-backend/internal/events/bus.go:207-248 | In every interleaving nothing is sent on the closed dead-letter channel, it is closed at most once, and only with no worker left. |
| `LocalBus.AcceptedIsAccountedFor` | axcom-backend/internal/events/bus.go:115-216 | Accepted pairs are those succeeded, dead-lettered, dropped or in flight; the dead letters received or waiting are exactly those of the dead-lettered pairs. |
| `LocalBus.FinishedPair` | axcom-backend/internal/events/bus.go:141-186 | A finished pair took 1 to maxRetries attempts: all failed but a last success, or all maxRetries failed; with the stated pauses in between. |
| `LocalBus.OutcomesAreFinal` | axcom-backend/internal/events/bus.go:141-216 | Pairs are never lost, their replies only grow, and an outcome once given never changes. |
| `LocalBus.EachPairEnds` | axcom-backend/internal/events/bus.go:141-216 | Closed or not, each accepted pair's worker takes a bounded number of steps under every schedule, and one of them is enabled until it is gone. |
| `LocalBus.DrainIsBounded` | axcom-backend/internal/events/bus.go:237-248 | After Close was called, all workers together take a bounded number of steps under every schedule. |
| `LocalBus.CloseNeverDeadlocks` | axcom-backend/internal/events/bus.go:237-248 | A waiting Close can go on or some worker can. |
| `LocalBus.LocalEventBus.Subscribe` | axcom-backend/internal/events/bus.go:105-112 | Adds the handler to its topic unless the bus is closed; keeps the invariant. |
| `LocalBus.LocalEventBus.Publish` | axcom-backend/internal/events/bus.go:115-139 | Accepts one job per registered handler, in order, or drops the event on a closed bus; keeps the invariant. |
| `LocalBus.LocalEventBus.Invoke` | axcom-backend/internal/events/bus.go:160-169 | One attempt, as the step system has it; keeps the invariant. |
| `LocalBus.LocalEventBus.Wake` | axcom-backend/internal/events/bus.go:170-177 | The end of a pause, with the next backoff doubled and capped. |
| `LocalBus.LocalEventBus.SendToDLQ` | axcom-backend/internal/events/bus.go:207-216 | Dead-letters the event if the channel has room and drops it otherwise; never meets a closed channel. |
| `LocalBus.LocalEventBus.CloseFinish` | axcom-backend/internal/events/bus.go:237-248 | Closes the channel once, with no live worker. |
| `RateLimit.ForgettingIsInvisible` | axcom-backend/internal/gateway/middleware/ratelimit.go:96-146 | A store that drops overdue buckets at arbitrary times gives the same answers as one that never does, if each bucket is kept until it has refilled. |
| `RateLimit.JanitorIsInvisible` | axcom-backend/internal/gateway/middleware/ratelimit.go:96-146 | For requests whose buckets refill within 300 seconds, the janitor never changes an answer. |
| `RateLimit.TtlOutlastsItself` | axcom-backend/internal/gateway/middleware/ratelimit.go:214-233 | A key that lives for ceil(burst / rate) + 60 seconds has refilled before it expires. |
| `RateLimit.ExpiryIsInvisible` | axcom-backend/internal/gateway/middleware/ratelimit.go:171-233 | With one configuration per key, the expiry of Redis keys never changes an answer. |
| `RateLimit.TiersMayChange` | axcom-backend/internal/gateway/middleware/ratelimit.go:40-45 | Both stores keep a bucket long enough for any change between the three client tiers. |
| `RateLimit.EndpointLimitsAreCovered` | axcom-backend/internal/gateway/middleware/ratelimit.go:50-55 | Both stores keep the buckets of the three endpoint limits long enough. |
| `RateLimitAdmission.AdmittedIff` | axcom-backend/internal/gateway/middleware/ratelimit.go:116-146 | In a store that forgets nothing, for any configurations: a request is let through if and only if a token fits into its own burst and, counted from every earlier request of the key, the grants since and this one fit into that request's burst and what was earned since. |
| `RateLimitAdmission.OneConfigAdmitsIff` | axcom-backend/internal/gateway/middleware/ratelimit.go:116-146 | With one configuration: if and only if burst >= 1 and from every earlier request on the grants and this one are at most burst + rate * the time since; a denied request costs nothing. |
| `RateLimitAdmission.StoreAdmitsIff` | axcom-backend/internal/gateway/middleware/ratelimit.go:96-233 | The same condition decides in both stores, forgetting buckets at any time, wherever each bucket is kept until it has refilled. |
| `RateLimitWindow.RunKeyOK` | axcom-backend/internal/gateway/middleware/ratelimit.go:116-146 | Tokens stay within [0, burst] of any configuration that bounds the key's requests, over every run and whatever is forgotten. |
| `RateLimitWindow.WindowBound` | axcom-backend/internal/gateway/middleware/ratelimit.go:116-146 | Wherever a run stands, any window of length d grants a key at most burst + rate * d requests of a configuration that bounds those its requests are charged with, plus burst for each time its bucket is dropped before that configuration had filled it. |
| `RateLimitWindow.KeptWindow` | axcom-backend/internal/gateway/middleware/ratelimit.go:96-146 | At most burst + rate * d, if the store keeps every bucket until the bounding configuration has filled it. |
| `RateLimitWindow.RedisWindow` | axcom-backend/internal/gateway/middleware/ratelimit.go:214-233 | At most burst + rate * d in the Redis store, for a key with one configuration of any positive rate. |
| `RateLimitWindow.MemoryWindow` | axcom-backend/internal/gateway/middleware/ratelimit.go:96-146 | In the in-process store, for configurations of any speed: at most burst + rate * d, plus burst once and once more for every five minutes of the window. |
| `RateLimitWindow.TierWindow` | axcom-backend/internal/gateway/middleware/ratelimit.go:361-400 | The per-IP key, charged with whatever tier each request belongs to, in both stores: at most burst + rate * d of the largest tier seen. |
| `RateLimitExact.JanitorCanBeNoticed` | axcom-backend/internal/gateway/middleware/ratelimit.go:96-146 | For a configuration that does not refill within five minutes, a concrete trace on which the janitor changes an answer. |
| `RateLimitExact.JanitorUnnoticedIff` | axcom-backend/internal/gateway/middleware/ratelimit.go:96-146 | For any set of configurations sharing a key, the janitor goes unnoticed on every trace if and only if none of their buckets can hold a token or all of them refill within five minutes. |
| `RateLimitExact.WindowCanBeExceeded` | axcom-backend/internal/gateway/middleware/ratelimit.go:96-146 | For a configuration that does not refill within five minutes, a trace (drain, sweep, drain again) that grants more than burst + rate * d. |
| `RateLimitExact.WindowsHoldIff` | axcom-backend/internal/gateway/middleware/ratelimit.go:96-146 | In the in-process store every window of every run stays within burst + rate * d of the bounding configuration if and only if that configuration's bucket cannot hold a token or refills within five minutes. |
| `RateLimitExact.GlobalLimits` | axcom-backend/internal/engine/config.go:367-368 | The default global limit (10000 a second, burst 15000) is kept; one of a single request a second with a burst of 1000 is not. |
| `RateLimitStores.MemoryStore.Allow` | axcom-backend/internal/gateway/middleware/ratelimit.go:116-146 | Answers and updates the bucket exactly as the abstract store does. |
| `RateLimitStores.MemoryStore.Janitor` | axcom-backend/internal/gateway/middleware/ratelimit.go:96-113 | One tick is a forgetting of exactly the buckets not seen for more than five minutes. |
| `RateLimitStores.RedisStore.TokenBucketScript` | axcom-backend/internal/gateway/middleware/ratelimit.go:171-200 | The script charges the bucket and answers exactly as the abstract store does at the same time, with the given time to live. |
| `RateLimitStores.RedisStore.AllowE` | axcom-backend/internal/gateway/middleware/ratelimit.go:214-233 | One request of the abstract store, for any rate; for positive rates with the Redis retention, for a rate of zero with whatever life the platform makes of the quotient. |
| `RateLimitStores.FallbackStore.Allow` | axcom-backend/internal/gateway/middleware/ratelimit.go:282-294 | Uses Redis while healthy and memory otherwise; a failed call, charged or not, marks the store down and is answered from memory. |
| `RateLimitStores.FallbackStore.MarkUnhealthy` | axcom-backend/internal/gateway/middleware/ratelimit.go:297-308 | Flips a healthy store down and resets the count; leaves a store that is down alone. |
| `RateLimitStores.FallbackStore.ProbeTick` | axcom-backend/internal/gateway/middleware/ratelimit.go:312-346 | A failed probe resets the count; the third success in a row brings the store back. |
| `RateLimitStores.PartRuns` | axcom-backend/internal/gateway/middleware/ratelimit.go:282-346 | Along every run of the fallback store, each of the two stores is in the state that the operations reaching it lead to. |
| `RateLimitStores.GrantsSplit` | axcom-backend/internal/gateway/middleware/ratelimit.go:282-294 | What the fallback store grants, one of the two stores has granted. |
| `RateLimitStores.FallbackWindowBound` | axcom-backend/internal/gateway/middleware/ratelimit.go:282-346 | Through the fallback, from every reachable state, any window of length d grants at most 2 * (burst + rate * d) of a configuration that bounds the key's, plus burst for each bucket dropped before it was full, however often it flips. |
| `RateLimitStores.FallbackKeptWindow` | axcom-backend/internal/gateway/middleware/ratelimit.go:282-346 | At most 2 * (burst + rate * d), if both stores keep every bucket until the bounding configuration has filled it. |
| `RateLimitStores.FallbackOneConfig` | axcom-backend/internal/gateway/middleware/ratelimit.go:282-346 | For a key with one configuration of any positive rate: at most 2 * (burst + rate * d), plus burst once and once more for every five minutes of the window. |
| `RateLimitFallback.FallbackWindowsHoldIff` | axcom-backend/internal/gateway/middleware/ratelimit.go:282-346 | On keys with one configuration, every window of every run of the fallback store stays within 2 * (burst + rate * d) if and only if the bucket cannot hold a token or refills within five minutes. |
| `RateLimitFallback.FallbackCanBeExceeded` | axcom-backend/internal/gateway/middleware/ratelimit.go:282-346 | Otherwise a trace that exceeds it: the memory store drained again after every sweep while Redis is spent to the last token. |
| `RateLimitFallback.MergedGrants` | axcom-backend/internal/gateway/middleware/ratelimit.go:282-346 | Any trace of Redis requests and any trace of the memory store occur together in one run of the fallback store, which grants what both grant. |
| `RateLimitStores.FallbackTierWindow` | axcom-backend/internal/gateway/middleware/ratelimit.go:361-400 | The per-IP key through the fallback, whatever tier each request belongs to: at most 2 * (burst + rate * d) of the largest tier seen. |
| `Recovery.RecoveryTakesThreeProbes` | axcom-backend/internal/gateway/middleware/ratelimit.go:297-346 | With failures and probes as single steps, the store is down exactly from a failure until three successive good probes since then. |
| `Recovery.EarlyRecoveryIff` | axcom-backend/internal/gateway/middleware/ratelimit.go:297-346 | In every interleaving of the atomic operations, some recovery comes before three good pings in a row since the failure if and only if some recovery uses a count that straddles a failure. |
| `Recovery.FailureBeforeTheCheck` | axcom-backend/internal/gateway/middleware/ratelimit.go:330-340 | From every healthy state with a count of three pending, a failure before its check is undone without any further ping. |
| `Recovery.ProbeBeforeTheReset` | axcom-backend/internal/gateway/middleware/ratelimit.go:298-302 | From every healthy state with a count of two, a failure is undone by one ping that comes before its reset. |
| `Recovery.RaceWithoutHarm` | axcom-backend/internal/gateway/middleware/ratelimit.go:297-346 | A schedule with such a race in which no recovery comes early. |
| `Recovery.RecoveryWithoutRaces` | axcom-backend/internal/gateway/middleware/ratelimit.go:297-346 | A schedule without these races keeps the promise and is down exactly while its failures and probes, taken as single steps, have an outage. |
| `CategoryTree.BuildAdjacency` | axcom-backend/internal/core/catalog/features/core/filter.go:95-100 | The adjacency lists are exactly the child relation. |
| `CategoryTree.Visitor.Visit` | axcom-backend/internal/core/catalog/features/core/filter.go:102-111 | Adds only descendants of the target and leaves everything it added closed under children; terminates on cyclic graphs. |
| `CategoryTree.GetCategoryDescendants` | axcom-backend/internal/core/catalog/features/core/filter.go:93-113 | On any category list, cyclic or not, returns exactly the reflexive-transitive closure of the child relation. |
| `CategoryTree.DetectCategoryCycle` | axcom-backend/internal/core/catalog/features/core/service_command.go:378-401 | The loop decides as its recursive description from visited = {target}; terminates on any graph. |
| `CategoryTree.WalkMeaning` | axcom-backend/internal/core/catalog/features/core/service_command.go:378-401 | "Cyclic" means the chain reaches the target or never ends, "clear" that it ends and misses it, an error that an entry could not be read. |
| `CategoryTree.CycleCheckMeaning` | axcom-backend/internal/core/catalog/features/core/service_command.go:378-401 | With reads succeeding: "cyclic" if and only if the parent chain reaches the category or never ends. |
| `CategoryTree.RepeatNeverEnds` | axcom-backend/internal/core/catalog/features/core/service_command.go:378-401 | A parent chain that meets an entry twice never ends. |
| `CategoryTree.HitsIsDescends` | axcom-backend/internal/core/catalog/features/core/filter.go:93-113 | The parent chain of an ID reaches an ancestor if and only if the ID descends from it. |
| `CategoryTree.TraversalsAreDual` | axcom-backend/internal/core/catalog/features/core/service_command.go:378-401 | The upward check says "cyclic" if and only if the new parent is among the category's descendants or hangs on a cycle. |
| `CategoryService.PutKeepsForest` | axcom-backend/internal/core/catalog/features/core/service_command.go:227-285 | Storing a category under a parent whose chain misses it keeps the forest. |
| `CategoryService.ForestForever` | axcom-backend/internal/core/catalog/features/core/service_command.go:178-334 | Over every run of add, update and delete, whatever fails, the parent relation stays acyclic and every parent exists. |
| `CategoryService.AddIff` | axcom-backend/internal/core/catalog/features/core/service_command.go:178-224 | A new category is accepted if and only if it is valid, its ID is new, the listing shows its slug at no other one, its parent can be read and the write works. |
| `CategoryService.UpdateIff` | axcom-backend/internal/core/catalog/features/core/service_command.go:227-285 | An update is accepted if and only if the category is stored and valid, the listing shows its slug at no other one, the write works, and the new parent is stored, has a readable chain and does not descend from the category. |
| `CategoryService.DeleteIff` | axcom-backend/internal/core/catalog/features/core/service_command.go:288-334 | A deletion succeeds if and only if the category is stored, everything works, and it has neither products nor children. |
| `CategoryService.StepStores` | axcom-backend/internal/core/catalog/features/core/service_command.go:178-334 | An accepted call stores the category's ID, name, parent and given or generated slug, or removes it; every other category stays; a refused call changes nothing. |
| `CategoryService.StoredDescends` | axcom-backend/internal/core/catalog/features/core/service_command.go:227-285 | A category given a parent descends from it and from all the parent descends from. |
| `CategoryService.StepSlugs` | axcom-backend/internal/core/catalog/features/core/service_command.go:178-285 | One call leaves slugs distinct unless the listing fails, the slug is taken, the category is valid, its parent readable (and for an update not cyclic), the write works although the slug is taken and the ID is new (for an update stored); and only then. |
| `CategoryService.SlugIndexKeepsDistinct` | axcom-backend/migrations/postgres/catalog/001_catalog.up.sql:7 | Where writes of a taken slug fail, as with the unique index, slugs stay pairwise distinct over every run, whatever else fails. |
| `CategoryService.SlugsDistinctForever` | axcom-backend/internal/core/catalog/features/core/service_command.go:178-334 | Over every run whose category listings succeed, slugs stay pairwise distinct. |
| `CategoryService.FailedListingAdmitsDuplicate` | axcom-backend/internal/core/catalog/features/core/service_command.go:199-207 | With a failed listing every taken slug is accepted, after which slugs are not distinct. |
| `CategoryService.CatalogCommandService.AddCategory` | axcom-backend/internal/core/catalog/features/core/service_command.go:178-224 | Answers and stores as the step function, branch by branch; keeps the forest. |
| `CategoryService.CatalogCommandService.UpdateCategory` | axcom-backend/internal/core/catalog/features/core/service_command.go:227-285 | Answers and stores as the step function, with the cycle check in its place; keeps the forest. |
| `CategoryService.CatalogCommandService.DeleteCategory` | axcom-backend/internal/core/catalog/features/core/service_command.go:288-334 | Refuses categories with products or children; keeps the forest. |
| `MemoryCache.HitsAreIdealHits` | axcom-backend/internal/infra/cache/memory/adapter.go:115-284 | Every hit on a key never incremented is what an unbounded map with expiry would return. |
| `MemoryCache.SparedHits` | axcom-backend/internal/infra/cache/memory/adapter.go:115-284 | A key that was not evicted or purged since it was written is read exactly as from the unbounded map. |
| `MemoryCache.CapacityBound` | axcom-backend/internal/infra/cache/memory/adapter.go:136-213 | With non-empty keys the size never exceeds maxItems plus the increments that inserted a key. |
| `MemoryCache.SweepSample` | axcom-backend/internal/infra/cache/memory/adapter.go:137-151 | Removes exactly the expired ones among the min(50, size) items it meets. |
| `MemoryCache.PickVictim` | axcom-backend/internal/infra/cache/memory/adapter.go:153-184 | The victim is minimal in (hits, lastAccess) over a sample of min(10, size) items, so over all of at most ten. |
| `MemoryCache.MakeRoom` | axcom-backend/internal/infra/cache/memory/adapter.go:136-190 | Evicts the swept items and, if that was not enough, the victim, unless that is the empty key. |
| `MemoryCache.RoomIsMade` | axcom-backend/internal/infra/cache/memory/adapter.go:136-190 | At capacity the size shrinks whenever the empty key is not stored. |
| `MemoryCache.MemoryAdapter.Set` | axcom-backend/internal/infra/cache/memory/adapter.go:115-213 | Refuses oversized keys and values without effect; otherwise evicts as above and stores the value, its expiry and its counted hit. |
| `MemoryCache.MemoryAdapter.Get` | axcom-backend/internal/infra/cache/memory/adapter.go:216-252 | Returns the value of a present, unexpired item and counts the hit; drops an expired one. |
| `MemoryCache.MemoryAdapter.Exists` | axcom-backend/internal/infra/cache/memory/adapter.go:266-284 | True exactly for present, unexpired items. |
| `MemoryCache.MemoryAdapter.Increment` | axcom-backend/internal/infra/cache/memory/adapter.go:287-331 | Adds in 64-bit wrap-around arithmetic to a live integer or to zero; refuses other text; ignores the capacity. |
| `MemoryCache.MemoryAdapter.CleanupExpired` | axcom-backend/internal/infra/cache/memory/adapter.go:339-356 | Removes exactly the expired items. |
| `MemoryCache.OverflowsIff` | axcom-backend/internal/infra/cache/memory/adapter.go:136-213 | One operation exceeds the capacity if and only if it increments an absent key at capacity, or sets one while nothing met is expired and the victim picked is the empty key. |
| `MemoryCache.StaysWithinIff` | axcom-backend/internal/infra/cache/memory/adapter.go:115-331 | A run stays within the capacity all along if and only if none of its operations is one of those. |
| `MemoryCache.SetMayOverflowIff` | axcom-backend/internal/infra/cache/memory/adapter.go:136-190 | Before the call, for every capacity: setting an absent key in a full cache of n items may exceed it if and only if the empty key is stored, at least min(50, n) items are unexpired and at least min(10, n) are used no less than the empty key. |
| `MemoryCache.EmptyKeyIsNotEvicted` | axcom-backend/internal/infra/cache/memory/adapter.go:184 | Whatever the cache holds and whatever is met or picked, an unexpired empty key stays; if it is picked, only expired items go. |
| `MemoryCache.WrapsAround` | axcom-backend/internal/infra/cache/memory/adapter.go:314 | A counter holds the 64-bit number that differs from the true sum by a multiple of 2^64. |
| `CacheManager.StoredLife` | axcom-backend/internal/infra/cache/manager.go:103-110 | A jittered lifetime is positive, at most L2Life, and equal to it exactly for the largest jitter. |
| `CacheManager.MaxAgeInReals` | axcom-backend/internal/infra/cache/manager.go:103-110 | L2Life plus the L1 lifetime is at most ttl * (1 + jitter) + min(l1TTL, ttl). |
| `CacheManager.StalenessIsBounded` | axcom-backend/internal/infra/cache/manager.go:112-259 | In every serialised run, with entries lost, writes failing and no invalidation at all, a returned value was the source's no longer ago than L2Life plus min(l1TTL, ttl). |
| `CacheManager.StalenessIsReached` | axcom-backend/internal/infra/cache/manager.go:112-259 | Exactly that age is reached by a fetch with the largest jitter, a backfill at the last moment and a hit at the last moment. |
| `CacheManager.PanicsIff` | axcom-backend/internal/infra/cache/manager.go:103-230 | A call panics if and only if no tier answers, the fetch finds a record that decodes, there is an L2 and ttl * jitter is positive and below one. |
| `CacheManager.FailsIff` | axcom-backend/internal/infra/cache/manager.go:112-259 | A call fails if and only if no tier answers and the fetch fails or finds something that does not decode, or an undecodable hit in L2 meets no L1. |
| `CacheManager.AnswerIs` | axcom-backend/internal/infra/cache/manager.go:112-259 | A value answered is that of the first tier that answers, else the fetched record; the source is only asked if no tier answers. |
| `CacheManager.ReadAgain` | axcom-backend/internal/infra/cache/manager.go:112-259 | A value read is served again without a fetch: from L1 for the L1 lifetime after a backfill or fetch, from L2 for at least its ttl after a fetch, if the writes worked. |
| `CacheManager.OtherKeysStay` | axcom-backend/internal/infra/cache/manager.go:112-280 | Reads and invalidations touch no other key. |
| `CacheManager.NotFoundIsNeverCached` | axcom-backend/internal/infra/cache/manager.go:118-175 | In every reachable state, for keys with any ttl, "not found" is only answered when the source has just said so. |
| `CacheManager.InvalidatedReadsAreCurrent` | axcom-backend/internal/infra/cache/manager.go:112-280 | If each source update is followed by a successful invalidation, every answer is current. |
| `CacheManager.Manager.GetOrFetch` | axcom-backend/internal/infra/cache/manager.go:112-259 | Answers and fills the tiers as the step function, including fallthrough on undecodable entries, entries without expiry for a non-positive ttl, and the jitter panic. |
| `CacheManager.Manager.Invalidate` | axcom-backend/internal/infra/cache/manager.go:261-280 | Deletes from both tiers and reports success exactly when every deletion worked. |
| `Inventory.StepKeepsSound` | axcom-backend/internal/core/inventory/domain/stock.go:47-71 | Every call keeps quantities at or above zero, or above minus the backorder limit where backorders are allowed. |
| `Inventory.ReserveIff` | axcom-backend/internal/core/inventory/features/reservation/service.go:52-147 | A reservation succeeds if and only if the stock, or the backorder limit, allows it and everything works; it moves exactly the quantity from the stock into the new reservation. |
| `Inventory.ReleaseIff` | axcom-backend/internal/core/inventory/features/reservation/service.go:150-205 | A release succeeds if and only if reservation and stock are stored and everything works; it gives exactly the reserved quantity back and ends the reservation. |
| `Inventory.ReleaseUndoesReserve` | axcom-backend/internal/core/inventory/features/reservation/service.go:52-205 | A reservation followed by its release leaves stock and reservations as they were. |
| `Inventory.TransferIff` | axcom-backend/internal/core/inventory/features/transfer/service.go:42-140 | A transfer succeeds if and only if the source holds the quantity and the writes work; the destination gains what the source loses, from zero if it could not be read; nothing else changes. |
| `Inventory.WriteIff` | axcom-backend/internal/core/inventory/features/adjustment/service.go:39-96 | When an adjustment or a sync succeeds, and the quantity it leaves; other stock stays. |
| `Inventory.LocationsApart` | axcom-backend/internal/core/inventory/features/adjustment/service.go:40-42 | Different location names are different locations, but for the empty one, which is "default". |
| `Inventory.ReserveTotal` | axcom-backend/internal/core/inventory/features/reservation/service.go:52-147 | What a reservation adds to a variant's stock plus reservations, in every failure case. |
| `Inventory.ReleaseTotal` | axcom-backend/internal/core/inventory/features/reservation/service.go:150-205 | What a release adds to the total, in every failure case. |
| `Inventory.TransferTotal` | axcom-backend/internal/core/inventory/features/transfer/service.go:42-140 | What a transfer adds to the total, in every failure case. |
| `Inventory.RunTotal` | axcom-backend/internal/core/inventory/features/transfer/service.go:42-140 | Over every run, whatever fails, the total moves by exactly the sum of the calls' drifts and floors hold. |
| `Inventory.StockIsConserved` | axcom-backend/internal/core/inventory/features/reservation/service.go:52-205 | Any serialised mix of reserve, release and transfer with failing writes keeps stock plus reservations constant, if rollback saves, ID generation and destination reads work. |
| `Inventory.ConservedIff` | axcom-backend/internal/core/inventory/features/reservation/service.go:80-114 | One reservation, release or transfer changes the total if and only if it passes its guards and then meets one of the spelt-out failures. |
| `Inventory.AuditedIff` | axcom-backend/internal/core/inventory/features/reservation/service.go:80-147 | After one call of any of the five kinds a complete trail is complete if and only if the call does not meet one of the spelt-out failures: a change neither undone nor reported (no ID, a failed emission or rollback), or an old quantity taken from a failed read. |
| `Inventory.AuditedRunIff` | axcom-backend/internal/core/inventory/features/transfer/service.go:42-140 | The trail is complete all along a run if and only if none of its calls is one of those: each key's events chain old to new and the last new quantity is the stored one. |
| `Inventory.AuditReplays` | axcom-backend/internal/core/inventory/features/adjustment/service.go:39-96 | In particular over runs in which reads fail only for missing records and IDs, rollbacks and emissions work. |
| `InventoryServices.Services.ReserveStock` | axcom-backend/internal/core/inventory/features/reservation/service.go:52-147 | Deduct, save, generate, create, roll back: answers and writes as the step function; keeps the floors. |
| `InventoryServices.Services.ReleaseReservation` | axcom-backend/internal/core/inventory/features/reservation/service.go:150-205 | Return, save, delete, roll back: as the step function; keeps the floors. |
| `InventoryServices.Services.TransferStock` | axcom-backend/internal/core/inventory/features/transfer/service.go:42-140 | Two saves with a rollback: as the step function; keeps the floors. |
| `InventoryServices.Services.AdjustStock` | axcom-backend/internal/core/inventory/features/adjustment/service.go:39-96 | Takes any read error for a missing record: as the step function; keeps the floors. |
| `InventoryServices.Services.SyncStock` | axcom-backend/internal/core/inventory/features/sync/service.go:41-112 | Takes only "not found" for a missing record: as the step function; keeps the floors. |
| `History.HistoryService.HandleStockChanged` | axcom-backend/internal/core/inventory/features/history/service.go:58-88 | Appends one record with the event's timestamp for a pointer payload if the ID and the write work; accepts and ignores byte payloads. |
| `History.RecordsAreHandledEvents` | axcom-backend/internal/core/inventory/features/history/service.go:58-88 | In every interleaving of publishers, workers and retries, the records are, as a multiset, the pointer payloads of the handled events; a record is there if and only if such an event was handled. |
| `History.ReadingReplays` | axcom-backend/internal/core/inventory/features/history/service.go:35-40 | If different records of one key never share a timestamp, any listing by timestamp replays each key as the emission order does. |
| `History.HistoryReplaysIff` | axcom-backend/internal/core/inventory/features/history/service.go:38-88 | However the workers interleave, a variant's records read in time order replay a run to the stored stock, for every way of listing equal timestamps, if and only if different records of one location never share a timestamp. |
| `Payments.RefundedAtMostOnce` | axcom-backend/internal/core/payments/service.go:285-358 | Over every run, whatever fails: at most one provider refund per payment more than were misreported and then written back as failed, none above the amount, and without such a write-back a refunded payment is stored as refunded. |
| `Payments.FailedAndRefundedAreFinal` | axcom-backend/internal/core/payments/service.go:208-358 | Once a call has left a payment failed or refunded, no later call changes or refunds it. |
| `Payments.RecordsKeepTheirTerms` | axcom-backend/internal/core/payments/service.go:106-358 | A payment's order, amount, provider and intent never change. |
| `Payments.StatusesFollowTheProvider` | axcom-backend/internal/core/payments/service.go:106-358 | Over every run: a payment is stored as succeeded only if the provider created it so or confirmed it within 24 hours, as failed only if the provider did or refused it or its time was over, and refunded only if it was paid in that sense or created as refunded. |
| `Payments.CreateIff` | axcom-backend/internal/core/payments/service.go:106-206 | When an intent is stored, and as what: the order's own amount, the chosen provider and the status the provider gave; nothing else changes. |
| `Payments.ConfirmIff` | axcom-backend/internal/core/payments/service.go:208-283 | An open payment becomes succeeded if and only if the provider confirms it in time and the write works, failed if and only if the provider refuses or the time is over and the write works; the answer says which. |
| `Payments.RefundIff` | axcom-backend/internal/core/payments/service.go:285-358 | Only a refund of a succeeded or refund-failed payment within its amount reaches the provider; status, provider refund and answer in each outcome. |
| `Payments.LostReplyRefundsAgainIff` | axcom-backend/internal/core/payments/service.go:324-358 | After a refund reported as an error, some further run refunds the payment again if and only if the write-back to refund_failed works. |
| `Payments.PaymentService.CreatePaymentIntent` | axcom-backend/internal/core/payments/service.go:106-206 | Returns a succeeded or pending record, refuses what the code refuses, falls back to the default provider, and stores a new record only for a pending order; keeps the invariant. |
| `Payments.PaymentService.ConfirmPayment` | axcom-backend/internal/core/payments/service.go:208-283 | Status machine of a confirmation, including expiry after 24 hours and failed provider calls; keeps the invariant. |
| `Payments.PaymentService.RefundPayment` | axcom-backend/internal/core/payments/service.go:285-358 | Optimistic write, provider call, write-back to refund_failed; keeps the invariant. |
| `Orders.ValidateItems` | axcom-backend/internal/core/orders/domain/order.go:68-84 | Accepts exactly non-empty lists of items with a variant, a positive quantity and a non-negative price. |
| `Orders.CalculateTotal` | axcom-backend/internal/core/orders/domain/order.go:87-93 | The loop computes the sum of price times quantity. |
| `Orders.OutboxIsImageOfCommits` | axcom-backend/internal/core/orders/service.go:103-174 | From any state, over every run and every failure: what the outbox gains about an order is exactly the creation, payment and cancellation committed to it by calls with the outbox, in their order; those of calls without it are published. |
| `Orders.OutboxMirrorsOrders` | axcom-backend/internal/core/orders/service.go:103-174 | With the outbox, an order's events fit its status over every run, each at most once and in order. |
| `Orders.CreateIff` | axcom-backend/internal/core/orders/service.go:59-124 | An order is stored if and only if its items are valid and everything works: pending, with the given customer and items, for the sum of their prices. |
| `Orders.MoveIff` | axcom-backend/internal/core/orders/service.go:126-179 | An action takes effect if and only if the status allows it and everything works; nothing but the status changes. |
| `Orders.AllowedActions` | axcom-backend/internal/core/orders/domain/statemachine.go:22-44 | The sequences of actions a pending order allows are exactly pay, ship, complete in this order, or a cancellation before shipping, each with its status. |
| `Orders.StatusIsHistory` | axcom-backend/internal/core/orders/domain/statemachine.go:22-44 | Over every run an order's status is the one its taken actions lead to. |
| `Orders.StatusesAdvance` | axcom-backend/internal/core/orders/domain/statemachine.go:22-44 | Over every run an order's status only advances, and completed or cancelled orders stay as they are. |
| `Orders.OrderService.RunInTx` | axcom-backend/internal/core/orders/service.go:103-114 | The order and its event are stored together or not at all. |
| `Orders.OrderService.CreateOrder` | axcom-backend/internal/core/orders/service.go:59-124 | Answers and stores as the step function; with the outbox, keeps every order's events mirroring its status. |
| `Orders.OrderService.TransitionOrder` | axcom-backend/internal/core/orders/service.go:126-179 | Answers and stores as the step function; with the outbox, keeps every order's events mirroring its status. |
| `Delivery.RelayMarksOnlySent` | axcom-backend/internal/events/relay.go:72-103 | Over every run a marked record has been sent, and a record is sent once more than its missed marks if it is marked, as often as those if not. |
| `Delivery.PollShrinksBacklog` | axcom-backend/internal/events/relay.go:72-103 | A poll sends the fetched batch in order and takes it off the backlog if the mark works. |
| `Delivery.BacklogDrains` | axcom-backend/internal/events/relay.go:72-103 | n working polls take n batches off the backlog; once it is empty every record is marked and has been sent. |
| `Delivery.OutboxRelay.Poll` | axcom-backend/internal/events/relay.go:72-103 | Publishes the fetched records in order and marks exactly those; a failed fetch or mark marks nothing. |
| `Idempotency.BrokenIffOverlap` | axcom-backend/internal/events/idempotency.go:21-45 | In every schedule of lookups, handlers and marks, the handler succeeds for an event at most once more than its mark failed if and only if no two overlapping deliveries of it were both handled without a failed mark. |
| `Idempotency.KeptIffSerial` | axcom-backend/internal/events/idempotency.go:21-45 | A schedule keeps that promise at every point and whatever the deliveries past their lookup go on to do, if and only if no lookup finds nothing while another delivery of the event is between its lookup and its end. |
| `Idempotency.OverlapHandlesTwice` | axcom-backend/internal/events/idempotency.go:21-45 | Two deliveries that both look before either marks: handled twice, no mark failed. |
| `Idempotency.MarkedIsFinalIff` | axcom-backend/internal/events/idempotency.go:21-45 | Once an event is marked, no run handles it again if and only if no delivery of it is between its lookup and its handler; at most those deliveries do. |
| `Idempotency.IdempotentHandler.Handle` | axcom-backend/internal/events/idempotency.go:21-45 | One undisturbed pass is the schedule lookup, handler, mark; it skips marked events and reports success even when the mark fails. |
| `Pipeline.EventsAreUnique` | axcom-backend/internal/core/orders/service.go:103-174 | No event occurs twice in the outbox. |
| `Pipeline.EffectsComeFromCommits` | axcom-backend/internal/events/relay.go:72-103 | End to end, under any failures and overlapping redeliveries: an event whose handler succeeded is in the outbox exactly once and tells of a committed change of its order; it was handled at most once more than it could not be marked if and only if no two overlapping deliveries of it took effect, so always if its lookups do not overtake each other. |
| `RabbitRetry.RetriesAreTieredAndBounded` | axcom-backend/internal/events/rabbitmq.go:301-376 | Under every interleaving a message's handler runs at most n + 1 times, its tiers are 1, 2, ... without gap or repetition, and it is dead-lettered at most once, after exactly n + 1 failures. |
| `RabbitRetry.DeliveryIff` | axcom-backend/internal/events/rabbitmq.go:301-376 | Where a delivery leaves a message, decided by its failures so far, in whatever integer type the broker returns the header. |
| `RabbitRetry.AtRestAllIsAccountedFor` | axcom-backend/internal/events/rabbitmq.go:301-376 | With parsable events and working publishes, no message is lost: at rest each published event is handled, or dead-lettered after failing on all n + 1 attempts. |
| `RabbitRetry.RetriesComeToRest` | axcom-backend/internal/events/rabbitmq.go:180-198 | Without new events every schedule takes a number of steps bounded by n minus the header counts. |
| `RabbitRetry.RabbitMQEventBus.PublishEvent` | axcom-backend/internal/events/rabbitmq.go:220-258 | Adds one fresh message to the main queue, or drops the event when the bus is closed or it cannot be marshalled or published. |
| `RabbitRetry.RabbitMQEventBus.HandleDelivery` | axcom-backend/internal/events/rabbitmq.go:301-376 | One delivery, as the step system has it; keeps every message's life consistent. |
| `Auth.EnforceLeavesFour` | axcom-backend/internal/core/auth/service.go:416-435 | After the revoke loop at most four of the user's sessions are active, none of them older than a revoked one. |
| `Auth.FiveSessionsAtMost` | axcom-backend/internal/core/auth/service.go:138-317 | Over every serialised run a user has at most five active refresh tokens. |
| `Auth.LoginIff` | axcom-backend/internal/core/auth/service.go:138-224 | When a login succeeds; it then opens a session of seven days, ends only the oldest beyond four, and clears the account's failures; otherwise no session changes. |
| `Auth.RefreshIff` | axcom-backend/internal/core/auth/service.go:242-317 | When a refresh succeeds; the presented token is dead for good and its user has a new one for seven days; nobody else's sessions change. |
| `Auth.LogoutIff` | axcom-backend/internal/core/auth/service.go:227-239 | A logout ends exactly the presented session; it fails only if a stored token cannot be written. |
| `Auth.RotatedAtMostOnce` | axcom-backend/internal/core/auth/service.go:242-317 | Over every run a refresh token is rotated successfully at most once. |
| `Auth.OneUnusedReset` | axcom-backend/internal/core/auth/service.go:320-371 | Over every run a user has at most one unused reset token. |
| `Auth.RequestLeavesOne` | axcom-backend/internal/core/auth/service.go:320-371 | A stored request leaves its user exactly the new token, usable for an hour; without it usable tokens stay as they were. |
| `Auth.ConfirmIff` | axcom-backend/internal/core/auth/service.go:374-414 | A confirmation succeeds if and only if its token is usable and the transaction works, and uses up exactly that token. |
| `Auth.ConfirmedAtMostOnce` | axcom-backend/internal/core/auth/service.go:374-414 | Over every run a reset token changes a password at most once. |
| `Auth.ConfirmedResetEndsSessions` | axcom-backend/internal/core/auth/service.go:374-414 | A confirmed reset uses up its token, leaves its user without active sessions and touches nobody else's. |
| `Auth.GuessesAreBounded` | axcom-backend/internal/core/auth/service.go:146-183 | In any window of length T without a correct password, failed checks number at most 5 + T / 15 min, plus those whose outcome could not be stored. |
| `Auth.AllowanceIsReached` | axcom-backend/internal/core/auth/service.go:146-183 | From every state of an account some attempts use up exactly what it still allows, with any number of unsaved checks on top. |
| `Auth.BoundIsReached` | axcom-backend/internal/core/auth/service.go:146-183 | For every window and every number of unsaved checks, attempts on an account in good standing reach 5 + T / 15 min plus that number. |
| `Auth.AccountFollowsAttempts` | axcom-backend/internal/core/auth/service.go:138-224 | Over every run an account goes through exactly its login attempts, so the bound holds from every reachable state. |
| `Auth.LockoutHolds` | axcom-backend/internal/core/auth/service.go:138-224 | In every run, any window of length T in which an account sees no correct password has at most 5 + T / 15 min failed checks on it, plus those whose outcome could not be stored. |
| `Auth.AuthService.EnforceMaxSessions` | axcom-backend/internal/core/auth/service.go:416-435 | The loop revokes exactly the oldest tokens beyond four. |
| `Auth.AuthService.Login` | axcom-backend/internal/core/auth/service.go:138-224 | Lockout, counters, token and session: as the step function. |
| `Auth.AuthService.RefreshSession` | axcom-backend/internal/core/auth/service.go:242-317 | Rotation in one transaction: as the step function. |
| `Auth.AuthService.Logout` | axcom-backend/internal/core/auth/service.go:227-239 | Revokes a stored token; unknown tokens are no error. |
| `Auth.AuthService.RequestPasswordReset` | axcom-backend/internal/core/auth/service.go:320-371 | Reports a failed lookup, answers an unknown address like a known one, and otherwise invalidates the user's older reset tokens and stores one new one, together or not at all. |
| `Auth.AuthService.ConfirmPasswordReset` | axcom-backend/internal/core/auth/service.go:374-414 | Uses the token and revokes all sessions, together or not at all. |
| `Cart.CartsStayGood` | axcom-backend/internal/core/cart/service.go:68-293 | Over every run a stored cart has at most 50 pairwise distinct variants with quantities from 1 to 10. |
| `Cart.AddIff` | axcom-backend/internal/core/cart/service.go:68-147 | An item is added if and only if it exists, the new quantity fits stock and cap, there is a line for it and everything works; what the customer sees changes by exactly that, for thirty days. |
| `Cart.UpdateIff` | axcom-backend/internal/core/cart/service.go:150-219 | A quantity is replaced if and only if the variant has a line and the new one fits stock and cap; nothing else shown changes. |
| `Cart.RemoveIff` | axcom-backend/internal/core/cart/service.go:222-255 | A removal leaves none of the variant and everything else; it needs a save only if there was a line. |
| `Cart.ClearIff` | axcom-backend/internal/core/cart/service.go:257-265 | A cleared cart shows nothing; other carts stay. |
| `Cart.AddedQuantities` | axcom-backend/internal/core/cart/service.go:103-139 | An addition raises its variant by exactly the added quantity or is refused; other variants are untouched. |
| `Cart.MergeNeverLowers` | axcom-backend/internal/core/cart/merge/service.go:48-53 | Whatever fails, each variant ends the merge at its account quantity or at account plus guest. |
| `Cart.MergeExactly` | axcom-backend/internal/core/cart/merge/service.go:48-53 | With nothing failing, every variant ends where catalog, stock, the cap of ten and the lines still free for newcomers put it, and the cart has grown by the newcomers served. |
| `Cart.OrderIsIrrelevantIff` | axcom-backend/internal/core/cart/merge/service.go:48-53 | With successful saves and a fixed catalog, every order of the guest's lines merges to the same quantities if and only if the account cart is full already or has room for all admissible new variants. |
| `Cart.MergeOutcome` | axcom-backend/internal/core/cart/merge/service.go:35-59 | The whole merge: no account quantity is lowered, the guest cart is gone exactly when it could be read and deleted, other carts are untouched. |
| `Cart.SelfMergeLosesTheCart` | axcom-backend/internal/core/cart/merge/service.go:35-59 | Merging a cart into itself keeps it if and only if the guest read or the final delete fails. |
| `Cart.CartService.GetRawCart` | axcom-backend/internal/core/cart/service.go:267-293 | A missing cart reads as empty, an expired one as reset, whether or not the reset can be saved. |
| `Cart.CartService.AddItem` | axcom-backend/internal/core/cart/service.go:68-147 | Search loop, limits, stock and save: as the step function; keeps every cart good. |
| `Cart.CartService.UpdateItem` | axcom-backend/internal/core/cart/service.go:150-219 | As the step function; keeps every cart good. |
| `Cart.CartService.RemoveItem` | axcom-backend/internal/core/cart/service.go:222-255 | The filter loop drops exactly the variant's lines and skips the save if there are none; keeps every cart good. |
| `Cart.MergeService.MergeGuestCartWithAccount` | axcom-backend/internal/core/cart/merge/service.go:35-59 | The loop over guest lines, the deletion and the final read compute the merge step; keeps every cart good. |

## Left out

- Cart.Merged: the account cart's clock reading is the same for every line of one merge, where the code reads it anew for each; the merge results ask that the account cart is not expired at that time.
- Cart.CartService.AddItem: the response is enriched from the catalog after the save (`enrichCart`); an error there changes the answer but not the cart, and is not modelled.
- LocalBus.RunKeepsInv: error handlers that panic, `WithErrorHandler` and `PublishCtx` are left out; `PublishCtx` reports success although the bus may be closed by the time it publishes.
- RateLimitWindow.RunKeyOK: floating-point rounding is not modelled, nor is the decimal text in which the script stores tokens.
- RateLimitStores.RedisStore.AllowE: a rate of zero makes the Go code divide by zero and convert an infinity to an integer, which Go leaves to the platform; that integer is a parameter, and the results about windows in Redis ask for a positive rate.
- RateLimitStores.FallbackStore.ProbeTick: the 32-bit width of the probe counter is not modelled.
- RateLimitWindow.RedisWindow: for keys charged with several configurations beyond the three tiers, the exact condition in Redis is not stated; `RateLimitWindow.KeptWindow` gives a sufficient one and `RateLimitWindow.WindowBound` the bound without it.
- CategoryService.SlugsDistinctForever: slugs stored by other writers are not modelled; the database's uniqueness constraint on IDs is part of the step, the one on slugs a condition on the calls (`CategoryService.SlugIndexKeepsDistinct`).
- CategoryService.ForestForever: concurrent commands between a check and its write are not modelled; calls are serialised.
- CacheManager.StalenessIsBounded: cache targets are structs, so neither form of the null sentinel decodes into them; concurrent callers sharing one fetch (singleflight), and the ttl of minus one nanosecond that the Redis client takes for "keep", are not modelled.
- MemoryCache.HitsAreIdealHits: the statistics updates of concurrent readers under the read lock are taken one after the other.
- Inventory.AuditedRunIff: `UpdateStock`, `ConfigureStock` and the bulk update are left out; they emit no events at all, so each change they make is a gap.
- Inventory.StockIsConserved: concurrent calls can lose updates, which the code documents; calls are serialised. Stock-sync outboxes that store the event in the same way count as the emission.
- Payments.RefundedAtMostOnce: calls are serialised; payment events, and the unique index that allows one payment per order, are left out, so a lookup may return any matching record.
- History.HistoryReplaysIff: asks that emission times do not run backwards and that each event was accepted once for the handler and handled in the end; page limits of a listing are left out, and a record write that fails is taken to have had no effect.
- Idempotency.KeptIffSerial: the dedup store is shared by event ID alone; several handlers wrapped with one store count as one here.
- Delivery.RelayMarksOnlySent: one relay polls the outbox; several engines polling one database are left out.
- Orders.OutboxIsImageOfCommits: calls are serialised; customer snapshots, order dates and event metadata are left out; the payment-succeeded subscriber is just another caller of the transition.
- Auth.FiveSessionsAtMost: hashing, token formats, registration and OIDC are left out; calls are serialised, and a transaction sees a correct listing of active tokens and takes effect as a whole.
- RabbitRetry.RetriesAreTieredAndBounded: broker redelivery, reconnection, and topologies whose declaration failed are left out.
- Engine.Engine.Boot: the databases, caches and relay that are set up between sorting and Init are left out.
- A guarantee over orders and payments together: cancelling an order whose payment is pending makes the refund fail and retry, so the code does not decide one.
- HTTP controllers, middleware other than the rate limiter, storage and message drivers, migrations, configuration and telemetry: foreign calls or no hard property.
- Product filters, shipping rates, discounts, reviews and pagination: single-branch computations.
