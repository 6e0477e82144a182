# InferFlow routing engine: a verified model

InferFlow is a request router. A server accepts chat requests, asks the active strategy for a
backend, calls it, and records metrics, backend health and prompt affinity. This project models
the routing engine in Dafny and proves what it promises:

- **Load-tracking selectors** (`least_pending`, `cost_aware`, `kv_aware`). Each is a class whose
  methods are proved against the functions of `Books`. The same algorithm is also a step machine
  (`SelectMachine`) in which every health read, every counter read, the ticket, the final `Add`,
  both halves of a release and every publication of a list is a step of its own. Over every
  schedule of those steps: conservation of each counter, the effect of republishing, what a
  decision rests on, health safety (`SelectTheorems`) and the imbalance bounds (`Imbalance`).
  `Lockstep` ties the two levels together for all three: a Select that is not disturbed is the
  one-step Select, on the affinity path as on the others.
- **Equivalences and bounds over runs.** `least_pending` collapses to `round_robin` (`Collapse`),
  cheap `cost_aware` and never-hitting `kv_aware` are `least_pending` (`Lockstep`; the latter also
  in every interleaving, `ProbeRefinement`), every sequence of calls is a run of the step machine
  (`SequentialRuns`), sequential `cost_aware` is within Graham's bound of every assignment (`Greedy`), and `round_robin` has an
  exact distribution law (`RoundRobinLaw`).
- **Affinity store** (`Cache`, `StoreMachine`, `AffinityHistory`). Sequentially the TTL map answers
  as the history of its writes; concurrently it can only lose entries, and exactly when it does is
  stated.
- **Server** (`Server`, `Strategies`, `ServerRuns`, `Lifecycle`). One request at a time as a class;
  any sequential run of requests, switches, probes and readiness checks from the server's start,
  with every affinity hit, refusal and readiness answer characterised by the calls before it; many
  requests at once, with strategy switches and probes, as a step machine with its accounting at
  every state and at quiescence. That machine leaves open which backend a Select picks among those
  it has itself read healthy; `SharedHealth` runs the strategies' own step machines side by side
  over one health and proves health safety of them, across switches.
- **Metrics and cache keys** (`Metrics`, `ChatRequest`, `CacheKeys`).

Layout: `Sums`, `Iteration`, `Ring`, `Kinds` and `GoText` hold the arithmetic and text the source
relies on; `Books` the sequential specification of a selector; the remaining files follow the
source's files or state the theorems named above. `dafny verify dfyconfig.toml` checks everything.

Conventions. Backends, counters and decisions are objects in the classes; in the step machines a
backend is a number (or its name) and a counter is named by its backend and the publication that
allocated it. Steps of a schedule that are not enabled do nothing, so a schedule is any sequence.
Names of backends are pairwise distinct, because the configuration numbers them
(`internal/server/config.go:31`), so backend objects in a list are distinct too; members that need
this say so with `Distinct`. The clock never runs backwards. Latencies are real numbers.

Definitions that several statements share are pinned from outside: the machines' steps by what they
do to a state (`UndisturbedSelect`, `UndisturbedPick`, `UndisturbedDraw`, `LookupAlone`, `GoesOut`,
`ComesBack`, `ReleaseGivesBack`), constants by the literals in the statements about them.

Where a promise is false of the code, the model keeps the code and states exactly when it holds:

- A counter is not the whole account of its backend after the backend was unlisted and relisted
  while a request was outstanding (`RelistingLosesTheAccount`). Read off before the call, publishing
  a list with a backend that is not listed gives it a whole account exactly when every decision for
  it has been given back (`PublishedAccountIff`). Selects in flight with an older snapshot can break
  it later, by exactly those Adds that charge the retired counter (`StepBreaksAccountIff`,
  `OthersKeepAccount`); if none holds such a snapshot it stays whole while the backend stays listed
  (`PublishedAtHomeIff`, `AccountStaysWhole`).
- A start index is outside the list for tickets from 2^63 on, unless the list length divides the
  distance to 2^64 (`StartIsIndexIff`, `StartCanBeNegative`).
- A racing delete loses an entry that has not expired (`DeleteLosesIff`, `LossNeedsRace`,
  `RacingDeleteLosesFreshEntry`, reached by `ExpiredLookupIsReached`).
- Two requests that differ can share a cache-key payload if a content contains a newline
  (`PayloadRoundTripIff`, `NewlineCollides`).

## Model

| member | source | states |
|---|---|---|
| Imbalance.WeightedImbalanceBound | internal/router/costaware.go:51-83 | with a fixed list, fixed health, no release, effective costs at most C and at most K Selects in flight, no two healthy loads ever differ by more than K*C, in every interleaving of the Selects' single reads and Adds |
| Imbalance.LeastPendingImbalanceBound | internal/router/leastpending.go:51-78 | the same for least_pending: healthy loads differ by at most the number of Selects in flight, either way round |
| Imbalance.QuietStep | internal/router/leastpending.go:57-78 | the inductive bound: over any level not below some healthy load, a healthy load plus what in-flight Selects still aim at it from readings up to that level exceeds the level by at most K*C; every step keeps it |
| Imbalance.CommitBalanced | internal/router/costaware.go:79-83 | the Add turns what was aimed into load, because a finished scan's minimum is at most every healthy load now, however stale its readings |
| SelectTheorems.CountersHoldOutstandingCost | internal/router/costaware.go:25-90 | in every reachable state of every schedule each counter object equals the summed cost of the decisions charged to it and not yet given back, is never negative, and is zero exactly when all of them have been given back, however often each is released |
| SelectTheorems.ReleaseGivesBack | internal/router/strategy.go:39-45 | releasing a live decision, both halves, lowers its counter by exactly its cost and moves no other counter, thread, list or ticket |
| SelectTheorems.ReleaseAgain | internal/router/strategy.go:39-45 | releasing it again does nothing |
| SelectTheorems.ReleasedIsGivenBack | internal/router/strategy.go:39-45 | over every schedule, a finished Select that is released and later subtracted has given back, whatever else happens and however often |
| SelectTheorems.AllGivenBack | internal/router/leastpending.go:82-84 | from every reachable state in which all Selects have finished, once each decision has been released and subtracted, in any order, every counter is at zero |
| SelectTheorems.PublishedAccountIff | internal/router/leastpending.go:25-39 | in any state, before a list with b is published: if b is listed, its account is whole afterwards exactly when it is now; if not, exactly when every decision for b has been given back |
| SelectTheorems.StepBreaksAccountIff | internal/router/leastpending.go:41-78 | a step of a Select breaks a whole account exactly when it is the Add, on b, to a counter that an older snapshot gave and that is no longer b's |
| SelectTheorems.OthersKeepAccount | internal/router/leastpending.go:82-84 | and the start of a Select, either half of a release and a health change never break it |
| SelectTheorems.PublishedAtHomeIff | internal/router/leastpending.go:25-45 | after the publication nothing is charged or about to be charged on another counter of b exactly when that was so before (b listed), or when nothing is owed for b and no Select in flight has b in its snapshot (b not listed) |
| SelectTheorems.AccountStaysWhole | internal/router/leastpending.go:25-84 | from such a state b's live counter equals its outstanding cost over every schedule that keeps b listed |
| SelectTheorems.LiveCounterIsWholeAccountIff | internal/router/leastpending.go:25-39 | over every run, a listed backend's live counter equals all its outstanding cost exactly when nothing charged to a counter retired by an earlier removal is still owed |
| SelectTheorems.RetainedBackendKeepsItsAccount | internal/router/leastpending.go:25-39 | a backend in every published list keeps one counter, equal to its outstanding cost, however Selects and releases straddle the publications |
| SelectTheorems.RetainedCounterStays | internal/router/leastpending.go:30-34 | and every snapshot and every decision that names the backend holds that same counter |
| SelectTheorems.RelistingLosesTheAccount | internal/router/leastpending.go:30-35 | whenever a request is outstanding on a backend, unlisting and relisting it makes its live counter read zero while the request is still owed |
| SelectTheorems.OneSelectIsOutstanding | internal/router/leastpending.go:41-86 | such a state is reached by one Select |
| SelectTheorems.MissingCounterBranchesAreDead | internal/router/leastpending.go:62-65 | every access of a Select to its snapshot's map finds a counter, in every interleaving with publications |
| SelectTheorems.DecisionIsFirstLeastSeen | internal/router/leastpending.go:51-76 | a scanned decision names a backend of the Select's own snapshot whose reading was the least it made, the earliest in ring order among equals, and that snapshot's counter for it |
| SelectTheorems.UnhealthyIsNeverReturned | internal/router/leastpending.go:57-76 | from a state where a backend is unhealthy until something marks it healthy, no load-tracking Select started after that state holds or returns it, whatever is published and interleaved |
| SelectTheorems.ReturnedWasReadHealthy | internal/router/kvaware.go:57-60 | whatever backend a load-tracking Select holds or returns, on the affinity path or from the scan, it has itself read healthy at one of its own steps |
| SelectMachine.ApplyKeeps | internal/router/kvaware.go:28-117 | every step of every Select (affinity path and fallback), each half of a release, publication and health change keeps the books: counters equal what is owed, snapshots are complete, candidates are the best of what was read |
| SelectMachine.AdvanceKeeps | internal/router/leastpending.go:41-86 | one step of one Select moves each counter by exactly what that Select now owes on it |
| Lockstep.UndisturbedSelect | internal/router/leastpending.go:41-86 | a least_pending or cost_aware Select whose steps nobody interrupts ends with the books, the backend, the counter and the pending count of the one-step Select, or its refusal |
| Lockstep.UndisturbedKVAwareSelect | internal/router/kvaware.go:44-117 | the same for kv_aware, with any affinity name or none: the match is found and charged, or the search falls through to the scan |
| SequentialRuns.CallIsRun | internal/router/costaware.go:25-91 | every call on an instance of any of the three strategies (Select, release, publication, health change) is a run of the step machine, with the same books, health and decisions afterwards |
| SequentialRuns.CallsAreRun | internal/router/kvaware.go:28-117 | so is every sequence of calls on a new instance: what holds of every schedule holds of it |
| Lockstep.CheapCostAwareIsLeastPending | internal/router/costaware.go:41-91 | with no estimate above 1, cost_aware gives the same answers, decisions and counters as least_pending for every sequence of Selects, releases, publications and health changes |
| Lockstep.MissingKVAwareIsLeastPending | internal/router/kvaware.go:44-117 | the same for kv_aware whose lookups never name a listed healthy backend at their moment |
| ProbeRefinement.MissingSelectsAreLeastPending | internal/router/kvaware.go:44-117 | for every schedule of concurrent Selects, releases, publications and health changes in which no Select matches a preferred backend, the schedule without hints and search steps is a least_pending run with the same books, health, tickets and decisions, at every point |
| Lockstep.AffinityServedIff | internal/router/kvaware.go:54-76 | a named backend is served without a ticket exactly when it is listed and healthy, and only its counter grows, by one |
| Collapse.ReleasedLeastPendingIsRoundRobin | internal/router/leastpending.go:41-86 | fed the same Selects, health changes and lists, least_pending with each decision released before the next Select answers exactly as round_robin, refusals included |
| Collapse.UnreleasedLeastPendingIsRoundRobin | internal/router/leastpending.go:51-78 | on a fixed list of healthy backends with level counters and no release at all, its i-th answer is round_robin's i-th |
| Collapse.LevelBooksPickRoundRobin | internal/router/roundrobin.go:28-46 | on level counters, with any health, both choose the same backend and use the same number of tickets |
| Collapse.StaircaseStep | internal/router/leastpending.go:51-78 | the invariant behind it: along the ring from the next start the loads are a flat run followed by a run one higher, and each Select extends it by one |
| RoundRobinLaw.RoundDistribution | internal/router/roundrobin.go:37-45 | any n consecutive tickets choose a healthy position once plus once per position of the unhealthy run just before it, and an unhealthy one never |
| RoundRobinLaw.StartBeforePicksIff | internal/router/roundrobin.go:37-43 | a scan starting d places before a healthy position ends there exactly when d is within that unhealthy run |
| RoundRobinLaw.RoundsDistribution | internal/router/roundrobin.go:37-45 | and any number of whole rounds multiplies it |
| RoundRobinLaw.ServedIndependentOfSchedule | internal/router/roundrobin.go:28-46 | concurrent Picks, health read by health read: once those holding tickets are answered, how often each position was served depends on the number of tickets only, and follows the law |
| RoundRobinLaw.UnhealthyIsNeverServed | internal/router/roundrobin.go:38-43 | a Pick started after a backend is unhealthy is not answered with it until it is marked healthy |
| RoundRobinLaw.UndisturbedPick | internal/router/roundrobin.go:28-46 | a Pick that nobody interrupts takes the next ticket (none on an empty list) and is answered with the first healthy backend from it, or refused if there is none; nothing else moves |
| RoundRobinLaw.ServedWasReadHealthy | internal/router/roundrobin.go:38-43 | whatever a Pick is answered with, it has itself read healthy at one of its own steps |
| RandomMachine.ServedWasReadHealthy | internal/router/random.go:31-51 | the same for the random strategy's gathering and draw, whatever the generator gives |
| RandomMachine.UndisturbedDraw | internal/router/random.go:31-51 | a random Select that nobody interrupts returns the drawn one of the healthy backends in list order, and is refused exactly if there is none |
| RandomMachine.UnhealthyIsNeverServed | internal/router/random.go:36-50 | a random Select started after a backend is unhealthy neither gathers nor returns it until it is marked healthy |
| SharedHealth.UnhealthyIsNeverReturned | internal/server/server.go:236-310 | over the step machines of all instances ever switched to, sharing one health: from a state where a backend is unhealthy until something marks it healthy, no Select that starts after that state, on any instance of any strategy, holds or returns it |
| SharedHealth.InstanceIsOwnRun | internal/server/server.go:278-310 | in any run of all instances together each instance does exactly what its own machine does under its own steps and all health changes |
| SharedHealth.SwitchAddsNew | internal/server/server.go:290-307 | a switch adds a fresh instance of its kind, on the given list and the shared health, and touches no other |
| Greedy.GrahamBound | internal/router/costaware.go:56-83 | for sequential Selects without release over h healthy backends, h times any healthy load is at most the total cost plus h-1 times the largest cost |
| Greedy.GreedyWithinTwiceOptimal | internal/router/costaware.go:56-83 | hence h times any healthy load is at most 2h-1 times the largest load of any assignment of the same requests to those backends |
| Greedy.AssignKeepsLevel | internal/router/costaware.go:56-83 | healthy loads stay within the largest cost of each other and add up to all that was assigned |
| Ring.StartIsIndexIff | internal/router/leastpending.go:51 | the start index is inside the list exactly for tickets below 2^63 or where the list length divides the distance to 2^64, and below 2^63 it is the ticket modulo the length |
| Ring.StartCanBeNegative | internal/router/roundrobin.go:37 | with three backends the first ticket beyond gives -2 |
| Ring.BestIsFirstLeast | internal/router/leastpending.go:53-72 | the running minimum of the scan is the least reading, the earliest among equals, and absent only if every backend was skipped; and it is the only such position |
| Ring.FirstTrueCorrect | internal/router/roundrobin.go:38-45 | the round_robin scan stops at the first healthy position and fails only if there is none |
| Ring.ChooseIsLeast | internal/router/leastpending.go:57-72 | from any start the choice is a least loaded healthy position of the list |
| Books.SelectServesLeastLoaded | internal/router/leastpending.go:47-86 | an undisturbed Select succeeds exactly when some listed backend is healthy, charges a least loaded one by the cost and no other, and reports the new value |
| Books.RepublishedWellFormed | internal/router/leastpending.go:25-39 | publishing keeps one counter per listed backend, no two sharing one |
| LoadTracking.Rebind | internal/router/leastpending.go:29-36 | the loop of SetBackends: retained backends keep their counter object, others get a fresh one at zero, no value changes |
| LoadTracking.Scan | internal/router/leastpending.go:53-72 | the scan loop returns the first least loaded healthy backend from the start, with its counter, or nothing |
| LoadTracking.ScanAndCharge | internal/router/leastpending.go:51-78 | scan and Add together are the one-step Select of the books |
| LeastPendingStrategy.LeastPending.constructor | internal/router/leastpending.go:15-19 | a new instance has one counter per listed backend, all zero |
| LeastPendingStrategy.LeastPending.SetBackends | internal/router/leastpending.go:25-39 | retained backends keep their counter and its value, new ones start at zero |
| LeastPendingStrategy.LeastPending.Select | internal/router/leastpending.go:41-86 | the whole new state is that of the books' Select at cost 1, the decision holds the charged counter and what to give back, and it succeeds exactly when some listed backend is healthy |
| LeastPendingStrategy.LeastPending.HasHealthyBackend | internal/router/leastpending.go:88-98 | true exactly when some listed backend is healthy |
| CostAwareStrategy.CostAware.SetBackends | internal/router/costaware.go:25-39 | as for least_pending |
| CostAwareStrategy.CostAware.Select | internal/router/costaware.go:41-91 | the books' Select at the estimate raised to at least 1; the decision gives exactly that back to the counter charged |
| KVAwareStrategy.KVAware.Select | internal/router/kvaware.go:44-79 | a preferred, listed, healthy backend is charged without a ticket and flagged as a hit; otherwise the least loaded one is taken and not flagged; the store's history is untouched |
| KVAwareStrategy.KVAware.SelectPreferred | internal/router/kvaware.go:56-78 | the same for any answer the store may have given, a miss or an error included |
| KVAwareStrategy.KVAware.SelectLeastPending | internal/router/kvaware.go:81-117 | the fallback is the books' Select at cost 1 |
| KVAwareStrategy.KVAware.FindPreferred | internal/router/kvaware.go:57-60 | the loop finds the first listed healthy backend of that name |
| KVAwareStrategy.KVAware.SetBackends | internal/router/kvaware.go:28-42 | as for least_pending |
| Books.SelectOrServes | internal/router/kvaware.go:54-78 | with or without a match some healthy backend is served whenever there is one, and a match is what is served |
| KVAwareStrategy.MatchIsAffinityMatch | internal/router/kvaware.go:57-60 | with distinct names the first listed healthy backend of the preferred name is the named backend, if it is listed and healthy: the match of the step machines |
| RoundRobinStrategy.RoundRobin.Pick | internal/router/roundrobin.go:28-46 | the first healthy backend from the ticket; an empty list uses no ticket; it succeeds exactly when some listed backend is healthy |
| RandomStrategy.Random.Select | internal/router/random.go:31-51 | the drawn one of the healthy backends, in list order; refused exactly when there is none |
| RandomStrategy.HealthyOnesAreUp | internal/router/random.go:36-41 | what it gathers is the healthy part of the list, in order |
| Backends.Decision.Release | internal/router/strategy.go:39-45 | the first call gives the amount back to the counter, every later one does nothing |
| Backends.AnyHealthy | internal/router/leastpending.go:88-98 | the loop of every HasHealthyBackend is true exactly when some listed backend is healthy |
| Cache.LookupIff | internal/cache/memory.go:26-45 | the history answers a lookup with b exactly when the last effective write under the trimmed key stored trimmed b and has not passed its time plus effective ttl |
| Cache.MemoryStore.PreferredBackend | internal/cache/memory.go:26-45 | answers what the history answers, so lazy deletion is not observable |
| Cache.MemoryStore.RememberBackend | internal/cache/memory.go:47-64 | adds one write to the history and one entry to the map, nothing for a blank key or name |
| Cache.ReplayedIsLatest | internal/cache/memory.go:57-62 | the map without deletions holds, for every key, the latest effective write |
| StoreMachine.HitIsLatestAndUnexpired | internal/cache/memory.go:32-44 | in every interleaving a hit returns what was last remembered under its key when it read, unexpired when it checked |
| StoreMachine.CheckDecides | internal/cache/memory.go:38-44 | a lookup that has read an entry answers with it exactly if it has not expired at its check, and changes nothing |
| StoreMachine.OutcomeIff | internal/cache/memory.go:26-45 | in every interleaving a lookup misses exactly when its key was blank or absent at its read or its entry had expired at its check, and hits exactly when it had not |
| StoreMachine.PutsAreLog | internal/cache/memory.go:47-64 | deletions aside, the machine's history is the log of the sequential store |
| StoreMachine.LookupAlone | internal/cache/memory.go:26-45 | wherever no fresh entry has been lost, a lookup that is not interleaved with anything answers what the sequential store answers of the same history |
| StoreMachine.OnlyEverLossy | internal/cache/memory.go:32-62 | the map never holds anything but a key's last remembered entry, and lacks a key exactly when its last mutation was a deletion or there was none |
| StoreMachine.DeleteLosesIff | internal/cache/memory.go:38-41 | a step turns a store that answers as the sequential one into one that does not exactly when it deletes an entry that has not expired |
| StoreMachine.LossNeedsRace | internal/cache/memory.go:38-41 | and then the key was remembered again between that lookup's read and its delete |
| StoreMachine.RacingDeleteLosesFreshEntry | internal/cache/memory.go:38-41 | whenever a lookup has found its entry expired, remembering the key at that moment is lost to its delete |
| StoreMachine.ExpiredLookupIsReached | internal/cache/memory.go:32-38 | such a lookup is reached |
| AffinityHistory.LookupIsLatestSuccess | internal/server/server.go:243 | the store answers a key with a name exactly when the latest answered request under that trimmed key was answered by that backend and has not outlived the effective ttl |
| Server.Server.MustHitIff | internal/server/server.go:186-243 | what a kv_aware request must hit, in terms of all answered requests of the run, the effective ttl and health now |
| CacheKeys.BuildCacheKey | internal/server/server.go:356-374 | the key is the prefix and the digest of the text that is written, which for a validated request is its trimmed parts line by line |
| CacheKeys.KeysEqualIff | internal/server/server.go:356-374 | validated requests share a key exactly when the digests of their texts agree, and always when they are the same up to surrounding white space |
| CacheKeys.CleanKeysEqualIff | internal/server/server.go:356-374 | without digest collisions, requests free of newlines (and colons in roles) share a key exactly when they are the same up to surrounding white space |
| ServerRuns.Run | internal/server/server.go:161-310 | any sequential run of requests, switches, probes and readiness checks from the server's start, in terms of the earlier calls and answers. A request is a hit on b exactly when kv_aware is active, the latest answered request whose text has the same digest was answered by b within the effective ttl, under any strategy, and b is healthy now; it is refused exactly when nothing is healthy; without a hit, round_robin, least_pending and kv_aware all serve the first healthy backend from the position of their next ticket, counted from the switch, and random the drawn healthy one; readiness says exactly whether something is healthy |
| ServerRuns.RunIsUnique | internal/server/server.go:161-310 | which fixes the outcomes of a run by its calls alone |
| ServerRuns.PerformRequest | internal/server/server.go:161-248 | one request of such a run: its answer is what the trail of earlier calls demands, and the trail after it describes the server |
| ServerRuns.PerformProbe | internal/server/server.go:269-276 | one probe round of such a run |
| Server.Server.HandleChatCompletions | internal/server/server.go:161-248 | one request: refused exactly when no backend is healthy; a hit exactly when strategy, history and health demand it, and on that backend; otherwise, between requests, whoever's turn it is or is drawn; only a failed call changes health; only an answered request is remembered; every metric's change, the latency average included; all counters back where they were; exactly the tickets it takes, and the store's clock not past the answer |
| Server.Server.Route | internal/server/server.go:184-247 | the same for selection and service, for any cache key |
| Server.Server.CallBackend | internal/server/server.go:228-243 | latency is recorded for that backend only, a failure marks it and is counted, a success is remembered, in-flight is back where it was |
| Server.Server.RecordAffinity | internal/server/server.go:375-380 | one write with the server's ttl, none for an empty key or name |
| Server.Server.SetStrategy | internal/server/server.go:284-310 | a switch installs a new instance of the strategy that the normalized name stands for, with no ticket used and all counters at zero; an unknown name changes nothing |
| Server.Server.ProbeBackends | internal/server/server.go:269-276 | afterwards every backend's health is its probe's result |
| Server.Server.HandleReadyz | internal/server/server.go:98-105 | ready exactly when some backend is healthy, which is when a request would be served |
| Server.Server.constructor | internal/server/server.go:38-54 | the server starts on round_robin with no ticket used, an empty store and all metrics at zero |
| Server.NormalizeIff | internal/server/server.go:312-325 | a switch accepts exactly the four runtime names, each in any spelling up to surrounding white space, case, and hyphens for underscores |
| Server.RuntimeNameIsItsOwn | internal/server/server.go:312-325 | each of the four names is accepted as itself |
| Strategies.Strategy.Select | internal/router/strategy.go:22-27 | every runtime strategy serves a healthy listed backend exactly when there is one, hits exactly on an affine one, takes exactly one ticket unless it is random, hits or has no list, serves on idle counters the first healthy backend from that ticket (random the drawn one), and moves only the counter its decision will give back to |
| Strategies.InTurnIsPick | internal/router/roundrobin.go:37-43 | whose turn it is on the live backends is round_robin's pick |
| Strategies.Strategy.GiveBack | internal/router/strategy.go:39-45 | a release moves only the decision's counter |
| Lifecycle.QuiescentAccounting | internal/server/server.go:180-247 | over every schedule of concurrent requests, switches and probes, once all requests are over: total requests are refusals plus backend selections, strategy selections equal backend selections, hits plus misses equal kv_aware selections, nothing is in flight, and every counter of every instance, replaced ones included, is zero |
| Lifecycle.QuiescentCounts | internal/metrics/state.go:79-117 | and each strategy, each backend and each failure is counted exactly once per request |
| Lifecycle.InFlightWithinLoads | internal/server/server.go:208-229 | in every state the in-flight gauge is at most the sum of all counters of all instances plus in-flight requests of strategies without counters; with load-tracking strategies only, at most the counters |
| Lifecycle.CountsAreOrdered | internal/server/server.go:180-238 | in every state in-flight and errors are at most backend selections, those at most strategy selections, those plus refusals at most the total, hits plus misses at most kv_aware selections |
| Lifecycle.ApplyKeeps | internal/server/server.go:180-310 | every step keeps tallies, totals and every instance's counters equal to what the requests have reached and hold |
| Lifecycle.GoesOut | internal/server/server.go:180-228 | from any state, a request on a healthy backend can run up to its call, and is counted once in the total, for its strategy, for its backend and as hit or miss under kv_aware only, with the gauge and, for the strategies that keep one, its counter one higher |
| Lifecycle.ComesBack | internal/server/server.go:229-243 | and back from it, with gauge and counter one lower, and on a failure one more error and the backend marked |
| Lifecycle.IsTurnedAway | internal/server/server.go:202-205 | a refused request is counted in the total and nowhere else |
| Lifecycle.InstalledServes | internal/server/server.go:278-310 | from an installation to the next switch every request that had not read the strategy runs on the installed instance |
| Lifecycle.RoundRobinServesFirst | internal/server/server.go:39-51 | and before the first switch on round_robin |
| Lifecycle.UnhealthyNeverServes | internal/server/server.go:186-276 | from a state where a backend is unhealthy until a probe finds it healthy, no request arriving later is served by it, across any switches, for Selects that only pick what they have read healthy since they were bound |
| Lifecycle.FailureKeepsAway | internal/server/server.go:236-238 | in particular, for such Selects, from the moment a failed call has marked it |
| Metrics.EmaIsWeightedSum | internal/metrics/state.go:61-66 | the average of n samples is the sum of their shares |
| Metrics.WeightsAreConvex | internal/metrics/state.go:61-66 | the share of the first sample is 0.8^(n-1) of it, of the one at index i 0.2*0.8^(n-1-i), and the weights add up to 1 |
| Metrics.EmaWithinRange | internal/metrics/state.go:61-66 | the average stays within the range of its samples |
| Metrics.EmaForgets | internal/metrics/state.go:61-66 | two histories ending in the same k samples differ by exactly what they differed by before, shrunk k times |
| Metrics.ShrunkIsProduct | internal/metrics/state.go:61-66 | shrinking k times is multiplying by 0.8^k |
| Metrics.EntryIsOwnEma | internal/metrics/state.go:55-67 | whatever is recorded for others, a backend's entry is the average of its own samples, and exists once it has one |
| Metrics.State.RecordLatency | internal/metrics/state.go:55-67 | the map after one sample |
| Metrics.State.RecordStrategy | internal/metrics/state.go:79-81 | the name is present afterwards and its count is one more than before, or one; every other name keeps its presence and count |
| Metrics.State.RecordBackend | internal/metrics/state.go:83-85 | the same for backends |
| ChatRequest.PayloadRoundTripIff | internal/server/server.go:356-369 | the payload of a validated request reads back as the request, up to surrounding white space, exactly when the trimmed model, roles and contents hold no newline and the trimmed roles no colon |
| ChatRequest.PayloadInjective | internal/server/server.go:356-369 | on such requests equal payloads mean equal requests up to white space |
| ChatRequest.ValidPayloadIsJoined | internal/server/server.go:327-369 | a validated request's payload is its trimmed parts joined by newlines and colons, and never empty |
| ChatRequest.ValidateIff | internal/server/server.go:327-335 | a request is rejected exactly when its model is blank, said first, or it has no messages |
| GoText.TrimSplits | internal/server/server.go:358-363 | trimming takes white space off both ends and nothing else |
| ChatRequest.NewlineCollides | internal/server/server.go:360-365 | a content with a newline and a message-like rest makes one message share its payload with two |
| ChatRequest.BuildPayload | internal/server/server.go:357-366 | the builder loop writes that payload |
| ChatRequest.EstimateRequestCost | internal/server/server.go:337-354 | the estimate is the number of started groups of four content bytes, and at least 1 |

## Left out

- RoundRobinStrategy.RoundRobin.Pick: requires a ticket below 2^63, as do the Selects that take one and the server methods built on them; what happens beyond is stated by `Ring.StartIsIndexIff`.
- ServerRuns.Run: digests are 32 hexadecimal digits, as the server writes them, and nothing else is assumed of them; one request at a time and with the in-memory store; requests at once are `Lifecycle` and `SelectMachine`, where a store may also miss or fail at will.
- Server.Server.ProbeBackends: the probes' results arrive together; requests between two probes of one round are interleaved only in `Lifecycle`.
- Lifecycle.QuiescentAccounting: which backend a Select picks is left open there (any it has read healthy, or a refusal); the affinity store and latencies are not part of that machine.
- Lifecycle.UnhealthyNeverServes: rests on that machine's own rule for what a Select picks, as does `Lifecycle.FailureKeepsAway`; the statement about the selectors themselves is `SharedHealth.UnhealthyIsNeverReturned`.
- RandomStrategy.Random.Select: the generator is a parameter, and nothing is claimed about its distribution.
- Metrics.State.RecordStrategy: the counter objects behind the two maps are folded into the maps' values; the map pointer that the snapshot methods read without the lock is not modelled.
- ChatRequest.EstimateRequestCost: the estimate is not an input of the server class, since no strategy a server can run reads it.
- Metrics.EmaForgets: over real numbers; floating-point rounding and the truncation in `LatencySnapshot` are not modelled.
- Counters are unbounded integers: overflow of 64-bit counters is not modelled.
- The cache key after its payload: SHA-256 and its truncation are an uninterpreted function, and nothing is claimed about collisions there.
- Go's memory model below single atomic steps, and fairness: every result is about states and outcomes, not about progress.
- Balance under releases, and across a strategy switch (new instances start at zero): the code promises none.
- `RedisStore`, the HTTP, JSON, CORS and tracing layers, timeouts, `/healthz`, `/metrics`, `/api/status`, the proxy and adapter clients, and environment parsing: network plumbing around the engine.
- Parsing and trimming of a backend's URL: the engine does not read it.
- The Python load generator, the UI, charts and deployment files.
