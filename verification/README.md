# ExpertFlow verification

A Dafny model of the deterministic core of ExpertFlow, with proofs of what that core promises. It has
four parts.

**The expert-cache engine.** A router selects a few experts per layer and token. The analyses replay
such traces against caches of limited size: a batched LRU cache with two ways to order one event's
experts (hits first, as the policy simulator does; scan order, as the prefetch simulator does), a
fixed hotset, a move-to-front stack of reuse distances, a prefetch simulator shared by several
conversations, and a bound on what the gaps between layers can hide.

**The evidence protocol.** Measurements are appended to a store that only grows, verified from their
raw files, and sealed into execution plans with chains of fallbacks. A paced study and a sequence of
cases write journals of their attempts; validators reconstruct each verdict from the journal alone.

**Packing and parsing.** Experts are packed into aligned slots; a native parser reads the layer list
that a Python launcher prints.

**Collection.** Interrupted collections are resumed, and a loader decides which manifests are complete.

Loops and updated state are methods and classes proved against functions of their inputs; what is
proved about those functions are the results below. The modules follow the program: `Trace`,
`LruEngine` to `LruScanOrder` with `ListCache`, `ReuseDistance`, `StaticHotset`, `CacheSim`,
`Prefetch` to `PrefetchWhole`, `Deadline`; `Plan`, `PlanEvidence`, `PlanCodec`, `Evidence`,
`EvidenceStore`, `Processes`, `StudyJournal` to `StudyComplete`, `Coverage`, `CoverageAgreement`,
`CoverageBudget`; `ExpertLayout`, `ExpertInventory`, `LayerList`, `LayerConfig`; `CollectionPaths`,
`Collection`, `CollectionRuns`, `CollectionVerdict`, `CollectionClash`. `dafny verify dfyconfig.toml`
checks all of them.

## What a reader may not expect

- The hits-first LRU is not a stack algorithm. A larger cache always contains a smaller one exactly for
  at most two experts per event (`LruAnomaly.IncludesExactlyUpToTwo`). More slots never cost a hit
  exactly for at most four, and for every larger number some trace loses arbitrarily many hits
  (`LruAnomaly.MonotoneExactlyUpToFour`). The configured models select eight. Scan order has neither
  defect.
- With several conversations on one layer the oracle prefetcher can waste its transfers
  (`PrefetchOracle.OracleCanWaste`, and for a whole run `PrefetchWhole.OracleRunCanWaste`). It never does
  when the step asks no layer for more distinct experts than it has slots
  (`PrefetchReady.FittingStepWastesNothing`); `PrefetchReady.ReadyExactly` says of each transfer whether
  it is wasted, and `PrefetchOracle.OracleStepIsMissFreeExactly` when a step has no blocking miss.
- A plan needs at least two measurements, whatever the workload asks for, since one has no standard
  deviation (`Plan.OneRunNeverSeals`).
- Two checks of sealing never decide: the one for a static candidate without a fallback, and, with a
  store that keeps owned runs unique, the one for a repeated owned run.
- The validator of the case sequence accepts a stopped report whose earlier cases never ran
  (`CoverageAgreement.AcceptedStopMayHaveAGap`), exactly when one of them left no report on disk
  (`CoverageAgreement.StopIsPrefixExactly`). The collector always makes the cases that ran a prefix.
- Two conversations of a corpus can share an attempt directory when an id contains a path separator, so
  that a retry can overwrite the files of a passed one (`CollectionPaths.IdsCanCollide`).
  `CollectionPaths.ApartExactly` says when they cannot, and `CollectionClash.JudgedExactlyWhenSeparate`
  that only then the marks can be relied on, even if every run started from what earlier ones left.
- A cycle of comparisons does not by itself refuse a fork: when its baseline on the cycle is a stock
  record, that record is judged without its comparisons (`Evidence.StockIgnoresComparisons`), and both can
  be accepted (`Evidence.CyclesCanBeAccepted`).
- The launcher bounds neither the layers to 0..29 nor the log path to a drive letter; the native parser
  does. `LayerConfig.PrintedEnvironmentReadsBack` states exactly what gets through.

## Model

| member | source | states |
|---|---|---|
| LruEngine.ServeValid | src/expertflow/analysis/cache_sim.py:137-155 | one event keeps the cache duplicate-free and within capacity and leaves the event's experts resident |
| LruEngine.FindVictim | src/expertflow/analysis/cache_sim.py:151-153 | the victim is the oldest entry outside the event, and none is found only if every entry is in the event |
| LruEngine.PromoteHits | src/expertflow/analysis/cache_sim.py:140-147 | the scan leaves the stale entries in order, followed by the hits in event order, and separates hits from misses |
| LruEngine.MakeRoom | src/expertflow/analysis/cache_sim.py:150-154 | eviction drops the oldest entries the event does not need, no more than necessary; it fails exactly when the event's own experts fill the cache |
| LruEngine.AdmitMisses | src/expertflow/analysis/q6_routing.py:211-215 | all misses are appended in event order, or the victim scan fails |
| LruEngine.ServeEvent | src/expertflow/analysis/cache_sim.py:137-155 | the whole event: it fails exactly for an event wider than the cache, otherwise the new cache is the trimmed old one followed by hits and misses |
| LruWindow.YoungestAreDemanded | src/expertflow/analysis/cache_sim.py:135-159 | after any events, from any cache, the youngest min(capacity, distinct demanded) entries are demanded experts |
| LruWindow.WindowHit | src/expertflow/analysis/cache_sim.py:135-159 | an expert demanded within a window of at most capacity distinct experts is resident |
| LruWindow.WindowMiss | src/expertflow/analysis/cache_sim.py:135-159 | an expert outside a window of at least capacity distinct experts has been evicted |
| LruWindow.WindowTheorem | src/expertflow/analysis/cache_sim.py:135-159 | for both orders: an expert last demanded in event m hits if events m.. demand at most C experts and misses if events m+1.. demand at least C |
| LruCapacity.EvictedIsOldest | src/expertflow/analysis/cache_sim.py:149-155 | when a seen expert is not resident, everything resident was demanded in its last event or later |
| LruCapacity.MissingBound | src/expertflow/analysis/cache_sim.py:135-159 | of a smaller cache's entries a larger one misses m only if 2m + 1 <= k, for k experts per event |
| LruCapacity.InclusionForTopTwo | src/expertflow/analysis/cache_sim.py:135-159 | for at most two experts per event a larger cache contains a smaller one |
| LruCapacity.MoreSlotsNeverHitLess | src/expertflow/analysis/cache_sim.py:135-159 | for at most four experts per event more slots never lose hits, on any trace |
| LruAnomaly.AnomalyHits | src/expertflow/analysis/cache_sim.py:135-159 | a loop of events with five experts each scores 22 hits a turn with seven slots and 21 with eight, for every number of turns |
| LruAnomaly.PaddedRun | src/expertflow/analysis/cache_sim.py:135-159 | adding the same experts to every event and as many slots changes no other hit |
| LruAnomaly.MoreSlotsCanHitLess | src/expertflow/analysis/cache_sim.py:135-159 | for every k >= 5 and every n some trace with k experts per event loses n hits when a slot is added |
| LruAnomaly.MonotoneExactlyUpToFour | src/expertflow/analysis/cache_sim.py:135-159 | adding a slot never costs a hit on any trace if and only if events have at most four experts |
| LruAnomaly.SmallerCanKeepMore | src/expertflow/analysis/cache_sim.py:135-159 | for every k >= 3 some trace with k experts per event leaves an expert in a smaller cache that a larger one has lost |
| LruAnomaly.IncludesExactlyUpToTwo | src/expertflow/analysis/cache_sim.py:135-159 | a larger cache contains a smaller one after every trace if and only if events have at most two experts |
| ListCache.ScriptIsRun | src/expertflow/analysis/cache_sim.py:135-159 | a script of events with the cache after each, if its turns follow one another, is the hits-first run of its events with the hits it lists |
| ReuseDistance.Touch | src/expertflow/analysis/q6_routing.py:179-185 | one demand moves its expert to the top, keeps the stack duplicate-free and reports where the expert was |
| ReuseDistance.DistanceCountsDistinct | src/expertflow/analysis/q6_routing.py:173-185 | the recorded index is the number of distinct experts demanded since the expert's previous demand |
| ReuseDistance.ColdAndReuse | src/expertflow/analysis/q6_routing.py:173-193 | cold is the number of distinct experts, and cold plus reuses is the demand |
| ReuseDistance.NearIsHistogram | src/expertflow/analysis/q6_routing.py:186-190 | reuses up to a distance, read off the histogram, are the demands found that near |
| ReuseDistance.ReuseDistances | src/expertflow/analysis/q6_routing.py:173-193 | the loop reports exactly the cold demands and the multiset of reuse distances of the trace |
| LruReuse.DemandBounds | src/expertflow/analysis/q6_routing.py:173-216 | a reuse at distance at most C - k hits, and a hit is a reuse at distance at most C + 2k - 3 |
| LruReuse.HitsBetweenReuses | src/expertflow/analysis/q6_routing.py:173-216 | in either order the hits of a run lie between the reuses up to C - k and the reuses up to C + 2k - 3 |
| LruReuse.LowerBoundIsSharp | src/expertflow/analysis/q6_routing.py:173-216 | for every C and k <= C some hits-first demand at distance C - k + 1 misses |
| LruReuse.UpperBoundIsSharp | src/expertflow/analysis/q6_routing.py:173-216 | for every C and 2 <= k <= C some hits-first demand at distance C + 2k - 3 hits |
| LruReuse.ScanOrderHitsBetweenReuses | src/expertflow/analysis/prefetch_sim.py:105-133 | in scan order the hits lie between the reuses below C and the reuses up to C + k - 2, for every C and k |
| LruReuse.MattsonForTopOne | src/expertflow/analysis/q6_routing.py:173-216 | with one expert per event the hits are exactly the reuse distances below C |
| LruScanOrder.ScanOrderCache | src/expertflow/analysis/prefetch_sim.py:105-133 | the scan-order cache is the C most recently demanded experts, in order |
| LruScanOrder.ScanOrderFrom | src/expertflow/analysis/prefetch_sim.py:105-133 | from any valid cache: an expert is resident after a history exactly when fewer than C distinct experts are younger than its last place in cache and history |
| LruScanOrder.ScanOrderHitsExactly | src/expertflow/analysis/prefetch_sim.py:105-133 | a demand hits it exactly when its expert is among the top C of the reuse-distance stack when the event starts |
| LruScanOrder.ScanOrderInclusion | src/expertflow/analysis/prefetch_sim.py:105-133 | with scan order a larger cache contains a smaller one for every number of experts per event |
| LruScanOrder.ScanOrderNeverHitsLess | src/expertflow/analysis/prefetch_sim.py:105-133 | and never hits less often |
| StaticHotset.CountInto | src/expertflow/analysis/cache_sim.py:85-87 | the counter holds exactly how often each expert has been demanded |
| StaticHotset.Rank | src/expertflow/analysis/cache_sim.py:89-94 | the ranking lists every counted expert once, by demand and then by id |
| StaticHotset.RankingUnique | src/expertflow/analysis/profile.py:92-97 | a counter has one ranking, so simulator and profiler see the same order |
| StaticHotset.Exchange | src/expertflow/analysis/cache_sim.py:82-96 | no exchange of residents that no outsider outdraws serves more demands |
| StaticHotset.ResidentsAreOptimal | src/expertflow/analysis/cache_sim.py:82-131 | on the fit trace no choice of at most C experts serves more demands of a layer than the residents |
| StaticHotset.MoreResidentsServeMore | src/expertflow/analysis/cache_sim.py:82-131 | more slots never serve fewer demands of the fit trace |
| StaticHotset.ProfilerAgrees | src/expertflow/analysis/profile.py:91-105 | the profiler's sum over the head of the ranking is the static hit count at that capacity |
| CacheSim.LruSequence | src/expertflow/analysis/q6_routing.py:199-216 | one sequence from a cold cache: it fails exactly at an event wider than the cache, and hits plus misses is the demand |
| CacheSim.Lru | src/expertflow/analysis/q6_routing.py:196-216 | all sequences, each cold: hits are the sum of the sequences' own hits |
| CacheSim.LruOutcomes | src/expertflow/analysis/cache_sim.py:135-159 | each event's ready and blocking experts depend only on the earlier events of its own layer |
| CacheSim.HitsSumOverLayers | src/expertflow/analysis/cache_sim.py:195-201 | the simulator's LRU hits are the sum over layers of each layer's own run, however the layers interleave |
| CacheSim.StaticResidents | src/expertflow/analysis/cache_sim.py:82-96 | each layer keeps the head of the ranking of its own demands, whatever the interleaving |
| CacheSim.StaticOutcomes | src/expertflow/analysis/cache_sim.py:114-131 | ready and blocking split each event by its layer's residents, and the ready ones add up to the static hits |
| CacheSim.StaticHotsetIsOptimal | src/expertflow/analysis/cache_sim.py:82-131 | no choice of at most C experts per layer gets more hits on the fit trace |
| CacheSim.MoreSlotsNeverServeLess | src/expertflow/analysis/cache_sim.py:82-131 | over a whole mixed trace, the residents fitted with more slots never serve fewer demands |
| CacheSim.PreloadsExactly | src/expertflow/analysis/cache_sim.py:89-96 | the fitted residents are exactly min(C, distinct demanded experts) in every layer |
| CacheSim.SimulatePolicies | src/expertflow/analysis/cache_sim.py:162-215 | refused exactly without slots or for too wide an event; otherwise every column balances, LRU is the sum over layers, static hits are the optimum over per-layer choices and attained by one, and the preloads are min(C, distinct demanded experts) added over the layers |
| CacheSim.OutcomesAddUp | src/expertflow/analysis/cache_sim.py:195-208 | ready plus blocking experts over all outcomes is the demand |
| Prefetch.OffersGood | src/expertflow/analysis/prefetch_sim.py:186-248 | in every mode transfers keep every cache within capacity, stay within budget, and never evict an expert demanded in this step or just issued |
| Prefetch.ConsumeGood | src/expertflow/analysis/prefetch_sim.py:250-272 | serving a step keeps caches valid; only issued transfers become ready; hits never exceed demand |
| Prefetch.OracleIssues | src/expertflow/analysis/prefetch_sim.py:198-241 | when a step fits, the oracle issues min(budget, candidates) transfers |
| PrefetchOracle.AllHitsExactly | src/expertflow/analysis/prefetch_sim.py:105-133 | a step has no miss exactly when everything it demands is resident before it |
| PrefetchOracle.OracleStepIsMissFreeExactly | src/expertflow/analysis/prefetch_sim.py:186-291 | for any number of conversations: no miss if and only if the budget covers the candidates and no layer is asked for more distinct experts than it has slots |
| PrefetchOracle.OracleIsExact | src/expertflow/analysis/prefetch_sim.py:186-291 | with one event per layer the misses are exactly the max(0, candidates - budget) that could not be issued; nothing is wasted |
| PrefetchOracle.OracleCanWaste | src/expertflow/analysis/prefetch_sim.py:113-131 | two conversations that ask one layer for more experts than it has slots: the only transfer is wasted |
| PrefetchReady.ReadyExactly | src/expertflow/analysis/prefetch_sim.py:105-133 | an issued transfer becomes ready exactly when at some event that demands it fewer than C distinct experts are younger than it, from the transfers or from earlier demands of its layer |
| PrefetchReady.WastesNothingExactly | src/expertflow/analysis/prefetch_sim.py:250-291 | a step wastes no transfer exactly when each issued one is in time in that sense |
| PrefetchReady.FittingStepWastesNothing | src/expertflow/analysis/prefetch_sim.py:186-291 | for any number of conversations, a step that asks no layer for more distinct experts than it has slots issues min(budget, candidates) transfers and wastes none |
| PrefetchReady.AbsentIsMissed | src/expertflow/analysis/prefetch_sim.py:250-272 | every demanded expert that is not resident before the step costs a miss |
| PrefetchReady.UnissuedIsMissed | src/expertflow/analysis/prefetch_sim.py:186-291 | for any step the oracle misses at least the candidates that the budget cut |
| PrefetchReady.ConsumeIsScanOrder | src/expertflow/analysis/prefetch_sim.py:253-262 | serving a step leaves each layer with the scan-order run of that layer's demands from its cache before |
| PrefetchSim.ConsumeDemand | src/expertflow/analysis/prefetch_sim.py:105-133 | the loop never runs out of victims and leaves the trimmed old cache followed by the event |
| PrefetchSim.ServeStep | src/expertflow/analysis/prefetch_sim.py:250-263 | the step's events are served in order against shared caches |
| PrefetchSim.IssueTransfers | src/expertflow/analysis/prefetch_sim.py:210-241 | the transfer loop with its early exit computes the offers in order; what they come to is stated by PrefetchLaw.OffersLawful |
| PrefetchLaw.OffersLawful | src/expertflow/analysis/prefetch_sim.py:210-241 | a candidate is issued exactly while the budget lasts and its layer's demanded residents and earlier transfers leave a slot; each cache loses its k oldest entries that the step does not demand and gains its transfers in order, with k = max(0, old size + transfers - slots) |
| PrefetchLaw.LawDetermines | src/expertflow/analysis/prefetch_sim.py:210-241 | this law determines the issued set and every cache |
| PrefetchLaw.ConsumeLawful | src/expertflow/analysis/prefetch_sim.py:250-272 | hits and useful transfers of a step by recency alone, and every cache as a scan-order run |
| PrefetchSim.SortCandidates | src/expertflow/analysis/prefetch_sim.py:197-208 | candidates are listed once each, by score, layer and expert |
| PrefetchSim.CountStep | src/expertflow/analysis/prefetch_sim.py:199-202 | the oracle's counter holds exactly the step's demand |
| PrefetchRun.OracleCandidates | src/expertflow/analysis/prefetch_sim.py:198-209 | the oracle proposes exactly the step's demands that are not resident, by how often the step demands them, then by layer and expert |
| PrefetchRun.FrequencyCandidates | src/expertflow/analysis/prefetch_sim.py:189-197 | frequency mode proposes exactly what a layer has demanded before and does not hold, by how often it has been demanded, then by layer and expert |
| PrefetchRun.UpdateFrequencies | src/expertflow/analysis/prefetch_sim.py:265-268 | the frequencies hold exactly the demands of the steps so far |
| PrefetchRun.PrefetchStep | src/expertflow/analysis/prefetch_sim.py:178-291 | a step obeys the law of transfers for its proposals and serves its events by recency; from any reachable caches 0 <= ready <= issued <= budget, waste is the rest, hits plus misses is the demand, and the oracle wastes nothing in a step that fits |
| PrefetchRun.ProposedUnique | src/expertflow/analysis/prefetch_sim.py:186-209 | in every mode the list of proposals is determined by the demands so far, the step and the caches |
| PrefetchRun.ProposedInOrder | src/expertflow/analysis/prefetch_sim.py:186-209 | proposals come by demand, the most demanded first, then by layer and by expert |
| PrefetchRun.SteppedFacts | src/expertflow/analysis/prefetch_sim.py:178-291 | whatever steps like this keeps valid caches, obeys the law of transfers and satisfies the counts of its mode |
| PrefetchGroups.SortGroup | src/expertflow/analysis/prefetch_sim.py:92-99 | a group is ordered by layer, token and hook order, events with equal keys keep their order, and no event is lost |
| PrefetchGroups.SortedByKey | src/expertflow/analysis/prefetch_sim.py:92-99 | in a sorted group layers ascend, within a layer tokens, and within a token hook orders |
| PrefetchGroups.SortKeepsTies | src/expertflow/analysis/prefetch_sim.py:92-99 | events with the same layer, token and hook order keep their order |
| PrefetchGroups.ForwardGroups | src/expertflow/analysis/prefetch_sim.py:84-102 | one group per forward pass, ordered by the first event of the pass, each with exactly its own events, sorted |
| PrefetchGroups.LongestIs | src/expertflow/analysis/prefetch_sim.py:167-167 | there are as many steps as the longest conversation has forward passes |
| PrefetchGroups.GroupingKeepsDemand | src/expertflow/analysis/prefetch_sim.py:84-102 | grouping loses no demand |
| PrefetchGroups.InterleavingKeepsDemand | src/expertflow/analysis/prefetch_sim.py:166-184 | interleaving conversations into steps loses no demand |
| PrefetchRun.SimulateConcurrentPrefetch | src/expertflow/analysis/prefetch_sim.py:136-291 | refused exactly without conversations or for an empty one, a negative budget or too wide an event; otherwise step s serves the s-th forward pass of every trace, by order of appearance, from the caches the step before left, proposes by what was demanded until then, obeys the law of transfers, satisfies its facts, and the totals add up |
| PrefetchWhole.SoloOracleIsExact | src/expertflow/analysis/prefetch_sim.py:136-291 | one conversation with one event per layer and forward pass: every step of the oracle issues min(budget, candidates), wastes none and misses the rest |
| PrefetchWhole.EnoughSlotsWasteNothing | src/expertflow/analysis/prefetch_sim.py:136-291 | with as many slots as conversations times experts per event, and one event per layer and forward pass, the oracle wastes nothing in any step, however the conversations overlap |
| PrefetchWhole.OracleRunCanWaste | src/expertflow/analysis/prefetch_sim.py:136-291 | for two given conversations of one event each, every simulation of the oracle reports one transfer, wasted, and no hit |
| PrefetchWhole.UnpredictedHits | src/expertflow/analysis/prefetch_sim.py:136-291 | without prediction the hits of the whole run are the sum over layers of the scan-order hits of what the steps served |
| PrefetchWhole.UnpredictedMoreSlots | src/expertflow/analysis/prefetch_sim.py:136-291 | so more slots never cost a whole unpredicted run a hit |
| Deadline.EvaluateToken | src/expertflow/analysis/deadline.py:94-143 | refused exactly for times that go back; otherwise demand, hits, blocking, residual and late counts of the token |
| Deadline.TimesExactly | src/expertflow/analysis/deadline.py:108-114 | a token is accepted exactly if no event is observed before an earlier one |
| Deadline.CostExactly | src/expertflow/analysis/deadline.py:94-126 | the reported cost is the five sums, and every event is either late or on time |
| Deadline.ResidualExactly | src/expertflow/analysis/deadline.py:99-117 | after a gap exactly the part of the transfers that does not fit it remains, and all of them before the first |
| Deadline.TotalsExactly | src/expertflow/analysis/deadline.py:94-126 | a token's blocking, residual, misses and demand are the sums over its events, and late counts the events with something left |
| Deadline.ResidualBounds | src/expertflow/analysis/deadline.py:96-126 | the oracle hides at most the time between first and last layer and at most the transfer time, and the first layer is paid in full |
| Deadline.FreeExactlyWhenNeverLate | src/expertflow/analysis/deadline.py:119-126 | nothing remains to be waited for exactly when no event is late |
| Deadline.NeverWorse | src/expertflow/analysis/deadline.py:97-126 | more residents or faster transfers increase neither blocking, residual nor late events |
| Deadline.MoreSlotsNeverWorse | src/expertflow/analysis/deadline.py:56-126 | the same for a larger frozen hotset of the same rankings |
| Plan.CheckEvidence | src/expertflow/compiler/plan.py:189-219 | the loop accepts exactly evidence whose runs are the candidate's own, pairwise different, of one output and stable |
| PlanEvidence.StableExactly | src/expertflow/compiler/plan.py:217-218 | rates are stable exactly when there are two or more and 100 times their standard deviation is at most the limit times their mean |
| PlanEvidence.EvidenceExactly | src/expertflow/compiler/plan.py:189-219 | a candidate's evidence is accepted exactly when two or more different verified runs of its own settings and identities gave one output for one prompt at stable rates |
| Plan.Validate | src/expertflow/compiler/plan.py:225-237 | validation decides the mutual recursion, which terminates |
| Plan.Seal | src/expertflow/compiler/plan.py:183-222 | sealing yields a plan exactly when candidate, fallback and evidence are valid |
| Plan.SealedIsValid | src/expertflow/compiler/plan.py:183-237 | what sealing returns is accepted by validation with the same store and identities |
| Plan.ValidExactlyWhenChainOk | src/expertflow/compiler/plan.py:154-237 | a plan is accepted if and only if every member of its fallback chain stands on its own evidence and fits its predecessor |
| PlanEvidence.AcceptedPlanExactly | src/expertflow/compiler/plan.py:154-237 | a plan is accepted with a store exactly when every plan of its chain is untampered, eligible, backed by its own measurements with their digests and stable, and all share one model, hardware and workload |
| Plan.ChainSharesSubject | src/expertflow/compiler/plan.py:161-166 | all members share the head's model, hardware and workload |
| Plan.AcceptedChain | src/expertflow/compiler/plan.py:169-237 | every member of an accepted chain is measured, exact, non-static, with at least two different successful owned runs of one output, for the head's subject |
| Plan.StaticFallbackCheckIsRedundant | src/expertflow/compiler/plan.py:155-158 | without a fallback, sealing is decided by candidate, identity and evidence alone |
| Plan.OneRunNeverSeals | src/expertflow/compiler/plan.py:217-218 | a candidate with one measurement is never sealed |
| PlanCodec.SortSorts | src/expertflow/compiler/plan.py:42-42 | normalising sorts and keeps every element |
| PlanCodec.PayloadIs | src/expertflow/compiler/schema.py:50-66 | every scalar is its own payload, a tuple item by item, and a record the object of exactly its fields without the omitted nulls |
| PlanCodec.ConstructAgain | src/expertflow/compiler/plan.py:92-113 | a constructor does nothing to what a constructor made |
| PlanCodec.RoundTrip | src/expertflow/compiler/schema.py:50-66 | decoding the payload of any constructed record returns it, with nested records and omitted fields |
| PlanCodec.PayloadInjective | src/expertflow/compiler/schema.py:54-56 | records of a class with equal payloads are equal |
| PlanCodec.DecodedIsConstructed | src/expertflow/compiler/plan.py:240-256 | whatever payload is decoded, the result is a record that constructors make |
| PlanCodec.DecodingIsStable | src/expertflow/compiler/plan.py:240-256 | writing and loading a loaded plan changes nothing more |
| PlanCodec.PlanTableOk | src/expertflow/compiler/plan.py:25-142 | the plan's classes leave out only a field that defaults to null and sort only plain fields |
| PlanCodec.MinimalSettings | src/expertflow/compiler/plan.py:46-54 | settings that give only GPU layers, CPU experts and no static placement are constructed with six defaults |
| PlanCodec.PlanRoundTrip | src/expertflow/compiler/plan.py:240-256 | every plan with all its fallbacks survives being written and loaded |
| PlanCodec.SettingsPayloadInjective | src/expertflow/compiler/plan.py:54-54 | settings are told apart by their payloads although one field may be left out |
| Evidence.VerifiedExactlyWhenAccepted | src/expertflow/compiler/evidence.py:216-365 | for every comparison graph a record is accepted if and only if it passes by itself and each baseline of a fork is a stock record that passes by itself |
| Evidence.CyclesAreRejected | src/expertflow/compiler/evidence.py:216-218 | a fork on a cycle of comparisons is rejected when its successor on the cycle is a fork; stock records may lie elsewhere on it |
| Evidence.ForkCyclesAreRejected | src/expertflow/compiler/evidence.py:216-218 | no record on a cycle of forks is accepted |
| Evidence.CyclesCanBeAccepted | src/expertflow/compiler/evidence.py:343-356 | a fork and a stock record of another runtime that name each other are both accepted |
| Evidence.StockIgnoresComparisons | src/expertflow/compiler/evidence.py:347-360 | a stock record is judged by itself, on a cycle or not |
| Evidence.AcceptedRecord | src/expertflow/compiler/evidence.py:309-360 | an accepted record exited cleanly, passed three validations, and has the owner its files prove; its row reports the tokens, prompt and rate of its files and everything else as recorded |
| Evidence.AcceptedForkIsPristine | src/expertflow/compiler/evidence.py:347-356 | each baseline of an accepted fork is itself accepted, stock, of another runtime, with equal tokens, prompt and subject |
| Evidence.AcceptanceIsStable | src/expertflow/compiler/evidence.py:139-161 | accepted evidence stays accepted with the same result, however much is appended |
| EvidenceStore.Database.AppendMeasurement | src/expertflow/compiler/evidence.py:139-161 | the three tables gain a record completely or stay as they were, and keep their keys |
| EvidenceStore.Database.VerifyMeasurement | src/expertflow/compiler/evidence.py:216-365 | the recursion with its set of seen records terminates on every graph and decides verification |
| EvidenceStore.AfterConsistent | src/expertflow/compiler/evidence.py:94-111 | only the first insert of a transaction can violate a key |
| EvidenceStore.HistoryOnlyGrows | src/expertflow/compiler/evidence.py:112-116 | over any sequence of appends records are only added, and ids and owned runs stay unique |
| EvidenceStore.DifferentIdsDifferentRuns | src/expertflow/compiler/evidence.py:306-310 | different verified measurements are different owned runs |
| EvidenceStore.RepeatedRunCheckIsRedundant | src/expertflow/compiler/plan.py:193-197 | with any reachable store the check for a repeated owned run never decides |
| EvidenceStore.PlansStayAccepted | src/expertflow/compiler/plan.py:225-237 | an accepted plan stays accepted however much evidence is appended |
| StudyJournal.GuardedRunner.RunOnce | scripts/benchmark_compiler_stock_repeatability.py:80-122 | one call leaves exactly one complete entry, or none when it is refused, whatever the wrapped runner does |
| StudyAudit.BudgetExactly | scripts/benchmark_compiler_stock_repeatability.py:80-92 | over any calls the journal has min(148, admissible calls) entries |
| StudyAudit.RunsAreRecorded | scripts/benchmark_compiler_stock_repeatability.py:80-122 | up to 148 calls whose processes run leave as many started entries, each with its process, outcome, wait and context |
| StudyJournal.AuditAttempts | scripts/benchmark_compiler_stock_repeatability.py:198-254 | the audit accepts exactly journals with the demanded order, waits, owners, contexts and files, and counts the started ones |
| StudyAudit.AuditExactly | scripts/benchmark_compiler_stock_repeatability.py:198-254 | the audit accepts exactly at most 148 entries, each with thirty seconds of wait and its start file if it started, its context and record, one after the other, in directories and by processes of their own, that account for every start file |
| StudyJournal.EachOkSnoc | scripts/benchmark_compiler_stock_repeatability.py:204-227 | an entry is acceptable exactly after an acceptable prefix that it follows in time, with a new directory and a new owner |
| StudyJournal.OneOwnerEach | scripts/benchmark_compiler_stock_repeatability.py:223-227 | in an accepted prefix there are as many owners as started attempts |
| StudyAudit.ConductKeeps | scripts/benchmark_compiler_stock_repeatability.py:80-122 | every journal the runner writes keeps budget, order, waits and file counts |
| StudyAudit.RunnerJournalPasses | scripts/benchmark_compiler_stock_repeatability.py:80-254 | under a clock that does not go back the audit accepts a runner's journal if and only if directories and processes differ, start files are readable, contexts are registered and records bound |
| StudyAudit.StartedWaitsFit | scripts/benchmark_compiler_stock_repeatability.py:204-227 | the waits of started attempts are complete and fit before the last finish |
| StudyAudit.ElapsedCoversProcesses | scripts/benchmark_compiler_stock_repeatability.py:373-377 | an accepted study of n processes took at least n times thirty seconds |
| StudyAudit.RunnerCostsPass | scripts/benchmark_compiler_stock_repeatability.py:373-377 | the cost check never refuses a runner's journal |
| StudyAudit.AttemptsDisjoint | scripts/benchmark_compiler_stock_repeatability.py:208-214 | accepted attempts do not overlap |
| StudyAudit.StartsAreSpaced | scripts/benchmark_compiler_stock_repeatability.py:218-227 | two native processes of an accepted journal differ and start at least thirty seconds apart |
| StudyBlocks.VerifyBlock | scripts/benchmark_compiler_stock_repeatability.py:266-327 | the loop accepts exactly blocks whose entries are a registered prefix and whose verdict is the reconstructed one |
| StudyOrder.BlockExactly | scripts/benchmark_compiler_stock_repeatability.py:266-327 | exactly the accepted blocks, whole or not: the arm the schedule names first runs first in every pair, each entry has its directory, stage, outcome and row, and the claim fits the rows |
| StudyOrder.PassingBlockExactly | scripts/benchmark_compiler_stock_repeatability.py:286-327 | a block passes exactly with its ten pairs of measured runs in the order of the schedule and a passing verdict of its rows |
| StudyBlocks.PassingBlockIsComplete | scripts/benchmark_compiler_stock_repeatability.py:286-327 | a passing block has twenty measured runs in the registered directories and order |
| StudyBlocks.VerifyTransfer | scripts/benchmark_compiler_stock_repeatability.py:455-554 | the filters and the moving offset accept exactly the described transfers |
| StudyOrder.RegisteredIs | scripts/benchmark_compiler_stock_repeatability.py:491-500 | the registered runs by position: ten references, every screening block twice, and ten pairs of default and of manual against automatic in the order of the schedule |
| StudyOrder.RegisteredUnique | scripts/benchmark_compiler_stock_repeatability.py:491-500 | this determines every name and candidate |
| StudyOrder.RawExactly | scripts/benchmark_compiler_stock_repeatability.py:501-519 | exactly the accepted raw runs, all 86 or fewer: each in its registered place with its outcome and row |
| StudyComplete.SuccessfulTransferExactly | scripts/benchmark_compiler_stock_repeatability.py:455-554 | a transfer of 107 runs succeeds exactly with the 86 registered raw runs, the ten pairs of its product and its consumer, each bound to its record |
| StudyBlocks.TransferIsOrdered | scripts/benchmark_compiler_stock_repeatability.py:501-547 | although entries are only filtered by directory, every accepted transfer lists raw runs, then product runs, then at most one consumer |
| StudyComplete.TransferExactly | scripts/benchmark_compiler_stock_repeatability.py:455-554 | exactly the accepted transfers, finished or not: registered raw runs, then nothing, a failed product, or a passed one with at most one consumer run, and no part claims more than it may |
| StudyBlocks.SuccessfulTransferIsComplete | scripts/benchmark_compiler_stock_repeatability.py:484-554 | a successful transfer of 107 runs is 86 raw, 20 product and one consumer run, each in its registered place |
| StudyPhases.TakePhase | scripts/benchmark_compiler_stock_repeatability.py:379-386 | the cursor takes the longest prefix inside a directory |
| StudyPhases.MainBlocks | scripts/benchmark_compiler_stock_repeatability.py:390-411 | the loop over both blocks with its cursor |
| StudyPhases.ConsumerRan | scripts/benchmark_compiler_stock_repeatability.py:420-431 | a consumer that is reported or ran through rests on the single attempt next in the journal, in its own directory, and one that ran through was measured |
| StudyPhases.ValidateFollowup | scripts/benchmark_compiler_stock_repeatability.py:349-452 | the validator accepts exactly the reports whose phases, costs, audit and terminal status agree |
| StudyComplete.PassingStudyExactly | scripts/benchmark_compiler_stock_repeatability.py:349-452 | a report passes exactly if costs and journal pass their audits and the 148 attempts are two blocks in the order of the schedule, a consumer and a whole transfer |
| StudyPhases.PassForcesTheJournal | scripts/benchmark_compiler_stock_repeatability.py:378-450 | a pass forces 20 + 20 + 1 + 86 + 20 + 1 measured attempts in registered order and directories, each with an owned native process different from all others, over at least 148 times thirty seconds |
| StudyPhases.ConsumerStopIsFortyOne | scripts/benchmark_compiler_stock_repeatability.py:427-448 | a consumer stop comes after exactly forty-one attempts |
| StudyComplete.ConsumerStoppedExactly | scripts/benchmark_compiler_stock_repeatability.py:420-446 | a consumer stop is exactly two passing blocks and one consumer run that was not accepted |
| StudyPhases.StoppedStudyIsShort | scripts/benchmark_compiler_stock_repeatability.py:392-411 | a stop in the main blocks comes after at most forty attempts |
| StudyComplete.RepeatabilityStoppedExactly | scripts/benchmark_compiler_stock_repeatability.py:390-446 | a repeatability stop is reconstructed exactly if nothing came later and block A holds the whole journal without passing and block B never began, or block A passed and block B holds the rest without passing |
| StudyPhases.TransferTakesTheRest | scripts/benchmark_compiler_stock_repeatability.py:432-444 | a transfer verdict rests on two whole blocks and a consumer, and the transfer takes all remaining attempts |
| StudyComplete.TransferStoppedExactly | scripts/benchmark_compiler_stock_repeatability.py:420-446 | a transfer stop is exactly two passing blocks, an accepted consumer and an accepted transfer without success that takes the rest of the journal |
| Coverage.RunSequence | scripts/benchmark_compiler_stock_coverage.py:106-195 | the collector's loop, failures and final bookkeeping, for whatever the cases do |
| CoverageBudget.CompletesExactly | scripts/benchmark_compiler_stock_coverage.py:156-195 | the collector completes exactly if every case is executed in time, verified, valid in all raw records, of a status that may continue, under four hours with its loading and under sixteen in all, with at most 428 attempts |
| Coverage.AddOwners | scripts/benchmark_compiler_stock_coverage.py:247-252 | owners are added exactly when none is reused |
| Coverage.ValidateSequence | scripts/benchmark_compiler_stock_coverage.py:198-283 | the validator's loop yields the reconstructed verdict and counts, or refuses |
| CoverageBudget.ScanExactly | scripts/benchmark_compiler_stock_coverage.py:217-272 | the loop over the cases accepts exactly cases that are each verified with their costs, follow one another by other processes, and run only while none before forces a stop |
| CoverageBudget.AcceptedExactly | scripts/benchmark_compiler_stock_coverage.py:198-283 | the whole validator: four accepted cases, their sums, and a stop exactly if some case exceeds four or sixteen hours, has invalid raw records or a status that may not continue |
| CoverageAgreement.VerdictIsFinal | scripts/benchmark_compiler_stock_coverage.py:156-195 | once the sequence has a verdict nothing more is executed |
| CoverageAgreement.OneCase | scripts/benchmark_compiler_stock_coverage.py:221-272 | what acceptance of one case means: its report is on disk exactly when it ran, it follows the cases before it in time with new owners, and no case runs after a stop |
| CoverageAgreement.ScanKnows | scripts/benchmark_compiler_stock_coverage.py:217-272 | after any number of accepted cases, those that ran are apart in time and owners, attempts and native starts are their sums, and the scan has stopped exactly if one of them forces it, which is then the last to run |
| CoverageAgreement.RanCasesFormAPrefix | scripts/benchmark_compiler_stock_coverage.py:156-172 | in every collector report a case that ran is preceded only by cases that ran |
| CoverageAgreement.CollectorAndValidatorAgree | scripts/benchmark_compiler_stock_coverage.py:156-283 | for the four cases that registration demands (src/expertflow/stock/coverage.py:77-78) the validator accepts exactly the collector reports that end complete or stopped, with the same verdict and counts |
| CoverageAgreement.CompleteMeansAll | scripts/benchmark_compiler_stock_coverage.py:217-283 | an accepted complete sequence ran all cases in order, without overlap or shared processes, none forcing a stop, with at most 428 attempts; CoverageBudget.AcceptedExactly says what forces one |
| CoverageAgreement.StopMeansOne | scripts/benchmark_compiler_stock_coverage.py:233-281 | an accepted stop has exactly one case that forces it, and nothing ran after it |
| CoverageAgreement.AcceptedStopMayHaveAGap | scripts/benchmark_compiler_stock_coverage.py:226-232 | an accepted stop over the four registered cases whose first case never ran |
| CoverageAgreement.StopIsPrefixExactly | scripts/benchmark_compiler_stock_coverage.py:221-283 | the cases that ran in an accepted stopped report form a prefix if and only if every planned case before the stop has its report on disk |
| ExpertLayout.Align | src/expertflow/analysis/expert_layout.py:83-84 | the least aligned value that is not smaller |
| ExpertLayout.RowGapCompletes | src/expertflow/analysis/expert_layout.py:96-99 | the row gap is the least number of elements that completes a row |
| ExpertLayout.RowPaddingEncodesTheGap | src/expertflow/analysis/expert_layout.py:87-106 | the padding bytes encode exactly the missing elements |
| ExpertLayout.PaddingExists | src/expertflow/analysis/expert_layout.py:87-106 | rows can be padded exactly without quantisation or when a whole number of blocks, however many, fills the gap |
| ExpertLayout.Place | src/expertflow/analysis/expert_layout.py:162-190 | one component gets its source span and the first aligned place behind the one before; the bounds error never occurs |
| ExpertLayout.PackExpert | src/expertflow/analysis/expert_layout.py:158-201 | an expert is packed exactly when every row can be padded, component after component |
| ExpertLayout.SpanInside | src/expertflow/analysis/expert_layout.py:168-172 | no expert's span leaves its tensor |
| ExpertLayout.SpansTile | src/expertflow/analysis/expert_layout.py:163-170 | every byte of a tensor lies in the span of exactly one expert |
| ExpertLayout.ComponentsOrdered | src/expertflow/analysis/expert_layout.py:167-189 | slot components are disjoint and in order |
| ExpertLayout.ComponentsInsideSlot | src/expertflow/analysis/expert_layout.py:189-198 | all components lie inside the slot |
| ExpertLayout.SlotIsSumOfParts | src/expertflow/analysis/expert_layout.py:186-198 | a slot is exactly its encoded bytes, row padding, alignment padding and end padding |
| ExpertLayout.SlotsDoNotDependOnExpert | src/expertflow/analysis/expert_layout.py:156-201 | any two experts of a layer have the same slot, component by component |
| ExpertInventory.GroupByLayer | src/expertflow/analysis/expert_layout.py:130-140 | refused exactly for an unsound tensor or a repeated component; the groups are exactly the listed tensors |
| ExpertInventory.ChecksExact | src/expertflow/analysis/expert_layout.py:142-153 | the checks on the groups hold exactly when targets exist, counts agree and every layer has the declared components |
| ExpertInventory.PackLayer | src/expertflow/analysis/expert_layout.py:156-201 | all experts of one layer in order |
| ExpertInventory.BuildInventory | src/expertflow/analysis/expert_layout.py:109-251 | accepts exactly the well-formed requests; the inventory has one object for each of the tensors' experts in every layer, packed from that layer's tensors, with the largest slot and the cache size it implies |
| ExpertInventory.EveryExpertOnce | src/expertflow/analysis/expert_layout.py:155-201 | every expert of every listed layer has exactly one object in the inventory |
| ExpertInventory.EveryByteOnce | src/expertflow/analysis/expert_layout.py:155-201 | every byte of every listed tensor lies in the source span of exactly one component of exactly one object |
| ExpertInventory.OneSizePerLayer | src/expertflow/analysis/expert_layout.py:203-205 | within a layer all slot and encoded sizes are equal |
| ExpertInventory.CacheFitsExactly | src/expertflow/analysis/expert_layout.py:205-240 | whatever fills the slots of all targets fits into the projected cache, and some filling needs all of it |
| LayerList.PrintedListReadsBack | scripts/run_multilayer_cache_ramp.py:66-66 | a printed list is accepted exactly when it is a non-empty ascending list within 0..29, and reads back |
| LayerConfig.LiveCacheConfig.ReadNumber | native/router_probe/live_cache_config.cpp:40-47 | the digits at the cursor, refused exactly when their number reaches thirty |
| LayerConfig.LiveCacheConfig.ParseLayerList | native/router_probe/live_cache_config.cpp:30-63 | accepts exactly ascending lists of layers separated by single commas, and fills ids and both flag arrays consistently |
| LayerConfig.CapacityNeverDecides | native/router_probe/live_cache_config.cpp:48-50 | a layer above the last one always finds room |
| LayerConfig.ParseConfig | native/router_probe/live_cache_config.cpp:67-148 | valid exactly for the environments with a meaning, whose settings it records, the legacy single layer included; an invalid one carries nothing but its own problem, the first that applies |
| LayerConfig.MeaningExactly | native/router_probe/live_cache_config.cpp:67-148 | which environments are accepted with which settings: the cache off, or one of layer 24, an ascending list or all thirty layers, with pass-through or with a log on a drive and eviction exactly when forced |
| LayerConfig.AcceptedSettings | native/router_probe/live_cache_config.cpp:95-147 | accepted settings select one to thirty layers in order, and only blocking runs log or evict |
| LayerConfig.TensorOverridePatterns | native/router_probe/live_cache_config.cpp:155-178 | three patterns per kept layer, at most ninety, every write in bounds |
| LayerConfig.PatternsExactly | native/router_probe/live_cache_config.cpp:172-175 | pattern 3i + j is the gate-and-up weights, down weights or down scales of layer i, escaped and anchored |
| LayerConfig.KeptExactly | native/router_probe/live_cache_config.cpp:167-171 | exactly the layers from the first kept one on, in order |
| LayerConfig.AutoKeepsTheLast | native/router_probe/live_cache_config.cpp:159-166 | automatic selection keeps exactly the last layers, one fewer than the GPU layers, between none and thirty |
| LayerConfig.ListsAreKept | native/router_probe/live_cache_config.cpp:159-171 | a list or the single layer is kept whole, whatever runs on the GPU |
| LayerConfig.CacheEnvironmentHas | scripts/run_multilayer_cache_ramp.py:50-69 | printed exactly for an absolute event path; the environment holds the four settings, none of the five cleared ones, and exactly what else was inherited |
| LayerConfig.PrintedEnvironmentReadsBack | scripts/run_multilayer_cache_ramp.py:50-69 | whatever was inherited and whatever counts as absolute, the launcher prints an environment exactly for an absolute path; the native parser recovers exactly its layers and path, and otherwise refuses the list (not ascending in 0..29, or empty) before it refuses the path (no drive letter) |
| CollectionPaths.OwnAttemptsApart | src/expertflow/collection.py:433-439 | attempts of one conversation never share a directory, whatever its id |
| CollectionPaths.PosixTells | src/expertflow/collection.py:433-439 | a file system that keeps names as they are tells numbered attempts apart, as the results on directories assume |
| CollectionPaths.ApartExactly | src/expertflow/collection.py:433-439 | two conversations never share an attempt directory if and only if their own directories differ and neither is a numbered attempt directory of the other |
| CollectionPaths.PlainCorpusIsSeparate | src/expertflow/collection.py:144-171 | a corpus is safe when its ids are single path components other than . and .. that the file system takes for different names |
| CollectionPaths.RetriesCanCollide | src/expertflow/collection.py:433-439 | an id that spells out a retry of another id, across any separator, shares its directory; the corpus check admits both |
| CollectionPaths.IdsCanCollide | src/expertflow/collection.py:433-439 | the first retry of a and the first attempt of a/attempt-0001 share a directory |
| Collection.PassedIsValid | src/expertflow/collection.py:485-532 | an attempt is marked passed exactly when it would be judged valid against the files it leaves |
| CollectionVerdict.AttemptedExactly | src/expertflow/collection.py:485-532 | an attempt passes exactly if both processes exit with zero and leave trace and token files, the comparison finds equal prompts and equal generated tokens, and the trace has an event; it raises exactly if a tool gives up; and it records what was there |
| CollectionVerdict.VisitPassesExactly | src/expertflow/collection.py:420-561 | the same for a visit: when it marks passed, counts, raises and records |
| CollectionVerdict.SkippedExactly | src/expertflow/collection.py:297-331 | a conversation is skipped exactly if it is marked passed and its last attempt shows zero exits, matching reports, its events and eight unchanged files |
| Collection.Collector.CollectTracePairs | src/expertflow/collection.py:408-571 | the whole loop over the corpus |
| CollectionRuns.RunKeepsInv | src/expertflow/collection.py:433-549 | attempts carry indices 0..n-1, own their files, and conversations stay unique |
| CollectionRuns.VisitFacts | src/expertflow/collection.py:420-561 | a visit skips exactly a passed and valid shard; otherwise it appends one attempt with the next index, changes no other shard and no file outside the conversation's directories, and marks it passed exactly when it is valid; a visit that raises saves nothing |
| CollectionRuns.EarlierAttemptsKeepTheirFiles | src/expertflow/collection.py:433-539 | in a corpus whose conversations are apart, a run leaves the files of every earlier attempt as they were |
| CollectionRuns.AttemptsGrowByOne | src/expertflow/collection.py:420-549 | in one run a conversation's attempts grow by at most one and earlier ones stay |
| CollectionRuns.RunIsJudged | src/expertflow/collection.py:417-560 | in a corpus whose conversations are apart, at every point each visited conversation is marked passed exactly when it is valid against the files on disk |
| CollectionRuns.RunIsCounted | src/expertflow/collection.py:417-560 | for any corpus with different ids, passed + failed is at every point the number of visited conversations and passed counts those so marked |
| CollectionClash.ManifestIsState | src/expertflow/collection.py:385-549 | after any runs from an empty disk, cut or finished, the manifest on disk holds exactly the shards of the last run, so that the next run misses nothing |
| CollectionClash.ClashIsMisjudged | src/expertflow/collection.py:417-560 | when attempts of two conversations share a directory, some runs from an empty disk end with a conversation marked passed whose files are overwritten |
| CollectionClash.JudgedExactlyWhenSeparate | src/expertflow/collection.py:417-560 | for different ids, runs mark a conversation passed exactly when it is valid, on every disk and already on every disk that cut and finished runs lead to, if and only if no two conversations share an attempt directory |
| CollectionRuns.RerunLaunches | src/expertflow/collection.py:297-331 | on unchanged files, and for conversations that are apart, a rerun launches exactly those that have not passed |
| CollectionRuns.NextRunLaunchesFailures | src/expertflow/collection.py:417-571 | for conversations that are apart, the run after a finished one launches as many as had failed and skips the rest |
| CollectionRuns.CutRunsAreIncomplete | src/expertflow/collection.py:554-571 | wherever a run is cut, the manifest is the one it found or counts only the conversations visited |
| CollectionRuns.SavedEarlyIsIncomplete | src/expertflow/analysis/heldout_breakdown.py:54-67 | such a manifest is refused by the loader before the last conversation |
| CollectionRuns.FinishedManifestLoads | src/expertflow/analysis/heldout_breakdown.py:54-67 | a finished manifest is complete, and without exclusions it loads exactly when every conversation has passed |

## Left out

- Process launching, HTTP, GPU and host sampling, git calls, command lines and report writing: input and output only; their answers are parameters.
- SHA-256, JSON text and SQLite internals: digests are arbitrary functions, files are what they hold, a transaction is a snapshot and a rollback.
- Percentiles, means, hit rates, transfer milliseconds and MiB of the cache reports, and the adjacent-reuse counts of `summarize_routing_locality` and the profiler: only the exact counts are modelled.
- Trace schema: expert ids are natural numbers without the 16-bit bound; events have non-empty, duplicate-free selections as the schema demands.
- Prefetch: layers whose cache was created empty do not appear as such; an absent cache is an empty one.
- Deadline.EvaluateToken: takes one token's events already grouped by request and forward pass and sorted by layer, because the bound is about one token at a time; times are reals without rounding, and the summary statistics over windows are left out.
- Plan.CheckEvidence: compares squares instead of taking the square root of the variance, over reals without rounding.
- PlanCodec.RoundTrip: constructor checks are an arbitrary predicate and the sorting order an arbitrary total order; per-field checks would add only easy members.
- Evidence.VerifiedExactlyWhenAccepted: the checks of one record's raw files are one oracle, which also fixes the owner, tokens and rate they prove; files do not change during one verification.
- EvidenceStore.Database.AppendMeasurement: two writers at once are not modelled; the database serialises them.
- StudyJournal.GuardedRunner.RunOnce: start files are written only to the call's own directory, and the durability of the intermediate report writes is not modelled.
- StudyBlocks.VerifyBlock: frozen controls, native evidence of a row and the statistics of twenty rows are oracles; so are the registered schedule's shuffled order and the ranking of the transfer's screens.
- StudyBlocks.VerifyTransfer: the transfer's own manifest, the utility gate over its runs and the ranking are oracles, because they compare recorded numbers of one report and do not touch the journal.
- StudyPhases.ValidateFollowup: the comparison of frozen inputs with live ones is one boolean.
- Coverage.RunSequence: `wider.execute_case` and `wider.validate_case` are not part of this model; they are oracles, assumed to keep the load time they are given, to count start files and to order their own times. Times are whole nanoseconds.
- LayerConfig.ParseConfig: each message is one constructor rather than its text; Windows' case-insensitive variable names are not modelled.
- LayerConfig.CacheEnvironmentHas: which paths count as absolute is a parameter, because it depends on the launcher's platform.
- CollectionPaths.ApartExactly: separators and the names a file system takes for the same are parameters, assumed to tell numbered attempts apart; drive letters and symbolic links are not modelled.
- Collection.Collector.CollectTracePairs: identity and corpus checks before the loop are left out, because they only refuse the whole run. A run is cut between two visits or by a raise; a kill inside an attempt leaves files without a manifest entry, which only the results over every disk cover.
- Recommendation, doctor, cost model, placement summaries and bootstrap statistics: per-field checks or statistics that would add only easy members.
