# Power capping in opendps, modelled and proved

opendps divides a power budget between GPUs. A cluster coordinator hands out node budgets, each node's controller adopts
its share, a brain turns the domain budget and the GPUs' draws into caps, and the hardware, here its simulator, enforces
them beside an independent failsafe. On Kubernetes an operator resolves job policies into GPU tiers and hands them to the
controllers through one shared ConfigMap.

This project models that in Dafny and proves what it is meant to guarantee, over every input, run and interleaving.
`dafny verify dfyconfig.toml` checks all of it.

| files | what they model |
|---|---|
| `GpuIndices`, `Annotations`, `Assignments`, `Resolution`, `PodEvents`, `MissedEvents` | Pod annotations, resolving a policy, the digest cache that filters Pod events, and missed events |
| `RegistryData`, `Registry`, `RegistryWriter` | the ConfigMap's entries and aggregate, concurrent writers, the retry loop |
| `PriorityConfig`, `Handoff`, `Publications`, `EndToEnd` | the polling controller, and the way from Pods and policies to tiers |
| `Prs`, `PrsCaps`, `PrsBudget`, `PrsRuns` | the Power Reclaim Service: one tick, what each GPU gets, the budget, whole runs |
| `Tiers`, `Priority`, `PriorityCaps`, `PriorityProofs` | tiers and priority preemption |
| `Thermal`, `ThermalCaps` | throttled GPUs |
| `BrainBudgets` | budget and sign of every brain's decision |
| `Quota`, `QuotaCaps`, `QuotaProofs`, `QuotaFloors`, `QuotaIsolation` | tenant slices, the cache of inner brains, floors, non-interference |
| `PdnModel`, `Coordinator`, `Controller`, `Telemetry`, `Cascade`, `ClosedLoop` | topology and validation, node budgets, the control tick and what it reads, the whole cascade, many ticks |
| `Sim`, `Failsafe` | the simulated fleet and the failsafe loop |
| `Sums`, `Options` | sums of watts over lists of keys; an optional value |

Objects that the program updates in place are classes. Each method is proved against a function on values (a tick, a
step, a replayed log), and the guarantees are lemmas about those functions and their runs. What each of them decides is
also stated in inputs and outputs alone, without the steps that compute it, mostly as exact conditions (`Annotations`,
`PrsCaps`, `PriorityCaps`, `ThermalCaps`, `QuotaCaps`, `Telemetry`, and lemmas named `...Exactly`). A Python dictionary
is a map, with a list of its keys where their order or their sum matters. Watts are exact reals.

What comes from outside is a parameter: the Pods and policies an API call lists, the selectors a time-limited cache
returns, the fate of each API call, utilisation samples, the budgets a store offers. Nothing is assumed of the selectors,
and API calls may fail in any way, also after taking effect.

Where the program and its comments or documents differ, the model follows the program:

- `src/opendps/brain/prs.py:38` says the caps are within budget by construction. The clamp at line 148 breaks this for
  small shares; `PrsBudget.WithinBudgetExactly` has the exact condition and `PrsBudget.ByConstructionFails` an input.
- `docs/N15-priority-preemption.md:8` and `docs/N16-thermal-aware.md:26` say the domain budget is never exceeded. Both
  brains can pass on a PRS overrun: `BrainBudgets.PriorityFitsExactly` and `BrainBudgets.ThermalFitsExactly` say when they
  fit, and `BrainBudgets.WrappersFail` has an input.
- The comment at `src/opendps/brain/thermal_prs.py:49-50` says the freed watts go in proportion to current caps. They go
  in proportion to headroom: `Thermal.GiftsFollowCapsExactly` and, with an input, `Thermal.EqualCapsUnequalGifts`.
- `src/opendps/brain/quota_prs.py:89-91` and `docs/N13-quota-enforcement.md:39-42` say the floor wins over an infeasible
  slice. The slice wins: `QuotaFloors.TenantKeepsPrsCapsExactly`, `QuotaFloors.InfeasibleSliceBreaksFloor` and, with an
  input, `QuotaFloors.FloorDoesNotWin`. This brain uses the raw `budget_w`, so its bounds are against that.
- `src/opendps/controller/cluster_coordinator.py:133-134` calls it a hard invariant that the budgets stay within the
  cluster budget. A completed rebalance keeps it; while the next one publishes its budgets one by one, the store keeps it
  exactly under `Coordinator.MidPublishFitsExactly` (by draws: `Coordinator.MidPublishFitsByDraws`), never totals more
  than 1.5 cluster budgets (`Coordinator.MidPublishTotal`), and reaches that (`Coordinator.MidPublishReachesBound`).
- A GPU missing from a Prometheus sample keeps its cap, and nothing charges it to the budget
  (`Cascade.TickEnforces`, `Cascade.LoadWithinOffer`; with an input, `Cascade.UnseenGpuBreaksOffer`).
- The per-domain checks of `validate_allocation` compose when adopted budgets stay within the static ones
  (`PdnModel.AcceptedTogetherOnPdu`); for any adopted budgets, exactly when the largest acceptable loads fit or
  nothing can be accepted (`PdnModel.ComposesOnPduExactly`, `PdnModel.ComposesOnRackExactly`).
- The failsafe's ceiling covers the indices 0 to the number of GPUs less one (`Failsafe.ScanProtectsExactly`): a fleet with
  other indices has GPUs it never reaches.
- The failsafe only lowers caps when a poll is not interrupted by a brain write (`Failsafe.TripLowers`,
  `Failsafe.SetRaisesExactly`); the bound on trips holds all the same (`Failsafe.TripsAreBounded`).
- The periodic resync repairs what a policy publishes (`PodEvents.ResyncRepairs`) but not the digests of live Pods
  (`MissedEvents.EventLeavesListRightExactly` says when the next event then goes wrong, with two inputs).
- A policy named `resolved-assignments` is accepted and never stored (`RegistryData.ReservedNameIsLost`).

## Model

| member | source | states |
|---|---|---|
| GpuIndices.ParseIndices | src/opendps/operator/handlers.py:45-71 | The parsing loop answers exactly what `GpuIndices.Parse` says: nothing for a blank, malformed or repeating annotation, otherwise the indices in ascending order |
| GpuIndices.ParsedIsAscending | src/opendps/operator/handlers.py:45-71 | Whatever is accepted is a strictly ascending list: sorted and without duplicates |
| Annotations.SpacesExactly | src/opendps/operator/handlers.py:54 | White space is the 29 characters that Python strips, none of them a comma or a digit (also lines 61) |
| Annotations.LeadingZero | src/opendps/operator/handlers.py:64 | Leading zeros do not change a number; with the round trip this fixes the value of every decimal text |
| Annotations.SplitsExactly | src/opendps/operator/handlers.py:60 | Splitting gives the one list of comma-free pieces that joins back to the text |
| Annotations.ParsesExactly | src/opendps/operator/handlers.py:45-71 | An annotation is accepted as an ascending list if and only if its text is decimal numbers, with any white space around each, between commas, none repeated, and these are the listed numbers |
| Annotations.Rejected | src/opendps/operator/handlers.py:54-70 | One piece that is no number, such as an empty one, or one number written twice, rejects the whole annotation |
| Annotations.PaddedRoundTrip | src/opendps/operator/handlers.py:60-71 | Distinct numbers in any order, with any white space around each, are read back in ascending order |
| Annotations.RoundTrip | src/opendps/operator/handlers.py:60-71 | Every non-empty strictly ascending list, written in decimal between commas, is read back exactly |
| Annotations.SpacedPair | src/opendps/operator/handlers.py:60-71 | A literal annotation with a blank after the comma is read as its two indices |
| Assignments.SortSorts | src/opendps/operator/handlers.py:105-113 | The list sorted by node, GPU, Pod and policy is in order and a permutation of what went in |
| Assignments.SortOrders | src/opendps/operator/handlers.py:105-113 | In the sorted list nodes come in code-point order, on a node GPUs in ascending order, on a GPU Pods and for a Pod policies in code-point order |
| Assignments.StrLeExactly | src/opendps/operator/handlers.py:105-113 | Code-point order: a prefix comes first, otherwise the first difference decides |
| Assignments.StrictlySortedUnique | src/opendps/operator/handlers.py:105-113 | A list in strict key order is determined by its set of elements, so publication is canonical |
| Resolution.ResolvedAssignments | src/opendps/operator/handlers.py:74-113 | The two nested loops with their skipped Pods, and the sort, compute `Resolution.Resolve` |
| Resolution.SelectedExactly | src/opendps/operator/handlers.py:504-515 | A policy selects the Pods of its namespace whose labels include all pairs of its selector, which must not be empty |
| Resolution.ContributionHas | src/opendps/operator/handlers.py:81-104 | A Pod with an identity and a node puts each GPU its annotation lists there on the list, with the policy's tier and boost; any other Pod puts nothing |
| Resolution.ResolveIsResolution | src/opendps/operator/handlers.py:74-113 | Whatever order the API server lists the selected Pods in, resolution yields each assignment of the cluster's Pods exactly once, in order (also lines 504-527) |
| Resolution.ResolutionUnique | src/opendps/operator/handlers.py:74-113 | There is only one such list for given Pods and policy |
| PodEvents.PodEventHandler.OnPodEvent | src/opendps/operator/handlers.py:411-445 | The handler with its early returns takes digest cache and published lists to the state that `AfterChange` or `AfterDelete` describe |
| PodEvents.PodEventHandler.ReconcileNamespace | src/opendps/operator/handlers.py:387-408 | The loop over the namespace's policies, in any order, re-resolves exactly the named policies of that namespace and leaves the others |
| PodEvents.PodEventHandler.ReconcilePolicy | src/opendps/operator/handlers.py:245-299 | One policy's entry becomes the resolution of what the API server lists; every other entry stays |
| PodEvents.PodEventHandler.PruneDigests | src/opendps/operator/handlers.py:364-384 | Exactly the namespace's digests whose Pod is gone are forgotten |
| PodEvents.PodEventHandler.Resync | src/opendps/operator/handlers.py:228-242 | The periodic repair republishes the policy and prunes the digests of its namespace |
| PodEvents.PodEventHandler.OnPolicyDelete | src/opendps/operator/handlers.py:302-306 | A deleted policy's entry goes, its siblings stay |
| PodEvents.SameDigestSameAssignments | src/opendps/operator/handlers.py:309-320 | Pods with equal digests contribute the same assignments to every policy and are selected by the same policies |
| PodEvents.QuietEventIsHarmless | src/opendps/operator/handlers.py:425-442 | An event that re-resolves nothing (cached digest, or irrelevant before and after) leaves every published list correct |
| PodEvents.OtherNamespaceUnaffected | src/opendps/operator/handlers.py:387-394 | Pods of one namespace never affect the resolutions of another |
| PodEvents.StepKeepsInvariant | src/opendps/operator/handlers.py:411-445 | Every Pod and policy event, with arbitrary selector answers, keeps the digest cache in step and every published list a resolution of the current Pods (also lines 214-242, 302-306) |
| PodEvents.TruthExists | src/opendps/operator/handlers.py:263-271 | Whatever the cluster looks like, there are answers of the API server that describe it, so the runs below exist (also lines 387-394) |
| PodEvents.EventFilterIsSound | src/opendps/operator/handlers.py:411-445 | After every run from an empty Pod map, each policy's published assignments equal a fresh resolution of the current Pods, however stale the selector cache (also lines 309-333) |
| PodEvents.NoOrphans | src/opendps/operator/handlers.py:302-306 | After every run exactly the existing policies have published assignments |
| PodEvents.ResyncRepairs | src/opendps/operator/handlers.py:228-242 | From any state, whatever was missed, re-resolving a policy publishes what it should |
| PodEvents.ResyncForgetsGone | src/opendps/operator/handlers.py:364-384 | Whatever deletions were missed, a resync leaves no digest of a Pod that is gone from the namespace and every other digest as it was |
| PodEvents.BlankIsIgnored | src/opendps/operator/handlers.py:400-402 | Events without identity or namespace change nothing, and a policy without a name is never published (also lines 420-422) |
| PodEvents.RevertAfterMissedChangeIsIgnored | src/opendps/operator/handlers.py:411-445 | The repair does not reach live digests: for any missed change that matters, a resync and a change back leave the published list wrong (also lines 364-384) |
| MissedEvents.EventLeavesListRightExactly | src/opendps/operator/handlers.py:411-445 | Whatever the digest cache holds, a Pod event that finds a policy's list right leaves it right if and only if the handler re-resolves or the policy's assignments are the same before and after |
| MissedEvents.ChangeBackIsMissed | src/opendps/operator/handlers.py:425-437 | A literal instance: an annotation is lost unnoticed, a resync publishes the empty list, the annotation's return is taken for old news |
| MissedEvents.LossOfMissedAnnotationIsIgnored | src/opendps/operator/handlers.py:425-442 | A second literal instance: a missed annotation is published by a resync, and its removal, with a new digest, wakes nobody |
| RegistryData.AggregateResolvedAssignments | src/opendps/operator/handlers.py:535-566 | The loop over the sorted keys computes `Aggregate`, or raises exactly when some policy entry is JSON but no object |
| RegistryData.KeysExactly | src/opendps/operator/handlers.py:538-539 | Aggregation counts exactly the keys that are a name with the suffix, except the aggregate's own (also lines 578) |
| RegistryData.AggregateAdds | src/opendps/operator/handlers.py:535-566 | No entries aggregate to nothing, and one more key adds its assignments, repetitions included, if it is a policy's and holds an object |
| RegistryData.AggregateMeaning | src/opendps/operator/handlers.py:535-566 | The aggregate is sorted and lists an assignment if and only if some policy entry lists it |
| RegistryData.AggregateIgnoresItself | src/opendps/operator/handlers.py:535-540 | Aggregation does not depend on the aggregate's own key, present or not |
| RegistryData.RewrittenIsConsistent | src/opendps/operator/handlers.py:612-617 | A rewrite leaves an aggregate that is the aggregate of the entries beside it |
| RegistryData.RewrittenKeepsSiblings | src/opendps/operator/handlers.py:611-617 | A rewrite changes no key but the policy's own and the aggregate's |
| RegistryData.RewrittenHasEntry | src/opendps/operator/handlers.py:611-617 | Unless the policy's key is the aggregate's, a rewrite leaves its entry under it, or nothing when it is removed |
| RegistryData.RewritingAgainIsNoOp | src/opendps/operator/handlers.py:611-619 | Publishing the same entry twice gives equal data, which is the branch that returns without replacing |
| RegistryData.ReservedNameIsLost | src/opendps/operator/handlers.py:616-617 | A policy named `resolved-assignments` is overwritten by the aggregate: its entry is never stored (also lines 578) |
| Registry.MoveIsAtomic | src/opendps/operator/handlers.py:579-642 | Each API call of a writer either leaves the store or turns its current contents into the rewrite of exactly those contents |
| Registry.WritersEnd | src/opendps/operator/handlers.py:579-642 | Each call strictly lowers a rank of at most six, so a writer ends within three attempts whatever the others do |
| Registry.ApplyKeepsInvariant | src/opendps/operator/handlers.py:569-642 | Spawning a writer, any writer's next call (successful, conflicting, failing, or applied though it failed) and deletion of the object keep the protocol's invariant |
| Registry.RegistryIsLinearizable | src/opendps/operator/handlers.py:569-642 | In every interleaving of any number of writers the registry is the log of writes replayed one after the other; a returned writer has exactly one write there, made after it began, a given-up one none |
| Registry.LatestWriteWins | src/opendps/operator/handlers.py:569-642 | Under every key but the aggregate's stands what the latest write of that policy put there; no sibling entry is ever lost or revived |
| Registry.AggregateIsAlwaysTrue | src/opendps/operator/handlers.py:535-566 | At every reachable moment after the first write the stored aggregate is that of the stored entries (also lines 616-617) |
| Registry.ConflictsArePaidFor | src/opendps/operator/handlers.py:606-642 | A writer in its k-th retry has seen k writes take effect since it began, and one that gives up at least three |
| Registry.UndisturbedWriterReturns | src/opendps/operator/handlers.py:579-636 | A writer left alone for two calls returns and has published |
| Registry.ReadExactly | src/opendps/operator/handlers.py:606-619 | What a writer makes of an object it has read: it raises if and only if some other policy's entry is JSON but no object, returns when there is nothing to change, and otherwise goes on to replace exactly what it read |
| Registry.VersionsIdentifyContents | src/opendps/operator/handlers.py:620-628 | Along a run a version never comes back with other contents |
| Registry.WritesCanHappen | src/opendps/operator/handlers.py:569-642 | Every sequence of writes is the log of some run of writers from a registry that does not exist |
| RegistryWriter.WriteBoostRegistry | src/opendps/operator/handlers.py:569-642 | The retry loop, run against a server on which others write before each of its calls, ends in the outcome and store of the writer's state machine |
| RegistryWriter.ReturningMeansPublished | src/opendps/operator/handlers.py:569-642 | When the loop returns normally, whatever others did, the object it leaves has the entry (or lacks the removed one) and a true aggregate |
| RegistryWriter.GivesUpExactly | src/opendps/operator/handlers.py:579-642 | Among writers whose calls get through, the loop gives up if and only if each of three rounds has something to write and loses the race for it; otherwise it returns |
| PriorityConfig.ParsePayload | src/opendps/controller/priority_config.py:158-193 | The parsing loop computes `Parse`: rejection at the first bad local assignment, otherwise the selected tiers |
| PriorityConfig.ShapeExactly | src/opendps/controller/priority_config.py:158-168 | A payload has the right shape if and only if it is an object of schema version 1 (or 1.0, or true) with a list of assignments |
| PriorityConfig.ClaimExactly | src/opendps/controller/priority_config.py:170-188 | An element is a local claim if and only if it is an object for this node with an index not below zero, one of the four tiers, and a number as boost |
| PriorityConfig.ElsewhereExactly | src/opendps/controller/priority_config.py:172-175 | An element is passed over if and only if it is an object that does not name this node |
| PriorityConfig.AcceptedExactly | src/opendps/controller/priority_config.py:158-186 | A payload is accepted if and only if it has the right shape and no element is invalid on this node; other nodes' objects are not examined |
| PriorityConfig.HighestTierWins | src/opendps/controller/priority_config.py:188-193 | A GPU has tier t in an accepted payload if and only if t is the highest tier any local element claims for it |
| PriorityConfig.OnlyLocalClaimsMatter | src/opendps/controller/priority_config.py:170-193 | Order, repetition and other nodes' assignments never change the outcome, acceptance included |
| PriorityConfig.PriorityConfigSource.Poll | src/opendps/controller/priority_config.py:72-138 | One poll takes snapshot, remembered version and warning flag to the state `AfterPoll` describes |
| PriorityConfig.ShortcutIsInvisible | src/opendps/controller/priority_config.py:104-138 | For every sequence of responses in which equal non-empty versions mean equal contents, the snapshot is that of a poller that always parses |
| PriorityConfig.LastKnownGood | src/opendps/controller/priority_config.py:84-124 | A missing object or an empty list gives the baseline; every other error or bad payload keeps snapshot and version |
| PriorityConfig.UnversionedIsParsed | src/opendps/controller/priority_config.py:104-107 | A version that is missing or empty never lets a poll skip the payload |
| PriorityConfig.WarnedExactly | src/opendps/controller/priority_config.py:74-138 | Over every sequence of responses with identifying versions, the poller counts as having warned if and only if it was refused or served something unusable and has been served nothing usable since |
| Handoff.EncodedClaim | src/opendps/operator/handlers.py:96-104 | An assignment as published is understood on its node, and only there, as the claim it stands for |
| Handoff.EncodeInjective | src/opendps/operator/handlers.py:94-104 | Different assignments are published as different objects |
| Handoff.SoundExactly | src/opendps/controller/priority_config.py:170-186 | A published aggregate is accepted on a node if and only if every assignment there has a real tier |
| Handoff.HandoffMeaning | src/opendps/controller/priority_config.py:158-193 | An accepted registry is shown as the baseline overlaid, per local GPU, with the highest tier any policy entry assigns; otherwise nothing changes (also lines 126-128) |
| Handoff.HighestExists | src/opendps/controller/priority_config.py:18 | A GPU with any assigned tier has a highest one |
| Handoff.ControllerShowsRegistry | src/opendps/controller/priority_config.py:72-138 | Whichever moments of a concurrent registry run a controller polls and whichever polls fail, with the shortcut on, it shows the last moment it found absent or sound, or the baseline |
| Publications.RunIsRecorded | src/opendps/operator/handlers.py:387-445 | After every run, the latest write under each policy's key is what the policy then publishes, and no other key was written last with an entry (also lines 245-299, 302-306) |
| Publications.RegistryHoldsPublications | src/opendps/operator/handlers.py:569-642 | A registry whose concurrent writers made the run's writes holds exactly the run's published assignments and a true aggregate, or does not exist when there are no policies (also lines 411-445) |
| EndToEnd.WorkloadsGetTheirTiers | src/opendps/operator/handlers.py:74-113 | From Pods and policies through handlers, concurrent writers and polls to the controller: each GPU gets the highest tier of the policies selecting a Pod that runs on the node and advertises the GPU, and the baseline's tier if there is none (also lines 411-445, 535-566) |
| EndToEnd.EveryRunCanBePolled | src/opendps/operator/handlers.py:569-642 | For every run of events there are a registry run with its writes and a poll of it, so the result above always applies (also lines 411-445) |
| Prs.PRSBrain.Decide | src/opendps/brain/prs.py:97-186 | One decision: caps, smoothed draws, limiter baseline and metrics are those of the tick's value `Prs.Tick`; other domains stay |
| Prs.PRSBrain.UpdateEwma | src/opendps/brain/prs.py:109-113 | The loop smooths every reported draw and keeps the averages of missing GPUs |
| Prs.PRSBrain.Classify | src/opendps/brain/prs.py:115-124 | The loop splits the GPUs, in order, into those at or above the threshold and the rest |
| Prs.PRSBrain.FloorIdle | src/opendps/brain/prs.py:126-132 | The loop gives each idle GPU its floor, cut at the hardware maximum |
| Prs.PRSBrain.SplitHot | src/opendps/brain/prs.py:137-148 | The loop splits the hot budget by smoothed draw and clamps each share |
| Prs.PRSBrain.LimitRaises | src/opendps/brain/prs.py:152-162 | The in-place loop limits exactly the raises and never a reduction |
| Prs.PRSBrain.NoteAppliedCaps | src/opendps/brain/prs.py:192-196 | Only the limiter baseline of the domain changes |
| Prs.PRSBrain.ResetEwma | src/opendps/brain/prs.py:198-207 | One domain, or every domain, is forgotten and nothing else |
| PrsCaps.HotExactly | src/opendps/brain/prs.py:115-124 | A GPU is hot if and only if it holds a positive cap (or, unreported, an equal part of the budget) and its smoothed draw is at least the threshold times that |
| PrsCaps.IdleTarget | src/opendps/brain/prs.py:126-132 | An idle GPU gets the larger of min_cap and its smoothed draw with the margin on top, up to its maximum |
| PrsCaps.HotTarget | src/opendps/brain/prs.py:134-148 | A hot GPU gets the part of what the idle ones leave that its smoothed draw is of all hot draws, between min_cap and its maximum; equal parts when nobody hot draws |
| PrsCaps.LimitedExactly | src/opendps/brain/prs.py:150-163 | Only a raise beyond the rate is limited, measured from the last cap or, without one, the reported one |
| PrsCaps.CapsFollowDraws | src/opendps/brain/prs.py:134-148 | Two hot GPUs that neither min_cap nor a maximum touches hold caps in the proportion of their smoothed draws |
| PrsCaps.BusierGetsNoLess | src/opendps/brain/prs.py:134-148 | Of two hot GPUs with equal maxima the one with the larger smoothed draw never gets less |
| PrsCaps.BusyPairShares | src/opendps/brain/prs.py:134-148 | A literal tick: draws of 600 W and 200 W under 800 W get 600 W and 200 W |
| PrsCaps.MetricsMean | src/opendps/brain/prs.py:165-186 | The metrics report who is hot and idle, the idle caps beyond the idle draws, and the domain's total draw and cap |
| PrsBudget.CapsCoverTelemetry | src/opendps/brain/prs.py:115-150 | Exactly the GPUs with a draw get a cap |
| PrsBudget.TargetsBalance | src/opendps/brain/prs.py:126-150 | The caps before limiting add up to max(budget, idle floors) plus what the floor lifts minus what hardware maxima cut |
| PrsBudget.BudgetBound | src/opendps/brain/prs.py:126-163 | The caps sum to at most max(budget, idle floors) plus the sum over hot GPUs of max(0, min_cap - share), limiter included |
| PrsBudget.WithinBudget | src/opendps/brain/prs.py:126-163 | The caps fit the budget when the idle floors fit and no hot share is below min_cap (also lines 38) |
| PrsBudget.WithinBudgetExactly | src/opendps/brain/prs.py:126-163 | Every tick, limited or not, fits its budget if and only if hardware maxima and limiter take back the idle overdraft and what the floor lifts (also lines 38) |
| PrsBudget.ByConstructionFails | src/opendps/brain/prs.py:38 | A concrete tick with a 100 W budget gets a 200 W cap: the budget does not hold by construction (also lines 148) |
| PrsRuns.RaiseBoundOverRun | src/opendps/brain/prs.py:152-163 | A GPU present for k ticks has a cap of at most its start plus k times the raise rate |
| PrsRuns.EwmaStaysInRange | src/opendps/brain/prs.py:109-113 | Over every run the average stays within the range of the draws seen |
| PrsRuns.EwmaConverges | src/opendps/brain/prs.py:109-113 | After k ticks of constant draw the error is exactly (1 - alpha)^k times the first error |
| PrsRuns.StrandedWattsConverge | src/opendps/brain/prs.py:152-176 | Idle stranded watts are at most the sum of max(0, min_cap - d, margin d + (1 + margin)(1 - alpha)^k error), with or without the limiter (also lines 126-132) |
| BrainBudgets.PriorityFitsExactly | src/opendps/brain/priority_prs.py:81-110 | The priority brain's caps fit the budget if and only if it preempts or the inner PRS tick does not overrun it (floors, lifts, cuts and held-back watts) |
| BrainBudgets.ThermalFitsExactly | src/opendps/brain/thermal_prs.py:27-63 | The thermal brain's caps fit the budget if and only if the watts freed and not handed on cover the inner PRS tick's overrun |
| BrainBudgets.WrappersFail | src/opendps/brain/prs.py:148 | One busy GPU, nothing to preempt and nothing to cool: both wrappers pass on 200 W under a budget of 100 W |
| BrainBudgets.DecisionFits | src/opendps/brain/prs.py:126-163 | When the idle floors fit and no hot share is below min_cap, the caps of PRS and of both wrappers fit the budget |
| BrainBudgets.DecisionNonNegative | src/opendps/brain/prs.py:126-163 | From non-negative draws, caps, maxima, floors and remembered caps no brain decides or remembers a negative cap |
| BrainBudgets.WrappersKeepBudget | src/opendps/brain/priority_prs.py:81-110 | Neither wrapper breaks a budget that PRS keeps, or decides a negative cap |
| Priority.PriorityTieredPRSBrain.SetTiers | src/opendps/brain/priority_prs.py:55-64 | The mapping is replaced as a whole, or kept when a tier name is unknown |
| Tiers.NamesExactly | src/opendps/controller/priority_config.py:17-18 | There are exactly four tier names, each for its own tier |
| Priority.PriorityTieredPRSBrain.Decide | src/opendps/brain/priority_prs.py:66-120 | Caps are those of `Priority.PriorityTick` over what the inner PRS proposed, and the inner limiter baseline is the caps returned |
| PriorityCaps.ContendedExactly | src/opendps/brain/priority_prs.py:74-81 | A GPU is contended if and only if it reports a positive cap and draws at least the threshold times that |
| PriorityCaps.LonelyKeepPrs | src/opendps/brain/priority_prs.py:80-86 | With fewer than two contended GPUs, or no budget, the caps are those of PRS |
| PriorityCaps.PreemptedCap | src/opendps/brain/priority_prs.py:90-101 | When floors and uncontended caps fit the budget, a contended GPU gets its floor and the part of the rest that its draw times 4, 2, 1 or 1/2 is of all such products, up to its maximum; the others keep their PRS caps |
| PriorityCaps.SurplusFollowsClaims | src/opendps/brain/priority_prs.py:94-101 | Two contended GPUs below their maxima divide the rest in the proportion of draw times 4, 2, 1 or 1/2 |
| PriorityCaps.BudgetIsUsedUp | src/opendps/brain/priority_prs.py:90-101 | When somebody contended draws and no maximum is reached the caps sum to exactly the budget |
| PriorityCaps.ScaledCap | src/opendps/brain/priority_prs.py:90-110 | When floors and uncontended caps exceed the budget everybody gets those floors (or maxima) and caps, scaled in proportion if they total more than the budget |
| PriorityCaps.RaisingATierRaises | src/opendps/brain/priority_prs.py:94-101 | Raising the tier of a drawing contended GPU below its maximum strictly raises its cap when there is a rest to divide and another contended GPU draws |
| PriorityCaps.EightToOne | src/opendps/brain/priority_prs.py:94-101 | A literal tick: a critical and a low GPU with equal draws divide 400 W eight to one |
| PriorityProofs.PreemptionWithinBudget | src/opendps/brain/priority_prs.py:74-110 | With two or more contended GPUs and a budget the caps never sum above it, feasible floors or not |
| PriorityProofs.FloorsAreKept | src/opendps/brain/priority_prs.py:88-101 | When reserved caps and floors fit, nothing is scaled, contended GPUs get at least min(floor, hardware maximum), the others keep their PRS caps |
| PriorityProofs.RaisingATier | src/opendps/brain/priority_prs.py:74-110 | Raising one contended GPU's tier never lowers its cap, never raises another contended GPU's and leaves the rest alone, scaled or unscaled |
| PriorityProofs.StrongerClaimGetsMore | src/opendps/brain/priority_prs.py:74-110 | Of two contended GPUs the one with at least the other's draw, weight and hardware maximum gets at least its cap, scaled or unscaled |
| Thermal.ThermalAwarePRSBrain.Decide | src/opendps/brain/thermal_prs.py:27-69 | Caps are those of `Thermal.ThermalTick` over what the inner PRS proposed, and the inner limiter baseline is the caps returned |
| ThermalCaps.ThrottledCap | src/opendps/brain/thermal_prs.py:38-47 | A throttled GPU gets its base (the lower of proposal and held cap) less the derated part, stopped at the floor; a base below the floor stays; from a base at the floor or above nothing goes below it |
| ThermalCaps.RecipientCap | src/opendps/brain/thermal_prs.py:49-61 | Every other GPU gets, on top of its PRS cap, the part of the watts taken back (as far as all headrooms reach) that its headroom is of all headrooms |
| ThermalCaps.ThrottledKeepsFloor | src/opendps/brain/thermal_prs.py:38-47 | Over consecutive throttled ticks a cap that starts at the floor never falls below it if PRS never asks for less |
| ThermalCaps.ThrottledDecaysExactly | src/opendps/brain/thermal_prs.py:38-47 | If PRS never asks for less than is held, the cap after k throttled ticks is exactly max(floor, (1 - derate)^k start) |
| Thermal.TickTotal | src/opendps/brain/thermal_prs.py:33-63 | The caps total what PRS proposed minus the freed watts plus those that found room, so never more than PRS proposed |
| Thermal.RecipientBounds | src/opendps/brain/thermal_prs.py:51-61 | A recipient gets at least its PRS cap and at most max(hardware maximum, PRS cap) |
| Thermal.GiftsFollowCapsExactly | src/opendps/brain/thermal_prs.py:49-61 | Two recipients share the freed watts in proportion to their caps if and only if their headrooms are in that proportion |
| Thermal.EqualCapsUnequalGifts | src/opendps/brain/thermal_prs.py:49-61 | A literal tick: two recipients of equal cap get 25 W and 75 W |
| Thermal.ThrottledCapDecays | src/opendps/brain/thermal_prs.py:38-47 | Over consecutive throttled ticks, with arbitrary PRS proposals, the cap never rises and is at most max(floor, (1 - derate)^k start) |
| Quota.QuotaConfig.Validate | src/opendps/pdn/quota.py:25-42 | Accepts exactly the configurations of one domain whose shares sum to at most 1.000001 and whose GPU sets are pairwise disjoint |
| Quota.QuotaAwarePRSBrain.Decide | src/opendps/brain/quota_prs.py:35-113 | Tenant loop, cache of inner brains and leftover split compute `Quota.Allocate` on caps and cache alike |
| Quota.QuotaAwarePRSBrain.CapTenant | src/opendps/brain/quota_prs.py:61-98 | One tenant's inner brain is found or built, decides, and its caps are renormalised to the slice |
| Quota.QuotaAwarePRSBrain.FindBrain | src/opendps/brain/quota_prs.py:82-85 | A cache miss adds a brain over the slice; every other cached brain stays |
| Quota.QuotaAwarePRSBrain.FitToSlice | src/opendps/brain/quota_prs.py:92-96 | Caps above a positive slice are scaled down in place, others stay |
| QuotaCaps.ToldOfOwn | src/opendps/brain/quota_prs.py:48-54 | A tenant's brain is told exactly of its GPUs with a draw and a maximum, with the maximum in place of a cap that is not reported (also lines 74-80) |
| QuotaCaps.TenantCapExactly | src/opendps/brain/quota_prs.py:57-98 | Each tenant GPU gets what the tenant's own PRS decides over its slice, pct times the raw budget, or that in proportion when it sums to more than the slice |
| QuotaCaps.TenantRunsItsOwnPrs | src/opendps/brain/quota_prs.py:43-98 | Over every run, whatever the other tenants do, a tenant's GPUs get what one PRS over the tenant's slice gives after all ticks in which the same GPUs reported, scaled to the slice if need be |
| QuotaCaps.RestExactly | src/opendps/brain/quota_prs.py:100-106 | The GPUs nobody owns get equal parts of what the tenants leave of the raw budget, each cut at its maximum where known |
| QuotaFloors.TenantKeepsPrsCapsExactly | src/opendps/brain/quota_prs.py:92-96 | A tenant keeps the caps PRS decided for it if and only if they fit its slice |
| QuotaFloors.InfeasibleSliceBreaksFloor | src/opendps/brain/quota_prs.py:88-96 | A slice below min_cap times the tenant's GPUs always leaves one of them a cap below min_cap |
| QuotaFloors.FloorDoesNotWin | src/opendps/brain/quota_prs.py:88-96 | A literal instance: a 100 W slice and one busy GPU, PRS asks for the floor of 200 W and the tenant gets at most 100 W |
| QuotaProofs.LoopClaims | src/opendps/brain/quota_prs.py:54-56 | After any number of tenants, whatever the budget, the claimed GPUs are exactly the tenants' reporting ones, each capped once, and the used watts are the sum of the caps (also lines 97-98) |
| QuotaProofs.BooksBalance | src/opendps/brain/quota_prs.py:38-98 | With a positive budget the used watts moreover fit the tenants' slices |
| QuotaProofs.TenantWithinSlice | src/opendps/brain/quota_prs.py:92-98 | Every tenant's caps sum to at most its slice of the raw budget: the slice wins over the floor |
| QuotaProofs.DomainWithinBudget | src/opendps/brain/quota_prs.py:43-106 | All caps, unassigned GPUs included, sum to at most 1.000001 times the raw budget |
| QuotaProofs.PartialTelemetryGetsNoCap | src/opendps/brain/quota_prs.py:48-56 | A tenant's GPU with a draw but no maximum gets no cap and never enters the unassigned pool |
| QuotaIsolation.OtherStepIsInvisible | src/opendps/brain/quota_prs.py:43-98 | Another tenant's step touches neither this tenant's cached brains nor its caps |
| QuotaIsolation.RestAvoidsTenants | src/opendps/brain/quota_prs.py:100-106 | Leftover budget never reaches a tenant's GPU |
| QuotaIsolation.TenantsDoNotInterfere | src/opendps/brain/quota_prs.py:43-98 | Two runs that agree on one tenant's telemetry give its GPUs identical caps at the end, whatever the others do |
| QuotaIsolation.SlicesNeverGoStale | src/opendps/brain/quota_prs.py:82-85 | No run leaves a cached brain built with a slice other than its tenant's |
| Coordinator.InMemoryStore.Publish | src/opendps/controller/cluster_coordinator.py:36-38 | A node's state is replaced or appended in order of first publication; adopted budgets stay |
| Coordinator.InMemoryStore.SetAdoptedBudget | src/opendps/controller/cluster_coordinator.py:44-46 | One adopted budget changes and nothing else |
| Coordinator.ClusterCoordinator.Rebalance | src/opendps/controller/cluster_coordinator.py:132-163 | Budgets of all nodes are computed, published one by one, and remembered; an empty store changes nothing |
| Coordinator.BudgetBounds | src/opendps/controller/cluster_coordinator.py:147-156 | Every node gets between half and twice its fair share |
| Coordinator.NodeBudgetExactly | src/opendps/controller/cluster_coordinator.py:144-156 | When somebody draws, a node gets half its fair share and of the other half of the cluster budget the part that its draw is of all draws, or twice the fair share from three times the mean draw on |
| Coordinator.NobodyDraws | src/opendps/controller/cluster_coordinator.py:144-156 | When nobody draws every node gets half its fair share |
| Coordinator.PublishLeavesOthers | src/opendps/controller/cluster_coordinator.py:159-160 | Publishing touches no entry of the store but the nodes' own |
| Coordinator.BudgetsBalance | src/opendps/controller/cluster_coordinator.py:147-156 | Budgets plus what the ceiling cuts equal half the cluster budget plus the extras |
| Coordinator.NeverOversubscribed | src/opendps/controller/cluster_coordinator.py:132-163 | A completed rebalance sums to at most the cluster budget |
| Coordinator.UsesWholeBudgetExactly | src/opendps/controller/cluster_coordinator.py:140-156 | It hands out the whole budget if and only if somebody draws and nobody draws more than three times the mean |
| Coordinator.SmallClustersUseWholeBudget | src/opendps/controller/cluster_coordinator.py:147-156 | With up to three nodes and a positive total draw the whole budget is handed out |
| Coordinator.StoreTotal | src/opendps/controller/cluster_coordinator.py:157-160 | At step k of the next publish loop the store totals the old budgets plus what the first k nodes gain |
| Coordinator.MidPublishFitsExactly | src/opendps/controller/cluster_coordinator.py:157-160 | The store keeps the cluster budget at step k if and only if the first k nodes gain no more than the last rebalance left unused (also lines 133-134) |
| Coordinator.MidPublishFitsByDraws | src/opendps/controller/cluster_coordinator.py:154-160 | When in both snapshots somebody draws and nobody more than three times the mean: if and only if the first k nodes draw no larger part of the total than before (also lines 133-134) |
| Coordinator.MidPublishTotal | src/opendps/controller/cluster_coordinator.py:157-160 | At every step the store totals at most one and a half cluster budgets |
| Coordinator.MidPublishReachesBound | src/opendps/controller/cluster_coordinator.py:157-160 | Two nodes that swap their loads reach that bound in the middle of the loop |
| PdnModel.Topology.AdoptBudget | src/opendps/pdn/model.py:60-63 | One override is set, the others stay |
| PdnModel.Topology.ReleaseBudget | src/opendps/pdn/model.py:65-66 | One override is dropped, the others stay |
| PdnModel.Topology.ValidateAllocation | src/opendps/pdn/model.py:99-135 | The checks with their accumulation loops and early returns decide `PdnModel.Pdn.Accepts` |
| PdnModel.PeersExactly | src/opendps/pdn/model.py:86-97 | The domains on a PDU or a rack are those that name it, each once |
| PdnModel.DomainBudgetExactly | src/opendps/pdn/model.py:68-84 | A domain's budget is the adopted one, or its static one, scaled by rack budget over rack total when a positive rack budget is exceeded, less the overhead and never negative |
| PdnModel.ScaledBudgetsFit | src/opendps/pdn/model.py:78-83 | The rack-scaled budgets of a rack's domains add up to the smaller of their sum and the rack budget |
| PdnModel.RackCascade | src/opendps/pdn/model.py:68-84 | Without overrides the domain budgets of a rack never exceed the rack budget, and meet it when scaling applies and overheads are zero |
| PdnModel.RackKeepsProportions | src/opendps/pdn/model.py:78-83 | Scaling keeps the proportion of any two domains of a rack |
| PdnModel.AcceptedTogetherOnPdu | src/opendps/pdn/model.py:109-120 | Proposals accepted one by one, with overheads, together fit every PDU's derated capacity |
| PdnModel.AcceptedTogetherOnRack | src/opendps/pdn/model.py:122-133 | Proposals accepted one by one, with overheads, together fit every rack budget |
| PdnModel.AcceptanceSurvivesLowering | src/opendps/pdn/model.py:99-135 | Lowering caps never turns acceptance into rejection |
| PdnModel.AcceptsExactly | src/opendps/pdn/model.py:99-135 | A proposal is accepted if and only if its total fits the domain budget and, with the overhead and the full budgets of the others, capacity times derating of the PDU and a rack budget if there is one (also lines 37-41) |
| PdnModel.ComposesOnPduExactly | src/opendps/pdn/model.py:109-120 | For any adopted budgets, all non-negative proposals of a PDU's domains that are accepted one by one fit it if and only if the largest acceptable totals plus overheads do, or some domain cannot have any accepted (also lines 76-84) |
| PdnModel.ComposesOnRackExactly | src/opendps/pdn/model.py:122-133 | The same for a rack (also lines 76-84) |
| PdnModel.AdoptionCanBreakJointSafety | src/opendps/pdn/model.py:109-118 | A concrete case that fails the condition: both domains of a PDU adopt more than their static budget, and two accepted proposals overload it (also lines 76-77) |
| Controller.StandaloneController.RunOnce | src/opendps/controller/standalone.py:216-375 | One control tick over all managed domains, with either telemetry, and the simulation step equals `Controller.RunTick` on adopted budgets, brain memory, fleet and decisions |
| Telemetry.TellsOfSeen | src/opendps/controller/standalone.py:262-300 | The brain is told of exactly the domain's GPUs that the telemetry has, in order, and of each the draw, the cap and the maximum |
| Telemetry.ActuatorReads | src/opendps/controller/standalone.py:256-277 | From the actuator a GPU's draw is 0.85 times cap times utilisation over 50 W idle, at most the cap, its cap what is enforced, its maximum the hardware's or an equal part of the budget, and it is throttled if and only if configured so (also lines 288-294) |
| Telemetry.SampleReads | src/opendps/controller/standalone.py:256-300 | From a sample: the draw or 0, the limit and the maximum or an equal part of the budget, and throttled if and only if configured so or at the temperature or above |
| Telemetry.QuietNodeReads | src/opendps/controller/standalone.py:270-272 | A literal GPU at 700 W and ten percent utilisation is read as drawing 109.5 W |
| Telemetry.OfferExactly | src/opendps/controller/standalone.py:240-260 | Only an offer that reaches the minimum is adopted, any other releases the override, and without a store nothing changes |
| Telemetry.EachDomainDecides | src/opendps/controller/standalone.py:309-310 | A tick returns one decision per managed domain, each made with its offer adopted and the hardware as the domains before it left it (also lines 234, 375) |
| Telemetry.TickLeavesAlone | src/opendps/controller/standalone.py:324-375 | A dry run changes no cap and a tick none of an unmanaged GPU; only the simulation moves utilisation |
| Controller.StandaloneController.AdoptOffer | src/opendps/controller/standalone.py:240-260 | An offer of at least the minimum is adopted; an absent, unreadable or smaller one releases the override |
| Controller.StandaloneController.Observe | src/opendps/controller/standalone.py:262-308 | The state is what the reading loops find: the actuator's draws, caps and maxima, or the Prometheus sample with its skipped GPUs, replaced readings and hot GPUs |
| Controller.StandaloneController.ReadSample | src/opendps/controller/standalone.py:278-300 | The Prometheus loop skips GPUs missing from the sample and replaces missing readings |
| Controller.StandaloneController.PushCaps | src/opendps/controller/standalone.py:324-331 | The push loop enforces exactly the decided caps |
| Controller.Brain.DecideFor | src/opendps/controller/standalone.py:309-310 | PRS, priority and thermal brains decide what their value-level description says and touch this domain's memory only |
| Cascade.TickEnforces | src/opendps/controller/standalone.py:262-373 | After a tick every GPU of the domain that the controller sees is capped at what the hardware makes of the brain's decision, and one missing from a sample keeps its cap |
| Cascade.NodeStaysPhysical | src/opendps/controller/standalone.py:216-375 | From physical inputs no tick, over any managed domains, leaves a negative cap on the hardware or in a brain's memory |
| Cascade.LoadWithinOffer | src/opendps/controller/standalone.py:240-260 | A node whose offer reaches the minimum and covers its overhead adopts it and keeps caps plus overhead within it and what unseen GPUs hold |
| Cascade.UnseenGpuBreaksOffer | src/opendps/controller/standalone.py:280-283 | A literal node: its one GPU is missing from the sample, it adopts 100 W, its brain keeps the budget, and it holds 300 W |
| Cascade.ClusterLoad | src/opendps/controller/standalone.py:216-375 | Whatever budgets the nodes find in the store, all adopt them, and the cluster's load is at most their sum and what unseen GPUs hold |
| Cascade.CascadeIsSafe | src/opendps/controller/cluster_coordinator.py:144-163 | With B at least 2 n times each minimum, overheads at most B / (2 n) and brains within their domain budgets, after a rebalance and one tick everywhere no node falls back to its topology, and the enforced caps plus overheads fit B, up to what GPUs missing from a Prometheus sample hold |
| Cascade.CascadeIsSafeWhenSharesSuffice | src/opendps/controller/cluster_coordinator.py:144-163 | The same with a condition on the ticks in place of the brains' promise: idle floors fit and no hot share is below min_cap, whichever brains the nodes run |
| Cascade.MixedLoads | src/opendps/controller/cluster_coordinator.py:157-160 | When each node ticks at its own step of a publish loop, all adopt what they find, and their loads fit one and a half cluster budgets, up to what unseen GPUs hold |
| ClosedLoop.ThrottledInClosedLoop | src/opendps/controller/standalone.py:262-373 | In the closed loop of thermal controller and hardware, with any managed domains, store or not, either telemetry (samples may miss the GPU but not read its cap too high), a throttled GPU's cap never rises and, unless caps are only logged, is at most max(floor, (1 - derate)^k start) after k rounds that see it |
| ClosedLoop.FloorInClosedLoop | src/opendps/controller/standalone.py:262-373 | In the closed loop of PRS or thermal controller and hardware, a GPU whose hardware, readings and remembered caps are at the floor or above never falls below it, throttled or not, with any managed domains and offers |
| Sim.SimBackend.SetPowerCap | src/opendps/sim/backend.py:87-89 | One GPU's cap becomes the request cut to zero and the hardware maximum; nothing else changes |
| Sim.SimBackend.Tick | src/opendps/sim/backend.py:111-117 | Every GPU takes its next utilisation sample and keeps its cap |
| Sim.RequestIsMet | src/opendps/sim/backend.py:87-89 | A requested cap is met between zero and the hardware maximum and cut there; nothing else of the GPU changes |
| Sim.OnlyUtilisationMoves | src/opendps/sim/backend.py:111-117 | A step of the simulation moves utilisation to the sample, if there is one, and nothing else |
| Failsafe.FailsafeLoop.Scan | src/opendps/agent/failsafe.py:99-117 | One pass over the fleet polls each index in order and counts the trips |
| Failsafe.ScanCeils | src/opendps/agent/failsafe.py:102-107 | After a pass over n indices each of their GPUs that drew above the threshold holds the emergency cap (or its maximum) and none draws above it any more; every other GPU is untouched |
| Failsafe.TripsCounted | src/opendps/agent/failsafe.py:102-108 | The trips of a pass are the GPUs it reaches that drew above the threshold, each once |
| Failsafe.ScanProtectsExactly | src/opendps/agent/failsafe.py:100-107 | A pass puts the whole fleet under the threshold if and only if no GPU whose index is negative or at least the fleet's size draws above it |
| Failsafe.TripLowers | src/opendps/agent/failsafe.py:102-107 | Every uninterrupted trip strictly lowers that GPU's cap and leaves it at or below the threshold |
| Failsafe.TripsAreBounded | src/opendps/agent/failsafe.py:99-118 | In every interleaving, brain writes and simulator ticks inside a poll and failing sets included: trips plus GPUs that may still trip are at most the initial such GPUs plus brain writes above the threshold (also lines 54-58) |
| Failsafe.SetRaisesExactly | src/opendps/agent/failsafe.py:104-106 | The set of a poll raises the cap if and only if it finds a cap below the enforced emergency cap |
| Failsafe.InterruptedPollCanRaise | src/opendps/agent/failsafe.py:104-106 | A run in which a brain write between read and set makes the failsafe lift a cap from 200 W to 500 W |

## Left out

- Kubernetes, kopf, Redis, Prometheus, Redfish, NVML and sockets; of the API server only versioned create, read and replace.
- JSON as text. Registry values and payloads are trees; a policy's other fields and the layout of its text are one opaque string, and foreign entries whose assignments lack fields are not modelled.
- Logging, status patches, `matched_pods` counts, event reasons, metrics other than those of PRS, sleeps and wall-clock times. The selector cache may answer anything at any time, which covers its time limit.
- PodEvents.EventFilterIsSound: an event is applied together with its handler and handlers do not overlap; a handler that fails before it publishes counts as one whose event was missed, one that fails in between is not modelled.
- PodEvents.PodEventHandler.ReconcilePolicy: the registry write succeeds; what a writer does when it does not is RegistryWriter.WriteBoostRegistry, and Publications connects the two for runs without failures.
- PodEvents.PodEventHandler.OnPolicyDelete: the same.
- Registry.RegistryIsLinearizable: edits of the ConfigMap by other tools are not modelled, except deletion of the whole object.
- GpuIndices.ParseIndices: Python's limit on the digits of one integer is not modelled; annotations are strings, as Kubernetes has them.
- PriorityConfig.ParsePayload: NaN, infinities and integers too large for a float are not modelled.
- Controller.StandaloneController.RunOnce: managed domains list each GPU once; energy accounting, metrics and the quota brain are not part of the tick.
- Controller.Brain.DecideFor: the quota brain is proved by itself (Quota.QuotaAwarePRSBrain.Decide) and not plugged into the controller; DPM, job-aware and cvxpy brains are left out.
- Coordinator.ClusterCoordinator.Rebalance: the lock around the remembered budgets and the expiry of Redis entries.
- The brains cvxpy (a foreign solver decides), DPM and job-aware PRS, energy showback, and the Rust agent, IPC and simulator: they would add easier sums and counters, or the same arithmetic again.
- Command line, presets, metrics servers, dashboards and deployment files.
- Floating-point rounding.
