# FreeOrion AI production queue, ship selection and supply helpers

This project models the part of the FreeOrion Python AI that manages the empire's production
queue, together with the helpers that feed it. It is written in Dafny.

The `ProductionQueueManager` keeps a shadow list of
`(current_priority, base_priority, item_type, item, location)` entries:

- The list is sorted by priority. Python 2 tuple order decides ties.
- It must describe the engine's production queue index for index.
- Every change goes through the manager. It enqueues buildings by name and ships by design id.
  It moves a fresh element from the tail to its priority rank. It dequeues by index.
- Once per turn it reconciles the shadow list with the engine's queue. Items no longer in the
  engine's queue were finished, or lost with their planet. Items found on planets newly gained
  are conquered entries, marked with sentinel priorities.
- Then every entry is rescheduled: its priority decays by the fraction of its cost already
  spent, it is re-inserted at its `bisect_left` rank, and the engine is told to move its
  element to match.

Two copies of the manager are modelled. The model follows the current copy. Where the older
copy behaves differently, that behaviour is modelled separately.

The engine (the game's C++ side) is not part of this model. `Engine.EngineQueue` stands in for
it. It accepts or refuses each order nondeterministically, and it keeps a ghost log of the
orders issued.

The helpers modelled alongside the manager:

- `get_design_cost`: a cache of design costs that holds one turn at a time.
- `get_best_ship_info`: the best design buildable at the queried planets, and where it can be
  built.
- The shipyard location choice of `ShipyardManager.get_candidate`.
- From `UniverseUtilsAI`: the supply tiers, the union of annexable systems, and the older
  breadth-first ring search.
- Small tools of `freeorion_tools`: tag grades, `ppstring`, the session and turn caches, and
  the dict/tuple conversions.

Modules, one per file:

- `QueueOrder`: entries, Python 2 ordering, CPython's `bisect`, `list.insert`/`pop`.
- `Engine`: the engine queue and its orders.
- `ProductionPriority`: the priority constants, sentinel and decay.
- `Reconciliation`: what a reconciliation pass computes.
- `ProductionQueueAI`: the manager class.
- `QueueFindings`: the current copy as written, where it loses track of the engine.
- `LegacyProductionQueue`: the older copy where it differs.
- `DesignCost`, `BestShip`, `Shipyard`, `UniverseUtils`, `FreeOrionTools`.
- `Optional`: the `Option` type.

## Model

| member | source | states |
|---|---|---|
| QueueOrder.StrLtTotal | default/python/AI/ProductionQueueAI.py:93 | Python 2 byte-string comparison is total: of two distinct names one is less |
| QueueOrder.StrLtTransitive | default/python/AI/ProductionQueueAI.py:93 | string comparison is transitive |
| QueueOrder.Lt | default/python/AI/ProductionQueueAI.py:34-35 | Python's lexicographic order on the five-field entry tuples, with a design id (int) before any name (str) |
| QueueOrder.LtIrreflexive | default/python/AI/ProductionQueueAI.py:34-35 | no entry tuple is less than itself |
| QueueOrder.LtTransitive | default/python/AI/ProductionQueueAI.py:34-35 | the order on entry tuples (priority, base, type, item with ints before strings, location) is transitive |
| QueueOrder.LtTotal | default/python/AI/ProductionQueueAI.py:34-35 | the order on entry tuples is total, so sorting and bisecting are well defined |
| QueueOrder.LtAsymmetric | default/python/AI/ProductionQueueAI.py:34-35 | of two entries at most one is less than the other |
| QueueOrder.Insert | default/python/AI/ProductionQueueAI.py:108 | `list.insert` puts the entry at the index, shifts the tail by one, and adds exactly that entry to the multiset |
| QueueOrder.PyInsert | default/python/AI/ProductionQueueAI.py:144 | `list.insert` past the end appends |
| QueueOrder.Remove | default/python/AI/ProductionQueueAI.py:95 | `list.pop(idx)` removes exactly the element at idx and shifts the tail down |
| QueueOrder.RemoveInsert | default/python/AI/ProductionQueueAI.py:243 | popping the entry just inserted gives the list back |
| QueueOrder.BisectLeft | default/python/AI/ProductionQueueAI.py:93 | CPython's `bisect_left` returns an index within the list |
| QueueOrder.BisectRight | default/python/AI/ProductionQueueAI.py:242 | CPython's `bisect` (right) returns an index within the list |
| QueueOrder.BisectLeftIn | default/python/AI/ProductionQueueAI.py:93 | CPython's `bisect_left` loop on `[lo, hi)`: the answer lies within `[lo, hi]` |
| QueueOrder.BisectRightIn | default/python/AI/ProductionQueueAI.py:242 | CPython's `bisect_right` loop on `[lo, hi)`: the answer lies within `[lo, hi]` |
| QueueOrder.BisectLeftSplits | default/python/AI/ProductionQueueAI.py:107 | on a sorted list, everything before the bisect_left index is less than x and nothing after it is |
| QueueOrder.BisectRightSplits | default/python/AI/ProductionQueueAI.py:242 | on a sorted list, nothing before the bisect index is greater than x and everything after it is |
| QueueOrder.InsertAtBisectLeftSorted | default/python/AI/ProductionQueueAI.py:107-108 | inserting at the bisect_left index keeps a sorted list sorted |
| QueueOrder.InsertAtBisectRightSorted | default/python/AI/ProductionQueueAI.py:242-243 | inserting at the bisect index keeps a sorted list sorted |
| QueueOrder.RemoveSorted | default/python/AI/ProductionQueueAI.py:95 | popping any index keeps a sorted list sorted |
| QueueOrder.IndexOf | default/python/AI/ProductionQueueAI.py:93 | the first index holding an element that is in the list |
| QueueOrder.BisectLeftFindsFirstCopy | default/python/AI/ProductionQueueAI.py:93 | on a sorted list holding x, bisect_left finds exactly the first copy of x |
| Engine.NameOf | default/python/AI/ProductionQueueAI.py:190-196 | an element is named by its design id exactly when it is a ship, otherwise by its name |
| Engine.Move | default/python/AI/ProductionQueueAI.py:110 | an accepted requeue puts the moved element at `to` and keeps the queue's length and contents |
| Engine.EngineQueue.constructor | default/python/AI/ProductionQueueAI.py:119 | the engine queue as the AI reads it at the start of a turn, with an empty order log |
| Engine.EngineQueue.EnqueueBuilding | default/python/AI/ProductionQueueAI.py:216 | an accepted building order appends exactly one building element of that name and location; a refused one changes nothing; the order is logged |
| Engine.EngineQueue.EnqueueShip | default/python/AI/ProductionQueueAI.py:218 | an accepted ship order appends exactly one ship element of that design and location; a refused one changes nothing |
| Engine.EngineQueue.Requeue | default/python/AI/ProductionQueueAI.py:254 | an accepted requeue has both indices in range and moves one element; a refused one changes nothing |
| Engine.EngineQueue.Dequeue | default/python/AI/ProductionQueueAI.py:282 | an accepted dequeue has its index in range and removes exactly that element |
| Engine.RefusalsIn | default/python/AI/ProductionQueueAI.py:258 | the number of refused orders in a log; the enqueue and rescheduling contracts compare it before and after to tell whether the engine refused a requeue (alignment is promised only when it did not grow); it never exceeds the log's length |
| Engine.RefusalsAppend | default/python/AI/ProductionQueueAI.py:258 | a refused order adds one refusal, an accepted one none |
| Engine.OtherOrdersIn | default/python/AI/ProductionQueueAI.py:110 | the number of orders other than requeues in a log; "only requeues issued" during rescheduling is stated as this count staying the same; it never exceeds the log's length |
| Engine.OnlyRequeuesTransitive | default/python/AI/ProductionQueueAI.py:91-110 | two stretches with only requeue orders make one |
| Engine.OnlyRequeuesAppend | default/python/AI/ProductionQueueAI.py:110 | issuing a requeue keeps "only requeues issued" |
| ProductionPriority.Sentinel | default/python/AI/ProductionQueueAI.py:139-141 | the sentinel `invalid + n` is at least `invalid` and grows strictly with n, so conquered and unmovable entries go to the end in the order they were marked |
| ProductionPriority.Decay | default/python/AI/ProductionQueueAI.py:105 | an element with no progress keeps its base priority, a fully paid one gets priority 0 |
| ProductionPriority.DecayBounds | default/python/AI/ProductionQueueAI.py:105 | the decayed priority lies between 0 and the base priority, and more progress never raises it |
| Reconciliation.ConqueredEntry | default/python/AI/ProductionQueueAI.py:138-147 | the entry made for an element on a newly gained planet matches it (same item, same location) and carries the next sentinel priority |
| Reconciliation.UnmatchedShape | default/python/AI/ProductionQueueAI.py:155-170 | once the shadow list runs out, each element left is either conquered with consecutive sentinels or left unclassified |
| Reconciliation.Resolve | default/python/AI/ProductionQueueAI.py:132-182 | the reconciliation of last turn's list with this turn's engine queue; its properties are the four lemmas below |
| Reconciliation.ResolveAligns | default/python/AI/ProductionQueueAI.py:132-182 | when no element is left unmatched, the reconciled shadow list describes the engine's queue index for index |
| Reconciliation.ResolveConserves | default/python/AI/ProductionQueueAI.py:155-182 | every entry of last turn's list is kept, finished or lost exactly once, in order, and nothing else is added except conquered entries |
| Reconciliation.ResolveClassifies | default/python/AI/ProductionQueueAI.py:138-181 | lost entries are exactly the dropped ones whose planet was lost; conquered entries stand on gained planets and carry consecutive sentinels; the counter grows by their number |
| Reconciliation.ResolveKeepsOrder | default/python/AI/ProductionQueueAI.py:155-182 | with nothing conquered, the kept entries keep their relative order, so a sorted list stays sorted |
| Reconciliation.AlignedRemove | default/python/AI/ProductionQueueAI.py:287 | deleting the same index from both queues keeps them aligned |
| Reconciliation.AlignedInsert | default/python/AI/ProductionQueueAI.py:144 | inserting a matching entry and element at the same index keeps them aligned |
| Reconciliation.AlignedReplace | default/python/AI/ProductionQueueAI.py:95-110 | popping an entry and re-inserting it elsewhere mirrors the engine requeue of its element |
| Reconciliation.AlignedEnqueue | default/python/AI/ProductionQueueAI.py:241-254 | inserting a fresh entry at rank `to` mirrors appending its element and requeuing it from the tail to `to` |
| ProductionQueueAI.PlanetDiff | default/python/AI/ProductionQueueAI.py:314-327 | lost planets were owned before and are not now; gained planets are owned now and were not before; old minus lost plus gained is what is owned now |
| ProductionQueueAI.Orderable | default/python/AI/ProductionQueueAI.py:215-224 | only BUILDING and SHIP have an enqueue order, a building ordered by name and a ship by design id |
| ProductionQueueAI.KeyBag | default/python/AI/ProductionQueueAI.py:91-108 | the keys (everything but the current priority) of a list, one per entry |
| ProductionQueueAI.KeysReplace | default/python/AI/ProductionQueueAI.py:95-108 | rescheduling one entry keeps the multiset of keys |
| ProductionQueueAI.KeysRemove | default/python/AI/ProductionQueueAI.py:95 | popping an entry removes exactly its key |
| ProductionQueueAI.KeysInsert | default/python/AI/ProductionQueueAI.py:108 | inserting an entry adds exactly its key |
| ProductionQueueAI.RequeueFallback | default/python/AI/ProductionQueueAI.py:290-299 | the fallback entry keeps the type, item and location and carries the next sentinel priority, at least `invalid` |
| ProductionQueueAI.BuildingLocations | default/python/AI/ProductionQueueAI.py:308-310 | the locations listed for a building name are at most one per entry |
| ProductionQueueAI.ListsBuildingsStep | default/python/AI/ProductionQueueAI.py:307-310 | a map that lists exactly the buildings of a prefix, updated for one more entry as the loop does, lists exactly the buildings of the longer prefix: a building entry extends its own name's list and no other |
| ProductionQueueAI.RescheduledTransitive | default/python/AI/ProductionQueueAI.py:91-110 | two rescheduling steps compose: lengths, keys, alignment and "only requeues" are kept |
| ProductionQueueAI.ReplaceRescheduled | default/python/AI/ProductionQueueAI.py:93-110 | one rescheduling step (pop, re-insert at bisect_left, requeue if the index changed) keeps lengths and keys, issues only a requeue, and keeps alignment unless the requeue is refused |
| ProductionQueueAI.EnqueueKeeps | default/python/AI/ProductionQueueAI.py:241-260 | a fresh entry at its bisect rank mirrors the engine after the requeue; after a refused requeue the entry popped and appended as the fallback mirrors the engine |
| ProductionQueueAI.TrackedFacts | default/python/AI/ProductionQueueAI.py:241-260 | after the bookkeeping of an accepted enqueue at most one order (the requeue from the tail to the bisect rank) is logged; with no refusal the entry sits at its bisect rank, the counter is unchanged and a sorted list stays sorted; with a refusal there is exactly one more, the entry is at the tail with the next sentinel and the counter is one higher; an aligned list stays aligned either way |
| ProductionQueueAI.EnqueueFallbackAligned | default/python/AI/ProductionQueueAI.py:299 | appending a matching entry for the element at the engine's tail keeps the queues aligned |
| ProductionQueueAI.ProductionQueueManager.constructor | default/python/AI/ProductionQueueAI.py:55-58 | empty list, no sentinels handed out, last update -1 |
| ProductionQueueAI.ProductionQueueManager.FromState | default/python/AI/ProductionQueueAI.py:63-67 | restoring a saved state gives back the saved list and counter and forgets the update turn |
| ProductionQueueAI.ProductionQueueManager.ResolveProductionQueueDiff | default/python/AI/ProductionQueueAI.py:114-187 | the in-place pass leaves exactly the list, counter and finished/lost/conquered lists of the reconciliation specification |
| ProductionQueueAI.ProductionQueueManager.ResolveElement | default/python/AI/ProductionQueueAI.py:132-170 | one element's step (conquer, or drop entries until one matches) advances the reconciliation by one element |
| ProductionQueueAI.ProductionQueueManager.AddConquered | default/python/AI/ProductionQueueAI.py:138-148 | an element on a gained planet gets a conquered entry with the next sentinel at its own index, which advances the reconciliation by one element |
| ProductionQueueAI.ProductionQueueManager.DropUntilMatch | default/python/AI/ProductionQueueAI.py:155-170 | entries at the cursor are popped into the lost or finished list until one matches the element or the list runs out, keeping the reconciliation's cursor invariant |
| ProductionQueueAI.ProductionQueueManager.UpdateProductionPriorities | default/python/AI/ProductionQueueAI.py:88-112 | the pass is a trace of states from the old list, elements and log to the new ones, each step rescheduling the next entry of the copy as `ReschedulesAs` says; it keeps both queues' lengths and the entries' keys, issues only requeues, and keeps the queues aligned unless a requeue is refused |
| ProductionQueueAI.ProductionQueueManager.RescheduleEntry | default/python/AI/ProductionQueueAI.py:93-110 | the entry is popped from the first index holding it (the corrected lookup of the bisect_left finding below) and re-inserted with priority `base * (1 - progress / cost)` at the bisect_left rank of the list without it; exactly the order `Requeue(idx, new_index)` is logged when that rank differs from the index, and nothing otherwise; an accepted requeue moves the element, a refused one leaves the engine queue as it was |
| ProductionQueueAI.Decayed | default/python/AI/ProductionQueueAI.py:105-106 | the rescheduled entry keeps its key (base priority, type, item, location); with a non-negative base and progress within the cost its new priority lies between 0 and the base |
| ProductionQueueAI.PassTraceStep | default/python/AI/ProductionQueueAI.py:91-110 | a trace of the pass over a prefix of the copy, extended by one rescheduling step of the next entry, is a trace of the pass over the longer prefix |
| ProductionQueueAI.ProductionQueueManager.EnqueueItem | default/python/AI/ProductionQueueAI.py:198-271 | an invalid type changes nothing and returns False; otherwise the enqueue order is issued; a refusal changes nothing; on success the engine has appended exactly one element matching the entry, and the list, the engine queue, the log and the counter are the `TrackedOutcome` of the bookkeeping: the entry at its bisect rank, and, unless that rank is the tail, exactly one requeue from the tail to the rank logged after the enqueue order, with the element moved there if accepted and the entry appended with a sentinel if refused; alignment is kept, and so is sortedness when nothing was refused |
| ProductionQueueAI.ProductionQueueManager.TrackEnqueued | default/python/AI/ProductionQueueAI.py:241-260 | the new list, elements, log and counter are the `TrackedOutcome` of the old ones: the entry at its bisect rank, a requeue from the tail unless that rank is the tail, and on a refusal the entry taken out and appended with the next sentinel (what this outcome guarantees is `TrackedFacts`) |
| ProductionQueueAI.ProductionQueueManager.HandleErrorOnRequeue | default/python/AI/ProductionQueueAI.py:290-299 | the corrected handler appends the popped entry with the next sentinel priority and counts the sentinel |
| ProductionQueueAI.ProductionQueueManager.DequeueItemByIndex | default/python/AI/ProductionQueueAI.py:273-288 | the dequeue order is issued; the result is returned; the entry is deleted only when the order is accepted; an accepted order has its index in the engine's range and removes exactly that engine element; on aligned queues this never raises and keeps them aligned |
| ProductionQueueAI.ProductionQueueManager.GetAllQueuedBuildings | default/python/AI/ProductionQueueAI.py:301-311 | a name maps to the locations of its building entries in queue order, and only names with such entries appear |
| ProductionQueueAI.ProductionQueueManager.UpdateForNewTurn | default/python/AI/ProductionQueueAI.py:75-86 | a second call in the same turn changes nothing; otherwise the list is first reconciled into the `Resolve` result, and then every entry of it is given its decayed priority and re-ranked: the returned trace runs from the reconciled list with the old engine queue and log to the final list, engine queue and log, each step rescheduling the next reconciled entry as `RescheduleEntry` does; keys, the engine's length and alignment are kept, only requeues are issued, and a sorted list stays sorted when nothing was conquered |
| QueueFindings.PopAtBisectLeft | default/python/AI/ProductionQueueAI.py:93-95 | pop at the bisect_left index raises exactly when that index is the list's end, and otherwise removes the entry there |
| QueueFindings.PopAtBisectLeftOnSorted | default/python/AI/ProductionQueueAI.py:93-95 | on a sorted list holding the entry, the bisect_left pop removes exactly that entry |
| QueueFindings.BisectLeftMissesConqueredEntry | default/python/AI/ProductionQueueAI.py:93-103 | after reconciliation puts a conquered entry in front of an ordinary one, bisect_left misses it and the pop raises, though the entry is at index 0 |
| QueueFindings.HandleErrorOnRequeueAsWritten | default/python/AI/ProductionQueueAI.py:290-299 | the handler as written raises before it appends or counts anything |
| QueueFindings.RefusedMoveAsWrittenMisaligns | default/python/AI/ProductionQueueAI.py:257-260 | after a refused move the handler as written leaves the shadow list one entry short of the engine, where the corrected fallback keeps them aligned |
| LegacyProductionQueue.LegacyConqueredEntry | default/AI/ProductionAI.py:1694-1702 | the older conquered entry has priority 0.0 and the swapped item type: a building is recorded as a ship and a ship as a building |
| LegacyProductionQueue.LegacyConqueredPasses | default/AI/ProductionAI.py:1692-1704 | n passes of the older conquered branch grow the list by exactly n entries |
| LegacyProductionQueue.LegacyConqueredLoopGrows | default/AI/ProductionAI.py:1692-1704 | after n passes of the older loop on a conquered element, n copies have been inserted and the loop is still in the conquered branch |
| LegacyProductionQueue.LegacyConqueredBuildingUnlisted | default/AI/ProductionAI.py:1697-1699 | a conquered building is missing from the older building listing and present in the corrected one |
| LegacyProductionQueue.ItemField | default/AI/ProductionAI.py:1816 | `tup[3]` exists exactly for a five-field row |
| LegacyProductionQueue.ItemListing | default/AI/ProductionAI.py:1816 | the item listing succeeds exactly when every row has five fields, and then lists each row's item |
| LegacyProductionQueue.LegacyHandleErrorAsWritten | default/AI/ProductionAI.py:1837-1847 | the older handler appends a nested three-field row with the sentinel `PRIORITY_INVALID + n` and bumps the counter |
| LegacyProductionQueue.LegacyRequeueFallback | default/AI/ProductionAI.py:1837-1847 | the intended older fallback keeps type, item and location, with priority `PRIORITY_INVALID + n` |
| LegacyProductionQueue.LegacyHandlerBreaksListing | default/AI/ProductionAI.py:1843-1846 | after the older handler runs, listing the items fails, though the intended fallback lists them |
| LegacyProductionQueue.Gathered | default/AI/ProductionAI.py:1888-1896 | the pairs gathered are exactly (distance, system) for valid systems whose jump distance is known |
| LegacyProductionQueue.ClosestSystem | default/AI/ProductionAI.py:1886-1897 | (-1, 9999) when no distance is known; otherwise the least (distance, system) pair gathered |
| LegacyProductionQueue.GatherDistances | default/AI/ProductionAI.py:1888-1895 | the loop gathers `(distance, system)` for exactly the valid systems whose distance is known, in input order |
| LegacyProductionQueue.LeastPair | default/AI/ProductionAI.py:1896 | the first pair of the sorted list: a gathered pair that no other gathered pair precedes |
| DesignCost.CostKey | default/python/AI/ProductionAI.py:88-92 | a location-invariant design is keyed at `INVALID_ID`, any other at its planet |
| DesignCost.SetDefault | default/python/AI/ProductionAI.py:93 | `setdefault` keeps a cost already cached and stores the queried one otherwise; the result is what is cached |
| DesignCost.DesignCostCache.constructor | default/python/AI/ProductionAI.py:28 | the initial cache holds turn 0 with a zero cost at (-1, -1) |
| DesignCost.DesignCostCache.GetDesignCost | default/python/AI/ProductionAI.py:72-93 | only the current turn's costs are kept; a new turn starts empty; the cost returned is the one cached under its key |
| DesignCost.SecondLookupKeepsFirst | default/AI/ProductionAI.py:90-111 | a second lookup of the same key on the same turn returns the first cost and changes nothing |
| DesignCost.LocationInvariantShared | default/python/AI/ProductionAI.py:88-93 | a location-invariant design looked up at one planet gives the same cost at every other planet |
| BestShip.QueriedPlanets | default/python/AI/ProductionAI.py:121-128 | no location means all population centres; a list is intersected with them; an int must be one of them; anything else gives up |
| BestShip.ChosenIndex | default/python/AI/ProductionAI.py:134-137 | the search stops at the first design buildable at a queried planet, or at the last design |
| BestShip.LocsOf | default/python/AI/ProductionAI.py:138 | the valid locations are exactly the planets of the ranked designs with the chosen rating and design id |
| BestShip.GetBestShipInfo | default/python/AI/ProductionAI.py:119-141 | nothing when the query fails or there are no designs; otherwise the design at the chosen index and its valid locations |
| BestShip.FirstBuildable | default/python/AI/ProductionAI.py:134-137 | the search stops at the first design buildable at a queried planet, or at the last design |
| BestShip.ValidLocs | default/python/AI/ProductionAI.py:138 | the planets of exactly the ranked entries with the chosen rating and design, in rank order |
| BestShip.ChosenPlanetListed | default/AI/ProductionAI.py:160-166 | the chosen design's own planet is among its valid locations |
| Shipyard.BestRating | default/AI/ShipyardAI.py:77-93 | the best rating is at least the old best and every improving rating, and is the old best or one of those |
| Shipyard.RatedAt | default/AI/ShipyardAI.py:86-92 | the planets listed are exactly the improving planets with that rating |
| Shipyard.CandidateList | default/AI/ShipyardAI.py:76-96 | the loop ends with the best rating, improvement exactly when it beats the old best, and the improving planets of that rating |
| Shipyard.TotalPPCost | default/AI/ShipyardAI.py:412-417 | own cost plus the cost of every missing prerequisite |
| Shipyard.SumNonNegative | default/AI/ShipyardAI.py:415-416 | missing prerequisites never lower the cost |
| Shipyard.MinDistance | default/AI/ShipyardAI.py:391-397 | the distance is at most `INVALID_DISTANCE` and at most every yard distance, and is one of them or `INVALID_DISTANCE` |
| Shipyard.MinimumDistanceToYards | default/AI/ShipyardAI.py:391-397 | the loop computes that minimum |
| Shipyard.LeastCost | default/AI/ShipyardAI.py:131-138 | the least cost is at most 99999 and every candidate's cost, and is attained or 99999 |
| Shipyard.CostingExactly | default/AI/ShipyardAI.py:134-138 | exactly the candidates of that cost, in order |
| Shipyard.CheapestCandidates | default/AI/ShipyardAI.py:128-140 | the loop returns exactly the candidates of least cost, in order |
| Shipyard.CheapestStep | default/AI/ShipyardAI.py:132-138 | one more candidate: a strictly cheaper one becomes the least cost and the whole list, one of equal cost joins the list, a dearer one changes nothing |
| Shipyard.NoneCheapEnough | default/AI/ShipyardAI.py:131-138 | when every candidate costs more than 99999, none is returned |
| Shipyard.FurthestIndex | default/AI/ShipyardAI.py:145-151 | none when every distance is at most -1; otherwise the first candidate of greatest distance |
| Shipyard.FurthestCandidate | default/AI/ShipyardAI.py:143-156 | the loop returns that candidate |
| Shipyard.Spaced | default/AI/ShipyardAI.py:68 | exactly the candidates at least `minimum_spacing` jumps from the existing yards |
| Shipyard.Candidates | default/AI/ShipyardAI.py:102-107 | one candidate per planet, carrying the best rating, the improvement flag, its distance and its cost |
| Shipyard.Pick | default/AI/ShipyardAI.py:65-71 | a pick is one of the candidates and has a known distance; unless the shipyard is a global improvement it is at least `minimum_spacing` jumps from the existing yards |
| Shipyard.PickIsCheapest | default/AI/ShipyardAI.py:65-71 | a pick is a candidate at least `minimum_spacing` away unless it is a global improvement, has a known distance, and costs no more than any other eligible candidate |
| Shipyard.PickIsFurthest | default/AI/ShipyardAI.py:65-71 | among the eligible candidates of least cost the pick has the greatest distance to the existing yards, and there is no pick exactly when all of them have an unknown distance |
| Shipyard.FurthestOfAll | default/AI/ShipyardAI.py:143-151 | no furthest candidate exactly when every candidate's distance is unknown; otherwise no candidate is further than the one chosen |
| Shipyard.GetCandidate | default/AI/ShipyardAI.py:52-72 | no candidate without an improving planet; otherwise the pick from the candidates of the best rating |
| Shipyard.BestShipInfoTuple | default/AI/ProductionAI.py:137-167 | the result is always a three-value tuple, holding the valid locations third |
| Shipyard.UnpackOldBest | default/AI/ShipyardAI.py:75 | a four-name unpack of a tuple of any other length raises |
| Shipyard.CandidateListAsWrittenRaises | default/AI/ShipyardAI.py:75 | unpacking the three-value result into four names raises on every call |
| FreeOrionTools.Upper | default/python/AI/freeorion_tools/_freeorion_tools.py:32 | `upper` maps ASCII lower-case letters to upper case and keeps every other character |
| FreeOrionTools.SplitOnce | default/python/AI/freeorion_tools/_freeorion_tools.py:31 | `split("_", 1)` gives the text before the first `_` and the rest, and they join back to the tag |
| FreeOrionTools.TagGrade | default/python/AI/freeorion_tools/_freeorion_tools.py:21-34 | "" when no tag is of the form X_TYPE; otherwise the X of the first such tag |
| FreeOrionTools.TagGradeRoundTrip | default/python/AI/freeorion_tools/_freeorion_tools.py:30-33 | a grade written as GRADE_TYPE in front of any tags is read back |
| FreeOrionTools.Join | default/python/AI/freeorion_tools/_freeorion_tools.py:79 | joining nothing gives "" |
| FreeOrionTools.PP | default/python/AI/freeorion_tools/_freeorion_tools.py:72-89 | lists render in [], tuples in (), dicts and sets in {}, strings quoted, anything else by `str` |
| FreeOrionTools.PPBalanced | default/python/AI/freeorion_tools/_freeorion_tools.py:78-85 | every bracket `ppstring` writes is closed, for each bracket kind, when no string inside holds one |
| FreeOrionTools.SessionCache.constructor | default/python/AI/freeorion_tools/_freeorion_tools.py:156 | the cache starts empty and nothing has been computed |
| FreeOrionTools.SessionCache.Call | default/python/AI/freeorion_tools/_freeorion_tools.py:159-165 | a cached key returns its cached value and computes nothing; a new key stores and returns the result of computing once |
| FreeOrionTools.TurnCaches.constructor | default/python/AI/freeorion_tools/_freeorion_tools.py:184 | no function has a cache yet |
| FreeOrionTools.TurnCaches.Call | default/python/AI/freeorion_tools/_freeorion_tools.py:180-186 | without an AI state the function runs and nothing is stored; otherwise a value cached for the name and turn is returned, or the result is stored once |
| FreeOrionTools.SameTurnSameValue | default/python/AI/freeorion_tools/_freeorion_tools.py:184-186 | two calls on the same turn return the same value, whatever the function would return the second time |
| FreeOrionTools.DictToTuple | default/python/AI/freeorion_tools/_freeorion_tools.py:190-191 | the items of the dict, each key exactly once, in some order |
| FreeOrionTools.DictOfHolds | default/python/AI/freeorion_tools/_freeorion_tools.py:196 | `dict(items)` holds exactly the items' keys, each with the value of its last item |
| FreeOrionTools.TupleToDict | default/python/AI/freeorion_tools/_freeorion_tools.py:194-202 | a lone pair becomes a one-entry dict; an argument that is neither pairs nor one pair an empty dict; an item of the wrong length raises (`None`), and that is the only failing case |
| FreeOrionTools.DictOfEnumeratedKeys | default/python/AI/freeorion_tools/_freeorion_tools.py:190-196 | `dict()` of a dict's items has exactly the dict's keys |
| FreeOrionTools.TupleToDictInvertsDictToTuple | default/python/AI/freeorion_tools/_freeorion_tools.py:190-196 | `tuple_to_dict(dict_to_tuple(d)) == d`, whatever order the items come in |
| UniverseUtils.SupplyTechRange | default/AI/UniverseUtilsAI.py:22-28 | the sum of the completed techs' supply ranges, never negative when no range is |
| UniverseUtils.SupplyTechRangeMonotone | default/AI/UniverseUtilsAI.py:22-28 | completing more techs (of non-negative range) never lowers the supply tech range |
| UniverseUtils.SupplyTechRangeNone | default/AI/UniverseUtilsAI.py:28 | with no tech completed the range is 0 |
| UniverseUtils.Max | default/AI/UniverseUtilsAI.py:97-98 | `max` of a non-empty table is in it and at least every value |
| UniverseUtils.PotentialSupplyDistance | default/AI/UniverseUtilsAI.py:88-103 | the potential distance is at least tech range + size supply + species modifier + 1 for every size and species, and equals it for some |
| UniverseUtils.Tier | default/AI/UniverseUtilsAI.py:57 | `min(0, supply)` is never positive |
| UniverseUtils.AllSystemsBySupplyTier | default/AI/UniverseUtilsAI.py:48-70 | every system is listed once, under its tier, and every tier used is a key |
| UniverseUtils.SystemsInTier | default/AI/UniverseUtilsAI.py:73-85 | a tier not in the map has no systems |
| UniverseUtils.SystemsInTierExactly | default/AI/UniverseUtilsAI.py:73-85 | a system is listed under a tier exactly when its supply projection puts it there |
| UniverseUtils.AnnexableSystemIds | default/AI/UniverseUtilsAI.py:106-119 | the union of the systems of tiers 0 down to -distance |
| UniverseUtils.AnnexableBySupply | default/AI/UniverseUtilsAI.py:115-119 | a system is annexable exactly when its supply projection is at least -distance |
| UniverseUtils.Within | default/AI/UniverseUtilsAI.py:152-161 | the systems within d jumps include the starting ones |
| UniverseUtils.RingIsExactDistance | default/AI/UniverseUtilsAI.py:154-161 | ring d holds exactly the systems d jumps from the supplied ones and no closer |
| UniverseUtils.AnnexableSystemsOld | default/AI/UniverseUtilsAI.py:141-164 | for each d from 1 to the distance, ring d is the systems exactly d jumps away; ring 0, shared with the covered set, ends as everything within the distance |
| UniverseUtils.AddRing | default/AI/UniverseUtilsAI.py:154-161 | one pass of the outer loop turns the rings up to n into the rings up to n + 1: the new ring is the uncovered neighbours of ring n, and ring 0 grows by it |
| UniverseUtils.RingsStep | default/AI/UniverseUtilsAI.py:155-161 | adding the uncovered neighbours of ring n as ring n + 1, and to ring 0, keeps every ring d the systems exactly d jumps away and ring 0 everything within n + 1 jumps |
| UniverseUtils.RingNeighbors | default/AI/UniverseUtilsAI.py:155-157 | the loop gathers exactly the neighbours of the ring |

## Left out

- The engine's queue is not modelled in detail. Whether it accepts an order is a nondeterministic choice. So are the progress and the cost of an element it appends, beyond the cost being positive.
- `Engine.EngineQueue.Valid`: every engine element is taken to have a positive total cost. With a zero cost, `base_priority * (1 - progress / total_cost)` at default/python/AI/ProductionQueueAI.py:105 raises `ZeroDivisionError` out of `update_for_new_turn`. That path is not modelled: `RescheduleEntry` and `UpdateForNewTurn` require a valid engine.
- Out-of-range indices: a Python exception from an order is modelled as a refusal. Out-of-range requeue and dequeue indices are taken to be refused, as the C++ side checks them.
- Printing, `print_error` and the `print_enqueue_errors` flag are logging only, and are not modelled.
- `fo.currentTurn()`, the universe's planet ownership and the AI state's outpost and population-centre lists are parameters. The same goes for jump distances, starlanes, ratings from the ship designer and building costs.
- `ProductionQueueAI.ProductionQueueManager.GetState` has no contract beyond its body. `FromState` states the round trip.
- `__len__` and `__repr__` are not modelled, being length and printing.
- `_update_production_priorities` reads the engine's element at the popped index. The model reads it from the engine queue at that index, with progress and cost as stored there.
- The `except ValueError` around the pop cannot catch the `IndexError` that an out-of-range pop raises. The model shows that raise (`QueueFindings.PopAtBisectLeft`) rather than the except branch.
- Floating point: priorities and costs are exact reals. `1e10`, `1e-9` and the decay are real arithmetic, without rounding.
- `INVALID_ID` is taken to be -1, matching the older file. `AIDependencies` is not part of this model.
- `design.productionCost(...)` is the `queried` parameter. Python evaluates it even when the key is cached, which has no visible effect here.
- `_best_military_design_rating_cache` and the design cache's construction are not part of this model.
- The `stats` fifth field of a design tuple in the newer `get_best_ship_info` is not modelled. It is unpacked but never used.
- `fo.getShipDesign(top_id)` is represented by the design id alone.
- `ShipyardManager` beyond the candidate choice is not modelled: `_possible_locations`, `_get_rating_improvements`, `_calc_missing_prereqs` and the building's prerequisites. Their results are parameters.
- `UniverseUtils.SupplyTechRange`: dict iteration order is given as a sequence. Only the completed techs' ranges are summed.
- `get_system_supply`, `check_supply` and `galaxy_is_sparse` are engine queries, and are not modelled.
- `annexable_systems_old` has no `return` statement, so its callers receive `None`. The model returns the rings it computes, which is what its body builds.
- The turn cache is keyed by the wrapped function's `__name__`, given as a string parameter. The wrapped function's result is a parameter too.
- The session cache's key `(function, args, kwargs)` is a single generic key.
- `FreeOrionTools.Upper`: only ASCII letters are upper-cased.
- `FreeOrionTools.DictOf`: its properties are stated by `DictOfHolds`, not by its own contract.
- `tuple_to_dict`'s second try on a `(k, v)` pair whose parts are themselves sequences is not modelled. The argument is classified up front as pairs, one pair, or malformed.
- The iteration order of Python dicts and sets is unspecified. The model leaves it open: a nondeterministic choice, or a sequence given as input.
- `ppstring` on nested strings holding brackets: `PPBalanced` requires plain text inside.
- The remaining helpers of `freeorion_tools` (`UserString`, `remove_tags`, chat and timing helpers) are not part of this model.

## Findings

| source | as written | input that shows it | evidently intended | confidence | as-written member | corrected member |
|---|---|---|---|---|---|---|
| default/python/AI/ProductionQueueAI.py:93-95 | rescheduling finds each entry with `bisect_left`, but reconciliation has just inserted conquered entries with sentinel priorities in front of ordinary ones, so the list is not sorted | last turn's list `[(100,100,BUILDING,'A',1)]`; this turn's engine queue a ship on newly gained planet 2, then building A at 1: bisect_left of the conquered entry returns 2 and the pop raises `IndexError`. The older copy at default/AI/ProductionAI.py:1735-1736 has the same lookup, but on this input it never gets there: it loops forever on the conquered ship, as the third row shows | locate the entry by searching the list | not executed | QueueFindings.BisectLeftMissesConqueredEntry | ProductionQueueAI.ProductionQueueManager.RescheduleEntry |
| default/python/AI/ProductionQueueAI.py:297 | `ProductionQueueElement(*[p, p, item_tuple[2:]])` passes three values to a five-field record and raises `TypeError`, after the entry was already popped | any enqueue whose move from the tail is refused: the shadow list ends one entry shorter than the engine's queue | append the entry `(p, p, type, item, loc)` with the next sentinel priority | not executed | QueueFindings.RefusedMoveAsWrittenMisaligns | ProductionQueueAI.ProductionQueueManager.TrackEnqueued |
| default/AI/ProductionAI.py:1692-1704 | `continue` inside `while True` re-enters the conquered branch for the same element, inserting a copy each pass | any element on a newly gained planet: the loop never ends | go on to the next element | not executed | LegacyProductionQueue.LegacyConqueredLoopGrows | ProductionQueueAI.ProductionQueueManager.ResolveElement |
| default/AI/ProductionAI.py:1697-1699 | the conquered entry's type is swapped: a ship element is recorded as a building and a building as a ship | a conquered building element: it is missing from `get_all_queued_buildings` | keep the element's own type | not executed | LegacyProductionQueue.LegacyConqueredBuildingUnlisted | Reconciliation.ConqueredEntry |
| default/AI/ProductionAI.py:1844-1846 | `tuple([p, p, item_tuple[2:]])` appends a three-field row whose third field is a nested tuple | any refused move from the tail: the listing `tup[3]` right after raises `IndexError` | a flat five-field row | not executed | LegacyProductionQueue.LegacyHandlerBreaksListing | LegacyProductionQueue.LegacyRequeueFallback |
| default/AI/ShipyardAI.py:75 | four names unpack the three-value result of `get_best_ship_info` | any call of `_get_candidate_list`: `ValueError` | take the old best locations and rating from the best design's info | not executed | Shipyard.CandidateListAsWrittenRaises | Shipyard.CandidateList |
