# TxnOpt in Dafny

This project models four parts of TxnOpt and proves what each is for.

1. **Exact charging.** The label-setting search for station insertion on a fixed customer order
   (`ChargingSearch`, `ExactCharging`), its native form that interleaves many routes in an arena of labels
   (`BatchLabels`, `BatchRounds`, `BatchKernel`), the splitting into chunks and merging of their outputs
   (`ParallelMerge`), the full output check (`BatchOutputs`), the independent route validator (`RouteValidator`), the
   safe screen (`SafeScreen`) and the tables in front of screen and validator (`RecencyCache`).
2. **The transaction runtime.** Admission in batches (`Admission`), the three evaluation modes with tasks that finish in
   any order (`Evaluation`), work ledger and waste bounds (`WorkLedger`), the cache (`CacheStore`), the run itself
   (`TxnRuntime`, specified by `RoundModel`), the independent replay of its trace (`RefinementReplay`), and the prepared
   round of the native path (`PreparedRound`).
3. **The native work pool**, as a state machine over the steps of callers and workers (`WorkPool`).
4. **Project scheduling.** The schedule validator (`ScheduleValidator`), the solver's constraints, horizon and precedence
   bound (`ScheduleEnvelope`) and the lexicographically smallest topological order (`TopologicalOrder`).

The main results, each for all inputs or all runs:

- a finished search returns a pattern that none beats by more than the tolerance, or there is none, in spite of dominance
  pruning and the best-so-far cut, wherever dominance is fair (`ChargingExactness.Exactness`); that holds at tolerance
  zero, and where every quantity of the instance is a multiple of a unit above the tolerance: there the search equals the
  one without tolerance and is exact (`GridInstances`);
- at every turn and tolerance the incumbent is the first best of all routes completed so far: none is shorter, and none as
  short finishes earlier (`BestSoFar.KeepsFirstBest`, `ExactCharging.AnswersFirstBest`); labels are taken off the queue by
  distance, time, progress and age, so distances never fall (`SearchOrder`); every label generated is pruned, completed or
  still held (`LabelAccounts.EveryLabelCounts`);
- at every tolerance the search finishes on every time window, vehicle and order over a network if and only if no two
  stations of the network share a place (`ChargingDivergence.TerminationCriterion`, by way of
  `TimedTermination.Terminates`);
- at every tolerance a pattern on which the battery is never clamped is accepted by the validator with equal totals
  (`SearchAgreement.PatternAccepted`), and any pattern is accepted if and only if each stretch between recharges keeps
  within battery and tolerance and the forgotten charging time keeps every later due date
  (`ClampedRoutes.AcceptedExactlyWhenBorne`);
- the screen never rejects an order that has an accepted route, at any tolerance (`ScreenSoundness.ScreenIsSafe`), and it
  passes an order if and only if the validator accepts it on relaxed problems: without energy use, leg by leg over
  stations, and customer by customer between two recharges (`ScreenMeaning.ScreensExactly`);
- at every tolerance, and whenever all searches halt or the deadline passes at some read, each route of an interleaved
  batch is reported exactly as its own search would end, or interrupted (`BatchKernel.RunExactChargingBatch`); merged
  chunks and whole batches agree (`ParallelMerge.MergedEqualsWhole`); every output passes the full check
  (`BatchOutputs.ReportedIsValid`); the searches alone tell when the deadline is read, and a route is interrupted if and
  only if the one read that decides about it is expired (`BatchReads`, `BatchKernel.RunExactChargingBatch`);
- every trace of a run, on every exit, is accepted by the replay, whose receipt names the state returned and counts the
  cache generations (`TxnRuntime.Run`, `TxnRuntime.RunAndReplay`); runs under different modes, workers,
  windows and finishing orders are equal (`ScheduleIndependence.RunsAgree`); the replay accepts exactly the well-formed
  traces, and those are runs of a one-owner model that moves only by atomic commits (`ReplaySoundness`);
- the cache holds exactly the evaluations of committed rounds, and its use changes no result (`CacheTransparency`);
- every end of a round has exactly its cause, told in terms of kernel, oracle and what happens from outside
  (`RoundOutcome.CommitsExactly`, `RoundExits.EndsExactly`), and its events say so (`RoundTrace`); nothing the oracle
  refuses is ever committed, cached or returned (`RoundOutcome.NothingInvalid`, `TxnRuntime.Run`);
- under every interleaving a normal return of a pool call means each index was executed once and each chunk left a
  receipt; the queue keeps its bound; no worker with work ever waits and nobody is left waiting (`PoolGuarantees`); every
  step taken unasked makes a measure fall, so all calls come to their end (`PoolProgress`); a call throws if and only if an
  index of it threw, a receipt was lost or the pool turned it away (`PoolErrors.ThrownExactly`); chunks are taken in the
  order in which they were queued (`PoolOrder`);
- endpoint checks suffice at every time; the solver's constraints and the validator describe the same schedules; the
  horizon cuts no optimum off (`ScheduleEnvelope`); the lower bound is the duration of the longest precedence chain
  (`PrecedenceChains`).

Six results are about where the code falls short of a plain reading, each with an input and a condition:

- stations at one place make the search run for ever, at every tolerance, because equal labels do not dominate each other
  (`ChargingDivergence.SpinsForever`); separated stations are exactly what excludes it;
- at every positive tolerance the search can end with a route its own validation rejects, because the battery is clamped
  at zero on each leg (`ScreenAndSearch.ToleranceMismatch`); `ClampedRoutes.AcceptedExactlyWhenBorne` says for which routes
  this happens, and `GridInstances.SharpClampFree` gives instances on which it never does;
- at every positive tolerance the search can end without a route although the validator accepts a pattern, because a label
  with less charge, within the tolerance, may prune another (`UnfairDominance.PatternLost`); where dominance is fair this
  never happens (`ChargingExactness.Exactness`), and it is fair exactly if each label that prunes another could stand in
  for it on every instance (`UnfairDominance.FairExactly`);
- a station that closes while the vehicle charges is lost to the search, which checks its due date after charging, and not
  to the validator (`EarlyStation.StationLost`); `SearchAgreement.PatternsAreAcceptedRoutes` says which routes the two have
  in common;
- a commit that publishes, leaves its transaction open and then cannot be shown ends as ABORTED although the store has
  changed (`CacheTransparency.AbortedYetPublished`); this happens exactly then, and with a closed transaction the round
  ends as INTERRUPTED with an unknown outcome (`CacheTransparency.HiddenPublication`);
- the idle test of the pool can pass before a popped chunk is executed (`PoolGuarantees.IdleTestIsEarly`); when the test
  passes, nothing is in flight if and only if no call has an unfinished chunk (`PoolGuarantees.IdleTestExactly`).

Numbers are exact reals, distance is an arbitrary metric, and the tolerance is a parameter `eps` of the search. Where the
docstring of `solve_exact_charging` claims exactness without a condition, the model follows the code and the results above
say when the claim holds. A node is its position in the instance, a deadline is a monotone sequence of answers, kernel and
oracle are functions, and what may happen from outside in a round (faults, stale snapshots, a store that breaks its
contract, the order in which evaluations finish) is a parameter of the run.

Run `dafny verify dfyconfig.toml` in this directory to verify everything.

## Model

| member | source | states |
|---|---|---|
| `EvrptwModel.LegTriangle` | src/txnopt_cases/evrptw/oracle.py:376-399 | energy and travel time obey the triangle inequality, so a detour over a station never costs less |
| `ChargingSearch.Successors` | src/txnopt_cases/evrptw/charging.py:182-203 | the moves are exactly the one onward and those to every station but the present one, at the same progress |
| `ChargingSearch.StationMoves` | src/txnopt_cases/evrptw/charging.py:182-203 | the station moves are those to every station but the present one, at the same progress |
| `ChargingSearch.Walk` | src/txnopt_cases/evrptw/charging.py:182-274 | the label of a path the extension rule allows carries exactly that path |
| `PriorityQueue.MinIndex` | src/txnopt_cases/evrptw/charging.py:41-45 | no entry of the queue comes before the one popped |
| `SearchOrder.TakesTheFirst` | src/txnopt_cases/evrptw/charging.py:86-126 | at every turn the label taken is the shortest; of equally short ones the earliest, then the furthest, then the oldest |
| `SearchOrder.DistancesGrow` | src/txnopt_cases/evrptw/charging.py:86-126 | labels taken off the queue never get shorter |
| `SearchOrder.MovesInOrder` | src/txnopt_cases/evrptw/charging.py:182-203 | the next customer or the depot is tried first, then the stations in the order of the instance |
| `SearchOrder.DominanceIsStrict` | src/txnopt_cases/evrptw/charging.py:277-288 | dominance is the strict part of being no worse up to the tolerance |
| `BestSoFar.KeepsFirstBest` | src/txnopt_cases/evrptw/charging.py:291-294 | at every turn the incumbent beats all routes completed before it, by distance and then finish, and none completed since beats it |
| `BestSoFar.TurnCounts` | src/txnopt_cases/evrptw/charging.py:86-126 | what a turn expands, generates, prunes and leaves alone |
| `LabelAccounts.EveryLabelCounts` | src/txnopt_cases/evrptw/charging.py:97-126 | labels generated, and turns cut off, make up labels pruned, held and completed |
| `ChargingExactness.AlwaysSound` | src/txnopt_cases/evrptw/charging.py:86-125 | at every turn, for every tolerance, all labels held are walks of the rule and the incumbent a complete one |
| `ChargingExactness.ExtendMonotone` | src/txnopt_cases/evrptw/charging.py:233-274 | at every tolerance, a label no worse in time, battery and distance can make every leg the other can, and stays no worse |
| `ChargingExactness.AlwaysClosed` | src/txnopt_cases/evrptw/charging.py:86-125 | where dominance is fair, every expanded label's moves are matched by a live label no worse, or cut by the incumbent |
| `ChargingExactness.WalkCovered` | src/txnopt_cases/evrptw/charging.py:86-142 | when the queue is empty every walk is matched by the incumbent, up to the tolerance, or by a live label no worse than it |
| `ChargingExactness.Exactness` | src/txnopt_cases/evrptw/charging.py:48-142 | where dominance is fair, a finished search has a route exactly when some pattern is feasible, and none is shorter by more than the tolerance |
| `UnfairDominance.PatternLost` | src/txnopt_cases/evrptw/charging.py:277-288 | for every positive tolerance, an order on which the finished search has nothing although a pattern exists and the validator accepts it |
| `UnfairDominance.ReplaceExactly` | src/txnopt_cases/evrptw/charging.py:277-288 | a label can make every leg another can, on every instance and at no greater distance, if and only if it is no worse in time, battery and distance |
| `UnfairDominance.FairExactly` | src/txnopt_cases/evrptw/charging.py:277-288 | dominance is fair if and only if each label that prunes another can stand in for it so |
| `GridInstances.SharpIsPlain` | src/txnopt_cases/evrptw/charging.py:86-125 | on an instance in units above the tolerance the search goes through the states of the one without tolerance |
| `GridInstances.SharpIsFair` | src/txnopt_cases/evrptw/charging.py:277-288 | on an instance in units above the tolerance dominance is fair |
| `GridInstances.SharpExactness` | src/txnopt_cases/evrptw/charging.py:48-142 | on an instance in units above the tolerance a finished search has a route exactly when some pattern is feasible, and none is shorter |
| `ChargingTermination.Detour` | src/txnopt_cases/evrptw/charging.py:182-203 | between stations at one progress the distance strictly grows and time does not fall |
| `ChargingTermination.ReturnDominated` | src/txnopt_cases/evrptw/charging.py:277-288 | at tolerance zero, coming back to a station at the same progress is dominated |
| `SearchMeasure.IterateLighter` | src/txnopt_cases/evrptw/charging.py:86-125 | at every tolerance, a turn makes the weighted sum over the queue smaller as long as paths keep within a length |
| `ChargingTermination.IterateTight` | src/txnopt_cases/evrptw/charging.py:86-125 | at tolerance zero a turn keeps all labels free of repeated stations at one progress |
| `ChargingTermination.TerminatesWithin` | src/txnopt_cases/evrptw/charging.py:86-125 | at tolerance zero and on separated stations the queue is empty after a number of turns computed from stations and customers |
| `TimedTermination.WalksBounded` | src/txnopt_cases/evrptw/charging.py:233-274 | at every tolerance due dates bound the length of all unfinished walks over separated stations |
| `TimedTermination.Terminates` | src/txnopt_cases/evrptw/charging.py:86-125 | at every tolerance, the search of a valid problem on separated stations comes to an empty queue |
| `ChargingDivergence.SpinsForever` | src/txnopt_cases/evrptw/charging.py:277-288 | at every tolerance, with two stations at one place the queue of a valid problem is never empty |
| `ChargingDivergence.TerminationCriterion` | src/txnopt_cases/evrptw/charging.py:86-125 | at every tolerance, all problems on a network halt if and only if its stations are separated |
| `ExactCharging.Visit` | src/txnopt_cases/evrptw/charging.py:97-125 | the inner loop over local variables files one extension as the model does |
| `ExactCharging.Search` | src/txnopt_cases/evrptw/charging.py:86-125 | whenever the search halts, at any tolerance, the loop ends in the final state of the model |
| `ExactCharging.SolveExactCharging` | src/txnopt_cases/evrptw/charging.py:48-166 | rejects bad orders; otherwise answers by the final state of the search: infeasible without a route, else the route with its totals if the validator accepts it, else a failure; which route that is, `AnswersFirstBest` says |
| `ExactCharging.AnswersFirstBest` | src/txnopt_cases/evrptw/charging.py:143-166 | the route answered is the first best of all the search has completed, and infeasible is answered exactly when it has completed none |
| `ExactCharging.FailsExactlyWhenNotBorne` | src/txnopt_cases/evrptw/charging.py:143-166 | the call fails on a route exactly if some node does not bear the forgotten overdrafts |
| `ExactCharging.FairAnswers` | src/txnopt_cases/evrptw/charging.py:48-166 | where dominance is fair, infeasible is answered exactly when there is no pattern, and no pattern beats the route by more than the tolerance |
| `ExactCharging.SharpAnswers` | src/txnopt_cases/evrptw/charging.py:48-166 | on units above the tolerance the call never fails, its route is a shortest pattern, and its totals are the validator's |
| `ExactCharging.EndsOnce` | src/txnopt_cases/evrptw/charging.py:86-125 | a search has one final state |
| `RouteValidator.LegEffect` | src/txnopt_cases/evrptw/validation.py:238-270 | what a leg does to clock and battery, and that it adds one violation per failed check |
| `RouteValidator.DriveRoute` | src/txnopt_cases/evrptw/validation.py:232-270 | the loop over legs computes the drive of the model |
| `RouteValidator.ValidateRoute` | src/txnopt_cases/evrptw/validation.py:208-280 | the whole report, unknown nodes included |
| `RouteValidator.ReportLists` | src/txnopt_cases/evrptw/validation.py:208-280 | each violation is listed exactly when there is one of its kind, at its leg |
| `SearchAgreement.WalkAgrees` | src/txnopt_cases/evrptw/charging.py:233-274 | at every tolerance, while no leg costs more than the battery at hand, validator and search have the same clock, battery and totals, and no violation |
| `SearchAgreement.WalkPlaced` | src/txnopt_cases/evrptw/charging.py:182-203 | at every tolerance a walk visits known nodes and has served its customers in the given order |
| `SearchAgreement.NoClamp` | src/txnopt_cases/evrptw/charging.py:243-250 | at tolerance zero no leg costs more than the battery at hand |
| `GridInstances.SharpClampFree` | src/txnopt_cases/evrptw/charging.py:243-250 | on an instance in units above the tolerance no leg of a walk costs more than the battery at hand |
| `ClampedRoutes.DriveCompared` | src/txnopt_cases/evrptw/validation.py:232-270 | at every tolerance, battery and clock of the validator in terms of the search's, and when it has seen no violation |
| `ClampedRoutes.AcceptedExactlyWhenBorne` | src/txnopt_cases/evrptw/validation.py:208-280 | at every tolerance a pattern is accepted if and only if its stretches keep within battery and tolerance and due dates are kept with all overdrafts charged for |
| `SearchAgreement.PatternAccepted` | src/txnopt_cases/evrptw/charging.py:143-166 | at every tolerance, a pattern without clamping is accepted by the validator with equal distance, energy, charge, charging time and finish, and serves the order |
| `SearchAgreement.PatternsAreAcceptedRoutes` | src/txnopt_cases/evrptw/validation.py:208-280 | at every tolerance, patterns without clamping and accepted routes that leave stations in time and overdraw nothing have the same distances, both ways |
| `SearchAgreement.OutlastingIsInTime` | src/txnopt_cases/evrptw/charging.py:254-262 | if stations outlast the depot, an accepted route leaves every station in time, at every tolerance |
| `EarlyStation.StationLost` | src/txnopt_cases/evrptw/charging.py:254-262 | an order without a pattern for which the validator accepts a route over a station that closes on arrival |
| `GridInstances.ShortestAccepted` | src/txnopt_cases/evrptw/charging.py:48-166 | if stations outlast the depot, on units above the tolerance no accepted route for the order is shorter than the search's |
| `SafeScreen.EnergyReachableOptimistically` | src/txnopt_cases/evrptw/oracle.py:376-399 | the depth-first search answers whether a chain of affordable hops over stations exists |
| `SafeScreen.ForwardPass` | src/txnopt_cases/evrptw/oracle.py:322-335 | earliest arrivals by customer, and whether all due dates are met |
| `SafeScreen.BackwardPass` | src/txnopt_cases/evrptw/oracle.py:337-353 | latest arrivals by customer |
| `SafeScreen.ScreensOnTime` | src/txnopt_cases/evrptw/oracle.py:322-357 | both passes together decide the time test |
| `SafeScreen.FitsStructurally` | src/txnopt_cases/evrptw/oracle.py:364-373 | the structural energy bound decides whether each customer fits between its nearest recharge nodes |
| `SafeScreen.ScreenRoute` | src/txnopt_cases/evrptw/oracle.py:225-243 | load, time, reachability and structure together; what they mean, `ScreensExactly` says |
| `ScreenMeaning.ScreensExactly` | src/txnopt_cases/evrptw/oracle.py:225-243 | an order passes if and only if the validator accepts it as it stands without energy use, drives each of its legs over stations on a full battery, and each customer between two recharges |
| `ScreenMeaning.RelaxedHasRoute` | src/txnopt_cases/evrptw/oracle.py:316-357 | without energy use, the order as it stands is accepted if and only if any route for it is |
| `ScreenMeaning.BackwardFollows` | src/txnopt_cases/evrptw/oracle.py:337-357 | an order that passes the forward pass passes the backward pass |
| `ScreenSoundness.ScreenIsSafe` | src/txnopt_cases/evrptw/oracle.py:316-399 | an order with an accepted route, at any tolerance, is never rejected |
| `ScreenAndSearch.RejectedIsInfeasible` | src/txnopt/contracts.py:183 | on units above the tolerance a rejected order has no pattern, so the search finds it infeasible |
| `ScreenAndSearch.RejectedIsNeverReturned` | src/txnopt/contracts.py:183 | at any tolerance no validated route exists for a rejected order |
| `ScreenAndSearch.ToleranceMismatch` | src/txnopt_cases/evrptw/charging.py:243-250 | for every positive tolerance, an instance on which the search ends with a route that validation and screen reject |
| `BatchLabels.PathsInjective` | cpp/txnopt_cases/evrptw/exact_kernels.hpp:155-168 | arena labels with distinct steps have distinct paths |
| `BatchLabels.ReconstructPath` | cpp/txnopt_cases/evrptw/exact_kernels.hpp:155-168 | following parents and reversing gives the path |
| `BatchRefinement.StartMirrors` | cpp/txnopt_cases/evrptw/exact_kernels.hpp:221-242 | a fresh arena mirrors the start of the search |
| `BatchRefinement.InsertMirrors` | cpp/txnopt_cases/evrptw/exact_kernels.hpp:379-414 | sweeping live flags and appending a label mirrors filing a label with its path |
| `BatchRefinement.HandleMirrors` | cpp/txnopt_cases/evrptw/exact_kernels.hpp:323-414 | handling one request mirrors relaxing one move: labels, queue order, incumbent and counters |
| `BatchRefinement.LiveMatches` | cpp/txnopt_cases/evrptw/exact_kernels.hpp:144-153 | a label's live flag is set exactly when the path-carrying search still holds it |
| `BatchRefinement.PopMirrors` | cpp/txnopt_cases/evrptw/exact_kernels.hpp:144-153 | both queues give up the same label |
| `BatchRounds.PopLiveMirrors` | cpp/txnopt_cases/evrptw/exact_kernels.hpp:144-153 | skipping stale entries is a number of turns of the search alone |
| `BatchRounds.CutTurn` | cpp/txnopt_cases/evrptw/exact_kernels.hpp:272-278 | a cut in a round is one turn of the search alone |
| `BatchRounds.ExpandTurn` | cpp/txnopt_cases/evrptw/exact_kernels.hpp:279-300 | an expansion with its requests still open is one turn of the search under way |
| `BatchRounds.FinishedIsFinal` | src/txnopt_cases/evrptw/charging.py:86-125 | at every tolerance, whenever the queue is empty, state and number of rounds are the same |
| `BatchKernel.VisitRoute` | cpp/txnopt_cases/evrptw/exact_kernels.hpp:250-301 | one route in one round: finished, cut or expanded, or the deadline passed; how many requests it makes and how often it reads the deadline; no other route changes |
| `BatchKernel.PopPhase` | cpp/txnopt_cases/evrptw/exact_kernels.hpp:246-302 | the pass over all routes keeps each at its own turn, and ends after as many reads and requests as the searches alone tell |
| `BatchKernel.RequestPhase` | cpp/txnopt_cases/evrptw/exact_kernels.hpp:313-417 | requests in batches of any size leave every route where its own search would be, with one read per batch |
| `BatchKernel.CarryOffsets` | cpp/txnopt_cases/evrptw/exact_kernels.hpp:454-458 | offsets carried over empty paths mark every path |
| `BatchKernel.WriteRows` | cpp/txnopt_cases/evrptw/exact_kernels.hpp:419-453 | rows, paths and their ends |
| `BatchKernel.RunExactChargingBatch` | cpp/txnopt_cases/evrptw/exact_kernels.hpp:170-460 | at every tolerance, and under every monotone deadline, if all searches halt or the deadline passes at some read, each route is interrupted with an empty row or has the status, reason, metrics, path, counters and round of its search alone; it is interrupted if and only if its search does not halt or the read that decides about it is expired; reads, batches, requests and the counters of routes cut off are those of such a run; the order lists completions by round |
| `BatchReads.OneTurn` | cpp/txnopt_cases/evrptw/exact_kernels.hpp:246-300 | how many requests a route makes in a round, by the one turn of its search that belongs to it |
| `BatchReads.ReadPlaced` | cpp/txnopt_cases/evrptw/exact_kernels.hpp:246-268 | where the read that decides about a route lies among the reads of a round |
| `BatchReads.SettledAt` | cpp/txnopt_cases/evrptw/exact_kernels.hpp:246-317 | when a read is found expired, the routes completed are those whose deciding read was not |
| `BatchReads.PendingAtTurn` | cpp/txnopt_cases/evrptw/exact_kernels.hpp:419-430 | the counters of a route cut off are those of a turn of its search in that round, but for the moves of one label |
| `BatchKernel.SeparatedEnds` | cpp/txnopt_cases/evrptw/exact_kernels.hpp:244-246 | on separated stations every batch ends, at every tolerance and whatever the deadline |
| `BatchOutputs.RecordedIsSorted` | cpp/txnopt_cases/evrptw/exact_kernels.hpp:531-556 | an order lists completions by round exactly when it is the stably sorted one |
| `BatchOutputs.PathChecked` | cpp/txnopt_cases/evrptw/exact_kernels.hpp:625-652 | the walk that matches customers decides whether a path starts and ends at the depot and keeps the order |
| `BatchOutputs.MarkSeen` | cpp/txnopt_cases/evrptw/exact_kernels.hpp:513-520 | the seen flags decide whether ordinals are in range and distinct |
| `BatchOutputs.TasksChecked` | cpp/txnopt_cases/evrptw/exact_kernels.hpp:576-591 | receipts cover all routes in adjoining chunks |
| `BatchOutputs.ValidateOutput` | cpp/txnopt_cases/evrptw/exact_kernels.hpp:463-676 | the check accepts exactly the valid outputs |
| `BatchOutputs.FinalRowAgrees` | cpp/txnopt_cases/evrptw/exact_kernels.hpp:438-452 | the row of a finished search has finite, non-negative metrics and a path in the given order, or is the infeasible row |
| `BatchOutputs.FinalIsFirstBest` | cpp/txnopt_cases/evrptw/exact_kernels.hpp:438-452 | the route reported is the first best of all its search has completed |
| `BatchOutputs.RowMatchesValidator` | cpp/txnopt_cases/evrptw/exact_kernels.hpp:438-452 | a finished row is infeasible exactly without completed route, and otherwise has the totals the validator computes for its path |
| `BatchOutputs.ReportedIsValid` | cpp/txnopt_cases/evrptw/exact_kernels.hpp:200-460 | whatever the deadline did, a reported output is valid |
| `StableSort.SortedRanked` | cpp/txnopt_cases/evrptw/parallel_exact.hpp:161-173 | sorting by key leaves a strictly rising sequence by key, then number |
| `StableSort.RankedOnce` | cpp/txnopt_cases/evrptw/parallel_exact.hpp:168-176 | there is one such sequence of given elements |
| `Partition.ContiguousChunks` | src/txnopt/runtime.py:1283-1295 | non-empty adjoining chunks that cover everything, in closed form |
| `Partition.ChunksAdjacent` | cpp/txnopt_cases/evrptw/parallel_exact.hpp:43-59 | chunks adjoin, cover all items, are not empty, and differ by at most one item, the larger first |
| `Partition.InOneChunk` | cpp/txnopt_core/concurrency.hpp:237-252 | no item lies in two chunks |
| `ParallelMerge.OffsetsAppend` | cpp/txnopt_cases/evrptw/parallel_exact.hpp:121-127 | rebased offsets mark the paths of the concatenation |
| `ParallelMerge.ChildJoined` | cpp/txnopt_cases/evrptw/parallel_exact.hpp:109-147 | appending a chunk's output reports its routes in their place |
| `ParallelMerge.OrderRebuilt` | cpp/txnopt_cases/evrptw/parallel_exact.hpp:161-176 | the order rebuilt from rounds is the one a whole batch records |
| `ParallelMerge.RunChunks` | cpp/txnopt_cases/evrptw/parallel_exact.hpp:62-90 | chunks searched in any order fill their own slots |
| `ParallelMerge.MergeChunks` | cpp/txnopt_cases/evrptw/parallel_exact.hpp:97-160 | the merge fails exactly on an invalid stamp, and otherwise reports all routes |
| `ParallelMerge.PhysicalOrder` | cpp/txnopt_cases/evrptw/parallel_exact.hpp:178-196 | the physical order lists every completed route once, chunks by finishing time |
| `ParallelMerge.RunExactChargingParallel` | cpp/txnopt_cases/evrptw/parallel_exact.hpp:25-198 | for any number of threads, schedule, stamps and deadlines the merged output reports, counts and passes the full check; it is put together from parts that interrupt exactly what their own deadlines cut off |
| `ParallelMerge.PartsOnTime` | cpp/txnopt_cases/evrptw/parallel_exact.hpp:97-147 | every part is settled by its own deadline, and batches, requests and reads add up |
| `ParallelMerge.SeparatedChunksEnd` | cpp/txnopt_cases/evrptw/parallel_exact.hpp:62-90 | on separated stations every chunk ends, at every tolerance and whatever its deadline |
| `ParallelMerge.MergedEqualsWhole` | cpp/txnopt_cases/evrptw/parallel_exact.hpp:97-176 | uninterrupted outputs for the same orders, merged or whole, agree in every field a caller reads |
| `RecencyCache.LruMemo.Resolve` | src/txnopt_cases/evrptw/validation.py:133-150 | answers like the computation, counts a hit exactly when the route is among the last distinct ones asked for, and holds exactly those |
| `RecencyCache.NewLast` | src/txnopt_cases/evrptw/oracle.py:225-243 | a new route pushes out the one asked for least recently |
| `Admission.AdmitCandidates` | src/txnopt/runtime.py:769-849 | the batched loops compute the scan of the model |
| `Admission.AdmissionExact` | src/txnopt/runtime.py:769-849 | admission is the first `limit` of the screened, deduplicated candidates; a scan that stops early has reached its limit; it fails only on an empty key or without candidates |
| `AdmissionWork.ScreensNoMore` | src/txnopt/runtime.py:787-849 | candidates are screened in batches of the limit, at most 64, as many as it takes to reach the limit and otherwise all; the admissible ones are counted |
| `WorkLedger.BudgetLedger.Remaining` | src/txnopt/_internal/budget.py:37-43 | started, reserved and remaining units make up the limit |
| `WorkLedger.BudgetLedger.Reserve` | src/txnopt/_internal/budget.py:49-66 | grants exactly what fits, and the receipt tells before and after |
| `WorkLedger.BudgetLedger.Start` | src/txnopt/_internal/budget.py:68-76 | moves reserved into started units, or refuses and changes nothing |
| `WorkLedger.AuditPasses` | src/txnopt/_internal/waste_bounds.py:80-119 | a transaction that started at most what it was granted passes the audit |
| `WorkLedger.AuditDecides` | src/txnopt/_internal/waste_bounds.py:72-108 | the audit refuses, and says why, exactly what exceeds the remaining work, the capacity, or the largest work of every candidate in the window |
| `Evaluation.FirstFailureWins` | src/txnopt/runtime.py:1118-1163 | a range evaluates to all values in order or to the fault of its first failing candidate |
| `Evaluation.RangeSplits` | src/txnopt/runtime.py:1165-1220 | evaluating in adjoining parts gives the same |
| `Evaluation.Await` | src/txnopt/runtime.py:1201-1203 | waiting for one future lets others finish in any order, and yields its own result |
| `Evaluation.EvaluateSerial` | src/txnopt/runtime.py:1127-1145 | one call: result of the whole range, ledger settled |
| `Evaluation.EvaluateBarrier` | src/txnopt/runtime.py:1165-1220 | chunks: same result, and running work within the round's work |
| `Evaluation.EvaluateOrdered` | src/txnopt/runtime.py:1222-1280 | window: same result, and running work within width times the largest work |
| `CacheStore.Store.Commit` | src/txnopt/_internal/cache.py:70-89 | values and generation become visible together, or the store stays as it was and the failure says why |
| `CacheStore.Store.Stage` | src/txnopt/_internal/cache.py:64-68 | entries wait in the transaction only |
| `CacheStore.Store.Rollback` | src/txnopt/_internal/cache.py:91-95 | closes and empties the transaction |
| `CacheStore.Store.ValidateReceipt` | src/txnopt/runtime.py:692-742 | the verdict on a commit from receipt, transaction and snapshot |
| `RoundNames.NamesDiffer` | src/txnopt/runtime.py:227-231 | zero-padded round names are distinct |
| `DigestText.DigestIsText` | src/txnopt/runtime.py:27 | a text is taken for a digest exactly if it is the lower-case hexadecimal text of 32 bytes |
| `RefinementReplay.ReplayBoundary` | src/txnopt_evidence/refinement.py:66-96 | accepts a boundary event exactly when it is well placed |
| `RefinementReplay.ReplayTransaction` | src/txnopt_evidence/refinement.py:97-182 | accepts a phase event exactly when it is well placed |
| `RefinementReplay.ReplayAggregateRefinement` | src/txnopt_evidence/refinement.py:39-198 | a receipt exactly for well-formed traces, and every field of it is true of the trace |
| `ReplaySoundness.StutteringRefinement` | src/txnopt_evidence/refinement.py:51-186 | every event stutters or is one atomic commit of state, generation and work |
| `ReplaySoundness.LedgerMonotone` | src/txnopt_evidence/refinement.py:141-160 | visible work and generation never fall |
| `ReplaySoundness.OneOwner` | src/txnopt_evidence/refinement.py:112-133 | the events of a transaction stand next to each other |
| `ReplaySoundness.OpenGoesOn` | src/txnopt_evidence/refinement.py:183-188 | an open transaction goes on at the next event, and no trace ends with one |
| `ReplaySoundness.CommitBlock` | src/txnopt_evidence/refinement.py:51-186 | each commit closes five neighbouring events: all private phases, one snapshot, one key set, just admitted |
| `ReplaySoundness.OnlyCommitsShow` | src/txnopt_evidence/refinement.py:66-182 | only commits show a state and a generation, and only interrupted transactions an open outcome |
| `ReplaySoundness.ScreenedIsTaken` | src/txnopt_evidence/refinement.py:66-126 | what is admitted is taken up by a transaction at the next event |
| `TxnRuntime.EndByRollback` | src/txnopt/runtime.py:680-689 | ends in the phase asked for, or raises what the rollback raised |
| `TxnRuntime.RecordWasteAudit` | src/txnopt/runtime.py:1071-1115 | the audit of a round that threw work away never raises |
| `TxnRuntime.CommitStage` | src/txnopt/runtime.py:528-660 | stage, commit and receipt check end as the model says for every store |
| `TxnRuntime.PublishStage` | src/txnopt/runtime.py:511-527 | decide, validate and compare the decision with what may be decided |
| `TxnRuntime.ResolveStage` | src/txnopt/runtime.py:458-509 | deadline, resolution and validation after the evaluation |
| `TxnRuntime.EvaluateStage` | src/txnopt/runtime.py:339-457 | evaluation of the misses in any mode ends as the model says |
| `TxnRuntime.ReserveStage` | src/txnopt/runtime.py:233-338 | begin, lookup, work units and reservation |
| `TxnRuntime.RunRound` | src/txnopt/runtime.py:148-660 | one round ends as the model says, with nothing left reserved |
| `TxnRuntime.Run` | src/txnopt/runtime.py:97-669 | result, trace and cache are those of the model, which knows neither mode nor finishing order; the oracle accepts the state returned and every value cached |
| `RoundOutcome.CommitsExactly` | src/txnopt/runtime.py:339-660 | a round commits if and only if it resolves usable states and the kernel's decision for one of them, or the old one, reaches a store that shows it |
| `RoundOutcome.ValidationFailsExactly` | src/txnopt/runtime.py:484-509 | a round fails validation if and only if the first resolved state not usable raises a ValueError and the rollback succeeds; state and cache stay |
| `RoundOutcome.NothingInvalid` | src/txnopt/runtime.py:97-669 | whatever happens, the state of a run and all cached values are accepted by the oracle; an initial state that is not raises at once |
| `RoundExits.EndsExactly` | src/txnopt/runtime.py:148-660 | each reason for an ordinary end has exactly its cause and is logged with its phase; which rounds go on |
| `RoundExits.ExceptionsEnd` | src/txnopt/runtime.py:233-660 | an exception of the cache, the oracle or the kernel ends the run under its name, with the transaction aborted |
| `RoundTrace.RoundLogs` | src/txnopt/runtime.py:185-232 | a round logs what it screened and admitted, then its transaction on the admitted keys and the visible state; earlier events stay |
| `RoundTrace.CommitTells` | src/txnopt/runtime.py:528-660 | a commit tells the state, generation and work it makes visible, how much it writes and whether it had to be repaired |
| `RoundTrace.TraceFramed` | src/txnopt/runtime.py:134-146 | a trace begins with seed and initial state and ends with the reason returned or raised |
| `RoundExits.StartsItsWork` | src/txnopt/runtime.py:285-338 | a round that goes on has started exactly the work of the candidates it evaluated, within the limit |
| `RoundExits.WithinLimit` | src/txnopt/runtime.py:97-669 | with fixed work a run never starts more than that |
| `TxnRuntime.RunAndReplay` | src/txnopt_evidence/refinement.py:39-198 | every trace emitted is accepted; the receipt names the state returned and counts commits and generations; the cache holds what was committed |
| `TraceCompleteness.RoundEnds` | src/txnopt/runtime.py:148-660 | every exit of a round leaves a trace that can be continued or closed |
| `TraceCompleteness.EmittedTracesReplay` | src/txnopt/runtime.py:913-933 | every trace a run emits is well formed, shows the digest of its last state, and counts its generations |
| `TraceCompleteness.AdmittedKeys` | src/txnopt/runtime.py:769-849 | admitted keys are distinct and not empty |
| `CacheTransparency.ResolvedIsFresh` | src/txnopt/runtime.py:434-483 | cached and new states together are the evaluations of all admitted candidates, in order |
| `CacheTransparency.CommitAtomic` | src/txnopt/runtime.py:692-742 | a commit that does not end as COMMITTED leaves the store alone if and only if the store did not publish what it could not show |
| `CacheTransparency.HiddenPublication` | src/txnopt/runtime.py:714-727 | which commits end as ABORTED, and which as INTERRUPTED with an unknown outcome, although the store has changed |
| `CacheTransparency.AbortedYetPublished` | src/txnopt/runtime.py:714-727 | a commit that ends as ABORTED, keeps the run's state and has published all staged values |
| `CacheTransparency.RoundAtomic` | src/txnopt/runtime.py:511-660 | a round publishes state and cache together or touches neither, but for that case |
| `CacheTransparency.RunMatches` | src/txnopt/runtime.py:478-660 | over a run the cache holds the evaluations of exactly the committed keys |
| `ScheduleIndependence.RunsAgree` | src/txnopt/runtime.py:1117-1280 | the model of a run is the same for every mode, worker count, window and finishing order |
| `ScheduleIndependence.SameResult` | src/txnopt/runtime.py:97-669 | two runs that differ only in these return equal states, reasons and traces |
| `PreparedRound.PreparedRoundTransaction.Reserve` | cpp/txnopt_core/round_transaction.hpp:70-79 | reserves all requested work, or aborts |
| `PreparedRound.PreparedRoundTransaction.Resolve` | cpp/txnopt_core/round_transaction.hpp:86-123 | which settlements are validated, interrupted or refused, and what they leave |
| `PreparedRound.PreparedRoundTransaction.Abort` | cpp/txnopt_core/round_transaction.hpp:125-134 | ends an open round; an ended one keeps its phase and loses its writes |
| `PreparedRound.PreparedRoundTransaction.ReceiptOf` | cpp/txnopt_core/round_transaction.hpp:136-156 | only ended rounds have a receipt; its ledger balances and writes mean complete work |
| `PreparedRound.TraceIsShort` | cpp/txnopt_core/round_transaction.hpp:176-185 | at most four phases, and a validated round went through all |
| `PreparedRound.AbortedValidation` | cpp/txnopt_core/round_transaction.hpp:125-134 | one round of one unit: aborted after validation it has a validated receipt without writes |
| `PoolSteps.EnqueueKeeps` | cpp/txnopt_core/concurrency.hpp:468-489 | enqueuing all chunks at once keeps the invariant of the pool |
| `PoolSteps.PopKeeps` | cpp/txnopt_core/concurrency.hpp:528-545 | popping a task and notifying one waiting caller keeps it |
| `PoolSteps.RunKeeps` | cpp/txnopt_core/concurrency.hpp:259-268 | running an index raises its count only |
| `PoolSteps.CompleteKeeps` | cpp/txnopt_core/concurrency.hpp:278-286 | completing a chunk lowers the count of unfinished ones |
| `PoolGuarantees.StepKeeps` | cpp/txnopt_core/concurrency.hpp:210-570 | every step of every thread keeps the invariant |
| `PoolGuarantees.NormalReturn` | cpp/txnopt_core/concurrency.hpp:210-319 | after a normal return every index has been executed once and every chunk has a receipt; the queue keeps its bound |
| `PoolErrors.ThrownExactly` | cpp/txnopt_core/concurrency.hpp:259-319 | a call that is over has thrown if and only if an index of it threw, a receipt or flush was lost before, or the pool turned it away |
| `PoolErrors.TurnedAwayRunsNothing` | cpp/txnopt_core/concurrency.hpp:210-300 | a call turned away runs no index |
| `PoolOrder.FirstComeFirstServed` | cpp/txnopt_core/concurrency.hpp:468-545 | chunks are taken in the order in which they were queued |
| `PoolGuarantees.WorkerGoesOn` | cpp/txnopt_core/concurrency.hpp:491-570 | a worker with a chunk can always step by itself, at any depth of nested calls |
| `PoolGuarantees.NoDeadlock` | cpp/txnopt_core/concurrency.hpp:468-489 | while a call is not over some thread can step unasked; no wake-up is lost |
| `PoolProgress.StepFalls` | cpp/txnopt_core/concurrency.hpp:210-570 | every unasked step of any thread makes the measure of the pool smaller |
| `PoolProgress.RunsEnd` | cpp/txnopt_core/concurrency.hpp:210-570 | no run of unasked steps is longer than the measure at its start |
| `PoolProgress.MaximalRunsFinish` | cpp/txnopt_core/concurrency.hpp:210-319 | where no unasked step is left every call has returned or thrown |
| `PoolGuarantees.IdleExactly` | cpp/txnopt_core/concurrency.hpp:144-153 | nothing is queued or held exactly when every chunk is finished or was never queued |
| `PoolGuarantees.IdleTestExactly` | cpp/txnopt_core/concurrency.hpp:144-153 | when the idle test passes, nothing is held if and only if no call has an unfinished chunk, and what is held then is just popped or just counted off |
| `PoolGuarantees.OverIsIdle` | cpp/txnopt_core/concurrency.hpp:193-208 | once all calls are over the idle test passes and nothing is held, so receipts can be consumed |
| `PoolGuarantees.IdleTestIsEarly` | cpp/txnopt_core/concurrency.hpp:144-153 | a popped chunk can be neither queued nor active: the idle test can succeed before it is executed |
| `ScheduleValidator.ValidateSchedule` | src/txnopt_cases/rcpsp/validation.py:17-104 | the report lists exactly the violations there are |
| `ScheduleValidator.CheckActivity` | src/txnopt_cases/rcpsp/validation.py:36-60 | the violations of one activity |
| `ScheduleValidator.CheckResources` | src/txnopt_cases/rcpsp/validation.py:73-95 | the overloads at interval endpoints |
| `ScheduleEnvelope.EndpointsSuffice` | src/txnopt_cases/rcpsp/validation.py:73-95 | no overload at endpoints means none at any time |
| `ScheduleEnvelope.ScreenOne` | src/txnopt_cases/rcpsp/oracle.py:111-139 | the loop decides screening |
| `ScheduleEnvelope.SerialSatisfies` | src/txnopt_cases/rcpsp/oracle.py:151-191 | one activity after the other satisfies all constraints and ends at the horizon, so the model is never infeasible |
| `ScheduleEnvelope.HorizonKeepsOptimum` | src/txnopt_cases/rcpsp/oracle.py:151-191 | for every solution there is one within the horizon that is no longer |
| `ScheduleEnvelope.SolutionIsValid` | src/txnopt_cases/rcpsp/oracle.py:170-219 | every solution passes the validator |
| `ScheduleEnvelope.ValidIsSolution` | src/txnopt_cases/rcpsp/validation.py:17-104 | every schedule that passes the validator is a solution with the same makespan |
| `ScheduleEnvelope.ValidIsOrdered` | src/txnopt_cases/rcpsp/validation.py:17-60 | the plan of a schedule that passes names every activity, each with a usable mode and after its predecessors |
| `ScheduleEnvelope.SolverIsOptimal` | src/txnopt_cases/rcpsp/oracle.py:141-220 | an optimum within the horizon is no longer than any valid schedule of the plan |
| `ScheduleEnvelope.LowerBound` | src/txnopt_cases/rcpsp/oracle.py:67-84 | refuses unscreened plans; otherwise the largest of the earliest ends along precedence |
| `ScheduleEnvelope.BoundHolds` | src/txnopt_cases/rcpsp/oracle.py:67-84 | the bound is at most the makespan of every valid schedule of the plan |
| `PrecedenceChains.BoundIsLongestChain` | src/txnopt_cases/rcpsp/oracle.py:67-84 | the bound is the duration of the longest chain of activities each of which must precede the next |
| `TopologicalOrder.SmallestReady` | src/txnopt_cases/rcpsp/parser.py:112-115 | the smallest activity without open predecessors, if any |
| `TopologicalOrder.SmallestOrder` | src/txnopt_cases/rcpsp/parser.py:103-122 | the smallest topological order; fails if and only if there is a cycle |
| `TopologicalOrder.StuckHasCycle` | src/txnopt_cases/rcpsp/parser.py:116-117 | when nothing is ready a cycle exists |
| `TopologicalOrder.NoCycle` | src/txnopt_cases/rcpsp/parser.py:103-122 | a topological order excludes cycles |

## Left out

- ExactCharging.SolveExactCharging: the search is taken to halt; `ChargingDivergence.TerminationCriterion` says on which networks it does
- ChargingExactness.Exactness: fair dominance is sufficient, and necessary only where it is to be safe on every instance (`UnfairDominance.ReplaceExactly`): on a given one it may also prune labels no shortest pattern needs; `UnfairDominance.PatternLost` shows that it cannot be dropped
- ChargingExactness.Exactness: least distance only; among patterns of one distance the cut may drop one with an earlier finish
- GridInstances.ShortestAccepted: needs units above the tolerance, and every station's due date at or after the depot's; without the latter `EarlyStation.StationLost` is a counterexample
- BatchKernel.RunExactChargingBatch: requests come as a list of orders, not as flat offset and index arrays; node tables and their validation are part of the instance
- BatchKernel.RunExactChargingBatch: a search that never halts under a deadline that never passes is excluded, since the batch then does not return
- BatchKernel.RunExactChargingBatch: the branch that completes an unrecorded route after the loop is not modelled, since the proof shows that no such route is left
- ParallelMerge.RunExactChargingParallel: chunks are executed one after the other in any order, each with its own deadline; that the pool executes each once is proved in `PoolGuarantees`
- ParallelMerge.MergeChunks: the comparison of the pool's receipt count with the number of chunks is left out, since `PoolGuarantees` proves one receipt per chunk
- SafeScreen.ScreenRoute: the second test of the smallest slack is left out because the forward pass has already made it, and routes are not empty, because a plan refuses empty ones (src/txnopt_cases/evrptw/oracle.py:26-29)
- ScreenSoundness.ScreenIsSafe: the Python screen; the reason codes and recorded checks of the native screen are left out
- RefinementReplay.ReplayAggregateRefinement: fields of unknown type are one case, and the digest of a key tuple is a function
- Evaluation.EvaluateBarrier: an executor that refuses a submission is left out
- Admission.AdmissionExact: an oracle that answers a screening batch with the wrong number or type of decisions is left out
- TxnRuntime.Run: the objective, the configuration checks of the oracle and the physical trace are left out; the random tape is part of the kernel
- CacheStore.Store.CommitBy: a replacement store that raises after it has published, or publishes a part of a batch only, is left out
- WorkLedger.BudgetLedger.Reserve: counts of the wrong type are left out; costs of the waste bounds are not modelled, only units
- PoolErrors.ThrownExactly: what a nested call throws is thrown into the function that made it, which may catch it or not: `RunIndex` may throw either way
- PoolGuarantees.NormalReturn: latency statistics and histograms are left out, and a thread that cannot be created
- PreparedRound.PreparedRoundTransaction.Resolve: integers are unbounded, negative sizes at construction are left out, and the key checksum is a function
- RecencyCache.LruMemo.Resolve: the refusal to serve a second instance is left out
- ScheduleValidator.ValidateSchedule: what the report contains, not in which order; each overload may be listed once per endpoint
- ScheduleEnvelope.SolverIsOptimal: the constraint solver is not part of this model; an optimal answer within the horizon is assumed
- wall clocks, latency, tracing sinks, JSON and hashing: a deadline is a sequence of answers, a digest a function
- IEEE rounding: numbers are exact
- solution-level validation of visits and claimed objectives, neighbourhood kernels, parsers and statistics: easy members
- cloud, archive, campaign and build code: no state worth a model
