# FloWeaver scheduling core

FloWeaver turns a home-automation routine into a dependency graph, schedules it into batches, shortens the batch
timelines by overlapping preparatory phases, and takes patches back when replay disagrees. This project models that
spine and proves what it promises:

- **Typed graph** (`Kahn`, `Tarjan`, `EdgeRank`, `CycleBreaking`, `DagBuild`). Acyclicity, strongly connected components,
  rank-driven cycle breaking and the demotion of hard edges to soft ones. Breaking cycles removes the lowest-ranked edge
  of the whole graph, which need not lie on a cycle; what is proved is that the removed edges are the shortest prefix of
  the rank order that leaves no cycle, and that protected edges survive exactly when they alone are acyclic.
- **Batch scheduler** (`TopoScheduler`, `TopoTheorems`). List scheduling with caps and device conflicts.
- **BLE refinement** (`BlePhases`, `BleCorridor`, `BleValidator`, `BleTheorems`, `BleConnectOverlap`, `BleRefiner`, `BlePlan`,
  `CorridorOrder`). Phase durations, look-ahead expansion, the independent validator and exactly which expansions it accepts,
  corridor selection and its order, and the plan-level saving.
- **API refinement** (`ApiPhases`, `ApiOverdraft`, `ApiCorridor`, `ApiPlacement`, `ApiValidator`, `ApiTheorems`, `ApiRefiner`,
  `ApiMisfit`). Allocation of phase durations, pre-request overlap, the validator and exactly which expansions it accepts.
- **Combined refinement** (`CombinedResolution`, `CombinedSweep`, `CombinedSimulation`, `CombinedTheorems`, `OwnerRecheck`,
  `RecheckGap`, `CombinedReport`). Greedy choice among corridors, the overlap sweep, the simulation that splices corridors
  into the plan, the re-check of API steps in it, and what a case needs to pass.
- **Rollback** (`PlanLayout`, `PlanPatches`, `PlanScopes`, `ParallelReduction`, `Inversion`, `DagPatches`, `Rollback`). Execution
  order, what runs in parallel, plan and graph patches, and the loop over opaque comparison, replay and planning as a run of
  states.
- **Slices** (`Slices`, `SpatialSlice`). Bounded closures, pruning to a cap and backward slices.

`Timelines` holds what both refiners and their validators share, `Digraph`, `Sequences`, `Sorting`, `Numbers`, `Text` and
`Options` the general notions, `Contracts` the data that passes between the components.

Code that updates variables or collections step by step is modelled by methods with loops or by classes (`SccSearch`,
`Diagnostics`); each is proved against a specification function or predicate, and the theorems are lemmas about those.
Iteration over Python sets is modelled by arbitrary choice, so results hold for every iteration order. Times are integers
in milliseconds.

Some properties turned out not to hold of the code as it stands; for these the exact condition is stated:

- `ApiOverdraft.NegativeExactly`: rounding can leave the last phase of a step negative. For waits from 0 up the latencies
  are stated exactly; above the sum of the minima, which all estimated latencies exceed unless the backoff wait is set beyond
  223 ms, durations are positive (`ApiPhases.DurationsPositive`), and `TailCanBeNegative` gives an estimated latency where
  they are not.
- `ApiRefiner.ExpansionValidatesExactly`: the expander does not check that overlapping phases fit into the window it moves
  them to, nor a backoff wait of another host; the validator rejects exactly those corridors. With overlap of the auth and
  budget checks switched off every admitted cloud pair is rejected (`LatePrefixFails`). `ApiMisfit.PreparationTooLong` is
  an example under the default policy.
- `CombinedTheorems.RaisesExactly`: a candidate whose batches are not contiguous is meant to be reported, but the walk goes
  on behind its last batch; a batch in between that no candidate names is never completed, and looking it up raises
  (`GapRaises`). Whether the walk passes a batch by is exact for all ranges (`RaisesWhenPassedBy`); that it lies in a range
  is necessary, and sufficient when ranges do not overlap.
- `OwnerRecheck.RecheckExactly`: the API validator accepts a corridor in which some pair is not overlapped, the combined
  validator wants every preparation inside the window before. `RecheckGap.AcceptedThenRejected` is an example.
- `CombinedReport.ConflictFreeExactly`: resolving conflicts never makes a case pass, because every rejection, also one for
  lack of savings, is a recorded conflict. A resolution counts as free of conflicts exactly when every candidate given is
  worthy and no two conflict; `IdleExample` is a corridor that alone makes its case fail.
- `CorridorOrder.FollowsPlanExactly`: corridors of equal score are compared by name, and the name of a number with more digits
  can come first. Which ones do is stated in the digits of their numbers, and `OutOfPlanOrder` is a plan where it happens.
- `BleConnectOverlap.ExpansionValidatesExactly`: with connect overlap allowed the expander may overlap more actions than the
  look-ahead permits; the validator rejects exactly those corridors in which an action begins before the one that many places
  in front of it has settled. `SwitchesFail` is an example at the default look-ahead.
- `ParallelReduction.GainsExactly`: reducing parallelism can make actions run in parallel that ran serially, when their chunk
  no longer holds the action that kept the group in order. `GainExample` is such a group.
- `DagPatches.OwnOrderExactly`: level 3 recognises an order constraint by its sorted scope, so a pair tied in the opposite
  direction keeps that direction (`OppositeOrderStays`).
- `Rollback.StaleExactly`: a run that ends at its step bound compares the last replay with the configuration of the plan
  before the last patch. The plan differs unless unbatching or the planner gave the same one; the configuration differs
  exactly when the last patch is one that changes what runs in parallel, which `PlanScopes` and `ParallelReduction` state for
  each strategy, and `StaleExample` is such a run.

## Model

| member | source | states |
|---|---|---|
| Kahn.IsAcyclic | optimizer/m4_typed_dag.py:1018-1042 | counting indegrees and popping sources answers true exactly when no directed cycle exists, parallel edges included |
| Tarjan.SccSearch.StrongConnect | optimizer/m4_typed_dag.py:1102-1130 | one call of the index/lowlink search keeps the search invariant, closes exactly the components it has left, and reports those of at least two members or with a self-loop |
| Tarjan.SccSearch.PopComponent | optimizer/m4_typed_dag.py:1120-1130 | popping the stack down to the root yields the root's component and nothing else |
| Tarjan.FindComponents | optimizer/m4_typed_dag.py:1073-1136 | the search returns, without repetition, exactly the strongly connected components that hold a cycle; none exactly when the graph is acyclic; every node on a cycle is in one of them and no other is |
| EdgeRank.RankTotal | optimizer/m4_typed_dag.py:523-536 | the removal rank orders edges totally |
| EdgeRank.RankTransitive | optimizer/m4_typed_dag.py:523-536 | the removal rank is transitive |
| EdgeRank.FirstToGo | optimizer/m4_typed_dag.py:523-536 | which of two edges goes first: one that is not protected before one that is, control before lifecycle before data, candidates before templates before the rest, then the smaller names |
| CycleBreaking.Diagnostics.Warn | optimizer/m4_typed_dag.py:28-33 | a keyed warning is recorded once |
| CycleBreaking.Diagnostics.RecordRemovedEdge | optimizer/m4_typed_dag.py:35-40 | a removed edge is recorded once, in order of removal |
| CycleBreaking.FirstMinimum | optimizer/m4_typed_dag.py:1046-1048 | the edge picked is the first of lowest rank |
| CycleBreaking.BreakCycles | optimizer/m4_typed_dag.py:1044-1054 | the result is an acyclic subsequence of the input; what was dropped is the shortest prefix in rank order that leaves no cycle, and every dropped edge is recorded |
| CycleBreaking.ShorterCutIsCyclic | optimizer/m4_typed_dag.py:1044-1054 | every shorter prefix of the rank order would have left a cycle |
| CycleBreaking.ProtectedSurviveIff | optimizer/m4_typed_dag.py:1044-1054 | data, io, declared and lifecycle edges all survive exactly when they alone form no cycle |
| CycleBreaking.ActionAdjacency | optimizer/m4_typed_dag.py:1078-1093 | the action graph has an arc for each pair of different actions at the ends of an edge |
| CycleBreaking.CycleActions | optimizer/m4_typed_dag.py:1145-1150 | the actions of all reported components are exactly those on a cycle of the action graph |
| CycleBreaking.ChooseDemotion | optimizer/m4_typed_dag.py:1145-1169 | a round demotes the lowest-ranked edge that carries no data, was declared or templated, and lies between actions on cycles, and none only when no such edge or no cycle is left |
| CycleBreaking.BreakActionLevelCycles | optimizer/m4_typed_dag.py:1138-1175 | the rounds form a run of such demotions that stops only when settled; only declared or templated edges that carry no data go, and exactly the pairs of those that went are recorded |
| CycleBreaking.SettledStays | optimizer/m4_typed_dag.py:1378-1379 | what the node-level pass drops afterwards cannot unsettle that |
| DagBuild.DedupHardEdges | optimizer/m4_typed_dag.py:1368-1371 | one edge is kept for each pair and kind: the last one given, in the place of the first |
| DagBuild.DedupSoftOrder | optimizer/m4_typed_dag.py:1056-1071 | other constraints stay; each ordered scope, in order of first mention, keeps one order constraint: the first of those that no other of that scope outranks |
| DagBuild.OutranksExactly | optimizer/m4_typed_dag.py:188-200 | of two order constraints a broken cycle outweighs a declared dependency, that a template and that anything else; equal weights are told apart by the text |
| DagBuild.CycleBreakWins | optimizer/m4_typed_dag.py:190-200 | an order constraint recorded for a broken cycle outlives every rival of its scope |
| DagBuild.FinishBuild | optimizer/m4_typed_dag.py:1368-1410 | the built graph is acyclic and settled at action level: no action cycle is left that a further demotion could break; the hard edges are what one edge a key, a run of action-level demotions and a shortest cut leave; every edge collected is still hard or is represented by a cycle-break order constraint on its pair; every constraint given is kept, an order constraint possibly by one of its scope that it does not outrank, no scope has two, and all others stand for demoted edges; data edges stay hard whenever the protected edges alone are acyclic |
| TopoScheduler.ExplicitGraph | optimizer/naive_topo_parallel.py:91-115 | successors and indegrees are those of the explicit dependencies, the declared orders, and one arc from each other action to each Home Assistant action; unknown ends and self-loops are dropped |
| TopoScheduler.CanJoin | optimizer/naive_topo_parallel.py:172-195 | an action may join exactly when the caps on all, BLE, cloud and local actions allow it and with every selected action on its device, if that is known, it shares reads only, neither of them of Home Assistant |
| TopoScheduler.SortReady | optimizer/naive_topo_parallel.py:40-40 | the ready actions are visited in declaration order; latencies never decide |
| TopoScheduler.SelectBatch | optimizer/naive_topo_parallel.py:39-47 | the loop with its early break selects the longest joinable run of the visited order, or the first action alone |
| TopoScheduler.Schedule | optimizer/naive_topo_parallel.py:26-78 | scheduling succeeds exactly when the dependency graph is acyclic; otherwise the unresolved actions are those left when nothing is ready |
| TopoTheorems.EachActionOnce | optimizer/naive_topo_parallel.py:34-66 | every action is in exactly one place of exactly one batch |
| TopoTheorems.DependenciesGoForward | optimizer/naive_topo_parallel.py:34-66 | every dependency leads from an earlier batch to a strictly later one |
| TopoTheorems.HaComesLast | optimizer/naive_topo_parallel.py:110-114 | every Home Assistant action runs strictly after every other action |
| TopoTheorems.BatchIsLongestPrefix | optimizer/naive_topo_parallel.py:39-47 | with all limits at least 1 each batch is the longest joinable prefix of the ready actions in declaration order |
| TopoTheorems.BatchRespectsLimits | optimizer/naive_topo_parallel.py:172-195 | no batch exceeds a cap, and members that share a known device only read it and are no Home Assistant actions |
| TopoTheorems.NextIsKeptOut | optimizer/naive_topo_parallel.py:39-47 | a batch ends before the next ready action only if that shares a known device with a member and one of the two writes or is of Home Assistant, or if the batch is full for its protocol |
| TopoTheorems.ScheduleUnique | optimizer/naive_topo_parallel.py:34-66 | two complete schedules of one target under one policy are equal: measured latencies have no influence |
| TopoTheorems.IndexIsDepth | optimizer/naive_topo_parallel.py:34-66 | when no cap or conflict binds, a batch index is the length of the longest dependency chain |
| TopoTheorems.NothingBindsWhenWide | optimizer/naive_topo_parallel.py:172-195 | none binds when every cap is at least the number of actions and no two actions conflict on a device |
| Timelines.MaxActive | optimizer/ble_micro_refinement.py:739-744 | the sweep returns the largest number of active owners at any end point |
| Timelines.SweepIsExact | optimizer/ble_micro_refinement.py:739-744 | no instant has more active owners than some end point, so sampling only end points is exact |
| Numbers.RoundHalfEven | optimizer/ble_micro_refinement.py:423-434 | rounding returns a nearest integer, the even one for halves |
| BlePhases.ComputePhaseDurations | optimizer/ble_micro_refinement.py:415-486 | the four running variables end up as the split shortened in the order connect, advertisement, settle |
| BlePhases.DurationBounds | optimizer/ble_micro_refinement.py:415-486 | for every total the phases stay within their timeouts, the transfer lasts at least 120 ms and settling at least 1 ms |
| BlePhases.TransferAlways | optimizer/ble_micro_refinement.py:441-486 | even with senseless timeouts a transfer keeps 120 ms and settling stays positive |
| BlePhases.DurationsAddUp | optimizer/ble_micro_refinement.py:415-486 | from 220 ms up the four durations add up exactly, with transfer at least 120 ms and settling at least 30 ms |
| BlePhases.AdvAtLeastMinimum | optimizer/ble_micro_refinement.py:423-461 | with a timeout of at least 30 ms an advertisement lasts at least 30 ms |
| BleCorridor.AdmittedExactly | optimizer/ble_micro_refinement.py:509-624 | an overlap of advertisements or connections is admitted exactly when none of the listed objections holds, and an anchored one needs a left action that neither connects nor subscribes and a right one declared safe |
| BleTheorems.DurationTable | optimizer/ble_micro_refinement.py:415-486 | the four phases of every kind of action under the default timeouts, in milliseconds |
| BleCorridor.ExpandSerial | optimizer/ble_micro_refinement.py:489-506 | one cursor lays the phases of all actions end to end |
| BleCorridor.ExpandOverlap | optimizer/ble_micro_refinement.py:627-685 | the cursors place each action's phases where the admissions allow, relative to the action before it |
| BleTheorems.ActionPlacement | optimizer/ble_micro_refinement.py:627-685 | told by the events alone: an action advertises from the other's connecting on if anchored, from its transfer on if only admitted, else once it has settled; it connects after that, waiting for the other's settling or, if admitted, only for its transfer to start; transfers follow one another |
| BleValidator.CheckPhases | optimizer/ble_micro_refinement.py:707-726 | the phase flag holds exactly when every action has its four phases in order without overlap, the rollback flag when preparations keep their timeouts |
| BleValidator.CheckPair | optimizer/ble_micro_refinement.py:753-786 | the flags of a pair are cleared exactly when an early advertisement, anchor or connection was not admitted |
| BleValidator.Validate | optimizer/ble_micro_refinement.py:696-811 | each flag of the report means what it says of the timeline |
| BleTheorems.SlotAfter | optimizer/ble_micro_refinement.py:645-673 | an action connects only after the previous one has settled, and advertises early only if admitted |
| BleTheorems.SettledBeforeConnect | optimizer/ble_micro_refinement.py:645-673 | an action connects only after all earlier ones have settled |
| BleTheorems.AtMostTwoActive | optimizer/ble_micro_refinement.py:739-746 | at any time at most two actions of an expanded corridor are active |
| BleTheorems.CompletionPasses | optimizer/ble_micro_refinement.py:688-693 | expanded actions complete strictly in corridor order |
| BleTheorems.PairsPass | optimizer/ble_micro_refinement.py:753-786 | every pair of neighbours in an expansion satisfies the admission checks |
| BleTheorems.ExpansionValidates | optimizer/ble_micro_refinement.py:627-811 | with connect overlap off, non-negative timeouts and look-ahead at least 1, every expansion of a corridor of distinct actions passes the validator |
| BleConnectOverlap.TimedIsBrisk | optimizer/ble_micro_refinement.py:415-486 | for every estimated latency and positive timeouts all phases take time and every transfer takes longer than any settling |
| BleConnectOverlap.LookaheadExactly | optimizer/ble_micro_refinement.py:739-746 | the look-ahead check accepts exactly when no action begins before the one that many places in front of it has settled |
| BleConnectOverlap.ExpansionValidatesExactly | optimizer/ble_micro_refinement.py:627-811 | with any overlaps allowed, any look-ahead and positive timeouts, an expansion of distinct actions passes the validator exactly then |
| BleConnectOverlap.ThreeAheadSuffice | optimizer/ble_micro_refinement.py:739-746 | a look-ahead of three always suffices, since at most four actions are ever active |
| BleConnectOverlap.TwoAheadExactly | optimizer/ble_micro_refinement.py:645-673 | in durations, without anchors: an action begins before the one two places in front has settled exactly when all overlaps are admitted and the middle preparations take less time than the first transfer and settling |
| BleConnectOverlap.SwitchesFail | optimizer/ble_micro_refinement.py:627-811 | three switches with both overlaps allowed and the default look-ahead of one: the expansion is rejected |
| BleRefiner.SettleFormula | optimizer/ble_micro_refinement.py:627-685 | an action settles at the sum of latencies so far less the admitted advertisement time |
| BleRefiner.MakespanFormula | optimizer/ble_micro_refinement.py:889-907 | with advertisement timeouts up to 150 ms the refined makespan is the sum of latencies less the advertisement time of the admitted pairs |
| BleRefiner.SerialMakespan | optimizer/ble_micro_refinement.py:489-506 | the serial makespan is the sum of the estimated latencies |
| BleRefiner.SavingBounds | optimizer/ble_micro_refinement.py:415-486 | with timeouts from 30 to 120 ms each admitted pair saves between 30 and 120 ms |
| BleRefiner.RefineCorridor | optimizer/ble_micro_refinement.py:889-907 | the report fits the timeline, the refinement of a conservative policy always validates, and then the saving is exactly the overlapped advertisement time, unclamped |
| BlePlan.EstimatePlanLatency | optimizer/ble_micro_refinement.py:405-412 | the estimate is the sum over batches of their slowest group |
| BlePlan.SlowestGroup | optimizer/ble_micro_refinement.py:405-412 | no group takes longer than its batch, and some group takes as long |
| BlePlan.LaneLatency | optimizer/ble_micro_refinement.py:386-402 | a BLE group takes the sum of its costs, any other the cost of its dearest action and, on one lane, 20, 10 or 120 ms for each further one |
| BlePlan.SingletonLatency | optimizer/ble_micro_refinement.py:386-402 | a batch of one BLE action costs exactly that action's latency, however its groups are cut |
| BlePlan.MaximalRunsDisjoint | optimizer/ble_micro_refinement.py:851-884 | two maximal runs of one profile class are equal or do not touch |
| BlePlan.CloseRun | optimizer/ble_micro_refinement.py:857-877 | a finished run becomes a corridor exactly when it meets the thresholds of its class and has an admitted pair |
| BlePlan.SelectCorridors | optimizer/ble_micro_refinement.py:832-887 | the selected corridors are exactly the eligible maximal runs of singleton BLE batches of one profile class, disjoint, best score first, equal scores by name |
| BlePlan.CorridorBatches | optimizer/ble_micro_refinement.py:832-866 | the batches of a corridor hold its actions one by one, runtime BLE actions of one class, and neither neighbouring batch holds another of that class |
| CorridorOrder.ScoreOrder | optimizer/ble_micro_refinement.py:868-887 | scores never rise; of two corridors of equal score the one further behind in the plan comes first exactly when the leading digits of its number, as many as the other one has, make a smaller number |
| CorridorOrder.OvertakesInNumbers | optimizer/ble_micro_refinement.py:868-887 | below a thousand: exactly when the first number is below a hundred, the second is not, and without its last digit is smaller than the first |
| CorridorOrder.FollowsPlanExactly | optimizer/ble_micro_refinement.py:868-887 | equal scores come in plan order exactly when no corridor overtakes another one of its score |
| CorridorOrder.BestFirst | optimizer/ble_micro_refinement.py:868-887 | among up to a hundred corridors they always do |
| CorridorOrder.OutOfPlanOrder | optimizer/ble_micro_refinement.py:832-887 | a plan of 303 batches gives 101 corridors of equal score, of which the one at batch 300 comes before the one at batch 33 |
| BlePlan.CorridorsFit | optimizer/ble_micro_refinement.py:832-887 | the corridors together take no longer than the plan |
| BlePlan.NeverEndsEarly | optimizer/ble_micro_refinement.py:627-685 | no policy makes a timeline end before 0 |
| BlePlan.RefineAll | optimizer/ble_micro_refinement.py:957-958 | all corridors together save no more than they took |
| BlePlan.RefineCase | optimizer/ble_micro_refinement.py:948-971 | under every policy the refined total is exactly the original total less the corridor savings: the outer maximum never clamps |
| BlePlan.SelectedCorridorsGain | optimizer/ble_micro_refinement.py:857-877 | under a conservative policy every selected corridor has an admitted pair and gains 30 to 120 ms for each |
| ApiPhases.Allocate | optimizer/api_micro_refinement.py:475-511 | both branches with their running totals and drift correction hand out the shares, the last phase taking the rest |
| ApiPhases.AllocationAddsUp | optimizer/api_micro_refinement.py:475-511 | a positive total is handed out exactly |
| ApiPhases.MinimaKept | optimizer/api_micro_refinement.py:496-511 | above the sum of minima every phase but the last keeps its minimum, the last loses at most half a millisecond for each other phase |
| ApiPhases.TightTotals | optimizer/api_micro_refinement.py:479-494 | with a tight total only the last phase can become negative, by at most half a millisecond for each other phase |
| ApiOverdraft.DrawnExactly | optimizer/api_micro_refinement.py:475-555 | for every latency of a tight cloud step and every wait from 0 up, the nine fixed phases and the wait draw more than the latency exactly when it lies in the stated ranges of the sum of minima |
| ApiOverdraft.NegativeExactly | optimizer/api_micro_refinement.py:475-555 | a step of any kind has a phase of negative duration exactly for those latencies: cloud in the stated ranges, local at 5 ms, subscriptions never |
| ApiOverdraft.WithoutWait | optimizer/api_micro_refinement.py:475-555 | a cloud step without a wait has one exactly at 8, 9, 10 and 24 ms |
| ApiOverdraft.TailCanBeNegative | optimizer/api_micro_refinement.py:475-555 | the estimated 350 ms of a cloud read with a backoff wait of 1674 ms leave the state write -1 ms |
| ApiPhases.FloorIsMinTotal | optimizer/api_micro_refinement.py:514-555 | the minima add up to 126 ms plus the backoff wait, 88 ms and 40 ms |
| ApiPhases.DurationsPositive | optimizer/api_micro_refinement.py:514-555 | above that sum the durations add up to the latency, every phase takes time, and the backoff phase takes exactly its wait |
| ApiCorridor.AdmittedExactly | optimizer/api_micro_refinement.py:571-607 | moving the preparations of a local or cloud step is admitted exactly when none of the listed objections holds |
| ApiCorridor.ExpandSerial | optimizer/api_micro_refinement.py:558-567 | one cursor lays the phases of all steps end to end |
| ApiCorridor.PlaceMoved | optimizer/api_micro_refinement.py:642-671 | the phases admitted to overlap follow one another from the overlap start |
| ApiCorridor.PlaceRest | optimizer/api_micro_refinement.py:673-678 | all other phases follow one another from the previous state write |
| ApiCorridor.ExpandRefined | optimizer/api_micro_refinement.py:617-682 | the expansion places every phase of every step where the recurrence over the steps says |
| ApiPlacement.StepPlacement | optimizer/api_micro_refinement.py:617-682 | told by the events alone: admitted phases of a step follow one another and end with the response of the step before if they take no longer than its request and response, else they start with that request; all other phases follow one another from its state write on; the first step starts at 0 |
| ApiValidator.CheckStep | optimizer/api_micro_refinement.py:707-756 | the three step flags mean phase order, time budgets and availability before the write |
| ApiValidator.CheckedPhases | optimizer/api_micro_refinement.py:707-756 | the budgets are those of the parse and aggregate or cache phases, and availability is the end of the group commit or cache phase |
| ApiValidator.CheckPair | optimizer/api_micro_refinement.py:771-839 | the five pair flags mean admission, window and request order, entity order and backoff |
| ApiValidator.Validate | optimizer/api_micro_refinement.py:685-875 | each flag of the report means what it says of the timeline |
| ApiTheorems.RoomyIsPositive | optimizer/api_micro_refinement.py:514-555 | latencies above the sum of minima give positive durations that add up |
| ApiTheorems.RequestAfterWrite | optimizer/api_micro_refinement.py:673-678 | under every policy no step sends its request before the previous step's state write ends |
| ApiTheorems.NothingSentEarly | optimizer/api_micro_refinement.py:617-682 | a phase that is not moved lies between the previous state write and its own |
| ApiTheorems.Window | optimizer/api_micro_refinement.py:640-666 | the send and receive window of a step lies between the previous state write and its own |
| ApiTheorems.PairExactly | optimizer/api_micro_refinement.py:771-839 | a pair passes its checks exactly when what was moved fits the window and bypasses no backoff |
| ApiTheorems.StepExactly | optimizer/api_micro_refinement.py:707-756 | a step in order passes its checks exactly when its parse and aggregate phases fit their budgets |
| ApiTheorems.LatePrefixFails | optimizer/api_micro_refinement.py:656-661 | with the auth and budget checks not allowed to overlap, an admitted cloud pair always breaks the phase order |
| ApiRefiner.CompletionHolds | optimizer/api_micro_refinement.py:610-615 | steps that fit complete in corridor order |
| ApiRefiner.ActiveAtMost | optimizer/api_micro_refinement.py:762-767 | never more than one step is active unless something is moved, and never more than two |
| ApiRefiner.LookaheadExactly | optimizer/api_micro_refinement.py:762-767 | the look-ahead check accepts exactly when the limit reaches that depth |
| ApiRefiner.ExpansionValidatesExactly | optimizer/api_micro_refinement.py:617-875 | an expansion passes the validator exactly when every admitted overlap begins with the first phase, fits, and bypasses no backoff, the budgets hold and the look-ahead suffices |
| ApiMisfit.MisfitDoesNotFit | optimizer/api_micro_refinement.py:617-682 | cloud steps of the estimated latencies 350 and 690 ms under the default policy: 158 ms of preparation are moved into a window of 148 ms |
| ApiMisfit.PreparationTooLong | optimizer/api_micro_refinement.py:617-875 | so the validator rejects what the expander built |
| ApiRefiner.MakespanFormula | optimizer/api_micro_refinement.py:948-961 | the makespan of a fitting expansion is the sum of latencies less the durations moved |
| ApiRefiner.MovedGains | optimizer/api_micro_refinement.py:617-682 | an expansion gains time as soon as some overlap is admitted |
| ApiRefiner.RefineCorridor | optimizer/api_micro_refinement.py:948-961 | validation decides by the stated conditions, and an accepted corridor saves exactly what was moved |
| CombinedResolution.RangesNearExactly | optimizer/combined_micro_refinement.py:265-276 | two batch ranges are near exactly when some of their points lie at most the threshold plus one apart, or they overlap |
| CombinedResolution.ConflictSymmetric | optimizer/combined_micro_refinement.py:238-310 | conflicts do not depend on the order of the two candidates |
| CombinedResolution.ConflictExactly | optimizer/combined_micro_refinement.py:238-310 | two candidates conflict exactly when they have a batch or an action in common that the policy wants apart, or are of one lane, near, and share a session or device, or a host or endpoint, that the policy guards |
| CombinedResolution.Resolve | optimizer/combined_micro_refinement.py:313-375 | the loop makes the greedy decision over the pool sorted by saving, source and corridor |
| CombinedResolution.NothingLost | optimizer/combined_micro_refinement.py:313-375 | accepted and rejected together are exactly the normalized candidates |
| CombinedResolution.DecisionIsFree | optimizer/combined_micro_refinement.py:313-375 | accepted candidates are pairwise free of conflicts, validated and save something |
| CombinedResolution.AcceptedApart | optimizer/combined_micro_refinement.py:313-375 | two accepted candidates have no guarded batch or action in common and share no guarded resource nearby |
| CombinedResolution.DecisionIsMaximal | optimizer/combined_micro_refinement.py:313-375 | every rejected candidate is unworthy or conflicts with an accepted one that saves more, or as much and comes first: API before BLE, then by name |
| CombinedResolution.RejectionsRecorded | optimizer/combined_micro_refinement.py:324-371 | every rejection is recorded once with its reasons and, if it lost, with its accepted winner |
| CombinedResolution.GreedyKeepsAll | optimizer/combined_micro_refinement.py:313-375 | nothing is recorded exactly when every candidate is worthy and no two conflict, and then all are accepted |
| CombinedResolution.OrderIrrelevant | optimizer/combined_micro_refinement.py:313-375 | with distinct source and corridor pairs the decision does not depend on the order of the input |
| CombinedSweep.SweepMaxOverlap | optimizer/combined_micro_refinement.py:393-412 | for every key the sweep finds the maximum over all times, though it samples only end points |
| CombinedSweep.CheckLimit | optimizer/combined_micro_refinement.py:751-757 | a limit check fails exactly when at some time more events share a key than allowed |
| CombinedSweep.CheckBle | optimizer/combined_micro_refinement.py:751-767 | BLE constraints hold exactly when transfers and, with the slot guard, connection set-ups keep their limits |
| CombinedSweep.CheckRequests | optimizer/combined_micro_refinement.py:769-803 | requests keep their limits to every host, bucket, endpoint and session |
| CombinedSweep.CheckParsing | optimizer/combined_micro_refinement.py:805-817 | parse and cache phases of all owners together keep to the limit at every time |
| CombinedSweep.CheckBackoff | optimizer/combined_micro_refinement.py:819-832 | the backoff check fails exactly when another owner prepares or sends to the same host before a wait is over |
| CombinedSimulation.SimulateSegment | optimizer/combined_micro_refinement.py:515-595 | a candidate's events are shifted to the cursor and its owners' ends become the ends of its batches |
| CombinedSimulation.SoundExactly | optimizer/combined_micro_refinement.py:515-595 | a segment is sound exactly when it has an owner for each batch, every owner has an event that tells its end, and none ends after a later one |
| CombinedSimulation.ContiguousExactly | optimizer/combined_micro_refinement.py:419-433 | a candidate counts as contiguous exactly when all its batches are known and each place from the first to the last is that of one of them, once |
| CombinedSimulation.OwnerEndIsLast | optimizer/combined_micro_refinement.py:515-595 | an owner ends with its last settling event (BLE) or its last event (API), never before 0, and has no end if there is none |
| CombinedSimulation.EndsArePut | optimizer/combined_micro_refinement.py:515-595 | each batch of a segment completes when its owner ends, shifted by the start of the segment, and no other batch is touched |
| CombinedSimulation.CheckOrder | optimizer/combined_micro_refinement.py:729-735 | the order flag holds exactly when every batch has completed and none before its predecessor |
| CombinedSimulation.CheckProjection | optimizer/combined_micro_refinement.py:737-749 | the projection check fails on delayed or missing batches and raises on an unclaimed batch that never completed |
| CombinedSimulation.Validate | optimizer/combined_micro_refinement.py:623-749 | the simulation's flags, total, savings and completions are those of the walk over the whole plan, latencies looked up by name; a candidate without batches raises |
| CombinedTheorems.ResolvedAreDisjoint | optimizer/combined_micro_refinement.py:238-247 | resolution with batch overlap forbidden yields candidates without a common batch |
| CombinedTheorems.SplicedOnce | optimizer/combined_micro_refinement.py:674-705 | when coverage is accepted, every accepted candidate is simulated exactly once |
| CombinedTheorems.TurnAccounts | optimizer/combined_micro_refinement.py:682-703 | with segments not allowed to get longer, a turn of the walk that finds no fault takes exactly the time of the batches it passes less what the candidate claims |
| CombinedTheorems.ExcessGrows | optimizer/combined_micro_refinement.py:682-703 | a segment that ran longer than estimated is never made up for |
| CombinedTheorems.TotalFormula | optimizer/combined_micro_refinement.py:674-727 | when coverage and savings are accepted, the simulated total is the original total less the savings of the accepted candidates |
| CombinedTheorems.UnrefinedOnTime | optimizer/combined_micro_refinement.py:737-749 | and then no batch outside the candidates finishes later than without refinement |
| CombinedTheorems.RaisesWhenPassedBy | optimizer/combined_micro_refinement.py:737-749 | validation raises exactly when projection is enforced and the walk passes by a batch that no candidate names |
| CombinedTheorems.RaisesExactly | optimizer/combined_micro_refinement.py:737-749 | that happens only when the range of a candidate, from its first to its last batch, covers such a batch, and always then if no two ranges overlap |
| CombinedTheorems.GapRaises | optimizer/combined_micro_refinement.py:737-749 | three batches and one candidate for the first and the last: validation raises |
| OwnerRecheck.CheckOwners | optimizer/combined_micro_refinement.py:834-867 | the re-check holds exactly when for every two neighbours the request waits for the state write and all preparations lie in the send and receive window before |
| OwnerRecheck.RecheckExactly | optimizer/combined_micro_refinement.py:834-867 | an expansion in the simulated plan passes exactly when it only subscribes or every step has all its preparations moved into the window before, and they fit |
| RecheckGap.UnadmittedFails | optimizer/combined_micro_refinement.py:856-867 | a corridor with a pair that may not overlap never passes, though the API validator has no objection |
| RecheckGap.BackoffFails | optimizer/combined_micro_refinement.py:856-867 | so neither does a corridor in which a step follows one that backs off on the same host |
| RecheckGap.AcceptedThenRejected | optimizer/combined_micro_refinement.py:834-867 | three local reads of 100 ms, the last without a session, under the default policy: accepted with a saving of 25 ms, and rejected in every plan |
| CombinedReport.ValidateCase | optimizer/combined_micro_refinement.py:623-897 | each of the nine flags of the result means what it says of the decision and of the simulated plan, and an unclaimed batch that is passed by raises |
| CombinedReport.ConflictFreeExactly | optimizer/combined_micro_refinement.py:643-643 | the decision of a resolution counts as free of conflicts exactly when every candidate given is worthy and no two of them conflict, so that there was nothing to resolve |
| CombinedReport.IdleCorridorFails | optimizer/combined_micro_refinement.py:643-643 | no case with a corridor that saves nothing passes |
| CombinedReport.IdleExample | optimizer/combined_micro_refinement.py:324-371 | one validated corridor that saves nothing: nothing is accepted, and yet a conflict is recorded |
| CombinedReport.PassedKeepsAll | optimizer/combined_micro_refinement.py:869-881 | a resolved case that passes has accepted every candidate, and its total is the original total less the savings of all candidates |
| CombinedReport.PlacedInPlan | optimizer/combined_micro_refinement.py:674-722 | with coverage accepted, the simulated plan holds of every accepted API candidate exactly its own events, all shifted by the same time |
| CombinedReport.StepsHoldExactly | optimizer/combined_micro_refinement.py:834-867 | an accepted API corridor passes the re-check of the simulated plan exactly under the stated condition on its expansion |
| PlanLayout.LayoutPermutes | optimizer/m6_trust.py:998-1005 | a group splits into a parallel and a serial part without loss |
| PlanLayout.PlanExecutionOrder | optimizer/m6_trust.py:1022-1035 | the execution order lists each group's parallel part before its serial part, each in group order |
| ParallelReduction.PartComesFirst | optimizer/m6_trust.py:998-1005 | of every group the part that runs in parallel comes first, and the whole is a permutation of the group |
| PlanLayout.GroupsInOrder | optimizer/m6_trust.py:1022-1035 | groups of a batch run one after the other |
| PlanLayout.BatchesInOrder | optimizer/m6_trust.py:1022-1035 | and so do the batches of a plan |
| PlanLayout.OrderPermutes | optimizer/m6_trust.py:1022-1035 | the execution order is a permutation of the plan's non-blank actions |
| PlanLayout.Chunked | optimizer/m6_trust.py:900-902 | chunks are non-empty, no larger than the size, and together the items in order |
| PlanLayout.RegroupAllConserves | optimizer/m6_trust.py:1536-1558 | regrouping keeps a batch's non-blank actions with every group within the cap |
| PlanLayout.GroupsWithinCap | optimizer/m6_trust.py:1520-1558 | after reducing parallelism no group is larger than the new cap |
| PlanLayout.UnbatchedOrder | optimizer/m6_trust.py:1574-1618 | without batching the plan runs its actions sorted by rank |
| PlanLayout.UnbatchedIsSerial | optimizer/m6_trust.py:1574-1618 | without batching every batch runs one action serially |
| PlanLayout.RanksAscend | optimizer/m6_trust.py:1577-1584 | sorting by rank and position permutes the actions into ascending ranks |
| PlanLayout.BleRunsSerially | optimizer/m6_trust.py:1620-1643 | after spacing, no BLE action of a batch with several of them runs in parallel |
| PlanLayout.ActionsConserved | optimizer/m6_trust.py:1504-1618 | no level-1 strategy loses or repeats an action |
| PlanLayout.ApplyLevel1 | optimizer/m6_trust.py:1504-1680 | a strategy yields the patched plan when it changes something and the plan itself otherwise |
| PlanPatches.SessionsOff | optimizer/m6_trust.py:1559-1574 | switching session reuse off leaves no batch that reuses sessions and changes nothing else, and there is something to change exactly when some batch does |
| PlanPatches.SpacingDemands | optimizer/m6_trust.py:1620-1666 | spacing guards the budget of every batch, limits it to one query a second, adds rows that space the BLE actions where there are several, loses nothing, and a second time changes nothing |
| PlanPatches.ReductionLowers | optimizer/m6_trust.py:1520-1558 | reducing parallelism lowers every limit by one, never below one, and touches only the groups of a batch |
| PlanPatches.RegroupExactly | optimizer/m6_trust.py:1538-1548 | a group within the cap stays as it is; a larger one is sorted by rank and name and cut into full chunks and a rest |
| PlanPatches.UnbatchedIsStable | optimizer/m6_trust.py:1576-1590 | without batching actions of one rank keep their order |
| PlanScopes.ParallelActionScopes | optimizer/m6_trust.py:1007-1020 | the scopes of a plan are the parallel parts of more than one action of its groups |
| PlanScopes.SessionKeepsScopes | optimizer/m6_trust.py:1560-1572 | switching session reuse off never changes what runs in parallel |
| PlanScopes.UnbatchedScopes | optimizer/m6_trust.py:1574-1618 | without batching nothing runs in parallel |
| PlanScopes.SpacingExactly | optimizer/m6_trust.py:1620-1643 | spacing changes what runs in parallel exactly when a batch with several BLE actions has one of them in a group that runs several actions in parallel |
| PlanScopes.ReducedFitting | optimizer/m6_trust.py:1520-1558 | reducing parallelism changes nothing there when every group fits the new cap |
| PlanScopes.ReducedChanges | optimizer/m6_trust.py:1520-1558 | and always does when a scope exceeds it |
| PlanScopes.ReducedWithoutRows | optimizer/m6_trust.py:1520-1558 | without fallback rows it does exactly when some group exceeds the new cap |
| ParallelReduction.PartExactly | optimizer/m6_trust.py:991-1005 | the parallel part of a group is empty when a row for order applies to it or one picks every action, and otherwise holds the actions no row picks |
| ParallelReduction.KeptExactly | optimizer/m6_trust.py:1536-1558 | cutting a group leaves its scopes alone exactly when: it ran serially and no chunk runs two actions in parallel; or at most one of its actions was free; or one chunk holds all free ones in the same order |
| ParallelReduction.ReducedExactly | optimizer/m6_trust.py:1520-1558 | in a plan that lists no action twice, reducing parallelism changes what runs in parallel exactly when some group above the new cap is not left alone so |
| ParallelReduction.GainsExactly | optimizer/m6_trust.py:1520-1558 | and it makes actions run in parallel that did not before exactly when it cuts a chunk with two free actions out of a group that ran serially because of its other actions |
| ParallelReduction.GainExample | optimizer/m6_trust.py:1520-1558 | a group of three actions kept in order by a row for the last one: with the limit lowered from 3 to 2 the first two run in parallel |
| Inversion.NoInversionExactly | optimizer/m6_trust.py:226-242 | there is no inversion exactly when both sequences, without repetition, agree on the operations they share |
| Inversion.HasSequenceInversion | optimizer/m6_trust.py:226-242 | the nested loops answer false exactly in that case |
| DagPatches.TightenDemandsSafeMode | optimizer/m6_trust.py:1971-1976 | a tightened guard demands safe mode, and tightening twice changes nothing more |
| DagPatches.ApplyRuleOverlay | optimizer/m6_trust.py:1949-1992 | exactly the constraints of disabled rules go and all others stay in order; those of tightened rules demand safe mode in addition to what they demanded; nothing else of the graph changes, and changes are reported exactly when there are any |
| DagPatches.OverlayExactly | optimizer/m6_trust.py:1949-1992 | in one expression: the other constraints, in order, each as its rule leaves it |
| DagPatches.OverlayLeaves | optimizer/m6_trust.py:1949-1992 | the places of the constraints that are left are exactly those of no disabled rule, and each differs at most in a guard that demands safe mode |
| DagPatches.ApplyLevel3 | optimizer/m6_trust.py:2136-2232 | level 3 appends, for each pair that is not skipped and not tied yet and only for those, one order constraint in the direction and order of the plan, and one against overlap of the BLE actions if there are several and none is there; nothing else of the graph changes |
| DagPatches.OrderEstablished | optimizer/m6_trust.py:2145-2190 | nothing is removed, and every neighbouring pair that is not skipped is tied by an order constraint afterwards, in whichever direction |
| DagPatches.OwnOrderExactly | optimizer/m6_trust.py:2145-2190 | a pair gets a constraint that demands its first action before its second exactly when no constraint ties the two already |
| DagPatches.OppositeOrderStays | optimizer/m6_trust.py:2161-2169 | a constraint that demands the opposite order is not corrected |
| DagPatches.Level3Idempotent | optimizer/m6_trust.py:2136-2232 | a second application finds nothing to add |
| DagPatches.HasPath | optimizer/m6_trust.py:1994-2009 | the queue search finds the target exactly when some path leads to it |
| Rollback.ChainIsComplete | optimizer/m6_trust.py:1736-1751 | whatever the counterexamples, the chain holds every level-1 strategy |
| Rollback.ChainOrder | optimizer/m6_trust.py:1736-1751 | spacing is tried first when order is at stake; otherwise parallelism, then session reuse, batching and spacing, but batching before session reuse after a timeout |
| Rollback.FirstUntriedFits | optimizer/m6_trust.py:2317-2318 | the strategy tried next is in the chain, has not been tried, and all before it have |
| Rollback.AtMostSix | optimizer/m6_trust.py:2287-2400 | a log without repetition has at most six patches |
| Rollback.StepLevel1 | optimizer/m6_trust.py:2319-2343 | the next strategy of the chain is tried once, and applied exactly when it changes the plan; graph and rules stay |
| Rollback.StepLevel2 | optimizer/m6_trust.py:2345-2369 | applied exactly when it has not been tried and there is a rule patch: the rules become the patched ones, the graph loses exactly the constraints of disabled rules and those of tightened rules demand safe mode, and a planner makes the plan anew from that graph |
| Rollback.StepLevel3 | optimizer/m6_trust.py:2371-2397 | at most once, only for order counterexamples and with a planner: the graph gains exactly the missing constraints, the planner makes the plan anew from it, and the rules stay; nothing is done exactly when none is missing |
| Rollback.Evaluate | optimizer/m6_trust.py:2234-2412 | for every comparison, replay, rule patch and planner the outcome ends a run of states, each made from the one before by the patch of the first level that has one, as stated for the levels, on the counterexamples of its own comparison; at most min(max(1, max_steps), 6) patches; before the bound the run ends only when nothing differs, nothing can be replayed or no level has anything to change; the acyclic flag is that of the first graph; at the bound the comparison uses the configuration of the plan before the last patch |
| Rollback.RunKeeps | optimizer/m6_trust.py:2287-2400 | along every run nodes and hard edges stay, every patch is logged, none twice, and the replay results belong to the current plan |
| Rollback.RunConservesActions | optimizer/m6_trust.py:2287-2400 | without a planner no run of patches loses or repeats an action of the plan |
| Rollback.RunKeepsDistinct | optimizer/m6_trust.py:2287-2400 | so a plan that lists no action twice never comes to do so |
| Rollback.StaleExactly | optimizer/m6_trust.py:2402-2410 | before its bound a run compares with the plan it returns; at its bound with the plan before the last patch, which is another plan, or has another configuration, exactly under the stated condition on that patch and the plan it was applied to |
| Rollback.StaleRun | optimizer/m6_trust.py:2402-2410 | whatever the replays say, one step on a plan of at most two parallel actions leaves nothing parallel, and the returned comparison still uses the parallel scopes of the plan before |
| Rollback.StaleExample | optimizer/m6_trust.py:2402-2410 | for one batch that runs two actions together the comparison lets them be in any order, though the returned plan runs them one after the other |
| Slices.WithinIsDistance | optimizer/m2_reduction.py:522-548 | level sets are distance sets: a node is within k exactly when a walk of at most k arcs leads to it from a seed |
| Slices.ExpandClosure | optimizer/m3_mssu.py:151-182 | the closure lies within its radius and equals it unless the size limit stopped the expansion |
| Slices.Distances | optimizer/m3_mssu.py:358-370 | the queue computes exact breadth-first distances inside the node set |
| Slices.PruneToCap | optimizer/m3_mssu.py:332-383 | an oversized closure is left with its best-ranked nodes up to the cap and all seeds, inside or outside the closure, and nobody outranked by a node that went |
| Slices.PrunesInside | optimizer/m3_mssu.py:332-383 | with seeds inside the closure that is exactly max(cap, number of seeds) nodes |
| SpatialSlice.Follow | optimizer/m2_reduction.py:526-543 | dependencies of an allowed type are always followed; control flow only within its back depth and, in a named function, while the count is below the limit, and then it is counted |
| SpatialSlice.SliceMarker | optimizer/m2_reduction.py:510-548 | the slice of a marker is what lies within its depth along the dependencies and some control flow: all within the back depth, at most the limit in each named function, and none left out but where the limit is used up |
| SpatialSlice.SliceBounds | optimizer/m2_reduction.py:510-548 | it holds everything within its depth along dependencies and nothing beyond its depth along possible steps; with back depth 0 it is exactly the former |
| SpatialSlice.SpatialKeep | optimizer/m2_reduction.py:497-550 | what is kept is exactly the union of one such slice for each marker |
| SpatialSlice.KeepsDependencies | optimizer/m2_reduction.py:497-550 | so everything within the depth of some marker along its dependencies is kept, and nothing beyond the depth of all markers along possible steps |
| SpatialSlice.KeepsOnlyDependencies | optimizer/m2_reduction.py:497-550 | with back depth 0 exactly what depends within the depth of some marker is kept |

## Left out

- Parsing, marker detection, grounding profiles, language-model calls, input and output, hashing, timestamps and
  progress files.
- Normalisation of action dictionaries: protocol, kind, device, session, host and endpoint keys, profile and capability
  classes and read-only flags are attributes of the modelled actions and steps; blank and upper-cased tokens are taken as
  normalised, except where `PlanLayout` strips ids.
- Lower-casing in `Text` covers ASCII letters only; stripping drops all that Python counts as white space.
- Floating point: rounded ratios are exact rationals rounded half to even; latencies of the batch scheduler are reals.
- Reason texts of validation results and warnings; only the flags and the recorded edges are modelled.
- The rules that collect candidate edges and constraints before cycle breaking; `FinishBuild` starts from what they collect.
- DagBuild.FinishBuild: the constraints that resource rules append are a parameter, because which ones are appended does not
  depend on the edges that were broken.
- BleConnectOverlap.ExpansionValidatesExactly: stated for positive timeouts; with a timeout of 0 phases can be empty and fewer
  actions active than begin early. With connect overlap off `BleTheorems.ExpansionValidates` covers these too.
- The refined plans that carry the corridors as overlays, and the ratio of savings to the original total.
- Selection of API corridors from a plan; it repeats the run-building of the BLE selection, which is modelled.
- The theorems about the simulated plan (`CombinedTheorems`, `CombinedReport`) are about plans whose batches have different
  names and non-negative latencies; `Validate` itself is modelled for all plans.
- CombinedReport.StepsHoldExactly: stated for candidates that carry an expansion and name their steps after their batches, as
  those built from API corridors do.
- CombinedResolution.Resolve: batch numbers inside batch names are given as `ordinals`.
- PlanLayout.ApplyLevel1: rates other than the query rate and batch size are not modelled.
- Rollback.StaleExactly: when the last patch reduced parallelism, what it says of the configuration is for plans that list no
  action twice, which without a planner holds of all plans of a run if it holds of the first (`RunKeepsDistinct`).
- Rollback.Evaluate: the rule patch of level 2, the action order, implicated actions and parallel pairs of level 3, and the
  classification of counterexamples are opaque functions of the surroundings; rule hardening and the certificate's other
  entries come after the loop and are not modelled.
- Overlap borrowing and action-local filtering of closures, and the tables of depths and caps for markers.
- Wall-clock budgets and retries.
