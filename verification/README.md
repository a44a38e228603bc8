# Verification of KOptimizer's core

KOptimizer watches a Kubernetes cluster and proposes how to run it for less money. This project models the parts of it
that carry hard invariants and proves those invariants, for all inputs, all runs and all interleavings:

- the scheduling simulator: would this pod fit on this node, and what follows when its answers are acted on
  (`Cluster.dfy`, `Simulator.dfy`, `SimulatorRuns.dfy`), what its selectors mean (`Selectors.dfy`), and the cached view of
  a node (`NodeCache.dfy`);
- the asynchronous database writer, as interleaved steps of producers, drainers, cancellation and one worker
  (`AsyncWriter.dfy`), and its shutdown (`WriterShutdown.dfy`);
- the circuit breaker: its rules over whole runs (`Breaker.dfy`) and the objects that follow them
  (`CircuitBreaker.dfy`);
- the metrics store: percentiles, windows, eviction and the cap on pod series (`MetricsStore.dfy`), and the windows of
  containers over whole runs (`PodMetrics.dfy`);
- finding a JSON object in free text (`JsonExtraction.dfy`);
- the in-place merge of layered Helm values (`HelmMerge.dfy`);
- splitting the cost of nodes over namespaces and workloads (`CostAllocation.dfy`), and what the split means for those
  who are charged (`CostFairness.dfy`);
- rightsizing advice for pods and node groups (`PodRightsizing.dfy`, `NodeGroupRightsizing.dfy`);
- the layered pricing cache: its layers (`PricingLayers.dfy`) and the object that keeps them (`PricingCache.dfy`); the
  AWS lookup on top of them with its own two caches (`AwsPricing.dfy`) and the object that does it (`AwsService.dfy`).

`Totals.dfy` holds sums, maxima, permutations and keys. `dafny verify dfyconfig.toml` checks everything.

Where the source changes objects, the model has classes, methods and loops, each proved against a function of the old
state; the results about runs are lemmas about those functions. Costs are reals, and the factors 0.7 and 1.2 are exact,
rounded down. Clock readings, answers of the database, of remote services and of the cluster are parameters.

## Where the code and its comments differ

The model follows the code.

- `Drain` is documented to wait until all queued writes are processed. After a cancellation the worker can leave while
  `Enqueue` still accepts, and such writes are never processed (`CancellationCanStrand`). Nothing is lost when every
  cancellation comes after a Drain call has begun to close the writer (`GracefulShutdownLosesNothing`). From every state
  before that a write can still be stranded, and from a state after it only what was left over already (`CanStrandIff`).
  The program cancels first and drains afterwards (`cmd/optimizer/main.go:463-473`), so that it is not protected
  (`CancellingFirstCanStrand`).
- `IsTripped` is documented to let one probe through. Its success closes the breaker (`SuccessfulProbeCloses`), and its
  failure trips it again (`FailedProbeTripsAgain`). While no result is recorded, a second caller gets through if and
  only if `ProbeCompleted` was called in between (`SecondPassIffCompleted`). Over calls of any kind a second pass needs
  a completion, a clearing, or a recorded failure and a new cooldown (`SecondPassNeeds`). After `Reset` in half-open one
  failure trips the breaker (`ResetInHalfOpenTripsOnFirstFailure`).
- `CountUnschedulable` counts pods that fit nowhere now. That bounds what stays unplaced when no pending pod counts for a
  required affinity term or an enforced spread constraint of another one (`UnschedulableIsLowerBound`). For a pod that
  does count, of either kind, there is an example in which the bound fails (`AffinityBreaksTheBound`,
  `SpreadBreaksTheBound`).
- The spread test that only sees the node's own pods is documented as conservative. It lets pods through that the test
  over the cluster keeps away (`LocalSpreadIsNotConservative`).
- `Cleanup` is documented to remove series without points in the retention. It looks at the last point only, and loses
  points of the retention exactly when that one is old and another one is not (`CleanKeepsWindowsIff`).
- Gt and Lt are documented to compare integers. Where one of two values is no integer they compare as strings, so that
  values of both kinds can be less than each other in a circle (`MixedValuesRunInCircles`, `ValueLessIsTransitive`).
- Affinity terms and spread constraints match pods by label selectors, in two functions. They differ in In expressions
  that accept the empty value, for pods without the label, and in nothing else (`MatchersDifferIff`).
- The cost of every node is documented to be distributed in full, so that namespaces add up to the cost of the cluster.
  They do if and only if every node that costs something has a pod with a demand on it (`GroupsPayForTheClusterIff`).
- `Get` is documented with times to live of one and 24 hours. They add up to 25 hours, to the nanosecond
  (`AlmostTwentyFiveHours`), to 26 behind the AWS lookup, and to 27 when the lookup falls back on instance types, which
  keep prices of the pricing cache for another hour (`AlmostTwentySixHours`, `AlmostTwentySevenHours`).
- The rightsizing advice has a least amount of savings and a CPU floor from usage. Neither ever decides anything
  (`MemoryAloneSavesEnough`, `UsageFloorNeverBinds`).

## Model

| member | source | states |
|---|---|---|
| Simulator.ToleratesIffCovered | internal/scheduler/simulator.go:112-147 | a pod tolerates exactly the taints of which each that keeps pods away is covered by a toleration: key, effect and value agree or are left open |
| Simulator.EffectivePodResources | internal/scheduler/simulator.go:149-174 | the results are the least CPU and the least memory that suffice for all containers at once and for every init container on its own |
| Simulator.PodGpuRequest | internal/scheduler/simulator.go:212-229 | the least number of GPUs that suffices in the same way |
| Simulator.HasEnoughResources | internal/scheduler/simulator.go:176-209 | true exactly when the existing pods and the new one together stay within allocatable; GPUs matter only to a pod that asks for them |
| Simulator.CountDomains | internal/scheduler/simulator.go:541-555 | the domain map holds one entry for every value of the topology key on some node, with the matching pods on all nodes of that value |
| Simulator.MinMaxCount | internal/scheduler/simulator.go:558-574 | least and greatest count, for every order in which the map is walked |
| Simulator.SatisfiesTopologySpreadConstraints | internal/scheduler/simulator.go:521-592 | true exactly when for every enforced constraint any two domains would differ by at most the allowed skew with the pod added |
| Simulator.AcceptsIff | internal/scheduler/simulator.go:36-62 | the checks that look at no other pod: ready, not cordoned, every taint that keeps pods away covered, every selected label there, one required term matching |
| Simulator.CanScheduleWithTopology | internal/scheduler/simulator.go:36-85 | feasible exactly when all nine conditions hold, and otherwise the reason is that of the first one that fails |
| Simulator.CanSchedule | internal/scheduler/simulator.go:26-28 | the same with only the node's own pods in view |
| Simulator.FindFittingNodes | internal/scheduler/simulator.go:89-98 | every node that fits, once, in list order, and no other |
| Simulator.CountUnschedulable | internal/scheduler/simulator.go:101-110 | the number of pending pods that fit on no node |
| SimulatorRuns.RecountAfterPlacing | internal/scheduler/simulator.go:541-557 | recounting the domains after a placement equals the simulated increment, in every domain |
| SimulatorRuns.PlacingKeepsSkew | internal/scheduler/simulator.go:521-577 | one placement that the search allows keeps the skew of a constraint bounded |
| SimulatorRuns.SkewStaysBounded | internal/scheduler/simulator.go:521-577 | over every run of placements in which all matching pods carry the constraint, the skew never exceeds the maximum |
| SimulatorRuns.PlacingKeepsMembersApart | internal/scheduler/simulator.go:410-448 | one placement that the search allows never puts two self-anti-affine pods into one domain |
| SimulatorRuns.MembersStayApart | internal/scheduler/simulator.go:410-448 | over every run of placements and removals, pods that carry and match one anti-affinity term never share a domain |
| SimulatorRuns.RoomIffFitsTogether | internal/scheduler/simulator.go:176-209 | there is room for a pod exactly when it and the pods on the node fit together, for a pod without GPUs if these are not over-committed already |
| SimulatorRuns.NeverOverCommitted | internal/scheduler/simulator.go:176-209 | over every run of placements and removals, CPU, memory and GPUs on each node stay within allocatable |
| SimulatorRuns.InitContainersStayWithin | internal/scheduler/simulator.go:149-209 | on every node of every run, the request of any init container and those of the containers of all other pods there stay together within allocatable, for CPU, memory and GPUs |
| SimulatorRuns.FitsIsAntitone | internal/scheduler/simulator.go:89-98 | a pod that fits among more pods also fits among fewer, when none of those that were added counts for its required affinity or enforced spread |
| SimulatorRuns.UnschedulableIsLowerBound | internal/scheduler/simulator.go:100-110 | however the pending pods are placed, in any order, at least the counted number stays unplaced, when none of them counts for a required affinity term or an enforced spread constraint of another |
| SimulatorRuns.UnconstrainedIsLowerBound | internal/scheduler/simulator.go:100-110 | in particular when no pending pod has such a term or constraint |
| SimulatorRuns.AffinityBreaksTheBound | internal/scheduler/simulator.go:361-404 | a cluster and a run in which a pod that counts for the required affinity of another makes the count too large |
| SimulatorRuns.SpreadBreaksTheBound | internal/scheduler/simulator.go:521-577 | the same for an enforced spread constraint |
| SimulatorRuns.LocalSpreadIsNotConservative | internal/scheduler/simulator.go:519-590 | a constraint that holds for the node's own pods and is violated over the cluster |
| SimulatorRuns.LocalViewAgrees | internal/scheduler/simulator.go:24-34 | the local test agrees with the cluster-wide one, reason included, when the keys tell the nodes apart and no spread is enforced |
| Selectors.PrintedIsRead | internal/scheduler/simulator.go:304-326 | a printed integer is read back if and only if it fits in 64 bits |
| Selectors.SignedIsRead | internal/scheduler/simulator.go:304-326 | so is one with either sign and any number of leading zeros |
| Selectors.StringsAreOrdered | internal/scheduler/simulator.go:309-325 | of two different strings exactly one is less than the other |
| Selectors.NumbersCompareByValue | internal/scheduler/simulator.go:304-326 | printed numbers compare by value |
| Selectors.ValueLessIsTransitive | internal/scheduler/simulator.go:304-326 | the comparison is transitive as long as all values are numbers or none is |
| Selectors.MixedValuesRunInCircles | internal/scheduler/simulator.go:304-326 | three values of both kinds, each less than the next and the last less than the first |
| Selectors.OperatorsAreComplements | internal/scheduler/simulator.go:277-303 | In and NotIn, and Exists and DoesNotExist, are complements, labels missing or not |
| Selectors.GtAndLtCompare | internal/scheduler/simulator.go:304-326 | a number on a node meets Gt or Lt by its value, and a missing label meets neither |
| Selectors.SelectorIsExpressions | internal/scheduler/simulator.go:231-241 | a node selector is one In expression with one value for every entry |
| Selectors.TermsAndAffinity | internal/scheduler/simulator.go:243-275 | a term asks for all of its parts, and required node affinity for one of its terms |
| Selectors.MatchersDifferIff | internal/scheduler/simulator.go:450-629 | an affinity term and a spread constraint with the same label selector match the same pods, except through an In expression that accepts the empty value for a label that the pod lacks |
| Selectors.LabelsAreExpressions | internal/scheduler/simulator.go:477-514 | for an affinity term a label that is asked for is the same as an In expression with that value |
| NodeCache.IsPodStuckPending | internal/state/node.go:192-213 | true exactly for pending pods with a container or init container waiting for one of four reasons |
| NodeCache.NodeState.Refresh | internal/state/cluster.go:471-482 | a refreshed entry sums the effective requests of running and viable pending pods, and the GPUs of all |
| NodeCache.FitIsWithinAvailable | internal/state/node.go:82-97 | a pod that the simulator lets onto a node asks for no more than the cache says is available there |
| NodeCache.LeftOutRequestsNothing | internal/state/cluster.go:471-482 | a pod adds its effective request to the entry unless it has finished or waits for one of the four reasons |
| NodeCache.RoomIffAvailable | internal/state/node.go:82-97 | when no pod is left out and the node reports allocatable, a pod has room in the simulator if and only if it asks for no more than the cache has available |
| AsyncWriter.MutexStep | internal/store/writer.go:72-108 | every step keeps exactly the owner of the mutex inside its critical section |
| AsyncWriter.OnceStep | internal/store/writer.go:100-108 | every step keeps at most one caller inside the once, and the closed flag and the channel in line with it |
| AsyncWriter.RunsKeepInv | internal/store/writer.go:38-108 | all invariants hold in every state of every interleaving |
| AsyncWriter.NeverPanics | internal/store/writer.go:72-108 | no interleaving sends on a closed channel or closes it twice |
| AsyncWriter.AcceptedInOrder | internal/store/writer.go:38-91 | accepted writes are the executed, the running and the queued ones, in this order; the queue never exceeds its capacity |
| AsyncWriter.CapacityIsFixed | internal/store/writer.go:26-34 | the capacity is the requested one, or 4096 when none is, and never changes |
| AsyncWriter.SendIsAcceptedIffRoom | internal/store/writer.go:72-91 | in every state of every run, a send into a queue with room appends exactly the write of its call to what is accepted and queued; a send into a full queue drops it |
| AsyncWriter.DroppedIsSendsToFull | internal/store/writer.go:80-90 | over every run, as many writes are dropped as sends found the queue full |
| AsyncWriter.NothingIsDroppedWithinCapacity | internal/store/writer.go:72-91 | a run that offers no more writes than the channel holds drops none: each is accepted, under way, or refused after closing, and nothing is refused before |
| AsyncWriter.OfferedIsAccountedFor | internal/store/writer.go:72-91 | every offered write was accepted, dropped or refused after closing |
| AsyncWriter.DrainGuarantee | internal/store/writer.go:98-108 | after Drain everything accepted has run, except exactly what was accepted after the worker exited, which needs a cancellation |
| WriterShutdown.GracefulShutdownLosesNothing | internal/store/writer.go:36-108 | when the context is only cancelled once a Drain call has the mutex or has closed the writer, everything accepted has run when Drain returns |
| WriterShutdown.CanStrandIff | internal/store/writer.go:36-108 | from a reachable state some continuation ends with a returned Drain and a stranded write if and only if the writer is not closing yet, or the worker is gone and has left writes |
| WriterShutdown.CancellingFirstCanStrand | internal/store/writer.go:49-61 | from every reachable state that is not closing, cancelling leaves the way open to a stranded write |
| WriterShutdown.HoldingTheMutexIsEnough | internal/store/writer.go:100-105 | a cancelled state, not closed yet, in which a Drain call holds the mutex and no continuation strands a write |
| WriterShutdown.MeasureFalls | internal/store/writer.go:38-108 | every step that neither starts a call nor cancels brings the end of all calls closer |
| WriterShutdown.DrainReturns | internal/store/writer.go:98-108 | when no more calls are started, the writer comes to rest after boundedly many steps in any order, and every Drain call under way has returned |
| AsyncWriter.DrainIsFinal | internal/store/writer.go:98-108 | after Drain no step of anyone changes what was accepted, executed or stranded |
| AsyncWriter.SeeingTheCloseStrandsNothing | internal/store/writer.go:44-48 | a worker that leaves because of the closed channel has executed everything accepted |
| AsyncWriter.CancellationCanStrand | internal/store/writer.go:49-61 | an interleaving in which Drain returns and an accepted write never runs |
| AsyncWriter.WorkerWindsDown | internal/store/writer.go:38-65 | once the channel is closed the worker always has a step, and each one brings its exit closer |
| AsyncWriter.DrainNeverDeadlocks | internal/store/writer.go:100-108 | in every reachable state with a waiting caller, somebody can take a step |
| Breaker.NewerTwice | internal/state/circuitbreaker.go:184-199 | pruning with an older cutoff first changes nothing |
| Breaker.ListsAgreeWithHistory | internal/state/circuitbreaker.go:59-101 | over every run with a clock in order, the pruned lists agree with everything recorded since the last clear on the current window |
| Breaker.FailureTripsExactly | internal/state/circuitbreaker.go:77-101 | in the closed state a failure trips exactly when the window of the full history holds five results failing at or above the threshold |
| Breaker.FailsTooOftenIff | internal/state/circuitbreaker.go:93-98 | failing too often means at least five results of which at least the threshold's share failed |
| Breaker.GateInvariant | internal/state/circuitbreaker.go:107-151 | along checks and trips the entry is half-open exactly when somebody has passed |
| Breaker.AtMostOneProbe | internal/state/circuitbreaker.go:107-151 | from tripped, at most one IsTripped lets its caller through, and only after the cooldown since the last trip |
| Breaker.HalfOpenImpliesTrippedStep | internal/state/circuitbreaker.go:59-164 | a call keeps half-open a special case of tripped if and only if it is not a Reset in half-open |
| Breaker.HalfOpenImpliesTripped | internal/state/circuitbreaker.go:59-164 | half-open implies tripped on every run without a Reset in half-open |
| Breaker.ResetInHalfOpenTripsOnFirstFailure | internal/state/circuitbreaker.go:153-164 | a new breaker that is tripped, probed and reset blocks nobody, for any number of calls, and is tripped by the first failure, alone in its window |
| Breaker.SecondPassIffCompleted | internal/state/circuitbreaker.go:103-151 | after a probe, as long as only checks, trips and completions follow, a check lets a second caller through if and only if the probe was completed in between |
| Breaker.SecondPassNeeds | internal/state/circuitbreaker.go:59-164 | after a probe, over calls of any kind, a second pass needs a completion, a clearing, or a recorded failure and a cooldown that has passed since the last trip |
| Breaker.SuccessfulProbeCloses | internal/state/circuitbreaker.go:59-131 | after the success of a probe every check lets its caller through, until Trip is called or a failure is one too many |
| Breaker.FailureAfterProbeTripsExactly | internal/state/circuitbreaker.go:59-101 | after the success of a probe a failure trips exactly when, of everything recorded since, the window fails too often |
| Breaker.FailedProbeTripsAgain | internal/state/circuitbreaker.go:77-131 | after the failure of a probe, whatever is recorded or completed, a check lets its caller through if and only if a whole cooldown separates it from the failure |
| Breaker.UnrecordedProbeOpensGate | internal/state/circuitbreaker.go:133-142 | after a completion without a result every following check lets its caller through, and changes nothing |
| CircuitBreaker.PruneOlderThan | internal/state/circuitbreaker.go:190-199 | compaction in place leaves exactly the newer times, in order, at the front |
| CircuitBreaker.ControllerState.RecordFailure | internal/state/circuitbreaker.go:77-101 | the object does what the breaker's rule for failures says |
| CircuitBreaker.ControllerState.RecordSuccess | internal/state/circuitbreaker.go:59-72 | the object does what the rule for successes says: in half-open it is closed afterwards and remembers nothing |
| CircuitBreaker.ControllerState.IsTripped | internal/state/circuitbreaker.go:107-131 | answer and new state follow the rule for checks |
| CircuitBreaker.CircuitBreaker.constructor | internal/state/circuitbreaker.go:33-46 | a new breaker knows no controller, and has 0.5 and five minutes where nothing valid is given |
| CircuitBreaker.CircuitBreaker.GetOrCreate | internal/state/circuitbreaker.go:48-55 | an unknown controller gets a fresh entry, a known one keeps its own |
| CircuitBreaker.CircuitBreaker.RecordSuccess | internal/state/circuitbreaker.go:59-72 | only the entry of the controller changes, by the rule for successes |
| CircuitBreaker.CircuitBreaker.RecordFailure | internal/state/circuitbreaker.go:77-101 | only the entry of the controller changes, by the rule for failures |
| CircuitBreaker.CircuitBreaker.IsTripped | internal/state/circuitbreaker.go:107-131 | an unknown controller is not blocked and stays unknown; otherwise the rule for checks |
| CircuitBreaker.CircuitBreaker.ProbeCompleted | internal/state/circuitbreaker.go:136-142 | only the probe flag of a known controller is cleared |
| CircuitBreaker.CircuitBreaker.Trip | internal/state/circuitbreaker.go:145-151 | only the entry of the controller is tripped, at the time of the call |
| CircuitBreaker.CircuitBreaker.Reset | internal/state/circuitbreaker.go:154-164 | only the entry of a known controller is cleared, its half-open flag excepted |
| Percentiles.Percentile | internal/metrics/store.go:330-342 | the result is a sample with more than the percentage at or below it (below 100) and at most the percentage strictly below it |
| Percentiles.PercentilesGrow | internal/metrics/store.go:330-342 | a larger percentage never has a smaller percentile |
| Percentiles.PercentileOfPermutation | internal/metrics/store.go:330-342 | the percentile depends only on the multiset of samples |
| Percentiles.MaxVal | internal/metrics/store.go:344-355 | the greatest sample |
| MetricsStore.ComputeWindow | internal/metrics/store.go:214-251 | the summary of exactly the points after the cutoff, and none without such points |
| MetricsStore.SummaryIsUnique | internal/metrics/store.go:238-250 | the points determine the summary |
| MetricsStore.WindowIsOrdered | internal/metrics/store.go:238-250 | P50, P95, P99 and the maximum of a window are in order |
| MetricsStore.Evict | internal/metrics/store.go:253-268 | drops the leading old points of a series and deletes it when none is left |
| MetricsStore.RemoveStale | internal/metrics/store.go:280-295 | keeps exactly the series whose last point is not older than the retention |
| MetricsStore.EvictingOldestCleans | internal/metrics/store.go:297-327 | evicting the oldest entries leaves the capped number of keys, none older than an evicted one |
| MetricsStore.CleanupPods | internal/metrics/store.go:287-327 | afterwards there are exactly the smaller of survivors and cap many keys, unchanged, and no evicted key was seen later than a kept one |
| MetricsStore.Store.RecordNodeMetrics | internal/metrics/store.go:118-140 | one point is added to the node's series, which is then evicted |
| MetricsStore.Store.RecordPodMetrics | internal/metrics/store.go:143-182 | one point for each container, under the key of its own three names, each evicted at a clock reading of its own, and never more than 120,000 keys afterwards |
| MetricsStore.Store.Cleanup | internal/metrics/store.go:273-328 | node series lose the stale ones, and so do pod series, of which at most 100,000 stay |
| MetricsStore.Store.GetNodeWindow | internal/metrics/store.go:200-204 | the summary of the node's kept points |
| MetricsStore.Store.GetPodContainerWindow | internal/metrics/store.go:207-212 | the summary of the points kept under the key of the three names |
| MetricsStore.CleanKeepsWindowsIff | internal/metrics/store.go:280-291 | a cleanup changes no window from its cutoff on if and only if the series survives or holds nothing newer than the cutoff |
| MetricsStore.StoreKeepsWindows | internal/metrics/store.go:118-140 | over every run whose cleanups are harmless, what is kept and what was ever recorded agree on the retention, in order or not |
| MetricsStore.AgreesIffHarmless | internal/metrics/store.go:118-291 | the store answers like the complete history throughout a run if and only if every cleanup in it is harmless |
| MetricsStore.OrderedCleansAreHarmless | internal/metrics/store.go:280-286 | with time stamps in order every cleanup is harmless |
| MetricsStore.WindowIsOfFullHistory | internal/metrics/store.go:200-268 | when the cleanups are harmless, a window within the retention is that of the complete history, across any mix of recording, evicting and cleaning |
| MetricsStore.CleanupCanHarm | internal/metrics/store.go:280-286 | with a time stamp out of order a cleanup loses a point that is within the retention |
| MetricsStore.StaleIffEvictedAltogether | internal/metrics/store.go:253-291 | for points in order a cleanup removes a series exactly when evicting its old points would empty it |
| MetricsStore.NoEmptySeries | internal/metrics/store.go:253-291 | recording, evicting and removing stale series never leave a key without points |
| PodMetrics.PodKeyIsInjective | internal/metrics/store.go:156 | containers with different names have different keys, when no namespace and no pod name contains a slash |
| PodMetrics.CleanupKeepsWindowsIff | internal/metrics/store.go:278-327 | a cleanup, by age or by the cap, changes no window of a pod series if and only if the series stays or holds nothing newer than the cutoff |
| PodMetrics.UncappedSparesIff | internal/metrics/store.go:287-297 | within the cap that is so exactly when the series survives by its last point or holds nothing newer |
| PodMetrics.PodStoreKeepsWindows | internal/metrics/store.go:143-182 | over every run of recordings and cleanups that spare a container, what is kept under its key and what was recorded for its namespace, pod and name agree on the retention |
| PodMetrics.PodWindowIsOfFullHistory | internal/metrics/store.go:143-212 | a window of a container within the retention then summarises exactly the CPU and memory recorded for that namespace, pod and container |
| JsonExtraction.FindJsonStart | pkg/aigate/gate.go:224-231 | the byte offset of the first opening brace, or -1 without one |
| JsonExtraction.FindJsonEnd | pkg/aigate/gate.go:233-265 | the index at which the scan of the text from the start first closes all braces, or -1 |
| JsonExtraction.ScanConcat | pkg/aigate/gate.go:233-265 | scanning a text in two parts is scanning it in one |
| JsonExtraction.ValueIsNeutral | pkg/aigate/gate.go:233-265 | any serialised JSON value leaves the scanner as it found it and never ends the scan inside an object |
| JsonExtraction.ObjectEndsAtItsBrace | pkg/aigate/gate.go:233-265 | the scan of any serialised object ends at its last brace, whatever follows |
| JsonExtraction.TruncatedObjectHasNoEnd | pkg/aigate/gate.go:233-265 | no end is found in a proper prefix of a serialised object |
| JsonExtraction.ObjectComesFirstIffNoEarlierBrace | pkg/aigate/gate.go:224-231 | the start found is that of the object if and only if no opening brace comes before it |
| JsonExtraction.FoundBoundsAreTheObject | pkg/aigate/gate.go:224-265 | in any text around a serialised object, with no opening brace before it, the bounds found are those of the object |
| JsonExtraction.ExtractObject | pkg/aigate/gate.go:207-219 | the slice taken from such a text is the object |
| ValueTree.SourceLeafWins | internal/helmdrift/helmdrift.go:567-577 | every leaf of the source is in the merge |
| ValueTree.UntouchedPathKeepsValue | internal/helmdrift/helmdrift.go:567-577 | a path neither in the source nor under one of its leaves keeps the destination's value |
| ValueTree.MergeIsIdempotent | internal/helmdrift/helmdrift.go:567-577 | merging a tree with itself changes nothing |
| ValueTree.MergeWithEmpty | internal/helmdrift/helmdrift.go:360-369 | an empty map is neutral on both sides, as at the start of the fold |
| ValueTree.HiddenIff | internal/helmdrift/helmdrift.go:567-577 | the source replaces the destination altogether if and only if it has all its keys and every map of the destination meets only such maps or leaves |
| ValueTree.MergeAssociatesIff | internal/helmdrift/helmdrift.go:359-370 | folding three layers either way gives the same if and only if, wherever release has a leaf between two maps, the map of base adds nothing to that of env |
| ValueTree.AgreeingLayersAssociate | internal/helmdrift/helmdrift.go:359-370 | layers that never disagree about map and leaf can be grouped either way |
| ValueTree.LeafBetweenMapsBreaksGrouping | internal/helmdrift/helmdrift.go:567-577 | three layers for which the grouping matters |
| HelmMerge.DeepMerge | internal/helmdrift/helmdrift.go:567-577 | the in-place merge of separate trees of objects leaves the destination holding the merged shape, sharing the source's objects, and touches nothing else |
| HelmMerge.TreeOfMerge | internal/helmdrift/helmdrift.go:567-577 | the values of the merged shape are the merge of the values |
| HelmMerge.MergeIsSeparate | internal/helmdrift/helmdrift.go:567-577 | the merged shape reaches no object twice, although it shares those of the source |
| HelmMerge.MergeRefinesValues | internal/helmdrift/helmdrift.go:567-577 | merging in place computes the merge of values |
| HelmMerge.LayerValues | internal/helmdrift/helmdrift.go:359-370 | merging layer after layer into one map computes the fold of their values |
| HelmMerge.LastLayerDecides | internal/helmdrift/helmdrift.go:359-370 | the effective value at a path is that of the last layer with a leaf there, when no later layer touches the path |
| CostAllocation.PodWeight | internal/apiserver/handler/cost.go:639-658 | half the CPU share plus half the memory share of the containers; what that means for the amounts charged is stated by the members of CostFairness |
| CostAllocation.GetByNamespace | internal/apiserver/handler/cost.go:69-105 | every namespace is charged the weighted portions of its pods on all nodes with capacity, cost and weight |
| CostAllocation.GetByWorkload | internal/apiserver/handler/cost.go:115-171 | every workload key is charged the portions of its pods, and every entry describes a pod with its key |
| CostAllocation.AllocationConserves | internal/apiserver/handler/cost.go:69-105 | whatever the grouping, the groups together cost what the distributed nodes cost |
| CostAllocation.GroupsAddUp | internal/apiserver/handler/cost.go:115-171 | a set of groups is charged what its groups are charged |
| CostAllocation.EndpointsAgree | internal/apiserver/handler/cost.go:69-171 | a namespace costs the sum of its workloads, when no namespace contains a slash |
| CostAllocation.WorkloadKeyIsInjective | internal/apiserver/handler/cost.go:142-151 | different workloads have different keys, when no namespace and no owner kind contains a slash |
| CostAllocation.WorkloadIsChargedItsPods | internal/apiserver/handler/cost.go:142-162 | the entry of a workload then describes it, and holds what its own pods are charged and no others |
| CostFairness.GroupFollowsDemand | internal/apiserver/handler/cost.go:83-95 | a group of pods is charged that part of a node's cost which its requests, brought to a common denominator of the two capacities, are of all requests there |
| CostFairness.EntryFollowsDemand | internal/apiserver/handler/cost.go:69-105 | so does every entry of an allocation of one node |
| CostFairness.EqualFractionsCostTheSame | internal/apiserver/handler/cost.go:651-656 | a pod that requests a fraction of the CPU and one that requests the same fraction of the memory are charged the same |
| CostFairness.RequestsAddUp | internal/apiserver/handler/cost.go:639-658 | a pod that requests what two others request together is charged what those two are charged together |
| CostFairness.DistributedIff | internal/apiserver/handler/cost.go:73-93 | the cost of a node is distributed if and only if it is not zero and some pod requests a resource of which the node has some |
| CostFairness.GroupsPayTheBill | internal/apiserver/handler/cost.go:69-171 | however the pods are grouped, the groups pay exactly 730.5 hours of the nodes on which some pod has a demand |
| CostFairness.GroupsPayForTheClusterIff | internal/apiserver/handler/cost.go:81-82 | they pay for the whole cluster if and only if every node that costs something has such a pod |
| CostFairness.UnitsDoNotMatter | internal/apiserver/handler/cost.go:639-658 | counting CPU or memory in other units, in all requests and capacities, changes no entry of any grouping |
| CostFairness.EndpointsIgnoreUnits | internal/apiserver/handler/cost.go:69-171 | in particular it changes no amount of either endpoint |
| PodRightsizing.FindPeaks | internal/apiserver/handler/recommendations_engine.go:270-297 | the summed 95th percentiles if every container has enough data, the current usage otherwise |
| PodRightsizing.PartialHistoryIsIgnored | internal/apiserver/handler/recommendations_engine.go:270-297 | one container with less than a day of data points makes the current usage count |
| PodRightsizing.CompleteHistoryDecides | internal/apiserver/handler/recommendations_engine.go:270-297 | with a day of data points for all containers the current usage does not matter, and each container adds its percentile |
| PodRightsizing.MembersAreCounted | internal/apiserver/handler/recommendations_engine.go:245-303 | a group consists of exactly the eligible pods of its owner that use less than half of their request |
| PodRightsizing.MembersAreUnderused | internal/apiserver/handler/recommendations_engine.go:245-303 | these are exactly the owner's pods outside the three system namespaces and not of a DaemonSet, running for ten minutes, with both requests, that use less than half of the CPU they request |
| PodRightsizing.OwnerGroup.Add | internal/apiserver/handler/recommendations_engine.go:318-325 | adds one pod to the totals and changes nothing else |
| PodRightsizing.GroupPods | internal/apiserver/handler/recommendations_engine.go:223-326 | one group for every owner with counted pods, holding the totals of exactly those, and placed after the first |
| PodRightsizing.CapacityIsOfItsNode | internal/apiserver/handler/recommendations_engine.go:223-227 | the node capacity for a pod is that of the node it names, the last one of that name |
| PodRightsizing.MeanStaysUnderHalf | internal/apiserver/handler/recommendations_engine.go:327-332 | rounding the averages down keeps usage below half of the request |
| PodRightsizing.UsageFloorNeverBinds | internal/apiserver/handler/recommendations_engine.go:343-347 | the floor from usage is never above what must be kept of the request |
| PodRightsizing.MemoryAloneSavesEnough | internal/apiserver/handler/recommendations_engine.go:396-414 | two GiB less memory already save more than the least amount reported |
| PodRightsizing.SizeGroup | internal/apiserver/handler/recommendations_engine.go:327-414 | despite all floors, something is suggested exactly when more than a core is requested and the memory target is two GiB below the request, and then it is the target |
| PodRightsizing.SuggestedIff | internal/apiserver/handler/recommendations_engine.go:327-414 | something is suggested if and only if more than a core is requested and two GiB less are still enough memory |
| PodRightsizing.GroupsUseUnderHalf | internal/apiserver/handler/recommendations_engine.go:299-326 | the totals of every group stay below half, because each pod does |
| PodRightsizing.HasMetricsIff | internal/apiserver/handler/recommendations_engine.go:212-221 | there is advice only if more than a tenth of the pods report usage, the rounded tenth notwithstanding |
| PodRightsizing.AppendPodRightsizing | internal/apiserver/handler/recommendations_engine.go:209-447 | exactly one recommendation for each owner that deserves one, in any order, and none without metrics |
| PodRightsizing.CpuCoversPeaks | internal/apiserver/handler/recommendations_engine.go:343-358 | the suggested CPU of all pods covers 1.2 times their summed peaks, rounding included |
| PodRightsizing.AdviceIsSafe | internal/apiserver/handler/recommendations_engine.go:245-411 | every recommendation: CPU exactly the larger of a core and 0.7 of the average request, enough memory for the average peak, two GiB less memory, savings of at least 6.18 for each pod |
| PodRightsizing.AdviceNamesItsPods | internal/apiserver/handler/recommendations_engine.go:264-316 | a recommendation is for exactly the counted pods of the namespace and owner that it names, when no namespace and no owner kind contains a slash |
| PodRightsizing.AdvisedMemoryIsLeast | internal/apiserver/handler/recommendations_engine.go:363-395 | the suggested memory is the least amount of at least 32 MiB that covers the average peak with headroom and keeps the node's proportion of memory to CPU, or without a node the requested one |
| PodRightsizing.AdvisedSavings | internal/apiserver/handler/recommendations_engine.go:395-400 | the savings are a month of 730.5 hours of what each pod gives up, at 0.031611 for a vCPU and 0.004237 for a GiB |
| NodeGroupRightsizing.FindLoad | internal/apiserver/handler/recommendations_engine.go:487-518 | peaks if every node has enough data and there is capacity, the kept totals otherwise |
| NodeGroupRightsizing.PartialHistoryIsIgnored | internal/apiserver/handler/recommendations_engine.go:491-518 | one node with less than six hours of data points makes the decision one without any history |
| NodeGroupRightsizing.CompleteHistoryDecides | internal/apiserver/handler/recommendations_engine.go:491-518 | with six hours of data points for all nodes the kept totals do not matter |
| NodeGroupRightsizing.CompleteHistoryAdds | internal/apiserver/handler/recommendations_engine.go:495-509 | the load then is the sum of the windows and of the capacities of the nodes |
| NodeGroupRightsizing.HalfUsedIffCounted | internal/apiserver/handler/recommendations_engine.go:528-535 | a count is large enough if and only if the load uses at most half of that many average nodes |
| NodeGroupRightsizing.KeptIsLeastEnough | internal/apiserver/handler/recommendations_engine.go:528-535 | the target is the least count that leaves both resources at most half used |
| NodeGroupRightsizing.HalfOfTheNodesCanGo | internal/apiserver/handler/recommendations_engine.go:524-539 | below 25 percent at least half of the nodes, rounded down, can go, and one is kept |
| NodeGroupRightsizing.ReduceGroup | internal/apiserver/handler/recommendations_engine.go:472-566 | a reduction exactly for hardly used groups without GPUs whose savings suffice, however the guards are ordered |
| NodeGroupRightsizing.AppendNodeGroupRightsizing | internal/apiserver/handler/recommendations_engine.go:471-569 | the reductions of all groups, in their order |
| NodeGroupRightsizing.ReductionsAreOfGroups | internal/apiserver/handler/recommendations_engine.go:471-569 | every group contributes its own reduction, if it has one, in its own place, and nothing else |
| NodeGroupRightsizing.ReductionIsSafe | internal/apiserver/handler/recommendations_engine.go:524-539 | every reduction removes at least half of the nodes, leaves one, and projects at most 50 percent, which one node fewer would exceed |
| NodeGroupRightsizing.ReducedIff | internal/apiserver/handler/recommendations_engine.go:472-550 | there is a reduction if and only if the group has two nodes, none with a GPU, uses something but less than a quarter of either resource, and the removable nodes cost five dollars a month |
| NodeGroupRightsizing.ReductionSavings | internal/apiserver/handler/recommendations_engine.go:541-547 | the savings are a month of 730.5 hours of the removable nodes at the average cost of all |
| PricingLayers.FoundWasPutUnder | internal/store/pricing_cache.go:93-218 | a price that is found was put under its cache key less than 25 hours, and the time of a query and two puts, before the Get began, over every run |
| PricingLayers.FoundWasPut | internal/store/pricing_cache.go:93-218 | with keys of its own, it was put for that provider, region and type within the same time |
| PricingLayers.KeysDiffer | internal/store/pricing_cache.go:89-91 | providers without a colon have keys of their own |
| PricingLayers.PutIsSeenIffSameKey | internal/store/pricing_cache.go:89-218 | after any run, a put for another provider and region is found if and only if the keys are equal, and otherwise changes nothing |
| PricingLayers.ColonsMixKeys | internal/store/pricing_cache.go:89-91 | two different pairs with equal keys |
| PricingLayers.AlmostTwentyFiveHours | internal/store/pricing_cache.go:93-170 | a run that serves a price two nanoseconds short of 25 hours old |
| PricingLayers.ExpiredMemoryFindsLastRows | internal/store/pricing_cache.go:136-158 | once memory has expired, exactly the types whose last committed put is recent are found, even those that later puts left out |
| PricingLayers.FindsWhatWasPut | internal/store/pricing_cache.go:93-111 | within the hour and until the next put of its key, exactly what was put is found |
| PricingCache.SanitizePrices | internal/store/pricing_cache.go:26-35 | the map keeps exactly its prices from 0.001 to 200, and the result counts the others |
| PricingCache.Cache.Get | internal/store/pricing_cache.go:95-170 | with both looks at the memory and every clock reading, state and answer are those of the layers, and the answer is a new map that the cache does not hold |
| PricingCache.Cache.Put | internal/store/pricing_cache.go:173-218 | the state is that of the layers, each stamp with its own clock reading, and the caller's map is not kept |
| PricingCache.PlayAll | internal/store/pricing_cache.go:93-218 | whatever callers get, put and change in the maps they hold, in any order and number, state and answers are those of the same operations on values |
| AwsPricing.StoreIsRun | internal/cloud/aws/pricing.go:154-243 | the pricing cache under the AWS lookup sees a run of its own gets and puts, the second get of a fallback included |
| AwsPricing.SourcesInOrder | internal/cloud/aws/pricing.go:154-243 | the own entry for an hour, then what the pricing cache has, then the price list without its invalid prices, then instance types |
| AwsPricing.ServesWhatWasServed | internal/cloud/aws/pricing.go:154-211 | what one lookup served is what every lookup of the region serves for an hour, over every run of other events |
| AwsPricing.FoundWasListed | internal/cloud/aws/pricing.go:166-177 | what the pricing cache returns was fetched and valid less than 25 hours before, and never estimated |
| AwsPricing.RunListsAreFounded | internal/cloud/aws/pricing.go:410-502 | every cached instance type has a price that was fetched less than 25 hours before its list was made, or an estimate made for the list |
| AwsPricing.ServedIsRecent | internal/cloud/aws/pricing.go:154-243 | over every interleaving of all caches, a served price was fetched for its region less than 27 hours before, or is an estimate computed less than two hours before, and the time of the calls |
| AwsPricing.NonFallbackIsRecent | internal/cloud/aws/pricing.go:154-211 | a price that does not come from the fallback, now or when its entry was made, was fetched less than 26 hours before, and is valid |
| AwsPricing.ListedIsValid | internal/cloud/aws/pricing.go:188-192 | what the price list gives to the caches is between 0.001 and 200 |
| AwsPricing.AlmostTwentySixHours | internal/cloud/aws/pricing.go:154-177 | a run that serves a price three nanoseconds short of 26 hours without any fallback |
| AwsPricing.AlmostTwentySevenHours | internal/cloud/aws/pricing.go:216-242 | a run that serves a price four nanoseconds short of 27 hours through the instance types |
| AwsPricing.AlmostTwoHours | internal/cloud/aws/pricing.go:410-502 | a run that serves an estimate two nanoseconds short of two hours |
| AwsService.PricingService.GetInstanceTypes | internal/cloud/aws/pricing.go:410-502 | state and types are those of the steps on values: a cached list, or one priced from the pricing cache, else the price list, else estimates |
| AwsService.PricingService.TakeFetched | internal/cloud/aws/pricing.go:187-207 | fetched prices are sanitised in place and reach both caches |
| AwsService.PricingService.GetCurrentPricing | internal/cloud/aws/pricing.go:154-243 | the new state of all caches is that of the lookup on values, and the caller is given the entry that the service keeps |

## Left out

- Cloud provider clients, pagination, retries and tokens: what they answer is a parameter.
- SQL text and SQLite: the pricing table is a map with insert-or-replace; reading persisted metrics and prices at
  startup and the persistence closures of the metrics store are not modelled.
- HTTP handlers beyond the allocation loops: routing, JSON encoding, sorting and paging of the results.
- YAML and JSON decoding, the AI call and GitLab: decoded trees and response texts are inputs.
- Descriptions, identifiers, priorities, rounding to cents and log lines of the recommendations.
- IEEE rounding and the overflow of 32 and 64 bit integers: amounts are integers and reals.
- Namespace selectors of affinity terms: they never change an answer of the simulator.
- Negative resource quantities and negative usage: Kubernetes refuses them, and the model has natural numbers.
- Advice for empty and underutilised nodes, NodeLock, AuditLog, FamilyLockGuard: no invariant across steps.
- Interleavings within calls of the pricing cache and the pricing service: the model is of one call after the other.
- AsyncWriter: Run is called once and before Drain, as the program does; a select with two ready cases may take either.
- SimulatorRuns.SkewStaysBounded: runs of placements only, because a removal is not checked against the constraint.
- SimulatorRuns.UnschedulableIsLowerBound: the other direction is not claimed, because a pod that counts for another one
  need not fit anywhere itself; the bound then holds all the same.
- CircuitBreaker.ControllerState.RecordFailure: a time list is compacted in an array of its own, so that two lists
  sharing a backing array is not represented.
- PodRightsizing.SizeGroup: only for totals that stay below half of the request, as GroupsUseUnderHalf shows of every group.
- PodRightsizing.FindPeaks: the windows of the containers are inputs, as are the 24 hours they cover.
- PricingLayers.FoundWasPut: the bound grows with the time that a query and a put take, which is a parameter.
- EC2 descriptions and the component rates behind an estimate: the estimate of each described type is an input.
- AwsPricing.ServedIsRecent: other providers use the same pricing cache under names without a colon, as they do.
