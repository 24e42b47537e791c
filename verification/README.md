# Verified model of the stream processor

A Dafny model of the parts of the stream processor whose correctness is not visible in any single
body, with proofs over every input, every run and every reachable state. The model follows the form of
the Python: objects that update their fields are classes whose methods carry loops and are proved against
a function of the old state; theorems about whole runs are lemmas about those functions.

`dafny verify dfyconfig.toml` checks everything.

## What is modelled

| part | files |
|---|---|
| job graph, topological sort, chaining | `JobGraph.dfy`, `Chaining.dfy` |
| physical tasks, slots, placement, lookups | `PhysicalTasks.dfy`, `ResourceManager.dfy`, `Scheduler.dfy`, `ExecutionGraph.dfy`, `JobScheduling.dfy` |
| checkpoint coordinator and its protocol, barriers | `Checkpoint.dfy`, `Barriers.dfy` |
| windows, watermarks, the window operator, streaming against batch | `Windows.dfy`, `Watermarks.dfy`, `WindowOperator.dfy`, `EventTime.dfy`, `FiringOrder.dfy`, `Pipeline.dfy` |
| join and running aggregates | `JoinOperator.dfy`, `JoinPipeline.dfy`, `AggregateOperator.dfy` |
| operator fusion, snapshots, recovery | `Operators.dfy`, `OperatorChain.dfy`, `OperatorRuns.dfy`, `InFlight.dfy`, `Recovery.dfy`, `TaskRuns.dfy`, `ClockIndependence.dfy` |
| flip buffer and buffer pool | `BufferPool.dfy` |
| shared notions | `Common.dfy`, `Records.dfy` |

### How the main results fit together

* **Event time.** `WindowOperator`'s methods equal functions on its state; `OperatorRefinesPaneMachine`
  shows that, seen at one key and window, any run of those functions is a two-field machine (an open batch
  and the closed ones); `StreamingEqualsBatchIff` then characterises exactly the runs on which streaming
  equals a batch group-by; `BoundedArrivalsAreOnTime` shows that the periodic emitter with its bound
  produces only such runs; `PipelineEqualsBatch` composes emitter, generator and operator, and says what is
  emitted in terms of the arrivals: one record per reached window, with the last value of a trace in which
  the reduce function takes in the window's values one after the other.
* **Join.** The evicting join equals a nested-loop join on on-time runs (`JoinIsNestedLoop`,
  `NestedLoopIsExact`, and in the records' own fields `JoinEmitsPairs`); behind the emitter, with arrivals within the bound, it is the nested-loop join of
  the arrivals, whatever the clock shows (`JoinPipelineIsNestedLoop`).
* **Fusion.** The chain object equals `ThroughAll` and `ChainWatermark`; `FusionPreservesMeaning` equates
  the fused chain with its operators as separate stages joined by streams. `OperatorRuns` says what each
  stage does to a stream (`MapRun`, `FilterRun`, `FlatMapRun`, `KeyByRun`, `WindowRun`, `AggregateRun`), and
  that windows, aggregates and joins inside a chain make the runs that the theorems about them are about
  (`WindowInChain`, `AggregateInChain`, `JoinInChain`); so `TaskEqualsBatch` holds of a fused task that maps,
  keys and windows, and `JoinTaskIsNestedLoop` of one that joins.
* **Recovery.** A task is modelled one operator call at a time, because the source loop and the calls that
  bring watermarks share no lock: records and watermarks are under way, interleave freely, and a snapshot
  falls between any two calls. Left alone, a record's calls are the chain's pass and a watermark's calls its
  watermark function (`LaunchLands`, `PassIsChainWatermark`). Recovery is invisible if and only if the
  snapshots restored were taken with nothing pending and nothing under way (`CrashesAreInvisibleIff`); each
  element is processed exactly once if and only if none was in hand (`ExactlyOnceIff`). While calls do not
  overlap, the task is its chain over what entered it (`TaskIsItsChain`), which with the above gives
  exactly-once end to end: after any crashes, outputs and states are those of the separate stages over the
  elements read, each once and in order (`ExactlyOnceEndToEnd`).
* **Compilation.** `TopologicalSort` fails exactly on cyclic graphs; `IdentifyChainableOperators`
  terminates without testing `visited`, and its chains partition the vertices, are valid and maximal, and
  leave only edges from the end of a chain to the head of a later one, which is why the scheduler may look
  at the first and last vertex only. `ScheduleJob` composes chaining, physical tasks and placement, and says
  exactly which jobs it accepts.
* **Checkpoints.** Acknowledgement is split into its two locked sections, with the upload in between; an
  inductive invariant over all interleavings gives exact completion, final verdicts and monotone ids.

### Results that differ from what the repository says or suggests

* Sliding windows are the slide-aligned windows containing the timestamp only when the slide divides the
  size (`Windows.SlidingIsExactIff`).
* The running average divides by a count that includes values that could not be added
  (`AggregateOperators.AverageIsMeanIff`, with an example in `RejectedValueSkewsAverage`).
* A placement takes two slots of the shared object, one in the manager and one in the scheduler, so a
  TaskManager with n free slots receives at most ceil(n / 2) tasks (`Scheduling.AllocateTasks`;
  `Scheduling.PlaceOnTwoSlots` runs into it with two slots).
* Snapshots taken in the middle of a batch lose the elements in hand (`Recovery.MidBatchRestoreLoses`;
  `Recovery.PendingElementIsLost` is the smallest case).
* Snapshots taken while a watermark is on its way through the chain can lose results that were already
  triggered, although every element is accounted for (`Recovery.TriggeredResultIsLost`).
* A failed placement keeps the slots it took; it leaves the slots alone if and only if no TaskManager was
  available (`Scheduling.FailureIsHarmlessIff`).
* The source stamps records with the clock when they are read, so a replay can end in other operator
  states. Runs that processed equally much agree if and only if the job has no window and no record of
  the collection reaches a join (`ClockIndependence.StatesDependOnProgressOnlyIff`; an example is
  `WindowsSeeTheClock`).
* A checkpoint triggered with no task never completes
  (`CheckpointProtocol.EmptyCheckpointNeverCompletes`).
* Barrier tracking goes wrong when a barrier comes for a checkpoint already fully received, and when the
  operator's snapshot fails on the last barrier; `Barriers.AlignmentExactIff` says that these are the only
  ways, and `FailedSnapshotKeepsTracking` shows the second.
* `docs/architecture.md` (lines 65-73) says that operators buffer records until barriers align. The code
  never fills `buffered_records`; the model follows the code, and claims nothing about buffering.

### Representation

Python integers are `int`; both languages floor when dividing by a positive number. Floats, integers and
booleans inside values are one kind of number, `Num`, over `real`. Dictionaries are maps; where the
iteration order shows in the output (the window buffers, the vertices, the TaskManagers) a sequence of
keys in insertion order stands beside the map. A clock reading is a parameter, an upload or a metadata
commit is a boolean outcome, and pickling is the identity on values.

## Model

| member | source | states |
|---|---|---|
| JobGraphs.JobGraph.AddVertex | jobmanager/job_graph.py:60-67 | A vertex is stored under its id; re-adding an id replaces the vertex and keeps its place; edges stay, and every edge still joins known vertices |
| JobGraphs.JobGraph.AddEdge | jobmanager/job_graph.py:69-81 | The edge is appended exactly when both ends are known vertices, otherwise an error leaves the graph unchanged |
| JobGraphs.UpstreamSources | jobmanager/job_graph.py:97-111 | The upstream list of a vertex holds exactly the vertices with an edge to it |
| JobGraphs.DownstreamTargets | jobmanager/job_graph.py:113-127 | The downstream list of a vertex holds exactly the vertices it has an edge to |
| JobGraphs.JobGraph.CountInDegrees | jobmanager/job_graph.py:136-140 | Each vertex's in-degree counts its in-edges, parallel edges and self-loops included |
| JobGraphs.JobGraph.RelaxDownstream | jobmanager/job_graph.py:149-153 | Relaxing the edges of a sorted vertex, one decrement per edge, restores the invariant: in-degree is the number of edges from unsorted vertices, and zero exactly for enqueued vertices |
| JobGraphs.JobGraph.SortNext | jobmanager/job_graph.py:145-153 | One round sorts the head of the queue after all its predecessors, keeps the invariant, and shrinks the set of unsorted vertices |
| JobGraphs.JobGraph.TopologicalSort | jobmanager/job_graph.py:129-158 | Success returns every vertex once with every edge pointing forward; an error is returned if and only if some walk of one or more edges returns to its start |
| JobGraphs.TopologicalOrderIsAcyclic | jobmanager/job_graph.py:155-156 | A graph that has a topological order has no cycle |
| JobGraphs.StuckSetIsCyclic | jobmanager/job_graph.py:155-156 | A non-empty set of vertices each having a predecessor in the set contains a cycle, so vertices that are left over prove one |
| Chaining.ExtensionTestIsFusable | jobmanager/job_graph.py:187-205 | The loop's three tests accept a next vertex exactly when one FORWARD edge joins the two and no other edge leaves the first or enters the second |
| Chaining.HeadHasNoPredecessor | jobmanager/job_graph.py:174-180 | In topological order, a vertex not yet visited has no vertex it could be chained behind |
| Chaining.NextIsNew | jobmanager/job_graph.py:182-211 | The extension loop never reaches a vertex already in this or an earlier chain, although it does not test for one |
| Chaining.ExtendChain | jobmanager/job_graph.py:177-213 | The extension loop terminates with a chain that starts at the given vertex, repeats nothing, is linked by fusable edges, cannot be extended at either end, and is disjoint from earlier chains |
| Chaining.IdentifyChainableOperators | jobmanager/job_graph.py:160-215 | Fails exactly on cyclic graphs; otherwise the chains partition the vertices, are valid and maximal, and every edge lies inside a chain or goes from the end of a chain to the head of a later one |
| Chaining.EdgeCrossesForward | jobmanager/job_graph.py:160-215 | An edge not inside a chain runs from a chain's last vertex to the head of a chain listed later |
| Chaining.ChainsAreUnique | jobmanager/job_graph.py:160-215 | The chains do not depend on the topological order chosen: two correct lists over the same vertices have the same chains |
| PhysicalTasks.MaxParallelismIsMaximum | jobmanager/scheduler.py:110-114 | A chain's parallelism is attained by one of its vertices and exceeded by none |
| PhysicalTasks.CreatePhysicalTasks | jobmanager/scheduler.py:93-143 | The nested loops build exactly the specified task list, chain by chain and instance by instance |
| PhysicalTasks.TasksAreCounted | jobmanager/scheduler.py:130-143 | The number of tasks is the sum over the chains of their maximum parallelism |
| PhysicalTasks.TaskBelongsToChain | jobmanager/scheduler.py:96-141 | Every task is one instance of one chain, with an index below the chain's parallelism, and stands at the place that chain and index determine |
| PhysicalTasks.TaskCarriesItsChain | jobmanager/scheduler.py:96-141 | Field by field: its id names job, chain and index; it has the chain's operators and largest parallelism, and its upstream and downstream vertices are exactly those outside the chain with an edge into it or out of it |
| PhysicalTasks.DecimalIsDecimal | jobmanager/scheduler.py:132-132 | The numerals in a task id, read as decimal numbers, are the chain number and the index |
| PhysicalTasks.TaskIdIsInjective | jobmanager/scheduler.py:132-132 | The chain number and the instance index can be read back from a task id |
| PhysicalTasks.TaskIdsAreDistinct | jobmanager/scheduler.py:131-143 | No two physical tasks of a job have the same id |
| PhysicalTasks.FirstVertexSeesAllInputs | jobmanager/scheduler.py:116-123 | Reading only the first vertex's upstreams finds exactly the outside vertices that feed any vertex of the chain |
| PhysicalTasks.LastVertexSeesAllOutputs | jobmanager/scheduler.py:116-128 | Reading only the last vertex's downstreams finds exactly the outside vertices that any vertex of the chain feeds |
| ResourceManagers.ResourceManager.RegisterTaskManager | jobmanager/resource_manager.py:91-127 | A new id is registered with all its slots free and the registration as its first heartbeat; a known id is refused and nothing changes |
| ResourceManagers.ResourceManager.AllocateSlot | jobmanager/resource_manager.py:174-193 | Succeeds exactly when the TaskManager is known and has a free slot, and takes one slot of that one and of no other |
| ResourceManagers.ResourceManager.ReleaseSlot | jobmanager/resource_manager.py:195-214 | Succeeds exactly when a slot of the known TaskManager is taken, and gives back one slot of that one only |
| ResourceManagers.ResourceManager.AvailableMembers | jobmanager/resource_manager.py:216-227 | The available list holds exactly the TaskManagers with a free slot whose last heartbeat is less than the timeout ago, each once |
| ResourceManagers.ResourceManager.GetAvailableTaskManagers | jobmanager/resource_manager.py:216-227 | The filtering loop returns that list in registration order |
| Scheduling.SortIsDescending | jobmanager/scheduler.py:160-165 | TaskManagers are tried in order of descending free slots |
| Scheduling.SortIsStable | jobmanager/scheduler.py:160-165 | Those with equally many free slots keep their registration order |
| Scheduling.SortKeepsCapacity | jobmanager/scheduler.py:160-165 | Sorting changes nothing about how many tasks fit |
| Scheduling.AvailableOffers | jobmanager/scheduler.py:160-168 | The sorted candidates are distinct registered TaskManagers with free slots, and hold exactly the seats of all available ones |
| Scheduling.TakeSlots | jobmanager/scheduler.py:178-200 | A placement takes exactly two slots of the chosen TaskManager, because manager and scheduler decrement the same object |
| Scheduling.PlaceTask | jobmanager/scheduler.py:174-206 | The search terminates, finds a seat exactly when one is left, and leaves a TaskManager only when it is exhausted |
| Scheduling.AllocateTasks | jobmanager/scheduler.py:145-208 | Succeeds if and only if some TaskManager is available and the tasks number at most the sum of ceil(free / 2); then each task has one plan, in order, none exceeds its seats, and fuller TaskManagers come first; on failure no slot is given back and every available TaskManager is drained |
| Scheduling.FullPlacementDrains | jobmanager/scheduler.py:200-206 | When no seat is left, each offered TaskManager has had two slots taken per seat and every other one is untouched |
| Scheduling.FailureIsHarmlessIff | jobmanager/scheduler.py:167-206 | A failed placement leaves the free slots as they were if and only if no TaskManager was available |
| Scheduling.PlaceOnTwoSlots | jobmanager/scheduler.py:171-206 | On one TaskManager with two free slots exactly one task fits; two tasks fail, and no slot is left |
| ExecutionGraphs.IndexById | jobmanager/scheduler.py:299-302 | The id lookup finds for every id the last plan with it, and nothing for ids not planned |
| ExecutionGraphs.LookupFindsPlanned | jobmanager/scheduler.py:299-302 | An id is found exactly if it is planned |
| ExecutionGraphs.LookupFindsLast | jobmanager/scheduler.py:299-302 | The plan found under an id is the last one planned under it: a later plan replaces an earlier one |
| ExecutionGraphs.GroupByTaskManager | jobmanager/scheduler.py:299-309 | Each TaskManager's list is the ids planned on it, in plan order |
| ExecutionGraphs.ListsPartitionTasks | jobmanager/scheduler.py:299-313 | With distinct ids the lists partition the ids: a task is listed exactly under the TaskManager of its plan, once |
| ExecutionGraphs.ListsCountPlans | jobmanager/scheduler.py:299-313 | A TaskManager's list is as long as the number of plans placed on it |
| ExecutionGraphs.ListsKeepPlanOrder | jobmanager/scheduler.py:304-309 | A TaskManager's list is the ids at exactly the positions of its plans, in increasing order |
| JobScheduling.ScheduleJob | jobmanager/scheduler.py:45-74 | A cyclic graph is refused before any slot is taken; otherwise the job is scheduled if and only if some TaskManager is available and the instances of its chains fit on the seats, and the plans place exactly those instances |
| JobScheduling.ScheduledJobIsPartitioned | jobmanager/scheduler.py:45-74 | After scheduling, every instance of every chain is planned once under its own id, each TaskManager lists its instances once, and none lists more than its seats |
| Checkpoints.CheckpointCoordinator.TriggerCheckpoint | jobmanager/checkpoint_coordinator.py:157-192 | A new id, pending and in progress, awaits exactly the given tasks; all else is unchanged |
| Checkpoints.CheckpointCoordinator.ValidateAck | jobmanager/checkpoint_coordinator.py:213-225 | The first locked section accepts exactly awaited tasks of pending checkpoints and changes nothing |
| Checkpoints.CheckpointCoordinator.CommitAck | jobmanager/checkpoint_coordinator.py:235-257 | The second locked section records the path, stops awaiting that one, completes the checkpoint when nobody is awaited, and refuses and changes nothing when the checkpoint has gone |
| Checkpoints.CheckpointCoordinator.CompleteCheckpoint | jobmanager/checkpoint_coordinator.py:262-282 | The checkpoint leaves both pending tables and, if its metadata is committed, is kept as COMPLETED |
| Checkpoints.CheckpointCoordinator.CheckCheckpointTimeouts | jobmanager/checkpoint_coordinator.py:313-331 | The two loops drop exactly the overdue checkpoints from both pending tables |
| Checkpoints.CheckpointCoordinator.GetLatestCheckpoint | jobmanager/checkpoint_coordinator.py:284-297 | Returns the completed checkpoint with the largest id, or the database's answer when none is completed |
| CheckpointProtocol.RunsAreConsistent | jobmanager/checkpoint_coordinator.py:157-331 | In every interleaving: pending tables agree, pending, completed and failed split the triggered ids, recorded and awaited tasks split each pending checkpoint's tasks, and a completed one has a path for exactly its tasks |
| CheckpointProtocol.RunMovesForward | jobmanager/checkpoint_coordinator.py:167-192 | Over any run ids only grow, and what is completed or failed stays so with the same metadata |
| CheckpointProtocol.VerdictsAreFinal | jobmanager/checkpoint_coordinator.py:262-331 | Completed and failed exclude each other at any two moments, and the latest completed id never goes down |
| CheckpointProtocol.CompletesOnLastAck | jobmanager/checkpoint_coordinator.py:253-282 | A checkpoint completes on the commit of its last awaited task and on no other step |
| CheckpointProtocol.LateAckIsIgnored | jobmanager/checkpoint_coordinator.py:237-241 | An upload that ends after its checkpoint completed or timed out changes nothing in the coordinator |
| CheckpointProtocol.PathsComeFromAcks | jobmanager/checkpoint_coordinator.py:243-249 | Every recorded path was committed in the run for that very task and checkpoint |
| CheckpointProtocol.TriggeredBy | jobmanager/checkpoint_coordinator.py:167-192 | Every pending checkpoint of a run stems from one trigger step: it has that step's clock reading and tasks |
| CheckpointProtocol.TimeoutsDropOverdue | jobmanager/checkpoint_coordinator.py:313-331 | After a timeout check a pending checkpoint is pending as before if and only if the clock has advanced by at most the timeout since the step that triggered it; otherwise it has failed |
| CheckpointProtocol.ValidatesUnrecorded | jobmanager/checkpoint_coordinator.py:213-225 | An acknowledgement goes into flight exactly for a task its checkpoint was triggered with, while that is pending and has no path of the task |
| CheckpointProtocol.EmptyCheckpointNeverCompletes | jobmanager/checkpoint_coordinator.py:157-192 | A checkpoint triggered with no task never completes, in any run |
| CheckpointProtocol.PendingCanComplete | jobmanager/checkpoint_coordinator.py:194-282 | No interleaving blocks a checkpoint: from any reachable state a pending one with awaited tasks can still be completed |
| Barriers.Task.ProcessBarrier | taskmanager/task_executor.py:204-245 | A snapshot is returned exactly when all upstreams have been heard from and the operator gives one; tracking is dropped then, and kept if the operator fails |
| Barriers.AlignmentExactIff | taskmanager/task_executor.py:204-245 | Throughout a run of calls, some of whose snapshots fail, `barriers` holds exactly the partly received checkpoints and each fully received one gave exactly one snapshot, if and only if no barrier comes late and no snapshot fails on the call that brings the last barrier |
| Barriers.OncePerUpstreamIsNeverLate | taskmanager/task_executor.py:220-227 | With known upstreams sending each barrier at most once, only a snapshot that fails when it is due can disturb the alignment |
| Barriers.SnapshotOnLastBarrier | taskmanager/task_executor.py:223-243 | A snapshot comes on exactly the calls that bring the last barrier of a checkpoint and do not fail |
| Barriers.FailedSnapshotKeepsTracking | taskmanager/task_executor.py:229-243 | One upstream, one barrier, a failing snapshot: the checkpoint is fully received, no snapshot was given, and its barriers are still tracked |
| Windows.AssignSliding | taskmanager/operators/stateful.py:71-85 | The loop with the moving start visits and keeps exactly the specified windows |
| Windows.AssignIsSound | taskmanager/operators/stateful.py:52-85 | One tumbling or floor(size / slide) sliding windows, distinct, in increasing start order, each of the full size and containing the timestamp |
| Windows.DividingSlideIsExact | taskmanager/operators/stateful.py:71-85 | When the slide divides the size these are exactly the slide-aligned windows containing the timestamp |
| Windows.SlidingIsExactIff | taskmanager/operators/stateful.py:71-85 | Assignment is exact for every positive timestamp if and only if the slide divides the size |
| Windows.SlidingWindowsEndAligned | taskmanager/operators/stateful.py:71-85 | For any slide the windows assigned are exactly those of full size that end at a multiple of the slide after the timestamp and start no later than the last multiple up to it |
| Windows.SlidingBySizeIsTumbling | taskmanager/operators/stateful.py:52-85 | Sliding by the window size is tumbling |
| Watermarks.PeriodicWatermarkEmitter.OnEvent | common/watermarks.py:107-126 | The event is tracked; a due emission takes the generator's watermark and the clock reading, and nothing else changes |
| Watermarks.EmittedIsLargestMinusBound | common/watermarks.py:74-85 | An emitted watermark is the largest timestamp seen, its own event's included, minus the bound |
| Watermarks.WatermarksAreMonotone | common/watermarks.py:74-126 | Emitted watermarks never go back, whatever the clock shows |
| Watermarks.EmissionsAreSpaced | common/watermarks.py:107-126 | Consecutive emissions are at least the interval apart by the clock |
| Watermarks.FirstEmissionIff | common/watermarks.py:107-126 | The first emission comes with the first event at which the clock shows at least the interval |
| Watermarks.NextEmissionIff | common/watermarks.py:107-126 | Each later one comes with the first event at least the interval after the one before |
| Watermarks.WatermarkStaysBehind | common/watermarks.py:74-126 | No watermark exceeds the timestamp of a later event that respects the bound |
| WindowOperators.WindowOperator.ProcessElement | taskmanager/operators/stateful.py:171-196 | The value is appended to the buffer of its key in each assigned window, new buffers at the end of the order |
| WindowOperators.WindowOperator.ProcessWatermark | taskmanager/operators/stateful.py:198-247 | Every non-empty buffer whose window ends at or before the watermark is emitted, folded, in buffer order, and removed; the others stay |
| WindowOperators.WindowOperator.Combine | taskmanager/operators/stateful.py:224-236 | The loop returns the last of the values that start with the first element and take in the others in turn through the reduce function, or the list itself without one |
| WindowOperators.AggregateIsCombined | taskmanager/operators/stateful.py:224-236 | The fold is the last value of such a trace, and nothing else is: the trace exists and is unique |
| WindowOperators.WindowOperator.RestoreState | taskmanager/operators/stateful.py:257-262 | The state becomes the snapshot's |
| EventTime.OperatorRefinesPaneMachine | taskmanager/operators/stateful.py:171-247 | For every run, at each key and window the operator is a machine with one open batch that each passing watermark closes: same buffer, same outputs |
| EventTime.NothingLostOrDuplicated | taskmanager/operators/stateful.py:171-247 | On time or late, the batches emitted for a pane followed by its buffer are the values it was assigned, in arrival order |
| EventTime.OneBatchPerPane | taskmanager/operators/stateful.py:198-247 | On an on-time run a passed pane has nothing open and at most one batch, its whole group |
| EventTime.StreamingEqualsBatchIff | taskmanager/operators/stateful.py:171-247 | At every moment passed panes have been emitted once with their whole group and the others buffer exactly theirs, if and only if no record is assigned to a passed window |
| EventTime.LateRecordDiffersFromBatch | taskmanager/operators/stateful.py:171-196 | A record for a passed window makes the result differ from the batch at once |
| FiringOrders.BuffersAreInOpeningOrder | taskmanager/operators/stateful.py:171-247 | After any run the open panes are those buffered, and the dictionary lists them by the record that opened them, then by window start |
| FiringOrders.FiringOrder | taskmanager/operators/stateful.py:212-247 | The results of a watermark, one for each open pane it passes, come in the order in which the panes were opened |
| Pipelines.BoundedArrivalsAreOnTime | common/watermarks.py:74-126 | If each arrival is at most the bound behind the largest timestamp, the operator fed by the emitter sees no late record |
| Pipelines.FedWatermarksIncrease | common/watermarks.py:74-126 | The last watermark fed is the largest |
| Pipelines.LastWatermarkIsRemembered | taskmanager/operators/stateful.py:208-210 | The operator remembers the last watermark it got, whether larger or smaller than those before |
| Pipelines.GroupsIgnoreWatermarks | taskmanager/operators/stateful.py:171-196 | The batch group of a pane is determined by the arrivals alone, without clock or watermarks |
| Pipelines.PipelineEqualsBatch | taskmanager/operators/stateful.py:171-247 | With arrivals within the bound and any clock: a pane reached by the last watermark has been emitted exactly once, under its key and end, with what the values of the arrivals in it combine to, in arrival order; every other pane is unfired and buffers those values |
| JoinOperators.JoinOperator.ProcessElement | taskmanager/operators/stateful.py:374-413 | The record joins its own side's buffer and is joined with the near records of the same key on the other side, stamped with the left timestamp |
| JoinOperators.JoinOperator.ProcessWatermark | taskmanager/operators/stateful.py:415-448 | Both buffers keep exactly the records not older than the watermark minus the bound, and no empty key |
| JoinRuns.EvictionKeepsPartners | taskmanager/operators/stateful.py:415-448 | For a timestamp no watermark has passed, the evicted buffers hold the same partners in the same order as full buffers |
| JoinRuns.FullBufferIsInnerLoop | taskmanager/operators/stateful.py:374-413 | Joining with a full buffer is the inner loop over all earlier records of the other side |
| JoinRuns.JoinIsNestedLoop | taskmanager/operators/stateful.py:374-448 | On an on-time run the evicting join emits exactly the sequence of the nested-loop join |
| JoinRuns.NestedLoopIsExact | taskmanager/operators/stateful.py:374-413 | The nested loop yields each left and right pair with equal keys within the bound exactly once |
| JoinRuns.NestedLoopOrder | taskmanager/operators/stateful.py:374-413 | The nested loop lists its pairs by the later record, then by the earlier one |
| JoinRuns.JoinEmitsPairs | taskmanager/operators/stateful.py:374-448 | On an on-time run the k-th output has the key and timestamp of the left record of the k-th pair and joins its value with the right one's; the pairs are all those with equal keys and timestamps at most the bound apart |
| JoinRuns.BufferHoldsSurvivors | taskmanager/operators/stateful.py:374-448 | In any run, on time or not, a buffer holds for each key exactly the records of its side that no later watermark has expired, in arrival order |
| JoinRuns.NoEmptyKeys | taskmanager/operators/stateful.py:432-448 | Keys with nothing left are not kept |
| JoinPipelines.BoundedArrivalsAreOnTime | common/watermarks.py:74-126 | If each arrival is at most the bound behind the largest timestamp, the join fed by the emitter sees no record behind a watermark |
| JoinPipelines.WatermarksAreInvisible | taskmanager/operators/stateful.py:374-448 | Then the join emits what it would emit without any watermark, hence without eviction |
| JoinPipelines.JoinPipelineIsNestedLoop | taskmanager/operators/stateful.py:374-448 | Emitter and join together are the nested-loop join of the arrivals, for any clock: in loop order, one result for each left and right arrival with equal keys whose timestamps differ by at most the bound either way, with the key and timestamp of the left one and the two values joined left before right |
| AggregateOperators.AggregateOperator.ProcessElement | taskmanager/operators/stateful.py:285-333 | State and output are those of one update of the key's accumulator, including updates that fail half-way and keep the raised count |
| AggregateOperators.StateSummarisesKeys | taskmanager/operators/stateful.py:285-333 | Each key's accumulator summarises the values of that key alone, over any run: count, total, and the least and greatest of any values that can be compared |
| AggregateOperators.OutputIsBatchAggregate | taskmanager/operators/stateful.py:285-333 | Each output is the sum or count of the key's values so far, or one of them that none precedes or follows, for numbers, strings and lists alike as long as the values can be compared with each other |
| AggregateOperators.LessIsTransitive | taskmanager/operators/stateful.py:305-311 | The comparison of values is transitive, strings and nested lists included, so running extremes are extremes of all values |
| AggregateOperators.LessIsPrecedes | taskmanager/operators/stateful.py:305-311 | The comparison of the code is the order of reals, and dictionary order of strings and of lists by their first different element; it fails exactly on values that cannot be compared |
| AggregateOperators.TextLessIsDictionaryOrder | taskmanager/operators/stateful.py:305-311 | One string is less than another if and only if it is a proper prefix or has the smaller character where they part |
| AggregateOperators.NumberExtremes | taskmanager/operators/stateful.py:285-333 | For a key that received numbers only, the outputs of min and max are among them, and no number is smaller or larger |
| AggregateOperators.OnlyNumbersAreAdded | taskmanager/operators/stateful.py:300-303 | Sums and averages give an output exactly for numbers |
| AggregateOperators.RejectedIsOnlyCounted | taskmanager/operators/stateful.py:297-331 | A value that cannot be compared with the extreme so far, or any value under an unknown function, raises the count, changes nothing else and gives no output |
| AggregateOperators.AverageOutput | taskmanager/operators/stateful.py:300-318 | The running average is the total of the key's numbers over the number of all its values |
| AggregateOperators.NoneIsNotAnExtreme | taskmanager/operators/stateful.py:305-311 | A first value None does not stick: the number that follows becomes the minimum and the maximum |
| AggregateOperators.AverageIsMeanIff | taskmanager/operators/stateful.py:285-333 | The running average is the mean of the key's numbers if and only if no value was rejected or the numbers sum to zero |
| AggregateOperators.RejectedValueSkewsAverage | taskmanager/operators/stateful.py:285-333 | After 1, "x", 3 the average reported is 4/3 |
| Operators.RestoreUndoesSnapshot | taskmanager/operators/stateful.py:249-262 | Restoring an operator's snapshot into one with the same configuration gives the operator back, whatever state that one was in; this holds for windows as for every other kind of operator |
| Operators.StreamOperator.ReadRecords | taskmanager/operators/sources.py:221-244 | The loop returns the next elements up to the limit, in order, each stamped by the clock and numbered by its place in the collection, and advances the index past them |
| Operators.ReadTakesAllItMay | taskmanager/operators/sources.py:221-244 | A read takes as many of the next elements as the limit allows and the collection still has; each carries its element, the clock at its reading, partition 0 and its place as offset |
| ChainFunctions.StagesOneByOne | taskmanager/operators/base.py:153-168 | Sending records down the chain one at a time is the same as running them stage by stage |
| ChainFunctions.StagesOnWatermark | taskmanager/operators/base.py:140-169 | A watermark through the chain is a watermark through the separate stages, each forwarding what it triggers first |
| ChainFunctions.FusionPreservesMeaning | taskmanager/operators/base.py:115-169 | On any stream of records and watermarks the chain gives the same output stream and the same final state of every operator as its operators run as separate stages |
| OperatorRuns.MapRun | taskmanager/operators/stateless.py:29-45 | Over any stream: one record for each, with the function's value and the same key and timestamp; watermarks stay in their places |
| OperatorRuns.FilterRun | taskmanager/operators/stateless.py:63-79 | Exactly the records whose value satisfies the predicate, and the watermarks, stay, unchanged and in order |
| OperatorRuns.FlatMapRun | taskmanager/operators/stateless.py:101-116 | Each record is replaced by one record per result, in order, with its key and timestamp |
| OperatorRuns.KeyByRun | taskmanager/operators/stateless.py:137-152 | Only the key of each record changes, to the one selected by its value |
| OperatorRuns.WindowRun | taskmanager/operators/stateful.py:171-247 | A window over any stream has the state and emits the records of the event-time run; each watermark follows what it triggers |
| OperatorRuns.AggregateRun | taskmanager/operators/stateful.py:285-333 | An aggregate over any stream has the state of the run over its records and emits their running outputs; watermarks are forwarded |
| OperatorRuns.RunningOutputAt | taskmanager/operators/stateful.py:285-333 | The k-th running output is what the aggregate emits for the k-th record in the state the records before it left |
| OperatorRuns.MemberRunsOnStream | taskmanager/operators/base.py:115-169 | Every member of a chain runs over the stream its predecessors, as a chain of their own, emit, and its successors over what it emits |
| OperatorRuns.WindowInChain | taskmanager/operators/base.py:115-169 | A window anywhere in a chain has the state, and passes on the records, of its event-time run over the stream that reaches it |
| OperatorRuns.AggregateInChain | taskmanager/operators/base.py:115-169 | Likewise for an aggregate |
| OperatorRuns.JoinInChain | taskmanager/operators/stateful.py:364-448 | A join at the head of a chain, its side set before each record, has the state of the join run and passes on the run's records and the watermarks to the rest of the chain |
| OperatorRuns.JoinTaskIsNestedLoop | taskmanager/operators/stateful.py:364-448 | Behind the emitter, with arrivals within the bound, what such a join passes on is the nested-loop join of the arrivals, field by field |
| OperatorRuns.TaskEqualsBatch | taskmanager/operators/base.py:115-169 | A fused task that maps, keys and windows equals the batch job on the mapped and keyed arrivals: each reached window with values comes out exactly once with what they combine to, and no other |
| ChainFunctions.ChainRestoreUndoesSnapshot | taskmanager/operators/base.py:171-200 | A chain of newly built operators, restored, is the chain that was snapshotted |
| InFlight.LandIsRestOfFlight | taskmanager/task_executor.py:110-117 | The calls still due for records under way, made without interruption, are the operator's pass over them and the pass of the rest of the chain |
| InFlight.LaunchLands | taskmanager/task_executor.py:110-117 | A record sent into the chain at some operator, undisturbed, is the pass through the rest of the chain |
| InFlight.PassIsChainWatermark | taskmanager/operators/base.py:140-169 | A watermark's calls, undisturbed, are the chain's watermark function: outputs and all states |
| OperatorChains.OperatorChain.ProcessElement | taskmanager/operators/base.py:115-138 | The nested loops with their early exit send a record through all operators, and leave each in the state of the full pass |
| OperatorChains.OperatorChain.ProcessWatermark | taskmanager/operators/base.py:140-169 | The loops, with the index search for the current operator, give the specified watermark pass |
| OperatorChains.OperatorChain.RunSourceBatch | taskmanager/task_executor.py:101-117 | One round of the source loop sends each record read through all operators after the source |
| OperatorChains.OperatorChain.SnapshotState | taskmanager/operators/base.py:171-184 | The snapshot holds exactly the stateful members' states by position |
| OperatorChains.OperatorChain.RestoreState | taskmanager/operators/base.py:186-200 | Each member with a saved state gets it, whatever the order of the entries; the others are untouched |
| Recovery.RunSavesFaithfully | taskmanager/operators/base.py:171-200 | Throughout a run with crashes the stored snapshot belongs to the saved moment, and configurations never change |
| Recovery.RunHoldsNothingUp | taskmanager/task_executor.py:101-117 | In every interleaving each record and each watermark under way has a call due |
| Recovery.CrashForgetsWhatIsUnderWay | taskmanager/operators/sources.py:246-254 | A crash goes back to the saved moment, except that all records and watermarks then under way are gone |
| Recovery.CrashesAreInvisibleIff | taskmanager/operators/base.py:171-200 | In every interleaving of calls, snapshots and crashes the task is always where a run that never failed and took just the surviving steps would be, outputs included, if and only if each snapshot restored was taken with nothing pending and nothing under way |
| Recovery.MidBatchRestoreLoses | taskmanager/operators/sources.py:221-254 | The first restore of a mid-batch snapshot loses exactly the elements then in hand |
| Recovery.ExactlyOnceIff | taskmanager/task_executor.py:101-117 | Throughout a run with crashes each element is processed exactly once, in order, on the surviving timeline, if and only if no crash restores a snapshot taken with an element pending or under way |
| TaskRuns.TaskIsItsChain | taskmanager/task_executor.py:101-117 | While calls do not overlap, the task is its chain over the records taken and the watermarks brought, in order, once what is under way has come to its end: outputs and states |
| TaskRuns.ExactlyOnceEndToEnd | taskmanager/task_executor.py:101-117 | With any crashes, if every snapshot restored was quiet and the surviving steps do not overlap, a task with nothing in hand has emitted what the separate stages emit for the elements read, each once and in order, and holds their states |
| Recovery.PendingElementIsLost | taskmanager/operators/sources.py:221-254 | One element, a snapshot while it is pending, a crash: the source is past it and it is never processed |
| Recovery.TriggeredResultIsLost | taskmanager/task_executor.py:185-202 | A snapshot between a window's turn and the next operator's, then a crash: the value is neither buffered nor was it emitted |
| ClockIndependence.StatesDependOnProgressOnlyIff | taskmanager/operators/sources.py:221-254 | Runs of one job with different crashes, batches, watermarks and clocks have equal operator states whenever they have processed equally many elements, if and only if the job has no window and no record of the collection reaches a join |
| ClockIndependence.WindowsSeeWatermarks | taskmanager/operators/stateful.py:208-210 | A job with a window always has two runs that differ: the window remembers the last watermark |
| ClockIndependence.JoinsSeeTheClock | taskmanager/operators/stateful.py:374-413 | So does a job where some record reaches a join: the buffer keeps the timestamps |
| ClockIndependence.WindowsSeeTheClock | taskmanager/operators/sources.py:221-244 | With a window that fails: the same element read at 5 and at 15 lands in different windows |
| MemoryBuffers.MemoryBuffer.Write | taskmanager/network/buffer_pool.py:30-48 | As many bytes as fit are stored at the position, their number is returned, and no other byte changes |
| MemoryBuffers.MemoryBuffer.Read | taskmanager/network/buffer_pool.py:50-67 | The bytes from the position on are returned; the bounds survive exactly when the length does not go back beyond the start |
| MemoryBuffers.MemoryBuffer.Flip | taskmanager/network/buffer_pool.py:82-85 | What was written becomes what can be read, from the start |
| MemoryBuffers.WritesFillInOrder | taskmanager/network/buffer_pool.py:30-48 | From empty, any writes leave exactly the first bytes of their concatenation that fit |
| MemoryBuffers.WriteReplacesFromPosition | taskmanager/network/buffer_pool.py:30-48 | Wherever the position is, a write replaces the bytes from there on by those that fit, touches no other byte and never lowers the limit |
| MemoryBuffers.ReadsReachWhatIsAsked | taskmanager/network/buffer_pool.py:50-67 | Reads move the position to the total asked for, at most the limit, and touch nothing else |
| MemoryBuffers.ReadsDrainInOrder | taskmanager/network/buffer_pool.py:50-67 | Reads hand out the contents in order, no byte twice and none skipped |
| MemoryBuffers.RoundTrip | taskmanager/network/buffer_pool.py:30-85 | Reset, any writes, one flip, any forward reads: what comes out is what went in, cut at the capacity and at what was asked for |
| MemoryBuffers.BoundsHoldThroughout | taskmanager/network/buffer_pool.py:30-85 | In any order of calls without negative lengths, position <= limit <= size |
| BufferPools.BufferPool.Acquire | taskmanager/network/buffer_pool.py:133-145 | One locked round of the waiting loop: the front buffer is handed out empty and recorded as held, or the wait is counted; other buffers keep their contents |
| BufferPools.BufferPool.Release | taskmanager/network/buffer_pool.py:147-160 | Any buffer is emptied and queued at the back, whether or not it was out; the waiting buffers stay of one size exactly if it has that size |
| BufferPools.ConservedIff | taskmanager/network/buffer_pool.py:123-160 | Over any run no buffer is lost or in two places, and queue and holders add up to the pool, if and only if every release gives back a buffer that is out |
| BufferPools.QueueIsFifo | taskmanager/network/buffer_pool.py:133-160 | Over any run, what was handed out followed by the queue is the queue at the start followed by what was given back |

## Left out

- Files, S3, GCS, PostgreSQL, Kafka, gRPC, the HTTP interface, metrics, RocksDB: foreign code; an upload or a metadata commit is only its outcome.
- The database fallback of `get_latest_checkpoint`: rows of different jobs share the key `checkpoint_id`, so its answer is an arbitrary parameter.
- Recovery's reset of `current_checkpoint_id` in `jobmanager/api.py`: it lets ids be reused, and the lifecycle theorems do not hold across it.
- Failed checkpoints carry no metadata in the model; the protocol only remembers which ids were dropped.
- Threads: each locked section is one atomic step, and so is each call of a single operator, although nothing locks it; which waiting thread a release wakes is not modelled.
- Recovery.Next: a snapshot reads all operators of a chain at one moment, although the loops could go on while it is taken.
- Zero or missing timestamps: `StreamRecord` replaces them by the clock; arrivals in the pipeline theorem have positive timestamps, as do the sizes and slides of windows.
- Exceptions raised by user functions: map, filter, reduce, join and key functions are total and pure; keys are hashable; record headers are not modelled.
- Aliasing of values: records, metadata objects and buffered lists are values, so sharing between a snapshot and a live operator, which pickling rules out, does not arise.
- Operators.StreamOperator.ProcessElement: dispatches over one datatype of operators instead of a class hierarchy and uses the functions that the window, join and aggregate classes are proved to implement.
- Operators.Restored: restoring a snapshot of another kind of operator, which raises an error in the code, leaves the model's operator as it was.
- OperatorRuns.JoinInChain: a join is driven at the head of its chain; nothing in the code sets the side of a join that other operators precede.
- TaskRuns.ExactlyOnceEndToEnd: speaks of runs whose surviving calls do not overlap; `Recovery.CrashesAreInvisibleIff` covers every interleaving.
- OperatorChains.OperatorChain.constructor: asks that no operator object occurs twice in the list; with a repeated object `index` finds the first position and triggered records re-enter too early.
- Scheduling.AllocateTasks: the registry does not change while tasks are placed (heartbeats overwriting free slots, TaskManagers leaving).
- `_resolve_task_ids` and plan wiring: the names it compares never match task ids; `reschedule_tasks` and deployment are left out as well.
- `KeyedProcessOperator`: a state created inside the user function is never stored, so there is no per-key state to state a property of.
- `CollectionSinkOperator` and Kafka offsets in recovery: the sink's list is not part of a snapshot, and the Kafka restore does nothing before `open`.
- `Task.run` as a source of watermarks: it never passes one on and drops the outputs of the last operator; watermarks enter through `Task.process_watermark`, and the model returns the outputs.
- Rounding of floating point sums and averages.
- Flow control, metric averages, state wrappers, graph statistics: single-counter facts.
