/** From a job graph to deployment plans: chaining, physical tasks, placement and lookups in one piece
    (jobmanager/scheduler.py:45-74). */
module JobScheduling {
  import opened Common
  import opened JobGraphs
  import opened Chaining
  import opened PhysicalTasks
  import opened ResourceManagers
  import opened Scheduling
  import opened ExecutionGraphs

  /** The chains are valid, maximal and disjoint, and cover the vertices. */
  ghost predicate CutInto(graph: JobGraph, chains: seq<seq<string>>)
    reads graph
  {
    ChainsCorrect(graph.edges, chains) && forall v :: v in graph.vertices <==> InSome(chains, v)
  }

  lemma ChainsAreUsable(graph: JobGraph, chains: seq<seq<string>>)
    requires CutInto(graph, chains)
    ensures UsableChains(graph.vertices, chains)
  {
    forall i, v | 0 <= i < |chains| && v in chains[i] ensures v in graph.vertices {
      var a :| 0 <= a < |chains[i]| && chains[i][a] == v;
      assert At(chains, i, a, v);
    }
  }

  method CutIntoChains(graph: JobGraph) returns (r: Result<seq<seq<string>>>)
    requires graph.Valid()
    ensures r.Err? <==> Cyclic(graph.edges)
    ensures r.Ok? ==> CutInto(graph, r.value) && UsableChains(graph.vertices, r.value)
  {
    r := IdentifyChainableOperators(graph);
    if r.Ok? {
      ChainsAreUsable(graph, r.value);
    }
  }

  /** `chains` are those the job was cut into. A cyclic graph is refused and no slot is touched;
      otherwise the instances of the chains are placed, and the job is scheduled if and only if some
      TaskManager is available and the instances fit on the seats. */
  method ScheduleJob(rm: ResourceManager, jobId: string, graph: JobGraph, now: int)
    returns (r: Result<seq<DeploymentPlan>>, ghost chains: seq<seq<string>>)
    requires rm.Valid() && graph.Valid()
    modifies rm.taskManagers.Values`availableSlots
    ensures forall id :: id in rm.ids ==> id in rm.taskManagers
    ensures UsableChains(graph.vertices, chains)
    ensures Cyclic(graph.edges) ==> r.Err? && SlotsTaken(rm, [], old(FreeSlots(rm)))
    ensures !Cyclic(graph.edges) ==>
              && CutInto(graph, chains)
              && PlacementOutcome(rm, old(FreeSlots(rm)), old(AvailableIds(rm, now)),
                                  old(AvailableSeats(rm, rm.ids, now)),
                                  AllTasks(jobId, graph.vertices, graph.edges, chains), r)
  {
    RegisteredIds(rm);
    ghost var before, offered, seats := FreeSlots(rm), AvailableIds(rm, now), AvailableSeats(rm, rm.ids, now);
    chains := [];
    var identified := CutIntoChains(graph);
    if identified.Err? {
      return Err, chains;
    }
    chains := identified.value;
    var tasks := CreatePhysicalTasks(jobId, graph, identified.value);
    assert FreeSlots(rm) == before && AvailableIds(rm, now) == offered && AvailableSeats(rm, rm.ids, now) == seats;
    r := AllocateTasks(rm, tasks, now);
    assert PlacementOutcome(rm, before, offered, seats, tasks, r);
  }

  lemma {:induction false} NoPlansElsewhere(before: map<string, int>, tasks: seq<PhysicalTask>,
                                            plans: seq<DeploymentPlan>, tm: string)
    requires GoodPlacement(before, tasks, plans)
    ensures PlansOn(plans, tm) <= if tm in before then Seats(before[tm]) else 0
  {
    if PlansOn(plans, tm) > 0 {
      var i := PlanOn(plans, tm);
      assert plans[i].task == tasks[i];
    }
  }

  /** The deployed job, seen through the execution graph: every instance of every chain is planned
      once, each TaskManager lists its own instances once, and none lists more than its seats. */
  lemma {:induction false} ScheduledJobIsPartitioned(jobId: string, vertices: map<string, JobVertex>,
                                                     edges: seq<JobEdge>, chains: seq<seq<string>>,
                                                     before: map<string, int>, plans: seq<DeploymentPlan>, tm: string)
    requires UsableChains(vertices, chains)
    requires GoodPlacement(before, AllTasks(jobId, vertices, edges, chains), plans)
    ensures |plans| == TaskCount(vertices, chains)
    ensures DistinctIds(plans)
    ensures Distinct(TasksOn(plans, tm))
    ensures |TasksOn(plans, tm)| <= if tm in before then Seats(before[tm]) else 0
  {
    var tasks := AllTasks(jobId, vertices, edges, chains);
    TasksAreCounted(jobId, vertices, edges, chains);
    forall k, l | 0 <= k < l < |plans| ensures plans[k].task.id != plans[l].task.id {
      TaskIdsAreDistinct(jobId, vertices, edges, chains, k, l);
      assert plans[k].task == tasks[k] && plans[l].task == tasks[l];
    }
    ListsPartitionTasks(plans, tm);
    ListsCountPlans(plans, tm);
    NoPlansElsewhere(before, tasks, plans, tm);
  }
}
