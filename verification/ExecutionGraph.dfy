/** Lookup structures over the deployment plans (jobmanager/scheduler.py:285-321). */
module ExecutionGraphs {
  import opened Common
  import opened Scheduling

  /** The ids planned on one TaskManager, in plan order. */
  function TasksOn(plans: seq<DeploymentPlan>, tm: string): seq<string> {
    if plans == [] then []
    else
      var n := |plans| - 1;
      TasksOn(plans[..n], tm) + (if plans[n].taskManagerId == tm then [plans[n].task.id] else [])
  }

  ghost predicate DistinctIds(plans: seq<DeploymentPlan>) {
    forall i, j :: 0 <= i < j < |plans| ==> plans[i].task.id != plans[j].task.id
  }

  ghost predicate HasId(plans: seq<DeploymentPlan>, id: string) {
    exists i :: 0 <= i < |plans| && plans[i].task.id == id
  }

  /** What a dictionary built from the plans in order finds under an id: the last plan with it. */
  function LastPlan(plans: seq<DeploymentPlan>, id: string): Option<DeploymentPlan> {
    if plans == [] then None
    else
      var n := |plans| - 1;
      if plans[n].task.id == id then Some(plans[n]) else LastPlan(plans[..n], id)
  }

  lemma {:induction false} LookupFindsPlanned(plans: seq<DeploymentPlan>, id: string)
    ensures LastPlan(plans, id).Some? <==> HasId(plans, id)
    decreases |plans|
  {
    if plans == [] {
    } else {
      var n := |plans| - 1;
      LookupFindsPlanned(plans[..n], id);
      if HasId(plans[..n], id) {
        var i :| 0 <= i < n && plans[..n][i].task.id == id;
        assert plans[i].task.id == id;
      }
      if HasId(plans, id) && plans[n].task.id != id {
        var i :| 0 <= i < |plans| && plans[i].task.id == id;
        assert plans[..n][i].task.id == id;
      }
    }
  }

  /** The plan found is the last one planned under the id. */
  lemma {:induction false} LookupFindsLast(plans: seq<DeploymentPlan>, i: nat)
    requires i < |plans| && forall j :: i < j < |plans| ==> plans[j].task.id != plans[i].task.id
    ensures LastPlan(plans, plans[i].task.id) == Some(plans[i])
    decreases |plans|
  {
    var n := |plans| - 1;
    if i == n {
    } else {
      LookupFindsLast(plans[..n], i);
    }
  }

  method IndexById(plans: seq<DeploymentPlan>) returns (byId: map<string, DeploymentPlan>)
    ensures forall id :: (if id in byId then Some(byId[id]) else None) == LastPlan(plans, id)
  {
    byId := map[];
    for k := 0 to |plans|
      invariant forall id :: (if id in byId then Some(byId[id]) else None) == LastPlan(plans[..k], id)
    {
      assert plans[..k + 1][..k] == plans[..k];
      byId := byId[plans[k].task.id := plans[k]];
    }
    assert plans[..|plans|] == plans;
  }

  lemma {:induction false} TasksOnStep(plans: seq<DeploymentPlan>, k: nat, tm: string)
    requires k < |plans|
    ensures TasksOn(plans[..k + 1], tm)
            == if plans[k].taskManagerId == tm then TasksOn(plans[..k], tm) + [plans[k].task.id]
               else TasksOn(plans[..k], tm)
  {
    assert plans[..k + 1][..k] == plans[..k];
    assert TasksOn(plans[..k], tm) + [] == TasksOn(plans[..k], tm);
  }

  method GroupByTaskManager(plans: seq<DeploymentPlan>) returns (byTm: map<string, seq<string>>)
    ensures forall tm :: (if tm in byTm then byTm[tm] else []) == TasksOn(plans, tm)
  {
    byTm := map[];
    for k := 0 to |plans|
      invariant forall tm :: (if tm in byTm then byTm[tm] else []) == TasksOn(plans[..k], tm)
    {
      forall tm
        ensures TasksOn(plans[..k + 1], tm)
                == if plans[k].taskManagerId == tm then TasksOn(plans[..k], tm) + [plans[k].task.id]
                   else TasksOn(plans[..k], tm)
      {
        TasksOnStep(plans, k, tm);
      }
      var tm := plans[k].taskManagerId;
      if tm !in byTm {
        byTm := byTm[tm := []];
      }
      byTm := byTm[tm := byTm[tm] + [plans[k].task.id]];
    }
    assert plans[..|plans|] == plans;
  }

  class ExecutionGraph {
    const plans: seq<DeploymentPlan>
    var tasks: map<string, DeploymentPlan>
    var taskManagerTasks: map<string, seq<string>>

    constructor (plans: seq<DeploymentPlan>)
      ensures this.plans == plans
      ensures forall id :: (if id in tasks then Some(tasks[id]) else None) == LastPlan(plans, id)
      ensures forall tm :: (if tm in taskManagerTasks then taskManagerTasks[tm] else []) == TasksOn(plans, tm)
    {
      this.plans := plans;
      var byId := IndexById(plans);
      var byTm := GroupByTaskManager(plans);
      tasks, taskManagerTasks := byId, byTm;
    }

    method GetTasksOnTaskManager(taskManagerId: string) returns (ids: seq<string>)
      requires forall tm :: (if tm in taskManagerTasks then taskManagerTasks[tm] else []) == TasksOn(plans, tm)
      ensures ids == TasksOn(plans, taskManagerId)
    {
      ids := if taskManagerId in taskManagerTasks then taskManagerTasks[taskManagerId] else [];
    }
  }

  ghost predicate PlacedOn(plans: seq<DeploymentPlan>, i: nat, id: string, tm: string) {
    i < |plans| && plans[i].task.id == id && plans[i].taskManagerId == tm
  }

  /** With distinct task ids the per-TaskManager lists partition the ids: a task is listed under a
      TaskManager exactly when its plan names that TaskManager, and it is listed there once. */
  lemma {:induction false} ListsPartitionTasks(plans: seq<DeploymentPlan>, tm: string)
    requires DistinctIds(plans)
    ensures Distinct(TasksOn(plans, tm))
    ensures forall id :: id in TasksOn(plans, tm) <==>
              exists i :: 0 <= i < |plans| && PlacedOn(plans, i, id, tm)
    decreases |plans|
  {
    if plans == [] {
    } else {
      var n := |plans| - 1;
      ListsPartitionTasks(plans[..n], tm);
      assert plans[n].task.id !in TasksOn(plans[..n], tm);
      forall id ensures id in TasksOn(plans, tm) <==> exists i :: 0 <= i < |plans| && PlacedOn(plans, i, id, tm) {
        if id in TasksOn(plans[..n], tm) {
          var i :| 0 <= i < n && PlacedOn(plans[..n], i, id, tm);
          assert PlacedOn(plans, i, id, tm);
        } else if id in TasksOn(plans, tm) {
          assert PlacedOn(plans, n, id, tm);
        }
        if exists i :: 0 <= i < |plans| && PlacedOn(plans, i, id, tm) {
          var i :| 0 <= i < |plans| && PlacedOn(plans, i, id, tm);
          assert i < n ==> PlacedOn(plans[..n], i, id, tm);
        }
      }
    }
  }

  lemma {:induction false} ListsCountPlans(plans: seq<DeploymentPlan>, tm: string)
    ensures |TasksOn(plans, tm)| == PlansOn(plans, tm)
    decreases |plans|
  {
    if plans == [] {
    } else {
      ListsCountPlans(plans[..|plans| - 1], tm);
    }
  }

  /** Ids taken from the plans of a TaskManager, from the first to the last, leaving none out. */
  ghost predicate InPlanOrder(plans: seq<DeploymentPlan>, tm: string, ids: seq<string>, at: seq<nat>) {
    && |at| == |ids|
    && (forall i, j :: 0 <= i < j < |at| ==> at[i] < at[j])
    && (forall k :: 0 <= k < |at| ==>
          at[k] < |plans| && plans[at[k]].taskManagerId == tm && ids[k] == plans[at[k]].task.id)
    && forall i :: 0 <= i < |plans| && plans[i].taskManagerId == tm ==> i in at
  }

  lemma OneMoreInOrder(plans: seq<DeploymentPlan>, tm: string, ids: seq<string>, at: seq<nat>, plan: DeploymentPlan)
    requires InPlanOrder(plans, tm, ids, at)
    ensures plan.taskManagerId == tm ==> InPlanOrder(plans + [plan], tm, ids + [plan.task.id], at + [|plans|])
    ensures plan.taskManagerId != tm ==> InPlanOrder(plans + [plan], tm, ids, at)
  {
    var more := at + [|plans|];
    assert more[|at|] == |plans|;
    forall i | i in at ensures i in more {
      var k :| 0 <= k < |at| && at[k] == i;
      assert more[k] == i;
    }
  }

  lemma {:induction false} LastInPlanOrder(plans: seq<DeploymentPlan>, tm: string, before: seq<nat>)
    requires plans != [] && InPlanOrder(plans[..|plans| - 1], tm, TasksOn(plans[..|plans| - 1], tm), before)
    ensures var n := |plans| - 1;
            InPlanOrder(plans, tm, TasksOn(plans, tm), if plans[n].taskManagerId == tm then before + [n] else before)
  {
    var n := |plans| - 1;
    OneMoreInOrder(plans[..n], tm, TasksOn(plans[..n], tm), before, plans[n]);
    TakeOneMore(plans, n);
    assert plans[..n + 1] == plans && TasksOn(plans[..n], tm) + [] == TasksOn(plans[..n], tm);
  }

  /** The ids listed under a TaskManager are in plan order. */
  lemma {:induction false} ListsKeepPlanOrder(plans: seq<DeploymentPlan>, tm: string) returns (at: seq<nat>)
    ensures InPlanOrder(plans, tm, TasksOn(plans, tm), at)
    decreases |plans|
  {
    if plans == [] {
      at := [];
    } else {
      var n := |plans| - 1;
      var before := ListsKeepPlanOrder(plans[..n], tm);
      LastInPlanOrder(plans, tm, before);
      at := if plans[n].taskManagerId == tm then before + [n] else before;
    }
  }
}
