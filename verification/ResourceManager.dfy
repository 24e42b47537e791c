/** The registry of TaskManagers and their free slots (jobmanager/resource_manager.py). */
module ResourceManagers {
  import opened Common

  /** One registered TaskManager. The registry and the scheduler share these objects. */
  class TaskManagerInfo {
    const id: string
    const taskSlots: int
    var availableSlots: int
    var lastHeartbeat: int

    constructor (id: string, taskSlots: int, now: int)
      ensures this.id == id && this.taskSlots == taskSlots
      ensures availableSlots == taskSlots && lastHeartbeat == now
    {
      this.id, this.taskSlots := id, taskSlots;
      availableSlots, lastHeartbeat := taskSlots, now;
    }

    predicate IsHealthy(now: int, timeout: int) reads this {
      now - lastHeartbeat < timeout
    }
  }

  class ResourceManager {
    const heartbeatTimeout: int
    var taskManagers: map<string, TaskManagerInfo>
    var ids: seq<string>                // keys of taskManagers in insertion order

    ghost predicate Valid() reads this {
      && Distinct(ids)
      && SetOf(ids) == taskManagers.Keys
      && forall id :: id in taskManagers ==> taskManagers[id].id == id
    }

    constructor (heartbeatTimeout: int)
      ensures Valid() && this.heartbeatTimeout == heartbeatTimeout && taskManagers == map[] && ids == []
    {
      this.heartbeatTimeout := heartbeatTimeout;
      taskManagers, ids := map[], [];
    }

    method RegisterTaskManager(id: string, taskSlots: int, now: int) returns (ok: bool)
      requires Valid()
      modifies this
      ensures Valid() && (ok <==> id !in old(taskManagers))
      ensures !ok ==> taskManagers == old(taskManagers) && ids == old(ids)
      ensures ok ==> ids == old(ids) + [id] && taskManagers.Keys == old(taskManagers.Keys) + {id}
      ensures ok ==>
                && fresh(taskManagers[id])
                && taskManagers[id].availableSlots == taskManagers[id].taskSlots == taskSlots
      ensures ok ==> taskManagers[id].lastHeartbeat == now
      ensures forall k :: k in old(taskManagers) ==> taskManagers[k] == old(taskManagers[k])
    {
      if id in taskManagers {
        return false;
      }
      var info := new TaskManagerInfo(id, taskSlots, now);
      assert id !in SetOf(ids);
      taskManagers := taskManagers[id := info];
      ids := ids + [id];
      ok := true;
    }

    method AllocateSlot(id: string) returns (ok: bool)
      requires Valid()
      modifies taskManagers.Values`availableSlots
      ensures ok <==> id in taskManagers && old(taskManagers[id].availableSlots) > 0
      ensures forall k :: k in taskManagers ==>
                taskManagers[k].availableSlots == old(taskManagers[k].availableSlots) - (if ok && k == id then 1 else 0)
    {
      if id !in taskManagers {
        return false;
      }
      var info := taskManagers[id];
      if info.availableSlots <= 0 {
        return false;
      }
      info.availableSlots := info.availableSlots - 1;
      ok := true;
    }

    method ReleaseSlot(id: string) returns (ok: bool)
      requires Valid()
      modifies taskManagers.Values`availableSlots
      ensures ok <==> id in taskManagers && old(taskManagers[id].availableSlots) < taskManagers[id].taskSlots
      ensures forall k :: k in taskManagers ==>
                taskManagers[k].availableSlots == old(taskManagers[k].availableSlots) + (if ok && k == id then 1 else 0)
    {
      if id !in taskManagers {
        return false;
      }
      var info := taskManagers[id];
      if info.availableSlots >= info.taskSlots {
        return false;
      }
      info.availableSlots := info.availableSlots + 1;
      ok := true;
    }

    predicate IsAvailable(id: string, now: int)
      requires id in taskManagers
      reads this, taskManagers[id]
    {
      taskManagers[id].availableSlots > 0 && taskManagers[id].IsHealthy(now, heartbeatTimeout)
    }

    /** Those of some registered TaskManagers that are healthy and have a free slot. */
    ghost function AvailableAmong(some: seq<string>, now: int): (r: seq<TaskManagerInfo>)
      requires forall id :: id in some ==> id in taskManagers
      reads this, taskManagers.Values
    {
      if some == [] then []
      else
        var n := |some| - 1;
        AvailableAmong(some[..n], now) + (if IsAvailable(some[n], now) then [taskManagers[some[n]]] else [])
    }

    /** A list holds exactly those of some TaskManagers that have a free slot and whose last heartbeat is
        less than the timeout ago, each once. */
    ghost predicate ListsAvailable(some: seq<string>, now: int, r: seq<TaskManagerInfo>)
      requires forall id :: id in some ==> id in taskManagers
      reads this, taskManagers.Values
    {
      && (forall i :: 0 <= i < |r| ==>
            && r[i].id in some && taskManagers[r[i].id] == r[i]
            && r[i].availableSlots > 0 && now < r[i].lastHeartbeat + heartbeatTimeout)
      && (forall id :: id in some ==>
            var info := taskManagers[id];
            info.availableSlots > 0 && now < info.lastHeartbeat + heartbeatTimeout ==> info in r)
      && (forall i, j :: 0 <= i < j < |r| ==> r[i].id != r[j].id)
    }

    lemma OneMoreListed(some: seq<string>, id: string, now: int, r: seq<TaskManagerInfo>)
      requires Valid() && id !in some && id in taskManagers && forall k :: k in some ==> k in taskManagers
      requires ListsAvailable(some, now, r)
      ensures ListsAvailable(some + [id], now, if IsAvailable(id, now) then r + [taskManagers[id]] else r)
    {
    }

    lemma {:induction false} AvailableSnoc(some: seq<string>, id: string, now: int)
      requires id in taskManagers && forall k :: k in some ==> k in taskManagers
      ensures var before := AvailableAmong(some, now);
              AvailableAmong(some + [id], now) == if IsAvailable(id, now) then before + [taskManagers[id]] else before
    {
      assert (some + [id])[..|some|] == some;
      assert AvailableAmong(some, now) + [] == AvailableAmong(some, now);
    }

    lemma {:induction false} AvailableMembers(some: seq<string>, now: int)
      requires Valid() && Distinct(some) && forall id :: id in some ==> id in taskManagers
      ensures ListsAvailable(some, now, AvailableAmong(some, now))
      decreases |some|
    {
      if some == [] {
      } else {
        var n := |some| - 1;
        AvailableMembers(some[..n], now);
        OneMoreListed(some[..n], some[n], now, AvailableAmong(some[..n], now));
        AvailableSnoc(some[..n], some[n], now);
        TakeOneMore(some, n);
        assert some[..n + 1] == some;
      }
    }

    method GetAvailableTaskManagers(now: int) returns (infos: seq<TaskManagerInfo>)
      requires Valid()
      ensures forall id :: id in ids ==> id in taskManagers
      ensures infos == AvailableAmong(ids, now)
    {
      assert forall id :: id in ids <==> id in SetOf(ids);
      infos := [];
      for k := 0 to |ids|
        invariant infos == AvailableAmong(ids[..k], now)
      {
        assert ids[..k + 1][..k] == ids[..k];
        var info := taskManagers[ids[k]];
        if info.availableSlots > 0 && info.IsHealthy(now, heartbeatTimeout) {
          infos := infos + [info];
        }
      }
      assert ids[..|ids|] == ids;
    }
  }
}
