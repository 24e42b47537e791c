/** The checkpoint coordinator and its acknowledgement protocol
    (jobmanager/checkpoint_coordinator.py). */
module Checkpoints {
  import opened Common

  datatype Status = Triggering | InProgress | Completed | Failed

  datatype Metadata = Metadata(id: int, timestamp: int, status: Status, taskStates: map<string, string>)

  datatype CoordinatorState = CoordinatorState(
    currentId: int, pending: map<int, Metadata>, completed: map<int, Metadata>, acks: map<int, set<string>>)

  // What each locked section does to the coordinator.

  function AfterTrigger(s: CoordinatorState, tasks: set<string>, now: int): CoordinatorState {
    var id := s.currentId + 1;
    CoordinatorState(id, s.pending[id := Metadata(id, now, InProgress, map[])], s.completed, s.acks[id := tasks])
  }

  predicate AckExpected(s: CoordinatorState, id: int, task: string) {
    id in s.pending && id in s.acks && task in s.acks[id]
  }

  /** A checkpoint that is pending but awaits no table entry has its path recorded before the lookup
      of the entry fails. */
  function AfterCommit(s: CoordinatorState, id: int, task: string, path: string,
                       metadataCommitted: bool): CoordinatorState
  {
    if id !in s.pending then s
    else
      var metadata := s.pending[id].(taskStates := s.pending[id].taskStates[task := path]);
      var recorded := s.(pending := s.pending[id := metadata]);
      if id !in s.acks then recorded
      else
        var awaited := s.acks[id] - {task};
        if awaited != {} then recorded.(acks := s.acks[id := awaited])
        else
          CoordinatorState(
            s.currentId, s.pending - {id},
            if metadataCommitted then s.completed[id := metadata.(status := Completed)] else s.completed,
            s.acks - {id})
  }

  predicate TimedOut(m: Metadata, now: int, timeout: int) {
    now - m.timestamp > timeout
  }

  function AfterTimeouts(s: CoordinatorState, now: int, timeout: int): CoordinatorState {
    var dead := set id | id in s.pending && TimedOut(s.pending[id], now, timeout);
    s.(pending := s.pending - dead, acks := s.acks - dead)
  }

  class CheckpointCoordinator {
    const timeout: int
    var currentId: int
    var pending: map<int, Metadata>
    var completed: map<int, Metadata>
    var acks: map<int, set<string>>

    ghost predicate Valid() reads this {
      pending.Keys == acks.Keys
    }

    ghost function State(): CoordinatorState reads this {
      CoordinatorState(currentId, pending, completed, acks)
    }

    constructor (timeout: int)
      ensures Valid() && this.timeout == timeout && State() == CoordinatorState(0, map[], map[], map[])
    {
      this.timeout := timeout;
      currentId, pending, completed, acks := 0, map[], map[], map[];
    }

    method TriggerCheckpoint(taskIds: seq<string>, now: int) returns (id: int)
      requires Valid()
      modifies this
      ensures Valid() && id == old(currentId) + 1
      ensures State() == AfterTrigger(old(State()), SetOf(taskIds), now)
    {
      currentId := currentId + 1;
      id := currentId;
      var metadata := Metadata(id, now, Triggering, map[]);
      pending := pending[id := metadata];
      acks := acks[id := SetOf(taskIds)];
      pending := pending[id := metadata.(status := InProgress)];
    }

    /** The first locked section of an acknowledgement. It changes nothing. */
    method ValidateAck(id: int, task: string) returns (ok: bool)
      ensures ok <==> AckExpected(State(), id, task)
    {
      if id !in pending {
        return false;
      }
      if id !in acks {
        return false;
      }
      ok := task in acks[id];
    }

    /** The second locked section, after a successful upload. */
    method CommitAck(id: int, task: string, path: string, metadataCommitted: bool) returns (ok: bool)
      requires Valid()
      modifies this
      ensures Valid() && (ok <==> id in old(pending))
      ensures State() == AfterCommit(old(State()), id, task, path, metadataCommitted)
    {
      if id !in pending {
        return false;
      }
      var metadata := pending[id];
      pending := pending[id := metadata.(taskStates := metadata.taskStates[task := path])];
      if task in acks[id] {
        acks := acks[id := acks[id] - {task}];
      }
      assert task !in old(acks)[id] ==> old(acks)[id] - {task} == old(acks)[id];
      assert acks == old(acks)[id := old(acks)[id] - {task}];
      if id in acks && acks[id] == {} {
        CompleteCheckpoint(id, metadataCommitted);
        assert pending == old(pending) - {id} && acks == old(acks) - {id};
      }
      ok := true;
    }

    method CompleteCheckpoint(id: int, metadataCommitted: bool)
      requires Valid() && id in pending
      modifies this
      ensures Valid() && currentId == old(currentId)
      ensures pending == old(pending) - {id} && acks == old(acks) - {id}
      ensures completed
              == if metadataCommitted then old(completed)[id := old(pending)[id].(status := Completed)]
                 else old(completed)
    {
      var metadata := pending[id].(status := Completed);
      if metadataCommitted {
        completed := completed[id := metadata];
      } else {
        metadata := metadata.(status := Failed);
      }
      pending := pending - {id};
      acks := acks - {id};
    }

    method CheckCheckpointTimeouts(now: int)
      requires Valid()
      modifies this
      ensures Valid()
      ensures State() == AfterTimeouts(old(State()), now, timeout)
    {
      var timedOut: set<int>, todo := {}, pending.Keys;
      while todo != {}
        invariant todo <= pending.Keys && State() == old(State())
        invariant timedOut == set id | id in pending && id !in todo && TimedOut(pending[id], now, timeout)
        decreases todo
      {
        var id := PickOne(todo);
        if TimedOut(pending[id], now, timeout) {
          timedOut := timedOut + {id};
        }
        todo := todo - {id};
      }
      var dead := timedOut;
      while dead != {}
        invariant Valid() && dead <= timedOut
        invariant currentId == old(currentId) && completed == old(completed)
        invariant pending == old(pending) - (timedOut - dead) && acks == old(acks) - (timedOut - dead)
        decreases dead
      {
        var id := PickOne(dead);
        pending := pending - {id};
        if id in acks {
          acks := acks - {id};
        }
        dead := dead - {id};
      }
      assert timedOut - dead == timedOut;
    }

    method GetLatestCheckpoint(fromDatabase: Option<Metadata>) returns (latest: Option<Metadata>)
      ensures completed == map[] ==> latest == fromDatabase
      ensures completed != map[] ==>
                exists id :: id in completed && IsLatest(completed, id) && latest == Some(completed[id])
    {
      if completed == map[] {
        return fromDatabase;
      }
      assert completed.Keys != {};
      var id := PickOne(completed.Keys);
      var todo := completed.Keys - {id};
      while todo != {}
        invariant id in completed && todo <= completed.Keys
        invariant forall k :: k in completed && k !in todo ==> k <= id
        decreases todo
      {
        var k := PickOne(todo);
        if k > id {
          id := k;
        }
        todo := todo - {k};
      }
      assert IsLatest(completed, id);
      latest := Some(completed[id]);
    }
  }

  ghost predicate IsLatest(completed: map<int, Metadata>, id: int) {
    id in completed && forall k :: k in completed ==> k <= id
  }
}

/** The protocol as a state machine: acknowledgements are in flight between their two locked
    sections, and interleave freely with triggers, timeouts and each other. */
module CheckpointProtocol {
  import opened Common
  import opened Checkpoints

  datatype Ack = Ack(id: int, task: string)

  /** The coordinator, the acks being uploaded, and two histories: the tasks each checkpoint was
      triggered with, and the checkpoints dropped without completing. */
  datatype World = World(c: CoordinatorState, inFlight: multiset<Ack>, triggered: map<int, set<string>>,
                         failed: set<int>)

  datatype Step =
    | Trigger(tasks: set<string>, now: int)
    | Validate(ack: Ack)
    | Commit(ack: Ack, path: string, metadataCommitted: bool)
    | UploadFailed(ack: Ack)
    | Timeouts(now: int)

  function Init(): World {
    World(CoordinatorState(0, map[], map[], map[]), multiset{}, map[], {})
  }

  predicate Enabled(w: World, step: Step) {
    && (step.Commit? ==> step.ack in w.inFlight && step.path != "")
    && (step.UploadFailed? ==> step.ack in w.inFlight)
  }

  function CoordinatorAfter(c: CoordinatorState, step: Step, timeout: int): CoordinatorState {
    match step
    case Trigger(tasks, now) => AfterTrigger(c, tasks, now)
    case Validate(_) => c
    case Commit(ack, path, ok) => AfterCommit(c, ack.id, ack.task, path, ok)
    case UploadFailed(_) => c
    case Timeouts(now) => AfterTimeouts(c, now, timeout)
  }

  function Next(w: World, step: Step, timeout: int): World
    requires Enabled(w, step)
  {
    var c := CoordinatorAfter(w.c, step, timeout);
    World(
      c,
      match step
      case Validate(ack) => if AckExpected(w.c, ack.id, ack.task) then w.inFlight + multiset{ack} else w.inFlight
      case Commit(ack, _, _) => w.inFlight - multiset{ack}
      case UploadFailed(ack) => w.inFlight - multiset{ack}
      case _ => w.inFlight,
      if step.Trigger? then w.triggered[c.currentId := step.tasks] else w.triggered,
      w.failed + (w.c.pending.Keys - c.pending.Keys - c.completed.Keys))
  }

  /** A run: every step is enabled where it is taken. */
  ghost predicate IsRun(steps: seq<Step>, timeout: int)
    decreases |steps|, 0
  {
    steps == [] || (var n := |steps| - 1; IsRun(steps[..n], timeout) && Enabled(After(steps[..n], timeout), steps[n]))
  }

  ghost function After(steps: seq<Step>, timeout: int): World
    requires IsRun(steps, timeout)
    decreases |steps|, 1
  {
    if steps == [] then Init()
    else var n := |steps| - 1; Next(After(steps[..n], timeout), steps[n], timeout)
  }

  ghost predicate Consistent(w: World) {
    && w.c.pending.Keys == w.c.acks.Keys
    && w.c.pending.Keys !! w.c.completed.Keys !! w.failed
    && (forall id :: id in w.triggered <==> 1 <= id <= w.c.currentId)
    && (forall id :: id in w.triggered <==> id in w.c.pending || id in w.c.completed || id in w.failed)
    && (forall id :: id in w.c.pending ==> PendingConsistent(w, id))
    && (forall id :: id in w.c.completed ==> CompletedConsistent(w, id))
    && (forall ack :: ack in w.inFlight ==> ack.id in w.triggered && ack.task in w.triggered[ack.id])
    && w.c.currentId >= 0
  }

  /** Recorded and awaited tasks split the triggered tasks, and somebody is awaited unless the
      checkpoint was triggered with no task at all. */
  ghost predicate PendingConsistent(w: World, id: int)
    requires id in w.c.pending && w.c.pending.Keys == w.c.acks.Keys
  {
    var m, awaited := w.c.pending[id], w.c.acks[id];
    && id in w.triggered
    && m.id == id && m.status == InProgress
    && m.taskStates.Keys !! awaited && m.taskStates.Keys + awaited == w.triggered[id]
    && (awaited == {} ==> w.triggered[id] == {})
    && forall task :: task in m.taskStates ==> m.taskStates[task] != ""
  }

  /** A completed checkpoint has a path for exactly the tasks it was triggered with. */
  ghost predicate CompletedConsistent(w: World, id: int)
    requires id in w.c.completed
  {
    var m := w.c.completed[id];
    && id in w.triggered
    && m.id == id && m.status == Completed
    && m.taskStates.Keys == w.triggered[id] != {}
    && forall task :: task in m.taskStates ==> m.taskStates[task] != ""
  }

  lemma TriggerKeepsConsistent(w: World, tasks: set<string>, now: int, timeout: int)
    requires Consistent(w)
    ensures Consistent(Next(w, Trigger(tasks, now), timeout))
  {
    var w' := Next(w, Trigger(tasks, now), timeout);
    var id := w'.c.currentId;
    assert id !in w.triggered;
    assert w'.failed == w.failed;
    assert w'.c.pending.Keys == w.c.pending.Keys + {id};
    forall k | k in w'.c.pending ensures PendingConsistent(w', k) {
      if k != id {
        assert PendingConsistent(w, k);
      }
    }
    forall k | k in w'.c.completed ensures CompletedConsistent(w', k) {
      assert CompletedConsistent(w, k);
    }
  }

  lemma PartialCommitKeepsConsistent(w: World, ack: Ack, path: string, ok: bool, timeout: int)
    requires Consistent(w) && Enabled(w, Commit(ack, path, ok))
    requires ack.id in w.c.pending && w.c.acks[ack.id] - {ack.task} != {}
    ensures Consistent(Next(w, Commit(ack, path, ok), timeout))
  {
    var w' := Next(w, Commit(ack, path, ok), timeout);
    assert PendingConsistent(w, ack.id);
    assert w'.c.pending.Keys == w.c.pending.Keys && w'.failed == w.failed;
    forall k | k in w'.c.pending ensures PendingConsistent(w', k) {
      assert PendingConsistent(w, k);
    }
    forall k | k in w'.c.completed ensures CompletedConsistent(w', k) {
      assert CompletedConsistent(w, k);
    }
  }

  lemma LastCommitKeepsConsistent(w: World, ack: Ack, path: string, ok: bool, timeout: int)
    requires Consistent(w) && Enabled(w, Commit(ack, path, ok))
    requires ack.id in w.c.pending && w.c.acks[ack.id] - {ack.task} == {}
    ensures Consistent(Next(w, Commit(ack, path, ok), timeout))
  {
    var w' := Next(w, Commit(ack, path, ok), timeout);
    var id := ack.id;
    assert PendingConsistent(w, id);
    assert ack.task in w.triggered[id];
    assert w'.c.pending.Keys == w.c.pending.Keys - {id};
    assert w'.failed == if ok then w.failed else w.failed + {id};
    assert w.c.pending[id].taskStates.Keys + {ack.task} == w.triggered[id];
    forall k | k in w'.c.pending ensures PendingConsistent(w', k) {
      assert PendingConsistent(w, k);
    }
    forall k | k in w'.c.completed ensures CompletedConsistent(w', k) {
      if k in w.c.completed {
        assert CompletedConsistent(w, k);
      }
    }
  }

  lemma CommitKeepsConsistent(w: World, ack: Ack, path: string, ok: bool, timeout: int)
    requires Consistent(w) && Enabled(w, Commit(ack, path, ok))
    ensures Consistent(Next(w, Commit(ack, path, ok), timeout))
  {
    if ack.id !in w.c.pending {
      var w' := Next(w, Commit(ack, path, ok), timeout);
      assert w'.c == w.c && w'.failed == w.failed;
      forall k | k in w'.c.pending ensures PendingConsistent(w', k) {
        assert PendingConsistent(w, k);
      }
      forall k | k in w'.c.completed ensures CompletedConsistent(w', k) {
        assert CompletedConsistent(w, k);
      }
    } else if w.c.acks[ack.id] - {ack.task} != {} {
      PartialCommitKeepsConsistent(w, ack, path, ok, timeout);
    } else {
      LastCommitKeepsConsistent(w, ack, path, ok, timeout);
    }
  }

  lemma TimeoutsKeepConsistent(w: World, now: int, timeout: int)
    requires Consistent(w)
    ensures Consistent(Next(w, Timeouts(now), timeout))
  {
    var w' := Next(w, Timeouts(now), timeout);
    assert w'.c.pending.Keys + (w'.failed - w.failed) == w.c.pending.Keys;
    forall k | k in w'.c.pending ensures PendingConsistent(w', k) {
      assert PendingConsistent(w, k);
    }
    forall k | k in w'.c.completed ensures CompletedConsistent(w', k) {
      assert CompletedConsistent(w, k);
    }
  }

  lemma StepKeepsConsistent(w: World, step: Step, timeout: int)
    requires Consistent(w) && Enabled(w, step)
    ensures Consistent(Next(w, step, timeout))
  {
    match step
    case Trigger(tasks, now) => TriggerKeepsConsistent(w, tasks, now, timeout);
    case Commit(ack, path, ok) => CommitKeepsConsistent(w, ack, path, ok, timeout);
    case Timeouts(now) => TimeoutsKeepConsistent(w, now, timeout);
    case Validate(ack) =>
      var w' := Next(w, step, timeout);
      assert w'.failed == w.failed;
      if AckExpected(w.c, ack.id, ack.task) {
        assert PendingConsistent(w, ack.id);
      }
      forall k | k in w'.c.pending ensures PendingConsistent(w', k) {
        assert PendingConsistent(w, k);
      }
      forall k | k in w'.c.completed ensures CompletedConsistent(w', k) {
        assert CompletedConsistent(w, k);
      }
    case UploadFailed(ack) =>
      var w' := Next(w, step, timeout);
      assert w'.failed == w.failed;
      forall k | k in w'.c.pending ensures PendingConsistent(w', k) {
        assert PendingConsistent(w, k);
      }
      forall k | k in w'.c.completed ensures CompletedConsistent(w', k) {
        assert CompletedConsistent(w, k);
      }
  }

  /** In every interleaving, at every moment. */
  lemma {:induction false} RunsAreConsistent(steps: seq<Step>, timeout: int)
    requires IsRun(steps, timeout)
    ensures Consistent(After(steps, timeout))
    decreases |steps|
  {
    if steps == [] {
    } else {
      var n := |steps| - 1;
      RunsAreConsistent(steps[..n], timeout);
      StepKeepsConsistent(After(steps[..n], timeout), steps[n], timeout);
    }
  }

  // The life of one checkpoint.

  /** From a consistent world, one step only moves checkpoints forward: fresh ids are larger than
      all earlier ones, and what is completed or failed stays so, with the same metadata. */
  ghost predicate MovesForward(w: World, w': World) {
    && w.c.currentId <= w'.c.currentId
    && (forall id :: id in w.triggered ==> id in w'.triggered && w'.triggered[id] == w.triggered[id])
    && (forall id :: id in w'.triggered && id !in w.triggered ==> id > w.c.currentId)
    && (forall id :: id in w.c.completed ==> id in w'.c.completed && w'.c.completed[id] == w.c.completed[id])
    && w.failed <= w'.failed
  }

  lemma StepMovesForward(w: World, step: Step, timeout: int)
    requires Consistent(w) && Enabled(w, step)
    ensures MovesForward(w, Next(w, step, timeout))
  {
  }

  lemma {:induction false} RunMovesForward(steps: seq<Step>, n: nat, timeout: int)
    requires IsRun(steps, timeout) && n <= |steps|
    ensures IsRun(steps[..n], timeout)
    ensures MovesForward(After(steps[..n], timeout), After(steps, timeout))
    decreases |steps|
  {
    if n == |steps| {
      assert steps[..n] == steps;
    } else {
      var m := |steps| - 1;
      RunMovesForward(steps[..m], n, timeout);
      assert steps[..m][..n] == steps[..n];
      RunsAreConsistent(steps[..m], timeout);
      StepMovesForward(After(steps[..m], timeout), steps[m], timeout);
    }
  }

  /** A final verdict is never revised: completed and failed exclude each other at any two moments. */
  lemma {:induction false} VerdictsAreFinal(steps: seq<Step>, n: nat, id: int, timeout: int)
    requires IsRun(steps, timeout) && n <= |steps|
    ensures IsRun(steps[..n], timeout)
    ensures var before, later := After(steps[..n], timeout), After(steps, timeout);
            && (id in before.c.completed ==> id !in later.failed && id !in later.c.pending)
            && (id in before.failed ==> id !in later.c.completed && id !in later.c.pending)
            && (forall k, l :: IsLatest(before.c.completed, k) && IsLatest(later.c.completed, l) ==> k <= l)
  {
    RunMovesForward(steps, n, timeout);
    RunsAreConsistent(steps, timeout);
  }

  /** A checkpoint completes on the acknowledgement of its last awaited task, and on no other step. */
  lemma CompletesOnLastAck(w: World, step: Step, id: int, timeout: int)
    requires Consistent(w) && Enabled(w, step) && id !in w.c.completed
    ensures id in Next(w, step, timeout).c.completed
            <==> step.Commit? && step.metadataCommitted && step.ack.id == id
                 && id in w.c.pending && w.c.acks[id] == {step.ack.task}
  {
    if step.Commit? && step.ack.id == id && id in w.c.pending {
      assert PendingConsistent(w, id);
      if w.c.acks[id] - {step.ack.task} == {} {
        assert w.c.acks[id] != {};
        assert w.c.acks[id] == {step.ack.task};
      }
    }
  }

  /** An upload that ends after its checkpoint completed or timed out leaves the coordinator alone. */
  lemma LateAckIsIgnored(w: World, ack: Ack, path: string, ok: bool, timeout: int)
    requires Consistent(w) && Enabled(w, Commit(ack, path, ok))
    ensures ack.id in w.c.completed || ack.id in w.failed <==> ack.id !in w.c.pending
    ensures ack.id !in w.c.pending ==> Next(w, Commit(ack, path, ok), timeout).c == w.c
  {
  }

  /** Every path in a completed or pending checkpoint was committed for that very task in the run. */
  lemma {:induction false} PathsComeFromAcks(steps: seq<Step>, timeout: int, id: int, task: string) returns (i: nat)
    requires IsRun(steps, timeout)
    requires RecordedPath(After(steps, timeout), id, task).Some?
    ensures i < |steps| && steps[i].Commit? && steps[i].ack == Ack(id, task)
    ensures RecordedPath(After(steps, timeout), id, task) == Some(steps[i].path)
    decreases |steps|
  {
    var n := |steps| - 1;
    var w := After(steps[..n], timeout);
    RunsAreConsistent(steps[..n], timeout);
    if steps[n].Commit? && steps[n].ack == Ack(id, task) && id in w.c.pending {
      i := n;
    } else {
      assert RecordedPath(After(steps, timeout), id, task) == RecordedPath(w, id, task) by {
        StepKeepsOtherPaths(w, steps[n], timeout, id, task);
      }
      i := PathsComeFromAcks(steps[..n], timeout, id, task);
    }
  }

  function RecordedPath(w: World, id: int, task: string): Option<string> {
    var states := if id in w.c.pending then w.c.pending[id].taskStates
                  else if id in w.c.completed then w.c.completed[id].taskStates else map[];
    if task in states then Some(states[task]) else None
  }

  lemma StepKeepsOtherPaths(w: World, step: Step, timeout: int, id: int, task: string)
    requires Consistent(w) && Enabled(w, step)
    requires !(step.Commit? && step.ack == Ack(id, task) && id in w.c.pending)
    requires RecordedPath(Next(w, step, timeout), id, task).Some?
    ensures RecordedPath(Next(w, step, timeout), id, task) == RecordedPath(w, id, task)
  {
  }

  lemma PendingKeepsTimestamp(w: World, step: Step, timeout: int, id: int)
    requires Consistent(w) && Enabled(w, step) && id in Next(w, step, timeout).c.pending
    requires step.Trigger? ==> id != w.c.currentId + 1
    ensures id in w.c.pending && id in w.triggered
    ensures Next(w, step, timeout).c.pending[id].timestamp == w.c.pending[id].timestamp
    ensures Next(w, step, timeout).triggered[id] == w.triggered[id]
  {
  }

  /** Step i triggered the checkpoint: it was taken with the id before as the current one. */
  ghost predicate TriggeredAt(steps: seq<Step>, timeout: int, i: nat, id: int) {
    && i < |steps| && steps[i].Trigger?
    && IsRun(steps[..i], timeout) && After(steps[..i], timeout).c.currentId == id - 1
  }

  lemma TriggeredInPrefix(steps: seq<Step>, timeout: int, n: nat, i: nat, id: int)
    requires n <= |steps| && TriggeredAt(steps[..n], timeout, i, id)
    ensures TriggeredAt(steps, timeout, i, id) && steps[i] == steps[..n][i]
  {
    assert steps[..n][..i] == steps[..i];
  }

  /** Step i triggered the pending checkpoint: its tasks are awaited, and its clock reading kept. */
  ghost predicate StemsFrom(w: World, id: int, trigger: Step) {
    && id in w.c.pending && id in w.triggered && trigger.Trigger?
    && w.c.pending[id].timestamp == trigger.now && w.triggered[id] == trigger.tasks
  }

  lemma NextStemsFrom(w: World, step: Step, timeout: int, id: int) returns (trigger: Option<Step>)
    requires Enabled(w, step) && Consistent(w) && id in Next(w, step, timeout).c.pending
    ensures match trigger
            case Some(t) => t == step && step.Trigger? && id == w.c.currentId + 1
                            && StemsFrom(Next(w, step, timeout), id, step)
            case None => id in w.c.pending
                         && forall t :: StemsFrom(w, id, t) ==> StemsFrom(Next(w, step, timeout), id, t)
  {
    if step.Trigger? && id == w.c.currentId + 1 {
      trigger := Some(step);
    } else {
      PendingKeepsTimestamp(w, step, timeout, id);
      trigger := None;
    }
  }

  lemma {:induction false} TriggeredBy(steps: seq<Step>, timeout: int, id: int) returns (i: nat)
    requires IsRun(steps, timeout) && id in After(steps, timeout).c.pending
    ensures TriggeredAt(steps, timeout, i, id) && StemsFrom(After(steps, timeout), id, steps[i])
    decreases |steps|
  {
    var n := |steps| - 1;
    RunsAreConsistent(steps[..n], timeout);
    var trigger := NextStemsFrom(After(steps[..n], timeout), steps[n], timeout, id);
    if trigger.Some? {
      i := n;
    } else {
      i := TriggeredBy(steps[..n], timeout, id);
      TriggeredInPrefix(steps, timeout, n, i, id);
    }
  }

  /** A timeout check keeps a pending checkpoint, as it is, if and only if the clock has advanced by at
      most the timeout since the step that triggered it; otherwise the checkpoint has failed. */
  lemma TimeoutsDropOverdue(steps: seq<Step>, timeout: int, now: int, id: int) returns (i: nat)
    requires IsRun(steps, timeout) && id in After(steps, timeout).c.pending
    ensures TriggeredAt(steps, timeout, i, id)
    ensures IsRun(steps + [Timeouts(now)], timeout)
    ensures var w, w' := After(steps, timeout), After(steps + [Timeouts(now)], timeout);
            && w'.c.completed == w.c.completed && w'.c.currentId == w.c.currentId
            && (id in w'.c.pending <==> now - steps[i].now <= timeout)
            && (id in w'.c.pending ==> w'.c.pending[id] == w.c.pending[id] && id !in w'.failed)
            && (id !in w'.c.pending ==> id in w'.failed)
  {
    i := TriggeredBy(steps, timeout, id);
    RunsAreConsistent(steps, timeout);
    var longer := Extend(steps, Timeouts(now), timeout);
    RunsAreConsistent(longer, timeout);
  }

  /** An acknowledgement goes into flight exactly for a task the checkpoint was triggered with, while it
      is pending and has no path of that task yet. */
  lemma ValidatesUnrecorded(w: World, ack: Ack, timeout: int)
    requires Consistent(w)
    ensures var w' := Next(w, Validate(ack), timeout);
            && w'.c == w.c
            && w'.inFlight == (if ack.id in w.c.pending && ack.id in w.triggered && ack.task in w.triggered[ack.id]
                                  && ack.task !in w.c.pending[ack.id].taskStates
                               then w.inFlight + multiset{ack} else w.inFlight)
  {
    if ack.id in w.c.pending {
      assert PendingConsistent(w, ack.id);
    }
  }

  /** A checkpoint triggered with no task never completes, in any run. */
  lemma {:induction false} EmptyCheckpointNeverCompletes(steps: seq<Step>, timeout: int, id: int)
    requires IsRun(steps, timeout)
    requires id in After(steps, timeout).triggered && After(steps, timeout).triggered[id] == {}
    ensures id !in After(steps, timeout).c.completed
  {
    RunsAreConsistent(steps, timeout);
  }

  lemma AcknowledgeOne(w: World, ack: Ack, timeout: int)
    requires Consistent(w) && AckExpected(w.c, ack.id, ack.task)
    ensures Enabled(w, Validate(ack))
    ensures var uploading := Next(w, Validate(ack), timeout);
            && Enabled(uploading, Commit(ack, "path", true))
            && var w' := Next(uploading, Commit(ack, "path", true), timeout);
               if w.c.acks[ack.id] == {ack.task} then ack.id in w'.c.completed
               else ack.id in w'.c.pending && ack.id in w'.c.acks &&
                    w'.c.acks[ack.id] == w.c.acks[ack.id] - {ack.task} != {}
  {
  }

  ghost predicate Awaits(c: CoordinatorState, id: int, tasks: set<string>) {
    id in c.pending && id in c.acks && c.acks[id] == tasks
  }

  lemma AcknowledgeInRun(steps: seq<Step>, timeout: int, ack: Ack, awaited: set<string>) returns (run: seq<Step>)
    requires IsRun(steps, timeout) && Awaits(After(steps, timeout).c, ack.id, awaited) && ack.task in awaited
    ensures IsRun(run, timeout) && steps <= run
    ensures awaited == {ack.task} ==> ack.id in After(run, timeout).c.completed
    ensures awaited != {ack.task} ==> Awaits(After(run, timeout).c, ack.id, awaited - {ack.task})
  {
    RunsAreConsistent(steps, timeout);
    AcknowledgeOne(After(steps, timeout), ack, timeout);
    var validated := Extend(steps, Validate(ack), timeout);
    run := Extend(validated, Commit(ack, "path", true), timeout);
  }

  lemma SomeTask(tasks: set<string>) returns (task: string)
    requires tasks != {}
    ensures task in tasks
    ensures tasks != {task} ==> tasks - {task} != {} && |tasks - {task}| < |tasks|
  {
    task :| task in tasks;
  }

  /** No interleaving blocks a checkpoint: while it is pending and awaits somebody, acknowledging
      the awaited tasks one by one completes it. */
  lemma {:induction false} PendingCanComplete(steps: seq<Step>, timeout: int, id: int, awaited: set<string>)
    returns (run: seq<Step>)
    requires IsRun(steps, timeout) && Awaits(After(steps, timeout).c, id, awaited) && awaited != {}
    ensures IsRun(run, timeout) && steps <= run
    ensures id in After(run, timeout).c.completed
    decreases |awaited|
  {
    var task := SomeTask(awaited);
    run := AcknowledgeInRun(steps, timeout, Ack(id, task), awaited);
    if awaited != {task} {
      run := PendingCanComplete(run, timeout, id, awaited - {task});
    }
  }

  lemma Extend(steps: seq<Step>, step: Step, timeout: int) returns (longer: seq<Step>)
    requires IsRun(steps, timeout) && Enabled(After(steps, timeout), step)
    ensures longer == steps + [step] && IsRun(longer, timeout)
    ensures After(longer, timeout) == Next(After(steps, timeout), step, timeout)
  {
    longer := steps + [step];
    assert longer[..|longer| - 1] == steps;
  }
}
