/** Barrier alignment in a task (taskmanager/task_executor.py:204-245). */
module Barriers {
  import opened Common

  datatype Barrier = Barrier(checkpointId: int, upstream: string)

  /** The upstreams heard from, for each checkpoint being aligned. */
  type Alignment = map<int, set<string>>

  function Heard(a: Alignment, id: int): set<string> {
    if id in a then a[id] else {}
  }

  predicate AllReceived(heard: set<string>, upstreams: seq<string>) {
    forall u :: u in upstreams ==> u in heard
  }

  predicate Aligns(a: Alignment, upstreams: seq<string>, b: Barrier) {
    AllReceived(Heard(a, b.checkpointId) + {b.upstream}, upstreams)
  }

  /** One call of process_barrier; `works` says whether the operator's snapshot would succeed in it. */
  datatype Call = Call(barrier: Barrier, works: bool)

  /** The call gives a snapshot: its barrier completes the alignment, and the operator does not fail. */
  predicate Gives(a: Alignment, upstreams: seq<string>, call: Call) {
    Aligns(a, upstreams, call.barrier) && call.works
  }

  function AfterCall(a: Alignment, upstreams: seq<string>, call: Call): Alignment {
    var b := call.barrier;
    if Gives(a, upstreams, call) then a - {b.checkpointId}
    else a[b.checkpointId := Heard(a, b.checkpointId) + {b.upstream}]
  }

  class Task<S> {
    const upstreams: seq<string>
    var barriers: Alignment

    constructor (upstreams: seq<string>)
      ensures this.upstreams == upstreams && barriers == map[]
    {
      this.upstreams := upstreams;
      barriers := map[];
    }

    /** `state` is what the operator's snapshot gives, or Err if it raises. */
    method ProcessBarrier(b: Barrier, state: Result<S>) returns (snapshot: Option<S>)
      modifies this
      ensures snapshot.Some? <==> Gives(old(barriers), upstreams, Call(b, state.Ok?))
      ensures snapshot.Some? ==> snapshot.value == state.value
      ensures barriers == AfterCall(old(barriers), upstreams, Call(b, state.Ok?))
    {
      var id := b.checkpointId;
      if id !in barriers {
        barriers := barriers[id := {}];
      }
      barriers := barriers[id := barriers[id] + {b.upstream}];
      var allReceived := true;
      for k := 0 to |upstreams|
        invariant allReceived <==> forall u :: u in upstreams[..k] ==> u in barriers[id]
      {
        assert upstreams[..k + 1] == upstreams[..k] + [upstreams[k]];
        allReceived := allReceived && upstreams[k] in barriers[id];
      }
      assert upstreams[..|upstreams|] == upstreams;
      snapshot := None;
      if allReceived {
        match state
        case Ok(s) =>
          barriers := barriers - {id};
          snapshot := Some(s);
        case Err =>
      }
    }
  }

  // Whole runs: the calls a task has served, in order.

  function AlignmentAfter(run: seq<Call>, upstreams: seq<string>): Alignment {
    if run == [] then map[]
    else AfterCall(AlignmentAfter(run[..|run| - 1], upstreams), upstreams, run[|run| - 1])
  }

  /** How many snapshots the run has returned for a checkpoint. */
  function Snapshots(run: seq<Call>, upstreams: seq<string>, id: int): nat {
    if run == [] then 0
    else
      var n := |run| - 1;
      var given := run[n].barrier.checkpointId == id && Gives(AlignmentAfter(run[..n], upstreams), upstreams, run[n]);
      Snapshots(run[..n], upstreams, id) + (if given then 1 else 0)
  }

  function Received(run: seq<Call>, id: int): set<string> {
    set call | call in run && call.barrier.checkpointId == id :: call.barrier.upstream
  }

  predicate FullyReceived(run: seq<Call>, upstreams: seq<string>, id: int) {
    {} != Received(run, id) >= SetOf(upstreams)
  }

  /** `barriers` holds exactly the partly received checkpoints, and each fully received one has
      given exactly one snapshot. */
  ghost predicate ExactAt(run: seq<Call>, upstreams: seq<string>, id: int) {
    var a := AlignmentAfter(run, upstreams);
    && (id in a <==> Received(run, id) != {} && !FullyReceived(run, upstreams, id))
    && (id in a ==> a[id] == Received(run, id))
    && Snapshots(run, upstreams, id) == if FullyReceived(run, upstreams, id) then 1 else 0
  }

  ghost predicate AlignmentExact(run: seq<Call>, upstreams: seq<string>) {
    forall id :: ExactAt(run, upstreams, id)
  }

  /** Call n brings a barrier for a checkpoint that is already fully received. */
  predicate ComesLate(run: seq<Call>, upstreams: seq<string>, n: nat)
    requires n < |run|
  {
    FullyReceived(run[..n], upstreams, run[n].barrier.checkpointId)
  }

  /** Call n brings the last barrier of its checkpoint, and the operator's snapshot fails in it. */
  predicate FailsOnLast(run: seq<Call>, upstreams: seq<string>, n: nat)
    requires n < |run|
  {
    FullyReceived(run[..n + 1], upstreams, run[n].barrier.checkpointId) && !run[n].works
  }

  /** No barrier is late and no snapshot fails when it is due. */
  ghost predicate Undisturbed(run: seq<Call>, upstreams: seq<string>) {
    forall n :: 0 <= n < |run| ==> !ComesLate(run, upstreams, n) && !FailsOnLast(run, upstreams, n)
  }

  lemma ReceivedStep(run: seq<Call>, n: nat, id: int)
    requires n < |run|
    ensures Received(run[..n + 1], id)
            == Received(run[..n], id) + (if run[n].barrier.checkpointId == id then {run[n].barrier.upstream} else {})
  {
    assert run[..n + 1] == run[..n] + [run[n]];
  }

  lemma StepStaysExact(run: seq<Call>, upstreams: seq<string>, n: nat, id: int)
    requires n < |run| && AlignmentExact(run[..n], upstreams)
    requires !ComesLate(run, upstreams, n) && !FailsOnLast(run, upstreams, n)
    ensures ExactAt(run[..n + 1], upstreams, id)
  {
    ReceivedStep(run, n, id);
    assert run[..n + 1][..n] == run[..n];
    assert ExactAt(run[..n], upstreams, id);
    assert ExactAt(run[..n], upstreams, run[n].barrier.checkpointId);
  }

  lemma DisturbanceBreaksExactness(run: seq<Call>, upstreams: seq<string>, n: nat)
    requires n < |run| && AlignmentExact(run[..n], upstreams)
    requires ComesLate(run, upstreams, n) || FailsOnLast(run, upstreams, n)
    ensures !ExactAt(run[..n + 1], upstreams, run[n].barrier.checkpointId)
  {
    var id := run[n].barrier.checkpointId;
    ReceivedStep(run, n, id);
    assert run[..n + 1][..n] == run[..n];
    assert ExactAt(run[..n], upstreams, id);
  }

  lemma {:induction false} ExactWhileUndisturbed(run: seq<Call>, upstreams: seq<string>, n: nat)
    requires n <= |run| && Undisturbed(run, upstreams)
    ensures AlignmentExact(run[..n], upstreams)
  {
    if n == 0 {
    } else {
      ExactWhileUndisturbed(run, upstreams, n - 1);
      forall id ensures ExactAt(run[..n], upstreams, id) {
        StepStaysExact(run, upstreams, n - 1, id);
      }
    }
  }

  /** Alignment is exact throughout a run if and only if no barrier comes late and no snapshot fails
      on the call that brings the last barrier. */
  lemma AlignmentExactIff(run: seq<Call>, upstreams: seq<string>)
    ensures (forall n :: 0 <= n <= |run| ==> AlignmentExact(run[..n], upstreams)) <==> Undisturbed(run, upstreams)
  {
    if Undisturbed(run, upstreams) {
      forall n | 0 <= n <= |run| ensures AlignmentExact(run[..n], upstreams) {
        ExactWhileUndisturbed(run, upstreams, n);
      }
    } else {
      var n: nat :| n < |run| && (ComesLate(run, upstreams, n) || FailsOnLast(run, upstreams, n));
      if AlignmentExact(run[..n], upstreams) {
        DisturbanceBreaksExactness(run, upstreams, n);
        assert !AlignmentExact(run[..n + 1], upstreams);
      }
    }
  }

  function BarriersOf(run: seq<Call>): seq<Barrier> {
    seq(|run|, i requires 0 <= i < |run| => run[i].barrier)
  }

  /** The channel discipline that keeps barriers from being late: known upstreams, each sending each
      barrier once. Then only failing snapshots can disturb the alignment. */
  lemma OncePerUpstreamIsNeverLate(run: seq<Call>, upstreams: seq<string>)
    requires Distinct(BarriersOf(run))
    requires forall b :: b in BarriersOf(run) ==> b.upstream in upstreams
    ensures Undisturbed(run, upstreams) <==> forall n :: 0 <= n < |run| ==> !FailsOnLast(run, upstreams, n)
  {
    forall n | 0 <= n < |run| ensures !ComesLate(run, upstreams, n) {
      var b := BarriersOf(run)[n];
      assert b in BarriersOf(run);
      forall call | call in run[..n] ensures call.barrier != b {
        var m :| 0 <= m < n && run[..n][m] == call;
        assert BarriersOf(run)[m] == call.barrier;
      }
      assert b.upstream !in Received(run[..n], b.checkpointId);
    }
  }

  /** Up to a barrier that is not late, a snapshot comes on exactly the calls that bring a
      checkpoint's last barrier and do not fail. */
  lemma {:induction false} SnapshotOnLastBarrier(run: seq<Call>, upstreams: seq<string>, n: nat)
    requires n < |run| && Undisturbed(run[..n], upstreams) && !ComesLate(run, upstreams, n)
    ensures Gives(AlignmentAfter(run[..n], upstreams), upstreams, run[n])
            <==> FullyReceived(run[..n + 1], upstreams, run[n].barrier.checkpointId) && run[n].works
  {
    ExactWhileUndisturbed(run[..n], upstreams, n);
    assert run[..n][..n] == run[..n];
    ReceivedStep(run, n, run[n].barrier.checkpointId);
    assert ExactAt(run[..n], upstreams, run[n].barrier.checkpointId);
  }

  /** One upstream, one barrier, a failing snapshot: the checkpoint is fully received, yet no snapshot
      was given and its barriers are still tracked. */
  lemma {:induction false} FailedSnapshotKeepsTracking(id: int, upstream: string)
    ensures var run := [Call(Barrier(id, upstream), false)];
            && !ComesLate(run, [upstream], 0)
            && FullyReceived(run, [upstream], id)
            && Snapshots(run, [upstream], id) == 0
            && id in AlignmentAfter(run, [upstream])
  {
    var run := [Call(Barrier(id, upstream), false)];
    assert run[..0] == [];
    assert run[0] in run && Received(run, id) == {upstream};
  }
}
