/** Checkpoint and restore of a source task (taskmanager/task_executor.py:85-117, 185-202, 229-258;
    taskmanager/operators/base.py:171-200; taskmanager/operators/sources.py:221-254). */
module Recovery {
  import opened Common
  import opened Records
  import opened Windows
  import W = WindowOperators
  import opened Operators
  import opened ChainFunctions
  import opened InFlight

  /** An element of the source under way, with the value it was read as. */
  datatype Element = Element(value: Value, flight: Flight)

  /** A running task: its operators, source first; the records of the current batch not yet taken, the
      one being processed, and the watermarks under way. `processed` and `out` are histories of its
      current timeline: the values sent all the way, and what the last operator emitted. */
  datatype TaskState = TaskState(
    ops: seq<Operator>, pending: seq<Record>, element: Option<Element>, passes: seq<Pass>,
    processed: seq<Value>, out: seq<Record>)

  datatype Step =
    | Poll(maxRecords: int, clock: nat -> int)    // read the next batch once the last is used up
    | Take                                        // begin with the next record of the batch
    | Turn                                        // one operator call for that record
    | Watermark(timestamp: int)                   // a watermark arrives
    | PassTurn(i: nat)                            // one operator call for a watermark under way
    | Checkpoint                                  // snapshot the chain between any two calls
    | Crash                                       // restore the last snapshot into new operators

  /** A task and the moment its last snapshot was taken; only the snapshot itself survives a crash. */
  datatype World = World(task: TaskState, states: map<nat, Snapshot>, saved: Option<TaskState>)

  predicate IsSourceChain(ops: seq<Operator>) {
    ops != [] && ops[0].SourceOp?
  }

  function FreshAll(ops: seq<Operator>): seq<Operator> {
    if ops == [] then [] else [Fresh(ops[0])] + FreshAll(ops[1..])
  }

  function NewTask(ops: seq<Operator>): TaskState {
    TaskState(FreshAll(ops), [], None, [], [], [])
  }

  // The steps of a task that never fails.

  /** The element under way after a call, or the end of its way. */
  function WithElement(s: TaskState, value: Value, p: Progress): TaskState {
    match p
    case Flying(f) => s.(element := Some(Element(value, f)))
    case Landed(out) => s.(element := None, processed := s.processed + [value], out := s.out + out)
  }

  function AfterPoll(s: TaskState, maxRecords: int, clock: nat -> int): TaskState {
    if s.pending != [] || s.element.Some? || !IsSourceChain(s.ops) then s
    else
      var read := AfterRead(s.ops[0], maxRecords, clock);
      s.(ops := [read.0] + s.ops[1..], pending := Payload(read.1))
  }

  function AfterTake(s: TaskState): TaskState {
    if s.pending == [] || s.element.Some? then s
    else WithElement(s.(pending := s.pending[1..]), s.pending[0].value, Launch(|s.ops|, 1, s.pending[0]))
  }

  function AfterTurn(s: TaskState): TaskState {
    if s.element.None? || !Airborne(|s.ops|, s.element.value.flight) then s
    else
      var call := Call(s.ops, s.element.value.flight);
      WithElement(s.(ops := call.0), s.element.value.value, call.1)
  }

  function AfterPassTurn(s: TaskState, i: nat): TaskState {
    if i >= |s.passes| || !OnCourse(|s.ops|, s.passes[i]) then s
    else
      var step := PassStep(s.ops, s.passes[i]);
      s.(ops := step.0, out := s.out + step.2,
         passes := if Over(|s.ops|, step.1) then s.passes[..i] + s.passes[i + 1..] else s.passes[i := step.1])
  }

  function Advance(s: TaskState, step: Step): TaskState {
    match step
    case Poll(maxRecords, clock) => AfterPoll(s, maxRecords, clock)
    case Take => AfterTake(s)
    case Turn => AfterTurn(s)
    case Watermark(t) => s.(passes := s.passes + [Pass(t, 0, [], None)])
    case PassTurn(i) => AfterPassTurn(s, i)
    case Checkpoint => s
    case Crash => s
  }

  function Restart(ops: seq<Operator>, w: World): TaskState {
    match w.saved
    case None => NewTask(ops)
    case Some(s) => TaskState(ChainRestored(FreshAll(ops), w.states), [], None, [], s.processed, s.out)
  }

  function Next(ops: seq<Operator>, w: World, step: Step): World {
    match step
    case Checkpoint => World(w.task, ChainSnapshot(w.task.ops), Some(w.task))
    case Crash => w.(task := Restart(ops, w))
    case _ => w.(task := Advance(w.task, step))
  }

  function After(ops: seq<Operator>, steps: seq<Step>): World {
    if steps == [] then World(NewTask(ops), map[], None)
    else var n := |steps| - 1; Next(ops, After(ops, steps[..n]), steps[n])
  }

  /** The same task without failures. */
  function Undisturbed(ops: seq<Operator>, steps: seq<Step>): TaskState {
    if steps == [] then NewTask(ops)
    else var n := |steps| - 1; Advance(Undisturbed(ops, steps[..n]), steps[n])
  }

  /** The steps not rolled back: a crash returns to those before the last checkpoint. */
  datatype Timeline = Timeline(current: seq<Step>, saved: seq<Step>)

  function Continue(t: Timeline, step: Step): Timeline {
    match step
    case Checkpoint => Timeline(t.current, t.current)
    case Crash => Timeline(t.saved, t.saved)
    case _ => Timeline(t.current + [step], t.saved)
  }

  function Surviving(steps: seq<Step>): Timeline {
    if steps == [] then Timeline([], [])
    else var n := |steps| - 1; Continue(Surviving(steps[..n]), steps[n])
  }

  lemma {:induction false} AfterOneMore(ops: seq<Operator>, steps: seq<Step>, step: Step)
    ensures After(ops, steps + [step]) == Next(ops, After(ops, steps), step)
  {
    assert (steps + [step])[..|steps|] == steps;
  }

  // Configurations do not change, and every call that is due can be made.

  lemma {:induction false} FreshAllAt(ops: seq<Operator>)
    ensures |FreshAll(ops)| == |ops| && forall i :: 0 <= i < |ops| ==> FreshAll(ops)[i] == Fresh(ops[i])
  {
    if ops == [] {
    } else {
      FreshAllAt(ops[1..]);
    }
  }

  lemma {:induction false} FreshAllTwice(ops: seq<Operator>)
    ensures FreshAll(FreshAll(ops)) == FreshAll(ops)
  {
    FreshAllAt(ops);
    FreshAllAt(FreshAll(ops));
  }

  lemma ReplacedKeepsConfiguration(ops: seq<Operator>, i: nat, op: Operator)
    requires i < |ops| && Fresh(op) == Fresh(ops[i])
    ensures FreshAll(ops[i := op]) == FreshAll(ops)
  {
    FreshAllAt(ops);
    FreshAllAt(ops[i := op]);
  }

  lemma {:induction false} CallKeepsConfiguration(ops: seq<Operator>, f: Flight)
    requires Airborne(|ops|, f)
    ensures FreshAll(Call(ops, f).0) == FreshAll(ops)
  {
    ConfigurationIsFixed(ops[f.at], f.todo[0], 0);
    ReplacedKeepsConfiguration(ops, f.at, OnElement(ops[f.at], f.todo[0]).0);
  }

  lemma {:induction false} PassStepKeepsConfiguration(ops: seq<Operator>, p: Pass)
    requires OnCourse(|ops|, p)
    ensures FreshAll(PassStep(ops, p).0) == FreshAll(ops)
  {
    if p.flight.Some? {
      CallKeepsConfiguration(ops, p.flight.value);
    } else if p.triggered == [] && p.turn < |ops| {
      ConfigurationIsFixed(ops[p.turn], Record(Nothing, NoKey, 0), p.timestamp);
      ReplacedKeepsConfiguration(ops, p.turn, OnWatermark(ops[p.turn], p.timestamp).0);
    }
  }

  lemma PollKeepsConfiguration(s: TaskState, m: int, clock: nat -> int)
    ensures FreshAll(AfterPoll(s, m, clock).ops) == FreshAll(s.ops)
  {
    if s.pending == [] && s.element.None? && IsSourceChain(s.ops) {
      var read := AfterRead(s.ops[0], m, clock);
      assert [read.0] + s.ops[1..] == s.ops[0 := read.0];
      ReplacedKeepsConfiguration(s.ops, 0, read.0);
    }
  }

  lemma AdvanceKeepsConfiguration(s: TaskState, step: Step)
    ensures FreshAll(Advance(s, step).ops) == FreshAll(s.ops)
  {
    match step
    case Poll(m, clock) => PollKeepsConfiguration(s, m, clock);
    case Turn =>
      if s.element.Some? && Airborne(|s.ops|, s.element.value.flight) {
        CallKeepsConfiguration(s.ops, s.element.value.flight);
      }
    case PassTurn(i) =>
      if i < |s.passes| && OnCourse(|s.ops|, s.passes[i]) {
        PassStepKeepsConfiguration(s.ops, s.passes[i]);
      }
    case _ =>
  }

  lemma {:induction false} RestoreGivesSnapshotBack(ops: seq<Operator>, s: seq<Operator>)
    requires FreshAll(s) == FreshAll(ops)
    ensures ChainRestored(FreshAll(ops), ChainSnapshot(s)) == s
  {
    FreshAllTwice(ops);
    FreshAllAt(s);
    FreshAllAt(ops);
    FreshAllAt(FreshAll(ops));
    ChainRestoreUndoesSnapshot(s, FreshAll(ops));
  }

  /** What is under way has a call due: no step of it is held up. */
  ghost predicate NothingHeldUp(s: TaskState) {
    && (s.element.Some? ==> Airborne(|s.ops|, s.element.value.flight))
    && forall i :: 0 <= i < |s.passes| ==> OnCourse(|s.ops|, s.passes[i])
  }

  lemma AdvanceHoldsNothingUp(s: TaskState, step: Step)
    requires NothingHeldUp(s)
    ensures NothingHeldUp(Advance(s, step))
  {
  }

  lemma {:induction false} RunHoldsNothingUp(ops: seq<Operator>, steps: seq<Step>)
    ensures NothingHeldUp(After(ops, steps).task)
    decreases |steps|
  {
    if steps == [] {
    } else {
      RunHoldsNothingUp(ops, steps[..|steps| - 1]);
      AdvanceHoldsNothingUp(After(ops, steps[..|steps| - 1]).task, steps[|steps| - 1]);
    }
  }

  /** What a world knows about its snapshot. */
  ghost predicate SavedFaithfully(ops: seq<Operator>, w: World) {
    && FreshAll(w.task.ops) == FreshAll(ops)
    && (w.saved.Some? ==> w.states == ChainSnapshot(w.saved.value.ops) && FreshAll(w.saved.value.ops) == FreshAll(ops))
  }

  lemma {:induction false} RunSavesFaithfully(ops: seq<Operator>, steps: seq<Step>)
    ensures SavedFaithfully(ops, After(ops, steps))
    decreases |steps|
  {
    FreshAllTwice(ops);
    if steps == [] {
    } else {
      var n := |steps| - 1;
      RunSavesFaithfully(ops, steps[..n]);
      var w := After(ops, steps[..n]);
      AdvanceKeepsConfiguration(w.task, steps[n]);
      if w.saved.Some? {
        RestoreGivesSnapshotBack(ops, w.saved.value.ops);
      }
    }
  }

  // Crashes are invisible exactly if snapshots are restored only from quiet moments.

  predicate Quiet(s: TaskState) {
    s.pending == [] && s.element.None? && s.passes == []
  }

  function Silenced(s: TaskState): TaskState {
    s.(pending := [], element := None, passes := [])
  }

  /** A crash goes back to the saved moment, except that all that was under way then is gone. */
  lemma {:induction false} CrashForgetsWhatIsUnderWay(ops: seq<Operator>, steps: seq<Step>)
    ensures var w := After(ops, steps);
            w.saved.Some? ==> Restart(ops, w) == Silenced(w.saved.value)
  {
    RunSavesFaithfully(ops, steps);
    var w := After(ops, steps);
    if w.saved.Some? {
      RestoreGivesSnapshotBack(ops, w.saved.value.ops);
    }
  }

  /** Crash n, if it is one, restores a snapshot taken with nothing pending and nothing under way. */
  predicate RestoresQuiet(ops: seq<Operator>, steps: seq<Step>, n: nat)
    requires n < |steps|
  {
    var saved := After(ops, steps[..n]).saved;
    steps[n].Crash? && saved.Some? ==> Quiet(saved.value)
  }

  ghost predicate OnlyQuietRestores(ops: seq<Operator>, steps: seq<Step>) {
    forall n :: 0 <= n < |steps| ==> RestoresQuiet(ops, steps, n)
  }

  /** The task, and the moment it was last saved, are where the surviving steps alone would lead. */
  ghost predicate LikeUndisturbed(ops: seq<Operator>, w: World, t: Timeline) {
    && w.task == Undisturbed(ops, t.current)
    && (if w.saved.Some? then w.saved.value == Undisturbed(ops, t.saved) else t.saved == [])
  }

  lemma {:induction false} UndisturbedStep(ops: seq<Operator>, steps: seq<Step>, step: Step)
    ensures Undisturbed(ops, steps + [step]) == Advance(Undisturbed(ops, steps), step)
  {
    assert (steps + [step])[..|steps|] == steps;
  }

  lemma StepIsInvisible(ops: seq<Operator>, w: World, t: Timeline, step: Step)
    requires LikeUndisturbed(ops, w, t)
    requires step.Crash? && w.saved.Some? ==> Restart(ops, w) == w.saved.value
    ensures LikeUndisturbed(ops, Next(ops, w, step), Continue(t, step))
  {
    UndisturbedStep(ops, t.current, step);
  }

  lemma {:induction false} QuietRestoreIsInvisible(ops: seq<Operator>, steps: seq<Step>, n: nat)
    requires n < |steps| && RestoresQuiet(ops, steps, n)
    requires LikeUndisturbed(ops, After(ops, steps[..n]), Surviving(steps[..n]))
    ensures LikeUndisturbed(ops, After(ops, steps[..n + 1]), Surviving(steps[..n + 1]))
  {
    assert steps[..n + 1][..n] == steps[..n];
    CrashForgetsWhatIsUnderWay(ops, steps[..n]);
    StepIsInvisible(ops, After(ops, steps[..n]), Surviving(steps[..n]), steps[n]);
  }

  lemma {:induction false} QuietRestoresAreInvisible(ops: seq<Operator>, steps: seq<Step>, n: nat)
    requires OnlyQuietRestores(ops, steps) && n <= |steps|
    ensures LikeUndisturbed(ops, After(ops, steps[..n]), Surviving(steps[..n]))
  {
    if n == 0 {
      assert steps[..0] == [];
    } else {
      assert RestoresQuiet(ops, steps, n - 1);
      QuietRestoresAreInvisible(ops, steps, n - 1);
      QuietRestoreIsInvisible(ops, steps, n - 1);
    }
  }

  lemma {:induction false} OtherRestoreShows(ops: seq<Operator>, steps: seq<Step>, n: nat)
    requires n < |steps| && !RestoresQuiet(ops, steps, n)
    requires LikeUndisturbed(ops, After(ops, steps[..n]), Surviving(steps[..n]))
    ensures !LikeUndisturbed(ops, After(ops, steps[..n + 1]), Surviving(steps[..n + 1]))
  {
    assert steps[..n + 1][..n] == steps[..n];
    CrashForgetsWhatIsUnderWay(ops, steps[..n]);
  }

  /** Recovery is invisible: throughout a run with any number of crashes the task is where a run that
      never failed and took just the steps not rolled back would be, with the same outputs, if and
      only if every snapshot restored was taken with nothing pending and nothing under way. */
  lemma {:induction false} CrashesAreInvisibleIff(ops: seq<Operator>, steps: seq<Step>)
    ensures (forall n :: 0 <= n <= |steps| ==> LikeUndisturbed(ops, After(ops, steps[..n]), Surviving(steps[..n])))
            <==> OnlyQuietRestores(ops, steps)
  {
    if OnlyQuietRestores(ops, steps) {
      forall n | 0 <= n <= |steps| ensures LikeUndisturbed(ops, After(ops, steps[..n]), Surviving(steps[..n])) {
        QuietRestoresAreInvisible(ops, steps, n);
      }
    } else {
      var n: nat :| n < |steps| && !RestoresQuiet(ops, steps, n);
      if LikeUndisturbed(ops, After(ops, steps[..n]), Surviving(steps[..n])) {
        OtherRestoreShows(ops, steps, n);
      }
    }
  }

  // Elements of the source: nothing is lost, nothing is repeated.

  function Values(rs: seq<Record>): seq<Value> {
    if rs == [] then [] else [rs[0].value] + Values(rs[1..])
  }

  /** The elements read and not yet processed to the end. */
  function InHand(s: TaskState): seq<Value> {
    (if s.element.Some? then [s.element.value.value] else []) + Values(s.pending)
  }

  /** What was processed and what is in hand are, together, the collection up to the source's index. */
  ghost predicate NothingLost(s: TaskState) {
    && IsSourceChain(s.ops)
    && s.ops[0].index <= |s.ops[0].collection|
    && s.processed + InHand(s) == s.ops[0].collection[..s.ops[0].index]
  }

  lemma {:induction false} ElementValues(collection: seq<Value>, i: nat, n: nat, clock: nat -> int)
    requires i + n <= |collection|
    ensures Values(Payload(Elements(collection, i, n, clock))) == collection[i..i + n]
    decreases n
  {
    if n == 0 {
    } else {
      ElementValues(collection, i + 1, n - 1, clock);
      assert Elements(collection, i, n, clock)[1..] == Elements(collection, i + 1, n - 1, clock);
    }
  }

  lemma ReadContinues(src: Operator, m: int, clock: nat -> int)
    requires src.SourceOp? && src.index <= |src.collection|
    ensures var read := AfterRead(src, m, clock);
            && read.0.SourceOp? && read.0.collection == src.collection && read.0.index <= |src.collection|
            && src.collection[..src.index] + Values(Payload(read.1)) == src.collection[..read.0.index]
  {
    var i, n := src.index, BatchSize(src.collection, src.index, m);
    ElementValues(src.collection, i, n, clock);
    SlicesJoin(src.collection, i, i + n);
  }

  lemma PollLosesNothing(s: TaskState, m: int, clock: nat -> int)
    requires NothingLost(s)
    ensures NothingLost(AfterPoll(s, m, clock))
  {
    if s.pending == [] && s.element.None? {
      ReadContinues(s.ops[0], m, clock);
      NothingInHand(s.processed, Values(AfterPoll(s, m, clock).pending));
    }
  }

  lemma NothingInHand(a: seq<Value>, b: seq<Value>)
    ensures a + ([] + []) == a && [] + b == b
  {
  }

  lemma WithElementLosesNothing(s: TaskState, value: Value, p: Progress)
    requires s.element.None?
    ensures var r := WithElement(s, value, p);
            r.processed + InHand(r) == s.processed + ([value] + Values(s.pending)) && r.ops == s.ops
  {
    Reassociate(s.processed, [value], Values(s.pending));
    assert [] + Values(s.pending) == Values(s.pending);
  }

  lemma TakeLosesNothing(s: TaskState)
    requires NothingLost(s)
    ensures NothingLost(AfterTake(s))
  {
    if s.pending != [] && s.element.None? {
      WithElementLosesNothing(s.(pending := s.pending[1..]), s.pending[0].value, Launch(|s.ops|, 1, s.pending[0]));
      assert [] + Values(s.pending) == Values(s.pending);
    }
  }

  lemma TurnLosesNothing(s: TaskState)
    requires NothingLost(s)
    ensures NothingLost(AfterTurn(s))
  {
    if s.element.Some? && Airborne(|s.ops|, s.element.value.flight) {
      var call := Call(s.ops, s.element.value.flight);
      assert call.0[0] == s.ops[0];
      WithElementLosesNothing(s.(ops := call.0, element := None), s.element.value.value, call.1);
    }
  }

  lemma AdvanceLosesNothing(s: TaskState, step: Step)
    requires NothingLost(s)
    ensures NothingLost(Advance(s, step))
  {
    match step
    case Poll(m, clock) => PollLosesNothing(s, m, clock);
    case Take => TakeLosesNothing(s);
    case Turn => TurnLosesNothing(s);
    case PassTurn(i) =>
      if i < |s.passes| && OnCourse(|s.ops|, s.passes[i]) {
        assert PassStep(s.ops, s.passes[i]).0[0] == s.ops[0];
      }
    case _ =>
  }

  ghost predicate SafeWorld(w: World) {
    NothingLost(w.task) && (w.saved.Some? ==> NothingLost(w.saved.value))
  }

  /** Crash n, if it is one, restores a snapshot taken with no element in hand; watermarks may have
      been under way. */
  predicate RestoresEmptyHanded(ops: seq<Operator>, steps: seq<Step>, n: nat)
    requires n < |steps|
  {
    var saved := After(ops, steps[..n]).saved;
    steps[n].Crash? && saved.Some? ==> saved.value.pending == [] && saved.value.element.None?
  }

  ghost predicate OnlyEmptyHandedRestores(ops: seq<Operator>, steps: seq<Step>) {
    forall n :: 0 <= n < |steps| ==> RestoresEmptyHanded(ops, steps, n)
  }

  lemma NewTaskLosesNothing(ops: seq<Operator>)
    requires IsSourceChain(ops)
    ensures NothingLost(NewTask(ops))
  {
  }

  lemma {:induction false} StepLosesNothing(ops: seq<Operator>, steps: seq<Step>, n: nat)
    requires IsSourceChain(ops) && n < |steps| && SafeWorld(After(ops, steps[..n]))
    requires RestoresEmptyHanded(ops, steps, n)
    ensures SafeWorld(After(ops, steps[..n + 1]))
  {
    assert steps[..n + 1][..n] == steps[..n];
    AdvanceLosesNothing(After(ops, steps[..n]).task, steps[n]);
    CrashForgetsWhatIsUnderWay(ops, steps[..n]);
    NewTaskLosesNothing(ops);
  }

  lemma {:induction false} SafeWhileRestoresAreEmptyHanded(ops: seq<Operator>, steps: seq<Step>, n: nat)
    requires IsSourceChain(ops) && OnlyEmptyHandedRestores(ops, steps) && n <= |steps|
    ensures SafeWorld(After(ops, steps[..n]))
  {
    if n == 0 {
      NewTaskLosesNothing(ops);
    } else {
      SafeWhileRestoresAreEmptyHanded(ops, steps, n - 1);
      StepLosesNothing(ops, steps, n - 1);
    }
  }

  /** The first restore of a mid-batch snapshot loses exactly the elements then in hand. */
  lemma {:induction false} MidBatchRestoreLoses(ops: seq<Operator>, steps: seq<Step>, n: nat)
    requires n < |steps| && SafeWorld(After(ops, steps[..n])) && !RestoresEmptyHanded(ops, steps, n)
    ensures var saved, task := After(ops, steps[..n]).saved.value, After(ops, steps[..n + 1]).task;
            && IsSourceChain(task.ops) && task.ops[0].index <= |task.ops[0].collection|
            && InHand(saved) != [] && Quiet(task)
            && task.processed + InHand(saved) == task.ops[0].collection[..task.ops[0].index]
            && !NothingLost(task)
  {
    assert steps[..n + 1][..n] == steps[..n];
    CrashForgetsWhatIsUnderWay(ops, steps[..n]);
    var saved, task := After(ops, steps[..n]).saved.value, After(ops, steps[..n + 1]).task;
    assert task == Silenced(saved) && InHand(task) == [];
    assert |saved.processed + InHand(saved)| > |task.processed + InHand(task)|;
  }

  /** Throughout a run with crashes every element of the collection is processed exactly once, in
      order, on the surviving timeline, if and only if no crash restores a mid-batch snapshot. */
  lemma {:induction false} ExactlyOnceIff(ops: seq<Operator>, steps: seq<Step>)
    requires IsSourceChain(ops)
    ensures (forall n :: 0 <= n <= |steps| ==> SafeWorld(After(ops, steps[..n]))) <==>
              OnlyEmptyHandedRestores(ops, steps)
  {
    if OnlyEmptyHandedRestores(ops, steps) {
      forall n | 0 <= n <= |steps| ensures SafeWorld(After(ops, steps[..n])) {
        SafeWhileRestoresAreEmptyHanded(ops, steps, n);
      }
    } else {
      var n: nat :| n < |steps| && !RestoresEmptyHanded(ops, steps, n);
      if SafeWorld(After(ops, steps[..n])) {
        MidBatchRestoreLoses(ops, steps, n);
      }
    }
  }

  // Concrete losses.

  /** The turn of an operator in the only watermark's pass. */
  lemma WatermarkTurn(s: TaskState, p: Pass)
    requires s.passes == [p] && p.flight.None? && p.triggered == [] && p.turn < |s.ops|
    ensures var step := OnWatermark(s.ops[p.turn], p.timestamp);
            var q := Pass(p.timestamp, p.turn + 1, step.1, None);
            AfterPassTurn(s, 0)
            == s.(ops := s.ops[p.turn := step.0], passes := if Over(|s.ops|, q) then [] else [q])
  {
    assert s.out + [] == s.out && [p][..0] + [p][1..] == [];
  }

  /** One element, a snapshot while it is pending, a crash: the source is past it, and it is never processed. */
  lemma PendingElementIsLost(v: Value, clock: nat -> int)
    ensures var ops := [SourceOp([v], 0)];
            var task := After(ops, [Poll(1, clock), Checkpoint, Crash]).task;
            Quiet(task) && task.processed == [] && task.ops == [SourceOp([v], 1)]
  {
    var ops := [SourceOp([v], 0)];
    var polled: seq<Step> := [Poll(1, clock)];
    var saved: seq<Step> := [Poll(1, clock), Checkpoint];
    var steps: seq<Step> := [Poll(1, clock), Checkpoint, Crash];
    assert polled[..0] == [] && saved[..1] == polled && steps[..2] == saved;
    assert ops[1..] == [] && FreshAll(ops) == ops;
    CrashForgetsWhatIsUnderWay(ops, saved);
    assert After(ops, polled).task.ops == [SourceOp([v], 1)];
  }

  lemma OnePaneFires(cfg: W.WindowConfig, r: Record, p: W.Pane)
    requires Assign(cfg.assigner, r.timestamp) == [p.window] && p.key == r.key && cfg.reduce.None?
    ensures var s := W.AfterElement(cfg, W.NO_WINDOWS, r);
            && W.AfterWatermark(s, p.window.end) == W.WindowState([], map[], p.window.end)
            && W.FiredBy(cfg, s, p.window.end) == [Record(Items([r.value]), r.key, p.window.end)]
  {
    var ws, s, t := Assign(cfg.assigner, r.timestamp), W.AfterElement(cfg, W.NO_WINDOWS, r), p.window.end;
    assert ws[..0] == [];
    assert W.AddToAll(W.NO_WINDOWS, r.key, ws[..0], r.value) == W.NO_WINDOWS;
    assert [] + [r.value] == [r.value] && [] + [p] == [p];
    assert s.order == [p] && s.panes == map[p := [r.value]];
    assert [p][1..] == [] && [p][..0] == [];
    assert Filter(W.Due(t), s.order) == [p] && Filter(W.NotDue(t), s.order) == [];
    assert W.Results(cfg, s, [p][..0]) == [];
  }

  const TENS := W.WindowConfig(Tumbling(10), None)

  function WindowJob(v: Value, f: Value -> Value, index: nat, windows: W.WindowState): seq<Operator> {
    [SourceOp([v], index), WindowOp(TENS, windows), MapOp(f)]
  }

  lemma PayloadOfOne(r: SourceRecord)
    ensures Payload([r]) == [r.record]
  {
    assert [r][1..] == [];
  }

  lemma FirstRead(v: Value, f: Value -> Value, now: int)
    ensures var r := Record(v, NoKey, now);
            AfterPoll(NewTask(WindowJob(v, f, 0, W.NO_WINDOWS)), 1, (i: nat) => now)
            == TaskState(WindowJob(v, f, 1, W.NO_WINDOWS), [r], None, [], [], [])
  {
    var ops := WindowJob(v, f, 0, W.NO_WINDOWS);
    FreshAllAt(ops);
    assert FreshAll(ops) == ops;
    var read := AfterRead(ops[0], 1, (i: nat) => now).1;
    assert read == [SourceRecord(Record(v, NoKey, now), 0, 0)];
    PayloadOfOne(read[0]);
    assert [SourceOp([v], 1)] + ops[1..] == WindowJob(v, f, 1, W.NO_WINDOWS);
  }

  lemma RecordEntersWindow(v: Value, f: Value -> Value, r: Record)
    requires r.value == v
    ensures var s := TaskState(WindowJob(v, f, 1, W.NO_WINDOWS), [r], None, [], [], []);
            AfterTurn(AfterTake(s))
            == TaskState(WindowJob(v, f, 1, W.AfterElement(TENS, W.NO_WINDOWS, r)), [], None, [], [v], [])
  {
    var s := TaskState(WindowJob(v, f, 1, W.NO_WINDOWS), [r], None, [], [], []);
    assert AfterTake(s) == s.(pending := [], element := Some(Element(v, Flight(1, [r], []))));
  }

  lemma AfterThreeSteps(v: Value, f: Value -> Value, now: int)
    ensures var r := Record(v, NoKey, now);
            After(WindowJob(v, f, 0, W.NO_WINDOWS), [Poll(1, (i: nat) => now), Take, Turn]).task
            == TaskState(WindowJob(v, f, 1, W.AfterElement(TENS, W.NO_WINDOWS, r)), [], None, [], [v], [])
  {
    var ops := WindowJob(v, f, 0, W.NO_WINDOWS);
    var poll := Poll(1, (i: nat) => now);
    AfterOneMore(ops, [], poll);
    AfterOneMore(ops, [poll], Take);
    AfterOneMore(ops, [poll, Take], Turn);
    assert [] + [poll] == [poll] && [poll] + [Take] == [poll, Take] && [poll, Take] + [Turn] == [poll, Take, Turn];
    FirstRead(v, f, now);
    RecordEntersWindow(v, f, Record(v, NoKey, now));
  }

  lemma WatermarkReachesWindow(v: Value, f: Value -> Value, filled: W.WindowState, result: Record)
    requires W.AfterWatermark(filled, 10) == W.WindowState([], map[], 10) && W.FiredBy(TENS, filled, 10) == [result]
    ensures var s := TaskState(WindowJob(v, f, 1, filled), [], None, [Pass(10, 0, [], None)], [v], []);
            AfterPassTurn(AfterPassTurn(s, 0), 0)
            == TaskState(WindowJob(v, f, 1, W.WindowState([], map[], 10)), [], None, [Pass(10, 2, [result], None)],
              [v], [])
  {
    var ops := WindowJob(v, f, 1, filled);
    var s := TaskState(ops, [], None, [Pass(10, 0, [], None)], [v], []);
    WatermarkTurn(s, Pass(10, 0, [], None));
    assert ops[0 := ops[0]] == ops;
    var s' := s.(passes := [Pass(10, 1, [], None)]);
    assert AfterPassTurn(s, 0) == s';
    WatermarkTurn(s', Pass(10, 1, [], None));
    assert ops[1 := WindowOp(TENS, W.WindowState([], map[], 10))] == WindowJob(v, f, 1, W.WindowState([], map[], 10));
  }

  lemma {:induction false} StepTaken(ops: seq<Operator>, steps: seq<Step>, n: nat)
    requires n < |steps| && !steps[n].Crash?
    ensures After(ops, steps[..n + 1]).task == Advance(After(ops, steps[..n]).task, steps[n])
  {
    assert steps[..n + 1][..n] == steps[..n];
  }

  lemma {:induction false} AfterWatermarkTurns(ops: seq<Operator>, steps: seq<Step>)
    ensures After(ops, steps + [Watermark(10), PassTurn(0), PassTurn(0)]).task
            == AfterPassTurn(AfterPassTurn(Advance(After(ops, steps).task, Watermark(10)), 0), 0)
  {
    var more := steps + [Watermark(10), PassTurn(0), PassTurn(0)];
    StepTaken(ops, more, |steps|);
    StepTaken(ops, more, |steps| + 1);
    StepTaken(ops, more, |steps| + 2);
    assert more[..|steps|] == steps && more[..|steps| + 3] == more;
  }

  lemma TenFires(v: Value)
    ensures var filled := W.AfterElement(TENS, W.NO_WINDOWS, Record(v, NoKey, 5));
            && W.AfterWatermark(filled, 10) == W.WindowState([], map[], 10)
            && W.FiredBy(TENS, filled, 10) == [Record(Items([v]), NoKey, 10)]
  {
    OnePaneFires(TENS, Record(v, NoKey, 5), W.Pane(NoKey, Window(0, 10)));
  }

  lemma AfterSixSteps(v: Value, f: Value -> Value)
    ensures var steps := [Poll(1, (i: nat) => 5), Take, Turn] + [Watermark(10), PassTurn(0), PassTurn(0)];
            Silenced(After(WindowJob(v, f, 0, W.NO_WINDOWS), steps).task)
            == TaskState(WindowJob(v, f, 1, W.WindowState([], map[], 10)), [], None, [], [v], [])
  {
    var ops, r := WindowJob(v, f, 0, W.NO_WINDOWS), Record(v, NoKey, 5);
    var filled, result := W.AfterElement(TENS, W.NO_WINDOWS, r), Record(Items([v]), NoKey, 10);
    AfterThreeSteps(v, f, 5);
    AfterWatermarkTurns(ops, [Poll(1, (i: nat) => 5), Take, Turn]);
    TenFires(v);
    var s := TaskState(WindowJob(v, f, 1, filled), [], None, [], [v], []);
    assert Advance(s, Watermark(10)) == s.(passes := [Pass(10, 0, [], None)]);
    WatermarkReachesWindow(v, f, filled, result);
  }

  /** A value in a window, a snapshot between the window's turn and that of the operator behind it, a
      crash: all elements are accounted for, yet the value is neither buffered nor was it emitted. */
  lemma TriggeredResultIsLost(v: Value, f: Value -> Value)
    ensures var steps := [Poll(1, (i: nat) => 5), Take, Turn,
                          Watermark(10), PassTurn(0), PassTurn(0), Checkpoint, Crash];
            var task := After(WindowJob(v, f, 0, W.NO_WINDOWS), steps).task;
            && Quiet(task) && task.processed == [v] && task.out == []
            && task.ops == WindowJob(v, f, 1, W.WindowState([], map[], 10))
  {
    var ops := WindowJob(v, f, 0, W.NO_WINDOWS);
    var steps := [Poll(1, (i: nat) => 5), Take, Turn, Watermark(10), PassTurn(0), PassTurn(0), Checkpoint, Crash];
    var six := [Poll(1, (i: nat) => 5), Take, Turn] + [Watermark(10), PassTurn(0), PassTurn(0)];
    AfterSixSteps(v, f);
    AfterOneMore(ops, six, Checkpoint);
    CrashForgetsWhatIsUnderWay(ops, six + [Checkpoint]);
    AfterOneMore(ops, six + [Checkpoint], Crash);
    assert six + [Checkpoint] + [Crash] == steps;
  }
}
