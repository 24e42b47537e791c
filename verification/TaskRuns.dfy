/** What a running task amounts to while nothing overlaps: its chain, over the records and watermarks
    that entered it (taskmanager/task_executor.py:101-117, 185-202). */
module TaskRuns {
  import opened Common
  import opened Records
  import opened Operators
  import opened ChainFunctions
  import opened InFlight
  import opened Recovery
  import opened OperatorRuns

  /** A step begins something new only when nothing is under way. */
  predicate InTurn(s: TaskState, step: Step) {
    step.Poll? || step.Take? || step.Watermark? ==> s.element.None? && s.passes == []
  }

  ghost predicate OneAtATime(ops: seq<Operator>, steps: seq<Step>) {
    forall n :: 0 <= n < |steps| ==> InTurn(Undisturbed(ops, steps[..n]), steps[n])
  }

  /** The records taken and the watermarks brought, in order. */
  function Entered(ops: seq<Operator>, steps: seq<Step>): seq<StreamItem> {
    if steps == [] then []
    else
      var n := |steps| - 1;
      var s := Undisturbed(ops, steps[..n]);
      Entered(ops, steps[..n])
      + (match steps[n]
         case Take => if s.pending != [] && s.element.None? then [Data(s.pending[0])] else []
         case Watermark(t) => [Mark(t)]
         case _ => [])
  }

  /** Where the task stands once what is under way has come to its end. */
  function Finished(s: TaskState): (seq<Operator>, seq<Record>)
    requires NothingHeldUp(s)
  {
    if s.element.Some? then
      var landed := Land(s.ops, s.element.value.flight);
      (landed.0, s.out + landed.1)
    else if s.passes != [] then
      var completed := Complete(s.ops, s.passes[0]);
      (completed.0, s.out + completed.1)
    else (s.ops, s.out)
  }

  ghost predicate AtMostOne(s: TaskState) {
    && NothingHeldUp(s) && IsSourceChain(s.ops)
    && |s.passes| <= 1 && (s.element.Some? ==> s.passes == [])
  }

  /** The source, and behind it the new chain after a run over the items, with the records it emitted. */
  ghost predicate IsChainOver(ops: seq<Operator>, items: seq<StreamItem>, done: (seq<Operator>, seq<Record>))
    requires ops != []
  {
    var run := RunChain(FreshAll(ops[1..]), items);
    done.0 != [] && done.0[0].SourceOp? && done.0[1..] == run.0 && done.1 == RecordsIn(run.1)
  }

  lemma TurnGoesOn(s: TaskState)
    requires AtMostOne(s)
    ensures var after := AfterTurn(s); AtMostOne(after) && Finished(after) == Finished(s)
  {
    if s.element.Some? {
      var call := Call(s.ops, s.element.value.flight);
      assert call.0[0] == s.ops[0];
    }
  }

  lemma PassTurnGoesOn(s: TaskState, i: nat)
    requires AtMostOne(s)
    ensures var after := AfterPassTurn(s, i); AtMostOne(after) && Finished(after) == Finished(s)
  {
    if i < |s.passes| {
      var p := s.passes[0];
      var step := PassStep(s.ops, p);
      assert s.passes == [p];
      assert s.passes[..0] + s.passes[1..] == [] && s.passes[0 := step.1] == [step.1];
      Reassociate(s.out, step.2, Complete(step.0, step.1).1);
      assert s.out + step.2 + [] == s.out + step.2;
    }
  }

  lemma {:induction false} ChainSnoc(ops: seq<Operator>, items: seq<StreamItem>, item: StreamItem)
    ensures var x := RunChain(ops, items);
            var y := ChainOn(x.0, item);
            RunChain(ops, items + [item]) == (y.0, x.1 + y.1)
  {
    FusionPreservesMeaning(ops, items);
    FusionPreservesMeaning(ops, items + [item]);
    StagesAppend(ops, items, [item]);
    ChainOnIsStages(RunChain(ops, items).0, item);
  }

  /** A record or watermark more into the chain. */
  lemma ChainGoesOn(ops: seq<Operator>, items: seq<StreamItem>, item: StreamItem, done: (seq<Operator>, seq<Record>))
    requires ops != [] && IsChainOver(ops, items, done)
    ensures var more := match item
                        case Data(r) => ThroughAll(done.0[1..], [r])
                        case Mark(t) => ChainWatermark(done.0[1..], t);
            IsChainOver(ops, items + [item], ([done.0[0]] + more.0, done.1 + more.1))
  {
    var run := RunChain(FreshAll(ops[1..]), items);
    ChainSnoc(FreshAll(ops[1..]), items, item);
    match item
    case Data(r) =>
      OutputGrows(run.1, ThroughAll(run.0, [r]).1, 0);
    case Mark(t) =>
      OutputGrows(run.1, ChainWatermark(run.0, t).1, t);
  }

  /** A watermark leaves the source alone. */
  lemma {:induction false} WatermarkSkipsSource(ops: seq<Operator>, t: int)
    requires IsSourceChain(ops)
    ensures var rest := ChainWatermark(ops[1..], t);
            ChainWatermark(ops, t) == ([ops[0]] + rest.0, rest.1)
  {
    assert OneByOne(ops[1..], []) == (ops[1..], []);
    assert [] + ChainWatermark(ops[1..], t).1 == ChainWatermark(ops[1..], t).1;
  }

  lemma TakeEnters(ops: seq<Operator>, items: seq<StreamItem>, s: TaskState)
    requires ops != [] && AtMostOne(s) && IsChainOver(ops, items, Finished(s))
    requires s.element.None? && s.passes == [] && s.pending != []
    ensures var after := AfterTake(s);
            AtMostOne(after) && IsChainOver(ops, items + [Data(s.pending[0])], Finished(after))
  {
    var r := s.pending[0];
    LaunchLands(s.ops, 1, r);
    ChainGoesOn(ops, items, Data(r), (s.ops, s.out));
    assert s.ops[..1] == [s.ops[0]];
  }

  lemma WatermarkEnters(ops: seq<Operator>, items: seq<StreamItem>, s: TaskState, t: int)
    requires ops != [] && AtMostOne(s) && IsChainOver(ops, items, Finished(s))
    requires s.element.None? && s.passes == []
    ensures var after := Advance(s, Watermark(t));
            AtMostOne(after) && IsChainOver(ops, items + [Mark(t)], Finished(after))
  {
    PassIsChainWatermark(s.ops, t);
    WatermarkSkipsSource(s.ops, t);
    ChainGoesOn(ops, items, Mark(t), (s.ops, s.out));
    assert [] + [Pass(t, 0, [], None)] == [Pass(t, 0, [], None)];
  }

  lemma PollIsSilent(ops: seq<Operator>, items: seq<StreamItem>, s: TaskState, m: int, clock: nat -> int)
    requires ops != [] && AtMostOne(s) && IsChainOver(ops, items, Finished(s))
    requires s.element.None? && s.passes == []
    ensures var after := AfterPoll(s, m, clock);
            AtMostOne(after) && IsChainOver(ops, items, Finished(after))
  {
  }

  lemma {:induction false} StepEnters(ops: seq<Operator>, steps: seq<Step>)
    requires ops != [] && steps != [] && InTurn(Undisturbed(ops, steps[..|steps| - 1]), steps[|steps| - 1])
    requires var n := |steps| - 1; var s := Undisturbed(ops, steps[..n]);
             AtMostOne(s) && IsChainOver(ops, Entered(ops, steps[..n]), Finished(s))
    ensures var s := Undisturbed(ops, steps);
            AtMostOne(s) && IsChainOver(ops, Entered(ops, steps), Finished(s))
  {
    var n := |steps| - 1;
    var s, items := Undisturbed(ops, steps[..n]), Entered(ops, steps[..n]);
    assert items + [] == items;
    match steps[n]
    case Poll(m, clock) => PollIsSilent(ops, items, s, m, clock);
    case Take => if s.pending != [] { TakeEnters(ops, items, s); }
    case Turn => TurnGoesOn(s);
    case Watermark(t) => WatermarkEnters(ops, items, s, t);
    case PassTurn(i) => PassTurnGoesOn(s, i);
    case _ =>
  }

  lemma NewTaskIsChain(ops: seq<Operator>)
    requires IsSourceChain(ops)
    ensures AtMostOne(NewTask(ops)) && IsChainOver(ops, [], Finished(NewTask(ops)))
  {
    assert FreshAll(ops)[1..] == FreshAll(ops[1..]);
  }

  /** While nothing overlaps, the task is its chain over what has entered it, once what is under way has
      come to its end: the outputs, and the state of every operator. */
  lemma {:induction false} TaskIsItsChain(ops: seq<Operator>, steps: seq<Step>)
    requires IsSourceChain(ops) && OneAtATime(ops, steps)
    ensures var s := Undisturbed(ops, steps);
            AtMostOne(s) && IsChainOver(ops, Entered(ops, steps), Finished(s))
    decreases |steps|
  {
    if steps == [] {
      NewTaskIsChain(ops);
    } else {
      var n := |steps| - 1;
      forall k | 0 <= k < n ensures InTurn(Undisturbed(ops, steps[..n][..k]), steps[..n][k]) {
        assert steps[..n][..k] == steps[..k];
      }
      TaskIsItsChain(ops, steps[..n]);
      StepEnters(ops, steps);
    }
  }

  // The records that entered are the elements taken from the source.

  function Underway(s: TaskState): seq<Value> {
    if s.element.Some? then [s.element.value.value] else []
  }

  lemma {:induction false} ValuesAppend(a: seq<Record>, b: seq<Record>)
    ensures Values(a + b) == Values(a) + Values(b)
  {
    if a == [] {
      assert a + b == b;
    } else {
      assert (a + b)[1..] == a[1..] + b;
      ValuesAppend(a[1..], b);
    }
  }

  lemma {:induction false} OneMoreTaken(items: seq<StreamItem>, item: StreamItem)
    ensures Values(RecordsIn(items + [item]))
            == Values(RecordsIn(items)) + (if item.Data? then [item.record.value] else [])
  {
    ProjectionsAppend(items, [item]);
    OneProjected(item);
    ValuesAppend(RecordsIn(items), RecordsIn([item]));
    if item.Data? {
      assert [item.record][1..] == [];
    }
  }

  lemma AdvanceTakes(s: TaskState, step: Step)
    ensures var after := Advance(s, step);
            after.processed + Underway(after)
            == s.processed + Underway(s)
               + (if step.Take? && s.pending != [] && s.element.None? then [s.pending[0].value] else [])
  {
    assert s.processed + [] == s.processed && s.processed + Underway(s) + [] == s.processed + Underway(s);
    if step.Turn? && s.element.Some? {
      assert s.processed + [s.element.value.value] + [] == s.processed + [s.element.value.value];
    }
    if step.Take? && s.pending != [] && s.element.None? {
      assert s.processed + [s.pending[0].value] + [] == s.processed + [s.pending[0].value];
    }
  }

  lemma {:induction false} EnteredAreTaken(ops: seq<Operator>, steps: seq<Step>)
    ensures var s := Undisturbed(ops, steps);
            Values(RecordsIn(Entered(ops, steps))) == s.processed + Underway(s)
    decreases |steps|
  {
    if steps == [] {
    } else {
      var n := |steps| - 1;
      var s, items := Undisturbed(ops, steps[..n]), Entered(ops, steps[..n]);
      EnteredAreTaken(ops, steps[..n]);
      AdvanceTakes(s, steps[n]);
      assert items + [] == items && Values(RecordsIn(items)) + [] == Values(RecordsIn(items));
      if steps[n].Take? && s.pending != [] && s.element.None? {
        OneMoreTaken(items, Data(s.pending[0]));
      } else if steps[n].Watermark? {
        OneMoreTaken(items, Mark(steps[n].timestamp));
      }
    }
  }

  /** End to end, with any number of crashes: if every snapshot restored was quiet and the surviving steps
      do not overlap, then, whenever nothing is in hand, the task has put exactly the elements read so far,
      each once and in order, through its operators as separate stages; it has emitted exactly what those
      emit, and holds their states. */
  lemma {:induction false} ExactlyOnceEndToEnd(ops: seq<Operator>, steps: seq<Step>)
    requires IsSourceChain(ops) && OnlyQuietRestores(ops, steps) && OneAtATime(ops, Surviving(steps).current)
    requires Quiet(After(ops, steps).task)
    ensures var task, items := After(ops, steps).task, Entered(ops, Surviving(steps).current);
            var stages := RunStages(FreshAll(ops[1..]), items);
            && IsSourceChain(task.ops) && task.ops[0].index <= |task.ops[0].collection|
            && Values(RecordsIn(items)) == task.ops[0].collection[..task.ops[0].index]
            && task.ops[1..] == stages.0 && task.out == RecordsIn(stages.1)
  {
    var current := Surviving(steps).current;
    var items := Entered(ops, current);
    assert steps[..|steps|] == steps;
    QuietRestoresAreInvisible(ops, steps, |steps|);
    TaskIsItsChain(ops, current);
    EnteredAreTaken(ops, current);
    FusionPreservesMeaning(FreshAll(ops[1..]), items);
    QuietIsEmptyHanded(ops, steps);
    SafeWhileRestoresAreEmptyHanded(ops, steps, |steps|);
    var task := After(ops, steps).task;
    assert InHand(task) == [] && task.processed + [] == task.processed;
  }

  lemma QuietIsEmptyHanded(ops: seq<Operator>, steps: seq<Step>)
    requires OnlyQuietRestores(ops, steps)
    ensures OnlyEmptyHandedRestores(ops, steps)
  {
    forall n | 0 <= n < |steps| ensures RestoresEmptyHanded(ops, steps, n) {
      assert RestoresQuiet(ops, steps, n);
    }
  }
}
