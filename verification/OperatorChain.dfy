/** Operator fusion (taskmanager/operators/base.py:93-213): the functions a chain computes, and
    their agreement with the operators run as separate stages. */
module ChainFunctions {
  import opened Common
  import opened Records
  import opened Operators

  // The chain, as the code runs it.

  /** One operator over a list of records, in order. */
  function Through(op: Operator, rs: seq<Record>): (Operator, seq<Record>)
    decreases |rs|
  {
    if rs == [] then (op, [])
    else
      var first := OnElement(op, rs[0]);
      var rest := Through(first.0, rs[1..]);
      (rest.0, first.1 + rest.1)
  }

  /** All operators, one after the other, each over everything the previous one emitted. */
  function ThroughAll(ops: seq<Operator>, rs: seq<Record>): (seq<Operator>, seq<Record>) {
    if ops == [] then ([], rs)
    else
      var first := Through(ops[0], rs);
      var rest := ThroughAll(ops[1..], first.1);
      ([first.0] + rest.0, rest.1)
  }

  /** Triggered records go down the rest of the chain one at a time. */
  function OneByOne(ops: seq<Operator>, rs: seq<Record>): (seq<Operator>, seq<Record>)
    decreases |rs|
  {
    if rs == [] then (ops, [])
    else
      var first := ThroughAll(ops, [rs[0]]);
      var rest := OneByOne(first.0, rs[1..]);
      (rest.0, first.1 + rest.1)
  }

  /** Each operator sees the watermark after the records its predecessors triggered. */
  function ChainWatermark(ops: seq<Operator>, t: int): (seq<Operator>, seq<Record>)
    decreases |ops|
  {
    if ops == [] then ([], [])
    else
      var first := OnWatermark(ops[0], t);
      var fed := OneByOne(ops[1..], first.1);
      OneByOneLength(ops[1..], first.1);
      var rest := ChainWatermark(fed.0, t);
      ([first.0] + rest.0, fed.1 + rest.1)
  }

  lemma {:induction false} ThroughAllLength(ops: seq<Operator>, rs: seq<Record>)
    ensures |ThroughAll(ops, rs).0| == |ops|
  {
    if ops == [] {
    } else {
      ThroughAllLength(ops[1..], Through(ops[0], rs).1);
    }
  }

  lemma {:induction false} NothingGoesThrough(ops: seq<Operator>)
    ensures ThroughAll(ops, []) == (ops, [])
  {
    if ops == [] {
    } else {
      NothingGoesThrough(ops[1..]);
      assert [ops[0]] + ops[1..] == ops;
    }
  }

  lemma {:induction false} OneByOneLength(ops: seq<Operator>, rs: seq<Record>)
    ensures |OneByOne(ops, rs).0| == |ops|
    decreases |rs|
  {
    if rs == [] {
    } else {
      ThroughAllLength(ops, [rs[0]]);
      OneByOneLength(ThroughAll(ops, [rs[0]]).0, rs[1..]);
    }
  }

  function Datas(rs: seq<Record>): seq<StreamItem> {
    if rs == [] then [] else [Data(rs[0])] + Datas(rs[1..])
  }

  function ChainOn(ops: seq<Operator>, item: StreamItem): (seq<Operator>, seq<StreamItem>) {
    match item
    case Data(r) => var out := ThroughAll(ops, [r]); (out.0, Datas(out.1))
    case Mark(t) => var out := ChainWatermark(ops, t); (out.0, Datas(out.1) + [Mark(t)])
  }

  /** The fused task over a stream of records and watermarks. */
  function RunChain(ops: seq<Operator>, items: seq<StreamItem>): (seq<Operator>, seq<StreamItem>)
    decreases |items|
  {
    if items == [] then (ops, [])
    else
      var first := ChainOn(ops, items[0]);
      var rest := RunChain(first.0, items[1..]);
      (rest.0, first.1 + rest.1)
  }

  // The operators as separate stages, joined by streams.

  /** What one stage sends on for one item: a watermark follows the records it triggers. */
  function StageOn(op: Operator, item: StreamItem): (Operator, seq<StreamItem>) {
    match item
    case Data(r) => var out := OnElement(op, r); (out.0, Datas(out.1))
    case Mark(t) => var out := OnWatermark(op, t); (out.0, Datas(out.1) + [Mark(t)])
  }

  function RunStage(op: Operator, items: seq<StreamItem>): (Operator, seq<StreamItem>)
    decreases |items|
  {
    if items == [] then (op, [])
    else
      var first := StageOn(op, items[0]);
      var rest := RunStage(first.0, items[1..]);
      (rest.0, first.1 + rest.1)
  }

  /** Each stage consumes the whole output stream of the one before. */
  function RunStages(ops: seq<Operator>, items: seq<StreamItem>): (seq<Operator>, seq<StreamItem>) {
    if ops == [] then ([], items)
    else
      var first := RunStage(ops[0], items);
      var rest := RunStages(ops[1..], first.1);
      ([first.0] + rest.0, rest.1)
  }

  // The two agree.

  lemma {:induction false} DatasAppend(a: seq<Record>, b: seq<Record>)
    ensures Datas(a + b) == Datas(a) + Datas(b)
  {
    if a == [] {
      assert a + b == b;
    } else {
      assert (a + b)[1..] == a[1..] + b;
      DatasAppend(a[1..], b);
    }
  }

  lemma {:induction false} StageAppend(op: Operator, a: seq<StreamItem>, b: seq<StreamItem>)
    ensures var x := RunStage(op, a);
            var y := RunStage(x.0, b);
            RunStage(op, a + b) == (y.0, x.1 + y.1)
    decreases |a|
  {
    if a == [] {
      assert a + b == b;
      assert [] + RunStage(op, b).1 == RunStage(op, b).1;
    } else {
      assert (a + b)[1..] == a[1..] + b;
      var first := StageOn(op, a[0]);
      StageAppend(first.0, a[1..], b);
      var x := RunStage(first.0, a[1..]);
      Reassociate(first.1, x.1, RunStage(x.0, b).1);
    }
  }

  /** Stages may be run over a stream in pieces. */
  lemma {:induction false} StagesAppend(ops: seq<Operator>, a: seq<StreamItem>, b: seq<StreamItem>)
    ensures var x := RunStages(ops, a);
            var y := RunStages(x.0, b);
            RunStages(ops, a + b) == (y.0, x.1 + y.1)
    decreases |ops|
  {
    if ops == [] {
    } else {
      var x := RunStage(ops[0], a);
      var y := RunStage(x.0, b);
      StageAppend(ops[0], a, b);
      StagesAppend(ops[1..], x.1, y.1);
      var rest := RunStages(ops[1..], x.1).0;
      assert ([x.0] + rest)[0] == x.0 && ([x.0] + rest)[1..] == rest;
    }
  }

  lemma {:induction false} StageOnRecords(op: Operator, rs: seq<Record>)
    ensures RunStage(op, Datas(rs)) == (Through(op, rs).0, Datas(Through(op, rs).1))
    decreases |rs|
  {
    if rs == [] {
    } else {
      var first := OnElement(op, rs[0]);
      StageOnRecords(first.0, rs[1..]);
      assert Datas(rs)[0] == Data(rs[0]) && Datas(rs)[1..] == Datas(rs[1..]);
      DatasAppend(first.1, Through(first.0, rs[1..]).1);
    }
  }

  lemma {:induction false} StagesOnRecords(ops: seq<Operator>, rs: seq<Record>)
    ensures RunStages(ops, Datas(rs)) == (ThroughAll(ops, rs).0, Datas(ThroughAll(ops, rs).1))
    decreases |ops|
  {
    if ops == [] {
    } else {
      StageOnRecords(ops[0], rs);
      StagesOnRecords(ops[1..], Through(ops[0], rs).1);
    }
  }

  /** Depth-first, one record at a time, is the same as stage by stage. */
  lemma {:induction false} StagesOneByOne(ops: seq<Operator>, rs: seq<Record>)
    ensures RunStages(ops, Datas(rs)) == (OneByOne(ops, rs).0, Datas(OneByOne(ops, rs).1))
    decreases |rs|
  {
    if rs == [] {
      StagesOnNothing(ops);
    } else {
      var first := ThroughAll(ops, [rs[0]]);
      StagesOnRecords(ops, [rs[0]]);
      StagesOneByOne(first.0, rs[1..]);
      assert Datas([rs[0]]) == [Data(rs[0])];
      StagesAppend(ops, Datas([rs[0]]), Datas(rs[1..]));
      DatasAppend(first.1, OneByOne(first.0, rs[1..]).1);
    }
  }

  lemma {:induction false} StagesOnNothing(ops: seq<Operator>)
    ensures RunStages(ops, []) == (ops, [])
    decreases |ops|
  {
    if ops == [] {
    } else {
      StagesOnNothing(ops[1..]);
      assert [ops[0]] + ops[1..] == ops;
    }
  }

  lemma {:induction false} StagesOnWatermark(ops: seq<Operator>, t: int)
    ensures RunStages(ops, [Mark(t)]) == (ChainWatermark(ops, t).0, Datas(ChainWatermark(ops, t).1) + [Mark(t)])
    decreases |ops|
  {
    if ops == [] {
      assert [] + [Mark(t)] == [Mark(t)];
    } else {
      var first := OnWatermark(ops[0], t);
      var fed := OneByOne(ops[1..], first.1);
      OneByOneLength(ops[1..], first.1);
      StageOnMark(ops[0], t);
      StagesOneByOne(ops[1..], first.1);
      StagesOnWatermark(fed.0, t);
      StagesAppend(ops[1..], Datas(first.1), [Mark(t)]);
      var after := ChainWatermark(fed.0, t);
      DatasAppend(fed.1, after.1);
      Reassociate(Datas(fed.1), Datas(after.1), [Mark(t)]);
    }
  }

  lemma {:induction false} StageOnMark(op: Operator, t: int)
    ensures RunStage(op, [Mark(t)]) == StageOn(op, Mark(t))
  {
    assert [Mark(t)][1..] == [];
    assert StageOn(op, Mark(t)).1 + [] == StageOn(op, Mark(t)).1;
  }

  /** Fusion preserves meaning: on any stream the chain emits the same stream as its operators run
      as separate stages, and leaves every operator in the same state. */
  lemma {:induction false} FusionPreservesMeaning(ops: seq<Operator>, items: seq<StreamItem>)
    ensures RunChain(ops, items) == RunStages(ops, items)
    decreases |items|
  {
    if items == [] {
      StagesOnNothing(ops);
    } else {
      ChainOnIsStages(ops, items[0]);
      FusionPreservesMeaning(ChainOn(ops, items[0]).0, items[1..]);
      StagesAppend(ops, [items[0]], items[1..]);
      assert items == [items[0]] + items[1..];
    }
  }

  lemma {:induction false} ChainOnIsStages(ops: seq<Operator>, item: StreamItem)
    ensures ChainOn(ops, item) == RunStages(ops, [item])
  {
    match item
    case Data(r) =>
      StagesOnRecords(ops, [r]);
      assert Datas([r]) == [Data(r)];
    case Mark(t) =>
      StagesOnWatermark(ops, t);
  }

  // Snapshots of a chain hold those of its stateful members, by position.

  function ChainSnapshot(ops: seq<Operator>): map<nat, Snapshot> {
    map i: nat | i < |ops| && SnapshotOf(ops[i]).Some? :: SnapshotOf(ops[i]).value
  }

  function ChainRestored(ops: seq<Operator>, states: map<nat, Snapshot>): seq<Operator> {
    seq(|ops|, i requires 0 <= i < |ops| => if i in states then Restored(ops[i], states[i]) else ops[i])
  }

  ghost predicate SameConfiguration(ops: seq<Operator>, others: seq<Operator>) {
    |ops| == |others| && forall i :: 0 <= i < |ops| ==> Fresh(ops[i]) == Fresh(others[i])
  }

  /** A chain of newly built operators, restored, is the chain that was snapshotted. */
  lemma ChainRestoreUndoesSnapshot(ops: seq<Operator>, others: seq<Operator>)
    requires SameConfiguration(ops, others)
    ensures ChainRestored(others, ChainSnapshot(ops)) == ops
  {
    forall i | 0 <= i < |ops| ensures ChainRestored(others, ChainSnapshot(ops))[i] == ops[i] {
      RestoreUndoesSnapshot(ops[i], others[i]);
    }
  }
}

/** The chain as an object that drives its member operators. */
module OperatorChains {
  import opened Common
  import opened Records
  import opened Operators
  import opened ChainFunctions

  class OperatorChain {
    const operators: seq<StreamOperator>

    /** The list is not empty and holds no operator object twice. */
    ghost predicate Valid() {
      operators != [] && Distinct(operators)
    }

    ghost function Ops(): (ops: seq<Operator>)
      reads operators
      ensures |ops| == |operators| && forall i :: 0 <= i < |ops| ==> ops[i] == operators[i].op
    {
      seq(|operators|, i requires 0 <= i < |operators| reads operators => operators[i].op)
    }

    constructor (operators: seq<StreamOperator>)
      requires operators != [] && Distinct(operators)
      ensures Valid() && this.operators == operators
    {
      this.operators := operators;
    }

    /** The inner loop: operator i over a list of records. */
    method RunOne(i: nat, records: seq<Record>) returns (next: seq<Record>)
      requires i < |operators|
      modifies operators[i]
      ensures (operators[i].op, next) == Through(old(operators[i].op), records)
    {
      next := [];
      assert records[0..] == records;
      assert [] + Through(operators[i].op, records).1 == Through(operators[i].op, records).1;
      for j := 0 to |records|
        invariant var rest := Through(operators[i].op, records[j..]);
                  (rest.0, next + rest.1) == Through(old(operators[i].op), records)
      {
        ghost var before := operators[i].op;
        assert records[j..][0] == records[j] && records[j..][1..] == records[j + 1..];
        var emitted := operators[i].ProcessElement(records[j]);
        Reassociate(next, emitted, Through(operators[i].op, records[j + 1..]).1);
        next := next + emitted;
      }
      assert records[|records|..] == [];
      assert next + [] == next;
    }

    /** Where records lead that are about to enter operator k. */
    ghost function Underway(k: nat, records: seq<Record>): (seq<Operator>, seq<Record>)
      requires k <= |operators|
      reads operators
    {
      var rest := ThroughAll(Ops()[k..], records);
      (Ops()[..k] + rest.0, rest.1)
    }

    /** Records through the operators from position i on. */
    method RunFrom(i: nat, records: seq<Record>) returns (out: seq<Record>)
      requires Valid() && i <= |operators|
      modifies operators
      ensures (Ops(), out) == old(Underway(i, records))
    {
      out := records;
      for k := i to |operators|
        invariant Underway(k, out) == old(Underway(i, records))
      {
        out := Advance(k, out);
      }
      Arrived(out);
    }

    lemma Arrived(out: seq<Record>)
      ensures Underway(|operators|, out) == (Ops(), out)
    {
      assert Ops()[|operators|..] == [];
      assert Ops()[..|operators|] + [] == Ops();
    }

    /** One operator of the chain takes its turn; the others are untouched. */
    method Advance(k: nat, records: seq<Record>) returns (next: seq<Record>)
      requires Valid() && k < |operators|
      modifies operators
      ensures Underway(k + 1, next) == old(Underway(k, records))
    {
      ghost var before := Ops();
      next := RunOne(k, records);
      assert Ops() == before[k := operators[k].op];
      TurnOf(before, k, records);
    }

    /** process_element, which leaves the loop early when no record remains. */
    method ProcessElement(r: Record) returns (out: seq<Record>)
      requires Valid()
      modifies operators
      ensures (Ops(), out) == ThroughAll(old(Ops()), [r])
    {
      out := [r];
      ghost var goal := ThroughAll(Ops(), [r]);
      assert Ops()[0..] == Ops() && Ops()[..0] + goal.0 == goal.0;
      for k := 0 to |operators|
        invariant Underway(k, out) == goal
      {
        out := Advance(k, out);
        if out == [] {
          NothingGoesThrough(Ops()[k + 1..]);
          assert Ops()[..k + 1] + Ops()[k + 1..] == Ops();
          return;
        }
      }
      Arrived(out);
    }

    /** list.index: the first position of the operator object. */
    method IndexOf(operator: StreamOperator) returns (idx: nat)
      requires operator in operators
      ensures idx < |operators| && operators[idx] == operator && operator !in operators[..idx]
    {
      idx := 0;
      while operators[idx] != operator
        invariant idx < |operators| && operator !in operators[..idx]
        decreases |operators| - idx
      {
        assert operator in operators[..idx + 1] || operator in operators[idx + 1..];
        assert operators[..idx + 1] == operators[..idx] + [operators[idx]];
        idx := idx + 1;
      }
    }

    /** What the operators from position i on make of records sent one at a time, given what is out already. */
    ghost predicate Feeding(i: nat, records: seq<Record>, out: seq<Record>, goal: (seq<Operator>, seq<Record>))
      requires i <= |operators|
      reads operators
    {
      var rest := OneByOne(Ops()[i..], records);
      rest.0 == goal.0 && out + rest.1 == goal.1
    }

    /** The body of both loops that send single records down the chain. */
    method FeedOne(i: nat, r: Record, out: seq<Record>, ghost later: seq<Record>,
                   ghost goal: (seq<Operator>, seq<Record>))
      returns (more: seq<Record>)
      requires Valid() && i <= |operators| && Feeding(i, [r] + later, out, goal)
      modifies operators
      ensures Ops()[..i] == old(Ops()[..i]) && Feeding(i, later, more, goal)
    {
      ghost var rest := Ops()[i..];
      ThroughAllLength(rest, [r]);
      assert ([r] + later)[0] == r && ([r] + later)[1..] == later;
      var emitted := RunFrom(i, [r]);
      assert Ops()[i..] == ThroughAll(rest, [r]).0;
      Reassociate(out, emitted, OneByOne(Ops()[i..], later).1);
      more := out + emitted;
    }

    lemma {:induction false} StartFeeding(i: nat, records: seq<Record>)
      requires i <= |operators|
      ensures Feeding(i, records, [], OneByOne(Ops()[i..], records))
    {
      assert [] + OneByOne(Ops()[i..], records).1 == OneByOne(Ops()[i..], records).1;
    }

    lemma FinishFeeding(i: nat, out: seq<Record>, goal: (seq<Operator>, seq<Record>))
      requires i <= |operators| && Feeding(i, [], out, goal)
      ensures Ops() == Ops()[..i] + goal.0 && out == goal.1
    {
      assert Ops() == Ops()[..i] + Ops()[i..] && out + [] == out;
    }

    /** The loop over the records operator k has triggered. */
    method SendTriggered(k: nat, triggered: seq<Record>) returns (out: seq<Record>)
      requires Valid() && k < |operators|
      modifies operators
      ensures var fed := OneByOne(old(Ops()[k + 1..]), triggered);
              Ops() == old(Ops()[..k + 1]) + fed.0 && out == fed.1
    {
      ghost var goal := OneByOne(Ops()[k + 1..], triggered);
      StartFeeding(k + 1, triggered);
      out := [];
      assert triggered[0..] == triggered;
      for j := 0 to |triggered|
        invariant Ops()[..k + 1] == old(Ops()[..k + 1])
        invariant Feeding(k + 1, triggered[j..], out, goal)
      {
        var idx := IndexOf(operators[k]);
        assert idx == k;
        assert triggered[j..] == [triggered[j]] + triggered[j + 1..];
        out := FeedOne(idx + 1, triggered[j], out, triggered[j + 1..], goal);
      }
      assert triggered[|triggered|..] == [];
      FinishFeeding(k + 1, out, goal);
    }

    /** One operator's watermark, and its triggered records down the rest of the chain. */
    method TriggerAt(k: nat, t: int) returns (out: seq<Record>)
      requires Valid() && k < |operators|
      modifies operators
      ensures var first := OnWatermark(old(Ops())[k], t);
              var fed := OneByOne(old(Ops())[k + 1..], first.1);
              Ops() == old(Ops())[..k] + [first.0] + fed.0 && out == fed.1
    {
      ghost var before := Ops();
      var triggered := operators[k].ProcessWatermark(t);
      assert Ops()[..k + 1] == before[..k] + [OnWatermark(before[k], t).0];
      assert Ops()[k + 1..] == before[k + 1..];
      out := SendTriggered(k, triggered);
    }

    /** Where the watermark leads once the first k operators have had it and `out` is emitted. */
    ghost function Remaining(k: nat, t: int, out: seq<Record>): (seq<Operator>, seq<Record>)
      requires k <= |operators|
      reads operators
    {
      var rest := ChainWatermark(Ops()[k..], t);
      (Ops()[..k] + rest.0, out + rest.1)
    }

    /** One round of the outer loop of process_watermark. */
    method TakeTurn(k: nat, t: int, out: seq<Record>) returns (more: seq<Record>)
      requires Valid() && k < |operators|
      modifies operators
      ensures Remaining(k + 1, t, more) == old(Remaining(k, t, out))
    {
      ghost var before := Ops();
      var emitted := TriggerAt(k, t);
      WatermarkTurn(before, Ops(), k, t);
      more := out + emitted;
      Reassociate(out, emitted, ChainWatermark(Ops()[k + 1..], t).1);
    }

    lemma {:induction false} NobodyHadIt(t: int)
      ensures Remaining(0, t, []) == ChainWatermark(Ops(), t)
    {
      var goal := ChainWatermark(Ops(), t);
      assert Ops()[0..] == Ops() && Ops()[..0] == [];
      assert [] + goal.0 == goal.0 && [] + goal.1 == goal.1;
    }

    lemma EverybodyHadIt(t: int, out: seq<Record>)
      ensures Remaining(|operators|, t, out) == (Ops(), out)
    {
      assert Ops()[|operators|..] == [];
      assert Ops()[..|operators|] + [] == Ops() && out + [] == out;
    }

    method ProcessWatermark(t: int) returns (out: seq<Record>)
      requires Valid()
      modifies operators
      ensures (Ops(), out) == ChainWatermark(old(Ops()), t)
    {
      out := [];
      NobodyHadIt(t);
      for k := 0 to |operators|
        invariant Remaining(k, t, out) == old(Remaining(0, t, []))
      {
        out := TakeTurn(k, t, out);
      }
      EverybodyHadIt(t, out);
    }

    /** One round of Task.run for a chain that starts with a source: read a batch, and send each of
        its records through operators[1:]. */
    method RunSourceBatch(maxRecords: int, clock: nat -> int) returns (out: seq<Record>)
      requires Valid() && operators[0].op.SourceOp?
      modifies operators
      ensures var read := AfterRead(old(Ops())[0], maxRecords, clock);
              var fed := OneByOne(old(Ops())[1..], Payload(read.1));
              Ops() == [read.0] + fed.0 && out == fed.1
    {
      ghost var before := Ops();
      var records := operators[0].ReadRecords(maxRecords, clock);
      ghost var goal := OneByOne(before[1..], Payload(records));
      ghost var head := Ops()[..1];
      assert Ops()[1..] == before[1..];
      StartFeeding(1, Payload(records));
      out := [];
      assert records[0..] == records;
      for j := 0 to |records|
        invariant Ops()[..1] == head
        invariant Feeding(1, Payload(records[j..]), out, goal)
      {
        var record := records[j].record;
        assert records[j..][1..] == records[j + 1..];
        out := FeedOne(1, record, out, Payload(records[j + 1..]), goal);
      }
      assert records[|records|..] == [];
      FinishFeeding(1, out, goal);
    }

    method SnapshotState() returns (states: map<nat, Snapshot>)
      requires Valid()
      ensures states == ChainSnapshot(Ops())
    {
      states := map[];
      for i := 0 to |operators|
        invariant states == ChainSnapshot(Ops()[..i])
      {
        var state := operators[i].SnapshotState();
        assert Ops()[..i + 1] == Ops()[..i] + [Ops()[i]];
        if state.Some? {
          states := states[i := state.value];
        }
      }
      assert Ops()[..|operators|] == Ops();
    }

    method RestoreState(states: map<nat, Snapshot>)
      requires Valid()
      modifies operators
      ensures Ops() == ChainRestored(old(Ops()), states)
    {
      var todo := states.Keys;
      while todo != {}
        invariant todo <= states.Keys
        invariant forall i :: 0 <= i < |operators| ==>
                    operators[i].op == if i in states && i !in todo then Restored(old(Ops())[i], states[i])
                      else old(Ops())[i]
        decreases todo
      {
        var i := PickOne(todo);
        if i < |operators| {
          operators[i].RestoreState(states[i]);
        }
        todo := todo - {i};
      }
    }
  }

  lemma {:induction false} WatermarkTurn(before: seq<Operator>, after: seq<Operator>, k: nat, t: int)
    requires k < |before|
    requires var first := OnWatermark(before[k], t);
             after == before[..k] + [first.0] + OneByOne(before[k + 1..], first.1).0
    ensures |after| == |before|
    ensures after[..k + 1] + ChainWatermark(after[k + 1..], t).0 == before[..k] + ChainWatermark(before[k..], t).0
    ensures ChainWatermark(before[k..], t).1
            == OneByOne(before[k + 1..], OnWatermark(before[k], t).1).1 + ChainWatermark(after[k + 1..], t).1
  {
    var first := OnWatermark(before[k], t);
    OneByOneLength(before[k + 1..], first.1);
    assert before[k..][1..] == before[k + 1..];
    assert after[k + 1..] == OneByOne(before[k + 1..], first.1).0;
    assert after[..k + 1] == before[..k] + [first.0];
    var rest := ChainWatermark(after[k + 1..], t).0;
    Reassociate(before[..k], [first.0], rest);
  }

  lemma {:induction false} TurnOf(ops: seq<Operator>, k: nat, records: seq<Record>)
    requires k < |ops|
    ensures var turn := Through(ops[k], records);
            var after := ops[k := turn.0];
            && |ThroughAll(after[k + 1..], turn.1).0| == |ops| - (k + 1)
            && after[..k + 1] + ThroughAll(after[k + 1..], turn.1).0 == ops[..k] + ThroughAll(ops[k..], records).0
            && ThroughAll(after[k + 1..], turn.1).1 == ThroughAll(ops[k..], records).1
  {
    var turn := Through(ops[k], records);
    var after := ops[k := turn.0];
    assert after[k + 1..] == ops[k + 1..] == ops[k..][1..];
    assert after[..k + 1] == ops[..k] + [turn.0];
    ThroughAllLength(after[k + 1..], turn.1);
  }
}
