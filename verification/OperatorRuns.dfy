/** What each operator of a task does to a stream of records and watermarks
    (taskmanager/operators/stateless.py, stateful.py), alone and as a member of a chain. */
module OperatorRuns {
  import opened Common
  import opened Records
  import opened Operators
  import opened ChainFunctions
  import W = WindowOperators
  import A = AggregateOperators
  import J = JoinOperators
  import EventTime
  import JoinRuns
  import Pipelines
  import JoinPipelines
  import Watermarks

  /** A stage takes its items one after the other. */
  lemma {:induction false} StageSnoc(op: Operator, items: seq<StreamItem>)
    requires items != []
    ensures var n := |items| - 1;
            var x := RunStage(op, items[..n]);
            var y := StageOn(x.0, items[n]);
            RunStage(op, items) == (y.0, x.1 + y.1)
  {
    var n := |items| - 1;
    var x := RunStage(op, items[..n]);
    StageAppend(op, items[..n], [items[n]]);
    assert items[..n] + [items[n]] == items;
    StageOnOne(x.0, items[n]);
  }

  lemma {:induction false} StageOnOne(op: Operator, item: StreamItem)
    ensures RunStage(op, [item]) == StageOn(op, item)
  {
    assert [item][1..] == [];
    assert StageOn(op, item).1 + [] == StageOn(op, item).1;
  }

  lemma OneItem(r: Record, t: int)
    ensures Datas([r]) == [Data(r)] && Datas([]) + [Mark(t)] == [Mark(t)]
  {
    assert [r][1..] == [];
  }

  // The stateless operators. Watermarks pass through unchanged, in their place.

  ghost predicate IsMapped(f: Value -> Value, item: StreamItem, out: StreamItem) {
    match item
    case Mark(_) => out == item
    case Data(r) => out == Data(Record(f(r.value), r.key, r.timestamp))
  }

  lemma MapItem(f: Value -> Value, item: StreamItem)
    ensures var (after, out) := StageOn(MapOp(f), item);
            after == MapOp(f) && |out| == 1 && IsMapped(f, item, out[0])
  {
    match item
    case Mark(t) => OneItem(Record(Nothing, NoKey, 0), t);
    case Data(r) => OneItem(Record(f(r.value), r.key, r.timestamp), 0);
  }

  /** Map: one record for each, with the function's value; key and timestamp stay. */
  lemma {:induction false} MapRun(f: Value -> Value, items: seq<StreamItem>)
    ensures var (after, out) := RunStage(MapOp(f), items);
            && after == MapOp(f) && |out| == |items|
            && forall i :: 0 <= i < |items| ==> IsMapped(f, items[i], out[i])
    decreases |items|
  {
    if items == [] {
    } else {
      MapRun(f, items[..|items| - 1]);
      StageSnoc(MapOp(f), items);
      MapItem(f, items[|items| - 1]);
    }
  }

  ghost predicate IsKeyed(select: Value -> Key, item: StreamItem, out: StreamItem) {
    match item
    case Mark(_) => out == item
    case Data(r) => out == Data(Record(r.value, select(r.value), r.timestamp))
  }

  lemma KeyByItem(select: Value -> Key, item: StreamItem)
    ensures var (after, out) := StageOn(KeyByOp(select), item);
            after == KeyByOp(select) && |out| == 1 && IsKeyed(select, item, out[0])
  {
    match item
    case Mark(t) => OneItem(Record(Nothing, NoKey, 0), t);
    case Data(r) => OneItem(Record(r.value, select(r.value), r.timestamp), 0);
  }

  /** Key-by: only the key changes, to the one selected by the value. */
  lemma {:induction false} KeyByRun(select: Value -> Key, items: seq<StreamItem>)
    ensures var (after, out) := RunStage(KeyByOp(select), items);
            && after == KeyByOp(select) && |out| == |items|
            && forall i :: 0 <= i < |items| ==> IsKeyed(select, items[i], out[i])
    decreases |items|
  {
    if items == [] {
    } else {
      KeyByRun(select, items[..|items| - 1]);
      StageSnoc(KeyByOp(select), items);
      KeyByItem(select, items[|items| - 1]);
    }
  }

  ghost predicate Passes(p: Value -> bool, item: StreamItem) {
    item.Mark? || p(item.record.value)
  }

  ghost predicate Increasing(at: seq<nat>) {
    forall j, k :: 0 <= j < k < |at| ==> at[j] < at[k]
  }

  /** The items at the given positions, in order. */
  ghost predicate IsSelection(items: seq<StreamItem>, at: seq<nat>, out: seq<StreamItem>) {
    |out| == |at| && forall k :: 0 <= k < |at| ==> at[k] < |items| && out[k] == items[at[k]]
  }

  lemma SelectMore(items: seq<StreamItem>, at: seq<nat>, out: seq<StreamItem>)
    requires items != [] && IsSelection(items[..|items| - 1], at, out) && Increasing(at)
    ensures var n := |items| - 1;
            && IsSelection(items, at, out) && IsSelection(items, at + [n], out + [items[n]])
            && Increasing(at + [n]) && n !in at
  {
  }

  lemma FilterItem(p: Value -> bool, item: StreamItem)
    ensures StageOn(FilterOp(p), item) == (FilterOp(p), if Passes(p, item) then [item] else [])
  {
    match item
    case Mark(t) => OneItem(Record(Nothing, NoKey, 0), t);
    case Data(r) => OneItem(r, 0);
  }

  /** Filter: exactly the records whose value satisfies the predicate stay, unchanged and in order. */
  lemma {:induction false} FilterRun(p: Value -> bool, items: seq<StreamItem>) returns (at: seq<nat>)
    ensures var (after, out) := RunStage(FilterOp(p), items);
            && after == FilterOp(p) && IsSelection(items, at, out) && Increasing(at)
            && forall i: nat :: i in at <==> i < |items| && Passes(p, items[i])
    decreases |items|
  {
    at := [];
    if items == [] {
    } else {
      var n := |items| - 1;
      at := FilterRun(p, items[..n]);
      var out := RunStage(FilterOp(p), items[..n]).1;
      StageSnoc(FilterOp(p), items);
      SelectMore(items, at, out);
      FilterItem(p, items[n]);
      assert out + [] == out;
      if Passes(p, items[n]) {
        at := at + [n];
      }
    }
  }

  ghost predicate IsFlatMapped(g: Value -> seq<Value>, item: StreamItem, out: seq<StreamItem>) {
    match item
    case Mark(_) => out == [item]
    case Data(r) =>
      && |out| == |g(r.value)|
      && forall k :: 0 <= k < |out| ==> out[k] == Data(Record(g(r.value)[k], r.key, r.timestamp))
  }

  lemma {:induction false} DatasAt(rs: seq<Record>)
    ensures |Datas(rs)| == |rs| && forall k :: 0 <= k < |rs| ==> Datas(rs)[k] == Data(rs[k])
  {
    if rs == [] {
    } else {
      DatasAt(rs[1..]);
    }
  }

  lemma FlatMapItem(g: Value -> seq<Value>, item: StreamItem)
    ensures var (after, out) := StageOn(FlatMapOp(g), item);
            after == FlatMapOp(g) && IsFlatMapped(g, item, out)
  {
    if item.Data? {
      var r := item.record;
      var rs := OnElement(FlatMapOp(g), r).1;
      DatasAt(rs);
      assert rs == WithValues(r, g(r.value));
      WithValuesAt(r, g(r.value));
    }
  }

  lemma {:induction false} WithValuesAt(r: Record, vs: seq<Value>)
    ensures var rs := WithValues(r, vs);
            |rs| == |vs| && forall k :: 0 <= k < |vs| ==> rs[k] == Record(vs[k], r.key, r.timestamp)
  {
    if vs == [] {
    } else {
      WithValuesAt(r, vs[1..]);
    }
  }

  /** Flat-map: the results of each record in place of it, in order. */
  lemma {:induction false} FlatMapRun(g: Value -> seq<Value>, items: seq<StreamItem>)
    returns (parts: seq<seq<StreamItem>>)
    ensures var (after, out) := RunStage(FlatMapOp(g), items);
            && after == FlatMapOp(g) && out == Concat(parts) && |parts| == |items|
            && forall i :: 0 <= i < |items| ==> IsFlatMapped(g, items[i], parts[i])
    decreases |items|
  {
    parts := [];
    if items == [] {
    } else {
      var n := |items| - 1;
      var before := FlatMapRun(g, items[..n]);
      StageSnoc(FlatMapOp(g), items);
      FlatMapItem(g, items[n]);
      parts := before + [StageOn(FlatMapOp(g), items[n]).1];
      assert parts[..n] == before;
    }
  }

  // The stateful operators.

  function RecordsIn(items: seq<StreamItem>): seq<Record> {
    if items == [] then []
    else
      var n := |items| - 1;
      RecordsIn(items[..n]) + (if items[n].Data? then [items[n].record] else [])
  }

  function MarksIn(items: seq<StreamItem>): seq<int> {
    if items == [] then []
    else
      var n := |items| - 1;
      MarksIn(items[..n]) + (if items[n].Mark? then [items[n].timestamp] else [])
  }

  lemma {:induction false} ProjectionsAppend(a: seq<StreamItem>, b: seq<StreamItem>)
    ensures RecordsIn(a + b) == RecordsIn(a) + RecordsIn(b)
    ensures MarksIn(a + b) == MarksIn(a) + MarksIn(b)
    decreases |b|
  {
    if b == [] {
      assert a + b == a;
    } else {
      var n := |b| - 1;
      ProjectionsAppend(a, b[..n]);
      assert (a + b)[..|a| + n] == a + b[..n];
      Reassociate(RecordsIn(a), RecordsIn(b[..n]), if b[n].Data? then [b[n].record] else []);
      Reassociate(MarksIn(a), MarksIn(b[..n]), if b[n].Mark? then [b[n].timestamp] else []);
    }
  }

  lemma {:induction false} ProjectionsOfDatas(rs: seq<Record>)
    ensures RecordsIn(Datas(rs)) == rs && MarksIn(Datas(rs)) == []
  {
    if rs == [] {
    } else {
      ProjectionsOfDatas(rs[1..]);
      ProjectionsAppend([Data(rs[0])], Datas(rs[1..]));
      assert [rs[0]] + rs[1..] == rs;
      OneProjected(Data(rs[0]));
    }
  }

  lemma OneProjected(item: StreamItem)
    ensures RecordsIn([item]) == if item.Data? then [item.record] else []
    ensures MarksIn([item]) == if item.Mark? then [item.timestamp] else []
  {
    assert [item][..0] == [];
    assert RecordsIn([]) == [] && MarksIn([]) == [];
  }

  /** What a stage adds to the records and to the watermarks of its output. */
  lemma {:induction false} OutputGrows(out: seq<StreamItem>, rs: seq<Record>, t: int)
    ensures RecordsIn(out + Datas(rs)) == RecordsIn(out) + rs && MarksIn(out + Datas(rs)) == MarksIn(out)
    ensures var marked := out + (Datas(rs) + [Mark(t)]);
            && RecordsIn(marked) == RecordsIn(out) + rs && MarksIn(marked) == MarksIn(out) + [t]
            && marked[|marked| - 1] == Mark(t)
  {
    ProjectionsOfDatas(rs);
    ProjectionsAppend(out, Datas(rs));
    assert MarksIn(out) + [] == MarksIn(out);
    Reassociate(out, Datas(rs), [Mark(t)]);
    ProjectionsAppend(out + Datas(rs), [Mark(t)]);
    OneProjected(Mark(t));
    assert (RecordsIn(out) + rs) + [] == RecordsIn(out) + rs;
  }

  /** Watermarks are forwarded, each behind the records it triggers. */
  ghost predicate ForwardsMarks(items: seq<StreamItem>, out: seq<StreamItem>) {
    && MarksIn(out) == MarksIn(items)
    && (items != [] && items[|items| - 1].Mark? ==> out != [] && out[|out| - 1] == items[|items| - 1])
  }

  lemma {:induction false} StageOutputGrows(op: Operator, items: seq<StreamItem>)
    requires items != []
    requires MarksIn(RunStage(op, items[..|items| - 1]).1) == MarksIn(items[..|items| - 1])
    ensures var n := |items| - 1;
            var x := RunStage(op, items[..n]);
            var rs := match items[n] case Data(r) => OnElement(x.0, r).1 case Mark(t) => OnWatermark(x.0, t).1;
            var out := RunStage(op, items).1;
            RecordsIn(out) == RecordsIn(x.1) + rs && ForwardsMarks(items, out)
  {
    var n := |items| - 1;
    var x := RunStage(op, items[..n]);
    StageSnoc(op, items);
    match items[n]
    case Data(r) =>
      OutputGrows(x.1, OnElement(x.0, r).1, 0);
      assert MarksIn(items[..n]) + [] == MarksIn(items[..n]);
    case Mark(t) =>
      OutputGrows(x.1, OnWatermark(x.0, t).1, t);
  }

  /** Windows: over any stream the operator has the state, and emits the records, of its run. */
  lemma {:induction false} WindowRun(cfg: W.WindowConfig, items: seq<StreamItem>)
    ensures var (after, out) := RunStage(WindowOp(cfg, W.NO_WINDOWS), items);
            && after == WindowOp(cfg, EventTime.StateAfter(cfg, items))
            && RecordsIn(out) == EventTime.OutputOf(cfg, items)
            && ForwardsMarks(items, out)
    decreases |items|
  {
    var op := WindowOp(cfg, W.NO_WINDOWS);
    if items == [] {
    } else {
      var n := |items| - 1;
      WindowRun(cfg, items[..n]);
      StageSnoc(op, items);
      StageOutputGrows(op, items);
    }
  }

  /** What the operator outputs for each record, in the state that the records before it left. */
  function RunningOutputs(f: A.AggFunc, rs: seq<Record>): seq<seq<Record>> {
    if rs == [] then []
    else
      var n := |rs| - 1;
      RunningOutputs(f, rs[..n]) + [A.Output(f, A.StateAfter(f, rs[..n]), rs[n])]
  }

  lemma {:induction false} RunningOutputAt(f: A.AggFunc, rs: seq<Record>, k: nat)
    requires k < |rs|
    ensures |RunningOutputs(f, rs)| == |rs|
    ensures RunningOutputs(f, rs)[k] == A.Output(f, A.StateAfter(f, rs[..k]), rs[k])
    decreases |rs|
  {
    var n := |rs| - 1;
    RunningOutputsLength(f, rs[..n]);
    if k < n {
      RunningOutputAt(f, rs[..n], k);
      assert rs[..n][..k] == rs[..k];
    }
  }

  lemma {:induction false} RunningOutputsLength(f: A.AggFunc, rs: seq<Record>)
    ensures |RunningOutputs(f, rs)| == |rs|
    decreases |rs|
  {
    if rs == [] {
    } else {
      RunningOutputsLength(f, rs[..|rs| - 1]);
    }
  }

  lemma {:induction false} OneMoreRecord(f: A.AggFunc, rs: seq<Record>, r: Record)
    ensures A.StateAfter(f, rs + [r]) == A.AfterElement(f, A.StateAfter(f, rs), r)
    ensures Concat(RunningOutputs(f, rs + [r]))
            == Concat(RunningOutputs(f, rs)) + A.Output(f, A.StateAfter(f, rs), r)
  {
    var before, last := RunningOutputs(f, rs), A.Output(f, A.StateAfter(f, rs), r);
    assert (rs + [r])[..|rs|] == rs;
    assert (before + [last])[..|before|] == before;
  }

  /** The stage has the state of the records so far and has emitted their outputs. */
  ghost predicate AggregatesTo(f: A.AggFunc, items: seq<StreamItem>, after: Operator, out: seq<StreamItem>) {
    && after == AggregateOp(f, A.StateAfter(f, RecordsIn(items)))
    && RecordsIn(out) == Concat(RunningOutputs(f, RecordsIn(items)))
    && ForwardsMarks(items, out)
  }

  lemma RecordsGrow(before: seq<StreamItem>, r: Record)
    ensures RecordsIn(before + [Data(r)]) == RecordsIn(before) + [r]
  {
    assert (before + [Data(r)])[..|before|] == before;
  }

  lemma {:induction false} AggregateStateOnRecord(f: A.AggFunc, before: seq<StreamItem>, r: Record)
    requires RunStage(AggregateOp(f, map[]), before).0 == AggregateOp(f, A.StateAfter(f, RecordsIn(before)))
    ensures RunStage(AggregateOp(f, map[]), before + [Data(r)]).0
            == AggregateOp(f, A.StateAfter(f, RecordsIn(before + [Data(r)])))
  {
    assert (before + [Data(r)])[..|before|] == before;
    StageSnoc(AggregateOp(f, map[]), before + [Data(r)]);
    OneMoreRecord(f, RecordsIn(before), r);
    RecordsGrow(before, r);
  }

  lemma {:induction false} AggregateSendsOnRecord(f: A.AggFunc, before: seq<StreamItem>, r: Record)
    requires RunStage(AggregateOp(f, map[]), before).0 == AggregateOp(f, A.StateAfter(f, RecordsIn(before)))
    requires RecordsIn(RunStage(AggregateOp(f, map[]), before).1) == Concat(RunningOutputs(f, RecordsIn(before)))
    requires MarksIn(RunStage(AggregateOp(f, map[]), before).1) == MarksIn(before)
    ensures var out := RunStage(AggregateOp(f, map[]), before + [Data(r)]).1;
            && RecordsIn(out) == Concat(RunningOutputs(f, RecordsIn(before + [Data(r)])))
            && ForwardsMarks(before + [Data(r)], out)
  {
    assert (before + [Data(r)])[..|before|] == before;
    StageOutputGrows(AggregateOp(f, map[]), before + [Data(r)]);
    OneMoreRecord(f, RecordsIn(before), r);
    RecordsGrow(before, r);
  }

  lemma {:induction false} AggregateOnWatermark(f: A.AggFunc, items: seq<StreamItem>, t: int)
    requires items != [] && items[|items| - 1] == Mark(t)
    requires var (after, out) := RunStage(AggregateOp(f, map[]), items[..|items| - 1]);
             AggregatesTo(f, items[..|items| - 1], after, out)
    ensures var (after, out) := RunStage(AggregateOp(f, map[]), items);
            AggregatesTo(f, items, after, out)
  {
    var before := items[..|items| - 1];
    StageSnoc(AggregateOp(f, map[]), items);
    StageOutputGrows(AggregateOp(f, map[]), items);
    var sent := RecordsIn(RunStage(AggregateOp(f, map[]), before).1);
    assert RecordsIn(before) + [] == RecordsIn(before) && sent + [] == sent;
  }

  /** Aggregates: the state is that of the records so far, and the records emitted are the running outputs. */
  lemma {:induction false} AggregateRun(f: A.AggFunc, items: seq<StreamItem>)
    ensures var (after, out) := RunStage(AggregateOp(f, map[]), items);
            AggregatesTo(f, items, after, out)
    decreases |items|
  {
    if items == [] {
    } else {
      var n := |items| - 1;
      AggregateRun(f, items[..n]);
      match items[n]
      case Data(r) =>
        TakeOneMore(items, n);
        assert items[..n + 1] == items;
        AggregateStateOnRecord(f, items[..n], r);
        AggregateSendsOnRecord(f, items[..n], r);
      case Mark(t) => AggregateOnWatermark(f, items, t);
    }
  }

  // The same operators inside a chain.

  lemma {:induction false} StagesSplit(a: seq<Operator>, b: seq<Operator>, items: seq<StreamItem>)
    ensures var x := RunStages(a, items);
            var y := RunStages(b, x.1);
            RunStages(a + b, items) == (x.0 + y.0, y.1)
    decreases |a|
  {
    if a == [] {
      assert [] + b == b;
      assert [] + RunStages(b, items).0 == RunStages(b, items).0;
    } else {
      var first := RunStage(a[0], items);
      assert (a + b)[0] == a[0] && (a + b)[1..] == a[1..] + b;
      StagesSplit(a[1..], b, first.1);
      var x := RunStages(a[1..], first.1);
      Reassociate([first.0], x.0, RunStages(b, x.1).0);
    }
  }

  lemma {:induction false} StagesLength(ops: seq<Operator>, items: seq<StreamItem>)
    ensures |RunStages(ops, items).0| == |ops|
    decreases |ops|
  {
    if ops == [] {
    } else {
      StagesLength(ops[1..], RunStage(ops[0], items).1);
    }
  }

  /** Every member of a chain runs over the stream that its predecessors, a chain of their own, emit;
      its successors run over what it emits. */
  lemma {:induction false} MemberRunsOnStream(before: seq<Operator>, op: Operator, after: seq<Operator>,
                                              items: seq<StreamItem>)
    ensures var all := RunChain(before + [op] + after, items);
            var fed := RunChain(before, items).1;
            var member := RunStage(op, fed);
            var rest := RunChain(after, member.1);
            && |RunChain(before, items).0| == |before|
            && all == (RunChain(before, items).0 + [member.0] + rest.0, rest.1)
  {
    var fed := RunChain(before, items).1;
    var member := RunStage(op, fed);
    FusionPreservesMeaning(before + [op] + after, items);
    FusionPreservesMeaning(before, items);
    FusionPreservesMeaning(after, member.1);
    StagesLength(before, items);
    StagesSplit(before + [op], after, items);
    StagesSplit(before, [op], items);
    ChainOfOne(op, fed);
  }

  lemma {:induction false} ChainOfOne(op: Operator, items: seq<StreamItem>)
    ensures RunStages([op], items) == ([RunStage(op, items).0], RunStage(op, items).1)
  {
    assert [op][1..] == [];
    assert [RunStage(op, items).0] + [] == [RunStage(op, items).0];
  }

  /** A window anywhere in a chain has the state, and passes on the records, of its run over the stream
      that reaches it. */
  lemma WindowInChain(before: seq<Operator>, cfg: W.WindowConfig, after: seq<Operator>, items: seq<StreamItem>)
    returns (sent: seq<StreamItem>)
    ensures var (ops, out) := RunChain(before + [WindowOp(cfg, W.NO_WINDOWS)] + after, items);
            var fed := RunChain(before, items).1;
            && |ops| > |before| && ops[|before|] == WindowOp(cfg, EventTime.StateAfter(cfg, fed))
            && RecordsIn(sent) == EventTime.OutputOf(cfg, fed) && ForwardsMarks(fed, sent)
            && out == RunChain(after, sent).1
  {
    var fed := RunChain(before, items).1;
    sent := RunStage(WindowOp(cfg, W.NO_WINDOWS), fed).1;
    MemberRunsOnStream(before, WindowOp(cfg, W.NO_WINDOWS), after, items);
    WindowRun(cfg, fed);
  }

  /** Likewise for an aggregate. */
  lemma AggregateInChain(before: seq<Operator>, f: A.AggFunc, after: seq<Operator>, items: seq<StreamItem>)
    returns (sent: seq<StreamItem>)
    ensures var (ops, out) := RunChain(before + [AggregateOp(f, map[])] + after, items);
            var fed := RunChain(before, items).1;
            && |ops| > |before| && AggregatesTo(f, fed, ops[|before|], sent)
            && out == RunChain(after, sent).1
  {
    var fed := RunChain(before, items).1;
    sent := RunStage(AggregateOp(f, map[]), fed).1;
    MemberRunsOnStream(before, AggregateOp(f, map[]), after, items);
    AggregateRun(f, fed);
  }

  // A join at the head of a chain. Whoever drives it sets the side before each record.

  function OnSide(op: Operator, isLeft: bool): Operator {
    match op
    case JoinOp(cfg, s) => JoinOp(cfg, s.(isLeft := isLeft))
    case _ => op
  }

  function SetSide(ops: seq<Operator>, event: JoinRuns.JoinEvent): seq<Operator> {
    if ops != [] && event.Arrival? then [OnSide(ops[0], event.isLeft)] + ops[1..] else ops
  }

  function ItemOf(event: JoinRuns.JoinEvent): StreamItem {
    match event
    case Arrival(_, r) => Data(r)
    case Watermark(t) => Mark(t)
  }

  function DriveJoin(ops: seq<Operator>, events: seq<JoinRuns.JoinEvent>): (seq<Operator>, seq<StreamItem>) {
    if events == [] then (ops, [])
    else
      var n := |events| - 1;
      var before := DriveJoin(ops, events[..n]);
      var last := ChainOn(SetSide(before.0, events[n]), ItemOf(events[n]));
      (last.0, before.1 + last.1)
  }

  function MarksOf(events: seq<JoinRuns.JoinEvent>): seq<int> {
    if events == [] then []
    else
      var n := |events| - 1;
      MarksOf(events[..n]) + (if events[n].Watermark? then [events[n].timestamp] else [])
  }

  /** One item into a chain: through the head, and what the head sends on through the rest. */
  lemma {:induction false} HeadThenRest(head: Operator, rest: seq<Operator>, item: StreamItem)
    ensures var x := StageOn(head, item);
            var y := RunStages(rest, x.1);
            ChainOn([head] + rest, item) == ([x.0] + y.0, y.1)
  {
    ChainOnIsStages([head] + rest, item);
    StageOnOne(head, item);
    assert ([head] + rest)[1..] == rest;
  }

  lemma {:induction false} RestRunsOn(head: Operator, rest: seq<Operator>, joined: seq<StreamItem>, item: StreamItem)
    ensures var after := RunChain(rest, joined);
            var step := ChainOn([head] + after.0, item);
            var longer := RunChain(rest, joined + StageOn(head, item).1);
            step.0 == [StageOn(head, item).0] + longer.0 && longer.1 == after.1 + step.1
  {
    FusionPreservesMeaning(rest, joined);
    FusionPreservesMeaning(rest, joined + StageOn(head, item).1);
    StagesAppend(rest, joined, StageOn(head, item).1);
    HeadThenRest(head, RunChain(rest, joined).0, item);
  }

  /** What the join sends on for one event, after its side is set. */
  function JoinSends(cfg: J.JoinConfig, s: J.JoinState, event: JoinRuns.JoinEvent): seq<StreamItem> {
    StageOn(if event.Arrival? then OnSide(JoinOp(cfg, s), event.isLeft) else JoinOp(cfg, s), ItemOf(event)).1
  }

  lemma {:induction false} JoinTakesEvent(cfg: J.JoinConfig, rest: seq<Operator>, joined: seq<StreamItem>,
                                          event: JoinRuns.JoinEvent, events: seq<JoinRuns.JoinEvent>)
    ensures var s := JoinRuns.StateAfter(cfg, events);
            var after := RunChain(rest, joined);
            var step := ChainOn(SetSide([JoinOp(cfg, s)] + after.0, event), ItemOf(event));
            var longer := RunChain(rest, joined + JoinSends(cfg, s, event));
            && step.0 == [JoinOp(cfg, JoinRuns.StateAfter(cfg, events + [event]))] + longer.0
            && longer.1 == after.1 + step.1
  {
    var s := JoinRuns.StateAfter(cfg, events);
    var after := RunChain(rest, joined).0;
    assert (events + [event])[..|events|] == events;
    assert ([JoinOp(cfg, s)] + after)[1..] == after;
    match event
    case Arrival(isLeft, r) => RestRunsOn(OnSide(JoinOp(cfg, s), isLeft), rest, joined, Data(r));
    case Watermark(t) => RestRunsOn(JoinOp(cfg, s), rest, joined, Mark(t));
  }

  /** The records sent for an event are its results; a watermark is forwarded. */
  lemma JoinSendsOutput(cfg: J.JoinConfig, events: seq<JoinRuns.JoinEvent>, joined: seq<StreamItem>)
    requires events != []
    ensures var n := |events| - 1;
            var longer := joined + JoinSends(cfg, JoinRuns.StateAfter(cfg, events[..n]), events[n]);
            && RecordsIn(longer) == RecordsIn(joined) + JoinRuns.OutputAt(cfg, events, n)
            && MarksIn(longer) == MarksIn(joined) + (if events[n].Watermark? then [events[n].timestamp] else [])
  {
    var n := |events| - 1;
    assert MarksIn(joined) + [] == MarksIn(joined);
    match events[n]
    case Arrival(isLeft, r) =>
      OutputGrows(joined, JoinRuns.OutputAt(cfg, events, n), 0);
    case Watermark(t) =>
      OutputGrows(joined, [], t);
  }

  lemma {:induction false} OutputOfPrefix(cfg: J.JoinConfig, events: seq<JoinRuns.JoinEvent>, n: nat, m: nat)
    requires m <= n <= |events|
    ensures JoinRuns.OutputUpTo(cfg, events[..n], m) == JoinRuns.OutputUpTo(cfg, events, m)
    decreases m
  {
    if m == 0 {
    } else {
      OutputOfPrefix(cfg, events, n, m - 1);
      assert events[..n][..m - 1] == events[..m - 1];
    }
  }

  /** A join at the head of a chain has the state of its run and passes on the run's records and the
      watermarks; the rest of the chain runs over that. */
  lemma {:induction false} JoinInChain(cfg: J.JoinConfig, rest: seq<Operator>, events: seq<JoinRuns.JoinEvent>)
    returns (joined: seq<StreamItem>)
    ensures var (ops, out) := DriveJoin([JoinOp(cfg, J.EMPTY_JOIN)] + rest, events);
            var after := RunChain(rest, joined);
            && RecordsIn(joined) == JoinRuns.OutputUpTo(cfg, events, |events|)
            && MarksIn(joined) == MarksOf(events)
            && ops == [JoinOp(cfg, JoinRuns.StateAfter(cfg, events))] + after.0
            && out == after.1
    decreases |events|
  {
    joined := [];
    if events == [] {
    } else {
      var n := |events| - 1;
      joined := JoinInChain(cfg, rest, events[..n]);
      var s := JoinRuns.StateAfter(cfg, events[..n]);
      TakeOneMore(events, n);
      assert events[..n + 1] == events;
      JoinTakesEvent(cfg, rest, joined, events[n], events[..n]);
      JoinSendsOutput(cfg, events, joined);
      OutputOfPrefix(cfg, events, n, n);
      joined := joined + JoinSends(cfg, s, events[n]);
    }
  }

  /** A join behind the emitter, at the head of a chain: what goes into the rest of the chain is the
      nested-loop join of the arrivals. */
  lemma JoinTaskIsNestedLoop(cfg: J.JoinConfig, rest: seq<Operator>, emitter: Watermarks.EmitterConfig,
                             arrivals: seq<JoinPipelines.SidedArrival>)
    returns (joined: seq<StreamItem>, pairs: seq<JoinRuns.Pair>)
    requires Watermarks.WithinBound(emitter, JoinPipelines.EventsOf(arrivals))
    ensures JoinRuns.AllInLoopOrder(pairs)
    ensures forall p :: p in pairs <==> JoinPipelines.ArePartners(cfg, arrivals, p)
    ensures var out := RecordsIn(joined);
            && |out| == |pairs|
            && forall k :: 0 <= k < |pairs| ==>
                 && JoinPipelines.ArePartners(cfg, arrivals, pairs[k])
                 && var l, r := arrivals[pairs[k].left].arrival, arrivals[pairs[k].right].arrival;
                    out[k] == Record(cfg.join(l.value, r.value), l.key, l.timestamp)
    ensures var task := [JoinOp(cfg, J.EMPTY_JOIN)] + rest;
            DriveJoin(task, JoinPipelines.FeedJoin(emitter, arrivals)).1 == RunChain(rest, joined).1
  {
    pairs := JoinPipelines.JoinPipelineIsNestedLoop(cfg, emitter, arrivals);
    joined := JoinInChain(cfg, rest, JoinPipelines.FeedJoin(emitter, arrivals));
  }

  // A whole job in one task: map, key by, window, fed by the emitter.

  /** The arrival as the window sees it: its value mapped, its key selected from that. */
  function Prepared(f: Value -> Value, select: Value -> Key, a: Pipelines.Arrival): Pipelines.Arrival {
    a.(value := f(a.value), key := select(f(a.value)))
  }

  function AllPrepared(f: Value -> Value, select: Value -> Key, arrivals: seq<Pipelines.Arrival>)
    : (prepared: seq<Pipelines.Arrival>)
    ensures |prepared| == |arrivals|
  {
    seq(|arrivals|, i requires 0 <= i < |arrivals| => Prepared(f, select, arrivals[i]))
  }

  /** Preparing moves no timestamp and no clock reading, so the same watermarks are emitted. */
  lemma SameEvents(f: Value -> Value, select: Value -> Key, arrivals: seq<Pipelines.Arrival>)
    ensures Pipelines.Events(AllPrepared(f, select, arrivals)) == Pipelines.Events(arrivals)
  {
  }

  ghost predicate IsPrepared(f: Value -> Value, select: Value -> Key, item: StreamItem, out: StreamItem) {
    match item
    case Mark(_) => out == item
    case Data(r) => out == Data(Record(f(r.value), select(f(r.value)), r.timestamp))
  }

  ghost predicate AreAllPrepared(f: Value -> Value, select: Value -> Key, items: seq<StreamItem>,
                                 out: seq<StreamItem>)
  {
    |out| == |items| && forall i :: 0 <= i < |items| ==> IsPrepared(f, select, items[i], out[i])
  }

  lemma {:induction false} FeedPrepared(f: Value -> Value, select: Value -> Key, emitter: Watermarks.EmitterConfig,
                                        arrivals: seq<Pipelines.Arrival>)
    ensures AreAllPrepared(f, select, Pipelines.Feed(emitter, arrivals),
            Pipelines.Feed(emitter, AllPrepared(f, select, arrivals)))
    decreases |arrivals|
  {
    if arrivals == [] {
    } else {
      var n := |arrivals| - 1;
      var prepared := AllPrepared(f, select, arrivals);
      FeedPrepared(f, select, emitter, arrivals[..n]);
      SameEvents(f, select, arrivals);
      assert prepared[..n] == AllPrepared(f, select, arrivals[..n]);
      assert prepared[n] == Prepared(f, select, arrivals[n]);
    }
  }

  lemma PreparedOnce(f: Value -> Value, select: Value -> Key, items: seq<StreamItem>, out: seq<StreamItem>,
                     other: seq<StreamItem>)
    requires AreAllPrepared(f, select, items, out) && AreAllPrepared(f, select, items, other)
    ensures out == other
  {
    forall i | 0 <= i < |items| ensures out[i] == other[i] {
      assert IsPrepared(f, select, items[i], out[i]) && IsPrepared(f, select, items[i], other[i]);
    }
  }

  lemma {:induction false} SameLastWatermark(f: Value -> Value, select: Value -> Key, items: seq<StreamItem>,
                                             out: seq<StreamItem>)
    requires AreAllPrepared(f, select, items, out)
    ensures Pipelines.LastWatermark(out) == Pipelines.LastWatermark(items)
    decreases |items|
  {
    if items == [] {
    } else {
      var n := |items| - 1;
      assert IsPrepared(f, select, items[n], out[n]);
      SameLastWatermark(f, select, items[..n], out[..n]);
    }
  }

  /** The first two operators turn the feed of the arrivals into that of the prepared arrivals. */
  lemma {:induction false} MapKeyByFeed(f: Value -> Value, select: Value -> Key, emitter: Watermarks.EmitterConfig,
                                        arrivals: seq<Pipelines.Arrival>)
    ensures RunChain([MapOp(f), KeyByOp(select)], Pipelines.Feed(emitter, arrivals)).1
            == Pipelines.Feed(emitter, AllPrepared(f, select, arrivals))
  {
    var items := Pipelines.Feed(emitter, arrivals);
    var mapped := RunStage(MapOp(f), items).1;
    var keyed := RunStage(KeyByOp(select), mapped).1;
    FusionPreservesMeaning([MapOp(f), KeyByOp(select)], items);
    assert [MapOp(f), KeyByOp(select)][1..] == [KeyByOp(select)];
    ChainOfOne(KeyByOp(select), mapped);
    MapRun(f, items);
    KeyByRun(select, mapped);
    forall i | 0 <= i < |items| ensures IsPrepared(f, select, items[i], keyed[i]) {
      assert IsMapped(f, items[i], mapped[i]) && IsKeyed(select, mapped[i], keyed[i]);
    }
    FeedPrepared(f, select, emitter, arrivals);
    PreparedOnce(f, select, items, keyed, Pipelines.Feed(emitter, AllPrepared(f, select, arrivals)));
  }

  /** The fused task map - key by - window equals the batch job: with every arrival within the bound, and
      any clock readings, a pane that the last watermark has reached and that has values has come out
      exactly once, with what its mapped values combine to in arrival order; any other pane has put out
      nothing, and the window buffers its mapped values. */
  lemma {:induction false} TaskEqualsBatch(f: Value -> Value, select: Value -> Key, cfg: W.WindowConfig,
                                           emitter: Watermarks.EmitterConfig, arrivals: seq<Pipelines.Arrival>,
                                           p: W.Pane)
    requires Watermarks.WithinBound(emitter, Pipelines.Events(arrivals)) && EventTime.SizedPane(cfg, p)
    ensures var task := [MapOp(f), KeyByOp(select), WindowOp(cfg, W.NO_WINDOWS)];
            var (ops, out) := RunChain(task, Pipelines.Feed(emitter, arrivals));
            var group := Pipelines.BatchGroup(cfg, AllPrepared(f, select, arrivals), p);
            var last := Pipelines.LastWatermark(Pipelines.Feed(emitter, arrivals));
            var reached := last.Some? && p.window.end <= last.value;
            var results := Filter(EventTime.ResultFor(p), RecordsIn(out));
            && |ops| == 3 && ops[2].WindowOp?
            && W.Buffered(ops[2].windows, p) == (if reached then [] else group)
            && |results| == (if reached && group != [] then 1 else 0)
            && forall r :: r in results ==>
                 r.key == p.key && r.timestamp == p.window.end && W.IsCombined(cfg.reduce, group, r.value)
  {
    var before, window := [MapOp(f), KeyByOp(select)], WindowOp(cfg, W.NO_WINDOWS);
    var items, prepared := Pipelines.Feed(emitter, arrivals), AllPrepared(f, select, arrivals);
    assert before + [window] + [] == [MapOp(f), KeyByOp(select), window];
    MapKeyByFeed(f, select, emitter, arrivals);
    var sent := WindowInChain(before, cfg, [], items);
    FusionPreservesMeaning([], sent);
    FusionPreservesMeaning(before + [window] + [], items);
    StagesLength(before + [window] + [], items);
    SameEvents(f, select, arrivals);
    FeedPrepared(f, select, emitter, arrivals);
    SameLastWatermark(f, select, items, Pipelines.Feed(emitter, prepared));
    Pipelines.PipelineEqualsBatch(cfg, emitter, prepared, p);
  }
}
