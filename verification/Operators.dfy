/** The stream operators as one family of transducers: stateless ones
    (taskmanager/operators/stateless.py), stateful ones, and the in-memory source
    (taskmanager/operators/sources.py:201-261). */
module Operators {
  import opened Common
  import opened Records
  import W = WindowOperators
  import A = AggregateOperators
  import J = JoinOperators

  /** An operator with its fixed configuration and its current state. User functions are total and pure. */
  datatype Operator =
    | MapOp(mapFunc: Value -> Value)
    | FilterOp(filterFunc: Value -> bool)
    | FlatMapOp(flatMapFunc: Value -> seq<Value>)
    | KeyByOp(keySelector: Value -> Key)
    | WindowOp(windowCfg: W.WindowConfig, windows: W.WindowState)
    | AggregateOp(aggFunc: A.AggFunc, accs: A.AggState)
    | JoinOp(joinCfg: J.JoinConfig, join: J.JoinState)
    | SourceOp(collection: seq<Value>, index: nat)

  /** What a source hands over with each record: partition and offset. */
  datatype SourceRecord = SourceRecord(record: Record, partition: int, offset: nat)

  function WithValues(r: Record, vs: seq<Value>): seq<Record> {
    Map(v => r.WithValue(v), vs)
  }

  /** process_element: the operator afterwards, and what it emits. */
  function OnElement(op: Operator, r: Record): (Operator, seq<Record>) {
    match op
    case MapOp(f) => (op, [r.WithValue(f(r.value))])
    case FilterOp(p) => (op, if p(r.value) then [r] else [])
    case FlatMapOp(g) => (op, WithValues(r, g(r.value)))
    case KeyByOp(select) => (op, [r.WithKey(select(r.value))])
    case WindowOp(cfg, s) => (WindowOp(cfg, W.AfterElement(cfg, s, r)), [])
    case AggregateOp(f, s) => (AggregateOp(f, A.AfterElement(f, s, r)), A.Output(f, s, r))
    case JoinOp(cfg, s) => (JoinOp(cfg, J.AfterElement(s, r)), J.JoinOutput(cfg, s, r))
    case SourceOp(_, _) => (op, [])
  }

  /** process_watermark. */
  function OnWatermark(op: Operator, t: int): (Operator, seq<Record>) {
    match op
    case WindowOp(cfg, s) => (WindowOp(cfg, W.AfterWatermark(s, t)), W.FiredBy(cfg, s, t))
    case JoinOp(cfg, s) => (JoinOp(cfg, J.AfterWatermark(cfg, s, t)), [])
    case _ => (op, [])
  }

  datatype Snapshot =
    | WindowSnapshot(windows: W.WindowState)
    | AggregateSnapshot(accs: A.AggState)
    | JoinSnapshot(join: J.JoinState)
    | SourceSnapshot(index: nat)

  /** snapshot_state; None is the empty byte string of the stateless operators. */
  function SnapshotOf(op: Operator): Option<Snapshot> {
    match op
    case WindowOp(_, s) => Some(WindowSnapshot(s))
    case AggregateOp(_, s) => Some(AggregateSnapshot(s))
    case JoinOp(_, s) => Some(JoinSnapshot(s))
    case SourceOp(_, i) => Some(SourceSnapshot(i))
    case _ => None
  }

  /** restore_state, from a snapshot of an operator of the same kind. */
  function Restored(op: Operator, s: Snapshot): Operator {
    match (op, s)
    case (WindowOp(cfg, _), WindowSnapshot(w)) => WindowOp(cfg, w)
    case (AggregateOp(f, _), AggregateSnapshot(a)) => AggregateOp(f, a)
    case (JoinOp(cfg, _), JoinSnapshot(j)) => JoinOp(cfg, j)
    case (SourceOp(c, _), SourceSnapshot(i)) => SourceOp(c, i)
    case _ => op
  }

  /** The operator as it was configured, with the state of a new one. */
  function Fresh(op: Operator): Operator {
    match op
    case WindowOp(cfg, _) => WindowOp(cfg, W.NO_WINDOWS)
    case AggregateOp(f, _) => AggregateOp(f, map[])
    case JoinOp(cfg, _) => JoinOp(cfg, J.EMPTY_JOIN)
    case SourceOp(c, _) => SourceOp(c, 0)
    case _ => op
  }

  /** Processing never changes how an operator is configured. */
  lemma ConfigurationIsFixed(op: Operator, r: Record, t: int)
    ensures Fresh(OnElement(op, r).0) == Fresh(op)
    ensures Fresh(OnWatermark(op, t).0) == Fresh(op)
  {
  }

  /** Restoring a snapshot into any operator with the same configuration gives the operator back. */
  lemma RestoreUndoesSnapshot(op: Operator, other: Operator)
    requires Fresh(op) == Fresh(other)
    ensures (match SnapshotOf(op) case None => other case Some(s) => Restored(other, s)) == op
  {
  }

  class StreamOperator {
    var op: Operator

    constructor (op: Operator)
      ensures this.op == op
    {
      this.op := op;
    }

    method ProcessElement(r: Record) returns (results: seq<Record>)
      modifies this
      ensures (op, results) == OnElement(old(op), r)
    {
      var step := OnElement(op, r);
      op, results := step.0, step.1;
    }

    method ProcessWatermark(t: int) returns (results: seq<Record>)
      modifies this
      ensures (op, results) == OnWatermark(old(op), t)
    {
      var step := OnWatermark(op, t);
      op, results := step.0, step.1;
    }

    method SnapshotState() returns (s: Option<Snapshot>)
      ensures s == SnapshotOf(op)
    {
      s := SnapshotOf(op);
    }

    method RestoreState(s: Snapshot)
      modifies this
      ensures op == Restored(old(op), s)
    {
      op := Restored(op, s);
    }

    /** CollectionSourceOperator.read_records: `clock` gives the time at which each element is read. */
    method ReadRecords(maxRecords: int, clock: nat -> int) returns (records: seq<SourceRecord>)
      requires op.SourceOp?
      modifies this
      ensures (op, records) == AfterRead(old(op), maxRecords, clock)
    {
      records := [];
      var count := 0;
      while op.index < |op.collection| && count < maxRecords
        invariant op.SourceOp? && op.collection == old(op).collection && op.index == old(op).index + count
        invariant 0 <= count <= Max(0, maxRecords)
        invariant count > 0 ==> op.index <= |op.collection|
        invariant records == Elements(op.collection, old(op).index, count, clock)
        decreases |op.collection| - op.index
      {
        var value := op.collection[op.index];
        records := records + [SourceRecord(Record(value, NoKey, clock(op.index)), 0, op.index)];
        op := op.(index := op.index + 1);
        count := count + 1;
      }
    }
  }

  /** Elements i, i + 1, ... of a collection, stamped with the clock and numbered by their place. */
  function Elements(collection: seq<Value>, i: nat, n: nat, clock: nat -> int): seq<SourceRecord>
    requires n > 0 ==> i + n <= |collection|
  {
    seq(n, k requires 0 <= k < n => SourceRecord(Record(collection[i + k], NoKey, clock(i + k)), 0, i + k))
  }

  function Payload(rs: seq<SourceRecord>): seq<Record> {
    if rs == [] then [] else [rs[0].record] + Payload(rs[1..])
  }

  function BatchSize(collection: seq<Value>, index: nat, maxRecords: int): nat {
    if index >= |collection| || maxRecords <= 0 then 0
    else if |collection| - index <= maxRecords then |collection| - index else maxRecords
  }

  function AfterRead(op: Operator, maxRecords: int, clock: nat -> int): (Operator, seq<SourceRecord>)
    requires op.SourceOp?
  {
    var n := BatchSize(op.collection, op.index, maxRecords);
    (op.(index := op.index + n), Elements(op.collection, op.index, n, clock))
  }

  lemma {:induction false} PayloadAt(rs: seq<SourceRecord>, k: nat)
    requires k < |rs|
    ensures |Payload(rs)| == |rs| && Payload(rs)[k] == rs[k].record
  {
    PayloadLength(rs);
    if k == 0 {
    } else {
      PayloadAt(rs[1..], k - 1);
    }
  }

  lemma {:induction false} PayloadLength(rs: seq<SourceRecord>)
    ensures |Payload(rs)| == |rs|
  {
    if rs == [] {
    } else {
      PayloadLength(rs[1..]);
    }
  }

  /** A read takes the next elements, in order, as many as the limit allows and the collection still has;
      each is stamped with the clock at its reading and numbered by its place. */
  lemma ReadTakesAllItMay(op: Operator, maxRecords: int, clock: nat -> int)
    requires op.SourceOp? && op.index <= |op.collection|
    ensures var (after, rs) := AfterRead(op, maxRecords, clock);
            && after == SourceOp(op.collection, op.index + |rs|) && op.index + |rs| <= |op.collection|
            && |rs| <= Max(0, maxRecords) && (|rs| == Max(0, maxRecords) || op.index + |rs| == |op.collection|)
            && |Payload(rs)| == |rs|
            && forall k :: 0 <= k < |rs| ==>
                 var i := op.index + k;
                 && Payload(rs)[k] == rs[k].record == Record(op.collection[i], NoKey, clock(i))
                 && rs[k].partition == 0 && rs[k].offset == i
  {
    var rs := AfterRead(op, maxRecords, clock).1;
    PayloadLength(rs);
    forall k | 0 <= k < |rs| ensures Payload(rs)[k] == rs[k].record {
      PayloadAt(rs, k);
    }
  }
}
