/** Streaming windows against a batch group-by, over whole runs of records and watermarks. */
module EventTime {
  import opened Common
  import opened Records
  import opened Windows
  import opened WindowOperators

  // A run of the operator.

  function StateAfter(cfg: WindowConfig, run: seq<StreamItem>): WindowState {
    if run == [] then NO_WINDOWS
    else
      var n := |run| - 1;
      match run[n]
      case Data(r) => AfterElement(cfg, StateAfter(cfg, run[..n]), r)
      case Mark(t) => AfterWatermark(StateAfter(cfg, run[..n]), t)
  }

  function OutputOf(cfg: WindowConfig, run: seq<StreamItem>): seq<Record> {
    if run == [] then []
    else
      var n := |run| - 1;
      OutputOf(cfg, run[..n])
      + (match run[n]
         case Data(r) => []
         case Mark(t) => FiredBy(cfg, StateAfter(cfg, run[..n]), t))
  }

  // The batch meaning: for each pane, the values it was ever assigned, and whether a watermark passed it.

  predicate Assigned(cfg: WindowConfig, r: Record, p: Pane) {
    r.key == p.key && p.window in Assign(cfg.assigner, r.timestamp)
  }

  function GroupOf(cfg: WindowConfig, run: seq<StreamItem>, p: Pane): seq<Value> {
    if run == [] then []
    else
      var n := |run| - 1;
      GroupOf(cfg, run[..n], p)
      + (if run[n].Data? && Assigned(cfg, run[n].record, p) then [run[n].record.value] else [])
  }

  predicate Passed(run: seq<StreamItem>, end: int) {
    exists i :: 0 <= i < |run| && run[i].Mark? && run[i].timestamp >= end
  }

  /** The outputs for one key and window end; the end determines the window. */
  function ResultFor(p: Pane): Record -> bool {
    (r: Record) => r.key == p.key && r.timestamp == p.window.end
  }

  predicate SizedPane(cfg: WindowConfig, p: Pane) {
    p.window.end == p.window.start + cfg.assigner.size
  }

  /** A passed pane has been emitted once, with everything it was ever assigned, and is forgotten;
      any other pane has not been emitted and buffers everything it was assigned. */
  ghost predicate ExactFor(cfg: WindowConfig, run: seq<StreamItem>, p: Pane) {
    var group, s := GroupOf(cfg, run, p), StateAfter(cfg, run);
    if group != [] && Passed(run, p.window.end)
    then Filter(ResultFor(p), OutputOf(cfg, run)) == PaneResult(cfg, p, group) && p !in s.panes
    else Filter(ResultFor(p), OutputOf(cfg, run)) == [] && Buffered(s, p) == group
  }

  ghost predicate EqualsBatch(cfg: WindowConfig, run: seq<StreamItem>) {
    forall p :: SizedPane(cfg, p) ==> ExactFor(cfg, run, p)
  }

  /** No record is assigned to a window that an earlier watermark has passed. */
  ghost predicate OnTime(cfg: WindowConfig, run: seq<StreamItem>) {
    forall n, w :: 0 <= n < |run| && run[n].Data? && w in Assign(cfg.assigner, run[n].record.timestamp) ==>
      !Passed(run[..n], w.end)
  }

  // Step one, with no assumption on the run: each pane behaves like a machine of its own, which
  // collects values and closes a batch whenever a watermark passes the window's end.

  function Open(cfg: WindowConfig, run: seq<StreamItem>, p: Pane): seq<Value> {
    if run == [] then []
    else
      var n := |run| - 1;
      match run[n]
      case Data(r) => Open(cfg, run[..n], p) + (if Assigned(cfg, r, p) then [r.value] else [])
      case Mark(t) => if p.window.end <= t then [] else Open(cfg, run[..n], p)
  }

  function Closed(cfg: WindowConfig, run: seq<StreamItem>, p: Pane): seq<seq<Value>> {
    if run == [] then []
    else
      var n := |run| - 1;
      match run[n]
      case Data(_) => Closed(cfg, run[..n], p)
      case Mark(t) =>
        Closed(cfg, run[..n], p)
        + (if p.window.end <= t && Open(cfg, run[..n], p) != [] then [Open(cfg, run[..n], p)] else [])
  }

  function BatchResults(cfg: WindowConfig, p: Pane, batches: seq<seq<Value>>): seq<Record> {
    if batches == [] then []
    else BatchResults(cfg, p, batches[..|batches| - 1]) + PaneResult(cfg, p, batches[|batches| - 1])
  }

  ghost predicate WellFormed(cfg: WindowConfig, s: WindowState) {
    && IsDictionary(s)
    && forall p :: p in s.panes ==> s.panes[p] != [] && SizedPane(cfg, p)
  }

  lemma {:induction false} AddToAllIsWellFormed(cfg: WindowConfig, s: WindowState, key: Key, windows: seq<Window>,
                                                v: Value)
    requires WellFormed(cfg, s)
    requires forall w :: w in windows ==> w.end == w.start + cfg.assigner.size
    ensures WellFormed(cfg, AddToAll(s, key, windows, v))
    decreases |windows|
  {
    if windows == [] {
    } else {
      var n := |windows| - 1;
      assert windows[n] in windows;
      AddToAllIsWellFormed(cfg, s, key, windows[..n], v);
      AddKeepsWellFormed(cfg, AddToAll(s, key, windows[..n], v), Pane(key, windows[n]), v);
    }
  }

  lemma {:induction false} AddToAllAdds(s: WindowState, key: Key, windows: seq<Window>, v: Value, p: Pane)
    requires Distinct(windows)
    ensures Buffered(AddToAll(s, key, windows, v), p)
            == if p.key == key && p.window in windows then Buffered(s, p) + [v] else Buffered(s, p)
    decreases |windows|
  {
    if windows == [] {
    } else {
      var n := |windows| - 1;
      AddToAllAdds(s, key, windows[..n], v, p);
      AddedToOne(AddToAll(s, key, windows[..n], v), Pane(key, windows[n]), v, p);
      assert windows[n] !in windows[..n];
      assert p.window in windows <==> p.window in windows[..n] || p.window == windows[n];
    }
  }

  lemma AddedToOne(s: WindowState, q: Pane, v: Value, p: Pane)
    ensures Buffered(AddToPane(s, q, v), p) == if p == q then Buffered(s, p) + [v] else Buffered(s, p)
  {
  }

  lemma AddKeepsWellFormed(cfg: WindowConfig, s: WindowState, q: Pane, v: Value)
    requires WellFormed(cfg, s) && SizedPane(cfg, q)
    ensures WellFormed(cfg, AddToPane(s, q, v))
  {
    AddKeepsDictionary(s, q, v);
  }

  /** Watermarks empty exactly the buffers they pass. */
  lemma WatermarkEmpties(cfg: WindowConfig, s: WindowState, t: int, p: Pane)
    requires WellFormed(cfg, s)
    ensures WellFormed(cfg, AfterWatermark(s, t))
    ensures Buffered(AfterWatermark(s, t), p) == if p.window.end <= t then [] else Buffered(s, p)
  {
    WatermarkKeepsDictionary(s, t);
    FilterMembers(Due(t), s.order);
    FilterMembers(NotDue(t), s.order);
    assert p in s.order <==> p in SetOf(s.order);
  }

  lemma ResultOfOther(cfg: WindowConfig, p: Pane, q: Pane, vs: seq<Value>)
    requires SizedPane(cfg, p) && SizedPane(cfg, q) && p != q
    ensures Filter(ResultFor(p), PaneResult(cfg, q, vs)) == []
  {
    assert p.window.end == q.window.end ==> p.window.start == q.window.start;
    FilterNone(ResultFor(p), PaneResult(cfg, q, vs));
  }

  lemma {:induction false} FilteredResults(cfg: WindowConfig, s: WindowState, ps: seq<Pane>, p: Pane)
    requires ps != []
    ensures var n := |ps| - 1;
            Filter(ResultFor(p), Results(cfg, s, ps))
            == Filter(ResultFor(p), Results(cfg, s, ps[..n]))
               + Filter(ResultFor(p), PaneResult(cfg, ps[n], Buffered(s, ps[n])))
  {
    var n := |ps| - 1;
    FilterAppend(ResultFor(p), Results(cfg, s, ps[..n]), PaneResult(cfg, ps[n], Buffered(s, ps[n])));
  }

  lemma {:induction false} ResultsOfOthers(cfg: WindowConfig, s: WindowState, ps: seq<Pane>, p: Pane)
    requires p !in ps && SizedPane(cfg, p) && forall q :: q in ps ==> SizedPane(cfg, q)
    ensures Filter(ResultFor(p), Results(cfg, s, ps)) == []
    decreases |ps|
  {
    if ps == [] {
    } else {
      var n := |ps| - 1;
      assert ps[n] in ps;
      ResultsOfOthers(cfg, s, ps[..n], p);
      FilteredResults(cfg, s, ps, p);
      ResultOfOther(cfg, p, ps[n], Buffered(s, ps[n]));
    }
  }

  lemma ResultFilter(cfg: WindowConfig, p: Pane, vs: seq<Value>)
    ensures Filter(ResultFor(p), PaneResult(cfg, p, vs)) == PaneResult(cfg, p, vs)
  {
    if vs != [] {
      assert PaneResult(cfg, p, vs)[1..] == [];
    }
  }

  lemma {:induction false} ResultsOfPane(cfg: WindowConfig, s: WindowState, ps: seq<Pane>, p: Pane)
    requires Distinct(ps) && SizedPane(cfg, p) && forall q :: q in ps ==> SizedPane(cfg, q)
    ensures Filter(ResultFor(p), Results(cfg, s, ps)) == if p in ps then PaneResult(cfg, p, Buffered(s, p)) else []
    decreases |ps|
  {
    if ps == [] {
    } else {
      var n := |ps| - 1;
      FilteredResults(cfg, s, ps, p);
      if ps[n] == p {
        ResultsOfOthers(cfg, s, ps[..n], p);
        ResultFilter(cfg, p, Buffered(s, p));
      } else {
        assert ps[n] in ps;
        ResultsOfPane(cfg, s, ps[..n], p);
        ResultOfOther(cfg, p, ps[n], Buffered(s, ps[n]));
        assert p in ps <==> p in ps[..n];
      }
    }
  }

  lemma FiredForPane(cfg: WindowConfig, s: WindowState, t: int, p: Pane)
    requires WellFormed(cfg, s) && SizedPane(cfg, p)
    ensures Filter(ResultFor(p), FiredBy(cfg, s, t))
            == if p.window.end <= t then PaneResult(cfg, p, Buffered(s, p)) else []
  {
    var due := Filter(Due(t), s.order);
    FilterDistinct(Due(t), s.order);
    FilterMembers(Due(t), s.order);
    assert forall q :: q in s.order <==> q in SetOf(s.order);
    ResultsOfPane(cfg, s, due, p);
  }

  ghost predicate RefinesPaneMachine(cfg: WindowConfig, run: seq<StreamItem>, p: Pane) {
    && WellFormed(cfg, StateAfter(cfg, run))
    && Buffered(StateAfter(cfg, run), p) == Open(cfg, run, p)
    && Filter(ResultFor(p), OutputOf(cfg, run)) == BatchResults(cfg, p, Closed(cfg, run, p))
  }

  lemma {:induction false} OnRecord(cfg: WindowConfig, run: seq<StreamItem>, r: Record, p: Pane)
    ensures Open(cfg, run + [Data(r)], p)
            == if Assigned(cfg, r, p) then Open(cfg, run, p) + [r.value] else Open(cfg, run, p)
    ensures Closed(cfg, run + [Data(r)], p) == Closed(cfg, run, p)
    ensures GroupOf(cfg, run + [Data(r)], p)
            == if Assigned(cfg, r, p) then GroupOf(cfg, run, p) + [r.value] else GroupOf(cfg, run, p)
  {
    assert (run + [Data(r)])[..|run|] == run;
    assert Open(cfg, run, p) + [] == Open(cfg, run, p) && GroupOf(cfg, run, p) + [] == GroupOf(cfg, run, p);
  }

  lemma RefinesOnRecord(cfg: WindowConfig, run: seq<StreamItem>, r: Record, p: Pane)
    requires SizedPane(cfg, p) && RefinesPaneMachine(cfg, run, p)
    ensures RefinesPaneMachine(cfg, run + [Data(r)], p)
  {
    var longer := run + [Data(r)];
    assert longer[..|longer| - 1] == run;
    OnRecord(cfg, run, r, p);
    RecordReachesPane(cfg, StateAfter(cfg, run), r, p);
    assert StateAfter(cfg, longer) == AfterElement(cfg, StateAfter(cfg, run), r);
    assert OutputOf(cfg, longer) == OutputOf(cfg, run) + [] == OutputOf(cfg, run);
  }

  lemma RecordReachesPane(cfg: WindowConfig, s: WindowState, r: Record, p: Pane)
    requires WellFormed(cfg, s)
    ensures WellFormed(cfg, AfterElement(cfg, s, r))
    ensures Buffered(AfterElement(cfg, s, r), p)
            == if Assigned(cfg, r, p) then Buffered(s, p) + [r.value] else Buffered(s, p)
  {
    AssignIsSound(cfg.assigner, r.timestamp);
    AddToAllIsWellFormed(cfg, s, r.key, Assign(cfg.assigner, r.timestamp), r.value);
    AddToAllAdds(s, r.key, Assign(cfg.assigner, r.timestamp), r.value, p);
  }

  lemma {:induction false} OnWatermark(cfg: WindowConfig, run: seq<StreamItem>, t: int, p: Pane)
    ensures Open(cfg, run + [Mark(t)], p) == if p.window.end <= t then [] else Open(cfg, run, p)
    ensures Closed(cfg, run + [Mark(t)], p)
            == if p.window.end <= t && Open(cfg, run, p) != [] then Closed(cfg, run, p) + [Open(cfg, run, p)]
              else Closed(cfg, run, p)
    ensures GroupOf(cfg, run + [Mark(t)], p) == GroupOf(cfg, run, p)
  {
    assert Closed(cfg, run, p) + [] == Closed(cfg, run, p);
    assert (run + [Mark(t)])[..|run|] == run;
    assert GroupOf(cfg, run + [Mark(t)], p) == GroupOf(cfg, run, p) + [];
  }

  lemma {:induction false} CloseBatch(cfg: WindowConfig, p: Pane, batches: seq<seq<Value>>, open: seq<Value>)
    ensures Concat(batches + [open]) == Concat(batches) + open
    ensures BatchResults(cfg, p, batches + [open]) == BatchResults(cfg, p, batches) + PaneResult(cfg, p, open)
  {
    assert (batches + [open])[..|batches|] == batches;
  }

  lemma {:induction false} OutputsOnWatermark(cfg: WindowConfig, run: seq<StreamItem>, t: int, p: Pane)
    requires SizedPane(cfg, p) && RefinesPaneMachine(cfg, run, p)
    ensures Filter(ResultFor(p), OutputOf(cfg, run + [Mark(t)]))
            == BatchResults(cfg, p, Closed(cfg, run + [Mark(t)], p))
  {
    var s := StateAfter(cfg, run);
    assert (run + [Mark(t)])[..|run|] == run;
    FiredForPane(cfg, s, t, p);
    FilterAppend(ResultFor(p), OutputOf(cfg, run), FiredBy(cfg, s, t));
    OnWatermark(cfg, run, t, p);
    CloseBatch(cfg, p, Closed(cfg, run, p), Open(cfg, run, p));
    assert Closed(cfg, run, p) + [] == Closed(cfg, run, p);
  }

  lemma RefinesOnWatermark(cfg: WindowConfig, run: seq<StreamItem>, t: int, p: Pane)
    requires SizedPane(cfg, p) && RefinesPaneMachine(cfg, run, p)
    ensures RefinesPaneMachine(cfg, run + [Mark(t)], p)
  {
    assert (run + [Mark(t)])[..|run|] == run;
    assert StateAfter(cfg, run + [Mark(t)]) == AfterWatermark(StateAfter(cfg, run), t);
    WatermarkEmpties(cfg, StateAfter(cfg, run), t, p);
    OnWatermark(cfg, run, t, p);
    OutputsOnWatermark(cfg, run, t, p);
  }

  lemma EmptyRunRefines(cfg: WindowConfig, p: Pane)
    ensures RefinesPaneMachine(cfg, [], p)
  {
    assert StateAfter(cfg, []) == NO_WINDOWS && OutputOf(cfg, []) == [];
  }

  /** The operator, seen at one pane, is the pane machine: for every run whatsoever. */
  lemma {:induction false} OperatorRefinesPaneMachine(cfg: WindowConfig, run: seq<StreamItem>, p: Pane)
    requires SizedPane(cfg, p)
    ensures RefinesPaneMachine(cfg, run, p)
    decreases |run|
  {
    if run == [] {
      EmptyRunRefines(cfg, p);
    } else {
      var n := |run| - 1;
      OperatorRefinesPaneMachine(cfg, run[..n], p);
      assert run == run[..n] + [run[n]];
      match run[n]
      case Data(r) => RefinesOnRecord(cfg, run[..n], r, p);
      case Mark(t) => RefinesOnWatermark(cfg, run[..n], t, p);
    }
  }

  /** Nothing is lost or duplicated, on time or not: the batches emitted for a pane, followed by
      its buffer, are the values it was assigned, in arrival order. */
  lemma {:induction false} NothingLostOrDuplicated(cfg: WindowConfig, run: seq<StreamItem>, p: Pane)
    ensures Concat(Closed(cfg, run, p)) + Open(cfg, run, p) == GroupOf(cfg, run, p)
    ensures forall b :: b in Closed(cfg, run, p) ==> b != []
    decreases |run|
  {
    if run == [] {
    } else {
      var n := |run| - 1;
      NothingLostOrDuplicated(cfg, run[..n], p);
      assert run == run[..n] + [run[n]];
      match run[n]
      case Data(r) =>
        OnRecord(cfg, run[..n], r, p);
      case Mark(t) =>
        OnWatermark(cfg, run[..n], t, p);
        CloseBatch(cfg, p, Closed(cfg, run[..n], p), Open(cfg, run[..n], p));
    }
  }

  // Step two: on-time runs close at most one batch per pane.

  lemma PassedStep(run: seq<StreamItem>, n: nat, end: int)
    requires n < |run|
    ensures Passed(run[..n + 1], end) <==> Passed(run[..n], end) || (run[n].Mark? && run[n].timestamp >= end)
  {
    if Passed(run[..n + 1], end) {
      var i :| 0 <= i < n + 1 && run[..n + 1][i].Mark? && run[..n + 1][i].timestamp >= end;
      assert i < n ==> run[..n][i] == run[i];
    }
    if Passed(run[..n], end) {
      var i :| 0 <= i < n && run[..n][i].Mark? && run[..n][i].timestamp >= end;
      assert run[..n + 1][i] == run[i];
    }
    assert run[..n + 1][n] == run[n];
  }

  /** Once passed, an on-time pane has nothing open and at most one batch. */
  ghost predicate OneBatch(cfg: WindowConfig, run: seq<StreamItem>, p: Pane) {
    var group := GroupOf(cfg, run, p);
    if Passed(run, p.window.end)
    then Open(cfg, run, p) == [] && Closed(cfg, run, p) == if group == [] then [] else [group]
    else Open(cfg, run, p) == group && Closed(cfg, run, p) == []
  }

  lemma PassedMore(run: seq<StreamItem>, item: StreamItem, end: int)
    ensures Passed(run + [item], end) <==> Passed(run, end) || (item.Mark? && item.timestamp >= end)
  {
    var longer := run + [item];
    PassedStep(longer, |run|, end);
    assert longer[..|run|] == run && longer[..|run| + 1] == longer;
  }

  lemma OneBatchOnRecord(cfg: WindowConfig, run: seq<StreamItem>, r: Record, p: Pane)
    requires OneBatch(cfg, run, p) && (Assigned(cfg, r, p) ==> !Passed(run, p.window.end))
    ensures OneBatch(cfg, run + [Data(r)], p)
  {
    PassedMore(run, Data(r), p.window.end);
    OnRecord(cfg, run, r, p);
  }

  lemma OneBatchOnWatermark(cfg: WindowConfig, run: seq<StreamItem>, t: int, p: Pane)
    requires OneBatch(cfg, run, p)
    ensures OneBatch(cfg, run + [Mark(t)], p)
  {
    PassedMore(run, Mark(t), p.window.end);
    OnWatermark(cfg, run, t, p);
    assert [] + [Open(cfg, run, p)] == [Open(cfg, run, p)];
  }

  lemma OneBatchStep(cfg: WindowConfig, run: seq<StreamItem>, item: StreamItem, p: Pane)
    requires OneBatch(cfg, run, p)
    requires item.Data? && Assigned(cfg, item.record, p) ==> !Passed(run, p.window.end)
    ensures OneBatch(cfg, run + [item], p)
  {
    match item
    case Data(r) => OneBatchOnRecord(cfg, run, r, p);
    case Mark(t) => OneBatchOnWatermark(cfg, run, t, p);
  }

  lemma {:induction false} OneBatchPerPane(cfg: WindowConfig, run: seq<StreamItem>, n: nat, p: Pane)
    requires OnTime(cfg, run) && n <= |run|
    ensures OneBatch(cfg, run[..n], p)
    decreases n
  {
    if n > 0 {
      OneBatchPerPane(cfg, run, n - 1, p);
      TakeOneMore(run, n - 1);
      OneBatchStep(cfg, run[..n - 1], run[n - 1], p);
    } else {
      assert run[..n] == [];
    }
  }

  lemma {:induction false} EqualsBatchWhileOnTime(cfg: WindowConfig, run: seq<StreamItem>, n: nat)
    requires OnTime(cfg, run) && n <= |run|
    ensures EqualsBatch(cfg, run[..n])
  {
    forall p | SizedPane(cfg, p) ensures ExactFor(cfg, run[..n], p) {
      OperatorRefinesPaneMachine(cfg, run[..n], p);
      OneBatchPerPane(cfg, run, n, p);
      var group := GroupOf(cfg, run[..n], p);
      if group != [] && Passed(run[..n], p.window.end) {
        assert Closed(cfg, run[..n], p) == [group];
        assert BatchResults(cfg, p, [group]) == [] + PaneResult(cfg, p, group);
      }
    }
  }

  /** A late record leaves its pane buffered although a watermark has passed it. */
  lemma LateRecordDiffersFromBatch(cfg: WindowConfig, run: seq<StreamItem>, r: Record, w: Window)
    requires w in Assign(cfg.assigner, r.timestamp) && Passed(run, w.end)
    ensures !EqualsBatch(cfg, run + [Data(r)])
  {
    var p, longer := Pane(r.key, w), run + [Data(r)];
    AssignedWindowsContain(cfg.assigner, r.timestamp, w);
    OperatorRefinesPaneMachine(cfg, longer, p);
    PassedStep(longer, |run|, w.end);
    assert longer[..|run|] == run && longer[..|run| + 1] == longer;
    OnRecord(cfg, run, r, p);
    PassedButBuffered(cfg, longer, p);
  }

  lemma {:induction false} PassedButBuffered(cfg: WindowConfig, run: seq<StreamItem>, p: Pane)
    requires SizedPane(cfg, p) && RefinesPaneMachine(cfg, run, p)
    requires Passed(run, p.window.end) && GroupOf(cfg, run, p) != [] && Open(cfg, run, p) != []
    ensures !EqualsBatch(cfg, run)
  {
    assert Buffered(StateAfter(cfg, run), p) != [];
    assert !ExactFor(cfg, run, p);
  }

  lemma LateRunDiffersFromBatch(cfg: WindowConfig, run: seq<StreamItem>, n: nat, w: Window)
    requires n < |run| && run[n].Data? && w in Assign(cfg.assigner, run[n].record.timestamp) && Passed(run[..n], w.end)
    ensures !EqualsBatch(cfg, run[..n + 1])
  {
    TakeOneMore(run, n);
    LateRecordDiffersFromBatch(cfg, run[..n], run[n].record, w);
  }

  /** At every moment of a run the streaming result equals the batch result, if and only if no
      record is late. */
  lemma StreamingEqualsBatchIff(cfg: WindowConfig, run: seq<StreamItem>)
    ensures (forall n :: 0 <= n <= |run| ==> EqualsBatch(cfg, run[..n])) <==> OnTime(cfg, run)
  {
    if OnTime(cfg, run) {
      forall n | 0 <= n <= |run| ensures EqualsBatch(cfg, run[..n]) {
        EqualsBatchWhileOnTime(cfg, run, n);
      }
    } else {
      var n: nat, w :| n < |run| && run[n].Data? && w in Assign(cfg.assigner, run[n].record.timestamp)
        && Passed(run[..n], w.end);
      LateRunDiffersFromBatch(cfg, run, n, w);
    }
  }
}
