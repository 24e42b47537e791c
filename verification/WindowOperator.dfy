/** The windowing operator (taskmanager/operators/stateful.py:147-262). */
module WindowOperators {
  import opened Common
  import opened Records
  import opened Windows

  datatype WindowConfig = WindowConfig(assigner: Assigner, reduce: Option<(Value, Value) -> Value>)

  /** One buffer: a key in a window. */
  datatype Pane = Pane(key: Key, window: Window)

  /** The buffers, with their keys in the insertion order of the source's dictionary. */
  datatype WindowState = WindowState(order: seq<Pane>, panes: map<Pane, seq<Value>>, watermark: int)

  const NO_WINDOWS := WindowState([], map[], 0)

  function Buffered(s: WindowState, p: Pane): seq<Value> {
    if p in s.panes then s.panes[p] else []
  }

  function AddToPane(s: WindowState, p: Pane, v: Value): WindowState {
    s.(order := if p in s.panes then s.order else s.order + [p],
       panes := s.panes[p := Buffered(s, p) + [v]])
  }

  function AddToAll(s: WindowState, key: Key, windows: seq<Window>, v: Value): WindowState {
    if windows == [] then s
    else
      var n := |windows| - 1;
      AddToPane(AddToAll(s, key, windows[..n], v), Pane(key, windows[n]), v)
  }

  function AfterElement(cfg: WindowConfig, s: WindowState, r: Record): WindowState {
    AddToAll(s, r.key, Assign(cfg.assigner, r.timestamp), r.value)
  }

  function FoldLeft(f: (Value, Value) -> Value, vs: seq<Value>): Value
    requires vs != []
  {
    var n := |vs| - 1;
    if n == 0 then vs[0] else f(FoldLeft(f, vs[..n]), vs[n])
  }

  /** The running values of a loop that starts from the first element and takes in the others in turn. */
  ghost predicate IsTrace(f: (Value, Value) -> Value, vs: seq<Value>, accs: seq<Value>) {
    && |accs| == |vs| > 0 && accs[0] == vs[0]
    && forall k :: 0 < k < |vs| ==> accs[k] == f(accs[k - 1], vs[k])
  }

  /** What a window stands for: the list of its values, or the last running value. */
  ghost predicate IsCombined(reduce: Option<(Value, Value) -> Value>, vs: seq<Value>, v: Value) {
    match reduce
    case None => v == Items(vs)
    case Some(f) => exists accs :: IsTrace(f, vs, accs) && v == accs[|vs| - 1]
  }

  lemma {:induction false} FoldHasTrace(f: (Value, Value) -> Value, vs: seq<Value>) returns (accs: seq<Value>)
    requires vs != []
    ensures IsTrace(f, vs, accs) && accs[|vs| - 1] == FoldLeft(f, vs)
    decreases |vs|
  {
    var n := |vs| - 1;
    if n == 0 {
      accs := [vs[0]];
    } else {
      var before := FoldHasTrace(f, vs[..n]);
      accs := before + [f(before[n - 1], vs[n])];
    }
  }

  lemma {:induction false} TraceIsUnique(f: (Value, Value) -> Value, vs: seq<Value>, accs: seq<Value>, k: nat)
    requires IsTrace(f, vs, accs) && k < |vs|
    ensures accs[k] == FoldLeft(f, vs[..k + 1])
  {
    if k == 0 {
    } else {
      TraceIsUnique(f, vs, accs, k - 1);
      assert vs[..k + 1][..k] == vs[..k];
    }
  }

  /** The aggregate of a window's values is what the window stands for, and nothing else is. */
  lemma AggregateIsCombined(cfg: WindowConfig, vs: seq<Value>, v: Value)
    requires vs != []
    ensures IsCombined(cfg.reduce, vs, v) <==> v == Aggregate(cfg, vs)
  {
    if cfg.reduce.Some? {
      var accs := FoldHasTrace(cfg.reduce.value, vs);
      assert vs[..|vs|] == vs;
      if IsCombined(cfg.reduce, vs, v) {
        var others :| IsTrace(cfg.reduce.value, vs, others) && v == others[|vs| - 1];
        TraceIsUnique(cfg.reduce.value, vs, others, |vs| - 1);
      }
    }
  }

  function Aggregate(cfg: WindowConfig, vs: seq<Value>): Value
    requires vs != []
  {
    match cfg.reduce
    case None => Items(vs)
    case Some(f) => FoldLeft(f, vs)
  }

  function PaneResult(cfg: WindowConfig, p: Pane, vs: seq<Value>): seq<Record> {
    if vs == [] then [] else [Record(Aggregate(cfg, vs), p.key, p.window.end)]
  }

  function Due(t: int): Pane -> bool {
    (p: Pane) => p.window.end <= t
  }

  function NotDue(t: int): Pane -> bool {
    (p: Pane) => p.window.end > t
  }

  function Results(cfg: WindowConfig, s: WindowState, ps: seq<Pane>): seq<Record> {
    if ps == [] then []
    else
      var n := |ps| - 1;
      Results(cfg, s, ps[..n]) + PaneResult(cfg, ps[n], Buffered(s, ps[n]))
  }

  function FiredBy(cfg: WindowConfig, s: WindowState, t: int): seq<Record> {
    Results(cfg, s, Filter(Due(t), s.order))
  }

  function AfterWatermark(s: WindowState, t: int): WindowState {
    WindowState(Filter(NotDue(t), s.order), s.panes - SetOf(Filter(Due(t), s.order)), t)
  }

  ghost predicate IsDictionary(s: WindowState) {
    Distinct(s.order) && SetOf(s.order) == s.panes.Keys
  }

  lemma {:induction false} ResultsIgnoreWatermark(cfg: WindowConfig, s: WindowState, w: int, ps: seq<Pane>)
    ensures Results(cfg, s.(watermark := w), ps) == Results(cfg, s, ps)
    decreases |ps|
  {
    if ps == [] {
    } else {
      ResultsIgnoreWatermark(cfg, s, w, ps[..|ps| - 1]);
    }
  }

  lemma {:induction false} ResultsStep(cfg: WindowConfig, s: WindowState, ps: seq<Pane>, k: nat)
    requires k < |ps|
    ensures Results(cfg, s, ps[..k + 1]) == Results(cfg, s, ps[..k]) + PaneResult(cfg, ps[k], Buffered(s, ps[k]))
  {
    assert ps[..k + 1][..k] == ps[..k];
  }

  lemma StillBuffered(s: WindowState, ps: seq<Pane>, k: nat)
    requires Distinct(ps) && k < |ps|
    ensures ps[..k + 1][..k] == ps[..k]
    ensures s.panes - SetOf(ps[..k]) - {ps[k]} == s.panes - SetOf(ps[..k + 1])
    ensures forall order, w :: Buffered(WindowState(order, s.panes - SetOf(ps[..k]), w), ps[k]) == Buffered(s, ps[k])
  {
    assert ps[..k + 1] == ps[..k] + [ps[k]];
    assert SetOf(ps[..k + 1]) == SetOf(ps[..k]) + {ps[k]};
    assert ps[k] !in ps[..k];
  }

  lemma AddKeepsDictionary(s: WindowState, q: Pane, v: Value)
    requires IsDictionary(s)
    ensures IsDictionary(AddToPane(s, q, v))
  {
    assert q in SetOf(s.order) <==> q in s.panes;
    assert SetOf(AddToPane(s, q, v).order) == SetOf(s.order) + {q};
  }

  lemma WatermarkKeepsDictionary(s: WindowState, t: int)
    requires IsDictionary(s)
    ensures IsDictionary(AfterWatermark(s, t))
  {
    FilterDistinct(NotDue(t), s.order);
    var kept, due := Filter(NotDue(t), s.order), Filter(Due(t), s.order);
    FilterMembers(NotDue(t), s.order);
    FilterMembers(Due(t), s.order);
    forall p ensures p in SetOf(kept) <==> p in s.panes && p !in SetOf(due) {
      assert p in s.order <==> p in SetOf(s.order);
    }
  }

  class WindowOperator {
    const cfg: WindowConfig
    var order: seq<Pane>
    var windowState: map<Pane, seq<Value>>
    var watermark: int

    ghost function State(): WindowState reads this {
      WindowState(order, windowState, watermark)
    }

    ghost predicate Valid() reads this {
      IsDictionary(State())
    }

    constructor (cfg: WindowConfig)
      ensures Valid() && this.cfg == cfg && State() == NO_WINDOWS
    {
      this.cfg := cfg;
      order, windowState, watermark := [], map[], 0;
    }

    method ProcessElement(r: Record)
      requires Valid()
      modifies this
      ensures Valid() && State() == AfterElement(cfg, old(State()), r)
    {
      var windows := AssignWindows(cfg.assigner, r.timestamp);
      for k := 0 to |windows|
        invariant Valid() && State() == AddToAll(old(State()), r.key, windows[..k], r.value)
      {
        assert windows[..k + 1][..k] == windows[..k];
        Append(Pane(r.key, windows[k]), r.value);
      }
      assert windows[..|windows|] == windows;
    }

    /** Appending through the default dictionary. */
    method Append(p: Pane, v: Value)
      requires Valid()
      modifies this
      ensures Valid() && State() == AddToPane(old(State()), p, v)
    {
      if p !in windowState {
        assert p !in SetOf(order);
        order := order + [p];
        windowState := windowState[p := []];
      }
      windowState := windowState[p := windowState[p] + [v]];
    }

    method ProcessWatermark(t: int) returns (results: seq<Record>)
      requires Valid()
      modifies this
      ensures Valid() && State() == AfterWatermark(old(State()), t)
      ensures results == FiredBy(cfg, old(State()), t)
    {
      watermark := t;
      var toTrigger := CollectDue(t);
      results := TriggerAll(toTrigger);
      ResultsIgnoreWatermark(cfg, old(State()), t, toTrigger);
      WatermarkKeepsDictionary(old(State()), t);
      order := Filter(NotDue(t), order);
    }

    /** The second loop of process_watermark. */
    method TriggerAll(toTrigger: seq<Pane>) returns (results: seq<Record>)
      requires Distinct(toTrigger)
      modifies this`windowState
      ensures windowState == old(windowState) - SetOf(toTrigger)
      ensures results == Results(cfg, old(State()), toTrigger)
    {
      ghost var before := State();
      results := [];
      for k := 0 to |toTrigger|
        invariant windowState == before.panes - SetOf(toTrigger[..k])
        invariant results == Results(cfg, before, toTrigger[..k])
      {
        StillBuffered(before, toTrigger, k);
        ResultsStep(cfg, before, toTrigger, k);
        var result := Trigger(toTrigger[k]);
        results := results + result;
      }
      assert toTrigger[..|toTrigger|] == toTrigger;
    }

    /** One round of the second loop: emit the pane's result and delete it. */
    method Trigger(p: Pane) returns (result: seq<Record>)
      modifies this`windowState
      ensures windowState == old(windowState) - {p}
      ensures result == PaneResult(cfg, p, Buffered(old(State()), p))
    {
      var elements := if p in windowState then windowState[p] else [];
      result := [];
      if elements != [] {
        var combined := Combine(elements);
        result := [Record(combined, p.key, p.window.end)];
      }
      windowState := windowState - {p};
    }

    /** The first loop of process_watermark. */
    method CollectDue(t: int) returns (toTrigger: seq<Pane>)
      requires Valid()
      ensures toTrigger == Filter(Due(t), order) && Distinct(toTrigger)
    {
      toTrigger := [];
      for k := 0 to |order|
        invariant toTrigger == Filter(Due(t), order[..k])
      {
        assert order[..k + 1] == order[..k] + [order[k]];
        FilterSnoc(Due(t), order[..k], order[k]);
        if order[k].window.end <= t {
          toTrigger := toTrigger + [order[k]];
        }
      }
      assert order[..|order|] == order;
      FilterDistinct(Due(t), order);
    }

    method Combine(elements: seq<Value>) returns (result: Value)
      requires elements != []
      ensures IsCombined(cfg.reduce, elements, result) && result == Aggregate(cfg, elements)
    {
      AggregateIsCombined(cfg, elements, Aggregate(cfg, elements));
      match cfg.reduce
      case None => result := Items(elements);
      case Some(f) =>
        result := elements[0];
        assert elements[..1] == [elements[0]];
        for k := 1 to |elements|
          invariant result == FoldLeft(f, elements[..k])
        {
          assert elements[..k + 1][..k] == elements[..k];
          result := f(result, elements[k]);
        }
        assert elements[..|elements|] == elements;
    }

    method SnapshotState() returns (snapshot: WindowState)
      ensures snapshot == State()
    {
      snapshot := WindowState(order, windowState, watermark);
    }

    method RestoreState(snapshot: WindowState)
      requires IsDictionary(snapshot)
      modifies this
      ensures Valid() && State() == snapshot
    {
      order, windowState, watermark := snapshot.order, snapshot.panes, snapshot.watermark;
    }
  }
}
