/** The order in which windows fire (taskmanager/operators/stateful.py:198-247): the buffers are a
    dictionary, and what it lists first is what was put in first. */
module FiringOrders {
  import opened Common
  import opened Records
  import opened Windows
  import opened WindowOperators
  import opened EventTime

  /** The position of the record that opened the pane, if it is open: the first one assigned to it since
      a watermark last passed it. */
  function OpenedAt(cfg: WindowConfig, run: seq<StreamItem>, p: Pane): Option<nat> {
    if run == [] then None
    else
      var n := |run| - 1;
      var before := OpenedAt(cfg, run[..n], p);
      match run[n]
      case Data(r) => if before.None? && Assigned(cfg, r, p) then Some(n) else before
      case Mark(t) => if p.window.end <= t then None else before
  }

  /** By the record that opened it, then by the start of the window. */
  predicate OpenedBefore(cfg: WindowConfig, run: seq<StreamItem>, p: Pane, q: Pane) {
    var i, j := OpenedAt(cfg, run, p), OpenedAt(cfg, run, q);
    i.Some? && j.Some? && (i.value < j.value || (i.value == j.value && p.window.start < q.window.start))
  }

  predicate InOpeningOrder(cfg: WindowConfig, run: seq<StreamItem>, ps: seq<Pane>) {
    forall i, j :: 0 <= i < j < |ps| ==> OpenedBefore(cfg, run, ps[i], ps[j])
  }

  /** The panes that a record opens, in the order of its windows. */
  function NewPanes(s: WindowState, key: Key, windows: seq<Window>): seq<Pane> {
    if windows == [] then []
    else
      var n := |windows| - 1;
      var p := Pane(key, windows[n]);
      if p in s.panes then NewPanes(s, key, windows[..n]) else NewPanes(s, key, windows[..n]) + [p]
  }

  lemma {:induction false} AddToAllKeys(s: WindowState, key: Key, windows: seq<Window>, v: Value)
    ensures forall p :: p in AddToAll(s, key, windows, v).panes
              <==> p in s.panes || (p.key == key && p.window in windows)
    decreases |windows|
  {
    if windows == [] {
    } else {
      var n := |windows| - 1;
      AddToAllKeys(s, key, windows[..n], v);
      assert forall w :: w in windows <==> w in windows[..n] || w == windows[n];
    }
  }

  lemma {:induction false} AddToAllOrder(s: WindowState, key: Key, windows: seq<Window>, v: Value)
    requires Distinct(windows)
    ensures AddToAll(s, key, windows, v).order == s.order + NewPanes(s, key, windows)
    decreases |windows|
  {
    if windows == [] {
      assert s.order + [] == s.order;
    } else {
      var n := |windows| - 1;
      AddToAllOrder(s, key, windows[..n], v);
      AddToAllKeys(s, key, windows[..n], v);
      assert windows[n] !in windows[..n];
      Reassociate(s.order, NewPanes(s, key, windows[..n]), [Pane(key, windows[n])]);
    }
  }

  lemma {:induction false} NewPanesAreNew(s: WindowState, key: Key, windows: seq<Window>)
    ensures forall p :: p in NewPanes(s, key, windows) ==> p !in s.panes && p.key == key && p.window in windows
    decreases |windows|
  {
    if windows == [] {
    } else {
      var n := |windows| - 1;
      NewPanesAreNew(s, key, windows[..n]);
      assert forall w :: w in windows <==> w in windows[..n] || w == windows[n];
    }
  }

  ghost predicate StartsIncrease(ps: seq<Pane>) {
    forall i, j :: 0 <= i < j < |ps| ==> ps[i].window.start < ps[j].window.start
  }

  lemma {:induction false} NewPanesIncrease(s: WindowState, key: Key, windows: seq<Window>)
    requires forall i, j :: 0 <= i < j < |windows| ==> windows[i].start < windows[j].start
    ensures StartsIncrease(NewPanes(s, key, windows))
    decreases |windows|
  {
    if windows == [] {
    } else {
      var n := |windows| - 1;
      NewPanesIncrease(s, key, windows[..n]);
      NewPanesAreNew(s, key, windows[..n]);
      var before := NewPanes(s, key, windows[..n]);
      forall i | 0 <= i < |before| ensures before[i].window.start < windows[n].start {
        assert before[i] in before;
        var m :| 0 <= m < n && windows[..n][m] == before[i].window;
        assert windows[m].start < windows[n].start;
      }
      assert StartsIncrease(before + [Pane(key, windows[n])]);
    }
  }

  /** Open panes are those buffered, and the buffers are in the order in which the panes were opened. */
  ghost predicate OrderIsOpeningOrder(cfg: WindowConfig, run: seq<StreamItem>) {
    var s := StateAfter(cfg, run);
    && IsDictionary(s)
    && (forall p :: p in s.panes <==> OpenedAt(cfg, run, p).Some?)
    && (forall p :: p in s.panes ==> OpenedAt(cfg, run, p).value < |run|)
    && InOpeningOrder(cfg, run, s.order)
  }

  lemma {:induction false} OpenedOnRecord(cfg: WindowConfig, run: seq<StreamItem>, r: Record, p: Pane)
    ensures OpenedAt(cfg, run + [Data(r)], p)
            == if OpenedAt(cfg, run, p).None? && Assigned(cfg, r, p) then Some(|run|) else OpenedAt(cfg, run, p)
  {
    assert (run + [Data(r)])[..|run|] == run;
  }

  lemma {:induction false} OpenedOnWatermark(cfg: WindowConfig, run: seq<StreamItem>, t: int, p: Pane)
    ensures OpenedAt(cfg, run + [Mark(t)], p) == if p.window.end <= t then None else OpenedAt(cfg, run, p)
  {
    assert (run + [Mark(t)])[..|run|] == run;
  }

  lemma {:induction false} AppendOpened(cfg: WindowConfig, run: seq<StreamItem>, r: Record, earlier: seq<Pane>,
                                        more: seq<Pane>)
    requires InOpeningOrder(cfg, run, earlier)
    requires forall p :: p in earlier ==> OpenedAt(cfg, run, p).Some? && OpenedAt(cfg, run, p).value < |run|
    requires forall p :: p in more ==> OpenedAt(cfg, run, p).None? && Assigned(cfg, r, p)
    requires StartsIncrease(more)
    ensures InOpeningOrder(cfg, run + [Data(r)], earlier + more)
  {
    var all, longer := earlier + more, run + [Data(r)];
    forall i, j | 0 <= i < j < |all| ensures OpenedBefore(cfg, longer, all[i], all[j]) {
      OpenedOnRecord(cfg, run, r, all[i]);
      OpenedOnRecord(cfg, run, r, all[j]);
      assert all[i] in earlier || all[i] in more;
      assert all[j] in earlier || all[j] in more;
      if j < |earlier| {
        assert OpenedBefore(cfg, run, earlier[i], earlier[j]);
      }
    }
  }

  lemma {:induction false} AddToAllKeepsDictionary(s: WindowState, key: Key, windows: seq<Window>, v: Value)
    requires IsDictionary(s)
    ensures IsDictionary(AddToAll(s, key, windows, v))
    decreases |windows|
  {
    if windows == [] {
    } else {
      var n := |windows| - 1;
      AddToAllKeepsDictionary(s, key, windows[..n], v);
      AddKeepsDictionary(AddToAll(s, key, windows[..n], v), Pane(key, windows[n]), v);
    }
  }

  /** A record adds its new panes at the end. */
  lemma {:induction false} RecordOpens(cfg: WindowConfig, s: WindowState, r: Record)
    requires IsDictionary(s)
    ensures var after := AfterElement(cfg, s, r);
            var more := NewPanes(s, r.key, Assign(cfg.assigner, r.timestamp));
            && IsDictionary(after) && after.order == s.order + more && StartsIncrease(more)
            && (forall p :: p in more ==> p !in s.panes && Assigned(cfg, r, p))
            && forall p :: p in after.panes <==> p in s.panes || Assigned(cfg, r, p)
  {
    var windows := Assign(cfg.assigner, r.timestamp);
    AssignIsSound(cfg.assigner, r.timestamp);
    AddToAllOrder(s, r.key, windows, r.value);
    AddToAllKeys(s, r.key, windows, r.value);
    NewPanesAreNew(s, r.key, windows);
    NewPanesIncrease(s, r.key, windows);
    AddToAllKeepsDictionary(s, r.key, windows, r.value);
  }

  lemma OrderIsListed(s: WindowState)
    requires IsDictionary(s)
    ensures forall p :: p in s.order <==> p in s.panes
  {
    forall p ensures p in s.order <==> p in s.panes {
      assert p in s.order <==> p in SetOf(s.order);
    }
  }

  lemma OpeningOrderOnRecord(cfg: WindowConfig, run: seq<StreamItem>, r: Record)
    requires OrderIsOpeningOrder(cfg, run)
    ensures OrderIsOpeningOrder(cfg, run + [Data(r)])
  {
    var s, longer := StateAfter(cfg, run), run + [Data(r)];
    assert longer[..|run|] == run;
    RecordOpens(cfg, s, r);
    OrderIsListed(s);
    forall p
      ensures OpenedAt(cfg, longer, p)
              == if OpenedAt(cfg, run, p).None? && Assigned(cfg, r, p) then Some(|run|) else OpenedAt(cfg, run, p)
    {
      OpenedOnRecord(cfg, run, r, p);
    }
    AppendOpened(cfg, run, r, s.order, NewPanes(s, r.key, Assign(cfg.assigner, r.timestamp)));
  }

  lemma {:induction false} FilterInOrder(cfg: WindowConfig, run: seq<StreamItem>, keep: Pane -> bool, ps: seq<Pane>)
    requires InOpeningOrder(cfg, run, ps)
    ensures InOpeningOrder(cfg, run, Filter(keep, ps))
  {
    if ps == [] {
    } else {
      var rest := Filter(keep, ps[1..]);
      forall i, j | 0 <= i < j < |ps[1..]| ensures OpenedBefore(cfg, run, ps[1..][i], ps[1..][j]) {
        assert OpenedBefore(cfg, run, ps[i + 1], ps[j + 1]);
      }
      FilterInOrder(cfg, run, keep, ps[1..]);
      FilterMembers(keep, ps[1..]);
      forall j | 0 <= j < |rest| ensures OpenedBefore(cfg, run, ps[0], rest[j]) {
        assert rest[j] in ps[1..];
        var k :| 0 <= k < |ps[1..]| && ps[1..][k] == rest[j];
        assert OpenedBefore(cfg, run, ps[0], ps[k + 1]);
      }
    }
  }

  lemma OpeningOrderOnWatermark(cfg: WindowConfig, run: seq<StreamItem>, t: int)
    requires OrderIsOpeningOrder(cfg, run)
    ensures OrderIsOpeningOrder(cfg, run + [Mark(t)])
  {
    var s, longer := StateAfter(cfg, run), run + [Mark(t)];
    assert longer[..|run|] == run;
    WatermarkKeepsDictionary(s, t);
    FilterMembers(Due(t), s.order);
    FilterMembers(NotDue(t), s.order);
    FilterInOrder(cfg, run, NotDue(t), s.order);
    forall p ensures OpenedAt(cfg, longer, p) == if p.window.end <= t then None else OpenedAt(cfg, run, p) {
      OpenedOnWatermark(cfg, run, t, p);
    }
    OrderIsListed(s);
    var kept := Filter(NotDue(t), s.order);
    forall i, j | 0 <= i < j < |kept| ensures OpenedBefore(cfg, longer, kept[i], kept[j]) {
      assert kept[i] in kept && kept[j] in kept && OpenedBefore(cfg, run, kept[i], kept[j]);
    }
  }

  lemma {:induction false} BuffersAreInOpeningOrder(cfg: WindowConfig, run: seq<StreamItem>)
    ensures OrderIsOpeningOrder(cfg, run)
    decreases |run|
  {
    if run == [] {
    } else {
      var n := |run| - 1;
      BuffersAreInOpeningOrder(cfg, run[..n]);
      TakeOneMore(run, n);
      assert run[..n + 1] == run;
      match run[n]
      case Data(r) => OpeningOrderOnRecord(cfg, run[..n], r);
      case Mark(t) => OpeningOrderOnWatermark(cfg, run[..n], t);
    }
  }

  lemma {:induction false} OneResultEach(cfg: WindowConfig, s: WindowState, ps: seq<Pane>)
    requires forall p :: p in ps ==> Buffered(s, p) != []
    ensures var out := Results(cfg, s, ps);
            && |out| == |ps|
            && forall k :: 0 <= k < |ps| ==> out[k].key == ps[k].key && out[k].timestamp == ps[k].window.end
    decreases |ps|
  {
    if ps == [] {
    } else {
      var n := |ps| - 1;
      OneResultEach(cfg, s, ps[..n]);
      assert ps[n] in ps;
    }
  }

  /** The results of a watermark, one for each open pane that it passes, come in the order in which the
      panes were opened. */
  lemma FiringOrder(cfg: WindowConfig, run: seq<StreamItem>, t: int) returns (panes: seq<Pane>)
    ensures InOpeningOrder(cfg, run, panes)
    ensures forall p :: p in panes <==> OpenedAt(cfg, run, p).Some? && p.window.end <= t
    ensures var out := FiredBy(cfg, StateAfter(cfg, run), t);
            && |out| == |panes|
            && forall k :: 0 <= k < |panes| ==> out[k].key == panes[k].key && out[k].timestamp == panes[k].window.end
  {
    var s := StateAfter(cfg, run);
    panes := Filter(Due(t), s.order);
    BuffersAreInOpeningOrder(cfg, run);
    FilterInOrder(cfg, run, Due(t), s.order);
    FilterMembers(Due(t), s.order);
    OrderIsListed(s);
    NoPaneIsEmpty(cfg, run);
    OneResultEach(cfg, s, panes);
  }

  lemma {:induction false} NoPaneIsEmpty(cfg: WindowConfig, run: seq<StreamItem>)
    ensures forall p :: p in StateAfter(cfg, run).panes ==> StateAfter(cfg, run).panes[p] != []
    decreases |run|
  {
    if run == [] {
    } else {
      var n := |run| - 1;
      NoPaneIsEmpty(cfg, run[..n]);
      if run[n].Data? {
        var r := run[n].record;
        AddToAllFills(StateAfter(cfg, run[..n]), r.key, Assign(cfg.assigner, r.timestamp), r.value);
      }
    }
  }

  lemma {:induction false} AddToAllFills(s: WindowState, key: Key, windows: seq<Window>, v: Value)
    requires forall p :: p in s.panes ==> s.panes[p] != []
    ensures forall p :: p in AddToAll(s, key, windows, v).panes ==> AddToAll(s, key, windows, v).panes[p] != []
    decreases |windows|
  {
    if windows == [] {
    } else {
      AddToAllFills(s, key, windows[..|windows| - 1], v);
    }
  }
}
