/** Emitter, generator and window operator together: a source that hands every record to the
    operator and then whatever watermark the periodic emitter gives for it. */
module Pipelines {
  import opened Common
  import opened Records
  import opened Windows
  import opened WindowOperators
  import opened EventTime
  import Watermarks

  /** A record with a positive timestamp, and the clock reading when it arrives. */
  datatype Arrival = Arrival(key: Key, value: Value, timestamp: Positive, now: int)

  function RecordOf(a: Arrival): Record {
    Record(a.value, a.key, a.timestamp)
  }

  function Events(arrivals: seq<Arrival>): (events: seq<Watermarks.Event>)
    ensures |events| == |arrivals|
  {
    seq(|arrivals|, i requires 0 <= i < |arrivals| => Watermarks.Event(arrivals[i].timestamp, arrivals[i].now))
  }

  /** What the operator is fed. */
  function Feed(emitter: Watermarks.EmitterConfig, arrivals: seq<Arrival>): seq<StreamItem> {
    if arrivals == [] then []
    else
      var n := |arrivals| - 1;
      Feed(emitter, arrivals[..n]) + [Data(RecordOf(arrivals[n]))]
      + (match Watermarks.EmittedAt(emitter, Events(arrivals), n)
         case None => []
         case Some(w) => [Mark(w)])
  }

  /** The batch group of a pane: the values of the arrivals assigned to it, in order. No clock,
      no watermark. */
  function BatchGroup(cfg: WindowConfig, arrivals: seq<Arrival>, p: Pane): seq<Value> {
    if arrivals == [] then []
    else
      var n := |arrivals| - 1;
      var a := arrivals[n];
      BatchGroup(cfg, arrivals[..n], p)
      + (if a.key == p.key && p.window in Assign(cfg.assigner, a.timestamp) then [a.value] else [])
  }

  lemma EventsPrefix(arrivals: seq<Arrival>, n: nat)
    requires n <= |arrivals|
    ensures Events(arrivals)[..n] == Events(arrivals[..n])
  {
  }

  ghost predicate MarksAtMost(run: seq<StreamItem>, limit: int) {
    forall i :: 0 <= i < |run| && run[i].Mark? ==> run[i].timestamp <= limit
  }

  /** Every watermark fed so far is at most the largest timestamp minus the bound. */
  lemma {:induction false} MarksTrailTimestamps(emitter: Watermarks.EmitterConfig, arrivals: seq<Arrival>)
    ensures MarksAtMost(Feed(emitter, arrivals), Watermarks.LargestTimestamp(Events(arrivals)) - emitter.bound)
    decreases |arrivals|
  {
    if arrivals == [] {
    } else {
      var n := |arrivals| - 1;
      MarksTrailTimestamps(emitter, arrivals[..n]);
      EventsPrefix(arrivals, n);
      Watermarks.LargestGrows(Events(arrivals), n, n + 1);
      assert Events(arrivals)[..n + 1] == Events(arrivals);
      if Watermarks.EmittedAt(emitter, Events(arrivals), n).Some? {
        Watermarks.EmittedIsLargestMinusBound(emitter, Events(arrivals), n);
      }
    }
  }

  lemma OnTimeStep(cfg: WindowConfig, run: seq<StreamItem>, item: StreamItem)
    requires OnTime(cfg, run)
    requires item.Data? ==> forall w :: w in Assign(cfg.assigner, item.record.timestamp) ==> !Passed(run, w.end)
    ensures OnTime(cfg, run + [item])
  {
    var longer := run + [item];
    forall n, w | 0 <= n < |longer| && longer[n].Data? && w in Assign(cfg.assigner, longer[n].record.timestamp)
      ensures !Passed(longer[..n], w.end)
    {
      if n < |run| {
        assert longer[..n] == run[..n];
      } else {
        assert longer[..n] == run;
      }
    }
  }

  /** An arrival within the bound finds none of its windows passed. */
  lemma {:induction false} LastArrivalIsOnTime(cfg: WindowConfig, emitter: Watermarks.EmitterConfig,
                                               arrivals: seq<Arrival>, w: Window)
    requires Watermarks.WithinBound(emitter, Events(arrivals)) && arrivals != []
    requires w in Assign(cfg.assigner, arrivals[|arrivals| - 1].timestamp)
    ensures !Passed(Feed(emitter, arrivals[..|arrivals| - 1]), w.end)
  {
    var n := |arrivals| - 1;
    EventsPrefix(arrivals, n);
    MarksTrailTimestamps(emitter, arrivals[..n]);
    AssignedWindowsContain(cfg.assigner, arrivals[n].timestamp, w);
    if n > 0 {
      assert Events(arrivals)[n].timestamp >= Watermarks.LargestTimestamp(Events(arrivals)[..n]) - emitter.bound;
    } else {
      assert Feed(emitter, arrivals[..n]) == [];
    }
  }

  lemma {:induction false} LastRecordIsOnTime(cfg: WindowConfig, emitter: Watermarks.EmitterConfig,
                                              arrivals: seq<Arrival>)
    requires Watermarks.WithinBound(emitter, Events(arrivals)) && arrivals != []
    requires OnTime(cfg, Feed(emitter, arrivals[..|arrivals| - 1]))
    ensures var n := |arrivals| - 1;
            OnTime(cfg, Feed(emitter, arrivals[..n]) + [Data(RecordOf(arrivals[n]))])
  {
    var n := |arrivals| - 1;
    forall w | w in Assign(cfg.assigner, arrivals[n].timestamp) ensures !Passed(Feed(emitter, arrivals[..n]), w.end) {
      LastArrivalIsOnTime(cfg, emitter, arrivals, w);
    }
    OnTimeStep(cfg, Feed(emitter, arrivals[..n]), Data(RecordOf(arrivals[n])));
  }

  /** The generator's bound makes the operator's input on time. */
  lemma {:induction false} BoundedArrivalsAreOnTime(cfg: WindowConfig, emitter: Watermarks.EmitterConfig,
                                                    arrivals: seq<Arrival>)
    requires Watermarks.WithinBound(emitter, Events(arrivals))
    ensures OnTime(cfg, Feed(emitter, arrivals))
    decreases |arrivals|
  {
    if arrivals == [] {
    } else {
      var n := |arrivals| - 1;
      EventsPrefix(arrivals, n);
      PrefixWithinBound(emitter, arrivals, n);
      BoundedArrivalsAreOnTime(cfg, emitter, arrivals[..n]);
      var run, r := Feed(emitter, arrivals[..n]), RecordOf(arrivals[n]);
      LastRecordIsOnTime(cfg, emitter, arrivals);
      if Watermarks.EmittedAt(emitter, Events(arrivals), n).Some? {
        OnTimeStep(cfg, run + [Data(r)], Mark(Watermarks.EmittedAt(emitter, Events(arrivals), n).value));
      }
    }
  }

  lemma PrefixWithinBound(emitter: Watermarks.EmitterConfig, arrivals: seq<Arrival>, n: nat)
    requires n <= |arrivals| && Watermarks.WithinBound(emitter, Events(arrivals))
    ensures Watermarks.WithinBound(emitter, Events(arrivals[..n]))
  {
    EventsPrefix(arrivals, n);
    var events := Events(arrivals[..n]);
    forall k | 0 < k < |events|
      ensures events[k].timestamp >= Watermarks.LargestTimestamp(events[..k]) - emitter.bound
    {
      assert events[..k] == Events(arrivals)[..k];
    }
  }

  lemma {:induction false} GroupAfterLast(cfg: WindowConfig, emitter: Watermarks.EmitterConfig, arrivals: seq<Arrival>,
                                          p: Pane)
    requires arrivals != []
    ensures var n := |arrivals| - 1;
            GroupOf(cfg, Feed(emitter, arrivals), p)
            == GroupOf(cfg, Feed(emitter, arrivals[..n]) + [Data(RecordOf(arrivals[n]))], p)
  {
    var n := |arrivals| - 1;
    var run := Feed(emitter, arrivals[..n]) + [Data(RecordOf(arrivals[n]))];
    match Watermarks.EmittedAt(emitter, Events(arrivals), n)
    case None => assert Feed(emitter, arrivals) == run;
    case Some(w) => OnWatermark(cfg, run, w, p);
  }

  lemma {:induction false} GroupsIgnoreWatermarks(cfg: WindowConfig, emitter: Watermarks.EmitterConfig,
                                                  arrivals: seq<Arrival>, p: Pane)
    ensures GroupOf(cfg, Feed(emitter, arrivals), p) == BatchGroup(cfg, arrivals, p)
    decreases |arrivals|
  {
    if arrivals == [] {
    } else {
      var n := |arrivals| - 1;
      GroupsIgnoreWatermarks(cfg, emitter, arrivals[..n], p);
      GroupAfterLast(cfg, emitter, arrivals, p);
      OnRecord(cfg, Feed(emitter, arrivals[..n]), RecordOf(arrivals[n]), p);
      assert BatchGroup(cfg, arrivals[..n], p) + [] == BatchGroup(cfg, arrivals[..n], p);
    }
  }

  function LastWatermark(run: seq<StreamItem>): Option<int> {
    if run == [] then None
    else if run[|run| - 1].Mark? then Some(run[|run| - 1].timestamp)
    else LastWatermark(run[..|run| - 1])
  }

  ghost predicate LastIsLargest(run: seq<StreamItem>) {
    match LastWatermark(run)
    case None => forall i :: 0 <= i < |run| ==> run[i].Data?
    case Some(w) => MarksAtMost(run, w) && Passed(run, w)
  }

  lemma LastIsLargestStep(run: seq<StreamItem>, item: StreamItem)
    requires LastIsLargest(run)
    requires item.Mark? ==> MarksAtMost(run, item.timestamp)
    ensures LastIsLargest(run + [item])
  {
    var longer := run + [item];
    assert longer[..|run|] == run && longer[|run|] == item;
    if item.Data? && LastWatermark(run).Some? {
      PassedStep(longer, |run|, LastWatermark(run).value);
      assert longer[..|run| + 1] == longer;
    }
  }

  lemma {:induction false} FedWatermarksIncrease(emitter: Watermarks.EmitterConfig, arrivals: seq<Arrival>)
    ensures LastIsLargest(Feed(emitter, arrivals))
    decreases |arrivals|
  {
    if arrivals == [] {
    } else {
      var n := |arrivals| - 1;
      FedWatermarksIncrease(emitter, arrivals[..n]);
      var run, r := Feed(emitter, arrivals[..n]), RecordOf(arrivals[n]);
      LastIsLargestStep(run, Data(r));
      if Watermarks.EmittedAt(emitter, Events(arrivals), n).Some? {
        EventsPrefix(arrivals, n);
        MarksTrailTimestamps(emitter, arrivals[..n]);
        Watermarks.EmittedIsLargestMinusBound(emitter, Events(arrivals), n);
        Watermarks.LargestGrows(Events(arrivals), n, n + 1);
        LastIsLargestStep(run + [Data(r)], Mark(Watermarks.EmittedAt(emitter, Events(arrivals), n).value));
      } else {
        assert Feed(emitter, arrivals) == run + [Data(r)];
      }
    }
  }

  lemma {:induction false} ElementsLeaveWatermark(s: WindowState, key: Key, windows: seq<Window>, v: Value)
    ensures AddToAll(s, key, windows, v).watermark == s.watermark
    decreases |windows|
  {
    if windows == [] {
    } else {
      ElementsLeaveWatermark(s, key, windows[..|windows| - 1], v);
    }
  }

  /** The operator remembers the last watermark it got, larger or smaller than those before. */
  lemma {:induction false} LastWatermarkIsRemembered(cfg: WindowConfig, run: seq<StreamItem>)
    ensures StateAfter(cfg, run).watermark
            == match LastWatermark(run)
               case None => 0
               case Some(w) => w
    decreases |run|
  {
    if run == [] {
    } else {
      var n := |run| - 1;
      LastWatermarkIsRemembered(cfg, run[..n]);
      if run[n].Data? {
        var r := run[n].record;
        ElementsLeaveWatermark(StateAfter(cfg, run[..n]), r.key, Assign(cfg.assigner, r.timestamp), r.value);
      }
    }
  }

  /** With every arrival within the bound, and any clock readings: a pane whose end the last
      watermark has reached and that has any values has been emitted exactly once, stamped with its
      end, with what its values in arrival order combine to; every other pane has emitted nothing and
      buffers exactly its batch group. */
  lemma {:induction false} PipelineEqualsBatch(cfg: WindowConfig, emitter: Watermarks.EmitterConfig,
                                               arrivals: seq<Arrival>, p: Pane)
    requires Watermarks.WithinBound(emitter, Events(arrivals)) && SizedPane(cfg, p)
    ensures var run, group := Feed(emitter, arrivals), BatchGroup(cfg, arrivals, p);
            var reached := LastWatermark(run).Some? && p.window.end <= LastWatermark(run).value;
            var results := Filter(ResultFor(p), OutputOf(cfg, run));
            && Buffered(StateAfter(cfg, run), p) == (if reached then [] else group)
            && |results| == (if reached && group != [] then 1 else 0)
            && forall r :: r in results ==>
                 r.key == p.key && r.timestamp == p.window.end && IsCombined(cfg.reduce, group, r.value)
  {
    var run, group := Feed(emitter, arrivals), BatchGroup(cfg, arrivals, p);
    BoundedArrivalsAreOnTime(cfg, emitter, arrivals);
    EqualsBatchWhileOnTime(cfg, run, |run|);
    assert run[..|run|] == run;
    assert ExactFor(cfg, run, p);
    GroupsIgnoreWatermarks(cfg, emitter, arrivals, p);
    FedWatermarksIncrease(emitter, arrivals);
    if group != [] {
      AggregateIsCombined(cfg, group, Aggregate(cfg, group));
    }
  }
}
