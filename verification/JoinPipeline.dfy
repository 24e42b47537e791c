/** Emitter, generator and join together: the records of both sides go to the join as they arrive, and
    after each whatever watermark the periodic emitter gives for it. */
module JoinPipelines {
  import opened Common
  import opened Records
  import opened JoinOperators
  import opened JoinRuns
  import opened Pipelines
  import Watermarks

  datatype SidedArrival = SidedArrival(isLeft: bool, arrival: Pipelines.Arrival)

  function EventOf(a: SidedArrival): Watermarks.Event {
    Watermarks.Event(a.arrival.timestamp, a.arrival.now)
  }

  function EventsOf(arrivals: seq<SidedArrival>): (events: seq<Watermarks.Event>)
    ensures |events| == |arrivals|
  {
    seq(|arrivals|, i requires 0 <= i < |arrivals| => EventOf(arrivals[i]))
  }

  function JoinEventOf(a: SidedArrival): JoinEvent {
    JoinEvent.Arrival(a.isLeft, RecordOf(a.arrival))
  }

  /** The arrivals alone, with no watermark and hence no eviction. */
  function Bare(arrivals: seq<SidedArrival>): (run: seq<JoinEvent>)
    ensures |run| == |arrivals|
  {
    seq(|arrivals|, i requires 0 <= i < |arrivals| => JoinEventOf(arrivals[i]))
  }

  /** What the join is fed. */
  function FeedJoin(emitter: Watermarks.EmitterConfig, arrivals: seq<SidedArrival>): seq<JoinEvent> {
    if arrivals == [] then []
    else
      var n := |arrivals| - 1;
      FeedJoin(emitter, arrivals[..n]) + [JoinEventOf(arrivals[n])] + WatermarkFor(emitter, EventsOf(arrivals))
  }

  /** The watermark emitted with the last of some events, if any. */
  function WatermarkFor(emitter: Watermarks.EmitterConfig, events: seq<Watermarks.Event>): seq<JoinEvent>
    requires events != []
  {
    match Watermarks.EmittedAt(emitter, events, |events| - 1)
    case None => []
    case Some(w) => [Watermark(w)]
  }

  ghost predicate WatermarksAtMost(run: seq<JoinEvent>, limit: int) {
    forall i :: 0 <= i < |run| && run[i].Watermark? ==> run[i].timestamp <= limit
  }

  lemma EventsPrefix(arrivals: seq<SidedArrival>, n: nat)
    requires n <= |arrivals|
    ensures EventsOf(arrivals)[..n] == EventsOf(arrivals[..n])
  {
  }

  /** Every watermark fed so far is at most the largest timestamp minus the bound. */
  lemma {:induction false} WatermarksTrail(emitter: Watermarks.EmitterConfig, arrivals: seq<SidedArrival>)
    ensures WatermarksAtMost(FeedJoin(emitter, arrivals),
            Watermarks.LargestTimestamp(EventsOf(arrivals)) - emitter.bound)
    decreases |arrivals|
  {
    if arrivals == [] {
    } else {
      var n, events := |arrivals| - 1, EventsOf(arrivals);
      WatermarksTrail(emitter, arrivals[..n]);
      EventsPrefix(arrivals, n);
      Watermarks.LargestGrows(events, n, n + 1);
      assert events[..n + 1] == events;
      if Watermarks.EmittedAt(emitter, events, n).Some? {
        Watermarks.EmittedIsLargestMinusBound(emitter, events, n);
      }
    }
  }

  lemma PrefixWithinBound(emitter: Watermarks.EmitterConfig, arrivals: seq<SidedArrival>, n: nat)
    requires n <= |arrivals| && Watermarks.WithinBound(emitter, EventsOf(arrivals))
    ensures Watermarks.WithinBound(emitter, EventsOf(arrivals[..n]))
  {
    EventsPrefix(arrivals, n);
    var events := EventsOf(arrivals[..n]);
    forall k | 0 < k < |events|
      ensures events[k].timestamp >= Watermarks.LargestTimestamp(events[..k]) - emitter.bound
    {
      assert events[..k] == EventsOf(arrivals)[..k];
    }
  }

  /** An arrival within the bound finds no watermark past its timestamp. */
  lemma {:induction false} LastArrivalIsOnTime(emitter: Watermarks.EmitterConfig, arrivals: seq<SidedArrival>)
    requires Watermarks.WithinBound(emitter, EventsOf(arrivals)) && arrivals != []
    ensures var n := |arrivals| - 1;
            WatermarksAtMost(FeedJoin(emitter, arrivals[..n]), arrivals[n].arrival.timestamp)
  {
    var n := |arrivals| - 1;
    EventsPrefix(arrivals, n);
    WatermarksTrail(emitter, arrivals[..n]);
    if n > 0 {
      assert EventsOf(arrivals)[n].timestamp >= Watermarks.LargestTimestamp(EventsOf(arrivals)[..n]) - emitter.bound;
    } else {
      assert FeedJoin(emitter, arrivals[..n]) == [];
    }
  }

  lemma OnTimeStep(run: seq<JoinEvent>, event: JoinEvent)
    requires JoinRuns.OnTime(run)
    requires event.Arrival? ==> WatermarksAtMost(run, event.record.timestamp)
    ensures JoinRuns.OnTime(run + [event])
  {
  }

  /** The generator's bound makes the join's input on time. */
  lemma {:induction false} BoundedArrivalsAreOnTime(emitter: Watermarks.EmitterConfig, arrivals: seq<SidedArrival>)
    requires Watermarks.WithinBound(emitter, EventsOf(arrivals))
    ensures JoinRuns.OnTime(FeedJoin(emitter, arrivals))
    decreases |arrivals|
  {
    if arrivals == [] {
    } else {
      var n := |arrivals| - 1;
      PrefixWithinBound(emitter, arrivals, n);
      BoundedArrivalsAreOnTime(emitter, arrivals[..n]);
      LastArrivalIsOnTime(emitter, arrivals);
      var run, marks := FeedJoin(emitter, arrivals[..n]), WatermarkFor(emitter, EventsOf(arrivals));
      OnTimeStep(run, JoinEventOf(arrivals[n]));
      if marks == [] {
        assert FeedJoin(emitter, arrivals) == run + [JoinEventOf(arrivals[n])];
      } else {
        OnTimeStep(run + [JoinEventOf(arrivals[n])], marks[0]);
      }
    }
  }

  // Runs grow at the end.

  lemma {:induction false} OutputPrefix(cfg: JoinConfig, run: seq<JoinEvent>, event: JoinEvent, n: nat)
    requires n <= |run|
    ensures OutputUpTo(cfg, run + [event], n) == OutputUpTo(cfg, run, n)
  {
    if n == 0 {
    } else {
      OutputPrefix(cfg, run, event, n - 1);
      assert (run + [event])[..n - 1] == run[..n - 1];
    }
  }

  lemma {:induction false} ArrivedPrefix(run: seq<JoinEvent>, event: JoinEvent, isLeft: bool, key: Key, n: nat)
    requires n <= |run|
    ensures ArrivedUpTo(run + [event], isLeft, key, n) == ArrivedUpTo(run, isLeft, key, n)
  {
    if n == 0 {
    } else {
      ArrivedPrefix(run, event, isLeft, key, n - 1);
      ArrivedStep(run, isLeft, key, n - 1);
      ArrivedStep(run + [event], isLeft, key, n - 1);
    }
  }

  function Output(cfg: JoinConfig, run: seq<JoinEvent>): seq<Record> {
    OutputUpTo(cfg, run, |run|)
  }

  function Arrived(run: seq<JoinEvent>, isLeft: bool, key: Key): seq<Stamped> {
    ArrivedUpTo(run, isLeft, key, |run|)
  }

  /** A record no watermark has passed is joined with all that arrived on the other side. */
  lemma OutputOnArrival(cfg: JoinConfig, run: seq<JoinEvent>, isLeft: bool, r: Record)
    requires WatermarksAtMost(run, r.timestamp)
    ensures Output(cfg, run + [JoinEvent.Arrival(isLeft, r)])
            == Output(cfg, run) + JoinResults(cfg, isLeft, r, Arrived(run, !isLeft, r.key))
  {
    var longer := run + [JoinEvent.Arrival(isLeft, r)];
    OutputPrefix(cfg, run, JoinEvent.Arrival(isLeft, r), |run|);
    assert longer[..|run|] == run && run[..|run|] == run;
    EvictionKeepsPartners(cfg, run, |run|, !isLeft, r.key, r.timestamp);
  }

  lemma OutputOnWatermark(cfg: JoinConfig, run: seq<JoinEvent>, t: int)
    ensures Output(cfg, run + [Watermark(t)]) == Output(cfg, run)
  {
    OutputPrefix(cfg, run, Watermark(t), |run|);
    assert Output(cfg, run) + [] == Output(cfg, run);
  }

  lemma ArrivedMore(run: seq<JoinEvent>, event: JoinEvent, isLeft: bool, key: Key)
    ensures Arrived(run + [event], isLeft, key)
            == if event.Arrival? && event.isLeft == isLeft && event.record.key == key
               then Arrived(run, isLeft, key) + [Stamped(event.record.timestamp, event.record.value)]
               else Arrived(run, isLeft, key)
  {
    ArrivedPrefix(run, event, isLeft, key, |run|);
    ArrivedStep(run + [event], isLeft, key, |run|);
  }

  lemma BareStep(arrivals: seq<SidedArrival>)
    requires arrivals != []
    ensures var n := |arrivals| - 1; Bare(arrivals) == Bare(arrivals[..n]) + [JoinEventOf(arrivals[n])]
  {
  }

  lemma {:induction false} ArrivedWithWatermark(emitter: Watermarks.EmitterConfig, arrivals: seq<SidedArrival>,
                                                isLeft: bool, key: Key)
    requires arrivals != []
    ensures var n := |arrivals| - 1;
            Arrived(FeedJoin(emitter, arrivals), isLeft, key)
            == Arrived(FeedJoin(emitter, arrivals[..n]) + [JoinEventOf(arrivals[n])], isLeft, key)
  {
    var n := |arrivals| - 1;
    var run := FeedJoin(emitter, arrivals[..n]) + [JoinEventOf(arrivals[n])];
    var marks := WatermarkFor(emitter, EventsOf(arrivals));
    if marks == [] {
      assert FeedJoin(emitter, arrivals) == run;
    } else {
      ArrivedMore(run, marks[0], isLeft, key);
    }
  }

  /** Watermarks leave no trace in what has arrived. */
  lemma {:induction false} FeedArrives(emitter: Watermarks.EmitterConfig, arrivals: seq<SidedArrival>, isLeft: bool,
                                       key: Key)
    ensures Arrived(FeedJoin(emitter, arrivals), isLeft, key) == Arrived(Bare(arrivals), isLeft, key)
    decreases |arrivals|
  {
    if arrivals == [] {
    } else {
      var n := |arrivals| - 1;
      FeedArrives(emitter, arrivals[..n], isLeft, key);
      ArrivedWithWatermark(emitter, arrivals, isLeft, key);
      ArrivedMore(FeedJoin(emitter, arrivals[..n]), JoinEventOf(arrivals[n]), isLeft, key);
      ArrivedMore(Bare(arrivals[..n]), JoinEventOf(arrivals[n]), isLeft, key);
      BareStep(arrivals);
    }
  }

  lemma {:induction false} OutputWithWatermark(cfg: JoinConfig, emitter: Watermarks.EmitterConfig,
                                               arrivals: seq<SidedArrival>)
    requires arrivals != []
    ensures var n := |arrivals| - 1;
            Output(cfg, FeedJoin(emitter, arrivals))
            == Output(cfg, FeedJoin(emitter, arrivals[..n]) + [JoinEventOf(arrivals[n])])
  {
    var n := |arrivals| - 1;
    var run := FeedJoin(emitter, arrivals[..n]) + [JoinEventOf(arrivals[n])];
    var marks := WatermarkFor(emitter, EventsOf(arrivals));
    if marks == [] {
      assert FeedJoin(emitter, arrivals) == run;
    } else {
      OutputOnWatermark(cfg, run, marks[0].timestamp);
    }
  }

  lemma OutputsAgree(cfg: JoinConfig, run: seq<JoinEvent>, other: seq<JoinEvent>, isLeft: bool, r: Record)
    requires WatermarksAtMost(run, r.timestamp) && WatermarksAtMost(other, r.timestamp)
    requires Output(cfg, run) == Output(cfg, other) && Arrived(run, !isLeft, r.key) == Arrived(other, !isLeft, r.key)
    ensures Output(cfg, run + [JoinEvent.Arrival(isLeft, r)]) == Output(cfg, other + [JoinEvent.Arrival(isLeft, r)])
  {
    OutputOnArrival(cfg, run, isLeft, r);
    OutputOnArrival(cfg, other, isLeft, r);
  }

  /** With arrivals within the bound, watermarks and eviction leave no trace in the output. */
  lemma {:induction false} WatermarksAreInvisible(cfg: JoinConfig, emitter: Watermarks.EmitterConfig,
                                                  arrivals: seq<SidedArrival>)
    requires Watermarks.WithinBound(emitter, EventsOf(arrivals))
    ensures Output(cfg, FeedJoin(emitter, arrivals)) == Output(cfg, Bare(arrivals))
    decreases |arrivals|
  {
    if arrivals == [] {
    } else {
      var n := |arrivals| - 1;
      var a, r := arrivals[n], RecordOf(arrivals[n].arrival);
      PrefixWithinBound(emitter, arrivals, n);
      WatermarksAreInvisible(cfg, emitter, arrivals[..n]);
      LastArrivalIsOnTime(emitter, arrivals);
      OutputWithWatermark(cfg, emitter, arrivals);
      FeedArrives(emitter, arrivals[..n], !a.isLeft, r.key);
      OutputsAgree(cfg, FeedJoin(emitter, arrivals[..n]), Bare(arrivals[..n]), a.isLeft, r);
      BareStep(arrivals);
    }
  }

  /** A left and a right arrival with equal keys, at most the bound apart in either direction. */
  ghost predicate ArePartners(cfg: JoinConfig, arrivals: seq<SidedArrival>, p: Pair) {
    && p.left < |arrivals| && arrivals[p.left].isLeft
    && p.right < |arrivals| && !arrivals[p.right].isLeft
    && var l, r := arrivals[p.left].arrival, arrivals[p.right].arrival;
       l.key == r.key && -cfg.bound <= l.timestamp - r.timestamp <= cfg.bound
  }

  lemma PartnersArePairs(cfg: JoinConfig, arrivals: seq<SidedArrival>, p: Pair)
    ensures IsPair(cfg, Bare(arrivals), p) <==> ArePartners(cfg, arrivals, p)
  {
  }

  lemma BareIsOnTime(arrivals: seq<SidedArrival>)
    ensures JoinRuns.OnTime(Bare(arrivals))
  {
  }

  /** The join behind the emitter is the nested-loop join of the arrivals: with every arrival within
      the bound, and any clock readings, each left and right arrival with equal keys within the join's
      bound yields one result, in loop order: with the left one's key and timestamp, and the two values
      joined, left before right. */
  lemma JoinPipelineIsNestedLoop(cfg: JoinConfig, emitter: Watermarks.EmitterConfig, arrivals: seq<SidedArrival>)
    returns (pairs: seq<Pair>)
    requires Watermarks.WithinBound(emitter, EventsOf(arrivals))
    ensures AllInLoopOrder(pairs) && forall p :: p in pairs <==> ArePartners(cfg, arrivals, p)
    ensures var out := Output(cfg, FeedJoin(emitter, arrivals));
            && |out| == |pairs|
            && forall k :: 0 <= k < |pairs| ==>
                 && ArePartners(cfg, arrivals, pairs[k])
                 && var l, r := arrivals[pairs[k].left].arrival, arrivals[pairs[k].right].arrival;
                    out[k] == Record(cfg.join(l.value, r.value), l.key, l.timestamp)
  {
    WatermarksAreInvisible(cfg, emitter, arrivals);
    BareIsOnTime(arrivals);
    pairs := JoinEmitsPairs(cfg, Bare(arrivals));
    forall p ensures IsPair(cfg, Bare(arrivals), p) <==> ArePartners(cfg, arrivals, p) {
      PartnersArePairs(cfg, arrivals, p);
    }
  }
}
