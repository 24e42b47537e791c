/** Watermark generation with bounded out-of-orderness (common/watermarks.py:60-126). */
module Watermarks {
  import opened Common
  import opened Records

  /** The generator inside its periodic emitter. */
  datatype EmitterState = EmitterState(maxTimestamp: int, lastEmitTime: int)

  datatype EmitterConfig = EmitterConfig(bound: int, interval: int)

  const FRESH_EMITTER := EmitterState(0, 0)

  function Track(s: EmitterState, t: int): EmitterState {
    s.(maxTimestamp := Max(s.maxTimestamp, t))
  }

  function PeriodicWatermark(cfg: EmitterConfig, s: EmitterState): Option<int> {
    if s.maxTimestamp == 0 then None else Some(s.maxTimestamp - cfg.bound)
  }

  predicate IsDue(cfg: EmitterConfig, s: EmitterState, now: int) {
    now - s.lastEmitTime >= cfg.interval
  }

  function AfterEvent(cfg: EmitterConfig, s: EmitterState, t: int, now: int): EmitterState {
    if IsDue(cfg, s, now) then Track(s, t).(lastEmitTime := now) else Track(s, t)
  }

  function EmittedOn(cfg: EmitterConfig, s: EmitterState, t: int, now: int): Option<int> {
    if IsDue(cfg, s, now) then PeriodicWatermark(cfg, Track(s, t)) else None
  }

  class BoundedOutOfOrdernessWatermarkGenerator {
    const maxOutOfOrderness: int
    var maxTimestamp: int

    constructor (maxOutOfOrderness: int)
      ensures this.maxOutOfOrderness == maxOutOfOrderness && maxTimestamp == 0
    {
      this.maxOutOfOrderness := maxOutOfOrderness;
      maxTimestamp := 0;
    }

    method OnEvent(t: int)
      modifies this
      ensures maxTimestamp == Max(old(maxTimestamp), t)
    {
      if t > maxTimestamp {
        maxTimestamp := t;
      }
    }

    method OnPeriodicEmit() returns (w: Option<int>)
      ensures w == PeriodicWatermark(EmitterConfig(maxOutOfOrderness, 0), EmitterState(maxTimestamp, 0))
    {
      if maxTimestamp == 0 {
        return None;
      }
      w := Some(maxTimestamp - maxOutOfOrderness);
    }
  }

  class PeriodicWatermarkEmitter {
    const generator: BoundedOutOfOrdernessWatermarkGenerator
    const interval: int
    var lastEmitTime: int

    constructor (generator: BoundedOutOfOrdernessWatermarkGenerator, interval: int)
      ensures this.generator == generator && this.interval == interval && lastEmitTime == 0
    {
      this.generator, this.interval := generator, interval;
      lastEmitTime := 0;
    }

    ghost function State(): EmitterState reads this, generator {
      EmitterState(generator.maxTimestamp, lastEmitTime)
    }

    ghost function Config(): EmitterConfig {
      EmitterConfig(generator.maxOutOfOrderness, interval)
    }

    /** `now` is the clock reading. */
    method OnEvent(t: int, now: int) returns (w: Option<int>)
      modifies this, generator
      ensures State() == AfterEvent(Config(), old(State()), t, now)
      ensures w == EmittedOn(Config(), old(State()), t, now)
    {
      generator.OnEvent(t);
      if now - lastEmitTime >= interval {
        lastEmitTime := now;
        w := generator.OnPeriodicEmit();
        return;
      }
      w := None;
    }
  }

  // Whole runs: events with the clock reading taken for each.

  datatype Event = Event(timestamp: Positive, now: int)

  function StateAfter(cfg: EmitterConfig, events: seq<Event>): EmitterState {
    if events == [] then FRESH_EMITTER
    else
      var n := |events| - 1;
      AfterEvent(cfg, StateAfter(cfg, events[..n]), events[n].timestamp, events[n].now)
  }

  /** What event n of a run emits. */
  function EmittedAt(cfg: EmitterConfig, events: seq<Event>, n: nat): Option<int>
    requires n < |events|
  {
    EmittedOn(cfg, StateAfter(cfg, events[..n]), events[n].timestamp, events[n].now)
  }

  function LargestTimestamp(events: seq<Event>): int {
    if events == [] then 0
    else Max(LargestTimestamp(events[..|events| - 1]), events[|events| - 1].timestamp)
  }

  /** Every event is at most the bound behind the largest timestamp before it. */
  predicate WithinBound(cfg: EmitterConfig, events: seq<Event>) {
    forall n :: 0 < n < |events| ==> events[n].timestamp >= LargestTimestamp(events[..n]) - cfg.bound
  }

  lemma {:induction false} StateTracksLargest(cfg: EmitterConfig, events: seq<Event>)
    ensures StateAfter(cfg, events).maxTimestamp == LargestTimestamp(events)
  {
    if events == [] {
    } else {
      StateTracksLargest(cfg, events[..|events| - 1]);
    }
  }

  lemma {:induction false} LargestGrows(events: seq<Event>, m: nat, n: nat)
    requires m <= n <= |events|
    ensures LargestTimestamp(events[..m]) <= LargestTimestamp(events[..n])
    ensures forall i :: 0 <= i < n ==> events[i].timestamp <= LargestTimestamp(events[..n])
    decreases n
  {
    if n == 0 {
    } else {
      assert events[..n][..n - 1] == events[..n - 1];
      LargestGrows(events, if m < n then m else n - 1, n - 1);
    }
  }

  /** An emitted watermark is the largest timestamp so far, that of its own event included, minus the bound. */
  lemma EmittedIsLargestMinusBound(cfg: EmitterConfig, events: seq<Event>, n: nat)
    requires n < |events| && EmittedAt(cfg, events, n).Some?
    ensures EmittedAt(cfg, events, n).value == LargestTimestamp(events[..n + 1]) - cfg.bound
  {
    StateTracksLargest(cfg, events[..n]);
    assert events[..n + 1][..n] == events[..n];
  }

  /** Watermarks never go back, whatever the clock shows. */
  lemma WatermarksAreMonotone(cfg: EmitterConfig, events: seq<Event>, m: nat, n: nat)
    requires m <= n < |events| && EmittedAt(cfg, events, m).Some? && EmittedAt(cfg, events, n).Some?
    ensures EmittedAt(cfg, events, m).value <= EmittedAt(cfg, events, n).value
  {
    EmittedIsLargestMinusBound(cfg, events, m);
    EmittedIsLargestMinusBound(cfg, events, n);
    LargestGrows(events, m + 1, n + 1);
  }

  /** The clock reading of the last emission before event n. */
  lemma {:induction false} LastEmitTime(cfg: EmitterConfig, events: seq<Event>, m: nat, n: nat)
    requires m < n <= |events| && EmittedAt(cfg, events, m).Some?
    requires forall k :: m < k < n ==> EmittedAt(cfg, events, k).None?
    ensures StateAfter(cfg, events[..n]).lastEmitTime == events[m].now
    decreases n
  {
    assert events[..n][..n - 1] == events[..n - 1];
    if m < n - 1 {
      LastEmitTime(cfg, events, m, n - 1);
      assert EmittedAt(cfg, events, n - 1).None?;
      StateTracksLargest(cfg, events[..n - 1]);
      LargestGrows(events, n - 1, n - 1);
      assert LargestTimestamp(events[..n - 1]) >= events[0].timestamp > 0;
    }
  }

  /** Consecutive emissions are at least the interval apart. */
  lemma EmissionsAreSpaced(cfg: EmitterConfig, events: seq<Event>, m: nat, n: nat)
    requires m < n < |events| && EmittedAt(cfg, events, m).Some? && EmittedAt(cfg, events, n).Some?
    requires forall k :: m < k < n ==> EmittedAt(cfg, events, k).None?
    ensures events[n].now - events[m].now >= cfg.interval
  {
    LastEmitTime(cfg, events, m, n);
  }

  lemma {:induction false} NothingEmittedYet(cfg: EmitterConfig, events: seq<Event>, n: nat)
    requires n <= |events| && forall k :: 0 <= k < n ==> EmittedAt(cfg, events, k).None?
    ensures StateAfter(cfg, events[..n]).lastEmitTime == 0
  {
    if n == 0 {
    } else {
      NothingEmittedYet(cfg, events, n - 1);
      assert events[..n][..n - 1] == events[..n - 1];
      assert EmittedAt(cfg, events, n - 1).None?;
      EmissionMeetsEvent(cfg, events, n - 1);
    }
  }

  /** Once an event has come there is a watermark to emit. */
  lemma {:induction false} EmissionMeetsEvent(cfg: EmitterConfig, events: seq<Event>, n: nat)
    requires n < |events|
    ensures EmittedAt(cfg, events, n).Some? <==> IsDue(cfg, StateAfter(cfg, events[..n]), events[n].now)
  {
    StateTracksLargest(cfg, events[..n]);
    LargestGrows(events, n, n);
    assert events[n].timestamp > 0;
  }

  /** The first emission comes with the first event at whose arrival the clock shows the interval or more. */
  lemma FirstEmissionIff(cfg: EmitterConfig, events: seq<Event>, n: nat)
    requires n < |events| && forall k :: 0 <= k < n ==> EmittedAt(cfg, events, k).None?
    ensures EmittedAt(cfg, events, n).Some? <==> events[n].now >= cfg.interval
  {
    NothingEmittedYet(cfg, events, n);
    EmissionMeetsEvent(cfg, events, n);
  }

  /** The next one comes with the first event at least the interval after the one before. */
  lemma NextEmissionIff(cfg: EmitterConfig, events: seq<Event>, m: nat, n: nat)
    requires m < n < |events| && EmittedAt(cfg, events, m).Some?
    requires forall k :: m < k < n ==> EmittedAt(cfg, events, k).None?
    ensures EmittedAt(cfg, events, n).Some? <==> events[n].now - events[m].now >= cfg.interval
  {
    LastEmitTime(cfg, events, m, n);
    EmissionMeetsEvent(cfg, events, n);
  }

  /** No watermark passes a later event that respects the bound. */
  lemma WatermarkStaysBehind(cfg: EmitterConfig, events: seq<Event>, m: nat, n: nat)
    requires WithinBound(cfg, events)
    requires m < n < |events| && EmittedAt(cfg, events, m).Some?
    ensures EmittedAt(cfg, events, m).value <= events[n].timestamp
  {
    EmittedIsLargestMinusBound(cfg, events, m);
    LargestGrows(events, m + 1, n);
  }
}
