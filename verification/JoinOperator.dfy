/** The stream-stream join with watermark eviction (taskmanager/operators/stateful.py:345-465). */
module JoinOperators {
  import opened Common
  import opened Records

  datatype JoinConfig = JoinConfig(bound: int, join: (Value, Value) -> Value)

  datatype Stamped = Stamped(timestamp: int, value: Value)

  type Buffer = map<Key, seq<Stamped>>

  datatype JoinState = JoinState(left: Buffer, right: Buffer, isLeft: bool)

  const EMPTY_JOIN := JoinState(map[], map[], true)

  function Held(b: Buffer, key: Key): seq<Stamped> {
    if key in b then b[key] else []
  }

  function Distance(a: int, b: int): int {
    if a >= b then a - b else b - a
  }

  function Near(cfg: JoinConfig, t: int): Stamped -> bool {
    (s: Stamped) => Distance(t, s.timestamp) <= cfg.bound
  }

  /** The joined record, stamped with the left timestamp. */
  function Joined(cfg: JoinConfig, key: Key, left: Stamped, right: Stamped): Record {
    Record(cfg.join(left.value, right.value), key, left.timestamp)
  }

  function JoinedWith(cfg: JoinConfig, isLeft: bool, r: Record): Stamped -> Record {
    (s: Stamped) =>
      if isLeft then Joined(cfg, r.key, Stamped(r.timestamp, r.value), s)
      else Joined(cfg, r.key, s, Stamped(r.timestamp, r.value))
  }

  function JoinResults(cfg: JoinConfig, isLeft: bool, r: Record, others: seq<Stamped>): seq<Record> {
    Map(JoinedWith(cfg, isLeft, r), Filter(Near(cfg, r.timestamp), others))
  }

  function JoinOutput(cfg: JoinConfig, s: JoinState, r: Record): seq<Record> {
    JoinResults(cfg, s.isLeft, r, Held(if s.isLeft then s.right else s.left, r.key))
  }

  function Append(b: Buffer, r: Record): Buffer {
    b[r.key := Held(b, r.key) + [Stamped(r.timestamp, r.value)]]
  }

  function AfterElement(s: JoinState, r: Record): JoinState {
    if s.isLeft then s.(left := Append(s.left, r)) else s.(right := Append(s.right, r))
  }

  function Recent(cutoff: int): Stamped -> bool {
    (s: Stamped) => s.timestamp >= cutoff
  }

  function Evicted(b: Buffer, cutoff: int): Buffer {
    map key | key in b && Filter(Recent(cutoff), b[key]) != [] :: Filter(Recent(cutoff), b[key])
  }

  function AfterWatermark(cfg: JoinConfig, s: JoinState, t: int): JoinState {
    JoinState(Evicted(s.left, t - cfg.bound), Evicted(s.right, t - cfg.bound), s.isLeft)
  }

  lemma JoinResultsSnoc(cfg: JoinConfig, isLeft: bool, r: Record, others: seq<Stamped>, x: Stamped)
    ensures JoinResults(cfg, isLeft, r, others + [x])
            == JoinResults(cfg, isLeft, r, others)
               + (if Near(cfg, r.timestamp)(x) then [JoinedWith(cfg, isLeft, r)(x)] else [])
  {
    FilterSnoc(Near(cfg, r.timestamp), others, x);
    MapSnoc(JoinedWith(cfg, isLeft, r), Filter(Near(cfg, r.timestamp), others), x);
    assert Filter(Near(cfg, r.timestamp), others) + [] == Filter(Near(cfg, r.timestamp), others);
  }

  class JoinOperator {
    const cfg: JoinConfig
    var leftBuffer: Buffer
    var rightBuffer: Buffer
    var isLeftStream: bool

    ghost function State(): JoinState reads this {
      JoinState(leftBuffer, rightBuffer, isLeftStream)
    }

    constructor (cfg: JoinConfig)
      ensures this.cfg == cfg && State() == EMPTY_JOIN
    {
      this.cfg := cfg;
      leftBuffer, rightBuffer, isLeftStream := map[], map[], true;
    }

    method SetStreamSide(isLeft: bool)
      modifies this
      ensures State() == old(State()).(isLeft := isLeft)
    {
      isLeftStream := isLeft;
    }

    method ProcessElement(r: Record) returns (results: seq<Record>)
      modifies this
      ensures State() == AfterElement(old(State()), r)
      ensures results == JoinOutput(cfg, old(State()), r)
    {
      if isLeftStream {
        if r.key !in leftBuffer {
          leftBuffer := leftBuffer[r.key := []];
        }
        leftBuffer := leftBuffer[r.key := leftBuffer[r.key] + [Stamped(r.timestamp, r.value)]];
        results := JoinAll(r, if r.key in rightBuffer then rightBuffer[r.key] else []);
      } else {
        if r.key !in rightBuffer {
          rightBuffer := rightBuffer[r.key := []];
        }
        rightBuffer := rightBuffer[r.key := rightBuffer[r.key] + [Stamped(r.timestamp, r.value)]];
        results := JoinAll(r, if r.key in leftBuffer then leftBuffer[r.key] else []);
      }
    }

    /** The loop over the other side's buffer. */
    method JoinAll(r: Record, others: seq<Stamped>) returns (results: seq<Record>)
      ensures results == JoinResults(cfg, isLeftStream, r, others)
    {
      results := [];
      for k := 0 to |others|
        invariant results == JoinResults(cfg, isLeftStream, r, others[..k])
      {
        var other := others[k];
        assert others[..k + 1] == others[..k] + [other];
        JoinResultsSnoc(cfg, isLeftStream, r, others[..k], other);
        if Distance(r.timestamp, other.timestamp) <= cfg.bound {
          if isLeftStream {
            var joined := cfg.join(r.value, other.value);
            results := results + [r.WithValue(joined)];
          } else {
            var joined := cfg.join(other.value, r.value);
            results := results + [r.WithValue(joined).WithTimestamp(other.timestamp)];
          }
        }
      }
      assert others[..|others|] == others;
    }

    method ProcessWatermark(t: int)
      modifies this
      ensures State() == AfterWatermark(cfg, old(State()), t)
    {
      var cutoff := t - cfg.bound;
      leftBuffer := EvictOld(leftBuffer, cutoff);
      rightBuffer := EvictOld(rightBuffer, cutoff);
    }

    /** The loop over the keys of one buffer. */
    method EvictOld(buffer: Buffer, cutoff: int) returns (b: Buffer)
      ensures b == Evicted(buffer, cutoff)
    {
      b := buffer;
      var todo := buffer.Keys;
      while todo != {}
        invariant todo <= buffer.Keys
        invariant forall key :: key in b <==>
                    key in buffer && (key in todo || Filter(Recent(cutoff), buffer[key]) != [])
        invariant forall key :: key in b ==>
                    b[key] == if key in todo then buffer[key] else Filter(Recent(cutoff), buffer[key])
        decreases todo
      {
        var key := PickOne(todo);
        b := b[key := Filter(Recent(cutoff), b[key])];
        if b[key] == [] {
          b := b - {key};
        }
        todo := todo - {key};
      }
    }

    method SnapshotState() returns (snapshot: JoinState)
      ensures snapshot == State()
    {
      snapshot := JoinState(leftBuffer, rightBuffer, isLeftStream);
    }

    method RestoreState(snapshot: JoinState)
      modifies this
      ensures State() == snapshot
    {
      leftBuffer, rightBuffer, isLeftStream := snapshot.left, snapshot.right, snapshot.isLeft;
    }
  }
}

/** The evicting join against a nested-loop join, over whole runs of both streams. */
module JoinRuns {
  import opened Common
  import opened Records
  import opened JoinOperators

  datatype JoinEvent = Arrival(isLeft: bool, record: Record) | Watermark(timestamp: int)

  /** The side is set before each record, as the operator demands of whoever drives it. */
  function StateAfter(cfg: JoinConfig, run: seq<JoinEvent>): JoinState {
    if run == [] then EMPTY_JOIN
    else
      var n := |run| - 1;
      var s := StateAfter(cfg, run[..n]);
      match run[n]
      case Arrival(isLeft, r) => AfterElement(s.(isLeft := isLeft), r)
      case Watermark(t) => AfterWatermark(cfg, s, t)
  }

  function OutputAt(cfg: JoinConfig, run: seq<JoinEvent>, n: nat): seq<Record>
    requires n < |run|
  {
    match run[n]
    case Arrival(isLeft, r) => JoinOutput(cfg, StateAfter(cfg, run[..n]).(isLeft := isLeft), r)
    case Watermark(_) => []
  }

  function OutputUpTo(cfg: JoinConfig, run: seq<JoinEvent>, n: nat): seq<Record>
    requires n <= |run|
  {
    if n == 0 then [] else OutputUpTo(cfg, run, n - 1) + OutputAt(cfg, run, n - 1)
  }

  // The nested-loop join: positions of a left and a right record.

  datatype Pair = Pair(left: nat, right: nat)

  predicate Matches(cfg: JoinConfig, run: seq<JoinEvent>, p: Pair) {
    && p.left < |run| && p.right < |run|
    && run[p.left].Arrival? && run[p.left].isLeft
    && run[p.right].Arrival? && !run[p.right].isLeft
    && run[p.left].record.key == run[p.right].record.key
    && Distance(run[p.left].record.timestamp, run[p.right].record.timestamp) <= cfg.bound
  }

  function PairOf(run: seq<JoinEvent>, n: nat, i: nat): Pair
    requires n < |run|
  {
    if run[n].Arrival? && run[n].isLeft then Pair(n, i) else Pair(i, n)
  }

  /** The matches of event n with earlier events, up to position m. */
  function PairsAt(cfg: JoinConfig, run: seq<JoinEvent>, n: nat, m: nat): seq<Pair>
    requires m <= n < |run|
  {
    if m == 0 then []
    else
      PairsAt(cfg, run, n, m - 1)
      + (if Matches(cfg, run, PairOf(run, n, m - 1)) then [PairOf(run, n, m - 1)] else [])
  }

  function PairsUpTo(cfg: JoinConfig, run: seq<JoinEvent>, n: nat): seq<Pair>
    requires n <= |run|
  {
    if n == 0 then [] else PairsUpTo(cfg, run, n - 1) + PairsAt(cfg, run, n - 1, n - 1)
  }

  function StampedAt(run: seq<JoinEvent>, i: nat): Stamped
    requires i < |run| && run[i].Arrival?
  {
    Stamped(run[i].record.timestamp, run[i].record.value)
  }

  /** The result of a pair: key and timestamp of the left record, joined value. */
  function ResultOf(cfg: JoinConfig, run: seq<JoinEvent>): Pair -> Record {
    (p: Pair) =>
      if Matches(cfg, run, p) then Joined(cfg, run[p.left].record.key, StampedAt(run, p.left), StampedAt(run, p.right))
      else Record(Nothing, NoKey, 0)
  }

  /** Each record's timestamp is at least every watermark before it. */
  predicate OnTime(run: seq<JoinEvent>) {
    forall i, n :: 0 <= i < n < |run| && run[i].Watermark? && run[n].Arrival? ==>
        run[n].record.timestamp >= run[i].timestamp
  }

  // What would be buffered without eviction.

  function ArrivedUpTo(run: seq<JoinEvent>, isLeft: bool, key: Key, m: nat): seq<Stamped>
    requires m <= |run|
  {
    if m == 0 then []
    else
      ArrivedUpTo(run, isLeft, key, m - 1)
      + (if run[m - 1].Arrival? && run[m - 1].isLeft == isLeft && run[m - 1].record.key == key
        then [StampedAt(run, m - 1)] else [])
  }

  function Side(s: JoinState, isLeft: bool): Buffer {
    if isLeft then s.left else s.right
  }

  predicate PassesNone(run: seq<JoinEvent>, t: int, n: nat)
    requires n <= |run|
  {
    forall i :: 0 <= i < n && run[i].Watermark? ==> run[i].timestamp <= t
  }

  lemma EvictedNear(cfg: JoinConfig, held: seq<Stamped>, w: int, t: int)
    requires w <= t
    ensures Filter(Near(cfg, t), Filter(Recent(w - cfg.bound), held)) == Filter(Near(cfg, t), held)
  {
    FilterTwice(Near(cfg, t), Recent(w - cfg.bound), held);
  }

  lemma HeldAfterEviction(cfg: JoinConfig, b: Buffer, cutoff: int, key: Key)
    ensures Held(Evicted(b, cutoff), key) == Filter(Recent(cutoff), Held(b, key))
  {
  }

  lemma {:induction false} StateStep(cfg: JoinConfig, run: seq<JoinEvent>, n: nat)
    requires n < |run|
    ensures StateAfter(cfg, run[..n + 1])
            == match run[n]
               case Arrival(isLeft, r) => AfterElement(StateAfter(cfg, run[..n]).(isLeft := isLeft), r)
               case Watermark(t) => AfterWatermark(cfg, StateAfter(cfg, run[..n]), t)
  {
    assert run[..n + 1][..n] == run[..n];
  }

  lemma HeldAfterArrival(s: JoinState, arriving: bool, r: Record, isLeft: bool, key: Key)
    ensures Held(Side(AfterElement(s.(isLeft := arriving), r), isLeft), key)
            == if arriving == isLeft && r.key == key then Held(Side(s, isLeft), key) + [Stamped(r.timestamp, r.value)]
               else Held(Side(s, isLeft), key)
  {
  }

  lemma ArrivedStep(run: seq<JoinEvent>, isLeft: bool, key: Key, n: nat)
    requires n < |run|
    ensures ArrivedUpTo(run, isLeft, key, n + 1)
            == if run[n].Arrival? && run[n].isLeft == isLeft && run[n].record.key == key
               then ArrivedUpTo(run, isLeft, key, n) + [StampedAt(run, n)]
               else ArrivedUpTo(run, isLeft, key, n)
  {
    assert ArrivedUpTo(run, isLeft, key, n) + [] == ArrivedUpTo(run, isLeft, key, n);
  }

  /** For any timestamp no earlier watermark has passed, the evicted buffers hold the same partners,
      in the same order, as full buffers would. */
  lemma {:induction false} EvictionKeepsPartners(cfg: JoinConfig, run: seq<JoinEvent>, n: nat, isLeft: bool, key: Key,
                                                 t: int)
    requires n <= |run| && PassesNone(run, t, n)
    ensures Filter(Near(cfg, t), Held(Side(StateAfter(cfg, run[..n]), isLeft), key))
            == Filter(Near(cfg, t), ArrivedUpTo(run, isLeft, key, n))
    decreases n
  {
    if n == 0 {
    } else {
      var m := n - 1;
      EvictionKeepsPartners(cfg, run, m, isLeft, key, t);
      StateStep(cfg, run, m);
      ArrivedStep(run, isLeft, key, m);
      var s, arrived := StateAfter(cfg, run[..m]), ArrivedUpTo(run, isLeft, key, m);
      match run[m]
      case Watermark(w) =>
        PartnersAtWatermark(cfg, s, arrived, w, isLeft, key, t);
      case Arrival(side, r) =>
        HeldAfterArrival(s, side, r, isLeft, key);
        PartnersAtArrival(cfg, s, arrived, Stamped(r.timestamp, r.value), isLeft, key, t);
    }
  }

  lemma SideAfterWatermark(cfg: JoinConfig, s: JoinState, w: int, isLeft: bool, key: Key)
    ensures Held(Side(AfterWatermark(cfg, s, w), isLeft), key)
            == Filter(Recent(w - cfg.bound), Held(Side(s, isLeft), key))
  {
    HeldAfterEviction(cfg, Side(s, isLeft), w - cfg.bound, key);
  }

  lemma {:induction false} PartnersAtWatermark(cfg: JoinConfig, s: JoinState, arrived: seq<Stamped>, w: int,
                                               isLeft: bool, key: Key, t: int)
    requires w <= t && Filter(Near(cfg, t), Held(Side(s, isLeft), key)) == Filter(Near(cfg, t), arrived)
    ensures Filter(Near(cfg, t), Held(Side(AfterWatermark(cfg, s, w), isLeft), key)) == Filter(Near(cfg, t), arrived)
  {
    SideAfterWatermark(cfg, s, w, isLeft, key);
    EvictedNear(cfg, Held(Side(s, isLeft), key), w, t);
  }

  lemma {:induction false} PartnersAtArrival(cfg: JoinConfig, s: JoinState, arrived: seq<Stamped>, x: Stamped,
                                             isLeft: bool, key: Key, t: int)
    requires Filter(Near(cfg, t), Held(Side(s, isLeft), key)) == Filter(Near(cfg, t), arrived)
    ensures Filter(Near(cfg, t), Held(Side(s, isLeft), key) + [x]) == Filter(Near(cfg, t), arrived + [x])
  {
    FilterSnoc(Near(cfg, t), Held(Side(s, isLeft), key), x);
    FilterSnoc(Near(cfg, t), arrived, x);
  }

  lemma PairsAtSnoc(cfg: JoinConfig, run: seq<JoinEvent>, n: nat, i: nat)
    requires i < n < |run|
    ensures var p := PairOf(run, n, i);
            Map(ResultOf(cfg, run), PairsAt(cfg, run, n, i + 1))
            == Map(ResultOf(cfg, run), PairsAt(cfg, run, n, i))
               + (if Matches(cfg, run, p) then [ResultOf(cfg, run)(p)] else [])
  {
    var p := PairOf(run, n, i);
    MapSnoc(ResultOf(cfg, run), PairsAt(cfg, run, n, i), p);
    assert PairsAt(cfg, run, n, i) + [] == PairsAt(cfg, run, n, i);
  }

  /** Joining with the full buffer is the inner loop over all earlier positions. */
  lemma {:induction false} FullBufferIsInnerLoop(cfg: JoinConfig, run: seq<JoinEvent>, n: nat, m: nat)
    requires m <= n < |run| && run[n].Arrival?
    ensures JoinResults(cfg, run[n].isLeft, run[n].record, ArrivedUpTo(run, !run[n].isLeft, run[n].record.key, m))
            == Map(ResultOf(cfg, run), PairsAt(cfg, run, n, m))
    decreases m
  {
    if m == 0 {
    } else {
      var r, i := run[n].record, m - 1;
      FullBufferIsInnerLoop(cfg, run, n, i);
      ArrivedStep(run, !run[n].isLeft, r.key, i);
      PairsAtSnoc(cfg, run, n, i);
      if run[i].Arrival? && run[i].isLeft == !run[n].isLeft && run[i].record.key == r.key {
        JoinResultsSnoc(cfg, run[n].isLeft, r, ArrivedUpTo(run, !run[n].isLeft, r.key, i), StampedAt(run, i));
      }
    }
  }

  lemma {:induction false} ArrivalOutput(cfg: JoinConfig, run: seq<JoinEvent>, n: nat)
    requires OnTime(run) && n < |run|
    ensures OutputAt(cfg, run, n) == Map(ResultOf(cfg, run), PairsAt(cfg, run, n, n))
  {
    match run[n]
    case Arrival(isLeft, r) =>
      EvictionKeepsPartners(cfg, run, n, !isLeft, r.key, r.timestamp);
      FullBufferIsInnerLoop(cfg, run, n, n);
    case Watermark(_) =>
      NoPairsAtWatermark(cfg, run, n, n);
  }

  lemma {:induction false} NoPairsAtWatermark(cfg: JoinConfig, run: seq<JoinEvent>, n: nat, m: nat)
    requires m <= n < |run| && run[n].Watermark?
    ensures PairsAt(cfg, run, n, m) == []
  {
    if m == 0 {
    } else {
      NoPairsAtWatermark(cfg, run, n, m - 1);
    }
  }

  lemma PairsUpToSnoc(cfg: JoinConfig, run: seq<JoinEvent>, n: nat)
    requires n < |run|
    ensures Map(ResultOf(cfg, run), PairsUpTo(cfg, run, n + 1))
            == Map(ResultOf(cfg, run), PairsUpTo(cfg, run, n)) + Map(ResultOf(cfg, run), PairsAt(cfg, run, n, n))
  {
    MapAppend(ResultOf(cfg, run), PairsUpTo(cfg, run, n), PairsAt(cfg, run, n, n));
  }

  lemma OutputStep(cfg: JoinConfig, run: seq<JoinEvent>, n: nat)
    requires n < |run|
    ensures OutputUpTo(cfg, run, n + 1) == OutputUpTo(cfg, run, n) + OutputAt(cfg, run, n)
  {
  }

  /** Eviction loses nothing: on time, the operator emits exactly the nested-loop join, in order. */
  lemma {:induction false} JoinIsNestedLoop(cfg: JoinConfig, run: seq<JoinEvent>, n: nat)
    requires OnTime(run) && n <= |run|
    ensures OutputUpTo(cfg, run, n) == Map(ResultOf(cfg, run), PairsUpTo(cfg, run, n))
  {
    if n == 0 {
    } else {
      var m := n - 1;
      JoinIsNestedLoop(cfg, run, m);
      ArrivalOutput(cfg, run, m);
      PairsUpToSnoc(cfg, run, m);
      OutputStep(cfg, run, m);
    }
  }

  lemma {:induction false} InnerLoopIsExact(cfg: JoinConfig, run: seq<JoinEvent>, n: nat, m: nat)
    requires m <= n < |run|
    ensures Distinct(PairsAt(cfg, run, n, m))
    ensures forall p :: p in PairsAt(cfg, run, n, m) <==>
              Matches(cfg, run, p) && exists i :: 0 <= i < m && p == PairOf(run, n, i)
    decreases m
  {
    if m == 0 {
    } else {
      InnerLoopIsExact(cfg, run, n, m - 1);
    }
  }

  lemma {:induction false} PairsAtAreLatest(cfg: JoinConfig, run: seq<JoinEvent>, n: nat)
    requires n < |run|
    ensures Distinct(PairsAt(cfg, run, n, n))
    ensures forall p :: p in PairsAt(cfg, run, n, n) <==> Matches(cfg, run, p) && Max(p.left, p.right) == n
  {
    InnerLoopIsExact(cfg, run, n, n);
    forall p ensures p in PairsAt(cfg, run, n, n) <==> Matches(cfg, run, p) && Max(p.left, p.right) == n {
      if Matches(cfg, run, p) && Max(p.left, p.right) == n {
        assert p == PairOf(run, n, if p.left == n then p.right else p.left);
      }
    }
  }

  /** Every left and right record with the same key within the bound, each pair exactly once. */
  lemma {:induction false} NestedLoopIsExact(cfg: JoinConfig, run: seq<JoinEvent>, n: nat)
    requires n <= |run|
    ensures Distinct(PairsUpTo(cfg, run, n))
    ensures forall p :: p in PairsUpTo(cfg, run, n) <==> Matches(cfg, run, p) && p.left < n && p.right < n
  {
    if n == 0 {
    } else {
      var m := n - 1;
      NestedLoopIsExact(cfg, run, m);
      PairsAtAreLatest(cfg, run, m);
      AppendDistinct(PairsUpTo(cfg, run, m), PairsAt(cfg, run, m, m));
      assert PairsUpTo(cfg, run, n) == PairsUpTo(cfg, run, m) + PairsAt(cfg, run, m, m);
    }
  }

  /** A left and a right record with equal keys, at most the bound apart in either direction. */
  ghost predicate IsPair(cfg: JoinConfig, run: seq<JoinEvent>, p: Pair) {
    && p.left < |run| && run[p.left].Arrival? && run[p.left].isLeft
    && p.right < |run| && run[p.right].Arrival? && !run[p.right].isLeft
    && run[p.left].record.key == run[p.right].record.key
    && -cfg.bound <= run[p.left].record.timestamp - run[p.right].record.timestamp <= cfg.bound
  }

  /** By the record that arrives later, then by the other. */
  predicate InLoopOrder(p: Pair, q: Pair) {
    || Max(p.left, p.right) < Max(q.left, q.right)
    || (Max(p.left, p.right) == Max(q.left, q.right) && Min(p.left, p.right) < Min(q.left, q.right))
  }

  ghost predicate AllInLoopOrder(pairs: seq<Pair>) {
    forall i, j :: 0 <= i < j < |pairs| ==> InLoopOrder(pairs[i], pairs[j])
  }

  lemma NextPairInOrder(before: seq<Pair>, p: Pair, n: nat, m: nat)
    requires AllInLoopOrder(before) && 0 < m <= n && Max(p.left, p.right) == n && Min(p.left, p.right) == m - 1
    requires forall q :: q in before ==> Max(q.left, q.right) == n && Min(q.left, q.right) < m - 1
    ensures AllInLoopOrder(before + [p])
  {
    forall i | 0 <= i < |before| ensures InLoopOrder(before[i], p) {
      assert before[i] in before;
    }
  }

  lemma {:induction false} InnerLoopOrder(cfg: JoinConfig, run: seq<JoinEvent>, n: nat, m: nat)
    requires m <= n < |run|
    ensures AllInLoopOrder(PairsAt(cfg, run, n, m))
    ensures forall p :: p in PairsAt(cfg, run, n, m) ==> Max(p.left, p.right) == n && Min(p.left, p.right) < m
    decreases m
  {
    if m == 0 {
    } else {
      InnerLoopOrder(cfg, run, n, m - 1);
      NextPairInOrder(PairsAt(cfg, run, n, m - 1), PairOf(run, n, m - 1), n, m);
    }
  }

  lemma AppendInOrder(a: seq<Pair>, b: seq<Pair>, n: nat)
    requires AllInLoopOrder(a) && AllInLoopOrder(b)
    requires forall p :: p in a ==> Max(p.left, p.right) < n
    requires forall p :: p in b ==> Max(p.left, p.right) == n
    ensures AllInLoopOrder(a + b)
  {
    forall i, j | 0 <= i < j < |a + b| ensures InLoopOrder((a + b)[i], (a + b)[j]) {
      if i < |a| <= j {
        assert a[i] in a && b[j - |a|] in b;
      }
    }
  }

  lemma {:induction false} PairsAreEarlier(cfg: JoinConfig, run: seq<JoinEvent>, n: nat)
    requires n <= |run|
    ensures forall p :: p in PairsUpTo(cfg, run, n) ==> Max(p.left, p.right) < n
  {
    NestedLoopIsExact(cfg, run, n);
  }

  lemma NextLoopInOrder(cfg: JoinConfig, run: seq<JoinEvent>, m: nat)
    requires m < |run| && AllInLoopOrder(PairsUpTo(cfg, run, m))
    ensures AllInLoopOrder(PairsUpTo(cfg, run, m + 1))
  {
    var before, inner := PairsUpTo(cfg, run, m), PairsAt(cfg, run, m, m);
    PairsAreEarlier(cfg, run, m);
    InnerLoopOrder(cfg, run, m, m);
    AppendInOrder(before, inner, m);
    assert PairsUpTo(cfg, run, m + 1) == before + inner;
  }

  /** The nested loop comes to its pairs in loop order, so it has only one way to list them. */
  lemma {:induction false} NestedLoopOrder(cfg: JoinConfig, run: seq<JoinEvent>, n: nat)
    requires n <= |run|
    ensures AllInLoopOrder(PairsUpTo(cfg, run, n))
  {
    if n == 0 {
    } else {
      NestedLoopOrder(cfg, run, n - 1);
      NextLoopInOrder(cfg, run, n - 1);
    }
  }

  lemma MatchesIsPair(cfg: JoinConfig, run: seq<JoinEvent>, p: Pair)
    ensures Matches(cfg, run, p) <==> IsPair(cfg, run, p)
  {
  }

  /** A result has the key and the timestamp of its left record, and joins the two values left before right. */
  ghost predicate IsResult(cfg: JoinConfig, run: seq<JoinEvent>, p: Pair, result: Record) {
    && IsPair(cfg, run, p)
    && var l, r := run[p.left].record, run[p.right].record;
       result == Record(cfg.join(l.value, r.value), l.key, l.timestamp)
  }

  lemma ResultIsJoined(cfg: JoinConfig, run: seq<JoinEvent>, p: Pair)
    requires Matches(cfg, run, p)
    ensures IsResult(cfg, run, p, ResultOf(cfg, run)(p))
  {
  }

  /** What the join emits on an on-time run, in terms of the records that arrived: one result for each
      left and right record with equal keys within the bound, in loop order. */
  lemma JoinEmitsPairs(cfg: JoinConfig, run: seq<JoinEvent>) returns (pairs: seq<Pair>)
    requires OnTime(run)
    ensures AllInLoopOrder(pairs) && forall p :: p in pairs <==> IsPair(cfg, run, p)
    ensures var out := OutputUpTo(cfg, run, |run|);
            |out| == |pairs| && forall k :: 0 <= k < |pairs| ==> IsResult(cfg, run, pairs[k], out[k])
  {
    pairs := PairsUpTo(cfg, run, |run|);
    JoinIsNestedLoop(cfg, run, |run|);
    NestedLoopIsExact(cfg, run, |run|);
    NestedLoopOrder(cfg, run, |run|);
    forall p ensures p in pairs <==> IsPair(cfg, run, p) {
      MatchesIsPair(cfg, run, p);
    }
    MapLength(ResultOf(cfg, run), pairs);
    forall k | 0 <= k < |pairs| ensures IsResult(cfg, run, pairs[k], OutputUpTo(cfg, run, |run|)[k]) {
      assert pairs[k] in pairs;
      MapAt(ResultOf(cfg, run), pairs, k);
      ResultIsJoined(cfg, run, pairs[k]);
    }
  }

  // What eviction leaves in the buffers.

  /** The event at i is a record of one side and key that no watermark before position n has expired. */
  ghost predicate Survives(cfg: JoinConfig, run: seq<JoinEvent>, isLeft: bool, key: Key, i: nat, n: nat)
    requires i < n <= |run|
  {
    && run[i].Arrival? && run[i].isLeft == isLeft && run[i].record.key == key
    && forall m :: i < m < n && run[m].Watermark? ==> run[m].timestamp - cfg.bound <= run[i].record.timestamp
  }

  /** The survivors among the first m events, in order. */
  ghost function Survivors(cfg: JoinConfig, run: seq<JoinEvent>, isLeft: bool, key: Key, m: nat, n: nat): seq<Stamped>
    requires m <= n <= |run|
  {
    if m == 0 then []
    else if Survives(cfg, run, isLeft, key, m - 1, n) then
      Survivors(cfg, run, isLeft, key, m - 1, n) + [StampedAt(run, m - 1)]
    else Survivors(cfg, run, isLeft, key, m - 1, n)
  }

  lemma {:induction false} SurvivorsStep(cfg: JoinConfig, run: seq<JoinEvent>, isLeft: bool, key: Key, m: nat, n: nat)
    requires m <= n < |run|
    ensures Survivors(cfg, run, isLeft, key, m, n + 1)
            == if run[n].Watermark?
               then Filter(Recent(run[n].timestamp - cfg.bound), Survivors(cfg, run, isLeft, key, m, n))
               else Survivors(cfg, run, isLeft, key, m, n)
    decreases m
  {
    if m == 0 {
    } else {
      SurvivorsStep(cfg, run, isLeft, key, m - 1, n);
      if run[n].Watermark? && Survives(cfg, run, isLeft, key, m - 1, n) {
        var cutoff := run[n].timestamp - cfg.bound;
        FilterSnoc(Recent(cutoff), Survivors(cfg, run, isLeft, key, m - 1, n), StampedAt(run, m - 1));
      }
    }
  }

  lemma SurvivorsGrow(cfg: JoinConfig, run: seq<JoinEvent>, isLeft: bool, key: Key, n: nat)
    requires n < |run|
    ensures var before := Survivors(cfg, run, isLeft, key, n, n);
            Survivors(cfg, run, isLeft, key, n + 1, n + 1)
            == match run[n]
               case Watermark(w) => Filter(Recent(w - cfg.bound), before)
               case Arrival(side, r) =>
                 if side == isLeft && r.key == key then before + [Stamped(r.timestamp, r.value)] else before
  {
    SurvivorsStep(cfg, run, isLeft, key, n, n);
  }

  /** At every moment of any run, on time or not, a buffer holds for each key exactly the records of its
      side that no later watermark has expired, in arrival order. */
  lemma {:induction false} BufferHoldsSurvivors(cfg: JoinConfig, run: seq<JoinEvent>, n: nat, isLeft: bool, key: Key)
    requires n <= |run|
    ensures Held(Side(StateAfter(cfg, run[..n]), isLeft), key) == Survivors(cfg, run, isLeft, key, n, n)
    decreases n
  {
    if n == 0 {
      assert run[..0] == [];
    } else {
      var m := n - 1;
      BufferHoldsSurvivors(cfg, run, m, isLeft, key);
      StateStep(cfg, run, m);
      SurvivorsGrow(cfg, run, isLeft, key, m);
      match run[m]
      case Watermark(w) => SideAfterWatermark(cfg, StateAfter(cfg, run[..m]), w, isLeft, key);
      case Arrival(side, r) => HeldAfterArrival(StateAfter(cfg, run[..m]), side, r, isLeft, key);
    }
  }

  /** Keys with nothing left are not kept. */
  lemma {:induction false} NoEmptyKeys(cfg: JoinConfig, run: seq<JoinEvent>, isLeft: bool, key: Key)
    requires key in Side(StateAfter(cfg, run), isLeft)
    ensures Held(Side(StateAfter(cfg, run), isLeft), key) != []
    decreases |run|
  {
    var n := |run| - 1;
    if run[n].Arrival? && key in Side(StateAfter(cfg, run[..n]), isLeft) {
      NoEmptyKeys(cfg, run[..n], isLeft, key);
    }
  }
}
