/** The source stamps records with the clock at the moment they are read (taskmanager/operators/
    sources.py:234-244), so a replay reads other timestamps. When operator states depend on that. */
module ClockIndependence {
  import opened Common
  import opened Records
  import opened Windows
  import W = WindowOperators
  import J = JoinOperators
  import opened Operators
  import opened ChainFunctions
  import opened InFlight
  import opened Recovery

  /** Only windows and joins look at timestamps. */
  predicate ClockBlind(op: Operator) {
    !op.WindowOp? && !op.JoinOp?
  }

  predicate AllClockBlind(ops: seq<Operator>) {
    forall i :: 0 <= i < |ops| ==> ClockBlind(ops[i])
  }

  function Unstamped(rs: seq<Record>): seq<Record> {
    if rs == [] then [] else [rs[0].(timestamp := 0)] + Unstamped(rs[1..])
  }

  predicate AllStamped(rs: seq<Record>, t: int) {
    forall i :: 0 <= i < |rs| ==> rs[i].timestamp == t
  }

  /** The operators behind the source after a list of values, all read at time t. */
  function Fed(ops: seq<Operator>, vs: seq<Value>, t: int): (r: seq<Operator>)
    ensures |r| == |ops|
  {
    if vs == [] then ops
    else
      var n := |vs| - 1;
      ThroughAllLength(Fed(ops, vs[..n], t), [Record(vs[n], NoKey, t)]);
      ThroughAll(Fed(ops, vs[..n], t), [Record(vs[n], NoKey, t)]).0
  }

  /** What the last of those operators emits meanwhile. */
  function Emitted(ops: seq<Operator>, vs: seq<Value>, t: int): seq<Record> {
    if vs == [] then []
    else
      var n := |vs| - 1;
      Emitted(ops, vs[..n], t) + ThroughAll(Fed(ops, vs[..n], t), [Record(vs[n], NoKey, t)]).1
  }

  function FirstJoin(ops: seq<Operator>): (j: nat)
    ensures j <= |ops| && (j < |ops| ==> ops[j].JoinOp?)
    ensures forall i :: 0 <= i < j ==> !ops[i].JoinOp?
  {
    if ops == [] || ops[0].JoinOp? then 0 else 1 + FirstJoin(ops[1..])
  }

  predicate NoWindow(ops: seq<Operator>) {
    forall i :: 0 <= i < |ops| ==> !ops[i].WindowOp?
  }

  /** The operators before the first join, as newly built; the source is left out. */
  function BeforeJoin(ops: seq<Operator>): seq<Operator>
    requires IsSourceChain(ops)
  {
    FreshAllAt(ops);
    FreshAll(ops)[1..Max(1, FirstJoin(ops))]
  }

  /** No operator sees a timestamp: there is no window, and no record of the collection gets as far
      as a join. It can be read off the job and its collection. */
  predicate TimestampsUnseen(ops: seq<Operator>)
    requires IsSourceChain(ops)
  {
    && NoWindow(ops)
    && (FirstJoin(ops) < |ops| ==> Emitted(BeforeJoin(ops), ops[0].collection, 0) == [])
  }

  // Timestamps do not matter to operators that are blind to them.

  lemma UnstampedOne(r: Record)
    ensures Unstamped([r]) == [r.(timestamp := 0)]
  {
    assert [r][1..] == [];
  }

  lemma {:induction false} UnstampedAppend(a: seq<Record>, b: seq<Record>)
    ensures Unstamped(a + b) == Unstamped(a) + Unstamped(b)
  {
    if a == [] {
      assert a + b == b;
    } else {
      assert (a + b)[1..] == a[1..] + b;
      UnstampedAppend(a[1..], b);
    }
  }

  lemma {:induction false} UnstampedLength(a: seq<Record>)
    ensures |Unstamped(a)| == |a|
  {
    if a == [] {
    } else {
      UnstampedLength(a[1..]);
    }
  }

  lemma {:induction false} WithValuesBlind(r: Record, r': Record, vs: seq<Value>)
    requires r.(timestamp := 0) == r'.(timestamp := 0)
    ensures Unstamped(WithValues(r, vs)) == Unstamped(WithValues(r', vs))
  {
    if vs == [] {
    } else {
      WithValuesBlind(r, r', vs[1..]);
      assert WithValues(r, vs)[1..] == WithValues(r, vs[1..]);
      assert WithValues(r', vs)[1..] == WithValues(r', vs[1..]);
    }
  }

  lemma {:induction false} WithValuesStamped(r: Record, vs: seq<Value>)
    ensures AllStamped(WithValues(r, vs), r.timestamp)
  {
    if vs == [] {
    } else {
      WithValuesStamped(r, vs[1..]);
      assert WithValues(r, vs) == [r.WithValue(vs[0])] + WithValues(r, vs[1..]);
    }
  }

  lemma ElementBlind(op: Operator, r: Record, r': Record)
    requires ClockBlind(op) && r.(timestamp := 0) == r'.(timestamp := 0)
    ensures OnElement(op, r).0 == OnElement(op, r').0 && ClockBlind(OnElement(op, r).0)
    ensures Unstamped(OnElement(op, r).1) == Unstamped(OnElement(op, r').1)
  {
    match op
    case FlatMapOp(g) => WithValuesBlind(r, r', g(r.value));
    case _ =>
  }

  lemma ElementStamped(op: Operator, r: Record)
    requires ClockBlind(op)
    ensures ClockBlind(OnElement(op, r).0) && AllStamped(OnElement(op, r).1, r.timestamp)
  {
    match op
    case FlatMapOp(g) => WithValuesStamped(r, g(r.value));
    case _ =>
  }

  lemma {:induction false} ThroughBlind(op: Operator, rs: seq<Record>, rs': seq<Record>)
    requires ClockBlind(op) && Unstamped(rs) == Unstamped(rs')
    ensures Through(op, rs).0 == Through(op, rs').0 && ClockBlind(Through(op, rs).0)
    ensures Unstamped(Through(op, rs).1) == Unstamped(Through(op, rs').1)
    decreases |rs|
  {
    UnstampedLength(rs);
    UnstampedLength(rs');
    if rs == [] {
    } else {
      assert Unstamped(rs)[0] == Unstamped(rs')[0] && Unstamped(rs)[1..] == Unstamped(rs')[1..];
      ElementBlind(op, rs[0], rs'[0]);
      var next := OnElement(op, rs[0]).0;
      ThroughBlind(next, rs[1..], rs'[1..]);
      UnstampedAppend(OnElement(op, rs[0]).1, Through(next, rs[1..]).1);
      UnstampedAppend(OnElement(op, rs'[0]).1, Through(next, rs'[1..]).1);
    }
  }

  lemma {:induction false} ThroughStamped(op: Operator, rs: seq<Record>, t: int)
    requires ClockBlind(op) && AllStamped(rs, t)
    ensures ClockBlind(Through(op, rs).0) && AllStamped(Through(op, rs).1, t)
    decreases |rs|
  {
    if rs == [] {
    } else {
      ElementStamped(op, rs[0]);
      ThroughStamped(OnElement(op, rs[0]).0, rs[1..], t);
    }
  }

  lemma {:induction false} ThroughAllBlind(ops: seq<Operator>, rs: seq<Record>, rs': seq<Record>)
    requires AllClockBlind(ops) && Unstamped(rs) == Unstamped(rs')
    ensures ThroughAll(ops, rs).0 == ThroughAll(ops, rs').0 && AllClockBlind(ThroughAll(ops, rs).0)
    ensures Unstamped(ThroughAll(ops, rs).1) == Unstamped(ThroughAll(ops, rs').1)
    decreases |ops|
  {
    if ops == [] {
    } else {
      ThroughBlind(ops[0], rs, rs');
      ThroughAllBlind(ops[1..], Through(ops[0], rs).1, Through(ops[0], rs').1);
    }
  }

  lemma {:induction false} ThroughAllStamped(ops: seq<Operator>, rs: seq<Record>, t: int)
    requires AllClockBlind(ops) && AllStamped(rs, t)
    ensures AllClockBlind(ThroughAll(ops, rs).0) && AllStamped(ThroughAll(ops, rs).1, t)
    decreases |ops|
  {
    if ops == [] {
    } else {
      ThroughStamped(ops[0], rs, t);
      ThroughAllStamped(ops[1..], Through(ops[0], rs).1, t);
    }
  }

  lemma {:induction false} OneRecordBlind(ops: seq<Operator>, r: Record, t: int)
    requires AllClockBlind(ops)
    ensures var a, b := ThroughAll(ops, [r]), ThroughAll(ops, [r.(timestamp := t)]);
            a.0 == b.0 && AllClockBlind(a.0) && Unstamped(a.1) == Unstamped(b.1) && (a.1 == [] <==> b.1 == [])
  {
    UnstampedOne(r);
    UnstampedOne(r.(timestamp := t));
    ThroughAllBlind(ops, [r], [r.(timestamp := t)]);
    UnstampedLength(ThroughAll(ops, [r]).1);
    UnstampedLength(ThroughAll(ops, [r.(timestamp := t)]).1);
  }

  /** Blind operators reach the same states, and emit equally much, at whatever time they are fed. */
  lemma {:induction false} FedBlind(ops: seq<Operator>, vs: seq<Value>, t: int)
    requires AllClockBlind(ops)
    ensures Fed(ops, vs, t) == Fed(ops, vs, 0) && AllClockBlind(Fed(ops, vs, t))
    ensures Emitted(ops, vs, t) == [] <==> Emitted(ops, vs, 0) == []
    decreases |vs|
  {
    if vs == [] {
    } else {
      var n := |vs| - 1;
      FedBlind(ops, vs[..n], t);
      OneRecordBlind(Fed(ops, vs[..n], t), Record(vs[n], NoKey, t), 0);
    }
  }

  lemma {:induction false} NothingEmittedSoFar(ops: seq<Operator>, vs: seq<Value>, n: nat)
    requires n < |vs| && Emitted(ops, vs, 0) == []
    ensures ThroughAll(Fed(ops, vs[..n], 0), [Record(vs[n], NoKey, 0)]).1 == []
    decreases |vs|
  {
    var m := |vs| - 1;
    if n < m {
      NothingEmittedSoFar(ops, vs[..m], n);
      assert vs[..m][..n] == vs[..n];
    }
  }

  // If no operator sees a timestamp, states are determined by progress.

  ghost predicate Idle(p: Pass) {
    p.flight.None? && p.triggered == []
  }

  /** The operators before the first join are those fed with the processed elements, or will be when
      the element under way has landed; it never gets as far as a join. */
  ghost predicate ElementSettled(ops: seq<Operator>, s: TaskState)
    requires IsSourceChain(ops) && |s.ops| == |ops|
  {
    var j := FirstJoin(ops);
    match s.element
    case None => s.ops[1..j] == Fed(BeforeJoin(ops), s.processed, 0)
    case Some(e) =>
      && Airborne(j, e.flight)
      && var landed := Land(s.ops[..j], e.flight);
         && landed.0[1..] == Fed(BeforeJoin(ops), s.processed + [e.value], 0)
         && (j < |ops| ==> landed.1 == [])
  }

  ghost predicate Settled(ops: seq<Operator>, s: TaskState)
    requires IsSourceChain(ops)
  {
    var j := FirstJoin(ops);
    && NothingLost(s) && s.ops[0].collection == ops[0].collection
    && |s.ops| == |ops| && |FreshAll(ops)| == |ops|
    && s.ops[j..] == FreshAll(ops)[j..]
    && AllClockBlind(s.ops[..j])
    && ElementSettled(ops, s)
    && (forall i :: 0 <= i < |s.passes| ==> Idle(s.passes[i]) && s.passes[i].turn <= |ops|)
    && forall i :: 0 <= i < |s.pending| ==> s.pending[i].key == NoKey
  }

  lemma FreshIsSettled(ops: seq<Operator>)
    requires IsSourceChain(ops) && NoWindow(ops)
    ensures Settled(ops, NewTask(ops))
  {
    FreshAllAt(ops);
    NewTaskLosesNothing(ops);
  }

  lemma {:induction false} ElementKeys(collection: seq<Value>, i: nat, n: nat, clock: nat -> int)
    requires i + n <= |collection|
    ensures forall r :: r in Payload(Elements(collection, i, n, clock)) ==> r.key == NoKey
    decreases n
  {
    if n == 0 {
    } else {
      ElementKeys(collection, i + 1, n - 1, clock);
      assert Elements(collection, i, n, clock)[1..] == Elements(collection, i + 1, n - 1, clock);
    }
  }

  lemma PollStaysSettled(ops: seq<Operator>, s: TaskState, m: int, clock: nat -> int)
    requires IsSourceChain(ops) && Settled(ops, s)
    ensures Settled(ops, AfterPoll(s, m, clock))
  {
    PollLosesNothing(s, m, clock);
    if s.pending == [] && s.element.None? {
      var src, j := s.ops[0], FirstJoin(ops);
      var r := AfterPoll(s, m, clock);
      ElementKeys(src.collection, src.index, BatchSize(src.collection, src.index, m), clock);
      assert r.ops == s.ops[0 := AfterRead(src, m, clock).0];
      assert r.ops[1..j] == s.ops[1..j] && r.ops[j..] == s.ops[j..];
      assert forall i :: 0 <= i < |r.pending| ==> r.pending[i] in r.pending;
    }
  }

  /** The next element is the one of the collection that follows those processed. */
  lemma NextElement(s: TaskState)
    requires NothingLost(s) && s.pending != [] && s.element.None?
    ensures var c, n := s.ops[0].collection, |s.processed|;
            n < |c| && c[..n] == s.processed && c[n] == s.pending[0].value
  {
    var all := s.ops[0].collection[..s.ops[0].index];
    assert all == s.processed + ([] + ([s.pending[0].value] + Values(s.pending[1..])));
    assert all[..|s.processed|] == s.processed && all[|s.processed|] == s.pending[0].value;
  }

  /** A record taken through blind operators at any time leaves them as if it had been fed at 0. */
  lemma {:induction false} FlightFeeds(ops: seq<Operator>, newOps: seq<Operator>, vs: seq<Value>, r: Record)
    requires ops != [] && AllClockBlind(ops) && ops[1..] == Fed(newOps, vs, 0) && r.key == NoKey
    ensures var landed := LandAll(ops, Launch(|ops|, 1, r));
            && landed.0[1..] == Fed(newOps, vs + [r.value], 0)
            && AllClockBlind(landed.0)
            && (landed.1 == [] <==> ThroughAll(Fed(newOps, vs, 0), [Record(r.value, NoKey, 0)]).1 == [])
  {
    LaunchLands(ops, 1, r);
    OneRecordBlind(ops[1..], r, 0);
    BehindFirst(ops[0], ThroughAll(ops[1..], [r]).0);
    assert ops[..1] == [ops[0]];
    assert (vs + [r.value])[..|vs|] == vs;
  }

  lemma BehindFirst(op: Operator, rest: seq<Operator>)
    ensures ([op] + rest)[0] == op && ([op] + rest)[1..] == rest
    ensures ClockBlind(op) && AllClockBlind(rest) ==> AllClockBlind([op] + rest)
  {
  }

  lemma {:induction false} RecordStaysBeforeJoin(ops: seq<Operator>, s: TaskState)
    requires IsSourceChain(ops) && TimestampsUnseen(ops) && Settled(ops, s)
    requires s.pending != [] && s.element.None?
    ensures var r, j := s.pending[0], FirstJoin(ops);
            var landed := LandAll(s.ops[..j], Launch(j, 1, r));
            && landed.0[1..] == Fed(BeforeJoin(ops), s.processed + [r.value], 0)
            && AllClockBlind(landed.0)
            && (j < |ops| ==> landed.1 == [])
  {
    var j := FirstJoin(ops);
    assert s.ops[..j][1..] == s.ops[1..j];
    FlightFeeds(s.ops[..j], BeforeJoin(ops), s.processed, s.pending[0]);
    if j < |ops| {
      NextElement(s);
      NothingEmittedSoFar(BeforeJoin(ops), ops[0].collection, |s.processed|);
    }
  }

  lemma TakeStaysSettled(ops: seq<Operator>, s: TaskState)
    requires IsSourceChain(ops) && TimestampsUnseen(ops) && Settled(ops, s)
    ensures Settled(ops, AfterTake(s))
  {
    TakeLosesNothing(s);
    if s.pending != [] && s.element.None? {
      RecordStaysBeforeJoin(ops, s);
      assert Launch(|ops|, 1, s.pending[0]) == Launch(FirstJoin(ops), 1, s.pending[0]);
    }
  }

  /** A call before the first join is one of the shorter chain, as long as nothing leaves it. */
  lemma {:induction false} CallBeforeJoin(ops: seq<Operator>, j: nat, f: Flight)
    requires j <= |ops| && Airborne(j, f) && (j < |ops| ==> Land(ops[..j], f).1 == [])
    ensures var whole, part := Call(ops, f), Call(ops[..j], f);
            whole.0[..j] == part.0 && whole.0[j..] == ops[j..] && whole.1 == part.1
  {
    var whole, part := Call(ops, f), Call(ops[..j], f);
    assert whole.0[..j] == part.0 && whole.0[j..] == ops[j..];
    var step := OnElement(ops[f.at], f.todo[0]);
    if f.todo[1..] == [] && f.next + step.1 != [] && f.at + 1 == j {
      assert part.1 == Landed(f.next + step.1);
    }
  }

  lemma TurnStaysSettled(ops: seq<Operator>, s: TaskState)
    requires IsSourceChain(ops) && Settled(ops, s)
    ensures Settled(ops, AfterTurn(s))
  {
    TurnLosesNothing(s);
    if s.element.Some? {
      var j, f := FirstJoin(ops), s.element.value.flight;
      CallBeforeJoin(s.ops, j, f);
      assert s.ops[..j][f.at] == s.ops[f.at];
      ElementStamped(s.ops[f.at], f.todo[0]);
      var called := Call(s.ops, f).0;
      assert called[1..j] == called[..j][1..];
    }
  }

  /** A watermark changes nothing: operators before the first join are blind, those behind are empty. */
  lemma WatermarkIsIdle(ops: seq<Operator>, s: TaskState, k: nat, t: int)
    requires IsSourceChain(ops) && NoWindow(ops) && Settled(ops, s) && k < |ops|
    ensures OnWatermark(s.ops[k], t) == (s.ops[k], [])
  {
    var j := FirstJoin(ops);
    FreshAllAt(ops);
    if k < j {
      assert s.ops[k] == s.ops[..j][k];
    } else {
      assert s.ops[k] == s.ops[j..][k - j] == FreshAll(ops)[k] == Fresh(ops[k]);
      NoRecordsToEvict(t);
    }
  }

  lemma NoRecordsToEvict(t: int)
    ensures forall cfg :: J.AfterWatermark(cfg, J.EMPTY_JOIN, t) == J.EMPTY_JOIN
  {
    assert forall cutoff :: J.Evicted(map[], cutoff) == map[];
  }

  lemma PassTurnIsIdle(ops: seq<Operator>, s: TaskState, i: nat)
    requires IsSourceChain(ops) && NoWindow(ops) && Settled(ops, s) && i < |s.passes|
    ensures var p := s.passes[i];
            var step := PassStep(s.ops, p);
            step.0 == s.ops && step.2 == [] && Idle(step.1) && step.1.turn <= |ops|
  {
    var p := s.passes[i];
    if p.turn < |ops| {
      WatermarkIsIdle(ops, s, p.turn, p.timestamp);
      assert s.ops[p.turn := s.ops[p.turn]] == s.ops;
    }
  }

  lemma PassTurnStaysSettled(ops: seq<Operator>, s: TaskState, i: nat)
    requires IsSourceChain(ops) && NoWindow(ops) && Settled(ops, s)
    ensures Settled(ops, AfterPassTurn(s, i))
  {
    if i < |s.passes| {
      PassTurnIsIdle(ops, s, i);
      var r := AfterPassTurn(s, i);
      assert r == s.(passes := r.passes) by {
        assert s.out + [] == s.out;
      }
    }
  }

  lemma AdvanceStaysSettled(ops: seq<Operator>, s: TaskState, step: Step)
    requires IsSourceChain(ops) && TimestampsUnseen(ops) && Settled(ops, s)
    ensures Settled(ops, Advance(s, step))
  {
    match step
    case Poll(m, clock) => PollStaysSettled(ops, s, m, clock);
    case Take => TakeStaysSettled(ops, s);
    case Turn => TurnStaysSettled(ops, s);
    case PassTurn(i) => PassTurnStaysSettled(ops, s, i);
    case _ =>
  }

  lemma {:induction false} UndisturbedIsSettled(ops: seq<Operator>, steps: seq<Step>)
    requires IsSourceChain(ops) && TimestampsUnseen(ops)
    ensures Settled(ops, Undisturbed(ops, steps))
    decreases |steps|
  {
    if steps == [] {
      FreshIsSettled(ops);
    } else {
      var n := |steps| - 1;
      UndisturbedIsSettled(ops, steps[..n]);
      AdvanceStaysSettled(ops, Undisturbed(ops, steps[..n]), steps[n]);
    }
  }

  /** Two runs of one job, free to differ in crashes, batches, watermarks and clocks, that restore
      only quiet snapshots and have processed equally many elements. */
  ghost predicate EquallyFar(ops: seq<Operator>, run: seq<Step>, other: seq<Step>) {
    && OnlyQuietRestores(ops, run) && OnlyQuietRestores(ops, other)
    && After(ops, run).task.element.None? && After(ops, other).task.element.None?
    && |After(ops, run).task.processed| == |After(ops, other).task.processed|
  }

  /** The operators behind the source are in the same states. */
  ghost predicate SameStates(ops: seq<Operator>, run: seq<Step>, other: seq<Step>) {
    var a, b := After(ops, run).task.ops, After(ops, other).task.ops;
    a != [] && b != [] && a[1..] == b[1..]
  }

  lemma {:induction false} RunIsSettled(ops: seq<Operator>, run: seq<Step>)
    requires IsSourceChain(ops) && TimestampsUnseen(ops) && OnlyQuietRestores(ops, run)
    ensures Settled(ops, After(ops, run).task)
  {
    QuietRestoresAreInvisible(ops, run, |run|);
    assert run[..|run|] == run;
    UndisturbedIsSettled(ops, Surviving(run).current);
  }

  lemma ProcessedIsPrefix(s: TaskState)
    requires NothingLost(s)
    ensures var c := s.ops[0].collection; |s.processed| <= |c| && s.processed == c[..|s.processed|]
  {
    var c, i, n := s.ops[0].collection, s.ops[0].index, |s.processed|;
    assert |s.processed + InHand(s)| == i;
    assert c[..n] == c[..i][..n] == s.processed;
  }

  lemma SettledStatesAgree(ops: seq<Operator>, a: TaskState, b: TaskState)
    requires IsSourceChain(ops) && Settled(ops, a) && Settled(ops, b)
    requires a.element.None? && b.element.None? && |a.processed| == |b.processed|
    ensures a.ops[1..] == b.ops[1..]
  {
    ProcessedIsPrefix(a);
    ProcessedIsPrefix(b);
    FirstJoinBehindSource(ops);
    SplitBehindSource(a.ops, FirstJoin(ops));
    SplitBehindSource(b.ops, FirstJoin(ops));
  }

  lemma {:induction false} FirstJoinBehindSource(ops: seq<Operator>)
    requires IsSourceChain(ops)
    ensures 1 <= FirstJoin(ops) <= |ops|
  {
  }

  lemma SplitBehindSource(ops: seq<Operator>, j: nat)
    requires 1 <= j <= |ops|
    ensures ops[1..] == ops[1..j] + ops[j..]
  {
  }

  lemma UnseenTimestampsDoNotMatter(ops: seq<Operator>, run: seq<Step>, other: seq<Step>)
    requires IsSourceChain(ops) && TimestampsUnseen(ops) && EquallyFar(ops, run, other)
    ensures SameStates(ops, run, other)
  {
    RunIsSettled(ops, run);
    RunIsSettled(ops, other);
    SettledStatesAgree(ops, After(ops, run).task, After(ops, other).task);
  }

  // If one does, two runs show it. A window remembers the last watermark.

  ghost predicate NoCrash(run: seq<Step>) {
    forall i :: 0 <= i < |run| ==> !run[i].Crash?
  }

  lemma NoCrashMore(run: seq<Step>, step: Step)
    requires NoCrash(run) && !step.Crash?
    ensures NoCrash(run + [step])
  {
  }

  lemma FreshIgnoresWatermark(op: Operator, t: int)
    requires !op.WindowOp?
    ensures OnWatermark(Fresh(op), t) == (Fresh(op), [])
  {
    NoRecordsToEvict(t);
  }

  /** The task after k turns of the only watermark under way. */
  function TurnsOfPass(s: TaskState, k: nat): TaskState {
    if k == 0 then s else AfterPassTurn(TurnsOfPass(s, k - 1), 0)
  }

  function WatermarkArrived(ops: seq<Operator>): TaskState {
    NewTask(ops).(passes := [Pass(5, 0, [], None)])
  }

  lemma {:induction false} PassBegins(ops: seq<Operator>)
    ensures After(ops, [Watermark(5)]).task == WatermarkArrived(ops)
  {
    AfterOneMore(ops, [], Watermark(5));
    assert [] + [Watermark(5)] == [Watermark(5)] && [] + [Pass(5, 0, [], None)] == [Pass(5, 0, [], None)];
  }

  lemma OneTurnMore(ops: seq<Operator>, run: seq<Step>, k: nat)
    requires NoCrash(run) && After(ops, run).task == TurnsOfPass(WatermarkArrived(ops), k)
    ensures NoCrash(run + [PassTurn(0)])
    ensures After(ops, run + [PassTurn(0)]).task == TurnsOfPass(WatermarkArrived(ops), k + 1)
  {
    NoCrashMore(run, PassTurn(0));
    AfterOneMore(ops, run, PassTurn(0));
  }

  lemma {:induction false} RunOfPass(ops: seq<Operator>, k: nat) returns (run: seq<Step>)
    ensures NoCrash(run) && After(ops, run).task == TurnsOfPass(WatermarkArrived(ops), k)
  {
    if k == 0 {
      run := [Watermark(5)];
      PassBegins(ops);
    } else {
      var shorter := RunOfPass(ops, k - 1);
      OneTurnMore(ops, shorter, k - 1);
      run := shorter + [PassTurn(0)];
    }
  }

  /** After k turns the watermark has changed nothing. */
  ghost predicate IdleSoFar(ops: seq<Operator>, k: nat) {
    TurnsOfPass(WatermarkArrived(ops), k) == NewTask(ops).(passes := [Pass(5, k, [], None)])
  }

  lemma IdleTurn(ops: seq<Operator>, k: nat)
    requires k + 1 < |ops| && !ops[k].WindowOp? && IdleSoFar(ops, k)
    ensures IdleSoFar(ops, k + 1)
  {
    FreshAllAt(ops);
    FreshIgnoresWatermark(ops[k], 5);
    WatermarkTurn(NewTask(ops).(passes := [Pass(5, k, [], None)]), Pass(5, k, [], None));
    assert FreshAll(ops)[k := FreshAll(ops)[k]] == FreshAll(ops);
  }

  lemma IdleAtFirst(ops: seq<Operator>)
    ensures IdleSoFar(ops, 0)
  {
  }

  lemma {:induction false} NothingBeforeWindow(ops: seq<Operator>, w: nat, k: nat)
    requires k <= w < |ops| && NoWindow(ops[..w])
    ensures IdleSoFar(ops, k)
  {
    if k == 0 {
      IdleAtFirst(ops);
    } else {
      assert !ops[..w][k - 1].WindowOp?;
      NothingBeforeWindow(ops, w, k - 1);
      IdleTurn(ops, k - 1);
    }
  }

  lemma FirstWindow(ops: seq<Operator>) returns (w: nat)
    requires !NoWindow(ops)
    ensures w < |ops| && ops[w].WindowOp? && NoWindow(ops[..w])
  {
    w := 0;
    while !ops[w].WindowOp?
      invariant w < |ops| && NoWindow(ops[..w])
      decreases |ops| - w
    {
      assert w + 1 == |ops| ==> NoWindow(ops);
      w := w + 1;
    }
  }

  ghost predicate Remembers(s: TaskState, n: nat, w: nat) {
    && w < |s.ops| == n && s.ops[w].WindowOp? && s.ops[w].windows.watermark == 5
    && s.element.None? && s.processed == []
  }

  lemma {:induction false} WindowTurn(ops: seq<Operator>, w: nat)
    requires w < |ops| && ops[w].WindowOp? && IdleSoFar(ops, w)
    ensures Remembers(TurnsOfPass(WatermarkArrived(ops), w + 1), |ops|, w)
  {
    FreshAllAt(ops);
    WatermarkTurn(NewTask(ops).(passes := [Pass(5, w, [], None)]), Pass(5, w, [], None));
  }

  lemma {:induction false} PassReachesWindow(ops: seq<Operator>, w: nat)
    requires w < |ops| && ops[w].WindowOp? && NoWindow(ops[..w])
    ensures Remembers(TurnsOfPass(WatermarkArrived(ops), w + 1), |ops|, w)
  {
    NothingBeforeWindow(ops, w, w);
    WindowTurn(ops, w);
  }

  lemma WindowRemembers(ops: seq<Operator>, w: nat) returns (run: seq<Step>)
    requires w < |ops| && ops[w].WindowOp? && NoWindow(ops[..w])
    ensures NoCrash(run) && Remembers(After(ops, run).task, |ops|, w)
  {
    run := RunOfPass(ops, w + 1);
    PassReachesWindow(ops, w);
  }

  lemma NoCrashIsQuiet(ops: seq<Operator>, run: seq<Step>)
    requires NoCrash(run)
    ensures OnlyQuietRestores(ops, run)
  {
  }

  lemma WindowsSeeWatermarks(ops: seq<Operator>) returns (run: seq<Step>, other: seq<Step>)
    requires IsSourceChain(ops) && !NoWindow(ops)
    ensures EquallyFar(ops, run, other) && !SameStates(ops, run, other)
  {
    var w := FirstWindow(ops);
    run := [];
    other := WindowRemembers(ops, w);
    NoCrashIsQuiet(ops, run);
    NoCrashIsQuiet(ops, other);
    FreshAllAt(ops);
    var a, b := After(ops, run).task.ops, After(ops, other).task.ops;
    assert a[1..][w - 1] == Fresh(ops[w]) && b[1..][w - 1] == b[w];
  }

  // A join keeps the timestamps of the records that reach it.

  ghost predicate Stamps(b: J.Buffer, t: int) {
    forall key :: key in b ==> b[key] != [] && forall x :: x in b[key] ==> x.timestamp == t
  }

  lemma {:induction false} JoinCollects(op: Operator, rs: seq<Record>, t: int)
    requires op.JoinOp? && op.join.isLeft && Stamps(op.join.left, t) && AllStamped(rs, t)
    ensures var r := Through(op, rs).0;
            && r.JoinOp? && r.join.isLeft && Stamps(r.join.left, t)
            && (r.join.left == map[] <==> op.join.left == map[] && rs == [])
    decreases |rs|
  {
    if rs == [] {
    } else {
      var next := OnElement(op, rs[0]).0;
      assert rs[0].key in next.join.left;
      JoinCollects(next, rs[1..], t);
    }
  }

  lemma {:induction false} ThroughAllSplit(ops: seq<Operator>, k: nat, rs: seq<Record>)
    requires k < |ops|
    ensures var before, whole := ThroughAll(ops[..k], rs), ThroughAll(ops, rs).0;
            |whole| == |ops| && whole[..k] == before.0 && whole[k] == Through(ops[k], before.1).0
    decreases k
  {
    ThroughAllLength(ops, rs);
    if k == 0 {
    } else {
      var first := Through(ops[0], rs);
      assert ops[..k][1..] == ops[1..][..k - 1] && ops[..k][0] == ops[0];
      ThroughAllSplit(ops[1..], k - 1, first.1);
      ThroughAllLength(ops[1..], first.1);
      var whole := ThroughAll(ops, rs).0;
      assert whole == [first.0] + ThroughAll(ops[1..], first.1).0;
      assert whole[..k] == [first.0] + ThroughAll(ops[1..], first.1).0[..k - 1];
    }
  }

  /** Fed at time t, the first join holds exactly the records that reach it, all stamped t. */
  lemma {:induction false} FirstJoinCollects(ops: seq<Operator>, k: nat, vs: seq<Value>, t: int)
    requires k < |ops| && AllClockBlind(ops[..k]) && ops[k].JoinOp? && ops[k].join == J.EMPTY_JOIN
    ensures var r := Fed(ops, vs, t);
            && r[..k] == Fed(ops[..k], vs, t)
            && r[k].JoinOp? && r[k].join.isLeft && Stamps(r[k].join.left, t)
            && (r[k].join.left == map[] <==> Emitted(ops[..k], vs, t) == [])
    decreases |vs|
  {
    if vs == [] {
    } else {
      var n := |vs| - 1;
      var r := Record(vs[n], NoKey, t);
      FirstJoinCollects(ops, k, vs[..n], t);
      FedBlind(ops[..k], vs[..n], t);
      var before := Fed(ops, vs[..n], t);
      ThroughAllSplit(before, k, [r]);
      ThroughAllStamped(before[..k], [r], t);
      JoinCollects(before[k], ThroughAll(before[..k], [r]).1, t);
    }
  }

  /** The element under way can be brought to its end. */
  lemma {:induction false} LandElement(ops: seq<Operator>, run: seq<Step>) returns (longer: seq<Step>)
    requires NoCrash(run) && After(ops, run).task.element.Some?
    requires var s := After(ops, run).task; Airborne(|s.ops|, s.element.value.flight)
    ensures NoCrash(longer)
    ensures var s := After(ops, run).task;
            var landed := Land(s.ops, s.element.value.flight);
            After(ops, longer).task == WithElement(s.(ops := landed.0), s.element.value.value, Landed(landed.1))
    decreases var s := After(ops, run).task; |s.ops| - s.element.value.flight.at,
              |After(ops, run).task.element.value.flight.todo|
  {
    var s := After(ops, run).task;
    longer := run + [Turn];
    AfterOneMore(ops, run, Turn);
    NoCrashMore(run, Turn);
    if Call(s.ops, s.element.value.flight).1.Flying? {
      longer := LandElement(ops, longer);
    }
  }

  /** An element taken to its end at once. */
  lemma TakeAndLand(ops: seq<Operator>, run: seq<Step>) returns (longer: seq<Step>)
    requires NoCrash(run) && After(ops, run).task.pending != [] && After(ops, run).task.element.None?
    requires After(ops, run).task.ops != []
    ensures NoCrash(longer)
    ensures var s, r := After(ops, run).task, After(ops, longer).task;
            && r.ops == [s.ops[0]] + ThroughAll(s.ops[1..], [s.pending[0]]).0
            && r.pending == s.pending[1..] && r.element.None? && r.passes == s.passes
            && r.processed == s.processed + [s.pending[0].value]
  {
    var s := After(ops, run).task;
    AfterOneMore(ops, run, Take);
    NoCrashMore(run, Take);
    LaunchLands(s.ops, 1, s.pending[0]);
    assert s.ops[..1] == [s.ops[0]];
    longer := run + [Take];
    if Launch(|s.ops|, 1, s.pending[0]).Flying? {
      longer := LandElement(ops, longer);
    }
  }

  lemma ReadOne(src: Operator, t: int)
    requires src.SourceOp? && src.index < |src.collection|
    ensures var read := AfterRead(src, 1, (i: nat) => t);
            && read.0 == src.(index := src.index + 1)
            && Payload(read.1) == [Record(src.collection[src.index], NoKey, t)]
  {
    var read := AfterRead(src, 1, (i: nat) => t).1;
    assert read == [SourceRecord(Record(src.collection[src.index], NoKey, t), 0, src.index)];
    PayloadOfOne(read[0]);
  }

  lemma {:induction false} PollOne(ops: seq<Operator>, run: seq<Step>, t: int)
    requires Quiet(After(ops, run).task) && IsSourceChain(After(ops, run).task.ops)
    requires var src := After(ops, run).task.ops[0]; src.index < |src.collection|
    ensures var s := After(ops, run).task;
            var src := s.ops[0];
            After(ops, run + [Poll(1, (i: nat) => t)]).task
            == s.(ops := [src.(index := src.index + 1)] + s.ops[1..],
                  pending := [Record(src.collection[src.index], NoKey, t)])
  {
    AfterOneMore(ops, run, Poll(1, (i: nat) => t));
    ReadOne(After(ops, run).task.ops[0], t);
  }

  /** The first n elements have been read at time t, and nothing is under way. */
  ghost predicate HasRead(ops: seq<Operator>, s: TaskState, n: nat, t: int)
    requires IsSourceChain(ops) && n <= |ops[0].collection|
  {
    var c := ops[0].collection;
    && Quiet(s) && s.processed == c[..n] && |FreshAll(ops)| == |ops|
    && s.ops == [SourceOp(c, n)] + Fed(FreshAll(ops)[1..], c[..n], t)
  }

  lemma {:induction false} FedOneMore(ops: seq<Operator>, vs: seq<Value>, n: nat, t: int)
    requires n < |vs|
    ensures Fed(ops, vs[..n + 1], t) == ThroughAll(Fed(ops, vs[..n], t), [Record(vs[n], NoKey, t)]).0
  {
    assert vs[..n + 1][..n] == vs[..n];
  }

  /** Element n has been read as well, and is pending. */
  ghost predicate HasPolled(ops: seq<Operator>, s: TaskState, n: nat, t: int)
    requires IsSourceChain(ops) && n < |ops[0].collection|
  {
    var c := ops[0].collection;
    && s.pending == [Record(c[n], NoKey, t)] && s.element.None? && s.passes == []
    && s.processed == c[..n] && |FreshAll(ops)| == |ops|
    && s.ops == [SourceOp(c, n + 1)] + Fed(FreshAll(ops)[1..], c[..n], t)
  }

  lemma {:induction false} PollsNext(ops: seq<Operator>, run: seq<Step>, n: nat, t: int)
    requires IsSourceChain(ops) && n < |ops[0].collection|
    requires HasRead(ops, After(ops, run).task, n, t)
    ensures HasPolled(ops, After(ops, run + [Poll(1, (i: nat) => t)]).task, n, t)
  {
    var c := ops[0].collection;
    BehindFirst(SourceOp(c, n), Fed(FreshAll(ops)[1..], c[..n], t));
    PollOne(ops, run, t);
  }

  lemma LandedIsRead(ops: seq<Operator>, s: TaskState, r: TaskState, n: nat, t: int)
    requires IsSourceChain(ops) && n < |ops[0].collection| && HasPolled(ops, s, n, t)
    requires r.ops == [s.ops[0]] + ThroughAll(s.ops[1..], [s.pending[0]]).0
    requires r.pending == s.pending[1..] && r.element.None? && r.passes == s.passes
    requires r.processed == s.processed + [s.pending[0].value]
    ensures HasRead(ops, r, n + 1, t)
  {
    var c := ops[0].collection;
    BehindFirst(SourceOp(c, n + 1), Fed(FreshAll(ops)[1..], c[..n], t));
    FedOneMore(FreshAll(ops)[1..], c, n, t);
    TakeOneMore(c, n);
  }

  /** The next element read at time t and taken to its end. */
  lemma ReadOneMore(ops: seq<Operator>, run: seq<Step>, n: nat, t: int) returns (longer: seq<Step>)
    requires IsSourceChain(ops) && n < |ops[0].collection|
    requires NoCrash(run) && HasRead(ops, After(ops, run).task, n, t)
    ensures NoCrash(longer) && HasRead(ops, After(ops, longer).task, n + 1, t)
  {
    PollsNext(ops, run, n, t);
    NoCrashMore(run, Poll(1, (i: nat) => t));
    var polled := run + [Poll(1, (i: nat) => t)];
    longer := TakeAndLand(ops, polled);
    LandedIsRead(ops, After(ops, polled).task, After(ops, longer).task, n, t);
  }

  lemma {:induction false} NothingRead(ops: seq<Operator>, t: int)
    requires IsSourceChain(ops)
    ensures HasRead(ops, After(ops, []).task, 0, t)
  {
    FreshAllAt(ops);
    assert FreshAll(ops) == [Fresh(ops[0])] + FreshAll(ops)[1..];
  }

  lemma {:induction false} ReadAll(ops: seq<Operator>, n: nat, t: int) returns (run: seq<Step>)
    requires IsSourceChain(ops) && n <= |ops[0].collection|
    ensures NoCrash(run) && HasRead(ops, After(ops, run).task, n, t)
  {
    if n == 0 {
      run := [];
      NothingRead(ops, t);
    } else {
      run := ReadAll(ops, n - 1, t);
      run := ReadOneMore(ops, run, n - 1, t);
    }
  }

  lemma DifferentStamps(a: J.Buffer, b: J.Buffer)
    requires Stamps(a, 0) && Stamps(b, 1) && a != map[]
    ensures a != b
  {
    var key :| key in a;
    assert a[key][0] in a[key];
    assert key in b ==> forall x :: x in b[key] ==> x.timestamp == 1;
  }

  lemma {:induction false} BehindSource(ops: seq<Operator>)
    requires IsSourceChain(ops) && FirstJoin(ops) < |ops|
    ensures var behind, j := FreshAll(ops)[1..], FirstJoin(ops);
            && 1 <= j <= |behind| && behind[..j - 1] == BeforeJoin(ops) && behind[j - 1] == Fresh(ops[j])
  {
    FreshAllAt(ops);
  }

  lemma BlindBeforeJoin(ops: seq<Operator>)
    requires IsSourceChain(ops) && NoWindow(ops)
    ensures AllClockBlind(BeforeJoin(ops))
  {
    FreshAllAt(ops);
  }

  /** Once the whole collection has been read at time t, the first join holds records stamped t. */
  lemma {:induction false} JoinHolds(ops: seq<Operator>, t: int)
    requires IsSourceChain(ops) && NoWindow(ops) && !TimestampsUnseen(ops)
    ensures var j, r := FirstJoin(ops), Fed(FreshAll(ops)[1..], ops[0].collection, t);
            && 1 <= j <= |r| && r[j - 1].JoinOp?
            && Stamps(r[j - 1].join.left, t) && r[j - 1].join.left != map[]
  {
    BehindSource(ops);
    BlindBeforeJoin(ops);
    FirstJoinCollects(FreshAll(ops)[1..], FirstJoin(ops) - 1, ops[0].collection, t);
    FedBlind(BeforeJoin(ops), ops[0].collection, t);
  }

  /** The first join holds records, all stamped t. */
  ghost predicate HoldsStamped(ops: seq<Operator>, j: nat, t: int) {
    && 1 <= j < |ops| && ops[j].JoinOp?
    && Stamps(ops[j].join.left, t) && ops[j].join.left != map[]
  }

  lemma {:induction false} JoinHasRead(ops: seq<Operator>, s: TaskState, t: int)
    requires IsSourceChain(ops) && NoWindow(ops) && !TimestampsUnseen(ops)
    requires HasRead(ops, s, |ops[0].collection|, t)
    ensures s.processed == ops[0].collection && HoldsStamped(s.ops, FirstJoin(ops), t)
  {
    var c := ops[0].collection;
    JoinHolds(ops, t);
    assert c[..|c|] == c;
    BehindFirst(SourceOp(c, |c|), Fed(FreshAll(ops)[1..], c, t));
  }

  lemma JoinAfterReading(ops: seq<Operator>, t: int) returns (run: seq<Step>)
    requires IsSourceChain(ops) && NoWindow(ops) && !TimestampsUnseen(ops)
    ensures NoCrash(run) && After(ops, run).task.element.None?
    ensures After(ops, run).task.processed == ops[0].collection
    ensures HoldsStamped(After(ops, run).task.ops, FirstJoin(ops), t)
  {
    run := ReadAll(ops, |ops[0].collection|, t);
    JoinHasRead(ops, After(ops, run).task, t);
  }

  lemma JoinsSeeTheClock(ops: seq<Operator>) returns (run: seq<Step>, other: seq<Step>)
    requires IsSourceChain(ops) && NoWindow(ops) && !TimestampsUnseen(ops)
    ensures EquallyFar(ops, run, other) && !SameStates(ops, run, other)
  {
    run := JoinAfterReading(ops, 0);
    other := JoinAfterReading(ops, 1);
    NoCrashIsQuiet(ops, run);
    NoCrashIsQuiet(ops, other);
    var a, b, j := After(ops, run).task.ops, After(ops, other).task.ops, FirstJoin(ops);
    DifferentStamps(a[j].join.left, b[j].join.left);
    assert a[1..][j - 1] == a[j] && b[1..][j - 1] == b[j];
  }

  /** Operator states depend on the number of processed elements alone, whatever the crashes, batches,
      watermarks and clocks, if and only if the job has no window and no record reaches a join. */
  lemma StatesDependOnProgressOnlyIff(ops: seq<Operator>)
    requires IsSourceChain(ops)
    ensures (forall run, other :: EquallyFar(ops, run, other) ==> SameStates(ops, run, other)) <==>
              TimestampsUnseen(ops)
  {
    if TimestampsUnseen(ops) {
      forall run, other | EquallyFar(ops, run, other) ensures SameStates(ops, run, other) {
        UnseenTimestampsDoNotMatter(ops, run, other);
      }
    } else if NoWindow(ops) {
      var run, other := JoinsSeeTheClock(ops);
    } else {
      var run, other := WindowsSeeWatermarks(ops);
    }
  }

  /** One element, read at 5 in one run and at 15 in another, lies in different windows. */
  lemma WindowsSeeTheClock(v: Value, f: Value -> Value)
    ensures var ops := WindowJob(v, f, 0, W.NO_WINDOWS);
            var run := [Poll(1, (i: nat) => 5), Take, Turn];
            var other := [Poll(1, (i: nat) => 15), Take, Turn];
            && EquallyFar(ops, run, other) && After(ops, run).task.processed == [v]
            && After(ops, run).task.ops == WindowJob(v, f, 1, OneValueIn(Window(0, 10), v))
            && After(ops, other).task.ops == WindowJob(v, f, 1, OneValueIn(Window(10, 20), v))
  {
    var ops := WindowJob(v, f, 0, W.NO_WINDOWS);
    var run := [Poll(1, (i: nat) => 5), Take, Turn];
    var other := [Poll(1, (i: nat) => 15), Take, Turn];
    NoCrashIsQuiet(ops, run);
    NoCrashIsQuiet(ops, other);
    AfterThreeSteps(v, f, 5);
    AfterThreeSteps(v, f, 15);
    ValueInWindow(v, 5, Window(0, 10));
    ValueInWindow(v, 15, Window(10, 20));
  }

  function OneValueIn(w: Window, v: Value): W.WindowState {
    W.WindowState([W.Pane(NoKey, w)], map[W.Pane(NoKey, w) := [v]], 0)
  }

  lemma ValueInWindow(v: Value, t: int, w: Window)
    requires Assign(TENS.assigner, t) == [w]
    ensures W.AfterElement(TENS, W.NO_WINDOWS, Record(v, NoKey, t)) == OneValueIn(w, v)
  {
    var ws := Assign(TENS.assigner, t);
    assert ws[..0] == [];
    assert W.AddToAll(W.NO_WINDOWS, NoKey, ws[..0], v) == W.NO_WINDOWS;
    assert [] + [v] == [v] && [] + [W.Pane(NoKey, w)] == [W.Pane(NoKey, w)];
  }
}
