/** The loops of a running task one operator call at a time (taskmanager/task_executor.py:101-117;
    taskmanager/operators/base.py:140-169). The thread that reads the source and those that bring
    watermarks share no lock, so anything may happen between two calls. */
module InFlight {
  import opened Common
  import opened Records
  import opened Operators
  import opened ChainFunctions

  /** Records on their way through a chain: `todo` wait for operator `at`, which has emitted `next`
      for those before them. */
  datatype Flight = Flight(at: nat, todo: seq<Record>, next: seq<Record>)

  datatype Progress = Flying(flight: Flight) | Landed(out: seq<Record>)

  /** A call of an operator is due. */
  predicate Airborne(n: nat, f: Flight) {
    f.at < n && f.todo != []
  }

  /** To the next call that is due in a chain of n operators, if there is one. */
  function Onward(n: nat, f: Flight): (p: Progress)
    ensures p.Flying? ==> Airborne(n, p.flight)
  {
    if f.todo != [] then (if f.at < n then Flying(f) else Landed(f.todo))
    else if f.next != [] && f.at + 1 < n then Flying(Flight(f.at + 1, f.next, []))
    else Landed(f.next)
  }

  function Launch(n: nat, at: nat, r: Record): Progress {
    Onward(n, Flight(at, [r], []))
  }

  /** One call of process_element. */
  function Call(ops: seq<Operator>, f: Flight): (r: (seq<Operator>, Progress))
    requires Airborne(|ops|, f)
    ensures |r.0| == |ops|
  {
    var step := OnElement(ops[f.at], f.todo[0]);
    (ops[f.at := step.0], Onward(|ops|, Flight(f.at, f.todo[1..], f.next + step.1)))
  }

  /** The calls of a flight without anything in between, to the end. */
  function Land(ops: seq<Operator>, f: Flight): (r: (seq<Operator>, seq<Record>))
    requires Airborne(|ops|, f)
    ensures |r.0| == |ops|
    decreases |ops| - f.at, |f.todo|
  {
    var step := Call(ops, f);
    match step.1
    case Landed(out) => (step.0, out)
    case Flying(g) => Land(step.0, g)
  }

  function LandAll(ops: seq<Operator>, p: Progress): (r: (seq<Operator>, seq<Record>))
    requires p.Flying? ==> Airborne(|ops|, p.flight)
    ensures |r.0| == |ops|
  {
    match p
    case Landed(out) => (ops, out)
    case Flying(f) => Land(ops, f)
  }

  /** What is left of a flight: operator `at` over its records, then the operators behind it. */
  function RestOfFlight(ops: seq<Operator>, f: Flight): (seq<Operator>, seq<Record>)
    requires Airborne(|ops|, f)
  {
    var turn := Through(ops[f.at], f.todo);
    var rest := ThroughAll(ops[f.at + 1..], f.next + turn.1);
    (ops[..f.at] + ([turn.0] + rest.0), rest.1)
  }

  lemma SameOperatorAgain(ops: seq<Operator>, f: Flight)
    requires Airborne(|ops|, f) && |f.todo| > 1
    ensures var step := OnElement(ops[f.at], f.todo[0]);
            var g := Flight(f.at, f.todo[1..], f.next + step.1);
            RestOfFlight(ops[f.at := step.0], g) == RestOfFlight(ops, f)
  {
    var step := OnElement(ops[f.at], f.todo[0]);
    var after := ops[f.at := step.0];
    assert after[..f.at] == ops[..f.at] && after[f.at + 1..] == ops[f.at + 1..];
    Reassociate(f.next, step.1, Through(step.0, f.todo[1..]).1);
  }

  lemma LastOfOperator(ops: seq<Operator>, f: Flight)
    requires Airborne(|ops|, f) && |f.todo| == 1
    ensures var step := OnElement(ops[f.at], f.todo[0]);
            var rest := ThroughAll(ops[f.at + 1..], f.next + step.1);
            RestOfFlight(ops, f) == (ops[..f.at] + ([step.0] + rest.0), rest.1)
  {
    var step := OnElement(ops[f.at], f.todo[0]);
    assert f.todo[1..] == [] && Through(step.0, f.todo[1..]) == (step.0, []);
    assert Through(ops[f.at], f.todo).1 == step.1 + [] == step.1;
  }

  lemma NextOperator(ops: seq<Operator>, at: nat, op: Operator, rs: seq<Record>)
    requires at < |ops| && rs != []
    ensures var rest := ThroughAll(ops[at + 1..], rs);
            LandedOrRest(ops[at := op], at + 1, rs) == (ops[..at] + ([op] + rest.0), rest.1)
  {
    var after := ops[at := op];
    assert after[..at + 1] == ops[..at] + [op] && after[at + 1..] == ops[at + 1..];
    if at + 1 < |ops| {
      assert after[at + 1] == ops[at + 1..][0] && after[at + 2..] == ops[at + 1..][1..];
      var turn := Through(after[at + 1], rs);
      assert [] + turn.1 == turn.1;
      Reassociate(ops[..at], [op], [turn.0] + ThroughAll(after[at + 2..], turn.1).0);
    } else {
      assert after == ops[..at] + [op] && [op] + [] == [op];
    }
  }

  /** Records that enter operator `at`, or have passed the last one. */
  function LandedOrRest(ops: seq<Operator>, at: nat, rs: seq<Record>): (seq<Operator>, seq<Record>)
    requires rs != []
  {
    if at < |ops| then RestOfFlight(ops, Flight(at, rs, [])) else (ops, rs)
  }

  lemma NothingNext(ops: seq<Operator>, at: nat, op: Operator)
    requires at < |ops|
    ensures var rest := ThroughAll(ops[at + 1..], []);
            (ops[at := op], []) == (ops[..at] + ([op] + rest.0), rest.1)
  {
    NothingGoesThrough(ops[at + 1..]);
    assert ops[at := op] == ops[..at] + ([op] + ops[at + 1..]);
  }

  lemma {:induction false} LandIsRestOfFlight(ops: seq<Operator>, f: Flight)
    requires Airborne(|ops|, f)
    ensures Land(ops, f) == RestOfFlight(ops, f)
    decreases |ops| - f.at, |f.todo|
  {
    var step := OnElement(ops[f.at], f.todo[0]);
    var after, next := ops[f.at := step.0], f.next + step.1;
    if |f.todo| > 1 {
      SameOperatorAgain(ops, f);
      LandIsRestOfFlight(after, Flight(f.at, f.todo[1..], next));
    } else {
      LastOfOperator(ops, f);
      if next == [] {
        NothingNext(ops, f.at, step.0);
      } else {
        NextOperator(ops, f.at, step.0, next);
        if f.at + 1 < |ops| {
          LandIsRestOfFlight(after, Flight(f.at + 1, next, []));
        }
      }
    }
  }

  /** A record sent into a chain at some operator, undisturbed, is the pass through the rest of the chain. */
  lemma LaunchLands(ops: seq<Operator>, at: nat, r: Record)
    requires at <= |ops|
    ensures var rest := ThroughAll(ops[at..], [r]);
            LandAll(ops, Launch(|ops|, at, r)) == (ops[..at] + rest.0, rest.1)
  {
    if at < |ops| {
      LandIsRestOfFlight(ops, Flight(at, [r], []));
      assert ops[at..][0] == ops[at] && ops[at..][1..] == ops[at + 1..];
      assert [] + Through(ops[at], [r]).1 == Through(ops[at], [r]).1;
    } else {
      assert ops[..at] + [] == ops;
    }
  }

  // A watermark's way through the chain.

  /** Operators before `turn` have had the watermark; the last of them triggered `triggered`, which
      are still to be sent on, and one more record may be in flight. */
  datatype Pass = Pass(timestamp: int, turn: nat, triggered: seq<Record>, flight: Option<Flight>)

  predicate OnCourse(n: nat, p: Pass) {
    p.turn <= n && (p.flight.Some? ==> Airborne(n, p.flight.value))
  }

  predicate Over(n: nat, p: Pass) {
    p.flight.None? && p.triggered == [] && p.turn >= n
  }

  function Rest(p: Progress): Option<Flight> {
    if p.Flying? then Some(p.flight) else None
  }

  function Arrived(p: Progress): seq<Record> {
    if p.Landed? then p.out else []
  }

  /** One call of process_element or process_watermark, or the start of a triggered record's flight. */
  function PassStep(ops: seq<Operator>, p: Pass): (r: (seq<Operator>, Pass, seq<Record>))
    requires OnCourse(|ops|, p)
    ensures |r.0| == |ops| && OnCourse(|ops|, r.1)
  {
    if p.flight.Some? then
      var step := Call(ops, p.flight.value);
      (step.0, p.(flight := Rest(step.1)), Arrived(step.1))
    else if p.triggered != [] then
      var start := Launch(|ops|, p.turn, p.triggered[0]);
      (ops, p.(triggered := p.triggered[1..], flight := Rest(start)), Arrived(start))
    else if p.turn < |ops| then
      var step := OnWatermark(ops[p.turn], p.timestamp);
      (ops[p.turn := step.0], p.(turn := p.turn + 1, triggered := step.1), [])
    else (ops, p, [])
  }

  function CallsDue(n: nat, p: Pass): (nat, nat)
    requires OnCourse(n, p)
  {
    if p.flight.Some? then (n - p.flight.value.at, |p.flight.value.todo|) else (0, 0)
  }

  /** The calls of a watermark's pass without anything in between, to the end. */
  function Complete(ops: seq<Operator>, p: Pass): (seq<Operator>, seq<Record>)
    requires OnCourse(|ops|, p)
    decreases |ops| - p.turn, |p.triggered|, CallsDue(|ops|, p).0, CallsDue(|ops|, p).1
  {
    if Over(|ops|, p) then (ops, [])
    else
      var step := PassStep(ops, p);
      var rest := Complete(step.0, step.1);
      (rest.0, step.2 + rest.1)
  }

  /** The record in flight lands before the pass goes on. */
  lemma {:induction false} FlightLandsFirst(ops: seq<Operator>, p: Pass)
    requires OnCourse(|ops|, p) && p.flight.Some?
    ensures var landed := Land(ops, p.flight.value);
            var rest := Complete(landed.0, p.(flight := None));
            Complete(ops, p) == (rest.0, landed.1 + rest.1)
    decreases |ops| - p.flight.value.at, |p.flight.value.todo|
  {
    var step := Call(ops, p.flight.value);
    match step.1
    case Landed(_) =>
    case Flying(g) =>
      FlightLandsFirst(step.0, p.(flight := Some(g)));
      assert [] + Complete(step.0, p.(flight := Some(g))).1 == Complete(step.0, p.(flight := Some(g))).1;
  }

  /** What a pass with nothing in flight still does: send on what was triggered, then the watermark. */
  function RestOfPass(ops: seq<Operator>, p: Pass): (seq<Operator>, seq<Record>)
    requires p.turn <= |ops|
  {
    var fed := OneByOne(ops[p.turn..], p.triggered);
    var rest := ChainWatermark(fed.0, p.timestamp);
    (ops[..p.turn] + rest.0, fed.1 + rest.1)
  }

  lemma SendOn(ops: seq<Operator>, p: Pass)
    requires OnCourse(|ops|, p) && p.flight.None? && p.triggered != []
    ensures var landed := LandAll(ops, Launch(|ops|, p.turn, p.triggered[0]));
            var rest := RestOfPass(landed.0, p.(triggered := p.triggered[1..]));
            RestOfPass(ops, p) == (rest.0, landed.1 + rest.1)
  {
    LaunchLands(ops, p.turn, p.triggered[0]);
    var first := ThroughAll(ops[p.turn..], [p.triggered[0]]);
    ThroughAllLength(ops[p.turn..], [p.triggered[0]]);
    var after := ops[..p.turn] + first.0;
    assert after[..p.turn] == ops[..p.turn] && after[p.turn..] == first.0;
    var fed := OneByOne(first.0, p.triggered[1..]);
    Reassociate(first.1, fed.1, ChainWatermark(fed.0, p.timestamp).1);
  }

  lemma TakeTurn(ops: seq<Operator>, p: Pass)
    requires OnCourse(|ops|, p) && p.flight.None? && p.triggered == [] && p.turn < |ops|
    ensures var step := PassStep(ops, p);
            RestOfPass(ops, p) == RestOfPass(step.0, step.1)
  {
    var k := p.turn;
    var first := OnWatermark(ops[k], p.timestamp);
    var after := ops[k := first.0];
    assert ops[k..][0] == ops[k] && ops[k..][1..] == ops[k + 1..] == after[k + 1..];
    assert after[..k + 1] == ops[..k] + [first.0];
    var fed := OneByOne(ops[k + 1..], first.1);
    var rest := ChainWatermark(fed.0, p.timestamp);
    Reassociate(ops[..k], [first.0], rest.0);
    assert [] + ChainWatermark(ops[k..], p.timestamp).1 == ChainWatermark(ops[k..], p.timestamp).1;
  }

  lemma {:induction false} CompleteIsRestOfPass(ops: seq<Operator>, p: Pass)
    requires OnCourse(|ops|, p) && p.flight.None?
    ensures Complete(ops, p) == RestOfPass(ops, p)
    decreases |ops| - p.turn, |p.triggered|
  {
    if p.triggered != [] {
      SendOn(ops, p);
      var start := Launch(|ops|, p.turn, p.triggered[0]);
      var later := p.(triggered := p.triggered[1..]);
      if start.Flying? {
        FlightLandsFirst(ops, later.(flight := Some(start.flight)));
      }
      CompleteIsRestOfPass(LandAll(ops, start).0, later);
      assert forall out: seq<Record> :: [] + out == out;
    } else if p.turn < |ops| {
      TakeTurn(ops, p);
      var step := PassStep(ops, p);
      CompleteIsRestOfPass(step.0, step.1);
      assert [] + Complete(step.0, step.1).1 == Complete(step.0, step.1).1;
    } else {
      assert ops[p.turn..] == [] && ops[..p.turn] + [] == ops;
      assert RestOfPass(ops, p).0 == ops && RestOfPass(ops, p).1 == [];
    }
  }

  /** A watermark's pass, undisturbed, is the chain's watermark function. */
  lemma {:induction false} PassIsChainWatermark(ops: seq<Operator>, t: int)
    ensures Complete(ops, Pass(t, 0, [], None)) == ChainWatermark(ops, t)
  {
    CompleteIsRestOfPass(ops, Pass(t, 0, [], None));
    assert ops[0..] == ops && ops[..0] == [];
    var goal := ChainWatermark(ops, t);
    assert [] + goal.0 == goal.0 && [] + goal.1 == goal.1;
  }
}
