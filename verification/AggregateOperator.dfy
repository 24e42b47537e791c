/** Running aggregates per key (taskmanager/operators/stateful.py:265-342). */
module AggregateOperators {
  import opened Common
  import opened Records

  datatype AggFunc = Sum | CountAll | Average | Minimum | Maximum | Unknown

  /** The per-key dictionary of the source; an extreme that is None is taken for one not set yet. */
  datatype Acc = Acc(count: nat, sum: real, min: Value, max: Value)

  type AggState = map<Key, Acc>

  const FRESH_ACC := Acc(0, 0.0, Nothing, Nothing)

  /** Python's a < b; None where it raises TypeError. */
  function Less(a: Value, b: Value): Option<bool> {
    match (a, b)
    case (Num(x), Num(y)) => Some(x < y)
    case (Text(x), Text(y)) => Some(TextLess(x, y))
    case (Items(x), Items(y)) => ItemsLess(x, y)
    case _ => None
  }

  function TextLess(a: string, b: string): bool {
    if b == [] then false
    else if a == [] then true
    else a[0] < b[0] || (a[0] == b[0] && TextLess(a[1..], b[1..]))
  }

  /** Lists compare at the first position where they differ. */
  function ItemsLess(a: seq<Value>, b: seq<Value>): Option<bool> {
    if b == [] then Some(false)
    else if a == [] then Some(true)
    else if a[0] == b[0] then ItemsLess(a[1..], b[1..])
    else Less(a[0], b[0])
  }

  /** One update. The count is raised before anything that can fail, and stays raised. */
  function Update(f: AggFunc, acc: Acc, v: Value): (Acc, Option<Value>) {
    var counted := acc.(count := acc.count + 1);
    match f
    case Sum => if v.Num? then (counted.(sum := acc.sum + v.n), Some(Num(acc.sum + v.n))) else (counted, None)
    case CountAll => (counted, Some(Num(counted.count as real)))
    case Average =>
      if v.Num? then
        var sum := acc.sum + v.n;
        (counted.(sum := sum), Some(Num(sum / counted.count as real)))
      else (counted, None)
    case Minimum =>
      if acc.min.Nothing? then (counted.(min := v), Some(v))
      else
        (match Less(v, acc.min)
         case None => (counted, None)
         case Some(less) => if less then (counted.(min := v), Some(v)) else (counted, Some(acc.min)))
    case Maximum =>
      if acc.max.Nothing? then (counted.(max := v), Some(v))
      else
        (match Less(acc.max, v)
         case None => (counted, None)
         case Some(greater) => if greater then (counted.(max := v), Some(v)) else (counted, Some(acc.max)))
    case Unknown => (counted, None)
  }

  function AccOf(s: AggState, key: Key): Acc {
    if key in s then s[key] else FRESH_ACC
  }

  function AfterElement(f: AggFunc, s: AggState, r: Record): AggState {
    s[r.key := Update(f, AccOf(s, r.key), r.value).0]
  }

  function Output(f: AggFunc, s: AggState, r: Record): seq<Record> {
    match Update(f, AccOf(s, r.key), r.value).1
    case None => []
    case Some(v) => [r.WithValue(v)]
  }

  class AggregateOperator {
    const f: AggFunc
    var state: AggState

    constructor (f: AggFunc)
      ensures this.f == f && state == map[]
    {
      this.f := f;
      state := map[];
    }

    method ProcessElement(r: Record) returns (results: seq<Record>)
      modifies this
      ensures state == AfterElement(f, old(state), r)
      ensures results == Output(f, old(state), r)
    {
      var key, value := r.key, r.value;
      if key !in state {
        state := state[key := FRESH_ACC];
      }
      state := state[key := state[key].(count := state[key].count + 1)];
      results := [];
      if f == Sum || f == Average {
        if !value.Num? {
          return;
        }
        state := state[key := state[key].(sum := state[key].sum + value.n)];
      }
      if f == Minimum {
        if state[key].min.Nothing? {
          state := state[key := state[key].(min := value)];
        } else {
          var less := Less(value, state[key].min);
          if less.None? {
            return;
          }
          if less.value {
            state := state[key := state[key].(min := value)];
          }
        }
      }
      if f == Maximum {
        if state[key].max.Nothing? {
          state := state[key := state[key].(max := value)];
        } else {
          var greater := Less(state[key].max, value);
          if greater.None? {
            return;
          }
          if greater.value {
            state := state[key := state[key].(max := value)];
          }
        }
      }
      match f
      case Sum => results := [r.WithValue(Num(state[key].sum))];
      case CountAll => results := [r.WithValue(Num(state[key].count as real))];
      case Average => results := [r.WithValue(Num(state[key].sum / state[key].count as real))];
      case Minimum => results := [r.WithValue(state[key].min)];
      case Maximum => results := [r.WithValue(state[key].max)];
      case Unknown =>
    }

    method SnapshotState() returns (snapshot: AggState)
      ensures snapshot == state
    {
      snapshot := state;
    }

    method RestoreState(snapshot: AggState)
      modifies this
      ensures state == snapshot
    {
      state := snapshot;
    }
  }

  // Whole runs against batch aggregates.

  function StateAfter(f: AggFunc, run: seq<Record>): AggState {
    if run == [] then map[]
    else AfterElement(f, StateAfter(f, run[..|run| - 1]), run[|run| - 1])
  }

  /** The values of one key, in arrival order. */
  function ValuesOf(run: seq<Record>, key: Key): seq<Value> {
    if run == [] then []
    else
      var n := |run| - 1;
      ValuesOf(run[..n], key) + (if run[n].key == key then [run[n].value] else [])
  }

  function Total(vs: seq<Value>): real {
    if vs == [] then 0.0
    else
      var n := |vs| - 1;
      Total(vs[..n]) + (if vs[n].Num? then vs[n].n else 0.0)
  }

  function NumberCount(vs: seq<Value>): nat {
    if vs == [] then 0
    else
      var n := |vs| - 1;
      NumberCount(vs[..n]) + (if vs[n].Num? then 1 else 0)
  }

  predicate AllNumbers(vs: seq<Value>) {
    forall i :: 0 <= i < |vs| ==> vs[i].Num?
  }

  // The order of values, apart from the comparison that the code makes.

  /** Two sequences part at position k: equal before it, different at it. */
  ghost predicate PartAt<T>(a: seq<T>, b: seq<T>, k: int) {
    0 <= k < |a| && k < |b| && a[..k] == b[..k] && a[k] != b[k]
  }

  /** Dictionary order: a proper prefix, or the smaller character where the strings part. */
  ghost predicate TextPrecedes(a: string, b: string) {
    a < b || exists k :: PartAt(a, b, k) && a[k] < b[k]
  }

  ghost predicate Precedes(a: Value, b: Value) {
    match (a, b)
    case (Num(x), Num(y)) => x < y
    case (Text(x), Text(y)) => TextPrecedes(x, y)
    case (Items(x), Items(y)) => x < y || exists k :: PartAt(x, y, k) && Precedes(x[k], y[k])
    case _ => false
  }

  /** Numbers, strings, and lists whose first different elements can be compared. */
  ghost predicate CanCompare(a: Value, b: Value) {
    match (a, b)
    case (Num(_), Num(_)) => true
    case (Text(_), Text(_)) => true
    case (Items(x), Items(y)) => forall k :: PartAt(x, y, k) ==> CanCompare(x[k], y[k])
    case _ => false
  }

  ghost predicate AllComparable(vs: seq<Value>) {
    forall i, j :: 0 <= i < |vs| && 0 <= j < |vs| ==> CanCompare(vs[i], vs[j])
  }

  ghost predicate IsLeast(vs: seq<Value>, m: Value) {
    m in vs && forall i :: 0 <= i < |vs| ==> !Precedes(vs[i], m)
  }

  ghost predicate IsGreatest(vs: seq<Value>, m: Value) {
    m in vs && forall i :: 0 <= i < |vs| ==> !Precedes(m, vs[i])
  }

  lemma PartAtShift<T>(a: seq<T>, b: seq<T>, k: int)
    requires a != [] && b != [] && a[0] == b[0]
    ensures PartAt(a, b, k) <==> k > 0 && PartAt(a[1..], b[1..], k - 1)
  {
    if 0 < k < |a| && k < |b| {
      assert a[..k] == [a[0]] + a[1..][..k - 1] && b[..k] == [b[0]] + b[1..][..k - 1];
      assert a[1..][..k - 1] == a[..k][1..] && b[1..][..k - 1] == b[..k][1..];
    }
  }

  lemma PrefixShift<T>(a: seq<T>, b: seq<T>)
    requires a != [] && b != []
    ensures a < b <==> a[0] == b[0] && a[1..] < b[1..]
  {
    if a[0] == b[0] && a[1..] < b[1..] {
      assert a == [a[0]] + a[1..] && b == [b[0]] + b[1..];
    }
  }

  lemma PartAtFirst<T>(a: seq<T>, b: seq<T>)
    requires a != [] && b != [] && a[0] != b[0]
    ensures forall k :: PartAt(a, b, k) <==> k == 0
  {
    forall k ensures PartAt(a, b, k) <==> k == 0 {
      if k > 0 && k < |a| && k < |b| {
        assert a[..k][0] == a[0] && b[..k][0] == b[0];
      }
    }
  }

  lemma {:induction false} TextLessIsDictionaryOrder(a: string, b: string)
    ensures TextLess(a, b) <==> TextPrecedes(a, b)
  {
    if a == [] || b == [] {
    } else if a[0] != b[0] {
      PartAtFirst(a, b);
      PrefixShift(a, b);
    } else {
      TextLessIsDictionaryOrder(a[1..], b[1..]);
      PrefixShift(a, b);
      if exists k :: PartAt(a, b, k) && a[k] < b[k] {
        var k :| PartAt(a, b, k) && a[k] < b[k];
        PartAtShift(a, b, k);
        assert PartAt(a[1..], b[1..], k - 1) && a[1..][k - 1] < b[1..][k - 1];
      }
      if exists k :: PartAt(a[1..], b[1..], k) && a[1..][k] < b[1..][k] {
        var k :| PartAt(a[1..], b[1..], k) && a[1..][k] < b[1..][k];
        PartAtShift(a, b, k + 1);
        assert PartAt(a, b, k + 1) && a[k + 1] < b[k + 1];
      }
    }
  }

  ghost predicate ItemsPrecede(a: seq<Value>, b: seq<Value>) {
    a < b || exists k :: PartAt(a, b, k) && Precedes(a[k], b[k])
  }

  ghost predicate ItemsCompare(a: seq<Value>, b: seq<Value>) {
    forall k :: PartAt(a, b, k) ==> CanCompare(a[k], b[k])
  }

  lemma ItemsShift(a: seq<Value>, b: seq<Value>)
    requires a != [] && b != [] && a[0] == b[0]
    ensures ItemsPrecede(a, b) <==> ItemsPrecede(a[1..], b[1..])
    ensures ItemsCompare(a, b) <==> ItemsCompare(a[1..], b[1..])
  {
    PrefixShift(a, b);
    forall k ensures PartAt(a, b, k) <==> k > 0 && PartAt(a[1..], b[1..], k - 1) {
      PartAtShift(a, b, k);
    }
    forall k ensures PartAt(a[1..], b[1..], k) ==> PartAt(a, b, k + 1) {
      PartAtShift(a, b, k + 1);
    }
    if ItemsPrecede(a, b) && !(a < b) {
      var k :| PartAt(a, b, k) && Precedes(a[k], b[k]);
      assert PartAt(a[1..], b[1..], k - 1) && Precedes(a[1..][k - 1], b[1..][k - 1]);
    }
    if ItemsPrecede(a[1..], b[1..]) && !(a[1..] < b[1..]) {
      var k :| PartAt(a[1..], b[1..], k) && Precedes(a[1..][k], b[1..][k]);
      assert PartAt(a, b, k + 1) && Precedes(a[k + 1], b[k + 1]);
    }
    if ItemsCompare(a, b) {
      forall k | PartAt(a[1..], b[1..], k) ensures CanCompare(a[1..][k], b[1..][k]) {
        assert PartAt(a, b, k + 1);
      }
    }
  }

  /** The code's comparison is that order, and fails exactly on values that cannot be compared. */
  lemma {:induction false} LessIsPrecedes(a: Value, b: Value)
    ensures Less(a, b) == if CanCompare(a, b) then Some(Precedes(a, b)) else None
    decreases a, 0
  {
    match (a, b)
    case (Text(x), Text(y)) => TextLessIsDictionaryOrder(x, y);
    case (Items(x), Items(y)) =>
      ItemsLessIsPrecedes(x, y);
    case _ =>
  }

  lemma {:induction false} ItemsLessIsPrecedes(a: seq<Value>, b: seq<Value>)
    ensures ItemsLess(a, b) == if ItemsCompare(a, b) then Some(ItemsPrecede(a, b)) else None
    decreases a, 1
  {
    if a == [] || b == [] {
    } else if a[0] != b[0] {
      PartAtFirst(a, b);
      PrefixShift(a, b);
      LessIsPrecedes(a[0], b[0]);
      assert PartAt(a, b, 0);
    } else {
      ItemsLessIsPrecedes(a[1..], b[1..]);
      ItemsShift(a, b);
    }
  }

  lemma ComparableAgrees(vs: seq<Value>)
    ensures AllComparable(vs) <==> Comparable(vs)
  {
    forall i, j | 0 <= i < |vs| && 0 <= j < |vs| ensures CanCompare(vs[i], vs[j]) <==> Less(vs[i], vs[j]).Some? {
      LessIsPrecedes(vs[i], vs[j]);
    }
  }

  lemma ExtremesAgree(vs: seq<Value>, m: Value)
    requires Comparable(vs)
    ensures IsLeast(vs, m) <==> IsMinimum(vs, m)
    ensures IsGreatest(vs, m) <==> IsMaximum(vs, m)
  {
    if m in vs {
      var j :| 0 <= j < |vs| && vs[j] == m;
      forall i | 0 <= i < |vs|
        ensures Less(vs[i], m) == Some(Precedes(vs[i], m)) && Less(m, vs[i]) == Some(Precedes(m, vs[i]))
      {
        LessIsPrecedes(vs[i], vs[j]);
        LessIsPrecedes(vs[j], vs[i]);
      }
    }
  }

  /** Any two of the values can be compared, as numbers with numbers or strings with strings. */
  predicate Comparable(vs: seq<Value>) {
    forall i, j :: 0 <= i < |vs| && 0 <= j < |vs| ==> Less(vs[i], vs[j]).Some?
  }

  ghost predicate IsMinimum(vs: seq<Value>, m: Value) {
    m in vs && forall i :: 0 <= i < |vs| ==> Less(vs[i], m) == Some(false)
  }

  ghost predicate IsMaximum(vs: seq<Value>, m: Value) {
    m in vs && forall i :: 0 <= i < |vs| ==> Less(m, vs[i]) == Some(false)
  }

  lemma {:induction false} TextLessIsIrreflexive(a: string)
    ensures !TextLess(a, a)
  {
    if a == [] {
    } else {
      TextLessIsIrreflexive(a[1..]);
    }
  }

  lemma {:induction false} TextLessIsTransitive(a: string, b: string, c: string)
    requires TextLess(a, b) && TextLess(b, c)
    ensures TextLess(a, c)
  {
    if a == [] {
    } else if a[0] == b[0] == c[0] {
      TextLessIsTransitive(a[1..], b[1..], c[1..]);
    }
  }

  lemma {:induction false} LessIsIrreflexive(a: Value)
    ensures Less(a, a) != Some(true)
  {
    match a
    case Text(s) => TextLessIsIrreflexive(s);
    case Items(vs) => ItemsLessIsIrreflexive(vs);
    case _ =>
  }

  lemma {:induction false} ItemsLessIsIrreflexive(a: seq<Value>)
    ensures ItemsLess(a, a) == Some(false)
  {
    if a == [] {
    } else {
      ItemsLessIsIrreflexive(a[1..]);
    }
  }

  lemma {:induction false} LessIsTransitive(a: Value, b: Value, c: Value)
    requires Less(a, b) == Less(b, c) == Some(true)
    ensures Less(a, c) == Some(true)
    decreases a, 0
  {
    match a
    case Num(_) =>
    case Text(s) => TextLessIsTransitive(s, b.s, c.s);
    case Items(vs) => ItemsLessIsTransitive(vs, b.vs, c.vs);
  }

  lemma {:induction false} ItemsLessIsTransitive(a: seq<Value>, b: seq<Value>, c: seq<Value>)
    requires ItemsLess(a, b) == ItemsLess(b, c) == Some(true)
    ensures ItemsLess(a, c) == Some(true)
    decreases a, 1
  {
    if a == [] {
    } else if a[0] == b[0] == c[0] {
      ItemsLessIsTransitive(a[1..], b[1..], c[1..]);
    } else if a[0] != b[0] && b[0] != c[0] {
      LessIsTransitive(a[0], b[0], c[0]);
      LessIsIrreflexive(a[0]);
    }
  }

  /** What an accumulator says about the values its key has received. */
  ghost predicate Summarises(f: AggFunc, acc: Acc, vs: seq<Value>) {
    && acc.count == |vs|
    && (f == Sum || f == Average ==> acc.sum == Total(vs))
    && (f == Minimum && vs != [] && AllComparable(vs) ==> IsLeast(vs, acc.min))
    && (f == Maximum && vs != [] && AllComparable(vs) ==> IsGreatest(vs, acc.max))
    && (vs == [] ==> acc == FRESH_ACC)
  }

  lemma {:induction false} FewerAreComparable(vs: seq<Value>, v: Value)
    requires Comparable(vs + [v])
    ensures Comparable(vs)
    ensures forall i :: 0 <= i < |vs| ==> Less(vs[i], v).Some? && Less(v, vs[i]).Some?
    ensures Less(v, v) == Some(false)
  {
    var more := vs + [v];
    assert more[|vs|] == v && forall i :: 0 <= i < |vs| ==> more[i] == vs[i];
    assert Less(more[|vs|], more[|vs|]).Some?;
    LessIsIrreflexive(v);
    assert !Less(v, v).value;
    forall i | 0 <= i < |vs| ensures Less(vs[i], v).Some? && Less(v, vs[i]).Some? {
      assert Less(more[i], more[|vs|]).Some? && Less(more[|vs|], more[i]).Some?;
    }
    forall i, j | 0 <= i < |vs| && 0 <= j < |vs| ensures Less(vs[i], vs[j]).Some? {
      assert Less(more[i], more[j]).Some?;
    }
  }

  lemma {:induction false} NotBelowSmaller(a: Value, v: Value, m: Value)
    requires Less(v, m) == Some(true) && Less(a, m) == Some(false) && Less(a, v).Some?
    ensures Less(a, v) == Some(false)
  {
    if Less(a, v).value {
      LessIsTransitive(a, v, m);
    }
  }

  lemma {:induction false} NotAboveLarger(a: Value, v: Value, m: Value)
    requires Less(m, v) == Some(true) && Less(m, a) == Some(false) && Less(v, a).Some?
    ensures Less(v, a) == Some(false)
  {
    if Less(v, a).value {
      LessIsTransitive(m, v, a);
    }
  }

  lemma {:induction false} SmallerIsMinimum(vs: seq<Value>, m: Value, v: Value)
    requires Comparable(vs + [v]) && IsMinimum(vs, m)
    ensures Less(v, m).Some?
    ensures IsMinimum(vs + [v], if Less(v, m).value then v else m)
  {
    FewerAreComparable(vs, v);
    if Less(v, m).value {
      forall i | 0 <= i < |vs| ensures Less(vs[i], v) == Some(false) {
        assert Less(vs[i], v).Some?;
        NotBelowSmaller(vs[i], v, m);
      }
    }
  }

  lemma {:induction false} LargerIsMaximum(vs: seq<Value>, m: Value, v: Value)
    requires Comparable(vs + [v]) && IsMaximum(vs, m)
    ensures Less(m, v).Some?
    ensures IsMaximum(vs + [v], if Less(m, v).value then v else m)
  {
    FewerAreComparable(vs, v);
    if Less(m, v).value {
      forall i | 0 <= i < |vs| ensures Less(v, vs[i]) == Some(false) {
        assert Less(v, vs[i]).Some?;
        NotAboveLarger(vs[i], v, m);
      }
    }
  }

  lemma UpdateSummarises(f: AggFunc, acc: Acc, vs: seq<Value>, v: Value)
    requires Summarises(f, acc, vs)
    ensures Summarises(f, Update(f, acc, v).0, vs + [v])
  {
    var more := vs + [v];
    assert more[..|vs|] == vs && more[|vs|] == v;
    if (f == Minimum || f == Maximum) && AllComparable(more) {
      UpdateKeepsExtreme(f, acc, vs, v);
    }
  }

  lemma UpdateKeepsMinimum(acc: Acc, vs: seq<Value>, v: Value)
    requires Comparable(vs + [v])
    requires if vs == [] then acc.min.Nothing? else IsMinimum(vs, acc.min)
    ensures IsMinimum(vs + [v], Update(Minimum, acc, v).0.min)
  {
    FewerAreComparable(vs, v);
    if vs == [] {
      assert vs + [v] == [v];
    } else {
      SmallerIsMinimum(vs, acc.min, v);
    }
  }

  lemma UpdateKeepsMaximum(acc: Acc, vs: seq<Value>, v: Value)
    requires Comparable(vs + [v])
    requires if vs == [] then acc.max.Nothing? else IsMaximum(vs, acc.max)
    ensures IsMaximum(vs + [v], Update(Maximum, acc, v).0.max)
  {
    FewerAreComparable(vs, v);
    if vs == [] {
      assert vs + [v] == [v];
    } else {
      LargerIsMaximum(vs, acc.max, v);
    }
  }

  lemma UpdateKeepsExtreme(f: AggFunc, acc: Acc, vs: seq<Value>, v: Value)
    requires (f == Minimum || f == Maximum) && Summarises(f, acc, vs) && AllComparable(vs + [v])
    ensures var r := Update(f, acc, v).0;
            if f == Minimum then IsLeast(vs + [v], r.min) else IsGreatest(vs + [v], r.max)
  {
    var r := Update(f, acc, v).0;
    ComparableAgrees(vs + [v]);
    FewerAreComparable(vs, v);
    ComparableAgrees(vs);
    if f == Minimum {
      ExtremesAgree(vs, acc.min);
      UpdateKeepsMinimum(acc, vs, v);
      ExtremesAgree(vs + [v], r.min);
    } else {
      ExtremesAgree(vs, acc.max);
      UpdateKeepsMaximum(acc, vs, v);
      ExtremesAgree(vs + [v], r.max);
    }
  }

  /** Each key's accumulator depends on that key's values alone. */
  lemma {:induction false} StateSummarisesKeys(f: AggFunc, run: seq<Record>, key: Key)
    ensures Summarises(f, AccOf(StateAfter(f, run), key), ValuesOf(run, key))
    decreases |run|
  {
    if run == [] {
    } else {
      var n := |run| - 1;
      StateSummarisesKeys(f, run[..n], key);
      if run[n].key == key {
        UpdateSummarises(f, AccOf(StateAfter(f, run[..n]), key), ValuesOf(run[..n], key), run[n].value);
      } else {
        assert ValuesOf(run, key) == ValuesOf(run[..n], key);
      }
    }
  }

  lemma {:induction false} NumbersAreCounted(vs: seq<Value>)
    ensures NumberCount(vs) <= |vs|
    ensures NumberCount(vs) == |vs| <==> AllNumbers(vs)
    decreases |vs|
  {
    if vs == [] {
    } else {
      var n := |vs| - 1;
      NumbersAreCounted(vs[..n]);
      assert AllNumbers(vs) <==> AllNumbers(vs[..n]) && vs[n].Num?;
    }
  }

  ghost predicate IsBatchAggregate(f: AggFunc, vs: seq<Value>, v: Value) {
    match f
    case Sum => v == Num(Total(vs))
    case CountAll => v == Num(|vs| as real)
    case Minimum => IsLeast(vs, v)
    case Maximum => IsGreatest(vs, v)
    case _ => true
  }

  lemma UpdateGivesAggregate(f: AggFunc, acc: Acc, vs: seq<Value>, v: Value)
    requires Summarises(f, acc, vs)
    requires f == Sum || f == CountAll || f == Minimum || f == Maximum
    requires f == Sum ==> v.Num?
    requires f == Minimum || f == Maximum ==> AllComparable(vs + [v])
    ensures var out := Update(f, acc, v).1;
            out.Some? && IsBatchAggregate(f, vs + [v], out.value)
  {
    var more := vs + [v];
    assert more[..|vs|] == vs && more[|vs|] == v;
    UpdateSummarises(f, acc, vs, v);
    if f == Minimum || f == Maximum {
      ComparableAgrees(more);
      FewerAreComparable(vs, v);
      ComparableAgrees(vs);
      ExtremesAgree(vs, if f == Minimum then acc.min else acc.max);
    }
  }

  /** A running aggregate is that of the batch of the key's values so far. Sums skip rejected values. */
  lemma {:induction false} OutputIsBatchAggregate(f: AggFunc, run: seq<Record>, r: Record)
    requires f == Sum || f == CountAll || f == Minimum || f == Maximum
    requires f == Sum ==> r.value.Num?
    requires f == Minimum || f == Maximum ==> AllComparable(ValuesOf(run, r.key) + [r.value])
    ensures var out := Output(f, StateAfter(f, run), r);
            && |out| == 1 && out[0].key == r.key && out[0].timestamp == r.timestamp
            && IsBatchAggregate(f, ValuesOf(run, r.key) + [r.value], out[0].value)
  {
    StateSummarisesKeys(f, run, r.key);
    UpdateGivesAggregate(f, AccOf(StateAfter(f, run), r.key), ValuesOf(run, r.key), r.value);
  }

  lemma NumbersAreComparable(vs: seq<Value>)
    requires AllNumbers(vs)
    ensures AllComparable(vs)
  {
  }

  /** For a key that has received numbers only, the outputs of min and max are among them, and no
      number is smaller or larger. */
  lemma {:induction false} NumberExtremes(run: seq<Record>, r: Record)
    requires AllNumbers(ValuesOf(run, r.key) + [r.value])
    ensures var vs := ValuesOf(run, r.key) + [r.value];
            var low, high := Output(Minimum, StateAfter(Minimum, run), r), Output(Maximum, StateAfter(Maximum, run), r);
            && |low| == 1 && low[0].value in vs && low[0].value.Num?
            && |high| == 1 && high[0].value in vs && high[0].value.Num?
            && forall i :: 0 <= i < |vs| ==> low[0].value.n <= vs[i].n <= high[0].value.n
  {
    var vs := ValuesOf(run, r.key) + [r.value];
    NumbersAreComparable(vs);
    OutputIsBatchAggregate(Minimum, run, r);
    OutputIsBatchAggregate(Maximum, run, r);
  }

  /** A value that cannot be added gives no output, one that can always gives one. */
  lemma {:induction false} OnlyNumbersAreAdded(f: AggFunc, run: seq<Record>, r: Record)
    requires f == Sum || f == Average
    ensures |Output(f, StateAfter(f, run), r)| == if r.value.Num? then 1 else 0
  {
    StateSummarisesKeys(f, run, r.key);
  }

  /** A value that cannot be compared with the extreme so far is counted, gives no output, and leaves the
      extreme alone; so does any value under an aggregation function that the code does not know. */
  lemma {:induction false} RejectedIsOnlyCounted(f: AggFunc, run: seq<Record>, r: Record)
    requires var acc := AccOf(StateAfter(f, run), r.key);
             || f == Unknown
             || (f == Minimum && acc.min != Nothing && !CanCompare(r.value, acc.min))
             || (f == Maximum && acc.max != Nothing && !CanCompare(acc.max, r.value))
    ensures var acc, after := AccOf(StateAfter(f, run), r.key), AccOf(StateAfter(f, run + [r]), r.key);
            after == Acc(acc.count + 1, acc.sum, acc.min, acc.max)
    ensures Output(f, StateAfter(f, run), r) == []
  {
    var acc := AccOf(StateAfter(f, run), r.key);
    assert (run + [r])[..|run|] == run;
    LessIsPrecedes(r.value, acc.min);
    LessIsPrecedes(acc.max, r.value);
  }

  /** The running average divides the total by the number of all values, rejected ones included. */
  lemma {:induction false} AverageOutput(run: seq<Record>, r: Record)
    requires r.value.Num?
    ensures var vs := ValuesOf(run, r.key) + [r.value];
            Output(Average, StateAfter(Average, run), r) == [r.WithValue(Num(Total(vs) / |vs| as real))]
  {
    var before := ValuesOf(run, r.key);
    assert (before + [r.value])[..|before|] == before;
    StateSummarisesKeys(Average, run, r.key);
  }

  /** It is the mean of the key's numbers if and only if no value of the key was rejected, or the
      numbers sum to zero. */
  lemma {:induction false} AverageIsMeanIff(run: seq<Record>, r: Record)
    requires r.value.Num?
    ensures var vs := ValuesOf(run, r.key) + [r.value];
            && NumberCount(vs) > 0
            && (Output(Average, StateAfter(Average, run), r) == [r.WithValue(Num(Total(vs) / NumberCount(vs) as real))]
                <==> AllNumbers(vs) || Total(vs) == 0.0)
  {
    var vs := ValuesOf(run, r.key) + [r.value];
    assert vs[|vs| - 1] == r.value;
    AverageOutput(run, r);
    NumbersAreCounted(vs);
    QuotientsAgreeIff(Total(vs), |vs| as real, NumberCount(vs) as real);
  }

  lemma QuotientsAgreeIff(total: real, m: real, n: real)
    requires m > 0.0 && n > 0.0
    ensures total / m == total / n <==> m == n || total == 0.0
  {
    if total / m == total / n {
      assert total == (total / n) * m && total == (total / n) * n;
      assert (total / n) * (m - n) == 0.0;
    }
  }

  /** The values 1, "x", 3 of one key: the last average reported is 4/3, not 2. */
  lemma RejectedValueSkewsAverage(key: Key, t: int)
    ensures var run := [Record(Num(1.0), key, t), Record(Text("x"), key, t)];
            var r := Record(Num(3.0), key, t);
            Output(Average, StateAfter(Average, run), r) == [r.WithValue(Num(4.0 / 3.0))]
  {
    var run := [Record(Num(1.0), key, t), Record(Text("x"), key, t)];
    assert run[..1] == [run[0]] && run[..1][..0] == [];
    assert StateAfter(Average, run[..1])[key] == Acc(1, 1.0, Nothing, Nothing);
    assert StateAfter(Average, run)[key] == Acc(2, 1.0, Nothing, Nothing);
  }

  /** A first value None does not stick: the number that follows becomes the minimum. */
  lemma NoneIsNotAnExtreme(key: Key, t: int, n: real)
    ensures var run := [Record(Nothing, key, t)];
            var r := Record(Num(n), key, t);
            && Output(Minimum, StateAfter(Minimum, run), r) == [r]
            && Output(Maximum, StateAfter(Maximum, run), r) == [r]
  {
    var run := [Record(Nothing, key, t)];
    assert run[..0] == [];
    assert StateAfter(Minimum, run)[key] == StateAfter(Maximum, run)[key] == Acc(1, 0.0, Nothing, Nothing);
  }
}
