/** Window assignment (taskmanager/operators/stateful.py:18-85). */
module Windows {
  import opened Common
  import opened Records

  datatype Window = Window(start: int, end: int)

  predicate Contains(w: Window, t: int) {
    w.start <= t < w.end
  }

  datatype Assigner =
    | Tumbling(size: Positive)
    | Sliding(size: Positive, slide: Positive)

  /** The k-th window the sliding loop visits. */
  function SlidingWindowAt(a: Assigner, t: int, k: nat): Window
    requires a.Sliding?
  {
    var start := t / a.slide * a.slide - a.size + a.slide + k * a.slide;
    Window(start, start + a.size)
  }

  /** The windows of a timestamp, in the order they are assigned. */
  function Assign(a: Assigner, t: int): seq<Window>
  {
    if a.Tumbling? then
      var start := t / a.size * a.size;
      [Window(start, start + a.size)]
    else
      seq(a.size / a.slide, k requires 0 <= k < a.size / a.slide => SlidingWindowAt(a, t, k))
  }

  method AssignTumbling(a: Assigner, t: int) returns (windows: seq<Window>)
    requires a.Tumbling?
    ensures windows == Assign(a, t)
  {
    var start := t / a.size * a.size;
    var end := start + a.size;
    windows := [Window(start, end)];
  }

  lemma SlidingWindowContains(a: Assigner, t: int, k: nat)
    requires a.Sliding?
    ensures var w := SlidingWindowAt(a, t, k);
            w.start <= t / a.slide * a.slide ==> Contains(w, t)
    ensures SlidingWindowAt(a, t, k).start <= t / a.slide * a.slide <==> k < a.size / a.slide
  {
    var q := t / a.slide;
    assert q * a.slide <= t < q * a.slide + a.slide;
    assert k * a.slide >= 0;
    var n := a.size / a.slide;
    assert n * a.slide <= a.size < n * a.slide + a.slide;
    if k < n {
      assert (k + 1) * a.slide <= n * a.slide by { MulMono(k + 1, n, a.slide); }
    } else {
      assert (k + 1) * a.slide >= (n + 1) * a.slide by { MulMono(n + 1, k + 1, a.slide); }
    }
    assert (k + 1) * a.slide == k * a.slide + a.slide;
    assert (n + 1) * a.slide == n * a.slide + a.slide;
  }

  lemma MulMono(x: int, y: int, z: int)
    requires x <= y && z >= 0
    ensures x * z <= y * z
  {
  }

  lemma NextSlidingWindow(a: Assigner, t: int, k: nat)
    requires a.Sliding? && k < a.size / a.slide
    ensures Contains(SlidingWindowAt(a, t, k), t)
    ensures SlidingWindowAt(a, t, k + 1).start == SlidingWindowAt(a, t, k).start + a.slide
    ensures SlidingWindowAt(a, t, k + 1).start <= t / a.slide * a.slide <==> k + 1 < a.size / a.slide
    ensures Assign(a, t)[..k + 1] == Assign(a, t)[..k] + [SlidingWindowAt(a, t, k)]
  {
    SlidingWindowContains(a, t, k);
    SlidingWindowContains(a, t, k + 1);
    assert (k + 1) * a.slide == k * a.slide + a.slide;
  }

  method AssignSliding(a: Assigner, t: int) returns (windows: seq<Window>)
    requires a.Sliding?
    ensures windows == Assign(a, t)
  {
    windows := [];
    var lastStart := t / a.slide * a.slide;
    var firstStart := lastStart - a.size + a.slide;
    var start := firstStart;
    ghost var k: nat := 0;
    SlidingWindowContains(a, t, 0);
    while start <= lastStart
      invariant start == SlidingWindowAt(a, t, k).start
      invariant start <= lastStart <==> k < a.size / a.slide
      invariant k <= a.size / a.slide
      invariant windows == Assign(a, t)[..k]
      decreases a.size / a.slide - k
    {
      var end := start + a.size;
      NextSlidingWindow(a, t, k);
      if start <= t < end {
        windows := windows + [Window(start, end)];
      }
      start := start + a.slide;
      k := k + 1;
    }
  }

  method AssignWindows(a: Assigner, t: int) returns (windows: seq<Window>)
    ensures windows == Assign(a, t)
  {
    if a.Tumbling? {
      windows := AssignTumbling(a, t);
    } else {
      windows := AssignSliding(a, t);
    }
  }

  // What the assignment means.

  lemma TumblingWindowContains(size: Positive, t: int)
    ensures t / size * size <= t < t / size * size + size
  {
  }

  lemma AssignedWindowsContain(a: Assigner, t: int, w: Window)
    requires w in Assign(a, t)
    ensures Contains(w, t) && w.end == w.start + a.size
  {
    if a.Sliding? {
      var k: nat :| k < |Assign(a, t)| && Assign(a, t)[k] == w;
      SlidingWindowContains(a, t, k);
    } else {
      TumblingWindowContains(a.size, t);
    }
  }

  lemma AssignedWindowsIncrease(a: Assigner, t: int, i: nat, j: nat)
    requires i < j < |Assign(a, t)|
    ensures Assign(a, t)[i].start < Assign(a, t)[j].start
  {
    MulMono(i + 1, j, a.slide);
    assert (i + 1) * a.slide == i * a.slide + a.slide;
  }

  /** floor(size / slide) windows (one if tumbling), in increasing order, all containing t. */
  lemma AssignIsSound(a: Assigner, t: int)
    ensures |Assign(a, t)| == if a.Tumbling? then 1 else a.size / a.slide
    ensures Distinct(Assign(a, t))
    ensures forall i, j :: 0 <= i < j < |Assign(a, t)| ==> Assign(a, t)[i].start < Assign(a, t)[j].start
    ensures forall w :: w in Assign(a, t) ==> Contains(w, t) && w.end == w.start + a.size
  {
    forall i, j | 0 <= i < j < |Assign(a, t)| ensures Assign(a, t)[i].start < Assign(a, t)[j].start {
      AssignedWindowsIncrease(a, t, i, j);
    }
    forall w | w in Assign(a, t) ensures Contains(w, t) && w.end == w.start + a.size {
      AssignedWindowsContain(a, t, w);
    }
  }

  /** The windows a sliding assigner stands for start at multiples of the slide. */
  predicate AlignedWindow(a: Assigner, w: Window)
    requires a.Sliding?
  {
    w.start % a.slide == 0 && w.end == w.start + a.size
  }

  ghost predicate AssignsExactly(a: Assigner, t: int)
    requires a.Sliding?
  {
    forall w :: w in Assign(a, t) <==> AlignedWindow(a, w) && Contains(w, t)
  }

  lemma DividingSlideIsExact(a: Assigner, t: int)
    requires a.Sliding? && a.size % a.slide == 0
    ensures AssignsExactly(a, t)
  {
    forall w ensures w in Assign(a, t) <==> AlignedWindow(a, w) && Contains(w, t) {
      if w in Assign(a, t) {
        var k: nat :| k < |Assign(a, t)| && Assign(a, t)[k] == w;
        AssignedWindowsContain(a, t, w);
        AssignedIsAligned(a, t, k);
      }
      if AlignedWindow(a, w) && Contains(w, t) {
        AlignedIsAssigned(a, t, w);
      }
    }
  }

  lemma AssignedIsAligned(a: Assigner, t: int, k: nat)
    requires a.Sliding? && a.size % a.slide == 0
    ensures AlignedWindow(a, SlidingWindowAt(a, t, k))
  {
    var n, q := a.size / a.slide, t / a.slide;
    assert a.size == n * a.slide;
    var m := q - n + 1 + k;
    assert m * a.slide == q * a.slide - n * a.slide + a.slide + k * a.slide;
    MultipleIsAligned(m, a.slide);
  }

  lemma MultipleIsAligned(m: int, d: int)
    requires d > 0
    ensures m * d % d == 0
  {
    var q := m * d / d;
    assert q * d <= m * d < q * d + d;
    assert (q + 1) * d == q * d + d;
    MulLess(m, q + 1, d);
    MulLess(q, m + 1, d);
  }

  lemma MulLess(x: int, y: int, d: int)
    requires x * d < y * d && d > 0
    ensures x < y
  {
    if y <= x {
      MulMono(y, x, d);
    }
  }

  lemma AlignedIndex(a: Assigner, t: int, s: int, n: int) returns (k: nat)
    requires a.Sliding? && a.size == n * a.slide
    requires s * a.slide <= t < s * a.slide + a.size
    ensures k < n && SlidingWindowAt(a, t, k).start == s * a.slide
  {
    var q, d := t / a.slide, a.slide;
    assert q * d <= t < q * d + d;
    assert (q + 1) * d == q * d + d;
    MulLess(s, q + 1, d);
    assert (s + n) * d == s * d + n * d;
    MulLess(q, s + n, d);
    k := s - q + n - 1;
    assert k * d == s * d - q * d + n * d - d;
  }

  lemma AlignedIsAssigned(a: Assigner, t: int, w: Window)
    requires a.Sliding? && a.size % a.slide == 0
    requires AlignedWindow(a, w) && Contains(w, t)
    ensures w in Assign(a, t)
  {
    var k := AlignedIndex(a, t, w.start / a.slide, a.size / a.slide);
    assert Assign(a, t)[k] == SlidingWindowAt(a, t, k) == w;
  }

  /** Every timestamp gets exactly the aligned windows containing it if and only if the slide
      divides the size; otherwise some timestamp gets a wrong window or misses one. */
  lemma SlidingIsExactIff(a: Assigner)
    requires a.Sliding?
    ensures (forall t: Positive :: AssignsExactly(a, t)) <==> a.size % a.slide == 0
  {
    if a.size % a.slide == 0 {
      forall t: Positive ensures AssignsExactly(a, t) {
        DividingSlideIsExact(a, t);
      }
    } else {
      var t: Positive := a.slide;
      assert t / a.slide == 1;
      if a.size >= a.slide {
        FirstWindowIsNotAligned(a, t);
        assert SlidingWindowAt(a, t, 0) == Assign(a, t)[0];
        assert SlidingWindowAt(a, t, 0) in Assign(a, t);
      } else {
        assert AlignedWindow(a, Window(t, t + a.size)) && Contains(Window(t, t + a.size), t);
        assert a.size / a.slide == 0;
      }
      assert !AssignsExactly(a, t);
    }
  }

  lemma FirstWindowIsNotAligned(a: Assigner, t: int)
    requires a.Sliding? && a.size % a.slide != 0
    ensures !AlignedWindow(a, SlidingWindowAt(a, t, 0))
  {
    var start := SlidingWindowAt(a, t, 0).start;
    if start % a.slide == 0 {
      var m := start / a.slide;
      assert start == m * a.slide;
      assert a.size == (t / a.slide + 1 - m) * a.slide;
      MultipleIsAligned(t / a.slide + 1 - m, a.slide);
    }
  }

  lemma EndIsAligned(a: Assigner, t: int, k: nat)
    requires a.Sliding?
    ensures SlidingWindowAt(a, t, k).end == (t / a.slide + 1 + k) * a.slide
    ensures SlidingWindowAt(a, t, k).end % a.slide == 0
  {
    var q := t / a.slide;
    assert (q + 1 + k) * a.slide == q * a.slide + a.slide + k * a.slide;
    MultipleIsAligned(q + 1 + k, a.slide);
  }

  lemma AlignedEndIsAssigned(a: Assigner, t: int, w: Window)
    requires a.Sliding? && w.end % a.slide == 0 && w.end == w.start + a.size
    requires w.start <= t / a.slide * a.slide && t < w.end
    ensures w in Assign(a, t)
  {
    var q, e, d := t / a.slide, w.end / a.slide, a.slide;
    assert e * d == w.end && q * d <= t;
    MulLess(q, e, d);
    var k := e - q - 1;
    EndIsAligned(a, t, k);
    assert q + 1 + k == e;
    SlidingWindowContains(a, t, k);
    assert Assign(a, t)[k] == SlidingWindowAt(a, t, k) == w;
  }

  /** Whatever the slide: a timestamp gets exactly the windows of full size that end at a multiple of the
      slide, contain it, and start no later than the last multiple of the slide before it. */
  lemma SlidingWindowsEndAligned(a: Assigner, t: int)
    requires a.Sliding?
    ensures forall w :: w in Assign(a, t)
              <==> w.end % a.slide == 0 && w.end == w.start + a.size && w.start <= t / a.slide * a.slide && t < w.end
  {
    forall w
      ensures w in Assign(a, t)
              <==> w.end % a.slide == 0 && w.end == w.start + a.size && w.start <= t / a.slide * a.slide && t < w.end
    {
      if w in Assign(a, t) {
        var k: nat :| k < |Assign(a, t)| && Assign(a, t)[k] == w;
        AssignedWindowsContain(a, t, w);
        SlidingWindowContains(a, t, k);
        EndIsAligned(a, t, k);
      }
      if w.end % a.slide == 0 && w.end == w.start + a.size && w.start <= t / a.slide * a.slide && t < w.end {
        AlignedEndIsAssigned(a, t, w);
      }
    }
  }

  lemma SlidingBySizeIsTumbling(size: Positive, t: int)
    ensures Assign(Sliding(size, size), t) == Assign(Tumbling(size), t)
  {
    assert size / size == 1;
    assert SlidingWindowAt(Sliding(size, size), t, 0) == Assign(Tumbling(size), t)[0];
  }
}
