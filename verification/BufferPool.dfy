/**
 * The flip buffer of the network layer, and the pool that hands such buffers out.
 *
 * A buffer is written from its position on, flipped, and read back from the start.
 */
module MemoryBuffers {
  import opened Common

  newtype byte = x: int | 0 <= x < 256

  datatype BufferState = BufferState(bytes: seq<byte>, position: int, limit: int)

  predicate WellFormed(s: BufferState) {
    0 <= s.position <= s.limit <= |s.bytes|
  }

  function Writable(s: BufferState, d: seq<byte>): nat
    requires WellFormed(s)
  {
    Min(|d|, |s.bytes| - s.position)
  }

  function AfterWrite(s: BufferState, d: seq<byte>): BufferState
    requires WellFormed(s)
  {
    var n := Writable(s, d);
    BufferState(s.bytes[..s.position] + d[..n] + s.bytes[s.position + n..],
                s.position + n, Max(s.limit, s.position + n))
  }

  /** How far a read moves the position: backwards when a negative length is asked for. */
  function Advance(s: BufferState, length: Option<int>): int {
    match length
    case None => s.limit - s.position
    case Some(n) => Min(n, s.limit - s.position)
  }

  function AfterRead(s: BufferState, length: Option<int>): BufferState {
    s.(position := s.position + Advance(s, length))
  }

  /** A slice whose end is negative counts that end from the back of the storage. */
  function Slice(s: seq<byte>, from: nat, end: int): seq<byte>
    requires from <= |s| && end <= |s|
  {
    var to := if end >= 0 then end else Max(0, |s| + end);
    if from <= to then s[from..to] else []
  }

  function ReadOut(s: BufferState, length: Option<int>): seq<byte>
    requires WellFormed(s)
  {
    Slice(s.bytes, s.position, s.position + Advance(s, length))
  }

  function AfterFlip(s: BufferState): BufferState {
    s.(position := 0, limit := s.position)
  }

  function AfterReset(s: BufferState): BufferState {
    s.(position := 0, limit := 0)
  }

  class MemoryBuffer {
    const size: nat
    const data: array<byte>
    var position: int
    var limit: int

    ghost predicate Valid()
      reads this, data
    {
      data.Length == size && WellFormed(State())
    }

    ghost function State(): BufferState
      reads this, data
    {
      BufferState(data[..], position, limit)
    }

    constructor (size: nat)
      ensures Valid() && fresh(data) && this.size == size
      ensures position == limit == 0
    {
      this.size := size;
      data := new byte[size](i => 0);
      position, limit := 0, 0;
    }

    method Write(d: seq<byte>) returns (written: nat)
      requires Valid()
      modifies this, data
      ensures Valid() && State() == AfterWrite(old(State()), d)
      ensures written == Writable(old(State()), d)
    {
      var available := size - position;
      written := Min(|d|, available);
      if written > 0 {
        forall i | 0 <= i < written {
          data[position + i] := d[i];
        }
        position := position + written;
        limit := Max(limit, position);
      }
      assert data[..] == AfterWrite(old(State()), d).bytes;
    }

    method Read(length: Option<int>) returns (out: seq<byte>)
      requires Valid()
      modifies this
      ensures State() == AfterRead(old(State()), length) && out == ReadOut(old(State()), length)
      ensures Valid() <==> length.None? || -old(position) <= length.value
    {
      var wanted := if length.None? then limit - position else length.value;
      var toRead := Min(wanted, limit - position);
      out := Slice(data[..], position, position + toRead);
      position := position + toRead;
    }

    method Flip()
      requires Valid()
      modifies this
      ensures Valid() && State() == AfterFlip(old(State()))
    {
      limit := position;
      position := 0;
    }

    method Reset()
      requires data.Length == size
      modifies this
      ensures Valid() && State() == AfterReset(old(State()))
    {
      position := 0;
      limit := 0;
    }
  }

  // ---------------------------------------------------------------- The round trip

  function WriteAll(s: BufferState, ds: seq<seq<byte>>): (r: BufferState)
    requires WellFormed(s)
    ensures WellFormed(r) && |r.bytes| == |s.bytes|
  {
    if ds == [] then s else AfterWrite(WriteAll(s, ds[..|ds| - 1]), ds[|ds| - 1])
  }

  predicate Forward(lengths: seq<Option<int>>) {
    forall i :: 0 <= i < |lengths| && lengths[i].Some? ==> lengths[i].value >= 0
  }

  function ReadAll(s: BufferState, lengths: seq<Option<int>>): (r: (BufferState, seq<seq<byte>>))
    requires WellFormed(s) && Forward(lengths)
    ensures WellFormed(r.0)
  {
    if lengths == [] then (s, [])
    else
      var n := |lengths| - 1;
      var before := ReadAll(s, lengths[..n]);
      (AfterRead(before.0, lengths[n]), before.1 + [ReadOut(before.0, lengths[n])])
  }

  /** How much a list of reads asks for in all; None when one of them takes whatever is left. */
  function Asked(lengths: seq<Option<int>>): Option<int> {
    if lengths == [] then Some(0)
    else
      var n := |lengths| - 1;
      var before := Asked(lengths[..n]);
      if before.None? || lengths[n].None? then None else Some(before.value + lengths[n].value)
  }

  function CutTo(s: seq<byte>, bound: Option<int>): seq<byte>
    requires bound.Some? ==> bound.value >= 0
  {
    if bound.None? || bound.value >= |s| then s else s[..bound.value]
  }

  lemma {:induction false} AskedIsForward(lengths: seq<Option<int>>)
    requires Forward(lengths)
    ensures Asked(lengths).Some? ==> Asked(lengths).value >= 0
  {
    if lengths == [] {
    } else {
      AskedIsForward(lengths[..|lengths| - 1]);
    }
  }

  lemma WriteAppends(s: BufferState, d: seq<byte>)
    requires WellFormed(s)
    ensures var r := AfterWrite(s, d);
            r.bytes[..r.position] == s.bytes[..s.position] + d[..Writable(s, d)]
  {
  }

  lemma CutOfSum(c: seq<byte>, d: seq<byte>, i: nat, j: nat)
    requires i <= |c| && j <= |d| && (i == |c| || j == 0)
    ensures c[..i] + d[..j] == (c + d)[..i + j]
  {
  }

  /** Wherever the position is: a write replaces the bytes from there on by those that fit, touches no
      other byte, and never lowers the limit. */
  lemma WriteReplacesFromPosition(s: BufferState, d: seq<byte>)
    requires WellFormed(s)
    ensures var r := AfterWrite(s, d);
            && |r.bytes| == |s.bytes|
            && r.position <= s.position + |d| && (r.position == s.position + |d| || r.position == |s.bytes|)
            && (forall i :: 0 <= i < |s.bytes| ==>
                  r.bytes[i] == if s.position <= i < r.position then d[i - s.position] else s.bytes[i])
            && r.limit >= s.limit && r.limit >= r.position && (r.limit == s.limit || r.limit == r.position)
  {
  }

  /** From empty, writes leave exactly the first bytes of their concatenation that fit. */
  lemma {:induction false} WritesFillInOrder(s: BufferState, ds: seq<seq<byte>>)
    requires WellFormed(s) && s.position == s.limit == 0
    ensures var r := WriteAll(s, ds);
            && r.position == r.limit == Min(|Concat(ds)|, |s.bytes|)
            && r.bytes[..r.position] == Concat(ds)[..r.position]
  {
    if ds == [] {
    } else {
      var n := |ds| - 1;
      var before := WriteAll(s, ds[..n]);
      WritesFillInOrder(s, ds[..n]);
      WriteAppends(before, ds[n]);
      CutOfSum(Concat(ds[..n]), ds[n], before.position, Writable(before, ds[n]));
    }
  }

  /** Reads move the position to what was asked for, and touch nothing else. */
  lemma {:induction false} ReadsReachWhatIsAsked(s: BufferState, lengths: seq<Option<int>>)
    requires WellFormed(s) && s.position == 0 && Forward(lengths)
    ensures ReadAll(s, lengths).0 == s.(position := ReadAll(s, lengths).0.position)
    ensures Asked(lengths).Some? ==> Asked(lengths).value >= 0
    ensures ReadAll(s, lengths).0.position
            == if Asked(lengths).None? then s.limit else Min(Asked(lengths).value, s.limit)
  {
    AskedIsForward(lengths);
    if lengths == [] {
    } else {
      ReadsReachWhatIsAsked(s, lengths[..|lengths| - 1]);
    }
  }

  /** Reads from a flipped buffer hand out its contents in order, none twice and none skipped. */
  lemma {:induction false} ReadsDrainInOrder(s: BufferState, lengths: seq<Option<int>>)
    requires WellFormed(s) && s.position == 0 && Forward(lengths)
    ensures var (r, outs) := ReadAll(s, lengths);
            |outs| == |lengths| && r.position <= |s.bytes| && Concat(outs) == s.bytes[..r.position]
  {
    ReadsReachWhatIsAsked(s, lengths);
    if lengths == [] {
    } else {
      var n := |lengths| - 1;
      ReadsDrainInOrder(s, lengths[..n]);
      ReadsReachWhatIsAsked(s, lengths[..n]);
      var before := ReadAll(s, lengths[..n]);
      var (r, outs) := ReadAll(s, lengths);
      assert outs[..n] == before.1;
      SlicesJoin(s.bytes, before.0.position, r.position);
    }
  }

  /**
   * The round trip: reset, any writes, one flip, any forward reads. What comes out is what went in, cut
   * at the capacity and then at what was asked for.
   */
  lemma {:induction false} RoundTrip(s: BufferState, ds: seq<seq<byte>>, lengths: seq<Option<int>>)
    requires WellFormed(s) && Forward(lengths)
    ensures var kept := CutTo(Concat(ds), Some(|s.bytes|));
            var flipped := AfterFlip(WriteAll(AfterReset(s), ds));
            && flipped.limit == |kept|
            && (Asked(lengths).Some? ==> Asked(lengths).value >= 0)
            && Concat(ReadAll(flipped, lengths).1) == CutTo(kept, Asked(lengths))
  {
    var written := WriteAll(AfterReset(s), ds);
    WritesFillInOrder(AfterReset(s), ds);
    ReadsReachWhatIsAsked(AfterFlip(written), lengths);
    ReadsDrainInOrder(AfterFlip(written), lengths);
    var kept := CutTo(Concat(ds), Some(|s.bytes|));
    assert written.bytes[..written.position] == kept;
    var end := ReadAll(AfterFlip(written), lengths).0.position;
    assert written.bytes[..end] == kept[..end];
  }

  datatype BufferCall = Write(d: seq<byte>) | Read(length: Option<int>) | Flip | Reset

  /** After any calls; calls following one that leaves the bounds broken are not defined. */
  function AfterCalls(s: BufferState, calls: seq<BufferCall>): Option<BufferState> {
    if calls == [] then Some(s)
    else
      var before := AfterCalls(s, calls[..|calls| - 1]);
      if before.None? || !WellFormed(before.value) then None
      else
        Some(match calls[|calls| - 1]
             case Write(d) => AfterWrite(before.value, d)
             case Read(length) => AfterRead(before.value, length)
             case Flip => AfterFlip(before.value)
             case Reset => AfterReset(before.value))
  }

  predicate ForwardCalls(calls: seq<BufferCall>) {
    forall i :: 0 <= i < |calls| && calls[i].Read? && calls[i].length.Some? ==> calls[i].length.value >= 0
  }

  /** Whatever the order of calls, without negative lengths position <= limit <= size throughout. */
  lemma {:induction false} BoundsHoldThroughout(s: BufferState, calls: seq<BufferCall>)
    requires WellFormed(s) && ForwardCalls(calls)
    ensures var r := AfterCalls(s, calls);
            r.Some? && WellFormed(r.value) && |r.value.bytes| == |s.bytes|
  {
    if calls == [] {
    } else {
      BoundsHoldThroughout(s, calls[..|calls| - 1]);
    }
  }
}

/** The pool of buffers. */
module BufferPools {
  import opened Common
  import opened MemoryBuffers

  datatype PoolState<!T(==)> = PoolState(available: seq<T>, held: set<T>)

  datatype PoolCall<T> = Acquire | Release(buffer: T)

  /** Acquiring takes from the front; releasing appends at the back and asks no question. */
  function AfterCall<T>(s: PoolState<T>, call: PoolCall<T>): PoolState<T> {
    match call
    case Acquire =>
      if s.available == [] then s else PoolState(s.available[1..], s.held + {s.available[0]})
    case Release(b) => PoolState(s.available + [b], s.held - {b})
  }

  function AfterAll<T>(s: PoolState<T>, calls: seq<PoolCall<T>>): PoolState<T> {
    if calls == [] then s else AfterCall(AfterAll(s, calls[..|calls| - 1]), calls[|calls| - 1])
  }

  /** Every buffer of the pool is in one place: once in the queue, or with one holder. */
  predicate Conserved<T>(s: PoolState<T>, all: set<T>) {
    Distinct(s.available) && SetOf(s.available) !! s.held && SetOf(s.available) + s.held == all
  }

  /** Each release gives back a buffer that is out at that moment. */
  predicate GivesBackOnlyHeld<T>(s: PoolState<T>, calls: seq<PoolCall<T>>) {
    if calls == [] then true
    else
      var n := |calls| - 1;
      && GivesBackOnlyHeld(s, calls[..n])
      && (calls[n].Release? ==> calls[n].buffer in AfterAll(s, calls[..n]).held)
  }

  predicate AlwaysConserved<T>(s: PoolState<T>, calls: seq<PoolCall<T>>, all: set<T>) {
    if calls == [] then Conserved(s, all)
    else AlwaysConserved(s, calls[..|calls| - 1], all) && Conserved(AfterAll(s, calls), all)
  }

  lemma CallConserves<T>(s: PoolState<T>, call: PoolCall<T>, all: set<T>)
    requires Conserved(s, all)
    ensures Conserved(AfterCall(s, call), all) <==> (call.Release? ==> call.buffer in s.held)
    ensures call.Acquire? && s.available != [] ==> s.available[0] !in s.held
  {
    var r := AfterCall(s, call);
    if call.Release? {
      assert r.available[..|s.available|] == s.available && r.available[|s.available|] == call.buffer;
      assert SetOf(r.available) == SetOf(s.available) + {call.buffer};
      if call.buffer in s.available {
        var i :| 0 <= i < |s.available| && s.available[i] == call.buffer;
        assert r.available[i] == r.available[|s.available|];
      }
    } else if s.available != [] {
      assert s.available == [s.available[0]] + r.available;
      assert SetOf(s.available) == {s.available[0]} + SetOf(r.available);
      assert forall i :: 0 <= i < |r.available| ==> r.available[i] == s.available[i + 1];
    }
  }

  /**
   * Over any run, no buffer is lost and none is ever in two places, exactly when every release gives
   * back a buffer that is out; then the queue and the holders always add up to the pool's size.
   */
  lemma {:induction false} ConservedIff<T>(s: PoolState<T>, calls: seq<PoolCall<T>>, all: set<T>)
    requires Conserved(s, all)
    ensures AlwaysConserved(s, calls, all) <==> GivesBackOnlyHeld(s, calls)
    ensures GivesBackOnlyHeld(s, calls) ==>
              var r := AfterAll(s, calls);
              Conserved(r, all) && |r.available| + |r.held| == |all|
  {
    if calls == [] {
    } else {
      var n := |calls| - 1;
      ConservedIff(s, calls[..n], all);
      if GivesBackOnlyHeld(s, calls[..n]) {
        CallConserves(AfterAll(s, calls[..n]), calls[n], all);
      }
    }
    if GivesBackOnlyHeld(s, calls) {
      var r := AfterAll(s, calls);
      DistinctCard(r.available);
      assert all == SetOf(r.available) + r.held;
    }
  }

  /** The buffers handed out by a run, in order. */
  function HandedOut<T>(s: PoolState<T>, calls: seq<PoolCall<T>>): seq<T> {
    if calls == [] then []
    else
      var n := |calls| - 1;
      var before := AfterAll(s, calls[..n]);
      if calls[n].Acquire? && before.available != [] then HandedOut(s, calls[..n]) + [before.available[0]]
      else HandedOut(s, calls[..n])
  }

  /** The buffers given back by a run, in order. */
  function GivenBack<T>(calls: seq<PoolCall<T>>): seq<T> {
    if calls == [] then []
    else
      var n := |calls| - 1;
      if calls[n].Release? then GivenBack(calls[..n]) + [calls[n].buffer] else GivenBack(calls[..n])
  }

  /** First in, first out, over any run: what was handed out, followed by the queue, is the queue at the
      start followed by what was given back. */
  lemma {:induction false} QueueIsFifo<T>(s: PoolState<T>, calls: seq<PoolCall<T>>)
    ensures HandedOut(s, calls) + AfterAll(s, calls).available == s.available + GivenBack(calls)
    decreases |calls|
  {
    if calls == [] {
      assert [] + s.available == s.available + [];
    } else {
      var n := |calls| - 1;
      var before, out := AfterAll(s, calls[..n]), HandedOut(s, calls[..n]);
      QueueIsFifo(s, calls[..n]);
      match calls[n]
      case Acquire =>
        if before.available != [] {
          assert before.available == [before.available[0]] + before.available[1..];
          Reassociate(out, [before.available[0]], before.available[1..]);
        }
      case Release(b) =>
        Reassociate(out, before.available, [b]);
        Reassociate(s.available, GivenBack(calls[..n]), [b]);
    }
  }

  class BufferPool {
    const bufferSize: nat
    const poolSize: nat
    var available: seq<MemoryBuffer>
    var allocatedCount: nat
    var deallocatedCount: nat
    var waitCount: nat
    ghost var held: set<MemoryBuffer>

    ghost predicate Valid()
      reads this, available, held
    {
      forall b <- SetOf(available) + held :: b.data.Length == b.size
    }

    /** Every waiting buffer has the pool's size. */
    ghost predicate Uniform()
      reads this, available
    {
      forall b <- available :: b.size == bufferSize
    }

    ghost function State(): PoolState<MemoryBuffer>
      reads this
    {
      PoolState(available, held)
    }

    constructor (bufferSize: nat, poolSize: nat)
      ensures Valid() && fresh(available) && |available| == poolSize && held == {}
      ensures Conserved(State(), SetOf(available))
      ensures allocatedCount == deallocatedCount == waitCount == 0
      ensures Uniform() && forall b <- available :: b.position == b.limit == 0
    {
      this.bufferSize, this.poolSize := bufferSize, poolSize;
      available, held := [], {};
      allocatedCount, deallocatedCount, waitCount := 0, 0, 0;
      new;
      for k := 0 to poolSize
        modifies this`available
        invariant |available| == k && fresh(available) && Distinct(available)
        invariant forall b <- available ::
            b.data.Length == b.size == bufferSize && b.position == b.limit == 0
      {
        var buffer := new MemoryBuffer(bufferSize);
        available := available + [buffer];
      }
    }

    /** One locked round of the waiting loop. None means that nothing is available and the caller waits:
        notified, it makes another round, and timed out, it gives up with None. */
    method Acquire() returns (buffer: Option<MemoryBuffer>)
      requires Valid()
      modifies this, available
      ensures Valid() && State() == AfterCall(old(State()), PoolCall.Acquire)
      ensures old(available) == [] ==>
                && buffer == None && waitCount == old(waitCount) + 1
                && allocatedCount == old(allocatedCount)
      ensures old(available) != [] ==>
                && buffer == Some(old(available[0])) && buffer.value.Valid()
                && buffer.value.State() == AfterReset(old(available[0].State()))
                && allocatedCount == old(allocatedCount) + 1 && waitCount == old(waitCount)
      ensures forall b <- old(available) :: Some(b) != buffer ==> b.State() == old(b.State())
      ensures deallocatedCount == old(deallocatedCount)
      ensures old(Uniform()) ==> Uniform() && (buffer.Some? ==> buffer.value.size == bufferSize)
    {
      if |available| == 0 {
        waitCount := waitCount + 1;
        return None;
      }
      var first := available[0];
      available := available[1..];
      first.Reset();
      allocatedCount := allocatedCount + 1;
      held := held + {first};
      return Some(first);
    }

    /** Releasing does not look whether the buffer is out, nor whether it is one of the pool's, nor at
        its size. */
    method Release(buffer: MemoryBuffer)
      requires Valid() && buffer.data.Length == buffer.size
      modifies this, buffer
      ensures Valid() && State() == AfterCall(old(State()), PoolCall.Release(buffer))
      ensures buffer.Valid() && buffer.State() == AfterReset(old(buffer.State()))
      ensures Uniform() <==> old(Uniform()) && buffer.size == bufferSize
      ensures deallocatedCount == old(deallocatedCount) + 1
      ensures allocatedCount == old(allocatedCount) && waitCount == old(waitCount)
    {
      buffer.Reset();
      available := available + [buffer];
      deallocatedCount := deallocatedCount + 1;
      held := held - {buffer};
    }
  }
}
