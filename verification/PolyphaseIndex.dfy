/**
 * Index arithmetic of `_StreamingScipyState` in src/easycat/_audio_utils.py: which positions of the
 * zero-stuffed, filtered stream become outputs. The filter itself is not part of this model.
 */
module PolyphaseIndex {
  import opened Prelude
  import opened LinearResampler

  /** The positions of outputs `lo` to `hi - 1`: one every `down`, after the filter's delay. */
  function Positions(half: nat, down: nat, lo: nat, hi: nat): (p: seq<nat>)
    requires lo <= hi
    ensures |p| == hi - lo
  {
    if lo == hi then [] else Positions(half, down, lo, hi - 1) + [half + (hi - 1) * down]
  }

  /** Position `k` of the whole stream lies `k` strides beyond the filter's delay. */
  lemma {:induction false} PositionsAt(half: nat, down: Rate, lo: nat, hi: nat, k: nat)
    requires lo <= k < hi
    ensures Positions(half, down, lo, hi)[k - lo] == half + k * down
  {
    if k < hi - 1 {
      PositionsAt(half, down, lo, hi - 1, k);
    }
  }

  lemma {:induction false} PositionsSplit(half: nat, down: nat, lo: nat, mid: nat, hi: nat)
    requires lo <= mid <= hi
    ensures Positions(half, down, lo, mid) + Positions(half, down, mid, hi) == Positions(half, down, lo, hi)
  {
    if mid < hi {
      PositionsSplit(half, down, lo, mid, hi - 1);
    }
  }

  lemma CancelDivisor(n: nat, g: nat, up: nat, down: nat)
    requires g > 0 && down > 0
    ensures g * down > 0 && n * (g * up) / (g * down) == n * up / down
  {
    var q, r := n * up / down, n * up % down;
    MulMonotone(1, g, down);
    assert n * (g * up) == g * (n * up);
    assert g * (n * up) == q * (g * down) + g * r by {
      assert n * up == q * down + r;
      assert g * (q * down + r) == g * (q * down) + g * r;
      assert g * (q * down) == q * (g * down);
    }
    MulMonotone(0, r, g);
    MulMonotone(r + 1, down, g);
    assert (r + 1) * g == g * r + g && down * g == g * down;
    DivisionIsUnique(n * (g * up), q, g * r, g * down);
  }

  /** Dividing both rates by a common divisor owes the same outputs. */
  ghost predicate SameTargets(from: Rate, to: Rate, down: Rate, up: Rate) {
    forall n: nat :: TargetCount(n, from, to) == TargetCount(n, down, up)
  }

  lemma TargetIs(n: nat, from: Rate, to: Rate, down: Rate, up: Rate)
    requires SameTargets(from, to, down, up)
    ensures TargetCount(n, from, to) == TargetCount(n, down, up)
  {
  }

  lemma Distributes(a: nat, b: nat, c: nat)
    ensures (a + b) * c == a * c + b * c
  {
  }

  class StreamingPolyphaseState {
    const from: Rate
    const to: Rate
    const up: Rate
    const down: Rate
    const half: nat
    var expandedCount: nat
    var nextOutputIndex: nat
    var received: nat
    var outputCount: nat

    /** While the stream is open, exactly the positions inside the expanded input have been emitted. */
    ghost predicate Valid()
      reads this
    {
      && half == 10 * Max(up, down)
      && SameTargets(from, to, down, up)
      && expandedCount == received * up
      && nextOutputIndex == half + outputCount * down
      && nextOutputIndex >= expandedCount
      && (outputCount > 0 ==> half + (outputCount - 1) * down < expandedCount)
    }

    constructor (from: Rate, to: Rate, divisor: Rate)
      requires from % divisor == 0 && to % divisor == 0
      ensures Valid() && received == 0 && outputCount == 0
      ensures this.from == from && this.to == to && this.up == to / divisor && this.down == from / divisor
    {
      DivideParts(from, divisor);
      DivideParts(to, divisor);
      this.from, this.to, this.up, this.down := from, to, to / divisor, from / divisor;
      half := 10 * Max(to / divisor, from / divisor);
      expandedCount, nextOutputIndex, received, outputCount := 0, 10 * Max(to / divisor, from / divisor), 0, 0;
      new;
      forall n: nat ensures TargetCount(n, from, to) == TargetCount(n, down, up) {
        CancelDivisor(n, divisor, up, down);
        assert divisor * up == to && divisor * down == from;
      }
      assert 0 * up == 0 && 0 * down == 0;
    }

    /** An open stream has never emitted more than is owed for what it received. */
    lemma NeverAhead()
      requires Valid()
      ensures outputCount <= TargetCount(received, from, to)
    {
      TargetIs(received, from, to, down, up);
      if outputCount > 0 {
        BelowQuotient(outputCount - 1, received * up, down);
        assert outputCount * down == (outputCount - 1) * down + down;
      }
    }

    /**
     * The selection loop of `process`. `at` are the positions emitted by this call: the next ones
     * in turn, and all that are still owed when `final`.
     */
    method Process(samples: nat, final: bool) returns (at: seq<nat>)
      requires Valid()
      modifies this
      ensures received == old(received) + samples
      ensures old(outputCount) <= outputCount
      ensures at == Positions(half, down, old(outputCount), outputCount)
      ensures !final ==> Valid()
      ensures final ==> outputCount == TargetCount(received, from, to)
    {
      hide Positions, TargetCount, ReadyCount, SameTargets;
      NeverAhead();
      CountsGrow(received, received + samples, from, to);
      TargetIs(received + samples, from, to, down, up);
      Distributes(received, samples, up);
      received := received + samples;
      var start := expandedCount;
      var stop := start + samples * up + (if final then half + down else 0);
      expandedCount := stop;
      at := Select(start, stop, final, TargetCount(received, from, to));
      if final { NothingLeft(stop); }
    }

    method Select(start: nat, stop: nat, final: bool, targetCount: nat) returns (at: seq<nat>)
      requires nextOutputIndex == half + outputCount * down >= start
      requires final ==> outputCount <= targetCount
      requires outputCount > 0 ==> half + (outputCount - 1) * down < start
      modifies `nextOutputIndex, `outputCount
      ensures nextOutputIndex == half + outputCount * down && old(outputCount) <= outputCount
      ensures at == Positions(half, down, old(outputCount), outputCount)
      ensures outputCount > 0 && start <= stop ==> half + (outputCount - 1) * down < stop
      ensures nextOutputIndex >= stop || (final && outputCount == targetCount)
      ensures final ==> outputCount <= targetCount
    {
      at := [];
      while nextOutputIndex < stop && (!final || outputCount < targetCount)
        invariant nextOutputIndex == half + outputCount * down >= start
        invariant old(outputCount) <= outputCount
        invariant final ==> outputCount <= targetCount
        invariant at == Positions(half, down, old(outputCount), outputCount)
        invariant outputCount > 0 && start <= stop ==> half + (outputCount - 1) * down < stop
        decreases stop - nextOutputIndex
      {
        ghost var count := outputCount;
        if nextOutputIndex >= start {
          at := at + [nextOutputIndex];
          outputCount := outputCount + 1;
        }
        assert (count + 1) * down == count * down + down;
        nextOutputIndex := nextOutputIndex + down;
      }
    }

    /** The zeros appended by the last call are enough to flush every output owed. */
    lemma NothingLeft(stop: nat)
      requires stop == received * up + half + down && nextOutputIndex == half + outputCount * down
      requires TargetCount(received, from, to) == TargetCount(received, down, up)
      ensures nextOutputIndex >= stop ==> outputCount >= TargetCount(received, from, to)
    {
      BelowQuotient(outputCount, received * up, down);
      assert (outputCount + 1) * down == outputCount * down + down;
    }

    /** Bytes still owed; `Process(0, true)` emits exactly that many. */
    function PendingOutputBytes(): (n: nat)
      requires Valid()
      reads this
      ensures n == 2 * (TargetCount(received, from, to) - outputCount)
    {
      NeverAhead();
      var targetCount := received * to / from;
      Max(0, targetCount - outputCount) * 2
    }
  }

  function Total(chunks: seq<nat>): nat { if chunks == [] then 0 else Total(chunks[..|chunks| - 1]) + chunks[|chunks| - 1] }

  /** However a stream is cut, the positions emitted are those of the stream fed in one piece. */
  method EmittedPositions(from: Rate, to: Rate, divisor: Rate, chunks: seq<nat>) returns (at: seq<nat>)
    requires from % divisor == 0 && to % divisor == 0
    ensures at == Positions(10 * Max(to / divisor, from / divisor), from / divisor, 0,
                            TargetCount(Total(chunks), from, to))
  {
    var state := new StreamingPolyphaseState(from, to, divisor);
    at := [];
    for i := 0 to |chunks|
      invariant state.Valid() && fresh(state)
      invariant state.from == from && state.to == to && state.down == from / divisor && state.up == to / divisor
      invariant state.received == Total(chunks[..i])
      invariant at == Positions(state.half, state.down, 0, state.outputCount)
    {
      ghost var mid := state.outputCount;
      var more := state.Process(chunks[i], false);
      PositionsSplit(state.half, state.down, 0, mid, state.outputCount);
      assert chunks[..i + 1][..i] == chunks[..i];
      at := at + more;
    }
    assert chunks[..|chunks|] == chunks;
    ghost var mid := state.outputCount;
    var rest := state.Process(0, true);
    PositionsSplit(state.half, state.down, 0, mid, state.outputCount);
    at := at + rest;
  }
}
