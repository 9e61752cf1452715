/**
 * The dependency-free streaming resampler of src/easycat/_audio_utils.py: a causal FIR
 * low-pass followed by linear interpolation at exact rational positions.
 *
 * Samples are integers, taps are arbitrary reals and positions are integers scaled by the
 * target rate, so the model has no rounding except the final half-to-even step.
 */
module LinearResampler {
  import opened Prelude
  import opened Pcm16

  type Rate = r: nat | r > 0 witness 1

  /* ---------- the whole-stream computation ---------- */

  /** The first `n` terms of the convolution sum for output `i`, with silence before the stream. */
  function FirSum(taps: seq<real>, xs: seq<int>, i: nat, n: nat): real
    requires n <= |taps| && n <= i + 1 && i < |xs|
  {
    if n == 0 then 0.0 else FirSum(taps, xs, i, n - 1) + taps[n - 1] * xs[i - (n - 1)] as real
  }

  function FilteredAt(taps: seq<real>, xs: seq<int>, i: nat): real {
    if i >= |xs| then 0.0
    else if taps == [] then xs[i] as real
    else FirSum(taps, xs, i, Min(|taps|, i + 1))
  }

  function Filtered(taps: seq<real>, xs: seq<int>): (f: seq<real>)
    ensures |f| == |xs|
  {
    Tabulate(|xs|, i => FilteredAt(taps, xs, i))
  }

  function Interpolate(a: real, b: real, rem: nat, to: Rate): real {
    var fraction := rem as real / to as real;
    a * (1.0 - fraction) + b * fraction
  }

  /** Output `k`: the value of `f` at position `k * from / to`, holding the last sample at the end. */
  function OutputAt(f: seq<real>, from: Rate, to: Rate, k: nat): int16 {
    var idx, rem := k * from / to, k * from % to;
    if idx >= |f| then 0
    else if rem != 0 && idx + 1 < |f| then ToSample(Interpolate(f[idx], f[idx + 1], rem, to))
    else ToSample(f[idx])
  }

  function Outputs(f: seq<real>, from: Rate, to: Rate, lo: nat, hi: nat): (s: seq<int16>)
    requires lo <= hi
    ensures |s| == hi - lo
  {
    if lo == hi then [] else Outputs(f, from, to, lo, hi - 1) + [OutputAt(f, from, to, hi - 1)]
  }

  /** Outputs owed for `n` input samples: floor(n * to / from). */
  function TargetCount(n: nat, from: Rate, to: Rate): nat { n * to / from }

  /** Outputs whose position needs no sample beyond the `n` received so far. */
  function ReadyCount(n: nat, from: Rate, to: Rate): nat {
    if n == 0 then 0 else Min(TargetCount(n, from, to), TargetCount(n - 1, from, to) + 1)
  }

  /** What a stream has emitted after `xs`, and what it emits in all once it is finished. */
  function EmittedSamples(taps: seq<real>, from: Rate, to: Rate, xs: seq<int>): seq<int16> {
    Outputs(Filtered(taps, xs), from, to, 0, ReadyCount(|xs|, from, to))
  }

  function FinishedSamples(taps: seq<real>, from: Rate, to: Rate, xs: seq<int>): seq<int16> {
    Outputs(Filtered(taps, xs), from, to, 0, TargetCount(|xs|, from, to))
  }

  /* ---------- positions ---------- */

  lemma DivideParts(x: nat, to: Rate)
    ensures x == (x / to) * to + x % to
  {
  }

  /** A position of the input before the last sample, or exactly on it, needs no later sample. */
  lemma NeedsNoLater(position: nat, n: nat, to: Rate)
    requires position < n * to
    ensures position / to < n
    ensures position <= (n - 1) * to <==> position % to == 0 || position / to + 1 < n
  {
    var idx, rem := position / to, position % to;
    DivideParts(position, to);
    if idx >= n {
      MulMonotone(n, idx, to);
    }
    if idx + 1 < n {
      MulMonotone(idx + 1, n - 1, to);
      assert (idx + 1) * to == idx * to + to;
    }
  }

  lemma ReadyIffReached(n: nat, from: Rate, to: Rate, k: nat)
    requires k < TargetCount(n, from, to)
    ensures n > 0 && k * from < n * to
    ensures k < ReadyCount(n, from, to) <==> k * from <= (n - 1) * to
  {
    BelowQuotient(k, n * to, from);
    assert (k + 1) * from == k * from + from;
    BelowQuotient(k - 1, (n - 1) * to, from);
  }

  /** Below the target, position `k` lies inside the input; it is ready iff it needs no later sample. */
  lemma ReadyIff(n: nat, from: Rate, to: Rate, k: nat)
    requires k < TargetCount(n, from, to)
    ensures k * from / to < n
    ensures k < ReadyCount(n, from, to) <==> k * from % to == 0 || k * from / to + 1 < n
  {
    hide TargetCount, ReadyCount;
    ReadyIffReached(n, from, to, k);
    NeedsNoLater(k * from, n, to);
  }

  lemma CountsGrow(n: nat, m: nat, from: Rate, to: Rate)
    requires n <= m
    ensures TargetCount(n, from, to) <= TargetCount(m, from, to)
    ensures ReadyCount(n, from, to) <= ReadyCount(m, from, to) <= TargetCount(m, from, to)
  {
    MulMonotone(n, m, to);
    DivMonotone(n * to, m * to, from);
    if n > 0 {
      MulMonotone(n - 1, m - 1, to);
      DivMonotone((n - 1) * to, (m - 1) * to, from);
    }
  }

  /** The samples still needed from output `c` on take less than one input step more than a period. */
  lemma RetainedBound(n: nat, from: Rate, to: Rate, c: nat)
    requires c >= ReadyCount(n, from, to)
    ensures (n - Min(n, c * from / to)) * to < from + to
  {
    var idx, rem := c * from / to, c * from % to;
    DivideParts(c * from, to);
    if idx < n {
      assert (n - idx) * to == n * to - idx * to;
      if c < TargetCount(n, from, to) {
        ReadyIff(n, from, to, c);
        assert n - idx == 1;
      } else {
        BelowQuotient(c, n * to, from);
        assert (c + 1) * from == c * from + from;
      }
    }
  }

  /* ---------- causality ---------- */

  lemma {:induction false} FirSumShift(taps: seq<real>, xs: seq<int>, i: nat, ys: seq<int>, j: nat, n: nat)
    requires n <= |taps| && n <= i + 1 && n <= j + 1 && i < |xs| && j < |ys|
    requires forall p :: i + 1 - n <= p <= i ==> xs[p] == ys[p + (j - i)]
    ensures FirSum(taps, xs, i, n) == FirSum(taps, ys, j, n)
  {
    if n > 0 {
      FirSumShift(taps, xs, i, ys, j, n - 1);
    }
  }

  lemma FilteredIs(taps: seq<real>, xs: seq<int>, i: nat)
    requires i < |xs|
    ensures Filtered(taps, xs)[i] == FilteredAt(taps, xs, i)
  {
    TabulateAt(|xs|, i => FilteredAt(taps, xs, i), i);
  }

  lemma FilteredPrefix(taps: seq<real>, xs: seq<int>, ys: seq<int>)
    ensures Filtered(taps, xs) <= Filtered(taps, xs + ys)
  {
    var f, g := Filtered(taps, xs), Filtered(taps, xs + ys);
    forall i | 0 <= i < |xs| ensures f[i] == g[i] {
      FilteredIs(taps, xs, i);
      FilteredIs(taps, xs + ys, i);
      if taps != [] {
        FirSumShift(taps, xs, i, xs + ys, i, Min(|taps|, i + 1));
      }
    }
  }

  lemma OutputAtSame(f: seq<real>, g: seq<real>, from: Rate, to: Rate, k: nat)
    requires f <= g && k * from / to < |f| && (k * from % to == 0 || k * from / to + 1 < |f|)
    ensures OutputAt(f, from, to, k) == OutputAt(g, from, to, k)
  {
  }

  /** An output that was ready is not changed by later samples. */
  lemma ReadyOutputIsStable(f: seq<real>, g: seq<real>, from: Rate, to: Rate, k: nat)
    requires f <= g && k < ReadyCount(|f|, from, to)
    ensures OutputAt(f, from, to, k) == OutputAt(g, from, to, k)
  {
    hide ReadyCount, TargetCount, OutputAt;
    CountsGrow(|f|, |f|, from, to);
    ReadyIff(|f|, from, to, k);
    OutputAtSame(f, g, from, to, k);
  }

  lemma {:induction false} OutputsStable(f: seq<real>, g: seq<real>, from: Rate, to: Rate, hi: nat)
    requires f <= g && hi <= ReadyCount(|f|, from, to)
    ensures Outputs(f, from, to, 0, hi) == Outputs(g, from, to, 0, hi)
  {
    if hi > 0 {
      OutputsStable(f, g, from, to, hi - 1);
      ReadyOutputIsStable(f, g, from, to, hi - 1);
    }
  }

  lemma {:induction false} OutputsSplit(f: seq<real>, from: Rate, to: Rate, lo: nat, mid: nat, hi: nat)
    requires lo <= mid <= hi
    ensures Outputs(f, from, to, lo, mid) + Outputs(f, from, to, mid, hi) == Outputs(f, from, to, lo, hi)
  {
    if mid < hi {
      OutputsSplit(f, from, to, lo, mid, hi - 1);
    }
  }

  lemma NextPosition(k: nat, from: Rate, to: Rate)
    ensures (k + 1) * from == k * from + from
    ensures k * from / to <= (k * from + from) / to
  {
    DivMonotone(k * from, k * from + from, to);
  }

  /**
   * What has been emitted is never revised: it is a prefix of what any longer stream emits
   * and of what finishing emits.
   */
  lemma EmittedIsPrefix(taps: seq<real>, from: Rate, to: Rate, xs: seq<int>, ys: seq<int>)
    ensures EmittedSamples(taps, from, to, xs) <= EmittedSamples(taps, from, to, xs + ys)
    ensures EmittedSamples(taps, from, to, xs) <= FinishedSamples(taps, from, to, xs + ys)
  {
    var f, g := Filtered(taps, xs), Filtered(taps, xs + ys);
    var c := ReadyCount(|xs|, from, to);
    FilteredPrefix(taps, xs, ys);
    CountsGrow(|xs|, |xs + ys|, from, to);
    OutputsStable(f, g, from, to, c);
    OutputsSplit(g, from, to, 0, c, ReadyCount(|xs + ys|, from, to));
    OutputsSplit(g, from, to, 0, c, TargetCount(|xs + ys|, from, to));
  }

  /** The outputs between two counts are what the later prefix has and the earlier one lacks. */
  lemma OutputsAreTheDifference(f: seq<real>, g: seq<real>, from: Rate, to: Rate, lo: nat, hi: nat)
    requires f <= g && lo <= ReadyCount(|f|, from, to) && lo <= hi
    ensures Pack(Outputs(f, from, to, 0, lo)) + Pack(Outputs(g, from, to, lo, hi)) == Pack(Outputs(g, from, to, 0, hi))
  {
    OutputsStable(f, g, from, to, lo);
    OutputsSplit(g, from, to, 0, lo, hi);
    PackAppend(Outputs(g, from, to, 0, lo), Outputs(g, from, to, lo, hi));
  }

  /* ---------- the streaming state ---------- */

  /** The last `n` elements, or all there are. */
  function LastOf<T>(xs: seq<T>, n: nat): seq<T> { if |xs| <= n then xs else xs[|xs| - n..] }

  /** The input samples a further filter step still reads. */
  function History(taps: seq<real>, xs: seq<int>): seq<int> {
    if taps == [] then [] else LastOf(xs, |taps| - 1)
  }

  lemma HistoryAt(taps: seq<real>, xs: seq<int>, ys: seq<int>)
    ensures var h := History(taps, xs);
            && |h| <= |xs| && (taps != [] ==> |h| == Min(|xs|, |taps| - 1))
            && forall p :: 0 <= p < |h + ys| ==> (h + ys)[p] == (xs + ys)[p + (|xs| - |h|)]
  {
  }

  /** Convolving behind the kept history gives the same sums as convolving the whole stream. */
  lemma HistorySuffices(taps: seq<real>, xs: seq<int>, ys: seq<int>, k: nat)
    requires taps != [] && k < |ys|
    ensures var combined, at := History(taps, xs) + ys, |History(taps, xs)| + k;
            FirSum(taps, combined, at, Min(|taps|, at + 1)) == FilteredAt(taps, xs + ys, |xs| + k)
  {
    hide History;
    HistoryAt(taps, xs, ys);
    var h := History(taps, xs);
    var at, n := |h| + k, Min(|taps|, |h| + k + 1);
    assert n == Min(|taps|, |xs| + k + 1);
    FirSumShift(taps, h + ys, at, xs + ys, |xs| + k, n);
  }

  lemma FilteredTail(taps: seq<real>, xs: seq<int>, ys: seq<int>, tail: seq<real>)
    requires |tail| == |ys|
    requires forall k :: 0 <= k < |tail| ==> tail[k] == FilteredAt(taps, xs + ys, |xs| + k)
    ensures Filtered(taps, xs + ys) == Filtered(taps, xs) + tail
  {
    FilteredPrefix(taps, xs, ys);
    forall k | 0 <= k < |ys| ensures Filtered(taps, xs + ys)[|xs| + k] == tail[k] {
      FilteredIs(taps, xs + ys, |xs| + k);
    }
  }

  function AsReal(x: int): real { x as real }

  lemma PassThrough(xs: seq<int>, ys: seq<int>)
    ensures Filtered([], xs + ys) == Filtered([], xs) + Map(AsReal, ys)
  {
    var tail := Map(AsReal, ys);
    forall k | 0 <= k < |ys| ensures tail[k] == FilteredAt([], xs + ys, |xs| + k) {
      MapAt(AsReal, ys, k);
    }
    FilteredTail([], xs, ys, tail);
  }

  lemma HistoryAdvances(taps: seq<real>, xs: seq<int>, ys: seq<int>)
    requires taps != []
    ensures var c := History(taps, xs) + ys;
            History(taps, xs + ys) == if |taps| == 1 then [] else LastOf(c, |taps| - 1)
  {
    LastOfAppend(xs, ys, |taps| - 1);
  }

  lemma LastOfAt<T>(xs: seq<T>, n: nat)
    ensures var r := LastOf(xs, n);
            |r| == Min(|xs|, n) && forall k :: 0 <= k < |r| ==> r[k] == xs[|xs| - |r| + k]
  {
  }

  lemma LastOfAppend<T>(xs: seq<T>, ys: seq<T>, n: nat)
    ensures LastOf(xs + ys, n) == LastOf(LastOf(xs, n) + ys, n)
  {
    hide LastOf;
    var a := LastOf(xs, n);
    LastOfAt(xs, n);
    LastOfAt(xs + ys, n);
    LastOfAt(a + ys, n);
    forall k | 0 <= k < |LastOf(xs + ys, n)| ensures LastOf(xs + ys, n)[k] == LastOf(a + ys, n)[k] {
      var behind := |LastOf(xs + ys, n)| - k;
      assert LastOf(xs + ys, n)[k] == (xs + ys)[|xs + ys| - behind];
      assert LastOf(a + ys, n)[k] == (a + ys)[|a + ys| - behind];
    }
  }

  /** `_StreamingLinearState`: one fixed rate pair. */
  class StreamingLinearState {
    const from: Rate
    const to: Rate
    const taps: seq<real>
    var rawHistory: seq<int>
    var buffer: seq<real>
    var bufferStart: nat
    var received: nat
    var nextPosition: nat
    var outputCount: nat
    // Every sample ever given, and every byte emitted by `Advance`.
    ghost var fed: seq<int>
    ghost var emitted: seq<byte>

    ghost predicate Valid()
      reads this
    {
      && received == |fed|
      && rawHistory == History(taps, fed)
      && nextPosition == outputCount * from
      && bufferStart == Min(received, nextPosition / to)
      && buffer == From(Filtered(taps, fed), bufferStart)
      && ReadyCount(|fed|, from, to) <= outputCount <= TargetCount(|fed|, from, to)
    }

    /** The stream has not been finished, and has emitted what the whole-stream computation says. */
    ghost predicate Streaming()
      reads this
    {
      && Valid()
      && outputCount == ReadyCount(|fed|, from, to)
      && emitted == Pack(EmittedSamples(taps, from, to, fed))
    }

    constructor (from: Rate, to: Rate, taps: seq<real>)
      ensures Streaming() && fed == [] && emitted == []
      ensures this.from == from && this.to == to && this.taps == taps
    {
      this.from, this.to, this.taps := from, to, taps;
      rawHistory, buffer, bufferStart, received, nextPosition, outputCount := [], [], 0, 0, 0, 0;
      fed, emitted := [], [];
      new;
      assert 0 * from == 0 && 0 * to == 0;
    }

    /**
     * Emits the outputs that the new samples make ready - all that are owed when `final` -
     * with exactly the values the whole-stream computation gives them.
     */
    method Process(samples: seq<int>, final: bool) returns (out: seq<byte>)
      requires Valid()
      modifies this
      ensures Valid() && fed == old(fed) + samples && emitted == old(emitted)
      ensures outputCount == if final then TargetCount(|fed|, from, to)
                             else Max(old(outputCount), ReadyCount(|fed|, from, to))
      ensures old(outputCount) <= outputCount
      ensures out == Pack(Outputs(Filtered(taps, fed), from, to, old(outputCount), outputCount))
      ensures |buffer| * to < from + to
    {
      hide Filtered, Outputs, Pack, History, OutputAt;
      var filtered := Filter(samples);
      FromAppend(Filtered(taps, fed), filtered, bufferStart);
      CountsGrow(|fed|, |fed + samples|, from, to);
      buffer := buffer + filtered;
      received := received + |filtered|;
      fed := fed + samples;
      var output := EmitReady(final);
      out := Pack(output);
      Discard();
      RetainedBound(received, from, to, outputCount);
    }

    /** A step of a stream that has not been finished yet, in terms of the whole-stream results. */
    method Advance(samples: seq<int>, final: bool) returns (out: seq<byte>)
      requires Streaming()
      modifies this
      ensures fed == old(fed) + samples && emitted == old(emitted) + out
      ensures !final ==> Streaming()
      ensures final ==> emitted == Pack(FinishedSamples(taps, from, to, fed))
    {
      CountsGrow(|fed|, |fed + samples|, from, to);
      FilteredPrefix(taps, fed, samples);
      ghost var f, lo := Filtered(taps, fed), outputCount;
      out := Process(samples, final);
      OutputsAreTheDifference(f, Filtered(taps, fed), from, to, lo, outputCount);
      emitted := emitted + out;
    }

    /** The output loop of `process`. */
    method EmitReady(final: bool) returns (output: seq<int16>)
      requires received == |fed| && nextPosition == outputCount * from
      requires bufferStart <= nextPosition / to && bufferStart <= received
      requires buffer == From(Filtered(taps, fed), bufferStart)
      requires outputCount <= TargetCount(received, from, to)
      modifies `nextPosition, `outputCount
      ensures nextPosition == outputCount * from
      ensures bufferStart <= nextPosition / to
      ensures outputCount == if final then TargetCount(received, from, to)
                             else Max(old(outputCount), ReadyCount(received, from, to))
      ensures old(outputCount) <= outputCount
      ensures output == Outputs(Filtered(taps, fed), from, to, old(outputCount), outputCount)
    {
      ghost var all := Filtered(taps, fed);
      var target := received * to / from;
      output := [];
      CountsGrow(received, received, from, to);
      while outputCount < target
        invariant old(outputCount) <= outputCount <= target
        invariant nextPosition == outputCount * from && bufferStart <= nextPosition / to
        invariant output == Outputs(all, from, to, old(outputCount), outputCount)
        invariant final || outputCount <= Max(old(outputCount), ReadyCount(received, from, to))
      {
        ReadyIff(received, from, to, outputCount);
        var index, fractionNumerator := nextPosition / to, nextPosition % to;
        if index >= received { break; }
        if fractionNumerator != 0 && index + 1 >= received && !final { break; }
        var sample := Interpolated(index, fractionNumerator);
        output := output + [sample];
        NextPosition(outputCount, from, to);
        nextPosition := nextPosition + from;
        outputCount := outputCount + 1;
      }
    }

    /** One output sample, read from the retained buffer. */
    method Interpolated(index: nat, fractionNumerator: nat) returns (sample: int16)
      requires received == |fed| && bufferStart <= index < received
      requires buffer == From(Filtered(taps, fed), bufferStart)
      requires index == outputCount * from / to && fractionNumerator == outputCount * from % to
      ensures sample == OutputAt(Filtered(taps, fed), from, to, outputCount)
    {
      var value := buffer[index - bufferStart];
      if fractionNumerator != 0 && index + 1 < received {
        value := Interpolate(value, buffer[index + 1 - bufferStart], fractionNumerator, to);
      }
      sample := ToSample(value);
    }

    /** Drops buffered samples that no later position reads. */
    method Discard()
      requires received == |fed| && bufferStart <= received && bufferStart <= nextPosition / to
      requires buffer == From(Filtered(taps, fed), bufferStart)
      modifies `buffer, `bufferStart
      ensures bufferStart == Min(received, nextPosition / to)
      ensures buffer == From(Filtered(taps, fed), bufferStart)
    {
      var nextIndex := nextPosition / to;
      var discard := Min(|buffer|, Max(0, nextIndex - bufferStart));
      if discard != 0 {
        buffer := buffer[discard..];
        bufferStart := bufferStart + discard;
      }
    }

    /** Bytes that finishing the segment now would emit. */
    function PendingOutputBytes(): (n: nat)
      requires Valid()
      reads this
      ensures n == 2 * (TargetCount(|fed|, from, to) - outputCount)
    {
      var finalOutputCount := received * to / from;
      Max(0, finalOutputCount - outputCount) * 2
    }

    /** `_filter`: convolves history and new samples, and keeps what the next call needs. */
    method Filter(samples: seq<int>) returns (filtered: seq<real>)
      requires rawHistory == History(taps, fed)
      modifies `rawHistory
      ensures Filtered(taps, fed + samples) == Filtered(taps, fed) + filtered
      ensures rawHistory == History(taps, fed + samples)
    {
      hide Filtered, FilteredAt;
      if taps == [] {
        filtered := Map(AsReal, samples);
        PassThrough(fed, samples);
        return;
      }
      HistoryAdvances(taps, fed, samples);
      var combined := rawHistory + samples;
      if combined == [] {
        assert fed + samples == fed;
        return [];
      }
      filtered := ConvolveAll(combined, |rawHistory|, samples);
      FilteredTail(taps, fed, samples, filtered);
      var historySize := |taps| - 1;
      rawHistory := if historySize != 0 then LastOf(combined, historySize) else [];
    }

    method ConvolveAll(combined: seq<int>, historyLength: nat, ghost samples: seq<int>) returns (filtered: seq<real>)
      requires taps != [] && historyLength == |History(taps, fed)| && combined == History(taps, fed) + samples
      ensures |filtered| == |samples|
      ensures forall k :: 0 <= k < |filtered| ==> filtered[k] == FilteredAt(taps, fed + samples, |fed| + k)
    {
      filtered := [];
      for sampleIndex := historyLength to |combined|
        invariant |filtered| == sampleIndex - historyLength
        invariant forall k :: 0 <= k < |filtered| ==>
                    filtered[k] == FilteredAt(taps, fed + samples, |fed| + k)
      {
        HistorySuffices(taps, fed, samples, sampleIndex - historyLength);
        var value := Convolve(combined, sampleIndex, Min(|taps|, sampleIndex + 1));
        filtered := filtered + [value];
      }
    }

    method Convolve(combined: seq<int>, at: nat, taken: nat) returns (value: real)
      requires taken <= |taps| && taken <= at + 1 && at < |combined|
      ensures value == FirSum(taps, combined, at, taken)
    {
      value := 0.0;
      for tapIndex := 0 to taken
        invariant value == FirSum(taps, combined, at, tapIndex)
      {
        value := value + taps[tapIndex] * combined[at - tapIndex] as real;
      }
    }
  }
}
