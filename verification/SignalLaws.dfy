/**
 * What the resamplers and the noise reducer do to a signal, against references that do not mention how they
 * compute it: straight lines, impulses, superposition, and a denoiser run over the whole padded stream.
 */
module SignalLaws {
  import opened Prelude
  import opened Pcm16
  import opened LinearResampler
  import opened StreamResampler
  import opened NoiseReduction

  /* ---------- interpolation ---------- */

  /** Where output `k` lies on the time axis of the input, exactly. */
  function Position(k: nat, from: Rate, to: Rate): real { (k * from) as real / to as real }

  lemma PositionParts(k: nat, from: Rate, to: Rate)
    ensures var rem := k * from % to;
            Position(k, from, to) == (k * from / to) as real + rem as real / to as real
  {
    var n, idx, rem := k * from, k * from / to, k * from % to;
    DivideParts(n, to);
    SplitQuotient(n as real, idx as real, rem as real, to as real);
  }

  lemma SplitQuotient(n: real, idx: real, rem: real, to: real)
    requires to > 0.0 && n == idx * to + rem
    ensures n / to == idx + rem / to
  {
    assert n / to == (idx * to) / to + rem / to;
    assert (idx * to) / to == idx;
  }

  /** `c + d * t` goes through the samples at `i` and `i + 1`. */
  ghost predicate OnLine(f: seq<real>, i: nat, c: real, d: real)
    requires i + 1 < |f|
  {
    f[i] == c + d * i as real && f[i + 1] == c + d * (i + 1) as real
  }

  /**
   * Sample `n` is what output `k` should be: the nearest to the straight line through the two samples of
   * `f` around its position, or to the last sample at the end.
   */
  ghost predicate Interpolates(n: int16, f: seq<real>, from: Rate, to: Rate, k: nat) {
    var i := k * from / to;
    && i < |f| && (i + 1 == |f| ==> Nearest(n, f[i]))
    && (i + 1 < |f| ==> forall c, d :: OnLine(f, i, c, d) ==> Nearest(n, c + d * Position(k, from, to)))
  }

  lemma OutputIsOnTheLine(f: seq<real>, from: Rate, to: Rate, k: nat, c: real, d: real)
    requires var i := k * from / to; i + 1 < |f| && OnLine(f, i, c, d)
    ensures Nearest(OutputAt(f, from, to, k), c + d * Position(k, from, to))
  {
    hide Nearest, ToSample, Position;
    var i, rem := k * from / to, k * from % to;
    PositionParts(k, from, to);
    ToSampleIsNearest(c + d * Position(k, from, to));
    LineThrough(f[i], f[i + 1], c, d, i, rem, to);
    var v := if rem == 0 then f[i] else Interpolate(f[i], f[i + 1], rem, to);
    assert v == c + d * Position(k, from, to);
    assert OutputAt(f, from, to, k) == ToSample(v);
  }

  lemma LineThrough(a: real, b: real, c: real, d: real, i: nat, rem: nat, to: Rate)
    requires a == c + d * i as real && b == c + d * (i + 1) as real
    ensures Interpolate(a, b, rem, to) == c + d * (i as real + rem as real / to as real)
    ensures rem == 0 ==> a == c + d * (i as real + rem as real / to as real)
  {
    LineAt(c, d, i as real, rem as real / to as real);
    assert (i + 1) as real == i as real + 1.0;
    if rem == 0 {
      assert rem as real / to as real == 0.0;
    }
  }

  lemma LineAt(c: real, d: real, i: real, fraction: real)
    ensures (c + d * i) * (1.0 - fraction) + (c + d * (i + 1.0)) * fraction == c + d * (i + fraction)
  {
  }

  lemma OutputInterpolates(f: seq<real>, from: Rate, to: Rate, k: nat)
    requires k * from / to < |f|
    ensures Interpolates(OutputAt(f, from, to, k), f, from, to, k)
  {
    var i := k * from / to;
    if i + 1 == |f| {
      ToSampleIsNearest(f[i]);
    } else {
      forall c, d | OnLine(f, i, c, d) ensures Nearest(OutputAt(f, from, to, k), c + d * Position(k, from, to)) {
        OutputIsOnTheLine(f, from, to, k, c, d);
      }
    }
  }

  lemma {:induction false} OutputsIndex(f: seq<real>, from: Rate, to: Rate, n: nat, k: nat)
    requires k < n
    ensures Outputs(f, from, to, 0, n)[k] == OutputAt(f, from, to, k)
  {
    hide OutputAt;
    if k < n - 1 {
      OutputsIndex(f, from, to, n - 1, k);
    }
  }

  lemma OutputsInterpolate(f: seq<real>, from: Rate, to: Rate, k: nat)
    requires k < TargetCount(|f|, from, to)
    ensures var out := Unpack(Pack(Outputs(f, from, to, 0, TargetCount(|f|, from, to))));
            |out| == TargetCount(|f|, from, to) && Interpolates(out[k], f, from, to, k)
  {
    hide OutputAt, Pack, Unpack, Interpolates, TargetCount, ReadyCount;
    var n := TargetCount(|f|, from, to);
    OutputsIndex(f, from, to, n, k);
    UnpackPack(Outputs(f, from, to, 0, n));
    ReadyIff(|f|, from, to, k);
    OutputInterpolates(f, from, to, k);
  }

  /* ---------- finished streams ---------- */

  /** What a stream between different rates interpolates. */
  function Signal(bank: FilterBank, from: Rate, to: Rate, bytes: seq<byte>): (f: seq<real>) {
    Filtered(Taps(bank, from, to), Samples(bytes))
  }

  /** How many samples a stream of `bytes` has when it is finished. */
  function OutputCount(bytes: seq<byte>, from: Rate, to: Rate): nat { |bytes| / 2 * to / from }

  /** A finished stream follows its low-passed signal on straight lines and holds the last value. */
  lemma FinishedInterpolates(bank: FilterBank, from: Rate, to: Rate, bytes: seq<byte>, k: nat)
    requires from != to && k < OutputCount(bytes, from, to)
    ensures var out := Unpack(Finished(bank, from, to, bytes));
            |out| == OutputCount(bytes, from, to) && Interpolates(out[k], Signal(bank, from, to, bytes), from, to, k)
  {
    hide Filtered, Outputs, Interpolates, Pack, Unpack, Taps, Samples;
    SamplesCount(bytes);
    OutputsInterpolate(Signal(bank, from, to, bytes), from, to, k);
  }

  /** Upwards there is no low-pass: the line goes through the input samples themselves. */
  lemma UpsampledInterpolates(bank: FilterBank, from: Rate, to: Rate, bytes: seq<byte>, k: nat)
    requires from < to && k < OutputCount(bytes, from, to)
    ensures var out := Unpack(Finished(bank, from, to, bytes));
            k < |out| && Interpolates(out[k], Reals(Samples(bytes)), from, to, k)
  {
    hide Interpolates, Samples, Unpack, Finished, Filtered;
    FinishedInterpolates(bank, from, to, bytes, k);
    var ints: seq<int> := Samples(bytes);
    UnfilteredIs(ints);
    assert Signal(bank, from, to, bytes) == Filtered([], ints);
  }

  /** Samples as real numbers. */
  function Reals(xs: seq<int>): (f: seq<real>)
    ensures |f| == |xs|
  {
    Map(AsReal, xs)
  }

  lemma UnfilteredIs(xs: seq<int>)
    ensures Filtered([], xs) == Reals(xs)
  {
    forall i | 0 <= i < |xs| ensures Filtered([], xs)[i] == Reals(xs)[i] {
      FilteredIs([], xs, i);
      MapAt(AsReal, xs, i);
    }
  }

  /** At equal rates a stream is its own result. */
  lemma SameRateCopies(bank: FilterBank, rate: Rate, bytes: seq<byte>)
    ensures Finished(bank, rate, rate, bytes) == bytes[..|bytes| / 2 * 2]
  {
  }

  /** The one-shot resampler, upwards on the samples and downwards on the centred low-pass of them. */
  lemma OneShotInterpolates(bank: FilterBank, from: Rate, to: Rate, data: seq<byte>, k: nat)
    requires k < OutputCount(data, from, to)
    ensures var out, xs := Unpack(ResampledOnce(bank, from, to, data)), Samples(data);
            && |out| == OutputCount(data, from, to)
            && Interpolates(out[k], if to < from then LowPass(bank(from, to), xs) else Reals(xs), from, to, k)
  {
    hide OneShotSource, LowPass, Outputs, Interpolates, Pack, Unpack, Samples, Filtered, Reals;
    SamplesCount(data);
    OneShotSignal(bank, from, to, Samples(data));
    OutputsInterpolate(OneShotSource(bank, from, to, Samples(data)), from, to, k);
  }

  lemma OneShotSignal(bank: FilterBank, from: Rate, to: Rate, xs: seq<int16>)
    ensures OneShotSource(bank, from, to, xs) == if to < from then LowPass(bank(from, to), xs) else Reals(xs)
  {
    UnfilteredIs(xs);
  }

  /* ---------- the causal filter ---------- */

  /** Silence but for one sample of size one. */
  ghost predicate Click(xs: seq<int>, p: nat) {
    p < |xs| && forall j :: 0 <= j < |xs| ==> xs[j] == if j == p then 1 else 0
  }

  lemma {:induction false} SilentSum(taps: seq<real>, xs: seq<int>, i: nat, n: nat)
    requires n <= |taps| && n <= i + 1 && i < |xs|
    requires forall q :: i - n < q <= i ==> xs[q] == 0
    ensures FirSum(taps, xs, i, n) == 0.0
  {
    if n > 0 {
      SilentSum(taps, xs, i, n - 1);
    }
  }

  lemma {:induction false} ImpulseSum(taps: seq<real>, xs: seq<int>, i: nat, n: nat, p: nat)
    requires n <= |taps| && n <= i + 1 && i < |xs| && i - n < p <= i
    requires forall q :: i - n < q <= i ==> xs[q] == if q == p then 1 else 0
    ensures FirSum(taps, xs, i, n) == taps[i - p]
  {
    if i - (n - 1) == p {
      SilentSum(taps, xs, i, n - 1);
    } else {
      ImpulseSum(taps, xs, i, n - 1, p);
    }
  }

  /** One click comes out as the taps, in order, from the moment of the click on. */
  lemma ImpulseResponse(taps: seq<real>, xs: seq<int>, p: nat, i: nat)
    requires taps != [] && p < |xs| && i < |xs|
    requires Click(xs, p)
    ensures Filtered(taps, xs)[i] == if p <= i < p + |taps| then taps[i - p] else 0.0
  {
    FilteredIs(taps, xs, i);
    var n := Min(|taps|, i + 1);
    if i - n < p <= i {
      ImpulseSum(taps, xs, i, n, p);
    } else {
      SilentSum(taps, xs, i, n);
    }
  }

  ghost predicate Combines(zs: seq<int>, a: int, xs: seq<int>, b: int, ys: seq<int>) {
    |zs| == |xs| == |ys| && forall j :: 0 <= j < |zs| ==> zs[j] == a * xs[j] + b * ys[j]
  }

  lemma {:induction false} SumCombines(taps: seq<real>, zs: seq<int>, a: int, xs: seq<int>, b: int, ys: seq<int>, i: nat, n: nat)
    requires Combines(zs, a, xs, b, ys) && n <= |taps| && n <= i + 1 && i < |zs|
    ensures FirSum(taps, zs, i, n) == a as real * FirSum(taps, xs, i, n) + b as real * FirSum(taps, ys, i, n)
  {
    if n > 0 {
      SumCombines(taps, zs, a, xs, b, ys, i, n - 1);
      var j := i - (n - 1);
      StepCombines(a, b, FirSum(taps, zs, i, n - 1), FirSum(taps, xs, i, n - 1), FirSum(taps, ys, i, n - 1),
                   taps[n - 1], zs[j], xs[j], ys[j]);
    }
  }

  lemma StepCombines(a: int, b: int, sumZ: real, sumX: real, sumY: real, tap: real, z: int, x: int, y: int)
    requires sumZ == a as real * sumX + b as real * sumY && z == a * x + b * y
    ensures sumZ + tap * z as real == a as real * (sumX + tap * x as real) + b as real * (sumY + tap * y as real)
  {
    var p, q := a as real, b as real;
    assert z as real == p * x as real + q * y as real;
    Regrouped(p, q, sumX, sumY, tap, x as real, y as real);
  }

  lemma Regrouped(p: real, q: real, u: real, v: real, tap: real, x: real, y: real)
    ensures p * u + q * v + tap * (p * x + q * y) == p * (u + tap * x) + q * (v + tap * y)
  {
  }

  /** The filter is linear, so the clicks of a signal each come out as the taps, on top of each other. */
  lemma Superposition(taps: seq<real>, zs: seq<int>, a: int, xs: seq<int>, b: int, ys: seq<int>, i: nat)
    requires Combines(zs, a, xs, b, ys) && i < |zs|
    ensures Filtered(taps, zs)[i] == a as real * Filtered(taps, xs)[i] + b as real * Filtered(taps, ys)[i]
  {
    hide Filtered, FirSum;
    FilteredIs(taps, zs, i);
    FilteredIs(taps, xs, i);
    FilteredIs(taps, ys, i);
    if taps != [] {
      SumCombines(taps, zs, a, xs, b, ys, i, Min(|taps|, i + 1));
    }
  }

  /* ---------- the centred filter ---------- */

  lemma {:induction false} CentredSilence(taps: seq<real>, xs: seq<int16>, i: nat, n: nat, p: nat)
    requires n <= |taps| && i < |xs| && 0 < p < |xs| - 1
    requires Click(xs, p)
    requires i + |taps| / 2 - p < 0 || i + |taps| / 2 - p >= n
    ensures CentredSum(taps, xs, i, n) == 0.0
  {
    if n > 0 {
      CentredSilence(taps, xs, i, n - 1, p);
    }
  }

  /** A click inside the signal comes out as the taps, centred on it. */
  lemma {:induction false} CentredImpulse(taps: seq<real>, xs: seq<int16>, i: nat, n: nat, p: nat)
    requires n <= |taps| && i < |xs| && 0 < p < |xs| - 1
    requires Click(xs, p)
    ensures var t := i + |taps| / 2 - p;
            CentredSum(taps, xs, i, n) == if 0 <= t < n then taps[t] else 0.0
  {
    if n > 0 {
      if n - 1 == i + |taps| / 2 - p {
        CentredSilence(taps, xs, i, n - 1, p);
      } else {
        CentredImpulse(taps, xs, i, n - 1, p);
      }
    }
  }

  lemma CentredStep(taps: seq<real>, xs: seq<int16>, i: nat, n: nat)
    requires 0 < n <= |taps| && i < |xs|
    ensures CentredSum(taps, xs, i, n)
         == CentredSum(taps, xs, i, n - 1) + taps[n - 1] * xs[WithinEdges(i + |taps| / 2 - (n - 1), |xs|)] as real
  {
  }

  lemma CombinedAt(zs: seq<int>, a: int, xs: seq<int>, b: int, ys: seq<int>, j: nat)
    requires Combines(zs, a, xs, b, ys) && j < |zs|
    ensures |xs| == |ys| == |zs| && zs[j] == a * xs[j] + b * ys[j]
  {
  }

  lemma {:induction false} CentredCombines(taps: seq<real>, zs: seq<int16>, a: int, xs: seq<int16>, b: int, ys: seq<int16>,
                                           i: nat, n: nat)
    requires Combines(zs, a, xs, b, ys) && n <= |taps| && i < |zs|
    ensures |xs| == |ys| == |zs|
    ensures CentredSum(taps, zs, i, n) == a as real * CentredSum(taps, xs, i, n) + b as real * CentredSum(taps, ys, i, n)
  {
    hide *;
    CombinedAt(zs, a, xs, b, ys, i);
    if n == 0 {
      NothingSummed(taps, zs, i);
      NothingSummed(taps, xs, i);
      NothingSummed(taps, ys, i);
      NothingCombines(a as real, b as real);
    } else {
      CentredCombines(taps, zs, a, xs, b, ys, i, n - 1);
      CentredStepCombines(taps, zs, a, xs, b, ys, i, n);
    }
  }

  lemma CentredStepCombines(taps: seq<real>, zs: seq<int16>, a: int, xs: seq<int16>, b: int, ys: seq<int16>, i: nat, n: nat)
    requires Combines(zs, a, xs, b, ys) && 0 < n <= |taps| && i < |zs| == |xs| == |ys|
    requires CentredSum(taps, zs, i, n - 1)
          == a as real * CentredSum(taps, xs, i, n - 1) + b as real * CentredSum(taps, ys, i, n - 1)
    ensures CentredSum(taps, zs, i, n) == a as real * CentredSum(taps, xs, i, n) + b as real * CentredSum(taps, ys, i, n)
  {
    hide *;
    CentredStep(taps, zs, i, n);
    CentredStep(taps, xs, i, n);
    CentredStep(taps, ys, i, n);
    var j := WithinEdges(i + |taps| / 2 - (n - 1), |xs|);
    CombinedAt(zs, a, xs, b, ys, j);
    StepCombines(a, b, CentredSum(taps, zs, i, n - 1), CentredSum(taps, xs, i, n - 1), CentredSum(taps, ys, i, n - 1),
                 taps[n - 1], zs[j], xs[j], ys[j]);
  }

  lemma NothingSummed(taps: seq<real>, xs: seq<int16>, i: nat)
    requires i < |xs|
    ensures CentredSum(taps, xs, i, 0) == 0.0
  {
  }

  lemma NothingCombines(a: real, b: real)
    ensures a * 0.0 + b * 0.0 == 0.0
  {
  }

  lemma EdgeSample(xs: seq<int16>, at: int)
    requires xs != []
    ensures ([xs[0]] + xs)[WithinEdges(at + 1, |xs| + 1)] == xs[WithinEdges(at, |xs|)]
    ensures (xs + [xs[|xs| - 1]])[WithinEdges(at, |xs| + 1)] == xs[WithinEdges(at, |xs|)]
  {
  }

  /** Beyond its edges a signal goes on as its first and its last sample: writing them out changes nothing. */
  lemma {:induction false} EdgesExtend(taps: seq<real>, xs: seq<int16>, i: nat, n: nat)
    requires n <= |taps| && i < |xs|
    ensures CentredSum(taps, [xs[0]] + xs, i + 1, n) == CentredSum(taps, xs, i, n)
    ensures CentredSum(taps, xs + [xs[|xs| - 1]], i, n) == CentredSum(taps, xs, i, n)
  {
    if n > 0 {
      EdgesExtend(taps, xs, i, n - 1);
      hide CentredSum, WithinEdges;
      EdgeSample(xs, i + |taps| / 2 - (n - 1));
      SameStep(taps, xs, i, [xs[0]] + xs, i + 1, n);
      SameStep(taps, xs, i, xs + [xs[|xs| - 1]], i, n);
    }
  }

  /** Equal sums stay equal over one more tap that reads equal samples. */
  lemma SameStep(taps: seq<real>, xs: seq<int16>, i: nat, ys: seq<int16>, k: nat, n: nat)
    requires 0 < n <= |taps| && i < |xs| && k < |ys| && CentredSum(taps, ys, k, n - 1) == CentredSum(taps, xs, i, n - 1)
    requires ys[WithinEdges(k + |taps| / 2 - (n - 1), |ys|)] == xs[WithinEdges(i + |taps| / 2 - (n - 1), |xs|)]
    ensures CentredSum(taps, ys, k, n) == CentredSum(taps, xs, i, n)
  {
    hide *;
    CentredStep(taps, xs, i, n);
    CentredStep(taps, ys, k, n);
  }

  /** The low-pass of the one-shot resampler: clicks come out as the taps, centred on them, */
  lemma LowPassOfClick(taps: seq<real>, xs: seq<int16>, p: nat, i: nat)
    requires Click(xs, p) && 0 < p < |xs| - 1 && i < |xs|
    ensures var t := i + |taps| / 2 - p; LowPass(taps, xs)[i] == if 0 <= t < |taps| then taps[t] else 0.0
  {
    CentredImpulse(taps, xs, i, |taps|, p);
  }

  /** on top of each other, */
  lemma LowPassCombines(taps: seq<real>, zs: seq<int16>, a: int, xs: seq<int16>, b: int, ys: seq<int16>, i: nat)
    requires Combines(zs, a, xs, b, ys) && i < |zs|
    ensures |xs| == |ys| == |zs|
    ensures LowPass(taps, zs)[i] == a as real * LowPass(taps, xs)[i] + b as real * LowPass(taps, ys)[i]
  {
    hide CentredSum;
    CentredCombines(taps, zs, a, xs, b, ys, i, |taps|);
  }

  /** and the signal goes on at both edges as its first and its last sample. */
  lemma LowPassExtendsEdges(taps: seq<real>, xs: seq<int16>, i: nat)
    requires i < |xs|
    ensures LowPass(taps, [xs[0]] + xs)[i + 1] == LowPass(taps, xs)[i]
    ensures LowPass(taps, xs + [xs[|xs| - 1]])[i] == LowPass(taps, xs)[i]
  {
    hide CentredSum;
    EdgesExtend(taps, xs, i, |taps|);
  }
}
