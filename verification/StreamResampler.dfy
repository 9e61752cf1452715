/**
 * `PCM16StreamResampler` of src/easycat/_audio_utils.py on its dependency-free backend, at the
 * level of bytes: split samples, rate changes and end of stream.
 */
module StreamResampler {
  import opened Prelude
  import opened Pcm16
  import opened LinearResampler

  /** The anti-alias filter chosen for a rate pair; `_downsample_filter` is one such function. */
  type FilterBank = (Rate, Rate) -> seq<real>

  function Taps(bank: FilterBank, from: Rate, to: Rate): seq<real> {
    if to < from then bank(from, to) else []
  }

  /** The bytes of complete samples, and the odd byte that a call may end with. */
  function Even(bytes: seq<byte>): (r: seq<byte>)
    ensures |r| % 2 == 0
  {
    if |bytes| % 2 == 0 then bytes else bytes[..|bytes| - 1] }

  function Odd(bytes: seq<byte>): seq<byte> { if |bytes| % 2 == 0 then [] else [bytes[|bytes| - 1]] }

  lemma EvenThenOdd(a: seq<byte>)
    ensures a == Even(a) + Odd(a)
  {
  }

  lemma EvenBehind(w: seq<byte>, t: seq<byte>)
    requires |w| % 2 == 0
    ensures Even(w + t) == w + Even(t) && Odd(w + t) == Odd(t)
  {
    if |t| % 2 != 0 {
      CutAppend(w, t, 1);
    }
  }

  lemma EvenAppend(a: seq<byte>, b: seq<byte>)
    ensures Even(a + b) == Even(a) + Even(Odd(a) + b)
    ensures Odd(a + b) == Odd(Odd(a) + b)
  {
    EvenThenOdd(a);
    Associative(Even(a), Odd(a), b);
    EvenBehind(Even(a), Odd(a) + b);
  }

  /** The complete samples of a byte stream. */
  function Samples(bytes: seq<byte>): seq<int16> { Unpack(bytes) }

  lemma SamplesOfEven(a: seq<byte>)
    ensures Samples(a) == Unpack(Even(a))
  {
    EvenThenOdd(a);
    UnpackAppend(Even(a), Odd(a));
  }

  lemma CarriedSamples(a: seq<byte>, b: seq<byte>)
    ensures Odd(a + b) == Odd(Odd(a) + b)
    ensures Samples(a + b) == Samples(a) + Unpack(Even(Odd(a) + b))
    ensures Even(Odd(a) + b) == [] ==> Samples(a + b) == Samples(a)
  {
    EvenAppend(a, b);
    SamplesOfEven(a);
    SamplesOfEven(a + b);
    UnpackAppend(Even(a), Even(Odd(a) + b));
  }

  /** Bytes emitted once `bytes` of one fixed-rate segment have been processed. */
  function Emitted(bank: FilterBank, from: Rate, to: Rate, bytes: seq<byte>): (e: seq<byte>)
    ensures |e| % 2 == 0
  {
    if from == to then Even(bytes)
    else Pack(EmittedSamples(Taps(bank, from, to), from, to, Samples(bytes)))
  }

  /** Bytes emitted by the segment in all, once it is finished. */
  function Finished(bank: FilterBank, from: Rate, to: Rate, bytes: seq<byte>): (e: seq<byte>)
    ensures |e| % 2 == 0
  {
    if from == to then Even(bytes)
    else Pack(FinishedSamples(Taps(bank, from, to), from, to, Samples(bytes)))
  }

  lemma PackPrefix(s: seq<int16>, t: seq<int16>)
    requires s <= t
    ensures Pack(s) <= Pack(t)
    ensures Pack(t[|s|..]) == Pack(t)[2 * |s|..]
  {
    assert t == s + t[|s|..];
    PackAppend(s, t[|s|..]);
  }

  /** Cutting a segment anywhere - even inside a sample - never revises emitted bytes. */
  lemma EmittedNeverRevised(bank: FilterBank, from: Rate, to: Rate, a: seq<byte>, b: seq<byte>)
    ensures Emitted(bank, from, to, a) <= Emitted(bank, from, to, a + b)
    ensures Emitted(bank, from, to, a) <= Finished(bank, from, to, a + b)
  {
    if from == to {
      EvenAppend(a, b);
    } else {
      var taps := Taps(bank, from, to);
      var xs, ys := Samples(a), Unpack(Even(Odd(a) + b));
      CarriedSamples(a, b);
      EmittedIsPrefix(taps, from, to, xs, ys);
      PackPrefix(EmittedSamples(taps, from, to, xs), EmittedSamples(taps, from, to, xs + ys));
      PackPrefix(EmittedSamples(taps, from, to, xs), FinishedSamples(taps, from, to, xs + ys));
    }
  }

  /** Whether a chunk at `rate` belongs to the segment in progress. */
  predicate Continues(current: Option<Rate>, rate: Rate) { current == None || current == Some(rate) }

  class PCM16StreamResampler {
    const bank: FilterBank
    const targetRate: Rate
    var sourceRate: Option<Rate>
    var state: StreamingLinearState?
    var byteCarry: seq<byte>
    // Every byte given since the current segment began.
    ghost var segment: seq<byte>
    // Every byte emitted for it.
    ghost var emitted: seq<byte>
    ghost var Repr: set<object>

    ghost predicate Valid()
      reads this, Repr
      ensures Valid() ==> this in Repr
    {
      && this in Repr
      && (sourceRate == None ==> state == null && byteCarry == [] && segment == [] && emitted == [])
      && (sourceRate.Some? ==>
            && byteCarry == Odd(segment)
            && (state == null ==> emitted == Even(segment))
            && (state == null <==> sourceRate.value == targetRate))
      && (state != null ==>
            && state in Repr
            && state.Streaming()
            && state.from == sourceRate.value && state.to == targetRate
            && state.taps == Taps(bank, sourceRate.value, targetRate)
            && state.fed == Samples(segment) && state.emitted == emitted)
    }

    /** What the segment in progress emits in all if it is finished now. */
    ghost function AllOfIt(): seq<byte>
      reads this
    {
      if sourceRate == None then [] else Finished(bank, sourceRate.value, targetRate, segment)
    }

    constructor (bank: FilterBank, targetRate: Rate)
      ensures Valid() && fresh(Repr)
      ensures this.bank == bank && this.targetRate == targetRate && sourceRate == None
    {
      this.bank, this.targetRate := bank, targetRate;
      sourceRate, state, byteCarry, segment, emitted := None, null, [], [], [];
      Repr := {this};
    }

    /** Bytes that `Finish` would emit now. */
    function PendingOutputBytes(): (n: nat)
      requires Valid()
      reads this, Repr
      ensures n == |AllOfIt()| - |emitted|
    {
      if state == null then 0 else state.PendingOutputBytes()
    }

    /** What a chunk at `rate` builds on: nothing of a segment at another rate. */
    ghost function Kept(rate: Rate): seq<byte>
      reads this
    {
      if Continues(sourceRate, rate) then segment else []
    }

    /** The complete output of a segment that a chunk at `rate` brings to its end. */
    ghost function Ended(rate: Rate): seq<byte>
      reads this
    {
      if Continues(sourceRate, rate) then [] else AllOfIt()
    }

    /**
     * Converts the next chunk: the new bytes are what completes a segment at another rate,
     * then exactly what the longer segment emits beyond the shorter one.
     */
    method Process(data: seq<byte>, rate: int) returns (r: Result<seq<byte>, string>)
      requires Valid()
      modifies Repr
      ensures Valid() && fresh(Repr - old(Repr))
      ensures rate <= 0 ==> r.Err? && sourceRate == old(sourceRate) && segment == old(segment)
      ensures rate > 0 ==> r.Ok? && sourceRate == Some(rate) && segment == old(Kept(rate)) + data
      ensures rate > 0 ==> old(emitted) + r.value == old(Ended(rate)) + emitted
    {
      if rate <= 0 { return Err("source_rate must be positive"); }
      ghost var before, ended := emitted, Ended(rate);
      var prefix := Switch(rate);
      ghost var begun := emitted;
      var out := Convert(data, rate);
      Associative(before, prefix, out);
      Associative(ended, begun, out);
      r := Ok(prefix + out);
    }

    /** Makes `rate` the rate of the segment in progress, completing one at another rate. */
    method Switch(rate: Rate) returns (prefix: seq<byte>)
      requires Valid()
      modifies Repr
      ensures Valid() && fresh(Repr - old(Repr))
      ensures sourceRate == Some(rate) && segment == old(Kept(rate))
      ensures old(emitted) + prefix == old(Ended(rate)) + emitted
    {
      prefix := [];
      if sourceRate.Some? && rate != sourceRate.value {
        prefix := Finish();
      }
      if sourceRate == None {
        Begin(rate);
      }
    }

    /** Starts a segment at `rate`. */
    method Begin(rate: Rate)
      requires Valid() && sourceRate == None
      modifies this
      ensures Valid() && fresh(Repr - old(Repr))
      ensures sourceRate == Some(rate) && segment == [] && emitted == []
    {
      sourceRate := Some(rate);
      if rate != targetRate {
        state := new StreamingLinearState(rate, targetRate, Taps(bank, rate, targetRate));
        Repr := Repr + {state};
      }
    }

    /** The part of `process` that follows once the segment's rate is settled. */
    method Convert(data: seq<byte>, rate: Rate) returns (out: seq<byte>)
      requires Valid() && sourceRate == Some(rate)
      modifies this`byteCarry, this`segment, this`emitted, state
      ensures Valid() && segment == old(segment) + data && emitted == old(emitted) + out
    {
      if rate == targetRate {
        EvenAppend(segment, data);
        out := TakeAligned(data);
        segment, emitted := segment + data, emitted + out;
      } else {
        out := ConvertRate(data);
      }
    }

    method ConvertRate(data: seq<byte>) returns (out: seq<byte>)
      requires Valid() && state != null
      modifies this`byteCarry, this`segment, this`emitted, state
      ensures Valid() && segment == old(segment) + data && emitted == old(emitted) + out
    {
      CarriedSamples(segment, data);
      var aligned := TakeAligned(data);
      segment := segment + data;
      if aligned == [] { return []; }
      out := state.Advance(Unpack(aligned), false);
      emitted := emitted + out;
    }

    method TakeAligned(data: seq<byte>) returns (aligned: seq<byte>)
      modifies `byteCarry
      ensures aligned == Even(old(byteCarry) + data) && byteCarry == Odd(old(byteCarry) + data)
    {
      aligned := byteCarry + data;
      if |aligned| % 2 != 0 {
        byteCarry := [aligned[|aligned| - 1]];
        aligned := aligned[..|aligned| - 1];
      } else {
        byteCarry := [];
      }
    }

    /** Emits what the segment still owes and resets. */
    method Finish() returns (out: seq<byte>)
      requires Valid()
      modifies Repr
      ensures Valid() && Repr == old(Repr)
      ensures old(emitted) + out == old(AllOfIt())
      ensures sourceRate == None && segment == [] && emitted == []
    {
      out := [];
      if state != null {
        assert state.fed + [] == state.fed;
        out := state.Advance([], true);
      }
      Reset();
    }

    /** Before its first chunk a resampler behaves as if a segment at any rate were open. */
    lemma EmittedAt(rate: Rate)
      requires Valid() && Continues(sourceRate, rate)
      ensures emitted == Emitted(bank, rate, targetRate, segment)
      ensures AllOfIt() == Finished(bank, rate, targetRate, segment)
    {
    }

    /** Discards pending output. */
    method Reset()
      requires this in Repr
      modifies this
      ensures Valid() && Repr == old(Repr)
      ensures sourceRate == None && segment == [] && emitted == []
    {
      sourceRate, state, byteCarry, segment, emitted := None, null, [], [], [];
    }
  }

  /* ---------- whole streams ---------- */

  datatype Piece = Piece(rate: Rate, data: seq<byte>)

  /** How many leading pieces carry `rate`. */
  function LeadingRun(rate: Rate, pieces: seq<Piece>): (n: nat)
    ensures n <= |pieces|
  {
    if pieces == [] || pieces[0].rate != rate then 0 else 1 + LeadingRun(rate, pieces[1..])
  }

  function Bytes(pieces: seq<Piece>): seq<byte> {
    if pieces == [] then [] else pieces[0].data + Bytes(pieces[1..])
  }

  /** Each maximal run of equal rate, resampled in one piece and on its own. */
  function RunsOutput(bank: FilterBank, to: Rate, pieces: seq<Piece>): seq<byte> {
    if pieces == [] then []
    else
      var n := LeadingRun(pieces[0].rate, pieces);
      Finished(bank, pieces[0].rate, to, Bytes(pieces[..n])) + RunsOutput(bank, to, pieces[n..])
  }

  /** What is emitted in all when `segment` at `rate` is in progress and `pieces` are still to come. */
  ghost function Remaining(bank: FilterBank, to: Rate, rate: Rate, segment: seq<byte>, pieces: seq<Piece>): seq<byte>
    decreases |pieces|
  {
    if pieces == [] then Finished(bank, rate, to, segment)
    else if pieces[0].rate == rate then Remaining(bank, to, rate, segment + pieces[0].data, pieces[1..])
    else Finished(bank, rate, to, segment) + Remaining(bank, to, pieces[0].rate, pieces[0].data, pieces[1..])
  }

  lemma {:induction false} RemainingIsRuns(
    bank: FilterBank, to: Rate, rate: Rate, segment: seq<byte>, pieces: seq<Piece>)
    ensures var n := LeadingRun(rate, pieces);
            Remaining(bank, to, rate, segment, pieces)
              == Finished(bank, rate, to, segment + Bytes(pieces[..n])) + RunsOutput(bank, to, From(pieces, n))
    decreases |pieces|
  {
    hide Finished;
    var n := LeadingRun(rate, pieces);
    if pieces == [] {
      assert segment + Bytes([]) == segment;
    } else {
      var head, tail := pieces[0], pieces[1..];
      if head.rate == rate {
        RemainingIsRuns(bank, to, rate, segment + head.data, tail);
        assert pieces[..n][1..] == tail[..n - 1] && From(pieces, n) == From(tail, n - 1);
        Associative(segment, head.data, Bytes(tail[..n - 1]));
      } else {
        RemainingIsRuns(bank, to, head.rate, head.data, tail);
        var m := LeadingRun(head.rate, pieces);
        assert pieces[..m][1..] == tail[..m - 1] && From(pieces, m) == From(tail, m - 1);
        assert segment + Bytes([]) == segment;
      }
    }
  }

  /**
   * Feeding any pieces - at any rates, cut anywhere - and then finishing yields the
   * concatenation of the independent one-piece results of the runs of equal rate.
   */
  method ResampleStream(bank: FilterBank, to: Rate, pieces: seq<Piece>) returns (out: seq<byte>)
    ensures out == RunsOutput(bank, to, pieces)
  {
    hide Finished, RunsOutput, Remaining, Even, Odd, Samples, PCM16StreamResampler.AllOfIt, PCM16StreamResampler.Valid;
    NoRuns(bank, to);
    if pieces == [] { return []; }
    var resampler := new PCM16StreamResampler(bank, to);
    FirstRun(bank, to, pieces);
    ghost var ended: seq<byte> := [];
    assert [] + pieces[0].data == pieces[0].data;
    out := Feed(resampler, pieces[0]);
    for i := 1 to |pieces|
      invariant resampler.Valid() && fresh(resampler.Repr) && resampler.sourceRate.Some?
      invariant resampler.bank == bank && resampler.targetRate == to
      invariant out == ended + resampler.emitted
      invariant RunsOutput(bank, to, pieces) == ended + Left(resampler, pieces[i..])
    {
      ghost var before, justEnded := resampler.emitted, resampler.Ended(pieces[i].rate);
      RemainingStep(resampler, pieces, i, ended);
      var next := Feed(resampler, pieces[i]);
      Associative(ended, before, next);
      Associative(ended, justEnded, resampler.emitted);
      ended := ended + justEnded;
      out := out + next;
    }
    ghost var before := resampler.emitted;
    assert pieces[|pieces|..] == [];
    NothingRemains(resampler);
    var tail := resampler.Finish();
    Associative(ended, before, tail);
    out := out + tail;
  }

  /** `Process` at a positive rate, which cannot fail. */
  method Feed(resampler: PCM16StreamResampler, piece: Piece) returns (out: seq<byte>)
    requires resampler.Valid()
    modifies resampler.Repr
    ensures resampler.Valid() && fresh(resampler.Repr - old(resampler.Repr))
    ensures resampler.sourceRate == Some(piece.rate)
    ensures resampler.segment == old(resampler.Kept(piece.rate)) + piece.data
    ensures old(resampler.emitted) + out == old(resampler.Ended(piece.rate)) + resampler.emitted
    ensures old(resampler.sourceRate) == None ==> out == [] + resampler.emitted
  {
    var r := resampler.Process(piece.data, piece.rate);
    out := r.value;
    assert [] + out == out && [] + resampler.emitted == resampler.emitted;
  }

  /** `Remaining`, for a resampler in the middle of its stream. */
  ghost function Left(resampler: PCM16StreamResampler, pieces: seq<Piece>): seq<byte>
    requires resampler.sourceRate.Some?
    reads resampler
  {
    Remaining(resampler.bank, resampler.targetRate, resampler.sourceRate.value, resampler.segment, pieces)
  }

  lemma NoRuns(bank: FilterBank, to: Rate)
    ensures RunsOutput(bank, to, []) == []
  {
  }

  lemma NothingRemains(resampler: PCM16StreamResampler)
    requires resampler.Valid() && resampler.sourceRate.Some?
    ensures Left(resampler, []) == resampler.AllOfIt()
  {
    resampler.EmittedAt(resampler.sourceRate.value);
  }

  lemma RemainingStep(resampler: PCM16StreamResampler, pieces: seq<Piece>, i: nat, ended: seq<byte>)
    requires i < |pieces| && resampler.sourceRate.Some?
    ensures ended + Left(resampler, pieces[i..])
         == (ended + resampler.Ended(pieces[i].rate))
              + Remaining(resampler.bank, resampler.targetRate, pieces[i].rate,
                          resampler.Kept(pieces[i].rate) + pieces[i].data, pieces[i + 1..])
  {
    assert pieces[i..][1..] == pieces[i + 1..];
    assert [] + pieces[i].data == pieces[i].data;
    Associative(ended, resampler.Ended(pieces[i].rate),
                Remaining(resampler.bank, resampler.targetRate, pieces[i].rate,
                          resampler.Kept(pieces[i].rate) + pieces[i].data, pieces[i + 1..]));
  }

  lemma FirstRun(bank: FilterBank, to: Rate, pieces: seq<Piece>)
    requires pieces != []
    ensures Remaining(bank, to, pieces[0].rate, pieces[0].data, pieces[1..]) == RunsOutput(bank, to, pieces)
  {
    var rate := pieces[0].rate;
    RemainingIsRuns(bank, to, rate, [], pieces);
    assert [] + pieces[0].data == pieces[0].data;
    var n := LeadingRun(rate, pieces);
    assert [] + Bytes(pieces[..n]) == Bytes(pieces[..n]);
  }

  /** With one source rate the cuts are immaterial: only the joined bytes matter. */
  lemma {:induction false} ChunkingIsImmaterial(bank: FilterBank, to: Rate, rate: Rate, pieces: seq<Piece>)
    requires pieces != [] && forall p :: p in pieces ==> p.rate == rate
    ensures RunsOutput(bank, to, pieces) == Finished(bank, rate, to, Bytes(pieces))
  {
    AllLeading(rate, pieces);
    assert pieces[..|pieces|] == pieces && pieces[|pieces|..] == [];
  }

  lemma {:induction false} AllLeading(rate: Rate, pieces: seq<Piece>)
    requires forall p :: p in pieces ==> p.rate == rate
    ensures LeadingRun(rate, pieces) == |pieces|
  {
    if pieces != [] {
      AllLeading(rate, pieces[1..]);
    }
  }

  /** Finished output of `n` whole samples: floor(n * to / from) samples of two bytes. */
  lemma FinishedLength(bank: FilterBank, from: Rate, to: Rate, bytes: seq<byte>)
    ensures |Finished(bank, from, to, bytes)| == 2 * (|bytes| / 2 * to / from)
  {
    SamplesCount(bytes);
    if from == to { SameRateCount(|bytes| / 2, from); }
  }

  lemma NothingFromNothing(bank: FilterBank, from: Rate, to: Rate)
    ensures Emitted(bank, from, to, []) == [] && Finished(bank, from, to, []) == []
  {
  }

  lemma SamplesCount(bytes: seq<byte>)
    ensures |Samples(bytes)| == |bytes| / 2 && |Even(bytes)| == 2 * (|bytes| / 2)
  {
  }

  lemma SameRateCount(n: nat, rate: Rate)
    ensures TargetCount(n, rate, rate) == n
  {
    DivisionIsUnique(n * rate, n, 0, rate);
  }

  /* ---------- the one-shot resampler ---------- */

  function WithinEdges(at: int, size: nat): (i: nat)
    requires size > 0
    ensures i < size
  {
    Max(0, Min(size - 1, at))
  }

  /** A centred FIR that extends each edge with its nearest sample. */
  function CentredSum(taps: seq<real>, xs: seq<int16>, i: nat, n: nat): real
    requires n <= |taps| && i < |xs|
  {
    if n == 0 then 0.0
    else CentredSum(taps, xs, i, n - 1) + taps[n - 1] * xs[WithinEdges(i + |taps| / 2 - (n - 1), |xs|)] as real
  }

  function LowPass(taps: seq<real>, xs: seq<int16>): (f: seq<real>)
    ensures |f| == |xs|
  {
    seq(|xs|, i requires 0 <= i < |xs| => CentredSum(taps, xs, i, |taps|))
  }

  /** What `_resample_linear` interpolates: the samples, low-passed when the rate drops. */
  function OneShotSource(bank: FilterBank, from: Rate, to: Rate, xs: seq<int16>): (f: seq<real>)
    ensures |f| == |xs|
  {
    if to < from then LowPass(bank(from, to), xs) else Filtered([], xs)
  }

  method LowPassForDownsampling(taps: seq<real>, xs: seq<int16>) returns (filtered: seq<real>)
    ensures filtered == LowPass(taps, xs)
  {
    filtered := [];
    for sampleIndex := 0 to |xs|
      invariant filtered == LowPass(taps, xs)[..sampleIndex]
    {
      var value := 0.0;
      for tapIndex := 0 to |taps|
        invariant value == CentredSum(taps, xs, sampleIndex, tapIndex)
      {
        var sourceIndex := Max(0, Min(|xs| - 1, sampleIndex + |taps| / 2 - tapIndex));
        value := value + taps[tapIndex] * xs[sourceIndex] as real;
      }
      filtered := filtered + [value];
    }
  }

  function ResampledOnce(bank: FilterBank, from: Rate, to: Rate, data: seq<byte>): seq<byte> {
    Pack(Outputs(OneShotSource(bank, from, to, Samples(data)), from, to, 0, TargetCount(|data| / 2, from, to)))
  }

  /** `_resample_linear`; when the rate does not drop it agrees with the streaming resampler. */
  method ResampleLinear(bank: FilterBank, data: seq<byte>, from: Rate, to: Rate) returns (out: seq<byte>)
    ensures out == ResampledOnce(bank, from, to, data)
    ensures from < to ==> out == Finished(bank, from, to, data)
  {
    var numSamples := |data| / 2;
    var xs := Unpack(data[..2 * numSamples]);
    SamplesOfEven(data);
    assert data[..2 * numSamples] == Even(data);
    var samples := OneShotInput(bank, from, to, xs);
    var outSamples := OneShot(samples, from, to);
    out := Pack(outSamples);
  }

  method OneShotInput(bank: FilterBank, from: Rate, to: Rate, xs: seq<int16>) returns (samples: seq<real>)
    ensures samples == OneShotSource(bank, from, to, xs)
  {
    if to < from {
      samples := LowPassForDownsampling(bank(from, to), xs);
    } else {
      var ints: seq<int> := xs;
      PassThrough([], ints);
      assert [] + ints == ints && Filtered([], []) == [];
      samples := Map(AsReal, ints);
    }
  }

  method OneShot(samples: seq<real>, from: Rate, to: Rate) returns (out: seq<int16>)
    ensures out == Outputs(samples, from, to, 0, TargetCount(|samples|, from, to))
  {
    var outLen := |samples| * to / from;
    out := [];
    for i := 0 to outLen
      invariant out == Outputs(samples, from, to, 0, i)
    {
      var sample := OneShotSample(samples, from, to, i);
      out := out + [sample];
    }
  }

  /** Interpolating with a zero fraction is taking the sample itself, so both loops agree. */
  method OneShotSample(samples: seq<real>, from: Rate, to: Rate, i: nat) returns (sample: int16)
    ensures sample == OutputAt(samples, from, to, i)
  {
    var idx, rem := i * from / to, i * from % to;
    var value := 0.0;
    if idx + 1 < |samples| {
      InterpolateAtSample(samples[idx], samples[idx + 1], to);
      value := Interpolate(samples[idx], samples[idx + 1], rem, to);
    } else if idx < |samples| {
      value := samples[idx];
    }
    sample := ToSample(value);
  }

  lemma InterpolateAtSample(a: real, b: real, to: Rate)
    ensures Interpolate(a, b, 0, to) == a
  {
  }
}
