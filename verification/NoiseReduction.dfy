/**
 * `RNNoiseReducer` of src/easycat/noise_reduction.py: frame carry, downmix, upsampling to 48 kHz,
 * fixed-size frames through a stateful denoiser, and resampling back.
 *
 * The denoiser is an arbitrary function from a state and a frame to a new state and real samples.
 */
module NoiseReduction {
  import opened Prelude
  import opened Pcm16
  import opened LinearResampler
  import opened StreamResampler

  const RNNOISE_RATE: Rate := 48000

  type Denoiser<!S> = (S, seq<int16>) -> (S, seq<real>)

  /* ---------- framing around a stateful filter ---------- */

  /** The first `n` samples of a processed frame as PCM16 bytes. */
  function Encode(processed: seq<real>, n: nat): seq<byte> {
    Pack(Map(ToSample, processed[..Min(|processed|, n)]))
  }

  function Padding(n: nat): seq<int16> { if n == 0 then [] else Padding(n - 1) + [0] }

  /* ---------- the whole pipeline on mono bytes ---------- */

  datatype Pipeline<!S> = Pipeline(bank: FilterBank, step: Denoiser<S>, size: nat) {

    /** 48 kHz bytes available after `mono`, and in all. */
    function Up(rate: Rate, mono: seq<byte>): seq<byte> { Emitted(bank, rate, RNNOISE_RATE, mono) }

    function UpAll(rate: Rate, mono: seq<byte>): seq<byte> { Finished(bank, rate, RNNOISE_RATE, mono) }

    /** 48 kHz bytes that do not fill a frame yet. */
    function Left(up: seq<byte>): seq<byte> {
      if size == 0 then [] else Rest(up, 2 * size)
    }

    /** The denoiser state after the whole frames of `up`, and the audio cleaned on the way. */
    function State(s: S, up: seq<byte>): S
      decreases |up|
    {
      if size == 0 || |up| < 2 * size then s
      else State(step(s, Unpack(up[..2 * size])).0, up[2 * size..])
    }

    function Cleaned(s: S, up: seq<byte>): seq<byte>
      decreases |up|
    {
      if size == 0 || |up| < 2 * size then []
      else
        var (next, processed) := step(s, Unpack(up[..2 * size]));
        Encode(processed, size) + Cleaned(next, up[2 * size..])
    }

    /** The last, zero-padded frame of a stream; only its valid part is kept. */
    function CleanedTail(s: S, tail: seq<byte>): seq<byte> {
      var samples := Unpack(tail);
      if tail == [] || |samples| > size then []
      else Encode(step(s, samples + Padding(size - |samples|)).1, |samples|)
    }

    function StateAfterTail(s: S, tail: seq<byte>): S {
      var samples := Unpack(tail);
      if tail == [] || |samples| > size then s
      else step(s, samples + Padding(size - |samples|)).0
    }

    function StateAll(s: S, up: seq<byte>): S { StateAfterTail(State(s, up), Left(up)) }

    function CleanedAll(s: S, up: seq<byte>): seq<byte> {
      Cleaned(s, up) + CleanedTail(State(s, up), Left(up))
    }

    /** Output of a stream at `rate` once its mono bytes are `mono`, and after a flush. */
    function Out(rate: Rate, start: S, mono: seq<byte>): seq<byte> {
      Emitted(bank, RNNOISE_RATE, rate, Cleaned(start, Up(rate, mono)))
    }

    function OutAll(rate: Rate, start: S, mono: seq<byte>): seq<byte> {
      Finished(bank, RNNOISE_RATE, rate, CleanedAll(start, UpAll(rate, mono)))
    }

    lemma LeftIsEven(up: seq<byte>, more: seq<byte>)
      requires size > 0 && |up + more| % 2 == 0
      ensures |Left(up) + more| % 2 == 0
    {
      WholeThenRest(up, 2 * size);
      EvenLeftover(|Whole(up, 2 * size)|, size);
    }

    /** More 48 kHz audio only adds frames. */
    lemma {:induction false} CleanedGrows(s: S, up: seq<byte>, more: seq<byte>)
      requires size > 0
      ensures Left(up + more) == Left(Left(up) + more)
      ensures State(s, up + more) == State(State(s, up), Left(up) + more)
      ensures Cleaned(s, up + more) == Cleaned(s, up) + Cleaned(State(s, up), Left(up) + more)
      decreases |up|
    {
      if |up| >= 2 * size {
        var (next, processed) := step(s, Unpack(up[..2 * size]));
        var later := up[2 * size..];
        CleanedGrows(next, later, more);
        hide Encode, Unpack;
        CutThrough(up, more, 2 * size);
        Associative(Encode(processed, size), Cleaned(next, later), Cleaned(State(next, later), Left(later) + more));
      }
    }
  }

  lemma {:induction false} EvenLeftover(n: nat, size: nat)
    requires size > 0 && Leftover(n, 2 * size) == 0
    ensures n % 2 == 0
  {
    if n >= 2 * size {
      EvenLeftover(n - 2 * size, size);
      hide Leftover;
      assert n == 2 * ((n - 2 * size) / 2 + size);
    }
  }

  /* ---------- the reducer ---------- */

  class RNNoiseReducer<S> {
    const pipe: Pipeline<S>
    const input: PCM16StreamResampler
    var output: PCM16StreamResampler?
    var state: S
    var buffer48k: seq<byte>
    var streamRate: Option<Rate>
    var sourceFrameCarry: seq<byte>
    var sourceFormat: Option<AudioFormat>
    // Of the stream in progress: the denoiser state it began with, its mono bytes, its 48 kHz
    // bytes, and those already cleaned.
    ghost var start: S
    ghost var mono: seq<byte>
    ghost var up: seq<byte>
    ghost var cleaned: seq<byte>
    // The objects the two resamplers consist of.
    ghost var Parts: set<object>

    ghost predicate Owned()
      reads `Parts, `output, Parts
    {
      && this !in Parts && input in Parts && input.Repr <= Parts
      && input.Valid() && input.bank == pipe.bank && input.targetRate == RNNOISE_RATE
      && (output != null ==>
            && output in Parts && output.Repr <= Parts && output.Repr !! input.Repr
            && output.Valid() && output.bank == pipe.bank)
    }

    /** The framing layer has done all it can with the 48 kHz bytes received so far. */
    ghost predicate InStep()
      reads `buffer48k, `state, `start, `up, `cleaned
    {
      buffer48k == pipe.Left(up) && state == pipe.State(start, up) && cleaned == pipe.Cleaned(start, up)
    }

    /** The resamplers have received exactly what the outer and the framing layer passed on. */
    ghost predicate Connected()
      reads `mono, `up, `cleaned, `streamRate, `output, input, output
    {
      && input.segment == mono && input.emitted == up
      && (streamRate == None ==> input.sourceRate == None && (output != null ==> output.sourceRate == None))
      && (streamRate.Some? ==>
            && output != null && output.targetRate == streamRate.value
            && Continues(input.sourceRate, streamRate.value) && Continues(output.sourceRate, RNNOISE_RATE)
            && output.segment == cleaned)
    }

    ghost predicate Valid()
      reads this, Parts
      ensures Valid() ==> Owned()
    {
      && pipe.size > 0
      && Owned() && InStep() && Connected()
      && (sourceFormat.Some? <==> streamRate.Some?)
      && (sourceFormat.Some? ==> sourceFormat.value.Positive() && sourceFormat.value.sampleRate == streamRate.value)
    }

    constructor (pipe: Pipeline<S>, state: S)
      requires pipe.size > 0
      ensures Valid() && fresh(Parts)
      ensures this.pipe == pipe && this.state == state
      ensures streamRate == None && sourceFormat == None && sourceFrameCarry == []
    {
      this.pipe, this.state, start := pipe, state, state;
      var resampler := new PCM16StreamResampler(pipe.bank, RNNOISE_RATE);
      input, output := resampler, null;
      buffer48k, streamRate, sourceFrameCarry, sourceFormat := [], None, [], None;
      mono, up, cleaned := [], [], [];
      Parts := {resampler} + resampler.Repr;
    }

    /** The mono stream that a chunk in `fmt` continues, and the denoiser state that stream began with. */
    ghost function KeptMono(fmt: AudioFormat): seq<byte>
      reads this
    {
      if streamRate == Some(fmt.sampleRate) then mono else []
    }

    ghost function KeptStart(fmt: AudioFormat): S
      reads this
    {
      if streamRate == Some(fmt.sampleRate) then start else state
    }

    /** The partial source frame that a chunk in `fmt` may complete. */
    function KeptCarry(fmt: AudioFormat): seq<byte>
      reads this
    {
      if sourceFormat == Some(fmt) then sourceFrameCarry else []
    }

    /** Starts using `fmt`: the partial frame of another format goes, and so does a stream at another rate. */
    method Adopt(fmt: AudioFormat)
      requires Valid() && fmt.Positive()
      modifies this, Parts
      ensures Valid() && fresh(Parts - old(Parts))
      ensures sourceFormat == Some(fmt) && streamRate == Some(fmt.sampleRate)
      ensures sourceFrameCarry == old(KeptCarry(fmt))
      ensures start == old(KeptStart(fmt)) && mono == old(KeptMono(fmt))
    {
      hide InStep, Connected;
      if sourceFormat != Some(fmt) {
        sourceFrameCarry := [];
        if streamRate != Some(fmt.sampleRate) {
          Restart(fmt.sampleRate);
        }
        sourceFormat := Some(fmt);
      }
    }

    method Restart(rate: Rate)
      requires Owned() && pipe.size > 0
      modifies this, Parts
      ensures Owned() && fresh(Parts - old(Parts)) && InStep() && Connected()
      ensures sourceFormat == old(sourceFormat) && sourceFrameCarry == old(sourceFrameCarry)
      ensures start == old(state) && mono == [] && streamRate == Some(rate)
    {
      ResetResamplers();
      NewOutput(rate);
      buffer48k := [];
      streamRate := Some(rate);
      start, mono, up, cleaned := state, [], [], [];
    }

    method NewOutput(rate: Rate)
      requires Owned()
      modifies `output, `Parts
      ensures Owned() && fresh(Parts - old(Parts)) && output != null
      ensures output.targetRate == rate && output.sourceRate == None && output.segment == []
    {
      hide PCM16StreamResampler.Valid;
      output := new PCM16StreamResampler(pipe.bank, rate);
      Parts := Parts + {output} + output.Repr;
    }

    method ResetResamplers()
      requires Owned()
      modifies input, output
      ensures Owned() && input.sourceRate == None && input.segment == []
    {
      input.Reset();
      if output != null {
        output.Reset();
      }
    }

    /**
     * `_process_buffered_frames`: whole frames only, unless the stream ends here, in which case
     * the zero-padded tail is processed too.
     */
    method ProcessBufferedFrames(flush: bool) returns (out: seq<byte>)
      requires pipe.size > 0 && |buffer48k| % 2 == 0
      modifies `buffer48k, `state
      ensures !flush ==>
                out == pipe.Cleaned(old(state), old(buffer48k)) &&
                state == pipe.State(old(state), old(buffer48k)) && buffer48k == pipe.Left(old(buffer48k))
      ensures flush ==>
                out == pipe.CleanedAll(old(state), old(buffer48k)) &&
                state == pipe.StateAll(old(state), old(buffer48k)) && buffer48k == []
    {
      out := DrainFrames();
      if flush && buffer48k != [] {
        var last := DrainTail();
        out := out + last;
      }
    }

    method DrainFrames() returns (out: seq<byte>)
      requires pipe.size > 0 && |buffer48k| % 2 == 0
      modifies `buffer48k, `state
      ensures |buffer48k| % 2 == 0 && |buffer48k| < 2 * pipe.size
      ensures buffer48k == pipe.Left(old(buffer48k))
      ensures state == pipe.State(old(state), old(buffer48k))
      ensures out == pipe.Cleaned(old(state), old(buffer48k))
    {
      ghost var left, final, all := pipe.Left(buffer48k), pipe.State(state, buffer48k), pipe.Cleaned(state, buffer48k);
      var frameBytes := 2 * pipe.size;
      out := [];
      while |buffer48k| >= frameBytes
        invariant |buffer48k| % 2 == 0
        invariant pipe.Left(buffer48k) == left && pipe.State(state, buffer48k) == final
        invariant out + pipe.Cleaned(state, buffer48k) == all
      {
        var processed := DrainFrame();
        Associative(out, processed, pipe.Cleaned(state, buffer48k));
        out := out + processed;
      }
      assert out + [] == out;
    }

    method DrainFrame() returns (out: seq<byte>)
      requires pipe.size > 0 && |buffer48k| % 2 == 0 && |buffer48k| >= 2 * pipe.size
      modifies `buffer48k, `state
      ensures |buffer48k| % 2 == 0 && |buffer48k| < |old(buffer48k)|
      ensures pipe.Left(buffer48k) == pipe.Left(old(buffer48k))
      ensures pipe.State(state, buffer48k) == pipe.State(old(state), old(buffer48k))
      ensures out + pipe.Cleaned(state, buffer48k) == pipe.Cleaned(old(state), old(buffer48k))
    {
      var frameData := buffer48k[..2 * pipe.size];
      buffer48k := buffer48k[2 * pipe.size..];
      var (next, processed) := pipe.step(state, Unpack(frameData));
      state := next;
      out := Encode(processed, pipe.size);
    }

    method DrainTail() returns (out: seq<byte>)
      requires buffer48k != [] && |buffer48k| % 2 == 0 && |buffer48k| < 2 * pipe.size
      modifies `buffer48k, `state
      ensures buffer48k == []
      ensures out == pipe.CleanedTail(old(state), old(buffer48k))
      ensures state == pipe.StateAfterTail(old(state), old(buffer48k))
    {
      var tail := Unpack(buffer48k);
      var valid := |tail|;
      var padded := tail + Padding(pipe.size - valid);
      buffer48k := [];
      var (next, processed) := pipe.step(state, padded);
      state := next;
      out := Encode(processed, valid);
    }

    /** Step 1 of `process`: mono bytes to 48 kHz, accumulated behind the buffered remainder. */
    method TakeIn(data: seq<byte>) returns (more: seq<byte>)
      requires Owned() && Connected() && streamRate.Some?
      modifies `Parts, `buffer48k, `mono, `up, input.Repr
      ensures Owned() && fresh(Parts - old(Parts)) && Connected()
      ensures mono == old(mono) + data && up == old(up) + more && buffer48k == old(buffer48k) + more
      ensures |up| % 2 == 0
      ensures output.emitted == old(output.emitted)
    {
      hide Finished, Pipeline.Cleaned, Pipeline.State, PCM16StreamResampler.Valid;
      var r := input.Process(data, streamRate.value);
      more := r.value;
      Parts := Parts + input.Repr;
      buffer48k := buffer48k + more;
      mono, up := mono + data, up + more;
      input.EmittedAt(streamRate.value);
    }

    /** Runs the frames that `more` completed. */
    method CleanMore(ghost oldUp: seq<byte>, ghost more: seq<byte>) returns (cleaned48k: seq<byte>)
      requires pipe.size > 0 && up == oldUp + more && |up| % 2 == 0
      requires buffer48k == pipe.Left(oldUp) + more
      requires state == pipe.State(start, oldUp) && cleaned == pipe.Cleaned(start, oldUp)
      modifies `buffer48k, `state
      ensures buffer48k == pipe.Left(up) && state == pipe.State(start, up)
      ensures cleaned + cleaned48k == pipe.Cleaned(start, up)
    {
      pipe.CleanedGrows(start, oldUp, more);
      pipe.LeftIsEven(oldUp, more);
      cleaned48k := ProcessBufferedFrames(false);
    }

    /** Step 2 of `process`: hands cleaned audio to the output resampler. */
    method PassOn(cleaned48k: seq<byte>) returns (out: seq<byte>)
      requires Owned() && Connected() && streamRate.Some?
      modifies `Parts, `cleaned, output.Repr
      ensures Owned() && fresh(Parts - old(Parts)) && Connected()
      ensures cleaned == old(cleaned) + cleaned48k
      ensures old(output.emitted) + out == output.emitted
    {
      var r := output.Process(cleaned48k, RNNOISE_RATE);
      out := r.value;
      Parts := Parts + {output} + output.Repr;
      cleaned := cleaned + cleaned48k;
    }

    /** What the output resampler has emitted is what the whole pipeline says of the mono stream. */
    lemma EmittedIsOut()
      requires Valid() && streamRate.Some?
      ensures output.emitted == pipe.Out(streamRate.value, start, mono)
    {
    }

    method TakeFrames(data: seq<byte>, fmt: AudioFormat) returns (whole: seq<byte>)
      requires fmt.Positive() && fmt.FrameSize() > 0
      modifies `sourceFrameCarry
      ensures whole == Whole(old(sourceFrameCarry) + data, fmt.FrameSize())
      ensures sourceFrameCarry == Rest(old(sourceFrameCarry) + data, fmt.FrameSize())
    {
      var sourceData := sourceFrameCarry + data;
      var remainder := |sourceData| % fmt.FrameSize();
      LeftoverIsRemainder(|sourceData|, fmt.FrameSize());
      WholeThenRest(sourceData, fmt.FrameSize());
      if remainder != 0 {
        sourceFrameCarry := sourceData[|sourceData| - remainder..];
        whole := sourceData[..|sourceData| - remainder];
      } else {
        sourceFrameCarry := [];
        whole := sourceData;
      }
    }

    /** `process` once the stream's format is settled. */
    method ProcessMono(data: seq<byte>) returns (out: seq<byte>)
      requires Valid() && streamRate.Some?
      modifies `Parts, `buffer48k, `mono, `up, `cleaned, `state, Parts
      ensures Valid() && fresh(Parts - old(Parts)) && mono == old(mono) + data
      ensures pipe.Out(streamRate.value, start, old(mono)) + out == pipe.Out(streamRate.value, start, mono)
    {
      EmittedIsOut();
      out := Step(data);
      EmittedIsOut();
    }

    method Step(data: seq<byte>) returns (out: seq<byte>)
      requires Valid() && streamRate.Some?
      modifies `Parts, `buffer48k, `mono, `up, `cleaned, `state, Parts
      ensures Valid() && fresh(Parts - old(Parts)) && mono == old(mono) + data
      ensures old(output.emitted) + out == output.emitted
    {
      hide Emitted, Finished, Rest, Unpack, Encode, Pipeline.Cleaned, Pipeline.State;
      ghost var oldUp := up;
      var more := TakeIn(data);
      out := Deliver(oldUp, more);
    }

    method Deliver(ghost oldUp: seq<byte>, ghost more: seq<byte>) returns (out: seq<byte>)
      requires Owned() && Connected() && streamRate.Some?
      requires pipe.size > 0 && up == oldUp + more && |up| % 2 == 0
      requires buffer48k == pipe.Left(oldUp) + more
      requires state == pipe.State(start, oldUp) && cleaned == pipe.Cleaned(start, oldUp)
      modifies `Parts, `buffer48k, `cleaned, `state, output.Repr
      ensures Owned() && fresh(Parts - old(Parts)) && Connected() && InStep()
      ensures old(output.emitted) + out == output.emitted
    {
      hide Emitted, Finished, Rest, Unpack, Encode, Pipeline.Cleaned, Pipeline.State, Pipeline.CleanedTail, Pipeline.Left;
      var cleaned48k := CleanMore(oldUp, more);
      out := PassOn(cleaned48k);
    }

    /**
     * Processes one chunk. A chunk in the current format continues the stream at the byte where
     * the last one stopped; a channel change keeps the mono stream; a rate change starts anew.
     */
    method Process(data: seq<byte>, fmt: AudioFormat) returns (r: Result<seq<byte>, string>)
      requires Valid() && fmt.Positive()
      modifies this, Parts
      ensures Valid() && fresh(Parts - old(Parts))
      ensures !fmt.IsPcm16() ==> r.Err? && unchanged(this)
      ensures fmt.IsPcm16() ==>
                r.Ok? && streamRate == Some(fmt.sampleRate) && sourceFormat == Some(fmt)
      ensures fmt.IsPcm16() ==>
                start == old(KeptStart(fmt)) && fmt.FrameSize() > 0 &&
                sourceFrameCarry == Rest(old(KeptCarry(fmt)) + data, fmt.FrameSize()) &&
                mono == old(KeptMono(fmt)) + Mono(Whole(old(KeptCarry(fmt)) + data, fmt.FrameSize()), fmt.channels)
      ensures fmt.IsPcm16() ==>
                pipe.Out(fmt.sampleRate, start, old(KeptMono(fmt))) + r.value == pipe.Out(fmt.sampleRate, start, mono)
    {
      if !fmt.IsPcm16() { return Err("RNNoiseReducer input must be PCM16 audio"); }
      var out := ProcessPcm16(data, fmt);
      r := Ok(out);
    }

    method ProcessPcm16(data: seq<byte>, fmt: AudioFormat) returns (out: seq<byte>)
      requires Valid() && fmt.Positive() && fmt.IsPcm16()
      modifies this, Parts
      ensures Valid() && fresh(Parts - old(Parts))
      ensures streamRate == Some(fmt.sampleRate) && sourceFormat == Some(fmt)
      ensures start == old(KeptStart(fmt)) && fmt.FrameSize() > 0
      ensures sourceFrameCarry == Rest(old(KeptCarry(fmt)) + data, fmt.FrameSize())
      ensures mono == old(KeptMono(fmt)) + Mono(Whole(old(KeptCarry(fmt)) + data, fmt.FrameSize()), fmt.channels)
      ensures pipe.Out(fmt.sampleRate, start, old(KeptMono(fmt))) + out == pipe.Out(fmt.sampleRate, start, mono)
    {
      hide Emitted, Finished, Rest, Pipeline.Out, Unpack, Encode, Pipeline.Cleaned, Pipeline.State, InStep, Connected;
      hide PCM16StreamResampler.Valid;
      FrameSizePositive(fmt);
      Adopt(fmt);
      var sourceData := TakeFrames(data, fmt);
      if fmt.channels > 1 {
        var downmixed := ToMono(sourceData, fmt.channels);
        sourceData := downmixed.value;
      }
      out := ProcessMono(sourceData);
    }

    /** Ends the input resampler's segment; everything it owed joins the buffer. */
    method FinishInput() returns (tail: seq<byte>)
      requires Valid()
      modifies `buffer48k, input.Repr
      ensures Owned() && buffer48k == old(buffer48k) + tail && |buffer48k| % 2 == 0
      ensures input.sourceRate == None && input.segment == [] && input.emitted == []
      ensures streamRate == None ==> tail == []
      ensures streamRate.Some? ==> up + tail == pipe.UpAll(streamRate.value, mono)
    {
      if streamRate.Some? { input.EmittedAt(streamRate.value); }
      tail := input.Finish();
      pipe.LeftIsEven(up, tail);
      buffer48k := buffer48k + tail;
    }

    /** Cleans what is left of the stream, padding its last frame with silence. */
    method CleanRest(ghost tail: seq<byte>) returns (cleaned48k: seq<byte>)
      requires pipe.size > 0 && |buffer48k| % 2 == 0 && buffer48k == pipe.Left(up) + tail
      requires state == pipe.State(start, up) && cleaned == pipe.Cleaned(start, up)
      modifies `buffer48k, `state
      ensures buffer48k == [] && cleaned + cleaned48k == pipe.CleanedAll(start, up + tail)
      ensures state == pipe.StateAll(start, up + tail)
    {
      pipe.CleanedGrows(start, up, tail);
      ghost var s, b := state, buffer48k;
      cleaned48k := ProcessBufferedFrames(true);
      Associative(cleaned, pipe.Cleaned(s, b), pipe.CleanedTail(pipe.State(s, b), pipe.Left(b)));
    }

    method FinishOutput(cleaned48k: seq<byte>) returns (out: seq<byte>)
      requires Owned() && output != null && Continues(output.sourceRate, RNNOISE_RATE)
      modifies `Parts, output.Repr
      ensures Owned() && fresh(Parts - old(Parts))
      ensures output.sourceRate == None && output.segment == [] && output.emitted == []
      ensures old(output.emitted) + out
           == Finished(pipe.bank, RNNOISE_RATE, output.targetRate, old(output.segment) + cleaned48k)
    {
      hide Emitted, Finished;
      ghost var before := output.emitted;
      var r := output.Process(cleaned48k, RNNOISE_RATE);
      out := r.value;
      output.EmittedAt(RNNOISE_RATE);
      Parts := Parts + {output} + output.Repr;
      var tail := output.Finish();
      Associative(before, out, tail);
      out := out + tail;
    }

    /**
     * Drains the stream in progress: the pieces emitted by `Process` and this one make up the
     * whole-stream result. The denoiser keeps its state; everything else is as new.
     */
    method Flush() returns (out: seq<byte>, rate: Rate)
      requires Valid()
      modifies this, Parts
      ensures Valid() && fresh(Parts - old(Parts))
      ensures streamRate == None && sourceFormat == None && sourceFrameCarry == []
      ensures old(streamRate) == None ==> out == [] && rate == RNNOISE_RATE
      ensures old(streamRate).Some? ==>
                rate == old(streamRate).value &&
                old(pipe.Out(streamRate.value, start, mono)) + out == old(pipe.OutAll(streamRate.value, start, mono)) &&
                state == old(pipe.StateAll(start, pipe.UpAll(streamRate.value, mono)))
    {
      hide Emitted, Finished, Rest, Unpack, Encode, Pipeline.Cleaned, Pipeline.State, Pipeline.CleanedTail, Pipeline.StateAll;
      rate := if streamRate.Some? then streamRate.value else RNNOISE_RATE;
      if streamRate.Some? { EmittedIsOut(); }
      sourceFrameCarry := [];
      out := Drain();
      Forget();
    }

    method Forget()
      requires Owned() && pipe.size > 0 && buffer48k == []
      requires input.sourceRate == None && input.segment == [] && input.emitted == []
      requires output != null ==> output.sourceRate == None && output.segment == []
      modifies `streamRate, `sourceFormat, `start, `mono, `up, `cleaned
      ensures Valid() && streamRate == None && sourceFormat == None
    {
      streamRate, sourceFormat := None, None;
      start, mono, up, cleaned := state, [], [], [];
    }

    method Drain() returns (out: seq<byte>)
      requires Valid()
      modifies `Parts, `buffer48k, `state, Parts
      ensures Owned() && fresh(Parts - old(Parts)) && buffer48k == []
      ensures input.sourceRate == None && input.segment == [] && input.emitted == []
      ensures output != null ==> output.sourceRate == None && output.segment == []
      ensures streamRate == None ==> out == []
      ensures streamRate.Some? ==>
                old(output.emitted) + out == pipe.OutAll(streamRate.value, start, mono) &&
                state == pipe.StateAll(start, pipe.UpAll(streamRate.value, mono))
    {
      hide Emitted, Finished, Encode;
      var tail := FinishInput();
      out := CleanRest(tail);
      if output != null {
        if streamRate == None { NothingFromNothing(pipe.bank, RNNOISE_RATE, output.targetRate); }
        out := FinishOutput(out);
      }
    }
  }

  /* ---------- whole streams ---------- */

  /** One more chunk of a fixed format: the carried bytes and the mono stream grow together. */
  lemma ChunkStep(fmt: AudioFormat, fed: seq<byte>, data: seq<byte>)
    requires fmt.Positive() && fmt.IsPcm16() && fmt.FrameSize() > 0
    ensures Rest(fed + data, fmt.FrameSize()) == Rest(Rest(fed, fmt.FrameSize()) + data, fmt.FrameSize())
    ensures Mono(Whole(fed + data, fmt.FrameSize()), fmt.channels)
         == Mono(Whole(fed, fmt.FrameSize()), fmt.channels)
              + Mono(Whole(Rest(fed, fmt.FrameSize()) + data, fmt.FrameSize()), fmt.channels)
  {
    WholeOfAppend(fed, data, fmt.FrameSize());
    WholeThenRest(fed, fmt.FrameSize());
    MonoAppend(Whole(fed, fmt.FrameSize()), Whole(Rest(fed, fmt.FrameSize()) + data, fmt.FrameSize()), fmt.channels);
  }

  /** The mono stream that complete frames of `data` make up. */
  function MonoOf(fmt: AudioFormat, data: seq<byte>): seq<byte>
    requires fmt.channels > 0 && fmt.FrameSize() > 0
  {
    Mono(Whole(data, fmt.FrameSize()), fmt.channels)
  }

  /**
   * For one source format, the bytes of all `Process` calls and the final `Flush` depend only on
   * the joined input, wherever it was cut - inside a sample or inside a frame.
   */
  method DenoiseStream<S(!new)>(pipe: Pipeline<S>, s0: S, fmt: AudioFormat, chunks: seq<seq<byte>>) returns (total: seq<byte>)
    requires pipe.size > 0 && fmt.Positive() && fmt.IsPcm16() && fmt.FrameSize() > 0
    ensures total == pipe.OutAll(fmt.sampleRate, s0, MonoOf(fmt, Flatten(chunks)))
    ensures fmt.sampleRate == RNNOISE_RATE && ReturnsFrames(pipe) ==> total == MonoOf(fmt, Flatten(chunks))
  {
    hide Emitted, Finished, Rest, Pipeline.OutAll;
    var reducer := new RNNoiseReducer(pipe, s0);
    OutOfNothing(pipe, fmt.sampleRate, s0);
    MonoOfNothing(fmt);
    total := FeedAll(reducer, fmt, s0, [], 0, chunks);
    assert [] + Flatten(chunks) == Flatten(chunks) && [] + total == total;
    var rest, rate := reducer.Flush();
    total := total + rest;
    hide ReturnsFrames;
    if fmt.sampleRate == RNNOISE_RATE && ReturnsFrames(pipe) {
      HandsThrough(pipe, s0, fmt, Flatten(chunks));
    }
  }

  method FeedAll<S>(reducer: RNNoiseReducer<S>, fmt: AudioFormat, ghost s0: S, ghost fed: seq<byte>, ghost i: nat,
                    chunks: seq<seq<byte>>) returns (total: seq<byte>)
    requires fmt.Positive() && fmt.IsPcm16() && fmt.FrameSize() > 0
    requires reducer.Valid() && InStream(reducer, fmt, s0, fed, i)
    modifies reducer, reducer.Parts
    ensures reducer.Valid() && InStream(reducer, fmt, s0, fed + Flatten(chunks), i + |chunks|)
    ensures fresh(reducer.Parts - old(reducer.Parts))
    ensures reducer.pipe.Out(fmt.sampleRate, s0, MonoOf(fmt, fed)) + total
         == reducer.pipe.Out(fmt.sampleRate, s0, MonoOf(fmt, fed + Flatten(chunks)))
    decreases |chunks|
  {
    total := [];
    if chunks == [] {
      assert fed + Flatten(chunks) == fed;
    } else {
      var first := FeedChunk(reducer, chunks[0], fmt, s0, fed, i);
      var rest := FeedAll(reducer, fmt, s0, fed + chunks[0], i + 1, chunks[1..]);
      Associative(fed, chunks[0], Flatten(chunks[1..]));
      Associative(reducer.pipe.Out(fmt.sampleRate, s0, MonoOf(fmt, fed)), first, rest);
      total := first + rest;
    }
  }

  /** Where a reducer stands after `i` chunks that joined to `fed`. */
  ghost predicate InStream<S>(reducer: RNNoiseReducer<S>, fmt: AudioFormat, s0: S, fed: seq<byte>, i: nat)
    requires fmt.channels > 0 && fmt.FrameSize() > 0
    reads reducer
  {
    && reducer.KeptCarry(fmt) == Rest(fed, fmt.FrameSize())
    && reducer.KeptMono(fmt) == MonoOf(fmt, fed)
    && reducer.KeptStart(fmt) == s0
    && (i > 0 ==> reducer.streamRate == Some(fmt.sampleRate))
    && (i == 0 ==> reducer.streamRate == None && fed == [])
  }

  method FeedChunk<S>(reducer: RNNoiseReducer<S>, data: seq<byte>, fmt: AudioFormat,
                      ghost s0: S, ghost fed: seq<byte>, ghost i: nat) returns (out: seq<byte>)
    requires fmt.Positive() && fmt.IsPcm16() && fmt.FrameSize() > 0
    requires reducer.Valid() && InStream(reducer, fmt, s0, fed, i)
    modifies reducer, reducer.Parts
    ensures reducer.Valid() && fresh(reducer.Parts - old(reducer.Parts))
    ensures InStream(reducer, fmt, s0, fed + data, i + 1)
    ensures reducer.pipe.Out(fmt.sampleRate, s0, MonoOf(fmt, fed)) + out
         == reducer.pipe.Out(fmt.sampleRate, s0, MonoOf(fmt, fed + data))
  {
    ChunkStep(fmt, fed, data);
    var r := reducer.Process(data, fmt);
    out := r.value;
  }

  lemma OutOfNothing<S>(pipe: Pipeline<S>, rate: Rate, s: S)
    ensures pipe.Out(rate, s, []) == [] && pipe.OutAll(rate, s, []) == []
  {
    NothingFromNothing(pipe.bank, rate, RNNOISE_RATE);
    NothingFromNothing(pipe.bank, RNNOISE_RATE, rate);
  }

  lemma MonoOfNothing(fmt: AudioFormat)
    requires fmt.channels > 0 && fmt.FrameSize() > 0
    ensures MonoOf(fmt, []) == []
  {
  }

  /* ---------- the denoiser over the whole stream ---------- */

  /** `samples` filled up with silence to whole frames. */
  function Padded(samples: seq<int16>, size: nat): seq<int16>
    requires size > 0
  {
    samples + Padding((size - |samples| % size) % size)
  }

  /** The denoiser run over frames, one after the other: its last state, and what it returned of each frame. */
  function RunFrames<S>(pipe: Pipeline<S>, s: S, frames: seq<seq<int16>>): (S, seq<real>) {
    if frames == [] then (s, [])
    else
      var (next, processed) := pipe.step(s, frames[0]);
      var (end, later) := RunFrames(pipe, next, frames[1..]);
      (end, processed[..Min(|processed|, pipe.size)] + later)
  }

  lemma PaddedWhole(samples: seq<int16>, frame: seq<int16>, size: nat)
    requires size > 0 && |frame| == size
    ensures Chunks(Padded(frame + samples, size), size) == [frame] + Chunks(Padded(samples, size), size)
  {
    AddUnit(|samples|, size);
    var n := (size - |samples| % size) % size;
    Associative(frame, samples, Padding(n));
    CutThrough(frame, samples + Padding(n), size);
    assert frame[..size] == frame && frame[size..] == [];
    assert Padded(frame + samples, size)[size..] == Padded(samples, size);
  }

  lemma PaddedPart(samples: seq<int16>, size: nat)
    requires |samples| < size
    ensures Chunks(Padded(samples, size), size)
         == if samples == [] then [] else [samples + Padding(size - |samples|)]
  {
    DivisionIsUnique(|samples|, 0, |samples|, size);
    if samples == [] {
      DivisionIsUnique(size, 1, 0, size);
    } else {
      DivisionIsUnique(size - |samples|, 0, size - |samples|, size);
      PaddingLength(size - |samples|);
      var all := samples + Padding(size - |samples|);
      assert all[..size] == all && all[size..] == [];
    }
  }

  lemma EncodeIs(processed: seq<real>, n: nat)
    ensures Unpack(Encode(processed, n)) == Map(ToSample, processed[..Min(|processed|, n)])
    ensures |Encode(processed, n)| % 2 == 0
  {
    UnpackPack(Map(ToSample, processed[..Min(|processed|, n)]));
  }

  /** Run over `frames` from `s`, the denoiser ends in `end` and returns `cleaned`, but for rounding and length. */
  ghost predicate CleansTo<S>(pipe: Pipeline<S>, s: S, frames: seq<seq<int16>>, n: nat, end: S, cleaned: seq<byte>) {
    var run := RunFrames(pipe, s, frames);
    run.0 == end && |run.1| >= n && Unpack(cleaned) == Map(ToSample, run.1[..n])
  }

  /**
   * Whatever the denoiser keeps between frames: cleaning a stream piece by piece is running it over the whole
   * stream filled up with silence, cutting what it returns to the length of the stream, and rounding.
   */
  lemma {:induction false} CleaningIsRunning<S(!new)>(pipe: Pipeline<S>, s: S, up: seq<byte>)
    requires pipe.size > 0 && FullFrames(pipe) && |up| % 2 == 0
    ensures CleansTo(pipe, s, Chunks(Padded(Unpack(up), pipe.size), pipe.size), |up| / 2,
                     pipe.StateAll(s, up), pipe.CleanedAll(s, up))
    decreases |up|
  {
    hide Encode, Unpack, Padded, Chunks, Map, Pipeline.CleanedAll, Pipeline.StateAll;
    var size := pipe.size;
    if |up| >= 2 * size {
      var head, tail := up[..2 * size], up[2 * size..];
      var (next, processed) := pipe.step(s, Unpack(head));
      CleaningIsRunning(pipe, next, tail);
      CleaningUnfolds(pipe, s, up);
      EncodeIs(processed, size);
      UnpackAppend(Encode(processed, size), pipe.CleanedAll(next, tail));
      CutAt(up, 2 * size);
      UnpackAppend(head, tail);
      PaddedWhole(Unpack(tail), Unpack(head), size);
      RunOneMore(pipe, s, Unpack(head), Chunks(Padded(Unpack(tail), size), size));
      var later := RunFrames(pipe, next, Chunks(Padded(Unpack(tail), size), size)).1;
      MapAppend(ToSample, processed[..size], later[..|tail| / 2]);
      assert (processed[..size] + later)[..|up| / 2] == processed[..size] + later[..|tail| / 2];
    } else {
      CleaningTail(pipe, s, up);
    }
  }

  lemma RunOneMore<S>(pipe: Pipeline<S>, s: S, frame: seq<int16>, frames: seq<seq<int16>>)
    ensures var (next, processed) := pipe.step(s, frame);
            var (end, later) := RunFrames(pipe, next, frames);
            RunFrames(pipe, s, [frame] + frames) == (end, processed[..Min(|processed|, pipe.size)] + later)
  {
    assert ([frame] + frames)[1..] == frames;
  }

  lemma CleaningUnfolds<S>(pipe: Pipeline<S>, s: S, up: seq<byte>)
    requires pipe.size > 0 && |up| >= 2 * pipe.size
    ensures var (next, processed) := pipe.step(s, Unpack(up[..2 * pipe.size]));
            var tail := up[2 * pipe.size..];
            && pipe.CleanedAll(s, up) == Encode(processed, pipe.size) + pipe.CleanedAll(next, tail)
            && pipe.StateAll(s, up) == pipe.StateAll(next, tail)
  {
    hide Encode, Unpack, Pipeline.CleanedTail, Pipeline.StateAfterTail;
    var (next, processed) := pipe.step(s, Unpack(up[..2 * pipe.size]));
    var tail := up[2 * pipe.size..];
    Associative(Encode(processed, pipe.size), pipe.Cleaned(next, tail),
                pipe.CleanedTail(pipe.State(next, tail), pipe.Left(tail)));
  }

  /** A stream shorter than a frame is one padded frame, or nothing. */
  lemma TailAlone<S(!new)>(pipe: Pipeline<S>, s: S, up: seq<byte>)
    requires pipe.size > 0 && FullFrames(pipe) && |up| % 2 == 0 && |up| < 2 * pipe.size
    ensures |Unpack(up)| == |up| / 2 < pipe.size
    ensures var samples, frame := Unpack(up), Unpack(up) + Padding(pipe.size - |Unpack(up)|);
            if samples == [] then pipe.CleanedAll(s, up) == Encode([], 0) && pipe.StateAll(s, up) == s
            else |pipe.step(s, frame).1| >= pipe.size && pipe.StateAll(s, up) == pipe.step(s, frame).0
                 && pipe.CleanedAll(s, up) == Encode(pipe.step(s, frame).1, |samples|)
  {
    hide Unpack;
    PaddingLength(pipe.size - |Unpack(up)|);
    assert [] + pipe.CleanedTail(s, up) == pipe.CleanedTail(s, up);
  }

  lemma CleaningTail<S(!new)>(pipe: Pipeline<S>, s: S, up: seq<byte>)
    requires pipe.size > 0 && FullFrames(pipe) && |up| % 2 == 0 && |up| < 2 * pipe.size
    ensures CleansTo(pipe, s, Chunks(Padded(Unpack(up), pipe.size), pipe.size), |up| / 2,
                     pipe.StateAll(s, up), pipe.CleanedAll(s, up))
  {
    hide *;
    TailAlone(pipe, s, up);
    var samples := Unpack(up);
    PaddedPart(samples, pipe.size);
    if samples == [] {
      NothingRuns(pipe, s, pipe.CleanedAll(s, up));
    } else {
      OneFrameRuns(pipe, s, samples + Padding(pipe.size - |samples|), |samples|, pipe.CleanedAll(s, up));
    }
  }

  lemma NothingRuns<S>(pipe: Pipeline<S>, s: S, cleaned: seq<byte>)
    requires cleaned == Encode([], 0)
    ensures CleansTo(pipe, s, [], 0, s, cleaned)
  {
    hide Encode, Unpack, ToSample;
    RunNothing(pipe, s);
    EncodeIs([], 0);
  }

  lemma OneFrameRuns<S>(pipe: Pipeline<S>, s: S, frame: seq<int16>, n: nat, cleaned: seq<byte>)
    requires |pipe.step(s, frame).1| >= pipe.size >= n && cleaned == Encode(pipe.step(s, frame).1, n)
    ensures CleansTo(pipe, s, [frame], n, pipe.step(s, frame).0, cleaned)
  {
    hide Encode, Unpack, ToSample, Map, RunFrames;
    RunOneFrame(pipe, s, frame, n);
    EncodeIs(pipe.step(s, frame).1, n);
  }

  lemma RunNothing<S>(pipe: Pipeline<S>, s: S)
    ensures RunFrames(pipe, s, []).0 == s && RunFrames(pipe, s, []).1 == []
  {
  }

  lemma RunOneFrame<S>(pipe: Pipeline<S>, s: S, frame: seq<int16>, n: nat)
    requires |pipe.step(s, frame).1| >= pipe.size >= n
    ensures var (next, processed) := pipe.step(s, frame);
            var (end, out) := RunFrames(pipe, s, [frame]);
            end == next && |out| >= n && out[..n] == processed[..n]
  {
    assert [frame] + [] == [frame];
    RunOneMore(pipe, s, frame, []);
    hide RunFrames;
    var processed := pipe.step(s, frame).1;
    RunNothing(pipe, pipe.step(s, frame).0);
  }

  /** Every sample that comes out is the nearest there is to what the denoiser returned for it. */
  lemma CleanedIsNearest<S(!new)>(pipe: Pipeline<S>, s: S, up: seq<byte>, k: nat)
    requires pipe.size > 0 && FullFrames(pipe) && |up| % 2 == 0 && k < |up| / 2
    ensures var out := RunFrames(pipe, s, Chunks(Padded(Unpack(up), pipe.size), pipe.size)).1;
            k < |out| && k < |Unpack(pipe.CleanedAll(s, up))| && Nearest(Unpack(pipe.CleanedAll(s, up))[k], out[k])
  {
    hide Chunks, Padded, Unpack, RunFrames, ToSample, Nearest, Pipeline.CleanedAll;
    CleaningIsRunning(pipe, s, up);
    var out := RunFrames(pipe, s, Chunks(Padded(Unpack(up), pipe.size), pipe.size)).1;
    MapAt(ToSample, out[..|up| / 2], k);
    ToSampleIsNearest(out[k]);
  }

  /** The denoiser gives every frame back as it got it, whatever it may return beyond the frame. */
  ghost predicate ReturnsFrames<S(!new)>(pipe: Pipeline<S>) {
    forall s: S, frame: seq<int16> :: |frame| == pipe.size ==>
      |pipe.step(s, frame).1| >= pipe.size && forall k :: 0 <= k < pipe.size ==> pipe.step(s, frame).1[k] == frame[k] as real
  }

  lemma EncodedFrame(processed: seq<real>, frame: seq<int16>, n: nat)
    requires n <= |processed| && n <= |frame| && forall k :: 0 <= k < n ==> processed[k] == frame[k] as real
    ensures Encode(processed, n) == Pack(frame[..n])
  {
    var rounded := Map(ToSample, processed[..n]);
    forall k | 0 <= k < n ensures rounded[k] == frame[k] {
      MapAt(ToSample, processed[..n], k);
      ToSampleOfInteger(frame[k]);
    }
    assert rounded == frame[..n];
  }

  /** Then cleaning changes nothing. */
  lemma {:induction false} NothingToClean<S(!new)>(pipe: Pipeline<S>, s: S, up: seq<byte>)
    requires pipe.size > 0 && ReturnsFrames(pipe) && |up| % 2 == 0
    ensures pipe.CleanedAll(s, up) == up
    decreases |up|
  {
    hide Encode;
    var size := pipe.size;
    if |up| >= 2 * size {
      var head := up[..2 * size];
      var (next, processed) := pipe.step(s, Unpack(head));
      CleaningUnfolds(pipe, s, up);
      NothingToClean(pipe, next, up[2 * size..]);
      hide Pipeline.CleanedAll;
      EncodedFrame(processed, Unpack(head), size);
      PackUnpack(head);
      assert Unpack(head)[..size] == Unpack(head);
      CutAt(up, 2 * size);
    } else if up != [] {
      var samples := Unpack(up);
      var frame := samples + Padding(size - |samples|);
      PaddingLength(size - |samples|);
      assert frame[..|samples|] == samples;
      EncodedFrame(pipe.step(s, frame).1, frame, |samples|);
      PackUnpack(up);
      assert pipe.CleanedAll(s, up) == [] + up;
    }
  }

  /** So the whole reducer only resamples to 48 kHz and back, and at 48 kHz hands every sample through. */
  lemma NothingToDenoise<S(!new)>(pipe: Pipeline<S>, rate: Rate, s: S, mono: seq<byte>)
    requires pipe.size > 0 && ReturnsFrames(pipe)
    ensures pipe.OutAll(rate, s, mono)
         == Finished(pipe.bank, RNNOISE_RATE, rate, Finished(pipe.bank, rate, RNNOISE_RATE, mono))
    ensures rate == RNNOISE_RATE && |mono| % 2 == 0 ==> pipe.OutAll(rate, s, mono) == mono
  {
    hide Pipeline.CleanedAll;
    NothingToClean(pipe, s, pipe.UpAll(rate, mono));
  }

  lemma HandsThrough<S(!new)>(pipe: Pipeline<S>, s: S, fmt: AudioFormat, data: seq<byte>)
    requires pipe.size > 0 && ReturnsFrames(pipe)
    requires fmt.Positive() && fmt.IsPcm16() && fmt.FrameSize() > 0 && fmt.sampleRate == RNNOISE_RATE
    ensures pipe.OutAll(fmt.sampleRate, s, MonoOf(fmt, data)) == MonoOf(fmt, data)
  {
    hide Pipeline.OutAll, MonoOf;
    MonoLength(fmt, data);
    NothingToDenoise(pipe, fmt.sampleRate, s, MonoOf(fmt, data));
  }

  /* ---------- lengths ---------- */

  /** The denoiser returns at least a frame for a frame. */
  ghost predicate FullFrames<S(!new)>(pipe: Pipeline<S>) {
    forall s: S, frame: seq<int16> :: |frame| == pipe.size ==> |pipe.step(s, frame).1| >= pipe.size
  }

  lemma {:induction false} CleanedLength<S(!new)>(pipe: Pipeline<S>, s: S, up: seq<byte>)
    requires pipe.size > 0 && FullFrames(pipe)
    ensures |pipe.Cleaned(s, up)| + |pipe.Left(up)| == |up|
    decreases |up|
  {
    if |up| >= 2 * pipe.size {
      CleanedLength(pipe, pipe.step(s, Unpack(up[..2 * pipe.size])).0, up[2 * pipe.size..]);
    }
  }

  lemma {:induction false} PaddingLength(n: nat)
    ensures |Padding(n)| == n
  {
    if n > 0 { PaddingLength(n - 1); }
  }

  lemma CleanedAllLength<S(!new)>(pipe: Pipeline<S>, s: S, up: seq<byte>)
    requires pipe.size > 0 && FullFrames(pipe) && |up| % 2 == 0
    ensures |pipe.CleanedAll(s, up)| == |up|
  {
    CleanedLength(pipe, s, up);
    assert up + [] == up && pipe.Left(up) + [] == pipe.Left(up);
    pipe.LeftIsEven(up, []);
    PaddingLength(pipe.size - |Unpack(pipe.Left(up))|);
  }

  /** `n` mono samples come back as `There(Back(n))` samples. */
  function RoundTripCount(n: nat, rate: Rate): nat {
    TargetCount(TargetCount(n, rate, RNNOISE_RATE), RNNOISE_RATE, rate)
  }

  lemma OutAllLength<S(!new)>(pipe: Pipeline<S>, rate: Rate, s: S, mono: seq<byte>)
    requires pipe.size > 0 && FullFrames(pipe)
    ensures |pipe.OutAll(rate, s, mono)| == 2 * RoundTripCount(|mono| / 2, rate)
  {
    var up := pipe.UpAll(rate, mono);
    FinishedLength(pipe.bank, rate, RNNOISE_RATE, mono);
    CleanedAllLength(pipe, s, up);
    FinishedLength(pipe.bank, RNNOISE_RATE, rate, pipe.CleanedAll(s, up));
  }

  /** Going up and back down loses at most one sample, and none exactly when `rate` divides n * 48000. */
  lemma RoundTripBounds(n: nat, rate: Rate)
    requires rate <= RNNOISE_RATE
    ensures n - 1 <= RoundTripCount(n, rate) <= n
    ensures RoundTripCount(n, rate) == n <==> n * RNNOISE_RATE % rate == 0
  {
    var u, rem := n * RNNOISE_RATE / rate, n * RNNOISE_RATE % rate;
    DivideParts(n * RNNOISE_RATE, rate);
    BelowQuotient(n, u * rate, RNNOISE_RATE);
    BelowQuotient(n - 1, u * rate, RNNOISE_RATE);
    BelowQuotient(n - 2, u * rate, RNNOISE_RATE);
  }

  lemma DivisorLosesNothing(n: nat, rate: Rate)
    requires RNNOISE_RATE % rate == 0
    ensures RoundTripCount(n, rate) == n
  {
    var q := RNNOISE_RATE / rate;
    DivideParts(RNNOISE_RATE, rate);
    assert n * RNNOISE_RATE == (n * q) * rate by { assert RNNOISE_RATE == q * rate; Regroup(n, q, rate); }
    DivisionIsUnique(n * RNNOISE_RATE, n * q, 0, rate);
    if rate > RNNOISE_RATE { DivisionIsUnique(RNNOISE_RATE, 0, RNNOISE_RATE, rate); }
    RoundTripBounds(n, rate);
  }

  lemma Regroup(a: int, b: int, c: int)
    ensures a * (b * c) == (a * b) * c
  {
  }

  /** Bytes of `frames` complete frames become twice as many mono bytes as there are frames. */
  lemma {:induction false} ChunkCount<T>(s: seq<T>, unit: nat)
    requires unit > 0
    ensures |Chunks(s, unit)| == |s| / unit
    decreases |s|
  {
    if |s| < unit {
      DivisionIsUnique(|s|, 0, |s|, unit);
    } else {
      ChunkCount(s[unit..], unit);
      var q, r := (|s| - unit) / unit, (|s| - unit) % unit;
      assert |s| == (q + 1) * unit + r;
      DivisionIsUnique(|s|, q + 1, r, unit);
    }
  }

  lemma MonoLength(fmt: AudioFormat, data: seq<byte>)
    requires fmt.Positive() && fmt.IsPcm16() && fmt.FrameSize() > 0
    ensures |MonoOf(fmt, data)| == 2 * (|data| / fmt.FrameSize())
  {
    var size := fmt.FrameSize();
    WholeThenRest(data, size);
    LeftoverIsRemainder(|data|, size);
    var whole := Whole(data, size);
    var q := |data| / size;
    assert |whole| == q * size;
    if fmt.channels != 1 {
      ChunkCount(whole, size);
      DivisionIsUnique(|whole|, q, 0, size);
    }
  }

  /**
   * End to end: with N complete input frames at a rate of at most 48 kHz, the denoised stream has
   * N or N - 1 samples, and exactly N when the rate divides 48000.
   */
  lemma StreamLength<S(!new)>(pipe: Pipeline<S>, s0: S, fmt: AudioFormat, data: seq<byte>)
    requires pipe.size > 0 && FullFrames(pipe)
    requires fmt.Positive() && fmt.IsPcm16() && fmt.FrameSize() > 0 && fmt.sampleRate <= RNNOISE_RATE
    ensures var frames := |data| / fmt.FrameSize();
            var samples := |pipe.OutAll(fmt.sampleRate, s0, MonoOf(fmt, data))| / 2;
            && frames - 1 <= samples <= frames
            && (samples == frames <==> frames * RNNOISE_RATE % fmt.sampleRate == 0)
            && (RNNOISE_RATE % fmt.sampleRate == 0 ==> samples == frames)
  {
    var frames := |data| / fmt.FrameSize();
    MonoLength(fmt, data);
    OutAllLength(pipe, fmt.sampleRate, s0, MonoOf(fmt, data));
    RoundTripBounds(frames, fmt.sampleRate);
    if RNNOISE_RATE % fmt.sampleRate == 0 { DivisorLosesNothing(frames, fmt.sampleRate); }
  }
}
