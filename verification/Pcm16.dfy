/** PCM16 bytes and samples: packing, rounding, downmixing and frame alignment. */
module Pcm16 {
  import opened Prelude

  type int16 = x: int | -32768 <= x < 32768

  /* ---------- little-endian packing ---------- */

  function LowByte(x: int16): byte { (if x < 0 then x + 65536 else x) % 256 }

  function HighByte(x: int16): byte { (if x < 0 then x + 65536 else x) / 256 }

  function Sample(lo: byte, hi: byte): int16 {
    var u := hi * 256 + lo;
    if u >= 32768 then u - 65536 else u
  }

  function Pack(s: seq<int16>): (b: seq<byte>)
    ensures |b| == 2 * |s| && |b| % 2 == 0
  {
    if s == [] then [] else [LowByte(s[0]), HighByte(s[0])] + Pack(s[1..])
  }

  /** The samples of `b`; an odd last byte is not one. */
  function Unpack(b: seq<byte>): (s: seq<int16>)
    ensures |s| == |b| / 2
  {
    if |b| < 2 then [] else [Sample(b[0], b[1])] + Unpack(b[2..])
  }

  lemma {:induction false} PackUnpack(b: seq<byte>)
    requires |b| % 2 == 0
    ensures Pack(Unpack(b)) == b
  {
    if b != [] {
      PackUnpack(b[2..]);
      assert Unpack(b)[1..] == Unpack(b[2..]);
    }
  }

  lemma {:induction false} UnpackPack(s: seq<int16>)
    ensures Unpack(Pack(s)) == s
  {
    if s != [] {
      UnpackPack(s[1..]);
      SampleOfBytes(s[0]);
      assert Pack(s)[2..] == Pack(s[1..]);
    }
  }

  lemma SampleOfBytes(x: int16)
    ensures Sample(LowByte(x), HighByte(x)) == x
  {
  }

  lemma {:induction false} PackAppend(a: seq<int16>, b: seq<int16>)
    ensures Pack(a + b) == Pack(a) + Pack(b)
  {
    if a == [] {
      assert a + b == b;
    } else {
      PackAppend(a[1..], b);
      assert (a + b)[1..] == a[1..] + b;
      Associative([LowByte(a[0]), HighByte(a[0])], Pack(a[1..]), Pack(b));
    }
  }

  lemma {:induction false} UnpackAppend(a: seq<byte>, b: seq<byte>)
    requires |a| % 2 == 0
    ensures Unpack(a + b) == Unpack(a) + Unpack(b)
  {
    if a == [] {
      assert a + b == b;
    } else {
      UnpackAppend(a[2..], b);
      assert (a + b)[2..] == a[2..] + b;
      Associative([Sample(a[0], a[1])], Unpack(a[2..]), Unpack(b));
    }
  }

  /** The bytes of a sample are its value modulo 2^16, low byte first. */
  lemma {:induction false} PackIsLittleEndian(s: seq<int16>, k: nat)
    requires k < |s|
    ensures var lo: int, hi: int := Pack(s)[2 * k], Pack(s)[2 * k + 1];
            lo == s[k] % 256 && (lo + 256 * hi - s[k] as int) % 65536 == 0
  {
    if k > 0 {
      PackIsLittleEndian(s[1..], k - 1);
    }
  }

  lemma {:induction false} UnpackAt(b: seq<byte>, k: nat)
    requires 2 * k + 1 < |b|
    ensures k < |Unpack(b)| && Unpack(b)[k] == Sample(b[2 * k], b[2 * k + 1])
  {
    if k > 0 {
      UnpackAt(b[2..], k - 1);
    }
  }

  /** Samples are where their bytes are. */
  lemma UnpackCut(b: seq<byte>, i: nat, j: nat)
    requires i <= j && 2 * j <= |b|
    ensures j <= |Unpack(b)| && Unpack(b)[i..j] == Unpack(b[2 * i..2 * j])
  {
    hide Unpack, Sample;
    var cut := b[2 * i..2 * j];
    forall k | 0 <= k < j - i ensures Unpack(b)[i + k] == Unpack(cut)[k] {
      UnpackAt(b, i + k);
      UnpackAt(cut, k);
    }
  }

  /* ---------- rounding ---------- */

  function Clip16(n: int): int16 { if n < -32768 then -32768 else if n > 32767 then 32767 else n }

  function ToSample(v: real): int16 { Clip16(RoundHalfEven(v)) }

  /** Integers, and only the nearest representable sample, survive rounding. */
  lemma ToSampleOfInteger(n: int16)
    ensures ToSample(n as real) == n
  {
  }

  function Distance(n: int, v: real): real { if n as real >= v then n as real - v else v - n as real }

  /** No 16-bit sample is closer to `v`. */
  ghost predicate Nearest(n: int16, v: real) { forall m: int16 :: Distance(n, v) <= Distance(m, v) }

  /** Rounding and clipping take the nearest sample there is, and the even one of two. */
  lemma ToSampleIsNearest(v: real)
    ensures Nearest(ToSample(v), v)
    ensures -32768.0 <= v <= 32767.0 ==> Distance(ToSample(v), v) <= 0.5
    ensures -32768.0 <= v <= 32767.0 && Distance(ToSample(v), v) == 0.5 ==> ToSample(v) % 2 == 0
  {
    hide RoundHalfEven;
    var n, c := RoundHalfEven(v), ToSample(v);
    assert -32768.0 <= v <= 32767.0 ==> c == n;
    forall m: int16 ensures Distance(c, v) <= Distance(m, v) {
      NoIntegerCloser(v, m);
    }
  }

  lemma NoIntegerCloser(v: real, m: int16)
    ensures Distance(ToSample(v), v) <= Distance(m, v)
  {
    hide RoundHalfEven;
    var n := RoundHalfEven(v);
    if n < m {
      assert n as real + 1.0 <= m as real;
    } else if m < n {
      assert m as real + 1.0 <= n as real;
    }
  }

  /* ---------- downmixing ---------- */

  function Sum(s: seq<int16>): int {
    if s == [] then 0 else Sum(s[..|s| - 1]) + s[|s| - 1]
  }

  /** The rounded average of the samples of a frame. */
  function Average(frame: seq<int16>): int16 {
    if frame == [] then 0 else ToSample(Sum(frame) as real / |frame| as real)
  }

  function AverageOfBytes(frame: seq<byte>): int16 {
    Average(Unpack(frame))
  }

  /** Mono bytes of every complete frame; mono input passes through untouched. */
  function Mono(data: seq<byte>, channels: nat): seq<byte>
    requires channels > 0
  {
    if channels == 1 then data else Pack(Map(AverageOfBytes, Chunks(data, 2 * channels)))
  }

  /** `to_mono`; a bad channel count is an error, not a precondition. */
  method ToMono(data: seq<byte>, channels: int) returns (r: Result<seq<byte>, string>)
    ensures channels <= 0 ==> r == Err("channels must be positive")
    ensures channels > 0 ==> r == Ok(Mono(data, channels))
  {
    if channels <= 0 { return Err("channels must be positive"); }
    if channels == 1 { return Ok(data); }
    var mono := MapFrames(data, 2 * channels, AverageOfBytes);
    return Ok(Pack(mono));
  }

  lemma NextFrame(i: nat, n: nat, frameSize: nat)
    requires frameSize > 0
    ensures (i + 1) * frameSize == i * frameSize + frameSize
    ensures i < n / frameSize <==> i * frameSize + frameSize <= n
  {
    BelowQuotient(i, n, frameSize);
    assert (i + 1) * frameSize == i * frameSize + frameSize;
  }

  /** The frame loop of `to_mono`, for any way of treating one frame. */
  method MapFrames(data: seq<byte>, frameSize: nat, average: seq<byte> -> int16) returns (mono: seq<int16>)
    requires frameSize > 0
    ensures mono == Map(average, Chunks(data, frameSize))
  {
    var numFrames := |data| / frameSize;
    mono := [];
    var offset := 0;
    ghost var done: seq<seq<byte>> := [];
    for i := 0 to numFrames
      invariant offset == i * frameSize <= |data|
      invariant Chunks(data, frameSize) == done + Chunks(data[offset..], frameSize)
      invariant mono == Map(average, done)
    {
      NextFrame(i, |data|, frameSize);
      var frame := data[offset..offset + frameSize];
      assert data[offset..][..frameSize] == frame;
      assert data[offset..][frameSize..] == data[offset + frameSize..];
      MapAppend(average, done, [frame]);
      mono := mono + [average(frame)];
      done := done + [frame];
      offset := offset + frameSize;
    }
    NextFrame(numFrames, |data|, frameSize);
    assert done + [] == done;
  }

  /** Downmixing frame-aligned pieces one after the other is downmixing the whole. */
  lemma MonoAppend(a: seq<byte>, b: seq<byte>, channels: nat)
    requires channels > 0 && Leftover(|a|, 2 * channels) == 0
    ensures Mono(a + b, channels) == Mono(a, channels) + Mono(b, channels)
  {
    if channels != 1 {
      ChunksAppend(a, b, 2 * channels);
      var ca, cb := Chunks(a, 2 * channels), Chunks(b, 2 * channels);
      MapAppend(AverageOfBytes, ca, cb);
      PackAppend(Map(AverageOfBytes, ca), Map(AverageOfBytes, cb));
    }
  }

  /** Adding up is additive, so a frame's channels count once each. */
  lemma {:induction false} SumAppend(a: seq<int16>, b: seq<int16>)
    ensures Sum(a + b) == Sum(a) + Sum(b)
    ensures |a| == 1 ==> Sum(a) == a[0]
  {
    if |a| == 1 {
      assert Sum(a[..0]) == 0;
    }
    if b == [] {
      assert a + b == a;
    } else {
      assert (a + b)[..|a + b| - 1] == a + b[..|b| - 1];
      SumAppend(a, b[..|b| - 1]);
    }
  }

  lemma {:induction false} ChunkAt<T>(s: seq<T>, unit: nat, k: nat, at: nat)
    requires unit > 0 && at == k * unit && at + unit <= |s|
    ensures k < |Chunks(s, unit)| && Chunks(s, unit)[k] == s[at..at + unit]
    decreases k
  {
    if k > 0 {
      OneLess(k, unit, at);
      ChunkAt(s[unit..], unit, k - 1, at - unit);
    }
  }

  lemma OneLess(k: nat, unit: nat, at: nat)
    requires k > 0 && at == k * unit
    ensures at >= unit && at - unit == (k - 1) * unit
  {
    MulMonotone(1, k, unit);
  }

  /** Sample `k` of the downmix is the nearest to the average of the channels of frame `k`. */
  lemma MonoAt(data: seq<byte>, channels: nat, k: nat)
    requires channels > 1 && k * (2 * channels) + 2 * channels <= |data|
    ensures k < |Unpack(Mono(data, channels))| && 0 <= k * channels && k * channels + channels <= |Unpack(data)|
    ensures var frame := Unpack(data)[k * channels..k * channels + channels];
            Nearest(Unpack(Mono(data, channels))[k], Sum(frame) as real / channels as real)
  {
    hide Sum, ToSample, Nearest, Unpack, Pack, Chunks, Map;
    var unit, chunks, first := 2 * channels, Chunks(data, 2 * channels), k * channels;
    Twice(k, channels);
    ChunkAt(data, unit, k, 2 * first);
    UnpackCut(data, first, first + channels);
    MapAt(AverageOfBytes, chunks, k);
    UnpackPack(Map(AverageOfBytes, chunks));
    ToSampleIsNearest(Sum(Unpack(chunks[k])) as real / channels as real);
  }

  lemma Twice(k: nat, n: nat)
    ensures k * (2 * n) == 2 * (k * n) && 0 <= k * n
  {
  }

  lemma {:induction false} SumOfConstant(s: seq<int16>, x: int16)
    requires forall k :: 0 <= k < |s| ==> s[k] == x
    ensures Sum(s) == |s| * x
  {
    if s != [] {
      SumOfConstant(s[..|s| - 1], x);
      assert |s| * x == (|s| - 1) * x + x;
    }
  }

  /** A frame whose channels agree downmixes to the common sample. */
  lemma AverageOfEqualChannels(frame: seq<int16>, x: int16)
    requires frame != [] && forall k :: 0 <= k < |frame| ==> frame[k] == x
    ensures Average(frame) == x
  {
    hide ToSample, Sum;
    SumOfConstant(frame, x);
    QuotientOfProduct(|frame| as real, x as real);
    assert Sum(frame) as real == |frame| as real * x as real;
    ToSampleOfInteger(x);
  }

  lemma QuotientOfProduct(n: real, x: real)
    requires n != 0.0
    ensures n * x / n == x
  {
  }

  /* ---------- alignment of split frames ---------- */

  datatype AudioFormat = AudioFormat(sampleRate: nat, channels: nat, sampleWidth: nat, encoding: string) {
    /** What `AudioFormat.__post_init__` guarantees of every value. */
    ghost predicate Positive() { sampleRate > 0 && channels > 0 && sampleWidth > 0 }

    function FrameSize(): nat { channels * sampleWidth }

    predicate IsPcm16() { encoding == "pcm" && sampleWidth == 2 }
  }

  lemma FrameSizePositive(fmt: AudioFormat)
    requires fmt.Positive()
    ensures fmt.FrameSize() > 0
  {
  }

  /** Carries an incomplete source frame from one chunk to the next. */
  class AudioFrameAligner {
    var carry: seq<byte>
    var carryFormat: Option<AudioFormat>
    // The format of the chunks since it last changed, and every byte in them.
    ghost var fedFormat: Option<AudioFormat>
    ghost var fed: seq<byte>

    ghost predicate Valid()
      reads this
    {
      && carryFormat == (if carry == [] then None else fedFormat)
      && match fedFormat
         case None => carry == []
         case Some(fmt) => fmt.Positive() && fmt.FrameSize() > 0 && carry == Rest(fed, fmt.FrameSize())
    }

    constructor ()
      ensures Valid() && carry == [] && fedFormat == None
    {
      carry, carryFormat, fedFormat, fed := [], None, None, [];
    }

    /**
     * However a stream of one format is cut, what comes out is its whole frames and the carry is the
     * rest of it; a format change drops the carry.
     */
    method Align(data: seq<byte>, fmt: AudioFormat) returns (out: seq<byte>)
      requires Valid() && fmt.Positive()
      modifies this
      ensures Valid() && fmt.FrameSize() > 0 && fedFormat == Some(fmt)
      ensures fed == (if old(fedFormat) == Some(fmt) then old(fed) else []) + data
      ensures carry == Rest(fed, fmt.FrameSize())
      ensures (if old(fedFormat) == Some(fmt) then Whole(old(fed), fmt.FrameSize()) else []) + out == Whole(fed, fmt.FrameSize())
    {
      hide Rest, Whole;
      FrameSizePositive(fmt);
      if carryFormat != Some(fmt) {
        DropCarry();
      }
      if fedFormat != Some(fmt) {
        fed := [];
        NothingCarried(fmt.FrameSize());
      }
      WholeOfAppend(fed, data, fmt.FrameSize());
      out := Cut(carry + data, fmt);
      fed, fedFormat := fed + data, Some(fmt);
    }

    method Cut(data: seq<byte>, fmt: AudioFormat) returns (out: seq<byte>)
      requires fmt.FrameSize() > 0
      modifies `carry, `carryFormat
      ensures out == Whole(data, fmt.FrameSize()) && carry == Rest(data, fmt.FrameSize())
      ensures carryFormat == if carry == [] then None else Some(fmt)
    {
      var remainder := |data| % fmt.FrameSize();
      LeftoverIsRemainder(|data|, fmt.FrameSize());
      WholeThenRest(data, fmt.FrameSize());
      if remainder != 0 {
        carry := data[|data| - remainder..];
        carryFormat := Some(fmt);
        out := data[..|data| - remainder];
      } else {
        DropCarry();
        out := data;
      }
    }

    method DropCarry()
      modifies `carry, `carryFormat
      ensures carry == [] && carryFormat == None
    {
      carry, carryFormat := [], None;
    }

    /** An explicit stream boundary: nothing that came before is completed later. */
    method Reset()
      modifies `carry, `carryFormat, `fedFormat
      ensures Valid() && carry == [] && fedFormat == None
    {
      DropCarry();
      fedFormat := None;
    }
  }

  lemma NothingCarried(unit: nat)
    requires unit > 0
    ensures Rest<byte>([], unit) == [] && Whole<byte>([], unit) == []
  {
  }
}
