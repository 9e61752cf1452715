/**
 * The bounded audio send log of src/easycat/_turn_context.py, the base into which evicted entries are
 * folded, and the estimate of heard bytes that src/easycat/session/interruption.py reads off both.
 *
 * Times are in seconds and durations in milliseconds, as exact reals. The clock is a parameter.
 */
module TurnLog {
  import opened Prelude

  datatype Entry = Entry(time: real, size: int, duration: real) {
    /** It takes playout time but carries no bytes: the eviction counts its time, the reader skips it. */
    predicate Silent() { size <= 0 && duration > 0.0 }
  }

  datatype Base = Base(bytes: int, start: Option<real>, cursor: Option<real>)

  function StartOf(cursor: Option<real>, e: Entry): real {
    if cursor.Some? && cursor.value > e.time then cursor.value else e.time
  }

  /* ---------- folding ---------- */

  /** The playout cursor after `e`, as the eviction moves it and as the reader does. */
  function Played(cursor: Option<real>, e: Entry): Option<real> {
    if e.duration <= 0.0 then cursor else Some(StartOf(cursor, e) + e.duration / 1000.0)
  }

  function Read(cursor: Option<real>, e: Entry): Option<real> {
    if e.size <= 0 then cursor else Played(cursor, e)
  }

  function PlayedAll(cursor: Option<real>, es: seq<Entry>): Option<real> {
    if es == [] then cursor else Played(PlayedAll(cursor, es[..|es| - 1]), es[|es| - 1])
  }

  function ReadAll(cursor: Option<real>, es: seq<Entry>): Option<real> {
    if es == [] then cursor else Read(ReadAll(cursor, es[..|es| - 1]), es[|es| - 1])
  }

  function Bytes(es: seq<Entry>): int { if es == [] then 0 else Bytes(es[..|es| - 1]) + es[|es| - 1].size }

  function Counted(es: seq<Entry>): nat { if es == [] then 0 else Counted(es[..|es| - 1]) + Max(es[|es| - 1].size, 0) }

  function Playtime(es: seq<Entry>): real {
    if es == [] then 0.0
    else Playtime(es[..|es| - 1]) + if es[|es| - 1].duration <= 0.0 then 0.0 else es[|es| - 1].duration / 1000.0
  }

  /** `_record_audio_send_log_eviction`. */
  function Evicted(b: Base, e: Entry): Base {
    var b' := b.(bytes := b.bytes + Max(e.size, 0));
    if e.duration <= 0.0 then b'
    else
      var start := StartOf(b.cursor, e);
      Base(b'.bytes, if b.start == None then Some(start) else b.start, Some(start + e.duration / 1000.0))
  }

  function EvictedAll(es: seq<Entry>): Base {
    if es == [] then Base(0, None, None) else Evicted(EvictedAll(es[..|es| - 1]), es[|es| - 1])
  }

  /* ---------- the log ---------- */

  class TurnContext {
    const maxlen: nat
    var audioBytesSent: int
    var log: seq<Entry>
    var base: Base
    var bytesSinceLastMark: int
    // The entries that fell out of the log, and all there ever were.
    ghost var evicted: seq<Entry>
    ghost var history: seq<Entry>

    /** The log is the end of the history, and the base is the fold of what came before it. */
    ghost predicate Valid()
      reads this
    {
      && maxlen > 0 && |log| <= maxlen && history == evicted + log && (evicted != [] ==> |log| == maxlen)
      && base == EvictedAll(evicted) && audioBytesSent == Bytes(history)
    }

    constructor (maxlen: nat)
      requires maxlen > 0
      ensures Valid() && history == [] && this.maxlen == maxlen
    {
      this.maxlen, audioBytesSent, log, base, bytesSinceLastMark := maxlen, 0, [], Base(0, None, None), 0;
      evicted, history := [], [];
    }

    method RecordAudioSent(now: real, size: int, duration: real)
      requires Valid()
      modifies this
      ensures Valid() && history == old(history) + [Entry(now, size, duration)]
      ensures bytesSinceLastMark == old(bytesSinceLastMark) + size
    {
      var e := Entry(now, size, duration);
      audioBytesSent := audioBytesSent + size;
      if |log| == maxlen {
        RecordEviction(log[0]);
        assert [log[0]] + log[1..] == log;
        Associative(evicted, [log[0]], log[1..]);
        evicted := evicted + [log[0]];
        log := log[1..];
      }
      Associative(evicted, log, [e]);
      LastOf(history, e);
      log := log + [e];
      history := history + [e];
      bytesSinceLastMark := bytesSinceLastMark + size;
    }

    method RecordEviction(e: Entry)
      modifies `base
      ensures base == Evicted(old(base), e)
      ensures forall es :: old(base) == EvictedAll(es) ==> base == EvictedAll(es + [e])
    {
      forall es ensures EvictedAll(es + [e]) == Evicted(EvictedAll(es), e) {
        assert (es + [e])[..|es|] == es;
      }
      base := base.(bytes := base.bytes + Max(e.size, 0));
      if e.duration <= 0.0 { return; }
      var startTime := e.time;
      if base.cursor.Some? && base.cursor.value > startTime {
        startTime := base.cursor.value;
      }
      if base.start == None {
        base := base.(start := Some(startTime));
      }
      base := base.(cursor := Some(startTime + e.duration / 1000.0));
    }
  }

  lemma LastOf(history: seq<Entry>, e: Entry)
    ensures Bytes(history + [e]) == Bytes(history) + e.size
  {
  }

  /* ---------- nothing is lost ---------- */

  lemma {:induction false} BytesAppend(a: seq<Entry>, b: seq<Entry>)
    ensures Bytes(a + b) == Bytes(a) + Bytes(b) && Counted(a + b) == Counted(a) + Counted(b)
  {
    if b == [] {
      assert a + b == a;
    } else {
      assert (a + b)[..|a + b| - 1] == a + b[..|b| - 1];
      BytesAppend(a, b[..|b| - 1]);
    }
  }

  lemma {:induction false} CursorAppend(c: Option<real>, a: seq<Entry>, b: seq<Entry>)
    ensures PlayedAll(c, a + b) == PlayedAll(PlayedAll(c, a), b) && ReadAll(c, a + b) == ReadAll(ReadAll(c, a), b)
  {
    if b == [] {
      assert a + b == a;
    } else {
      assert (a + b)[..|a + b| - 1] == a + b[..|b| - 1];
      CursorAppend(c, a, b[..|b| - 1]);
    }
  }

  lemma {:induction false} BaseIs(es: seq<Entry>)
    ensures EvictedAll(es).bytes == Counted(es) && EvictedAll(es).cursor == PlayedAll(None, es)
    ensures EvictedAll(es).start.Some? <==> EvictedAll(es).cursor.Some?
  {
    if es != [] {
      BaseIs(es[..|es| - 1]);
    }
  }

  predicate NoneNegative(es: seq<Entry>) { forall i :: 0 <= i < |es| ==> es[i].size >= 0 }

  lemma NoneNegativeBut(es: seq<Entry>)
    requires es != []
    ensures NoneNegative(es) <==> NoneNegative(es[..|es| - 1]) && es[|es| - 1].size >= 0
  {
  }

  lemma {:induction false} CountedIsBytes(es: seq<Entry>)
    ensures Counted(es) >= Bytes(es)
    ensures Counted(es) == Bytes(es) <==> NoneNegative(es)
  {
    if es != [] {
      CountedIsBytes(es[..|es| - 1]);
      NoneNegativeBut(es);
    }
  }

  /** Base bytes and retained bytes are the bytes sent, exactly when no evicted entry had a negative size. */
  lemma BytesAreConserved(t: TurnContext)
    requires t.Valid()
    ensures t.base.bytes + Bytes(t.log) == t.audioBytesSent <==> NoneNegative(t.evicted)
  {
    BytesAppend(t.evicted, t.log);
    BaseIs(t.evicted);
    CountedIsBytes(t.evicted);
  }

  /** Continuing the eviction's cursor over the retained entries is the cursor of the unbounded history. */
  lemma CursorContinues(t: TurnContext)
    requires t.Valid()
    ensures PlayedAll(t.base.cursor, t.log) == PlayedAll(None, t.history)
  {
    BaseIs(t.evicted);
    CursorAppend(None, t.evicted, t.log);
  }

  /** The folded cursor leaves room for everything that was evicted. */
  lemma {:induction false} CursorCoversPlaytime(es: seq<Entry>)
    ensures var b := EvictedAll(es);
            if b.cursor.Some? then b.start.Some? && b.cursor.value >= b.start.value + Playtime(es) else Playtime(es) == 0.0
  {
    if es != [] {
      BaseIs(es[..|es| - 1]);
      CursorCoversPlaytime(es[..|es| - 1]);
    }
  }

  lemma {:induction false} PlaytimeAppend(a: seq<Entry>, b: seq<Entry>)
    ensures Playtime(a + b) == Playtime(a) + Playtime(b)
    ensures |b| == 1 ==> Playtime(b) * 1000.0 == if b[0].duration > 0.0 then b[0].duration else 0.0
  {
    if |b| == 1 {
      assert Playtime(b[..0]) == 0.0;
    }
    if b == [] {
      assert a + b == a;
    } else {
      assert (a + b)[..|a + b| - 1] == a + b[..|b| - 1];
      PlaytimeAppend(a, b[..|b| - 1]);
    }
  }

  /** When playout would end if entry `i` and everything after it played without a break from its sending on. */
  function FinishFrom(es: seq<Entry>, i: nat): real
    requires i < |es|
  {
    es[i].time + Playtime(es[i..])
  }

  lemma FinishMoves(es: seq<Entry>, e: Entry, i: nat)
    requires i < |es|
    ensures FinishFrom(es + [e], i) == FinishFrom(es, i) + Playtime([e])
  {
    assert (es + [e])[i..] == es[i..] + [e];
    PlaytimeAppend(es[i..], [e]);
  }

  /** The playout cursor is the latest of these ends, over the entries that take time; none of them, no cursor. */
  ghost predicate LatestFinish(es: seq<Entry>, cursor: Option<real>) {
    && (cursor == None <==> forall i :: 0 <= i < |es| ==> es[i].duration <= 0.0)
    && (cursor.Some? ==>
          && (forall i :: 0 <= i < |es| && es[i].duration > 0.0 ==> FinishFrom(es, i) <= cursor.value)
          && exists i :: 0 <= i < |es| && es[i].duration > 0.0 && FinishFrom(es, i) == cursor.value)
  }

  lemma {:induction false} CursorIsLatestFinish(es: seq<Entry>)
    ensures LatestFinish(es, EvictedAll(es).cursor)
  {
    BaseIs(es);
    if es != [] {
      var first, last := es[..|es| - 1], es[|es| - 1];
      assert es == first + [last];
      BaseIs(first);
      CursorIsLatestFinish(first);
      LaterFinish(first, last, PlayedAll(None, first));
    }
  }

  lemma LaterFinish(es: seq<Entry>, e: Entry, cursor: Option<real>)
    requires LatestFinish(es, cursor)
    ensures LatestFinish(es + [e], Played(cursor, e))
  {
    hide FinishFrom, Playtime;
    var more, n := es + [e], |es|;
    forall i | 0 <= i < n ensures FinishFrom(more, i) == FinishFrom(es, i) + Playtime([e]) {
      FinishMoves(es, e, i);
    }
    PlaytimeAppend([], [e]);
    LastFinish(es, e);
    if e.duration > 0.0 {
      assert more[n] == e;
      if cursor.Some? && cursor.value > e.time {
        var i :| 0 <= i < n && es[i].duration > 0.0 && FinishFrom(es, i) == cursor.value;
        assert more[i].duration > 0.0 && FinishFrom(more, i) == Played(cursor, e).value;
      } else {
        assert FinishFrom(more, n) == Played(cursor, e).value;
      }
    } else if cursor.Some? {
      var i :| 0 <= i < n && es[i].duration > 0.0 && FinishFrom(es, i) == cursor.value;
      assert more[i].duration > 0.0 && FinishFrom(more, i) == cursor.value;
    }
    forall i | 0 <= i < |more| && more[i].duration > 0.0
      ensures Played(cursor, e).Some? && FinishFrom(more, i) <= Played(cursor, e).value
    {
      assert i < n ==> more[i] == es[i];
    }
  }

  lemma LastFinish(es: seq<Entry>, e: Entry)
    ensures FinishFrom(es + [e], |es|) == e.time + Playtime([e])
  {
    assert (es + [e])[|es|..] == [e];
  }

  lemma StartAfter(es: seq<Entry>, e: Entry)
    ensures var before := EvictedAll(es);
            EvictedAll(es + [e]).start == if before.start.Some? || e.duration <= 0.0 then before.start
                                          else Some(StartOf(before.cursor, e))
  {
    assert (es + [e])[..|es|] == es;
  }

  /** And the base starts when its first entry that takes time was sent. */
  lemma {:induction false} BaseStartsWithFirst(es: seq<Entry>)
    ensures match EvictedAll(es).start
            case None => forall i :: 0 <= i < |es| ==> es[i].duration <= 0.0
            case Some(start) =>
              exists i :: 0 <= i < |es| && es[i].duration > 0.0 && es[i].time == start
                          && forall j :: 0 <= j < i ==> es[j].duration <= 0.0
  {
    if es != [] {
      var first, last := es[..|es| - 1], es[|es| - 1];
      assert es == first + [last];
      BaseStartsWithFirst(first);
      BaseIs(first);
      StartAfter(first, last);
      hide EvictedAll;
      if EvictedAll(first).start.Some? {
        var i :| 0 <= i < |first| && first[i].duration > 0.0 && first[i].time == EvictedAll(first).start.value
                 && forall j :: 0 <= j < i ==> first[j].duration <= 0.0;
        assert es[i] == first[i];
      } else if last.duration > 0.0 {
        assert es[|es| - 1] == last;
      }
    }
  }

  /* ---------- the reader ---------- */

  /** No entry takes time without carrying bytes. */
  predicate NoneSilent(es: seq<Entry>) { forall i :: 0 <= i < |es| ==> !es[i].Silent() }

  lemma {:induction false} SameCursor(c: Option<real>, es: seq<Entry>)
    requires NoneSilent(es)
    ensures PlayedAll(c, es) == ReadAll(c, es)
  {
    if es != [] {
      SameCursor(c, es[..|es| - 1]);
    }
  }

  /** A cursor beyond every send time. */
  function Beyond(es: seq<Entry>): (c: real) {
    if es == [] then 0.0
    else
      var c := Beyond(es[..|es| - 1]);
      if c >= es[|es| - 1].time then c else es[|es| - 1].time
  }

  lemma NoneSilentBut(es: seq<Entry>)
    requires es != []
    ensures NoneSilent(es) <==> NoneSilent(es[..|es| - 1]) && !es[|es| - 1].Silent()
  {
  }

  lemma {:induction false} LateCursors(c: real, es: seq<Entry>)
    requires c >= Beyond(es)
    ensures PlayedAll(Some(c), es).Some? && ReadAll(Some(c), es).Some?
    ensures PlayedAll(Some(c), es).value >= ReadAll(Some(c), es).value >= c
    ensures !NoneSilent(es) ==> PlayedAll(Some(c), es).value > ReadAll(Some(c), es).value
  {
    if es != [] {
      var first := es[..|es| - 1];
      LateCursors(c, first);
      NoneSilentBut(es);
    }
  }

  /**
   * The reader, which skips entries without bytes, and the eviction, which does not, move every cursor
   * alike exactly when no entry takes time without carrying bytes.
   */
  lemma ReaderAndEvictionAgree(es: seq<Entry>)
    ensures (forall c :: PlayedAll(c, es) == ReadAll(c, es)) <==> NoneSilent(es)
  {
    if NoneSilent(es) {
      forall c ensures PlayedAll(c, es) == ReadAll(c, es) {
        SameCursor(c, es);
      }
    } else {
      LateCursors(Beyond(es), es);
      assert PlayedAll(Some(Beyond(es)), es) != ReadAll(Some(Beyond(es)), es);
    }
  }

  /** A silent entry that is evicted delays what the reader thinks is still playing. */
  lemma SilentEntryDiverges(e: Entry)
    requires e.Silent()
    ensures EvictedAll([e]).cursor == Some(e.time + e.duration / 1000.0) && ReadAll(None, [e]) == None
  {
    var first: seq<Entry> := [];
    assert [e][..0] == first;
  }

  /* ---------- entries the audio router makes ---------- */

  /** `AudioChunk.duration_ms` of `size` bytes: whole frames over the sample rate. */
  function ChunkDuration(size: nat, frameSize: nat, sampleRate: nat): real
    requires frameSize > 0 && sampleRate > 0
  {
    (size / frameSize) as real / sampleRate as real * 1000.0
  }

  /** The entry is for a chunk of audio in some format. */
  ghost predicate OfChunk(e: Entry) {
    e.size >= 0 && exists frameSize: nat, sampleRate: nat ::
      frameSize > 0 && sampleRate > 0 && e.duration == ChunkDuration(e.size, frameSize, sampleRate)
  }

  /** A duration derived from the size is positive only for a positive size, and never negative. */
  lemma ChunksAreNotSilent(e: Entry)
    requires OfChunk(e)
    ensures !e.Silent() && e.duration >= 0.0
  {
    var frameSize: nat, sampleRate: nat :|
      frameSize > 0 && sampleRate > 0 && e.duration == ChunkDuration(e.size, frameSize, sampleRate);
    var q := e.size / frameSize;
    if e.size == 0 {
      DivisionIsUnique(0, 0, 0, frameSize);
      assert (0 as real) / sampleRate as real * 1000.0 == 0.0;
    }
  }

  lemma ChunkLogsAreNotSilent(es: seq<Entry>)
    requires forall i :: 0 <= i < |es| ==> OfChunk(es[i])
    ensures NoneSilent(es) && NoneNegative(es)
  {
    forall i | 0 <= i < |es| ensures !es[i].Silent() && es[i].size >= 0 {
      ChunksAreNotSilent(es[i]);
    }
  }

  /** `int(size * part / whole)`. */
  function Share(size: nat, part: real, whole: real): int
    requires whole > 0.0
  {
    (size as real * (part / whole)).Floor
  }

  /** Bytes of one entry heard by `cutoff` when its playout starts at `start`. */
  function HeardOf(e: Entry, start: real, cutoff: real): int {
    if e.size <= 0 then 0
    else if e.duration <= 0.0 then (if start <= cutoff then e.size else 0)
    else
      var elapsed := (cutoff - start) * 1000.0;
      if elapsed <= 0.0 then 0
      else if elapsed >= e.duration then e.size
      else Share(e.size, elapsed, e.duration)
  }

  function Heard(c: Option<real>, es: seq<Entry>, cutoff: real): int {
    if es == [] then 0
    else
      var before := ReadAll(c, es[..|es| - 1]);
      Heard(c, es[..|es| - 1], cutoff) + HeardOf(es[|es| - 1], StartOf(before, es[|es| - 1]), cutoff)
  }

  /** `_send_log_base_heard_bytes`; without a cutoff everything counts. */
  function BaseHeard(b: Base, cutoff: Option<real>): int {
    if cutoff == None || b.start == None || b.cursor == None || cutoff.value >= b.cursor.value then Max(b.bytes, 0)
    else if cutoff.value <= b.start.value then 0
    else if b.cursor.value - b.start.value <= 0.0 then Max(b.bytes, 0)
    else Share(Max(b.bytes, 0), cutoff.value - b.start.value, b.cursor.value - b.start.value)
  }

  function LogHeard(c: Option<real>, es: seq<Entry>, cutoff: Option<real>): int {
    if cutoff == None then Counted(es) else Heard(c, es, cutoff.value)
  }

  function Clamp(x: real, hi: real): real { if x <= 0.0 then 0.0 else if x >= hi then hi else x }

  /** `n` is the largest whole number of bytes that `part` out of `whole` makes of `size`. */
  predicate IsShare(n: int, size: int, part: real, whole: real) {
    n as real * whole <= part * size as real < (n + 1) as real * whole
  }

  lemma FloorIsShare(size: nat, part: real, whole: real)
    requires whole > 0.0
    ensures IsShare(Share(size, part, whole), size, part, whole)
  {
    var x, n := size as real * (part / whole), Share(size, part, whole);
    assert n as real <= x < n as real + 1.0;
    Scaled(n as real, x, whole);
    Scaled(x, n as real + 1.0, whole);
    Reordered(size as real, part / whole, whole);
    QuotientTimes(part, whole);
    assert (n + 1) as real == n as real + 1.0;
  }

  lemma QuotientTimes(part: real, whole: real)
    requires whole > 0.0
    ensures part / whole * whole == part
  {
  }

  lemma Reordered(size: real, q: real, whole: real)
    ensures (size * q) * whole == (q * whole) * size
  {
  }

  lemma WholeIsShare(size: int, whole: real)
    requires whole > 0.0
    ensures IsShare(size, size, whole, whole)
  {
    assert (size + 1) as real == size as real + 1.0;
  }

  lemma Scaled(x: real, y: real, k: real)
    requires k > 0.0
    ensures x <= y ==> x * k <= y * k
    ensures x < y ==> x * k < y * k
  {
    if x < y {
      assert (y - x) * k > 0.0;
      assert (y - x) * k == y * k - x * k;
    }
  }

  /** Of an entry that takes time, the bytes heard are the share of it that has played, by the millisecond. */
  lemma HeardIsShare(e: Entry, start: real, cutoff: real)
    ensures e.size <= 0 ==> HeardOf(e, start, cutoff) == 0
    ensures e.size > 0 && e.duration <= 0.0 ==> HeardOf(e, start, cutoff) == if cutoff < start then 0 else e.size
    ensures e.size > 0 && e.duration > 0.0 ==>
              IsShare(HeardOf(e, start, cutoff), e.size, Clamp((cutoff - start) * 1000.0, e.duration), e.duration)
  {
    hide IsShare, Share;
    if e.size > 0 && e.duration > 0.0 {
      var elapsed := (cutoff - start) * 1000.0;
      NoShare(e.size, e.duration);
      FloorIsShare(e.size, elapsed, e.duration);
      WholeIsShare(e.size, e.duration);
    }
  }

  lemma NoShare(size: int, whole: real)
    requires whole > 0.0
    ensures IsShare(0, size, 0.0, whole)
  {
  }

  /** Of the evicted audio, all without a cutoff or a playing time, else the share that lies before the cutoff. */
  lemma BaseHeardIsShare(b: Base, cutoff: Option<real>)
    ensures cutoff == None || b.start == None || b.cursor == None ==> BaseHeard(b, cutoff) == Max(b.bytes, 0)
    ensures cutoff.Some? && b.start.Some? && b.cursor.Some? && b.start.value < b.cursor.value ==>
              var span := b.cursor.value - b.start.value;
              IsShare(BaseHeard(b, cutoff), Max(b.bytes, 0), Clamp(cutoff.value - b.start.value, span), span)
  {
    hide IsShare, Share;
    if cutoff.Some? && b.start.Some? && b.cursor.Some? && b.start.value < b.cursor.value {
      var span := b.cursor.value - b.start.value;
      NoShare(Max(b.bytes, 0), span);
      FloorIsShare(Max(b.bytes, 0), cutoff.value - b.start.value, span);
      WholeIsShare(Max(b.bytes, 0), span);
    }
  }

  /** `_audio_bytes_likely_heard`. */
  method AudioBytesLikelyHeard(log: seq<Entry>, base: Base, cutoff: Option<real>) returns (heard: int)
    ensures heard == BaseHeard(base, cutoff) + LogHeard(base.cursor, log, cutoff)
  {
    heard := BaseHeard(base, cutoff);
    if log == [] { return; }
    if cutoff == None {
      var all := SumOfSizes(log);
      return heard + all;
    }
    var cursor := base.cursor;
    for i := 0 to |log|
      invariant cursor == ReadAll(base.cursor, log[..i])
      invariant heard == BaseHeard(base, cutoff) + Heard(base.cursor, log[..i], cutoff.value)
    {
      assert log[..i + 1][..i] == log[..i];
      var e := log[i];
      if e.size <= 0 { continue; }
      var startTime := StartOf(cursor, e);
      heard := heard + HeardOf(e, startTime, cutoff.value);
      if e.duration > 0.0 {
        cursor := Some(startTime + e.duration / 1000.0);
      }
    }
    assert log[..|log|] == log;
  }

  method SumOfSizes(log: seq<Entry>) returns (sum: nat)
    ensures sum == Counted(log)
  {
    sum := 0;
    for i := 0 to |log|
      invariant sum == Counted(log[..i])
    {
      assert log[..i + 1][..i] == log[..i];
      sum := sum + Max(log[i].size, 0);
    }
    assert log[..|log|] == log;
  }

  lemma {:induction false} HeardAppend(c: Option<real>, a: seq<Entry>, b: seq<Entry>, cutoff: real)
    ensures Heard(c, a + b, cutoff) == Heard(c, a, cutoff) + Heard(ReadAll(c, a), b, cutoff)
  {
    if b == [] {
      assert a + b == a;
    } else {
      assert (a + b)[..|a + b| - 1] == a + b[..|b| - 1];
      HeardAppend(c, a, b[..|b| - 1], cutoff);
      CursorAppend(c, a, b[..|b| - 1]);
    }
  }

  lemma CursorOnlyGrows(c: Option<real>, e: Entry)
    requires Read(c, e).Some? && c.Some?
    ensures Read(c, e).value >= c.value
  {
  }

  /** What takes no time to play had been sent by `cutoff`. */
  ghost predicate InstantsPast(es: seq<Entry>, cutoff: real) {
    forall i :: 0 <= i < |es| && es[i].duration <= 0.0 ==> es[i].time <= cutoff
  }

  /** Audio whose playout has ended by `cutoff` has been heard in full. */
  lemma {:induction false} EndedIsHeard(es: seq<Entry>, cutoff: real)
    requires ReadAll(None, es).Some? ==> ReadAll(None, es).value <= cutoff
    requires InstantsPast(es, cutoff)
    ensures Heard(None, es, cutoff) == Counted(es)
  {
    if es != [] {
      var first, last := es[..|es| - 1], es[|es| - 1];
      if ReadAll(None, first).Some? && ReadAll(None, es).Some? {
        CursorOnlyGrows(ReadAll(None, first), last);
      }
      EndedIsHeard(first, cutoff);
    }
  }

  /**
   * For a cutoff after the evicted audio has been sent and played, or none, the bounded log with its base
   * gives the very estimate the unbounded log would, provided nothing evicted was silent.
   */
  lemma EstimateLosesNothing(t: TurnContext, cutoff: Option<real>)
    requires t.Valid() && NoneSilent(t.evicted)
    requires cutoff.Some? && t.base.cursor.Some? ==> t.base.cursor.value <= cutoff.value
    requires cutoff.Some? ==> InstantsPast(t.evicted, cutoff.value)
    ensures BaseHeard(t.base, cutoff) + LogHeard(t.base.cursor, t.log, cutoff) == LogHeard(None, t.history, cutoff)
  {
    BaseIs(t.evicted);
    SameCursor(None, t.evicted);
    BytesAppend(t.evicted, t.log);
    if cutoff.Some? {
      EndedIsHeard(t.evicted, cutoff.value);
      HeardAppend(None, t.evicted, t.log, cutoff.value);
    }
  }

  /** A log of audio chunks, which is all the router ever writes, loses nothing: neither bytes nor the estimate. */
  lemma ChunkLogLosesNothing(t: TurnContext, cutoff: Option<real>)
    requires t.Valid() && forall i :: 0 <= i < |t.history| ==> OfChunk(t.history[i])
    requires cutoff.Some? && t.base.cursor.Some? ==> t.base.cursor.value <= cutoff.value
    requires cutoff.Some? ==> InstantsPast(t.evicted, cutoff.value)
    ensures t.base.bytes + Bytes(t.log) == t.audioBytesSent
    ensures BaseHeard(t.base, cutoff) + LogHeard(t.base.cursor, t.log, cutoff) == LogHeard(None, t.history, cutoff)
    ensures ReadAll(t.base.cursor, t.log) == ReadAll(None, t.history)
  {
    forall i | 0 <= i < |t.evicted| ensures OfChunk(t.evicted[i]) {
      assert t.evicted[i] == t.history[i];
    }
    ChunkLogsAreNotSilent(t.evicted);
    BytesAreConserved(t);
    EstimateLosesNothing(t, cutoff);
    BaseIs(t.evicted);
    SameCursor(None, t.evicted);
    CursorAppend(None, t.evicted, t.log);
  }
}
