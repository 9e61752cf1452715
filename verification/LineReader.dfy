/**
 * The incremental universal-newline reader of src/easycat/push_to_talk.py and the push-to-talk loop
 * it drives.
 */
module LineReader {
  import opened Prelude

  const CR: byte := 13
  const LF: byte := 10

  /* ---------- what a line is ---------- */

  /** Whether byte `i` ends a line: a CR does, and so does an LF that is not the other half of a CR LF. */
  predicate EndsLine(bytes: seq<byte>, i: nat)
    requires i < |bytes|
  {
    bytes[i] == CR || (bytes[i] == LF && !(i > 0 && bytes[i - 1] == CR))
  }

  /** The positions at which a line of `bytes` ends. */
  function LineEnds(bytes: seq<byte>): set<nat> { set i: nat | i < |bytes| && EndsLine(bytes, i) }

  /** The bytes after the last line end. */
  function Tail(bytes: seq<byte>): seq<byte> {
    if bytes == [] || bytes[|bytes| - 1] == CR || bytes[|bytes| - 1] == LF then []
    else Tail(bytes[..|bytes| - 1]) + [bytes[|bytes| - 1]]
  }

  predicate EndsInCr(bytes: seq<byte>) { bytes != [] && bytes[|bytes| - 1] == CR }

  /** Lines in `bytes` when the byte before them was a CR or was not. */
  function Count(bytes: seq<byte>, afterCr: bool): nat {
    if bytes == [] then 0
    else (if bytes[0] == CR || (bytes[0] == LF && !afterCr) then 1 else 0) + Count(bytes[1..], bytes[0] == CR)
  }

  lemma {:induction false} CountAppend(a: seq<byte>, b: seq<byte>, afterCr: bool)
    ensures Count(a + b, afterCr) == Count(a, afterCr) + Count(b, if a == [] then afterCr else EndsInCr(a))
  {
    if a == [] {
      assert a + b == b;
    } else {
      assert (a + b)[1..] == a[1..] + b;
      CountAppend(a[1..], b, a[0] == CR);
    }
  }

  /** Counting byte by byte finds exactly the line ends. */
  lemma {:induction false} CountIsLineEnds(bytes: seq<byte>)
    ensures Count(bytes, false) == |LineEnds(bytes)|
  {
    if bytes != [] {
      var first, last := bytes[..|bytes| - 1], |bytes| - 1;
      CountIsLineEnds(first);
      CountAppend(first, [bytes[last]], false);
      assert first + [bytes[last]] == bytes;
      LineEndsSnoc(bytes);
      hide LineEnds;
    }
  }

  lemma LineEndsSnoc(bytes: seq<byte>)
    requires bytes != []
    ensures var last := |bytes| - 1;
            && LineEnds(bytes) == LineEnds(bytes[..last]) + (if EndsLine(bytes, last) then {last} else {})
            && last !in LineEnds(bytes[..last])
  {
    var last := |bytes| - 1;
    forall i: nat | i < last ensures EndsLine(bytes, i) <==> EndsLine(bytes[..last], i) {
    }
  }

  predicate Plain(bytes: seq<byte>) { forall j :: 0 <= j < |bytes| ==> bytes[j] != CR && bytes[j] != LF }

  lemma {:induction false} PlainCountsNothing(bytes: seq<byte>, afterCr: bool)
    requires Plain(bytes)
    ensures Count(bytes, afterCr) == 0
  {
    if bytes != [] {
      PlainCountsNothing(bytes[1..], false);
    }
  }

  /** Plain bytes and one terminator are one line, unless the terminator is a LF that an earlier CR claims. */
  lemma OneLine(plain: seq<byte>, ended: seq<byte>, afterCr: bool)
    requires Plain(plain) && (ended == [CR] || ended == [LF] || ended == [CR, LF])
    requires plain == [] && afterCr ==> ended[0] != LF
    ensures Count(plain + ended, afterCr) == 1
  {
    PlainCountsNothing(plain, afterCr);
    CountAppend(plain, ended, afterCr);
    Terminator(ended, if plain == [] then afterCr else EndsInCr(plain));
  }

  lemma Terminator(ended: seq<byte>, afterCr: bool)
    requires ended == [CR] || ended == [LF] || ended == [CR, LF]
    requires afterCr ==> ended[0] != LF
    ensures Count(ended, afterCr) == 1
  {
    if ended == [CR, LF] {
      assert ended[1..] == [LF] && Count([LF], true) == 0 + Count([LF][1..], false);
    }
  }

  lemma {:induction false} TailOfPlain(p: seq<byte>, bytes: seq<byte>)
    requires Plain(bytes)
    ensures Tail(p + bytes) == Tail(p) + bytes
  {
    if bytes == [] {
      assert p + bytes == p;
    } else {
      assert (p + bytes)[..|p + bytes| - 1] == p + bytes[..|bytes| - 1];
      TailOfPlain(p, bytes[..|bytes| - 1]);
    }
  }

  /** The whole lines of `bytes`. */
  function Before(bytes: seq<byte>): seq<byte> {
    if bytes == [] || bytes[|bytes| - 1] == CR || bytes[|bytes| - 1] == LF then bytes
    else Before(bytes[..|bytes| - 1])
  }

  /** The tail is plain, and everything before it is whole lines. */
  lemma {:induction false} TailIsPlain(bytes: seq<byte>)
    ensures Plain(Tail(bytes)) && Before(bytes) + Tail(bytes) == bytes && Tail(Before(bytes)) == []
  {
    if bytes == [] || bytes[|bytes| - 1] == CR || bytes[|bytes| - 1] == LF {
      assert bytes + [] == bytes;
    } else {
      var first, last := bytes[..|bytes| - 1], [bytes[|bytes| - 1]];
      TailIsPlain(first);
      Associative(Before(first), Tail(first), last);
    }
  }

  lemma BeforeHasTheLines(bytes: seq<byte>)
    ensures Count(Before(bytes), false) == Count(bytes, false)
  {
    TailIsPlain(bytes);
    var p := Before(bytes);
    CountAppend(p, Tail(bytes), false);
    PlainCountsNothing(Tail(bytes), if p == [] then false else EndsInCr(p));
  }

  lemma StartOfTail(seen: seq<byte>, data: seq<byte>)
    ensures var p, buffer := Before(seen), Tail(seen) + data;
            && p + buffer == seen + data && Tail(p) == [] && Count(p, false) == Count(seen, false)
            && (EndsInCr(seen) ==> p == seen)
            && (EndsInCr(p) && !EndsInCr(seen) ==> buffer != [] && buffer[0] != LF)
  {
    TailIsPlain(seen);
    BeforeHasTheLines(seen);
    Associative(Before(seen), Tail(seen), data);
    if Tail(seen) == [] {
      assert Before(seen) == seen;
    } else {
      assert (Tail(seen) + data)[0] == Tail(seen)[0];
    }
  }

  lemma SwallowedLf(p: seq<byte>, buffer: seq<byte>)
    requires EndsInCr(p) && buffer != [] && buffer[0] == LF
    ensures p + [LF] + buffer[1..] == p + buffer && Tail(p + [LF]) == [] && Count(p + [LF], false) == Count(p, false)
  {
    assert [LF] + buffer[1..] == buffer;
    Associative(p, [LF], buffer[1..]);
    CountAppend(p, [LF], false);
  }

  lemma RestIsTail(p: seq<byte>, buffer: seq<byte>)
    requires Tail(p) == [] && Plain(buffer) && buffer != []
    ensures Tail(p + buffer) == buffer && Count(p + buffer, false) == Count(p, false) && !EndsInCr(p + buffer)
  {
    TailOfPlain(p, buffer);
    CountAppend(p, buffer, false);
    PlainCountsNothing(buffer, if p == [] then false else EndsInCr(p));
    assert [] + buffer == buffer;
  }

  lemma NextLine(p: seq<byte>, buffer: seq<byte>, index: nat, end: nat)
    requires index < end <= |buffer| && Plain(buffer[..index]) && (buffer[index] == CR || buffer[index] == LF)
    requires end == index + 1 || (end == index + 2 && buffer[index] == CR && buffer[index + 1] == LF)
    requires EndsInCr(p) ==> buffer[0] != LF
    ensures p + buffer[..end] + buffer[end..] == p + buffer
    ensures Tail(p + buffer[..end]) == [] && Count(p + buffer[..end], false) == Count(p, false) + 1
    ensures EndsInCr(p + buffer[..end]) <==> buffer[end - 1] == CR
    ensures Lines(Count(p + buffer[..end], false)) == Lines(Count(p, false)) + [Line]
  {
    assert buffer[..end] + buffer[end..] == buffer;
    Associative(p, buffer[..end], buffer[end..]);
    assert buffer[..end] == buffer[..index] + buffer[index..end];
    OneLine(buffer[..index], buffer[index..end], if p == [] then false else EndsInCr(p));
    CountAppend(p, buffer[..end], false);
  }

  method Find(buffer: seq<byte>, b: byte) returns (index: int)
    ensures -1 <= index < |buffer| && (index >= 0 ==> buffer[index] == b)
    ensures forall j :: 0 <= j < (if index < 0 then |buffer| else index) ==> buffer[j] != b
  {
    for i := 0 to |buffer|
      invariant forall j :: 0 <= j < i ==> buffer[j] != b
    {
      if buffer[i] == b { return i; }
    }
    return -1;
  }

  /** `_find_line_end`. */
  method FindLineEnd(buffer: seq<byte>) returns (index: int)
    ensures -1 <= index < |buffer|
    ensures index < 0 ==> Plain(buffer)
    ensures index >= 0 ==> (buffer[index] == CR || buffer[index] == LF) && Plain(buffer[..index])
  {
    var cr := Find(buffer, CR);
    var lf := Find(buffer, LF);
    if cr < 0 { return lf; }
    if lf < 0 { return cr; }
    return Min(cr, lf);
  }

  /* ---------- the reader ---------- */

  datatype Item = Line | Eof | Failure(error: nat)

  function Lines(n: nat): (s: seq<Item>)
    ensures |s| == n
  {
    if n == 0 then [] else Lines(n - 1) + [Line]
  }

  datatype ReadResult = Data(bytes: seq<byte>) | WouldBlock | ReadError(error: nat)

  class SelectorLineReader {
    var buffer: seq<byte>
    var skipLf: bool
    var pending: seq<Item>
    var registered: bool
    // Every byte read, and every item handed out by `Read`.
    ghost var seen: seq<byte>
    ghost var taken: seq<Item>

    ghost function Published(): seq<Item>
      reads `taken, `pending
    {
      taken + pending
    }

    /** One line has been published for every line end seen; what follows the last one is kept. */
    ghost predicate Valid()
      reads this
    {
      && buffer == Tail(seen) && skipLf == EndsInCr(seen)
      && Published() == Lines(Count(seen, false))
    }

    constructor (adopted: seq<byte>)
      ensures Valid() && registered && seen == adopted && taken == []
    {
      buffer, skipLf, pending, registered, seen, taken := adopted, false, [], true, [], [];
      new;
      assert [] + adopted == adopted;
      PublishCompleteLines(adopted);
    }

    /** How far the loop below has come: `p` has been consumed, as whole lines, and each has been published. */
    ghost predicate Consumed(p: seq<byte>, all: seq<byte>)
      reads this
    {
      && p + buffer == all && Tail(p) == [] && Published() == Lines(Count(p, false))
      && (skipLf ==> EndsInCr(p))
      && (!skipLf && EndsInCr(p) ==> buffer != [] && buffer[0] != LF)
    }

    method PublishCompleteLines(ghost data: seq<byte>)
      requires Published() == Lines(Count(seen, false)) && skipLf == EndsInCr(seen) && buffer == Tail(seen) + data
      modifies `buffer, `skipLf, `pending, `seen
      ensures Valid() && seen == old(seen) + data
    {
      hide Tail, Count, Lines, Before;
      ghost var p := Before(seen);
      StartOfTail(seen, data);
      seen := seen + data;
      while buffer != []
        invariant seen == old(seen) + data && Consumed(p, seen)
        decreases |buffer|
      {
        if skipLf {
          skipLf := false;
          if buffer[0] == LF {
            SwallowedLf(p, buffer);
            p := p + [LF];
            buffer := buffer[1..];
            continue;
          }
        }
        var found;
        found, p := PublishLine(p);
        if !found { return; }
      }
      assert p + buffer == p;
    }

    /** One line out of the buffer, unless what is left of it is an unterminated tail. */
    method PublishLine(ghost p: seq<byte>) returns (found: bool, ghost q: seq<byte>)
      requires Consumed(p, seen) && buffer != [] && !skipLf
      modifies `buffer, `skipLf, `pending
      ensures found ==> Consumed(q, seen) && |buffer| < |old(buffer)|
      ensures !found ==> Valid()
    {
      hide Tail, Count, Lines, Plain;
      q := p;
      var index := FindLineEnd(buffer);
      if index < 0 {
        RestIsTail(p, buffer);
        return false, q;
      }
      var end := EndOfLine(index);
      NextLine(p, buffer, index, end);
      q := p + buffer[..end];
      buffer := buffer[end..];
      Publish(Line);
      found := true;
    }

    /** Where the line that ends at `index` stops: a LF that is already there belongs to its CR. */
    method EndOfLine(index: nat) returns (end: nat)
      requires index < |buffer| && (buffer[index] == CR || buffer[index] == LF) && !skipLf
      modifies `skipLf
      ensures index < end <= |buffer|
      ensures end == index + 1 || (end == index + 2 && buffer[index] == CR && buffer[index + 1] == LF)
      ensures skipLf ==> buffer[end - 1] == CR
      ensures !skipLf && buffer[end - 1] == CR ==> end < |buffer| && buffer[end] != LF
    {
      end := index + 1;
      if buffer[index] == CR {
        if end < |buffer| {
          if buffer[end] == LF { end := end + 1; }
        } else {
          skipLf := true;
        }
      }
    }

    method Publish(item: Item)
      modifies `pending
      ensures pending == old(pending) + [item] && Published() == old(Published()) + [item]
    {
      Associative(taken, pending, [item]);
      pending := pending + [item];
    }

    /** One readiness callback; only a registered descriptor has them. */
    method OnReadable(result: ReadResult)
      requires Valid() && registered
      modifies this
      ensures taken == old(taken)
      ensures match result
              case WouldBlock => Valid() && registered && seen == old(seen) && pending == old(pending)
              case ReadError(e) =>
                !registered && seen == old(seen) && Published() == Lines(Count(seen, false)) + [Failure(e)]
              case Data(bytes) =>
                && (bytes != [] ==> seen == old(seen) + bytes && Valid() && registered)
                && (bytes == [] ==> seen == old(seen) && !registered && Published() == Lines(LinesAtEof(seen)) + [Eof])
    {
      match result
      case WouldBlock =>
      case ReadError(e) =>
        registered := false;
        Publish(Failure(e));
      case Data(bytes) =>
        if bytes == [] {
          registered := false;
          if buffer != [] {
            buffer := [];
            Publish(Line);
          }
          Publish(Eof);
        } else {
          buffer := buffer + bytes;
          PublishCompleteLines(bytes);
        }
    }

    /** `read`, for a caller that does not wait when nothing is pending. */
    method Read() returns (item: Option<Item>)
      modifies `pending, `taken
      ensures Published() == old(Published())
      ensures item == if old(pending) == [] then None else Some(old(pending)[0])
      ensures item.Some? ==> taken == old(taken) + [item.value] && pending == old(pending)[1..]
      ensures item == None ==> taken == old(taken) && pending == old(pending)
    {
      if pending == [] { return None; }
      item := Some(pending[0]);
      assert [pending[0]] + pending[1..] == pending;
      Associative(taken, [pending[0]], pending[1..]);
      taken := taken + [pending[0]];
      pending := pending[1..];
    }
  }

  /** Lines in all, once the input has ended: an unterminated last line counts too. */
  function LinesAtEof(bytes: seq<byte>): nat { Count(bytes, false) + if Tail(bytes) == [] then 0 else 1 }

  /* ---------- whole inputs ---------- */

  /** The bytes read before the stream ended, and how it ended if it did. */
  datatype Input = Input(bytes: seq<byte>, end: Option<ReadResult>)

  function JoinOne(input: Input, result: ReadResult): Input {
    if input.end.Some? || result == WouldBlock then input
    else if result.Data? && result.bytes != [] then input.(bytes := input.bytes + result.bytes)
    else input.(end := Some(result))
  }

  function Joined(adopted: seq<byte>, results: seq<ReadResult>): Input {
    if results == [] then Input(adopted, None)
    else JoinOne(Joined(adopted, results[..|results| - 1]), results[|results| - 1])
  }

  lemma JoinedStep(adopted: seq<byte>, results: seq<ReadResult>, i: nat)
    requires i < |results|
    ensures Joined(adopted, results[..i + 1]) == JoinOne(Joined(adopted, results[..i]), results[i])
  {
    assert results[..i + 1][..i] == results[..i];
  }

  /** What the reader reports about an input, however it was cut. */
  function Report(input: Input): seq<Item> {
    match input.end
    case None => Lines(Count(input.bytes, false))
    case Some(ReadError(e)) => Lines(Count(input.bytes, false)) + [Failure(e)]
    case Some(_) => Lines(LinesAtEof(input.bytes)) + [Eof]
  }

  /* ---------- against the reader it replaces ---------- */

  /** Universal newlines: a CR LF and a bare CR read as a LF. */
  function Translated(bytes: seq<byte>): seq<byte> {
    if bytes == [] then []
    else if |bytes| >= 2 && bytes[0] == CR && bytes[1] == LF then [LF] + Translated(bytes[2..])
    else [if bytes[0] == CR then LF else bytes[0]] + Translated(bytes[1..])
  }

  function LineFeeds(text: seq<byte>): nat {
    if text == [] then 0 else (if text[0] == LF then 1 else 0) + LineFeeds(text[1..])
  }

  /** How often `readline()` returns a line before it reports the end: an unterminated last line is one. */
  function ReadLines(text: seq<byte>): nat {
    if text == [] then 0 else if text[0] == LF || |text| == 1 then 1 + ReadLines(text[1..]) else ReadLines(text[1..])
  }

  lemma EmptyTail(bytes: seq<byte>)
    ensures Tail(bytes) == [] <==> bytes == [] || bytes[|bytes| - 1] == CR || bytes[|bytes| - 1] == LF
  {
  }

  lemma AfterCr(bytes: seq<byte>)
    requires bytes != [] ==> bytes[0] != LF
    ensures Count(bytes, true) == Count(bytes, false)
  {
  }

  lemma {:induction false} TranslatedEmpty(bytes: seq<byte>)
    ensures Translated(bytes) == [] <==> bytes == []
  {
  }

  /** The reader counts the lines that text reading with universal newlines finds, while open and at the end. */
  lemma {:induction false} CountsLikeReadline(bytes: seq<byte>)
    ensures Count(bytes, false) == LineFeeds(Translated(bytes)) && LinesAtEof(bytes) == ReadLines(Translated(bytes))
  {
    hide Tail;
    EmptyTail(bytes);
    if bytes != [] {
      var n := if |bytes| >= 2 && bytes[0] == CR && bytes[1] == LF then 2 else 1;
      var rest := bytes[n..];
      CountsLikeReadline(rest);
      EmptyTail(rest);
      TranslatedEmpty(rest);
      assert Translated(bytes)[1..] == Translated(rest);
      if n == 2 {
        assert bytes[1..][1..] == rest;
      } else if bytes[0] == CR {
        AfterCr(rest);
      }
    }
  }

  /** What is published: that many lines, and then how the input ended. */
  lemma ReportsLikeReadline(input: Input)
    ensures var text := Translated(input.bytes);
            match input.end
            case None => Report(input) == Lines(LineFeeds(text))
            case Some(ReadError(e)) => Report(input) == Lines(LineFeeds(text)) + [Failure(e)]
            case Some(_) => Report(input) == Lines(ReadLines(text)) + [Eof]
    ensures LineCount(input) == if input.end.Some? && !input.end.value.ReadError? then ReadLines(Translated(input.bytes))
            else LineFeeds(Translated(input.bytes))
  {
    CountsLikeReadline(input.bytes);
  }

  predicate Ends(result: ReadResult) { result.ReadError? || result == Data([]) }

  /** The data of some reads, joined. */
  function AllData(results: seq<ReadResult>): seq<byte> {
    if results == [] then []
    else AllData(results[..|results| - 1]) + if results[|results| - 1].Data? then results[|results| - 1].bytes else []
  }

  /** The input is what was read up to the first end or error, and nothing after it. */
  lemma {:induction false} JoinedIs(adopted: seq<byte>, results: seq<ReadResult>, n: nat)
    requires n <= |results| && (forall i :: 0 <= i < n ==> !Ends(results[i])) && (n < |results| ==> Ends(results[n]))
    ensures Joined(adopted, results)
         == Input(adopted + AllData(results[..n]), if n < |results| then Some(results[n]) else None)
  {
    if results == [] {
      assert adopted + [] == adopted;
    } else {
      var k := |results| - 1;
      JoinedIs(adopted, results[..k], if n <= k then n else k);
      if n <= k {
        assert results[..k][..n] == results[..n];
      } else {
        assert results[..n] == results && results[..k][..k] == results[..k];
        Associative(adopted, AllData(results[..k]), if results[k].Data? then results[k].bytes else []);
        assert adopted + AllData(results[..k]) + [] == adopted + AllData(results[..k]);
      }
    }
  }

  /** Items published after any sequence of reads depend only on the joined bytes and on how the input ended. */
  method ReadAll(adopted: seq<byte>, results: seq<ReadResult>) returns (reader: SelectorLineReader)
    ensures fresh(reader) && reader.taken == [] && reader.pending == Report(Joined(adopted, results))
  {
    hide Joined, Lines, Count, Tail;
    reader := new SelectorLineReader(adopted);
    ghost var input := Input(adopted, None);
    NothingJoined(adopted, results);
    for i := 0 to |results|
      invariant fresh(reader) && reader.taken == [] && input == Joined(adopted, results[..i])
      invariant reader.Published() == Report(input) && reader.seen == input.bytes
      invariant reader.registered <==> input.end == None
      invariant reader.registered ==> reader.Valid()
    {
      JoinedStep(adopted, results, i);
      if reader.registered {
        reader.OnReadable(results[i]);
      }
      input := JoinOne(input, results[i]);
    }
    assert results[..|results|] == results;
    assert [] + reader.pending == reader.pending;
  }

  lemma NothingJoined(adopted: seq<byte>, results: seq<ReadResult>)
    ensures Joined(adopted, results[..0]) == Input(adopted, None)
  {
  }

  /* ---------- the push-to-talk loop ---------- */

  datatype Turn = StartTurn | EndTurn

  class PushToTalkController {
    var speaking: bool
    ghost var turns: seq<Turn>

    ghost predicate Valid()
      reads this
    {
      turns == Alternating(|turns|) && speaking == (|turns| % 2 == 1)
    }

    constructor ()
      ensures Valid() && turns == []
    {
      speaking, turns := false, [];
    }

    method Toggle() returns (turn: Turn)
      requires Valid()
      modifies this
      ensures Valid() && turns == old(turns) + [turn]
    {
      turn := if speaking then EndTurn else StartTurn;
      turns := turns + [turn];
      speaking := !speaking;
    }
  }

  /** Start, end, start, end, ... */
  function Alternating(n: nat): (s: seq<Turn>)
    ensures |s| == n
  {
    if n == 0 then [] else Alternating(n - 1) + [if n % 2 == 1 then StartTurn else EndTurn]
  }

  /** Turn actions alternate, and the first one starts a turn. */
  lemma {:induction false} AlternatingAt(n: nat, k: nat)
    requires k < n
    ensures Alternating(n)[k] == if k % 2 == 0 then StartTurn else EndTurn
  {
    if k < n - 1 {
      AlternatingAt(n - 1, k);
    }
  }

  function LineCount(input: Input): nat {
    if input.end == None || input.end.value.ReadError? then Count(input.bytes, false) else LinesAtEof(input.bytes)
  }

  /** One turn action per line, strictly alternating, whatever the read boundaries. */
  method RunPushToTalk(adopted: seq<byte>, results: seq<ReadResult>) returns (turns: seq<Turn>)
    ensures turns == Alternating(LineCount(Joined(adopted, results)))
  {
    hide Alternating, Lines, Report, Joined, LineCount;
    var reader := ReadAll(adopted, results);
    var controller := new PushToTalkController();
    ghost var input := Joined(adopted, results);
    turns := [];
    NoLinesYet(input);
    while true
      invariant fresh(reader) && fresh(controller) && controller.Valid() && controller.turns == turns
      invariant reader.taken == Lines(|turns|) && reader.Published() == Report(input) && |turns| <= LineCount(input)
      decreases LineCount(input) - |turns|
    {
      NextItem(input, |turns|, reader.pending);
      var item := reader.Read();
      if item != Some(Line) { return; }
      var turn := controller.Toggle();
      turns := turns + [turn];
    }
  }

  lemma NoLinesYet(input: Input)
    ensures Lines(0) == []
  {
  }

  /** After `n` lines the next item is a line exactly while fewer than all of them have been taken. */
  lemma NextItem(input: Input, n: nat, rest: seq<Item>)
    requires Lines(n) + rest == Report(input) && n <= LineCount(input)
    ensures (rest != [] && rest[0] == Line) <==> n < LineCount(input)
    ensures Lines(n) + [Line] == Lines(n + 1)
  {
    ReportStartsWithLines(input);
    LinesOnly(LineCount(input), n);
    if rest != [] {
      assert (Lines(n) + rest)[n] == rest[0];
    }
  }

  lemma {:induction false} LinesOnly(n: nat, k: nat)
    ensures k < n ==> Lines(n)[k] == Line
  {
    if k + 1 < n {
      LinesOnly(n - 1, k);
    }
  }

  lemma ReportStartsWithLines(input: Input)
    ensures Lines(LineCount(input)) <= Report(input) && |Report(input)| <= LineCount(input) + 1
    ensures |Report(input)| == LineCount(input) + 1 ==> Report(input)[LineCount(input)] != Line
  {
  }
}
