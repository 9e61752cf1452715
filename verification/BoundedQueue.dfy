/**
 * src/easycat/_bounded_queue.py: a bounded queue with two event flags, several producers and several
 * consumers, under each of its three drop policies.
 *
 * The coroutines suspended in `put` and `get` are part of the state: `waiting` ones are parked on an
 * event, `woken` ones have been released by `Event.set()` and run when the loop gets to them, whatever
 * has happened to the flag by then. `Event.set()` releases everybody who waits.
 */
module BoundedQueue {
  import opened Prelude

  datatype DropPolicy = DropOldest | DropNewest | Block

  datatype Fate = Delivered | Flushed | Evicted

  /** A chunk that was accepted and is no longer queued, and what became of it. */
  datatype Settled<T> = Settled(chunk: T, fate: Fate)

  /** What a caller sees of one step; `Suspended` callers see the answer of a later step. */
  datatype Answer<T> =
    | Accepted(chunk: T, evicting: bool)
    | Rejected                                       // put returned False and counted a drop
    | Refused                                        // put returned False: the queue is closed
    | Got(chunk: T)
    | Empty                                          // get raised QueueEmpty
    | Cleared(chunks: seq<T>, newTurn: bool)
    | DropsReset(count: nat)
    | Suspended
    | Nothing

  function ChunksOf<T>(gone: seq<Settled<T>>): (s: seq<T>)
    ensures |s| == |gone|
  {
    if gone == [] then [] else ChunksOf(gone[..|gone| - 1]) + [gone[|gone| - 1].chunk]
  }

  /** The chunks that met `fate`, in order. */
  function Picked<T>(gone: seq<Settled<T>>, fate: Fate): seq<T> {
    if gone == [] then []
    else
      var first, last := gone[..|gone| - 1], gone[|gone| - 1];
      if last.fate == fate then Picked(first, fate) + [last.chunk] else Picked(first, fate)
  }

  function AllWith<T>(chunks: seq<T>, fate: Fate): (s: seq<Settled<T>>)
    ensures |s| == |chunks|
  {
    if chunks == [] then [] else AllWith(chunks[..|chunks| - 1], fate) + [Settled(chunks[|chunks| - 1], fate)]
  }

  lemma {:induction false} ChunksAppend<T>(a: seq<Settled<T>>, b: seq<Settled<T>>)
    ensures ChunksOf(a + b) == ChunksOf(a) + ChunksOf(b)
  {
    if b == [] {
      assert a + b == a;
    } else {
      assert (a + b)[..|a + b| - 1] == a + b[..|b| - 1];
      ChunksAppend(a, b[..|b| - 1]);
    }
  }

  lemma {:induction false} PickedAppend<T>(a: seq<Settled<T>>, b: seq<Settled<T>>, fate: Fate)
    ensures Picked(a + b, fate) == Picked(a, fate) + Picked(b, fate)
  {
    if b == [] {
      assert a + b == a;
    } else {
      assert (a + b)[..|a + b| - 1] == a + b[..|b| - 1];
      PickedAppend(a, b[..|b| - 1], fate);
    }
  }

  lemma {:induction false} AllWithChunks<T>(chunks: seq<T>, fate: Fate, other: Fate)
    ensures ChunksOf(AllWith(chunks, fate)) == chunks
    ensures Picked(AllWith(chunks, fate), other) == if other == fate then chunks else []
  {
    if chunks != [] {
      AllWithChunks(chunks[..|chunks| - 1], fate, other);
    }
  }

  /** What an answer says happened to chunks that were queued before it. */
  function Settles<T>(answer: Answer<T>, queue: seq<T>): seq<Settled<T>> {
    match answer
    case Accepted(_, evicting) => if evicting && queue != [] then [Settled(queue[0], Evicted)] else []
    case Got(chunk) => [Settled(chunk, Delivered)]
    case Cleared(chunks, _) => AllWith(chunks, Flushed)
    case _ => []
  }

  function Accepts<T>(answer: Answer<T>): seq<T> {
    if answer.Accepted? then [answer.chunk] else []
  }

  function DropsAfter<T>(drops: nat, answer: Answer<T>): nat {
    match answer
    case Accepted(_, evicting) => if evicting then drops + 1 else drops
    case Rejected => drops + 1
    case Cleared(_, newTurn) => if newTurn then 0 else drops
    case DropsReset(_) => 0
    case _ => drops
  }

  /** What has left, what is queued, and the drops counted so far. */
  datatype History<T> = History(gone: seq<Settled<T>>, queue: seq<T>, drops: nat)

  /** The suspended callers, whether they still wait or have been woken; producers with the chunk they offer. */
  datatype Callers<T> = Callers(gets: set<nat>, puts: map<nat, T>) {
    function Without(caller: nat): Callers<T> { Callers(gets - {caller}, puts - {caller}) }
  }

  class BoundedAudioQueue<T> {
    const maxSize: nat
    const policy: DropPolicy
    const patient: bool                 // block_timeout > 0
    var queue: seq<T>
    var notEmpty: bool
    var notFull: bool
    var closed: bool
    var drops: nat
    var turnId: nat
    var waitingGets: set<nat>
    var wokenGets: set<nat>
    var waitingPuts: map<nat, T>
    var wokenPuts: map<nat, T>
    // Every accepted chunk that has left the queue, in the order in which they left.
    ghost var gone: seq<Settled<T>>

    /** Every chunk ever accepted, in order. */
    ghost function EverAccepted(): seq<T>
      reads this
    {
      ChunksOf(gone) + queue
    }

    ghost predicate Valid()
      reads this
    {
      && maxSize > 0 && |queue| <= maxSize
      && (forall i :: 0 <= i < |gone| && gone[i].fate == Evicted ==> policy == DropOldest)
      && Signals()
    }

    /** The flags tell the truth while the queue is open, and nobody waits for what is already there. */
    ghost predicate Signals()
      reads this
    {
      && (!closed ==> (notFull <==> |queue| < maxSize) && (notEmpty <==> queue != []))
      && (waitingGets != {} ==> !closed && queue == [])
      && (waitingPuts != map[] ==> !closed && |queue| == maxSize)
      && (waitingPuts != map[] || wokenPuts != map[] ==> policy == Block)
      && waitingGets !! wokenGets && waitingPuts.Keys !! wokenPuts.Keys
    }

    ghost function Suspensions(): Callers<T>
      reads this
    {
      Callers(waitingGets + wokenGets, waitingPuts + wokenPuts)
    }

    /** Whoever is suspended and could go on has been woken. */
    lemma ReadyIsWoken(caller: nat)
      requires Valid()
      ensures caller in Suspensions().gets && (closed || queue != []) ==> caller in wokenGets
      ensures caller in Suspensions().puts && (closed || |queue| < maxSize) ==> caller in wokenPuts
      ensures caller in wokenPuts ==> Suspensions().puts[caller] == wokenPuts[caller]
    {
    }

    predicate IsSuspended(caller: nat)
      reads this
    {
      caller in waitingGets || caller in wokenGets || caller in waitingPuts || caller in wokenPuts
    }

    constructor (maxSize: nat, policy: DropPolicy, patient: bool)
      requires maxSize > 0
      ensures Valid() && gone == [] && queue == [] && drops == 0 && !closed && Suspensions() == Callers({}, map[])
      ensures this.maxSize == maxSize && this.policy == policy
    {
      this.maxSize, this.policy, this.patient := maxSize, policy, patient;
      queue, notEmpty, notFull, closed, drops, turnId := [], false, true, false, 0, 0;
      waitingGets, wokenGets, waitingPuts, wokenPuts, gone := {}, {}, map[], map[], [];
    }

    ghost function View(): History<T>
      reads this
    {
      History(gone, queue, drops)
    }

    /** The whole effect of a step on contents, history and drop counter, as its answer tells it. */
    ghost predicate Answered(before: History<T>, answer: Answer<T>)
      reads this
    {
      && gone == before.gone + Settles(answer, before.queue)
      && EverAccepted() == ChunksOf(before.gone) + before.queue + Accepts(answer)
      && drops == DropsAfter(before.drops, answer)
      && (answer.Accepted? && answer.evicting ==> before.queue != [])
    }

    /* ---------- events ---------- */

    method SetNotEmpty()
      modifies `notEmpty, `waitingGets, `wokenGets
      ensures notEmpty && waitingGets == {} && wokenGets == old(wokenGets) + old(waitingGets)
      ensures waitingGets + wokenGets == old(waitingGets + wokenGets)
    {
      notEmpty := true;
      wokenGets := wokenGets + waitingGets;
      waitingGets := {};
    }

    method SetNotFull()
      requires waitingPuts.Keys !! wokenPuts.Keys
      modifies `notFull, `waitingPuts, `wokenPuts
      ensures notFull && waitingPuts == map[] && wokenPuts == old(wokenPuts) + old(waitingPuts)
      ensures waitingPuts + wokenPuts == old(waitingPuts + wokenPuts)
    {
      notFull := true;
      wokenPuts := wokenPuts + waitingPuts;
      waitingPuts := map[];
    }

    /* ---------- producers ---------- */

    method Put(caller: nat, chunk: T) returns (answer: Answer<T>)
      requires Valid() && !IsSuspended(caller)
      modifies this
      ensures Valid() && Answered(old(View()), answer)
      ensures closed == old(closed) && turnId == old(turnId)
      ensures old(closed) ==> answer == Refused
      ensures !old(closed) && |old(queue)| < maxSize ==> answer == Accepted(chunk, false)
      ensures !old(closed) && |old(queue)| == maxSize ==>
                answer == match policy
                          case DropOldest => Accepted(chunk, true)
                          case DropNewest => Rejected
                          case Block => if patient then Suspended else Rejected
      ensures answer == Suspended ==> waitingPuts == old(waitingPuts)[caller := chunk]
      ensures var was := old(Suspensions());
              Suspensions() == if answer == Suspended then was.(puts := was.puts[caller := chunk]) else was
    {
      hide ChunksOf;
      assert gone + [] == gone;
      if closed { return Refused; }
      if |queue| < maxSize {
        answer := Append(chunk);
        return;
      }
      match policy
      case DropOldest => answer := ReplaceOldest(chunk);
      case DropNewest => answer := Reject();
      case Block =>
        if !patient {
          answer := Reject();
        } else {
          // The flag is clear whenever the queue is full, so waiting on it suspends.
          Joins(waitingPuts, wokenPuts, caller, chunk);
          waitingPuts := waitingPuts[caller := chunk];
          answer := Suspended;
        }
    }

    method Append(chunk: T) returns (answer: Answer<T>)
      requires Valid() && !closed && |queue| < maxSize
      modifies `queue, `notEmpty, `notFull, `waitingGets, `wokenGets
      ensures Valid() && answer == Accepted(chunk, false)
      ensures queue == old(queue) + [chunk] && EverAccepted() == old(EverAccepted()) + [chunk]
      ensures Suspensions() == old(Suspensions())
    {
      Associative(ChunksOf(gone), queue, [chunk]);
      queue := queue + [chunk];
      SetNotEmpty();
      if |queue| >= maxSize {
        notFull := false;
      }
      answer := Accepted(chunk, false);
    }

    method ReplaceOldest(chunk: T) returns (answer: Answer<T>)
      requires Valid() && !closed && |queue| == maxSize && policy == DropOldest
      modifies `queue, `notEmpty, `drops, `waitingGets, `wokenGets, `gone
      ensures Valid() && answer == Accepted(chunk, true)
      ensures gone == old(gone) + [Settled(old(queue)[0], Evicted)] && queue == old(queue)[1..] + [chunk]
      ensures EverAccepted() == old(EverAccepted()) + [chunk] && drops == old(drops) + 1
      ensures Suspensions() == old(Suspensions())
    {
      FirstLeaves(gone, queue, Evicted);
      Associative(ChunksOf(gone + [Settled(queue[0], Evicted)]), queue[1..], [chunk]);
      gone := gone + [Settled(queue[0], Evicted)];
      queue := queue[1..] + [chunk];
      drops := drops + 1;
      SetNotEmpty();
      answer := Accepted(chunk, true);
    }

    method Reject() returns (answer: Answer<T>)
      modifies `drops
      ensures answer == Rejected && drops == old(drops) + 1
    {
      drops := drops + 1;
      return Rejected;
    }

    /** A woken producer checks again; one that lost the race waits on unless its time is up. */
    method WakePut(caller: nat, expired: bool) returns (answer: Answer<T>)
      requires Valid() && caller in wokenPuts
      modifies this
      ensures Valid() && Answered(old(View()), answer) && closed == old(closed) && turnId == old(turnId)
      ensures caller !in wokenPuts
      ensures answer == if old(closed) then Refused
                        else if |old(queue)| < maxSize then Accepted(old(wokenPuts)[caller], false)
                        else if expired then Rejected else Suspended
      ensures answer == Suspended ==> caller in waitingPuts && waitingPuts[caller] == old(wokenPuts)[caller]
      ensures var was := old(Suspensions());
              Suspensions() == if answer == Suspended then was else was.(puts := was.puts - {caller})
    {
      hide ChunksOf;
      var chunk := wokenPuts[caller];
      TakenBack(waitingPuts, wokenPuts, caller);
      assert gone + [] == gone;
      wokenPuts := wokenPuts - {caller};
      if closed { return Refused; }
      if |queue| < maxSize {
        answer := Append(chunk);
      } else if expired {
        answer := Reject();
      } else {
        waitingPuts := waitingPuts[caller := chunk];
        answer := Suspended;
      }
    }

    /** The wait of a suspended producer times out. */
    method TimeOutPut(caller: nat) returns (answer: Answer<T>)
      requires Valid() && (caller in waitingPuts || caller in wokenPuts)
      modifies `waitingPuts, `wokenPuts, `drops
      ensures Valid() && Answered(old(View()), answer) && answer == Rejected
      ensures waitingPuts == old(waitingPuts) - {caller} && wokenPuts == old(wokenPuts) - {caller}
      ensures Suspensions() == old(Suspensions()).(puts := old(Suspensions()).puts - {caller})
    {
      WithoutUnion(waitingPuts, wokenPuts, caller);
      waitingPuts, wokenPuts := waitingPuts - {caller}, wokenPuts - {caller};
      answer := Reject();
    }

    /* ---------- consumers ---------- */

    method Get(caller: nat) returns (answer: Answer<T>)
      requires Valid() && !IsSuspended(caller)
      modifies this
      ensures Valid() && Answered(old(View()), answer) && closed == old(closed) && turnId == old(turnId)
      ensures answer == if old(queue) != [] then Got(old(queue)[0]) else if closed then Empty else Suspended
      ensures answer == Suspended ==> waitingGets == old(waitingGets) + {caller}
      ensures var was := old(Suspensions());
              Suspensions() == if answer == Suspended then was.(gets := was.gets + {caller}) else was
    {
      answer := TakeOrWait(caller);
    }

    method WakeGet(caller: nat) returns (answer: Answer<T>)
      requires Valid() && caller in wokenGets
      modifies this
      ensures Valid() && Answered(old(View()), answer) && closed == old(closed) && turnId == old(turnId)
      ensures caller !in wokenGets
      ensures answer == if old(queue) != [] then Got(old(queue)[0]) else if closed then Empty else Suspended
      ensures answer == Suspended ==> caller in waitingGets
      ensures var was := old(Suspensions());
              Suspensions() == if answer == Suspended then was else was.(gets := was.gets - {caller})
    {
      wokenGets := wokenGets - {caller};
      answer := TakeOrWait(caller);
    }

    /** One pass of the loop in `get`. */
    method TakeOrWait(caller: nat) returns (answer: Answer<T>)
      requires Valid() && caller !in waitingGets && caller !in wokenGets
      modifies `queue, `notEmpty, `notFull, `waitingPuts, `wokenPuts, `waitingGets, `gone
      ensures Valid() && Answered(old(View()), answer)
      ensures answer == if old(queue) != [] then Got(old(queue)[0]) else if closed then Empty else Suspended
      ensures waitingGets == old(waitingGets) + if answer == Suspended then {caller} else {}
      ensures waitingPuts + wokenPuts == old(waitingPuts + wokenPuts)
    {
      if queue == [] {
        if closed { return Empty; }
        notEmpty := false;
        waitingGets := waitingGets + {caller};
        return Suspended;
      }
      answer := GetNowait();
    }

    method GetNowait() returns (answer: Answer<T>)
      requires Valid()
      modifies `queue, `notEmpty, `notFull, `waitingPuts, `wokenPuts, `gone
      ensures Valid() && Answered(old(View()), answer)
      ensures answer == if old(queue) != [] then Got(old(queue)[0]) else Empty
      ensures old(queue) != [] ==> queue == old(queue)[1..] && waitingPuts == map[]
      ensures Suspensions() == old(Suspensions())
    {
      hide ChunksOf;
      if queue == [] {
        assert gone + [] == gone;
        return Empty;
      }
      var chunk := queue[0];
      FirstLeaves(gone, queue, Delivered);
      gone := gone + [Settled(chunk, Delivered)];
      queue := queue[1..];
      SetNotFull();
      if queue == [] {
        notEmpty := false;
      }
      return Got(chunk);
    }

    /** The task of a suspended caller is cancelled. */
    method CancelCaller(caller: nat)
      requires Valid()
      modifies `waitingGets, `wokenGets, `waitingPuts, `wokenPuts
      ensures Valid() && Answered(old(View()), Nothing) && !IsSuspended(caller)
      ensures Suspensions() == old(Suspensions()).Without(caller)
    {
      hide ChunksOf;
      WithoutUnion(waitingPuts, wokenPuts, caller);
      assert (waitingGets - {caller}) + (wokenGets - {caller}) == (waitingGets + wokenGets) - {caller};
      waitingGets, wokenGets := waitingGets - {caller}, wokenGets - {caller};
      waitingPuts, wokenPuts := waitingPuts - {caller}, wokenPuts - {caller};
      assert gone + [] == gone;
    }

    /* ---------- control ---------- */

    method Flush() returns (answer: Answer<T>)
      requires Valid()
      modifies `queue, `notEmpty, `notFull, `waitingPuts, `wokenPuts, `gone
      ensures Valid() && Answered(old(View()), answer) && answer == Cleared(old(queue), false)
      ensures queue == [] && waitingPuts == map[]
      ensures Suspensions() == old(Suspensions())
    {
      EverythingLeaves(gone, queue);
      hide ChunksOf, AllWith;
      answer := Cleared(queue, false);
      gone := gone + AllWith(queue, Flushed);
      queue := [];
      SetNotFull();
      notEmpty := false;
    }

    method FlushForNewTurn() returns (answer: Answer<T>)
      requires Valid()
      modifies `queue, `notEmpty, `notFull, `waitingPuts, `wokenPuts, `gone, `turnId, `drops
      ensures Valid() && Answered(old(View()), answer) && answer == Cleared(old(queue), true)
      ensures queue == [] && turnId == old(turnId) + 1 && drops == 0
      ensures Suspensions() == old(Suspensions())
    {
      answer := Flush();
      answer := Cleared(answer.chunks, true);
      turnId := turnId + 1;
      drops := 0;
    }

    method Close()
      requires Valid()
      modifies `closed, `notEmpty, `notFull, `waitingGets, `wokenGets, `waitingPuts, `wokenPuts
      ensures Valid() && Answered(old(View()), Nothing) && closed && queue == old(queue)
      ensures waitingGets == {} && waitingPuts == map[]
      ensures Suspensions() == old(Suspensions())
    {
      hide ChunksOf;
      assert gone + [] == gone;
      closed := true;
      SetNotEmpty();
      SetNotFull();
    }

    method ResetDrops() returns (answer: Answer<T>)
      requires Valid()
      modifies `drops
      ensures Valid() && Answered(old(View()), answer) && answer == DropsReset(old(drops))
    {
      answer := DropsReset(drops);
      drops := 0;
    }
  }

  lemma WithoutUnion<T>(a: map<nat, T>, b: map<nat, T>, c: nat)
    requires a.Keys !! b.Keys
    ensures (a - {c}) + (b - {c}) == (a + b) - {c} && (a - {c}).Keys !! (b - {c}).Keys
  {
  }

  /** Leaving the woken ones, for good or to wait again. */
  lemma TakenBack<T>(a: map<nat, T>, b: map<nat, T>, c: nat)
    requires a.Keys !! b.Keys && c in b
    ensures a + (b - {c}) == (a + b) - {c} && a[c := b[c]] + (b - {c}) == a + b
    ensures a[c := b[c]].Keys !! (b - {c}).Keys
  {
  }

  lemma Joins<T>(a: map<nat, T>, b: map<nat, T>, c: nat, v: T)
    requires c !in a && c !in b
    ensures a[c := v] + b == (a + b)[c := v]
  {
  }

  lemma FirstLeaves<T>(gone: seq<Settled<T>>, queue: seq<T>, fate: Fate)
    requires queue != []
    ensures ChunksOf(gone + [Settled(queue[0], fate)]) + queue[1..] == ChunksOf(gone) + queue
  {
  }

  lemma EverythingLeaves<T>(gone: seq<Settled<T>>, queue: seq<T>)
    ensures ChunksOf(gone + AllWith(queue, Flushed)) + [] == ChunksOf(gone) + queue
    ensures forall i :: 0 <= i < |AllWith(queue, Flushed)| ==> AllWith(queue, Flushed)[i].fate == Flushed
  {
    ChunksAppend(gone, AllWith(queue, Flushed));
    AllWithChunks(queue, Flushed, Flushed);
    AllFlushed(queue);
  }

  lemma {:induction false} AllFlushed<T>(queue: seq<T>)
    ensures forall i :: 0 <= i < |AllWith(queue, Flushed)| ==> AllWith(queue, Flushed)[i].fate == Flushed
  {
    if queue != [] {
      AllFlushed(queue[..|queue| - 1]);
    }
  }

  /** Every accepted chunk that left was delivered, flushed or evicted, once. */
  lemma {:induction false} FatesAddUp<T>(gone: seq<Settled<T>>)
    ensures |gone| == |Picked(gone, Delivered)| + |Picked(gone, Flushed)| + |Picked(gone, Evicted)|
    ensures |gone| == |Picked(gone, Delivered)| ==> Picked(gone, Delivered) == ChunksOf(gone)
  {
    if gone != [] {
      FatesAddUp(gone[..|gone| - 1]);
    }
  }

  lemma {:induction false} NoneEvicted<T>(gone: seq<Settled<T>>)
    requires forall i :: 0 <= i < |gone| ==> gone[i].fate != Evicted
    ensures Picked(gone, Evicted) == []
  {
    if gone != [] {
      NoneEvicted(gone[..|gone| - 1]);
    }
  }

  /* ---------- any run of any callers ---------- */

  datatype Call<T> =
    | Put(caller: nat, chunk: T)
    | WakePut(caller: nat, expired: bool)
    | TimeOutPut(caller: nat)
    | Get(caller: nat)
    | WakeGet(caller: nat)
    | GetNowait
    | CancelCaller(caller: nat)
    | Flush
    | FlushForNewTurn
    | Close
    | ResetDrops

  /** Who is suspended after a call that was answered in this way. */
  function SuspendedAfter<T>(was: Callers<T>, call: Call<T>, answer: Answer<T>): Callers<T> {
    match call
    case Put(caller, chunk) => if answer.Suspended? then was.(puts := was.puts[caller := chunk]) else was
    case Get(caller) => if answer.Suspended? then was.(gets := was.gets + {caller}) else was
    case WakePut(caller, _) => if answer.Suspended? || answer.Nothing? then was else was.(puts := was.puts - {caller})
    case TimeOutPut(caller) => if answer.Nothing? then was else was.(puts := was.puts - {caller})
    case WakeGet(caller) => if answer.Suspended? || answer.Nothing? then was else was.(gets := was.gets - {caller})
    case CancelCaller(caller) => was.Without(caller)
    case _ => was
  }

  /** One step, if it is possible; the others do nothing. */
  method Perform<T>(q: BoundedAudioQueue<T>, call: Call<T>) returns (answer: Answer<T>)
    requires q.Valid()
    modifies q
    ensures q.Valid() && q.Answered(old(q.View()), answer)
    ensures q.Suspensions() == SuspendedAfter(old(q.Suspensions()), call, answer)
  {
    answer := Nothing;
    match call
    case Put(caller, chunk) => if !q.IsSuspended(caller) { answer := q.Put(caller, chunk); }
    case WakePut(caller, expired) => if caller in q.wokenPuts { answer := q.WakePut(caller, expired); }
    case TimeOutPut(caller) => if caller in q.waitingPuts || caller in q.wokenPuts { answer := q.TimeOutPut(caller); }
    case Get(caller) => if !q.IsSuspended(caller) { answer := q.Get(caller); }
    case WakeGet(caller) => if caller in q.wokenGets { answer := q.WakeGet(caller); }
    case GetNowait => answer := q.GetNowait();
    case CancelCaller(caller) => q.CancelCaller(caller);
    case Flush => answer := q.Flush();
    case FlushForNewTurn => answer := q.FlushForNewTurn();
    case Close => q.Close();
    case ResetDrops => answer := q.ResetDrops();
  }

  /** What the callers were told, read off the answers alone. */
  datatype Told<T> = Told(accepted: seq<T>, delivered: seq<T>, flushed: seq<T>, evictions: nat, drops: nat)

  function Tell<T>(t: Told<T>, answer: Answer<T>): Told<T> {
    Told(t.accepted + Accepts(answer),
         if answer.Got? then t.delivered + [answer.chunk] else t.delivered,
         if answer.Cleared? then t.flushed + answer.chunks else t.flushed,
         if answer.Accepted? && answer.evicting then t.evictions + 1 else t.evictions,
         DropsAfter(t.drops, answer))
  }

  function TellAll<T>(answers: seq<Answer<T>>): Told<T> {
    if answers == [] then Told([], [], [], 0, 0)
    else Tell(TellAll(answers[..|answers| - 1]), answers[|answers| - 1])
  }

  /** The answer tells of a chunk that was dropped to make room, or not taken. */
  predicate Drops<T>(answer: Answer<T>) { answer.Rejected? || (answer.Accepted? && answer.evicting) }

  /** The answer tells that the counter was set back. */
  predicate Resets<T>(answer: Answer<T>) { answer.DropsReset? || (answer.Cleared? && answer.newTurn) }

  function DropsIn<T>(answers: seq<Answer<T>>): nat {
    if answers == [] then 0 else DropsIn(answers[1..]) + if Drops(answers[0]) then 1 else 0
  }

  lemma NoDropsYet<T>(answer: Answer<T>)
    ensures DropsIn([] + [answer]) == if Drops(answer) then 1 else 0
  {
    assert |([] + [answer])[1..]| == 0;
  }

  lemma {:induction false} DropsInSnoc<T>(answers: seq<Answer<T>>, answer: Answer<T>)
    ensures DropsIn(answers + [answer]) == DropsIn(answers) + if Drops(answer) then 1 else 0
  {
    if answers == [] {
      NoDropsYet(answer);
    } else {
      CutThrough(answers, [answer], 1);
      DropsInSnoc(answers[1..], answer);
    }
  }

  lemma WithoutLast<T>(s: seq<T>, i: nat)
    requires i < |s|
    ensures s[i..] == s[..|s| - 1][i..] + [s[|s| - 1]]
  {
  }

  /** The drop counter counts the dropped chunks since it was last set back. */
  lemma {:induction false} DropsAreCounted<T>(answers: seq<Answer<T>>, i: nat)
    requires i <= |answers| && (i > 0 ==> Resets(answers[i - 1]))
    requires forall j :: i <= j < |answers| ==> !Resets(answers[j])
    ensures TellAll(answers).drops == DropsIn(answers[i..])
  {
    if i < |answers| {
      var n := |answers| - 1;
      DropsAreCounted(answers[..n], i);
      WithoutLast(answers, i);
      DropsInSnoc(answers[..n][i..], answers[n]);
    }
  }

  lemma SettlesPicked<T>(answer: Answer<T>, queue: seq<T>)
    requires answer.Accepted? && answer.evicting ==> queue != []
    ensures var gone := Settles(answer, queue);
            && Picked(gone, Delivered) == (if answer.Got? then [answer.chunk] else [])
            && Picked(gone, Flushed) == (if answer.Cleared? then answer.chunks else [])
            && |Picked(gone, Evicted)| == (if answer.Accepted? && answer.evicting then 1 else 0)
  {
    if answer.Cleared? {
      AllWithChunks(answer.chunks, Flushed, Delivered);
      AllWithChunks(answer.chunks, Flushed, Flushed);
      AllWithChunks(answer.chunks, Flushed, Evicted);
    }
  }

  /** A history is the one the callers were told. */
  ghost predicate Agrees<T>(h: History<T>, told: Told<T>) {
    && ChunksOf(h.gone) + h.queue == told.accepted && Picked(h.gone, Delivered) == told.delivered
    && Picked(h.gone, Flushed) == told.flushed && |Picked(h.gone, Evicted)| == told.evictions && h.drops == told.drops
  }

  lemma StillAgrees<T>(before: History<T>, after: History<T>, told: Told<T>, answer: Answer<T>)
    requires Agrees(before, told) && after.gone == before.gone + Settles(answer, before.queue)
    requires ChunksOf(after.gone) + after.queue == ChunksOf(before.gone) + before.queue + Accepts(answer)
    requires after.drops == DropsAfter(before.drops, answer) && (answer.Accepted? && answer.evicting ==> before.queue != [])
    ensures Agrees(after, Tell(told, answer))
  {
    var more := Settles(answer, before.queue);
    SettlesPicked(answer, before.queue);
    PickedAppend(before.gone, more, Delivered);
    PickedAppend(before.gone, more, Flushed);
    PickedAppend(before.gone, more, Evicted);
  }

  lemma TellSnoc<T>(answers: seq<Answer<T>>, answer: Answer<T>)
    ensures TellAll(answers + [answer]) == Tell(TellAll(answers), answer)
  {
  }

  /** Who is suspended after these calls, read off the answers alone. */
  function StillSuspended<T>(calls: seq<Call<T>>, answers: seq<Answer<T>>): Callers<T>
    requires |answers| == |calls|
  {
    if calls == [] then Callers({}, map[])
    else
      var n := |calls| - 1;
      SuspendedAfter(StillSuspended(calls[..n], answers[..n]), calls[n], answers[n])
  }

  method PerformTold<T>(q: BoundedAudioQueue<T>, call: Call<T>, ghost told: Told<T>) returns (answer: Answer<T>)
    requires q.Valid() && Agrees(q.View(), told)
    modifies q
    ensures q.Valid() && Agrees(q.View(), Tell(told, answer))
    ensures q.Suspensions() == SuspendedAfter(old(q.Suspensions()), call, answer)
  {
    answer := Perform(q, call);
    StillAgrees(old(q.View()), q.View(), told, answer);
  }

  /** With no flush and no eviction, delivered plus queued is accepted; in any case the counts add up. */
  ghost predicate Conserves<T>(q: BoundedAudioQueue<T>, told: Told<T>)
    reads q
  {
    && ChunksOf(q.gone) + q.queue == told.accepted
    && (q.policy != DropOldest ==> told.evictions == 0)
    && (told.flushed == [] && told.evictions == 0 ==> told.delivered + q.queue == told.accepted)
    && |told.accepted| == |told.delivered| + |told.flushed| + told.evictions + |q.queue|
  }

  lemma HistoryConserves<T>(q: BoundedAudioQueue<T>, told: Told<T>)
    requires q.Valid() && Agrees(q.View(), told)
    ensures Conserves(q, told)
  {
    FatesAddUp(q.gone);
    if q.policy != DropOldest { NoneEvicted(q.gone); }
  }

  /**
   * Whatever the callers do, in whatever order the loop runs them: what was delivered, flushed and
   * evicted, then what is still queued, is exactly what was accepted, in order. Only DROP_OLDEST
   * evicts; with no flush and no eviction, delivered plus queued is accepted. And nobody is lost: who was
   * told to wait is suspended, with his chunk, until he is answered or cancelled.
   */
  method Replay<T>(maxSize: nat, policy: DropPolicy, patient: bool, calls: seq<Call<T>>)
    returns (q: BoundedAudioQueue<T>, answers: seq<Answer<T>>)
    requires maxSize > 0
    ensures q.Valid() && q.maxSize == maxSize && q.policy == policy && |answers| == |calls|
    ensures Agrees(q.View(), TellAll(answers)) && Conserves(q, TellAll(answers))
    ensures q.Suspensions() == StillSuspended(calls, answers)
  {
    q := new BoundedAudioQueue(maxSize, policy, patient);
    answers := [];
    ghost var told := TellAll(answers);
    for i := 0 to |calls|
      invariant q.Valid() && fresh(q) && q.maxSize == maxSize && q.policy == policy && |answers| == i
      invariant told == TellAll(answers) && Agrees(q.View(), told)
      invariant q.Suspensions() == StillSuspended(calls[..i], answers)
    {
      var answer := PerformTold(q, calls[i], told);
      TellSnoc(answers, answer);
      assert calls[..i + 1][..i] == calls[..i] && (answers + [answer])[..i] == answers;
      answers := answers + [answer];
      told := Tell(told, answer);
    }
    HistoryConserves(q, told);
    assert calls[..|calls|] == calls;
  }
}
