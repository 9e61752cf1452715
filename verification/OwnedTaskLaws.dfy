/**
 * Who is admitted: when exactly an owner stops admitting tasks, when exactly it starts again, and what a
 * call of start_owned, hard_timeout or reap can always do next.
 */
module OwnedTaskLaws {
  import opened Prelude
  import opened Supervision
  import opened CapacityLedger
  import opened OwnedTaskProtocol

  /** The owner admits nothing. */
  predicate Shut(l: Ledger, r: nat, o: string)
    requires r in l.roots
  {
    l.roots[r].OwnerOf(o) != Open
  }

  /** The same owners admit tasks before and after, but for one that may have been shut. */
  ghost predicate ShutsOnly(l: Ledger, m: Ledger, cause: Option<(nat, string)>) {
    forall r, o :: r in l.roots ==> r in m.roots && (Shut(m, r, o) <==> Shut(l, r, o) || cause == Some((r, o)))
  }

  /* ---------- operations on the ledger ---------- */

  lemma AdmissionShutsNobody(l: Ledger, r: nat, owner: string, name: string)
    requires r in l.roots && Admit(l.sup, l.roots[r], owner, name).Ok?
    ensures ShutsOnly(l, l.Admitted(r, owner, name), None)
  {
  }

  lemma SpawnShutsNobody(l: Ledger, id: nat, task: nat)
    requires l.Known(id)
    ensures ShutsOnly(l, l.Activate(id, task), None)
  {
  }

  /** Giving back the last slot of a closed owner leaves it closed. */
  lemma ReleaseShutsNobody(l: Ledger, id: nat)
    requires l.Known(id)
    ensures ShutsOnly(l, l.Release(id), None)
  {
    hide HasWork;
  }

  lemma SettleShutsNobody(l: Ledger, id: nat, done: bool)
    requires l.Known(id)
    ensures ShutsOnly(l, l.Settle(id, done), None)
  {
    hide HasWork;
  }

  function OwnerOf(l: Ledger, id: nat): (nat, string)
    requires l.Known(id)
  {
    (l.sup.book[id].root, l.sup.book[id].owner)
  }

  /** A park that goes through, or is refused for a held lock, shuts the owner of an active task that runs. */
  lemma ParkOrCloseShuts(l: Ledger, id: nat, done: bool)
    requires l.Handle(id)
    ensures ShutsOnly(l, l.ParkOrCloseOwner(id, done).0,
                      if l.sup.book[id].state == Active && !done then Some(OwnerOf(l, id)) else None)
  {
    hide HasWork;
  }

  lemma ParkShuts(l: Ledger, id: nat, done: bool)
    requires l.Handle(id)
    ensures var (sup, root, result) := l.ParkHandle(id, done);
            && ShutsOnly(l, l.With(l.sup.book[id].root, (sup, root)), if result == ParkedNow then Some(OwnerOf(l, id)) else None)
            && (result == ParkedNow <==> l.sup.book[id].state == Active && !done
                                         && l.sup.LockCount(l.sup.book[id].task.value) == 0)
  {
    hide HasWork;
  }

  /* ---------- steps ---------- */

  /** The moves at which a call parks its task, should it still be running. */
  predicate Parks(call: Call, event: Event) {
    if event == Cancelled then !call.StartEntry? && !call.StartReserved? && !call.Ended?
    else event == Resume && (call.TimeoutWaiting? || call.ReapWaiting?)
  }

  /** Whose owner a step shuts: the one that is closed, or that of an active running task that is parked or refuses. */
  function ShutBy(s: System, step: Step): Option<(nat, string)>
    requires Enabled(s, step)
  {
    match step
    case Close(r, o) => Some((r, o))
    case ParkHandle(id) => if s.ledger.ParkHandle(id, s.IsDone(id)).2 == ParkedNow then Some(OwnerOf(s.ledger, id)) else None
    case Move(c, event) =>
      if !Parks(s.calls[c], event) then None
      else
        var id := s.calls[c].id;
        if s.ledger.sup.book[id].state == Active && !s.IsDone(id) then Some(OwnerOf(s.ledger, id)) else None
    case _ => None
  }

  lemma MoveShuts(s: System, c: nat, event: Event)
    requires Enabled(s, Move(c, event))
    ensures ShutsOnly(s.ledger, Continue(s, s.calls[c], event).0, ShutBy(s, Move(c, event)))
  {
    hide ShutsOnly, Admit, Ledger.ParkOrCloseOwner, Ledger.Settle, Ledger.Release, Ledger.Activate, Ledger.Admitted, Contained;
    var l, call := s.ledger, s.calls[c];
    NothingShut(l);
    if call.StartEntry? {
      if Admit(l.sup, l.roots[call.root], call.owner, call.name).Ok? {
        AdmissionShutsNobody(l, call.root, call.owner, call.name);
      }
    } else if call.StartReserved? {
      if event.Spawned? {
        SpawnShutsNobody(l, call.id, event.task);
      } else {
        ReleaseShutsNobody(l, call.id);
      }
    } else {
      SettleShutsNobody(l, call.id, true);
      ParkOrCloseShuts(l, call.id, s.IsDone(call.id));
    }
  }

  lemma NothingShut(l: Ledger)
    ensures ShutsOnly(l, l, None)
  {
  }

  /** The only step that lets a shut owner admit tasks again. */
  predicate Reopens(s: System, step: Step, r: nat, o: string)
    requires r in s.ledger.roots
  {
    step == Forget(r, o) && s.ledger.roots[r].OwnerOf(o) == Closed
  }

  /**
   * After any step an owner is shut exactly if it was and has not been forgotten in its closed state, or if
   * the step closed it or parked an active running task of it, or tried to.
   */
  lemma ShutExactly(s: System, step: Step, r: nat, o: string)
    requires Inv(s) && Enabled(s, step) && r in s.ledger.roots
    ensures r in Apply(s, step).ledger.roots
    ensures Shut(Apply(s, step).ledger, r, o)
       <==> (Shut(s.ledger, r, o) && !Reopens(s, step, r, o)) || ShutBy(s, step) == Some((r, o))
  {
    hide Continue, Sound, TasksLinked, CallsSound, ReservedHeld, LocksCounted, Fits, CallOk, ParkAttempt, Settled;
    match step
    case Move(c, event) =>
      MoveShuts(s, c, event);
      assert Apply(s, step).ledger == Continue(s, s.calls[c], event).0;
      assert Shut(s.ledger, r, o) || !Shut(s.ledger, r, o);
    case ParkHandle(id) => ParkShuts(s.ledger, id, s.IsDone(id));
    case CallBack(id) => SettleShutsNobody(s.ledger, id, true);
    case Close(q, p) => CloseShuts(s.ledger, q, p);
    case Forget(q, p) => ForgetShuts(s, q, p);
    case AcquireLock(_, _) =>
    case ReleaseLock(_) =>
    case _ =>
  }

  lemma CloseShuts(l: Ledger, r: nat, o: string)
    requires r in l.roots
    ensures ShutsOnly(l, l.CloseOwner(r, o), Some((r, o)))
  {
    hide HasWork;
  }

  lemma ForgetShuts(s: System, q: nat, p: string)
    requires Inv(s) && Enabled(s, Forget(q, p))
    ensures var m := Apply(s, Forget(q, p)).ledger;
            forall r, o :: r in s.ledger.roots ==>
              r in m.roots && (Shut(m, r, o) <==> Shut(s.ledger, r, o) && !Reopens(s, Forget(q, p), r, o))
  {
    hide TasksLinked, CallsSound, ReservedHeld, LocksCounted, Quotas, ParkedCloses, Anchored;
    if s.ledger.roots[q].OwnerOf(p) == Closed {
      ClosedHasNoWork(s.ledger, q, p);
    }
  }

  lemma ClosedHasNoWork(l: Ledger, r: nat, o: string)
    requires Books(l) && OwnersHonest(l) && r in l.roots && l.roots[r].OwnerOf(o) == Closed
    ensures !HasWork(l.sup.book, l.roots[r].charged, o)
  {
    assert !Works(l, r, o);
    forall id ensures !(id in l.roots[r].charged && id in l.sup.book && l.sup.book[id].owner == o) {
      assert !Holds(l, r, o, id);
    }
  }

  /* ---------- runs ---------- */

  /**
   * In any run, an owner that was closed, or whose task was parked or refused to park, admits nothing from
   * then on, even when its last task has finished, until it is forgotten after that.
   */
  lemma {:induction false} ShutUntilForgotten(
    states: seq<System>, steps: seq<Step>, capacity: nat, i: nat, j: nat, r: nat, o: string, name: string)
    requires IsRun(states, steps) && states[0] == Initial(capacity) && i < j <= |steps|
    requires r in states[i].ledger.roots && ShutBy(states[i], steps[i]) == Some((r, o))
    requires forall m :: i < m < j && r in states[m].ledger.roots ==> !Reopens(states[m], steps[m], r, o)
    ensures r in states[j].ledger.roots && Shut(states[j].ledger, r, o)
    ensures o != "" && name != "" ==> Admit(states[j].ledger.sup, states[j].ledger.roots[r], o, name) == Err(OwnerIsClosed)
  {
    hide Inv, Enabled, Apply, ShutBy;
    RunsAreSafe(states, steps, capacity, j - 1);
    if i < j - 1 {
      ShutUntilForgotten(states, steps, capacity, i, j - 1, r, o, name);
    }
    ShutExactly(states[j - 1], steps[j - 1], r, o);
  }

  /* ---------- admission ---------- */

  /** What decides an admission. */
  predicate Admissible(l: Ledger, r: nat, owner: string, name: string)
    requires r in l.roots
  {
    && owner != "" && name != "" && !Shut(l, r, owner)
    && |l.roots[r].charged| < l.roots[r].capacity && |l.sup.charged| < l.sup.capacity
  }

  /**
   * A start_owned that goes on is admitted exactly when its labels are there, its owner is open and both quotas
   * have room; it then holds a fresh slot of both quotas under its own root and owner, and otherwise nothing changed.
   */
  lemma AdmittedExactly(s: System, c: nat)
    requires Inv(s) && Enabled(s, Move(c, Resume)) && s.calls[c].StartEntry?
    ensures var t, call, id := Apply(s, Move(c, Resume)), s.calls[c], s.ledger.sup.nextId;
            if Admissible(s.ledger, call.root, call.owner, call.name) then
              && t.calls[c] == StartReserved(id) && id !in s.ledger.sup.book && t.ledger.Known(id)
              && OwnerOf(t.ledger, id) == (call.root, call.owner)
              && t.ledger.sup.charged == s.ledger.sup.charged + {id}
              && t.ledger.roots[call.root].charged == s.ledger.roots[call.root].charged + {id}
            else t.calls[c] == Ended(NotAdmitted) && t.ledger == s.ledger
  {
    hide TasksLinked, CallsSound, ReservedHeld, LocksCounted, OwnersHonest, Quotas, ParkedCloses, Anchored;
    var call := s.calls[c];
    if Admit(s.ledger.sup, s.ledger.roots[call.root], call.owner, call.name).Ok? {
      AdmittedBook(s.ledger, call.root, call.owner, call.name);
    }
  }

  /* ---------- calls go on ---------- */

  /** How many more moves a call has, at most. */
  function MovesLeft(call: Call): nat {
    match call
    case StartEntry(_, _, _) => 3
    case StartReserved(_) => 2
    case StartSpawned(_) => 1
    case TimeoutEntry(_) => 3
    case TimeoutWaiting(_) => 2
    case TimeoutSettled(_) => 1
    case ReapEntry(_, _) => 3
    case ReapWaiting(_, _) => 2
    case ReapEnding(_) => 1
    case Ended(_) => 0
  }

  /**
   * No call hangs: unless it is a reap without a time limit whose task still runs, it can go on without being
   * cancelled, every move brings it nearer its end, and no other step moves it.
   */
  lemma CallsGoOn(s: System, c: nat, step: Step)
    requires Inv(s) && c in s.calls && !s.calls[c].Ended?
    ensures Enabled(s, Move(c, if s.calls[c].StartReserved? then FactoryFails else Cancelled))
    ensures !s.calls[c].StartReserved? ==>
              (Enabled(s, Move(c, Resume)) <==> !(s.calls[c].ReapWaiting? && !s.calls[c].bounded && !s.IsDone(s.calls[c].id)))
    ensures s.calls[c].StartReserved? ==> forall task :: task !in s.spawned + s.done ==> Enabled(s, Move(c, Spawned(task)))
    ensures Enabled(s, step) ==> c in Apply(s, step).calls
    ensures Enabled(s, step) && step.Move? && step.caller == c ==> MovesLeft(Apply(s, step).calls[c]) < MovesLeft(s.calls[c])
    ensures Enabled(s, step) && !(step.Move? && step.caller == c) ==> Apply(s, step).calls[c] == s.calls[c]
  {
    hide Sound, TasksLinked, ReservedHeld, LocksCounted, Contained;
    assert CallOk(s.ledger, s.calls[c]);
  }

  /** The done-callback of a task gives its slot back and leaves nothing charged for it. */
  lemma CallBackReleases(s: System, id: nat)
    requires Inv(s) && Enabled(s, CallBack(id))
    ensures var t := Apply(s, CallBack(id));
            t.ledger.Known(id) && t.ledger.sup.book[id].state == Released && !Charged(t.ledger, id)
  {
    hide TasksLinked, CallsSound, ReservedHeld, LocksCounted, OwnersHonest, Quotas, ParkedCloses, Anchored;
  }
}
