/**
 * Every interleaving of start_owned, hard_timeout, reap, OwnedTask.park, task completion,
 * done-callbacks, owner closing and lifecycle locks, as a state machine over ledgers.
 *
 * Code between two awaits is one step. A call in progress is a `Call` whose constructor says where it
 * is suspended; `Cancelled` is the delivery of a cancellation request at that point.
 */
module OwnedTaskProtocol {
  import opened Prelude
  import opened Supervision
  import opened CapacityLedger

  datatype Outcome =
    | NotAdmitted                  // start_owned raised before anything was charged
    | StartFailed(id: nat)         // cancelled or failed between reserving and spawning
    | StartAbandoned(id: nat)      // cancelled after spawning
    | Started(id: nat)
    | Completed(id: nat)           // hard_timeout: COMPLETED
    | TimedOutParked(id: nat)      // hard_timeout: TIMED_OUT_PARKED
    | ParkRejected(id: nat)        // hard_timeout: PARK_REJECTED_LOCK_HELD
    | Reaped(id: nat)              // reap returned
    | GaveUp(id: nat)              // hard_timeout or reap raised its caller's cancellation

  datatype Call =
    | StartEntry(root: nat, owner: string, name: string)
    | StartReserved(id: nat)
    | StartSpawned(id: nat)
    | TimeoutEntry(id: nat)
    | TimeoutWaiting(id: nat)
    | TimeoutSettled(id: nat)
    | ReapEntry(id: nat, bounded: bool)
    | ReapWaiting(id: nat, bounded: bool)
    | ReapEnding(id: nat)
    | Ended(outcome: Outcome)

  datatype Event = Resume | Cancelled | FactoryFails | Spawned(task: nat)

  datatype Step =
    | AddRoot(root: nat, capacity: nat)
    | Begin(caller: nat, call: Call)
    | Move(caller: nat, event: Event)
    | ParkHandle(id: nat)
    | TaskFinishes(task: nat)
    | CallBack(id: nat)
    | Close(root: nat, owner: string)
    | Forget(root: nat, owner: string)
    | AcquireLock(lock: nat, task: nat)
    | ReleaseLock(lock: nat)

  datatype System = System(
    ledger: Ledger, spawned: set<nat>, done: set<nat>, calledBack: set<nat>,
    lockOwners: map<nat, nat>, calls: map<nat, Call>)
  {
    predicate IsDone(id: nat)
      requires ledger.Handle(id)
    {
      ledger.sup.book[id].task.value in done
    }
  }

  function Initial(capacity: nat): System {
    System(Ledger(Supervisor(capacity, 1, map[], {}, map[]), map[]), {}, {}, {}, map[], map[])
  }

  /* ---------- what holds of a call at each of its suspension points and after it ---------- */

  predicate OutcomeOk(l: Ledger, o: Outcome) {
    match o
    case NotAdmitted => true
    case StartFailed(id) => l.Known(id) && l.sup.book[id].state == Released && l.sup.book[id].task == None
    case StartAbandoned(id) => l.Handle(id) && Contained(l, id)
    case Started(id) => l.Handle(id)
    case Completed(id) => l.Handle(id) && l.sup.book[id].state == Released
    case TimedOutParked(id) => l.Handle(id) && l.sup.book[id].state in {Parked, Released}
    case ParkRejected(id) => l.Handle(id) && Contained(l, id)
    case Reaped(id) => l.Handle(id) && Contained(l, id)
    case GaveUp(id) => l.Handle(id) && Contained(l, id)
  }

  predicate CallOk(l: Ledger, call: Call) {
    match call
    case StartEntry(root, _, _) => root in l.roots
    case StartReserved(id) => l.Known(id) && l.sup.book[id].state == Reserved
    case StartSpawned(id) => l.Handle(id)
    case TimeoutEntry(id) => l.Handle(id)
    case TimeoutWaiting(id) => l.Handle(id)
    case TimeoutSettled(id) => l.Handle(id) && l.sup.book[id].state == Released
    case ReapEntry(id, _) => l.Handle(id)
    case ReapWaiting(id, _) => l.Handle(id)
    case ReapEnding(id) => l.Handle(id) && Contained(l, id)
    case Ended(o) => OutcomeOk(l, o)
  }

  /* ---------- the steps ---------- */

  /** Whether `event` can happen at this suspension point. */
  predicate Fits(s: System, call: Call, event: Event)
    requires CallOk(s.ledger, call)
  {
    match call
    case StartReserved(_) => !event.Resume? && (event.Spawned? ==> event.task !in s.spawned && event.task !in s.done)
    case ReapWaiting(id, bounded) => event == Cancelled || (event == Resume && (bounded || s.IsDone(id)))
    case Ended(_) => false
    case _ => event in {Resume, Cancelled}
  }

  function Continue(s: System, call: Call, event: Event): (Ledger, Call)
    requires CallOk(s.ledger, call) && Fits(s, call, event)
  {
    var l := s.ledger;
    match call
    case StartEntry(root, owner, name) =>
      if event == Cancelled then (l, Ended(NotAdmitted))
      else if Admit(l.sup, l.roots[root], owner, name).Ok? then (l.Admitted(root, owner, name), StartReserved(l.sup.nextId))
      else (l, Ended(NotAdmitted))
    case StartReserved(id) =>
      if event.Spawned? then (l.Activate(id, event.task), StartSpawned(id)) else (l.Release(id), Ended(StartFailed(id)))
    case StartSpawned(id) =>
      if event == Resume then (l, Ended(Started(id)))
      else (l.ParkOrCloseOwner(id, s.IsDone(id)).0, Ended(StartAbandoned(id)))
    case TimeoutEntry(id) =>
      if event == Cancelled then (l.ParkOrCloseOwner(id, s.IsDone(id)).0, Ended(GaveUp(id)))
      else if s.IsDone(id) then (l.Settle(id, true), TimeoutSettled(id))
      else (l, TimeoutWaiting(id))
    case TimeoutWaiting(id) =>
      if event == Cancelled then (l.ParkOrCloseOwner(id, s.IsDone(id)).0, Ended(GaveUp(id)))
      else if s.IsDone(id) then (l.Settle(id, true), TimeoutSettled(id))
      else
        var (m, refused) := l.ParkOrCloseOwner(id, false);
        (m, Ended(if refused then ParkRejected(id) else TimedOutParked(id)))
    case TimeoutSettled(id) =>
      if event == Cancelled then (l.ParkOrCloseOwner(id, s.IsDone(id)).0, Ended(GaveUp(id)))
      else (l, Ended(Completed(id)))
    case ReapEntry(id, bounded) =>
      if event == Cancelled then (l.ParkOrCloseOwner(id, s.IsDone(id)).0, Ended(GaveUp(id)))
      else (l, ReapWaiting(id, bounded))
    case ReapWaiting(id, _) =>
      if event == Cancelled then (l.ParkOrCloseOwner(id, s.IsDone(id)).0, Ended(GaveUp(id)))
      else (l.ParkOrCloseOwner(id, s.IsDone(id)).0, ReapEnding(id))
    case ReapEnding(id) =>
      if event == Cancelled then (l.ParkOrCloseOwner(id, s.IsDone(id)).0, Ended(GaveUp(id)))
      else (l, Ended(Reaped(id)))
  }

  predicate Enabled(s: System, step: Step) {
    match step
    case AddRoot(root, capacity) => root !in s.ledger.roots && capacity >= 1
    case Begin(c, call) =>
      c !in s.calls && CallOk(s.ledger, call) && (call.StartEntry? || call.TimeoutEntry? || call.ReapEntry?)
    case Move(c, event) => c in s.calls && CallOk(s.ledger, s.calls[c]) && Fits(s, s.calls[c], event)
    case ParkHandle(id) => s.ledger.Handle(id)
    case TaskFinishes(task) => task !in s.done
    case CallBack(id) => s.ledger.Handle(id) && s.IsDone(id) && id !in s.calledBack
    case Close(root, owner) => root in s.ledger.roots && owner != ""
    case Forget(root, owner) => root in s.ledger.roots && owner != ""
    case AcquireLock(lock, task) => lock !in s.lockOwners && task !in s.done
    case ReleaseLock(lock) => lock in s.lockOwners
  }

  function Parking(s: System, id: nat): Ledger
    requires s.ledger.Handle(id)
  {
    var (sup, root, _) := s.ledger.ParkHandle(id, s.IsDone(id));
    s.ledger.With(s.ledger.sup.book[id].root, (sup, root))
  }

  function WithLocks(l: Ledger, locks: map<nat, nat>): Ledger { l.(sup := l.sup.(locks := locks)) }

  function Apply(s: System, step: Step): System
    requires Enabled(s, step)
  {
    var l := s.ledger;
    match step
    case AddRoot(root, capacity) => s.(ledger := l.(roots := l.roots[root := Root(root, capacity, {}, {}, map[])]))
    case Begin(c, call) => s.(calls := s.calls[c := call])
    case Move(c, event) =>
      var (m, call) := Continue(s, s.calls[c], event);
      s.(ledger := m, calls := s.calls[c := call], spawned := if event.Spawned? then s.spawned + {event.task} else s.spawned)
    case ParkHandle(id) => s.(ledger := Parking(s, id))
    case TaskFinishes(task) => s.(done := s.done + {task})
    case CallBack(id) => s.(ledger := l.Settle(id, true), calledBack := s.calledBack + {id})
    case Close(root, owner) => s.(ledger := l.CloseOwner(root, owner))
    case Forget(root, owner) => s.(ledger := l.ForgetOwner(root, owner))
    case AcquireLock(lock, task) =>
      s.(ledger := WithLocks(l, Acquired(l.sup.locks, task)), lockOwners := s.lockOwners[lock := task])
    case ReleaseLock(lock) =>
      s.(ledger := WithLocks(l, Relinquished(l.sup.locks, s.lockOwners[lock])), lockOwners := s.lockOwners - {lock})
  }

  /* ---------- the invariant ---------- */

  /**
   * A reservation and its task: none before the spawn; while the slot is charged, one whose done-callback
   * has not run; once released, one that is done.
   */
  predicate TaskOk(rec: Reservation, spawned: set<nat>, done: set<nat>, calledBack: bool) {
    match rec.state
    case Reserved => rec.task == None && !calledBack
    case Active => rec.task.Some? && rec.task.value in spawned && !calledBack
    case Parked => rec.task.Some? && rec.task.value in spawned && !calledBack
    case Released => rec.task.Some? ==> rec.task.value in spawned && rec.task.value in done
  }

  ghost predicate TasksLinked(s: System) {
    && (forall id :: id in s.ledger.sup.book ==> TaskOk(s.ledger.sup.book[id], s.spawned, s.done, id in s.calledBack))
    && (forall id :: id in s.calledBack ==> id in s.ledger.sup.book)
  }

  ghost predicate CallsSound(s: System) {
    forall c :: c in s.calls ==> CallOk(s.ledger, s.calls[c])
  }

  /** Every reserved slot that has no task yet belongs to exactly one start_owned in progress. */
  ghost predicate ReservedHeld(s: System) {
    && (forall id :: id in s.ledger.sup.book && s.ledger.sup.book[id].state == Reserved ==> Starting(s, id))
    && (forall c, d :: c in s.calls && d in s.calls && s.calls[c].StartReserved? && s.calls[c] == s.calls[d] ==> c == d)
  }

  ghost predicate Starting(s: System, id: nat) {
    exists c :: c in s.calls && s.calls[c] == StartReserved(id)
  }

  function LocksOf(lockOwners: map<nat, nat>, task: nat): set<nat> {
    set lock | lock in lockOwners && lockOwners[lock] == task
  }

  ghost predicate LocksCounted(s: System) {
    forall task: nat :: s.ledger.sup.LockCount(task) == |LocksOf(s.lockOwners, task)|
  }

  ghost predicate Inv(s: System) {
    Sound(s.ledger) && TasksLinked(s) && CallsSound(s) && ReservedHeld(s) && LocksCounted(s)
  }

  lemma InitialInv(capacity: nat)
    ensures Inv(Initial(capacity))
  {
  }

  /* ---------- one call moves ---------- */

  lemma RecordStays(l: Ledger, m: Ledger, id: nat)
    requires Books(l) && Advances(l, m) && l.Known(id)
    ensures m.Known(id) && Later(l.sup.book[id], m.sup.book[id])
    ensures l.Handle(id) ==> m.Handle(id)
    ensures Contained(l, id) ==> Contained(m, id)
  {
    hide OwnersHonest, Quotas, ParkedCloses, Anchored;
    if Contained(l, id) {
      ContainedStays(l, m, id);
    }
  }

  lemma RootStays(l: Ledger, m: Ledger, root: nat)
    requires Advances(l, m) && root in l.roots
    ensures root in m.roots
  {
  }

  function Subject(call: Call): Option<nat> {
    match call
    case StartEntry(_, _, _) => None
    case Ended(o) => if o == NotAdmitted then None else Some(o.id)
    case _ => Some(call.id)
  }

  lemma CallStays(l: Ledger, m: Ledger, call: Call)
    requires Books(l) && Advances(l, m) && CallOk(l, call)
    requires call.StartReserved? ==> call.id in m.sup.book && m.sup.book[call.id] == l.sup.book[call.id]
    ensures CallOk(m, call)
  {
    hide Advances, Books, Contained;
    if call.StartEntry? {
      RootStays(l, m, call.root);
    } else if Subject(call).Some? {
      var id := Subject(call).value;
      CallKnown(l, call, id);
      RecordStays(l, m, id);
      StateStays(l.sup.book[id], m.sup.book[id]);
    }
  }

  lemma CallKnown(l: Ledger, call: Call, id: nat)
    requires CallOk(l, call) && Subject(call) == Some(id)
    ensures l.Known(id)
  {
  }

  lemma StateStays(a: Reservation, b: Reservation)
    requires Later(a, b)
    ensures a.state == Released ==> b.state == Released
    ensures a.state in {Parked, Released} ==> b.state in {Parked, Released}
  {
  }

  predicate RecordOk(s: System, m: Ledger, id: nat, spawned: set<nat>) {
    id in m.sup.book && TaskOk(m.sup.book[id], spawned, s.done, id in s.calledBack)
  }

  /** What one move of `call` may do to the ledger, and where it leaves the call. */
  ghost predicate MovedOk(s: System, call: Call, m: Ledger, next: Call, spawned: set<nat>) {
    var l := s.ledger;
    && Advances(l, m) && CallOk(m, next) && m.sup.locks == l.sup.locks
    && (forall id :: id in l.sup.book ==>
          id in m.sup.book && (m.sup.book[id] == l.sup.book[id] || (Subject(call) == Some(id) && RecordOk(s, m, id, spawned))))
    && (forall id :: id in m.sup.book && id !in l.sup.book ==> next == StartReserved(id) && RecordOk(s, m, id, spawned))
    && (call.StartReserved? ==> call.id in m.sup.book && m.sup.book[call.id].state != Reserved)
    && (next.StartReserved? ==> next.id !in l.sup.book)
  }

  /** The ledger stays as it was. */
  lemma StandsOk(s: System, call: Call, next: Call)
    requires Inv(s) && CallOk(s.ledger, next) && !call.StartReserved? && !next.StartReserved?
    ensures MovedOk(s, call, s.ledger, next, s.spawned)
  {
  }

  /** Only the record of `id` changed. */
  lemma TouchedOk(s: System, call: Call, m: Ledger, next: Call, spawned: set<nat>, id: nat)
    requires Advances(s.ledger, m) && CallOk(m, next) && Touches(s.ledger, m, id) && RecordOk(s, m, id, spawned)
    requires Subject(call) == Some(id) && !next.StartReserved?
    requires call == StartReserved(id) ==> m.sup.book[id].state != Reserved
    ensures MovedOk(s, call, m, next, spawned)
  {
    hide Advances, CallOk, TaskOk;
  }

  lemma ParkMoves(s: System, id: nat)
    requires Inv(s) && s.ledger.Handle(id)
    ensures var (m, refused) := s.ledger.ParkOrCloseOwner(id, s.IsDone(id));
            && Advances(s.ledger, m) && Touches(s.ledger, m, id) && RecordOk(s, m, id, s.spawned) && m.Handle(id)
            && Contained(m, id) && (!s.IsDone(id) && !refused ==> m.sup.book[id].state == Parked)
            && (s.IsDone(id) ==> m.sup.book[id].state == Released)
  {
    hide Books, Quotas, OwnersHonest, ParkedCloses, Anchored, CallsSound, ReservedHeld, LocksCounted, Contained;
    assert TaskOk(s.ledger.sup.book[id], s.spawned, s.done, id in s.calledBack);
    ParkOrCloseAdvances(s.ledger, id, s.IsDone(id));
    var m := s.ledger.ParkOrCloseOwner(id, s.IsDone(id)).0;
    RecordStays(s.ledger, m, id);
  }

  lemma SettleMoves(s: System, id: nat)
    requires Inv(s) && s.ledger.Handle(id) && s.IsDone(id)
    ensures var m := s.ledger.Settle(id, true);
            && Advances(s.ledger, m) && Touches(s.ledger, m, id) && RecordOk(s, m, id, s.spawned) && m.Handle(id)
            && m.sup.book[id].state == Released
  {
    hide Books, Quotas, OwnersHonest, ParkedCloses, Anchored, CallsSound, ReservedHeld, LocksCounted;
    assert TaskOk(s.ledger.sup.book[id], s.spawned, s.done, id in s.calledBack);
    SettleAdvances(s.ledger, id, true);
    RecordStays(s.ledger, s.ledger.Settle(id, true), id);
  }

  lemma EntryMoves(s: System, call: Call)
    requires Inv(s) && call.StartEntry? && CallOk(s.ledger, call)
    requires Admit(s.ledger.sup, s.ledger.roots[call.root], call.owner, call.name).Ok?
    ensures var m := s.ledger.Admitted(call.root, call.owner, call.name);
            MovedOk(s, call, m, StartReserved(s.ledger.sup.nextId), s.spawned)
  {
    hide Books, Quotas, OwnersHonest, ParkedCloses, Anchored, CallsSound, ReservedHeld, LocksCounted;
    hide Advances, Admit, Ledger.Admitted;
    var l, id := s.ledger, s.ledger.sup.nextId;
    AdmitAdvances(l, call.root, call.owner, call.name);
    AdmittedBook(l, call.root, call.owner, call.name);
    var m := l.Admitted(call.root, call.owner, call.name);
    RootStays(l, m, call.root);
    assert id !in s.calledBack;
  }

  lemma SpawnMoves(s: System, id: nat, event: Event)
    requires Inv(s) && CallOk(s.ledger, StartReserved(id)) && Fits(s, StartReserved(id), event)
    ensures var (m, next) := Continue(s, StartReserved(id), event);
            MovedOk(s, StartReserved(id), m, next, if event.Spawned? then s.spawned + {event.task} else s.spawned)
  {
    hide Books, Quotas, OwnersHonest, ParkedCloses, Anchored, CallsSound, ReservedHeld, LocksCounted, Advances, MovedOk;
    assert TaskOk(s.ledger.sup.book[id], s.spawned, s.done, id in s.calledBack);
    if event.Spawned? {
      ActivateAdvances(s.ledger, id, event.task);
      TouchedOk(s, StartReserved(id), s.ledger.Activate(id, event.task), StartSpawned(id), s.spawned + {event.task}, id);
    } else {
      ReleaseAdvances(s.ledger, id);
      TouchedOk(s, StartReserved(id), s.ledger.Release(id), Ended(StartFailed(id)), s.spawned, id);
    }
  }

  lemma HandleMoves(s: System, call: Call, event: Event)
    requires Inv(s) && CallOk(s.ledger, call) && Fits(s, call, event) && !call.StartReserved? && !call.StartEntry?
    ensures var (m, next) := Continue(s, call, event); MovedOk(s, call, m, next, s.spawned)
  {
    hide Inv, Advances, MovedOk, Contained, RecordOk, Touches;
    var (m, next) := Continue(s, call, event);
    var id := call.id;
    if m == s.ledger {
      ParkMoves(s, id);
      StandsOk(s, call, next);
    } else if event == Resume && s.IsDone(id) && !call.ReapWaiting? {
      SettleMoves(s, id);
      TouchedOk(s, call, m, next, s.spawned, id);
    } else {
      ParkMoves(s, id);
      TouchedOk(s, call, m, next, s.spawned, id);
    }
  }

  lemma MoveIsOk(s: System, call: Call, event: Event)
    requires Inv(s) && CallOk(s.ledger, call) && Fits(s, call, event)
    ensures var (m, next) := Continue(s, call, event);
            MovedOk(s, call, m, next, if event.Spawned? then s.spawned + {event.task} else s.spawned)
  {
    hide Inv, Advances, MovedOk, Contained, RecordOk, Touches;
    if call.StartReserved? {
      SpawnMoves(s, call.id, event);
    } else if call.StartEntry? {
      if event == Resume && Admit(s.ledger.sup, s.ledger.roots[call.root], call.owner, call.name).Ok? {
        EntryMoves(s, call);
      } else {
        StandsOk(s, call, Ended(NotAdmitted));
      }
    } else {
      HandleMoves(s, call, event);
    }
  }

  /* ---------- every step keeps the invariant ---------- */

  /** Calls other than `c` are where they were and as true as before. */
  lemma OtherCallsStay(s: System, c: nat, m: Ledger, next: Call, spawned: set<nat>, d: nat)
    requires Inv(s) && c in s.calls && CallOk(s.ledger, s.calls[c]) && MovedOk(s, s.calls[c], m, next, spawned)
    requires d in s.calls && d != c
    ensures CallOk(m, s.calls[d])
  {
    hide Advances, Quotas, OwnersHonest, ParkedCloses, Anchored, TasksLinked, LocksCounted, TaskOk, Contained;
    var call := s.calls[d];
    if call.StartReserved? {
      assert s.calls[c] != call;
      assert m.sup.book[call.id] == s.ledger.sup.book[call.id];
    }
    CallStays(s.ledger, m, call);
  }

  lemma MoveKeepsTasks(s: System, c: nat, m: Ledger, next: Call, spawned: set<nat>)
    requires TasksLinked(s) && c in s.calls && MovedOk(s, s.calls[c], m, next, spawned) && s.spawned <= spawned
    ensures TasksLinked(s.(ledger := m, calls := s.calls[c := next], spawned := spawned))
  {
    hide Advances, CallOk;
  }

  lemma MoveKeepsHeld(s: System, c: nat, m: Ledger, next: Call, spawned: set<nat>)
    requires ReservedHeld(s) && CallsSound(s) && c in s.calls && MovedOk(s, s.calls[c], m, next, spawned)
    ensures ReservedHeld(s.(ledger := m, calls := s.calls[c := next], spawned := spawned))
  {
    hide Advances;
    var t := s.(ledger := m, calls := s.calls[c := next], spawned := spawned);
    forall id | id in m.sup.book && m.sup.book[id].state == Reserved ensures Starting(t, id) {
      if id !in s.ledger.sup.book {
        assert t.calls[c] == StartReserved(id);
      } else {
        StillStarting(s, c, m, next, spawned, id);
      }
    }
  }

  lemma ReservedBefore(l: Ledger, m: Ledger, id: nat)
    requires Forward(l, m) && id in l.sup.book && m.sup.book[id].state == Reserved
    ensures l.sup.book[id].state == Reserved
  {
  }

  lemma StillStarting(s: System, c: nat, m: Ledger, next: Call, spawned: set<nat>, id: nat)
    requires ReservedHeld(s) && CallsSound(s) && c in s.calls && MovedOk(s, s.calls[c], m, next, spawned)
    requires id in s.ledger.sup.book && id in m.sup.book && m.sup.book[id].state == Reserved
    ensures Starting(s.(ledger := m, calls := s.calls[c := next], spawned := spawned), id)
  {
    hide Contained, Sound, StaysClosed, Forward, CallOk, RecordOk;
    var t := s.(ledger := m, calls := s.calls[c := next], spawned := spawned);
    ReservedBefore(s.ledger, m, id);
    var d :| d in s.calls && s.calls[d] == StartReserved(id);
    assert d != c;
    assert t.calls[d] == StartReserved(id);
  }

  lemma MoveKeeps(s: System, c: nat, event: Event)
    requires Inv(s) && Enabled(s, Move(c, event))
    ensures Inv(Apply(s, Move(c, event))) && Advances(s.ledger, Apply(s, Move(c, event)).ledger)
  {
    hide Books, Quotas, OwnersHonest, ParkedCloses, Anchored, TasksLinked, ReservedHeld, Fits, CallOk, Forward, StaysClosed;
    MoveIsOk(s, s.calls[c], event);
    var t := Apply(s, Move(c, event));
    var m, next := t.ledger, t.calls[c];
    MoveKeepsTasks(s, c, m, next, t.spawned);
    MoveKeepsHeld(s, c, m, next, t.spawned);
    forall d | d in t.calls ensures CallOk(m, t.calls[d]) {
      if d != c {
        OtherCallsStay(s, c, m, next, t.spawned, d);
      }
    }
  }

  /** A step outside the calls that moves only the record of a handle. */
  lemma TouchKeeps(s: System, t: System, id: nat)
    requires Inv(s) && s.ledger.Handle(id) && Advances(s.ledger, t.ledger) && Touches(s.ledger, t.ledger, id)
    requires t.calls == s.calls && t.lockOwners == s.lockOwners && t.spawned == s.spawned && t.done == s.done
    requires s.calledBack <= t.calledBack <= s.calledBack + {id}
    requires TaskOk(t.ledger.sup.book[id], t.spawned, t.done, id in t.calledBack)
    requires t.ledger.sup.book[id].state != Reserved
    ensures Inv(t)
  {
    hide Quotas, OwnersHonest, ParkedCloses, Anchored, Forward, StaysClosed, TaskOk, CallOk, ReservedHeld, Books;
    HeldStays(s, t);
    CallsStay(s, t, id);
  }

  lemma HeldStays(s: System, t: System)
    requires ReservedHeld(s) && t.calls == s.calls
    requires forall j :: j in t.ledger.sup.book && t.ledger.sup.book[j].state == Reserved
               ==> j in s.ledger.sup.book && s.ledger.sup.book[j].state == Reserved
    ensures ReservedHeld(t)
  {
  }

  lemma CallsStay(s: System, t: System, id: nat)
    requires Inv(s) && s.ledger.Handle(id) && Advances(s.ledger, t.ledger) && Touches(s.ledger, t.ledger, id)
    requires t.calls == s.calls
    ensures CallsSound(t)
  {
    hide Books, Quotas, OwnersHonest, ParkedCloses, Anchored, Forward, StaysClosed, TasksLinked, ReservedHeld, LocksCounted;
    forall c | c in t.calls ensures CallOk(t.ledger, t.calls[c]) {
      assert CallOk(s.ledger, s.calls[c]);
      CallStays(s.ledger, t.ledger, s.calls[c]);
    }
  }

  /** A step that changes no record at all. */
  lemma SameBookKeeps(s: System, t: System)
    requires Inv(s) && Advances(s.ledger, t.ledger) && t.ledger.sup.book == s.ledger.sup.book
    requires t.calls == s.calls && t.spawned == s.spawned && s.done <= t.done && t.calledBack == s.calledBack
    requires LocksCounted(t)
    ensures Inv(t)
  {
    hide Books, Quotas, OwnersHonest, ParkedCloses, Anchored, Forward, StaysClosed, LocksCounted, ReservedHeld;
    forall c | c in t.calls ensures CallOk(t.ledger, t.calls[c]) {
      assert CallOk(s.ledger, s.calls[c]);
      CallStays(s.ledger, t.ledger, s.calls[c]);
    }
    HeldStays(s, t);
  }

  lemma BeginKeeps(s: System, c: nat, call: Call)
    requires Inv(s) && Enabled(s, Begin(c, call))
    ensures Inv(Apply(s, Begin(c, call)))
  {
    hide Sound, CallOk;
    var t := Apply(s, Begin(c, call));
    forall j | j in t.ledger.sup.book && t.ledger.sup.book[j].state == Reserved ensures Starting(t, j) {
      assert Starting(s, j);
      var d :| d in s.calls && s.calls[d] == StartReserved(j);
      assert t.calls[d] == StartReserved(j);
    }
  }

  lemma ParkHandleKeeps(s: System, id: nat)
    requires Inv(s) && s.ledger.Handle(id)
    ensures Inv(Apply(s, ParkHandle(id))) && Advances(s.ledger, Apply(s, ParkHandle(id)).ledger)
  {
    hide Sound, CallsSound, ReservedHeld, LocksCounted, Advances;
    var t := Apply(s, ParkHandle(id));
    if t.ledger == s.ledger {
      StandingStill(s.ledger);
    } else {
      ParkMoves(s, id);
      assert t.ledger == s.ledger.ParkOrCloseOwner(id, s.IsDone(id)).0;
      TouchKeeps(s, t, id);
    }
  }

  lemma CallBackKeeps(s: System, id: nat)
    requires Inv(s) && Enabled(s, CallBack(id))
    ensures Inv(Apply(s, CallBack(id))) && Advances(s.ledger, Apply(s, CallBack(id)).ledger)
  {
    hide Sound, CallsSound, ReservedHeld, LocksCounted, Advances, TasksLinked;
    SettleMoves(s, id);
    TouchKeeps(s, Apply(s, CallBack(id)), id);
  }

  /* ---------- lifecycle locks ---------- */

  lemma AcquireCounts(s: System, lock: nat, task: nat)
    requires LocksCounted(s) && Enabled(s, AcquireLock(lock, task))
    ensures LocksCounted(Apply(s, AcquireLock(lock, task)))
  {
    var t := Apply(s, AcquireLock(lock, task));
    forall u: nat ensures t.ledger.sup.LockCount(u) == |LocksOf(t.lockOwners, u)| {
      assert s.ledger.sup.LockCount(u) == |LocksOf(s.lockOwners, u)|;
      if u == task {
        assert LocksOf(t.lockOwners, u) == LocksOf(s.lockOwners, u) + {lock};
      } else {
        assert LocksOf(t.lockOwners, u) == LocksOf(s.lockOwners, u);
      }
    }
  }

  lemma ReleaseCounts(s: System, lock: nat)
    requires LocksCounted(s) && Enabled(s, ReleaseLock(lock))
    ensures LocksCounted(Apply(s, ReleaseLock(lock)))
  {
    var t, task := Apply(s, ReleaseLock(lock)), s.lockOwners[lock];
    forall u: nat ensures t.ledger.sup.LockCount(u) == |LocksOf(t.lockOwners, u)| {
      assert s.ledger.sup.LockCount(u) == |LocksOf(s.lockOwners, u)|;
      if u == task {
        assert LocksOf(t.lockOwners, u) == LocksOf(s.lockOwners, u) - {lock};
        assert lock in LocksOf(s.lockOwners, u);
      } else {
        assert LocksOf(t.lockOwners, u) == LocksOf(s.lockOwners, u);
      }
    }
  }

  /* ---------- the whole machine ---------- */

  lemma QuietStepKeeps(s: System, step: Step)
    requires Inv(s) && Enabled(s, step) && (step.AddRoot? || step.TaskFinishes? || step.Close? || step.Forget?)
    ensures Inv(Apply(s, step)) && Advances(s.ledger, Apply(s, step).ledger)
  {
    hide Books, Quotas, OwnersHonest, ParkedCloses, Anchored, TasksLinked, CallsSound, ReservedHeld, Advances;
    match step
    case AddRoot(root, capacity) => NewRootAdvances(s.ledger, root, capacity); SameBookKeeps(s, Apply(s, step));
    case TaskFinishes(_) => StandingStill(s.ledger); SameBookKeeps(s, Apply(s, step));
    case Close(root, owner) => CloseAdvances(s.ledger, root, owner); SameBookKeeps(s, Apply(s, step));
    case Forget(root, owner) => ForgetAdvances(s.ledger, root, owner); SameBookKeeps(s, Apply(s, step));
  }

  lemma LockStepKeeps(s: System, step: Step)
    requires Inv(s) && Enabled(s, step) && (step.AcquireLock? || step.ReleaseLock?)
    ensures Inv(Apply(s, step)) && Advances(s.ledger, Apply(s, step).ledger)
  {
    hide Sound, TasksLinked, CallsSound, ReservedHeld, Advances, LocksCounted;
    LocksAdvance(s.ledger, Apply(s, step).ledger.sup.locks);
    if step.AcquireLock? {
      AcquireCounts(s, step.lock, step.task);
    } else {
      ReleaseCounts(s, step.lock);
    }
    SameBookKeeps(s, Apply(s, step));
  }

  /** Every step keeps the invariant and undoes nothing. */
  lemma StepKeeps(s: System, step: Step)
    requires Inv(s) && Enabled(s, step)
    ensures Inv(Apply(s, step)) && Advances(s.ledger, Apply(s, step).ledger)
  {
    hide Sound, TasksLinked, CallsSound, ReservedHeld, LocksCounted, Advances, Apply;
    match step
    case Begin(c, call) => BeginKeeps(s, c, call); BeginStandsStill(s, c, call);
    case Move(c, event) => MoveKeeps(s, c, event);
    case ParkHandle(id) => ParkHandleKeeps(s, id);
    case CallBack(id) => CallBackKeeps(s, id);
    case AcquireLock(_, _) => LockStepKeeps(s, step);
    case ReleaseLock(_) => LockStepKeeps(s, step);
    case _ => QuietStepKeeps(s, step);
  }

  lemma BeginStandsStill(s: System, c: nat, call: Call)
    requires Inv(s) && Enabled(s, Begin(c, call))
    ensures Advances(s.ledger, Apply(s, Begin(c, call)).ledger)
  {
  }

  /* ---------- whole runs ---------- */

  ghost predicate IsRun(states: seq<System>, steps: seq<Step>) {
    && |states| == |steps| + 1
    && forall i :: 0 <= i < |steps| ==> Enabled(states[i], steps[i]) && states[i + 1] == Apply(states[i], steps[i])
  }

  /** Whatever the interleaving, every state of a run satisfies the invariant. */
  lemma {:induction false} RunsAreSafe(states: seq<System>, steps: seq<Step>, capacity: nat, k: nat)
    requires IsRun(states, steps) && states[0] == Initial(capacity) && k <= |steps|
    ensures Inv(states[k])
  {
    hide Inv, Enabled, Apply, Advances;
    if k == 0 {
      InitialInv(capacity);
    } else {
      RunsAreSafe(states, steps, capacity, k - 1);
      StepKeeps(states[k - 1], steps[k - 1]);
    }
  }

  /** Ids persist and are never made twice, and reservations only move forward. */
  lemma {:induction false} RunsGoForward(states: seq<System>, steps: seq<Step>, capacity: nat, i: nat, k: nat)
    requires IsRun(states, steps) && states[0] == Initial(capacity) && i <= k <= |steps|
    ensures Forward(states[i].ledger, states[k].ledger)
  {
    hide Inv, Enabled, Apply, Forward, Sound, StaysClosed;
    RunsAreSafe(states, steps, capacity, i);
    if k == i {
      ForwardRefl(states[i].ledger);
    } else {
      RunsAreSafe(states, steps, capacity, k - 1);
      RunsGoForward(states, steps, capacity, i, k - 1);
      StepKeeps(states[k - 1], steps[k - 1]);
      ForwardTrans(states[i].ledger, states[k - 1].ledger, states[k].ledger);
    }
  }

  lemma ForwardRefl(l: Ledger)
    ensures Forward(l, l)
  {
  }

  /** A slot is returned exactly once: an id that was charged and no longer is stays returned. */
  lemma SlotsReturnOnce(states: seq<System>, steps: seq<Step>, capacity: nat, i: nat, j: nat, k: nat, id: nat)
    requires IsRun(states, steps) && states[0] == Initial(capacity) && i <= j <= k <= |steps|
    requires id in states[i].ledger.sup.charged && id !in states[j].ledger.sup.charged
    ensures id !in states[k].ledger.sup.charged
    ensures forall r :: r in states[k].ledger.roots ==> id !in states[k].ledger.roots[r].charged
  {
    hide TasksLinked, CallsSound, ReservedHeld, LocksCounted, OwnersHonest, Quotas, ParkedCloses, Anchored, Enabled, Apply;
    RunsAreSafe(states, steps, capacity, i);
    RunsAreSafe(states, steps, capacity, j);
    RunsAreSafe(states, steps, capacity, k);
    RunsGoForward(states, steps, capacity, i, j);
    RunsGoForward(states, steps, capacity, j, k);
    assert states[j].ledger.sup.book[id].state == Released;
  }

  /* ---------- what the invariant says ---------- */

  /** The supervisor's charged set is the disjoint union of the roots' sets, and both quotas hold. */
  lemma ChargedIsDisjointUnion(s: System)
    requires Inv(s)
    ensures s.ledger.sup.charged == set r, id | r in s.ledger.roots && id in s.ledger.roots[r].charged :: id
    ensures forall r, q :: r in s.ledger.roots && q in s.ledger.roots && r != q
              ==> s.ledger.roots[r].charged !! s.ledger.roots[q].charged
    ensures |s.ledger.sup.charged| <= s.ledger.sup.capacity
    ensures forall r :: r in s.ledger.roots ==> |s.ledger.roots[r].charged| <= s.ledger.roots[r].capacity
  {
  }

  /** Once no start_owned holds a bare slot and every task's callback has run, all counts are zero. */
  lemma SettledMeansEmpty(s: System)
    requires Inv(s)
    requires forall c :: c in s.calls ==> !s.calls[c].StartReserved?
    requires forall id :: id in s.ledger.sup.book && s.ledger.sup.book[id].task.Some? ==> id in s.calledBack
    ensures s.ledger.sup.charged == {}
    ensures forall r :: r in s.ledger.roots ==> s.ledger.roots[r].charged == {}
    ensures forall r, o :: r in s.ledger.roots ==> s.ledger.roots[r].OwnerOf(o) != ClosedWithSurvivors
  {
  }

  /** The state checks of `_activate` and of `park` never raise: no call meets a reservation in the wrong state. */
  lemma NoStateIsRefused(s: System, id: nat, task: nat)
    requires Inv(s)
    ensures Starting(s, id) ==>
              s.ledger.Known(id) &&
              var (sup, root, ok) := ActivateAttempt(s.ledger.sup, s.ledger.RootOf(id), id, task);
              ok && s.ledger.With(s.ledger.sup.book[id].root, (sup, root)) == s.ledger.Activate(id, task)
    ensures s.ledger.Handle(id) ==> s.ledger.ParkHandle(id, s.IsDone(id)).2 != NotActive
  {
    hide Sound, TasksLinked, LocksCounted;
    if Starting(s, id) {
      var c :| c in s.calls && s.calls[c] == StartReserved(id);
      assert CallOk(s.ledger, s.calls[c]);
    }
  }

  lemma ParkChecksLock(l: Ledger, id: nat, done: bool)
    requires l.Handle(id) && l.sup.book[id].state != Parked
    ensures var sup := l.ParkHandle(id, done).0;
            id in sup.book && (sup.book[id].state == Parked ==> l.sup.LockCount(l.sup.book[id].task.value) == 0)
    ensures l.ParkOrCloseOwner(id, done).0.sup == l.ParkHandle(id, done).0
    ensures forall j :: j in l.sup.book && j != id ==>
              j in l.ParkOrCloseOwner(id, done).0.sup.book && l.ParkOrCloseOwner(id, done).0.sup.book[j] == l.sup.book[j]
  {
  }

  lemma MoveChecksLock(s: System, call: Call, event: Event, id: nat)
    requires CallOk(s.ledger, call) && Fits(s, call, event)
    requires s.ledger.Known(id) && s.ledger.sup.book[id].state != Parked
    requires var m := Continue(s, call, event).0; id in m.sup.book && m.sup.book[id].state == Parked
    ensures s.ledger.sup.book[id].task.Some? && s.ledger.sup.LockCount(s.ledger.sup.book[id].task.value) == 0
  {
    hide Contained, ParkOrClose, ParkAttempt, Ledger.ParkHandle, Activated, ReleasedAt;
    if call.StartReserved? {
      SpawnParksNothing(s.ledger, call.id, id, event);
    } else if !call.StartEntry? {
      HandleMoveChecksLock(s, call, event, id);
    }
  }

  lemma SpawnParksNothing(l: Ledger, touched: nat, id: nat, event: Event)
    requires l.Known(touched) && l.Known(id) && l.sup.book[id].state != Parked
    ensures event.Spawned? ==> l.Activate(touched, event.task).sup.book[id].state != Parked
    ensures l.Release(touched).sup.book[id].state != Parked
  {
  }

  lemma HandleMoveChecksLock(s: System, call: Call, event: Event, id: nat)
    requires CallOk(s.ledger, call) && Fits(s, call, event) && !call.StartEntry? && !call.StartReserved?
    requires s.ledger.Known(id) && s.ledger.sup.book[id].state != Parked
    requires var m := Continue(s, call, event).0; id in m.sup.book && m.sup.book[id].state == Parked
    ensures s.ledger.sup.book[id].task.Some? && s.ledger.sup.LockCount(s.ledger.sup.book[id].task.value) == 0
  {
    hide Contained, ParkOrClose, ParkAttempt, Admit, Activated, Settled;
    var m := Continue(s, call, event).0;
    assert m == s.ledger || m == s.ledger.Settle(call.id, true) || m == s.ledger.ParkOrCloseOwner(call.id, s.IsDone(call.id)).0;
    if m == s.ledger.Settle(call.id, true) {
      SettleParksNothing(s.ledger, call.id, id);
    } else if s.ledger.sup.book[call.id].state != Parked {
      ParkChecksLock(s.ledger, call.id, s.IsDone(call.id));
    } else {
      ParkedStays(s.ledger, call.id, s.IsDone(call.id));
    }
  }

  lemma SettleParksNothing(l: Ledger, settled: nat, id: nat)
    requires l.Known(settled) && l.Known(id) && l.sup.book[id].state != Parked
    ensures id in l.Settle(settled, true).sup.book && l.Settle(settled, true).sup.book[id].state != Parked
  {
  }

  lemma ParkedStays(l: Ledger, id: nat, done: bool)
    requires l.Handle(id) && l.sup.book[id].state == Parked
    ensures forall j :: j in l.sup.book && j != id ==>
              j in l.ParkOrCloseOwner(id, done).0.sup.book && l.ParkOrCloseOwner(id, done).0.sup.book[j] == l.sup.book[j]
  {
  }

  /** The step to PARKED is taken only for a task that owns no lifecycle lock. */
  lemma ParkingHoldsNoLock(s: System, step: Step, id: nat)
    requires Inv(s) && Enabled(s, step)
    requires s.ledger.Known(id) && s.ledger.sup.book[id].state != Parked
    requires id in Apply(s, step).ledger.sup.book && Apply(s, step).ledger.sup.book[id].state == Parked
    ensures s.ledger.sup.book[id].task.Some? && LocksOf(s.lockOwners, s.ledger.sup.book[id].task.value) == {}
  {
    hide Sound, TasksLinked, CallsSound, ReservedHeld, Contained, Continue, ParkAttempt, LocksCounted;
    if step.Move? {
      MoveChecksLock(s, s.calls[step.caller], step.event, id);
    } else if step.ParkHandle? {
      HandleChecksLock(s, step.id, id);
    }
    NoLockNoOwner(s, s.ledger.sup.book[id].task.value);
  }

  lemma HandleChecksLock(s: System, parked: nat, id: nat)
    requires Enabled(s, ParkHandle(parked)) && s.ledger.Known(id) && s.ledger.sup.book[id].state != Parked
    requires id in Apply(s, ParkHandle(parked)).ledger.sup.book
    requires Apply(s, ParkHandle(parked)).ledger.sup.book[id].state == Parked
    ensures s.ledger.sup.book[id].task.Some? && s.ledger.sup.LockCount(s.ledger.sup.book[id].task.value) == 0
  {
  }

  lemma NoLockNoOwner(s: System, task: nat)
    requires LocksCounted(s) && s.ledger.sup.LockCount(task) == 0
    ensures LocksOf(s.lockOwners, task) == {}
  {
  }

  /** No new work is admitted for the owner of a parked task, nor for one that refused to park. */
  lemma SurvivorsCloseAdmission(s: System, id: nat, name: string)
    requires Inv(s) && s.ledger.Handle(id) && Contained(s.ledger, id) && s.ledger.sup.book[id].state != Released
    requires s.ledger.sup.book[id].owner != "" && name != ""
    ensures Admit(s.ledger.sup, s.ledger.RootOf(id), s.ledger.sup.book[id].owner, name) == Err(OwnerIsClosed)
  {
  }

  /* ---------- what each call has established when it returns ---------- */

  /** `id` is charged to the supervisor and to its root. */
  predicate Charged(l: Ledger, id: nat) {
    l.Known(id) && id in l.sup.charged && id in l.RootOf(id).charged
  }

  lemma LiveIsCharged(l: Ledger, id: nat)
    requires Books(l) && l.Known(id)
    ensures Charged(l, id) <==> l.sup.book[id].state != Released
  {
  }

  /**
   * start_owned: refused or cancelled early, it has charged nothing; failing before the spawn, its slot
   * is back in both quotas and there is no task; otherwise the task it spawned is anchored by a slot
   * charged to both quotas unless the task is already done, and a cancelled caller leaves it contained.
   */
  lemma StartOwnedExits(s: System, c: nat, event: Event)
    requires Inv(s) && Enabled(s, Move(c, event)) && Apply(s, Move(c, event)).calls[c].Ended?
    requires s.calls[c].StartEntry? || s.calls[c].StartReserved? || s.calls[c].StartSpawned?
    ensures var t := Apply(s, Move(c, event));
            match t.calls[c].outcome
            case NotAdmitted => t.ledger == s.ledger
            case StartFailed(id) =>
              && Charged(s.ledger, id) && id !in t.ledger.sup.charged && t.ledger.sup.book[id].task == None
              && t.ledger.sup.charged == s.ledger.sup.charged - {id}
              && t.ledger.RootOf(id).charged == s.ledger.RootOf(id).charged - {id}
            case Started(id) => t.ledger.Handle(id) && (t.IsDone(id) || Charged(t.ledger, id))
            case StartAbandoned(id) =>
              t.ledger.Handle(id) && Contained(t.ledger, id) && (t.IsDone(id) || Charged(t.ledger, id))
            case _ => false
  {
    hide TasksLinked, CallsSound, ReservedHeld, LocksCounted, OwnersHonest, Quotas, ParkedCloses, Anchored, Advances, Books;
    MoveKeeps(s, c, event);
    var t := Apply(s, Move(c, event));
    if s.calls[c].StartReserved? {
      NoTaskYet(s, s.calls[c].id);
      LiveIsCharged(s.ledger, s.calls[c].id);
      LiveIsCharged(t.ledger, s.calls[c].id);
    } else if s.calls[c].StartSpawned? {
      ParkMoves(s, s.calls[c].id);
      AnchoredUnlessDone(t, s.calls[c].id);
    }
  }

  lemma NoTaskYet(s: System, id: nat)
    requires TasksLinked(s) && id in s.ledger.sup.book && s.ledger.sup.book[id].state == Reserved
    ensures s.ledger.sup.book[id].task == None
  {
  }

  lemma AnchoredUnlessDone(t: System, id: nat)
    requires Inv(t) && t.ledger.Handle(id)
    ensures t.IsDone(id) || Charged(t.ledger, id)
  {
  }

  /**
   * hard_timeout: COMPLETED means the slot has been given back; TIMED_OUT_PARKED means parked and still
   * charged; a refusal to park means still active and charged, holding a lock, with its owner closed.
   */
  lemma HardTimeoutReturns(s: System, c: nat, event: Event)
    requires Inv(s) && Enabled(s, Move(c, event)) && Apply(s, Move(c, event)).calls[c].Ended?
    requires s.calls[c].TimeoutEntry? || s.calls[c].TimeoutWaiting? || s.calls[c].TimeoutSettled?
    ensures var t := Apply(s, Move(c, event));
            match t.calls[c].outcome
            case Completed(id) =>
              t.ledger.Handle(id) && t.IsDone(id) && t.ledger.sup.book[id].state == Released && !Charged(t.ledger, id)
            case TimedOutParked(id) => t.ledger.Handle(id) && t.ledger.sup.book[id].state == Parked && Charged(t.ledger, id)
            case ParkRejected(id) =>
              && t.ledger.Handle(id) && t.ledger.sup.book[id].state == Active && Charged(t.ledger, id)
              && t.ledger.OwnerStateOf(id) == ClosedWithSurvivors
              && LocksOf(t.lockOwners, t.ledger.sup.book[id].task.value) != {}
            case GaveUp(id) => Contained(t.ledger, id)
            case _ => false
  {
    hide TasksLinked, CallsSound, ReservedHeld, LocksCounted, OwnersHonest, Quotas, ParkedCloses, Anchored;
    hide Advances, Books, Touches;
    MoveKeeps(s, c, event);
    var t, id := Apply(s, Move(c, event)), s.calls[c].id;
    AnchoredUnlessDone(t, id);
    LiveIsCharged(t.ledger, id);
    if t.calls[c].outcome.Completed? {
      ReleasedIsDone(t, id);
    } else {
      ParkOrCloseAdvances(s.ledger, id, s.IsDone(id));
      if t.calls[c].outcome.ParkRejected? {
        LockHeldHasOwner(s, s.ledger.sup.book[id].task.value);
      }
    }
  }

  lemma ReleasedIsDone(t: System, id: nat)
    requires TasksLinked(t) && t.ledger.Handle(id) && t.ledger.sup.book[id].state == Released
    ensures t.IsDone(id)
  {
  }

  lemma LockHeldHasOwner(s: System, task: nat)
    requires LocksCounted(s) && s.ledger.sup.LockCount(task) > 0
    ensures LocksOf(s.lockOwners, task) != {}
  {
  }

  /**
   * What a call returned stays true for the rest of the run: a completed timeout never sees its slot
   * charged again, and a reaped, abandoned or refused task stays released or behind a closed owner.
   */
  lemma {:induction false} OutcomesLast(states: seq<System>, steps: seq<Step>, capacity: nat, c: nat, i: nat, k: nat)
    requires IsRun(states, steps) && states[0] == Initial(capacity) && i <= k <= |steps|
    requires c in states[i].calls && states[i].calls[c].Ended?
    ensures c in states[k].calls && states[k].calls[c] == states[i].calls[c]
    ensures OutcomeOk(states[k].ledger, states[i].calls[c].outcome)
  {
    hide Sound, TasksLinked, ReservedHeld, LocksCounted, OutcomeOk, Enabled, Apply;
    RunsAreSafe(states, steps, capacity, k);
    if k > i {
      OutcomesLast(states, steps, capacity, c, i, k - 1);
      EndedStays(states[k - 1], steps[k - 1], c);
    }
    assert CallOk(states[k].ledger, states[k].calls[c]);
  }

  lemma EndedStays(s: System, step: Step, c: nat)
    requires Enabled(s, step) && c in s.calls && s.calls[c].Ended?
    ensures c in Apply(s, step).calls && Apply(s, step).calls[c] == s.calls[c]
  {
  }
}
