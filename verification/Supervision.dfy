/**
 * Capacity accounting of src/easycat/_concurrency.py: a runtime supervisor shared by lifecycle-root
 * registries, reservations, owner states and lifecycle-lock counts.
 *
 * A reservation object is known by its id; `book` holds every reservation ever made, released ones
 * included, because task handles keep referring to them. `charged` are the ids a dictionary of the
 * source holds. Tasks are known by number. Journal callbacks are left out.
 */
module Supervision {
  import opened Prelude

  datatype ReservationState = Reserved | Active | Parked | Released {
    function Rank(): nat {
      match this case Reserved => 0 case Active => 1 case Parked => 2 case Released => 3
    }
  }

  datatype OwnerState = Open | ClosedWithSurvivors | Closed

  datatype Reservation = Reservation(root: nat, owner: string, task: Option<nat>, state: ReservationState)

  datatype Refusal = EmptyLabel | OwnerIsClosed | RootFull | RuntimeFull | LockHeld

  /** The supervisor and one registry, as values. */
  datatype Supervisor = Supervisor(
    capacity: nat, nextId: nat, book: map<nat, Reservation>, charged: set<nat>, locks: map<nat, nat>)
  {
    function LockCount(task: nat): nat { if task in locks then locks[task] else 0 }

    function WithState(id: nat, state: ReservationState): Supervisor
      requires id in book
    {
      this.(book := book[id := book[id].(state := state)])
    }
  }

  datatype Root = Root(id: nat, capacity: nat, charged: set<nat>, owned: set<nat>, owners: map<string, OwnerState>) {
    function OwnerOf(owner: string): OwnerState { if owner in owners then owners[owner] else Open }
  }

  /** Whether `owner` still holds a charged reservation of this root. */
  predicate HasWork(book: map<nat, Reservation>, charged: set<nat>, owner: string) {
    exists id :: id in charged && id in book && book[id].owner == owner
  }

  /* ---------- what each operation does ---------- */

  function Admit(sup: Supervisor, root: Root, owner: string, name: string): Result<(Supervisor, Root), Refusal> {
    if owner == "" || name == "" then Err(EmptyLabel)
    else if root.OwnerOf(owner) != Open then Err(OwnerIsClosed)
    else if |root.charged| >= root.capacity then Err(RootFull)
    else if |sup.charged| >= sup.capacity then Err(RuntimeFull)
    else
      var id := sup.nextId;
      Ok((sup.(nextId := id + 1, book := sup.book[id := Reservation(root.id, owner, None, Reserved)],
               charged := sup.charged + {id}),
          root.(charged := root.charged + {id})))
  }

  function Activated(sup: Supervisor, root: Root, id: nat, task: nat): (Supervisor, Root)
    requires id in sup.book
  {
    (sup.(book := sup.book[id := sup.book[id].(task := Some(task), state := Active)]),
     root.(owned := root.owned + {id}))
  }

  /** A reservation in the wrong state is refused with a RuntimeError, after the registry took in the handle. */
  function ActivateAttempt(sup: Supervisor, root: Root, id: nat, task: nat): (Supervisor, Root, bool)
    requires id in sup.book
  {
    if sup.book[id].state != Reserved then (sup, root.(owned := root.owned + {id}), false)
    else var (s, r) := Activated(sup, root, id, task); (s, r, true)
  }

  function ParkedAt(sup: Supervisor, root: Root, id: nat): (Supervisor, Root)
    requires id in sup.book
  {
    (sup.WithState(id, Parked), root.(owners := root.owners[sup.book[id].owner := ClosedWithSurvivors]))
  }

  function ReleasedAt(sup: Supervisor, root: Root, id: nat): (Supervisor, Root)
    requires id in sup.book
  {
    if sup.book[id].state == Released then (sup, root)
    else
      var owner := sup.book[id].owner;
      var sup' := sup.WithState(id, Released).(charged := sup.charged - {id});
      var root' := root.(charged := root.charged - {id}, owned := root.owned - {id});
      if root.OwnerOf(owner) == ClosedWithSurvivors && !HasWork(sup'.book, root'.charged, owner)
      then (sup', root'.(owners := root.owners[owner := Closed]))
      else (sup', root')
  }

  function ClosedOwner(sup: Supervisor, root: Root, owner: string): Root {
    root.(owners := root.owners[owner := if HasWork(sup.book, root.charged, owner) then ClosedWithSurvivors else Closed])
  }

  function Forgotten(sup: Supervisor, root: Root, owner: string): (Root, bool) {
    if root.OwnerOf(owner) != Closed || HasWork(sup.book, root.charged, owner) then (root, false)
    else (root.(owners := root.owners - {owner}), true)
  }

  function Acquired(locks: map<nat, nat>, task: nat): map<nat, nat> {
    locks[task := (if task in locks then locks[task] else 0) + 1]
  }

  function Relinquished(locks: map<nat, nat>, task: nat): map<nat, nat> {
    var count := if task in locks then locks[task] else 0;
    if count <= 1 then locks - {task} else locks[task := count - 1]
  }

  /** `OwnedTask._settle`. */
  function Settled(sup: Supervisor, root: Root, id: nat, done: bool): (Supervisor, Root)
    requires id in sup.book
  {
    if sup.book[id].state == Released || !done then (sup, root) else ReleasedAt(sup, root, id)
  }

  datatype ParkResult = ParkedNow | NothingToPark | NotActive | HoldsLock

  /** `OwnedTask.park` of a handle on `task`; `NotActive` is its RuntimeError. */
  function ParkAttempt(sup: Supervisor, root: Root, id: nat, task: nat, done: bool): (Supervisor, Root, ParkResult)
    requires id in sup.book
  {
    if done then
      var (s, r) := Settled(sup, root, id, done);
      (s, r, NothingToPark)
    else if sup.book[id].state in {Parked, Released} then (sup, root, NothingToPark)
    else if sup.book[id].state != Active then (sup, root, NotActive)
    else if sup.LockCount(task) > 0 then (sup, root, HoldsLock)
    else
      var (s, r) := ParkedAt(sup, root, id);
      (s, r, ParkedNow)
  }

  /** `_park_or_close`: a park refused for a held lock closes the owner. */
  function ParkOrClose(sup: Supervisor, root: Root, id: nat, task: nat, done: bool): (Supervisor, Root, ParkResult)
    requires id in sup.book
  {
    var (s, r, result) := ParkAttempt(sup, root, id, task, done);
    if result == HoldsLock then (s, ClosedOwner(s, r, s.book[id].owner), result) else (s, r, result)
  }

  /* ---------- the objects ---------- */

  class RuntimeSupervisor {
    const capacity: nat
    var book: map<nat, Reservation>
    var reservations: set<nat>
    var nextReservationId: nat
    var lifecycleLockCounts: map<nat, nat>

    ghost function View(): Supervisor
      reads this
    {
      Supervisor(capacity, nextReservationId, book, reservations, lifecycleLockCounts)
    }

    constructor (capacity: nat)
      requires capacity >= 1
      ensures View() == Supervisor(capacity, 1, map[], {}, map[])
    {
      this.capacity := capacity;
      book, reservations, nextReservationId, lifecycleLockCounts := map[], {}, 1, map[];
    }

    method Reserve(root: nat, owner: string) returns (r: Result<nat, Refusal>)
      modifies this
      ensures |old(reservations)| >= capacity ==> r == Err(RuntimeFull) && View() == old(View())
      ensures |old(reservations)| < capacity ==>
                r == Ok(old(nextReservationId)) &&
                View() == old(View()).(
                  nextId := old(nextReservationId) + 1,
                  book := old(book)[old(nextReservationId) := Reservation(root, owner, None, Reserved)],
                  charged := old(reservations) + {old(nextReservationId)})
    {
      if |reservations| >= capacity { return Err(RuntimeFull); }
      var id := nextReservationId;
      nextReservationId := nextReservationId + 1;
      book := book[id := Reservation(root, owner, None, Reserved)];
      reservations := reservations + {id};
      return Ok(id);
    }

    /** `_activate`; any other state than RESERVED is refused. */
    method Activate(id: nat, task: nat) returns (ok: bool)
      requires id in book
      modifies `book
      ensures ok == (old(book)[id].state == Reserved)
      ensures book == if ok then old(book)[id := old(book)[id].(task := Some(task), state := Active)] else old(book)
    {
      if book[id].state != Reserved { return false; }
      book := book[id := book[id].(task := Some(task))];
      book := book[id := book[id].(state := Active)];
      return true;
    }

    /** `_park`; any other state than ACTIVE is refused. */
    method Park(id: nat) returns (ok: bool)
      requires id in book
      modifies `book
      ensures ok == (old(book)[id].state == Active)
      ensures View() == if ok then old(View()).WithState(id, Parked) else old(View())
    {
      if book[id].state != Active { return false; }
      book := book[id := book[id].(state := Parked)];
      return true;
    }

    method Release(id: nat)
      requires id in book
      modifies `book, `reservations
      ensures old(book)[id].state == Released ==> book == old(book) && reservations == old(reservations)
      ensures old(book)[id].state != Released ==>
                View() == old(View()).WithState(id, Released).(charged := old(reservations) - {id})
    {
      if book[id].state == Released { return; }
      book := book[id := book[id].(state := Released)];
      reservations := reservations - {id};
    }

    method LifecycleLockAcquired(task: nat)
      modifies `lifecycleLockCounts
      ensures lifecycleLockCounts == Acquired(old(lifecycleLockCounts), task)
    {
      var count := if task in lifecycleLockCounts then lifecycleLockCounts[task] else 0;
      lifecycleLockCounts := lifecycleLockCounts[task := count + 1];
    }

    method LifecycleLockReleased(task: nat)
      modifies `lifecycleLockCounts
      ensures lifecycleLockCounts == Relinquished(old(lifecycleLockCounts), task)
    {
      var count := if task in lifecycleLockCounts then lifecycleLockCounts[task] else 0;
      if count <= 1 {
        lifecycleLockCounts := lifecycleLockCounts - {task};
      } else {
        lifecycleLockCounts := lifecycleLockCounts[task := count - 1];
      }
    }
  }

  class SurvivorRegistry {
    const supervisor: RuntimeSupervisor
    const rootId: nat
    const capacity: nat
    var reservations: set<nat>
    var owned: set<nat>
    var ownerStates: map<string, OwnerState>

    ghost function View(): Root
      reads this
    {
      Root(rootId, capacity, reservations, owned, ownerStates)
    }

    constructor (supervisor: RuntimeSupervisor, rootId: nat, capacity: nat)
      requires capacity >= 1
      ensures this.supervisor == supervisor && View() == Root(rootId, capacity, {}, {}, map[])
    {
      this.supervisor, this.rootId, this.capacity := supervisor, rootId, capacity;
      reservations, owned, ownerStates := {}, {}, map[];
    }

    function OwnerStateOf(owner: string): (s: OwnerState)
      reads this
      ensures s == View().OwnerOf(owner)
    {
      if owner in ownerStates then ownerStates[owner] else Open
    }

    predicate Working(owner: string)
      reads this, supervisor
    {
      HasWork(supervisor.book, reservations, owner)
    }

    /** Both quotas are charged, or neither is. */
    method Reserve(owner: string, taskName: string) returns (r: Result<nat, Refusal>)
      modifies this, supervisor
      ensures match Admit(old(supervisor.View()), old(View()), owner, taskName)
              case Ok((s, g)) => supervisor.View() == s && View() == g && r == Ok(old(supervisor.nextReservationId))
              case Err(e) => supervisor.View() == old(supervisor.View()) && View() == old(View()) && r == Err(e)
    {
      if owner == "" || taskName == "" { return Err(EmptyLabel); }
      if OwnerStateOf(owner) != Open { return Err(OwnerIsClosed); }
      if |reservations| >= capacity { return Err(RootFull); }
      r := supervisor.Reserve(rootId, owner);
      if r.Ok? {
        reservations := reservations + {r.value};
      }
    }

    method Activate(id: nat, task: nat) returns (ok: bool)
      requires id in supervisor.book
      modifies this, supervisor
      ensures (supervisor.View(), View(), ok) == ActivateAttempt(old(supervisor.View()), old(View()), id, task)
    {
      owned := owned + {id};
      ok := supervisor.Activate(id, task);
    }

    /** Nothing happens to a reservation that is not active. */
    method Park(id: nat) returns (ok: bool)
      requires id in supervisor.book
      modifies this, supervisor
      ensures ok == (old(supervisor.book)[id].state == Active)
      ensures (supervisor.View(), View()) == if ok then ParkedAt(old(supervisor.View()), old(View()), id)
                                             else (old(supervisor.View()), old(View()))
    {
      ok := supervisor.Park(id);
      if ok {
        ownerStates := ownerStates[supervisor.book[id].owner := ClosedWithSurvivors];
      }
    }

    method Release(id: nat)
      requires id in supervisor.book
      modifies this, supervisor
      ensures (supervisor.View(), View()) == ReleasedAt(old(supervisor.View()), old(View()), id)
    {
      if supervisor.book[id].state == Released { return; }
      var owner := supervisor.book[id].owner;
      reservations := reservations - {id};
      owned := owned - {id};
      supervisor.Release(id);
      if OwnerStateOf(owner) == ClosedWithSurvivors && !Working(owner) {
        ownerStates := ownerStates[owner := Closed];
      }
    }

    method CloseOwner(owner: string) returns (state: OwnerState)
      modifies this
      ensures View() == ClosedOwner(supervisor.View(), old(View()), owner) && state == View().OwnerOf(owner)
    {
      state := if Working(owner) then ClosedWithSurvivors else Closed;
      ownerStates := ownerStates[owner := state];
    }

    method ForgetClosedOwner(owner: string) returns (dropped: bool)
      modifies this
      ensures (View(), dropped) == Forgotten(supervisor.View(), old(View()), owner)
    {
      if OwnerStateOf(owner) != Closed { return false; }
      if Working(owner) { return false; }
      ownerStates := ownerStates - {owner};
      return true;
    }
  }

  /** A handle; whether its task is done is for the event loop to say. */
  class OwnedTask {
    const task: nat
    const registry: SurvivorRegistry
    const reservation: nat

    constructor (task: nat, registry: SurvivorRegistry, reservation: nat)
      ensures this.task == task && this.registry == registry && this.reservation == reservation
    {
      this.task, this.registry, this.reservation := task, registry, reservation;
    }

    method Settle(done: bool)
      requires reservation in registry.supervisor.book
      modifies registry, registry.supervisor
      ensures (registry.supervisor.View(), registry.View())
           == Settled(old(registry.supervisor.View()), old(registry.View()), reservation, done)
    {
      if registry.supervisor.book[reservation].state == Released || !done { return; }
      registry.Release(reservation);
    }

    method Park(done: bool) returns (result: ParkResult)
      requires reservation in registry.supervisor.book
      modifies registry, registry.supervisor
      ensures (registry.supervisor.View(), registry.View(), result)
           == ParkAttempt(old(registry.supervisor.View()), old(registry.View()), reservation, task, done)
    {
      if done {
        Settle(done);
        return NothingToPark;
      }
      var supervisor := registry.supervisor;
      if supervisor.book[reservation].state in {Parked, Released} { return NothingToPark; }
      if supervisor.book[reservation].state != Active { return NotActive; }
      var count := if task in supervisor.lifecycleLockCounts then supervisor.lifecycleLockCounts[task] else 0;
      if count > 0 { return HoldsLock; }
      var parked := registry.Park(reservation);
      return ParkedNow;
    }

    /** `_park_or_close`. */
    method ParkOrCloseOwner(done: bool) returns (result: ParkResult)
      requires reservation in registry.supervisor.book
      modifies registry, registry.supervisor
      ensures (registry.supervisor.View(), registry.View(), result)
           == ParkOrClose(old(registry.supervisor.View()), old(registry.View()), reservation, task, done)
    {
      result := Park(done);
      if result == HoldsLock {
        var state := registry.CloseOwner(registry.supervisor.book[reservation].owner);
      }
    }
  }

  /** A lock that tells the supervisor which task holds it. */
  class LifecycleLock {
    const supervisor: RuntimeSupervisor
    var owner: Option<nat>

    constructor (supervisor: RuntimeSupervisor)
      ensures this.supervisor == supervisor && owner == None
    {
      this.supervisor, owner := supervisor, None;
    }

    /** The part of `acquire` that follows once the underlying lock has been granted. */
    method Granted(task: nat)
      requires owner == None
      modifies this, supervisor
      ensures owner == Some(task)
      ensures supervisor.View() == old(supervisor.View()).(locks := Acquired(old(supervisor.lifecycleLockCounts), task))
    {
      owner := Some(task);
      supervisor.LifecycleLockAcquired(task);
    }

    method Release(task: nat) returns (ok: bool)
      modifies this, supervisor
      ensures ok == (old(owner) == Some(task))
      ensures owner == if ok then None else old(owner)
      ensures supervisor.View() == if ok
              then old(supervisor.View()).(locks := Relinquished(old(supervisor.lifecycleLockCounts), task))
              else old(supervisor.View())
    {
      if owner != Some(task) { return false; }
      owner := None;
      supervisor.LifecycleLockReleased(task);
      return true;
    }
  }
}
