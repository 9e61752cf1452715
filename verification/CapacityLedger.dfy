/**
 * What every operation of Supervision keeps, for any number of lifecycle roots on one supervisor.
 *
 * A ledger is the supervisor with all its roots. Each operation is lifted to ledgers and shown to
 * keep the accounts (`Books`), to keep the owner states honest (`OwnersHonest`) and to move
 * reservations forward only (`Forward`).
 */
module CapacityLedger {
  import opened Prelude
  import opened Supervision

  datatype Ledger = Ledger(sup: Supervisor, roots: map<nat, Root>) {
    predicate Known(id: nat) { id in sup.book && sup.book[id].root in roots }

    /** There is a task handle for `id`. */
    predicate Handle(id: nat) { Known(id) && sup.book[id].task.Some? && sup.book[id].state != Reserved }

    function RootOf(id: nat): Root
      requires Known(id)
    {
      roots[sup.book[id].root]
    }

    function OwnerStateOf(id: nat): OwnerState
      requires Known(id)
    {
      RootOf(id).OwnerOf(sup.book[id].owner)
    }

    function With(r: nat, pair: (Supervisor, Root)): Ledger { Ledger(pair.0, roots[r := pair.1]) }

    function Admitted(r: nat, owner: string, name: string): Ledger
      requires r in roots && Admit(sup, roots[r], owner, name).Ok?
    {
      With(r, Admit(sup, roots[r], owner, name).value)
    }

    function Activate(id: nat, task: nat): Ledger
      requires Known(id)
    {
      With(sup.book[id].root, Activated(sup, RootOf(id), id, task))
    }

    function Park(id: nat): Ledger
      requires Known(id)
    {
      With(sup.book[id].root, ParkedAt(sup, RootOf(id), id))
    }

    function Release(id: nat): Ledger
      requires Known(id)
    {
      With(sup.book[id].root, ReleasedAt(sup, RootOf(id), id))
    }

    function CloseOwner(r: nat, owner: string): Ledger
      requires r in roots
    {
      With(r, (sup, ClosedOwner(sup, roots[r], owner)))
    }

    function ForgetOwner(r: nat, owner: string): Ledger
      requires r in roots
    {
      With(r, (sup, Forgotten(sup, roots[r], owner).0))
    }

    function Settle(id: nat, done: bool): Ledger
      requires Known(id)
    {
      With(sup.book[id].root, Settled(sup, RootOf(id), id, done))
    }

    function ParkHandle(id: nat, done: bool): (Supervisor, Root, ParkResult)
      requires Handle(id)
    {
      ParkAttempt(sup, RootOf(id), id, sup.book[id].task.value, done)
    }

    function ParkOrCloseOwner(id: nat, done: bool): (Ledger, bool)
      requires Handle(id)
    {
      var (s, r, result) := ParkOrClose(sup, RootOf(id), id, sup.book[id].task.value, done);
      (With(sup.book[id].root, (s, r)), result == HoldsLock)
    }
  }

  /* ---------- invariants ---------- */

  /** The charged ids of every root are exactly its share of the supervisor's. */
  ghost predicate Books(l: Ledger) {
    && (forall id :: id in l.sup.charged <==> id in l.sup.book && l.sup.book[id].state != Released)
    && (forall id :: id in l.sup.book ==> id < l.sup.nextId && l.sup.book[id].root in l.roots)
    && (forall r, id :: r in l.roots ==>
          (id in l.roots[r].charged <==> id in l.sup.charged && l.sup.book[id].root == r))
    && (forall r :: r in l.roots ==> l.roots[r].id == r)
  }

  ghost predicate Quotas(l: Ledger) {
    && |l.sup.charged| <= l.sup.capacity
    && (forall r :: r in l.roots ==> |l.roots[r].charged| <= l.roots[r].capacity)
  }

  /** Some charged reservation of root `r` belongs to `owner`. */
  ghost predicate Works(l: Ledger, r: nat, owner: string) {
    exists id :: Holds(l, r, owner, id)
  }

  predicate Holds(l: Ledger, r: nat, owner: string, id: nat) {
    id in l.sup.charged && id in l.sup.book && l.sup.book[id].root == r && l.sup.book[id].owner == owner
  }

  /** A closed owner has no charged reservation and one closed with survivors has some. */
  ghost predicate OwnersHonest(l: Ledger) {
    && (forall r, o :: r in l.roots && l.roots[r].OwnerOf(o) == Closed ==> !Works(l, r, o))
    && (forall r, o :: r in l.roots && l.roots[r].OwnerOf(o) == ClosedWithSurvivors ==> Works(l, r, o))
  }

  /** A parked reservation closes its owner to admission. */
  ghost predicate ParkedCloses(l: Ledger) {
    forall id :: l.Known(id) && l.sup.book[id].state == Parked ==> l.OwnerStateOf(id) == ClosedWithSurvivors
  }

  /** A root keeps the handle of every task it has a charged reservation for, and no other. */
  ghost predicate Anchored(l: Ledger) {
    forall r :: r in l.roots ==> HandlesKept(l.sup.book, l.roots[r])
  }

  ghost predicate HandlesKept(book: map<nat, Reservation>, root: Root) {
    && (forall id :: id in root.owned ==> id in root.charged && Spawned(book, id))
    && (forall id :: id in root.charged && Spawned(book, id) ==> id in root.owned)
  }

  predicate Spawned(book: map<nat, Reservation>, id: nat) { id in book && book[id].state != Reserved }

  ghost predicate Sound(l: Ledger) { Books(l) && Quotas(l) && OwnersHonest(l) && ParkedCloses(l) && Anchored(l) }

  predicate Later(a: Reservation, b: Reservation) {
    && a.root == b.root && a.owner == b.owner && a.state.Rank() <= b.state.Rank()
    && (a.task.Some? ==> b.task == a.task) && (a.state == Released ==> b == a)
  }

  /** What later steps may do to earlier ones: ids are not reused and no reservation moves back. */
  ghost predicate Forward(l: Ledger, m: Ledger) {
    && l.sup.nextId <= m.sup.nextId && l.sup.capacity == m.sup.capacity
    && (forall id :: id in l.sup.book ==> id in m.sup.book && Later(l.sup.book[id], m.sup.book[id]))
    && (forall id :: id in m.sup.book && id !in l.sup.book ==> l.sup.nextId <= id)
    && (forall r :: r in l.roots ==> r in m.roots && m.roots[r].capacity == l.roots[r].capacity)
  }

  lemma ForwardTrans(a: Ledger, b: Ledger, c: Ledger)
    requires Forward(a, b) && Forward(b, c)
    ensures Forward(a, c)
  {
  }

  /** An owner closed with survivors admits nothing until the last of them is released. */
  ghost predicate StaysClosed(l: Ledger, m: Ledger) {
    forall id :: id in l.sup.charged && id in m.sup.charged && l.Known(id) && m.Known(id)
      ==> (l.OwnerStateOf(id) == ClosedWithSurvivors ==> m.OwnerStateOf(id) == ClosedWithSurvivors)
  }

  /* ---------- the accounts ---------- */

  /** Admission adds one fresh record to the book, without a task. */
  lemma AdmittedBook(l: Ledger, root: nat, owner: string, name: string)
    requires Books(l) && root in l.roots && Admit(l.sup, l.roots[root], owner, name).Ok?
    ensures var m := l.Admitted(root, owner, name);
            && l.sup.nextId !in l.sup.book && m.sup.locks == l.sup.locks
            && m.sup.book == l.sup.book[l.sup.nextId := Reservation(root, owner, None, Reserved)]
  {
  }

  lemma AdmitBooks(l: Ledger, r: nat, owner: string, name: string)
    requires Books(l) && r in l.roots && Admit(l.sup, l.roots[r], owner, name).Ok?
    ensures Books(l.Admitted(r, owner, name))
  {
    var m, id := l.Admitted(r, owner, name), l.sup.nextId;
    assert id !in l.sup.book && id !in l.sup.charged;
    assert m.sup.charged == l.sup.charged + {id};
    forall q, j | q in m.roots
      ensures j in m.roots[q].charged <==> j in m.sup.charged && m.sup.book[j].root == q
    {
      assert j in l.roots[q].charged <==> j in l.sup.charged && l.sup.book[j].root == q;
      assert m.sup.book[id].root == r;
    }
  }

  lemma AdmitQuotas(l: Ledger, r: nat, owner: string, name: string)
    requires Quotas(l) && r in l.roots && Admit(l.sup, l.roots[r], owner, name).Ok?
    ensures Quotas(l.Admitted(r, owner, name))
  {
  }

  /** Only the reservation at `id` changes, from one charged state to another. */
  lemma ChargedStateBooks(l: Ledger, m: Ledger, id: nat, after: Reservation)
    requires Books(l) && l.Known(id) && l.sup.book[id].state != Released
    requires m.sup == l.sup.(book := l.sup.book[id := after]) && after.root == l.sup.book[id].root
    requires after.state != Released && m.roots.Keys == l.roots.Keys
    requires forall r :: r in l.roots ==> m.roots[r].charged == l.roots[r].charged && m.roots[r].id == l.roots[r].id
    ensures Books(m)
  {
  }

  lemma ReleaseBooks(l: Ledger, id: nat)
    requires Books(l) && l.Known(id)
    ensures Books(l.Release(id))
  {
    var m := l.Release(id);
    if l.sup.book[id].state == Released {
      assert m == l;
    } else {
      forall r, j | r in m.roots
        ensures j in m.roots[r].charged <==> j in m.sup.charged && m.sup.book[j].root == r
      {
        assert j in l.roots[r].charged <==> j in l.sup.charged && l.sup.book[j].root == r;
        assert id in l.roots[l.sup.book[id].root].charged;
      }
    }
  }

  lemma ReleaseQuotas(l: Ledger, id: nat)
    requires Quotas(l) && l.Known(id)
    ensures Quotas(l.Release(id))
  {
  }

  /* ---------- the owner states ---------- */

  lemma HasWorkIsWorks(l: Ledger, r: nat, owner: string)
    requires Books(l) && r in l.roots
    ensures HasWork(l.sup.book, l.roots[r].charged, owner) <==> Works(l, r, owner)
  {
    if HasWork(l.sup.book, l.roots[r].charged, owner) {
      var id :| id in l.roots[r].charged && id in l.sup.book && l.sup.book[id].owner == owner;
      assert Holds(l, r, owner, id);
    }
    if Works(l, r, owner) {
      var id :| Holds(l, r, owner, id);
      assert id in l.roots[r].charged;
    }
  }

  lemma AdmitOwners(l: Ledger, r: nat, owner: string, name: string)
    requires Books(l) && OwnersHonest(l) && r in l.roots && Admit(l.sup, l.roots[r], owner, name).Ok?
    ensures OwnersHonest(l.Admitted(r, owner, name))
  {
    var m, id := l.Admitted(r, owner, name), l.sup.nextId;
    assert id !in l.sup.charged && m.sup.book[id].root == r && m.sup.book[id].owner == owner;
    forall q, o | !(q == r && o == owner) ensures Works(m, q, o) <==> Works(l, q, o) {
      WorksSame(l, m, q, o, id);
    }
    forall q, o | q in m.roots ensures l.roots[q].OwnerOf(o) == m.roots[q].OwnerOf(o) {
    }
  }

  /** Reservations other than `id` are charged and labelled alike, and `id` is not this owner's. */
  lemma WorksSame(l: Ledger, m: Ledger, r: nat, owner: string, id: nat)
    requires forall j :: j != id ==> (Holds(l, r, owner, j) <==> Holds(m, r, owner, j))
    requires Holds(l, r, owner, id) <==> Holds(m, r, owner, id)
    ensures Works(m, r, owner) <==> Works(l, r, owner)
  {
  }

  lemma ActivateOwners(l: Ledger, id: nat, task: nat)
    requires OwnersHonest(l) && l.Known(id)
    ensures OwnersHonest(l.Activate(id, task))
  {
    var m := l.Activate(id, task);
    forall q, o ensures Works(m, q, o) <==> Works(l, q, o) {
      WorksSame(l, m, q, o, id);
    }
    forall q, o | q in m.roots ensures m.roots[q].OwnerOf(o) == l.roots[q].OwnerOf(o) {
    }
  }

  lemma ParkOwners(l: Ledger, id: nat)
    requires Books(l) && OwnersHonest(l) && l.Known(id) && l.sup.book[id].state == Active
    ensures OwnersHonest(l.Park(id))
  {
    var m := l.Park(id);
    var r, owner := l.sup.book[id].root, l.sup.book[id].owner;
    forall q, o ensures Works(m, q, o) <==> Works(l, q, o) {
      WorksSame(l, m, q, o, id);
    }
    assert Holds(l, r, owner, id);
    forall q, o | q in m.roots && !(q == r && o == owner) ensures m.roots[q].OwnerOf(o) == l.roots[q].OwnerOf(o) {
    }
  }

  lemma ReleaseOwners(l: Ledger, id: nat)
    requires Books(l) && OwnersHonest(l) && l.Known(id)
    ensures OwnersHonest(l.Release(id))
  {
    var m := l.Release(id);
    if l.sup.book[id].state == Released {
      assert m == l;
    } else {
      var r, owner := l.sup.book[id].root, l.sup.book[id].owner;
      ReleaseBooks(l, id);
      HasWorkIsWorks(m, r, owner);
      assert m.roots[r].charged == l.roots[r].charged - {id};
      assert Holds(l, r, owner, id);
      forall q, o | !(q == r && o == owner) ensures Works(m, q, o) <==> Works(l, q, o) {
        WorksSame(l, m, q, o, id);
      }
      forall q, o | q in m.roots && !(q == r && o == owner) ensures m.roots[q].OwnerOf(o) == l.roots[q].OwnerOf(o) {
      }
      assert m.roots[r].OwnerOf(owner) != Closed || !Works(m, r, owner);
    }
  }

  lemma CloseOwners(l: Ledger, r: nat, owner: string)
    requires Books(l) && OwnersHonest(l) && r in l.roots
    ensures OwnersHonest(l.CloseOwner(r, owner))
  {
    var m := l.CloseOwner(r, owner);
    HasWorkIsWorks(l, r, owner);
    forall q, o ensures Works(m, q, o) <==> Works(l, q, o) {
      WorksSame(l, m, q, o, 0);
    }
  }

  lemma ForgetOwners(l: Ledger, r: nat, owner: string)
    requires OwnersHonest(l) && r in l.roots
    ensures OwnersHonest(l.ForgetOwner(r, owner))
  {
    var m := l.ForgetOwner(r, owner);
    forall q, o ensures Works(m, q, o) <==> Works(l, q, o) {
      WorksSame(l, m, q, o, 0);
    }
  }

  /* ---------- the handles ---------- */

  lemma AdmitAnchored(l: Ledger, r: nat, owner: string, name: string)
    requires Books(l) && Anchored(l) && r in l.roots && Admit(l.sup, l.roots[r], owner, name).Ok?
    ensures Anchored(l.Admitted(r, owner, name))
  {
    var m, id := l.Admitted(r, owner, name), l.sup.nextId;
    assert id !in l.sup.book;
    forall q | q in m.roots ensures HandlesKept(m.sup.book, m.roots[q]) {
      assert HandlesKept(l.sup.book, l.roots[q]);
      forall j | j in l.sup.book ensures Spawned(m.sup.book, j) <==> Spawned(l.sup.book, j) {
      }
    }
  }

  /** Only the record of `id` changed, and every root still charges it and keeps its handle as it should. */
  lemma OneRecordAnchored(l: Ledger, m: Ledger, id: nat)
    requires Books(l) && Anchored(l) && l.Known(id) && m.roots.Keys == l.roots.Keys
    requires m.sup.book.Keys == l.sup.book.Keys && forall j :: j in l.sup.book && j != id ==> m.sup.book[j] == l.sup.book[j]
    requires forall r, j :: r in l.roots && j != id ==>
               (j in m.roots[r].owned <==> j in l.roots[r].owned) && (j in m.roots[r].charged <==> j in l.roots[r].charged)
    requires forall r :: r in l.roots ==>
               (id in m.roots[r].owned <==> id in m.roots[r].charged && Spawned(m.sup.book, id))
    ensures Anchored(m)
  {
    forall r | r in m.roots ensures HandlesKept(m.sup.book, m.roots[r]) {
      assert HandlesKept(l.sup.book, l.roots[r]);
      forall j | j != id ensures Spawned(m.sup.book, j) <==> Spawned(l.sup.book, j) {
      }
    }
  }

  lemma ActivateAnchored(l: Ledger, id: nat, task: nat)
    requires Books(l) && Anchored(l) && l.Known(id) && l.sup.book[id].state == Reserved
    ensures Anchored(l.Activate(id, task))
  {
    hide Anchored, HandlesKept;
    HandleOnlyAt(l, id);
    OneRecordAnchored(l, l.Activate(id, task), id);
  }

  /** Only its own root knows a reservation. */
  lemma HandleOnlyAt(l: Ledger, id: nat)
    requires Books(l) && Anchored(l) && l.Known(id)
    ensures forall r :: r in l.roots && r != l.sup.book[id].root ==> id !in l.roots[r].charged && id !in l.roots[r].owned
    ensures id in l.RootOf(id).charged <==> l.sup.book[id].state != Released
    ensures id in l.RootOf(id).owned <==> id in l.RootOf(id).charged && Spawned(l.sup.book, id)
  {
  }

  lemma ParkAnchored(l: Ledger, id: nat)
    requires Books(l) && Anchored(l) && l.Known(id) && l.sup.book[id].state == Active
    ensures Anchored(l.Park(id))
  {
  }

  lemma ReleaseAnchored(l: Ledger, id: nat)
    requires Books(l) && Anchored(l) && l.Known(id)
    ensures Anchored(l.Release(id))
  {
  }

  /** Owner states and lock counts do not matter to the accounts. */
  lemma SameAccounts(l: Ledger, m: Ledger)
    requires Books(l) && Quotas(l) && m.roots.Keys == l.roots.Keys && m.sup == l.sup.(locks := m.sup.locks)
    requires forall r :: r in l.roots ==>
               m.roots[r].charged == l.roots[r].charged && m.roots[r].id == l.roots[r].id &&
               m.roots[r].capacity == l.roots[r].capacity
    ensures Books(m) && Quotas(m) && Forward(l, m)
  {
  }

  /** Owner states and lock counts do not matter to the handles. */
  lemma SameHandles(l: Ledger, m: Ledger)
    requires Anchored(l) && m.sup.book == l.sup.book && m.roots.Keys == l.roots.Keys
    requires forall r :: r in l.roots ==> m.roots[r].owned == l.roots[r].owned && m.roots[r].charged == l.roots[r].charged
    ensures Anchored(m)
  {
  }

  /* ---------- every operation keeps the ledger sound and moves it forward ---------- */

  /** `m` is sound, and nothing of `l` was undone on the way to it. */
  ghost predicate Advances(l: Ledger, m: Ledger) {
    Sound(m) && Forward(l, m) && StaysClosed(l, m)
  }

  /** No reservation other than `id` changed, none was made, and no lock count changed. */
  ghost predicate Touches(l: Ledger, m: Ledger, id: nat) {
    && m.sup.book.Keys == l.sup.book.Keys && m.sup.nextId == l.sup.nextId && m.roots.Keys == l.roots.Keys
    && m.sup.locks == l.sup.locks
    && (forall j :: j in l.sup.book && j != id ==> m.sup.book[j] == l.sup.book[j])
  }

  /** Owners keep their state, and whatever is parked now was parked before. */
  lemma SameOwners(l: Ledger, m: Ledger)
    requires ParkedCloses(l) && m.roots.Keys == l.roots.Keys
    requires forall r, o :: r in l.roots ==> m.roots[r].OwnerOf(o) == l.roots[r].OwnerOf(o)
    requires forall j :: j in l.sup.book && j in m.sup.book
               ==> m.sup.book[j].root == l.sup.book[j].root && m.sup.book[j].owner == l.sup.book[j].owner
    requires forall j :: j in m.sup.book && m.sup.book[j].state == Parked ==> j in l.sup.book && l.sup.book[j].state == Parked
    ensures ParkedCloses(m) && StaysClosed(l, m)
  {
  }

  lemma AdmitAdvances(l: Ledger, r: nat, owner: string, name: string)
    requires Sound(l) && r in l.roots && Admit(l.sup, l.roots[r], owner, name).Ok?
    ensures Advances(l, l.Admitted(r, owner, name))
  {
    hide Books, Quotas, OwnersHonest, ParkedCloses, Anchored, Forward, StaysClosed;
    AdmitBooks(l, r, owner, name);
    AdmitQuotas(l, r, owner, name);
    AdmitOwners(l, r, owner, name);
    AdmitAnchored(l, r, owner, name);
    AdmitForward(l, r, owner, name);
  }

  lemma AdmitForward(l: Ledger, r: nat, owner: string, name: string)
    requires Books(l) && ParkedCloses(l) && r in l.roots && Admit(l.sup, l.roots[r], owner, name).Ok?
    ensures Forward(l, l.Admitted(r, owner, name))
    ensures ParkedCloses(l.Admitted(r, owner, name)) && StaysClosed(l, l.Admitted(r, owner, name))
  {
    hide ParkedCloses, StaysClosed;
    AdmittedBook(l, r, owner, name);
    AdmitKeepsClosed(l, r, owner, name);
  }

  lemma AdmitKeepsClosed(l: Ledger, r: nat, owner: string, name: string)
    requires Books(l) && ParkedCloses(l) && r in l.roots && Admit(l.sup, l.roots[r], owner, name).Ok?
    ensures ParkedCloses(l.Admitted(r, owner, name)) && StaysClosed(l, l.Admitted(r, owner, name))
  {
    AdmittedBook(l, r, owner, name);
    hide Books, ParkedCloses, StaysClosed;
    SameOwners(l, l.Admitted(r, owner, name));
  }

  lemma ActivateAdvances(l: Ledger, id: nat, task: nat)
    requires Sound(l) && l.Known(id) && l.sup.book[id].state == Reserved && l.sup.book[id].task == None
    ensures Advances(l, l.Activate(id, task)) && Touches(l, l.Activate(id, task), id)
  {
    hide Books, Quotas, OwnersHonest, ParkedCloses, Anchored, Forward, StaysClosed;
    ActivateOwners(l, id, task);
    ActivateAnchored(l, id, task);
    ActivateBooks(l, id, task);
    ActivateForward(l, id, task);
  }

  lemma ActivateForward(l: Ledger, id: nat, task: nat)
    requires ParkedCloses(l) && l.Known(id) && l.sup.book[id].state == Reserved && l.sup.book[id].task == None
    ensures Touches(l, l.Activate(id, task), id) && Forward(l, l.Activate(id, task))
    ensures ParkedCloses(l.Activate(id, task)) && StaysClosed(l, l.Activate(id, task))
  {
  }

  lemma ActivateBooks(l: Ledger, id: nat, task: nat)
    requires Books(l) && Quotas(l) && l.Known(id) && l.sup.book[id].state == Reserved
    ensures Books(l.Activate(id, task)) && Quotas(l.Activate(id, task))
  {
  }

  lemma ParkAdvances(l: Ledger, id: nat)
    requires Sound(l) && l.Known(id) && l.sup.book[id].state == Active
    ensures Advances(l, l.Park(id)) && Touches(l, l.Park(id), id)
  {
    hide Books, Quotas, OwnersHonest, ParkedCloses, Anchored, Forward, StaysClosed;
    ParkOwners(l, id);
    ParkAnchored(l, id);
    ParkBooks(l, id);
    ParkForward(l, id);
    ParkClosed(l, id);
  }

  lemma ParkForward(l: Ledger, id: nat)
    requires l.Known(id) && l.sup.book[id].state == Active
    ensures Touches(l, l.Park(id), id) && Forward(l, l.Park(id))
  {
  }

  lemma ParkBooks(l: Ledger, id: nat)
    requires Books(l) && Quotas(l) && l.Known(id) && l.sup.book[id].state == Active
    ensures Books(l.Park(id)) && Quotas(l.Park(id))
  {
    hide Books;
    var m := l.Park(id);
    ChargedStateBooks(l, m, id, m.sup.book[id]);
  }

  lemma ParkClosed(l: Ledger, id: nat)
    requires ParkedCloses(l) && l.Known(id)
    ensures ParkedCloses(l.Park(id)) && StaysClosed(l, l.Park(id))
  {
  }

  lemma ReleaseAdvances(l: Ledger, id: nat)
    requires Sound(l) && l.Known(id)
    ensures Advances(l, l.Release(id)) && Touches(l, l.Release(id), id)
    ensures l.Release(id).sup.book[id].state == Released
  {
    hide Books, Quotas, OwnersHonest, ParkedCloses, Anchored, Forward, StaysClosed;
    ReleaseBooks(l, id);
    ReleaseQuotas(l, id);
    ReleaseOwners(l, id);
    ReleaseAnchored(l, id);
    ReleaseForward(l, id);
    ReleaseClosed(l, id);
  }

  lemma ReleaseForward(l: Ledger, id: nat)
    requires l.Known(id)
    ensures Touches(l, l.Release(id), id) && Forward(l, l.Release(id))
  {
  }

  lemma ReleaseClosed(l: Ledger, id: nat)
    requires Books(l) && ParkedCloses(l) && l.Known(id)
    ensures ParkedCloses(l.Release(id)) && StaysClosed(l, l.Release(id))
  {
    var m := l.Release(id);
    ReleaseBooks(l, id);
    if l.sup.book[id].state == Released {
      assert m == l;
    } else {
      forall j | j in m.sup.charged
        ensures m.Known(j) && l.Known(j) && m.OwnerStateOf(j) == l.OwnerStateOf(j)
      {
        ReleaseOthers(l, id, j);
      }
    }
  }

  lemma ReleaseOthers(l: Ledger, id: nat, j: nat)
    requires l.Known(id) && l.sup.book[id].state != Released && Books(l) && Books(l.Release(id))
    requires j in l.Release(id).sup.charged
    ensures l.Known(j) && l.Release(id).Known(j) && l.Release(id).OwnerStateOf(j) == l.OwnerStateOf(j)
  {
  }

  lemma CloseAdvances(l: Ledger, r: nat, owner: string)
    requires Sound(l) && r in l.roots
    ensures Advances(l, l.CloseOwner(r, owner)) && l.CloseOwner(r, owner).sup == l.sup
    ensures Works(l, r, owner) ==> l.CloseOwner(r, owner).roots[r].OwnerOf(owner) == ClosedWithSurvivors
  {
    hide Books, Quotas, OwnersHonest, ParkedCloses, Anchored, Forward, StaysClosed;
    CloseOwners(l, r, owner);
    SameAccounts(l, l.CloseOwner(r, owner));
    SameHandles(l, l.CloseOwner(r, owner));
    HasWorkIsWorks(l, r, owner);
    CloseClosed(l, r, owner);
  }

  lemma CloseClosed(l: Ledger, r: nat, owner: string)
    requires Books(l) && OwnersHonest(l) && ParkedCloses(l) && r in l.roots
    ensures ParkedCloses(l.CloseOwner(r, owner)) && StaysClosed(l, l.CloseOwner(r, owner))
  {
  }

  lemma ForgetAdvances(l: Ledger, r: nat, owner: string)
    requires Sound(l) && r in l.roots
    ensures Advances(l, l.ForgetOwner(r, owner)) && l.ForgetOwner(r, owner).sup == l.sup
  {
    hide Books, Quotas, OwnersHonest, ParkedCloses, Anchored, Forward, StaysClosed;
    ForgetOwners(l, r, owner);
    SameAccounts(l, l.ForgetOwner(r, owner));
    SameHandles(l, l.ForgetOwner(r, owner));
    ForgetClosed(l, r, owner);
  }

  lemma ForgetClosed(l: Ledger, r: nat, owner: string)
    requires ParkedCloses(l) && r in l.roots
    ensures ParkedCloses(l.ForgetOwner(r, owner)) && StaysClosed(l, l.ForgetOwner(r, owner))
  {
  }

  lemma NewRootAdvances(l: Ledger, r: nat, capacity: nat)
    requires Sound(l) && r !in l.roots
    ensures Advances(l, l.(roots := l.roots[r := Root(r, capacity, {}, {}, map[])]))
  {
    hide OwnersHonest, Anchored;
    NewRootOwners(l, r, capacity);
    NewRootAnchored(l, r, capacity);
  }

  lemma NewRootOwners(l: Ledger, r: nat, capacity: nat)
    requires Books(l) && OwnersHonest(l) && r !in l.roots
    ensures OwnersHonest(l.(roots := l.roots[r := Root(r, capacity, {}, {}, map[])]))
  {
    var m := l.(roots := l.roots[r := Root(r, capacity, {}, {}, map[])]);
    forall q, o ensures Works(m, q, o) <==> Works(l, q, o) {
      WorksSame(l, m, q, o, 0);
    }
  }

  lemma NewRootAnchored(l: Ledger, r: nat, capacity: nat)
    requires Anchored(l)
    ensures Anchored(l.(roots := l.roots[r := Root(r, capacity, {}, {}, map[])]))
  {
  }

  lemma LocksAdvance(l: Ledger, locks: map<nat, nat>)
    requires Sound(l)
    ensures Advances(l, l.(sup := l.sup.(locks := locks)))
  {
    hide Books, Quotas, OwnersHonest, Anchored, Forward;
    LocksOwners(l, locks);
    SameAccounts(l, l.(sup := l.sup.(locks := locks)));
    SameHandles(l, l.(sup := l.sup.(locks := locks)));
  }

  lemma LocksOwners(l: Ledger, locks: map<nat, nat>)
    requires OwnersHonest(l)
    ensures OwnersHonest(l.(sup := l.sup.(locks := locks)))
  {
    var m := l.(sup := l.sup.(locks := locks));
    forall q, o ensures Works(m, q, o) <==> Works(l, q, o) {
      WorksSame(l, m, q, o, 0);
    }
  }

  lemma StandingStill(l: Ledger)
    requires Sound(l)
    ensures Advances(l, l)
  {
  }

  lemma SettleAdvances(l: Ledger, id: nat, done: bool)
    requires Sound(l) && l.Known(id)
    ensures Advances(l, l.Settle(id, done)) && Touches(l, l.Settle(id, done), id)
    ensures done ==> l.Settle(id, done).sup.book[id].state == Released
    ensures !done ==> l.Settle(id, done) == l
  {
    hide Advances, Books, Quotas, OwnersHonest, ParkedCloses, Anchored;
    ReleaseAdvances(l, id);
    StandingStill(l);
    assert l.With(l.sup.book[id].root, (l.sup, l.RootOf(id))) == l;
  }

  /**
   * A handle that is parked, or whose owner is closed because a lock is held: afterwards its slot is
   * given back or its owner admits nothing.
   */
  lemma ParkOrCloseAdvances(l: Ledger, id: nat, done: bool)
    requires Sound(l) && l.Handle(id) && (l.sup.book[id].state == Released ==> done)
    ensures Advances(l, l.ParkOrCloseOwner(id, done).0) && Touches(l, l.ParkOrCloseOwner(id, done).0, id)
    ensures Contained(l.ParkOrCloseOwner(id, done).0, id)
    ensures var (m, refused) := l.ParkOrCloseOwner(id, done);
            && (done ==> !refused && m.sup.book[id].state == Released)
            && (refused ==> m.sup.book[id].state == Active)
            && (!done && !refused ==> m.sup.book[id].state == Parked)
            && (refused <==> !done && l.sup.book[id].state == Active && l.sup.LockCount(l.sup.book[id].task.value) > 0)
  {
    hide Advances, Books, Quotas, OwnersHonest;
    var r, owner := l.sup.book[id].root, l.sup.book[id].owner;
    if done {
      SettleAdvances(l, id, done);
    } else if l.sup.book[id].state == Parked {
      StandingStill(l);
      assert l.With(r, (l.sup, l.RootOf(id))) == l;
    } else if l.sup.LockCount(l.sup.book[id].task.value) > 0 {
      ChargedHolds(l, id);
      CloseAdvances(l, r, owner);
    } else {
      ParkAdvances(l, id);
    }
  }

  lemma ChargedHolds(l: Ledger, id: nat)
    requires Books(l) && l.Known(id) && l.sup.book[id].state != Released
    ensures Works(l, l.sup.book[id].root, l.sup.book[id].owner)
  {
    assert Holds(l, l.sup.book[id].root, l.sup.book[id].owner, id);
  }

  /** The slot of `id` has been given back, or nothing more is admitted for its owner. */
  predicate Contained(l: Ledger, id: nat) {
    l.Known(id) && (l.sup.book[id].state == Released || l.OwnerStateOf(id) == ClosedWithSurvivors)
  }

  lemma ContainedStays(l: Ledger, m: Ledger, id: nat)
    requires Books(l) && Advances(l, m) && Contained(l, id)
    ensures Contained(m, id)
  {
    assert Later(l.sup.book[id], m.sup.book[id]);
  }
}
