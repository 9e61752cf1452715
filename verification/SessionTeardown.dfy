/**
 * Every interleaving of add, remove, abandon_pending_stops, stop-task completion and done-callbacks
 * on one SessionManager. `stop_all` is its `remove` calls run together.
 *
 * `remove` is suspended at two kinds of points: `Yielded`, the scheduling turn that `_await_owned_stop`
 * takes when its caller `carries` an earlier cancellation request, and `Waiting` for the shielded stop
 * task. A waiter is woken by a callback of the task that was registered after `_finish_stop`, hence
 * only once that one has run; awaiting a task that is already done does not suspend at all.
 */
module SessionTeardown {
  import opened Prelude
  import opened SessionManager

  datatype StopTask = StopTask(key: nat, session: nat, force: bool)

  datatype Place =
    | Preparing
    | Yielded(op: Operation, forceRequested: bool)
    | Waiting(op: Operation, forceRequested: bool)
    | Returned(via: Option<nat>)
    | Raised

  /** A call of `remove`: the registration it first found, and how many graceful stops of it it has joined. */
  datatype Remove = Remove(key: nat, force: bool, carries: bool, target: Option<nat>, joined: nat, at: Place)

  datatype System = System(
    manager: Manager,
    added: map<nat, nat>,          // the key each session was added under
    starting: set<nat>,            // sessions whose start is in progress
    failedStarts: set<nat>,
    forcedFor: set<nat>,           // sessions that a caller or an abandoned stop asked to stop by force
    tasks: map<nat, StopTask>,
    ended: map<nat, Outcome>,
    calledBack: set<nat>,
    removes: map<nat, Remove>)
  {
    predicate Registered(x: nat) { x in added && manager.Registered(added[x], x) }
  }

  datatype Step =
    | Add(key: nat, session: nat)
    | StartEnds(session: nat, ok: bool)
    | CallRemove(caller: nat, key: nat, force: bool, carries: bool)
    | PrepareStop(caller: nat, newTask: nat)
    | Resume(caller: nat)
    | CancelCaller(caller: nat)
    | TaskEnds(task: nat, outcome: Outcome)
    | CallBack(task: nat)
    | SettleAbandoned(operations: seq<Entry>)

  const INITIAL := System(Manager(map[], map[], {}), map[], {}, {}, {}, map[], map[], {}, map[])

  /** Where a joined stop that ended with `outcome` leaves its caller. */
  function Joined(r: Remove, op: Operation, forceRequested: bool, outcome: Outcome): Remove {
    var escalating := forceRequested && !op.force;
    var counted := if !op.force && r.target == Some(op.session) then r.joined + 1 else r.joined;
    r.(joined := counted,
       at := if outcome == WasCancelled || escalating then Preparing
             else if outcome == Failed then Raised
             else Returned(Some(op.task)))
  }

  /** A snapshot of a dictionary has each key once. */
  predicate DistinctKeys(operations: seq<Entry>) {
    forall i, j :: 0 <= i < j < |operations| ==> operations[i].key != operations[j].key
  }

  predicate Enabled(s: System, step: Step) {
    match step
    case Add(_, session) => session !in s.added
    case StartEnds(session, _) => session in s.starting && session in s.added
    case CallRemove(c, _, _, _) => c !in s.removes
    case PrepareStop(c, newTask) => c in s.removes && s.removes[c].at == Preparing && newTask !in s.tasks
    case Resume(c) =>
      c in s.removes && (s.removes[c].at.Yielded? || (s.removes[c].at.Waiting? &&
                         s.removes[c].at.op.task in s.ended && s.removes[c].at.op.task in s.calledBack))
    case CancelCaller(c) => c in s.removes && (s.removes[c].at.Yielded? || s.removes[c].at.Waiting?)
    case TaskEnds(task, _) => task in s.tasks && task !in s.ended
    case CallBack(task) => task in s.tasks && task in s.ended && task !in s.calledBack
    case SettleAbandoned(operations) =>
      DistinctKeys(operations) &&
      forall e :: e in operations ==> e.op.task in s.tasks && s.tasks[e.op.task] == StopTask(e.key, e.op.session, e.op.force)
  }

  function Resumed(s: System, r: Remove): Remove
    requires r.at.Yielded? || (r.at.Waiting? && r.at.op.task in s.ended)
  {
    if r.at.op.task in s.ended then Joined(r, r.at.op, r.at.forceRequested, s.ended[r.at.op.task])
    else r.(at := Waiting(r.at.op, r.at.forceRequested))
  }

  function PreparedBy(s: System, r: Remove, newTask: nat): (System, Remove) {
    var (m, p) := Prepare(s.manager, r.key, r.force, s.ended, newTask);
    var found := if r.key in s.manager.sessions then Some(s.manager.sessions[r.key]) else None;
    var t := s.(manager := m,
                forcedFor := if r.force && found.Some? then s.forcedFor + {found.value} else s.forcedFor,
                tasks := if p.Join? && p.started then s.tasks[newTask := StopTask(r.key, p.op.session, p.op.force)] else s.tasks);
    (t, r.(target := if r.target.Some? then r.target else found,
           at := if p == Gone then Returned(None)
                 else if r.carries then Yielded(p.op, p.forceRequested)
                 else Waiting(p.op, p.forceRequested)))
  }

  function Apply(s: System, step: Step): System
    requires Enabled(s, step)
  {
    match step
    case Add(key, session) =>
      (match Added(s.manager, key, session)
       case None => s
       case Some(m) => s.(manager := m, added := s.added[session := key], starting := s.starting + {session}))
    case StartEnds(session, ok) =>
      var t := s.(starting := s.starting - {session});
      if ok then t
      else t.(manager := StartFailed(s.manager, s.added[session], session), failedStarts := s.failedStarts + {session})
    case CallRemove(c, key, force, carries) => s.(removes := s.removes[c := Remove(key, force, carries, None, 0, Preparing)])
    case PrepareStop(c, newTask) =>
      var (t, r) := PreparedBy(s, s.removes[c], newTask);
      t.(removes := s.removes[c := r])
    case Resume(c) => s.(removes := s.removes[c := Resumed(s, s.removes[c])])
    case CancelCaller(c) => s.(removes := s.removes[c := s.removes[c].(at := Raised)])
    case TaskEnds(task, outcome) => s.(ended := s.ended[task := outcome])
    case CallBack(task) =>
      s.(manager := Finished(s.manager, s.tasks[task].key, s.tasks[task].session, task, s.ended[task]),
         calledBack := s.calledBack + {task})
    case SettleAbandoned(operations) =>
      s.(manager := Abandoned(s.manager, operations, s.ended),
         forcedFor := s.forcedFor + AbandonForces(s.manager, operations, s.ended))
  }

  /** The sessions whose cancelled stop makes `abandon_pending_stops` request force for them. */
  function AbandonForces(m: Manager, operations: seq<Entry>, ended: map<nat, Outcome>): set<nat> {
    if operations == [] then {}
    else
      var first, last := operations[..|operations| - 1], operations[|operations| - 1];
      AbandonForces(m, first, ended) + AbandonForcesOne(Abandoned(m, first, ended), last, ended)
  }

  function AbandonForcesOne(m: Manager, e: Entry, ended: map<nat, Outcome>): set<nat> {
    if e.op.task in ended && ended[e.op.task] == WasCancelled && m.Registered(e.key, e.op.session) then {e.op.session} else {}
  }

  /* ---------- the invariant ---------- */

  /** Bookkeeping: who is where, and which numbers mean what. */
  ghost predicate Tidy(s: System) {
    && (forall key :: key in s.manager.sessions ==>
          s.manager.sessions[key] in s.added && s.added[s.manager.sessions[key]] == key)
    && (forall key :: key in s.manager.stops ==>
          var op := s.manager.stops[key];
          op.task in s.tasks && s.tasks[op.task] == StopTask(key, op.session, op.force))
    && (forall t :: t in s.tasks ==> s.tasks[t].session in s.added && s.added[s.tasks[t].session] == s.tasks[t].key)
    && (forall t :: t in s.ended ==> t in s.tasks)
    && (forall t :: t in s.calledBack ==> t in s.ended)
  }

  /** A live stop task of a registered session is the one the manager has recorded. */
  ghost predicate OneLiveStop(s: System) {
    forall t :: t in s.tasks && t !in s.ended && s.Registered(s.tasks[t].session)
      ==> s.manager.Owns(s.tasks[t].key, s.tasks[t].session, t)
  }

  /** The key of a registered session says force exactly when force was asked for that very session. */
  ghost predicate ForceSticks(s: System) {
    && (forall x :: x in s.forcedFor ==> x in s.added)
    && (forall x :: s.Registered(x) ==> (s.added[x] in s.manager.forced <==> x in s.forcedFor))
  }

  /** A session that was added is registered, or its start failed, or a stop of it succeeded. */
  ghost predicate LeftForCause(s: System) {
    forall x :: x in s.added ==> s.Registered(x) || x in s.failedStarts || StoppedWell(s, x)
  }

  ghost predicate StoppedWell(s: System, x: nat) {
    exists t :: t in s.tasks && t in s.ended && s.tasks[t].session == x && s.ended[t] == Succeeded
  }

  /** The done-callback of a successful stop has taken its session out. */
  ghost predicate CallbacksTookEffect(s: System) {
    forall t :: t in s.calledBack && t in s.tasks && t in s.ended && s.ended[t] == Succeeded ==> !s.Registered(s.tasks[t].session)
  }

  ghost predicate Core(s: System) {
    Tidy(s) && OneLiveStop(s) && ForceSticks(s) && LeftForCause(s) && CallbacksTookEffect(s)
  }

  /** No graceful stop of `x` is in progress, other than `except`. */
  ghost predicate GracefulDone(s: System, x: nat, except: Option<nat>) {
    forall t :: t in s.tasks && s.tasks[t].session == x && !s.tasks[t].force && Some(t) != except ==> t in s.ended
  }

  /** What a `remove` knows wherever it is. */
  ghost predicate RemoveOk(s: System, r: Remove) {
    && (r.target.Some? ==>
          var x := r.target.value;
          && x in s.added && s.added[x] == r.key && (r.force ==> x in s.forcedFor && r.joined <= 1)
          && (r.force && r.joined > 0 ==> GracefulDone(s, x, None)))
    && (r.target == None ==> r.joined == 0)
    && match r.at
       case Preparing => true
       case Yielded(op, forceRequested) => r.carries && JoinOk(s, r, op, forceRequested)
       case Waiting(op, forceRequested) => JoinOk(s, r, op, forceRequested)
       case Returned(None) => r.target.Some? ==> !s.Registered(r.target.value)
       case Returned(Some(t)) =>
         && r.target.Some? && t in s.tasks && t in s.ended && s.ended[t] == Succeeded
         && (r.carries || t in s.calledBack)
         && (s.tasks[t].session == r.target.value || !s.Registered(r.target.value))
       case Raised => true
  }

  ghost predicate JoinOk(s: System, r: Remove, op: Operation, forceRequested: bool) {
    && r.target.Some? && op.task in s.tasks && s.tasks[op.task] == StopTask(r.key, op.session, op.force)
    && (op.session == r.target.value || !s.Registered(r.target.value))
    && (r.force ==> forceRequested)
    && (r.force && !op.force && op.session == r.target.value ==> r.joined == 0 && GracefulDone(s, op.session, Some(op.task)))
  }

  ghost predicate Inv(s: System) {
    Core(s) && forall c :: c in s.removes ==> RemoveOk(s, s.removes[c])
  }

  lemma InitialInv()
    ensures Inv(INITIAL)
  {
  }

  /* ---------- what any step may do to the rest ---------- */

  /** Nothing is re-registered, re-numbered or undone; force, once asked for, is used, and only then. */
  ghost predicate Advances(s: System, t: System) {
    && (forall x :: x in s.added ==> x in t.added && t.added[x] == s.added[x] && (t.Registered(x) ==> s.Registered(x)))
    && (forall k :: k in s.tasks ==> k in t.tasks && t.tasks[k] == s.tasks[k])
    && (forall k :: k in t.tasks && k !in s.tasks && t.tasks[k].session in s.forcedFor ==> t.tasks[k].force)
    && (forall k :: k in t.tasks && k !in s.tasks && t.tasks[k].force ==> t.tasks[k].session in t.forcedFor)
    && (forall k :: k in s.ended ==> k in t.ended && t.ended[k] == s.ended[k])
    && s.calledBack <= t.calledBack && s.forcedFor <= t.forcedFor && s.failedStarts <= t.failedStarts
  }

  lemma RemoveStays(s: System, t: System, r: Remove)
    requires Advances(s, t) && RemoveOk(s, r)
    ensures RemoveOk(t, r)
  {
  }

  lemma AdvancesTrans(s: System, t: System, u: System)
    requires Advances(s, t) && Advances(t, u)
    ensures Advances(s, u)
  {
  }

  /* ---------- the manager's own moves ---------- */

  /** A move of the manager that registers nothing and drops only for cause. */
  ghost predicate Drops(s: System, t: System) {
    && t.added == s.added && t.tasks == s.tasks && t.ended == s.ended
    && t.calledBack == s.calledBack && s.failedStarts <= t.failedStarts
    && s.forcedFor <= t.forcedFor && (forall x :: x in t.forcedFor ==> x in s.forcedFor || x in s.added)
    && (forall key :: key in t.manager.sessions ==> s.manager.Registered(key, t.manager.sessions[key]))
    && (forall key :: key in t.manager.stops ==> key in s.manager.stops && t.manager.stops[key] == s.manager.stops[key])
    && (forall key :: key in s.manager.stops && key !in t.manager.stops ==> s.manager.stops[key].task in s.ended)
    && (forall key :: key in s.manager.sessions && key !in t.manager.sessions ==>
          s.manager.sessions[key] in t.failedStarts || StoppedWell(s, s.manager.sessions[key]))
    && (forall key :: key in t.manager.sessions ==>
          (key in t.manager.forced <==> key in s.manager.forced || t.manager.sessions[key] in t.forcedFor - s.forcedFor))
  }

  lemma DropsCore(s: System, t: System)
    requires Core(s) && Drops(s, t)
    ensures Core(t) && Advances(s, t)
  {
    hide OneLiveStop, LeftForCause;
    DropsLive(s, t);
    DropsLeft(s, t);
  }

  lemma DropsLive(s: System, t: System)
    requires Tidy(s) && OneLiveStop(s) && Drops(s, t)
    ensures OneLiveStop(t)
  {
  }

  lemma DropsLeft(s: System, t: System)
    requires Tidy(s) && LeftForCause(s) && Drops(s, t)
    ensures LeftForCause(t)
  {
  }

  function WithManager(s: System, m: Manager): System { s.(manager := m) }

  lemma FinishedDrops(s: System, key: nat, session: nat, task: nat)
    requires task in s.ended && task in s.tasks && s.tasks[task].key == key && s.tasks[task].session == session
    ensures Drops(s, WithManager(s, Finished(s.manager, key, session, task, s.ended[task])))
  {
  }

  function AbandoningOne(s: System, e: Entry): System {
    s.(manager := AbandonOne(s.manager, e, s.ended), forcedFor := s.forcedFor + AbandonForcesOne(s.manager, e, s.ended))
  }

  lemma AbandonOneDrops(s: System, e: Entry)
    requires Core(s) && e.op.task in s.tasks && s.tasks[e.op.task] == StopTask(e.key, e.op.session, e.op.force)
    ensures Drops(s, AbandoningOne(s, e))
  {
    hide OneLiveStop, LeftForCause, CallbacksTookEffect, ForceSticks, Tidy;
    RegisteredIsAdded(s, e.key);
    if e.op.task in s.ended {
      if s.ended[e.op.task] == Succeeded {
        FinishedDrops(s, e.key, e.op.session, e.op.task);
      } else if s.ended[e.op.task] == WasCancelled {
        CancelledDrops(s, e);
      }
    }
  }

  lemma CancelledDrops(s: System, e: Entry)
    requires e.op.task in s.ended && s.ended[e.op.task] == WasCancelled
    requires e.key in s.manager.sessions ==> s.manager.sessions[e.key] in s.added
    requires e.key in s.manager.sessions ==> (e.key in s.manager.forced <==> s.manager.sessions[e.key] in s.forcedFor)
    requires forall other :: e.key in s.manager.sessions && other in s.manager.sessions && other != e.key
               ==> s.manager.sessions[other] != s.manager.sessions[e.key]
    ensures Drops(s, AbandoningOne(s, e))
  {
  }

  lemma RegisteredIsAdded(s: System, key: nat)
    requires Tidy(s) && ForceSticks(s)
    ensures key in s.manager.sessions ==>
              s.manager.sessions[key] in s.added && (key in s.manager.forced <==> s.manager.sessions[key] in s.forcedFor)
    ensures forall other :: key in s.manager.sessions && other in s.manager.sessions && other != key
              ==> s.manager.sessions[other] != s.manager.sessions[key]
  {
  }

  lemma {:induction false} AbandonedCore(s: System, operations: seq<Entry>)
    requires Core(s) && Enabled(s, SettleAbandoned(operations))
    ensures Core(Apply(s, SettleAbandoned(operations))) && Advances(s, Apply(s, SettleAbandoned(operations)))
  {
    hide Core, Advances, Drops, AbandonOne, AbandonForcesOne;
    var t := Apply(s, SettleAbandoned(operations));
    if operations == [] {
      assert t.forcedFor == s.forcedFor;
      AdvancesRefl(s);
    } else {
      var first, last := operations[..|operations| - 1], operations[|operations| - 1];
      AbandonedCore(s, first);
      var u := Apply(s, SettleAbandoned(first));
      AbandonOneDrops(u, last);
      assert t == AbandoningOne(u, last);
      DropsCore(u, t);
      AdvancesTrans(s, u, t);
    }
  }

  lemma AdvancesRefl(s: System)
    ensures Advances(s, s)
  {
  }

  lemma FailedStartDrops(s: System, session: nat)
    requires Enabled(s, StartEnds(session, false))
    ensures Drops(s, Apply(s, StartEnds(session, false)))
  {
  }

  /** A session that was never added before takes a free key. */
  lemma AddCore(s: System, key: nat, session: nat)
    requires Core(s) && session !in s.added
    ensures Core(Apply(s, Add(key, session))) && Advances(s, Apply(s, Add(key, session)))
  {
    hide Tidy, OneLiveStop, LeftForCause, ForceSticks, CallbacksTookEffect, Advances;
    if key in s.manager.sessions {
      AdvancesRefl(s);
    } else {
      AddTidy(s, key, session);
      AddLive(s, key, session);
      AddLeft(s, key, session);
    }
  }

  lemma AddTidy(s: System, key: nat, session: nat)
    requires Tidy(s) && CallbacksTookEffect(s) && session !in s.added && key !in s.manager.sessions
    ensures Tidy(Apply(s, Add(key, session))) && CallbacksTookEffect(Apply(s, Add(key, session)))
    ensures Advances(s, Apply(s, Add(key, session)))
  {
    hide Advances;
    AddAdvances(s, key, session);
  }

  lemma AddAdvances(s: System, key: nat, session: nat)
    requires session !in s.added && key !in s.manager.sessions
    ensures Advances(s, Apply(s, Add(key, session)))
  {
  }

  lemma AddLive(s: System, key: nat, session: nat)
    requires Tidy(s) && OneLiveStop(s) && ForceSticks(s) && session !in s.added && key !in s.manager.sessions
    ensures OneLiveStop(Apply(s, Add(key, session))) && ForceSticks(Apply(s, Add(key, session)))
  {
  }

  lemma AddLeft(s: System, key: nat, session: nat)
    requires LeftForCause(s) && session !in s.added && key !in s.manager.sessions
    ensures LeftForCause(Apply(s, Add(key, session)))
  {
  }

  lemma TaskEndsCore(s: System, task: nat, outcome: Outcome)
    requires Core(s) && Enabled(s, TaskEnds(task, outcome))
    ensures Core(Apply(s, TaskEnds(task, outcome))) && Advances(s, Apply(s, TaskEnds(task, outcome)))
  {
    hide LeftForCause, OneLiveStop, ForceSticks, Advances;
    var t := Apply(s, TaskEnds(task, outcome));
    CauseStays(s, t);
    TaskEndsLive(s, task, outcome);
  }

  lemma TaskEndsLive(s: System, task: nat, outcome: Outcome)
    requires OneLiveStop(s) && ForceSticks(s) && Enabled(s, TaskEnds(task, outcome))
    ensures OneLiveStop(Apply(s, TaskEnds(task, outcome))) && ForceSticks(Apply(s, TaskEnds(task, outcome)))
    ensures Advances(s, Apply(s, TaskEnds(task, outcome)))
  {
  }

  /** Sessions that left stay accounted for while tasks only end and appear. */
  lemma CauseStays(s: System, t: System)
    requires LeftForCause(s) && t.added == s.added && t.failedStarts == s.failedStarts
    requires forall k :: k in s.tasks ==> k in t.tasks && t.tasks[k] == s.tasks[k]
    requires forall k :: k in s.ended ==> k in t.ended && t.ended[k] == s.ended[k]
    requires t.manager.sessions == s.manager.sessions
    ensures LeftForCause(t)
  {
  }

  lemma CallBackCore(s: System, task: nat)
    requires Core(s) && Enabled(s, CallBack(task))
    ensures Core(Apply(s, CallBack(task))) && Advances(s, Apply(s, CallBack(task)))
  {
    hide LeftForCause, OneLiveStop, ForceSticks;
    var u := WithManager(s, Finished(s.manager, s.tasks[task].key, s.tasks[task].session, task, s.ended[task]));
    FinishedDrops(s, s.tasks[task].key, s.tasks[task].session, task);
    DropsCore(s, u);
    CallBackMarks(s, u, task);
  }

  /** The callback of a successful stop has taken its session out. */
  lemma CallBackMarks(s: System, u: System, task: nat)
    requires Core(s) && Enabled(s, CallBack(task)) && Core(u) && Advances(s, u)
    requires u == WithManager(s, Finished(s.manager, s.tasks[task].key, s.tasks[task].session, task, s.ended[task]))
    ensures Core(u.(calledBack := s.calledBack + {task})) && Advances(s, u.(calledBack := s.calledBack + {task}))
  {
    hide OneLiveStop, ForceSticks, LeftForCause, Advances;
    var t := u.(calledBack := s.calledBack + {task});
    SameButCalledBack(u, t);
    MarkAdvances(s, u, t);
  }

  lemma MarkAdvances(s: System, u: System, t: System)
    requires Advances(s, u) && t == u.(calledBack := t.calledBack) && s.calledBack <= t.calledBack
    ensures Advances(s, t)
  {
  }

  lemma SameButCalledBack(u: System, t: System)
    requires LeftForCause(u) && OneLiveStop(u) && ForceSticks(u) && t == u.(calledBack := t.calledBack)
    ensures LeftForCause(t) && OneLiveStop(t) && ForceSticks(t)
  {
  }

  /* ---------- preparing a stop ---------- */

  /** A caller asks for force on a registered key. */
  function Forcing(s: System, key: nat): System
    requires key in s.manager.sessions
  {
    s.(manager := s.manager.(forced := s.manager.forced + {key}), forcedFor := s.forcedFor + {s.manager.sessions[key]})
  }

  lemma ForcingCore(s: System, key: nat)
    requires Core(s) && key in s.manager.sessions
    ensures Core(Forcing(s, key)) && Advances(s, Forcing(s, key))
  {
  }

  function Launching(s: System, key: nat, forceRequested: bool, newTask: nat): System
    requires key in s.manager.sessions
  {
    var (m, p) := Launch(s.manager, key, forceRequested, newTask);
    s.(manager := m, tasks := s.tasks[newTask := StopTask(key, s.manager.sessions[key], forceRequested)])
  }

  /** A stop task is created only when the registration has none, and by force once force was asked for. */
  lemma LaunchingCore(s: System, key: nat, newTask: nat)
    requires Core(s) && key in s.manager.sessions && newTask !in s.tasks
    requires key in s.manager.stops ==> s.manager.stops[key].session != s.manager.sessions[key]
    ensures Core(Launching(s, key, key in s.manager.forced, newTask))
    ensures Advances(s, Launching(s, key, key in s.manager.forced, newTask))
  {
    hide LeftForCause, OneLiveStop, ForceSticks, Advances;
    CauseStays(s, Launching(s, key, key in s.manager.forced, newTask));
    LaunchingLive(s, key, newTask);
    LaunchingForce(s, key, newTask);
  }

  lemma LaunchingForce(s: System, key: nat, newTask: nat)
    requires Tidy(s) && ForceSticks(s) && key in s.manager.sessions && newTask !in s.tasks
    ensures ForceSticks(Launching(s, key, key in s.manager.forced, newTask))
    ensures Advances(s, Launching(s, key, key in s.manager.forced, newTask))
  {
  }

  lemma LaunchingLive(s: System, key: nat, newTask: nat)
    requires Tidy(s) && OneLiveStop(s) && key in s.manager.sessions && newTask !in s.tasks
    requires key in s.manager.stops ==> s.manager.stops[key].session != s.manager.sessions[key]
    ensures OneLiveStop(Launching(s, key, key in s.manager.forced, newTask))
  {
  }

  lemma NobodyThereCore(s: System, key: nat)
    requires Core(s) && key !in s.manager.sessions
    ensures Core(WithManager(s, s.manager.(forced := s.manager.forced - {key})))
    ensures Advances(s, WithManager(s, s.manager.(forced := s.manager.forced - {key})))
  {
  }

  /** What one call of `_prepare_stop` leaves behind. */
  lemma PrepareCore(s: System, r: Remove, newTask: nat)
    requires Core(s) && newTask !in s.tasks
    ensures Core(PreparedBy(s, r, newTask).0) && Advances(s, PreparedBy(s, r, newTask).0)
  {
    hide Core, Advances, Drops;
    var t := PreparedBy(s, r, newTask).0;
    if r.key !in s.manager.sessions {
      NobodyThereCore(s, r.key);
      assert t == WithManager(s, s.manager.(forced := s.manager.forced - {r.key}));
    } else {
      var u := if r.force then Forcing(s, r.key) else s;
      if r.force { ForcingCore(s, r.key); } else { AdvancesRefl(s); }
      PrepareRest(u, r.key, newTask);
      var (m, p) := Prepare(s.manager, r.key, r.force, s.ended, newTask);
      AdvancesTrans(s, u, JoinedOrLaunched(u, r.key, newTask));
      assert t == JoinedOrLaunched(u, r.key, newTask);
    }
  }

  /** The part of `_prepare_stop` that follows the force request. */
  function JoinedOrLaunched(u: System, key: nat, newTask: nat): System
    requires key in u.manager.sessions
  {
    var (m, p) := Prepare(u.manager, key, false, u.ended, newTask);
    u.(manager := m,
       tasks := if p.Join? && p.started then u.tasks[newTask := StopTask(key, p.op.session, p.op.force)] else u.tasks)
  }

  lemma PrepareRest(u: System, key: nat, newTask: nat)
    requires Core(u) && key in u.manager.sessions && newTask !in u.tasks
    ensures Core(JoinedOrLaunched(u, key, newTask)) && Advances(u, JoinedOrLaunched(u, key, newTask))
  {
    hide Core, Advances, Drops;
    AdvancesRefl(u);
    if key in u.manager.stops && u.manager.stops[key].task in u.ended {
      SettleThenLaunch(u, key, newTask);
    } else if !(key in u.manager.stops && u.manager.stops[key].session == u.manager.sessions[key]) {
      LaunchingCore(u, key, newTask);
    }
  }

  lemma SettleThenLaunch(u: System, key: nat, newTask: nat)
    requires Core(u) && key in u.manager.sessions && newTask !in u.tasks
    requires key in u.manager.stops && u.manager.stops[key].task in u.ended
    ensures Core(JoinedOrLaunched(u, key, newTask)) && Advances(u, JoinedOrLaunched(u, key, newTask))
  {
    hide OneLiveStop, ForceSticks, LeftForCause, CallbacksTookEffect, Advances, Drops;
    var op := u.manager.stops[key];
    var v := WithManager(u, Finished(u.manager, key, op.session, op.task, u.ended[op.task]));
    FinishedDrops(u, key, op.session, op.task);
    DropsCore(u, v);
    if key in v.manager.sessions {
      LaunchingCore(v, key, newTask);
      AdvancesTrans(u, v, Launching(v, key, key in v.manager.forced, newTask));
    }
  }

  /* ---------- one remove moves ---------- */

  /** What `_prepare_stop` found: nothing, or the stop of whoever holds the key now. */
  lemma PreparedFacts(s: System, r: Remove, newTask: nat)
    requires Core(s) && newTask !in s.tasks
    ensures var (t, q) := PreparedBy(s, r, newTask);
            var p := Prepare(s.manager, r.key, r.force, s.ended, newTask).1;
            match p
            case Gone => r.key !in t.manager.sessions
            case Join(op, forceRequested, _) =>
              && t.manager.Registered(r.key, op.session) && s.manager.Registered(r.key, op.session)
              && op.task in t.tasks && t.tasks[op.task] == StopTask(r.key, op.session, op.force)
              && op.task !in t.ended && (r.force ==> forceRequested)
  {
    hide OneLiveStop, ForceSticks, LeftForCause, CallbacksTookEffect;
  }

  /** The one live graceful stop of a registered session, if any, is the one just joined. */
  lemma OnlyThisGraceful(t: System, x: nat, task: nat)
    requires Tidy(t) && OneLiveStop(t) && t.Registered(x) && task in t.tasks && task !in t.ended && t.tasks[task].session == x
    ensures GracefulDone(t, x, Some(task))
  {
  }

  lemma PrepareRemoveOk(s: System, r: Remove, newTask: nat)
    requires Core(s) && RemoveOk(s, r) && r.at == Preparing && newTask !in s.tasks
    ensures var (t, q) := PreparedBy(s, r, newTask); RemoveOk(t, q)
  {
    hide OneLiveStop, ForceSticks, LeftForCause, CallbacksTookEffect, Advances, GracefulDone, Prepare;
    var (t, q) := PreparedBy(s, r, newTask);
    PrepareCore(s, r, newTask);
    PreparedFacts(s, r, newTask);
    RemoveStays(s, t, r);
    var p := Prepare(s.manager, r.key, r.force, s.ended, newTask).1;
    if p.Join? {
      PreparedJoinOk(s, r, newTask, t, p.op, p.forceRequested);
    } else {
      GoneOk(s, r, newTask, t);
    }
  }

  lemma GoneOk(s: System, r: Remove, newTask: nat, t: System)
    requires Core(s) && RemoveOk(s, r) && r.at == Preparing && newTask !in s.tasks && t == PreparedBy(s, r, newTask).0
    requires Core(t) && RemoveOk(t, r) && r.key !in t.manager.sessions
    requires Prepare(s.manager, r.key, r.force, s.ended, newTask).1 == Gone
    ensures RemoveOk(t, PreparedBy(s, r, newTask).1)
  {
  }

  lemma PreparedJoinOk(s: System, r: Remove, newTask: nat, t: System, op: Operation, forceRequested: bool)
    requires Core(s) && RemoveOk(s, r) && r.at == Preparing && t == PreparedBy(s, r, newTask).0
    requires Core(t) && RemoveOk(t, r) && t.added == s.added
    requires t.manager.Registered(r.key, op.session) && s.manager.Registered(r.key, op.session)
    requires op.task in t.tasks && t.tasks[op.task] == StopTask(r.key, op.session, op.force) && op.task !in t.ended
    requires r.force ==> forceRequested
    ensures var x := if r.target.Some? then r.target.value else op.session;
            && RemoveOk(t, r.(target := Some(x), at := Waiting(op, forceRequested)))
            && (r.carries ==> RemoveOk(t, r.(target := Some(x), at := Yielded(op, forceRequested))))
  {
    hide OneLiveStop, ForceSticks, LeftForCause, CallbacksTookEffect, Prepare, GracefulDone;
    OnlyThisGraceful(t, op.session, op.task);
    if r.force && !op.force && r.joined > 0 && r.target == Some(op.session) {
      NotBoth(t, op.session, op.task);
    }
  }

  lemma NotBoth(t: System, x: nat, task: nat)
    requires task in t.tasks && t.tasks[task].session == x && !t.tasks[task].force && task !in t.ended
    ensures !GracefulDone(t, x, None)
  {
  }

  lemma ResumeRemoveOk(s: System, r: Remove)
    requires Core(s) && RemoveOk(s, r) && (r.at.Yielded? || r.at.Waiting?)
    requires r.at.Waiting? ==> r.at.op.task in s.ended && r.at.op.task in s.calledBack
    ensures RemoveOk(s, Resumed(s, r))
  {
  }

  /* ---------- every step, and every run ---------- */

  lemma StepAdvances(s: System, step: Step)
    requires Core(s) && Enabled(s, step)
    ensures Core(Apply(s, step)) && Advances(s, Apply(s, step))
  {
    hide Core, Advances, Prepare, Drops;
    match step
    case Add(key, session) => AddCore(s, key, session);
    case StartEnds(session, ok) =>
      if ok { SameCore(s, Apply(s, step)); } else { FailedStartDrops(s, session); DropsCore(s, Apply(s, step)); }
    case PrepareStop(c, newTask) =>
      PrepareCore(s, s.removes[c], newTask);
      SameCore(PreparedBy(s, s.removes[c], newTask).0, Apply(s, step));
      AdvancesTrans(s, PreparedBy(s, s.removes[c], newTask).0, Apply(s, step));
    case TaskEnds(task, outcome) => TaskEndsCore(s, task, outcome);
    case CallBack(task) => CallBackCore(s, task);
    case SettleAbandoned(operations) => AbandonedCore(s, operations);
    case _ => SameCore(s, Apply(s, step));
  }

  /** The calls in progress and the starts in progress are not part of the core. */
  lemma SameCore(s: System, t: System)
    requires Core(s) && t == s.(removes := t.removes, starting := t.starting)
    ensures Core(t) && Advances(s, t)
  {
  }

  /** The invariant of the machine is kept by every step, and nothing is undone. */
  lemma StepKeeps(s: System, step: Step)
    requires Inv(s) && Enabled(s, step)
    ensures Inv(Apply(s, step)) && Advances(s, Apply(s, step))
  {
    hide Core, Advances, RemoveOk, Prepare;
    StepAdvances(s, step);
    var t := Apply(s, step);
    forall c | c in t.removes ensures RemoveOk(t, t.removes[c]) {
      if c in s.removes && t.removes[c] == s.removes[c] {
        RemoveStays(s, t, s.removes[c]);
      } else {
        MovedRemoveOk(s, step, c);
      }
    }
  }

  lemma MovedRemoveOk(s: System, step: Step, c: nat)
    requires Inv(s) && Enabled(s, step) && c in Apply(s, step).removes
    requires c !in s.removes || Apply(s, step).removes[c] != s.removes[c]
    ensures RemoveOk(Apply(s, step), Apply(s, step).removes[c])
  {
    hide Core, Advances, RemoveOk, Prepare;
    var t := Apply(s, step);
    match step
    case CallRemove(_, _, _, _) => NewRemoveOk(t, t.removes[c]);
    case PrepareStop(_, newTask) =>
      var u := PreparedBy(s, s.removes[c], newTask).0;
      PrepareRemoveOk(s, s.removes[c], newTask);
      PrepareCore(s, s.removes[c], newTask);
      SameCore(u, t);
      RemoveStays(u, t, t.removes[c]);
    case Resume(_) =>
      ResumeRemoveOk(s, s.removes[c]);
      SameCore(s, t);
      RemoveStays(s, t, t.removes[c]);
    case CancelCaller(_) =>
      CancelledOk(s, s.removes[c]);
      SameCore(s, t);
      RemoveStays(s, t, t.removes[c]);
    case _ =>
  }

  lemma NewRemoveOk(t: System, r: Remove)
    requires r.at == Preparing && r.target == None && r.joined == 0
    ensures RemoveOk(t, r)
  {
  }

  lemma CancelledOk(s: System, r: Remove)
    requires RemoveOk(s, r)
    ensures RemoveOk(s, r.(at := Raised))
  {
  }

  ghost predicate IsRun(states: seq<System>, steps: seq<Step>) {
    && |states| == |steps| + 1 && states[0] == INITIAL
    && forall i :: 0 <= i < |steps| ==> Enabled(states[i], steps[i]) && states[i + 1] == Apply(states[i], steps[i])
  }

  lemma {:induction false} RunsAreSafe(states: seq<System>, steps: seq<Step>, k: nat)
    requires IsRun(states, steps) && k <= |steps|
    ensures Inv(states[k])
  {
    hide Inv, Enabled, Apply, Advances;
    if k == 0 {
      InitialInv();
    } else {
      RunsAreSafe(states, steps, k - 1);
      StepKeeps(states[k - 1], steps[k - 1]);
    }
  }

  lemma {:induction false} RunsAdvance(states: seq<System>, steps: seq<Step>, i: nat, k: nat)
    requires IsRun(states, steps) && i <= k <= |steps|
    ensures Advances(states[i], states[k])
  {
    hide Inv, Enabled, Apply, Advances;
    if i == k {
      AdvancesRefl(states[i]);
    } else {
      RunsAdvance(states, steps, i, k - 1);
      RunsAreSafe(states, steps, k - 1);
      StepKeeps(states[k - 1], steps[k - 1]);
      AdvancesTrans(states[i], states[k - 1], states[k]);
    }
  }

  /* ---------- what the source promises ---------- */

  /** A registered session leaves only by its own failed start or its own successful stop. */
  lemma LeavesOnlyForCause(states: seq<System>, steps: seq<Step>, i: nat, k: nat, x: nat)
    requires IsRun(states, steps) && i <= k <= |steps|
    requires states[i].Registered(x) && !states[k].Registered(x)
    ensures x in states[k].failedStarts || StoppedWell(states[k], x)
  {
    hide Enabled, Apply;
    RunsAreSafe(states, steps, k);
    RunsAdvance(states, steps, i, k);
  }

  /** The step is the failed start of `y`, or settles a stop of `y` that succeeded, wherever `_finish_stop` is called. */
  ghost predicate TakesOut(s: System, step: Step, y: nat)
    requires Enabled(s, step)
  {
    match step
    case StartEnds(x, ok) => x == y && !ok
    case CallBack(t) => s.tasks[t].session == y && s.ended[t] == Succeeded
    case PrepareStop(c, _) =>
      var key := s.removes[c].key;
      key in s.manager.stops && s.manager.stops[key].session == y && EndedWell(s, s.manager.stops[key].task)
    case SettleAbandoned(operations) => exists e :: e in operations && e.op.session == y && EndedWell(s, e.op.task)
    case _ => false
  }

  predicate EndedWell(s: System, task: nat) { task in s.ended && s.ended[task] == Succeeded }

  /** Whatever step is taken, a registered session leaves exactly by its own: no late stop or failed start takes out another. */
  lemma ReplacementSurvives(s: System, step: Step, y: nat)
    requires Inv(s) && Enabled(s, step) && s.Registered(y)
    ensures Apply(s, step).Registered(y) <==> !TakesOut(s, step, y)
  {
    hide LeftForCause, OneLiveStop, ForceSticks, CallbacksTookEffect, RemoveOk;
    match step
    case SettleAbandoned(operations) => SettlingTakesOut(s, operations, y);
    case PrepareStop(c, newTask) => PreparingTakesOut(s, s.removes[c], newTask, y);
    case _ =>
  }

  lemma PreparingTakesOut(s: System, r: Remove, newTask: nat, y: nat)
    requires Tidy(s) && s.Registered(y) && newTask !in s.tasks
    ensures PreparedBy(s, r, newTask).0.Registered(y) <==>
            !(r.key in s.manager.stops && s.manager.stops[r.key].session == y && EndedWell(s, s.manager.stops[r.key].task))
  {
  }

  lemma {:induction false} SettlingTakesOut(s: System, operations: seq<Entry>, y: nat)
    requires Tidy(s) && s.Registered(y)
    requires forall e :: e in operations ==>
               e.op.task in s.tasks && s.tasks[e.op.task] == StopTask(e.key, e.op.session, e.op.force)
    ensures var m := Abandoned(s.manager, operations, s.ended);
            && (Taken(m, s.added[y]) ==> m.sessions[s.added[y]] == y)
            && (Taken(m, s.added[y]) <==> !exists e :: e in operations && e.op.session == y && EndedWell(s, e.op.task))
  {
    if operations != [] {
      var first, last := operations[..|operations| - 1], operations[|operations| - 1];
      SettlingTakesOut(s, first, y);
      assert last.key == s.added[last.op.session];
      assert forall e :: e in operations <==> e in first || e == last;
    }
  }

  predicate Taken(m: Manager, key: nat) { key in m.sessions }

  lemma AtMostOneLiveStop(states: seq<System>, steps: seq<Step>, k: nat, t: nat, u: nat)
    requires IsRun(states, steps) && k <= |steps|
    requires t in states[k].tasks && t !in states[k].ended && u in states[k].tasks && u !in states[k].ended
    requires states[k].tasks[t].session == states[k].tasks[u].session && states[k].Registered(states[k].tasks[t].session)
    ensures t == u
  {
    hide Enabled, Apply, RemoveOk;
    RunsAreSafe(states, steps, k);
    var s := states[k];
    assert s.manager.Owns(s.tasks[t].key, s.tasks[t].session, t) && s.manager.Owns(s.tasks[u].key, s.tasks[u].session, u);
  }

  /** Once anybody asked for force, every stop task created later for that registration is a force stop. */
  lemma ForceIsSticky(states: seq<System>, steps: seq<Step>, i: nat, k: nat, t: nat)
    requires IsRun(states, steps) && i <= k <= |steps|
    requires t !in states[i].tasks && t in states[k].tasks && states[k].tasks[t].session in states[i].forcedFor
    ensures states[k].tasks[t].force
  {
    hide IsRun;
    RunsAdvance(states, steps, i, k);
  }

  /** And nobody is stopped by force for whom nobody asked, not even under a key that was forced before. */
  lemma ForceOnlyWhenAsked(states: seq<System>, steps: seq<Step>, k: nat, t: nat)
    requires IsRun(states, steps) && k <= |steps| && t in states[k].tasks && states[k].tasks[t].force
    ensures states[k].tasks[t].session in states[k].forcedFor
  {
    RunsAdvance(states, steps, 0, k);
  }

  /**
   * A `remove` that has returned normally: a forced one joined at most one graceful stop of the
   * registration it was called for; that registration is gone, except that a caller carrying an
   * earlier cancellation may be ahead of the done-callback of the successful stop it joined.
   */
  lemma RemoveReturns(states: seq<System>, steps: seq<Step>, k: nat, c: nat)
    requires IsRun(states, steps) && k <= |steps|
    requires c in states[k].removes && states[k].removes[c].at.Returned? && states[k].removes[c].target.Some?
    ensures var s, r := states[k], states[k].removes[c];
            && (r.force ==> r.joined <= 1)
            && (!r.carries ==> !s.Registered(r.target.value))
            && (s.Registered(r.target.value) ==>
                  && r.at.via.Some? && r.at.via.value in s.tasks && s.tasks[r.at.via.value].session == r.target.value
                  && r.at.via.value in s.ended && s.ended[r.at.via.value] == Succeeded && r.at.via.value !in s.calledBack)
  {
    hide Enabled, Apply, OneLiveStop, LeftForCause, ForceSticks;
    RunsAreSafe(states, steps, k);
    assert RemoveOk(states[k], states[k].removes[c]);
  }

  /** Callers of this kind can rely on `remove(force=True)`: when it has returned, its registration is gone. */
  ghost predicate ReturnsGone(carries: bool) {
    forall states: seq<System>, steps: seq<Step>, c: nat :: IsRun(states, steps) && ForcedReturn(states[|steps|], c, carries)
      ==> !states[|steps|].Registered(states[|steps|].removes[c].target.value)
  }

  predicate ForcedReturn(s: System, c: nat, carries: bool) {
    c in s.removes && s.removes[c].force && s.removes[c].carries == carries
    && s.removes[c].at.Returned? && s.removes[c].target.Some?
  }

  /** The docstring's promise holds exactly for callers that carry no earlier cancellation request. */
  lemma RemoveLeavesGone(carries: bool)
    ensures ReturnsGone(carries) <==> !carries
  {
    hide Enabled, Apply;
    if carries {
      ReturnsAhead();
    } else {
      forall states: seq<System>, steps: seq<Step>, c: nat | IsRun(states, steps) && ForcedReturn(states[|steps|], c, carries)
        ensures !states[|steps|].Registered(states[|steps|].removes[c].target.value)
      {
        RemoveReturns(states, steps, |steps|, c);
      }
    }
  }

  /**
   * A caller that carries a cancellation takes a scheduling turn before it awaits the stop task. If the
   * task ends in that turn, `remove` returns ahead of the done-callback and the session is still there.
   */
  lemma ReturnsAhead()
    ensures !ReturnsGone(true)
  {
    var r, yielded := Remove(0, true, true, None, 0, Preparing), Ahead();
    var s2, s3 := BeforePrepare(r), AfterPrepare(yielded);
    var s4 := s3.(ended := map[7 := Succeeded]);
    var s5 := s4.(removes := map[1 := yielded.(at := Returned(Some(7)))]);
    var states := [INITIAL, s2.(removes := map[]), s2, s3, s4, s5];
    var steps := [Add(0, 5), CallRemove(1, 0, true, true), PrepareStop(1, 7), TaskEnds(7, Succeeded), Resume(1)];
    forall i | 0 <= i < |steps| ensures Enabled(states[i], steps[i]) && states[i + 1] == Apply(states[i], steps[i]) {
      hide Apply, Enabled, BeforePrepare, AfterPrepare;
      CallsAhead(r);
      PreparesAhead(r);
      EndsAhead();
    }
    hide Apply, Enabled;
    assert IsRun(states, steps);
    assert s5.Registered(5) && ForcedReturn(s5, 1, true);
    assert states[|steps|] == s5;
  }

  lemma CallsAhead(r: Remove)
    requires r == Remove(0, true, true, None, 0, Preparing)
    ensures var s1 := BeforePrepare(r).(removes := map[]);
            && Enabled(INITIAL, Add(0, 5)) && Apply(INITIAL, Add(0, 5)) == s1
            && Enabled(s1, CallRemove(1, 0, true, true)) && Apply(s1, CallRemove(1, 0, true, true)) == BeforePrepare(r)
  {
  }

  lemma EndsAhead()
    ensures var s3 := AfterPrepare(Ahead());
            var s4 := s3.(ended := map[7 := Succeeded]);
            && Enabled(s3, TaskEnds(7, Succeeded)) && Apply(s3, TaskEnds(7, Succeeded)) == s4
            && Enabled(s4, Resume(1))
            && Apply(s4, Resume(1)) == s4.(removes := map[1 := Ahead().(at := Returned(Some(7)))])
  {
    MapReplaced(1, Ahead(), Ahead().(at := Returned(Some(7))));
  }

  function Ahead(): Remove { Remove(0, true, true, Some(5), 0, Yielded(Operation(5, 7, true), true)) }

  function BeforePrepare(r: Remove): System {
    System(Manager(map[0 := 5], map[], {}), map[5 := 0], {5}, {}, {}, map[], map[], {}, map[1 := r])
  }

  function AfterPrepare(r: Remove): System {
    System(Manager(map[0 := 5], map[0 := Operation(5, 7, true)], {0}), map[5 := 0], {5}, {}, {5},
           map[7 := StopTask(0, 5, true)], map[], {}, map[1 := r])
  }

  lemma PreparesAhead(r: Remove)
    requires r == Remove(0, true, true, None, 0, Preparing)
    ensures Enabled(BeforePrepare(r), PrepareStop(1, 7))
    ensures Apply(BeforePrepare(r), PrepareStop(1, 7)) == AfterPrepare(Ahead())
  {
  }

  lemma MapReplaced(k: nat, a: Remove, b: Remove)
    ensures map[k := a][k := b] == map[k := b]
  {
  }

  /* ---------- failed and abandoned stops ---------- */

  /** What a call of `remove` finds when it prepares a stop: nobody, or a live stop of whoever holds the key. */
  lemma PrepareFindsLive(states: seq<System>, steps: seq<Step>, i: nat, c: nat, newTask: nat)
    requires IsRun(states, steps) && i < |steps| && steps[i] == PrepareStop(c, newTask)
    ensures c in states[i].removes && c in states[i + 1].removes
    ensures var t, r := states[i + 1], states[i + 1].removes[c];
            if r.key in t.manager.sessions then
              && (r.at.Yielded? || r.at.Waiting?) && r.at.op.task in t.tasks && r.at.op.task !in t.ended
              && r.at.op.session == t.manager.sessions[r.key] && (r.force ==> r.at.forceRequested)
            else r.at == Returned(None)
  {
    hide OneLiveStop, ForceSticks, LeftForCause, CallbacksTookEffect, RemoveOk, Advances, Prepare;
    RunsAreSafe(states, steps, i);
    PreparedFacts(states[i], states[i].removes[c], newTask);
  }

  /**
   * In any run, after a stop of `x` that failed or was cancelled: as long as no stop of `x` succeeds and its
   * start does not fail, `x` is registered, and every caller that prepares a stop under its key joins
   * another stop of `x`, one that has not ended, by force if force was asked for `x` before it was created.
   */
  lemma FailedStopCanBeRetried(states: seq<System>, steps: seq<Step>, i: nat, j: nat, t: nat, c: nat, newTask: nat)
    requires IsRun(states, steps) && i <= j < |steps| && steps[j] == PrepareStop(c, newTask)
    requires t in states[i].tasks && t in states[i].ended && states[i].ended[t] != Succeeded
    requires c in states[j].removes && states[i].Registered(states[i].tasks[t].session)
    requires states[j].removes[c].key == states[i].tasks[t].key
    requires var x := states[i].tasks[t].session; x !in states[j + 1].failedStarts && !StoppedWell(states[j + 1], x)
    ensures var u, x := states[j + 1], states[i].tasks[t].session;
            && u.Registered(x) && c in u.removes && (u.removes[c].at.Yielded? || u.removes[c].at.Waiting?)
            && var op := u.removes[c].at.op;
               && op.session == x && op.task != t && op.task in u.tasks && op.task !in u.ended
               && (op.task !in states[i].tasks && x in states[i].forcedFor ==> u.tasks[op.task].force)
  {
    hide Enabled, Apply, LeftForCause, OneLiveStop, ForceSticks, CallbacksTookEffect, RemoveOk;
    var x := states[i].tasks[t].session;
    RunsAreSafe(states, steps, i);
    RunsAdvance(states, steps, i, j + 1);
    if !states[j + 1].Registered(x) {
      LeavesOnlyForCause(states, steps, i, j + 1, x);
    }
    PrepareKeepsKey(states, steps, j, c, newTask);
    PrepareFindsLive(states, steps, j, c, newTask);
    var op := states[j + 1].removes[c].at.op;
    if op.task !in states[i].tasks && x in states[i].forcedFor {
      RunsAreSafe(states, steps, j + 1);
      JoinedTaskIs(states[j + 1], c);
      ForceIsSticky(states, steps, i, j + 1, op.task);
    }
  }

  lemma PrepareKeepsKey(states: seq<System>, steps: seq<Step>, j: nat, c: nat, newTask: nat)
    requires IsRun(states, steps) && j < |steps| && steps[j] == PrepareStop(c, newTask) && c in states[j].removes
    ensures c in states[j + 1].removes && states[j + 1].removes[c].key == states[j].removes[c].key
  {
  }

  lemma JoinedTaskIs(s: System, c: nat)
    requires Inv(s) && c in s.removes && (s.removes[c].at.Yielded? || s.removes[c].at.Waiting?)
    ensures var op := s.removes[c].at.op; op.task in s.tasks && s.tasks[op.task].session == op.session
  {
    assert RemoveOk(s, s.removes[c]);
  }

  lemma {:induction false} OtherKeysUntouched(m: Manager, operations: seq<Entry>, ended: map<nat, Outcome>, key: nat)
    requires forall e :: e in operations ==> e.key != key
    ensures var n := Abandoned(m, operations, ended);
            && (key in n.sessions <==> key in m.sessions) && (key in m.sessions ==> n.sessions[key] == m.sessions[key])
            && (key in n.stops <==> key in m.stops) && (key in m.stops ==> n.stops[key] == m.stops[key])
            && (key in n.forced <==> key in m.forced)
  {
    if operations != [] {
      OtherKeysUntouched(m, operations[..|operations| - 1], ended, key);
    }
  }

  /**
   * A cancelled stop that `abandon_pending_stops` settles leaves its session registered with force
   * requested and no operation of its own, whether or not its done-callback came first; and if its operation
   * was still recorded, the next stop of the session is a new one, by force.
   */
  lemma {:induction false} AbandonedStaysForced(m: Manager, operations: seq<Entry>, ended: map<nat, Outcome>, i: nat,
                                                force: bool, later: map<nat, Outcome>, newTask: nat)
    requires i < |operations| && DistinctKeys(operations)
    requires var e := operations[i];
             e.op.task in ended && ended[e.op.task] == WasCancelled && m.Registered(e.key, e.op.session)
    ensures var n, e := Abandoned(m, operations, ended), operations[i];
            && n.Registered(e.key, e.op.session) && e.key in n.forced && !n.Owns(e.key, e.op.session, e.op.task)
            && (m.Owns(e.key, e.op.session, e.op.task) ==>
                  e.key !in n.stops
                  && Prepare(n, e.key, force, later, newTask).1 == Join(Operation(e.op.session, newTask, true), true, true))
    ensures operations[i].op.session in AbandonForces(m, operations, ended)
  {
    var first, last := operations[..|operations| - 1], |operations| - 1;
    if i < last {
      AbandonedStaysForced(m, first, ended, i, force, later, newTask);
      AbandonOneElsewhere(Abandoned(m, first, ended), operations[last], ended, operations[i].key);
    } else {
      OtherKeysUntouched(m, first, ended, operations[i].key);
    }
  }

  /**
   * In any run, once `abandon_pending_stops` has settled a cancelled stop of a registered session, that
   * session is still registered and every stop task created for it later is a force stop.
   */
  lemma AbandonForcesLaterStops(states: seq<System>, steps: seq<Step>, j: nat, k: nat, operations: seq<Entry>, i: nat, t: nat)
    requires IsRun(states, steps) && j < k <= |steps| && steps[j] == SettleAbandoned(operations) && i < |operations|
    requires var e := operations[i];
             e.op.task in states[j].ended && states[j].ended[e.op.task] == WasCancelled && states[j].Registered(e.op.session)
    requires t in states[k].tasks && t !in states[j + 1].tasks && states[k].tasks[t].session == operations[i].op.session
    ensures states[j + 1].Registered(operations[i].op.session) && operations[i].op.session in states[j + 1].forcedFor
    ensures states[k].tasks[t].force
  {
    hide AbandonForces, Abandoned, OneLiveStop, ForceSticks, LeftForCause, CallbacksTookEffect, RemoveOk;
    var e := operations[i];
    RunsAreSafe(states, steps, j);
    assert Enabled(states[j], steps[j]) && states[j + 1] == Apply(states[j], steps[j]);
    assert e in operations && states[j].added[e.op.session] == e.key;
    AbandonedStaysForced(states[j].manager, operations, states[j].ended, i, true, states[j].ended, 0);
    ForceIsSticky(states, steps, j + 1, k, t);
  }

  lemma AbandonOneElsewhere(m: Manager, e: Entry, ended: map<nat, Outcome>, key: nat)
    requires e.key != key
    ensures var n := AbandonOne(m, e, ended);
            && (key in n.sessions <==> key in m.sessions) && (key in m.sessions ==> n.sessions[key] == m.sessions[key])
            && (key in n.stops <==> key in m.stops) && (key in m.stops ==> n.stops[key] == m.stops[key])
            && (key in n.forced <==> key in m.forced)
  {
  }
}
