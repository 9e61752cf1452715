/**
 * The keyed registry of src/easycat/session_manager.py.
 *
 * Sessions, keys and stop tasks are numbers. No section of the source that holds the manager's lock
 * awaits anything, so each section is one method here; what the awaited `Session.start` and the stop
 * tasks do is for SessionTeardown to say. Logging and the task scope's own bookkeeping are left out.
 */
module SessionManager {
  import opened Prelude

  datatype Outcome = Succeeded | Failed | WasCancelled

  /** One entry of `_stop_tasks`. */
  datatype Operation = Operation(session: nat, task: nat, force: bool)

  datatype Entry = Entry(key: nat, op: Operation)

  datatype Manager = Manager(sessions: map<nat, nat>, stops: map<nat, Operation>, forced: set<nat>) {
    predicate Registered(key: nat, session: nat) { key in sessions && sessions[key] == session }

    predicate Owns(key: nat, session: nat, task: nat) {
      key in stops && stops[key].session == session && stops[key].task == task
    }
  }

  /** What `_prepare_stop` hands to `remove`; `started` says that the task was created by this call. */
  datatype Prepared = Gone | Join(op: Operation, forceRequested: bool, started: bool)

  /* ---------- what each section does ---------- */

  function Added(m: Manager, key: nat, session: nat): Option<Manager> {
    if key in m.sessions then None
    else Some(m.(forced := m.forced - {key}, sessions := m.sessions[key := session]))
  }

  function StartFailed(m: Manager, key: nat, session: nat): Manager {
    if m.Registered(key, session) then m.(sessions := m.sessions - {key}) else m
  }

  /** `_finish_stop`, for a task that ended with `outcome`. */
  function Finished(m: Manager, key: nat, session: nat, task: nat, outcome: Outcome): Manager {
    var n := if m.Owns(key, session, task) then m.(stops := m.stops - {key}) else m;
    if outcome == Succeeded && n.Registered(key, session)
    then n.(sessions := n.sessions - {key}, forced := n.forced - {key})
    else n
  }

  /** `_prepare_stop`; `ended` has the outcomes of finished tasks, `newTask` is the number of a new one. */
  function Prepare(m: Manager, key: nat, force: bool, ended: map<nat, Outcome>, newTask: nat): (Manager, Prepared) {
    if key !in m.sessions then (m.(forced := m.forced - {key}), Gone)
    else
      var n := if force then m.(forced := m.forced + {key}) else m;
      var forceRequested := key in n.forced;
      if key in n.stops && n.stops[key].task in ended then
        var f := Finished(n, key, n.stops[key].session, n.stops[key].task, ended[n.stops[key].task]);
        if key !in f.sessions then (f, Gone) else Launch(f, key, forceRequested, newTask)
      else if key in n.stops && n.stops[key].session == n.sessions[key] then
        (n, Join(n.stops[key], forceRequested, false))
      else Launch(n, key, forceRequested, newTask)
  }

  function Launch(m: Manager, key: nat, forceRequested: bool, newTask: nat): (Manager, Prepared)
    requires key in m.sessions
  {
    var op := Operation(m.sessions[key], newTask, forceRequested);
    (m.(stops := m.stops[key := op]), Join(op, forceRequested, true))
  }

  /** One turn of the loop that ends `abandon_pending_stops`. */
  function AbandonOne(m: Manager, e: Entry, ended: map<nat, Outcome>): Manager {
    var (session, task) := (e.op.session, e.op.task);
    if task !in ended || ended[task] == Failed then m
    else if ended[task] == Succeeded then Finished(m, e.key, session, task, Succeeded)
    else
      var n := if m.Owns(e.key, session, task) then m.(stops := m.stops - {e.key}) else m;
      if n.Registered(e.key, session) then n.(forced := n.forced + {e.key}) else n
  }

  function Abandoned(m: Manager, operations: seq<Entry>, ended: map<nat, Outcome>): Manager {
    if operations == [] then m
    else AbandonOne(Abandoned(m, operations[..|operations| - 1], ended), operations[|operations| - 1], ended)
  }

  /* ---------- the object ---------- */

  class SessionManager {
    var sessions: map<nat, nat>
    var stopTasks: map<nat, Operation>
    var forceRequested: set<nat>

    ghost function View(): Manager
      reads this
    {
      Manager(sessions, stopTasks, forceRequested)
    }

    constructor ()
      ensures View() == Manager(map[], map[], {})
    {
      sessions, stopTasks, forceRequested := map[], map[], {};
    }

    /** The first section of `add`; refusing leaves everything as it was. */
    method Add(key: nat, session: nat) returns (ok: bool)
      modifies this
      ensures ok == (key !in old(sessions))
      ensures Added(old(View()), key, session) == if ok then Some(View()) else None
      ensures !ok ==> View() == old(View())
    {
      if key in sessions { return false; }
      forceRequested := forceRequested - {key};
      sessions := sessions[key := session];
      return true;
    }

    /** The last section of `add`, after `session.start()` raised. */
    method DropFailedStart(key: nat, session: nat)
      modifies `sessions
      ensures View() == StartFailed(old(View()), key, session)
    {
      if key in sessions && sessions[key] == session {
        sessions := sessions - {key};
      }
    }

    method FinishStop(key: nat, session: nat, task: nat, outcome: Outcome)
      modifies this
      ensures View() == Finished(old(View()), key, session, task, outcome)
    {
      if key in stopTasks && stopTasks[key].session == session && stopTasks[key].task == task {
        stopTasks := stopTasks - {key};
      }
      if outcome != Succeeded { return; }
      if key in sessions && sessions[key] == session {
        sessions := sessions - {key};
        forceRequested := forceRequested - {key};
      }
    }

    method PrepareStop(key: nat, force: bool, ended: map<nat, Outcome>, newTask: nat) returns (prepared: Prepared)
      modifies this
      ensures (View(), prepared) == Prepare(old(View()), key, force, ended, newTask)
    {
      if key !in sessions {
        forceRequested := forceRequested - {key};
        return Gone;
      }
      if force { forceRequested := forceRequested + {key}; }
      var requested := key in forceRequested;
      var joinable := key in stopTasks;
      if joinable && stopTasks[key].task in ended {
        FinishStop(key, stopTasks[key].session, stopTasks[key].task, ended[stopTasks[key].task]);
        if key !in sessions { return Gone; }
        joinable := false;
      }
      if joinable && stopTasks[key].session == sessions[key] {
        return Join(stopTasks[key], requested, false);
      }
      var op := Operation(sessions[key], newTask, requested);
      stopTasks := stopTasks[key := op];
      return Join(op, requested, true);
    }

    /** The section of `abandon_pending_stops` that follows the scheduling turn. */
    method SettleAbandoned(operations: seq<Entry>, ended: map<nat, Outcome>)
      modifies this
      ensures View() == Abandoned(old(View()), operations, ended)
    {
      for i := 0 to |operations|
        invariant View() == Abandoned(old(View()), operations[..i], ended)
      {
        assert operations[..i + 1][..i] == operations[..i];
        SettleOne(operations[i], ended);
      }
      assert operations[..|operations|] == operations;
    }

    method SettleOne(e: Entry, ended: map<nat, Outcome>)
      modifies this
      ensures View() == AbandonOne(old(View()), e, ended)
    {
      var task := e.op.task;
      if task !in ended { return; }
      if ended[task] == WasCancelled {
        if e.key in stopTasks && stopTasks[e.key].session == e.op.session && stopTasks[e.key].task == task {
          stopTasks := stopTasks - {e.key};
        }
        if e.key in sessions && sessions[e.key] == e.op.session {
          forceRequested := forceRequested + {e.key};
        }
      } else if ended[task] == Succeeded {
        FinishStop(e.key, e.op.session, task, Succeeded);
      }
    }
  }
}
