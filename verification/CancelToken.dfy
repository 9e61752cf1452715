/**
 * src/easycat/cancel.py: `cancel()` on any thread against `wait()` on the event loop.
 *
 * Each step below is one access to a shared field or one call on the loop or the event; `cancel()` takes its
 * lock around the test-and-set, `wait()` takes no lock. Threads interleave between any two steps, with
 * sequentially consistent fields. On the loop only one coroutine or callback runs at a time, until it
 * suspends or returns.
 */
module CancelToken {
  import opened Prelude

  /** The token's fields; `scheduled` says that the loop has `Event.set` among its callbacks. */
  datatype Token = Token(cancelled: bool, bound: bool, isSet: bool, scheduled: bool, waiting: set<nat>, woken: set<nat>)

  function Fresh(bound: bool): Token { Token(false, bound, false, false, {}, {}) }

  /* ---------- the accesses, shared by the class and by the threads below ---------- */

  function Cancelled(t: Token): Token { t.(cancelled := true) }

  function Bound(t: Token): Token { t.(bound := true) }

  function SetScheduled(t: Token): Token { t.(scheduled := true) }

  function EventSet(t: Token): Token { t.(isSet := true, waiting := {}, woken := t.woken + t.waiting) }

  function Blocked(t: Token, w: nat): Token { t.(waiting := t.waiting + {w}) }

  /** `cancel()` in one go; `running` and `accepted` are the loop's answers to the two calls on it. */
  function CancelledInOneGo(t: Token, running: bool, accepted: bool): Token {
    if t.cancelled then t
    else if t.bound && running && accepted then SetScheduled(Cancelled(t))
    else EventSet(Cancelled(t))
  }

  /** `wait()` in one go, as far as it gets without suspending. */
  predicate WaitBlocks(t: Token) { !t.cancelled && !t.isSet }

  function WaitedInOneGo(t: Token, w: nat): Token { if WaitBlocks(t) then Blocked(Bound(t), w) else Bound(t) }

  class CancelToken {
    var cancelled: bool
    var loopBound: bool
    var eventIsSet: bool
    var setScheduled: bool
    var waiting: set<nat>
    var woken: set<nat>

    ghost function View(): Token
      reads this
    {
      Token(cancelled, loopBound, eventIsSet, setScheduled, waiting, woken)
    }

    constructor (onRunningLoop: bool)
      ensures View() == Fresh(onRunningLoop)
    {
      cancelled, loopBound, eventIsSet, setScheduled, waiting, woken := false, onRunningLoop, false, false, {}, {};
    }

    method Cancel(running: bool, accepted: bool)
      modifies this
      ensures View() == CancelledInOneGo(old(View()), running, accepted)
    {
      var already := MarkCancelled();
      var loopSeen := loopBound;
      if already {
        return;
      }
      Dispatch(loopSeen, running, accepted);
    }

    /** The test-and-set of `cancel`. */
    method MarkCancelled() returns (already: bool)
      modifies `cancelled
      ensures already == old(cancelled) && View() == Cancelled(old(View()))
    {
      already := cancelled;
      if !already {
        cancelled := true;
      }
    }

    /** What `cancel` does after its locked section: a closed loop refuses the callback with a RuntimeError. */
    method Dispatch(loopSeen: bool, running: bool, accepted: bool)
      modifies this
      ensures View() == if loopSeen && running && accepted then SetScheduled(old(View())) else EventSet(old(View()))
    {
      if loopSeen && running {
        if accepted {
          setScheduled := true;
          return;
        }
      }
      SetEvent();
    }

    method SetEvent()
      modifies `eventIsSet, `waiting, `woken
      ensures View() == EventSet(old(View()))
    {
      eventIsSet := true;
      woken := woken + waiting;
      waiting := {};
    }

    method BindLoop()
      modifies `loopBound
      ensures View() == Bound(old(View()))
    {
      if !loopBound {
        loopBound := true;
      }
    }

    method Wait(waiter: nat) returns (blocked: bool)
      modifies this
      ensures blocked == WaitBlocks(old(View())) && View() == WaitedInOneGo(old(View()), waiter)
    {
      BindLoop();
      if cancelled || eventIsSet {
        return false;
      }
      waiting := waiting + {waiter};
      blocked := true;
    }
  }

  /* ---------- threads and coroutines ---------- */

  /** Where a `cancel()` is; `CancelDone` is also where one that lost the test-and-set is. */
  datatype Cancelling = Marked | SawLoop(loop: bool) | Scheduling | Setting | CancelDone

  datatype WaitingAt = Binding | Checking | Testing | Enqueueing | Suspended | WaitDone

  datatype System = System(token: Token, cancels: map<nat, Cancelling>, waits: map<nat, WaitingAt>, onLoop: Option<nat>)

  datatype Step =
    | CallCancel(thread: nat)                  // the test-and-set
    | ReadLoop(thread: nat)
    | AskRunning(thread: nat, running: bool)
    | Schedule(thread: nat, accepted: bool)    // call_soon_threadsafe
    | SetDirectly(thread: nat)
    | RunScheduled                             // the loop runs the scheduled Event.set
    | CallWait(waiter: nat)
    | Bind(waiter: nat)
    | Check(waiter: nat)
    | Test(waiter: nat)
    | Enqueue(waiter: nat)
    | Wake(waiter: nat)

  function Initial(onRunningLoop: bool): System { System(Fresh(onRunningLoop), map[], map[], None) }

  predicate At(s: System, w: nat, at: WaitingAt) { w in s.waits && s.waits[w] == at }

  predicate CancelAt(s: System, c: nat, at: Cancelling) { c in s.cancels && s.cancels[c] == at }

  predicate Enabled(s: System, step: Step) {
    match step
    case CallCancel(c) => c !in s.cancels
    case ReadLoop(c) => CancelAt(s, c, Marked)
    // A loop that is not running, or is closed, has nobody on it.
    case AskRunning(c, running) => CancelAt(s, c, SawLoop(true)) && (!running ==> s.onLoop == None)
    case Schedule(c, accepted) => CancelAt(s, c, Scheduling) && (!accepted ==> s.onLoop == None)
    case SetDirectly(c) => CancelAt(s, c, SawLoop(false)) || CancelAt(s, c, Setting)
    case RunScheduled => s.token.scheduled && s.onLoop == None
    case CallWait(w) => w !in s.waits && s.onLoop == None
    case Bind(w) => s.onLoop == Some(w) && At(s, w, Binding)
    case Check(w) => s.onLoop == Some(w) && At(s, w, Checking)
    case Test(w) => s.onLoop == Some(w) && At(s, w, Testing)
    case Enqueue(w) => s.onLoop == Some(w) && At(s, w, Enqueueing)
    case Wake(w) => s.onLoop == None && At(s, w, Suspended) && w in s.token.woken
  }

  function Moves(s: System, w: nat, at: WaitingAt): System {
    s.(waits := s.waits[w := at], onLoop := if at == Suspended || at == WaitDone then None else Some(w))
  }

  function Proceeds(s: System, c: nat, at: Cancelling): System { s.(cancels := s.cancels[c := at]) }

  function Apply(s: System, step: Step): System
    requires Enabled(s, step)
  {
    var t := s.token;
    match step
    case CallCancel(c) => Proceeds(s.(token := Cancelled(t)), c, if t.cancelled then CancelDone else Marked)
    case ReadLoop(c) => Proceeds(s, c, SawLoop(t.bound))
    case AskRunning(c, running) => Proceeds(s, c, if running then Scheduling else Setting)
    case Schedule(c, accepted) =>
      if accepted then Proceeds(s.(token := SetScheduled(t)), c, CancelDone) else Proceeds(s, c, Setting)
    case SetDirectly(c) => Proceeds(s.(token := EventSet(t)), c, CancelDone)
    case RunScheduled => s.(token := EventSet(t).(scheduled := false))
    case CallWait(w) => Moves(s, w, Binding)
    case Bind(w) => Moves(s.(token := Bound(t)), w, Checking)
    case Check(w) => Moves(s, w, if t.cancelled then WaitDone else Testing)
    case Test(w) => Moves(s, w, if t.isSet then WaitDone else Enqueueing)
    case Enqueue(w) => Moves(s.(token := Blocked(t, w)), w, Suspended)
    case Wake(w) => Moves(s, w, WaitDone)
  }

  /** `c` won the test-and-set and has not dispatched yet. */
  predicate Flying(s: System, c: nat) { c in s.cancels && s.cancels[c] != CancelDone }

  ghost predicate InFlight(s: System) { exists c :: Flying(s, c) }

  predicate Busy(at: WaitingAt) { at != Suspended && at != WaitDone }

  /** Waiters that have passed the check of `cancelled` and have not been released. */
  predicate Committed(s: System, w: nat) { At(s, w, Testing) || At(s, w, Enqueueing) || w in s.token.waiting }

  /** Between the check of `cancelled` and the suspension. */
  predicate Entering(s: System, w: nat) { At(s, w, Testing) || At(s, w, Enqueueing) }

  /* ---------- runs ---------- */

  ghost predicate Follows(states: seq<System>, steps: seq<Step>) {
    && |states| == |steps| + 1
    && forall i :: 0 <= i < |steps| ==> Enabled(states[i], steps[i]) && states[i + 1] == Apply(states[i], steps[i])
  }

  ghost predicate IsRun(states: seq<System>, steps: seq<Step>) {
    Follows(states, steps) && (states[0] == Initial(true) || states[0] == Initial(false))
  }

  /** `steps` can be taken one after the other from `s`, and end in `t`. */
  ghost predicate Leads(s: System, steps: seq<Step>, t: System) {
    exists states :: Follows(states, steps) && states[0] == s && states[|steps|] == t
  }

  lemma LeadsNowhere(s: System)
    ensures Leads(s, [], s)
  {
    assert Follows([s], []);
  }

  lemma Then(s: System, steps: seq<Step>, t: System, step: Step, longer: seq<Step>) returns (u: System)
    requires Leads(s, steps, t) && Enabled(t, step) && longer == steps + [step]
    ensures Leads(s, longer, u) && u == Apply(t, step)
  {
    hide Enabled, Apply;
    u := Apply(t, step);
    var states :| Follows(states, steps) && states[0] == s && states[|steps|] == t;
    var more := states + [u];
    assert Follows(more, longer) && more[0] == s && more[|longer|] == u;
  }

  /* ---------- one thread alone does what the class does ---------- */

  function CancelSteps(t: Token, c: nat, running: bool, accepted: bool): seq<Step> {
    if t.cancelled then [CallCancel(c)]
    else if !t.bound then [CallCancel(c), ReadLoop(c), SetDirectly(c)]
    else if !running then [CallCancel(c), ReadLoop(c), AskRunning(c, false), SetDirectly(c)]
    else if accepted then [CallCancel(c), ReadLoop(c), AskRunning(c, true), Schedule(c, true)]
    else [CallCancel(c), ReadLoop(c), AskRunning(c, true), Schedule(c, false), SetDirectly(c)]
  }

  /** With nothing in between, the steps of one `cancel()` change the token as `CancelToken.Cancel` does. */
  lemma CancelAlone(s: System, c: nat, running: bool, accepted: bool) returns (t: System)
    requires c !in s.cancels && (!running || !accepted ==> s.onLoop == None)
    ensures Leads(s, CancelSteps(s.token, c, running, accepted), t)
    ensures !Flying(t, c) && t.token == CancelledInOneGo(s.token, running, accepted)
    ensures t.waits == s.waits && t.onLoop == s.onLoop
  {
    hide Leads;
    LeadsNowhere(s);
    t := Then(s, [], s, CallCancel(c), [CallCancel(c)]);
    if s.token.cancelled {
      assert CancelSteps(s.token, c, running, accepted) == [CallCancel(c)];
    } else {
      t := Dispatched(s, c, running, accepted, t);
    }
  }

  lemma Dispatched(s: System, c: nat, running: bool, accepted: bool, marked: System) returns (t: System)
    requires !s.token.cancelled && (!running || !accepted ==> s.onLoop == None)
    requires Leads(s, [CallCancel(c)], marked) && marked == Proceeds(s.(token := Cancelled(s.token)), c, Marked)
    ensures Leads(s, CancelSteps(s.token, c, running, accepted), t)
    ensures !Flying(t, c) && t.token == CancelledInOneGo(s.token, running, accepted)
    ensures t.waits == s.waits && t.onLoop == s.onLoop
  {
    hide Leads;
    t := Then(s, [CallCancel(c)], marked, ReadLoop(c), [CallCancel(c), ReadLoop(c)]);
    if !s.token.bound {
      t := Then(s, [CallCancel(c), ReadLoop(c)], t, SetDirectly(c), CancelSteps(s.token, c, running, accepted));
    } else {
      t := Then(s, [CallCancel(c), ReadLoop(c)], t, AskRunning(c, running), [CallCancel(c), ReadLoop(c), AskRunning(c, running)]);
      t := Answered(s, c, running, accepted, t);
    }
  }

  lemma Answered(s: System, c: nat, running: bool, accepted: bool, asked: System) returns (t: System)
    requires !s.token.cancelled && s.token.bound && (!accepted ==> s.onLoop == None)
    requires Leads(s, [CallCancel(c), ReadLoop(c), AskRunning(c, running)], asked)
    requires CancelAt(asked, c, if running then Scheduling else Setting) && asked.token == Cancelled(s.token)
    requires asked.waits == s.waits && asked.onLoop == s.onLoop
    ensures Leads(s, CancelSteps(s.token, c, running, accepted), t)
    ensures !Flying(t, c) && t.token == CancelledInOneGo(s.token, running, accepted)
    ensures t.waits == s.waits && t.onLoop == s.onLoop
  {
    hide Leads;
    var steps := [CallCancel(c), ReadLoop(c), AskRunning(c, running)];
    if !running {
      t := Then(s, steps, asked, SetDirectly(c), CancelSteps(s.token, c, running, accepted));
    } else {
      t := Then(s, steps, asked, Schedule(c, accepted), steps + [Schedule(c, accepted)]);
      if accepted {
        assert CancelSteps(s.token, c, running, accepted) == steps + [Schedule(c, accepted)];
      } else {
        t := Then(s, steps + [Schedule(c, accepted)], t, SetDirectly(c), CancelSteps(s.token, c, running, accepted));
      }
    }
  }

  function WaitSteps(t: Token, w: nat): seq<Step> {
    if t.cancelled then [CallWait(w), Bind(w), Check(w)]
    else if t.isSet then [CallWait(w), Bind(w), Check(w), Test(w)]
    else [CallWait(w), Bind(w), Check(w), Test(w), Enqueue(w)]
  }

  /** And the steps of one `wait()` change it as `CancelToken.Wait` does, and suspend exactly when that blocks. */
  lemma WaitAlone(s: System, w: nat) returns (t: System)
    requires w !in s.waits && s.onLoop == None
    ensures Leads(s, WaitSteps(s.token, w), t) && t.token == WaitedInOneGo(s.token, w)
    ensures t.cancels == s.cancels && At(t, w, if WaitBlocks(s.token) then Suspended else WaitDone)
  {
    hide Leads;
    t := WaitChecked(s, w);
    assert s.token.cancelled ==> WaitSteps(s.token, w) == [CallWait(w), Bind(w), Check(w)];
    if !s.token.cancelled {
      t := Then(s, [CallWait(w), Bind(w), Check(w)], t, Test(w), [CallWait(w), Bind(w), Check(w), Test(w)]);
      assert s.token.isSet ==> WaitSteps(s.token, w) == [CallWait(w), Bind(w), Check(w), Test(w)];
      if !s.token.isSet {
        t := Then(s, [CallWait(w), Bind(w), Check(w), Test(w)], t, Enqueue(w), WaitSteps(s.token, w));
        assert t.token == Blocked(Bound(s.token), w);
      }
    }
  }

  lemma WaitChecked(s: System, w: nat) returns (t: System)
    requires w !in s.waits && s.onLoop == None
    ensures Leads(s, [CallWait(w), Bind(w), Check(w)], t) && t.cancels == s.cancels && t.token == Bound(s.token)
    ensures if s.token.cancelled then At(t, w, WaitDone) else At(t, w, Testing) && t.onLoop == Some(w)
  {
    hide Leads;
    LeadsNowhere(s);
    t := Then(s, [], s, CallWait(w), [CallWait(w)]);
    t := Then(s, [CallWait(w)], t, Bind(w), [CallWait(w), Bind(w)]);
    t := Then(s, [CallWait(w), Bind(w)], t, Check(w), [CallWait(w), Bind(w), Check(w)]);
  }

  /* ---------- the invariant ---------- */

  ghost predicate Cancels(s: System) {
    && (!s.token.cancelled ==> !s.token.isSet && !s.token.scheduled && !InFlight(s))
    && (s.token.cancelled ==> s.token.isSet || s.token.scheduled || InFlight(s))
    && (InFlight(s) ==> !s.token.isSet && !s.token.scheduled)
    && !(s.token.isSet && s.token.scheduled)
    && (forall c, d :: Flying(s, c) && Flying(s, d) ==> c == d)
  }

  ghost predicate Waits(s: System) {
    && (forall w :: w in s.waits && Busy(s.waits[w]) ==> s.onLoop == Some(w))
    && (s.onLoop.Some? ==> s.onLoop.value in s.waits && Busy(s.waits[s.onLoop.value]))
    && (forall w :: w in s.token.waiting ==> At(s, w, Suspended) && w !in s.token.woken)
    && (forall w :: w in s.token.woken ==> At(s, w, Suspended) || At(s, w, WaitDone))
    && (forall w :: At(s, w, Suspended) ==> w in s.token.waiting || w in s.token.woken)
    && (forall w :: Committed(s, w) || At(s, w, Checking) ==> s.token.bound)
  }

  /**
   * A cancel that saw no loop has nobody to miss, one about to set the event directly has nobody on the way
   * into the event's queue, and nobody waits on an event that is set.
   */
  ghost predicate NobodyMissed(s: System) {
    && (forall c: nat, w: nat :: CancelAt(s, c, SawLoop(false)) ==> !Committed(s, w))
    && (forall c: nat, w: nat :: CancelAt(s, c, Setting) ==> !Entering(s, w))
    && (s.token.isSet ==> s.token.waiting == {} && forall w :: !At(s, w, Enqueueing))
  }

  ghost predicate Inv(s: System) { Cancels(s) && Waits(s) && NobodyMissed(s) }

  lemma InitialInv(onRunningLoop: bool)
    ensures Inv(Initial(onRunningLoop))
  {
  }

  /** Which calls are in flight after a step. */
  predicate FliesAfter(s: System, step: Step, c: nat) {
    if step == CallCancel(c) then !s.token.cancelled
    else Flying(s, c) && step != SetDirectly(c) && step != Schedule(c, true)
  }

  lemma FlyingAfter(s: System, step: Step)
    requires Enabled(s, step)
    ensures forall c :: Flying(Apply(s, step), c) <==> FliesAfter(s, step, c)
  {
  }

  lemma CancelsKept(s: System, step: Step)
    requires Cancels(s) && Enabled(s, step)
    ensures Cancels(Apply(s, step))
  {
    FlyingAfter(s, step);
    var t := Apply(s, step);
    if step.CallCancel? {
      assert FliesAfter(s, step, step.thread) <==> !s.token.cancelled;
    } else if step.SetDirectly? || step.Schedule? || step.ReadLoop? || step.AskRunning? {
      assert Flying(s, step.thread);
    }
    if InFlight(s) && !step.SetDirectly? && !(step.Schedule? && step.accepted) {
      var c :| Flying(s, c);
      assert FliesAfter(s, step, c);
    }
  }

  lemma WaitsKept(s: System, step: Step)
    requires Waits(s) && Enabled(s, step)
    ensures Waits(Apply(s, step))
  {
    BusyKept(s, step);
    QueueKept(s, step);
    BoundKept(s, step);
  }

  lemma BusyKept(s: System, step: Step)
    requires Waits(s) && Enabled(s, step)
    ensures var t := Apply(s, step);
            && (forall w :: w in t.waits && Busy(t.waits[w]) ==> t.onLoop == Some(w))
            && (t.onLoop.Some? ==> t.onLoop.value in t.waits && Busy(t.waits[t.onLoop.value]))
  {
    var t := Apply(s, step);
    forall w | w in t.waits && w in s.waits && t.waits[w] == s.waits[w] && Busy(t.waits[w]) ensures t.onLoop == Some(w) {
      assert s.onLoop == Some(w);
    }
  }

  lemma QueueKept(s: System, step: Step)
    requires Waits(s) && Enabled(s, step)
    ensures var t := Apply(s, step);
            && (forall w :: w in t.token.waiting ==> At(t, w, Suspended) && w !in t.token.woken)
            && (forall w :: w in t.token.woken ==> At(t, w, Suspended) || At(t, w, WaitDone))
            && (forall w :: At(t, w, Suspended) ==> w in t.token.waiting || w in t.token.woken)
  {
  }

  lemma BoundKept(s: System, step: Step)
    requires Waits(s) && Enabled(s, step)
    ensures var t := Apply(s, step); forall w :: Committed(t, w) || At(t, w, Checking) ==> t.token.bound
  {
    var t := Apply(s, step);
    forall w | Committed(t, w) || At(t, w, Checking) ensures t.token.bound {
      assert Committed(s, w) || At(s, w, Checking) || step == Bind(w);
    }
  }

  lemma FlyingMeansCancelled(s: System, c: nat)
    requires Cancels(s) && Flying(s, c)
    ensures s.token.cancelled && !s.token.isSet && !s.token.scheduled
  {
  }

  /** Nobody is on his way into the queue while nobody is on the loop, and nobody sets out once cancelled. */
  lemma EnteringAfter(s: System, step: Step, w: nat)
    requires Waits(s) && Enabled(s, step) && s.token.cancelled && Entering(Apply(s, step), w)
    ensures Entering(s, w) && s.onLoop == Some(w)
  {
  }

  lemma CommittedAfter(s: System, step: Step, w: nat)
    requires Waits(s) && Enabled(s, step) && s.token.cancelled && Committed(Apply(s, step), w)
    ensures Committed(s, w)
  {
  }

  lemma NobodyMissedKept(s: System, step: Step)
    requires Inv(s) && Enabled(s, step)
    ensures NobodyMissed(Apply(s, step))
  {
    var t := Apply(s, step);
    forall c: nat, w: nat | CancelAt(t, c, SawLoop(false)) ensures !Committed(t, w) {
      assert Flying(s, c);
      FlyingMeansCancelled(s, c);
      assert CancelAt(s, c, SawLoop(false)) || !s.token.bound;
      if Committed(t, w) {
        CommittedAfter(s, step, w);
        assert false;
      }
    }
    forall c: nat, w: nat | CancelAt(t, c, Setting) ensures !Entering(t, w) {
      assert Flying(s, c);
      FlyingMeansCancelled(s, c);
      assert CancelAt(s, c, Setting) || s.onLoop == None;
      if Entering(t, w) {
        EnteringAfter(s, step, w);
        assert false;
      }
    }
    if t.token.isSet {
      SetReachesAll(s, step);
    }
  }

  lemma NobodyEnters(s: System, step: Step, w: nat)
    requires NobodyMissed(s) && Enabled(s, step) && step.SetDirectly?
    ensures !Entering(s, w)
  {
    assert CancelAt(s, step.thread, Setting) || !Committed(s, w);
  }

  lemma SetReachesAll(s: System, step: Step)
    requires Inv(s) && Enabled(s, step) && Apply(s, step).token.isSet
    ensures Apply(s, step).token.waiting == {} && forall w :: !At(Apply(s, step), w, Enqueueing)
  {
    var t := Apply(s, step);
    if step.SetDirectly? {
      assert Flying(s, step.thread);
      FlyingMeansCancelled(s, step.thread);
    }
    forall w: nat | At(t, w, Enqueueing) ensures false {
      EnteringAfter(s, step, w);
      if step.SetDirectly? {
        NobodyEnters(s, step, w);
      }
    }
  }

  lemma {:induction false} RunsAreSafe(states: seq<System>, steps: seq<Step>, k: nat)
    requires IsRun(states, steps) && k <= |steps|
    ensures Inv(states[k])
  {
    hide Cancels, Waits, NobodyMissed, Enabled, Apply;
    if k == 0 {
      InitialInv(true);
      InitialInv(false);
    } else {
      RunsAreSafe(states, steps, k - 1);
      CancelsKept(states[k - 1], steps[k - 1]);
      WaitsKept(states[k - 1], steps[k - 1]);
      NobodyMissedKept(states[k - 1], steps[k - 1]);
    }
  }

  /* ---------- no wakeup is lost ---------- */

  /** The token is cancelled and somebody is blocked in `wait` with no `Event.set` pending or done. */
  predicate Stranded(s: System) {
    s.token.waiting != {} && s.token.cancelled && !s.token.isSet && !s.token.scheduled
  }

  /**
   * In every reachable state a blocked waiter of a cancelled token has its wakeup pending, except
   * exactly while the `cancel()` that won is between its locked section and its dispatch.
   */
  lemma StrandedOnlyInFlight(states: seq<System>, steps: seq<Step>, k: nat)
    requires IsRun(states, steps) && k <= |steps|
    ensures Stranded(states[k]) <==> states[k].token.waiting != {} && InFlight(states[k])
  {
    RunsAreSafe(states, steps, k);
  }

  /** That window exists. */
  lemma WindowIsReachable()
    ensures exists states, steps :: IsRun(states, steps) && Stranded(states[|steps|])
  {
    var s := Initial(false);
    var blocked := WaitAlone(s, 1);
    var steps := WaitSteps(s.token, 1) + [CallCancel(2)];
    assert |steps| == 6;
    var stranded := Then(s, WaitSteps(s.token, 1), blocked, CallCancel(2), steps);
    var states :| Follows(states, steps) && |states| == |steps| + 1 && states[0] == s
                    && states[|steps|] == stranded;
    assert IsRun(states, steps);
  }

  /** How many more steps a `cancel()` has, at most. */
  function StepsLeft(s: System, c: nat): nat {
    if c !in s.cancels then 5
    else match s.cancels[c]
         case Marked => 4
         case SawLoop(_) => 3
         case Scheduling => 2
         case Setting => 1
         case CancelDone => 0
  }

  /** The next step of a call in flight; the loop gives one of its two answers. */
  function NextStep(s: System, c: nat, answer: bool): Step
    requires Flying(s, c)
  {
    match s.cancels[c]
    case Marked => ReadLoop(c)
    case SawLoop(loop) => if loop then AskRunning(c, answer) else SetDirectly(c)
    case Scheduling => Schedule(c, answer)
    case Setting => SetDirectly(c)
  }

  /** The winner can always go on, its own steps bring it nearer its end, and no other step puts it back. */
  lemma WinnerGoesOn(s: System, c: nat, step: Step)
    requires Flying(s, c) && Enabled(s, step)
    ensures Enabled(s, NextStep(s, c, true))
    ensures var own := step == NextStep(s, c, true) || step == NextStep(s, c, false);
            if own then StepsLeft(Apply(s, step), c) < StepsLeft(s, c)
            else StepsLeft(Apply(s, step), c) == StepsLeft(s, c)
  {
  }

  lemma First(s: System, step: Step, steps: seq<Step>, t: System)
    requires Enabled(s, step) && Leads(Apply(s, step), steps, t)
    ensures Leads(s, [step] + steps, t)
  {
    hide Enabled, Apply;
    var states :| Follows(states, steps) && states[0] == Apply(s, step) && states[|steps|] == t;
    var more, longer := [s] + states, [step] + steps;
    forall i | 0 <= i < |longer| ensures Enabled(more[i], longer[i]) && more[i + 1] == Apply(more[i], longer[i]) {
      if i > 0 {
        assert more[i] == states[i - 1] && longer[i] == steps[i - 1];
      }
    }
    assert Follows(more, longer) && more[|longer|] == t;
  }

  /** From any state, without anybody else's help, the winner gets done in at most four steps. */
  lemma {:induction false} WinnerCanFinish(s: System, c: nat) returns (steps: seq<Step>, t: System)
    requires Flying(s, c)
    ensures Leads(s, steps, t) && !Flying(t, c) && |steps| <= StepsLeft(s, c)
    ensures t.waits == s.waits && t.onLoop == s.onLoop
    decreases StepsLeft(s, c)
  {
    hide Leads;
    var next := NextStep(s, c, true);
    WinnerGoesOn(s, c, next);
    if Flying(Apply(s, next), c) {
      steps, t := WinnerCanFinish(Apply(s, next), c);
    } else {
      steps, t := [], Apply(s, next);
      LeadsNowhere(t);
    }
    First(s, next, steps, t);
    steps := [next] + steps;
  }

  /** From its test-and-set on, the winner is the only call that can be in flight. */
  lemma {:induction false} WinnerIsAlone(states: seq<System>, steps: seq<Step>, i: nat, c: nat, k: nat)
    requires IsRun(states, steps) && i <= k <= |steps| && Flying(states[i], c)
    ensures states[k].token.cancelled && (forall d :: Flying(states[k], d) ==> d == c)
  {
    hide Waits, NobodyMissed, Enabled, Apply, Flying;
    if i == k {
      RunsAreSafe(states, steps, i);
    } else {
      WinnerIsAlone(states, steps, i, c, k - 1);
      FlyingAfter(states[k - 1], steps[k - 1]);
      StaysCancelled(states[k - 1], steps[k - 1]);
    }
  }

  lemma StaysCancelled(s: System, step: Step)
    requires Enabled(s, step) && s.token.cancelled
    ensures Apply(s, step).token.cancelled
  {
  }

  lemma {:induction false} WaitsOrWoken(states: seq<System>, steps: seq<Step>, i: nat, w: nat, k: nat)
    requires IsRun(states, steps) && i <= k <= |steps| && w in states[i].token.waiting
    ensures w in states[k].token.waiting || w in states[k].token.woken
  {
    hide Enabled, Apply;
    if i < k {
      WaitsOrWoken(states, steps, i, w, k - 1);
      StillWaits(states[k - 1], steps[k - 1], w);
    }
  }

  lemma StillWaits(s: System, step: Step, w: nat)
    requires Enabled(s, step) && (w in s.token.waiting || w in s.token.woken)
    ensures w in Apply(s, step).token.waiting || w in Apply(s, step).token.woken
  {
  }

  /**
   * And it closes, in every run: once the `cancel()` that won is done and no `Event.set` is outstanding, nobody
   * waits, and everybody who waited while it was in flight has been woken. The outstanding one can run
   * whenever the loop is free, and `WinnerCanFinish` says that the winner can get done.
   */
  lemma WindowCloses(states: seq<System>, steps: seq<Step>, i: nat, c: nat, k: nat)
    requires IsRun(states, steps) && i <= k <= |steps| && Flying(states[i], c) && !Flying(states[k], c)
    ensures var s := states[k];
            if s.token.scheduled then s.onLoop == None ==> Enabled(s, RunScheduled) && Apply(s, RunScheduled).token.waiting == {}
            else s.token.waiting == {} && states[i].token.waiting <= s.token.woken
  {
    RunsAreSafe(states, steps, k);
    WinnerIsAlone(states, steps, i, c, k);
    forall w | w in states[i].token.waiting && !states[k].token.scheduled ensures w in states[k].token.woken {
      WaitsOrWoken(states, steps, i, w, k);
    }
  }

  /** How many more steps a `wait()` has, at most. */
  function WaitLeft(s: System, w: nat): nat {
    if w !in s.waits then 6
    else match s.waits[w]
         case Binding => 5
         case Checking => 4
         case Testing => 3
         case Enqueueing => 2
         case Suspended => 1
         case WaitDone => 0
  }

  predicate OfWaiter(step: Step, w: nat) {
    step in {CallWait(w), Bind(w), Check(w), Test(w), Enqueue(w), Wake(w)}
  }

  /** The next step of a waiter that is on the loop or has been woken. */
  function NextOfWaiter(s: System, w: nat): Step
    requires w in s.waits && s.waits[w] != WaitDone
  {
    match s.waits[w]
    case Binding => Bind(w)
    case Checking => Check(w)
    case Testing => Test(w)
    case Enqueueing => Enqueue(w)
    case Suspended => Wake(w)
  }

  /**
   * A waiter can go on unless it is suspended and not woken, or woken and the loop is busy; each step it takes
   * brings it nearer its return, a woken one returns with it, and no other step moves it.
   */
  lemma WaiterGoesOn(s: System, w: nat, step: Step)
    requires Inv(s) && w in s.waits && s.waits[w] != WaitDone && Enabled(s, step)
    ensures Enabled(s, NextOfWaiter(s, w)) <==> (s.waits[w] == Suspended ==> w in s.token.woken && s.onLoop == None)
    ensures if OfWaiter(step, w) then WaitLeft(Apply(s, step), w) < WaitLeft(s, w)
            else WaitLeft(Apply(s, step), w) == WaitLeft(s, w)
    ensures step == Wake(w) ==> At(Apply(s, step), w, WaitDone)
  {
    hide Cancels, NobodyMissed;
  }

  lemma {:induction false} DoneStaysDone(states: seq<System>, steps: seq<Step>, i: nat, k: nat, w: nat)
    requires IsRun(states, steps) && i <= k <= |steps| && At(states[i], w, WaitDone)
    ensures At(states[k], w, WaitDone)
  {
    hide Enabled, Apply;
    if i < k {
      DoneStaysDone(states, steps, i, k - 1, w);
      DoneStays(states[k - 1], steps[k - 1], w);
    }
  }

  lemma DoneStays(s: System, step: Step, w: nat)
    requires Enabled(s, step) && At(s, w, WaitDone)
    ensures At(Apply(s, step), w, WaitDone)
  {
  }

  /**
   * So cancelling wakes everybody for good: in any run, once the winner is done and the loop has nothing left to
   * run, every call of `wait` that was ever made has returned.
   */
  lemma EverybodyReturns(states: seq<System>, steps: seq<Step>, i: nat, c: nat, k: nat, w: nat)
    requires IsRun(states, steps) && i <= k <= |steps| && Flying(states[i], c) && !Flying(states[k], c)
    requires states[k].onLoop == None && !Enabled(states[k], RunScheduled) && !Enabled(states[k], Wake(w))
    requires w in states[k].waits
    ensures At(states[k], w, WaitDone)
  {
    RunsAreSafe(states, steps, k);
    WindowCloses(states, steps, i, c, k);
    var s := states[k];
    assert Busy(s.waits[w]) ==> s.onLoop == Some(w);
    assert At(s, w, Suspended) ==> w in s.token.waiting || w in s.token.woken;
  }

  /** A cancel that saw no loop never has to wake anybody: whoever comes later sees the flag. */
  lemma UnboundCancelMissesNobody(states: seq<System>, steps: seq<Step>, k: nat, c: nat)
    requires IsRun(states, steps) && k <= |steps| && CancelAt(states[k], c, SawLoop(false))
    ensures states[k].token.cancelled && states[k].token.waiting == {}
    ensures forall w :: !At(states[k], w, Testing) && !At(states[k], w, Enqueueing)
  {
    RunsAreSafe(states, steps, k);
    FlyingMeansCancelled(states[k], c);
    var s := states[k];
    forall w ensures !Committed(s, w) {
    }
    forall w ensures w !in s.token.waiting && !At(s, w, Testing) && !At(s, w, Enqueueing) {
      assert !Committed(s, w);
    }
  }
}
