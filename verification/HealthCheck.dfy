/**
 * src/easycat/_health_check.py: failure streaks and escalation, and the life of the probe loop under
 * `start`, `stop` and `stop` called from the checker's own callbacks.
 */
module HealthCheck {
  import opened Prelude

  /* ---------- streaks ---------- */

  datatype Notice = Escalated | Recovered

  /** Failures since the last healthy check; outcomes are `true` when healthy. */
  function Streak(outcomes: seq<bool>): nat {
    if outcomes == [] || outcomes[|outcomes| - 1] then 0 else Streak(outcomes[..|outcomes| - 1]) + 1
  }

  /** Where the maximal runs of failures start that are at least `threshold` long. */
  function LongRuns(outcomes: seq<bool>, threshold: nat): set<nat> {
    set i: nat | i + threshold <= |outcomes| && StartsLongRun(outcomes, threshold, i)
  }

  predicate StartsLongRun(outcomes: seq<bool>, threshold: nat, i: nat)
    requires i + threshold <= |outcomes|
  {
    (i == 0 || outcomes[i - 1]) && forall j :: i <= j < i + threshold ==> !outcomes[j]
  }

  /** Escalations and recoveries, strictly in turn. */
  function InTurn(n: nat): (s: seq<Notice>)
    ensures |s| == n
  {
    if n == 0 then [] else InTurn(n - 1) + [if n % 2 == 1 then Escalated else Recovered]
  }

  /** Escalation first, and then each the other of the one before. */
  lemma {:induction false} InTurnAt(n: nat, k: nat)
    requires k < n
    ensures InTurn(n)[k] == if k % 2 == 0 then Escalated else Recovered
  {
    if k < n - 1 {
      InTurnAt(n - 1, k);
    }
  }

  function Escalations(notices: seq<Notice>): nat {
    if notices == [] then 0
    else Escalations(notices[..|notices| - 1]) + if notices[|notices| - 1] == Escalated then 1 else 0
  }

  lemma {:induction false} StreakIsTail(outcomes: seq<bool>)
    ensures var k := Streak(outcomes);
            && k <= |outcomes| && (forall j :: |outcomes| - k <= j < |outcomes| ==> !outcomes[j])
            && (k < |outcomes| ==> outcomes[|outcomes| - k - 1])
  {
    if outcomes != [] && !outcomes[|outcomes| - 1] {
      StreakIsTail(outcomes[..|outcomes| - 1]);
    }
  }

  /** One more outcome starts no long run, except that the streak reaching the threshold completes one. */
  lemma LongRunsStep(outcomes: seq<bool>, healthy: bool, threshold: nat)
    requires threshold > 0
    ensures LongRuns(outcomes + [healthy], threshold)
         == LongRuns(outcomes, threshold)
              + if !healthy && Streak(outcomes) + 1 == threshold then {|outcomes| + 1 - threshold} else {}
  {
    hide StartsLongRun, Streak, LongRuns;
    var reached := !healthy && Streak(outcomes) + 1 == threshold;
    var completed := if reached then {|outcomes| + 1 - threshold} else {};
    StreakIsTail(outcomes);
    forall i: nat ensures i in LongRuns(outcomes + [healthy], threshold) <==> i in LongRuns(outcomes, threshold) + completed {
      LongRunAfter(outcomes, healthy, threshold, i);
    }
  }

  lemma LongRunAfter(outcomes: seq<bool>, healthy: bool, threshold: nat, i: nat)
    requires threshold > 0
    ensures i in LongRuns(outcomes + [healthy], threshold)
       <==> i in LongRuns(outcomes, threshold)
            || (!healthy && Streak(outcomes) + 1 == threshold && i == |outcomes| + 1 - threshold)
  {
    hide StartsLongRun, Streak;
    StreakIsTail(outcomes);
    if i + threshold <= |outcomes| {
      EarlierRun(outcomes, healthy, threshold, i);
    } else if i + threshold == |outcomes| + 1 {
      LastRun(outcomes, healthy, threshold);
    }
  }

  lemma EarlierRun(outcomes: seq<bool>, healthy: bool, threshold: nat, i: nat)
    requires i + threshold <= |outcomes|
    ensures StartsLongRun(outcomes + [healthy], threshold, i) <==> StartsLongRun(outcomes, threshold, i)
  {
    var more := outcomes + [healthy];
    forall j | 0 <= j < |outcomes| ensures more[j] == outcomes[j] {
    }
    if StartsLongRun(more, threshold, i) {
      forall j | i <= j < i + threshold ensures !outcomes[j] {
        assert !more[j];
      }
    }
  }

  lemma LastRun(outcomes: seq<bool>, healthy: bool, threshold: nat)
    requires 0 < threshold <= |outcomes| + 1
    ensures StartsLongRun(outcomes + [healthy], threshold, |outcomes| + 1 - threshold)
       <==> !healthy && Streak(outcomes) + 1 == threshold
  {
    var more, k, i := outcomes + [healthy], Streak(outcomes), |outcomes| + 1 - threshold;
    StreakIsTail(outcomes);
    assert more[|outcomes|] == healthy;
    assert k < |outcomes| ==> more[|outcomes| - k - 1] == outcomes[|outcomes| - k - 1];
    assert i > 0 ==> more[i - 1] == outcomes[i - 1];
  }

  lemma RunsEndInside(outcomes: seq<bool>, threshold: nat)
    ensures forall i :: i in LongRuns(outcomes, threshold) ==> i + threshold <= |outcomes|
  {
  }

  class HealthStreak {
    const threshold: nat
    var failureStreak: nat
    var unhealthy: bool
    ghost var outcomes: seq<bool>
    ghost var notices: seq<Notice>

    /** Unhealthy exactly when the streak has reached the threshold; one escalation per long run. */
    ghost predicate Valid()
      reads this
    {
      && threshold >= 1
      && failureStreak == Streak(outcomes)
      && unhealthy == (failureStreak >= threshold)
      && notices == InTurn(|notices|) && unhealthy == (|notices| % 2 == 1)
      && Escalations(notices) == |LongRuns(outcomes, threshold)|
    }

    constructor (threshold: nat)
      requires threshold >= 1
      ensures Valid() && outcomes == [] && notices == [] && this.threshold == threshold
    {
      this.threshold, failureStreak, unhealthy, outcomes, notices := threshold, 0, false, [], [];
    }

    method RecordSuccess() returns (notice: Option<Notice>)
      requires Valid()
      modifies this
      ensures Valid() && outcomes == old(outcomes) + [true]
      ensures notices == if notice.Some? then old(notices) + [notice.value] else old(notices)
    {
      LongRunsStep(outcomes, true, threshold);
      outcomes := outcomes + [true];
      failureStreak := 0;
      notice := None;
      if unhealthy {
        unhealthy := false;
        notice := Some(Recovered);
        notices := notices + [Recovered];
      }
    }

    method RecordFailure() returns (notice: Option<Notice>)
      requires Valid()
      modifies this
      ensures Valid() && outcomes == old(outcomes) + [false]
      ensures notices == if notice.Some? then old(notices) + [notice.value] else old(notices)
    {
      hide LongRuns;
      LongRunsStep(outcomes, false, threshold);
      assert (outcomes + [false])[..|outcomes|] == outcomes;
      assert |outcomes| + 1 - threshold !in LongRuns(outcomes, threshold) by { RunsEndInside(outcomes, threshold); }
      outcomes := outcomes + [false];
      failureStreak := failureStreak + 1;
      if unhealthy || failureStreak < threshold { return None; }
      unhealthy := true;
      notice := Some(Escalated);
      notices := notices + [Escalated];
    }
  }

  /** For any outcomes: one escalation per maximal run that reaches the threshold, recoveries in between. */
  method CheckAll(threshold: nat, outcomes: seq<bool>) returns (notices: seq<Notice>, unhealthy: bool)
    requires threshold >= 1
    ensures notices == InTurn(|notices|) && Escalations(notices) == |LongRuns(outcomes, threshold)|
    ensures unhealthy == (Streak(outcomes) >= threshold)
    ensures |notices| == 2 * |LongRuns(outcomes, threshold)| - if unhealthy then 1 else 0
  {
    hide InTurn, LongRuns, Streak, Escalations;
    var streak := new HealthStreak(threshold);
    notices := [];
    for i := 0 to |outcomes|
      invariant fresh(streak) && streak.Valid() && streak.threshold == threshold
      invariant streak.outcomes == outcomes[..i] && streak.notices == notices
    {
      var notice: Option<Notice>;
      if outcomes[i] {
        notice := streak.RecordSuccess();
      } else {
        notice := streak.RecordFailure();
      }
      if notice.Some? { notices := notices + [notice.value]; }
    }
    assert outcomes[..|outcomes|] == outcomes;
    unhealthy := streak.unhealthy;
    EscalationsInTurn(|notices|);
  }

  lemma {:induction false} EscalationsInTurn(n: nat)
    ensures Escalations(InTurn(n)) == (n + 1) / 2
  {
    if n > 0 {
      EscalationsInTurn(n - 1);
      assert InTurn(n)[..n - 1] == InTurn(n - 1);
    }
  }

  /* ---------- start and stop ---------- */

  /** `_running` and `_task`, and the loops that are not done; a loop may not have had its first step. */
  datatype Loops = Loops(running: bool, task: Option<nat>, live: map<nat, bool>) {
    predicate TaskLive() { task.Some? && task.value in live }
  }

  function Started(l: Loops, newTask: nat): Loops {
    if l.running then l
    else if l.TaskLive() then l.(running := true)
    else Loops(true, Some(newTask), l.live[newTask := false])
  }

  /** Whether `stop` returns without awaiting, or awaits `cancel_and_drain`, joining a task if there is one. */
  datatype Stopped = ReturnsAtOnce | Awaits(task: Option<nat>)

  /** `stop` up to its first await. */
  function Stopping(l: Loops, reentrant: bool, current: Option<nat>): (Loops, Stopped) {
    var m := l.(running := false);
    if reentrant then (m, ReturnsAtOnce)
    else if !l.TaskLive() then (m.(task := None), Awaits(None))
    else if current == l.task then (m, ReturnsAtOnce)
    else (m, Awaits(l.task))
  }

  function Drained(l: Loops, task: nat): Loops {
    if l.task == Some(task) then l.(task := None) else l
  }

  /** A loop ends; its `finally` runs only if the coroutine had begun. */
  function LoopEnded(l: Loops, task: nat): Loops
    requires task in l.live
  {
    l.(live := l.live - {task}, running := if l.live[task] && l.task == Some(task) then false else l.running)
  }

  class PeriodicHealthChecker {
    var running: bool
    var task: Option<nat>
    // The event loop's view of the probe loops that are not done.
    var live: map<nat, bool>

    ghost function View(): Loops
      reads this
    {
      Loops(running, task, live)
    }

    constructor ()
      ensures View() == Loops(false, None, map[])
    {
      running, task, live := false, None, map[];
    }

    method Start(newTask: nat)
      modifies this
      ensures View() == Started(old(View()), newTask)
    {
      if running { return; }
      if task.Some? && task.value in live {
        running := true;
        return;
      }
      live := live[newTask := false];
      task := Some(newTask);
      running := true;
    }

    method Stop(reentrant: bool, current: Option<nat>) returns (stopped: Stopped)
      modifies `running, `task
      ensures (View(), stopped) == Stopping(old(View()), reentrant, current)
    {
      running := false;
      if reentrant { return ReturnsAtOnce; }
      if task == None || task.value !in live {
        task := None;
        return Awaits(None);
      }
      if current == task { return ReturnsAtOnce; }
      return Awaits(task);
    }

    method FinishStop(drained: nat)
      modifies `task
      ensures View() == Drained(old(View()), drained)
    {
      if task == Some(drained) { task := None; }
    }
  }

  /** Callers of `stop` that await, with the task they join, and the loops whose cancellation was requested. */
  datatype System = System(loops: Loops, draining: map<nat, Option<nat>>, cancelled: set<nat>)

  datatype Step =
    | Start(newTask: nat)
    | Stop(caller: nat, reentrant: bool, current: Option<nat>)
    | StopDrained(caller: nat)
    | LoopBegins(task: nat)
    | LoopEnds(task: nat)

  predicate Enabled(s: System, step: Step) {
    match step
    case Start(newTask) => newTask !in s.loops.live && newTask !in s.cancelled && Some(newTask) !in s.draining.Values
    case Stop(caller, _, _) => caller !in s.draining
    case StopDrained(caller) => caller in s.draining && (s.draining[caller].Some? ==> s.draining[caller].value !in s.loops.live)
    case LoopBegins(task) => task in s.loops.live && !s.loops.live[task] && task !in s.cancelled
    case LoopEnds(task) => task in s.loops.live && (s.loops.live[task] || task in s.cancelled)
  }

  function Apply(s: System, step: Step): System
    requires Enabled(s, step)
  {
    match step
    case Start(newTask) => s.(loops := Started(s.loops, newTask))
    case Stop(caller, reentrant, current) =>
      var (l, stopped) := Stopping(s.loops, reentrant, current);
      if stopped.ReturnsAtOnce? then s.(loops := l)
      else System(l, s.draining[caller := stopped.task],
                  if stopped.task.Some? then s.cancelled + {stopped.task.value} else s.cancelled)
    case StopDrained(caller) =>
      s.(loops := if s.draining[caller].Some? then Drained(s.loops, s.draining[caller].value) else s.loops,
         draining := s.draining - {caller})
    case LoopBegins(task) => s.(loops := s.loops.(live := s.loops.live[task := true]))
    case LoopEnds(task) => s.(loops := LoopEnded(s.loops, task))
  }

  const IDLE := System(Loops(false, None, map[]), map[], {})

  ghost predicate IsRun(states: seq<System>, steps: seq<Step>) {
    && |states| == |steps| + 1 && states[0] == IDLE
    && forall i :: 0 <= i < |steps| ==> Enabled(states[i], steps[i]) && states[i + 1] == Apply(states[i], steps[i])
  }

  /** Whatever is live is the checker's own task. */
  ghost predicate OneLoop(s: System) {
    forall t :: t in s.loops.live ==> s.loops.task == Some(t)
  }

  /** At most one probe loop is live in any run, re-entrant stops and restarts included. */
  lemma {:induction false} AtMostOneLoop(states: seq<System>, steps: seq<Step>, k: nat)
    requires IsRun(states, steps) && k <= |steps|
    ensures OneLoop(states[k]) && |states[k].loops.live| <= 1
  {
    hide Enabled, Apply;
    if k > 0 {
      AtMostOneLoop(states, steps, k - 1);
      OneLoopKept(states[k - 1], steps[k - 1]);
    }
    OneKey(states[k].loops);
  }

  lemma OneLoopKept(s: System, step: Step)
    requires OneLoop(s) && Enabled(s, step)
    ensures OneLoop(Apply(s, step))
  {
  }

  lemma OneKey(l: Loops)
    requires forall t :: t in l.live ==> l.task == Some(t)
    ensures |l.live| <= 1
  {
    if l.live != map[] {
      var t :| t in l.live;
      assert l.live.Keys == {t};
      assert |l.live| == |l.live.Keys|;
    }
  }

  /* ---------- what the calls do ---------- */

  /** After `start` the checker is running and has a loop: the one it had, or else a new one. */
  lemma StartRuns(s: System, newTask: nat)
    requires OneLoop(s) && RunningHasLoop(s) && Enabled(s, Start(newTask))
    ensures var t := Apply(s, Start(newTask));
            && t.loops.running && t.loops.TaskLive() && t.draining == s.draining && t.cancelled == s.cancelled
            && (if s.loops.TaskLive() then t.loops.live == s.loops.live && t.loops.task == s.loops.task
                else t.loops.live == map[newTask := false] && t.loops.task == Some(newTask))
  {
    if !s.loops.TaskLive() {
      assert s.loops.live == map[];
    }
  }

  /** A loop that has not begun can begin unless it has been cancelled; once begun it can end, and stops the checker. */
  lemma LoopGoesOn(s: System)
    requires OneLoop(s) && s.loops.TaskLive()
    ensures var task := s.loops.task.value;
            if s.loops.live[task] then
              Enabled(s, LoopEnds(task)) && Apply(s, LoopEnds(task)).loops == Loops(false, s.loops.task, map[])
            else if task in s.cancelled then Doomed(s) && Enabled(s, LoopEnds(task))
            else Enabled(s, LoopBegins(task))
                 && Apply(s, LoopBegins(task)).loops == s.loops.(live := map[task := true])
  {
    var task := s.loops.task.value;
    assert s.loops.live.Keys == {task};
    assert s.loops.live - {task} == map[];
    assert s.loops.live[task := true] == map[task := true];
  }

  /** From its own callback, or from the loop itself, `stop` waits for nobody and leaves the loop to end by itself. */
  lemma StopFromInside(s: System, caller: nat, reentrant: bool, current: Option<nat>)
    requires Enabled(s, Stop(caller, reentrant, current))
    requires reentrant || (s.loops.TaskLive() && current == s.loops.task)
    ensures Apply(s, Stop(caller, reentrant, current)) == s.(loops := s.loops.(running := false))
  {
  }

  /** Whoever is joined by a `stop` has been cancelled. */
  ghost predicate DrainedAreCancelled(s: System) {
    forall c :: c in s.draining && s.draining[c].Some? ==> s.draining[c].value in s.cancelled
  }

  lemma {:induction false} JoinedIsCancelled(states: seq<System>, steps: seq<Step>, k: nat)
    requires IsRun(states, steps) && k <= |steps|
    ensures DrainedAreCancelled(states[k])
  {
    if k > 0 {
      JoinedIsCancelled(states, steps, k - 1);
    }
  }

  /** So a `stop` that awaits never hangs: in any run, the loop it joins is gone or can end. */
  lemma StopCanReturn(states: seq<System>, steps: seq<Step>, k: nat, caller: nat)
    requires IsRun(states, steps) && k <= |steps| && caller in states[k].draining
    ensures Enabled(states[k], StopDrained(caller))
         || (states[k].draining[caller].Some? && Enabled(states[k], LoopEnds(states[k].draining[caller].value)))
    ensures Enabled(states[k], StopDrained(caller)) ==> caller !in Apply(states[k], StopDrained(caller)).draining
  {
    JoinedIsCancelled(states, steps, k);
  }

  /* ---------- after a stop ---------- */

  /** Not running, and at most the loop `d` is still on its way out. */
  ghost predicate WindingDown(s: System, d: Option<nat>) {
    && !s.loops.running && (s.loops.task == d || s.loops.task == None)
    && (forall t :: t in s.loops.live ==> Some(t) == d)
  }

  lemma StaysDown(s: System, step: Step, d: Option<nat>)
    requires WindingDown(s, d) && Enabled(s, step) && !step.Start?
    ensures WindingDown(Apply(s, step), d)
  {
  }

  /** No `start` between two moments of a run. */
  predicate NoStart(steps: seq<Step>, i: nat, j: nat)
    requires i <= j <= |steps|
  {
    forall m :: i <= m < j ==> !steps[m].Start?
  }

  lemma {:induction false} StaysDownUntil(states: seq<System>, steps: seq<Step>, i: nat, j: nat, d: Option<nat>)
    requires IsRun(states, steps) && i <= j <= |steps| && NoStart(steps, i, j) && WindingDown(states[i], d)
    ensures WindingDown(states[j], d)
  {
    hide WindingDown, Enabled, Apply;
    if i < j {
      StaysDownUntil(states, steps, i, j - 1, d);
      StaysDown(states[j - 1], steps[j - 1], d);
    }
  }

  /**
   * `stop` from outside, whatever other callers and the loop do meanwhile: unless somebody starts the
   * checker again it is not running, and once this `stop` has returned no loop and no task is left.
   */
  lemma StopEndsTheLoop(states: seq<System>, steps: seq<Step>, i: nat, j: nat, k: nat, caller: nat, current: Option<nat>)
    requires IsRun(states, steps) && i < j <= k <= |steps| && steps[i] == Stop(caller, false, current)
    requires current.Some? ==> states[i].loops.task != current
    requires NoStart(steps, i + 1, k)
    ensures !states[j].loops.running
    ensures j < k && steps[j] == StopDrained(caller) && (forall m :: i < m < j ==> steps[m] != StopDrained(caller)) ==>
              states[k].loops == Loops(false, None, map[])
  {
    hide Apply, Enabled, WindingDown, OneLoop;
    AtMostOneLoop(states, steps, i);
    StopWindsDown(states[i], caller, current);
    var d := states[i + 1].draining[caller];
    StaysDownUntil(states, steps, i + 1, j, d);
    NotRunning(states[j], d);
    if j < k && steps[j] == StopDrained(caller) && (forall m :: i < m < j ==> steps[m] != StopDrained(caller)) {
      StillDraining(states, steps, i + 1, j, caller);
      DrainedIsGone(states[j], caller, d);
      StaysDownUntil(states, steps, j + 1, k, None);
      NothingIsLeft(states[k]);
    }
  }

  lemma StopWindsDown(s: System, caller: nat, current: Option<nat>)
    requires OneLoop(s) && Enabled(s, Stop(caller, false, current)) && (current.Some? ==> s.loops.task != current)
    ensures var t := Apply(s, Stop(caller, false, current));
            caller in t.draining && WindingDown(t, t.draining[caller])
  {
  }

  lemma NotRunning(s: System, d: Option<nat>)
    requires WindingDown(s, d)
    ensures !s.loops.running
  {
  }

  lemma {:induction false} StillDraining(states: seq<System>, steps: seq<Step>, i: nat, j: nat, caller: nat)
    requires IsRun(states, steps) && i <= j <= |steps| && caller in states[i].draining
    requires forall m :: i <= m < j ==> steps[m] != StopDrained(caller)
    ensures caller in states[j].draining && states[j].draining[caller] == states[i].draining[caller]
  {
    if i < j {
      StillDraining(states, steps, i, j - 1, caller);
      KeepsDraining(states[j - 1], steps[j - 1], caller);
    }
  }

  lemma KeepsDraining(s: System, step: Step, caller: nat)
    requires Enabled(s, step) && caller in s.draining && step != StopDrained(caller)
    ensures caller in Apply(s, step).draining && Apply(s, step).draining[caller] == s.draining[caller]
  {
  }

  lemma DrainedIsGone(s: System, caller: nat, d: Option<nat>)
    requires WindingDown(s, d) && caller in s.draining && s.draining[caller] == d && Enabled(s, StopDrained(caller))
    ensures WindingDown(Apply(s, StopDrained(caller)), None)
  {
  }

  lemma NothingIsLeft(s: System)
    requires WindingDown(s, None)
    ensures s.loops == Loops(false, None, map[])
  {
    assert s.loops.live == map[];
  }

  /** A stop from the checker's own callback followed by a start keeps the loop it has instead of adding one. */
  lemma RestartFromCallbackRearms(s: System, caller: nat, current: Option<nat>, newTask: nat)
    requires OneLoop(s) && s.loops.TaskLive() && Enabled(s, Stop(caller, true, current)) && Enabled(s, Start(newTask))
    ensures var t := Apply(s, Stop(caller, true, current));
            !t.loops.running && Apply(t, Start(newTask)).loops == s.loops.(running := true)
  {
  }

  /** A checker that says it is running has a loop. */
  predicate RunningHasLoop(s: System) { s.loops.running ==> s.loops.TaskLive() }

  /** Exactly one step can break that: a cancelled loop that never began ends after a restart re-armed it. */
  lemma RunningHasLoopExactly(s: System, step: Step)
    requires OneLoop(s) && RunningHasLoop(s) && Enabled(s, step)
    ensures RunningHasLoop(Apply(s, step)) <==> !(step.LoopEnds? && !s.loops.live[step.task] && s.loops.running)
  {
  }

  /** The checker's loop has been cancelled before its first step: it will end without any of its code running. */
  predicate Doomed(s: System) {
    s.loops.TaskLive() && !s.loops.live[s.loops.task.value] && s.loops.task.value in s.cancelled
  }

  /** A running checker has a loop, and one that will run. */
  predicate Safe(s: System) { s.loops.running ==> s.loops.TaskLive() && !Doomed(s) }

  /** What breaks it is calling `start` while the loop is doomed, and nothing else. */
  lemma SafeStepExactly(s: System, step: Step)
    requires OneLoop(s) && Safe(s) && Enabled(s, step)
    ensures Safe(Apply(s, step)) <==> !(step.Start? && Doomed(s))
  {
  }

  /** `start` is called somewhere in the run while the loop is doomed. */
  ghost predicate StartsDoomed(states: seq<System>, steps: seq<Step>)
    requires |states| == |steps| + 1
  {
    exists i :: 0 <= i < |steps| && steps[i].Start? && Doomed(states[i])
  }

  lemma {:induction false} SafeUntil(states: seq<System>, steps: seq<Step>, k: nat)
    requires IsRun(states, steps) && k <= |steps|
    requires forall i :: 0 <= i < k ==> !(steps[i].Start? && Doomed(states[i]))
    ensures Safe(states[k])
  {
    hide Enabled, Apply, Safe, Doomed;
    if k == 0 {
      IdleIsSafe();
    } else {
      SafeUntil(states, steps, k - 1);
      AtMostOneLoop(states, steps, k - 1);
      SafeStepExactly(states[k - 1], steps[k - 1]);
    }
  }

  lemma IdleIsSafe()
    ensures Safe(IDLE)
  {
  }

  /**
   * For any run: a running checker has a loop that will run, in every state, exactly when no caller
   * starts the checker between the cancellation of a loop that has not begun and its end.
   */
  lemma SafeExactly(states: seq<System>, steps: seq<Step>)
    requires IsRun(states, steps)
    ensures (forall k :: 0 <= k <= |steps| ==> Safe(states[k])) <==> !StartsDoomed(states, steps)
  {
    hide Enabled, Apply, Safe, Doomed;
    if StartsDoomed(states, steps) {
      var i :| 0 <= i < |steps| && steps[i].Start? && Doomed(states[i]);
      if Safe(states[i]) {
        AtMostOneLoop(states, steps, i);
        SafeStepExactly(states[i], steps[i]);
        assert !Safe(states[i + 1]);
      }
    } else {
      forall k | 0 <= k <= |steps| ensures Safe(states[k]) {
        SafeUntil(states, steps, k);
      }
    }
  }

  /** Such a `start` leaves a checker that loses its loop as soon as the loop ends, and still says it is running. */
  lemma DoomedStartLosesLoop(s: System, newTask: nat)
    requires OneLoop(s) && Enabled(s, Start(newTask)) && Doomed(s)
    ensures var t := Apply(s, Start(newTask));
            && t.loops.running && Enabled(t, LoopEnds(s.loops.task.value))
            && !RunningHasLoop(Apply(t, LoopEnds(s.loops.task.value)))
            && Apply(t, LoopEnds(s.loops.task.value)).loops.live == map[]
  {
    var t := Apply(s, Start(newTask));
    assert Apply(t, LoopEnds(s.loops.task.value)).loops.live == map[];
  }

  /** And it can happen: start, stop and start again before the first loop has had a turn. */
  lemma RestartCanLoseItsLoop()
    ensures exists states, steps :: IsRun(states, steps) && !RunningHasLoop(states[|steps|])
  {
    var started := Loops(true, Some(1), map[1 := false]);
    var states := [
      IDLE,
      System(started, map[], {}),
      System(started.(running := false), map[9 := Some(1)], {1}),
      System(started, map[9 := Some(1)], {1}),
      System(Loops(true, Some(1), map[]), map[9 := Some(1)], {1})];
    var steps := [Start(1), Stop(9, false, None), Start(2), LoopEnds(1)];
    forall i | 0 <= i < |steps| ensures Enabled(states[i], steps[i]) && states[i + 1] == Apply(states[i], steps[i]) {
    }
    assert IsRun(states, steps) && !RunningHasLoop(states[|steps|]);
  }
}
