/**
 * What becomes of a call of `remove`: when exactly it raises, how often it joins a graceful stop, what its
 * force attempt joins, and that it never hangs on a stop that has ended.
 */
module RemoveLaws {
  import opened Prelude
  import opened SessionManager
  import opened SessionTeardown

  predicate Joining(r: Remove) { r.at.Yielded? || r.at.Waiting? }

  /** The stop that `r` joined was graceful and force has been requested: its end is not the end of `r`. */
  predicate Escalates(r: Remove)
    requires Joining(r)
  {
    r.at.forceRequested && !r.at.op.force
  }

  /** The stop that `r` joined has ended with `outcome`. */
  predicate EndedWith(s: System, r: Remove, outcome: Outcome) {
    Joining(r) && r.at.op.task in s.ended && s.ended[r.at.op.task] == outcome
  }

  /**
   * Where a caller goes from the stop it joined: on to another attempt if that was cancelled or escalated, and
   * otherwise out with its result; a forced caller goes on from every graceful stop, however it ended.
   */
  lemma ResumeExactly(s: System, c: nat)
    requires Inv(s) && Enabled(s, Resume(c))
    ensures var r, at := s.removes[c], Apply(s, Resume(c)).removes[c].at;
            && (at == Raised <==> EndedWith(s, r, Failed) && !Escalates(r))
            && (at.Returned? <==> EndedWith(s, r, Succeeded) && !Escalates(r))
            && (at.Returned? ==> at.via == Some(r.at.op.task))
            && (at == Preparing <==> r.at.op.task in s.ended && (EndedWith(s, r, WasCancelled) || Escalates(r)))
            && (r.at.op.task !in s.ended ==> at == Waiting(r.at.op, r.at.forceRequested))
            && (r.force && !r.at.op.force && r.at.op.task in s.ended ==> at == Preparing)
            && (r.force && at == Raised ==> r.at.op.force)
  {
    hide Core, GracefulDone;
    assert RemoveOk(s, s.removes[c]);
  }

  /* ---------- raising ---------- */

  /** The step makes `c` raise: it is cancelled, or the stop it joined failed and force is not still to be tried. */
  predicate Raises(s: System, step: Step, c: nat)
    requires Enabled(s, step)
  {
    step == CancelCaller(c) || (step == Resume(c) && EndedWith(s, s.removes[c], Failed) && !Escalates(s.removes[c]))
  }

  /** A caller moves only by its own steps. */
  lemma OthersLeaveIt(s: System, step: Step, c: nat)
    requires Enabled(s, step) && c in s.removes
    requires step != Resume(c) && step != CancelCaller(c) && !(step.PrepareStop? && step.caller == c)
    ensures c in Apply(s, step).removes && Apply(s, step).removes[c] == s.removes[c]
  {
    hide Prepare, Abandoned, AbandonForces, Finished;
  }

  lemma RaisedAfter(s: System, step: Step, c: nat)
    requires Inv(s) && Enabled(s, step) && c in Apply(s, step).removes
    ensures Apply(s, step).removes[c].at == Raised
       <==> (c in s.removes && s.removes[c].at == Raised) || Raises(s, step, c)
  {
    hide Core, RemoveOk, Prepare, Abandoned, AbandonForces, Finished;
    if step == Resume(c) {
      ResumeExactly(s, c);
    } else if c in s.removes && step != CancelCaller(c) && !(step.PrepareStop? && step.caller == c) {
      OthersLeaveIt(s, step, c);
    }
  }

  /**
   * In any run a call of `remove` has raised exactly if it was cancelled, or the stop it joined failed and was
   * not a graceful one under a force request; a forced call, then, only if its force stop failed.
   */
  lemma {:induction false} RaisedExactly(states: seq<System>, steps: seq<Step>, k: nat, c: nat)
    requires IsRun(states, steps) && k <= |steps| && c in states[k].removes
    ensures states[k].removes[c].at == Raised <==> exists i :: 0 <= i < k && Raises(states[i], steps[i], c)
  {
    hide Inv, Enabled, Apply, Raises;
    if k > 0 {
      RunsAreSafe(states, steps, k - 1);
      RaisedAfter(states[k - 1], steps[k - 1], c);
      if c in states[k - 1].removes {
        RaisedExactly(states, steps, k - 1, c);
      } else {
        forall i | 0 <= i < k - 1 ensures !Raises(states[i], steps[i], c) {
          NotCalledYet(states, steps, i, k - 1, c);
        }
      }
    }
  }

  lemma {:induction false} CallsStay(states: seq<System>, steps: seq<Step>, i: nat, k: nat, c: nat)
    requires IsRun(states, steps) && i <= k <= |steps| && c in states[i].removes
    ensures c in states[k].removes && states[k].removes[c].force == states[i].removes[c].force
    ensures states[k].removes[c].key == states[i].removes[c].key
  {
    hide Enabled, Apply;
    if i < k {
      CallsStay(states, steps, i, k - 1, c);
      CallStays(states[k - 1], steps[k - 1], c);
    }
  }

  lemma CallStays(s: System, step: Step, c: nat)
    requires Enabled(s, step) && c in s.removes
    ensures c in Apply(s, step).removes && Apply(s, step).removes[c].force == s.removes[c].force
    ensures Apply(s, step).removes[c].key == s.removes[c].key
  {
    hide Prepare, Abandoned, AbandonForces, Finished;
  }

  lemma NotCalledYet(states: seq<System>, steps: seq<Step>, i: nat, k: nat, c: nat)
    requires IsRun(states, steps) && i < k <= |steps| && c !in states[k].removes
    ensures !Raises(states[i], steps[i], c)
  {
    if c in states[i].removes {
      CallsStay(states, steps, i, k, c);
    }
  }

  /** So the force attempt is never lost: a forced call that raised was cancelled or its force stop failed. */
  lemma ForcedRaisesOnlyAfterForce(states: seq<System>, steps: seq<Step>, k: nat, c: nat) returns (i: nat)
    requires IsRun(states, steps) && k <= |steps| && c in states[k].removes
    requires states[k].removes[c].force && states[k].removes[c].at == Raised
    ensures i < k && Raises(states[i], steps[i], c)
    ensures steps[i] == CancelCaller(c)
         || (c in states[i].removes && EndedWith(states[i], states[i].removes[c], Failed) && states[i].removes[c].at.op.force)
  {
    hide Core, RemoveOk, Apply;
    RaisedExactly(states, steps, k, c);
    i :| 0 <= i < k && Raises(states[i], steps[i], c);
    if steps[i] != CancelCaller(c) {
      RunsAreSafe(states, steps, i);
      CallsStay(states, steps, i, k, c);
      ForcedWasRequested(states[i], c);
    }
  }

  lemma ForcedWasRequested(s: System, c: nat)
    requires Inv(s) && c in s.removes && s.removes[c].force && Joining(s.removes[c])
    ensures s.removes[c].at.forceRequested
  {
    assert RemoveOk(s, s.removes[c]);
  }

  /* ---------- joined stops ---------- */

  /** `c` learns at this step that a graceful stop of the session it was called for has ended. */
  predicate JoinsGraceful(s: System, step: Step, c: nat)
    requires Enabled(s, step)
  {
    step == Resume(c) && var r := s.removes[c];
      r.at.op.task in s.ended && !r.at.op.force && r.target == Some(r.at.op.session)
  }

  function GracefulJoins(states: seq<System>, steps: seq<Step>, k: nat, c: nat): nat
    requires |states| == |steps| + 1 && k <= |steps| && forall i :: 0 <= i < k ==> Enabled(states[i], steps[i])
  {
    if k == 0 then 0 else GracefulJoins(states, steps, k - 1, c) + if JoinsGraceful(states[k - 1], steps[k - 1], c) then 1 else 0
  }

  lemma {:induction false} JoinedCounts(states: seq<System>, steps: seq<Step>, k: nat, c: nat)
    requires IsRun(states, steps) && k <= |steps|
    ensures GracefulJoins(states, steps, k, c) == if c in states[k].removes then states[k].removes[c].joined else 0
  {
    if k > 0 {
      JoinedCounts(states, steps, k - 1, c);
      JoinedAfter(states[k - 1], steps[k - 1], c);
    }
  }

  lemma JoinedAfter(s: System, step: Step, c: nat)
    requires Enabled(s, step)
    ensures var before, t := if c in s.removes then s.removes[c].joined else 0, Apply(s, step);
            (if c in t.removes then t.removes[c].joined else 0) == before + if JoinsGraceful(s, step, c) then 1 else 0
  {
    hide Prepare, Abandoned, AbandonForces, Finished;
  }

  /** A forced call joins at most one graceful stop of the session it was called for, in the whole run. */
  lemma ForcedJoinsOneGraceful(states: seq<System>, steps: seq<Step>, k: nat, c: nat)
    requires IsRun(states, steps) && k <= |steps| && c in states[k].removes && states[k].removes[c].force
    ensures GracefulJoins(states, steps, k, c) <= 1
  {
    hide Core, GracefulDone, Enabled, Apply;
    RunsAreSafe(states, steps, k);
    JoinedCounts(states, steps, k, c);
    assert RemoveOk(states[k], states[k].removes[c]);
  }

  /** The session a call is for is the one that holds its key when it first looks. */
  lemma TargetIsFirstFound(s: System, c: nat, newTask: nat)
    requires Inv(s) && Enabled(s, PrepareStop(c, newTask))
    ensures var r, q, sessions := s.removes[c], Apply(s, PrepareStop(c, newTask)).removes[c], s.manager.sessions;
            q.target == if r.target.Some? then r.target else if r.key in sessions then Some(sessions[r.key]) else None
  {
    hide Core, RemoveOk, Prepare;
  }

  /** After a graceful stop of its session has ended, what a forced call joins for that session is a force stop. */
  lemma NextAttemptIsForce(states: seq<System>, steps: seq<Step>, k: nat, c: nat)
    requires IsRun(states, steps) && k <= |steps| && c in states[k].removes && states[k].removes[c].force
    requires Joining(states[k].removes[c]) && GracefulJoins(states, steps, k, c) > 0
    requires states[k].removes[c].target == Some(states[k].removes[c].at.op.session)
    ensures states[k].removes[c].at.op.force
  {
    hide Core, GracefulDone, Enabled, Apply;
    RunsAreSafe(states, steps, k);
    JoinedCounts(states, steps, k, c);
    assert RemoveOk(states[k], states[k].removes[c]);
  }

  /* ---------- going on ---------- */

  /** A call that has not ended can go on once the stop it waits for has, and can be cancelled while it is suspended. */
  lemma RemoveGoesOn(s: System, c: nat)
    requires Inv(s) && c in s.removes && s.removes[c].at != Raised && !s.removes[c].at.Returned?
    ensures s.removes[c].at == Preparing ==> forall newTask :: newTask !in s.tasks ==> Enabled(s, PrepareStop(c, newTask))
    ensures s.removes[c].at.Yielded? ==> Enabled(s, Resume(c))
    ensures Joining(s.removes[c]) ==> Enabled(s, CancelCaller(c)) && Apply(s, CancelCaller(c)).removes[c].at == Raised
    ensures s.removes[c].at.Waiting? ==>
              var task := s.removes[c].at.op.task;
              if task !in s.ended then forall outcome :: Enabled(s, TaskEnds(task, outcome))
              else if task !in s.calledBack then Enabled(s, CallBack(task))
              else Enabled(s, Resume(c))
  {
    hide GracefulDone, OneLiveStop, ForceSticks, LeftForCause, CallbacksTookEffect;
    assert RemoveOk(s, s.removes[c]);
  }
}
