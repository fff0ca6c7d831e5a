/**
 Progress of the MQTT5 client core (source/mqtt/Mqtt5ClientCore.cpp). `Close`, the callbacks and requests wait for
 each other only at one recursive mutex; a handler that runs inside it may itself close the client.
 */
module Mqtt5Progress {
  import opened Mqtt5Core
  import opened Options
  import opened Schedules

  /** A step that finishes work already begun; user handlers return. */
  predicate Continues(s: State, step: Step) {
    (step.Advance? || step.AdvanceCallback?) && Enabled(s, step)
  }

  /** Every request, `Close` and callback has returned. */
  ghost predicate Quiescent(s: State) {
    s.callback.NoCallback? && forall t: Thread :: OpOf(s, t).Idle?
  }

  /** When every thread is idle or waits for the mutex, only the loop can hold it, through the callback it is in. */
  lemma OnlyLoopHolds(s: State)
    requires ControlInv(s) && forall t: Thread :: OpOf(s, t).Idle? || OpOf(s, t).CloseLock?
    ensures s.owner.None? || (s.owner == Some(LOOP) && s.callback.HoldsLock())
  {
    if s.owner.Some? {
      assert Holds(s, s.owner.value) > 0;
    }
  }

  /** Whoever waits then can take the mutex: the loop takes it once more if it is in a handler. */
  lemma WaitersCanLock(s: State) returns (step: Step)
    requires ControlInv(s) && !Quiescent(s)
    requires forall t: Thread :: OpOf(s, t).Idle? || OpOf(s, t).CloseLock?
    ensures Continues(s, step)
  {
    OnlyLoopHolds(s);
    if !OpOf(s, LOOP).Idle? {
      step := Advance(LOOP, true);
    } else if !s.callback.NoCallback? {
      step := AdvanceCallback(true);
    } else {
      var t: Thread :| !OpOf(s, t).Idle?;
      step := Advance(t, true);
    }
  }

  /** Some unfinished work can always go on. */
  lemma NoDeadlock(s: State) returns (step: Step)
    requires Inv(s) && !Quiescent(s)
    ensures Continues(s, step)
  {
    if t: Thread :| !OpOf(s, t).Idle? && !OpOf(s, t).CloseLock? {
      step := Advance(t, true);
    } else {
      step := WaitersCanLock(s);
    }
  }

  // ---------- Every operation finishes ----------

  function OpWork(op: Op): nat {
    match op
    case Idle => 0
    case ReqCheck(_) => 4
    case ReqAlloc(_) => 3
    case ReqSubmit(_) => 2
    case ReqFree(_) => 1
    case CloseLock => 7
    case CloseFlag => 6
    case CloseTest => 5
    case CloseRelease => 4
    case CloseNull => 3
    case CloseUnlock => 2
    case CloseReset => 1
  }

  function CallbackWork(cb: Callback): nat {
    match cb
    case NoCallback => 0
    case CbLock(_) => 7
    case CbCheck(_) => 6
    case CbAcquire => 5
    case CbInvoke(_, _) => 4
    case CbHandler(_, _) => 3
    case CbSettle(_) => 2
    case CbUnlock => 1
    case CmpLock(_) => 6
    case CmpCheck(_) => 5
    case CmpUnlock(_, _) => 4
    case CmpInvoke(_) => 3
    case CmpHandler(_) => 2
    case CmpFree(_) => 1
  }

  function ThreadWork(s: State): Thread -> nat {
    t => OpWork(OpOf(s, t))
  }

  /** An upper bound on the steps still needed by the work begun on threads below `n`. */
  function Work(s: State, n: nat): nat {
    Total(ThreadWork(s), n) + CallbackWork(s.callback)
  }

  ghost predicate IdleFrom(s: State, n: nat) {
    forall t: Thread :: n <= t ==> OpOf(s, t).Idle?
  }

  lemma OpNearsEnd(s: State, op: Op, accepted: bool)
    requires !op.Idle?
    ensures OpWork(NextOp(s, op, accepted)) < OpWork(op)
  {
  }

  lemma CallbackNearsEnd(s: State, cb: Callback, acquired: bool)
    requires !cb.NoCallback?
    ensures CallbackWork(NextCallback(s, cb, acquired)) < CallbackWork(cb)
  {
  }

  lemma AdvancingWorks(s: State, t: Thread, accepted: bool, n: nat)
    requires Continues(s, Advance(t, accepted)) && IdleFrom(s, n)
    ensures var s' := Apply(s, Advance(t, accepted)); Work(s', n) < Work(s, n) && IdleFrom(s', n)
  {
    var s' := Apply(s, Advance(t, accepted));
    ApplyLedger(s, t, accepted);
    OpNearsEnd(s, OpOf(s, t), accepted);
    assert OnlyMoved(s, s', t);
    TotalMoves(ThreadWork(s), ThreadWork(s'), t, n);
  }

  lemma CallbackWorks(s: State, s': State, n: nat)
    requires s'.ops == s.ops && CallbackWork(s'.callback) < CallbackWork(s.callback) && IdleFrom(s, n)
    ensures Work(s', n) < Work(s, n) && IdleFrom(s', n)
  {
    assert forall t: Thread :: OpOf(s', t) == OpOf(s, t);
    TotalMoves(ThreadWork(s), ThreadWork(s'), LOOP, n);
  }

  ghost predicate ContinuesTo(s: State, trace: seq<Step>, final: State)
    decreases |trace|
  {
    if trace == [] then
      final == s
    else
      Continues(s, trace[0]) && ContinuesTo(Apply(s, trace[0]), trace[1..], final)
  }

  lemma ContinuingWorks(s: State, step: Step, n: nat)
    requires Continues(s, step) && IdleFrom(s, n)
    ensures Work(Apply(s, step), n) < Work(s, n) && IdleFrom(Apply(s, step), n)
  {
    if step.Advance? {
      AdvancingWorks(s, step.t, step.accepted, n);
    } else {
      CallbackNearsEnd(s, s.callback, step.acquired);
      CallbackWorks(s, Apply(s, step), n);
    }
  }

  lemma {:induction false} SchedulesFinish(s: State, trace: seq<Step>, final: State, n: nat)
    requires Inv(s) && IdleFrom(s, n) && ContinuesTo(s, trace, final)
    ensures |trace| <= Work(s, n)
    ensures (forall step :: !Continues(final, step)) ==> Quiescent(final)
    decreases |trace|
  {
    if trace == [] {
      if !Quiescent(s) {
        var step := NoDeadlock(s);
        assert Continues(final, step);
      }
    } else {
      ContinuingWorks(s, trace[0], n);
      StepInv(s, trace[0]);
      SchedulesFinish(Apply(s, trace[0]), trace[1..], final, n);
    }
  }

  /**
   When no new work begins, every way of scheduling the threads and the loop is finite, and it stops only when
   every request, `Close` and callback has returned.
   */
  lemma EveryScheduleFinishes(states: seq<State>, steps: seq<Step>, i: nat, trace: seq<Step>, final: State)
    requires IsRun(states, steps) && i < |states| && ContinuesTo(states[i], trace, final)
    ensures exists n: nat :: IdleFrom(states[i], n) && |trace| <= Work(states[i], n)
    ensures (forall step :: !Continues(final, step)) ==> Quiescent(final)
  {
    RunInv(states, steps, i);
    var n := SomeBound(states[i].ops.Keys);
    assert IdleFrom(states[i], n);
    SchedulesFinish(states[i], trace, final, n);
  }
}
