/**
 Progress of the process-wide defaults (source/Api.cpp): every getter and releaser that has begun returns, however
 the threads are scheduled and in whichever order constructor arguments are evaluated.
 */
module StaticProgress {
  import opened Options
  import opened Schedules
  import opened StaticDefaults

  /** A step of a call already begun. */
  predicate Continues(s: State, step: Step) {
    (step.Advance? || step.Evaluate?) && Enabled(s, step)
  }

  ghost predicate Quiescent(s: State) {
    forall t: Thread :: Stack(s, t) == []
  }

  // ---------- How much work a call has left ----------

  /** The steps of a getter of this kind, the getters of its arguments included. */
  function Cost(kind: Kind): nat {
    match kind
    case Group => 6
    case Resolver => 6 + (1 + 6)
    case Bootstrap => 6 + (1 + 6) + (1 + 13)
  }

  function PointWork(at: Point): nat {
    match at
    case Lock => 6
    case Check => 5
    case Build => 4
    case Store(_) => 3
    case Return => 2
    case Delete => 3
    case Clear => 2
    case Unlock(_) => 1
  }

  /** The steps for an argument not yet evaluated, unless the inner call `skip` is at it. */
  function ArgWork(f: Frame, arg: Kind, skip: Option<Kind>): nat {
    if f.getter && (f.at.Lock? || f.at.Check? || f.at.Build?) && f.Missing(arg) && skip != Some(arg) then 1 + Cost(arg)
    else 0
  }

  function FrameWork(f: Frame, skip: Option<Kind>): nat {
    PointWork(f.at) + ArgWork(f, Group, skip) + ArgWork(f, Resolver, skip)
  }

  /** The work of a stack whose innermost call has called a getter of kind `skip`. */
  function StackWork(stack: seq<Frame>, skip: Option<Kind>): nat {
    if stack == [] then 0
    else StackWork(stack[..|stack| - 1], Some(Top(stack).kind)) + FrameWork(Top(stack), skip)
  }

  lemma CallWork(arg: Kind)
    ensures FrameWork(Call(arg, true), None) == Cost(arg)
  {
  }

  lemma PushWorks(stack: seq<Frame>, arg: Kind)
    requires stack != [] && Top(stack).getter && Top(stack).at.Build? && Top(stack).Missing(arg)
    ensures StackWork(stack + [Call(arg, true)], None) < StackWork(stack, None)
  {
    var pushed := stack + [Call(arg, true)];
    assert pushed[..|pushed| - 1] == stack && Top(pushed) == Call(arg, true);
    CallWork(arg);
    assert FrameWork(Top(stack), Some(arg)) + 1 + Cost(arg) == FrameWork(Top(stack), None);
  }

  lemma SetTopWorks(stack: seq<Frame>, f: Frame)
    requires stack != [] && f.kind == Top(stack).kind && FrameWork(f, None) < FrameWork(Top(stack), None)
    ensures StackWork(SetTop(stack, f), None) < StackWork(stack, None)
  {
    var moved := SetTop(stack, f);
    assert moved[..|moved| - 1] == stack[..|stack| - 1] && Top(moved) == f;
  }

  lemma PopWorks(stack: seq<Frame>)
    requires stack != [] && Top(stack).at.Unlock? && (Top(stack).getter ==> Top(stack).at.result.Some?)
    requires !Top(stack).getter ==> |stack| == 1
    ensures StackWork(Pop(stack), None) < StackWork(stack, None)
  {
    var rest, f := stack[..|stack| - 1], Top(stack);
    if rest != [] {
      var g := Top(rest).WithArg(f.kind, f.at.result);
      var popped := Pop(stack);
      assert popped[..|popped| - 1] == rest[..|rest| - 1] && Top(popped) == g && g.kind == Top(rest).kind;
      ArgumentDone(Top(rest), f.kind, f.at.result);
    }
  }

  lemma ArgumentDone(f: Frame, arg: Kind, value: Option<Obj>)
    requires value.Some?
    ensures FrameWork(f.WithArg(arg, value), None) <= FrameWork(f, Some(arg))
  {
  }

  lemma MoveNearsEnd(s: State, f: Frame)
    requires !f.at.Unlock? && PointFits(f) && (f.at.Build? ==> f.Ready())
    ensures FrameWork(f.(at := NextPoint(s, f)), None) < FrameWork(f, None)
  {
  }

  // ---------- Every call returns ----------

  function ThreadWork(s: State): Thread -> nat {
    t => StackWork(Stack(s, t), None)
  }

  ghost predicate IdleFrom(s: State, n: nat) {
    forall t: Thread :: n <= t ==> Stack(s, t) == []
  }

  lemma AdvanceWorks(s: State, t: Thread)
    requires Inv(s) && Enabled(s, Advance(t))
    ensures StackWork(Stack(Apply(s, Advance(t)), t), None) < StackWork(Stack(s, t), None)
  {
    var stack := Stack(s, t);
    var f := Top(stack);
    assert FrameInv(s, stack[|stack| - 1]) && PointFits(stack[|stack| - 1]);
    if f.at.Unlock? {
      assert |stack| > 1 ==> WaitsFor(stack[0], stack[|stack| - 1]);
      PopWorks(stack);
    } else {
      MoveNearsEnd(s, f);
      SetTopWorks(stack, f.(at := NextPoint(s, f)));
    }
  }

  lemma ContinuingWorks(s: State, step: Step, n: nat)
    requires Inv(s) && Continues(s, step) && IdleFrom(s, n)
    ensures Total(ThreadWork(Apply(s, step)), n) < Total(ThreadWork(s), n) && IdleFrom(Apply(s, step), n)
  {
    var s', t := Apply(s, step), step.t;
    assert OnlyMoved(s, s', t);
    if step.Advance? {
      AdvanceWorks(s, t);
    } else {
      PushWorks(Stack(s, t), step.arg);
    }
    TotalMoves(ThreadWork(s), ThreadWork(s'), t, n);
  }

  lemma SomeoneContinues(s: State) returns (step: Step)
    requires Inv(s) && !Quiescent(s)
    ensures Continues(s, step)
  {
    var t: Thread :| Stack(s, t) != [];
    var mover := FollowWaiting(s, t);
    if Enabled(s, Advance(mover)) {
      step := Advance(mover);
    } else {
      var arg :| Enabled(s, Evaluate(mover, arg));
      step := Evaluate(mover, arg);
    }
  }

  ghost predicate ContinuesTo(s: State, trace: seq<Step>, final: State)
    decreases |trace|
  {
    if trace == [] then
      final == s
    else
      Continues(s, trace[0]) && ContinuesTo(Apply(s, trace[0]), trace[1..], final)
  }

  lemma {:induction false} SchedulesFinish(s: State, trace: seq<Step>, final: State, n: nat)
    requires Inv(s) && IdleFrom(s, n) && ContinuesTo(s, trace, final)
    ensures |trace| <= Total(ThreadWork(s), n)
    ensures (forall step :: !Continues(final, step)) ==> Quiescent(final)
    decreases |trace|
  {
    if trace == [] {
      if !Quiescent(s) {
        var step := SomeoneContinues(s);
        assert Continues(final, step);
      }
    } else {
      ContinuingWorks(s, trace[0], n);
      StepInv(s, trace[0]);
      SchedulesFinish(Apply(s, trace[0]), trace[1..], final, n);
    }
  }

  /**
   When no new call begins, every way of scheduling the threads is finite, whatever releasers run among them, and
   it stops only when every getter and releaser has returned.
   */
  lemma EveryScheduleFinishes(states: seq<State>, steps: seq<Step>, i: nat, trace: seq<Step>, final: State)
    requires IsRun(states, steps) && i < |states| && ContinuesTo(states[i], trace, final)
    ensures exists n: nat :: IdleFrom(states[i], n) && |trace| <= Total(ThreadWork(states[i]), n)
    ensures (forall step :: !Continues(final, step)) ==> Quiescent(final)
  {
    RunInv(states, steps, i);
    var n := SomeBound(states[i].stacks.Keys);
    assert IdleFrom(states[i], n);
    SchedulesFinish(states[i], trace, final, n);
  }
}
