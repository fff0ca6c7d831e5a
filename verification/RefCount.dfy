/**
 The reference count that C code shares with a C++ object (include/aws/crt/RefCounted.h).

 C code calls `AcquireRef` and `ReleaseRef` in pairs. While the count is positive the object owns
 itself through `m_strongPtr`. C++ code owns it through ordinary shared pointers. The object, its
 mutex included, is destroyed when the last owner goes. The model interleaves any number of threads,
 one step per access to shared state.

 A thread calls `AcquireRef` only while it keeps the object alive: it has a shared pointer, or a C
 reference acquired before. It calls `ReleaseRef` only for a C reference it holds.
 */
module RefCount {
  import opened Options

  type Thread = nat

  datatype Op =
    | Idle
    | AcqLock | AcqCount | AcqOwn | AcqUnlock
    | RelLock | RelCount | RelSwap | RelUnlock(last: bool) | RelDropTmp
  {
    predicate InAcquire() { AcqLock? || AcqCount? || AcqOwn? || AcqUnlock? }
    predicate HoldsMutex() { AcqCount? || AcqOwn? || AcqUnlock? || RelCount? || RelSwap? || RelUnlock? }
    predicate TouchesMutex() { HoldsMutex() || AcqLock? || RelLock? }
    predicate OwnsTmp() { (RelUnlock? && last) || RelDropTmp? }
  }

  datatype State = State(
    ops: map<Thread, Op>,
    mutex: Option<Thread>,
    count: nat,                  // m_count
    strong: bool,                // m_strongPtr != nullptr
    shared: multiset<Thread>,    // shared pointers, by the thread that holds them
    cRefs: multiset<Thread>,     // references counted by m_count, by the thread that holds them
    alive: bool)

  function OpOf(s: State, t: Thread): Op {
    if t in s.ops then s.ops[t] else Idle
  }

  datatype Step =
    | CopyShared(from: Thread, to: Thread)
    | DropShared(t: Thread)
    | PassCRef(from: Thread, to: Thread)
    | StartAcquire(t: Thread)
    | StartRelease(t: Thread)
    | Advance(t: Thread)

  predicate Enabled(s: State, step: Step) {
    match step
    case CopyShared(from, to) => OpOf(s, from).Idle? && from in s.shared
    case DropShared(t) => OpOf(s, t).Idle? && t in s.shared
    case PassCRef(from, to) => OpOf(s, from).Idle? && from in s.cRefs
    case StartAcquire(t) => OpOf(s, t).Idle? && (t in s.shared || t in s.cRefs)
    case StartRelease(t) => OpOf(s, t).Idle? && t in s.cRefs
    case Advance(t) => !OpOf(s, t).Idle? && (OpOf(s, t).AcqLock? || OpOf(s, t).RelLock? ==> s.mutex.None?)
  }

  function NextOp(op: Op, count: nat): Op {
    match op
    case Idle => Idle
    case AcqLock => AcqCount
    case AcqCount => if count == 0 then AcqOwn else AcqUnlock
    case AcqOwn => AcqUnlock
    case AcqUnlock => Idle
    case RelLock => RelCount
    case RelCount => if count == 1 then RelSwap else RelUnlock(false)
    case RelSwap => RelUnlock(true)
    case RelUnlock(last) => if last then RelDropTmp else Idle
    case RelDropTmp => Idle
  }

  /** Some shared pointer still owns the object: a user's, `m_strongPtr`, or a releaser's temporary. */
  ghost predicate Owned(s: State) {
    s.shared != multiset{} || s.strong || exists t: Thread :: OpOf(s, t).OwnsTmp()
  }

  /** What a thread writes at this program point. The decrement stays at zero where the source asserts. */
  function Effect(s: State, t: Thread): State {
    match OpOf(s, t)
    case AcqLock => s.(mutex := Some(t))
    case AcqCount => s.(count := s.count + 1, cRefs := s.cRefs + multiset{t})
    case AcqOwn => s.(strong := true)
    case AcqUnlock => s.(mutex := None)
    case RelLock => s.(mutex := Some(t))
    case RelCount => s.(count := if s.count > 0 then s.count - 1 else 0, cRefs := s.cRefs - multiset{t})
    case RelSwap => s.(strong := false)
    case RelUnlock(_) => s.(mutex := None)
    case _ => s
  }

  ghost function Move(s: State, step: Step): State
    requires Enabled(s, step)
  {
    match step
    case CopyShared(from, to) => s.(shared := s.shared + multiset{to})
    case DropShared(t) => s.(shared := s.shared - multiset{t})
    case PassCRef(from, to) => s.(cRefs := s.cRefs - multiset{from} + multiset{to})
    case StartAcquire(t) => s.(ops := s.ops[t := AcqLock])
    case StartRelease(t) => s.(ops := s.ops[t := RelLock])
    case Advance(t) => Effect(s, t).(ops := s.ops[t := NextOp(OpOf(s, t), s.count)])
  }

  /** Losing the last owner destroys the object, for good. */
  ghost function Apply(s: State, step: Step): State
    requires Enabled(s, step)
  {
    var s' := Move(s, step);
    s'.(alive := s.alive && Owned(s'))
  }

  ghost predicate Initial(s: State) {
    exists creator: Thread :: s == State(map[], None, 0, false, multiset{creator}, multiset{}, true)
  }

  ghost predicate IsRun(states: seq<State>, steps: seq<Step>) {
    && |states| == |steps| + 1
    && Initial(states[0])
    && forall i {:trigger steps[i]} :: 0 <= i < |steps| ==>
         Enabled(states[i], steps[i]) && states[i + 1] == Apply(states[i], steps[i])
  }

  // ---------- The invariant ----------

  ghost predicate MutexInv(s: State) {
    forall t: Thread :: s.mutex == Some(t) <==> OpOf(s, t).HoldsMutex()
  }

  /** The thread holding the mutex is between a change of the count and the matching change of the owner. */
  ghost predicate Unsettled(s: State) {
    s.mutex.Some? && (OpOf(s, s.mutex.value).AcqOwn? || OpOf(s, s.mutex.value).RelSwap?)
  }

  ghost predicate CountInv(s: State) {
    && s.count == |s.cRefs|
    && (!Unsettled(s) ==> (s.strong <==> s.count > 0))
    && (s.mutex.Some? && OpOf(s, s.mutex.value).AcqOwn? ==> !s.strong && s.count == 1)
    && (s.mutex.Some? && OpOf(s, s.mutex.value).RelSwap? ==> s.strong && s.count == 0)
  }

  ghost predicate HoldInv(s: State) {
    && (forall t: Thread :: OpOf(s, t).RelLock? || OpOf(s, t).RelCount? ==> t in s.cRefs)
    && (forall t: Thread :: OpOf(s, t).AcqLock? || OpOf(s, t).AcqCount? ==> t in s.shared || t in s.cRefs)
    && (forall t: Thread :: OpOf(s, t).AcqOwn? ==> t in s.shared)
    && (forall t: Thread :: OpOf(s, t).AcqOwn? || OpOf(s, t).AcqUnlock? ==> t in s.cRefs)
    && (forall t: Thread :: OpOf(s, t) == RelUnlock(false) ==> s.count > 0)
  }

  ghost predicate CoreInv(s: State) {
    MutexInv(s) && CountInv(s) && HoldInv(s)
  }

  ghost predicate Inv(s: State) {
    CoreInv(s) && (s.alive <==> Owned(s))
  }

  lemma InitialInv(s: State)
    requires Initial(s)
    ensures Inv(s)
  {
  }

  lemma HeldIsCounted(s: State, t: Thread)
    requires CountInv(s) && t in s.cRefs
    ensures s.count > 0
  {
    assert s.cRefs == (s.cRefs - multiset{t}) + multiset{t};
  }

  lemma CountedIsOwned(s: State, t: Thread)
    requires CoreInv(s) && t in s.cRefs
    ensures Owned(s)
  {
    HeldIsCounted(s, t);
    if Unsettled(s) {
      assert OpOf(s, s.mutex.value).AcqOwn? ==> s.mutex.value in s.shared;
    }
  }

  /** Whoever can take a step, and so whoever is about to use the mutex, finds the object owned. */
  lemma StepFindsOwner(s: State, step: Step)
    requires CoreInv(s) && Enabled(s, step)
    ensures Owned(s)
  {
    var t := if step.CopyShared? || step.PassCRef? then step.from else step.t;
    if t in s.cRefs {
      CountedIsOwned(s, t);
    } else if t !in s.shared {
      assert !OpOf(s, t).OwnsTmp() ==> OpOf(s, t) == RelUnlock(false) || OpOf(s, t).RelSwap?;
      assert OpOf(s, t).HoldsMutex() ==> s.mutex == Some(t);
    }
  }

  /** Only thread `t` moved. */
  ghost predicate OnlyMoved(s: State, s': State, t: Thread) {
    forall u: Thread :: u != t ==> OpOf(s', u) == OpOf(s, u)
  }

  lemma MultisetTake(m: multiset<Thread>, t: Thread)
    requires t in m
    ensures |m - multiset{t}| == |m| - 1
    ensures forall u: Thread :: u != t ==> (u in m - multiset{t} <==> u in m)
  {
    assert m == (m - multiset{t}) + multiset{t};
  }

  lemma CopySharedInv(s: State, step: Step)
    requires CoreInv(s) && Enabled(s, step) && step.CopyShared?
    ensures CoreInv(Move(s, step))
  {
    assert OnlyMoved(s, Move(s, step), step.from);
  }

  lemma DropSharedInv(s: State, step: Step)
    requires CoreInv(s) && Enabled(s, step) && step.DropShared?
    ensures CoreInv(Move(s, step))
  {
    assert OnlyMoved(s, Move(s, step), step.t);
    MultisetTake(s.shared, step.t);
  }

  lemma PassStepInv(s: State, step: Step)
    requires CoreInv(s) && Enabled(s, step) && step.PassCRef?
    ensures CoreInv(Move(s, step))
  {
    assert OnlyMoved(s, Move(s, step), step.from);
    MultisetTake(s.cRefs, step.from);
  }

  lemma StartStepInv(s: State, step: Step)
    requires CoreInv(s) && Enabled(s, step) && (step.StartAcquire? || step.StartRelease?)
    ensures CoreInv(Move(s, step))
  {
    assert OnlyMoved(s, Move(s, step), step.t);
  }

  lemma AcquireStepInv(s: State, t: Thread)
    requires CoreInv(s) && Enabled(s, Advance(t)) && OpOf(s, t).InAcquire() && !OpOf(s, t).AcqCount?
    ensures CoreInv(Move(s, Advance(t)))
  {
    assert OnlyMoved(s, Move(s, Advance(t)), t);
    assert OpOf(s, t).HoldsMutex() ==> s.mutex == Some(t);
  }

  lemma CountUpInv(s: State, t: Thread)
    requires CoreInv(s) && OpOf(s, t).AcqCount?
    ensures CoreInv(Move(s, Advance(t)))
  {
    var s' := Move(s, Advance(t));
    assert OnlyMoved(s, s', t) && s.mutex == Some(t);
    if t in s.cRefs {
      HeldIsCounted(s, t);
    }
    assert t in s'.cRefs;
    assert CountInv(s');
  }

  lemma ReleaseStepInv(s: State, t: Thread)
    requires CoreInv(s) && Enabled(s, Advance(t)) && !OpOf(s, t).InAcquire() && !OpOf(s, t).RelCount?
    ensures CoreInv(Move(s, Advance(t)))
  {
    assert OnlyMoved(s, Move(s, Advance(t)), t);
    assert OpOf(s, t).HoldsMutex() ==> s.mutex == Some(t);
  }

  lemma CountDownInv(s: State, t: Thread)
    requires CoreInv(s) && OpOf(s, t).RelCount?
    ensures CoreInv(Move(s, Advance(t)))
  {
    var s' := Move(s, Advance(t));
    assert OnlyMoved(s, s', t) && s.mutex == Some(t);
    HeldIsCounted(s, t);
    MultisetTake(s.cRefs, t);
    assert MutexInv(s');
    assert CountInv(s');
  }

  lemma MoveInv(s: State, step: Step)
    requires CoreInv(s) && Enabled(s, step)
    ensures CoreInv(Move(s, step))
  {
    match step
    case CopyShared(_, _) => CopySharedInv(s, step);
    case DropShared(_) => DropSharedInv(s, step);
    case PassCRef(_, _) => PassStepInv(s, step);
    case StartAcquire(_) => StartStepInv(s, step);
    case StartRelease(_) => StartStepInv(s, step);
    case Advance(t) =>
      if OpOf(s, t).AcqCount? {
        CountUpInv(s, t);
      } else if OpOf(s, t).RelCount? {
        CountDownInv(s, t);
      } else if OpOf(s, t).InAcquire() {
        AcquireStepInv(s, t);
      } else {
        ReleaseStepInv(s, t);
      }
  }

  lemma AliveIsSeparate(s: State, alive: bool)
    ensures CoreInv(s) ==> CoreInv(s.(alive := alive))
    ensures Owned(s) <==> Owned(s.(alive := alive))
  {
    assert forall t: Thread :: OpOf(s.(alive := alive), t) == OpOf(s, t);
  }

  lemma StepInv(s: State, step: Step)
    requires Inv(s) && Enabled(s, step)
    ensures Inv(Apply(s, step))
  {
    StepFindsOwner(s, step);
    MoveInv(s, step);
    AliveIsSeparate(Move(s, step), Owned(Move(s, step)));
  }

  lemma {:induction false} RunInv(states: seq<State>, steps: seq<Step>, i: nat)
    requires IsRun(states, steps) && i < |states|
    ensures Inv(states[i])
  {
    if i == 0 {
      InitialInv(states[0]);
    } else {
      RunInv(states, steps, i - 1);
      StepInv(states[i - 1], steps[i - 1]);
    }
  }

  // ---------- What every run keeps ----------

  /** Whenever the mutex is free, the object owns itself exactly if the count is positive. */
  lemma OwnsItselfIffCounted(states: seq<State>, steps: seq<Step>, i: nat)
    requires IsRun(states, steps) && i < |states| && states[i].mutex.None?
    ensures states[i].strong <==> states[i].count > 0
    ensures states[i].count == |states[i].cRefs|
  {
    RunInv(states, steps, i);
  }

  /** The count is positive at every decrement, and an owner exists at every `shared_from_this`. */
  lemma AssertionsHold(states: seq<State>, steps: seq<Step>, i: nat, t: Thread)
    requires IsRun(states, steps) && i < |states|
    ensures OpOf(states[i], t).RelCount? ==> states[i].count > 0
    ensures OpOf(states[i], t).AcqOwn? ==> states[i].alive && states[i].shared != multiset{}
  {
    RunInv(states, steps, i);
    if OpOf(states[i], t).RelCount? {
      HeldIsCounted(states[i], t);
    }
    assert OpOf(states[i], t).AcqOwn? ==> t in states[i].shared;
  }

  /** The object is alive at every step any thread takes, so no thread ever uses its mutex too late. */
  lemma AliveAtEveryStep(states: seq<State>, steps: seq<Step>, i: nat)
    requires IsRun(states, steps) && i < |steps|
    ensures states[i].alive
  {
    RunInv(states, steps, i);
    StepFindsOwner(states[i], steps[i]);
  }

  /** When the object goes, nothing counts it, and every thread has let go of the mutex for good. */
  lemma DestroyedOnlyAtTheEnd(states: seq<State>, steps: seq<Step>, i: nat)
    requires IsRun(states, steps) && i < |states| && !states[i].alive
    ensures states[i].count == 0 && states[i].mutex.None?
    ensures forall t: Thread :: !OpOf(states[i], t).TouchesMutex()
    ensures i == |steps|
  {
    var s := states[i];
    RunInv(states, steps, i);
    forall t: Thread ensures OpOf(s, t).Idle? {
      if OpOf(s, t).HoldsMutex() || (!OpOf(s, t).Idle? && s.mutex.None?) {
        StepFindsOwner(s, Advance(t));
      } else if s.mutex.Some? {
        StepFindsOwner(s, Advance(s.mutex.value));
      }
    }
    assert s.mutex.Some? ==> OpOf(s, s.mutex.value).HoldsMutex();
    if i < |steps| {
      StepFindsOwner(s, steps[i]);
    }
  }

  /** Nothing is leaked: with all references returned and all calls finished, the object is gone. */
  lemma GoneWhenUnreferenced(states: seq<State>, steps: seq<Step>, i: nat)
    requires IsRun(states, steps) && i < |states|
    requires states[i].shared == multiset{} && states[i].cRefs == multiset{}
    requires forall t: Thread :: OpOf(states[i], t).Idle?
    ensures !states[i].alive
  {
    RunInv(states, steps, i);
    assert !Unsettled(states[i]);
  }

  // ---------- Every call counts once ----------

  /** Steps `k` to `e` are one call on thread `t`, from its start to its return. */
  ghost predicate IsCall(states: seq<State>, steps: seq<Step>, k: nat, e: nat, t: Thread, acquire: bool)
    requires |states| == |steps| + 1
  {
    && k < e < |steps| && steps[k] == (if acquire then StartAcquire(t) else StartRelease(t))
    && (forall i :: k < i <= e ==> !OpOf(states[i], t).Idle?)
    && OpOf(states[e + 1], t).Idle?
  }

  /** The `i`-th step changes the count by `d`. */
  ghost predicate Counts(states: seq<State>, i: nat, d: int)
    requires i + 1 < |states|
  {
    states[i + 1].count == states[i].count + d
  }

  /** Up to the `i`-th step, no step of `t` in the call has changed the count, except in the `j`-th step. */
  ghost predicate SteadyBut(states: seq<State>, steps: seq<Step>, k: nat, i: nat, t: Thread, j: nat)
    requires |states| == |steps| + 1 && i <= |steps|
  {
    forall h :: k < h < i && h != j && steps[h] == Advance(t) ==> Counts(states, h, 0)
  }

  predicate BeforeCount(op: Op, acquire: bool) {
    if acquire then op.AcqLock? || op.AcqCount? else op.RelLock? || op.RelCount?
  }

  predicate AfterCount(op: Op, acquire: bool) {
    if acquire then op.AcqOwn? || op.AcqUnlock? else op.RelSwap? || op.RelUnlock? || op.RelDropTmp?
  }

  /** What a step at `op` does to the count. */
  function Change(op: Op): int {
    if op.AcqCount? then 1 else if op.RelCount? then -1 else 0
  }

  lemma OpOrder(op: Op, count: nat, acquire: bool)
    ensures BeforeCount(op, acquire) && Change(op) == 0 ==> BeforeCount(NextOp(op, count), acquire)
    ensures BeforeCount(op, acquire) && Change(op) != 0 ==>
      AfterCount(NextOp(op, count), acquire) && Change(op) == if acquire then 1 else -1
    ensures AfterCount(op, acquire) ==>
      Change(op) == 0 && (AfterCount(NextOp(op, count), acquire) || NextOp(op, count).Idle?)
  {
  }

  /** The count was changed in the `j`-th step. */
  ghost predicate Counted(states: seq<State>, steps: seq<Step>, k: nat, i: nat, t: Thread, acquire: bool, j: nat)
    requires |states| == |steps| + 1 && i <= |steps|
  {
    k < j < i && steps[j] == Advance(t) && Counts(states, j, if acquire then 1 else -1)
  }

  /** The call has the count still before it, or behind it in the `j`-th step. */
  ghost predicate CallAt(states: seq<State>, steps: seq<Step>, k: nat, i: nat, t: Thread, acquire: bool, j: nat)
    requires |states| == |steps| + 1 && k < i <= |steps|
  {
    && SteadyBut(states, steps, k, i, t, j)
    && (|| (BeforeCount(OpOf(states[i], t), acquire) && i <= j)
        || (AfterCount(OpOf(states[i], t), acquire) && Counted(states, steps, k, i, t, acquire, j)))
  }

  lemma OwnCountStep(s: State, t: Thread)
    requires Inv(s) && Enabled(s, Advance(t))
    ensures var s' := Apply(s, Advance(t));
      OpOf(s', t) == NextOp(OpOf(s, t), s.count) && s'.count == s.count + Change(OpOf(s, t))
  {
    if OpOf(s, t).RelCount? {
      HeldIsCounted(s, t);
    }
  }

  lemma OthersLeaveCall(s: State, step: Step, t: Thread)
    requires Enabled(s, step) && step != Advance(t) && !OpOf(s, t).Idle?
    ensures OpOf(Apply(s, step), t) == OpOf(s, t)
  {
  }

  lemma RunOwnStep(states: seq<State>, steps: seq<Step>, i: nat, t: Thread)
    requires IsRun(states, steps) && i < |steps| && steps[i] == Advance(t)
    ensures OpOf(states[i + 1], t) == NextOp(OpOf(states[i], t), states[i].count)
    ensures Counts(states, i, Change(OpOf(states[i], t)))
  {
    RunInv(states, steps, i);
    OwnCountStep(states[i], t);
  }

  lemma RunOthersStep(states: seq<State>, steps: seq<Step>, i: nat, t: Thread)
    requires IsRun(states, steps) && i < |steps| && steps[i] != Advance(t) && !OpOf(states[i], t).Idle?
    ensures OpOf(states[i + 1], t) == OpOf(states[i], t)
  {
    OthersLeaveCall(states[i], steps[i], t);
  }

  lemma SteadyOneMore(states: seq<State>, steps: seq<Step>, k: nat, i: nat, t: Thread, j: nat, j': nat)
    requires |states| == |steps| + 1 && k < i < |steps| && SteadyBut(states, steps, k, i, t, j)
    requires j' == j || (i <= j && i <= j')
    requires i == j' || steps[i] != Advance(t) || Counts(states, i, 0)
    ensures SteadyBut(states, steps, k, i + 1, t, j')
  {
  }

  lemma RunCall(states: seq<State>, steps: seq<Step>, k: nat, i: nat, t: Thread, acquire: bool, j: nat)
    returns (j': nat)
    requires IsRun(states, steps) && k < i < |steps| && CallAt(states, steps, k, i, t, acquire, j)
    ensures !OpOf(states[i + 1], t).Idle? ==> CallAt(states, steps, k, i + 1, t, acquire, j')
    ensures OpOf(states[i + 1], t).Idle? ==>
      Counted(states, steps, k, i, t, acquire, j') && SteadyBut(states, steps, k, i + 1, t, j')
  {
    var op := OpOf(states[i], t);
    j' := if j < i then j else |steps|;
    if steps[i] == Advance(t) {
      RunOwnStep(states, steps, i, t);
      OpOrder(op, states[i].count, acquire);
      j' := if Change(op) != 0 then i else j';
    } else {
      RunOthersStep(states, steps, i, t);
    }
    SteadyOneMore(states, steps, k, i, t, j, j');
  }

  lemma {:induction false} CallUnderWay(states: seq<State>, steps: seq<Step>, k: nat, i: nat, t: Thread, acquire: bool)
    returns (j: nat)
    requires IsRun(states, steps) && k < i <= |steps|
    requires steps[k] == if acquire then StartAcquire(t) else StartRelease(t)
    requires forall h :: k < h <= i ==> !OpOf(states[h], t).Idle?
    ensures CallAt(states, steps, k, i, t, acquire, j)
    decreases i
  {
    if i == k + 1 {
      j := |steps|;
      assert states[i] == Apply(states[k], steps[k]);
    } else {
      j := CallUnderWay(states, steps, k, i - 1, t, acquire);
      j := RunCall(states, steps, k, i - 1, t, acquire, j);
    }
  }

  /** From its start to its return, an acquire counts up once and a release counts down once. */
  lemma CallCountsOnce(states: seq<State>, steps: seq<Step>, k: nat, e: nat, t: Thread, acquire: bool) returns (j: nat)
    requires IsRun(states, steps) && IsCall(states, steps, k, e, t, acquire)
    ensures Counted(states, steps, k, e, t, acquire, j)
    ensures SteadyBut(states, steps, k, e + 1, t, j)
  {
    j := CallUnderWay(states, steps, k, e, t, acquire);
    j := RunCall(states, steps, k, e, t, acquire, j);
  }
}
