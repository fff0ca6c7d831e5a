/**
 The close protocol of a streaming operation (source/iot/MqttRequestResponseClient.cpp).

 A `StreamingOperation` wrapper is shared by any number of threads. `Open` and the native callbacks
 read `m_closed` under the read side of a reader/writer lock. The destructor of the last wrapper runs
 `Close`, which takes the write side unless it already runs on the event-loop thread. The model is a
 transition system: one program counter per thread, one for the callback on the event loop, and the
 shared fields. Every step is one access to shared state, so a run is any interleaving of them.

 What the model takes from the surroundings:
   - `Open` runs only on a thread that holds a wrapper reference.
   - `Close` runs only from the destructor of the last wrapper reference, on whichever thread drops it.
   - The event loop runs callbacks one at a time, and user handlers return.
   - The termination callback comes after the release, as an event of its own on the loop.
   - Callbacks may otherwise come at any time until termination, also after the release.
 */
module StreamClose {
  import opened Options
  import opened Schedules

  type Thread = nat

  /** The event-loop thread of the protocol client. */
  const LOOP: Thread := 0

  datatype Kind = SubscriptionStatus | IncomingPublish

  /** Where a thread stands inside `Open` or `Close`. */
  datatype Op =
    | Idle
    | OpenLock | OpenCheck | OpenActivate | OpenUnlock
    | CloseLock | CloseCheck | CloseMark | CloseTake | CloseUnlock(toRelease: bool) | CloseRelease | CloseDone
  {
    predicate InOpen() { OpenLock? || OpenCheck? || OpenActivate? || OpenUnlock? }
    predicate HoldsRead() { OpenCheck? || OpenActivate? || OpenUnlock? }
    predicate InClose() { !Idle? && !InOpen() }
    predicate InWriteSection() { CloseCheck? || CloseMark? || CloseTake? || CloseUnlock? }
  }

  /** Where the event loop stands inside a native callback. */
  datatype Callback =
    | NoCallback
    | CbLock(kind: Kind) | CbCheck(kind: Kind) | CbInvoke(kind: Kind) | CbHandler(kind: Kind) | CbUnlock
  {
    predicate HoldsRead() { CbCheck? || CbInvoke? || CbHandler? || CbUnlock? }
  }

  /** A live `StreamReadLock` object: one per `Open`, one for the callback on the loop. */
  datatype ReadGuard = OpenGuard(t: Thread) | CallbackGuard

  datatype State = State(
    ops: map<Thread, Op>,
    callback: Callback,
    handlers: set<Kind>,          // user handlers present in the options
    started: seq<Kind>,           // user handlers started so far
    refs: multiset<Thread>,       // wrapper references, by the thread that holds them
    closer: Option<Thread>,       // the thread that dropped the last reference
    readers: set<ReadGuard>,      // holders of the read lock
    writer: Option<Thread>,       // holder of the write lock
    closed: bool,                 // m_closed
    stream: bool,                 // m_stream != nullptr
    activated: multiset<Thread>,  // calls of the native activation, by thread
    releases: nat,                // calls of the native release
    wrapperAlive: bool,           // the wrapper's share in the impl
    handleAlive: bool,            // the native handle's share in the impl
    implAlive: bool)

  function OpOf(s: State, t: Thread): Op {
    if t in s.ops then s.ops[t] else Idle
  }

  datatype Step =
    | CopyRef(from: Thread, to: Thread)
    | DropRef(t: Thread)
    | StartOpen(t: Thread)
    | StartCallback(kind: Kind)
    | Terminate
    | Advance(t: Thread)
    | AdvanceCallback

  /** User code runs on `t`: outside `Open` and `Close` and, on the loop, outside callback code. */
  predicate UserCode(s: State, t: Thread) {
    OpOf(s, t).Idle? && (t == LOOP ==> s.callback.NoCallback? || s.callback.CbHandler?)
  }

  predicate LoopFree(s: State) {
    s.callback.NoCallback? && OpOf(s, LOOP).Idle?
  }

  predicate AdvanceEnabled(s: State, t: Thread) {
    match OpOf(s, t)
    case Idle => false
    case OpenLock => s.writer.None?
    case CloseLock => t == LOOP || (s.writer.None? && s.readers == {})
    case _ => true
  }

  predicate CallbackEnabled(s: State) {
    && !s.callback.NoCallback?
    && OpOf(s, LOOP).Idle?
    && (s.callback.CbLock? ==> s.writer.None?)
  }

  predicate Enabled(s: State, step: Step) {
    match step
    case CopyRef(from, to) => UserCode(s, from) && from in s.refs
    case DropRef(t) => UserCode(s, t) && t in s.refs
    case StartOpen(t) => UserCode(s, t) && t in s.refs
    case StartCallback(kind) => s.handleAlive && LoopFree(s)
    case Terminate => s.handleAlive && s.releases > 0 && LoopFree(s)
    case Advance(t) => AdvanceEnabled(s, t)
    case AdvanceCallback => CallbackEnabled(s)
  }

  /** The next program point of `Open` or `Close`, given what the thread reads at this one. */
  function NextOp(op: Op, closed: bool, stream: bool): Op {
    match op
    case Idle => Idle
    case OpenLock => OpenCheck
    case OpenCheck => if closed then OpenUnlock else OpenActivate
    case OpenActivate => OpenUnlock
    case OpenUnlock => Idle
    case CloseLock => CloseCheck
    case CloseCheck => if closed then CloseUnlock(false) else CloseMark
    case CloseMark => CloseTake
    case CloseTake => CloseUnlock(stream)
    case CloseUnlock(toRelease) => if toRelease then CloseRelease else CloseDone
    case CloseRelease => CloseDone
    case CloseDone => Idle
  }

  /** What a thread writes at this program point, and the calls it makes of the native library. */
  function Effect(s: State, t: Thread): State {
    var op := OpOf(s, t);
    s.(readers := ReadersAfter(s.readers, t, op),
       writer := WriterAfter(s.writer, t, op),
       closed := s.closed || op.CloseMark?,
       stream := s.stream && !op.CloseTake?,
       activated := if op.OpenActivate? then s.activated + multiset{t} else s.activated,
       releases := if op.CloseRelease? then s.releases + 1 else s.releases,
       wrapperAlive := s.wrapperAlive && !op.CloseDone?,
       implAlive := if op.CloseDone? then s.handleAlive else s.implAlive)
  }

  function ReadersAfter(readers: set<ReadGuard>, t: Thread, op: Op): set<ReadGuard> {
    if op.OpenLock? then readers + {OpenGuard(t)}
    else if op.OpenUnlock? then readers - {OpenGuard(t)}
    else readers
  }

  /** `Close` takes the write lock, unless it runs on the loop. */
  function WriterAfter(writer: Option<Thread>, t: Thread, op: Op): Option<Thread> {
    if t != LOOP && op.CloseLock? then Some(t)
    else if t != LOOP && op.CloseUnlock? then None
    else writer
  }

  function AdvanceOp(s: State, t: Thread): State
    requires AdvanceEnabled(s, t)
  {
    Effect(s, t).(ops := s.ops[t := NextOp(OpOf(s, t), s.closed, s.stream)])
  }

  /** The next program point of a callback, given what it reads at this one. */
  function NextCallback(callback: Callback, closed: bool, handlers: set<Kind>): Callback {
    match callback
    case NoCallback => NoCallback
    case CbLock(kind) => CbCheck(kind)
    case CbCheck(kind) => if !closed && kind in handlers then CbInvoke(kind) else CbUnlock
    case CbInvoke(kind) => CbHandler(kind)
    case CbHandler(_) => CbUnlock
    case CbUnlock => NoCallback
  }

  function AdvanceCb(s: State): State
    requires CallbackEnabled(s)
  {
    var cb := s.callback;
    s.(callback := NextCallback(cb, s.closed, s.handlers),
       readers := if cb.CbLock? then s.readers + {CallbackGuard}
                  else if cb.CbUnlock? then s.readers - {CallbackGuard} else s.readers,
       started := if cb.CbInvoke? then s.started + [cb.kind] else s.started)
  }

  function Apply(s: State, step: Step): State
    requires Enabled(s, step)
  {
    match step
    case CopyRef(from, to) => s.(refs := s.refs + multiset{to})
    case DropRef(t) =>
      var last := s.refs - multiset{t} == multiset{};
      s.(refs := s.refs - multiset{t},
         closer := if last then Some(t) else s.closer,
         ops := if last then s.ops[t := CloseLock] else s.ops)
    case StartOpen(t) => s.(ops := s.ops[t := OpenLock])
    case StartCallback(kind) => s.(callback := CbLock(kind))
    case Terminate => s.(handleAlive := false, implAlive := s.wrapperAlive)
    case Advance(t) => AdvanceOp(s, t)
    case AdvanceCallback => AdvanceCb(s)
  }

  /** What `StreamingOperation::Create` leaves behind: one wrapper reference, an open stream. */
  ghost predicate Initial(s: State) {
    exists creator: Thread ::
      s == State(map[], NoCallback, s.handlers, [], multiset{creator}, None, {}, None, false, true, multiset{}, 0,
                 true, true, true)
  }

  ghost predicate IsRun(states: seq<State>, steps: seq<Step>) {
    && |states| == |steps| + 1
    && Initial(states[0])
    && forall i {:trigger steps[i]} :: 0 <= i < |steps| ==>
         Enabled(states[i], steps[i]) && states[i + 1] == Apply(states[i], steps[i])
  }

  // ---------- The invariant ----------

  ghost predicate LockInv(s: State) {
    && (forall t: Thread :: OpenGuard(t) in s.readers <==> OpOf(s, t).HoldsRead())
    && (CallbackGuard in s.readers <==> s.callback.HoldsRead())
    && (forall t: Thread :: s.writer == Some(t) <==> t != LOOP && OpOf(s, t).InWriteSection())
    && (s.writer.Some? ==> s.readers == {})
    && (!OpOf(s, LOOP).Idle? ==> s.callback.NoCallback? || s.callback.CbHandler?)
  }

  ghost predicate RefInv(s: State) {
    && (s.refs == multiset{} <==> s.closer.Some?)
    && (s.closer.None? ==> s.wrapperAlive)
    && (forall t: Thread :: OpOf(s, t).InOpen() ==> t in s.refs)
    && (forall t: Thread :: OpOf(s, t).InClose() <==> s.closer == Some(t) && s.wrapperAlive)
  }

  /** The shared fields at every point of `Close`. */
  ghost predicate PhaseAt(s: State, op: Op) {
    match op
    case CloseLock => !s.closed && s.stream && s.releases == 0
    case CloseCheck => !s.closed && s.stream && s.releases == 0
    case CloseMark => !s.closed && s.stream && s.releases == 0
    case CloseTake => s.closed && s.stream && s.releases == 0
    case CloseUnlock(toRelease) => toRelease && s.closed && !s.stream && s.releases == 0
    case CloseRelease => s.closed && !s.stream && s.releases == 0
    case CloseDone => s.closed && !s.stream && s.releases == 1
    case _ => true
  }

  ghost predicate PhaseInv(s: State) {
    && (s.closer.None? ==> !s.closed && s.stream && s.releases == 0)
    && (s.closer.Some? && s.wrapperAlive ==> PhaseAt(s, OpOf(s, s.closer.value)))
    && (!s.wrapperAlive ==> s.closed && !s.stream && s.releases == 1)
    && (s.callback.CbInvoke? ==> !s.closed)
  }

  ghost predicate LifeInv(s: State) {
    && (s.implAlive <==> s.wrapperAlive || s.handleAlive)
    && (!s.handleAlive ==> s.releases == 1 && s.callback.NoCallback?)
  }

  ghost predicate Inv(s: State) {
    LockInv(s) && RefInv(s) && PhaseInv(s) && LifeInv(s)
  }

  lemma InitialInv(s: State)
    requires Initial(s)
    ensures Inv(s)
  {
  }

  /** Only thread `t` moved. */
  ghost predicate OnlyMoved(s: State, s': State, t: Thread) {
    forall u: Thread :: u != t ==> OpOf(s', u) == OpOf(s, u)
  }

  lemma CopyRefInv(s: State, step: Step)
    requires Inv(s) && Enabled(s, step) && step.CopyRef?
    ensures Inv(Apply(s, step))
  {
    var s' := Apply(s, step);
    assert OnlyMoved(s, s', step.from);
    assert step.from in s.refs && step.to in s'.refs;
  }

  lemma DropSharedRefInv(s: State, t: Thread)
    requires Inv(s) && Enabled(s, DropRef(t)) && s.refs != multiset{t}
    ensures Inv(Apply(s, DropRef(t)))
  {
    var s' := Apply(s, DropRef(t));
    DropRefKeepsOthers(s.refs, t);
    assert OnlyMoved(s, s', t) && OpOf(s', t) == OpOf(s, t);
    LockFramed(s, s');
    assert RefInv(s');
  }

  lemma DropLastRefInv(s: State, t: Thread)
    requires Inv(s) && Enabled(s, DropRef(t)) && s.refs == multiset{t}
    ensures Inv(Apply(s, DropRef(t)))
  {
    var s' := Apply(s, DropRef(t));
    assert s'.refs == multiset{};
    assert OnlyMoved(s, s', t);
    LockFramed(s, s');
    assert RefInv(s');
  }

  lemma DropRefKeepsOthers(refs: multiset<Thread>, t: Thread)
    requires t in refs && refs != multiset{t}
    ensures forall u: Thread :: u != t ==> (u in refs - multiset{t} <==> u in refs)
    ensures refs - multiset{t} != multiset{}
  {
    assert refs == (refs - multiset{t}) + multiset{t};
  }

  /** The lock invariant survives a step that touches no lock and moves threads only where it is silent. */
  lemma LockFramed(s: State, s': State)
    requires LockInv(s)
    requires s'.readers == s.readers && s'.writer == s.writer
    requires forall t: Thread :: OpOf(s', t).HoldsRead() == OpOf(s, t).HoldsRead()
    requires forall t: Thread :: OpOf(s', t).InWriteSection() == OpOf(s, t).InWriteSection()
    requires s'.callback.HoldsRead() == s.callback.HoldsRead()
    requires !OpOf(s', LOOP).Idle? ==> s'.callback.NoCallback? || s'.callback.CbHandler?
    ensures LockInv(s')
  {
  }

  lemma StartOpenInv(s: State, step: Step)
    requires Inv(s) && Enabled(s, step) && step.StartOpen?
    ensures Inv(Apply(s, step))
  {
    assert OnlyMoved(s, Apply(s, step), step.t);
  }

  lemma OpenStepInv(s: State, t: Thread)
    requires Inv(s) && AdvanceEnabled(s, t) && OpOf(s, t).InOpen()
    ensures Inv(AdvanceOp(s, t))
  {
    assert OnlyMoved(s, AdvanceOp(s, t), t);
  }

  lemma CloseStepInv(s: State, t: Thread)
    requires Inv(s) && AdvanceEnabled(s, t) && OpOf(s, t).InClose()
    ensures Inv(AdvanceOp(s, t))
  {
    var s' := AdvanceOp(s, t);
    assert OnlyMoved(s, s', t);
    assert s.closer == Some(t);
    assert s.callback.CbInvoke? ==> CallbackGuard in s.readers;
  }

  lemma LoopEventInv(s: State, step: Step)
    requires Inv(s) && Enabled(s, step) && (step.StartCallback? || step.Terminate?)
    ensures Inv(Apply(s, step))
  {
    var s' := Apply(s, step);
    assert OnlyMoved(s, s', LOOP) && OpOf(s', LOOP) == OpOf(s, LOOP);
    LockFramed(s, s');
  }

  lemma CallbackLockInv(s: State)
    requires Inv(s) && CallbackEnabled(s) && (s.callback.CbLock? || s.callback.CbUnlock?)
    ensures LockInv(AdvanceCb(s))
  {
    var s' := AdvanceCb(s);
    assert OnlyMoved(s, s', LOOP) && OpOf(s', LOOP) == OpOf(s, LOOP);
  }

  lemma CallbackStepInv(s: State)
    requires Inv(s) && CallbackEnabled(s)
    ensures Inv(AdvanceCb(s))
  {
    var s' := AdvanceCb(s);
    assert OnlyMoved(s, s', LOOP) && OpOf(s', LOOP) == OpOf(s, LOOP);
    if s.callback.CbLock? || s.callback.CbUnlock? {
      CallbackLockInv(s);
    } else {
      LockFramed(s, s');
    }
  }

  /** Every step of every thread keeps the invariant. */
  lemma StepInv(s: State, step: Step)
    requires Inv(s) && Enabled(s, step)
    ensures Inv(Apply(s, step))
  {
    match step
    case CopyRef(_, _) => CopyRefInv(s, step);
    case DropRef(t) =>
      if s.refs == multiset{t} {
        DropLastRefInv(s, t);
      } else {
        DropSharedRefInv(s, t);
      }
    case StartOpen(_) => StartOpenInv(s, step);
    case Advance(t) =>
      if OpOf(s, t).InOpen() {
        OpenStepInv(s, t);
      } else {
        CloseStepInv(s, t);
      }
    case AdvanceCallback => CallbackStepInv(s);
    case _ => LoopEventInv(s, step);
  }

  lemma {:induction false} RunInv(states: seq<State>, steps: seq<Step>, i: nat)
    requires IsRun(states, steps) && i < |states|
    ensures Inv(states[i])
  {
    if i == 0 {
      InitialInv(states[0]);
    } else {
      RunInv(states, steps, i - 1);
      StepInv(states[i - 1], steps[i - 1]);
    }
  }

  // ---------- No handler once the stream is closed ----------

  predicate StartsHandler(s: State, step: Step) {
    step.AdvanceCallback? && s.callback.CbInvoke?
  }

  predicate HandlerRunning(s: State) {
    s.callback.CbHandler?
  }

  lemma ClosedStays(s: State, step: Step)
    requires s.closed && Enabled(s, step)
    ensures Apply(s, step).closed
  {
    if step.Advance? {
      assert AdvanceOp(s, step.t).closed;
    }
  }

  lemma {:induction false} ClosedForGood(states: seq<State>, steps: seq<Step>, i: nat, j: nat)
    requires IsRun(states, steps) && i <= j < |states| && states[i].closed
    ensures states[j].closed
    decreases j
  {
    if i < j {
      ClosedForGood(states, steps, i, j - 1);
      ClosedStays(states[j - 1], steps[j - 1]);
    }
  }

  /** In every run, no user handler starts once `m_closed` has been set. */
  lemma NoHandlerStartsAfterClose(states: seq<State>, steps: seq<Step>, i: nat, j: nat)
    requires IsRun(states, steps) && i <= j < |steps| && states[i].closed
    ensures !StartsHandler(states[j], steps[j])
  {
    ClosedForGood(states, steps, i, j);
    RunInv(states, steps, j);
  }

  /** The step with which a `Close` off the event loop leaves its critical section. */
  predicate LeavesWriteSection(s: State, step: Step) {
    step.Advance? && step.t != LOOP && OpOf(s, step.t).CloseUnlock?
  }

  lemma LeavingFindsNoHandler(s: State, step: Step)
    requires Inv(s) && Enabled(s, step) && LeavesWriteSection(s, step)
    ensures Apply(s, step).closed && !HandlerRunning(Apply(s, step))
  {
    assert s.writer == Some(step.t);
    assert s.closer == Some(step.t);
  }

  lemma ClosedStaysQuiet(s: State, step: Step)
    requires Inv(s) && Enabled(s, step) && s.closed && !HandlerRunning(s)
    ensures Apply(s, step).closed && !HandlerRunning(Apply(s, step))
  {
  }

  /** Once a `Close` off the loop has left its critical section, no handler is running, then or later. */
  lemma {:induction false} QuietAfterOffLoopClose(states: seq<State>, steps: seq<Step>, i: nat, j: nat)
    requires IsRun(states, steps) && i < j < |states| && LeavesWriteSection(states[i], steps[i])
    ensures states[j].closed && !HandlerRunning(states[j])
    decreases j
  {
    RunInv(states, steps, j - 1);
    if i + 1 == j {
      LeavingFindsNoHandler(states[i], steps[i]);
    } else {
      QuietAfterOffLoopClose(states, steps, i, j - 1);
      ClosedStaysQuiet(states[j - 1], steps[j - 1]);
    }
  }

  // ---------- Every callback starts the handler it is for ----------

  /** Steps `k` to `e` are one callback of kind `kind`, from its start to its return. */
  ghost predicate IsCallback(states: seq<State>, steps: seq<Step>, k: nat, e: nat, kind: Kind)
    requires |states| == |steps| + 1
  {
    && k < e < |steps| && steps[k] == StartCallback(kind)
    && (forall i :: k < i <= e ==> !states[i].callback.NoCallback?)
    && states[e + 1].callback.NoCallback?
  }

  /** In the `j`-th step the callback takes the read lock. */
  ghost predicate TakesReadLockAt(states: seq<State>, j: nat)
    requires j + 1 < |states|
  {
    CallbackGuard !in states[j].readers && CallbackGuard in states[j + 1].readers
  }

  /** What a callback of kind `kind` has started, if `before` was started before it. */
  function StartedBy(before: seq<Kind>, due: bool, kind: Kind): seq<Kind> {
    if due then before + [kind] else before
  }

  /** A callback before it has the read lock. */
  ghost predicate Arriving(s: State, kind: Kind, before: seq<Kind>) {
    s.callback == CbLock(kind) && s.started == before
  }

  /** A callback that found the stream open or closed when it took the read lock. */
  ghost predicate Delivering(s: State, kind: Kind, before: seq<Kind>, open: bool) {
    var due := open && kind in s.handlers;
    match s.callback
    case CbCheck(k) => k == kind && s.started == before && s.closed == !open
    case CbInvoke(k) => k == kind && s.started == before && due
    case CbHandler(k) => k == kind && s.started == StartedBy(before, true, kind) && due
    case CbUnlock => s.started == StartedBy(before, due, kind)
    case _ => false
  }

  /** A step inside `Open` or `Close` leaves callbacks alone and writes `m_closed` only where `Close` marks it. */
  lemma OpLeavesCallback(s: State, t: Thread)
    requires AdvanceEnabled(s, t)
    ensures var s' := AdvanceOp(s, t);
      && s'.callback == s.callback && s'.started == s.started && s'.handlers == s.handlers
      && (!OpOf(s, t).CloseMark? ==> s'.closed == s.closed)
  {
  }

  /** `Close` does not mark the stream while a callback reads the mark. */
  lemma NoMarkDuringCheck(s: State, t: Thread)
    requires Inv(s) && s.callback.CbCheck?
    ensures !OpOf(s, t).CloseMark?
  {
    assert CallbackGuard in s.readers;
  }

  /** A step that is not the callback's own leaves alone what the callback has read and started. */
  lemma OthersLeaveCallback(s: State, step: Step)
    requires Inv(s) && Enabled(s, step) && !step.AdvanceCallback? && !s.callback.NoCallback?
    ensures var s' := Apply(s, step);
      && s'.callback == s.callback && s'.started == s.started && s'.handlers == s.handlers
      && (s.callback.CbCheck? ==> s'.closed == s.closed)
  {
    if step.Advance? {
      OpLeavesCallback(s, step.t);
      if s.callback.CbCheck? {
        NoMarkDuringCheck(s, step.t);
      }
    }
  }

  lemma DeliveryStep(s: State, step: Step, kind: Kind, before: seq<Kind>, open: bool)
    requires Inv(s) && Enabled(s, step) && Delivering(s, kind, before, open)
    ensures Apply(s, step).handlers == s.handlers
    ensures var s' := Apply(s, step);
      if s'.callback.NoCallback? then s'.started == StartedBy(before, open && kind in s.handlers, kind)
      else Delivering(s', kind, before, open)
  {
    if !step.AdvanceCallback? {
      OthersLeaveCallback(s, step);
    }
  }

  lemma ArrivalStep(s: State, step: Step, kind: Kind, before: seq<Kind>)
    requires Inv(s) && Enabled(s, step) && Arriving(s, kind, before)
    ensures var s' := Apply(s, step);
      && s'.handlers == s.handlers
      && (Arriving(s', kind, before) ||
          (CallbackGuard !in s.readers && CallbackGuard in s'.readers && Delivering(s', kind, before, !s'.closed)))
  {
    if !step.AdvanceCallback? {
      OthersLeaveCallback(s, step);
    }
  }

  /** A callback under way has not got the lock yet, or got it in step `j`. */
  ghost predicate UnderWay(states: seq<State>, steps: seq<Step>, k: nat, i: nat, kind: Kind, j: nat)
    requires |states| == |steps| + 1 && k < i < |states|
  {
    && states[i].handlers == states[k].handlers
    && (|| Arriving(states[i], kind, states[k].started)
        || (k < j < i && TakesReadLockAt(states, j) &&
            Delivering(states[i], kind, states[k].started, !states[j + 1].closed)))
  }

  lemma RunUnderWay(states: seq<State>, steps: seq<Step>, k: nat, i: nat, kind: Kind, j: nat) returns (j': nat)
    requires IsRun(states, steps) && k < i < |steps| && UnderWay(states, steps, k, i, kind, j)
    requires !states[i + 1].callback.NoCallback?
    ensures UnderWay(states, steps, k, i + 1, kind, j')
  {
    RunInv(states, steps, i);
    assert Enabled(states[i], steps[i]);
    j' := j;
    if Arriving(states[i], kind, states[k].started) {
      ArrivalStep(states[i], steps[i], kind, states[k].started);
      j' := i;
    } else {
      DeliveryStep(states[i], steps[i], kind, states[k].started, !states[j + 1].closed);
    }
  }

  lemma {:induction false} CallbackUnderWay(states: seq<State>, steps: seq<Step>, k: nat, i: nat, kind: Kind)
    returns (j: nat)
    requires IsRun(states, steps) && k < i < |states| && steps[k] == StartCallback(kind)
    requires forall h :: k < h <= i ==> !states[h].callback.NoCallback?
    ensures UnderWay(states, steps, k, i, kind, j)
    decreases i
  {
    if i == k + 1 {
      j := 0;
      assert states[i] == Apply(states[k], steps[k]);
    } else {
      j := CallbackUnderWay(states, steps, k, i - 1, kind);
      j := RunUnderWay(states, steps, k, i - 1, kind, j);
    }
  }

  /**
   From its start to its return a callback starts exactly one handler, the one it is for, if there is one and the
   stream was not closed when the callback took the read lock. Otherwise it starts none.
   */
  lemma CallbackStartsItsHandler(states: seq<State>, steps: seq<Step>, k: nat, e: nat, kind: Kind) returns (j: nat)
    requires IsRun(states, steps) && IsCallback(states, steps, k, e, kind)
    ensures k < j < e && TakesReadLockAt(states, j)
    ensures states[e + 1].started ==
      StartedBy(states[k].started, kind in states[k].handlers && !states[j + 1].closed, kind)
    ensures kind in states[k].handlers && !states[e + 1].closed ==>
      states[e + 1].started == states[k].started + [kind]
  {
    j := CallbackUnderWay(states, steps, k, e, kind);
    RunInv(states, steps, e);
    assert Enabled(states[e], steps[e]);
    if Arriving(states[e], kind, states[k].started) {
      ArrivalStep(states[e], steps[e], kind, states[k].started);
    } else {
      DeliveryStep(states[e], steps[e], kind, states[k].started, !states[j + 1].closed);
    }
    if states[j + 1].closed {
      ClosedForGood(states, steps, j + 1, e + 1);
    }
  }

  lemma StartedStep(s: State, step: Step)
    requires Enabled(s, step) && !step.AdvanceCallback?
    ensures Apply(s, step).started == s.started && Apply(s, step).handlers == s.handlers
  {
    match step
    case CopyRef(_, to) => assert Apply(s, step) == s.(refs := s.refs + multiset{to});
    case DropRef(t) => DropLeavesHandlers(s, t);
    case StartOpen(_) =>
    case StartCallback(_) =>
    case Terminate =>
    case Advance(t) => OpLeavesCallback(s, t);
  }

  lemma DropLeavesHandlers(s: State, t: Thread)
    requires Enabled(s, DropRef(t))
    ensures Apply(s, DropRef(t)).started == s.started && Apply(s, DropRef(t)).handlers == s.handlers
  {
  }

  /** A handler that has just been started is running. */
  lemma StartedHandlerRuns(states: seq<State>, steps: seq<Step>, i: nat, kind: Kind)
    requires IsRun(states, steps) && i < |steps|
    ensures states[i + 1].started == states[i].started + [kind] <==>
      StartsHandler(states[i], steps[i]) && states[i + 1].callback == CbHandler(kind)
  {
    assert Enabled(states[i], steps[i]);
    if !steps[i].AdvanceCallback? {
      StartedStep(states[i], steps[i]);
    }
    var before := states[i].started;
    assert |before + [kind]| != |before| && (before + [kind])[|before|] == kind;
    if states[i].callback.CbInvoke? {
      assert (before + [states[i].callback.kind])[|before|] == states[i].callback.kind;
    }
  }

  /** Outside callbacks no handler is started. */
  lemma OnlyCallbacksStartHandlers(states: seq<State>, steps: seq<Step>, i: nat)
    requires IsRun(states, steps) && i < |steps| && states[i].callback.NoCallback?
    ensures states[i + 1].started == states[i].started && states[i + 1].handlers == states[i].handlers
  {
    assert Enabled(states[i], steps[i]);
    StartedStep(states[i], steps[i]);
  }

  // ---------- Locking discipline ----------

  predicate HoldsReadLock(s: State, t: Thread) {
    OpenGuard(t) in s.readers || (t == LOOP && CallbackGuard in s.readers)
  }

  predicate WaitsForWriteLock(s: State, t: Thread) {
    t != LOOP && OpOf(s, t).CloseLock?
  }

  /** No thread asks for the write lock while it holds the read lock. */
  lemma NeverUpgrades(states: seq<State>, steps: seq<Step>, i: nat, t: Thread)
    requires IsRun(states, steps) && i < |states| && HoldsReadLock(states[i], t)
    ensures !WaitsForWriteLock(states[i], t)
  {
    RunInv(states, steps, i);
  }

  /** Whoever writes `m_closed`, no other thread is inside a section that reads it, locked or not. */
  lemma CloseWritesAlone(states: seq<State>, steps: seq<Step>, i: nat, t: Thread, u: Thread)
    requires IsRun(states, steps) && i < |steps| && steps[i] == Advance(t) && u != t
    requires OpOf(states[i], t).CloseMark? || OpOf(states[i], t).CloseTake?
    ensures !HoldsReadLock(states[i], u) && states[i].writer != Some(u)
    ensures OpOf(states[i], u).Idle?
  {
    RunInv(states, steps, i);
    var s := states[i];
    assert s.closer == Some(t);
    assert OpOf(s, u).InOpen() ==> u in s.refs;
    assert OpOf(s, u).InClose() ==> s.closer == Some(u);
  }

  // ---------- Lifetimes ----------

  /** No thread is inside `Open`, `Close` or a callback. */
  ghost predicate Quiescent(s: State) {
    s.callback.NoCallback? && forall t: Thread :: OpOf(s, t).Idle?
  }

  predicate TouchesImpl(step: Step) {
    step.Advance? || step.AdvanceCallback? || step.StartOpen?
  }

  predicate Activates(s: State, step: Step) {
    step.Advance? && OpOf(s, step.t).OpenActivate?
  }

  /** The native stream is activated only before its release, and released at most once. */
  lemma ActivatedOnlyWhileUnreleased(states: seq<State>, steps: seq<Step>, i: nat)
    requires IsRun(states, steps) && i < |steps|
    ensures states[i].releases <= 1
    ensures Activates(states[i], steps[i]) ==> states[i].stream && states[i].releases == 0
  {
    RunInv(states, steps, i);
    if steps[i].Advance? {
      assert OpOf(states[i], steps[i].t).InOpen() ==> steps[i].t in states[i].refs;
    }
    if states[i].closer.Some? && states[i].wrapperAlive {
      assert OpOf(states[i], states[i].closer.value).InClose();
    }
  }

  /** An `Open` through a held reference never finds the stream closed: it always activates. */
  lemma OpenAlwaysActivates(states: seq<State>, steps: seq<Step>, i: nat, t: Thread)
    requires IsRun(states, steps) && i < |steps| && steps[i] == Advance(t) && OpOf(states[i], t).OpenCheck?
    ensures Activates(states[i + 1], Advance(t))
  {
    RunInv(states, steps, i);
    assert t in states[i].refs;
  }

  /** Steps `k` to `e` are one call of `Open` on thread `t`, from its start to its return. */
  ghost predicate IsOpen(states: seq<State>, steps: seq<Step>, k: nat, e: nat, t: Thread)
    requires |states| == |steps| + 1
  {
    && k < e < |steps| && steps[k] == StartOpen(t)
    && (forall i :: k < i <= e ==> !OpOf(states[i], t).Idle?)
    && OpOf(states[e + 1], t).Idle?
  }

  /** An `Open` under way has activated the stream once it is about to unlock, and not before. */
  ghost predicate Opening(s: State, t: Thread, before: nat) {
    match OpOf(s, t)
    case OpenLock => s.activated[t] == before
    case OpenCheck => s.activated[t] == before
    case OpenActivate => s.activated[t] == before
    case OpenUnlock => s.activated[t] == before + 1
    case _ => false
  }

  lemma OthersLeaveOpen(s: State, step: Step, t: Thread)
    requires Enabled(s, step) && step != Advance(t) && !OpOf(s, t).Idle?
    ensures OpOf(Apply(s, step), t) == OpOf(s, t) && Apply(s, step).activated[t] == s.activated[t]
  {
    if step.Advance? {
      assert OnlyMoved(s, AdvanceOp(s, step.t), step.t);
      assert AdvanceOp(s, step.t).activated[t] == s.activated[t];
    }
  }

  lemma OpeningStep(s: State, step: Step, t: Thread, before: nat)
    requires Inv(s) && Enabled(s, step) && Opening(s, t, before)
    ensures var s' := Apply(s, step);
      if OpOf(s', t).Idle? then s'.activated[t] == before + 1 else Opening(s', t, before)
  {
    if step == Advance(t) {
      assert t in s.refs && s.closer.None?;
    } else {
      OthersLeaveOpen(s, step, t);
    }
  }

  lemma RunOpeningStep(states: seq<State>, steps: seq<Step>, i: nat, t: Thread, before: nat)
    requires IsRun(states, steps) && i < |steps| && Opening(states[i], t, before)
    ensures if OpOf(states[i + 1], t).Idle? then states[i + 1].activated[t] == before + 1
            else Opening(states[i + 1], t, before)
  {
    RunInv(states, steps, i);
    OpeningStep(states[i], steps[i], t, before);
  }

  lemma {:induction false} OpenUnderWay(states: seq<State>, steps: seq<Step>, k: nat, i: nat, t: Thread)
    requires IsRun(states, steps) && k < i < |states| && steps[k] == StartOpen(t)
    requires forall h :: k < h <= i ==> !OpOf(states[h], t).Idle?
    ensures Opening(states[i], t, states[k].activated[t])
    decreases i
  {
    if i == k + 1 {
      assert states[i] == Apply(states[k], steps[k]);
    } else {
      OpenUnderWay(states, steps, k, i - 1, t);
      RunOpeningStep(states, steps, i - 1, t, states[k].activated[t]);
    }
  }

  /** From its start to its return, every `Open` activates the native stream exactly once. */
  lemma OpenActivatesOnce(states: seq<State>, steps: seq<Step>, k: nat, e: nat, t: Thread)
    requires IsRun(states, steps) && IsOpen(states, steps, k, e, t)
    ensures states[e + 1].activated[t] == states[k].activated[t] + 1
  {
    OpenUnderWay(states, steps, k, e, t);
    RunOpeningStep(states, steps, e, t, states[k].activated[t]);
  }

  /** The impl is alive whenever a thread or a callback touches it. */
  lemma ImplOutlivesItsUsers(states: seq<State>, steps: seq<Step>, i: nat)
    requires IsRun(states, steps) && i < |steps| && TouchesImpl(steps[i])
    ensures states[i].implAlive
  {
    RunInv(states, steps, i);
    var s := states[i];
    match steps[i]
    case Advance(t) =>
      assert OpOf(s, t).InOpen() || OpOf(s, t).InClose();
    case StartOpen(t) =>
      assert s.refs != multiset{};
    case AdvanceCallback =>
  }

  /** Nothing is leaked: with no references left and no call under way, the stream is closed and released. */
  lemma ReleasedWhenUnreferenced(states: seq<State>, steps: seq<Step>, i: nat)
    requires IsRun(states, steps) && i < |states| && states[i].refs == multiset{}
    requires forall t: Thread :: OpOf(states[i], t).Idle?
    ensures states[i].closed && !states[i].stream && states[i].releases == 1
    ensures states[i].handleAlive && states[i].callback.NoCallback? ==>
      Enabled(states[i], Terminate) && !Apply(states[i], Terminate).implAlive
  {
    RunInv(states, steps, i);
    var s := states[i];
    assert s.closer.Some? && !OpOf(s, s.closer.value).InClose();
  }

  /** The destructor meets its own assertions, finds the lock free and nobody else inside the impl. */
  lemma DestructorPreconditions(states: seq<State>, steps: seq<Step>, i: nat)
    requires IsRun(states, steps) && i < |steps|
    requires states[i].implAlive && !states[i + 1].implAlive
    ensures !states[i + 1].stream && states[i + 1].closed && states[i + 1].releases == 1
    ensures states[i + 1].readers == {} && states[i + 1].writer.None?
    ensures Quiescent(states[i + 1])
  {
    RunInv(states, steps, i + 1);
    var s := states[i + 1];
    forall t: Thread ensures OpOf(s, t).Idle? {
      assert OpOf(s, t).InOpen() ==> t in s.refs;
      assert s.refs == multiset{};
    }
    forall g ensures g !in s.readers {
      match g
      case OpenGuard(t) => assert OpOf(s, t).Idle?;
      case CallbackGuard =>
    }
  }

  lemma StepKeepsDestroyed(s: State, step: Step)
    requires !s.wrapperAlive && !s.handleAlive && !s.implAlive && Enabled(s, step)
    ensures !Apply(s, step).implAlive
  {
  }

  /** A destroyed impl stays destroyed. */
  lemma {:induction false} DestroyedOnce(states: seq<State>, steps: seq<Step>, i: nat, j: nat)
    requires IsRun(states, steps) && i <= j < |states| && !states[i].implAlive
    ensures !states[j].implAlive
    decreases j
  {
    if i < j {
      DestroyedOnce(states, steps, i, j - 1);
      var s := states[j - 1];
      assert !s.wrapperAlive && !s.handleAlive by {
        RunInv(states, steps, j - 1);
      }
      StepKeepsDestroyed(s, steps[j - 1]);
    }
  }

  // ---------- Progress ----------

  ghost predicate WriterWaiting(s: State) {
    exists t: Thread :: WaitsForWriteLock(s, t)
  }

  predicate TakesReadLock(s: State, step: Step) {
    || (step.Advance? && OpOf(s, step.t).OpenLock?)
    || (step.AdvanceCallback? && s.callback.CbLock?)
  }

  /** A step that finishes work already begun, under a lock that keeps new readers out while a writer waits. */
  ghost predicate Continues(s: State, step: Step) {
    && (step.Advance? || step.AdvanceCallback?)
    && Enabled(s, step)
    && (TakesReadLock(s, step) ==> !WriterWaiting(s))
  }

  /** Between two lock waits nothing blocks a thread. */
  lemma NoReadersWhenAllWait(s: State)
    requires Inv(s)
    requires forall t: Thread :: OpOf(s, t).Idle? || OpOf(s, t).OpenLock? || WaitsForWriteLock(s, t)
    requires s.callback.NoCallback? || s.callback.CbLock?
    ensures s.readers == {} && s.writer.None?
  {
    forall g ensures g !in s.readers {
      match g
      case OpenGuard(t) => assert !OpOf(s, t).HoldsRead();
      case CallbackGuard =>
    }
    assert forall t: Thread :: s.writer != Some(t);
  }

  /** Some unfinished thread can always step, even when waiting writers keep new readers out. */
  lemma NoDeadlock(s: State) returns (step: Step)
    requires Inv(s) && !Quiescent(s)
    ensures Continues(s, step)
  {
    if t: Thread :| !OpOf(s, t).Idle? && !OpOf(s, t).OpenLock? && !WaitsForWriteLock(s, t) {
      step := Advance(t);
    } else if !s.callback.NoCallback? && !s.callback.CbLock? && OpOf(s, LOOP).Idle? {
      step := AdvanceCallback;
    } else if t: Thread :| OpOf(s, t).OpenLock? {
      assert t in s.refs && s.closer.None?;
      assert forall u: Thread :: !OpOf(s, u).InClose();
      assert forall u: Thread :: s.writer != Some(u);
      step := Advance(t);
    } else {
      NoReadersWhenAllWait(s);
      if t: Thread :| WaitsForWriteLock(s, t) {
        step := Advance(t);
      } else {
        step := AdvanceCallback;
      }
    }
  }

  // ---------- Every operation finishes ----------

  function OpWork(op: Op): nat {
    match op
    case Idle => 0
    case OpenLock => 4
    case OpenCheck => 3
    case OpenActivate => 2
    case OpenUnlock => 1
    case CloseLock => 7
    case CloseCheck => 6
    case CloseMark => 5
    case CloseTake => 4
    case CloseUnlock(_) => 3
    case CloseRelease => 2
    case CloseDone => 1
  }

  function CallbackWork(callback: Callback): nat {
    match callback
    case NoCallback => 0
    case CbLock(_) => 5
    case CbCheck(_) => 4
    case CbInvoke(_) => 3
    case CbHandler(_) => 2
    case CbUnlock => 1
  }

  function ThreadWork(s: State): Thread -> nat {
    t => OpWork(OpOf(s, t))
  }

  /** An upper bound on the steps still needed by the work begun on threads below `n`. */
  function Work(s: State, n: nat): nat {
    Total(ThreadWork(s), n) + CallbackWork(s.callback)
  }

  ghost predicate IdleFrom(s: State, n: nat) {
    forall t: Thread :: n <= t ==> OpOf(s, t).Idle?
  }

  lemma AdvanceNearsEnd(s: State, t: Thread)
    requires AdvanceEnabled(s, t)
    ensures OnlyMoved(s, AdvanceOp(s, t), t)
    ensures OpWork(OpOf(AdvanceOp(s, t), t)) < OpWork(OpOf(s, t))
    ensures AdvanceOp(s, t).callback == s.callback
  {
  }

  lemma AdvancingWorks(s: State, s': State, t: Thread, n: nat)
    requires OnlyMoved(s, s', t) && OpWork(OpOf(s', t)) < OpWork(OpOf(s, t)) && s'.callback == s.callback
    requires IdleFrom(s, n)
    ensures Work(s', n) < Work(s, n) && IdleFrom(s', n)
  {
    TotalMoves(ThreadWork(s), ThreadWork(s'), t, n);
  }

  lemma CallbackWorks(s: State, s': State, n: nat)
    requires s'.ops == s.ops && CallbackWork(s'.callback) < CallbackWork(s.callback)
    requires IdleFrom(s, n)
    ensures Work(s', n) < Work(s, n) && IdleFrom(s', n)
  {
    assert forall t: Thread :: OpOf(s', t) == OpOf(s, t);
    TotalMoves(ThreadWork(s), ThreadWork(s'), LOOP, n);
  }

  lemma ContinuingWorks(s: State, step: Step, n: nat)
    requires Continues(s, step) && IdleFrom(s, n)
    ensures Work(Apply(s, step), n) < Work(s, n) && IdleFrom(Apply(s, step), n)
  {
    if step.Advance? {
      AdvanceNearsEnd(s, step.t);
      AdvancingWorks(s, AdvanceOp(s, step.t), step.t, n);
    } else {
      CallbackWorks(s, AdvanceCb(s), n);
    }
  }

  ghost predicate ContinuesTo(s: State, trace: seq<Step>, final: State)
    decreases |trace|
  {
    if trace == [] then
      final == s
    else
      Continues(s, trace[0]) && ContinuesTo(Apply(s, trace[0]), trace[1..], final)
  }

  lemma {:induction false} SchedulesFinish(s: State, trace: seq<Step>, final: State, n: nat)
    requires Inv(s) && IdleFrom(s, n) && ContinuesTo(s, trace, final)
    ensures |trace| <= Work(s, n)
    ensures (forall step :: !Continues(final, step)) ==> Quiescent(final)
    decreases |trace|
  {
    if trace == [] {
      if !Quiescent(s) {
        var step := NoDeadlock(s);
        assert Continues(final, step);
      }
    } else {
      ContinuingWorks(s, trace[0], n);
      StepInv(s, trace[0]);
      SchedulesFinish(Apply(s, trace[0]), trace[1..], final, n);
    }
  }

  /**
   When no new work begins, every way of scheduling the threads is finite, and it stops only when every
   `Open`, `Close` and callback has returned.
   */
  lemma EveryScheduleFinishes(states: seq<State>, steps: seq<Step>, i: nat, trace: seq<Step>, final: State)
    requires IsRun(states, steps) && i < |states| && ContinuesTo(states[i], trace, final)
    ensures exists n: nat :: IdleFrom(states[i], n) && |trace| <= Work(states[i], n)
    ensures (forall step :: !Continues(final, step)) ==> Quiescent(final)
  {
    RunInv(states, steps, i);
    var n := SomeBound(states[i].ops.Keys);
    assert IdleFrom(states[i], n);
    SchedulesFinish(states[i], trace, final, n);
  }
}
