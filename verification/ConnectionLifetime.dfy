/**
 Who keeps whom alive in an MQTT 3.1.1 connection (source/mqtt/MqttConnectionCore.cpp and the destructor
 in source/mqtt/MqttConnection.cpp). Users share an `MqttConnection`; it owns the core, the core owns
 itself until the native connection has terminated, and the core points back weakly. A native callback
 reaches the core by a plain pointer, locks the weak pointer, and runs the user's callback on the strong
 reference it got. That reference may turn out to be the last one, and then the callback itself
 destroys the connection.

 A callback for any message runs the handler inside the record that was current when it began; the user may
 replace that record at any time, also from inside the handler.

 Threads drop and copy references at any time. The native connection calls back one callback at a time
 on the event loop and terminates after its release, as an event of its own. Every step is one access
 to shared state.
 */
module ConnectionLifetime {
  import opened Options

  type Thread = nat
  type Rec = nat

  const LOOP: Thread := 0

  /** Where a thread stands in the destructor of `MqttConnection`. */
  datatype Op = Idle | DtorDisconnect | DtorRelease | DtorDropCore

  /** Where the loop stands in a native callback; one for any message runs the handler inside a record. */
  datatype Callback =
    | NoCallback
    | CbObtain(rec: Option<Rec>)
    | CbUser(rec: Option<Rec>)
    | CbDrop
    | CbEnd
  {
    /** The record whose handler the callback reads or runs. */
    function InUse(): Option<Rec> { if CbObtain? || CbUser? then rec else None }
  }

  datatype State = State(
    ops: map<Thread, Op>,
    callback: Callback,
    refs: multiset<Thread>,        // strong references of users, by the thread that holds them
    cbRef: bool,                   // the strong reference of the running callback
    destroyer: Option<Thread>,     // the thread that dropped the last strong reference
    corePtr: bool,                 // MqttConnection::m_connectionCore
    self: bool,                    // MqttConnectionCore::m_self
    coreAlive: bool,
    releases: nat,                 // releases of the native connection
    onAny: Option<Rec>,            // m_onAnyCbData
    nextRec: Rec,
    freed: multiset<Rec>)

  function OpOf(s: State, t: Thread): Op {
    if t in s.ops then s.ops[t] else Idle
  }

  predicate ConnectionAlive(s: State) {
    s.refs != multiset{} || s.cbRef
  }

  datatype Step =
    | CopyRef(from: Thread, to: Thread)
    | KeepCallbackRef(to: Thread)
    | DropRef(t: Thread)
    | SetOnMessage(t: Thread, accepted: bool)
    | StartCallback(anyMessage: bool)
    | Terminate
    | Advance(t: Thread)
    | AdvanceCallback

  predicate UserCode(s: State, t: Thread) {
    OpOf(s, t).Idle? && (t == LOOP ==> s.callback.NoCallback? || s.callback.CbUser?)
  }

  predicate LoopFree(s: State) {
    s.callback.NoCallback? && OpOf(s, LOOP).Idle?
  }

  predicate Enabled(s: State, step: Step) {
    match step
    case CopyRef(from, to) => UserCode(s, from) && from in s.refs
    case KeepCallbackRef(to) => UserCode(s, LOOP) && s.callback.CbUser?
    case DropRef(t) => UserCode(s, t) && t in s.refs
    case SetOnMessage(t, accepted) => UserCode(s, t) && (t in s.refs || (t == LOOP && s.callback.CbUser?))
    case StartCallback(anyMessage) => s.self && LoopFree(s) && (anyMessage ==> s.onAny.Some?)
    case Terminate => s.self && s.releases > 0 && LoopFree(s)
    case Advance(t) => !OpOf(s, t).Idle?
    case AdvanceCallback => !s.callback.NoCallback? && OpOf(s, LOOP).Idle?
  }

  /** The thread that drops the last strong reference runs the destructor. */
  function DropStrong(s: State, t: Thread, refs: multiset<Thread>): State {
    if refs == multiset{} then
      s.(refs := refs, cbRef := false, destroyer := Some(t), ops := s.ops[t := DtorDisconnect])
    else
      s.(refs := refs, cbRef := false)
  }

  /** Losing its last owner destroys the core, and with it the current any-message record. */
  function WithOwners(s: State, corePtr: bool, self: bool): State {
    var dies := s.coreAlive && !corePtr && !self;
    s.(corePtr := corePtr, self := self,
       coreAlive := s.coreAlive && !dies,
       onAny := if dies then None else s.onAny,
       freed := if dies && s.onAny.Some? then s.freed + multiset{s.onAny.value} else s.freed)
  }

  function NextOp(op: Op): Op {
    match op
    case Idle => Idle
    case DtorDisconnect => DtorRelease
    case DtorRelease => DtorDropCore
    case DtorDropCore => Idle
  }

  function DtorEffect(s: State, op: Op): State {
    match op
    case DtorRelease => s.(releases := s.releases + 1)
    case DtorDropCore => WithOwners(s, false, s.self)
    case _ => s
  }

  function NextCallback(s: State): Callback {
    match s.callback
    case CbObtain(rec) => if ConnectionAlive(s) then CbUser(rec) else CbEnd
    case CbUser(_) => CbDrop
    case CbDrop => CbEnd
    case _ => NoCallback
  }

  /** The callback locks the weak pointer, and drops its strong reference at the end. */
  function CallbackEffect(s: State): State {
    if s.callback.CbObtain? then s.(cbRef := ConnectionAlive(s))
    else if s.callback.CbDrop? then DropStrong(s, LOOP, s.refs)
    else s
  }

  function Apply(s: State, step: Step): State
    requires Enabled(s, step)
  {
    match step
    case CopyRef(from, to) => s.(refs := s.refs + multiset{to})
    case KeepCallbackRef(to) => s.(refs := s.refs + multiset{to})
    case DropRef(t) =>
      if s.cbRef then s.(refs := s.refs - multiset{t}) else DropStrong(s, t, s.refs - multiset{t})
    case SetOnMessage(t, accepted) =>
      if !accepted then
        s.(nextRec := s.nextRec + 1, freed := s.freed + multiset{s.nextRec})
      else
        s.(onAny := Some(s.nextRec), nextRec := s.nextRec + 1,
           freed := if s.onAny.Some? then s.freed + multiset{s.onAny.value} else s.freed)
    case StartCallback(anyMessage) => s.(callback := CbObtain(if anyMessage then s.onAny else None))
    case Terminate => WithOwners(s, s.corePtr, false)
    case Advance(t) => DtorEffect(s, OpOf(s, t)).(ops := s.ops[t := NextOp(OpOf(s, t))])
    case AdvanceCallback => CallbackEffect(s).(callback := NextCallback(s))
  }

  function Created(creator: Thread): State {
    State(map[], NoCallback, multiset{creator}, false, None, true, true, true, 0, None, 0, multiset{})
  }

  ghost predicate Initial(s: State) {
    exists creator: Thread :: s == Created(creator)
  }

  ghost predicate IsRun(states: seq<State>, steps: seq<Step>) {
    && |states| == |steps| + 1
    && Initial(states[0])
    && forall i {:trigger steps[i]} :: 0 <= i < |steps| ==>
         Enabled(states[i], steps[i]) && states[i + 1] == Apply(states[i], steps[i])
  }

  // ---------- The invariant ----------

  ghost predicate RefInv(s: State) {
    && (ConnectionAlive(s) <==> s.destroyer.None?)
    && (s.destroyer.None? ==> s.corePtr)
    && (s.cbRef <==> s.callback.CbUser? || s.callback.CbDrop?)
    && (forall t: Thread :: !OpOf(s, t).Idle? <==> s.destroyer == Some(t) && s.corePtr)
    && (!OpOf(s, LOOP).Idle? ==> s.callback.NoCallback? || s.callback.CbEnd?)
  }

  ghost predicate ReleaseInv(s: State) {
    && (s.destroyer.None? ==> s.releases == 0)
    && (s.destroyer.Some? && s.corePtr ==> s.releases == if OpOf(s, s.destroyer.value).DtorDropCore? then 1 else 0)
    && (!s.corePtr ==> s.releases == 1)
  }

  ghost predicate CoreInv(s: State) {
    && (s.coreAlive <==> s.corePtr || s.self)
    && (!s.self ==> s.releases == 1 && s.callback.NoCallback?)
  }

  ghost predicate RecordsOk(onAny: Option<Rec>, nextRec: Rec, freed: multiset<Rec>, coreAlive: bool) {
    && (onAny.Some? ==> coreAlive && onAny.value < nextRec)
    && (forall r: Rec :: freed[r] == if r < nextRec && onAny != Some(r) then 1 else 0)
  }

  ghost predicate RecordInv(s: State) {
    RecordsOk(s.onAny, s.nextRec, s.freed, s.coreAlive)
  }

  ghost predicate Inv(s: State) {
    RefInv(s) && ReleaseInv(s) && CoreInv(s) && RecordInv(s)
  }

  lemma InitialInv(s: State)
    requires Initial(s)
    ensures Inv(s)
  {
  }

  lemma RefStepInv(s: State, step: Step)
    requires Inv(s) && Enabled(s, step) && (step.CopyRef? || step.KeepCallbackRef?)
    ensures Inv(Apply(s, step))
  {
    assert forall t: Thread :: OpOf(Apply(s, step), t) == OpOf(s, t);
  }

  lemma RecordReplaced(onAny: Option<Rec>, nextRec: Rec, freed: multiset<Rec>)
    requires RecordsOk(onAny, nextRec, freed, true)
    ensures RecordsOk(onAny, nextRec + 1, freed + multiset{nextRec}, true)
    ensures RecordsOk(Some(nextRec), nextRec + 1,
                      if onAny.Some? then freed + multiset{onAny.value} else freed, true)
  {
  }

  lemma SetOnMessageInv(s: State, t: Thread, accepted: bool)
    requires Inv(s) && Enabled(s, SetOnMessage(t, accepted))
    ensures Inv(Apply(s, SetOnMessage(t, accepted)))
  {
    var s' := Apply(s, SetOnMessage(t, accepted));
    assert s' == s.(onAny := s'.onAny, nextRec := s'.nextRec, freed := s'.freed);
    assert s.coreAlive;
    RecordReplaced(s.onAny, s.nextRec, s.freed);
    assert forall t: Thread :: OpOf(s', t) == OpOf(s, t);
  }

  lemma DropLast(s: State, s': State, t: Thread)
    requires Inv(s) && ConnectionAlive(s) && OpOf(s, t).Idle?
    requires s' == s.(refs := multiset{}, cbRef := false, destroyer := Some(t), ops := s.ops[t := DtorDisconnect],
                      callback := s'.callback)
    requires !s'.callback.CbUser? && !s'.callback.CbDrop? && (!s.self ==> s'.callback.NoCallback?)
    requires t == LOOP ==> s'.callback.NoCallback? || s'.callback.CbEnd?
    requires !OpOf(s, LOOP).Idle? ==> s'.callback.NoCallback? || s'.callback.CbEnd?
    ensures Inv(s')
  {
    assert forall u: Thread :: u != t ==> OpOf(s', u) == OpOf(s, u);
  }

  lemma DropRefInv(s: State, t: Thread)
    requires Inv(s) && Enabled(s, DropRef(t))
    ensures Inv(Apply(s, DropRef(t)))
  {
    var s' := Apply(s, DropRef(t));
    if !s.cbRef && s.refs - multiset{t} == multiset{} {
      DropLast(s, s', t);
    } else {
      assert forall u: Thread :: OpOf(s', u) == OpOf(s, u);
    }
  }

  lemma LoopStepInv(s: State, step: Step)
    requires Inv(s) && Enabled(s, step) && (step.StartCallback? || step.Terminate?)
    ensures Inv(Apply(s, step))
  {
    assert forall t: Thread :: OpOf(Apply(s, step), t) == OpOf(s, t);
  }

  lemma CallbackInv(s: State)
    requires Inv(s) && Enabled(s, AdvanceCallback)
    ensures Inv(Apply(s, AdvanceCallback))
  {
    var s' := Apply(s, AdvanceCallback);
    if s.callback.CbDrop? && s.refs == multiset{} {
      DropLast(s, s', LOOP);
    } else {
      assert forall t: Thread :: OpOf(s', t) == OpOf(s, t);
    }
  }

  lemma DtorInv(s: State, t: Thread)
    requires Inv(s) && Enabled(s, Advance(t))
    ensures Inv(Apply(s, Advance(t)))
  {
    var s' := Apply(s, Advance(t));
    assert s.destroyer == Some(t);
    assert forall u: Thread :: u != t ==> OpOf(s', u) == OpOf(s, u);
  }

  lemma StepInv(s: State, step: Step)
    requires Inv(s) && Enabled(s, step)
    ensures Inv(Apply(s, step))
  {
    match step
    case DropRef(t) => DropRefInv(s, t);
    case Advance(t) => DtorInv(s, t);
    case AdvanceCallback => CallbackInv(s);
    case StartCallback(_) => LoopStepInv(s, step);
    case Terminate => LoopStepInv(s, step);
    case SetOnMessage(t, accepted) => SetOnMessageInv(s, t, accepted);
    case _ => RefStepInv(s, step);
  }

  lemma {:induction false} RunInv(states: seq<State>, steps: seq<Step>, i: nat)
    requires IsRun(states, steps) && i < |states|
    ensures Inv(states[i])
  {
    if i == 0 {
      InitialInv(states[0]);
    } else {
      RunInv(states, steps, i - 1);
      StepInv(states[i - 1], steps[i - 1]);
    }
  }

  // ---------- What every run keeps ----------

  /** While a user callback runs, the connection is alive and its destructor has not begun. */
  lemma CallbackHoldsConnection(states: seq<State>, steps: seq<Step>, i: nat)
    requires IsRun(states, steps) && i < |states| && states[i].callback.CbUser?
    ensures states[i].cbRef && ConnectionAlive(states[i]) && states[i].corePtr && states[i].coreAlive
    ensures forall t: Thread :: OpOf(states[i], t).Idle?
  {
    RunInv(states, steps, i);
  }

  /** A user callback starts exactly if a strong reference was left; otherwise it is skipped. */
  lemma CallbackRunsIffReferenced(states: seq<State>, steps: seq<Step>, i: nat)
    requires IsRun(states, steps) && i < |steps| && steps[i].AdvanceCallback? && states[i].callback.CbObtain?
    ensures states[i + 1].callback.CbUser? <==> states[i].refs != multiset{}
    ensures states[i + 1].callback.CbUser? <==> states[i].destroyer.None?
    ensures states[i + 1].callback.CbUser? ==> states[i + 1].callback.rec == states[i].callback.rec
  {
    RunInv(states, steps, i);
  }

  /** The record a callback starts with. */
  function FirstRecord(s: State, anyMessage: bool): Option<Rec> {
    if anyMessage then s.onAny else None
  }

  lemma ObtainStep(s: State, step: Step, rec: Option<Rec>)
    requires Enabled(s, step) && s.callback == CbObtain(rec) && !step.AdvanceCallback?
    ensures Apply(s, step).callback == CbObtain(rec)
  {
    CallbackStays(s, step);
  }

  lemma {:induction false} StillObtaining(states: seq<State>, steps: seq<Step>, k: nat, i: nat, anyMessage: bool)
    returns (j: nat)
    requires IsRun(states, steps) && k < i < |states| && steps[k] == StartCallback(anyMessage)
    requires forall h :: k < h <= i ==> !states[h].callback.NoCallback?
    ensures if states[i].callback.CbObtain? then states[i].callback == CbObtain(FirstRecord(states[k], anyMessage))
            else ObtainsAt(states, steps, k, i, j, FirstRecord(states[k], anyMessage))
    decreases i
  {
    j := 0;
    if i == k + 1 {
      assert states[i] == Apply(states[k], steps[k]);
    } else {
      j := StillObtaining(states, steps, k, i - 1, anyMessage);
      assert Enabled(states[i - 1], steps[i - 1]);
      if states[i - 1].callback.CbObtain? {
        if steps[i - 1].AdvanceCallback? {
          j := i - 1;
        } else {
          ObtainStep(states[i - 1], steps[i - 1], FirstRecord(states[k], anyMessage));
        }
      } else {
        NeverObtainsAgain(states[i - 1], steps[i - 1]);
      }
    }
  }

  lemma NeverObtainsAgain(s: State, step: Step)
    requires Enabled(s, step) && !s.callback.NoCallback? && !s.callback.CbObtain?
    ensures !Apply(s, step).callback.CbObtain?
  {
    if !step.AdvanceCallback? {
      CallbackStays(s, step);
    }
  }

  /** In the `j`-th step the callback tries to get a strong reference. */
  ghost predicate ObtainsAt(states: seq<State>, steps: seq<Step>, k: nat, i: nat, j: nat, rec: Option<Rec>)
    requires |states| == |steps| + 1
  {
    k < j < i <= |steps| && steps[j] == AdvanceCallback && states[j].callback == CbObtain(rec)
  }

  /**
   Every native callback tries once to get a strong reference, and goes on to the user's callback, with the record
   that was current when it began, exactly if some thread still held one.
   */
  lemma EveryCallbackTries(states: seq<State>, steps: seq<Step>, k: nat, e: nat, anyMessage: bool) returns (j: nat)
    requires IsRun(states, steps) && k < e < |steps| && steps[k] == StartCallback(anyMessage)
    requires forall h :: k < h <= e ==> !states[h].callback.NoCallback?
    requires states[e + 1].callback.NoCallback?
    ensures ObtainsAt(states, steps, k, e, j, FirstRecord(states[k], anyMessage))
    ensures states[j + 1].callback ==
      if states[j].refs != multiset{} then CbUser(FirstRecord(states[k], anyMessage)) else CbEnd
  {
    j := StillObtaining(states, steps, k, e, anyMessage);
    assert Enabled(states[e], steps[e]);
    if states[e].callback.CbObtain? {
      if !steps[e].AdvanceCallback? {
        ObtainStep(states[e], steps[e], states[e].callback.rec);
      }
    } else {
      CallbackRunsIffReferenced(states, steps, j);
    }
  }

  lemma DestroyerStays(s: State, step: Step)
    requires Inv(s) && Enabled(s, step) && s.destroyer.Some?
    ensures Apply(s, step).destroyer == s.destroyer
  {
  }

  lemma RunDestroyerStays(states: seq<State>, steps: seq<Step>, i: nat)
    requires IsRun(states, steps) && i < |steps| && states[i].destroyer.Some?
    ensures states[i + 1].destroyer == states[i].destroyer
  {
    RunInv(states, steps, i);
    DestroyerStays(states[i], steps[i]);
  }

  lemma {:induction false} DestroyedOnce(states: seq<State>, steps: seq<Step>, i: nat, j: nat)
    requires IsRun(states, steps) && i <= j < |states| && states[i].destroyer.Some?
    ensures states[j].destroyer == states[i].destroyer
    decreases j
  {
    if i < j {
      DestroyedOnce(states, steps, i, j - 1);
      RunDestroyerStays(states, steps, j - 1);
    }
  }

  /** The destructor begins once and for good, and only it releases the native connection, once. */
  lemma NativeReleasedOnce(states: seq<State>, steps: seq<Step>, i: nat, j: nat)
    requires IsRun(states, steps) && i <= j < |states|
    ensures states[j].releases <= 1
    ensures states[j].releases == 1 ==> states[j].destroyer.Some?
    ensures states[i].destroyer.Some? ==> states[j].destroyer == states[i].destroyer && !ConnectionAlive(states[j])
    ensures states[i].destroyer.Some? && !states[i].corePtr ==> states[i].releases == 1
  {
    RunInv(states, steps, i);
    RunInv(states, steps, j);
    if states[i].destroyer.Some? {
      DestroyedOnce(states, steps, i, j);
    }
  }

  /** The core is alive at every step anything takes: callback, destructor, user call or termination. */
  lemma CoreAliveAtEveryStep(states: seq<State>, steps: seq<Step>, i: nat)
    requires IsRun(states, steps) && i < |steps|
    ensures states[i].coreAlive
  {
    RunInv(states, steps, i);
    if steps[i].Advance? {
      assert states[i].corePtr;
    }
  }

  /** The core goes only after termination and release, and takes the any-message record with it. */
  lemma CoreDestroyedAfterTermination(states: seq<State>, steps: seq<Step>, i: nat)
    requires IsRun(states, steps) && i < |states| && !states[i].coreAlive
    ensures !states[i].self && states[i].releases == 1 && states[i].callback.NoCallback?
    ensures states[i].onAny.None? && forall r: Rec :: r < states[i].nextRec ==> states[i].freed[r] == 1
    ensures forall t: Thread :: OpOf(states[i], t).Idle?
  {
    RunInv(states, steps, i);
  }

  /** Every any-message record is freed at most once, and never while it is the current one. */
  lemma AnyRecordFreedOnce(states: seq<State>, steps: seq<Step>, i: nat, r: Rec)
    requires IsRun(states, steps) && i < |states|
    ensures states[i].freed[r] <= 1 && (states[i].onAny == Some(r) ==> r !in states[i].freed)
    ensures r < states[i].nextRec && states[i].onAny != Some(r) ==> states[i].freed[r] == 1
  {
    RunInv(states, steps, i);
  }

  /** Nothing is leaked: with no references left and every thread idle, release and termination finish the core. */
  lemma ReleasedWhenUnreferenced(states: seq<State>, steps: seq<Step>, i: nat)
    requires IsRun(states, steps) && i < |states| && states[i].refs == multiset{} && LoopFree(states[i])
    requires forall t: Thread :: OpOf(states[i], t).Idle?
    ensures states[i].releases == 1 && !states[i].corePtr
    ensures states[i].coreAlive ==> Enabled(states[i], Terminate) && !Apply(states[i], Terminate).coreAlive
  {
    RunInv(states, steps, i);
    assert states[i].destroyer.Some?;
    assert OpOf(states[i], states[i].destroyer.value).Idle?;
  }

  // ---------- A handler that is replaced while it runs ----------

  /** Some call between the `k`-th step and the `i`-th had its new handler accepted. */
  ghost predicate ReplacedBetween(steps: seq<Step>, k: nat, i: nat) {
    exists j :: k <= j < i && j < |steps| && steps[j].SetOnMessage? && steps[j].accepted
  }

  lemma ReplacedOneMore(steps: seq<Step>, k: nat, i: nat)
    requires k <= i < |steps|
    ensures ReplacedBetween(steps, k, i + 1) <==>
      ReplacedBetween(steps, k, i) || (steps[i].SetOnMessage? && steps[i].accepted)
  {
  }

  /** While a callback runs, only an accepted call changes the current record, and it is never an old one again. */
  lemma CurrentRecordStep(s: State, step: Step, r: Rec)
    requires Inv(s) && Enabled(s, step) && !s.callback.NoCallback? && r < s.nextRec
    ensures r < Apply(s, step).nextRec
    ensures Apply(s, step).onAny == Some(r) <==> s.onAny == Some(r) && !(step.SetOnMessage? && step.accepted)
  {
    assert s.self && s.coreAlive;
    if step.Advance? {
      DtorKeepsRecord(s, OpOf(s, step.t));
    }
  }

  /** Until termination the destructor of the connection does not take the core with it. */
  lemma DtorKeepsRecord(s: State, op: Op)
    requires s.self
    ensures DtorEffect(s, op).onAny == s.onAny && DtorEffect(s, op).nextRec == s.nextRec
  {
  }

  lemma DtorKeepsCallback(s: State, op: Op)
    ensures DtorEffect(s, op).callback == s.callback
  {
    if op.DtorDropCore? {
      assert WithOwners(s, false, s.self).callback == s.callback;
    }
  }

  lemma InUseStep(s: State, step: Step, r: Rec)
    requires Enabled(s, step) && !s.callback.NoCallback? && Apply(s, step).callback.InUse() == Some(r)
    ensures s.callback.InUse() == Some(r)
  {
    if step.AdvanceCallback? {
      assert Apply(s, step).callback == NextCallback(s);
    } else {
      CallbackStays(s, step);
    }
  }

  lemma CallbackStays(s: State, step: Step)
    requires Enabled(s, step) && !step.AdvanceCallback? && !step.StartCallback?
    ensures Apply(s, step).callback == s.callback
  {
    if step.Advance? {
      DtorKeepsCallback(s, OpOf(s, step.t));
    }
  }

  lemma RunRecordStep(states: seq<State>, steps: seq<Step>, i: nat, r: Rec)
    requires IsRun(states, steps) && i < |steps| && !states[i].callback.NoCallback?
    requires states[i + 1].callback.InUse() == Some(r) && r < states[i].nextRec
    ensures r < states[i + 1].nextRec && states[i].callback.InUse() == Some(r)
    ensures states[i + 1].onAny == Some(r) <==>
      states[i].onAny == Some(r) && !(steps[i].SetOnMessage? && steps[i].accepted)
  {
    RunInv(states, steps, i);
    CurrentRecordStep(states[i], steps[i], r);
    InUseStep(states[i], steps[i], r);
  }

  lemma StartsOnCurrent(states: seq<State>, steps: seq<Step>, k: nat)
    requires IsRun(states, steps) && k < |steps| && steps[k] == StartCallback(true)
    ensures states[k + 1].onAny.Some? && states[k + 1].callback == CbObtain(states[k + 1].onAny)
    ensures states[k + 1].onAny.value < states[k + 1].nextRec
  {
    RunInv(states, steps, k);
    assert Enabled(states[k], steps[k]);
  }

  lemma {:induction false} CurrentIffNotReplaced(states: seq<State>, steps: seq<Step>, k: nat, i: nat, r: Rec)
    requires IsRun(states, steps) && k < i < |states| && steps[k] == StartCallback(true)
    requires forall j :: k < j < i ==> !states[j].callback.NoCallback?
    requires states[i].callback.InUse() == Some(r)
    ensures r < states[i].nextRec && (states[i].onAny == Some(r) <==> !ReplacedBetween(steps, k + 1, i))
    decreases i
  {
    StartsOnCurrent(states, steps, k);
    if k + 1 < i {
      InUseBefore(states, steps, i - 1, r);
      CurrentIffNotReplaced(states, steps, k, i - 1, r);
      RunRecordStep(states, steps, i - 1, r);
      ReplacedOneMore(steps, k + 1, i - 1);
    }
  }

  lemma InUseBefore(states: seq<State>, steps: seq<Step>, i: nat, r: Rec)
    requires IsRun(states, steps) && i < |steps| && !states[i].callback.NoCallback?
    requires states[i + 1].callback.InUse() == Some(r)
    ensures states[i].callback.InUse() == Some(r)
  {
    assert Enabled(states[i], steps[i]);
    InUseStep(states[i], steps[i], r);
  }

  /**
   The record whose handler a callback reads or runs has been freed exactly if a new handler was accepted since
   the callback began, be it from inside that handler.
   */
  lemma FreedInUseIffReplaced(states: seq<State>, steps: seq<Step>, k: nat, i: nat, r: Rec)
    requires IsRun(states, steps) && k < i < |states| && steps[k] == StartCallback(true)
    requires forall j :: k < j < i ==> !states[j].callback.NoCallback?
    requires states[i].callback.InUse() == Some(r)
    ensures r in states[i].freed <==> ReplacedBetween(steps, k + 1, i)
  {
    CurrentIffNotReplaced(states, steps, k, i, r);
    RunInv(states, steps, i);
  }

  lemma ExtendRun(states: seq<State>, steps: seq<Step>, step: Step) returns (longer: seq<State>, more: seq<Step>)
    requires IsRun(states, steps) && Enabled(states[|steps|], step)
    ensures IsRun(longer, more) && |more| == |steps| + 1 && longer[|more|] == Apply(states[|steps|], step)
  {
    longer, more := states + [Apply(states[|steps|], step)], steps + [step];
  }

  /** A run in which a handler for any message replaces itself, and so its own record is freed under it. */
  lemma HandlerFreedWhileRunning() returns (states: seq<State>, steps: seq<Step>)
    ensures IsRun(states, steps)
    ensures states[|steps|].callback == CbUser(Some(0)) && 0 in states[|steps|].freed
  {
    states, steps := [Created(1)], [];
    states, steps := ExtendRun(states, steps, SetOnMessage(1, true));
    states, steps := ExtendRun(states, steps, StartCallback(true));
    states, steps := ExtendRun(states, steps, AdvanceCallback);
    assert states[|steps|].callback == CbUser(Some(0)) && states[|steps|].onAny == Some(0);
    states, steps := ExtendRun(states, steps, SetOnMessage(LOOP, true));
  }
}
