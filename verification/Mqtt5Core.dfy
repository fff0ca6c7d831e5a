/**
 The MQTT5 client core (source/mqtt/Mqtt5ClientCore.cpp): what keeps the core alive, who may still call
 user code once the client is closed, who frees the record of an operation, and what becomes of the
 acknowledgement of a received QoS 1 publish (section 4.3.2 of MQTT Version 5.0).

 User threads share an `Mqtt5Client`; the destructor of its last reference runs `Close` and drops the
 core. Callbacks come one at a time on the event-loop thread. `Close`, the lifecycle callback and the
 publish-received callback serialise on a recursive mutex; completion callbacks check the flag inside
 it and run the user's handler outside. Every step is one access to shared state.

 The native client accepts or rejects an operation, completes every accepted operation exactly once
 before it terminates, and terminates only after its release, as an event of its own on the loop.
 The user may keep the function that hands out an acknowledgement, and call it on any thread, any number
 of times, also long after the callback has returned.
 */
module Mqtt5Core {
  import opened Options

  type Thread = nat
  type Rec = nat
  type Ack = nat

  const LOOP: Thread := 0

  datatype LifecycleKind = Stopped | AttemptingConnect | ConnectionFailure | ConnectionSuccess | Disconnection

  /** An event, and whether the user has set a handler for it; without one for publishes, none is delivered. */
  datatype Event = Lifecycle(kind: LifecycleKind, hasHandler: bool) | PublishReceived(qos1: bool)

  datatype Op =
    | Idle
    | ReqCheck(hasHandler: bool) | ReqAlloc(hasHandler: bool) | ReqSubmit(rec: Rec) | ReqFree(rec: Rec)
    | CloseLock | CloseFlag | CloseTest | CloseRelease | CloseNull | CloseUnlock | CloseReset
  {
    predicate InRequest() { ReqCheck? || ReqAlloc? || ReqSubmit? || ReqFree? }
    predicate InClose() { !Idle? && !InRequest() }
    predicate HoldsLock() { CloseFlag? || CloseTest? || CloseRelease? || CloseNull? || CloseUnlock? }
    function Record(): Option<Rec> { if ReqSubmit? || ReqFree? then Some(rec) else None }
  }

  datatype Callback =
    | NoCallback
    | CbLock(event: Event) | CbCheck(event: Event) | CbAcquire | CbInvoke(event: Event, fn: Option<Ack>)
    | CbHandler(event: Event, fn: Option<Ack>) | CbSettle(fn: Option<Ack>) | CbUnlock
    | CmpLock(rec: Rec) | CmpCheck(rec: Rec) | CmpUnlock(rec: Rec, go: bool) | CmpInvoke(rec: Rec)
    | CmpHandler(rec: Rec) | CmpFree(rec: Rec)
  {
    predicate InEvent() { CbCheck? || CbAcquire? || CbInvoke? || CbHandler? || CbSettle? || CbUnlock? }
    predicate HoldsLock() { InEvent() || CmpCheck? || CmpUnlock? }
    predicate RunsUserCode() { NoCallback? || CbHandler? || CmpHandler? }
    function Record(): Option<Rec> {
      if CmpLock? || CmpCheck? || CmpUnlock? || CmpInvoke? || CmpHandler? || CmpFree? then Some(rec) else None
    }
    /** The handler that is running can call the functor of `a`. */
    predicate Hands(a: Ack) { CbHandler? && fn == Some(a) }
    /** The acknowledgement of the publish that is being delivered, until it has been settled. */
    function Current(): Option<Ack> {
      if CbInvoke? || CbHandler? || CbSettle? then fn else None
    }
  }

  /** Who is responsible for a callback record. */
  datatype Holder = ByThread(t: Thread) | ByNative | ByCallback

  datatype State = State(
    ops: map<Thread, Op>,
    callback: Callback,
    refs: multiset<Thread>,          // references to the Mqtt5Client, by holder
    closer: Option<Thread>,          // the thread that dropped the last one
    owner: Option<Thread>,           // m_callback_lock
    depth: nat,
    invoke: bool,                    // m_callbackFlag == INVOKE
    client: bool,                    // m_client != nullptr
    releases: nat,
    wrapperRef: bool,                // Mqtt5Client::m_client_core
    selfRef: bool,                   // m_selfReference
    coreAlive: bool,
    started: seq<Event>,             // lifecycle and publish-received handlers started so far
    ledger: Ledger,
    acks: Acks)

  datatype Ledger = Ledger(
    records: map<Rec, Holder>,       // live records
    handlers: map<Rec, bool>,        // whether the user gave a completion handler
    nextRec: Rec,
    freed: multiset<Rec>,
    handled: multiset<Rec>)          // completion handlers run

  datatype Acks = Acks(
    nextAck: Ack,                    // acknowledgements acquired so far are the ones below
    held: set<Ack>,                  // those whose functor still holds its handle
    invoked: multiset<Ack>,          // sent by the core
    handed: multiset<Ack>,           // given to the user inside the callback
    late: multiset<Ack>,             // given to the user after the callback
    dropped: multiset<Ack>)          // left unsent because the client was closed

  function OpIn(ops: map<Thread, Op>, t: Thread): Op {
    if t in ops then ops[t] else Idle
  }

  function OpOf(s: State, t: Thread): Op {
    OpIn(s.ops, t)
  }

  datatype Step =
    | CopyRef(from: Thread, to: Thread)
    | DropRef(t: Thread)
    | StartRequest(t: Thread, hasHandler: bool)
    | StartEvent(event: Event)
    | StartCompletion(rec: Rec)
    | CallAcquire(t: Thread, a: Ack)
    | Terminate
    | Advance(t: Thread, accepted: bool)
    | AdvanceCallback(acquired: bool)

  predicate UserCode(s: State, t: Thread) {
    OpOf(s, t).Idle? && (t == LOOP ==> s.callback.RunsUserCode())
  }

  predicate LoopFree(s: State) {
    s.callback.NoCallback? && OpOf(s, LOOP).Idle?
  }

  predicate CanLock(s: State, t: Thread) {
    s.owner.None? || s.owner == Some(t)
  }

  predicate Enabled(s: State, step: Step) {
    match step
    case CopyRef(from, to) => UserCode(s, from) && from in s.refs
    case DropRef(t) => UserCode(s, t) && t in s.refs
    case StartRequest(t, hasHandler) => UserCode(s, t) && t in s.refs
    case StartEvent(event) => s.selfRef && LoopFree(s)
    case StartCompletion(rec) =>
      s.selfRef && LoopFree(s) && rec in s.ledger.records && s.ledger.records[rec].ByNative?
    case CallAcquire(t, a) =>
      UserCode(s, t) && a < s.acks.nextAck && !(s.callback.CbInvoke? && s.callback.fn == Some(a))
    case Terminate =>
      s.selfRef && s.releases > 0 && LoopFree(s) &&
      forall rec :: rec in s.ledger.records ==> !s.ledger.records[rec].ByNative?
    case Advance(t, accepted) => !OpOf(s, t).Idle? && (OpOf(s, t).CloseLock? ==> CanLock(s, t))
    case AdvanceCallback(acquired) =>
      && !s.callback.NoCallback?
      && OpOf(s, LOOP).Idle?
      && (s.callback.CbLock? || s.callback.CmpLock? ==> CanLock(s, LOOP))
  }

  // ---------- Requests and Close ----------

  function NextOp(s: State, op: Op, accepted: bool): Op {
    match op
    case Idle => Idle
    case ReqCheck(hasHandler) => if s.client then ReqAlloc(hasHandler) else Idle
    case ReqAlloc(_) => ReqSubmit(s.ledger.nextRec)
    case ReqSubmit(rec) => if accepted then Idle else ReqFree(rec)
    case ReqFree(_) => Idle
    case CloseLock => CloseFlag
    case CloseFlag => CloseTest
    case CloseTest => if s.client then CloseRelease else CloseUnlock
    case CloseRelease => CloseNull
    case CloseNull => CloseUnlock
    case CloseUnlock => CloseReset
    case CloseReset => Idle
  }

  function Free(l: Ledger, rec: Rec): Ledger {
    l.(records := l.records - {rec}, freed := l.freed + multiset{rec})
  }

  function Allocate(l: Ledger, t: Thread, hasHandler: bool): Ledger {
    l.(records := l.records[l.nextRec := ByThread(t)],
       handlers := l.handlers[l.nextRec := hasHandler],
       nextRec := l.nextRec + 1)
  }

  /** The recursive mutex after thread `t` has taken it once more, or given it back once. */
  function OwnerAfter(s: State, t: Thread, takes: bool, gives: bool): Option<Thread> {
    if takes then Some(t) else if gives && s.depth <= 1 then None else s.owner
  }

  function DepthAfter(s: State, takes: bool, gives: bool): nat {
    if takes then s.depth + 1 else if gives && s.depth > 0 then s.depth - 1 else s.depth
  }

  function OpLedger(l: Ledger, t: Thread, op: Op, accepted: bool): Ledger {
    match op
    case ReqAlloc(hasHandler) => Allocate(l, t, hasHandler)
    case ReqSubmit(rec) => if accepted then l.(records := l.records[rec := ByNative]) else l
    case ReqFree(rec) => Free(l, rec)
    case _ => l
  }

  /** What `Close` writes: the flag, the release, the pointer, and at the end the wrapper's share. */
  function CloseEffect(s: State, t: Thread): State {
    var op := OpOf(s, t);
    s.(
      owner := OwnerAfter(s, t, op.CloseLock?, op.CloseUnlock?),
      depth := DepthAfter(s, op.CloseLock?, op.CloseUnlock?),
      invoke := s.invoke && !op.CloseFlag?,
      releases := if op.CloseRelease? then s.releases + 1 else s.releases,
      client := s.client && !op.CloseNull?,
      wrapperRef := s.wrapperRef && !op.CloseReset?,
      coreAlive := if op.CloseReset? then s.selfRef else s.coreAlive)
  }

  // ---------- Callbacks ----------

  function NextCallback(s: State, cb: Callback, acquired: bool): Callback {
    match cb
    case NoCallback => NoCallback
    case CbLock(event) => CbCheck(event)
    case CbCheck(event) =>
      if !s.invoke then CbUnlock
      else (match event
            case Lifecycle(_, hasHandler) => if hasHandler then CbInvoke(event, None) else CbUnlock
            case PublishReceived(qos1) => if qos1 then CbAcquire else CbInvoke(event, None))
    case CbAcquire => CbInvoke(PublishReceived(true), if acquired then Some(s.acks.nextAck) else None)
    case CbInvoke(event, fn) => CbHandler(event, fn)
    case CbHandler(_, fn) => if fn.Some? then CbSettle(fn) else CbUnlock
    case CbSettle(_) => CbUnlock
    case CbUnlock => NoCallback
    case CmpLock(rec) => CmpCheck(rec)
    case CmpCheck(rec) => CmpUnlock(rec, s.invoke)
    case CmpUnlock(rec, go) => if go then CmpInvoke(rec) else CmpFree(rec)
    case CmpInvoke(rec) => CmpHandler(rec)
    case CmpHandler(rec) => CmpFree(rec)
    case CmpFree(_) => NoCallback
  }

  predicate TakesLock(cb: Callback) { cb.CbLock? || cb.CmpLock? }
  predicate GivesLock(cb: Callback) { cb.CbUnlock? || cb.CmpUnlock? }

  function CallbackLedger(l: Ledger, cb: Callback): Ledger {
    match cb
    case CmpInvoke(rec) => l.(handled := l.handled + multiset{rec})
    case CmpFree(rec) => Free(l, rec)
    case _ => l
  }

  /**
   Acquire a QoS 1 acknowledgement up front, and put its handle into a functor; after the handler, send the
   acknowledgement if the functor still holds the handle. The handle stays there.
   */
  function CallbackAcks(k: Acks, cb: Callback, client: bool, acquired: bool): Acks {
    match cb
    case CbAcquire => if acquired then k.(nextAck := k.nextAck + 1, held := k.held + {k.nextAck}) else k
    case CbSettle(fn) =>
      if fn.Some? && fn.value in k.held then
        if client then k.(invoked := k.invoked + multiset{fn.value}) else k.(dropped := k.dropped + multiset{fn.value})
      else
        k
    case _ => k
  }

  /** Whether a call of the functor of `a` on thread `t` moves the handle out; any other call gives nothing. */
  predicate GetsHandle(k: Acks, t: Thread, a: Ack) {
    t == LOOP && a in k.held
  }

  function CallFunctor(k: Acks, cb: Callback, t: Thread, a: Ack): Acks {
    if !GetsHandle(k, t, a) then k
    else if cb.Hands(a) then k.(held := k.held - {a}, handed := k.handed + multiset{a})
    else k.(held := k.held - {a}, late := k.late + multiset{a})
  }

  function Apply(s: State, step: Step): State
    requires Enabled(s, step)
  {
    match step
    case CopyRef(from, to) => s.(refs := s.refs + multiset{to})
    case DropRef(t) =>
      var last := s.refs - multiset{t} == multiset{};
      s.(refs := s.refs - multiset{t},
         closer := if last then Some(t) else s.closer,
         ops := if last then s.ops[t := CloseLock] else s.ops)
    case StartRequest(t, hasHandler) => s.(ops := s.ops[t := ReqCheck(hasHandler)])
    case StartEvent(event) => s.(callback := CbLock(event))
    case StartCompletion(rec) =>
      s.(ledger := s.ledger.(records := s.ledger.records[rec := ByCallback]),
         callback := if rec in s.ledger.handlers && s.ledger.handlers[rec] then CmpLock(rec) else CmpFree(rec))
    case CallAcquire(t, a) => s.(acks := CallFunctor(s.acks, s.callback, t, a))
    case Terminate => s.(selfRef := false, coreAlive := s.wrapperRef)
    case Advance(t, accepted) =>
      CloseEffect(s, t).(
        ops := s.ops[t := NextOp(s, OpOf(s, t), accepted)],
        ledger := OpLedger(s.ledger, t, OpOf(s, t), accepted))
    case AdvanceCallback(acquired) =>
      s.(
        owner := OwnerAfter(s, LOOP, TakesLock(s.callback), GivesLock(s.callback)),
        depth := DepthAfter(s, TakesLock(s.callback), GivesLock(s.callback)),
        callback := NextCallback(s, s.callback, acquired),
        started := if s.callback.CbInvoke? then s.started + [s.callback.event] else s.started,
        ledger := CallbackLedger(s.ledger, s.callback),
        acks := CallbackAcks(s.acks, s.callback, s.client, acquired))
  }

  const NO_RECORDS := Ledger(map[], map[], 0, multiset{}, multiset{})
  const NO_ACKS := Acks(0, {}, multiset{}, multiset{}, multiset{}, multiset{})

  /** What the constructors leave behind: one reference, an open client. */
  function Created(creator: Thread): State {
    State(map[], NoCallback, multiset{creator}, None, None, 0, true, true, 0, true, true, true, [], NO_RECORDS, NO_ACKS)
  }

  ghost predicate Initial(s: State) {
    exists creator: Thread :: s == Created(creator)
  }

  ghost predicate IsRun(states: seq<State>, steps: seq<Step>) {
    && |states| == |steps| + 1
    && Initial(states[0])
    && forall i {:trigger steps[i]} :: 0 <= i < |steps| ==>
         Enabled(states[i], steps[i]) && states[i + 1] == Apply(states[i], steps[i])
  }

  // ---------- The invariant: the lock ----------

  function Holds(s: State, t: Thread): nat {
    (if OpOf(s, t).HoldsLock() then 1 else 0) + (if t == LOOP && s.callback.HoldsLock() then 1 else 0)
  }

  ghost predicate LockInv(s: State) {
    && (forall t: Thread :: s.owner == Some(t) <==> Holds(s, t) > 0)
    && s.depth == (if s.owner.Some? then Holds(s, s.owner.value) else 0)
    && (!OpOf(s, LOOP).Idle? ==> s.callback.RunsUserCode())
  }

  // ---------- The invariant: references and the phases of Close ----------

  ghost predicate RefInv(s: State) {
    && (s.refs == multiset{} <==> s.closer.Some?)
    && (s.closer.None? ==> s.wrapperRef)
    && (forall t: Thread :: OpOf(s, t).InRequest() ==> t in s.refs)
    && (forall t: Thread :: OpOf(s, t).InClose() <==> s.closer == Some(t) && s.wrapperRef)
  }

  ghost predicate PhaseAt(s: State, op: Op) {
    match op
    case CloseLock => s.invoke && s.client && s.releases == 0
    case CloseFlag => s.invoke && s.client && s.releases == 0
    case CloseTest => !s.invoke && s.client && s.releases == 0
    case CloseRelease => !s.invoke && s.client && s.releases == 0
    case CloseNull => !s.invoke && s.client && s.releases == 1
    case CloseUnlock => !s.invoke && !s.client && s.releases == 1
    case CloseReset => !s.invoke && !s.client && s.releases == 1
    case _ => true
  }

  ghost predicate PhaseInv(s: State) {
    && (s.closer.None? ==> s.invoke && s.client && s.releases == 0)
    && (s.closer.Some? && s.wrapperRef ==> PhaseAt(s, OpOf(s, s.closer.value)))
    && (!s.wrapperRef ==> !s.invoke && !s.client && s.releases == 1)
    && (s.callback.CbAcquire? || s.callback.CbInvoke? ==> s.invoke)
  }

  ghost predicate LifeInv(s: State) {
    && (s.coreAlive <==> s.wrapperRef || s.selfRef)
    && (!s.selfRef ==> s.releases == 1 && s.callback.NoCallback?)
  }

  // ---------- The invariant: records and acknowledgements ----------

  /** A record's holder agrees with where the threads and the callback stand. */
  ghost predicate RecordInv(records: map<Rec, Holder>, ops: map<Thread, Op>, cb: Callback, selfRef: bool) {
    && (forall t: Thread, rec :: rec in records && records[rec] == ByThread(t) <==> OpIn(ops, t).Record() == Some(rec))
    && (forall rec :: rec in records && records[rec].ByCallback? <==> cb.Record() == Some(rec))
    && (!selfRef ==> forall rec :: rec in records ==> !records[rec].ByNative?)
  }

  ghost predicate FreeInv(l: Ledger) {
    && (forall rec :: rec in l.records ==> rec < l.nextRec)
    && (forall rec: Rec :: rec < l.nextRec <==> rec in l.handlers)
    && (forall rec: Rec :: l.freed[rec] == if rec < l.nextRec && rec !in l.records then 1 else 0)
  }

  ghost predicate HandledInv(l: Ledger, cb: Callback) {
    && (forall rec: Rec :: l.handled[rec] <= 1)
    && (forall rec :: rec in l.handled ==> rec < l.nextRec)
    && (forall rec :: rec in l.records && rec in l.handled ==> cb == CmpHandler(rec) || cb == CmpFree(rec))
  }

  ghost predicate LedgerOk(l: Ledger, ops: map<Thread, Op>, cb: Callback, selfRef: bool) {
    RecordInv(l.records, ops, cb, selfRef) && FreeInv(l) && HandledInv(l, cb)
  }

  /** The acknowledgement that is being delivered and that the user has not taken has met no fate yet. */
  predicate Unsettled(k: Acks, current: Option<Ack>, a: Ack) {
    current == Some(a) && a in k.held
  }

  /** Where the handle of an acknowledgement is: in its functor, or with the user since the callback or later. */
  ghost predicate HandlesOk(k: Acks) {
    forall a: Ack :: (if a in k.held then 1 else 0) + k.handed[a] + k.late[a] == if a < k.nextAck then 1 else 0
  }

  /** What the core did about it: the user took it inside the callback, or the core sent or dropped it. */
  ghost predicate FatesOk(k: Acks, current: Option<Ack>) {
    forall a: Ack ::
      k.invoked[a] + k.handed[a] + k.dropped[a] == if a < k.nextAck && !Unsettled(k, current, a) then 1 else 0
  }

  ghost predicate AcksOk(k: Acks, current: Option<Ack>, client: bool) {
    && HandlesOk(k)
    && FatesOk(k, current)
    && (current.Some? ==> current.value < k.nextAck && current.value !in k.late)
    && (k.dropped != multiset{} ==> !client)
  }

  ghost predicate ControlInv(s: State) {
    LockInv(s) && RefInv(s) && PhaseInv(s) && LifeInv(s)
  }

  ghost predicate LedgerInv(s: State) {
    LedgerOk(s.ledger, s.ops, s.callback, s.selfRef)
  }

  ghost predicate AckInv(s: State) {
    AcksOk(s.acks, s.callback.Current(), s.client)
  }

  ghost predicate Inv(s: State) {
    ControlInv(s) && LedgerInv(s) && AckInv(s)
  }

  lemma InitialInv(s: State)
    requires Initial(s)
    ensures Inv(s)
  {
  }

  // ---------- Control ----------

  /** Only thread `t` moved. */
  ghost predicate OnlyMoved(s: State, s': State, t: Thread) {
    forall u: Thread :: u != t ==> OpOf(s', u) == OpOf(s, u)
  }

  lemma LockFramed(s: State, s': State)
    requires LockInv(s)
    requires s'.owner == s.owner && s'.depth == s.depth
    requires forall t: Thread :: Holds(s', t) == Holds(s, t)
    requires !OpOf(s', LOOP).Idle? ==> s'.callback.RunsUserCode()
    ensures LockInv(s')
  {
  }

  lemma CopyRefControl(s: State, step: Step)
    requires ControlInv(s) && Enabled(s, step) && step.CopyRef?
    ensures ControlInv(Apply(s, step))
  {
    var s' := Apply(s, step);
    assert OnlyMoved(s, s', step.from) && OpOf(s', step.from) == OpOf(s, step.from);
    LockFramed(s, s');
    assert step.to in s'.refs;
  }

  lemma DropSharedRefControl(s: State, t: Thread)
    requires ControlInv(s) && Enabled(s, DropRef(t)) && s.refs != multiset{t}
    ensures ControlInv(Apply(s, DropRef(t)))
  {
    var s' := Apply(s, DropRef(t));
    assert s.refs == (s.refs - multiset{t}) + multiset{t};
    assert forall u: Thread :: u != t ==> (u in s'.refs <==> u in s.refs);
    assert OnlyMoved(s, s', t) && OpOf(s', t) == OpOf(s, t);
    LockFramed(s, s');
    assert RefInv(s');
  }

  lemma DropLastRefControl(s: State, t: Thread)
    requires ControlInv(s) && Enabled(s, DropRef(t)) && s.refs == multiset{t}
    ensures ControlInv(Apply(s, DropRef(t)))
  {
    var s' := Apply(s, DropRef(t));
    assert s'.refs == multiset{};
    assert OnlyMoved(s, s', t);
    LockFramed(s, s');
    assert RefInv(s');
  }

  lemma StartRequestControl(s: State, step: Step)
    requires ControlInv(s) && Enabled(s, step) && step.StartRequest?
    ensures ControlInv(Apply(s, step))
  {
    var s' := Apply(s, step);
    assert OnlyMoved(s, s', step.t);
    LockFramed(s, s');
  }

  lemma LoopEventControl(s: State, step: Step)
    requires ControlInv(s) && Enabled(s, step)
    requires step.StartEvent? || step.StartCompletion? || step.CallAcquire? || step.Terminate?
    ensures ControlInv(Apply(s, step))
  {
    var s' := Apply(s, step);
    assert OnlyMoved(s, s', LOOP) && OpOf(s', LOOP) == OpOf(s, LOOP);
    LockFramed(s, s');
    LoopKeepsPhases(s, s');
  }

  lemma RequestControl(s: State, t: Thread, accepted: bool)
    requires ControlInv(s) && OpOf(s, t).InRequest()
    ensures ControlInv(Apply(s, Advance(t, accepted)))
  {
    var s' := Apply(s, Advance(t, accepted));
    assert OnlyMoved(s, s', t);
    LockFramed(s, s');
  }

  lemma AcquireKeepsLock(s: State, s': State, t: Thread)
    requires LockInv(s) && CanLock(s, t)
    requires s'.owner == Some(t) && s'.depth == s.depth + 1
    requires Holds(s', t) == Holds(s, t) + 1
    requires forall u: Thread :: u != t ==> Holds(s', u) == Holds(s, u)
    requires !OpOf(s', LOOP).Idle? ==> s'.callback.RunsUserCode()
    ensures LockInv(s')
  {
  }

  lemma ReleaseKeepsLock(s: State, s': State, t: Thread)
    requires LockInv(s) && Holds(s, t) > 0
    requires s'.owner == OwnerAfter(s, t, false, true) && s'.depth == DepthAfter(s, false, true)
    requires Holds(s', t) == Holds(s, t) - 1
    requires forall u: Thread :: u != t ==> Holds(s', u) == Holds(s, u)
    requires !OpOf(s', LOOP).Idle? ==> s'.callback.RunsUserCode()
    ensures LockInv(s')
  {
    assert s.owner == Some(t);
  }

  lemma CloseControl(s: State, t: Thread, accepted: bool)
    requires ControlInv(s) && Enabled(s, Advance(t, accepted)) && OpOf(s, t).InClose()
    ensures ControlInv(Apply(s, Advance(t, accepted)))
  {
    var s' := Apply(s, Advance(t, accepted));
    assert OnlyMoved(s, s', t);
    assert s.closer == Some(t);
    assert s.callback.CbAcquire? || s.callback.CbInvoke? ==> Holds(s, LOOP) > 0;
    if OpOf(s, t).CloseLock? {
      AcquireKeepsLock(s, s', t);
    } else if OpOf(s, t).CloseUnlock? {
      ReleaseKeepsLock(s, s', t);
    } else {
      LockFramed(s, s');
    }
  }

  /** A step of the loop that moves no thread and leaves references and fields of `Close` alone. */
  lemma LoopKeepsPhases(s: State, s': State)
    requires RefInv(s) && PhaseInv(s)
    requires s'.ops == s.ops && s'.refs == s.refs && s'.closer == s.closer && s'.wrapperRef == s.wrapperRef
    requires s'.invoke == s.invoke && s'.client == s.client && s'.releases == s.releases
    requires s'.callback.CbAcquire? || s'.callback.CbInvoke? ==> s'.invoke
    ensures RefInv(s') && PhaseInv(s')
  {
    assert forall t: Thread :: OpOf(s', t) == OpOf(s, t);
  }

  lemma CallbackMoves(s: State, cb: Callback, acquired: bool)
    ensures var next := NextCallback(s, cb, acquired);
      && (TakesLock(cb) ==> !cb.HoldsLock() && next.HoldsLock())
      && (GivesLock(cb) ==> cb.HoldsLock() && !next.HoldsLock())
      && (!TakesLock(cb) && !GivesLock(cb) ==> next.HoldsLock() == cb.HoldsLock())
      && (next.CbAcquire? ==> s.invoke)
      && (next.CbInvoke? ==> s.invoke || cb.CbAcquire?)
  {
  }

  lemma LoopLock(s: State, s': State)
    requires LockInv(s) && s'.ops == s.ops && OpOf(s, LOOP).Idle?
    requires s'.owner == OwnerAfter(s, LOOP, TakesLock(s.callback), GivesLock(s.callback))
    requires s'.depth == DepthAfter(s, TakesLock(s.callback), GivesLock(s.callback))
    requires TakesLock(s.callback) ==> CanLock(s, LOOP) && !s.callback.HoldsLock() && s'.callback.HoldsLock()
    requires GivesLock(s.callback) ==> s.callback.HoldsLock() && !s'.callback.HoldsLock()
    requires !TakesLock(s.callback) && !GivesLock(s.callback) ==> s'.callback.HoldsLock() == s.callback.HoldsLock()
    ensures LockInv(s')
  {
    assert forall t: Thread :: OpOf(s', t) == OpOf(s, t);
    if TakesLock(s.callback) {
      AcquireKeepsLock(s, s', LOOP);
    } else if GivesLock(s.callback) {
      ReleaseKeepsLock(s, s', LOOP);
    } else {
      LockFramed(s, s');
    }
  }

  lemma CallbackControl(s: State, acquired: bool)
    requires ControlInv(s) && Enabled(s, AdvanceCallback(acquired))
    ensures ControlInv(Apply(s, AdvanceCallback(acquired)))
  {
    var s' := Apply(s, AdvanceCallback(acquired));
    CallbackMoves(s, s.callback, acquired);
    LoopLock(s, s');
    LoopKeepsPhases(s, s');
  }

  lemma StepControl(s: State, step: Step)
    requires ControlInv(s) && Enabled(s, step)
    ensures ControlInv(Apply(s, step))
  {
    match step
    case CopyRef(_, _) => CopyRefControl(s, step);
    case DropRef(t) =>
      if s.refs == multiset{t} {
        DropLastRefControl(s, t);
      } else {
        DropSharedRefControl(s, t);
      }
    case StartRequest(_, _) => StartRequestControl(s, step);
    case Advance(t, accepted) =>
      if OpOf(s, t).InRequest() {
        RequestControl(s, t, accepted);
      } else {
        CloseControl(s, t, accepted);
      }
    case AdvanceCallback(acquired) => CallbackControl(s, acquired);
    case _ => LoopEventControl(s, step);
  }

  // ---------- Records ----------

  /** A step that neither moves a record nor counts one. */
  lemma LedgerFramed(l: Ledger, ops: map<Thread, Op>, cb: Callback, ops': map<Thread, Op>, cb': Callback, selfRef: bool)
    requires LedgerOk(l, ops, cb, selfRef)
    requires forall t: Thread :: OpIn(ops', t).Record() == OpIn(ops, t).Record()
    requires cb'.Record() == cb.Record()
    requires cb.CmpHandler? || cb.CmpFree? ==> cb'.CmpHandler? || cb'.CmpFree?
    ensures LedgerOk(l, ops', cb', selfRef)
  {
  }

  lemma OpMoves(l: Ledger, ops: map<Thread, Op>, cb: Callback, selfRef: bool, t: Thread, op: Op)
    requires LedgerOk(l, ops, cb, selfRef) && op.Record() == OpIn(ops, t).Record()
    ensures LedgerOk(l, ops[t := op], cb, selfRef)
  {
    LedgerFramed(l, ops, cb, ops[t := op], cb, selfRef);
  }

  lemma StartCompletionLedger(l: Ledger, ops: map<Thread, Op>, cb: Callback, rec: Rec)
    requires LedgerOk(l, ops, NoCallback, true) && rec in l.records && l.records[rec].ByNative?
    requires cb == CmpLock(rec) || cb == CmpFree(rec)
    ensures LedgerOk(l.(records := l.records[rec := ByCallback]), ops, cb, true)
  {
    assert cb.Record() == Some(rec);
  }

  /** Thread `t` moves, and one record changes that is its own before, after, or both. */
  lemma OwnRecordMoves(records: map<Rec, Holder>, records': map<Rec, Holder>, ops: map<Thread, Op>, op: Op,
                       cb: Callback, selfRef: bool, t: Thread, rec: Rec)
    requires RecordInv(records, ops, cb, selfRef)
    requires forall r :: r != rec ==> (r in records' <==> r in records) && (r in records ==> records'[r] == records[r])
    requires OpIn(ops, t).Record() == if rec in records then Some(rec) else None
    requires rec in records ==> records[rec] == ByThread(t)
    requires rec in records' ==> records'[rec] == ByThread(t) || (records'[rec].ByNative? && selfRef)
    requires op.Record() == if rec in records' && records'[rec].ByThread? then Some(rec) else None
    ensures RecordInv(records', ops[t := op], cb, selfRef)
  {
    var ops' := ops[t := op];
    forall u: Thread, r: Rec
      ensures r in records' && records'[r] == ByThread(u) <==> OpIn(ops', u).Record() == Some(r)
    {
      assert u != t ==> OpIn(ops', u) == OpIn(ops, u);
      assert r in records && records[r] == ByThread(u) <==> OpIn(ops, u).Record() == Some(r);
    }
    forall r: Rec ensures r in records' && records'[r].ByCallback? <==> cb.Record() == Some(r) {
      assert r in records && records[r].ByCallback? <==> cb.Record() == Some(r);
    }
  }

  lemma AllocLedger(l: Ledger, ops: map<Thread, Op>, cb: Callback, selfRef: bool, t: Thread, hasHandler: bool)
    requires LedgerOk(l, ops, cb, selfRef) && OpIn(ops, t).ReqAlloc?
    ensures LedgerOk(Allocate(l, t, hasHandler), ops[t := ReqSubmit(l.nextRec)], cb, selfRef)
  {
    var records := Allocate(l, t, hasHandler).records;
    OwnRecordMoves(l.records, records, ops, ReqSubmit(l.nextRec), cb, selfRef, t, l.nextRec);
    AllocKeepsCounts(l, cb, t, hasHandler);
  }

  lemma AllocKeepsCounts(l: Ledger, cb: Callback, t: Thread, hasHandler: bool)
    requires FreeInv(l) && HandledInv(l, cb)
    ensures FreeInv(Allocate(l, t, hasHandler)) && HandledInv(Allocate(l, t, hasHandler), cb)
  {
  }

  lemma AcceptLedger(l: Ledger, ops: map<Thread, Op>, cb: Callback, t: Thread)
    requires LedgerOk(l, ops, cb, true) && OpIn(ops, t).ReqSubmit?
    ensures LedgerOk(l.(records := l.records[OpIn(ops, t).rec := ByNative]), ops[t := Idle], cb, true)
  {
    var rec := OpIn(ops, t).rec;
    assert OpIn(ops, t).Record() == Some(rec);
    OwnRecordMoves(l.records, l.records[rec := ByNative], ops, Idle, cb, true, t, rec);
    AcceptKeepsCounts(l, cb, rec);
  }

  lemma AcceptKeepsCounts(l: Ledger, cb: Callback, rec: Rec)
    requires FreeInv(l) && HandledInv(l, cb) && rec in l.records
    ensures var l' := l.(records := l.records[rec := ByNative]); FreeInv(l') && HandledInv(l', cb)
  {
  }

  lemma FreeKeeps(l: Ledger, rec: Rec)
    requires FreeInv(l) && rec in l.records
    ensures FreeInv(Free(l, rec))
  {
  }

  lemma RejectLedger(l: Ledger, ops: map<Thread, Op>, cb: Callback, selfRef: bool, t: Thread)
    requires LedgerOk(l, ops, cb, selfRef) && OpIn(ops, t).ReqFree?
    ensures LedgerOk(Free(l, OpIn(ops, t).rec), ops[t := Idle], cb, selfRef)
  {
    var rec := OpIn(ops, t).rec;
    assert OpIn(ops, t).Record() == Some(rec);
    OwnRecordMoves(l.records, l.records - {rec}, ops, Idle, cb, selfRef, t, rec);
    FreeKeeps(l, rec);
    RejectKeepsHandled(l, cb, rec);
  }

  lemma RejectKeepsHandled(l: Ledger, cb: Callback, rec: Rec)
    requires HandledInv(l, cb)
    ensures HandledInv(Free(l, rec), cb)
  {
  }

  lemma HandledLedger(l: Ledger, ops: map<Thread, Op>, rec: Rec, selfRef: bool)
    requires LedgerOk(l, ops, CmpInvoke(rec), selfRef)
    ensures LedgerOk(l.(handled := l.handled + multiset{rec}), ops, CmpHandler(rec), selfRef)
  {
    assert CmpInvoke(rec).Record() == CmpHandler(rec).Record() == Some(rec);
    assert rec !in l.handled;
  }

  lemma CompletedLedger(l: Ledger, ops: map<Thread, Op>, rec: Rec, selfRef: bool)
    requires LedgerOk(l, ops, CmpFree(rec), selfRef)
    ensures LedgerOk(Free(l, rec), ops, NoCallback, selfRef)
  {
    assert CmpFree(rec).Record() == Some(rec);
    FreeKeeps(l, rec);
  }

  /** A request runs on a reference, so the native client is not even released. */
  lemma RequestFindsNative(s: State, t: Thread)
    requires ControlInv(s) && OpOf(s, t).InRequest()
    ensures s.selfRef && s.client && s.invoke && s.coreAlive
  {
    assert t in s.refs;
  }

  lemma OpLedgerInv(s: State, t: Thread, accepted: bool)
    requires LedgerInv(s) && Enabled(s, Advance(t, accepted))
    requires OpOf(s, t).ReqSubmit? ==> s.selfRef
    ensures LedgerInv(Apply(s, Advance(t, accepted)))
  {
    var op := OpOf(s, t);
    if op.ReqAlloc? {
      AllocLedger(s.ledger, s.ops, s.callback, s.selfRef, t, op.hasHandler);
    } else if op.ReqSubmit? && accepted {
      AcceptLedger(s.ledger, s.ops, s.callback, t);
    } else if op.ReqFree? {
      RejectLedger(s.ledger, s.ops, s.callback, s.selfRef, t);
    } else {
      OtherOpsMoveNoRecord(s, op, t, accepted);
      OpMoves(s.ledger, s.ops, s.callback, s.selfRef, t, NextOp(s, op, accepted));
    }
    ApplyLedger(s, t, accepted);
  }

  lemma OtherOpsMoveNoRecord(s: State, op: Op, t: Thread, accepted: bool)
    requires !op.ReqAlloc? && !op.ReqFree? && !(op.ReqSubmit? && accepted)
    ensures NextOp(s, op, accepted).Record() == op.Record()
    ensures OpLedger(s.ledger, t, op, accepted) == s.ledger
  {
  }

  lemma ApplyLedger(s: State, t: Thread, accepted: bool)
    requires Enabled(s, Advance(t, accepted))
    ensures var s' := Apply(s, Advance(t, accepted));
      && s'.ledger == OpLedger(s.ledger, t, OpOf(s, t), accepted) && s'.callback == s.callback
      && s'.ops == s.ops[t := NextOp(s, OpOf(s, t), accepted)] && s'.selfRef == s.selfRef && s'.acks == s.acks
      && (s'.client ==> s.client)
  {
  }

  lemma ApplyCallback(s: State, acquired: bool)
    requires Enabled(s, AdvanceCallback(acquired))
    ensures var s' := Apply(s, AdvanceCallback(acquired));
      && s'.ledger == CallbackLedger(s.ledger, s.callback) && s'.callback == NextCallback(s, s.callback, acquired)
      && s'.ops == s.ops && s'.selfRef == s.selfRef && s'.invoke == s.invoke && s'.client == s.client
      && s'.acks == CallbackAcks(s.acks, s.callback, s.client, acquired)
      && s'.started == if s.callback.CbInvoke? then s.started + [s.callback.event] else s.started
  {
  }

  lemma CallbackRecord(s: State, cb: Callback, acquired: bool)
    requires !cb.CmpFree? && !cb.CmpInvoke?
    ensures NextCallback(s, cb, acquired).Record() == cb.Record()
    ensures cb.CmpHandler? ==> NextCallback(s, cb, acquired).CmpFree?
    ensures CallbackLedger(s.ledger, cb) == s.ledger
  {
  }

  lemma InvokeStepLedger(s: State, acquired: bool)
    requires LedgerInv(s) && Enabled(s, AdvanceCallback(acquired)) && s.callback.CmpInvoke?
    ensures LedgerInv(Apply(s, AdvanceCallback(acquired)))
  {
    ApplyCallback(s, acquired);
    HandledLedger(s.ledger, s.ops, s.callback.rec, s.selfRef);
  }

  lemma FreeStepLedger(s: State, acquired: bool)
    requires LedgerInv(s) && Enabled(s, AdvanceCallback(acquired)) && s.callback.CmpFree?
    ensures LedgerInv(Apply(s, AdvanceCallback(acquired)))
  {
    ApplyCallback(s, acquired);
    CompletedLedger(s.ledger, s.ops, s.callback.rec, s.selfRef);
  }

  lemma CallbackLedgerInv(s: State, acquired: bool)
    requires LedgerInv(s) && Enabled(s, AdvanceCallback(acquired))
    ensures LedgerInv(Apply(s, AdvanceCallback(acquired)))
  {
    if s.callback.CmpInvoke? {
      InvokeStepLedger(s, acquired);
    } else if s.callback.CmpFree? {
      FreeStepLedger(s, acquired);
    } else {
      ApplyCallback(s, acquired);
      CallbackRecord(s, s.callback, acquired);
      LedgerFramed(s.ledger, s.ops, s.callback, s.ops, NextCallback(s, s.callback, acquired), s.selfRef);
    }
  }

  lemma StepLedger(s: State, step: Step)
    requires ControlInv(s) && LedgerInv(s) && Enabled(s, step)
    ensures LedgerInv(Apply(s, step))
  {
    match step
    case Advance(t, accepted) =>
      if OpOf(s, t).InRequest() {
        RequestFindsNative(s, t);
      }
      OpLedgerInv(s, t, accepted);
    case AdvanceCallback(acquired) => CallbackLedgerInv(s, acquired);
    case StartCompletion(rec) => StartCompletionLedger(s.ledger, s.ops, Apply(s, step).callback, rec);
    case StartEvent(event) => LedgerFramed(s.ledger, s.ops, s.callback, s.ops, CbLock(event), s.selfRef);
    case CallAcquire(_, _) =>
    case DropRef(t) => OpMoves(s.ledger, s.ops, s.callback, s.selfRef, t, CloseLock);
    case StartRequest(t, hasHandler) => OpMoves(s.ledger, s.ops, s.callback, s.selfRef, t, ReqCheck(hasHandler));
    case CopyRef(_, _) =>
    case Terminate =>
  }

  // ---------- Acknowledgements ----------

  lemma TakenInside(k: Acks, a: Ack, client: bool)
    requires AcksOk(k, Some(a), client) && a in k.held
    ensures AcksOk(k.(held := k.held - {a}, handed := k.handed + multiset{a}), Some(a), client)
  {
  }

  lemma TakenLate(k: Acks, current: Option<Ack>, a: Ack, client: bool)
    requires AcksOk(k, current, client) && a in k.held && current != Some(a)
    ensures AcksOk(k.(held := k.held - {a}, late := k.late + multiset{a}), current, client)
  {
  }

  lemma SettledOk(k: Acks, a: Ack, client: bool)
    requires AcksOk(k, Some(a), client) && a in k.held
    ensures client ==> AcksOk(k.(invoked := k.invoked + multiset{a}), None, client)
    ensures !client ==> AcksOk(k.(dropped := k.dropped + multiset{a}), None, client)
  {
  }

  lemma CallbackCurrent(s: State, cb: Callback, acquired: bool)
    requires !cb.CbAcquire? && !cb.CbSettle?
    ensures NextCallback(s, cb, acquired).Current() == cb.Current()
    ensures CallbackAcks(s.acks, cb, s.client, acquired) == s.acks
  {
  }

  lemma AcquireOk(k: Acks, client: bool)
    requires AcksOk(k, None, client)
    ensures AcksOk(k.(nextAck := k.nextAck + 1, held := k.held + {k.nextAck}), Some(k.nextAck), client)
  {
    assert k.nextAck !in k.held && k.nextAck !in k.late;
  }

  lemma AcquireStepAcks(s: State, acquired: bool)
    requires AckInv(s) && Enabled(s, AdvanceCallback(acquired)) && s.callback.CbAcquire?
    ensures AckInv(Apply(s, AdvanceCallback(acquired)))
  {
    AcquireOk(s.acks, s.client);
  }

  lemma SettleStepAcks(s: State, acquired: bool)
    requires AckInv(s) && Enabled(s, AdvanceCallback(acquired)) && s.callback.CbSettle?
    ensures AckInv(Apply(s, AdvanceCallback(acquired)))
  {
    var s' := Apply(s, AdvanceCallback(acquired));
    assert s'.callback.Current().None? && s'.client == s.client;
    if s.callback.fn.Some? && s.callback.fn.value in s.acks.held {
      SettledOk(s.acks, s.callback.fn.value, s.client);
    } else {
      assert s'.acks == s.acks;
    }
  }

  lemma CallbackAcksInv(s: State, acquired: bool)
    requires AckInv(s) && Enabled(s, AdvanceCallback(acquired))
    ensures AckInv(Apply(s, AdvanceCallback(acquired)))
  {
    if s.callback.CbAcquire? {
      AcquireStepAcks(s, acquired);
    } else if s.callback.CbSettle? {
      SettleStepAcks(s, acquired);
    } else {
      CallbackCurrent(s, s.callback, acquired);
    }
  }

  /** A functor that can be called is either that of the handler that is running, or one that has been settled. */
  lemma CallStepAcks(s: State, t: Thread, a: Ack)
    requires ControlInv(s) && AckInv(s) && Enabled(s, CallAcquire(t, a))
    ensures AckInv(Apply(s, CallAcquire(t, a)))
  {
    if GetsHandle(s.acks, t, a) {
      if s.callback.Hands(a) {
        TakenInside(s.acks, a, s.client);
      } else {
        assert s.callback.RunsUserCode();
        TakenLate(s.acks, s.callback.Current(), a, s.client);
      }
    }
  }

  lemma StepAcks(s: State, step: Step)
    requires ControlInv(s) && AckInv(s) && Enabled(s, step)
    ensures AckInv(Apply(s, step))
  {
    if step.CallAcquire? {
      CallStepAcks(s, step.t, step.a);
    } else if step.AdvanceCallback? {
      CallbackAcksInv(s, step.acquired);
    } else if step.Advance? {
      ApplyLedger(s, step.t, step.accepted);
    }
  }

  lemma StepInv(s: State, step: Step)
    requires Inv(s) && Enabled(s, step)
    ensures Inv(Apply(s, step))
  {
    StepControl(s, step);
    StepLedger(s, step);
    StepAcks(s, step);
  }

  lemma {:induction false} RunInv(states: seq<State>, steps: seq<Step>, i: nat)
    requires IsRun(states, steps) && i < |states|
    ensures Inv(states[i])
  {
    if i == 0 {
      InitialInv(states[0]);
    } else {
      RunInv(states, steps, i - 1);
      StepInv(states[i - 1], steps[i - 1]);
    }
  }

  // ---------- Acknowledgements: who gets the handle ----------

  /** A step before the `i`-th called the functor of `a` on the callback's thread. */
  ghost predicate CalledBefore(steps: seq<Step>, i: nat, a: Ack) {
    exists j :: 0 <= j < i && j < |steps| && steps[j] == CallAcquire(LOOP, a)
  }

  lemma CalledOneMore(steps: seq<Step>, i: nat, a: Ack)
    requires i < |steps|
    ensures CalledBefore(steps, i + 1, a) <==> CalledBefore(steps, i, a) || steps[i] == CallAcquire(LOOP, a)
  {
  }

  /** How a step changes what one functor holds. */
  lemma HeldStep(s: State, step: Step, a: Ack)
    requires Enabled(s, step)
    ensures var k, k' := s.acks, Apply(s, step).acks;
      && k'.nextAck >= k.nextAck
      && (a < k.nextAck ==> (a in k'.held <==> a in k.held && step != CallAcquire(LOOP, a)))
      && (k.nextAck <= a < k'.nextAck ==> a in k'.held)
      && (step == CallAcquire(LOOP, a) ==> a < k.nextAck)
  {
    if step.Advance? {
      ApplyLedger(s, step.t, step.accepted);
    }
  }

  lemma RunHeldStep(states: seq<State>, steps: seq<Step>, i: nat, a: Ack)
    requires IsRun(states, steps) && i < |steps|
    ensures var k, k' := states[i].acks, states[i + 1].acks;
      && k'.nextAck >= k.nextAck
      && (a < k.nextAck ==> (a in k'.held <==> a in k.held && steps[i] != CallAcquire(LOOP, a)))
      && (k.nextAck <= a < k'.nextAck ==> a in k'.held)
      && (steps[i] == CallAcquire(LOOP, a) ==> a < k.nextAck)
  {
    HeldStep(states[i], steps[i], a);
  }

  ghost predicate HeldUntilCalled(k: Acks, a: Ack, called: bool) {
    if a < k.nextAck then a in k.held <==> !called else !called
  }

  lemma RunHeldUntilCalled(states: seq<State>, steps: seq<Step>, i: nat, a: Ack)
    requires IsRun(states, steps) && i < |steps| && HeldUntilCalled(states[i].acks, a, CalledBefore(steps, i, a))
    ensures HeldUntilCalled(states[i + 1].acks, a, CalledBefore(steps, i + 1, a))
  {
    RunHeldStep(states, steps, i, a);
    CalledOneMore(steps, i, a);
  }

  /** A functor holds its handle exactly until it is first called on the callback's thread. */
  lemma {:induction false} HeldIffUncalled(states: seq<State>, steps: seq<Step>, i: nat, a: Ack)
    requires IsRun(states, steps) && i < |states|
    ensures a < states[i].acks.nextAck ==> (a in states[i].acks.held <==> !CalledBefore(steps, i, a))
    ensures a >= states[i].acks.nextAck ==> !CalledBefore(steps, i, a)
    ensures HeldUntilCalled(states[i].acks, a, CalledBefore(steps, i, a))
  {
    if i > 0 {
      HeldIffUncalled(states, steps, i - 1, a);
      RunHeldUntilCalled(states, steps, i - 1, a);
    }
  }

  /** Over a whole run exactly the first call on the callback's thread gets the handle, inside the callback or not. */
  lemma FirstCallGetsHandle(states: seq<State>, steps: seq<Step>, i: nat, t: Thread, a: Ack)
    requires IsRun(states, steps) && i < |steps| && steps[i] == CallAcquire(t, a)
    ensures GetsHandle(states[i].acks, t, a) <==> t == LOOP && !CalledBefore(steps, i, a)
    ensures var k, k' := states[i].acks, states[i + 1].acks;
      k'.handed[a] + k'.late[a] == k.handed[a] + k.late[a] + if t == LOOP && !CalledBefore(steps, i, a) then 1 else 0
  {
    HeldIffUncalled(states, steps, i, a);
  }

  // ---------- Acknowledgements: one fate, or two ----------

  /** The `j`-th step is a late call that gets the handle: the first call, and the callback is over. */
  ghost predicate TakesLate(states: seq<State>, steps: seq<Step>, j: nat, a: Ack)
    requires j < |steps| && j < |states|
  {
    steps[j] == CallAcquire(LOOP, a) && !CalledBefore(steps, j, a) && !states[j].callback.Hands(a)
  }

  ghost predicate TakenLateBefore(states: seq<State>, steps: seq<Step>, i: nat, a: Ack) {
    exists j :: 0 <= j < i && j < |steps| && j < |states| && TakesLate(states, steps, j, a)
  }

  lemma TakenOneMore(states: seq<State>, steps: seq<Step>, i: nat, a: Ack)
    requires i < |steps| && i < |states|
    ensures TakenLateBefore(states, steps, i + 1, a) <==>
      TakenLateBefore(states, steps, i, a) || TakesLate(states, steps, i, a)
  {
  }

  lemma LateStep(s: State, step: Step, a: Ack)
    requires Enabled(s, step)
    ensures Apply(s, step).acks.late[a] == s.acks.late[a] +
      if step == CallAcquire(LOOP, a) && a in s.acks.held && !s.callback.Hands(a) then 1 else 0
  {
    if step.Advance? {
      ApplyLedger(s, step.t, step.accepted);
    }
  }

  lemma RunLateStep(states: seq<State>, steps: seq<Step>, i: nat, a: Ack)
    requires IsRun(states, steps) && i < |steps|
    ensures states[i + 1].acks.late[a] == states[i].acks.late[a] + if TakesLate(states, steps, i, a) then 1 else 0
    ensures states[i + 1].acks.late[a] <= 1
  {
    LateStep(states[i], steps[i], a);
    HeldIffUncalled(states, steps, i, a);
    RunInv(states, steps, i + 1);
  }

  lemma {:induction false} LateIffTaken(states: seq<State>, steps: seq<Step>, i: nat, a: Ack)
    requires IsRun(states, steps) && i < |states|
    ensures states[i].acks.late[a] == if TakenLateBefore(states, steps, i, a) then 1 else 0
  {
    if i > 0 {
      LateIffTaken(states, steps, i - 1, a);
      RunLateStep(states, steps, i - 1, a);
      TakenOneMore(states, steps, i - 1, a);
    }
  }

  /**
   Whatever the user does, every acquired acknowledgement is sent once by the core, or handed once to the user,
   or dropped because the client was closed, and never two of these, exactly as long as no call after the
   callback takes its handle. After such a call it has met two.
   */
  lemma EveryAckMeetsOneFate(states: seq<State>, steps: seq<Step>, i: nat, a: Ack)
    requires IsRun(states, steps) && i < |states| && a < states[i].acks.nextAck
    requires !Unsettled(states[i].acks, states[i].callback.Current(), a)
    ensures var k := states[i].acks;
      k.invoked[a] + k.handed[a] + k.late[a] + k.dropped[a] == if TakenLateBefore(states, steps, i, a) then 2 else 1
    ensures a in states[i].acks.dropped ==> !states[i].client && !states[i].invoke
  {
    RunInv(states, steps, i);
    LateIffTaken(states, steps, i, a);
    var s := states[i];
    if a in s.acks.dropped && s.closer.Some? && s.wrapperRef {
      assert OpOf(s, s.closer.value).InClose();
    }
  }

  /** While it is being delivered and nobody has called the functor, an acknowledgement has met no fate yet. */
  lemma UnsettledAckIsUnspent(states: seq<State>, steps: seq<Step>, i: nat, a: Ack)
    requires IsRun(states, steps) && i < |states| && states[i].callback.Current() == Some(a)
    requires !CalledBefore(steps, i, a)
    ensures var k := states[i].acks; k.invoked[a] + k.handed[a] + k.late[a] + k.dropped[a] == 0
  {
    RunInv(states, steps, i);
    HeldIffUncalled(states, steps, i, a);
  }

  /**
   The header says a call after the callback has returned yields nothing. In the code it does so exactly if the
   functor was called before on the callback's thread; otherwise it hands out an acknowledgement already spent.
   */
  lemma LateCallHandsOutSpentAck(states: seq<State>, steps: seq<Step>, i: nat, a: Ack)
    requires IsRun(states, steps) && i < |steps| && steps[i] == CallAcquire(LOOP, a)
    requires !states[i].callback.Hands(a)
    ensures states[i + 1].acks == states[i].acks <==> CalledBefore(steps, i, a)
    ensures !CalledBefore(steps, i, a) ==>
      && states[i].acks.invoked[a] + states[i].acks.dropped[a] == 1
      && states[i + 1].acks.late[a] == 1
  {
    RunInv(states, steps, i);
    HeldIffUncalled(states, steps, i, a);
    var s := states[i];
    assert s.callback.RunsUserCode() && s.callback.Current() != Some(a);
    assert a in s.acks.held ==> states[i + 1].acks.held != s.acks.held;
  }

  lemma ExtendRun(states: seq<State>, steps: seq<Step>, step: Step) returns (longer: seq<State>, more: seq<Step>)
    requires IsRun(states, steps) && Enabled(states[|steps|], step)
    ensures IsRun(longer, more) && |more| == |steps| + 1 && longer[|more|] == Apply(states[|steps|], step)
  {
    longer, more := states + [Apply(states[|steps|], step)], steps + [step];
  }

  /** The loop delivers a QoS 1 publish to a client that nobody else uses. */
  function Delivering(cb: Callback, locked: bool, k: Acks, started: seq<Event>): State {
    Created(LOOP).(callback := cb, acks := k, started := started,
                   owner := if locked then Some(LOOP) else None, depth := if locked then 1 else 0)
  }

  const ACQUIRED := NO_ACKS.(nextAck := 1, held := {0})
  const SENT := NO_ACKS.(nextAck := 1, held := {0}, invoked := multiset{0})

  lemma PublishArrives() returns (states: seq<State>, steps: seq<Step>)
    ensures IsRun(states, steps) && states[|steps|] == Delivering(CbAcquire, true, NO_ACKS, [])
  {
    states, steps := [Created(LOOP)], [];
    states, steps := ExtendRun(states, steps, StartEvent(PublishReceived(true)));
    assert states[|steps|] == Delivering(CbLock(PublishReceived(true)), false, NO_ACKS, []);
    states, steps := ExtendRun(states, steps, AdvanceCallback(true));
    assert states[|steps|] == Delivering(CbCheck(PublishReceived(true)), true, NO_ACKS, []);
    states, steps := ExtendRun(states, steps, AdvanceCallback(true));
  }

  lemma HandlerReturns() returns (states: seq<State>, steps: seq<Step>)
    ensures IsRun(states, steps)
    ensures states[|steps|] == Delivering(CbSettle(Some(0)), true, ACQUIRED, [PublishReceived(true)])
  {
    states, steps := PublishArrives();
    states, steps := ExtendRun(states, steps, AdvanceCallback(true));
    assert states[|steps|] == Delivering(CbInvoke(PublishReceived(true), Some(0)), true, ACQUIRED, []);
    states, steps := ExtendRun(states, steps, AdvanceCallback(true));
    var handler := CbHandler(PublishReceived(true), Some(0));
    assert states[|steps|] == Delivering(handler, true, ACQUIRED, [PublishReceived(true)]);
    states, steps := ExtendRun(states, steps, AdvanceCallback(true));
  }

  lemma CallbackReturns() returns (states: seq<State>, steps: seq<Step>)
    ensures IsRun(states, steps) && states[|steps|] == Delivering(NoCallback, false, SENT, [PublishReceived(true)])
  {
    states, steps := HandlerReturns();
    states, steps := ExtendRun(states, steps, AdvanceCallback(true));
    assert states[|steps|] == Delivering(CbUnlock, true, SENT, [PublishReceived(true)]);
    states, steps := ExtendRun(states, steps, AdvanceCallback(true));
  }

  /** A publish is delivered, its acknowledgement sent by the core, and then the user takes it all the same. */
  lemma SpentAckHandedOut() returns (states: seq<State>, steps: seq<Step>)
    ensures IsRun(states, steps)
    ensures var k := states[|steps|].acks; k.invoked[0] == 1 && k.late[0] == 1
  {
    states, steps := CallbackReturns();
    states, steps := ExtendRun(states, steps, CallAcquire(LOOP, 0));
  }

  // ---------- No event handler once the client is closed ----------

  /** The step that enters a lifecycle or publish-received handler. */
  predicate StartsEventHandler(s: State, step: Step) {
    step.AdvanceCallback? && s.callback.CbInvoke?
  }

  lemma FlagStays(s: State, step: Step)
    requires Enabled(s, step) && !s.invoke
    ensures !Apply(s, step).invoke
  {
  }

  lemma {:induction false} FlagForGood(states: seq<State>, steps: seq<Step>, i: nat, j: nat)
    requires IsRun(states, steps) && i <= j < |states| && !states[i].invoke
    ensures !states[j].invoke
    decreases j
  {
    if i < j {
      FlagForGood(states, steps, i, j - 1);
      FlagStays(states[j - 1], steps[j - 1]);
    }
  }

  lemma NoEventHandlerStartsAfterClose(states: seq<State>, steps: seq<Step>, i: nat, j: nat)
    requires IsRun(states, steps) && i <= j < |steps| && !states[i].invoke
    ensures !StartsEventHandler(states[j], steps[j])
  {
    FlagForGood(states, steps, i, j);
    RunInv(states, steps, j);
  }

  /** When a `Close` off the loop gives the lock back, no lifecycle or publish-received handler is running. */
  lemma CloseWaitsForEventHandlers(states: seq<State>, steps: seq<Step>, i: nat, t: Thread, accepted: bool)
    requires IsRun(states, steps) && i < |steps| && steps[i] == Advance(t, accepted) && t != LOOP
    requires OpOf(states[i], t).CloseUnlock?
    ensures !states[i].invoke && !states[i].callback.InEvent()
  {
    RunInv(states, steps, i);
    var s := states[i];
    assert Holds(s, t) > 0 && s.owner == Some(t) && s.closer == Some(t);
    assert s.callback.InEvent() ==> Holds(s, LOOP) > 0;
  }

  // ---------- Operation records ----------

  /** Each record is freed at most once, and its completion handler runs at most once, before that. */
  lemma RecordsFreedAndHandledAtMostOnce(states: seq<State>, steps: seq<Step>, i: nat, rec: Rec)
    requires IsRun(states, steps) && i < |states|
    ensures states[i].ledger.freed[rec] <= 1 && states[i].ledger.handled[rec] <= 1
    ensures rec in states[i].ledger.records ==> rec !in states[i].ledger.freed
    ensures states[i].callback.CmpInvoke? && states[i].callback.rec == rec ==>
      rec in states[i].ledger.records && rec !in states[i].ledger.handled
  {
    RunInv(states, steps, i);
    assert states[i].callback.CmpInvoke? ==> states[i].callback.Record() == Some(states[i].callback.rec);
  }

  /** Once the native client has terminated, every record ever allocated has been freed exactly once. */
  lemma NoRecordLeaks(states: seq<State>, steps: seq<Step>, i: nat, rec: Rec)
    requires IsRun(states, steps) && i < |states| && !states[i].selfRef && rec < states[i].ledger.nextRec
    ensures states[i].ledger.freed[rec] == 1 && rec !in states[i].ledger.records
  {
    RunInv(states, steps, i);
    var s := states[i];
    assert s.callback.Record() != Some(rec);
    forall t: Thread ensures !OpIn(s.ops, t).InRequest() {
      if OpOf(s, t).InRequest() {
        RequestFindsNative(s, t);
      }
    }
    assert forall t: Thread :: OpIn(s.ops, t).Record() != Some(rec);
    assert rec in s.ledger.records && s.ledger.records[rec].ByThread? ==>
      OpIn(s.ops, s.ledger.records[rec].t).Record() == Some(rec);
  }

  // ---------- The native client and the core ----------

  /** The native client is released once; until then every request finds it. */
  lemma ClientReleasedOnce(states: seq<State>, steps: seq<Step>, i: nat)
    requires IsRun(states, steps) && i < |states|
    ensures states[i].releases <= 1
    ensures states[i].client && states[i].invoke ==> states[i].releases == 0
    ensures !states[i].wrapperRef ==> states[i].releases == 1
    ensures forall t: Thread :: OpOf(states[i], t).InRequest() ==> states[i].client && states[i].releases == 0
    ensures states[i].callback.CbAcquire? ==> states[i].client
  {
    RunInv(states, steps, i);
    var s := states[i];
    if s.closer.Some? && s.wrapperRef {
      assert OpOf(s, s.closer.value).InClose();
    }
    forall t: Thread | OpOf(s, t).InRequest() ensures s.client && s.releases == 0 {
      RequestFindsNative(s, t);
    }
  }

  /** Nothing is leaked: with no references left and no call under way, the client is closed and released. */
  lemma ReleasedWhenUnreferenced(states: seq<State>, steps: seq<Step>, i: nat)
    requires IsRun(states, steps) && i < |states| && states[i].refs == multiset{}
    requires forall t: Thread :: OpOf(states[i], t).Idle?
    ensures states[i].releases == 1 && !states[i].client && !states[i].invoke && !states[i].wrapperRef
  {
    RunInv(states, steps, i);
    var s := states[i];
    assert s.closer.Some? && !OpOf(s, s.closer.value).InClose();
  }

  predicate TouchesCore(step: Step) {
    step.StartRequest? || step.StartEvent? || step.StartCompletion? || step.Terminate?
    || step.Advance? || step.AdvanceCallback?
  }

  /** The core is alive whenever a thread, a callback or the termination touches it. */
  lemma CoreOutlivesItsUsers(states: seq<State>, steps: seq<Step>, i: nat)
    requires IsRun(states, steps) && i < |steps| && TouchesCore(steps[i])
    ensures states[i].coreAlive
  {
    RunInv(states, steps, i);
    var s := states[i];
    if steps[i].StartRequest? {
      assert s.refs != multiset{};
    } else if steps[i].Advance? {
      var t := steps[i].t;
      assert OpOf(s, t).InClose() ==> s.wrapperRef;
      if OpOf(s, t).InRequest() {
        RequestFindsNative(s, t);
      }
    }
  }

  /** The core goes exactly when the wrapper has dropped it and the native client has terminated. */
  lemma CoreLivesUntilDropAndTermination(states: seq<State>, steps: seq<Step>, i: nat)
    requires IsRun(states, steps) && i < |states|
    ensures states[i].coreAlive <==> states[i].wrapperRef || states[i].selfRef
    ensures !states[i].coreAlive ==> states[i].owner.None? && states[i].callback.NoCallback?
    ensures !states[i].coreAlive ==> forall t: Thread :: OpOf(states[i], t).Idle?
  {
    RunInv(states, steps, i);
    var s := states[i];
    if !s.coreAlive {
      forall t: Thread ensures OpOf(s, t).Idle? {
        assert !OpOf(s, t).InClose();
        assert OpOf(s, t).InRequest() ==> t in s.refs;
      }
      assert forall t: Thread :: s.owner != Some(t);
    }
  }
}
