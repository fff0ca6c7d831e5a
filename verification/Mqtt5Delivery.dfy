/**
 What the MQTT5 client core owes its user (source/mqtt/Mqtt5ClientCore.cpp): an event starts the handler it is
 for, a request hands one record to the native client or frees it, and the completion of an accepted operation
 runs the user's completion handler, each exactly once, unless the client has been closed.
 */
module Mqtt5Delivery {
  import opened Mqtt5Core
  import opened Options

  /** In the `j`-th step the loop takes the mutex, which it did not hold. */
  ghost predicate LoopLocksAt(states: seq<State>, j: nat)
    requires j + 1 < |states|
  {
    states[j].owner != Some(LOOP) && states[j + 1].owner == Some(LOOP)
  }

  lemma LoopLocks(s: State, step: Step)
    requires Inv(s) && Enabled(s, step) && step.AdvanceCallback? && TakesLock(s.callback)
    ensures s.owner != Some(LOOP) && Apply(s, step).owner == Some(LOOP)
  {
    assert Holds(s, LOOP) == 0;
  }

  /** While the loop is inside the mutex and outside user code, nobody closes the client. */
  lemma FlagSteady(s: State, step: Step)
    requires Inv(s) && Enabled(s, step) && (s.callback.CbCheck? || s.callback.CmpCheck?)
    ensures Apply(s, step).invoke == s.invoke
  {
    if step.Advance? {
      assert Holds(s, LOOP) > 0;
      assert OpOf(s, step.t).CloseFlag? ==> Holds(s, step.t) > 0;
    }
  }

  lemma OthersLeaveCallback(s: State, step: Step)
    requires Enabled(s, step) && !step.AdvanceCallback? && !s.callback.NoCallback?
    ensures var s' := Apply(s, step);
      && s'.callback == s.callback && s'.started == s.started
      && s'.acks.nextAck == s.acks.nextAck && s'.ledger.handled == s.ledger.handled
  {
    if step.Advance? {
      ApplyLedger(s, step.t, step.accepted);
      OpKeepsHandled(s.ledger, step.t, OpOf(s, step.t), step.accepted);
    }
  }

  lemma OpKeepsHandled(l: Ledger, t: Thread, op: Op, accepted: bool)
    ensures OpLedger(l, t, op, accepted).handled == l.handled
  {
  }

  // ---------- Events ----------

  predicate HasHandler(event: Event) {
    event.PublishReceived? || event.hasHandler
  }

  function StartedBy(before: seq<Event>, due: bool, event: Event): seq<Event> {
    if due then before + [event] else before
  }

  /** Steps `k` to `e` are one native callback for `event`, from its start to its return. */
  ghost predicate IsEvent(states: seq<State>, steps: seq<Step>, k: nat, e: nat, event: Event)
    requires |states| == |steps| + 1
  {
    && k < e < |steps| && steps[k] == StartEvent(event)
    && (forall i :: k < i <= e ==> !states[i].callback.NoCallback?)
    && states[e + 1].callback.NoCallback?
  }

  /** The handlers started and acknowledgements acquired so far stand as they were. */
  predicate AsBefore(s: State, s0: State) {
    s.started == s0.started && s.acks.nextAck == s0.acks.nextAck
  }

  /** What has come of the event once its handler has been called, or passed over. */
  predicate Outcome(s: State, s0: State, event: Event, due: bool, acquired: bool) {
    && s.started == StartedBy(s0.started, due, event)
    && s.acks.nextAck == s0.acks.nextAck + if due && event == PublishReceived(true) && acquired then 1 else 0
  }

  /** A callback that took the mutex while the client was open or closed; `acquired` is what acquiring gave. */
  ghost predicate Delivering(s: State, s0: State, event: Event, open: bool, acquired: bool) {
    var due := open && HasHandler(event);
    var got := event == PublishReceived(true) && acquired;
    match s.callback
    case CbCheck(ev) => ev == event && AsBefore(s, s0) && s.invoke == open
    case CbAcquire => event == PublishReceived(true) && open && AsBefore(s, s0)
    case CbInvoke(ev, fn) =>
      && ev == event && due && fn.Some? == got
      && s.started == s0.started && s.acks.nextAck == s0.acks.nextAck + if got then 1 else 0
    case CbHandler(ev, fn) => ev == event && due && fn.Some? == got && Outcome(s, s0, event, due, acquired)
    case CbSettle(_) => due && Outcome(s, s0, event, due, acquired)
    case CbUnlock => Outcome(s, s0, event, due, acquired)
    case _ => false
  }

  /** Before the acquisition its answer plays no part. */
  lemma AnswerOpen(s: State, s0: State, event: Event, open: bool, acquired: bool, acquired': bool)
    requires Delivering(s, s0, event, open, acquired) && (s.callback.CbCheck? || s.callback.CbAcquire?)
    ensures Delivering(s, s0, event, open, acquired')
  {
  }

  lemma OwnDelivery(s: State, s0: State, event: Event, open: bool, acquired: bool, answer: bool)
    requires Enabled(s, AdvanceCallback(answer)) && Delivering(s, s0, event, open, acquired)
    requires s.callback.CbAcquire? ==> acquired == answer
    ensures var s' := Apply(s, AdvanceCallback(answer));
      if s'.callback.NoCallback? then Outcome(s', s0, event, open && HasHandler(event), acquired)
      else Delivering(s', s0, event, open, acquired)
  {
    ApplyCallback(s, answer);
  }

  lemma DeliveryStep(s: State, step: Step, s0: State, event: Event, open: bool, acquired: bool)
    requires Inv(s) && Enabled(s, step) && Delivering(s, s0, event, open, acquired)
    requires s.callback.CbAcquire? && step.AdvanceCallback? ==> acquired == step.acquired
    ensures var s' := Apply(s, step);
      if s'.callback.NoCallback? then Outcome(s', s0, event, open && HasHandler(event), acquired)
      else Delivering(s', s0, event, open, acquired)
  {
    if step.AdvanceCallback? {
      OwnDelivery(s, s0, event, open, acquired, step.acquired);
    } else {
      OthersLeaveCallback(s, step);
      if s.callback.CbCheck? {
        FlagSteady(s, step);
      }
    }
  }

  ghost predicate Arriving(s: State, s0: State, event: Event) {
    s.callback == CbLock(event) && AsBefore(s, s0)
  }

  lemma ArrivalStep(s: State, step: Step, s0: State, event: Event, acquired: bool)
    requires Inv(s) && Enabled(s, step) && Arriving(s, s0, event)
    ensures var s' := Apply(s, step);
      || Arriving(s', s0, event)
      || (s.owner != Some(LOOP) && s'.owner == Some(LOOP) && Delivering(s', s0, event, s'.invoke, acquired))
  {
    if step.AdvanceCallback? {
      ApplyCallback(s, step.acquired);
      LoopLocks(s, step);
    } else {
      OthersLeaveCallback(s, step);
    }
  }

  /** In the `m`-th step the callback asked for the acknowledgement, and this was the answer. */
  ghost predicate Asked(states: seq<State>, steps: seq<Step>, k: nat, i: nat, m: nat, acquired: bool)
    requires |states| == |steps| + 1 && i < |states|
  {
    k < m < i && states[m].callback.CbAcquire? && steps[m] == AdvanceCallback(acquired)
  }

  predicate BeforeAnswer(cb: Callback) {
    cb.CbCheck? || cb.CbAcquire?
  }

  /** The callback got the mutex in step `j`, and the answer about the acknowledgement in step `m`. */
  ghost predicate GotLock(states: seq<State>, steps: seq<Step>, k: nat, i: nat, event: Event, j: nat, m: nat,
                          acquired: bool)
    requires |states| == |steps| + 1 && k < i < |states|
  {
    && k < j < i && states[j].callback == CbLock(event) && LoopLocksAt(states, j)
    && Delivering(states[i], states[k], event, states[j + 1].invoke, acquired)
    && (event == PublishReceived(true) && states[j + 1].invoke && !BeforeAnswer(states[i].callback) ==>
          Asked(states, steps, k, i, m, acquired))
  }

  lemma RunArrival(states: seq<State>, steps: seq<Step>, k: nat, i: nat, event: Event)
    requires IsRun(states, steps) && k < i < |steps| && Arriving(states[i], states[k], event)
    ensures !states[i + 1].callback.NoCallback?
    ensures Arriving(states[i + 1], states[k], event) || GotLock(states, steps, k, i + 1, event, i, 0, false)
  {
    RunInv(states, steps, i);
    ArrivalStep(states[i], steps[i], states[k], event, false);
  }

  lemma RunDelivery(states: seq<State>, steps: seq<Step>, k: nat, i: nat, event: Event, j: nat, m: nat,
                    acquired: bool) returns (m': nat, acquired': bool)
    requires IsRun(states, steps) && k < i < |steps| && GotLock(states, steps, k, i, event, j, m, acquired)
    ensures !states[i + 1].callback.NoCallback? ==> GotLock(states, steps, k, i + 1, event, j, m', acquired')
    ensures states[i + 1].callback.NoCallback? ==>
      && Outcome(states[i + 1], states[k], event, states[j + 1].invoke && HasHandler(event), acquired')
      && (event == PublishReceived(true) && states[j + 1].invoke ==> Asked(states, steps, k, i + 1, m', acquired'))
  {
    RunInv(states, steps, i);
    var s, step, open := states[i], steps[i], states[j + 1].invoke;
    m', acquired' := m, acquired;
    if s.callback.CbAcquire? && step.AdvanceCallback? {
      m', acquired' := i, step.acquired;
      AnswerOpen(s, states[k], event, open, acquired, acquired');
    }
    DeliveryStep(s, step, states[k], event, open, acquired');
    if !step.AdvanceCallback? {
      OthersLeaveCallback(s, step);
    } else {
      ApplyCallback(s, step.acquired);
    }
  }

  lemma {:induction false} EventUnderWay(states: seq<State>, steps: seq<Step>, k: nat, i: nat, event: Event)
    returns (j: nat, m: nat, acquired: bool)
    requires IsRun(states, steps) && k < i < |states| && steps[k] == StartEvent(event)
    requires forall h :: k < h <= i ==> !states[h].callback.NoCallback?
    ensures Arriving(states[i], states[k], event) || GotLock(states, steps, k, i, event, j, m, acquired)
    decreases i
  {
    j, m, acquired := 0, 0, false;
    if i == k + 1 {
      assert states[i] == Apply(states[k], steps[k]);
    } else {
      j, m, acquired := EventUnderWay(states, steps, k, i - 1, event);
      if Arriving(states[i - 1], states[k], event) {
        RunArrival(states, steps, k, i - 1, event);
        j, m, acquired := i - 1, 0, false;
      } else {
        m, acquired := RunDelivery(states, steps, k, i - 1, event, j, m, acquired);
      }
    }
  }

  /**
   From its start to its return a native callback starts exactly one handler, the one for its event, if there is
   one and the client was open when the callback took the mutex; otherwise none. It acquires an acknowledgement
   exactly for a QoS 1 publish it delivers, if the native client grants one.
   */
  lemma EventStartsItsHandler(states: seq<State>, steps: seq<Step>, k: nat, e: nat, event: Event)
    returns (j: nat, m: nat, acquired: bool)
    requires IsRun(states, steps) && IsEvent(states, steps, k, e, event)
    ensures k < j < e && states[j].callback == CbLock(event) && LoopLocksAt(states, j)
    ensures states[e + 1].started ==
      StartedBy(states[k].started, states[j + 1].invoke && HasHandler(event), event)
    ensures if event == PublishReceived(true) && states[j + 1].invoke then
        && Asked(states, steps, k, e + 1, m, acquired)
        && states[e + 1].acks.nextAck == states[k].acks.nextAck + if acquired then 1 else 0
      else
        states[e + 1].acks.nextAck == states[k].acks.nextAck
    ensures HasHandler(event) && states[e + 1].invoke ==> states[e + 1].started == states[k].started + [event]
  {
    j, m, acquired := EventUnderWay(states, steps, k, e, event);
    if Arriving(states[e], states[k], event) {
      RunArrival(states, steps, k, e, event);
    } else {
      m, acquired := RunDelivery(states, steps, k, e, event, j, m, acquired);
    }
    if !states[j + 1].invoke {
      FlagForGood(states, steps, j + 1, e + 1);
    }
  }

  /** A handler that has just been started is running. */
  lemma StartedHandlerRuns(states: seq<State>, steps: seq<Step>, i: nat, event: Event)
    requires IsRun(states, steps) && i < |steps|
    ensures states[i + 1].started == states[i].started + [event] <==>
      (StartsEventHandler(states[i], steps[i]) && states[i + 1].callback.CbHandler? &&
       states[i + 1].callback.event == event)
  {
    assert Enabled(states[i], steps[i]);
    StartedStep(states[i], steps[i]);
    var before := states[i].started;
    assert |before + [event]| != |before| && (before + [event])[|before|] == event;
    if states[i].callback.CbInvoke? {
      assert (before + [states[i].callback.event])[|before|] == states[i].callback.event;
    }
  }

  lemma StartedStep(s: State, step: Step)
    requires Enabled(s, step)
    ensures !step.AdvanceCallback? ==> Apply(s, step).started == s.started
    ensures step.AdvanceCallback? ==>
      && Apply(s, step).callback == NextCallback(s, s.callback, step.acquired)
      && Apply(s, step).started == if s.callback.CbInvoke? then s.started + [s.callback.event] else s.started
  {
    if step.AdvanceCallback? {
      ApplyCallback(s, step.acquired);
    } else if s.callback.NoCallback? {
      QuietStep(s, step);
    } else {
      OthersLeaveCallback(s, step);
    }
  }

  /** A completion handler counts as run in the step in which it starts running. */
  lemma HandledHandlerRuns(states: seq<State>, steps: seq<Step>, i: nat, rec: Rec)
    requires IsRun(states, steps) && i < |steps|
    ensures states[i + 1].ledger.handled == states[i].ledger.handled + multiset{rec} <==>
      steps[i].AdvanceCallback? && states[i].callback == CmpInvoke(rec) && states[i + 1].callback == CmpHandler(rec)
  {
    assert Enabled(states[i], steps[i]);
    HandledStep(states[i], steps[i]);
    var h := states[i].ledger.handled;
    assert (h + multiset{rec})[rec] == h[rec] + 1;
    if states[i].callback.CmpInvoke? && states[i].callback.rec != rec {
      assert (h + multiset{states[i].callback.rec})[rec] == h[rec];
    }
  }

  lemma HandledStep(s: State, step: Step)
    requires Enabled(s, step)
    ensures !step.AdvanceCallback? ==> Apply(s, step).ledger.handled == s.ledger.handled
    ensures step.AdvanceCallback? ==>
      && Apply(s, step).callback == NextCallback(s, s.callback, step.acquired)
      && Apply(s, step).ledger == CallbackLedger(s.ledger, s.callback)
  {
    StepLedgerAfter(s, step);
    if step.AdvanceCallback? {
      ApplyCallback(s, step.acquired);
    } else if step.Advance? {
      OpKeepsHandled(s.ledger, step.t, OpOf(s, step.t), step.accepted);
    }
  }

  /** Outside native callbacks no event handler is started. */
  lemma OnlyEventsStartHandlers(states: seq<State>, steps: seq<Step>, i: nat)
    requires IsRun(states, steps) && i < |steps| && states[i].callback.NoCallback?
    ensures states[i + 1].started == states[i].started && states[i + 1].acks.nextAck == states[i].acks.nextAck
  {
    QuietStep(states[i], steps[i]);
  }

  lemma QuietStep(s: State, step: Step)
    requires Enabled(s, step) && s.callback.NoCallback?
    ensures Apply(s, step).started == s.started && Apply(s, step).acks.nextAck == s.acks.nextAck
  {
    match step
    case CopyRef(_, to) => assert Apply(s, step) == s.(refs := s.refs + multiset{to});
    case DropRef(_) =>
    case StartRequest(_, _) =>
    case StartEvent(_) =>
    case StartCompletion(_) =>
    case CallAcquire(t, a) => assert CallFunctor(s.acks, s.callback, t, a).nextAck == s.acks.nextAck;
    case Terminate =>
    case Advance(t, accepted) => ApplyLedger(s, t, accepted);
  }

  // ---------- Requests ----------

  /** Steps `k` to `e` are one request on thread `t`, from its start to its return. */
  ghost predicate IsRequest(states: seq<State>, steps: seq<Step>, k: nat, e: nat, t: Thread, hasHandler: bool)
    requires |states| == |steps| + 1
  {
    && k < e < |steps| && steps[k] == StartRequest(t, hasHandler)
    && (forall i :: k < i <= e ==> !OpOf(states[i], t).Idle?)
    && OpOf(states[e + 1], t).Idle?
  }

  predicate KnownAs(l: Ledger, rec: Rec, hasHandler: bool) {
    rec in l.handlers && l.handlers[rec] == hasHandler
  }

  /** A request under way: before it has a record, or with a record of its own that is newer than the request. */
  ghost predicate Requesting(s: State, t: Thread, hasHandler: bool, from: Rec) {
    match OpOf(s, t)
    case ReqCheck(h) => h == hasHandler && from <= s.ledger.nextRec
    case ReqAlloc(h) => h == hasHandler && from <= s.ledger.nextRec
    case ReqSubmit(rec) => from <= rec && KnownAs(s.ledger, rec, hasHandler)
    case ReqFree(rec) => from <= rec && KnownAs(s.ledger, rec, hasHandler)
    case _ => false
  }

  /** The ledger only grows, and keeps what it knows about a record's handler. */
  ghost predicate Grows(l: Ledger, l': Ledger) {
    l.nextRec <= l'.nextRec && forall rec, h :: KnownAs(l, rec, h) ==> KnownAs(l', rec, h)
  }

  lemma OpGrows(l: Ledger, t: Thread, op: Op, accepted: bool)
    requires FreeInv(l)
    ensures Grows(l, OpLedger(l, t, op, accepted))
  {
  }

  lemma CallbackGrows(l: Ledger, cb: Callback)
    ensures Grows(l, CallbackLedger(l, cb))
  {
  }

  lemma LedgerGrows(s: State, step: Step)
    requires Inv(s) && Enabled(s, step)
    ensures Grows(s.ledger, Apply(s, step).ledger)
  {
    if step.Advance? {
      ApplyLedger(s, step.t, step.accepted);
      OpGrows(s.ledger, step.t, OpOf(s, step.t), step.accepted);
    } else if step.AdvanceCallback? {
      ApplyCallback(s, step.acquired);
      CallbackGrows(s.ledger, s.callback);
    } else if step.StartCompletion? {
      assert Apply(s, step).ledger == s.ledger.(records := s.ledger.records[step.rec := ByCallback]);
    } else {
      assert Apply(s, step).ledger == s.ledger;
    }
  }

  lemma OthersLeaveRequest(s: State, step: Step, t: Thread)
    requires Enabled(s, step) && !OpOf(s, t).Idle? && !(step.Advance? && step.t == t)
    ensures OpOf(Apply(s, step), t) == OpOf(s, t)
  {
    if step.Advance? {
      ApplyLedger(s, step.t, step.accepted);
    } else if step.AdvanceCallback? {
      ApplyCallback(s, step.acquired);
    }
  }

  /** The outcome of a request: the native client has the record, or it is freed. */
  ghost predicate Settled(s: State, rec: Rec, accepted: bool) {
    if accepted then rec in s.ledger.records && s.ledger.records[rec].ByNative?
    else rec !in s.ledger.records && s.ledger.freed[rec] == 1
  }

  lemma OwnRequestStep(s: State, t: Thread, accepted: bool, hasHandler: bool, from: Rec)
    requires Inv(s) && Enabled(s, Advance(t, accepted)) && Requesting(s, t, hasHandler, from)
    ensures var s' := Apply(s, Advance(t, accepted));
      if OpOf(s, t).ReqSubmit? && accepted then OpOf(s', t).Idle? && Settled(s', OpOf(s, t).rec, true)
      else if OpOf(s, t).ReqFree? then OpOf(s', t).Idle? && Settled(s', OpOf(s, t).rec, false)
      else
        && Requesting(s', t, hasHandler, from)
        && (OpOf(s', t).ReqFree? ==> OpOf(s, t).ReqSubmit? && OpOf(s, t).rec == OpOf(s', t).rec)
  {
    RequestFindsNative(s, t);
    ApplyLedger(s, t, accepted);
    StepInv(s, Advance(t, accepted));
    assert OpIn(s.ops, t).Record().Some? ==> OpIn(s.ops, t).Record().value in s.ledger.records;
  }

  /** In the `j`-th step thread `t` gave `rec` to the native client, which took it or not. */
  ghost predicate SubmittedAt(states: seq<State>, steps: seq<Step>, j: nat, t: Thread, rec: Rec, accepted: bool)
    requires |states| == |steps| + 1 && j < |steps|
  {
    OpOf(states[j], t) == ReqSubmit(rec) && steps[j] == Advance(t, accepted)
  }

  ghost predicate RequestAt(states: seq<State>, steps: seq<Step>, k: nat, i: nat, t: Thread, hasHandler: bool, j: nat)
    requires |states| == |steps| + 1 && k < i < |states|
  {
    && Requesting(states[i], t, hasHandler, states[k].ledger.nextRec)
    && (OpOf(states[i], t).ReqFree? ==> k < j < i && SubmittedAt(states, steps, j, t, OpOf(states[i], t).rec, false))
  }

  lemma RunRequest(states: seq<State>, steps: seq<Step>, k: nat, i: nat, t: Thread, hasHandler: bool, j: nat)
    returns (j': nat)
    requires IsRun(states, steps) && k < i < |steps| && RequestAt(states, steps, k, i, t, hasHandler, j)
    requires !OpOf(states[i + 1], t).Idle?
    ensures RequestAt(states, steps, k, i + 1, t, hasHandler, j')
  {
    RunInv(states, steps, i);
    j' := j;
    var s, step := states[i], steps[i];
    LedgerGrows(s, step);
    if step.Advance? && step.t == t {
      OwnRequestStep(s, t, step.accepted, hasHandler, states[k].ledger.nextRec);
      j' := i;
      if OpOf(states[i + 1], t).ReqFree? {
        SubmitAnswer(s, t, step.accepted);
      }
    } else {
      OthersLeaveRequest(s, step, t);
    }
  }

  lemma SubmitAnswer(s: State, t: Thread, accepted: bool)
    requires Enabled(s, Advance(t, accepted)) && OpOf(s, t).ReqSubmit?
    requires OpOf(Apply(s, Advance(t, accepted)), t).ReqFree?
    ensures !accepted
  {
    ApplyLedger(s, t, accepted);
  }

  lemma {:induction false} RequestUnderWay(states: seq<State>, steps: seq<Step>, k: nat, i: nat, t: Thread,
                                           hasHandler: bool) returns (j: nat)
    requires IsRun(states, steps) && k < i < |states| && steps[k] == StartRequest(t, hasHandler)
    requires forall h :: k < h <= i ==> !OpOf(states[h], t).Idle?
    ensures RequestAt(states, steps, k, i, t, hasHandler, j)
    decreases i
  {
    if i == k + 1 {
      j := 0;
      assert states[i] == Apply(states[k], steps[k]);
    } else {
      j := RequestUnderWay(states, steps, k, i - 1, t, hasHandler);
      j := RunRequest(states, steps, k, i - 1, t, hasHandler, j);
    }
  }

  /**
   From its start to its return a request makes one new record, with the user's handler or none in it, and submits
   it. The native client owns the record on return exactly if it accepted the operation; otherwise it is freed.
   */
  lemma RequestSubmitsOneRecord(states: seq<State>, steps: seq<Step>, k: nat, e: nat, t: Thread, hasHandler: bool)
    returns (j: nat, rec: Rec, accepted: bool)
    requires IsRun(states, steps) && IsRequest(states, steps, k, e, t, hasHandler)
    ensures k < j <= e && SubmittedAt(states, steps, j, t, rec, accepted)
    ensures states[k].ledger.nextRec <= rec < states[e + 1].ledger.nextRec
    ensures KnownAs(states[e + 1].ledger, rec, hasHandler)
    ensures Settled(states[e + 1], rec, accepted)
  {
    j := RequestUnderWay(states, steps, k, e, t, hasHandler);
    RunInv(states, steps, e);
    RunInv(states, steps, e + 1);
    var s, step := states[e], steps[e];
    LedgerGrows(s, step);
    if !(step.Advance? && step.t == t) {
      OthersLeaveRequest(s, step, t);
    }
    OwnRequestStep(s, t, step.accepted, hasHandler, states[k].ledger.nextRec);
    rec := OpOf(s, t).rec;
    accepted := OpOf(s, t).ReqSubmit?;
    j := if accepted then e else j;
  }

  // ---------- Completions ----------

  /** Steps `k` to `e` are the completion of the operation of `rec`, from its start to its return. */
  ghost predicate IsCompletion(states: seq<State>, steps: seq<Step>, k: nat, e: nat, rec: Rec)
    requires |states| == |steps| + 1
  {
    && k < e < |steps| && steps[k] == StartCompletion(rec)
    && (forall i :: k < i <= e ==> !states[i].callback.NoCallback?)
    && states[e + 1].callback.NoCallback?
  }

  /** A completion that took the mutex while the client was open or closed. */
  ghost predicate Completing(s: State, rec: Rec, hasHandler: bool, open: bool) {
    && KnownAs(s.ledger, rec, hasHandler)
    && match s.callback
       case CmpCheck(r) => r == rec && hasHandler && s.invoke == open && s.ledger.handled[rec] == 0
       case CmpUnlock(r, go) => r == rec && hasHandler && go == open && s.ledger.handled[rec] == 0
       case CmpInvoke(r) => r == rec && hasHandler && open && s.ledger.handled[rec] == 0
       case CmpHandler(r) => r == rec && hasHandler && open && s.ledger.handled[rec] == 1
       case CmpFree(r) => r == rec && s.ledger.handled[rec] == if hasHandler && open then 1 else 0
       case _ => false
  }

  /** What a completion leaves behind. */
  ghost predicate Completed(s: State, rec: Rec, due: bool) {
    rec !in s.ledger.records && s.ledger.handled[rec] == if due then 1 else 0
  }

  lemma OwnCompletion(s: State, acquired: bool, rec: Rec, hasHandler: bool, open: bool)
    requires Enabled(s, AdvanceCallback(acquired)) && Completing(s, rec, hasHandler, open)
    ensures var s' := Apply(s, AdvanceCallback(acquired));
      if s'.callback.NoCallback? then Completed(s', rec, hasHandler && open) else Completing(s', rec, hasHandler, open)
  {
    ApplyCallback(s, acquired);
    CallbackGrows(s.ledger, s.callback);
  }

  lemma CompletionStep(s: State, step: Step, rec: Rec, hasHandler: bool, open: bool)
    requires Inv(s) && Enabled(s, step) && Completing(s, rec, hasHandler, open)
    ensures var s' := Apply(s, step);
      if s'.callback.NoCallback? then Completed(s', rec, hasHandler && open) else Completing(s', rec, hasHandler, open)
  {
    if step.AdvanceCallback? {
      OwnCompletion(s, step.acquired, rec, hasHandler, open);
    } else {
      OthersLeaveCallback(s, step);
      LedgerGrows(s, step);
      if s.callback.CmpCheck? {
        FlagSteady(s, step);
      }
    }
  }

  ghost predicate AwaitsLock(s: State, rec: Rec) {
    s.callback == CmpLock(rec) && KnownAs(s.ledger, rec, true) && s.ledger.handled[rec] == 0
  }

  lemma AwaitStep(s: State, step: Step, rec: Rec)
    requires Inv(s) && Enabled(s, step) && AwaitsLock(s, rec)
    ensures var s' := Apply(s, step);
      || AwaitsLock(s', rec)
      || (s.owner != Some(LOOP) && s'.owner == Some(LOOP) && Completing(s', rec, true, s'.invoke))
  {
    if step.AdvanceCallback? {
      ApplyCallback(s, step.acquired);
      LoopLocks(s, step);
    } else {
      OthersLeaveCallback(s, step);
      LedgerGrows(s, step);
    }
  }

  lemma CompletionStarts(s: State, rec: Rec)
    requires Inv(s) && Enabled(s, StartCompletion(rec))
    ensures rec in s.ledger.handlers
    ensures var s' := Apply(s, StartCompletion(rec));
      if s.ledger.handlers[rec] then AwaitsLock(s', rec) else Completing(s', rec, false, false)
  {
    assert rec !in s.ledger.handled;
  }

  /** The completion got the mutex in step `j`, or needs none because there is no handler. */
  ghost predicate CompletionAt(states: seq<State>, k: nat, i: nat, rec: Rec, hasHandler: bool, j: nat)
    requires k < i < |states|
  {
    if hasHandler then
      k < j < i && states[j].callback == CmpLock(rec) && LoopLocksAt(states, j) &&
      Completing(states[i], rec, true, states[j + 1].invoke)
    else
      Completing(states[i], rec, false, false)
  }

  lemma RunAwait(states: seq<State>, steps: seq<Step>, k: nat, i: nat, rec: Rec)
    requires IsRun(states, steps) && k < i < |steps| && AwaitsLock(states[i], rec)
    ensures AwaitsLock(states[i + 1], rec) || CompletionAt(states, k, i + 1, rec, true, i)
  {
    RunInv(states, steps, i);
    AwaitStep(states[i], steps[i], rec);
  }

  lemma RunCompletion(states: seq<State>, steps: seq<Step>, k: nat, i: nat, rec: Rec, hasHandler: bool, j: nat)
    requires IsRun(states, steps) && k < i < |steps| && CompletionAt(states, k, i, rec, hasHandler, j)
    ensures !states[i + 1].callback.NoCallback? ==> CompletionAt(states, k, i + 1, rec, hasHandler, j)
    ensures states[i + 1].callback.NoCallback? ==>
      Completed(states[i + 1], rec, hasHandler && states[j + 1].invoke)
  {
    RunInv(states, steps, i);
    CompletionStep(states[i], steps[i], rec, hasHandler, if hasHandler then states[j + 1].invoke else false);
  }

  lemma RunCompletionStarts(states: seq<State>, steps: seq<Step>, k: nat, rec: Rec)
    requires IsRun(states, steps) && k < |steps| && steps[k] == StartCompletion(rec)
    ensures rec in states[k].ledger.handlers
    ensures if states[k].ledger.handlers[rec] then AwaitsLock(states[k + 1], rec)
            else Completing(states[k + 1], rec, false, false)
  {
    RunInv(states, steps, k);
    CompletionStarts(states[k], rec);
  }

  lemma {:induction false} CompletionUnderWay(states: seq<State>, steps: seq<Step>, k: nat, i: nat, rec: Rec)
    returns (j: nat)
    requires IsRun(states, steps) && k < i < |states| && steps[k] == StartCompletion(rec)
    requires forall h :: k < h <= i ==> !states[h].callback.NoCallback?
    ensures rec in states[k].ledger.handlers
    ensures (states[k].ledger.handlers[rec] && AwaitsLock(states[i], rec)) ||
            CompletionAt(states, k, i, rec, states[k].ledger.handlers[rec], j)
    decreases i
  {
    j := 0;
    RunCompletionStarts(states, steps, k, rec);
    if i > k + 1 {
      j := CompletionUnderWay(states, steps, k, i - 1, rec);
      if AwaitsLock(states[i - 1], rec) {
        RunAwait(states, steps, k, i - 1, rec);
        j := i - 1;
      } else {
        RunCompletion(states, steps, k, i - 1, rec, states[k].ledger.handlers[rec], j);
      }
    }
  }

  /**
   From its start to its return a completion frees the record and runs its handler exactly once if there is one
   and the client was open when the completion took the mutex. Otherwise the handler does not run.
   */
  lemma CompletionRunsItsHandler(states: seq<State>, steps: seq<Step>, k: nat, e: nat, rec: Rec) returns (j: nat)
    requires IsRun(states, steps) && IsCompletion(states, steps, k, e, rec)
    ensures rec in states[k].ledger.handlers
    ensures states[k].ledger.handlers[rec] ==>
      k < j < e && states[j].callback == CmpLock(rec) && LoopLocksAt(states, j)
    ensures states[e + 1].ledger.handled[rec] ==
      if states[k].ledger.handlers[rec] && states[j + 1].invoke then 1 else 0
    ensures rec !in states[e + 1].ledger.records && states[e + 1].ledger.freed[rec] == 1
  {
    j := CompletionUnderWay(states, steps, k, e, rec);
    if AwaitsLock(states[e], rec) {
      RunAwait(states, steps, k, e, rec);
    } else {
      RunCompletion(states, steps, k, e, rec, states[k].ledger.handlers[rec], j);
    }
    GoneIsFreed(states, steps, k, e + 1, rec);
  }

  lemma GoneIsFreed(states: seq<State>, steps: seq<Step>, k: nat, i: nat, rec: Rec)
    requires IsRun(states, steps) && k <= i < |states| && rec in states[k].ledger.handlers
    requires rec !in states[i].ledger.records
    ensures states[i].ledger.freed[rec] == 1
  {
    RunInv(states, steps, k);
    RunInv(states, steps, i);
    RunLedgerGrows(states, steps, k, i);
  }

  lemma RunLedgerGrowsStep(states: seq<State>, steps: seq<Step>, i: nat)
    requires IsRun(states, steps) && i < |steps|
    ensures Grows(states[i].ledger, states[i + 1].ledger)
  {
    RunInv(states, steps, i);
    LedgerGrows(states[i], steps[i]);
  }

  lemma {:induction false} RunLedgerGrows(states: seq<State>, steps: seq<Step>, k: nat, i: nat)
    requires IsRun(states, steps) && k <= i < |states|
    ensures Grows(states[k].ledger, states[i].ledger)
    decreases i
  {
    if k < i {
      RunLedgerGrows(states, steps, k, i - 1);
      RunLedgerGrowsStep(states, steps, i - 1);
    }
  }

  // ---------- Which records are completed, and which are not ----------

  ghost predicate CompletionStarted(steps: seq<Step>, i: nat, rec: Rec) {
    exists k :: 0 <= k < i && k < |steps| && steps[k] == StartCompletion(rec)
  }

  lemma StartedOneMore(steps: seq<Step>, i: nat, rec: Rec)
    requires i < |steps|
    ensures CompletionStarted(steps, i + 1, rec) <==>
      CompletionStarted(steps, i, rec) || steps[i] == StartCompletion(rec)
  {
  }

  /** A record at a callback, or handled, was completed; with a handler to run, or run, it has one. */
  ghost predicate OriginOk(cb: Callback, l: Ledger, rec: Rec, started: bool) {
    && (cb.Record() == Some(rec) || rec in l.handled ==> started)
    && ((cb.Record() == Some(rec) && !cb.CmpFree?) || rec in l.handled ==> KnownAs(l, rec, true))
  }

  ghost predicate Origin(s: State, rec: Rec, started: bool) {
    OriginOk(s.callback, s.ledger, rec, started)
  }

  lemma CallbackOrigin(s: State, cb: Callback, acquired: bool, l: Ledger, rec: Rec, started: bool)
    requires OriginOk(cb, l, rec, started)
    ensures OriginOk(NextCallback(s, cb, acquired), CallbackLedger(l, cb), rec, started)
  {
  }

  lemma OriginFramed(cb: Callback, l: Ledger, cb': Callback, l': Ledger, rec: Rec, started: bool)
    requires OriginOk(cb, l, rec, started) && Grows(l, l') && l'.handled == l.handled
    requires cb' == cb || cb'.Record().None?
    ensures OriginOk(cb', l', rec, started)
  {
  }

  lemma OriginStarts(s: State, r: Rec, rec: Rec, started: bool)
    requires Inv(s) && Enabled(s, StartCompletion(r)) && Origin(s, rec, started)
    ensures Origin(Apply(s, StartCompletion(r)), rec, started || r == rec)
  {
    CompletionStarts(s, r);
    LedgerGrows(s, StartCompletion(r));
    assert Apply(s, StartCompletion(r)).callback.Record() == Some(r);
  }

  /** The other steps of a loop outside callbacks start no completion. */
  lemma IdleLoopStep(s: State, step: Step)
    requires Enabled(s, step) && s.callback.NoCallback? && !step.StartCompletion?
    ensures Apply(s, step).ledger.handled == s.ledger.handled && Apply(s, step).callback.Record().None?
  {
    if step.Advance? {
      ApplyLedger(s, step.t, step.accepted);
      OpKeepsHandled(s.ledger, step.t, OpOf(s, step.t), step.accepted);
    } else {
      assert Apply(s, step).ledger == s.ledger;
    }
  }

  lemma OriginStep(s: State, step: Step, rec: Rec, started: bool)
    requires Inv(s) && Enabled(s, step) && Origin(s, rec, started)
    ensures Origin(Apply(s, step), rec, started || step == StartCompletion(rec))
  {
    if step.AdvanceCallback? {
      ApplyCallback(s, step.acquired);
      CallbackOrigin(s, s.callback, step.acquired, s.ledger, rec, started);
    } else if step.StartCompletion? {
      OriginStarts(s, step.rec, rec, started);
    } else {
      LedgerGrows(s, step);
      if s.callback.NoCallback? {
        IdleLoopStep(s, step);
      } else {
        OthersLeaveCallback(s, step);
      }
      OriginFramed(s.callback, s.ledger, Apply(s, step).callback, Apply(s, step).ledger, rec, started);
    }
  }

  lemma RunOriginStep(states: seq<State>, steps: seq<Step>, i: nat, rec: Rec)
    requires IsRun(states, steps) && i < |steps| && Origin(states[i], rec, CompletionStarted(steps, i, rec))
    ensures Origin(states[i + 1], rec, CompletionStarted(steps, i + 1, rec))
  {
    RunInv(states, steps, i);
    OriginStep(states[i], steps[i], rec, CompletionStarted(steps, i, rec));
    StartedOneMore(steps, i, rec);
  }

  lemma {:induction false} RunOrigin(states: seq<State>, steps: seq<Step>, i: nat, rec: Rec)
    requires IsRun(states, steps) && i < |states|
    ensures Origin(states[i], rec, CompletionStarted(steps, i, rec))
  {
    if i > 0 {
      RunOrigin(states, steps, i - 1, rec);
      RunOriginStep(states, steps, i - 1, rec);
    }
  }

  /** Only a completion runs a completion handler, and only if the user gave one. */
  lemma HandledOnlyByCompletion(states: seq<State>, steps: seq<Step>, i: nat, rec: Rec)
    requires IsRun(states, steps) && i < |states| && rec in states[i].ledger.handled
    ensures CompletionStarted(steps, i, rec) && KnownAs(states[i].ledger, rec, true)
  {
    RunOrigin(states, steps, i, rec);
  }

  /** A record that no thread and no native client holds any more never comes back to one. */
  ghost predicate Past(l: Ledger, rec: Rec) {
    rec < l.nextRec && (rec in l.records ==> l.records[rec].ByCallback?)
  }

  lemma OpKeepsPast(s: State, t: Thread, accepted: bool, rec: Rec)
    requires Inv(s) && Past(s.ledger, rec)
    ensures Past(OpLedger(s.ledger, t, OpOf(s, t), accepted), rec)
    ensures rec !in s.ledger.records ==> rec !in OpLedger(s.ledger, t, OpOf(s, t), accepted).records
  {
    assert OpIn(s.ops, t).Record().Some? ==> OpIn(s.ops, t).Record() != Some(rec);
  }

  /** What a step does to the ledger, by kind of step. */
  function LedgerAfter(s: State, step: Step): Ledger {
    match step
    case Advance(t, accepted) => OpLedger(s.ledger, t, OpOf(s, t), accepted)
    case AdvanceCallback(_) => CallbackLedger(s.ledger, s.callback)
    case StartCompletion(rec) => s.ledger.(records := s.ledger.records[rec := ByCallback])
    case _ => s.ledger
  }

  lemma StepLedgerAfter(s: State, step: Step)
    requires Enabled(s, step)
    ensures Apply(s, step).ledger == LedgerAfter(s, step)
  {
    if step.Advance? {
      ApplyLedger(s, step.t, step.accepted);
    } else if step.AdvanceCallback? {
      ApplyCallback(s, step.acquired);
    }
  }

  lemma CallbackKeepsPast(l: Ledger, cb: Callback, rec: Rec)
    requires Past(l, rec)
    ensures Past(CallbackLedger(l, cb), rec)
    ensures rec !in l.records ==> rec !in CallbackLedger(l, cb).records
  {
  }

  lemma PastStays(s: State, step: Step, rec: Rec)
    requires Inv(s) && Enabled(s, step) && Past(s.ledger, rec)
    ensures Past(Apply(s, step).ledger, rec)
    ensures rec !in s.ledger.records ==> rec !in Apply(s, step).ledger.records
  {
    StepLedgerAfter(s, step);
    if step.Advance? {
      OpKeepsPast(s, step.t, step.accepted, rec);
    } else if step.AdvanceCallback? {
      CallbackKeepsPast(s.ledger, s.callback, rec);
    }
  }

  lemma RunPastStays(states: seq<State>, steps: seq<Step>, i: nat, rec: Rec)
    requires IsRun(states, steps) && i < |steps| && Past(states[i].ledger, rec)
    ensures Past(states[i + 1].ledger, rec)
    ensures rec !in states[i].ledger.records ==> rec !in states[i + 1].ledger.records
  {
    RunInv(states, steps, i);
    PastStays(states[i], steps[i], rec);
  }

  lemma {:induction false} PastForGood(states: seq<State>, steps: seq<Step>, k: nat, i: nat, rec: Rec)
    requires IsRun(states, steps) && k <= i < |states| && Past(states[k].ledger, rec)
    ensures Past(states[i].ledger, rec)
    ensures rec !in states[k].ledger.records ==> rec !in states[i].ledger.records
    decreases i
  {
    if k < i {
      PastForGood(states, steps, k, i - 1, rec);
      RunPastStays(states, steps, i - 1, rec);
    }
  }

  /** The step with which a request frees the record that the native client did not take. */
  ghost predicate FreesRejected(s: State, step: Step, rec: Rec) {
    step.Advance? && OpOf(s, step.t) == ReqFree(rec)
  }

  lemma RejectedAt(states: seq<State>, steps: seq<Step>, k: nat, rec: Rec)
    requires IsRun(states, steps) && k < |steps| && FreesRejected(states[k], steps[k], rec)
    ensures !Past(states[k].ledger, rec)
    ensures Past(states[k + 1].ledger, rec) && rec !in states[k + 1].ledger.records
  {
    RunInv(states, steps, k);
    var s, t := states[k], steps[k].t;
    ApplyLedger(s, t, steps[k].accepted);
    assert OpIn(s.ops, t).Record() == Some(rec);
  }

  lemma CompletionOf(states: seq<State>, steps: seq<Step>, k: nat, rec: Rec)
    requires IsRun(states, steps) && k < |steps| && steps[k] == StartCompletion(rec)
    ensures rec in states[k].ledger.records && Past(states[k + 1].ledger, rec)
  {
    RunInv(states, steps, k);
    assert Enabled(states[k], steps[k]);
  }

  /** The handler of a rejected operation never runs, and its record is never completed. */
  lemma RejectedIsNotCompleted(states: seq<State>, steps: seq<Step>, k: nat, i: nat, rec: Rec)
    requires IsRun(states, steps) && k < |steps| && FreesRejected(states[k], steps[k], rec) && i < |states|
    ensures !CompletionStarted(steps, i, rec) && states[i].ledger.handled[rec] == 0
  {
    RejectedAt(states, steps, k, rec);
    if CompletionStarted(steps, i, rec) {
      var c :| 0 <= c < i && c < |steps| && steps[c] == StartCompletion(rec);
      CompletionOf(states, steps, c, rec);
      if c < k {
        PastForGood(states, steps, c + 1, k, rec);
      } else if k < c {
        PastForGood(states, steps, k + 1, c, rec);
      }
    }
    RunOrigin(states, steps, i, rec);
  }

  lemma OpKeepsNative(s: State, t: Thread, accepted: bool, rec: Rec)
    requires Inv(s) && rec in s.ledger.records && s.ledger.records[rec].ByNative?
    ensures var l := OpLedger(s.ledger, t, OpOf(s, t), accepted); rec in l.records && l.records[rec].ByNative?
  {
    assert OpIn(s.ops, t).Record() != Some(rec);
  }

  lemma CallbackKeepsNative(s: State, rec: Rec)
    requires Inv(s) && rec in s.ledger.records && s.ledger.records[rec].ByNative?
    ensures var l := CallbackLedger(s.ledger, s.callback); rec in l.records && l.records[rec].ByNative?
  {
    assert s.callback.Record() != Some(rec);
  }

  lemma NativeStep(s: State, step: Step, rec: Rec)
    requires Inv(s) && Enabled(s, step) && step != StartCompletion(rec)
    requires rec in s.ledger.records && s.ledger.records[rec].ByNative?
    ensures rec in Apply(s, step).ledger.records && Apply(s, step).ledger.records[rec].ByNative?
  {
    StepLedgerAfter(s, step);
    if step.Advance? {
      OpKeepsNative(s, step.t, step.accepted, rec);
    } else if step.AdvanceCallback? {
      CallbackKeepsNative(s, rec);
    }
  }

  lemma RunNativeStep(states: seq<State>, steps: seq<Step>, i: nat, rec: Rec)
    requires IsRun(states, steps) && i < |steps| && steps[i] != StartCompletion(rec)
    requires rec in states[i].ledger.records && states[i].ledger.records[rec].ByNative?
    ensures rec in states[i + 1].ledger.records && states[i + 1].ledger.records[rec].ByNative?
  {
    RunInv(states, steps, i);
    NativeStep(states[i], steps[i], rec);
  }

  /** A record the native client has taken leaves it only through a completion. */
  lemma {:induction false} AcceptedUntilCompleted(states: seq<State>, steps: seq<Step>, k: nat, i: nat, rec: Rec)
    requires IsRun(states, steps) && k <= i < |states|
    requires rec in states[k].ledger.records && states[k].ledger.records[rec].ByNative?
    ensures CompletionStarted(steps, i, rec) ||
            (rec in states[i].ledger.records && states[i].ledger.records[rec].ByNative?)
    decreases i
  {
    if k < i {
      AcceptedUntilCompleted(states, steps, k, i - 1, rec);
      StartedOneMore(steps, i - 1, rec);
      if !CompletionStarted(steps, i, rec) {
        RunNativeStep(states, steps, i - 1, rec);
      }
    }
  }
}
