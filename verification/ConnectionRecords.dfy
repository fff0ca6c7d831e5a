/**
 The callback records of an MQTT 3.1.1 connection (source/mqtt/MqttConnectionCore.cpp). Every operation
 allocates records for its callbacks and hands them to the native connection. The native connection
 owns them exactly if it accepts the operation, that is if it returns a non-zero packet id; it gives
 each one back once, through the acknowledgement callback or the clean-up callback, which frees it.

 Where the source branches on an allocation, on growing an array or on the native answer, the outcome
 is an input of the model.
 */
module ConnectionRecords {
  import opened Options

  type Rec = nat
  type Handler = nat
  type PacketId = n: nat | n < 0x1_0000

  datatype Record = PublishRecord(handler: Handler) | AckRecord(handler: Handler) | OperationRecord(handler: Handler)

  datatype Topic = Topic(filter: string, handler: Handler)

  /** One entry of the array passed to the native multi-topic subscribe. */
  datatype Subscription = Subscription(filter: string, record: Rec)

  /** The outcomes of a multi-topic subscribe: allocations, array operations and the native answer. */
  datatype Outcomes = Outcomes(ackAlloc: bool, listInit: bool, topicAlloc: seq<bool>, push: seq<bool>, native: PacketId)

  /** How many topic records are allocated from topic `i` on, up to the first failure. */
  function TopicAllocations(o: Outcomes, i: nat): nat
    requires |o.topicAlloc| == |o.push| && i <= |o.push|
    decreases |o.push| - i
  {
    if i == |o.push| || !o.topicAlloc[i] then 0
    else if o.push[i] then 1 + TopicAllocations(o, i + 1)
    else 1
  }

  datatype Command =
    | DoSubscribe(onMessage: Handler, onSubAck: Handler, pubAlloc: bool, ackAlloc: bool, answer: PacketId)
    | DoSubscribeMany(topics: seq<Topic>, handler: Handler, outcomes: Outcomes)
    | DoSubmit(onComplete: Handler, alloc: bool, answer: PacketId)
    | DoSetOnMessage(onAnyMessage: Handler, alloc: bool, accepted: bool)
    | DoReturn(record: Rec)

  predicate WellFormed(c: Command) {
    c.DoSubscribeMany? ==> |c.outcomes.topicAlloc| == |c.outcomes.push| == |c.topics|
  }

  /** How many records a command allocates. */
  function Allocations(c: Command): nat
    requires WellFormed(c)
  {
    match c
    case DoSubscribe(_, _, pubAlloc, ackAlloc, _) => if !pubAlloc then 0 else if !ackAlloc then 1 else 2
    case DoSubscribeMany(_, _, o) => if !o.ackAlloc then 0 else if !o.listInit then 1 else 1 + TopicAllocations(o, 0)
    case DoSubmit(_, alloc, _) => if alloc then 1 else 0
    case DoSetOnMessage(_, alloc, _) => if alloc then 1 else 0
    case DoReturn(_) => 0
  }

  function TotalAllocations(script: seq<Command>): nat
    requires forall c :: c in script ==> WellFormed(c)
  {
    if script == [] then 0
    else TotalAllocations(script[..|script| - 1]) + Allocations(script[|script| - 1])
  }

  class ConnectionCore {
    var live: map<Rec, Record>
    var native: set<Rec>          // owned by the native connection
    var onAny: Option<Rec>        // m_onAnyCbData
    var next: Rec
    var freed: multiset<Rec>

    /** Every record allocated so far is either live or has been freed exactly once. */
    ghost predicate Counted()
      reads this
    {
      && (forall r :: r in live ==> r < next)
      && (forall r: Rec :: freed[r] == if r < next && r !in live then 1 else 0)
    }

    /** Between calls, every live record has one owner: the native connection or the any-message slot. */
    ghost predicate Valid()
      reads this
    {
      && Counted()
      && (forall r :: r in live <==> r in native || onAny == Some(r))
      && (onAny.Some? ==> onAny.value !in native)
    }

    constructor ()
      ensures Valid() && live == map[] && native == {} && onAny.None? && next == 0
    {
      live := map[];
      native := {};
      onAny := None;
      next := 0;
      freed := multiset{};
    }

    method New(record: Record, ok: bool) returns (r: Option<Rec>)
      requires Counted()
      modifies this`live, this`next
      ensures Counted()
      ensures ok ==> r == Some(old(next)) && next == old(next) + 1 && live == old(live)[old(next) := record]
      ensures !ok ==> r.None? && next == old(next) && live == old(live)
    {
      if ok {
        r := Some(next);
        live := live[next := record];
        next := next + 1;
      } else {
        r := None;
      }
    }

    /** Freeing asks for a live record, so no run of the model frees one twice. */
    method Delete(r: Rec)
      requires Counted() && r in live
      modifies this`live, this`freed
      ensures Counted() && live == old(live) - {r}
    {
      live := live - {r};
      freed := freed + multiset{r};
    }

    /** One record handed over with a publish or an unsubscribe. */
    method SubmitOperation(onComplete: Handler, alloc: bool, answer: PacketId) returns (packetId: PacketId)
      requires Valid()
      modifies this`live, this`native, this`next, this`freed
      ensures Valid()
      ensures packetId == if alloc then answer else 0
      ensures next == old(next) + Allocations(DoSubmit(onComplete, alloc, answer))
      ensures packetId == 0 ==> live == old(live) && native == old(native)
      ensures packetId != 0 ==>
        live == old(live)[old(next) := OperationRecord(onComplete)] && native == old(native) + {old(next)}
    {
      var record := New(OperationRecord(onComplete), alloc);
      if record.None? {
        return 0;
      }
      packetId := answer;
      if packetId == 0 {
        Delete(record.value);
        assert live == old(live);
      } else {
        native := native + {record.value};
      }
    }

    method Subscribe(onMessage: Handler, onSubAck: Handler, pubAlloc: bool, ackAlloc: bool, answer: PacketId)
      returns (packetId: PacketId)
      requires Valid()
      modifies this`live, this`native, this`next, this`freed
      ensures Valid()
      ensures packetId == if pubAlloc && ackAlloc then answer else 0
      ensures next == old(next) + Allocations(DoSubscribe(onMessage, onSubAck, pubAlloc, ackAlloc, answer))
      ensures packetId == 0 ==> live == old(live) && native == old(native)
      ensures packetId != 0 ==>
        && live == old(live)[old(next) := PublishRecord(onMessage)][old(next) + 1 := AckRecord(onSubAck)]
        && native == old(native) + {old(next), old(next) + 1}
    {
      var pub := New(PublishRecord(onMessage), pubAlloc);
      if pub.None? {
        return 0;
      }
      assert pub.value !in old(live) && pub.value + 1 !in old(live);
      var ack := New(AckRecord(onSubAck), ackAlloc);
      if ack.None? {
        Delete(pub.value);
        assert live == old(live);
        return 0;
      }
      packetId := answer;
      if packetId == 0 {
        Delete(pub.value);
        Delete(ack.value);
        assert live.Keys == old(live.Keys);
        assert live == old(live);
      } else {
        native := native + {pub.value, ack.value};
      }
    }

    /** The live records are those of `was` and, from `first` on, the acknowledgement's and one per list entry. */
    ghost predicate Extends(was: map<Rec, Record>, first: Rec, list: seq<Subscription>)
      reads this
    {
      && (forall r: Rec :: r in live <==> r in was || first <= r <= first + |list|)
      && (forall r :: r in was ==> live[r] == was[r])
      && (forall i :: 0 <= i < |list| ==> list[i].record == first + 1 + i)
      && first + |list| < next
    }

    /** Each entry pairs a topic filter with the record that holds that topic's handler. */
    ghost predicate Matches(topics: seq<Topic>, list: seq<Subscription>)
      reads this
    {
      && |list| <= |topics|
      && forall i :: 0 <= i < |list| ==>
           && list[i].filter == topics[i].filter
           && list[i].record in live && live[list[i].record] == PublishRecord(topics[i].handler)
    }

    /** One turn of the loop: a record for the topic, and an entry for it unless the list cannot take it. */
    method AddEntry(list: seq<Subscription>, topics: seq<Topic>, alloc: bool, push: bool,
                    ghost was: map<Rec, Record>, ghost first: Rec)
      returns (longer: seq<Subscription>, ok: bool)
      requires Counted() && Extends(was, first, list) && next == first + 1 + |list|
      requires Matches(topics, list) && |list| < |topics|
      modifies this`live, this`next, this`freed
      ensures Counted() && ok == (alloc && push)
      ensures longer == if ok then list + [Subscription(topics[|list|].filter, old(next))] else list
      ensures Extends(was, first, longer) && Matches(topics, longer) && live[first] == old(live)[first]
      ensures next == old(next) + if alloc then 1 else 0
    {
      longer, ok := list, false;
      var topic := topics[|list|];
      var pub := New(PublishRecord(topic.handler), alloc);
      if pub.Some? {
        if !push {
          Delete(pub.value);
        } else {
          longer := list + [Subscription(topic.filter, pub.value)];
          ok := true;
        }
      }
    }

    /**
     The loop over the topics. It stops at the first failed allocation or push; the record of a failed
     push is freed on the spot, those pushed before it stay in the list.
     */
    method BuildList(topics: seq<Topic>, o: Outcomes, ghost was: map<Rec, Record>, ghost first: Rec)
      returns (list: seq<Subscription>, failed: bool)
      requires Counted() && |o.topicAlloc| == |o.push| == |topics|
      requires Extends(was, first, []) && next == first + 1
      modifies this`live, this`next, this`freed
      ensures Counted() && Extends(was, first, list) && Matches(topics, list) && live[first] == old(live)[first]
      ensures failed <==> exists i :: 0 <= i < |topics| && !(o.topicAlloc[i] && o.push[i])
      ensures !failed ==> |list| == |topics| && next == first + 1 + |list|
      ensures next == old(next) + TopicAllocations(o, 0)
    {
      list := [];
      failed := false;
      while |list| < |topics| && !failed
        invariant Counted() && Extends(was, first, list) && Matches(topics, list) && live[first] == old(live)[first]
        invariant !failed ==> next == first + 1 + |list|
        invariant old(next) + TopicAllocations(o, 0) == next + if failed then 0 else TopicAllocations(o, |list|)
        invariant !failed ==> forall j :: 0 <= j < |list| ==> o.topicAlloc[j] && o.push[j]
        invariant failed ==> exists j :: 0 <= j < |topics| && !(o.topicAlloc[j] && o.push[j])
        decreases !failed, |topics| - |list|
      {
        var ok;
        list, ok := AddEntry(list, topics, o.topicAlloc[|list|], o.push[|list|], was, first);
        failed := !ok;
      }
    }

    /** The clean-up after a failure: the record of every entry, then that of the acknowledgement. */
    method FreeList(list: seq<Subscription>, ack: Rec, ghost was: map<Rec, Record>)
      requires Counted() && Extends(was, ack, list) && forall r :: r in was ==> r < ack
      modifies this`live, this`freed
      ensures Counted() && live == was
    {
      for i := 0 to |list|
        invariant Counted()
        invariant forall r: Rec :: r in live <==> r in was || r == ack || ack + i < r <= ack + |list|
        invariant forall r :: r in was ==> live[r] == was[r]
      {
        Delete(list[i].record);
      }
      Delete(ack);
      assert live == was;
    }

    /**
     Subscribing to many topics. A result of zero leaves the live records as they were, wherever it
     failed; a non-zero result hands over one record per topic, in order, and one for the acknowledgement.
     */
    method SubscribeMany(topics: seq<Topic>, onSubAck: Handler, o: Outcomes)
      returns (packetId: PacketId, list: seq<Subscription>)
      requires Valid() && |o.topicAlloc| == |o.push| == |topics|
      modifies this`live, this`native, this`next, this`freed
      ensures Valid()
      ensures packetId ==
        if o.ackAlloc && o.listInit && forall i :: 0 <= i < |topics| ==> o.topicAlloc[i] && o.push[i] then o.native
        else 0
      ensures packetId == 0 ==> live == old(live) && native == old(native)
      ensures next == old(next) + Allocations(DoSubscribeMany(topics, onSubAck, o))
      ensures packetId != 0 ==>
        && |list| == |topics| && next == old(next) + 1 + |topics|
        && Extends(old(live), old(next), list) && Matches(topics, list)
        && live[old(next)] == AckRecord(onSubAck)
        && (forall r: Rec :: r in native <==> r in old(native) || old(next) <= r < next)
    {
      list := [];
      var ack := New(AckRecord(onSubAck), o.ackAlloc);
      if ack.None? {
        return 0, [];
      }
      if !o.listInit {
        Delete(ack.value);
        assert live == old(live);
        return 0, [];
      }
      var failed: bool;
      list, failed := BuildList(topics, o, old(live), ack.value);
      packetId := if failed then 0 else o.native;
      if packetId == 0 {
        FreeList(list, ack.value, old(live));
      } else {
        native := native + {ack.value} + (set i | 0 <= i < |list| :: list[i].record);
        HandedOver(old(native), native, list, ack.value);
      }
    }

    static lemma HandedOver(was: set<Rec>, now: set<Rec>, list: seq<Subscription>, ack: Rec)
      requires now == was + {ack} + (set i | 0 <= i < |list| :: list[i].record)
      requires forall i :: 0 <= i < |list| ==> list[i].record == ack + 1 + i
      ensures forall r: Rec :: r in now <==> r in was || ack <= r <= ack + |list|
    {
      forall r: Rec | ack < r <= ack + |list| ensures r in now {
        assert list[r - ack - 1].record == r;
      }
    }

    /** The native connection gives a record back: an acknowledgement, or the end of a subscription. */
    method Returned(r: Rec)
      requires Valid() && r in native
      modifies this`live, this`native, this`freed
      ensures Valid() && native == old(native) - {r} && live == old(live) - {r}
    {
      native := native - {r};
      Delete(r);
    }

    /** A new any-message handler replaces the old one only once the native connection has taken it. */
    method SetOnMessageHandler(onMessage: Handler, alloc: bool, accepted: bool) returns (ok: bool)
      requires Valid()
      modifies this`live, this`onAny, this`next, this`freed
      ensures Valid()
      ensures ok == (alloc && accepted)
      ensures next == old(next) + Allocations(DoSetOnMessage(onMessage, alloc, accepted))
      ensures !ok ==> live == old(live) && onAny == old(onAny)
      ensures ok ==> onAny == Some(old(next)) && live[old(next)] == PublishRecord(onMessage)
      ensures ok ==> live.Keys == native + {old(next)}
      ensures ok ==> forall r :: r in native ==> live[r] == old(live)[r]
    {
      var pub := New(PublishRecord(onMessage), alloc);
      if pub.None? {
        return false;
      }
      if accepted {
        if onAny.Some? {
          Delete(onAny.value);
        }
        onAny := pub;
        return true;
      }
      Delete(pub.value);
      assert live == old(live);
      return false;
    }

    /** The destructor, which runs once the native connection has terminated and owns nothing. */
    method Destruct()
      requires Valid() && native == {}
      modifies this
      ensures Counted() && live == map[] && next == old(next)
    {
      if onAny.Some? {
        Delete(onAny.value);
        onAny := None;
      }
      assert live == map[];
    }
  }

  // ---------- Whole lifetimes ----------

  /**
   Any sequence of operations and native events, with any failures, then termination, which returns
   what the native connection still owns, and destruction: every record was freed exactly once.
   */
  method Lifetime(script: seq<Command>) returns (made: Rec, freed: multiset<Rec>)
    requires forall c :: c in script ==> WellFormed(c)
    ensures made == TotalAllocations(script)
    ensures forall r: Rec :: freed[r] == if r < made then 1 else 0
  {
    var core := new ConnectionCore();
    for i := 0 to |script|
      invariant core.Valid() && fresh(core) && core.next == TotalAllocations(script[..i])
    {
      assert script[..i + 1][..i] == script[..i];
      assert WellFormed(script[i]);
      match script[i]
      case DoSubscribe(m, a, pubAlloc, ackAlloc, answer) => var _ := core.Subscribe(m, a, pubAlloc, ackAlloc, answer);
      case DoSubscribeMany(topics, h, outcomes) => var _, _ := core.SubscribeMany(topics, h, outcomes);
      case DoSubmit(h, alloc, answer) => var _ := core.SubmitOperation(h, alloc, answer);
      case DoSetOnMessage(h, alloc, accepted) => var _ := core.SetOnMessageHandler(h, alloc, accepted);
      case DoReturn(r) =>
        if r in core.native {
          core.Returned(r);
        }
    }
    assert script[..|script|] == script;
    while core.native != {}
      invariant core.Valid() && fresh(core) && core.next == TotalAllocations(script)
      decreases core.native
    {
      var r :| r in core.native;
      core.Returned(r);
    }
    core.Destruct();
    made, freed := core.next, core.freed;
  }
}
