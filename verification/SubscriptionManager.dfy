/**
 * `SubscriptionManager` of src/exec_rest_api/subscriptions.py as a class whose
 * methods are its await-free stretches.  Each method is proved to perform one
 * step of the multiplexer state machine.
 */
module SubscriptionManagement {
  import opened Wrappers
  import opened JsonText
  import opened Multiplexer
  import opened MultiplexerInvariant

  /** How far `subscribe` gets before it has to wait for the upstream. */
  datatype Entry = Unavailable | Joined | MustRequest(args: seq<Json>)

  /** `_params_to_subscribe_args` */
  function SubscribeArgs(kind: string, params: Json): seq<Json> {
    if params.Null? then [Str(kind)] else [Str(kind), params]
  }

  class SubscriptionManager {
    var slots: map<Key, SlotId>
    var records: map<SlotId, Slot>
    var nextSlot: SlotId
    var byId: map<string, SlotId>
    var queues: map<QueueId, Queue>
    var streams: map<QueueId, Stream>
    var lock: Lock
    var gauges: map<string, nat>
    ghost var issued: set<string>
    ghost var unsubscribed: set<string>

    ghost function View(): State
      reads this
    {
      State(slots, records, nextSlot, byId, queues, streams, lock, gauges, issued, unsubscribed)
    }

    ghost predicate Valid()
      reads this
    {
      Inv(View())
    }

    constructor ()
      ensures Valid() && View() == INITIAL
    {
      slots, records, nextSlot, byId := map[], map[], 0, map[];
      queues, streams, lock, gauges := map[], map[], Free, map[];
      issued, unsubscribed := {}, {};
      new;
      InitialInv();
    }

    /** `_enqueue`: put, or drop when the queue is full. */
    method Enqueue(q: QueueId, e: Event)
      requires q in queues
      modifies this`queues
      ensures queues == old(queues)[q := Offer(old(queues)[q], e)]
    {
      var queue := queues[q];
      if |queue.put| - queue.taken < QUEUE_SIZE {
        queues := queues[q := Queue(queue.put + [e], queue.taken)];
      }
    }

    /** The loop over a slot's consumers. */
    method EnqueueAll(consumers: seq<QueueId>, e: Event)
      requires Distinct(consumers) && forall q :: q in consumers ==> q in queues
      modifies this`queues
      ensures queues == FanOut(old(queues), consumers, e)
    {
      for i := 0 to |consumers|
        invariant queues == FanOut(old(queues), consumers[..i], e)
      {
        assert consumers[i] !in consumers[..i];
        assert consumers[..i + 1] == consumers[..i] + [consumers[i]];
        Enqueue(consumers[i], e);
      }
      assert consumers[..|consumers|] == consumers;
    }

    /** `_publish_gauge`: counts the slots of the kind. */
    method PublishGauge(kind: string)
      modifies this`gauges
      ensures gauges == Publish(old(gauges), slots, kind)
    {
      var count, left := 0, slots.Keys;
      while left != {}
        invariant left <= slots.Keys
        invariant count == |set k | k in slots.Keys - left && k.kind == kind|
        decreases left
      {
        var k :| k in left;
        ghost var seen := set x | x in slots.Keys - left && x.kind == kind;
        left := left - {k};
        assert (set x | x in slots.Keys - left && x.kind == kind) == if k.kind == kind then seen + {k} else seen;
        if k.kind == kind {
          count := count + 1;
        }
      }
      assert (set k | k in slots.Keys - left && k.kind == kind) == (set k | k in slots && k.kind == kind);
      gauges := gauges[kind := count];
    }

    lemma ConsumersHaveQueues(sid: SlotId)
      requires Valid() && Registered(View(), sid)
      ensures Distinct(records[sid].consumers) && forall q :: q in records[sid].consumers ==> q in queues
    {
      assert slots[records[sid].key] == sid;
    }

    method OnNotification(id: Option<string>, payload: Json)
      requires Valid()
      modifies this
      ensures View() == StepNotify(old(View()), id, payload)
      ensures Valid()
    {
      NotifyInv(View(), id, payload);
      if id.Some? && id.value in byId {
        ConsumersHaveQueues(byId[id.value]);
        EnqueueAll(records[byId[id.value]].consumers, Event(payload));
      }
    }

    /** Adds a consumer to the slot of its key. */
    method Join(key: Key, params: Json, q: QueueId)
      requires key in slots && slots[key] in records
      modifies this`queues, this`records, this`streams
      ensures View() == StepEnter(old(View()), key, params, q)
    {
      var sid := slots[key];
      var slot := records[sid];
      queues := queues[q := Queue([], 0)];
      records := records[sid := slot.(consumers := slot.consumers + [q])];
      streams := streams[q := Stream(key, sid, false)];
    }

    /**
     * `subscribe` to its request or its end; `connected` is what the socket
     * says before the lock is waited for, and only a connected caller waits.
     */
    method SubscribeEnter(connected: bool, kind: string, params: Json, q: QueueId) returns (entry: Entry)
      requires Valid() && (connected ==> Enabled(View(), Enter(KeyOf(kind, params), params, q)))
      modifies this
      ensures View() == if connected then StepEnter(old(View()), KeyOf(kind, params), params, q) else old(View())
      ensures Valid()
      ensures
        var key := KeyOf(kind, params);
        entry == if !connected then Unavailable
                 else if key in old(slots) then Joined
                 else MustRequest(if params.Null? then [Str(kind)] else [Str(kind), params])
    {
      if !connected {
        return Unavailable;
      }
      var key := KeyOf(kind, params);
      EnterInv(View(), key, params, q);
      if key in slots {
        Join(key, params, q);
        return Joined;
      }
      queues := queues[q := Queue([], 0)];
      lock := Subscribing(key, params, q);
      return MustRequest(SubscribeArgs(kind, params));
    }

    /** Registers the new slot under its key and its id. */
    method Register(id: string)
      requires lock.Subscribing?
      modifies this
      ensures View() == StepIssued(old(View()), id)
    {
      var key, q, sid := lock.key, lock.queue, nextSlot;
      records := records[sid := Slot(key, lock.params, id, [q])];
      nextSlot := sid + 1;
      slots := slots[key := sid];
      byId := byId[id := sid];
      streams := streams[q := Stream(key, sid, false)];
      lock := Free;
      issued := issued + {id};
      PublishGauge(key.kind);
    }

    /** `subscribe`, once the upstream has answered with a subscription id. */
    method SubscribeIssued(id: string)
      requires Valid() && lock.Subscribing? && id !in issued
      modifies this
      ensures View() == StepIssued(old(View()), id)
      ensures Valid()
    {
      IssuedInv(View(), lock.key, id);
      Register(id);
    }

    /** `subscribe`, once its request has failed: the lock is released and nothing is registered. */
    method SubscribeFails()
      requires Valid() && lock.Subscribing?
      modifies this`lock
      ensures View() == old(View()).(lock := Free)
      ensures Valid()
    {
      StepInv(View(), SubscribeFailed);
      lock := Free;
    }

    /** `on_reconnect` up to its first request: `order` is the copy of the slot list it iterates. */
    method OnReconnect(order: seq<SlotId>)
      requires Valid() && Enabled(View(), ReconnectBegin(order))
      modifies this
      ensures View() == StepReconnectBegin(old(View()), order)
      ensures byId == map[] && lock == if order == [] then Free else Reissuing(order)
      ensures Valid()
    {
      StepInv(View(), ReconnectBegin(order));
      byId := map[];
      lock := if order == [] then Free else Reissuing(order);
    }

    /** The request of the next turn of the `on_reconnect` loop: for the kind and parameters of its slot. */
    method ReissueArgs() returns (args: seq<Json>)
      requires Valid() && lock.Reissuing?
      ensures
        var slot := records[lock.pending[0]];
        args == if slot.params.Null? then [Str(slot.key.kind)] else [Str(slot.key.kind), slot.params]
      ensures Requests(View(), records[lock.pending[0]].key, records[lock.pending[0]].params)
    {
      var slot := records[lock.pending[0]];
      args := SubscribeArgs(slot.key.kind, slot.params);
    }

    /** One turn of the `on_reconnect` loop, with the outcome of its request. */
    method Reissue(outcome: Option<string>)
      requires Valid() && lock.Reissuing? && (outcome.Some? ==> outcome.value !in issued)
      modifies this
      ensures View() == match outcome
                        case Some(id) => StepReissued(old(View()), id)
                        case None => StepReissueFailed(old(View()))
      ensures Valid()
      // The loop goes on with the next slot, whatever became of this one.
      ensures lock == if |old(lock.pending)| == 1 then Free else Reissuing(old(lock.pending)[1..])
    {
      var sid := lock.pending[0];
      ghost var before := View();
      if outcome.Some? {
        ReissuedInv(before, records[sid].key, outcome.value);
      } else {
        ReissueFailedInv(before, records[sid].key);
      }
      ConsumersHaveQueues(sid);
      EnqueueAll(records[sid].consumers, Gap);
      if outcome.Some? {
        records := records[sid := records[sid].(subscriptionId := outcome.value)];
        byId := byId[outcome.value := sid];
        issued := issued + {outcome.value};
      }
      lock := AfterReissue(lock.pending);
    }

    /** `_remove_consumer`: returns the id to unsubscribe, if the slot lost its last consumer. */
    method RemoveConsumer(q: QueueId) returns (unsubscribe: Option<string>)
      requires q in streams && streams[q].slot in records
      modifies this
      ensures View() == StepClose(old(View()), q)
      ensures unsubscribe.Some? ==>
        && unsubscribe.value == old(records[streams[q].slot].subscriptionId) && unsubscribe.value !in byId
        && unsubscribed == old(unsubscribed) + {unsubscribe.value} && slots == old(slots - {streams[q].key})
      ensures unsubscribe.None? ==> unsubscribed == old(unsubscribed) && slots == old(slots)
    {
      var key, sid := streams[q].key, streams[q].slot;
      var slot := records[sid];
      streams := streams - {q};
      if q !in slot.consumers {
        return None;
      }
      var rest := Without(slot.consumers, q);
      records := records[sid := Slot(slot.key, slot.params, slot.subscriptionId, rest)];
      if rest != [] {
        return None;
      }
      slots := slots - {key};
      byId := byId - {slot.subscriptionId};
      unsubscribed := unsubscribed + {slot.subscriptionId};
      PublishGauge(slot.key.kind);
      return Some(slot.subscriptionId);
    }

    method SetClosed(q: QueueId)
      requires q in streams
      modifies this`streams
      ensures View() == StepMarkClosed(old(View()), q)
    {
      streams := streams[q := streams[q].(closed := true)];
    }

    /** `aclose` before it waits for the lock: only the first call goes on to close. */
    method BeginClose(q: QueueId) returns (first: bool)
      requires Valid()
      modifies this`streams
      ensures View() == StepMarkClosed(old(View()), q)
      ensures Valid()
      ensures first <==> q in old(streams) && !old(streams)[q].closed
      ensures streams.Keys == old(streams).Keys && (q in streams ==> streams[q].closed)
    {
      MarkClosedInv(View(), q);
      if q !in streams {
        return false;
      }
      first := !streams[q].closed;
      SetClosed(q);
    }

    /** The rest of the first `aclose`, under the lock. */
    method Close(q: QueueId) returns (unsubscribe: Option<string>)
      requires Valid() && Enabled(View(), Action.Close(q))
      modifies this
      ensures View() == StepClose(old(View()), q)
      ensures Valid()
      ensures unsubscribe.Some? ==>
        && unsubscribe.value == old(records[streams[q].slot].subscriptionId) && unsubscribe.value !in byId
        && unsubscribed == old(unsubscribed) + {unsubscribe.value} && slots == old(slots - {streams[q].key})
      ensures unsubscribe.None? ==> unsubscribed == old(unsubscribed) && slots == old(slots)
    {
      CloseInv(View(), q);
      unsubscribe := RemoveConsumer(q);
    }

    method Pop(q: QueueId) returns (e: Event)
      requires q in queues && queues[q].taken < |queues[q].put|
      modifies this`queues
      ensures e == old(queues)[q].put[old(queues)[q].taken] && View() == StepTake(old(View()), q)
    {
      e := queues[q].put[queues[q].taken];
      queues := queues[q := Queue(queues[q].put, queues[q].taken + 1)];
    }

    /** `__anext__`: nothing once the stream is closed, else the oldest event not taken, when there is one. */
    method TakeNext(q: QueueId) returns (e: Option<Event>)
      requires Valid()
      requires q in streams && !streams[q].closed ==> q in queues && queues[q].taken < |queues[q].put|
      modifies this`queues
      ensures
        if q in streams && !streams[q].closed
        then e == Some(old(queues)[q].put[old(queues)[q].taken]) && View() == StepTake(old(View()), q)
        else e == None && View() == old(View())
      ensures Valid()
    {
      if q !in streams || streams[q].closed {
        return None;
      }
      TakeInv(View(), q);
      var event := Pop(q);
      return Some(event);
    }
  }
}
