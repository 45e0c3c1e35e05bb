/** Every step of the multiplexer keeps its invariant, so every reachable state satisfies it. */
module MultiplexerInvariant {
  import opened Wrappers
  import opened JsonText
  import opened Canonical
  import opened Multiplexer

  lemma InitialInv()
    ensures Inv(INITIAL)
  {
    forall kind ensures CountOf(INITIAL.slots, kind) == 0 {
      assert (set k | k in INITIAL.slots && k.kind == kind) == {};
    }
  }

  // ---------------------------------------------------------------------
  // Steps that touch only queues or the lock
  // ---------------------------------------------------------------------

  ghost predicate SameTables(s: State, t: State) {
    t == s.(queues := t.queues, lock := t.lock) && s.queues.Keys <= t.queues.Keys
  }

  lemma QueueStepIndex(s: State, t: State)
    requires IndexOk(s) && SameTables(s, t)
    ensures IndexOk(t)
  {
    assert forall sid :: Registered(t, sid) <==> Registered(s, sid);
  }

  lemma QueueStepTables(s: State, t: State)
    requires SlotsOk(s) && StreamsOk(s) && GaugesOk(s) && SameTables(s, t)
    ensures SlotsOk(t) && StreamsOk(t) && GaugesOk(t)
  {
  }

  lemma QueueStepInv(s: State, t: State)
    requires Inv(s) && SameTables(s, t)
    requires LockOk(t) && ParamsOk(t)
    ensures Inv(t)
  {
    QueueStepTables(s, t);
    QueueStepIndex(s, t);
  }

  lemma SameLock(s: State, t: State)
    requires LockOk(s) && ParamsOk(s)
    requires t == s.(queues := t.queues, streams := t.streams)
    requires s.queues.Keys <= t.queues.Keys && t.streams.Keys == s.streams.Keys
    ensures LockOk(t) && ParamsOk(t)
  {
    assert forall sid :: Registered(t, sid) <==> Registered(s, sid);
  }

  lemma QueuesOnlyInv(s: State, t: State)
    requires Inv(s) && t == s.(queues := t.queues) && s.queues.Keys <= t.queues.Keys
    ensures Inv(t)
  {
    SameLock(s, t);
    QueueStepInv(s, t);
  }

  lemma NotifyInv(s: State, id: Option<string>, payload: Json)
    requires Inv(s)
    ensures Inv(StepNotify(s, id, payload))
  {
    QueuesOnlyInv(s, StepNotify(s, id, payload));
  }

  lemma TakeInv(s: State, q: QueueId)
    requires Inv(s)
    ensures Inv(StepTake(s, q))
  {
    QueuesOnlyInv(s, StepTake(s, q));
  }

  lemma MarkedIndex(s: State, t: State)
    requires IndexOk(s) && t == s.(streams := t.streams)
    ensures IndexOk(t)
  {
    assert forall sid :: Registered(t, sid) <==> Registered(s, sid);
  }

  /** t is s with other closing marks on its streams. */
  ghost predicate SameStreams(s: State, t: State) {
    && t == s.(streams := t.streams) && t.streams.Keys == s.streams.Keys
    && (forall q :: q in s.streams ==> t.streams[q].key == s.streams[q].key && t.streams[q].slot == s.streams[q].slot)
  }

  lemma MarkedConsumers(s: State, t: State)
    requires ConsumersOpen(s) && SameStreams(s, t)
    ensures ConsumersOpen(t)
  {
  }

  lemma MarkedStreams(s: State, t: State)
    requires SlotsOk(s) && StreamsOk(s) && GaugesOk(s) && SameStreams(s, t)
    ensures SlotsOk(t) && StreamsOk(t) && GaugesOk(t)
  {
    MarkedConsumers(s, t);
  }

  lemma MarkedInv(s: State, t: State)
    requires Inv(s) && SameStreams(s, t)
    ensures Inv(t)
  {
    SameLock(s, t);
    MarkedStreams(s, t);
    MarkedIndex(s, t);
  }

  lemma MarkShape(s: State, q: QueueId)
    ensures SameStreams(s, StepMarkClosed(s, q))
  {
  }

  lemma MarkClosedInv(s: State, q: QueueId)
    requires Inv(s)
    ensures Inv(StepMarkClosed(s, q))
  {
    MarkShape(s, q);
    MarkedInv(s, StepMarkClosed(s, q));
  }

  lemma PendingTail(s: State, pending: seq<SlotId>)
    requires LockOk(s) && s.lock == Reissuing(pending)
    ensures var l := AfterReissue(pending);
      l == Free || (l.Reissuing? && l.pending != [] && Distinct(l.pending)
                    && (forall i :: 0 <= i < |l.pending| ==> Registered(s, l.pending[i]))
                    && (forall id :: id in s.byId ==> s.byId[id] !in l.pending)
                    && pending[0] !in l.pending)
  {
  }

  lemma ReissueFailedInv(s: State, key: Key)
    requires Inv(s) && Reissues(s, key)
    ensures Inv(StepReissueFailed(s))
  {
    var t := StepReissueFailed(s);
    assert forall sid :: Registered(t, sid) <==> Registered(s, sid);
    PendingTail(s, s.lock.pending);
    QueueStepInv(s, t);
  }

  // ---------------------------------------------------------------------
  // Reconnecting
  // ---------------------------------------------------------------------

  lemma ClearedIndex(s: State)
    requires IndexOk(s)
    ensures IndexOk(s.(byId := map[]))
  {
    var t := s.(byId := map[]);
    assert forall sid :: Registered(t, sid) <==> Registered(s, sid);
  }

  lemma ClearedTables(s: State)
    requires SlotsOk(s) && ParamsOk(s) && StreamsOk(s) && GaugesOk(s)
    ensures var t := s.(byId := map[]); SlotsOk(t) && ParamsOk(t) && StreamsOk(t) && GaugesOk(t)
  {
  }

  lemma ClearedInv(s: State)
    requires Inv(s) && s.lock == Free
    ensures Inv(s.(byId := map[]))
  {
    ClearedIndex(s);
    ClearedTables(s);
  }

  lemma ReconnectBeginInv(s: State, order: seq<SlotId>)
    requires Inv(s) && s.lock == Free && Enumerates(order, s.slots)
    ensures Inv(StepReconnectBegin(s, order))
  {
    var cleared, t := s.(byId := map[]), StepReconnectBegin(s, order);
    ClearedInv(s);
    forall i | 0 <= i < |order| ensures Registered(t, order[i]) {
      assert order[i] in s.slots.Values;
    }
    QueueStepInv(cleared, t);
  }

  lemma ReissuedStreams(s: State, t: State)
    requires StreamsOk(s) && t.slots == s.slots && t.streams == s.streams && t.queues.Keys == s.queues.Keys
    requires t.records.Keys == s.records.Keys
    requires forall x :: x in s.records ==> t.records[x].consumers == s.records[x].consumers
    ensures StreamsOk(t)
  {
  }

  /** A slot keeps its key, parameters and consumers under a new subscription id. */
  lemma ReissuedTables(s: State, t: State, sid: SlotId, id: string)
    requires Inv(s) && sid in s.records && id !in s.issued
    requires t.records == s.records[sid := s.records[sid].(subscriptionId := id)]
    requires t.slots == s.slots && t.streams == s.streams && t.queues.Keys == s.queues.Keys
    requires t.nextSlot == s.nextSlot && t.gauges == s.gauges && !t.lock.Subscribing?
    ensures SlotsOk(t) && ParamsOk(t) && StreamsOk(t) && GaugesOk(t)
    ensures forall x :: Registered(t, x) <==> Registered(s, x)
  {
    assert forall x :: x in s.records ==>
      t.records[x].key == s.records[x].key && t.records[x].consumers == s.records[x].consumers;
    ReissuedStreams(s, t);
  }

  lemma ReissuedIndex(s: State, t: State, sid: SlotId, id: string)
    requires Inv(s) && Registered(s, sid) && id !in s.issued
    requires forall x :: x in s.byId ==> s.byId[x] != sid
    requires t.records == s.records[sid := s.records[sid].(subscriptionId := id)]
    requires t.byId == s.byId[id := sid] && t.issued == s.issued + {id} && t.unsubscribed == s.unsubscribed
    requires forall x :: Registered(t, x) <==> Registered(s, x)
    ensures IndexOk(t)
  {
    forall x | x in t.byId ensures Registered(t, t.byId[x]) && t.records[t.byId[x]].subscriptionId == x {
    }
  }

  lemma ReissuedInv(s: State, key: Key, id: string)
    requires Inv(s) && Reissues(s, key) && id !in s.issued
    ensures Inv(StepReissued(s, id))
  {
    var t := StepReissued(s, id);
    var sid := s.lock.pending[0];
    PendingTail(s, s.lock.pending);
    ReissuedTables(s, t, sid, id);
    ReissuedIndex(s, t, sid, id);
  }

  // ---------------------------------------------------------------------
  // Gauges
  // ---------------------------------------------------------------------

  lemma PublishOk(s: State, slots: map<Key, SlotId>, key: Key)
    requires GaugesOk(s)
    requires slots.Keys == s.slots.Keys + {key} || slots.Keys == s.slots.Keys - {key}
    ensures forall kind ::
      var g := Publish(s.gauges, slots, key.kind);
      (if kind in g then g[kind] else 0) == CountOf(slots, kind)
  {
    forall kind | kind != key.kind
      ensures CountOf(slots, kind) == CountOf(s.slots, kind)
    {
      assert (set k | k in slots && k.kind == kind) == (set k | k in s.slots && k.kind == kind);
    }
  }

  // ---------------------------------------------------------------------
  // Subscribing
  // ---------------------------------------------------------------------

  lemma DistinctAppend<T>(xs: seq<T>, x: T)
    requires Distinct(xs) && x !in xs
    ensures Distinct(xs + [x])
  {
  }

  /** t is s with other consumers in one slot's record. */
  ghost predicate SetsConsumers(s: State, t: State, sid: SlotId, cs: seq<QueueId>) {
    && sid in s.records && s.lock == Free
    && t == s.(records := s.records[sid := s.records[sid].(consumers := cs)],
               queues := t.queues, streams := t.streams)
  }

  lemma ConsumersTables(s: State, t: State, sid: SlotId, cs: seq<QueueId>)
    requires SlotsOk(s) && ParamsOk(s) && SetsConsumers(s, t, sid, cs)
    requires cs != [] && Distinct(cs)
    ensures SlotsOk(t) && ParamsOk(t)
  {
  }

  lemma ConsumersIndex(s: State, t: State, sid: SlotId, cs: seq<QueueId>)
    requires IndexOk(s) && SetsConsumers(s, t, sid, cs)
    ensures IndexOk(t)
  {
    assert forall x :: Registered(t, x) <==> Registered(s, x);
  }

  lemma JoinShape(s: State, key: Key, params: Json, q: QueueId)
    requires SlotsOk(s) && GaugesOk(s) && s.lock == Free && key in s.slots
    ensures
      var t, sid := StepEnter(s, key, params, q), s.slots[key];
      && SetsConsumers(s, t, sid, s.records[sid].consumers + [q])
      && t.queues.Keys == s.queues.Keys + {q} && t.streams == s.streams[q := Stream(key, sid, false)]
      && GaugesOk(t) && LockOk(t)
  {
  }

  lemma JoinStreams(s: State, t: State, key: Key, q: QueueId)
    requires SlotsOk(s) && StreamsOk(s) && key in s.slots && q !in s.streams
    requires
      var sid := s.slots[key];
      var slot := s.records[sid];
      && t.queues.Keys == s.queues.Keys + {q} && t.slots == s.slots
      && t.records == s.records[sid := slot.(consumers := slot.consumers + [q])]
      && t.streams == s.streams[q := Stream(key, sid, false)]
    ensures StreamsOk(t)
  {
    var sid := s.slots[key];
    forall k, p | k in t.slots && t.slots[k] in t.records && p in t.records[t.slots[k]].consumers
      ensures p in t.streams && t.streams[p].key == k
    {
      if t.slots[k] == sid {
        assert k == key;
      }
    }
  }

  lemma JoinedInv(s: State, t: State, key: Key, q: QueueId)
    requires Inv(s) && key in s.slots && q !in s.queues && GaugesOk(t) && LockOk(t)
    requires
      var sid := s.slots[key];
      var consumers := s.records[sid].consumers + [q];
      && SetsConsumers(s, t, sid, consumers)
      && t.queues.Keys == s.queues.Keys + {q} && t.streams == s.streams[q := Stream(key, sid, false)]
    ensures Inv(t)
  {
    var sid := s.slots[key];
    var consumers := s.records[sid].consumers + [q];
    assert q !in s.streams;
    DistinctAppend(s.records[sid].consumers, q);
    ConsumersTables(s, t, sid, consumers);
    ConsumersIndex(s, t, sid, consumers);
    JoinStreams(s, t, key, q);
  }

  lemma JoinInv(s: State, key: Key, params: Json, q: QueueId)
    requires Inv(s) && s.lock == Free && q !in s.queues && key in s.slots
    ensures Inv(StepEnter(s, key, params, q))
  {
    JoinShape(s, key, params, q);
    JoinedInv(s, StepEnter(s, key, params, q), key, q);
  }

  lemma WaitInv(s: State, key: Key, params: Json, q: QueueId)
    requires Inv(s) && Enabled(s, Enter(key, params, q)) && key !in s.slots
    ensures Inv(StepEnter(s, key, params, q))
  {
    var t := StepEnter(s, key, params, q);
    assert q !in s.streams;
    assert forall x :: Registered(t, x) <==> Registered(s, x);
    QueueStepInv(s, t);
  }

  lemma EnterInv(s: State, key: Key, params: Json, q: QueueId)
    requires Inv(s) && Enabled(s, Enter(key, params, q))
    ensures Inv(StepEnter(s, key, params, q))
  {
    if key in s.slots {
      JoinInv(s, key, params, q);
    } else {
      WaitInv(s, key, params, q);
    }
  }

  lemma IssuedTables(s: State, t: State, key: Key, q: QueueId, sid: SlotId)
    requires SlotsOk(s) && ParamsOk(s) && s.lock.Subscribing? && key == s.lock.key && sid == s.nextSlot
    requires t.slots == s.slots[key := sid] && t.nextSlot == sid + 1 && t.lock == Free
    requires sid in t.records
    requires t.records == s.records[sid := Slot(key, s.lock.params, t.records[sid].subscriptionId, [q])]
    ensures SlotsOk(t) && ParamsOk(t)
  {
  }

  lemma IssuedIndex(s: State, t: State, sid: SlotId, id: string)
    requires IndexOk(s) && id !in s.issued && sid !in s.records
    requires sid in t.records && t.records == s.records[sid := t.records[sid]]
    requires t.records[sid].subscriptionId == id
    requires t.byId == s.byId[id := sid] && t.issued == s.issued + {id} && t.unsubscribed == s.unsubscribed
    requires forall x :: Registered(t, x) <==> Registered(s, x) || x == sid
    ensures IndexOk(t)
  {
  }

  lemma IssuedListed(s: State, t: State, key: Key, q: QueueId, sid: SlotId)
    requires StreamsListed(s) && key !in s.slots && q in s.queues && sid !in s.records
    requires t.queues == s.queues && t.slots == s.slots[key := sid]
    requires t.streams == s.streams[q := Stream(key, sid, false)]
    requires sid in t.records && t.records[sid].consumers == [q] && t.records == s.records[sid := t.records[sid]]
    ensures StreamsListed(t)
  {
  }

  lemma IssuedConsumers(s: State, t: State, key: Key, q: QueueId, sid: SlotId)
    requires SlotsOk(s) && ConsumersOpen(s) && key !in s.slots && q !in s.streams && sid !in s.records
    requires t.slots == s.slots[key := sid] && t.streams == s.streams[q := Stream(key, sid, false)]
    requires sid in t.records && t.records[sid].consumers == [q] && t.records == s.records[sid := t.records[sid]]
    ensures ConsumersOpen(t)
  {
    forall k | k in s.slots ensures t.slots[k] == s.slots[k] != sid {
      assert s.slots[k] in s.records;
    }
  }

  lemma IssuedStreams(s: State, t: State, key: Key, q: QueueId, sid: SlotId)
    requires SlotsOk(s) && StreamsOk(s) && key !in s.slots && q in s.queues && q !in s.streams && sid !in s.records
    requires t.queues == s.queues && t.slots == s.slots[key := sid]
    requires t.streams == s.streams[q := Stream(key, sid, false)]
    requires sid in t.records && t.records[sid].consumers == [q] && t.records == s.records[sid := t.records[sid]]
    ensures StreamsOk(t)
  {
    IssuedListed(s, t, key, q, sid);
    IssuedConsumers(s, t, key, q, sid);
  }

  lemma IssuedRegistered(s: State, t: State, key: Key, sid: SlotId)
    requires SlotsOk(s) && key !in s.slots && sid !in s.records
    requires sid in t.records && t.records == s.records[sid := t.records[sid]] && t.records[sid].key == key
    requires t.slots == s.slots[key := sid]
    ensures forall x :: Registered(t, x) <==> Registered(s, x) || x == sid
  {
  }

  lemma IssuedInv(s: State, key: Key, id: string)
    requires Inv(s) && Enabled(s, Issued(key, id))
    ensures Inv(StepIssued(s, id))
  {
    var t := StepIssued(s, id);
    var q, sid := s.lock.queue, s.nextSlot;
    assert sid !in s.records;
    PublishOk(s, t.slots, key);
    IssuedTables(s, t, key, q, sid);
    IssuedStreams(s, t, key, q, sid);
    IssuedRegistered(s, t, key, sid);
    IssuedIndex(s, t, sid, id);
  }

  // ---------------------------------------------------------------------
  // Closing
  // ---------------------------------------------------------------------

  lemma DistinctCons<T>(x: T, xs: seq<T>)
    requires Distinct(xs) && x !in xs
    ensures Distinct([x] + xs)
  {
  }

  lemma {:induction false} WithoutDistinct(qs: seq<QueueId>, q: QueueId)
    requires Distinct(qs)
    ensures forall p :: p in Without(qs, q) <==> p in qs && p != q
    ensures Distinct(Without(qs, q))
  {
    if qs != [] {
      assert qs == [qs[0]] + qs[1..];
      if qs[0] != q {
        WithoutDistinct(qs[1..], q);
        DistinctCons(qs[0], Without(qs[1..], q));
      }
    }
  }

  lemma LeftConsumers(s: State, t: State, q: QueueId, cs: seq<QueueId>)
    requires SlotsOk(s) && StreamsOk(s) && q in s.streams
    requires SetsConsumers(s, t, s.streams[q].slot, cs) && t.streams == s.streams - {q}
    requires forall p :: p in cs <==> p in s.records[s.streams[q].slot].consumers && p != q
    ensures ConsumersOpen(t)
  {
    var sid := s.streams[q].slot;
    forall k, p | k in t.slots && t.slots[k] in t.records && p in t.records[t.slots[k]].consumers
      ensures p in t.streams && t.streams[p].key == k
    {
      if t.slots[k] == sid {
        assert k == s.streams[q].key;
      } else {
        assert s.streams[p].key == k;
      }
    }
  }

  lemma LeftListed(s: State, t: State, q: QueueId, cs: seq<QueueId>)
    requires StreamsListed(s) && q in s.streams
    requires SetsConsumers(s, t, s.streams[q].slot, cs)
    requires t.queues == s.queues && t.streams == s.streams - {q}
    requires forall p :: p in cs <==> p in s.records[s.streams[q].slot].consumers && p != q
    ensures StreamsListed(t)
  {
  }

  lemma LeaveStreams(s: State, t: State, q: QueueId, cs: seq<QueueId>)
    requires SlotsOk(s) && StreamsOk(s) && q in s.streams
    requires SetsConsumers(s, t, s.streams[q].slot, cs)
    requires t.queues == s.queues && t.streams == s.streams - {q}
    requires forall p :: p in cs <==> p in s.records[s.streams[q].slot].consumers && p != q
    ensures StreamsOk(t)
  {
    LeftListed(s, t, q, cs);
    LeftConsumers(s, t, q, cs);
  }

  /** The slot stays: it only loses one consumer. */
  lemma LeaveInv(s: State, q: QueueId)
    requires Inv(s) && s.lock == Free && q in s.streams
    requires Without(s.records[s.streams[q].slot].consumers, q) != []
    ensures Inv(StepClose(s, q))
  {
    var t := StepClose(s, q);
    var sid := s.streams[q].slot;
    var cs := Without(s.records[sid].consumers, q);
    WithoutDistinct(s.records[sid].consumers, q);
    ConsumersTables(s, t, sid, cs);
    ConsumersIndex(s, t, sid, cs);
    LeaveStreams(s, t, q, cs);
    assert GaugesOk(t) && LockOk(t);
  }

  /** t is s without the slot of `key`, whose record keeps no consumer. */
  ghost predicate Retires(s: State, t: State, key: Key, sid: SlotId) {
    && key in s.slots && s.slots[key] == sid && sid in s.records && s.lock == Free
    && t == s.(records := s.records[sid := s.records[sid].(consumers := [])],
               slots := s.slots - {key},
               byId := s.byId - {s.records[sid].subscriptionId},
               unsubscribed := s.unsubscribed + {s.records[sid].subscriptionId},
               streams := t.streams, gauges := t.gauges)
  }

  lemma RetireTables(s: State, t: State, key: Key, sid: SlotId)
    requires SlotsOk(s) && ParamsOk(s) && Retires(s, t, key, sid)
    ensures SlotsOk(t) && ParamsOk(t)
    ensures forall x :: Registered(t, x) <==> Registered(s, x) && x != sid
  {
    assert forall k :: k in t.slots ==> t.slots[k] != sid;
  }

  lemma RetireIndex(s: State, t: State, key: Key, sid: SlotId)
    requires SlotsOk(s) && IndexOk(s) && Retires(s, t, key, sid)
    requires forall x :: Registered(t, x) <==> Registered(s, x) && x != sid
    ensures IndexOk(t)
  {
    assert Registered(s, sid);
    assert forall id :: id in t.byId ==> id in s.byId && t.byId[id] == s.byId[id] && t.byId[id] != sid;
  }

  lemma RetiredConsumers(s: State, t: State, q: QueueId, key: Key, sid: SlotId)
    requires SlotsOk(s) && ConsumersOpen(s) && Retires(s, t, key, sid)
    requires q in s.streams && s.streams[q].key == key && t.streams == s.streams - {q}
    ensures ConsumersOpen(t)
  {
    forall k | k in t.slots ensures t.slots[k] != sid {
      assert s.records[s.slots[k]].key == k;
    }
  }

  lemma RetiredListed(s: State, t: State, q: QueueId, key: Key, sid: SlotId)
    requires StreamsListed(s) && Retires(s, t, key, sid) && t.streams == s.streams - {q}
    requires forall p :: p in s.records[sid].consumers ==> p == q
    ensures StreamsListed(t)
  {
    forall p | p in t.streams ensures t.streams[p].slot != sid {
      assert p in s.streams && p in s.records[s.streams[p].slot].consumers;
    }
  }

  lemma RetireStreams(s: State, t: State, q: QueueId, key: Key, sid: SlotId)
    requires SlotsOk(s) && StreamsOk(s) && Retires(s, t, key, sid)
    requires q in s.streams && s.streams[q].key == key && s.streams[q].slot == sid && t.streams == s.streams - {q}
    requires forall p :: p in s.records[sid].consumers ==> p == q
    ensures StreamsOk(t)
  {
    RetiredListed(s, t, q, key, sid);
    RetiredConsumers(s, t, q, key, sid);
  }

  /** The last consumer leaves: the slot goes, its id is dropped and unsubscribed. */
  lemma RetireInv(s: State, q: QueueId)
    requires Inv(s) && s.lock == Free && q in s.streams
    requires Without(s.records[s.streams[q].slot].consumers, q) == []
    ensures Inv(StepClose(s, q))
    ensures Retires(s, StepClose(s, q), s.streams[q].key, s.streams[q].slot)
  {
    var t := StepClose(s, q);
    var key, sid := s.streams[q].key, s.streams[q].slot;
    WithoutDistinct(s.records[sid].consumers, q);
    PublishOk(s, t.slots, key);
    RetireTables(s, t, key, sid);
    RetireIndex(s, t, key, sid);
    RetireStreams(s, t, q, key, sid);
  }

  lemma CloseInv(s: State, q: QueueId)
    requires Inv(s) && s.lock == Free
    ensures Inv(StepClose(s, q))
  {
    if q in s.streams {
      if Without(s.records[s.streams[q].slot].consumers, q) == [] {
        RetireInv(s, q);
      } else {
        LeaveInv(s, q);
      }
    }
  }

  // ---------------------------------------------------------------------
  // All steps, all runs
  // ---------------------------------------------------------------------

  lemma StepInv(s: State, a: Action)
    requires Inv(s) && Enabled(s, a)
    ensures Inv(Step(s, a))
  {
    match a
    case Notify(id, payload) => NotifyInv(s, id, payload);
    case Enter(key, params, q) =>
      if key in s.slots { JoinInv(s, key, params, q); } else { WaitInv(s, key, params, q); }
    case Issued(key, id) => IssuedInv(s, key, id);
    case SubscribeFailed =>
      assert forall sid :: Registered(s.(lock := Free), sid) <==> Registered(s, sid);
      QueueStepInv(s, s.(lock := Free));
    case ReconnectBegin(order) => ReconnectBeginInv(s, order);
    case Reissued(key, _, id) => ReissuedInv(s, key, id);
    case ReissueFailed(key, _) => ReissueFailedInv(s, key);
    case Close(q) => CloseInv(s, q);
    case MarkClosed(q) => MarkClosedInv(s, q);
    case Take(q) => TakeInv(s, q);
  }

  /** `acts` is an interleaving the manager can go through from its initial state. */
  ghost predicate Runs(acts: seq<Action>)
    decreases |acts|, 0
  {
    acts == [] || (Runs(acts[..|acts| - 1]) && Enabled(StateAfter(acts[..|acts| - 1]), acts[|acts| - 1]))
  }

  ghost function StateAfter(acts: seq<Action>): State
    requires Runs(acts)
    decreases |acts|, 1
  {
    if acts == [] then INITIAL else Step(StateAfter(acts[..|acts| - 1]), acts[|acts| - 1])
  }

  /** The invariant holds after every interleaving. */
  lemma {:induction false} ReachableInv(acts: seq<Action>)
    requires Runs(acts)
    ensures Inv(StateAfter(acts))
  {
    if acts == [] {
      InitialInv();
    } else {
      ReachableInv(acts[..|acts| - 1]);
      StepInv(StateAfter(acts[..|acts| - 1]), acts[|acts| - 1]);
    }
  }

  /** In every reachable state each published gauge is the number of registered slots of its kind. */
  lemma GaugesExactly(acts: seq<Action>, kind: string)
    requires Runs(acts)
    ensures
      var s := StateAfter(acts);
      (if kind in s.gauges then s.gauges[kind] else 0) == |set k | k in s.slots && k.kind == kind|
  {
    ReachableInv(acts);
  }

  /** Two live slots of one kind never stand for the same JSON parameters. */
  lemma NoDuplicateSlots(s: State, a: Key, b: Key)
    requires Inv(s) && a in s.slots && b in s.slots && a.kind == b.kind
    ensures a == b <==> Meaning(s.records[s.slots[a]].params) == Meaning(s.records[s.slots[b]].params)
  {
    var pa, pb := s.records[s.slots[a]].params, s.records[s.slots[b]].params;
    assert GoodParams(a, pa) && GoodParams(b, pb);
    CanonicalExactly(pa, pb);
  }
}
