/**
 * The subscription multiplexer as a state machine (src/exec_rest_api/subscriptions.py).
 *
 * Each await-free stretch of the source is one atomic step; steps of different
 * tasks interleave freely, except that the stretches guarded by the manager's
 * lock run only while no other task holds it.  Slot objects live in `records`
 * under an address, so that the sharing between the two dictionaries and the
 * open streams is explicit.
 */
module Multiplexer {
  import opened Wrappers
  import opened JsonText
  import opened Canonical

  datatype Key = Key(kind: string, params: string)

  /** The dictionary key of a (kind, params) pair. */
  function KeyOf(kind: string, params: Json): Key {
    Key(kind, Canonicalize(params))
  }

  /** Two subscriptions share a key exactly when they are of one kind and their parameters are the same JSON value. */
  lemma KeyExactly(k1: string, a: Json, k2: string, b: Json)
    requires WellFormed(a) && WellFormed(b)
    ensures KeyOf(k1, a) == KeyOf(k2, b) <==> k1 == k2 && Meaning(a) == Meaning(b)
  {
    CanonicalExactly(a, b);
  }

  datatype Event = Event(payload: Json) | Gap

  const QUEUE_SIZE: nat := 1024

  /** A bounded queue: everything ever put in it, of which the first `taken` have been consumed. */
  datatype Queue = Queue(put: seq<Event>, taken: nat)

  predicate Full(q: Queue) {
    |q.put| - q.taken >= QUEUE_SIZE
  }

  /** `_enqueue`: an event offered to a full queue is dropped. */
  function Offer(q: Queue, e: Event): Queue {
    if Full(q) then q else Queue(q.put + [e], q.taken)
  }

  type QueueId = nat
  type SlotId = nat

  datatype Slot = Slot(key: Key, params: Json, subscriptionId: string, consumers: seq<QueueId>)

  /** What a consumer stream's close callback captured, and whether its `aclose` has begun. */
  datatype Stream = Stream(key: Key, slot: SlotId, closed: bool)

  datatype Lock =
    | Free
    | Subscribing(key: Key, params: Json, queue: QueueId)
    | Reissuing(pending: seq<SlotId>)

  datatype State = State(
    slots: map<Key, SlotId>,
    records: map<SlotId, Slot>,
    nextSlot: SlotId,
    byId: map<string, SlotId>,
    queues: map<QueueId, Queue>,
    streams: map<QueueId, Stream>,
    lock: Lock,
    gauges: map<string, nat>,
    issued: set<string>,
    unsubscribed: set<string>)

  datatype Action =
    | Notify(id: Option<string>, payload: Json)
    | Enter(key: Key, params: Json, queue: QueueId)
    | Issued(forKey: Key, newId: string)
    | SubscribeFailed
    | ReconnectBegin(order: seq<SlotId>)
    | Reissued(forKey: Key, params: Json, newId: string)
    | ReissueFailed(forKey: Key, params: Json)
    | MarkClosed(queue: QueueId)
    | Close(queue: QueueId)
    | Take(queue: QueueId)

  const INITIAL: State := State(map[], map[], 0, map[], map[], map[], Free, map[], {}, {})

  // ---------------------------------------------------------------------
  // Steps
  // ---------------------------------------------------------------------

  function FanOut(queues: map<QueueId, Queue>, consumers: seq<QueueId>, e: Event): map<QueueId, Queue> {
    map q | q in queues :: if q in consumers then Offer(queues[q], e) else queues[q]
  }

  function CountOf(slots: map<Key, SlotId>, kind: string): nat {
    |set k | k in slots && k.kind == kind|
  }

  /** `_publish_gauge` */
  function Publish(gauges: map<string, nat>, slots: map<Key, SlotId>, kind: string): map<string, nat> {
    gauges[kind := CountOf(slots, kind)]
  }

  /** `on_notification` */
  function StepNotify(s: State, id: Option<string>, payload: Json): State {
    if id.Some? && id.value in s.byId && s.byId[id.value] in s.records then
      s.(queues := FanOut(s.queues, s.records[s.byId[id.value]].consumers, Event(payload)))
    else s
  }

  /** `subscribe` up to its request, or to its end if the key has a slot. */
  function StepEnter(s: State, key: Key, params: Json, q: QueueId): State {
    var queues := s.queues[q := Queue([], 0)];
    if key in s.slots && s.slots[key] in s.records then
      var sid := s.slots[key];
      var slot := s.records[sid];
      s.(queues := queues,
         records := s.records[sid := slot.(consumers := slot.consumers + [q])],
         streams := s.streams[q := Stream(key, sid, false)])
    else s.(queues := queues, lock := Subscribing(key, params, q))
  }

  /** `subscribe` from the answer to its request on. */
  function StepIssued(s: State, id: string): State
    requires s.lock.Subscribing?
  {
    var sid := s.nextSlot;
    var slots := s.slots[s.lock.key := sid];
    State(slots,
          s.records[sid := Slot(s.lock.key, s.lock.params, id, [s.lock.queue])],
          sid + 1,
          s.byId[id := sid],
          s.queues,
          s.streams[s.lock.queue := Stream(s.lock.key, sid, false)],
          Free,
          Publish(s.gauges, slots, s.lock.key.kind),
          s.issued + {id},
          s.unsubscribed)
  }

  function StepReconnectBegin(s: State, order: seq<SlotId>): State {
    s.(byId := map[], lock := if order == [] then Free else Reissuing(order))
  }

  function AfterReissue(pending: seq<SlotId>): Lock
    requires pending != []
  {
    if |pending| == 1 then Free else Reissuing(pending[1..])
  }

  function StepReissueFailed(s: State): State
    requires s.lock.Reissuing? && s.lock.pending != [] && s.lock.pending[0] in s.records
  {
    var sid := s.lock.pending[0];
    s.(queues := FanOut(s.queues, s.records[sid].consumers, Gap), lock := AfterReissue(s.lock.pending))
  }

  function StepReissued(s: State, id: string): State
    requires s.lock.Reissuing? && s.lock.pending != [] && s.lock.pending[0] in s.records
  {
    var sid := s.lock.pending[0];
    StepReissueFailed(s).(
      records := s.records[sid := s.records[sid].(subscriptionId := id)],
      byId := s.byId[id := sid],
      issued := s.issued + {id})
  }

  /** `list.remove` */
  function Without(qs: seq<QueueId>, q: QueueId): seq<QueueId> {
    if qs == [] then [] else if qs[0] == q then qs[1..] else [qs[0]] + Without(qs[1..], q)
  }

  /** `aclose` before it waits for the lock. */
  function StepMarkClosed(s: State, q: QueueId): State {
    if q in s.streams then s.(streams := s.streams[q := s.streams[q].(closed := true)]) else s
  }

  /** The rest of `aclose`: `_remove_consumer` under the lock. */
  function StepClose(s: State, q: QueueId): State {
    if q !in s.streams then s
    else
      var key, sid, streams := s.streams[q].key, s.streams[q].slot, s.streams - {q};
      if sid !in s.records || q !in s.records[sid].consumers then s.(streams := streams)
      else
        var slot := s.records[sid];
        var rest := Without(slot.consumers, q);
        var records := s.records[sid := Slot(slot.key, slot.params, slot.subscriptionId, rest)];
        if rest != [] then s.(streams := streams, records := records)
        else
          var slots := s.slots - {key};
          State(slots,
                records,
                s.nextSlot,
                s.byId - {slot.subscriptionId},
                s.queues,
                streams,
                s.lock,
                Publish(s.gauges, slots, slot.key.kind),
                s.issued,
                s.unsubscribed + {slot.subscriptionId})
  }

  function StepTake(s: State, q: QueueId): State {
    if q in s.queues && s.queues[q].taken < |s.queues[q].put| then
      s.(queues := s.queues[q := Queue(s.queues[q].put, s.queues[q].taken + 1)])
    else s
  }

  // ---------------------------------------------------------------------
  // When a step can happen
  // ---------------------------------------------------------------------

  ghost predicate Distinct<T>(xs: seq<T>) {
    forall i, j :: 0 <= i < j < |xs| ==> xs[i] != xs[j]
  }

  /** `order` lists every registered slot once. */
  ghost predicate Enumerates(order: seq<SlotId>, slots: map<Key, SlotId>) {
    Distinct(order) && forall sid :: sid in order <==> sid in slots.Values
  }

  /** The lock is held by a reconnect whose next slot is the one under `key`. */
  ghost predicate Reissues(s: State, key: Key) {
    && s.lock.Reissuing? && s.lock.pending != []
    && s.lock.pending[0] in s.records && s.records[s.lock.pending[0]].key == key
  }

  /** It asks the upstream again for what that slot was made for. */
  ghost predicate Requests(s: State, key: Key, params: Json) {
    Reissues(s, key) && s.records[s.lock.pending[0]].params == params
  }

  ghost predicate Enabled(s: State, a: Action) {
    match a
    case Notify(_, _) => true
    case Enter(key, params, q) =>
      s.lock == Free && q !in s.queues && key == KeyOf(key.kind, params) && WellFormed(params)
    case Issued(key, id) => s.lock.Subscribing? && key == s.lock.key && id !in s.issued
    case SubscribeFailed => s.lock.Subscribing?
    case ReconnectBegin(order) => s.lock == Free && Enumerates(order, s.slots)
    case Reissued(key, params, id) => Requests(s, key, params) && id !in s.issued
    case ReissueFailed(key, params) => Requests(s, key, params)
    case MarkClosed(_) => true
    case Close(q) => s.lock == Free && q in s.streams && s.streams[q].closed
    // A consumer that was already waiting when its stream was closed still takes an event.
    case Take(_) => true
  }

  ghost function Step(s: State, a: Action): State
    requires Enabled(s, a)
  {
    match a
    case Notify(id, payload) => StepNotify(s, id, payload)
    case Enter(key, params, q) => StepEnter(s, key, params, q)
    case Issued(_, id) => StepIssued(s, id)
    case SubscribeFailed => s.(lock := Free)
    case ReconnectBegin(order) => StepReconnectBegin(s, order)
    case Reissued(_, _, id) => StepReissued(s, id)
    case ReissueFailed(_, _) => StepReissueFailed(s)
    case MarkClosed(q) => StepMarkClosed(s, q)
    case Close(q) => StepClose(s, q)
    case Take(q) => StepTake(s, q)
  }

  // ---------------------------------------------------------------------
  // The invariant
  // ---------------------------------------------------------------------

  ghost predicate Registered(s: State, sid: SlotId) {
    && sid in s.records && s.records[sid].key in s.slots && s.slots[s.records[sid].key] == sid
  }

  /** Every registered slot stands under its own key and has consumers. */
  ghost predicate SlotsOk(s: State) {
    && (forall k :: k in s.slots ==>
          && s.slots[k] in s.records && s.records[s.slots[k]].key == k
          && s.records[s.slots[k]].consumers != [] && Distinct(s.records[s.slots[k]].consumers))
    && (forall sid :: sid in s.records ==> sid < s.nextSlot)
  }

  ghost predicate GoodParams(key: Key, params: Json) {
    key == KeyOf(key.kind, params) && WellFormed(params)
  }

  /** Slot parameters are what their key was computed from. */
  ghost predicate ParamsOk(s: State) {
    && (forall sid :: sid in s.records ==> GoodParams(s.records[sid].key, s.records[sid].params))
    && (s.lock.Subscribing? ==> GoodParams(s.lock.key, s.lock.params))
  }

  ghost predicate ConsumersOpen(s: State) {
    forall k, q :: k in s.slots && s.slots[k] in s.records && q in s.records[s.slots[k]].consumers ==>
      q in s.streams && s.streams[q].key == k
  }

  ghost predicate StreamsListed(s: State) {
    forall q :: q in s.streams ==>
      && q in s.queues && s.streams[q].key in s.slots
      && s.slots[s.streams[q].key] == s.streams[q].slot
      && s.streams[q].slot in s.records && q in s.records[s.streams[q].slot].consumers
  }

  /** Each open stream's queue is a consumer of exactly the slot its key names. */
  ghost predicate StreamsOk(s: State) {
    StreamsListed(s) && ConsumersOpen(s)
  }

  /** Indexed ids point at registered slots carrying them; ids are unique and never unsubscribed while indexed. */
  ghost predicate IndexOk(s: State) {
    && (forall id :: id in s.byId ==> Registered(s, s.byId[id]) && s.records[s.byId[id]].subscriptionId == id)
    && (forall sid :: sid in s.records ==> s.records[sid].subscriptionId in s.issued)
    && (forall a, b | Registered(s, a) && Registered(s, b) ::
          s.records[a].subscriptionId == s.records[b].subscriptionId ==> a == b)
    && s.unsubscribed <= s.issued
    && s.byId.Keys !! s.unsubscribed
  }

  /** Each published gauge is the number of slots of its kind. */
  ghost predicate GaugesOk(s: State) {
    forall kind :: (if kind in s.gauges then s.gauges[kind] else 0) == CountOf(s.slots, kind)
  }

  ghost predicate LockOk(s: State) {
    match s.lock
    case Free => true
    case Subscribing(key, _, q) => key !in s.slots && q in s.queues && q !in s.streams
    case Reissuing(pending) =>
      && pending != [] && Distinct(pending)
      && (forall i :: 0 <= i < |pending| ==> Registered(s, pending[i]))
      && (forall id :: id in s.byId ==> s.byId[id] !in pending)
  }

  ghost predicate Inv(s: State) {
    SlotsOk(s) && ParamsOk(s) && StreamsOk(s) && IndexOk(s) && GaugesOk(s) && LockOk(s)
  }
}
