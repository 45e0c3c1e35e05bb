/**
 * Multiplexing refines independent subscriptions: what reaches a consumer is
 * what a subscription of its own would have delivered, less the events its
 * full queue dropped.
 */
module MultiplexerRefinement {
  import opened Wrappers
  import opened JsonText
  import opened Multiplexer
  import opened MultiplexerInvariant

  datatype Waiting = Waiting(key: Key, queue: QueueId)

  /**
   * The reference: no slots and no sharing.  `subs` says which key each open
   * consumer asked for, `live` which key an upstream id was issued for, and
   * `expected` collects per consumer the events and gaps of its key.
   */
  datatype Reference = Reference(
    subs: map<QueueId, Key>,
    live: map<string, Key>,
    waiting: Option<Waiting>,
    expected: map<QueueId, seq<Event>>)

  const NOTHING: Reference := Reference(map[], map[], None, map[])

  function Tell(r: Reference, key: Key, e: Event): Reference {
    r.(expected := map q | q in r.expected ::
         if q in r.subs && r.subs[q] == key then r.expected[q] + [e] else r.expected[q])
  }

  predicate Active(r: Reference, key: Key) {
    key in r.subs.Values
  }

  function RefStep(r: Reference, a: Action): Reference {
    match a
    case Notify(id, payload) =>
      if id.Some? && id.value in r.live then Tell(r, r.live[id.value], Event(payload)) else r
    case Enter(key, _, q) =>
      var e := r.(expected := r.expected[q := []]);
      if Active(r, key) then e.(subs := r.subs[q := key]) else e.(waiting := Some(Waiting(key, q)))
    case Issued(key, id) =>
      if r.waiting.None? then r
      else r.(subs := r.subs[r.waiting.value.queue := key], live := r.live[id := key], waiting := None)
    case SubscribeFailed => r.(waiting := None)
    case ReconnectBegin(_) => r.(live := map[])
    case Reissued(key, _, id) => Tell(r, key, Gap).(live := r.live[id := key])
    case ReissueFailed(key, _) => Tell(r, key, Gap)
    case Close(q) =>
      if q !in r.subs then r
      else
        var key, subs := r.subs[q], r.subs - {q};
        r.(subs := subs,
           live := if key in subs.Values then r.live else map id | id in r.live && r.live[id] != key :: r.live[id])
    case MarkClosed(_) => r
    case Take(_) => r
  }

  /** a can be got from b by leaving events out. */
  ghost predicate Subsequence(a: seq<Event>, b: seq<Event>) {
    || a == []
    || (&& b != []
        && (|| Subsequence(a, b[..|b| - 1])
            || (a[|a| - 1] == b[|b| - 1] && Subsequence(a[..|a| - 1], b[..|b| - 1]))))
  }

  lemma SubsequenceGrows(a: seq<Event>, b: seq<Event>, e: Event)
    requires Subsequence(a, b)
    ensures Subsequence(a, b + [e]) && Subsequence(a + [e], b + [e])
  {
    assert (b + [e])[..|b|] == b && (a + [e])[..|a|] == a;
  }

  // ---------------------------------------------------------------------
  // The simulation relation
  // ---------------------------------------------------------------------

  ghost predicate SubsAgree(s: State, r: Reference) {
    && r.subs.Keys == s.streams.Keys
    && (forall q :: q in s.streams ==> r.subs[q] == s.streams[q].key)
  }

  ghost predicate LiveAgrees(s: State, r: Reference) {
    && r.live.Keys == s.byId.Keys
    && (forall id :: id in s.byId ==> s.byId[id] in s.records && r.live[id] == s.records[s.byId[id]].key)
  }

  ghost predicate WaitingAgrees(s: State, r: Reference) {
    r.waiting == if s.lock.Subscribing? then Some(Waiting(s.lock.key, s.lock.queue)) else None
  }

  ghost predicate QueuesAgree(s: State, r: Reference) {
    && r.expected.Keys == s.queues.Keys
    && (forall q :: q in s.queues ==> Subsequence(s.queues[q].put, r.expected[q]))
  }

  ghost predicate Simulates(s: State, r: Reference) {
    SubsAgree(s, r) && LiveAgrees(s, r) && WaitingAgrees(s, r) && QueuesAgree(s, r)
  }

  /** q has received everything it was due. */
  ghost predicate Exact(s: State, r: Reference, q: QueueId) {
    q in s.queues && q in r.expected ==> s.queues[q].put == r.expected[q]
  }

  /** What a step must do to the queues: keep the relation, and keep exactness where there is room. */
  ghost predicate QueuesFollow(s: State, r: Reference, t: State, u: Reference) {
    && QueuesAgree(t, u)
    && (forall q :: q in t.queues && Exact(s, r, q) && (q in s.queues ==> !Full(s.queues[q])) ==> Exact(t, u, q))
  }

  ghost predicate Simulated(s: State, r: Reference, t: State, u: Reference) {
    SubsAgree(t, u) && LiveAgrees(t, u) && WaitingAgrees(t, u) && QueuesFollow(s, r, t, u)
  }

  // ---------------------------------------------------------------------
  // Fan-out
  // ---------------------------------------------------------------------

  /** A registered slot's consumers are exactly the open consumers of its key. */
  lemma ConsumersAre(s: State, r: Reference, sid: SlotId)
    requires SlotsOk(s) && StreamsOk(s) && Registered(s, sid) && SubsAgree(s, r)
    ensures forall q ::
      q in s.records[sid].consumers <==> q in r.subs && r.subs[q] == s.records[sid].key
  {
    var key := s.records[sid].key;
    assert s.slots[key] == sid;
    forall q ensures q in s.records[sid].consumers <==> q in r.subs && r.subs[q] == key {
      if q in r.subs && r.subs[q] == key {
        assert s.streams[q].slot == sid;
      }
    }
  }

  lemma OfferFollows(queue: Queue, expected: seq<Event>, e: Event, told: bool)
    requires Subsequence(queue.put, expected)
    ensures
      var after := if told then Offer(queue, e) else queue;
      var due := if told then expected + [e] else expected;
      Subsequence(after.put, due) && (!Full(queue) && queue.put == expected ==> after.put == due)
  {
    SubsequenceGrows(queue.put, expected, e);
  }

  /** Offering to those consumers tells the reference's. */
  lemma FanOutFollows(s: State, r: Reference, t: State, u: Reference, consumers: seq<QueueId>, key: Key, e: Event)
    requires QueuesAgree(s, r)
    requires forall q :: q in consumers <==> q in r.subs && r.subs[q] == key
    requires t.queues == FanOut(s.queues, consumers, e) && u.expected == Tell(r, key, e).expected
    ensures QueuesFollow(s, r, t, u)
  {
    forall q | q in t.queues
      ensures Subsequence(t.queues[q].put, u.expected[q])
      ensures Exact(s, r, q) && !Full(s.queues[q]) ==> Exact(t, u, q)
    {
      OfferFollows(s.queues[q], r.expected[q], e, q in consumers);
    }
  }

  lemma FanOutTells(s: State, r: Reference, t: State, u: Reference, sid: SlotId, e: Event)
    requires Inv(s) && Registered(s, sid) && SubsAgree(s, r) && QueuesAgree(s, r)
    requires t.queues == FanOut(s.queues, s.records[sid].consumers, e)
    requires u.expected == Tell(r, s.records[sid].key, e).expected
    ensures QueuesFollow(s, r, t, u)
  {
    ConsumersAre(s, r, sid);
    FanOutFollows(s, r, t, u, s.records[sid].consumers, s.records[sid].key, e);
  }

  // ---------------------------------------------------------------------
  // Each step is simulated
  // ---------------------------------------------------------------------

  lemma NotifySimulated(s: State, r: Reference, id: Option<string>, payload: Json)
    requires Inv(s) && Simulates(s, r)
    ensures Simulated(s, r, StepNotify(s, id, payload), RefStep(r, Notify(id, payload)))
  {
    var t, u := StepNotify(s, id, payload), RefStep(r, Notify(id, payload));
    if id.Some? && id.value in s.byId {
      FanOutTells(s, r, t, u, s.byId[id.value], Event(payload));
      assert t == s.(queues := t.queues) && u == r.(expected := u.expected);
    } else {
      assert t == s && u == r;
    }
  }

  lemma ReissueFailedSimulated(s: State, r: Reference, key: Key, params: Json)
    requires Inv(s) && Simulates(s, r) && Reissues(s, key)
    ensures Simulated(s, r, StepReissueFailed(s), RefStep(r, ReissueFailed(key, params)))
  {
    var t, u := StepReissueFailed(s), RefStep(r, ReissueFailed(key, params));
    FanOutTells(s, r, t, u, s.lock.pending[0], Gap);
    assert t == s.(queues := t.queues, lock := t.lock) && u == r.(expected := u.expected);
  }

  lemma LiveAfterReissue(s: State, r: Reference, t: State, u: Reference, sid: SlotId, id: string)
    requires Inv(s) && LiveAgrees(s, r) && Registered(s, sid) && id !in s.issued
    requires t.records == s.records[sid := s.records[sid].(subscriptionId := id)] && t.byId == s.byId[id := sid]
    requires u.live == r.live[id := s.records[sid].key]
    ensures LiveAgrees(t, u)
  {
  }

  lemma ReissuedSimulated(s: State, r: Reference, key: Key, params: Json, id: string)
    requires Inv(s) && Simulates(s, r) && Reissues(s, key) && id !in s.issued
    ensures Simulated(s, r, StepReissued(s, id), RefStep(r, Reissued(key, params, id)))
  {
    var t, u := StepReissued(s, id), RefStep(r, Reissued(key, params, id));
    FanOutTells(s, r, t, u, s.lock.pending[0], Gap);
    LiveAfterReissue(s, r, t, u, s.lock.pending[0], id);
    assert t.streams == s.streams && u.subs == r.subs && u.waiting == r.waiting && !t.lock.Subscribing?;
  }

  /** A key has a slot exactly when some open consumer asked for it. */
  lemma ActiveExactly(s: State, r: Reference, key: Key)
    requires SlotsOk(s) && StreamsOk(s) && SubsAgree(s, r)
    ensures Active(r, key) <==> key in s.slots
  {
    if key in s.slots {
      var q := s.records[s.slots[key]].consumers[0];
      assert q in s.records[s.slots[key]].consumers;
      assert r.subs[q] == key;
    }
    if Active(r, key) {
      var q :| q in r.subs && r.subs[q] == key;
      assert s.streams[q].key == key;
    }
  }

  lemma JoinLive(s: State, r: Reference, t: State, u: Reference, sid: SlotId, consumers: seq<QueueId>)
    requires LiveAgrees(s, r) && sid in s.records
    requires t.records == s.records[sid := s.records[sid].(consumers := consumers)]
    requires t.byId == s.byId && u.live == r.live
    ensures LiveAgrees(t, u)
  {
  }

  lemma NewQueueFollows(s: State, r: Reference, t: State, u: Reference, q: QueueId)
    requires QueuesAgree(s, r) && q !in s.queues
    requires t.queues == s.queues[q := Queue([], 0)] && u.expected == r.expected[q := []]
    ensures QueuesFollow(s, r, t, u)
  {
  }

  lemma SubsAdded(s: State, r: Reference, t: State, u: Reference, q: QueueId, key: Key, sid: SlotId)
    requires SubsAgree(s, r)
    requires t.streams == s.streams[q := Stream(key, sid, false)] && u.subs == r.subs[q := key]
    ensures SubsAgree(t, u)
  {
  }

  lemma SubsDropped(s: State, r: Reference, t: State, u: Reference, q: QueueId)
    requires SubsAgree(s, r)
    requires t.streams == s.streams - {q} && u.subs == r.subs - {q}
    ensures SubsAgree(t, u)
  {
  }

  lemma JoinSimulated(s: State, r: Reference, key: Key, params: Json, q: QueueId)
    requires Inv(s) && Simulates(s, r) && Enabled(s, Enter(key, params, q)) && key in s.slots
    ensures Simulated(s, r, StepEnter(s, key, params, q), RefStep(r, Enter(key, params, q)))
  {
    var t, u := StepEnter(s, key, params, q), RefStep(r, Enter(key, params, q));
    var sid := s.slots[key];
    ActiveExactly(s, r, key);
    NewQueueFollows(s, r, t, u, q);
    SubsAdded(s, r, t, u, q, key, sid);
    JoinLive(s, r, t, u, sid, s.records[sid].consumers + [q]);
    assert u.waiting == r.waiting && t.lock == s.lock;
  }

  lemma WaitSimulated(s: State, r: Reference, key: Key, params: Json, q: QueueId)
    requires Inv(s) && Simulates(s, r) && Enabled(s, Enter(key, params, q)) && key !in s.slots
    ensures Simulated(s, r, StepEnter(s, key, params, q), RefStep(r, Enter(key, params, q)))
  {
    var t, u := StepEnter(s, key, params, q), RefStep(r, Enter(key, params, q));
    ActiveExactly(s, r, key);
    NewQueueFollows(s, r, t, u, q);
    assert u.subs == r.subs && t.streams == s.streams && u.live == r.live;
    assert t.byId == s.byId && t.records == s.records;
  }

  lemma IssuedLive(s: State, r: Reference, t: State, u: Reference, sid: SlotId, id: string)
    requires LiveAgrees(s, r) && sid !in s.records && sid in t.records
    requires t.records == s.records[sid := t.records[sid]] && t.byId == s.byId[id := sid]
    requires u.live == r.live[id := t.records[sid].key]
    ensures LiveAgrees(t, u)
  {
  }

  lemma IssuedShape(s: State, r: Reference, t: State, u: Reference, key: Key, id: string)
    requires s.lock.Subscribing? && key == s.lock.key && WaitingAgrees(s, r)
    requires t == StepIssued(s, id) && u == RefStep(r, Issued(key, id))
    ensures t.queues == s.queues && u.expected == r.expected
    ensures t.streams == s.streams[s.lock.queue := Stream(key, s.nextSlot, false)]
    ensures u.subs == r.subs[s.lock.queue := key] && u.live == r.live[id := key]
    ensures t.lock == Free && u.waiting == None
  {
  }

  lemma SameQueuesFollow(s: State, r: Reference, t: State, u: Reference)
    requires QueuesAgree(s, r) && t.queues == s.queues && u.expected == r.expected
    ensures QueuesFollow(s, r, t, u)
  {
  }

  lemma IssuedSimulated(s: State, r: Reference, key: Key, id: string)
    requires Inv(s) && Simulates(s, r) && Enabled(s, Issued(key, id))
    ensures Simulated(s, r, StepIssued(s, id), RefStep(r, Issued(key, id)))
  {
    var t, u := StepIssued(s, id), RefStep(r, Issued(key, id));
    assert s.nextSlot !in s.records;
    IssuedShape(s, r, t, u, key, id);
    IssuedLive(s, r, t, u, s.nextSlot, id);
    SubsAdded(s, r, t, u, s.lock.queue, key, s.nextSlot);
    SameQueuesFollow(s, r, t, u);
  }

  /** The ids live for a key are at most the one its slot carries. */
  lemma LiveForKey(s: State, r: Reference, key: Key)
    requires SlotsOk(s) && IndexOk(s) && LiveAgrees(s, r) && key in s.slots
    ensures forall id :: id in r.live ==>
      (r.live[id] == key <==> id == s.records[s.slots[key]].subscriptionId)
  {
    var sid := s.slots[key];
    assert Registered(s, sid);
    forall id | id in r.live
      ensures r.live[id] == key <==> id == s.records[sid].subscriptionId
    {
      assert Registered(s, s.byId[id]);
    }
  }

  lemma RefCloseShape(r: Reference, q: QueueId, u: Reference)
    requires q in r.subs && u == RefStep(r, Close(q))
    ensures u.subs == r.subs - {q} && u.waiting == r.waiting && u.expected == r.expected
    ensures Active(u, r.subs[q]) ==> u.live == r.live
    ensures !Active(u, r.subs[q]) ==> u.live == map id | id in r.live && r.live[id] != r.subs[q] :: r.live[id]
  {
  }

  lemma LeaveFollows(s: State, r: Reference, t: State, u: Reference, q: QueueId, sid: SlotId, cs: seq<QueueId>)
    requires Simulates(s, r) && q in s.streams && SetsConsumers(s, t, sid, cs) && Inv(t)
    requires t.streams == s.streams - {q} && t.queues == s.queues && s.streams[q].key in t.slots
    requires u.subs == r.subs - {q} && u.waiting == r.waiting && u.expected == r.expected
    requires Active(u, r.subs[q]) ==> u.live == r.live
    ensures Simulated(s, r, t, u)
  {
    SubsDropped(s, r, t, u, q);
    ActiveExactly(t, u, s.streams[q].key);
    JoinLive(s, r, t, u, sid, cs);
  }

  lemma LeaveShape(s: State, t: State, q: QueueId)
    requires Inv(s) && s.lock == Free && q in s.streams && t == StepClose(s, q)
    requires Without(s.records[s.streams[q].slot].consumers, q) != []
    ensures t.streams == s.streams - {q} && t.queues == s.queues && s.streams[q].key in t.slots
    ensures
      var sid := s.streams[q].slot;
      SetsConsumers(s, t, sid, Without(s.records[sid].consumers, q))
  {
  }

  lemma LeaveSimulated(s: State, r: Reference, q: QueueId)
    requires Inv(s) && Simulates(s, r) && s.lock == Free && q in s.streams
    requires Without(s.records[s.streams[q].slot].consumers, q) != []
    ensures Simulated(s, r, StepClose(s, q), RefStep(r, Close(q)))
  {
    var t, u := StepClose(s, q), RefStep(r, Close(q));
    var sid := s.streams[q].slot;
    LeaveInv(s, q);
    LeaveShape(s, t, q);
    RefCloseShape(r, q, u);
    LeaveFollows(s, r, t, u, q, sid, Without(s.records[sid].consumers, q));
  }

  /** Forgetting one id on one side and its key on the other keeps the tables in agreement. */
  lemma LiveWithout(s: State, r: Reference, t: State, u: Reference, key: Key, id: string)
    requires LiveAgrees(s, r) && t.byId == s.byId - {id}
    requires forall x :: x in s.records ==> x in t.records && t.records[x].key == s.records[x].key
    requires forall x :: x in r.live ==> (r.live[x] == key <==> x == id)
    requires u.live == map x | x in r.live && r.live[x] != key :: r.live[x]
    ensures LiveAgrees(t, u)
  {
  }

  lemma RetireLive(s: State, r: Reference, t: State, u: Reference, key: Key, sid: SlotId)
    requires SlotsOk(s) && IndexOk(s) && LiveAgrees(s, r) && Retires(s, t, key, sid)
    requires u.live == map id | id in r.live && r.live[id] != key :: r.live[id]
    ensures LiveAgrees(t, u)
  {
    LiveForKey(s, r, key);
    LiveWithout(s, r, t, u, key, s.records[sid].subscriptionId);
  }

  lemma RetireShape(s: State, t: State, q: QueueId)
    requires Inv(s) && s.lock == Free && q in s.streams && t == StepClose(s, q)
    requires Without(s.records[s.streams[q].slot].consumers, q) == []
    ensures t.streams == s.streams - {q} && t.queues == s.queues && t.lock == Free
    ensures s.streams[q].key !in t.slots
  {
  }

  lemma RetireFollows(s: State, r: Reference, t: State, u: Reference, q: QueueId)
    requires Inv(s) && Simulates(s, r) && q in s.streams && Inv(t)
    requires Retires(s, t, s.streams[q].key, s.streams[q].slot)
    requires t.streams == s.streams - {q} && t.queues == s.queues
    requires u.subs == r.subs - {q} && u.waiting == r.waiting && u.expected == r.expected
    requires !Active(u, r.subs[q]) ==>
      u.live == map id | id in r.live && r.live[id] != r.subs[q] :: r.live[id]
    ensures Simulated(s, r, t, u)
  {
    var key, sid := s.streams[q].key, s.streams[q].slot;
    SubsDropped(s, r, t, u, q);
    ActiveExactly(t, u, key);
    RetireLive(s, r, t, u, key, sid);
  }

  lemma RetireSimulated(s: State, r: Reference, q: QueueId)
    requires Inv(s) && Simulates(s, r) && s.lock == Free && q in s.streams
    requires Without(s.records[s.streams[q].slot].consumers, q) == []
    ensures Simulated(s, r, StepClose(s, q), RefStep(r, Close(q)))
  {
    var t, u := StepClose(s, q), RefStep(r, Close(q));
    RetireInv(s, q);
    RetireShape(s, t, q);
    RefCloseShape(r, q, u);
    RetireFollows(s, r, t, u, q);
  }

  lemma CloseSimulated(s: State, r: Reference, q: QueueId)
    requires Inv(s) && Simulates(s, r) && s.lock == Free
    ensures Simulated(s, r, StepClose(s, q), RefStep(r, Close(q)))
  {
    if q in s.streams {
      if Without(s.records[s.streams[q].slot].consumers, q) == [] {
        RetireSimulated(s, r, q);
      } else {
        LeaveSimulated(s, r, q);
      }
    }
  }

  lemma MarkSimulated(s: State, r: Reference, q: QueueId)
    requires Simulates(s, r)
    ensures Simulated(s, r, StepMarkClosed(s, q), r)
  {
  }

  lemma TakeFollows(s: State, r: Reference, t: State, q: QueueId)
    requires QueuesAgree(s, r) && t == StepTake(s, q)
    ensures QueuesFollow(s, r, t, r)
  {
    forall p | p in t.queues ensures p in s.queues && t.queues[p].put == s.queues[p].put {
    }
  }

  lemma TakeSimulated(s: State, r: Reference, q: QueueId)
    requires Simulates(s, r)
    ensures Simulated(s, r, StepTake(s, q), r)
  {
    var t := StepTake(s, q);
    TakeFollows(s, r, t, q);
    assert t == s.(queues := t.queues);
  }

  lemma ReconnectSimulated(s: State, r: Reference, order: seq<SlotId>)
    requires Simulates(s, r) && s.lock == Free
    ensures Simulated(s, r, StepReconnectBegin(s, order), RefStep(r, ReconnectBegin(order)))
  {
  }

  lemma StepSimulated(s: State, r: Reference, a: Action)
    requires Inv(s) && Simulates(s, r) && Enabled(s, a)
    ensures Simulated(s, r, Step(s, a), RefStep(r, a))
  {
    match a
    case Notify(id, payload) => NotifySimulated(s, r, id, payload);
    case Enter(key, params, q) =>
      if key in s.slots { JoinSimulated(s, r, key, params, q); } else { WaitSimulated(s, r, key, params, q); }
    case Issued(key, id) => IssuedSimulated(s, r, key, id);
    case SubscribeFailed =>
    case ReconnectBegin(order) => ReconnectSimulated(s, r, order);
    case Reissued(key, params, id) => ReissuedSimulated(s, r, key, params, id);
    case ReissueFailed(key, params) => ReissueFailedSimulated(s, r, key, params);
    case Close(q) => CloseSimulated(s, r, q);
    case MarkClosed(q) => MarkSimulated(s, r, q);
    case Take(q) => TakeSimulated(s, r, q);
  }

  // ---------------------------------------------------------------------
  // Whole interleavings
  // ---------------------------------------------------------------------

  function RefAfter(acts: seq<Action>): Reference {
    if acts == [] then NOTHING else RefStep(RefAfter(acts[..|acts| - 1]), acts[|acts| - 1])
  }

  lemma {:induction false} RunSimulated(acts: seq<Action>)
    requires Runs(acts)
    ensures Simulates(StateAfter(acts), RefAfter(acts))
  {
    if acts != [] {
      var p := acts[..|acts| - 1];
      RunSimulated(p);
      ReachableInv(p);
      StepSimulated(StateAfter(p), RefAfter(p), acts[|acts| - 1]);
    }
  }

  lemma DeliversByKey(acts: seq<Action>, q: QueueId)
    requires Runs(acts) && q in StateAfter(acts).queues
    ensures q in RefAfter(acts).expected
    ensures Subsequence(StateAfter(acts).queues[q].put, RefAfter(acts).expected[q])
  {
    RunSimulated(acts);
  }

  /** The items put and not taken. */
  function Waits(queue: Queue): int {
    |queue.put| - queue.taken
  }

  /** The queue held fewer than 1024 items whenever a step began. */
  ghost predicate NeverFull(acts: seq<Action>, q: QueueId)
    requires Runs(acts)
    decreases |acts|
  {
    acts != [] ==>
      var p := acts[..|acts| - 1];
      NeverFull(p, q) && (q in StateAfter(p).queues ==> Waits(StateAfter(p).queues[q]) < 1024)
  }

  lemma {:induction false} DeliversAllByKey(acts: seq<Action>, q: QueueId)
    requires Runs(acts) && NeverFull(acts, q)
    ensures Exact(StateAfter(acts), RefAfter(acts), q)
  {
    if acts != [] {
      var p := acts[..|acts| - 1];
      DeliversAllByKey(p, q);
      RunSimulated(p);
      ReachableInv(p);
      StepSimulated(StateAfter(p), RefAfter(p), acts[|acts| - 1]);
    }
  }

  // ---------------------------------------------------------------------
  // The queues are bounded
  // ---------------------------------------------------------------------

  ghost predicate Bounded(s: State) {
    forall q :: q in s.queues ==> 0 <= Waits(s.queues[q]) <= 1024
  }

  lemma OfferBounded(queue: Queue, e: Event)
    requires 0 <= Waits(queue) <= 1024
    ensures 0 <= Waits(Offer(queue, e)) <= 1024
    ensures Offer(queue, e) == if Waits(queue) == 1024 then queue else Queue(queue.put + [e], queue.taken)
  {
  }

  lemma FanOutBounded(s: State, t: State, consumers: seq<QueueId>, e: Event)
    requires Bounded(s) && t.queues == FanOut(s.queues, consumers, e)
    ensures Bounded(t)
  {
    forall q | q in t.queues ensures 0 <= Waits(t.queues[q]) <= 1024 {
      OfferBounded(s.queues[q], e);
    }
  }

  lemma StepBounded(s: State, a: Action)
    requires Bounded(s) && Enabled(s, a)
    ensures Bounded(Step(s, a))
  {
    match a
    case Notify(id, payload) =>
      if id.Some? && id.value in s.byId && s.byId[id.value] in s.records {
        FanOutBounded(s, Step(s, a), s.records[s.byId[id.value]].consumers, Event(payload));
      }
    case Reissued(_, _, _) => FanOutBounded(s, Step(s, a), s.records[s.lock.pending[0]].consumers, Gap);
    case ReissueFailed(_, _) => FanOutBounded(s, Step(s, a), s.records[s.lock.pending[0]].consumers, Gap);
    case Close(q) => assert Step(s, a).queues == s.queues;
    case _ =>
  }

  lemma {:induction false} AllBounded(acts: seq<Action>)
    requires Runs(acts)
    ensures Bounded(StateAfter(acts))
  {
    if acts != [] {
      AllBounded(acts[..|acts| - 1]);
      StepBounded(StateAfter(acts[..|acts| - 1]), acts[|acts| - 1]);
    }
  }

  /** In every reachable state a queue holds at most 1024 items. */
  lemma {:induction false} QueuesBounded(acts: seq<Action>, q: QueueId)
    requires Runs(acts) && q in StateAfter(acts).queues
    ensures 0 <= Waits(StateAfter(acts).queues[q]) <= 1024
  {
    AllBounded(acts);
  }
}
