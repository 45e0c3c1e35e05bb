/**
 * What a consumer is owed, said without keys and slots: the reference here
 * knows only what each consumer asked for, a kind and the JSON value of its
 * parameters, and what each upstream id was issued for.  The multiplexer
 * delivers exactly that, less the events full queues drop.
 */
module IndependentSubscriptions {
  import opened Wrappers
  import opened JsonText
  import opened Canonical
  import opened Multiplexer
  import opened MultiplexerInvariant
  import opened MultiplexerRefinement

  /** A kind, and the value the parameters denote whatever the order of their keys. */
  datatype Ask = Ask(kind: string, params: Value)

  function AskOf(kind: string, params: Json): Ask {
    Ask(kind, Meaning(params))
  }

  datatype Request = Request(ask: Ask, queue: QueueId)

  datatype Independent = Independent(
    subs: map<QueueId, Ask>,
    live: map<string, Ask>,
    waiting: Option<Request>,
    due: map<QueueId, seq<Event>>)

  const NO_ONE: Independent := Independent(map[], map[], None, map[])

  /** Everyone who asked for this is owed the event. */
  function Owe(i: Independent, ask: Ask, e: Event): Independent {
    i.(due := map q | q in i.due :: if q in i.subs && i.subs[q] == ask then i.due[q] + [e] else i.due[q])
  }

  function IndependentStep(i: Independent, a: Action): Independent {
    match a
    case Notify(id, payload) =>
      if id.Some? && id.value in i.live then Owe(i, i.live[id.value], Event(payload)) else i
    case Enter(key, params, q) =>
      var ask := AskOf(key.kind, params);
      var e := i.(due := i.due[q := []]);
      if ask in i.subs.Values then e.(subs := i.subs[q := ask]) else e.(waiting := Some(Request(ask, q)))
    case Issued(_, id) =>
      if i.waiting.None? then i
      else
        var request := i.waiting.value;
        i.(subs := i.subs[request.queue := request.ask], live := i.live[id := request.ask], waiting := None)
    case SubscribeFailed => i.(waiting := None)
    case ReconnectBegin(_) => i.(live := map[])
    case Reissued(key, params, id) =>
      Owe(i, AskOf(key.kind, params), Gap).(live := i.live[id := AskOf(key.kind, params)])
    case ReissueFailed(key, params) => Owe(i, AskOf(key.kind, params), Gap)
    case Close(q) =>
      if q !in i.subs then i
      else
        var ask, subs := i.subs[q], i.subs - {q};
        i.(subs := subs,
           live := if ask in subs.Values then i.live else map id | id in i.live && i.live[id] != ask :: i.live[id])
    case MarkClosed(_) => i
    case Take(_) => i
  }

  function IndependentAfter(acts: seq<Action>): Independent {
    if acts == [] then NO_ONE else IndependentStep(IndependentAfter(acts[..|acts| - 1]), acts[|acts| - 1])
  }

  /** What the consumer of queue q asked for, read off the run. */
  function AskedBy(acts: seq<Action>, q: QueueId): Option<Ask> {
    if acts == [] then None
    else
      var a := acts[|acts| - 1];
      if a.Enter? && a.queue == q then Some(AskOf(a.key.kind, a.params)) else AskedBy(acts[..|acts| - 1], q)
  }

  // ---------------------------------------------------------------------
  // Keys stand for what is asked
  // ---------------------------------------------------------------------

  ghost predicate Names(key: Key, ask: Ask) {
    exists params :: WellFormed(params) && key == KeyOf(ask.kind, params) && ask.params == Meaning(params)
  }

  lemma NamesExactly(k1: Key, a1: Ask, k2: Key, a2: Ask)
    requires Names(k1, a1) && Names(k2, a2)
    ensures k1 == k2 <==> a1 == a2
  {
    var p1 :| WellFormed(p1) && k1 == KeyOf(a1.kind, p1) && a1.params == Meaning(p1);
    var p2 :| WellFormed(p2) && k2 == KeyOf(a2.kind, p2) && a2.params == Meaning(p2);
    KeyExactly(a1.kind, p1, a2.kind, p2);
  }

  lemma GoodParamsName(key: Key, params: Json)
    requires GoodParams(key, params)
    ensures Names(key, AskOf(key.kind, params))
  {
  }

  // ---------------------------------------------------------------------
  // The two references agree
  // ---------------------------------------------------------------------

  ghost predicate MapNames<K>(keys: map<K, Key>, asks: map<K, Ask>) {
    keys.Keys == asks.Keys && forall x :: x in keys ==> Names(keys[x], asks[x])
  }

  ghost predicate WaitingNames(r: Reference, i: Independent) {
    match r.waiting
    case None => i.waiting == None
    case Some(w) => i.waiting.Some? && i.waiting.value.queue == w.queue && Names(w.key, i.waiting.value.ask)
  }

  ghost predicate Agree(r: Reference, i: Independent) {
    MapNames(r.subs, i.subs) && MapNames(r.live, i.live) && WaitingNames(r, i) && r.expected == i.due
  }

  lemma TellOwes(r: Reference, i: Independent, key: Key, ask: Ask, e: Event)
    requires Agree(r, i) && Names(key, ask)
    ensures Tell(r, key, e).expected == Owe(i, ask, e).due
  {
    forall q | q in r.subs ensures r.subs[q] == key <==> i.subs[q] == ask {
      NamesExactly(r.subs[q], i.subs[q], key, ask);
    }
  }

  lemma SameActive(keys: map<QueueId, Key>, asks: map<QueueId, Ask>, key: Key, ask: Ask)
    requires MapNames(keys, asks) && Names(key, ask)
    ensures key in keys.Values <==> ask in asks.Values
  {
    if key in keys.Values {
      var q :| q in keys && keys[q] == key;
      NamesExactly(keys[q], asks[q], key, ask);
      assert asks[q] in asks.Values;
    }
    if ask in asks.Values {
      var q :| q in asks && asks[q] == ask;
      NamesExactly(keys[q], asks[q], key, ask);
      assert keys[q] in keys.Values;
    }
  }

  lemma SameForgotten(keys: map<string, Key>, asks: map<string, Ask>, key: Key, ask: Ask)
    requires MapNames(keys, asks) && Names(key, ask)
    ensures MapNames(map id | id in keys && keys[id] != key :: keys[id],
                     map id | id in asks && asks[id] != ask :: asks[id])
  {
    forall id | id in keys ensures keys[id] == key <==> asks[id] == ask {
      NamesExactly(keys[id], asks[id], key, ask);
    }
  }

  lemma SubsNamed(keys: map<QueueId, Key>, asks: map<QueueId, Ask>, q: QueueId, key: Key, ask: Ask)
    requires MapNames(keys, asks) && Names(key, ask)
    ensures MapNames(keys[q := key], asks[q := ask])
  {
  }

  lemma EnterAgrees(r: Reference, i: Independent, key: Key, params: Json, q: QueueId)
    requires Agree(r, i) && GoodParams(key, params)
    ensures Agree(RefStep(r, Enter(key, params, q)), IndependentStep(i, Enter(key, params, q)))
  {
    var ask := AskOf(key.kind, params);
    GoodParamsName(key, params);
    SameActive(r.subs, i.subs, key, ask);
    SubsNamed(r.subs, i.subs, q, key, ask);
  }

  lemma CloseAgrees(r: Reference, i: Independent, q: QueueId)
    requires Agree(r, i)
    ensures Agree(RefStep(r, Close(q)), IndependentStep(i, Close(q)))
  {
    if q in r.subs {
      var keys, asks := r.subs - {q}, i.subs - {q};
      SameActive(keys, asks, r.subs[q], i.subs[q]);
      SameForgotten(r.live, i.live, r.subs[q], i.subs[q]);
    }
  }

  lemma ReissueAgrees(r: Reference, i: Independent, key: Key, params: Json, id: string)
    requires Agree(r, i) && GoodParams(key, params)
    ensures Agree(RefStep(r, Reissued(key, params, id)), IndependentStep(i, Reissued(key, params, id)))
    ensures Agree(RefStep(r, ReissueFailed(key, params)), IndependentStep(i, ReissueFailed(key, params)))
  {
    GoodParamsName(key, params);
    TellOwes(r, i, key, AskOf(key.kind, params), Gap);
  }

  lemma NotifyAgrees(r: Reference, i: Independent, id: Option<string>, payload: Json)
    requires Agree(r, i)
    ensures Agree(RefStep(r, Notify(id, payload)), IndependentStep(i, Notify(id, payload)))
  {
    if id.Some? && id.value in r.live {
      TellOwes(r, i, r.live[id.value], i.live[id.value], Event(payload));
    }
  }

  lemma QuietAgrees(r: Reference, i: Independent, a: Action)
    requires Agree(r, i) && (a.SubscribeFailed? || a.ReconnectBegin? || a.MarkClosed? || a.Take?)
    ensures Agree(RefStep(r, a), IndependentStep(i, a))
  {
  }

  lemma IssuedAgrees(r: Reference, i: Independent, key: Key, id: string)
    requires Agree(r, i) && r.waiting.Some? && r.waiting.value.key == key
    ensures Agree(RefStep(r, Issued(key, id)), IndependentStep(i, Issued(key, id)))
  {
  }

  /** A re-subscription asks for what its key stands for. */
  lemma RequestsGood(s: State, key: Key, params: Json)
    requires ParamsOk(s) && Requests(s, key, params)
    ensures GoodParams(key, params)
  {
  }

  lemma StepAgrees(s: State, r: Reference, i: Independent, a: Action)
    requires ParamsOk(s) && WaitingAgrees(s, r) && Enabled(s, a) && Agree(r, i)
    ensures Agree(RefStep(r, a), IndependentStep(i, a))
  {
    if a.Notify? {
      NotifyAgrees(r, i, a.id, a.payload);
    } else if a.Enter? {
      EnterAgrees(r, i, a.key, a.params, a.queue);
    } else if a.Issued? {
      IssuedAgrees(r, i, a.forKey, a.newId);
    } else if a.Reissued? {
      RequestsGood(s, a.forKey, a.params);
      ReissueAgrees(r, i, a.forKey, a.params, a.newId);
    } else if a.ReissueFailed? {
      RequestsGood(s, a.forKey, a.params);
      ReissueAgrees(r, i, a.forKey, a.params, "");
    } else if a.Close? {
      CloseAgrees(r, i, a.queue);
    } else {
      QuietAgrees(r, i, a);
    }
  }

  lemma {:induction false} RunAgrees(acts: seq<Action>)
    requires Runs(acts)
    ensures Agree(RefAfter(acts), IndependentAfter(acts))
  {
    if acts != [] {
      var p := acts[..|acts| - 1];
      RunAgrees(p);
      RunSimulated(p);
      ReachableInv(p);
      StepAgrees(StateAfter(p), RefAfter(p), IndependentAfter(p), acts[|acts| - 1]);
    }
  }

  // ---------------------------------------------------------------------
  // What consumers get
  // ---------------------------------------------------------------------

  /**
   * In every interleaving, what was put in a consumer's queue is an
   * order-preserving subsequence of the events and gaps of what that consumer
   * asked for, its kind and the value of its parameters, between registration
   * and close.
   */
  lemma DeliversOwnEvents(acts: seq<Action>, q: QueueId)
    requires Runs(acts) && q in StateAfter(acts).queues
    ensures q in IndependentAfter(acts).due
    ensures Subsequence(StateAfter(acts).queues[q].put, IndependentAfter(acts).due[q])
  {
    DeliversByKey(acts, q);
    RunAgrees(acts);
  }

  /** A queue that never holds 1024 items receives the whole sequence. */
  lemma DeliversAllUnlessFull(acts: seq<Action>, q: QueueId)
    requires Runs(acts) && NeverFull(acts, q) && q in StateAfter(acts).queues
    ensures q in IndependentAfter(acts).due
    ensures StateAfter(acts).queues[q].put == IndependentAfter(acts).due[q]
  {
    DeliversAllByKey(acts, q);
    RunSimulated(acts);
    RunAgrees(acts);
  }

  // ---------------------------------------------------------------------
  // Streams are served by slots of what they asked for
  // ---------------------------------------------------------------------

  ghost predicate AsksRecorded(i: Independent, acts: seq<Action>) {
    && (forall q :: q in i.subs ==> AskedBy(acts, q) == Some(i.subs[q]))
    && (i.waiting.Some? ==> AskedBy(acts, i.waiting.value.queue) == Some(i.waiting.value.ask))
  }

  lemma AskedSnoc(acts: seq<Action>, a: Action, q: QueueId)
    ensures AskedBy(acts + [a], q)
         == if a.Enter? && a.queue == q then Some(AskOf(a.key.kind, a.params)) else AskedBy(acts, q)
  {
    assert (acts + [a])[..|acts|] == acts;
  }

  lemma StepRecorded(i: Independent, acts: seq<Action>, a: Action)
    requires AsksRecorded(i, acts)
    requires a.Enter? ==> a.queue !in i.subs && i.waiting == None
    ensures AsksRecorded(IndependentStep(i, a), acts + [a])
  {
    forall q ensures AskedBy(acts + [a], q)
      == if a.Enter? && a.queue == q then Some(AskOf(a.key.kind, a.params)) else AskedBy(acts, q)
    {
      AskedSnoc(acts, a, q);
    }
  }

  /** A new consumer has a new queue, and nobody waits for the upstream. */
  lemma EntersAnew(acts: seq<Action>, a: Action)
    requires Runs(acts) && Enabled(StateAfter(acts), a)
    ensures a.Enter? ==> a.queue !in IndependentAfter(acts).subs && IndependentAfter(acts).waiting == None
  {
    RunAgrees(acts);
    RunSimulated(acts);
    ReachableInv(acts);
  }

  lemma {:induction false} RunRecorded(acts: seq<Action>)
    requires Runs(acts)
    ensures AsksRecorded(IndependentAfter(acts), acts)
  {
    if acts != [] {
      var p, a := acts[..|acts| - 1], acts[|acts| - 1];
      RunRecorded(p);
      EntersAnew(p, a);
      StepRecorded(IndependentAfter(p), p, a);
      assert p + [a] == acts;
    }
  }

  /** In every reachable state, the slot that serves an open stream is of the kind and for the value it asked for. */
  lemma StreamsServed(acts: seq<Action>, q: QueueId)
    requires Runs(acts) && q in StateAfter(acts).streams
    ensures StateAfter(acts).streams[q].slot in StateAfter(acts).records
    ensures
      var slot := StateAfter(acts).records[StateAfter(acts).streams[q].slot];
      AskedBy(acts, q) == Some(AskOf(slot.key.kind, slot.params))
  {
    var s := StateAfter(acts);
    ReachableInv(acts);
    RunSimulated(acts);
    RunAgrees(acts);
    RunRecorded(acts);
    var slot := s.records[s.streams[q].slot];
    GoodParamsName(slot.key, slot.params);
    NamesExactly(RefAfter(acts).subs[q], IndependentAfter(acts).subs[q], slot.key, AskOf(slot.key.kind, slot.params));
  }
}
