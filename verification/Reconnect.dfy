/**
 * What becomes of live subscriptions when the connection drops: the manager's
 * `on_reconnect` composed with the socket that awaits it
 * (src/exec_rest_api/upstream_ws.py:137-141, src/exec_rest_api/subscriptions.py:141-158).
 */
module Reconnect {
  import opened Wrappers
  import opened JsonText
  import Ws = UpstreamWs
  import opened Multiplexer
  import opened MultiplexerInvariant

  // ---------------------------------------------------------------------
  // Slots without a live id
  // ---------------------------------------------------------------------

  /** The key has a slot, but no upstream id leads to it. */
  ghost predicate Dead(s: State, key: Key) {
    key in s.slots && forall id :: id in s.byId ==> s.byId[id] != s.slots[key]
  }

  /** A failed re-subscription leaves its slot dead, still registered and with its consumers. */
  lemma ReissueFailureKills(s: State, key: Key)
    requires Inv(s) && Reissues(s, key)
    ensures Dead(StepReissueFailed(s), key)
  {
    assert s.slots[key] == s.lock.pending[0];
  }

  lemma CloseTables(s: State, q: QueueId)
    requires Inv(s) && q in s.streams
    ensures forall k :: k in StepClose(s, q).slots ==> k in s.slots && StepClose(s, q).slots[k] == s.slots[k]
    ensures forall id :: id in StepClose(s, q).byId ==> id in s.byId && StepClose(s, q).byId[id] == s.byId[id]
  {
  }

  lemma DeadAfterReissued(s: State, id: string, key: Key)
    requires Inv(s) && s.lock.Reissuing? && s.records[s.lock.pending[0]].key != key && Dead(s, key)
    ensures Dead(StepReissued(s, id), key)
  {
    assert Registered(s, s.lock.pending[0]);
  }

  lemma DeadAfterIssued(s: State, id: string, key: Key)
    requires Inv(s) && s.lock.Subscribing? && Dead(s, key)
    ensures Dead(StepIssued(s, id), key)
  {
    assert s.lock.key != key && s.slots[key] != s.nextSlot;
  }

  lemma TablesUnchanged(s: State, a: Action)
    requires Enabled(s, a) && !a.Issued? && !a.ReconnectBegin? && !a.Reissued? && !a.Close?
    ensures Step(s, a).slots == s.slots && Step(s, a).byId == s.byId
  {
  }

  /** Only a successful re-subscription revives a dead slot: new subscribers merely join it. */
  lemma DeadStaysDead(s: State, a: Action, key: Key)
    requires Inv(s) && Enabled(s, a) && Dead(s, key)
    requires !(a.Reissued? && a.forKey == key)
    ensures key in Step(s, a).slots ==> Dead(Step(s, a), key)
  {
    if a.Issued? {
      DeadAfterIssued(s, a.newId, key);
    } else if a.Reissued? {
      DeadAfterReissued(s, a.newId, key);
    } else if a.Close? {
      if a.queue in s.streams {
        CloseTables(s, a.queue);
      }
    } else if !a.ReconnectBegin? {
      TablesUnchanged(s, a);
    }
  }

  /** No notification reaches a consumer of a dead slot. */
  lemma DeadHearsNothing(s: State, key: Key, id: Option<string>, payload: Json, q: QueueId)
    requires Inv(s) && Dead(s, key) && q in s.streams && s.streams[q].key == key
    ensures StepNotify(s, id, payload).queues[q] == s.queues[q]
  {
    if id.Some? && id.value in s.byId {
      assert Registered(s, s.byId[id.value]);
    }
  }

  /** A new slot is reached by the id it was issued. */
  lemma IssuedAlive(s: State, id: string)
    requires s.lock.Subscribing?
    ensures s.lock.key in StepIssued(s, id).slots && !Dead(StepIssued(s, id), s.lock.key)
  {
    var t := StepIssued(s, id);
    assert id in t.byId && t.byId[id] == t.slots[s.lock.key];
  }

  lemma StaysIndexedAtClose(s: State, q: QueueId, key: Key, id: string)
    requires Inv(s)
    requires key in s.slots && id in s.byId && s.byId[id] == s.slots[key] && key in StepClose(s, q).slots
    ensures id in StepClose(s, q).byId
    ensures StepClose(s, q).byId[id] == StepClose(s, q).slots[key]
  {
    if q in s.streams {
      CloseTables(s, q);
      var sid := s.streams[q].slot;
      assert Registered(s, sid) && Registered(s, s.byId[id]);
      assert s.records[sid].subscriptionId == id ==> s.byId[id] == sid;
    }
  }

  lemma StaysIndexedAtReissue(s: State, newId: string, key: Key, id: string)
    requires Inv(s) && s.lock.Reissuing? && newId !in s.issued
    requires key in s.slots && id in s.byId && s.byId[id] == s.slots[key]
    ensures id in StepReissued(s, newId).byId
    ensures StepReissued(s, newId).byId[id] == StepReissued(s, newId).slots[key]
  {
    assert Registered(s, s.slots[key]) && id in s.issued;
  }

  lemma StaysIndexedAtIssue(s: State, newId: string, key: Key, id: string)
    requires Inv(s) && s.lock.Subscribing? && newId !in s.issued
    requires key in s.slots && id in s.byId && s.byId[id] == s.slots[key]
    ensures id in StepIssued(s, newId).byId
    ensures StepIssued(s, newId).byId[id] == StepIssued(s, newId).slots[key]
  {
    assert Registered(s, s.slots[key]) && id in s.issued && s.lock.key != key;
  }

  lemma StaysIndexed(s: State, a: Action, key: Key, id: string)
    requires Inv(s) && Enabled(s, a) && !a.ReconnectBegin?
    requires key in s.slots && id in s.byId && s.byId[id] == s.slots[key] && key in Step(s, a).slots
    ensures
      var t := Step(s, a);
      id in t.byId && t.byId[id] == t.slots[key]
  {
    if a.Issued? {
      StaysIndexedAtIssue(s, a.newId, key, id);
    } else if a.Reissued? {
      StaysIndexedAtReissue(s, a.newId, key, id);
    } else if a.Close? {
      StaysIndexedAtClose(s, a.queue, key, id);
    } else {
      TablesUnchanged(s, a);
    }
  }

  /** Only a reconnect takes the id from a slot that stays registered. */
  lemma AliveStaysAlive(s: State, a: Action, key: Key)
    requires Inv(s) && Enabled(s, a) && !a.ReconnectBegin?
    requires key in s.slots && !Dead(s, key) && key in Step(s, a).slots
    ensures !Dead(Step(s, a), key)
  {
    var id :| id in s.byId && s.byId[id] == s.slots[key];
    assert Registered(s, s.slots[key]) && s.records[s.slots[key]].subscriptionId == id;
    StaysIndexed(s, a, key, id);
  }

  // ---------------------------------------------------------------------
  // The composed system
  // ---------------------------------------------------------------------

  /** Both machines, and the request the reconnect loop is waiting for, if any. */
  datatype System = System(net: Ws.State, mux: State, call: Option<Ws.RequestId>)

  datatype Move =
    | Network(n: Ws.Action)
    | Manager(m: Action)
    | Begin(order: seq<SlotId>)
    | Ask
    | Fail(key: Key, params: Json)
    | Succeed(key: Key, params: Json, newId: string)

  /** The manager steps that `on_reconnect` performs. */
  predicate OfReconnect(a: Action) {
    a.ReconnectBegin? || a.Reissued? || a.ReissueFailed?
  }

  /**
   * `on_reconnect` runs inside the callback phase of its connection, asks for
   * one slot at a time, and the callback phase ends only when it has returned.
   * Cancelling the socket's task is left out.
   */
  ghost predicate Possible(y: System, v: Move) {
    match v
    case Network(n) =>
      && Ws.Enabled(y.net, n) && n != Ws.CallbackRaises && n != Ws.StopEnds
      && (n == Ws.CallbackReturns ==> !y.mux.lock.Reissuing?)
    case Manager(a) => Enabled(y.mux, a) && !OfReconnect(a)
    case Begin(order) => y.net.phase == Ws.CallingBack && Enabled(y.mux, ReconnectBegin(order)) && y.call == None
    case Ask => y.mux.lock.Reissuing? && y.call == None && Ws.Connected(y.net)
    case Fail(key, params) =>
      && Enabled(y.mux, ReissueFailed(key, params))
      && (match y.call
          case None => !Ws.Connected(y.net)
          case Some(r) =>
            && r in y.net.futures && y.net.futures[r].outcome != Ws.Waiting
            && !Ws.ByResponse(y.net.futures[r].outcome))
    case Succeed(key, params, id) =>
      && Enabled(y.mux, Reissued(key, params, id))
      && y.call.Some? && y.call.value in y.net.futures
      && y.net.futures[y.call.value].outcome == Ws.Answered(Some(Str(id)))
  }

  ghost function After(cfg: Ws.Config, y: System, v: Move): System
    requires Possible(y, v)
  {
    match v
    case Network(n) => y.(net := Ws.Step(cfg, y.net, n))
    case Manager(a) => y.(mux := Step(y.mux, a))
    case Begin(order) => y.(mux := Step(y.mux, ReconnectBegin(order)))
    case Ask => y.(net := Ws.Step(cfg, y.net, Ws.Request), call := Some(y.net.nextId))
    case Fail(key, params) => y.(mux := Step(y.mux, ReissueFailed(key, params)), call := None)
    case Succeed(key, params, id) => y.(mux := Step(y.mux, Reissued(key, params, id)), call := None)
  }

  ghost predicate Sound(y: System) {
    && Ws.Inv(y.net) && Inv(y.mux)
    && (y.mux.lock.Reissuing? ==> y.net.phase == Ws.CallingBack)
    && (y.call.Some? ==>
          && y.mux.lock.Reissuing? && y.call.value in y.net.futures
          && y.net.ws == Some(y.net.futures[y.call.value].conn))
  }

  /** A network step during the callback keeps the connection and its requests. */
  lemma CallbackPhaseHolds(cfg: Ws.Config, s: Ws.State, n: Ws.Action)
    requires Ws.Inv(s) && Ws.Enabled(s, n) && s.phase == Ws.CallingBack
    requires n != Ws.CallbackRaises && n != Ws.StopEnds && n != Ws.CallbackReturns
    ensures
      var t := Ws.Step(cfg, s, n);
      && t.phase == Ws.CallingBack && t.ws == s.ws
      && (forall r :: r in s.futures ==> r in t.futures && t.futures[r].conn == s.futures[r].conn)
  {
    forall r | r in s.futures
      ensures r in Ws.Step(cfg, s, n).futures && Ws.Step(cfg, s, n).futures[r].conn == s.futures[r].conn
    {
      Ws.StepCorrelates(cfg, s, n, r);
    }
  }

  lemma ManagerKeepsLockKind(s: State, a: Action)
    requires Enabled(s, a) && !OfReconnect(a)
    ensures Step(s, a).lock.Reissuing? <==> s.lock.Reissuing?
  {
  }

  lemma MoveSound(cfg: Ws.Config, y: System, v: Move)
    requires Sound(y) && Possible(y, v)
    ensures Sound(After(cfg, y, v))
  {
    match v
    case Network(n) =>
      Ws.StepInv(cfg, y.net, n);
      if y.mux.lock.Reissuing? {
        CallbackPhaseHolds(cfg, y.net, n);
      }
    case Manager(a) =>
      StepInv(y.mux, a);
      ManagerKeepsLockKind(y.mux, a);
    case Begin(order) => StepInv(y.mux, ReconnectBegin(order));
    case Ask => Ws.StepInv(cfg, y.net, Ws.Request);
    case Fail(key, params) => StepInv(y.mux, ReissueFailed(key, params));
    case Succeed(key, params, id) => StepInv(y.mux, Reissued(key, params, id));
  }

  ghost predicate Reaches(cfg: Ws.Config, vs: seq<Move>)
    decreases |vs|, 0
  {
    vs == [] || (Reaches(cfg, vs[..|vs| - 1]) && Possible(Reached(cfg, vs[..|vs| - 1]), vs[|vs| - 1]))
  }

  ghost function Reached(cfg: Ws.Config, vs: seq<Move>): System
    requires Reaches(cfg, vs)
    decreases |vs|, 1
  {
    if vs == [] then System(Ws.INITIAL, INITIAL, None)
    else After(cfg, Reached(cfg, vs[..|vs| - 1]), vs[|vs| - 1])
  }

  lemma {:induction false} ReachedSound(cfg: Ws.Config, vs: seq<Move>)
    requires Reaches(cfg, vs)
    ensures Sound(Reached(cfg, vs))
  {
    if vs == [] {
      InitialInv();
    } else {
      ReachedSound(cfg, vs[..|vs| - 1]);
      MoveSound(cfg, Reached(cfg, vs[..|vs| - 1]), vs[|vs| - 1]);
    }
  }

  /**
   * The module documents that a reconnect re-issues all subscriptions.  In
   * the composed system it never succeeds: no reachable state lets a
   * re-subscription come back with an id.
   */
  lemma ReissueNeverSucceeds(cfg: Ws.Config, vs: seq<Move>, key: Key, params: Json, id: string)
    requires Reaches(cfg, vs)
    ensures !Possible(Reached(cfg, vs), Succeed(key, params, id))
  {
    ReachedSound(cfg, vs);
  }

  /** Hence a slot once dead stays dead for as long as it is registered. */
  lemma DeadForGood(cfg: Ws.Config, vs: seq<Move>, v: Move, key: Key)
    requires Reaches(cfg, vs) && Possible(Reached(cfg, vs), v) && Dead(Reached(cfg, vs).mux, key)
    ensures
      var t := After(cfg, Reached(cfg, vs), v).mux;
      key in t.slots ==> Dead(t, key)
  {
    ReachedSound(cfg, vs);
    var y := Reached(cfg, vs);
    match v
    case Manager(a) => DeadStaysDead(y.mux, a, key);
    case Begin(order) => DeadStaysDead(y.mux, ReconnectBegin(order), key);
    case Fail(k, params) => DeadStaysDead(y.mux, ReissueFailed(k, params), key);
    case Succeed(k, params, id) => ReissueNeverSucceeds(cfg, vs, k, params, id);
    case _ =>
  }

  /** The key has had a slot in every state of the run from step k on. */
  ghost predicate KeptSince(cfg: Ws.Config, vs: seq<Move>, k: nat, key: Key) {
    forall j :: k <= j <= |vs| ==> Reaches(cfg, vs[..j]) && key in Reached(cfg, vs[..j]).mux.slots
  }

  /** A reconnect takes the id from every slot. */
  lemma BeginKills(cfg: Ws.Config, y: System, v: Move, key: Key)
    requires v.Begin? && Possible(y, v) && key in y.mux.slots
    ensures Dead(After(cfg, y, v).mux, key)
  {
  }

  /**
   * A subscription that lives through a reconnect stays silent for ever: from
   * the reconnect on, as long as its slot is registered, no upstream id leads
   * to it.
   */
  lemma {:induction false} SilentAfterReconnect(cfg: Ws.Config, vs: seq<Move>, k: nat, key: Key)
    requires k < |vs| && vs[k].Begin? && KeptSince(cfg, vs, k, key)
    ensures Reaches(cfg, vs) && Dead(Reached(cfg, vs).mux, key)
    decreases |vs|
  {
    var n := |vs| - 1;
    var p := vs[..n];
    assert vs[..|vs|] == vs;
    assert Reaches(cfg, vs[..n + 1]) && key in Reached(cfg, p).mux.slots;
    if k < n {
      forall j | k <= j <= |p| ensures Reaches(cfg, p[..j]) && key in Reached(cfg, p[..j]).mux.slots {
        assert p[..j] == vs[..j];
      }
      SilentAfterReconnect(cfg, p, k, key);
      DeadForGood(cfg, p, vs[n], key);
    } else {
      BeginKills(cfg, Reached(cfg, p), vs[n], key);
    }
  }

  /** KeptSince one state at a time; the last state of p needs no more than that the key is there. */
  lemma KeptAtPrefix(cfg: Ws.Config, p: seq<Move>, k: nat, key: Key, j: nat)
    requires k <= j <= |p| && Reaches(cfg, p)
    requires k == |p| ==> key in Reached(cfg, p).mux.slots
    requires k < |p| ==> KeptSince(cfg, p, k, key)
    ensures Reaches(cfg, p[..j]) && key in Reached(cfg, p[..j]).mux.slots
  {
    assert p[..|p|] == p;
  }

  lemma KeptOneMore(cfg: Ws.Config, vs: seq<Move>, k: nat, key: Key)
    requires vs != [] && Reaches(cfg, vs) && key in Reached(cfg, vs).mux.slots
    requires k < |vs|
    requires k == |vs| - 1 ==> key in Reached(cfg, vs[..|vs| - 1]).mux.slots
    requires k < |vs| - 1 ==> KeptSince(cfg, vs[..|vs| - 1], k, key)
    ensures KeptSince(cfg, vs, k, key)
  {
    var p := vs[..|vs| - 1];
    forall j | k <= j <= |vs| ensures Reaches(cfg, vs[..j]) && key in Reached(cfg, vs[..j]).mux.slots {
      if j == |vs| {
        assert vs[..j] == vs;
      } else {
        assert vs[..j] == p[..j];
        KeptAtPrefix(cfg, p, k, key, j);
      }
    }
  }

  lemma NewSlotsAreIssued(s: State, a: Action, key: Key)
    requires Inv(s) && Enabled(s, a) && key !in s.slots && key in Step(s, a).slots
    ensures a.Issued? && key == s.lock.key
  {
    if a.Close? && a.queue in s.streams {
      CloseTables(s, a.queue);
    }
  }

  lemma DeadBefore(s: State, a: Action, key: Key)
    requires Inv(s) && Enabled(s, a) && !a.ReconnectBegin?
    requires key in Step(s, a).slots && Dead(Step(s, a), key)
    ensures key in s.slots && Dead(s, key)
  {
    if key in s.slots {
      if !Dead(s, key) {
        AliveStaysAlive(s, a, key);
      }
    } else {
      NewSlotsAreIssued(s, a, key);
      IssuedAlive(s, a.newId);
    }
  }

  /** One move that is not a reconnect: a slot dead after it was dead before it. */
  lemma NewlyDead(cfg: Ws.Config, vs: seq<Move>, v: Move, key: Key)
    requires Reaches(cfg, vs) && Possible(Reached(cfg, vs), v) && !v.Begin?
    requires
      var t := After(cfg, Reached(cfg, vs), v).mux;
      key in t.slots && Dead(t, key)
    ensures key in Reached(cfg, vs).mux.slots && Dead(Reached(cfg, vs).mux, key)
  {
    ReachedSound(cfg, vs);
    var s := Reached(cfg, vs).mux;
    match v
    case Manager(a) => DeadBefore(s, a, key);
    case Fail(k, params) => DeadBefore(s, ReissueFailed(k, params), key);
    case Succeed(k, params, id) => DeadBefore(s, Reissued(k, params, id), key);
    case _ =>
  }

  /**
   * Exactly which subscriptions a reconnect silences: in every reachable
   * state, no upstream id leads to a registered slot if and only if a
   * reconnect has happened since the slot was registered.
   */
  lemma {:induction false} SilentExactly(cfg: Ws.Config, vs: seq<Move>, key: Key)
    requires Reaches(cfg, vs) && key in Reached(cfg, vs).mux.slots
    ensures Dead(Reached(cfg, vs).mux, key)
       <==> exists k: nat :: k < |vs| && vs[k].Begin? && KeptSince(cfg, vs, k, key)
    decreases |vs|
  {
    if k: nat :| k < |vs| && vs[k].Begin? && KeptSince(cfg, vs, k, key) {
      SilentAfterReconnect(cfg, vs, k, key);
    } else if Dead(Reached(cfg, vs).mux, key) {
      var n := |vs| - 1;
      var p := vs[..n];
      if vs[n].Begin? {
        KeptOneMore(cfg, vs, n, key);
      } else {
        NewlyDead(cfg, p, vs[n], key);
        SilentExactly(cfg, p, key);
        var k: nat :| k < |p| && p[k].Begin? && KeptSince(cfg, p, k, key);
        KeptOneMore(cfg, vs, k, key);
      }
    }
  }

  // ---------------------------------------------------------------------
  // A run that goes through a reconnect
  // ---------------------------------------------------------------------

  lemma Extend(cfg: Ws.Config, vs: seq<Move>, v: Move)
    requires Reaches(cfg, vs) && Possible(Reached(cfg, vs), v)
    ensures Reaches(cfg, vs + [v]) && Reached(cfg, vs + [v]) == After(cfg, Reached(cfg, vs), v)
  {
    assert (vs + [v])[..|vs|] == vs;
  }

  const KEY: Key := KeyOf("newHeads", Null)

  /** The tables with one subscription to new heads, id "0x1" and consumer 0. */
  ghost predicate OneSlot(s: State) {
    s.lock == Free && s.slots == map[KEY := 0] && s.records == map[0 := Slot(KEY, Null, "0x1", [0])]
  }

  /** Nothing outstanding after the subscription's own request. */
  ghost predicate Quiet(y: System) {
    && y.net.connectedEvent && !y.net.stopping && y.call == None
    && y.net.futures.Keys == {1} && y.net.nextId == 2 && y.net.pending == {}
  }

  /** A client wants new heads; its request is on the way. */
  lemma RequestedRun(cfg: Ws.Config) returns (vs: seq<Move>)
    ensures Reaches(cfg, vs)
    ensures
      var y := Reached(cfg, vs);
      && y.net == Ws.StepRequest(Ws.StepConnectOk(cfg, Ws.INITIAL))
      && y.mux == StepEnter(INITIAL, KEY, Null, 0) && y.call == None
  {
    vs := [];
    Extend(cfg, vs, Network(Ws.ConnectOk));
    vs := vs + [Network(Ws.ConnectOk)];
    Extend(cfg, vs, Manager(Enter(KEY, Null, 0)));
    vs := vs + [Manager(Enter(KEY, Null, 0))];
    Extend(cfg, vs, Network(Ws.Request));
    vs := vs + [Network(Ws.Request)];
  }

  /** The answer arrives. */
  lemma AnsweredRun(cfg: Ws.Config) returns (vs: seq<Move>)
    ensures Reaches(cfg, vs)
    ensures
      var y := Reached(cfg, vs);
      && y.net.phase == Ws.Reading && Quiet(y) && y.net.futures[1].outcome == Ws.Answered(Some(Str("0x1")))
      && y.mux == StepEnter(INITIAL, KEY, Null, 0)
  {
    var answer := Ws.Object(false, Ws.IdInt(1), Ws.ResultBody(Some(Str("0x1"))));
    vs := RequestedRun(cfg);
    Extend(cfg, vs, Network(Ws.Receive(answer)));
    vs := vs + [Network(Ws.Receive(answer))];
    Extend(cfg, vs, Network(Ws.Finish(1)));
    vs := vs + [Network(Ws.Finish(1))];
  }

  /** The slot is registered under the id in the answer. */
  lemma SubscribedRun(cfg: Ws.Config) returns (vs: seq<Move>)
    ensures Reaches(cfg, vs)
    ensures
      var y := Reached(cfg, vs);
      y.net.phase == Ws.Reading && Quiet(y) && OneSlot(y.mux) && y.mux.byId == map["0x1" := 0]
  {
    vs := AnsweredRun(cfg);
    Extend(cfg, vs, Manager(Issued(KEY, "0x1")));
    vs := vs + [Manager(Issued(KEY, "0x1"))];
  }

  /** The connection drops. */
  lemma DroppedRun(cfg: Ws.Config) returns (vs: seq<Move>)
    requires cfg.reconnect
    ensures Reaches(cfg, vs)
    ensures
      var y := Reached(cfg, vs);
      y.net.phase.Sleeping? && Quiet(y) && OneSlot(y.mux)
  {
    vs := SubscribedRun(cfg);
    Extend(cfg, vs, Network(Ws.ReadEnds));
    vs := vs + [Network(Ws.ReadEnds)];
  }

  /** It comes back; the callback is about to run. */
  lemma ReconnectedRun(cfg: Ws.Config) returns (vs: seq<Move>)
    requires cfg.reconnect && cfg.hasCallback
    ensures Reaches(cfg, vs)
    ensures
      var y := Reached(cfg, vs);
      y.net.phase == Ws.CallingBack && Ws.Connected(y.net) && Quiet(y) && OneSlot(y.mux)
  {
    vs := DroppedRun(cfg);
    Extend(cfg, vs, Network(Ws.WakeUp));
    vs := vs + [Network(Ws.WakeUp)];
    Extend(cfg, vs, Network(Ws.ConnectOk));
    vs := vs + [Network(Ws.ConnectOk)];
  }

  lemma OneSlotListed(s: State)
    requires OneSlot(s)
    ensures Enumerates([0], s.slots)
  {
    assert s.slots[KEY] == 0;
  }

  /** The callback asks for the slot's subscription again. */
  lemma AskedRun(cfg: Ws.Config) returns (vs: seq<Move>, k: nat)
    requires cfg.reconnect && cfg.hasCallback
    ensures Reaches(cfg, vs) && k < |vs| && vs[k].Begin? && KeptSince(cfg, vs, k, KEY)
    ensures
      var y := Reached(cfg, vs);
      && y.net.phase == Ws.CallingBack && Ws.Connected(y.net) && y.call == Some(2)
      && 2 in y.net.futures && y.net.futures[2].outcome == Ws.Waiting
      && OneSlot(y.mux.(lock := Free)) && y.mux.lock == Reissuing([0])
  {
    vs := ReconnectedRun(cfg);
    k := |vs|;
    OneSlotListed(Reached(cfg, vs).mux);
    Extend(cfg, vs, Begin([0]));
    KeptOneMore(cfg, vs + [Begin([0])], k, KEY);
    vs := vs + [Begin([0])];
    Extend(cfg, vs, Ask);
    KeptOneMore(cfg, vs + [Ask], k, KEY);
    vs := vs + [Ask];
  }

  /** The re-subscription times out. */
  lemma TimedOutRun(cfg: Ws.Config) returns (vs: seq<Move>, k: nat)
    requires cfg.reconnect && cfg.hasCallback
    ensures Reaches(cfg, vs) && k < |vs| && vs[k].Begin? && KeptSince(cfg, vs, k, KEY)
    ensures
      var y := Reached(cfg, vs);
      y.net.phase == Ws.CallingBack && Ws.Connected(y.net) && OneSlot(y.mux)
  {
    vs, k := AskedRun(cfg);
    Extend(cfg, vs, Network(Ws.Timeout(2)));
    KeptOneMore(cfg, vs + [Network(Ws.Timeout(2))], k, KEY);
    vs := vs + [Network(Ws.Timeout(2))];
    Extend(cfg, vs, Move.Fail(KEY, Null));
    KeptOneMore(cfg, vs + [Move.Fail(KEY, Null)], k, KEY);
    vs := vs + [Move.Fail(KEY, Null)];
  }

  /**
   * The socket goes on reading: the client is still subscribed, on a live
   * connection, and deaf.
   */
  lemma SilencedRun(cfg: Ws.Config) returns (vs: seq<Move>, k: nat)
    requires cfg.reconnect && cfg.hasCallback
    ensures Reaches(cfg, vs) && k < |vs| && vs[k].Begin? && KeptSince(cfg, vs, k, KEY)
    ensures
      var y := Reached(cfg, vs);
      y.net.phase == Ws.Reading && Ws.Connected(y.net) && OneSlot(y.mux) && Dead(y.mux, KEY)
  {
    vs, k := TimedOutRun(cfg);
    Extend(cfg, vs, Network(Ws.CallbackReturns));
    KeptOneMore(cfg, vs + [Network(Ws.CallbackReturns)], k, KEY);
    vs := vs + [Network(Ws.CallbackReturns)];
    SilentAfterReconnect(cfg, vs, k, KEY);
  }
}
