/**
 * Request correlation over a reconnecting WebSocket
 * (src/exec_rest_api/upstream_ws.py) as a state machine.  Each await-free
 * stretch is one step.
 */
module UpstreamWs {
  import opened Counting
  import opened Wrappers
  import opened JsonText

  // ---------------------------------------------------------------------
  // Messages
  // ---------------------------------------------------------------------

  /** The `id` of a message as `json.loads` types it. */
  datatype IdField = NoId | IdInt(n: int) | IdBool(b: bool) | IdOther

  datatype Body =
    | ResultBody(value: Option<Json>)
    | ErrorBody(code: int, message: string)
    | MalformedError

  datatype Message =
    | NotJson
    | NotObject
    | Object(hasMethod: bool, id: IdField, body: Body)

  /** `isinstance(rid, int)`: a Python bool is an int. */
  function AsInt(id: IdField): Option<int> {
    match id
    case IdInt(n) => Some(n)
    case IdBool(b) => Some(if b then 1 else 0)
    case _ => None
  }

  // ---------------------------------------------------------------------
  // State
  // ---------------------------------------------------------------------

  /**
   * What becomes of a request's future.  Its caller gets this, unless the
   * send raises after the future was completed: then it gets that error.
   */
  datatype Outcome =
    | Waiting
    | Answered(value: Option<Json>)
    | RpcError(code: int, message: string)
    | Closed
    | TimedOut
    | SendRaised

  type ConnId = nat
  type RequestId = nat

  datatype Future = Future(outcome: Outcome, conn: ConnId)

  /** Where `_run_forever` is. */
  datatype Phase = Connecting | CallingBack | Reading | Sleeping(delayIndex: nat) | Ended

  datatype Config = Config(reconnect: bool, hasCallback: bool, backoffSteps: nat)

  datatype State = State(
    nextId: RequestId,
    pending: set<RequestId>,
    futures: map<RequestId, Future>,
    ws: Option<ConnId>,
    socketClosed: bool,
    nextConn: ConnId,
    phase: Phase,
    attempt: nat,
    connectedEvent: bool,
    firstConnectFailed: bool,
    stopping: bool)

  const INITIAL: State := State(1, {}, map[], None, false, 0, Connecting, 0, false, false, false)

  predicate Connected(s: State) {
    s.ws.Some? && !s.socketClosed
  }

  datatype Action =
    | Request
    | Finish(rid: RequestId)
    | Timeout(rid: RequestId)
    | SendFails(rid: RequestId)
    | ConnectOk
    | ConnectFails
    | CallbackReturns
    | CallbackRaises
    | Receive(message: Message)
    | SocketCloses
    | ReadEnds
    | WakeUp
    | StopBegins
    | StopEnds

  // ---------------------------------------------------------------------
  // Steps
  // ---------------------------------------------------------------------

  function SetOutcome(s: State, rid: RequestId, o: Outcome): State
    requires rid in s.futures
  {
    s.(futures := s.futures[rid := Future(o, s.futures[rid].conn)])
  }

  /** The entry of `request`: take an id, register a future. */
  function StepRequest(s: State): State
    requires s.ws.Some?
  {
    s.(nextId := s.nextId + 1,
       pending := s.pending + {s.nextId},
       futures := s.futures[s.nextId := Future(Waiting, s.ws.value)])
  }

  /** `send_str` raises: the entry goes; the future was abandoned, or keeps what it was completed with. */
  function StepSendFails(s: State, rid: RequestId): State
    requires rid in s.futures
  {
    var t := if s.futures[rid].outcome == Waiting then SetOutcome(s, rid, SendRaised) else s;
    t.(pending := s.pending - {rid})
  }

  /** `_fail_pending` */
  function FailPending(s: State): State {
    s.(pending := {},
       futures := map r | r in s.futures ::
         if r in s.pending && s.futures[r].outcome == Waiting then Future(Closed, s.futures[r].conn) else s.futures[r])
  }

  /** The `finally` of one connection attempt and what follows it in the loop. */
  function Drop(cfg: Config, s: State): State {
    var t := FailPending(s).(ws := None);
    if !cfg.reconnect || s.stopping then t.(connectedEvent := true, phase := Ended)
    else t.(phase := Sleeping(Min(s.attempt, if cfg.backoffSteps > 0 then cfg.backoffSteps - 1 else 0)),
            attempt := s.attempt + 1)
  }

  /** Whether the message completes a pending request, and which. */
  function Target(s: State, m: Message): Option<RequestId> {
    if !m.Object? || (m.hasMethod && m.id.NoId?) || AsInt(m.id).None? then None
    else
      var rid := AsInt(m.id).value;
      if rid >= 0 && rid in s.pending && rid in s.futures && s.futures[rid].outcome == Waiting then Some(rid) else None
  }

  /** `_dispatch`, including an exception it lets escape into the read loop. */
  function StepReceive(cfg: Config, s: State, m: Message): State {
    match Target(s, m)
    case None => s
    case Some(rid) =>
      match m.body
      case ResultBody(v) => SetOutcome(s, rid, Answered(v))
      case ErrorBody(code, message) => SetOutcome(s, rid, RpcError(code, message))
      case MalformedError => Drop(cfg, s)
  }

  function StepConnectOk(cfg: Config, s: State): State {
    s.(ws := Some(s.nextConn), socketClosed := false, nextConn := s.nextConn + 1, attempt := 0,
       connectedEvent := true,
       phase := if s.connectedEvent && cfg.hasCallback then CallingBack else Reading)
  }

  function StepConnectFails(cfg: Config, s: State): State {
    Drop(cfg, s.(firstConnectFailed := s.firstConnectFailed || !s.connectedEvent))
  }

  ghost predicate Enabled(s: State, a: Action) {
    match a
    case Request => Connected(s)
    case Finish(rid) => rid in s.futures && s.futures[rid].outcome != Waiting
    case Timeout(rid) => rid in s.futures && s.futures[rid].outcome == Waiting
    // The send may raise after the future was completed by a dropped connection.
    case SendFails(rid) => rid in s.futures
    case ConnectOk => s.phase == Connecting
    case ConnectFails => s.phase == Connecting
    case CallbackReturns => s.phase == CallingBack
    case CallbackRaises => s.phase == CallingBack
    case Receive(_) => s.phase == Reading
    case SocketCloses => s.ws.Some?
    case ReadEnds => s.phase == Reading
    case WakeUp => s.phase.Sleeping?
    case StopBegins => !s.stopping
    case StopEnds => s.stopping
  }

  ghost function Step(cfg: Config, s: State, a: Action): State
    requires Enabled(s, a)
  {
    match a
    case Request => StepRequest(s)
    case Finish(rid) => s.(pending := s.pending - {rid})
    case Timeout(rid) => SetOutcome(s, rid, TimedOut)
    case SendFails(rid) => StepSendFails(s, rid)
    case ConnectOk => StepConnectOk(cfg, s)
    case ConnectFails => StepConnectFails(cfg, s)
    case CallbackReturns => s.(phase := Reading)
    case CallbackRaises => Drop(cfg, s)
    case Receive(m) => StepReceive(cfg, s, m)
    case SocketCloses => s.(socketClosed := true)
    case ReadEnds => Drop(cfg, s)
    case WakeUp => s.(phase := if s.stopping then Ended else Connecting)
    case StopBegins => s.(stopping := true, socketClosed := s.socketClosed || s.ws.Some?)
    case StopEnds => FailPending(s).(ws := None, phase := Ended)
  }

  // ---------------------------------------------------------------------
  // The invariant
  // ---------------------------------------------------------------------

  ghost predicate IdsOk(s: State) {
    s.nextId >= 1 && forall r :: r in s.futures <==> 1 <= r < s.nextId
  }

  /** Every request still waiting is pending, and everything pending belongs to the present connection. */
  ghost predicate PendingOk(s: State) {
    && (forall r :: r in s.pending ==> r in s.futures && s.ws == Some(s.futures[r].conn))
    && (forall r :: r in s.futures && s.futures[r].outcome == Waiting ==> r in s.pending)
  }

  ghost predicate ConnOk(s: State) {
    && (s.ws.Some? ==> s.ws.value < s.nextConn)
    && (forall r :: r in s.futures ==> s.futures[r].conn < s.nextConn)
    && (s.ws.Some? <==> s.phase == CallingBack || s.phase == Reading)
  }

  ghost predicate ByResponse(o: Outcome) {
    o.Answered? || o.RpcError?
  }

  /** While the reconnect callback runs, no request of its connection has been answered. */
  ghost predicate CallbackOk(s: State) {
    s.phase == CallingBack ==>
      forall r :: r in s.futures && s.ws == Some(s.futures[r].conn) ==> !ByResponse(s.futures[r].outcome)
  }

  ghost predicate Inv(s: State) {
    IdsOk(s) && PendingOk(s) && ConnOk(s) && CallbackOk(s)
  }

  lemma FailPendingInv(s: State, t: State)
    requires Inv(s)
    requires t.futures == FailPending(s).futures && t.pending == {} && t.ws == None && t.nextId == s.nextId
    requires t.nextConn == s.nextConn && t.phase != CallingBack && t.phase != Reading
    ensures Inv(t)
    ensures forall r :: r in t.futures ==> t.futures[r].outcome != Waiting
  {
  }

  lemma SetOutcomeInv(s: State, t: State, rid: RequestId, o: Outcome)
    requires Inv(s) && rid in s.futures && o != Waiting
    requires s.phase == CallingBack ==> !ByResponse(o)
    requires t == SetOutcome(s, rid, o) || t == SetOutcome(s, rid, o).(pending := s.pending - {rid})
    ensures Inv(t)
  {
  }

  lemma ReceiveInv(cfg: Config, s: State, m: Message)
    requires Inv(s) && s.phase == Reading
    ensures Inv(StepReceive(cfg, s, m))
  {
    match Target(s, m)
    case None =>
    case Some(rid) =>
      match m.body
      case ResultBody(v) => SetOutcomeInv(s, SetOutcome(s, rid, Answered(v)), rid, Answered(v));
      case ErrorBody(c, e) => SetOutcomeInv(s, SetOutcome(s, rid, RpcError(c, e)), rid, RpcError(c, e));
      case MalformedError => FailPendingInv(s, Drop(cfg, s));
  }

  lemma ConnectInv(cfg: Config, s: State)
    requires Inv(s) && s.phase == Connecting
    ensures Inv(StepConnectOk(cfg, s)) && Inv(StepConnectFails(cfg, s))
  {
    FailPendingInv(s, StepConnectFails(cfg, s));
  }

  lemma StepInv(cfg: Config, s: State, a: Action)
    requires Inv(s) && Enabled(s, a)
    ensures Inv(Step(cfg, s, a))
  {
    match a
    case Timeout(rid) => SetOutcomeInv(s, Step(cfg, s, a), rid, TimedOut);
    case SendFails(rid) =>
      if s.futures[rid].outcome == Waiting {
        SetOutcomeInv(s, Step(cfg, s, a), rid, SendRaised);
      }
    case ConnectOk => ConnectInv(cfg, s);
    case ConnectFails => ConnectInv(cfg, s);
    case CallbackRaises => FailPendingInv(s, Drop(cfg, s));
    case Receive(m) => ReceiveInv(cfg, s, m);
    case ReadEnds => FailPendingInv(s, Drop(cfg, s));
    case StopEnds => FailPendingInv(s, Step(cfg, s, a));
    case _ =>
  }

  // ---------------------------------------------------------------------
  // Runs
  // ---------------------------------------------------------------------

  ghost predicate Runs(cfg: Config, acts: seq<Action>)
    decreases |acts|, 0
  {
    acts == [] || (Runs(cfg, acts[..|acts| - 1]) && Enabled(StateAfter(cfg, acts[..|acts| - 1]), acts[|acts| - 1]))
  }

  ghost function StateAfter(cfg: Config, acts: seq<Action>): State
    requires Runs(cfg, acts)
    decreases |acts|, 1
  {
    if acts == [] then INITIAL else Step(cfg, StateAfter(cfg, acts[..|acts| - 1]), acts[|acts| - 1])
  }

  lemma {:induction false} ReachableInv(cfg: Config, acts: seq<Action>)
    requires Runs(cfg, acts)
    ensures Inv(StateAfter(cfg, acts))
  {
    if acts != [] {
      ReachableInv(cfg, acts[..|acts| - 1]);
      StepInv(cfg, StateAfter(cfg, acts[..|acts| - 1]), acts[|acts| - 1]);
    }
  }

  // ---------------------------------------------------------------------
  // Correlation
  // ---------------------------------------------------------------------

  /** The outcome of a message for the request it completes. */
  function OutcomeOf(b: Body): Outcome
    requires !b.MalformedError?
  {
    match b
    case ResultBody(v) => Answered(v)
    case ErrorBody(code, message) => RpcError(code, message)
  }

  /** Message m, received on connection c, answers request r with outcome o. */
  ghost predicate Answers(m: Message, r: RequestId, o: Outcome) {
    m.Object? && AsInt(m.id) == Some(r) && !m.body.MalformedError? && o == OutcomeOf(m.body)
  }

  /** A request takes an id no request has had. */
  lemma RequestTakesFreshId(cfg: Config, s: State)
    requires Inv(s) && Connected(s)
    ensures s.nextId !in s.futures
    ensures Step(cfg, s, Request).futures.Keys == s.futures.Keys + {s.nextId}
  {
  }

  lemma DroppedFutures(cfg: Config, s: State, a: Action)
    requires Enabled(s, a) && (a.ConnectFails? || a.CallbackRaises? || a.ReadEnds? || a.StopEnds?)
    ensures Step(cfg, s, a).futures == FailPending(s).futures
  {
  }

  /** No other step completes a request with an answer. */
  lemma OthersCorrelate(cfg: Config, s: State, a: Action, r: RequestId)
    requires Inv(s) && Enabled(s, a) && !a.Receive? && r in s.futures
    ensures
      var t := Step(cfg, s, a);
      && r in t.futures && t.futures[r].conn == s.futures[r].conn
      && (s.futures[r].outcome != Waiting ==> t.futures[r] == s.futures[r])
      && (s.futures[r].outcome == Waiting ==> !ByResponse(t.futures[r].outcome))
  {
    if a.ConnectFails? || a.CallbackRaises? || a.ReadEnds? || a.StopEnds? {
      DroppedFutures(cfg, s, a);
      assert FailPending(s).futures[r].conn == s.futures[r].conn;
    } else if a.Timeout? || a.SendFails? {
      assert Step(cfg, s, a).futures.Keys == s.futures.Keys;
    } else if !a.Request? {
      assert Step(cfg, s, a).futures == s.futures;
    }
  }

  lemma ReceiveCorrelates(cfg: Config, s: State, m: Message, r: RequestId)
    requires Inv(s) && s.phase == Reading && r in s.futures
    ensures
      var t := StepReceive(cfg, s, m);
      && r in t.futures && t.futures[r].conn == s.futures[r].conn
      && (s.futures[r].outcome != Waiting ==> t.futures[r] == s.futures[r])
      && (s.futures[r].outcome == Waiting && ByResponse(t.futures[r].outcome) ==>
            Answers(m, r, t.futures[r].outcome) && s.ws == Some(s.futures[r].conn))
  {
    if Target(s, m).Some? && m.body.MalformedError? {
      assert StepReceive(cfg, s, m).futures == FailPending(s).futures;
    }
  }

  /** One step: completed requests keep their outcome; an answer comes only from a matching message. */
  lemma StepCorrelates(cfg: Config, s: State, a: Action, r: RequestId)
    requires Inv(s) && Enabled(s, a) && r in s.futures
    ensures
      var t := Step(cfg, s, a);
      && r in t.futures && t.futures[r].conn == s.futures[r].conn
      && (s.futures[r].outcome != Waiting ==> t.futures[r] == s.futures[r])
      && (s.futures[r].outcome == Waiting && ByResponse(t.futures[r].outcome) ==>
            && a.Receive? && Answers(a.message, r, t.futures[r].outcome)
            && s.phase == Reading && s.ws == Some(s.futures[r].conn))
  {
    if a.Receive? {
      ReceiveCorrelates(cfg, s, a.message, r);
    } else {
      OthersCorrelate(cfg, s, a, r);
    }
  }

  /** Over a run, a completed request keeps its outcome for ever. */
  lemma {:induction false} CompletesAtMostOnce(cfg: Config, acts: seq<Action>, k: nat, r: RequestId)
    requires Runs(cfg, acts) && k <= |acts| && Runs(cfg, acts[..k])
    requires r in StateAfter(cfg, acts[..k]).futures && StateAfter(cfg, acts[..k]).futures[r].outcome != Waiting
    ensures r in StateAfter(cfg, acts).futures
    ensures StateAfter(cfg, acts).futures[r] == StateAfter(cfg, acts[..k]).futures[r]
    decreases |acts|
  {
    if k == |acts| {
      assert acts[..k] == acts;
    } else {
      var p := acts[..|acts| - 1];
      assert p[..k] == acts[..k];
      CompletesAtMostOnce(cfg, p, k, r);
      ReachableInv(cfg, p);
      StepCorrelates(cfg, StateAfter(cfg, p), acts[|acts| - 1], r);
    }
  }

  /** Action j of a run is a message that answers r with outcome o on the connection c, read at that time. */
  ghost predicate AnsweredAt(cfg: Config, acts: seq<Action>, j: nat, r: RequestId, f: Future) {
    && j < |acts| && Runs(cfg, acts[..j])
    && acts[j].Receive? && Answers(acts[j].message, r, f.outcome)
    && StateAfter(cfg, acts[..j]).ws == Some(f.conn)
    && StateAfter(cfg, acts[..j]).phase == Reading
  }

  lemma NewRequestsWait(cfg: Config, s: State, a: Action, r: RequestId)
    requires Inv(s) && Enabled(s, a) && r !in s.futures && r in Step(cfg, s, a).futures
    ensures Step(cfg, s, a).futures[r].outcome == Waiting
  {
    StepInv(cfg, s, a);
  }

  /** Every answer of a run came from a message bearing the request's id on the request's own connection. */
  lemma {:induction false} AnswersAreCorrelated(cfg: Config, acts: seq<Action>, r: RequestId) returns (j: nat)
    requires Runs(cfg, acts) && r in StateAfter(cfg, acts).futures
    requires ByResponse(StateAfter(cfg, acts).futures[r].outcome)
    ensures AnsweredAt(cfg, acts, j, r, StateAfter(cfg, acts).futures[r])
  {
    j := 0;
    var n := |acts| - 1;
    var p := acts[..n];
    var s := StateAfter(cfg, p);
    ReachableInv(cfg, p);
    if r in s.futures {
      StepCorrelates(cfg, s, acts[n], r);
      if s.futures[r].outcome == Waiting {
        j := n;
      } else {
        j := AnswersAreCorrelated(cfg, p, r);
        assert p[..j] == acts[..j];
      }
    } else {
      NewRequestsWait(cfg, s, acts[n], r);
    }
  }

  /** No pending request survives into another connection: only those of the present one can be waiting. */
  lemma NoneSurvivesDisconnect(cfg: Config, acts: seq<Action>, r: RequestId)
    requires Runs(cfg, acts) && r in StateAfter(cfg, acts).futures
    requires StateAfter(cfg, acts).futures[r].outcome == Waiting
    ensures StateAfter(cfg, acts).ws == Some(StateAfter(cfg, acts).futures[r].conn)
    ensures r in StateAfter(cfg, acts).pending
  {
    ReachableInv(cfg, acts);
  }

  /**
   * The converse: while the connection is read, a response that bears the id
   * of any waiting request completes that request with what it carries, in
   * whatever order responses come, and no other.
   */
  lemma MatchingMessageAnswers(
    cfg: Config, acts: seq<Action>, r: RequestId, hasMethod: bool, value: Option<Json>, code: int, text: string)
    requires Runs(cfg, acts) && StateAfter(cfg, acts).phase == Reading
    requires r in StateAfter(cfg, acts).futures && StateAfter(cfg, acts).futures[r].outcome == Waiting
    ensures
      var s := StateAfter(cfg, acts);
      var conn := s.futures[r].conn;
      && Step(cfg, s, Receive(Object(hasMethod, IdInt(r), ResultBody(value))))
         == s.(futures := s.futures[r := Future(Answered(value), conn)])
      && Step(cfg, s, Receive(Object(hasMethod, IdInt(r), ErrorBody(code, text))))
         == s.(futures := s.futures[r := Future(RpcError(code, text), conn)])
  {
    ReachableInv(cfg, acts);
  }

  /** The number is the id of no waiting request. */
  ghost predicate NoOneWaits(s: State, n: int) {
    forall r :: r in s.futures && s.futures[r].outcome == Waiting ==> r != n
  }

  /** A message that is no object, or bears no id, another kind of id, or one nobody waits for, changes nothing. */
  lemma UnmatchedMessageIgnored(cfg: Config, acts: seq<Action>, m: Message)
    requires Runs(cfg, acts) && StateAfter(cfg, acts).phase == Reading
    requires m.Object? ==>
      || m.id == NoId || m.id == IdOther || m.id == IdBool(false)
      || (m.id.IdInt? && NoOneWaits(StateAfter(cfg, acts), m.id.n))
    ensures Step(cfg, StateAfter(cfg, acts), Receive(m)) == StateAfter(cfg, acts)
  {
    ReachableInv(cfg, acts);
  }

  /** A response whose error cannot be read is not an answer: it ends the connection. */
  lemma UnreadableErrorDrops(cfg: Config, acts: seq<Action>, r: RequestId, hasMethod: bool)
    requires Runs(cfg, acts) && StateAfter(cfg, acts).phase == Reading
    requires r in StateAfter(cfg, acts).futures && StateAfter(cfg, acts).futures[r].outcome == Waiting
    ensures
      var s := StateAfter(cfg, acts);
      Step(cfg, s, Receive(Object(hasMethod, IdInt(r), MalformedError))) == Step(cfg, s, ReadEnds)
  {
    ReachableInv(cfg, acts);
  }

  /**
   * When a connection ends, every waiting request is told so, and no other
   * changes; the loop waits for the next attempt, unless it is not to
   * reconnect or is stopping.
   */
  lemma DisconnectClosesExactly(cfg: Config, acts: seq<Action>, a: Action)
    requires Runs(cfg, acts) && Enabled(StateAfter(cfg, acts), a)
    requires a == ReadEnds || a == CallbackRaises || a == StopEnds
    ensures
      var s, t := StateAfter(cfg, acts), Step(cfg, StateAfter(cfg, acts), a);
      && t.ws == None && t.pending == {} && t.futures.Keys == s.futures.Keys
      && (forall r :: r in s.futures ==>
            t.futures[r] == if s.futures[r].outcome == Waiting then Future(Closed, s.futures[r].conn) else s.futures[r])
      && (a == StopEnds || !cfg.reconnect || s.stopping <==> t.phase == Ended)
      && (t.phase == Ended || t.phase.Sleeping?)
  {
    ReachableInv(cfg, acts);
  }

  /** A boolean `id` passes the integer check: `true` answers request 1, and no other boolean answers anything. */
  lemma BooleanIdAnswersRequestOne(s: State, hasMethod: bool, b: bool, body: Body, r: RequestId)
    requires Inv(s)
    ensures Target(s, Object(hasMethod, IdBool(b), body)) == Some(r) <==>
      b && r == 1 && 1 in s.pending && s.futures[1].outcome == Waiting
  {
  }

  /** A run in which the upstream answers request 1 with the id `true`. */
  lemma TrueAnswersRequestOne(cfg: Config, value: Json)
    ensures
      var acts := [ConnectOk, Request, Receive(Object(false, IdBool(true), ResultBody(Some(value))))];
      && Runs(cfg, acts)
      && 1 in StateAfter(cfg, acts).futures && StateAfter(cfg, acts).futures[1].outcome == Answered(Some(value))
  {
    var m := Receive(Object(false, IdBool(true), ResultBody(Some(value))));
    var a0: seq<Action> := [];
    var a1, a2, a3 := [ConnectOk], [ConnectOk, Request], [ConnectOk, Request, m];
    assert a1[..0] == a0 && a2[..1] == a1 && a3[..2] == a2;
    assert Runs(cfg, a0) && StateAfter(cfg, a0) == INITIAL;
    assert Runs(cfg, a1) && StateAfter(cfg, a1) == StepConnectOk(cfg, INITIAL);
    assert Runs(cfg, a2) && StateAfter(cfg, a2) == StepRequest(StateAfter(cfg, a1));
    assert Runs(cfg, a3) && StateAfter(cfg, a3) == StepReceive(cfg, StateAfter(cfg, a2), m.message);
  }

  // ---------------------------------------------------------------------
  // Requests made by the reconnect callback
  // ---------------------------------------------------------------------

  /**
   * The callback is awaited before the read loop of its connection starts, so
   * nothing can be dispatched while it runs: every request it makes ends, if
   * it ends, in a failure.
   */
  lemma CallbackRequestsFail(cfg: Config, acts: seq<Action>, r: RequestId)
    requires Runs(cfg, acts) && StateAfter(cfg, acts).phase == CallingBack
    requires r in StateAfter(cfg, acts).futures
    requires StateAfter(cfg, acts).ws == Some(StateAfter(cfg, acts).futures[r].conn)
    ensures StateAfter(cfg, acts).futures[r].outcome in {Waiting, Closed, TimedOut, SendRaised}
  {
    ReachableInv(cfg, acts);
  }

  // ---------------------------------------------------------------------
  // start()
  // ---------------------------------------------------------------------

  /** `start` has returned or raised once the event is set; it raises if the first attempt failed. */
  predicate StartRaises(s: State) {
    s.connectedEvent && s.firstConnectFailed
  }

  /** The first connection attempt of the run failed. */
  ghost predicate FirstAttemptFails(acts: seq<Action>) {
    exists k :: 0 <= k < |acts| && acts[k] == ConnectFails && ConnectOk !in acts[..k]
  }

  /** What the events of a run say about the two fields `start` looks at. */
  ghost predicate StartFields(s: State, acts: seq<Action>) {
    && (s.firstConnectFailed <==> FirstAttemptFails(acts))
    && (ConnectOk in acts ==> s.connectedEvent)
    && (s.connectedEvent && s.phase != Ended ==> ConnectOk in acts)
    && (s.phase == CallingBack || s.phase == Reading ==> s.connectedEvent)
  }

  lemma FirstAttemptSnoc(acts: seq<Action>, a: Action)
    ensures FirstAttemptFails(acts + [a])
       <==> FirstAttemptFails(acts) || (a == ConnectFails && ConnectOk !in acts)
  {
    var longer := acts + [a];
    if FirstAttemptFails(acts) {
      var k :| 0 <= k < |acts| && acts[k] == ConnectFails && ConnectOk !in acts[..k];
      assert longer[k] == ConnectFails && longer[..k] == acts[..k];
    }
    if a == ConnectFails && ConnectOk !in acts {
      assert longer[|acts|] == ConnectFails && longer[..|acts|] == acts;
    }
    if FirstAttemptFails(longer) {
      var k :| 0 <= k < |longer| && longer[k] == ConnectFails && ConnectOk !in longer[..k];
      if k < |acts| {
        assert acts[k] == ConnectFails && longer[..k] == acts[..k];
      } else {
        assert longer[..k] == acts;
      }
    }
  }

  lemma StepStartFields(cfg: Config, s: State, acts: seq<Action>, a: Action)
    requires Inv(s) && Enabled(s, a) && StartFields(s, acts)
    ensures StartFields(Step(cfg, s, a), acts + [a])
  {
    FirstAttemptSnoc(acts, a);
  }

  lemma {:induction false} ReachableStartFields(cfg: Config, acts: seq<Action>)
    requires Runs(cfg, acts)
    ensures StartFields(StateAfter(cfg, acts), acts)
  {
    if acts != [] {
      var p := acts[..|acts| - 1];
      ReachableStartFields(cfg, p);
      ReachableInv(cfg, p);
      StepStartFields(cfg, StateAfter(cfg, p), p, acts[|acts| - 1]);
      assert p + [acts[|acts| - 1]] == acts;
    }
  }

  /**
   * Exactly when `start` raises: once the event is set, if and only if the
   * first connection attempt failed, whatever has happened since.
   */
  lemma StartRaisesExactly(cfg: Config, acts: seq<Action>)
    requires Runs(cfg, acts) && StateAfter(cfg, acts).connectedEvent
    ensures StartRaises(StateAfter(cfg, acts)) <==> FirstAttemptFails(acts)
  {
    ReachableStartFields(cfg, acts);
  }

  /** Without reconnecting, a failed first attempt is the last one. */
  lemma {:induction false} FailedForGood(cfg: Config, acts: seq<Action>)
    requires Runs(cfg, acts) && !cfg.reconnect && FirstAttemptFails(acts)
    ensures StateAfter(cfg, acts).phase == Ended && StateAfter(cfg, acts).ws == None
  {
    var p, a := acts[..|acts| - 1], acts[|acts| - 1];
    assert p + [a] == acts;
    FirstAttemptSnoc(p, a);
    ReachableInv(cfg, p);
    if FirstAttemptFails(p) {
      FailedForGood(cfg, p);
    }
  }

  /**
   * `start` documents that it raises if the first attempt fails and there is
   * no reconnecting.  Over any run it keeps to that, in both directions, if
   * and only if it is not the case that the first attempt failed while
   * reconnecting is on; and without reconnecting it never raises on a live
   * connection.
   */
  lemma StartKeepsItsWordExactly(cfg: Config, acts: seq<Action>)
    requires Runs(cfg, acts) && StateAfter(cfg, acts).connectedEvent
    ensures (StartRaises(StateAfter(cfg, acts)) <==> FirstAttemptFails(acts) && !cfg.reconnect)
       <==> !(cfg.reconnect && FirstAttemptFails(acts))
    ensures Connected(StateAfter(cfg, acts)) && StartRaises(StateAfter(cfg, acts)) ==> cfg.reconnect
  {
    StartRaisesExactly(cfg, acts);
    if !cfg.reconnect && FirstAttemptFails(acts) {
      FailedForGood(cfg, acts);
    }
  }

  /** A later successful connect does not clear the first failure: `start` raises on a live connection. */
  lemma StartRaisesThoughConnected(cfg: Config)
    requires cfg.reconnect
    ensures
      var acts := [ConnectFails, WakeUp, ConnectOk];
      Runs(cfg, acts) && StartRaises(StateAfter(cfg, acts)) && Connected(StateAfter(cfg, acts))
  {
    var a0: seq<Action> := [];
    var a1, a2, a3 := [ConnectFails], [ConnectFails, WakeUp], [ConnectFails, WakeUp, ConnectOk];
    assert a1[..0] == a0 && a2[..1] == a1 && a3[..2] == a2;
    assert Runs(cfg, a0) && StateAfter(cfg, a0) == INITIAL;
    assert Runs(cfg, a1) && StateAfter(cfg, a1) == StepConnectFails(cfg, INITIAL);
    assert Runs(cfg, a2) && StateAfter(cfg, a2) == StateAfter(cfg, a1).(phase := Connecting);
    assert Runs(cfg, a3) && StateAfter(cfg, a3) == StepConnectOk(cfg, StateAfter(cfg, a2));
  }

  // ---------------------------------------------------------------------
  // Back-off
  // ---------------------------------------------------------------------

  /** How often the loop has woken up since the last successful connect. */
  function WakeUps(acts: seq<Action>): nat {
    if acts == [] then 0
    else
      match acts[|acts| - 1]
      case ConnectOk => 0
      case WakeUp => WakeUps(acts[..|acts| - 1]) + 1
      case _ => WakeUps(acts[..|acts| - 1])
  }

  ghost predicate Attempts(cfg: Config, s: State, n: nat) {
    match s.phase
    case Connecting => s.attempt == n
    case Sleeping(i) => s.attempt == n + 1 && i == Min(n, if cfg.backoffSteps > 0 then cfg.backoffSteps - 1 else 0)
    case Ended => true
    case _ => s.attempt == 0 && n == 0
  }

  lemma StepAttempts(cfg: Config, s: State, a: Action, n: nat)
    requires Enabled(s, a) && Attempts(cfg, s, n)
    ensures Attempts(cfg, Step(cfg, s, a), if a == ConnectOk then 0 else if a == WakeUp then n + 1 else n)
  {
  }

  lemma {:induction false} RunAttempts(cfg: Config, acts: seq<Action>)
    requires Runs(cfg, acts)
    ensures Attempts(cfg, StateAfter(cfg, acts), WakeUps(acts))
  {
    if acts != [] {
      var n := |acts| - 1;
      RunAttempts(cfg, acts[..n]);
      StepAttempts(cfg, StateAfter(cfg, acts[..n]), acts[n], WakeUps(acts[..n]));
    }
  }

  /**
   * Over every run, the delay slept on is the one of the schedule that has the
   * number of earlier waits since the last successful connect, or its last
   * one.
   */
  lemma BackoffExactly(cfg: Config, acts: seq<Action>)
    requires Runs(cfg, acts) && StateAfter(cfg, acts).phase.Sleeping? && cfg.backoffSteps > 0
    ensures
      var i, n := StateAfter(cfg, acts).phase.delayIndex, WakeUps(acts);
      i == if n < cfg.backoffSteps then n else cfg.backoffSteps - 1
  {
    RunAttempts(cfg, acts);
  }
}
