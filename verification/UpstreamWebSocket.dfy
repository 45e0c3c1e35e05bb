/**
 * `UpstreamWebSocket` of src/exec_rest_api/upstream_ws.py as a class whose
 * methods are its await-free stretches, each proved to be one step of the
 * connection state machine.
 */
module WebSocketClient {
  import opened Wrappers
  import opened UpstreamWs

  /** What `_dispatch` did beyond updating futures. */
  datatype Dispatched = Quietly | Notified | Escaped

  class UpstreamWebSocket {
    const cfg: Config
    var nextId: RequestId
    var pending: set<RequestId>
    var futures: map<RequestId, Future>
    var ws: Option<ConnId>
    var socketClosed: bool
    var nextConn: ConnId
    var phase: Phase
    var attempt: nat
    var connectedEvent: bool
    var firstConnectFailed: bool
    var stopping: bool

    ghost function View(): State
      reads this
    {
      State(nextId, pending, futures, ws, socketClosed, nextConn, phase, attempt, connectedEvent,
            firstConnectFailed, stopping)
    }

    constructor (cfg: Config)
      ensures this.cfg == cfg && View() == INITIAL && Inv(View())
    {
      this.cfg := cfg;
      nextId, pending, futures := 1, {}, map[];
      ws, socketClosed, nextConn := None, false, 0;
      phase, attempt := Connecting, 0;
      connectedEvent, firstConnectFailed, stopping := false, false, false;
    }

    /** `request` up to sending: refuses when not connected, otherwise takes a fresh id. */
    method Request() returns (rid: Option<RequestId>)
      modifies this
      ensures rid.Some? <==> old(ws).Some? && !old(socketClosed)
      ensures rid.None? ==> View() == old(View())
      ensures rid.Some? ==> rid.value == old(nextId) && View() == StepRequest(old(View()))
    {
      if ws.None? || socketClosed {
        return None;
      }
      rid := Some(nextId);
      futures := futures[nextId := Future(Waiting, ws.value)];
      pending := pending + {nextId};
      nextId := nextId + 1;
    }

    /** `_fail_pending`: completes what is still waiting, then empties the table. */
    method FailAllPending()
      requires pending <= futures.Keys
      modifies this`pending, this`futures
      ensures View() == FailPending(old(View()))
    {
      var left := pending;
      while left != {}
        invariant left <= pending && pending == old(pending)
        invariant futures.Keys == old(futures).Keys
        invariant forall r :: r in futures ==>
          futures[r] == if r in pending - left && old(futures)[r].outcome == Waiting
                        then Future(Closed, old(futures)[r].conn) else old(futures)[r]
        decreases left
      {
        var r :| r in left;
        left := left - {r};
        if futures[r].outcome == Waiting {
          futures := futures[r := Future(Closed, futures[r].conn)];
        }
      }
      pending := {};
    }

    /** The `finally` of a connection attempt, then the decision to stop or to back off. */
    method ConnectionOver()
      requires pending <= futures.Keys
      modifies this
      ensures View() == Drop(cfg, old(View()))
    {
      ws := None;
      FailAllPending();
      if !cfg.reconnect || stopping {
        connectedEvent := true;
        phase := Ended;
        return;
      }
      var last := if cfg.backoffSteps > 0 then cfg.backoffSteps - 1 else 0;
      phase := Sleeping(if attempt <= last then attempt else last);
      attempt := attempt + 1;
    }

    method Connects()
      requires phase == Connecting
      modifies this
      ensures View() == StepConnectOk(cfg, old(View()))
      ensures phase == if old(connectedEvent) && cfg.hasCallback then CallingBack else Reading
    {
      ws, socketClosed := Some(nextConn), false;
      nextConn := nextConn + 1;
      attempt := 0;
      var isReconnect := connectedEvent;
      connectedEvent := true;
      phase := if isReconnect && cfg.hasCallback then CallingBack else Reading;
    }

    method ConnectRaises()
      requires phase == Connecting && pending <= futures.Keys
      modifies this
      ensures View() == StepConnectFails(cfg, old(View()))
    {
      if !connectedEvent {
        firstConnectFailed := true;
      }
      ConnectionOver();
    }

    /** `_dispatch`; an exception it lets escape ends the connection. */
    method Dispatch(m: Message) returns (d: Dispatched)
      requires phase == Reading && pending <= futures.Keys
      modifies this
      ensures View() == StepReceive(cfg, old(View()), m)
      ensures d == Notified <==> m.Object? && m.hasMethod && m.id.NoId?
      ensures d == Escaped <==> Target(old(View()), m).Some? && m.body.MalformedError?
    {
      if !m.Object? {
        return Quietly;
      }
      if m.hasMethod && m.id.NoId? {
        return Notified;
      }
      var rid := AsInt(m.id);
      if rid.None? || rid.value < 0 {
        return Quietly;
      }
      var r := rid.value;
      if r !in pending || futures[r].outcome != Waiting {
        return Quietly;
      }
      match m.body {
        case ResultBody(v) =>
          futures := futures[r := Future(Answered(v), futures[r].conn)];
          return Quietly;
        case ErrorBody(code, message) =>
          futures := futures[r := Future(RpcError(code, message), futures[r].conn)];
          return Quietly;
        case MalformedError =>
          ConnectionOver();
          return Escaped;
      }
    }
  }
}
