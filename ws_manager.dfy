/** The browser side of the live tournament channel: one manager per watched
    tournament keeps a socket open, answers for its liveness with a periodic
    ping, and reconnects with exponential back-off until it is told to stop.
    Timers, sockets and callbacks are modelled by their observable state: which
    timers are pending, the current socket's ready state, and the logs of what
    was reported to the two callbacks and sent on the socket. */
module WsManager {
  import opened Common
  import opened WebsocketModel

  /** Milliseconds between two heartbeat pings. The model does not keep
      time: each firing of the interval is a call of `HeartbeatTick`, and a
      pending reconnect timer is fired by `ReconnectTimerFires`. */
  const HeartbeatInterval: nat := 25000
  const MaxReconnectDelay: nat := 30000
  const BaseReconnectDelay: nat := 1000

  function Pow2(n: nat): (r: nat)
    ensures r >= 1
  {
    if n == 0 then 1 else 2 * Pow2(n - 1)
  }

  /** The wait before reconnect attempt `attempts + 1`: one second doubled per
      earlier attempt, capped at thirty seconds. */
  function ReconnectDelay(attempts: nat): (delay: nat)
  {
    var d := BaseReconnectDelay * Pow2(attempts);
    if d < MaxReconnectDelay then d else MaxReconnectDelay
  }

  /** The first retry waits one second; the wait never drops below one second
      nor exceeds thirty; it never shrinks as attempts accumulate; from the
      sixth attempt on it is the cap. */
  lemma {:induction false} ReconnectDelayShape(a: nat, b: nat)
    requires a <= b
    ensures ReconnectDelay(0) == BaseReconnectDelay
    ensures BaseReconnectDelay <= ReconnectDelay(a) <= MaxReconnectDelay
    ensures ReconnectDelay(a) <= ReconnectDelay(b)
    ensures a >= 5 ==> ReconnectDelay(a) == MaxReconnectDelay
    ensures a < 5 ==> ReconnectDelay(a) == BaseReconnectDelay * Pow2(a) < MaxReconnectDelay
    ensures a < 4 ==> ReconnectDelay(a + 1) == 2 * ReconnectDelay(a)
  {
    Pow2Monotone(a, b);
    if a >= 5 {
      Pow2Monotone(5, a);
      assert Pow2(5) == 32;
    } else {
      assert Pow2(4) == 16;
      Pow2Monotone(a, 4);
    }
  }

  lemma {:induction false} Pow2Monotone(a: nat, b: nat)
    requires a <= b
    ensures Pow2(a) <= Pow2(b)
  {
    if a < b {
      Pow2Monotone(a, b - 1);
    }
  }

  /** `WebSocket.readyState`. */
  datatype ReadyState = Connecting | Open | Closing | Closed

  class WebSocketManager {
    const tournamentId: string
    const token: string
    /** The current socket, if any. */
    var ws: Option<ReadyState>
    var heartbeatRunning: bool
    /** The delay of the pending reconnect timer, if one is pending. */
    var reconnectTimer: Option<nat>
    var reconnectAttempts: nat
    var closed: bool
    /** How many sockets the manager has opened. */
    var socketsOpened: nat
    /** Every value passed to the status callback, in order. */
    var statusReports: seq<bool>
    /** Every event passed to the event callback, in order. */
    var forwarded: seq<TournamentEvent>
    var pingsSent: nat

    /** A stopped manager holds no socket and no timer; a heartbeat runs only
        beside a socket; a pending reconnect waits between one and thirty
        seconds. */
    predicate Valid()
      reads this
    {
      && (closed ==> ws.None? && !heartbeatRunning && reconnectTimer.None?)
      && (heartbeatRunning ==> ws.Some?)
      && (reconnectTimer.Some? ==> BaseReconnectDelay <= reconnectTimer.value <= MaxReconnectDelay)
    }

    constructor (tournamentId: string, token: string)
      ensures Valid()
      ensures this.tournamentId == tournamentId && this.token == token
      ensures ws.None? && !heartbeatRunning && reconnectTimer.None? && reconnectAttempts == 0 && !closed
      ensures socketsOpened == 0 && statusReports == [] && forwarded == [] && pingsSent == 0
    {
      this.tournamentId := tournamentId;
      this.token := token;
      ws := None;
      heartbeatRunning := false;
      reconnectTimer := None;
      reconnectAttempts := 0;
      closed := false;
      socketsOpened := 0;
      statusReports := [];
      forwarded := [];
      pingsSent := 0;
    }

    /** `connect`: once stopped, nothing; otherwise a new socket, still
        connecting, replaces the current one. */
    method Connect()
      requires Valid()
      modifies this
      ensures Valid()
      ensures old(closed) ==> ws == old(ws) && socketsOpened == old(socketsOpened)
      ensures !old(closed) ==> ws == Some(Connecting) && socketsOpened == old(socketsOpened) + 1
      ensures closed == old(closed) && heartbeatRunning == old(heartbeatRunning)
      ensures reconnectTimer == old(reconnectTimer) && reconnectAttempts == old(reconnectAttempts)
      ensures statusReports == old(statusReports) && forwarded == old(forwarded) && pingsSent == old(pingsSent)
    {
      if closed {
        return;
      }
      ws := Some(Connecting);
      socketsOpened := socketsOpened + 1;
    }

    /** The socket's `open` event: the attempt count resets, connected is
        reported and the heartbeat (re)starts. */
    method OnOpen()
      requires Valid() && ws.Some?
      modifies this
      ensures Valid()
      ensures ws == Some(Open) && reconnectAttempts == 0 && heartbeatRunning
      ensures statusReports == old(statusReports) + [true]
      ensures closed == old(closed) && reconnectTimer == old(reconnectTimer) && socketsOpened == old(socketsOpened)
      ensures forwarded == old(forwarded) && pingsSent == old(pingsSent)
    {
      ws := Some(Open);
      reconnectAttempts := 0;
      statusReports := statusReports + [true];
      StartHeartbeat();
    }

    /** The socket's `message` event. `parsed` is the text's reading as a
        tournament event: `None` when it is not JSON or does not validate as a
        known event. Only a valid event reaches the callback. */
    method OnMessage(parsed: Option<TournamentEvent>)
      requires Valid() && ws.Some?
      modifies this
      ensures Valid()
      ensures forwarded == old(forwarded) + (if parsed.Some? then [parsed.value] else [])
      ensures ws == old(ws) && heartbeatRunning == old(heartbeatRunning) && reconnectTimer == old(reconnectTimer)
      ensures reconnectAttempts == old(reconnectAttempts) && closed == old(closed)
      ensures socketsOpened == old(socketsOpened) && statusReports == old(statusReports) && pingsSent == old(pingsSent)
    {
      if parsed.Some? {
        forwarded := forwarded + [parsed.value];
      }
    }

    /** The close event of the last socket opened. `disconnect` detaches the
        handler before it drops the socket, so with no current socket nothing
        happens; otherwise disconnected is reported, the heartbeat stops and a
        reconnect is scheduled. */
    method OnClose()
      requires Valid()
      modifies this
      ensures Valid()
      ensures old(ws).None? ==>
        && ws == old(ws) && reconnectTimer == old(reconnectTimer)
        && reconnectAttempts == old(reconnectAttempts) && statusReports == old(statusReports)
        && heartbeatRunning == old(heartbeatRunning)
      ensures old(ws).Some? ==>
        && ws == Some(Closed) && !heartbeatRunning
        && statusReports == old(statusReports) + [false]
        && reconnectTimer == Some(ReconnectDelay(old(reconnectAttempts)))
        && reconnectAttempts == old(reconnectAttempts) + 1
      ensures closed == old(closed) && socketsOpened == old(socketsOpened)
      ensures forwarded == old(forwarded) && pingsSent == old(pingsSent)
    {
      if ws.None? {
        return;
      }
      ws := Some(Closed);
      statusReports := statusReports + [false];
      StopHeartbeat();
      ScheduleReconnect();
    }

    /** The socket's `error` event closes the current socket, if any; the close
        event follows. After `disconnect` has dropped the socket (its error
        handler stays attached), `this.ws?.close()` does nothing. */
    method OnError()
      requires Valid()
      modifies this
      ensures Valid()
      ensures old(ws).None? ==> ws == old(ws)
      ensures old(ws).Some? ==> ws == Some(if old(ws) == Some(Closed) then Closed else Closing)
      ensures heartbeatRunning == old(heartbeatRunning) && reconnectTimer == old(reconnectTimer)
      ensures reconnectAttempts == old(reconnectAttempts) && closed == old(closed)
      ensures socketsOpened == old(socketsOpened) && statusReports == old(statusReports)
      ensures forwarded == old(forwarded) && pingsSent == old(pingsSent)
    {
      if ws.Some? && ws != Some(Closed) {
        ws := Some(Closing);
      }
    }

    /** `disconnect`: the manager stops for good: both timers are cleared,
        the close handler is detached, the socket is closed and dropped, and
        disconnected is reported. */
    method Disconnect()
      requires Valid()
      modifies this
      ensures Valid()
      ensures closed && ws.None? && !heartbeatRunning && reconnectTimer.None?
      ensures statusReports == old(statusReports) + [false]
      ensures reconnectAttempts == old(reconnectAttempts) && socketsOpened == old(socketsOpened)
      ensures forwarded == old(forwarded) && pingsSent == old(pingsSent)
    {
      closed := true;
      StopHeartbeat();
      if reconnectTimer.Some? {
        reconnectTimer := None;
      }
      if ws.Some? {
        ws := None;
      }
      statusReports := statusReports + [false];
    }

    /** One tick of the heartbeat interval: a ping goes out only on an open
        socket. */
    method HeartbeatTick()
      requires Valid() && heartbeatRunning
      modifies this
      ensures Valid()
      ensures pingsSent == old(pingsSent) + (if ws == Some(Open) then 1 else 0)
      ensures ws == old(ws) && heartbeatRunning == old(heartbeatRunning) && reconnectTimer == old(reconnectTimer)
      ensures reconnectAttempts == old(reconnectAttempts) && closed == old(closed)
      ensures socketsOpened == old(socketsOpened) && statusReports == old(statusReports) && forwarded == old(forwarded)
    {
      if ws == Some(Open) {
        pingsSent := pingsSent + 1;
      }
    }

    /** The pending reconnect timer fires: it is spent and `connect` runs. */
    method ReconnectTimerFires()
      requires Valid() && reconnectTimer.Some?
      modifies this
      ensures Valid()
      ensures !closed && reconnectTimer.None?
      ensures ws == Some(Connecting) && socketsOpened == old(socketsOpened) + 1
      ensures heartbeatRunning == old(heartbeatRunning) && reconnectAttempts == old(reconnectAttempts)
      ensures statusReports == old(statusReports) && forwarded == old(forwarded) && pingsSent == old(pingsSent)
    {
      reconnectTimer := None;
      Connect();
    }

    method StartHeartbeat()
      requires ws.Some?
      requires closed ==> reconnectTimer.None?
      requires reconnectTimer.Some? ==> BaseReconnectDelay <= reconnectTimer.value <= MaxReconnectDelay
      modifies this
      ensures heartbeatRunning
      ensures ws == old(ws) && reconnectTimer == old(reconnectTimer) && reconnectAttempts == old(reconnectAttempts)
      ensures closed == old(closed) && socketsOpened == old(socketsOpened)
      ensures statusReports == old(statusReports) && forwarded == old(forwarded) && pingsSent == old(pingsSent)
    {
      StopHeartbeat();
      heartbeatRunning := true;
    }

    method StopHeartbeat()
      modifies this
      ensures !heartbeatRunning
      ensures ws == old(ws) && reconnectTimer == old(reconnectTimer) && reconnectAttempts == old(reconnectAttempts)
      ensures closed == old(closed) && socketsOpened == old(socketsOpened)
      ensures statusReports == old(statusReports) && forwarded == old(forwarded) && pingsSent == old(pingsSent)
    {
      if heartbeatRunning {
        heartbeatRunning := false;
      }
    }

    /** `scheduleReconnect`: once stopped, nothing; otherwise a reconnect is
        set for `ReconnectDelay(attempts)` and the attempt is counted. */
    method ScheduleReconnect()
      requires Valid()
      modifies this
      ensures Valid()
      ensures old(closed) ==> reconnectTimer == old(reconnectTimer) && reconnectAttempts == old(reconnectAttempts)
      ensures !old(closed) ==>
        reconnectTimer == Some(ReconnectDelay(old(reconnectAttempts))) && reconnectAttempts == old(reconnectAttempts) + 1
      ensures ws == old(ws) && heartbeatRunning == old(heartbeatRunning) && closed == old(closed)
      ensures socketsOpened == old(socketsOpened)
      ensures statusReports == old(statusReports) && forwarded == old(forwarded) && pingsSent == old(pingsSent)
    {
      if closed {
        return;
      }
      ReconnectDelayShape(reconnectAttempts, reconnectAttempts);
      reconnectTimer := Some(ReconnectDelay(reconnectAttempts));
      reconnectAttempts := reconnectAttempts + 1;
    }
  }
}
