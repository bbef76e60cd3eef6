/** The tournament WebSocket endpoint: the id/token gate in front of a
    subscription, the token rule, and the per-event reaction of the
    connection loop. The loop's `select` is modelled by handing it the next
    event that wins, together with whether the send it triggers succeeds. */
module WsController {
  import opened Common
  import opened WebsocketModel
  import opened Broadcaster

  /** Seconds between two heartbeat pings. The loop below does not keep
      time: each firing of the heartbeat is a `HeartbeatTick` step. */
  const HeartbeatIntervalSecs: nat := 30

  const InvalidTokenError: string := "Invalid token"

  /** The HTTP refusals of the upgrade request. */
  datatype Status = BadRequest | Unauthorized

  /** `validate_token`. `accessTokenType` is the `token_type` claim when the
      regular verifier accepts the token (None when it rejects it);
      `anonymousOk` says whether the anonymous verifier accepts it. */
  function ValidateToken(accessTokenType: Option<string>, anonymousOk: bool): (r: Result<(), string>)
    ensures r.Ok? <==> accessTokenType == Some("access") || anonymousOk
    ensures r.Err? ==> r.error == InvalidTokenError
  {
    if accessTokenType.Some? && accessTokenType.value == "access" then Ok(())
    else if anonymousOk then Ok(())
    else Err(InvalidTokenError)
  }

  /** The token rule in the cases the verifiers can produce: an access token
      passes on its own; a regular token of another type still passes when the
      anonymous verifier accepts it; with neither, it is refused. */
  lemma ValidateTokenCases(tokenType: string)
    ensures ValidateToken(Some("access"), false).Ok?
    ensures ValidateToken(Some(tokenType), true).Ok?
    ensures tokenType != "access" ==> ValidateToken(Some(tokenType), false) == Err(InvalidTokenError)
    ensures ValidateToken(None, false) == Err(InvalidTokenError)
  {
  }

  /** `tournament_ws`: a malformed id is refused before the token is looked
      at; a refused token is `Unauthorized`; otherwise the caller is
      subscribed to the tournament's room and gets its receiver. */
  method TournamentWs(b: TournamentBroadcaster, tournamentId: string, accessTokenType: Option<string>, anonymousOk: bool)
    returns (r: Result<ReceiverId, Status>)
    requires b.Valid()
    modifies b
    ensures b.Valid()
    ensures ParseObjectId(tournamentId).None? ==> r == Err(BadRequest) && unchanged(b)
    ensures ParseObjectId(tournamentId).Some? && ValidateToken(accessTokenType, anonymousOk).Err? ==>
      r == Err(Unauthorized) && unchanged(b)
    ensures ParseObjectId(tournamentId).Some? && ValidateToken(accessTokenType, anonymousOk).Ok? ==>
      var t := ParseObjectId(tournamentId).value;
      && r == Ok(old(b.nextReceiver))
      && b.rooms == old(b.rooms)[t := (if t in old(b.rooms) then old(b.rooms)[t] else {}) + {r.value}]
      && b.pending == old(b.pending)[r.value := []]
  {
    var parsed := ParseObjectId(tournamentId);
    if parsed.None? {
      return Err(BadRequest);
    }
    if ValidateToken(accessTokenType, anonymousOk).Err? {
      return Err(Unauthorized);
    }
    var rx := b.Subscribe(parsed.value);
    r := Ok(rx);
  }

  // ---------------------------------------------------------------------------
  // The connection loop
  // ---------------------------------------------------------------------------

  /** What the room's receiver yields. */
  datatype Received = Event(event: TournamentEvent) | Lagged(skipped: nat) | Closed

  /** What the client stream yields, as the socket library delivers it: a
      message of one of its kinds, a raw frame, or a read error. */
  datatype Frame =
    | Text(text: string)
    | Binary(data: seq<Byte>)
    | PingFrame(data: seq<Byte>)
    | PongFrame(data: seq<Byte>)
    | Close
    | RawFrame(data: seq<Byte>)
    | ReadError

  /** The branch of the `select` that fires: the receiver, the client stream
      (None once it has ended) or the heartbeat timer. */
  datatype Wake = FromRoom(received: Received) | FromClient(frame: Option<Frame>) | HeartbeatTick

  /** One iteration's input: what fired, and whether a send made in response
      would succeed. */
  datatype Step = Step(wake: Wake, sendOk: bool)

  /** What the server sends: an event as JSON text, the `{"type":"pong"}` text,
      a pong control frame echoing a ping's payload, or a ping control frame. */
  datatype Outgoing = EventJson(event: TournamentEvent) | PongJson | PongControl(data: seq<Byte>) | PingControl(data: seq<Byte>)

  /** The outcome of one iteration: the frame it tried to send, if any, and
      whether the loop ends. */
  datatype Reaction = Reaction(send: Option<Outgoing>, stop: bool)

  /** The reaction table of `handle_connection`. `isPing` says whether a text
      parses as the client's ping message. A send that fails ends the loop. */
  function React(s: Step, isPing: string -> bool): (r: Reaction)
    ensures r.send.Some? && !s.sendOk ==> r.stop
    ensures r.send.None? ==> (r.stop <==> s.wake in {FromRoom(Closed), FromClient(Some(Close)), FromClient(None)})
  {
    match s.wake
    case FromRoom(Event(e)) => Reaction(Some(EventJson(e)), !s.sendOk)
    case FromRoom(Lagged(_)) => Reaction(None, false)
    case FromRoom(Closed) => Reaction(None, true)
    case FromClient(Some(Text(text))) =>
      if isPing(text) then Reaction(Some(PongJson), !s.sendOk) else Reaction(None, false)
    case FromClient(Some(PingFrame(data))) => Reaction(Some(PongControl(data)), !s.sendOk)
    case FromClient(Some(Close)) => Reaction(None, true)
    case FromClient(None) => Reaction(None, true)
    case FromClient(Some(_)) => Reaction(None, false)
    case HeartbeatTick => Reaction(Some(PingControl([])), !s.sendOk)
  }

  /** The reaction table, case by case as the endpoint promises: lagging is
      skipped and a closed room ends the loop; a ping text gets exactly one
      pong text and other text is ignored; a control ping is echoed; binary
      data, pongs, raw frames and read errors are ignored; a close frame or
      the end of the stream ends the loop; the heartbeat sends an
      empty ping. */
  lemma ReactionTable(s: Step, isPing: string -> bool)
    ensures s.wake.FromRoom? && s.wake.received.Lagged? ==> React(s, isPing) == Reaction(None, false)
    ensures s.wake == FromRoom(Closed) ==> React(s, isPing) == Reaction(None, true)
    ensures s.wake.FromRoom? && s.wake.received.Event? ==>
      React(s, isPing) == Reaction(Some(EventJson(s.wake.received.event)), !s.sendOk)
    ensures s.wake.FromClient? && s.wake.frame.Some? && s.wake.frame.value.Text? ==>
      React(s, isPing) == if isPing(s.wake.frame.value.text) then Reaction(Some(PongJson), !s.sendOk) else Reaction(None, false)
    ensures s.wake.FromClient? && s.wake.frame.Some? && s.wake.frame.value.PingFrame? ==>
      React(s, isPing) == Reaction(Some(PongControl(s.wake.frame.value.data)), !s.sendOk)
    ensures s.wake.FromClient? && s.wake.frame.Some?
      && (s.wake.frame.value.Binary? || s.wake.frame.value.PongFrame? || s.wake.frame.value.RawFrame? || s.wake.frame.value.ReadError?)
      ==> React(s, isPing) == Reaction(None, false)
    ensures s.wake == HeartbeatTick ==> React(s, isPing) == Reaction(Some(PingControl([])), !s.sendOk)
  {
  }

  /** The frames sent over a run of the loop on the given steps, and how many
      steps it consumed before ending (all of them if it never ends). */
  function Run(steps: seq<Step>, isPing: string -> bool): (r: (seq<Outgoing>, nat))
    ensures r.1 <= |steps| && |r.0| <= r.1
  {
    if steps == [] then ([], 0)
    else
      var reaction := React(steps[0], isPing);
      var sent := if reaction.send.Some? then [reaction.send.value] else [];
      if reaction.stop then (sent, 1)
      else
        var (rest, n) := Run(steps[1..], isPing);
        (sent + rest, n + 1)
  }

  /** `handle_connection`: reacts to each step in turn until one ends the loop. */
  method HandleConnection(steps: seq<Step>, isPing: string -> bool) returns (sent: seq<Outgoing>, consumed: nat)
    ensures (sent, consumed) == Run(steps, isPing)
  {
    sent := [];
    consumed := 0;
    var stopped := false;
    assert steps[0..] == steps;
    while consumed < |steps| && !stopped
      invariant consumed <= |steps|
      invariant stopped ==> (sent, consumed) == Run(steps, isPing)
      invariant !stopped ==> Run(steps, isPing).0 == sent + Run(steps[consumed..], isPing).0
      invariant !stopped ==> Run(steps, isPing).1 == consumed + Run(steps[consumed..], isPing).1
    {
      var reaction := React(steps[consumed], isPing);
      ghost var tail := steps[consumed..];
      assert tail[0] == steps[consumed] && tail[1..] == steps[consumed + 1..];
      var out: seq<Outgoing> := if reaction.send.Some? then [reaction.send.value] else [];
      if !reaction.stop {
        assert sent + Run(tail, isPing).0 == (sent + out) + Run(tail[1..], isPing).0;
      }
      sent := sent + out;
      consumed := consumed + 1;
      stopped := reaction.stop;
    }
    if !stopped {
      assert steps[consumed..] == [];
      assert sent + Run(steps[consumed..], isPing).0 == sent;
    }
  }

  /** The loop ends exactly at the first step whose reaction stops it, or runs
      through every step when none does; at most one frame goes out per step. */
  lemma {:induction false} RunStopsAtFirstStop(steps: seq<Step>, isPing: string -> bool)
    ensures var n := Run(steps, isPing).1;
      && (forall i :: 0 <= i < n - 1 ==> !React(steps[i], isPing).stop)
      && (n < |steps| ==> n > 0 && React(steps[n - 1], isPing).stop)
  {
    if steps != [] {
      RunStopsAtFirstStop(steps[1..], isPing);
    }
  }
}
