# torvi in Dafny

torvi runs image tournaments. A user creates a single-elimination bracket of
opponents, each an image with a name. Participants vote match by match, and
the winners of each round are paired into the next until one opponent is
left. Participants are registered accounts or anonymous guests admitted with
an invite code. Clients watch a tournament live over a WebSocket.

This project models the core of that system:

- the Rust backend's bracket and voting engine;
- the per-tournament event broadcaster;
- cursor pagination;
- the opponents model and service;
- the WebSocket endpoint's token gate and connection loop;
- three browser-side pieces: the reconnecting WebSocket manager, the dashboard
  wizard store and the auth store.

## Modules

| file | module | models |
|---|---|---|
| `common.dfy` | `Common` | Option/Result, 12-byte object ids and their 24-hex-digit text form, Rust `str::trim`, first-match search |
| `tournament_model.dfy` | `TournamentModel` | `VoterId`, `Match`, `Round`, `Tournament`, invites; `Match::process_vote` (a method with loops, proved equal to `ApplyVote`); `Tournament::new`; `TournamentResponse::from` |
| `tournament_service.dfy` | `TournamentService` | the pairing loop, round completion and winners, the bracket and tournament invariants; `TournamentServiceImpl`, a class over the tournaments map and the invite list, with `create_tournament`, `vote_match`, `create_invite` and `join_tournament` |
| `broadcaster.dfy` | `Broadcaster` | `TournamentBroadcaster`: rooms of receivers, each receiver with its own FIFO queue |
| `websocket_model.dfy` | `WebsocketModel` | the event and client-message datatypes |
| `ws_controller.dfy` | `WsController` | `validate_token`, the id/token gate of `tournament_ws`, and the per-event reaction of `handle_connection` (a loop proved equal to `Run`) |
| `pagination.dfy` | `Pagination` | `effective_limit`, `cursor_oid`, `PaginatedResponse::new` / `with_cursor` |
| `opponents_model.dfy` | `OpponentsModel` | `Opponent::new`, `OpponentResponse::from` |
| `opponents_service.dfy` | `OpponentsService` | `OpponentServiceImpl` over a map from id to opponent |
| `ws_manager.dfy` | `WsManager` | the browser `WebSocketManager` as a class whose state is its timers, socket state and callback logs |
| `dashboard_store.dfy` | `DashboardStore` | the wizard store and its module-level temp-id counter |
| `auth_store.dfy` | `AuthStore` | the auth store's four fields and setters |

How inputs and state are represented:

- **Inputs standing in for the outside world.** The following are parameters:
  - the clock (`now`, `nowMs`, `nowSecs`);
  - uuids (`matchId`, `uuid`);
  - database-assigned ids (`newId`);
  - the anonymous token (`token`);
  - the token verifiers' verdicts;
  - repository failures (`storeError`);
  - the repository query of `find_by_creator`;
  - what the client's `select` wakes up on.
- **Repositories.** Tournaments and opponents are maps from id. Invites are a
  sequence in insertion order, and a lookup by code takes the first match.
- **Mutable state.** Code that updates state in place is a class with
  `modifies` clauses: the services, the broadcaster and the browser stores.
  The two loops of the backend are methods with loop invariants, each proved
  equal to a specification function: the pairing loop equals `Pairing`, and
  the vote scan and sum equal `ApplyVote`.

Behaviour worth knowing:

- **Ties go to opponent2.** `src/modules/tournaments/model.rs:339-343` declares
  opponent1 only with strictly more votes, so a tied match goes to opponent2.
  `TournamentModel.DecideTieBreak` states this rule.
- **Voting ignores status.** `vote_match` never reads the tournament status, so
  a Completed tournament still accepts votes on its last round.
  `TournamentService.VotingIgnoresStatus` states this.
- **`created_by`.** `Tournament::new` takes `created_by`
  (`src/modules/tournaments/model.rs:83-89`). The call in
  `src/modules/tournaments/service.rs:147-152` omits it. The model keeps it as
  a parameter of `NewTournament` and `CreateTournament`.
- **Created tournaments have no id.** `create_tournament` returns the
  tournament it built, before the database assigned an id
  (`src/modules/tournaments/service.rs:154-156`).
  `TournamentService.CreatedTournamentHasNoId` states this.
- **Invite expiry cannot overflow.** The hours are a `u32`, so for a
  present-day clock `(timestamp + hours * 3600) * 1000` stays below about
  1.6e16. That is far inside the i64 range, so the unbounded arithmetic of
  `TournamentService.InviteExpiry` computes the same value.

## Model

| member | source | states |
|---|---|---|
| Common.ObjectIdRoundTrip | src/common/pagination.rs:15-22 | parsing the text form of any id gives that id back |
| Common.OidToStringInjective | src/modules/tournaments/model.rs:323-337 | distinct ids have distinct text forms, so the vote map's keys tell the two opponents apart |
| Common.HexRoundTrip | src/common/pagination.rs:15-22 | hex decoding inverts hex encoding for every byte sequence |
| Common.TrimIsInfix | src/modules/opponents/model.rs:29-43 | `trim` yields a contiguous part of the input |
| Common.TrimHasNoOuterWhitespace | src/modules/opponents/model.rs:36-43 | a trimmed string neither starts nor ends with whitespace |
| Common.BlankIffAllWhitespace | src/modules/opponents/model.rs:29-34 | `trim().is_empty()` holds exactly when every character is whitespace |
| Common.TrimIdempotent | src/modules/opponents/model.rs:36-43 | trimming twice is trimming once |
| Common.FindFirst | src/modules/tournaments/service.rs:183-187 | the result is the first index satisfying the predicate, or none exists |
| TournamentModel.VoterIdRendering | src/modules/tournaments/model.rs:15-26 | `is_anonymous` holds exactly for `Anonymous`; an anonymous voter renders as its session; a registered voter renders as 24 hex digits that parse back to its id |
| TournamentModel.RenderingForgetsVariant | src/modules/tournaments/model.rs:16-21 | two different voters (registered `o`, anonymous session spelled like `o`) render identically |
| TournamentModel.TotalVotesAddVote | src/modules/tournaments/model.rs:323-328 | pushing one voter raises the summed length of all vote lists by exactly one |
| TournamentModel.ProcessVote | src/modules/tournaments/model.rs:307-350 | the loop over the vote lists and the summing loop compute exactly `ApplyVote`: the new match and the result |
| TournamentModel.RejectedVoteChangesNothing | src/modules/tournaments/model.rs:313-321 | a voter present in any list gets "User has already voted"; otherwise a target outside the pair gets "Invalid opponent"; these are the only errors, and a rejected vote leaves the match unchanged |
| TournamentModel.AcceptedVoteAddsOne | src/modules/tournaments/model.rs:323-326 | an accepted vote targets one of the pair; it appends the voter to that opponent's list, keeps every other list, raises the total by one and changes nothing else but the winner |
| TournamentModel.WinnerDeclaredWhenAllVoted | src/modules/tournaments/model.rs:328-349 | a winner is returned exactly when the total reaches the number of users; it is stored and is one of the pair; otherwise the winner field is untouched |
| TournamentModel.DecideTieBreak | src/modules/tournaments/model.rs:339-343 | opponent1 is declared only with strictly more votes; equal counts give opponent2 |
| TournamentModel.RepeatVoteRejected | src/modules/tournaments/model.rs:313-326 | after an accepted vote the same voter is rejected with nothing changed, whatever it votes for next |
| TournamentModel.TwoOneSplit | src/modules/tournaments/model.rs:328-346 | three voters splitting 2-1 on a fresh match: the first two votes declare nothing, the third declares the two-vote side |
| TournamentModel.AddVoteKeepsOneVote | src/modules/tournaments/model.rs:313-326 | a voter who has not voted can be added without anybody appearing twice |
| TournamentModel.ApplyVoteKeepsMatchOk | src/modules/tournaments/model.rs:307-350 | a participant's vote keeps the match invariant and never changes the match id or the pair |
| TournamentModel.MatchOkMoreUsers | src/modules/tournaments/service.rs:311-314 | adding users never breaks the match invariant |
| TournamentModel.NewTournament | src/modules/tournaments/model.rs:83-115 | status Active, no winner, no id, rounds = [initial round]; opponents mapped one to one in order; every user a registered voter; created = updated = now |
| TournamentModel.RenderVoters | src/modules/tournaments/model.rs:227-232 | every voter of a list rendered with `as_string`, order and length kept |
| TournamentModel.ToResponse | src/modules/tournaments/model.rs:193-247 | opponents, users, rounds and matches keep order and length; every voter id (user list and vote lists) is rendered with `as_string`; vote keys and all other fields carried over |
| TournamentService.CreateNextRound | src/modules/tournaments/service.rs:88-116 | the while loop builds exactly `Pairing(winners, round_number)` |
| TournamentService.CreateInitialRound | src/modules/tournaments/service.rs:58-86 | the initial round is `Pairing` of the opponents' ids numbered 1 |
| TournamentService.PairingShape | src/modules/tournaments/service.rs:58-116 | n ids give n/2 fresh matches pairing entry 2k with 2k+1, the last id as automatic winner exactly when n is odd, and the requested round number |
| TournamentService.PairingEntrants | src/modules/tournaments/service.rs:88-116 | reading both sides of every match and then the automatic winners gives the input back: each id enters exactly once, in order |
| TournamentService.MatchWinnersOfDecided | src/modules/tournaments/service.rs:122-126 | when every match is decided, the match winners are one per match in match order |
| TournamentService.CompleteRoundWinners | src/modules/tournaments/service.rs:118-127 | a complete round's winners are its match winners in order followed by its automatic winners |
| TournamentService.WinnersAreEntrants | src/modules/tournaments/service.rs:122-127 | when every declared winner is one of its pair, every round winner is an entrant of the round |
| TournamentService.BracketShrinks | src/modules/tournaments/service.rs:192-205 | a complete round of two or more ids puts through ceil(n/2) < n of them, so the bracket ends |
| TournamentService.TournamentWinnerIsOpponent | src/modules/tournaments/service.rs:196-200 | a completed tournament's winner is one of its opponents |
| TournamentService.CreateTournamentCheck | src/modules/tournaments/service.rs:136-144 | blank name, then fewer than 2 opponents, then no users, with the source's messages; no error exactly when all three pass |
| TournamentService.NewTournamentOk | src/modules/tournaments/service.rs:146-152 | a tournament built by `create_tournament` satisfies the tournament invariant |
| TournamentService.CreatedTournamentHasNoId | src/modules/tournaments/service.rs:146-156 | the tournament `create_tournament` returns is the one built, which has no id |
| TournamentService.FindMatch | src/modules/tournaments/service.rs:183-187 | the first match with the id, or none has it |
| TournamentService.AdvanceBracket | src/modules/tournaments/service.rs:192-209 | when a winner was just declared and the last round is complete: a single round winner completes the tournament with that winner, otherwise the next round (number + 1) pairs the round winners; `updated_at` becomes now in both cases; in every other case the tournament is unchanged |
| TournamentService.VoteErrors | src/modules/tournaments/service.rs:172-187 | a non-participant is refused before the match lookup; only the last round is searched |
| TournamentService.VoteFrame | src/modules/tournaments/service.rs:181-209 | a vote changes neither name, creator, opponents, users nor creation time; adds at most one round and never changes earlier ones; `updated_at` moves only to `now` and only when the round is complete after the vote; a vote that completes a previously incomplete round always moves it |
| TournamentService.VoteAdvancesBracket | src/modules/tournaments/service.rs:192-209 | a vote completing the round gives either Completed with the single winner and no new round, or round current+1 pairing the winners; otherwise no round, status or winner change |
| TournamentService.DecidingVoteAdvancesBracket | src/modules/tournaments/service.rs:192-209 | a vote that turns the round complete always declares a winner; a declaring vote that leaves the round complete completes the tournament with the single round winner (no new round, `updated_at` now) or appends round number + 1 pairing the round winners, status and winner kept, `updated_at` now |
| TournamentService.VotingIgnoresStatus | src/modules/tournaments/service.rs:160-217 | acceptance of a vote does not depend on the tournament status |
| TournamentService.ReplaceMatchKeepsBracketOk | src/modules/tournaments/service.rs:182-190 | writing a voted match back into the last round keeps the bracket invariant and the round's entrants |
| TournamentService.AppendKeepsBracketOk | src/modules/tournaments/service.rs:201-205 | appending after a complete round a round numbered one higher that pairs exactly its winners keeps the bracket invariant |
| TournamentService.AppendRoundKeepsBracketOk | src/modules/tournaments/service.rs:201-205 | appending the pairing of a complete last round's winners keeps the bracket invariant |
| TournamentService.VoteKeepsTournamentOk | src/modules/tournaments/service.rs:160-217 | `vote_match` keeps the tournament invariant: rounds numbered 1, 2, …; each later round pairs the previous round's winners; every match's winner is one of its pair; one vote per voter, voters are users; Completed exactly with a winner, the last round's single winner |
| TournamentService.MatchWinnersReplace | src/modules/tournaments/service.rs:122-127 | replacing a match by one with the same winner keeps the match winners |
| TournamentService.InviteExpiry | src/modules/tournaments/service.rs:237-241 | expiry defaults to now + 24 hours and is in whole seconds |
| TournamentService.CheckInvite | src/modules/tournaments/service.rs:274-297 | a blank display name, then an unknown code, fail first; on success the index is the first invite with the code, for this tournament, not expired, with a use left |
| TournamentService.CheckInviteOrder | src/modules/tournaments/service.rs:285-297 | for the found invite: wrong tournament, then expired (strictly after `expires_at`), then exhausted, then accepted |
| TournamentService.NewInviteAccepted | src/modules/tournaments/service.rs:245-297 | a freshly stored invite with an unused code is accepted exactly until its expiry instant, when it allows a use |
| TournamentService.JoinKeepsTournamentOk | src/modules/tournaments/service.rs:311-314 | appending a user keeps the tournament invariant |
| TournamentService.Spend | src/modules/tournaments/service.rs:321-324 | one more use, still within the limit, nothing else changed |
| TournamentService.JoinFailureChangesNothing | src/modules/tournaments/service.rs:274-309 | a failed invite check, a missing tournament or a failed token leaves both collections as they were and fails |
| TournamentService.JoinOutcomeOnFail | src/modules/tournaments/service.rs:274-309 | the error each early failure of `join_tournament` returns |
| TournamentService.JoinOutcomeOnPass | src/modules/tournaments/service.rs:311-332 | once every check has passed: the user is appended; an invite without id then fails; otherwise its use is counted and the token returned |
| TournamentService.AddUserEffect | src/modules/tournaments/service.rs:311-314 | appending a user makes that voter a participant and touches no other tournament |
| TournamentService.JoinAddsParticipant | src/modules/tournaments/service.rs:311-319 | a successful join adds exactly one `Anonymous(session)` user to that tournament and changes nothing else |
| TournamentService.JoinSpendsOneUse | src/modules/tournaments/service.rs:321-324 | a successful join spends one use of the first invite with the code, within its limit; no other invite changes |
| TournamentService.TournamentServiceImpl.CreateTournament | src/modules/tournaments/service.rs:132-158 | errors in check order with nothing stored; otherwise round 1 is the pairing, the tournament is stored under the new id and returned without id; the stored tournament satisfies the invariant |
| TournamentService.TournamentServiceImpl.Insert | src/modules/tournaments/service.rs:154-157 | the repository's create under a fresh id |
| TournamentService.TournamentServiceImpl.VoteMatch | src/modules/tournaments/service.rs:160-217 | "Tournament not found" for a missing id; otherwise the result is `VoteOutcome` and the stored tournament is replaced only on success; the invariant is kept |
| TournamentService.TournamentServiceImpl.Update | src/modules/tournaments/service.rs:211-214 | the repository's update of a stored tournament |
| TournamentService.TournamentServiceImpl.IncrementUses | src/modules/tournaments/service.rs:321-324 | the invite repository's `increment_uses`: exactly that invite spends one use |
| TournamentService.TournamentServiceImpl.CreateInvite | src/modules/tournaments/service.rs:219-267 | not found, then not Active; otherwise 10 uses and 24 hours by default, an 8-character code cut from the uuid, 0 uses, stored last |
| TournamentService.TournamentServiceImpl.ValidateJoin | src/modules/tournaments/service.rs:274-297 | the opening checks of `join_tournament` compute exactly `CheckInvite` |
| TournamentService.TournamentServiceImpl.JoinTournament | src/modules/tournaments/service.rs:269-333 | the result and both collections are `JoinOutcome` of the old state; the invariant is kept |
| TournamentService.TournamentServiceImpl.Admit | src/modules/tournaments/service.rs:311-332 | the user is appended and written; an invite without id then fails, otherwise one use is counted and the token is returned |
| Broadcaster.TournamentBroadcaster.constructor | src/modules/websocket/broadcaster.rs:14-18 | no rooms: `room_count() == 0` |
| Broadcaster.TournamentBroadcaster.SubscriberCount | src/modules/websocket/broadcaster.rs:38-43 | 0 for an unknown room, otherwise the number of live receivers |
| Broadcaster.TournamentBroadcaster.RoomCount | src/modules/websocket/broadcaster.rs:45-47 | the number of rooms |
| Broadcaster.TournamentBroadcaster.Subscribe | src/modules/websocket/broadcaster.rs:20-26 | creates the room if missing; adds one fresh receiver with an empty queue; that room's count rises by exactly one and every other room's count is unchanged |
| Broadcaster.TournamentBroadcaster.Broadcast | src/modules/websocket/broadcaster.rs:28-32 | appends the event to the queue of every receiver of the room and of no other; a missing room stays missing |
| Broadcaster.TournamentBroadcaster.Drop | src/modules/websocket/broadcaster.rs:38-43 | the receiver leaves its room, which stays, and its queue is discarded; no other receiver changes |
| Broadcaster.TournamentBroadcaster.TryRecv | src/modules/websocket/controller.rs:47-57 | a receiver takes its events oldest first |
| Broadcaster.TournamentBroadcaster.Cleanup | src/modules/websocket/broadcaster.rs:34-36 | keeps exactly the rooms with a live receiver, each as it was |
| Pagination.EffectiveLimit | src/common/pagination.rs:24-28 | 20 when absent, otherwise the limit clamped to [1, 100] |
| Pagination.CursorOid | src/common/pagination.rs:15-22 | no cursor is `Ok(None)`; an unparsable cursor is "Invalid cursor"; otherwise the parsed id |
| Pagination.CursorRoundTrip | src/common/pagination.rs:15-22 | a cursor handed out as an id's text is read back as that id |
| Pagination.KeptRows | src/common/pagination.rs:39-44 | with more rows than the limit, exactly the last row is dropped; otherwise all are kept |
| Pagination.New | src/common/pagination.rs:39-55 | `has_more` exactly when there are more rows than the limit; one row dropped then; no cursor |
| Pagination.WithCursor | src/common/pagination.rs:57-73 | as `new`, and the cursor is `cursor_fn` of the last row kept exactly when `has_more` and a row is kept |
| Pagination.PageOfOverfetch | src/common/pagination.rs:57-73 | a fetch of at most limit+1 rows gives a prefix of at most `limit` rows, more exactly when the fetch was full, and the cursor then names the last row kept, `data[limit-1]` |
| Pagination.NoCursorWhenNothingKept | src/common/pagination.rs:57-67 | a limit of 0 or less on one row reports more rows but gives no cursor |
| OpponentsModel.NewOpponent | src/modules/opponents/model.rs:22-47 | blank name first, then blank URL; accepted exactly when neither is blank; name and URL stored trimmed; no id, no update time; creator and image id passed through |
| OpponentsModel.TrimmedNonBlank | src/modules/opponents/model.rs:36-43 | a non-blank string trims to a non-empty string with no outer whitespace that trimming keeps |
| OpponentsModel.NewOpponentIsTrimmed | src/modules/opponents/model.rs:36-43 | a created opponent's name and URL are non-empty and already trimmed |
| OpponentsModel.ToResponse | src/modules/opponents/model.rs:85-99 | every field carried over: the response converts back to the stored opponent |
| OpponentsService.FindByCreator | src/modules/opponents/service.rs:67-84 | a bad cursor is BadRequest; a query failure is DatabaseError; otherwise the rows fetched with the effective limit, paged by `with_cursor` |
| OpponentsService.OpponentCursorRoundTrip | src/modules/opponents/service.rs:81-83 | the next-page cursor of a stored opponent is read back as its id |
| OpponentsService.Updated | src/modules/opponents/service.rs:105-116 | the trimmed new name and new image only when given; update time set; id, creator and creation time kept |
| OpponentsService.UpdatedProperties | src/modules/opponents/service.rs:105-116 | an empty update only moves the update time; re-giving the current trimmed name and image is the same; a given name is stored trimmed |
| OpponentsService.OpponentServiceImpl.CreateOpponent | src/modules/opponents/service.rs:43-58 | a model error is a ValidationError with its message and nothing stored; a store failure is a DatabaseError; otherwise stored and returned |
| OpponentsService.OpponentServiceImpl.UpdateOpponent | src/modules/opponents/service.rs:86-124 | NotFound, then Forbidden for another creator, then ValidationError for a blank name; a failed write is a DatabaseError; nothing is written on any error; otherwise `Updated` is written and returned |
| OpponentsService.OpponentServiceImpl.DeleteOpponent | src/modules/opponents/service.rs:126-144 | NotFound, then Forbidden; deleted exactly when the caller is the creator |
| WsController.ValidateToken | src/modules/websocket/controller.rs:89-102 | accepted exactly when the regular verifier gives type "access" or the anonymous verifier accepts; otherwise "Invalid token" |
| WsController.ValidateTokenCases | src/modules/websocket/controller.rs:93-101 | an access token passes; a non-access regular token passes only with the anonymous verifier; neither is refused |
| WsController.TournamentWs | src/modules/websocket/controller.rs:20-37 | a malformed id is BadRequest before the token is looked at, then Unauthorized; otherwise one subscription to that room; nothing changes on refusal |
| WsController.React | src/modules/websocket/controller.rs:45-83 | a failed send ends the loop; without a send, the loop ends exactly on a closed room, a close frame or end of stream |
| WsController.ReactionTable | src/modules/websocket/controller.rs:47-82 | lag is skipped; an event is sent as JSON; ping text gets one pong text and other text is ignored; a control ping is echoed; binary data, pongs, raw frames and read errors are ignored; the heartbeat sends an empty ping |
| WsController.Run | src/modules/websocket/controller.rs:45-84 | the steps consumed never exceed those given, with at most one frame each |
| WsController.HandleConnection | src/modules/websocket/controller.rs:39-87 | the loop sends exactly `Run`'s frames and stops where `Run` stops |
| WsController.RunStopsAtFirstStop | src/modules/websocket/controller.rs:45-84 | the loop ends at the first step whose reaction stops it, or after every step |
| WsManager.ReconnectDelayShape | web/app/src/services/torvi/websocket/WebSocketManager.ts:101-111 | the first retry waits 1000 ms; delays stay in [1000, 30000], never shrink, double up to the cap and equal 30000 from the sixth attempt |
| WsManager.WebSocketManager.constructor | web/app/src/services/torvi/websocket/WebSocketManager.ts:13-33 | no socket, no timers, zero attempts, not closed |
| WsManager.WebSocketManager.Connect | web/app/src/services/torvi/websocket/WebSocketManager.ts:35-39 | nothing once closed; otherwise a new connecting socket |
| WsManager.WebSocketManager.OnOpen | web/app/src/services/torvi/websocket/WebSocketManager.ts:41-45 | attempts reset to 0, connected reported, heartbeat started |
| WsManager.WebSocketManager.OnMessage | web/app/src/services/torvi/websocket/WebSocketManager.ts:47-57 | only a message that validates as an event is forwarded; nothing else changes |
| WsManager.WebSocketManager.OnClose | web/app/src/services/torvi/websocket/WebSocketManager.ts:59-63 | with no current socket nothing happens; otherwise the socket is closed, disconnected reported, heartbeat stopped, and one reconnect scheduled at `ReconnectDelay(attempts)` with the attempt counted |
| WsManager.WebSocketManager.OnError | web/app/src/services/torvi/websocket/WebSocketManager.ts:65-67 | the current socket, if any, starts closing unless already closed; with no socket (after `disconnect`) nothing happens; nothing else changes |
| WsManager.WebSocketManager.Disconnect | web/app/src/services/torvi/websocket/WebSocketManager.ts:70-83 | closed for good: no socket, no heartbeat, no reconnect timer, disconnected reported |
| WsManager.WebSocketManager.HeartbeatTick | web/app/src/services/torvi/websocket/WebSocketManager.ts:87-91 | a ping goes out only on an open socket |
| WsManager.WebSocketManager.ReconnectTimerFires | web/app/src/services/torvi/websocket/WebSocketManager.ts:108-110 | the timer is spent and a new socket is connecting |
| WsManager.WebSocketManager.StartHeartbeat | web/app/src/services/torvi/websocket/WebSocketManager.ts:85-92 | the heartbeat runs; nothing else changes |
| WsManager.WebSocketManager.StopHeartbeat | web/app/src/services/torvi/websocket/WebSocketManager.ts:94-99 | the heartbeat stops; nothing else changes |
| WsManager.WebSocketManager.ScheduleReconnect | web/app/src/services/torvi/websocket/WebSocketManager.ts:101-111 | nothing once closed; otherwise a timer of `ReconnectDelay(attempts)` and one more attempt |
| DashboardStore.DecimalRoundTrip | web/app/src/modules/Dashboard/store/dashboardStore.ts:22-23 | the decimal rendering of the counter reads back as the counter |
| DashboardStore.TempIdInjective | web/app/src/modules/Dashboard/store/dashboardStore.ts:22-23 | different counter values give different temp ids |
| DashboardStore.NextTempIdFresh | web/app/src/modules/Dashboard/store/dashboardStore.ts:22-23 | the next temp id was never handed out before |
| DashboardStore.WithoutMembers | web/app/src/modules/Dashboard/store/dashboardStore.ts:44-49 | after removal no entry has the id and every entry with another id remains |
| DashboardStore.WithoutAppend | web/app/src/modules/Dashboard/store/dashboardStore.ts:44-49 | removal distributes over concatenation, so survivors keep their order |
| DashboardStore.WithoutAbsent | web/app/src/modules/Dashboard/store/dashboardStore.ts:44-49 | removing an absent id leaves the list as it is |
| DashboardStore.MergeIntoProperties | web/app/src/modules/Dashboard/store/dashboardStore.ts:51-56 | length kept; entries with another id unchanged; matching entries get exactly the given fields; no match is a no-op |
| DashboardStore.DashboardUIState.constructor | web/app/src/modules/Dashboard/store/dashboardStore.ts:32-35 | step 1, empty name, two empty opponents `temp-1` and `temp-2` |
| DashboardStore.DashboardUIState.CreateEmptyOpponent | web/app/src/modules/Dashboard/store/dashboardStore.ts:25-30 | an empty opponent under a never-issued id; the counter rises by one |
| DashboardStore.DashboardUIState.SetWizardStep | web/app/src/modules/Dashboard/store/dashboardStore.ts:37 | only the step changes |
| DashboardStore.DashboardUIState.AddOpponent | web/app/src/modules/Dashboard/store/dashboardStore.ts:39-42 | one fresh empty opponent appended, existing entries kept |
| DashboardStore.DashboardUIState.RemoveOpponent | web/app/src/modules/Dashboard/store/dashboardStore.ts:44-49 | the list becomes `Without` the id; nothing else changes |
| DashboardStore.DashboardUIState.UpdateOpponent | web/app/src/modules/Dashboard/store/dashboardStore.ts:51-56 | the list becomes `MergeInto`; nothing else changes |
| DashboardStore.DashboardUIState.SetTournamentName | web/app/src/modules/Dashboard/store/dashboardStore.ts:58 | only the name changes |
| DashboardStore.DashboardUIState.ResetWizard | web/app/src/modules/Dashboard/store/dashboardStore.ts:60-65 | step 1, empty name, two new empty opponents with distinct never-issued ids |
| AuthStore.AuthState.constructor | web/app/src/stores/authStore.ts:19-22 | both tokens and the user null, not authenticated |
| AuthStore.AuthState.SetAuth | web/app/src/stores/authStore.ts:24-31 | both tokens and the user set; authenticated |
| AuthStore.AuthState.SetTokens | web/app/src/stores/authStore.ts:33-38 | only the two tokens change |
| AuthStore.AuthState.SetUser | web/app/src/stores/authStore.ts:40-42 | only the user changes |
| AuthStore.AuthState.Logout | web/app/src/stores/authStore.ts:44-51 | back to the initial signed-out state |

## Left out

- **Persistence.**
  - The database is not modelled.
  - Repository failures are modelled only where a parameter selects them:
    `storeError` in `CreateOpponent` and `UpdateOpponent`, and the `query`
    result in `FindByCreator`.
  - The "Error finding/creating/updating …" failures of the tournament and
    invite repositories, and the `find_by_id` failures of the opponent
    service, are not modelled.
  - The invite repository's implementation is not part of this model. It is
    modelled as first-match lookup by code and increment by position.
- **Stored ids.** Database-assigned ids are fresh inputs (`newId`).
  - `TournamentService.TournamentServiceImpl.CreateInvite` stores the invite
    with that id directly.
  - `TournamentService.TournamentServiceImpl.JoinTournament` still models the
    "Invite must have an id" failure, for invites stored without one.
- **Concurrency.**
  - Not modelled: `tokio::select!` scheduling, the concurrent map of rooms,
    the broadcast channel's capacity of 100 with lagging receivers, and the
    read-modify-write races of `vote_match` and `join_tournament`.
  - Every operation runs alone.
  - A lag is only a possible input of the connection loop.
- **Broadcaster.TournamentBroadcaster.TryRecv:** the receiver's queue is
  unbounded. Events lost at channel capacity are not modelled.
- **Authentication and encoding.** These are abstract inputs:
  - JWT signing and verification (`ValidateToken` takes the verifiers'
    verdicts);
  - anonymous token generation (`token`);
  - uuids, which become match ids and invite codes;
  - the wall clock;
  - JSON (de)serialisation and zod validation (`OnMessage` takes the parsed
    event or `None`, `React` takes an `isPing` predicate).
- **Integer widths.** Round numbers are unbounded, so i32 overflow of
  `round_number + 1` is not modelled.
  - `rounds.len() - 1` on an empty round list cannot happen: the tournament
    invariant keeps at least one round.
  - `u32` use counts are kept within range by the use-limit check.
- **Response conversion.**
  - `TournamentModel.ToResponse`: the `unwrap` of the id
    (`src/modules/tournaments/model.rs:196`) is a precondition, so its panic on
    an id-less tournament is not modelled.
  - The create endpoint (`src/modules/tournaments/controller.rs:20-25`) passes
    `create_tournament`'s result, which has no id
    (`TournamentService.CreatedTournamentHasNoId`), to that conversion, and
    would panic there.
- **Clock readings.**
  - `TournamentService.TournamentServiceImpl.CreateTournament` and
    `TournamentService.Advance` use one `now` for several readings.
  - The source reads the clock separately: once for the match dates of a new
    round (`src/modules/tournaments/service.rs:61`, `91`), once for the
    tournament's timestamps (`src/modules/tournaments/model.rs:90`), and once
    for the `updated_at` of a vote (`src/modules/tournaments/service.rs:207`).
  - The model therefore takes those instants to be equal.
- **Opponent deletion.**
  - `OpponentsService.OpponentServiceImpl.DeleteOpponent`: the repository's
    "Opponent not found" when nothing was deleted (a concurrent delete) and
    its database errors are not modelled.
- **WebSocket manager.**
  - `WsManager.WebSocketManager.OnClose` models the close event of the
    current socket only.
  - The events of a socket already replaced by `connect` are not modelled.
  - `setInterval`/`setTimeout` are represented by their pending state, and a
    firing is an explicit method.
- **Frontend stores.**
  - The zustand `persist` middleware (local storage) and selectors are not
    modelled.
  - In `DashboardStore.DashboardUIState.UpdateOpponent`, a field given as
    `undefined` in a `Partial` update is treated like an absent one, so
    `OpponentUpdate` has no way to express an explicit `undefined`.
- **Out of scope.** Image processing and upload, the HTTP controllers and
  guards, configuration and middleware, the React components, and the
  tournament operations outside the core (listing, pausing, deleting).
