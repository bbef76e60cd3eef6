/** The messages of the live tournament channel: what the server pushes to
    every client watching a tournament, and what a client may send. */
module WebsocketModel {
  import opened Common

  /** Vote counts keyed by the text form of an opponent id. */
  type VoteCounts = map<string, nat>

  /** A server-pushed event; on the wire each is a JSON object whose `type`
      field names the variant in snake case. */
  datatype TournamentEvent =
    | VoteCast(matchId: string, voteCounts: VoteCounts, totalNeeded: nat)
    | MatchCompleted(matchId: string, winnerId: ObjectId, finalVotes: VoteCounts)
    | RoundCompleted(roundNumber: int, nextRoundMatches: nat)
    | TournamentCompleted(winnerId: ObjectId)
    | ParticipantJoined(displayName: string, participantCount: nat)
    | TournamentPaused
    | TournamentResumed
    | Error(message: string)

  /** The only message a client sends: `{"type":"ping"}`. */
  datatype ClientMessage = Ping
}
