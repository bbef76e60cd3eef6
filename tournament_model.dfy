/** The tournament aggregate: voter identities, matches with their vote maps,
    rounds, tournaments, invites, the one-vote procedure of a match, the
    construction of a new tournament and its response rendering. */
module TournamentModel {
  import opened Common

  // ---------------------------------------------------------------------------
  // Voter identities
  // ---------------------------------------------------------------------------

  /** Who voted or joined: an account id or an anonymous session id. */
  datatype VoterId = Registered(id: ObjectId) | Anonymous(session: string)

  /** `VoterId::as_string`: the account id's text form, or the session id. */
  function AsString(v: VoterId): (s: string)
  {
    match v
    case Registered(id) => OidToString(id)
    case Anonymous(session) => session
  }

  /** `VoterId::is_anonymous` */
  predicate IsAnonymous(v: VoterId)
  {
    match v
    case Registered(_) => false
    case Anonymous(_) => true
  }

  /** The rendering keeps what each variant carries: a registered voter's text
      parses back to its account id, an anonymous voter's text is its session. */
  lemma VoterIdRendering(v: VoterId)
    ensures IsAnonymous(v) <==> v.Anonymous?
    ensures v.Anonymous? ==> AsString(v) == v.session
    ensures v.Registered? ==> |AsString(v)| == 24 && ParseObjectId(AsString(v)) == Some(v.id)
  {
    if v.Registered? {
      ObjectIdRoundTrip(v.id);
    }
  }

  /** The rendering does not keep the variant: a registered voter and an
      anonymous session whose id spells the same hex text render alike. */
  lemma RenderingForgetsVariant(o: ObjectId)
    ensures Registered(o) != Anonymous(OidToString(o))
    ensures AsString(Registered(o)) == AsString(Anonymous(OidToString(o)))
  {
  }

  // ---------------------------------------------------------------------------
  // Entities
  // ---------------------------------------------------------------------------

  datatype TournamentOpponent = TournamentOpponent(opponentId: ObjectId, url: string)

  datatype TournamentUser = TournamentUser(voterId: VoterId, name: string)

  /** Votes of one match, keyed by the text form of the opponent voted for. */
  type VoteMap = map<string, seq<VoterId>>

  datatype Match = Match(
    matchId: string,
    opponent1: ObjectId,
    opponent2: ObjectId,
    votes: VoteMap,
    winner: Option<ObjectId>,
    matchDate: int)

  datatype Round = Round(roundNumber: int, matches: seq<Match>, automaticWinners: seq<ObjectId>)

  datatype TournamentStatus = Active | Paused | Completed

  datatype Tournament = Tournament(
    id: Option<ObjectId>,
    name: string,
    createdBy: ObjectId,
    opponents: seq<TournamentOpponent>,
    users: seq<TournamentUser>,
    rounds: seq<Round>,
    status: TournamentStatus,
    winner: Option<ObjectId>,
    createdAt: int,
    updatedAt: int)

  datatype OpponentDto = OpponentDto(id: ObjectId, url: string)

  datatype UserDto = UserDto(id: ObjectId, name: string)

  datatype TournamentInvite = TournamentInvite(
    id: Option<ObjectId>,
    code: string,
    tournamentId: ObjectId,
    maxUses: U32,
    currentUses: U32,
    expiresAt: int,
    createdBy: ObjectId,
    createdAt: int)

  datatype InviteResponse = InviteResponse(code: string, tournamentId: ObjectId, maxUses: U32, expiresAt: int)

  datatype JoinTournamentResponse = JoinTournamentResponse(
    accessToken: string,
    tokenType: string,
    sessionId: string,
    displayName: string,
    tournamentId: ObjectId)

  /** Whether `v` is among the tournament's users (`users.iter().any(..)`). */
  predicate IsParticipant(users: seq<TournamentUser>, v: VoterId)
  {
    exists u :: u in users && u.voterId == v
  }

  // ---------------------------------------------------------------------------
  // Vote maps
  // ---------------------------------------------------------------------------

  /** Sum of the lengths of the lists stored under `ks`. */
  ghost function SumLens(v: VoteMap, ks: set<string>): nat
    requires ks <= v.Keys
    decreases ks
  {
    if ks == {} then 0 else var k :| k in ks; |v[k]| + SumLens(v, ks - {k})
  }

  /** The sum does not depend on which key is taken first. */
  lemma {:induction false} SumLensPick(v: VoteMap, ks: set<string>, j: string)
    requires ks <= v.Keys && j in ks
    ensures SumLens(v, ks) == |v[j]| + SumLens(v, ks - {j})
    decreases ks
  {
    var k :| k in ks && SumLens(v, ks) == |v[k]| + SumLens(v, ks - {k});
    if k != j {
      SumLensPick(v, ks - {k}, j);
      SumLensPick(v, ks - {j}, k);
      assert ks - {k} - {j} == ks - {j} - {k};
    }
  }

  /** Two maps whose lists under `ks` have the same lengths have the same sum. */
  lemma {:induction false} SumLensFrame(v: VoteMap, w: VoteMap, ks: set<string>)
    requires ks <= v.Keys && ks <= w.Keys
    requires forall k :: k in ks ==> |v[k]| == |w[k]|
    ensures SumLens(v, ks) == SumLens(w, ks)
    decreases ks
  {
    if ks != {} {
      var j :| j in ks;
      SumLensPick(v, ks, j);
      SumLensPick(w, ks, j);
      SumLensFrame(v, w, ks - {j});
    }
  }

  /** Total number of votes cast in a match (`votes.values().map(len).sum()`). */
  ghost function TotalVotes(v: VoteMap): nat
  {
    SumLens(v, v.Keys)
  }

  /** Votes received by `o` (`votes.get(o.to_string()).map_or(0, len)`). */
  function CountFor(v: VoteMap, o: ObjectId): nat
  {
    var key := OidToString(o);
    if key in v then |v[key]| else 0
  }

  /** Whether `voter` appears in any list of the map. */
  predicate HasVoted(v: VoteMap, voter: VoterId)
  {
    exists k :: k in v && voter in v[k]
  }

  /** `votes.entry(key).or_insert_with(Vec::new).push(voter)` */
  function AddVote(v: VoteMap, key: string, voter: VoterId): VoteMap
  {
    v[key := (if key in v then v[key] else []) + [voter]]
  }

  /** Adding one vote raises the total by exactly one. */
  lemma TotalVotesAddVote(v: VoteMap, key: string, voter: VoterId)
    ensures TotalVotes(AddVote(v, key, voter)) == TotalVotes(v) + 1
  {
    var w := AddVote(v, key, voter);
    if key in v {
      assert w.Keys == v.Keys;
      SumLensPick(w, w.Keys, key);
      SumLensPick(v, v.Keys, key);
      SumLensFrame(w, v, v.Keys - {key});
    } else {
      assert w.Keys == v.Keys + {key};
      SumLensPick(w, w.Keys, key);
      assert w.Keys - {key} == v.Keys;
      SumLensFrame(w, v, v.Keys);
    }
  }

  lemma TotalVotesEmpty()
    ensures TotalVotes(map[]) == 0
  {
  }

  /** Every voter appears at most once across all the lists of a match. */
  ghost predicate OneVotePerVoter(v: VoteMap)
  {
    forall k1, k2, i, j ::
      k1 in v && k2 in v && 0 <= i < |v[k1]| && 0 <= j < |v[k2]| && v[k1][i] == v[k2][j]
      ==> k1 == k2 && i == j
  }

  // ---------------------------------------------------------------------------
  // Match::process_vote
  // ---------------------------------------------------------------------------

  const AlreadyVotedError: string := "User has already voted"
  const InvalidOpponentError: string := "Invalid opponent"

  /** The winner once everybody has voted: opponent1 only with strictly more
      votes, so a tie goes to opponent2. */
  function Decide(m: Match, v: VoteMap): ObjectId
  {
    if CountFor(v, m.opponent1) > CountFor(v, m.opponent2) then m.opponent1 else m.opponent2
  }

  /** What `process_vote` does to a match, and what it returns, when the
      tournament has `userCount` users. */
  ghost function ApplyVote(m: Match, voter: VoterId, votedFor: ObjectId, userCount: nat)
    : (Match, Result<Option<ObjectId>, string>)
  {
    if HasVoted(m.votes, voter) then (m, Err(AlreadyVotedError))
    else if votedFor != m.opponent1 && votedFor != m.opponent2 then (m, Err(InvalidOpponentError))
    else
      var votes := AddVote(m.votes, OidToString(votedFor), voter);
      if TotalVotes(votes) == userCount then
        var w := Decide(m, votes);
        (m.(votes := votes, winner := Some(w)), Ok(Some(w)))
      else
        (m.(votes := votes), Ok(None))
  }

  /** `Match::process_vote`: scans every vote list for the voter, checks the
      target, records the vote, sums all lists and declares the winner once
      the sum reaches the number of users. The updated match is returned. */
  method ProcessVote(m: Match, voter: VoterId, votedFor: ObjectId, allUsers: seq<TournamentUser>)
    returns (m': Match, r: Result<Option<ObjectId>, string>)
    ensures (m', r) == ApplyVote(m, voter, votedFor, |allUsers|)
  {
    var keys := m.votes.Keys;
    while keys != {}
      invariant keys <= m.votes.Keys
      invariant forall k :: k in m.votes && k !in keys ==> voter !in m.votes[k]
      decreases keys
    {
      var k :| k in keys;
      if voter in m.votes[k] {
        return m, Err(AlreadyVotedError);
      }
      keys := keys - {k};
    }

    if votedFor != m.opponent1 && votedFor != m.opponent2 {
      return m, Err(InvalidOpponentError);
    }

    var key := OidToString(votedFor);
    var list := if key in m.votes then m.votes[key] else [];
    var votes := m.votes[key := list + [voter]];
    m' := m.(votes := votes);

    var total := 0;
    keys := votes.Keys;
    ghost var seen: set<string> := {};
    while keys != {}
      invariant keys !! seen && keys + seen == votes.Keys
      invariant total == SumLens(votes, seen)
      decreases keys
    {
      var k :| k in keys;
      SumLensPick(votes, seen + {k}, k);
      assert seen + {k} - {k} == seen;
      total := total + |votes[k]|;
      keys := keys - {k};
      seen := seen + {k};
    }
    assert seen == votes.Keys;

    if total == |allUsers| {
      var votes1 := if OidToString(m.opponent1) in votes then |votes[OidToString(m.opponent1)]| else 0;
      var votes2 := if OidToString(m.opponent2) in votes then |votes[OidToString(m.opponent2)]| else 0;
      var winner := if votes1 > votes2 then m.opponent1 else m.opponent2;
      m' := m'.(winner := Some(winner));
      r := Ok(Some(winner));
    } else {
      r := Ok(None);
    }
  }

  // ---------------------------------------------------------------------------
  // Properties of one vote
  // ---------------------------------------------------------------------------

  /** A rejected vote leaves the match exactly as it was; the duplicate check
      comes before the target check. */
  lemma RejectedVoteChangesNothing(m: Match, voter: VoterId, votedFor: ObjectId, n: nat)
    ensures var (m', r) := ApplyVote(m, voter, votedFor, n);
      r.Err? ==> m' == m
    ensures HasVoted(m.votes, voter) ==> ApplyVote(m, voter, votedFor, n).1 == Err(AlreadyVotedError)
    ensures !HasVoted(m.votes, voter) && votedFor != m.opponent1 && votedFor != m.opponent2
      ==> ApplyVote(m, voter, votedFor, n).1 == Err(InvalidOpponentError)
    ensures ApplyVote(m, voter, votedFor, n).1.Err?
      <==> HasVoted(m.votes, voter) || (votedFor != m.opponent1 && votedFor != m.opponent2)
  {
  }

  /** An accepted vote appends the voter to the list of the opponent voted
      for, raises the total by one, and touches nothing else but the winner. */
  lemma AcceptedVoteAddsOne(m: Match, voter: VoterId, votedFor: ObjectId, n: nat)
    requires ApplyVote(m, voter, votedFor, n).1.Ok?
    ensures var m' := ApplyVote(m, voter, votedFor, n).0;
      var key := OidToString(votedFor);
      && (votedFor == m.opponent1 || votedFor == m.opponent2)
      && key in m'.votes
      && m'.votes[key] == (if key in m.votes then m.votes[key] else []) + [voter]
      && m'.votes.Keys == m.votes.Keys + {key}
      && (forall k :: k in m.votes && k != key ==> m'.votes[k] == m.votes[k])
      && TotalVotes(m'.votes) == TotalVotes(m.votes) + 1
      && m' == m.(votes := m'.votes, winner := m'.winner)
  {
    TotalVotesAddVote(m.votes, OidToString(votedFor), voter);
  }

  /** A winner is declared exactly when the accepted vote brings the total to
      the number of users; it is one of the pair and is stored in the match.
      Otherwise the match's winner is left as it was. */
  lemma WinnerDeclaredWhenAllVoted(m: Match, voter: VoterId, votedFor: ObjectId, n: nat)
    requires ApplyVote(m, voter, votedFor, n).1.Ok?
    ensures var (m', r) := ApplyVote(m, voter, votedFor, n);
      && (r.value.Some? <==> TotalVotes(m'.votes) == n)
      && (r.value.Some? ==> m'.winner == r.value
                            && (r.value.value == m.opponent1 || r.value.value == m.opponent2))
      && (r.value.None? ==> m'.winner == m.winner)
  {
  }

  /** The tie-break: opponent1 wins only with strictly more votes. */
  lemma DecideTieBreak(m: Match, v: VoteMap)
    ensures Decide(m, v) == m.opponent1 <==> CountFor(v, m.opponent1) > CountFor(v, m.opponent2) || m.opponent1 == m.opponent2
    ensures CountFor(v, m.opponent1) == CountFor(v, m.opponent2) ==> Decide(m, v) == m.opponent2
  {
  }

  /** After an accepted vote the same voter is turned away, whatever it votes
      for next and however many users there are by then. */
  lemma RepeatVoteRejected(m: Match, voter: VoterId, votedFor: ObjectId, n: nat, again: ObjectId, n2: nat)
    requires ApplyVote(m, voter, votedFor, n).1.Ok?
    ensures var m' := ApplyVote(m, voter, votedFor, n).0;
      ApplyVote(m', voter, again, n2) == (m', Err(AlreadyVotedError))
  {
    var m' := ApplyVote(m, voter, votedFor, n).0;
    var key := OidToString(votedFor);
    assert m'.votes[key][|m'.votes[key]| - 1] == voter;
    assert HasVoted(m'.votes, voter);
  }

  /** The scenario of three voters splitting 2-1 on a fresh match: the side
      with two votes wins, and only the third vote declares it. */
  lemma TwoOneSplit(m: Match, a: VoterId, b: VoterId, c: VoterId)
    requires m.votes == map[] && m.opponent1 != m.opponent2
    requires a != b && b != c && a != c
    ensures var (m1, r1) := ApplyVote(m, a, m.opponent1, 3);
      var (m2, r2) := ApplyVote(m1, b, m.opponent1, 3);
      var (m3, r3) := ApplyVote(m2, c, m.opponent2, 3);
      r1 == Ok(None) && r2 == Ok(None) && r3 == Ok(Some(m.opponent1)) && m3.winner == Some(m.opponent1)
  {
    var k1, k2 := OidToString(m.opponent1), OidToString(m.opponent2);
    OidToStringInjective(m.opponent1, m.opponent2);
    TotalVotesEmpty();
    var v1 := AddVote(m.votes, k1, a);
    TotalVotesAddVote(m.votes, k1, a);
    assert !HasVoted(m.votes, a);
    var m1 := ApplyVote(m, a, m.opponent1, 3).0;
    assert m1.votes == v1;
    assert !HasVoted(v1, b);
    var v2 := AddVote(v1, k1, b);
    TotalVotesAddVote(v1, k1, b);
    var m2 := ApplyVote(m1, b, m.opponent1, 3).0;
    assert m2.votes == v2;
    assert !HasVoted(v2, c);
    var v3 := AddVote(v2, k2, c);
    TotalVotesAddVote(v2, k2, c);
    assert CountFor(v3, m.opponent1) == 2 && CountFor(v3, m.opponent2) == 1;
  }

  // ---------------------------------------------------------------------------
  // Match invariant
  // ---------------------------------------------------------------------------

  /** What holds of every match the system builds and votes on: the winner is
      one of the pair, only the pair's keys occur, every voter is a user, and
      nobody appears twice. */
  ghost predicate MatchOk(m: Match, users: seq<TournamentUser>)
  {
    && (m.winner.Some? ==> m.winner.value == m.opponent1 || m.winner.value == m.opponent2)
    && (forall k :: k in m.votes ==> k == OidToString(m.opponent1) || k == OidToString(m.opponent2))
    && (forall k, i :: k in m.votes && 0 <= i < |m.votes[k]| ==> IsParticipant(users, m.votes[k][i]))
    && OneVotePerVoter(m.votes)
  }

  /** A vote by a participant keeps the match invariant and never changes the
      pairing or the match id. */
  lemma ApplyVoteKeepsMatchOk(m: Match, voter: VoterId, votedFor: ObjectId, users: seq<TournamentUser>)
    requires MatchOk(m, users) && IsParticipant(users, voter)
    ensures var m' := ApplyVote(m, voter, votedFor, |users|).0;
      && MatchOk(m', users)
      && m'.matchId == m.matchId && m'.opponent1 == m.opponent1 && m'.opponent2 == m.opponent2
  {
    var (m', r) := ApplyVote(m, voter, votedFor, |users|);
    if r.Ok? {
      var key := OidToString(votedFor);
      var v, w := m.votes, m'.votes;
      assert w == AddVote(v, key, voter);
      AddVoteEntries(v, key, voter);
      AddVoteKeepsOneVote(v, key, voter);
      forall k, i | k in w && 0 <= i < |w[k]| ensures IsParticipant(users, w[k][i]) {
        if k != key || i < |w[k]| - 1 {
          assert w[k][i] == v[k][i];
        }
      }
    }
  }

  /** Every entry after a vote is an old entry in its old place or the new
      last vote. */
  lemma AddVoteEntries(v: VoteMap, key: string, voter: VoterId)
    ensures var w := AddVote(v, key, voter);
      forall k, i :: k in w && 0 <= i < |w[k]| ==>
        (k in v && i < |v[k]| && w[k][i] == v[k][i]) || (k == key && i == |w[k]| - 1 && w[k][i] == voter)
  {
  }

  /** A voter who has not voted yet can be added without anybody appearing
      twice. */
  lemma AddVoteKeepsOneVote(v: VoteMap, key: string, voter: VoterId)
    requires OneVotePerVoter(v) && !HasVoted(v, voter)
    ensures OneVotePerVoter(AddVote(v, key, voter))
  {
    var w := AddVote(v, key, voter);
    AddVoteEntries(v, key, voter);
    forall k1, k2, i, j | k1 in w && k2 in w && 0 <= i < |w[k1]| && 0 <= j < |w[k2]| && w[k1][i] == w[k2][j]
      ensures k1 == k2 && i == j
    {
      if k1 in v && i < |v[k1]| && w[k1][i] == v[k1][i] {
        assert v[k1][i] in v[k1];
      }
      if k2 in v && j < |v[k2]| && w[k2][j] == v[k2][j] {
        assert v[k2][j] in v[k2];
      }
    }
  }

  /** Adding users never breaks the match invariant. */
  lemma MatchOkMoreUsers(m: Match, users: seq<TournamentUser>, more: seq<TournamentUser>)
    requires MatchOk(m, users)
    ensures MatchOk(m, users + more)
  {
    forall k, i | k in m.votes && 0 <= i < |m.votes[k]| ensures IsParticipant(users + more, m.votes[k][i]) {
      assert IsParticipant(users, m.votes[k][i]);
      var u :| u in users && u.voterId == m.votes[k][i];
      assert u in users + more;
    }
  }

  // ---------------------------------------------------------------------------
  // Tournament::new
  // ---------------------------------------------------------------------------

  /** `Tournament::new`: an active tournament with no winner whose only round
      is the given one; opponents keep their order, every user becomes a
      registered voter, and both timestamps are `now`. */
  function NewTournament(
    name: string,
    createdBy: ObjectId,
    opponents: seq<OpponentDto>,
    users: seq<UserDto>,
    initialRound: Round,
    now: int): (t: Tournament)
    ensures t.id == None && t.name == name && t.createdBy == createdBy
    ensures t.status == Active && t.winner == None && t.rounds == [initialRound]
    ensures |t.opponents| == |opponents|
    ensures forall i :: 0 <= i < |opponents| ==> t.opponents[i] == TournamentOpponent(opponents[i].id, opponents[i].url)
    ensures |t.users| == |users|
    ensures forall i :: 0 <= i < |users| ==> t.users[i] == TournamentUser(Registered(users[i].id), users[i].name)
    ensures forall u :: u in t.users ==> !IsAnonymous(u.voterId)
    ensures t.createdAt == t.updatedAt == now
  {
    Tournament(
      None,
      name,
      createdBy,
      seq(|opponents|, i requires 0 <= i < |opponents| => TournamentOpponent(opponents[i].id, opponents[i].url)),
      seq(|users|, i requires 0 <= i < |users| => TournamentUser(Registered(users[i].id), users[i].name)),
      [initialRound],
      Active,
      None,
      now,
      now)
  }

  // ---------------------------------------------------------------------------
  // TournamentResponse::from
  // ---------------------------------------------------------------------------

  datatype TournamentUserResponse = TournamentUserResponse(voterId: string, name: string)

  datatype MatchResponse = MatchResponse(
    matchId: string,
    opponent1: ObjectId,
    opponent2: ObjectId,
    votes: map<string, seq<string>>,
    winner: Option<ObjectId>,
    matchDate: int)

  datatype RoundResponse = RoundResponse(roundNumber: int, matches: seq<MatchResponse>, automaticWinners: seq<ObjectId>)

  datatype TournamentResponse = TournamentResponse(
    id: ObjectId,
    name: string,
    createdBy: ObjectId,
    opponents: seq<TournamentOpponent>,
    users: seq<TournamentUserResponse>,
    rounds: seq<RoundResponse>,
    status: TournamentStatus,
    winner: Option<ObjectId>,
    createdAt: int,
    updatedAt: int)

  function RenderVoters(vs: seq<VoterId>): (r: seq<string>)
    ensures |r| == |vs| && forall i :: 0 <= i < |vs| ==> r[i] == AsString(vs[i])
  {
    seq(|vs|, i requires 0 <= i < |vs| => AsString(vs[i]))
  }

  function MatchToResponse(m: Match): MatchResponse
  {
    MatchResponse(m.matchId, m.opponent1, m.opponent2,
                  map k | k in m.votes :: RenderVoters(m.votes[k]),
                  m.winner, m.matchDate)
  }

  function RoundToResponse(r: Round): RoundResponse
  {
    RoundResponse(r.roundNumber,
                  seq(|r.matches|, j requires 0 <= j < |r.matches| => MatchToResponse(r.matches[j])),
                  r.automaticWinners)
  }

  /** `TournamentResponse::from`: needs a stored tournament (the id is
      unwrapped). Opponents, users, rounds and matches keep their order and
      number; every voter id, in the user list and in every vote list, is
      rendered with `AsString`; everything else is copied. */
  function ToResponse(t: Tournament): (r: TournamentResponse)
    requires t.id.Some?
    ensures r.id == t.id.value && r.name == t.name && r.createdBy == t.createdBy
    ensures r.status == t.status && r.winner == t.winner
    ensures r.createdAt == t.createdAt && r.updatedAt == t.updatedAt
    ensures r.opponents == t.opponents
    ensures |r.users| == |t.users|
    ensures forall i :: 0 <= i < |t.users| ==>
      r.users[i].voterId == AsString(t.users[i].voterId) && r.users[i].name == t.users[i].name
    ensures |r.rounds| == |t.rounds|
    ensures forall i :: 0 <= i < |t.rounds| ==>
      && r.rounds[i].roundNumber == t.rounds[i].roundNumber
      && r.rounds[i].automaticWinners == t.rounds[i].automaticWinners
      && |r.rounds[i].matches| == |t.rounds[i].matches|
    ensures forall i, j :: 0 <= i < |t.rounds| && 0 <= j < |t.rounds[i].matches| ==>
      var m, mr := t.rounds[i].matches[j], r.rounds[i].matches[j];
      && mr.matchId == m.matchId && mr.opponent1 == m.opponent1 && mr.opponent2 == m.opponent2
      && mr.winner == m.winner && mr.matchDate == m.matchDate
      && mr.votes.Keys == m.votes.Keys
      && forall k :: k in m.votes ==> (|mr.votes[k]| == |m.votes[k]|
           && forall x :: 0 <= x < |m.votes[k]| ==> mr.votes[k][x] == AsString(m.votes[k][x]))
  {
    TournamentResponse(
      t.id.value,
      t.name,
      t.createdBy,
      t.opponents,
      seq(|t.users|, i requires 0 <= i < |t.users| => TournamentUserResponse(AsString(t.users[i].voterId), t.users[i].name)),
      seq(|t.rounds|, i requires 0 <= i < |t.rounds| => RoundToResponse(t.rounds[i])),
      t.status,
      t.winner,
      t.createdAt,
      t.updatedAt)
  }
}
