/** The tournament service: bracket construction, round completion, the vote
    driver that advances the bracket, tournament creation, invites and joins.
    The two document collections are the fields of `TournamentServiceImpl`:
    tournaments keyed by id, invites in insertion order. */
module TournamentService {
  import opened Common
  import opened TournamentModel

  // ---------------------------------------------------------------------------
  // Bracket construction
  // ---------------------------------------------------------------------------

  /** A match between `o1` and `o2` that nobody has voted on yet. */
  function NewMatch(matchId: string, o1: ObjectId, o2: ObjectId, now: int): Match
  {
    Match(matchId, o1, o2, map[], None, now)
  }

  /** The matches that pair entry 2k with entry 2k+1; the k-th one is named `matchId(k)`. */
  function PairedMatches(ids: seq<ObjectId>, n: nat, matchId: nat -> string, now: int): seq<Match>
    requires 2 * n <= |ids|
  {
    seq(n, k requires 0 <= k < n => NewMatch(matchId(k), ids[2 * k], ids[2 * k + 1], now))
  }

  /** The bracket rule: consecutive entries meet, the odd one out goes through. */
  function Pairing(ids: seq<ObjectId>, roundNumber: int, matchId: nat -> string, now: int): Round
  {
    Round(roundNumber,
          PairedMatches(ids, |ids| / 2, matchId, now),
          if |ids| % 2 == 1 then [ids[|ids| - 1]] else [])
  }

  /** Everyone a round puts through: both sides of every match in match order,
      then the automatic winners. */
  function Entrants(r: Round): seq<ObjectId>
  {
    seq(2 * |r.matches|, i requires 0 <= i < 2 * |r.matches| =>
      if i % 2 == 0 then r.matches[i / 2].opponent1 else r.matches[i / 2].opponent2)
    + r.automaticWinners
  }

  /** `create_next_round`: walks the ids two at a time, pushing a fresh match
      per pair and the unpaired last id to the automatic winners. */
  method CreateNextRound(winners: seq<ObjectId>, roundNumber: int, matchId: nat -> string, now: int)
    returns (r: Round)
    ensures r == Pairing(winners, roundNumber, matchId, now)
  {
    var matches: seq<Match> := [];
    var automaticWinners: seq<ObjectId> := [];
    var i := 0;
    while i < |winners|
      invariant 0 <= i <= |winners|
      invariant i % 2 == 0 || i == |winners|
      invariant matches == PairedMatches(winners, i / 2, matchId, now)
      invariant automaticWinners == if i == |winners| && |winners| % 2 == 1 then [winners[|winners| - 1]] else []
    {
      if i + 1 < |winners| {
        matches := matches + [NewMatch(matchId(i / 2), winners[i], winners[i + 1], now)];
        i := i + 2;
      } else {
        automaticWinners := automaticWinners + [winners[i]];
        i := i + 1;
      }
    }
    r := Round(roundNumber, matches, automaticWinners);
  }

  function OpponentDtoIds(opponents: seq<OpponentDto>): (r: seq<ObjectId>)
    ensures |r| == |opponents| && forall i :: 0 <= i < |opponents| ==> r[i] == opponents[i].id
  {
    seq(|opponents|, i requires 0 <= i < |opponents| => opponents[i].id)
  }

  /** `create_initial_round`: the same pairing over the opponents' ids, as round 1. */
  method CreateInitialRound(opponents: seq<OpponentDto>, matchId: nat -> string, now: int)
    returns (r: Round)
    ensures r == Pairing(OpponentDtoIds(opponents), 1, matchId, now)
  {
    r := CreateNextRound(OpponentDtoIds(opponents), 1, matchId, now);
  }

  /** A pairing of n ids has n/2 fresh matches, the last id as automatic winner
      exactly when n is odd, and the requested round number. */
  lemma PairingShape(ids: seq<ObjectId>, roundNumber: int, matchId: nat -> string, now: int)
    ensures var r := Pairing(ids, roundNumber, matchId, now);
      && r.roundNumber == roundNumber
      && |r.matches| == |ids| / 2
      && (forall k :: 0 <= k < |r.matches| ==>
            r.matches[k] == Match(matchId(k), ids[2 * k], ids[2 * k + 1], map[], None, now))
      && (|ids| % 2 == 1 ==> r.automaticWinners == [ids[|ids| - 1]])
      && (|ids| % 2 == 0 ==> r.automaticWinners == [])
  {
  }

  /** Every id enters the round exactly once and in input order: reading the
      pairs and then the automatic winners gives the input back. */
  lemma PairingEntrants(ids: seq<ObjectId>, roundNumber: int, matchId: nat -> string, now: int)
    ensures Entrants(Pairing(ids, roundNumber, matchId, now)) == ids
  {
    var r := Pairing(ids, roundNumber, matchId, now);
    var e := Entrants(r);
    assert |e| == |ids|;
    forall i | 0 <= i < |ids| ensures e[i] == ids[i] {
      if i < 2 * |r.matches| {
        assert r.matches[i / 2] == NewMatch(matchId(i / 2), ids[2 * (i / 2)], ids[2 * (i / 2) + 1], now);
      }
    }
  }

  // ---------------------------------------------------------------------------
  // Round completion and winners
  // ---------------------------------------------------------------------------

  /** `is_round_complete`: every match has a winner. */
  predicate IsRoundComplete(r: Round)
  {
    forall m :: m in r.matches ==> m.winner.Some?
  }

  /** The decided matches' winners in match order (`filter_map`). */
  function MatchWinners(ms: seq<Match>): (r: seq<ObjectId>)
    ensures |r| <= |ms|
  {
    if ms == [] then []
    else (if ms[0].winner.Some? then [ms[0].winner.value] else []) + MatchWinners(ms[1..])
  }

  /** `get_round_winners`: the match winners, then the automatic winners. */
  function RoundWinners(r: Round): seq<ObjectId>
  {
    MatchWinners(r.matches) + r.automaticWinners
  }

  lemma {:induction false} MatchWinnersOfDecided(ms: seq<Match>)
    requires forall m :: m in ms ==> m.winner.Some?
    ensures |MatchWinners(ms)| == |ms|
    ensures forall k :: 0 <= k < |ms| ==> MatchWinners(ms)[k] == ms[k].winner.value
  {
    if ms != [] {
      MatchWinnersOfDecided(ms[1..]);
    }
  }

  lemma {:induction false} MatchWinnersFrom(ms: seq<Match>, w: ObjectId)
    requires w in MatchWinners(ms)
    ensures exists k :: 0 <= k < |ms| && ms[k].winner == Some(w)
  {
    if ms[0].winner != Some(w) {
      MatchWinnersFrom(ms[1..], w);
      var k :| 0 <= k < |ms[1..]| && ms[1..][k].winner == Some(w);
      assert ms[k + 1].winner == Some(w);
    }
  }

  /** Of a complete round, the winners are one per match, in match order,
      followed by the automatic winners. */
  lemma CompleteRoundWinners(r: Round)
    requires IsRoundComplete(r)
    ensures |RoundWinners(r)| == |r.matches| + |r.automaticWinners|
    ensures forall k :: 0 <= k < |r.matches| ==> RoundWinners(r)[k] == r.matches[k].winner.value
    ensures RoundWinners(r)[|r.matches|..] == r.automaticWinners
  {
    MatchWinnersOfDecided(r.matches);
  }

  /** When every declared winner is one of its pair, every round winner is an
      entrant of the round. */
  lemma WinnersAreEntrants(r: Round)
    requires forall m :: m in r.matches && m.winner.Some? ==> m.winner.value == m.opponent1 || m.winner.value == m.opponent2
    ensures forall w :: w in RoundWinners(r) ==> w in Entrants(r)
  {
    var e := Entrants(r);
    forall w | w in RoundWinners(r) ensures w in e {
      if w in MatchWinners(r.matches) {
        MatchWinnersFrom(r.matches, w);
        var k :| 0 <= k < |r.matches| && r.matches[k].winner == Some(w);
        assert r.matches[k] in r.matches;
        if w == r.matches[k].opponent1 {
          assert e[2 * k] == w;
        } else {
          assert e[2 * k + 1] == w;
        }
      } else {
        var j :| 0 <= j < |r.automaticWinners| && r.automaticWinners[j] == w;
        assert e[2 * |r.matches| + j] == w;
      }
    }
  }

  /** A complete pairing of two or more ids puts through half of them, rounded
      up, so every round is smaller than the one before. */
  lemma BracketShrinks(ids: seq<ObjectId>, roundNumber: int, matchId: nat -> string, now: int, decided: Round)
    requires |ids| >= 2
    requires decided.automaticWinners == Pairing(ids, roundNumber, matchId, now).automaticWinners
    requires |decided.matches| == |Pairing(ids, roundNumber, matchId, now).matches|
    requires IsRoundComplete(decided)
    ensures |RoundWinners(decided)| == (|ids| + 1) / 2 < |ids|
  {
    CompleteRoundWinners(decided);
  }

  // ---------------------------------------------------------------------------
  // Tournament invariant
  // ---------------------------------------------------------------------------

  function OpponentIds(opponents: seq<TournamentOpponent>): (r: seq<ObjectId>)
    ensures |r| == |opponents| && forall i :: 0 <= i < |opponents| ==> r[i] == opponents[i].opponentId
  {
    seq(|opponents|, i requires 0 <= i < |opponents| => opponents[i].opponentId)
  }

  function LastRound(t: Tournament): Round
    requires |t.rounds| > 0
  {
    t.rounds[|t.rounds| - 1]
  }

  /** The bracket part of the invariant, over the rounds, the opponents' ids
      and the users: rounds are numbered 1, 2, …; round 1 pairs the
      opponents; each later round pairs the winners of the complete round
      before it; every entrant is an opponent; every match keeps the match
      invariant. */
  ghost predicate BracketOk(rounds: seq<Round>, ids: seq<ObjectId>, users: seq<TournamentUser>)
  {
    && |rounds| > 0
    && Entrants(rounds[0]) == ids
    && (forall i :: 0 <= i < |rounds| ==> rounds[i].roundNumber == i + 1)
    && (forall i, j :: 0 <= i < |rounds| && 0 <= j < |rounds[i].matches| ==> MatchOk(rounds[i].matches[j], users))
    && (forall i :: 0 <= i < |rounds| - 1 ==> IsRoundComplete(rounds[i]))
    && (forall i :: 0 <= i < |rounds| - 1 ==> Entrants(rounds[i + 1]) == RoundWinners(rounds[i]))
    && (forall i, e :: 0 <= i < |rounds| && e in Entrants(rounds[i]) ==> e in ids)
  }

  /** What every stored tournament satisfies: the bracket invariant, and a
      winner exactly when it is Completed, that winner being the single winner
      of the last round. Nothing ever sets Paused. */
  ghost predicate TournamentOk(t: Tournament)
  {
    && BracketOk(t.rounds, OpponentIds(t.opponents), t.users)
    && t.status != Paused
    && (t.winner.Some? <==> t.status == Completed)
    && (t.status == Completed ==> IsRoundComplete(LastRound(t)) && RoundWinners(LastRound(t)) == [t.winner.value])
  }

  /** A completed tournament's winner is one of its opponents. */
  lemma TournamentWinnerIsOpponent(t: Tournament)
    requires TournamentOk(t) && t.status == Completed
    ensures t.winner.Some? && t.winner.value in OpponentIds(t.opponents)
  {
    var last := LastRound(t);
    forall m | m in last.matches && m.winner.Some?
      ensures m.winner.value == m.opponent1 || m.winner.value == m.opponent2
    {
      var j :| 0 <= j < |last.matches| && last.matches[j] == m;
      assert MatchOk(t.rounds[|t.rounds| - 1].matches[j], t.users);
    }
    WinnersAreEntrants(last);
    assert t.winner.value in RoundWinners(last);
  }

  // ---------------------------------------------------------------------------
  // create_tournament
  // ---------------------------------------------------------------------------

  const EmptyNameError: string := "Tournament name cannot be empty"
  const TooFewOpponentsError: string := "Tournament must have at least 2 opponents"
  const NoUsersError: string := "Tournament must have at least 1 user"

  /** The checks of `create_tournament`, first failure wins. */
  function CreateTournamentCheck(name: string, opponents: seq<OpponentDto>, users: seq<UserDto>): (r: Option<string>)
    ensures IsBlank(name) ==> r == Some(EmptyNameError)
    ensures !IsBlank(name) && |opponents| < 2 ==> r == Some(TooFewOpponentsError)
    ensures !IsBlank(name) && |opponents| >= 2 && |users| == 0 ==> r == Some(NoUsersError)
    ensures r == None <==> !IsBlank(name) && |opponents| >= 2 && |users| > 0
  {
    if IsBlank(name) then Some(EmptyNameError)
    else if |opponents| < 2 then Some(TooFewOpponentsError)
    else if |users| == 0 then Some(NoUsersError)
    else None
  }

  /** A tournament built from checked input satisfies the tournament invariant. */
  lemma NewTournamentOk(name: string, createdBy: ObjectId, opponents: seq<OpponentDto>, users: seq<UserDto>,
                        matchId: nat -> string, now: int, id: Option<ObjectId>)
    ensures var t := NewTournament(name, createdBy, opponents, users, Pairing(OpponentDtoIds(opponents), 1, matchId, now), now);
      TournamentOk(t.(id := id))
  {
    var r := Pairing(OpponentDtoIds(opponents), 1, matchId, now);
    var t := NewTournament(name, createdBy, opponents, users, r, now).(id := id);
    PairingEntrants(OpponentDtoIds(opponents), 1, matchId, now);
    assert OpponentIds(t.opponents) == OpponentDtoIds(opponents);
    PairingMatchesOk(OpponentDtoIds(opponents), 1, matchId, now, t.users);
    assert t.rounds == [r];
  }

  /** The tournament `create_tournament` hands back is the one it built, and
      a built tournament has no id yet, so `ToResponse`, which unwraps the id,
      does not accept it. */
  lemma CreatedTournamentHasNoId(name: string, createdBy: ObjectId, opponents: seq<OpponentDto>, users: seq<UserDto>,
                                 matchId: nat -> string, now: int)
    ensures NewTournament(name, createdBy, opponents, users, Pairing(OpponentDtoIds(opponents), 1, matchId, now), now).id.None?
  {
  }

  // ---------------------------------------------------------------------------
  // vote_match
  // ---------------------------------------------------------------------------

  const TournamentNotFoundError: string := "Tournament not found"
  const NotParticipantError: string := "Voter is not a participant in this tournament"
  const MatchNotFoundError: string := "Match not found"

  /** Index of the first match with the given id (`iter_mut().find`). */
  function FindMatch(ms: seq<Match>, matchId: string): (r: Option<nat>)
    ensures r.Some? ==> (r.value < |ms| && ms[r.value].matchId == matchId
                         && forall j :: 0 <= j < r.value ==> ms[j].matchId != matchId)
    ensures r.None? ==> forall m :: m in ms ==> m.matchId != matchId
  {
    FindFirst(ms, (m: Match) => m.matchId == matchId)
  }

  /** What `vote_match` turns a found tournament into: the participant check,
      the lookup in the last round only, the vote itself, and, when that vote
      decides a match and completes the round, either completion (one winner
      left) or a new round of the winners numbered one higher. The tournament's
      status is never consulted. */
  ghost function VoteOutcome(t: Tournament, voter: VoterId, matchId: string, votedFor: ObjectId,
                             nextMatchId: nat -> string, now: int): (r: Result<Tournament, string>)
    requires |t.rounds| > 0
  {
    if !IsParticipant(t.users, voter) then Err(NotParticipantError)
    else
      var ri := |t.rounds| - 1;
      var round := t.rounds[ri];
      match FindMatch(round.matches, matchId)
      case None => Err(MatchNotFoundError)
      case Some(mi) =>
        var (m', r) := ApplyVote(round.matches[mi], voter, votedFor, |t.users|);
        if r.Err? then Err(r.error)
        else
          var round' := round.(matches := round.matches[mi := m']);
          Ok(Advance(t.(rounds := t.rounds[ri := round']), r.value.Some?, nextMatchId, now))
  }

  /** The bracket step after an accepted vote: when the vote declared a winner
      and the last round is now complete, a single round winner completes the
      tournament, several go on to a new round; `updated_at` moves only then. */
  function Advance(t: Tournament, declared: bool, nextMatchId: nat -> string, now: int): (t': Tournament)
    requires |t.rounds| > 0
  {
    var current := LastRound(t);
    if declared && IsRoundComplete(current) then
      var winners := RoundWinners(current);
      if |winners| == 1 then
        t.(status := Completed, winner := Some(winners[0]), updatedAt := now)
      else
        t.(rounds := t.rounds + [Pairing(winners, current.roundNumber + 1, nextMatchId, now)], updatedAt := now)
    else t
  }

  /** The tail of `vote_match` that completes the tournament or pushes the next round. */
  method AdvanceBracket(t: Tournament, declared: bool, nextMatchId: nat -> string, now: int)
    returns (t': Tournament)
    requires |t.rounds| > 0
    ensures t' == Advance(t, declared, nextMatchId, now)
    ensures var winners := RoundWinners(LastRound(t));
      && (declared && IsRoundComplete(LastRound(t)) && |winners| == 1 ==>
            t' == t.(status := Completed, winner := Some(winners[0]), updatedAt := now))
      && (declared && IsRoundComplete(LastRound(t)) && |winners| != 1 ==>
            t' == t.(rounds := t.rounds + [Pairing(winners, LastRound(t).roundNumber + 1, nextMatchId, now)], updatedAt := now))
      && (!(declared && IsRoundComplete(LastRound(t))) ==> t' == t)
  {
    t' := t;
    var current := t.rounds[|t.rounds| - 1];
    if declared && IsRoundComplete(current) {
      var winners := RoundWinners(current);
      if |winners| == 1 {
        t' := t'.(status := Completed, winner := Some(winners[0]));
      } else {
        var nextRound := CreateNextRound(winners, current.roundNumber + 1, nextMatchId, now);
        t' := t'.(rounds := t'.rounds + [nextRound]);
      }
      t' := t'.(updatedAt := now);
    }
  }

  /** The error order of `vote_match`: a non-participant is turned away before
      the match is looked up, and only the last round is searched. A failed
      vote leaves no trace because nothing is written. */
  lemma VoteErrors(t: Tournament, voter: VoterId, matchId: string, votedFor: ObjectId, nextMatchId: nat -> string, now: int)
    requires |t.rounds| > 0
    ensures !IsParticipant(t.users, voter) ==> VoteOutcome(t, voter, matchId, votedFor, nextMatchId, now) == Err(NotParticipantError)
    ensures IsParticipant(t.users, voter) && (forall m :: m in LastRound(t).matches ==> m.matchId != matchId)
      ==> VoteOutcome(t, voter, matchId, votedFor, nextMatchId, now) == Err(MatchNotFoundError)
  {
  }

  /** A vote never changes the name, creator, opponents, users or creation
      time, and never removes or renumbers a round. `updated_at` moves only to
      `now` and only when the round is complete after the vote; a vote that
      completes a round that was not complete before always moves it. */
  lemma VoteFrame(t: Tournament, voter: VoterId, matchId: string, votedFor: ObjectId, nextMatchId: nat -> string, now: int)
    requires |t.rounds| > 0
    requires VoteOutcome(t, voter, matchId, votedFor, nextMatchId, now).Ok?
    ensures var t' := VoteOutcome(t, voter, matchId, votedFor, nextMatchId, now).value;
      && t'.id == t.id && t'.name == t.name && t'.createdBy == t.createdBy
      && t'.opponents == t.opponents && t'.users == t.users && t'.createdAt == t.createdAt
      && |t.rounds| <= |t'.rounds| <= |t.rounds| + 1
      && t'.rounds[..|t.rounds| - 1] == t.rounds[..|t.rounds| - 1]
      && (t'.updatedAt != t.updatedAt ==> t'.updatedAt == now && IsRoundComplete(t'.rounds[|t.rounds| - 1]))
      && (!IsRoundComplete(LastRound(t)) && IsRoundComplete(t'.rounds[|t.rounds| - 1]) ==> t'.updatedAt == now)
  {
    var ri := |t.rounds| - 1;
    var round := t.rounds[ri];
    var mi := FindMatch(round.matches, matchId).value;
    var (m', r) := ApplyVote(round.matches[mi], voter, votedFor, |t.users|);
    var round' := round.(matches := round.matches[mi := m']);
    if r.value.None? && !IsRoundComplete(round) {
      // A vote that declares nothing keeps the match's winner, so the round
      // stays incomplete.
      WinnerDeclaredWhenAllVoted(round.matches[mi], voter, votedFor, |t.users|);
      var j :| 0 <= j < |round.matches| && round.matches[j].winner.None?;
      assert round'.matches[j].winner.None?;
      assert !IsRoundComplete(round');
    }
  }

  /** The round transition: a vote that completes the current round either
      completes the tournament with the round's single winner (no round is
      added) or appends round current+1 pairing the round's winners; a vote
      that does not complete it adds no round and keeps status and winner. */
  lemma VoteAdvancesBracket(t: Tournament, voter: VoterId, matchId: string, votedFor: ObjectId, nextMatchId: nat -> string, now: int)
    requires |t.rounds| > 0
    requires VoteOutcome(t, voter, matchId, votedFor, nextMatchId, now).Ok?
    ensures var t' := VoteOutcome(t, voter, matchId, votedFor, nextMatchId, now).value;
      var cur := t'.rounds[|t.rounds| - 1];
      var winners := RoundWinners(cur);
      && cur.roundNumber == LastRound(t).roundNumber
      && cur.automaticWinners == LastRound(t).automaticWinners
      && |cur.matches| == |LastRound(t).matches|
      && (|t'.rounds| == |t.rounds| + 1 ==>
            IsRoundComplete(cur) && |winners| != 1 && t'.status == t.status && t'.winner == t.winner
            && LastRound(t') == Pairing(winners, cur.roundNumber + 1, nextMatchId, now) && t'.updatedAt == now)
      && (|t'.rounds| == |t.rounds| && t'.status != t.status ==>
            IsRoundComplete(cur) && t'.status == Completed && winners == [t'.winner.value] && t'.updatedAt == now)
      && (!IsRoundComplete(cur) ==> (|t'.rounds| == |t.rounds| && t'.status == t.status && t'.winner == t.winner
                                    && t'.updatedAt == t.updatedAt))
  {
  }

  /** The round transition in the forward direction: a vote that declares
      its match's winner and so completes the last round completes the
      tournament when that round has a single winner, and otherwise appends
      the round pairing its winners, numbered one higher. A vote that turns
      an incomplete round complete always declares a winner. */
  lemma DecidingVoteAdvancesBracket(t: Tournament, voter: VoterId, matchId: string, votedFor: ObjectId,
                                    nextMatchId: nat -> string, now: int)
    requires |t.rounds| > 0
    requires VoteOutcome(t, voter, matchId, votedFor, nextMatchId, now).Ok?
    ensures FindMatch(LastRound(t).matches, matchId).Some?
    ensures ApplyVote(LastRound(t).matches[FindMatch(LastRound(t).matches, matchId).value], voter, votedFor, |t.users|).1.Ok?
    ensures var t' := VoteOutcome(t, voter, matchId, votedFor, nextMatchId, now).value;
      var m := LastRound(t).matches[FindMatch(LastRound(t).matches, matchId).value];
      var declared := ApplyVote(m, voter, votedFor, |t.users|).1.value.Some?;
      var cur := t'.rounds[|t.rounds| - 1];
      var winners := RoundWinners(cur);
      && (!IsRoundComplete(LastRound(t)) && IsRoundComplete(cur) ==> declared)
      && (declared && IsRoundComplete(cur) && |winners| == 1 ==>
            |t'.rounds| == |t.rounds| && t'.status == Completed && t'.winner == Some(winners[0]) && t'.updatedAt == now)
      && (declared && IsRoundComplete(cur) && |winners| != 1 ==>
            |t'.rounds| == |t.rounds| + 1 && t'.status == t.status && t'.winner == t.winner
            && LastRound(t') == Pairing(winners, cur.roundNumber + 1, nextMatchId, now) && t'.updatedAt == now)
  {
    var ri := |t.rounds| - 1;
    var round := t.rounds[ri];
    var mi := FindMatch(round.matches, matchId).value;
    var (m', r) := ApplyVote(round.matches[mi], voter, votedFor, |t.users|);
    var round' := round.(matches := round.matches[mi := m']);
    if r.value.None? && !IsRoundComplete(round) {
      // A vote that declares nothing keeps the match's winner, so the round
      // stays incomplete.
      WinnerDeclaredWhenAllVoted(round.matches[mi], voter, votedFor, |t.users|);
      var j :| 0 <= j < |round.matches| && round.matches[j].winner.None?;
      assert round'.matches[j].winner.None?;
      assert !IsRoundComplete(round');
    }
  }

  /** Whether a vote is accepted never depends on the tournament's status:
      a Completed (or Paused) tournament takes votes like an Active one. */
  lemma VotingIgnoresStatus(t: Tournament, s: TournamentStatus, voter: VoterId, matchId: string, votedFor: ObjectId,
                            nextMatchId: nat -> string, now: int)
    requires |t.rounds| > 0
    ensures VoteOutcome(t.(status := s), voter, matchId, votedFor, nextMatchId, now).Ok?
       <==> VoteOutcome(t, voter, matchId, votedFor, nextMatchId, now).Ok?
  {
  }

  /** Replacing a match of the last round by a voted copy of it keeps the
      bracket invariant and the round's entrants. */
  lemma ReplaceMatchKeepsBracketOk(rounds: seq<Round>, ids: seq<ObjectId>, users: seq<TournamentUser>, mi: nat, m': Match)
    requires BracketOk(rounds, ids, users) && mi < |rounds[|rounds| - 1].matches|
    requires MatchOk(m', users)
    requires m'.opponent1 == rounds[|rounds| - 1].matches[mi].opponent1
    requires m'.opponent2 == rounds[|rounds| - 1].matches[mi].opponent2
    ensures var ri := |rounds| - 1;
      var rounds' := rounds[ri := rounds[ri].(matches := rounds[ri].matches[mi := m'])];
      BracketOk(rounds', ids, users) && Entrants(rounds'[ri]) == Entrants(rounds[ri])
  {
    var ri := |rounds| - 1;
    var round' := rounds[ri].(matches := rounds[ri].matches[mi := m']);
    var rounds' := rounds[ri := round'];
    assert Entrants(round') == Entrants(rounds[ri]);
    forall i, j | 0 <= i < |rounds'| && 0 <= j < |rounds'[i].matches| ensures MatchOk(rounds'[i].matches[j], users) {
      if i != ri || j != mi {
        assert rounds'[i].matches[j] == rounds[i].matches[j];
      }
    }
    forall i | 0 <= i < |rounds'| - 1 ensures Entrants(rounds'[i + 1]) == RoundWinners(rounds'[i]) {
      assert rounds'[i] == rounds[i];
    }
    forall i, e | 0 <= i < |rounds'| && e in Entrants(rounds'[i]) ensures e in ids {
      assert Entrants(rounds'[i]) == Entrants(rounds[i]);
    }
  }

  /** The bracket invariant, assembled from its parts. */
  lemma BracketOkIntro(rounds: seq<Round>, ids: seq<ObjectId>, users: seq<TournamentUser>)
    requires |rounds| > 0 && Entrants(rounds[0]) == ids
    requires forall i :: 0 <= i < |rounds| ==> rounds[i].roundNumber == i + 1
    requires forall i, j :: 0 <= i < |rounds| && 0 <= j < |rounds[i].matches| ==> MatchOk(rounds[i].matches[j], users)
    requires forall i :: 0 <= i < |rounds| - 1 ==> IsRoundComplete(rounds[i])
    requires forall i :: 0 <= i < |rounds| - 1 ==> Entrants(rounds[i + 1]) == RoundWinners(rounds[i])
    requires forall i, e :: 0 <= i < |rounds| && e in Entrants(rounds[i]) ==> e in ids
    ensures BracketOk(rounds, ids, users)
  {
  }

  /** A match nobody has voted on and that has no winner keeps the match invariant. */
  lemma FreshMatchOk(m: Match, users: seq<TournamentUser>)
    requires m.votes == map[] && m.winner.None?
    ensures MatchOk(m, users)
  {
  }

  /** Every match of a fresh pairing keeps the match invariant. */
  lemma PairingMatchesOk(ids: seq<ObjectId>, roundNumber: int, matchId: nat -> string, now: int,
                         users: seq<TournamentUser>)
    ensures var r := Pairing(ids, roundNumber, matchId, now);
      forall j :: 0 <= j < |r.matches| ==> MatchOk(r.matches[j], users)
  {
    var r := Pairing(ids, roundNumber, matchId, now);
    assert |r.matches| == |ids| / 2;
    forall j | 0 <= j < |r.matches| ensures MatchOk(r.matches[j], users) {
      assert r.matches[j] == NewMatch(matchId(j), ids[2 * j], ids[2 * j + 1], now);
      FreshMatchOk(r.matches[j], users);
    }
  }

  /** The match invariant over every round carries over to one more round whose
      matches keep it. */
  lemma AppendMatchesOk(rounds: seq<Round>, next: Round, users: seq<TournamentUser>)
    requires forall i, j :: 0 <= i < |rounds| && 0 <= j < |rounds[i].matches| ==> MatchOk(rounds[i].matches[j], users)
    requires forall j :: 0 <= j < |next.matches| ==> MatchOk(next.matches[j], users)
    ensures var rounds' := rounds + [next];
      forall i, j :: 0 <= i < |rounds'| && 0 <= j < |rounds'[i].matches| ==> MatchOk(rounds'[i].matches[j], users)
  {
    var rounds' := rounds + [next];
    forall i, j | 0 <= i < |rounds'| && 0 <= j < |rounds'[i].matches| ensures MatchOk(rounds'[i].matches[j], users) {
      if i < |rounds| {
        assert rounds'[i] == rounds[i];
      } else {
        assert rounds'[i] == next;
      }
    }
  }

  /** The winners of a complete round of matches that keep the match invariant
      are entrants of that round. */
  lemma CompleteRoundWinnersAreEntrants(last: Round, users: seq<TournamentUser>)
    requires forall j :: 0 <= j < |last.matches| ==> MatchOk(last.matches[j], users)
    ensures forall e :: e in RoundWinners(last) ==> e in Entrants(last)
  {
    forall m | m in last.matches && m.winner.Some? ensures m.winner.value == m.opponent1 || m.winner.value == m.opponent2 {
      var j :| 0 <= j < |last.matches| && last.matches[j] == m;
      assert MatchOk(last.matches[j], users);
    }
    WinnersAreEntrants(last);
  }

  /** Appending, after a complete last round, a round numbered one higher that
      pairs exactly that round's winners and whose matches keep the match
      invariant keeps the bracket invariant. */
  lemma AppendKeepsBracketOk(rounds: seq<Round>, next: Round, ids: seq<ObjectId>, users: seq<TournamentUser>)
    requires BracketOk(rounds, ids, users) && IsRoundComplete(rounds[|rounds| - 1])
    requires next.roundNumber == |rounds| + 1
    requires Entrants(next) == RoundWinners(rounds[|rounds| - 1])
    requires forall e :: e in Entrants(next) ==> e in ids
    requires forall j :: 0 <= j < |next.matches| ==> MatchOk(next.matches[j], users)
    ensures BracketOk(rounds + [next], ids, users)
  {
    var rounds' := rounds + [next];
    AppendMatchesOk(rounds, next, users);
    forall i | 0 <= i < |rounds'| ensures rounds'[i].roundNumber == i + 1 {
      if i < |rounds| { assert rounds'[i] == rounds[i]; }
    }
    forall i | 0 <= i < |rounds'| - 1 ensures IsRoundComplete(rounds'[i]) {
      assert rounds'[i] == rounds[i];
    }
    forall i | 0 <= i < |rounds'| - 1 ensures Entrants(rounds'[i + 1]) == RoundWinners(rounds'[i]) {
      if i + 1 < |rounds| { assert rounds'[i + 1] == rounds[i + 1]; }
      assert rounds'[i] == rounds[i];
    }
    forall i, e | 0 <= i < |rounds'| && e in Entrants(rounds'[i]) ensures e in ids {
      if i < |rounds| { assert rounds'[i] == rounds[i]; }
    }
    BracketOkIntro(rounds', ids, users);
  }

  /** Appending the pairing of a complete last round's winners, numbered one
      higher, keeps the bracket invariant. */
  lemma AppendRoundKeepsBracketOk(rounds: seq<Round>, ids: seq<ObjectId>, users: seq<TournamentUser>,
                                  nextMatchId: nat -> string, now: int)
    requires BracketOk(rounds, ids, users) && IsRoundComplete(rounds[|rounds| - 1])
    ensures var last := rounds[|rounds| - 1];
      BracketOk(rounds + [Pairing(RoundWinners(last), last.roundNumber + 1, nextMatchId, now)], ids, users)
  {
    var ri := |rounds| - 1;
    var last := rounds[ri];
    var winners := RoundWinners(last);
    var next := Pairing(winners, last.roundNumber + 1, nextMatchId, now);
    assert forall j :: 0 <= j < |last.matches| ==> MatchOk(last.matches[j], users) by {
      forall j | 0 <= j < |last.matches| ensures MatchOk(last.matches[j], users) {
        assert MatchOk(rounds[ri].matches[j], users);
      }
    }
    CompleteRoundWinnersAreEntrants(last, users);
    assert forall e :: e in Entrants(last) ==> e in ids;
    PairingEntrants(winners, last.roundNumber + 1, nextMatchId, now);
    PairingMatchesOk(winners, last.roundNumber + 1, nextMatchId, now, users);
    AppendKeepsBracketOk(rounds, next, ids, users);
  }

  /** `vote_match` keeps the tournament invariant. */
  lemma VoteKeepsTournamentOk(t: Tournament, voter: VoterId, matchId: string, votedFor: ObjectId,
                              nextMatchId: nat -> string, now: int)
    requires TournamentOk(t)
    requires VoteOutcome(t, voter, matchId, votedFor, nextMatchId, now).Ok?
    ensures TournamentOk(VoteOutcome(t, voter, matchId, votedFor, nextMatchId, now).value)
  {
    var ri := |t.rounds| - 1;
    var round := t.rounds[ri];
    var mi := FindMatch(round.matches, matchId).value;
    var m := round.matches[mi];
    var (m', r) := ApplyVote(m, voter, votedFor, |t.users|);
    assert MatchOk(t.rounds[ri].matches[mi], t.users);
    ApplyVoteKeepsMatchOk(m, voter, votedFor, t.users);
    var round' := round.(matches := round.matches[mi := m']);
    var t1 := t.(rounds := t.rounds[ri := round']);
    ReplaceMatchKeepsBracketOk(t.rounds, OpponentIds(t.opponents), t.users, mi, m');
    assert LastRound(t1) == round';

    if r.value.Some? && IsRoundComplete(round') {
      var winners := RoundWinners(round');
      if |winners| != 1 {
        // A Completed tournament's last round has one winner, and a complete
        // round keeps its number of winners, so this tournament is Active.
        if t.status == Completed {
          CompleteRoundWinners(round');
          CompleteRoundWinners(round);
          assert false;
        }
        AppendRoundKeepsBracketOk(t1.rounds, OpponentIds(t.opponents), t.users, nextMatchId, now);
      }
    } else if t.status == Completed {
      // A vote that declares nothing leaves the match's winner, and so the
      // complete last round and its single winner, as they were.
      MatchWinnersReplace(round.matches, mi, m');
    }
  }

  /** Replacing a match by one with the same winner keeps the winners and completeness. */
  lemma {:induction false} MatchWinnersReplace(ms: seq<Match>, i: nat, m': Match)
    requires i < |ms| && m'.winner == ms[i].winner
    ensures MatchWinners(ms[i := m']) == MatchWinners(ms)
  {
    if i > 0 {
      MatchWinnersReplace(ms[1..], i - 1, m');
      assert ms[i := m'][1..] == ms[1..][i - 1 := m'];
    } else {
      assert ms[i := m'][1..] == ms[1..];
    }
  }

  // ---------------------------------------------------------------------------
  // Invites and joining
  // ---------------------------------------------------------------------------

  const NotActiveError: string := "Tournament is not active"
  const DefaultMaxUses: U32 := 10
  const DefaultExpiresInHours: U32 := 24

  const DisplayNameEmptyError: string := "Display name cannot be empty"
  const InvalidCodeError: string := "Invalid invite code"
  const CodeMismatchError: string := "Invite code does not match tournament"
  const ExpiredError: string := "Invite code has expired"
  const ExhaustedError: string := "Invite code has reached maximum uses"
  const TokenErrorPrefix: string := "Error generating token: "
  const InviteWithoutIdError: string := "Invite must have an id"

  /** `expires_at` of a new invite, in milliseconds: `now` plus the hours,
      computed in whole seconds. */
  function InviteExpiry(nowSecs: int, expiresInHours: Option<U32>): (ms: int)
    ensures expiresInHours.None? ==> ms == (nowSecs + 24 * 3600) * 1000
    ensures ms % 1000 == 0
  {
    var hours := if expiresInHours.Some? then expiresInHours.value else DefaultExpiresInHours;
    (nowSecs + hours * 3600) * 1000
  }

  /** The invite checks of `join_tournament`, first failure wins; on success,
      the index of the invite (the first one stored with the code). */
  function CheckInvite(invites: seq<TournamentInvite>, tournamentId: ObjectId, code: string,
                       displayName: string, nowMs: int): (r: Result<nat, string>)
    ensures IsBlank(displayName) ==> r == Err(DisplayNameEmptyError)
    ensures !IsBlank(displayName) && (forall inv :: inv in invites ==> inv.code != code) ==> r == Err(InvalidCodeError)
    ensures r.Ok? ==>
      && r.value < |invites|
      && invites[r.value].code == code
      && (forall j :: 0 <= j < r.value ==> invites[j].code != code)
      && invites[r.value].tournamentId == tournamentId
      && nowMs <= invites[r.value].expiresAt
      && invites[r.value].currentUses < invites[r.value].maxUses
  {
    if IsBlank(displayName) then Err(DisplayNameEmptyError)
    else
      match FindFirst(invites, (inv: TournamentInvite) => inv.code == code)
      case None => Err(InvalidCodeError)
      case Some(i) =>
        var inv := invites[i];
        if inv.tournamentId != tournamentId then Err(CodeMismatchError)
        else if nowMs > inv.expiresAt then Err(ExpiredError)
        else if inv.currentUses >= inv.maxUses then Err(ExhaustedError)
        else Ok(i)
  }

  /** For the first invite stored with the code, the remaining checks run in
      the order tournament, expiry (strictly after `expires_at`), uses. */
  lemma CheckInviteOrder(invites: seq<TournamentInvite>, tournamentId: ObjectId, code: string,
                         displayName: string, nowMs: int, i: nat)
    requires !IsBlank(displayName)
    requires i < |invites| && invites[i].code == code
    requires forall j :: 0 <= j < i ==> invites[j].code != code
    ensures CheckInvite(invites, tournamentId, code, displayName, nowMs)
      == if invites[i].tournamentId != tournamentId then Err(CodeMismatchError)
         else if nowMs > invites[i].expiresAt then Err(ExpiredError)
         else if invites[i].currentUses >= invites[i].maxUses then Err(ExhaustedError)
         else Ok(i)
  {
    var f := FindFirst(invites, (inv: TournamentInvite) => inv.code == code);
    assert f == Some(i);
  }

  /** A freshly stored invite is the one a join with its code finds, as long as
      no older invite has the same code: it is accepted until its expiry
      instant (inclusive) provided it allows at least one use. */
  lemma NewInviteAccepted(invites: seq<TournamentInvite>, inv: TournamentInvite, displayName: string, nowMs: int)
    requires forall earlier :: earlier in invites ==> earlier.code != inv.code
    requires !IsBlank(displayName) && inv.currentUses == 0
    ensures CheckInvite(invites + [inv], inv.tournamentId, inv.code, displayName, nowMs).Ok?
        <==> nowMs <= inv.expiresAt && inv.maxUses > 0
    ensures CheckInvite(invites + [inv], inv.tournamentId, inv.code, displayName, nowMs).Ok? ==>
        CheckInvite(invites + [inv], inv.tournamentId, inv.code, displayName, nowMs).value == |invites|
  {
    var all := invites + [inv];
    forall j | 0 <= j < |invites| ensures all[j].code != inv.code {
      assert all[j] in invites;
    }
    CheckInviteOrder(all, inv.tournamentId, inv.code, displayName, nowMs, |invites|);
  }

  /** A join adds a user and changes nothing else, so it keeps the invariant. */
  lemma JoinKeepsTournamentOk(t: Tournament, u: TournamentUser)
    requires TournamentOk(t)
    ensures TournamentOk(t.(users := t.users + [u]))
  {
    forall i, j | 0 <= i < |t.rounds| && 0 <= j < |t.rounds[i].matches|
      ensures MatchOk(t.rounds[i].matches[j], t.users + [u])
    {
      MatchOkMoreUsers(t.rounds[i].matches[j], t.users, [u]);
    }
  }

  /** Every stored tournament is filed under its own id and satisfies the
      tournament invariant. */
  ghost predicate StoredOk(ts: map<ObjectId, Tournament>)
  {
    forall id :: id in ts ==> ts[id].id == Some(id) && TournamentOk(ts[id])
  }

  lemma StoredOkUpdate(ts: map<ObjectId, Tournament>, id: ObjectId, t: Tournament)
    requires StoredOk(ts) && t.id == Some(id) && TournamentOk(t)
    ensures StoredOk(ts[id := t])
  {
  }

  /** Stored invite ids are distinct. */
  ghost predicate InviteIdsDistinct(invites: seq<TournamentInvite>)
  {
    forall i, j :: 0 <= i < j < |invites| && invites[i].id.Some? ==> invites[i].id != invites[j].id
  }

  /** What the token service hands back for an anonymous participant. */
  datatype AnonymousToken = AnonymousToken(accessToken: string, tokenType: string, sessionId: string)

  /** One more use of an invite (the invite repository's `increment_uses`). */
  function Spend(inv: TournamentInvite): (r: TournamentInvite)
    requires inv.currentUses < inv.maxUses
    ensures r.currentUses == inv.currentUses + 1 <= r.maxUses
    ensures r == inv.(currentUses := r.currentUses)
  {
    inv.(currentUses := inv.currentUses + 1)
  }

  /** What `join_tournament` returns and leaves in the two collections. The
      user is written before the invite's id is looked at, so an invite
      without id fails with the user already added. */
  ghost function JoinOutcome(ts: map<ObjectId, Tournament>, invites: seq<TournamentInvite>, tournamentId: ObjectId,
                             code: string, displayName: string, nowMs: int, token: Result<AnonymousToken, string>)
    : (r: (Result<JoinTournamentResponse, string>, map<ObjectId, Tournament>, seq<TournamentInvite>))
  {
    match CheckInvite(invites, tournamentId, code, displayName, nowMs)
    case Err(e) => (Err(e), ts, invites)
    case Ok(i) =>
      if tournamentId !in ts then (Err(TournamentNotFoundError), ts, invites)
      else if token.Err? then (Err(TokenErrorPrefix + token.error), ts, invites)
      else
        var t := ts[tournamentId];
        var joined := ts[tournamentId := t.(users := t.users + [TournamentUser(Anonymous(token.value.sessionId), displayName)])];
        if invites[i].id.None? then (Err(InviteWithoutIdError), joined, invites)
        else
          (Ok(JoinTournamentResponse(token.value.accessToken, token.value.tokenType, token.value.sessionId,
                                     displayName, tournamentId)),
           joined,
           invites[i := Spend(invites[i])])
  }

  /** A failed check, a missing tournament or a failed token leaves both
      collections as they were. */
  lemma JoinFailureChangesNothing(ts: map<ObjectId, Tournament>, invites: seq<TournamentInvite>,
                                  tournamentId: ObjectId, code: string, displayName: string, nowMs: int,
                                  token: Result<AnonymousToken, string>)
    requires CheckInvite(invites, tournamentId, code, displayName, nowMs).Err? || tournamentId !in ts || token.Err?
    ensures JoinOutcome(ts, invites, tournamentId, code, displayName, nowMs, token)
      == (JoinOutcome(ts, invites, tournamentId, code, displayName, nowMs, token).0, ts, invites)
    ensures JoinOutcome(ts, invites, tournamentId, code, displayName, nowMs, token).0.Err?
  {
  }

  /** `JoinOutcome` when a check fails before anything is written. */
  lemma JoinOutcomeOnFail(ts: map<ObjectId, Tournament>, invites: seq<TournamentInvite>, tournamentId: ObjectId,
                          code: string, displayName: string, nowMs: int, token: Result<AnonymousToken, string>)
    ensures CheckInvite(invites, tournamentId, code, displayName, nowMs).Err? ==>
      JoinOutcome(ts, invites, tournamentId, code, displayName, nowMs, token)
        == (Err(CheckInvite(invites, tournamentId, code, displayName, nowMs).error), ts, invites)
    ensures CheckInvite(invites, tournamentId, code, displayName, nowMs).Ok? && tournamentId !in ts ==>
      JoinOutcome(ts, invites, tournamentId, code, displayName, nowMs, token) == (Err(TournamentNotFoundError), ts, invites)
    ensures CheckInvite(invites, tournamentId, code, displayName, nowMs).Ok? && tournamentId in ts && token.Err? ==>
      JoinOutcome(ts, invites, tournamentId, code, displayName, nowMs, token)
        == (Err(TokenErrorPrefix + token.error), ts, invites)
  {
  }

  /** `JoinOutcome` once every check has passed. */
  lemma JoinOutcomeOnPass(ts: map<ObjectId, Tournament>, invites: seq<TournamentInvite>, tournamentId: ObjectId,
                          code: string, displayName: string, nowMs: int, token: Result<AnonymousToken, string>, i: nat)
    requires CheckInvite(invites, tournamentId, code, displayName, nowMs) == Ok(i)
    requires tournamentId in ts && token.Ok?
    ensures i < |invites| && invites[i].currentUses < invites[i].maxUses
    ensures var t := ts[tournamentId];
      var joined := ts[tournamentId := t.(users := t.users + [TournamentUser(Anonymous(token.value.sessionId), displayName)])];
      JoinOutcome(ts, invites, tournamentId, code, displayName, nowMs, token)
        == if invites[i].id.None? then (Err(InviteWithoutIdError), joined, invites)
           else (Ok(JoinTournamentResponse(token.value.accessToken, token.value.tokenType, token.value.sessionId,
                                           displayName, tournamentId)),
                 joined,
                 invites[i := Spend(invites[i])])
  {
  }

  /** Appending a user to one stored tournament makes that voter its
      participant and touches nothing else. */
  lemma AddUserEffect(ts: map<ObjectId, Tournament>, tournamentId: ObjectId, u: TournamentUser)
    requires tournamentId in ts
    ensures var t := ts[tournamentId]; var joined := ts[tournamentId := t.(users := t.users + [u])];
      && joined.Keys == ts.Keys
      && IsParticipant(joined[tournamentId].users, u.voterId)
      && joined[tournamentId] == t.(users := t.users + [u])
      && (forall id :: id in ts && id != tournamentId ==> joined[id] == ts[id])
  {
    var t := ts[tournamentId];
    assert (t.users + [u])[|t.users|] == u;
  }

  /** A successful join makes the session a participant of exactly that
      tournament: one more user, everything else about it as it was, every
      other tournament untouched. */
  lemma JoinAddsParticipant(ts: map<ObjectId, Tournament>, invites: seq<TournamentInvite>, tournamentId: ObjectId,
                            code: string, displayName: string, nowMs: int, token: Result<AnonymousToken, string>)
    requires JoinOutcome(ts, invites, tournamentId, code, displayName, nowMs, token).0.Ok?
    ensures token.Ok? && tournamentId in ts
    ensures var joined := JoinOutcome(ts, invites, tournamentId, code, displayName, nowMs, token).1;
      var u := TournamentUser(Anonymous(token.value.sessionId), displayName);
      && joined.Keys == ts.Keys
      && IsParticipant(joined[tournamentId].users, Anonymous(token.value.sessionId))
      && joined[tournamentId] == ts[tournamentId].(users := ts[tournamentId].users + [u])
      && (forall id :: id in ts && id != tournamentId ==> joined[id] == ts[id])
  {
    var i := CheckInvite(invites, tournamentId, code, displayName, nowMs).value;
    JoinOutcomeOnPass(ts, invites, tournamentId, code, displayName, nowMs, token, i);
    AddUserEffect(ts, tournamentId, TournamentUser(Anonymous(token.value.sessionId), displayName));
  }

  /** A successful join spends one use of the first invite stored with the
      code, which stays within its limit; no other invite changes. */
  lemma JoinSpendsOneUse(ts: map<ObjectId, Tournament>, invites: seq<TournamentInvite>, tournamentId: ObjectId,
                         code: string, displayName: string, nowMs: int, token: Result<AnonymousToken, string>)
    requires JoinOutcome(ts, invites, tournamentId, code, displayName, nowMs, token).0.Ok?
    ensures CheckInvite(invites, tournamentId, code, displayName, nowMs).Ok?
    ensures var i := CheckInvite(invites, tournamentId, code, displayName, nowMs).value;
      var spent := JoinOutcome(ts, invites, tournamentId, code, displayName, nowMs, token).2;
      && invites[i].code == code && (forall j :: 0 <= j < i ==> invites[j].code != code)
      && |spent| == |invites| && spent[i].currentUses == invites[i].currentUses + 1
      && spent[i].currentUses <= spent[i].maxUses
      && (forall j :: 0 <= j < |invites| && j != i ==> spent[j] == invites[j])
  {
    var i := CheckInvite(invites, tournamentId, code, displayName, nowMs).value;
    assert tournamentId in ts && token.Ok? && invites[i].id.Some?;
    assert JoinOutcome(ts, invites, tournamentId, code, displayName, nowMs, token).2 == invites[i := Spend(invites[i])];
  }

  /** The service over its two collections: tournaments by id and invites in
      insertion order (a lookup by code takes the first match). */
  class TournamentServiceImpl {
    var tournaments: map<ObjectId, Tournament>
    var invites: seq<TournamentInvite>

    ghost predicate Valid()
      reads this
    {
      StoredOk(tournaments) && InviteIdsDistinct(invites)
    }

    constructor ()
      ensures Valid() && tournaments == map[] && invites == []
    {
      tournaments := map[];
      invites := [];
    }

    /** `create_tournament`: validates, builds round 1 and the tournament, and
        stores it under the id the database assigns (`newId`, not yet used).
        The tournament handed back is the one built, still without an id. */
    method CreateTournament(name: string, createdBy: ObjectId, opponents: seq<OpponentDto>, users: seq<UserDto>,
                            matchId: nat -> string, now: int, newId: ObjectId)
      returns (r: Result<Tournament, string>)
      requires Valid() && newId !in tournaments
      modifies this
      ensures Valid() && invites == old(invites)
      ensures CreateTournamentCheck(name, opponents, users).Some? ==>
        r == Err(CreateTournamentCheck(name, opponents, users).value) && tournaments == old(tournaments)
      ensures CreateTournamentCheck(name, opponents, users).None? ==>
        var t := NewTournament(name, createdBy, opponents, users, Pairing(OpponentDtoIds(opponents), 1, matchId, now), now);
        r == Ok(t) && tournaments == old(tournaments)[newId := t.(id := Some(newId))]
    {
      if IsBlank(name) {
        return Err(EmptyNameError);
      }
      if |opponents| < 2 {
        return Err(TooFewOpponentsError);
      }
      if |users| == 0 {
        return Err(NoUsersError);
      }
      var initialRound := CreateInitialRound(opponents, matchId, now);
      var tournament := NewTournament(name, createdBy, opponents, users, initialRound, now);
      NewTournamentOk(name, createdBy, opponents, users, matchId, now, Some(newId));
      Insert(newId, tournament.(id := Some(newId)));
      r := Ok(tournament);
    }

    /** The repository's insert of a tournament under a new id. */
    method Insert(id: ObjectId, t: Tournament)
      requires Valid() && id !in tournaments && t.id == Some(id) && TournamentOk(t)
      modifies this
      ensures Valid() && invites == old(invites)
      ensures tournaments == old(tournaments)[id := t]
    {
      StoredOkUpdate(tournaments, id, t);
      tournaments := tournaments[id := t];
    }

    /** `vote_match`: loads the tournament, checks the voter, finds the match
        in the last round, applies the vote and advances the bracket, then
        writes the tournament back. Nothing is written on failure. */
    method VoteMatch(tournamentId: ObjectId, matchId: string, votedFor: ObjectId, voter: VoterId,
                     nextMatchId: nat -> string, now: int)
      returns (r: Result<Tournament, string>)
      requires Valid()
      modifies this
      ensures Valid() && invites == old(invites)
      ensures tournamentId !in old(tournaments) ==> r == Err(TournamentNotFoundError) && tournaments == old(tournaments)
      ensures tournamentId in old(tournaments) ==>
        && r == VoteOutcome(old(tournaments)[tournamentId], voter, matchId, votedFor, nextMatchId, now)
        && tournaments == if r.Ok? then old(tournaments)[tournamentId := r.value] else old(tournaments)
    {
      if tournamentId !in tournaments {
        return Err(TournamentNotFoundError);
      }
      var tournament := tournaments[tournamentId];
      ghost var loaded := tournament;
      if !IsParticipant(tournament.users, voter) {
        return Err(NotParticipantError);
      }
      var ri := |tournament.rounds| - 1;
      var found := FindMatch(tournament.rounds[ri].matches, matchId);
      if found.None? {
        return Err(MatchNotFoundError);
      }
      var mi := found.value;
      var voted, outcome := ProcessVote(tournament.rounds[ri].matches[mi], voter, votedFor, tournament.users);
      if outcome.Err? {
        return Err(outcome.error);
      }
      var current := tournament.rounds[ri].(matches := tournament.rounds[ri].matches[mi := voted]);
      tournament := tournament.(rounds := tournament.rounds[ri := current]);
      tournament := AdvanceBracket(tournament, outcome.value.Some?, nextMatchId, now);
      VoteKeepsTournamentOk(loaded, voter, matchId, votedFor, nextMatchId, now);
      VoteFrame(loaded, voter, matchId, votedFor, nextMatchId, now);
      assert tournament == VoteOutcome(loaded, voter, matchId, votedFor, nextMatchId, now).value;
      Update(tournamentId, tournament);
      r := Ok(tournament);
    }

    /** The repository's update of a stored tournament. */
    method Update(id: ObjectId, t: Tournament)
      requires Valid() && id in tournaments && t.id == Some(id) && TournamentOk(t)
      modifies this
      ensures Valid() && invites == old(invites)
      ensures tournaments == old(tournaments)[id := t]
    {
      StoredOkUpdate(tournaments, id, t);
      tournaments := tournaments[id := t];
    }

    /** The invite repository's `increment_uses`: one more use of invite `i`. */
    method IncrementUses(i: nat)
      requires Valid() && i < |invites| && invites[i].currentUses < invites[i].maxUses
      modifies this
      ensures Valid() && tournaments == old(tournaments)
      ensures invites == old(invites)[i := Spend(old(invites)[i])]
    {
      var invite := invites[i];
      assert InviteIdsDistinct(invites[i := Spend(invite)]) by {
        var updated := invites[i := Spend(invite)];
        assert forall k :: 0 <= k < |invites| ==> updated[k].id == invites[k].id;
      }
      invites := invites[i := Spend(invite)];
    }

    /** `create_invite`: only for an Active tournament; up to 10 uses and 24
        hours unless given; the code is the first 8 characters of a fresh
        36-character uuid; the invite is stored with no uses yet under the id
        the database assigns (`newId`, not yet used). */
    method CreateInvite(tournamentId: ObjectId, maxUses: Option<U32>, expiresInHours: Option<U32>,
                        createdBy: ObjectId, nowMs: int, nowSecs: int, uuid: string, newId: ObjectId)
      returns (r: Result<InviteResponse, string>)
      requires Valid() && |uuid| == 36
      requires forall inv :: inv in invites ==> inv.id != Some(newId)
      modifies this
      ensures Valid() && tournaments == old(tournaments)
      ensures tournamentId !in tournaments ==> r == Err(TournamentNotFoundError) && invites == old(invites)
      ensures tournamentId in tournaments && tournaments[tournamentId].status != Active ==>
        r == Err(NotActiveError) && invites == old(invites)
      ensures tournamentId in tournaments && tournaments[tournamentId].status == Active ==>
        var max := if maxUses.Some? then maxUses.value else DefaultMaxUses;
        var expiresAt := InviteExpiry(nowSecs, expiresInHours);
        && r == Ok(InviteResponse(uuid[..8], tournamentId, max, expiresAt))
        && |r.value.code| == 8
        && invites == old(invites) + [TournamentInvite(Some(newId), uuid[..8], tournamentId, max, 0, expiresAt, createdBy, nowMs)]
    {
      if tournamentId !in tournaments {
        return Err(TournamentNotFoundError);
      }
      if tournaments[tournamentId].status != Active {
        return Err(NotActiveError);
      }
      var max := if maxUses.Some? then maxUses.value else DefaultMaxUses;
      var expiresAt := InviteExpiry(nowSecs, expiresInHours);
      var code := uuid[..8];
      var invite := TournamentInvite(None, code, tournamentId, max, 0, expiresAt, createdBy, nowMs);
      invites := invites + [invite.(id := Some(newId))];
      r := Ok(InviteResponse(code, tournamentId, max, expiresAt));
    }

    /** The checks that open `join_tournament`, in its order: display name,
        invite code, tournament, expiry, uses. */
    method ValidateJoin(tournamentId: ObjectId, inviteCode: string, displayName: string, nowMs: int)
      returns (r: Result<nat, string>)
      ensures r == CheckInvite(invites, tournamentId, inviteCode, displayName, nowMs)
    {
      if IsBlank(displayName) {
        return Err(DisplayNameEmptyError);
      }
      var found := FindFirst(invites, (inv: TournamentInvite) => inv.code == inviteCode);
      if found.None? {
        return Err(InvalidCodeError);
      }
      var i := found.value;
      var invite := invites[i];
      CheckInviteOrder(invites, tournamentId, inviteCode, displayName, nowMs, i);
      if invite.tournamentId != tournamentId {
        return Err(CodeMismatchError);
      }
      if nowMs > invite.expiresAt {
        return Err(ExpiredError);
      }
      if invite.currentUses >= invite.maxUses {
        return Err(ExhaustedError);
      }
      r := Ok(i);
    }

    /** `join_tournament`: checks the display name and the invite, loads the
        tournament, takes the token, appends the anonymous user with the name
        as given and writes the tournament, then counts one use of the invite;
        the outcome and both new collections are `JoinOutcome`'s. */
    method JoinTournament(tournamentId: ObjectId, inviteCode: string, displayName: string, nowMs: int,
                          token: Result<AnonymousToken, string>)
      returns (r: Result<JoinTournamentResponse, string>)
      requires Valid()
      modifies this
      ensures Valid()
      ensures (r, tournaments, invites)
        == JoinOutcome(old(tournaments), old(invites), tournamentId, inviteCode, displayName, nowMs, token)
    {
      JoinOutcomeOnFail(tournaments, invites, tournamentId, inviteCode, displayName, nowMs, token);
      var checked := ValidateJoin(tournamentId, inviteCode, displayName, nowMs);
      if checked.Err? {
        return Err(checked.error);
      }
      var i := checked.value;
      if tournamentId !in tournaments {
        return Err(TournamentNotFoundError);
      }
      if token.Err? {
        return Err(TokenErrorPrefix + token.error);
      }
      JoinOutcomeOnPass(tournaments, invites, tournamentId, inviteCode, displayName, nowMs, token, i);
      r := Admit(tournamentId, i, token.value, displayName);
    }

    /** The writing half of `join_tournament`: the anonymous user is appended
        and the tournament written; then an invite without id fails, and
        otherwise its use is counted and the token handed out. */
    method Admit(tournamentId: ObjectId, i: nat, token: AnonymousToken, displayName: string)
      returns (r: Result<JoinTournamentResponse, string>)
      requires Valid() && tournamentId in tournaments
      requires i < |invites| && invites[i].currentUses < invites[i].maxUses
      modifies this
      ensures Valid()
      ensures var t := old(tournaments)[tournamentId];
        tournaments == old(tournaments)[tournamentId := t.(users := t.users + [TournamentUser(Anonymous(token.sessionId), displayName)])]
      ensures old(invites)[i].id.None? ==> r == Err(InviteWithoutIdError) && invites == old(invites)
      ensures old(invites)[i].id.Some? ==>
        && r == Ok(JoinTournamentResponse(token.accessToken, token.tokenType, token.sessionId, displayName, tournamentId))
        && invites == old(invites)[i := Spend(old(invites)[i])]
    {
      var tournament := tournaments[tournamentId];
      var user := TournamentUser(Anonymous(token.sessionId), displayName);
      JoinKeepsTournamentOk(tournament, user);
      tournament := tournament.(users := tournament.users + [user]);
      Update(tournamentId, tournament);
      if invites[i].id.None? {
        return Err(InviteWithoutIdError);
      }
      IncrementUses(i);
      r := Ok(JoinTournamentResponse(token.accessToken, token.tokenType, token.sessionId, displayName, tournamentId));
    }
  }
}
