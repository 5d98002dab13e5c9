/**
 * The lobby and session operations (gameSession/service/impl/DefaultGameSessionService.java):
 * creating a game, joining and leaving a team, voting for a team leader and
 * electing the leaders. The session repository is a map from session id to
 * session value; an operation that throws saves nothing, so the map is left
 * as it was. The user service is the user list, queried by id.
 */
module GameSessionService {
  import opened Wrappers
  import Users
  import Cards
  import GameStates
  import GameSessions
  import GameStateService

  type Session = GameSessions.GameSession
  type Teams = seq<seq<Users.User>>

  datatype SessionError =
    | SessionNotFound      // the repository lookup's orElseThrow / a null session
    | NullPointer          // a null connectedUsers, votes or maxPlayers dereferenced
    | IndexOutOfBounds     // List.get past the end
    | VotedUserNotFound    // "Voted user not found in the team"
    | NoLeader             // "No leader could be determined."
    | NotTwoTeams          // "Expected exactly two teams for leader assignment."
    | UserNotFound         // "User not found for ID: ..."

  // ---------------------------------------------------------------------------
  // Voting

  /**
   * submitVote on one session: in the first team holding the voter, one more
   * vote for the voted member. A voter on no team changes nothing; a voted
   * user outside the voter's team, and a null or short vote list, throw.
   */
  function Vote(s: Session, userId: string, votedUserId: string): (r: Result<Session, SessionError>)
    ensures r.Ok? ==> r.value == s.(votes := r.value.votes)
  {
    if s.connectedUsers.None? then Err(NullPointer)
    else
      var teams := s.connectedUsers.value;
      var t := GameSessions.TeamIndexOf(teams, userId);
      if t == |teams| then Ok(s)
      else
        var v := GameSessions.MemberIndex(teams[t], votedUserId);
        if v == |teams[t]| then Err(VotedUserNotFound)
        else if s.votes.None? then Err(NullPointer)
        else if t >= |s.votes.value| || v >= |s.votes.value[t]| then Err(IndexOutOfBounds)
        else
          var votes := s.votes.value;
          Ok(s.(votes := Some(votes[t := votes[t][v := votes[t][v] + 1]])))
  }

  /** Sum of all counters in all teams. */
  function TotalVotes(votes: seq<seq<int>>): int
  {
    if |votes| == 0 then 0 else Sum(votes[0]) + TotalVotes(votes[1..])
  }

  function Sum(s: seq<int>): int
  {
    if |s| == 0 then 0 else s[0] + Sum(s[1..])
  }

  lemma {:induction false} SumUpdate(s: seq<int>, i: nat, x: int)
    requires i < |s|
    ensures Sum(s[i := x]) == Sum(s) - s[i] + x
  {
    if i > 0 {
      assert s[i := x][1..] == s[1..][i - 1 := x];
      SumUpdate(s[1..], i - 1, x);
    }
  }

  lemma {:induction false} TotalVotesUpdate(votes: seq<seq<int>>, t: nat, team: seq<int>)
    requires t < |votes|
    ensures TotalVotes(votes[t := team]) == TotalVotes(votes) - Sum(votes[t]) + Sum(team)
  {
    if t > 0 {
      assert votes[t := team][1..] == votes[1..][t - 1 := team];
      TotalVotesUpdate(votes[1..], t - 1, team);
    }
  }

  /**
   * A vote that is counted changes exactly one counter, the voted member's
   * in the voter's team, by one, so the total grows by exactly one; a voter
   * on no team leaves the votes as they were.
   */
  lemma VoteCountsOnce(s: Session, userId: string, votedUserId: string)
    requires Vote(s, userId, votedUserId).Ok?
    ensures var r := Vote(s, userId, votedUserId).value;
      var teams := s.connectedUsers.value;
      var t := GameSessions.TeamIndexOf(teams, userId);
      if t == |teams| then r == s
      else
        var v := GameSessions.MemberIndex(teams[t], votedUserId);
        s.votes.Some? && r.votes.Some?
        && teams[t][v].id == votedUserId && GameSessions.OnTeam(teams[t], userId)
        && |r.votes.value| == |s.votes.value|
        && (forall k :: 0 <= k < |s.votes.value| && k != t ==> r.votes.value[k] == s.votes.value[k])
        && |r.votes.value[t]| == |s.votes.value[t]|
        && (forall j :: 0 <= j < |s.votes.value[t]| && j != v ==> r.votes.value[t][j] == s.votes.value[t][j])
        && r.votes.value[t][v] == s.votes.value[t][v] + 1
        && TotalVotes(r.votes.value) == TotalVotes(s.votes.value) + 1
  {
    var teams := s.connectedUsers.value;
    var t := GameSessions.TeamIndexOf(teams, userId);
    if t < |teams| {
      var v := GameSessions.MemberIndex(teams[t], votedUserId);
      var votes := s.votes.value;
      SumUpdate(votes[t], v, votes[t][v] + 1);
      TotalVotesUpdate(votes, t, votes[t][v := votes[t][v] + 1]);
    }
  }

  // ---------------------------------------------------------------------------
  // Electing a leader

  /**
   * Index of the first of the first n counters holding the largest count
   * above -1 (the strict > of findLeader keeps the earliest on ties), or -1
   * when none is above -1.
   */
  function BestIndex(votes: seq<int>, n: nat): (b: int)
    requires n <= |votes|
    ensures -1 <= b < n
    ensures b == -1 <==> forall i :: 0 <= i < n ==> votes[i] <= -1
    ensures b >= 0 ==> votes[b] > -1
    ensures b >= 0 ==> forall i :: 0 <= i < n ==> votes[i] <= votes[b]
    ensures b >= 0 ==> forall i :: 0 <= i < b ==> votes[i] < votes[b]
  {
    if n == 0 then -1
    else
      var b := BestIndex(votes, n - 1);
      if votes[n - 1] > (if b < 0 then -1 else votes[b]) then n - 1 else b
  }

  /** findLeader as a function: the counters must reach every member, and some member must have a count above -1. */
  function LeaderOf(team: seq<Users.User>, teamVotes: seq<int>): (r: Result<Users.User, SessionError>)
    ensures r == Err(IndexOutOfBounds) <==> |teamVotes| < |team|
    ensures r == Err(NoLeader) <==> |team| <= |teamVotes| && forall i :: 0 <= i < |team| ==> teamVotes[i] <= -1
    ensures r.Ok? ==> exists i :: (0 <= i < |team| && r.value == team[i]
                                   && (forall j :: 0 <= j < |team| ==> teamVotes[j] <= teamVotes[i])
                                   && (forall j :: 0 <= j < i ==> teamVotes[j] < teamVotes[i]))
  {
    if |teamVotes| < |team| then Err(IndexOutOfBounds)
    else
      var b := BestIndex(teamVotes, |team|);
      if b < 0 then Err(NoLeader) else Ok(team[b])
  }

  /** An empty team never yields a leader. */
  lemma EmptyTeamHasNoLeader(teamVotes: seq<int>)
    ensures LeaderOf([], teamVotes) == Err(NoLeader)
  {
  }

  /** findLeader: one pass over the team, keeping the first member with the highest count so far. */
  method FindLeader(team: seq<Users.User>, teamVotes: seq<int>) returns (r: Result<Users.User, SessionError>)
    ensures r == LeaderOf(team, teamVotes)
  {
    var maxVotes := -1;
    var leader: Option<Users.User> := None;
    var i := 0;
    while i < |team|
      invariant 0 <= i <= |team|
      invariant i <= |teamVotes|
      invariant var b := BestIndex(teamVotes, i);
        maxVotes == (if b < 0 then -1 else teamVotes[b])
        && leader == (if b < 0 then None else Some(team[b]))
    {
      if i >= |teamVotes| {
        return Err(IndexOutOfBounds);
      }
      if teamVotes[i] > maxVotes {
        maxVotes := teamVotes[i];
        leader := Some(team[i]);
      }
      i := i + 1;
    }
    if leader.None? {
      return Err(NoLeader);
    }
    return Ok(leader.value);
  }

  // ---------------------------------------------------------------------------
  // Joining and leaving

  /** The session after the user joins team teamIndex with a vote counter of 0. */
  function Joined(s: Session, user: Users.User, teamIndex: nat): Session
    requires s.connectedUsers.Some? && teamIndex < |s.connectedUsers.value|
    requires s.votes.Some? && teamIndex < |s.votes.value|
  {
    var teams, votes := s.connectedUsers.value, s.votes.value;
    s.(connectedUsers := Some(teams[teamIndex := teams[teamIndex] + [user]]),
       votes := Some(votes[teamIndex := votes[teamIndex] + [0]]))
  }

  predicate OnAnyTeam(teams: Teams, userId: string)
  {
    GameSessions.TeamIndexOf(teams, userId) < |teams|
  }

  /**
   * addPlayerToSession on one session: Ok(false) when the lobby is full, the
   * team index is out of range or the user already plays; a null player
   * count, a null team list, an unknown user or a missing vote list throw;
   * otherwise Ok(true).
   */
  function AddPlayer(s: Session, users: seq<Users.User>, userId: string, teamIndex: int): Result<bool, SessionError>
  {
    if s.connectedUsers.None? || s.maxPlayers.None? then Err(NullPointer)
    else
      var teams := s.connectedUsers.value;
      if s.maxPlayers.value == GameSessions.PlayerCount(teams) then Ok(false)
      else if teamIndex < 0 || teamIndex >= |teams| then Ok(false)
      else if OnAnyTeam(teams, userId) then Ok(false)
      else if Users.FindById(users, userId).None? then Err(UserNotFound)
      else if s.votes.None? then Err(NullPointer)
      else if teamIndex >= |s.votes.value| then Err(IndexOutOfBounds)
      else Ok(true)
  }

  /** Every team has one vote counter per member. */
  predicate Aligned(teams: Teams, votes: seq<seq<int>>)
  {
    |teams| == |votes| && forall i :: 0 <= i < |teams| ==> |teams[i]| == |votes[i]|
  }

  lemma {:induction false} PlayerCountUpdate(teams: Teams, t: nat, team: seq<Users.User>)
    requires t < |teams|
    ensures GameSessions.PlayerCount(teams[t := team]) == GameSessions.PlayerCount(teams) - |teams[t]| + |team|
  {
    if t > 0 {
      assert teams[t := team][1..] == teams[1..][t - 1 := team];
      PlayerCountUpdate(teams[1..], t - 1, team);
    }
  }

  /**
   * A successful join appends the user at the end of the chosen team, adds
   * one player in all, touches no other team, and keeps every team's vote
   * list as long as the team.
   */
  lemma JoinKeepsTeamsAndVotesAligned(s: Session, user: Users.User, teamIndex: nat)
    requires s.connectedUsers.Some? && s.votes.Some?
    requires Aligned(s.connectedUsers.value, s.votes.value)
    requires teamIndex < |s.connectedUsers.value|
    ensures var j := Joined(s, user, teamIndex);
      Aligned(j.connectedUsers.value, j.votes.value)
      && j.connectedUsers.value[teamIndex] == s.connectedUsers.value[teamIndex] + [user]
      && j.votes.value[teamIndex] == s.votes.value[teamIndex] + [0]
      && GameSessions.PlayerCount(j.connectedUsers.value) == GameSessions.PlayerCount(s.connectedUsers.value) + 1
      && forall k :: 0 <= k < |s.connectedUsers.value| && k != teamIndex ==> j.connectedUsers.value[k] == s.connectedUsers.value[k]
  {
    var teams := s.connectedUsers.value;
    PlayerCountUpdate(teams, teamIndex, teams[teamIndex] + [user]);
  }

  /** The three refusals of a join, and a join of a known user into an aligned session always succeeding otherwise. */
  lemma AddPlayerRefusals(s: Session, users: seq<Users.User>, userId: string, teamIndex: int)
    requires s.connectedUsers.Some? && s.maxPlayers.Some?
    ensures var teams := s.connectedUsers.value;
      var refused := s.maxPlayers.value == GameSessions.PlayerCount(teams)
                     || teamIndex < 0 || teamIndex >= |teams| || OnAnyTeam(teams, userId);
      (refused ==> AddPlayer(s, users, userId, teamIndex) == Ok(false))
      && (!refused && s.votes.Some? && Aligned(teams, s.votes.value) && Users.FindById(users, userId).Some?
          ==> AddPlayer(s, users, userId, teamIndex) == Ok(true))
  {
  }

  /** removeIf on a team: every member with the id is dropped, the others keep their order. */
  function Without(team: seq<Users.User>, userId: string): (r: seq<Users.User>)
    ensures |r| <= |team|
    ensures !GameSessions.OnTeam(r, userId)
    ensures forall u :: u in r <==> u in team && u.id != userId
  {
    if |team| == 0 then []
    else if team[0].id == userId then Without(team[1..], userId)
    else [team[0]] + Without(team[1..], userId)
  }

  /** A member's removal makes the team strictly smaller. */
  lemma {:induction false} WithoutShrinks(team: seq<Users.User>, userId: string)
    requires GameSessions.OnTeam(team, userId)
    ensures |Without(team, userId)| < |team|
  {
    if team[0].id != userId {
      var k :| 0 <= k < |team| && team[k].id == userId;
      assert team[1..][k - 1].id == userId;
      WithoutShrinks(team[1..], userId);
    }
  }

  /**
   * removePlayerFromSession on the teams: the first team holding the user
   * loses every member with that id; no team or no such user is false.
   */
  function Remove(teams: Teams, userId: string): (r: (bool, Teams))
  {
    var t := GameSessions.TeamIndexOf(teams, userId);
    if t == |teams| then (false, teams) else (true, teams[t := Without(teams[t], userId)])
  }

  /**
   * A removal takes the user out of the first team holding them, leaves the
   * other teams as they were, and shortens that team while its vote list
   * keeps its length: the vote counters no longer line up with the members.
   */
  lemma RemoveTakesUserOut(s: Session, userId: string)
    requires s.connectedUsers.Some?
    requires s.votes.Some? && Aligned(s.connectedUsers.value, s.votes.value)
    ensures var teams := s.connectedUsers.value;
      var (removed, after) := Remove(teams, userId);
      (removed <==> OnAnyTeam(teams, userId))
      && |after| == |teams|
      && (removed ==> !OnAnyTeam(after[..GameSessions.TeamIndexOf(teams, userId) + 1], userId))
      && (forall k :: 0 <= k < |teams| && k != GameSessions.TeamIndexOf(teams, userId) ==> after[k] == teams[k])
      && (removed ==> !Aligned(after, s.votes.value))
  {
    var teams := s.connectedUsers.value;
    var t := GameSessions.TeamIndexOf(teams, userId);
    if t < |teams| {
      var after := Remove(teams, userId).1;
      WithoutShrinks(teams[t], userId);
      var prefix := after[..t + 1];
      assert forall k :: 0 <= k < t ==> prefix[k] == teams[k];
      assert prefix[t] == Without(teams[t], userId);
      NotOnPrefix(prefix, userId);
      assert |after[t]| != |s.votes.value[t]|;
    }
  }

  lemma {:induction false} NotOnPrefix(teams: Teams, userId: string)
    requires forall k :: 0 <= k < |teams| ==> !GameSessions.OnTeam(teams[k], userId)
    ensures GameSessions.TeamIndexOf(teams, userId) == |teams|
  {
    if |teams| > 0 {
      NotOnPrefix(teams[1..], userId);
    }
  }

  // ---------------------------------------------------------------------------
  // The service

  class GameSessionService {
    var sessions: map<GameSessions.Uuid, Session>
    var users: seq<Users.User>

    constructor(users: seq<Users.User>)
      ensures this.sessions == map[] && this.users == users
    {
      this.sessions := map[];
      this.users := users;
    }

    /**
     * createGameSession: a new game state with 25 named and coloured cards,
     * red to play, scores 0 and a zero vote counter per card; two empty
     * teams and two empty vote lists; stored under the new id, which is
     * returned as text. An empty card catalogue throws while the names are
     * drawn, before anything is stored. The id, the draws and the clock are
     * parameters; nowMillis is System.currentTimeMillis(), in milliseconds.
     */
    method CreateGameSession(gameName: string, maxPlayers: Option<int>, timeForAHint: Option<int>, timeForGuessing: Option<int>,
                             language: Option<string>, allCards: seq<Cards.Card>, nameDraws: seq<nat>, colorDraws: seq<nat>,
                             newId: GameSessions.Uuid, nowMillis: int)
      returns (r: Result<string, GameStateService.GameError>)
      requires |allCards| > 0 ==> |GameStateService.Drawn(nameDraws, |allCards|)| >= 25
      requires |colorDraws| >= 24
      modifies this
      ensures users == old(users)
      ensures r.Err? <==> |allCards| == 0
      ensures r.Err? ==> r.error == GameStateService.EmptyCardCatalogue && sessions == old(sessions)
      ensures r.Ok? ==> r.value == newId.text && newId in sessions && sessions == old(sessions)[newId := sessions[newId]]
      ensures r.Ok? ==> var s := sessions[newId];
        s.status == Some(GameSessions.CREATED) && s.sessionId == Some(newId)
        && s.gameName == gameName && s.maxPlayers == maxPlayers
        && s.timeForAHint == timeForAHint && s.timeForGuessing == timeForGuessing
        && s.votingStartTime == Some(nowMillis)
        && s.connectedUsers == Some([[], []]) && s.votes == Some([[], []])
        && fresh(s.gameState)
        && s.gameState.teamTurn == 0 && s.gameState.redTeamScore == 0 && s.gameState.blueTeamScore == 0
        && |s.gameState.cards| == 25 && |s.gameState.cardsColors| == 25
        && multiset(s.gameState.cardsColors) == GameStateService.Deck(9, 8, 1, 7)
        && |s.gameState.cardsVotes| == |s.gameState.cards|
        && (forall k :: 0 <= k < |s.gameState.cardsVotes| ==> s.gameState.cardsVotes[k] == 0)
      ensures r.Ok? ==> exists selected :: GameStateService.DealtFrom(sessions[newId].gameState.cards, selected, allCards, language)
    {
      var gameState := new GameStates.GameState();
      var dealt := GameStateService.GenerateRandomCardsNames(gameState, allCards, language, nameDraws);
      if dealt.Err? {
        return Err(dealt.error);
      }
      GameStateService.GenerateRandomCardsColors(gameState, colorDraws);
      gameState.teamTurn := 0;
      gameState.blueTeamScore := 0;
      gameState.redTeamScore := 0;
      gameState.cardsVotes := Zeros(|gameState.cards|);
      var newGame := GameSessions.GameSession(
        Some(GameSessions.CREATED), Some(newId), gameName, maxPlayers, "", timeForAHint, timeForGuessing,
        Some(nowMillis), false, Some([[], []]), Some([[], []]), gameState);
      sessions := sessions[newId := newGame];
      assert GameStateService.DealtFrom(sessions[newId].gameState.cards, dealt.value, allCards, language);
      return Ok(newId.text);
    }

    /** submitVote: the session's votes move by Vote; an error or an unknown session leaves the store as it was. */
    method SubmitVote(sessionId: GameSessions.Uuid, userId: string, votedUserId: string) returns (r: Result<(), SessionError>)
      modifies this
      ensures users == old(users)
      ensures sessionId !in old(sessions) ==> r == Err(SessionNotFound) && sessions == old(sessions)
      ensures sessionId in old(sessions) ==>
        var v := Vote(old(sessions)[sessionId], userId, votedUserId);
        (v.Err? ==> r == Err(v.error) && sessions == old(sessions))
        && (v.Ok? ==> r == Ok(()) && sessions == old(sessions)[sessionId := v.value])
    {
      if sessionId !in sessions {
        return Err(SessionNotFound);
      }
      var session := sessions[sessionId];
      if session.connectedUsers.None? {
        return Err(NullPointer);
      }
      var teams := session.connectedUsers.value;
      var teamIndex := 0;
      while teamIndex < |teams|
        invariant 0 <= teamIndex <= |teams|
        invariant forall k :: 0 <= k < teamIndex ==> !GameSessions.OnTeam(teams[k], userId)
        invariant sessions == old(sessions) && users == old(users)
      {
        var team := teams[teamIndex];
        if GameSessions.OnTeam(team, userId) {
          TeamIndexIs(teams, userId, teamIndex);
          var votedIndex := -1;
          var i := 0;
          while i < |team|
            invariant 0 <= i <= |team|
            invariant votedIndex == -1 && forall k :: 0 <= k < i ==> team[k].id != votedUserId
          {
            if team[i].id == votedUserId {
              votedIndex := i;
              break;
            }
            i := i + 1;
          }
          if votedIndex == -1 {
            return Err(VotedUserNotFound);
          }
          MemberIndexIs(team, votedUserId, votedIndex);
          if session.votes.None? {
            return Err(NullPointer);
          }
          var votes := session.votes.value;
          if teamIndex >= |votes| || votedIndex >= |votes[teamIndex]| {
            return Err(IndexOutOfBounds);
          }
          votes := votes[teamIndex := votes[teamIndex][votedIndex := votes[teamIndex][votedIndex] + 1]];
          sessions := sessions[sessionId := session.(votes := Some(votes))];
          return Ok(());
        }
        teamIndex := teamIndex + 1;
      }
      NotOnPrefix(teams, userId);
      return Ok(());
    }

    /**
     * assignTeamLeaders: with exactly two teams and two vote lists, the red
     * leader is elected from team 0 and the blue leader from team 1 and both
     * are set on the session's game state; any failure changes nothing.
     */
    method AssignTeamLeaders(sessionId: GameSessions.Uuid) returns (r: Result<(), SessionError>)
      modifies if sessionId in sessions then {sessions[sessionId].gameState} else {}
      ensures sessionId !in sessions ==> r == Err(SessionNotFound)
      ensures sessionId in sessions ==>
        var s := sessions[sessionId];
        var gs := s.gameState;
        if s.connectedUsers.None? then r == Err(NullPointer) && gs.State() == old(gs.State())
        else if |s.connectedUsers.value| != 2 then r == Err(NotTwoTeams) && gs.State() == old(gs.State())
        else if s.votes.None? then r == Err(NullPointer) && gs.State() == old(gs.State())
        else if |s.votes.value| != 2 then r == Err(NotTwoTeams) && gs.State() == old(gs.State())
        else
          var red := LeaderOf(s.connectedUsers.value[0], s.votes.value[0]);
          var blue := LeaderOf(s.connectedUsers.value[1], s.votes.value[1]);
          if red.Err? then r == Err(red.error) && gs.State() == old(gs.State())
          else if blue.Err? then r == Err(blue.error) && gs.State() == old(gs.State())
          else r == Ok(()) && gs.State() == old(gs.State()).(redTeamLeader := Some(red.value), blueTeamLeader := Some(blue.value))
    {
      if sessionId !in sessions {
        return Err(SessionNotFound);
      }
      var session := sessions[sessionId];
      if session.connectedUsers.None? {
        return Err(NullPointer);
      }
      var teams := session.connectedUsers.value;
      if |teams| != 2 {
        return Err(NotTwoTeams);
      }
      if session.votes.None? {
        return Err(NullPointer);
      }
      var votes := session.votes.value;
      if |votes| != 2 {
        return Err(NotTwoTeams);
      }
      var redTeamLeader := FindLeader(teams[0], votes[0]);
      if redTeamLeader.Err? {
        return Err(redTeamLeader.error);
      }
      var blueTeamLeader := FindLeader(teams[1], votes[1]);
      if blueTeamLeader.Err? {
        return Err(blueTeamLeader.error);
      }
      var gameState := session.gameState;
      gameState.blueTeamLeader := Some(blueTeamLeader.value);
      gameState.redTeamLeader := Some(redTeamLeader.value);
      return Ok(());
    }

    /**
     * addPlayerToSession: the outcome is AddPlayer's; on Ok(true) the
     * session saved is Joined with the user found by id, otherwise the
     * store is unchanged.
     */
    method AddPlayerToSession(sessionId: GameSessions.Uuid, userId: string, teamIndex: int) returns (r: Result<bool, SessionError>)
      modifies this
      ensures users == old(users)
      ensures sessionId !in old(sessions) ==> r == Err(SessionNotFound) && sessions == old(sessions)
      ensures sessionId in old(sessions) ==>
        var s := old(sessions)[sessionId];
        r == AddPlayer(s, users, userId, teamIndex)
        && (r == Ok(true) ==> sessions == old(sessions)[sessionId := Joined(s, Users.FindById(users, userId).value, teamIndex)])
        && (r != Ok(true) ==> sessions == old(sessions))
    {
      if sessionId !in sessions {
        return Err(SessionNotFound);
      }
      var gameSession := sessions[sessionId];
      if gameSession.connectedUsers.None? || gameSession.maxPlayers.None? {
        return Err(NullPointer);
      }
      var connectedUsers := gameSession.connectedUsers.value;
      if gameSession.maxPlayers.value == GameSessions.PlayerCount(connectedUsers) {
        return Ok(false);
      }
      if teamIndex < 0 || teamIndex >= |connectedUsers| {
        return Ok(false);
      }
      var k := 0;
      while k < |connectedUsers|
        invariant 0 <= k <= |connectedUsers|
        invariant forall j :: 0 <= j < k ==> !GameSessions.OnTeam(connectedUsers[j], userId)
      {
        if GameSessions.OnTeam(connectedUsers[k], userId) {
          TeamIndexIs(connectedUsers, userId, k);
          return Ok(false);
        }
        k := k + 1;
      }
      NotOnPrefix(connectedUsers, userId);
      var user := Users.FindById(users, userId);
      if user.None? {
        return Err(UserNotFound);
      }
      if gameSession.votes.None? {
        return Err(NullPointer);
      }
      var votes := gameSession.votes.value;
      if teamIndex >= |votes| {
        return Err(IndexOutOfBounds);
      }
      connectedUsers := connectedUsers[teamIndex := connectedUsers[teamIndex] + [user.value]];
      votes := votes[teamIndex := votes[teamIndex] + [0]];
      sessions := sessions[sessionId := gameSession.(connectedUsers := Some(connectedUsers), votes := Some(votes))];
      return Ok(true);
    }

    /**
     * removePlayerFromSession: the teams move by Remove and the session is
     * saved when someone was removed; no teams at all is false.
     */
    method RemovePlayerFromSession(sessionId: GameSessions.Uuid, userId: string) returns (r: Result<bool, SessionError>)
      modifies this
      ensures users == old(users)
      ensures sessionId !in old(sessions) ==> r == Err(SessionNotFound) && sessions == old(sessions)
      ensures sessionId in old(sessions) ==>
        var s := old(sessions)[sessionId];
        if s.connectedUsers.None? || |s.connectedUsers.value| == 0 then r == Ok(false) && sessions == old(sessions)
        else
          var (removed, after) := Remove(s.connectedUsers.value, userId);
          r == Ok(removed)
          && sessions == if removed then old(sessions)[sessionId := s.(connectedUsers := Some(after))] else old(sessions)
    {
      if sessionId !in sessions {
        return Err(SessionNotFound);
      }
      var gameSession := sessions[sessionId];
      if gameSession.connectedUsers.None? || |gameSession.connectedUsers.value| == 0 {
        return Ok(false);
      }
      var connectedUsers := gameSession.connectedUsers.value;
      ghost var teams := connectedUsers;
      var removed := false;
      var t := 0;
      while t < |connectedUsers|
        invariant 0 <= t <= |connectedUsers|
        invariant forall k :: 0 <= k < t ==> !GameSessions.OnTeam(connectedUsers[k], userId)
        invariant sessions == old(sessions) && users == old(users)
        invariant connectedUsers == teams && !removed
      {
        var team := connectedUsers[t];
        var kept := Without(team, userId);
        WithoutAbsent(team, userId);
        if |kept| < |team| {
          TeamIndexIs(connectedUsers, userId, t);
          connectedUsers := connectedUsers[t := kept];
          removed := true;
          break;
        }
        t := t + 1;
      }
      if removed {
        assert Remove(teams, userId) == (true, connectedUsers);
        sessions := sessions[sessionId := gameSession.(connectedUsers := Some(connectedUsers))];
      } else {
        NotOnPrefix(connectedUsers, userId);
      }
      return Ok(removed);
    }
  }

  function Zeros(n: nat): (z: seq<int>)
    ensures |z| == n && forall k :: 0 <= k < n ==> z[k] == 0
  {
    if n == 0 then [] else [0] + Zeros(n - 1)
  }

  /** removeIf reports a removal exactly when the team held the user. */
  lemma {:induction false} WithoutAbsent(team: seq<Users.User>, userId: string)
    ensures !GameSessions.OnTeam(team, userId) ==> Without(team, userId) == team
    ensures GameSessions.OnTeam(team, userId) ==> |Without(team, userId)| < |team|
  {
    if |team| > 0 {
      WithoutAbsent(team[1..], userId);
      if GameSessions.OnTeam(team, userId) {
        WithoutShrinks(team, userId);
      } else {
        assert forall k :: 0 <= k < |team| - 1 ==> team[1..][k] == team[k + 1];
      }
    }
  }

  lemma {:induction false} TeamIndexIs(teams: Teams, userId: string, t: nat)
    requires t < |teams| && GameSessions.OnTeam(teams[t], userId)
    requires forall k :: 0 <= k < t ==> !GameSessions.OnTeam(teams[k], userId)
    ensures GameSessions.TeamIndexOf(teams, userId) == t
  {
    if t > 0 {
      TeamIndexIs(teams[1..], userId, t - 1);
    }
  }

  lemma {:induction false} MemberIndexIs(team: seq<Users.User>, userId: string, i: nat)
    requires i < |team| && team[i].id == userId
    requires forall k :: 0 <= k < i ==> team[k].id != userId
    ensures GameSessions.MemberIndex(team, userId) == i
  {
    if i > 0 {
      MemberIndexIs(team[1..], userId, i - 1);
    }
  }
}
