/**
 * A game session (gameSession/entity/GameSession.java, with the fields its
 * compact serialiser and services use): lobby settings, the players of each
 * team, each team's leader votes, and the game state. Sessions are stored by
 * value: the repository hands out copies, and a change is kept only when the
 * session is saved back.
 */
module GameSessions {
  import opened Wrappers
  import Users
  import GameStates

  /** A java.util.UUID, kept as its canonical text (toString and fromString are inverse). */
  datatype Uuid = Uuid(text: string)

  datatype SessionStatus = CREATED | IN_PROGRESS | FINISHED

  datatype GameSession = GameSession(
    status: Option<SessionStatus>,
    sessionId: Option<Uuid>,
    gameName: string,
    maxPlayers: Option<int>,
    password: string,
    timeForAHint: Option<int>,
    timeForGuessing: Option<int>,
    votingStartTime: Option<int>,
    voiceChatEnabled: bool,
    connectedUsers: Option<seq<seq<Users.User>>>,
    votes: Option<seq<seq<int>>>,
    gameState: GameStates.GameState)

  /** The ids of everyone on a team. */
  predicate OnTeam(team: seq<Users.User>, userId: string)
  {
    exists k :: 0 <= k < |team| && team[k].id == userId
  }

  /** Position of the first team member with the given id, or |team|. */
  function MemberIndex(team: seq<Users.User>, userId: string): (i: nat)
    ensures i <= |team|
    ensures i < |team| ==> team[i].id == userId
    ensures forall k :: 0 <= k < i ==> team[k].id != userId
    ensures i == |team| <==> !OnTeam(team, userId)
  {
    if |team| == 0 then 0 else if team[0].id == userId then 0 else 1 + MemberIndex(team[1..], userId)
  }

  /** Position of the first team holding the user, or |teams|. */
  function TeamIndexOf(teams: seq<seq<Users.User>>, userId: string): (t: nat)
    ensures t <= |teams|
    ensures t < |teams| ==> OnTeam(teams[t], userId)
    ensures forall k :: 0 <= k < t ==> !OnTeam(teams[k], userId)
  {
    if |teams| == 0 then 0 else if OnTeam(teams[0], userId) then 0 else 1 + TeamIndexOf(teams[1..], userId)
  }

  /** Players across all teams. */
  function PlayerCount(teams: seq<seq<Users.User>>): nat
  {
    if |teams| == 0 then 0 else |teams[0]| + PlayerCount(teams[1..])
  }
}
