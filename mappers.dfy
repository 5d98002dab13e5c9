/**
 * The DTO mappers: user/entity/mapper/UserMapper.java (with the identical
 * toRoomLobbyDTO pair of user/entity/dto/UserMapper.java), and the two
 * versions of GameSessionMapper, the builder-based one in
 * gameSession/entity/dto/mapper/ and the older setter-based one in
 * gameSession/entity/dto/. Each copies a chosen set of fields and keeps the
 * shape of lists.
 */
module Mappers {
  import opened Wrappers
  import Users
  import GameSessions

  datatype MapError = NullPointer | IndexOutOfBounds

  // ---------------------------------------------------------------------------
  // Users

  datatype UserRoomLobbyDTO = UserRoomLobbyDTO(id: string, username: string, profilePic: int, status: Option<Users.UserStatus>)

  function ToRoomLobbyDTO(u: Users.User): UserRoomLobbyDTO
  {
    UserRoomLobbyDTO(u.id, u.username, u.profilePic, u.status)
  }

  /** The lobby view of a user is determined by, and determines, exactly its id, username, picture and status. */
  lemma RoomLobbyDTOCopiesExactly(u: Users.User, v: Users.User)
    ensures ToRoomLobbyDTO(u) == ToRoomLobbyDTO(v)
            <==> u.id == v.id && u.username == v.username && u.profilePic == v.profilePic && u.status == v.status
  {
  }

  /** toRoomLobbyDTOList: each team mapped member by member. */
  function ToRoomLobbyDTOList(teams: seq<seq<Users.User>>): (r: seq<seq<UserRoomLobbyDTO>>)
    ensures |r| == |teams|
  {
    if |teams| == 0 then [] else [MapTeam(teams[0])] + ToRoomLobbyDTOList(teams[1..])
  }

  function MapTeam(team: seq<Users.User>): (r: seq<UserRoomLobbyDTO>)
    ensures |r| == |team|
  {
    if |team| == 0 then [] else [ToRoomLobbyDTO(team[0])] + MapTeam(team[1..])
  }

  lemma {:induction false} MapTeamAt(team: seq<Users.User>)
    ensures forall j :: 0 <= j < |team| ==> MapTeam(team)[j] == ToRoomLobbyDTO(team[j])
  {
    if |team| > 0 {
      MapTeamAt(team[1..]);
      assert forall j :: 1 <= j < |team| ==> MapTeam(team)[j] == MapTeam(team[1..])[j - 1];
    }
  }

  /** The number of teams, every team's size and the order of members are kept. */
  lemma {:induction false} RoomLobbyDTOListShape(teams: seq<seq<Users.User>>)
    ensures var r := ToRoomLobbyDTOList(teams);
      |r| == |teams|
      && (forall i :: 0 <= i < |teams| ==> |r[i]| == |teams[i]|)
      && (forall i, j :: 0 <= i < |teams| && 0 <= j < |teams[i]| ==> r[i][j] == ToRoomLobbyDTO(teams[i][j]))
  {
    if |teams| > 0 {
      RoomLobbyDTOListShape(teams[1..]);
      MapTeamAt(teams[0]);
      var r := ToRoomLobbyDTOList(teams);
      assert forall i :: 1 <= i < |teams| ==> r[i] == ToRoomLobbyDTOList(teams[1..])[i - 1];
    }
  }

  datatype GetUserProfileDetailsResponse = GetUserProfileDetailsResponse(
    id: string, username: string, email: Option<string>, description: string, profilePic: int,
    friends: seq<string>, receivedRequests: seq<string>, sentRequests: seq<string>)

  function ToGetUserProfileResponse(u: Users.User): GetUserProfileDetailsResponse
  {
    GetUserProfileDetailsResponse(u.id, u.username, u.email, u.description, u.profilePic,
                                  u.friends, u.receivedRequests, u.sentRequests)
  }

  datatype GetUserResponse = GetUserResponse(
    id: string, username: string, description: string, profilePic: int,
    friends: seq<string>, sentRequests: seq<string>, receivedRequests: seq<string>)

  function ToGetUserResponse(u: Users.User): GetUserResponse
  {
    GetUserResponse(u.id, u.username, u.description, u.profilePic, u.friends, u.sentRequests, u.receivedRequests)
  }

  /**
   * The public profile is the private one without the e-mail address: the
   * two responses agree on every field they share, and neither carries the
   * password, roles or status.
   */
  lemma ProfileResponsesAgree(u: Users.User, v: Users.User)
    ensures var p, q := ToGetUserProfileResponse(u), ToGetUserResponse(u);
      p.id == q.id && p.username == q.username && p.description == q.description && p.profilePic == q.profilePic
      && p.friends == q.friends && p.sentRequests == q.sentRequests && p.receivedRequests == q.receivedRequests
    ensures u.(password := v.password, roles := v.roles, status := v.status, isGuest := v.isGuest) == v
            ==> ToGetUserProfileResponse(u) == ToGetUserProfileResponse(v) && ToGetUserResponse(u) == ToGetUserResponse(v)
  {
  }

  datatype UsernameEntry = UsernameEntry(id: string, username: string)

  /** toGetUsernamesResponse: id and username of each user, in order. */
  function ToGetUsernamesResponse(users: seq<Users.User>): (r: seq<UsernameEntry>)
    ensures |r| == |users|
  {
    if |users| == 0 then [] else [UsernameEntry(users[0].id, users[0].username)] + ToGetUsernamesResponse(users[1..])
  }

  lemma {:induction false} UsernamesResponseInOrder(users: seq<Users.User>)
    ensures forall k :: 0 <= k < |users| ==>
      ToGetUsernamesResponse(users)[k] == UsernameEntry(users[k].id, users[k].username)
  {
    if |users| > 0 {
      UsernamesResponseInOrder(users[1..]);
      assert forall k :: 1 <= k < |users| ==> ToGetUsernamesResponse(users)[k] == ToGetUsernamesResponse(users[1..])[k - 1];
    }
  }

  // ---------------------------------------------------------------------------
  // Game sessions

  datatype JoinGameDTO = JoinGameDTO(
    status: Option<GameSessions.SessionStatus>, sessionId: Option<GameSessions.Uuid>, gameName: string,
    maxPlayers: Option<int>, password: string, currentRedTeamPlayers: int, currentBlueTeamPlayers: int)

  /** toJoinGameDTO: the lobby fields, and the sizes of teams 0 and 1 (both 0 with no team list; fewer than two teams throws). */
  function ToJoinGameDTO(s: GameSessions.GameSession): (r: Result<JoinGameDTO, MapError>)
    ensures r.Err? <==> s.connectedUsers.Some? && |s.connectedUsers.value| < 2
    ensures r.Ok? ==> r.value.status == s.status && r.value.sessionId == s.sessionId && r.value.gameName == s.gameName
                      && r.value.maxPlayers == s.maxPlayers && r.value.password == s.password
    ensures r.Ok? && s.connectedUsers.None? ==> r.value.currentRedTeamPlayers == 0 && r.value.currentBlueTeamPlayers == 0
    ensures r.Ok? && s.connectedUsers.Some? ==> r.value.currentRedTeamPlayers == |s.connectedUsers.value[0]|
                                                && r.value.currentBlueTeamPlayers == |s.connectedUsers.value[1]|
  {
    if s.connectedUsers.Some? && |s.connectedUsers.value| < 2 then Err(IndexOutOfBounds)
    else
      var teams := s.connectedUsers;
      Ok(JoinGameDTO(s.status, s.sessionId, s.gameName, s.maxPlayers, s.password,
                     if teams.Some? then |teams.value[0]| else 0,
                     if teams.Some? then |teams.value[1]| else 0))
  }

  /** toJoinGameDTOList: every session mapped in order; the first failing session's error otherwise. */
  function ToJoinGameDTOList(sessions: seq<GameSessions.GameSession>): (r: Result<seq<JoinGameDTO>, MapError>)
    ensures r.Ok? ==> |r.value| == |sessions|
  {
    if |sessions| == 0 then Ok([])
    else
      match ToJoinGameDTO(sessions[0])
      case Err(e) => Err(e)
      case Ok(d) =>
        match ToJoinGameDTOList(sessions[1..])
        case Err(e) => Err(e)
        case Ok(ds) => Ok([d] + ds)
  }

  /** The list succeeds exactly when every session does, and then keeps length and order. */
  lemma {:induction false} JoinGameDTOListInOrder(sessions: seq<GameSessions.GameSession>)
    ensures ToJoinGameDTOList(sessions).Ok? <==> forall k :: 0 <= k < |sessions| ==> ToJoinGameDTO(sessions[k]).Ok?
    ensures ToJoinGameDTOList(sessions).Ok? ==>
      forall k :: 0 <= k < |sessions| ==> ToJoinGameDTOList(sessions).value[k] == ToJoinGameDTO(sessions[k]).value
  {
    if |sessions| > 0 {
      JoinGameDTOListInOrder(sessions[1..]);
      assert forall k :: 1 <= k < |sessions| ==> sessions[k] == sessions[1..][k - 1];
    }
  }

  datatype RoomLobbyDTO = RoomLobbyDTO(
    status: Option<GameSessions.SessionStatus>, gameName: Option<string>, maxPlayers: Option<int>,
    connectedUsers: Option<seq<seq<UserRoomLobbyDTO>>>)

  /** toRoomLobbyDTO: a present session's status, name, size and teams; an absent one gives a DTO with nothing set. */
  function ToSessionRoomLobbyDTO(session: Option<GameSessions.GameSession>): (r: Result<RoomLobbyDTO, MapError>)
    ensures session.None? ==> r == Ok(RoomLobbyDTO(None, None, None, None))
    ensures session.Some? && session.value.connectedUsers.None? ==> r == Err(NullPointer)
    ensures session.Some? && session.value.connectedUsers.Some? ==>
      r.Ok? && r.value.status == session.value.status && r.value.gameName == Some(session.value.gameName)
      && r.value.maxPlayers == session.value.maxPlayers
      && r.value.connectedUsers == Some(ToRoomLobbyDTOList(session.value.connectedUsers.value))
  {
    if session.None? then Ok(RoomLobbyDTO(None, None, None, None))
    else
      var s := session.value;
      if s.connectedUsers.None? then Err(NullPointer)
      else Ok(RoomLobbyDTO(s.status, Some(s.gameName), s.maxPlayers, Some(ToRoomLobbyDTOList(s.connectedUsers.value))))
  }

  // ---------------------------------------------------------------------------
  // The older setter-based session mapper

  /** The mutable DTO the older mapper fills with setters; unset fields are None. */
  class JoinGameDTOBean {
    var status: Option<GameSessions.SessionStatus>
    var sessionId: Option<GameSessions.Uuid>
    var gameName: Option<string>
    var maxPlayers: Option<int>
    var password: Option<string>
    var currentRedTeamPlayers: int
    var currentBlueTeamPlayers: int

    constructor()
      ensures status.None? && sessionId.None? && gameName.None? && maxPlayers.None? && password.None?
      ensures currentRedTeamPlayers == 0 && currentBlueTeamPlayers == 0
    {
      status, sessionId, gameName, maxPlayers, password := None, None, None, None, None;
      currentRedTeamPlayers, currentBlueTeamPlayers := 0, 0;
    }
  }

  /**
   * The setter-based toJoinGameDTO: same fields, same team counts, same
   * failure as the builder-based one. The fields set before the throw are
   * lost with the object.
   */
  method ToJoinGameDTOWithSetters(session: GameSessions.GameSession) returns (r: Result<JoinGameDTOBean, MapError>)
    ensures ToJoinGameDTO(session).Err? ==> r == Err(ToJoinGameDTO(session).error)
    ensures ToJoinGameDTO(session).Ok? ==>
      var d := ToJoinGameDTO(session).value;
      r.Ok? && fresh(r.value)
      && r.value.status == d.status && r.value.sessionId == d.sessionId && r.value.gameName == Some(d.gameName)
      && r.value.maxPlayers == d.maxPlayers && r.value.password == Some(d.password)
      && r.value.currentRedTeamPlayers == d.currentRedTeamPlayers && r.value.currentBlueTeamPlayers == d.currentBlueTeamPlayers
  {
    var dto := new JoinGameDTOBean();
    dto.status := session.status;
    dto.sessionId := session.sessionId;
    dto.gameName := Some(session.gameName);
    dto.maxPlayers := session.maxPlayers;
    dto.password := Some(session.password);
    if session.connectedUsers.Some? && |session.connectedUsers.value| < 1 {
      return Err(IndexOutOfBounds);
    }
    dto.currentRedTeamPlayers := if session.connectedUsers.Some? then |session.connectedUsers.value[0]| else 0;
    if session.connectedUsers.Some? && |session.connectedUsers.value| < 2 {
      return Err(IndexOutOfBounds);
    }
    dto.currentBlueTeamPlayers := if session.connectedUsers.Some? then |session.connectedUsers.value[1]| else 0;
    return Ok(dto);
  }

  /** The mutable lobby DTO of the older mapper. */
  class RoomLobbyDTOBean {
    var status: Option<GameSessions.SessionStatus>
    var gameName: Option<string>
    var maxPlayers: Option<int>
    var connectedUsers: Option<seq<seq<UserRoomLobbyDTO>>>

    constructor()
      ensures status.None? && gameName.None? && maxPlayers.None? && connectedUsers.None?
    {
      status, gameName, maxPlayers, connectedUsers := None, None, None, None;
    }

    function Value(): RoomLobbyDTO
      reads this
    {
      RoomLobbyDTO(status, gameName, maxPlayers, connectedUsers)
    }
  }

  /** The setter-based toRoomLobbyDTO gives the same DTO as the builder-based one. */
  method ToSessionRoomLobbyDTOWithSetters(session: Option<GameSessions.GameSession>) returns (r: Result<RoomLobbyDTOBean, MapError>)
    ensures ToSessionRoomLobbyDTO(session).Err? ==> r == Err(ToSessionRoomLobbyDTO(session).error)
    ensures ToSessionRoomLobbyDTO(session).Ok? ==> r.Ok? && fresh(r.value) && r.value.Value() == ToSessionRoomLobbyDTO(session).value
  {
    if session.Some? {
      var dto := new RoomLobbyDTOBean();
      var gameSession := session.value;
      dto.status := gameSession.status;
      dto.gameName := Some(gameSession.gameName);
      dto.maxPlayers := gameSession.maxPlayers;
      if gameSession.connectedUsers.None? {
        return Err(NullPointer);
      }
      dto.connectedUsers := Some(ToRoomLobbyDTOList(gameSession.connectedUsers.value));
      return Ok(dto);
    } else {
      var dto := new RoomLobbyDTOBean();
      return Ok(dto);
    }
  }
}
