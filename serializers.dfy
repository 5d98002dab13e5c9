/**
 * The Hazelcast compact serialisers (hazelcast/compactSerializers/gameSessionSerializers/):
 * each object is written as a record of named fields and rebuilt from it.
 * Nested lists of a session are written flat, with the group sizes beside
 * them, and regrouped on reading by a running index into the flat array.
 */
module Serializers {
  import opened Wrappers
  import Users
  import GameStates
  import GameSessions

  datatype SerialError =
    | UnknownEnumName        // Enum.valueOf on a name the enum lacks
    | IndexOutOfBounds       // the running index walked past the flat array

  // ---------------------------------------------------------------------------
  // Flattening nested lists

  /** The groups one after the other. */
  function Concat<T>(groups: seq<seq<T>>): seq<T>
  {
    if |groups| == 0 then [] else Concat(groups[..|groups| - 1]) + groups[|groups| - 1]
  }

  /** The size of each group. */
  function Sizes<T>(groups: seq<seq<T>>): (sizes: seq<int>)
    ensures |sizes| == |groups|
    ensures forall k :: 0 <= k < |groups| ==> sizes[k] == |groups[k]|
  {
    if |groups| == 0 then [] else Sizes(groups[..|groups| - 1]) + [|groups[|groups| - 1]|]
  }

  function SumInts(s: seq<int>): int
  {
    if |s| == 0 then 0 else SumInts(s[..|s| - 1]) + s[|s| - 1]
  }

  /** The written form is consistent: the group sizes add up to the flat length. */
  lemma {:induction false} SizesSumToFlatLength<T>(groups: seq<seq<T>>)
    ensures SumInts(Sizes(groups)) == |Concat(groups)|
  {
    if |groups| > 0 {
      var init := groups[..|groups| - 1];
      SizesSumToFlatLength(init);
      assert Sizes(groups)[..|groups| - 1] == Sizes(init);
    }
  }

  /** write's loop: each group's size is recorded and its elements appended. */
  method Flatten<T>(groups: seq<seq<T>>) returns (flat: seq<T>, sizes: seq<int>)
    ensures flat == Concat(groups) && sizes == Sizes(groups)
  {
    flat, sizes := [], [];
    var i := 0;
    while i < |groups|
      invariant 0 <= i <= |groups|
      invariant flat == Concat(groups[..i]) && sizes == Sizes(groups[..i])
    {
      var group := groups[i];
      assert groups[..i + 1][..i] == groups[..i];
      sizes := sizes + [|group|];
      flat := flat + group;
      i := i + 1;
    }
    assert groups[..i] == groups;
  }

  function Max0(n: int): nat
  {
    if n < 0 then 0 else n
  }

  /**
   * read's loop as a function: the groups rebuilt from the sizes and the
   * running index after them. A size below 0 makes an empty group; running
   * past the flat array is an error.
   */
  function Unflatten<T>(sizes: seq<int>, flat: seq<T>): (r: Result<(seq<seq<T>>, nat), SerialError>)
    ensures r.Ok? ==> |r.value.0| == |sizes| && r.value.1 <= |flat|
  {
    if |sizes| == 0 then Ok(([], 0))
    else
      var prev := Unflatten(sizes[..|sizes| - 1], flat);
      if prev.Err? then Err(prev.error)
      else
        var index, n := prev.value.1, Max0(sizes[|sizes| - 1]);
        if index + n > |flat| then Err(IndexOutOfBounds)
        else Ok((prev.value.0 + [flat[index..index + n]], index + n))
  }

  /** read's loop: group by group, each element taken at the running index. */
  method Regroup<T>(sizes: seq<int>, flat: seq<T>) returns (r: Result<seq<seq<T>>, SerialError>)
    ensures Unflatten(sizes, flat).Err? ==> r == Err(Unflatten(sizes, flat).error)
    ensures Unflatten(sizes, flat).Ok? ==> r == Ok(Unflatten(sizes, flat).value.0)
  {
    var groups: seq<seq<T>> := [];
    var index := 0;
    var k := 0;
    while k < |sizes|
      invariant 0 <= k <= |sizes|
      invariant Unflatten(sizes[..k], flat) == Ok((groups, index))
    {
      assert sizes[..k + 1][..k] == sizes[..k];
      var size := sizes[k];
      var group: seq<T> := [];
      var i := 0;
      ghost var start := index;
      while i < size
        invariant 0 <= i <= Max0(size)
        invariant index == start + i && start + i <= |flat|
        invariant group == flat[start..index]
      {
        if index >= |flat| {
          UnflattenRunsOut(sizes, flat, k, start);
          return Err(IndexOutOfBounds);
        }
        group := group + [flat[index]];
        index := index + 1;
        i := i + 1;
      }
      groups := groups + [group];
      k := k + 1;
    }
    assert sizes[..k] == sizes;
    return Ok(groups);
  }

  lemma UnflattenRunsOut<T>(sizes: seq<int>, flat: seq<T>, k: nat, start: nat)
    requires k < |sizes| && Unflatten(sizes[..k], flat).Ok? && Unflatten(sizes[..k], flat).value.1 == start
    requires start + Max0(sizes[k]) > |flat|
    ensures Unflatten(sizes, flat) == Err(IndexOutOfBounds)
  {
    UnflattenPrefixErr(sizes, flat, k + 1);
  }

  lemma {:induction false} UnflattenPrefixErr<T>(sizes: seq<int>, flat: seq<T>, k: nat)
    requires 1 <= k <= |sizes| && Unflatten(sizes[..k - 1], flat).Ok?
    requires Unflatten(sizes[..k - 1], flat).value.1 + Max0(sizes[k - 1]) > |flat|
    ensures Unflatten(sizes, flat) == Err(IndexOutOfBounds)
    decreases |sizes|
  {
    assert sizes[..k][..k - 1] == sizes[..k - 1];
    if k < |sizes| {
      var init := sizes[..|sizes| - 1];
      assert init[..k - 1] == sizes[..k - 1];
      UnflattenPrefixErr(init, flat, k);
    } else {
      assert sizes[..k] == sizes;
    }
  }

  /** Extra elements after the ones the sizes use do not change the groups. */
  lemma {:induction false} UnflattenExtend<T>(sizes: seq<int>, flat: seq<T>, extra: seq<T>)
    requires Unflatten(sizes, flat).Ok?
    ensures Unflatten(sizes, flat + extra) == Unflatten(sizes, flat)
  {
    if |sizes| > 0 {
      var init := sizes[..|sizes| - 1];
      UnflattenExtend(init, flat, extra);
      var index := Unflatten(init, flat).value.1;
      var n := Max0(sizes[|sizes| - 1]);
      assert (flat + extra)[index..index + n] == flat[index..index + n];
    }
  }

  /** Reading back what was written gives the groups, with the running index at the end of the flat array. */
  lemma {:induction false} UnflattenFlatten<T>(groups: seq<seq<T>>)
    ensures Unflatten(Sizes(groups), Concat(groups)) == Ok((groups, |Concat(groups)|))
  {
    if |groups| > 0 {
      var init, last := groups[..|groups| - 1], groups[|groups| - 1];
      var sizes, flat := Sizes(groups), Concat(groups);
      assert flat == Concat(init) + last;
      assert sizes == Sizes(init) + [|last|];
      assert sizes[..|sizes| - 1] == Sizes(init);
      UnflattenFlatten(init);
      UnflattenExtend(Sizes(init), Concat(init), last);
      var index := |Concat(init)|;
      assert Max0(sizes[|sizes| - 1]) == |last|;
      assert flat[index..index + |last|] == last;
      assert Unflatten(Sizes(init), flat) == Ok((init, index));
      assert init + [last] == groups;
    }
  }

  /** With no negative size, read consumes exactly the sum of the sizes, and succeeds whenever that fits. */
  lemma {:induction false} UnflattenConsumesSum<T>(sizes: seq<int>, flat: seq<T>)
    requires forall k :: 0 <= k < |sizes| ==> sizes[k] >= 0
    ensures Unflatten(sizes, flat).Ok? <==> SumInts(sizes) <= |flat|
    ensures Unflatten(sizes, flat).Ok? ==> Unflatten(sizes, flat).value.1 == SumInts(sizes)
  {
    if |sizes| > 0 {
      var init := sizes[..|sizes| - 1];
      UnflattenConsumesSum(init, flat);
      if Unflatten(init, flat).Err? {
        SumIntsGrows(sizes);
      }
    }
  }

  lemma SumIntsGrows(sizes: seq<int>)
    requires |sizes| > 0 && forall k :: 0 <= k < |sizes| ==> sizes[k] >= 0
    ensures SumInts(sizes) >= SumInts(sizes[..|sizes| - 1])
  {
  }

  // ---------------------------------------------------------------------------
  // User records

  datatype UserRecord = UserRecord(
    id: string, username: string, password: string, email: Option<string>, description: string,
    profilePic: int, roles: Option<string>, isGuest: bool, status: Option<string>,
    friends: seq<string>, sentRequests: seq<string>, receivedRequests: seq<string>)

  /** Enum.name(). */
  function UserStatusName(s: Users.UserStatus): string
  {
    match s
    case ACTIVE => "ACTIVE"
    case INACTIVE => "INACTIVE"
  }

  /** Enum.valueOf: the constant with that exact name, or an error. */
  function UserStatusOf(name: string): (r: Result<Users.UserStatus, SerialError>)
    ensures r.Ok? ==> UserStatusName(r.value) == name
    ensures r.Err? ==> forall s: Users.UserStatus :: UserStatusName(s) != name
  {
    if name == "ACTIVE" then Ok(Users.ACTIVE)
    else if name == "INACTIVE" then Ok(Users.INACTIVE)
    else Err(UnknownEnumName)
  }

  function WriteUser(u: Users.User): UserRecord
  {
    UserRecord(u.id, u.username, u.password, u.email, u.description, u.profilePic, u.roles, u.isGuest,
               if u.status.Some? then Some(UserStatusName(u.status.value)) else None,
               u.friends, u.sentRequests, u.receivedRequests)
  }

  function ReadUser(r: UserRecord): Result<Users.User, SerialError>
  {
    var status := if r.status.Some? then (match UserStatusOf(r.status.value) case Ok(s) => Ok(Some(s)) case Err(e) => Err(e)) else Ok(None);
    if status.Err? then Err(status.error)
    else Ok(Users.User(r.id, r.username, r.password, r.email, r.description, r.profilePic, r.roles, r.isGuest,
                       status.value, r.friends, r.sentRequests, r.receivedRequests))
  }

  /** Every user field, the status by name with null kept, and the three lists in order survive a write and read. */
  lemma UserRoundTrip(u: Users.User)
    ensures ReadUser(WriteUser(u)) == Ok(u)
  {
    if u.status.Some? {
      assert UserStatusOf(UserStatusName(u.status.value)) == Ok(u.status.value);
    }
  }

  /** A stored status name the enum lacks makes the read fail. */
  lemma UnknownStatusFails(r: UserRecord)
    requires r.status.Some? && r.status.value != "ACTIVE" && r.status.value != "INACTIVE"
    ensures ReadUser(r) == Err(UnknownEnumName)
  {
  }

  function ReadUsers(rs: seq<UserRecord>): (r: Result<seq<Users.User>, SerialError>)
    ensures r.Ok? ==> |r.value| == |rs|
  {
    if |rs| == 0 then Ok([])
    else
      match ReadUser(rs[0])
      case Err(e) => Err(e)
      case Ok(u) =>
        match ReadUsers(rs[1..])
        case Err(e) => Err(e)
        case Ok(us) => Ok([u] + us)
  }

  function WriteUsers(us: seq<Users.User>): (rs: seq<UserRecord>)
    ensures |rs| == |us|
  {
    if |us| == 0 then [] else [WriteUser(us[0])] + WriteUsers(us[1..])
  }

  lemma {:induction false} UsersRoundTrip(us: seq<Users.User>)
    ensures ReadUsers(WriteUsers(us)) == Ok(us)
  {
    if |us| > 0 {
      UserRoundTrip(us[0]);
      UsersRoundTrip(us[1..]);
      assert WriteUsers(us)[1..] == WriteUsers(us[1..]);
      assert [us[0]] + us[1..] == us;
    }
  }

  lemma {:induction false} WriteUsersAppend(a: seq<Users.User>, b: seq<Users.User>)
    ensures WriteUsers(a + b) == WriteUsers(a) + WriteUsers(b)
  {
    if |a| > 0 {
      assert (a + b)[1..] == a[1..] + b;
      WriteUsersAppend(a[1..], b);
    } else {
      assert a + b == b;
    }
  }

  // ---------------------------------------------------------------------------
  // Game state records

  datatype GameStateRecord = GameStateRecord(
    blueTeamLeader: Option<UserRecord>, redTeamLeader: Option<UserRecord>, currentSelectionLeader: Option<UserRecord>,
    blueTeamScore: int, redTeamScore: int, teamTurn: int,
    cards: seq<string>, cardsColors: seq<int>, cardsVotes: seq<int>, cardsChosen: seq<int>,
    hint: string, hintNumber: int, isHintTurn: bool, isGuessingTurn: bool)

  function WriteLeader(u: Option<Users.User>): Option<UserRecord>
  {
    if u.Some? then Some(WriteUser(u.value)) else None
  }

  function ReadLeader(r: Option<UserRecord>): Result<Option<Users.User>, SerialError>
  {
    if r.None? then Ok(None)
    else match ReadUser(r.value) case Ok(u) => Ok(Some(u)) case Err(e) => Err(e)
  }

  /** GameStateCompactSerializer.write; a null cardsChosen is written as an empty array. */
  function WriteSnapshot(s: GameStates.Snapshot): GameStateRecord
  {
    GameStateRecord(WriteLeader(s.blueTeamLeader), WriteLeader(s.redTeamLeader), WriteLeader(s.currentSelectionLeader),
                    s.blueTeamScore, s.redTeamScore, s.turn.teamTurn,
                    s.cards, s.cardsColors, s.cardsVotes, if s.cardsChosen.Some? then s.cardsChosen.value else [],
                    s.hint, s.hintNumber, s.turn.isHintTurn, s.turn.isGuessingTurn)
  }

  /** GameStateCompactSerializer.read, as the state it sets on a new GameState. */
  function ReadSnapshot(r: GameStateRecord): Result<GameStates.Snapshot, SerialError>
  {
    var blue := ReadLeader(r.blueTeamLeader);
    var red := ReadLeader(r.redTeamLeader);
    var current := ReadLeader(r.currentSelectionLeader);
    if blue.Err? then Err(blue.error)
    else if red.Err? then Err(red.error)
    else if current.Err? then Err(current.error)
    else Ok(GameStates.Snapshot(blue.value, red.value, current.value, r.blueTeamScore, r.redTeamScore,
                                GameStates.Turn(r.teamTurn, r.isHintTurn, r.isGuessingTurn),
                                r.cards, r.cardsColors, r.cardsVotes, Some(r.cardsChosen), r.hint, r.hintNumber))
  }

  /**
   * A game state survives a write and read field by field, lists in order;
   * the one change is that a null cardsChosen comes back as an empty list.
   */
  lemma GameStateRoundTrip(s: GameStates.Snapshot)
    ensures ReadSnapshot(WriteSnapshot(s))
            == Ok(s.(cardsChosen := Some(if s.cardsChosen.Some? then s.cardsChosen.value else [])))
  {
    if s.blueTeamLeader.Some? { UserRoundTrip(s.blueTeamLeader.value); }
    if s.redTeamLeader.Some? { UserRoundTrip(s.redTeamLeader.value); }
    if s.currentSelectionLeader.Some? { UserRoundTrip(s.currentSelectionLeader.value); }
  }

  function WriteGameState(gs: GameStates.GameState): GameStateRecord
    reads gs
  {
    WriteSnapshot(gs.State())
  }

  /** read: a new GameState whose fields are set from the record (the leaders read as nested users). */
  method ReadGameState(r: GameStateRecord) returns (result: Result<GameStates.GameState, SerialError>)
    ensures ReadSnapshot(r).Err? ==> result == Err(ReadSnapshot(r).error)
    ensures ReadSnapshot(r).Ok? ==> result.Ok? && fresh(result.value) && result.value.State() == ReadSnapshot(r).value
  {
    var snapshot := ReadSnapshot(r);
    if snapshot.Err? {
      return Err(snapshot.error);
    }
    var gs := NewGameState(snapshot.value);
    return Ok(gs);
  }

  /** new GameState() followed by a setter per field. */
  method NewGameState(v: GameStates.Snapshot) returns (gs: GameStates.GameState)
    ensures fresh(gs) && gs.State() == v
  {
    gs := new GameStates.GameState();
    SetLeadersAndScores(gs, v);
    SetBoardAndTurn(gs, v);
  }

  /** The setters for the leaders and the scores. */
  method SetLeadersAndScores(gs: GameStates.GameState, v: GameStates.Snapshot)
    modifies gs
    ensures gs.State() == old(gs.State()).(blueTeamLeader := v.blueTeamLeader, redTeamLeader := v.redTeamLeader,
      currentSelectionLeader := v.currentSelectionLeader, blueTeamScore := v.blueTeamScore, redTeamScore := v.redTeamScore)
  {
    gs.blueTeamLeader := v.blueTeamLeader;
    gs.redTeamLeader := v.redTeamLeader;
    gs.currentSelectionLeader := v.currentSelectionLeader;
    gs.blueTeamScore := v.blueTeamScore;
    gs.redTeamScore := v.redTeamScore;
  }

  /** The setters for the turn, the board and the hint. */
  method SetBoardAndTurn(gs: GameStates.GameState, v: GameStates.Snapshot)
    modifies gs
    ensures gs.State() == old(gs.State()).(turn := v.turn, cards := v.cards, cardsColors := v.cardsColors,
      cardsVotes := v.cardsVotes, cardsChosen := v.cardsChosen, hint := v.hint, hintNumber := v.hintNumber)
  {
    gs.teamTurn := v.turn.teamTurn;
    gs.cards := v.cards;
    gs.cardsColors := v.cardsColors;
    gs.cardsVotes := v.cardsVotes;
    gs.cardsChosen := v.cardsChosen;
    gs.hint := v.hint;
    gs.hintNumber := v.hintNumber;
    gs.isHintTurn := v.turn.isHintTurn;
    gs.isGuessingTurn := v.turn.isGuessingTurn;
  }

  // ---------------------------------------------------------------------------
  // Game session records

  datatype GameSessionRecord = GameSessionRecord(
    status: Option<string>, sessionId: Option<string>, gameName: string, maxPlayers: int, password: string,
    votingStartTime: int, voiceChatEnabled: bool,
    userGroupSizes: seq<int>, connectedUsersFlat: seq<UserRecord>,
    voteGroupSizes: seq<int>, votesFlat: seq<int>,
    gameState: GameStateRecord)

  function SessionStatusName(s: GameSessions.SessionStatus): string
  {
    match s
    case CREATED => "CREATED"
    case IN_PROGRESS => "IN_PROGRESS"
    case FINISHED => "FINISHED"
  }

  function SessionStatusOf(name: string): (r: Result<GameSessions.SessionStatus, SerialError>)
    ensures r.Ok? ==> SessionStatusName(r.value) == name
    ensures r.Err? ==> forall s: GameSessions.SessionStatus :: SessionStatusName(s) != name
  {
    if name == "CREATED" then Ok(GameSessions.CREATED)
    else if name == "IN_PROGRESS" then Ok(GameSessions.IN_PROGRESS)
    else if name == "FINISHED" then Ok(GameSessions.FINISHED)
    else Err(UnknownEnumName)
  }

  /** GameSessionCompactSerializer.write: nulls become 0 or no groups; nested lists go out flat with their sizes. */
  function WriteSession(s: GameSessions.GameSession): GameSessionRecord
    reads s.gameState
  {
    var teams := s.connectedUsers.GetOr([]);
    var votes := s.votes.GetOr([]);
    GameSessionRecord(
      if s.status.Some? then Some(SessionStatusName(s.status.value)) else None,
      if s.sessionId.Some? then Some(s.sessionId.value.text) else None,
      s.gameName, s.maxPlayers.GetOr(0), s.password, s.votingStartTime.GetOr(0), s.voiceChatEnabled,
      Sizes(teams), WriteUsers(Concat(teams)), Sizes(votes), Concat(votes),
      WriteGameState(s.gameState))
  }

  /** The parts of a session read from a record before the game state object is built. */
  datatype SessionFields = SessionFields(
    status: Option<GameSessions.SessionStatus>, sessionId: Option<GameSessions.Uuid>,
    connectedUsers: seq<seq<Users.User>>, votes: seq<seq<int>>)

  function ReadSessionFields(r: GameSessionRecord): Result<SessionFields, SerialError>
  {
    var status := if r.status.Some? then (match SessionStatusOf(r.status.value) case Ok(s) => Ok(Some(s)) case Err(e) => Err(e)) else Ok(None);
    var users := ReadUsers(r.connectedUsersFlat);
    if status.Err? then Err(status.error)
    else if users.Err? then Err(users.error)
    else
      var teams := Unflatten(r.userGroupSizes, users.value);
      var votes := Unflatten(r.voteGroupSizes, r.votesFlat);
      if teams.Err? then Err(teams.error)
      else if votes.Err? then Err(votes.error)
      else Ok(SessionFields(status.value, if r.sessionId.Some? then Some(GameSessions.Uuid(r.sessionId.value)) else None,
                            teams.value.0, votes.value.0))
  }

  /**
   * The session parts survive a write and read: status and id with null
   * kept, and the teams and votes as they were, a null list coming back
   * empty.
   */
  lemma SessionFieldsRoundTrip(s: GameSessions.GameSession)
    ensures var r := WriteSession(s);
      ReadSessionFields(r) == Ok(SessionFields(s.status, s.sessionId, s.connectedUsers.GetOr([]), s.votes.GetOr([])))
  {
    var teams := s.connectedUsers.GetOr([]);
    var votes := s.votes.GetOr([]);
    if s.status.Some? {
      assert SessionStatusOf(SessionStatusName(s.status.value)) == Ok(s.status.value);
    }
    UsersRoundTrip(Concat(teams));
    UnflattenFlatten(teams);
    UnflattenFlatten(votes);
  }

  /**
   * GameSessionCompactSerializer.read: the session rebuilt from the record,
   * with a new game state. maxPlayers and votingStartTime come back present
   * (0 for a null written as 0); the hint and guessing times are not in the
   * record and come back null.
   */
  method ReadSession(r: GameSessionRecord) returns (result: Result<GameSessions.GameSession, SerialError>)
    ensures ReadSessionFields(r).Err? ==> result == Err(ReadSessionFields(r).error)
    ensures ReadSessionFields(r).Ok? && ReadSnapshot(r.gameState).Err? ==> result == Err(ReadSnapshot(r.gameState).error)
    ensures ReadSessionFields(r).Ok? && ReadSnapshot(r.gameState).Ok? ==>
      var f := ReadSessionFields(r).value;
      result.Ok? && fresh(result.value.gameState)
      && result.value == GameSessions.GameSession(f.status, f.sessionId, r.gameName, Some(r.maxPlayers), r.password,
                                                  None, None, Some(r.votingStartTime), r.voiceChatEnabled,
                                                  Some(f.connectedUsers), Some(f.votes), result.value.gameState)
      && result.value.gameState.State() == ReadSnapshot(r.gameState).value
  {
    var fields := ReadSessionFields(r);
    if fields.Err? {
      return Err(fields.error);
    }
    var gameState := ReadGameState(r.gameState);
    if gameState.Err? {
      return Err(gameState.error);
    }
    var f := fields.value;
    return Ok(GameSessions.GameSession(f.status, f.sessionId, r.gameName, Some(r.maxPlayers), r.password,
                                       None, None, Some(r.votingStartTime), r.voiceChatEnabled,
                                       Some(f.connectedUsers), Some(f.votes), gameState.value));
  }

  /** The written form satisfies sum(userGroupSizes) = |connectedUsersFlat| and sum(voteGroupSizes) = |votesFlat|. */
  lemma WrittenSizesConsistent(s: GameSessions.GameSession)
    ensures var r := WriteSession(s);
      SumInts(r.userGroupSizes) == |r.connectedUsersFlat| && SumInts(r.voteGroupSizes) == |r.votesFlat|
  {
    SizesSumToFlatLength(s.connectedUsers.GetOr([]));
    SizesSumToFlatLength(s.votes.GetOr([]));
  }
}
