/**
 * The board and turn state of one game (gameState/entity/GameState.java):
 * leaders, scores, the 25 cards with their colours, vote counters and
 * revealed cards, the current hint, and the turn machine over
 * (teamTurn, isHintTurn, isGuessingTurn). Team 0 is red, team 1 is blue.
 *
 * GameState.java declares neither hintNumber nor currentSelectionLeader, and
 * calls the chosen-card list cardsChoosen; the service
 * (DefaultGameStateService.java:167, :251) and the compact serializer
 * (GameStateCompactSerializer.java:25, :41) read and write both fields, so
 * they are part of the state here, hintNumber starting at 0. The Integer
 * scores start as null in GameState.java; the model starts them at 0, the
 * value createGameSession (DefaultGameSessionService.java:37-38) stores
 * before any other use.
 */
module GameStates {
  import opened Wrappers
  import Users

  /** The turn machine's state: whose turn, and which phase of it. */
  datatype Turn = Turn(teamTurn: int, isHintTurn: bool, isGuessingTurn: bool)

  /**
   * toggleTurn: leaving a guessing phase hands the turn to the other team
   * (a team other than 0 counts as 1, so it becomes 0), and both phase flags
   * are negated.
   */
  function Toggle(t: Turn): Turn
  {
    Turn(if !t.isHintTurn then (if t.teamTurn == 0 then 1 else 0) else t.teamTurn,
         !t.isHintTurn, !t.isGuessingTurn)
  }

  /** The states the game is meant to be in: a real team and exactly one phase. */
  predicate WellFormedTurn(t: Turn)
  {
    (t.teamTurn == 0 || t.teamTurn == 1) && t.isHintTurn != t.isGuessingTurn
  }

  /** Every field of a game state, as one value. */
  datatype Snapshot = Snapshot(
    blueTeamLeader: Option<Users.User>,
    redTeamLeader: Option<Users.User>,
    currentSelectionLeader: Option<Users.User>,
    blueTeamScore: int,
    redTeamScore: int,
    turn: Turn,
    cards: seq<string>,
    cardsColors: seq<int>,
    cardsVotes: seq<int>,
    cardsChosen: Option<seq<int>>,
    hint: string,
    hintNumber: int)

  class GameState {
    var blueTeamLeader: Option<Users.User>
    var redTeamLeader: Option<Users.User>
    var currentSelectionLeader: Option<Users.User>
    var blueTeamScore: int
    var redTeamScore: int
    var teamTurn: int
    var cards: seq<string>
    var cardsColors: seq<int>
    var cardsVotes: seq<int>
    var cardsChosen: Option<seq<int>>
    var hint: string
    var hintNumber: int
    var isHintTurn: bool
    var isGuessingTurn: bool

    function TurnState(): Turn
      reads this
    {
      Turn(teamTurn, isHintTurn, isGuessingTurn)
    }

    function State(): Snapshot
      reads this
    {
      Snapshot(blueTeamLeader, redTeamLeader, currentSelectionLeader, blueTeamScore, redTeamScore,
               TurnState(), cards, cardsColors, cardsVotes, cardsChosen, hint, hintNumber)
    }

    /**
     * new GameState(): blue's hint phase (teamTurn 1, isHintTurn set,
     * isGuessingTurn clear). Fields Java leaves null are None, empty or 0
     * here; the scores are 0, as createGameSession sets them.
     */
    constructor()
      ensures TurnState() == Turn(1, true, false)
      ensures blueTeamLeader.None? && redTeamLeader.None? && currentSelectionLeader.None?
      ensures blueTeamScore == 0 && redTeamScore == 0 && hintNumber == 0
      ensures cards == [] && cardsColors == [] && cardsVotes == [] && cardsChosen.None? && hint == ""
    {
      blueTeamLeader, redTeamLeader, currentSelectionLeader := None, None, None;
      blueTeamScore, redTeamScore := 0, 0;
      teamTurn := 1;
      cards, cardsColors, cardsVotes, cardsChosen := [], [], [], None;
      hint, hintNumber := "", 0;
      isHintTurn := true;
      isGuessingTurn := false;
    }

    /** toggleTurn, in place: the turn fields move by Toggle and nothing else changes. */
    method ToggleTurn()
      modifies this
      ensures TurnState() == Toggle(old(TurnState()))
      ensures State() == old(State()).(turn := Toggle(old(TurnState())))
    {
      if !isHintTurn {
        teamTurn := if teamTurn == 0 then 1 else 0;
      }
      isHintTurn := !isHintTurn;
      isGuessingTurn := !isGuessingTurn;
    }
  }

  /** Both phase flags are negated by every toggle. */
  lemma ToggleNegatesPhases(t: Turn)
    ensures Toggle(t).isHintTurn == !t.isHintTurn && Toggle(t).isGuessingTurn == !t.isGuessingTurn
  {
  }

  /** For a real team, the team changes exactly when the toggle leaves a non-hint phase, and 0 and 1 swap. */
  lemma ToggleChangesTeamOnlyAfterGuessing(t: Turn)
    requires t.teamTurn == 0 || t.teamTurn == 1
    ensures Toggle(t).teamTurn != t.teamTurn <==> !t.isHintTurn
    ensures Toggle(t).teamTurn == 0 || Toggle(t).teamTurn == 1
    ensures !t.isHintTurn ==> Toggle(t).teamTurn == 1 - t.teamTurn
  {
  }

  /** A well-formed turn stays well-formed: still a real team and exactly one phase. */
  lemma TogglePreservesWellFormed(t: Turn)
    requires WellFormedTurn(t)
    ensures WellFormedTurn(Toggle(t))
  {
  }

  /** From a hint phase, two toggles reach the other team's hint phase. */
  lemma TwoTogglesHandOver(t: Turn)
    requires WellFormedTurn(t) && t.isHintTurn
    ensures Toggle(Toggle(t)) == Turn(1 - t.teamTurn, true, false)
  {
  }

  /** For a real team, four toggles give back the same state, whatever the phase flags. */
  lemma FourTogglesIdentity(t: Turn)
    requires t.teamTurn == 0 || t.teamTurn == 1
    ensures Toggle(Toggle(Toggle(Toggle(t)))) == t
  {
  }
}
