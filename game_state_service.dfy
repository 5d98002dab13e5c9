/**
 * The game rules engine (gameState/service/impl/DefaultGameStateService.java):
 * dealing the board, the per-card vote counters, revealing a card with its
 * scoring and turn changes, and picking the player who chooses cards.
 * Randomness (Random, Collections.shuffle) arrives as sequences of draws.
 */
module GameStateService {
  import opened Wrappers
  import Users
  import Cards
  import GameStates
  import GameSessions

  datatype GameError =
    | SessionNotFound          // IllegalArgumentException / RuntimeException from the repository lookup
    | IncorrectCardIndex       // IllegalArgumentException("Incorrect card index: ...")
    | CardIndexOutOfBounds     // ArrayIndexOutOfBoundsException on cardsColors
    | NullConnectedUsers       // NullPointerException on a null team list
    | TeamIndexOutOfBounds     // IndexOutOfBoundsException on connectedUsers.get
    | NoAvailablePlayer        // Random.nextInt(0) throws IllegalArgumentException
    | EmptyCardCatalogue       // Random.nextInt(0) on an empty card list throws IllegalArgumentException

  // ---------------------------------------------------------------------------
  // Card names

  /** getCardNameInLanguage: the card's id except in English, where the English name is used when the card has one. */
  function GetCardNameInLanguage(card: Cards.Card, language: Option<string>): (name: string)
    ensures language != Some("en") ==> name == card.id
    ensures language == Some("en") && "en" in card.names ==> name == card.names["en"]
    ensures language == Some("en") && "en" !in card.names ==> name == card.id
  {
    if language == Some("pl") then card.id
    else if language == Some("en") then (if "en" in card.names then card.names["en"] else card.id)
    else card.id
  }

  /** The cards a Random draw picks: nextInt(n) is modelled by draw % n. */
  predicate Distinct(s: seq<nat>)
  {
    forall i, j :: 0 <= i < j < |s| ==> s[i] != s[j]
  }

  /** The board names cards at 25 different catalogue positions, each in the language. */
  predicate DealtFrom(cards: seq<string>, selected: seq<nat>, allCards: seq<Cards.Card>, language: Option<string>)
  {
    |selected| == 25 && Distinct(selected) && |cards| == 25
    && forall k :: 0 <= k < 25 ==> selected[k] < |allCards| && cards[k] == GetCardNameInLanguage(allCards[selected[k]], language)
  }

  /**
   * generateRandomCardsNames: draw card positions until 25 different ones
   * are held, then name each chosen card in the language. On an empty
   * catalogue the first nextInt(0) throws before anything is stored. With 1
   * to 24 cards the source keeps drawing for ever; here the draws must
   * contain 25 different positions. The chosen positions are returned.
   */
  method GenerateRandomCardsNames(gameState: GameStates.GameState, allCards: seq<Cards.Card>, language: Option<string>, draws: seq<nat>)
    returns (r: Result<seq<nat>, GameError>)
    requires |allCards| > 0 ==> |Drawn(draws, |allCards|)| >= 25
    modifies gameState
    ensures r.Err? <==> |allCards| == 0
    ensures r.Err? ==> r.error == EmptyCardCatalogue && gameState.State() == old(gameState.State())
    ensures r.Ok? ==> DealtFrom(gameState.cards, r.value, allCards, language)
    ensures r.Ok? ==> gameState.State() == old(gameState.State()).(cards := gameState.cards)
  {
    if |allCards| == 0 {
      return Err(EmptyCardCatalogue);
    }
    var n := |allCards|;
    var selected: seq<nat> := [];
    var i := 0;
    while |selected| < 25
      invariant 0 <= i <= |draws|
      invariant |selected| <= 25 && Distinct(selected)
      invariant forall k :: 0 <= k < |selected| ==> selected[k] < n
      invariant Held(selected) == Drawn(draws[..i], n)
      invariant gameState.State() == old(gameState.State())
      decreases |draws| - i
    {
      if i == |draws| {
        assert draws[..i] == draws;
        SetOfDistinctSize(selected);
        assert false;
      }
      var index := draws[i] % n;
      var before := selected;
      if index !in selected {
        selected := selected + [index];
      }
      HeldAppend(before, index);
      DrawnStep(draws, i, n);
      i := i + 1;
    }
    var cards: seq<string> := [];
    var k := 0;
    while k < 25
      invariant 0 <= k <= 25 && |cards| == k
      invariant gameState.State() == old(gameState.State())
      invariant forall m :: 0 <= m < k ==> cards[m] == GetCardNameInLanguage(allCards[selected[m]], language)
    {
      cards := cards + [GetCardNameInLanguage(allCards[selected[k]], language)];
      k := k + 1;
    }
    gameState.cards := cards;
    r := Ok(selected);
  }

  /** The positions a sequence of draws reaches in a catalogue of n cards. */
  function Drawn(draws: seq<nat>, n: nat): set<nat>
    requires n > 0
  {
    set j | 0 <= j < |draws| :: draws[j] % n
  }

  function Held(s: seq<nat>): set<nat>
  {
    set k | 0 <= k < |s| :: s[k]
  }

  lemma DrawnStep(draws: seq<nat>, i: nat, n: nat)
    requires n > 0 && i < |draws|
    ensures Drawn(draws[..i + 1], n) == Drawn(draws[..i], n) + {draws[i] % n}
  {
    var a, b := draws[..i + 1], draws[..i];
    assert forall j :: 0 <= j < i ==> a[j] == b[j];
    assert a[i] == draws[i];
  }

  lemma HeldAppend(s: seq<nat>, x: nat)
    ensures Held(s + [x]) == Held(s) + {x}
    ensures x in s ==> Held(s) == Held(s) + {x}
  {
    var t := s + [x];
    assert forall k :: 0 <= k < |s| ==> t[k] == s[k];
    assert t[|s|] == x;
    if x in s {
      var k :| 0 <= k < |s| && s[k] == x;
      assert x in Held(s);
    }
  }

  lemma {:induction false} SetOfDistinctSize(s: seq<nat>)
    requires Distinct(s)
    ensures |Held(s)| == |s|
  {
    if |s| > 0 {
      var init := s[..|s| - 1];
      assert Distinct(init);
      SetOfDistinctSize(init);
      assert Held(s) == Held(init) + {s[|s| - 1]};
      assert s[|s| - 1] !in Held(init);
    }
  }

  // ---------------------------------------------------------------------------
  // Card colours: 1 red, 2 blue, 3 assassin, 0 neutral

  /** A deck as a multiset of colours. */
  function Deck(red: nat, blue: nat, assassin: nat, neutral: nat): multiset<int>
  {
    multiset{}[1 := red][2 := blue][3 := assassin][0 := neutral]
  }

  /**
   * The colour list of generateRandomCardsColors before shuffling, as the
   * source writes it: 9 red, 8 blue, the assassin, and then
   * 25 - (9 + 8) = 8 neutral cards, 26 in all.
   */
  method BuildCardsColorsAsWritten() returns (colors: seq<int>)
    ensures multiset(colors) == Deck(9, 8, 1, 8)
    ensures |colors| == 26
  {
    colors := [];
    var numberOfBlueCards, numberOfRedCards := 8, 9;
    var i := 0;
    while i < numberOfRedCards
      invariant 0 <= i <= numberOfRedCards && multiset(colors) == Deck(i, 0, 0, 0) && |colors| == i
    {
      colors := colors + [1];
      i := i + 1;
    }
    i := 0;
    while i < numberOfBlueCards
      invariant 0 <= i <= numberOfBlueCards && multiset(colors) == Deck(9, i, 0, 0) && |colors| == 9 + i
    {
      colors := colors + [2];
      i := i + 1;
    }
    colors := colors + [3];
    i := 0;
    while i < 25 - (numberOfRedCards + numberOfBlueCards)
      invariant 0 <= i <= 8 && multiset(colors) == Deck(9, 8, 1, i) && |colors| == 18 + i
    {
      colors := colors + [0];
      i := i + 1;
    }
  }

  /**
   * The board the documentation promises (25 cards: 9 red, 8 blue, one
   * assassin, 7 neutral): the neutral loop runs to 25 minus the red, blue
   * and assassin cards.
   */
  method BuildCardsColors() returns (colors: seq<int>)
    ensures multiset(colors) == Deck(9, 8, 1, 7)
    ensures |colors| == 25
  {
    colors := [];
    var numberOfBlueCards, numberOfRedCards, numberOfAssassins := 8, 9, 1;
    var i := 0;
    while i < numberOfRedCards
      invariant 0 <= i <= numberOfRedCards && multiset(colors) == Deck(i, 0, 0, 0) && |colors| == i
    {
      colors := colors + [1];
      i := i + 1;
    }
    i := 0;
    while i < numberOfBlueCards
      invariant 0 <= i <= numberOfBlueCards && multiset(colors) == Deck(9, i, 0, 0) && |colors| == 9 + i
    {
      colors := colors + [2];
      i := i + 1;
    }
    colors := colors + [3];
    i := 0;
    while i < 25 - (numberOfRedCards + numberOfBlueCards + numberOfAssassins)
      invariant 0 <= i <= 7 && multiset(colors) == Deck(9, 8, 1, i) && |colors| == 18 + i
    {
      colors := colors + [0];
      i := i + 1;
    }
  }

  /**
   * Collections.shuffle on a random-access list: from the last position down
   * to the second, swap it with a position drawn below it (nextInt(i) is
   * draws[step] % i). The result is a rearrangement of the input.
   */
  method Shuffle(list: seq<int>, draws: seq<nat>) returns (shuffled: seq<int>)
    requires |draws| + 1 >= |list|
    ensures |shuffled| == |list|
    ensures multiset(shuffled) == multiset(list)
  {
    shuffled := list;
    var i := |list|;
    while i > 1
      invariant 0 <= i <= |list|
      invariant |shuffled| == |list|
      invariant multiset(shuffled) == multiset(list)
    {
      var j := draws[|list| - i] % i;
      var a, b := shuffled[i - 1], shuffled[j];
      shuffled := shuffled[i - 1 := b][j := a];
      i := i - 1;
    }
  }

  /** generateRandomCardsColors with the intended 25-card deck, shuffled into the game state. */
  method GenerateRandomCardsColors(gameState: GameStates.GameState, draws: seq<nat>)
    requires |draws| >= 24
    modifies gameState
    ensures |gameState.cardsColors| == 25
    ensures multiset(gameState.cardsColors) == Deck(9, 8, 1, 7)
    ensures gameState.State() == old(gameState.State()).(cardsColors := gameState.cardsColors)
  {
    var colors := BuildCardsColors();
    colors := Shuffle(colors, draws);
    gameState.cardsColors := colors;
  }

  /** The intended deck has every colour of the board and one assassin; the written one has an extra neutral card. */
  lemma DeckCounts()
    ensures Deck(9, 8, 1, 7)[3] == 1 && |Deck(9, 8, 1, 7)| == 25
    ensures |Deck(9, 8, 1, 8)| == 26 && Deck(9, 8, 1, 8)[0] == Deck(9, 8, 1, 7)[0] + 1
  {
  }

  // ---------------------------------------------------------------------------
  // Vote counters

  /** The counters after one vote on card i: +1 when adding, -1 but never below 0 when removing. */
  function Vote(votes: seq<int>, i: nat, adding: bool): seq<int>
    requires i < |votes|
  {
    votes[i := if adding then votes[i] + 1 else Max(0, votes[i] - 1)]
  }

  function Max(a: int, b: int): int
  {
    if a >= b then a else b
  }

  /** A vote touches only its own counter, adding exactly 1 or taking 1 away down to 0. */
  lemma VoteChangesOneCounter(votes: seq<int>, i: nat, adding: bool)
    requires i < |votes|
    ensures |Vote(votes, i, adding)| == |votes|
    ensures forall k :: 0 <= k < |votes| && k != i ==> Vote(votes, i, adding)[k] == votes[k]
    ensures adding ==> Vote(votes, i, adding)[i] == votes[i] + 1
    ensures !adding && votes[i] > 0 ==> Vote(votes, i, adding)[i] == votes[i] - 1
    ensures !adding && votes[i] <= 0 ==> Vote(votes, i, adding)[i] == 0
  {
  }

  /** Counters that start non-negative stay non-negative, whatever the votes. */
  lemma VoteKeepsCountersNonNegative(votes: seq<int>, i: nat, adding: bool)
    requires i < |votes|
    requires forall k :: 0 <= k < |votes| ==> votes[k] >= 0
    ensures forall k :: 0 <= k < |votes| ==> Vote(votes, i, adding)[k] >= 0
  {
  }

  /** Adding a vote and then removing it gives the counters back. */
  lemma VoteAddThenRemove(votes: seq<int>, i: nat)
    requires i < |votes| && votes[i] >= 0
    ensures Vote(Vote(votes, i, true), i, false) == votes
  {
  }

  /**
   * updateVotes: an unknown session or a card index outside the counters
   * throws and changes nothing; otherwise the chosen counter moves by Vote.
   */
  method UpdateVotes(sessions: map<GameSessions.Uuid, GameSessions.GameSession>, gameId: GameSessions.Uuid, cardIndex: int, addingVote: bool)
    returns (result: Result<(), GameError>)
    modifies if gameId in sessions then {sessions[gameId].gameState} else {}
    ensures gameId !in sessions ==> result == Err(SessionNotFound)
    ensures gameId in sessions ==>
      var gs := sessions[gameId].gameState;
      if 0 <= cardIndex < |old(gs.cardsVotes)| then
        result == Ok(()) && gs.State() == old(gs.State()).(cardsVotes := Vote(old(gs.cardsVotes), cardIndex, addingVote))
      else
        result == Err(IncorrectCardIndex) && gs.State() == old(gs.State())
  {
    if gameId !in sessions {
      return Err(SessionNotFound);
    }
    var gameState := sessions[gameId].gameState;
    if 0 <= cardIndex < |gameState.cardsVotes| {
      var currentVotes := gameState.cardsVotes[cardIndex];
      if addingVote {
        gameState.cardsVotes := gameState.cardsVotes[cardIndex := currentVotes + 1];
      } else {
        gameState.cardsVotes := gameState.cardsVotes[cardIndex := Max(0, currentVotes - 1)];
      }
    } else {
      return Err(IncorrectCardIndex);
    }
    return Ok(());
  }

  // ---------------------------------------------------------------------------
  // Turns and revealing a card

  /** toogleTurn: the same turn step as GameState.toggleTurn, written out on the session's game state. */
  method ToogleTurn(session: GameSessions.GameSession)
    modifies session.gameState
    ensures session.gameState.State()
            == old(session.gameState.State()).(turn := GameStates.Toggle(old(session.gameState.TurnState())))
  {
    var gameState := session.gameState;
    if !gameState.isHintTurn {
      gameState.teamTurn := if gameState.teamTurn == 0 then 1 else 0;
    }
    gameState.isHintTurn := !gameState.isHintTurn;
    gameState.isGuessingTurn := !gameState.isGuessingTurn;
  }

  function ToggleTimes(t: GameStates.Turn, n: nat): GameStates.Turn
    decreases n
  {
    if n == 0 then t else ToggleTimes(GameStates.Toggle(t), n - 1)
  }

  /** The revealed card is recorded (the list created when null) and the hint counter goes down, not below 0. */
  function Record(s: GameStates.Snapshot, cardIndex: int): GameStates.Snapshot
  {
    s.(cardsChosen := Some((if s.cardsChosen.Some? then s.cardsChosen.value else []) + [cardIndex]),
       hintNumber := Max(0, s.hintNumber - 1))
  }

  /** The score change of one revealed colour, with the hand-over when a team reveals the other team's card. */
  function Score(s: GameStates.Snapshot, color: int): GameStates.Snapshot
  {
    if color == 1 then
      var r := s.(redTeamScore := s.redTeamScore + 1);
      if r.turn.teamTurn != 0 then r.(turn := GameStates.Toggle(r.turn)) else r
    else if color == 2 then
      var r := s.(blueTeamScore := s.blueTeamScore + 1);
      if r.turn.teamTurn != 1 then r.(turn := GameStates.Toggle(r.turn)) else r
    else if color == 3 then
      if s.turn.teamTurn == 1 then s.(blueTeamScore := 100) else s.(redTeamScore := 100)
    else s
  }

  /**
   * cardsChosen as a function of the state before it: record the card, then
   * (when the index is on the board) score it, then end the turn when the
   * hint counter has reached 0. An index off the board throws after the card
   * is recorded.
   */
  function Reveal(s: GameStates.Snapshot, cardIndex: int): GameStates.Snapshot
  {
    var recorded := Record(s, cardIndex);
    if !(0 <= cardIndex < |s.cardsColors|) then recorded
    else
      var scored := Score(recorded, s.cardsColors[cardIndex]);
      if scored.hintNumber == 0 then scored.(turn := GameStates.Toggle(scored.turn)) else scored
  }

  method CardsChosen(session: GameSessions.GameSession, cardIndex: int) returns (result: Result<(), GameError>)
    modifies session.gameState
    ensures session.gameState.State() == Reveal(old(session.gameState.State()), cardIndex)
    ensures result.Err? <==> !(0 <= cardIndex < |old(session.gameState.cardsColors)|)
    ensures result.Err? ==> result.error == CardIndexOutOfBounds
  {
    var gameState := session.gameState;
    ghost var s := gameState.State();
    if gameState.cardsChosen.None? {
      gameState.cardsChosen := Some([]);
    }
    gameState.cardsChosen := Some(gameState.cardsChosen.value + [cardIndex]);
    gameState.hintNumber := Max(0, gameState.hintNumber - 1);
    assert gameState.State() == Record(s, cardIndex);
    if !(0 <= cardIndex < |gameState.cardsColors|) {
      return Err(CardIndexOutOfBounds);
    }
    ScoreCard(session, gameState.cardsColors[cardIndex]);
    if gameState.hintNumber == 0 {
      ToogleTurn(session);
    }
    return Ok(());
  }

  /** The scoring branch of cardsChosen for the revealed card's colour. */
  method ScoreCard(session: GameSessions.GameSession, color: int)
    modifies session.gameState
    ensures session.gameState.State() == Score(old(session.gameState.State()), color)
  {
    var gameState := session.gameState;
    if color == 1 {
      gameState.redTeamScore := gameState.redTeamScore + 1;
      if gameState.teamTurn != 0 {
        ToogleTurn(session);
      }
    } else if color == 2 {
      gameState.blueTeamScore := gameState.blueTeamScore + 1;
      if gameState.teamTurn != 1 {
        ToogleTurn(session);
      }
    } else if color == 3 {
      if gameState.teamTurn == 1 {
        gameState.blueTeamScore := 100;
      } else {
        gameState.redTeamScore := 100;
      }
    }
  }

  /** Every reveal records the card at the end of the list and lowers the hint counter, floored at 0. */
  lemma RevealRecords(s: GameStates.Snapshot, cardIndex: int)
    ensures Reveal(s, cardIndex).cardsChosen
            == Some((if s.cardsChosen.Some? then s.cardsChosen.value else []) + [cardIndex])
    ensures Reveal(s, cardIndex).hintNumber == if s.hintNumber >= 1 then s.hintNumber - 1 else 0
    ensures Reveal(s, cardIndex).cardsVotes == s.cardsVotes && Reveal(s, cardIndex).cards == s.cards
  {
  }

  /**
   * Scoring: a red card gives red one point, a blue card gives blue one
   * point, the assassin sets the score of the team on turn to 100, and a
   * neutral card (or an index off the board) changes no score.
   */
  lemma RevealScores(s: GameStates.Snapshot, cardIndex: int)
    ensures var r := Reveal(s, cardIndex);
      if !(0 <= cardIndex < |s.cardsColors|) then
        r.redTeamScore == s.redTeamScore && r.blueTeamScore == s.blueTeamScore
      else
        var color := s.cardsColors[cardIndex];
        (color == 1 ==> r.redTeamScore == s.redTeamScore + 1 && r.blueTeamScore == s.blueTeamScore)
        && (color == 2 ==> r.blueTeamScore == s.blueTeamScore + 1 && r.redTeamScore == s.redTeamScore)
        && (color == 3 && s.turn.teamTurn == 1 ==> r.blueTeamScore == 100 && r.redTeamScore == s.redTeamScore)
        && (color == 3 && s.turn.teamTurn != 1 ==> r.redTeamScore == 100 && r.blueTeamScore == s.blueTeamScore)
        && (color != 1 && color != 2 && color != 3 ==> r.redTeamScore == s.redTeamScore && r.blueTeamScore == s.blueTeamScore)
  {
  }

  /**
   * Turn changes: one toggle when the card belongs to the team not on turn,
   * one more when the hint counter reaches 0; both can happen in one reveal.
   */
  lemma RevealToggles(s: GameStates.Snapshot, cardIndex: int)
    requires 0 <= cardIndex < |s.cardsColors|
    ensures var color := s.cardsColors[cardIndex];
      var wrongTeam := (color == 1 && s.turn.teamTurn != 0) || (color == 2 && s.turn.teamTurn != 1);
      var hintsUsedUp := s.hintNumber <= 1;
      Reveal(s, cardIndex).turn == ToggleTimes(s.turn, (if wrongTeam then 1 else 0) + (if hintsUsedUp then 1 else 0))
  {
    var color := s.cardsColors[cardIndex];
    var recorded := Record(s, cardIndex);
    var scored := Score(recorded, color);
    assert scored.hintNumber == recorded.hintNumber;
    var wrongTeam := (color == 1 && s.turn.teamTurn != 0) || (color == 2 && s.turn.teamTurn != 1);
    assert scored.turn == ToggleTimes(s.turn, if wrongTeam then 1 else 0);
    if s.hintNumber <= 1 {
      if wrongTeam {
        assert ToggleTimes(s.turn, 2) == GameStates.Toggle(ToggleTimes(s.turn, 1));
      }
    }
  }

  // ---------------------------------------------------------------------------
  // The player who chooses cards this round

  /** List.remove(Object): drops the first element equal to x, if any. */
  function RemoveFirst(s: seq<Users.User>, x: Option<Users.User>): (r: seq<Users.User>)
    ensures x.None? || x.value !in s ==> r == s
    ensures x.Some? && x.value in s ==> |r| == |s| - 1
    ensures multiset(r) <= multiset(s)
    ensures x.Some? ==> multiset(r) == multiset(s) - multiset{x.value}
  {
    if x.None? || |s| == 0 then s
    else
      assert s == [s[0]] + s[1..];
      if s[0] == x.value then s[1..]
      else
        var rest := RemoveFirst(s[1..], x);
        assert multiset([s[0]] + rest) == multiset{s[0]} + multiset(rest);
        [s[0]] + rest
  }

  /**
   * getNewLeader: among the current team's players, minus one copy of each
   * team leader, the one a random draw picks (nextInt(size) is draw % size).
   */
  function GetNewLeader(teamTurn: int, connectedUsers: Option<seq<seq<Users.User>>>,
                        redTeamLeader: Option<Users.User>, blueTeamLeader: Option<Users.User>, draw: nat)
    : (r: Result<Users.User, GameError>)
    ensures connectedUsers.None? ==> r == Err(NullConnectedUsers)
    ensures connectedUsers.Some? && !(0 <= teamTurn < |connectedUsers.value|) ==> r == Err(TeamIndexOutOfBounds)
    ensures r.Ok? ==> r.value in connectedUsers.value[teamTurn]
    ensures r.Ok? ==> multiset(RemoveFirst(RemoveFirst(connectedUsers.value[teamTurn], redTeamLeader), blueTeamLeader))[r.value] > 0
  {
    if connectedUsers.None? then Err(NullConnectedUsers)
    else if !(0 <= teamTurn < |connectedUsers.value|) then Err(TeamIndexOutOfBounds)
    else
      var team := connectedUsers.value[teamTurn];
      var available := RemoveFirst(RemoveFirst(team, redTeamLeader), blueTeamLeader);
      if |available| == 0 then Err(NoAvailablePlayer)
      else
        assert available[draw % |available|] in multiset(available);
        Ok(available[draw % |available|])
  }

  /**
   * getNewLeader as written, on the session chooseRandomCurrentLeader has
   * just reloaded from the repository. User declares no equals, so
   * List.remove compares references, and the leader objects read into the
   * game state are never the objects read into the team lists: both
   * removes take nothing out and the draw is over the whole team. The
   * leaders therefore play no part here.
   */
  function GetNewLeaderAsWritten(teamTurn: int, connectedUsers: Option<seq<seq<Users.User>>>, draw: nat)
    : (r: Result<Users.User, GameError>)
    ensures connectedUsers.None? ==> r == Err(NullConnectedUsers)
    ensures connectedUsers.Some? && !(0 <= teamTurn < |connectedUsers.value|) ==> r == Err(TeamIndexOutOfBounds)
    ensures connectedUsers.Some? && 0 <= teamTurn < |connectedUsers.value| ==>
      (r.Err? <==> |connectedUsers.value[teamTurn]| == 0)
    ensures r.Ok? ==> r.value in connectedUsers.value[teamTurn]
  {
    if connectedUsers.None? then Err(NullConnectedUsers)
    else if !(0 <= teamTurn < |connectedUsers.value|) then Err(TeamIndexOutOfBounds)
    else
      var team := connectedUsers.value[teamTurn];
      if |team| == 0 then Err(NoAvailablePlayer) else Ok(team[draw % |team|])
  }

  /**
   * The discrepancy: on red's team [a, b] with a as red leader, the draw 0
   * picks the leader a as written, while removing the leaders as intended
   * leaves b.
   */
  lemma AsWrittenPicksALeader(a: Users.User, b: Users.User)
    requires a != b
    ensures GetNewLeaderAsWritten(0, Some([[a, b], []]), 0) == Ok(a)
    ensures GetNewLeader(0, Some([[a, b], []]), Some(a), None, 0) == Ok(b)
  {
    assert RemoveFirst([a, b], Some(a)) == [b];
  }

  /** With nobody on the team twice, the players left after removing the leaders are exactly the members who lead no team. */
  lemma AvailableMembers(team: seq<Users.User>, red: Option<Users.User>, blue: Option<Users.User>, y: Users.User)
    requires forall i, j :: 0 <= i < j < |team| ==> team[i] != team[j]
    ensures multiset(RemoveFirst(RemoveFirst(team, red), blue))[y] > 0 <==> y in team && Some(y) != red && Some(y) != blue
  {
    var once := RemoveFirst(team, red);
    RemoveFirstCount(team, red, y);
    RemoveFirstCount(once, blue, y);
    if y in team {
      OccursOnce(team, y);
    } else {
      assert multiset(team)[y] == 0;
    }
  }

  /** How many copies of y are left after List.remove(x). */
  lemma RemoveFirstCount(s: seq<Users.User>, x: Option<Users.User>, y: Users.User)
    ensures multiset(RemoveFirst(s, x))[y]
            == if x == Some(y) && multiset(s)[y] > 0 then multiset(s)[y] - 1 else multiset(s)[y]
  {
  }

  /** The pick on a present team: an error exactly when no player is left, otherwise the drawn one of those left. */
  lemma NewLeaderOnTeam(teamTurn: int, teams: seq<seq<Users.User>>,
                        red: Option<Users.User>, blue: Option<Users.User>, draw: nat)
    requires 0 <= teamTurn < |teams|
    ensures var available := RemoveFirst(RemoveFirst(teams[teamTurn], red), blue);
      GetNewLeader(teamTurn, Some(teams), red, blue, draw)
      == if |available| == 0 then Err(NoAvailablePlayer) else Ok(available[draw % |available|])
  {
  }

  /** On a team where nobody appears twice, the chosen player leads neither team. */
  lemma NewLeaderIsNotALeader(teamTurn: int, teams: seq<seq<Users.User>>,
                              red: Option<Users.User>, blue: Option<Users.User>, draw: nat)
    requires 0 <= teamTurn < |teams|
    requires forall i, j :: 0 <= i < j < |teams[teamTurn]| ==> teams[teamTurn][i] != teams[teamTurn][j]
    requires GetNewLeader(teamTurn, Some(teams), red, blue, draw).Ok?
    ensures var leader := GetNewLeader(teamTurn, Some(teams), red, blue, draw).value;
      leader in teams[teamTurn] && Some(leader) != red && Some(leader) != blue
  {
    var team := teams[teamTurn];
    var available := RemoveFirst(RemoveFirst(team, red), blue);
    NewLeaderOnTeam(teamTurn, teams, red, blue, draw);
    var x := available[draw % |available|];
    assert x in multiset(available);
    AvailableMembers(team, red, blue, x);
  }

  predicate AllLead(team: seq<Users.User>, red: Option<Users.User>, blue: Option<Users.User>)
  {
    forall k :: 0 <= k < |team| ==> Some(team[k]) == red || Some(team[k]) == blue
  }

  lemma NoneAvailable(team: seq<Users.User>, red: Option<Users.User>, blue: Option<Users.User>)
    requires forall i, j :: 0 <= i < j < |team| ==> team[i] != team[j]
    ensures |RemoveFirst(RemoveFirst(team, red), blue)| == 0 <==> AllLead(team, red, blue)
  {
    if |RemoveFirst(RemoveFirst(team, red), blue)| == 0 {
      NoneAvailableAllLead(team, red, blue);
    } else {
      SomeAvailableNotAllLead(team, red, blue);
    }
  }

  lemma NoneAvailableAllLead(team: seq<Users.User>, red: Option<Users.User>, blue: Option<Users.User>)
    requires forall i, j :: 0 <= i < j < |team| ==> team[i] != team[j]
    requires |RemoveFirst(RemoveFirst(team, red), blue)| == 0
    ensures AllLead(team, red, blue)
  {
    var available := RemoveFirst(RemoveFirst(team, red), blue);
    assert multiset(available) == multiset{};
    forall k | 0 <= k < |team| ensures Some(team[k]) == red || Some(team[k]) == blue {
      AvailableMembers(team, red, blue, team[k]);
    }
  }

  lemma SomeAvailableNotAllLead(team: seq<Users.User>, red: Option<Users.User>, blue: Option<Users.User>)
    requires forall i, j :: 0 <= i < j < |team| ==> team[i] != team[j]
    requires |RemoveFirst(RemoveFirst(team, red), blue)| > 0
    ensures !AllLead(team, red, blue)
  {
    var available := RemoveFirst(RemoveFirst(team, red), blue);
    var x := available[0];
    assert x in multiset(available);
    AvailableMembers(team, red, blue, x);
    var k :| 0 <= k < |team| && team[k] == x;
    assert !(Some(team[k]) == red || Some(team[k]) == blue);
  }

  /** On a team where nobody appears twice, the pick fails exactly when every player is a team leader. */
  lemma NewLeaderFailsOnlyWhenAllLead(teamTurn: int, teams: seq<seq<Users.User>>,
                                      red: Option<Users.User>, blue: Option<Users.User>, draw: nat)
    requires 0 <= teamTurn < |teams|
    requires forall i, j :: 0 <= i < j < |teams[teamTurn]| ==> teams[teamTurn][i] != teams[teamTurn][j]
    ensures GetNewLeader(teamTurn, Some(teams), red, blue, draw).Err? <==> AllLead(teams[teamTurn], red, blue)
  {
    NewLeaderOnTeam(teamTurn, teams, red, blue, draw);
    NoneAvailable(teams[teamTurn], red, blue);
  }

  lemma {:induction false} OccursOnce(s: seq<Users.User>, x: Users.User)
    requires forall i, j :: 0 <= i < j < |s| ==> s[i] != s[j]
    requires x in multiset(s)
    ensures multiset(s)[x] == 1
  {
    assert s == [s[0]] + s[1..];
    if s[0] == x {
      assert x !in s[1..];
    } else {
      OccursOnce(s[1..], x);
    }
  }
}
