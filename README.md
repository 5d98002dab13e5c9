# Codenames core, modelled in Dafny

This project models the core of the Codenames web game. It covers the
Spring backend and a few of the React frontend's utilities and hooks.

Game logic:
- a game session collects players on two teams (red = team 0, blue = team 1);
- the players vote for their team leaders;
- the game state holds the 25 cards, their colours, the per-card votes, the
  scores and the turn (hint phase, then guessing phase, then the other team).

Accounts:
- users are created (guests, or registered accounts that stay inactive until
  activated);
- passwords are reset through single-use, 15-minute reset tokens that record
  the client's IP address (taken from proxy headers);
- a scheduler removes inactive guests and abandoned sessions;
- Hazelcast compact serializers flatten sessions, game states and users into
  records and read them back;
- mappers build the DTOs the controllers return;
- cookies are rendered as `Set-Cookie` header values.

Frontend:
- the duration formatter and the form validators;
- the friend-request socket hook (state lists plus a queue of socket emits
  waiting for a connection);
- the toast list;
- the language slider and the tutorial pager.

Also modelled: `Consts.hpp`, a header of the third-party mediasoup media
server vendored under the repository's `node_modules`. Nothing in the game's
own code imports mediasoup; the header's size constants and their arithmetic
are modelled on their own.

How the model is built:
- Entities that the source changes in place are classes: `GameState`, the
  services holding repositories, the React hooks' state.
- Values are datatypes: users, tokens, and sessions as the stores hand them
  out. The game services load and save sessions through the Mongo session
  repository, and the scheduler reads the Hazelcast map. Both stores return
  copies.
- Repositories are `seq` fields when they are searched in order (the user
  collection) and `map` fields when they are keyed (tokens by token string,
  sessions by UUID).
- Time is an integer passed in by the caller. The tokens' clock `now` counts seconds. The session's `votingStartTime` stores `System.currentTimeMillis()`, so CreateGameSession takes `nowMillis` in milliseconds.
- Random draws (Faker, `Random`, `Collections.shuffle`) are sequences of
  numbers passed in by the caller.
- The password encoder and the JWT check are function parameters.

## Model

| member | source | states |
|---|---|---|
| Cards.NamesIn | codenames-backend/src/main/java/org/example/codenames/card/service/impl/DefaultCardService.java:66-69 | the names kept are never empty and at most one per card |
| Cards.GetCardsInLanguage | codenames-backend/src/main/java/org/example/codenames/card/service/impl/DefaultCardService.java:64-73 | a null or empty language gives no names; otherwise the non-empty names of the cards in that language |
| Cards.NamesInAppend | codenames-backend/src/main/java/org/example/codenames/card/service/impl/DefaultCardService.java:66-69 | the name list of a concatenation is the concatenation of the name lists (stream order kept) |
| Cards.NamesInSingle | codenames-backend/src/main/java/org/example/codenames/card/service/impl/DefaultCardService.java:67-68 | one card contributes its name only when the language is present and the name is non-empty |
| Cards.NamesInComplete | codenames-backend/src/main/java/org/example/codenames/card/service/impl/DefaultCardService.java:66-69 | when every card has a non-empty name, the result has one name per card, in card order |
| CookieHeader.SplitRenderedAttributes | codenames-backend/src/main/java/org/example/codenames/util/CookieUtils.java:19 | splitting a rendered header on `;` gives the name=value pair followed by each attribute with its leading space |
| CookieHeader.ParseSpaced | codenames-backend/src/main/java/org/example/codenames/util/CookieUtils.java:19 | the attribute parser inverts the "; "-separated attribute rendering |
| CookieHeader.ParseRender | codenames-backend/src/main/java/org/example/codenames/util/CookieUtils.java:17-24 | parsing a rendered Set-Cookie value (section 4.1 of RFC 6265) gives back the cookie it was rendered from |
| CookieUtils.MaxAgeDecimal | codenames-backend/src/main/java/org/example/codenames/util/CookieUtils.java:7 | Max-Age is 36000 when logging in and 0 when logging out |
| CookieUtils.AttributesText | codenames-backend/src/main/java/org/example/codenames/util/CookieUtils.java:19-22 | the attributes are Domain, Path=/, Max-Age, HttpOnly (auth cookie only), Secure and SameSite=None, in that order |
| CookieUtils.AttributesWellFormed | codenames-backend/src/main/java/org/example/codenames/util/CookieUtils.java:19 | no attribute contains the `;` separator |
| CookieUtils.AuthCookieHeaderParses | codenames-backend/src/main/java/org/example/codenames/util/CookieUtils.java:17-24 | the auth header is an `authToken` cookie holding the token when logging in and the empty value when logging out, with the HttpOnly attributes |
| CookieUtils.LoggedInCookieHeaderParses | codenames-backend/src/main/java/org/example/codenames/util/CookieUtils.java:32-39 | the loggedIn header holds "true" or the empty value, with the attributes but not HttpOnly |
| DurationFormat.JsRem | codenames-frontend/src/shared/utils.tsx:59 | JavaScript `%` takes the dividend's sign: equals Dafny `%` for non-negative operands and lies in (-b, 0] for negative ones |
| DurationFormat.LeadingDigits | codenames-frontend/src/shared/utils.tsx:44 | the length of the longest digit prefix, as a `\d+` group matches it |
| DurationFormat.SecondsPartAccepts | codenames-frontend/src/shared/utils.tsx:44-50 | the optional `(\d+)S` group is accepted with its decimal value |
| DurationFormat.DesignatorsAccept | codenames-frontend/src/shared/utils.tsx:44-50 | the `M` and `S` groups together are accepted with value minutes*60+seconds |
| DurationFormat.ParsePTAccepts | codenames-frontend/src/shared/utils.tsx:44-50 | every text of the form PT[nM][nS] is accepted with value minutes*60+seconds |
| DurationFormat.ParsePTOnlyAccepts | codenames-frontend/src/shared/utils.tsx:44-50 | the PT parser accepts only texts of the form PT[nM][nS], with that value (converse of ParsePTAccepts) |
| DurationFormat.DesignatorsOnlyAccept | codenames-frontend/src/shared/utils.tsx:44 | text after "PT" that the groups accept is exactly some optional minutes group followed by some optional seconds group, with their value |
| DurationFormat.SecondsGroupOf | codenames-frontend/src/shared/utils.tsx:44 | an accepted seconds part is exactly the rendering of some seconds group |
| DurationFormat.TwoWideDigits | codenames-frontend/src/shared/utils.tsx:61-64 | padStart(2, "0") of a number is all digits, at least two wide, and reads back as the number |
| DurationFormat.FormatTimeFields | codenames-frontend/src/shared/utils.tsx:72-78 | formatTime gives digits:two-digits whose parts read back as seconds/60 and seconds%60 |
| DurationFormat.ConvertIsIdempotentOnFormatted | codenames-frontend/src/shared/utils.tsx:34-65 | converting an already formatted mm:ss text (under 100 minutes) returns it unchanged |
| DurationFormat.ConvertPT | codenames-frontend/src/shared/utils.tsx:44-64 | a PT[nM][nS] duration converts to the formatting of its total seconds |
| DurationFormat.ColonFormStartsWithDigit | codenames-frontend/src/shared/utils.tsx:40 | the mm:ss branch accepts only texts starting with a digit |
| DurationFormat.ConvertBarePT | codenames-frontend/src/shared/utils.tsx:44-50 | "PT" alone matches the regex with both groups absent and converts to "00:00" |
| DurationFormat.ConvertRejectsHours | codenames-frontend/src/shared/utils.tsx:51-54 | an hours designator does not match, so the fallback "00:00" is returned |
| Numerals.NatToDecimal | codenames-frontend/src/shared/utils.tsx:61 | String(n) of a natural is a non-empty digit string with no leading zero, one digit exactly for n < 10 |
| Numerals.DecimalRoundTrip | codenames-frontend/src/shared/utils.tsx:61 | reading the decimal rendering of n gives n back |
| Numerals.PadStart | codenames-frontend/src/shared/utils.tsx:61-64 | padStart leaves long strings alone, otherwise fills on the left to the width and keeps the string as suffix |
| Validation.ValidateUsernameMeaning | codenames-frontend/src/utils/validation.tsx:19-20 | a username is valid exactly when it is non-empty and all ASCII letters and digits |
| Validation.Utf16Length | codenames-frontend/src/utils/validation.tsx:35 | the length the `.{8,}` count uses, in UTF-16 units, is at least the number of characters |
| Validation.ValidatePasswordMeaning | codenames-frontend/src/utils/validation.tsx:34-35 | valid exactly when at least 8 UTF-16 units, a lower-case and an upper-case letter, a digit and a special character, and no line terminator |
| Validation.LineTerminatorHidesLetters | codenames-frontend/src/utils/validation.tsx:35 | a password starting with a newline is refused although it has every required class |
| Validation.LastDot | codenames-frontend/src/utils/validation.tsx:8 | the position of the last dot, where the backtracking regex splits host from top-level domain |
| Validation.ValidateEmailAccepts | codenames-frontend/src/utils/validation.tsx:7-8 | every local@host.tld with allowed characters and a letter top-level domain of at least two letters is accepted |
| Validation.ValidateEmailOnlyAccepts | codenames-frontend/src/utils/validation.tsx:7-8 | every accepted address has that form (converse of ValidateEmailAccepts) |
| Validation.ValidateEmailHasOneAt | codenames-frontend/src/utils/validation.tsx:8 | an accepted address has exactly one `@` |
| MediasoupConsts.RtcpPacketMaxSize | node_modules/mediasoup/worker/include/RTC/Consts.hpp:13-22 | the RTCP maximum is 1292 bytes: the MTU less the IPv6, TCP and SRTP trailer sizes, and below the MTU |
| MediasoupConsts.SizeTSub | node_modules/mediasoup/worker/include/RTC/Consts.hpp:22 | size_t subtraction wraps modulo 2^64 and is exact when it does not underflow |
| MediasoupConsts.MidRtpExtensionMaxLengthFits | node_modules/mediasoup/worker/include/RTC/Consts.hpp:28 | the MID extension maximum length is positive and fits in a uint8_t |
| UserDetails.FromUser | codenames-backend/src/main/java/org/example/codenames/userDetails/UserEntityUserDetails.java:42-48 | null roles throw; otherwise it succeeds exactly when every comma-separated piece has text, and copies username, password and the pieces |
| UserDetails.AuthoritiesShape | codenames-backend/src/main/java/org/example/codenames/userDetails/UserEntityUserDetails.java:45-57 | no authority holds a comma and each has text; the list is empty exactly for an all-comma roles text, and otherwise starts with the text up to the first comma |
| UserDetails.OnlyCommasGiveNoAuthorities | codenames-backend/src/main/java/org/example/codenames/userDetails/UserEntityUserDetails.java:45 | an all-comma roles text gives no authorities at all |
| UserDetails.DefaultRoleAuthority | codenames-backend/src/main/java/org/example/codenames/userDetails/UserEntityUserDetails.java:45-57 | the default role ROLE_USER gives that single authority |
| LinkDiscord.BearerToken | codenames-backend/src/main/java/org/example/codenames/discord/controller/api/LinkDiscordController.java:56-59 | a token is extracted exactly when the header has text and starts with "Bearer ", and the header is that prefix followed by the token |
| LinkDiscord.BearerTokenRoundTrip | codenames-backend/src/main/java/org/example/codenames/discord/controller/api/LinkDiscordController.java:56-59 | the prefix followed by a token gives that token back |
| LinkDiscord.Begin | codenames-backend/src/main/java/org/example/codenames/discord/controller/api/LinkDiscordController.java:52-71 | a missing bearer token is a 400 with no cookie; a rejected JWT fails with no cookie; otherwise the APP_LINK_JWT cookie is added and the Discord authorization URL returned |
| GameStates.GameState.constructor | codenames-backend/src/main/java/org/example/codenames/gameState/entity/GameState.java:41-76 | a new game state has no leaders, no cards and starts in blue's hint phase; the scores, null in GameState.java, start at 0 as createGameSession sets them, and hintNumber and currentSelectionLeader, which the service and serializer use but GameState.java does not declare, start at 0 and none |
| GameStates.GameState.ToggleTurn | codenames-backend/src/main/java/org/example/codenames/gameState/entity/GameState.java:81-92 | toggleTurn changes only the turn, and as Toggle describes |
| GameStates.ToggleNegatesPhases | codenames-backend/src/main/java/org/example/codenames/gameState/entity/GameState.java:90-91 | each toggle flips both the hint and the guessing flag |
| GameStates.ToggleChangesTeamOnlyAfterGuessing | codenames-backend/src/main/java/org/example/codenames/gameState/entity/GameState.java:82-84 | the team changes exactly when toggling out of a guessing phase, and then to the other team |
| GameStates.TogglePreservesWellFormed | codenames-backend/src/main/java/org/example/codenames/gameState/entity/GameState.java:81-92 | a turn with a valid team and exactly one phase stays so |
| GameStates.TwoTogglesHandOver | codenames-backend/src/main/java/org/example/codenames/gameState/entity/GameState.java:81-92 | hint then guess hands the hint phase to the other team |
| GameStates.FourTogglesIdentity | codenames-backend/src/main/java/org/example/codenames/gameState/entity/GameState.java:81-92 | four toggles return to the starting turn |
| GameSessions.MemberIndex | codenames-backend/src/main/java/org/example/codenames/gameSession/service/impl/DefaultGameSessionService.java:125-131 | the index of the first team member with the id, or the team size when there is none |
| GameSessions.TeamIndexOf | codenames-backend/src/main/java/org/example/codenames/gameSession/service/impl/DefaultGameSessionService.java:121-124 | the first team holding the user, or the number of teams when none does |
| GameStateService.GetCardNameInLanguage | codenames-backend/src/main/java/org/example/codenames/gameState/service/impl/DefaultGameStateService.java:84-91 | English gives the card's English name when present; every other case gives the card id |
| GameStateService.GenerateRandomCardsNames | codenames-backend/src/main/java/org/example/codenames/gameState/service/impl/DefaultGameStateService.java:52-75 | an empty catalogue fails with the nextInt(0) error and changes nothing; otherwise 25 distinct card positions are drawn and returned, and the game's cards become those cards' names in the language; nothing else changes |
| GameStateService.DrawnStep | codenames-backend/src/main/java/org/example/codenames/gameState/service/impl/DefaultGameStateService.java:59-61 | each draw adds its index modulo the card count to the drawn set |
| GameStateService.SetOfDistinctSize | codenames-backend/src/main/java/org/example/codenames/gameState/service/impl/DefaultGameStateService.java:59-70 | a duplicate-free list has as many elements as its set |
| GameStateService.BuildCardsColorsAsWritten | codenames-backend/src/main/java/org/example/codenames/gameState/service/impl/DefaultGameStateService.java:101-121 | as written, the colour list holds 9 red, 8 blue, 1 assassin and 8 neutral: 26 entries |
| GameStateService.BuildCardsColors | codenames-backend/src/main/java/org/example/codenames/gameState/service/impl/DefaultGameStateService.java:94-95 | the documented deck: 9 red, 8 blue, 1 assassin and 7 neutral, 25 entries |
| GameStateService.Shuffle | codenames-backend/src/main/java/org/example/codenames/gameState/service/impl/DefaultGameStateService.java:118 | the shuffle is a permutation of the list |
| GameStateService.GenerateRandomCardsColors | codenames-backend/src/main/java/org/example/codenames/gameState/service/impl/DefaultGameStateService.java:101-121 | the game's colours become a permutation of the corrected 25-card deck of BuildCardsColors (the source stores the 26 colours of BuildCardsColorsAsWritten; see Findings); nothing else changes |
| GameStateService.DeckCounts | codenames-backend/src/main/java/org/example/codenames/gameState/service/impl/DefaultGameStateService.java:101-121 | the deck has one assassin and 25 cards; the as-written deck has one extra neutral |
| GameStateService.VoteChangesOneCounter | codenames-backend/src/main/java/org/example/codenames/gameState/service/impl/DefaultGameStateService.java:137-144 | a vote changes only the chosen counter: +1 when adding, -1 when removing, floored at 0 |
| GameStateService.VoteKeepsCountersNonNegative | codenames-backend/src/main/java/org/example/codenames/gameState/service/impl/DefaultGameStateService.java:137-144 | counters never become negative |
| GameStateService.VoteAddThenRemove | codenames-backend/src/main/java/org/example/codenames/gameState/service/impl/DefaultGameStateService.java:137-144 | adding then removing a vote restores the counters |
| GameStateService.UpdateVotes | codenames-backend/src/main/java/org/example/codenames/gameState/service/impl/DefaultGameStateService.java:130-152 | an unknown game or an out-of-range card index fails without change; otherwise only the votes change, as Vote describes |
| GameStateService.ToogleTurn | codenames-backend/src/main/java/org/example/codenames/gameState/service/impl/DefaultGameStateService.java:209-217 | the session's game state toggles its turn and no other game-state field changes; the clearVotes call that follows is not modelled (see Left out) |
| GameStateService.CardsChosen | codenames-backend/src/main/java/org/example/codenames/gameState/service/impl/DefaultGameStateService.java:159-194 | the card is recorded and scored as Reveal describes; an out-of-range index reports the error after recording |
| GameStateService.ScoreCard | codenames-backend/src/main/java/org/example/codenames/gameState/service/impl/DefaultGameStateService.java:169-187 | the colour branch changes the game state exactly as Score describes for that colour |
| GameStateService.RevealRecords | codenames-backend/src/main/java/org/example/codenames/gameState/service/impl/DefaultGameStateService.java:162-167 | the card is appended to the chosen list and the hint count drops by one, floored at 0 |
| GameStateService.RevealScores | codenames-backend/src/main/java/org/example/codenames/gameState/service/impl/DefaultGameStateService.java:169-187 | red and blue cards score for their team; the assassin sets the score of the team on turn to 100 (blue when teamTurn is 1, red otherwise); neutral scores nothing |
| GameStateService.RevealToggles | codenames-backend/src/main/java/org/example/codenames/gameState/service/impl/DefaultGameStateService.java:169-191 | the turn toggles once for a card of the other team and once more when the hints are used up |
| GameStateService.RemoveFirst | codenames-backend/src/main/java/org/example/codenames/gameState/service/impl/DefaultGameStateService.java:270-271 | List.remove drops exactly one occurrence of a present user and leaves the list alone otherwise |
| GameStateService.GetNewLeader | codenames-backend/src/main/java/org/example/codenames/gameState/service/impl/DefaultGameStateService.java:263-276 | the intended pick (corrected half of the third Findings row): null teams and a bad team index fail; a chosen leader is a team member left after removing both current leaders |
| GameStateService.GetNewLeaderAsWritten | codenames-backend/src/main/java/org/example/codenames/gameState/service/impl/DefaultGameStateService.java:263-276 | the pick as written on a reloaded session: the removes match nothing, so null teams and a bad team index fail, an empty team fails, and otherwise any team member, leaders included, can be drawn |
| GameStateService.AsWrittenPicksALeader | codenames-backend/src/main/java/org/example/codenames/gameState/service/impl/DefaultGameStateService.java:270-274 | on team [a, b] with a as red leader, draw 0 picks a as written but b under the intended removal |
| GameStateService.AvailableMembers | codenames-backend/src/main/java/org/example/codenames/gameState/service/impl/DefaultGameStateService.java:266-271 | the candidates are exactly the team members other than the red and blue leaders |
| GameStateService.NewLeaderOnTeam | codenames-backend/src/main/java/org/example/codenames/gameState/service/impl/DefaultGameStateService.java:263-276 | with no candidate the call fails; otherwise the draw picks one of the candidates |
| GameStateService.NewLeaderIsNotALeader | codenames-backend/src/main/java/org/example/codenames/gameState/service/impl/DefaultGameStateService.java:263-276 | the new leader is on the team and is neither current leader |
| GameStateService.NoneAvailable | codenames-backend/src/main/java/org/example/codenames/gameState/service/impl/DefaultGameStateService.java:268-275 | no candidate is left exactly when every member is a current leader |
| GameStateService.NewLeaderFailsOnlyWhenAllLead | codenames-backend/src/main/java/org/example/codenames/gameState/service/impl/DefaultGameStateService.java:263-276 | the call fails exactly when every team member is already a leader |
| GameSessionService.Vote | codenames-backend/src/main/java/org/example/codenames/gameSession/service/impl/DefaultGameSessionService.java:117-143 | a vote changes only the session's vote table |
| GameSessionService.SumUpdate | codenames-backend/src/main/java/org/example/codenames/gameSession/service/impl/DefaultGameSessionService.java:137 | replacing one counter changes the sum by the difference |
| GameSessionService.TotalVotesUpdate | codenames-backend/src/main/java/org/example/codenames/gameSession/service/impl/DefaultGameSessionService.java:137 | replacing one team's counters changes the total by the difference of the team sums |
| GameSessionService.VoteCountsOnce | codenames-backend/src/main/java/org/example/codenames/gameSession/service/impl/DefaultGameSessionService.java:117-143 | a voter on no team changes nothing; otherwise exactly the voted member's counter on the voter's team goes up by one and the total by one |
| GameSessionService.BestIndex | codenames-backend/src/main/java/org/example/codenames/gameSession/service/impl/DefaultGameSessionService.java:177-194 | the first index holding the largest count above -1, or -1 when there is none |
| GameSessionService.LeaderOf | codenames-backend/src/main/java/org/example/codenames/gameSession/service/impl/DefaultGameSessionService.java:177-194 | fewer counters than members is an index error; a team with no count above -1 has no leader; otherwise the first member with the most votes |
| GameSessionService.EmptyTeamHasNoLeader | codenames-backend/src/main/java/org/example/codenames/gameSession/service/impl/DefaultGameSessionService.java:177-194 | an empty team has no leader |
| GameSessionService.FindLeader | codenames-backend/src/main/java/org/example/codenames/gameSession/service/impl/DefaultGameSessionService.java:177-194 | the loop computes LeaderOf |
| GameSessionService.PlayerCountUpdate | codenames-backend/src/main/java/org/example/codenames/gameSession/service/impl/DefaultGameSessionService.java:203 | replacing one team changes the player count by the difference of the team sizes |
| GameSessionService.JoinKeepsTeamsAndVotesAligned | codenames-backend/src/main/java/org/example/codenames/gameSession/service/impl/DefaultGameSessionService.java:229-230 | joining appends the user to the team and a 0 counter to its votes, keeps them aligned and adds one player |
| GameSessionService.AddPlayerRefusals | codenames-backend/src/main/java/org/example/codenames/gameSession/service/impl/DefaultGameSessionService.java:196-236 | a full session, a bad team index or a player already on a team answers false; otherwise a known user is added and the answer is true |
| GameSessionService.Without | codenames-backend/src/main/java/org/example/codenames/gameSession/service/impl/DefaultGameSessionService.java:259 | removeIf drops exactly the members with the id |
| GameSessionService.WithoutShrinks | codenames-backend/src/main/java/org/example/codenames/gameSession/service/impl/DefaultGameSessionService.java:259 | removing a present member shortens the team |
| GameSessionService.RemoveTakesUserOut | codenames-backend/src/main/java/org/example/codenames/gameSession/service/impl/DefaultGameSessionService.java:250-263 | removal reports true exactly when the user was on a team, takes the user off the first such team, leaves other teams alone, and leaves the vote table misaligned |
| GameSessionService.WithoutAbsent | codenames-backend/src/main/java/org/example/codenames/gameSession/service/impl/DefaultGameSessionService.java:259 | removing an absent id leaves the team unchanged |
| GameSessionService.GameSessionService.CreateGameSession | codenames-backend/src/main/java/org/example/codenames/gameSession/service/impl/DefaultGameSessionService.java:32-65 | an empty card catalogue fails and stores nothing; otherwise a CREATED session is stored under the new id and its text returned: empty teams and vote tables, votingStartTime the millisecond clock, 25 cards named from 25 distinct catalogue positions in the language, the corrected 25-card colour deck of GenerateRandomCardsColors (see Findings), zero votes and scores, red to move |
| GameSessionService.GameSessionService.SubmitVote | codenames-backend/src/main/java/org/example/codenames/gameSession/service/impl/DefaultGameSessionService.java:117-143 | an unknown session fails; otherwise the stored session becomes the voted copy, or is unchanged when the vote fails |
| GameSessionService.GameSessionService.AssignTeamLeaders | codenames-backend/src/main/java/org/example/codenames/gameSession/service/impl/DefaultGameSessionService.java:153-175 | each team's most-voted member becomes its leader; any missing list, wrong team count or leaderless team fails without change |
| GameSessionService.GameSessionService.AddPlayerToSession | codenames-backend/src/main/java/org/example/codenames/gameSession/service/impl/DefaultGameSessionService.java:196-236 | the answer is AddPlayer's; only a true answer stores the session with the user joined |
| GameSessionService.GameSessionService.RemovePlayerFromSession | codenames-backend/src/main/java/org/example/codenames/gameSession/service/impl/DefaultGameSessionService.java:243-271 | the answer says whether the user was removed; only then is the session stored with the new teams |
| GameSessionService.Zeros | codenames-backend/src/main/java/org/example/codenames/gameSession/service/impl/DefaultGameSessionService.java:40 | the initial per-card vote list is all zeros of the given length |
| Scheduler.Guests | codenames-backend/src/main/java/org/example/codenames/scheduler/SchedulerService.java:63 | the guest users are exactly the users whose roles mark them as guests |
| Scheduler.KeepIds | codenames-backend/src/main/java/org/example/codenames/scheduler/SchedulerService.java:67-74 | deleting ids never grows the collection |
| Scheduler.KeepIdsMembers | codenames-backend/src/main/java/org/example/codenames/scheduler/SchedulerService.java:67-74 | after deleting by id, a user remains exactly when it was present and its id was not deleted |
| Scheduler.KeepIdsTwice | codenames-backend/src/main/java/org/example/codenames/scheduler/SchedulerService.java:67-74 | deleting two id sets in turn is deleting their union |
| Scheduler.KeepIdsNone | codenames-backend/src/main/java/org/example/codenames/scheduler/SchedulerService.java:67-74 | deleting no id changes nothing |
| Scheduler.InactiveGuestIds | codenames-backend/src/main/java/org/example/codenames/scheduler/SchedulerService.java:67-74 | no id marked for deletion is in the activity map |
| Scheduler.InactiveGuestIdsMeaning | codenames-backend/src/main/java/org/example/codenames/scheduler/SchedulerService.java:67-74 | the ids deleted are exactly the guest ids absent from the activity map |
| Scheduler.SweepGuestsKeeps | codenames-backend/src/main/java/org/example/codenames/scheduler/SchedulerService.java:58-75 | a user survives the sweep exactly when it is not a guest or is active |
| Scheduler.SweepWithoutGuests | codenames-backend/src/main/java/org/example/codenames/scheduler/SchedulerService.java:58-75 | with no guest, the sweep changes nothing |
| Scheduler.NoGuests | codenames-backend/src/main/java/org/example/codenames/scheduler/SchedulerService.java:63-66 | with no guest role, the guest list is empty |
| Scheduler.KeepActive | codenames-backend/src/main/java/org/example/codenames/scheduler/SchedulerService.java:93-94 | pruning a team keeps exactly its active members |
| Scheduler.KeepActiveAppend | codenames-backend/src/main/java/org/example/codenames/scheduler/SchedulerService.java:93-94 | pruning distributes over concatenation (order kept) |
| Scheduler.SweepSessions | codenames-backend/src/main/java/org/example/codenames/scheduler/SchedulerService.java:84-99 | the intended sweep keeps exactly the sessions that still have a player after pruning, and stores them pruned |
| Scheduler.SweepKeepsSessionsWithActivePlayers | codenames-backend/src/main/java/org/example/codenames/scheduler/SchedulerService.java:84-99 | a session survives the intended sweep exactly when some player on either team is active |
| Scheduler.SchedulerService.CleanUserCollection | codenames-backend/src/main/java/org/example/codenames/scheduler/SchedulerService.java:58-75 | the user collection becomes the guest sweep of itself; nothing else changes |
| Scheduler.SchedulerService.CleanGameSessionCollectionAsWritten | codenames-backend/src/main/java/org/example/codenames/scheduler/SchedulerService.java:84-99 | as written the session map is left unchanged; the run fails exactly when some session lacks two teams |
| Scheduler.SchedulerService.CleanGameSessionCollection | codenames-backend/src/main/java/org/example/codenames/scheduler/SchedulerService.java:84-99 | the corrected loop leaves the map equal to SweepSessions |
| Scheduler.SchedulerService.SweepOne | codenames-backend/src/main/java/org/example/codenames/scheduler/SchedulerService.java:92-98 | one loop step extends the handled keys by one: the session is pruned and stored, or deleted when no player is left; users and activity stay as they were |
| Scheduler.PartialDrop | codenames-backend/src/main/java/org/example/codenames/scheduler/SchedulerService.java:92-98 | handling a session left without players removes its key and leaves every other entry as it was |
| Scheduler.PartialKeep | codenames-backend/src/main/java/org/example/codenames/scheduler/SchedulerService.java:92-98 | handling a session that keeps a player stores its pruned form under its key and leaves every other entry as it was |
| Scheduler.AbandonedSessionIsDropped | codenames-backend/src/main/java/org/example/codenames/scheduler/SchedulerService.java:95-97 | a session with no active player is removed by the intended sweep |
| Serializers.Sizes | codenames-backend/src/main/java/org/example/codenames/hazelcast/compactSerializers/gameSessionSerializers/GameSessionCompactSerializer.java:38-44 | one recorded size per team, equal to the team's length |
| Serializers.SizesSumToFlatLength | codenames-backend/src/main/java/org/example/codenames/hazelcast/compactSerializers/gameSessionSerializers/GameSessionCompactSerializer.java:36-45 | the recorded sizes add up to the length of the flattened array |
| Serializers.Flatten | codenames-backend/src/main/java/org/example/codenames/hazelcast/compactSerializers/gameSessionSerializers/GameSessionCompactSerializer.java:36-57 | the write loops produce the concatenation of the groups and their sizes |
| Serializers.Unflatten | codenames-backend/src/main/java/org/example/codenames/hazelcast/compactSerializers/gameSessionSerializers/GameSessionCompactSerializer.java:80-105 | a successful read gives one group per size and consumes no more than the flat array |
| Serializers.Regroup | codenames-backend/src/main/java/org/example/codenames/hazelcast/compactSerializers/gameSessionSerializers/GameSessionCompactSerializer.java:80-105 | the read loops compute Unflatten, including its index error |
| Serializers.UnflattenRunsOut | codenames-backend/src/main/java/org/example/codenames/hazelcast/compactSerializers/gameSessionSerializers/GameSessionCompactSerializer.java:84-90 | a size that reaches past the flat array makes the whole read fail with an index error |
| Serializers.UnflattenExtend | codenames-backend/src/main/java/org/example/codenames/hazelcast/compactSerializers/gameSessionSerializers/GameSessionCompactSerializer.java:84-90 | trailing extra elements do not change a successful read |
| Serializers.UnflattenFlatten | codenames-backend/src/main/java/org/example/codenames/hazelcast/compactSerializers/gameSessionSerializers/GameSessionCompactSerializer.java:36-105 | reading back the written sizes and flat array gives the original groups |
| Serializers.UnflattenConsumesSum | codenames-backend/src/main/java/org/example/codenames/hazelcast/compactSerializers/gameSessionSerializers/GameSessionCompactSerializer.java:84-90 | with non-negative sizes, the read succeeds exactly when they sum to at most the array length, and consumes that sum |
| Serializers.UserStatusOf | codenames-backend/src/main/java/org/example/codenames/hazelcast/compactSerializers/gameSessionSerializers/UserCompactSerializer.java:47 | Enum.valueOf accepts a name exactly when it is some status's name, and inverts the naming |
| Serializers.UserRoundTrip | codenames-backend/src/main/java/org/example/codenames/hazelcast/compactSerializers/gameSessionSerializers/UserCompactSerializer.java:21-52 | reading a written user gives it back |
| Serializers.UnknownStatusFails | codenames-backend/src/main/java/org/example/codenames/hazelcast/compactSerializers/gameSessionSerializers/UserCompactSerializer.java:47 | an unknown status name fails the read |
| Serializers.ReadUsers | codenames-backend/src/main/java/org/example/codenames/hazelcast/compactSerializers/gameSessionSerializers/GameSessionCompactSerializer.java:81 | a successful read gives one user per record |
| Serializers.WriteUsers | codenames-backend/src/main/java/org/example/codenames/hazelcast/compactSerializers/gameSessionSerializers/GameSessionCompactSerializer.java:45 | one record per user |
| Serializers.UsersRoundTrip | codenames-backend/src/main/java/org/example/codenames/hazelcast/compactSerializers/gameSessionSerializers/GameSessionCompactSerializer.java:45-81 | reading written users gives them back |
| Serializers.WriteUsersAppend | codenames-backend/src/main/java/org/example/codenames/hazelcast/compactSerializers/gameSessionSerializers/GameSessionCompactSerializer.java:36-45 | writing distributes over concatenation |
| Serializers.GameStateRoundTrip | codenames-backend/src/main/java/org/example/codenames/hazelcast/compactSerializers/gameSessionSerializers/GameStateCompactSerializer.java:22-68 | reading a written game state gives it back, except that a null chosen-card list comes back empty |
| Serializers.ReadGameState | codenames-backend/src/main/java/org/example/codenames/hazelcast/compactSerializers/gameSessionSerializers/GameStateCompactSerializer.java:47-68 | a failed read is reported; otherwise a fresh game state holding the read fields |
| Serializers.NewGameState | codenames-backend/src/main/java/org/example/codenames/hazelcast/compactSerializers/gameSessionSerializers/GameStateCompactSerializer.java:48-67 | the setters produce a fresh game state holding exactly the given fields |
| Serializers.SetLeadersAndScores | codenames-backend/src/main/java/org/example/codenames/hazelcast/compactSerializers/gameSessionSerializers/GameStateCompactSerializer.java:49-53 | the leader and score setters replace exactly those fields with the read values |
| Serializers.SetBoardAndTurn | codenames-backend/src/main/java/org/example/codenames/hazelcast/compactSerializers/gameSessionSerializers/GameStateCompactSerializer.java:54-65 | the turn, board and hint setters replace exactly those fields with the read values |
| Serializers.SessionStatusOf | codenames-backend/src/main/java/org/example/codenames/hazelcast/compactSerializers/gameSessionSerializers/GameSessionCompactSerializer.java:67-68 | Enum.valueOf on session statuses accepts exactly the status names and inverts the naming |
| Serializers.SessionFieldsRoundTrip | codenames-backend/src/main/java/org/example/codenames/hazelcast/compactSerializers/gameSessionSerializers/GameSessionCompactSerializer.java:26-110 | reading a written session gives back its status, id, teams and votes, with null lists coming back empty |
| Serializers.ReadSession | codenames-backend/src/main/java/org/example/codenames/hazelcast/compactSerializers/gameSessionSerializers/GameSessionCompactSerializer.java:64-110 | a failed field or game-state read is reported; otherwise the session holds the read fields, with hint and guessing times left null |
| Serializers.WrittenSizesConsistent | codenames-backend/src/main/java/org/example/codenames/hazelcast/compactSerializers/gameSessionSerializers/GameSessionCompactSerializer.java:36-57 | in a written session the recorded team and vote sizes add up to their flat arrays |
| Mappers.RoomLobbyDTOCopiesExactly | codenames-backend/src/main/java/org/example/codenames/user/entity/mapper/UserMapper.java:24-31 | two users map to the same lobby DTO exactly when they agree on id, username, picture and status |
| Mappers.ToRoomLobbyDTOList | codenames-backend/src/main/java/org/example/codenames/user/entity/mapper/UserMapper.java:39-45 | one mapped team per team |
| Mappers.MapTeam | codenames-backend/src/main/java/org/example/codenames/user/entity/dto/UserMapper.java:34-40 | one DTO per member |
| Mappers.MapTeamAt | codenames-backend/src/main/java/org/example/codenames/user/entity/dto/UserMapper.java:34-40 | the team's DTOs are its members' DTOs in order |
| Mappers.RoomLobbyDTOListShape | codenames-backend/src/main/java/org/example/codenames/user/entity/mapper/UserMapper.java:39-45 | the nested list has the teams' shape and each entry is its user's DTO |
| Mappers.ProfileResponsesAgree | codenames-backend/src/main/java/org/example/codenames/user/entity/mapper/UserMapper.java:53-99 | the profile and user responses carry the same public fields, and neither depends on password, roles, status or guest flag |
| Mappers.ToGetUsernamesResponse | codenames-backend/src/main/java/org/example/codenames/user/entity/mapper/UserMapper.java:72-81 | one entry per user |
| Mappers.UsernamesResponseInOrder | codenames-backend/src/main/java/org/example/codenames/user/entity/mapper/UserMapper.java:72-81 | each entry is its user's id and username, in order |
| Mappers.ToJoinGameDTO | codenames-backend/src/main/java/org/example/codenames/gameSession/entity/dto/mapper/GameSessionMapper.java:23-33 | fewer than two teams throws; otherwise the session's fields are copied and the red and blue counts are the team sizes (0 with no teams) |
| Mappers.ToJoinGameDTOList | codenames-backend/src/main/java/org/example/codenames/gameSession/entity/dto/mapper/GameSessionMapper.java:63-67 | a successful mapping has one DTO per session |
| Mappers.JoinGameDTOListInOrder | codenames-backend/src/main/java/org/example/codenames/gameSession/entity/dto/mapper/GameSessionMapper.java:63-67 | the list maps exactly when every session maps, and then each entry is its session's DTO |
| Mappers.ToSessionRoomLobbyDTO | codenames-backend/src/main/java/org/example/codenames/gameSession/entity/dto/mapper/GameSessionMapper.java:42-55 | no session gives an empty DTO; a session without teams throws; otherwise status, name, size and mapped teams are copied |
| Mappers.ToJoinGameDTOWithSetters | codenames-backend/src/main/java/org/example/codenames/gameSession/entity/dto/GameSessionMapper.java:11-22 | the setter-based mapper produces the same fields as the builder-based one, and the same error |
| Mappers.ToSessionRoomLobbyDTOWithSetters | codenames-backend/src/main/java/org/example/codenames/gameSession/entity/dto/GameSessionMapper.java:24-39 | the setter-based lobby mapper produces the same DTO as the builder-based one, and the same error |
| Users.FirstIndex | codenames-backend/src/main/java/org/example/codenames/user/service/impl/DefaultUserService.java:140-145 | the position of the first matching user, or the collection size |
| Users.FindFirst | codenames-backend/src/main/java/org/example/codenames/user/service/impl/DefaultUserService.java:140-145 | a lookup finds something exactly when some user matches, and what it finds matches |
| Users.Save | codenames-backend/src/main/java/org/example/codenames/user/service/impl/DefaultUserService.java:144 | save stores the user, replacing at most one and keeping every user with another id |
| Users.SavedIsFound | codenames-backend/src/main/java/org/example/codenames/user/service/impl/DefaultUserService.java:140-145 | a saved user is found again by its id |
| Users.SaveReplacesFound | codenames-backend/src/main/java/org/example/codenames/user/service/impl/DefaultUserService.java:157-176 | saving a changed copy of the found user that still matches replaces it in place, and the same lookup finds the copy |
| Tokens.FirstAddress | codenames-backend/src/main/java/org/example/codenames/tokens/passwordResetToken/service/impl/DefaultPasswordResetServiceToken.java:121 | a non-empty all-comma header throws (split gives no element); otherwise the trimmed text before the first comma |
| Tokens.ClientIpChoice | codenames-backend/src/main/java/org/example/codenames/tokens/passwordResetToken/service/impl/DefaultPasswordResetServiceToken.java:109-126 | with no usable header the remote address is used; otherwise the first usable header in the fixed order decides |
| Tokens.UnknownInAnyCaseIsSkipped | codenames-backend/src/main/java/org/example/codenames/tokens/passwordResetToken/service/impl/DefaultPasswordResetServiceToken.java:120 | a header equal to "unknown" under Java's equalsIgnoreCase, including the Kelvin sign for 'k', is skipped; a header differing in one letter is taken |
| Tokens.GetClientIp | codenames-backend/src/main/java/org/example/codenames/tokens/passwordResetToken/service/impl/DefaultPasswordResetServiceToken.java:109-126 | the header loop computes ClientIp |
| Tokens.NewResetTokenLifetime | codenames-backend/src/main/java/org/example/codenames/tokens/passwordResetToken/service/impl/DefaultPasswordResetServiceToken.java:43-58 | a new reset token is valid up to and including 15 minutes after its creation, and not after |
| Tokens.ResetTokenSingleUse | codenames-backend/src/main/java/org/example/codenames/tokens/passwordResetToken/service/impl/DefaultPasswordResetServiceToken.java:89-101 | a redeemed token is never valid again |
| Tokens.RedeemKeepsOthers | codenames-backend/src/main/java/org/example/codenames/tokens/passwordResetToken/service/impl/DefaultPasswordResetServiceToken.java:89-101 | redeeming one token does not change whether another is valid |
| Tokens.PasswordResetServiceToken.CreateResetToken | codenames-backend/src/main/java/org/example/codenames/tokens/passwordResetToken/service/impl/DefaultPasswordResetServiceToken.java:43-58 | the new token is stored with its address, 15-minute expiry and requesting IP; a failing IP lookup stores nothing |
| Tokens.PasswordResetServiceToken.IsValidToken | codenames-backend/src/main/java/org/example/codenames/tokens/passwordResetToken/service/impl/DefaultPasswordResetServiceToken.java:68-86 | valid exactly when the token is known, unused and not yet expired |
| Tokens.PasswordResetServiceToken.TokenUsed | codenames-backend/src/main/java/org/example/codenames/tokens/passwordResetToken/service/impl/DefaultPasswordResetServiceToken.java:89-101 | an unknown token is ignored; a known one is marked used with the client IP; a failing IP lookup changes nothing |
| Tokens.PasswordResetService.CreateResetToken | codenames-backend/src/main/java/org/example/codenames/passwordResetToken/service/impl/DefaultPasswordResetService.java:43-57 | the new token is stored with its address, 15-minute expiry and requesting IP; a failing IP lookup stores nothing |
| Tokens.PasswordResetService.IsValidToken | codenames-backend/src/main/java/org/example/codenames/passwordResetToken/service/impl/DefaultPasswordResetService.java:68-91 | an invalid token answers false without change; a valid one is redeemed with the client IP and answers true |
| Tokens.ActivationTokenSingleUse | codenames-backend/src/main/java/org/example/codenames/tokens/accountActivationToken/service/impl/DefaultAccountActivationTokenService.java:55-77 | a used activation token is never valid again |
| Tokens.AccountActivationTokenService.CreateAccountActivationToken | codenames-backend/src/main/java/org/example/codenames/tokens/accountActivationToken/service/impl/DefaultAccountActivationTokenService.java:30-45 | the generated token is stored unused; it is valid up to 15 minutes after creation and not one second later |
| Tokens.AccountActivationTokenService.IsValidToken | codenames-backend/src/main/java/org/example/codenames/tokens/accountActivationToken/service/impl/DefaultAccountActivationTokenService.java:55-77 | valid exactly when it was known, unused and unexpired; a valid token is marked used and nothing else changes |
| UserService.CreatedAccountIsRefusedAgain | codenames-backend/src/main/java/org/example/codenames/user/service/impl/DefaultUserService.java:71-96 | creating the same registered account a second time is refused because its e-mail exists |
| UserService.PreparedAccount | codenames-backend/src/main/java/org/example/codenames/user/service/impl/DefaultUserService.java:72-91 | a stored account is INACTIVE; only registered accounts get an encoded password and the default role when they have none |
| UserService.ResetReachesAccount | codenames-backend/src/main/java/org/example/codenames/user/service/impl/DefaultUserService.java:157-176 | after a reset, the account with that e-mail has the new encoded password and nothing else changed |
| UserService.ActivationTakesEffect | codenames-backend/src/main/java/org/example/codenames/user/service/impl/DefaultUserService.java:194-216 | after activateUser the account is found and is ACTIVE |
| UserService.Candidate | codenames-backend/src/main/java/org/example/codenames/user/service/impl/DefaultUserService.java:231-233 | a generated name contains no space |
| UserService.DefaultUserService.CreateUser | codenames-backend/src/main/java/org/example/codenames/user/service/impl/DefaultUserService.java:71-96 | the refusal checks run in order (e-mail, e-mail taken, username taken; guests skip them); the caller's user is INACTIVE on every path; only admitted users are saved, prepared |
| UserService.DefaultUserService.UpdateUser | codenames-backend/src/main/java/org/example/codenames/user/service/impl/DefaultUserService.java:139-146 | an unknown id throws without change; otherwise the stored user gets the new username and encoded password and is found again by id |
| UserService.DefaultUserService.ResetPassword | codenames-backend/src/main/java/org/example/codenames/user/service/impl/DefaultUserService.java:157-176 | an invalid token answers false without change; a valid one is redeemed and the holder of its e-mail gets the encoded password |
| UserService.DefaultUserService.ActivateUser | codenames-backend/src/main/java/org/example/codenames/user/service/impl/DefaultUserService.java:194-201 | the first user with the username becomes ACTIVE; an unknown username changes nothing |
| UserService.DefaultUserService.IsAccountActivated | codenames-backend/src/main/java/org/example/codenames/user/service/impl/DefaultUserService.java:211-216 | an unknown username throws; otherwise true exactly when the status is ACTIVE |
| UserService.DefaultUserService.GenerateUniqueUsername | codenames-backend/src/main/java/org/example/codenames/user/service/impl/DefaultUserService.java:224-238 | the result is the first drawn candidate not taken, and has no space |
| FriendRequests.Dedupe | codenames-frontend/src/components/UserProfileOverlay/useFriendRequestsSocketIO.tsx:73 | `[...new Set(..)]` has no duplicates and the same members |
| FriendRequests.DedupeOfDistinct | codenames-frontend/src/components/UserProfileOverlay/useFriendRequestsSocketIO.tsx:73 | deduplicating a duplicate-free list keeps it as is |
| FriendRequests.AddOnce | codenames-frontend/src/components/UserProfileOverlay/useFriendRequestsSocketIO.tsx:73-81 | adding through a Set leaves the name exactly once and no duplicates |
| FriendRequests.AddOnceKeepsOrder | codenames-frontend/src/components/UserProfileOverlay/useFriendRequestsSocketIO.tsx:73-81 | on a duplicate-free list, adding appends a new name and leaves a present one in place |
| FriendRequests.Without | codenames-frontend/src/components/UserProfileOverlay/useFriendRequestsSocketIO.tsx:80-95 | filter removes every copy of the name and keeps all other names as they were |
| FriendRequests.WithoutAbsent | codenames-frontend/src/components/UserProfileOverlay/useFriendRequestsSocketIO.tsx:80-95 | filtering out an absent name changes nothing |
| FriendRequests.IncomingEvents | codenames-frontend/src/components/UserProfileOverlay/useFriendRequestsSocketIO.tsx:70-97 | each socket event changes only its lists: received adds the sender once; accepted moves the user from sent to friends; declined drops from sent; removed drops from friends |
| FriendRequests.FriendRequestsHook.Join | codenames-frontend/src/components/UserProfileOverlay/useFriendRequestsSocketIO.tsx:51-58 | join emits joinProfile and then every queued emit in order, leaving the queue empty |
| FriendRequests.FriendRequestsHook.MountEffect | codenames-frontend/src/components/UserProfileOverlay/useFriendRequestsSocketIO.tsx:48-110 | with no username nothing happens; when connected it joins and the event handlers are registered; otherwise it only waits for the connect event |
| FriendRequests.FriendRequestsHook.SocketConnected | codenames-frontend/src/components/UserProfileOverlay/useFriendRequestsSocketIO.tsx:63-64 | connecting joins (and flushes the queue) only when the effect was waiting for it |
| FriendRequests.FriendRequestsHook.Receive | codenames-frontend/src/components/UserProfileOverlay/useFriendRequestsSocketIO.tsx:99-102 | an incoming event updates the lists only when the handlers are registered |
| FriendRequests.FriendRequestsHook.EmitOrQueue | codenames-frontend/src/components/UserProfileOverlay/useFriendRequestsSocketIO.tsx:149-153 | a connected socket emits at once; otherwise the emit is queued at the end |
| FriendRequests.FriendRequestsHook.SendRequest | codenames-frontend/src/components/UserProfileOverlay/useFriendRequestsSocketIO.tsx:138-159 | after a successful call the receiver is in the sent requests once and the event is emitted or queued; a failed call changes nothing |
| FriendRequests.FriendRequestsHook.AcceptRequest | codenames-frontend/src/components/UserProfileOverlay/useFriendRequestsSocketIO.tsx:166-188 | the sender moves from received requests to friends, and the event is emitted or queued; a failed call changes nothing |
| FriendRequests.FriendRequestsHook.DeclineRequest | codenames-frontend/src/components/UserProfileOverlay/useFriendRequestsSocketIO.tsx:195-216 | the sender leaves the received requests, and the event is emitted or queued; a failed call changes nothing |
| FriendRequests.FriendRequestsHook.RemoveFriendship | codenames-frontend/src/components/UserProfileOverlay/useFriendRequestsSocketIO.tsx:223-244 | the friend leaves the friends list, and the event is emitted or queued; a failed call changes nothing |
| FriendRequests.FriendRequestsHook.UndoRequest | codenames-frontend/src/components/UserProfileOverlay/useFriendRequestsSocketIO.tsx:252-274 | the receiver leaves the sent requests, and a decline from this user is emitted or queued; a failed call changes nothing |
| Toasts.WithoutMessage | codenames-frontend/src/components/Toast/ToastContext.tsx:27-31 | filtering leaves no toast with the message and keeps every toast with another message, as often as it occurred |
| Toasts.WithoutId | codenames-frontend/src/components/Toast/ToastContext.tsx:33-35 | filtering leaves no toast with the id and keeps every other toast |
| Toasts.CountAppend | codenames-frontend/src/components/Toast/ToastContext.tsx:27-31 | message counts add over concatenation |
| Toasts.WithoutMessageAppend | codenames-frontend/src/components/Toast/ToastContext.tsx:27-31 | filtering by message distributes over concatenation |
| Toasts.WithoutMessageTwice | codenames-frontend/src/components/Toast/ToastContext.tsx:27-31 | filtering by message twice is filtering once |
| Toasts.AddedShowsMessageOnce | codenames-frontend/src/components/Toast/ToastContext.tsx:27-31 | after adding, the new toast is last and is the only one with its message |
| Toasts.AddedKeepsOnePerMessage | codenames-frontend/src/components/Toast/ToastContext.tsx:27-31 | adding keeps at most one toast per message |
| Toasts.WithoutMessageKeepsOnePerMessage | codenames-frontend/src/components/Toast/ToastContext.tsx:27-31 | filtering a one-per-message list keeps it one-per-message |
| Toasts.RemoveUnknownIdKeepsList | codenames-frontend/src/components/Toast/ToastContext.tsx:33-35 | removing an unknown id changes nothing |
| Toasts.ToastProvider.AddToast | codenames-frontend/src/components/Toast/ToastContext.tsx:27-31 | the list drops toasts with the same message and appends the new toast, keeping one toast per message |
| Toasts.ToastProvider.RemoveToast | codenames-frontend/src/components/Toast/ToastContext.tsx:33-35 | the list drops the toasts with the id |
| LanguageSlider.CyclicIndex | codenames-frontend/src/components/LanguageSlider/LanguageSlider.tsx:24-32 | next and previous stay in range and undo each other |
| LanguageSlider.ForwardWraps | codenames-frontend/src/components/LanguageSlider/LanguageSlider.tsx:29-32 | k steps forward add k and wrap once past the end |
| LanguageSlider.FullCycle | codenames-frontend/src/components/LanguageSlider/LanguageSlider.tsx:29-32 | stepping forward once per language returns to the start |
| LanguageSlider.LanguageSliderState.constructor | codenames-frontend/src/components/LanguageSlider/LanguageSlider.tsx:16 | the slider starts on the first language |
| LanguageSlider.LanguageSliderState.HandlePreviousLanguage | codenames-frontend/src/components/LanguageSlider/LanguageSlider.tsx:24-27 | the index moves back one, wrapping to the last language, and stays valid |
| LanguageSlider.LanguageSliderState.HandleNextLanguage | codenames-frontend/src/components/LanguageSlider/LanguageSlider.tsx:29-32 | the index moves forward one, wrapping to the first language, and stays valid |
| TutorialModal.PagesFor | codenames-frontend/src/components/TutorialModal/TutorialModal.tsx:55-61 | four pages, the Polish ones exactly for "pl" |
| TutorialModal.Paging | codenames-frontend/src/components/TutorialModal/TutorialModal.tsx:65-70 | next and previous stay in range, stop at the last and first page, and undo each other elsewhere |
| TutorialModal.TutorialPager.constructor | codenames-frontend/src/components/TutorialModal/TutorialModal.tsx:43-46 | the pager starts on the first English page |
| TutorialModal.TutorialPager.LanguageChanged | codenames-frontend/src/components/TutorialModal/TutorialModal.tsx:55-61 | a language change swaps the page set and keeps the current page |
| TutorialModal.TutorialPager.HandleNext | codenames-frontend/src/components/TutorialModal/TutorialModal.tsx:65-67 | the page advances unless the next button is disabled, in which case nothing changes |
| TutorialModal.TutorialPager.HandlePrev | codenames-frontend/src/components/TutorialModal/TutorialModal.tsx:68-70 | the page goes back unless the previous button is disabled, in which case nothing changes |

## Left out

- Network, database, Hazelcast and socket I/O are not modelled. Repositories are fields, the Hazelcast map is a `map`, and socket emits are a recorded list.
- Randomness is not modelled. Faker, `Random`, UUID generation and `Collections.shuffle` are replaced by draw sequences and by identifiers that the caller supplies.
- The password encoder, JWT parsing and token generation are not modelled. They are function parameters.
- Clocks are not modelled: `now` is an integer number of seconds. The source reads the clock twice for `createdAt` and `expiresAt`; the model uses one instant.
- Tokens.GetClientIp: header names are matched exactly, although servlet header lookup ignores case, because the request is a plain map of names to values.
- GameStateService.GenerateRandomCardsColors: stores a shuffle of the corrected 25-colour deck, not the 26 colours the source builds at DefaultGameStateService.java:101-121. BuildCardsColorsAsWritten models the source's list and the Findings table records the difference.
- GameSessionService.GameSessionService.CreateGameSession: the game state it stores holds the corrected 25-colour deck of GenerateRandomCardsColors, not the source's 26 colours (see Findings).
- Users.Save: the id that Mongo generates on first save is not modelled. The user's id is supplied.
- User equality: the Java `User` class declares no `equals`, so it compares by identity; the model compares users as values. This matters only for `List.remove` in getNewLeader, which the third Findings row covers.
- GameStateService.GetNewLeader: models the intended removal of both leaders, under value equality. As written, chooseRandomCurrentLeader reloads the session (DefaultGameStateService.java:244-249), so the leader objects are never the team's objects, and the removes at lines 270-271 take nothing out. The source can then pick a current leader, and it fails only on an empty team; GameStateService.GetNewLeaderAsWritten models that.
- GameStateService.NewLeaderIsNotALeader: holds for the intended removal under value equality. As written, the source can pick a current leader (GameStateService.AsWrittenPicksALeader).
- GameStateService.NewLeaderFailsOnlyWhenAllLead: holds for the intended removal under value equality. As written, the source fails only on an empty team (GameStateService.GetNewLeaderAsWritten).
- GameStateService.GenerateRandomCardsNames: HashSet iteration order is not modelled; the names follow draw order. An empty catalogue makes nextInt(0) throw, which is modelled as the EmptyCardCatalogue error. With 1 to 24 cards the source loops for ever; the requires asks a non-empty catalogue's draws to reach 25 distinct positions, which excludes that case. GameSessionService.GameSessionService.CreateGameSession inherits the same requires.
- Serializers.ReadSessionFields: any sessionId text is read as that UUID. `UUID.fromString` throws on malformed text and normalises lenient forms such as "1-1-1-1-1"; written ids are canonical, so the round trip is unaffected.
- UserService.DefaultUserService.GenerateUniqueUsername: the requires asks that some draw gives a free name. The source's do-while loop runs until it finds one and has no bound.
- GameStateService.ToogleTurn, GameStateService.CardsChosen: `toogleTurn` ends by calling `DefaultGameSessionWebSocketController.clearVotes` (DefaultGameStateService.java:219). The controller file in this repository has no such method, so what it does to the votes is unknown and is not modelled; both members promise nothing about clearing votes.
- Game states are shared references inside session values. A change that the source loses by throwing before it saves a copy stays in the model's state, for example the chosen card recorded before an out-of-range index error in GameStateService.CardsChosen.
- The GameSession serializer does not write `timeForAHint` or `timeForGuessing`. Serializers.ReadSession therefore returns them as null. This is source behaviour, not a model gap.
- GameSessionService.RemoveTakesUserOut: `removePlayerFromSession` removes the user from a team without removing the matching vote counter. The lemma states the resulting misalignment as the source behaves.
- FriendRequests.FriendRequestsHook: the effect that copies the `initial` lists (lines 38-46) is not modelled. It depends on React's dependency tracking of list lengths.
- FriendRequests.FriendRequestsHook.MountEffect: when the socket connects later, the handlers are never registered. This is source behaviour: the early return at lines 62-68 skips lines 99-102.
- Controllers, security filters, e-mail sending, Discord guild calls, WebSocket controllers and the remaining React views are outside this core.
- Floating point is not modelled. JavaScript numbers in the duration formatter are treated as integers, and an integer `number` argument is formatted directly.
- MediasoupConsts: only the constants and their size arithmetic are modelled. Nothing in the worker that uses them is.

## Findings

| source | as written | input that shows it | evidently intended | confidence | as-written member | corrected member |
|---|---|---|---|---|---|---|
| codenames-backend/src/main/java/org/example/codenames/gameState/service/impl/DefaultGameStateService.java:101-121 | the colour list gets 9 red, 8 blue, 1 assassin and 8 neutral entries, 26 in all, for a 25-card board | any call: the count is fixed | 25 colours, one per card, with 7 neutral, as the method's documentation states | not executed | GameStateService.BuildCardsColorsAsWritten | GameStateService.BuildCardsColors |
| codenames-backend/src/main/java/org/example/codenames/scheduler/SchedulerService.java:84-99 | the teams are pruned on copies that `values()` returns and never put back, and `delete` receives a UUID on a map keyed by strings, so the session map never changes | a stored session whose players are all absent from the activity map | abandoned sessions are removed and the others are stored pruned | not executed | Scheduler.SchedulerService.CleanGameSessionCollectionAsWritten | Scheduler.SchedulerService.CleanGameSessionCollection |
| codenames-backend/src/main/java/org/example/codenames/gameState/service/impl/DefaultGameStateService.java:263-276 | `User` declares no `equals`, and the session was just reloaded from the repository, so `availablePlayers.remove(leader)` compares references and removes nothing | red's team [a, b] with a as red leader and a draw of 0 | the current leaders are left out of the draw, and the call fails only when every member leads | not executed | GameStateService.GetNewLeaderAsWritten | GameStateService.GetNewLeader |
