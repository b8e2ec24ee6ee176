# Verification of the battle arena backend

Dafny models of the stateful protocols of the rock-paper-scissors arena backend, with proofs of what these protocols
keep over whole runs. `dafny verify dfyconfig.toml` checks everything.

Each protocol appears twice. A *value machine* gives its steps as functions, and the lemmas about all runs are proved
there. *Classes* with the fields of the source objects then take these steps in place: every method is proved to change
the abstract value of its objects exactly as the machine says. A step is one synchronous segment between two `await`s,
or one whole request where that is said.

| part | files |
|---|---|
| shared definitions | `Wrappers`, `Lists`, `Players` |
| rules, rooms and the match state machine | `RpsEngine`, `Match`, `LiveRooms`, `RoomLiveness`, `GameService` |
| squads as King of the Hill | `KingOfTheHill`, `HillFairness`, `SquadWorld`, `SquadFairness`, `SquadGateway` |
| sockets of squad players | `Disconnects`, `SocketRegistry`, `StrandedEntries` |
| squads and rooms as one machine | `Arena`, `Stalling`, `Exhaustion`, `Forfeits` |
| stats, streaks, badges and ranks | `Criteria`, `Ledger`, `LedgerHistory`, `ArenaLedger`, `Leaderboard`, `LeaderboardPages` |
| tokens, blacklist and the `isActive` cache | `RedisService`, `Sessions`, `SessionRules`, `SessionLaws`, `TokenText`, `AuthGuard`, `ActiveCacheRaces` |
| squad members and invites | `SquadMembership`, `SquadService` |
| matchmaking queue and presence | `Matchmaking`, `MatchmakingGateway` |
| wallet and sign-in challenges | `Challenge`, `WalletService` |

## Main results

- **Matches.** A room whose players are not disturbed by another live room is a function of the two sequences of accepted
  moves, whatever the interleaving and whatever rejected submissions it contains, and equals the synchronous
  round-by-round game (`LiveRooms.UndisturbedRoomIsPlayed` on top of `Match.AsyncRefinesSync`). In the whole service, also
  with rooms that share their players, every room's score is right, every completed one has a winner who was first to two
  decisive rounds, and finalization starts exactly once for each (`LiveRooms.RunKeepsSane`). When a room can get stuck is
  decided exactly (`RoomLiveness.LiveIff`).
- **King of the Hill.** A queued player at position i plays after at most i + 1 match ends of his squad, whatever happens
  in it and in all other squads, and the bound is tight. The hill holds exactly those who joined and did not withdraw,
  nobody twice. A squad's current room and its match always agree, and no room rotates a hill twice.
- **Squads in their rooms.** With squads, rooms and finalization as one machine: the winner of a completed squad room is
  always its champion or challenger, so a squad's match is never drawn (`Arena.WinnerStays`). The next room is blocked from
  the start exactly if its challenger has finished a match before, for squads of any size
  (`Stalling.NextRoomIsBlockedIff`), so a squad in which nobody forfeits ends fewer matches than it has had joins
  (`Exhaustion.FewerMatchesThanJoins`, met by `Exhaustion.SquadOfTwoStalls`).
- **Sockets.** Which squad entries a closed socket leaves behind, which requests make an entry unreachable, and when an entry
  is removed are decided exactly, over all squads and runs (`Disconnects.SquadStillHoldsIff`,
  `SocketRegistry.RegisteredIff`, `Disconnects.HeldUntilRemoved`).
- **Ledger.** The incrementally updated columns are the declarative statistics of the user's match history: streaks are
  the trailing and the longest run of wins, badges the thresholds reached, points 10 a win and 20 a badge, and every
  match played was won or lost. The sorted board and the rank by counting agree on every table that play can produce.
  When the pages of the board list everybody once is decided exactly.
- **Sessions.** Over every run of whole requests the guard, with its cache and blacklist, grants exactly what a rule book
  without either admits (`SessionLaws.GuardAdmitsIff`): an access token in its life exactly if nobody has logged out with
  it and its owner's account is active (`SessionLaws.AccessGrantedIff`), and a refresh exactly for an unexpired, unrevoked
  token that the comparison cannot tell from the one stored last, while the account is active. A refresh token that was
  rotated or logged out is never accepted again. With interleaved requests a cache hit is less than 30 seconds plus its own
  filler's read-to-write delay old, and that bound is met.
- **Squads, matchmaking, challenges.** One owner row a squad and at most one acceptance a user and squad; nobody overtakes
  in the matchmaking queue, and whoever cancels or closes is not matched until he announces himself again; the stored challenge records are parsed back exactly.

## Where the code does less than its text suggests

Each of these is proved as an exact condition or a concrete case.

- A squad gives its stored player objects to every room it opens, and a pending move is a field of these objects. A room
  in progress is sure to go on, whatever is submitted anywhere and whatever rooms are opened over other players, if and
  only if one of its two moves is missing and no other room in progress seats one of its players
  (`RoomLiveness.LiveIff`). Both conditions fail in squads:
  - `resolveRound` leaves the deciding moves on the objects, so whoever has finished a match carries a move into his next
    room. The winner always does, so the next room is blocked if and only if the new challenger does too
    (`Stalling.NextRoomIsBlockedIff`). A squad of two is blocked after its first match (`Forfeits.SquadOfTwoIsBlocked`), and
    without forfeits any squad after fewer matches than joins (`Exhaustion.FewerMatchesThanJoins`), for good
    (`Stalling.StalledForever`). In general a blocked room stays blocked while its players are in no other room in progress
    (`RoomLiveness.BlockedForever`); a submission can free it exactly through another room that seats one of them and still
    waits for a move (`RoomLiveness.FreedIff`).
  - A forfeit ends a room for the squad but not for the game service, and its winner sits in the next room with the same
    object, so play in the room left behind can block the new one (`Forfeits.ForfeitBreaksLiveness`, with the concrete run
    `Forfeits.StrandedByForfeit`).
- The draw branch of `handleMatchEnd` is dead: every completed room of a squad has a winner, and he is its champion or its
  challenger (`Arena.WinnerStays`).
- A match without a verified wallet returns from `finalizeMatch` before the squad is told, so its hill keeps waiting for a
  match that is over (`SquadWorld.HillMovesOnIffVerified`).
- A disconnect cleans up one squad at most, the one the socket was last registered to. There somebody on the closed socket
  is left exactly if it was in a slot or had one more queue entry; in every other squad, exactly if somebody was on it
  before (`Disconnects.SquadStillHoldsIff`). A join to a second squad from the same socket, or a leave of any known squad,
  takes the registration away (`StrandedEntries.SecondSquadKeepsFirst`, `StrandedEntries.ForeignLeaveKeepsEntry`);
  `SocketRegistry.RegisteredIff` lists exactly the requests after which some held player's socket no longer leads to his
  squad. In particular a champion who sends `leave_queue` first closes his socket without a forfeit
  (`SocketRegistry.LeavingAvoidsForfeit`).
- The player who forfeits ends behind everybody else, last in the queue or, if nobody waits, in the challenger's seat at
  once (`Disconnects.ForfeiterGoesLast`). His socket is forgotten, so he stays in the squad until he leaves himself or
  `game:reconnect` gives his entry another socket (`StrandedEntries.ForfeiterStays`). After a reconnect the close of the new
  socket can remove him although he never left (`StrandedEntries.ReconnectLetsRemove`, with the concrete run
  `StrandedEntries.ForfeiterComesBack`). Over every run a held entry stays exactly until a request removes it
  (`Disconnects.HeldUntilRemoved`).
- `softDelete` means to block the user at once, but the guard looks at the active flag only
  (`Sessions.GuardFollowsFlag`, `Sessions.DeletedButAdmitted`).
- The comparison with the stored hash is meant to accept the refresh token stored last only. It does so exactly for tokens
  that differ from it in their first 72 characters (`SessionLaws.SupersededIsRefusedIff`), because bcrypt, as its
  documentation says, reads 72 bytes. Signed tokens of one user agree on these (`TokenText.OneUserOneDigest`), so for issued
  tokens only expiry, blacklist, the active flag and a logout decide (`TokenText.IssuedIsRefreshedIff`, with the concrete
  run `TokenText.OlderTokenIsRefreshed`).
- A refresh token without `exp` would be blacklisted for seven days only (`Sessions.UnusableForeverIffExpires`). The guard
  provides for this case, but `token.service.ts` signs every refresh token with a life time, so it does not arise. In the
  second `exp` itself the guard still takes an access token for unexpired, after part of the blacklist entry's last second is
  over (`Sessions.LoggedOutAccessTokenRefusedIff`).
- Against the comment on `assertActive`, a hit can be older than 30 seconds by the time its filler took from reading to
  writing, for every such time; and a filler that writes after an invalidation brings the old flag back
  (`ActiveCacheRaces.HitCanBeOld`, `ActiveCacheRaces.StaleAfterInvalidation`; exactly when it does,
  `ActiveCacheRaces.InvalidationHoldsIff`).
- The pending check of `inviteToSquad` suggests that an answered invite can be repeated; the unique key refuses it for
  good (`SquadMembership.InviteIffNeverInvited`, `SquadMembership.AnsweredIsFinal`).
- The board asks for a played match and the rank by counting does not. They agree if and only if no verified player
  without a match has more points, which holds of every table that play leaves (`Leaderboard.RanksAgreeIff`).
- Each page of the board is a query of its own, ordered by points and wins only. The pages of different answers always
  carry the ranks 1 to n, but list every row once only if no tie group is cut by a page boundary; for all page sizes, only
  if no two rows tie (`LeaderboardPages.PagesListAllIff`, `LeaderboardPages.EveryPagingListsAllIff`).
- The five-win branch of `resolveMatch`, and with it every drawn match, is unreachable (`RpsEngine.ResolveMatch`,
  `ArenaLedger.MatchesAreDecisive`).
- The close of a matchmaking socket forgets the user of its last announcement only: it stays named somewhere exactly if
  that was the empty user id, or if another user is still on it (`Matchmaking.ClosedSocketIsForgottenIff`; with one user a
  socket only the empty id remains, `Matchmaking.AgreedSocketIsForgottenIff`).

## Modelling notes

- Room, squad and invite ids are uuids in the source; here they are numbers that are never handed out twice. User ids are
  ids of database rows and therefore not empty. A room is made for two different users.
- `KingOfTheHill` lets the room id of a started match arrive at any later step, so its results hold however room creation
  interleaves. `SquadWorld` makes room creation part of the step that starts the match.
- `SquadWorld` allows a reconnect to any room; `SquadGateway.GameGateway.HandleReconnect` takes it for a room in progress.
- In `Arena`, the end of a finalization (`Finish`) may come any time after the room was completed, and more than once.
- A run is *calm* (`Stalling.Calm`) if each join brings a new queue entry, as in the gateway, rooms of matchmaking and invites
  seat no squad entry, and no close is a forfeit.
- Answers from elsewhere are parameters: squad membership, the wallet flag, existence of a user, friendship,
  signature recovery. The bcrypt comparison succeeds exactly if the first 72 characters agree: hashes of different texts
  are taken to differ. There is one clock, in milliseconds; `exp` is in whole seconds (section 4.1.4 of
  RFC 7519) and `jti` identifies a token (section 4.1.7).
- A verified player is assumed to have a user row: the flag was read from it, and rows are only soft-deleted.
- Badge ids are uuids in the source; the seeded table uses the badge names in their place.

## Model

| member | source | states |
|---|---|---|
| RpsEngine.ResolveRound | src/modules/game/engine/rps.engine.ts:13-23 | rock beats scissors, scissors beat paper, paper beats rock, and equal moves nobody: testing only whether move 1 beats move 2 gives the round to the right player |
| RpsEngine.ResolveMatch | src/modules/game/engine/rps.engine.ts:26-34 | a match is complete exactly when a player has two wins, and then always has a winner, so the five-win branch is unreachable |
| Match.AcceptedTexts | src/modules/game/service/game.service.ts:112-125 | exactly "rock", "paper" and "scissors" are accepted as moves |
| Match.RefusalsAre | src/modules/game/service/game.service.ts:112-130 | every other submission is refused for the first reason that applies: room not in progress, no valid text, not a player, already moved |
| Match.TextsDecideTheRound | src/modules/game/service/game.service.ts:110-155 | the second submission of a round, against a pending move that was submitted in this room or another: one win more for the sender of the text that wins by the rules of the game, none for the other, and the round is recorded for him |
| Match.AcceptIsAppend | src/modules/game/service/game.service.ts:110-177 | one accepted submission is one more move of that player in the synchronous game |
| Match.AsyncRefinesSync | src/modules/game/service/game.service.ts:110-177 | of one room that is alone with its players: after any sequence of submissions, accepted or rejected, it is the synchronous round-by-round game on the two sequences of accepted moves |
| Match.OpenedIsPlayed | src/modules/game/service/game.service.ts:94-99 | a room opened with at most one left-over move plays as if that move had been submitted first |
| Match.InterleavingIsIrrelevant | src/modules/game/service/game.service.ts:110-177 | of one room that is alone with its players: two runs with the same accepted moves per player end in the same rounds, wins, status and winner |
| Match.SwappingMovesSwapsOutcome | src/modules/game/service/game.service.ts:136-177 | the rules favour neither seat: exchanging the two move sequences mirrors the whole room |
| Match.EveryRoomIsWellPlayed | src/modules/game/service/game.service.ts:136-177 | of one room that is alone with its players: counters equal the counts over the rounds, rounds are numbered 1 to n, at most three are decisive, a completed room was won by the first player with two, and a room in progress waits for a move |
| Match.FinalizesExactlyOnce | src/modules/game/service/game.service.ts:112-171 | of one room that is alone with its players: a run starts finalization exactly once if it completes the room, else never, and a completed room no longer changes |
| Match.CanMoveIff | src/modules/game/service/game.service.ts:112-125 | some submission is accepted if and only if the room is in progress and one of the two moves is missing |
| Match.LiveIffNotBothLeftOver | src/modules/game/service/game.service.ts:94-125 | a room that is alone with its players never gets stuck, if and only if it was not opened with two left-over moves |
| Match.NextKeepsScore | src/modules/game/service/game.service.ts:110-177 | a submission keeps counters, round numbers and winner right, wherever the pending moves come from |
| LiveRooms.PlayIsNext | src/modules/game/service/game.service.ts:110-132 | a submission writes only its room and the moves of its two players, and nothing if it is rejected |
| LiveRooms.RunKeepsSane | src/modules/game/service/game.service.ts:94-177 | over every run of the whole service, also with shared players: every room is well scored, and finalization was started exactly once for each completed room and for no other |
| LiveRooms.ReachableRooms | src/modules/game/service/game.service.ts:94-177 | in particular in every service reachable from no rooms |
| LiveRooms.UndisturbedIsOwnRun | src/modules/game/service/game.service.ts:110-177 | a room in whose players no other room accepts a submission is a run of the match machine on its own submissions |
| LiveRooms.ExclusiveIsUndisturbed | src/modules/game/service/game.service.ts:94-132 | that holds as long as no other room in progress seats one of its players and none is opened over them |
| LiveRooms.UndisturbedRoomIsPlayed | src/modules/game/service/game.service.ts:94-177 | asynchronous play refines synchronous rounds in the whole service, for a room opened with at most one left-over move and not disturbed since |
| RoomLiveness.BlockedIff | src/modules/game/service/game.service.ts:112-125 | a room accepts nothing exactly if it is in progress with both moves set |
| RoomLiveness.LiveIff | src/modules/game/service/game.service.ts:94-177 | a room in progress always has a move that is accepted, over every run without new rooms over its players, if and only if one of its moves is missing now and no other room in progress seats one of its players |
| RoomLiveness.SharedIsBlockable | src/modules/game/service/game.service.ts:119-176 | a room that shares a player with another room in progress can be blocked by submissions alone |
| RoomLiveness.BlockedForever | src/modules/game/service/game.service.ts:119-125 | a blocked room stays as it is while its players are in no other room in progress |
| RoomLiveness.FreedIff | src/modules/game/service/game.service.ts:119-176 | one submission frees a blocked room if and only if another room in progress seats one of its players and still waits for a move |
| RoomLiveness.RematchIsBlocked | src/modules/game/service/game.service.ts:168-176 | a room opened over the two player objects of a match just completed, in either seat order, is blocked from the start |
| GameService.GameRoom.ResolveRound | src/modules/game/service/game.service.ts:136-177 | updating the room and the shared player objects in place is the round step of the match machine, and tells whether the match is over |
| GameService.GameService.CreateRoom | src/modules/game/service/game.service.ts:75-106 | adds one room under a fresh id for exactly the given player objects, with whatever move they carry; on all rooms together it is the open step |
| GameService.GameService.SubmitMove | src/modules/game/service/game.service.ts:110-132 | gives the verdict of the match machine in its order of checks, and on all rooms, pending moves and started finalizations together takes the play step, so it also says what other rooms over the same players see |
| GameService.GameService.FindActiveRoomByUserId | src/modules/game/service/game.service.ts:424-430 | finds a room in progress in which the user plays, and finds nothing only if there is none |
| KingOfTheHill.StepConserves | src/modules/squad/gateway/squad.gateway.ts:115-184 | every event only adds the player it admits and removes those dismissed from the queue; match ends and forfeits permute |
| KingOfTheHill.RotateConserves | src/modules/squad/gateway/squad.gateway.ts:309-363 | none of the three branches of a match end loses or doubles a player |
| KingOfTheHill.ForfeitsConserve | src/modules/squad/gateway/squad.gateway.ts:407-423 | the disconnect of a playing user, even when both forfeit tests fire, only permutes the players |
| KingOfTheHill.StepPreservesInv | src/modules/squad/gateway/squad.gateway.ts:227-370 | no user is held twice, champion and challenger are set exactly while a match is in progress, and without a match at most one player waits |
| KingOfTheHill.RunConserves | src/modules/squad/gateway/squad.gateway.ts:78-184 | over every run: players held at the end plus those dismissed are those held at the start plus those admitted, and the invariant holds |
| KingOfTheHill.HillHoldsExactlyThoseWhoStayed | src/modules/squad/gateway/squad.gateway.ts:102-184 | a squad that started empty holds exactly those admitted and not dismissed |
| KingOfTheHill.EndRestarts | src/modules/squad/gateway/squad.gateway.ts:309-369 | every effective match end is followed in the same call by the next match |
| KingOfTheHill.OnceStartedNeverIdle | src/modules/squad/gateway/squad.gateway.ts:305-370 | once a match has started, the squad has one in progress after every run |
| KingOfTheHill.ChampionIsNotChallenger | src/modules/squad/gateway/squad.gateway.ts:115-123 | champion and challenger are different players with different user ids |
| KingOfTheHill.JoinIsLast | src/modules/squad/gateway/squad.gateway.ts:133-146 | a new player comes last in the order champion, challenger, queue, also when his join starts a match |
| KingOfTheHill.WinnerStaysLoserQueues | src/modules/squad/gateway/squad.gateway.ts:301-370 | the winner is the next champion, the head of the queue his challenger, the loser goes behind everybody; after a draw both go behind and the first two of the line play |
| HillFairness.StepAdvances | src/modules/squad/gateway/squad.gateway.ts:227-424 | an event has at most one effective end while somebody else waits, and moves a queued user who is not withdrawn forward by at least that many places |
| HillFairness.OneForfeitAtMost | src/modules/squad/gateway/squad.gateway.ts:407-423 | with somebody else waiting, the second forfeit test does not fire after the first |
| HillFairness.BoundedWaiting | src/modules/squad/gateway/squad.gateway.ts:227-370 | a user at queue position i who is not withdrawn has been champion or challenger after at most i + 1 effective match ends, also when room ids arrive late |
| HillFairness.BoundIsTight | src/modules/squad/gateway/squad.gateway.ts:320-323 | while the champion keeps winning, the user at position i still waits after i ends |
| SquadWorld.StepIsHillStep | src/modules/squad/gateway/squad.gateway.ts:62-437 | a request changes one squad's hill only, by its hill event and the new room if a match started |
| SquadWorld.RunIsHillRun | src/modules/squad/gateway/squad.gateway.ts:62-437 | in every run of all squads together, each squad's hill is a run of its own events |
| SquadWorld.RunLinks | src/modules/squad/gateway/squad.gateway.ts:247-254 | a squad has a current room exactly while its match is in progress, that room seats its champion and challenger in this order, and no room is current in two squads |
| SquadWorld.ReachableSquads | src/modules/squad/gateway/squad.gateway.ts:62-437 | every squad reachable from an empty gateway, with rooms of matchmaking and invites in the same table, satisfies the hill invariant and is linked to its room |
| SquadWorld.EndCurrent | src/modules/squad/gateway/squad.gateway.ts:429-437 | a notice about a current room always takes effect: that squad has both players and moves on |
| SquadWorld.EachRoomEndsOnce | src/modules/squad/gateway/squad.gateway.ts:305-437 | over every run no room ends twice, by result or by forfeit |
| SquadWorld.RetiredForever | src/modules/squad/gateway/squad.gateway.ts:309-310 | a room that no squad plays in any more never becomes current again and never ends again |
| SquadWorld.LateNoticeIgnored | src/modules/squad/gateway/squad.gateway.ts:429-437 | after a room has ended, any later notice about it changes nothing |
| SquadWorld.HillMovesOnIffVerified | src/modules/game/service/game.service.ts:238-253 | the finished match of a squad moves its hill on if and only if one of the two players has a verified wallet |
| SquadFairness.SquadBoundedWaiting | src/modules/squad/gateway/squad.gateway.ts:227-437 | bounded waiting for the whole gateway: at most i + 1 effective ends of the user's own squad, whatever requests of all squads interleave |
| SquadWorld.RunKeepsKnown | src/modules/squad/gateway/squad.gateway.ts:108-134 | over every run, every held entry has a socket that the gateway knows |
| SquadWorld.ReconnectMovesIff | src/modules/game/gateway/game.gateway.ts:198-206 | a reconnect moves exactly the squad entry that sits in the room for this user, in whichever seat, and nothing else |
| Disconnects.StillHeldIff | src/modules/squad/gateway/squad.gateway.ts:394-424 | the squad whose handler is called still holds somebody on the closed socket if and only if the socket was in a slot or had one more queue entry |
| Disconnects.SquadStillHoldsIff | src/modules/squad/gateway/squad.gateway.ts:62-69 | the same at the gateway, for every world and every squad: if the socket is registered to the squad, exactly then; if not, exactly if the squad held somebody on it before |
| Disconnects.ForfeiterGoesLast | src/modules/squad/gateway/squad.gateway.ts:407-423 | the other player is champion; the one who forfeits is last in the queue, or challenger at once if nobody waits |
| Disconnects.RemovedIff | src/modules/squad/gateway/squad.gateway.ts:62-184 | a request takes a held player out of a squad if and only if he leaves while queued, or a socket closes that is registered to this squad and he is the first of its queue on it |
| Disconnects.HeldUntilRemoved | src/modules/squad/gateway/squad.gateway.ts:62-184 | over every run a held entry is still held at the end if and only if no request on the way removed it so |
| SocketRegistry.RegisteredIff | src/modules/squad/gateway/squad.gateway.ts:62-184 | exactly the requests that break "every held player's socket is registered to his squad": a join to another squad from a socket in use, a leave over a socket on which somebody stays, a close that leaves somebody behind, a reconnect to a socket not registered to his squad |
| SocketRegistry.LeavingAvoidsForfeit | src/modules/squad/gateway/squad.gateway.ts:158-184 | a player in a slot who sends a leave stays there, and the close of his socket after that changes nothing |
| StrandedEntries.ClosedStaysForgotten | src/modules/squad/gateway/squad.gateway.ts:62-69 | closing the same socket again does nothing, over every run without a new join from it |
| StrandedEntries.ForfeiterStays | src/modules/squad/gateway/squad.gateway.ts:62-69 | the player who forfeits by closing his socket stays in the squad, whatever follows, until he leaves himself or a reconnect moves him; over every run in which the closed socket does not join again |
| StrandedEntries.SecondSquadKeepsFirst | src/modules/squad/gateway/squad.gateway.ts:62-134 | a socket that joined two squads: its close leaves the only entry of the first one |
| StrandedEntries.ForeignLeaveKeepsEntry | src/modules/squad/gateway/squad.gateway.ts:62-173 | after a leave of a squad he is not in, the close of a queued user's socket leaves his entry |
| StrandedEntries.ReconnectLetsRemove | src/modules/game/gateway/game.gateway.ts:186-206 | a queued player moved by a reconnect to a socket that is registered to his squad is removed when that one closes |
| StrandedEntries.ForfeiterComesBack | src/modules/game/gateway/game.gateway.ts:186-206 | a concrete run: a forfeiter reconnects from his first tab and is removed by its close without having left since his last join |
| Arena.ReachableArenas | src/modules/squad/gateway/squad.gateway.ts:62-437 | over every run of squads, rooms and finalizations together: both sides have the same rooms and the same next id, every room seats two users and is well scored, every squad is linked to its room |
| Arena.WinnerStays | src/modules/squad/gateway/squad.gateway.ts:312-357 | the recorded winner of a completed current room is the squad's champion or challenger; he is the next champion, the loser goes behind everybody who waits, and nobody else moves, so the draw branch is dead |
| Stalling.SettledFromNothing | src/modules/game/service/game.service.ts:94-177 | over every calm run from nothing, entries play in the current room of their squad only, and an entry that is not playing carries a move if and only if it has finished a match |
| Stalling.NextRoomIsBlockedIff | src/modules/squad/gateway/squad.gateway.ts:305-370 | over these runs, for squads of any size: the room that follows a match end is blocked from the start if and only if its challenger has already finished a match with this entry |
| Stalling.StalledForever | src/modules/game/service/game.service.ts:110-132 | a squad whose room is blocked keeps that blocked room over every calm run |
| Exhaustion.EndsAreCredited | src/modules/squad/gateway/squad.gateway.ts:305-370 | over every calm run: the matches a squad still ends are at most its queued entries that have not finished one, plus one, plus the further joins; none if its room is blocked |
| Exhaustion.FewerMatchesThanJoins | src/modules/squad/gateway/squad.gateway.ts:305-370 | so from nothing a squad ends fewer matches than it has had joins, whoever wins |
| Exhaustion.SquadOfTwoStalls | src/modules/squad/gateway/squad.gateway.ts:305-370 | the bound is met by a concrete calm run: two join, one wins two rounds, and after this one match the squad is stalled |
| Forfeits.ForfeitSharesWinner | src/modules/squad/gateway/squad.gateway.ts:247-254 | after a forfeit its winner sits, with the same object, in the room left behind and in the next room |
| Forfeits.ForfeitBreaksLiveness | src/modules/squad/gateway/squad.gateway.ts:407-423 | in every consistent state: while the room left behind is in progress, some submissions block the next room of the squad |
| Forfeits.StrandedByForfeit | src/modules/squad/gateway/squad.gateway.ts:394-424 | a concrete run: three join, one disconnects, and two moves block the room of the other two |
| Forfeits.SquadOfTwoIsBlocked | src/modules/squad/gateway/squad.gateway.ts:305-370 | in every consistent state, with or without forfeits before: in a squad of two the room that follows a completed match is blocked from the start |
| SquadGateway.GameGateway.HandleReconnect | src/modules/game/gateway/game.gateway.ts:186-206 | finds a room in progress of the user and writes the new socket to his player object, which a squad shares; without a room nothing changes |
| SquadGateway.SquadGateway.StartSquadMatch | src/modules/squad/gateway/squad.gateway.ts:247-254 | sets the flag, makes one new room for champion and challenger in this order, and stores its id |
| SquadGateway.SquadGateway.TryStartMatch | src/modules/squad/gateway/squad.gateway.ts:227-242 | takes exactly the start step of the squad world, or none |
| SquadGateway.SquadGateway.HandleJoinQueue | src/modules/squad/gateway/squad.gateway.ts:78-151 | admits exactly members who are neither queued nor playing, with a fresh entry without a move, and is otherwise without effect |
| SquadGateway.SquadGateway.HandleLeaveQueue | src/modules/squad/gateway/squad.gateway.ts:158-184 | removes every queue entry of the user and forgets the socket; does nothing for an unknown squad |
| SquadGateway.SquadGateway.RotateHill | src/modules/squad/gateway/squad.gateway.ts:309-363 | moves champion, challenger and queue as the rotation whose fairness and conservation are proved |
| SquadGateway.SquadGateway.HandleMatchEnd | src/modules/squad/gateway/squad.gateway.ts:305-370 | takes the end step of the squad world, including the next start, and ignores squads without a match |
| SquadGateway.SquadGateway.FindSocket | src/modules/squad/gateway/squad.gateway.ts:399 | finds the first queue entry on the socket, or none |
| SquadGateway.SquadGateway.HandlePlayerDisconnect | src/modules/squad/gateway/squad.gateway.ts:394-424 | removes a queued entry, or runs the two forfeit tests one after the other, the second on what the first one started |
| SquadGateway.SquadGateway.HandleDisconnect | src/modules/squad/gateway/squad.gateway.ts:62-69 | takes the close step of the squad world and forgets the socket |
| SquadGateway.SquadGateway.NotifyMatchEnd | src/modules/squad/gateway/squad.gateway.ts:429-437 | ends the match of the one squad whose current room this is, whatever order the squads are searched in, and does nothing otherwise |
| Criteria.ParseOfMatch | src/modules/achievement/service/achievement.service.ts:81-85 | every string the regular expression accepts is parsed into the groups it was cut into |
| Criteria.MatchOfParse | src/modules/achievement/service/achievement.service.ts:81-85 | whatever is parsed is accepted by the regular expression with these groups |
| Criteria.ParsesIffMatches | src/modules/achievement/service/achievement.service.ts:81-82 | a string parses if and only if the regular expression accepts it |
| Criteria.MatchIsUnique | src/modules/achievement/service/achievement.service.ts:81 | field, operator and number of a criterion are unique |
| Criteria.ValueOfDigits | src/modules/achievement/service/achievement.service.ts:84 | reading back the decimal digits of a number gives the number |
| Criteria.EvaluateOfPrint | src/modules/achievement/service/achievement.service.ts:77-92 | a printed criterion, with any white space, parses back to itself and evaluates to the comparison it denotes, or to false for an unknown field |
| Criteria.OperatorsMean | src/modules/achievement/service/achievement.service.ts:77-92 | the texts `>=`, `>`, `<=`, `<`, `==` and `===` mean at least, more, at most, less, and twice equal |
| Criteria.StaysMetIffLowerBound | src/modules/achievement/service/achievement.service.ts:87-91 | criteria with `>=` and `>`, and only these, stay met as the field grows |
| Ledger.NewBadgesAre | src/modules/achievement/service/achievement.service.ts:47-52 | the badges awarded are exactly those of the table that the row qualifies for and does not hold |
| Ledger.Database.InsertBadges | src/modules/achievement/service/achievement.service.ts:45-69 | the award loop inserts exactly the badges the row qualifies for and counts them |
| Ledger.Database.CheckAndAward | src/modules/achievement/service/achievement.service.ts:36-75 | an unknown user gets nothing; a known one gets the badges his row earned, judged on the row read before the loop |
| Ledger.Database.RecordWin | src/modules/game/service/game.service.ts:264-281 | wins, matches, streak and 10 points go up, and the longest streak becomes the maximum of itself and the new streak |
| Ledger.Database.RecordLoss | src/modules/game/service/game.service.ts:291-299 | losses and matches go up and the streak is reset, nothing else changes |
| Ledger.Database.RecordDraw | src/modules/game/service/game.service.ts:326-342 | only the match count goes up |
| Ledger.Database.RecordScores | src/modules/game/service/game.service.ts:258-346 | scores each verified participant by his own result and leaves every other row alone |
| Ledger.Database.FinalizeMatch | src/modules/game/service/game.service.ts:238-376 | the sequence of updates is one credit per verified participant, independent of the order in which the players are served, and nothing for a practice match |
| LedgerHistory.ReplayIsRowAfter | src/modules/game/service/game.service.ts:258-376 | after any sequence of finalized matches a row depends on its own user's verified history only |
| LedgerHistory.PlayedMatchIsDecisive | src/modules/game/service/game.service.ts:168-171 | a room completed by play, alone with its players, hands finalization two different players and one of them as winner, so nobody draws |
| LedgerHistory.RunsAfterWin | src/modules/game/service/game.service.ts:265-281 | one more win extends the trailing run by one, and the longest run exactly when the trailing one outgrows it |
| LedgerHistory.RowTallies | src/modules/game/service/game.service.ts:258-302 | wins, losses and matches count the history, the current streak is its trailing run of wins and the longest streak the maximum over all contiguous all-win segments |
| LedgerHistory.RowBadges | src/modules/game/service/game.service.ts:348-376 | with streak criteria a user's badges are exactly the thresholds up to his longest streak, and points are 10 a win plus 20 a badge |
| LedgerHistory.SeedIsStreakTable | prisma/seed.ts:50-81 | the five seeded criteria parse to the streak thresholds 3, 5, 7, 10 and 15 |
| LedgerHistory.LedgerOfRun | src/modules/game/service/game.service.ts:258-376 | all of these together, with the seeded badges, over every run of finalized matches; points > 0 implies a played match, and matches are wins plus losses if each had a winner |
| LedgerHistory.TotalsOfRun | src/modules/game/service/game.service.ts:258-299 | summed over all users, wins (losses) are the number of matches with a verified winner (loser) |
| LedgerHistory.LedgerRanksAgree | src/modules/leaderboard/service/leaderboard.service.ts:13-91 | on every table that finalized matches can leave, the rank by counting is the board rank of the first row of the player's tie group |
| ArenaLedger.MatchesAreDecisive | src/modules/game/service/game.service.ts:168-171 | every finalized room has two different players and its recorded winner among them, also if it shared its players with other rooms |
| ArenaLedger.ResultIs | src/modules/game/service/game.service.ts:221-321 | a finalized match counts for a user exactly if he sat in it with a verified wallet, as a win exactly if the room names him as its winner, and else as a loss |
| ArenaLedger.LedgerOfArena | src/modules/game/service/game.service.ts:171-376 | for every reachable service, with its rooms finalized in their order: streaks, badges and points follow from the history, and matches are wins plus losses |
| ArenaLedger.TotalsOfArena | src/modules/game/service/game.service.ts:171-299 | and summed over all users, wins (losses) are the completed rooms whose winner (loser) was verified |
| Leaderboard.RankIsBoardRankPlusIdle | src/modules/leaderboard/service/leaderboard.service.ts:13-91 | on any valid sort the rank by counting is that board rank plus the number of verified players without a match who have more points |
| Leaderboard.RanksAgreeIff | src/modules/leaderboard/service/leaderboard.service.ts:14-21 | a player on the board has equal ranks by both computations if and only if no verified player without a match has more points |
| Leaderboard.BetterIsBefore | src/modules/leaderboard/service/leaderboard.service.ts:14-21 | more points, or more wins at equal points, come first, and the board holds exactly the verified, undeleted users with a match |
| Leaderboard.PlayerRankIs | src/modules/leaderboard/service/leaderboard.service.ts:61-92 | no rank for unknown or unverified users, and else one more than the number of verified, undeleted users with more points, out of all verified, undeleted users |
| Leaderboard.CountOfPermutation | src/modules/leaderboard/service/leaderboard.service.ts:71-85 | counting the rows with a property does not depend on how ties were sorted |
| Leaderboard.PagesAreTheBoard | src/modules/leaderboard/service/leaderboard.service.ts:20-39 | pages cut from one and the same answer of the query put together list every row of it once, ranked 1 to n |
| LeaderboardPages.RanksAreConsecutive | src/modules/leaderboard/service/leaderboard.service.ts:38-39 | pages of different answers always carry the ranks 1 to n in order |
| LeaderboardPages.SamePrefix | src/modules/leaderboard/service/leaderboard.service.ts:20 | a boundary between different scores cuts every answer into the same two sets of rows |
| LeaderboardPages.PagesListAllIff | src/modules/leaderboard/service/leaderboard.service.ts:14-22 | whatever order each query gives to ties, the pages list every row once, if and only if no tie group is cut by a boundary of this page size |
| LeaderboardPages.TieListsTwice | src/modules/leaderboard/service/leaderboard.service.ts:20-22 | with a tie across a boundary, the row before it is listed twice when the second query swaps the two |
| LeaderboardPages.EveryPagingListsAllIff | src/modules/leaderboard/service/leaderboard.service.ts:14-22 | for all page sizes: if and only if no two rows of the board tie on points and wins |
| RedisService.CeilSeconds | src/core/redis/redis.service.ts:65 | the expiry in whole seconds is never shorter than asked for, and by less than a second longer |
| RedisService.KeysAreSeparate | src/core/redis/redis.service.ts:24-26 | blacklist and activity keys never collide, and different owners have different keys |
| RedisService.ReadBack | src/core/redis/redis.service.ts:64-77 | a stored value is read back exactly while it lives, a deleted one not at all, and neither touches another key |
| RedisService.RedisService.Set | src/core/redis/redis.service.ts:64-67 | stores the value for the rounded-up time, and fails exactly for a time that is not positive |
| RedisService.RedisService.Blacklist | src/core/redis/redis.service.ts:86-90 | writes the entry unless the remaining life is not positive |
| RedisService.RedisService.CacheActiveStatus | src/core/redis/redis.service.ts:150-157 | stores the flag for 30 seconds |
| RedisService.RedisService.GetCachedActiveStatus | src/core/redis/redis.service.ts:164-168 | answers the stored flag while its entry lives, else nothing |
| RedisService.RedisService.InvalidateActiveStatus | src/core/redis/redis.service.ts:175-177 | removes the user's activity entry only |
| Sessions.StepKeepsHonest | src/modules/user/service/user.service.ts:212-281 | every whole request keeps each live cache entry equal to the account's flag |
| Sessions.GuardFollowsFlag | src/core/guard/jwt-auth.guard.ts:137-154 | after any run of requests the guard admits the holder of an unexpired token exactly if his account is active or unknown |
| Sessions.DeletedButAdmitted | src/modules/user/service/user.service.ts:247-261 | a soft-deleted account is still admitted exactly if it is active, because the lookup of the guard does not ask for the deletion |
| Sessions.EntryOutlivesToken | src/core/redis/redis.service.ts:86-90 | an entry written for `exp` minus the floored now, rounded up, lives at least until the verifier rejects the token |
| Sessions.CoveredForever | src/core/redis/redis.service.ts:86-95 | no later request shortens a blacklist entry before its token has expired |
| Sessions.ConsumedOnce | src/core/guard/jwt-auth.guard.ts:89-108 | a refresh token that was rotated or logged out is rejected as expired or revoked by every later refresh |
| Sessions.UnusableForeverIffExpires | src/core/guard/jwt-auth.guard.ts:104-108 | a rotated token is unusable for all time if and only if it carries an `exp` |
| Sessions.LoggedOutAccessTokenRefusedIff | src/core/guard/jwt-auth.guard.ts:63-77 | the answer of the guard to a logged-out access token at every later time: revoked until the fraction of the second `exp` at which he logged out, then by the active flag to the end of that second, then by the refresh token; the logout of an unknown user changes nothing |
| SessionRules.GuardAgrees | src/core/guard/jwt-auth.guard.ts:49-154 | in a state that agrees with the rule book the guard grants exactly what it admits |
| SessionRules.RefusalsAre | src/core/guard/jwt-auth.guard.ts:24-31 | why a request is refused: a deactivated account gets 403, and each 401 has its own condition in terms of the rule book |
| SessionRules.RunAgrees | src/modules/auth/service/auth.service.ts:78-215 | every request takes an agreeing state to the state that the rule book notes: flags, deletion marks, the token stored last, and how long each token is revoked |
| SessionLaws.GuardAdmitsIff | src/core/guard/jwt-auth.guard.ts:49-125 | so over every run from nothing the guard grants exactly what the rule book admits, and renews exactly the sessions it renews |
| SessionLaws.AccessGrantedIff | src/core/guard/jwt-auth.guard.ts:57-74 | over every run: an access token in its life is granted if and only if nobody has logged out with it (or spent it as a refresh token) and its owner's account is active or unknown |
| SessionLaws.LoggedOutIsRefused | src/core/guard/jwt-auth.guard.ts:63-65 | after a logout of a known user, every later request with that access token is refused as revoked up to its `exp`, whatever refresh token comes with it, and changes nothing |
| SessionLaws.SupersededIsRefused | src/core/guard/jwt-auth.guard.ts:101-102 | over every run after a sign-in: a refresh token of the user that the comparison tells from the new one is refused without effect until one like it is stored again |
| SessionLaws.SupersededIsRefusedIff | src/core/guard/jwt-auth.guard.ts:101-102 | right after a sign-in, exactly the tokens are refused that differ from the new one in what the comparison reads |
| SessionLaws.SignedOutIsRefused | src/core/guard/jwt-auth.guard.ts:96-97 | over every run after a logout, no refresh token of the user is granted until he signs in again, and nothing changes |
| SessionLaws.DeactivatedIsRefused | src/core/guard/jwt-auth.guard.ts:99-154 | over every run after a deactivation, no request that the guard would grant for this account is granted until it is activated again, and no account changes |
| TokenText.OneUserOneDigest | src/modules/auth/service/token.service.ts:76-96 | two refresh tokens issued for one user agree on all that the comparison reads |
| TokenText.IssuedIsRefreshedIff | src/core/guard/jwt-auth.guard.ts:89-102 | over every run with issued tokens: a refresh is granted if and only if the token is unexpired and unrevoked, the account active and a session open, whichever token was stored last |
| TokenText.OlderTokenIsRefreshed | src/core/guard/jwt-auth.guard.ts:101-102 | a concrete run: after a second sign-in the token of the first is still granted |
| AuthGuard.JwtAuthGuard.CanActivate | src/core/guard/jwt-auth.guard.ts:49-78 | the outcome and the effect of the guard's checks in their order: token, blacklist, expiry, then the active flag or a silent refresh; what is granted is exactly what `SessionLaws.GuardAdmitsIff` says |
| AuthGuard.JwtAuthGuard.AssertActive | src/core/guard/jwt-auth.guard.ts:137-154 | answers from a live entry, else from the account, and fills the cache only then |
| AuthGuard.JwtAuthGuard.HandleSilentRefresh | src/core/guard/jwt-auth.guard.ts:82-125 | refuses in the order of the source without any effect, else blacklists the old token, stores the new hash and refreshes the cache; it grants exactly what `SessionRules.Renews` says |
| AuthGuard.JwtAuthGuard.Logout | src/modules/auth/service/auth.service.ts:188-215 | throws without any effect for an unknown user; else clears the stored hash and blacklists both tokens, the refresh token only if it still verifies |
| AuthGuard.JwtAuthGuard.SetActive | src/modules/user/service/user.service.ts:212-236 | refuses own, unknown and unchanged accounts in this order, else writes the flag and removes the cache entry |
| AuthGuard.JwtAuthGuard.SoftDelete | src/modules/user/service/user.service.ts:247-261 | marks exactly an existing, undeleted, foreign account as deleted and removes its cache entry |
| AuthGuard.JwtAuthGuard.Restore | src/modules/user/service/user.service.ts:269-281 | clears the mark of exactly a deleted account and caches its unchanged flag |
| ActiveCacheRaces.EntryWasFilled | src/core/guard/jwt-auth.guard.ts:146-151 | under all interleavings every entry was written by a filler, 30 seconds before its end, with the value that this filler had read from the table in its step just before |
| ActiveCacheRaces.HitIsRecent | src/core/guard/jwt-auth.guard.ts:96-154 | names the filler, its read and its write, with no step of it between them, that a hit comes from; the read is less than 30 seconds plus the time from this read to this write ago, however all steps interleave |
| ActiveCacheRaces.HitIsFresh | src/core/guard/jwt-auth.guard.ts:96-154 | if no filler takes longer than a delay from its read to its write, a hit returns a value that the table held less than 30 seconds plus this delay ago |
| ActiveCacheRaces.HitIsCurrentIfQuiet | src/core/guard/jwt-auth.guard.ts:137-154 | a hit is the current flag if the flag was not written since the read that filled this entry |
| ActiveCacheRaces.HonestStepIff | src/modules/user/service/user.service.ts:220-234 | exactly which steps keep the cache honest: a flag write under no entry or an equal one, and a filler write of what the table still holds |
| ActiveCacheRaces.InvalidationHoldsIff | src/modules/user/service/user.service.ts:220-234 | after an invalidation, whatever follows, every hit is right until the flag is written again, if and only if no filler that read another value has yet to write it |
| ActiveCacheRaces.HitCanBeOld | src/core/guard/jwt-auth.guard.ts:129-154 | for every d there is a run whose hit was last true of the table d + 29,999 milliseconds ago |
| ActiveCacheRaces.StaleAfterInvalidation | src/modules/user/service/user.service.ts:233-234 | a concrete run in which the cache contradicts the table after the invalidation |
| SquadMembership.RunKeepsInv | src/modules/squad/service/squad.service.ts:16-548 | over all runs each squad has exactly one OWNER row and it is its `ownerId`, a pending invite implies non-membership, and every other member holds an accepted invite |
| SquadMembership.ReachableMembership | prisma/schema.prisma:131-172 | this holds of everything reachable from empty tables |
| SquadMembership.AcceptNeverConflicts | src/modules/squad/service/squad.service.ts:369-377 | accepting an invite never hits the unique key of the member rows |
| SquadMembership.RefusalsAre | src/modules/squad/service/squad.service.ts:202-548 | for each request exactly who is forbidden, what is not found and what is a bad request; only an invite can meet a unique key |
| SquadMembership.RowRemovedIff | src/modules/squad/service/squad.service.ts:404-483 | a member row disappears exactly by its squad's deletion through the owner, by a non-owner's leaving, or by a kick of a non-owner through owner or admin |
| SquadMembership.RowAddedIff | src/modules/squad/service/squad.service.ts:16-27 | a member row appears exactly by creating the squad or by accepting one's own pending invite |
| SquadMembership.RoleOfNewRow | src/modules/squad/service/squad.service.ts:16-27 | the row of the creator is OWNER, and that of a new member MEMBER |
| SquadMembership.RoleAfterIs | src/modules/squad/service/squad.service.ts:505-548 | a staying member's role is what the owner asked for in this request, and else what it was; the owner's own never changes |
| SquadMembership.SquadsAfter | src/modules/squad/service/squad.service.ts:202-222 | a squad appears by its creation and disappears exactly by its owner's deletion |
| SquadMembership.InviteAddedIff | src/modules/squad/service/squad.service.ts:229-292 | for every request: an invite appears if and only if its inviter holds a member row, the invitee exists, is his friend and no member, and was never invited to this squad; it is pending, from him and to him |
| SquadMembership.InviteAfterIs | src/modules/squad/service/squad.service.ts:332-377 | an invite goes exactly with its squad, and is answered exactly by its invitee while it is pending, as he asked |
| SquadMembership.InvitesWereSentByMembers | src/modules/squad/service/squad.service.ts:229-292 | over every run every invite was sent by somebody who was a member at that step |
| SquadMembership.AcceptsAtMostOnce | src/modules/squad/service/squad.service.ts:359-377 | each user accepts at most once in a squad's lifetime, and never after a first answer |
| SquadMembership.InviteIffNeverInvited | src/modules/squad/service/squad.service.ts:271-292 | a member's invite to a friend outside the squad goes out if and only if the squad never invited him before |
| SquadMembership.AnsweredIsFinal | src/modules/squad/service/squad.service.ts:271-292 | once a user has answered, no later invite of that squad to him succeeds |
| SquadService.SquadService.CreateSquad | src/modules/squad/service/squad.service.ts:16-53 | adds the squad under a fresh id together with its owner's row |
| SquadService.SquadService.DeleteSquad | src/modules/squad/service/squad.service.ts:202-222 | refuses unknown squads and other users, else removes the squad with its members and invites |
| SquadService.SquadService.FindInvite | src/modules/squad/service/squad.service.ts:272-279 | finds the invite under the unique key, and finds nothing only if there is none |
| SquadService.SquadService.InviteToSquad | src/modules/squad/service/squad.service.ts:229-292 | the outcome of the checks in their order, and one new pending invite exactly on success |
| SquadService.SquadService.RespondToInvite | src/modules/squad/service/squad.service.ts:332-377 | only the invitee answers, once, and an accept adds the member row |
| SquadService.SquadService.LeaveSquad | src/modules/squad/service/squad.service.ts:404-442 | the owner and non-members are refused, else the row goes |
| SquadService.SquadService.KickMember | src/modules/squad/service/squad.service.ts:447-500 | the role of the kicker is checked before the squad, the owner cannot be kicked, else the target's row goes |
| SquadService.SquadService.ChangeMemberRole | src/modules/squad/service/squad.service.ts:505-548 | only the owner changes roles, never his own, and the target becomes admin or member |
| Challenge.IndexOf | src/modules/wallet/service/wallet.service.ts:85-86 | the first position from the start on at which a separator stands, or -1 if none does |
| Challenge.FirstSeparatorIff | src/modules/wallet/service/wallet.service.ts:85-86 | the search stops at a given separator if and only if no earlier one starts in or overlaps the part before it |
| Challenge.WalletRoundTripIff | src/modules/wallet/service/wallet.service.ts:55-88 | parsing the stored record returns the lower-cased address and the message, for any message, if and only if address and nonce contain no separator and do not end in a colon |
| Challenge.WalletRoundTrip | src/modules/wallet/service/wallet.service.ts:55-88 | in particular for all colon-free addresses and nonces, the nonce possibly empty |
| Challenge.SignInRoundTripIff | src/modules/auth/service/auth.service.ts:284-316 | the same for the two-part sign-in record |
| Challenge.LowerIs | src/modules/wallet/service/wallet.service.ts:55-91 | lower-casing turns each capital letter into its small one and leaves every other character |
| WalletService.ConnectAnswersChallenge | src/modules/wallet/service/wallet.service.ts:41-102 | within five minutes a challenge is answered exactly by a valid signature of the issued message under the issued address, up to case, and only once; the wrong address is reported exactly for another address |
| WalletService.ChallengesAreSeparate | src/modules/wallet/service/wallet.service.ts:41-102 | the challenge of one user and its proof touch neither another user's nor what the guard stores |
| WalletService.WalletService.GenerateChallenge | src/modules/wallet/service/wallet.service.ts:41-63 | stores the record under the user's key for five minutes |
| WalletService.WalletService.ConnectWallet | src/modules/wallet/service/wallet.service.ts:75-102 | gives the result of the proof in the order of the checks and deletes the challenge exactly on success |
| Matchmaking.UserIndex | src/modules/matchmaking/service/matchmaking.service.ts:33 | the position of the user in the queue, negative exactly if he is not queued |
| Matchmaking.NobodyOvertakes | src/modules/matchmaking/service/matchmaking.service.ts:26-43 | over any run the matched players followed by the queue are the accepted joins minus the leavers in the order of joining, matched in pairs of different users, with nobody queued twice |
| Matchmaking.HelloAgreesIff | src/modules/matchmaking/gateway/matchmaking.gateway.ts:78-93 | an announcement keeps queue, sockets and presence in agreement if and only if the socket was not the presence of another user |
| Matchmaking.OtherMessagesAgree | src/modules/matchmaking/gateway/matchmaking.gateway.ts:42-50 | cancel and disconnect always keep the agreement |
| Matchmaking.AlwaysAgreed | src/modules/matchmaking/gateway/matchmaking.gateway.ts:42-144 | if every socket announces one user, then in every reachable state each online user's socket maps back to him, each queued entry's socket is registered to its user, and at most one player waits |
| Matchmaking.ClosedSocketIsForgottenIff | src/modules/matchmaking/gateway/matchmaking.gateway.ts:42-50 | for every state: after a close the socket is named in none of the three places, if and only if it was announced, last not with the empty user id, and nobody but the user of that last announcement is on it; a close that is not handled changes nothing |
| Matchmaking.AgreedSocketIsForgottenIff | src/modules/matchmaking/gateway/matchmaking.gateway.ts:42-50 | while queue, sockets and presence agree: if and only if it was not announced with the empty user id |
| Matchmaking.PresenceAfter | src/modules/matchmaking/gateway/matchmaking.gateway.ts:42-82 | a user is online with the socket he announced, until the socket he announced last is closed |
| Matchmaking.SocketsAfter | src/modules/matchmaking/gateway/matchmaking.gateway.ts:42-82 | a socket belongs to the user it announced last, until its close is handled |
| Matchmaking.AgreedIsOnce | src/modules/matchmaking/gateway/matchmaking.gateway.ts:78-93 | while queue, sockets and presence agree nobody is queued twice, so the following hold |
| Matchmaking.CancelTakesOut | src/modules/matchmaking/gateway/matchmaking.gateway.ts:134-144 | after a cancel the user is not queued, everybody else is in his order, and both maps are as they were |
| Matchmaking.GoneTakesOut | src/modules/matchmaking/gateway/matchmaking.gateway.ts:42-50 | a handled close does this for the user the socket announced last, forgets the socket and sets him offline; any other close does nothing |
| Matchmaking.LeaverIsNotMatched | src/modules/matchmaking/gateway/matchmaking.gateway.ts:42-144 | over every run: a user who cancelled or closed is in no matched pair, and not queued, until he announces himself again |
| Matchmaking.FairFromNothing | src/modules/matchmaking/gateway/matchmaking.gateway.ts:42-144 | first in, first out at the gateway: over every run of messages the pairs it made, followed by its queue, are the accepted joins minus the leavers in the order of joining |
| MatchmakingGateway.MatchmakingService.FindUser | src/modules/matchmaking/service/matchmaking.service.ts:33 | the search loop finds the first entry of the user, or none |
| MatchmakingGateway.MatchmakingService.JoinQueue | src/modules/matchmaking/service/matchmaking.service.ts:26-30 | appends the entry unless the user is queued |
| MatchmakingGateway.MatchmakingService.LeaveQueue | src/modules/matchmaking/service/matchmaking.service.ts:32-35 | removes the user's entry and keeps the order of the others |
| MatchmakingGateway.MatchmakingService.TryMatch | src/modules/matchmaking/service/matchmaking.service.ts:39-43 | pops the two longest waiting players in order, or changes nothing |
| MatchmakingGateway.MatchmakingGateway.HandleJoin | src/modules/matchmaking/gateway/matchmaking.gateway.ts:66-94 | takes the announcement step on queue, sockets and presence together, and returns the pair that is matched |
| MatchmakingGateway.MatchmakingGateway.HandleCancel | src/modules/matchmaking/gateway/matchmaking.gateway.ts:134-144 | takes the user out of the queue and leaves both maps alone |
| MatchmakingGateway.MatchmakingGateway.HandleDisconnect | src/modules/matchmaking/gateway/matchmaking.gateway.ts:42-50 | takes the close step on queue, sockets and presence together |

## Left out

- Socket.IO emits, room broadcasts, logging, controllers and request decorators: they keep no state of their own.
- Prisma, Redis and BullMQ internals: replaced by maps, unique keys and a clock; no eviction, no failing call.
- keccak, signatures and their recovery, and the salt and cost of bcrypt: a token is its verified payload and text, a stored hash is what bcrypt reads of the text, and whether a wallet signature fits is a parameter.
- Web3 provider, queue processors and contracts, chat, notification, email, health, replay, verification and pagination modules: external calls, formatting or thin reads.
- Fire-and-forget writes, such as persisting single rounds and on-chain recording: the code decides neither their order nor their failure.
- Concurrent finalizations of one user: their statements interleave in the source and can lower `longestStreak` or miss a badge; a finalization is one step here.
- Concurrent silent refreshes with one token: requests of `Sessions` are whole steps, only the `isActive` cache is modelled with split steps.
- Splitting the awaits inside one squad service call, and a room creation that fails after the hill has moved.
- GameService.GameService.SubmitMove: requires that the two seats of the room hold different player objects; matchmaking and invites make fresh ones, and the squad gateway by `KingOfTheHill.ChampionIsNotChallenger`.
- RoomLiveness.LiveIff: quantifies over runs in which no new room is opened over this room's players; such a room can always be used to block it.
- Stalling.NextRoomIsBlockedIff: speaks of runs without forfeits; with them the winner of a room left behind may still be playing in it, and only what follows from `Forfeits.ForfeitBreaksLiveness` is stated.
- SquadGateway.GameGateway.HandleReconnect: the emitted match state and the room membership of the socket are not modelled.
- RoomLiveness.FreedIff: speaks of one submission; freeing a room through a chain of several blocked rooms is not characterised.
- GameService.GameService.FindActiveRoomByUserId: the source returns the first such room in insertion order; here it may be any, because the room table is a map without order.
- SquadGateway.SquadGateway.HandleJoinQueue: the awaited lookups before the queue is touched are parameters, so a disconnect between them and the join is not modelled.
- MatchmakingGateway.MatchmakingService.TryMatch: ends with the pair that was popped; making its room is `GameService.GameService.CreateRoom` on fresh player objects and happens after an await.
- WalletService.WalletService.ConnectWallet: ends with the proof of ownership; the check for another owner of the wallet and the update of the user row are not modelled.
- The sign-in by wallet: only its record format and parser are modelled, and in `Sessions` that it does not ask for the active flag.
- Criteria.EvaluateOfPrint: numbers are exact, so values from 2^53 on and fields that are not numeric are outside the model; only the six integer columns of a user can be named.
- Challenge.WalletRoundTripIff: lower-casing is that of ASCII letters, the only ones an address has.
- Usernames, avatars, wallet addresses, win rates and the one-time-password keys of the store: they decide nothing above.
