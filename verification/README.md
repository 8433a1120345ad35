# Five in a row, verified

A Dafny model of the game server's logic: the room and its game, the page of a spectator, the
matcher, the index of rooms, sessions and their cache, the players' table and its cache, and the
cookie that carries a session id. Sockets, JSON, SQL text and drawing are left away; what they
carry appears as typed requests, broadcasts and calls.

Wherever the program changes objects in place, so does the model: a class keeps the program's
fields, and the `ensures` of each method say that the new state is a function of the old one.
Those functions make up a state machine, runs of the machine are sequences of calls, and the
theorems are about all runs. `dafny verify dfyconfig.toml` checks everything.

| files | what they hold |
|---|---|
| `Board` | lines of five by a scan of the whole board, the test through the last stone, and their equivalence |
| `RoomModel`, `Room` | one call of a room as a function of its state; the room itself, with its array, clocks and walking loop |
| `RoomLaws` | when a room accepts what, on raw fields and plain numbers, and a whole game |
| `RoomRuns`, `RoomTheorems` | whole runs of a room: moves, clocks, scores, roles, rematches, the two timeout rules |
| `Grid`, `Spectator` | the board as an array, the snapshot, and the second board that a spectator's page keeps |
| `Ledger`, `UserTable`, `CacheRace` | rows and scores; the two cache keys of a row, command by command; the cache under concurrent selects |
| `RoomIndex`, `RoomManager` | all rooms and the map from players to rooms; the server's ledger; every room as a room on its own |
| `MatchQueue`, `Matching`, `Matcher` | the locked queue; three workers and the network thread interleaved step by step; the loop body and `add`/`del` as steps of that machine |
| `Lobby`, `Senders` | matcher and rooms joined, where a worker's request for a room is a call on the room index; who sends a request and whom it names |
| `Sessions`, `SessionServer`, `Lifetimes` | cancellable timers standing for a map of deadlines; login, lookup and restoration from the cache; the life of each session by its own calls |
| `StringUtil`, `Cookies`, `Server` | split and join, cookie lookup, decimal session ids, and the way from a cookie back to its user |

## Readings of the program

- A request carries no `winner` field, as the page sends it
  (`five-stones/resources/wwwroot/game_room.html:756-762`). This matters because the reply to
  `put_chess` starts as a copy of the request and its `winner` is read at the end.
- The player of a move, a timeout, an invitation or an acceptance is the one named in the request;
  the server passes a request on without comparing this with the session
  (`five-stones/include/server.hpp:626-653`). Theorems about one room speak of that name; `Senders`
  relates it to the sender.
- User ids are positive. Two players of one room may be the same user unless a theorem says
  otherwise, because `create_room` does not compare them.
- Times of a room are readings of the steady clock in nanoseconds. A call reads the clock when it
  judges the move and again when it starts the next turn; whole milliseconds are rounded down.
- Which players are online or in the hall is an answer given to each call, so every pattern of
  connections is covered.
- The score column is unsigned, so an update below zero is an error and leaves the row alone.
- The two keys of a user expire together, invalidations succeed, times to live are positive, and
  the process starts with an empty session cache.
- A timer that is cancelled before its callback has run never runs it.
- Each region under a lock, and each lookup, is one step of the matcher; the gaps between them are
  where other threads run.

Seven statements one might expect are false of the code. For each the model has a run that breaks it
and the exact condition under which it holds:

- *The page shows the server's board.* It draws a stone for every `put_chess` reply with coordinates
  on the board, also for one that reports a player offline and placed nothing
  (`Spectator.OfflineEndingDraws`, `Spectator.SpectatorAgrees`).
- *A player of a live room is mapped to it.* One who is matched a second time loses his mapping when
  the second room goes (`RoomIndex.DoubleMatchUnmaps`, `RoomIndex.MapsAgreeExactly`).
- *A name key in the cache has its id key beside it.* `setUser` and `invalidateById` of one user,
  interleaved command by command, can leave it alone, where no later invalidation finds it
  (`UserTable.RaceOrphansName`, `UserTable.RaceKeepsLink`, `UserTable.RaceKeepsLinkThroughout`).
- *A cached row is current.* It can outlive its invalidation when a select read it before the update
  and fills the cache after (`CacheRace.OverlapIsStale`, `CacheRace.HitsAreCurrent`,
  `CacheRace.CacheStaysCurrent`); `CacheRace.HitsAreRecent` bounds its age in general.
- *Black moves first, and only players move.* Until timing starts, nobody's turn is checked
  (`RoomTheorems.AStrangerOpens`, `RoomTheorems.MovesAreInTurn`).
- *A player waits at most once.* Two `add`s make two tokens, and a room of a player with himself
  (`Matching.DoubleAddMatchesOne`, `Matching.CarefulIsExact`; with the rooms, `Lobby.ApartIsExact`).
- *Whoever acts in a room has sent the request.* The uid that counts is the one written in it
  (`Senders.SevenMovesForEight`, `Senders.OneSenderRematches`, `Senders.ActingIsNaming`).

The comment at `five-stones/include/room.hpp:724` says that a room is also removed when its game
ends. The code removes a room only when its player count reaches zero or on request, and so does
the model. The comments at `five-stones/include/match.hpp:55` and `62` name the wrong player;
the model puts back the player that the code puts back.

## Model

| member | source | states |
|---|---|---|
| Board.WalkIsFilled | five-stones/include/room.hpp:66-72 | every cell that a walk counts holds a stone of its colour |
| Board.WalkIsLongest | five-stones/include/room.hpp:66-72 | a walk does not stop before the stones of its colour end |
| Board.StoppedWalks | five-stones/include/room.hpp:62-84 | two walks that went over k and m stones and stopped at something else decide "at least five" by 1 + k + m |
| Board.FiveThroughIsALine | five-stones/include/room.hpp:59-85 | counting both ways from a stone finds at least five iff some line of five in that direction contains the stone |
| Board.FourWalks | five-stones/include/room.hpp:87-96 | four walks decide whether the stone lies in a line of five along one of the four scanned directions |
| Board.LineThroughIsFound | five-stones/include/room.hpp:90-91 | the four directions suffice: a line through the stone in any of eight directions is found |
| Board.LocalTestRefinesScan | five-stones/include/room.hpp:59-96 | on a board without five, the new stone wins iff the new board has a five of either colour anywhere in any direction |
| Board.AtMost225 | five-stones/include/room.hpp:16-17 | no board holds more than 225 stones |
| Grid.Clear | five-stones/include/room.hpp:332-339 | afterwards the array holds no stone |
| Grid.Place | five-stones/include/room.hpp:242 | afterwards the array holds the old stones and the new one, and nothing else |
| Grid.Snapshot | five-stones/include/room.hpp:179-198 | the snapshot lists the stones in row-major order, all on the board; loading it gives the board back |
| Room.Room.constructor | five-stones/include/room.hpp:129-163 | a room as opened: game in progress, two counted players, black to move, empty board, timing not started |
| Room.Room.Arm | five-stones/include/room.hpp:64-72 | the loop goes over exactly the stones of the colour next to the cell and stops at the first other cell; it ends in every direction |
| Room.Room.Five | five-stones/include/room.hpp:59-85 | true iff the two counts and the stone itself make five |
| Room.Room.CheckWin | five-stones/include/room.hpp:88-96 | the player of the colour iff the stone is in a line of five, else 0 |
| Room.Room.HandleChess | five-stones/include/room.hpp:201-251 | off-board, offline, occupied and placed cases in the program's order; only the last changes the board |
| Room.Room.PassTurn | five-stones/include/room.hpp:442-471 | the first move starts both clocks, a later one charges the player to move; then the turn passes |
| Room.Room.HandlePut | five-stones/include/room.hpp:383-495 | state, broadcast and score calls of `put_chess` |
| Room.Room.HandleTimeout | five-stones/include/room.hpp:496-552 | state, broadcast and score calls of `timeout`, with the 200 ms tolerance; only the status can change |
| Room.Room.HandleInvite | five-stones/include/room.hpp:553-593 | refusals in order; else the inviter is remembered and announced, and nothing else changes |
| Room.Room.StartNewGame | five-stones/include/room.hpp:327-366 | colours swapped, board empty, clocks full and stopped, black to move, no invitation |
| Room.Room.HandleAccept | five-stones/include/room.hpp:594-633 | refusals in order; else a new game |
| Room.Room.HandleRequest | five-stones/include/room.hpp:369-645 | a request for another room is refused; every other one has its handler's effect |
| Room.Room.HandleExit | five-stones/include/room.hpp:272-305 | a game in progress is lost by the one who leaves, a finished one only announced; one player less, never below zero |
| Room.Room.BoardSnapshot | five-stones/include/room.hpp:179-198 | loading the snapshot gives the room's board |
| RoomRuns.OpenedIsSane | five-stones/include/room.hpp:129-163 | a new room satisfies the room invariant |
| RoomRuns.PutKeepsSane | five-stones/include/room.hpp:383-495 | `put_chess` keeps the room invariant: no five while the game goes on, clocks in (0, 600000], a player to move |
| RoomRuns.StepKeepsSane | five-stones/include/room.hpp:369-645 | so does every request and every exit |
| RoomRuns.RunIsSane | five-stones/include/room.hpp:233-250 | in every reachable state of a game in progress no five of either colour exists anywhere, clocks are positive, and no invitation is pending |
| RoomRuns.PlacingAStone | five-stones/include/room.hpp:394-442 | a stone is only placed in a game in progress, on a free cell, by the player to move once timing runs, within both clocks |
| RoomRuns.StepTells | five-stones/include/room.hpp:369-645 | one step takes the state told by the accepted moves to the state told by the moves with this step's move |
| RoomRuns.RunTells | five-stones/include/room.hpp:394-470 | after any run, board, turn, start of turn and both clocks are those of the accepted moves since the last start, replayed with alternating colours; from the second move on each is in the name of the player to move and under 30 s |
| RoomRuns.StepKeepsPlayers | five-stones/include/room.hpp:327-330 | a rematch start swaps the players, every other step keeps them |
| RoomRuns.TurnStartIsPast | five-stones/include/room.hpp:451-470 | the turn never starts in the future, so elapsed time is never negative |
| RoomTheorems.StepScores | five-stones/include/room.hpp:415-433 | exactly the step that ends a game names a winner; it scores one win for that player and one loss for the other, and no other step touches the ledger |
| RoomTheorems.TheRightPlayerWins | five-stones/include/room.hpp:216-251 | the winner has the five; or the loser was to move and out of time (up to the tolerance); or the loser left; or the loser was found offline, white looked at first |
| RoomTheorems.GamesAreScoredOnce | five-stones/include/room.hpp:272-305 | over any run, games finished are rematches plus one if the room is over, and the ledger holds one win and one loss of the two players for each, nothing else |
| RoomTheorems.RolesFollowRematches | five-stones/include/room.hpp:327-344 | after k rematches the roles are the original ones iff k is even, else swapped |
| RoomTheorems.PendingInviteStands | five-stones/include/room.hpp:553-593 | a pending invitation was broadcast, and no game has ended or started since |
| RoomTheorems.RematchAnswersInvite | five-stones/include/room.hpp:594-633 | every rematch start is an acceptance in the name of the other player, with both online, of an invitation in the name of a player since the last game ended |
| RoomTheorems.ChargesFitInTheTimePassed | five-stones/include/room.hpp:404-476 | all charges together fit into the time from the end of the first move to the end of the last |
| RoomTheorems.ClocksAreConserved | five-stones/include/room.hpp:443-476 | while a game is timed each clock is 600000 less that player's charges and positive, so the clamp is never reached; each charge is below 30000; the charges fit in the time since timing began |
| RoomTheorems.ReplayCounts | five-stones/include/room.hpp:241-242 | of n stones on different cells the opener has (n + 1) / 2, the other n / 2 |
| RoomTheorems.ColoursAlternate | five-stones/include/room.hpp:394-470 | the colours differ by at most one stone, a game has at most 225 moves, the turn is the colour opposite to the last stone, and no timing means an empty board |
| RoomTheorems.AnyoneMayOpen | five-stones/include/room.hpp:395-402 | in a game not yet timed, with both players online, whoever asks places the first stone: black, white or a stranger; the turn then passes to the other colour |
| RoomTheorems.AStrangerOpens | five-stones/include/room.hpp:241-242 | a run in which a user who is no player places the first stone, in black |
| RoomTheorems.MovesAreInTurn | five-stones/include/room.hpp:160-161 | every move of a game is by the player to move, black first, iff the first one is black's |
| RoomTheorems.ToleranceIsAHeadStart | five-stones/include/room.hpp:520-528 | the tolerant rule holds now iff the strict rule holds 200 ms later |
| RoomTheorems.TimeoutRulesAgree | five-stones/include/room.hpp:407-433 | a timeout request is accepted iff a move 200 ms later would be too late; and whenever a move is too late, a request at the same instant is accepted; same winner, loser and state |
| RoomLaws.MovesAreAcceptedExactly | five-stones/include/room.hpp:208-242 | a stone is placed iff the game goes on, the player may move and has spent less than 30000 ms and less than his clock, the cell is on the board and free, and both players are online |
| RoomLaws.MovesHaveTheirEffect | five-stones/include/room.hpp:240-251 | the only new stone is the mover's, in his colour; with a five on the board his colour has won, else the turn passes, both clocks start at 600000 ms with the first move, and later the player to move pays for the time spent |
| RoomLaws.LateMovesLoseExactly | five-stones/include/room.hpp:404-433 | a move is judged too late iff the player to move asks after 30000 ms or more, or with no more than the time spent on the clock; and he loses |
| RoomLaws.OfflineMovesEndExactly | five-stones/include/room.hpp:216-230 | a move in turn and in time, on any cell of the board, ends the game iff a player is offline, white looked at first, and places nothing |
| RoomLaws.OtherMovesAreRefused | five-stones/include/room.hpp:386-402 | every other move is refused and changes and scores nothing |
| RoomLaws.ClocksAreBroadcast | five-stones/include/room.hpp:472-492 | the broadcast of a move carries the clocks as they are after it |
| RoomLaws.TimeoutsAreAcceptedExactly | five-stones/include/room.hpp:500-550 | a timeout is accepted iff the player to move asks in a timed game with at most 200 ms of his 30000 or of his clock to go; and he loses; else nothing changes |
| RoomLaws.InvitesAreAcceptedExactly | five-stones/include/room.hpp:557-592 | an invitation is accepted iff a player makes it after the game with none pending and both online; else nothing changes |
| RoomLaws.RematchesStartExactly | five-stones/include/room.hpp:598-632 | a new game starts iff a player accepts another's pending invitation after the game with both online; it starts from the beginning with colours swapped |
| RoomLaws.OthersChangeNothing | five-stones/include/room.hpp:634-643 | requests for another room, chat and unknown requests change nothing, and only clean chat is passed on |
| RoomLaws.ExitsAlwaysCount | five-stones/include/room.hpp:272-305 | whoever leaves a game in progress ends it for his rival; afterwards the exit is only announced; one counted player less either way |
| RoomLaws.TheFifthStoneWins | five-stones/include/room.hpp:244-250 | whoever may move and fills the gap in a line of five, in any direction, in time and with both online, has won |
| RoomLaws.BlackWinsWithFive | five-stones/include/room.hpp:480-487 | a game of nine moves: four in a row of both colours do not end it, the fifth of black does, and it is scored |
| Spectator.StepIsFollowed | five-stones/resources/wwwroot/game_room.html:653-661 | one broadcast takes the page of the old state to the page of the new one |
| Spectator.SpectatorFollows | five-stones/resources/wwwroot/game_room.html:830-872 | whenever the spectator joined a game in progress, and through any rematches, the page shows the server's board and roles with at most the stone of an offline ending on top |
| Spectator.SpectatorAgrees | five-stones/resources/wwwroot/game_room.html:830-872 | roles always agree; boards agree in every game in progress and after every five, and otherwise iff the offline request named a cell that already held that stone |
| Spectator.OfflineEndingDraws | five-stones/resources/wwwroot/game_room.html:658-661 | a run after which the page shows a stone that the server never placed |
| Spectator.SpectatorPage.OnSpectateReady | five-stones/resources/wwwroot/game_room.html:830-854 | the page shows the snapshot and its roles; cells off the board are passed over |
| Spectator.SpectatorPage.HandlePutChess | five-stones/resources/wwwroot/game_room.html:653-661 | a stone in the colour of the mover for coordinates on the board, else no change |
| Spectator.SpectatorPage.ApplyRematchStart | five-stones/resources/wwwroot/game_room.html:609-633 | an empty board and the new roles, keeping a role that the message leaves out |
| Spectator.SpectatorPage.OnMessage | five-stones/resources/wwwroot/game_room.html:864-872 | the effect of every broadcast on the page |
| Ledger.EnterKeepsBalance | five-stones/include/db.hpp:234-279 | registration and scoring keep names unique, names unchanged, and each row balanced |
| Ledger.RowsAreBalanced | five-stones/include/db.hpp:46 | after any registrations and scores from an empty table, score = 1000 + 60 win_count - 30 total_count for everyone, never negative, also after refused losses |
| Ledger.RowsTellTheHistory | five-stones/include/db.hpp:44-66 | after any history from an empty table there is one row for each registration with a new id and a free name, with 1000 points, 30 more for each win and 30 less for each loss at 30 points or more |
| Ledger.SumUpdated | five-stones/include/db.hpp:237 | writing one row changes the sum of all scores by the difference of that row's scores |
| Ledger.SumIsConserved | five-stones/include/db.hpp:234-279 | the scores exceed 1000 per user by 30 times the wins less the losses that went through |
| Ledger.GameKeepsBalance | five-stones/include/db.hpp:234-279 | a game of two registered users adds as much to the surplus of wins as to the count of refused losses |
| Ledger.GamesConserveScores | README.md:58 | after any games of n users, with F losses refused by the unsigned column, the scores add up to 1000 n + 30 F |
| UserTable.SetKeepsLink | five-stones/include/cache/redis_user_cache.hpp:38-39 | after each command of `setUser`, a name key present means the id key of the same user present |
| UserTable.InvalidateKeepsLink | five-stones/include/cache/redis_user_cache.hpp:61-74 | so after each command of `invalidateById`; at the end no key holds a value of the user, and others' keys are untouched |
| UserTable.RaceEnds | five-stones/include/cache/redis_user_cache.hpp:31-82 | without interleaving, the race is the one call after the other, in either order |
| UserTable.RaceOutcome | five-stones/include/cache/redis_user_cache.hpp:31-82 | which of the user's two keys remain after each interleaving of the two calls, and that no other key changes |
| UserTable.RaceKeepsLink | five-stones/include/cache/redis_user_cache.hpp:31-82 | the link survives an interleaving iff `setUser` starts after the whole invalidation, or ends before the deletion of the name by an invalidation that has seen the id key |
| UserTable.RaceKeepsLinkThroughout | five-stones/include/cache/redis_user_cache.hpp:31-82 | the link holds after every command of the race iff the same condition holds |
| UserTable.RaceOrphansName | five-stones/include/cache/redis_user_cache.hpp:61-74 | a race that leaves the name key alone, and no later invalidation of the user removes it |
| UserTable.RedisUserCache.GetByKey | five-stones/include/cache/redis_user_cache.hpp:117-133 | a hit iff the key is there, and then its value |
| UserTable.RedisUserCache.SetUser | five-stones/include/cache/redis_user_cache.hpp:31-45 | both keys set, and the store seen by others in between |
| UserTable.RedisUserCache.InvalidateById | five-stones/include/cache/redis_user_cache.hpp:61-74 | both keys gone, and every store seen by others in between |
| UserTable.UserTable.Insert | five-stones/include/db.hpp:44-66 | iff the name is free, a new row with 1000 points and no games under the next id; the id is spent either way |
| UserTable.UserTable.SelectById | five-stones/include/db.hpp:181-232 | the answer is the current row, with or without a cache, hit or miss; after a miss both keys of the user are cached |
| UserTable.UserTable.SelectByName | five-stones/include/db.hpp:124-178 | the answer is the current row of the user of that name, with or without a cache, hit or miss; after a miss both keys of the user are cached |
| UserTable.UserTable.Score | five-stones/include/db.hpp:235-279 | the row is updated unless a loss finds fewer than 30 points; then exactly the keys of this user leave the cache, which stays current |
| CacheRace.StepKeepsInv | five-stones/include/db.hpp:181-279 | every step of any thread keeps every cached value recent |
| CacheRace.HitsAreRecent | five-stones/include/db.hpp:181-232 | with fills outside the lock, every hit is one whole version of the user's row, current less than time to live plus read-to-fill gap ago |
| CacheRace.FillsBothKeys | five-stones/include/cache/redis_user_cache.hpp:31-45 | a fill puts the row read under both keys of its user for the whole time to live, and leaves all others alone |
| CacheRace.ReadsTheRow | five-stones/include/db.hpp:190-225 | a select that misses reads the current row of a registered user, and nothing else changes |
| CacheRace.RowSince | five-stones/include/db.hpp:234-279 | since any earlier point the row of a user is unchanged if no update of his went through, and counts more games otherwise |
| CacheRace.RunIsDated | five-stones/include/db.hpp:195-230 | every row read or cached is the row of its user at the point of the read noted with it |
| CacheRace.RunIsKeyed | five-stones/include/cache/redis_user_cache.hpp:31-82 | in every interleaving of writes, reads, fills and invalidations the two keys of a user are there only together and under his own name and id |
| CacheRace.HitsAreCurrent | five-stones/include/db.hpp:181-279 | at any point of any run, a cached row is the current one iff no update of that user has gone through since the read that it comes from |
| CacheRace.CacheStaysCurrent | five-stones/include/db.hpp:250-253 | with one write at a time, the whole cache is current throughout a run, but for the user whose invalidation is due, iff no select fills it with a row read before an update that went through and has been invalidated; failed updates owe no invalidation, and time, reads and fills may come at any point |
| CacheRace.OverlapIsStale | five-stones/include/db.hpp:227-230 | from every state and for every user, a late fill: read, score, invalidate, fill leaves the row of before the score in the cache |
| RoomIndex.HandleKeepsPlayers | five-stones/include/room.hpp:369-645 | no request changes a room's id, player count or set of players |
| RoomIndex.IndexIsSound | five-stones/include/room.hpp:671-750 | after any calls whatever, every mapped user plays in the live room mapped to, and every live room counts one or two players |
| RoomIndex.IdsAreNeverReused | five-stones/include/room.hpp:687-695 | the next room id is above that of every room ever alive |
| RoomIndex.RoomsOpenExactly | five-stones/include/room.hpp:671-697 | a room is created iff both are in the hall: under the next id, the first white, the second black and to move; users already mapped stay mapped as they were |
| RoomIndex.RoomsLiveUntilTwoExits | five-stones/include/room.hpp:741-750 | over any run, a created room is alive until it is removed on request or has counted two exits, and while alive its count is two less its exits |
| RoomIndex.UncleanDisagrees | five-stones/include/room.hpp:692-694 | a room created for a user who is mapped elsewhere has a player who is not mapped to it |
| RoomIndex.MapsAgreeExactly | five-stones/include/room.hpp:671-750 | throughout a run, users are mapped exactly to the live rooms they play in, iff every room that was created was created for users mapped nowhere at the time |
| RoomIndex.MapsAgree | five-stones/include/room.hpp:692-737 | under that condition: a user is mapped to a room iff the room is alive and the user plays in it |
| RoomIndex.DoubleMatchUnmaps | five-stones/include/room.hpp:693-750 | a run of two matches and two exits after which a player of a live room is mapped nowhere |
| RoomIndex.ServerScoresGames | five-stones/include/room.hpp:671-750 | all rooms of the server keep the room invariant in every run, and only whole games are scored |
| RoomIndex.ServerConservesScores | five-stones/include/db.hpp:44-66 | after any run of the server, with any number of rooms and users registering in between, the scores of n users add up to 1000 n, plus 30 for each refused loss |
| RoomIndex.RoomsRunAlone | five-stones/include/server.hpp:626-653 | every live room is in a state of a timely run of its own from the state in which it was opened, so all theorems about one room hold of it |
| RoomIndex.RoomsScoreAlone | five-stones/include/room.hpp:369-645 | for every room, live or gone, the server scores exactly what the room's own run scores |
| RoomIndex.NoEventNoScore | five-stones/include/room.hpp:671-750 | calls that reach no room score nothing |
| RoomIndex.RequestsReachOneRoom | five-stones/include/server.hpp:633-652 | a request changes the sender's room alone, as that room handles it; without a room it changes nothing |
| RoomIndex.LiveRoomsTell | five-stones/include/room.hpp:394-470 | every live room of two different users keeps the room invariant, and its board, turn and clocks are those of the moves accepted in it since the last start |
| Senders.AcceptedNamesActor | five-stones/include/room.hpp:369-645 | an accepted request names the user who acts by it; in a timed game this is the player to move |
| Senders.ActingIsNaming | five-stones/include/server.hpp:626-653 | throughout a run, whoever acts in a room has sent the request himself iff every accepted request names its sender |
| Senders.SevenMovesForEight | five-stones/include/server.hpp:633-652 | a run in which one user sends a request that places the other's stone |
| Senders.OneSenderRematches | five-stones/include/server.hpp:633-652 | in any room whose game is over, one sender can invite as one player and accept as the other |
| RoomManager.RoomManager.constructor | five-stones/include/room.hpp:653-664 | no rooms, no users, next id 1 |
| RoomManager.RoomManager.CreateRoom | five-stones/include/room.hpp:671-697 | null iff a player is not in the hall; else a new room under the next id, inserted in both maps without overwriting |
| RoomManager.RoomManager.GetRoomByRid | five-stones/include/room.hpp:700-707 | the room with this id, or null |
| RoomManager.RoomManager.GetRoomByUid | five-stones/include/room.hpp:710-722 | the live room that the user is mapped to, or null |
| RoomManager.RoomManager.RemoveRoom | five-stones/include/room.hpp:725-738 | the room goes, and the mappings of its two players |
| RoomManager.RoomManager.RemoveRoomUser | five-stones/include/room.hpp:741-750 | one player leaves one room, which goes with its last counted player; all other rooms stay as they are |
| RoomManager.RoomManager.HandleMessage | five-stones/include/server.hpp:626-653 | the sender's room handles the request, all other rooms stay as they are; no reply without a room |
| MatchQueue.WithoutKeepsOthers | five-stones/include/match_queue.hpp:61-65 | removing a value keeps all others with their multiplicity |
| MatchQueue.MatchQueue.Size | five-stones/include/match_queue.hpp:19-23 | the number of entries |
| MatchQueue.MatchQueue.Empty | five-stones/include/match_queue.hpp:26-30 | true iff there is no entry |
| MatchQueue.MatchQueue.Wait | five-stones/include/match_queue.hpp:33-39 | passes iff there are two entries, else one more sleeper; nobody sleeps while there are two |
| MatchQueue.MatchQueue.Push | five-stones/include/match_queue.hpp:42-47 | the entry is last and nobody sleeps |
| MatchQueue.MatchQueue.Pop | five-stones/include/match_queue.hpp:50-58 | the first entry, or false when there is none |
| MatchQueue.MatchQueue.Remove | five-stones/include/match_queue.hpp:61-65 | all copies go, the others stay in order |
| Matching.TurnConserves | five-stones/include/match.hpp:30-86 | one step of a worker loses and doubles no token: what it held and its queue had is held, queued, or spent |
| Matching.StepConserves | five-stones/include/match.hpp:30-143 | each step keeps every player's account, admits only by `add`, and revives nobody |
| Matching.TokensAreConserved | five-stones/include/match.hpp:30-143 | in every interleaving, for every player: admitted = queued + in hand + matched + dropped as offline + removed + lost to a failed lookup |
| Matching.OneTokenEach | five-stones/include/match.hpp:102-122 | if `add` is only issued for a player without a live token, no player ever has two |
| Matching.RoomsHaveTwoPlayers | five-stones/include/match.hpp:66-73 | then every room is created for two different players |
| Matching.CarefulIsExact | five-stones/include/match.hpp:102-122 | no player has two live tokens at any point of a run iff `add` was never admitted for a player who had one |
| Matching.DoubleAddMatchesOne | five-stones/include/match.hpp:39-73 | a run in which a player is added twice and matched with himself |
| Matching.TheFirstTwoAreMatched | five-stones/include/match.hpp:38-73 | in every band, a worker at the head of its loop can go on to match the first two of its queue, in their order, if both are online and get a room |
| Matching.QueuesHoldUids | five-stones/include/match.hpp:124-143 | removing a user from the machine's queue is `remove` on the queue of uids |
| Matching.RunIsTidy | five-stones/include/match.hpp:35-67 | queues and hands hold only tokens of their band, and sleepers have short queues, in every interleaving |
| Matching.NoLostWakeup | five-stones/include/match_queue.hpp:33-47 | a worker asleep on its queue means fewer than two players waiting there |
| Matching.RoomsAreOfOneBand | five-stones/include/match.hpp:113-119 | both players of every room were last enqueued on scores of the same band |
| Lobby.RoomsAreMatches | five-stones/include/match.hpp:66-73 | through any run of matcher and rooms, the k-th match is the k-th room, and a live room is between the two players matched for it |
| Lobby.OpeningSpends | five-stones/include/match.hpp:66-85 | the players who get a room have one token less each, all others as many |
| Lobby.ApartIsExact | five-stones/include/match.hpp:102-122 | throughout a run no player waits twice, or waits while mapped to a room, iff `add` is never admitted for a player who waits or is mapped |
| Lobby.FreeIsCleanAndCareful | five-stones/include/match.hpp:66-122 | then rooms are only created for users mapped nowhere |
| Lobby.LobbyIsInOrder | five-stones/include/room.hpp:671-697 | then users are mapped exactly to the live rooms they play in, and every live room is between the two different players of its match |
| Matcher.RunsGoOn | five-stones/include/match.hpp:32-86 | steps taken after a run make a longer run, so every method below stays within the runs of the machine |
| Matcher.PuttingBack | five-stones/include/match.hpp:102-122 | the steps of `add` in a worker: queued by band with the score just read, or lost when it cannot be read |
| Matcher.Matcher.Add | five-stones/include/match.hpp:102-122 | the uid is last in the queue of its band, other queues unchanged; nothing when the score cannot be read |
| Matcher.Matcher.AddedByTheNetwork | five-stones/include/server.hpp:568-571 | for the network thread, that is two steps of the machine |
| Matcher.Matcher.Del | five-stones/include/match.hpp:124-143 | the uid is gone from the queue of its band, other queues unchanged: the two steps of the network thread |
| Matcher.Matcher.Await | five-stones/include/match.hpp:35-36 | the worker goes on iff there are two entries, and else sleeps |
| Matcher.Matcher.AddBack | five-stones/include/match.hpp:69-70 | the uid is last in the queue of the band of the score just read, or lost when none can be read; nothing else happens to queues or accounts |
| Matcher.Matcher.PopTwo | five-stones/include/match.hpp:39-49 | with two players in the queue the first two are in hand; a single one is queued again, or lost when his score cannot be read; nothing else happens |
| Matcher.Matcher.LookUp | five-stones/include/match.hpp:52-64 | going on iff both are online; else the first one found offline is dropped and the other queued again on the score just read, or lost when it cannot be read; nothing else happens |
| Matcher.Matcher.OpenRoom | five-stones/include/match.hpp:67-73 | matched iff the room was created, else both queued again, the first one first, each on the score just read or lost without one |
| Matcher.Matcher.PairUp | five-stones/include/match.hpp:52-73 | success iff both are online and the room is created; queues, matches, dropped and lost are exactly those of the lookups and the room |
| Matcher.Matcher.MatchTwo | five-stones/include/match.hpp:38-85 | the loop body is a sequence of the worker's own steps that ends at the head of the loop; it reports the first two of the queue as matched iff there are two, both online, and a room is created; every player it took is matched, dropped, queued again or lost as his answers say |
| Sessions.Session.constructor | five-stones/include/session.hpp:30-34 | not logged in, nobody, no timer |
| Sessions.SessionManager.constructor | five-stones/include/session.hpp:63-66 | no sessions, next id 1 |
| Sessions.SessionManager.CreateSession | five-stones/include/session.hpp:74-83 | a new session of this user without deadline under the next id, in place of any other; if the id was free, still no timer is orphaned |
| Sessions.SessionManager.AppendSession | five-stones/include/session.hpp:86-94 | nothing for null; else the session with its deadline under its own id, in place of any other, and the next id above it; if the id was free, still no timer is orphaned |
| Sessions.SessionManager.GetSessionBySsid | five-stones/include/session.hpp:97-104 | the session with this id, or null |
| Sessions.SessionManager.RemoveSession | five-stones/include/session.hpp:107-111 | this session goes, the others stay; a timer is orphaned iff the session had one pending |
| Sessions.SessionManager.Fire | five-stones/include/session.hpp:134-140 | the timer's session goes; with no orphaned timers, this is a session whose current deadline is that timer's and has come, so a session without deadline is never removed |
| Sessions.SessionManager.CancelTimer | five-stones/include/session.hpp:149-157 | no timer of this session is left, and no other deadline changes |
| Sessions.SessionManager.StartTimer | five-stones/include/session.hpp:132-141 | the session's one timer gives it the new deadline, and no other deadline changes |
| Sessions.SessionManager.SetSessionExpireTime | five-stones/include/session.hpp:114-172 | whatever timer the session had, afterwards its deadline is the new one and no other changes; every handle is a live timer of its session and every live timer is the handle of a present session |
| SessionServer.StepAgrees | five-stones/include/server.hpp:220-230 | each call keeps memory and cache in agreement with the users that ids were issued to, and the next id above all of them |
| SessionServer.SessionsKeepTheirUsers | five-stones/include/server.hpp:281-296 | below 2^64 - 1 logins: the next id is fresh and above all ids in memory and cache, a lookup yields the user the id was issued to, and restoring does not change the answer |
| SessionServer.IssuesAreForever | five-stones/include/session.hpp:74-83 | an id keeps its user for the rest of the run |
| SessionServer.SessionsLastUntilTheirDeadline | five-stones/include/session.hpp:114-172 | a session stays, with user and deadline, until the deadline last given to it; without one it stays |
| Lifetimes.RunShowsEveryLife | five-stones/include/server.hpp:156-308 | after any run, memory and cache hold of each session exactly what its own calls say: 30 s in both from login or restoration, the last deadline set since, nothing after its timer has fired, no cache key once it stays for good |
| Lifetimes.LookupsAnswerExactly | five-stones/include/server.hpp:281-305 | a lookup finds a session iff it is in memory, or else in the cache and not expired, and answers the user of its login |
| Lifetimes.ForeverIsForever | five-stones/include/session.hpp:146-151 | a session set to stay for good is found, with its user, at any later time, unless another deadline is set |
| Lifetimes.DeadlinesAreExact | five-stones/include/session.hpp:152-170 | a session given ms milliseconds has exactly that deadline and is found until then |
| Lifetimes.TimersFireExactly | five-stones/include/session.hpp:134-140 | a timer takes its session away at the deadline or later, not before, and no other |
| SessionServer.RedisSessionCache.SetSession | five-stones/include/cache/redis_session_cache.hpp:19-26 | the uid under the key, expiring iff the time to live is positive |
| SessionServer.RedisSessionCache.GetSession | five-stones/include/cache/redis_session_cache.hpp:37-50 | a hit iff the key is there and has not expired, and then its uid |
| SessionServer.RedisSessionCache.DelSession | five-stones/include/cache/redis_session_cache.hpp:60-66 | the key is gone |
| SessionServer.RedisSessionCache.ExpireSession | five-stones/include/cache/redis_session_cache.hpp:76-84 | a new time to live for a key that is there, else nothing |
| SessionServer.SessionServer.SessionExpireWithCache | five-stones/include/server.hpp:156-167 | memory gets the new deadline; the cache forgets a session kept for good and renews one with a positive time |
| SessionServer.SessionServer.LogIn | five-stones/include/server.hpp:220-230 | a session of this user in memory and cache, with the 30 s timeout; if the id was free, still no timer is orphaned |
| SessionServer.SessionServer.RestoreSession | five-stones/include/server.hpp:289-294 | the session is back in memory under its old id, with a new timer, and the next id above it |
| SessionServer.SessionServer.GetSession | five-stones/include/server.hpp:281-307 | from memory, else restored from the cache, else null |
| StringUtil.FindsTheFirst | five-stones/include/util.hpp:143 | the position found is the first occurrence, and none found means there is none |
| StringUtil.Split | five-stones/include/util.hpp:130-156 | the greedy recursive split with empty pieces dropped; an empty separator leaves the string whole |
| StringUtil.SplitIsClean | five-stones/include/util.hpp:149-152 | every piece of any string is nonempty and free of the separator |
| StringUtil.PiecesFit | five-stones/include/util.hpp:141-154 | the pieces together are no longer than the string |
| StringUtil.BorderBreaksSplit | five-stones/include/util.hpp:141-154 | a separator with a proper border fails to split two tokens that it joined |
| StringUtil.SplitUndoesJoin | five-stones/include/util.hpp:130-156 | split undoes join for all lists of nonempty separator-free tokens iff the separator has no proper border |
| StringUtil.SplitDropsEmpty | five-stones/include/util.hpp:141-154 | for a separator without a proper border, any joined list of separator-free tokens comes back without its empty ones |
| StringUtil.EveryStringIsAJoin | five-stones/include/util.hpp:141-154 | every string is such a join |
| StringUtil.EmptySeparatorSplitsNothing | five-stones/include/util.hpp:133-137 | an empty separator leaves every string whole |
| Cookies.GetCookieVal | five-stones/include/server.hpp:238-255 | found iff some piece splits into the key and one value, and then the first such value |
| Cookies.AssignmentSplits | five-stones/include/server.hpp:244-248 | name=value splits into exactly name and value |
| Cookies.LookupFindsFirst | five-stones/include/server.hpp:238-255 | in a cookie string rendered as in section 4.2.1 of RFC 6265, the value of the first pair of that name |
| Cookies.LookupInAnyCookie | five-stones/include/server.hpp:238-255 | in any cookie string at all, the value of the first part whose nonempty fields are the name and one value; other parts are passed over |
| Cookies.ParseUndoesPrint | five-stones/include/server.hpp:281 | reading a printed decimal gives the number back, and a printed decimal has no leading zero |
| Cookies.SsidRoundTrip | five-stones/include/server.hpp:232-233 | the session id set by a login is read back unchanged among any cookies that do not use its name before it |
| Server.CookieLeadsToUser | five-stones/include/server.hpp:197-308 | the cookie of a login leads, at any later time of the run and through expiry and restoration, to the user who logged in or to nobody; and to the user while less than 30 s have passed and nobody has set the session's deadline |

## Left out

- Sockets, HTTP, static files, JSON, SQL text, Redis transport errors, logging, metrics, configuration: input and output.
- Drawing, the client's countdown, the chat display and the hall page: no part of the replicated state.
- Requests with a `winner` field of their own; see the readings above.
- Usernames in broadcasts; the chat word filter, which is a flag of the request; password checks at login and missing name or password at registration.
- The set of spectators' connections (`add_spectator`, `remove_spectator`, `remove_spectator_user`) and `get_rooms_by_state`: set operations only.
- The presence maps of `online.hpp`: their answers are inputs of each call.
- Calls of a room on the user table are returned as a list, in order, rather than made through a pointer.
- Room.Room.Five: the two loops of the program share the method `Arm`, called once for each side.
- Integer widths: millisecond and nanosecond counts, room ids and the two 32-bit counters do not wrap; session ids do, modulo 2^64.
- Room locks: a room handles one call at a time.
- Matcher.Matcher.MatchTwo: other threads run between the steps in `Matching`, not inside this method, which shows that the loop body consists of those steps; the endless loop around it and the two success messages are not modelled.
- Matcher.Matcher.Del: no claim that the user is in no queue afterwards; the score may have moved to another band since `add`, or a worker may hold the user.
- UserTable.UserTable.SelectById: one step here; selects that interleave with writes are in `CacheRace`, where `setUser` with its time to live is one step and so is an invalidation.
- UserTable.RaceKeepsLink: one `setUser` against one `invalidateById` of the same user; three or more calls at once are not interleaved command by command.
- `invalidateByName`, which nothing calls.
- Independent eviction of one of a user's two keys, and an invalidation that fails half-way.
- A process restart with sessions left in the cache.
- Session ids after a wrap: `CreateSession` then overwrites a session, as the program does, and may orphan its timer; which user an id belongs to is only claimed below 2^64 - 1 logins.
- Sessions.SessionManager.AppendSession: a session's handle is one that this manager gave it; no other code makes handles.
- Cookies.SsidRoundTrip: decimal digits only; what `std::stoull` does with other text is not modelled.
- RoomIndex.IndexIsSound: a room is removed when two exits have been counted; a player who comes back is not counted again, so it does not say that both players are gone.
