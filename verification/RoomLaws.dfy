/** When a room accepts what, in terms of its raw fields and plain numbers; and a whole game. */
module RoomLaws {
  import opened Board
  import opened Ledger
  import opened RoomModel
  import opened RoomRuns
  import opened RoomTheorems

  /** Milliseconds since the turn began. */
  function Spent(s: State, now: nat): nat
    requires s.turnStart <= now
  {
    (now - s.turnStart) / 1000000
  }

  /** The clock of the player to move. */
  function Remaining(s: State): nat {
    if s.turn == s.white then s.whiteLeft else s.blackLeft
  }

  predicate IsPut(s: State, e: Event) {
    e.act.Ask? && e.act.roomId == s.id && e.act.req.PutChess? && s.turnStart <= e.now
  }

  /** The game goes on, and once it is timed the request names the player to move. */
  predicate MayMove(s: State, uid: Uid) {
    s.status == GameStart && (s.timing ==> uid == s.turn)
  }

  predicate InTime(s: State, now: nat)
    requires s.turnStart <= now
  {
    s.timing ==> Spent(s, now) < 30000 && Spent(s, now) < Remaining(s)
  }

  // ----- put_chess -----

  /** A stone is placed exactly when the game goes on, the player may move and is in time, the
      cell is on the board and free, and both players are online. */
  lemma MovesAreAcceptedExactly(s: State, e: Event)
    requires Sane(s) && IsPut(s, e)
    ensures var r, online := e.act.req, e.act.online;
            PlacesStone(Step(s, e).msg) <==>
              && MayMove(s, r.uid) && InTime(s, e.now)
              && 0 <= r.row < 15 && 0 <= r.col < 15 && Pos(r.row, r.col) !in s.board
              && s.white in online && s.black in online
  {
  }

  /** The stone is the only one that is added, in the colour of the mover. If there is now a
      five on the board the mover's colour has won. Else the turn passes, both clocks start
      at 600 s with the first move, and later the player to move pays for the time spent. */
  lemma MovesHaveTheirEffect(s: State, e: Event)
    requires Sane(s) && IsPut(s, e) && PlacesStone(Step(s, e).msg)
    ensures var r, out := e.act.req, Step(s, e);
            var c := if r.uid == s.white then White else Black;
            var placed := s.(board := s.board[Pos(r.row, r.col) := c]);
            var winner, loser := if c == White then s.white else s.black, if c == White then s.black else s.white;
            var ms := Spent(s, e.now);
            if HasFive(placed.board) then
              && out.state == placed.(status := GameOver) && out.msg.winner == winner && out.msg.how == FiveInARow
              && out.calls[0] == Win(winner) && (s.white != s.black ==> out.calls == [Win(winner), Lose(loser)])
            else
              && out.msg.winner == NOBODY && out.msg.how == NoWin && out.calls == []
              && out.state == placed.(
                   timing := true, turn := if r.uid == s.white then s.black else s.white, turnStart := e.later,
                   whiteLeft := if !s.timing then 600000 else if s.turn == s.white then s.whiteLeft - ms
                                else s.whiteLeft,
                   blackLeft := if !s.timing then 600000 else if s.turn == s.white then s.blackLeft
                                else s.blackLeft - ms)
  {
    var r := e.act.req;
    WinsMeansFive(s, r.uid, Pos(r.row, r.col));
  }

  /** A move is judged too late exactly when the player to move asks after 30 s or more, or
      when no more is left on the clock; and he loses. */
  lemma LateMovesLoseExactly(s: State, e: Event)
    requires IsPut(s, e)
    ensures var ms, out := Spent(s, e.now), Step(s, e);
            && (out.msg.TimedOut? <==>
                  s.status == GameStart && s.timing && e.act.req.uid == s.turn && (ms >= 30000 || Remaining(s) <= ms))
            && (out.msg.TimedOut? ==>
                  && out.state == s.(status := GameOver) && out.msg.uid == s.turn && (out.msg.byStep <==> ms >= 30000)
                  && out.msg.winner == (if s.turn == s.white then s.black else s.white)
                  && out.calls == [Win(out.msg.winner), Lose(s.turn)])
  {
  }

  /** A move that would count, on a cell free or not, ends the game exactly when a player is
      found offline, white being looked at first; no stone is placed. */
  lemma OfflineMovesEndExactly(s: State, e: Event)
    requires Sane(s) && IsPut(s, e)
    ensures var r, out, online := e.act.req, Step(s, e), e.act.online;
            && (out.msg.PutChessDone? && out.msg.how == Offline <==>
                  && MayMove(s, r.uid) && InTime(s, e.now) && 0 <= r.row < 15 && 0 <= r.col < 15
                  && (s.white !in online || s.black !in online))
            && (out.msg.PutChessDone? && out.msg.how == Offline ==>
                  && out.state == s.(status := GameOver)
                  && out.msg.winner == (if s.white !in online then s.black else s.white))
  {
  }

  /** Every other put_chess is refused, and changes and scores nothing. */
  lemma OtherMovesAreRefused(s: State, e: Event)
    requires Sane(s) && IsPut(s, e)
    ensures var out := Step(s, e);
            && (out.msg.Refused? <==> !out.msg.PutChessDone? && !out.msg.TimedOut?)
            && (out.msg.Refused? ==> out.state == s && out.calls == [])
  {
  }

  /** The broadcast of a move carries the clocks as they are after it. */
  lemma ClocksAreBroadcast(s: State, e: Event)
    requires Sane(s) && IsPut(s, e) && Step(s, e).msg.PutChessDone?
    ensures var m, t := Step(s, e).msg, Step(s, e).state;
            && m.clock == Clock(t.timing, t.whiteLeft, t.blackLeft)
            && m.uid == e.act.req.uid && m.row == e.act.req.row && m.col == e.act.req.col
  {
  }

  // ----- timeout, rematch, chat, exit -----

  /** A timeout request is accepted exactly when the player to move asks in a timed game with
      at most 200 ms to go. */
  lemma TimeoutsAreAcceptedExactly(s: State, uid: Uid, online: set<Uid>, now: nat, later: nat)
    requires s.turnStart <= now
    ensures var ms, out := Spent(s, now), Handle(s, s.id, Timeout(uid), online, now, later);
            && (out.msg.TimedOut? <==>
                  && s.status == GameStart && s.timing && uid == s.turn
                  && (ms + 200 >= 30000 || Remaining(s) <= ms + 200))
            && (out.msg.TimedOut? ==>
                  && out.state == s.(status := GameOver) && out.msg.uid == s.turn
                  && (out.msg.byStep <==> ms + 200 >= 30000)
                  && out.msg.winner == (if s.turn == s.white then s.black else s.white)
                  && out.calls == [Win(out.msg.winner), Lose(s.turn)])
            && (!out.msg.TimedOut? ==> out.msg.Refused? && out.state == s && out.calls == [])
  {
  }

  /** An invitation stands exactly when a player makes it after the game, with none pending and
      both online. */
  lemma InvitesAreAcceptedExactly(s: State, uid: Uid, online: set<Uid>, now: nat, later: nat)
    ensures var out := Handle(s, s.id, RematchInvite(uid), online, now, later);
            && (!out.msg.Refused? <==>
                  && s.status == GameOver && (uid == s.white || uid == s.black) && s.inviter == 0
                  && s.white in online && s.black in online)
            && out.calls == []
            && if out.msg.Refused? then out.state == s
               else out.state == s.(inviter := uid) && out.msg == RematchInvited(uid, s.white, s.black)
  {
  }

  /** A new game starts exactly when a player accepts another's pending invitation after the
      game, with both online; and it starts from the beginning with the colours swapped. */
  lemma RematchesStartExactly(s: State, uid: Uid, online: set<Uid>, now: nat, later: nat)
    ensures var out := Handle(s, s.id, RematchAccept(uid), online, now, later);
            && (!out.msg.Refused? <==>
                  && s.status == GameOver && s.inviter != 0 && uid != s.inviter && (uid == s.white || uid == s.black)
                  && s.white in online && s.black in online)
            && out.calls == []
            && if out.msg.Refused? then out.state == s
               else
                 && out.msg == RematchStarted(s.black, s.white)
                 && out.state == State(s.id, GameStart, s.playerCount, s.black, s.white, map[],
                                       false, s.white, now, 600000, 600000, 0)
  {
  }

  /** A request for another room, a chat message and an unknown request change nothing; only
      a chat message without banned words is passed on. */
  lemma OthersChangeNothing(s: State, roomId: nat, req: Request, online: set<Uid>, now: nat, later: nat)
    requires roomId != s.id || req.Chat? || req.Unknown?
    ensures var out := Handle(s, roomId, req, online, now, later);
            && out.state == s && out.calls == []
            && (out.msg.Refused? <==> !(roomId == s.id && req.Chat? && !req.banned))
            && (!out.msg.Refused? ==> out.msg == ChatSent(req.uid))
  {
  }

  /** Whoever leaves a game in progress ends it, and his rival wins; after a game the exit is
      announced and nobody scores; either way one counted player less. */
  lemma ExitsAlwaysCount(s: State, uid: Uid)
    ensures var out := Exit(s, uid);
            && out.state == s.(status := GameOver, playerCount := if s.playerCount == 0 then 0 else s.playerCount - 1)
            && if s.status == GameStart then
                 var winner := if uid == s.white then s.black else s.white;
                 var loser := if uid == s.white then s.white else s.black;
                 && out.msg == PutChessDone(uid, -1, -1, winner, Offline, NoClock)
                 && out.calls == [Win(winner), Lose(loser)]
               else out.msg == PeerLeft(uid) && out.calls == []
  {
  }

  // ----- The fifth stone -----

  /** Whoever may move and fills the gap in a line of five that starts at q, in any direction,
      with both players online and in time, has won. */
  lemma TheFifthStoneWins(s: State, e: Event, q: Pos, d: Dir, k: int)
    requires Sane(s) && IsPut(s, e) && MayMove(s, e.act.req.uid) && InTime(s, e.now)
    requires s.white in e.act.online && s.black in e.act.online
    requires var p := Pos(e.act.req.row, e.act.req.col);
             p.OnBoard() && p !in s.board && d.Moves() && 0 <= k < 5 && p == q.Shift(k, d)
    requires forall j | 0 <= j < 5 && j != k :: At(s.board, q.Shift(j, d), s.ColorOf(e.act.req.uid))
    ensures var out := Step(s, e);
            && out.state.status == GameOver && out.msg.PutChessDone? && out.msg.how == FiveInARow
            && out.msg.winner == s.PlayerOf(s.ColorOf(e.act.req.uid))
  {
    var c := s.ColorOf(e.act.req.uid);
    var b := s.board[Pos(e.act.req.row, e.act.req.col) := c];
    forall j | 0 <= j < 5 ensures At(b, q.Shift(j, d), c) {
    }
    assert Line(b, q, d, c);
    assert HasFive(b);
    MovesAreAcceptedExactly(s, e);
    MovesHaveTheirEffect(s, e);
  }

  // ----- A game that black wins with the ninth stone -----

  /** Black, user 8, fills row 7 from the left; white, user 7, fills row 0. */
  function Mover(i: nat): Uid {
    if i % 2 == 0 then 8 else 7
  }

  function CellOf(i: nat): Pos {
    Pos(if i % 2 == 0 then 7 else 0, i / 2)
  }

  /** The i-th move, 2 s after the one before. */
  function MoveEvent(i: nat): Event {
    Event(2000000000 * i, 2000000000 * i, Ask(1, PutChess(Mover(i), CellOf(i).row, CellOf(i).col), {7, 8}))
  }

  function Script(n: nat): seq<Event> {
    if n == 0 then [] else Script(n - 1) + [MoveEvent(n - 1)]
  }

  function BoardAfter(n: nat): Stones {
    if n == 0 then map[] else BoardAfter(n - 1)[CellOf(n - 1) := if n % 2 == 1 then Black else White]
  }

  lemma {:induction false} BoardAfterIs(n: nat, p: Pos)
    ensures p in BoardAfter(n) <==>
              (p.row == 7 && 0 <= p.col && 2 * p.col < n) || (p.row == 0 && 0 <= p.col && 2 * p.col + 1 < n)
    ensures p in BoardAfter(n) ==> BoardAfter(n)[p] == if p.row == 7 then Black else White
  {
    if n == 0 {
    } else {
      BoardAfterIs(n - 1, p);
    }
  }

  /** Four stones of each colour in a row are no five. */
  lemma FourAreNoFive(n: nat)
    requires n <= 8
    ensures !HasFive(BoardAfter(n))
  {
    var b := BoardAfter(n);
    forall q: Pos, d: Dir, c: Color | d.Moves() ensures !Line(b, q, d, c) {
      BoardAfterIs(n, q.Shift(0, d));
      BoardAfterIs(n, q.Shift(4, d));
      assert Line(b, q, d, c) ==> At(b, q.Shift(0, d), c) && At(b, q.Shift(4, d), c);
    }
  }

  ghost predicate IsAfter(s: State, n: nat) {
    && s.id == 1 && s.status == GameStart && s.white == 7 && s.black == 8 && s.board == BoardAfter(n)
    && s.inviter == 0 && (s.timing <==> n > 0)
    && (n > 0 ==> s.turn == Mover(n) && s.turnStart == 2000000000 * (n - 1)
                  && s.whiteLeft <= 600000 <= s.whiteLeft + 2000 * n && s.blackLeft <= 600000 <= s.blackLeft + 2000 * n)
    && (n == 0 ==> s.turn == 8 && s.turnStart == 0)
  }

  lemma AfterIsSane(s: State, n: nat)
    requires IsAfter(s, n) && n <= 8
    ensures Sane(s)
  {
    FourAreNoFive(n);
    forall p | p in s.board ensures p.OnBoard() {
      BoardAfterIs(n, p);
    }
  }

  lemma BoardGrows(n: nat)
    ensures BoardAfter(n)[CellOf(n) := if Mover(n) == 7 then White else Black] == BoardAfter(n + 1)
  {
  }

  lemma TwoSecondsEach(s: State, n: nat)
    requires IsAfter(s, n)
    ensures IsPut(s, MoveEvent(n)) && MayMove(s, Mover(n)) && (n > 0 ==> Spent(s, MoveEvent(n).now) == 2000)
  {
  }

  lemma OneMoreIsPlaced(s: State, n: nat)
    requires IsAfter(s, n) && n < 8 && Sane(s) && IsPut(s, MoveEvent(n))
    ensures PlacesStone(Step(s, MoveEvent(n)).msg)
  {
    TwoSecondsEach(s, n);
    BoardAfterIs(n, CellOf(n));
    assert Pos(CellOf(n).row, CellOf(n).col) == CellOf(n);
    MovesAreAcceptedExactly(s, MoveEvent(n));
  }

  lemma OneMoreMove(s: State, n: nat)
    requires IsAfter(s, n) && n < 8
    ensures IsAfter(Step(s, MoveEvent(n)).state, n + 1)
  {
    AfterIsSane(s, n);
    TwoSecondsEach(s, n);
    OneMoreIsPlaced(s, n);
    BoardGrows(n);
    FourAreNoFive(n + 1);
    MovesHaveTheirEffect(s, MoveEvent(n));
  }

  lemma TheGameStarts()
    ensures IsAfter(Run(Opened(1, 7, 8, 0), Script(0)), 0)
  {
    assert Script(0) == [];
  }

  lemma OneMoreOfTheGame(n: nat, s: State)
    requires n < 8 && s == Run(Opened(1, 7, 8, 0), Script(n)) && IsAfter(s, n)
    ensures IsAfter(Run(Opened(1, 7, 8, 0), Script(n + 1)), n + 1)
  {
    OneMoreInScript(n);
    OneMoreMove(s, n);
  }

  lemma {:induction false} TheGameGoesOn(n: nat)
    requires n <= 8
    ensures IsAfter(Run(Opened(1, 7, 8, 0), Script(n)), n)
  {
    if n == 0 {
      TheGameStarts();
    } else {
      TheGameGoesOn(n - 1);
      OneMoreOfTheGame(n - 1, Run(Opened(1, 7, 8, 0), Script(n - 1)));
    }
  }

  lemma {:induction false} ScriptLength(n: nat)
    ensures |Script(n)| == n
  {
    if n == 0 {
    } else {
      ScriptLength(n - 1);
    }
  }

  /** The ninth move. */
  lemma TheNinthWins(s: State)
    requires IsAfter(s, 8)
    ensures var out := Step(s, MoveEvent(8));
            && out.state.status == GameOver && out.msg.PutChessDone? && out.msg.how == FiveInARow
            && out.msg.winner == 8 && out.calls == [Win(8), Lose(7)]
  {
    var p, e := CellOf(8), MoveEvent(8);
    assert Pos(e.act.req.row, e.act.req.col) == p == Pos(7, 4);
    AfterIsSane(s, 8);
    BoardAfterIs(8, p);
    var q := Pos(7, 0);
    forall j | 0 <= j < 5 && j != 4 ensures At(s.board, q.Shift(j, RIGHT), Black) {
      BoardAfterIs(8, q.Shift(j, RIGHT));
    }
    TheFifthStoneWins(s, e, q, RIGHT, 4);
    StepScores(s, e);
  }

  lemma OneMoreInScript(n: nat)
    ensures var s0 := Opened(1, 7, 8, 0);
            && Script(n + 1) != [] && LastStep(s0, Script(n + 1)) == Step(Run(s0, Script(n)), MoveEvent(n))
            && Run(s0, Script(n + 1)) == LastStep(s0, Script(n + 1)).state
  {
    ScriptLength(n);
    assert Script(n + 1)[..n] == Script(n);
  }

  /** Eight moves, four of each player side by side, and the game is still on; with the ninth,
      black has five in a row and wins, and it is scored. */
  lemma BlackWinsWithFive() returns (evs: seq<Event>)
    ensures var s0 := Opened(1, 7, 8, 0);
            && |evs| == 9 && Run(s0, evs[..8]).status == GameStart && Run(s0, evs[..8]).board == BoardAfter(8)
            && Run(s0, evs).status == GameOver
            && LastStep(s0, evs).msg.PutChessDone? && LastStep(s0, evs).msg.how == FiveInARow
            && LastStep(s0, evs).msg.winner == 8
            && LastStep(s0, evs).calls == [Win(8), Lose(7)]
  {
    evs := Script(9);
    ScriptLength(9);
    ScriptLength(8);
    assert evs[..8] == Script(8);
    TheGameGoesOn(8);
    TheNinthWins(Run(Opened(1, 7, 8, 0), Script(8)));
    OneMoreInScript(8);
  }
}
