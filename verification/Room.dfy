/** The room: its fields change in place, and every method is proved to do what the
    corresponding function of RoomModel says. */
module Room {
  import opened Board
  import opened Grid
  import opened Ledger
  import opened RoomModel

  datatype PutReply = BadPut(why: Reason) | GoodPut(winner: Uid, how: PutEnd)

  class Room {
    const id: nat
    var statu: Status
    var playerCount: nat
    var white: Uid
    var black: Uid
    const cells: array2<Cell>
    var timing: bool
    var turn: Uid
    var turnStart: nat
    var whiteLeft: nat
    var blackLeft: nat
    var inviter: Uid

    ghost predicate Valid() {
      IsGrid(cells)
    }

    ghost function Model(): State
      requires Valid()
      reads this, cells
    {
      State(id, statu, playerCount, white, black, StonesIn(cells),
            timing, turn, turnStart, whiteLeft, blackLeft, inviter)
    }

    /** The constructor together with add_white_user and add_black_user. */
    constructor (rid: nat, whiteUser: Uid, blackUser: Uid, now: nat)
      ensures Valid() && fresh(cells)
      ensures Model() == Opened(rid, whiteUser, blackUser, now)
    {
      id := rid;
      statu, playerCount, white, black := GameStart, 2, whiteUser, blackUser;
      cells := new Cell[SIZE, SIZE]((i, j) => Empty);
      timing, turn, turnStart, whiteLeft, blackLeft, inviter := false, blackUser, now, 0, 0, NOBODY;
      new;
      SameStones(StonesIn(cells), map[]);
    }

    /** Step away from a cell until the board ends or the colour changes. */
    method Arm(row: int, col: int, d: Dir, color: Color) returns (steps: nat)
      requires Valid() && d.Moves()
      ensures Walked(StonesIn(cells), Pos(row, col), d, color, steps)
      ensures !At(StonesIn(cells), Pos(row, col).Shift(1 + steps, d), color)
    {
      steps := 0;
      var searchRow, searchCol := row + d.dr, col + d.dc;
      while Holds(cells, searchRow, searchCol, color)
        invariant Pos(searchRow, searchCol) == Pos(row, col).Shift(1 + steps, d)
        invariant Walked(StonesIn(cells), Pos(row, col), d, color, steps)
        decreases if Pos(searchRow, searchCol).OnBoard() then Runway(Pos(searchRow, searchCol), d) else 0
      {
        StepIsCloserToTheEdge(Pos(row, col), d, 1 + steps);
        WalkOn(StonesIn(cells), Pos(row, col), d, color, steps);
        steps := steps + 1;
        searchRow, searchCol := searchRow + d.dr, searchCol + d.dc;
      }
    }

    /** Count the stone itself and those of its colour on both sides. */
    method Five(row: int, col: int, d: Dir, color: Color) returns (r: bool)
      requires Valid() && d.Moves()
      ensures r <==> FiveThrough(StonesIn(cells), Pos(row, col), d, color)
    {
      var ahead := Arm(row, col, d, color);
      var behind := Arm(row, col, d.Back(), color);
      StoppedWalks(StonesIn(cells), Pos(row, col), d, color, ahead, behind);
      r := 1 + ahead + behind >= 5;
    }

    /** The player of this colour if the stone is in a line of five, else nobody. */
    method CheckWin(row: int, col: int, color: Color) returns (winner: Uid)
      requires Valid() && At(StonesIn(cells), Pos(row, col), color)
      ensures winner == if WinsAt(StonesIn(cells), Pos(row, col), color) then Model().PlayerOf(color) else NOBODY
    {
      FourWalks(StonesIn(cells), Pos(row, col), color);
      var five := Five(row, col, RIGHT, color);
      if !five { five := Five(row, col, DOWN, color); }
      if !five { five := Five(row, col, UP_RIGHT, color); }
      if !five { five := Five(row, col, UP_LEFT, color); }
      winner := if !five then NOBODY else if color == White then white else black;
    }

    method HandleChess(uid: Uid, row: int, col: int, online: set<Uid>) returns (reply: PutReply)
      requires Valid()
      modifies cells
      ensures match Chess(old(Model()), uid, Pos(row, col), online, old(Wins(Model(), uid, Pos(row, col))))
              case Rejected(why) => reply == BadPut(why) && Model() == old(Model())
              case Accepted(board, winner, how) =>
                reply == GoodPut(winner, how) && Model() == old(Model()).(board := board)
    {
      if row < 0 || row >= SIZE || col < 0 || col >= SIZE {
        return BadPut(OffBoard);
      }
      if white !in online {
        return GoodPut(black, Offline);
      }
      if black !in online {
        return GoodPut(white, Offline);
      }
      if cells[row, col] != Empty {
        return BadPut(Occupied);
      }
      var color := if uid == white then White else Black;
      Place(cells, row, col, color);
      var winner := CheckWin(row, col, color);
      reply := GoodPut(winner, if winner != NOBODY then FiveInARow else NoWin);
    }

    /** The first move starts the clocks; later moves are charged to the player to move. */
    method PassTurn(uid: Uid, elapsed: nat, ghost now: nat, later: nat)
      requires Valid() && (timing ==> elapsed == ElapsedMs(turnStart, now))
      modifies this
      ensures Model() == NextTurn(old(Model()), uid, now, later)
    {
      if !timing {
        timing, whiteLeft, blackLeft := true, TOTAL_INIT_MS, TOTAL_INIT_MS;
      } else if turn == white {
        whiteLeft := Deduct(whiteLeft, elapsed);
      } else {
        blackLeft := Deduct(blackLeft, elapsed);
      }
      turn, turnStart := if uid == white then black else white, later;
    }

    method HandlePut(uid: Uid, row: int, col: int, online: set<Uid>, now: nat, later: nat)
      returns (msg: Message, calls: seq<Op>)
      requires Valid()
      modifies this, cells
      ensures Out(Model(), msg, calls) == Put(old(Model()), uid, Pos(row, col), online, now, later)
    {
      calls := [];
      if statu == GameOver {
        return Refused(AlreadyOver), calls;
      }
      if timing && uid != turn {
        return Refused(NotYourTurn), calls;
      }
      var elapsed := 0;
      if timing {
        elapsed := ElapsedMs(turnStart, now);
        var left := if turn == white then whiteLeft else blackLeft;
        var stepExpired, totalExpired := elapsed >= STEP_INIT_MS, left <= elapsed;
        if stepExpired || totalExpired {
          var winner := if turn == white then black else white;
          statu := GameOver;
          return TimedOut(turn, winner, stepExpired), [Win(winner), Lose(turn)];
        }
      }
      var reply := HandleChess(uid, row, col, online);
      if reply.BadPut? {
        return Refused(reply.why), calls;
      }
      if reply.winner == NOBODY {
        PassTurn(uid, elapsed, now, later);
        msg := PutChessDone(uid, row, col, NOBODY, reply.how, Clock(true, whiteLeft, blackLeft));
      } else {
        var loser := if reply.winner == white then black else white;
        calls := [Win(reply.winner), Lose(loser)];
        statu := GameOver;
        msg := PutChessDone(uid, row, col, reply.winner, reply.how, Clock(timing, whiteLeft, blackLeft));
      }
    }

    method HandleTimeout(uid: Uid, now: nat) returns (msg: Message, calls: seq<Op>)
      requires Valid()
      modifies this`statu
      ensures Out(Model(), msg, calls) == ClaimTimeout(old(Model()), uid, now)
    {
      calls := [];
      if statu == GameOver {
        return Refused(AlreadyOver), calls;
      }
      if !timing {
        return Refused(TimingNotStarted), calls;
      }
      if uid != turn {
        return Refused(NotYourTurn), calls;
      }
      var elapsed := ElapsedMs(turnStart, now);
      var left := if turn == white then whiteLeft else blackLeft;
      var stepExpired := elapsed + TIMEOUT_TOLERANCE_MS >= STEP_INIT_MS;
      var totalExpired := left <= elapsed + TIMEOUT_TOLERANCE_MS;
      if !stepExpired && !totalExpired {
        return Refused(NotExpired), calls;
      }
      var winner := if turn == white then black else white;
      statu := GameOver;
      return TimedOut(turn, winner, stepExpired), [Win(winner), Lose(turn)];
    }

    method HandleInvite(uid: Uid, online: set<Uid>) returns (msg: Message)
      requires Valid()
      modifies this`inviter
      ensures Out(Model(), msg, []) == Invite(old(Model()), uid, online)
    {
      if statu != GameOver {
        return Refused(NotOver);
      }
      if uid != white && uid != black {
        return Refused(NotAPlayer);
      }
      if inviter != NOBODY {
        return Refused(InvitePending);
      }
      if white !in online || black !in online {
        return Refused(NotBothOnline);
      }
      inviter := uid;
      return RematchInvited(uid, white, black);
    }

    method StartNewGame(now: nat) returns (msg: Message)
      requires Valid()
      modifies this, cells
      ensures Out(Model(), msg, []) == StartRematch(old(Model()), now)
    {
      white, black := black, white;
      Clear(cells);
      statu, timing, turn, turnStart := GameStart, false, black, now;
      whiteLeft, blackLeft, inviter := TOTAL_INIT_MS, TOTAL_INIT_MS, NOBODY;
      msg := RematchStarted(white, black);
    }

    method HandleAccept(uid: Uid, online: set<Uid>, now: nat) returns (msg: Message)
      requires Valid()
      modifies this, cells
      ensures Out(Model(), msg, []) == Accept(old(Model()), uid, online, now)
    {
      if statu != GameOver {
        return Refused(NotOver);
      }
      if inviter == NOBODY {
        return Refused(NoInvite);
      }
      if uid != white && uid != black {
        return Refused(NotAPlayer);
      }
      if uid == inviter {
        return Refused(OwnInvite);
      }
      if white !in online || black !in online {
        return Refused(NotBothOnline);
      }
      msg := StartNewGame(now);
    }

    /** msg is what the room broadcasts; calls are the updates of the user table. */
    method HandleRequest(roomId: nat, req: Request, online: set<Uid>, now: nat, later: nat)
      returns (msg: Message, calls: seq<Op>)
      requires Valid()
      modifies this, cells
      ensures Out(Model(), msg, calls) == Handle(old(Model()), roomId, req, online, now, later)
    {
      calls := [];
      if roomId != id {
        return Refused(RoomMismatch), calls;
      }
      match req {
        case PutChess(uid, row, col) => msg, calls := HandlePut(uid, row, col, online, now, later);
        case Timeout(uid) => msg, calls := HandleTimeout(uid, now);
        case RematchInvite(uid) => msg := HandleInvite(uid, online);
        case RematchAccept(uid) => msg := HandleAccept(uid, online, now);
        case Chat(uid, banned) => msg := if banned then Refused(BannedWords) else ChatSent(uid);
        case Unknown => msg := Refused(UnknownRequest);
      }
    }

    method HandleExit(uid: Uid) returns (msg: Message, calls: seq<Op>)
      requires Valid()
      modifies this`statu, this`playerCount
      ensures Out(Model(), msg, calls) == Exit(old(Model()), uid)
    {
      if statu == GameStart {
        var winner := if uid == white then black else white;
        var loser := if uid == white then white else black;
        calls := [Win(winner), Lose(loser)];
        statu := GameOver;
        msg := PutChessDone(uid, -1, -1, winner, Offline, NoClock);
      } else {
        calls := [];
        msg := PeerLeft(uid);
      }
      if playerCount > 0 {
        playerCount := playerCount - 1;
      }
    }

    /** The board for a new spectator: loading the snapshot gives the board back. */
    method BoardSnapshot() returns (snap: seq<SnapCell>)
      requires Valid()
      ensures Load(snap) == Model().board && RowMajor(snap)
      ensures forall i | 0 <= i < |snap| :: Pos(snap[i].row, snap[i].col).OnBoard()
    {
      snap := Snapshot(cells);
    }
  }
}
