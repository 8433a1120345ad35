/** What one call of the room does, as a function of the room's state: the
    specification that the class in Room.dfy is proved against. */
module RoomModel {
  import opened Board
  import opened Ledger

  const TOTAL_INIT_MS: nat := 600000
  const STEP_INIT_MS: nat := 30000
  const TIMEOUT_TOLERANCE_MS: nat := 200
  const NS_PER_MS: nat := 1000000

  datatype Status = GameStart | GameOver

  /** Times are readings of the steady clock in nanoseconds; clocks are in milliseconds. */
  datatype State = State(
    id: nat, status: Status, playerCount: nat, white: Uid, black: Uid, board: Stones,
    timing: bool, turn: Uid, turnStart: nat, whiteLeft: nat, blackLeft: nat, inviter: Uid
  ) {
    function PlayerOf(c: Color): Uid {
      if c.White? then white else black
    }

    /** Anyone who is not white plays black. */
    function ColorOf(uid: Uid): Color {
      if uid == white then White else Black
    }

    function Rival(uid: Uid): Uid {
      if uid == white then black else white
    }

    predicate IsPlayer(uid: Uid) {
      uid == white || uid == black
    }

    function LeftOfTurn(): nat {
      if turn == white then whiteLeft else blackLeft
    }

    predicate StepExpired(now: nat, tolerance: nat) {
      ElapsedMs(turnStart, now) + tolerance >= STEP_INIT_MS
    }

    predicate TotalExpired(now: nat, tolerance: nat) {
      LeftOfTurn() <= ElapsedMs(turnStart, now) + tolerance
    }

    predicate Expired(now: nat, tolerance: nat) {
      StepExpired(now, tolerance) || TotalExpired(now, tolerance)
    }

    /** Take the time used from the player to move. */
    function Charge(ms: nat): State {
      var left := Deduct(LeftOfTurn(), ms);
      if turn == white then this.(whiteLeft := left) else this.(blackLeft := left)
    }
  }

  /** What is left of a clock, stopping at zero. */
  function Deduct(left: nat, ms: nat): nat {
    if left > ms then left - ms else 0
  }

  /** Whole milliseconds between two readings; the steady clock never goes back. */
  function ElapsedMs(start: nat, now: nat): nat {
    if now < start then 0 else (now - start) / NS_PER_MS
  }

  /** A room as the room manager opens it. */
  function Opened(id: nat, white: Uid, black: Uid, now: nat): State {
    State(id, GameStart, 2, white, black, map[], false, black, now, 0, 0, NOBODY)
  }

  datatype Reason =
    | RoomMismatch | AlreadyOver | NotYourTurn | OffBoard | Occupied | TimingNotStarted | NotExpired
    | NotOver | NotAPlayer | InvitePending | NotBothOnline | NoInvite | OwnInvite | BannedWords | UnknownRequest

  datatype PutEnd = NoWin | FiveInARow | Offline

  datatype Clock = NoClock | Clock(started: bool, whiteLeft: nat, blackLeft: nat)

  /** What the room broadcasts. Refused stands for every reply with result = false. */
  datatype Message =
    | Refused(why: Reason)
    | PutChessDone(uid: Uid, row: int, col: int, winner: Uid, how: PutEnd, clock: Clock)
    | TimedOut(uid: Uid, winner: Uid, byStep: bool)
    | RematchInvited(inviter: Uid, white: Uid, black: Uid)
    | RematchStarted(white: Uid, black: Uid)
    | ChatSent(uid: Uid)
    | PeerLeft(uid: Uid)

  datatype Request =
    | PutChess(uid: Uid, row: int, col: int)
    | Timeout(uid: Uid)
    | RematchInvite(uid: Uid)
    | RematchAccept(uid: Uid)
    | Chat(uid: Uid, banned: bool)
    | Unknown

  /** online is what the presence table answers during the call. */
  datatype Act = Ask(roomId: nat, req: Request, online: set<Uid>) | Leave(uid: Uid)

  /** A call reads the clock at most twice: at now when it judges the move, at
      later when it starts the next turn. */
  datatype Event = Event(now: nat, later: nat, act: Act)

  /** The new state, the broadcast, and the calls made on the user table, in order. */
  datatype Out = Out(state: State, msg: Message, calls: seq<Op>)

  function Refuse(s: State, why: Reason): Out {
    Out(s, Refused(why), [])
  }

  function Over(s: State, winner: Uid, loser: Uid, msg: Message): Out {
    Out(s.(status := GameOver), msg, [Win(winner), Lose(loser)])
  }

  function TimeOut(s: State, now: nat, tolerance: nat): Out {
    Over(s, s.Rival(s.turn), s.turn, TimedOut(s.turn, s.Rival(s.turn), s.StepExpired(now, tolerance)))
  }

  datatype ChessReply = Rejected(why: Reason) | Accepted(board: Stones, winner: Uid, how: PutEnd)

  /** wins tells whether the stone, once placed, is in a line of five. */
  function Chess(s: State, uid: Uid, p: Pos, online: set<Uid>, wins: bool): ChessReply {
    if !p.OnBoard() then Rejected(OffBoard)
    else if s.white !in online then Accepted(s.board, s.black, Offline)
    else if s.black !in online then Accepted(s.board, s.white, Offline)
    else if p in s.board then Rejected(Occupied)
    else
      var c := s.ColorOf(uid);
      var winner := if wins then s.PlayerOf(c) else NOBODY;
      Accepted(s.board[p := c], winner, if winner != NOBODY then FiveInARow else NoWin)
  }

  /** The clock and the turn after a move that did not end the game. */
  function NextTurn(s: State, uid: Uid, now: nat, later: nat): State {
    var s' := if s.timing then s.Charge(ElapsedMs(s.turnStart, now))
              else s.(timing := true, whiteLeft := TOTAL_INIT_MS, blackLeft := TOTAL_INIT_MS);
    s'.(turn := s.Rival(uid), turnStart := later)
  }

  ghost predicate Wins(s: State, uid: Uid, p: Pos) {
    WinsAt(s.board[p := s.ColorOf(uid)], p, s.ColorOf(uid))
  }

  ghost function Put(s: State, uid: Uid, p: Pos, online: set<Uid>, now: nat, later: nat): Out {
    PutJudged(s, uid, p, online, now, later, Wins(s, uid, p))
  }

  function PutJudged(s: State, uid: Uid, p: Pos, online: set<Uid>, now: nat, later: nat, wins: bool): Out {
    if s.status.GameOver? then Refuse(s, AlreadyOver)
    else if s.timing && uid != s.turn then Refuse(s, NotYourTurn)
    else if s.timing && s.Expired(now, 0) then TimeOut(s, now, 0)
    else
      match Chess(s, uid, p, online, wins)
      case Rejected(why) => Refuse(s, why)
      case Accepted(board, winner, how) =>
        var placed := s.(board := board);
        if winner == NOBODY then
          var s' := NextTurn(placed, uid, now, later);
          Out(s', PutChessDone(uid, p.row, p.col, NOBODY, how, Clock(true, s'.whiteLeft, s'.blackLeft)), [])
        else
          Over(placed, winner, s.Rival(winner),
               PutChessDone(uid, p.row, p.col, winner, how, Clock(s.timing, s.whiteLeft, s.blackLeft)))
  }

  function ClaimTimeout(s: State, uid: Uid, now: nat): Out {
    if s.status.GameOver? then Refuse(s, AlreadyOver)
    else if !s.timing then Refuse(s, TimingNotStarted)
    else if uid != s.turn then Refuse(s, NotYourTurn)
    else if !s.Expired(now, TIMEOUT_TOLERANCE_MS) then Refuse(s, NotExpired)
    else TimeOut(s, now, TIMEOUT_TOLERANCE_MS)
  }

  predicate BothOnline(s: State, online: set<Uid>) {
    s.white in online && s.black in online
  }

  function Invite(s: State, uid: Uid, online: set<Uid>): Out {
    if s.status.GameStart? then Refuse(s, NotOver)
    else if !s.IsPlayer(uid) then Refuse(s, NotAPlayer)
    else if s.inviter != NOBODY then Refuse(s, InvitePending)
    else if !BothOnline(s, online) then Refuse(s, NotBothOnline)
    else Out(s.(inviter := uid), RematchInvited(uid, s.white, s.black), [])
  }

  function StartRematch(s: State, now: nat): Out {
    Out(s.(white := s.black, black := s.white, board := map[], status := GameStart, timing := false,
           turn := s.white, turnStart := now, whiteLeft := TOTAL_INIT_MS, blackLeft := TOTAL_INIT_MS,
           inviter := NOBODY),
        RematchStarted(s.black, s.white), [])
  }

  function Accept(s: State, uid: Uid, online: set<Uid>, now: nat): Out {
    if s.status.GameStart? then Refuse(s, NotOver)
    else if s.inviter == NOBODY then Refuse(s, NoInvite)
    else if !s.IsPlayer(uid) then Refuse(s, NotAPlayer)
    else if uid == s.inviter then Refuse(s, OwnInvite)
    else if !BothOnline(s, online) then Refuse(s, NotBothOnline)
    else StartRematch(s, now)
  }

  ghost function Handle(s: State, roomId: nat, req: Request, online: set<Uid>, now: nat, later: nat): Out {
    if roomId != s.id then Refuse(s, RoomMismatch)
    else
      match req
      case PutChess(uid, row, col) => Put(s, uid, Pos(row, col), online, now, later)
      case Timeout(uid) => ClaimTimeout(s, uid, now)
      case RematchInvite(uid) => Invite(s, uid, online)
      case RematchAccept(uid) => Accept(s, uid, online, now)
      case Chat(uid, banned) => if banned then Refuse(s, BannedWords) else Out(s, ChatSent(uid), [])
      case Unknown => Refuse(s, UnknownRequest)
  }

  function Exit(s: State, uid: Uid): Out {
    var gone := s.(playerCount := if s.playerCount > 0 then s.playerCount - 1 else 0);
    if s.status.GameStart? then
      Over(gone, s.Rival(uid), if uid == s.white then s.white else s.black,
           PutChessDone(uid, -1, -1, s.Rival(uid), Offline, NoClock))
    else
      Out(gone, PeerLeft(uid), [])
  }

  ghost function Step(s: State, e: Event): Out {
    match e.act
    case Ask(roomId, req, online) => Handle(s, roomId, req, online, e.now, e.later)
    case Leave(uid) => Exit(s, uid)
  }
}
