/** Whole runs of one room: what was played, said and scored, read off the events
    and broadcasts alone, and what every reachable state keeps. */
module RoomRuns {
  import opened Board
  import opened Ledger
  import opened RoomModel

  ghost function Run(s0: State, evs: seq<Event>): State
    decreases |evs|, 1
  {
    if evs == [] then s0 else LastStep(s0, evs).state
  }

  ghost function LastStep(s0: State, evs: seq<Event>): Out
    requires evs != []
    decreases |evs|, 0
  {
    Step(Run(s0, evs[..|evs| - 1]), evs[|evs| - 1])
  }

  /** The broadcasts of a run, one for each event. */
  ghost function Said(s0: State, evs: seq<Event>): (msgs: seq<Message>)
    ensures |msgs| == |evs|
  {
    if evs == [] then [] else Said(s0, evs[..|evs| - 1]) + [LastStep(s0, evs).msg]
  }

  /** The calls made on the user table during a run. */
  ghost function Scored(s0: State, evs: seq<Event>): seq<Op> {
    if evs == [] then [] else Scored(s0, evs[..|evs| - 1]) + LastStep(s0, evs).calls
  }

  /** The last clock reading of a run. */
  function Now(s0: State, evs: seq<Event>): nat {
    if evs == [] then s0.turnStart else evs[|evs| - 1].later
  }

  /** The clock never goes back, within a call or between calls. */
  predicate Timely(s0: State, evs: seq<Event>) {
    evs == [] ||
    (Timely(s0, evs[..|evs| - 1]) && Now(s0, evs[..|evs| - 1]) <= evs[|evs| - 1].now <= evs[|evs| - 1].later)
  }

  // ----- The accepted moves since the last start -----

  /** at: when the move was judged; done: when the next player's turn began. */
  datatype Move = Move(uid: Uid, pos: Pos, at: nat, done: nat)

  predicate PlacesStone(m: Message) {
    m.PutChessDone? && m.how != Offline
  }

  function Log(ms: seq<Move>, e: Event, m: Message): seq<Move> {
    if m.RematchStarted? then []
    else if PlacesStone(m) then ms + [Move(m.uid, Pos(m.row, m.col), e.now, e.later)]
    else ms
  }

  ghost function Moves(s0: State, evs: seq<Event>): seq<Move> {
    if evs == [] then [] else Log(Moves(s0, evs[..|evs| - 1]), evs[|evs| - 1], LastStep(s0, evs).msg)
  }

  /** The colour of the i-th stone when colours alternate. */
  function Alternate(opener: Color, i: nat): Color {
    if i % 2 == 0 then opener else opener.Other()
  }

  /** The colour of the first move. */
  function Opener(white: Uid, ms: seq<Move>): Color {
    if ms != [] && ms[0].uid == white then White else Black
  }

  /** The board after playing the moves on an empty board with alternating colours. */
  function Replay(ms: seq<Move>, opener: Color): Stones {
    if ms == [] then map[]
    else
      var n := |ms| - 1;
      Replay(ms[..n], opener)[ms[n].pos := Alternate(opener, n)]
  }

  /** The time charged for the i-th move: whole milliseconds since the turn began. */
  function ChargeAt(ms: seq<Move>, i: nat): nat
    requires 1 <= i < |ms|
  {
    ElapsedMs(ms[i - 1].done, ms[i].at)
  }

  /** All the time charged to one colour; the first move of a game is free. */
  function Charged(ms: seq<Move>, opener: Color, c: Color): nat {
    if |ms| <= 1 then 0
    else
      var n := |ms| - 1;
      Charged(ms[..n], opener, c) + if Alternate(opener, n) == c then ChargeAt(ms, n) else 0
  }

  // ----- Invariants -----

  /** What every reachable state satisfies, even when a player is matched with himself. */
  ghost predicate Sane(s: State) {
    && s.white != NOBODY && s.black != NOBODY
    && Proper(s.board)
    && (s.inviter != NOBODY ==> s.status.GameOver? && s.IsPlayer(s.inviter))
    && (s.status.GameStart? ==>
          && !HasFive(s.board)
          && (!s.timing ==> s.board == map[] && s.turn == s.black)
          && (s.timing ==> s.IsPlayer(s.turn) && 0 < s.whiteLeft <= TOTAL_INIT_MS && 0 < s.blackLeft <= TOTAL_INIT_MS))
  }

  lemma OpenedIsSane(id: nat, white: Uid, black: Uid, now: nat)
    requires white != NOBODY && black != NOBODY
    ensures Sane(Opened(id, white, black, now))
  {
    var b: Stones := map[];
    forall p: Pos, d: Dir, c: Color ensures !Line(b, p, d, c) {
      assert !At(b, p.Shift(0, d), c);
    }
  }

  lemma EmptyHasNoFive()
    ensures !HasFive(map[])
  {
    OpenedIsSane(0, 1, 1, 0);
  }

  /** Placing a stone keeps the board free of fives exactly as long as nobody wins. */
  lemma PutJudgedKeepsSane(s: State, uid: Uid, p: Pos, online: set<Uid>, now: nat, later: nat, wins: bool)
    requires Sane(s)
    requires s.status.GameStart? && p.OnBoard() && p !in s.board ==>
               (wins <==> HasFive(s.board[p := s.ColorOf(uid)]))
    ensures Sane(PutJudged(s, uid, p, online, now, later, wins).state)
    ensures var out := PutJudged(s, uid, p, online, now, later, wins);
            out.state.status.GameOver? && s.status.GameStart? ==>
              (out.msg.PutChessDone? && out.msg.how == FiveInARow <==> HasFive(out.state.board))
  {
  }

  lemma WinsMeansFive(s: State, uid: Uid, p: Pos)
    requires Sane(s) && s.status.GameStart? && p.OnBoard() && p !in s.board
    ensures Wins(s, uid, p) <==> HasFive(s.board[p := s.ColorOf(uid)])
  {
    LocalTestRefinesScan(s.board, p, s.ColorOf(uid));
  }

  lemma PutKeepsSane(s: State, uid: Uid, p: Pos, online: set<Uid>, now: nat, later: nat)
    requires Sane(s)
    ensures Sane(Put(s, uid, p, online, now, later).state)
  {
    if s.status.GameStart? && p.OnBoard() && p !in s.board {
      WinsMeansFive(s, uid, p);
    }
    PutJudgedKeepsSane(s, uid, p, online, now, later, Wins(s, uid, p));
  }

  lemma StepKeepsSane(s: State, e: Event)
    requires Sane(s)
    ensures Sane(Step(s, e).state)
  {
    if e.act.Ask? && e.act.req.PutChess? {
      var r := e.act.req;
      PutKeepsSane(s, r.uid, Pos(r.row, r.col), e.act.online, e.now, e.later);
    } else {
      EmptyHasNoFive();
    }
  }

  /** No run of five of either colour exists in any reachable state of a game in progress. */
  lemma {:induction false} RunIsSane(s0: State, evs: seq<Event>)
    requires Sane(s0)
    ensures Sane(Run(s0, evs))
  {
    if evs == [] {
    } else {
      RunIsSane(s0, evs[..|evs| - 1]);
      StepKeepsSane(Run(s0, evs[..|evs| - 1]), evs[|evs| - 1]);
    }
  }

  /** The board is the alternating replay of the moves, which hit different cells. */
  ghost predicate BoardTold(s: State, ms: seq<Move>) {
    s.board == Replay(ms, Opener(s.white, ms)) && |s.board| == |ms|
  }

  /** From the second move on, the players move in turn, each within the step clock. */
  ghost predicate MovesTold(s: State, ms: seq<Move>) {
    && (forall i | 1 <= i < |ms| :: ms[i].uid == s.PlayerOf(Alternate(Opener(s.white, ms), i)))
    && (forall i | 1 <= i < |ms| :: ChargeAt(ms, i) < STEP_INIT_MS)
    && (forall i | 0 <= i < |ms| :: ms[i].at <= ms[i].done)
    && (forall i | 1 <= i < |ms| :: ms[i - 1].done <= ms[i].at)
  }

  /** The turn and both clocks of a game in progress. */
  ghost predicate ClockTold(s: State, ms: seq<Move>) {
    var opener := Opener(s.white, ms);
    && (s.timing <==> ms != [])
    && (s.timing ==>
          && s.turn == s.PlayerOf(Alternate(opener, |ms|))
          && s.turnStart == ms[|ms| - 1].done
          && s.whiteLeft == TOTAL_INIT_MS - Charged(ms, opener, White)
          && s.blackLeft == TOTAL_INIT_MS - Charged(ms, opener, Black))
  }

  /** The state is what the accepted moves since the last start say it is. */
  ghost predicate Tells(s: State, ms: seq<Move>) {
    BoardTold(s, ms) && MovesTold(s, ms) && (s.status.GameStart? ==> ClockTold(s, ms))
  }

  /** What a move that places a stone found, and what it left. */
  lemma PlacingAStone(s: State, uid: Uid, p: Pos, online: set<Uid>, now: nat, later: nat, wins: bool)
    requires PlacesStone(PutJudged(s, uid, p, online, now, later, wins).msg)
    ensures s.status.GameStart? && p !in s.board
    ensures s.timing ==> uid == s.turn && !s.Expired(now, 0)
    ensures var t := PutJudged(s, uid, p, online, now, later, wins).state;
            var placed := s.(board := s.board[p := s.ColorOf(uid)]);
            t == placed.(status := GameOver) || t == NextTurn(placed, uid, now, later)
  {
  }

  lemma ReplayOneMore(ms: seq<Move>, m: Move, opener: Color)
    ensures (ms + [m])[..|ms|] == ms
    ensures Replay(ms + [m], opener) == Replay(ms, opener)[m.pos := Alternate(opener, |ms|)]
  {
    assert (ms + [m])[..|ms|] == ms;
  }

  lemma ChargedOneMore(ms: seq<Move>, m: Move, opener: Color, c: Color)
    requires ms != []
    ensures Charged(ms + [m], opener, c) == Charged(ms, opener, c) +
              if Alternate(opener, |ms|) == c then ElapsedMs(ms[|ms| - 1].done, m.at) else 0
  {
    assert (ms + [m])[..|ms|] == ms;
  }

  lemma OpenerOneMore(s: State, ms: seq<Move>, m: Move)
    requires s.white != s.black && ClockTold(s, ms)
    requires s.timing ==> m.uid == s.turn
    ensures ms != [] ==> Opener(s.white, ms + [m]) == Opener(s.white, ms)
    ensures s.ColorOf(m.uid) == Alternate(Opener(s.white, ms + [m]), |ms|)
  {
  }

  lemma MovesOneMore(s: State, ms: seq<Move>, m: Move)
    requires s.white != s.black && MovesTold(s, ms) && ClockTold(s, ms)
    requires s.turnStart <= m.at <= m.done
    requires s.timing ==> m.uid == s.turn && !s.StepExpired(m.at, 0)
    ensures MovesTold(s, ms + [m])
  {
    var ms' := ms + [m];
    OpenerOneMore(s, ms, m);
    forall i | 1 <= i < |ms'| ensures ChargeAt(ms', i) < STEP_INIT_MS {
      if i < |ms| {
        assert ChargeAt(ms', i) == ChargeAt(ms, i);
      }
    }
  }

  lemma BoardOneMore(s: State, ms: seq<Move>, m: Move)
    requires s.white != s.black && BoardTold(s, ms) && ClockTold(s, ms)
    requires s.timing ==> m.uid == s.turn
    requires m.pos !in s.board
    ensures BoardTold(s.(board := s.board[m.pos := s.ColorOf(m.uid)]), ms + [m])
  {
    OpenerOneMore(s, ms, m);
    ReplayOneMore(ms, m, Opener(s.white, ms + [m]));
    if ms == [] {
      assert Replay(ms, Opener(s.white, ms)) == Replay(ms, Opener(s.white, ms + [m]));
    }
  }

  /** The clock is charged to the player whose turn it was. */
  lemma ClockOneMore(s: State, ms: seq<Move>, m: Move)
    requires s.white != s.black && ClockTold(s, ms)
    requires s.timing ==> m.uid == s.turn && !s.Expired(m.at, 0)
    ensures ClockTold(NextTurn(s, m.uid, m.at, m.done), ms + [m])
  {
    OpenerOneMore(s, ms, m);
    if ms != [] {
      ChargedOneMore(ms, m, Opener(s.white, ms), White);
      ChargedOneMore(ms, m, Opener(s.white, ms), Black);
    }
  }

  /** One more stone. */
  lemma TellsOneMore(s: State, ms: seq<Move>, e: Event, uid: Uid, p: Pos, online: set<Uid>, wins: bool)
    requires s.white != s.black && Tells(s, ms)
    requires s.turnStart <= e.now <= e.later
    requires PlacesStone(PutJudged(s, uid, p, online, e.now, e.later, wins).msg)
    ensures Tells(PutJudged(s, uid, p, online, e.now, e.later, wins).state, ms + [Move(uid, p, e.now, e.later)])
  {
    var m := Move(uid, p, e.now, e.later);
    PlacingAStone(s, uid, p, online, e.now, e.later, wins);
    MovesOneMore(s, ms, m);
    BoardOneMore(s, ms, m);
    ClockOneMore(s.(board := s.board[p := s.ColorOf(uid)]), ms, m);
  }

  /** A message that neither places a stone nor starts a game leaves the board alone. */
  lemma NoStoneNoChange(s: State, e: Event)
    requires s.white != NOBODY && s.black != NOBODY
    requires !PlacesStone(Step(s, e).msg) && !Step(s, e).msg.RematchStarted?
    ensures var t := Step(s, e).state;
            t == s.(status := t.status, playerCount := t.playerCount, inviter := t.inviter)
    ensures s.status.GameOver? ==> Step(s, e).state.status.GameOver?
  {
  }

  lemma RematchTells(s: State, e: Event)
    requires Step(s, e).msg.RematchStarted?
    ensures Tells(Step(s, e).state, [])
  {
    assert Step(s, e) == StartRematch(s, e.now);
  }

  lemma StepTells(s: State, ms: seq<Move>, e: Event)
    requires Sane(s) && s.white != s.black && Tells(s, ms)
    requires s.turnStart <= e.now <= e.later
    ensures Tells(Step(s, e).state, Log(ms, e, Step(s, e).msg))
  {
    var out := Step(s, e);
    if PlacesStone(out.msg) {
      PlacesOnlyByPut(s, e);
      var r := e.act.req;
      TellsOneMore(s, ms, e, r.uid, Pos(r.row, r.col), e.act.online, Wins(s, r.uid, Pos(r.row, r.col)));
    } else if out.msg.RematchStarted? {
      RematchTells(s, e);
    } else {
      NoStoneNoChange(s, e);
    }
  }

  lemma PlacesOnlyByPut(s: State, e: Event)
    requires PlacesStone(Step(s, e).msg)
    ensures e.act.Ask? && e.act.req.PutChess?
    ensures var r := e.act.req; var p := Pos(r.row, r.col);
            && Step(s, e) == PutJudged(s, r.uid, p, e.act.online, e.now, e.later, Wins(s, r.uid, p))
            && Step(s, e).msg.uid == r.uid && Step(s, e).msg.row == r.row && Step(s, e).msg.col == r.col
  {
  }

  lemma StepKeepsTurnStart(s: State, e: Event)
    requires s.turnStart <= e.now <= e.later
    ensures s.turnStart <= Step(s, e).state.turnStart <= e.later
  {
  }

  lemma {:induction false} TurnStartIsPast(s0: State, evs: seq<Event>)
    requires Timely(s0, evs)
    ensures Run(s0, evs).turnStart <= Now(s0, evs)
  {
    if evs == [] {
    } else {
      TurnStartIsPast(s0, evs[..|evs| - 1]);
      StepKeepsTurnStart(Run(s0, evs[..|evs| - 1]), evs[|evs| - 1]);
    }
  }

  lemma StepKeepsPlayers(s: State, e: Event)
    ensures var t := Step(s, e).state;
            if Step(s, e).msg.RematchStarted? then t.white == s.black && t.black == s.white
            else t.white == s.white && t.black == s.black
  {
  }

  /** The history theorem: after any run of a fresh room with two different players, the
      board, the turn, the moment the turn began and both clocks are those of the accepted
      moves since the last start, whose colours alternate whoever opens. */
  lemma {:induction false} RunTells(s0: State, evs: seq<Event>)
    requires Sane(s0) && s0.white != s0.black && Tells(s0, []) && Timely(s0, evs)
    ensures Sane(Run(s0, evs)) && Run(s0, evs).white != Run(s0, evs).black
    ensures Tells(Run(s0, evs), Moves(s0, evs))
  {
    if evs == [] {
    } else {
      var before, e := evs[..|evs| - 1], evs[|evs| - 1];
      RunTells(s0, before);
      TurnStartIsPast(s0, before);
      StepKeepsSane(Run(s0, before), e);
      StepKeepsPlayers(Run(s0, before), e);
      StepTells(Run(s0, before), Moves(s0, before), e);
    }
  }

  lemma OpenedTells(id: nat, white: Uid, black: Uid, now: nat)
    ensures Tells(Opened(id, white, black, now), [])
  {
  }
}
