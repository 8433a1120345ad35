/** The spectator's page: a second board built from one snapshot and the broadcasts. */
module Spectator {
  import opened Board
  import opened Grid
  import opened Ledger
  import opened RoomModel
  import opened RoomRuns

  datatype View = View(board: Stones, white: Uid, black: Uid)

  /** What the page does with a broadcast. It draws a stone for every put_chess reply
      whose coordinates are on the board, and keeps a role that a message leaves at zero. */
  function React(v: View, m: Message): View {
    match m
    case PutChessDone(uid, row, col, _, _, _) =>
      if Pos(row, col).OnBoard() then v.(board := v.board[Pos(row, col) := if uid == v.white then White else Black])
      else v
    case RematchStarted(white, black) =>
      View(map[], if white != NOBODY then white else v.white, if black != NOBODY then black else v.black)
    case _ => v
  }

  /** The page of a spectator who joined after the first n events of the run. */
  ghost function Watch(s0: State, evs: seq<Event>, n: nat): View
    requires n <= |evs|
    decreases |evs|
  {
    if |evs| == n then
      var s := Run(s0, evs);
      View(s.board, s.white, s.black)
    else
      React(Watch(s0, evs[..|evs| - 1], n), LastStep(s0, evs).msg)
  }

  /** The stone that was drawn but never placed: the coordinates of the put_chess request
      that ended the current game because a player was offline. */
  ghost function Phantom(s0: State, evs: seq<Event>): Stones {
    if evs == [] then map[]
    else NextPhantom(Run(s0, evs[..|evs| - 1]), Phantom(s0, evs[..|evs| - 1]), LastStep(s0, evs).msg)
  }

  function NextPhantom(s: State, phantom: Stones, m: Message): Stones {
    if m.RematchStarted? then map[]
    else if m.PutChessDone? && m.how == Offline && Pos(m.row, m.col).OnBoard() then
      map[Pos(m.row, m.col) := s.ColorOf(m.uid)]
    else phantom
  }

  /** A phantom stone only lies on the board of a game that is over, but not by a five. */
  ghost predicate Haunted(s: State, phantom: Stones) {
    phantom == map[] || (s.status.GameOver? && !HasFive(s.board))
  }

  lemma OfflineOnlyEndsGames(s: State, e: Event)
    requires Sane(s) && Step(s, e).msg.PutChessDone? && !PlacesStone(Step(s, e).msg)
    ensures s.status.GameStart? && Step(s, e).state.status.GameOver?
  {
  }

  /** One step of the room, seen by the page. */
  lemma StepIsFollowed(s: State, phantom: Stones, e: Event)
    requires Sane(s) && Haunted(s, phantom)
    ensures var out := Step(s, e);
            var phantom' := NextPhantom(s, phantom, out.msg);
            && Haunted(out.state, phantom')
            && React(View(s.board + phantom, s.white, s.black), out.msg)
                 == View(out.state.board + phantom', out.state.white, out.state.black)
  {
    var out := Step(s, e);
    if PlacesStone(out.msg) {
      PlacesOnlyByPut(s, e);
      var r := e.act.req;
      PlacingAStone(s, r.uid, Pos(r.row, r.col), e.act.online, e.now, e.later, Wins(s, r.uid, Pos(r.row, r.col)));
      assert s.board + phantom == s.board && out.state.board + phantom == out.state.board;
    } else if out.msg.RematchStarted? {
      assert out == StartRematch(s, e.now);
    } else {
      NoStoneNoChange(s, e);
      if out.msg.PutChessDone? {
        OfflineOnlyEndsGames(s, e);
        assert s.board + phantom == s.board;
      }
    }
  }

  /** Whenever the spectator joined, and through any number of rematches, the page shows
      the server's board and roles, with at most the phantom stone on top. */
  lemma {:induction false} SpectatorFollows(s0: State, evs: seq<Event>, n: nat)
    requires Sane(s0) && n <= |evs| && Run(s0, evs[..n]).status.GameStart?
    ensures var s := Run(s0, evs);
            && Watch(s0, evs, n) == View(s.board + Phantom(s0, evs), s.white, s.black)
            && Haunted(s, Phantom(s0, evs))
    decreases |evs|
  {
    if |evs| == n {
      assert evs[..n] == evs;
      PhantomsEndWithTheGame(s0, evs);
      var s := Run(s0, evs);
      assert s.board + map[] == s.board;
    } else {
      var before := evs[..|evs| - 1];
      assert before[..n] == evs[..n];
      SpectatorFollows(s0, before, n);
      RunIsSane(s0, before);
      StepIsFollowed(Run(s0, before), Phantom(s0, before), evs[|evs| - 1]);
    }
  }

  lemma {:induction false} PhantomsEndWithTheGame(s0: State, evs: seq<Event>)
    requires Sane(s0)
    ensures Haunted(Run(s0, evs), Phantom(s0, evs))
  {
    if evs == [] {
    } else {
      var before := evs[..|evs| - 1];
      PhantomsEndWithTheGame(s0, before);
      RunIsSane(s0, before);
      StepIsFollowed(Run(s0, before), Phantom(s0, before), evs[|evs| - 1]);
    }
  }

  /** The page always has the server's roles. It has the server's board whenever a game is
      in progress or was won by five in a row, and otherwise exactly when the put_chess
      request that found a player offline named a cell that already held that stone. */
  lemma SpectatorAgrees(s0: State, evs: seq<Event>, n: nat)
    requires Sane(s0) && n <= |evs| && Run(s0, evs[..n]).status.GameStart?
    ensures var s, v := Run(s0, evs), Watch(s0, evs, n);
            && v.white == s.white && v.black == s.black
            && (s.status.GameStart? || HasFive(s.board) ==> v.board == s.board)
            && (v.board == s.board <==> forall p <- Phantom(s0, evs) :: At(s.board, p, Phantom(s0, evs)[p]))
  {
    SpectatorFollows(s0, evs, n);
    var s, ghosts := Run(s0, evs), Phantom(s0, evs);
    assert forall p <- ghosts :: p in s.board + ghosts && (s.board + ghosts)[p] == ghosts[p];
    if forall p <- ghosts :: At(s.board, p, ghosts[p]) {
      assert s.board + ghosts == s.board;
    }
  }

  /** Boards may differ after an offline ending: white is away, black asks for a corner of
      the empty board, and the page draws a stone that the server never placed. */
  lemma OfflineEndingDraws()
    ensures var s0 := Opened(1, 7, 8, 0);
            var evs := [Event(0, 0, Ask(1, PutChess(8, 0, 0), {8}))];
            Run(s0, evs).board == map[] && Watch(s0, evs, 0).board == map[Pos(0, 0) := Black]
  {
    var s0 := Opened(1, 7, 8, 0);
    var e := Event(0, 0, Ask(1, PutChess(8, 0, 0), {8}));
    assert [e][..0] == [];
    assert Step(s0, e) == Over(s0, 8, 7, PutChessDone(8, 0, 0, 8, Offline, Clock(false, 0, 0)));
    assert Watch(s0, [e], 0) == React(Watch(s0, [], 0), Step(s0, e).msg);
  }

  // ----- The page itself -----

  class SpectatorPage {
    const cells: array2<Cell>
    var white: Uid
    var black: Uid

    ghost predicate Valid() {
      IsGrid(cells)
    }

    ghost function Shown(): View
      requires Valid()
      reads this, cells
    {
      View(StonesIn(cells), white, black)
    }

    /** An empty page, before spectate_ready. */
    constructor ()
      ensures Valid() && fresh(cells)
      ensures Shown() == View(map[], NOBODY, NOBODY)
    {
      cells := new Cell[SIZE, SIZE]((i, j) => Empty);
      white, black := NOBODY, NOBODY;
      new;
      SameStones(StonesIn(cells), map[]);
    }

    /** Clear the board and draw every cell of the snapshot that is on it. */
    method OnSpectateReady(snap: seq<SnapCell>, whiteId: Uid, blackId: Uid)
      requires Valid()
      modifies this, cells
      ensures Shown() == View(Load(snap), whiteId, blackId)
    {
      white, black := whiteId, blackId;
      Clear(cells);
      for i := 0 to |snap|
        invariant Shown() == View(Load(snap[..i]), whiteId, blackId)
      {
        var cell := snap[i];
        if 0 <= cell.row < SIZE && 0 <= cell.col < SIZE {
          Place(cells, cell.row, cell.col, cell.color);
        }
        assert snap[..i + 1][..i] == snap[..i];
      }
      assert snap[..|snap|] == snap;
    }

    method HandlePutChess(uid: Uid, row: int, col: int)
      requires Valid()
      modifies cells
      ensures forall winner, how, clock ::
                Shown() == React(old(Shown()), PutChessDone(uid, row, col, winner, how, clock))
    {
      if row >= 0 && col >= 0 && row < SIZE && col < SIZE {
        Place(cells, row, col, if uid == white then White else Black);
      }
    }

    method ApplyRematchStart(whiteId: Uid, blackId: Uid)
      requires Valid()
      modifies this, cells
      ensures Shown() == React(old(Shown()), RematchStarted(whiteId, blackId))
    {
      Clear(cells);
      white := if whiteId != NOBODY then whiteId else white;
      black := if blackId != NOBODY then blackId else black;
    }

    /** The page reacts to a broadcast as React says. */
    method OnMessage(m: Message)
      requires Valid()
      modifies this, cells
      ensures Shown() == React(old(Shown()), m)
    {
      match m {
        case PutChessDone(uid, row, col, _, _, _) => HandlePutChess(uid, row, col);
        case RematchStarted(w, b) => ApplyRematchStart(w, b);
        case _ =>
      }
    }
  }
}
