/** The promises of one room, over every run: scoring, roles, rematch handshake,
    clocks, alternation, and the two timeout rules. */
module RoomTheorems {
  import opened Board
  import opened Ledger
  import opened RoomModel
  import opened RoomRuns

  // ----- Every game is scored exactly once -----

  predicate Announces(m: Message) {
    (m.PutChessDone? && m.winner != NOBODY) || m.TimedOut?
  }

  /** Exactly the step that ends a game names a winner, and it scores one win for that
      player and one loss for the other; no other step touches the ledger. */
  lemma StepScores(s: State, e: Event)
    requires Sane(s)
    ensures var out := Step(s, e);
            && (s.status.GameStart? && out.state.status.GameOver? <==> Announces(out.msg))
            && (Announces(out.msg) ==>
                  s.IsPlayer(out.msg.winner) && out.calls == [Win(out.msg.winner), Lose(s.Rival(out.msg.winner))])
            && (!Announces(out.msg) ==> out.calls == [])
            && (out.state.status.GameStart? && s.status.GameOver? <==> out.msg.RematchStarted?)
  {
    var out := Step(s, e);
    if PlacesStone(out.msg) {
      PlacesOnlyByPut(s, e);
    }
  }

  /** The new board has five stones in a row of the colour that this player has. */
  ghost predicate HasFiveOf(s: State, uid: Uid) {
    exists p: Pos, d: Dir, c: Color :: d.Moves() && Line(s.board, p, d, c) && s.PlayerOf(c) == uid
  }

  lemma WinnerHasTheFive(s: State, uid: Uid, p: Pos)
    requires Wins(s, uid, p)
    ensures HasFiveOf(s.(board := s.board[p := s.ColorOf(uid)]), s.PlayerOf(s.ColorOf(uid)))
  {
    var d: Dir, k: int :| d in SCANNED && 0 <= k < 5 && LineWith(s.board[p := s.ColorOf(uid)], p, k, d, s.ColorOf(uid));
    assert Line(s.board[p := s.ColorOf(uid)], p.Shift(-k, d), d, s.ColorOf(uid));
  }

  /** The right player wins: the one with five in a row; else the rival of the player to
      move, who is out of time or will be in 200 ms; else the rival of the player who left;
      else the rival of a player found offline. */
  lemma TheRightPlayerWins(s: State, e: Event)
    requires Sane(s) && Announces(Step(s, e).msg)
    ensures var m, t := Step(s, e).msg, Step(s, e).state;
            && (m.TimedOut? ==>
                  && m.winner == s.Rival(s.turn) && m.uid == s.turn && s.timing
                  && s.Expired(e.now, TIMEOUT_TOLERANCE_MS)
                  && (m.byStep || s.TotalExpired(e.now, TIMEOUT_TOLERANCE_MS)))
            && (m.PutChessDone? && m.how == FiveInARow ==> HasFiveOf(t, m.winner))
            && (e.act.Leave? ==> m.winner == s.Rival(e.act.uid))
            && (e.act.Ask? && m.PutChessDone? && m.how == Offline ==>
                  if s.white !in e.act.online then m.winner == s.black
                  else s.black !in e.act.online && m.winner == s.white)
  {
    if PlacesStone(Step(s, e).msg) {
      PlacesOnlyByPut(s, e);
      var r := e.act.req;
      if Wins(s, r.uid, Pos(r.row, r.col)) {
        WinnerHasTheFive(s, r.uid, Pos(r.row, r.col));
      }
    }
  }

  /** Games finished: the broadcasts that name a winner. */
  ghost function Finished(s0: State, evs: seq<Event>): nat {
    if evs == [] then 0
    else Finished(s0, evs[..|evs| - 1]) + if Announces(LastStep(s0, evs).msg) then 1 else 0
  }

  ghost function Rematches(s0: State, evs: seq<Event>): nat {
    if evs == [] then 0
    else Rematches(s0, evs[..|evs| - 1]) + if LastStep(s0, evs).msg.RematchStarted? then 1 else 0
  }

  /** Games: a win and a loss for each, of the two given players. */
  ghost predicate GamesOf(ops: seq<Op>, a: Uid, b: Uid) {
    && |ops| % 2 == 0
    && (forall i | 0 <= i < |ops| && i % 2 == 0 ::
          ops[i].Win? && ops[i + 1].Lose? && {ops[i].uid, ops[i + 1].uid} == {a, b})
  }

  lemma OneMoreGame(ops: seq<Op>, w: Uid, l: Uid, a: Uid, b: Uid)
    requires GamesOf(ops, a, b) && {w, l} == {a, b}
    ensures GamesOf(ops + [Win(w), Lose(l)], a, b)
  {
    var ops' := ops + [Win(w), Lose(l)];
    forall i | 0 <= i < |ops'| && i % 2 == 0
      ensures ops'[i].Win? && ops'[i + 1].Lose? && {ops'[i].uid, ops'[i + 1].uid} == {a, b}
    {
    }
  }

  /** The roles are the original ones exactly after an even number of rematches. */
  ghost predicate RolesAfter(s0: State, s: State, k: nat) {
    if k % 2 == 0 then s.white == s0.white && s.black == s0.black
    else s.white == s0.black && s.black == s0.white
  }

  lemma {:induction false} RolesFollowRematches(s0: State, evs: seq<Event>)
    ensures RolesAfter(s0, Run(s0, evs), Rematches(s0, evs))
  {
    if evs == [] {
    } else {
      RolesFollowRematches(s0, evs[..|evs| - 1]);
      StepKeepsPlayers(Run(s0, evs[..|evs| - 1]), evs[|evs| - 1]);
    }
  }

  lemma ScoreOneMore(s0: State, s: State, k: nat, ops: seq<Op>, e: Event)
    requires Sane(s) && RolesAfter(s0, s, k) && GamesOf(ops, s0.white, s0.black)
    ensures GamesOf(ops + Step(s, e).calls, s0.white, s0.black)
  {
    StepScores(s, e);
    if Announces(Step(s, e).msg) {
      var w := Step(s, e).msg.winner;
      OneMoreGame(ops, w, s.Rival(w), s0.white, s0.black);
    } else {
      assert ops + Step(s, e).calls == ops;
    }
  }

  /** Over any run, the number of games finished is the number of rematches, plus one when
      the room is in GAME_OVER; the ledger holds one win and one loss for each finished
      game, of exactly the two players, and nothing else. */
  lemma {:induction false} GamesAreScoredOnce(s0: State, evs: seq<Event>)
    requires Sane(s0) && s0.status.GameStart?
    ensures Finished(s0, evs) == Rematches(s0, evs) + (if Run(s0, evs).status.GameOver? then 1 else 0)
    ensures |Scored(s0, evs)| == 2 * Finished(s0, evs)
    ensures GamesOf(Scored(s0, evs), s0.white, s0.black)
  {
    if evs == [] {
    } else {
      var before, e := evs[..|evs| - 1], evs[|evs| - 1];
      var s := Run(s0, before);
      GamesAreScoredOnce(s0, before);
      RunIsSane(s0, before);
      RolesFollowRematches(s0, before);
      ScoreOneMore(s0, s, Rematches(s0, before), Scored(s0, before), e);
      StepScores(s, e);
    }
  }

  // ----- The rematch handshake -----

  /** The i-th broadcast is an invitation by u that no later broadcast has overtaken:
      no game has ended or started since. */
  ghost predicate InviteStands(msgs: seq<Message>, i: nat, u: Uid) {
    && i < |msgs| && msgs[i].RematchInvited? && msgs[i].inviter == u
    && forall k | i < k < |msgs| :: !Announces(msgs[k]) && !msgs[k].RematchStarted?
  }

  lemma StepKeepsInvite(s: State, e: Event)
    requires Sane(s)
    ensures var out := Step(s, e);
            out.state.inviter != NOBODY ==>
              if s.inviter == NOBODY then out.msg == RematchInvited(out.state.inviter, s.white, s.black)
              else out.state.inviter == s.inviter && !Announces(out.msg) && !out.msg.RematchStarted?
  {
    StepScores(s, e);
  }

  /** A pending invitation was broadcast since the last game ended. */
  lemma {:induction false} PendingInviteStands(s0: State, evs: seq<Event>) returns (i: nat)
    requires Sane(s0) && s0.inviter == NOBODY
    ensures Run(s0, evs).inviter != NOBODY ==> InviteStands(Said(s0, evs), i, Run(s0, evs).inviter)
  {
    i := 0;
    if evs == [] {
    } else {
      var before, e := evs[..|evs| - 1], evs[|evs| - 1];
      i := PendingInviteStands(s0, before);
      RunIsSane(s0, before);
      StepKeepsInvite(Run(s0, before), e);
      if Run(s0, before).inviter == NOBODY {
        i := |before|;
      }
    }
  }

  /** Every rematch start answers, by acceptance of the other player with both present, an
      invitation made by one of the two players since the last game ended. */
  lemma RematchAnswersInvite(s0: State, evs: seq<Event>) returns (i: nat)
    requires Sane(s0) && s0.inviter == NOBODY && evs != [] && LastStep(s0, evs).msg.RematchStarted?
    ensures var before, e := evs[..|evs| - 1], evs[|evs| - 1];
            var s := Run(s0, before);
            && i < |before| && Said(s0, before)[i].RematchInvited?
            && InviteStands(Said(s0, before), i, Said(s0, before)[i].inviter)
            && s.IsPlayer(Said(s0, before)[i].inviter)
            && e.act.Ask? && e.act.req.RematchAccept?
            && s.IsPlayer(e.act.req.uid) && e.act.req.uid != Said(s0, before)[i].inviter
            && s.white in e.act.online && s.black in e.act.online
  {
    var before := evs[..|evs| - 1];
    i := PendingInviteStands(s0, before);
    RunIsSane(s0, before);
  }

  // ----- The clocks -----

  lemma ElapsedSum(a: nat, b: nat, c: nat, d: nat, total: nat)
    requires a <= b <= c <= d && total * NS_PER_MS <= b - a
    ensures (total + ElapsedMs(b, c)) * NS_PER_MS <= d - a
  {
  }

  lemma {:induction false} ChargesFitInTheTimePassed(ms: seq<Move>, opener: Color)
    requires ms != []
    requires forall i | 0 <= i < |ms| :: ms[i].at <= ms[i].done
    requires forall i | 1 <= i < |ms| :: ms[i - 1].done <= ms[i].at
    ensures ms[0].done <= ms[|ms| - 1].done
    ensures (Charged(ms, opener, White) + Charged(ms, opener, Black)) * NS_PER_MS <= ms[|ms| - 1].done - ms[0].done
  {
    var n := |ms| - 1;
    if n == 0 {
    } else {
      var before := ms[..n];
      ChargesFitInTheTimePassed(before, opener);
      ElapsedSum(ms[0].done, ms[n - 1].done, ms[n].at, ms[n].done,
                 Charged(before, opener, White) + Charged(before, opener, Black));
    }
  }

  /** While a game is timed, each player's clock is exactly 600 s less the charges for that
      player's moves and is above zero, so the clamp at zero is never reached; each charge
      is below 30 s; and all charges together fit in the time since timing began. */
  lemma ClocksAreConserved(s0: State, evs: seq<Event>)
    requires Sane(s0) && s0.white != s0.black && Tells(s0, []) && Timely(s0, evs)
    requires Run(s0, evs).status.GameStart? && Run(s0, evs).timing
    ensures var s, ms := Run(s0, evs), Moves(s0, evs);
            var opener := Opener(s.white, ms);
            && ms != []
            && 0 < s.whiteLeft == TOTAL_INIT_MS - Charged(ms, opener, White)
            && 0 < s.blackLeft == TOTAL_INIT_MS - Charged(ms, opener, Black)
            && (forall i | 1 <= i < |ms| :: ChargeAt(ms, i) < STEP_INIT_MS)
            && ms[0].done <= Now(s0, evs)
            && (Charged(ms, opener, White) + Charged(ms, opener, Black)) * NS_PER_MS <= Now(s0, evs) - ms[0].done
  {
    RunTells(s0, evs);
    TurnStartIsPast(s0, evs);
    var s, ms := Run(s0, evs), Moves(s0, evs);
    ChargesFitInTheTimePassed(ms, Opener(s.white, ms));
  }

  // ----- Alternation -----

  function StonesOf(b: Stones, c: Color): set<Pos> {
    set p | p in b && b[p] == c
  }

  lemma UpdateSize(b: Stones, p: Pos, c: Color)
    ensures |b[p := c]| == |b| + if p in b then 0 else 1
  {
    assert b[p := c].Keys == b.Keys + {p};
    if p in b {
      assert b.Keys + {p} == b.Keys;
    }
  }

  lemma {:induction false} ReplayIsSmall(ms: seq<Move>, opener: Color)
    ensures |Replay(ms, opener)| <= |ms|
  {
    if ms == [] {
    } else {
      var n := |ms| - 1;
      ReplayIsSmall(ms[..n], opener);
      UpdateSize(Replay(ms[..n], opener), ms[n].pos, Alternate(opener, n));
    }
  }

  lemma OneMoreStone(b: Stones, p: Pos, c: Color)
    requires p !in b
    ensures |StonesOf(b[p := c], c)| == |StonesOf(b, c)| + 1
    ensures |StonesOf(b[p := c], c.Other())| == |StonesOf(b, c.Other())|
  {
    assert StonesOf(b[p := c], c) == StonesOf(b, c) + {p};
    assert StonesOf(b[p := c], c.Other()) == StonesOf(b, c.Other());
  }

  /** When the moves hit different cells, the opener has half of the stones, rounded up. */
  lemma {:induction false} ReplayCounts(ms: seq<Move>, opener: Color)
    requires |Replay(ms, opener)| == |ms|
    ensures |StonesOf(Replay(ms, opener), opener)| == (|ms| + 1) / 2
    ensures |StonesOf(Replay(ms, opener), opener.Other())| == |ms| / 2
  {
    if ms == [] {
      assert StonesOf(map[], opener) == {} == StonesOf(map[], opener.Other());
    } else {
      var n := |ms| - 1;
      var b := Replay(ms[..n], opener);
      ReplayIsSmall(ms[..n], opener);
      UpdateSize(b, ms[n].pos, Alternate(opener, n));
      ReplayCounts(ms[..n], opener);
      OneMoreStone(b, ms[n].pos, Alternate(opener, n));
    }
  }

  /** The two colours differ by at most one stone, a game has at most 225 moves, and while
      it goes on the player to move has the colour opposite to the last stone. */
  lemma ColoursAlternate(s0: State, evs: seq<Event>)
    requires Sane(s0) && s0.white != s0.black && Tells(s0, []) && Timely(s0, evs)
    ensures var s, ms := Run(s0, evs), Moves(s0, evs);
            && -1 <= |StonesOf(s.board, White)| - |StonesOf(s.board, Black)| <= 1
            && |ms| <= SIZE * SIZE
            && (ms != [] ==> ms[|ms| - 1].pos in s.board)
            && (s.status.GameStart? && ms != [] ==> s.turn == s.PlayerOf(s.board[ms[|ms| - 1].pos].Other()))
            && (s.status.GameStart? && !s.timing ==> s.board == map[] && s.turn == s.black)
  {
    RunTells(s0, evs);
    var s, ms := Run(s0, evs), Moves(s0, evs);
    ReplayCounts(ms, Opener(s.white, ms));
    AtMost225(s.board);
  }

  /** A stone on an empty board makes no five. */
  lemma OneStoneIsNoFive(p: Pos, c: Color)
    ensures !HasFive(map[p := c])
  {
    forall q: Pos, d: Dir, e: Color | d.Moves() ensures !Line(map[p := c], q, d, e) {
      assert q.Shift(0, d) != q.Shift(1, d);
      assert At(map[p := c], q.Shift(0, d), e) && At(map[p := c], q.Shift(1, d), e) ==> false;
    }
  }

  /** In a game that has not begun, whoever asks first places the first stone: black, white
      out of turn, or somebody who is no player at all. */
  lemma AnyoneMayOpen(s: State, uid: Uid, p: Pos, online: set<Uid>, now: nat, later: nat)
    requires Sane(s) && s.status.GameStart? && !s.timing && BothOnline(s, online) && p.OnBoard()
    ensures var out := Put(s, uid, p, online, now, later);
            PlacesStone(out.msg) && out.state.board == map[p := s.ColorOf(uid)] && out.state.turn == s.Rival(uid)
  {
    OneStoneIsNoFive(p, s.ColorOf(uid));
    WinsMeansFive(s, uid, p);
    assert s.board[p := s.ColorOf(uid)] == map[p := s.ColorOf(uid)];
  }

  /** A run whose first move is a stranger's, placed for black. */
  lemma AStrangerOpens()
    ensures var s0 := Opened(1, 7, 8, 0);
            var evs := [Event(0, 0, Ask(1, PutChess(9, 7, 7), {7, 8}))];
            && Run(s0, evs).board == map[Pos(7, 7) := Black] && Run(s0, evs).turn == 7
            && Moves(s0, evs) == [Move(9, Pos(7, 7), 0, 0)] && !s0.IsPlayer(9)
  {
    var s0 := Opened(1, 7, 8, 0);
    var e := Event(0, 0, Ask(1, PutChess(9, 7, 7), {7, 8}));
    OpenedIsSane(1, 7, 8, 0);
    AnyoneMayOpen(s0, 9, Pos(7, 7), {7, 8}, 0, 0);
    assert [e][..0] == [];
    assert LastStep(s0, [e]) == Step(Run(s0, []), e) == Put(s0, 9, Pos(7, 7), {7, 8}, 0, 0);
    assert Moves(s0, [e]) == Log(Moves(s0, []), e, LastStep(s0, [e]).msg);
  }

  /** Every move of the game, from the first one on, is by the player to move, black moving
      first, exactly when the first move is black's. */
  lemma MovesAreInTurn(s0: State, evs: seq<Event>)
    requires Sane(s0) && s0.white != s0.black && Tells(s0, []) && Timely(s0, evs)
    ensures var s, ms := Run(s0, evs), Moves(s0, evs);
            (forall i | 0 <= i < |ms| :: ms[i].uid == s.PlayerOf(Alternate(Black, i)))
              <==> (ms == [] || ms[0].uid == s.black)
  {
    RunTells(s0, evs);
  }

  // ----- The two timeout rules -----

  /** The tolerant rule is the strict rule 200 ms later. */
  lemma ToleranceIsAHeadStart(s: State, now: nat)
    requires s.turnStart <= now
    ensures s.Expired(now, TIMEOUT_TOLERANCE_MS) <==> s.Expired(now + TIMEOUT_TOLERANCE_MS * NS_PER_MS, 0)
  {
    assert ElapsedMs(s.turnStart, now + TIMEOUT_TOLERANCE_MS * NS_PER_MS)
        == ElapsedMs(s.turnStart, now) + TIMEOUT_TOLERANCE_MS;
  }

  /** In a timed game, for the player to move: a timeout request is accepted exactly when a
      move 200 ms later would be judged too late, with the same winner, loser and final
      state; so whenever a move is judged too late, a timeout request at the same instant
      is accepted, again with the same outcome. */
  lemma TimeoutRulesAgree(s: State, p: Pos, online: set<Uid>, now: nat, later: nat)
    requires s.status.GameStart? && s.timing && s.turnStart <= now
    ensures var claim := ClaimTimeout(s, s.turn, now);
            var soon := Put(s, s.turn, p, online, now + TIMEOUT_TOLERANCE_MS * NS_PER_MS, later);
            var put := Put(s, s.turn, p, online, now, later);
            && (claim.msg.TimedOut? <==> soon.msg.TimedOut?)
            && (claim.msg.TimedOut? ==> claim.calls == soon.calls && claim.state == soon.state)
            && (put.msg.TimedOut? ==> claim.msg.TimedOut? && claim.calls == put.calls && claim.state == put.state)
  {
    ToleranceIsAHeadStart(s, now);
  }
}
