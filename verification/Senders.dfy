/** Who sends a request and whom it names: the server passes a request on to the sender's
    room without comparing the two. */
module Senders {
  import opened Board
  import opened Ledger
  import opened Wrappers
  import opened RoomModel
  import opened RoomRuns
  import opened RoomTheorems
  import Ix = RoomIndex

  /** The user that a request says it comes from. */
  function Named(req: Request): Option<Uid> {
    match req
    case PutChess(uid, _, _) => Some(uid)
    case Timeout(uid) => Some(uid)
    case RematchInvite(uid) => Some(uid)
    case RematchAccept(uid) => Some(uid)
    case Chat(uid, _) => Some(uid)
    case Unknown => None
  }

  /** The user who has acted, by the room's state before and its broadcast. */
  function Actor(s: State, m: Message): Option<Uid> {
    match m
    case PutChessDone(uid, _, _, _, _, _) => Some(uid)
    case TimedOut(uid, _, _) => Some(uid)
    case RematchInvited(inviter, _, _) => Some(inviter)
    case RematchStarted(_, _) => Some(s.Rival(s.inviter))
    case ChatSent(uid) => Some(uid)
    case _ => None
  }

  /** An accepted request names the user who acts by it; and in a timed game the one who moves
      or claims a timeout is the player to move. */
  lemma AcceptedNamesActor(s: State, roomId: nat, req: Request, online: set<Uid>, now: nat, later: nat)
    requires Sane(s) && !Handle(s, roomId, req, online, now, later).msg.Refused?
    ensures var out := Handle(s, roomId, req, online, now, later);
            && Actor(s, out.msg) == Named(req) && Named(req).Some?
            && (s.status.GameStart? && s.timing && (req.PutChess? || req.Timeout?) ==>
                  Actor(s, out.msg) == Some(s.turn))
            && (out.msg.RematchStarted? ==> s.white != s.black && Actor(s, out.msg) != Some(s.inviter))
  {
    if req.PutChess? && PlacesStone(Handle(s, roomId, req, online, now, later).msg) {
      PlacesOnlyByPut(s, Event(now, later, Ask(roomId, req, online)));
    }
  }

  /** The answer of the sender's room, if the call is a request and the sender is in a room. */
  ghost function Reply(ix: Ix.Index, c: Ix.Call): Option<Message> {
    if c.Message? && Ix.InRoom(ix, c.uid) then
      Some(Handle(ix.rooms[ix.users[c.uid]], c.roomId, c.req, c.online, c.now, c.later).msg)
    else None
  }

  ghost predicate Accepts(ix: Ix.Index, c: Ix.Call) {
    Reply(ix, c).Some? && !Reply(ix, c).value.Refused?
  }

  /** If the request is accepted, its sender is the one who acts. */
  ghost predicate ActsForHimself(ix: Ix.Index, c: Ix.Call) {
    Accepts(ix, c) ==> Actor(ix.rooms[ix.users[c.uid]], Reply(ix, c).value) == Some(c.uid)
  }

  /** If the request is accepted, it names its sender. */
  ghost predicate NamesSender(ix: Ix.Index, c: Ix.Call) {
    Accepts(ix, c) ==> Named(c.req) == Some(c.uid)
  }

  ghost predicate AlwaysActForThemselves(cs: seq<Ix.Call>) {
    cs == [] || (AlwaysActForThemselves(cs[..|cs| - 1]) && ActsForHimself(Ix.After(cs[..|cs| - 1]), cs[|cs| - 1]))
  }

  ghost predicate AlwaysNameSenders(cs: seq<Ix.Call>) {
    cs == [] || (AlwaysNameSenders(cs[..|cs| - 1]) && NamesSender(Ix.After(cs[..|cs| - 1]), cs[|cs| - 1]))
  }

  lemma OneCall(ix: Ix.Index, c: Ix.Call, people: set<Uid>)
    requires Ix.Peopled(ix, people)
    ensures ActsForHimself(ix, c) <==> NamesSender(ix, c)
  {
    if Accepts(ix, c) {
      AcceptedNamesActor(ix.rooms[ix.users[c.uid]], c.roomId, c.req, c.online, c.now, c.later);
    }
  }

  /** In a run of the server, whoever acts in a room has sent the request himself exactly when
      every accepted request names its sender. */
  lemma {:induction false} ActingIsNaming(cs: seq<Ix.Call>, people: set<Uid>)
    requires NOBODY !in people && forall i | 0 <= i < |cs| :: Ix.Invites(cs[i], people)
    ensures AlwaysActForThemselves(cs) <==> AlwaysNameSenders(cs)
  {
    if cs == [] {
    } else {
      ActingIsNaming(cs[..|cs| - 1], people);
      Ix.ServerScoresGames(cs[..|cs| - 1], people);
      OneCall(Ix.After(cs[..|cs| - 1]), cs[|cs| - 1], people);
    }
  }

  // ----- It can be otherwise -----

  /** In a room of 7 and 8 that has not begun, 7 sends a request that names 8, and it is 8's
      stone that is placed. */
  lemma SevenMovesForEight(p: Pos, now: nat, later: nat)
    requires p.OnBoard()
    ensures var ix := Ix.After([Ix.Create(7, 8, {7, 8}, 0)]);
            var c := Ix.Message(7, 1, PutChess(8, p.row, p.col), {7, 8}, now, later);
            && Ix.InRoom(ix, 7) && Accepts(ix, c) && !ActsForHimself(ix, c)
            && 1 in Ix.Do(ix, c).index.rooms && Ix.Do(ix, c).index.rooms[1].board == map[p := Black]
            && Ix.Do(ix, c).index.rooms[1].turn == 7
  {
    var create := Ix.Create(7, 8, {7, 8}, 0);
    Ix.AfterOneMore([], create);
    assert [] + [create] == [create];
    var s := Opened(1, 7, 8, 0);
    assert Ix.After([create]) == Ix.Index(2, map[1 := s], map[7 := 1, 8 := 1]);
    OpenedIsSane(1, 7, 8, 0);
    AnyoneMayOpen(s, 8, p, {7, 8}, now, later);
    assert Pos(p.row, p.col) == p;
  }

  /** In a room whose game is over, one sender invites as one player and accepts as the other,
      and a new game begins. */
  lemma OneSenderRematches(ix: Ix.Index, sender: Uid, online: set<Uid>, now: nat)
    requires Ix.InRoom(ix, sender)
    requires var s := ix.rooms[ix.users[sender]];
             && Sane(s) && s.status.GameOver? && s.inviter == NOBODY && s.white != s.black && BothOnline(s, online)
    ensures var rid := ix.users[sender];
            var s := ix.rooms[rid];
            var invited := Ix.Do(ix, Ix.Message(sender, s.id, RematchInvite(s.white), online, now, now)).index;
            var c := Ix.Message(sender, s.id, RematchAccept(s.black), online, now, now);
            && Ix.InRoom(invited, sender) && Accepts(invited, c)
            && rid in Ix.Do(invited, c).index.rooms && Ix.Do(invited, c).index.rooms[rid].status.GameStart?
  {
  }
}
