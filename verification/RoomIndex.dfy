/** All the rooms and the map from players to rooms, as a function of the calls made. */
module RoomIndex {
  import opened Ledger
  import opened RoomModel
  import opened RoomRuns
  import opened RoomTheorems

  datatype Index = Index(next: nat, rooms: map<nat, State>, users: map<Uid, nat>)

  /** Message is a request that arrives on the connection of user uid; hall and online are
      what the presence table answers. */
  datatype Call =
    | Create(uid1: Uid, uid2: Uid, hall: set<Uid>, now: nat)
    | Remove(rid: nat, now: nat)
    | Depart(uid: Uid, now: nat)
    | Message(uid: Uid, roomId: nat, req: Request, online: set<Uid>, now: nat, later: nat)

  datatype Done = Done(index: Index, calls: seq<Op>)

  /** A map insertion that does not overwrite. */
  function Insert(users: map<Uid, nat>, uid: Uid, rid: nat): map<Uid, nat> {
    if uid in users then users else users[uid := rid]
  }

  function CreateRoom(ix: Index, uid1: Uid, uid2: Uid, hall: set<Uid>, now: nat): Index {
    if uid1 !in hall || uid2 !in hall then ix
    else Index(ix.next + 1, ix.rooms[ix.next := Opened(ix.next, uid1, uid2, now)],
               Insert(Insert(ix.users, uid1, ix.next), uid2, ix.next))
  }

  /** Forgets the room and whatever its two players are mapped to. */
  function RemoveRoom(ix: Index, rid: nat): Index {
    if rid !in ix.rooms then ix
    else ix.(users := ix.users - {ix.rooms[rid].white, ix.rooms[rid].black}, rooms := ix.rooms - {rid})
  }

  predicate InRoom(ix: Index, uid: Uid) {
    uid in ix.users && ix.users[uid] in ix.rooms
  }

  function DepartRoom(ix: Index, uid: Uid): Done {
    if !InRoom(ix, uid) then Done(ix, [])
    else
      var rid := ix.users[uid];
      var out := Exit(ix.rooms[rid], uid);
      var ix' := ix.(rooms := ix.rooms[rid := out.state]);
      Done(if out.state.playerCount == 0 then RemoveRoom(ix', rid) else ix', out.calls)
  }

  ghost function MessageRoom(ix: Index, uid: Uid, roomId: nat, req: Request, online: set<Uid>,
                             now: nat, later: nat): Done {
    if !InRoom(ix, uid) then Done(ix, [])
    else
      var rid := ix.users[uid];
      var out := Handle(ix.rooms[rid], roomId, req, online, now, later);
      Done(ix.(rooms := ix.rooms[rid := out.state]), out.calls)
  }

  ghost function Do(ix: Index, c: Call): Done {
    match c
    case Create(uid1, uid2, hall, now) => Done(CreateRoom(ix, uid1, uid2, hall, now), [])
    case Remove(rid, now) => Done(RemoveRoom(ix, rid), [])
    case Depart(uid, now) => DepartRoom(ix, uid)
    case Message(uid, roomId, req, online, now, later) => MessageRoom(ix, uid, roomId, req, online, now, later)
  }

  const START := Index(1, map[], map[])

  ghost function Run(cs: seq<Call>): Done {
    if cs == [] then Done(START, [])
    else
      var before := Run(cs[..|cs| - 1]);
      var done := Do(before.index, cs[|cs| - 1]);
      Done(done.index, before.calls + done.calls)
  }

  ghost function After(cs: seq<Call>): Index {
    Run(cs).index
  }

  // ----- Integrity, with no assumption on the callers -----

  ghost predicate Sound(ix: Index) {
    && (forall u <- ix.users :: ix.users[u] in ix.rooms && ix.rooms[ix.users[u]].IsPlayer(u))
    && (forall rid <- ix.rooms ::
          && rid < ix.next && ix.rooms[rid].id == rid
          && 1 <= ix.rooms[rid].playerCount <= 2)
  }

  lemma HandleKeepsPlayers(s: State, roomId: nat, req: Request, online: set<Uid>, now: nat, later: nat)
    ensures var t := Handle(s, roomId, req, online, now, later).state;
            t.id == s.id && t.playerCount == s.playerCount && {t.white, t.black} == {s.white, s.black}
  {
    StepKeepsPlayers(s, Event(now, later, Ask(roomId, req, online)));
  }

  lemma RemoveKeepsSound(ix: Index, rid: nat)
    requires (forall u <- ix.users :: ix.users[u] in ix.rooms && ix.rooms[ix.users[u]].IsPlayer(u))
    requires forall r <- ix.rooms ::
               r < ix.next && ix.rooms[r].id == r && (r != rid ==> 1 <= ix.rooms[r].playerCount <= 2)
    requires rid in ix.rooms
    ensures Sound(RemoveRoom(ix, rid))
  {
  }

  lemma CallKeepsSound(ix: Index, c: Call)
    requires Sound(ix)
    ensures Sound(Do(ix, c).index)
  {
    match c {
      case Create(uid1, uid2, hall, now) =>
      case Remove(rid, now) =>
      case Depart(uid, now) =>
        if InRoom(ix, uid) {
          var rid := ix.users[uid];
          var s := ix.rooms[rid];
          var ix' := ix.(rooms := ix.rooms[rid := Exit(s, uid).state]);
          assert Exit(s, uid).state == s.(status := GameOver, playerCount := s.playerCount - 1);
          if Exit(s, uid).state.playerCount == 0 {
            RemoveKeepsSound(ix', rid);
          }
        }
      case Message(uid, roomId, req, online, now, later) =>
        if InRoom(ix, uid) {
          HandleKeepsPlayers(ix.rooms[ix.users[uid]], roomId, req, online, now, later);
        }
    }
  }

  /** After any calls whatever, every mapped user is mapped to a live room and plays in it,
      and every live room has one or two counted players. */
  lemma {:induction false} IndexIsSound(cs: seq<Call>)
    ensures Sound(After(cs))
  {
    if cs == [] {
    } else {
      IndexIsSound(cs[..|cs| - 1]);
      CallKeepsSound(After(cs[..|cs| - 1]), cs[|cs| - 1]);
    }
  }

  lemma NextNeverFalls(ix: Index, c: Call)
    ensures ix.next <= Do(ix, c).index.next
  {
  }

  /** The id of the next room differs from that of every room that was alive at any earlier
      point of the run. */
  lemma {:induction false} IdsAreNeverReused(cs: seq<Call>, n: nat, rid: nat)
    requires n <= |cs| && rid in After(cs[..n]).rooms
    ensures rid < After(cs).next
    decreases |cs|
  {
    if n == |cs| {
      assert cs[..n] == cs;
      IndexIsSound(cs);
    } else {
      var before := cs[..|cs| - 1];
      assert before[..n] == cs[..n];
      IdsAreNeverReused(before, n, rid);
      NextNeverFalls(After(before), cs[|cs| - 1]);
    }
  }

  /** A room is created exactly when both users are in the hall: under the next id, the first
      user white, the second black and to move, the game begun with an empty board. A user who
      is mapped already stays mapped as he was. */
  lemma RoomsOpenExactly(ix: Index, uid1: Uid, uid2: Uid, hall: set<Uid>, now: nat)
    ensures var ix' := Do(ix, Create(uid1, uid2, hall, now)).index;
            if uid1 in hall && uid2 in hall then
              && ix'.next == ix.next + 1 && ix'.rooms.Keys == ix.rooms.Keys + {ix.next}
              && ix'.rooms[ix.next] ==
                   State(ix.next, GameStart, 2, uid1, uid2, map[], false, uid2, now, 0, 0, 0)
              && ix'.users.Keys == ix.users.Keys + {uid1, uid2}
              && (forall u <- ix'.users :: ix'.users[u] == if u in ix.users then ix.users[u] else ix.next)
            else ix' == ix
  {
  }

  // ----- How long a room lives -----

  /** The exits from this room: a user who leaves was mapped to it. */
  ghost function Exits(cs: seq<Call>, rid: nat): nat {
    if cs == [] then 0
    else
      var before, c := cs[..|cs| - 1], cs[|cs| - 1];
      var exit := c.Depart? && c.uid in After(before).users && After(before).users[c.uid] == rid;
      Exits(before, rid) + if exit then 1 else 0
  }

  /** The room was removed on request, after it had been created. */
  ghost predicate Removed(cs: seq<Call>, rid: nat) {
    cs != [] &&
    (Removed(cs[..|cs| - 1], rid)
     || (cs[|cs| - 1].Remove? && cs[|cs| - 1].rid == rid && rid < After(cs[..|cs| - 1]).next))
  }

  /** What is known of a room from the exits and removals. */
  ghost predicate Counted(ix: Index, rid: nat, exits: nat, removed: bool) {
    && (rid in ix.rooms <==> 1 <= rid < ix.next && exits < 2 && !removed)
    && (rid in ix.rooms ==> ix.rooms[rid].playerCount == 2 - exits)
  }

  lemma ExitCounts(ix: Index, uid: Uid, now: nat, rid: nat, exits: nat, removed: bool)
    requires Sound(ix) && Counted(ix, rid, exits, removed)
    ensures Counted(Do(ix, Depart(uid, now)).index, rid,
                    exits + (if uid in ix.users && ix.users[uid] == rid then 1 else 0), removed)
  {
    if InRoom(ix, uid) {
      var left := ix.users[uid];
      assert Exit(ix.rooms[left], uid).state.playerCount == ix.rooms[left].playerCount - 1;
    }
  }

  lemma MessageCountsNothing(ix: Index, c: Call, rid: nat, exits: nat, removed: bool)
    requires Counted(ix, rid, exits, removed) && c.Message?
    ensures Counted(Do(ix, c).index, rid, exits, removed)
  {
    if InRoom(ix, c.uid) {
      HandleKeepsPlayers(ix.rooms[ix.users[c.uid]], c.roomId, c.req, c.online, c.now, c.later);
    }
  }

  lemma CreateCounts(ix: Index, c: Call, rid: nat, exits: nat, removed: bool)
    requires Sound(ix) && Counted(ix, rid, exits, removed) && c.Create? && (rid >= ix.next ==> exits == 0 && !removed)
    requires ix.next >= 1
    ensures Counted(Do(ix, c).index, rid, exits, removed)
  {
  }

  lemma RemoveCounts(ix: Index, r: nat, rid: nat, exits: nat, removed: bool)
    requires Counted(ix, rid, exits, removed)
    ensures Counted(RemoveRoom(ix, r), rid, exits, removed || (r == rid && rid < ix.next))
  {
  }

  /** Over any run: a room that has been created is alive until it is removed on request or
      has counted two exits, and while it is alive its count is two less its exits. */
  lemma {:induction false} RoomsLiveUntilTwoExits(cs: seq<Call>, rid: nat)
    ensures Counted(After(cs), rid, Exits(cs, rid), Removed(cs, rid))
    ensures After(cs).next >= 1 && (rid >= After(cs).next ==> Exits(cs, rid) == 0 && !Removed(cs, rid))
  {
    if cs == [] {
    } else {
      var before, c := cs[..|cs| - 1], cs[|cs| - 1];
      var ix := After(before);
      RoomsLiveUntilTwoExits(before, rid);
      IndexIsSound(before);
      NextNeverFalls(ix, c);
      match c {
        case Create(uid1, uid2, hall, now) => CreateCounts(ix, c, rid, Exits(before, rid), Removed(before, rid));
        case Remove(r, now) => RemoveCounts(ix, r, rid, Exits(before, rid), Removed(before, rid));
        case Depart(uid, now) => ExitCounts(ix, uid, now, rid, Exits(before, rid), Removed(before, rid));
        case Message(_, _, _, _, _, _) => MessageCountsNothing(ix, c, rid, Exits(before, rid), Removed(before, rid));
      }
    }
  }

  // ----- When the two maps agree -----

  predicate PlaysIn(ix: Index, rid: nat, uid: Uid) {
    rid in ix.rooms && ix.rooms[rid].IsPlayer(uid)
  }

  predicate MappedTo(ix: Index, uid: Uid, rid: nat) {
    uid in ix.users && ix.users[uid] == rid
  }

  ghost predicate Owned(ix: Index) {
    forall rid, uid | PlaysIn(ix, rid, uid) :: MappedTo(ix, uid, rid)
  }

  /** A room that is really created is created for users who are mapped nowhere. */
  predicate Clean(ix: Index, c: Call) {
    c.Create? && c.uid1 in c.hall && c.uid2 in c.hall ==> c.uid1 !in ix.users && c.uid2 !in ix.users
  }

  ghost predicate AlwaysClean(cs: seq<Call>) {
    cs == [] || (AlwaysClean(cs[..|cs| - 1]) && Clean(After(cs[..|cs| - 1]), cs[|cs| - 1]))
  }

  /** A user is mapped to a room if and only if the room is alive and the user plays in it. */
  ghost predicate Agree(ix: Index) {
    forall rid, uid :: MappedTo(ix, uid, rid) <==> PlaysIn(ix, rid, uid)
  }

  ghost predicate AlwaysAgree(cs: seq<Call>) {
    Agree(After(cs)) && (cs == [] || AlwaysAgree(cs[..|cs| - 1]))
  }

  lemma RemoveKeepsOwned(ix: Index, rid: nat)
    requires Owned(ix)
    ensures Owned(RemoveRoom(ix, rid))
  {
    var ix' := RemoveRoom(ix, rid);
    forall r, uid | PlaysIn(ix', r, uid) ensures MappedTo(ix', uid, r) {
      assert PlaysIn(ix, r, uid);
      assert PlaysIn(ix, rid, uid) ==> MappedTo(ix, uid, rid);
    }
  }

  lemma SamePlayersKeepOwned(ix: Index, rid: nat, t: State)
    requires Owned(ix) && rid in ix.rooms && {t.white, t.black} == {ix.rooms[rid].white, ix.rooms[rid].black}
    ensures Owned(ix.(rooms := ix.rooms[rid := t]))
  {
    var ix' := ix.(rooms := ix.rooms[rid := t]);
    forall r, uid | PlaysIn(ix', r, uid) ensures MappedTo(ix', uid, r) {
      if r == rid {
        assert uid in {t.white, t.black};
      }
      assert PlaysIn(ix, r, uid);
    }
  }

  lemma CreateKeepsOwned(ix: Index, uid1: Uid, uid2: Uid, hall: set<Uid>, now: nat)
    requires Owned(ix) && Clean(ix, Create(uid1, uid2, hall, now))
    ensures Owned(CreateRoom(ix, uid1, uid2, hall, now))
  {
    var ix' := CreateRoom(ix, uid1, uid2, hall, now);
    forall r, uid | PlaysIn(ix', r, uid) ensures MappedTo(ix', uid, r) {
      if ix' == ix || r != ix.next {
        assert PlaysIn(ix, r, uid);
      }
    }
  }

  lemma CallKeepsOwned(ix: Index, c: Call)
    requires Sound(ix) && Owned(ix) && Clean(ix, c)
    ensures Owned(Do(ix, c).index)
  {
    match c {
      case Create(uid1, uid2, hall, now) => CreateKeepsOwned(ix, uid1, uid2, hall, now);
      case Remove(rid, now) => RemoveKeepsOwned(ix, rid);
      case Depart(uid, now) =>
        if InRoom(ix, uid) {
          var rid := ix.users[uid];
          var t := Exit(ix.rooms[rid], uid).state;
          SamePlayersKeepOwned(ix, rid, t);
          RemoveKeepsOwned(ix.(rooms := ix.rooms[rid := t]), rid);
        }
      case Message(uid, roomId, req, online, now, later) =>
        if InRoom(ix, uid) {
          var rid := ix.users[uid];
          HandleKeepsPlayers(ix.rooms[rid], roomId, req, online, now, later);
          SamePlayersKeepOwned(ix, rid, Handle(ix.rooms[rid], roomId, req, online, now, later).state);
        }
    }
  }

  /** In a sound index, owning is agreeing. */
  lemma OwnedIsAgree(ix: Index)
    requires Sound(ix)
    ensures Owned(ix) <==> Agree(ix)
  {
    if Owned(ix) {
      forall rid, uid ensures MappedTo(ix, uid, rid) <==> PlaysIn(ix, rid, uid) {
        assert PlaysIn(ix, rid, uid) ==> MappedTo(ix, uid, rid);
      }
    }
  }

  /** A room created for a user who is mapped elsewhere has a player not mapped to it. */
  lemma UncleanDisagrees(ix: Index, c: Call)
    requires Sound(ix) && !Clean(ix, c)
    ensures !Agree(Do(ix, c).index)
  {
    var u := if c.uid1 in ix.users then c.uid1 else c.uid2;
    var ix' := Do(ix, c).index;
    assert ix'.users[u] == ix.users[u] && ix.users[u] in ix.rooms;
    assert PlaysIn(ix', ix.next, u) && !MappedTo(ix', u, ix.next);
  }

  /** The two maps agree throughout a run exactly when every room that was created in it was
      created for users who were mapped nowhere at the time. */
  lemma {:induction false} MapsAgreeExactly(cs: seq<Call>)
    ensures AlwaysAgree(cs) <==> AlwaysClean(cs)
  {
    if cs == [] {
    } else {
      var before, c := cs[..|cs| - 1], cs[|cs| - 1];
      MapsAgreeExactly(before);
      IndexIsSound(before);
      IndexIsSound(cs);
      OwnedIsAgree(After(before));
      OwnedIsAgree(After(cs));
      if AlwaysAgree(before) {
        if Clean(After(before), c) {
          CallKeepsOwned(After(before), c);
        } else {
          UncleanDisagrees(After(before), c);
        }
      }
    }
  }

  lemma MapsAgree(cs: seq<Call>, rid: nat, uid: Uid)
    requires AlwaysClean(cs)
    ensures MappedTo(After(cs), uid, rid) <==> PlaysIn(After(cs), rid, uid)
  {
    MapsAgreeExactly(cs);
  }

  lemma AfterOneMore(cs: seq<Call>, c: Call)
    ensures After(cs + [c]) == Do(After(cs), c).index
  {
    assert (cs + [c])[..|cs|] == cs;
  }

  /** A user who plays in room 1 and is matched again stays mapped to room 1. His second
      opponent leaves room 2, comes back and leaves again: room 2 is removed, and the user is
      mapped nowhere although room 1 is alive. */
  lemma DoubleMatchUnmaps()
    ensures var ix := After([Create(7, 8, {7, 8}, 0), Create(7, 9, {7, 9}, 0), Depart(9, 0), Depart(9, 0)]);
            1 in ix.rooms && ix.rooms[1].IsPlayer(7) && 7 !in ix.users
  {
    var c1, c2, c3 := Create(7, 8, {7, 8}, 0), Create(7, 9, {7, 9}, 0), Depart(9, 0);
    var room1, room2 := Opened(1, 7, 8, 0), Opened(2, 7, 9, 0);
    AfterOneMore([], c1);
    AfterOneMore([c1], c2);
    assert [] + [c1] == [c1] && [c1] + [c2] == [c1, c2];
    assert After([c1, c2]) == Index(3, map[1 := room1, 2 := room2], map[7 := 1, 8 := 1, 9 := 2]);
    AfterOneMore([c1, c2], c3);
    assert [c1, c2] + [c3] == [c1, c2, c3];
    var left := room2.(status := GameOver, playerCount := 1);
    assert After([c1, c2, c3]) == Index(3, map[1 := room1, 2 := left], map[7 := 1, 8 := 1, 9 := 2]);
    AfterOneMore([c1, c2, c3], c3);
    assert [c1, c2, c3] + [c3] == [c1, c2, c3, c3];
  }

  // ----- What every room keeps, and the ledger of the whole server -----

  /** Rooms are sane, and all their players belong to the given users. */
  ghost predicate Peopled(ix: Index, people: set<Uid>) {
    forall rid <- ix.rooms :: Sane(ix.rooms[rid]) && ix.rooms[rid].white in people && ix.rooms[rid].black in people
  }

  predicate Invites(c: Call, people: set<Uid>) {
    c.Create? ==> c.uid1 in people && c.uid2 in people
  }

  /** Nothing, or one game of two of these people. */
  predicate NoneOrGame(calls: seq<Op>, people: set<Uid>) {
    calls == [] ||
    (|calls| == 2 && calls[0].Win? && calls[1].Lose? && calls[0].uid in people && calls[1].uid in people)
  }

  lemma CallKeepsPeopled(ix: Index, c: Call, people: set<Uid>)
    requires NOBODY !in people && Peopled(ix, people) && Invites(c, people)
    ensures Peopled(Do(ix, c).index, people)
    ensures NoneOrGame(Do(ix, c).calls, people)
  {
    match c {
      case Create(uid1, uid2, hall, now) => OpenedIsSane(ix.next, uid1, uid2, now);
      case Remove(rid, now) =>
      case Depart(uid, now) =>
        if InRoom(ix, uid) {
          StepKeepsSane(ix.rooms[ix.users[uid]], Event(now, now, Leave(uid)));
        }
      case Message(uid, roomId, req, online, now, later) =>
        if InRoom(ix, uid) {
          var s, e := ix.rooms[ix.users[uid]], Event(now, later, Ask(roomId, req, online));
          StepKeepsSane(s, e);
          StepScores(s, e);
          StepKeepsPlayers(s, e);
        }
    }
  }

  /** Some games, all of them scored for these people. */
  ghost predicate GamesAmong(ops: seq<Op>, people: set<Uid>) {
    Games(ops) && forall i | 0 <= i < |ops| :: ops[i].uid in people
  }

  lemma OneMoreGameAmong(ops: seq<Op>, calls: seq<Op>, people: set<Uid>)
    requires GamesAmong(ops, people)
    requires NoneOrGame(calls, people)
    ensures GamesAmong(ops + calls, people)
  {
  }

  /** No room of the server ever has a five while its game is in progress, nor breaks any
      other invariant of a room; and the server scores whole games only. */
  lemma {:induction false} ServerScoresGames(cs: seq<Call>, people: set<Uid>)
    requires NOBODY !in people && forall i | 0 <= i < |cs| :: Invites(cs[i], people)
    ensures Peopled(After(cs), people)
    ensures GamesAmong(Run(cs).calls, people)
  {
    if cs == [] {
    } else {
      var before := cs[..|cs| - 1];
      ServerScoresGames(before, people);
      CallKeepsPeopled(After(before), cs[|cs| - 1], people);
      OneMoreGameAmong(Run(before).calls, Do(After(before), cs[|cs| - 1]).calls, people);
    }
  }

  // ----- The ledger of the whole server, with registrations in between -----

  datatype Happening = SignUp(uid: Uid, name: string) | Play(call: Call)

  /** The rooms, and what was entered in the user table, in order. */
  datatype Books = Books(index: Index, entries: seq<Entry>)

  ghost function Keep(hs: seq<Happening>): Books {
    if hs == [] then Books(START, [])
    else
      var before := Keep(hs[..|hs| - 1]);
      match hs[|hs| - 1]
      case SignUp(uid, name) => Books(before.index, before.entries + [Register(uid, name)])
      case Play(c) => Books(Do(before.index, c).index, before.entries + Scores(Do(before.index, c).calls))
  }

  /** Ids are positive, and rooms are created for users registered by then. */
  ghost predicate Registered(rows: Rows, hs: seq<Happening>) {
    hs == [] ||
    (var before := Keep(hs[..|hs| - 1]);
     && Registered(rows, hs[..|hs| - 1])
     && match hs[|hs| - 1]
        case SignUp(uid, name) => uid != NOBODY
        case Play(c) => Invites(c, EnterAll(rows, before.entries).Keys))
  }

  lemma MorePeople(ix: Index, few: set<Uid>, many: set<Uid>)
    requires Peopled(ix, few) && few <= many
    ensures Peopled(ix, many)
  {
  }

  /** The books are in order: rooms belong to registered users, and the wins of registered
      users exceed the losses that went through by the losses that were refused. */
  ghost predicate InOrder(rows: Rows, books: Books) {
    var now := EnterAll(rows, books.entries);
    && NOBODY !in now && Peopled(books.index, now.Keys)
    && Surplus(rows, books.entries) == FailedLosses(rows, books.entries)
  }

  lemma SignUpKeepsOrder(rows: Rows, books: Books, uid: Uid, name: string)
    requires InOrder(rows, books) && uid != NOBODY
    ensures InOrder(rows, Books(books.index, books.entries + [Register(uid, name)]))
  {
    EnterOneMore(rows, books.entries, Register(uid, name));
    MorePeople(books.index, EnterAll(rows, books.entries).Keys,
               EnterAll(rows, books.entries + [Register(uid, name)]).Keys);
  }

  lemma PlayKeepsOrder(rows: Rows, books: Books, c: Call)
    requires InOrder(rows, books) && Invites(c, EnterAll(rows, books.entries).Keys)
    ensures InOrder(rows, Books(Do(books.index, c).index, books.entries + Scores(Do(books.index, c).calls)))
  {
    var people := EnterAll(rows, books.entries).Keys;
    var calls := Do(books.index, c).calls;
    CallKeepsPeopled(books.index, c, people);
    if calls == [] {
      assert books.entries + Scores(calls) == books.entries;
    } else {
      GameKeepsBalance(rows, books.entries, calls[0].uid, calls[1].uid);
      assert Scores(calls) == [Score(Win(calls[0].uid)), Score(Lose(calls[1].uid))];
    }
  }

  lemma {:induction false} BooksAreInOrder(rows: Rows, hs: seq<Happening>)
    requires NOBODY !in rows && Registered(rows, hs)
    ensures InOrder(rows, Keep(hs))
  {
    if hs == [] {
    } else {
      BooksAreInOrder(rows, hs[..|hs| - 1]);
      var before := Keep(hs[..|hs| - 1]);
      match hs[|hs| - 1] {
        case SignUp(uid, name) => SignUpKeepsOrder(rows, before, uid, name);
        case Play(c) => PlayKeepsOrder(rows, before, c);
      }
    }
  }

  /** Whatever the players do, in any number of rooms, and whoever registers in between:
      if the scores add up to 1000 for each user at the start, say in an empty table, then
      after any run of the server they add up to 1000 for each user, plus 30 for each loss
      that the unsigned score column refused. */
  lemma ServerConservesScores(rows: Rows, hs: seq<Happening>)
    requires NOBODY !in rows && Sum(rows) == INITIAL_SCORE * |rows| && Registered(rows, hs)
    ensures var entries := Keep(hs).entries;
            var after := EnterAll(rows, entries);
            Sum(after) == INITIAL_SCORE * |after| + STAKE * FailedLosses(rows, entries)
  {
    BooksAreInOrder(rows, hs);
    SumIsConserved(rows, Keep(hs).entries);
  }

  // ----- Every room of the server runs like a room on its own -----

  /** The event that a call is for the room with this id, if any. */
  function EventFor(ix: Index, c: Call, rid: nat): seq<Event> {
    match c
    case Depart(uid, now) =>
      if InRoom(ix, uid) && ix.users[uid] == rid then [Event(now, now, Leave(uid))] else []
    case Message(uid, roomId, req, online, now, later) =>
      if InRoom(ix, uid) && ix.users[uid] == rid then [Event(now, later, Ask(roomId, req, online))] else []
    case _ => []
  }

  /** The state in which the room was opened, and what has happened to it since. */
  datatype Life = Unborn | Life(origin: State, evs: seq<Event>)

  ghost function LifeOf(cs: seq<Call>, rid: nat): Life {
    if cs == [] then Unborn
    else
      var before, c := After(cs[..|cs| - 1]), cs[|cs| - 1];
      var life := LifeOf(cs[..|cs| - 1], rid);
      if c.Create? && before.next == rid && After(cs).next != rid then
        Life(Opened(rid, c.uid1, c.uid2, c.now), [])
      else if life.Life? then Life(life.origin, life.evs + EventFor(before, c, rid))
      else Unborn
  }

  ghost function Clock(cs: seq<Call>): nat {
    if cs == [] then 0
    else
      match cs[|cs| - 1]
      case Create(_, _, _, now) => now
      case Remove(_, now) => now
      case Depart(_, now) => now
      case Message(_, _, _, _, _, later) => later
  }

  /** The clock never goes back between calls or within one. */
  ghost predicate OnTime(cs: seq<Call>) {
    cs == [] ||
    (OnTime(cs[..|cs| - 1]) && Clock(cs[..|cs| - 1]) <=
       match cs[|cs| - 1]
       case Create(_, _, _, now) => now
       case Remove(_, now) => now
       case Depart(_, now) => now
       case Message(_, _, _, _, now, later) => if now <= later then now else -1)
  }

  lemma RunOneMore(s0: State, evs: seq<Event>, e: Event)
    ensures RoomRuns.Run(s0, evs + [e]) == Step(RoomRuns.Run(s0, evs), e).state
    ensures Timely(s0, evs) && Now(s0, evs) <= e.now <= e.later ==> Timely(s0, evs + [e])
    ensures Now(s0, evs + [e]) == e.later
  {
    assert (evs + [e])[..|evs|] == evs;
  }

  /** The room is where its own events lead from the state in which it was opened. */
  ghost predicate Alone(life: Life, s: State, clock: nat) {
    && life.Life? && s == RoomRuns.Run(life.origin, life.evs)
    && life.origin == Opened(life.origin.id, life.origin.white, life.origin.black, life.origin.turnStart)
    && Timely(life.origin, life.evs) && Now(life.origin, life.evs) <= clock
  }

  /** A call that is no event for a room leaves it alone while it lives. */
  lemma OtherRoomsStay(ix: Index, c: Call, rid: nat)
    requires Sound(ix) && rid in ix.rooms && rid in Do(ix, c).index.rooms && EventFor(ix, c, rid) == []
    ensures Do(ix, c).index.rooms[rid] == ix.rooms[rid]
  {
  }

  /** A call that is an event for a room has the effect of that event. */
  lemma EventStepsRoom(ix: Index, c: Call, rid: nat)
    requires rid in ix.rooms && rid in Do(ix, c).index.rooms && EventFor(ix, c, rid) != []
    ensures var e := EventFor(ix, c, rid)[0];
            && Do(ix, c).index.rooms[rid] == Step(ix.rooms[rid], e).state && EventFor(ix, c, rid) == [e]
            && Do(ix, c).calls == Step(ix.rooms[rid], e).calls
            && ((c.Depart? && e.now == e.later == c.now) || (c.Message? && e.now == c.now && e.later == c.later))
  {
  }

  /** One call, seen from one room that was alive before it and still is. */
  lemma CallIsAnEvent(ix: Index, c: Call, rid: nat, life: Life, clock: nat, clock': nat)
    requires Sound(ix) && rid in ix.rooms && rid in Do(ix, c).index.rooms && Alone(life, ix.rooms[rid], clock)
    requires clock <= clock'
    requires c.Depart? ==> clock <= c.now <= clock'
    requires c.Message? ==> clock <= c.now <= c.later <= clock'
    ensures Alone(Life(life.origin, life.evs + EventFor(ix, c, rid)), Do(ix, c).index.rooms[rid], clock')
  {
    if EventFor(ix, c, rid) == [] {
      OtherRoomsStay(ix, c, rid);
      assert life.evs + EventFor(ix, c, rid) == life.evs;
    } else {
      EventStepsRoom(ix, c, rid);
      RunOneMore(life.origin, life.evs, EventFor(ix, c, rid)[0]);
    }
  }

  /** Every live room of the server is in a state of a timely run of its own, from the state
      in which it was opened: what is proved of all runs of one room holds of every room. */
  lemma {:induction false} RoomsRunAlone(cs: seq<Call>, rid: nat)
    requires OnTime(cs) && rid in After(cs).rooms
    ensures Alone(LifeOf(cs, rid), After(cs).rooms[rid], Clock(cs))
  {
    var before, c := cs[..|cs| - 1], cs[|cs| - 1];
    var ix := After(before);
    IndexIsSound(before);
    if rid in ix.rooms {
      RoomsRunAlone(before, rid);
      CallIsAnEvent(ix, c, rid, LifeOf(before, rid), Clock(before), Clock(cs));
    } else {
      assert c.Create? && rid == ix.next;
    }
  }

  /** What the server has scored for one room. */
  ghost function ScoredFor(cs: seq<Call>, rid: nat): seq<Op> {
    if cs == [] then []
    else
      var before := cs[..|cs| - 1];
      ScoredFor(before, rid)
      + if EventFor(After(before), cs[|cs| - 1], rid) != [] then Do(After(before), cs[|cs| - 1]).calls else []
  }

  /** An event for a room, also one that ends it, scores what the room scores. */
  lemma EventScores(ix: Index, c: Call, rid: nat)
    requires Sound(ix) && EventFor(ix, c, rid) != []
    ensures rid in ix.rooms && Do(ix, c).calls == Step(ix.rooms[rid], EventFor(ix, c, rid)[0]).calls
    ensures |EventFor(ix, c, rid)| == 1
  {
  }

  /** A call that is an event for no room scores nothing. */
  lemma NoEventNoScore(ix: Index, c: Call)
    requires forall rid <- ix.rooms :: EventFor(ix, c, rid) == []
    ensures Do(ix, c).calls == []
  {
    if c.Depart? || c.Message? {
      assert InRoom(ix, c.uid) ==> EventFor(ix, c, ix.users[c.uid]) != [];
    }
  }

  lemma ScoredOneMore(s0: State, evs: seq<Event>, e: Event)
    ensures Scored(s0, evs + [e]) == Scored(s0, evs) + Step(RoomRuns.Run(s0, evs), e).calls
  {
    assert (evs + [e])[..|evs|] == evs;
  }

  /** For every room, live or gone, the server scores exactly what the room's own run scores. */
  lemma {:induction false} RoomsScoreAlone(cs: seq<Call>, rid: nat)
    requires OnTime(cs)
    ensures match LifeOf(cs, rid)
            case Unborn => ScoredFor(cs, rid) == [] && rid !in After(cs).rooms
            case Life(origin, evs) => ScoredFor(cs, rid) == Scored(origin, evs) && rid < After(cs).next
  {
    if cs == [] {
    } else {
      var before, c := cs[..|cs| - 1], cs[|cs| - 1];
      var ix, life := After(before), LifeOf(before, rid);
      RoomsScoreAlone(before, rid);
      IndexIsSound(before);
      NextNeverFalls(ix, c);
      var es := EventFor(ix, c, rid);
      if es == [] {
        assert life.Life? ==> life.evs + es == life.evs;
      } else {
        EventScores(ix, c, rid);
        RoomsRunAlone(before, rid);
        ScoredOneMore(life.origin, life.evs, es[0]);
        assert es == [es[0]];
      }
    }
  }

  /** A request reaches the room of its sender and changes that room alone; a sender in no
      room changes nothing. */
  lemma RequestsReachOneRoom(ix: Index, c: Call)
    requires c.Message?
    ensures var done := Do(ix, c);
            if c.uid in ix.users && ix.users[c.uid] in ix.rooms then
              var rid := ix.users[c.uid];
              var out := Handle(ix.rooms[rid], c.roomId, c.req, c.online, c.now, c.later);
              done == Done(ix.(rooms := ix.rooms[rid := out.state]), out.calls)
            else done == Done(ix, [])
  {
  }

  /** Every live room between two different users satisfies the room invariant, and its
      board, turn and clocks are those of the moves accepted in it since the last start. */
  lemma LiveRoomsTell(cs: seq<Call>, rid: nat, people: set<Uid>)
    requires OnTime(cs) && NOBODY !in people && forall i | 0 <= i < |cs| :: Invites(cs[i], people)
    requires rid in After(cs).rooms && After(cs).rooms[rid].white != After(cs).rooms[rid].black
    ensures var s, life := After(cs).rooms[rid], LifeOf(cs, rid);
            life.Life? && Sane(s) && Tells(s, Moves(life.origin, life.evs))
  {
    RoomsRunAlone(cs, rid);
    ServerScoresGames(cs, people);
    var o := LifeOf(cs, rid).origin;
    RolesFollowRematches(o, LifeOf(cs, rid).evs);
    OpenedIsSane(o.id, o.white, o.black, o.turnStart);
    OpenedTells(o.id, o.white, o.black, o.turnStart);
    RunTells(o, LifeOf(cs, rid).evs);
  }
}
