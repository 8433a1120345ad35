/** The matcher and the rooms together: when a worker has found its two players online, it
    asks for a room, and what the room index answers is what the worker gets. */
module Lobby {
  import opened Ledger
  import M = Matching
  import Ix = RoomIndex

  /** The steps of the matcher so far, and the calls on the room index. */
  datatype Lobby = Lobby(acts: seq<M.Action>, calls: seq<Ix.Call>) {
    function Matcher(): M.State {
      M.Run(acts)
    }

    ghost function Index(): Ix.Index {
      Ix.After(calls)
    }
  }

  /** hall is who is in the hall, in case the step asks for a room. Nobody else creates rooms. */
  datatype Happening = Match(a: M.Action, hall: set<Uid>, now: nat) | Room(c: Ix.Call)

  predicate Opens(m: M.State, a: M.Action) {
    a.Tick? && m.workers.At(a.band).Open?
  }

  function Request(m: M.State, a: M.Action, hall: set<Uid>, now: nat): Ix.Call
    requires Opens(m, a)
  {
    Ix.Create(m.workers.At(a.band).one.uid, m.workers.At(a.band).two.uid, hall, now)
  }

  function Answered(m: M.State, a: M.Action, hall: set<Uid>): M.Action
    requires Opens(m, a)
  {
    a.(created := m.workers.At(a.band).one.uid in hall && m.workers.At(a.band).two.uid in hall)
  }

  function Next(l: Lobby, h: Happening): Lobby {
    match h
    case Match(a, hall, now) =>
      if Opens(l.Matcher(), a) then
        Lobby(l.acts + [Answered(l.Matcher(), a, hall)], l.calls + [Request(l.Matcher(), a, hall, now)])
      else l.(acts := l.acts + [a])
    case Room(c) => if c.Create? then l else l.(calls := l.calls + [c])
  }

  function After(hs: seq<Happening>): Lobby {
    if hs == [] then Lobby([], []) else Next(After(hs[..|hs| - 1]), hs[|hs| - 1])
  }

  // ----- Rooms are matches -----

  /** A match is recorded by the step that asks for a room and gets it, and by no other. */
  lemma MatchesByOpening(m: M.State, a: M.Action)
    ensures M.Step(m, a).matched ==
              if Opens(m, a) && a.created then m.matched + [M.Pair(m.workers.At(a.band).one, m.workers.At(a.band).two)]
              else m.matched
  {
  }

  /** The rooms have been numbered as the matches, and each live one is between the two
      players of its match. */
  ghost predicate Paired(m: M.State, ix: Ix.Index) {
    && ix.next == |m.matched| + 1
    && forall rid <- ix.rooms ::
         && 1 <= rid <= |m.matched|
         && {ix.rooms[rid].white, ix.rooms[rid].black} == {m.matched[rid - 1].one.uid, m.matched[rid - 1].two.uid}
  }

  lemma RoomCallKeepsPaired(m: M.State, ix: Ix.Index, c: Ix.Call)
    requires Ix.Sound(ix) && Paired(m, ix) && !c.Create?
    ensures Paired(m, Ix.Do(ix, c).index)
  {
    if c.Message? && Ix.InRoom(ix, c.uid) {
      Ix.HandleKeepsPlayers(ix.rooms[ix.users[c.uid]], c.roomId, c.req, c.online, c.now, c.later);
    }
  }

  lemma OpeningKeepsPaired(m: M.State, ix: Ix.Index, a: M.Action, hall: set<Uid>, now: nat)
    requires Paired(m, ix) && Opens(m, a)
    ensures Paired(M.Step(m, Answered(m, a, hall)), Ix.Do(ix, Request(m, a, hall, now)).index)
  {
    MatchesByOpening(m, Answered(m, a, hall));
  }

  lemma MatcherTakes(l: Lobby, a: M.Action)
    ensures l.(acts := l.acts + [a]).Matcher() == M.Step(l.Matcher(), a)
  {
    M.RunOn(l.acts, a);
  }

  lemma IndexTakes(l: Lobby, c: Ix.Call)
    ensures l.(calls := l.calls + [c]).Index() == Ix.Do(l.Index(), c).index
  {
    Ix.AfterOneMore(l.calls, c);
  }

  /** Through any run of matcher and rooms: the k-th match is the k-th room, and a live room is
      between the two players who were matched for it. */
  lemma {:induction false} RoomsAreMatches(hs: seq<Happening>)
    ensures Paired(After(hs).Matcher(), After(hs).Index())
  {
    if hs == [] {
    } else {
      var l, h := After(hs[..|hs| - 1]), hs[|hs| - 1];
      RoomsAreMatches(hs[..|hs| - 1]);
      match h {
        case Match(a, hall, now) =>
          if Opens(l.Matcher(), a) {
            MatcherTakes(l, Answered(l.Matcher(), a, hall));
            IndexTakes(l, Request(l.Matcher(), a, hall, now));
            OpeningKeepsPaired(l.Matcher(), l.Index(), a, hall, now);
          } else {
            MatcherTakes(l, a);
            MatchesByOpening(l.Matcher(), a);
          }
        case Room(c) =>
          if !c.Create? {
            Ix.IndexIsSound(l.calls);
            IndexTakes(l, c);
            RoomCallKeepsPaired(l.Matcher(), l.Index(), c);
          }
      }
    }
  }

  // ----- Waiting and playing -----

  /** No player waits twice, and no player waits while mapped to a room. */
  ghost predicate Apart(m: M.State, ix: Ix.Index) {
    forall u :: M.Live(m, u) <= 1 && (M.Live(m, u) > 0 ==> u !in ix.users)
  }

  ghost predicate AlwaysApart(hs: seq<Happening>) {
    Apart(After(hs).Matcher(), After(hs).Index()) && (hs == [] || AlwaysApart(hs[..|hs| - 1]))
  }

  /** If the step admits a player, he neither waits nor is mapped to a room. */
  ghost predicate AdmitsFree(l: Lobby, h: Happening) {
    h.Match? && M.Admits(l.Matcher(), h.a) ==> M.Live(l.Matcher(), h.a.uid) == 0 && h.a.uid !in l.Index().users
  }

  ghost predicate AlwaysFree(hs: seq<Happening>) {
    hs == [] || (AlwaysFree(hs[..|hs| - 1]) && AdmitsFree(After(hs[..|hs| - 1]), hs[|hs| - 1]))
  }

  lemma RoomCallMapsNobody(ix: Ix.Index, c: Ix.Call)
    requires !c.Create?
    ensures Ix.Do(ix, c).index.users.Keys <= ix.users.Keys
  {
  }

  /** The tokens of the players who get a room are spent. */
  lemma OpeningSpends(m: M.State, a: M.Action, u: Uid)
    requires Opens(m, a) && a.created
    ensures M.Live(M.Step(m, a), u) + M.One(m.workers.At(a.band).one.uid, u) + M.One(m.workers.At(a.band).two.uid, u)
         == M.Live(m, u)
  {
    M.SettleConserves(m, a.band, M.Check, m.queues.At(a.band), u);
  }

  lemma HolderIsLive(m: M.State, b: M.Band, u: Uid)
    ensures M.Held(m.workers.At(b), u) <= M.Live(m, u)
  {
  }

  /** A room is asked for two players who are mapped nowhere. */
  lemma RequestIsClean(m: M.State, ix: Ix.Index, a: M.Action, hall: set<Uid>, now: nat)
    requires Apart(m, ix) && Opens(m, a)
    ensures Ix.Clean(ix, Request(m, a, hall, now))
  {
    HolderIsLive(m, a.band, m.workers.At(a.band).one.uid);
    HolderIsLive(m, a.band, m.workers.At(a.band).two.uid);
  }

  lemma OpeningKeepsApart(m: M.State, ix: Ix.Index, a: M.Action, hall: set<Uid>, now: nat)
    requires Apart(m, ix) && Opens(m, a)
    ensures Apart(M.Step(m, Answered(m, a, hall)), Ix.Do(ix, Request(m, a, hall, now)).index)
  {
    var a', pc := Answered(m, a, hall), m.workers.At(a.band);
    var ix' := Ix.Do(ix, Request(m, a, hall, now)).index;
    forall u ensures M.Live(M.Step(m, a'), u) <= 1 && (M.Live(M.Step(m, a'), u) > 0 ==> u !in ix'.users) {
      if a'.created {
        OpeningSpends(m, a', u);
        assert u in ix'.users ==> u in ix.users || u == pc.one.uid || u == pc.two.uid;
      } else {
        M.StepConserves(m, a', u);
        assert ix' == ix;
      }
    }
  }

  /** Any other step of the matcher keeps them apart exactly if it admits nobody who waits or
      is mapped. */
  lemma StepAndApart(l: Lobby, h: Happening)
    requires Apart(l.Matcher(), l.Index()) && h.Match? && !Opens(l.Matcher(), h.a)
    ensures Apart(M.Step(l.Matcher(), h.a), l.Index()) <==> AdmitsFree(l, h)
  {
    var m, a := l.Matcher(), h.a;
    if AdmitsFree(l, h) {
      forall u ensures M.Live(M.Step(m, a), u) <= 1 && (M.Live(M.Step(m, a), u) > 0 ==> u !in l.Index().users) {
        M.StepConserves(m, a, u);
      }
    } else {
      M.AdmittingAddsOne(m, a);
      assert M.Live(M.Step(m, a), a.uid) >= 1;
    }
  }

  lemma NextAndApart(l: Lobby, h: Happening)
    requires Apart(l.Matcher(), l.Index())
    ensures Apart(Next(l, h).Matcher(), Next(l, h).Index()) <==> AdmitsFree(l, h)
  {
    match h {
      case Match(a, hall, now) =>
        if Opens(l.Matcher(), a) {
          MatcherTakes(l, Answered(l.Matcher(), a, hall));
          IndexTakes(l, Request(l.Matcher(), a, hall, now));
          OpeningKeepsApart(l.Matcher(), l.Index(), a, hall, now);
        } else {
          MatcherTakes(l, a);
          StepAndApart(l, h);
        }
      case Room(c) =>
        if !c.Create? {
          IndexTakes(l, c);
          RoomCallMapsNobody(l.Index(), c);
        }
    }
  }

  lemma StartIsApart()
    ensures Apart(M.START, Ix.START)
  {
  }

  /** No player ever waits twice or waits while mapped to a room, exactly when add is never
      admitted for a player who waits or is mapped. */
  lemma {:induction false} ApartIsExact(hs: seq<Happening>)
    ensures AlwaysApart(hs) <==> AlwaysFree(hs)
  {
    if hs == [] {
      StartIsApart();
    } else {
      ApartIsExact(hs[..|hs| - 1]);
      if AlwaysApart(hs[..|hs| - 1]) {
        NextAndApart(After(hs[..|hs| - 1]), hs[|hs| - 1]);
      }
    }
  }

  lemma CleanOneMore(cs: seq<Ix.Call>, c: Ix.Call)
    requires Ix.AlwaysClean(cs) && Ix.Clean(Ix.After(cs), c)
    ensures Ix.AlwaysClean(cs + [c])
  {
    assert (cs + [c])[..|cs|] == cs;
  }

  lemma CarefulOneMore(acts: seq<M.Action>, a: M.Action)
    requires M.Careful(acts) && (M.Admits(M.Run(acts), a) ==> M.Live(M.Run(acts), a.uid) == 0)
    ensures M.Careful(acts + [a])
  {
    assert (acts + [a])[..|acts|] == acts;
  }

  lemma {:induction false} FreeIsCleanAndCareful(hs: seq<Happening>)
    requires AlwaysFree(hs)
    ensures Ix.AlwaysClean(After(hs).calls) && M.Careful(After(hs).acts)
  {
    if hs == [] {
    } else {
      var l, h := After(hs[..|hs| - 1]), hs[|hs| - 1];
      FreeIsCleanAndCareful(hs[..|hs| - 1]);
      ApartIsExact(hs[..|hs| - 1]);
      match h {
        case Match(a, hall, now) =>
          if Opens(l.Matcher(), a) {
            RequestIsClean(l.Matcher(), l.Index(), a, hall, now);
            CleanOneMore(l.calls, Request(l.Matcher(), a, hall, now));
            CarefulOneMore(l.acts, Answered(l.Matcher(), a, hall));
          } else {
            CarefulOneMore(l.acts, a);
          }
        case Room(c) =>
          if !c.Create? {
            CleanOneMore(l.calls, c);
          }
      }
    }
  }

  /** If add is only admitted for players who neither wait nor are mapped to a room, then the
      two maps of the rooms agree, and every live room is between the two players of its
      match, who are different. */
  lemma LobbyIsInOrder(hs: seq<Happening>, rid: nat, uid: Uid)
    requires AlwaysFree(hs)
    ensures var m, ix := After(hs).Matcher(), After(hs).Index();
            && (Ix.MappedTo(ix, uid, rid) <==> Ix.PlaysIn(ix, rid, uid))
            && (rid in ix.rooms ==>
                  && ix.rooms[rid].white != ix.rooms[rid].black && 1 <= rid <= |m.matched|
                  && {ix.rooms[rid].white, ix.rooms[rid].black}
                       == {m.matched[rid - 1].one.uid, m.matched[rid - 1].two.uid})
  {
    FreeIsCleanAndCareful(hs);
    Ix.MapsAgree(After(hs).calls, rid, uid);
    RoomsAreMatches(hs);
    M.RoomsHaveTwoPlayers(After(hs).acts);
    var m, ix := After(hs).Matcher(), After(hs).Index();
    if rid in ix.rooms {
      var pair := m.matched[rid - 1];
      assert pair.one.uid != pair.two.uid;
      assert pair.one.uid in {ix.rooms[rid].white, ix.rooms[rid].black};
      assert pair.two.uid in {ix.rooms[rid].white, ix.rooms[rid].black};
    }
  }
}
