/** The room manager: room objects in a map that changes in place. */
module RoomManager {
  import opened Ledger
  import opened RoomModel
  import Ix = RoomIndex
  import opened Room

  class RoomManager {
    var nextRid: nat
    var rooms: map<nat, Room>
    var users: map<Uid, nat>
    /** The states of the rooms, room by room. */
    ghost var states: map<nat, State>

    ghost function Cells(): set<object>
      reads this, rooms.Values
    {
      set r | r in rooms.Values :: r.cells
    }

    /** Rooms are kept under their own ids, share no board, and are in the states recorded. */
    ghost predicate Valid()
      reads this, rooms.Values, Cells()
    {
      && states.Keys == rooms.Keys
      && (forall rid <- rooms ::
            rid < nextRid && rooms[rid].id == rid && rooms[rid].Valid() && rooms[rid].Model() == states[rid])
      && (forall a, b | a in rooms && b in rooms && a != b :: rooms[a].cells != rooms[b].cells)
    }

    ghost function Model(): Ix.Index
      reads this
    {
      Ix.Index(nextRid, states, users)
    }

    constructor ()
      ensures Valid() && Model() == Ix.START
    {
      nextRid, rooms, users, states := 1, map[], map[], map[];
    }

    /** Null when a player is not in the hall. */
    method CreateRoom(uid1: Uid, uid2: Uid, hall: set<Uid>, now: nat) returns (room: Room?)
      requires Valid()
      modifies this
      ensures Valid()
      ensures Model() == Ix.CreateRoom(old(Model()), uid1, uid2, hall, now)
      ensures room == null <==> uid1 !in hall || uid2 !in hall
      ensures room != null ==> fresh(room) && old(nextRid) in rooms && rooms[old(nextRid)] == room
    {
      if uid1 !in hall || uid2 !in hall {
        return null;
      }
      var r := new Room(nextRid, uid1, uid2, now);
      users := Ix.Insert(Ix.Insert(users, uid1, nextRid), uid2, nextRid);
      AddRoom(r);
      room := r;
    }

    method AddRoom(r: Room)
      requires Valid() && r.Valid() && r.id == nextRid && forall rid <- rooms :: rooms[rid].cells != r.cells
      modifies this`rooms, this`states, this`nextRid
      ensures Valid() && nextRid == old(nextRid) + 1
      ensures rooms == old(rooms)[r.id := r] && states == old(states)[r.id := r.Model()]
    {
      rooms, states := rooms[nextRid := r], states[nextRid := r.Model()];
      nextRid := nextRid + 1;
    }

    method DropRoom(rid: nat)
      requires Valid()
      modifies this`rooms, this`states
      ensures Valid() && rooms == old(rooms) - {rid} && states == old(states) - {rid}
    {
      rooms, states := rooms - {rid}, states - {rid};
    }

    method GetRoomByRid(rid: nat) returns (room: Room?)
      ensures if rid in rooms then room == rooms[rid] else room == null
    {
      room := if rid in rooms then rooms[rid] else null;
    }

    method GetRoomByUid(uid: Uid) returns (room: Room?)
      ensures if uid in users && users[uid] in rooms then room == rooms[users[uid]] else room == null
    {
      room := if uid in users && users[uid] in rooms then rooms[users[uid]] else null;
    }

    method RemoveRoom(rid: nat)
      requires Valid()
      modifies this
      ensures Valid() && Model() == Ix.RemoveRoom(old(Model()), rid)
    {
      var room := GetRoomByRid(rid);
      if room == null {
        return;
      }
      assert room.white == states[rid].white && room.black == states[rid].black;
      users := users - {room.white, room.black};
      DropRoom(rid);
    }

    /** Valid, but for the state recorded of one room. */
    ghost predicate ValidBut(rid: nat)
      reads this, rooms.Values, Cells()
    {
      && states.Keys == rooms.Keys && rid in rooms
      && (forall r <- rooms ::
            r < nextRid && rooms[r].id == r && rooms[r].Valid() && (r != rid ==> rooms[r].Model() == states[r]))
      && (forall a, b | a in rooms && b in rooms && a != b :: rooms[a].cells != rooms[b].cells)
    }

    ghost method Record(rid: nat)
      requires ValidBut(rid)
      modifies this`states
      ensures Valid() && states == old(states)[rid := rooms[rid].Model()]
    {
      states := states[rid := rooms[rid].Model()];
    }

    /** One player leaves one room; the other rooms stay as they are. */
    method ExitFrom(rid: nat, uid: Uid) returns (calls: seq<Op>)
      requires Valid() && rid in rooms
      modifies this`states, rooms[rid]
      ensures Valid()
      ensures states == old(states)[rid := Exit(old(states)[rid], uid).state]
      ensures calls == Exit(old(states)[rid], uid).calls
    {
      var msg;
      msg, calls := rooms[rid].HandleExit(uid);
      Record(rid);
    }

    /** One room handles a request; the other rooms stay as they are. */
    method RequestTo(rid: nat, roomId: nat, req: Request, online: set<Uid>, now: nat, later: nat)
      returns (msg: Message, calls: seq<Op>)
      requires Valid() && rid in rooms
      modifies this`states, rooms[rid], rooms[rid].cells
      ensures Valid()
      ensures var out := Handle(old(states)[rid], roomId, req, online, now, later);
              states == old(states)[rid := out.state] && msg == out.msg && calls == out.calls
    {
      msg, calls := rooms[rid].HandleRequest(roomId, req, online, now, later);
      Record(rid);
    }

    /** calls are the updates of the user table that the exit causes. */
    method RemoveRoomUser(uid: Uid) returns (calls: seq<Op>)
      requires Valid()
      modifies this, rooms.Values
      ensures Valid()
      ensures Model() == Ix.DepartRoom(old(Model()), uid).index
      ensures calls == Ix.DepartRoom(old(Model()), uid).calls
    {
      calls := [];
      var room := GetRoomByUid(uid);
      if room == null {
        return;
      }
      ghost var was := Model();
      ghost var out := Exit(was.rooms[room.id], uid);
      calls := ExitFrom(room.id, uid);
      assert Model() == was.(rooms := was.rooms[room.id := out.state]);
      assert room.playerCount == out.state.playerCount;
      if room.playerCount == 0 {
        RemoveRoom(room.id);
      }
    }

    /** A request on the room connection of user uid; no reply when the user is in no room. */
    method HandleMessage(uid: Uid, roomId: nat, req: Request, online: set<Uid>, now: nat, later: nat)
      returns (reply: seq<Message>, calls: seq<Op>)
      requires Valid()
      modifies this`states, rooms.Values, Cells()
      ensures Valid()
      ensures Model() == Ix.MessageRoom(old(Model()), uid, roomId, req, online, now, later).index
      ensures calls == Ix.MessageRoom(old(Model()), uid, roomId, req, online, now, later).calls
      ensures reply == if Ix.InRoom(old(Model()), uid)
                       then [Handle(old(states[users[uid]]), roomId, req, online, now, later).msg] else []
    {
      reply, calls := [], [];
      var room := GetRoomByUid(uid);
      if room == null {
        return;
      }
      ghost var was := Model();
      ghost var out := Handle(was.rooms[room.id], roomId, req, online, now, later);
      var msg;
      msg, calls := RequestTo(room.id, roomId, req, online, now, later);
      assert Model() == was.(rooms := was.rooms[room.id := out.state]);
      reply := [msg];
    }
  }
}
