/** The user table and its cache: two keys of a shared store stand for one row. */
module UserTable {
  import opened Ledger

  /** The value kept under both keys of a user. */
  datatype User = User(id: Uid, row: Row)

  datatype Key = ById(uid: Uid) | ByName(name: string)

  type Keys = map<Key, User>

  /** Every value is some registered user's, under a key of that user. */
  ghost predicate Labelled(keys: Keys, rows: Rows) {
    forall k | k in keys ::
      && keys[k].id in rows && rows[keys[k].id].name == keys[k].row.name
      && match k case ById(u) => keys[k].id == u case ByName(n) => keys[k].row.name == n
  }

  /** A name key is never present without the id key of the same user. */
  ghost predicate Linked(keys: Keys) {
    forall n | ByName(n) in keys :: ById(keys[ByName(n)].id) in keys
  }

  ghost predicate Holds(keys: Keys, uid: Uid) {
    exists k :: k in keys && keys[k].id == uid
  }

  /** The store after each of the two commands of setUser: id key first. */
  function SetStates(keys: Keys, u: User): seq<Keys> {
    [keys[ById(u.id) := u], keys[ById(u.id) := u][ByName(u.row.name) := u]]
  }

  /** The store after each command of invalidateById: the name key goes first, and only
      if the id key is there to tell the name. */
  function InvalidateStates(keys: Keys, uid: Uid): seq<Keys> {
    var named := if ById(uid) in keys then keys - {ByName(keys[ById(uid)].row.name)} else keys;
    [named, named - {ById(uid)}]
  }

  /** Every state in the middle and at the end of setUser keeps the link. */
  lemma SetKeepsLink(keys: Keys, rows: Rows, u: User)
    requires Unique(rows) && Labelled(keys, rows) && Linked(keys)
    requires u.id in rows && rows[u.id].name == u.row.name
    ensures forall i | 0 <= i < 2 :: Labelled(SetStates(keys, u)[i], rows) && Linked(SetStates(keys, u)[i])
  {
  }

  /** Every state in the middle and at the end of invalidateById keeps the link, and at the
      end no key, by id or by name, holds a value of that user. */
  lemma InvalidateKeepsLink(keys: Keys, rows: Rows, uid: Uid)
    requires Unique(rows) && Labelled(keys, rows) && Linked(keys)
    ensures forall i | 0 <= i < 2 ::
              Labelled(InvalidateStates(keys, uid)[i], rows) && Linked(InvalidateStates(keys, uid)[i])
    ensures !Holds(InvalidateStates(keys, uid)[1], uid)
    ensures forall k | k in keys && keys[k].id != uid ::
              k in InvalidateStates(keys, uid)[1] && InvalidateStates(keys, uid)[1][k] == keys[k]
  {
    var named, gone := InvalidateStates(keys, uid)[0], InvalidateStates(keys, uid)[1];
    forall k | k in gone ensures gone[k].id != uid {
      if k.ByName? {
        assert ById(keys[k].id) in keys;
      }
    }
  }

  /** setUser racing with invalidateById of the same user: the first command of setUser runs
      after `a` of the three commands of invalidateById (get, delete name, delete id), the
      second after `b`. These are the stores at the start and after every command. */
  function RaceStates(keys: Keys, u: User, a: nat, b: nat): (states: seq<Keys>)
    requires a <= b <= 3
    ensures |states| == 11
  {
    var k0 := if a == 0 then keys[ById(u.id) := u] else keys;
    var k1 := if b == 0 then k0[ByName(u.row.name) := u] else k0;
    var got := if ById(u.id) in k1 then {ByName(k1[ById(u.id)].row.name)} else {};
    var k2 := if a == 1 then k1[ById(u.id) := u] else k1;
    var k3 := if b == 1 then k2[ByName(u.row.name) := u] else k2;
    var k4 := k3 - got;
    var k5 := if a == 2 then k4[ById(u.id) := u] else k4;
    var k6 := if b == 2 then k5[ByName(u.row.name) := u] else k5;
    var k7 := k6 - {ById(u.id)};
    var k8 := if a == 3 then k7[ById(u.id) := u] else k7;
    var k9 := if b == 3 then k8[ByName(u.row.name) := u] else k8;
    [keys, k0, k1, k2, k3, k4, k5, k6, k7, k8, k9]
  }

  function Race(keys: Keys, u: User, a: nat, b: nat): Keys
    requires a <= b <= 3
  {
    RaceStates(keys, u, a, b)[10]
  }

  /** The two races without interleaving are the calls themselves, one after the other. */
  lemma RaceEnds(keys: Keys, u: User)
    ensures Race(keys, u, 0, 0) == InvalidateStates(SetStates(keys, u)[1], u.id)[1]
    ensures Race(keys, u, 3, 3) == SetStates(InvalidateStates(keys, u.id)[1], u)[1]
  {
  }

  /** What a race leaves under the two keys of the user, and elsewhere. */
  lemma RaceOutcome(keys: Keys, u: User, a: nat, b: nat)
    requires a <= b <= 3
    requires ById(u.id) in keys ==> keys[ById(u.id)].row.name == u.row.name
    ensures var end, name := Race(keys, u, a, b), ByName(u.row.name);
            && (ById(u.id) in end <==> a == 3)
            && (name in end <==> b >= 2 || !(a == 0 || ById(u.id) in keys))
            && (name in end ==> end[name] == u) && (a == 3 ==> end[ById(u.id)] == u)
            && end - {name, ById(u.id)} == keys - {name, ById(u.id)}
  {
  }

  /** When the two calls are interleaved command by command the link can break: it is kept
      exactly when setUser starts after the whole invalidation, or finishes before the name
      is deleted by an invalidation that has seen the id key. */
  lemma RaceKeepsLink(keys: Keys, rows: Rows, u: User, a: nat, b: nat)
    requires Unique(rows) && Labelled(keys, rows) && Linked(keys)
    requires u.id in rows && rows[u.id].name == u.row.name && a <= b <= 3
    ensures Linked(Race(keys, u, a, b)) <==> a == 3 || (b <= 1 && (a == 0 || ById(u.id) in keys))
  {
    RaceOutcome(keys, u, a, b);
    if a == 3 || ByName(u.row.name) !in Race(keys, u, a, b) {
      GuardedIsLinked(keys, rows, Race(keys, u, a, b), u);
    }
  }

  /** Only the two keys of the user change, and the name key is never alone. */
  predicate Guarded(keys: Keys, k: Keys, u: User) {
    && k - {ByName(u.row.name), ById(u.id)} == keys - {ByName(u.row.name), ById(u.id)}
    && (ByName(u.row.name) in k ==> k[ByName(u.row.name)].id == u.id && ById(u.id) in k)
  }

  lemma GuardedIsLinked(keys: Keys, rows: Rows, k: Keys, u: User)
    requires Unique(rows) && Labelled(keys, rows) && Linked(keys) && u.id in rows && rows[u.id].name == u.row.name
    requires Guarded(keys, k, u)
    ensures Linked(k)
  {
    var others := k - {ByName(u.row.name), ById(u.id)};
    forall n | ByName(n) in k ensures ById(k[ByName(n)].id) in k {
      if n != u.row.name {
        assert ByName(n) in others && k[ByName(n)] == keys[ByName(n)];
        assert ById(keys[ByName(n)].id) in others;
      }
    }
  }

  /** What each command does to a guarded store; got is the name that the get has returned. */
  lemma CommandsGuard(keys: Keys, k: Keys, u: User, got: set<Key>)
    requires Guarded(keys, k, u) && got <= {ByName(u.row.name)}
    ensures Guarded(keys, k[ById(u.id) := u], u)
    ensures ById(u.id) in k ==> Guarded(keys, k[ByName(u.row.name) := u], u)
    ensures Guarded(keys, k - got, u)
    ensures ByName(u.row.name) !in k ==> Guarded(keys, k - {ById(u.id)}, u)
  {
  }

  /** setUser finishes before the name is deleted, by an invalidation that has seen the id. */
  lemma EarlyRaceIsGuarded(keys: Keys, u: User, a: nat, b: nat)
    requires a <= b <= 1 && (a == 0 || ById(u.id) in keys) && Guarded(keys, keys, u)
    requires ById(u.id) in keys ==> keys[ById(u.id)].row.name == u.row.name
    ensures forall i | 0 <= i < 11 :: Guarded(keys, RaceStates(keys, u, a, b)[i], u)
  {
    var st, name := RaceStates(keys, u, a, b), {ByName(u.row.name)};
    CommandsGuard(keys, st[0], u, name);
    CommandsGuard(keys, st[1], u, name);
    CommandsGuard(keys, st[2], u, name);
    CommandsGuard(keys, st[3], u, name);
    CommandsGuard(keys, st[4], u, name);
    CommandsGuard(keys, st[5], u, name);
    assert st[5] == st[4] - name && st[6] == st[5] && st[7] == st[5];
    assert st[10] == st[9] == st[8] == st[7] - {ById(u.id)};
  }

  /** setUser starts after the whole invalidation. */
  lemma LateRaceIsGuarded(keys: Keys, u: User)
    requires Guarded(keys, keys, u) && (ById(u.id) in keys ==> keys[ById(u.id)].row.name == u.row.name)
    ensures forall i | 0 <= i < 11 :: Guarded(keys, RaceStates(keys, u, 3, 3)[i], u)
  {
    var st, name := RaceStates(keys, u, 3, 3), {ByName(u.row.name)};
    var got := if ById(u.id) in keys then name else {};
    CommandsGuard(keys, keys, u, got);
    assert st[1] == st[2] == st[3] == st[4] == keys && st[5] == st[6] == st[7] == keys - got;
    CommandsGuard(keys, st[7], u, got);
    CommandsGuard(keys, st[8], u, got);
    CommandsGuard(keys, st[9], u, got);
  }

  /** The same condition decides whether the link holds after every command of the race. */
  lemma RaceKeepsLinkThroughout(keys: Keys, rows: Rows, u: User, a: nat, b: nat)
    requires Unique(rows) && Labelled(keys, rows) && Linked(keys)
    requires u.id in rows && rows[u.id].name == u.row.name && a <= b <= 3
    ensures (forall i | 0 <= i < 11 :: Linked(RaceStates(keys, u, a, b)[i]))
              <==> a == 3 || (b <= 1 && (a == 0 || ById(u.id) in keys))
  {
    if a == 3 || (b <= 1 && (a == 0 || ById(u.id) in keys)) {
      if a == 3 {
        LateRaceIsGuarded(keys, u);
      } else {
        EarlyRaceIsGuarded(keys, u, a, b);
      }
      forall i | 0 <= i < 11 ensures Linked(RaceStates(keys, u, a, b)[i]) {
        GuardedIsLinked(keys, rows, RaceStates(keys, u, a, b)[i], u);
      }
    } else {
      RaceKeepsLink(keys, rows, u, a, b);
      assert !Linked(RaceStates(keys, u, a, b)[10]);
    }
  }

  /** A race that leaves the name key alone: the id key is set before, the name key after an
      invalidation. A later invalidation of the user does not find the name and leaves the
      key where it is. */
  lemma RaceOrphansName(u: User)
    ensures var end := Race(map[], u, 0, 3);
            && !Linked(end) && end == map[ByName(u.row.name) := u]
            && Holds(InvalidateStates(end, u.id)[1], u.id)
  {
    var end := Race(map[], u, 0, 3);
    assert ByName(u.row.name) in InvalidateStates(end, u.id)[1];
    assert ById(end[ByName(u.row.name)].id) !in end;
  }

  // ----- The cache and the table -----

  class RedisUserCache {
    var keys: Keys
    /** The store after every command so far: what other clients could have seen. */
    ghost var seen: seq<Keys>

    constructor ()
      ensures keys == map[] && seen == []
    {
      keys, seen := map[], [];
    }

    method Set(k: Key, u: User)
      modifies this
      ensures keys == old(keys)[k := u] && seen == old(seen) + [keys]
    {
      keys := keys[k := u];
      seen := seen + [keys];
    }

    method Del(k: Key)
      modifies this
      ensures keys == old(keys) - {k} && seen == old(seen) + [keys]
    {
      keys := keys - {k};
      seen := seen + [keys];
    }

    method GetByKey(k: Key) returns (hit: bool, user: User)
      ensures hit <==> k in keys
      ensures hit ==> user == keys[k]
    {
      hit := k in keys;
      user := if hit then keys[k] else User(NOBODY, Row("", 0, 0, 0));
    }

    method SetUser(u: User)
      modifies this
      ensures seen == old(seen) + SetStates(old(keys), u) && keys == SetStates(old(keys), u)[1]
    {
      Set(ById(u.id), u);
      Set(ByName(u.row.name), u);
    }

    method InvalidateById(uid: Uid)
      modifies this
      ensures keys == InvalidateStates(old(keys), uid)[1]
      ensures exists states :: seen == old(seen) + states && forall s <- states :: s in InvalidateStates(old(keys), uid)
    {
      ghost var states := [];
      var hit, u := GetByKey(ById(uid));
      if hit {
        Del(ByName(u.row.name));
        states := [keys];
      }
      Del(ById(uid));
      states := states + [keys];
      assert seen == old(seen) + states;
    }
  }

  /** Every cached value is the current row of its user. */
  ghost predicate Current(keys: Keys, rows: Rows) {
    forall k | k in keys :: keys[k].id in rows && keys[k].row == rows[keys[k].id]
  }

  class UserTable {
    var rows: Rows
    var nextId: Uid
    /** null stands for the cache that never hits. */
    const cache: RedisUserCache?

    ghost predicate Valid()
      reads this, cache
    {
      && Unique(rows)
      && nextId != NOBODY && (forall u <- rows :: NOBODY < u < nextId)
      && (cache != null ==> Labelled(cache.keys, rows) && Linked(cache.keys) && Current(cache.keys, rows))
    }

    constructor (userCache: RedisUserCache?)
      requires userCache != null ==> userCache.keys == map[]
      ensures Valid() && rows == map[] && cache == userCache
    {
      rows, nextId, cache := map[], 1, userCache;
    }

    /** Registration under the next id; the id is spent even when the name is taken. */
    method Insert(name: string) returns (ok: bool)
      requires Valid()
      modifies this
      ensures Valid()
      ensures ok <==> !NameTaken(old(rows), name)
      ensures nextId == old(nextId) + 1
      ensures rows == Enter(old(rows), Register(old(nextId), name))
      ensures rows == if ok then old(rows)[old(nextId) := Row(name, 1000, 0, 0)] else old(rows)
    {
      ok := !NameTaken(rows, name);
      if ok {
        rows := rows[nextId := Row(name, INITIAL_SCORE, 0, 0)];
      }
      nextId := nextId + 1;
    }

    /** The answer is that of the table alone, whether or not the cache hits. */
    method SelectById(id: Uid) returns (found: bool, user: User)
      requires Valid()
      modifies cache
      ensures Valid() && rows == old(rows)
      ensures found <==> id in rows
      ensures found ==> user == User(id, rows[id])
      ensures cache != null ==>
                cache.keys == if !found || ById(id) in old(cache.keys) then old(cache.keys)
                              else old(cache.keys)[ById(id) := user][ByName(user.row.name) := user]
    {
      if cache != null {
        found, user := cache.GetByKey(ById(id));
        if found {
          return;
        }
      }
      found := id in rows;
      user := User(id, if found then rows[id] else Row("", 0, 0, 0));
      if found && cache != null {
        SetKeepsLink(cache.keys, rows, user);
        cache.SetUser(user);
      }
    }

    method SelectByName(name: string) returns (found: bool, user: User)
      requires Valid()
      modifies cache
      ensures Valid() && rows == old(rows)
      ensures found <==> NameTaken(rows, name)
      ensures found ==> user.id in rows && user.row == rows[user.id] && user.row.name == name
      ensures cache != null ==>
                cache.keys == if !found || ByName(name) in old(cache.keys) then old(cache.keys)
                              else old(cache.keys)[ById(user.id) := user][ByName(name) := user]
    {
      if cache != null {
        found, user := cache.GetByKey(ByName(name));
        if found {
          return;
        }
      }
      found := NameTaken(rows, name);
      if found {
        var u :| u in rows && rows[u].name == name;
        user := User(u, rows[u]);
        if cache != null {
          SetKeepsLink(cache.keys, rows, user);
          cache.SetUser(user);
        }
      } else {
        user := User(NOBODY, Row("", 0, 0, 0));
      }
    }

    /** win and lose: the update, then the invalidation, under the table's lock. */
    method Score(op: Op) returns (ok: bool)
      requires Valid()
      modifies this, cache
      ensures Valid()
      ensures rows == Update(old(rows), op)
      ensures ok <==> !Fails(old(rows), op)
      ensures ok <==> !(op.Lose? && op.uid in old(rows) && old(rows)[op.uid].score < 30)
      ensures cache != null ==>
                forall k :: k in cache.keys <==> k in old(cache.keys) && (ok ==> old(cache.keys)[k].id != op.uid)
    {
      ok := !Fails(rows, op);
      if !ok {
        return;
      }
      ghost var was := rows;
      rows := Update(rows, op);
      if cache != null {
        InvalidateKeepsLink(cache.keys, was, op.uid);
        cache.InvalidateById(op.uid);
        StillLabelled(cache.keys, was, op);
      }
    }

    /** Both keys of a user expire together. */
    method Expire(uid: Uid)
      requires Valid()
      modifies cache
      ensures Valid() && rows == old(rows)
    {
      if cache != null && uid in rows {
        cache.Del(ByName(rows[uid].name));
        cache.Del(ById(uid));
      }
    }
  }

  /** An update changes neither names nor other users' rows. */
  lemma StillLabelled(keys: Keys, rows: Rows, op: Op)
    requires Unique(rows) && Labelled(keys, rows) && !Holds(keys, op.uid)
    ensures Unique(Update(rows, op)) && Labelled(keys, Update(rows, op))
    ensures Update(rows, op).Keys == rows.Keys
    ensures Current(keys, rows) ==> Current(keys, Update(rows, op))
  {
    forall k | k in keys ensures keys[k].id != op.uid {
    }
  }
}
