/** Sessions as the server uses them: in memory, backed by a cache that can restore them. */
module SessionServer {
  import opened Ledger
  import opened Wrappers
  import opened Sessions

  datatype Cached = Cached(uid: Uid, expires: Deadline)

  type Cache = map<nat, Cached>

  /** The time to live given to cached sessions, in seconds. */
  const CACHE_SECONDS: int := SESSION_TIMEOUT / 1000

  predicate Hit(cache: Cache, ssid: nat, now: nat) {
    ssid in cache && (cache[ssid].expires.Until? ==> now < cache[ssid].expires.time)
  }

  /** The expire command does nothing to a key that is not there. */
  function Touched(cache: Cache, ssid: nat, seconds: int, now: nat): Cache {
    if seconds <= 0 || !Hit(cache, ssid, now) then cache
    else cache[ssid := cache[ssid].(expires := Until(now + 1000 * seconds))]
  }

  /** A value set without a positive time to live stays. */
  function Lifetime(seconds: int, now: nat): Deadline {
    if seconds > 0 then Until(now + 1000 * seconds) else Forever
  }

  datatype State = State(now: nat, next: nat, memory: Table, cache: Cache)

  const START := State(0, 1, map[], map[])

  /** session_expire_with_cache: memory first, then the cache. */
  function ExpireBoth(s: State, ssid: nat, ms: int): State {
    s.(memory := Renewed(s.memory, ssid, ms, s.now),
       cache := if ms == SESSION_FOREVER then s.cache - {ssid}
                else if ms > 0 then Touched(s.cache, ssid, ms / 1000, s.now)
                else s.cache)
  }

  function Created(s: State, uid: Uid): State {
    s.(next := (s.next + 1) % TWO_TO_THE_64, memory := s.memory[s.next := Entry(uid, Forever)])
  }

  function Remembered(s: State, ssid: nat, uid: Uid): State {
    s.(cache := s.cache[ssid := Cached(uid, Lifetime(CACHE_SECONDS, s.now))])
  }

  /** A login creates the session, starts its timer, and caches it. */
  function LoggedIn(s: State, uid: Uid): State {
    Remembered(ExpireBoth(Created(s, uid), s.next, SESSION_TIMEOUT), s.next, uid)
  }

  function Reappeared(s: State, ssid: nat, uid: Uid): State {
    s.(memory := s.memory[ssid := Entry(uid, Forever)],
       next := if ssid >= s.next then (ssid + 1) % TWO_TO_THE_64 else s.next)
  }

  /** The session as it was, with a new timer. */
  function PutBack(s: State, ssid: nat, uid: Uid): State {
    ExpireBoth(Reappeared(s, ssid, uid), ssid, SESSION_TIMEOUT)
  }

  /** A lookup that misses memory and hits the cache puts the session back. */
  function Found(s: State, ssid: nat): State {
    if ssid in s.memory || !Hit(s.cache, ssid, s.now) then s else PutBack(s, ssid, s.cache[ssid].uid)
  }

  /** What a lookup answers: from memory, else from the cache, else nobody. */
  function Answer(s: State, ssid: nat): Option<Uid> {
    if ssid in s.memory then Some(s.memory[ssid].uid)
    else if Hit(s.cache, ssid, s.now) then Some(s.cache[ssid].uid)
    else None
  }

  predicate Due(s: State, ssid: nat) {
    ssid in s.memory && s.memory[ssid].deadline.Until? && s.memory[ssid].deadline.time <= s.now
  }

  datatype Call =
    | Login(uid: Uid)
    | Find(ssid: nat)
    | Expire(ssid: nat, ms: int)
    | TimerFires(ssid: nat)
    | Wait(time: nat)

  function Step(s: State, c: Call): State {
    match c
    case Login(uid) => LoggedIn(s, uid)
    case Find(ssid) => Found(s, ssid)
    case Expire(ssid, ms) => ExpireBoth(s, ssid, ms)
    case TimerFires(ssid) => if Due(s, ssid) then s.(memory := s.memory - {ssid}) else s
    case Wait(time) => s.(now := s.now + time)
  }

  function Run(cs: seq<Call>): State {
    if cs == [] then START else Step(Run(cs[..|cs| - 1]), cs[|cs| - 1])
  }

  // ----- Identity -----

  function Logins(cs: seq<Call>): nat {
    if cs == [] then 0 else Logins(cs[..|cs| - 1]) + if cs[|cs| - 1].Login? then 1 else 0
  }

  /** Who each session id was issued to; a later issue of the same id would win. */
  function Issued(cs: seq<Call>): map<nat, Uid> {
    if cs == [] then map[]
    else
      var before, c := cs[..|cs| - 1], cs[|cs| - 1];
      if c.Login? then Issued(before)[Run(before).next := c.uid] else Issued(before)
  }

  ghost predicate Agrees(s: State, issued: map<nat, Uid>) {
    && s.next < TWO_TO_THE_64
    && (forall ssid <- issued :: ssid < s.next)
    && (forall ssid <- s.memory :: ssid in issued && issued[ssid] == s.memory[ssid].uid)
    && (forall ssid <- s.cache :: ssid in issued && issued[ssid] == s.cache[ssid].uid)
  }

  lemma StepAgrees(s: State, c: Call, issued: map<nat, Uid>)
    requires Agrees(s, issued) && (c.Login? ==> s.next + 1 < TWO_TO_THE_64)
    ensures Agrees(Step(s, c), if c.Login? then issued[s.next := c.uid] else issued)
    ensures Step(s, c).next == if c.Login? then s.next + 1 else s.next
  {
  }

  lemma {:induction false} RunAgrees(cs: seq<Call>)
    requires Logins(cs) + 1 < TWO_TO_THE_64
    ensures Run(cs).next == Logins(cs) + 1 && Agrees(Run(cs), Issued(cs))
  {
    if cs == [] {
    } else {
      RunAgrees(cs[..|cs| - 1]);
      StepAgrees(Run(cs[..|cs| - 1]), cs[|cs| - 1], Issued(cs[..|cs| - 1]));
    }
  }

  /** While fewer than 2^64 - 1 sessions have been issued, starting from an empty cache: the
      next id is above every id known to memory or cache and was never issued before, and
      every lookup that finds a session, in memory or restored, finds the user it was issued to. */
  lemma SessionsKeepTheirUsers(cs: seq<Call>, ssid: nat)
    requires Logins(cs) + 1 < TWO_TO_THE_64
    ensures var s := Run(cs);
            && s.next !in Issued(cs) && s.next < TWO_TO_THE_64
            && (ssid in s.memory || ssid in s.cache ==> ssid < s.next)
            && (Answer(s, ssid).Some? ==> ssid in Issued(cs) && Answer(s, ssid).value == Issued(cs)[ssid])
            && Answer(Found(s, ssid), ssid) == Answer(s, ssid)
  {
    RunAgrees(cs);
  }

  /** An id keeps its user for the rest of the run. */
  lemma {:induction false} IssuesAreForever(cs: seq<Call>, n: nat, ssid: nat)
    requires n <= |cs| && Logins(cs) + 1 < TWO_TO_THE_64 && ssid in Issued(cs[..n])
    ensures ssid in Issued(cs) && Issued(cs)[ssid] == Issued(cs[..n])[ssid]
    decreases |cs|
  {
    if n == |cs| {
      assert cs[..n] == cs;
    } else {
      var before := cs[..|cs| - 1];
      assert before[..n] == cs[..n];
      IssuesAreForever(before, n, ssid);
      RunAgrees(before);
    }
  }

  // ----- Lifetime -----

  /** From the n-th call on, nobody sets the deadline of this session. */
  ghost predicate Undisturbed(cs: seq<Call>, n: nat, ssid: nat) {
    forall i | n <= i < |cs| :: cs[i].Expire? ==> cs[i].ssid != ssid
  }

  ghost predicate Before(now: nat, deadline: Deadline) {
    match deadline case Forever => true case Until(time) => now < time
  }

  /** One call that does not set the deadline of this session nor outlast it. */
  lemma StepKeepsSession(s: State, c: Call, ssid: nat, issued: map<nat, Uid>)
    requires Agrees(s, issued) && ssid in s.memory
    requires (c.Expire? ==> c.ssid != ssid) && Before(Step(s, c).now, s.memory[ssid].deadline)
    ensures ssid in Step(s, c).memory && Step(s, c).memory[ssid] == s.memory[ssid]
  {
  }

  lemma TimeGoesOn(s: State, c: Call)
    ensures s.now <= Step(s, c).now
  {
  }

  /** A session that is in memory stays there, with its user and deadline, as long as the
      deadline it was last given has not passed; without a deadline it stays for good. */
  lemma {:induction false} SessionsLastUntilTheirDeadline(cs: seq<Call>, n: nat, ssid: nat)
    requires n <= |cs| && Logins(cs) + 1 < TWO_TO_THE_64 && ssid in Run(cs[..n]).memory && Undisturbed(cs, n, ssid)
    requires Before(Run(cs).now, Run(cs[..n]).memory[ssid].deadline)
    ensures ssid in Run(cs).memory && Run(cs).memory[ssid] == Run(cs[..n]).memory[ssid]
    decreases |cs|
  {
    if n == |cs| {
      assert cs[..n] == cs;
    } else {
      var before, c := cs[..|cs| - 1], cs[|cs| - 1];
      SamePrefix(cs, n);
      TimeGoesOn(Run(before), c);
      SessionsLastUntilTheirDeadline(before, n, ssid);
      RunAgrees(before);
      StepKeepsSession(Run(before), c, ssid, Issued(before));
    }
  }

  lemma SamePrefix(cs: seq<Call>, n: nat)
    requires n < |cs|
    ensures cs[..|cs| - 1][..n] == cs[..n]
  {
  }

  // ----- The cache and the server -----

  class RedisSessionCache {
    var keys: Cache

    constructor ()
      ensures keys == map[]
    {
      keys := map[];
    }

    method SetSession(ssid: nat, uid: Uid, seconds: int, now: nat)
      modifies this
      ensures keys == old(keys)[ssid := Cached(uid, Lifetime(seconds, now))]
    {
      keys := keys[ssid := Cached(uid, Forever)];
      if seconds > 0 {
        keys := keys[ssid := keys[ssid].(expires := Until(now + 1000 * seconds))];
      }
    }

    method GetSession(ssid: nat, now: nat) returns (hit: bool, uid: Uid)
      ensures hit <==> Hit(keys, ssid, now)
      ensures hit ==> uid == keys[ssid].uid
    {
      hit := ssid in keys && (keys[ssid].expires.Until? ==> now < keys[ssid].expires.time);
      uid := if hit then keys[ssid].uid else NOBODY;
    }

    method DelSession(ssid: nat)
      modifies this
      ensures keys == old(keys) - {ssid}
    {
      keys := keys - {ssid};
    }

    method ExpireSession(ssid: nat, seconds: int, now: nat)
      modifies this
      ensures keys == Touched(old(keys), ssid, seconds, now)
    {
      if seconds > 0 && Hit(keys, ssid, now) {
        keys := keys[ssid := keys[ssid].(expires := Until(now + 1000 * seconds))];
      }
    }
  }

  class SessionServer {
    const sm: SessionManager
    const cache: RedisSessionCache

    ghost predicate Handled()
      reads this, sm, sm.sessions.Values
    {
      sm.Handled()
    }

    /** Moreover, no timer is orphaned. */
    ghost predicate Valid()
      reads this, sm, sm.sessions.Values
    {
      sm.Valid()
    }

    ghost function Model(now: nat): State
      reads this, sm, sm.sessions.Values, cache
    {
      State(now, sm.nextSsid, sm.Model(), cache.keys)
    }

    constructor ()
      ensures Valid() && Model(0) == START && fresh(sm) && fresh(cache)
    {
      sm := new SessionManager();
      cache := new RedisSessionCache();
    }

    method SessionExpireWithCache(ssid: nat, ms: int, now: nat)
      requires Handled()
      modifies sm`timers, sm`nextTimer, sm.sessions.Values, cache
      ensures Handled() && sm.sessions == old(sm.sessions)
      ensures old(Valid()) ==> Valid()
      ensures Model(now) == ExpireBoth(old(Model(now)), ssid, ms)
    {
      sm.SetSessionExpireTime(ssid, ms, now);
      if ms == SESSION_FOREVER {
        cache.DelSession(ssid);
      } else if ms > 0 {
        cache.ExpireSession(ssid, ms / 1000, now);
      }
    }

    method NewSession(uid: Uid, now: nat) returns (ssid: nat)
      requires Handled()
      modifies sm
      ensures Handled() && ssid == old(sm.nextSsid)
      ensures old(Valid()) && ssid !in old(sm.sessions) ==> Valid()
      ensures fresh(sm.sessions.Values - old(sm.sessions.Values))
      ensures Model(now) == Created(old(Model(now)), uid)
    {
      var ssp := sm.CreateSession(uid, true);
      ssid := ssp.ssid;
    }

    method CacheSession(ssid: nat, uid: Uid, now: nat)
      modifies cache
      ensures Model(now) == Remembered(old(Model(now)), ssid, uid)
    {
      cache.SetSession(ssid, uid, SESSION_TIMEOUT / 1000, now);
    }

    method LogIn(uid: Uid, now: nat) returns (ssid: nat)
      requires Handled()
      modifies sm, sm.sessions.Values, cache
      ensures Handled() && ssid == old(sm.nextSsid)
      ensures old(Valid()) && ssid !in old(sm.sessions) ==> Valid()
      ensures Model(now) == LoggedIn(old(Model(now)), uid)
    {
      ssid := NewSession(uid, now);
      SessionExpireWithCache(ssid, SESSION_TIMEOUT, now);
      CacheSession(ssid, uid, now);
    }

    /** A logged-in session of this user, put in the map under an old id. */
    method Reappear(ssid: nat, uid: Uid, now: nat) returns (ssp: Session)
      requires Handled()
      modifies sm
      ensures old(Valid()) && ssid !in old(sm.sessions) ==> Valid()
      ensures Handled() && fresh(ssp) && ssp.ssid == ssid && ssp.uid == uid
      ensures sm.sessions == old(sm.sessions)[ssid := ssp]
      ensures Model(now) == Reappeared(old(Model(now)), ssid, uid)
    {
      ssp := new Session(ssid);
      ssp.loggedIn, ssp.uid := true, uid;
      assert forall s <- sm.sessions :: sm.sessions[s] != ssp;
      assert sm.Model() == old(sm.Model());
      sm.AppendSession(ssp);
    }

    method RestoreSession(ssid: nat, uid: Uid, now: nat) returns (ssp: Session)
      requires Handled()
      modifies sm, sm.sessions.Values, cache
      ensures old(Valid()) && ssid !in old(sm.sessions) ==> Valid()
      ensures Handled() && ssp.ssid == ssid && ssp.uid == uid
      ensures Model(now) == PutBack(old(Model(now)), ssid, uid)
    {
      ssp := Reappear(ssid, uid, now);
      SessionExpireWithCache(ssid, SESSION_TIMEOUT, now);
      assert sm.sessions[ssid] == ssp && sm.Model()[ssid].uid == uid;
    }

    /** The session of a cookie's ssid: from memory, else restored from the cache, else null. */
    method GetSession(ssid: nat, now: nat) returns (ssp: Session?)
      requires Handled()
      modifies sm, sm.sessions.Values, cache
      ensures Handled()
      ensures old(Valid()) ==> Valid()
      ensures Model(now) == Found(old(Model(now)), ssid)
      ensures match Answer(old(Model(now)), ssid)
              case Some(uid) => ssp != null && ssp.ssid == ssid && ssp.uid == uid
              case None => ssp == null
    {
      ssp := sm.GetSessionBySsid(ssid);
      if ssp != null {
        return;
      }
      var hit, uid := cache.GetSession(ssid, now);
      if !hit {
        return;
      }
      ssp := RestoreSession(ssid, uid, now);
    }
  }
}
