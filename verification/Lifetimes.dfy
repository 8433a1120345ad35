/** The life of one session, told by the calls alone: each session goes its own way, whatever
    happens to the others. */
module Lifetimes {
  import opened Ledger
  import opened Wrappers
  import opened Sessions
  import opened SessionServer

  /** Until when the session is in memory, if it is, and when its cache key expires, if it is
      there. A session that was never issued has no user. */
  datatype Life = Life(user: Option<Uid>, memory: Option<Deadline>, cache: Option<nat>)

  const UNBORN := Life(None, None, None)

  /** Memory and cache, both for 30 s from now. */
  function Fresh(user: Option<Uid>, now: nat): Life {
    Life(user, Some(Until(now + 30000)), Some(now + 30000))
  }

  predicate InCache(l: Life, now: nat) {
    l.cache.Some? && now < l.cache.value
  }

  /** One call, seen by one session; mine tells that the call is the login that issues it. */
  function LifeAfter(l: Life, c: Call, mine: bool, ssid: nat, now: nat): Life {
    match c
    case Login(uid) => if mine then Fresh(Some(uid), now) else l
    case Find(id) => if id == ssid && l.memory.None? && InCache(l, now) then Fresh(l.user, now) else l
    case Expire(id, ms) =>
      if id != ssid then l
      else if ms == -1 then l.(memory := if l.memory.None? then None else Some(Forever), cache := None)
      else
        l.(memory := if l.memory.None? then None else Some(Until(if ms >= 0 then now + ms else now)),
           cache := if ms >= 1000 && InCache(l, now) then Some(now + 1000 * (ms / 1000)) else l.cache)
    case TimerFires(id) =>
      if id == ssid && l.memory.Some? && l.memory.value.Until? && l.memory.value.time <= now then l.(memory := None)
      else l
    case Wait(_) => l
  }

  /** The clock of a run. */
  function Clock(cs: seq<Call>): nat {
    if cs == [] then 0 else Clock(cs[..|cs| - 1]) + if cs[|cs| - 1].Wait? then cs[|cs| - 1].time else 0
  }

  /** The n-th login of a run issues the id n. */
  function LifeOf(cs: seq<Call>, ssid: nat): Life {
    if cs == [] then UNBORN
    else
      var before, c := cs[..|cs| - 1], cs[|cs| - 1];
      LifeAfter(LifeOf(before, ssid), c, ssid == Logins(before) + 1, ssid, Clock(before))
  }

  /** The server's state has this life for this session. */
  ghost predicate Shows(s: State, ssid: nat, l: Life) {
    && (match l.memory
        case None => ssid !in s.memory
        case Some(deadline) => ssid in s.memory && l.user.Some? && s.memory[ssid] == Entry(l.user.value, deadline))
    && (match l.cache
        case None => ssid !in s.cache
        case Some(expires) => ssid in s.cache && l.user.Some? && s.cache[ssid] == Cached(l.user.value, Until(expires)))
  }

  lemma LoginShows(s: State, uid: Uid, ssid: nat, l: Life)
    requires Shows(s, ssid, l)
    ensures Shows(LoggedIn(s, uid), ssid, LifeAfter(l, Login(uid), ssid == s.next, ssid, s.now))
  {
  }

  lemma FindShows(s: State, id: nat, ssid: nat, l: Life)
    requires Shows(s, ssid, l)
    ensures Shows(Found(s, id), ssid, LifeAfter(l, Find(id), ssid == s.next, ssid, s.now))
  {
  }

  lemma ExpireShows(s: State, id: nat, ms: int, ssid: nat, l: Life)
    requires Shows(s, ssid, l)
    ensures Shows(ExpireBoth(s, id, ms), ssid, LifeAfter(l, Expire(id, ms), ssid == s.next, ssid, s.now))
  {
  }

  lemma StepShows(s: State, c: Call, ssid: nat, l: Life)
    requires Shows(s, ssid, l)
    ensures Shows(Step(s, c), ssid, LifeAfter(l, c, ssid == s.next, ssid, s.now))
  {
    match c {
      case Login(uid) => LoginShows(s, uid, ssid, l);
      case Find(id) => FindShows(s, id, ssid, l);
      case Expire(id, ms) => ExpireShows(s, id, ms, ssid, l);
      case _ =>
    }
  }

  /** After any run with fewer than 2^64 - 1 logins, memory and cache hold of each session
      exactly what its own life says. */
  lemma {:induction false} RunShowsEveryLife(cs: seq<Call>, ssid: nat)
    requires Logins(cs) + 1 < TWO_TO_THE_64
    ensures Shows(Run(cs), ssid, LifeOf(cs, ssid)) && Run(cs).now == Clock(cs)
  {
    if cs == [] {
    } else {
      RunShowsEveryLife(cs[..|cs| - 1], ssid);
      RunAgrees(cs[..|cs| - 1]);
      StepShows(Run(cs[..|cs| - 1]), cs[|cs| - 1], ssid, LifeOf(cs[..|cs| - 1], ssid));
    }
  }

  /** A lookup finds the session exactly when it is in memory, or else in the cache and not
      expired there; it answers the user of the login that issued it. */
  lemma LookupsAnswerExactly(cs: seq<Call>, ssid: nat)
    requires Logins(cs) + 1 < TWO_TO_THE_64
    ensures var l := LifeOf(cs, ssid);
            Answer(Run(cs), ssid) == if l.memory.Some? || InCache(l, Clock(cs)) then l.user else None
  {
    RunShowsEveryLife(cs, ssid);
  }

  // ----- Setting the deadline -----

  lemma RunsStep(cs: seq<Call>, n: nat)
    requires n < |cs|
    ensures Run(cs[..n + 1]) == Step(Run(cs[..n]), cs[n])
  {
    assert cs[..n + 1][..n] == cs[..n];
  }

  /** A session set to stay for good, as on entering the hall or a room, is found at any later
      time of the run, as long as nobody sets another deadline. */
  lemma ForeverIsForever(cs: seq<Call>, n: nat, ssid: nat)
    requires n < |cs| && cs[n] == Expire(ssid, -1) && ssid in Run(cs[..n]).memory
    requires Undisturbed(cs, n + 1, ssid) && Logins(cs) + 1 < TWO_TO_THE_64
    ensures Answer(Run(cs), ssid) == Some(Run(cs[..n]).memory[ssid].uid)
    ensures ssid in Run(cs).memory && Run(cs).memory[ssid].deadline == Forever
  {
    RunsStep(cs, n);
    SessionsLastUntilTheirDeadline(cs, n + 1, ssid);
  }

  lemma ExpireSets(s: State, ssid: nat, ms: nat)
    requires ssid in s.memory
    ensures var t := Step(s, Expire(ssid, ms));
            ssid in t.memory && t.memory[ssid] == Entry(s.memory[ssid].uid, Until(s.now + ms)) && t.now == s.now
  {
  }

  /** The timer takes its session away at the deadline or later, not before, and no other. */
  lemma TimersFireExactly(s: State, id: nat, ssid: nat)
    requires ssid in s.memory
    ensures ssid in Step(s, TimerFires(id)).memory <==>
              !(id == ssid && s.memory[ssid].deadline.Until? && s.memory[ssid].deadline.time <= s.now)
    ensures ssid in Step(s, TimerFires(id)).memory ==> Step(s, TimerFires(id)).memory[ssid] == s.memory[ssid]
  {
  }

  /** A session given ms milliseconds has exactly that deadline, and is found until then. */
  lemma DeadlinesAreExact(cs: seq<Call>, n: nat, ssid: nat, ms: nat)
    requires n < |cs| && cs[n] == Expire(ssid, ms) && ssid in Run(cs[..n]).memory
    requires Undisturbed(cs, n + 1, ssid) && Logins(cs) + 1 < TWO_TO_THE_64
    ensures ssid in Run(cs[..n + 1]).memory
    ensures Run(cs[..n + 1]).memory[ssid].deadline == Until(Run(cs[..n]).now + ms)
    ensures Run(cs).now < Run(cs[..n]).now + ms ==> Answer(Run(cs), ssid) == Some(Run(cs[..n]).memory[ssid].uid)
  {
    RunsStep(cs, n);
    ExpireSets(Run(cs[..n]), ssid, ms);
    if Run(cs).now < Run(cs[..n]).now + ms {
      SessionsLastUntilTheirDeadline(cs, n + 1, ssid);
    }
  }
}
