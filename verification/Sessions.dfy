/** Sessions in memory, each with at most one cancellable timer, and the session cache
    behind them. Times are in milliseconds. */
module Sessions {
  import opened Ledger
  import opened Wrappers

  const SESSION_TIMEOUT: int := 30000
  const SESSION_FOREVER: int := -1
  const TWO_TO_THE_64: nat := 0x1_0000_0000_0000_0000

  // ----- The plain map that the timers stand for -----

  datatype Deadline = Forever | Until(time: nat)

  datatype Entry = Entry(uid: Uid, deadline: Deadline)

  type Table = map<nat, Entry>

  function DeadlineAfter(now: nat, ms: int): Deadline {
    if ms == SESSION_FOREVER then Forever else Until(if ms < 0 then now else now + ms)
  }

  function Renewed(t: Table, ssid: nat, ms: int, now: nat): Table {
    if ssid !in t then t else t[ssid := t[ssid].(deadline := DeadlineAfter(now, ms))]
  }

  // ----- The manager -----

  /** A timer whose callback has not run and that has not been cancelled. */
  datatype Timer = Timer(ssid: nat, due: nat)

  class Session {
    const ssid: nat
    var uid: Uid
    var loggedIn: bool
    var timer: Option<nat>

    constructor (id: nat)
      ensures ssid == id && uid == NOBODY && !loggedIn && timer == None
    {
      ssid, uid, loggedIn, timer := id, NOBODY, false, None;
    }
  }

  class SessionManager {
    var nextSsid: nat
    var sessions: map<nat, Session>
    /** The pending timers of the server, by handle. */
    var timers: map<nat, Timer>
    var nextTimer: nat

    /** Sessions are kept under their ids; a handle that is still pending is a timer of the
        session that has it. */
    ghost predicate Handled()
      reads this, sessions.Values
    {
      && nextSsid < TWO_TO_THE_64
      && (forall s <- sessions :: sessions[s].ssid == s && OwnHandle(sessions[s]))
      && (forall t <- timers :: t < nextTimer)
    }

    ghost predicate OwnHandle(ssp: Session)
      reads this, ssp
    {
      ssp.timer.Some? ==>
        ssp.timer.value < nextTimer && (ssp.timer.value in timers ==> timers[ssp.timer.value].ssid == ssp.ssid)
    }

    /** Moreover, every pending timer is the handle of a session that is present: so no
        session has two timers, and no timer is orphaned. */
    ghost predicate Valid()
      reads this, sessions.Values
    {
      Handled() && forall t <- timers :: timers[t].ssid in sessions && sessions[timers[t].ssid].timer == Some(t)
    }

    ghost function DeadlineOf(s: Session): Deadline
      reads this, s
    {
      if s.timer.Some? && s.timer.value in timers then Until(timers[s.timer.value].due) else Forever
    }

    ghost function Model(): Table
      reads this, sessions.Values
    {
      map s | s in sessions :: Entry(sessions[s].uid, DeadlineOf(sessions[s]))
    }

    constructor ()
      ensures Valid() && Model() == map[] && nextSsid == 1
    {
      nextSsid, sessions, timers, nextTimer := 1, map[], map[], 0;
    }

    /** The session is in the map under its id, in place of any other. */
    method Keep(ssp: Session)
      requires Handled() && OwnHandle(ssp)
      modifies this`sessions
      ensures Handled() && sessions == old(sessions)[ssp.ssid := ssp]
      ensures Model() == old(Model())[ssp.ssid := Entry(ssp.uid, DeadlineOf(ssp))]
      ensures old(Valid()) && ssp.ssid !in old(sessions) ==> Valid()
    {
      sessions := sessions[ssp.ssid := ssp];
    }

    /** The next id is the one after this. */
    method NextAfter(ssid: nat)
      requires Handled()
      modifies this`nextSsid
      ensures Handled() && nextSsid == (ssid + 1) % TWO_TO_THE_64
      ensures Model() == old(Model()) && (old(Valid()) ==> Valid())
    {
      nextSsid := (ssid + 1) % TWO_TO_THE_64;
    }

    /** The session replaces one that the map may hold under the same id, after a wrap. */
    method CreateSession(uid: Uid, login: bool) returns (ssp: Session)
      requires Handled()
      modifies this`sessions, this`nextSsid
      ensures Handled() && fresh(ssp) && ssp.ssid == old(nextSsid)
      ensures old(Valid()) && old(nextSsid) !in old(sessions) ==> Valid()
      ensures sessions == old(sessions)[old(nextSsid) := ssp]
      ensures ssp.uid == uid && ssp.loggedIn == login
      ensures Model() == old(Model())[old(nextSsid) := Entry(uid, Forever)]
      ensures nextSsid == (old(nextSsid) + 1) % TWO_TO_THE_64
    {
      ssp := new Session(nextSsid);
      ssp.loggedIn, ssp.uid := login, uid;
      assert forall s <- sessions :: sessions[s] != ssp;
      assert Model() == old(Model());
      Keep(ssp);
      NextAfter(nextSsid);
    }

    /** Puts a session in the map, in place of one that may be there under the same id. */
    method AppendSession(ssp: Session?)
      requires Handled() && (ssp != null ==> OwnHandle(ssp))
      modifies this`sessions, this`nextSsid
      ensures Handled()
      ensures ssp == null ==> sessions == old(sessions) && nextSsid == old(nextSsid)
      ensures ssp != null ==>
                && sessions == old(sessions)[ssp.ssid := ssp]
                && Model() == old(Model())[ssp.ssid := Entry(ssp.uid, DeadlineOf(ssp))]
                && nextSsid == (if ssp.ssid >= old(nextSsid) then (ssp.ssid + 1) % TWO_TO_THE_64 else old(nextSsid))
                && (old(Valid()) && ssp.ssid !in old(sessions) ==> Valid())
    {
      if ssp == null {
        return;
      }
      Keep(ssp);
      if ssp.ssid >= nextSsid {
        NextAfter(ssp.ssid);
      }
    }

    method GetSessionBySsid(ssid: nat) returns (ssp: Session?)
      ensures if ssid in sessions then ssp == sessions[ssid] else ssp == null
    {
      ssp := if ssid in sessions then sessions[ssid] else null;
    }

    /** The map alone changes: when the session has a pending timer, the timer is orphaned. */
    method RemoveSession(ssid: nat)
      requires Handled()
      modifies this`sessions
      ensures Handled() && sessions == old(sessions) - {ssid} && Model() == old(Model()) - {ssid}
      ensures old(Valid()) ==> (Valid() <==> ssid !in old(Model()) || old(Model())[ssid].deadline == Forever)
    {
      sessions := sessions - {ssid};
    }

    /** A pending timer that is due runs its callback, which removes its session. When no
        timer is orphaned, this is a session whose own deadline has come. */
    method Fire(handle: nat, now: nat)
      requires Handled() && handle in timers && timers[handle].due <= now
      modifies this
      ensures Handled() && nextSsid == old(nextSsid)
      ensures Model() == old(Model()) - {old(timers)[handle].ssid}
      ensures var ssid := old(timers)[handle].ssid;
              old(Valid()) ==>
                Valid() && ssid in old(Model()) && old(Model())[ssid].deadline == Until(old(timers)[handle].due)
    {
      RemoveSession(timers[handle].ssid);
      timers := timers - {handle};
    }

    method CancelTimer(ssp: Session)
      requires Handled() && ssp.ssid in sessions && sessions[ssp.ssid] == ssp
      modifies this`timers, ssp`timer
      ensures Handled() && ssp.timer == None
      ensures old(Valid()) ==> Valid()
      ensures forall s <- sessions :: s != ssp.ssid ==> DeadlineOf(sessions[s]) == old(DeadlineOf(sessions[s]))
    {
      if ssp.timer.Some? {
        timers := timers - {ssp.timer.value};
        ssp.timer := None;
      }
    }

    /** Start a timer and hand it to a session that has none. */
    method StartTimer(ssp: Session, ms: int, now: nat)
      requires Handled() && ssp.ssid in sessions && sessions[ssp.ssid] == ssp && ssp.timer == None
      requires ms != SESSION_FOREVER
      modifies this`timers, this`nextTimer, ssp`timer
      ensures Handled()
      ensures old(Valid()) ==> Valid()
      ensures DeadlineOf(ssp) == DeadlineAfter(now, ms)
      ensures forall s <- sessions :: s != ssp.ssid ==> DeadlineOf(sessions[s]) == old(DeadlineOf(sessions[s]))
    {
      timers := timers[nextTimer := Timer(ssp.ssid, if ms < 0 then now else now + ms)];
      ssp.timer := Some(nextTimer);
      nextTimer := nextTimer + 1;
    }

    /** The four cases of a session with or without a timer, kept or given one. */
    method Renew(ssp: Session, ms: int, now: nat)
      requires Handled() && ssp.ssid in sessions && sessions[ssp.ssid] == ssp
      modifies this`timers, this`nextTimer, ssp`timer
      ensures Handled()
      ensures old(Valid()) ==> Valid()
      ensures DeadlineOf(ssp) == DeadlineAfter(now, ms)
      ensures forall s <- sessions :: s != ssp.ssid ==> DeadlineOf(sessions[s]) == old(DeadlineOf(sessions[s]))
    {
      if ssp.timer.None? {
        if ms != SESSION_FOREVER {
          StartTimer(ssp, ms, now);
        }
      } else {
        CancelTimer(ssp);
        if ms != SESSION_FOREVER {
          StartTimer(ssp, ms, now);
        }
      }
    }

    /** Whatever the session's timer was, afterwards its deadline is the new one. */
    method SetSessionExpireTime(ssid: nat, ms: int, now: nat)
      requires Handled()
      modifies this`timers, this`nextTimer, sessions.Values
      ensures Handled()
      ensures old(Valid()) ==> Valid()
      ensures Model() == Renewed(old(Model()), ssid, ms, now)
    {
      var ssp := GetSessionBySsid(ssid);
      if ssp == null {
        return;
      }
      Renew(ssp, ms, now);
    }
  }
}
