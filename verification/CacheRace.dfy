/** The cache under concurrency: a select that missed reads the row under the lock and
    fills the cache later, outside the lock, while rows are written and keys deleted. */
module CacheRace {
  import opened Ledger
  import opened UserTable
  import opened Wrappers

  /** The table as it was from this moment on. */
  datatype Version = Version(since: nat, rows: Rows)

  /** A row that some thread has read and not yet put in the cache; version counts the
      writes before the read. */
  datatype Read = Read(user: User, at: nat, version: nat)

  /** A cached row, with the version of the read that it comes from. */
  datatype Kept = Kept(user: User, expires: nat, version: nat)

  /** written and past record all writes, and the table between them. */
  datatype State = State(
    now: nat, written: seq<Entry>, past: seq<Version>, inflight: seq<Read>, kept: map<Key, Kept>
  ) {
    predicate HasPast() {
      past != []
    }

    function Rows(): Rows
      requires HasPast()
    {
      past[|past| - 1].rows
    }
  }

  datatype Action =
    | Wait(ms: nat)
    | Write(entry: Entry)
    | Invalidate(uid: Uid)
    | ReadRow(uid: Uid)
    | Fill(i: nat)

  function Step(s: State, a: Action, ttl: nat): (t: State)
    requires s.HasPast()
    ensures t.HasPast()
  {
    match a
    case Wait(ms) => s.(now := s.now + ms)
    case Write(entry) => s.(written := s.written + [entry],
                            past := s.past + [Version(s.now, Enter(s.Rows(), entry))])
    case Invalidate(uid) =>
      var named := if ById(uid) in s.kept then s.kept - {ByName(s.kept[ById(uid)].user.row.name)} else s.kept;
      s.(kept := named - {ById(uid)})
    case ReadRow(uid) =>
      if uid !in s.Rows() then s
      else s.(inflight := s.inflight + [Read(User(uid, s.Rows()[uid]), s.now, |s.written|)])
    case Fill(i) =>
      if i >= |s.inflight| then s
      else
        var u := s.inflight[i].user;
        var v := Kept(u, s.now + ttl, s.inflight[i].version);
        s.(inflight := s.inflight[..i] + s.inflight[i + 1..], kept := s.kept[ById(u.id) := v][ByName(u.row.name) := v])
  }

  const START := State(0, [], [Version(0, map[])], [], map[])

  function Run(acts: seq<Action>, ttl: nat): (s: State)
    ensures s.HasPast()
  {
    if acts == [] then START else Step(Run(acts[..|acts| - 1], ttl), acts[|acts| - 1], ttl)
  }

  /** gap is at least the longest time between a read and the fill that follows it. */
  predicate Prompt(acts: seq<Action>, ttl: nat, gap: nat) {
    acts == [] ||
    (var s, a := Run(acts[..|acts| - 1], ttl), acts[|acts| - 1];
     Prompt(acts[..|acts| - 1], ttl, gap)
     && (a.Fill? && a.i < |s.inflight| ==> s.now <= s.inflight[a.i].at + gap))
  }

  /** Version i was in force at time t, and had exactly this row for this user. */
  ghost predicate InVersion(past: seq<Version>, i: nat, t: nat, u: User) {
    && i < |past| && past[i].since <= t && (i + 1 < |past| ==> t <= past[i + 1].since)
    && u.id in past[i].rows && past[i].rows[u.id] == u.row
  }

  /** The whole row of this user was this one at time t. */
  ghost predicate WasCurrent(past: seq<Version>, t: nat, u: User) {
    exists i :: InVersion(past, i, t, u)
  }

  /** A cached value was the current row not too long before it expires. */
  ghost predicate Recent(s: State, v: Kept, age: nat) {
    exists t: nat :: t <= s.now && v.expires <= t + age && WasCurrent(s.past, t, v.user)
  }

  ghost predicate Inv(s: State, ttl: nat, gap: nat) {
    && s.HasPast() && s.past[|s.past| - 1].since <= s.now
    && (forall r <- s.inflight :: r.at <= s.now && WasCurrent(s.past, r.at, r.user))
    && (forall k | k in s.kept :: Recent(s, s.kept[k], ttl + gap))
    && (forall k | k in s.kept ::
          match k case ById(u) => s.kept[k].user.id == u case ByName(n) => s.kept[k].user.row.name == n)
  }

  /** History is not rewritten by a new version. */
  lemma PastStays(past: seq<Version>, t: nat, u: User, v: Version)
    requires WasCurrent(past, t, u) && t <= v.since
    ensures WasCurrent(past + [v], t, u)
  {
    var i :| InVersion(past, i, t, u);
    assert InVersion(past + [v], i, t, u);
  }

  lemma WriteKeepsInv(s: State, e: Entry, ttl: nat, gap: nat)
    requires Inv(s, ttl, gap)
    ensures Inv(Step(s, Write(e), ttl), ttl, gap)
  {
    var t := Step(s, Write(e), ttl);
    var v := Version(s.now, Enter(s.Rows(), e));
    forall r | r in t.inflight ensures WasCurrent(t.past, r.at, r.user) {
      PastStays(s.past, r.at, r.user, v);
    }
    forall k | k in t.kept ensures Recent(t, t.kept[k], ttl + gap) {
      var at: nat :| at <= s.now && s.kept[k].expires <= at + ttl + gap && WasCurrent(s.past, at, s.kept[k].user);
      PastStays(s.past, at, s.kept[k].user, v);
    }
  }

  lemma WaitKeepsInv(s: State, ms: nat, ttl: nat, gap: nat)
    requires Inv(s, ttl, gap)
    ensures Inv(Step(s, Wait(ms), ttl), ttl, gap)
  {
    var t := Step(s, Wait(ms), ttl);
    forall k | k in t.kept ensures Recent(t, t.kept[k], ttl + gap) {
      var at: nat :| at <= s.now && s.kept[k].expires <= at + ttl + gap && WasCurrent(s.past, at, s.kept[k].user);
      assert at <= t.now;
    }
  }

  /** Nothing that is cached becomes older when the clock and the past stay. */
  lemma KeptStaysRecent(s: State, t: State, ttl: nat, gap: nat)
    requires Inv(s, ttl, gap) && t.now == s.now && t.past == s.past
    ensures forall k | k in s.kept :: Recent(t, s.kept[k], ttl + gap)
  {
    forall k | k in s.kept ensures Recent(t, s.kept[k], ttl + gap) {
      assert Recent(s, s.kept[k], ttl + gap);
    }
  }

  lemma ReadKeepsInv(s: State, uid: Uid, ttl: nat, gap: nat)
    requires Inv(s, ttl, gap)
    ensures Inv(Step(s, ReadRow(uid), ttl), ttl, gap)
  {
    KeptStaysRecent(s, Step(s, ReadRow(uid), ttl), ttl, gap);
    if uid in s.Rows() {
      assert InVersion(s.past, |s.past| - 1, s.now, User(uid, s.Rows()[uid]));
    }
  }

  lemma FillKeepsInv(s: State, i: nat, ttl: nat, gap: nat)
    requires Inv(s, ttl, gap) && i < |s.inflight| && s.now <= s.inflight[i].at + gap
    ensures Inv(Step(s, Fill(i), ttl), ttl, gap)
  {
    var t := Step(s, Fill(i), ttl);
    KeptStaysRecent(s, t, ttl, gap);
    assert s.inflight[i] in s.inflight;
    assert Recent(t, Kept(s.inflight[i].user, s.now + ttl, s.inflight[i].version), ttl + gap);
  }

  lemma StepKeepsInv(s: State, a: Action, ttl: nat, gap: nat)
    requires Inv(s, ttl, gap)
    requires a.Fill? && a.i < |s.inflight| ==> s.now <= s.inflight[a.i].at + gap
    ensures Inv(Step(s, a, ttl), ttl, gap)
  {
    match a {
      case Wait(ms) => WaitKeepsInv(s, ms, ttl, gap);
      case Write(e) => WriteKeepsInv(s, e, ttl, gap);
      case Invalidate(uid) => KeptStaysRecent(s, Step(s, a, ttl), ttl, gap);
      case ReadRow(uid) => ReadKeepsInv(s, uid, ttl, gap);
      case Fill(i) =>
        if i < |s.inflight| {
          FillKeepsInv(s, i, ttl, gap);
        }
    }
  }

  lemma {:induction false} RunKeepsInv(acts: seq<Action>, ttl: nat, gap: nat)
    requires Prompt(acts, ttl, gap)
    ensures Inv(Run(acts, ttl), ttl, gap)
  {
    if acts == [] {
    } else {
      RunKeepsInv(acts[..|acts| - 1], ttl, gap);
      StepKeepsInv(Run(acts[..|acts| - 1], ttl), acts[|acts| - 1], ttl, gap);
    }
  }

  /** A hit on an id key or a name key, at any point of any interleaving, is one complete
      version of the row of that user, and it was the current one no longer ago than the
      time to live plus the longest gap between reading a row and filling the cache. */
  lemma HitsAreRecent(acts: seq<Action>, ttl: nat, gap: nat, k: Key) returns (t: nat)
    requires Prompt(acts, ttl, gap)
    requires k in Run(acts, ttl).kept && Run(acts, ttl).now < Run(acts, ttl).kept[k].expires
    ensures var s := Run(acts, ttl);
            && t <= s.now < t + ttl + gap && WasCurrent(s.past, t, s.kept[k].user)
            && match k case ById(u) => s.kept[k].user.id == u case ByName(n) => s.kept[k].user.row.name == n
  {
    RunKeepsInv(acts, ttl, gap);
    var s := Run(acts, ttl);
    assert Recent(s, s.kept[k], ttl + gap);
    t :| t <= s.now && s.kept[k].expires <= t + ttl + gap && WasCurrent(s.past, t, s.kept[k].user);
  }

  /** A fill puts the row read under both keys of its user, for the whole time to live, and
      leaves the keys of all others alone. */
  lemma FillsBothKeys(s: State, i: nat, ttl: nat)
    requires s.HasPast() && i < |s.inflight|
    ensures var t, u := Step(s, Fill(i), ttl), s.inflight[i].user;
            && (forall k <- {ById(u.id), ByName(u.row.name)} ::
                  k in t.kept && t.kept[k].user == u && t.kept[k].expires == s.now + ttl)
            && t.kept - {ById(u.id), ByName(u.row.name)} == s.kept - {ById(u.id), ByName(u.row.name)}
  {
  }

  /** A select that misses reads the current row of a registered user, and nothing else. */
  lemma ReadsTheRow(s: State, uid: Uid, ttl: nat)
    requires s.HasPast()
    ensures var t := Step(s, ReadRow(uid), ttl);
            && t.kept == s.kept && t.past == s.past && s.inflight <= t.inflight
            && if uid in s.Rows() then
                 |t.inflight| == |s.inflight| + 1 && t.inflight[|s.inflight|].user == User(uid, s.Rows()[uid])
               else t == s
  {
  }

  // ----- Exactly when a hit is current -----

  /** The write is a score update, of a registered user, that the score column accepts. */
  predicate GoesThrough(rows: Rows, e: Entry) {
    e.Score? && e.op.uid in rows && !Fails(rows, e.op)
  }

  /** The j-th write updated the score of this user. */
  predicate UpdatedBy(written: seq<Entry>, j: nat, uid: Uid)
    requires j < |written|
  {
    GoesThrough(EnterAll(map[], written[..j]), written[j]) && written[j].op.uid == uid
  }

  /** An update of this user went through after the first v writes. */
  ghost predicate UpdatedSince(written: seq<Entry>, v: nat, uid: Uid) {
    exists j | v <= j < |written| :: UpdatedBy(written, j, uid)
  }

  lemma UpdatedSinceOneMore(written: seq<Entry>, v: nat, uid: Uid)
    requires v < |written|
    ensures var n := |written| - 1;
            UpdatedSince(written, v, uid) <==> UpdatedSince(written[..n], v, uid) || UpdatedBy(written, n, uid)
  {
    var n := |written| - 1;
    forall j: nat | j < n ensures UpdatedBy(written, j, uid) <==> UpdatedBy(written[..n], j, uid) {
      assert written[..n][..j] == written[..j];
    }
    if j :| v <= j < |written| && UpdatedBy(written, j, uid) {
      assert j < n ==> UpdatedBy(written[..n], j, uid);
    }
    if j :| v <= j < n && UpdatedBy(written[..n], j, uid) {
      assert UpdatedBy(written, j, uid);
    }
  }

  /** A write changes the row of a registered user exactly when it is an update of that user
      that goes through, and then the count of his games grows. */
  lemma EnterChangesOne(rows: Rows, e: Entry, uid: Uid)
    requires uid in rows
    ensures uid in Enter(rows, e) && Enter(rows, e)[uid].name == rows[uid].name
    ensures if GoesThrough(rows, e) && e.op.uid == uid then Enter(rows, e)[uid].total == rows[uid].total + 1
            else Enter(rows, e)[uid] == rows[uid]
  {
  }

  /** Since any earlier version, the row of a user is the same if no update of his went
      through, and otherwise counts more games. */
  lemma {:induction false} RowSince(written: seq<Entry>, v: nat, uid: Uid)
    requires v <= |written| && uid in EnterAll(map[], written[..v])
    ensures var before, after := EnterAll(map[], written[..v]), EnterAll(map[], written);
            && uid in after && after[uid].name == before[uid].name
            && if UpdatedSince(written, v, uid) then after[uid].total > before[uid].total
               else after[uid] == before[uid]
    decreases |written|
  {
    if v == |written| {
      assert written[..v] == written;
    } else {
      var n := |written| - 1;
      assert written[..n][..v] == written[..v];
      RowSince(written[..n], v, uid);
      UpdatedSinceOneMore(written, v, uid);
      EnterChangesOne(EnterAll(map[], written[..n]), written[n], uid);
    }
  }

  /** The user's row as it was after the first v writes. */
  predicate FromVersion(written: seq<Entry>, v: nat, u: User) {
    v <= |written| && u.id in EnterAll(map[], written[..v]) && EnterAll(map[], written[..v])[u.id] == u.row
  }

  lemma VersionStays(written: seq<Entry>, v: nat, u: User, e: Entry)
    requires FromVersion(written, v, u)
    ensures FromVersion(written + [e], v, u)
  {
    assert (written + [e])[..v] == written[..v];
  }

  /** Rows read and rows cached are rows of the versions noted with them. */
  ghost predicate Dated(s: State) {
    && s.HasPast() && s.Rows() == EnterAll(map[], s.written)
    && (forall r <- s.inflight :: FromVersion(s.written, r.version, r.user))
    && (forall k <- s.kept :: FromVersion(s.written, s.kept[k].version, s.kept[k].user))
  }

  lemma StepKeepsDated(s: State, a: Action, ttl: nat)
    requires Dated(s)
    ensures Dated(Step(s, a, ttl))
  {
    var t := Step(s, a, ttl);
    match a {
      case Write(e) =>
        assert (s.written + [e])[..|s.written|] == s.written;
        forall r <- t.inflight ensures FromVersion(t.written, r.version, r.user) {
          VersionStays(s.written, r.version, r.user, e);
        }
        forall k <- t.kept ensures FromVersion(t.written, t.kept[k].version, t.kept[k].user) {
          VersionStays(s.written, s.kept[k].version, s.kept[k].user, e);
        }
      case ReadRow(uid) => assert s.written[..|s.written|] == s.written;
      case Fill(i) => assert i < |s.inflight| ==> s.inflight[i] in s.inflight;
      case _ =>
    }
  }

  lemma {:induction false} RunIsDated(acts: seq<Action>, ttl: nat)
    ensures Dated(Run(acts, ttl))
  {
    if acts == [] {
    } else {
      RunIsDated(acts[..|acts| - 1], ttl);
      StepKeepsDated(Run(acts[..|acts| - 1], ttl), acts[|acts| - 1], ttl);
    }
  }

  /** At any point of any interleaving, a cached row is the current row of its user exactly
      when no update of that user has gone through since the read that it comes from. */
  lemma HitsAreCurrent(acts: seq<Action>, ttl: nat, k: Key)
    requires k in Run(acts, ttl).kept
    ensures var s := Run(acts, ttl);
            var v := s.kept[k];
            && v.user.id in s.Rows()
            && (v.user.row == s.Rows()[v.user.id] <==> !UpdatedSince(s.written, v.version, v.user.id))
  {
    RunIsDated(acts, ttl);
    var s := Run(acts, ttl);
    RowSince(s.written, s.kept[k].version, s.kept[k].user.id);
  }

  // ----- Exactly which runs keep the whole cache current -----

  /** The user whose update went through and whose keys are not yet invalidated, after an
      action, given who it was before. */
  function NowDue(s: State, due: Option<Uid>, a: Action): Option<Uid>
    requires s.HasPast()
  {
    if a.Write? && GoesThrough(s.Rows(), a.entry) then Some(a.entry.op.uid)
    else if a.Invalidate? && due == Some(a.uid) then None
    else due
  }

  function Unfinished(acts: seq<Action>, ttl: nat): Option<Uid> {
    if acts == [] then None
    else NowDue(Run(acts[..|acts| - 1], ttl), Unfinished(acts[..|acts| - 1], ttl), acts[|acts| - 1])
  }

  /** The table's lock: no write between an update that went through and its invalidation. */
  predicate OneAtATime(acts: seq<Action>, ttl: nat) {
    acts == [] ||
    (OneAtATime(acts[..|acts| - 1], ttl)
     && (acts[|acts| - 1].Write? ==> Unfinished(acts[..|acts| - 1], ttl) == None))
  }

  /** Every cached row is current, except those of a user whose invalidation is due. */
  ghost predicate CurrentBut(s: State, unfinished: Option<Uid>)
    requires s.HasPast()
  {
    forall k <- s.kept :: var u := s.kept[k].user;
      unfinished == Some(u.id) || (u.id in s.Rows() && u.row == s.Rows()[u.id])
  }

  ghost predicate AlwaysCurrent(acts: seq<Action>, ttl: nat) {
    CurrentBut(Run(acts, ttl), Unfinished(acts, ttl)) && (acts == [] || AlwaysCurrent(acts[..|acts| - 1], ttl))
  }

  /** The fill comes after an update of the user that went through since the read, and after
      the invalidation that belongs to it. */
  ghost predicate LateFill(s: State, i: nat, unfinished: Option<Uid>)
    requires i < |s.inflight|
  {
    var r := s.inflight[i];
    unfinished != Some(r.user.id) && UpdatedSince(s.written, r.version, r.user.id)
  }

  /** The action is a late fill. */
  ghost predicate ActsLate(s: State, due: Option<Uid>, a: Action) {
    a.Fill? && a.i < |s.inflight| && LateFill(s, a.i, due)
  }

  ghost predicate NoLateFill(acts: seq<Action>, ttl: nat) {
    acts == [] ||
    (var before, a := acts[..|acts| - 1], acts[|acts| - 1];
     NoLateFill(before, ttl) && !ActsLate(Run(before, ttl), Unfinished(before, ttl), a))
  }

  function Users(kept: map<Key, Kept>): Keys {
    map k | k in kept :: kept[k].user
  }

  /** Both keys of a user are cached under his name and id, and only together. */
  ghost predicate Keyed(s: State) {
    && s.HasPast() && Unique(s.Rows())
    && Labelled(Users(s.kept), s.Rows()) && Linked(Users(s.kept))
    && (forall r <- s.inflight :: r.user.id in s.Rows() && s.Rows()[r.user.id].name == r.user.row.name)
  }

  lemma WriteKeepsKeyed(s: State, e: Entry, ttl: nat)
    requires Keyed(s)
    ensures Keyed(Step(s, Write(e), ttl))
  {
    var t := Step(s, Write(e), ttl);
    assert t.Rows() == Enter(s.Rows(), e);
    forall u <- s.Rows() ensures u in t.Rows() && t.Rows()[u].name == s.Rows()[u].name {
      EnterChangesOne(s.Rows(), e, u);
    }
    assert Users(t.kept) == Users(s.kept);
  }

  lemma InvalidateStep(s: State, uid: Uid, ttl: nat)
    requires Keyed(s)
    ensures var t := Step(s, Invalidate(uid), ttl);
            Keyed(t) && Users(t.kept) == InvalidateStates(Users(s.kept), uid)[1]
            && forall k <- t.kept :: k in s.kept && t.kept[k] == s.kept[k] && t.kept[k].user.id != uid
  {
    var t := Step(s, Invalidate(uid), ttl);
    InvalidateKeepsLink(Users(s.kept), s.Rows(), uid);
    assert Users(t.kept) == InvalidateStates(Users(s.kept), uid)[1];
    forall k <- t.kept ensures t.kept[k].user.id != uid {
      assert Users(t.kept)[k].id != uid;
    }
  }

  lemma FillKeepsKeyed(s: State, i: nat, ttl: nat)
    requires Keyed(s) && i < |s.inflight|
    ensures Keyed(Step(s, Fill(i), ttl))
  {
    var t := Step(s, Fill(i), ttl);
    assert s.inflight[i] in s.inflight;
    SetKeepsLink(Users(s.kept), s.Rows(), s.inflight[i].user);
    assert Users(t.kept) == SetStates(Users(s.kept), s.inflight[i].user)[1];
  }

  lemma {:induction false} RunIsKeyed(acts: seq<Action>, ttl: nat)
    ensures Keyed(Run(acts, ttl))
  {
    if acts == [] {
    } else {
      var s := Run(acts[..|acts| - 1], ttl);
      RunIsKeyed(acts[..|acts| - 1], ttl);
      match acts[|acts| - 1] {
        case Write(e) => WriteKeepsKeyed(s, e, ttl);
        case Invalidate(uid) => InvalidateStep(s, uid, ttl);
        case Fill(i) =>
          if i < |s.inflight| {
            FillKeepsKeyed(s, i, ttl);
          }
        case _ =>
      }
    }
  }

  lemma WriteKeepsCurrent(s: State, e: Entry, ttl: nat)
    requires s.HasPast() && CurrentBut(s, None)
    ensures CurrentBut(Step(s, Write(e), ttl), if GoesThrough(s.Rows(), e) then Some(e.op.uid) else None)
  {
    var t := Step(s, Write(e), ttl);
    forall k <- t.kept
      ensures var u := t.kept[k].user;
              (GoesThrough(s.Rows(), e) && e.op.uid == u.id) || (u.id in t.Rows() && u.row == t.Rows()[u.id])
    {
      EnterChangesOne(s.Rows(), e, s.kept[k].user.id);
    }
  }

  /** A fill keeps the cache current unless it is late; and a late one never does. */
  lemma FillAndCurrent(s: State, i: nat, unfinished: Option<Uid>, ttl: nat)
    requires Dated(s) && i < |s.inflight| && CurrentBut(s, unfinished)
    ensures CurrentBut(Step(s, Fill(i), ttl), unfinished) <==> !LateFill(s, i, unfinished)
  {
    var t, r := Step(s, Fill(i), ttl), s.inflight[i];
    assert r in s.inflight;
    RowSince(s.written, r.version, r.user.id);
    assert ById(r.user.id) in t.kept && t.kept[ById(r.user.id)].user == r.user;
  }

  lemma InvalidateKeepsCurrent(s: State, due: Option<Uid>, uid: Uid, ttl: nat)
    requires Keyed(s) && CurrentBut(s, due)
    ensures CurrentBut(Step(s, Invalidate(uid), ttl), NowDue(s, due, Invalidate(uid)))
  {
    var t := Step(s, Invalidate(uid), ttl);
    InvalidateStep(s, uid, ttl);
    assert t.Rows() == s.Rows();
  }

  lemma QuietKeepsCurrent(s: State, due: Option<Uid>, a: Action, ttl: nat)
    requires s.HasPast() && CurrentBut(s, due) && (a.Wait? || a.ReadRow? || (a.Fill? && a.i >= |s.inflight|))
    ensures CurrentBut(Step(s, a, ttl), NowDue(s, due, a))
  {
    var t := Step(s, a, ttl);
    assert t.Rows() == s.Rows() && t.kept == s.kept;
  }

  lemma ActAndCurrent(s: State, due: Option<Uid>, a: Action, ttl: nat)
    requires Dated(s) && Keyed(s) && CurrentBut(s, due) && (a.Write? ==> due == None)
    ensures CurrentBut(Step(s, a, ttl), NowDue(s, due, a)) <==> !ActsLate(s, due, a)
  {
    match a {
      case Write(e) => WriteKeepsCurrent(s, e, ttl);
      case Invalidate(uid) => InvalidateKeepsCurrent(s, due, uid, ttl);
      case Fill(i) =>
        if i < |s.inflight| {
          FillAndCurrent(s, i, due, ttl);
        } else {
          QuietKeepsCurrent(s, due, a, ttl);
        }
      case _ => QuietKeepsCurrent(s, due, a, ttl);
    }
  }

  /** With one write at a time, the whole cache is current at every point of a run, but for
      the user whose invalidation is due, exactly when no select fills the cache late: with a
      row read before an update that has gone through and been followed by its invalidation. */
  lemma {:induction false} CacheStaysCurrent(acts: seq<Action>, ttl: nat)
    requires OneAtATime(acts, ttl)
    ensures AlwaysCurrent(acts, ttl) <==> NoLateFill(acts, ttl)
  {
    if acts == [] {
    } else {
      var n := |acts| - 1;
      CacheStaysCurrent(acts[..n], ttl);
      RunIsDated(acts[..n], ttl);
      RunIsKeyed(acts[..n], ttl);
      if AlwaysCurrent(acts[..n], ttl) {
        ActAndCurrent(Run(acts[..n], ttl), Unfinished(acts[..n], ttl), acts[n], ttl);
      }
    }
  }

  /** A late fill in every state and for every registered user: read, score a win, invalidate,
      fill leaves the row of before the win under the user's key. */
  lemma OverlapIsStale(s: State, uid: Uid, ttl: nat)
    requires s.HasPast() && uid in s.Rows()
    ensures var read := Step(s, ReadRow(uid), ttl);
            var won := Step(read, Write(Score(Win(uid))), ttl);
            var gone := Step(won, Invalidate(uid), ttl);
            var t := Step(gone, Fill(|s.inflight|), ttl);
            && ById(uid) in t.kept && t.kept[ById(uid)].user == User(uid, s.Rows()[uid])
            && uid in t.Rows() && t.Rows()[uid].score == s.Rows()[uid].score + STAKE
  {
    var read := Step(s, ReadRow(uid), ttl);
    assert read.inflight[|s.inflight|] == Read(User(uid, s.Rows()[uid]), s.now, |s.written|);
    var won := Step(read, Write(Score(Win(uid))), ttl);
    assert won.Rows() == Update(s.Rows(), Win(uid));
    var gone := Step(won, Invalidate(uid), ttl);
    assert gone.past == won.past && gone.inflight == read.inflight;
  }
}
