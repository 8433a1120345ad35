/** The player ledger: rows of the user table, registration, and the two score updates. */
module Ledger {
  type Uid = nat
  const NOBODY: Uid := 0

  const INITIAL_SCORE: nat := 1000
  const STAKE: nat := 30

  /** A call that the game makes on the user table. */
  datatype Op = Win(uid: Uid) | Lose(uid: Uid)

  datatype Row = Row(name: string, score: nat, total: nat, wins: nat)

  type Rows = map<Uid, Row>

  /** The score column is unsigned: an update that would take it below zero fails and
      leaves the row as it is. An update of a missing row changes nothing. */
  predicate Fails(rows: Rows, op: Op) {
    op.Lose? && op.uid in rows && rows[op.uid].score < STAKE
  }

  function Update(rows: Rows, op: Op): Rows {
    if op.uid !in rows || Fails(rows, op) then rows
    else
      var r := rows[op.uid];
      rows[op.uid := match op
                     case Win(_) => r.(score := r.score + STAKE, total := r.total + 1, wins := r.wins + 1)
                     case Lose(_) => r.(score := r.score - STAKE, total := r.total + 1)]
  }

  /** What happens to the table: a registration under a new id, or a score update.
      A registration fails when the name is taken. */
  datatype Entry = Register(uid: Uid, name: string) | Score(op: Op)

  predicate NameTaken(rows: Rows, name: string) {
    exists u <- rows :: rows[u].name == name
  }

  function Enter(rows: Rows, e: Entry): Rows {
    match e
    case Register(uid, name) =>
      if uid in rows || NameTaken(rows, name) then rows else rows[uid := Row(name, INITIAL_SCORE, 0, 0)]
    case Score(op) => Update(rows, op)
  }

  function EnterAll(rows: Rows, es: seq<Entry>): Rows {
    if es == [] then rows else Enter(EnterAll(rows, es[..|es| - 1]), es[|es| - 1])
  }

  // ----- Every row is balanced -----

  predicate Balanced(r: Row) {
    r.wins <= r.total && r.score + STAKE * r.total == INITIAL_SCORE + 2 * STAKE * r.wins
  }

  ghost predicate Unique(rows: Rows) {
    forall u, v | u in rows && v in rows && rows[u].name == rows[v].name :: u == v
  }

  lemma EnterKeepsBalance(rows: Rows, e: Entry)
    requires Unique(rows) && forall u <- rows :: Balanced(rows[u])
    ensures Unique(Enter(rows, e)) && forall u <- Enter(rows, e) :: Balanced(Enter(rows, e)[u])
    ensures rows.Keys <= Enter(rows, e).Keys
    ensures forall u <- rows :: Enter(rows, e)[u].name == rows[u].name
  {
  }

  /** From an empty table, whatever is registered and scored, in any order: every player
      has score 1000 + 60 * win_count - 30 * total_count, which is never negative, also
      after loss updates that failed; and names stay unique. */
  lemma {:induction false} RowsAreBalanced(es: seq<Entry>)
    ensures var rows := EnterAll(map[], es);
            Unique(rows) && forall u <- rows :: Balanced(rows[u])
  {
    if es == [] {
    } else {
      RowsAreBalanced(es[..|es| - 1]);
      EnterKeepsBalance(EnterAll(map[], es[..|es| - 1]), es[|es| - 1]);
    }
  }

  // ----- Rows by the history alone -----

  /** A user as the history has him: registered or not, games won, and losses that counted. */
  datatype Standing = Absent | Member(name: string, wins: nat, losses: nat)

  /** A registration counts under a new id and a name that nobody has; a loss counts while at
      least 30 points are left. */
  ghost function StandingOf(es: seq<Entry>, u: Uid): Standing
    decreases |es|, 1
  {
    if es == [] then Absent
    else
      var before := StandingOf(es[..|es| - 1], u);
      match es[|es| - 1]
      case Register(uid, name) => if uid == u && Counts(es) then Member(name, 0, 0) else before
      case Score(op) =>
        if op.uid != u || before.Absent? then before
        else
          match op
          case Win(_) => before.(wins := before.wins + 1)
          case Lose(_) =>
            if 1000 + 30 * before.wins >= 30 * before.losses + 30 then before.(losses := before.losses + 1) else before
  }

  /** The last entry is a registration that counts. */
  ghost predicate Counts(es: seq<Entry>)
    decreases |es|, 0
  {
    && es != [] && es[|es| - 1].Register?
    && StandingOf(es[..|es| - 1], es[|es| - 1].uid).Absent?
    && !Taken(es[..|es| - 1], es[|es| - 1].name)
  }

  ghost predicate Taken(es: seq<Entry>, name: string)
    decreases |es|, 3
  {
    exists v :: HasName(es, v, name)
  }

  ghost predicate HasName(es: seq<Entry>, v: Uid, name: string)
    decreases |es|, 2
  {
    StandingOf(es, v).Member? && StandingOf(es, v).name == name
  }

  ghost function Registrations(es: seq<Entry>): nat {
    if es == [] then 0 else Registrations(es[..|es| - 1]) + if Counts(es) then 1 else 0
  }

  /** The row says what the history says. */
  ghost predicate Says(rows: Rows, u: Uid, st: Standing) {
    match st
    case Absent => u !in rows
    case Member(name, wins, losses) =>
      && u in rows && 1000 + 30 * wins >= 30 * losses
      && rows[u] == Row(name, 1000 + 30 * wins - 30 * losses, wins + losses, wins)
  }

  ghost predicate AllSay(rows: Rows, es: seq<Entry>) {
    forall u :: Says(rows, u, StandingOf(es, u))
  }

  lemma NamesAgree(rows: Rows, es: seq<Entry>, name: string)
    requires AllSay(rows, es)
    ensures NameTaken(rows, name) <==> Taken(es, name)
  {
    if NameTaken(rows, name) {
      var v :| v in rows && rows[v].name == name;
      assert Says(rows, v, StandingOf(es, v));
      assert HasName(es, v, name);
    }
    if v :| HasName(es, v, name) {
      assert Says(rows, v, StandingOf(es, v));
    }
  }

  lemma RegistrationSays(rows: Rows, es: seq<Entry>, u: Uid)
    requires es != [] && es[|es| - 1].Register?
    requires Says(rows, u, StandingOf(es[..|es| - 1], u)) && SameVerdict(rows, es)
    ensures Says(Enter(rows, es[|es| - 1]), u, StandingOf(es, u))
  {
  }

  /** Whether the last entry, a registration, succeeds in the table is what the history says. */
  ghost predicate SameVerdict(rows: Rows, es: seq<Entry>)
    requires es != [] && es[|es| - 1].Register?
  {
    Counts(es) <==> es[|es| - 1].uid !in rows && !NameTaken(rows, es[|es| - 1].name)
  }

  lemma ScoreSays(rows: Rows, es: seq<Entry>, u: Uid)
    requires es != [] && es[|es| - 1].Score? && Says(rows, u, StandingOf(es[..|es| - 1], u))
    ensures Says(Enter(rows, es[|es| - 1]), u, StandingOf(es, u))
  {
  }

  lemma OneMoreSays(rows: Rows, es: seq<Entry>, u: Uid)
    requires es != [] && AllSay(rows, es[..|es| - 1])
    ensures Says(Enter(rows, es[|es| - 1]), u, StandingOf(es, u))
  {
    var before, e := es[..|es| - 1], es[|es| - 1];
    assert Says(rows, u, StandingOf(before, u));
    if e.Register? {
      NamesAgree(rows, before, e.name);
      assert Says(rows, e.uid, StandingOf(before, e.uid));
      RegistrationSays(rows, es, u);
    } else {
      ScoreSays(rows, es, u);
    }
  }

  lemma OneMoreCounted(rows: Rows, es: seq<Entry>)
    requires es != [] && AllSay(rows, es[..|es| - 1])
    ensures |Enter(rows, es[|es| - 1])| == |rows| + if Counts(es) then 1 else 0
  {
    var before, e := es[..|es| - 1], es[|es| - 1];
    if e.Register? {
      NamesAgree(rows, before, e.name);
      assert Says(rows, e.uid, StandingOf(before, e.uid));
      assert rows[e.uid := Row(e.name, INITIAL_SCORE, 0, 0)].Keys == rows.Keys + {e.uid};
    } else if e.op.uid in rows {
      assert Enter(rows, e).Keys == rows.Keys;
    }
  }

  /** After any history from an empty table there is a row for each registration that counts,
      with its name, and with 1000 points, 30 more for each win and 30 less for each loss that
      counts. */
  lemma {:induction false} RowsTellTheHistory(es: seq<Entry>)
    ensures AllSay(EnterAll(map[], es), es)
    ensures |EnterAll(map[], es)| == Registrations(es)
  {
    if es == [] {
    } else {
      RowsTellTheHistory(es[..|es| - 1]);
      forall u ensures Says(EnterAll(map[], es), u, StandingOf(es, u)) {
        OneMoreSays(EnterAll(map[], es[..|es| - 1]), es, u);
      }
      OneMoreCounted(EnterAll(map[], es[..|es| - 1]), es);
    }
  }

  // ----- The sum of all scores -----

  ghost function Sum(rows: Rows): nat {
    if rows == map[] then 0
    else
      var u :| u in rows;
      rows[u].score + Sum(rows - {u})
  }

  lemma {:induction false} SumWithout(rows: Rows, u: Uid)
    requires u in rows
    ensures Sum(rows) == rows[u].score + Sum(rows - {u})
    decreases |rows|
  {
    var v :| v in rows && Sum(rows) == rows[v].score + Sum(rows - {v});
    if v != u {
      SumWithout(rows - {v}, u);
      SumWithout(rows - {u}, v);
      assert (rows - {v}) - {u} == (rows - {u}) - {v};
    }
  }

  lemma SumUpdated(rows: Rows, u: Uid, r: Row)
    ensures Sum(rows[u := r]) + (if u in rows then rows[u].score else 0) == Sum(rows) + r.score
  {
    SumWithout(rows[u := r], u);
    assert rows[u := r] - {u} == rows - {u};
    if u in rows {
      SumWithout(rows, u);
    } else {
      assert rows - {u} == rows;
    }
  }

  /** Wins of registered players, less losses of registered players that went through. */
  ghost function Surplus(rows: Rows, es: seq<Entry>): int {
    if es == [] then 0
    else
      var before, e := EnterAll(rows, es[..|es| - 1]), es[|es| - 1];
      Surplus(rows, es[..|es| - 1]) +
      if e.Register? || e.op.uid !in before || Fails(before, e.op) then 0 else if e.op.Win? then 1 else -1
  }

  ghost function FailedLosses(rows: Rows, es: seq<Entry>): nat {
    if es == [] then 0
    else
      var before, e := EnterAll(rows, es[..|es| - 1]), es[|es| - 1];
      FailedLosses(rows, es[..|es| - 1]) + if e.Score? && Fails(before, e.op) then 1 else 0
  }

  lemma {:induction false} SumIsConserved(rows: Rows, es: seq<Entry>)
    ensures Sum(EnterAll(rows, es)) - INITIAL_SCORE * |EnterAll(rows, es)|
         == Sum(rows) - INITIAL_SCORE * |rows| + STAKE * Surplus(rows, es)
  {
    if es == [] {
    } else {
      var before, e := EnterAll(rows, es[..|es| - 1]), es[|es| - 1];
      SumIsConserved(rows, es[..|es| - 1]);
      var after := Enter(before, e);
      var u := if e.Register? then e.uid else e.op.uid;
      if after != before {
        SumUpdated(before, u, after[u]);
        assert after == before[u := after[u]];
      }
    }
  }

  lemma EnterOneMore(rows: Rows, es: seq<Entry>, e: Entry)
    ensures var before := EnterAll(rows, es);
            && EnterAll(rows, es + [e]) == Enter(before, e)
            && Surplus(rows, es + [e]) == Surplus(rows, es)
                 + (if e.Register? || e.op.uid !in before || Fails(before, e.op) then 0
                    else if e.op.Win? then 1 else -1)
            && FailedLosses(rows, es + [e]) == FailedLosses(rows, es)
                 + (if e.Score? && Fails(before, e.op) then 1 else 0)
  {
    assert (es + [e])[..|es|] == es;
  }

  /** A game of two registered users brings as much surplus as refused losses, and no users. */
  lemma GameKeepsBalance(rows: Rows, es: seq<Entry>, winner: Uid, loser: Uid)
    requires winner in EnterAll(rows, es) && loser in EnterAll(rows, es)
    ensures var es' := es + [Score(Win(winner)), Score(Lose(loser))];
            && EnterAll(rows, es').Keys == EnterAll(rows, es).Keys
            && Surplus(rows, es') - FailedLosses(rows, es') == Surplus(rows, es) - FailedLosses(rows, es)
  {
    EnterOneMore(rows, es, Score(Win(winner)));
    EnterOneMore(rows, es + [Score(Win(winner))], Score(Lose(loser)));
    assert es + [Score(Win(winner))] + [Score(Lose(loser))] == es + [Score(Win(winner)), Score(Lose(loser))];
  }

  // ----- Games: a win of one player, then a loss of the other -----

  /** Each game is one win followed by one loss, and nothing else is scored. */
  ghost predicate Games(ops: seq<Op>) {
    && |ops| % 2 == 0
    && forall i | 0 <= i < |ops| :: if i % 2 == 0 then ops[i].Win? else ops[i].Lose?
  }

  function Scores(ops: seq<Op>): seq<Entry> {
    seq(|ops|, i requires 0 <= i < |ops| => Score(ops[i]))
  }

  lemma {:induction false} ScoresKeepKeys(rows: Rows, ops: seq<Op>)
    ensures EnterAll(rows, Scores(ops)).Keys == rows.Keys
  {
    if ops == [] {
    } else {
      ScoresKeepKeys(rows, ops[..|ops| - 1]);
      assert Scores(ops)[..|ops| - 1] == Scores(ops[..|ops| - 1]);
    }
  }

  /** The entries of some games are those of all but the last, and its win and loss. */
  lemma LastGame(ops: seq<Op>)
    requires Games(ops) && ops != []
    ensures var n := |ops|;
            n >= 2 && Games(ops[..n - 2])
            && Scores(ops) == Scores(ops[..n - 2]) + [Score(Win(ops[n - 2].uid)), Score(Lose(ops[n - 1].uid))]
  {
    var n := |ops|;
    assert ops[n - 2] == Win(ops[n - 2].uid) && ops[n - 1] == Lose(ops[n - 1].uid);
  }

  lemma {:induction false} SurplusIsFailedLosses(rows: Rows, ops: seq<Op>)
    requires Games(ops) && forall op <- ops :: op.uid in rows
    ensures Surplus(rows, Scores(ops)) == FailedLosses(rows, Scores(ops))
    decreases |ops|
  {
    if ops == [] {
    } else {
      var n := |ops|;
      LastGame(ops);
      SurplusIsFailedLosses(rows, ops[..n - 2]);
      ScoresKeepKeys(rows, ops[..n - 2]);
      assert ops[n - 2] in ops && ops[n - 1] in ops;
      GameKeepsBalance(rows, Scores(ops[..n - 2]), ops[n - 2].uid, ops[n - 1].uid);
    }
  }

  /** Points move between the players of a game, except that a loss the unsigned column
      refuses leaves the winner's 30 points in the system: after any games of n registered
      players who started with 1000 points each, F refused losses, the scores add up to
      1000 * n + 30 * F. */
  lemma GamesConserveScores(rows: Rows, ops: seq<Op>)
    requires Games(ops) && forall op <- ops :: op.uid in rows
    requires Sum(rows) == INITIAL_SCORE * |rows|
    ensures var after := EnterAll(rows, Scores(ops));
            Sum(after) == INITIAL_SCORE * |after| + STAKE * FailedLosses(rows, Scores(ops))
  {
    SumIsConserved(rows, Scores(ops));
    SurplusIsFailedLosses(rows, ops);
  }
}
