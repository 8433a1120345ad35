/** Three match workers and the network thread, interleaved step by step. A step is one
    region under a lock, or one lookup. */
module Matching {
  import opened Ledger
  import opened Wrappers
  import MatchQueue

  datatype Band = Normal | High | Super

  function BandOf(score: int): Band {
    if score < 2000 then Normal else if score < 3000 then High else Super
  }

  /** A player in the matcher, with the score that was read when he was last enqueued. */
  datatype Token = Token(uid: Uid, score: int)

  /** Where a worker is in its loop, and whom it holds. */
  datatype Pc =
    | Check                              // about to compare the size with two
    | Enter                              // about to test the wait predicate under the lock
    | Asleep                             // blocked in wait
    | PopFirst
    | PopSecond(one: Token)
    | FindFirst(one: Token, two: Token)  // about to look up the first connection
    | FindSecond(one: Token, two: Token)
    | Open(one: Token, two: Token)       // about to create the room
    | Look(todo: seq<Uid>)               // in add: about to read the score of the first one
    | Put(token: Token, todo: seq<Uid>)  // in add: about to push

  /** Where the network thread is. */
  datatype Net = Idle | Adding(token: Token) | Deleting(uid: Uid, band: Band)

  datatype Three<T> = Three(normal: T, high: T, super: T) {
    function At(b: Band): T {
      match b case Normal => normal case High => high case Super => super
    }

    function With(b: Band, x: T): Three<T> {
      match b case Normal => this.(normal := x) case High => this.(high := x) case Super => this.(super := x)
    }
  }

  datatype Pair = Pair(one: Token, two: Token)

  /** The last five fields record what has happened, for the accounts below. */
  datatype State = State(
    queues: Three<seq<Token>>, workers: Three<Pc>, net: Net,
    admitted: multiset<Uid>, matched: seq<Pair>, dropped: multiset<Uid>, removed: multiset<Uid>, lost: multiset<Uid>
  )

  const START := State(Three([], [], []), Three(Check, Check, Check), Idle,
                       multiset{}, [], multiset{}, multiset{}, multiset{})

  /** score, online and created are what the lookups of the step answer. */
  datatype Action =
    | Tick(band: Band, score: Option<int>, online: bool, created: bool)
    | WakeUp(band: Band)
    | Add(uid: Uid, score: Option<int>)
    | Del(uid: Uid, score: Option<int>)
    | NetTick

  /** Push one token on the queue of its band and wake the worker of that queue. */
  function Enqueue(s: State, t: Token): State {
    var b := BandOf(t.score);
    s.(queues := s.queues.With(b, s.queues.At(b) + [t]),
       workers := if s.workers.At(b) == Asleep then s.workers.With(b, Enter) else s.workers)
  }

  function Dequeue(q: seq<Token>, uid: Uid): seq<Token> {
    if q == [] then []
    else if q[0].uid == uid then Dequeue(q[1..], uid)
    else [q[0]] + Dequeue(q[1..], uid)
  }

  /** What a step of a worker does outside its own queue. */
  datatype Effect = Quiet | Offline(uid: Uid) | Unknown(uid: Uid) | Matched(pair: Pair) | Sent(token: Token)

  datatype Turn = Turn(pc: Pc, queue: seq<Token>, effect: Effect)

  /** One step of a worker, given where it is and its queue. */
  function TakeTurn(pc: Pc, q: seq<Token>, score: Option<int>, online: bool, created: bool): Turn {
    match pc
    case Check => Turn(if |q| < 2 then Enter else PopFirst, q, Quiet)
    case Enter => Turn(if |q| < 2 then Asleep else Check, q, Quiet)
    case Asleep => Turn(Asleep, q, Quiet)
    case PopFirst => if q == [] then Turn(Check, q, Quiet) else Turn(PopSecond(q[0]), q[1..], Quiet)
    case PopSecond(one) =>
      if q == [] then Turn(Look([one.uid]), q, Quiet) else Turn(FindFirst(one, q[0]), q[1..], Quiet)
    case FindFirst(one, two) =>
      if online then Turn(FindSecond(one, two), q, Quiet) else Turn(Look([two.uid]), q, Offline(one.uid))
    case FindSecond(one, two) =>
      if online then Turn(Open(one, two), q, Quiet) else Turn(Look([one.uid]), q, Offline(two.uid))
    case Open(one, two) =>
      if created then Turn(Check, q, Matched(Pair(one, two))) else Turn(Look([one.uid, two.uid]), q, Quiet)
    case Look(todo) =>
      if todo == [] then Turn(Check, q, Quiet)
      else if score.None? then Turn(Look(todo[1..]), q, Unknown(todo[0]))
      else Turn(Put(Token(todo[0], score.value), todo[1..]), q, Quiet)
    case Put(token, todo) => Turn(Look(todo), q, Sent(token))
  }

  function Record(s: State, e: Effect): State {
    match e
    case Quiet => s
    case Offline(uid) => s.(dropped := s.dropped + multiset{uid})
    case Unknown(uid) => s.(lost := s.lost + multiset{uid})
    case Matched(pair) => s.(matched := s.matched + [pair])
    case Sent(token) => Enqueue(s, token)
  }

  function Settle(s: State, b: Band, pc: Pc, q: seq<Token>): State {
    s.(workers := s.workers.With(b, pc), queues := s.queues.With(b, q))
  }

  /** One step of the worker of queue b. */
  function Work(s: State, b: Band, score: Option<int>, online: bool, created: bool): State {
    var turn := TakeTurn(s.workers.At(b), s.queues.At(b), score, online, created);
    Record(Settle(s, b, turn.pc, turn.queue), turn.effect)
  }

  /** One step of the network thread, which serves one request at a time. */
  function Serve(s: State): State {
    match s.net
    case Idle => s
    case Adding(token) => Enqueue(s.(net := Idle), token)
    case Deleting(uid, b) =>
      var q := s.queues.At(b);
      s.(net := Idle, queues := s.queues.With(b, Dequeue(q, uid)),
         removed := s.removed[uid := s.removed[uid] + Count(q, uid)])
  }

  function Step(s: State, a: Action): State {
    match a
    case Tick(b, score, online, created) => Work(s, b, score, online, created)
    case WakeUp(b) => if s.workers.At(b) == Asleep then s.(workers := s.workers.With(b, Enter)) else s
    case Add(uid, score) =>
      if s.net != Idle || score.None? then s
      else s.(net := Adding(Token(uid, score.value)), admitted := s.admitted + multiset{uid})
    case Del(uid, score) =>
      if s.net != Idle || score.None? then s else s.(net := Deleting(uid, BandOf(score.value)))
    case NetTick => Serve(s)
  }

  function Run(acts: seq<Action>): State {
    if acts == [] then START else Step(Run(acts[..|acts| - 1]), acts[|acts| - 1])
  }

  // ----- Accounts, player by player -----

  function One(uid: Uid, u: Uid): nat {
    if uid == u then 1 else 0
  }

  function Count(q: seq<Token>, u: Uid): nat {
    if q == [] then 0 else One(q[0].uid, u) + Count(q[1..], u)
  }

  function CountUids(q: seq<Uid>, u: Uid): nat {
    if q == [] then 0 else One(q[0], u) + CountUids(q[1..], u)
  }

  function CountPairs(ps: seq<Pair>, u: Uid): nat {
    if ps == [] then 0
    else CountPairs(ps[..|ps| - 1], u) + One(ps[|ps| - 1].one.uid, u) + One(ps[|ps| - 1].two.uid, u)
  }

  /** How many tokens of u the worker holds. */
  function Held(pc: Pc, u: Uid): nat {
    match pc
    case PopSecond(one) => One(one.uid, u)
    case FindFirst(one, two) => One(one.uid, u) + One(two.uid, u)
    case FindSecond(one, two) => One(one.uid, u) + One(two.uid, u)
    case Open(one, two) => One(one.uid, u) + One(two.uid, u)
    case Look(todo) => CountUids(todo, u)
    case Put(token, todo) => One(token.uid, u) + CountUids(todo, u)
    case _ => 0
  }

  function Queued(s: State, u: Uid): nat {
    Count(s.queues.normal, u) + Count(s.queues.high, u) + Count(s.queues.super, u)
  }

  function InHand(s: State, u: Uid): nat {
    Held(s.workers.normal, u) + Held(s.workers.high, u) + Held(s.workers.super, u)
    + if s.net.Adding? then One(s.net.token.uid, u) else 0
  }

  /** The live tokens of a player. */
  function Live(s: State, u: Uid): nat {
    Queued(s, u) + InHand(s, u)
  }

  /** The tokens of a player that have left the matcher. */
  function Gone(s: State, u: Uid): nat {
    CountPairs(s.matched, u) + s.dropped[u] + s.removed[u] + s.lost[u]
  }

  lemma {:induction false} CountAppend(q: seq<Token>, t: Token, u: Uid)
    ensures Count(q + [t], u) == Count(q, u) + One(t.uid, u)
  {
    if q == [] {
      assert q + [t] == [t];
    } else {
      assert (q + [t])[1..] == q[1..] + [t];
      CountAppend(q[1..], t, u);
    }
  }

  lemma {:induction false} CountDequeue(q: seq<Token>, uid: Uid, u: Uid)
    ensures Count(Dequeue(q, uid), u) == if u == uid then 0 else Count(q, u)
  {
    if q == [] {
    } else {
      CountDequeue(q[1..], uid, u);
      if q[0].uid != uid {
        assert Dequeue(q, uid)[1..] == Dequeue(q[1..], uid);
      }
    }
  }

  function Uids(q: seq<Token>): seq<Uid> {
    if q == [] then [] else [q[0].uid] + Uids(q[1..])
  }

  /** On the uids alone, the queues of the model are the queues of MatchQueue. */
  lemma {:induction false} QueuesHoldUids(q: seq<Token>, uid: Uid)
    ensures Uids(Dequeue(q, uid)) == MatchQueue.Without(Uids(q), uid)
    ensures |Uids(q)| == |q|
  {
    if q == [] {
    } else {
      QueuesHoldUids(q[1..], uid);
      assert Uids(q)[1..] == Uids(q[1..]);
      if q[0].uid != uid {
        assert Dequeue(q, uid)[1..] == Dequeue(q[1..], uid);
      }
    }
  }

  lemma EnqueueConserves(s: State, t: Token, u: Uid)
    ensures Live(Enqueue(s, t), u) == Live(s, u) + One(t.uid, u)
    ensures Gone(Enqueue(s, t), u) == Gone(s, u)
  {
    CountAppend(s.queues.At(BandOf(t.score)), t, u);
  }

  lemma SettleConserves(s: State, b: Band, pc: Pc, q: seq<Token>, u: Uid)
    ensures var t := Settle(s, b, pc, q);
            && Live(t, u) + Held(s.workers.At(b), u) + Count(s.queues.At(b), u)
                 == Live(s, u) + Held(pc, u) + Count(q, u)
            && Gone(t, u) == Gone(s, u) && t.admitted == s.admitted
  {
  }

  lemma CountShort(a: Uid, b: Uid, u: Uid)
    ensures CountUids([a], u) == One(a, u)
    ensures CountUids([a, b], u) == One(a, u) + One(b, u)
  {
    assert [a, b][1..] == [b];
    assert [a][1..] == [];
    assert CountUids([b], u) == One(b, u) by {
      assert [b][1..] == [];
    }
  }

  /** The tokens of u that an effect takes from the worker. */
  function Spent(e: Effect, u: Uid): nat {
    match e
    case Quiet => 0
    case Offline(uid) => One(uid, u)
    case Unknown(uid) => One(uid, u)
    case Matched(pair) => One(pair.one.uid, u) + One(pair.two.uid, u)
    case Sent(token) => One(token.uid, u)
  }

  lemma TurnConserves(pc: Pc, q: seq<Token>, score: Option<int>, online: bool, created: bool, u: Uid)
    ensures var turn := TakeTurn(pc, q, score, online, created);
            Held(pc, u) + Count(q, u) == Held(turn.pc, u) + Count(turn.queue, u) + Spent(turn.effect, u)
  {
    match pc {
      case PopSecond(one) => CountShort(one.uid, one.uid, u);
      case FindFirst(one, two) => CountShort(two.uid, one.uid, u);
      case FindSecond(one, two) => CountShort(one.uid, two.uid, u);
      case Open(one, two) => CountShort(one.uid, two.uid, u);
      case _ =>
    }
  }

  lemma RecordConserves(s: State, e: Effect, u: Uid)
    ensures var t := Record(s, e);
            && Live(t, u) + Gone(t, u) == Live(s, u) + Gone(s, u) + Spent(e, u) && t.admitted == s.admitted
            && Gone(s, u) <= Gone(t, u)
  {
    match e {
      case Quiet =>
      case Offline(uid) =>
      case Unknown(uid) =>
      case Matched(pair) => assert (s.matched + [pair])[..|s.matched|] == s.matched;
      case Sent(token) => EnqueueConserves(s, token, u);
    }
  }

  lemma WorkConserves(s: State, b: Band, score: Option<int>, online: bool, created: bool, u: Uid)
    ensures var t := Work(s, b, score, online, created);
            Live(t, u) + Gone(t, u) == Live(s, u) + Gone(s, u) && t.admitted == s.admitted && Gone(s, u) <= Gone(t, u)
  {
    var pc, q := s.workers.At(b), s.queues.At(b);
    var turn := TakeTurn(pc, q, score, online, created);
    TurnConserves(pc, q, score, online, created, u);
    SettleConserves(s, b, turn.pc, turn.queue, u);
    RecordConserves(Settle(s, b, turn.pc, turn.queue), turn.effect, u);
  }

  lemma RemoveConserves(s: State, uid: Uid, b: Band, u: Uid)
    ensures var q := s.queues.At(b);
            var t := s.(queues := s.queues.With(b, Dequeue(q, uid)),
                        removed := s.removed[uid := s.removed[uid] + Count(q, uid)]);
            Live(t, u) + Gone(t, u) == Live(s, u) + Gone(s, u) && Gone(s, u) <= Gone(t, u)
  {
    CountDequeue(s.queues.At(b), uid, u);
  }

  lemma ServeConserves(s: State, u: Uid)
    ensures var t := Serve(s);
            Live(t, u) + Gone(t, u) == Live(s, u) + Gone(s, u) && t.admitted == s.admitted && Gone(s, u) <= Gone(t, u)
  {
    match s.net {
      case Idle =>
      case Adding(token) => EnqueueConserves(s.(net := Idle), token, u);
      case Deleting(uid, b) => RemoveConserves(s.(net := Idle), uid, b, u);
    }
  }

  /** The step takes a new token in. */
  predicate Admits(s: State, a: Action) {
    a.Add? && s.net == Idle && a.score.Some?
  }

  /** A step keeps the account of every player, admits only by add, and revives nobody. */
  lemma StepConserves(s: State, a: Action, u: Uid)
    ensures var t := Step(s, a);
            var entering := if Admits(s, a) then One(a.uid, u) else 0;
            && t.admitted[u] == s.admitted[u] + entering
            && Live(t, u) + Gone(t, u) == Live(s, u) + Gone(s, u) + entering
            && Gone(s, u) <= Gone(t, u)
  {
    match a {
      case Tick(b, score, online, created) => WorkConserves(s, b, score, online, created, u);
      case WakeUp(b) => SettleConserves(s, b, Enter, s.queues.At(b), u);
      case Add(uid, score) =>
      case Del(uid, score) =>
      case NetTick => ServeConserves(s, u);
    }
  }

  /** In every interleaving, for every player: tokens admitted are tokens queued, held by a
      worker or on their way into a queue, matched, dropped as offline, removed by del, or
      lost to a failed lookup. */
  lemma {:induction false} TokensAreConserved(acts: seq<Action>, u: Uid)
    ensures var s := Run(acts);
            s.admitted[u] == Queued(s, u) + InHand(s, u) + CountPairs(s.matched, u)
                             + s.dropped[u] + s.removed[u] + s.lost[u]
  {
    if acts == [] {
    } else {
      TokensAreConserved(acts[..|acts| - 1], u);
      StepConserves(Run(acts[..|acts| - 1]), acts[|acts| - 1], u);
    }
  }

  // ----- One token each -----

  /** add is only issued for a player without a live token. */
  ghost predicate Careful(acts: seq<Action>) {
    acts == [] ||
    (var s, a := Run(acts[..|acts| - 1]), acts[|acts| - 1];
     Careful(acts[..|acts| - 1]) && (Admits(s, a) ==> Live(s, a.uid) == 0))
  }

  lemma {:induction false} OneTokenEach(acts: seq<Action>, u: Uid)
    requires Careful(acts)
    ensures Live(Run(acts), u) <= 1
  {
    if acts == [] {
    } else {
      var s, a := Run(acts[..|acts| - 1]), acts[|acts| - 1];
      OneTokenEach(acts[..|acts| - 1], u);
      StepConserves(s, a, u);
    }
  }

  /** A match is made by a worker, from the two tokens in its hands. */
  lemma StepMatches(s: State, a: Action)
    ensures var t := Step(s, a);
            t.matched == s.matched
            || (a.Tick? && s.workers.At(a.band).Open?
                && t.matched == s.matched + [Pair(s.workers.At(a.band).one, s.workers.At(a.band).two)])
  {
  }

  /** Then no player ever has two tokens, and every room is made for two different players. */
  lemma {:induction false} RoomsHaveTwoPlayers(acts: seq<Action>)
    requires Careful(acts)
    ensures forall u :: Live(Run(acts), u) <= 1
    ensures forall i | 0 <= i < |Run(acts).matched| :: Run(acts).matched[i].one.uid != Run(acts).matched[i].two.uid
  {
    forall u ensures Live(Run(acts), u) <= 1 {
      OneTokenEach(acts, u);
    }
    if acts == [] {
    } else {
      var s, a := Run(acts[..|acts| - 1]), acts[|acts| - 1];
      RoomsHaveTwoPlayers(acts[..|acts| - 1]);
      if Run(acts).matched != s.matched {
        StepMatches(s, a);
        var pc := s.workers.At(a.band);
        assert Live(s, pc.one.uid) <= 1;
        assert Held(pc, pc.one.uid) <= InHand(s, pc.one.uid);
      }
    }
  }

  /** At no point of the run has a player two live tokens. */
  ghost predicate AlwaysSingle(acts: seq<Action>) {
    (forall u :: Live(Run(acts), u) <= 1) && (acts == [] || AlwaysSingle(acts[..|acts| - 1]))
  }

  lemma AdmittingAddsOne(s: State, a: Action)
    requires Admits(s, a)
    ensures Live(Step(s, a), a.uid) == Live(s, a.uid) + 1
  {
  }

  lemma OneCarelessStep(acts: seq<Action>)
    requires acts != [] && Careful(acts[..|acts| - 1]) && !Careful(acts)
    ensures !AlwaysSingle(acts)
  {
    var s, a := Run(acts[..|acts| - 1]), acts[|acts| - 1];
    AdmittingAddsOne(s, a);
    assert Live(Run(acts), a.uid) > 1;
  }

  /** No player ever has two tokens exactly when add is never admitted for a player who has one. */
  lemma {:induction false} CarefulIsExact(acts: seq<Action>)
    ensures AlwaysSingle(acts) <==> Careful(acts)
  {
    if Careful(acts) {
      forall u ensures Live(Run(acts), u) <= 1 {
        OneTokenEach(acts, u);
      }
      if acts == [] {
      } else {
        CarefulIsExact(acts[..|acts| - 1]);
      }
    } else if Careful(acts[..|acts| - 1]) {
      OneCarelessStep(acts);
    } else {
      CarefulIsExact(acts[..|acts| - 1]);
    }
  }

  lemma RunOn(acts: seq<Action>, a: Action)
    ensures Run(acts + [a]) == Step(Run(acts), a)
  {
    assert (acts + [a])[..|acts|] == acts;
  }

  /** add in two steps, for a player of the lowest band while no worker sleeps. */
  lemma AddInTwoSteps(acts: seq<Action>, uid: Uid)
    requires Run(acts).net == Idle && Run(acts).workers == START.workers
    ensures var s, t := Run(acts), Run(acts + [Add(uid, Some(1000))] + [NetTick]);
            t == s.(admitted := s.admitted + multiset{uid},
                    queues := s.queues.(normal := s.queues.normal + [Token(uid, 1000)]))
  {
    RunOn(acts, Add(uid, Some(1000)));
    RunOn(acts + [Add(uid, Some(1000))], NetTick);
  }

  /** A step of a worker that concerns nobody else, with good answers. */
  lemma WorkIsQuiet(s: State, b: Band, pc: Pc, q: seq<Token>)
    requires TakeTurn(s.workers.At(b), s.queues.At(b), None, true, true) == Turn(pc, q, Quiet)
    ensures var t := Work(s, b, None, true, true);
            t.workers.At(b) == pc && t.queues.At(b) == q && t.matched == s.matched
  {
  }

  lemma QuietStep(acts: seq<Action>, b: Band, pc: Pc, q: seq<Token>, s: State) returns (acts': seq<Action>)
    requires s == Run(acts) && TakeTurn(s.workers.At(b), s.queues.At(b), None, true, true) == Turn(pc, q, Quiet)
    ensures Run(acts').workers.At(b) == pc && Run(acts').queues.At(b) == q && Run(acts').matched == s.matched
  {
    acts' := acts + [Tick(b, None, true, true)];
    WorkIsQuiet(s, b, pc, q);
    RunOn(acts, Tick(b, None, true, true));
  }

  lemma WorkMatches(s: State, b: Band, one: Token, two: Token)
    requires s.workers.At(b) == Open(one, two)
    ensures Work(s, b, None, true, true).matched == s.matched + [Pair(one, two)]
    ensures Work(s, b, None, true, true).queues == s.queues
  {
  }

  lemma MatchStep(acts: seq<Action>, b: Band, one: Token, two: Token)
    requires Run(acts).workers.At(b) == Open(one, two)
    ensures Run(acts + [Tick(b, None, true, true)]).matched == Run(acts).matched + [Pair(one, two)]
    ensures Run(acts + [Tick(b, None, true, true)]).queues == Run(acts).queues
  {
    WorkMatches(Run(acts), b, one, two);
    RunOn(acts, Tick(b, None, true, true));
  }

  lemma PopTurns(one: Token, two: Token, rest: seq<Token>)
    ensures var q, q' := [one, two] + rest, [two] + rest;
            && TakeTurn(Check, q, None, true, true) == Turn(PopFirst, q, Quiet)
            && TakeTurn(PopFirst, q, None, true, true) == Turn(PopSecond(one), q', Quiet)
            && TakeTurn(PopSecond(one), q', None, true, true) == Turn(FindFirst(one, two), rest, Quiet)
  {
    assert ([one, two] + rest)[1..] == [two] + rest && ([two] + rest)[1..] == rest;
  }

  /** The worker takes the two players who are next in its queue. */
  lemma TakenTwice(acts: seq<Action>, b: Band, one: Token, two: Token, rest: seq<Token>) returns (acts': seq<Action>)
    requires Run(acts).queues.At(b) == [one, two] + rest && Run(acts).workers.At(b) == Check
    ensures Run(acts').workers.At(b) == FindFirst(one, two) && Run(acts').queues.At(b) == rest
    ensures Run(acts').matched == Run(acts).matched
  {
    PopTurns(one, two, rest);
    var a1 := QuietStep(acts, b, PopFirst, [one, two] + rest, Run(acts));
    var a2 := QuietStep(a1, b, PopSecond(one), [two] + rest, Run(a1));
    acts' := QuietStep(a2, b, FindFirst(one, two), rest, Run(a2));
  }

  lemma FindTurns(one: Token, two: Token, q: seq<Token>)
    ensures TakeTurn(FindFirst(one, two), q, None, true, true) == Turn(FindSecond(one, two), q, Quiet)
    ensures TakeTurn(FindSecond(one, two), q, None, true, true) == Turn(Open(one, two), q, Quiet)
  {
  }

  /** And, finding them online, makes a room. */
  lemma MatchedOnce(acts: seq<Action>, b: Band, one: Token, two: Token) returns (acts': seq<Action>)
    requires Run(acts).workers.At(b) == FindFirst(one, two)
    ensures Run(acts').matched == Run(acts).matched + [Pair(one, two)]
    ensures Run(acts').queues.At(b) == Run(acts).queues.At(b)
  {
    var q := Run(acts).queues.At(b);
    FindTurns(one, two, q);
    var a1 := QuietStep(acts, b, FindSecond(one, two), q, Run(acts));
    var a2 := QuietStep(a1, b, Open(one, two), q, Run(a1));
    MatchStep(a2, b, one, two);
    acts' := a2 + [Tick(b, None, true, true)];
  }

  /** In every band: a worker at the head of its loop can go on to match the first two players
      of its queue, in the order in which they wait, if both are online and get a room. */
  lemma TheFirstTwoAreMatched(acts: seq<Action>, b: Band, one: Token, two: Token, rest: seq<Token>)
    returns (acts': seq<Action>)
    requires Run(acts).queues.At(b) == [one, two] + rest && Run(acts).workers.At(b) == Check
    ensures Run(acts').matched == Run(acts).matched + [Pair(one, two)] && Run(acts').queues.At(b) == rest
  {
    acts' := TakenTwice(acts, b, one, two, rest);
    acts' := MatchedOnce(acts', b, one, two);
  }

  lemma QueuedTwice(uid: Uid) returns (acts: seq<Action>)
    ensures var s, t := Run(acts), Token(uid, 1000);
            s.queues.normal == [t, t] && s.workers.normal == Check && s.matched == []
  {
    AddInTwoSteps([], uid);
    acts := [] + [Add(uid, Some(1000))] + [NetTick];
    AddInTwoSteps(acts, uid);
    acts := acts + [Add(uid, Some(1000))] + [NetTick];
  }

  /** Two adds of one player, and the worker makes a room of him with himself. */
  lemma DoubleAddMatchesOne(uid: Uid) returns (acts: seq<Action>)
    ensures Run(acts).matched == [Pair(Token(uid, 1000), Token(uid, 1000))]
  {
    var t := Token(uid, 1000);
    acts := QueuedTwice(uid);
    assert [t, t] + [] == [t, t];
    acts := TheFirstTwoAreMatched(acts, Normal, t, t, []);
  }

  // ----- Same band, and no lost wakeup -----

  ghost predicate AllIn(q: seq<Token>, b: Band) {
    forall t <- q :: BandOf(t.score) == b
  }

  /** The tokens that a worker took from its queue are of the band of that queue. */
  predicate HeldIn(pc: Pc, b: Band) {
    match pc
    case PopSecond(one) => BandOf(one.score) == b
    case FindFirst(one, two) => BandOf(one.score) == b && BandOf(two.score) == b
    case FindSecond(one, two) => BandOf(one.score) == b && BandOf(two.score) == b
    case Open(one, two) => BandOf(one.score) == b && BandOf(two.score) == b
    case _ => true
  }

  ghost predicate TidyBand(s: State, b: Band) {
    && AllIn(s.queues.At(b), b) && HeldIn(s.workers.At(b), b)
    && (s.workers.At(b) == Asleep ==> |s.queues.At(b)| < 2)
  }

  ghost predicate Tidy(s: State) {
    && (forall b: Band :: TidyBand(s, b))
    && (forall i | 0 <= i < |s.matched| :: BandOf(s.matched[i].one.score) == BandOf(s.matched[i].two.score))
  }

  lemma {:induction false} DequeueIsSmaller(q: seq<Token>, uid: Uid)
    ensures |Dequeue(q, uid)| <= |q|
    ensures forall t <- Dequeue(q, uid) :: t in q
  {
    if q == [] {
    } else {
      DequeueIsSmaller(q[1..], uid);
    }
  }

  lemma EnqueueIsTidy(s: State, t: Token, c: Band)
    requires TidyBand(s, c)
    ensures TidyBand(Enqueue(s, t), c)
  {
  }

  /** A turn keeps the queue and the hands of a worker in their band. */
  lemma TurnIsTidy(pc: Pc, q: seq<Token>, b: Band, score: Option<int>, online: bool, created: bool)
    requires AllIn(q, b) && HeldIn(pc, b) && (pc == Asleep ==> |q| < 2)
    ensures var turn := TakeTurn(pc, q, score, online, created);
            && AllIn(turn.queue, b) && HeldIn(turn.pc, b) && (turn.pc == Asleep ==> |turn.queue| < 2)
            && (turn.effect.Matched? ==> BandOf(turn.effect.pair.one.score) == b == BandOf(turn.effect.pair.two.score))
  {
  }

  lemma SettleIsTidy(s: State, b: Band, pc: Pc, q: seq<Token>, c: Band)
    requires TidyBand(s, c) && AllIn(q, b) && HeldIn(pc, b) && (pc == Asleep ==> |q| < 2)
    ensures TidyBand(Settle(s, b, pc, q), c)
  {
  }

  lemma WorkIsTidy(s: State, b: Band, score: Option<int>, online: bool, created: bool)
    requires Tidy(s)
    ensures Tidy(Work(s, b, score, online, created))
  {
    assert TidyBand(s, b);
    var turn := TakeTurn(s.workers.At(b), s.queues.At(b), score, online, created);
    TurnIsTidy(s.workers.At(b), s.queues.At(b), b, score, online, created);
    var t := Settle(s, b, turn.pc, turn.queue);
    forall c: Band ensures TidyBand(Record(t, turn.effect), c) {
      SettleIsTidy(s, b, turn.pc, turn.queue, c);
      if turn.effect.Sent? {
        EnqueueIsTidy(t, turn.effect.token, c);
      }
    }
  }

  lemma ServeIsTidy(s: State)
    requires Tidy(s)
    ensures Tidy(Serve(s))
  {
    forall c: Band ensures TidyBand(Serve(s), c) {
      assert TidyBand(s, c);
      match s.net {
        case Idle =>
        case Adding(token) => EnqueueIsTidy(s.(net := Idle), token, c);
        case Deleting(uid, b) => DequeueIsSmaller(s.queues.At(b), uid);
      }
    }
  }

  lemma StepIsTidy(s: State, a: Action)
    requires Tidy(s)
    ensures Tidy(Step(s, a))
  {
    match a {
      case Tick(b, score, online, created) => WorkIsTidy(s, b, score, online, created);
      case NetTick => ServeIsTidy(s);
      case _ =>
        forall c: Band ensures TidyBand(Step(s, a), c) {
          assert TidyBand(s, c);
        }
    }
  }

  lemma {:induction false} RunIsTidy(acts: seq<Action>)
    ensures Tidy(Run(acts))
  {
    if acts == [] {
    } else {
      RunIsTidy(acts[..|acts| - 1]);
      StepIsTidy(Run(acts[..|acts| - 1]), acts[|acts| - 1]);
    }
  }

  /** In every interleaving, a worker asleep on its queue means that fewer than two players
      are waiting there. */
  lemma NoLostWakeup(acts: seq<Action>, b: Band)
    requires Run(acts).workers.At(b) == Asleep
    ensures |Run(acts).queues.At(b)| < 2
  {
    RunIsTidy(acts);
    assert TidyBand(Run(acts), b);
  }

  /** The two players of every room were last enqueued on scores of the same band. */
  lemma RoomsAreOfOneBand(acts: seq<Action>, i: nat)
    requires i < |Run(acts).matched|
    ensures var pair := Run(acts).matched[i];
            || (pair.one.score < 2000 && pair.two.score < 2000)
            || (2000 <= pair.one.score < 3000 && 2000 <= pair.two.score < 3000)
            || (3000 <= pair.one.score && 3000 <= pair.two.score)
  {
    RunIsTidy(acts);
  }
}
