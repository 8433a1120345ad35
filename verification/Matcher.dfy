/** The matcher: three queue objects, add and del, and the loop body of a worker. Every
    method is proved to be a sequence of steps of the machine in Matching.dfy, so what holds
    of all interleavings of that machine holds of this code. */
module Matcher {
  import opened Ledger
  import opened Wrappers
  import opened Matching
  import Q = MatchQueue

  // ----- From one state of the machine to a later one -----

  function Go(s: State, acts: seq<Action>): State {
    if acts == [] then s else Step(Go(s, acts[..|acts| - 1]), acts[|acts| - 1])
  }

  lemma GoOn(s: State, acts: seq<Action>, a: Action)
    ensures Go(s, acts + [a]) == Step(Go(s, acts), a)
  {
    assert (acts + [a])[..|acts|] == acts;
  }

  lemma LastApart<T>(first: seq<T>, second: seq<T>)
    requires second != []
    ensures var n := |second| - 1;
            first + second == (first + second[..n]) + [second[n]] && second == second[..n] + [second[n]]
  {
  }

  /** Going on from the end of a run is a longer run. */
  lemma {:induction false} RunsGoOn(before: seq<Action>, acts: seq<Action>)
    ensures Run(before + acts) == Go(Run(before), acts)
  {
    if acts == [] {
      assert before + acts == before;
    } else {
      var n := |acts| - 1;
      RunsGoOn(before, acts[..n]);
      LastApart(before, acts);
      RunOn(before + acts[..n], acts[n]);
      GoOn(Run(before), acts[..n], acts[n]);
    }
  }

  lemma GoTwo(s: State, a: Action, b: Action)
    ensures Go(s, [a, b]) == Step(Step(s, a), b)
  {
    GoOn(s, [a], b);
    GoOn(s, [], a);
    assert [] + [a] == [a] && [a] + [b] == [a, b];
  }

  /** The network thread's two steps of add, and of del. */
  lemma AddSteps(s: State, uid: Uid, score: Option<int>)
    requires s.net == Idle
    ensures var t := Go(s, [Action.Add(uid, score), NetTick]);
            && t.queues == Added(s, uid, score).queues && t.workers == Added(s, uid, score).workers
            && t.admitted == s.admitted + if score.Some? then multiset{uid} else multiset{}
  {
    GoTwo(s, Action.Add(uid, score), NetTick);
  }

  lemma DelSteps(s: State, uid: Uid, score: Option<int>)
    requires s.net == Idle
    ensures var t := Go(s, [Action.Del(uid, score), NetTick]);
            t.workers == s.workers && t.queues ==
              if score.None? then s.queues
              else s.queues.With(BandOf(score.value), Dequeue(s.queues.At(BandOf(score.value)), uid))
  {
    GoTwo(s, Action.Del(uid, score), NetTick);
  }

  lemma {:induction false} GoThrough(s: State, first: seq<Action>, second: seq<Action>)
    ensures Go(s, first + second) == Go(Go(s, first), second)
  {
    if second == [] {
      assert first + second == first;
    } else {
      var n := |second| - 1;
      GoThrough(s, first, second[..n]);
      LastApart(first, second);
      GoOn(s, first + second[..n], second[n]);
      GoOn(Go(s, first), second[..n], second[n]);
    }
  }

  predicate TicksOf(acts: seq<Action>, b: Band) {
    forall i | 0 <= i < |acts| :: acts[i].Tick? && acts[i].band == b
  }

  /** A step of worker b without lookups. */
  function Plain(b: Band): Action {
    Tick(b, None, false, false)
  }

  lemma {:induction false} UidsAppend(q: seq<Token>, t: Token)
    ensures Uids(q + [t]) == Uids(q) + [t.uid]
  {
    if q == [] {
      assert q + [t] == [t];
    } else {
      UidsAppend(q[1..], t);
      assert (q + [t])[1..] == q[1..] + [t];
    }
  }

  lemma OneMoreTick(s: State, acts: seq<Action>, a: Action, b: Band)
    requires TicksOf(acts, b) && a.Tick? && a.band == b
    ensures TicksOf(acts + [a], b)
    ensures Go(s, acts + [a]) == Work(Go(s, acts), b, a.score, a.online, a.created)
  {
    GoOn(s, acts, a);
  }

  /** The worker holds these two players, not yet looked up. */
  predicate Holding(s: State, b: Band, uid1: Uid, uid2: Uid) {
    var pc := s.workers.At(b);
    pc.FindFirst? && pc.one.uid == uid1 && pc.two.uid == uid2
  }

  /** What add does to the queues. */
  function Added(s: State, uid: Uid, score: Option<int>): State {
    if score.Some? then Enqueue(s, Token(uid, score.value)) else s
  }

  /** What a pass through the loop body does for good: the queues, and who left them how. */
  datatype Tally = Tally(
    queues: Three<seq<Token>>, matched: seq<Pair>, dropped: multiset<Uid>, lost: multiset<Uid>
  ) {
    /** Queue a player on the score just read, or lose him when there is none. */
    function Requeue(uid: Uid, score: Option<int>): Tally {
      if score.None? then this.(lost := lost + multiset{uid})
      else
        var b := BandOf(score.value);
        this.(queues := queues.With(b, queues.At(b) + [Token(uid, score.value)]))
    }

    /** The pops: with one player in the queue, he is put back. */
    function Pop(b: Band, score: Option<int>): Tally {
      var q := queues.At(b);
      if q == [] then this
      else if |q| == 1 then this.(queues := queues.With(b, [])).Requeue(q[0].uid, score)
      else this.(queues := queues.With(b, q[2..]))
    }

    /** The lookups: the first one found offline is dropped, and the other put back. */
    function LookUp(uid1: Uid, uid2: Uid, online1: bool, online2: bool,
                    score1: Option<int>, score2: Option<int>): Tally {
      if !online1 then this.(dropped := dropped + multiset{uid1}).Requeue(uid2, score2)
      else if !online2 then this.(dropped := dropped + multiset{uid2}).Requeue(uid1, score1)
      else this
    }

    /** The room: matched, or both put back, the first one first. */
    function Open(one: Token, two: Token, created: bool, score1: Option<int>, score2: Option<int>): Tally {
      if created then this.(matched := matched + [Pair(one, two)])
      else this.Requeue(one.uid, score1).Requeue(two.uid, score2)
    }

    function PairUp(one: Token, two: Token, online1: bool, online2: bool, created: bool,
                    score1: Option<int>, score2: Option<int>): Tally {
      var t := this.LookUp(one.uid, two.uid, online1, online2, score1, score2);
      if online1 && online2 then t.Open(one, two, created, score1, score2) else t
    }

    /** The whole loop body. */
    function Pass(b: Band, online1: bool, online2: bool, created: bool,
                  score1: Option<int>, score2: Option<int>): Tally {
      var q, t := queues.At(b), this.Pop(b, score1);
      if |q| < 2 then t else t.PairUp(q[0], q[1], online1, online2, created, score1, score2)
    }
  }

  /** Two pops of one player each, and one put back when he is alone. */
  lemma PopTwice(t: Tally, b: Band, score: Option<int>)
    ensures var q := t.queues.At(b);
            && (q == [] ==> t.(queues := t.queues.With(b, [])) == t.Pop(b, score))
            && (q != [] ==>
                  var t1 := t.(queues := t.queues.With(b, q[1..]));
                  && t1.queues.At(b) == q[1..]
                  && (|q| == 1 ==> t1.(queues := t1.queues.With(b, [])).Requeue(q[0].uid, score) == t.Pop(b, score))
                  && (|q| > 1 ==> t1.(queues := t1.queues.With(b, q[1..][1..])) == t.Pop(b, score)))
  {
  }

  function TallyOf(s: State): Tally {
    Tally(s.queues, s.matched, s.dropped, s.lost)
  }

  /** The steps that put one player back. */
  function PutBackSteps(b: Band, score: Option<int>): seq<Action> {
    var look := Tick(b, score, false, false);
    if score.None? then [look] else [look, Plain(b)]
  }

  function Moved(s: State, b: Band, pc: Pc): State {
    s.(workers := s.workers.With(b, pc))
  }

  lemma ScoreStep(s: State, b: Band, uid: Uid, score: Option<int>, rest: seq<Uid>)
    requires s.workers.At(b) == Look([uid] + rest)
    ensures Work(s, b, score, false, false) ==
              if score.None? then Moved(s, b, Look(rest)).(lost := s.lost + multiset{uid})
              else Moved(s, b, Pc.Put(Token(uid, score.value), rest))
  {
    assert ([uid] + rest)[1..] == rest;
  }

  lemma PutStep(s: State, b: Band, token: Token, rest: seq<Uid>)
    ensures Work(Moved(s, b, Pc.Put(token, rest)), b, None, false, false) == Enqueue(Moved(s, b, Look(rest)), token)
  {
  }

  lemma PuttingBack(s: State, b: Band, uid: Uid, score: Option<int>, rest: seq<Uid>)
    requires s.workers.At(b) == Look([uid] + rest)
    ensures Go(s, PutBackSteps(b, score)) ==
              if score.None? then Moved(s, b, Look(rest)).(lost := s.lost + multiset{uid})
              else Enqueue(Moved(s, b, Look(rest)), Token(uid, score.value))
  {
    var look := Tick(b, score, false, false);
    ScoreStep(s, b, uid, score, rest);
    OneTick(s, look, b);
    if score.Some? {
      PutStep(s, b, Token(uid, score.value), rest);
      OneMoreTick(s, [look], Plain(b), b);
      assert [look] + [Plain(b)] == [look, Plain(b)];
    }
  }

  /** From s to t a player was put back: queued if his score could be read, else lost. */
  ghost predicate PutBack(s: State, t: State, b: Band, uid: Uid, score: Option<int>, rest: seq<Uid>) {
    var next := Added(Moved(s, b, Look(rest)), uid, score);
    && t.queues == next.queues && t.workers == next.workers && next.workers.At(b) == Look(rest)
    && TallyOf(t) == TallyOf(s).Requeue(uid, score)
  }

  lemma IsPutBack(s: State, b: Band, uid: Uid, score: Option<int>, rest: seq<Uid>)
    requires s.workers.At(b) == Look([uid] + rest)
    ensures PutBack(s, Go(s, PutBackSteps(b, score)), b, uid, score, rest)
  {
    PuttingBack(s, b, uid, score, rest);
  }

  lemma PutBackLater(s: State, done: seq<Action>, b: Band, uid: Uid, score: Option<int>, rest: seq<Uid>, t: State)
    requires TicksOf(done, b) && t == Go(s, done) && t.workers.At(b) == Look([uid] + rest)
    ensures TicksOf(done + PutBackSteps(b, score), b)
    ensures PutBack(t, Go(s, done + PutBackSteps(b, score)), b, uid, score, rest)
  {
    IsPutBack(t, b, uid, score, rest);
    GoThrough(s, done, PutBackSteps(b, score));
  }

  lemma Popping(s: State, b: Band)
    requires s.workers.At(b).PopFirst? || s.workers.At(b).PopSecond?
    ensures var pc, q, t := s.workers.At(b), s.queues.At(b), Work(s, b, None, false, false);
            && TallyOf(t) == TallyOf(s).(queues := s.queues.With(b, if q == [] then q else q[1..]))
            && t.workers == s.workers.With(b,
                 if pc.PopFirst? then (if q == [] then Check else PopSecond(q[0]))
                 else (if q == [] then Look([pc.one.uid]) else FindFirst(pc.one, q[0])))
  {
  }

  lemma Opening(s: State, b: Band, created: bool)
    requires s.workers.At(b).Open?
    ensures var pc, t := s.workers.At(b), Work(s, b, None, false, created);
            && TallyOf(t) == TallyOf(s).(matched := if created then s.matched + [Pair(pc.one, pc.two)] else s.matched)
            && t.workers == s.workers.With(b, if created then Check else Look([pc.one.uid, pc.two.uid]))
  {
  }

  lemma OneTick(s: State, a: Action, b: Band)
    requires a.Tick? && a.band == b
    ensures TicksOf([a], b) && Go(s, [a]) == Work(s, b, a.score, a.online, a.created)
  {
    OneMoreTick(s, [], a, b);
    assert [] + [a] == [a];
  }

  lemma OpeningLater(s: State, b: Band, created: bool)
    requires s.workers.At(b).Open?
    ensures var pc, t := s.workers.At(b), Go(s, [Tick(b, None, false, created)]);
            && TallyOf(t) == TallyOf(s).(matched := if created then s.matched + [Pair(pc.one, pc.two)] else s.matched)
            && t.workers == s.workers.With(b, if created then Check else Look([pc.one.uid, pc.two.uid]))
  {
    Opening(s, b, created);
    OneTick(s, Tick(b, None, false, created), b);
  }

  /** The two tests of the queue's length before the loop body. */
  lemma Heading(s: State, b: Band)
    requires s.workers.At(b) == Check || s.workers.At(b) == Enter
    ensures var long, t := |s.queues.At(b)| >= 2, Work(s, b, None, false, false);
            && t.queues == s.queues
            && t.workers == s.workers.With(b,
                 if s.workers.At(b) == Check then (if long then PopFirst else Enter)
                 else if long then Check else Asleep)
  {
  }

  /** A lookup leaves the queues alone. */
  lemma LookingUp(s: State, b: Band, online: bool)
    requires s.workers.At(b).FindFirst? || s.workers.At(b).FindSecond?
    ensures var pc, t := s.workers.At(b), Work(s, b, None, online, false);
            && TallyOf(t) ==
                 (if online then TallyOf(s)
                  else TallyOf(s).(dropped := s.dropped + multiset{if pc.FindFirst? then pc.one.uid else pc.two.uid}))
            && t.workers == s.workers.With(b,
                 if online then (if pc.FindFirst? then FindSecond(pc.one, pc.two) else Open(pc.one, pc.two))
                 else Look([if pc.FindFirst? then pc.two.uid else pc.one.uid]))
  {
  }

  /** One lookup, some steps after s. */
  lemma LookingLater(s: State, done: seq<Action>, b: Band, online: bool, t: State)
    requires TicksOf(done, b) && t == Go(s, done) && (t.workers.At(b).FindFirst? || t.workers.At(b).FindSecond?)
    ensures TicksOf(done + [Tick(b, None, online, false)], b)
    ensures var pc, u := t.workers.At(b), Go(s, done + [Tick(b, None, online, false)]);
            && TallyOf(u) ==
                 (if online then TallyOf(t)
                  else TallyOf(t).(dropped := t.dropped + multiset{if pc.FindFirst? then pc.one.uid else pc.two.uid}))
            && u.workers == t.workers.With(b,
                 if online then (if pc.FindFirst? then FindSecond(pc.one, pc.two) else Open(pc.one, pc.two))
                 else Look([if pc.FindFirst? then pc.two.uid else pc.one.uid]))
  {
    LookingUp(t, b, online);
    OneMoreTick(s, done, Tick(b, None, online, false), b);
  }

  /** One pop, some steps after s. */
  lemma PoppingLater(s: State, done: seq<Action>, b: Band, t: State)
    requires TicksOf(done, b) && t == Go(s, done) && (t.workers.At(b).PopFirst? || t.workers.At(b).PopSecond?)
    ensures TicksOf(done + [Plain(b)], b)
    ensures var pc, q, u := t.workers.At(b), t.queues.At(b), Go(s, done + [Plain(b)]);
            && TallyOf(u) == TallyOf(t).(queues := t.queues.With(b, if q == [] then q else q[1..]))
            && u.workers == t.workers.With(b,
                 if pc.PopFirst? then (if q == [] then Check else PopSecond(q[0]))
                 else (if q == [] then Look([pc.one.uid]) else FindFirst(pc.one, q[0])))
  {
    Popping(t, b);
    OneMoreTick(s, done, Plain(b), b);
  }

  lemma UidsHead(q: seq<Token>)
    ensures |Uids(q)| == |q|
    ensures q != [] ==> Uids(q)[0] == q[0].uid && Uids(q)[1..] == Uids(q[1..])
  {
    QueuesHoldUids(q, NOBODY);
  }

  class Matcher {
    const normal: Q.MatchQueue<Uid>
    const high: Q.MatchQueue<Uid>
    const super: Q.MatchQueue<Uid>

    function QueueOf(b: Band): Q.MatchQueue<Uid> {
      match b case Normal => normal case High => high case Super => super
    }

    /** The queue holds the uids of the machine's queue; its worker sleeps iff the machine's does. */
    ghost predicate ShowsBand(s: State, b: Band)
      reads QueueOf(b)
    {
      && QueueOf(b).Valid() && QueueOf(b).list == Uids(s.queues.At(b))
      && QueueOf(b).asleep == if s.workers.At(b).Asleep? then 1 else 0
    }

    ghost predicate Shows(s: State)
      reads normal, high, super
    {
      && normal != high && normal != super && high != super
      && ShowsBand(s, Normal) && ShowsBand(s, High) && ShowsBand(s, Super)
    }

    constructor ()
      ensures Shows(START)
    {
      normal := new Q.MatchQueue<Uid>();
      high := new Q.MatchQueue<Uid>();
      super := new Q.MatchQueue<Uid>();
    }

    /** score is what the user table answers. */
    method Add(uid: Uid, score: Option<int>, ghost s: State) returns (ok: bool)
      requires Shows(s)
      modifies normal, high, super
      ensures ok <==> score.Some?
      ensures Shows(Added(s, uid, score))
    {
      if score.None? {
        return false;
      }
      UidsAppend(s.queues.At(BandOf(score.value)), Token(uid, score.value));
      if score.value < 2000 {
        normal.Push(uid);
      } else if score.value < 3000 {
        high.Push(uid);
      } else {
        super.Push(uid);
      }
      ok := true;
    }

    lemma SameShows(s: State, t: State)
      requires Shows(s) && t.queues == s.queues && t.workers == s.workers
      ensures Shows(t)
    {
    }

    /** The worker of b is elsewhere, but was and is awake. */
    lemma WakefulShows(s: State, t: State, b: Band)
      requires Shows(s) && t.queues == s.queues && t.workers == s.workers.With(b, t.workers.At(b))
      requires !s.workers.At(b).Asleep? && !t.workers.At(b).Asleep?
      ensures Shows(t)
    {
    }

    /** For the network thread, what Add has done are its two steps. */
    lemma AddedByTheNetwork(uid: Uid, score: Option<int>, s: State)
      requires s.net == Idle && Shows(Added(s, uid, score))
      ensures Shows(Go(s, [Action.Add(uid, score), NetTick]))
    {
      AddSteps(s, uid, score);
      SameShows(Added(s, uid, score), Go(s, [Action.Add(uid, score), NetTick]));
    }

    method Del(uid: Uid, score: Option<int>, ghost s: State) returns (ok: bool)
      requires Shows(s) && s.net == Idle
      modifies normal, high, super
      ensures ok <==> score.Some?
      ensures Shows(Go(s, [Action.Del(uid, score), NetTick]))
    {
      DelSteps(s, uid, score);
      if score.None? {
        return false;
      }
      QueuesHoldUids(s.queues.At(BandOf(score.value)), uid);
      if score.value < 2000 {
        normal.Remove(uid);
      } else if score.value < 3000 {
        high.Remove(uid);
      } else {
        super.Remove(uid);
      }
      ok := true;
    }

    /** The wait: past it with two entries, or asleep. */
    method Block(b: Band, ghost s: State) returns (through: bool)
      requires Shows(s) && s.workers.At(b) == Enter
      modifies QueueOf(b)
      ensures through <==> |s.queues.At(b)| >= 2
      ensures Shows(Work(s, b, None, false, false))
    {
      UidsHead(s.queues.At(b));
      Heading(s, b);
      through := QueueOf(b).Wait();
    }

    /** The size test: into the loop body with two entries, else into the wait. */
    method SizeTest(b: Band, ghost s: State) returns (ready: bool)
      requires Shows(s) && s.workers.At(b) == Check
      ensures ready <==> |s.queues.At(b)| >= 2
      ensures Shows(Work(s, b, None, false, false))
    {
      UidsHead(s.queues.At(b));
      Heading(s, b);
      var size := QueueOf(b).Size();
      ready := size >= 2;
    }

    /** The head of the loop: go on with two entries, or sleep. */
    method Await(b: Band, ghost s: State) returns (ready: bool, ghost acts: seq<Action>)
      requires Shows(s) && s.workers.At(b) == Check
      modifies QueueOf(b)
      ensures TicksOf(acts, b) && Shows(Go(s, acts))
      ensures ready <==> |s.queues.At(b)| >= 2
      ensures Go(s, acts).workers.At(b) == if ready then PopFirst else Asleep
    {
      Heading(s, b);
      OneMoreTick(s, [], Plain(b), b);
      acts := [] + [Plain(b)];
      ready := SizeTest(b, s);
      if !ready {
        Heading(Go(s, acts), b);
        ready := Block(b, Go(s, acts));
        OneMoreTick(s, acts, Plain(b), b);
        acts := acts + [Plain(b)];
      }
    }

    /** In the loop body, some steps after s: put a player back, if his score can be read. */
    method AddBack(b: Band, uid: Uid, score: Option<int>, ghost rest: seq<Uid>, ghost s: State, ghost done: seq<Action>)
      returns (ghost acts: seq<Action>)
      requires TicksOf(done, b) && Shows(Go(s, done)) && Go(s, done).workers.At(b) == Look([uid] + rest)
      modifies normal, high, super
      ensures TicksOf(acts, b) && Shows(Go(s, acts)) && Go(s, acts).workers.At(b) == Look(rest)
      ensures TallyOf(Go(s, acts)) == TallyOf(Go(s, done)).Requeue(uid, score)
    {
      ghost var t := Go(s, done);
      acts := done + PutBackSteps(b, score);
      PutBackLater(s, done, b, uid, score, rest, t);
      var ok := Add(uid, score, Moved(t, b, Look(rest)));
      SameShows(Added(Moved(t, b, Look(rest)), uid, score), Go(s, acts));
    }

    /** Put the last player back and go to the head of the loop. */
    method BackToCheck(b: Band, uid: Uid, score: Option<int>, ghost s: State, ghost done: seq<Action>)
      returns (ghost acts: seq<Action>)
      requires TicksOf(done, b) && Shows(Go(s, done)) && Go(s, done).workers.At(b) == Look([uid])
      modifies normal, high, super
      ensures TicksOf(acts, b) && Shows(Go(s, acts)) && Go(s, acts).workers.At(b) == Check
      ensures TallyOf(Go(s, acts)) == TallyOf(Go(s, done)).Requeue(uid, score)
    {
      assert [uid] + [] == [uid];
      acts := AddBack(b, uid, score, [], s, done);
      OneMoreTick(s, acts, Plain(b), b);
      acts := acts + [Plain(b)];
    }

    /** One step of the worker that takes a player from its queue, if there is one. */
    method PopOne(b: Band, ghost s: State, ghost done: seq<Action>)
      returns (ok: bool, uid: Uid, ghost acts: seq<Action>)
      requires TicksOf(done, b) && Shows(Go(s, done))
      requires Go(s, done).workers.At(b).PopFirst? || Go(s, done).workers.At(b).PopSecond?
      modifies QueueOf(b)
      ensures TicksOf(acts, b) && Shows(Go(s, acts))
      ensures var t, u := Go(s, done), Go(s, acts);
              var q := t.queues.At(b);
              && (ok <==> q != []) && (ok ==> uid == q[0].uid)
              && TallyOf(u) == TallyOf(t).(queues := t.queues.With(b, if ok then q[1..] else []))
              && u.workers.At(b) ==
                   if t.workers.At(b).PopFirst? then (if ok then PopSecond(q[0]) else Check)
                   else if ok then FindFirst(t.workers.At(b).one, q[0]) else Look([t.workers.At(b).one.uid])
    {
      ghost var t := Go(s, done);
      PoppingLater(s, done, b, t);
      acts := done + [Plain(b)];
      UidsHead(t.queues.At(b));
      ok, uid := QueueOf(b).Pop(NOBODY);
    }

    /** Out of the queue: two players, or one who is put back, or nobody. */
    method PopTwo(b: Band, score: Option<int>, ghost s: State)
      returns (ok: bool, uid1: Uid, uid2: Uid, ghost acts: seq<Action>)
      requires Shows(s) && s.workers.At(b) == PopFirst
      modifies normal, high, super
      ensures TicksOf(acts, b) && Shows(Go(s, acts))
      ensures TallyOf(Go(s, acts)) == TallyOf(s).Pop(b, score)
      ensures var q := s.queues.At(b);
              && (ok <==> |q| >= 2) && (ok ==> uid1 == q[0].uid && uid2 == q[1].uid)
              && Go(s, acts).workers.At(b) == if ok then FindFirst(q[0], q[1]) else Check
    {
      PopTwice(TallyOf(s), b, score);
      uid2 := NOBODY;
      ok, uid1, acts := PopOne(b, s, []);
      if !ok {
        return;
      }
      ok, uid2, acts := PopOne(b, s, acts);
      if !ok {
        acts := BackToCheck(b, uid1, score, s, acts);
      }
    }

    /** A lookup and its answer leave the queue objects alone. */
    lemma LookedUp(b: Band, online: bool, s: State, done: seq<Action>) returns (acts: seq<Action>)
      requires TicksOf(done, b) && Shows(Go(s, done))
      requires Go(s, done).workers.At(b).FindFirst? || Go(s, done).workers.At(b).FindSecond?
      ensures TicksOf(acts, b) && Shows(Go(s, acts))
      ensures var pc, t, u := Go(s, done).workers.At(b), Go(s, done), Go(s, acts);
              && u.workers.At(b) ==
                   (if online then (if pc.FindFirst? then FindSecond(pc.one, pc.two) else Open(pc.one, pc.two))
                    else Look([if pc.FindFirst? then pc.two.uid else pc.one.uid]))
              && TallyOf(u) ==
                   (if online then TallyOf(t)
                    else TallyOf(t).(dropped := t.dropped + multiset{if pc.FindFirst? then pc.one.uid else pc.two.uid}))
    {
      acts := done + [Tick(b, None, online, false)];
      LookingLater(s, done, b, online, Go(s, done));
      WakefulShows(Go(s, done), Go(s, acts), b);
    }

    /** Look up both players; when one is offline, put the other back. */
    method LookUp(b: Band, uid1: Uid, uid2: Uid, online1: bool, online2: bool,
                  score1: Option<int>, score2: Option<int>, ghost s: State)
      returns (both: bool, ghost acts: seq<Action>)
      requires Shows(s) && Holding(s, b, uid1, uid2)
      modifies normal, high, super
      ensures TicksOf(acts, b) && Shows(Go(s, acts))
      ensures TallyOf(Go(s, acts)) == TallyOf(s).LookUp(uid1, uid2, online1, online2, score1, score2)
      ensures both <==> online1 && online2
      ensures Go(s, acts).workers.At(b) == if both then Open(s.workers.At(b).one, s.workers.At(b).two) else Check
    {
      both := online1 && online2;
      acts := LookedUp(b, online1, s, []);
      if !online1 {
        acts := BackToCheck(b, uid2, score2, s, acts);
        return;
      }
      acts := LookedUp(b, online2, s, acts);
      if !online2 {
        acts := BackToCheck(b, uid1, score1, s, acts);
      }
    }

    lemma Opened(b: Band, created: bool, s: State)
      requires Shows(s) && s.workers.At(b).Open?
      ensures var t, pc := Go(s, [Tick(b, None, false, created)]), s.workers.At(b);
              && Shows(t)
              && t.workers.At(b) == (if created then Check else Look([pc.one.uid, pc.two.uid]))
              && TallyOf(t) ==
                   TallyOf(s).(matched := if created then s.matched + [Pair(pc.one, pc.two)] else s.matched)
    {
      OpeningLater(s, b, created);
      WakefulShows(s, Go(s, [Tick(b, None, false, created)]), b);
    }

    /** A room for the two players; when none is created, put both back, the first one first. */
    method OpenRoom(b: Band, uid1: Uid, uid2: Uid, created: bool, score1: Option<int>, score2: Option<int>,
                    ghost s: State)
      returns (ghost acts: seq<Action>)
      requires Shows(s) && s.workers.At(b).Open? && s.workers.At(b).one.uid == uid1 && s.workers.At(b).two.uid == uid2
      modifies normal, high, super
      ensures TicksOf(acts, b) && Shows(Go(s, acts)) && Go(s, acts).workers.At(b) == Check
      ensures TallyOf(Go(s, acts)) ==
                TallyOf(s).Open(s.workers.At(b).one, s.workers.At(b).two, created, score1, score2)
    {
      Opened(b, created, s);
      acts := [Tick(b, None, false, created)];
      if !created {
        assert [uid1] + [uid2] == [uid1, uid2];
        acts := AddBack(b, uid1, score1, [uid2], s, acts);
        acts := BackToCheck(b, uid2, score2, s, acts);
      }
    }

    /** The loop body from the lookups on. */
    method PairUp(b: Band, uid1: Uid, uid2: Uid, online1: bool, online2: bool, created: bool,
                  score1: Option<int>, score2: Option<int>, ghost s: State)
      returns (success: bool, ghost acts: seq<Action>)
      requires Shows(s) && Holding(s, b, uid1, uid2)
      modifies normal, high, super
      ensures TicksOf(acts, b) && Shows(Go(s, acts)) && Go(s, acts).workers.At(b) == Check
      ensures success <==> online1 && online2 && created
      ensures var pc := s.workers.At(b);
              TallyOf(Go(s, acts)) == TallyOf(s).PairUp(pc.one, pc.two, online1, online2, created, score1, score2)
    {
      var both;
      ghost var more;
      both, acts := LookUp(b, uid1, uid2, online1, online2, score1, score2, s);
      success := both && created;
      if both {
        more := OpenRoom(b, uid1, uid2, created, score1, score2, Go(s, acts));
        GoThrough(s, acts, more);
        acts := acts + more;
      }
    }

    /** The loop body after the wait: the first two players of the queue are matched when both
        are found online and a room is created; else those who are not dropped are put back. */
    method MatchTwo(b: Band, online1: bool, online2: bool, created: bool,
                    score1: Option<int>, score2: Option<int>, ghost s: State)
      returns (pair: Option<(Uid, Uid)>, ghost acts: seq<Action>)
      requires Shows(s) && s.workers.At(b) == PopFirst
      modifies normal, high, super
      ensures TicksOf(acts, b) && Shows(Go(s, acts)) && Go(s, acts).workers.At(b) == Check
      ensures TallyOf(Go(s, acts)) == TallyOf(s).Pass(b, online1, online2, created, score1, score2)
      ensures var q := s.queues.At(b);
              pair == if |q| >= 2 && online1 && online2 && created then Some((q[0].uid, q[1].uid)) else None
    {
      pair := None;
      var ok, uid1, uid2;
      ok, uid1, uid2, acts := PopTwo(b, score1, s);
      if !ok {
        return;
      }
      ghost var more := [];
      ok, more := PairUp(b, uid1, uid2, online1, online2, created, score1, score2, Go(s, acts));
      GoThrough(s, acts, more);
      acts := acts + more;
      if ok {
        pair := Some((uid1, uid2));
      }
    }
  }
}
