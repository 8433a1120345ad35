/** The 15x15 board: stones, lines of five, and the test that looks only at the
    lines through the stone just placed. */
module Board {
  const SIZE := 15

  datatype Color = White | Black {
    function Other(): Color {
      if White? then Black else White
    }
  }

  type Sign = x: int | -1 <= x <= 1

  /** One of the eight compass steps, or no step at all. */
  datatype Dir = Dir(dr: Sign, dc: Sign) {
    predicate Moves() {
      dr != 0 || dc != 0
    }

    function Back(): Dir {
      Dir(-dr, -dc)
    }
  }

  /** k copies of a sign, kept linear for the solver. */
  function Scale(k: int, s: Sign): int {
    if s == 0 then 0 else if s == 1 then k else -k
  }

  datatype Pos = Pos(row: int, col: int) {
    function Shift(k: int, d: Dir): Pos {
      Pos(row + Scale(k, d.dr), col + Scale(k, d.dc))
    }

    predicate OnBoard() {
      0 <= row < SIZE && 0 <= col < SIZE
    }
  }

  /** The stones on the board; a position without a stone is not a key. */
  type Stones = map<Pos, Color>

  predicate Proper(b: Stones) {
    forall p <- b :: p.OnBoard()
  }

  predicate At(b: Stones, p: Pos, c: Color) {
    p in b && b[p] == c
  }

  // ----- The scan of the whole board: the meaning of "five in a row" -----

  /** Five stones of colour c in direction d, the first one at p. */
  ghost predicate Line(b: Stones, p: Pos, d: Dir, c: Color) {
    forall j | 0 <= j < 5 :: At(b, p.Shift(j, d), c)
  }

  /** The same line, named by its k-th stone. */
  ghost predicate LineWith(b: Stones, p: Pos, k: int, d: Dir, c: Color) {
    Line(b, p.Shift(-k, d), d, c)
  }

  ghost predicate HasFive(b: Stones) {
    exists p: Pos, d: Dir, c: Color :: d.Moves() && Line(b, p, d, c)
  }

  // ----- The local test: two walks away from the stone, in four directions -----

  /** How many steps in direction d are left on the board from p. */
  function Runway(p: Pos, d: Dir): nat
    requires p.OnBoard() && d.Moves()
  {
    if d.dr == 1 then SIZE - p.row
    else if d.dr == -1 then p.row + 1
    else if d.dc == 1 then SIZE - p.col
    else p.col + 1
  }

  /** The number of consecutive stones of colour c that a walk from p finds. */
  function Walk(b: Stones, p: Pos, d: Dir, c: Color): nat
    requires d.Moves()
    decreases if p.OnBoard() then Runway(p, d) else 0
  {
    if p.OnBoard() && At(b, p, c) then 1 + Walk(b, p.Shift(1, d), d, c) else 0
  }

  predicate FiveThrough(b: Stones, p: Pos, d: Dir, c: Color)
    requires d.Moves()
  {
    1 + Walk(b, p.Shift(1, d), d, c) + Walk(b, p.Shift(-1, d), d.Back(), c) >= 5
  }

  const RIGHT := Dir(0, 1)
  const DOWN := Dir(1, 0)
  const UP_RIGHT := Dir(-1, 1)
  const UP_LEFT := Dir(-1, -1)
  const SCANNED: set<Dir> := {RIGHT, DOWN, UP_RIGHT, UP_LEFT}

  /** The stone at p is in a line of five along one of the four directions. */
  ghost predicate WinsAt(b: Stones, p: Pos, c: Color) {
    exists d: Dir, k: int :: d in SCANNED && 0 <= k < 5 && LineWith(b, p, k, d, c)
  }

  /** Every cell a walk counts holds a stone of its colour. */
  lemma {:induction false} WalkIsFilled(b: Stones, p: Pos, d: Dir, c: Color, j: nat)
    requires d.Moves() && j < Walk(b, p, d, c)
    ensures At(b, p.Shift(j, d), c)
    decreases j
  {
    if j > 0 {
      WalkIsFilled(b, p.Shift(1, d), d, c, j - 1);
      assert p.Shift(1, d).Shift(j - 1, d) == p.Shift(j, d);
    } else {
      assert p.Shift(0, d) == p;
    }
  }

  /** A walk does not stop before the stones of its colour do. */
  lemma {:induction false} WalkIsLongest(b: Stones, p: Pos, d: Dir, c: Color, n: nat)
    requires d.Moves() && Proper(b)
    requires forall j | 0 <= j < n :: At(b, p.Shift(j, d), c)
    ensures n <= Walk(b, p, d, c)
    decreases n
  {
    if n == 0 {
    } else {
      assert p.Shift(0, d) == p;
      forall j | 0 <= j < n - 1 ensures At(b, p.Shift(1, d).Shift(j, d), c) {
        assert p.Shift(1, d).Shift(j, d) == p.Shift(j + 1, d);
      }
      WalkIsLongest(b, p.Shift(1, d), d, c, n - 1);
    }
  }

  /** Steps k walked from p along d, all over stones of colour c. */
  ghost predicate Walked(b: Stones, p: Pos, d: Dir, c: Color, k: nat) {
    forall j | 1 <= j <= k :: At(b, p.Shift(j, d), c)
  }

  /** One step further along a walk. */
  lemma WalkOn(b: Stones, p: Pos, d: Dir, c: Color, k: nat)
    requires d.Moves() && Walked(b, p, d, c, k) && At(b, p.Shift(1 + k, d), c)
    ensures Walked(b, p, d, c, k + 1)
  {
  }

  lemma StepIsCloserToTheEdge(p: Pos, d: Dir, k: int)
    requires d.Moves() && p.Shift(k, d).OnBoard()
    ensures var q, r := p.Shift(k, d), p.Shift(k + 1, d);
            r == Pos(q.row + d.dr, q.col + d.dc) && (r.OnBoard() ==> Runway(r, d) < Runway(q, d)) && Runway(q, d) > 0
  {
  }

  /** A walk that counted k stones and stopped at something else. */
  lemma StoppedWalk(b: Stones, p: Pos, d: Dir, c: Color, k: nat)
    requires d.Moves() && Proper(b) && Walked(b, p, d, c, k) && !At(b, p.Shift(1 + k, d), c)
    ensures Walk(b, p.Shift(1, d), d, c) == k
  {
    var q := p.Shift(1, d);
    forall j | 0 <= j < k ensures At(b, q.Shift(j, d), c) {
      assert q.Shift(j, d) == p.Shift(1 + j, d);
    }
    WalkIsLongest(b, q, d, c, k);
    assert q.Shift(k, d) == p.Shift(1 + k, d);
    if k < Walk(b, q, d, c) {
      WalkIsFilled(b, q, d, c, k);
      assert false;
    }
  }

  lemma StoppedWalks(b: Stones, p: Pos, d: Dir, c: Color, k: nat, m: nat)
    requires d.Moves() && Proper(b)
    requires Walked(b, p, d, c, k) && !At(b, p.Shift(1 + k, d), c)
    requires Walked(b, p, d.Back(), c, m) && !At(b, p.Shift(1 + m, d.Back()), c)
    ensures FiveThrough(b, p, d, c) <==> 1 + k + m >= 5
  {
    StoppedWalk(b, p, d, c, k);
    StoppedWalk(b, p, d.Back(), c, m);
    assert p.Shift(-1, d) == p.Shift(1, d.Back());
  }

  lemma FiveThroughGivesLine(b: Stones, p: Pos, d: Dir, c: Color) returns (k: int)
    requires d.Moves() && At(b, p, c) && FiveThrough(b, p, d, c)
    ensures 0 <= k < 5 && LineWith(b, p, k, d, c)
  {
    var behind := Walk(b, p.Shift(-1, d), d.Back(), c);
    k := if behind < 4 then behind else 4;
    var first := p.Shift(-k, d);
    forall j: int | 0 <= j < 5 ensures At(b, first.Shift(j, d), c) {
      assert first.Shift(j, d) == p.Shift(j - k, d);
      if j > k {
        WalkIsFilled(b, p.Shift(1, d), d, c, j - k - 1);
        assert p.Shift(1, d).Shift(j - k - 1, d) == p.Shift(j - k, d);
      } else if j < k {
        WalkIsFilled(b, p.Shift(-1, d), d.Back(), c, k - j - 1);
        assert p.Shift(-1, d).Shift(k - j - 1, d.Back()) == p.Shift(j - k, d);
      } else {
        assert p.Shift(0, d) == p;
      }
    }
  }

  lemma LineGivesFiveThrough(b: Stones, p: Pos, d: Dir, c: Color, k: int)
    requires d.Moves() && Proper(b) && 0 <= k < 5 && LineWith(b, p, k, d, c)
    ensures FiveThrough(b, p, d, c)
  {
    forall j | 0 <= j < 4 - k ensures At(b, p.Shift(1, d).Shift(j, d), c) {
      assert p.Shift(1, d).Shift(j, d) == p.Shift(-k, d).Shift(j + 1 + k, d);
    }
    WalkIsLongest(b, p.Shift(1, d), d, c, 4 - k);
    forall j | 0 <= j < k ensures At(b, p.Shift(-1, d).Shift(j, d.Back()), c) {
      assert p.Shift(-1, d).Shift(j, d.Back()) == p.Shift(-k, d).Shift(k - 1 - j, d);
    }
    WalkIsLongest(b, p.Shift(-1, d), d.Back(), c, k);
  }

  /** The stone is in a line of five in this direction. */
  ghost predicate WinsAlong(b: Stones, p: Pos, d: Dir, c: Color) {
    exists k | 0 <= k < 5 :: LineWith(b, p, k, d, c)
  }

  /** For a stone that is on the board, counting both ways finds at least five
      exactly when some line of five in that direction passes through it. */
  lemma FiveThroughIsALine(b: Stones, p: Pos, d: Dir, c: Color)
    requires d.Moves() && Proper(b) && At(b, p, c)
    ensures FiveThrough(b, p, d, c) <==> WinsAlong(b, p, d, c)
  {
    if FiveThrough(b, p, d, c) {
      var k := FiveThroughGivesLine(b, p, d, c);
    }
    if k :| 0 <= k < 5 && LineWith(b, p, k, d, c) {
      LineGivesFiveThrough(b, p, d, c, k);
    }
  }

  lemma FourDirections(b: Stones, p: Pos, c: Color)
    ensures WinsAt(b, p, c) <==>
              WinsAlong(b, p, RIGHT, c) || WinsAlong(b, p, DOWN, c)
              || WinsAlong(b, p, UP_RIGHT, c) || WinsAlong(b, p, UP_LEFT, c)
  {
    if d: Dir, k: int :| d in SCANNED && 0 <= k < 5 && LineWith(b, p, k, d, c) {
      assert WinsAlong(b, p, d, c);
    }
  }

  /** Four walks decide whether the stone is in a line of five. */
  lemma FourWalks(b: Stones, p: Pos, c: Color)
    requires Proper(b) && At(b, p, c)
    ensures WinsAt(b, p, c) <==>
              FiveThrough(b, p, RIGHT, c) || FiveThrough(b, p, DOWN, c)
              || FiveThrough(b, p, UP_RIGHT, c) || FiveThrough(b, p, UP_LEFT, c)
  {
    FourDirections(b, p, c);
    FiveThroughIsALine(b, p, RIGHT, c);
    FiveThroughIsALine(b, p, DOWN, c);
    FiveThroughIsALine(b, p, UP_RIGHT, c);
    FiveThroughIsALine(b, p, UP_LEFT, c);
  }

  /** A line read from its other end. */
  lemma LineReversed(b: Stones, p: Pos, d: Dir, c: Color)
    requires Line(b, p, d, c)
    ensures Line(b, p.Shift(4, d), d.Back(), c)
  {
    forall j | 0 <= j < 5 ensures At(b, p.Shift(4, d).Shift(j, d.Back()), c) {
      assert p.Shift(4, d).Shift(j, d.Back()) == p.Shift(4 - j, d);
    }
  }

  lemma EveryLineIsScannedOneWay(d: Dir)
    requires d.Moves()
    ensures d in SCANNED || d.Back() in SCANNED
  {
  }

  /** Any line through p is a line in one of the four directions of the test. */
  lemma LineHasAScannedDirection(b: Stones, p: Pos, k: int, d: Dir, c: Color) returns (d': Dir, k': int)
    requires d.Moves() && LineWith(b, p, k, d, c) && 0 <= k < 5
    ensures d' in SCANNED && LineWith(b, p, k', d', c) && 0 <= k' < 5
  {
    EveryLineIsScannedOneWay(d);
    d', k' := d, k;
    if d !in SCANNED {
      d', k' := d.Back(), 4 - k;
      LineReversed(b, p.Shift(-k, d), d, c);
      assert p.Shift(-k', d') == p.Shift(-k, d).Shift(4, d);
    }
  }

  /** A line through p in any of the eight directions is one of the four-way test. */
  lemma LineThroughIsFound(b: Stones, p: Pos, k: int, d: Dir, c: Color)
    requires d.Moves() && LineWith(b, p, k, d, c) && 0 <= k < 5
    ensures WinsAt(b, p, c)
  {
    var d', k' := LineHasAScannedDirection(b, p, k, d, c);
  }

  /** A line on the new board that misses the new stone was there before. */
  lemma LineUsesTheNewStone(b: Stones, p: Pos, c: Color, q: Pos, d: Dir, e: Color) returns (k: int)
    requires !HasFive(b) && d.Moves() && Line(b[p := c], q, d, e)
    ensures 0 <= k < 5 && LineWith(b[p := c], p, k, d, e)
  {
    if j :| 0 <= j < 5 && q.Shift(j, d) == p {
      k := j;
      assert p.Shift(-j, d) == q;
    } else {
      forall j | 0 <= j < 5 ensures At(b, q.Shift(j, d), e) {
        assert At(b[p := c], q.Shift(j, d), e);
      }
      assert Line(b, q, d, e);
      assert false;
    }
  }

  /** The local test refines the scan of the whole board: on a board without a line
      of five, the stone just placed wins exactly when the new board has a line of
      five of either colour, anywhere, in any direction. */
  lemma LocalTestRefinesScan(b: Stones, p: Pos, c: Color)
    requires Proper(b) && p.OnBoard() && p !in b && !HasFive(b)
    ensures WinsAt(b[p := c], p, c) <==> HasFive(b[p := c])
  {
    var b' := b[p := c];
    if HasFive(b') {
      var q: Pos, d: Dir, e: Color :| d.Moves() && Line(b', q, d, e);
      var k := LineUsesTheNewStone(b, p, c, q, d, e);
      assert p.Shift(-k, d).Shift(k, d) == p;
      LineThroughIsFound(b', p, k, d, e);
    }
  }

  // ----- How many stones fit -----

  /** The cells of the first n rows. */
  ghost function Rows(n: nat): set<Pos> {
    set r, c | 0 <= r < n && 0 <= c < SIZE :: Pos(r, c)
  }

  ghost function RowPart(r: nat, n: nat): set<Pos> {
    set c | 0 <= c < n :: Pos(r, c)
  }

  lemma {:induction false} RowPartSize(r: nat, n: nat)
    ensures |RowPart(r, n)| == n
  {
    if n == 0 {
    } else {
      RowPartSize(r, n - 1);
      assert RowPart(r, n) == RowPart(r, n - 1) + {Pos(r, n - 1)};
    }
  }

  lemma {:induction false} RowsSize(n: nat)
    ensures |Rows(n)| == n * SIZE
  {
    if n > 0 {
      RowsSize(n - 1);
      RowPartSize(n - 1, SIZE);
      assert Rows(n) == Rows(n - 1) + RowPart(n - 1, SIZE);
      assert Rows(n - 1) !! RowPart(n - 1, SIZE);
    } else {
      assert Rows(0) == {};
    }
  }

  lemma SubsetSize<T>(a: set<T>, b: set<T>)
    requires a <= b
    ensures |a| <= |b|
  {
    assert b == a + (b - a);
  }

  /** No board holds more than 225 stones. */
  lemma AtMost225(b: Stones)
    requires Proper(b)
    ensures |b| <= SIZE * SIZE
  {
    RowsSize(SIZE);
    forall p | p in b.Keys ensures p in Rows(SIZE) {
      assert p == Pos(p.row, p.col);
    }
    SubsetSize(b.Keys, Rows(SIZE));
    assert |b| == |b.Keys|;
  }
}
