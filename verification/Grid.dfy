/** A board kept as a two-dimensional array, and the snapshot that carries it to a
    spectator. */
module Grid {
  import opened Board

  datatype Cell = Empty | Stone(color: Color)

  ghost predicate IsGrid(cells: array2<Cell>) {
    cells.Length0 == SIZE && cells.Length1 == SIZE
  }

  /** The positions of the board before (row, col) in row-major order. */
  ghost function Before(row: int, col: int): set<Pos> {
    set r, c | 0 <= r < SIZE && 0 <= c < SIZE && (r < row || (r == row && c < col)) :: Pos(r, c)
  }

  ghost function StonesBefore(cells: array2<Cell>, row: int, col: int): (b: Stones)
    requires IsGrid(cells)
    reads cells
  {
    map p | p in Before(row, col) && cells[p.row, p.col].Stone? :: cells[p.row, p.col].color
  }

  /** The stones that the array holds. */
  ghost function StonesIn(cells: array2<Cell>): (b: Stones)
    requires IsGrid(cells)
    reads cells
    ensures Proper(b)
    ensures forall p: Pos | p.OnBoard() ::
              cells[p.row, p.col] == if p in b then Stone(b[p]) else Empty
  {
    assert forall p: Pos | p.OnBoard() :: p == Pos(p.row, p.col) && p in Before(SIZE, 0);
    StonesBefore(cells, SIZE, 0)
  }

  /** The cell is on the board and holds a stone of this colour. */
  predicate Holds(cells: array2<Cell>, row: int, col: int, color: Color)
    requires IsGrid(cells)
    reads cells
    ensures Holds(cells, row, col, color) <==> At(StonesIn(cells), Pos(row, col), color)
    ensures Holds(cells, row, col, color) ==> Pos(row, col).OnBoard()
  {
    0 <= row < SIZE && 0 <= col < SIZE && cells[row, col] == Stone(color)
  }

  /** Two boards with the same stone, or none, in every position. */
  lemma SameStones(a: Stones, b: Stones)
    requires Proper(a) && Proper(b)
    requires forall p: Pos | p.OnBoard() :: (p in a <==> p in b) && (p in a ==> a[p] == b[p])
    ensures a == b
  {
  }

  // ----- Snapshots -----

  datatype SnapCell = SnapCell(row: int, col: int, color: Color)

  predicate RowMajor(snap: seq<SnapCell>) {
    forall i, j | 0 <= i < j < |snap| ::
      snap[i].row < snap[j].row || (snap[i].row == snap[j].row && snap[i].col < snap[j].col)
  }

  /** The board that a snapshot describes; cells off the board are passed over. */
  function Load(snap: seq<SnapCell>): Stones {
    if snap == [] then map[]
    else
      var cell, b := snap[|snap| - 1], Load(snap[..|snap| - 1]);
      if Pos(cell.row, cell.col).OnBoard() then b[Pos(cell.row, cell.col) := cell.color] else b
  }

  method Clear(cells: array2<Cell>)
    requires IsGrid(cells)
    modifies cells
    ensures StonesIn(cells) == map[]
  {
    for r := 0 to SIZE
      invariant forall i, j | 0 <= i < r && 0 <= j < SIZE :: cells[i, j] == Empty
    {
      for c := 0 to SIZE
        invariant forall i, j | 0 <= i < r && 0 <= j < SIZE :: cells[i, j] == Empty
        invariant forall j | 0 <= j < c :: cells[r, j] == Empty
      {
        cells[r, c] := Empty;
      }
    }
    SameStones(StonesIn(cells), map[]);
  }

  method Place(cells: array2<Cell>, row: int, col: int, color: Color)
    requires IsGrid(cells) && Pos(row, col).OnBoard()
    modifies cells
    ensures StonesIn(cells) == old(StonesIn(cells))[Pos(row, col) := color]
  {
    ghost var was := StonesIn(cells);
    cells[row, col] := Stone(color);
    SameStones(StonesIn(cells), was[Pos(row, col) := color]);
  }

  /** The snapshot of the cells before (row, col), in row-major order. */
  ghost predicate Taken(cells: array2<Cell>, snap: seq<SnapCell>, row: int, col: int)
    requires IsGrid(cells)
    reads cells
  {
    && Load(snap) == StonesBefore(cells, row, col)
    && RowMajor(snap)
    && forall i | 0 <= i < |snap| ::
         Pos(snap[i].row, snap[i].col).OnBoard() && (snap[i].row < row || (snap[i].row == row && snap[i].col < col))
  }

  lemma StonesNext(cells: array2<Cell>, row: int, col: int)
    requires IsGrid(cells) && Pos(row, col).OnBoard()
    ensures var b := StonesBefore(cells, row, col);
            StonesBefore(cells, row, col + 1) ==
              match cells[row, col] case Stone(c) => b[Pos(row, col) := c] case Empty => b
  {
    assert Before(row, col + 1) == Before(row, col) + {Pos(row, col)};
  }

  lemma TakeCell(cells: array2<Cell>, snap: seq<SnapCell>, row: int, col: int)
    requires IsGrid(cells) && Pos(row, col).OnBoard() && Taken(cells, snap, row, col)
    ensures Taken(cells, match cells[row, col] case Stone(c) => snap + [SnapCell(row, col, c)] case Empty => snap,
                  row, col + 1)
  {
    StonesNext(cells, row, col);
    if cells[row, col].Stone? {
      assert (snap + [SnapCell(row, col, cells[row, col].color)])[..|snap|] == snap;
    }
  }

  lemma TakeRow(cells: array2<Cell>, snap: seq<SnapCell>, row: int)
    requires IsGrid(cells) && Taken(cells, snap, row, SIZE)
    ensures Taken(cells, snap, row + 1, 0)
  {
    assert Before(row, SIZE) == Before(row + 1, 0);
  }

  /** One cell for every stone, in row-major order, and nothing else: loading the
      snapshot gives the board back. */
  method Snapshot(cells: array2<Cell>) returns (snap: seq<SnapCell>)
    requires IsGrid(cells)
    ensures Load(snap) == StonesIn(cells)
    ensures RowMajor(snap) && forall i | 0 <= i < |snap| :: Pos(snap[i].row, snap[i].col).OnBoard()
  {
    snap := [];
    assert Before(0, 0) == {};
    for r := 0 to SIZE
      invariant Taken(cells, snap, r, 0)
    {
      for c := 0 to SIZE
        invariant Taken(cells, snap, r, c)
      {
        TakeCell(cells, snap, r, c);
        if cells[r, c].Stone? {
          snap := snap + [SnapCell(r, c, cells[r, c].color)];
        }
      }
      TakeRow(cells, snap, r);
    }
  }
}
