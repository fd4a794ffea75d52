/**
 * The board of the connect-five game as a value: a 20 x 20 grid of cells,
 * row 0 at the top and row 19 at the bottom. A cell holds EMPTY (Python's
 * `None`) or the number of the player who owns it.
 *
 * This module holds the specification of the three board queries of app.py
 * (the gravity drop, the win check through the last move and the full-board
 * check) and the facts about them; module BoardScan runs the same queries as
 * loops over an array and is proved against these functions.
 */
module Board {
  import opened Options

  const ROWS := 20
  const COLS := 20
  /** The length of a run that wins. */
  const CONNECT := 5
  /** The contents of a cell nobody owns. */
  const EMPTY := 0

  /** The four axes scanned by the win check, each in its positive sense. */
  const DIRECTIONS: seq<(int, int)> := [(0, 1), (1, 0), (1, 1), (1, -1)]

  type Grid = seq<seq<int>>

  predicate IsGrid(g: Grid) {
    |g| == ROWS && forall r :: 0 <= r < |g| ==> |g[r]| == COLS
  }

  predicate InBounds(r: int, c: int) {
    0 <= r < ROWS && 0 <= c < COLS
  }

  /** Every cell is empty or owned by player 1 or player 2. */
  ghost predicate CellsValid(g: Grid)
    requires IsGrid(g)
  {
    forall r, c :: InBounds(r, c) ==> g[r][c] in {EMPTY, 1, 2}
  }

  /** No floating pieces: the cell below an occupied cell is occupied. */
  predicate Gravity(g: Grid)
    requires IsGrid(g)
  {
    forall r, c {:trigger g[r][c]} :: 0 <= r < ROWS - 1 && 0 <= c < COLS && g[r][c] != EMPTY ==> g[r + 1][c] != EMPTY
  }

  ghost predicate AllOccupied(g: Grid)
    requires IsGrid(g)
  {
    forall r, c :: InBounds(r, c) ==> g[r][c] != EMPTY
  }

  function EmptyGrid(): (g: Grid)
    ensures IsGrid(g)
    ensures forall r, c :: InBounds(r, c) ==> g[r][c] == EMPTY
  {
    seq(ROWS, _ => seq(COLS, _ => EMPTY))
  }

  /** The grid with the one cell (r, c) set to p. */
  function Place(g: Grid, r: int, c: int, p: int): (h: Grid)
    requires IsGrid(g) && InBounds(r, c)
    ensures IsGrid(h)
  {
    g[r := g[r][c := p]]
  }

  // ---------------------------------------------------------------------
  // Gravity drop
  // ---------------------------------------------------------------------

  /**
   * Scans column `col` from row `row` up to row 0 and yields the first empty
   * row met, that is the largest empty row at or above `row`.
   */
  function DropRowFrom(g: Grid, col: int, row: int): (r: Option<int>)
    requires IsGrid(g) && 0 <= col < COLS && -1 <= row < ROWS
    ensures r.Some? ==> 0 <= r.value <= row && g[r.value][col] == EMPTY
    ensures r.Some? ==> forall k :: r.value < k <= row ==> g[k][col] != EMPTY
    ensures r.None? <==> forall k :: 0 <= k <= row ==> g[k][col] != EMPTY
    decreases row + 1
  {
    if row < 0 then None
    else if g[row][col] == EMPTY then Some(row)
    else DropRowFrom(g, col, row - 1)
  }

  /** Where a piece dropped into column `col` lands, or None if the column is full. */
  function DropRow(g: Grid, col: int): (r: Option<int>)
    requires IsGrid(g) && 0 <= col < COLS
    ensures r.Some? ==> 0 <= r.value < ROWS && g[r.value][col] == EMPTY
    ensures r.Some? ==> forall k :: r.value < k < ROWS ==> g[k][col] != EMPTY
    ensures r.None? <==> forall k :: 0 <= k < ROWS ==> g[k][col] != EMPTY
  {
    DropRowFrom(g, col, ROWS - 1)
  }

  // ---------------------------------------------------------------------
  // Win check
  // ---------------------------------------------------------------------

  /** A unit step along one of the eight compass directions. */
  predicate IsDirection(dr: int, dc: int) {
    -1 <= dr <= 1 && -1 <= dc <= 1 && (dr != 0 || dc != 0)
  }

  /** The coordinate x moved k unit steps in sense d (see WalkMoves). */
  function Walk(x: int, d: int, k: nat): int
    decreases k
  {
    if k == 0 then x else Walk(x + d, d, k - 1)
  }

  /** k unit steps in sense d move x by k * d. */
  lemma {:induction false} WalkMoves(x: int, d: int, k: nat)
    requires -1 <= d <= 1
    ensures Walk(x, d, k) == if d == 0 then x else if d == 1 then x + k else x - k
    decreases k
  {
    if k > 0 {
      WalkMoves(x + d, d, k - 1);
    }
  }

  /** The cell (r, c) is on the board and owned by p. */
  predicate OwnedBy(g: Grid, r: int, c: int, p: int)
    requires IsGrid(g)
  {
    InBounds(r, c) && g[r][c] == p
  }

  /** The number of steps left before (r, c) leaves the board in direction (dr, dc). */
  function Span(r: int, c: int, dr: int, dc: int): nat {
    if dr == 1 then (if r < ROWS then ROWS - r else 0)
    else if dr == -1 then (if r >= 0 then r + 1 else 0)
    else if dc == 1 then (if c < COLS then COLS - c else 0)
    else if c >= 0 then c + 1 else 0
  }

  /**
   * The length of the run of cells owned by p that starts at (r, c) and goes
   * in direction (dr, dc); the scan stops at the edge of the board or at the
   * first cell p does not own (see RunIsMaximal).
   */
  function RunFrom(g: Grid, r: int, c: int, dr: int, dc: int, p: int): nat
    requires IsGrid(g) && IsDirection(dr, dc)
    decreases Span(r, c, dr, dc)
  {
    if OwnedBy(g, r, c, p) then 1 + RunFrom(g, r + dr, c + dc, dr, dc, p) else 0
  }

  /**
   * RunFrom counts exactly the cells p owns from (r, c) on: the first n
   * cells along the direction are p's, and the next one is off the board or
   * not p's.
   */
  lemma {:induction false} RunIsMaximal(g: Grid, r: int, c: int, dr: int, dc: int, p: int)
    requires IsGrid(g) && IsDirection(dr, dc)
    ensures var n := RunFrom(g, r, c, dr, dc, p);
      && (forall k :: 0 <= k < n ==> OwnedBy(g, Walk(r, dr, k), Walk(c, dc, k), p))
      && !OwnedBy(g, Walk(r, dr, n), Walk(c, dc, n), p)
    decreases Span(r, c, dr, dc)
  {
    if OwnedBy(g, r, c, p) {
      RunIsMaximal(g, r + dr, c + dc, dr, dc, p);
      var n := RunFrom(g, r, c, dr, dc, p);
      forall k | 0 <= k < n
        ensures OwnedBy(g, Walk(r, dr, k), Walk(c, dc, k), p)
      {
        if k > 0 {
          assert Walk(r, dr, k) == Walk(r + dr, dr, k - 1);
        }
      }
    }
  }

  /**
   * The length of the line through (row, col) along axis (dr, dc): the cell
   * itself counts as 1, plus the run on each side of it.
   */
  function AxisCount(g: Grid, row: int, col: int, dr: int, dc: int, p: int): nat
    requires IsGrid(g) && IsDirection(dr, dc)
  {
    1 + RunFrom(g, row + dr, col + dc, dr, dc, p) + RunFrom(g, row - dr, col - dc, -dr, -dc, p)
  }

  lemma DirectionsAreDirections()
    ensures forall i :: 0 <= i < |DIRECTIONS| ==> IsDirection(DIRECTIONS[i].0, DIRECTIONS[i].1)
  {
  }

  /** Some axis through (row, col) carries a line of at least CONNECT cells of p. */
  predicate IsWinningMove(g: Grid, row: int, col: int, p: int)
    requires IsGrid(g)
  {
    DirectionsAreDirections();
    exists i :: 0 <= i < |DIRECTIONS| &&
      AxisCount(g, row, col, DIRECTIONS[i].0, DIRECTIONS[i].1, p) >= CONNECT
  }

  // ---------------------------------------------------------------------
  // Full board
  // ---------------------------------------------------------------------

  /** What the full-board check looks at: every cell of the top row is occupied. */
  predicate TopRowFull(g: Grid)
    requires IsGrid(g)
  {
    forall c :: 0 <= c < COLS ==> g[0][c] != EMPTY
  }

  // ---------------------------------------------------------------------
  // Facts about the queries
  // ---------------------------------------------------------------------

  /** Under gravity, an occupied cell has only occupied cells beneath it. */
  lemma {:induction false} OccupiedBelow(g: Grid, r: int, c: int, s: int)
    requires IsGrid(g) && Gravity(g)
    requires 0 <= r <= s < ROWS && 0 <= c < COLS && g[r][c] != EMPTY
    ensures g[s][c] != EMPTY
    decreases s - r
  {
    if r < s {
      OccupiedBelow(g, r + 1, c, s);
    }
  }

  /**
   * The full-board check only looks at the top row; under gravity that is
   * the same as every cell being occupied.
   */
  lemma TopRowFullIffAllOccupied(g: Grid)
    requires IsGrid(g) && Gravity(g)
    ensures TopRowFull(g) <==> AllOccupied(g)
  {
    if TopRowFull(g) {
      forall r, c | InBounds(r, c)
        ensures g[r][c] != EMPTY
      {
        OccupiedBelow(g, 0, c, r);
      }
    }
  }

  /**
   * Under gravity the landing cell sits on the pieces already in the column:
   * every cell above it is empty and every cell below it is occupied.
   */
  lemma DropRowOnTopOfColumn(g: Grid, col: int)
    requires IsGrid(g) && Gravity(g) && 0 <= col < COLS
    requires DropRow(g, col).Some?
    ensures forall k :: 0 <= k <= DropRow(g, col).value ==> g[k][col] == EMPTY
    ensures forall k :: DropRow(g, col).value < k < ROWS ==> g[k][col] != EMPTY
  {
    var row := DropRow(g, col).value;
    forall k | 0 <= k <= row
      ensures g[k][col] == EMPTY
    {
      if g[k][col] != EMPTY {
        OccupiedBelow(g, k, col, row);
      }
    }
  }

  /**
   * Placing a piece where the gravity drop lands keeps gravity and keeps
   * every cell in {EMPTY, 1, 2}; the landing cell was empty and is the only
   * cell that changes.
   */
  lemma PlaceAtDropRow(g: Grid, col: int, p: int)
    requires IsGrid(g) && Gravity(g) && CellsValid(g) && 0 <= col < COLS
    requires DropRow(g, col).Some? && (p == 1 || p == 2)
    ensures var row := DropRow(g, col).value;
      var h := Place(g, row, col, p);
      && g[row][col] == EMPTY && h[row][col] == p
      && (forall r, c :: InBounds(r, c) && (r, c) != (row, col) ==> h[r][c] == g[r][c])
      && Gravity(h) && CellsValid(h)
  {
    var row := DropRow(g, col).value;
    var h := Place(g, row, col, p);
    forall r, c {:trigger h[r][c]} | 0 <= r < ROWS - 1 && 0 <= c < COLS && h[r][c] != EMPTY
      ensures h[r + 1][c] != EMPTY
    {
      if c == col && r + 1 == row {
        assert h[r + 1][c] == p;
      } else if c == col && r == row {
        assert h[r + 1][c] == g[r + 1][c];
      } else {
        assert h[r][c] == g[r][c] && h[r + 1][c] == g[r + 1][c];
      }
    }
  }

  /** p owns the cells lo..hi steps away from (r, c) in direction (dr, dc). */
  ghost predicate RunOwned(g: Grid, r: int, c: int, dr: int, dc: int, p: int, lo: nat, hi: int)
    requires IsGrid(g)
  {
    forall k :: lo <= k <= hi ==> OwnedBy(g, Walk(r, dr, k), Walk(c, dc, k), p)
  }

  /** If p owns the n cells after (r, c), the run that starts next to (r, c) is at least n long. */
  lemma RunAfter(g: Grid, r: int, c: int, dr: int, dc: int, p: int, n: nat)
    requires IsGrid(g) && IsDirection(dr, dc) && RunOwned(g, r, c, dr, dc, p, 1, n)
    ensures RunFrom(g, r + dr, c + dc, dr, dc, p) >= n
  {
    var r1, c1 := r + dr, c + dc;
    RunIsMaximal(g, r1, c1, dr, dc, p);
    var m := RunFrom(g, r1, c1, dr, dc, p);
    assert Walk(r1, dr, m) == Walk(r, dr, m + 1) && Walk(c1, dc, m) == Walk(c, dc, m + 1);
    assert !OwnedBy(g, Walk(r, dr, m + 1), Walk(c, dc, m + 1), p);
  }

  /**
   * A line of at least CONNECT cells of p through (row, col) along one of the
   * four axes (the cell itself, `after` cells on its positive side and
   * `before` cells on its negative side) is a winning move, wherever the line
   * meets the edge of the board.
   */
  lemma LineWins(g: Grid, row: int, col: int, p: int, i: int, before: nat, after: nat)
    requires IsGrid(g) && 0 <= i < |DIRECTIONS|
    requires RunOwned(g, row, col, DIRECTIONS[i].0, DIRECTIONS[i].1, p, 1, after)
    requires RunOwned(g, row, col, -DIRECTIONS[i].0, -DIRECTIONS[i].1, p, 1, before)
    requires before + after + 1 >= CONNECT
    ensures IsWinningMove(g, row, col, p)
  {
    DirectionsAreDirections();
    var dr, dc := DIRECTIONS[i].0, DIRECTIONS[i].1;
    RunAfter(g, row, col, dr, dc, p, after);
    RunAfter(g, row, col, -dr, -dc, p, before);
    assert AxisCount(g, row, col, DIRECTIONS[i].0, DIRECTIONS[i].1, p) >= CONNECT;
  }
  /**
   * A line of p's pieces through (row, col) along axis i of DIRECTIONS:
   * `after` cells on the forward side, `before` on the backward side, and
   * together with (row, col) at least CONNECT of them.
   */
  ghost predicate LineThrough(g: Grid, row: int, col: int, p: int, i: int, before: nat, after: nat)
    requires IsGrid(g)
  {
    && 0 <= i < |DIRECTIONS|
    && RunOwned(g, row, col, DIRECTIONS[i].0, DIRECTIONS[i].1, p, 1, after)
    && RunOwned(g, row, col, -DIRECTIONS[i].0, -DIRECTIONS[i].1, p, 1, before)
    && before + after + 1 >= CONNECT
  }

  /** The run counted from the neighbour of (r, c) is owned by p, step by step from (r, c). */
  lemma RunFromIsOwned(g: Grid, r: int, c: int, dr: int, dc: int, p: int)
    requires IsGrid(g) && IsDirection(dr, dc)
    ensures RunOwned(g, r, c, dr, dc, p, 1, RunFrom(g, r + dr, c + dc, dr, dc, p))
  {
    var r1, c1 := r + dr, c + dc;
    RunIsMaximal(g, r1, c1, dr, dc, p);
    var n := RunFrom(g, r1, c1, dr, dc, p);
    forall k | 1 <= k <= n
      ensures OwnedBy(g, Walk(r, dr, k), Walk(c, dc, k), p)
    {
      assert Walk(r, dr, k) == Walk(r1, dr, k - 1) && Walk(c, dc, k) == Walk(c1, dc, k - 1);
    }
  }

  /**
   * The converse of LineWins: a winning move has a line of at least
   * CONNECT of the player's pieces through the placed cell on one axis.
   */
  lemma WinningMoveHasLine(g: Grid, row: int, col: int, p: int)
    requires IsGrid(g) && IsWinningMove(g, row, col, p)
    ensures exists i, before: nat, after: nat :: LineThrough(g, row, col, p, i, before, after)
  {
    DirectionsAreDirections();
    var i :| 0 <= i < |DIRECTIONS| &&
      AxisCount(g, row, col, DIRECTIONS[i].0, DIRECTIONS[i].1, p) >= CONNECT;
    var dr, dc := DIRECTIONS[i].0, DIRECTIONS[i].1;
    var after := RunFrom(g, row + dr, col + dc, dr, dc, p);
    var before := RunFrom(g, row - dr, col - dc, -dr, -dc, p);
    RunFromIsOwned(g, row, col, dr, dc, p);
    RunFromIsOwned(g, row, col, -dr, -dc, p);
    assert LineThrough(g, row, col, p, i, before, after);
  }


  /**
   * Five pieces of one player in the bottom row, columns 0 to 4: the piece
   * in column 4 completes a win, although the line ends at the left edge.
   */
  lemma BottomRowFiveWins(g: Grid, p: int)
    requires IsGrid(g) && forall k :: 0 <= k < 5 ==> g[19][k] == p
    ensures IsWinningMove(g, 19, 4, p)
  {
    forall k | 1 <= k <= 4
      ensures OwnedBy(g, Walk(19, 0, k), Walk(4, -1, k), p)
    {
      WalkMoves(19, 0, k);
      WalkMoves(4, -1, k);
    }
    LineWins(g, 19, 4, p, 0, 4, 0);
  }
}
