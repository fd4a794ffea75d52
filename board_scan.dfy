/**
 * The board queries of app.py as the loops they are, run over the board held
 * in a 20 x 20 array, each proved against its specification in module Board.
 * app.py reads the board from its global state; here it is passed in.
 */
module BoardScan {
  import opened Options
  import opened Board

  predicate IsBoard(b: array2<int>) {
    b.Length0 == ROWS && b.Length1 == COLS
  }

  /** The contents of the array as a grid value. */
  function ToGrid(b: array2<int>): (g: Grid)
    reads b
    requires IsBoard(b)
    ensures IsGrid(g)
    ensures forall r, c :: InBounds(r, c) ==> g[r][c] == b[r, c]
  {
    seq(ROWS, r requires 0 <= r < ROWS reads b =>
      seq(COLS, c requires 0 <= c < COLS reads b => b[r, c]))
  }

  /** A fresh board with every cell empty. */
  method NewBoard() returns (b: array2<int>)
    ensures fresh(b) && IsBoard(b)
    ensures ToGrid(b) == EmptyGrid()
  {
    b := new int[ROWS, COLS]((r, c) => EMPTY);
    GridsEqual(ToGrid(b), EmptyGrid());
  }

  lemma GridsEqual(g: Grid, h: Grid)
    requires IsGrid(g) && IsGrid(h)
    requires forall r, c :: InBounds(r, c) ==> g[r][c] == h[r][c]
    ensures g == h
  {
    forall r | 0 <= r < ROWS
      ensures g[r] == h[r]
    {
      assert forall c :: 0 <= c < COLS ==> g[r][c] == h[r][c];
    }
  }

  /** get_drop_row: scans the column from the bottom row upwards. */
  method GetDropRow(b: array2<int>, col: int) returns (row: Option<int>)
    requires IsBoard(b) && 0 <= col < COLS
    ensures row == DropRow(ToGrid(b), col)
  {
    ghost var g := ToGrid(b);
    var r := ROWS - 1;
    while r >= 0
      invariant -1 <= r < ROWS
      invariant DropRowFrom(g, col, r) == DropRow(g, col)
    {
      if b[r, col] == EMPTY {
        return Some(r);
      }
      r := r - 1;
    }
    return None;
  }

  /**
   * One of check_winner's two scans along an axis: counts the cells of
   * `playerNum` from (r, c) onwards in direction (dr, dc), stopping at the
   * edge of the board or at a cell that is not the player's.
   */
  method ScanRun(b: array2<int>, r: int, c: int, dr: int, dc: int, playerNum: int) returns (n: nat)
    requires IsBoard(b) && IsDirection(dr, dc)
    ensures n == RunFrom(ToGrid(b), r, c, dr, dc, playerNum)
  {
    ghost var g := ToGrid(b);
    n := 0;
    var r', c' := r, c;
    while 0 <= r' < ROWS && 0 <= c' < COLS && b[r', c'] == playerNum
      invariant n + RunFrom(g, r', c', dr, dc, playerNum) == RunFrom(g, r, c, dr, dc, playerNum)
      decreases Span(r', c', dr, dc)
    {
      assert OwnedBy(g, r', c', playerNum);
      n := n + 1;
      r', c' := r' + dr, c' + dc;
    }
    assert !OwnedBy(g, r', c', playerNum);
  }

  /**
   * check_winner: for each axis, counts the placed piece and the pieces of
   * `playerNum` on both sides of (row, col); true as soon as an axis reaches
   * CONNECT.
   */
  method CheckWinner(b: array2<int>, row: int, col: int, playerNum: int) returns (won: bool)
    requires IsBoard(b)
    ensures won <==> IsWinningMove(ToGrid(b), row, col, playerNum)
  {
    ghost var g := ToGrid(b);
    DirectionsAreDirections();
    var i := 0;
    while i < |DIRECTIONS|
      invariant 0 <= i <= |DIRECTIONS|
      invariant forall j :: 0 <= j < i ==>
        AxisCount(g, row, col, DIRECTIONS[j].0, DIRECTIONS[j].1, playerNum) < CONNECT
    {
      var dr, dc := DIRECTIONS[i].0, DIRECTIONS[i].1;
      var forward := ScanRun(b, row + dr, col + dc, dr, dc, playerNum);
      var backward := ScanRun(b, row - dr, col - dc, -dr, -dc, playerNum);
      var count := 1 + forward + backward;
      assert count == AxisCount(g, row, col, DIRECTIONS[i].0, DIRECTIONS[i].1, playerNum);
      if count >= CONNECT {
        return true;
      }
      i := i + 1;
    }
    return false;
  }

  /** is_board_full: looks at the top row only. */
  method IsBoardFull(b: array2<int>) returns (full: bool)
    requires IsBoard(b)
    ensures full <==> TopRowFull(ToGrid(b))
  {
    for c := 0 to COLS
      invariant forall k :: 0 <= k < c ==> b[0, k] != EMPTY
    {
      if b[0, c] == EMPTY {
        return false;
      }
    }
    return true;
  }
}
