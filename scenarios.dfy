/** Short games played against the contracts of Game alone. */
module Scenarios {
  import opened Board
  import opened Lines
  import opened GameState

  /** Black takes (2, 2); White's click on the same cell is ignored, leaving
      the grid as it was and White still to move. */
  method OccupiedCellIsIgnored()
  {
    var g := new Game(StandardSize);
    var first := g.PlaceMarker(2, 2);
    BlockedRunsDoNotWin(g.board, 2, 2, Black, [0, 0, 0, 0], [0, 0, 0, 0]);
    assert g.board[0, 0] == Empty;
    assert first == Continue(White);
    var second := g.PlaceMarker(2, 2);
    assert second == Ignored;
    assert g.currentPlayer == White && g.board[2, 2] == Stone(Black);
  }

  /** The cell (r, c) after Black has laid `blacks` stones along row 0 from
      the left and White `whites` stones
      along row 10 from the left. */
  function RowsOpening(blacks: nat, whites: nat, r: int, c: int): Cell
  {
    if r == 0 && 0 <= c < blacks then Stone(Black)
    else if r == 10 && 0 <= c < whites then Stone(White)
    else Empty
  }

  /** `g` is a running standard game showing that opening. */
  ghost predicate InOpening(g: Game, blacks: nat, whites: nat)
    reads g, g.board
  {
    g.Valid() && g.size == StandardSize && !g.gameOver &&
    forall r, c :: 0 <= r < g.size && 0 <= c < g.size ==> g.board[r, c] == RowsOpening(blacks, whites, r, c)
  }

  /** No cell of row r from column lo to column hi holds `p`'s stone. */
  predicate NoStoneBetween(b: array2<Cell>, r: int, lo: int, hi: int, p: Player)
    reads b
  {
    forall j :: lo <= j <= hi ==> !StoneAt(b, r, j, p)
  }

  /** A run of fewer than 5 of `p`'s stones ending at (row, col), blocked at
      both ends of its row and with no stone of `p` in the rows above and
      below, does not win. */
  lemma ShortRowRunDoesNotWin(b: array2<Cell>, row: int, col: int, p: Player, len: nat)
    requires 0 <= row < b.Length0 && 0 <= col < b.Length1 && 1 <= len <= 4 && len <= col + 1
    requires forall j :: col - len < j <= col ==> StoneAt(b, row, j, p)
    requires !StoneAt(b, row, col - len, p) && !StoneAt(b, row, col + 1, p)
    requires NoStoneBetween(b, row - 1, col - 1, col + 1, p) && NoStoneBetween(b, row + 1, col - 1, col + 1, p)
    ensures !WinsAt(b, row, col, p)
  {
    var lo, hi := [1 - len, 0, 0, 0], [0, 0, 0, 0];
    assert Axes[0] == Direction(0, 1) && Axes[1] == Direction(1, 0);
    assert Axes[2] == Direction(1, 1) && Axes[3] == Direction(1, -1);
    forall i, t | 0 <= i < |Axes| && lo[i] <= t <= hi[i]
      ensures StepHolds(b, row, col, Axes[i], t, p)
    {
      if i == 0 {
        assert StoneAt(b, row, col + t, p);
      }
    }
    forall i | 0 <= i < |Axes|
      ensures !StepHolds(b, row, col, Axes[i], lo[i] - 1, p) && !StepHolds(b, row, col, Axes[i], hi[i] + 1, p)
    {
      if i == 1 {
        assert !StoneAt(b, row - 1, col, p) && !StoneAt(b, row + 1, col, p);
      } else if i == 2 {
        assert !StoneAt(b, row - 1, col - 1, p) && !StoneAt(b, row + 1, col + 1, p);
      } else if i == 3 {
        assert !StoneAt(b, row - 1, col + 1, p) && !StoneAt(b, row + 1, col - 1, p);
      }
    }
    BlockedRunsDoNotWin(b, row, col, p, lo, hi);
  }

  /** Black's stone at (0, n) with n < 4 makes a line of n + 1: no win. */
  method BlackExtends(g: Game, n: nat)
    requires n < 4 && InOpening(g, n, n) && g.currentPlayer == Black
    modifies g, g.board
    ensures InOpening(g, n + 1, n) && g.currentPlayer == White && g.board == old(g.board)
  {
    var o := g.PlaceMarker(0, n);
    forall r, c | 0 <= r < g.size && 0 <= c < g.size
      ensures g.board[r, c] == RowsOpening(n + 1, n, r, c)
    {
      if r != 0 || c != n {
        assert g.board[r, c] == old(g.board[r, c]);
      }
    }
    ShortRowRunDoesNotWin(g.board, 0, n, Black, n + 1);
    assert g.board[18, 18] == Empty;
    assert o == Continue(White);
  }

  /** White's stone at (10, n) with n < 4 makes a line of n + 1: no win. */
  method WhiteAnswers(g: Game, n: nat)
    requires n < 4 && InOpening(g, n + 1, n) && g.currentPlayer == White
    modifies g, g.board
    ensures InOpening(g, n + 1, n + 1) && g.currentPlayer == Black && g.board == old(g.board)
  {
    var o := g.PlaceMarker(10, n);
    forall r, c | 0 <= r < g.size && 0 <= c < g.size
      ensures g.board[r, c] == RowsOpening(n + 1, n + 1, r, c)
    {
      if r != 10 || c != n {
        assert g.board[r, c] == old(g.board[r, c]);
      }
    }
    ShortRowRunDoesNotWin(g.board, 10, n, White, n + 1);
    assert g.board[18, 18] == Empty;
    assert o == Continue(Black);
  }

  /** Black lays (0, 0) to (0, 3) while White lays (10, 0) to (10, 3); no move
      wins until Black's stone at (0, 4) makes five across. After that the
      game is locked: White's click is ignored. */
  method FiveAcrossWins()
  {
    var g := new Game(StandardSize);
    for n := 0 to 4
      invariant InOpening(g, n, n) && g.currentPlayer == Black && fresh(g.board)
    {
      BlackExtends(g, n);
      WhiteAnswers(g, n);
    }
    var o := g.PlaceMarker(0, 4);
    assert FiveFrom(g.board, 0, 4, Axes[0], Black, -4);
    assert o == Win(Black);
    assert g.gameOver && g.currentPlayer == Black;

    o := g.PlaceMarker(1, 1);
    assert o == Ignored && g.board[1, 1] == Empty && g.gameOver;
  }

  /** A reset after two moves gives back the starting position. */
  method ResetMidGame()
  {
    var g := new Game(StandardSize);
    var o := g.PlaceMarker(0, 0);
    o := g.PlaceMarker(10, 0);
    g.Reset();
    assert g.IsInitial() && g.size == StandardSize;
    o := g.PlaceMarker(0, 0);
    assert g.board[0, 0] == Stone(Black);
  }

  /** On a 2 by 2 grid no line can reach five: the turn alternates over
      three moves and the fourth, filling the grid, is a draw. */
  method FullGridIsDraw()
  {
    var g := new Game(2);
    var o := g.PlaceMarker(0, 0);
    WinNeedsRoom(g.board, 0, 0, Black);
    assert g.board[1, 1] == Empty;
    assert o == Continue(White);

    o := g.PlaceMarker(0, 1);
    WinNeedsRoom(g.board, 0, 1, White);
    assert g.board[1, 1] == Empty;
    assert o == Continue(Black);

    o := g.PlaceMarker(1, 0);
    WinNeedsRoom(g.board, 1, 0, Black);
    assert g.board[1, 1] == Empty;
    assert o == Continue(White);

    o := g.PlaceMarker(1, 1);
    WinNeedsRoom(g.board, 1, 1, White);
    assert o == Draw && g.gameOver;
  }
}
