/** The state of one game: the grid, whose turn it is and whether the game
    has ended, with the operations that change it. */
module GameState {
  import opened Board
  import opened Lines

  /** What a placement reports to the display: the player who just won, a
      draw, the player to move next, or that the click was ignored. */
  datatype Outcome = Win(winner: Player) | Draw | Continue(next: Player) | Ignored

  /** The side of the grid the game is played on. */
  const StandardSize: nat := 19

  class Game {
    const size: nat
    var board: array2<Cell>
    var currentPlayer: Player
    var gameOver: bool

    /** The grid is `size` by `size`. */
    ghost predicate Valid()
      reads this
    {
      board.Length0 == size && board.Length1 == size
    }

    /** The state a game starts in: an empty grid, Black to move, not over. */
    ghost predicate IsInitial()
      reads this, board
    {
      (forall r, c :: 0 <= r < board.Length0 && 0 <= c < board.Length1 ==> board[r, c] == Empty)
      && currentPlayer == Black && !gameOver
    }

    constructor (n: nat)
      ensures size == n && Valid() && fresh(board) && IsInitial()
    {
      size := n;
      board := new Cell[n, n]((_, _) => Empty);
      currentPlayer := Black;
      gameOver := false;
    }

    /** Whether no cell of the grid is empty, row by row and cell by cell. */
    predicate IsBoardFull(): (full: bool)
      reads this, board
      ensures full <==> Full(board)
    {
      RowsFilledFrom(board, 0)
    }

    /** Counts `currentPlayer`'s stones from (row, col) along `d`, at steps
        1 to 4, stopping at the first step off the grid or not theirs. */
    method ScanRun(row: int, col: int, d: Direction) returns (steps: nat)
      requires Valid()
      ensures steps <= 4
      ensures steps == Reach(board, row, col, d, currentPlayer, 4)
    {
      steps := 0;
      var i := 1;
      while i < 5
        invariant 1 <= i <= 5 && steps == i - 1
        invariant forall k :: 1 <= k < i ==> StepHolds(board, row, col, d, k, currentPlayer)
      {
        var r := row + i * d.dr;
        var c := col + i * d.dc;
        if r >= 0 && r < size && c >= 0 && c < size && board[r, c] == Stone(currentPlayer) {
          steps := steps + 1;
        } else {
          ReachUnique(board, row, col, d, currentPlayer, 4, steps);
          break;
        }
        i := i + 1;
      }
      if i == 5 {
        ReachUnique(board, row, col, d, currentPlayer, 4, 4);
      }
    }

    /** The count for one axis: the cell itself plus the runs scanned
        along `dir` and against it. */
    method AxisScan(row: int, col: int, dir: Direction) returns (count: nat)
      requires Valid()
      ensures 1 <= count <= 9
      ensures count == AxisCount(board, row, col, dir, currentPlayer)
    {
      var forward := ScanRun(row, col, dir);
      var backward := ScanRun(row, col, Opposite(dir));
      count := 1 + forward + backward;
    }

    /** Whether the stone at (row, col) completes a line of at least five of
        `currentPlayer`'s stones along one of the four axes. */
    method CheckWin(row: int, col: int) returns (won: bool)
      requires Valid()
      requires 0 <= row < size && 0 <= col < size
      ensures won <==> WinsAt(board, row, col, currentPlayer)
      ensures board[row, col] == Stone(currentPlayer) ==> (won <==> FiveThrough(board, row, col, currentPlayer))
    {
      for k := 0 to |Axes|
        invariant forall j :: 0 <= j < k ==> AxisCount(board, row, col, Axes[j], currentPlayer) < 5
      {
        var count := AxisScan(row, col, Axes[k]);
        if count >= 5 {
          WinDecided(row, col, true);
          return true;
        }
      }
      WinDecided(row, col, false);
      return false;
    }

    /** Connects what the scan found to the specification of a win. */
    lemma WinDecided(row: int, col: int, won: bool)
      requires Valid()
      requires 0 <= row < size && 0 <= col < size
      requires won <==> ScanWins(board, row, col, currentPlayer)
      ensures won <==> WinsAt(board, row, col, currentPlayer)
      ensures board[row, col] == Stone(currentPlayer) ==> (won <==> FiveThrough(board, row, col, currentPlayer))
    {
      ScanDecidesWin(board, row, col, currentPlayer);
      if board[row, col] == Stone(currentPlayer) {
        WinsAtIffFiveThrough(board, row, col, currentPlayer);
      }
    }

    /** A click on cell (row, col). After the game has ended, or on a taken
        cell, it is ignored and nothing changes. Otherwise the current
        player's stone goes there and nothing else on the grid changes; then
        a win ends the game with that player still current, else a full grid
        ends it as a draw, else the turn passes to the other player. */
    method PlaceMarker(row: int, col: int) returns (outcome: Outcome)
      requires Valid()
      requires 0 <= row < size && 0 <= col < size
      modifies this, board
      ensures Valid() && board == old(board)
      ensures outcome == Ignored <==> old(gameOver) || old(board[row, col]) != Empty
      ensures outcome == Ignored ==>
                unchanged(board) && currentPlayer == old(currentPlayer) && gameOver == old(gameOver)
      ensures outcome != Ignored ==>
                board[row, col] == Stone(old(currentPlayer)) &&
                forall r, c :: 0 <= r < size && 0 <= c < size && (r != row || c != col) ==>
                  board[r, c] == old(board[r, c])
      ensures outcome.Win? <==> outcome != Ignored && WinsAt(board, row, col, old(currentPlayer))
      ensures outcome.Win? <==> outcome != Ignored && FiveThrough(board, row, col, old(currentPlayer))
      ensures outcome.Win? ==> outcome.winner == old(currentPlayer)
      ensures outcome.Draw? <==> outcome != Ignored && !WinsAt(board, row, col, old(currentPlayer)) && Full(board)
      ensures outcome.Win? || outcome.Draw? ==> gameOver && currentPlayer == old(currentPlayer)
      ensures outcome.Continue? ==>
                !gameOver && !Full(board) && currentPlayer == Other(old(currentPlayer)) &&
                outcome.next == currentPlayer
    {
      if gameOver {
        return Ignored;
      }
      if board[row, col] != Empty {
        return Ignored;
      }
      board[row, col] := Stone(currentPlayer);
      var won := CheckWin(row, col);
      if won {
        gameOver := true;
        outcome := Win(currentPlayer);
      } else if IsBoardFull() {
        gameOver := true;
        outcome := Draw;
      } else {
        currentPlayer := Other(currentPlayer);
        outcome := Continue(currentPlayer);
      }
    }

    /** Starts a new game on a fresh empty grid, whatever the state was. */
    method Reset()
      modifies this
      ensures Valid() && fresh(board) && IsInitial()
    {
      board := new Cell[size, size]((_, _) => Empty);
      currentPlayer := Black;
      gameOver := false;
    }
  }
}
