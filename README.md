# Five-in-a-row game state, in Dafny

This project models the game logic of a browser Gomoku (five-in-a-row) game.
Two players, Black and White, take turns placing stones on the empty cells of
a 19 by 19 grid. Black moves first. A player wins by making a line of five or
more of their own stones across, down or along either diagonal. A full grid
with no winner is a draw. Once the game has ended, clicks are ignored until
the game is reset.

All of the logic is in `script.js`. The model has three modules:

- `Board` (board.dfy): the players, the cells, and the fullness test
  `isBoardFull`. The test is two recursive predicates that walk the rows and
  then the cells of each row, in the way the source's nested `every` does.
- `Lines` (lines.dfy): the specification of a win. `Reach` counts how many of
  a player's stones follow a cell along a direction, looking at most a given
  number of steps away. `LineLength` is the length of the whole contiguous
  line through a cell: the cell plus every matching stone beyond it in both
  directions. `WinsAt` says some axis has a line of 5 or more. `FiveThrough`
  says some window of five consecutive cells through the cell is all that
  player's. The lemmas prove three things:
  - scanning at most 4 steps each way decides a win exactly as the whole
    line does;
  - `LineLength` is the real run length, so a run blocked at both ends is
    measured exactly;
  - through the player's own stone, `WinsAt` and `FiveThrough` are equivalent.
- `GameState` (game.dfy): the class `Game`. Its fields are the ones the
  source mutates: `board` (an `array2<Cell>`), `currentPlayer` and
  `gameOver`. Its constant `size` is 19 in the source; here it is a
  constructor parameter, and `StandardSize` is 19. `PlaceMarker` is
  `handleCellClick` without the DOM calls. It returns an `Outcome`:
  `Win(player)`, `Draw`, `Continue(nextPlayer)` or `Ignored`. `CheckWin`
  keeps the source's loops: an outer loop over the four axes and, per axis,
  two scans of at most 4 steps, one forward and one backward, that stop at
  the grid's edge or at a cell that is not the current player's. The
  backward scan (`row - i * dir.r`) is the forward scan along the opposite
  direction, so one method, `ScanRun`, does both. Every cell it reads is
  on the grid, because Dafny checks every array access in it.
  `Reset` reinitialises the state.

The module `Scenarios` (scenarios.dfy) plays short games using only the
contracts of `Game`:

- a click on an occupied cell is ignored;
- Black's five across on row 0 wins, and the next click after that is ignored;
- a reset after two moves gives the starting position back;
- on a 2 by 2 grid, turns alternate and the move that fills the grid is a
  draw.

Where the model follows script.js closely:

- The source calls `checkWin` only right after placing the current player's
  stone. Its count starts at 1 for that cell without reading it. `CheckWin`
  in the model does the same: its first postcondition holds for any cell, and
  the equivalence with "five in a row" is stated for the case where the cell
  holds the player's stone.
- Player labels are the strings `'black'` and `'white'` in the source. Here
  they are the datatype `Player`.

## Model

| member | source | states |
|---|---|---|
| `Board.Other` | script.js:44 | the toggle gives the other player: never the same one, and White exactly when given Black |
| `Board.RowFilledFrom` | script.js:94 | the inner `every`: true exactly when no cell of the row, from the given column on, is empty |
| `Board.RowsFilledFrom` | script.js:94 | the outer `every`: true exactly when no cell of the rows, from the given row on, is empty |
| `GameState.Game.IsBoardFull` | script.js:93-95 | true exactly when no cell of the grid is empty (`Full`) |
| `Lines.AxesAreUnit` | script.js:57-62 | each of the four axes, and each of their opposites, is a step to a neighbouring cell |
| `Lines.OppositeStep` | script.js:77-85 | the backward scan at `row - i*dir.r, col - i*dir.c` is the forward scan along the opposite direction |
| `Lines.Reach` | script.js:67-75 | the count is at most the limit, every step up to the count holds the player's stone, and unless the limit was hit the next step is off the grid or not the player's |
| `Lines.ReachUnique` | script.js:67-75 | those three facts determine the count |
| `Lines.HorizonOffGrid` | script.js:70 | from an on-grid cell, enough unit steps always leave the grid |
| `Lines.RunEndsOnGrid` | script.js:70 | a run from an on-grid cell ends at the edge or at a non-matching cell before the horizon; Reach with that limit is the whole run |
| `Lines.RunCovers` | script.js:67-75 | stones at steps 1 to k make the whole run at least k long |
| `Lines.RunIsExactly` | script.js:67-75 | stones at steps 1 to n and none at n + 1 make the whole run exactly n long |
| `Lines.ScanSeesRun` | script.js:67-75 | the 4-step scan returns the whole run cut off at 4 |
| `Lines.AxisCount` | script.js:65-85 | the per-axis count, 1 plus both bounded scans, lies between 1 and 9 |
| `Lines.LineLengthOfRun` | script.js:65-86 | if the player's stones fill steps lo to hi through the cell and both ends are blocked, the line length is hi - lo + 1 |
| `Lines.AxisCountDecides` | script.js:86-88 | the bounded count reaches 5 exactly when the whole line through the cell is 5 or longer |
| `Lines.LongLineHasFive` | script.js:86-88 | a line of 5 or more through the player's stone contains five consecutive stones through the cell |
| `Lines.FiveMakesLongLine` | script.js:86-88 | five consecutive stones through the cell make its line at least 5 long |
| `Lines.LineIffFive` | script.js:86-88 | along one axis, through the player's stone: line of at least 5 if and only if five in a row through the cell |
| `Lines.ScanDecidesWin` | script.js:64-90 | some axis count reaches 5 if and only if some axis has a line of 5 or more through the cell |
| `Lines.WinsAtIffFiveThrough` | script.js:56-91 | through the player's stone, a win is exactly five consecutive stones through the cell on one of the four axes; longer lines win too |
| `Lines.BlockedRunsDoNotWin` | script.js:65-90 | runs of at most 4 through the cell, blocked at both ends by the edge or another cell on every axis, do not win |
| `Lines.WindowSpansFive` | script.js:57-62 | five in a row along an axis needs 5 rows when the axis moves between rows, and 5 columns when it moves between columns |
| `Lines.WinNeedsRoom` | script.js:64-90 | through the player's own stone, no win is possible on a grid less than 5 high and 5 wide |
| `GameState.Game.constructor` | script.js:5-8 | a fresh `size` by `size` grid, all empty, Black to move, game not over |
| `GameState.Game.ScanRun` | script.js:66-85 | the loop counts exactly `Reach` with limit 4: at most 4 steps, stopping at the first step off the grid or not the current player's |
| `GameState.Game.AxisScan` | script.js:65-85 | the per-axis count is 1 plus the forward and backward scans, equal to `AxisCount` |
| `GameState.Game.CheckWin` | script.js:56-91 | true exactly when some axis has a line of 5 or more of the current player's stones through the cell; when the cell holds their stone, exactly when five consecutive stones pass through it |
| `GameState.Game.WinDecided` | script.js:86-90 | what the scan found is the win specification |
| `GameState.Game.PlaceMarker` | script.js:24-47 | ignored, changing nothing, exactly when the game is over or the cell is taken; otherwise only that cell changes, to the mover's stone; Win(mover) exactly on a win, with the game over and the player kept; Draw exactly with no win and a full grid, with the game over; otherwise Continue with the other player now current and the game still running |
| `GameState.Game.Reset` | script.js:97-103 | whatever the state before: a fresh all-empty grid of the same size, Black to move, game not over |

## Left out

- DOM and event wiring carry no decisions, so they are not modelled: `createBoard` (script.js:10-22), `drawStone` (script.js:49-54), the `addEventListener` calls and the `getElementById` lookups.
- Status text and its capitalisation (script.js:39, 45, 101) are display output. `PlaceMarker` returns an `Outcome` instead.
- Reading the row and column from the clicked element with `parseInt` (script.js:27-28) is input handling. The coordinates are parameters. `0 <= row, col < size` is a precondition because the source never checks bounds and relies on the rendered cells. An out-of-range index is not modelled: in the source it would fail or write outside the grid.
- `GameState.Game.Reset`: the call to `createBoard` that redraws the grid is left out with the rest of the DOM code.
- Cell lookup: script.js has no cell query; `board` is a public field that a client of `Game` can read.
- The prose after the closing `});` (script.js:107-109) is not code.
