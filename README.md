# Tic-tac-toe game logic in Dafny

A model of the game logic of a React tic-tac-toe app (`src/App.js`): a 3×3 board
whose squares are empty (`null`), `'X'` or `'O'`; win detection over the eight rows,
columns and diagonals; the click handler that turns a click into a new board; and
the `Game` component's state, which keeps every board snapshot in `history`, a
pointer `currentMove` into it and the turn flag `xIsNext`.

Files and modules:

- `cells.dfy` (`Cells`): squares, boards (`seq` of exactly nine squares), the empty
  start board, the "every square filled" test, and counting marks on a board.
- `win_detection.dfy` (`WinDetection`): the table of eight lines in the source's
  order. `WinnerFrom`/`WinningLineFrom` are the reference scans; they are recursive
  and stop at the first complete line. `CalculateWinner`/`CalculateWinningLine` are
  the source's `for` loops with early return, and each is proved to return what its
  scan returns. The lemmas show the scans report the first complete line and agree
  with each other.
- `board_view.dfy` (`BoardView`): `handleClick` as a method that copies the board
  into a fresh array (the source's `slice`) and writes one square, and the status
  line with its case analysis.
- `game_state.dfy` (`GameState`): the class `Game` with the fields `history`,
  `currentMove` and `xIsNext`, the methods `HandlePlay` and `JumpTo` and the click
  wiring `ClickSquare`, and two predicates. `Valid` says the pointer is in range and
  the turn flag matches its parity. `HistoryShape` says the history starts at the
  empty board and each snapshot is the previous one plus one legal move. It also
  holds the mark-count lemmas and the move labels.
- `scenarios.dfy` (`Scenarios`): complete plays run through the class: a win, a
  click ignored after the win, a rewind followed by a new branch, and a nine-move
  draw followed by an ignored click. The plays use only the contracts of the
  class methods; the winning status follows from `FirstCompleteDecides`, the draw
  from `StatusCases`.

Notes on how the model reads the code:

- `handleClick` has no error result: it returns without calling `onPlay` when the
  board has a winner or the square is taken, so `HandleClick` returns `None` and
  `ClickSquare` leaves the state unchanged.
- `jumpTo` checks no range, so `JumpTo` requires `nextMove < |history|`; its
  callers only pass indices of `history`.
- `Game` stores `xIsNext` next to `currentMove`; `Game.Valid` states, and every
  operation keeps, that it equals `currentMove % 2 == 0`.
- Lines 91-93 of `src/App.js` carry explanatory text after the statements without
  `//`. The model reads that text as comments.

## Model

| member | source | states |
|---|---|---|
| `Cells.EmptyBoard` | src/App.js:85 | the first snapshot holds nine null squares and no X or O |
| `Cells.CountAfterMark` | src/App.js:19-24 | writing a mark into a null square adds one of that mark, removes one null square and leaves the other mark's count alone |
| `WinDetection.WinnerFrom` | src/App.js:133-138 | the scan from position i returns null exactly when no line from i on is complete, else the mark of the first complete line from i on |
| `WinDetection.WinningLineFrom` | src/App.js:50-55 | the scan from position i returns null exactly when no line from i on is complete, else the first complete line from i on |
| `WinDetection.Winner` | src/App.js:122-140 | non-null exactly when some line has three equal non-null squares; then it is the mark of the first such line in table order |
| `WinDetection.WinningLine` | src/App.js:39-57 | non-null exactly when some line is complete; then it is the first complete line in table order |
| `WinDetection.FirstCompleteDecides` | src/App.js:133-137 | once line k is the first complete one, the winner is its mark and the winning line is line k |
| `WinDetection.WinnerAndLineAgree` | src/App.js:52-53 | the winning line is reported exactly when a winner is, and all three of its squares hold the winner's mark |
| `WinDetection.CalculateWinner` | src/App.js:122-140 | the loop with early return computes the first complete line's mark, or null |
| `WinDetection.CalculateWinningLine` | src/App.js:39-57 | the loop with early return computes the first complete line, or null |
| `BoardView.HandleClick` | src/App.js:12-26 | the click is ignored exactly when a line is complete or square i is taken; otherwise the new board has X or O (per xIsNext) at i and equals the old board everywhere else |
| `BoardView.StatusCases` | src/App.js:28-37 | the status is "Winner: X"/"Winner: O" exactly when the first complete line holds that mark, even on a full board; "It's a draw!" exactly when no line is complete and every square is filled; otherwise "Next player: X!" or "Next player: O!" exactly as xIsNext says |
| `GameState.PrefixShape` | src/App.js:90 | keeping the first n snapshots of a well-shaped history keeps it well shaped |
| `GameState.MarksAtMove` | src/App.js:89-93 | in a history built by play, the board at move k has (k+1)/2 X's, k/2 O's and 9-k empty squares, so X has as many marks as O or one more |
| `GameState.HistoryAtMostTenBoards` | src/App.js:89-93 | a history built by play holds at most ten boards |
| `GameState.Decimal` | src/App.js:102 | a number is rendered as a non-empty string of decimal digits with no leading zero (except 0 itself) |
| `GameState.DecimalReadsBack` | src/App.js:102 | reading the rendered digits gives the number back |
| `GameState.MoveLabelShape` | src/App.js:102 | move 0 is labelled "Go to game start" and no other move is; move n > 0 is labelled "Go to move #" followed by digits, the first not 0, that read back as n |
| `GameState.MoveLabelsDistinct` | src/App.js:101-102 | different moves get different labels |
| `GameState.TurnMatchesFlag` | src/App.js:20-23 | in a valid game the mark handleClick writes for xIsNext is X exactly when currentMove is even |
| `GameState.Game.constructor` | src/App.js:84-86 | the game starts with the single empty board, pointer 0 and X to move; the turn invariant and the history shape hold |
| `GameState.Game.StatusText` | src/App.js:36 | while no line is complete and a square is free, the status names X when currentMove is even and O when it is odd |
| `GameState.Game.HandlePlay` | src/App.js:89-94 | history becomes its first currentMove+1 snapshots followed by the new board, with the kept snapshots unchanged and later ones dropped; currentMove becomes the new last index; xIsNext flips; the turn invariant is kept, and so is the history shape when the new board is one legal move on from the displayed one |
| `GameState.Game.JumpTo` | src/App.js:96-99 | only currentMove and xIsNext change: the pointer moves to the given snapshot and the turn comes from its parity; the history is unchanged and both invariants are kept |
| `GameState.Game.ClickSquare` | src/App.js:12-25 | a click on a decided board or a taken square changes nothing; any other click appends the displayed board with the mover's mark at i after dropping later snapshots, and advances the pointer; both invariants are kept |
| `Scenarios.PlayDiagonal` | src/App.js:12-25 | X at 0, O at 1, X at 4, O at 2, X at 8 gives six snapshots ending in that board |
| `Scenarios.DiagonalWin` | src/App.js:32-34 | after that play the status is "Winner: X", the winning line is 0-4-8 and another click adds no snapshot |
| `Scenarios.RewindAndBranch` | src/App.js:89-99 | jumping back to the start and playing 4 leaves two snapshots, the second being X at 4 |
| `Scenarios.OpenDraw` | src/App.js:12-25 | X at 0, O at 1, X at 2, O at 4, X at 3 gives six snapshots ending in that board |
| `Scenarios.FinishDraw` | src/App.js:12-25 | continuing with O at 5, X at 7, O at 6, X at 8 gives ten snapshots ending in X O X / X O O / O X X |
| `Scenarios.PlayedDraw` | src/App.js:36 | after that play the status is "It's a draw!" and another click adds no snapshot |

## Left out

- Rendering: the `Square` component, the board grid markup, the move list's
  `<li>`/`<button>` elements and the page layout are presentation only.
- The highlight of the winning squares: the `winningLine` variable of the board
  view and `winningLine.includes(index)` are only used for display. The line itself
  is modelled by `CalculateWinningLine`.
- Event wiring: `onClick`/`onSquareClick` are not modelled, and square indices are
  limited to 0-8 by the type `Index`, since the grid only produces those.
- React's `useState` re-rendering and batching: the three setter calls of
  `handlePlay` (and the two of `jumpTo`) are one atomic update of the fields, and
  `!xIsNext` reads the value from before the update.
- JavaScript arrays are shared by reference. The model's snapshots are values, so
  it cannot express aliasing between `history` entries. The copy that `handleClick`
  makes with `slice` is a fresh array in `HandleClick`.
- GameState.Game.JumpTo: requires `0 <= nextMove < |history|` instead of modelling an
  out-of-range jump, which the code does not guard against and its callers never make.
- GameState.Game.HandlePlay: accepts any board, as the code does. It keeps the history shape
  only for a board one legal move on from the displayed one. Its only caller,
  `ClickSquare`, always passes such a board.
- Starting a new game (resetting the history) is not an operation of the code.
