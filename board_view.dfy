/** The `Board` component's logic: the move a click produces (`handleClick`) and
    the status line shown above the grid. */
module BoardView {
  import opened Cells
  import opened WinDetection

  /** The mark written by the player to move. */
  function MarkFor(xIsNext: bool): Player {
    if xIsNext then X else O
  }

  /** `handleClick(i)`: `None` when the click is ignored (there is already a winner,
      or square `i` is taken), otherwise the board passed to `onPlay`. The new
      board is a fresh copy (`squares.slice()`) of which only square `i` is written,
      so the board on display is never changed. */
  method HandleClick(squares: Board, xIsNext: bool, i: Index) returns (next: Option<Board>)
    ensures next.None? <==> HasCompleteLine(squares) || squares[i].Some?
    ensures next.Some? ==> next.value[i] == Some(MarkFor(xIsNext))
    ensures next.Some? ==> forall j :: 0 <= j < 9 && j != i ==> next.value[j] == squares[j]
  {
    var winner := CalculateWinner(squares);
    if winner.Some? || squares[i].Some? {
      return None;
    }
    var nextSquares := new Square[9](j => if 0 <= j < 9 then squares[j] else None);
    if xIsNext {
      nextSquares[i] := Some(X);
    } else {
      nextSquares[i] := Some(O);
    }
    next := Some(nextSquares[..]);
  }

  /** The status line shown above the grid (`status`). */
  function Status(squares: Board, xIsNext: bool): string {
    match Winner(squares)
    case Some(winner) => "Winner: " + Glyph(winner)
    case None =>
      if Full(squares) then "It's a draw!" else "Next player: " + (if xIsNext then "X!" else "O!")
  }

  /** The status line names the mark of the first complete line when there is one
      (even on a full board), reports a draw when no line is complete and no square
      is empty, and otherwise names the player to move. */
  lemma StatusCases(squares: Board, xIsNext: bool)
    ensures Status(squares, xIsNext) == "Winner: X" <==>
      exists k: nat :: FirstComplete(squares, k) && squares[LINES[k].a] == Some(X)
    ensures Status(squares, xIsNext) == "Winner: O" <==>
      exists k: nat :: FirstComplete(squares, k) && squares[LINES[k].a] == Some(O)
    ensures Status(squares, xIsNext) == "It's a draw!" <==> !HasCompleteLine(squares) && Full(squares)
    ensures Status(squares, xIsNext) == "Next player: X!" <==> !HasCompleteLine(squares) && !Full(squares) && xIsNext
    ensures Status(squares, xIsNext) == "Next player: O!" <==> !HasCompleteLine(squares) && !Full(squares) && !xIsNext
  {
    match Winner(squares)
    case Some(winner) =>
      var k: nat :| FirstComplete(squares, k) && squares[LINES[k].a] == Some(winner);
      forall k': nat | FirstComplete(squares, k')
        ensures squares[LINES[k'].a] == Some(winner)
      {
        FirstCompleteUnique(squares, k, k');
      }
      assert "Winner: " + Glyph(X) == "Winner: X";
      assert "Winner: " + Glyph(O) == "Winner: O";
    case None =>
      assert "Next player: " + "X!" == "Next player: X!";
      assert "Next player: " + "O!" == "Next player: O!";
  }
}
