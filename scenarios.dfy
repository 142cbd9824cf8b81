/** Plays of the game through the `Game` class, checked from the contracts alone. */
module Scenarios {
  import opened Cells
  import opened WinDetection
  import opened BoardView
  import opened GameState

  /** No line of `squares` is complete, checked line by line. */
  lemma NoLineOn(squares: Board)
    requires forall j :: 0 <= j < |LINES| ==> !Complete(squares, LINES[j])
    ensures !HasCompleteLine(squares)
  {
  }

  /** X takes 0, O takes 1, X takes 4, O takes 2, X takes 8. */
  method PlayDiagonal() returns (game: Game)
    ensures fresh(game) && game.Reachable() && |game.history| == 6 && game.currentMove == 5
    ensures game.CurrentSquares() == [Some(X), Some(O), Some(O), None, Some(X), None, None, None, Some(X)]
  {
    game := new Game();
    var b := game.CurrentSquares();
    assert !HasCompleteLine(b) by { NoLineOn(b); }
    game.ClickSquare(0);
    b := game.CurrentSquares();
    assert b == [Some(X), None, None, None, None, None, None, None, None];
    assert !HasCompleteLine(b) by { NoLineOn(b); }
    game.ClickSquare(1);
    b := game.CurrentSquares();
    assert b == [Some(X), Some(O), None, None, None, None, None, None, None];
    assert !HasCompleteLine(b) by { NoLineOn(b); }
    game.ClickSquare(4);
    b := game.CurrentSquares();
    assert b == [Some(X), Some(O), None, None, Some(X), None, None, None, None];
    assert !HasCompleteLine(b) by { NoLineOn(b); }
    game.ClickSquare(2);
    b := game.CurrentSquares();
    assert b == [Some(X), Some(O), Some(O), None, Some(X), None, None, None, None];
    assert !HasCompleteLine(b) by { NoLineOn(b); }
    game.ClickSquare(8);
  }

  /** After that play the diagonal 0-4-8 has won: the status names X, the winning
      line is 0-4-8, and a further click on an empty square is ignored. */
  method DiagonalWin() returns (status: string, line: Option<Line>, boardsAfterClick: nat)
    ensures status == "Winner: X"
    ensures line == Some(Line(0, 4, 8))
    ensures boardsAfterClick == 6
  {
    var game := PlayDiagonal();
    var b := game.CurrentSquares();
    assert FirstComplete(b, 6);
    FirstCompleteDecides(b, 6);
    status := game.StatusText();
    line := CalculateWinningLine(b);
    game.ClickSquare(3);
    boardsAfterClick := |game.history|;
  }

  /** Rewinding to the start and playing 4 keeps only the start and the new move,
      and the new move is X's again. */
  method RewindAndBranch() returns (boards: nat, squares: Board)
    ensures boards == 2
    ensures squares == EmptyBoard()[4 := Some(X)]
  {
    var game := PlayDiagonal();
    game.JumpTo(0);
    assert game.history[0] == EmptyBoard();
    assert !HasCompleteLine(EmptyBoard()) by { NoLineOn(EmptyBoard()); }
    game.ClickSquare(4);
    boards := |game.history|;
    squares := game.CurrentSquares();
  }

  /** X takes 0, O takes 1, X takes 2, O takes 4, X takes 3: no line yet. */
  method OpenDraw() returns (game: Game)
    ensures fresh(game) && game.Reachable() && |game.history| == 6 && game.currentMove == 5
    ensures game.CurrentSquares() == [Some(X), Some(O), Some(X), Some(X), Some(O), None, None, None, None]
  {
    game := new Game();
    var b := game.CurrentSquares();
    assert !HasCompleteLine(b) by { NoLineOn(b); }
    game.ClickSquare(0);
    b := game.CurrentSquares();
    assert b == [Some(X), None, None, None, None, None, None, None, None];
    assert !HasCompleteLine(b) by { NoLineOn(b); }
    game.ClickSquare(1);
    b := game.CurrentSquares();
    assert b == [Some(X), Some(O), None, None, None, None, None, None, None];
    assert !HasCompleteLine(b) by { NoLineOn(b); }
    game.ClickSquare(2);
    b := game.CurrentSquares();
    assert b == [Some(X), Some(O), Some(X), None, None, None, None, None, None];
    assert !HasCompleteLine(b) by { NoLineOn(b); }
    game.ClickSquare(4);
    b := game.CurrentSquares();
    assert b == [Some(X), Some(O), Some(X), None, Some(O), None, None, None, None];
    assert !HasCompleteLine(b) by { NoLineOn(b); }
    game.ClickSquare(3);
  }

  /** Continuing with O at 5, X at 7, O at 6 and X at 8 fills the board as
      X O X / X O O / O X X without completing a line. */
  method FinishDraw() returns (game: Game)
    ensures fresh(game) && game.Reachable() && |game.history| == 10 && game.currentMove == 9
    ensures game.CurrentSquares() == [Some(X), Some(O), Some(X), Some(X), Some(O), Some(O), Some(O), Some(X), Some(X)]
  {
    game := OpenDraw();
    var b := game.CurrentSquares();
    assert !HasCompleteLine(b) by { NoLineOn(b); }
    game.ClickSquare(5);
    b := game.CurrentSquares();
    assert b == [Some(X), Some(O), Some(X), Some(X), Some(O), Some(O), None, None, None];
    assert !HasCompleteLine(b) by { NoLineOn(b); }
    game.ClickSquare(7);
    b := game.CurrentSquares();
    assert b == [Some(X), Some(O), Some(X), Some(X), Some(O), Some(O), None, Some(X), None];
    assert !HasCompleteLine(b) by { NoLineOn(b); }
    game.ClickSquare(6);
    b := game.CurrentSquares();
    assert b == [Some(X), Some(O), Some(X), Some(X), Some(O), Some(O), Some(O), Some(X), None];
    assert !HasCompleteLine(b) by { NoLineOn(b); }
    game.ClickSquare(8);
  }

  /** After those nine moves the status is a draw, and a further click on the full
      board adds no snapshot. */
  method PlayedDraw() returns (status: string, boardsAfterClick: nat)
    ensures status == "It's a draw!"
    ensures boardsAfterClick == 10
  {
    var game := FinishDraw();
    var b := game.CurrentSquares();
    NoLineOn(b);
    StatusCases(b, game.xIsNext);
    status := game.StatusText();
    game.ClickSquare(4);
    boardsAfterClick := |game.history|;
  }
}
