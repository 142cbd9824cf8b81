/** Win detection: `calculateWinner` and `calculateWinningLine`.

    Both scan the same table of eight index triples in the same order and stop at
    the first triple whose three squares hold the same mark. The recursive
    functions `WinnerFrom` and `WinningLineFrom` are the reference meaning of that
    scan (used by the status text and the game invariants); the methods
    `CalculateWinner` and `CalculateWinningLine` are the source's `for` loops with
    early return, proved to compute the same values.
 */
module WinDetection {
  import opened Cells

  /** One row, column or diagonal: the three indices `[a, b, c]`. */
  datatype Line = Line(a: Index, b: Index, c: Index)

  /** The `lines` table, in the order the source scans it. */
  const LINES: seq<Line> := [
    Line(0, 1, 2), Line(3, 4, 5), Line(6, 7, 8),
    Line(0, 3, 6), Line(1, 4, 7), Line(2, 5, 8),
    Line(0, 4, 8), Line(2, 4, 6)
  ]

  /** `squares[a] && squares[a] === squares[b] && squares[a] === squares[c]`. */
  predicate Complete(squares: Board, line: Line) {
    squares[line.a].Some? && squares[line.a] == squares[line.b] && squares[line.a] == squares[line.c]
  }

  /** No line of the table from position `i` on is complete. */
  ghost predicate NoneCompleteFrom(squares: Board, i: nat) {
    forall j :: i <= j < |LINES| ==> !Complete(squares, LINES[j])
  }

  /** `LINES[k]` is the first complete line at or after position `i`. */
  ghost predicate FirstCompleteFrom(squares: Board, i: nat, k: nat) {
    i <= k < |LINES| && Complete(squares, LINES[k]) &&
    forall j :: i <= j < k ==> !Complete(squares, LINES[j])
  }

  /** `LINES[k]` is the first complete line of the whole table. */
  ghost predicate FirstComplete(squares: Board, k: nat) {
    FirstCompleteFrom(squares, 0, k)
  }

  /** Some line of the table is complete. */
  ghost predicate HasCompleteLine(squares: Board) {
    exists k: nat :: 0 <= k < |LINES| && Complete(squares, LINES[k])
  }

  /** The scan of `calculateWinner` from table position `i` on. */
  function WinnerFrom(squares: Board, i: nat): (r: Option<Player>)
    requires i <= |LINES|
    ensures r.None? <==> NoneCompleteFrom(squares, i)
    ensures r.Some? ==> exists k: nat :: FirstCompleteFrom(squares, i, k) && squares[LINES[k].a] == Some(r.value)
    decreases |LINES| - i
  {
    if i == |LINES| then None
    else if Complete(squares, LINES[i]) then squares[LINES[i].a]
    else WinnerFrom(squares, i + 1)
  }

  /** The scan of `calculateWinningLine` from table position `i` on. */
  function WinningLineFrom(squares: Board, i: nat): (r: Option<Line>)
    requires i <= |LINES|
    ensures r.None? <==> NoneCompleteFrom(squares, i)
    ensures r.Some? ==> exists k: nat :: FirstCompleteFrom(squares, i, k) && r.value == LINES[k]
    decreases |LINES| - i
  {
    if i == |LINES| then None
    else if Complete(squares, LINES[i]) then Some(LINES[i])
    else WinningLineFrom(squares, i + 1)
  }

  /** What `calculateWinner(squares)` returns: the mark of the first complete line, or null. */
  function Winner(squares: Board): (r: Option<Player>)
    ensures r.Some? <==> HasCompleteLine(squares)
    ensures r.Some? ==> exists k: nat :: FirstComplete(squares, k) && squares[LINES[k].a] == Some(r.value)
  {
    WinnerFrom(squares, 0)
  }

  /** What `calculateWinningLine(squares)` returns: the first complete line, or null. */
  function WinningLine(squares: Board): (r: Option<Line>)
    ensures r.Some? <==> HasCompleteLine(squares)
    ensures r.Some? ==> exists k: nat :: FirstComplete(squares, k) && r.value == LINES[k]
  {
    WinningLineFrom(squares, 0)
  }

  /** At most one line is the first complete one. */
  lemma FirstCompleteUnique(squares: Board, k1: nat, k2: nat)
    requires FirstComplete(squares, k1) && FirstComplete(squares, k2)
    ensures k1 == k2
  {
  }

  /** The first complete line decides both scans. */
  lemma FirstCompleteDecides(squares: Board, k: nat)
    requires FirstComplete(squares, k)
    ensures Winner(squares) == squares[LINES[k].a]
    ensures WinningLine(squares) == Some(LINES[k])
  {
    var k1: nat :| FirstComplete(squares, k1) && squares[LINES[k1].a] == Some(Winner(squares).value);
    var k2: nat :| FirstComplete(squares, k2) && WinningLine(squares).value == LINES[k2];
    FirstCompleteUnique(squares, k, k1);
    FirstCompleteUnique(squares, k, k2);
  }

  /** The two scans agree: a winning line is reported exactly when a winner is, and
      every square of that line holds the winner's mark. */
  lemma {:induction false} WinnerAndLineAgree(squares: Board)
    ensures WinningLine(squares).Some? <==> Winner(squares).Some?
    ensures WinningLine(squares).Some? ==>
      var line := WinningLine(squares).value;
      var mark := Some(Winner(squares).value);
      squares[line.a] == mark && squares[line.b] == mark && squares[line.c] == mark
  {
    if Winner(squares).Some? {
      var k1: nat :| FirstComplete(squares, k1) && squares[LINES[k1].a] == Some(Winner(squares).value);
      var k2: nat :| FirstComplete(squares, k2) && WinningLine(squares).value == LINES[k2];
      FirstCompleteUnique(squares, k1, k2);
    }
  }

  /** `calculateWinner`: the `for` loop over the table with early return. */
  method CalculateWinner(squares: Board) returns (r: Option<Player>)
    ensures r == Winner(squares)
  {
    for i := 0 to |LINES|
      invariant WinnerFrom(squares, i) == Winner(squares)
    {
      var line := LINES[i];
      if squares[line.a].Some? && squares[line.a] == squares[line.b] && squares[line.a] == squares[line.c] {
        return squares[line.a];
      }
    }
    return None;
  }

  /** `calculateWinningLine`: the same loop, returning the triple instead of the mark. */
  method CalculateWinningLine(squares: Board) returns (r: Option<Line>)
    ensures r == WinningLine(squares)
  {
    for i := 0 to |LINES|
      invariant WinningLineFrom(squares, i) == WinningLine(squares)
    {
      var line := LINES[i];
      if squares[line.a].Some? && squares[line.a] == squares[line.b] && squares[line.a] == squares[line.c] {
        return Some(line);
      }
    }
    return None;
  }
}
