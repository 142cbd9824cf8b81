/** The `Game` component: the history of board snapshots, the pointer into it and
    the turn flag, the three operations that change them, and the move labels. */
module GameState {
  import opened Cells
  import opened WinDetection
  import opened BoardView

  /** The mark placed by the move that leaves snapshot `k`: X moves from even
      snapshots, O from odd ones. */
  function Turn(k: nat): Player {
    if k % 2 == 0 then X else O
  }

  /** `after` is `before` with one empty square filled by the player to move at
      snapshot `k`, and `before` had no complete line. */
  ghost predicate Successor(before: Board, after: Board, k: nat) {
    !HasCompleteLine(before) &&
    exists i: Index :: before[i] == None && after == before[i := Some(Turn(k))]
  }

  /** The shape every history reached by play has: it starts at the empty board and
      each snapshot follows from the one before by a single legal move. */
  ghost predicate HistoryShape(history: seq<Board>) {
    |history| > 0 && history[0] == EmptyBoard() &&
    forall k :: 0 <= k < |history| - 1 ==> Successor(history[k], history[k + 1], k)
  }

  /** A prefix of a well-shaped history is well shaped. */
  lemma PrefixShape(history: seq<Board>, n: nat)
    requires HistoryShape(history) && 0 < n <= |history|
    ensures HistoryShape(history[..n])
  {
  }

  /** The board at move `k` holds exactly `k` marks: `(k + 1) / 2` X's and `k / 2`
      O's, so X has as many marks as O or one more. */
  lemma {:induction false} MarksAtMove(history: seq<Board>, k: nat)
    requires HistoryShape(history) && k < |history|
    ensures Count(history[k], Some(X)) == (k + 1) / 2
    ensures Count(history[k], Some(O)) == k / 2
    ensures Count(history[k], None) == 9 - k
    ensures Count(history[k], Some(X)) == Count(history[k], Some(O)) ||
            Count(history[k], Some(X)) == Count(history[k], Some(O)) + 1
  {
    if k == 0 {
      CountAllEmpty(history[0]);
    } else {
      MarksAtMove(history, k - 1);
      assert Successor(history[k - 1], history[k], k - 1);
      var i: Index :| history[k - 1][i] == None && history[k] == history[k - 1][i := Some(Turn(k - 1))];
      CountAfterMark(history[k - 1], i, Turn(k - 1), Some(X));
      CountAfterMark(history[k - 1], i, Turn(k - 1), Some(O));
      CountsPartition(history[k]);
    }
  }

  /** A game can never hold more than the empty board plus nine moves. */
  lemma HistoryAtMostTenBoards(history: seq<Board>)
    requires HistoryShape(history)
    ensures |history| <= 10
  {
    MarksAtMove(history, |history| - 1);
  }

  /** The decimal digit for `d`. */
  function DigitChar(d: nat): char
    requires d < 10
  {
    ('0' as int + d) as char
  }

  /** The plain decimal text of `n`, as JavaScript writes a small non-negative
      integer in a string concatenation (move numbers never exceed 9, see
      `HistoryAtMostTenBoards`). */
  function Decimal(n: nat): (s: string)
    ensures |s| > 0 && forall j :: 0 <= j < |s| ==> '0' <= s[j] <= '9'
    ensures n > 0 ==> s[0] != '0'
    decreases n
  {
    if n < 10 then [DigitChar(n)] else Decimal(n / 10) + [DigitChar(n % 10)]
  }

  /** Reads a string of decimal digits back as a number. */
  function ParseDecimal(s: string): int {
    if s == [] then 0 else ParseDecimal(s[..|s| - 1]) * 10 + (s[|s| - 1] as int - '0' as int)
  }

  /** Reading a rendered number gives the number back. */
  lemma {:induction false} DecimalReadsBack(n: nat)
    ensures ParseDecimal(Decimal(n)) == n
  {
    if n >= 10 {
      DecimalReadsBack(n / 10);
      var s := Decimal(n);
      assert s[..|s| - 1] == Decimal(n / 10);
    }
  }

  /** The label of the button that jumps to snapshot `move`. */
  function MoveLabel(move: nat): string {
    if move > 0 then "Go to move #" + Decimal(move) else "Go to game start"
  }

  /** Move 0 is "Go to game start"; any other move `n` is "Go to move #" followed by
      decimal digits, the first not 0, that read back as `n`. */
  lemma MoveLabelShape(move: nat)
    ensures move == 0 <==> MoveLabel(move) == "Go to game start"
    ensures move > 0 ==> |MoveLabel(move)| > 12 && MoveLabel(move)[..12] == "Go to move #"
    ensures move > 0 ==> MoveLabel(move)[12] != '0'
    ensures move > 0 ==> forall j :: 12 <= j < |MoveLabel(move)| ==> '0' <= MoveLabel(move)[j] <= '9'
    ensures move > 0 ==> ParseDecimal(MoveLabel(move)[12..]) == move
  {
    if move > 0 {
      var r := MoveLabel(move);
      assert r[6] == 'm';
      assert r[12..] == Decimal(move);
      DecimalReadsBack(move);
    }
  }

  /** Different snapshots get different labels. */
  lemma MoveLabelsDistinct(m1: nat, m2: nat)
    requires m1 != m2
    ensures MoveLabel(m1) != MoveLabel(m2)
  {
    MoveLabelShape(m1);
    MoveLabelShape(m2);
  }

  /** The `Game` component's state. */
  class Game {
    var history: seq<Board>
    var currentMove: nat
    var xIsNext: bool

    /** The pointer selects a snapshot and the turn flag matches its parity. */
    ghost predicate Valid()
      reads this
    {
      currentMove < |history| && xIsNext == (currentMove % 2 == 0)
    }

    /** `Valid()` and a history produced by play. */
    ghost predicate Reachable()
      reads this
    {
      Valid() && HistoryShape(history)
    }

    /** `useState(true)`, `useState([Array(9).fill(null)])`, `useState(0)`. */
    constructor ()
      ensures history == [EmptyBoard()] && currentMove == 0 && xIsNext
      ensures Reachable()
    {
      history := [EmptyBoard()];
      currentMove := 0;
      xIsNext := true;
    }

    /** `currentSquares`: the board on display. */
    function CurrentSquares(): Board
      reads this
      requires Valid()
    {
      history[currentMove]
    }

    /** The status line of the board on display; while the game is open it names
        the player given by the parity of the pointer. */
    function StatusText(): (r: string)
      reads this
      requires Valid()
      ensures !HasCompleteLine(CurrentSquares()) && !Full(CurrentSquares()) ==>
        r == (if currentMove % 2 == 0 then "Next player: X!" else "Next player: O!")
    {
      StatusCases(CurrentSquares(), xIsNext);
      Status(CurrentSquares(), xIsNext)
    }

    /** `handlePlay(nextSquares)`: drop every snapshot after the one on display,
        append the new board, point at it and pass the turn. */
    method HandlePlay(nextSquares: Board)
      requires Valid()
      modifies this
      ensures history == old(history[..currentMove + 1]) + [nextSquares]
      ensures currentMove == old(currentMove) + 1 == |history| - 1
      ensures xIsNext == !old(xIsNext)
      ensures forall k :: 0 <= k <= old(currentMove) ==> history[k] == old(history[k])
      ensures Valid()
      ensures old(Reachable()) && Successor(old(CurrentSquares()), nextSquares, old(currentMove)) ==> Reachable()
    {
      ghost var before := history;
      var nextHistory := history[..currentMove + 1] + [nextSquares];
      history := nextHistory;
      currentMove := |nextHistory| - 1;
      xIsNext := !xIsNext;
      if HistoryShape(before) && Successor(before[currentMove - 1], nextSquares, currentMove - 1) {
        PrefixShape(before, currentMove);
        assert history[..currentMove] == before[..currentMove];
      }
    }

    /** `jumpTo(nextMove)`: show snapshot `nextMove` and recompute the turn from it. */
    method JumpTo(nextMove: nat)
      requires Valid()
      requires nextMove < |history|
      modifies this`currentMove, this`xIsNext
      ensures currentMove == nextMove && xIsNext == (nextMove % 2 == 0)
      ensures Valid()
      ensures old(Reachable()) ==> Reachable()
    {
      currentMove := nextMove;
      xIsNext := nextMove % 2 == 0;
    }

    /** A click on square `i` of the board on display: `handleClick(i)` and, when
        it produces a board, `onPlay`, which is `handlePlay`. */
    method ClickSquare(i: Index)
      requires Valid()
      modifies this
      ensures Valid()
      ensures old(HasCompleteLine(CurrentSquares()) || CurrentSquares()[i].Some?) ==> unchanged(this)
      ensures !old(HasCompleteLine(CurrentSquares()) || CurrentSquares()[i].Some?) ==>
        history == old(history[..currentMove + 1] + [CurrentSquares()[i := Some(Turn(currentMove))]]) &&
        currentMove == old(currentMove) + 1
      ensures old(Reachable()) ==> Reachable()
    {
      var next := HandleClick(history[currentMove], xIsNext, i);
      if next.Some? {
        ghost var before := history[currentMove];
        assert next.value == before[i := Some(Turn(currentMove))];
        HandlePlay(next.value);
      }
    }
  }

  /** In a valid game the mark the board view writes for `xIsNext` is the mark
      the parity of `currentMove` gives. */
  lemma TurnMatchesFlag(game: Game)
    requires game.Valid()
    ensures MarkFor(game.xIsNext) == Turn(game.currentMove)
  {
  }
}
