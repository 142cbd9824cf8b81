/** Cells and boards of the tic-tac-toe game.

    A square holds JavaScript `null`, 'X' or 'O'; here `None`, `Some(X)` or `Some(O)`.
    A board is the 9-element `squares` array, row-major (index = row * 3 + col).
 */
module Cells {

  datatype Option<T> = None | Some(value: T)

  datatype Player = X | O

  type Square = Option<Player>

  /** A position on the board. */
  type Index = i: nat | i < 9

  /** The `squares` array of one snapshot: always nine squares. */
  type Board = s: seq<Square> | |s| == 9
    witness [None, None, None, None, None, None, None, None, None]

  /** `Array(9).fill(null)`: the board at the start of the game. */
  function EmptyBoard(): (b: Board)
    ensures Count(b, None) == 9 && Count(b, Some(X)) == 0 && Count(b, Some(O)) == 0
  {
    var b: Board := seq(9, _ => None);
    CountAllEmpty(b);
    b
  }

  /** The text the source prints for a mark ('X' or 'O'). */
  function Glyph(p: Player): string {
    match p
    case X => "X"
    case O => "O"
  }

  /** `squares.every(square => square !== null)`: no empty square is left. */
  predicate Full(squares: Board) {
    forall i :: 0 <= i < 9 ==> squares[i].Some?
  }

  /** Number of squares of `s` that hold `v`. */
  function Count(s: seq<Square>, v: Square): (n: nat)
    ensures n <= |s|
  {
    if s == [] then 0 else (if s[0] == v then 1 else 0) + Count(s[1..], v)
  }

  /** Every square is empty, 'X' or 'O': the three counts add up to the length. */
  lemma {:induction false} CountsPartition(s: seq<Square>)
    ensures Count(s, None) + Count(s, Some(X)) + Count(s, Some(O)) == |s|
  {
    if s != [] {
      CountsPartition(s[1..]);
      assert s[0] == None || s[0] == Some(X) || s[0] == Some(O) by {
        if s[0].Some? { assert s[0].value == X || s[0].value == O; }
      }
    }
  }

  /** Writing mark `p` into an empty square adds one `p` and removes one empty square;
      the count of the other mark does not move. */
  lemma {:induction false} CountAfterMark(s: seq<Square>, i: nat, p: Player, v: Square)
    requires i < |s| && s[i] == None
    ensures v == Some(p) ==> Count(s[i := Some(p)], v) == Count(s, v) + 1
    ensures v == None ==> Count(s[i := Some(p)], v) == Count(s, v) - 1
    ensures v != Some(p) && v != None ==> Count(s[i := Some(p)], v) == Count(s, v)
  {
    var t := s[i := Some(p)];
    if i == 0 {
      assert t[1..] == s[1..];
    } else {
      assert t[1..] == s[1..][i - 1 := Some(p)];
      CountAfterMark(s[1..], i - 1, p, v);
    }
  }

  /** A board of empty squares holds no marks. */
  lemma {:induction false} CountAllEmpty(s: seq<Square>)
    requires forall i :: 0 <= i < |s| ==> s[i] == None
    ensures Count(s, None) == |s|
    ensures Count(s, Some(X)) == 0 && Count(s, Some(O)) == 0
  {
    if s != [] {
      CountAllEmpty(s[1..]);
    }
  }
}
