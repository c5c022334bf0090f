/** The rules of tic-tac-toe as the game utilities implement them: the eight
    winning lines scanned in a fixed order, draw detection, and the list of
    empty cells. */
module Rules {

  /** One cell of the 3x3 grid; `Empty` is the source's `null`. */
  datatype Cell = Empty | X | O

  /** A mark a player places: a non-empty cell value. */
  type Mark = c: Cell | c != Empty witness X

  /** A cell index, row-major: 0-2 is the top row, 6-8 the bottom row. */
  type Index = i: int | 0 <= i < 9

  /** A board always has exactly nine cells. */
  type Board = b: seq<Cell> | |b| == 9
    witness [Empty, Empty, Empty, Empty, Empty, Empty, Empty, Empty, Empty]

  const EmptyBoard: Board := [Empty, Empty, Empty, Empty, Empty, Empty, Empty, Empty, Empty]

  /** A winning line: three cell indices. */
  datatype Line = Line(a: Index, b: Index, c: Index)

  /** The eight winning lines in scan order: rows, then columns, then diagonals. */
  const WinningLines: seq<Line> := [
    Line(0, 1, 2), Line(3, 4, 5), Line(6, 7, 8),
    Line(0, 3, 6), Line(1, 4, 7), Line(2, 5, 8),
    Line(0, 4, 8), Line(2, 4, 6)
  ]

  /** All three cells of `l` hold `m`. */
  predicate Held(b: Board, l: Line, m: Cell) {
    b[l.a] == m && b[l.b] == m && b[l.c] == m
  }

  /** Line `l` is filled by one mark. */
  predicate Complete(b: Board, l: Line) {
    b[l.a] != Empty && Held(b, l, b[l.a])
  }

  /** No cell is empty. */
  predicate Full(b: Board) {
    forall i | 0 <= i < 9 :: b[i] != Empty
  }

  /** Outcome of a winner check: either nothing, or the winning mark together
      with the line that completes it (the source's two fields are null together). */
  datatype Verdict = NoWinner | Winner(mark: Mark, line: Line)

  /** Scans the winning lines from position `k` on and reports the first complete one. */
  function ScanLines(b: Board, k: nat): (r: Verdict)
    requires k <= |WinningLines|
    ensures r.NoWinner? <==> forall j | k <= j < |WinningLines| :: !Complete(b, WinningLines[j])
    ensures r.Winner? ==>
      exists j | k <= j < |WinningLines| ::
        && WinningLines[j] == r.line
        && Held(b, r.line, r.mark)
        && forall i | k <= i < j :: !Complete(b, WinningLines[i])
    decreases |WinningLines| - k
  {
    if k == |WinningLines| then NoWinner
    else
      var l := WinningLines[k];
      if b[l.a] != Empty && b[l.a] == b[l.b] && b[l.a] == b[l.c] then Winner(b[l.a], l)
      else ScanLines(b, k + 1)
  }

  /** The winner of `b` and its line: the first winning line, in the fixed
      order, whose three cells hold the same mark. */
  function CheckWinner(b: Board): (r: Verdict)
    ensures r.NoWinner? <==> forall j | 0 <= j < |WinningLines| :: !Complete(b, WinningLines[j])
    ensures r.Winner? ==>
      exists j | 0 <= j < |WinningLines| ::
        && WinningLines[j] == r.line
        && Held(b, r.line, r.mark)
        && forall i | 0 <= i < j :: !Complete(b, WinningLines[i])
  {
    ScanLines(b, 0)
  }

  /** A draw: every cell is filled and no winning line is complete. */
  function CheckDraw(b: Board): (r: bool)
    ensures r <==> Full(b) && forall j | 0 <= j < |WinningLines| :: !Complete(b, WinningLines[j])
  {
    Full(b) && !CheckWinner(b).Winner?
  }

  /** The empty cells from index `k` on, in ascending order. */
  function EmptyFrom(b: Board, k: nat): (r: seq<int>)
    requires k <= 9
    ensures |r| <= 9 - k
    ensures forall i | 0 <= i < |r| :: k <= r[i] < 9 && b[r[i]] == Empty
    ensures forall p {:trigger p in r} | k <= p < 9 && b[p] == Empty :: p in r
    ensures forall i, j | 0 <= i < j < |r| :: r[i] < r[j]
    decreases 9 - k
  {
    if k == 9 then []
    else if b[k] == Empty then [k] + EmptyFrom(b, k + 1)
    else EmptyFrom(b, k + 1)
  }

  /** The indices of the empty cells, strictly ascending. */
  function AvailableMoves(b: Board): (r: seq<int>)
    ensures |r| <= 9
    ensures forall i | 0 <= i < |r| :: 0 <= r[i] < 9 && b[r[i]] == Empty
    ensures forall p {:trigger p in r} | 0 <= p < 9 && b[p] == Empty :: p in r
    ensures forall i, j | 0 <= i < j < |r| :: r[i] < r[j]
  {
    EmptyFrom(b, 0)
  }

  /** The first complete line in scan order decides the winner and the line
      reported, whatever else the board holds. */
  lemma FirstCompleteLineWins(b: Board, k: nat)
    requires k < |WinningLines|
    requires Complete(b, WinningLines[k])
    requires forall j | 0 <= j < k :: !Complete(b, WinningLines[j])
    ensures CheckWinner(b) == Winner(b[WinningLines[k].a], WinningLines[k])
  {
    var r := CheckWinner(b);
    assert r.Winner?;
    var j :| 0 <= j < |WinningLines| && WinningLines[j] == r.line && Held(b, r.line, r.mark)
      && forall i | 0 <= i < j :: !Complete(b, WinningLines[i]);
    assert Complete(b, WinningLines[j]);
    assert j == k;
  }

  /** A board is full exactly when it offers no move. */
  lemma FullIffNoMoves(b: Board)
    ensures Full(b) <==> |AvailableMoves(b)| == 0
  {
    if !Full(b) {
      var p :| 0 <= p < 9 && b[p] == Empty;
      assert p in AvailableMoves(b);
    }
  }

  /** Filling an empty cell removes exactly one entry from the move list. */
  lemma {:induction false} PlaceShrinksFrom(b: Board, p: int, m: Mark, k: nat)
    requires 0 <= p < 9 && b[p] == Empty
    requires k <= 9
    ensures |EmptyFrom(b[p := m], k)| == |EmptyFrom(b, k)| - (if k <= p then 1 else 0)
    decreases 9 - k
  {
    if k < 9 {
      PlaceShrinksFrom(b, p, m, k + 1);
    }
  }

  /** Placing a mark in an empty cell leaves one empty cell fewer. */
  lemma PlaceShrinks(b: Board, p: int, m: Mark)
    requires 0 <= p < 9 && b[p] == Empty
    ensures |AvailableMoves(b[p := m])| == |AvailableMoves(b)| - 1
  {
    PlaceShrinksFrom(b, p, m, 0);
  }

  /** The unit-test examples of the winner scan, one lemma per board. */
  lemma CheckWinnerEmpty()
    ensures CheckWinner(EmptyBoard) == NoWinner
  {
  }

  lemma CheckWinnerTopRow()
    ensures CheckWinner([X, X, X, Empty, Empty, Empty, Empty, Empty, Empty]) == Winner(X, Line(0, 1, 2))
  {
  }

  lemma CheckWinnerMiddleColumn()
    ensures CheckWinner([Empty, O, Empty, Empty, O, Empty, Empty, O, Empty]) == Winner(O, Line(1, 4, 7))
  {
  }

  lemma CheckWinnerDiagonal()
    ensures CheckWinner([X, Empty, Empty, Empty, X, Empty, Empty, Empty, X]) == Winner(X, Line(0, 4, 8))
  {
  }

  lemma CheckWinnerUnfinished()
    ensures CheckWinner([X, O, X, O, X, O, Empty, Empty, Empty]) == NoWinner
  {
  }

  /** The unit-test examples of draw detection: only the full board without a
      complete line is a draw. */
  lemma CheckDrawExamples()
    ensures !CheckDraw(EmptyBoard)
    ensures !CheckDraw([X, O, X, Empty, Empty, Empty, Empty, Empty, Empty])
    ensures CheckDraw([X, O, X, X, X, O, O, X, O])
    ensures !CheckDraw([X, X, X, O, O, X, O, X, O])
  {
  }

  /** The unit-test examples of the move list, one lemma per board. */
  lemma AvailableMovesEmpty()
    ensures AvailableMoves(EmptyBoard) == [0, 1, 2, 3, 4, 5, 6, 7, 8]
  {
  }

  lemma AvailableMovesFull()
    ensures AvailableMoves([X, X, X, X, X, X, X, X, X]) == []
  {
  }

  lemma AvailableMovesPartial()
    ensures AvailableMoves([X, Empty, O, Empty, X, Empty, O, Empty, X]) == [1, 3, 5, 7]
  {
  }
}
