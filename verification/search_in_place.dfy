/** The search as the source runs it: on one mutable nine-cell array, placing
    a mark, recursing and clearing the cell again. Each method leaves the
    array as it found it and computes the value of the functional model. */
module SearchInPlace {
  import opened Rules
  import opened Search
  import opened AiPlayer
  import opened Arith

  /** `minimax` on the array `board`. */
  method MinimaxInPlace(board: array<Cell>, depth: int, isMax: bool, alpha: int, beta: int, maxDepth: int)
    returns (v: int)
    requires board.Length == 9
    modifies board
    ensures board[..] == old(board[..])
    ensures v == Minimax(old(board[..]), depth, isMax, alpha, beta, maxDepth)
    decreases |AvailableMoves(board[..])|, 1
  {
    var b: Board := board[..];
    if Settled(b, depth, maxDepth) {
      v := SettledScore(b, depth);
    } else if isMax {
      v := MaxLoopInPlace(board, depth, alpha, beta, maxDepth);
    } else {
      v := MinLoopInPlace(board, depth, alpha, beta, maxDepth);
    }
  }

  /** The maximiser's loop of `minimax`: place O, recurse, clear the cell,
      raise alpha, stop once beta <= alpha. */
  method MaxLoopInPlace(board: array<Cell>, depth: int, alpha: int, beta: int, maxDepth: int)
    returns (v: int)
    requires board.Length == 9
    modifies board
    ensures board[..] == old(board[..])
    ensures v == MaxSearch(old(board[..]), AvailableMoves(old(board[..])), depth, alpha, beta, maxDepth, MinusInfinity)
    decreases |AvailableMoves(board[..])|, 0
  {
    var b: Board := board[..];
    var moves := AvailableMoves(b);
    var maxEval, a := MinusInfinity, alpha;
    var i := 0;
    while i < |moves|
      invariant 0 <= i <= |moves|
      invariant board[..] == b
      invariant MaxSearch(b, moves[i..], depth, a, beta, maxDepth, maxEval)
        == MaxSearch(b, moves, depth, alpha, beta, maxDepth, MinusInfinity)
      decreases |moves| - i
    {
      var p := moves[i];
      assert moves[i..][0] == p && moves[i..][1..] == moves[i + 1..];
      PlaceShrinks(b, p, O);
      board[p] := O;
      assert board[..] == b[p := O];
      var e := MinimaxInPlace(board, depth + 1, false, a, beta, maxDepth);
      board[p] := Empty;
      assert board[..] == b;
      maxEval := Max(maxEval, e);
      a := Max(a, e);
      if beta <= a {
        return maxEval;
      }
      i := i + 1;
    }
    return maxEval;
  }

  /** The minimiser's loop of `minimax`: place X, recurse, clear the cell,
      lower beta, stop once beta <= alpha. */
  method MinLoopInPlace(board: array<Cell>, depth: int, alpha: int, beta: int, maxDepth: int)
    returns (v: int)
    requires board.Length == 9
    modifies board
    ensures board[..] == old(board[..])
    ensures v == MinSearch(old(board[..]), AvailableMoves(old(board[..])), depth, alpha, beta, maxDepth, PlusInfinity)
    decreases |AvailableMoves(board[..])|, 0
  {
    var b: Board := board[..];
    var moves := AvailableMoves(b);
    var minEval, c := PlusInfinity, beta;
    var i := 0;
    while i < |moves|
      invariant 0 <= i <= |moves|
      invariant board[..] == b
      invariant MinSearch(b, moves[i..], depth, alpha, c, maxDepth, minEval)
        == MinSearch(b, moves, depth, alpha, beta, maxDepth, PlusInfinity)
      decreases |moves| - i
    {
      var p := moves[i];
      assert moves[i..][0] == p && moves[i..][1..] == moves[i + 1..];
      PlaceShrinks(b, p, X);
      board[p] := X;
      assert board[..] == b[p := X];
      var e := MinimaxInPlace(board, depth + 1, true, alpha, c, maxDepth);
      board[p] := Empty;
      assert board[..] == b;
      minEval := Min(minEval, e);
      c := Min(c, e);
      if c <= alpha {
        return minEval;
      }
      i := i + 1;
    }
    return minEval;
  }

  /** `getAIMove` on the array `board`, `first` and `second` being the
      successive results of `Math.random()`. */
  method GetAIMoveInPlace(board: array<Cell>, difficulty: Difficulty, first: Sample, second: Sample)
    returns (r: int)
    requires board.Length == 9 && first.Valid() && second.Valid()
    modifies board
    ensures board[..] == old(board[..])
    ensures r == GetAIMove(old(board[..]), difficulty, first, second)
  {
    var b: Board := board[..];
    FullIffNoMoves(b);
    var moves := AvailableMoves(b);
    if |moves| == 0 {
      return -1;
    }
    if difficulty == Easy {
      return moves[first.Scale(|moves|)];
    }
    if difficulty == Medium && first.BelowHalf() {
      return moves[second.Scale(|moves|)];
    }
    var maxDepth := DepthCap(difficulty);
    ghost var scores := RootScores(b, moves, maxDepth);
    var bestMove, bestValue := moves[0], MinusInfinity;
    var i := 0;
    while i < |moves|
      invariant 0 <= i <= |moves|
      invariant board[..] == b
      invariant BestMove(moves, scores, i, bestMove, bestValue) == SearchMove(b, maxDepth)
      decreases |moves| - i
    {
      var p := moves[i];
      board[p] := O;
      assert board[..] == b[p := O];
      var v := MinimaxInPlace(board, 0, false, MinusInfinity, PlusInfinity, maxDepth);
      board[p] := Empty;
      assert board[..] == b;
      if v > bestValue {
        bestValue := v;
        bestMove := p;
      }
      i := i + 1;
    }
    return bestMove;
  }
}
