/** The AI's adversarial search: depth-capped minimax with alpha-beta pruning
    (O maximises, X minimises), next to the plain minimax it must agree with. */
module Search {
  import opened Rules
  import opened Arith

  /** Integer stand-ins for the source's `-Infinity` and `Infinity`: every
      score lies in [-10, 10], so any integer outside that range will do. */
  const MinusInfinity: int := -1000
  const PlusInfinity: int := 1000

  /** Every entry of `moves` is an empty cell of `b`. */
  predicate EmptyCells(b: Board, moves: seq<int>) {
    forall i | 0 <= i < |moves| :: 0 <= moves[i] < 9 && b[moves[i]] == Empty
  }

  /** The search stops at `b`: someone has won, it is a draw, or the depth cap is reached. */
  predicate Settled(b: Board, depth: int, maxDepth: int) {
    CheckWinner(b).Winner? || CheckDraw(b) || depth >= maxDepth
  }

  /** Score of a settled position for O: a win found sooner scores higher, a
      loss found later scores higher, a draw or a cut-off scores 0. */
  function SettledScore(b: Board, depth: int): int {
    match CheckWinner(b)
    case Winner(m, _) => if m == O then 10 - depth else depth - 10
    case NoWinner => 0
  }

  /** Room left in the search: the depth plus the number of empty cells is at
      most ten, which keeps every score inside [-10, 10]. */
  predicate Horizon(b: Board, depth: int) {
    0 <= depth && depth + |AvailableMoves(b)| <= 10
  }

  // ---------------------------------------------------------------------
  // Alpha-beta search, as the source computes it
  // ---------------------------------------------------------------------

  /** `minimax(board, depth, isMaximizing, alpha, beta, maxDepth)`. */
  function Minimax(b: Board, depth: int, isMax: bool, alpha: int, beta: int, maxDepth: int): int
    decreases |AvailableMoves(b)|, 1, 0
  {
    if Settled(b, depth, maxDepth) then SettledScore(b, depth)
    else if isMax then MaxSearch(b, AvailableMoves(b), depth, alpha, beta, maxDepth, MinusInfinity)
    else MinSearch(b, AvailableMoves(b), depth, alpha, beta, maxDepth, PlusInfinity)
  }

  /** The maximiser's loop over `moves`: place O, recurse, undo, raise alpha,
      and stop as soon as beta <= alpha. `best` is `maxEval`. */
  function MaxSearch(b: Board, moves: seq<int>, depth: int, alpha: int, beta: int, maxDepth: int, best: int): int
    requires EmptyCells(b, moves)
    decreases |AvailableMoves(b)|, 0, |moves|
  {
    if moves == [] then best
    else
      var p := moves[0];
      PlaceShrinks(b, p, O);
      var v := Minimax(b[p := O], depth + 1, false, alpha, beta, maxDepth);
      var best' := Max(best, v);
      var alpha' := Max(alpha, v);
      if beta <= alpha' then best'
      else MaxSearch(b, moves[1..], depth, alpha', beta, maxDepth, best')
  }

  /** The minimiser's loop over `moves`: place X, recurse, undo, lower beta,
      and stop as soon as beta <= alpha. `best` is `minEval`. */
  function MinSearch(b: Board, moves: seq<int>, depth: int, alpha: int, beta: int, maxDepth: int, best: int): int
    requires EmptyCells(b, moves)
    decreases |AvailableMoves(b)|, 0, |moves|
  {
    if moves == [] then best
    else
      var p := moves[0];
      PlaceShrinks(b, p, X);
      var v := Minimax(b[p := X], depth + 1, true, alpha, beta, maxDepth);
      var best' := Min(best, v);
      var beta' := Min(beta, v);
      if beta' <= alpha then best'
      else MinSearch(b, moves[1..], depth, alpha, beta', maxDepth, best')
  }

  // ---------------------------------------------------------------------
  // Plain minimax: the same scores, every child visited
  // ---------------------------------------------------------------------

  /** Depth-capped minimax without pruning: the value alpha-beta must reproduce. */
  function PlainValue(b: Board, depth: int, isMax: bool, maxDepth: int): int
    decreases |AvailableMoves(b)|, 1, 0
  {
    if Settled(b, depth, maxDepth) then SettledScore(b, depth)
    else if isMax then PlainMax(b, AvailableMoves(b), depth, maxDepth, MinusInfinity)
    else PlainMin(b, AvailableMoves(b), depth, maxDepth, PlusInfinity)
  }

  /** The largest of `best` and the values of O's replies in `moves`. */
  function PlainMax(b: Board, moves: seq<int>, depth: int, maxDepth: int, best: int): int
    requires EmptyCells(b, moves)
    decreases |AvailableMoves(b)|, 0, |moves|
  {
    if moves == [] then best
    else
      PlaceShrinks(b, moves[0], O);
      PlainMax(b, moves[1..], depth, maxDepth, Max(best, PlainValue(b[moves[0] := O], depth + 1, false, maxDepth)))
  }

  /** The smallest of `best` and the values of X's replies in `moves`. */
  function PlainMin(b: Board, moves: seq<int>, depth: int, maxDepth: int, best: int): int
    requires EmptyCells(b, moves)
    decreases |AvailableMoves(b)|, 0, |moves|
  {
    if moves == [] then best
    else
      PlaceShrinks(b, moves[0], X);
      PlainMin(b, moves[1..], depth, maxDepth, Min(best, PlainValue(b[moves[0] := X], depth + 1, true, maxDepth)))
  }

  // ---------------------------------------------------------------------
  // Facts about positions
  // ---------------------------------------------------------------------

  /** A position the search does not stop at has an empty cell to play. */
  lemma OpenHasMoves(b: Board, depth: int, maxDepth: int)
    requires !Settled(b, depth, maxDepth)
    ensures |AvailableMoves(b)| > 0
  {
    FullIffNoMoves(b);
  }

  /** A placement keeps the search within its horizon one ply deeper. */
  lemma HorizonStep(b: Board, depth: int, p: int, m: Mark)
    requires Horizon(b, depth) && 0 <= p < 9 && b[p] == Empty
    ensures Horizon(b[p := m], depth + 1)
  {
    PlaceShrinks(b, p, m);
  }

  /** The scores of settled positions within the horizon. */
  lemma SettledScoreBounds(b: Board, depth: int)
    requires 0 <= depth <= 10
    ensures depth - 10 <= SettledScore(b, depth) <= 10 - depth
  {
  }

  // ---------------------------------------------------------------------
  // Bounds
  // ---------------------------------------------------------------------

  /** Plain minimax values lie in [depth - 10, 10 - depth], hence in [-10, 10]. */
  lemma {:induction false} PlainValueBounds(b: Board, depth: int, isMax: bool, maxDepth: int)
    requires Horizon(b, depth)
    ensures depth - 10 <= PlainValue(b, depth, isMax, maxDepth) <= 10 - depth
    decreases |AvailableMoves(b)|, 1, 0
  {
    if Settled(b, depth, maxDepth) {
      SettledScoreBounds(b, depth);
    } else {
      OpenHasMoves(b, depth, maxDepth);
      if isMax {
        PlainMaxBounds(b, AvailableMoves(b), depth, maxDepth, MinusInfinity);
      } else {
        PlainMinBounds(b, AvailableMoves(b), depth, maxDepth, PlusInfinity);
      }
    }
  }

  lemma {:induction false} PlainMaxBounds(b: Board, moves: seq<int>, depth: int, maxDepth: int, best: int)
    requires EmptyCells(b, moves) && Horizon(b, depth)
    requires best <= 10 - depth
    requires |moves| > 0 || depth - 10 <= best
    ensures depth - 10 <= PlainMax(b, moves, depth, maxDepth, best) <= 10 - depth
    decreases |AvailableMoves(b)|, 0, |moves|
  {
    if moves != [] {
      HorizonStep(b, depth, moves[0], O);
      PlaceShrinks(b, moves[0], O);
      PlainValueBounds(b[moves[0] := O], depth + 1, false, maxDepth);
      var v := PlainValue(b[moves[0] := O], depth + 1, false, maxDepth);
      PlainMaxBounds(b, moves[1..], depth, maxDepth, Max(best, v));
    }
  }

  lemma {:induction false} PlainMinBounds(b: Board, moves: seq<int>, depth: int, maxDepth: int, best: int)
    requires EmptyCells(b, moves) && Horizon(b, depth)
    requires depth - 10 <= best
    requires |moves| > 0 || best <= 10 - depth
    ensures depth - 10 <= PlainMin(b, moves, depth, maxDepth, best) <= 10 - depth
    decreases |AvailableMoves(b)|, 0, |moves|
  {
    if moves != [] {
      HorizonStep(b, depth, moves[0], X);
      PlaceShrinks(b, moves[0], X);
      PlainValueBounds(b[moves[0] := X], depth + 1, true, maxDepth);
      var v := PlainValue(b[moves[0] := X], depth + 1, true, maxDepth);
      PlainMinBounds(b, moves[1..], depth, maxDepth, Min(best, v));
    }
  }

  /** Alpha-beta values lie in [depth - 10, 10 - depth] for every window: the
      sentinels never leak out of the search. */
  lemma {:induction false} MinimaxBounds(b: Board, depth: int, isMax: bool, alpha: int, beta: int, maxDepth: int)
    requires Horizon(b, depth)
    ensures depth - 10 <= Minimax(b, depth, isMax, alpha, beta, maxDepth) <= 10 - depth
    decreases |AvailableMoves(b)|, 1, 0
  {
    if Settled(b, depth, maxDepth) {
      SettledScoreBounds(b, depth);
    } else {
      OpenHasMoves(b, depth, maxDepth);
      if isMax {
        MaxSearchBounds(b, AvailableMoves(b), depth, alpha, beta, maxDepth, MinusInfinity);
      } else {
        MinSearchBounds(b, AvailableMoves(b), depth, alpha, beta, maxDepth, PlusInfinity);
      }
    }
  }

  lemma {:induction false} MaxSearchBounds(b: Board, moves: seq<int>, depth: int, alpha: int, beta: int, maxDepth: int, best: int)
    requires EmptyCells(b, moves) && Horizon(b, depth)
    requires best <= 10 - depth
    requires |moves| > 0 || depth - 10 <= best
    ensures depth - 10 <= MaxSearch(b, moves, depth, alpha, beta, maxDepth, best) <= 10 - depth
    decreases |AvailableMoves(b)|, 0, |moves|
  {
    if moves != [] {
      var p := moves[0];
      HorizonStep(b, depth, p, O);
      PlaceShrinks(b, p, O);
      MinimaxBounds(b[p := O], depth + 1, false, alpha, beta, maxDepth);
      var v := Minimax(b[p := O], depth + 1, false, alpha, beta, maxDepth);
      if beta > Max(alpha, v) {
        MaxSearchBounds(b, moves[1..], depth, Max(alpha, v), beta, maxDepth, Max(best, v));
      }
    }
  }

  lemma {:induction false} MinSearchBounds(b: Board, moves: seq<int>, depth: int, alpha: int, beta: int, maxDepth: int, best: int)
    requires EmptyCells(b, moves) && Horizon(b, depth)
    requires depth - 10 <= best
    requires |moves| > 0 || best <= 10 - depth
    ensures depth - 10 <= MinSearch(b, moves, depth, alpha, beta, maxDepth, best) <= 10 - depth
    decreases |AvailableMoves(b)|, 0, |moves|
  {
    if moves != [] {
      var p := moves[0];
      HorizonStep(b, depth, p, X);
      PlaceShrinks(b, p, X);
      MinimaxBounds(b[p := X], depth + 1, true, alpha, beta, maxDepth);
      var v := Minimax(b[p := X], depth + 1, true, alpha, beta, maxDepth);
      if Min(beta, v) > alpha {
        MinSearchBounds(b, moves[1..], depth, alpha, Min(beta, v), maxDepth, Min(best, v));
      }
    }
  }

  // ---------------------------------------------------------------------
  // Alpha-beta agrees with plain minimax
  // ---------------------------------------------------------------------

  /** The fail-soft alpha-beta contract relating a pruned result `r` to the
      true value `v` for the window (alpha, beta). */
  predicate Window(r: int, v: int, alpha: int, beta: int) {
    && (v <= alpha ==> v <= r <= alpha)
    && (alpha < v < beta ==> r == v)
    && (beta <= v ==> beta <= r <= v)
  }

  lemma {:induction false} PlainMaxAtLeastBest(b: Board, moves: seq<int>, depth: int, maxDepth: int, best: int)
    requires EmptyCells(b, moves)
    ensures PlainMax(b, moves, depth, maxDepth, best) >= best
    decreases |moves|
  {
    if moves != [] {
      PlaceShrinks(b, moves[0], O);
      var v := PlainValue(b[moves[0] := O], depth + 1, false, maxDepth);
      PlainMaxAtLeastBest(b, moves[1..], depth, maxDepth, Max(best, v));
    }
  }

  lemma {:induction false} PlainMinAtMostBest(b: Board, moves: seq<int>, depth: int, maxDepth: int, best: int)
    requires EmptyCells(b, moves)
    ensures PlainMin(b, moves, depth, maxDepth, best) <= best
    decreases |moves|
  {
    if moves != [] {
      PlaceShrinks(b, moves[0], X);
      var v := PlainValue(b[moves[0] := X], depth + 1, true, maxDepth);
      PlainMinAtMostBest(b, moves[1..], depth, maxDepth, Min(best, v));
    }
  }

  /** Alpha-beta with any window inside the sentinels meets the fail-soft
      contract against plain minimax: exact inside the window, a bound on the
      correct side outside it. */
  lemma {:induction false} AlphaBetaWindow(b: Board, depth: int, isMax: bool, alpha: int, beta: int, maxDepth: int)
    requires MinusInfinity <= alpha < beta <= PlusInfinity
    ensures Window(Minimax(b, depth, isMax, alpha, beta, maxDepth), PlainValue(b, depth, isMax, maxDepth), alpha, beta)
    decreases |AvailableMoves(b)|, 1, 0
  {
    if !Settled(b, depth, maxDepth) {
      if isMax {
        MaxSearchWindow(b, AvailableMoves(b), depth, maxDepth, alpha, beta, alpha, MinusInfinity, MinusInfinity);
      } else {
        MinSearchWindow(b, AvailableMoves(b), depth, maxDepth, alpha, beta, beta, PlusInfinity, PlusInfinity);
      }
    }
  }

  /** Loop invariant of the maximiser: `a` is the current alpha, `e` the
      current `maxEval`, `m` the plain maximum over the same moves so far. */
  lemma {:induction false} MaxSearchWindow(b: Board, moves: seq<int>, depth: int, maxDepth: int,
                                           alpha0: int, beta: int, a: int, e: int, m: int)
    requires EmptyCells(b, moves)
    requires MinusInfinity <= alpha0 < beta <= PlusInfinity
    requires a == Max(alpha0, e) && a < beta
    requires m <= alpha0 ==> m <= e <= alpha0
    requires alpha0 < m ==> e == m
    ensures Window(MaxSearch(b, moves, depth, a, beta, maxDepth, e), PlainMax(b, moves, depth, maxDepth, m), alpha0, beta)
    decreases |AvailableMoves(b)|, 0, |moves|
  {
    if moves != [] {
      var p := moves[0];
      PlaceShrinks(b, p, O);
      var child := b[p := O];
      AlphaBetaWindow(child, depth + 1, false, a, beta, maxDepth);
      var r := Minimax(child, depth + 1, false, a, beta, maxDepth);
      var v := PlainValue(child, depth + 1, false, maxDepth);
      if beta <= Max(a, r) {
        PlainMaxAtLeastBest(b, moves[1..], depth, maxDepth, Max(m, v));
      } else {
        MaxSearchWindow(b, moves[1..], depth, maxDepth, alpha0, beta, Max(a, r), Max(e, r), Max(m, v));
      }
    }
  }

  /** Loop invariant of the minimiser, the mirror image of `MaxSearchWindow`. */
  lemma {:induction false} MinSearchWindow(b: Board, moves: seq<int>, depth: int, maxDepth: int,
                                           alpha: int, beta0: int, c: int, e: int, m: int)
    requires EmptyCells(b, moves)
    requires MinusInfinity <= alpha < beta0 <= PlusInfinity
    requires c == Min(beta0, e) && alpha < c
    requires beta0 <= m ==> beta0 <= e <= m
    requires m < beta0 ==> e == m
    ensures Window(MinSearch(b, moves, depth, alpha, c, maxDepth, e), PlainMin(b, moves, depth, maxDepth, m), alpha, beta0)
    decreases |AvailableMoves(b)|, 0, |moves|
  {
    if moves != [] {
      var p := moves[0];
      PlaceShrinks(b, p, X);
      var child := b[p := X];
      AlphaBetaWindow(child, depth + 1, true, alpha, c, maxDepth);
      var r := Minimax(child, depth + 1, true, alpha, c, maxDepth);
      var v := PlainValue(child, depth + 1, true, maxDepth);
      if Min(c, r) <= alpha {
        PlainMinAtMostBest(b, moves[1..], depth, maxDepth, Min(m, v));
      } else {
        MinSearchWindow(b, moves[1..], depth, maxDepth, alpha, beta0, Min(c, r), Min(e, r), Min(m, v));
      }
    }
  }

  /** With the full window (-Infinity, Infinity), as every root call uses it,
      pruning never changes the value. */
  lemma AlphaBetaAgrees(b: Board, depth: int, isMax: bool, maxDepth: int)
    requires Horizon(b, depth)
    ensures Minimax(b, depth, isMax, MinusInfinity, PlusInfinity, maxDepth) == PlainValue(b, depth, isMax, maxDepth)
  {
    AlphaBetaWindow(b, depth, isMax, MinusInfinity, PlusInfinity, maxDepth);
    PlainValueBounds(b, depth, isMax, maxDepth);
  }

  // ---------------------------------------------------------------------
  // Plain minimax takes the best child
  // ---------------------------------------------------------------------

  /** The maximiser's fold is at least `best`, at least every reply's value,
      and is `best` or one of those values. */
  lemma {:induction false} PlainMaxFold(b: Board, moves: seq<int>, depth: int, maxDepth: int, best: int)
    requires EmptyCells(b, moves)
    ensures var r := PlainMax(b, moves, depth, maxDepth, best);
      && r >= best
      && (forall i | 0 <= i < |moves| :: PlainValue(b[moves[i] := O], depth + 1, false, maxDepth) <= r)
      && (r == best || exists i | 0 <= i < |moves| :: r == PlainValue(b[moves[i] := O], depth + 1, false, maxDepth))
    decreases |moves|
  {
    if moves != [] {
      PlaceShrinks(b, moves[0], O);
      var v := PlainValue(b[moves[0] := O], depth + 1, false, maxDepth);
      PlainMaxFold(b, moves[1..], depth, maxDepth, Max(best, v));
      var r := PlainMax(b, moves, depth, maxDepth, best);
      forall i | 0 <= i < |moves|
        ensures PlainValue(b[moves[i] := O], depth + 1, false, maxDepth) <= r
      {
        if i > 0 {
          assert moves[i] == moves[1..][i - 1];
        }
      }
      if r != best && r != v {
        var k :| 0 <= k < |moves[1..]| && r == PlainValue(b[moves[1..][k] := O], depth + 1, false, maxDepth);
        assert moves[1..][k] == moves[k + 1];
      }
    }
  }

  /** The minimiser's fold, the mirror image of `PlainMaxFold`. */
  lemma {:induction false} PlainMinFold(b: Board, moves: seq<int>, depth: int, maxDepth: int, best: int)
    requires EmptyCells(b, moves)
    ensures var r := PlainMin(b, moves, depth, maxDepth, best);
      && r <= best
      && (forall i | 0 <= i < |moves| :: r <= PlainValue(b[moves[i] := X], depth + 1, true, maxDepth))
      && (r == best || exists i | 0 <= i < |moves| :: r == PlainValue(b[moves[i] := X], depth + 1, true, maxDepth))
    decreases |moves|
  {
    if moves != [] {
      PlaceShrinks(b, moves[0], X);
      var v := PlainValue(b[moves[0] := X], depth + 1, true, maxDepth);
      PlainMinFold(b, moves[1..], depth, maxDepth, Min(best, v));
      var r := PlainMin(b, moves, depth, maxDepth, best);
      forall i | 0 <= i < |moves|
        ensures r <= PlainValue(b[moves[i] := X], depth + 1, true, maxDepth)
      {
        if i > 0 {
          assert moves[i] == moves[1..][i - 1];
        }
      }
      if r != best && r != v {
        var k :| 0 <= k < |moves[1..]| && r == PlainValue(b[moves[1..][k] := X], depth + 1, true, maxDepth);
        assert moves[1..][k] == moves[k + 1];
      }
    }
  }

  /** At an open position where O moves, the plain value is the largest value
      among O's placements in the empty cells. */
  lemma PlainMaxIsBestChild(b: Board, depth: int, maxDepth: int)
    requires Horizon(b, depth) && !Settled(b, depth, maxDepth)
    ensures forall p | 0 <= p < 9 && b[p] == Empty ::
      PlainValue(b[p := O], depth + 1, false, maxDepth) <= PlainValue(b, depth, true, maxDepth)
    ensures exists p | 0 <= p < 9 && b[p] == Empty ::
      PlainValue(b[p := O], depth + 1, false, maxDepth) == PlainValue(b, depth, true, maxDepth)
  {
    var moves := AvailableMoves(b);
    OpenHasMoves(b, depth, maxDepth);
    PlainMaxFold(b, moves, depth, maxDepth, MinusInfinity);
    forall p | 0 <= p < 9 && b[p] == Empty
      ensures PlainValue(b[p := O], depth + 1, false, maxDepth) <= PlainValue(b, depth, true, maxDepth)
    {
      assert p in moves;
    }
    HorizonStep(b, depth, moves[0], O);
    PlainValueBounds(b[moves[0] := O], depth + 1, false, maxDepth);
    var i :| 0 <= i < |moves| && PlainValue(b, depth, true, maxDepth) == PlainValue(b[moves[i] := O], depth + 1, false, maxDepth);
    assert b[moves[i]] == Empty;
  }

  /** At an open position where X moves, the plain value is the smallest value
      among X's placements in the empty cells. */
  lemma PlainMinIsBestChild(b: Board, depth: int, maxDepth: int)
    requires Horizon(b, depth) && !Settled(b, depth, maxDepth)
    ensures forall p | 0 <= p < 9 && b[p] == Empty ::
      PlainValue(b, depth, false, maxDepth) <= PlainValue(b[p := X], depth + 1, true, maxDepth)
    ensures exists p | 0 <= p < 9 && b[p] == Empty ::
      PlainValue(b[p := X], depth + 1, true, maxDepth) == PlainValue(b, depth, false, maxDepth)
  {
    var moves := AvailableMoves(b);
    OpenHasMoves(b, depth, maxDepth);
    PlainMinFold(b, moves, depth, maxDepth, PlusInfinity);
    forall p | 0 <= p < 9 && b[p] == Empty
      ensures PlainValue(b, depth, false, maxDepth) <= PlainValue(b[p := X], depth + 1, true, maxDepth)
    {
      assert p in moves;
    }
    HorizonStep(b, depth, moves[0], X);
    PlainValueBounds(b[moves[0] := X], depth + 1, true, maxDepth);
    var i :| 0 <= i < |moves| && PlainValue(b, depth, false, maxDepth) == PlainValue(b[moves[i] := X], depth + 1, true, maxDepth);
    assert b[moves[i]] == Empty;
  }
}
