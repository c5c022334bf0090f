/** How the AI opponent picks its move (`getAIMove`): a random empty cell on
    easy, a coin flip between that and the search on medium, and the search
    alone on hard. `Math.random()` is an explicit parameter. */
module AiPlayer {
  import opened Rules
  import opened Search
  import opened Arith

  datatype Difficulty = Easy | Medium | Hard

  /** One draw of `Math.random()`, as the rational `num / den`. */
  datatype Sample = Sample(num: nat, den: nat) {
    /** The draw lies in [0, 1). */
    predicate Valid() { num < den }

    /** `Math.random() < 0.5`. */
    predicate BelowHalf() { 2 * num < den }

    /** `Math.floor(Math.random() * n)`: an index into a list of `n` entries. */
    function Scale(n: nat): (k: nat)
      requires Valid()
      ensures n > 0 ==> k < n
    {
      ScaleBelow(num, den, n);
      num * n / den
    }
  }

  /** Flooring a fraction below one of `n` gives less than `n`. */
  lemma ScaleBelow(num: nat, den: nat, n: nat)
    requires num < den
    ensures n > 0 ==> num * n / den < n
  {
    if n > 0 {
      var k := num * n / den;
      assert k * den + num * n % den == num * n;
      MulBounds(den - num, n);
      MulNonnegative(k - n, den);
    }
  }

  /** Scaling the draw `j / n` to `n` entries gives back index `j`. */
  lemma ScaleExact(j: nat, n: nat)
    requires j < n
    ensures Sample(j, n).Scale(n) == j
  {
    var q := j * n / n;
    var r := j * n % n;
    assert q * n + r == j * n;
    assert (j - q) * n == r;
    MulBounds(j - q, n);
  }

  /** The search depth: 9 plies on hard, 5 when medium falls through to the search. */
  function DepthCap(difficulty: Difficulty): int {
    if difficulty == Hard then 9 else 5
  }

  /** The call uses the search rather than a random pick. */
  predicate Searches(difficulty: Difficulty, first: Sample) {
    difficulty == Hard || (difficulty == Medium && !first.BelowHalf())
  }

  /** The alpha-beta value of O playing at `p`, with the full window, as the
      root loop computes it. */
  function RootScore(b: Board, p: int, maxDepth: int): int
    requires 0 <= p < 9
  {
    Minimax(b[p := O], 0, false, MinusInfinity, PlusInfinity, maxDepth)
  }

  /** The plain minimax value of O playing at `p`. */
  function PlainScore(b: Board, p: int, maxDepth: int): int
    requires 0 <= p < 9
  {
    PlainValue(b[p := O], 0, false, maxDepth)
  }

  /** The root scores of `moves`, in order. */
  function RootScores(b: Board, moves: seq<int>, maxDepth: int): (s: seq<int>)
    requires EmptyCells(b, moves)
    ensures |s| == |moves|
    ensures forall j | 0 <= j < |moves| :: s[j] == RootScore(b, moves[j], maxDepth)
  {
    seq(|moves|, j requires 0 <= j < |moves| => RootScore(b, moves[j], maxDepth))
  }

  /** The root loop from position `i` of `moves` on, `scores[j]` being the
      score of `moves[j]`: keep the first move whose score is strictly greater
      than every score seen before it. */
  function BestMove(moves: seq<int>, scores: seq<int>, i: nat, bestMove: int, bestValue: int): (r: int)
    requires |scores| == |moves| && i <= |moves|
    ensures r == bestMove || r in moves[i..]
    decreases |moves| - i
  {
    if i == |moves| then bestMove
    else if scores[i] > bestValue then BestMove(moves, scores, i + 1, moves[i], scores[i])
    else BestMove(moves, scores, i + 1, bestMove, bestValue)
  }

  /** `getAIMove(board, difficulty)`, with `first` and `second` the successive
      results of `Math.random()`: -1 when the board is full, otherwise an empty cell. */
  function GetAIMove(b: Board, difficulty: Difficulty, first: Sample, second: Sample): (r: int)
    requires first.Valid() && second.Valid()
    ensures r == -1 <==> Full(b)
    ensures r != -1 ==> 0 <= r < 9 && b[r] == Empty
  {
    FullIffNoMoves(b);
    var moves := AvailableMoves(b);
    if |moves| == 0 then -1
    else if difficulty == Easy then moves[first.Scale(|moves|)]
    else if difficulty == Medium && first.BelowHalf() then moves[second.Scale(|moves|)]
    else SearchMove(b, DepthCap(difficulty))
  }

  /** The search branch of `getAIMove`: the root loop over the empty cells in
      ascending order, starting from the first one with value -Infinity. */
  function SearchMove(b: Board, maxDepth: int): (r: int)
    requires !Full(b)
    ensures 0 <= r < 9 && b[r] == Empty
  {
    FullIffNoMoves(b);
    var moves := AvailableMoves(b);
    BestMove(moves, RootScores(b, moves, maxDepth), 0, moves[0], MinusInfinity)
  }

  /** At an empty cell the root's alpha-beta score is the plain minimax score,
      and it lies in [-10, 10]. */
  lemma RootScoreAgrees(b: Board, p: int, maxDepth: int)
    requires 0 <= p < 9 && b[p] == Empty
    ensures RootScore(b, p, maxDepth) == PlainScore(b, p, maxDepth)
    ensures -10 <= RootScore(b, p, maxDepth) <= 10
  {
    PlaceShrinks(b, p, O);
    AlphaBetaAgrees(b[p := O], 0, false, maxDepth);
    PlainValueBounds(b[p := O], 0, false, maxDepth);
  }

  /** Invariant of the root loop once a first move is kept: the kept move is
      the first of the moves seen whose score is maximal among them. */
  lemma {:induction false} BestMoveKeepsFirstMaximum(moves: seq<int>, scores: seq<int>, i: nat, t: nat)
    returns (u: nat)
    requires |scores| == |moves| && 1 <= i <= |moves| && t < i
    requires forall j | 0 <= j < i :: scores[j] <= scores[t]
    requires forall j | 0 <= j < t :: scores[j] < scores[t]
    ensures u < |moves|
    ensures BestMove(moves, scores, i, moves[t], scores[t]) == moves[u]
    ensures forall j | 0 <= j < |moves| :: scores[j] <= scores[u]
    ensures forall j | 0 <= j < u :: scores[j] < scores[u]
    decreases |moves| - i
  {
    if i == |moves| {
      u := t;
    } else if scores[i] > scores[t] {
      u := BestMoveKeepsFirstMaximum(moves, scores, i + 1, i);
    } else {
      u := BestMoveKeepsFirstMaximum(moves, scores, i + 1, t);
    }
  }

  /** The root loop started on the first move with value -Infinity keeps
      the first move of maximal score, provided every score beats -Infinity. */
  lemma RootLoopKeepsFirstMaximum(moves: seq<int>, scores: seq<int>) returns (u: nat)
    requires |scores| == |moves| > 0
    requires forall j | 0 <= j < |scores| :: scores[j] > MinusInfinity
    ensures u < |moves|
    ensures BestMove(moves, scores, 0, moves[0], MinusInfinity) == moves[u]
    ensures forall j | 0 <= j < |moves| :: scores[j] <= scores[u]
    ensures forall j | 0 <= j < u :: scores[j] < scores[u]
  {
    assert BestMove(moves, scores, 0, moves[0], MinusInfinity) == BestMove(moves, scores, 1, moves[0], scores[0]);
    u := BestMoveKeepsFirstMaximum(moves, scores, 1, 0);
  }

  /** The root scores of empty cells are their plain minimax values, all above -Infinity. */
  lemma RootScoresArePlain(b: Board, moves: seq<int>, maxDepth: int)
    requires EmptyCells(b, moves)
    ensures forall j | 0 <= j < |moves| ::
      RootScores(b, moves, maxDepth)[j] == PlainScore(b, moves[j], maxDepth) > MinusInfinity
  {
    forall j | 0 <= j < |moves|
      ensures RootScores(b, moves, maxDepth)[j] == PlainScore(b, moves[j], maxDepth) > MinusInfinity
    {
      RootScoreAgrees(b, moves[j], maxDepth);
    }
  }

  /** The search's move is the lowest-index empty cell whose plain minimax
      value is maximal: pruning and the root loop together pick exactly what
      a full minimax with left-to-right tie-breaking picks. */
  lemma SearchMoveFirstBest(b: Board, maxDepth: int)
    requires !Full(b)
    ensures var r := SearchMove(b, maxDepth);
      && (forall p | 0 <= p < 9 && b[p] == Empty :: PlainScore(b, p, maxDepth) <= PlainScore(b, r, maxDepth))
      && (forall p | 0 <= p < r && b[p] == Empty :: PlainScore(b, p, maxDepth) < PlainScore(b, r, maxDepth))
  {
    FullIffNoMoves(b);
    var moves := AvailableMoves(b);
    var scores := RootScores(b, moves, maxDepth);
    RootScoresArePlain(b, moves, maxDepth);
    var u := RootLoopKeepsFirstMaximum(moves, scores);
    var r := SearchMove(b, maxDepth);
    assert r == moves[u];
    forall p | 0 <= p < 9 && b[p] == Empty
      ensures PlainScore(b, p, maxDepth) <= PlainScore(b, r, maxDepth)
      ensures p < r ==> PlainScore(b, p, maxDepth) < PlainScore(b, r, maxDepth)
    {
      assert p in moves;
      var j :| 0 <= j < |moves| && moves[j] == p;
    }
  }

  /** When the search decides, `getAIMove` returns the search's move: the
      first empty cell of maximal plain minimax value at the difficulty's depth. */
  lemma SearchPicksFirstBest(b: Board, difficulty: Difficulty, first: Sample, second: Sample)
    requires first.Valid() && second.Valid()
    requires !Full(b) && Searches(difficulty, first)
    ensures var r := GetAIMove(b, difficulty, first, second);
      && 0 <= r < 9 && b[r] == Empty
      && (forall p | 0 <= p < 9 && b[p] == Empty ::
            PlainScore(b, p, DepthCap(difficulty)) <= PlainScore(b, r, DepthCap(difficulty)))
      && (forall p | 0 <= p < r && b[p] == Empty ::
            PlainScore(b, p, DepthCap(difficulty)) < PlainScore(b, r, DepthCap(difficulty)))
  {
    FullIffNoMoves(b);
    SearchMoveFirstBest(b, DepthCap(difficulty));
  }

  /** Conversely, an empty cell whose plain minimax value is maximal and
      strictly above that of every lower empty cell is the move the search makes. */
  lemma FirstBestIsPicked(b: Board, difficulty: Difficulty, first: Sample, second: Sample, p: int)
    requires first.Valid() && second.Valid() && Searches(difficulty, first)
    requires 0 <= p < 9 && b[p] == Empty
    requires forall q | 0 <= q < 9 && b[q] == Empty ::
      PlainScore(b, q, DepthCap(difficulty)) <= PlainScore(b, p, DepthCap(difficulty))
    requires forall q | 0 <= q < p && b[q] == Empty ::
      PlainScore(b, q, DepthCap(difficulty)) < PlainScore(b, p, DepthCap(difficulty))
    ensures GetAIMove(b, difficulty, first, second) == p
  {
    SearchPicksFirstBest(b, difficulty, first, second);
  }

  /** Every empty cell is the easy AI's move for some random draw. */
  lemma EasyCanPickAnyEmptyCell(b: Board, p: int, second: Sample)
    requires 0 <= p < 9 && b[p] == Empty && second.Valid()
    ensures exists s: Sample :: s.Valid() && GetAIMove(b, Easy, s, second) == p
  {
    var moves := AvailableMoves(b);
    assert p in moves;
    var j :| 0 <= j < |moves| && moves[j] == p;
    var s := Sample(j, |moves|);
    ScaleExact(j, |moves|);
    assert GetAIMove(b, Easy, s, second) == p;
  }

  /** On medium, when the coin falls below one half, every empty cell is the
      move for some second draw. */
  lemma MediumCoinCanPickAnyEmptyCell(b: Board, p: int, first: Sample)
    requires 0 <= p < 9 && b[p] == Empty && first.Valid() && first.BelowHalf()
    ensures exists s: Sample :: s.Valid() && GetAIMove(b, Medium, first, s) == p
  {
    var moves := AvailableMoves(b);
    assert p in moves;
    var j :| 0 <= j < |moves| && moves[j] == p;
    var s := Sample(j, |moves|);
    ScaleExact(j, |moves|);
    assert GetAIMove(b, Medium, first, s) == p;
  }
}
