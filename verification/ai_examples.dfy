/** The two positions the game's unit tests put to the hard AI, proved from
    the search's general properties rather than by running the search. */
module AiExamples {
  import opened Rules
  import opened Search
  import opened AiPlayer

  /** Where O is to move and the search goes on, O cannot be worse off than
      losing to X's next reply. */
  lemma OpenMaxAtLeast(b: Board, depth: int, maxDepth: int)
    requires Horizon(b, depth) && !Settled(b, depth, maxDepth)
    ensures PlainValue(b, depth, true, maxDepth) >= depth - 9
  {
    OpenHasMoves(b, depth, maxDepth);
    var p := AvailableMoves(b)[0];
    HorizonStep(b, depth, p, O);
    PlainValueBounds(b[p := O], depth + 1, false, maxDepth);
    PlainMaxIsBestChild(b, depth, maxDepth);
  }

  /** `b` holds the cells listed in `t`, stated cell by cell so that the
      search over `b` is reasoned about rather than evaluated. */
  predicate Shows(b: Board, t: seq<Cell>)
    requires |t| == 9
  {
    forall i | 0 <= i < 9 :: b[i] == t[i]
  }

  /** A board none of whose eight lines is complete has no winner. */
  lemma NoLineComplete(b: Board)
    requires !Complete(b, Line(0, 1, 2)) && !Complete(b, Line(3, 4, 5)) && !Complete(b, Line(6, 7, 8))
    requires !Complete(b, Line(0, 3, 6)) && !Complete(b, Line(1, 4, 7)) && !Complete(b, Line(2, 5, 8))
    requires !Complete(b, Line(0, 4, 8)) && !Complete(b, Line(2, 4, 6))
    ensures CheckWinner(b) == NoWinner
  {
    forall j | 0 <= j < |WinningLines|
      ensures !Complete(b, WinningLines[j])
    {
      assert j == 0 || j == 1 || j == 2 || j == 3 || j == 4 || j == 5 || j == 6 || j == 7;
    }
  }

  /** At a position where X is to move and the search goes on, if no reply of
      X ends the game at once then O loses nothing before its next move. */
  lemma NoImmediateLoss(c: Board, depth: int, maxDepth: int)
    requires Horizon(c, depth) && !Settled(c, depth, maxDepth)
    requires forall q | 0 <= q < 9 && c[q] == Empty :: !Settled(c[q := X], depth + 1, maxDepth)
    ensures PlainValue(c, depth, false, maxDepth) >= depth - 8
  {
    var q := BestReply(c, depth, maxDepth);
    HorizonStep(c, depth, q, X);
    OpenMaxAtLeast(c[q := X], depth + 1, maxDepth);
  }

  /** A reply of X that achieves the value of an open position. */
  lemma BestReply(c: Board, depth: int, maxDepth: int) returns (q: int)
    requires Horizon(c, depth) && !Settled(c, depth, maxDepth)
    ensures 0 <= q < 9 && c[q] == Empty
    ensures PlainValue(c[q := X], depth + 1, true, maxDepth) == PlainValue(c, depth, false, maxDepth)
  {
    PlainMinIsBestChild(c, depth, maxDepth);
    q :| 0 <= q < 9 && c[q] == Empty
      && PlainValue(c[q := X], depth + 1, true, maxDepth) == PlainValue(c, depth, false, maxDepth);
  }

  /** At a position where X is to move and can complete a line with `q`, O's
      value is that of losing on the next ply. */
  lemma ImmediateLoss(c: Board, depth: int, maxDepth: int, q: int)
    requires Horizon(c, depth) && !Settled(c, depth, maxDepth)
    requires 0 <= q < 9 && c[q] == Empty && CheckWinner(c[q := X]) == Winner(X, WinningLines[0])
    ensures PlainValue(c, depth, false, maxDepth) <= depth - 9
  {
    PlainMinIsBestChild(c, depth, maxDepth);
  }

  /** After O takes cell 2 of `X X _ / _ O _ / _ _ _`, neither the board nor
      any reply of X ends the game. */
  lemma BlockedBoardOpen(c: Board)
    requires Shows(c, [X, X, O, Empty, O, Empty, Empty, Empty, Empty])
    ensures Horizon(c, 0) && !Settled(c, 0, 9)
    ensures forall q | 0 <= q < 9 && c[q] == Empty :: !Settled(c[q := X], 1, 9)
  {
    NoLineComplete(c);
    assert c[3] == Empty;
    forall q | 0 <= q < 9 && c[q] == Empty
      ensures !Settled(c[q := X], 1, 9)
    {
      var d := c[q := X];
      NoLineComplete(d);
      assert d[3] == Empty || d[5] == Empty;
    }
  }

  /** After O takes cell 2 of `X X _ / _ O _ / _ _ _`, X has no immediate win:
      O's value is at least -8. */
  lemma BlockingScore(b: Board)
    requires Shows(b, [X, X, Empty, Empty, O, Empty, Empty, Empty, Empty])
    ensures PlainScore(b, 2, 9) >= -8
  {
    BlockedBoardOpen(b[2 := O]);
    NoImmediateLoss(b[2 := O], 0, 9);
  }

  /** In `X X _ / _ O _ / _ _ _`, O playing elsewhere than cell 2 leaves an
      open board on which X completes the top row with cell 2. */
  lemma UnblockedBoardLoses(b: Board, p: int)
    requires Shows(b, [X, X, Empty, Empty, O, Empty, Empty, Empty, Empty])
    requires 0 <= p < 9 && b[p] == Empty && p != 2
    ensures Horizon(b[p := O], 0) && !Settled(b[p := O], 0, 9)
    ensures CheckWinner(b[p := O][2 := X]) == Winner(X, WinningLines[0])
  {
    var c := b[p := O];
    NoLineComplete(c);
    assert c[2] == Empty;
    FirstCompleteLineWins(c[2 := X], 0);
  }

  /** In `X X _ / _ O _ / _ _ _`, any O move other than cell 2 lets X win at
      once: its value is at most -9. */
  lemma LeavingThreatScore(b: Board)
    requires Shows(b, [X, X, Empty, Empty, O, Empty, Empty, Empty, Empty])
    ensures forall p | 0 <= p < 9 && b[p] == Empty && p != 2 :: PlainScore(b, p, 9) <= -9
  {
    forall p | 0 <= p < 9 && b[p] == Empty && p != 2
      ensures PlainScore(b, p, 9) <= -9
    {
      UnblockedBoardLoses(b, p);
      ImmediateLoss(b[p := O], 0, 9, 2);
    }
  }

  /** Unit test "Hard AI should block immediate threat". */
  lemma HardBlocksImmediateThreat(b: Board, first: Sample, second: Sample)
    requires Shows(b, [X, X, Empty, Empty, O, Empty, Empty, Empty, Empty])
    requires first.Valid() && second.Valid()
    ensures GetAIMove(b, Hard, first, second) == 2
  {
    BlockingScore(b);
    LeavingThreatScore(b);
    FirstBestIsPicked(b, Hard, first, second, 2);
  }

  /** In `O O _ / X X _ / _ _ _`, O taking cell 2 completes the top row: the
      best value there is. */
  lemma WinningScore(b: Board)
    requires Shows(b, [O, O, Empty, X, X, Empty, Empty, Empty, Empty])
    ensures PlainScore(b, 2, 9) == 10
  {
    FirstCompleteLineWins(b[2 := O], 0);
  }

  /** Unit test "Hard AI should take winning move". */
  lemma HardTakesWinningMove(b: Board, first: Sample, second: Sample)
    requires Shows(b, [O, O, Empty, X, X, Empty, Empty, Empty, Empty])
    requires first.Valid() && second.Valid()
    ensures GetAIMove(b, Hard, first, second) == 2
  {
    WinningScore(b);
    forall q | 0 <= q < 9 && b[q] == Empty
      ensures PlainScore(b, q, 9) <= 10
    {
      RootScoreAgrees(b, q, 9);
    }
    FirstBestIsPicked(b, Hard, first, second, 2);
  }
}
