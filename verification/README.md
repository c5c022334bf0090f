# Tic-tac-toe game core, modelled in Dafny

This project models the core of a tic-tac-toe game in which a player either
plays an AI opponent or plays another wallet holder over a small server.

- **Game rules** (module `Rules`):
  - the eight winning lines in their fixed scan order;
  - the winner check, which reports the first complete line;
  - draw detection;
  - the list of empty cells.
- **AI search** (module `Search`): the depth-capped minimax with alpha-beta
  pruning exactly as the source runs it (O maximises, X minimises, a win
  scores `10 - depth`, a loss `depth - 10`, a draw or a cut-off 0). Beside it
  is a plain minimax without pruning, which serves as the reference.
- **Move choice** (module `AiPlayer`), `getAIMove`:
  - easy picks a random empty cell;
  - medium flips a coin between a random cell and a depth-5 search;
  - hard runs a depth-9 search.

  The root loop keeps the first move of strictly greater value.
- **In-place search** (module `SearchInPlace`): the same search on one mutable
  nine-cell array, placing a mark and clearing it again, as the source does.
- **Display helpers** (module `Format`): `formatAddress` and `calculateWinRate`.
- **Move sync** (module `GameMoves`): the pure logic of the `useGameMoves`
  hook.
  - It rebuilds the board from the server's move list, where position -1 is a
    turn skipped on timeout.
  - The turn follows the parity of the move count.
  - It covers the mount-time load of the cached list, the application of a
    fetched list, and the polling effect's reset.
  - For `makeMove`, it covers the guard and the local update after the
    server accepts a move.
- **Unit-test examples** (module `AiExamples`): the two hard-AI cases from
  the unit tests, proved from the general lemmas rather than by evaluating
  the search.

Main results:

- **Alpha-beta agrees with plain minimax.** From the full window
  (-Infinity, +Infinity), the pruned search returns the plain minimax value.
  The proof goes through the fail-soft window property for every window.
- **The search picks the first best cell.** When the AI searches, it returns
  exactly the lowest-index empty cell of maximal minimax value.
- **The unit-test positions.** Both hard-AI positions from the unit tests
  come out as the tests expect.
- **Moves stay in step.** A move applied locally keeps the hook in step with
  the server's list once that list records it.
- **Fetching is idempotent.** Applying the same fetch twice changes nothing
  more.
- **Cache and fetch agree.** A reload from the cache reproduces what the
  fetch produced.

Modelling choices:

- A cell is `Empty | X | O`; `Empty` is the source's `null`.
- `-Infinity` and `Infinity` become the integers -1000 and 1000. Every
  score lies in [-10, 10].
- `Math.random()` becomes an explicit `Sample(num, den)`: the rational
  `num / den` in [0, 1).
  - `Math.floor(r * n)` is computed exactly.
  - Easy uses the first draw for the index. Medium uses the first draw for
    the coin and the second for the index, as the source calls
    `Math.random()` twice.
- The score bounds hold under `Horizon(b, depth)`: depth plus the number of
  empty cells is at most ten. This covers every call the game makes, which
  always start at depth 0.
- For the hook, storage is the `cache` field and the server's answers are
  parameters. `Date.now()` is also a parameter.

## Model

| member | source | states |
|---|---|---|
| Rules.ScanLines | src/utils/game.ts:33-51 | scanning the eight lines from position k of the fixed order (rows, columns, then diagonals, the constant `WinningLines`): "no winner" exactly when no line from k on is complete; a winner is a mark holding all three cells of a line from k on, every line between k and it being incomplete |
| Rules.CheckWinner | src/utils/game.ts:33-52 | the verdict is "no winner" exactly when none of the eight lines is complete; otherwise it names a mark holding all three cells of a line, and every line earlier in the scan order is incomplete |
| Rules.FirstCompleteLineWins | src/utils/game.ts:44-52 | the first complete line in scan order decides both the winner and the line reported, whatever else is on the board |
| Rules.CheckDraw | src/utils/game.ts:54-56 | a draw exactly when every cell is filled and no line is complete |
| Rules.AvailableMoves | src/utils/game.ts:58-60 | the list holds every empty cell and only empty cells, strictly ascending, at most nine |
| Rules.FullIffNoMoves | src/utils/game.ts:54-60 | the board is full exactly when the move list is empty |
| Rules.PlaceShrinks | src/utils/game.ts:58-60 | filling an empty cell removes exactly one entry from the move list |
| Rules.CheckWinnerEmpty | src/utils/__tests__/game.test.ts:5-8 | the empty board has no winner |
| Rules.CheckWinnerTopRow | src/utils/__tests__/game.test.ts:10-17 | X on the top row wins with line 0-1-2 |
| Rules.CheckWinnerMiddleColumn | src/utils/__tests__/game.test.ts:19-26 | O in the middle column wins with line 1-4-7 |
| Rules.CheckWinnerDiagonal | src/utils/__tests__/game.test.ts:28-35 | X on the main diagonal wins with line 0-4-8 |
| Rules.CheckWinnerUnfinished | src/utils/__tests__/game.test.ts:37-44 | the unfinished board has no winner |
| Rules.CheckDrawExamples | src/utils/__tests__/game.test.ts:47-79 | only the full board without a complete line is a draw among the four test boards |
| Rules.AvailableMovesEmpty | src/utils/__tests__/game.test.ts:82-85 | every index is free on the empty board |
| Rules.AvailableMovesFull | src/utils/__tests__/game.test.ts:87-90 | no index is free on a full board |
| Rules.AvailableMovesPartial | src/utils/__tests__/game.test.ts:92-100 | the partial test board frees 1, 3, 5 and 7 |
| Search.Settled | src/utils/game.ts:70-74 | no ensures: the stopping test (a winner, a draw, or depth at least the cap); its consequence is stated by Search.OpenHasMoves |
| Search.OpenHasMoves | src/utils/game.ts:74-76 | a position where the search goes on has at least one empty cell to try |
| Search.SettledScore | src/utils/game.ts:70-74 | no ensures: O winning scores 10 - depth, X winning depth - 10, anything else 0; its range is stated by Search.SettledScoreBounds |
| Search.SettledScoreBounds | src/utils/game.ts:70-74 | for depths 0..10 a settled score lies in [depth-10, 10-depth] |
| Search.Minimax | src/utils/game.ts:62-101 | no ensures: the pruned search as written; its properties are stated by Search.MinimaxBounds, Search.AlphaBetaWindow and Search.AlphaBetaAgrees |
| Search.MaxSearch | src/utils/game.ts:78-88 | no ensures: the maximiser's loop with its running alpha and cut-off; see Search.MaxSearchBounds and Search.MaxSearchWindow |
| Search.MinSearch | src/utils/game.ts:89-100 | no ensures: the minimiser's loop with its running beta and cut-off; see Search.MinSearchBounds and Search.MinSearchWindow |
| Search.PlainValueBounds | src/utils/game.ts:62-101 | within the horizon, the plain minimax value lies in [depth-10, 10-depth] |
| Search.MinimaxBounds | src/utils/game.ts:62-101 | within the horizon, the pruned search's value lies in [depth-10, 10-depth] for any window |
| Search.MaxSearchBounds | src/utils/game.ts:78-88 | the maximiser's loop stays within the same bounds |
| Search.MinSearchBounds | src/utils/game.ts:89-100 | the minimiser's loop stays within the same bounds |
| Search.AlphaBetaWindow | src/utils/game.ts:62-101 | fail-soft alpha-beta: for every window the pruned result equals the true value inside the window and lies between the bound and the true value outside it |
| Search.MaxSearchWindow | src/utils/game.ts:78-88 | the maximiser's loop, with its running alpha and cut-off, keeps the window property against the plain maximum |
| Search.MinSearchWindow | src/utils/game.ts:89-100 | the minimiser's loop, with its running beta and cut-off, keeps the window property against the plain minimum |
| Search.AlphaBetaAgrees | src/utils/game.ts:62-101 | from the full window the pruned search returns exactly the plain minimax value |
| Search.PlainMaxIsBestChild | src/utils/game.ts:78-88 | at an open position with O to move, the value is at least every child's value and equals some child's value |
| Search.PlainMinIsBestChild | src/utils/game.ts:89-100 | at an open position with X to move, the value is at most every child's value and equals some child's value |
| AiPlayer.Sample.Scale | src/utils/game.ts:109 | `Math.floor(Math.random() * n)` for a draw in [0, 1) is an index below n whenever n is positive (also used at line 115) |
| AiPlayer.DepthCap | src/utils/game.ts:120 | no ensures: the depth cap, 9 on hard and 5 otherwise; its use is stated by AiPlayer.SearchPicksFirstBest |
| AiPlayer.RootScore | src/utils/game.ts:124-127 | no ensures: the alpha-beta score of O playing at a cell, from depth 0 with the full window; see AiPlayer.RootScoreAgrees |
| AiPlayer.BestMove | src/utils/game.ts:121-135 | the root loop returns the move it started with or one of the moves still to scan; which one is stated by AiPlayer.BestMoveKeepsFirstMaximum |
| AiPlayer.SearchMove | src/utils/game.ts:118-135 | the search branch of `getAIMove` on a board that is not full returns an empty cell; see AiPlayer.SearchMoveFirstBest for which |
| AiPlayer.GetAIMove | src/utils/game.ts:103-136 | -1 exactly when the board is full, otherwise an empty cell, for every difficulty and every random draw |
| AiPlayer.RootScoreAgrees | src/utils/game.ts:121-127 | each root score, searched with the full window, is the plain minimax value of O playing there and lies in [-10, 10] |
| AiPlayer.BestMoveKeepsFirstMaximum | src/utils/game.ts:121-135 | the root loop ends on the first move whose score is maximal among all moves |
| AiPlayer.SearchMoveFirstBest | src/utils/game.ts:118-135 | the search's move is an empty cell of maximal plain minimax value, and every lower empty cell has a strictly smaller value |
| AiPlayer.SearchPicksFirstBest | src/utils/game.ts:103-136 | on hard, and on medium when the coin says search, the move is the first empty cell of maximal plain minimax value at the difficulty's depth (9 or 5) |
| AiPlayer.FirstBestIsPicked | src/utils/game.ts:103-136 | conversely, an empty cell of maximal value with every lower empty cell strictly worse is the move returned |
| AiPlayer.EasyCanPickAnyEmptyCell | src/utils/game.ts:107-110 | every empty cell is the easy AI's move for some draw of the random number |
| AiPlayer.MediumCoinCanPickAnyEmptyCell | src/utils/game.ts:112-117 | on medium, once the coin falls below one half, every empty cell is the move for some second draw |
| AiPlayer.ScaleExact | src/utils/game.ts:109 | the draw j/n scaled to n entries selects index j |
| SearchInPlace.MinimaxInPlace | src/utils/game.ts:62-101 | the array search leaves the array as it found it and returns the functional search's value |
| SearchInPlace.MaxLoopInPlace | src/utils/game.ts:78-88 | the array loop that places O, recurses and clears the cell restores the array and computes the maximiser's value |
| SearchInPlace.MinLoopInPlace | src/utils/game.ts:89-100 | the array loop that places X, recurses and clears the cell restores the array and computes the minimiser's value |
| SearchInPlace.GetAIMoveInPlace | src/utils/game.ts:103-136 | the array version of the move choice leaves the board as it found it and returns the functional model's move |
| AiExamples.HardBlocksImmediateThreat | src/utils/__tests__/game.test.ts:123-134 | on X X _ / _ O _ / _ _ _ the hard AI plays cell 2 whatever the random draws |
| AiExamples.HardTakesWinningMove | src/utils/__tests__/game.test.ts:136-146 | on O O _ / X X _ / _ _ _ the hard AI plays cell 2 whatever the random draws |
| AiExamples.BlockingScore | src/utils/__tests__/game.test.ts:123-134 | blocking at cell 2 is worth at least -8 to O |
| AiExamples.LeavingThreatScore | src/utils/__tests__/game.test.ts:123-134 | any other O move is worth at most -9, since X completes the top row next |
| Format.FormatAddress | src/utils/game.ts:138-141 | empty stays empty; otherwise the result is the first six characters, "...", and the last four, each clipped to the address's length |
| Format.FormatAddressKeepsEnds | src/utils/game.ts:138-141 | an address of ten or more characters shows as thirteen, and it is the shown head, a hidden middle and the shown tail |
| Format.FormatAddressExamples | src/utils/__tests__/game.test.ts:104-111 | the test address shortens to 0x1234...5678 and the empty string stays empty |
| Format.WinRate | src/utils/game.ts:143-147 | 0 with no games; otherwise at most 100 and within half a percent of 100 * wins / total, halves rounded up |
| Format.WinRateUnique | src/utils/game.ts:143-147 | any integer within half a percent of the exact rate (halves up) is the rate reported |
| Format.WinRateExamples | src/utils/__tests__/game.test.ts:113-119 | (5,5) gives 50, (1,0) gives 100, (0,1) gives 0, (0,0) gives 0 and (1,2) gives 33 |
| GameMoves.Put | src/hooks/useGameMoves.ts:95-101 | no ensures: one replay step, setting the cell of a move in 0..8 and skipping any other; see GameMoves.ReplaySkipsOutOfRange |
| GameMoves.Replay | src/hooks/useGameMoves.ts:37-42 | no ensures: the board rebuilt by applying the moves in order to the empty board; its meaning is stated by GameMoves.ReplayIsLastWrite and GameMoves.ReplayAppend |
| GameMoves.ReplayAppend | src/hooks/useGameMoves.ts:95-101 | replaying one more move is one more replay step on the board of the moves before it |
| GameMoves.ReplayIsLastWrite | src/hooks/useGameMoves.ts:95-101 | a replayed cell is empty exactly when no move was made there, and otherwise holds the player of the last move there |
| GameMoves.ReplaySkipsOutOfRange | src/hooks/useGameMoves.ts:96-100 | a move outside 0..8, a turn skipped on timeout, leaves the board unchanged |
| GameMoves.NextPlayerAlternates | src/hooks/useGameMoves.ts:104 | X moves first and the turn alternates with every recorded move |
| GameMoves.NextPlayer | src/hooks/useGameMoves.ts:44 | no ensures: X after an even number of moves, O after an odd one (same rule at line 104); see GameMoves.NextPlayerAlternates |
| GameMoves.LoadCached | src/hooks/useGameMoves.ts:29-52 | with syncing on and a non-empty cached list, the hook is in step with it and keeps its last timestamp; otherwise nothing changes |
| GameMoves.LoadCachedIdempotent | src/hooks/useGameMoves.ts:29-52 | loading the cache twice is loading it once |
| GameMoves.Changed | src/hooks/useGameMoves.ts:89-93 | no ensures: the reply differs in move count, or carries a positive last timestamp other than the one kept; its use is stated by GameMoves.ApplyFetched and GameMoves.FetchIdempotent |
| GameMoves.Adopt | src/hooks/useGameMoves.ts:95-110 | the hook ends in step with the list (board replayed, turn by parity, count the length), takes the last move's timestamp when there is one and keeps the old one otherwise, and leaves the submission flag and cache alone |
| GameMoves.ApplyFetched | src/hooks/useGameMoves.ts:55-116 | a failed fetch or syncing off changes nothing; otherwise the list is cached, the count becomes the list's length, a positive last timestamp is kept, an empty list keeps the old timestamp, the submission flag never changes, and a changed list puts the hook in step with it |
| GameMoves.FetchIdempotent | src/hooks/useGameMoves.ts:88-111 | applying the same reply twice is applying it once |
| GameMoves.CachedReloadMatchesFetch | src/hooks/useGameMoves.ts:29-52 | after a fetch that changed the state, a reload from the cache reproduces that state |
| GameMoves.Disable | src/hooks/useGameMoves.ts:119-126 | with syncing off the hook is in step with the empty list, and the last timestamp is kept |
| GameMoves.CanSubmit | src/hooks/useGameMoves.ts:139-145 | no ensures: the guard of `makeMove`; that it is exactly the condition for acceptance is stated by GameMoves.MakeMove |
| GameMoves.MakeMove | src/hooks/useGameMoves.ts:138-189 | accepted exactly when syncing is on, there is an address, nothing is being submitted, the cell is on the board and empty, it is this player's turn and the server accepts; a refusal changes nothing; an acceptance fills the cell, passes the turn, bumps the count and stamps the time |
| GameMoves.LocalMoveMatchesReplay | src/hooks/useGameMoves.ts:164-173 | a move applied locally keeps the hook in step with the server's list once that list records the same move |
| GameMoves.NoSecondMoveInARow | src/hooks/useGameMoves.ts:139-170 | right after an accepted move, a second move by the same player is refused whatever the server would say |
| GameMoves.InitialInSync | src/hooks/useGameMoves.ts:19-23 | a fresh hook is in step with the empty move list |

## Left out

- React state, effects and re-rendering are not modelled. Each hook operation is a function from the state before to the state after.
  - The 2-second polling interval, the 200 ms follow-up fetch and concurrent calls are left out.
  - `isSubmitting` is true only while a request is in flight, so between calls it is always false.
- `fetchMoves` captures `lastMoveTimestamp` from the render in which it was created, because that value is missing from the `useCallback` dependency list. The model always compares against the current timestamp.
- The network, JSON encoding and parsing, and `localStorage` are not modelled.
  - A failed request, a reply without `success`, or one without a move list is the single `Failed` reply.
  - An unreadable or absent cache is `None`.
  - A failing cache write is not modelled.
  - The server's recovery query string is not modelled.
  - `skipTurn` only sends a request and schedules a fetch, so it has nothing to model beyond `ApplyFetched`.
- The `address` field of a recorded move is not modelled; the hook never reads it.
- Format.WinRate: computes `Math.round(wins / total * 100)` exactly on rationals. It does not model floating-point error, and it takes wins and losses as natural numbers.
- `Math.random()` and `Date.now()` are parameters.
- Format.FormatAddress: a character is a Unicode scalar value, while JavaScript's `slice` counts UTF-16 code units. The two differ on an address with characters outside the Basic Multilingual Plane (seven U+1F600 characters, say) and agree on ASCII addresses such as hex wallet addresses.
- Positions are integers in the model. In JavaScript a fractional position such as 0.5 passes the `>= 0 && <= 8` test (src/hooks/useGameMoves.ts:97), and the server accepts it too. Writing it sets a property that is not a cell, so the board stays as it was while the turn still advances. This case is not modelled.
- Search.PlainValueBounds and Search.MinimaxBounds: stated under the horizon condition (depth plus empty cells at most ten), which every call from `getAIMove` meets.
- The UI components, the API routes, the contract hooks, themes and sounds are not part of this model.
