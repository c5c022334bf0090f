/** The pure logic of the move-sync hook (`useGameMoves`): rebuilding the board
    from the recorded move list, whose turn it is, loading the cached list,
    applying a fetched list, and the guard and local update of a move the
    player submits. Storage, the network and the clock are parameters. */
module GameMoves {
  import opened Rules

  datatype Option<T> = None | Some(value: T)

  /** One recorded move. A position outside 0..8 (the server uses -1) is a
      turn skipped on timeout. The mover's address is not modelled. */
  datatype GameMove = GameMove(position: int, player: Mark, timestamp: int)

  /** The other player. */
  function Other(m: Mark): Mark {
    if m == X then O else X
  }

  /** Whose turn it is after `n` recorded moves, skipped turns included. */
  function NextPlayer(n: nat): Mark {
    if n % 2 == 0 then X else O
  }

  /** One step of the replay: a move on the board sets its cell, a skipped
      turn leaves the board alone. */
  function Put(b: Board, m: GameMove): Board {
    if 0 <= m.position <= 8 then b[m.position := m.player] else b
  }

  /** The board the move list describes: the moves applied in order to the
      empty board. */
  function Replay(ms: seq<GameMove>): Board
    decreases |ms|
  {
    if |ms| == 0 then EmptyBoard else Put(Replay(ms[..|ms| - 1]), ms[|ms| - 1])
  }

  /** Move `i` is the last move of `ms` at cell `p`. */
  predicate LastAt(ms: seq<GameMove>, p: int, i: int) {
    0 <= i < |ms| && ms[i].position == p && forall j | i < j < |ms| :: ms[j].position != p
  }

  /** The state the hook keeps, with the cached move list (`None` when storage
      holds nothing usable). */
  datatype Hook = Hook(
    board: Board,
    currentPlayer: Mark,
    isSubmitting: bool,
    lastMoveCount: int,
    lastMoveTimestamp: int,
    cache: Option<seq<GameMove>>)

  /** The hook's state when it is created. */
  function Initial(cache: Option<seq<GameMove>>): Hook {
    Hook(EmptyBoard, X, false, 0, 0, cache)
  }

  /** The hook's board, turn and move count agree with the move list. */
  predicate InSync(h: Hook, ms: seq<GameMove>) {
    h.board == Replay(ms) && h.currentPlayer == NextPlayer(|ms|) && h.lastMoveCount == |ms|
  }

  /** The player side of the hook: whether syncing is on, the wallet address
      and the symbol this player plays (`Empty` when it has none). */
  datatype Session = Session(enabled: bool, address: Option<string>, mySymbol: Cell)

  /** The outcome of a fetch: the move list, or `Failed` when the request
      failed, the reply did not say `success`, or it carried no list. */
  datatype Reply = Failed | Moves(moves: seq<GameMove>)

  /** The reply's list differs from what the hook has seen: another move
      count, or a positive last timestamp other than the one kept. */
  predicate Changed(h: Hook, ms: seq<GameMove>) {
    var latest := if |ms| > 0 then ms[|ms| - 1].timestamp else 0;
    |ms| != h.lastMoveCount || (latest != h.lastMoveTimestamp && latest > 0)
  }

  /** The board, turn, count and timestamp taken from a move list. */
  function Adopt(h: Hook, ms: seq<GameMove>): (r: Hook)
    ensures InSync(r, ms) && r.isSubmitting == h.isSubmitting && r.cache == h.cache
    ensures r.lastMoveTimestamp == if |ms| > 0 then ms[|ms| - 1].timestamp else h.lastMoveTimestamp
  {
    h.(board := Replay(ms), currentPlayer := NextPlayer(|ms|), lastMoveCount := |ms|,
       lastMoveTimestamp := if |ms| > 0 then ms[|ms| - 1].timestamp else h.lastMoveTimestamp)
  }

  /** The mount effect: with syncing on and a non-empty cached list, take the
      board, turn, count and last timestamp from it. */
  function LoadCached(h: Hook, enabled: bool): (r: Hook)
    ensures enabled && h.cache.Some? && |h.cache.value| > 0 ==>
      InSync(r, h.cache.value) && r.lastMoveTimestamp == h.cache.value[|h.cache.value| - 1].timestamp
    ensures !(enabled && h.cache.Some? && |h.cache.value| > 0) ==> r == h
    ensures r.cache == h.cache && r.isSubmitting == h.isSubmitting
  {
    if enabled && h.cache.Some? && |h.cache.value| > 0 then Adopt(h, h.cache.value) else h
  }

  /** `fetchMoves`: with syncing on and a list in the reply, cache the list
      and, when it changed, rebuild the state from it. */
  function ApplyFetched(h: Hook, enabled: bool, reply: Reply): (r: Hook)
    ensures !enabled || reply.Failed? ==> r == h
    ensures r.isSubmitting == h.isSubmitting
    ensures enabled && reply.Moves? ==>
      && r.cache == Some(reply.moves)
      && r.lastMoveCount == |reply.moves|
      && (|reply.moves| > 0 && reply.moves[|reply.moves| - 1].timestamp > 0 ==>
            r.lastMoveTimestamp == reply.moves[|reply.moves| - 1].timestamp)
      && (|reply.moves| == 0 ==> r.lastMoveTimestamp == h.lastMoveTimestamp)
    ensures enabled && reply.Moves? && Changed(h, reply.moves) ==> InSync(r, reply.moves)
    ensures enabled && reply.Moves? && !Changed(h, reply.moves) ==> r == h.(cache := Some(reply.moves))
  {
    if !enabled || reply.Failed? then h
    else
      var cached := h.(cache := Some(reply.moves));
      if Changed(h, reply.moves) then Adopt(cached, reply.moves) else cached
  }

  /** The polling effect with syncing off: an empty board, X to move, no
      moves counted. The last timestamp is kept. */
  function Disable(h: Hook): (r: Hook)
    ensures InSync(r, [])
    ensures r.lastMoveTimestamp == h.lastMoveTimestamp && r.cache == h.cache && r.isSubmitting == h.isSubmitting
  {
    h.(board := EmptyBoard, currentPlayer := X, lastMoveCount := 0)
  }

  /** The guard of `makeMove`: syncing on, an address, no submission under
      way, an empty cell (a position off the board reads `undefined`, which
      is not `null`), and this player's turn. */
  predicate CanSubmit(h: Hook, sess: Session, position: int) {
    && sess.enabled
    && sess.address.Some? && sess.address.value != []
    && !h.isSubmitting
    && 0 <= position < 9 && h.board[position] == Empty
    && h.currentPlayer == sess.mySymbol
  }

  datatype Outcome = Outcome(ok: bool, hook: Hook)

  /** `makeMove(position)`: `accepted` is the server's verdict on the POST (a
      network error counts as a refusal) and `now` is `Date.now()`. An
      accepted move is applied locally at once; otherwise nothing changes. */
  function MakeMove(h: Hook, sess: Session, position: int, accepted: bool, now: int): (r: Outcome)
    ensures r.ok <==> CanSubmit(h, sess, position) && accepted
    ensures !r.ok ==> r.hook == h
    ensures r.ok ==>
      && r.hook.board == h.board[position := h.currentPlayer]
      && r.hook.currentPlayer == Other(h.currentPlayer)
      && r.hook.lastMoveCount == h.lastMoveCount + 1
      && r.hook.lastMoveTimestamp == now
      && r.hook.cache == h.cache && !r.hook.isSubmitting
  {
    if !CanSubmit(h, sess, position) || !accepted then Outcome(false, h)
    else
      var me: Mark := h.currentPlayer;
      Outcome(true, h.(board := h.board[position := me], currentPlayer := Other(me),
                       lastMoveCount := h.lastMoveCount + 1, lastMoveTimestamp := now))
  }

  // ---------------------------------------------------------------------
  // Properties
  // ---------------------------------------------------------------------

  /** X moves first and the turn alternates with every recorded move. */
  lemma NextPlayerAlternates(n: nat)
    ensures NextPlayer(0) == X
    ensures NextPlayer(n + 1) == Other(NextPlayer(n))
  {
  }

  /** Replaying one more move is one more step of the replay. */
  lemma ReplayAppend(ms: seq<GameMove>, m: GameMove)
    ensures Replay(ms + [m]) == Put(Replay(ms), m)
  {
    assert (ms + [m])[..|ms|] == ms;
  }

  /** A skipped turn leaves the replayed board as it was. */
  lemma ReplaySkipsOutOfRange(ms: seq<GameMove>, m: GameMove)
    requires !(0 <= m.position <= 8)
    ensures Replay(ms + [m]) == Replay(ms)
  {
    ReplayAppend(ms, m);
  }

  /** Each cell of the replayed board is empty exactly when no move was
      made there, and otherwise holds the player of the last move made there. */
  lemma {:induction false} ReplayIsLastWrite(ms: seq<GameMove>, p: int)
    requires 0 <= p < 9
    ensures Replay(ms)[p] == Empty <==> forall i | 0 <= i < |ms| :: ms[i].position != p
    ensures forall i | LastAt(ms, p, i) :: Replay(ms)[p] == ms[i].player
    decreases |ms|
  {
    if |ms| > 0 {
      var n := |ms| - 1;
      var front := ms[..n];
      ReplayIsLastWrite(front, p);
      assert forall i | 0 <= i < n :: front[i] == ms[i];
      if ms[n].position != p {
        forall i | LastAt(ms, p, i)
          ensures LastAt(front, p, i)
        {
        }
      } else {
        forall i | LastAt(ms, p, i)
          ensures i == n
        {
        }
      }
    }
  }

  /** A move applied locally keeps the hook in step with the server's list
      once that list records the same move. */
  lemma LocalMoveMatchesReplay(h: Hook, ms: seq<GameMove>, sess: Session, position: int, now: int)
    requires InSync(h, ms)
    requires MakeMove(h, sess, position, true, now).ok
    ensures InSync(MakeMove(h, sess, position, true, now).hook, ms + [GameMove(position, h.currentPlayer, now)])
  {
    ReplayAppend(ms, GameMove(position, h.currentPlayer, now));
    NextPlayerAlternates(|ms|);
  }

  /** Right after an accepted move it is the other player's turn: a second
      move by the same player is refused whatever the server would say. */
  lemma NoSecondMoveInARow(h: Hook, sess: Session, p: int, q: int, accepted: bool, now: int, later: int)
    requires MakeMove(h, sess, p, true, now).ok
    ensures !MakeMove(MakeMove(h, sess, p, true, now).hook, sess, q, accepted, later).ok
  {
  }

  /** Fetching the same reply twice is the same as fetching it once. */
  lemma FetchIdempotent(h: Hook, enabled: bool, reply: Reply)
    ensures ApplyFetched(ApplyFetched(h, enabled, reply), enabled, reply) == ApplyFetched(h, enabled, reply)
  {
    if enabled && reply.Moves? && Changed(h, reply.moves) {
      var r := ApplyFetched(h, enabled, reply);
      assert !Changed(r, reply.moves);
    }
  }

  /** A reload after a fetch that changed the state restores the state the
      fetch produced from the cached list. */
  lemma CachedReloadMatchesFetch(h: Hook, ms: seq<GameMove>)
    requires |ms| > 0 && Changed(h, ms)
    ensures LoadCached(ApplyFetched(h, true, Moves(ms)), true) == ApplyFetched(h, true, Moves(ms))
  {
  }

  /** Loading the cache twice is the same as loading it once. */
  lemma LoadCachedIdempotent(h: Hook, enabled: bool)
    ensures LoadCached(LoadCached(h, enabled), enabled) == LoadCached(h, enabled)
  {
  }

  /** A fresh hook is in step with the empty move list. */
  lemma InitialInSync(cache: Option<seq<GameMove>>)
    ensures InSync(Initial(cache), [])
  {
  }
}
