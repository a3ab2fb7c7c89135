# Nexus-TTT game core in Dafny

This project models the game logic of Nexus-TTT, a tic-tac-toe client and server written in JavaScript, and proves properties of that model. It covers four parts of the repository.

- **Board evaluation and search** (`client/src/utils/gameHelpers.js`, `server/utils/gameHelpers.js`, `client/src/utils/aiLogic.js`):
  - the 2n+2 winning lines of an n×n board and their per-size cache;
  - the client's and the server's winner verdicts;
  - the line-score heuristic and both alpha-beta searches;
  - the three AI levels.
- **The authoritative online move log** (`server/socket/gameHandlers.js`, `server/utils/gameState.js`):
  - the store behind the room handlers, with each Redis list and set as a field of a `RoomStore` class, one method per handler and the Redis commands kept exactly (RPOPLPUSH, LPUSH+LTRIM, and so on);
  - the replay of the move history into the 3×3 board that is sent to the players.
- **The local game store** (`client/src/store/useGameStore.js`): the offline/AI state machine as a `GameStore` class with one `state` field. Each action replaces that field with the merged update, as zustand's `set` does. Each method is proved to perform a pure transition, and the properties are proved about those transitions.
- **Small decision functions**:
  - the keyboard-shortcut dispatcher;
  - the signup/login validation rules;
  - the store client's reconnect back-off;
  - the home screen's resume predicate and colour-brightness test.

Modules, one per source file:

| module | file | source |
|---|---|---|
| Options | options.dfy | (shared `Option`) |
| Board | board.dfy | client/src/utils/gameHelpers.js: lines, cache, `calculateWinner` |
| AlphaBeta | alphabeta.dfy | the move loop shared by both minimax searches, as a fold |
| Search | search.dfy | client/src/utils/gameHelpers.js: `evaluateBoard`, `minimaxAB`, `minimaxNxN` |
| Ai | ai.dfy | client/src/utils/aiLogic.js |
| ServerBoard | server_board.dfy | server/utils/gameHelpers.js |
| GameState | game_state.dfy | server/utils/gameState.js |
| RoomServer | room_server.dfy | server/socket/gameHandlers.js |
| LocalStore | game_store.dfy | client/src/store/useGameStore.js (transitions) |
| LocalStoreObject | game_store_object.dfy | client/src/store/useGameStore.js (the store object) |
| Shortcuts | shortcuts.dfy | client/src/hooks/useKeyboardShortcuts.js |
| Validate | validate.dfy | server/middleware/validate.js |
| RedisRetry | redis_retry.dfy | server/lib/redis.js |
| Home | home.dfy | client/src/screens/HomeScreen.jsx |

Conventions:
- JavaScript `null` in a cell is `None`. Reading past the end of a board gives `undefined`, which is neither null nor a mark, so the verdicts are total.
- `-Infinity` and `Infinity` in the searches are the extended integers `NegInf` and `PosInf`.
- Random rolls (`Math.random()`) are parameters in `[0, 1)`.
- The socket payloads the room handlers emit are return values; a payload sent only after a database call succeeds is returned only when a boolean parameter says that call succeeded.

Notable behaviour of the code as written:
- Online undo/redo uses RPOPLPUSH in both directions, so redo does not restore the original order. Undoing the whole history and then redoing all of it gives the history back (`RoomServer.UndoAllRedoAllRestores`). A partial undo followed by the same number of redos rotates it (`RoomServer.UndoRedoRotates`).
- The online state is always a 3×3 board judged with n = 3, whatever the room's grid size.
- There is no vacancy or winner check on `send_move`.
- The global chat history comes back newest-last, as the reverse of the stored list.

## Model

| member | source | states |
|---|---|---|
| Board.EmptyCells | client/src/utils/aiLogic.js:5 | the list holds exactly the indices whose cell is null |
| Board.EmptyCellsInOrder | client/src/utils/gameHelpers.js:109 | the empty-cell list is strictly increasing (scan order) |
| Board.FullIffNoEmptyCells | client/src/utils/aiLogic.js:5-6 | every cell is non-null iff the empty-cell list is empty |
| Board.Lines | client/src/utils/gameHelpers.js:11-25 | the 2n+2 winning lines: rows, then columns, then the main and the anti-diagonal (shape in `Board.LinesShape`, cells in `Board.LineCells`) |
| Board.LinesShape | client/src/utils/gameHelpers.js:11-25 | there are 2n+2 lines, each of n strictly increasing (hence distinct) indices in [0, n²) |
| Board.LineCells | client/src/utils/gameHelpers.js:14-25 | cell (r, c) lies on line k iff k = r (row), k = n+c (column), k = 2n with r = c (main diagonal) or k = 2n+1 with c = n-1-r (anti-diagonal) |
| Board.LineWinner | client/src/utils/gameHelpers.js:39-40 | a line wins for p exactly when every index on it holds p; otherwise it wins for nobody |
| Board.FirstWinningLineSpec | client/src/utils/gameHelpers.js:38-43 | the result is the first line, in list order, that is filled by one player; none means no line is |
| Board.CalculateWinnerMeaning | client/src/utils/gameHelpers.js:34-48 | a win returns the first winning line's player and that line; Draw with no cells iff no line wins and the board is full; null with no cells iff no line wins and some cell is null |
| Board.CalculateWinner | client/src/utils/gameHelpers.js:34-49 | the verdict on a board: the first winning line's player and cells, else a draw on a full board, else no winner (meaning in `Board.CalculateWinnerMeaning`) |
| Board.EmptyBoardOngoing | client/src/utils/gameHelpers.js:34-49 | an empty board of size at least 1 has no winner and no winning cells |
| Board.SingleLineWins | client/src/utils/gameHelpers.js:38-43 | a board whose only marks fill line k is won by that player with exactly line k: every earlier line fails |
| Board.BuildLines | client/src/utils/gameHelpers.js:11-25 | the loops push exactly the rows, the columns and the two diagonals, in that order |
| Board.LinesCache.GetLines | client/src/utils/gameHelpers.js:6-31 | a cache hit and a miss both return the lines of n, and the cache then maps n to them |
| Board.ScanLines | client/src/utils/gameHelpers.js:38-48 | the loop returns the verdict of the line list |
| Board.CalculateWinnerCached | client/src/utils/gameHelpers.js:34-48 | the verdict through the cache equals the cache-free verdict, so repeated calls agree |
| Search.CountLine | client/src/utils/gameHelpers.js:89-93 | the two counters are the numbers of AI and human marks on the line |
| Search.ScoreOf | client/src/utils/gameHelpers.js:88-96 | the heuristic sum over a list of lines: +10^a for a line with only AI marks, -10^h for one with only human marks, 0 otherwise |
| Search.BoardScore | client/src/utils/gameHelpers.js:84-99 | `evaluateBoard`'s value: that sum over all lines of the board |
| Search.ScoreLines | client/src/utils/gameHelpers.js:88-96 | the loop sums +10^a for AI-only lines and -10^h for human-only lines |
| Search.EvaluateBoard | client/src/utils/gameHelpers.js:84-99 | the score is that sum over all lines of the board |
| Search.BoardScoreAntisymmetric | client/src/utils/gameHelpers.js:88-96 | swapping the AI and the human negates the score |
| Search.ScoreOfUnmarked | client/src/utils/gameHelpers.js:88-96 | an empty board scores 0 |
| Search.MinimaxAB | client/src/utils/gameHelpers.js:52-81 | won or full boards score +1, -1 or 0 with no index; otherwise the index is a null cell; the score is a fail-soft alpha-beta bound on the full game value, exact inside the window |
| Search.SearchMoves | client/src/utils/gameHelpers.js:58-80 | the move loop ends with a null cell and a score that bounds the best child value |
| Search.Visit3 | client/src/utils/gameHelpers.js:61-76 | one searched cell keeps the loop's results consistent with the true child values |
| Search.Skip3 | client/src/utils/gameHelpers.js:60-61 | a marked cell leaves the loop state unchanged |
| Search.SearchEnd3 | client/src/utils/gameHelpers.js:76-80 | after the last cell or a cut-off, the best is finite, names a null cell and bounds the best child value |
| Search.MinimaxNxN | client/src/utils/gameHelpers.js:102-130 | ±100000 for a win, 0 for a draw, `evaluateBoard` at the depth limit, all with no index; otherwise a null cell; a fail-soft bound on the depth-limited value |
| Search.SearchMovesNxN | client/src/utils/gameHelpers.js:109-129 | the loop over empty cells ends with a null cell and a score that bounds the best child value |
| Search.VisitNxN | client/src/utils/gameHelpers.js:112-126 | one searched empty cell keeps the loop's results consistent |
| Search.StepNxN | client/src/utils/gameHelpers.js:118-124 | the best, alpha and beta updates are the fold step over the child's score |
| Search.SearchEndNxN | client/src/utils/gameHelpers.js:126-129 | after the last empty cell or a cut-off, the best names a null cell and bounds the best child value |
| AlphaBeta.Max | client/src/utils/gameHelpers.js:70 | `Math.max` is the larger of its arguments |
| AlphaBeta.Min | client/src/utils/gameHelpers.js:73 | `Math.min` is the smaller of its arguments |
| AlphaBeta.Run | client/src/utils/gameHelpers.js:58-77 | the best so far is the starting bound (-Infinity for the maximiser, +Infinity for the minimiser) before any child is searched, and afterwards a searched child together with that child's score |
| AlphaBeta.RunTry | client/src/utils/gameHelpers.js:68-74 | a searched child extends the consistent results by the strict-improvement update |
| AlphaBeta.RunKnows | client/src/utils/gameHelpers.js:68-76 | at every step the best and the window bound the best true value of the children so far |
| AlphaBeta.RunDone | client/src/utils/gameHelpers.js:76-80 | at the end or at a cut-off, the best is a fail-soft bound on the best child value |
| Ai.PickIndex | client/src/utils/aiLogic.js:7 | `floor(roll * len)` is an index of the list |
| Ai.PickIndexHits | client/src/utils/aiLogic.js:7 | every index is produced by some roll |
| Ai.MakeAIMoveEasy | client/src/utils/aiLogic.js:4-8 | null iff the board has no null cell, otherwise a null cell |
| Ai.EasyReachesEveryNullCell | client/src/utils/aiLogic.js:4-8 | every null cell is chosen for some roll |
| Ai.FirstWin | client/src/utils/aiLogic.js:15-18 | the first cell in the list where the mark would win, and no earlier cell wins |
| Ai.FirstWinInScanOrder | client/src/utils/aiLogic.js:15-18 | the winning cell found is null, and no null cell before it wins |
| Ai.NoWinInScan | client/src/utils/aiLogic.js:15-23 | when the scan finds nothing, no null cell wins for that player |
| Ai.HeuristicPick | client/src/utils/aiLogic.js:15-28 | the pick is a null cell, or undefined exactly on a full board |
| Ai.MistakePick | client/src/utils/aiLogic.js:13 | the mistake is a random null cell, or undefined on a full board |
| Ai.MakeAIMoveHeuristic | client/src/utils/aiLogic.js:11-29 | below the mistake chance, the random pick; otherwise the win/block/centre/first priority |
| Ai.ScanForWin | client/src/utils/aiLogic.js:15-23 | the scan loop returns the first winning cell |
| Ai.HeuristicPriorities | client/src/utils/aiLogic.js:15-28 | win first, else block, else the centre if null, else the first null cell |
| Ai.DepthFor | client/src/utils/aiLogic.js:33 | the depth is between 2 and 7 |
| Ai.DepthForShrinks | client/src/utils/aiLogic.js:33 | bigger boards never search deeper |
| Ai.IndexOf | client/src/utils/aiLogic.js:35-36 | `.index` is the search's index, or undefined when there is none |
| Ai.ExpertAnswer | client/src/utils/aiLogic.js:32-37 | what the expert promises: never null; a defined move is a null cell; undefined exactly on a finished board; on 3×3 a defined move is optimal (its child's game value is the position's game value); on larger boards it is optimal for the depth-limited value at `DepthFor(n)` |
| Ai.MakeAIMoveExpert | client/src/utils/aiLogic.js:32-37 | the answer meets `Ai.ExpertAnswer`: never null; a defined move is a null cell; undefined exactly on a finished board; on 3×3 a defined move is optimal (its child's game value is the position's game value); on larger boards it is optimal for the depth-limited value |
| ServerBoard.DiagonalCell | server/utils/gameHelpers.js:22 | `i*(n+1)` is `i*n+i` |
| ServerBoard.AntiDiagonalCell | server/utils/gameHelpers.js:23 | `(i+1)*(n-1)` is `i*n+(n-1-i)` |
| ServerBoard.BuildRow | server/utils/gameHelpers.js:5-9 | the server's row i is the client's row i |
| ServerBoard.BuildColumn | server/utils/gameHelpers.js:12-16 | the server's column i is the client's column i |
| ServerBoard.BuildDiagonals | server/utils/gameHelpers.js:19-25 | the server's diagonals are the client's two diagonals |
| ServerBoard.BuildServerLines | server/utils/gameHelpers.js:2-25 | the server builds the same lines, in the same order, as the client |
| ServerBoard.ServerCalculateWinner | server/utils/gameHelpers.js:1-41 | the winner always agrees with the client's; the cells agree on a win; a draw or no winner gives null cells |
| ServerBoard.ServerCalculateWinnerDefault | server/utils/gameHelpers.js:1 | n defaults to 3 |
| GameState.Replay | server/utils/gameState.js:15-18 | the replayed board has exactly 9 cells |
| GameState.ReplayIsLastWrite | server/utils/gameState.js:16-18 | each cell holds the symbol of the last move to its index, or null |
| GameState.ReplayOntoArray | server/utils/gameState.js:15-18 | the in-place `forEach` over a 9-cell array yields the replay |
| GameState.SyncOf | server/utils/gameState.js:3-34 | the payload of two lists: the replayed board; X to move iff the history has even length; winner and cells from the server verdict at n = 3, cells null unless someone won; lastMove the last entry's index or null; the lists unchanged |
| GameState.SyncGameState | server/utils/gameState.js:3-34 | the payload has 9 cells and is the `SyncOf` payload of the two lists |
| GameState.SyncOfEmpty | server/utils/gameState.js:3-34 | the payload of an empty log is nine null cells, X to move, no winner, null cells and no last move |
| GameState.SyncAfterMove | server/utils/gameState.js:15-32 | after a move by the player whose turn it was, the payload board is the earlier board with that move written, the other player is to move, and the move is the last move |
| RoomServer.RPopLPush | server/socket/gameHandlers.js:117 | the tail of the source moves to the head of the destination; no-op on an empty source; the moves are kept |
| RoomServer.Undo | server/socket/gameHandlers.js:117 | `request_undo`'s RPOPLPUSH from the history to the future (round trips in `RoomServer.UndoTimesMoves` and `RoomServer.UndoRedoRotates`) |
| RoomServer.Redo | server/socket/gameHandlers.js:124 | `request_redo`'s RPOPLPUSH from the future to the history (round trips in `RoomServer.RedoTimesMoves` and `RoomServer.UndoAllRedoAllRestores`) |
| RoomServer.UndoRedoKeepMoves | server/socket/gameHandlers.js:117-124 | undo and redo keep the multiset of history plus future and its total length |
| RoomServer.UndoTimesMoves | server/socket/gameHandlers.js:117 | k undos move the last k moves onto the future, in their order |
| RoomServer.RedoTimesMoves | server/socket/gameHandlers.js:124 | redoing a whole future prepends it to the history, in the same order |
| RoomServer.UndoRedoRotates | server/socket/gameHandlers.js:117-124 | k undos then k redos turn history p+s into s+p |
| RoomServer.UndoAllRedoAllRestores | server/socket/gameHandlers.js:117-124 | undoing everything and redoing everything restores the history |
| RoomServer.UndoRedoReorders | server/socket/gameHandlers.js:124 | one undo then one redo turns [m1, m2] into [m2, m1] |
| RoomServer.RedoFixed | server/socket/gameHandlers.js:124 | a redo that moves the head of the future to the tail of the history |
| RoomServer.RedoFixedUndoes | server/socket/gameHandlers.js:117-124 | that redo exactly undoes an undo |
| RoomServer.ReadyMessage | server/socket/gameHandlers.js:34 | "Ready!" iff at least two players |
| RoomServer.PushChat | server/socket/gameHandlers.js:238-239 | the message goes to the head, and the list keeps min(len+1, 20) entries |
| RoomServer.ChatKeepsNewest | server/socket/gameHandlers.js:238-250 | after any pushes, at most 20 are kept, and read oldest-first they are the newest 20 |
| RoomServer.Reverse | server/socket/gameHandlers.js:250 | element i is element len-1-i of the input |
| RoomServer.SendRoomMessage | server/socket/gameHandlers.js:137-147 | sent iff room and text are truthy, with that text and `String(username)` |
| RoomServer.RoomStore.JoinRoom | server/socket/gameHandlers.js:7-46 | no-op without a room; otherwise the name (default "Guest") joins the set; the status gives the set size, the stored grid size or the joiner's (default 3), and the ready message; the reply is the `SyncOf` payload of the room's lists |
| RoomServer.RoomStore.Disconnecting | server/socket/gameHandlers.js:48-94 | the name leaves the set; the `opponent_left_win` notice, naming the sole remaining player as winner with the message "<name> fled the battle! You win by forfeit.", is sent exactly when one player remains, the history is non-empty and the database reward and leaderboard query succeed; the status "<name> left." is always sent |
| RoomServer.RoomStore.SendMove | server/socket/gameHandlers.js:97-112 | appends `{index, X if even history else O}` and empties the future, with no vacancy or winner check; the broadcast is the `SyncOf` payload: the earlier board with the move written, the other player to move, the move as last move |
| RoomServer.RoomStore.RequestUndo | server/socket/gameHandlers.js:114-119 | the room's log becomes its undo, nothing else changes, and the broadcast is the `SyncOf` payload of the new lists (board, player to move, verdict, last move) |
| RoomServer.RoomStore.RequestRedo | server/socket/gameHandlers.js:121-126 | the room's log becomes its RPOPLPUSH redo, nothing else changes, and the broadcast is the `SyncOf` payload of the new lists (board, player to move, verdict, last move) |
| RoomServer.RoomStore.ResetGame | server/socket/gameHandlers.js:128-134 | both lists are emptied; the broadcast is the `SyncOf` payload of the empty log: nine null cells, X to move, no winner, null cells, no last move |
| RoomServer.RoomStore.LeaveRoom | server/socket/gameHandlers.js:202-221 | no-op without a room or a username; otherwise the name leaves the set, and the count is the socket count |
| RoomServer.RoomStore.GlobalChatMessage | server/socket/gameHandlers.js:224-246 | dropped without text or username; otherwise pushed at the head and capped at 20 |
| RoomServer.RoomStore.GetGlobalChatHistory | server/socket/gameHandlers.js:248-252 | the stored list reversed, at most 20 entries |
| LocalStore.IntSqrt | client/src/store/useGameStore.js:121 | r² ≤ m < (r+1)² |
| LocalStore.SqrtOfSquare | client/src/store/useGameStore.js:121 | the square root of n·n is n |
| LocalStore.Play | client/src/store/useGameStore.js:45 | no-op when a winner is set or the cell is not null |
| LocalStore.ApplyAiMove | client/src/store/useGameStore.js:74-90 | a null AI move only clears `thinking` |
| LocalStore.Undo | client/src/store/useGameStore.js:97 | no-op while thinking or with an empty history |
| LocalStore.Redo | client/src/store/useGameStore.js:118 | no-op while thinking or with an empty future |
| LocalStore.RedoFixed | client/src/store/useGameStore.js:116-131 | the same guard, but it pushes the state before the redo |
| LocalStore.Resize | client/src/store/useGameStore.js:29-38 | `setBoardSize`'s update (meaning in `LocalStore.ResizeMeaning`) |
| LocalStore.StepBack | client/src/store/useGameStore.js:99-110 | `undoOnce`'s update: the last snapshot restored, the current state pushed on the future (meaning in `LocalStore.UndoMeaning`) |
| LocalStore.Reset | client/src/store/useGameStore.js:133-148 | `resetGame`'s update (meaning in `LocalStore.ResetMeaning`) |
| LocalStore.Hydrate | client/src/store/useGameStore.js:153-157 | `_hydrate`'s update (meaning in `LocalStore.HydrateMeaning`) |
| LocalStore.ResetsAreValid | client/src/store/useGameStore.js:29-38 | a size change and a reset each leave boards of boardSize² cells and redo entries without lastMove |
| LocalStore.MovesKeepValid | client/src/store/useGameStore.js:43-90 | a move and an AI reply keep the board-size invariant |
| LocalStore.UndoRedoKeepValid | client/src/store/useGameStore.js:95-131 | undo and redo keep the invariant |
| LocalStore.StepBackKeepsValid | client/src/store/useGameStore.js:99-110 | one `undoOnce` keeps the invariant |
| LocalStore.ResizeMeaning | client/src/store/useGameStore.js:29-38 | n·n null cells, X to move, empty stacks, no winner, `winningCells` untouched |
| LocalStore.ResetMeaning | client/src/store/useGameStore.js:133-148 | boardSize² null cells, X, empty stacks, no winner, not started; mode and difficulty kept |
| LocalStore.PlayMeaning | client/src/store/useGameStore.js:45-61 | the mark at the cell, the other player to move, the new board's verdict, the pre-move snapshot pushed, the future cleared, started |
| LocalStore.ApplyAiMeaning | client/src/store/useGameStore.js:74-90 | the current player's mark at the AI's cell, the turn passed, the verdict recomputed, the pre-reply snapshot pushed |
| LocalStore.UndoMeaning | client/src/store/useGameStore.js:95-114 | one step back, or two in AI mode with more than one snapshot: the history is cut to its prefix, the board and player are those of the earliest snapshot dropped, no winner, no winning cells, no last move; the redo stack gains the state each step left, without its last move (the dropped last snapshot, then the current state, in AI mode), on top of the old future |
| LocalStore.HydrateMeaning | client/src/store/useGameStore.js:153-157 | the winner and cells become the verdict of the board at boardSize, the board is kept, and hydration changes nothing exactly when the stored verdict was already right |
| LocalStore.CanUndoRedoMeaning | client/src/store/useGameStore.js:150-151 | undo acts iff not thinking and history is non-empty; redo likewise with the future |
| LocalStore.MoveThenUndo | client/src/store/useGameStore.js:43-110 | in player-vs-player mode, undo after a move restores the board, the player and the history |
| LocalStore.AiMoveThenUndo | client/src/store/useGameStore.js:43-113 | in AI mode, undo after a move and the AI's reply restores the board and the player from before the move |
| LocalStore.UndoThenRedo | client/src/store/useGameStore.js:99-131 | redo after a single undo restores the board, the player, the future and the winner; the history's last entry becomes the post-move state |
| LocalStore.RedoThenUndoStays | client/src/store/useGameStore.js:116-131 | as written, an undo right after a redo leaves the board as the redo left it |
| LocalStore.RedoThenUndoExample | client/src/store/useGameStore.js:116-131 | concretely: move, undo, redo, undo leaves the mark on the board |
| LocalStore.RedoFixedThenUndo | client/src/store/useGameStore.js:99-131 | with the corrected redo, undo restores the board, the player, the history and the future |
| LocalStore.RedoIsJudged | client/src/store/useGameStore.js:120-126 | on a valid store, redo's `Math.sqrt` size equals boardSize, so its verdict is the board's |
| LocalStore.ResetIsJudged | client/src/store/useGameStore.js:133-148 | after a reset, `winner`/`winningCells` are the verdict of the new board |
| LocalStore.ChooseAiMove | client/src/store/useGameStore.js:69-74 | easy is the random pick; normal makes the random mistake below a 0.35 roll and the heuristic pick otherwise; hard is the heuristic for O against X; expert's answer meets `Ai.ExpertAnswer` (undefined exactly on a finished board, otherwise an optimal null cell); a defined move is a null cell |
| LocalStoreObject.GameStore.constructor | client/src/store/useGameStore.js:8-21 | the initial 3×3 store, which satisfies the invariant |
| LocalStoreObject.GameStore.SetBoardSize | client/src/store/useGameStore.js:29-38 | the store becomes its resize |
| LocalStoreObject.GameStore.MakeMove | client/src/store/useGameStore.js:43-64 | the store becomes the move; the AI reply is scheduled exactly when the move went ahead in AI mode, O is next and the new board has no winner |
| LocalStoreObject.GameStore.AiFollowUp | client/src/store/useGameStore.js:65-91 | the captured difficulty's AI picks on the current state as `LocalStore.ChooseAiMove` does (expert: an `Ai.ExpertAnswer`), and the store becomes the reply |
| LocalStoreObject.GameStore.UndoOnce | client/src/store/useGameStore.js:99-110 | the store becomes one step back |
| LocalStoreObject.GameStore.UndoMove | client/src/store/useGameStore.js:95-114 | the store becomes its undo |
| LocalStoreObject.GameStore.RedoMove | client/src/store/useGameStore.js:116-131 | the store becomes its redo, as written |
| LocalStoreObject.GameStore.ResetGame | client/src/store/useGameStore.js:133-148 | the store becomes its reset |
| LocalStoreObject.GameStore.CanUndo | client/src/store/useGameStore.js:150 | true iff the history is non-empty |
| LocalStoreObject.GameStore.CanRedo | client/src/store/useGameStore.js:151 | true iff the future is non-empty |
| LocalStoreObject.GameStore.HydrateStore | client/src/store/useGameStore.js:153-157 | the store becomes its hydration |
| Shortcuts.SizeKey | client/src/hooks/useKeyboardShortcuts.js:103 | `key >= '3' && key <= '9'` under JavaScript string order |
| Shortcuts.DigitsValue | client/src/hooks/useKeyboardShortcuts.js:104 | `parseInt(key)`: the value of the leading decimal digits (bounds in `Shortcuts.DigitsValueAtLeast`, `Shortcuts.DigitKeysSetSize`) |
| Shortcuts.EscapeReaction | client/src/hooks/useKeyboardShortcuts.js:40-54 | as written, Escape with help closed is always cancelled and navigates only when the event is neither cancelable nor already cancelled |
| Shortcuts.EscapeReactionFixed | client/src/hooks/useKeyboardShortcuts.js:47-52 | the intended Escape: cancelled, no help, navigation decided by an earlier listener only |
| Shortcuts.HandleKeyDown | client/src/hooks/useKeyboardShortcuts.js:20-127 | help closes only on Escape; help is otherwise unchanged except by the help keys |
| Shortcuts.HelpSwallowsKeys | client/src/hooks/useKeyboardShortcuts.js:30-33 | with help open, any key but Escape is cancelled and does nothing |
| Shortcuts.ThinkingOrModifiedInputIgnored | client/src/hooks/useKeyboardShortcuts.js:26-37 | while thinking, or on Ctrl/Meta in an input, nothing happens |
| Shortcuts.EscapeNavigation | client/src/hooks/useKeyboardShortcuts.js:40-54 | Escape navigates iff a navigate callback exists and the event was neither cancelable nor already cancelled |
| Shortcuts.UndoIff | client/src/hooks/useKeyboardShortcuts.js:70-78 | undo fires exactly on Ctrl/Meta+z without Shift, outside inputs, with undo available |
| Shortcuts.RedoIff | client/src/hooks/useKeyboardShortcuts.js:81-90 | redo fires exactly on Ctrl/Meta+Shift+z or Ctrl/Meta+y, outside inputs, with redo available |
| Shortcuts.DigitKeysSetSize | client/src/hooks/useKeyboardShortcuts.js:103-119 | keys 3 to 9 set that size, and 0 sets 10 |
| Shortcuts.SizesAtLeastThree | client/src/hooks/useKeyboardShortcuts.js:103-119 | no key ever sets a size below 3 |
| Shortcuts.HelpToggles | client/src/hooks/useKeyboardShortcuts.js:40-67 | only Escape closes help, and only `?`, h and H open it |
| Shortcuts.EscapeClosesHelp | client/src/hooks/useKeyboardShortcuts.js:30-46 | with help open, Escape closes it, unless the AI is thinking or a modifier is held inside an input |
| Shortcuts.HelpKeysOpen | client/src/hooks/useKeyboardShortcuts.js:62-67 | outside inputs with the AI idle, `?`, h and H open help and are cancelled |
| Shortcuts.NewGameKeys | client/src/hooks/useKeyboardShortcuts.js:92-100 | outside inputs with the AI idle, n and space start a new game and are cancelled |
| Shortcuts.InputKeysIgnored | client/src/hooks/useKeyboardShortcuts.js:56-59 | inside an input, every key but Escape does nothing and is not cancelled |
| Shortcuts.CancelableEscapeNeverNavigates | client/src/hooks/useKeyboardShortcuts.js:40-54 | a cancelable, not yet handled Escape with a navigate callback does not navigate as written, but does with the intended check |
| Shortcuts.EscapeFixedNavigates | client/src/hooks/useKeyboardShortcuts.js:47-52 | with the intended check, Escape navigates exactly when a callback exists and no earlier listener handled the event |
| Validate.Decide | server/middleware/validate.js:17-23 | `next` iff there are no issues; otherwise 400 with the first issue's message |
| Validate.SignupIssues | server/middleware/validate.js:3-10 | `signupSchema`'s messages in schema order (decisions in `Validate.SignupDecision`, `Validate.SignupFirstMessage`) |
| Validate.LoginIssues | server/middleware/validate.js:12-15 | `loginSchema`'s messages in schema order (decision in `Validate.LoginDecision`) |
| Validate.SignupDecision | server/middleware/validate.js:3-10 | a signup passes iff the username has 3 to 15 word characters, the email is valid and the password has at least 6 characters |
| Validate.SignupFirstMessage | server/middleware/validate.js:4-9 | the message is the first broken rule's, in the schema's order |
| Validate.LoginDecision | server/middleware/validate.js:12-15 | a login passes iff the email is valid and the password is non-empty; the email is reported first |
| RedisRetry.ReconnectStrategy | server/lib/redis.js:13-16 | gives up iff retries > 10; otherwise waits retries·100 ms, at most 1000, so the 3000 cap never binds |
| RedisRetry.WaitsGrow | server/lib/redis.js:15 | the wait never shrinks as retries grow |
| Home.CanResume | client/src/screens/HomeScreen.jsx:12 | started, some cell marked, and no winner (partners: the three lemmas below) |
| Home.ParseHex | client/src/screens/HomeScreen.jsx:19-21 | `parseInt(piece, 16)`: leading white space, a sign, an optional 0x, the longest hex-digit run; NaN with no digit (value in `Home.ParsePair`) |
| Home.NothingToResumeAfterReset | client/src/screens/HomeScreen.jsx:12 | after a reset or a size change nothing can be resumed |
| Home.MoveMakesResumable | client/src/screens/HomeScreen.jsx:12 | a move that does not end the game makes the game resumable |
| Home.FinishedNotResumable | client/src/screens/HomeScreen.jsx:12 | a won or drawn game cannot be resumed |
| Home.IsColorLight | client/src/screens/HomeScreen.jsx:16-24 | a light colour is present and starts with `#` |
| Home.ParsePair | client/src/screens/HomeScreen.jsx:19-21 | two hex digits parse to the byte they write |
| Home.WellFormedLight | client/src/screens/HomeScreen.jsx:16-24 | `#rrggbb` is light iff 299r + 587g + 114b > 180000 |
| Home.WhiteIsLight | client/src/screens/HomeScreen.jsx:16-24 | `#ffffff` is light |
| Home.BlackIsDark | client/src/screens/HomeScreen.jsx:16-24 | `#000000` is not light |
| Home.ShorthandNeverLight | client/src/screens/HomeScreen.jsx:18-21 | the shorthand `#fff` is never light: its blue piece is empty, which parses to NaN |
| Home.AutoButtonText | client/src/screens/HomeScreen.jsx:26 | `#000000` iff the heading is light, else `#ffffff` |

## Left out

- The Expert test positions (a corner opening answered at 4, a block at 2) are not proved. They need the full 3×3 game tree evaluated in the proof, which is beyond the solver's budget. `Ai.MakeAIMoveExpert` states instead that every defined move is a null cell whose value equals the position's game value, so any move it picks is optimal.
- Search.MinimaxAB requires a 9-cell board, and Ai.MakeAIMoveExpert requires one when n = 3, because `minimaxAB` loops over indices 0 to 8 whatever the board's length.
- Search.MinimaxNxN, its loop helpers (Search.SearchMovesNxN, Search.VisitNxN) and Ai.MakeAIMoveExpert require the AI and the human to be different players. Every caller passes "O" and "X"; with equal players the depth-limited value is not modelled.
- RoomServer.RoomStore.SendMove requires `index < 9`, and `GameState.Move.index` is a `nat`. The handler accepts any value: an index of 9 or more, a negative index or a non-integer is written as an array property outside the 9 cells, so the synced board keeps its 9 cells unchanged while `lastMove` is the raw value. Those indices are not modelled.
- `null` and `undefined` are distinguished only where the code branches on the difference. Player names default to "Guest" only for a missing name; a `null` name is treated as missing. A `null` grid size is not modelled.
- The Undefined AI move writes to no cell and records a `lastMove` of `undefined`; the model uses None for it.
- Difficulty strings outside the four levels are not modelled. With one, the source calls an undefined function.
- Timers: the AI's 600 ms delay becomes the separate `AiFollowUp` step. Any action between the move and the reply is a separate call, made in any order.
- Persistence (zustand `persist`, localStorage) is not modelled. Note that `partialize` (client/src/store/useGameStore.js:161-170) does not store `boardSize`, so a reloaded larger board is judged at the default size 3.
- Sockets, rooms on the adapter, MongoDB (forfeit rewards, the leaderboard), the `record_win`/`get_leaderboard` handlers, Express, JWT and cookies are not modelled. The room handlers' emitted payloads (`room_status`, `sync_state`, `opponent_left_win`, chat messages) are return values. The `update_leaderboard` broadcast is not modelled, since its contents come from MongoDB.
- RoomServer.RoomStore.Disconnecting: the forfeit winner's wins and XP are not updated, because MongoDB is not modelled. Whether the reward and the leaderboard query succeed is the parameter `rewardSucceeded`, and the forfeit notice is returned only when it is true, as the `try` block at server/socket/gameHandlers.js:63-84 decides.
- Concurrency and Redis atomicity: each handler is one atomic step.
- Randomness, `Date.now` and `toLocaleTimeString` are parameters.
- `Math.sqrt` in redo is the integer square root, which equals `Math.sqrt` on the perfect squares a valid store holds.
- Validation: the email check is the library's verdict, passed in as a boolean. Missing or non-string fields are not modelled. String lengths count characters.
- Validate.Decide assumes the first issue's message is at `result.error.errors[0]`. The layout of the library's error object depends on its version and is not modelled. With a version that lists failures only under `issues`, the handler would throw instead of answering 400.
- `parseInt` in `isColorLight` is modelled for string pieces only. A non-string heading colour is not modelled.
- The keyboard handler's DOM effects (the feedback badge, fullscreen, focus) are only names of actions. `event.key.toLowerCase() === 'h'` is modelled as the keys h and H.
- The player-name and game-mode setters (`setPlayer1`, `setPlayer2`, `resetNames`, `setGameMode`, `setDifficulty`) only store their arguments and are not modelled.

## Findings

| source | as written | input that shows it | evidently intended | confidence | as-written member | corrected member |
|---|---|---|---|---|---|---|
| server/socket/gameHandlers.js:124 | redo uses RPOPLPUSH from the future to the history, so a redone move goes to the head of the history | history [m1, m2]: one undo then one redo gives [m2, m1] | redo puts the move back at the tail, so undo then redo is the identity | not executed | RoomServer.UndoRedoReorders | RoomServer.RedoFixedUndoes |
| client/src/store/useGameStore.js:127 | redo appends `next`, the state after the redone move, to the history | move at 0 from a fresh store, undo, redo, undo: the mark at 0 is still on the board | redo pushes the state before it, as `makeMove` does, so a following undo steps back | not executed | LocalStore.RedoThenUndoStays | LocalStore.RedoFixedThenUndo |
| client/src/hooks/useKeyboardShortcuts.js:41-50 | Escape calls `preventDefault()` and then tests `!event.defaultPrevented` before navigating, so a cancelable event never navigates | a keyboard Escape (cancelable, not handled by anyone else) with help closed and a navigate callback: nothing happens | skip navigation only when an earlier listener (a modal) already handled Escape, so the test reads `defaultPrevented` before the handler's own `preventDefault()` | not executed | Shortcuts.CancelableEscapeNeverNavigates | Shortcuts.EscapeFixedNavigates |
