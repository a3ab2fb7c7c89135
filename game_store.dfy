/**
 * The client's local game store (client/src/store/useGameStore.js): the
 * state machine for offline and AI play. A move pushes a snapshot of the
 * state before it onto `history`; undo pops a snapshot and pushes the
 * current state onto the head of `future`; redo takes the head of `future`.
 *
 * Each action is a pure transition on `State`. The `GameStore` class
 * (module LocalStoreObject) holds one `state` field and replaces it with the
 * merged update, as zustand's `set` does; each method is proved to perform
 * its transition. The AI's delayed reply is its own step
 * (`AiFollowUp`), taken with the difficulty captured when the move was made
 * and with the random rolls as parameters.
 */
module LocalStore {
  import opened Options
  import opened Board
  import opened Ai

  datatype Difficulty = Easy | Normal | Hard | Expert

  /** A stack entry `{ board, currentPlayer, lastMove }`; redo entries carry no `lastMove` (None). */
  datatype Snapshot = Snapshot(board: seq<Cell>, currentPlayer: Player, lastMove: Option<nat>)

  /** The store's game fields; `winner` Ongoing is `null`, `lastMove` None is `null`. */
  datatype State = State(
    boardSize: nat,
    board: seq<Cell>,
    currentPlayer: Player,
    winner: Outcome,
    winningCells: seq<int>,
    history: seq<Snapshot>,
    future: seq<Snapshot>,
    gameMode: string,
    difficulty: Difficulty,
    lastMove: Option<nat>,
    thinking: bool,
    gameStarted: bool)

  /** The store as created. */
  function Initial(): State
  {
    State(3, EmptyBoard(9), X, Ongoing, [], [], [], "pvp", Easy, None, false, false)
  }

  /** The number of cells of an n-by-n board. */
  function Area(n: nat): nat
  {
    n * n
  }

  /**
   * The invariant every action keeps: the board and every stacked board
   * have boardSize^2 cells, and redo entries carry no `lastMove`.
   */
  predicate Valid(s: State)
  {
    && |s.board| == Area(s.boardSize)
    && (forall k :: 0 <= k < |s.history| ==> |s.history[k].board| == Area(s.boardSize))
    && (forall k :: 0 <= k < |s.future| ==> |s.future[k].board| == Area(s.boardSize))
    && (forall k :: 0 <= k < |s.future| ==> s.future[k].lastMove.None?)
  }

  /** `winner` and `winningCells` are `calculateWinner(board, boardSize)`. */
  predicate Judged(s: State)
  {
    var v := CalculateWinner(s.board, s.boardSize);
    s.winner == v.winner && s.winningCells == v.winningCells
  }

  /** The largest r with r*r <= m: `Math.sqrt` of a board length. */
  function IntSqrt(m: nat): (r: nat)
    ensures r * r <= m < (r + 1) * (r + 1)
  {
    if m == 0 then 0
    else
      var q := IntSqrt(m - 1);
      assert (q + 2) * (q + 2) == (q + 1) * (q + 1) + 2 * q + 3;
      if (q + 1) * (q + 1) <= m then q + 1 else q
  }

  lemma SquareMonotone(a: nat, b: nat)
    requires a <= b
    ensures a * a <= b * b
  {
    MulMonotone(a, b, a);
    MulMonotone(a, b, b);
  }

  /** On a perfect square, `Math.sqrt` is exact. */
  lemma SqrtOfSquare(n: nat)
    ensures IntSqrt(n * n) == n
  {
    var m := n * n;
    var r := IntSqrt(m);
    assert r * r <= m < (r + 1) * (r + 1);
    if r < n {
      SquareMonotone(r + 1, n);
      assert false;
    }
    if r > n {
      SquareMonotone(n + 1, r);
      assert false;
    }
  }

  // ---------------------------------------------------------------------
  // Transitions
  // ---------------------------------------------------------------------

  /** `setBoardSize(n)`: a fresh n-by-n board, X to move, empty stacks; `winningCells` and `thinking` are kept. */
  function Resize(s: State, n: nat): State
  {
    s.(boardSize := n, board := EmptyBoard(Area(n)), currentPlayer := X, winner := Ongoing,
       history := [], future := [], lastMove := None, gameStarted := false)
  }

  /** `makeMove(index)` goes ahead: no winner yet and `board[index]` is null. */
  predicate Moves(s: State, index: int)
  {
    s.winner.Ongoing? && IsNullAt(s.board, index)
  }

  /** After a move, the AI is asked to reply: AI mode, O to move and no winner. */
  predicate AiScheduled(s: State, index: int)
  {
    && Moves(s, index)
    && s.gameMode == "ai"
    && Other(s.currentPlayer) == O
    && CalculateWinner(s.board[index := Some(s.currentPlayer)], s.boardSize).winner.Ongoing?
  }

  /**
   * `makeMove(index)`: the current player's mark at `index`, the other
   * player to move, the verdict of the new board, a snapshot of the state
   * before the move on the history, the redo stack emptied, and `thinking`
   * set when the AI is to reply. Nothing changes when a winner is set or the
   * cell is not null.
   */
  function Play(s: State, index: int): (r: State)
    ensures !Moves(s, index) ==> r == s
  {
    if !Moves(s, index) then s
    else
      var newBoard := s.board[index := Some(s.currentPlayer)];
      var result := CalculateWinner(newBoard, s.boardSize);
      var next := Other(s.currentPlayer);
      s.(board := newBoard, currentPlayer := next, winner := result.winner,
         winningCells := result.winningCells,
         history := s.history + [Snapshot(s.board, s.currentPlayer, Some(index))],
         future := [], lastMove := Some(index), gameStarted := true,
         thinking := s.thinking || (s.gameMode == "ai" && next == O && result.winner.Ongoing?))
  }

  /**
   * The AI's reply once its move is chosen: null only clears `thinking`;
   * otherwise the current player's mark goes at the chosen cell (nowhere
   * for `undefined`), the turn passes, the verdict is recomputed and the
   * state before the reply is pushed on the history.
   */
  function ApplyAiMove(s: State, m: AiMove): (r: State)
    requires m.At? ==> m.index < |s.board|
    ensures m.NullMove? ==> r == s.(thinking := false)
  {
    if m.NullMove? then s.(thinking := false)
    else
      var boardAfterAI := if m.At? then s.board[m.index := Some(s.currentPlayer)] else s.board;
      var aiResult := CalculateWinner(boardAfterAI, s.boardSize);
      var move := if m.At? then Some(m.index) else None;
      s.(board := boardAfterAI, currentPlayer := Other(s.currentPlayer),
         winner := aiResult.winner, winningCells := aiResult.winningCells,
         lastMove := move, thinking := false,
         history := s.history + [Snapshot(s.board, s.currentPlayer, move)])
  }

  /** One `undoOnce`: back to the last snapshot, the current state pushed on the redo stack. */
  function StepBack(s: State): State
    requires |s.history| > 0
  {
    var last := s.history[|s.history| - 1];
    s.(board := last.board, currentPlayer := last.currentPlayer, winner := Ongoing, winningCells := [],
       history := s.history[..|s.history| - 1],
       future := [Snapshot(s.board, s.currentPlayer, None)] + s.future,
       lastMove := None)
  }

  /**
   * `undoMove`: nothing while the AI is thinking or with an empty history;
   * otherwise one step back, and a second one in AI mode when the history
   * held more than one snapshot.
   */
  function Undo(s: State): (r: State)
    ensures s.thinking || |s.history| == 0 ==> r == s
  {
    if s.thinking || |s.history| == 0 then s
    else
      var u := StepBack(s);
      if s.gameMode == "ai" && |s.history| > 1 then StepBack(u) else u
  }

  /**
   * `redoMove` as written: nothing while thinking or with an empty redo
   * stack; otherwise the head of the redo stack becomes the state, judged
   * at size `Math.sqrt` of its length, and that same entry (the state
   * AFTER the redone move) is appended to the history.
   */
  function Redo(s: State): (r: State)
    ensures s.thinking || |s.future| == 0 ==> r == s
  {
    if s.thinking || |s.future| == 0 then s
    else
      var next := s.future[0];
      var result := CalculateWinner(next.board, IntSqrt(|next.board|));
      s.(board := next.board, currentPlayer := next.currentPlayer, winner := result.winner,
         winningCells := result.winningCells, history := s.history + [next],
         future := s.future[1..], lastMove := None)
  }

  /** Redo pushing the state BEFORE the redone move, as undo expects of a history entry. */
  function RedoFixed(s: State): (r: State)
    ensures s.thinking || |s.future| == 0 ==> r == s
  {
    if s.thinking || |s.future| == 0 then s
    else
      var next := s.future[0];
      var result := CalculateWinner(next.board, IntSqrt(|next.board|));
      s.(board := next.board, currentPlayer := next.currentPlayer, winner := result.winner,
         winningCells := result.winningCells,
         history := s.history + [Snapshot(s.board, s.currentPlayer, s.lastMove)],
         future := s.future[1..], lastMove := None)
  }

  /** `resetGame`: a fresh board of the current size, X to move, empty stacks, mode and difficulty kept. */
  function Reset(s: State): State
  {
    s.(board := EmptyBoard(Area(s.boardSize)), currentPlayer := X, winner := Ongoing,
       winningCells := [], history := [], future := [], lastMove := None, thinking := false,
       gameStarted := false)
  }

  /** `_hydrate`: the verdict recomputed from the board and size. */
  function Hydrate(s: State): State
  {
    var result := CalculateWinner(s.board, s.boardSize);
    s.(winner := result.winner, winningCells := result.winningCells)
  }

  // ---------------------------------------------------------------------
  // Properties
  // ---------------------------------------------------------------------

  /** A board-size change and a reset leave a valid store, whatever the store was. */
  lemma ResetsAreValid(s: State, n: nat)
    ensures Valid(Resize(s, n)) && Valid(Reset(s))
  {
  }

  /** A move and the AI's reply keep the store valid. */
  lemma MovesKeepValid(s: State, index: int, m: AiMove)
    requires Valid(s)
    requires m.At? ==> m.index < |s.board|
    ensures Valid(Play(s, index)) && Valid(ApplyAiMove(s, m)) && Valid(Hydrate(s))
  {
  }

  /** Undo and both redos keep the store valid. */
  lemma UndoRedoKeepValid(s: State)
    requires Valid(s)
    ensures Valid(Undo(s)) && Valid(Redo(s)) && Valid(RedoFixed(s))
  {
    if !s.thinking && |s.history| > 0 {
      StepBackKeepsValid(s);
      if |s.history| > 1 {
        StepBackKeepsValid(StepBack(s));
      }
    }
  }

  lemma StepBackKeepsValid(s: State)
    requires Valid(s) && |s.history| > 0
    ensures Valid(StepBack(s))
  {
  }

  /** A board-size change leaves a board of n*n null cells, X to move and empty stacks. */
  lemma ResizeMeaning(s: State, n: nat)
    ensures var r := Resize(s, n);
      && |r.board| == Area(n) && (forall i :: 0 <= i < Area(n) ==> r.board[i].None?)
      && r.history == [] && r.future == [] && r.currentPlayer == X && r.winner.Ongoing?
      && r.winningCells == s.winningCells && r.thinking == s.thinking
  {
  }

  /** A reset leaves a fresh board of the same size and keeps the mode and the difficulty. */
  lemma ResetMeaning(s: State)
    ensures var r := Reset(s);
      && |r.board| == Area(s.boardSize) && (forall i :: 0 <= i < |r.board| ==> r.board[i].None?)
      && r.history == [] && r.future == [] && r.currentPlayer == X && r.winner.Ongoing?
      && !r.thinking && !r.gameStarted && r.gameMode == s.gameMode && r.difficulty == s.difficulty
  {
  }

  /**
   * A move that goes ahead marks exactly its cell with the mover, passes the
   * turn, judges the new board, snapshots the state before it and empties
   * the redo stack.
   */
  lemma PlayMeaning(s: State, index: int)
    requires Moves(s, index)
    ensures var r := Play(s, index);
      && Judged(r) && r.future == [] && r.gameStarted && |r.board| == |s.board|
      && r.history == s.history + [Snapshot(s.board, s.currentPlayer, Some(index))]
      && r.board[index] == Some(s.currentPlayer)
      && (forall j :: 0 <= j < |s.board| && j != index ==> r.board[j] == s.board[j])
      && r.currentPlayer != s.currentPlayer
      && r.thinking == (AiScheduled(s, index) || s.thinking)
  {
  }

  /** The AI's reply passes the turn, judges the board and snapshots the state before it. */
  lemma ApplyAiMeaning(s: State, m: AiMove)
    requires m.At? ==> m.index < |s.board|
    requires !m.NullMove?
    ensures var r := ApplyAiMove(s, m);
      && Judged(r) && !r.thinking && r.future == s.future
      && r.currentPlayer != s.currentPlayer
      && |r.history| == |s.history| + 1 && r.history[..|s.history|] == s.history
      && r.history[|s.history|].board == s.board && r.history[|s.history|].currentPlayer == s.currentPlayer
      && (m.At? ==> r.board == s.board[m.index := Some(s.currentPlayer)])
      && (m.Undefined? ==> r.board == s.board)
  {
    assert ApplyAiMove(s, m).history[..|s.history|] == s.history;
  }

  /**
   * An undo that acts drops one snapshot (two in AI mode with more than
   * one) and returns to the board and player of the earliest one dropped;
   * each step pushes the state it leaves, without its last move, on the
   * redo stack, so the current state ends up deepest of the new entries.
   */
  lemma UndoMeaning(s: State)
    requires !s.thinking && |s.history| > 0
    ensures var r := Undo(s);
      |r.history| == |s.history| - (if s.gameMode == "ai" && |s.history| > 1 then 2 else 1)
      && r.history == s.history[..|r.history|] && r.winner.Ongoing? && r.lastMove.None?
      && r.winningCells == []
      && r.board == s.history[|r.history|].board && r.currentPlayer == s.history[|r.history|].currentPlayer
    ensures var r := Undo(s); var last := s.history[|s.history| - 1];
      r.future == (if s.gameMode == "ai" && |s.history| > 1
                   then [Snapshot(last.board, last.currentPlayer, None), Snapshot(s.board, s.currentPlayer, None)]
                   else [Snapshot(s.board, s.currentPlayer, None)]) + s.future
  {
    var u := StepBack(s);
    if s.gameMode == "ai" && |s.history| > 1 {
      assert u.history[..|u.history| - 1] == s.history[..|s.history| - 2];
    }
  }

  /** `_hydrate` judges the board, and changes nothing on a judged state. */
  lemma HydrateMeaning(s: State)
    ensures Judged(Hydrate(s)) && Hydrate(s).board == s.board
    ensures Judged(s) <==> Hydrate(s) == s
  {
  }

  /** `canUndo`/`canRedo` are exactly when undo/redo can act while the AI is idle. */
  lemma CanUndoRedoMeaning(s: State)
    requires !s.thinking
    ensures Undo(s) != s <== |s.history| > 0
    ensures |s.history| == 0 ==> Undo(s) == s
    ensures |s.future| == 0 ==> Redo(s) == s
    ensures |s.future| > 0 ==> Redo(s).future == s.future[1..] && Redo(s).history == s.history + [s.future[0]]
  {
    if |s.history| > 0 {
      assert |Undo(s).history| < |s.history|;
    }
  }

  /** In two-player mode, undo right after a move restores the board, the player and the history. */
  lemma MoveThenUndo(s: State, index: int)
    requires !s.thinking && Moves(s, index) && s.gameMode != "ai"
    ensures var t := Undo(Play(s, index));
      t.board == s.board && t.currentPlayer == s.currentPlayer && t.history == s.history
      && t.winner.Ongoing? && t.future == [Snapshot(Play(s, index).board, Other(s.currentPlayer), None)]
  {
    var m := Play(s, index);
    assert m.history[..|m.history| - 1] == s.history;
  }

  /**
   * In AI mode a move and the AI's reply are taken back by one undo: the
   * board, the player and the history are those before the move.
   */
  lemma AiMoveThenUndo(s: State, index: int, j: nat)
    requires !s.thinking && AiScheduled(s, index)
    requires IsNullAt(Play(s, index).board, j)
    ensures var t := Undo(ApplyAiMove(Play(s, index), At(j)));
      t.board == s.board && t.currentPlayer == s.currentPlayer && t.history == s.history && t.winner.Ongoing?
  {
    var m := Play(s, index);
    var a := ApplyAiMove(m, At(j));
    assert a.history == s.history + [Snapshot(s.board, s.currentPlayer, Some(index)), Snapshot(m.board, m.currentPlayer, Some(j))];
    assert a.history[..|s.history|] == s.history;
  }

  /**
   * Redo right after an undo in two-player mode gives back the board, the
   * player, the verdict and the redo stack; the history's last entry,
   * though, is now the state after the move rather than before it.
   */
  lemma UndoThenRedo(s: State)
    requires Valid(s) && !s.thinking && |s.history| > 0 && s.gameMode != "ai"
    ensures var r := Redo(Undo(s));
      && r.board == s.board && r.currentPlayer == s.currentPlayer && r.future == s.future
      && r.winner == CalculateWinner(s.board, s.boardSize).winner
      && r.history == s.history[..|s.history| - 1] + [Snapshot(s.board, s.currentPlayer, None)]
  {
    SqrtOfSquare(s.boardSize);
  }

  /**
   * As written, undo right after a redo (two-player mode) leaves the board
   * as the redo made it: the history entry it returns to is the redone
   * state itself.
   */
  lemma RedoThenUndoStays(s: State)
    requires Valid(s) && !s.thinking && |s.future| > 0 && s.gameMode != "ai"
    ensures Undo(Redo(s)).board == Redo(s).board == s.future[0].board
    ensures Undo(Redo(s)).currentPlayer == s.future[0].currentPlayer
  {
  }

  /** X plays cell 0 on a fresh two-player store; undo, redo and undo again: X is still on cell 0. */
  lemma RedoThenUndoExample()
    ensures var s1 := Play(Initial(), 0);
      var s2 := Undo(s1);
      var s4 := Undo(Redo(s2));
      s2.board[0].None? && s4.board[0] == Some(X) && s4.board == s1.board
  {
    var s1 := Play(Initial(), 0);
    assert Moves(Initial(), 0);
    var s2 := Undo(s1);
    assert s2.future[0].board == s1.board;
    RedoThenUndoStays(s2);
  }

  /** With the corrected redo, undo right after a redo restores the state's board, player and both stacks. */
  lemma RedoFixedThenUndo(s: State)
    requires Valid(s) && !s.thinking && |s.future| > 0 && s.gameMode != "ai"
    ensures var t := Undo(RedoFixed(s));
      t.board == s.board && t.currentPlayer == s.currentPlayer && t.history == s.history && t.future == s.future
  {
    var r := RedoFixed(s);
    assert r.history[..|r.history| - 1] == s.history;
    assert [Snapshot(r.board, r.currentPlayer, None)] + s.future[1..] == s.future;
  }

  /** A redo on a valid store judges the redone board at the store's size. */
  lemma RedoIsJudged(s: State)
    requires Valid(s) && !s.thinking && |s.future| > 0
    ensures Judged(Redo(s)) && Judged(RedoFixed(s))
  {
    SqrtOfSquare(s.boardSize);
  }

  /** A reset store on a board of size at least 1 is judged: no winner, no winning cells. */
  lemma ResetIsJudged(s: State)
    requires s.boardSize >= 1
    ensures Judged(Reset(s))
  {
    EmptyBoardOngoing(s.boardSize);
  }

  /**
   * The AI's choice at each difficulty, O against X: easy picks a null cell
   * by `roll`; normal errs when `roll` < 0.35 and then picks by `pick`; hard
   * never errs; expert searches and answers optimally. A chosen cell is always
   * null.
   */
  method ChooseAiMove(board: seq<Cell>, n: nat, level: Difficulty, roll: real, pick: real) returns (m: AiMove)
    requires |board| == Area(n)
    requires 0.0 <= roll < 1.0 && 0.0 <= pick < 1.0
    ensures m.At? ==> IsNullAt(board, m.index)
    ensures level == Easy ==> m == MakeAIMoveEasy(board, roll)
    ensures level == Normal ==>
      m == (if roll < 0.35 then MistakePick(board, pick) else HeuristicPick(board, n, O, X))
    ensures level == Hard ==> m == HeuristicPick(board, n, O, X)
    ensures level == Expert ==> ExpertAnswer(board, n, O, X, m)
  {
    match level
    case Easy => m := MakeAIMoveEasy(board, roll);
    case Normal => m := MakeAIMoveHeuristic(board, n, O, X, 0.35, roll, pick);
    case Hard => m := MakeAIMoveHeuristic(board, n, O, X, 0.0, roll, pick);
    case Expert => m := MakeAIMoveExpert(board, n, O, X);
  }
}
