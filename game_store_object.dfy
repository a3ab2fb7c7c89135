/**
 * The store object of client/src/store/useGameStore.js. A zustand store
 * holds one state object; `get()` reads it and `set(partial)` merges the
 * given fields into it. Here the object is the field `state`, and each
 * `set` is a record update of that field, in the order the actions make
 * them. Each method is proved to perform its action's transition.
 */
module LocalStoreObject {
  import opened Options
  import opened Board
  import opened Ai
  import opened LocalStore

  class GameStore {
    var state: State

    constructor ()
      ensures state == Initial() && Valid(state)
    {
      state := Initial();
    }

    method SetBoardSize(n: nat)
      modifies this
      ensures state == Resize(old(state), n)
    {
      state := state.(boardSize := n, board := EmptyBoard(Area(n)), currentPlayer := X, winner := Ongoing,
                      history := [], future := [], lastMove := None, gameStarted := false);
    }

    /**
     * `makeMove(index)`; `scheduled` says whether the AI reply was set off,
     * to be taken by `AiFollowUp` with the difficulty read here.
     */
    method MakeMove(index: int) returns (scheduled: bool)
      modifies this
      ensures state == Play(old(state), index)
      ensures scheduled == AiScheduled(old(state), index)
    {
      var s := state;
      if s.winner != Ongoing || !(0 <= index < |s.board| && s.board[index] == None) {
        return false;
      }
      var newBoard := s.board[index := Some(s.currentPlayer)];
      var result := CalculateWinner(newBoard, s.boardSize);
      var nextPlayer := Other(s.currentPlayer);
      state := state.(board := newBoard, currentPlayer := nextPlayer, winner := result.winner,
                      winningCells := result.winningCells,
                      history := state.history + [Snapshot(s.board, s.currentPlayer, Some(index))],
                      future := [], lastMove := Some(index), gameStarted := true);
      scheduled := s.gameMode == "ai" && nextPlayer == O && result.winner.Ongoing?;
      if scheduled {
        state := state.(thinking := true);
      }
    }

    /**
     * The delayed AI reply at `level`, the difficulty read when the move was
     * made: the move is chosen on the state as it is when the reply runs,
     * and played.
     */
    method AiFollowUp(level: Difficulty, roll: real, pick: real) returns (m: AiMove)
      requires Valid(state)
      requires 0.0 <= roll < 1.0 && 0.0 <= pick < 1.0
      modifies this
      ensures m.At? ==> IsNullAt(old(state).board, m.index)
      ensures state == ApplyAiMove(old(state), m)
      ensures level == Easy ==> m == MakeAIMoveEasy(old(state).board, roll)
      ensures level == Normal ==>
        m == (if roll < 0.35 then MistakePick(old(state).board, pick)
              else HeuristicPick(old(state).board, old(state).boardSize, O, X))
      ensures level == Hard ==> m == HeuristicPick(old(state).board, old(state).boardSize, O, X)
      ensures level == Expert ==> ExpertAnswer(old(state).board, old(state).boardSize, O, X, m)
    {
      var s := state;
      m := ChooseAiMove(s.board, s.boardSize, level, roll, pick);
      if m.NullMove? {
        state := state.(thinking := false);
        return;
      }
      var boardAfterAI := if m.At? then s.board[m.index := Some(s.currentPlayer)] else s.board;
      var aiResult := CalculateWinner(boardAfterAI, s.boardSize);
      var move := if m.At? then Some(m.index) else None;
      state := state.(board := boardAfterAI, currentPlayer := Other(s.currentPlayer),
                      winner := aiResult.winner, winningCells := aiResult.winningCells,
                      lastMove := move, thinking := false,
                      history := state.history + [Snapshot(state.board, state.currentPlayer, move)]);
    }

    /** One `undoOnce`: reads the last snapshot, then sets. */
    method UndoOnce()
      requires |state.history| > 0
      modifies this
      ensures state == StepBack(old(state))
    {
      var last := state.history[|state.history| - 1];
      state := state.(board := last.board, currentPlayer := last.currentPlayer, winner := Ongoing,
                      winningCells := [], history := state.history[..|state.history| - 1],
                      future := [Snapshot(state.board, state.currentPlayer, None)] + state.future,
                      lastMove := None);
    }

    method UndoMove()
      modifies this
      ensures state == Undo(old(state))
    {
      var s := state;
      if s.thinking || |s.history| == 0 {
        return;
      }
      UndoOnce();
      if s.gameMode == "ai" && |s.history| > 1 {
        UndoOnce();
      }
    }

    method RedoMove()
      modifies this
      ensures state == Redo(old(state))
    {
      var s := state;
      if s.thinking || |s.future| == 0 {
        return;
      }
      var next := s.future[0];
      var result := CalculateWinner(next.board, IntSqrt(|next.board|));
      state := state.(board := next.board, currentPlayer := next.currentPlayer, winner := result.winner,
                      winningCells := result.winningCells, history := state.history + [next],
                      future := state.future[1..], lastMove := None);
    }

    method ResetGame()
      modifies this
      ensures state == Reset(old(state))
    {
      var s := state;
      state := State(s.boardSize, EmptyBoard(Area(s.boardSize)), X, Ongoing, [], [], [],
                     s.gameMode, s.difficulty, None, false, false);
    }

    method CanUndo() returns (b: bool)
      ensures b <==> |state.history| > 0
    {
      b := |state.history| > 0;
    }

    method CanRedo() returns (b: bool)
      ensures b <==> |state.future| > 0
    {
      b := |state.future| > 0;
    }

    method HydrateStore()
      modifies this
      ensures state == Hydrate(old(state))
    {
      var s := state;
      var result := CalculateWinner(s.board, s.boardSize);
      state := state.(winner := result.winner, winningCells := result.winningCells);
    }
  }
}
