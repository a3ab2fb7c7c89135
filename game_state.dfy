/**
 * The authoritative room state the server broadcasts after every change
 * (server/utils/gameState.js, `syncGameState`): the history of moves is
 * replayed onto a fresh nine-cell board, the board is judged by the
 * server's winner check as a 3x3 board whatever the room's grid size, and
 * the side to move follows from the length of the history.
 *
 * The two lists are read from the store by the caller and passed in; the
 * broadcast payload is the result.
 */
module GameState {
  import opened Options
  import opened Board
  import opened ServerBoard

  /** A logged move `{ index, symbol }`. */
  datatype Move = Move(index: nat, symbol: Player)

  /** The `sync_state` payload. */
  datatype SyncState = SyncState(
    board: seq<Cell>,
    history: seq<Move>,
    future: seq<Move>,
    currentPlayer: Player,
    winner: Outcome,
    winningCells: Option<seq<int>>,
    lastMove: Option<nat>)

  /** Every move of the log names one of the nine cells. */
  predicate OnBoard(moves: seq<Move>)
  {
    forall k :: 0 <= k < |moves| ==> moves[k].index < 9
  }

  /** The board after writing the moves in order onto nine null cells. */
  function Replay(moves: seq<Move>): (board: seq<Cell>)
    requires OnBoard(moves)
    ensures |board| == 9
    decreases |moves|
  {
    if |moves| == 0 then seq(9, _ => None)
    else
      var last := moves[|moves| - 1];
      Replay(moves[..|moves| - 1])[last.index := Some(last.symbol)]
  }

  /** The symbol of the last move at cell i, if any move names it. */
  function LastWrite(moves: seq<Move>, i: nat): Option<Player>
    decreases |moves|
  {
    if |moves| == 0 then None
    else if moves[|moves| - 1].index == i then Some(moves[|moves| - 1].symbol)
    else LastWrite(moves[..|moves| - 1], i)
  }

  /**
   * A replayed cell holds the symbol of the last move that names it, and is
   * null when no move does: a later move to the same cell overwrites.
   */
  lemma {:induction false} ReplayIsLastWrite(moves: seq<Move>, i: nat)
    requires OnBoard(moves) && i < 9
    ensures Replay(moves)[i] == LastWrite(moves, i)
    decreases |moves|
  {
    if |moves| > 0 {
      ReplayIsLastWrite(moves[..|moves| - 1], i);
    }
  }

  /**
   * The replay loop of `syncGameState`: a fresh nine-cell array, every
   * move's symbol written at its index in history order.
   */
  method ReplayOntoArray(history: seq<Move>) returns (board: array<Cell>)
    requires OnBoard(history)
    ensures fresh(board) && board[..] == Replay(history)
  {
    board := new Cell[9](_ => None);
    for k := 0 to |history|
      invariant board[..] == Replay(history[..k])
    {
      assert history[..k + 1][..k] == history[..k];
      board[history[k].index] := Some(history[k].symbol);
    }
    assert history[..|history|] == history;
  }

  /**
   * `p` is the payload for the two lists: the replayed nine-cell board, the
   * two lists unchanged, X to move exactly after an even number of moves,
   * the server's 3x3 verdict on the board (`winningCells` null unless
   * someone won), and the index of the last logged move (null for an empty
   * log).
   */
  predicate SyncOf(history: seq<Move>, future: seq<Move>, p: SyncState)
    requires OnBoard(history)
  {
    && p.board == Replay(history)
    && p.history == history && p.future == future
    && (p.currentPlayer == X <==> |history| % 2 == 0)
    && p.winner == CalculateWinner(Replay(history), 3).winner
    && (p.winner.Won? ==> p.winningCells == Some(CalculateWinner(Replay(history), 3).winningCells))
    && (!p.winner.Won? ==> p.winningCells.None?)
    && (if |history| == 0 then p.lastMove.None? else p.lastMove == Some(history[|history| - 1].index))
  }

  /** `syncGameState`: the payload of the two lists. */
  method SyncGameState(history: seq<Move>, future: seq<Move>) returns (s: SyncState)
    requires OnBoard(history)
    ensures |s.board| == 9 && SyncOf(history, future, s)
  {
    var board := ReplayOntoArray(history);
    var result := ServerCalculateWinner(board[..], 3);
    var currentPlayer := if |history| % 2 == 0 then X else O;
    var lastMove := if |history| > 0 then Some(history[|history| - 1].index) else None;
    s := SyncState(board[..], history, future, currentPlayer, result.winner, result.winningCells, lastMove);
  }

  /** The payload of an empty log: nine null cells, X to move, nobody has won, no last move. */
  lemma SyncOfEmpty(p: SyncState)
    requires SyncOf([], [], p)
    ensures p.board == EmptyBoard(9) && p.history == [] && p.future == []
    ensures p.currentPlayer == X && p.winner == Ongoing && p.winningCells.None? && p.lastMove.None?
  {
    assert Replay([]) == EmptyBoard(3 * 3);
    EmptyBoardOngoing(3);
  }

  /**
   * The payload after a move: the board is the earlier board with the last
   * move's symbol written at its cell, the other player is to move and that
   * move is the last move.
   */
  lemma SyncAfterMove(history: seq<Move>, p: SyncState)
    requires OnBoard(history) && |history| > 0
    requires history[|history| - 1].symbol == (if |history| % 2 == 1 then X else O)
    requires SyncOf(history, [], p)
    ensures var m := history[|history| - 1];
      && p.board == Replay(history[..|history| - 1])[m.index := Some(m.symbol)]
      && p.currentPlayer == Other(m.symbol) && p.lastMove == Some(m.index)
  {
  }
}
