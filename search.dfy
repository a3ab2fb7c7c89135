/**
 * The Expert AI's search (client/src/utils/gameHelpers.js): the positional
 * score `evaluateBoard`, the 3x3 alpha-beta search `minimaxAB` and the
 * depth-limited N-by-N search `minimaxNxN`.
 *
 * The searches keep `alpha`, `beta` and the best score in the extended
 * integers of `AlphaBeta`, because the source starts them at -Infinity and
 * Infinity; every score a search returns is finite.
 */
module Search {
  import opened Options
  import opened Board
  import opened AlphaBeta

  // ---------------------------------------------------------------------
  // The positional score
  // ---------------------------------------------------------------------

  function Pow10(k: nat): (r: nat)
    ensures r >= 1
  {
    if k == 0 then 1 else 10 * Pow10(k - 1)
  }

  /** How many cells of `line` hold mark `p`. */
  function CountMarks(board: seq<Cell>, line: seq<int>, p: Player): (c: nat)
    ensures c <= |line|
    decreases |line|
  {
    if |line| == 0 then 0
    else CountMarks(board, line[..|line| - 1], p) + (if MarkAt(board, line[|line| - 1]) == Some(p) then 1 else 0)
  }

  /** A line with only a > 0 AI marks scores 10^a, one with only h > 0 human marks -10^h, any other 0. */
  function LineScore(board: seq<Cell>, line: seq<int>, ai: Player, human: Player): int
  {
    var a := CountMarks(board, line, ai);
    var h := CountMarks(board, line, human);
    if a > 0 && h == 0 then Pow10(a) as int
    else if h > 0 && a == 0 then -(Pow10(h) as int)
    else 0
  }

  /** The sum of the line scores. */
  function ScoreOf(board: seq<Cell>, lines: seq<seq<int>>, ai: Player, human: Player): int
    decreases |lines|
  {
    if |lines| == 0 then 0
    else ScoreOf(board, lines[..|lines| - 1], ai, human) + LineScore(board, lines[|lines| - 1], ai, human)
  }

  /** `evaluateBoard(board, n, aiPlayer, humanPlayer)` as a sum over the lines of the board. */
  function BoardScore(board: seq<Cell>, n: nat, ai: Player, human: Player): int
  {
    ScoreOf(board, Lines(n), ai, human)
  }

  /** The inner loop of `evaluateBoard`: count the AI's and the human's marks on one line. */
  method CountLine(board: seq<Cell>, line: seq<int>, ai: Player, human: Player) returns (a: nat, h: nat)
    ensures a == CountMarks(board, line, ai) && h == CountMarks(board, line, human)
  {
    a, h := 0, 0;
    for t := 0 to |line|
      invariant a == CountMarks(board, line[..t], ai)
      invariant h == CountMarks(board, line[..t], human)
    {
      assert line[..t + 1][..t] == line[..t];
      if MarkAt(board, line[t]) == Some(ai) {
        a := a + 1;
      }
      if MarkAt(board, line[t]) == Some(human) {
        h := h + 1;
      }
    }
    assert line[..|line|] == line;
  }

  /** Adding one more line adds its line score. */
  lemma ScoreOfSnoc(board: seq<Cell>, lines: seq<seq<int>>, k: nat, ai: Player, human: Player)
    requires k < |lines|
    ensures ScoreOf(board, lines[..k + 1], ai, human) == ScoreOf(board, lines[..k], ai, human) + LineScore(board, lines[k], ai, human)
  {
    assert lines[..k + 1][..k] == lines[..k];
  }

  /** The outer loop of `evaluateBoard`: add up the line scores of `lines`. */
  method ScoreLines(board: seq<Cell>, lines: seq<seq<int>>, ai: Player, human: Player) returns (score: int)
    ensures score == ScoreOf(board, lines, ai, human)
  {
    score := 0;
    for k := 0 to |lines|
      invariant score == ScoreOf(board, lines[..k], ai, human)
    {
      var a, h := CountLine(board, lines[k], ai, human);
      ScoreOfSnoc(board, lines, k, ai, human);
      if a > 0 && h == 0 {
        score := score + Pow10(a);
      }
      if h > 0 && a == 0 {
        score := score - Pow10(h);
      }
    }
    assert lines[..|lines|] == lines;
  }

  /** `evaluateBoard`: the counting loops over every line of the board. */
  method EvaluateBoard(board: seq<Cell>, n: nat, ai: Player, human: Player) returns (score: int)
    ensures score == BoardScore(board, n, ai, human)
  {
    score := ScoreLines(board, Lines(n), ai, human);
  }

  /** Swapping the two sides negates the score of every set of lines. */
  lemma {:induction false} ScoreOfAntisymmetric(board: seq<Cell>, lines: seq<seq<int>>, ai: Player, human: Player)
    ensures ScoreOf(board, lines, ai, human) == -ScoreOf(board, lines, human, ai)
    decreases |lines|
  {
    if |lines| > 0 {
      ScoreOfAntisymmetric(board, lines[..|lines| - 1], ai, human);
    }
  }

  /** The position is worth to one side exactly what it costs the other. */
  lemma BoardScoreAntisymmetric(board: seq<Cell>, n: nat, ai: Player, human: Player)
    ensures BoardScore(board, n, ai, human) == -BoardScore(board, n, human, ai)
  {
    ScoreOfAntisymmetric(board, Lines(n), ai, human);
  }

  /** No mark on any line: the score is 0. */
  lemma {:induction false} ScoreOfUnmarked(board: seq<Cell>, lines: seq<seq<int>>, ai: Player, human: Player)
    requires forall i :: 0 <= i < |board| ==> board[i].None?
    ensures ScoreOf(board, lines, ai, human) == 0
    decreases |lines|
  {
    if |lines| > 0 {
      ScoreOfUnmarked(board, lines[..|lines| - 1], ai, human);
      CountUnmarked(board, lines[|lines| - 1], ai);
      CountUnmarked(board, lines[|lines| - 1], human);
    }
  }

  lemma {:induction false} CountUnmarked(board: seq<Cell>, line: seq<int>, p: Player)
    requires forall i :: 0 <= i < |board| ==> board[i].None?
    ensures CountMarks(board, line, p) == 0
    decreases |line|
  {
    if |line| > 0 {
      CountUnmarked(board, line[..|line| - 1], p);
    }
  }

  /** A search result `{ score, index }`; `index` None stands for an absent index. */
  datatype Scored = Scored(score: int, index: Option<nat>)

  // ---------------------------------------------------------------------
  // minimaxAB: full-depth search of the 3x3 board
  // ---------------------------------------------------------------------

  /** The search stops: the AI has won, the human has won, or no cell is null. */
  predicate Terminal3(board: seq<Cell>, ai: Player, human: Player)
  {
    var w := CalculateWinner(board, 3).winner;
    w == Won(ai) || w == Won(human) || Full(board)
  }

  /** The stop score: +1 for an AI win, -1 for a human win, 0 for a full board. */
  function TerminalScore3(board: seq<Cell>, ai: Player, human: Player): int
  {
    var w := CalculateWinner(board, 3).winner;
    if w == Won(ai) then 1 else if w == Won(human) then -1 else 0
  }

  /**
   * The minimax value of a 3x3 position with `player` to move, without
   * pruning: the stop score, or the best value over the null cells, the
   * highest when the AI moves and the lowest otherwise.
   */
  ghost function GameValue(board: seq<Cell>, player: Player, ai: Player, human: Player): int
    requires |board| == 9
    decreases NullCount(board), 2
  {
    if Terminal3(board, ai, human) then TerminalScore3(board, ai, human)
    else
      var best := BestOf(player == ai, ChildValues3(board, player, ai, human));
      if best.Fin? then best.v else 0
  }

  /** The player who moves after `player`. */
  function Next(player: Player, ai: Player, human: Player): Player
  {
    if player == ai then human else ai
  }

  /** The value after `player` marks null cell i. */
  ghost function ChildValue(board: seq<Cell>, player: Player, ai: Player, human: Player, i: nat): int
    requires |board| == 9 && i < 9 && board[i].None?
    decreases NullCount(board), 0
  {
    NullCountFill(board, i, player);
    GameValue(board[i := Some(player)], Next(player, ai, human), ai, human)
  }

  /** The child values of the nine cells, None for a marked cell. */
  ghost function ChildValues3(board: seq<Cell>, player: Player, ai: Player, human: Player): (values: seq<Option<int>>)
    requires |board| == 9
    decreases NullCount(board), 1
  {
    seq(9, j requires 0 <= j < 9 => if board[j].None? then Some(ChildValue(board, player, ai, human, j)) else None)
  }

  /**
   * `minimaxAB(board, player, aiPlayer, humanPlayer, alpha, beta)`. On a
   * board where the search stops it returns the stop score and no index;
   * otherwise the index of a null cell. The score is always in [-1, 1].
   * Against the unpruned value `GameValue` the result is a fail-soft
   * alpha-beta bound, and a result inside the window is the exact value,
   * reached by marking the returned cell.
   */
  method MinimaxAB(board: seq<Cell>, player: Player, ai: Player, human: Player, alpha: Ext, beta: Ext)
    returns (r: Scored)
    requires |board| == 9
    ensures -1 <= r.score <= 1
    ensures Terminal3(board, ai, human) ==> r == Scored(TerminalScore3(board, ai, human), None)
    ensures !Terminal3(board, ai, human) ==> r.index.Some? && IsNullAt(board, r.index.value)
    ensures Less(alpha, beta) ==> Within(alpha, beta, r.score, GameValue(board, player, ai, human))
    ensures Less(alpha, beta) && r.index.Some? && Less(alpha, Fin(r.score)) && Less(Fin(r.score), beta) ==>
      r.index.value < 9 && board[r.index.value].None? &&
      ChildValue(board, player, ai, human, r.index.value) == r.score
    decreases NullCount(board), 2
  {
    var result := CalculateWinner(board, 3);
    if result.winner == Won(ai) {
      return Scored(1, None);
    }
    if result.winner == Won(human) {
      return Scored(-1, None);
    }
    if forall j :: 0 <= j < |board| ==> board[j].Some? {
      return Scored(0, None);
    }
    r := SearchMoves(board, player, ai, human, alpha, beta);
  }

  /**
   * What the move loop of `minimaxAB` knows once it has passed the first
   * |results| cells (None for a marked cell it skipped): the results are
   * consistent with the child values, the best score, its index and the
   * window are the loop state `Run` gives after them, and every score is in
   * [-1, 1].
   */
  ghost predicate LoopAB(board: seq<Cell>, player: Player, ai: Player, human: Player, alpha: Ext, beta: Ext,
                         results: seq<Option<int>>, bestScore: Ext, bestIndex: Option<nat>, bestAt: int, a: Ext, b: Ext)
  {
    && |board| == 9 && |results| <= 9
    && Consistent(player == ai, alpha, beta, results, ChildValues3(board, player, ai, human))
    && Run(player == ai, alpha, beta, results) == Node(bestScore, bestAt, a, b)
    && bestIndex == (if bestAt < 0 then None else Some(bestAt as nat))
    && (bestScore.Fin? ==> -1 <= bestScore.v <= 1)
  }

  /**
   * The move loop of `minimaxAB`, on a board with a null cell: it tries the
   * null cells in index order, keeps the first strictly best score, narrows
   * the window and stops once alpha is no longer below beta. Its result is a
   * null cell and a fail-soft bound on the best child value, exact inside
   * the window and then the value of the cell it names.
   */
  method SearchMoves(board: seq<Cell>, player: Player, ai: Player, human: Player, alpha: Ext, beta: Ext)
    returns (r: Scored)
    requires |board| == 9 && !Full(board)
    ensures r.index.Some? && r.index.value < 9 && board[r.index.value].None? && -1 <= r.score <= 1
    ensures BestOf(player == ai, ChildValues3(board, player, ai, human)).Fin?
    ensures Less(alpha, beta) ==>
      Within(alpha, beta, r.score, BestOf(player == ai, ChildValues3(board, player, ai, human)).v)
    ensures Less(alpha, beta) && Less(alpha, Fin(r.score)) && Less(Fin(r.score), beta) ==>
      ChildValue(board, player, ai, human, r.index.value) == r.score
    decreases NullCount(board), 1
  {
    ghost var results: seq<Option<int>> := [];
    var bestScore: Ext, bestIndex: Option<nat> := if player == ai then NegInf else PosInf, None;
    ghost var bestAt := -1;
    var a, b := alpha, beta;
    var i := 0;
    while i < 9
      invariant 0 <= i <= 9 && |results| == i
      invariant LoopAB(board, player, ai, human, alpha, beta, results, bestScore, bestIndex, bestAt, a, b)
      invariant Less(alpha, beta) ==> Less(a, b)
    {
      if board[i] == None {
        bestScore, bestIndex, a, b, bestAt, results :=
          Visit3(board, player, ai, human, alpha, beta, i, bestScore, bestIndex, a, b, bestAt, results);
        if !Less(a, b) {
          break;
        }
      } else {
        Skip3(board, player, ai, human, alpha, beta, results, bestScore, bestIndex, bestAt, a, b);
        results := results + [None];
      }
      i := i + 1;
    }
    SearchEnd3(board, player, ai, human, alpha, beta, results, bestScore, bestIndex, bestAt, a, b);
    r := Scored(bestScore.v, bestIndex);
  }

  /**
   * The body of `minimaxAB`'s move loop for null cell i: `player` marks i,
   * the position is searched with the other side to move in the window
   * (a, b), a strictly better score replaces the best, and alpha rises
   * (beta falls) to the score.
   */
  method Visit3(board: seq<Cell>, player: Player, ai: Player, human: Player, ghost alpha: Ext, ghost beta: Ext,
                i: nat, bestScore: Ext, bestIndex: Option<nat>, a: Ext, b: Ext,
                ghost bestAt: int, ghost results: seq<Option<int>>)
    returns (bestScore': Ext, bestIndex': Option<nat>, a': Ext, b': Ext, ghost bestAt': int, ghost results': seq<Option<int>>)
    requires |board| == 9 && i < 9 && board[i].None? && |results| == i
    requires LoopAB(board, player, ai, human, alpha, beta, results, bestScore, bestIndex, bestAt, a, b)
    requires Less(alpha, beta) ==> Less(a, b)
    ensures |results'| == i + 1 && results'[i].Some?
    ensures LoopAB(board, player, ai, human, alpha, beta, results', bestScore', bestIndex', bestAt', a', b')
    decreases NullCount(board), 0
  {
    var newBoard := board[i := Some(player)];
    NullCountFill(board, i, player);
    var nextPlayer := if player == ai then human else ai;
    var move := MinimaxAB(newBoard, nextPlayer, ai, human, a, b);
    RunTry(player == ai, alpha, beta, results, ChildValues3(board, player, ai, human), move.score);
    results' := results + [Some(move.score)];
    bestScore', bestIndex', a', b', bestAt' := bestScore, bestIndex, a, b, bestAt;
    if player == ai {
      if Less(bestScore, Fin(move.score)) {
        bestScore', bestIndex' := Fin(move.score), Some(i);
        bestAt' := i;
      }
      a' := Max(a, Fin(move.score));
    } else {
      if Less(Fin(move.score), bestScore) {
        bestScore', bestIndex' := Fin(move.score), Some(i);
        bestAt' := i;
      }
      b' := Min(b, Fin(move.score));
    }
  }

  /** The move loop of `minimaxAB` passes over a marked cell without changing its state. */
  lemma Skip3(board: seq<Cell>, player: Player, ai: Player, human: Player, alpha: Ext, beta: Ext,
              results: seq<Option<int>>, bestScore: Ext, bestIndex: Option<nat>, bestAt: int, a: Ext, b: Ext)
    requires |board| == 9 && |results| < 9 && board[|results|].Some?
    requires LoopAB(board, player, ai, human, alpha, beta, results, bestScore, bestIndex, bestAt, a, b)
    ensures LoopAB(board, player, ai, human, alpha, beta, results + [None], bestScore, bestIndex, bestAt, a, b)
  {
    RunSkip(player == ai, alpha, beta, results, ChildValues3(board, player, ai, human));
  }

  /**
   * When the move loop of `minimaxAB` ends, after the last cell or at a
   * cut-off, its best score is finite and names a null cell; it is a
   * fail-soft bound on the best child value, and inside the window it is
   * that cell's value.
   */
  lemma SearchEnd3(board: seq<Cell>, player: Player, ai: Player, human: Player, alpha: Ext, beta: Ext,
                   results: seq<Option<int>>, bestScore: Ext, bestIndex: Option<nat>, bestAt: int, a: Ext, b: Ext)
    requires !Full(board)
    requires LoopAB(board, player, ai, human, alpha, beta, results, bestScore, bestIndex, bestAt, a, b)
    requires |results| == 9 || (|results| > 0 && results[|results| - 1].Some? && !Less(a, b))
    ensures bestScore.Fin? && -1 <= bestScore.v <= 1
    ensures bestIndex.Some? && bestIndex.value < 9 && board[bestIndex.value].None?
    ensures BestOf(player == ai, ChildValues3(board, player, ai, human)).Fin?
    ensures Less(alpha, beta) ==>
      Within(alpha, beta, bestScore.v, BestOf(player == ai, ChildValues3(board, player, ai, human)).v)
    ensures Less(alpha, beta) && Less(alpha, bestScore) && Less(bestScore, beta) ==>
      ChildValue(board, player, ai, human, bestIndex.value) == bestScore.v
  {
    var values := ChildValues3(board, player, ai, human);
    var some :| 0 <= some < 9 && board[some].None?;
    assert values[some].Some?;
    RunDone(player == ai, alpha, beta, results, values);
  }

  // ---------------------------------------------------------------------
  // minimaxNxN: depth-limited search of any board
  // ---------------------------------------------------------------------

  /**
   * The depth-limited minimax value of an N-by-N position, without pruning:
   * +100000 / -100000 for a won board, 0 for a draw, `evaluateBoard` at the
   * depth limit, and otherwise the best value over the null cells (highest
   * at a maximising node, lowest at a minimising one).
   */
  ghost function DepthValue(board: seq<Cell>, n: nat, depth: int, maxDepth: int, isMax: bool,
                            ai: Player, human: Player): int
    decreases NullCount(board), 2
  {
    var w := CalculateWinner(board, n).winner;
    if w == Won(ai) then 100000
    else if w == Won(human) then -100000
    else if w == Draw then 0
    else if depth == maxDepth then BoardScore(board, n, ai, human)
    else
      var best := BestOf(isMax, ChildValues(board, n, depth, maxDepth, isMax, ai, human));
      if best.Fin? then best.v else 0
  }

  /** The value after the mover marks null cell idx. */
  ghost function ChildValueNxN(board: seq<Cell>, n: nat, depth: int, maxDepth: int, isMax: bool,
                               ai: Player, human: Player, idx: nat): int
    requires IsNullAt(board, idx)
    decreases NullCount(board), 0
  {
    var mark := if isMax then ai else human;
    NullCountFill(board, idx, mark);
    DepthValue(board[idx := Some(mark)], n, depth + 1, maxDepth, !isMax, ai, human)
  }

  /** The values of the children, one per null cell in index order. */
  ghost function ChildValues(board: seq<Cell>, n: nat, depth: int, maxDepth: int, isMax: bool,
                             ai: Player, human: Player): (values: seq<Option<int>>)
    decreases NullCount(board), 1
  {
    var cells := EmptyCells(board);
    seq(|cells|, k requires 0 <= k < |cells| => Some(ChildValueNxN(board, n, depth, maxDepth, isMax, ai, human, cells[k])))
  }

  /** Child k is the value of the k-th null cell. */
  lemma ChildValuesAt(board: seq<Cell>, n: nat, depth: int, maxDepth: int, isMax: bool,
                      ai: Player, human: Player, k: nat)
    requires k < |EmptyCells(board)|
    ensures |ChildValues(board, n, depth, maxDepth, isMax, ai, human)| == |EmptyCells(board)|
    ensures ChildValues(board, n, depth, maxDepth, isMax, ai, human)[k]
         == Some(ChildValueNxN(board, n, depth, maxDepth, isMax, ai, human, EmptyCells(board)[k]))
  {
  }

  /**
   * `minimaxNxN(board, n, depth, maxDepth, isMax, aiPlayer, humanPlayer, alpha, beta)`.
   * A won board scores +100000 for the AI and -100000 for the human, a drawn
   * board 0, each without an index; at `depth == maxDepth` the score is
   * `evaluateBoard`; otherwise the result names a null cell. Against the
   * unpruned `DepthValue` the score is a fail-soft alpha-beta bound, exact
   * inside the window and reached by marking the returned cell.
   */
  method MinimaxNxN(board: seq<Cell>, n: nat, depth: int, maxDepth: int, isMax: bool,
                    ai: Player, human: Player, alpha: Ext, beta: Ext)
    returns (r: Scored)
    requires ai != human  // every caller plays "O" against "X"
    ensures CalculateWinner(board, n).winner == Won(ai) ==> r == Scored(100000, None)
    ensures CalculateWinner(board, n).winner == Won(human) ==> r == Scored(-100000, None)
    ensures CalculateWinner(board, n).winner == Draw ==> r == Scored(0, None)
    ensures CalculateWinner(board, n).winner == Ongoing && depth == maxDepth ==>
      r == Scored(BoardScore(board, n, ai, human), None)
    ensures CalculateWinner(board, n).winner == Ongoing && depth != maxDepth ==>
      r.index.Some? && IsNullAt(board, r.index.value)
    ensures Less(alpha, beta) ==>
      Within(alpha, beta, r.score, DepthValue(board, n, depth, maxDepth, isMax, ai, human))
    ensures Less(alpha, beta) && r.index.Some? && Less(alpha, Fin(r.score)) && Less(Fin(r.score), beta) ==>
      IsNullAt(board, r.index.value) &&
      ChildValueNxN(board, n, depth, maxDepth, isMax, ai, human, r.index.value) == r.score
    decreases NullCount(board), 2
  {
    var result := CalculateWinner(board, n);
    if result.winner == Won(ai) {
      return Scored(100000, None);
    }
    if result.winner == Won(human) {
      return Scored(-100000, None);
    }
    if result.winner == Draw {
      return Scored(0, None);
    }
    if depth == maxDepth {
      var score := EvaluateBoard(board, n, ai, human);
      return Scored(score, None);
    }
    CalculateWinnerMeaning(board, n);
    var some :| 0 <= some < |board| && board[some].None?;
    assert some in EmptyCells(board);
    r := SearchMovesNxN(board, n, depth, maxDepth, isMax, ai, human, alpha, beta);
  }

  /**
   * What the move loop of `minimaxNxN` knows once it has searched the
   * children `results` (in the order of `EmptyCells`): they are consistent
   * with the child values, and the best score, its index and the window are
   * the loop state `Run` gives after them.
   */
  ghost predicate LoopNxN(board: seq<Cell>, n: nat, depth: int, maxDepth: int, isMax: bool,
                          ai: Player, human: Player, alpha: Ext, beta: Ext, results: seq<Option<int>>,
                          bestScore: Ext, bestIndex: Option<nat>, bestAt: int, a: Ext, b: Ext)
  {
    && |results| <= |EmptyCells(board)|
    && Consistent(isMax, alpha, beta, results,
                  ChildValues(board, n, depth, maxDepth, isMax, ai, human))
    && Run(isMax, alpha, beta, results) == Node(bestScore, bestAt, a, b)
    && bestIndex == (if bestAt < 0 then None else Some(EmptyCells(board)[bestAt]))
    && (|results| > 0 ==> bestAt >= 0)
  }

  /**
   * The move loop of `minimaxNxN`, on a board with a null cell: the null
   * cells in index order, the first strictly best score kept, the window
   * narrowed, and a stop once alpha is no longer below beta. The ghost
   * `results` are the scores of the children searched: the loop stopped
   * after the last null cell or at a cut-off, and the returned score and
   * index are the loop state after them.
   */
  method SearchMovesNxN(board: seq<Cell>, n: nat, depth: int, maxDepth: int, isMax: bool,
                        ai: Player, human: Player, alpha: Ext, beta: Ext)
    returns (r: Scored)
    requires ai != human && |EmptyCells(board)| > 0
    ensures r.index.Some? && IsNullAt(board, r.index.value)
    ensures BestOf(isMax, ChildValues(board, n, depth, maxDepth, isMax, ai, human)).Fin?
    ensures Less(alpha, beta) ==>
      Within(alpha, beta, r.score,
             BestOf(isMax, ChildValues(board, n, depth, maxDepth, isMax, ai, human)).v)
    ensures Less(alpha, beta) && Less(alpha, Fin(r.score)) && Less(Fin(r.score), beta) ==>
      ChildValueNxN(board, n, depth, maxDepth, isMax, ai, human, r.index.value) == r.score
    decreases NullCount(board), 1
  {
    var emptyCells := EmptyCells(board);
    ghost var results: seq<Option<int>> := [];
    var bestScore: Ext, bestIndex: Option<nat> := if isMax then NegInf else PosInf, None;
    ghost var bestAt := -1;
    var a, b := alpha, beta;
    var k := 0;
    while k < |emptyCells|
      invariant 0 <= k <= |emptyCells| && |results| == k
      invariant LoopNxN(board, n, depth, maxDepth, isMax, ai, human, alpha, beta, results, bestScore, bestIndex, bestAt, a, b)
      invariant Less(alpha, beta) ==> Less(a, b)
    {
      bestScore, bestIndex, a, b, bestAt, results :=
        VisitNxN(board, n, depth, maxDepth, isMax, ai, human, alpha, beta, emptyCells[k],
                 bestScore, bestIndex, a, b, bestAt, results);
      if !Less(a, b) {
        break;
      }
      k := k + 1;
    }
    SearchEndNxN(board, n, depth, maxDepth, isMax, ai, human, alpha, beta, results, bestScore, bestIndex, bestAt, a, b);
    r := Scored(bestScore.v, bestIndex);
  }

  /**
   * The body of `minimaxNxN`'s move loop for the next null cell idx: the
   * mover (`aiPlayer` when maximising) marks idx, the position is searched
   * one level deeper with the other side to move in the window (a, b), a
   * strictly better score replaces the best, and alpha rises (beta falls)
   * to the score.
   */
  method VisitNxN(board: seq<Cell>, n: nat, depth: int, maxDepth: int, isMax: bool,
                  ai: Player, human: Player, ghost alpha: Ext, ghost beta: Ext, idx: nat,
                  bestScore: Ext, bestIndex: Option<nat>, a: Ext, b: Ext, ghost bestAt: int, ghost results: seq<Option<int>>)
    returns (bestScore': Ext, bestIndex': Option<nat>, a': Ext, b': Ext, ghost bestAt': int, ghost results': seq<Option<int>>)
    requires ai != human && |results| < |EmptyCells(board)| && idx == EmptyCells(board)[|results|]
    requires LoopNxN(board, n, depth, maxDepth, isMax, ai, human, alpha, beta, results, bestScore, bestIndex, bestAt, a, b)
    requires Less(alpha, beta) ==> Less(a, b)
    ensures |results'| == |results| + 1 && results'[|results|].Some?
    ensures LoopNxN(board, n, depth, maxDepth, isMax, ai, human, alpha, beta, results', bestScore', bestIndex', bestAt', a', b')
    decreases NullCount(board), 0
  {
    var mark := if isMax then ai else human;
    var newBoard := board[idx := Some(mark)];
    NullCountFill(board, idx, mark);
    var move := MinimaxNxN(newBoard, n, depth + 1, maxDepth, !isMax, ai, human, a, b);
    StepNxN(board, n, depth, maxDepth, isMax, ai, human, alpha, beta, results, bestScore, bestIndex, bestAt, a, b, move.score);
    results' := results + [Some(move.score)];
    bestScore', bestIndex', a', b', bestAt' := bestScore, bestIndex, a, b, bestAt;
    if isMax {
      if Less(bestScore, Fin(move.score)) {
        bestScore', bestIndex' := Fin(move.score), Some(idx);
        bestAt' := |results|;
      }
      a' := Max(a, Fin(move.score));
    } else {
      if Less(Fin(move.score), bestScore) {
        bestScore', bestIndex' := Fin(move.score), Some(idx);
        bestAt' := |results|;
      }
      b' := Min(b, Fin(move.score));
    }
  }

  /** The loop state after the next null cell's child scored `score`, consistent with its value. */
  lemma StepNxN(board: seq<Cell>, n: nat, depth: int, maxDepth: int, isMax: bool,
                ai: Player, human: Player, alpha: Ext, beta: Ext, results: seq<Option<int>>,
                bestScore: Ext, bestIndex: Option<nat>, bestAt: int, a: Ext, b: Ext, score: int)
    requires |results| < |EmptyCells(board)|
    requires LoopNxN(board, n, depth, maxDepth, isMax, ai, human, alpha, beta, results, bestScore, bestIndex, bestAt, a, b)
    requires Less(alpha, beta) ==>
      (Less(a, b) &&
       Within(a, b, score, ChildValueNxN(board, n, depth, maxDepth, isMax, ai, human, EmptyCells(board)[|results|])))
    ensures var s := Update(isMax, Node(bestScore, bestAt, a, b), |results|, score);
      LoopNxN(board, n, depth, maxDepth, isMax, ai, human, alpha, beta, results + [Some(score)],
              s.best, if s.bestAt < 0 then None else Some(EmptyCells(board)[s.bestAt]), s.bestAt, s.a, s.b)
  {
    var values := ChildValues(board, n, depth, maxDepth, isMax, ai, human);
    var node := Node(bestScore, bestAt, a, b);
    var s := Update(isMax, node, |results|, score);
    ChildValuesAt(board, n, depth, maxDepth, isMax, ai, human, |results|);
    assert Run(isMax, alpha, beta, results) == node;
    RunTry(isMax, alpha, beta, results, values, score);
    UpdateHasBest(isMax, node, |results|, score);
    assert Consistent(isMax, alpha, beta, results + [Some(score)], values);
    assert Run(isMax, alpha, beta, results + [Some(score)]) == s;
  }

  /**
   * When the move loop of `minimaxNxN` ends, after the last null cell or at
   * a cut-off, its best score is finite and names a null cell; it is a
   * fail-soft bound on the best child value, and inside the window it is
   * that cell's value.
   */
  lemma SearchEndNxN(board: seq<Cell>, n: nat, depth: int, maxDepth: int, isMax: bool,
                     ai: Player, human: Player, alpha: Ext, beta: Ext, results: seq<Option<int>>,
                     bestScore: Ext, bestIndex: Option<nat>, bestAt: int, a: Ext, b: Ext)
    requires 0 < |EmptyCells(board)|
    requires LoopNxN(board, n, depth, maxDepth, isMax, ai, human, alpha, beta, results, bestScore, bestIndex, bestAt, a, b)
    requires |results| == |EmptyCells(board)| || (|results| > 0 && !Less(a, b))
    ensures bestScore.Fin? && bestIndex.Some? && IsNullAt(board, bestIndex.value)
    ensures BestOf(isMax, ChildValues(board, n, depth, maxDepth, isMax, ai, human)).Fin?
    ensures Less(alpha, beta) ==>
      Within(alpha, beta, bestScore.v,
             BestOf(isMax, ChildValues(board, n, depth, maxDepth, isMax, ai, human)).v)
    ensures Less(alpha, beta) && Less(alpha, bestScore) && Less(bestScore, beta) ==>
      ChildValueNxN(board, n, depth, maxDepth, isMax, ai, human, bestIndex.value) == bestScore.v
  {
    var values := ChildValues(board, n, depth, maxDepth, isMax, ai, human);
    ConsistentSkips(isMax, alpha, beta, results, values);
    ChildValuesAt(board, n, depth, maxDepth, isMax, ai, human, 0);
    RunDone(isMax, alpha, beta, results, values);
    ChildValuesAt(board, n, depth, maxDepth, isMax, ai, human, bestAt);
  }
}
