/**
 * The three AI opponents of the client (client/src/utils/aiLogic.js):
 * `makeAIMoveEasy` picks a random null cell, `makeAIMoveHeuristic` wins,
 * else blocks, else takes the centre, else the first null cell (with an
 * optional random mistake), and `makeAIMoveExpert` runs the alpha-beta
 * searches of `Search` with a depth that falls as the board grows.
 *
 * `Math.random()` is a parameter: a real number in [0, 1) for each call.
 */
module Ai {
  import opened Options
  import opened Board
  import opened AlphaBeta
  import opened Search

  /** What a move function returns: `null`, `undefined`, or a cell index. */
  datatype AiMove = NullMove | Undefined | At(index: nat)

  /** `Math.floor(roll * len)` for a roll in [0, 1): an index into a list of length len. */
  function PickIndex(roll: real, len: nat): (k: int)
    requires 0.0 <= roll < 1.0
    ensures len > 0 ==> 0 <= k < len
    ensures len == 0 ==> k == 0
  {
    RollBelow(roll, len);
    (roll * len as real).Floor
  }

  lemma FractionBelowOne(k: nat, len: nat)
    requires k < len
    ensures 0.0 <= k as real / len as real < 1.0
  {
  }

  lemma RollBelow(roll: real, len: nat)
    requires 0.0 <= roll < 1.0
    ensures 0.0 <= roll * len as real
    ensures len > 0 ==> roll * len as real < len as real
  {
  }

  /** The roll k/len picks index k. */
  lemma PickIndexHits(k: nat, len: nat)
    requires k < len
    ensures 0.0 <= k as real / len as real < 1.0
    ensures PickIndex(k as real / len as real, len) == k
  {
    FractionBelowOne(k, len);
    assert (k as real / len as real) * len as real == k as real;
  }

  // ---------------------------------------------------------------------
  // Easy
  // ---------------------------------------------------------------------

  /**
   * `makeAIMoveEasy(board)`: `null` exactly when the board has no null
   * cell, otherwise a null cell picked by the roll.
   */
  function MakeAIMoveEasy(board: seq<Cell>, roll: real): (m: AiMove)
    requires 0.0 <= roll < 1.0
    ensures m.NullMove? <==> Full(board)
    ensures !m.NullMove? ==> m.At? && IsNullAt(board, m.index)
  {
    FullIffNoEmptyCells(board);
    var cells := EmptyCells(board);
    if |cells| == 0 then NullMove
    else At(cells[PickIndex(roll, |cells|)])
  }

  /** Every null cell is the Easy AI's move for some roll. */
  lemma EasyReachesEveryNullCell(board: seq<Cell>, i: int)
    requires IsNullAt(board, i)
    ensures exists roll :: 0.0 <= roll < 1.0 && MakeAIMoveEasy(board, roll) == At(i)
  {
    var cells := EmptyCells(board);
    var k :| 0 <= k < |cells| && cells[k] == i;
    PickIndexHits(k, |cells|);
    assert MakeAIMoveEasy(board, k as real / |cells| as real) == At(i);
  }

  // ---------------------------------------------------------------------
  // Heuristic
  // ---------------------------------------------------------------------

  /** Marking null-or-any cell i with `p` makes `calculateWinner` report `p`. */
  predicate WinsWith(board: seq<Cell>, n: nat, p: Player, i: nat)
    requires i < |board|
  {
    CalculateWinner(board[i := Some(p)], n).winner == Won(p)
  }

  /** The position in `cells` of the first cell where `p` wins by marking it. */
  function FirstWin(board: seq<Cell>, n: nat, p: Player, cells: seq<nat>): (k: Option<nat>)
    requires forall j :: 0 <= j < |cells| ==> cells[j] < |board|
    ensures k.Some? ==> k.value < |cells| && WinsWith(board, n, p, cells[k.value])
    ensures k.Some? ==> forall j :: 0 <= j < k.value ==> !WinsWith(board, n, p, cells[j])
    ensures k.None? ==> forall j :: 0 <= j < |cells| ==> !WinsWith(board, n, p, cells[j])
    decreases |cells|
  {
    if |cells| == 0 then None
    else if WinsWith(board, n, p, cells[0]) then Some(0)
    else
      match FirstWin(board, n, p, cells[1..])
      case None => None
      case Some(k) => Some(k + 1)
  }

  /** The null cell at position k of `FirstWin`'s answer is in scan order the first winning null cell. */
  lemma FirstWinInScanOrder(board: seq<Cell>, n: nat, p: Player, k: nat)
    requires FirstWin(board, n, p, EmptyCells(board)) == Some(k)
    ensures IsNullAt(board, EmptyCells(board)[k]) && WinsWith(board, n, p, EmptyCells(board)[k])
    ensures forall j :: 0 <= j < EmptyCells(board)[k] && IsNullAt(board, j) ==> !WinsWith(board, n, p, j)
  {
    EmptyCellsBefore(board, k);
  }

  /** No null cell wins when `FirstWin` finds none. */
  lemma NoWinInScan(board: seq<Cell>, n: nat, p: Player)
    requires FirstWin(board, n, p, EmptyCells(board)).None?
    ensures forall j :: IsNullAt(board, j) ==> !WinsWith(board, n, p, j)
  {
    var cells := EmptyCells(board);
    forall j | IsNullAt(board, j)
      ensures !WinsWith(board, n, p, j)
    {
      var l :| 0 <= l < |cells| && cells[l] == j;
    }
  }

  /** The cell `Math.floor((n * n) / 2)`. */
  function Center(n: nat): nat
  {
    (n * n) / 2
  }

  /**
   * The heuristic's move without a mistake: the first null cell that wins
   * for the AI, else the first that would win for the human, else the
   * centre if it is null, else the first null cell, else `undefined`.
   */
  function HeuristicPick(board: seq<Cell>, n: nat, ai: Player, human: Player): (m: AiMove)
    ensures !m.NullMove?
    ensures m.At? ==> IsNullAt(board, m.index)
    ensures m.Undefined? <==> Full(board)
  {
    FullIffNoEmptyCells(board);
    var cells := EmptyCells(board);
    match FirstWin(board, n, ai, cells)
    case Some(k) => At(cells[k])
    case None =>
      match FirstWin(board, n, human, cells)
      case Some(k) => At(cells[k])
      case None =>
        if IsNullAt(board, Center(n)) then At(Center(n))
        else if |cells| > 0 then At(cells[0])
        else Undefined
  }

  /** A mistake: a null cell picked by the roll, `undefined` on a full board. */
  function MistakePick(board: seq<Cell>, pick: real): (m: AiMove)
    requires 0.0 <= pick < 1.0
    ensures !m.NullMove?
    ensures m.At? ==> IsNullAt(board, m.index)
    ensures m.Undefined? <==> Full(board)
  {
    FullIffNoEmptyCells(board);
    var cells := EmptyCells(board);
    if |cells| == 0 then Undefined else At(cells[PickIndex(pick, |cells|)])
  }

  /**
   * `makeAIMoveHeuristic(board, n, aiPlayer, humanPlayer, mistakeChance)`
   * with its two random rolls: `roll` decides the mistake, `pick` chooses
   * the cell of a mistake.
   */
  method MakeAIMoveHeuristic(board: seq<Cell>, n: nat, ai: Player, human: Player, mistakeChance: real,
                             roll: real, pick: real) returns (m: AiMove)
    requires 0.0 <= roll < 1.0 && 0.0 <= pick < 1.0
    ensures roll < mistakeChance ==> m == MistakePick(board, pick)
    ensures roll >= mistakeChance ==> m == HeuristicPick(board, n, ai, human)
  {
    var emptyCells := EmptyCells(board);
    if roll < mistakeChance {
      if |emptyCells| == 0 {
        return Undefined;
      }
      return At(emptyCells[PickIndex(pick, |emptyCells|)]);
    }
    var win := ScanForWin(board, n, ai, emptyCells);
    if win.Some? {
      return At(emptyCells[win.value]);
    }
    var block := ScanForWin(board, n, human, emptyCells);
    if block.Some? {
      return At(emptyCells[block.value]);
    }
    var center := (n * n) / 2;
    if 0 <= center < |board| && board[center] == None {
      return At(center);
    }
    if |emptyCells| == 0 {
      return Undefined;
    }
    return At(emptyCells[0]);
  }

  /**
   * One scan of `makeAIMoveHeuristic`: mark each listed cell in turn with
   * `p` on a copy of the board and stop at the first that makes
   * `calculateWinner` report `p`; the answer is that cell's position.
   */
  method ScanForWin(board: seq<Cell>, n: nat, p: Player, cells: seq<nat>) returns (k: Option<nat>)
    requires forall j :: 0 <= j < |cells| ==> cells[j] < |board|
    ensures k == FirstWin(board, n, p, cells)
  {
    for t := 0 to |cells|
      invariant forall j :: 0 <= j < t ==> !WinsWith(board, n, p, cells[j])
    {
      var newBoard := board[cells[t] := Some(p)];
      if CalculateWinner(newBoard, n).winner == Won(p) {
        return Some(t);
      }
    }
    return None;
  }

  /**
   * The heuristic's priorities, in scan order: a winning null cell first;
   * with none, a null cell that blocks a human win; with neither, the centre
   * when null; otherwise the lowest null cell.
   */
  lemma HeuristicPriorities(board: seq<Cell>, n: nat, ai: Player, human: Player)
    ensures (exists i :: IsNullAt(board, i) && WinsWith(board, n, ai, i)) ==>
      var m := HeuristicPick(board, n, ai, human);
      m.At? && WinsWith(board, n, ai, m.index)
        && forall j :: 0 <= j < m.index && IsNullAt(board, j) ==> !WinsWith(board, n, ai, j)
    ensures ((forall i :: IsNullAt(board, i) ==> !WinsWith(board, n, ai, i))
             && exists i :: IsNullAt(board, i) && WinsWith(board, n, human, i)) ==>
      var m := HeuristicPick(board, n, ai, human);
      m.At? && WinsWith(board, n, human, m.index)
        && forall j :: 0 <= j < m.index && IsNullAt(board, j) ==> !WinsWith(board, n, human, j)
    ensures (forall i :: IsNullAt(board, i) ==> !WinsWith(board, n, ai, i) && !WinsWith(board, n, human, i)) ==>
      var m := HeuristicPick(board, n, ai, human);
      (IsNullAt(board, Center(n)) ==> m == At(Center(n)))
        && (!IsNullAt(board, Center(n)) && m.At? ==> forall j :: 0 <= j < m.index ==> !IsNullAt(board, j))
  {
    var cells := EmptyCells(board);
    match FirstWin(board, n, ai, cells) {
      case Some(k) =>
        FirstWinInScanOrder(board, n, ai, k);
      case None =>
        NoWinInScan(board, n, ai);
        match FirstWin(board, n, human, cells) {
          case Some(k) =>
            FirstWinInScanOrder(board, n, human, k);
          case None =>
            NoWinInScan(board, n, human);
            if |cells| > 0 {
              EmptyCellsBefore(board, 0);
            }
        }
    }
  }

  // ---------------------------------------------------------------------
  // Expert
  // ---------------------------------------------------------------------

  /** The search depth: 7 on 3x3, 5 on 4x4, 4 on 5x5, 3 up to 7x7, 2 beyond. */
  function DepthFor(n: nat): (d: nat)
    ensures 2 <= d <= 7
  {
    if n == 3 then 7 else if n == 4 then 5 else if n == 5 then 4 else if n <= 7 then 3 else 2
  }

  /** From 3x3 upwards, a larger board never gets a deeper search. */
  lemma DepthForShrinks(n: nat, m: nat)
    requires 3 <= n <= m
    ensures DepthFor(m) <= DepthFor(n)
  {
  }

  /** The `.index` of a search result: absent is `undefined`. */
  function IndexOf(r: Scored): (m: AiMove)
    ensures !m.NullMove?
    ensures m.At? <==> r.index.Some?
    ensures m.At? ==> m.index == r.index.value
  {
    match r.index
    case Some(i) => At(i)
    case None => Undefined
  }

  /**
   * What the expert search promises of its answer: never null, and a
   * chosen cell is null. On 3x3 the answer is `undefined` exactly on a
   * finished board, and otherwise a cell whose value is the minimax value
   * of the position: an optimal move. On other sizes the same holds for the
   * depth-limited value with `DepthFor(n)`.
   */
  ghost predicate ExpertAnswer(board: seq<Cell>, n: nat, ai: Player, human: Player, m: AiMove)
    requires n == 3 ==> |board| == 9
  {
    && !m.NullMove?
    && (m.At? ==> IsNullAt(board, m.index))
    && (n == 3 ==> (m.Undefined? <==> Terminal3(board, ai, human)))
    && (n == 3 && m.At? ==>
          m.index < 9 && ChildValue(board, ai, ai, human, m.index) == GameValue(board, ai, ai, human))
    && (n != 3 ==> (m.Undefined? <==> !CalculateWinner(board, n).winner.Ongoing?))
    && (n != 3 && m.At? ==>
          ChildValueNxN(board, n, 0, DepthFor(n), true, ai, human, m.index)
            == DepthValue(board, n, 0, DepthFor(n), true, ai, human))
  }

  /**
   * `makeAIMoveExpert(board, n, aiPlayer, humanPlayer)`: the AI to move at
   * the root, the full window (-Infinity, Infinity), minimaxAB on 3x3 and
   * minimaxNxN from depth 0 to `DepthFor(n)` otherwise.
   */
  method MakeAIMoveExpert(board: seq<Cell>, n: nat, ai: Player, human: Player) returns (m: AiMove)
    requires ai != human  // every caller plays "O" against "X"
    requires n == 3 ==> |board| == 9
    ensures ExpertAnswer(board, n, ai, human, m)
  {
    var depth := if n == 3 then 7 else if n == 4 then 5 else if n == 5 then 4 else if n <= 7 then 3 else 2;
    if n == 3 {
      var r := MinimaxAB(board, ai, ai, human, NegInf, PosInf);
      m := IndexOf(r);
    } else {
      var r := MinimaxNxN(board, n, 0, depth, true, ai, human, NegInf, PosInf);
      m := IndexOf(r);
    }
  }
}
