/**
 * Winning lines and the winner verdict of the client's board evaluator
 * (client/src/utils/gameHelpers.js): `getLines`, its per-size cache, and
 * `calculateWinner`.
 *
 * A board is a flat sequence of cells, row after row. Reading an index off
 * the board gives JavaScript's `undefined`, which is neither `null` nor a
 * mark; `MarkAt` and `IsNullAt` model that read, so the verdict is defined
 * for every board and every size.
 */
module Board {
  import opened Options

  datatype Player = X | O

  /** A cell holds `null` (None) or a mark. */
  type Cell = Option<Player>

  function Other(p: Player): (q: Player)
    ensures q != p
  {
    if p == X then O else X
  }

  /** The mark read at `board[i]`; off the board there is none. */
  function MarkAt(board: seq<Cell>, i: int): Option<Player>
  {
    if 0 <= i < |board| then board[i] else None
  }

  /** `board[i] === null` */
  predicate IsNullAt(board: seq<Cell>, i: int)
  {
    0 <= i < |board| && board[i].None?
  }

  /** `board.every(cell => cell !== null)` */
  predicate Full(board: seq<Cell>)
  {
    forall i :: 0 <= i < |board| ==> board[i].Some?
  }

  /** A board of `len` null cells. */
  function EmptyBoard(len: nat): (b: seq<Cell>)
    ensures |b| == len && forall i :: 0 <= i < len ==> b[i].None?
  {
    seq(len, _ => None)
  }

  /** `board.map((v, i) => v === null ? i : null).filter(i => i !== null)`: the null cells, in scan order. */
  function EmptyCells(board: seq<Cell>): (e: seq<nat>)
    ensures forall k :: 0 <= k < |e| ==> IsNullAt(board, e[k])
    ensures forall i :: IsNullAt(board, i) ==> i in e
    decreases |board|
  {
    if |board| == 0 then []
    else
      var last := |board| - 1;
      var front := EmptyCells(board[..last]);
      front + (if board[last].None? then [last] else [])
  }

  /** The null cells come in increasing index order. */
  lemma {:induction false} EmptyCellsInOrder(board: seq<Cell>)
    ensures forall k, l :: 0 <= k < l < |EmptyCells(board)| ==> EmptyCells(board)[k] < EmptyCells(board)[l]
    decreases |board|
  {
    if |board| > 0 {
      var last := |board| - 1;
      var front := EmptyCells(board[..last]);
      EmptyCellsInOrder(board[..last]);
      var e := EmptyCells(board);
      assert e == front + (if board[last].None? then [last] else []);
      forall k, l | 0 <= k < l < |e|
        ensures e[k] < e[l]
      {
        assert e[k] == front[k];
        if l < |front| {
          assert e[l] == front[l];
        } else {
          assert IsNullAt(board[..last], front[k]);
        }
      }
    }
  }

  /** A null cell below the k-th entry of `EmptyCells` is one of the entries before it. */
  lemma EmptyCellsBefore(board: seq<Cell>, k: nat)
    requires k < |EmptyCells(board)|
    ensures forall j :: 0 <= j < EmptyCells(board)[k] && IsNullAt(board, j) ==>
      exists l :: 0 <= l < k && EmptyCells(board)[l] == j
  {
    var e := EmptyCells(board);
    EmptyCellsInOrder(board);
    forall j | 0 <= j < e[k] && IsNullAt(board, j)
      ensures exists l :: 0 <= l < k && e[l] == j
    {
      var l :| 0 <= l < |e| && e[l] == j;
      assert l < k;
    }
  }

  /** A board is full exactly when it has no null cell to list. */
  lemma FullIffNoEmptyCells(board: seq<Cell>)
    ensures Full(board) <==> |EmptyCells(board)| == 0
  {
    if !Full(board) {
      var i :| 0 <= i < |board| && board[i].None?;
      assert IsNullAt(board, i);
    }
    if |EmptyCells(board)| > 0 {
      assert IsNullAt(board, EmptyCells(board)[0]);
    }
  }

  /** The number of null cells, the measure that every move decreases. */
  function NullCount(board: seq<Cell>): nat
    decreases |board|
  {
    if |board| == 0 then 0
    else NullCount(board[..|board| - 1]) + (if board[|board| - 1].None? then 1 else 0)
  }

  /** Filling a null cell removes exactly one null cell. */
  lemma {:induction false} NullCountFill(board: seq<Cell>, i: int, p: Player)
    requires IsNullAt(board, i)
    ensures NullCount(board[i := Some(p)]) + 1 == NullCount(board)
    decreases |board|
  {
    var last := |board| - 1;
    if i < last {
      assert board[i := Some(p)][..last] == board[..last][i := Some(p)];
      NullCountFill(board[..last], i, p);
    } else {
      assert board[i := Some(p)][..last] == board[..last];
    }
  }

  // ---------------------------------------------------------------------
  // Line geometry
  // ---------------------------------------------------------------------

  function Row(n: nat, r: int): seq<int>
  {
    seq(n, c => r * n + c)
  }

  function Column(n: nat, c: int): seq<int>
  {
    seq(n, r => r * n + c)
  }

  function MainDiagonal(n: nat): seq<int>
  {
    seq(n, i => i * n + i)
  }

  function AntiDiagonal(n: nat): seq<int>
  {
    seq(n, i => i * n + (n - i - 1))
  }

  /** The lines `getLines(n)` builds: the n rows, then the n columns, then the two diagonals. */
  function Lines(n: nat): seq<seq<int>>
  {
    seq(n, r => Row(n, r)) + seq(n, c => Column(n, c)) + [MainDiagonal(n), AntiDiagonal(n)]
  }

  lemma MulMonotone(a: int, b: int, c: nat)
    requires a <= b
    ensures a * c <= b * c
  {
  }

  lemma MulDistributes(a: int, b: int, c: int)
    ensures (a - b) * c == a * c - b * c
  {
  }

  /** Cell (r, c) of an n-by-n board is inside the board. */
  lemma CellInBoard(n: nat, r: int, c: int)
    requires 0 <= r < n && 0 <= c < n
    ensures 0 <= r * n + c < n * n
  {
    MulMonotone(0, r, n);
    MulMonotone(r + 1, n, n);
  }

  /** Moving `d` rows down moves the index by `d * n`. */
  lemma RowsApart(n: nat, i: int, j: int)
    requires 0 <= i < j
    ensures j * n - i * n == (j - i) * n >= n
  {
    MulDistributes(j, i, n);
    MulMonotone(1, j - i, n);
  }

  /** Each line, as `getLines` builds it, lists n indices of the board in increasing order. */
  lemma LineIncreasing(n: nat, k: nat, i: int, j: int)
    requires k < 2 * n + 2 && 0 <= i < j < n
    ensures |Lines(n)| == 2 * n + 2 && |Lines(n)[k]| == n
    ensures 0 <= Lines(n)[k][i] < Lines(n)[k][j] < n * n
  {
    var line := Lines(n)[k];
    RowsApart(n, i, j);
    if k < n {
      assert line == Row(n, k);
      CellInBoard(n, k, i);
      CellInBoard(n, k, j);
    } else if k < 2 * n {
      assert line == Column(n, k - n);
      CellInBoard(n, i, k - n);
      CellInBoard(n, j, k - n);
    } else if k == 2 * n {
      assert line == MainDiagonal(n);
      CellInBoard(n, i, i);
      CellInBoard(n, j, j);
    } else {
      assert line == AntiDiagonal(n);
      CellInBoard(n, i, n - i - 1);
      CellInBoard(n, j, n - j - 1);
    }
  }

  /**
   * `getLines(n)` returns 2n+2 lines, each of n distinct indices of the board,
   * listed in increasing order.
   */
  lemma LinesShape(n: nat)
    ensures |Lines(n)| == 2 * n + 2
    ensures forall k :: 0 <= k < |Lines(n)| ==> |Lines(n)[k]| == n
    ensures forall k, i :: 0 <= k < |Lines(n)| && 0 <= i < n ==> 0 <= Lines(n)[k][i] < n * n
    ensures forall k, i, j :: 0 <= k < |Lines(n)| && 0 <= i < j < n ==> Lines(n)[k][i] < Lines(n)[k][j]
  {
    assert |Lines(n)| == 2 * n + 2;
    forall k | 0 <= k < |Lines(n)|
      ensures |Lines(n)[k]| == n
    {
      if k < n {
        assert Lines(n)[k] == Row(n, k);
      } else if k < 2 * n {
        assert Lines(n)[k] == Column(n, k - n);
      }
    }
    forall k, i | 0 <= k < |Lines(n)| && 0 <= i < n
      ensures 0 <= Lines(n)[k][i] < n * n
    {
      if i + 1 < n {
        LineIncreasing(n, k, i, i + 1);
      } else if 0 < i {
        LineIncreasing(n, k, 0, i);
      } else {
        // n == 1: the only cell of every line is cell 0
        if k < n {
          assert Lines(n)[k] == Row(n, k);
        } else if k < 2 * n {
          assert Lines(n)[k] == Column(n, k - n);
        }
      }
    }
    forall k, i, j | 0 <= k < |Lines(n)| && 0 <= i < j < n
      ensures Lines(n)[k][i] < Lines(n)[k][j]
    {
      LineIncreasing(n, k, i, j);
    }
  }

  // ---------------------------------------------------------------------
  // The verdict
  // ---------------------------------------------------------------------

  /** Every cell of `line` holds mark `p` (and the line has a cell). */
  predicate FilledBy(board: seq<Cell>, line: seq<int>, p: Player)
  {
    |line| > 0 && forall k :: 0 <= k < |line| ==> MarkAt(board, line[k]) == Some(p)
  }

  /** `first && line.every(idx => board[idx] === first)` with `first = board[line[0]]`. */
  function LineWinner(board: seq<Cell>, line: seq<int>): (w: Option<Player>)
    ensures w.Some? ==> FilledBy(board, line, w.value)
    ensures w.None? ==> forall p :: !FilledBy(board, line, p)
  {
    if |line| > 0 && MarkAt(board, line[0]).Some?
       && forall k :: 0 <= k < |line| ==> MarkAt(board, line[k]) == MarkAt(board, line[0])
    then MarkAt(board, line[0])
    else None
  }

  /** The position of the first line, in the given order, that some mark fills. */
  function FirstWinningLine(board: seq<Cell>, lines: seq<seq<int>>): Option<nat>
    decreases |lines|
  {
    if |lines| == 0 then None
    else if LineWinner(board, lines[0]).Some? then Some(0)
    else
      match FirstWinningLine(board, lines[1..])
      case None => None
      case Some(k) => Some(k + 1)
  }

  /**
   * `FirstWinningLine` finds a line some mark fills and no earlier line is
   * filled, or reports that no line is filled.
   */
  lemma {:induction false} FirstWinningLineSpec(board: seq<Cell>, lines: seq<seq<int>>)
    ensures var r := FirstWinningLine(board, lines);
      r.Some? ==> (r.value < |lines| && LineWinner(board, lines[r.value]).Some?
                   && forall j :: 0 <= j < r.value ==> LineWinner(board, lines[j]).None?)
    ensures FirstWinningLine(board, lines).None? ==>
      forall j :: 0 <= j < |lines| ==> LineWinner(board, lines[j]).None?
    decreases |lines|
  {
    if |lines| > 0 && LineWinner(board, lines[0]).None? {
      FirstWinningLineSpec(board, lines[1..]);
      assert forall j :: 1 <= j < |lines| ==> lines[j] == lines[1..][j - 1];
    }
  }

  /** `winner`: null, a mark, or "Draw". */
  datatype Outcome = Ongoing | Won(player: Player) | Draw

  /** The client's `{ winner, winningCells }`. */
  datatype Verdict = Verdict(winner: Outcome, winningCells: seq<int>)

  predicate NoLineWins(board: seq<Cell>, n: nat)
  {
    forall k :: 0 <= k < |Lines(n)| ==> LineWinner(board, Lines(n)[k]).None?
  }

  /** The verdict over the given lines, scanned in order. */
  function VerdictOf(board: seq<Cell>, lines: seq<seq<int>>): Verdict
  {
    FirstWinningLineSpec(board, lines);
    match FirstWinningLine(board, lines)
    case Some(k) => Verdict(Won(LineWinner(board, lines[k]).value), lines[k])
    case None => if Full(board) then Verdict(Draw, []) else Verdict(Ongoing, [])
  }

  /** `calculateWinner(board, n)`: the verdict over the lines of the n-by-n board. */
  function CalculateWinner(board: seq<Cell>, n: nat): Verdict
  {
    VerdictOf(board, Lines(n))
  }

  /**
   * What `calculateWinner(board, n)` reports: the first line, rows then
   * columns then diagonals, filled by one mark wins and is returned as
   * `winningCells`; with no such line a board without null cells is a draw,
   * any other board has no winner yet, and both carry an empty
   * `winningCells`.
   */
  lemma CalculateWinnerMeaning(board: seq<Cell>, n: nat)
    ensures var v := CalculateWinner(board, n);
      v.winner.Won? ==>
        exists k :: 0 <= k < |Lines(n)| && v.winningCells == Lines(n)[k]
          && FilledBy(board, Lines(n)[k], v.winner.player)
          && forall j :: 0 <= j < k ==> LineWinner(board, Lines(n)[j]).None?
    ensures var v := CalculateWinner(board, n);
      !v.winner.Won? ==> v.winningCells == [] && NoLineWins(board, n)
    ensures CalculateWinner(board, n).winner == Draw <==> NoLineWins(board, n) && Full(board)
    ensures CalculateWinner(board, n).winner == Ongoing <==> NoLineWins(board, n) && !Full(board)
  {
    FirstWinningLineSpec(board, Lines(n));
  }

  /** The board whose cells on `line` hold `p` and whose other n*n - n cells are null. */
  function LineBoard(n: nat, line: seq<int>, p: Player): seq<Cell>
  {
    seq(n * n, i => if i in line then Some(p) else None)
  }

  /** Distinct (row, column) pairs name distinct cells. */
  lemma CoordinatesUnique(n: nat, r1: int, c1: int, r2: int, c2: int)
    requires 0 <= r1 < n && 0 <= c1 < n && 0 <= r2 < n && 0 <= c2 < n
    requires r1 * n + c1 == r2 * n + c2
    ensures r1 == r2 && c1 == c2
  {
    if r1 < r2 {
      RowsApart(n, r1, r2);
    } else if r2 < r1 {
      RowsApart(n, r2, r1);
    }
  }

  /** Which cells (r, c) line k covers: its row, its column, r == c, or c == n-1-r. */
  predicate OnLine(n: nat, k: nat, r: int, c: int)
  {
    if k < n then r == k
    else if k < 2 * n then c == k - n
    else if k == 2 * n then r == c
    else c == n - 1 - r
  }

  lemma {:induction false} LineCells(n: nat, k: nat, r: int, c: int)
    requires k < 2 * n + 2 && 0 <= r < n && 0 <= c < n
    ensures r * n + c in Lines(n)[k] <==> OnLine(n, k, r, c)
  {
    var line := Lines(n)[k];
    if k < n {
      assert line == Row(n, k);
      if r * n + c in line {
        var i :| 0 <= i < n && line[i] == r * n + c;
        CoordinatesUnique(n, k, i, r, c);
      }
      if r == k {
        assert line[c] == r * n + c;
      }
    } else if k < 2 * n {
      assert line == Column(n, k - n);
      if r * n + c in line {
        var i :| 0 <= i < n && line[i] == r * n + c;
        CoordinatesUnique(n, i, k - n, r, c);
      }
      if c == k - n {
        assert line[r] == r * n + c;
      }
    } else if k == 2 * n {
      assert line == MainDiagonal(n);
      if r * n + c in line {
        var i :| 0 <= i < n && line[i] == r * n + c;
        CoordinatesUnique(n, i, i, r, c);
      }
      if r == c {
        assert line[r] == r * n + c;
      }
    } else {
      assert line == AntiDiagonal(n);
      if r * n + c in line {
        var i :| 0 <= i < n && line[i] == r * n + c;
        CoordinatesUnique(n, i, n - i - 1, r, c);
      }
      if c == n - 1 - r {
        assert line[r] == r * n + c;
      }
    }
  }

  /** On a board of side at least 2, an earlier line always has a cell that a later line lacks. */
  lemma EarlierLineEscapes(n: nat, j: nat, k: nat) returns (r: int, c: int)
    requires 2 <= n && j < k < 2 * n + 2
    ensures 0 <= r < n && 0 <= c < n && OnLine(n, j, r, c) && !OnLine(n, k, r, c)
  {
    if j < n {
      // a cell of row j off line k
      r := j;
      if k < n {
        c := 0;
      } else if k < 2 * n {
        c := if k - n == 0 then 1 else 0;
      } else if k == 2 * n {
        c := if j == 0 then 1 else 0;
      } else {
        c := if n - 1 - j == 0 then 1 else 0;
      }
    } else if j < 2 * n {
      // a cell of column j - n off line k
      c := j - n;
      if k < 2 * n {
        r := 0;
      } else if k == 2 * n {
        r := if c == 0 then 1 else 0;
      } else {
        r := if n - 1 - c == 0 then 1 else 0;
      }
    } else {
      // the main diagonal's corner cell 0 is not on the anti-diagonal
      r, c := 0, 0;
    }
  }

  /** On the board of one full line k, no earlier line is filled (side at least 2). */
  lemma EarlierLineLoses(n: nat, j: nat, k: nat, p: Player)
    requires 2 <= n && j < k < 2 * n + 2
    ensures LineWinner(LineBoard(n, Lines(n)[k], p), Lines(n)[j]).None?
  {
    var board := LineBoard(n, Lines(n)[k], p);
    var r, c := EarlierLineEscapes(n, j, k);
    LineCells(n, j, r, c);
    LineCells(n, k, r, c);
    CellInBoard(n, r, c);
    LinesShape(n);
    var i :| 0 <= i < |Lines(n)[j]| && Lines(n)[j][i] == r * n + c;
    assert MarkAt(board, Lines(n)[j][i]) == None;
  }

  /** The board of one full line k: line k is filled by `p`. */
  lemma LineBoardFilled(n: nat, k: nat, p: Player)
    requires 1 <= n && k < 2 * n + 2
    ensures FilledBy(LineBoard(n, Lines(n)[k], p), Lines(n)[k], p)
  {
    LinesShape(n);
    var line := Lines(n)[k];
    var board := LineBoard(n, line, p);
    forall i | 0 <= i < |line|
      ensures MarkAt(board, line[i]) == Some(p)
    {
      assert line[i] in line;
    }
  }

  /** The first line with a winner is line k when k has one and no earlier line does. */
  lemma FirstWinningLineIs(board: seq<Cell>, lines: seq<seq<int>>, k: nat)
    requires k < |lines| && LineWinner(board, lines[k]).Some?
    requires forall j :: 0 <= j < k ==> LineWinner(board, lines[j]).None?
    ensures FirstWinningLine(board, lines) == Some(k)
  {
    FirstWinningLineSpec(board, lines);
  }

  /**
   * A board whose only marks are one mark `p` along line k is won by `p`, and
   * `winningCells` is exactly that line.
   */
  lemma SingleLineWins(n: nat, k: nat, p: Player)
    requires 1 <= n && k < 2 * n + 2
    ensures CalculateWinner(LineBoard(n, Lines(n)[k], p), n) == Verdict(Won(p), Lines(n)[k])
  {
    var lines := Lines(n);
    var board := LineBoard(n, lines[k], p);
    LineBoardFilled(n, k, p);
    assert LineWinner(board, lines[k]) == Some(p);
    if n == 1 {
      // every line of a 1-by-1 board is the single cell 0
      assert lines[0] == [0] == lines[k];
      FirstWinningLineIs(board, lines, 0);
    } else {
      forall j | 0 <= j < k
        ensures LineWinner(board, lines[j]).None?
      {
        EarlierLineLoses(n, j, k, p);
      }
      FirstWinningLineIs(board, lines, k);
    }
  }

  // ---------------------------------------------------------------------
  // The line cache and the loops that fill it
  // ---------------------------------------------------------------------

  /** On an empty board of size n >= 1 nobody has won and the game is on. */
  lemma EmptyBoardOngoing(n: nat)
    requires n >= 1
    ensures CalculateWinner(EmptyBoard(n * n), n) == Verdict(Ongoing, [])
  {
    var b := EmptyBoard(n * n);
    CalculateWinnerMeaning(b, n);
    forall k | 0 <= k < |Lines(n)|
      ensures LineWinner(b, Lines(n)[k]).None?
    {
      var line := Lines(n)[k];
      if |line| > 0 {
        assert MarkAt(b, line[0]).None?;
      }
    }
    assert b[0].None?;
  }

  /** The loops of `getLines` that push the rows, the columns and the two diagonals. */
  method BuildLines(n: nat) returns (lines: seq<seq<int>>)
    ensures lines == Lines(n)
  {
    lines := [];
    for row := 0 to n
      invariant lines == seq(row, r => Row(n, r))
    {
      lines := lines + [seq(n, col => row * n + col)];
    }
    for col := 0 to n
      invariant lines == seq(n, r => Row(n, r)) + seq(col, c => Column(n, c))
    {
      lines := lines + [seq(n, row => row * n + col)];
    }
    lines := lines + [seq(n, i => i * n + i)];
    lines := lines + [seq(n, i => i * n + (n - i - 1))];
  }

  /** The module-level `linesCache`: a map from board size to its lines. */
  class LinesCache {
    var cache: map<nat, seq<seq<int>>>

    /** Every cached entry is exactly the lines of its size. */
    ghost predicate Valid()
      reads this
    {
      forall k :: k in cache ==> cache[k] == Lines(k)
    }

    constructor ()
      ensures Valid() && cache == map[]
    {
      cache := map[];
    }

    /** `getLines(n)`: the cached lines of size n, built and stored on a miss. */
    method GetLines(n: nat) returns (lines: seq<seq<int>>)
      requires Valid()
      modifies this
      ensures Valid()
      ensures lines == Lines(n)
      ensures cache == old(cache)[n := Lines(n)]
    {
      if n in cache {
        lines := cache[n];
      } else {
        lines := BuildLines(n);
        cache := cache[n := lines];
      }
    }
  }

  /** The scan of `calculateWinner`: the first filled line wins, else a full board is a draw. */
  method ScanLines(board: seq<Cell>, lines: seq<seq<int>>) returns (v: Verdict)
    ensures v == VerdictOf(board, lines)
  {
    FirstWinningLineSpec(board, lines);
    for k := 0 to |lines|
      invariant forall j :: 0 <= j < k ==> LineWinner(board, lines[j]).None?
    {
      var line := lines[k];
      if |line| > 0 {
        var first := MarkAt(board, line[0]);
        if first.Some? && forall i :: 0 <= i < |line| ==> MarkAt(board, line[i]) == first {
          assert LineWinner(board, line) == first;
          return Verdict(Won(first.value), line);
        }
      }
    }
    if forall i :: 0 <= i < |board| ==> board[i].Some? {
      return Verdict(Draw, []);
    }
    return Verdict(Ongoing, []);
  }

  /**
   * `calculateWinner` as the source runs it: lines from the cache, scanned in
   * order with an early return. Its result is the cache-free `CalculateWinner`,
   * so repeated calls on the same board and size agree whatever the cache holds.
   */
  method CalculateWinnerCached(cache: LinesCache, board: seq<Cell>, n: nat) returns (v: Verdict)
    requires cache.Valid()
    modifies cache
    ensures cache.Valid()
    ensures v == CalculateWinner(board, n)
  {
    var lines := cache.GetLines(n);
    v := ScanLines(board, lines);
  }
}
