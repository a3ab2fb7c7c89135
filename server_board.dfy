/**
 * The server's own winner check (server/utils/gameHelpers.js). It builds
 * the rows, the columns `i + j*n`, the diagonal `i*(n+1)` and the
 * anti-diagonal `(i+1)*(n-1)` in nested loops, then scans them with an
 * early return. Its lines are the client's lines in the client's order, so
 * its winner always agrees with the client's `calculateWinner`; only a board
 * without a winning line differs, reporting `winningCells` null instead of
 * an empty list.
 */
module ServerBoard {
  import opened Options
  import opened Board

  /** The server's `{ winner, winningCells }`; `winningCells` None is `null`. */
  datatype ServerVerdict = ServerVerdict(winner: Outcome, winningCells: Option<seq<int>>)

  /** The board size when the caller leaves it out. */
  const DefaultSize: nat := 3

  /** Diagonal cell `i*(n+1)` is the client's `i*n + i`. */
  lemma DiagonalCell(n: nat, i: int)
    ensures i * (n + 1) == i * n + i
  {
  }

  /** Anti-diagonal cell `(i+1)*(n-1)` is the client's `i*n + (n-i-1)`. */
  lemma AntiDiagonalCell(n: nat, i: int)
    ensures (i + 1) * (n - 1) == i * n + (n - i - 1)
  {
  }

  /** The row loop: cells `i*n + j` for j from 0 to n-1. */
  method BuildRow(n: nat, i: nat) returns (row: seq<int>)
    ensures row == Row(n, i)
  {
    row := [];
    for j := 0 to n
      invariant row == seq(j, c => i * n + c)
    {
      row := row + [i * n + j];
    }
  }

  /** The column loop: cells `i + j*n` for j from 0 to n-1. */
  method BuildColumn(n: nat, i: nat) returns (col: seq<int>)
    ensures col == Column(n, i)
  {
    col := [];
    for j := 0 to n
      invariant col == seq(j, r => r * n + i)
    {
      col := col + [i + j * n];
    }
  }

  /** The diagonal loop: `diag1` gets `i*(n+1)`, `diag2` gets `(i+1)*(n-1)`. */
  method BuildDiagonals(n: nat) returns (diag1: seq<int>, diag2: seq<int>)
    ensures diag1 == MainDiagonal(n) && diag2 == AntiDiagonal(n)
  {
    diag1, diag2 := [], [];
    for i := 0 to n
      invariant diag1 == seq(i, k => k * n + k)
      invariant diag2 == seq(i, k => k * n + (n - k - 1))
    {
      DiagonalCell(n, i);
      AntiDiagonalCell(n, i);
      diag1 := diag1 + [i * (n + 1)];
      diag2 := diag2 + [(i + 1) * (n - 1)];
    }
  }

  /**
   * The line construction of the server's `calculateWinner`: the same lines
   * in the same order as the client's `getLines(n)`.
   */
  method BuildServerLines(n: nat) returns (lines: seq<seq<int>>)
    ensures lines == Lines(n)
  {
    lines := [];
    for i := 0 to n
      invariant lines == seq(i, r => Row(n, r))
    {
      var row := BuildRow(n, i);
      lines := lines + [row];
    }
    for i := 0 to n
      invariant lines == seq(n, r => Row(n, r)) + seq(i, c => Column(n, c))
    {
      var col := BuildColumn(n, i);
      lines := lines + [col];
    }
    var diag1, diag2 := BuildDiagonals(n);
    lines := lines + [diag1, diag2];
  }

  /**
   * The server's `calculateWinner(squares, n)`: the winner is always the
   * client's; a won board carries the client's winning line, and a drawn or
   * unfinished board carries `winningCells` null.
   */
  method ServerCalculateWinner(squares: seq<Cell>, n: nat) returns (v: ServerVerdict)
    ensures v.winner == CalculateWinner(squares, n).winner
    ensures v.winner.Won? ==> v.winningCells == Some(CalculateWinner(squares, n).winningCells)
    ensures !v.winner.Won? ==> v.winningCells.None?
  {
    var lines := BuildServerLines(n);
    FirstWinningLineSpec(squares, lines);
    for k := 0 to |lines|
      invariant forall j :: 0 <= j < k ==> LineWinner(squares, lines[j]).None?
    {
      var line := lines[k];
      if |line| > 0 {
        var first := MarkAt(squares, line[0]);
        if first.Some? && forall i :: 0 <= i < |line| ==> MarkAt(squares, line[i]) == first {
          assert LineWinner(squares, line) == first;
          return ServerVerdict(Won(first.value), Some(line));
        }
      }
    }
    if forall i :: 0 <= i < |squares| ==> squares[i].Some? {
      return ServerVerdict(Draw, None);
    }
    return ServerVerdict(Ongoing, None);
  }

  /** `calculateWinner(squares)` with the size left out: a 3x3 board. */
  method ServerCalculateWinnerDefault(squares: seq<Cell>) returns (v: ServerVerdict)
    ensures v.winner == CalculateWinner(squares, 3).winner
    ensures v.winner.Won? ==> v.winningCells == Some(CalculateWinner(squares, 3).winningCells)
    ensures !v.winner.Won? ==> v.winningCells.None?
  {
    v := ServerCalculateWinner(squares, DefaultSize);
  }
}
