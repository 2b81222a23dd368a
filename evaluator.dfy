/** The static evaluation of the advanced AI, from White's side.  The source
    weighs the disc difference by 6 or 1.5; every value here is twice the
    source's, so that the weights stay integers (12 and 3).  Doubling keeps
    every comparison the search makes. */
module Evaluator {
  import opened Rules

  /** An 8x8 table of square weights. */
  type Table = t: seq<seq<int>> | |t| == 8 && forall r :: 0 <= r < 8 ==> |t[r]| == 8
    witness seq(8, _ => seq(8, _ => 0))

  /** The classic positional weights: corners good, squares next to them bad. */
  const W: Table := [
    [120, -20,  20,   5,   5,  20, -20, 120],
    [-20, -40,  -5,  -5,  -5,  -5, -40, -20],
    [ 20,  -5,  15,   3,   3,  15,  -5,  20],
    [  5,  -5,   3,   3,   3,   3,  -5,   5],
    [  5,  -5,   3,   3,   3,   3,  -5,   5],
    [ 20,  -5,  15,   3,   3,  15,  -5,  20],
    [-20, -40,  -5,  -5,  -5,  -5, -40, -20],
    [120, -20,  20,   5,   5,  20, -20, 120]
  ]

  /** The four corners, in the order evaluate visits them. */
  const Corners: seq<Pos> := [Pos(0, 0), Pos(0, 7), Pos(7, 0), Pos(7, 7)]

  /** What a square holding x adds when it weighs w: w for White, -w for Black. */
  function SquareValue(x: Cell, w: int): int
  {
    if x == White then w else if x == Black then -w else 0
  }

  /** Weighted sum of a row prefix against the weights ws. */
  function RowWeight(row: seq<Cell>, ws: seq<int>): int
    requires |row| <= |ws|
  {
    if row == [] then 0 else RowWeight(row[..|row| - 1], ws) + SquareValue(row[|row| - 1], ws[|row| - 1])
  }

  /** Weighted sum of the first rows of a board against W. */
  function RowsWeight(rows: seq<seq<Cell>>): int
    requires |rows| <= 8 && forall i :: 0 <= i < |rows| ==> |rows[i]| <= 8
  {
    if rows == [] then 0 else RowsWeight(rows[..|rows| - 1]) + RowWeight(rows[|rows| - 1], W[|rows| - 1])
  }

  /** The positional term `pos`. */
  function Positional(b: Board): int { RowsWeight(b) }

  /** Sum over the first k corners: +30 for White, -30 for Black. */
  function CornerSum(b: Board, k: nat): int
    requires k <= |Corners|
  {
    if k == 0 then 0 else CornerSum(b, k - 1) + SquareValue(b[Corners[k - 1].r][Corners[k - 1].c], 30)
  }

  /** The corner term `cornerScore`. */
  function CornerScore(b: Board): int { CornerSum(b, 4) }

  /** Twice the disc-difference weight: the phase empties/64 is below 0.35
      exactly when at most 22 squares are empty. */
  function DiscWeight(empties: int): (f: int)
    ensures f == 12 <==> empties <= 22
    ensures f == 3 <==> empties > 22
  {
    if empties * 100 < 35 * 64 then 12 else 3
  }

  /** Twice the value of evaluate(b). */
  function Evaluation(b: Board): int
  {
    var white, black := Count(b, White), Count(b, Black);
    var empties := 64 - (white + black);
    2 * Positional(b) + 16 * (|ValidMoves(b, White)| - |ValidMoves(b, Black)|)
      + DiscWeight(empties) * (white - black) + 2 * CornerScore(b)
  }

  /** The corner list names exactly the squares isCorner accepts. */
  lemma CornersAreCorners()
    ensures forall q: Pos :: q in Corners <==> IsCorner(q.r, q.c)
  {
    forall q: Pos | IsCorner(q.r, q.c) ensures q in Corners {
      assert q == Pos(q.r, q.c);
    }
  }

  // ---------------------------------------------------------------------
  // Colour reversal negates the evaluation
  // ---------------------------------------------------------------------

  lemma SquareValueSwap(x: Cell, w: int)
    ensures SquareValue(SwapCell(x), w) == -SquareValue(x, w)
  {
  }

  lemma {:induction false} RowWeightSwap(row: seq<Cell>, ws: seq<int>)
    requires |row| <= |ws|
    ensures RowWeight(SwapRow(row), ws) == -RowWeight(row, ws)
  {
    if row != [] {
      RowWeightSwap(row[..|row| - 1], ws);
      assert SwapRow(row)[..|row| - 1] == SwapRow(row[..|row| - 1]);
      SquareValueSwap(row[|row| - 1], ws[|row| - 1]);
    }
  }

  lemma {:induction false} RowsWeightSwap(b: Board, n: nat)
    requires n <= 8
    ensures RowsWeight(Swap(b)[..n]) == -RowsWeight(b[..n])
  {
    if n > 0 {
      RowsWeightSwap(b, n - 1);
      RowWeightSwap(b[n - 1], W[n - 1]);
      assert Swap(b)[..n][..n - 1] == Swap(b)[..n - 1];
      assert b[..n][..n - 1] == b[..n - 1];
    }
  }

  lemma {:induction false} CornerSumSwap(b: Board, k: nat)
    requires k <= |Corners|
    ensures CornerSum(Swap(b), k) == -CornerSum(b, k)
  {
    if k > 0 {
      CornerSumSwap(b, k - 1);
      var q := Corners[k - 1];
      SquareValueSwap(b[q.r][q.c], 30);
    }
  }

  /** evaluate is zero-sum: reversing every disc negates it. */
  lemma EvaluationAntisymmetric(b: Board)
    ensures Evaluation(Swap(b)) == -Evaluation(b)
  {
    RowsWeightSwap(b, 8);
    assert Swap(b)[..8] == Swap(b) && b[..8] == b;
    CornerSumSwap(b, 4);
    ValidMovesSwap(b, White);
    ValidMovesSwap(b, Black);
    CountSwap(b, White);
    CountSwap(b, Black);
    var white: int, black: int := Count(b, White), Count(b, Black);
    var f := DiscWeight(64 - (white + black));
    assert f * (black - white) == -(f * (white - black));
  }

  // ---------------------------------------------------------------------
  // evaluate as the source computes it
  // ---------------------------------------------------------------------

  /** One more square of a row: what the scan adds to `pos`, `white` and `black`. */
  lemma ScanSquare(row: seq<Cell>, ws: seq<int>, c: nat)
    requires c < |row| <= |ws|
    ensures RowWeight(row[..c + 1], ws) == RowWeight(row[..c], ws) + SquareValue(row[c], ws[c])
    ensures CountRow(row[..c + 1], White) == CountRow(row[..c], White) + Ind(row[c] == White)
    ensures CountRow(row[..c + 1], Black) == CountRow(row[..c], Black) + Ind(row[c] == Black)
  {
    assert row[..c + 1][..c] == row[..c];
  }

  /** Corner k of the list, on the board, and what it adds to `cornerScore`. */
  lemma CornerStep(b: Board, k: nat)
    requires k < |Corners|
    ensures InBounds(Corners[k].r, Corners[k].c)
    ensures CornerSum(b, k + 1) == CornerSum(b, k) + SquareValue(b[Corners[k].r][Corners[k].c], 30)
  {
  }

  /** One more row of the board. */
  lemma ScanRow(b: Board, r: nat)
    requires r < 8
    ensures RowsWeight(b[..r + 1]) == RowsWeight(b[..r]) + RowWeight(b[r], W[r])
    ensures CountRows(b[..r + 1], White) == CountRows(b[..r], White) + CountRow(b[r], White)
    ensures CountRows(b[..r + 1], Black) == CountRows(b[..r], Black) + CountRow(b[r], Black)
  {
    assert b[..r + 1][..r] == b[..r];
  }

  /** The square loop of evaluate: `pos` with the two disc counts. */
  method ScanSquares(b: Board) returns (pos: int, white: int, black: int)
    ensures pos == Positional(b) && white == Count(b, White) && black == Count(b, Black)
  {
    pos, white, black := 0, 0, 0;
    var r := 0;
    while r < 8
      invariant 0 <= r <= 8
      invariant pos == RowsWeight(b[..r])
      invariant white == CountRows(b[..r], White) && black == CountRows(b[..r], Black)
    {
      ghost var pos0, white0, black0, row := pos, white, black, b[r];
      var c := 0;
      while c < 8
        invariant 0 <= c <= 8
        invariant pos == pos0 + RowWeight(row[..c], W[r])
        invariant white == white0 + CountRow(row[..c], White)
        invariant black == black0 + CountRow(row[..c], Black)
      {
        ScanSquare(row, W[r], c);
        if b[r][c] == White {
          pos := pos + W[r][c];
          white := white + 1;
        } else if b[r][c] == Black {
          pos := pos - W[r][c];
          black := black + 1;
        }
        c := c + 1;
      }
      assert row[..8] == row;
      ScanRow(b, r);
      r := r + 1;
    }
    assert b[..8] == b;
  }

  /** The corner loop of evaluate. */
  method CornerOccupancy(b: Board) returns (cornerScore: int)
    ensures cornerScore == CornerScore(b)
  {
    cornerScore := 0;
    var k := 0;
    while k < |Corners|
      invariant 0 <= k <= |Corners|
      invariant cornerScore == CornerSum(b, k)
    {
      var q := Corners[k];
      CornerStep(b, k);
      if b[q.r][q.c] == White {
        cornerScore := cornerScore + 30;
      } else if b[q.r][q.c] == Black {
        cornerScore := cornerScore - 30;
      }
      k := k + 1;
    }
  }

  /** evaluate: the positional sum with the disc counts, the two mobility
      counts, the phase-dependent disc term and the corners. */
  method Evaluate(b: Board) returns (v: int)
    ensures v == Evaluation(b)
  {
    var pos, white, black := ScanSquares(b);

    var mw := GetValidMoves(b, White);
    var mb := GetValidMoves(b, Black);
    var mobility := 8 * (|mw| - |mb|);

    var empties := 64 - (white + black);
    var discDiff := if empties * 100 < 35 * 64 then 12 * (white - black) else 3 * (white - black);

    var cornerScore := CornerOccupancy(b);

    v := 2 * pos + 2 * mobility + discDiff + 2 * cornerScore;
  }
}
