/** The starting position that resetGame sets up, and what the rules say
    about it: Black's four opening moves and the tally after one of them. */
module Opening {
  import opened Rules

  /** The square contents of the starting position. */
  function InitialCell(i: int, j: int): Cell
  {
    if (i == 3 && j == 3) || (i == 4 && j == 4) then White
    else if (i == 3 && j == 4) || (i == 4 && j == 3) then Black
    else Empty
  }

  lemma InitialAt()
    ensures forall i, j :: InBounds(i, j) ==> InitialBoard()[i][j] == InitialCell(i, j)
  {
    var b0 := EmptyBoard();
    var b1 := SetCell(b0, Pos(3, 3), White);
    var b2 := SetCell(b1, Pos(3, 4), Black);
    var b3 := SetCell(b2, Pos(4, 3), Black);
    SetCellAt(b0, Pos(3, 3), White);
    SetCellAt(b1, Pos(3, 4), Black);
    SetCellAt(b2, Pos(4, 3), Black);
    SetCellAt(b3, Pos(4, 4), White);
  }

  /** Only the direction at index i can flip anything when every other
      neighbour of the (empty) target is not an opponent disc. */
  lemma {:induction false} FlipsAlongOneRay(b: Board, r: int, c: int, p: Player, i: int, n: nat)
    requires n <= 8 && 0 <= i < 8
    requires forall j :: 0 <= j < 8 && j != i ==> !Holds(b, Step(Pos(r, c), Dirs[j]), Opponent(p))
    ensures FlipsAlong(b, r, c, p, n) == if i < n then RayFlips(b, r, c, Dirs[i], p) else []
  {
    if n > 0 {
      DirsAreDistinctDirections();
      FlipsAlongOneRay(b, r, c, p, i, n - 1);
      FlipsAlongStep(b, r, c, p, n - 1);
      if n - 1 != i {
        WalkStop(b, Step(Pos(r, c), Dirs[n - 1]), Dirs[n - 1], Opponent(p));
        assert RayFlips(b, r, c, Dirs[n - 1], p) == [];
      }
    }
  }

  /** Every neighbour of (r, c) except the one in direction Dirs[i] is
      not an opponent disc. */
  predicate OnlyRay(b: Board, r: int, c: int, p: Player, i: int)
  {
    var opp := Opponent(p);
    (i == 0 || !Holds(b, Pos(r - 1, c - 1), opp)) && (i == 1 || !Holds(b, Pos(r - 1, c), opp)) &&
    (i == 2 || !Holds(b, Pos(r - 1, c + 1), opp)) && (i == 3 || !Holds(b, Pos(r, c - 1), opp)) &&
    (i == 4 || !Holds(b, Pos(r, c + 1), opp)) && (i == 5 || !Holds(b, Pos(r + 1, c - 1), opp)) &&
    (i == 6 || !Holds(b, Pos(r + 1, c), opp)) && (i == 7 || !Holds(b, Pos(r + 1, c + 1), opp))
  }

  lemma OnlyRayNeighbour(b: Board, r: int, c: int, p: Player, i: int, j: int)
    requires OnlyRay(b, r, c, p, i) && 0 <= j < 8 && j != i
    ensures !Holds(b, Step(Pos(r, c), Dirs[j]), Opponent(p))
  {
    if j < 4 {
      if j == 0 { assert Dirs[0] == Dir(-1, -1); }
      else if j == 1 { assert Dirs[1] == Dir(-1, 0); }
      else if j == 2 { assert Dirs[2] == Dir(-1, 1); }
      else { assert Dirs[3] == Dir(0, -1); }
    } else {
      if j == 4 { assert Dirs[4] == Dir(0, 1); }
      else if j == 5 { assert Dirs[5] == Dir(1, -1); }
      else if j == 6 { assert Dirs[6] == Dir(1, 0); }
      else { assert Dirs[7] == Dir(1, 1); }
    }
  }

  lemma FlipsOneRay(b: Board, r: int, c: int, p: Player, i: int)
    requires InBounds(r, c) && b[r][c] == Empty && 0 <= i < 8
    requires OnlyRay(b, r, c, p, i)
    ensures Flips(b, r, c, p) == RayFlips(b, r, c, Dirs[i], p)
  {
    forall j | 0 <= j < 8 && j != i
      ensures !Holds(b, Step(Pos(r, c), Dirs[j]), Opponent(p))
    {
      OnlyRayNeighbour(b, r, c, p, i, j);
    }
    FlipsAlongOneRay(b, r, c, p, i, 8);
  }

  /** A square with no opponent disc around it flips nothing. */
  lemma FlipsIsolated(b: Board, r: int, c: int, p: Player)
    requires InBounds(r, c) && b[r][c] == Empty
    requires OnlyRay(b, r, c, p, 0) && !Holds(b, Pos(r - 1, c - 1), Opponent(p))
    ensures Flips(b, r, c, p) == []
  {
    FlipsOneRay(b, r, c, p, 0);
    RayFlipsUnclosed(b, r, c, Dir(-1, -1), p, 1);
  }

  /** A ray that passes over one opponent disc and reaches a disc of p
      flips exactly that one disc. */
  lemma RayOne(b: Board, r: int, c: int, d: Dir, p: Player)
    requires IsDir(d)
    requires Holds(b, Step(Pos(r, c), d), Opponent(p)) && Holds(b, Step(Step(Pos(r, c), d), d), p)
    ensures RayFlips(b, r, c, d, p) == [Step(Pos(r, c), d)]
  {
    var o := Pos(r, c);
    assert Ahead(o, d, 1) == Step(o, d) && Ahead(o, d, 2) == Step(Step(o, d), d);
    RayFlipsComplete(b, r, c, d, p, 1);
    assert seq(1, k => Ahead(o, d, k + 1)) == [Step(o, d)];
  }

  /** The board holds the starting position. */
  ghost predicate IsInitial(b: Board)
  {
    forall i, j :: InBounds(i, j) ==> b[i][j] == InitialCell(i, j)
  }

  /** Black's four opening squares. */
  predicate IsOpeningSquare(r: int, c: int)
  {
    (r == 2 && c == 3) || (r == 3 && c == 2) || (r == 4 && c == 5) || (r == 5 && c == 4)
  }

  /** A stretch of a row whose squares flip nothing adds no move. */
  lemma {:induction false} RowSkip(row: seq<seq<Pos>>, r: int, lo: nat, hi: nat)
    requires lo <= hi <= |row|
    requires forall c :: lo <= c < hi ==> row[c] == []
    ensures RowMoves(row, r, hi) == RowMoves(row, r, lo)
  {
    if lo < hi {
      RowSkip(row, r, lo, hi - 1);
    }
  }

  /** A ray from (r, c) along d over White discs that ends on an empty
      square (k = n) flips nothing for Black. */
  lemma Unclosed(b: Board, r: int, c: int, i: int, n: int)
    requires IsInitial(b) && InBounds(r, c) && InitialCell(r, c) == Empty && 0 <= i < 8 && 2 <= n <= 3
    requires OnlyRay(b, r, c, Black, i)
    requires forall k :: 1 <= k < n ==> Holds(b, Ahead(Pos(r, c), Dirs[i], k), White)
    requires Holds(b, Ahead(Pos(r, c), Dirs[i], n), Empty)
    ensures Flips(b, r, c, Black) == []
  {
    FlipsOneRay(b, r, c, Black, i);
    DirsAreDistinctDirections();
    RayFlipsUnclosed(b, r, c, Dirs[i], Black, n);
  }

  /** Apart from the four opening squares, no square of the starting
      position gives Black anything to flip. */
  lemma InitialQuiet(b: Board, r: int, c: int)
    requires IsInitial(b) && InBounds(r, c) && !IsOpeningSquare(r, c)
    ensures Flips(b, r, c, Black) == []
  {
    if b[r][c] != Empty {
    } else if !(2 <= r <= 5 && 2 <= c <= 5) || (r == 2 && c == 5) || (r == 5 && c == 2) {
      FlipsIsolated(b, r, c, Black);
    } else if r == 2 && c == 2 {
      assert Dirs[7] == Dir(1, 1);
      Unclosed(b, 2, 2, 7, 3);
    } else if r == 2 && c == 4 {
      assert Dirs[5] == Dir(1, -1);
      Unclosed(b, 2, 4, 5, 2);
    } else if r == 4 && c == 2 {
      assert Dirs[2] == Dir(-1, 1);
      Unclosed(b, 4, 2, 2, 2);
    } else if r == 3 && c == 5 {
      assert Dirs[5] == Dir(1, -1);
      Unclosed(b, 3, 5, 5, 2);
    } else if r == 5 && c == 3 {
      assert Dirs[2] == Dir(-1, 1);
      Unclosed(b, 5, 3, 2, 2);
    } else {
      assert r == 5 && c == 5;
      assert Dirs[0] == Dir(-1, -1);
      Unclosed(b, 5, 5, 0, 3);
    }
  }

  /** Each opening square flips the one White disc next to it. */
  lemma InitialOpening(b: Board, r: int, c: int)
    requires IsInitial(b) && IsOpeningSquare(r, c)
    ensures Flips(b, r, c, Black) == OpeningFlips(r, c)
  {
    assert b[r][c] == Empty;
    if r == 2 {
      assert Dirs[6] == Dir(1, 0) && OnlyRay(b, 2, 3, Black, 6);
      FlipsOneRay(b, 2, 3, Black, 6);
      assert Holds(b, Pos(3, 3), White) && Holds(b, Pos(4, 3), Black);
      RayOne(b, 2, 3, Dir(1, 0), Black);
    } else if r == 3 {
      assert Dirs[4] == Dir(0, 1) && OnlyRay(b, 3, 2, Black, 4);
      FlipsOneRay(b, 3, 2, Black, 4);
      assert Holds(b, Pos(3, 3), White) && Holds(b, Pos(3, 4), Black);
      RayOne(b, 3, 2, Dir(0, 1), Black);
    } else if r == 4 {
      assert Dirs[3] == Dir(0, -1) && OnlyRay(b, 4, 5, Black, 3);
      FlipsOneRay(b, 4, 5, Black, 3);
      assert Holds(b, Pos(4, 4), White) && Holds(b, Pos(4, 3), Black);
      RayOne(b, 4, 5, Dir(0, -1), Black);
    } else {
      assert Dirs[1] == Dir(-1, 0) && OnlyRay(b, 5, 4, Black, 1);
      FlipsOneRay(b, 5, 4, Black, 1);
      assert Holds(b, Pos(4, 4), White) && Holds(b, Pos(3, 4), Black);
      RayOne(b, 5, 4, Dir(-1, 0), Black);
    }
  }

  /** The flip lists of the starting position for Black. */
  function OpeningFlips(r: int, c: int): seq<Pos>
  {
    if (r == 2 && c == 3) || (r == 3 && c == 2) then [Pos(3, 3)]
    else if (r == 4 && c == 5) || (r == 5 && c == 4) then [Pos(4, 4)]
    else []
  }

  lemma InitialBoardIsInitial()
    ensures IsInitial(InitialBoard())
  {
    InitialAt();
  }

  /** The column of Black's opening square on row r, for rows 2 to 5. */
  function OpeningColumn(r: int): int
  {
    if r == 2 then 3 else if r == 3 then 2 else if r == 4 then 5 else 4
  }

  /** Rows 2 to 5 of the starting position hold one Black move each, the
      other rows none. */
  lemma InitialRow(b: Board, r: int)
    requires IsInitial(b) && 0 <= r < 8
    ensures RowMoves(FlipGrid(b, Black)[r], r, |FlipGrid(b, Black)[r]|) ==
      if 2 <= r <= 5 then [Move(r, OpeningColumn(r), OpeningFlips(r, OpeningColumn(r)))] else []
  {
    var row := FlipGrid(b, Black)[r];
    FlipGridShape(b, Black);
    forall c | 0 <= c < 8 && !IsOpeningSquare(r, c)
      ensures row[c] == []
    {
      InitialQuiet(b, r, c);
    }
    if 2 <= r <= 5 {
      var k := OpeningColumn(r);
      RowSkip(row, r, 0, k);
      InitialOpening(b, r, k);
      assert RowMoves(row, r, k + 1) == RowMoves(row, r, k) + [Move(r, k, OpeningFlips(r, k))];
      RowSkip(row, r, k + 1, 8);
    } else {
      RowSkip(row, r, 0, 8);
    }
  }

  /** A grid whose rows 2 to 5 hold one opening move each, and whose other
      rows hold none, lists the four opening moves. */
  lemma OpeningGridMoves(g: seq<seq<seq<Pos>>>)
    requires |g| == 8
    requires RowMoves(g[0], 0, |g[0]|) == [] && RowMoves(g[1], 1, |g[1]|) == []
    requires RowMoves(g[2], 2, |g[2]|) == [Move(2, 3, OpeningFlips(2, 3))]
    requires RowMoves(g[3], 3, |g[3]|) == [Move(3, 2, OpeningFlips(3, 2))]
    requires RowMoves(g[4], 4, |g[4]|) == [Move(4, 5, OpeningFlips(4, 5))]
    requires RowMoves(g[5], 5, |g[5]|) == [Move(5, 4, OpeningFlips(5, 4))]
    requires RowMoves(g[6], 6, |g[6]|) == [] && RowMoves(g[7], 7, |g[7]|) == []
    ensures MovesBefore(g, 8) ==
      [Move(2, 3, [Pos(3, 3)]), Move(3, 2, [Pos(3, 3)]), Move(4, 5, [Pos(4, 4)]), Move(5, 4, [Pos(4, 4)])]
  {
    GridStep(g, 0, []);
    GridStep(g, 1, []);
    GridStep(g, 2, [Move(2, 3, [Pos(3, 3)])]);
    GridStep(g, 3, [Move(3, 2, [Pos(3, 3)])]);
    GridStep(g, 4, [Move(4, 5, [Pos(4, 4)])]);
    GridStep(g, 5, [Move(5, 4, [Pos(4, 4)])]);
    GridStep(g, 6, []);
    GridStep(g, 7, []);
  }

  lemma GridStep(g: seq<seq<seq<Pos>>>, n: nat, row: seq<Move>)
    requires n < |g| && RowMoves(g[n], n, |g[n]|) == row
    ensures MovesBefore(g, n + 1) == MovesBefore(g, n) + row
  {
  }

  /** At the start Black has exactly four moves, in row-major order, each
      flipping the one White disc it is next to. */
  lemma InitialMoves(b: Board)
    requires IsInitial(b)
    ensures ValidMoves(b, Black) ==
      [Move(2, 3, [Pos(3, 3)]), Move(3, 2, [Pos(3, 3)]), Move(4, 5, [Pos(4, 4)]), Move(5, 4, [Pos(4, 4)])]
  {
    InitialRow(b, 0);
    InitialRow(b, 1);
    InitialRow(b, 2);
    InitialRow(b, 3);
    InitialRow(b, 4);
    InitialRow(b, 5);
    InitialRow(b, 6);
    InitialRow(b, 7);
    OpeningGridMoves(FlipGrid(b, Black));
  }

  /** The starting position is not a finished game. */
  lemma InitialNotOver(b: Board)
    requires IsInitial(b)
    ensures !IsGameOver(b)
  {
    InitialMoves(b);
  }

  /** The starting position is the only board that holds it. */
  lemma InitialUnique(b: Board)
    requires IsInitial(b)
    ensures b == InitialBoard()
  {
    InitialAt();
    forall i | 0 <= i < 8 ensures b[i] == InitialBoard()[i] {
      assert forall j :: 0 <= j < 8 ==> b[i][j] == InitialBoard()[i][j];
    }
  }

  lemma {:induction false} CountRowNone(row: seq<Cell>, x: Cell)
    requires forall j :: 0 <= j < |row| ==> row[j] != x
    ensures CountRow(row, x) == 0
  {
    if row != [] {
      CountRowNone(row[..|row| - 1], x);
    }
  }

  lemma {:induction false} CountRowsNone(rows: seq<seq<Cell>>, x: Cell)
    requires forall i, j :: 0 <= i < |rows| && 0 <= j < |rows[i]| ==> rows[i][j] != x
    ensures CountRows(rows, x) == 0
  {
    if rows != [] {
      CountRowsNone(rows[..|rows| - 1], x);
      CountRowNone(rows[|rows| - 1], x);
    }
  }

  lemma InitialBoardTally()
    ensures Tally(InitialBoard()) == Score(2, 2)
  {
    var b0 := EmptyBoard();
    var b1 := SetCell(b0, Pos(3, 3), White);
    var b2 := SetCell(b1, Pos(3, 4), Black);
    var b3 := SetCell(b2, Pos(4, 3), Black);
    CountRowsNone(b0, Black);
    CountRowsNone(b0, White);
    SetCellAt(b0, Pos(3, 3), White);
    SetCellAt(b1, Pos(3, 4), Black);
    SetCellAt(b2, Pos(4, 3), Black);
    forall x | x == Black || x == White
      ensures Count(InitialBoard(), x) == Ind(x == White) + Ind(x == Black) + Ind(x == Black) + Ind(x == White)
    {
      CountSetCell(b0, Pos(3, 3), White, x);
      CountSetCell(b1, Pos(3, 4), Black, x);
      CountSetCell(b2, Pos(4, 3), Black, x);
      CountSetCell(b3, Pos(4, 4), White, x);
    }
  }

  /** resetGame starts from two discs of each colour. */
  lemma InitialTally(b: Board)
    requires IsInitial(b)
    ensures Tally(b) == Score(2, 2)
  {
    InitialUnique(b);
    InitialBoardTally();
  }

  /** Black opening on (2,3) leaves four Black discs and one White one. */
  lemma FirstMoveTally(b: Board)
    requires IsInitial(b)
    ensures Move(2, 3, [Pos(3, 3)]) in ValidMoves(b, Black)
    ensures Tally(ApplyMove(b, Move(2, 3, [Pos(3, 3)]), Black)) == Score(4, 1)
  {
    InitialMoves(b);
    InitialTally(b);
    ApplyMoveTally(b, Move(2, 3, [Pos(3, 3)]), Black);
  }
}
