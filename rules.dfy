/** Board model and rules engine of the Othello game (HW-10/script.js):
    cells and players, the eight ray directions, flip computation, legal
    move generation, move application, the tally and the game-over test. */
module Rules {

  /** Contents of one square; the source encodes these as 0, 1 and 2. */
  datatype Cell = Empty | Black | White

  /** A side: the source uses the cell constants BLACK and WHITE for players. */
  type Player = c: Cell | c != Empty witness Black

  /** The 8x8 grid, indexed b[row][column]. */
  type Board = b: seq<seq<Cell>> | |b| == 8 && forall r :: 0 <= r < 8 ==> |b[r]| == 8
    witness seq(8, _ => seq(8, _ => Empty))

  datatype Pos = Pos(r: int, c: int)

  /** A ray direction (row step, column step). */
  datatype Dir = Dir(dr: int, dc: int)

  /** A legal-move candidate: the target square and the discs it flips. */
  datatype Move = Move(r: int, c: int, flips: seq<Pos>)

  predicate IsDir(d: Dir) { -1 <= d.dr <= 1 && -1 <= d.dc <= 1 && d != Dir(0, 0) }

  /** The eight compass directions, in the order the source scans them. */
  const Dirs: seq<Dir> := [Dir(-1, -1), Dir(-1, 0), Dir(-1, 1),
                           Dir(0, -1),               Dir(0, 1),
                           Dir(1, -1),  Dir(1, 0),   Dir(1, 1)]

  predicate InBounds(r: int, c: int) { 0 <= r < 8 && 0 <= c < 8 }

  predicate OnBoard(q: Pos) { InBounds(q.r, q.c) }

  /** Square q exists and holds x. */
  predicate Holds(b: Board, q: Pos, x: Cell) { OnBoard(q) && b[q.r][q.c] == x }

  function Opponent(p: Player): (q: Player)
    ensures q != p
  {
    if p == Black then White else Black
  }

  function IsCorner(r: int, c: int): (corner: bool)
    ensures corner ==> InBounds(r, c) && (r == 0 || r == 7) && (c == 0 || c == 7)
    ensures InBounds(r, c) && (r == 0 || r == 7) && (c == 0 || c == 7) ==> corner
  {
    (r == 0 && c == 0) || (r == 0 && c == 7) || (r == 7 && c == 0) || (r == 7 && c == 7)
  }

  // ---------------------------------------------------------------------
  // Rays
  // ---------------------------------------------------------------------

  lemma DirsAreDistinctDirections()
    ensures |Dirs| == 8
    ensures forall i :: 0 <= i < 8 ==> IsDir(Dirs[i])
    ensures forall i, j :: 0 <= i < j < 8 ==> Dirs[i] != Dirs[j]
  {
  }

  /** k * dv for a unit step dv, written without multiplication. */
  function Scale(k: int, dv: int): int
  {
    if dv == 1 then k else if dv == -1 then -k else 0
  }

  function Step(q: Pos, d: Dir): Pos { Pos(q.r + d.dr, q.c + d.dc) }

  /** The square k steps from q along d. */
  function Ahead(q: Pos, d: Dir, k: int): Pos { Pos(q.r + Scale(k, d.dr), q.c + Scale(k, d.dc)) }

  function Sign(v: int): int { if v > 0 then 1 else if v < 0 then -1 else 0 }

  /** The direction in which `to` lies from `from` (meaningful on rays). */
  function Heading(from: Pos, to: Pos): Dir { Dir(Sign(to.r - from.r), Sign(to.c - from.c)) }

  /** Steps left before coordinate v leaves 0..7 when moving by dv. */
  function Remaining(v: int, dv: int): int
  {
    if dv == 1 then 8 - v else if dv == -1 then v + 1 else 0
  }

  /** A walk along a ray: the cells collected, and the square where it stopped. */
  datatype Run = Run(cells: seq<Pos>, stop: Pos)

  /** Walk from q along d while the squares hold x: the squares passed, and
      the square where the walk stopped. */
  function Walk(b: Board, q: Pos, d: Dir, x: Cell): (run: Run)
    requires IsDir(d)
    decreases Remaining(q.r, d.dr) + Remaining(q.c, d.dc)
  {
    if Holds(b, q, x) then
      var rest := Walk(b, Step(q, d), d, x);
      Run([q] + rest.cells, rest.stop)
    else
      Run([], q)
  }

  lemma WalkStep(b: Board, q: Pos, d: Dir, x: Cell)
    requires IsDir(d) && Holds(b, q, x)
    ensures Walk(b, q, d, x).cells == [q] + Walk(b, Step(q, d), d, x).cells
    ensures Walk(b, q, d, x).stop == Walk(b, Step(q, d), d, x).stop
  {
  }

  lemma AppendOne<T>(s: seq<T>, x: T, t: seq<T>)
    ensures s + ([x] + t) == (s + [x]) + t && s + [] == s
  {
  }

  lemma WalkStop(b: Board, q: Pos, d: Dir, x: Cell)
    requires IsDir(d) && !Holds(b, q, x)
    ensures Walk(b, q, d, x) == Run([], q)
  {
  }

  lemma AheadNext(q: Pos, d: Dir, k: int)
    requires IsDir(d)
    ensures Ahead(Step(q, d), d, k) == Ahead(q, d, k + 1)
  {
  }

  /** A walk collects the consecutive squares q, q+d, q+2d, ... that hold x
      and stops on the first square that is off the board or holds something else. */
  lemma {:induction false} WalkIsMaximalRun(b: Board, q: Pos, d: Dir, x: Cell)
    requires IsDir(d)
    ensures forall k :: 0 <= k < |Walk(b, q, d, x).cells| ==>
      Walk(b, q, d, x).cells[k] == Ahead(q, d, k) && Holds(b, Walk(b, q, d, x).cells[k], x)
    ensures Walk(b, q, d, x).stop == Ahead(q, d, |Walk(b, q, d, x).cells|)
    ensures !Holds(b, Walk(b, q, d, x).stop, x)
    decreases Remaining(q.r, d.dr) + Remaining(q.c, d.dc)
  {
    if Holds(b, q, x) {
      WalkIsMaximalRun(b, Step(q, d), d, x);
      var rest := Walk(b, Step(q, d), d, x);
      assert forall k :: 0 <= k <= |rest.cells| ==> Ahead(Step(q, d), d, k) == Ahead(q, d, k + 1);
    }
  }

  /** The discs that `p` playing at (r, c) flips along d: the run of
      opponent discs next to (r, c), kept only when it is non-empty and the
      square after it is on the board and holds p. */
  function RayFlips(b: Board, r: int, c: int, d: Dir, p: Player): seq<Pos>
    requires IsDir(d)
  {
    var run := Walk(b, Step(Pos(r, c), d), d, Opponent(p));
    if |run.cells| > 0 && Holds(b, run.stop, p) then run.cells else []
  }

  /** What a direction contributes is a run of opponent discs at distances
      1, 2, ... from (r, c), closed by a disc of p. */
  lemma RayFlipsBracket(b: Board, r: int, c: int, d: Dir, p: Player)
    requires IsDir(d)
    ensures forall k :: 0 <= k < |RayFlips(b, r, c, d, p)| ==>
      RayFlips(b, r, c, d, p)[k] == Ahead(Pos(r, c), d, k + 1) && Holds(b, RayFlips(b, r, c, d, p)[k], Opponent(p))
    ensures RayFlips(b, r, c, d, p) != [] ==> Holds(b, Ahead(Pos(r, c), d, |RayFlips(b, r, c, d, p)| + 1), p)
  {
    var o := Pos(r, c);
    var run := Walk(b, Step(o, d), d, Opponent(p));
    WalkIsMaximalRun(b, Step(o, d), d, Opponent(p));
    assert forall k :: 0 <= k <= |run.cells| ==> Ahead(Step(o, d), d, k) == Ahead(o, d, k + 1);
  }

  /** Conversely, every run of n >= 1 opponent discs next to (r, c) that is
      closed by a disc of p is exactly what the direction contributes. */
  lemma {:induction false} RayFlipsComplete(b: Board, r: int, c: int, d: Dir, p: Player, n: int)
    requires IsDir(d) && 1 <= n
    requires forall k :: 1 <= k <= n ==> Holds(b, Ahead(Pos(r, c), d, k), Opponent(p))
    requires Holds(b, Ahead(Pos(r, c), d, n + 1), p)
    ensures RayFlips(b, r, c, d, p) == seq(n, k => Ahead(Pos(r, c), d, k + 1))
  {
    var o := Pos(r, c);
    var run := Walk(b, Step(o, d), d, Opponent(p));
    WalkIsMaximalRun(b, Step(o, d), d, Opponent(p));
    var len := |run.cells|;
    AheadNext(o, d, len);
    assert len >= n;
    AheadNext(o, d, n);
    assert len <= n;
    forall k | 0 <= k < n ensures run.cells[k] == Ahead(o, d, k + 1) {
      AheadNext(o, d, k);
    }
  }

  /** A direction whose run of opponent discs (possibly empty) is followed
      by a square that does not hold p contributes nothing; so does a
      direction whose first square does not hold an opponent disc. */
  lemma {:induction false} RayFlipsUnclosed(b: Board, r: int, c: int, d: Dir, p: Player, n: int)
    requires IsDir(d) && 1 <= n
    requires forall k :: 1 <= k < n ==> Holds(b, Ahead(Pos(r, c), d, k), Opponent(p))
    requires !Holds(b, Ahead(Pos(r, c), d, n), Opponent(p))
    requires n == 1 || !Holds(b, Ahead(Pos(r, c), d, n), p)
    ensures RayFlips(b, r, c, d, p) == []
  {
    var o := Pos(r, c);
    var run := Walk(b, Step(o, d), d, Opponent(p));
    WalkIsMaximalRun(b, Step(o, d), d, Opponent(p));
    var len := |run.cells|;
    AheadNext(o, d, len);
    assert len >= n - 1;
    AheadNext(o, d, n - 1);
    assert len <= n - 1;
  }

  /** Every flipped square of a ray lies strictly along that ray, each once. */
  lemma RayFlipsHeading(b: Board, r: int, c: int, d: Dir, p: Player)
    requires IsDir(d)
    ensures forall q :: q in RayFlips(b, r, c, d, p) ==> Heading(Pos(r, c), q) == d
    ensures NoDup(RayFlips(b, r, c, d, p))
  {
    RayFlipsBracket(b, r, c, d, p);
  }

  // ---------------------------------------------------------------------
  // Flips of one square
  // ---------------------------------------------------------------------

  predicate NoDup<T(==)>(s: seq<T>) { forall i, j :: 0 <= i < j < |s| ==> s[i] != s[j] }

  /** Flips contributed by the first n directions of Dirs. */
  function FlipsAlong(b: Board, r: int, c: int, p: Player, n: nat): seq<Pos>
    requires n <= 8
  {
    DirsAreDistinctDirections();
    if n == 0 then [] else FlipsAlong(b, r, c, p, n - 1) + RayFlips(b, r, c, Dirs[n - 1], p)
  }

  /** getFlips: no flips unless (r, c) is empty; otherwise the flips of the
      eight directions, in the order of Dirs. */
  function Flips(b: Board, r: int, c: int, p: Player): seq<Pos>
    requires InBounds(r, c)
  {
    if b[r][c] != Empty then [] else FlipsAlong(b, r, c, p, 8)
  }

  lemma NoDupAppend<T>(s: seq<T>, t: seq<T>)
    requires NoDup(s) && NoDup(t) && forall x :: x in s ==> x !in t
    ensures NoDup(s + t)
  {
    forall i, j | 0 <= i < j < |s + t| ensures (s + t)[i] != (s + t)[j] {
      if i < |s| <= j {
        assert (s + t)[i] == s[i] && s[i] in s;
        assert (s + t)[j] == t[j - |s|];
      }
    }
  }

  /** Each flip of the first n directions lies on one of them and holds an opponent disc. */
  lemma {:induction false} FlipsAlongSound(b: Board, r: int, c: int, p: Player, n: nat)
    requires n <= 8
    ensures forall q :: q in FlipsAlong(b, r, c, p, n) ==> Heading(Pos(r, c), q) in Dirs[..n] && Holds(b, q, Opponent(p))
  {
    if n > 0 {
      DirsAreDistinctDirections();
      FlipsAlongSound(b, r, c, p, n - 1);
      var d := Dirs[n - 1];
      RayFlipsHeading(b, r, c, d, p);
      RayFlipsBracket(b, r, c, d, p);
      assert Dirs[..n] == Dirs[..n - 1] + [d];
    }
  }

  lemma {:induction false} FlipsAlongNoDup(b: Board, r: int, c: int, p: Player, n: nat)
    requires n <= 8
    ensures NoDup(FlipsAlong(b, r, c, p, n))
  {
    if n > 0 {
      DirsAreDistinctDirections();
      FlipsAlongNoDup(b, r, c, p, n - 1);
      FlipsAlongSound(b, r, c, p, n - 1);
      var d := Dirs[n - 1];
      RayFlipsHeading(b, r, c, d, p);
      var front, back := FlipsAlong(b, r, c, p, n - 1), RayFlips(b, r, c, d, p);
      assert d !in Dirs[..n - 1];
      forall q | q in front ensures q !in back {
        assert Heading(Pos(r, c), q) in Dirs[..n - 1];
      }
      NoDupAppend(front, back);
    }
  }

  /** The flip list is empty unless the target is empty; it names only
      on-board squares holding the opponent's discs, each once, never the target. */
  lemma FlipsAreOpponentDiscs(b: Board, r: int, c: int, p: Player)
    requires InBounds(r, c)
    ensures b[r][c] != Empty ==> Flips(b, r, c, p) == []
    ensures forall q :: q in Flips(b, r, c, p) ==> Holds(b, q, Opponent(p))
    ensures NoDup(Flips(b, r, c, p))
    ensures Pos(r, c) !in Flips(b, r, c, p)
  {
    if b[r][c] == Empty {
      FlipsAlongNoDup(b, r, c, p, 8);
      FlipsAlongSound(b, r, c, p, 8);
    }
  }

  /** The inner `while` of getFlips: walk from `start` along d while the
      squares hold x, collecting them. */
  method WalkLine(b: Board, start: Pos, d: Dir, x: Cell) returns (line: seq<Pos>, stop: Pos)
    requires IsDir(d)
    ensures Run(line, stop) == Walk(b, start, d, x)
  {
    var rr, cc := start.r, start.c;
    line := [];
    while InBounds(rr, cc) && b[rr][cc] == x
      invariant Walk(b, start, d, x) == Run(line + Walk(b, Pos(rr, cc), d, x).cells, Walk(b, Pos(rr, cc), d, x).stop)
      decreases Remaining(rr, d.dr) + Remaining(cc, d.dc)
    {
      ghost var rest := Walk(b, Pos(rr + d.dr, cc + d.dc), d, x);
      WalkStep(b, Pos(rr, cc), d, x);
      AppendOne(line, Pos(rr, cc), rest.cells);
      line := line + [Pos(rr, cc)];
      rr, cc := rr + d.dr, cc + d.dc;
    }
    stop := Pos(rr, cc);
    WalkStop(b, stop, d, x);
    AppendOne(line, stop, []);
  }


  lemma FlipsAlongStep(b: Board, r: int, c: int, p: Player, i: int)
    requires 0 <= i < 8 && IsDir(Dirs[i])
    ensures FlipsAlong(b, r, c, p, i + 1) == FlipsAlong(b, r, c, p, i) + RayFlips(b, r, c, Dirs[i], p)
  {
  }

  /** One pass of getFlips' direction loop: walk over the opponent's discs
      from the neighbour along d, and keep them only if p's disc closes the run. */
  method RayLine(b: Board, r: int, c: int, d: Dir, p: Player) returns (ray: seq<Pos>)
    requires IsDir(d)
    ensures ray == RayFlips(b, r, c, d, p)
  {
    var line, stop := WalkLine(b, Pos(r + d.dr, c + d.dc), d, Opponent(p));
    assert Step(Pos(r, c), d) == Pos(r + d.dr, c + d.dc);
    if |line| > 0 && InBounds(stop.r, stop.c) && b[stop.r][stop.c] == p {
      ray := line;
    } else {
      ray := [];
    }
  }

  /** getFlips as the source writes it: a loop over Dirs with an inner walk. */
  method GetFlips(b: Board, r: int, c: int, p: Player) returns (flips: seq<Pos>)
    requires InBounds(r, c)
    ensures flips == Flips(b, r, c, p)
  {
    if b[r][c] != Empty {
      return [];
    }
    DirsAreDistinctDirections();
    flips := [];
    var i := 0;
    while i < 8
      invariant 0 <= i <= 8
      invariant flips == FlipsAlong(b, r, c, p, i)
    {
      var ray := RayLine(b, r, c, Dirs[i], p);
      FlipsAlongStep(b, r, c, p, i);
      flips := flips + ray;
      i := i + 1;
    }
  }


  // ---------------------------------------------------------------------
  // Legal moves
  // ---------------------------------------------------------------------

  /** Row-major index of a square. */
  function Index(r: int, c: int): int { 8 * r + c }

  /** m is a legal move of p on b, with its exact flip list. */
  predicate IsMoveOf(b: Board, p: Player, m: Move)
  {
    InBounds(m.r, m.c) && m.flips == Flips(b, m.r, m.c, p) && m.flips != []
  }

  /** The flip list of every square, row by row. */
  function FlipGrid(b: Board, p: Player): seq<seq<seq<Pos>>>
  {
    seq(8, r requires 0 <= r < 8 => seq(8, c requires 0 <= c < 8 => Flips(b, r, c, p)))
  }

  lemma FlipGridShape(b: Board, p: Player)
    ensures |FlipGrid(b, p)| == 8 && forall r :: 0 <= r < 8 ==> |FlipGrid(b, p)[r]| == 8
  {
  }

  /** The moves on the first k squares of a row of flip lists, left to right. */
  function RowMoves(row: seq<seq<Pos>>, r: int, k: nat): seq<Move>
    requires k <= |row|
  {
    if k == 0 then [] else RowMoves(row, r, k - 1) + (if row[k - 1] != [] then [Move(r, k - 1, row[k - 1])] else [])
  }

  /** The moves on the first n rows of a grid of flip lists, in row-major order. */
  function MovesBefore(g: seq<seq<seq<Pos>>>, n: nat): seq<Move>
    requires n <= |g|
  {
    if n == 0 then [] else MovesBefore(g, n - 1) + RowMoves(g[n - 1], n - 1, |g[n - 1]|)
  }

  /** m is listed in the grid with its own flip list, which is not empty. */
  predicate InGrid(g: seq<seq<seq<Pos>>>, m: Move)
  {
    0 <= m.r < |g| && 0 <= m.c < |g[m.r]| && m.flips == g[m.r][m.c] && m.flips != []
  }

  /** m comes before m' in row-major order. */
  predicate Earlier(m: Move, m': Move) { m.r < m'.r || (m.r == m'.r && m.c < m'.c) }

  lemma {:induction false} RowMovesSound(row: seq<seq<Pos>>, r: int, k: nat)
    requires k <= |row|
    ensures forall m :: m in RowMoves(row, r, k) ==> m.r == r && 0 <= m.c < k && m.flips == row[m.c] && m.flips != []
  {
    if k > 0 {
      RowMovesSound(row, r, k - 1);
    }
  }

  lemma {:induction false} RowMovesSorted(row: seq<seq<Pos>>, r: int, k: nat)
    requires k <= |row|
    ensures forall i, j :: 0 <= i < j < |RowMoves(row, r, k)| ==> RowMoves(row, r, k)[i].c < RowMoves(row, r, k)[j].c
  {
    if k > 0 {
      var prev, ms := RowMoves(row, r, k - 1), RowMoves(row, r, k);
      RowMovesSorted(row, r, k - 1);
      RowMovesSound(row, r, k - 1);
      if row[k - 1] != [] {
        assert ms == prev + [Move(r, k - 1, row[k - 1])];
        forall i, j | 0 <= i < j < |ms| ensures ms[i].c < ms[j].c {
          assert ms[i] == prev[i] && prev[i] in prev;
          if j < |prev| {
            assert ms[j] == prev[j];
          }
        }
      } else {
        assert ms == prev;
      }
    }
  }

  lemma {:induction false} RowMovesComplete(row: seq<seq<Pos>>, r: int, k: nat)
    requires k <= |row|
    ensures forall c :: 0 <= c < k && row[c] != [] ==> Move(r, c, row[c]) in RowMoves(row, r, k)
  {
    if k > 0 {
      var prev := RowMoves(row, r, k - 1);
      assert RowMoves(row, r, k) == prev + (if row[k - 1] != [] then [Move(r, k - 1, row[k - 1])] else []);
      RowMovesComplete(row, r, k - 1);
    }
  }

  /** Every listed move is a square of the first n rows with its own, non-empty flip list. */
  lemma {:induction false} MovesBeforeSound(g: seq<seq<seq<Pos>>>, n: nat)
    requires n <= |g|
    ensures forall m :: m in MovesBefore(g, n) ==> InGrid(g, m) && m.r < n
  {
    if n > 0 {
      MovesBeforeSound(g, n - 1);
      RowMovesSound(g[n - 1], n - 1, |g[n - 1]|);
    }
  }

  /** The moves come in strictly increasing row-major order. */
  lemma {:induction false} MovesBeforeSorted(g: seq<seq<seq<Pos>>>, n: nat)
    requires n <= |g|
    ensures forall i, j :: 0 <= i < j < |MovesBefore(g, n)| ==> Earlier(MovesBefore(g, n)[i], MovesBefore(g, n)[j])
  {
    if n > 0 {
      var prev, row := MovesBefore(g, n - 1), RowMoves(g[n - 1], n - 1, |g[n - 1]|);
      var ms := MovesBefore(g, n);
      MovesBeforeSorted(g, n - 1);
      MovesBeforeSound(g, n - 1);
      RowMovesSorted(g[n - 1], n - 1, |g[n - 1]|);
      RowMovesSound(g[n - 1], n - 1, |g[n - 1]|);
      assert ms == prev + row;
      forall i, j | 0 <= i < j < |ms|
        ensures Earlier(ms[i], ms[j])
      {
        if j < |prev| {
          assert ms[i] == prev[i] && ms[j] == prev[j];
        } else if i >= |prev| {
          assert ms[i] == row[i - |prev|] && ms[j] == row[j - |prev|];
        } else {
          assert ms[i] == prev[i] && prev[i] in prev;
          assert ms[j] == row[j - |prev|] && row[j - |prev|] in row;
        }
      }
    }
  }

  /** Every square of the first n rows with a non-empty flip list has its move listed. */
  lemma {:induction false} MovesBeforeComplete(g: seq<seq<seq<Pos>>>, n: nat)
    requires n <= |g|
    ensures forall r, c :: 0 <= r < n && 0 <= c < |g[r]| && g[r][c] != [] ==> Move(r, c, g[r][c]) in MovesBefore(g, n)
  {
    if n > 0 {
      var prev, row := MovesBefore(g, n - 1), RowMoves(g[n - 1], n - 1, |g[n - 1]|);
      assert MovesBefore(g, n) == prev + row;
      MovesBeforeComplete(g, n - 1);
      RowMovesComplete(g[n - 1], n - 1, |g[n - 1]|);
      forall r, c | 0 <= r < n && 0 <= c < |g[r]| && g[r][c] != []
        ensures Move(r, c, g[r][c]) in prev + row
      {
        if r < n - 1 {
          assert Move(r, c, g[r][c]) in prev;
        } else {
          assert Move(r, c, g[r][c]) in row;
        }
      }
    }
  }

  /** getValidMoves: every legal move of p, in row-major order. */
  function ValidMoves(b: Board, p: Player): seq<Move>
  {
    MovesBefore(FlipGrid(b, p), 8)
  }

  /** The legal moves are exactly the squares with a non-empty flip list,
      each listed once with an empty target, in row-major order. */
  lemma ValidMovesExact(b: Board, p: Player)
    ensures forall m :: m in ValidMoves(b, p) ==> IsMoveOf(b, p, m) && b[m.r][m.c] == Empty
    ensures forall r, c :: InBounds(r, c) && Flips(b, r, c, p) != [] ==> Move(r, c, Flips(b, r, c, p)) in ValidMoves(b, p)
    ensures forall i, j :: 0 <= i < j < |ValidMoves(b, p)| ==>
      Index(ValidMoves(b, p)[i].r, ValidMoves(b, p)[i].c) < Index(ValidMoves(b, p)[j].r, ValidMoves(b, p)[j].c)
  {
    var g := FlipGrid(b, p);
    var ms := ValidMoves(b, p);
    MovesBeforeSound(g, 8);
    MovesBeforeSorted(g, 8);
    MovesBeforeComplete(g, 8);
    forall r, c | InBounds(r, c) && Flips(b, r, c, p) != [] ensures Move(r, c, Flips(b, r, c, p)) in ms {
      assert g[r][c] == Flips(b, r, c, p);
    }
    forall m | m in ms ensures IsMoveOf(b, p, m) && b[m.r][m.c] == Empty {
      assert InGrid(g, m);
      FlipsAreOpponentDiscs(b, m.r, m.c, p);
    }
    forall i, j | 0 <= i < j < |ms| ensures Index(ms[i].r, ms[i].c) < Index(ms[j].r, ms[j].c) {
      assert ms[i] in ms && ms[j] in ms && Earlier(ms[i], ms[j]);
    }
  }

  /** getValidMoves as the source writes it: a row-major double loop. */
  method GetValidMoves(b: Board, p: Player) returns (moves: seq<Move>)
    ensures moves == ValidMoves(b, p)
  {
    ghost var g := FlipGrid(b, p);
    moves := [];
    var r := 0;
    while r < 8
      invariant 0 <= r <= 8
      invariant moves == MovesBefore(g, r)
    {
      ghost var done, row := moves, g[r];
      assert |row| == 8;
      var c := 0;
      while c < 8
        invariant 0 <= c <= 8
        invariant moves == done + RowMoves(row, r, c)
      {
        var flips := GetFlips(b, r, c, p);
        assert flips == row[c];
        if |flips| > 0 {
          moves := moves + [Move(r, c, flips)];
          assert moves == done + (RowMoves(row, r, c) + [Move(r, c, flips)]);
        }
        c := c + 1;
      }
      r := r + 1;
    }
  }

  /** isGameOver: neither side has a legal move. */
  predicate IsGameOver(b: Board)
  {
    |ValidMoves(b, Black)| == 0 && |ValidMoves(b, White)| == 0
  }

  /** The game is over exactly when no empty square flips anything for either side. */
  lemma GameOverIff(b: Board)
    ensures IsGameOver(b) <==> forall r, c :: InBounds(r, c) ==> Flips(b, r, c, Black) == [] && Flips(b, r, c, White) == []
  {
    if !IsGameOver(b) {
      var p: Player := if |ValidMoves(b, Black)| != 0 then Black else White;
      ValidMovesExact(b, p);
      var m := ValidMoves(b, p)[0];
      assert IsMoveOf(b, p, m);
    } else {
      forall r, c | InBounds(r, c) ensures Flips(b, r, c, Black) == [] && Flips(b, r, c, White) == [] {
        ValidMovesExact(b, Black);
        ValidMovesExact(b, White);
      }
    }
  }

  /** isGameOver as the source computes it, from the two move lists. */
  method GameOver(b: Board) returns (over: bool)
    ensures over <==> IsGameOver(b)
  {
    var black := GetValidMoves(b, Black);
    var white := GetValidMoves(b, White);
    over := |black| == 0 && |white| == 0;
  }

  // ---------------------------------------------------------------------
  // Applying a move
  // ---------------------------------------------------------------------

  /** All squares a move writes are on the board. */
  predicate MoveOnBoard(m: Move) { InBounds(m.r, m.c) && forall q :: q in m.flips ==> OnBoard(q) }

  lemma ValidMovesOnBoard(b: Board, p: Player)
    ensures forall m :: m in ValidMoves(b, p) ==> MoveOnBoard(m)
  {
    ValidMovesExact(b, p);
    forall m | m in ValidMoves(b, p) ensures MoveOnBoard(m) {
      FlipsAreOpponentDiscs(b, m.r, m.c, p);
    }
  }

  /** The board with square q set to x. */
  function SetCell(b: Board, q: Pos, x: Cell): Board
    requires OnBoard(q)
  {
    b[q.r := b[q.r][q.c := x]]
  }

  /** The board with every square of ps set to x, written first to last. */
  function Paint(b: Board, ps: seq<Pos>, x: Cell): Board
    requires forall q :: q in ps ==> OnBoard(q)
  {
    if ps == [] then b else SetCell(Paint(b, ps[..|ps| - 1], x), ps[|ps| - 1], x)
  }

  /** applyMove: a copy of b with the target and every flip set to p (the
      input board is a value and is never changed). */
  function ApplyMove(b: Board, m: Move, p: Player): Board
    requires MoveOnBoard(m)
  {
    Paint(SetCell(b, Pos(m.r, m.c), p), m.flips, p)
  }

  lemma SetCellAt(b: Board, q: Pos, x: Cell)
    requires OnBoard(q)
    ensures forall i, j :: InBounds(i, j) ==> SetCell(b, q, x)[i][j] == if Pos(i, j) == q then x else b[i][j]
  {
  }

  lemma {:induction false} PaintAt(b: Board, ps: seq<Pos>, x: Cell)
    requires forall q :: q in ps ==> OnBoard(q)
    ensures forall i, j :: InBounds(i, j) ==> Paint(b, ps, x)[i][j] == if Pos(i, j) in ps then x else b[i][j]
  {
    if ps != [] {
      var init := ps[..|ps| - 1];
      PaintAt(b, init, x);
      SetCellAt(Paint(b, init, x), ps[|ps| - 1], x);
      assert ps == init + [ps[|ps| - 1]];
    }
  }

  /** The frame of applyMove: the target and the listed flips hold p, every
      other square is as before. */
  lemma ApplyMoveAt(b: Board, m: Move, p: Player)
    requires MoveOnBoard(m)
    ensures forall i, j :: InBounds(i, j) ==>
      ApplyMove(b, m, p)[i][j] == if Pos(i, j) == Pos(m.r, m.c) || Pos(i, j) in m.flips then p else b[i][j]
  {
    SetCellAt(b, Pos(m.r, m.c), p);
    PaintAt(SetCell(b, Pos(m.r, m.c), p), m.flips, p);
  }

  /** applyMove as the source runs it: the board value is the clone (cloneBoard),
      the target is written first, then each flip in list order. */
  method CloneAndApply(b: Board, m: Move, p: Player) returns (nb: Board)
    requires MoveOnBoard(m)
    ensures nb == ApplyMove(b, m, p)
  {
    var start := SetCell(b, Pos(m.r, m.c), p);
    nb := start;
    var i := 0;
    while i < |m.flips|
      invariant 0 <= i <= |m.flips|
      invariant nb == Paint(start, m.flips[..i], p)
    {
      assert m.flips[..i + 1][..i] == m.flips[..i];
      nb := SetCell(nb, m.flips[i], p);
      i := i + 1;
    }
    assert m.flips[..|m.flips|] == m.flips;
  }

  // ---------------------------------------------------------------------
  // Tally
  // ---------------------------------------------------------------------

  function Ind(cond: bool): int { if cond then 1 else 0 }

  /** Number of squares of a row holding x. */
  function CountRow(row: seq<Cell>, x: Cell): nat
  {
    if row == [] then 0 else CountRow(row[..|row| - 1], x) + Ind(row[|row| - 1] == x)
  }

  /** Number of squares of some rows holding x. */
  function CountRows(rows: seq<seq<Cell>>, x: Cell): nat
  {
    if rows == [] then 0 else CountRows(rows[..|rows| - 1], x) + CountRow(rows[|rows| - 1], x)
  }

  function Count(b: Board, x: Cell): nat { CountRows(b, x) }

  /** countScore's result. */
  datatype Score = Score(black: nat, white: nat)

  function Tally(b: Board): Score { Score(Count(b, Black), Count(b, White)) }

  lemma {:induction false} CountRowTotal(row: seq<Cell>)
    ensures CountRow(row, Empty) + CountRow(row, Black) + CountRow(row, White) == |row|
  {
    if row != [] {
      CountRowTotal(row[..|row| - 1]);
    }
  }

  lemma {:induction false} CountRowsTotal(rows: seq<seq<Cell>>)
    requires forall i :: 0 <= i < |rows| ==> |rows[i]| == 8
    ensures CountRows(rows, Empty) + CountRows(rows, Black) + CountRows(rows, White) == 8 * |rows|
  {
    if rows != [] {
      CountRowsTotal(rows[..|rows| - 1]);
      CountRowTotal(rows[|rows| - 1]);
    }
  }

  /** Every square is empty, black or white: the three counts add up to 64. */
  lemma CountTotal(b: Board)
    ensures Count(b, Empty) + Count(b, Black) + Count(b, White) == 64
  {
    CountRowsTotal(b);
  }

  /** countScore as the source writes it: a double loop with two counters. */
  method CountScore(b: Board) returns (s: Score)
    ensures s == Tally(b)
  {
    var black, white := 0, 0;
    var r := 0;
    while r < 8
      invariant 0 <= r <= 8
      invariant black == CountRows(b[..r], Black) && white == CountRows(b[..r], White)
    {
      var c := 0;
      while c < 8
        invariant 0 <= c <= 8
        invariant black == CountRows(b[..r], Black) + CountRow(b[r][..c], Black)
        invariant white == CountRows(b[..r], White) + CountRow(b[r][..c], White)
      {
        assert b[r][..c + 1][..c] == b[r][..c];
        if b[r][c] == Black {
          black := black + 1;
        } else if b[r][c] == White {
          white := white + 1;
        }
        c := c + 1;
      }
      assert b[r][..8] == b[r];
      assert b[..r + 1][..r] == b[..r];
      r := r + 1;
    }
    assert b[..8] == b;
    s := Score(black, white);
  }

  lemma {:induction false} CountRowUpdate(row: seq<Cell>, i: int, v: Cell, x: Cell)
    requires 0 <= i < |row|
    ensures CountRow(row[i := v], x) == CountRow(row, x) - Ind(row[i] == x) + Ind(v == x)
  {
    var n := |row|;
    if i == n - 1 {
      assert row[i := v][..n - 1] == row[..n - 1];
    } else {
      CountRowUpdate(row[..n - 1], i, v, x);
      assert row[i := v][..n - 1] == row[..n - 1][i := v];
    }
  }

  lemma {:induction false} CountRowsUpdate(rows: seq<seq<Cell>>, i: int, nr: seq<Cell>, x: Cell)
    requires 0 <= i < |rows|
    ensures CountRows(rows[i := nr], x) == CountRows(rows, x) - CountRow(rows[i], x) + CountRow(nr, x)
  {
    var n := |rows|;
    if i == n - 1 {
      assert rows[i := nr][..n - 1] == rows[..n - 1];
    } else {
      CountRowsUpdate(rows[..n - 1], i, nr, x);
      assert rows[i := nr][..n - 1] == rows[..n - 1][i := nr];
    }
  }

  /** Writing x over the old content of q moves one square between two counts. */
  lemma CountSetCell(b: Board, q: Pos, v: Cell, x: Cell)
    requires OnBoard(q)
    ensures Count(SetCell(b, q, v), x) == Count(b, x) - Ind(b[q.r][q.c] == x) + Ind(v == x)
  {
    CountRowUpdate(b[q.r], q.c, v, x);
    CountRowsUpdate(b, q.r, b[q.r][q.c := v], x);
  }

  /** Painting k distinct squares of colour u with colour p != u moves k
      squares from u's count to p's and leaves the third count alone. */
  lemma {:induction false} PaintCount(b: Board, ps: seq<Pos>, u: Cell, p: Cell, x: Cell)
    requires forall q :: q in ps ==> OnBoard(q) && b[q.r][q.c] == u
    requires NoDup(ps) && u != p
    ensures Count(Paint(b, ps, p), x) == Count(b, x) + (if x == p then |ps| else if x == u then -|ps| else 0)
  {
    if ps != [] {
      var n := |ps|;
      var init, last := ps[..n - 1], ps[n - 1];
      assert forall q :: q in init ==> q in ps;
      PaintCount(b, init, u, p, x);
      PaintAt(b, init, p);
      assert last !in init;
      assert Paint(b, init, p)[last.r][last.c] == u;
      CountSetCell(Paint(b, init, p), last, p, x);
    }
  }

  /** Disc conservation for a legal move: one empty square is filled, p
      gains the placed disc and every flipped disc, the opponent loses the
      flipped discs. */
  lemma ApplyMoveCounts(b: Board, m: Move, p: Player)
    requires m in ValidMoves(b, p)
    ensures MoveOnBoard(m)
    ensures Count(ApplyMove(b, m, p), p) == Count(b, p) + 1 + |m.flips|
    ensures Count(ApplyMove(b, m, p), Opponent(p)) == Count(b, Opponent(p)) - |m.flips|
    ensures Count(ApplyMove(b, m, p), Empty) == Count(b, Empty) - 1
  {
    ValidMovesExact(b, p);
    ValidMovesOnBoard(b, p);
    FlipsAreOpponentDiscs(b, m.r, m.c, p);
    var t := Pos(m.r, m.c);
    var b1 := SetCell(b, t, p);
    SetCellAt(b, t, p);
    forall q | q in m.flips ensures OnBoard(q) && b1[q.r][q.c] == Opponent(p) {
      assert q != t;
    }
    forall x: Cell ensures Count(ApplyMove(b, m, p), x) == Count(b, x) - Ind(x == Empty) + Ind(x == p)
                         + (if x == p then |m.flips| else if x == Opponent(p) then -|m.flips| else 0) {
      CountSetCell(b, t, p, x);
      PaintCount(b1, m.flips, Opponent(p), p, x);
    }
  }

  /** Seen through countScore: a legal move adds exactly one occupied square;
      the mover gains 1 + |flips| discs and the opponent loses |flips|. */
  lemma ApplyMoveTally(b: Board, m: Move, p: Player)
    requires m in ValidMoves(b, p)
    ensures MoveOnBoard(m)
    ensures var before, after := Tally(b), Tally(ApplyMove(b, m, p));
      after.black + after.white == before.black + before.white + 1 &&
      (p == Black ==> after.black == before.black + 1 + |m.flips| && after.white == before.white - |m.flips|) &&
      (p == White ==> after.white == before.white + 1 + |m.flips| && after.black == before.black - |m.flips|)
  {
    ApplyMoveCounts(b, m, p);
  }

  // ---------------------------------------------------------------------
  // Colour swap
  // ---------------------------------------------------------------------

  function SwapCell(x: Cell): Cell
  {
    match x
    case Empty => Empty
    case Black => White
    case White => Black
  }

  function SwapRow(row: seq<Cell>): seq<Cell>
  {
    seq(|row|, j requires 0 <= j < |row| => SwapCell(row[j]))
  }

  /** The board with every disc's colour reversed. */
  function Swap(b: Board): Board
  {
    seq(8, i requires 0 <= i < 8 => SwapRow(b[i]))
  }

  lemma {:induction false} WalkSwap(b: Board, q: Pos, d: Dir, x: Cell)
    requires IsDir(d)
    ensures Walk(Swap(b), q, d, SwapCell(x)) == Walk(b, q, d, x)
    decreases Remaining(q.r, d.dr) + Remaining(q.c, d.dc)
  {
    if Holds(b, q, x) {
      WalkSwap(b, Step(q, d), d, x);
    }
  }

  lemma SwapAt(b: Board, q: Pos, x: Cell)
    requires OnBoard(q)
    ensures Holds(Swap(b), q, SwapCell(x)) == Holds(b, q, x)
  {
  }

  lemma RayFlipsSwap(b: Board, r: int, c: int, d: Dir, p: Player)
    requires IsDir(d)
    ensures RayFlips(Swap(b), r, c, d, Opponent(p)) == RayFlips(b, r, c, d, p)
  {
    var q := Step(Pos(r, c), d);
    WalkSwap(b, q, d, Opponent(p));
    var run := Walk(b, q, d, Opponent(p));
    assert SwapCell(Opponent(p)) == p && Opponent(Opponent(p)) == p && SwapCell(p) == Opponent(p);
    if OnBoard(run.stop) {
      SwapAt(b, run.stop, p);
    }
  }

  lemma {:induction false} FlipsAlongSwap(b: Board, r: int, c: int, p: Player, n: nat)
    requires n <= 8
    ensures FlipsAlong(Swap(b), r, c, Opponent(p), n) == FlipsAlong(b, r, c, p, n)
  {
    if n > 0 {
      DirsAreDistinctDirections();
      FlipsAlongSwap(b, r, c, p, n - 1);
      RayFlipsSwap(b, r, c, Dirs[n - 1], p);
    }
  }

  /** Reversing every disc turns p's legal moves into the opponent's, flip for flip. */
  lemma ValidMovesSwap(b: Board, p: Player)
    ensures ValidMoves(Swap(b), Opponent(p)) == ValidMoves(b, p)
  {
    var g, g' := FlipGrid(Swap(b), Opponent(p)), FlipGrid(b, p);
    forall r | 0 <= r < 8 ensures g[r] == g'[r] {
      forall c | 0 <= c < 8 ensures g[r][c] == g'[r][c] {
        FlipsAlongSwap(b, r, c, p, 8);
      }
    }
    assert g == g';
  }

  lemma {:induction false} CountRowSwap(row: seq<Cell>, x: Cell)
    ensures CountRow(SwapRow(row), SwapCell(x)) == CountRow(row, x)
  {
    if row != [] {
      CountRowSwap(row[..|row| - 1], x);
      assert SwapRow(row)[..|row| - 1] == SwapRow(row[..|row| - 1]);
    }
  }

  lemma {:induction false} CountRowsSwap(b: Board, n: nat, x: Cell)
    requires n <= 8
    ensures CountRows(Swap(b)[..n], SwapCell(x)) == CountRows(b[..n], x)
  {
    if n > 0 {
      CountRowsSwap(b, n - 1, x);
      CountRowSwap(b[n - 1], x);
      assert Swap(b)[..n][..n - 1] == Swap(b)[..n - 1];
      assert b[..n][..n - 1] == b[..n - 1];
    }
  }

  /** Reversing every disc exchanges the two counts and keeps the empty squares. */
  lemma CountSwap(b: Board, x: Cell)
    ensures Count(Swap(b), SwapCell(x)) == Count(b, x)
  {
    CountRowsSwap(b, 8, x);
    assert Swap(b)[..8] == Swap(b) && b[..8] == b;
  }

  // ---------------------------------------------------------------------
  // The starting position
  // ---------------------------------------------------------------------

  /** makeEmptyBoard. */
  function EmptyBoard(): Board { seq(8, _ => seq(8, _ => Empty)) }

  /** The board resetGame sets up: White on (3,3) and (4,4), Black on (3,4) and (4,3). */
  function InitialBoard(): Board
  {
    SetCell(SetCell(SetCell(SetCell(EmptyBoard(), Pos(3, 3), White), Pos(3, 4), Black), Pos(4, 3), Black), Pos(4, 4), White)
  }
}
