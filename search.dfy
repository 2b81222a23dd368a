/** The computer opponent: depth-limited minimax with alpha-beta pruning, and
    the choice of White's move in the two difficulty modes. */
module Search {
  import opened Rules
  import opened Evaluator

  datatype Option<T> = None | Some(value: T)

  // ---------------------------------------------------------------------
  // Scores extended with the two infinities the search starts from
  // ---------------------------------------------------------------------

  datatype Ext = NegInf | Fin(v: int) | PosInf

  predicate Le(a: Ext, b: Ext)
  {
    a == NegInf || b == PosInf || (a.Fin? && b.Fin? && a.v <= b.v)
  }

  predicate Lt(a: Ext, b: Ext) { !Le(b, a) }

  /** Math.max on extended scores. */
  function Max(a: Ext, b: Ext): Ext { if Le(a, b) then b else a }

  /** Math.min on extended scores. */
  function Min(a: Ext, b: Ext): Ext { if Le(a, b) then a else b }

  // ---------------------------------------------------------------------
  // Unpruned minimax: the value alpha-beta must reproduce
  // ---------------------------------------------------------------------

  /** The side to move at a node: White when maximising. */
  function Mover(maxWhite: bool): Player { if maxWhite then White else Black }

  /** The minimax value of b searched depth plies deep, twice evaluate's scale.
      Its definition is NodeValue; the two names are kept apart so that a
      caller comparing values does not unfold the rules of the game. */
  function MinimaxValue(b: Board, depth: nat, maxWhite: bool): int
    decreases depth, 2, 0
  {
    NodeValue(b, depth, maxWhite)
  }

  /** One node of minimax: a finished game or depth 0 is a leaf scored by
      evaluate; a side without moves passes, which costs one ply; otherwise
      the best child for the side to move. */
  function NodeValue(b: Board, depth: nat, maxWhite: bool): int
    decreases depth, 1, 0
  {
    if depth == 0 || IsGameOver(b) then Evaluation(b)
    else
      var moves := ValidMoves(b, Mover(maxWhite));
      if moves == [] then MinimaxValue(b, depth - 1, !maxWhite)
      else
        ValidMovesOnBoard(b, Mover(maxWhite));
        Fold(ChildValues(b, moves, depth, maxWhite), maxWhite).v
  }

  /** The unpruned values of the children reached by the moves ms, one ply
      shallower and with the other side to move. */
  function ChildValues(b: Board, ms: seq<Move>, depth: nat, maxWhite: bool): (vals: seq<int>)
    requires depth > 0
    requires forall m :: m in ms ==> MoveOnBoard(m)
    ensures |vals| == |ms|
    decreases depth, 0, |ms|
  {
    if ms == [] then []
    else
      ChildValues(b, ms[..|ms| - 1], depth, maxWhite)
        + [MinimaxValue(ApplyMove(b, ms[|ms| - 1], Mover(maxWhite)), depth - 1, !maxWhite)]
  }

  /** The child value of the move ms[i]. */
  lemma {:induction false} ChildValue(b: Board, ms: seq<Move>, depth: nat, maxWhite: bool, i: nat, nb: Board)
    requires depth > 0 && i < |ms|
    requires forall m :: m in ms ==> MoveOnBoard(m)
    requires nb == ApplyMove(b, ms[i], Mover(maxWhite))
    ensures ChildValues(b, ms, depth, maxWhite)[i] == MinimaxValue(nb, depth - 1, !maxWhite)
  {
    if i < |ms| - 1 {
      var init := ms[..|ms| - 1];
      ChildValue(b, init, depth, maxWhite, i, nb);
    }
  }

  /** What a node's move loop holds after the child values vals when nothing
      is pruned: the best of them for the side to move, starting from the
      infinity that favours the other side. */
  function Fold(vals: seq<int>, maxWhite: bool): (r: Ext)
    ensures vals != [] ==> r.Fin?
    ensures maxWhite ==> r != PosInf
    ensures !maxWhite ==> r != NegInf
  {
    if vals == [] then (if maxWhite then NegInf else PosInf)
    else
      var prev, child := Fold(vals[..|vals| - 1], maxWhite), Fin(vals[|vals| - 1]);
      if maxWhite then Max(prev, child) else Min(prev, child)
  }

  /** One more child of the loop. */
  lemma FoldStep(vals: seq<int>, i: nat, maxWhite: bool)
    requires i < |vals|
    ensures Fold(vals[..i + 1], maxWhite) ==
      if maxWhite then Max(Fold(vals[..i], maxWhite), Fin(vals[i])) else Min(Fold(vals[..i], maxWhite), Fin(vals[i]))
  {
    assert vals[..i + 1][..i] == vals[..i];
  }

  /** Searching more children only improves a node's value for its side. */
  lemma {:induction false} FoldMonotone(vals: seq<int>, k: nat, maxWhite: bool)
    requires k <= |vals|
    ensures maxWhite ==> Le(Fold(vals[..k], maxWhite), Fold(vals, maxWhite))
    ensures !maxWhite ==> Le(Fold(vals, maxWhite), Fold(vals[..k], maxWhite))
  {
    if k < |vals| {
      var init := vals[..|vals| - 1];
      FoldMonotone(init, k, maxWhite);
      assert init[..k] == vals[..k];
    } else {
      assert vals[..k] == vals;
    }
  }

  // ---------------------------------------------------------------------
  // Alpha-beta
  // ---------------------------------------------------------------------

  /** The fail-soft promise of an alpha-beta search that returned v for a node
      whose true value is t, searched with the window (alpha, beta): a value at
      or below alpha bounds t from above, a value at or above beta bounds it
      from below, and a value inside the window is exact. */
  predicate FailSoft(v: int, alpha: Ext, beta: Ext, t: int)
  {
    (Le(Fin(v), alpha) ==> t <= v) &&
    (Lt(alpha, Fin(v)) && Lt(Fin(v), beta) ==> t == v) &&
    (Le(beta, Fin(v)) ==> v <= t)
  }

  /** The full window pins the value down. */
  lemma FullWindowExact(v: int, t: int)
    requires FailSoft(v, NegInf, PosInf, t)
    ensures v == t
  {
  }

  /** What a maximising loop keeps between moves: its running value bounds the
      unpruned value M of the moves so far from above, exactly once above alpha. */
  predicate MaxKeeps(alpha: Ext, value: Ext, m: Ext)
  {
    Le(m, value) && (Lt(alpha, value) ==> value == m)
  }

  /** The minimising mirror of MaxKeeps. */
  predicate MinKeeps(beta: Ext, value: Ext, m: Ext)
  {
    Le(value, m) && (Lt(value, beta) ==> value == m)
  }

  /** One child of a maximising loop.  Unless the loop is about to stop, it
      keeps MaxKeeps; when alpha reaches beta, the child failed high and its
      value is a lower bound at or above beta. */
  lemma MaxStep(alpha: Ext, beta: Ext, value: Ext, a: Ext, m: Ext, c: int, t: int)
    requires a == Max(alpha, value) && Lt(a, beta)
    requires value != PosInf && m != PosInf && MaxKeeps(alpha, value, m)
    requires FailSoft(c, a, beta, t)
    ensures var value' := Max(value, Fin(c));
      Lt(Max(alpha, value'), beta) ==> MaxKeeps(alpha, value', Max(m, Fin(t)))
    ensures var value' := Max(value, Fin(c));
      Le(beta, Max(alpha, value')) ==> Le(beta, value') && Le(value', Max(m, Fin(t)))
    ensures Max(a, Max(value, Fin(c))) == Max(alpha, Max(value, Fin(c)))
  {
  }

  /** The minimising mirror of MaxStep. */
  lemma MinStep(alpha: Ext, beta: Ext, value: Ext, bt: Ext, m: Ext, c: int, t: int)
    requires bt == Min(beta, value) && Lt(alpha, bt)
    requires value != NegInf && m != NegInf && MinKeeps(beta, value, m)
    requires FailSoft(c, alpha, bt, t)
    ensures var value' := Min(value, Fin(c));
      Lt(alpha, Min(beta, value')) ==> MinKeeps(beta, value', Min(m, Fin(t)))
    ensures var value' := Min(value, Fin(c));
      Le(Min(beta, value'), alpha) ==> Le(value', alpha) && Le(Min(m, Fin(t)), value')
    ensures Min(bt, Min(value, Fin(c))) == Min(beta, Min(value, Fin(c)))
  {
  }

  /** A maximising loop that ran out of moves (m is then the unpruned value
      t) or stopped on a fail-high child keeps the fail-soft promise. */
  lemma MaxDone(alpha: Ext, beta: Ext, value: Ext, m: Ext, t: Ext)
    requires Lt(alpha, beta) && value.Fin? && t.Fin?
    requires (m == t && MaxKeeps(alpha, value, m)) || (Le(beta, value) && Le(value, m) && Le(m, t))
    ensures FailSoft(value.v, alpha, beta, t.v)
  {
  }

  /** The minimising mirror of MaxDone. */
  lemma MinDone(alpha: Ext, beta: Ext, value: Ext, m: Ext, t: Ext)
    requires Lt(alpha, beta) && value.Fin? && t.Fin?
    requires (m == t && MinKeeps(beta, value, m)) || (Le(value, alpha) && Le(m, value) && Le(t, m))
    ensures FailSoft(value.v, alpha, beta, t.v)
  {
  }

  /** minimax: alpha-beta search of depth plies.  Its result keeps the
      fail-soft promise against the unpruned value, so on the full window it
      is that value. */
  method Minimax(b: Board, depth: nat, alpha: Ext, beta: Ext, maxWhite: bool) returns (v: int)
    requires Lt(alpha, beta)
    ensures FailSoft(v, alpha, beta, MinimaxValue(b, depth, maxWhite))
    ensures alpha == NegInf && beta == PosInf ==> v == MinimaxValue(b, depth, maxWhite)
    ensures depth == 0 || IsGameOver(b) ==> v == Evaluation(b)
    decreases depth, 2
  {
    var leaf := depth == 0;
    if !leaf {
      leaf := GameOver(b);
    }
    if leaf {
      v := Evaluate(b);
      return;
    }
    var player := Mover(maxWhite);
    var moves := GetValidMoves(b, player);
    if |moves| == 0 {
      v := Minimax(b, depth - 1, alpha, beta, !maxWhite);
      return;
    }
    ValidMovesOnBoard(b, player);
    if maxWhite {
      v := MaxNode(b, moves, depth, alpha, beta);
    } else {
      v := MinNode(b, moves, depth, alpha, beta);
    }
  }

  /** One child of a node: the board after moves[i] (a clone with the move
      applied), searched one ply shallower with the other side to move. */
  method SearchChild(b: Board, moves: seq<Move>, i: nat, depth: nat, alpha: Ext, beta: Ext, maxWhite: bool)
    returns (c: int)
    requires depth > 0 && i < |moves| && forall m :: m in moves ==> MoveOnBoard(m)
    requires Lt(alpha, beta)
    ensures FailSoft(c, alpha, beta, ChildValues(b, moves, depth, maxWhite)[i])
    ensures alpha == NegInf && beta == PosInf ==> c == ChildValues(b, moves, depth, maxWhite)[i]
    decreases depth, 0
  {
    var nb := CloneAndApply(b, moves[i], Mover(maxWhite));
    c := Minimax(nb, depth - 1, alpha, beta, !maxWhite);
    ChildValue(b, moves, depth, maxWhite, i, nb);
  }

  /** The maximising branch of minimax: White tries each move, raising alpha,
      and stops once alpha reaches beta. */
  method MaxNode(b: Board, moves: seq<Move>, depth: nat, alpha: Ext, beta: Ext) returns (v: int)
    requires depth > 0 && moves != [] && forall m :: m in moves ==> MoveOnBoard(m)
    requires Lt(alpha, beta)
    ensures FailSoft(v, alpha, beta, Fold(ChildValues(b, moves, depth, true), true).v)
    decreases depth, 1
  {
    ghost var vals := ChildValues(b, moves, depth, true);
    var value := NegInf;
    var a := alpha;
    var i := 0;
    while i < |moves|
      invariant 0 <= i <= |moves|
      invariant (i == 0) == (value == NegInf) && value != PosInf
      invariant a == Max(alpha, value) && Lt(a, beta)
      invariant MaxKeeps(alpha, value, Fold(vals[..i], true))
    {
      var c := SearchChild(b, moves, i, depth, a, beta, true);
      FoldStep(vals, i, true);
      MaxStep(alpha, beta, value, a, Fold(vals[..i], true), c, vals[i]);
      value := Max(value, Fin(c));
      a := Max(a, value);
      i := i + 1;
      if Le(beta, a) {
        FoldMonotone(vals, i, true);
        break;
      }
    }
    assert i == |moves| ==> vals[..i] == vals;
    MaxDone(alpha, beta, value, Fold(vals[..i], true), Fold(vals, true));
    v := value.v;
  }

  /** The minimising branch of minimax: Black tries each move, lowering beta,
      and stops once alpha reaches beta. */
  method MinNode(b: Board, moves: seq<Move>, depth: nat, alpha: Ext, beta: Ext) returns (v: int)
    requires depth > 0 && moves != [] && forall m :: m in moves ==> MoveOnBoard(m)
    requires Lt(alpha, beta)
    ensures FailSoft(v, alpha, beta, Fold(ChildValues(b, moves, depth, false), false).v)
    decreases depth, 1
  {
    ghost var vals := ChildValues(b, moves, depth, false);
    var value := PosInf;
    var bt := beta;
    var i := 0;
    while i < |moves|
      invariant 0 <= i <= |moves|
      invariant (i == 0) == (value == PosInf) && value != NegInf
      invariant bt == Min(beta, value) && Lt(alpha, bt)
      invariant MinKeeps(beta, value, Fold(vals[..i], false))
    {
      var c := SearchChild(b, moves, i, depth, alpha, bt, false);
      FoldStep(vals, i, false);
      MinStep(alpha, beta, value, bt, Fold(vals[..i], false), c, vals[i]);
      value := Min(value, Fin(c));
      bt := Min(bt, value);
      i := i + 1;
      if Le(bt, alpha) {
        FoldMonotone(vals, i, false);
        break;
      }
    }
    assert i == |moves| ==> vals[..i] == vals;
    MinDone(alpha, beta, value, Fold(vals[..i], false), Fold(vals, false));
    v := value.v;
  }

  // ---------------------------------------------------------------------
  // chooseAIMove
  // ---------------------------------------------------------------------

  /** The depth of the advanced mode's search. */
  const AdvancedDepth: nat := 3

  /** The index of the first maximum of s: a scan that replaces its best
      only on a strictly greater score keeps the earliest of equal ones. */
  function FirstMax(s: seq<int>): (k: nat)
    requires s != []
    ensures k < |s|
  {
    if |s| == 1 then 0
    else
      var k := FirstMax(s[..|s| - 1]);
      if s[|s| - 1] > s[k] then |s| - 1 else k
  }

  lemma FirstMaxStep(s: seq<int>, i: nat)
    requires 0 < i < |s|
    ensures FirstMax(s[..i + 1]) == if s[i] > s[FirstMax(s[..i])] then i else FirstMax(s[..i])
  {
    assert s[..i + 1][..i] == s[..i];
  }

  /** FirstMax is the first argmax: nothing is larger, and everything
      before it is smaller. */
  lemma {:induction false} FirstMaxIsFirstArgMax(s: seq<int>)
    requires s != []
    ensures forall j :: 0 <= j < |s| ==> s[j] <= s[FirstMax(s)]
    ensures forall j :: 0 <= j < FirstMax(s) ==> s[j] < s[FirstMax(s)]
  {
    if |s| > 1 {
      var init := s[..|s| - 1];
      FirstMaxIsFirstArgMax(init);
      assert forall j :: 0 <= j < |init| ==> init[j] == s[j];
    }
  }

  /** The maximising fold of a node is its first maximum. */
  lemma {:induction false} FoldIsFirstMax(vals: seq<int>)
    requires vals != []
    ensures Fold(vals, true) == Fin(vals[FirstMax(vals)])
  {
    if |vals| > 1 {
      var init := vals[..|vals| - 1];
      FoldIsFirstMax(init);
      assert vals[FirstMax(init)] == init[FirstMax(init)];
    }
  }

  /** The largest flip count among ms (0 for none). */
  function MaxFlips(ms: seq<Move>): nat
  {
    if ms == [] then 0
    else
      var rest, n := MaxFlips(ms[..|ms| - 1]), |ms[|ms| - 1].flips|;
      if n > rest then n else rest
  }

  /** The moves of ms with exactly n flips, in their order in ms. */
  function WithFlips(ms: seq<Move>, n: nat): seq<Move>
  {
    if ms == [] then []
    else WithFlips(ms[..|ms| - 1], n) + (if |ms[|ms| - 1].flips| == n then [ms[|ms| - 1]] else [])
  }

  /** The first move of ms on a corner, as Array.prototype.find returns it. */
  function FirstCorner(ms: seq<Move>): Option<Move>
  {
    if ms == [] then None
    else if IsCorner(ms[0].r, ms[0].c) then Some(ms[0])
    else FirstCorner(ms[1..])
  }

  /** Math.floor(roll * n) for a roll of Math.random(). */
  function RollIndex(roll: real, n: nat): (i: nat)
    requires 0.0 <= roll < 1.0 && n > 0
    ensures i < n
  {
    var x := roll * n as real;
    assert x < n as real;
    x.Floor
  }

  lemma {:induction false} MaxFlipsIsMax(ms: seq<Move>)
    ensures forall m :: m in ms ==> |m.flips| <= MaxFlips(ms)
    ensures ms != [] ==> exists m :: m in ms && |m.flips| == MaxFlips(ms)
  {
    if ms != [] {
      var init, last := ms[..|ms| - 1], ms[|ms| - 1];
      MaxFlipsIsMax(init);
      assert ms == init + [last];
      if |last.flips| < MaxFlips(ms) {
        assert MaxFlips(init) > 0;
        var m :| m in init && |m.flips| == MaxFlips(init);
        assert m in ms;
      }
    }
  }

  lemma {:induction false} WithFlipsExact(ms: seq<Move>, n: nat)
    ensures forall m :: m in WithFlips(ms, n) <==> m in ms && |m.flips| == n
  {
    if ms != [] {
      var init := ms[..|ms| - 1];
      WithFlipsExact(init, n);
      assert ms == init + [ms[|ms| - 1]];
    }
  }

  lemma {:induction false} FirstCornerFinds(ms: seq<Move>)
    ensures FirstCorner(ms).Some? ==> FirstCorner(ms).value in ms && IsCorner(FirstCorner(ms).value.r, FirstCorner(ms).value.c)
    ensures FirstCorner(ms).None? ==> forall m :: m in ms ==> !IsCorner(m.r, m.c)
  {
    if ms != [] && !IsCorner(ms[0].r, ms[0].c) {
      FirstCornerFinds(ms[1..]);
      assert ms == [ms[0]] + ms[1..];
    }
  }

  /** The greedy move among the non-empty ms: among those with the most flips
      (in their order, which a stable sort by flip count preserves), the first
      corner, else the one the roll picks. */
  function Greedy(ms: seq<Move>, roll: real): Move
    requires ms != [] && 0.0 <= roll < 1.0
  {
    var top := WithFlips(ms, MaxFlips(ms));
    MaxFlipsIsMax(ms);
    WithFlipsExact(ms, MaxFlips(ms));
    match FirstCorner(top)
    case Some(m) => m
    case None => top[RollIndex(roll, |top|)]
  }

  /** The advanced mode's score of each of White's legal moves: the minimax
      value, two plies deeper, of the board after it, Black to move. */
  function AdvancedScores(b: Board): (scores: seq<int>)
    ensures |scores| == |ValidMoves(b, White)|
  {
    ValidMovesOnBoard(b, White);
    ChildValues(b, ValidMoves(b, White), AdvancedDepth, true)
  }

  /** chooseAIMove: no move when White has none; the greedy move in the
      "basic" mode; otherwise the first move whose depth-3 minimax score is
      the highest. */
  function AIChoice(b: Board, mode: string, roll: real): Option<Move>
    requires 0.0 <= roll < 1.0
  {
    var moves := ValidMoves(b, White);
    if moves == [] then None
    else if mode == "basic" then Some(Greedy(moves, roll))
    else Some(moves[FirstMax(AdvancedScores(b))])
  }

  /** chooseAIMove as the source runs it. */
  method ChooseAIMove(b: Board, mode: string, roll: real) returns (r: Option<Move>)
    requires 0.0 <= roll < 1.0
    ensures r == AIChoice(b, mode, roll)
  {
    var moves := GetValidMoves(b, White);
    if |moves| == 0 {
      return None;
    }
    ValidMovesOnBoard(b, White);
    if mode == "basic" {
      var bestLen := MaxFlips(moves);
      var top := WithFlips(moves, bestLen);
      MaxFlipsIsMax(moves);
      WithFlipsExact(moves, bestLen);
      var corner := FirstCorner(top);
      if corner.Some? {
        r := corner;
      } else {
        r := Some(top[RollIndex(roll, |top|)]);
      }
      return;
    }
    r := AdvancedMove(b, moves);
  }

  /** The advanced branch of chooseAIMove: score every move by minimax on the
      full window and keep the first strictly best. */
  method AdvancedMove(b: Board, moves: seq<Move>) returns (best: Option<Move>)
    requires moves != [] && forall m :: m in moves ==> MoveOnBoard(m)
    ensures best == Some(moves[FirstMax(ChildValues(b, moves, AdvancedDepth, true))])
  {
    ghost var scores := ChildValues(b, moves, AdvancedDepth, true);
    ghost var k := 0;
    best := None;
    var bestScore := NegInf;
    var i := 0;
    while i < |moves|
      invariant 0 <= i <= |moves| && k < |moves|
      invariant i == 0 ==> best == None && bestScore == NegInf
      invariant i > 0 ==> k == FirstMax(scores[..i]) && best == Some(moves[k]) && bestScore == Fin(scores[k])
    {
      var s := SearchChild(b, moves, i, AdvancedDepth, NegInf, PosInf, true);
      if i > 0 {
        FirstMaxStep(scores, i);
      } else {
        assert FirstMax(scores[..1]) == 0;
      }
      if Lt(bestScore, Fin(s)) {
        bestScore := Fin(s);
        best := Some(moves[i]);
        k := i;
      }
      i := i + 1;
    }
    assert scores[..i] == scores;
  }

  // ---------------------------------------------------------------------
  // What chooseAIMove promises
  // ---------------------------------------------------------------------

  /** The computer has no move exactly when White has no legal move, and any
      move it makes is one of White's legal moves. */
  lemma AIChoiceLegal(b: Board, mode: string, roll: real)
    requires 0.0 <= roll < 1.0
    ensures AIChoice(b, mode, roll).None? <==> ValidMoves(b, White) == []
    ensures AIChoice(b, mode, roll).Some? ==>
      AIChoice(b, mode, roll).value in ValidMoves(b, White) && IsMoveOf(b, White, AIChoice(b, mode, roll).value)
  {
    var moves := ValidMoves(b, White);
    ValidMovesExact(b, White);
    if moves != [] && mode == "basic" {
      GreedyMostFlips(moves, roll);
    }
  }

  /** The greedy move is one of the moves, has the most flips, and is a
      corner whenever some move with that many flips is. */
  lemma GreedyMostFlips(ms: seq<Move>, roll: real)
    requires ms != [] && 0.0 <= roll < 1.0
    ensures Greedy(ms, roll) in ms
    ensures forall m :: m in ms ==> |m.flips| <= |Greedy(ms, roll).flips|
    ensures (exists m :: m in ms && |m.flips| == MaxFlips(ms) && IsCorner(m.r, m.c)) ==>
      IsCorner(Greedy(ms, roll).r, Greedy(ms, roll).c)
  {
    var top := WithFlips(ms, MaxFlips(ms));
    MaxFlipsIsMax(ms);
    WithFlipsExact(ms, MaxFlips(ms));
    FirstCornerFinds(top);
  }

  /** In the advanced mode the computer plays the first move, in row-major
      order, of those with the highest score, and that score is the depth-3
      minimax value of the position. */
  lemma AdvancedFirstArgMax(b: Board, mode: string, roll: real)
    requires 0.0 <= roll < 1.0 && mode != "basic" && ValidMoves(b, White) != []
    ensures var moves, scores := ValidMoves(b, White), AdvancedScores(b);
      exists k :: 0 <= k < |moves| && AIChoice(b, mode, roll) == Some(moves[k]) &&
        (forall j :: 0 <= j < |moves| ==> scores[j] <= scores[k]) &&
        (forall j :: 0 <= j < k ==> scores[j] < scores[k]) &&
        scores[k] == MinimaxValue(b, AdvancedDepth, true)
  {
    var moves, scores := ValidMoves(b, White), AdvancedScores(b);
    FirstMaxIsFirstArgMax(scores);
    FoldIsFirstMax(scores);
    var k := FirstMax(scores);
    assert AIChoice(b, mode, roll) == Some(moves[k]);
    assert MinimaxValue(b, AdvancedDepth, true) == NodeValue(b, AdvancedDepth, true);
  }
}
