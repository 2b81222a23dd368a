/** The page's game state and its event handlers.  The board is the mutable
    8x8 grid the handlers write into; each handler, and each timer callback,
    is one method that runs to its end (the awaits and the animation delays
    in between are not modelled). */
module Session {
  import opened Rules
  import opened Opening
  import opened Search

  /** The callback a handler leaves scheduled on the timer: none, another
      pass check (after a pass), or the computer's move. */
  datatype Scheduled = Idle | Recheck | AITurn

  /** Turn, lock and scheduled callback after the pass/AI check. */
  datatype Control = Control(turn: Player, thinking: bool, next: Scheduled)

  /** What maybeAutoPassOrAIMove decides on board b: nothing once the game
      is over; a pass when the side to move has no move; otherwise, on
      White's turn, lock the board and schedule the computer's move. */
  function AfterCheck(b: Board, turn: Player, thinking: bool): (ctl: Control)
    ensures ctl.next == Recheck <==> !IsGameOver(b) && ValidMoves(b, turn) == []
    ensures ctl.next == AITurn <==> !IsGameOver(b) && ValidMoves(b, turn) != [] && turn == White
    ensures ctl.next == Recheck ==> ctl.turn == Opponent(turn) && ctl.thinking == thinking
    ensures ctl.next == AITurn ==> ctl.turn == White && ctl.thinking
    ensures ctl.next == Idle ==> ctl.turn == turn && ctl.thinking == thinking
  {
    if IsGameOver(b) then Control(turn, thinking, Idle)
    else if ValidMoves(b, turn) == [] then Control(Opponent(turn), thinking, Recheck)
    else if turn == White then Control(turn, true, AITurn)
    else Control(turn, thinking, Idle)
  }

  /** Passes never come twice in a row: after one side passes, the re-check
      finds a move for the other side (or nothing to do). */
  lemma NoDoublePass(b: Board, turn: Player, thinking: bool)
    requires AfterCheck(b, turn, thinking).next == Recheck
    ensures AfterCheck(b, Opponent(turn), thinking).next != Recheck
    ensures AfterCheck(b, Opponent(turn), thinking).turn == Opponent(turn)
  {
  }

  /** When the computer's move is scheduled, chooseAIMove has a move to
      return, and it is one of White's legal moves. */
  lemma ScheduledAIMoveExists(b: Board, turn: Player, thinking: bool, mode: string, roll: real)
    requires 0.0 <= roll < 1.0
    requires AfterCheck(b, turn, thinking).next == AITurn
    ensures AIChoice(b, mode, roll).Some?
    ensures AIChoice(b, mode, roll).value in ValidMoves(b, White)
  {
    AIChoiceLegal(b, mode, roll);
  }

  /** After resetGame, Black has its four opening moves, each turning one
      disc, so the pass/AI check leaves everything as it is. */
  lemma ResetLeavesBlackToMove(b: Board)
    requires IsInitial(b)
    ensures ValidMoves(b, Black) ==
      [Move(2, 3, [Pos(3, 3)]), Move(3, 2, [Pos(3, 3)]), Move(4, 5, [Pos(4, 4)]), Move(5, 4, [Pos(4, 4)])]
    ensures AfterCheck(b, Black, false) == Control(Black, false, Idle)
  {
    InitialMoves(b);
    InitialNotOver(b);
  }

  class Game {
    var board: array2<Cell>
    var turn: Player
    var thinking: bool

    ghost predicate Valid()
      reads this`board
    {
      board.Length0 == 8 && board.Length1 == 8
    }

    /** The grid as a board value. */
    function Snapshot(): (b: Board)
      requires Valid()
      reads this`board, board
      ensures forall i, j :: InBounds(i, j) ==> b[i][j] == board[i, j]
    {
      var g := board;
      seq(8, i reads g requires 0 <= i < 8 => seq(8, j reads g requires 0 <= j < 8 => g[i, j]))
    }

    /** The page load: an empty board, Black to move, then resetGame. */
    constructor ()
      ensures Valid() && IsInitial(Snapshot())
      ensures turn == Black && !thinking
    {
      board := new Cell[8, 8]((i, j) => Empty);
      turn := Black;
      thinking := false;
      new;
      ResetGame();
    }

    /** One square of the grid written. */
    method Put(q: Pos, x: Cell)
      requires Valid() && OnBoard(q)
      modifies board
      ensures Valid() && Snapshot() == SetCell(old(Snapshot()), q, x)
    {
      ghost var b0 := Snapshot();
      board[q.r, q.c] := x;
      SetCellAt(b0, q, x);
      ghost var b1 := SetCell(b0, q, x);
      forall i | 0 <= i < 8 ensures Snapshot()[i] == b1[i] {
        assert forall j :: 0 <= j < 8 ==> Snapshot()[i][j] == b1[i][j];
      }
    }

    /** makeEmptyBoard and the four centre discs, on a fresh grid. */
    method SetUpBoard()
      modifies this`board
      ensures Valid() && fresh(board) && Snapshot() == InitialBoard() && IsInitial(Snapshot())
    {
      board := new Cell[8, 8]((i, j) => Empty);
      forall i | 0 <= i < 8 ensures Snapshot()[i] == EmptyBoard()[i] {
        assert forall j :: 0 <= j < 8 ==> Snapshot()[i][j] == Empty;
      }
      ghost var b0 := Snapshot();
      Put(Pos(3, 3), White);
      ghost var b1 := Snapshot();
      Put(Pos(3, 4), Black);
      ghost var b2 := Snapshot();
      Put(Pos(4, 3), Black);
      ghost var b3 := Snapshot();
      Put(Pos(4, 4), White);
      assert b1 == SetCell(EmptyBoard(), Pos(3, 3), White);
      assert b3 == SetCell(SetCell(b1, Pos(3, 4), Black), Pos(4, 3), Black);
      InitialBoardIsInitial();
    }

    /** resetGame: a fresh grid with the four centre discs, Black to move
      and unlocked, then the pass/AI check (which, with Black holding four
      moves, does nothing). */
    method ResetGame()
      modifies this
      ensures Valid() && fresh(board) && IsInitial(Snapshot())
      ensures turn == Black && !thinking
      ensures ValidMoves(Snapshot(), Black) ==
        [Move(2, 3, [Pos(3, 3)]), Move(3, 2, [Pos(3, 3)]), Move(4, 5, [Pos(4, 4)]), Move(5, 4, [Pos(4, 4)])]
    {
      SetUpBoard();
      turn := Black;
      thinking := false;
      ResetLeavesBlackToMove(Snapshot());
      var next := MaybeAutoPassOrAIMove();
    }

    /** placeAndFlipSequential: the disc goes down first, then each listed
      disc is turned, in list order. */
    method PlaceAndFlipSequential(r: int, c: int, flips: seq<Pos>, player: Player)
      requires Valid() && MoveOnBoard(Move(r, c, flips))
      modifies board
      ensures Valid() && Snapshot() == ApplyMove(old(Snapshot()), Move(r, c, flips), player)
    {
      ghost var b0 := Snapshot();
      Put(Pos(r, c), player);
      ghost var start := Snapshot();
      var i := 0;
      while i < |flips|
        invariant 0 <= i <= |flips|
        invariant Valid() && Snapshot() == Paint(start, flips[..i], player)
      {
        assert flips[..i + 1][..i] == flips[..i];
        Put(flips[i], player);
        i := i + 1;
      }
      assert flips[..|flips|] == flips;
    }

    /** maybeAutoPassOrAIMove, one run of it: the board is only read. */
    method MaybeAutoPassOrAIMove() returns (next: Scheduled)
      requires Valid()
      modifies this
      ensures Valid() && board == old(board) && Snapshot() == old(Snapshot())
      ensures Control(turn, thinking, next) == AfterCheck(Snapshot(), old(turn), old(thinking))
    {
      var b := Snapshot();
      var over := GameOver(b);
      if over {
        return Idle;
      }
      var valid := GetValidMoves(b, turn);
      if |valid| == 0 {
        turn := Opponent(turn);
        return Recheck;
      }
      if turn == White {
        thinking := true;
        return AITurn;
      }
      return Idle;
    }

    /** endTurn: hand the turn over, unlock, and run the pass/AI check. */
    method EndTurn() returns (next: Scheduled)
      requires Valid()
      modifies this
      ensures Valid() && board == old(board) && Snapshot() == old(Snapshot())
      ensures Control(turn, thinking, next) == AfterCheck(Snapshot(), Opponent(old(turn)), false)
    {
      turn := Opponent(turn);
      thinking := false;
      next := MaybeAutoPassOrAIMove();
    }

    /** onCellClick on square (r, c): ignored while locked, on White's
      turn, after the game ends, or on a square that flips nothing;
      otherwise Black's move is played and the turn ends. */
    method OnCellClick(r: int, c: int) returns (next: Scheduled)
      requires Valid() && InBounds(r, c)
      modifies this, board
      ensures Valid()
      ensures var b := old(Snapshot());
        if old(thinking) || old(turn) != Black || IsGameOver(b) || Flips(b, r, c, Black) == [] then
          board == old(board) && Snapshot() == b && turn == old(turn) && thinking == old(thinking) && next == Idle
        else
          board == old(board) && MoveOnBoard(Move(r, c, Flips(b, r, c, Black)))
          && Snapshot() == ApplyMove(b, Move(r, c, Flips(b, r, c, Black)), Black)
          && Control(turn, thinking, next) == AfterCheck(Snapshot(), White, false)
    {
      if thinking || turn != Black {
        return Idle;
      }
      var b := Snapshot();
      var over := GameOver(b);
      if over {
        return Idle;
      }
      var flips := GetFlips(b, r, c, Black);
      if |flips| == 0 {
        return Idle;
      }
      FlipsAreOpponentDiscs(b, r, c, Black);
      thinking := true;
      PlaceAndFlipSequential(r, c, flips, Black);
      next := EndTurn();
    }

    /** The timer callback of the computer's move: chooseAIMove on the
      current board, then the move is played, Black gets the turn, the
      board is unlocked and the pass/AI check runs again.  With no move to
      play it only unlocks the board. */
    method CompleteAIMove(mode: string, roll: real) returns (next: Scheduled)
      requires Valid() && 0.0 <= roll < 1.0
      modifies this, board
      ensures Valid()
      ensures var b := old(Snapshot());
        match AIChoice(b, mode, roll)
        case None =>
          board == old(board) && Snapshot() == b && turn == old(turn) && !thinking && next == Idle
        case Some(m) =>
          board == old(board) && MoveOnBoard(m) && Snapshot() == ApplyMove(b, m, White)
          && Control(turn, thinking, next) == AfterCheck(Snapshot(), Black, false)
    {
      var b := Snapshot();
      var move := ChooseAIMove(b, mode, roll);
      if move.None? {
        thinking := false;
        return Idle;
      }
      AIChoiceLegal(b, mode, roll);
      ValidMovesOnBoard(b, White);
      PlaceAndFlipSequential(move.value.r, move.value.c, move.value.flips, White);
      turn := Black;
      thinking := false;
      next := MaybeAutoPassOrAIMove();
    }
  }
}
