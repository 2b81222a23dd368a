# Othello (HW-10) in Dafny

A model of the browser Othello game in `HW-10/script.js`. A human plays
Black by clicking squares. The computer plays White, in one of two modes:
a greedy "basic" mode, or an "advanced" mode that runs a depth-3 minimax
search with alpha-beta pruning over a positional evaluation.

The project has five modules:

- `Rules` (`rules.dfy`) holds the rules engine.
  - The board is a value: an 8x8 sequence of cells.
  - The source functions become specification functions: `Flips`, `ValidMoves`, `ApplyMove`, `Tally` and `IsGameOver`.
  - Methods with the source's loops are each proved equal to those functions: `GetFlips`, `GetValidMoves`, `CloneAndApply`, `CountScore` and `GameOver`.
  - Lemmas give what the functions mean:
    - bracketing;
    - completeness and row-major order of the move list;
    - the frame of a move;
    - disc conservation;
    - colour symmetry.
- `Opening` (`opening.dfy`) covers the starting position that `resetGame` sets up:
  - Black's four opening moves;
  - the disc tally.
- `Evaluator` (`evaluator.dfy`) holds `evaluate`:
  - the specification `Evaluation`;
  - the method `Evaluate` with the source's loops;
  - the zero-sum property under colour reversal.
- `Search` (`search.dfy`) holds `minimax` and `chooseAIMove`.
  - `MinimaxValue` is the unpruned game-tree value.
  - The method `Minimax` follows the source's pruned loops with their `break`. It is proved fail-soft against the unpruned value, so on the full window it returns exactly that value.
  - `ChooseAIMove` is proved equal to `AIChoice`. Lemmas say which move each mode picks.
- `Session` (`session.dfy`) holds the page state as a class `Game`:
  - the grid is an `array2<Cell>`;
  - `turn` and `thinking` are fields;
  - every event handler and timer callback is a method.

The source evaluates with the factors 6 and 1.5. Every evaluation here is
twice the source's (`Evaluation(b) == 2 * evaluate(b)`), so all terms stay
integers. Doubling keeps every comparison the search makes: each `max`,
`min`, pruning test and `s > bestScore`. So the moves chosen are the same.

The source's `-Infinity`/`Infinity` bounds are the values `NegInf`/`PosInf` of `Ext`.

## Model

| member | source | states |
|---|---|---|
| Rules.Opponent | HW-10/script.js:87 | the opponent of a player is the other player |
| Rules.IsCorner | HW-10/script.js:315-317 | true exactly on the four corner squares (rows 0/7 and columns 0/7) |
| Rules.DirsAreDistinctDirections | HW-10/script.js:4-8 | DIRS lists the eight distinct unit directions |
| Rules.WalkIsMaximalRun | HW-10/script.js:95-100 | the inner while of getFlips collects every consecutive opponent disc in that direction, and stops on the first square that is off the board or not an opponent disc |
| Rules.WalkLine | HW-10/script.js:95-100 | the loop that walks one direction yields exactly that maximal run and its stop square |
| Rules.RayFlipsBracket | HW-10/script.js:101-103 | a direction contributes only opponent discs, and only when the run is non-empty and closed by the player's own disc |
| Rules.RayFlipsComplete | HW-10/script.js:95-103 | n opponent discs closed by the player's disc contribute exactly those n squares, nearest first |
| Rules.RayFlipsUnclosed | HW-10/script.js:101-103 | a run that is empty, or that ends at the edge or on an empty square, contributes nothing |
| Rules.RayLine | HW-10/script.js:95-103 | one direction's contribution as computed by the loop equals `RayFlips` |
| Rules.FlipsAreOpponentDiscs | HW-10/script.js:89-106 | getFlips returns [] on an occupied target; every flip is in bounds and holds the opponent; no square is listed twice; the target is never listed |
| Rules.GetFlips | HW-10/script.js:89-106 | the eight-direction loop returns `Flips`, the directions in DIRS order |
| Rules.ValidMovesExact | HW-10/script.js:108-117 | the move list holds exactly the squares with non-empty flips, each with an empty target and its flip list, in strictly increasing row-major order |
| Rules.GetValidMoves | HW-10/script.js:108-117 | the double loop returns `ValidMoves` |
| Rules.GameOverIff | HW-10/script.js:141-144 | the game is over iff no square flips anything for Black or for White |
| Rules.GameOver | HW-10/script.js:141-144 | isGameOver is true iff both move lists are empty |
| Rules.ValidMovesOnBoard | HW-10/script.js:108-117 | every listed move and all its flips are on the board |
| Rules.ApplyMoveAt | HW-10/script.js:119-124 | after applyMove, the target and every listed flip hold the player, and every other square is unchanged |
| Rules.CloneAndApply | HW-10/script.js:119-128 | writing a cloned board, target first and then each flip, yields `ApplyMove`, and the input board is not changed |
| Rules.CountTotal | HW-10/script.js:130-139 | empty, black and white squares add up to 64 |
| Rules.CountScore | HW-10/script.js:130-139 | the counting loop returns the number of Black and of White discs |
| Rules.ApplyMoveCounts | HW-10/script.js:119-124 | a legal move adds one disc plus the flip count to the mover, takes the flip count from the opponent and fills one empty square |
| Rules.ApplyMoveTally | HW-10/script.js:119-124 | seen through countScore, a legal move adds exactly one disc to the board: the mover's count grows by one plus the flip count and the other count falls by the flip count |
| Rules.ValidMovesSwap | HW-10/script.js:89-117 | reversing every disc turns the moves of one colour into those of the other |
| Rules.CountSwap | HW-10/script.js:130-139 | reversing every disc exchanges the two counts |
| Opening.InitialBoardIsInitial | HW-10/script.js:51-60 | an empty board plus the four centre discs is the starting position |
| Opening.InitialUnique | HW-10/script.js:51-60 | only one board holds the starting position |
| Opening.InitialMoves | HW-10/script.js:55-63 | at the start Black has exactly four moves, (2,3), (3,2), (4,5) and (5,4), each flipping one disc |
| Opening.InitialNotOver | HW-10/script.js:141-144 | the starting position is not game over |
| Opening.InitialTally | HW-10/script.js:55-60 | the start has two discs of each colour |
| Opening.FirstMoveTally | HW-10/script.js:119-139 | Black's opening at (2,3) leaves four Black discs and one White |
| Evaluator.CornersAreCorners | HW-10/script.js:374-375 | the corner list of evaluate is exactly the squares isCorner accepts |
| Evaluator.DiscWeight | HW-10/script.js:369-372 | the doubled disc factor is 12 iff at most 22 squares are empty (empties/64 < 0.35), and 3 otherwise |
| Evaluator.EvaluationAntisymmetric | HW-10/script.js:353-383 | reversing every disc negates the evaluation |
| Evaluator.ScanSquares | HW-10/script.js:355-362 | the square loop returns the positional sum under W and the two disc counts |
| Evaluator.CornerOccupancy | HW-10/script.js:374-380 | the corner loop returns +30 per White corner and -30 per Black corner |
| Evaluator.Evaluate | HW-10/script.js:353-383 | evaluate returns (doubled) the positional, mobility, phase-weighted disc and corner terms of `Evaluation` |
| Search.ChildValue | HW-10/script.js:332-349 | the i-th child value is the minimax value of the board after the i-th move, one ply shallower, other side to move |
| Search.FoldStep | HW-10/script.js:334-336 | folding one more child value takes the max (White) or min (Black) with it |
| Search.FoldMonotone | HW-10/script.js:332-349 | a prefix of the children never beats all of them |
| Search.FullWindowExact | HW-10/script.js:304 | on the window (-Infinity, Infinity) the fail-soft promise is equality |
| Search.MaxStep | HW-10/script.js:334-338 | one round of the maximising loop keeps the fail-soft promise, or, when alpha reaches beta, a value at least beta that bounds the true value from below |
| Search.MinStep | HW-10/script.js:344-348 | the minimising mirror of MaxStep |
| Search.MaxDone | HW-10/script.js:332-340 | a maximising loop that ran out of moves or broke on a cutoff keeps the fail-soft promise |
| Search.MinDone | HW-10/script.js:341-350 | the minimising mirror of MaxDone |
| Search.Minimax | HW-10/script.js:319-351 | pruned minimax is fail-soft against the unpruned value (below alpha: an upper bound; inside the window: exact; at or above beta: a lower bound), and equals it on the full window; at depth 0 or on a finished game it returns evaluate(b) whatever the window; a side without moves passes and uses up a ply |
| Search.SearchChild | HW-10/script.js:333-335 | the child search on the applied clone is fail-soft against that child's value |
| Search.MaxNode | HW-10/script.js:332-340 | White's loop with alpha update and break is fail-soft against the maximum of the children |
| Search.MinNode | HW-10/script.js:341-350 | Black's loop with beta update and break is fail-soft against the minimum of the children |
| Search.FirstMaxStep | HW-10/script.js:303-310 | a scan that replaces its best only on a strictly greater score keeps its best index, or moves it to the new score |
| Search.FirstMaxIsFirstArgMax | HW-10/script.js:303-310 | the chosen index holds a maximum, and every earlier score is strictly smaller |
| Search.FoldIsFirstMax | HW-10/script.js:332-340 | the maximum of the children is the score at the first argmax |
| Search.RollIndex | HW-10/script.js:295 | Math.floor(Math.random()*n) is an index below n |
| Search.MaxFlipsIsMax | HW-10/script.js:291-292 | the best flip count bounds every move, and some move attains it |
| Search.WithFlipsExact | HW-10/script.js:293 | the filtered list holds exactly the moves with the best flip count |
| Search.FirstCornerFinds | HW-10/script.js:294 | find returns a corner move of the list, or nothing when the list has no corner |
| Search.GreedyMostFlips | HW-10/script.js:289-296 | basic mode picks a move of the list with the most flips, and a corner one whenever a most-flips corner move exists |
| Search.AdvancedMove | HW-10/script.js:297-312 | the advanced loop returns the first move with the highest depth-3 score |
| Search.ChooseAIMove | HW-10/script.js:284-313 | chooseAIMove returns `AIChoice`: null without White moves, else the basic or advanced pick |
| Search.AIChoiceLegal | HW-10/script.js:284-313 | chooseAIMove returns null iff White has no move, and otherwise a legal White move from the list |
| Search.AdvancedFirstArgMax | HW-10/script.js:297-312 | the advanced pick has the highest score, every earlier move scores strictly less, and that score is the minimax value of the position at depth 3 |
| Session.AfterCheck | HW-10/script.js:221-255 | over: nothing; side to move without moves: pass and re-check; White with moves: lock and schedule the AI; Black with moves: nothing |
| Session.NoDoublePass | HW-10/script.js:221-233 | after a pass the re-check never passes again: the game is over or the other side has a move |
| Session.ScheduledAIMoveExists | HW-10/script.js:236-244 | when the AI move is scheduled, chooseAIMove returns a legal White move (the null branch is unreachable) |
| Session.ResetLeavesBlackToMove | HW-10/script.js:55-68 | after reset Black has its four opening moves, so the pass/AI check changes nothing |
| Session.Game.Snapshot | HW-10/script.js:34 | the grid read as a board value, square by square |
| Session.Game.constructor | HW-10/script.js:34-41 | page load gives the starting position, Black to move, unlocked |
| Session.Game.Put | HW-10/script.js:262 | writing one square changes that square of the board value only |
| Session.Game.SetUpBoard | HW-10/script.js:51-60 | a fresh grid holding the starting position |
| Session.Game.ResetGame | HW-10/script.js:55-69 | the starting position on a fresh grid, Black to move, unlocked, and Black holding its four opening moves |
| Session.Game.PlaceAndFlipSequential | HW-10/script.js:260-277 | placing the disc, then turning each listed disc in order, leaves the grid equal to `ApplyMove` of the old board |
| Session.Game.MaybeAutoPassOrAIMove | HW-10/script.js:221-256 | the board is only read; turn, lock and scheduled callback are those of `AfterCheck`; a pass hands over the turn with the board unchanged |
| Session.Game.EndTurn | HW-10/script.js:213-218 | the turn goes to the opponent, the lock is released, then the pass/AI check runs |
| Session.Game.OnCellClick | HW-10/script.js:193-211 | a click while locked, on White's turn, after game over, or on a square that flips nothing changes nothing; otherwise the same grid, written in place, becomes `ApplyMove` of Black's move and the turn passes to White through endTurn |
| Session.Game.CompleteAIMove | HW-10/script.js:236-253 | the timer callback plays `AIChoice` as White into the same grid, written in place, gives the turn to Black, unlocks and runs the check; with no move it only unlocks |

## Left out

- Everything that touches the page is not modelled: the DOM, `render`, hints, the `showHints` toggle, the log, `buildBoardUI` and `getCell`.
- Timers and awaits are not modelled.
  - Each handler and timer callback runs to its end as one method.
  - A method that schedules a callback returns which one (`Scheduled`) instead of calling it.
  - The interleavings that the awaits and timers permit are not modelled. The `thinking` lock is checked only by `onCellClick`, so it does not exclude them:
    - Restart during Black's flip animation. `resetGame` (script.js:43, 55-69) installs a fresh grid, and the paused `placeAndFlipSequential` then writes its remaining flips into that new grid, since it reads `board` again at every write (script.js:273). `onCellClick` then calls `endTurn` (script.js:210), handing the new game to White.
    - Restart while the computer's move is pending on its 250 ms timer. The callback (script.js:238-253) runs `chooseAIMove` on the fresh grid, so White moves first in the new game. The model can run `ResetGame` followed by `CompleteAIMove`, but it does not say when the page makes that happen.
    - A click or a restart between a pass and its 50 ms re-check. The pass branch (script.js:225-231) takes no lock.
- `Math.random()` is a parameter `roll` in [0, 1).
- The difficulty selector's value is a parameter `mode` of `ChooseAIMove`.
- Session.Game.OnCellClick: the clicked square arrives as `(r, c)` inside the board. The source reads it from the cell's data attributes, which are always 0..7.
- cloneBoard: boards passed to the rules are values, so the model has no explicit copy. `CloneAndApply` writes into the copy exactly as applyMove does.
- Search.GreedyMostFlips: `Array.prototype.sort` is taken to be stable, as the language guarantees today. The model therefore takes the maximal moves in their original order and does not model the sort itself.
- Evaluator.Evaluate: the value is twice the source's, so that the factor 1.5 stays an integer. Floating-point rounding is not modelled; every term of the source is an exact small multiple of 0.5.
- Search.MinimaxValue is written through a second name, `NodeValue`. This changes no value; it keeps proofs about callers small.
