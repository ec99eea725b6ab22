# Fibonacci tile game engine, modelled in Dafny

This project models `GameModel2`, the engine of a 2048-style game in which
two tiles merge when their values are consecutive Fibonacci numbers
(1 and 1, 1 and 2, 2 and 3, …, 377 and 610). The engine has four parts:

- **Board.** A `dimension` × `dimension` board of cells, each empty or holding a tile value.
- **Moves.** A move in one of four directions cuts the board into lines. Each line goes through the three-stage merge pipeline:
  - *condense* slides the tiles together;
  - *collapse* merges neighbouring Fibonacci pairs, each tile at most once;
  - *convert* turns the result into move orders.
  
  The orders are then written back to the board.
- **Goal and budget.** Before each line, the engine looks at the highest tile on the board. Reaching a milestone (89, 144, 233, 377, 610) raises the goal to the next one. The first time a milestone is reached, the engine's move budget `rm` is set to that milestone's bonus. Collapse only merges while `rm > 0`.
- **Command queue.** Queued moves are run when a one-shot timer fires. The engine runs moves from the front of the queue until one changes the board, and calls each move's completion handler with its outcome.

It also answers queries: the list of empty spots, the highest tile, whether
the player has won or lost, and where to insert a new tile.

Modules, in dependency order:

- `adjacency.dfy` (`Adjacency`): the merge rule `IsFibSum` and the Fibonacci table it encodes.
- `pipeline.dfy` (`Pipeline`): condense, collapse and convert. Each stage is a loop proved against a prefix-recursive function, and merge is their composition.
- `line_move.dfy` (`LineMove`): what a line's orders do to the line. The main theorem is that applying the orders of `merge` to a line packs the collapsed tiles toward the edge. It also proves that `merge` returns no orders exactly when the line is already settled.
- `board.dfy` (`Board`):
  - the flat row-major board, where cell (x, y) sits at index `x * dimension + y`;
  - the coordinates of each line of a move;
  - how writing a line's orders through those coordinates changes the board;
  - the row-major scans behind the empty-spot list and the highest tile.
- `progression.dfy` (`Progression`): the milestone switch that updates the goal and the budget.
- `move_spec.dfy` (`MoveSpec`): value-level definitions of a whole move, queue draining, tile insertion and the neighbour checks behind the end-of-game test.
- `engine.dfy` (`Engine`): the class `GameModel`, with the board as an array and the progression, queue, timer flag and called handlers as fields. Every method is proved against the definitions above.

## Model

| member | source | states |
|---|---|---|
| Adjacency.IsFibSumMatchesTable | swift-2048/GameModel2.swift:459-493 | the merge test holds exactly when the two values are consecutive entries of the table 1, 1, 2, 3, …, 610 |
| Adjacency.TableAdjacency | swift-2048/GameModel2.swift:459-493 | the adjacent pairs of the table, listed one by one: 1 pairs with 1 and 2, 610 only with 377 |
| Adjacency.IsFibSumSymmetric | swift-2048/GameModel2.swift:459-493 | the test gives the same answer with its arguments swapped, although the switch is keyed by the second one |
| Adjacency.IsFibSumSelf | swift-2048/GameModel2.swift:459-493 | a value merges with an equal value only when it is 1 |
| Adjacency.IsFibSumOutsideTable | swift-2048/GameModel2.swift:459-493 | a value outside the table (987 and above, 4, …) never merges |
| Pipeline.Condense | swift-2048/GameModel2.swift:385-399 | the loop's token buffer is the prefix-recursive condensed line |
| Pipeline.CondenseTokens | swift-2048/GameModel2.swift:385-399 | condense yields one token per occupied cell, in order, with the cell's value and index as source. A token is NoAction exactly when its source equals its position (no gap before it), otherwise Move. The token values add up to the line's tile values |
| Pipeline.CondenseOrder | swift-2048/GameModel2.swift:385-399 | a token never lies after its source, and the NoAction tokens come first |
| Pipeline.Collapse | swift-2048/GameModel2.swift:401-458 | the loop's buffer and skip flag are the prefix-recursive collapse. It requires the input to come from condense, where the source asserts false on combine tokens |
| Pipeline.CollapseCoversInput | swift-2048/GameModel2.swift:401-458 | each output token stands for one input token or for one adjacent mergeable pair (a single combine when the first is unmoved, a double combine otherwise). Together they cover the input in order, and the values are conserved |
| Pipeline.CollapseConserves | swift-2048/GameModel2.swift:409-458 | the output is shorter than the input by the number of merges, keeps the total value, and merges nothing when `rm <= 0` |
| Pipeline.Convert | swift-2048/GameModel2.swift:496-512 | the loop's buffer is the prefix-recursive converted list |
| Pipeline.ConvertOrders | swift-2048/GameModel2.swift:496-512 | every non-NoAction token at position k becomes one order with destination k, keeping its sources and value, and with wasMerge set exactly for a single combine. No orders means every token was NoAction |
| Pipeline.Merge | swift-2048/GameModel2.swift:515-521 | merge is convert after collapse after condense |
| LineMove.MergePacks | swift-2048/GameModel2.swift:385-521 | the orders stay within the line, and applying them leaves the collapsed tiles packed from position 0 with empty cells after them |
| LineMove.MergeConserves | swift-2048/GameModel2.swift:385-521 | applying the orders keeps the line's total tile value |
| LineMove.MergeSlides | swift-2048/GameModel2.swift:385-521 | every order moves its tiles toward the edge: each source cell lies strictly beyond the order's destination |
| LineMove.MergedEmptyIffSettled | swift-2048/GameModel2.swift:385-521 | merge returns no orders exactly when the line has no gap before a tile and, while `rm > 0`, no adjacent mergeable pair |
| Board.IdxInjective | swift-2048/GameModel2.swift:33 | distinct cells of the board have distinct flat indices |
| Board.LinesPartitionBoard | swift-2048/GameModel2.swift:292-303 | the lines of a move cover the board, each cell at exactly one position of one line |
| Board.LineCoordsValid | swift-2048/GameModel2.swift:292-303 | each line has `dimension` distinct cells of the board |
| Board.BoardOrdersFollowLine | swift-2048/GameModel2.swift:353-373 | writing a line's orders through its coordinates turns the board's line into the line with the orders applied, keeps every other cell, and changes the total value as the line's does |
| Board.EmptySpotsSpec | swift-2048/GameModel2.swift:134-144 | the empty-spot list names each empty cell exactly once and nothing else |
| Board.SpotsBeforeSpec | swift-2048/GameModel2.swift:134-144 | the spots listed so far are the empty cells already scanned, in row-major order |
| Board.ReachedIsMax | swift-2048/GameModel2.swift:270-282 | the highest-tile scan returns at least 1 and at least every tile, and it is 1 or the value of some tile |
| Progression.MilestoneSpec | swift-2048/GameModel2.swift:315-348 | reaching milestone k sets the goal to milestone k+1. The bonus k is granted, and the next milestone advanced, only when milestone k is the one still to come. Any other highest tile sets the goal to 89 |
| Progression.MilestoneValid | swift-2048/GameModel2.swift:315-348 | the switch keeps the goal and next milestone among the milestones and the budget among its seven values |
| Progression.MilestoneAdvances | swift-2048/GameModel2.swift:315-348 | the milestone still to come never goes back, it moves exactly when the highest tile equals it, and the budget changes only then |
| Progression.MilestoneIdempotent | swift-2048/GameModel2.swift:315-348 | running the switch again with the same highest tile changes nothing more |
| Progression.GoalFallsBack | swift-2048/GameModel2.swift:340-347 | after reaching 610 the goal is 987, and once the highest tile is 987 the goal falls back to 89 |
| Progression.BonusAtMostOnce | swift-2048/GameModel2.swift:315-348 | over any sequence of highest tiles, each milestone's bonus is granted at most once |
| Progression.MilestonesAreFibonacci | swift-2048/GameModel2.swift:315-348 | the milestones are consecutive table entries, and 987 is the sum of the two before it |
| MoveSpec.LineStepSpec | swift-2048/GameModel2.swift:306-375 | one line of a move runs the milestone switch on the current highest tile and keeps the total value. Once the move has changed it stays changed, and a line that changes nothing leaves the board as it was |
| MoveSpec.LineStepChanged | swift-2048/GameModel2.swift:349-352 | a line sets the changed flag exactly when it is not settled under the budget left by the switch |
| MoveSpec.LineStepMovesLine | swift-2048/GameModel2.swift:306-375 | the line becomes its collapsed tiles packed toward the edge, and every cell off the line is kept |
| MoveSpec.MoveSpec | swift-2048/GameModel2.swift:288-378 | a whole move keeps the total tile value. It reports no change only when the board is exactly as before, and it keeps the progression valid |
| MoveSpec.NeighbourChecksSpec | swift-2048/GameModel2.swift:147-230 | each neighbour check holds exactly when the next cell of the row (or of the column) holds a tile Fibonacci-adjacent to the value |
| MoveSpec.StuckLineSettled | swift-2048/GameModel2.swift:232-257 | on a board with no moves left, every line of every direction is settled, whatever the budget |
| MoveSpec.NoMoveWhenStuck | swift-2048/GameModel2.swift:232-257 | when the end-of-game condition holds, a move in any direction leaves the board unchanged and reports no change |
| MoveSpec.InsertedSpec | swift-2048/GameModel2.swift:111-117 | inserting fills the cell only if it was empty and keeps every other cell. The total value grows by the new tile, and the cell leaves the empty-spot list |
| MoveSpec.InsertedAtRandomSpec | swift-2048/GameModel2.swift:120-131 | a full board is kept, and otherwise one previously empty cell receives the tile |
| MoveSpec.RandomSpotReachable | swift-2048/GameModel2.swift:120-131 | every empty spot except the last in row-major order is chosen by some draw |
| MoveSpec.LastSpotStaysEmpty | swift-2048/GameModel2.swift:128 | with two or more empty spots, the last one is never chosen, because the index is drawn below the count minus one |
| MoveSpec.DrainSpec | swift-2048/GameModel2.swift:80-104 | handlers are called for a prefix of the queue, in order, and the rest stays queued. Only the last handler called can report a change, and the drain reports one exactly then. Without a change the whole queue ran and the board is unchanged. The total value is kept |
| Engine.GameModel.constructor | swift-2048/GameModel2.swift:19-49 | a new engine has an empty board, goal 89, budget 130, next milestone 89, an empty queue and no timer |
| Engine.GameModel.Reset | swift-2048/GameModel2.swift:52-59 | reset empties the board (every cell becomes an empty spot) and the queue, stops the timer, and sets goal 89, budget 131 and next milestone 89 |
| Engine.GameModel.QueueMove | swift-2048/GameModel2.swift:63-74 | a command is dropped when the queue already holds more than 100 commands. Otherwise it is appended, and when the timer is not scheduled the queue is drained at once. The queue never holds more than 101 commands |
| Engine.GameModel.TimerFired | swift-2048/GameModel2.swift:80-104 | firing spends the timer, drains the queue as the drain specification says, calls the handlers in order, and reschedules the timer exactly when a move changed the board |
| Engine.GameModel.InsertTile | swift-2048/GameModel2.swift:111-117 | the board becomes the inserted board |
| Engine.GameModel.InsertTileAtRandomLocation | swift-2048/GameModel2.swift:120-131 | the board becomes the board with the tile inserted at the spot the draw selects |
| Engine.GameModel.GameboardEmptySpots | swift-2048/GameModel2.swift:134-144 | the nested loops return the empty cells in row-major order |
| Engine.GameModel.UserHasLost | swift-2048/GameModel2.swift:232-257 | the player has lost exactly when the budget passed in is not positive, or every cell holds a tile that merges with neither its next row neighbour nor its next column neighbour |
| Engine.GameModel.UserHasWon | swift-2048/GameModel2.swift:259-269 | the player has won exactly when the budget passed in is positive and some tile reaches the threshold. The location returned is the first such tile in row-major order, and there is no location otherwise |
| Engine.GameModel.UserHasReached | swift-2048/GameModel2.swift:270-282 | the nested loops return the highest tile value, or 1 |
| Engine.GameModel.CoordinateGenerator | swift-2048/GameModel2.swift:292-303 | the buffer holds the coordinates of line `iteration` for the direction, from the edge the tiles slide toward |
| Engine.GameModel.PerformMove | swift-2048/GameModel2.swift:288-378 | the board, the progression and the returned flag are those of the whole-move specification. The queue, the timer and the handlers are untouched |
| Engine.GameModel.MoveLine | swift-2048/GameModel2.swift:306-375 | one iteration of the move loop is one line step of the specification |
| Engine.GameModel.SwitchGoal | swift-2048/GameModel2.swift:315-348 | the goal, budget and next milestone become those of the milestone switch |
| Engine.GameModel.WriteBack | swift-2048/GameModel2.swift:353-373 | the board becomes the board with the line's orders written through its coordinates, first order first |

## Quirks of the code

The model keeps three behaviours of the code that a reader might not expect:

- **Queue capacity.** The guard `queue.count <= maxCommands` (GameModel2.swift:64) still admits a command when the queue already holds 100, so the queue can hold 101 commands. `Engine.GameModel.Valid` states the bound of 101.
- **Goal falls back.** The milestone switch's `default` branch (GameModel2.swift:346-347) sets the goal back to 89 whenever the highest tile is not one of 89, 144, 233, 377 or 610, which includes 987 and above. `Progression.GoalFallsBack` shows the goal dropping from 987 to 89. The milestone still to come, `nextGoal`, never goes back (`Progression.MilestoneAdvances`).
- **Last spot never chosen.** The spot index is drawn with `arc4random_uniform(count - 1)` (GameModel2.swift:128), so when there are two or more empty spots the last one in row-major order is never chosen (`MoveSpec.LastSpotStaysEmpty`). With a single spot the bound is 0, and `arc4random_uniform` returns 0 for bounds below 2.

## Left out

- The delegate callbacks (goal changed, budget decreased, tile moved, tile inserted) are not modelled; the model records neither that they are called nor how often.
- The timer's real delay (0.3 s) and scheduling are not modelled. The timer is a flag, and `TimerFired` is the event of it firing.
- `arc4random_uniform` is modelled by `MoveSpec.ArcRandomUniform`, which takes the random draw as a parameter.
- Completion closures are modelled as numbers. The engine records each call, with its outcome, in the `completed` field.
- The remaining-move counter shown by the view is owned by the view, not by the engine. It reaches the engine only as the `num1`/`num2` parameters of `UserHasWon`/`UserHasLost`, and is modelled as those parameters. The engine's own `rm` is only ever set by the milestone switch and reset, and the model does the same.
- Every assignment to the engine's `rm` (each bonus the milestone switch grants, and `reset`) fires `rmDecreased` through its `didSet` (GameModel2.swift:28-32), and the view answers by lowering its remaining-move counter by one (RemainingMoveView.swift:28-30). So a bonus costs the counter later passed as `num1`/`num2` one move rather than raising it. The model does not record these notifications, so this effect on the counter is not captured.
- `SquareGameboard` is not part of this model. The board is a flat array in row-major order with `dimension * dimension` cells. Its subscript's bounds checks are modelled as preconditions (`InBoard`).
- Swift's fixed-width `Int` is modelled as unbounded `int`. Tile values stop at 987 in play, far from overflow.
- The source's `assert(false)` cases for combine tokens in collapse's input are modelled as the precondition `FromCondense` of `Pipeline.Collapse`; merge only ever feeds collapse condense's output.
- The `getValue`/`getSource` accessors are modelled by the `ActionToken` datatype's fields.
