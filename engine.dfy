/**
 * The game engine: a `dimension` by `dimension` board stored row-major in an
 * array, the goal and move-budget progression, and the queue of moves waiting
 * for the move timer. Each method is proved against the value-level
 * definitions of the MoveSpec, Board and Progression modules.
 */
module Engine {
  import opened Pipeline
  import opened LineMove
  import opened Board
  import opened Progression
  import opened MoveSpec

  datatype Option<T> = None | Some(value: T)

  /** Cell (x, y) holds a tile of at least the winning threshold. */
  predicate WinningCell(b: seq<TileObject>, d: int, threshold: int, x: int, y: int)
    requires |b| == d * d
  {
    InBoard(d, x, y) && At(b, d, x, y).Tile? && At(b, d, x, y).value >= threshold
  }

  class GameModel {
    const dimension: nat
    const threshold: int
    /** The most commands the queue takes in before refusing; the guard `queue.count <= maxCommands` admits one more. */
    const maxCommands: int := 100
    /** The board, cell (x, y) at index x * dimension + y. */
    const gameboard: array<TileObject>
    var goal: int
    var rm: int
    var nextGoal: int
    /** Moves waiting for the timer, oldest first. */
    var queue: seq<MoveCommand>
    /** Whether the move timer is scheduled. */
    var timerValid: bool
    /** The completion handlers called so far, with the outcome each was given. */
    var completed: seq<Completion>

    function CurrentProgress(): (r: Progress)
      reads this
    {
      Progress(goal, rm, nextGoal)
    }

    /** The board has its size and the progression its values. */
    ghost predicate ValidBoard()
      reads this
    {
      gameboard.Length == dimension * dimension && ValidProgress(CurrentProgress())
    }

    /** Between calls, the queue holds at most one command over the limit, and it is empty unless the timer is scheduled. */
    ghost predicate Valid()
      reads this
    {
      && ValidBoard()
      && |queue| <= maxCommands + 1
      && (!timerValid ==> queue == [])
    }

    constructor (d: nat, t: int)
      ensures Valid() && dimension == d && threshold == t
      ensures fresh(gameboard) && gameboard[..] == seq(d * d, _ => Empty)
      ensures CurrentProgress() == Initial && queue == [] && !timerValid && completed == []
    {
      dimension := d;
      threshold := t;
      goal := 89;
      rm := 130;
      nextGoal := 89;
      gameboard := new TileObject[d * d](_ => Empty);
      queue := [];
      timerValid := false;
      completed := [];
    }

    /** Empties the board and the queue, stops the timer and restarts the progression. */
    method Reset()
      requires Valid()
      modifies this, gameboard
      ensures Valid()
      ensures gameboard[..] == seq(dimension * dimension, _ => Empty)
      ensures forall x, y :: InBoard(dimension, x, y) ==> (x, y) in EmptySpots(gameboard[..], dimension)
      ensures CurrentProgress() == AfterReset && queue == [] && !timerValid && completed == old(completed)
    {
      nextGoal := 89;
      goal := 89;
      rm := 131;
      forall k | 0 <= k < gameboard.Length {
        gameboard[k] := Empty;
      }
      queue := [];
      timerValid := false;
      EmptySpotsSpec(gameboard[..], dimension);
      forall x, y | InBoard(dimension, x, y) ensures At(gameboard[..], dimension, x, y).Empty? {
        IdxBounds(dimension, x, y);
      }
    }

    /** Takes a move in, unless the queue is over its limit, and runs the queue at once when the timer is not scheduled. */
    method QueueMove(direction: MoveDirection, completion: nat)
      requires Valid()
      modifies this, gameboard
      ensures Valid()
      ensures |old(queue)| > maxCommands ==>
        && queue == old(queue) && gameboard[..] == old(gameboard[..]) && CurrentProgress() == old(CurrentProgress())
        && timerValid == old(timerValid) && completed == old(completed)
      ensures |old(queue)| <= maxCommands && old(timerValid) ==>
        && queue == old(queue) + [MoveCommand(direction, completion)]
        && gameboard[..] == old(gameboard[..]) && CurrentProgress() == old(CurrentProgress())
        && timerValid && completed == old(completed)
      ensures |old(queue)| <= maxCommands && !old(timerValid) ==>
        && gameboard[..] == Drain(dimension, old(gameboard[..]), old(CurrentProgress()), [MoveCommand(direction, completion)]).board
        && CurrentProgress() == Drain(dimension, old(gameboard[..]), old(CurrentProgress()), [MoveCommand(direction, completion)]).progress
        && queue == Drain(dimension, old(gameboard[..]), old(CurrentProgress()), [MoveCommand(direction, completion)]).queue
        && timerValid == Drain(dimension, old(gameboard[..]), old(CurrentProgress()), [MoveCommand(direction, completion)]).changed
        && completed == old(completed) + Drain(dimension, old(gameboard[..]), old(CurrentProgress()), [MoveCommand(direction, completion)]).completions
    {
      if |queue| > maxCommands {
        return;
      }
      queue := queue + [MoveCommand(direction, completion)];
      if !timerValid {
        TimerFired();
      }
    }

    /**
     * The timer fires (or the queue is run at once): the one-shot timer is
     * spent, and moves are taken from the front of the queue, each
     * completion handler called with its move's outcome, until a move changes
     * the board, which schedules the timer again.
     */
    method TimerFired()
      requires ValidBoard() && |queue| <= maxCommands + 1
      modifies this, gameboard
      ensures Valid()
      ensures gameboard[..] == Drain(dimension, old(gameboard[..]), old(CurrentProgress()), old(queue)).board
      ensures CurrentProgress() == Drain(dimension, old(gameboard[..]), old(CurrentProgress()), old(queue)).progress
      ensures queue == Drain(dimension, old(gameboard[..]), old(CurrentProgress()), old(queue)).queue
      ensures timerValid == Drain(dimension, old(gameboard[..]), old(CurrentProgress()), old(queue)).changed
      ensures completed == old(completed) + Drain(dimension, old(gameboard[..]), old(CurrentProgress()), old(queue)).completions
    {
      timerValid := false;
      if |queue| == 0 {
        return;
      }
      ghost var outcome := Drain(dimension, gameboard[..], CurrentProgress(), queue);
      ghost var done: seq<Completion> := [];
      var changed := false;
      while |queue| > 0
        invariant ValidBoard() && !timerValid && !changed
        invariant |queue| <= |old(queue)|
        invariant completed == old(completed) + done
        invariant outcome == Prepend(done, Drain(dimension, gameboard[..], CurrentProgress(), queue))
        decreases |queue|
      {
        var command := queue[0];
        DrainUnfold(dimension, gameboard[..], CurrentProgress(), queue, done);
        queue := queue[1..];
        changed := PerformMove(command.direction);
        completed := completed + [Completion(command.completion, changed)];
        done := done + [Completion(command.completion, changed)];
        if changed {
          break;
        }
      }
      if changed {
        timerValid := true;
      }
    }

    /** Puts a tile at (x, y) when that cell is empty. */
    method InsertTile(x: int, y: int, value: int)
      requires Valid() && InBoard(dimension, x, y)
      modifies gameboard
      ensures Valid()
      ensures gameboard[..] == Inserted(old(gameboard[..]), dimension, x, y, value)
    {
      IdxBounds(dimension, x, y);
      if gameboard[Idx(dimension, x, y)].Empty? {
        gameboard[Idx(dimension, x, y)] := Tile(value);
      }
    }

    /** Puts a tile at an empty cell chosen with the random `draw`, if the board has one. */
    method InsertTileAtRandomLocation(value: int, draw: nat)
      requires Valid()
      modifies gameboard
      ensures Valid()
      ensures gameboard[..] == InsertedAtRandom(old(gameboard[..]), dimension, value, draw)
    {
      var openSpots := GameboardEmptySpots();
      if |openSpots| == 0 {
        return;
      }
      var idx := ArcRandomUniform(|openSpots| - 1, draw);
      var (x, y) := openSpots[idx];
      EmptySpotsSpec(gameboard[..], dimension);
      assert openSpots[idx] in openSpots;
      InsertTile(x, y, value);
    }

    /** The empty cells, in row-major order. */
    method GameboardEmptySpots() returns (buffer: seq<(int, int)>)
      requires ValidBoard()
      ensures buffer == EmptySpots(gameboard[..], dimension)
    {
      buffer := [];
      for i := 0 to dimension
        invariant buffer == SpotsBefore(gameboard[..], dimension, i, 0)
      {
        for j := 0 to dimension
          invariant buffer == SpotsBefore(gameboard[..], dimension, i, j)
        {
          IdxBounds(dimension, i, j);
          if gameboard[Idx(dimension, i, j)].Empty? {
            buffer := buffer + [(i, j)];
          }
        }
      }
    }

    /** Whether the player has lost: the budget is spent, or no cell is empty and no neighbouring tiles merge. */
    method UserHasLost(num2: int) returns (lost: bool)
      requires ValidBoard()
      ensures lost <==> num2 <= 0 || NoMovesLeft(gameboard[..], dimension)
    {
      for i := 0 to dimension
        invariant num2 > 0 ==> forall x, y :: InBoard(dimension, x, y) && ScannedBefore(x, y, i, 0) ==> CellStuck(gameboard[..], dimension, x, y)
      {
        for j := 0 to dimension
          invariant num2 > 0 ==> forall x, y :: InBoard(dimension, x, y) && ScannedBefore(x, y, i, j) ==> CellStuck(gameboard[..], dimension, x, y)
        {
          IdxBounds(dimension, i, j);
          match gameboard[Idx(dimension, i, j)] {
            case Empty =>
              if num2 > 0 {
                assert !CellStuck(gameboard[..], dimension, i, j);
                return false;
              }
            case Tile(v) =>
              if (TileBelowHasSameValue(gameboard[..], dimension, i, j, v) || TileToRightHasSameValue(gameboard[..], dimension, i, j, v)) && num2 > 0 {
                assert !CellStuck(gameboard[..], dimension, i, j);
                return false;
              }
          }
        }
      }
      return true;
    }

    /** Whether the player has won, and where: the first tile in row-major order at or above the threshold, while the budget lasts. */
    method UserHasWon(num1: int) returns (won: bool, location: Option<(int, int)>)
      requires ValidBoard()
      ensures won <==> num1 > 0 && exists x, y :: WinningCell(gameboard[..], dimension, threshold, x, y)
      ensures won ==> location.Some? && WinningCell(gameboard[..], dimension, threshold, location.value.0, location.value.1)
      ensures won ==> forall x, y :: WinningCell(gameboard[..], dimension, threshold, x, y) ==>
        !ScannedBefore(x, y, location.value.0, location.value.1)
      ensures !won ==> location == None
    {
      for i := 0 to dimension
        invariant num1 > 0 ==> forall x, y :: ScannedBefore(x, y, i, 0) ==> !WinningCell(gameboard[..], dimension, threshold, x, y)
      {
        for j := 0 to dimension
          invariant num1 > 0 ==> forall x, y :: ScannedBefore(x, y, i, j) ==> !WinningCell(gameboard[..], dimension, threshold, x, y)
        {
          IdxBounds(dimension, i, j);
          if gameboard[Idx(dimension, i, j)].Tile? && gameboard[Idx(dimension, i, j)].value >= threshold && num1 > 0 {
            assert WinningCell(gameboard[..], dimension, threshold, i, j);
            return true, Some((i, j));
          }
        }
      }
      return false, None;
    }

    /** The highest tile value on the board, or 1 when no tile is higher. */
    method UserHasReached() returns (temp: int)
      requires ValidBoard()
      ensures temp == Reached(gameboard[..], dimension)
    {
      temp := 1;
      for i := 0 to dimension
        invariant temp == ReachedBefore(gameboard[..], dimension, i, 0)
      {
        for j := 0 to dimension
          invariant temp == ReachedBefore(gameboard[..], dimension, i, j)
        {
          IdxBounds(dimension, i, j);
          if gameboard[Idx(dimension, i, j)].Tile? && gameboard[Idx(dimension, i, j)].value >= temp {
            temp := gameboard[Idx(dimension, i, j)].value;
          }
        }
      }
    }

    /** The coordinates of line `iteration` of a move, from the edge the tiles slide toward. */
    method CoordinateGenerator(direction: MoveDirection, iteration: int) returns (buffer: seq<(int, int)>)
      ensures buffer == LineCoords(dimension, direction, iteration)
    {
      buffer := seq(dimension, _ => (0, 0));
      for i := 0 to dimension
        invariant |buffer| == dimension
        invariant forall k :: 0 <= k < i ==> buffer[k] == Coord(dimension, direction, iteration, k)
      {
        match direction {
          case Up => buffer := buffer[i := (i, iteration)];
          case Down => buffer := buffer[i := (dimension - i - 1, iteration)];
          case Left => buffer := buffer[i := (iteration, i)];
          case Right => buffer := buffer[i := (iteration, dimension - i - 1)];
        }
      }
    }

    /**
     * One move: for each line in turn, the milestone switch runs with the
     * highest tile, the line is merged with the budget, and the orders are
     * written back to the board. Reports whether any line produced orders.
     */
    method PerformMove(direction: MoveDirection) returns (atLeastOneMove: bool)
      requires ValidBoard()
      modifies this, gameboard
      ensures ValidBoard()
      ensures MoveState(gameboard[..], CurrentProgress(), atLeastOneMove)
           == Moved(dimension, direction, old(gameboard[..]), old(CurrentProgress()))
      ensures queue == old(queue) && timerValid == old(timerValid) && completed == old(completed)
    {
      ghost var start := MoveState(gameboard[..], CurrentProgress(), false);
      atLeastOneMove := false;
      for i := 0 to dimension
        invariant ValidBoard()
        invariant MoveState(gameboard[..], CurrentProgress(), atLeastOneMove) == MovePrefix(dimension, direction, start, i)
        invariant queue == old(queue) && timerValid == old(timerValid) && completed == old(completed)
      {
        atLeastOneMove := MoveLine(direction, i, atLeastOneMove);
      }
    }

    /** One iteration of the move loop: line `i` of a move in `direction`. */
    method MoveLine(direction: MoveDirection, i: int, changedSoFar: bool) returns (atLeastOneMove: bool)
      requires ValidBoard() && 0 <= i < dimension
      modifies this, gameboard
      ensures ValidBoard()
      ensures MoveState(gameboard[..], CurrentProgress(), atLeastOneMove)
           == LineStep(dimension, direction, MoveState(old(gameboard[..]), old(CurrentProgress()), changedSoFar), i)
      ensures queue == old(queue) && timerValid == old(timerValid) && completed == old(completed)
    {
      var coords := CoordinateGenerator(direction, i);
      LineCoordsValid(dimension, direction, i);
      var tiles := LineOf(gameboard[..], dimension, coords);
      var reached := UserHasReached();
      MilestoneValid(reached, CurrentProgress());
      SwitchGoal(reached);
      var orders := Merge(tiles, rm);
      atLeastOneMove := if |orders| > 0 then true else changedSoFar;
      MergePacks(tiles, rm);
      WriteBack(coords, orders);
    }

    /** The milestone switch of a move, run with the highest tile value on the board. */
    method SwitchGoal(reached: int)
      modifies this
      ensures CurrentProgress() == Milestone(reached, old(CurrentProgress()))
      ensures queue == old(queue) && timerValid == old(timerValid) && completed == old(completed)
    {
      match reached {
        case 89 =>
          if nextGoal == 89 {
            rm := 61;
            nextGoal := 144;
          }
          goal := 144;
        case 144 =>
          if nextGoal == 144 {
            rm := 1001;
            nextGoal := 233;
          }
          goal := 233;
        case 233 =>
          if nextGoal == 233 {
            rm := 101;
            nextGoal := 377;
          }
          goal := 377;
        case 377 =>
          if nextGoal == 377 {
            rm := 201;
            nextGoal := 610;
          }
          goal := 610;
        case 610 =>
          if nextGoal == 610 {
            rm := 351;
            nextGoal := 987;
          }
          goal := 987;
        case _ =>
          goal := 89;
      }
    }

    /** Writes a line's orders back to the board through the line's coordinates, first order first. */
    method WriteBack(coords: seq<(int, int)>, orders: seq<MoveOrder>)
      requires gameboard.Length == dimension * dimension && ValidCoords(dimension, coords) && AllInLine(orders, |coords|)
      modifies gameboard
      ensures gameboard[..] == ApplyBoardOrders(old(gameboard[..]), dimension, coords, orders)
    {
      for m := 0 to |orders|
        invariant gameboard[..] == ApplyBoardOrders(old(gameboard[..]), dimension, coords, orders[..m])
      {
        assert orders[..m + 1][..m] == orders[..m];
        match orders[m] {
          case SingleMoveOrder(s, dst, v, _) =>
            var (sx, sy) := coords[s];
            var (dx, dy) := coords[dst];
            IdxBounds(dimension, sx, sy);
            IdxBounds(dimension, dx, dy);
            gameboard[Idx(dimension, sx, sy)] := Empty;
            gameboard[Idx(dimension, dx, dy)] := Tile(v);
          case DoubleMoveOrder(s1, s2, dst, v) =>
            var (s1x, s1y) := coords[s1];
            var (s2x, s2y) := coords[s2];
            var (dx, dy) := coords[dst];
            IdxBounds(dimension, s1x, s1y);
            IdxBounds(dimension, s2x, s2y);
            IdxBounds(dimension, dx, dy);
            gameboard[Idx(dimension, s1x, s1y)] := Empty;
            gameboard[Idx(dimension, s2x, s2y)] := Empty;
            gameboard[Idx(dimension, dx, dy)] := Tile(v);
        }
      }
      assert orders[..|orders|] == orders;
    }
  }
}
