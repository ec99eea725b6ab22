/**
 * What the engine's operations do, stated on values: a whole move over the
 * board, the draining of the command queue, tile insertion, and the
 * neighbour checks behind the end-of-game test. The engine class is proved
 * against these definitions.
 */
module MoveSpec {
  import opened Adjacency
  import opened Pipeline
  import opened LineMove
  import opened Board
  import opened Progression

  // ---------------------------------------------------------------------------
  // Moves

  /** The board, the progression and whether any line produced orders, part way through a move. */
  datatype MoveState = MoveState(board: seq<TileObject>, progress: Progress, changed: bool)

  /** Line `i` of a move in `direction`, read off the board. */
  function Line(b: seq<TileObject>, d: nat, direction: MoveDirection, i: int): (line: seq<TileObject>)
    requires |b| == d * d && 0 <= i < d
    ensures |line| == d
  {
    LineCoordsValid(d, direction, i);
    LineOf(b, d, LineCoords(d, direction, i))
  }

  /** A line after a move: the collapsed tiles packed toward position 0, the rest empty. */
  function MovedLine(line: seq<TileObject>, rm: int): (r: seq<TileObject>)
    ensures |r| == |line|
  {
    MergePacks(line, rm);
    Packed(Collapsed(Condensed(line), rm), |line|)
  }

  /**
   * One iteration of the move loop, for line `i`: the milestone switch runs
   * with the highest tile on the board, the line is merged with the budget
   * that leaves, and the orders are written back through the line's
   * coordinates.
   */
  function LineStep(d: nat, direction: MoveDirection, st: MoveState, i: int): (r: MoveState)
    requires |st.board| == d * d && 0 <= i < d
    ensures |r.board| == d * d
  {
    var progress := Milestone(Reached(st.board, d), st.progress);
    var coords := LineCoords(d, direction, i);
    LineCoordsValid(d, direction, i);
    var orders := Merged(LineOf(st.board, d, coords), progress.rm);
    MergePacks(LineOf(st.board, d, coords), progress.rm);
    MoveState(ApplyBoardOrders(st.board, d, coords, orders), progress, if |orders| > 0 then true else st.changed)
  }

  /** The state after the first `n` lines of a move. */
  function MovePrefix(d: nat, direction: MoveDirection, st: MoveState, n: int): (r: MoveState)
    requires |st.board| == d * d && 0 <= n <= d
    ensures |r.board| == d * d
  {
    if n == 0 then st else LineStep(d, direction, MovePrefix(d, direction, st, n - 1), n - 1)
  }

  /** A whole move: every line in turn, starting with nothing changed. */
  function Moved(d: nat, direction: MoveDirection, b: seq<TileObject>, p: Progress): (r: MoveState)
    requires |b| == d * d
    ensures |r.board| == d * d
  {
    MovePrefix(d, direction, MoveState(b, p, false), d)
  }

  /**
   * One line of a move: the progression goes through the milestone switch,
   * the board keeps its total value, a move once changed stays changed, and
   * a line that changes nothing leaves the board as it was.
   */
  lemma LineStepSpec(d: nat, direction: MoveDirection, st: MoveState, i: int)
    requires |st.board| == d * d && 0 <= i < d
    ensures LineStep(d, direction, st, i).progress == Milestone(Reached(st.board, d), st.progress)
    ensures TileSum(LineStep(d, direction, st, i).board) == TileSum(st.board)
    ensures st.changed ==> LineStep(d, direction, st, i).changed
    ensures !LineStep(d, direction, st, i).changed ==> LineStep(d, direction, st, i).board == st.board
  {
    var coords := LineCoords(d, direction, i);
    LineCoordsValid(d, direction, i);
    var line := LineOf(st.board, d, coords);
    var rm := Milestone(Reached(st.board, d), st.progress).rm;
    MergeConserves(line, rm);
    BoardOrdersFollowLine(st.board, d, coords, Merged(line, rm));
  }

  /** A line produces orders, and so makes the move count as changed, exactly when it is not settled. */
  lemma LineStepChanged(d: nat, direction: MoveDirection, st: MoveState, i: int)
    requires |st.board| == d * d && 0 <= i < d
    ensures LineStep(d, direction, st, i).changed
        <==> st.changed || !Settled(Line(st.board, d, direction, i), LineStep(d, direction, st, i).progress.rm)
  {
    LineCoordsValid(d, direction, i);
    MergedEmptyIffSettled(Line(st.board, d, direction, i), Milestone(Reached(st.board, d), st.progress).rm);
  }

  /** One line of a move turns that line into its moved form and keeps every cell off the line. */
  lemma LineStepMovesLine(d: nat, direction: MoveDirection, st: MoveState, i: int)
    requires |st.board| == d * d && 0 <= i < d
    ensures Line(LineStep(d, direction, st, i).board, d, direction, i)
         == MovedLine(Line(st.board, d, direction, i), LineStep(d, direction, st, i).progress.rm)
    ensures forall idx :: 0 <= idx < d * d && !OnLine(d, LineCoords(d, direction, i), idx) ==>
      LineStep(d, direction, st, i).board[idx] == st.board[idx]
  {
    var coords := LineCoords(d, direction, i);
    LineCoordsValid(d, direction, i);
    var line := LineOf(st.board, d, coords);
    var rm := Milestone(Reached(st.board, d), st.progress).rm;
    MergePacks(line, rm);
    BoardOrdersFollowLine(st.board, d, coords, Merged(line, rm));
  }

  /** The first `n` lines of a move keep the board's total value. */
  lemma {:induction false} MovePrefixConserves(d: nat, direction: MoveDirection, st: MoveState, n: int)
    requires |st.board| == d * d && 0 <= n <= d
    ensures TileSum(MovePrefix(d, direction, st, n).board) == TileSum(st.board)
  {
    if n > 0 {
      var prev := MovePrefix(d, direction, st, n - 1);
      MovePrefixConserves(d, direction, st, n - 1);
      LineStepSpec(d, direction, prev, n - 1);
      assert MovePrefix(d, direction, st, n) == LineStep(d, direction, prev, n - 1);
    }
  }

  /** The first `n` lines of a move leave the board as it was when none of them produced orders. */
  lemma {:induction false} MovePrefixStill(d: nat, direction: MoveDirection, st: MoveState, n: int)
    requires |st.board| == d * d && 0 <= n <= d
    ensures st.changed ==> MovePrefix(d, direction, st, n).changed
    ensures !MovePrefix(d, direction, st, n).changed ==> MovePrefix(d, direction, st, n).board == st.board
  {
    if n > 0 {
      MovePrefixStill(d, direction, st, n - 1);
      LineStepSpec(d, direction, MovePrefix(d, direction, st, n - 1), n - 1);
    }
  }

  /** The first `n` lines of a move keep the progression's fields within their values. */
  lemma {:induction false} MovePrefixValid(d: nat, direction: MoveDirection, st: MoveState, n: int)
    requires |st.board| == d * d && 0 <= n <= d && ValidProgress(st.progress)
    ensures ValidProgress(MovePrefix(d, direction, st, n).progress)
  {
    if n > 0 {
      var prev := MovePrefix(d, direction, st, n - 1);
      MovePrefixValid(d, direction, st, n - 1);
      LineStepSpec(d, direction, prev, n - 1);
      MilestoneValid(Reached(prev.board, d), prev.progress);
    }
  }

  /**
   * A move keeps the total value of the tiles, reports no change only when
   * the board is exactly as before, and keeps the progression's fields
   * within their values.
   */
  lemma MoveSpec(d: nat, direction: MoveDirection, b: seq<TileObject>, p: Progress)
    requires |b| == d * d
    ensures TileSum(Moved(d, direction, b, p).board) == TileSum(b)
    ensures !Moved(d, direction, b, p).changed ==> Moved(d, direction, b, p).board == b
    ensures ValidProgress(p) ==> ValidProgress(Moved(d, direction, b, p).progress)
  {
    MovePrefixConserves(d, direction, MoveState(b, p, false), d);
    MovePrefixStill(d, direction, MoveState(b, p, false), d);
    if ValidProgress(p) {
      MovePrefixValid(d, direction, MoveState(b, p, false), d);
    }
  }

  // ---------------------------------------------------------------------------
  // Neighbours and the end of the game

  /** Whether the cell after (x, y) in its row holds a tile that merges with `value`. */
  function TileBelowHasSameValue(b: seq<TileObject>, d: int, x: int, y: int, value: int): (r: bool)
    requires |b| == d * d && InBoard(d, x, y)
  {
    if y == d - 1 then false
    else
      match At(b, d, x, y + 1)
      case Tile(v) => IsFibSum(v, value)
      case Empty => false
  }

  /** Whether the cell after (x, y) in its column holds a tile that merges with `value`. */
  function TileToRightHasSameValue(b: seq<TileObject>, d: int, x: int, y: int, value: int): (r: bool)
    requires |b| == d * d && InBoard(d, x, y)
  {
    if x == d - 1 then false
    else
      match At(b, d, x + 1, y)
      case Tile(v) => IsFibSum(v, value)
      case Empty => false
  }

  /** The neighbour checks hold exactly when the neighbour is a tile adjacent to `value` in the Fibonacci sequence. */
  lemma NeighbourChecksSpec(b: seq<TileObject>, d: int, x: int, y: int, value: int)
    requires |b| == d * d && InBoard(d, x, y)
    ensures TileBelowHasSameValue(b, d, x, y, value)
        <==> y + 1 < d && At(b, d, x, y + 1).Tile? && FibAdjacent(value, At(b, d, x, y + 1).value)
    ensures TileToRightHasSameValue(b, d, x, y, value)
        <==> x + 1 < d && At(b, d, x + 1, y).Tile? && FibAdjacent(value, At(b, d, x + 1, y).value)
  {
    if y + 1 < d && At(b, d, x, y + 1).Tile? {
      IsFibSumMatchesTable(At(b, d, x, y + 1).value, value);
      IsFibSumMatchesTable(value, At(b, d, x, y + 1).value);
      IsFibSumSymmetric(value, At(b, d, x, y + 1).value);
    }
    if x + 1 < d && At(b, d, x + 1, y).Tile? {
      IsFibSumMatchesTable(At(b, d, x + 1, y).value, value);
      IsFibSumMatchesTable(value, At(b, d, x + 1, y).value);
      IsFibSumSymmetric(value, At(b, d, x + 1, y).value);
    }
  }

  /** Cell (x, y) holds a tile that merges with neither later neighbour. */
  predicate CellStuck(b: seq<TileObject>, d: int, x: int, y: int)
    requires |b| == d * d && InBoard(d, x, y)
  {
    && At(b, d, x, y).Tile?
    && !TileBelowHasSameValue(b, d, x, y, At(b, d, x, y).value)
    && !TileToRightHasSameValue(b, d, x, y, At(b, d, x, y).value)
  }

  /** The board is full and no two neighbouring tiles merge. */
  ghost predicate NoMovesLeft(b: seq<TileObject>, d: int)
    requires |b| == d * d
  {
    forall x, y :: InBoard(d, x, y) ==> CellStuck(b, d, x, y)
  }

  /** On a board with no moves left, every line of every direction is settled, whatever the budget. */
  lemma StuckLineSettled(b: seq<TileObject>, d: nat, direction: MoveDirection, i: int, rm: int)
    requires |b| == d * d && 0 <= i < d && NoMovesLeft(b, d)
    ensures Settled(Line(b, d, direction, i), rm)
  {
    var line := Line(b, d, direction, i);
    forall k | 0 <= k < d ensures line[k].Tile? {
      var c := Coord(d, direction, i, k);
      assert CellStuck(b, d, c.0, c.1);
    }
    forall k | 0 <= k < d - 1 ensures !IsFibSum(line[k].value, line[k + 1].value) {
      var c := Coord(d, direction, i, k);
      var c' := Coord(d, direction, i, k + 1);
      assert CellStuck(b, d, c.0, c.1) && CellStuck(b, d, c'.0, c'.1);
      IsFibSumSymmetric(line[k].value, line[k + 1].value);
    }
  }

  /** The first `n` lines of a move change nothing on a board with no moves left. */
  lemma {:induction false} StuckPrefix(d: nat, direction: MoveDirection, st: MoveState, n: int)
    requires |st.board| == d * d && 0 <= n <= d && NoMovesLeft(st.board, d) && !st.changed
    ensures MovePrefix(d, direction, st, n).board == st.board
    ensures !MovePrefix(d, direction, st, n).changed
  {
    if n > 0 {
      var prev := MovePrefix(d, direction, st, n - 1);
      var next := LineStep(d, direction, prev, n - 1);
      StuckPrefix(d, direction, st, n - 1);
      assert prev.board == st.board && !prev.changed;
      StuckLineSettled(prev.board, d, direction, n - 1, next.progress.rm);
      LineStepChanged(d, direction, prev, n - 1);
      assert !next.changed;
      LineStepSpec(d, direction, prev, n - 1);
      assert MovePrefix(d, direction, st, n) == next;
    }
  }

  /** When the board has no moves left, a move in any direction changes nothing and reports so. */
  lemma NoMoveWhenStuck(d: nat, direction: MoveDirection, b: seq<TileObject>, p: Progress)
    requires |b| == d * d && NoMovesLeft(b, d)
    ensures Moved(d, direction, b, p).board == b
    ensures !Moved(d, direction, b, p).changed
  {
    StuckPrefix(d, direction, MoveState(b, p, false), d);
  }

  // ---------------------------------------------------------------------------
  // Inserting tiles

  /** The board after inserting a tile at (x, y), which happens only when the cell is empty. */
  function Inserted(b: seq<TileObject>, d: int, x: int, y: int, value: int): (r: seq<TileObject>)
    requires |b| == d * d && InBoard(d, x, y)
    ensures |r| == |b|
  {
    IdxBounds(d, x, y);
    if b[Idx(d, x, y)].Empty? then b[Idx(d, x, y) := Tile(value)] else b
  }

  /**
   * Inserting fills cell (x, y) when it was empty and keeps every other
   * cell; the total value grows by the new tile, and the cell leaves the
   * list of empty spots.
   */
  lemma InsertedSpec(b: seq<TileObject>, d: nat, x: int, y: int, value: int)
    requires |b| == d * d && InBoard(d, x, y)
    ensures At(Inserted(b, d, x, y, value), d, x, y) == if At(b, d, x, y).Empty? then Tile(value) else At(b, d, x, y)
    ensures forall x', y' :: InBoard(d, x', y') && (x', y') != (x, y) ==>
      At(Inserted(b, d, x, y, value), d, x', y') == At(b, d, x', y')
    ensures TileSum(Inserted(b, d, x, y, value)) == TileSum(b) + if At(b, d, x, y).Empty? then value else 0
    ensures forall x', y' :: (x', y') in EmptySpots(Inserted(b, d, x, y, value), d) <==>
      (x', y') in EmptySpots(b, d) && (x', y') != (x, y)
  {
    IdxBounds(d, x, y);
    var r := Inserted(b, d, x, y, value);
    forall x', y' | InBoard(d, x', y') && (x', y') != (x, y) ensures At(r, d, x', y') == At(b, d, x', y') {
      IdxBounds(d, x', y');
      if Idx(d, x', y') == Idx(d, x, y) {
        IdxInjective(d, x', y', x, y);
      }
    }
    TileSumUpdate(b, Idx(d, x, y), Tile(value));
    EmptySpotsSpec(b, d);
    EmptySpotsSpec(r, d);
  }

  /** arc4random_uniform with the random draw as a parameter: below `upperBound`, and 0 when that is under 2. */
  function ArcRandomUniform(upperBound: int, draw: nat): (r: nat) {
    if upperBound < 2 then 0 else draw % upperBound
  }

  /** The board after inserting a tile at the randomly chosen empty spot, if there is one. */
  function InsertedAtRandom(b: seq<TileObject>, d: nat, value: int, draw: nat): (r: seq<TileObject>)
    requires |b| == d * d
    ensures |r| == |b|
  {
    var spots := EmptySpots(b, d);
    if spots == [] then b
    else
      var s := spots[ArcRandomUniform(|spots| - 1, draw)];
      EmptySpotsSpec(b, d);
      assert s in spots;
      Inserted(b, d, s.0, s.1, value)
  }

  /** A full board is kept; otherwise one cell that was empty receives the tile. */
  lemma InsertedAtRandomSpec(b: seq<TileObject>, d: nat, value: int, draw: nat)
    requires |b| == d * d
    ensures EmptySpots(b, d) == [] ==> InsertedAtRandom(b, d, value, draw) == b
    ensures EmptySpots(b, d) != [] ==>
      exists x, y :: InBoard(d, x, y) && At(b, d, x, y).Empty?
        && InsertedAtRandom(b, d, value, draw) == Inserted(b, d, x, y, value)
        && At(InsertedAtRandom(b, d, value, draw), d, x, y) == Tile(value)
  {
    var spots := EmptySpots(b, d);
    if spots != [] {
      EmptySpotsSpec(b, d);
      var s := spots[ArcRandomUniform(|spots| - 1, draw)];
      assert s in spots;
      InsertedSpec(b, d, s.0, s.1, value);
    }
  }

  /** The random index is drawn below the number of spots minus one, so every empty spot but the last in row-major order can be chosen. */
  lemma RandomSpotReachable(b: seq<TileObject>, d: nat, value: int, k: int)
    requires |b| == d * d && 0 <= k < |EmptySpots(b, d)| - 1
    ensures InBoard(d, EmptySpots(b, d)[k].0, EmptySpots(b, d)[k].1)
    ensures InsertedAtRandom(b, d, value, k) == Inserted(b, d, EmptySpots(b, d)[k].0, EmptySpots(b, d)[k].1, value)
  {
    EmptySpotsSpec(b, d);
    assert EmptySpots(b, d)[k] in EmptySpots(b, d);
    assert ArcRandomUniform(|EmptySpots(b, d)| - 1, k) == k;
  }

  /** With two or more empty spots, the last one in row-major order is never chosen and stays empty. */
  lemma LastSpotStaysEmpty(b: seq<TileObject>, d: nat, value: int, draw: nat)
    requires |b| == d * d && |EmptySpots(b, d)| >= 2
    ensures InBoard(d, EmptySpots(b, d)[|EmptySpots(b, d)| - 1].0, EmptySpots(b, d)[|EmptySpots(b, d)| - 1].1)
    ensures At(InsertedAtRandom(b, d, value, draw), d,
               EmptySpots(b, d)[|EmptySpots(b, d)| - 1].0, EmptySpots(b, d)[|EmptySpots(b, d)| - 1].1).Empty?
  {
    var spots := EmptySpots(b, d);
    EmptySpotsSpec(b, d);
    var m := ArcRandomUniform(|spots| - 1, draw);
    var s := spots[m];
    var last := spots[|spots| - 1];
    assert s in spots && last in spots;
    assert m < |spots| - 1;
    assert last != s;
    InsertedSpec(b, d, s.0, s.1, value);
  }

  // ---------------------------------------------------------------------------
  // The command queue

  /** A queued move and the completion handler to call with its outcome, named by a number. */
  datatype MoveCommand = MoveCommand(direction: MoveDirection, completion: nat)

  /** A completion handler called with whether its move changed the board. */
  datatype Completion = Completion(handler: nat, changed: bool)

  /** What one firing of the timer leaves: board, progression, remaining queue, the handlers called, and whether a move changed the board. */
  datatype Drained = Drained(board: seq<TileObject>, progress: Progress, queue: seq<MoveCommand>, completions: seq<Completion>, changed: bool)

  /** Puts handler calls made earlier in front of a drain's own. */
  function Prepend(done: seq<Completion>, r: Drained): (merged: Drained) {
    r.(completions := done + r.completions)
  }

  /** One firing of the timer: moves are taken from the front of the queue until one changes the board or the queue is empty. */
  function Drain(d: nat, b: seq<TileObject>, p: Progress, q: seq<MoveCommand>): (r: Drained)
    requires |b| == d * d
    ensures |r.board| == d * d
    decreases |q|
  {
    if q == [] then Drained(b, p, [], [], false)
    else
      var m := Moved(d, q[0].direction, b, p);
      if m.changed then Drained(m.board, m.progress, q[1..], [Completion(q[0].completion, true)], true)
      else Prepend([Completion(q[0].completion, false)], Drain(d, m.board, m.progress, q[1..]))
  }

  /** The first step of a drain, seen from a caller that has already made some handler calls. */
  lemma DrainUnfold(d: nat, b: seq<TileObject>, p: Progress, q: seq<MoveCommand>, done: seq<Completion>)
    requires |b| == d * d && q != []
    ensures Moved(d, q[0].direction, b, p).changed ==>
      Prepend(done, Drain(d, b, p, q))
        == Drained(Moved(d, q[0].direction, b, p).board, Moved(d, q[0].direction, b, p).progress, q[1..],
                   done + [Completion(q[0].completion, true)], true)
    ensures !Moved(d, q[0].direction, b, p).changed ==>
      Prepend(done, Drain(d, b, p, q))
        == Prepend(done + [Completion(q[0].completion, false)],
                   Drain(d, Moved(d, q[0].direction, b, p).board, Moved(d, q[0].direction, b, p).progress, q[1..]))
  {
  }

  /**
   * Draining runs commands in queue order: the handlers called are those of
   * a prefix of the queue, in order, and the rest stays queued; only the last
   * handler called can report a change, and the drain reports one exactly
   * when it does; when nothing changed, the whole queue was run and the board
   * is as it was. The total value of the tiles is kept, and so is the
   * progression's validity.
   */
  lemma {:induction false} DrainSpec(d: nat, b: seq<TileObject>, p: Progress, q: seq<MoveCommand>)
    requires |b| == d * d
    ensures |Drain(d, b, p, q).completions| <= |q|
    ensures forall k :: 0 <= k < |Drain(d, b, p, q).completions| ==> Drain(d, b, p, q).completions[k].handler == q[k].completion
    ensures Drain(d, b, p, q).queue == q[|Drain(d, b, p, q).completions|..]
    ensures q != [] ==> |Drain(d, b, p, q).completions| >= 1
    ensures forall k :: 0 <= k < |Drain(d, b, p, q).completions| - 1 ==> !Drain(d, b, p, q).completions[k].changed
    ensures Drain(d, b, p, q).changed
        <==> |Drain(d, b, p, q).completions| > 0 && Drain(d, b, p, q).completions[|Drain(d, b, p, q).completions| - 1].changed
    ensures !Drain(d, b, p, q).changed ==> Drain(d, b, p, q).queue == [] && Drain(d, b, p, q).board == b
    ensures TileSum(Drain(d, b, p, q).board) == TileSum(b)
    ensures ValidProgress(p) ==> ValidProgress(Drain(d, b, p, q).progress)
    decreases |q|
  {
    if q != [] {
      var m := Moved(d, q[0].direction, b, p);
      MoveSpec(d, q[0].direction, b, p);
      if !m.changed {
        DrainSpec(d, m.board, m.progress, q[1..]);
        var rest := Drain(d, m.board, m.progress, q[1..]);
        assert q[1..][|rest.completions|..] == q[1 + |rest.completions|..];
      }
    }
  }
}
