/**
 * The square board: `dimension * dimension` cells stored row-major in one
 * flat sequence, cell (x, y) at index x * dimension + y. Also the lines a move
 * works on, and what writing a line's orders through its coordinates does to
 * the board.
 */
module Board {
  import opened Pipeline
  import opened LineMove

  /**
   * The flat index of cell (x, y), that is x * d + y, spelled as repeated
   * addition so that reasoning about it stays linear.
   */
  function Idx(d: int, x: int, y: int): (r: int)
    decreases if x < 0 then 0 else x
  {
    if x <= 0 then y else Idx(d, x - 1, y) + d
  }

  predicate InBoard(d: int, x: int, y: int) {
    0 <= x < d && 0 <= y < d
  }

  lemma {:induction false} IdxIsRowMajor(d: int, x: nat, y: int)
    ensures Idx(d, x, y) == x * d + y
  {
    if x > 0 {
      IdxIsRowMajor(d, x - 1, y);
      assert (x - 1) * d + d == x * d;
    }
  }

  lemma {:induction false} IdxRow(d: int, x: int, y: int)
    ensures Idx(d, x, y) == Idx(d, x, 0) + y
    decreases if x < 0 then 0 else x
  {
    if x > 0 {
      IdxRow(d, x - 1, y);
    }
  }

  /** Rows lie one after another: row x ends before row x' begins. */
  lemma {:induction false} IdxRowsOrdered(d: nat, x: int, x': int)
    requires 0 <= x < x'
    ensures Idx(d, x, 0) + d <= Idx(d, x', 0)
    ensures 0 <= Idx(d, x, 0)
  {
    if x' > x + 1 {
      IdxRowsOrdered(d, x, x' - 1);
    }
    if x > 0 {
      IdxRowsOrdered(d, x - 1, x);
    }
  }

  lemma IdxBounds(d: int, x: int, y: int)
    requires InBoard(d, x, y)
    ensures 0 <= Idx(d, x, y) < d * d
  {
    IdxRow(d, x, y);
    IdxRowsOrdered(d, x, d);
    IdxIsRowMajor(d, d, 0);
  }

  /** Different cells have different indices. */
  lemma IdxInjective(d: int, x: int, y: int, x': int, y': int)
    requires InBoard(d, x, y) && InBoard(d, x', y')
    requires Idx(d, x, y) == Idx(d, x', y')
    ensures x == x' && y == y'
  {
    IdxRow(d, x, y);
    IdxRow(d, x', y');
    if x != x' {
      IdxRowsOrdered(d, if x < x' then x else x', if x < x' then x' else x);
    }
  }

  /** The content of cell (x, y). */
  function At(b: seq<TileObject>, d: int, x: int, y: int): (r: TileObject)
    requires |b| == d * d && InBoard(d, x, y)
  {
    IdxBounds(d, x, y);
    b[Idx(d, x, y)]
  }

  lemma {:induction false} TileSumUpdate(s: seq<TileObject>, i: int, t: TileObject)
    requires 0 <= i < |s|
    ensures TileSum(s[i := t]) == TileSum(s) - TileValue(s[i]) + TileValue(t)
  {
    var last := |s| - 1;
    if i < last {
      TileSumUpdate(s[..last], i, t);
      assert s[i := t][..last] == s[..last][i := t];
    } else {
      assert s[i := t][..last] == s[..last];
    }
  }

  // ---------------------------------------------------------------------------
  // Lines

  datatype MoveDirection = Up | Down | Left | Right

  /** The cell at position `i` of line `iteration`; position 0 is the edge the tiles slide toward. */
  function Coord(d: int, direction: MoveDirection, iteration: int, i: int): (int, int) {
    match direction
    case Up => (i, iteration)
    case Down => (d - i - 1, iteration)
    case Left => (iteration, i)
    case Right => (iteration, d - i - 1)
  }

  /** The coordinates of line `iteration`, from the edge the tiles slide toward. */
  function LineCoords(d: nat, direction: MoveDirection, iteration: int): (r: seq<(int, int)>) {
    seq(d, i => Coord(d, direction, iteration, i))
  }

  /** The line through cell (x, y) and the cell's position on it: the inverse of Coord. */
  function LinePosition(d: int, direction: MoveDirection, x: int, y: int): (r: (int, int)) {
    match direction
    case Up => (y, x)
    case Down => (y, d - x - 1)
    case Left => (x, y)
    case Right => (x, d - y - 1)
  }

  /** Coordinates that name distinct cells of the board. */
  predicate ValidCoords(d: int, coords: seq<(int, int)>) {
    && (forall k :: 0 <= k < |coords| ==> InBoard(d, coords[k].0, coords[k].1))
    && (forall k, k' :: 0 <= k < k' < |coords| ==> coords[k] != coords[k'])
  }

  /** Each line of a move is a valid line of `d` cells. */
  lemma LineCoordsValid(d: nat, direction: MoveDirection, iteration: int)
    requires 0 <= iteration < d
    ensures |LineCoords(d, direction, iteration)| == d
    ensures ValidCoords(d, LineCoords(d, direction, iteration))
  {
  }

  /** The lines of a move cover the board, each cell exactly once: cell (x, y) is at one position of one line. */
  lemma LinesPartitionBoard(d: nat, direction: MoveDirection, x: int, y: int, iteration: int, i: int)
    requires InBoard(d, x, y) && 0 <= iteration < d && 0 <= i < d
    ensures 0 <= LinePosition(d, direction, x, y).0 < d && 0 <= LinePosition(d, direction, x, y).1 < d
    ensures Coord(d, direction, iteration, i) == (x, y) <==> LinePosition(d, direction, x, y) == (iteration, i)
  {
  }

  /** The cells of a line, read through its coordinates. */
  function LineOf(b: seq<TileObject>, d: int, coords: seq<(int, int)>): (line: seq<TileObject>)
    requires |b| == d * d && ValidCoords(d, coords)
    ensures |line| == |coords|
  {
    seq(|coords|, k requires 0 <= k < |coords| => At(b, d, coords[k].0, coords[k].1))
  }

  /** The flat index of the cell at position `k` of a line. */
  function CellIdx(d: int, coords: seq<(int, int)>, k: int): (r: int)
    requires 0 <= k < |coords|
  {
    Idx(d, coords[k].0, coords[k].1)
  }

  /** One order of the write-back loop, through the line's coordinates. */
  function ApplyBoardOrder(b: seq<TileObject>, d: int, coords: seq<(int, int)>, o: MoveOrder): (r: seq<TileObject>)
    requires |b| == d * d && ValidCoords(d, coords) && InLine(o, |coords|)
    ensures |r| == |b|
  {
    IdxBounds(d, coords[o.destination].0, coords[o.destination].1);
    match o
    case SingleMoveOrder(s, dst, v, _) =>
      IdxBounds(d, coords[s].0, coords[s].1);
      b[CellIdx(d, coords, s) := Empty][CellIdx(d, coords, dst) := Tile(v)]
    case DoubleMoveOrder(s1, s2, dst, v) =>
      IdxBounds(d, coords[s1].0, coords[s1].1);
      IdxBounds(d, coords[s2].0, coords[s2].1);
      b[CellIdx(d, coords, s1) := Empty][CellIdx(d, coords, s2) := Empty][CellIdx(d, coords, dst) := Tile(v)]
  }

  /** The orders of one line written back to the board, first order first. */
  function ApplyBoardOrders(b: seq<TileObject>, d: int, coords: seq<(int, int)>, os: seq<MoveOrder>): (r: seq<TileObject>)
    requires |b| == d * d && ValidCoords(d, coords) && AllInLine(os, |coords|)
    ensures |r| == |b|
  {
    if os == [] then b else ApplyBoardOrder(ApplyBoardOrders(b, d, coords, os[..|os| - 1]), d, coords, os[|os| - 1])
  }

  /** Distinct positions of a valid line are distinct cells of the board. */
  lemma CellIdxInjective(d: int, coords: seq<(int, int)>, k: int, k': int)
    requires ValidCoords(d, coords) && 0 <= k < |coords| && 0 <= k' < |coords|
    ensures 0 <= CellIdx(d, coords, k) < d * d
    ensures CellIdx(d, coords, k) == CellIdx(d, coords, k') <==> k == k'
  {
    IdxBounds(d, coords[k].0, coords[k].1);
    if CellIdx(d, coords, k) == CellIdx(d, coords, k') {
      IdxInjective(d, coords[k].0, coords[k].1, coords[k'].0, coords[k'].1);
    }
  }

  /** A flat index lies on the line when some position of the line names it. */
  predicate OnLine(d: int, coords: seq<(int, int)>, idx: int) {
    exists k :: 0 <= k < |coords| && CellIdx(d, coords, k) == idx
  }

  /** `line` is what the board holds at the line's coordinates. */
  ghost predicate Corresponds(b: seq<TileObject>, d: int, coords: seq<(int, int)>, line: seq<TileObject>) {
    && |line| == |coords|
    && forall k :: 0 <= k < |coords| ==> 0 <= CellIdx(d, coords, k) < |b| && b[CellIdx(d, coords, k)] == line[k]
  }

  lemma LineOfCorresponds(b: seq<TileObject>, d: int, coords: seq<(int, int)>)
    requires |b| == d * d && ValidCoords(d, coords)
    ensures Corresponds(b, d, coords, LineOf(b, d, coords))
  {
    forall k | 0 <= k < |coords| ensures 0 <= CellIdx(d, coords, k) < |b| {
      CellIdxInjective(d, coords, k, k);
    }
  }

  lemma CorrespondsIsLineOf(b: seq<TileObject>, d: int, coords: seq<(int, int)>, line: seq<TileObject>)
    requires |b| == d * d && ValidCoords(d, coords) && Corresponds(b, d, coords, line)
    ensures LineOf(b, d, coords) == line
  {
  }

  /** Writing one cell of the line on the board and in the line keeps them in step, and changes both totals alike. */
  lemma CorrespondsUpdate(b: seq<TileObject>, d: int, coords: seq<(int, int)>, line: seq<TileObject>, k: int, t: TileObject)
    requires ValidCoords(d, coords) && Corresponds(b, d, coords, line) && 0 <= k < |coords|
    ensures Corresponds(b[CellIdx(d, coords, k) := t], d, coords, line[k := t])
    ensures TileSum(b[CellIdx(d, coords, k) := t]) - TileSum(b) == TileSum(line[k := t]) - TileSum(line)
  {
    forall k' | 0 <= k' < |coords| ensures b[CellIdx(d, coords, k) := t][CellIdx(d, coords, k')] == line[k := t][k'] {
      CellIdxInjective(d, coords, k, k');
    }
    TileSumUpdate(b, CellIdx(d, coords, k), t);
    TileSumUpdate(line, k, t);
  }

  /**
   * Writing one order through the line's coordinates does to the line what
   * the order does to the line on its own, and changes the board's total
   * value as much as the line's.
   */
  lemma BoardOrderFollowsLine(b: seq<TileObject>, d: int, coords: seq<(int, int)>, line: seq<TileObject>, o: MoveOrder)
    requires |b| == d * d && ValidCoords(d, coords) && InLine(o, |coords|)
    requires Corresponds(b, d, coords, line)
    ensures Corresponds(ApplyBoardOrder(b, d, coords, o), d, coords, ApplyOrder(line, o))
    ensures TileSum(ApplyBoardOrder(b, d, coords, o)) - TileSum(b) == TileSum(ApplyOrder(line, o)) - TileSum(line)
  {
    match o
    case SingleMoveOrder(s, dst, v, _) =>
      CorrespondsUpdate(b, d, coords, line, s, Empty);
      CorrespondsUpdate(b[CellIdx(d, coords, s) := Empty], d, coords, line[s := Empty], dst, Tile(v));
    case DoubleMoveOrder(s1, s2, dst, v) =>
      CorrespondsUpdate(b, d, coords, line, s1, Empty);
      var b1 := b[CellIdx(d, coords, s1) := Empty];
      CorrespondsUpdate(b1, d, coords, line[s1 := Empty], s2, Empty);
      var b2 := b1[CellIdx(d, coords, s2) := Empty];
      CorrespondsUpdate(b2, d, coords, line[s1 := Empty][s2 := Empty], dst, Tile(v));
  }

  /** An order written through the line's coordinates leaves every cell off the line alone. */
  lemma BoardOrderElsewhere(b: seq<TileObject>, d: int, coords: seq<(int, int)>, o: MoveOrder, idx: int)
    requires |b| == d * d && ValidCoords(d, coords) && InLine(o, |coords|)
    requires 0 <= idx < |b| && !OnLine(d, coords, idx)
    ensures ApplyBoardOrder(b, d, coords, o)[idx] == b[idx]
  {
    assert idx != CellIdx(d, coords, o.destination);
    match o
    case SingleMoveOrder(s, dst, v, _) =>
      assert idx != CellIdx(d, coords, s);
      CellIdxInjective(d, coords, s, dst);
      CellIdxInjective(d, coords, dst, dst);
      assert ApplyBoardOrder(b, d, coords, o) == b[CellIdx(d, coords, s) := Empty][CellIdx(d, coords, dst) := Tile(v)];
    case DoubleMoveOrder(s1, s2, dst, v) =>
      assert idx != CellIdx(d, coords, s1) && idx != CellIdx(d, coords, s2);
      CellIdxInjective(d, coords, s1, dst);
      CellIdxInjective(d, coords, s2, dst);
      CellIdxInjective(d, coords, dst, dst);
      assert ApplyBoardOrder(b, d, coords, o)
          == b[CellIdx(d, coords, s1) := Empty][CellIdx(d, coords, s2) := Empty][CellIdx(d, coords, dst) := Tile(v)];
  }

  /**
   * The orders of a line written back through its coordinates: the board's
   * line becomes the line with the orders applied, every other cell is kept,
   * and the board's total value changes as much as the line's.
   */
  lemma {:induction false} BoardOrdersFollowLine(b: seq<TileObject>, d: int, coords: seq<(int, int)>, os: seq<MoveOrder>)
    requires |b| == d * d && ValidCoords(d, coords) && AllInLine(os, |coords|)
    ensures LineOf(ApplyBoardOrders(b, d, coords, os), d, coords) == ApplyOrders(LineOf(b, d, coords), os)
    ensures forall idx :: 0 <= idx < |b| && !OnLine(d, coords, idx) ==> ApplyBoardOrders(b, d, coords, os)[idx] == b[idx]
    ensures TileSum(ApplyBoardOrders(b, d, coords, os)) - TileSum(b)
         == TileSum(ApplyOrders(LineOf(b, d, coords), os)) - TileSum(LineOf(b, d, coords))
  {
    var line := LineOf(b, d, coords);
    if os == [] {
    } else {
      var prefix := os[..|os| - 1];
      var o := os[|os| - 1];
      BoardOrdersFollowLine(b, d, coords, prefix);
      var mid := ApplyBoardOrders(b, d, coords, prefix);
      LineOfCorresponds(mid, d, coords);
      BoardOrderFollowsLine(mid, d, coords, LineOf(mid, d, coords), o);
      CorrespondsIsLineOf(ApplyBoardOrder(mid, d, coords, o), d, coords, ApplyOrder(LineOf(mid, d, coords), o));
      forall idx | 0 <= idx < |b| && !OnLine(d, coords, idx) ensures ApplyBoardOrders(b, d, coords, os)[idx] == b[idx] {
        BoardOrderElsewhere(mid, d, coords, o, idx);
      }
    }
  }

  // ---------------------------------------------------------------------------
  // Row-major scans

  /** Cell (x, y) comes before position (i, j) of a row-major scan. */
  predicate ScannedBefore(x: int, y: int, i: int, j: int) {
    x < i || (x == i && y < j)
  }

  /** The positions a row-major scan of a `d` by `d` board may stop at. */
  predicate ScanPoint(d: int, i: int, j: int) {
    0 <= i <= d && 0 <= j <= d && (i == d ==> j == 0)
  }

  /** The empty cells a row-major scan has listed on reaching position (i, j). */
  function SpotsBefore(b: seq<TileObject>, d: int, i: int, j: int): (r: seq<(int, int)>)
    requires |b| == d * d && ScanPoint(d, i, j)
    decreases i, j
  {
    if j == 0 then
      if i == 0 then [] else SpotsBefore(b, d, i - 1, d)
    else
      SpotsBefore(b, d, i, j - 1) + if At(b, d, i, j - 1).Empty? then [(i, j - 1)] else []
  }

  /** The empty cells of the board, in row-major order. */
  function EmptySpots(b: seq<TileObject>, d: int): (r: seq<(int, int)>)
    requires |b| == d * d && 0 <= d
  {
    SpotsBefore(b, d, d, 0)
  }

  /** The spots listed so far are exactly the empty cells scanned so far, each once, in row-major order. */
  lemma {:induction false} SpotsBeforeSpec(b: seq<TileObject>, d: int, i: int, j: int)
    requires |b| == d * d && ScanPoint(d, i, j)
    ensures forall x, y :: (x, y) in SpotsBefore(b, d, i, j) <==>
      InBoard(d, x, y) && ScannedBefore(x, y, i, j) && At(b, d, x, y).Empty?
    ensures forall m, m' :: 0 <= m < m' < |SpotsBefore(b, d, i, j)| ==>
      ScannedBefore(SpotsBefore(b, d, i, j)[m].0, SpotsBefore(b, d, i, j)[m].1,
                    SpotsBefore(b, d, i, j)[m'].0, SpotsBefore(b, d, i, j)[m'].1)
    decreases i, j
  {
    if j == 0 {
      if i > 0 {
        SpotsBeforeSpec(b, d, i - 1, d);
      }
    } else {
      SpotsBeforeSpec(b, d, i, j - 1);
    }
  }

  /** The list of empty spots names every empty cell once, in row-major order, and nothing else. */
  lemma EmptySpotsSpec(b: seq<TileObject>, d: int)
    requires |b| == d * d && 0 <= d
    ensures forall x, y :: (x, y) in EmptySpots(b, d) <==> InBoard(d, x, y) && At(b, d, x, y).Empty?
    ensures forall m, m' :: 0 <= m < m' < |EmptySpots(b, d)| ==> EmptySpots(b, d)[m] != EmptySpots(b, d)[m']
  {
    SpotsBeforeSpec(b, d, d, 0);
  }

  /** The highest tile value a row-major scan has seen on reaching position (i, j), starting from 1. */
  function ReachedBefore(b: seq<TileObject>, d: int, i: int, j: int): (r: int)
    requires |b| == d * d && ScanPoint(d, i, j)
    decreases i, j
  {
    if j == 0 then
      if i == 0 then 1 else ReachedBefore(b, d, i - 1, d)
    else
      var temp := ReachedBefore(b, d, i, j - 1);
      match At(b, d, i, j - 1)
      case Tile(v) => if v >= temp then v else temp
      case Empty => temp
  }

  /** The highest tile value on the board, or 1 when no tile is higher. */
  function Reached(b: seq<TileObject>, d: int): (r: int)
    requires |b| == d * d && 0 <= d
  {
    ReachedBefore(b, d, d, 0)
  }

  /** The scan keeps the maximum of 1 and the tile values scanned so far. */
  lemma {:induction false} ReachedBeforeSpec(b: seq<TileObject>, d: int, i: int, j: int)
    requires |b| == d * d && ScanPoint(d, i, j)
    ensures ReachedBefore(b, d, i, j) >= 1
    ensures forall x, y :: InBoard(d, x, y) && ScannedBefore(x, y, i, j) && At(b, d, x, y).Tile? ==>
      At(b, d, x, y).value <= ReachedBefore(b, d, i, j)
    ensures ReachedBefore(b, d, i, j) == 1 ||
      exists x, y :: InBoard(d, x, y) && ScannedBefore(x, y, i, j) && At(b, d, x, y) == Tile(ReachedBefore(b, d, i, j))
    decreases i, j
  {
    if j == 0 {
      if i > 0 {
        ReachedBeforeSpec(b, d, i - 1, d);
      }
    } else {
      ReachedBeforeSpec(b, d, i, j - 1);
    }
  }

  /** Reached is the highest tile value, or 1 when every tile is below 1 or the board is empty. */
  lemma ReachedIsMax(b: seq<TileObject>, d: int)
    requires |b| == d * d && 0 <= d
    ensures Reached(b, d) >= 1
    ensures forall x, y :: InBoard(d, x, y) && At(b, d, x, y).Tile? ==> At(b, d, x, y).value <= Reached(b, d)
    ensures Reached(b, d) == 1 || exists x, y :: InBoard(d, x, y) && At(b, d, x, y) == Tile(Reached(b, d))
  {
    ReachedBeforeSpec(b, d, d, 0);
  }
}
