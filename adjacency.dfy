/**
 * The adjacency rule of the Fibonacci tile game: two tile values may merge
 * exactly when they are consecutive terms of the game's Fibonacci table.
 */
module Adjacency {

  /** The Fibonacci terms the game knows, smallest first. 1 is listed twice, so 1 pairs with 1 and with 2. */
  const FibTable: seq<int> := [1, 1, 2, 3, 5, 8, 13, 21, 34, 55, 89, 144, 233, 377, 610]

  /** `a` and `b` are consecutive entries of FibTable, in either order. */
  ghost predicate FibAdjacent(a: int, b: int) {
    exists i :: 0 <= i < |FibTable| - 1 &&
      ((FibTable[i] == a && FibTable[i + 1] == b) || (FibTable[i] == b && FibTable[i + 1] == a))
  }

  /**
   * The merge test, keyed by `number2` as the switch in GameModel2's isFibSum is: `number1`
   * must be the predecessor or the successor of `number2` in the table.
   */
  function IsFibSum(number1: int, number2: int): (r: bool)
  {
    match number2
    case 1 => number1 == 1 || number1 == 2
    case 2 => number1 == 1 || number1 == 3
    case 3 => number1 == 2 || number1 == 5
    case 5 => number1 == 3 || number1 == 8
    case 8 => number1 == 5 || number1 == 13
    case 13 => number1 == 8 || number1 == 21
    case 21 => number1 == 13 || number1 == 34
    case 34 => number1 == 21 || number1 == 55
    case 55 => number1 == 34 || number1 == 89
    case 89 => number1 == 55 || number1 == 144
    case 144 => number1 == 89 || number1 == 233
    case 233 => number1 == 144 || number1 == 377
    case 377 => number1 == 233 || number1 == 610
    case 610 => number1 == 377
    case _ => false
  }

  /** FibAdjacent spelled out pair by pair. */
  lemma TableAdjacency(a: int, b: int)
    ensures FibAdjacent(a, b) <==>
      (a, b) in {(1, 1), (1, 2), (2, 1), (2, 3), (3, 2), (3, 5), (5, 3), (5, 8), (8, 5), (8, 13), (13, 8),
                 (13, 21), (21, 13), (21, 34), (34, 21), (34, 55), (55, 34), (55, 89), (89, 55), (89, 144),
                 (144, 89), (144, 233), (233, 144), (233, 377), (377, 233), (377, 610), (610, 377)}
  {
    if FibAdjacent(a, b) {
      var i :| 0 <= i < |FibTable| - 1 &&
        ((FibTable[i] == a && FibTable[i + 1] == b) || (FibTable[i] == b && FibTable[i + 1] == a));
      assert i in {0, 1, 2, 3, 4, 5, 6, 7, 8, 9, 10, 11, 12, 13};
    } else {
      // Mention every entry so that each pair is a candidate witness.
      assert FibTable[0] == 1 && FibTable[1] == 1 && FibTable[2] == 2 && FibTable[3] == 3 && FibTable[4] == 5;
      assert FibTable[5] == 8 && FibTable[6] == 13 && FibTable[7] == 21 && FibTable[8] == 34 && FibTable[9] == 55;
      assert FibTable[10] == 89 && FibTable[11] == 144 && FibTable[12] == 233 && FibTable[13] == 377;
      assert FibTable[14] == 610;
    }
  }

  /** The switch accepts exactly the consecutive pairs of the table. */
  lemma IsFibSumMatchesTable(number1: int, number2: int)
    ensures IsFibSum(number1, number2) <==> FibAdjacent(number1, number2)
  {
    TableAdjacency(number1, number2);
  }

  /** The rule does not depend on the order of its arguments. */
  lemma IsFibSumSymmetric(a: int, b: int)
    ensures IsFibSum(a, b) == IsFibSum(b, a)
  {
  }

  /** A value merges with itself only when it is 1. */
  lemma IsFibSumSelf(v: int)
    ensures IsFibSum(v, v) <==> v == 1
  {
  }

  /** Values outside the table never merge; in particular 610 does not merge with 987. */
  lemma IsFibSumOutsideTable(a: int, b: int)
    requires a !in FibTable || b !in FibTable
    ensures !IsFibSum(a, b)
  {
  }
}
