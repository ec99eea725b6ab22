/**
 * What the move orders of one line do to that line. The write-back loop of a
 * move empties each order's source cells and then writes the merged or moved
 * tile at its destination, order after order. The main theorem says that the
 * orders produced for a line leave it packed: the collapsed tiles, in order,
 * at the front, and empty cells behind them.
 */
module LineMove {
  import opened Adjacency
  import opened Pipeline

  /** All cells an order names lie within a line of length `n`. */
  predicate InLine(o: MoveOrder, n: int) {
    match o
    case SingleMoveOrder(s, d, _, _) => 0 <= s < n && 0 <= d < n
    case DoubleMoveOrder(s1, s2, d, _) => 0 <= s1 < n && 0 <= s2 < n && 0 <= d < n
  }

  predicate AllInLine(os: seq<MoveOrder>, n: int) {
    forall m :: 0 <= m < |os| ==> InLine(os[m], n)
  }

  /** Whether an order writes cell `q`, as a source it empties or as its destination. */
  predicate Touches(o: MoveOrder, q: int) {
    || q == o.destination
    || (o.SingleMoveOrder? && q == o.source)
    || (o.DoubleMoveOrder? && (q == o.firstSource || q == o.secondSource))
  }

  /** What an order leaves in a cell it touches: its tile at the destination, nothing at a source. */
  function Effect(o: MoveOrder, q: int): (r: TileObject) {
    if q == o.destination then Tile(o.value) else Empty
  }

  /** One order of the write-back loop: the sources are emptied, then the destination receives the tile. */
  function ApplyOrder(line: seq<TileObject>, o: MoveOrder): (r: seq<TileObject>)
    requires InLine(o, |line|)
    ensures |r| == |line|
    ensures forall q :: 0 <= q < |line| ==> r[q] == if Touches(o, q) then Effect(o, q) else line[q]
  {
    match o
    case SingleMoveOrder(s, d, v, _) => line[s := Empty][d := Tile(v)]
    case DoubleMoveOrder(s1, s2, d, v) => line[s1 := Empty][s2 := Empty][d := Tile(v)]
  }

  /** The orders applied one after another, first order first. */
  function ApplyOrders(line: seq<TileObject>, os: seq<MoveOrder>): (r: seq<TileObject>)
    requires AllInLine(os, |line|)
    ensures |r| == |line|
  {
    if os == [] then line else ApplyOrder(ApplyOrders(line, os[..|os| - 1]), os[|os| - 1])
  }

  /** A cell no order touches keeps its content. */
  lemma {:induction false} ApplyUntouched(line: seq<TileObject>, os: seq<MoveOrder>, q: int)
    requires AllInLine(os, |line|) && 0 <= q < |line|
    requires forall m :: 0 <= m < |os| ==> !Touches(os[m], q)
    ensures ApplyOrders(line, os)[q] == line[q]
  {
    if os != [] {
      ApplyUntouched(line, os[..|os| - 1], q);
    }
  }

  /** A cell ends up with what the last order touching it left there. */
  lemma {:induction false} ApplyLastTouch(line: seq<TileObject>, os: seq<MoveOrder>, q: int, m: int)
    requires AllInLine(os, |line|) && 0 <= q < |line|
    requires 0 <= m < |os| && Touches(os[m], q)
    requires forall m' :: m < m' < |os| ==> !Touches(os[m'], q)
    ensures ApplyOrders(line, os)[q] == Effect(os[m], q)
  {
    if m < |os| - 1 {
      ApplyLastTouch(line, os[..|os| - 1], q, m);
    }
  }

  /** Among the orders touching a cell, there is a last one. */
  lemma {:induction false} LastToucher(os: seq<MoveOrder>, q: int, m0: int) returns (m: int)
    requires 0 <= m0 < |os| && Touches(os[m0], q)
    ensures m0 <= m < |os| && Touches(os[m], q)
    ensures forall m' :: m < m' < |os| ==> !Touches(os[m'], q)
    decreases |os| - m0
  {
    if forall m' :: m0 < m' < |os| ==> !Touches(os[m'], q) {
      m := m0;
    } else {
      var m1 :| m0 < m1 < |os| && Touches(os[m1], q);
      m := LastToucher(os, q, m1);
    }
  }

  /** The cells of a line that a collapsed token's order empties. */
  predicate Cleared(t: ActionToken, q: int) {
    match t
    case NoAction(_, _) => false
    case Move(s, _) => q == s
    case SingleCombine(s, _) => q == s
    case DoubleCombine(s1, s2, _) => q == s1 || q == s2
  }

  /** The line after the move: the collapsed tiles, in order, from the edge, then empty cells. */
  function Packed(out: seq<ActionToken>, n: nat): (r: seq<TileObject>)
    requires |out| <= n
  {
    seq(n, p requires 0 <= p < n => if p < |out| then Tile(out[p].value) else Empty)
  }

  /** The packed line carries the collapsed tokens' values. */
  lemma {:induction false} PackedSum(out: seq<ActionToken>, n: nat)
    requires |out| <= n
    ensures TileSum(Packed(out, n)) == TokenSum(out)
    decreases n
  {
    if n > 0 {
      var r := Packed(out, n);
      if |out| < n {
        PackedSum(out, n - 1);
        assert r[..n - 1] == Packed(out, n - 1);
      } else {
        var prefix := out[..n - 1];
        PackedSum(prefix, n - 1);
        assert r[..n - 1] == Packed(prefix, n - 1);
        assert prefix == out[..|out| - 1];
      }
    }
  }

  // ---------------------------------------------------------------------------
  // Where the tiles of each collapsed token come from

  /** Where the input tokens of output position `p` start. */
  function Start(out: seq<ActionToken>, p: int): (r: nat)
    requires 0 <= p <= |out|
  {
    Consumed(out[..p])
  }

  /** Each output token stands for at least one input token. */
  lemma {:induction false} StartAtLeast(out: seq<ActionToken>, p: int)
    requires 0 <= p <= |out|
    ensures Start(out, p) >= p
  {
    if p > 0 {
      StartStep(out, p - 1);
      StartAtLeast(out, p - 1);
    }
  }

  lemma StartStep(out: seq<ActionToken>, p: int)
    requires 0 <= p < |out|
    ensures Start(out, p + 1) == Start(out, p) + Width(out[p])
  {
    assert out[..p + 1] == out[..p] + [out[p]];
    ConsumedAppend(out[..p], out[p]);
  }

  /** The blocks of later output positions start after the block of an earlier one ends. */
  lemma {:induction false} ConsumedGrowth(out: seq<ActionToken>, p: int, p': int)
    requires 0 <= p < p' <= |out|
    ensures Start(out, p) + Width(out[p]) <= Start(out, p')
    decreases p' - p
  {
    StartStep(out, p);
    if p' > p + 1 {
      ConsumedGrowth(out, p + 1, p');
    }
  }

  lemma ConsumedWhole(out: seq<ActionToken>)
    ensures Start(out, |out|) == Consumed(out)
  {
    assert out[..|out|] == out;
  }

  /** Every input position below `Consumed(out)` belongs to the block of some output position. */
  lemma {:induction false} Locate(out: seq<ActionToken>, i: int) returns (p: int)
    requires 0 <= i < Consumed(out)
    ensures 0 <= p < |out| && Start(out, p) <= i < Start(out, p) + Width(out[p])
  {
    var last := |out| - 1;
    var prefix := out[..last];
    assert out == prefix + [out[last]];
    ConsumedAppend(prefix, out[last]);
    assert Start(out, last) == Consumed(prefix);
    if i >= Consumed(prefix) {
      p := last;
    } else {
      p := Locate(prefix, i);
      assert out[..p] == prefix[..p];
    }
  }

  /**
   * The input tokens behind output position `p`, which starts at input
   * position `j`: its value is theirs; a NoAction or single combine keeps the
   * tile at cell `p`; a move or a double combine takes its first tile from
   * a cell beyond `p`.
   */
  lemma BlockCells(line: seq<TileObject>, c: seq<ActionToken>, rm: int, out: seq<ActionToken>, p: int, j: int)
    requires CondenseShape(line, c) && CollapseBlocks(c, rm, out)
    requires 0 <= p < |out| && j == Start(out, p)
    ensures p <= j && j + Width(out[p]) <= |c|
    ensures out[p].value == c[j].value + (if Width(out[p]) == 2 then c[j + 1].value else 0)
    ensures out[p].NoAction? ==> j == p && c[j].source == p && out[p] == c[j]
    ensures out[p].SingleCombine? ==> c[j].source == p && out[p].source == c[j + 1].source
    ensures out[p].Move? ==> out[p].source == c[j].source && c[j].source > p
    ensures out[p].DoubleCombine? ==> out[p].source == c[j].source && out[p].second == c[j + 1].source && c[j].source > p
  {
    StartAtLeast(out, p);
    ConsumedGrowth(out, p, |out|);
    ConsumedWhole(out);
    assert Block(c, rm, p, j, out[p]);
    assert c[j].source >= j by {
      CondenseOrder(line, c);
    }
    assert c[j].NoAction? <==> c[j].source == j;
    BlockFacts(c, rm, p, j, out[p]);
  }

  /** BlockCells for one block, from the facts about its own input tokens. */
  lemma BlockFacts(c: seq<ActionToken>, rm: int, p: int, j: int, t: ActionToken)
    requires Block(c, rm, p, j, t) && p <= j
    requires c[j].source >= j && (c[j].NoAction? <==> c[j].source == j)
    ensures t.value == c[j].value + (if Width(t) == 2 then c[j + 1].value else 0)
    ensures t.NoAction? ==> j == p && c[j].source == p && t == c[j]
    ensures t.SingleCombine? ==> c[j].source == p && t.source == c[j + 1].source
    ensures t.Move? ==> t.source == c[j].source && c[j].source > p
    ensures t.DoubleCombine? ==> t.source == c[j].source && t.second == c[j + 1].source && c[j].source > p
  {
  }

  /** The cells whose tiles output position `p` takes. */
  ghost predicate Owns(c: seq<ActionToken>, out: seq<ActionToken>, p: int, q: int)
    requires 0 <= p < |out|
  {
    var j := Start(out, p);
    || (j < |c| && q == c[j].source)
    || (Width(out[p]) == 2 && j + 1 < |c| && q == c[j + 1].source)
  }

  /** Different output positions take tiles from different cells, in the same order. */
  lemma OwnsOrdered(line: seq<TileObject>, c: seq<ActionToken>, rm: int, out: seq<ActionToken>, p: int, p': int, q: int, q': int)
    requires CondenseShape(line, c) && CollapseBlocks(c, rm, out)
    requires 0 <= p < p' < |out|
    requires Owns(c, out, p, q) && Owns(c, out, p', q')
    ensures q < q'
  {
    ConsumedGrowth(out, p, p');
    BlockCells(line, c, rm, out, p', Start(out, p'));
  }

  /** An order empties only cells its output position takes, and only beyond that position. */
  lemma ClearedOwned(line: seq<TileObject>, c: seq<ActionToken>, rm: int, out: seq<ActionToken>, p: int, q: int)
    requires CondenseShape(line, c) && CollapseBlocks(c, rm, out)
    requires 0 <= p < |out| && Cleared(out[p], q)
    ensures Owns(c, out, p, q) && p < q
  {
    var j := Start(out, p);
    BlockCells(line, c, rm, out, p, j);
    if out[p].SingleCombine? {
      SourcesIncrease(line, c, j, j + 1);
    } else if out[p].DoubleCombine? {
      SourcesIncrease(line, c, j, j + 1);
    }
  }

  lemma SourcesIncrease(line: seq<TileObject>, c: seq<ActionToken>, i: int, i': int)
    requires CondenseShape(line, c) && 0 <= i < i' < |c|
    ensures c[i].source < c[i'].source
  {
  }

  /** The orders of a line name only cells of the line. */
  lemma OrdersInLine(line: seq<TileObject>, c: seq<ActionToken>, rm: int, out: seq<ActionToken>, os: seq<MoveOrder>)
    requires CondenseShape(line, c) && CollapseBlocks(c, rm, out) && ConvertShape(out, os)
    ensures |out| <= |c| <= |line|
    ensures AllInLine(os, |line|)
  {
    StartAtLeast(out, |out|);
    ConsumedWhole(out);
    CondenseLength(line, c);
    forall m | 0 <= m < |os| ensures InLine(os[m], |line|) {
      var p := os[m].destination;
      BlockCells(line, c, rm, out, p, Start(out, p));
    }
  }

  lemma CondenseLength(line: seq<TileObject>, c: seq<ActionToken>)
    requires CondenseShape(line, c)
    ensures |c| <= |line|
  {
    if |c| > 0 {
      CondenseOrder(line, c);
    }
  }

  /** The cells the orders touch, in terms of the collapsed tokens. */
  lemma TouchesToken(out: seq<ActionToken>, os: seq<MoveOrder>, m: int, q: int)
    requires ConvertShape(out, os) && 0 <= m < |os|
    ensures 0 <= os[m].destination < |out| && !out[os[m].destination].NoAction?
    ensures Touches(os[m], q) <==> q == os[m].destination || Cleared(out[os[m].destination], q)
    ensures Effect(os[m], q) == if q == os[m].destination then Tile(out[q].value) else Empty
  {
    assert os[m] == OrderFor(out[os[m].destination], os[m].destination);
  }

  /** Cell `q` of a position the collapsed tokens fill with a moved or merged tile gets that tile. */
  lemma CellFilled(line: seq<TileObject>, c: seq<ActionToken>, rm: int, out: seq<ActionToken>, os: seq<MoveOrder>, q: int)
    requires CondenseShape(line, c) && CollapseBlocks(c, rm, out) && ConvertShape(out, os)
    requires AllInLine(os, |line|) && 0 <= q < |out| <= |line| && !out[q].NoAction?
    ensures ApplyOrders(line, os)[q] == Tile(out[q].value)
  {
    var m :| 0 <= m < |os| && os[m].destination == q;
    forall m' | m < m' < |os| ensures !Touches(os[m'], q) {
      TouchesToken(out, os, m', q);
      if Cleared(out[os[m'].destination], q) {
        ClearedOwned(line, c, rm, out, os[m'].destination, q);
      }
    }
    TouchesToken(out, os, m, q);
    ApplyLastTouch(line, os, q, m);
  }

  /** Cell `q` of a NoAction position keeps its tile: no order touches it. */
  lemma CellKept(line: seq<TileObject>, c: seq<ActionToken>, rm: int, out: seq<ActionToken>, os: seq<MoveOrder>, q: int)
    requires CondenseShape(line, c) && CollapseBlocks(c, rm, out) && ConvertShape(out, os)
    requires AllInLine(os, |line|) && 0 <= q < |out| <= |line| && out[q].NoAction?
    ensures ApplyOrders(line, os)[q] == Tile(out[q].value)
  {
    BlockCells(line, c, rm, out, q, Start(out, q));
    assert Owns(c, out, q, q);
    forall m | 0 <= m < |os| ensures !Touches(os[m], q) {
      TouchesToken(out, os, m, q);
      var p := os[m].destination;
      if Cleared(out[p], q) {
        ClearedOwned(line, c, rm, out, p, q);
        if p < q {
          OwnsOrdered(line, c, rm, out, p, q, q, q);
        } else {
          OwnsOrdered(line, c, rm, out, q, p, q, q);
        }
      }
    }
    ApplyUntouched(line, os, q);
  }

  /** A tile that lies behind the packed tiles is emptied by some order. */
  lemma TileCleared(line: seq<TileObject>, c: seq<ActionToken>, rm: int, out: seq<ActionToken>, os: seq<MoveOrder>, q: int)
    returns (m: int)
    requires CondenseShape(line, c) && CollapseBlocks(c, rm, out) && ConvertShape(out, os)
    requires |out| <= q < |line| && line[q].Tile?
    ensures 0 <= m < |os| && Touches(os[m], q)
  {
    // The tile at q went into some collapsed token, whose order empties q.
    assert CompleteIn(line, c, |line|);
    var i :| 0 <= i < |c| && c[i].source == q;
    ConsumedWhole(out);
    var p := Locate(out, i);
    var j := Start(out, p);
    BlockCells(line, c, rm, out, p, j);
    assert 0 <= j <= i < j + Width(out[p]) <= |c|;
    assert p < q;
    assert c[i].source == q;
    ClearedFromBlock(c, out[p], p, j, i, q);
    assert OrdersCompleteIn(out, os, |out|);
    m :| 0 <= m < |os| && os[m].destination == p;
    TouchesToken(out, os, m, q);
  }

  /** A cell beyond position `p` whose tile went into the token at `p` is emptied by that token's order. */
  lemma ClearedFromBlock(c: seq<ActionToken>, t: ActionToken, p: int, j: int, i: int, q: int)
    requires 0 <= j <= i < j + Width(t) <= |c| && c[i].source == q && p < q
    requires t.NoAction? ==> c[j].source == p
    requires t.SingleCombine? ==> c[j].source == p && t.source == c[j + 1].source
    requires t.Move? ==> t.source == c[j].source
    requires t.DoubleCombine? ==> t.source == c[j].source && t.second == c[j + 1].source
    ensures Cleared(t, q)
  {
  }

  /** An empty cell that orders only empty stays empty. */
  lemma {:induction false} ApplyKeepsEmpty(line: seq<TileObject>, os: seq<MoveOrder>, q: int)
    requires AllInLine(os, |line|) && 0 <= q < |line| && line[q] == Empty
    requires forall m :: 0 <= m < |os| && Touches(os[m], q) ==> Effect(os[m], q) == Empty
    ensures ApplyOrders(line, os)[q] == Empty
  {
    if os != [] {
      ApplyKeepsEmpty(line, os[..|os| - 1], q);
    }
  }

  /** A cell behind the packed tiles ends up empty. */
  lemma CellEmptied(line: seq<TileObject>, c: seq<ActionToken>, rm: int, out: seq<ActionToken>, os: seq<MoveOrder>, q: int)
    requires CondenseShape(line, c) && CollapseBlocks(c, rm, out) && ConvertShape(out, os)
    requires AllInLine(os, |line|) && |out| <= q < |line|
    ensures ApplyOrders(line, os)[q] == Empty
  {
    forall m | 0 <= m < |os| && Touches(os[m], q) ensures Effect(os[m], q) == Empty {
      TouchesToken(out, os, m, q);
    }
    if line[q].Tile? {
      var m0 := TileCleared(line, c, rm, out, os, q);
      var m := LastToucher(os, q, m0);
      ApplyLastTouch(line, os, q, m);
    } else {
      ApplyKeepsEmpty(line, os, q);
    }
  }

  /**
   * The orders of a line leave it packed: the collapsed tokens' tiles, in
   * order, from the edge the tiles slide toward, and empty cells behind them.
   */
  lemma MergePacks(line: seq<TileObject>, rm: int)
    ensures |Collapsed(Condensed(line), rm)| <= |line|
    ensures AllInLine(Merged(line, rm), |line|)
    ensures ApplyOrders(line, Merged(line, rm)) == Packed(Collapsed(Condensed(line), rm), |line|)
  {
    var c := Condensed(line);
    CondenseTokens(line);
    var out := Collapsed(c, rm);
    CollapseCoversInput(c, rm);
    var os := Converted(out);
    ConvertOrders(out);
    OrdersInLine(line, c, rm, out, os);
    OrdersPack(line, c, rm, out, os);
  }

  /** MergePacks, cell by cell, for tokens and orders of the shapes the pipeline produces. */
  lemma OrdersPack(line: seq<TileObject>, c: seq<ActionToken>, rm: int, out: seq<ActionToken>, os: seq<MoveOrder>)
    requires CondenseShape(line, c) && CollapseBlocks(c, rm, out) && ConvertShape(out, os)
    requires AllInLine(os, |line|) && |out| <= |line|
    ensures ApplyOrders(line, os) == Packed(out, |line|)
  {
    forall q | 0 <= q < |line| ensures ApplyOrders(line, os)[q] == Packed(out, |line|)[q] {
      if q >= |out| {
        CellEmptied(line, c, rm, out, os, q);
      } else if out[q].NoAction? {
        CellKept(line, c, rm, out, os, q);
      } else {
        CellFilled(line, c, rm, out, os, q);
      }
    }
  }

  /** A move neither creates nor destroys value: merged tiles carry the sum of their parts. */
  lemma MergeConserves(line: seq<TileObject>, rm: int)
    ensures AllInLine(Merged(line, rm), |line|)
    ensures TileSum(ApplyOrders(line, Merged(line, rm))) == TileSum(line)
  {
    var c := Condensed(line);
    CondenseTokens(line);
    CollapseCoversInput(c, rm);
    MergePacks(line, rm);
    PackedSum(Collapsed(c, rm), |line|);
  }

  /** An order carries its tiles toward the edge: every source lies beyond the destination. */
  predicate Slides(o: MoveOrder) {
    match o
    case SingleMoveOrder(s, d, _, _) => d < s
    case DoubleMoveOrder(s1, s2, d, _) => d < s1 && d < s2
  }

  /** Every order of a line moves its tiles toward the edge the move slides them to. */
  lemma MergeSlides(line: seq<TileObject>, rm: int)
    ensures forall m :: 0 <= m < |Merged(line, rm)| ==> Slides(Merged(line, rm)[m])
  {
    var c := Condensed(line);
    CondenseTokens(line);
    var out := Collapsed(c, rm);
    CollapseCoversInput(c, rm);
    var os := Converted(out);
    ConvertOrders(out);
    forall m | 0 <= m < |os| ensures Slides(os[m]) {
      var p := os[m].destination;
      assert 0 <= p < |out| && !out[p].NoAction? && os[m] == OrderFor(out[p], p);
      match out[p]
      case Move(s, _) =>
        ClearedOwned(line, c, rm, out, p, s);
      case SingleCombine(s, _) =>
        ClearedOwned(line, c, rm, out, p, s);
      case DoubleCombine(s1, s2, _) =>
        ClearedOwned(line, c, rm, out, p, s1);
        ClearedOwned(line, c, rm, out, p, s2);
    }
  }

  /**
   * A line is settled when its tiles already sit against the edge, with no
   * gap, and, while merges are allowed, no two neighbouring tiles may merge.
   */
  ghost predicate Settled(line: seq<TileObject>, rm: int) {
    && (forall i, k :: 0 <= i < k < |line| && line[i].Empty? ==> line[k].Empty?)
    && (rm > 0 ==>
          forall i :: 0 <= i < |line| - 1 && line[i].Tile? && line[i + 1].Tile? ==> !IsFibSum(line[i].value, line[i + 1].value))
  }

  /** Every collapsed token is a NoAction standing for the input token at its own position. */
  ghost predicate AllStay(c: seq<ActionToken>, out: seq<ActionToken>) {
    && |out| == |c|
    && forall p :: 0 <= p < |out| ==> out[p].NoAction? && out[p] == c[p]
  }

  /** When every condensed token is unmoved and none can merge, collapse keeps them all as NoAction. */
  lemma {:induction false} StayPrefix(c: seq<ActionToken>, rm: int, out: seq<ActionToken>, n: int)
    requires CollapseBlocks(c, rm, out) && 0 <= n <= |out|
    requires forall k :: 0 <= k < |c| ==> c[k].NoAction? && c[k].source == k && !CanMerge(c, rm, k)
    ensures Start(out, n) == n
    ensures forall p :: 0 <= p < n ==> out[p].NoAction? && out[p] == c[p]
  {
    if n > 0 {
      StayPrefix(c, rm, out, n - 1);
      BlockAt(c, rm, out, n - 1);
      StayBlock(c, rm, n - 1, out[n - 1]);
      StartStep(out, n - 1);
      assert forall p :: 0 <= p < n - 1 ==> out[p].NoAction? && out[p] == c[p];
      assert out[n - 1].NoAction? && out[n - 1] == c[n - 1];
    }
  }

  lemma BlockAt(c: seq<ActionToken>, rm: int, out: seq<ActionToken>, p: int)
    requires CollapseBlocks(c, rm, out) && 0 <= p < |out|
    ensures Block(c, rm, p, Start(out, p), out[p])
  {
  }

  lemma StayBlock(c: seq<ActionToken>, rm: int, p: int, t: ActionToken)
    requires Block(c, rm, p, p, t)
    requires c[p].NoAction? && c[p].source == p && !CanMerge(c, rm, p)
    ensures t.NoAction? && t == c[p]
  {
  }

  /** When collapse keeps every token as NoAction, each block is one unmoved token that could not merge. */
  lemma {:induction false} StayedPrefix(c: seq<ActionToken>, rm: int, out: seq<ActionToken>, n: int)
    requires CollapseBlocks(c, rm, out) && 0 <= n <= |out|
    requires forall p :: 0 <= p < |out| ==> out[p].NoAction?
    ensures Start(out, n) == n
    ensures forall p :: 0 <= p < n ==> out[p] == c[p] && c[p].source == p && !CanMerge(c, rm, p)
  {
    if n > 0 {
      StayedPrefix(c, rm, out, n - 1);
      assert Block(c, rm, n - 1, Start(out, n - 1), out[n - 1]);
      StartStep(out, n - 1);
    }
  }

  /** A settled line condenses to unmoved tokens that cannot merge. */
  lemma SettledTokens(line: seq<TileObject>, c: seq<ActionToken>, rm: int)
    requires CondenseShape(line, c) && Settled(line, rm)
    ensures forall k :: 0 <= k < |c| ==> c[k].NoAction? && c[k].source == k && !CanMerge(c, rm, k)
  {
    forall k | 0 <= k < |c| ensures c[k].NoAction? && c[k].source == k {
      assert line[c[k].source].Tile?;
    }
    forall k | 0 <= k < |c| ensures !CanMerge(c, rm, k) {
      if k + 1 < |c| {
        assert line[k] == Tile(c[k].value) && line[k + 1] == Tile(c[k + 1].value);
      }
    }
  }

  /** A line whose tokens all stay unmoved and unmerged is settled. */
  lemma StayedSettled(line: seq<TileObject>, c: seq<ActionToken>, rm: int)
    requires CondenseShape(line, c)
    requires forall k :: 0 <= k < |c| ==> c[k].source == k && !CanMerge(c, rm, k)
    ensures Settled(line, rm)
  {
    if rm > 0 {
      forall i | 0 <= i < |line| - 1 && line[i].Tile? && line[i + 1].Tile? ensures !IsFibSum(line[i].value, line[i + 1].value) {
        var m :| 0 <= m < |c| && c[m].source == i + 1;
        assert !CanMerge(c, rm, i);
      }
    }
  }

  /** A line yields no move orders exactly when it is already settled. */
  lemma MergedEmptyIffSettled(line: seq<TileObject>, rm: int)
    ensures Merged(line, rm) == [] <==> Settled(line, rm)
  {
    var c := Condensed(line);
    CondenseTokens(line);
    var out := Collapsed(c, rm);
    CollapseCoversInput(c, rm);
    ConvertOrders(out);
    ConsumedWhole(out);
    if Settled(line, rm) {
      SettledTokens(line, c, rm);
      StayPrefix(c, rm, out, |out|);
    }
    if Merged(line, rm) == [] {
      StayedPrefix(c, rm, out, |out|);
      StayedSettled(line, c, rm);
    }
  }
}
