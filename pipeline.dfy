/**
 * The per-line merge pipeline: a line of cells, read from the edge the tiles
 * slide toward, is condensed (gaps removed), collapsed (Fibonacci-adjacent
 * neighbours merged, each tile at most once) and converted into move orders.
 *
 * Each stage is a method with GameModel2's loop, proved equal to a
 * specification function written in the same prefix-by-prefix shape; the
 * lemmas after each stage say what the specification function means.
 */
module Pipeline {
  import opened Adjacency

  /** A cell of the board. */
  datatype TileObject = Empty | Tile(value: int)

  /** What happens to one tile (or one pair of tiles) of a line during a move. */
  datatype ActionToken =
    | NoAction(source: int, value: int)
    | Move(source: int, value: int)
    | SingleCombine(source: int, value: int)
    | DoubleCombine(source: int, second: int, value: int)

  /** An instruction to the board: indices are positions within the line. */
  datatype MoveOrder =
    | SingleMoveOrder(source: int, destination: int, value: int, wasMerge: bool)
    | DoubleMoveOrder(firstSource: int, secondSource: int, destination: int, value: int)

  function TileValue(t: TileObject): (r: int) {
    if t.Tile? then t.value else 0
  }

  /** Total value of the tiles of a line; empty cells count 0. */
  function TileSum(s: seq<TileObject>): (r: int) {
    if s == [] then 0 else TileSum(s[..|s| - 1]) + TileValue(s[|s| - 1])
  }

  /** Total value carried by a list of tokens. */
  function TokenSum(s: seq<ActionToken>): (r: int) {
    if s == [] then 0 else TokenSum(s[..|s| - 1]) + s[|s| - 1].value
  }

  // ---------------------------------------------------------------------------
  // Stage 1: condense

  /** The tokens condense has emitted after looking at the first `n` cells. */
  function CondensedPrefix(group: seq<TileObject>, n: nat): (r: seq<ActionToken>)
    requires n <= |group|
    ensures |r| <= n
    ensures forall k :: 0 <= k < |r| ==> r[k].NoAction? || r[k].Move?
  {
    if n == 0 then []
    else
      var tokenBuffer := CondensedPrefix(group, n - 1);
      match group[n - 1]
      case Empty => tokenBuffer
      case Tile(v) => tokenBuffer + [if |tokenBuffer| == n - 1 then NoAction(n - 1, v) else Move(n - 1, v)]
  }

  function Condensed(group: seq<TileObject>): (r: seq<ActionToken>) {
    CondensedPrefix(group, |group|)
  }

  /** Removes the gaps of a line: one token per occupied cell, NoAction while no gap has been seen. */
  method Condense(group: seq<TileObject>) returns (tokenBuffer: seq<ActionToken>)
    ensures tokenBuffer == Condensed(group)
  {
    tokenBuffer := [];
    for idx := 0 to |group|
      invariant tokenBuffer == CondensedPrefix(group, idx)
    {
      match group[idx]
      case Tile(value) =>
        if |tokenBuffer| == idx {
          tokenBuffer := tokenBuffer + [NoAction(idx, value)];
        } else {
          tokenBuffer := tokenBuffer + [Move(idx, value)];
        }
      case Empty =>
    }
  }

  /** Every token of `r` stands for an occupied cell of the first `n`, and their sources strictly increase. */
  ghost predicate SourcesIn(group: seq<TileObject>, r: seq<ActionToken>, n: int) {
    && (forall k :: 0 <= k < |r| ==> 0 <= r[k].source < n && r[k].source < |group| && group[r[k].source] == Tile(r[k].value))
    && (forall j, k :: 0 <= j < k < |r| ==> r[j].source < r[k].source)
  }

  /** Every occupied cell among the first `n` is the source of some token of `r`. */
  ghost predicate CompleteIn(group: seq<TileObject>, r: seq<ActionToken>, n: int) {
    forall i :: 0 <= i < n && i < |group| && group[i].Tile? ==> exists k :: 0 <= k < |r| && r[k].source == i
  }

  /**
   * Tags of `r`, condensed from the first `n` cells: no token is lost exactly when
   * those cells are all occupied, and a token is NoAction exactly when its source
   * is its position, that is, when every cell before it is occupied.
   */
  ghost predicate TagsIn(group: seq<TileObject>, r: seq<ActionToken>, n: int) {
    && (|r| == n <==> forall i :: 0 <= i < n && i < |group| ==> group[i].Tile?)
    && (forall k :: 0 <= k < |r| ==> r[k].NoAction? || r[k].Move?)
    && (forall k :: 0 <= k < |r| ==> (r[k].NoAction? <==> r[k].source == k))
    && (forall k :: 0 <= k < |r| ==>
          (r[k].NoAction? <==> forall i :: 0 <= i < r[k].source && i < n && i < |group| ==> group[i].Tile?))
  }

  /** What condense produces: the occupied cells of the line, in order, each tagged by whether it must move. */
  ghost predicate CondenseShape(group: seq<TileObject>, r: seq<ActionToken>) {
    && SourcesIn(group, r, |group|)
    && CompleteIn(group, r, |group|)
    && TagsIn(group, r, |group|)
    && TokenSum(r) == TileSum(group)
  }

  /** The token condense emits for the occupied cell `n - 1`: NoAction while no gap has been seen before it. */
  function CondenseToken(group: seq<TileObject>, n: nat): (r: ActionToken)
    requires 0 < n <= |group| && group[n - 1].Tile?
  {
    if |CondensedPrefix(group, n - 1)| == n - 1 then NoAction(n - 1, group[n - 1].value) else Move(n - 1, group[n - 1].value)
  }

  /** Unfolds one step of condense. */
  lemma CondensedStep(group: seq<TileObject>, n: nat)
    requires 0 < n <= |group|
    ensures group[n - 1].Empty? ==> CondensedPrefix(group, n) == CondensedPrefix(group, n - 1)
    ensures group[n - 1].Tile? ==>
              CondensedPrefix(group, n) == CondensedPrefix(group, n - 1) + [CondenseToken(group, n)]
  {
  }

  lemma {:induction false} CondensedSources(group: seq<TileObject>, n: nat)
    requires n <= |group|
    ensures SourcesIn(group, CondensedPrefix(group, n), n)
  {
    if n > 0 {
      CondensedSources(group, n - 1);
      CondensedStep(group, n);
    }
  }

  lemma {:induction false} CondensedTags(group: seq<TileObject>, n: nat)
    requires n <= |group|
    ensures TagsIn(group, CondensedPrefix(group, n), n)
  {
    if n > 0 {
      CondensedTags(group, n - 1);
      CondensedStep(group, n);
      var buffer := CondensedPrefix(group, n - 1);
      var r := CondensedPrefix(group, n);
      if group[n - 1].Tile? {
        assert forall k :: 0 <= k < |buffer| ==> r[k] == buffer[k];
        assert r[|buffer|].source == n - 1;
      }
    }
  }

  lemma {:induction false} CondensedComplete(group: seq<TileObject>, n: nat)
    requires n <= |group|
    ensures CompleteIn(group, CondensedPrefix(group, n), n)
  {
    if n > 0 {
      CondensedComplete(group, n - 1);
      CondensedStep(group, n);
      var buffer := CondensedPrefix(group, n - 1);
      var r := CondensedPrefix(group, n);
      forall i | 0 <= i < n && group[i].Tile? ensures exists k :: 0 <= k < |r| && r[k].source == i {
        if i == n - 1 {
          assert r[|r| - 1].source == i;
        } else {
          var k :| 0 <= k < |buffer| && buffer[k].source == i;
          assert r[k].source == i;
        }
      }
    }
  }

  /** The tokens carry the values of the prefix's tiles. */
  lemma {:induction false} CondensedSum(group: seq<TileObject>, n: nat)
    requires n <= |group|
    ensures TokenSum(CondensedPrefix(group, n)) == TileSum(group[..n])
  {
    if n > 0 {
      CondensedSum(group, n - 1);
      CondensedStep(group, n);
      assert group[..n][..n - 1] == group[..n - 1];
      var buffer := CondensedPrefix(group, n - 1);
      var r := CondensedPrefix(group, n);
      if group[n - 1].Tile? {
        assert r[..|r| - 1] == buffer;
      }
    }
  }

  /** The properties of condense's result, for a whole line. */
  lemma CondenseTokens(group: seq<TileObject>)
    ensures CondenseShape(group, Condensed(group))
  {
    CondensedSources(group, |group|);
    CondensedComplete(group, |group|);
    CondensedTags(group, |group|);
    CondensedSum(group, |group|);
    assert group[..|group|] == group;
  }

  /** Consequences of the shape: each token sits at or before its source, and the NoAction tokens form a prefix. */
  lemma CondenseOrder(group: seq<TileObject>, r: seq<ActionToken>)
    requires CondenseShape(group, r)
    ensures forall k :: 0 <= k < |r| ==> k <= r[k].source
    ensures forall j, k :: 0 <= j < k < |r| && r[k].NoAction? ==> r[j].NoAction?
  {
    forall k | 0 <= k < |r| ensures k <= r[k].source {
      SourcesStrictlyIncrease(r, k);
    }
    forall j, k | 0 <= j < k < |r| && r[k].NoAction? ensures r[j].NoAction? {
      // r[j].source >= j, and it lies at least k - j below r[k].source == k.
      SourceGap(r, j, k);
    }
  }

  lemma {:induction false} SourcesStrictlyIncrease(r: seq<ActionToken>, k: nat)
    requires k < |r|
    requires forall k :: 0 <= k < |r| ==> 0 <= r[k].source
    requires forall j, k :: 0 <= j < k < |r| ==> r[j].source < r[k].source
    ensures k <= r[k].source
  {
    if k > 0 {
      SourcesStrictlyIncrease(r, k - 1);
    }
  }

  lemma {:induction false} SourceGap(r: seq<ActionToken>, j: nat, k: nat)
    requires j <= k < |r|
    requires forall k :: 0 <= k < |r| ==> 0 <= r[k].source
    requires forall j, k :: 0 <= j < k < |r| ==> r[j].source < r[k].source
    ensures r[k].source - r[j].source >= k - j
    ensures r[j].source >= j
    decreases k - j
  {
    SourcesStrictlyIncrease(r, j);
    if j < k {
      SourceGap(r, j + 1, k);
    }
  }

  // ---------------------------------------------------------------------------
  // Stage 2: collapse

  /** Whether a NoAction token still stands on the cell it came from: nothing before it has moved or merged. */
  predicate QuiescentTileStillQuiescent(inputPosition: int, outputLength: int, originalPosition: int) {
    inputPosition == outputLength && originalPosition == inputPosition
  }

  /** collapse accepts only what condense produces. */
  predicate FromCondense(group: seq<ActionToken>) {
    forall k :: 0 <= k < |group| ==> group[k].NoAction? || group[k].Move?
  }

  /** The token at `idx` may merge with the next one: there is a next one, moves remain, and the values are adjacent. */
  predicate CanMerge(group: seq<ActionToken>, rm: int, idx: int) {
    0 <= idx < |group| - 1 && rm > 0 && IsFibSum(group[idx].value, group[idx + 1].value)
  }

  /** The loop state of collapse: the output so far and the skip-next flag. */
  datatype CollapseState = CollapseState(tokenBuffer: seq<ActionToken>, skipNext: bool)

  /** One iteration of collapse's loop, for the token at `idx`. */
  function CollapseStep(group: seq<ActionToken>, rm: int, idx: nat, st: CollapseState): (r: CollapseState)
    requires idx < |group|
  {
    if st.skipNext then CollapseState(st.tokenBuffer, false)
    else
      var token := group[idx];
      var quiescent := QuiescentTileStillQuiescent(idx, |st.tokenBuffer|, token.source);
      if token.NoAction? && CanMerge(group, rm, idx) && quiescent then
        var next := group[idx + 1];
        CollapseState(st.tokenBuffer + [SingleCombine(next.source, token.value + next.value)], true)
      else if CanMerge(group, rm, idx) then
        var next := group[idx + 1];
        CollapseState(st.tokenBuffer + [DoubleCombine(token.source, next.source, token.value + next.value)], true)
      else if token.NoAction? && !quiescent then
        CollapseState(st.tokenBuffer + [Move(token.source, token.value)], false)
      else if token.NoAction? then
        CollapseState(st.tokenBuffer + [NoAction(token.source, token.value)], false)
      else if token.Move? then
        CollapseState(st.tokenBuffer + [Move(token.source, token.value)], false)
      else
        CollapseState(st.tokenBuffer, false)
  }

  /** The loop state of collapse after its first `n` iterations. */
  function CollapsePrefix(group: seq<ActionToken>, rm: int, n: nat): (r: CollapseState)
    requires n <= |group|
  {
    if n == 0 then CollapseState([], false) else CollapseStep(group, rm, n - 1, CollapsePrefix(group, rm, n - 1))
  }

  function Collapsed(group: seq<ActionToken>, rm: int): (r: seq<ActionToken>) {
    CollapsePrefix(group, rm, |group|).tokenBuffer
  }

  /** Merges Fibonacci-adjacent neighbours, left to right, each token at most once. */
  method Collapse(group: seq<ActionToken>, rm: int) returns (tokenBuffer: seq<ActionToken>)
    requires FromCondense(group)
    ensures tokenBuffer == Collapsed(group, rm)
  {
    tokenBuffer := [];
    var skipNext := false;
    for idx := 0 to |group|
      invariant CollapseState(tokenBuffer, skipNext) == CollapsePrefix(group, rm, idx)
    {
      if skipNext {
        // The previous iteration merged this token already.
        skipNext := false;
        continue;
      }
      var token := group[idx];
      if token.NoAction? && idx < |group| - 1 && IsFibSum(token.value, group[idx + 1].value) && rm > 0
         && QuiescentTileStillQuiescent(idx, |tokenBuffer|, token.source)
      {
        var next := group[idx + 1];
        var nv := token.value + next.value;
        skipNext := true;
        tokenBuffer := tokenBuffer + [SingleCombine(next.source, nv)];
      } else if idx < |group| - 1 && rm > 0 && IsFibSum(token.value, group[idx + 1].value) {
        var next := group[idx + 1];
        var nv := token.value + next.value;
        skipNext := true;
        tokenBuffer := tokenBuffer + [DoubleCombine(token.source, next.source, nv)];
      } else if token.NoAction? && !QuiescentTileStillQuiescent(idx, |tokenBuffer|, token.source) {
        tokenBuffer := tokenBuffer + [Move(token.source, token.value)];
      } else if token.NoAction? {
        tokenBuffer := tokenBuffer + [NoAction(token.source, token.value)];
      } else if token.Move? {
        tokenBuffer := tokenBuffer + [Move(token.source, token.value)];
      }
    }
  }

  /** How many input tokens an output token of collapse stands for. */
  function Width(t: ActionToken): (r: nat) {
    if t.SingleCombine? || t.DoubleCombine? then 2 else 1
  }

  /** How many input tokens the output tokens `s` stand for together. */
  function Consumed(s: seq<ActionToken>): (r: nat) {
    if s == [] then 0 else Consumed(s[..|s| - 1]) + Width(s[|s| - 1])
  }

  /**
   * Output token `t`, at output position `k`, stands for the input tokens
   * starting at `j`: a single token that could not merge, kept as NoAction
   * only while it has not been displaced; or a pair that merged, as a single
   * combine when the first of the pair has not been displaced.
   */
  ghost predicate Block(group: seq<ActionToken>, rm: int, k: int, j: int, t: ActionToken) {
    0 <= j < |group| &&
    var stays := group[j].NoAction? && group[j].source == j && j == k;
    match t
    case NoAction(s, v) =>
      group[j] == NoAction(s, v) && stays && !CanMerge(group, rm, j)
    case Move(s, v) =>
      group[j].source == s && group[j].value == v && !stays && !CanMerge(group, rm, j)
    case SingleCombine(s, v) =>
      CanMerge(group, rm, j) && stays && s == group[j + 1].source && v == group[j].value + group[j + 1].value
    case DoubleCombine(s1, s2, v) =>
      CanMerge(group, rm, j) && !stays && s1 == group[j].source && s2 == group[j + 1].source
      && v == group[j].value + group[j + 1].value
  }

  /** Each output token of `out` is the block that starts where the tokens before it end. */
  ghost predicate BlocksOf(group: seq<ActionToken>, rm: int, out: seq<ActionToken>) {
    forall k {:trigger out[k]} :: 0 <= k < |out| ==> Block(group, rm, k, Consumed(out[..k]), out[k])
  }

  /** The whole output, read as consecutive blocks covering the input. */
  ghost predicate CollapseBlocks(group: seq<ActionToken>, rm: int, out: seq<ActionToken>) {
    Consumed(out) == |group| && BlocksOf(group, rm, out)
  }

  lemma ConsumedAppend(s: seq<ActionToken>, t: ActionToken)
    ensures Consumed(s + [t]) == Consumed(s) + Width(t)
  {
    assert (s + [t])[..|s|] == s;
  }

  /**
   * A loop iteration that is not skipped appends exactly one token `t`, the
   * block starting at input position `idx`, and asks to skip the next
   * iteration exactly when `t` is a combine.
   */
  ghost predicate AppendsBlock(group: seq<ActionToken>, rm: int, idx: int, prev: CollapseState, st: CollapseState) {
    && |st.tokenBuffer| == |prev.tokenBuffer| + 1
    && st.tokenBuffer == prev.tokenBuffer + [st.tokenBuffer[|prev.tokenBuffer|]]
    && Block(group, rm, |prev.tokenBuffer|, idx, st.tokenBuffer[|prev.tokenBuffer|])
    && Width(st.tokenBuffer[|prev.tokenBuffer|]) == (if st.skipNext then 2 else 1)
    && (st.skipNext ==> 0 <= idx && idx + 1 < |group|)
    && (0 <= idx < |group| ==>
          st.tokenBuffer[|prev.tokenBuffer|].value == group[idx].value + (if st.skipNext then group[idx + 1].value else 0))
  }

  lemma CollapseStepBlock(group: seq<ActionToken>, rm: int, idx: nat, prev: CollapseState)
    requires idx < |group| && FromCondense(group)
    requires !prev.skipNext
    ensures AppendsBlock(group, rm, idx, prev, CollapseStep(group, rm, idx, prev))
  {
  }

  /** After `n` iterations the output stands for the first `n` input tokens, or `n + 1` when the next is to be skipped. */
  ghost predicate ConsumedSoFar(group: seq<ActionToken>, st: CollapseState, n: int) {
    && Consumed(st.tokenBuffer) == n + (if st.skipNext then 1 else 0)
    && (st.skipNext ==> n < |group|)
  }

  lemma {:induction false} CollapsePrefixConsumed(group: seq<ActionToken>, rm: int, n: nat)
    requires n <= |group|
    requires FromCondense(group)
    ensures ConsumedSoFar(group, CollapsePrefix(group, rm, n), n)
  {
    if n > 0 {
      var prev := CollapsePrefix(group, rm, n - 1);
      CollapsePrefixConsumed(group, rm, n - 1);
      if !prev.skipNext {
        CollapseStepBlock(group, rm, n - 1, prev);
        var st := CollapseStep(group, rm, n - 1, prev);
        ConsumedAppend(prev.tokenBuffer, st.tokenBuffer[|prev.tokenBuffer|]);
      }
    }
  }

  lemma {:induction false} CollapsePrefixBlocks(group: seq<ActionToken>, rm: int, n: nat)
    requires n <= |group|
    requires FromCondense(group)
    ensures BlocksOf(group, rm, CollapsePrefix(group, rm, n).tokenBuffer)
  {
    if n > 0 {
      var prev := CollapsePrefix(group, rm, n - 1);
      CollapsePrefixBlocks(group, rm, n - 1);
      if !prev.skipNext {
        var st := CollapseStep(group, rm, n - 1, prev);
        CollapseStepBlock(group, rm, n - 1, prev);
        CollapsePrefixConsumed(group, rm, n - 1);
        BlocksExtend(group, rm, prev.tokenBuffer, st.tokenBuffer[|prev.tokenBuffer|]);
      }
    }
  }

  lemma BlocksExtend(group: seq<ActionToken>, rm: int, buf: seq<ActionToken>, t: ActionToken)
    requires BlocksOf(group, rm, buf)
    requires Block(group, rm, |buf|, Consumed(buf), t)
    ensures BlocksOf(group, rm, buf + [t])
  {
    var out := buf + [t];
    forall k | 0 <= k < |out| ensures Block(group, rm, k, Consumed(out[..k]), out[k]) {
      if k < |buf| {
        assert out[..k] == buf[..k] && out[k] == buf[k];
      } else {
        assert out[..k] == buf;
      }
    }
  }

  /** After `n` iterations the output carries the values of the first `n` input tokens, and of the skipped one. */
  ghost predicate SumSoFar(group: seq<ActionToken>, st: CollapseState, n: int) {
    && 0 <= n <= |group|
    && (st.skipNext ==> n < |group|)
    && TokenSum(st.tokenBuffer) == TokenSum(group[..n]) + (if st.skipNext then group[n].value else 0)
  }

  lemma {:induction false} CollapsePrefixSum(group: seq<ActionToken>, rm: int, n: nat)
    requires n <= |group|
    requires FromCondense(group)
    ensures SumSoFar(group, CollapsePrefix(group, rm, n), n)
  {
    if n > 0 {
      var prev := CollapsePrefix(group, rm, n - 1);
      CollapsePrefixSum(group, rm, n - 1);
      var st := CollapsePrefix(group, rm, n);
      assert st == CollapseStep(group, rm, n - 1, prev);
      assert group[..n][..n - 1] == group[..n - 1];
      assert TokenSum(group[..n]) == TokenSum(group[..n - 1]) + group[n - 1].value;
      if !prev.skipNext {
        var buf := prev.tokenBuffer;
        CollapseStepBlock(group, rm, n - 1, prev);
        assert st.tokenBuffer[..|buf|] == buf;
      }
    }
  }

  /** collapse's output covers its input exactly once, block by block, in order, and carries the same total value. */
  lemma CollapseCoversInput(group: seq<ActionToken>, rm: int)
    requires FromCondense(group)
    ensures CollapseBlocks(group, rm, Collapsed(group, rm))
    ensures TokenSum(Collapsed(group, rm)) == TokenSum(group)
  {
    CollapsePrefixConsumed(group, rm, |group|);
    CollapsePrefixBlocks(group, rm, |group|);
    CollapsePrefixSum(group, rm, |group|);
    assert group[..|group|] == group;
  }

  /** How many merges the output tokens `s` record. */
  function CountCombines(s: seq<ActionToken>): (r: nat) {
    if s == [] then 0 else CountCombines(s[..|s| - 1]) + (if Width(s[|s| - 1]) == 2 then 1 else 0)
  }

  lemma {:induction false} ConsumedCount(s: seq<ActionToken>)
    ensures Consumed(s) == |s| + CountCombines(s)
  {
    if s != [] {
      ConsumedCount(s[..|s| - 1]);
    }
  }

  /** Each merge removes one token; the values are conserved; no merge happens once the moves are used up. */
  lemma CollapseConserves(group: seq<ActionToken>, rm: int)
    requires FromCondense(group)
    ensures |Collapsed(group, rm)| == |group| - CountCombines(Collapsed(group, rm))
    ensures TokenSum(Collapsed(group, rm)) == TokenSum(group)
    ensures rm <= 0 ==> FromCondense(Collapsed(group, rm))
  {
    var out := Collapsed(group, rm);
    CollapseCoversInput(group, rm);
    ConsumedCount(out);
    if rm <= 0 {
      forall k | 0 <= k < |out| ensures out[k].NoAction? || out[k].Move? {
        assert Block(group, rm, k, Consumed(out[..k]), out[k]);
      }
    }
  }

  // ---------------------------------------------------------------------------
  // Stage 3: convert

  /** The move order for a collapsed token that is not NoAction, at position `idx`. */
  function OrderFor(t: ActionToken, idx: int): (r: MoveOrder)
    requires !t.NoAction?
  {
    match t
    case Move(s, v) => SingleMoveOrder(s, idx, v, false)
    case SingleCombine(s, v) => SingleMoveOrder(s, idx, v, true)
    case DoubleCombine(s1, s2, v) => DoubleMoveOrder(s1, s2, idx, v)
  }

  function ConvertedPrefix(group: seq<ActionToken>, n: nat): (r: seq<MoveOrder>)
    requires n <= |group|
  {
    if n == 0 then []
    else if group[n - 1].NoAction? then ConvertedPrefix(group, n - 1)
    else ConvertedPrefix(group, n - 1) + [OrderFor(group[n - 1], n - 1)]
  }

  function Converted(group: seq<ActionToken>): (r: seq<MoveOrder>) {
    ConvertedPrefix(group, |group|)
  }

  /** Turns collapsed tokens into move orders whose destination is the token's position. */
  method Convert(group: seq<ActionToken>) returns (moveBuffer: seq<MoveOrder>)
    ensures moveBuffer == Converted(group)
  {
    moveBuffer := [];
    for idx := 0 to |group|
      invariant moveBuffer == ConvertedPrefix(group, idx)
    {
      match group[idx]
      case Move(s, v) =>
        moveBuffer := moveBuffer + [SingleMoveOrder(s, idx, v, false)];
      case SingleCombine(s, v) =>
        moveBuffer := moveBuffer + [SingleMoveOrder(s, idx, v, true)];
      case DoubleCombine(s1, s2, v) =>
        moveBuffer := moveBuffer + [DoubleMoveOrder(s1, s2, idx, v)];
      case NoAction(_, _) =>
    }
  }

  /** What convert produces: one order per token that is not NoAction, at that token's position, in order. */
  ghost predicate ConvertShape(group: seq<ActionToken>, r: seq<MoveOrder>) {
    OrdersIn(group, r, |group|) && OrdersCompleteIn(group, r, |group|)
  }

  /** Orders of `r`, converted from the first `n` tokens: each at the position of a token that is not NoAction, in order. */
  ghost predicate OrdersIn(group: seq<ActionToken>, r: seq<MoveOrder>, n: int) {
    && (forall m {:trigger r[m]} :: 0 <= m < |r| ==>
          0 <= r[m].destination < n && r[m].destination < |group| && !group[r[m].destination].NoAction?
          && r[m] == OrderFor(group[r[m].destination], r[m].destination))
    && (forall m, m' :: 0 <= m < m' < |r| ==> r[m].destination < r[m'].destination)
    && (r == [] <==> forall k :: 0 <= k < n && k < |group| ==> group[k].NoAction?)
  }

  /** Every token among the first `n` that is not NoAction has an order in `r`. */
  ghost predicate OrdersCompleteIn(group: seq<ActionToken>, r: seq<MoveOrder>, n: int) {
    forall k :: 0 <= k < n && k < |group| && !group[k].NoAction? ==> exists m :: 0 <= m < |r| && r[m].destination == k
  }

  lemma {:induction false} ConvertedPrefixShape(group: seq<ActionToken>, n: nat)
    requires n <= |group|
    ensures OrdersIn(group, ConvertedPrefix(group, n), n)
  {
    if n > 0 {
      ConvertedPrefixShape(group, n - 1);
      var prev := ConvertedPrefix(group, n - 1);
      var r := ConvertedPrefix(group, n);
      if !group[n - 1].NoAction? {
        var o := OrderFor(group[n - 1], n - 1);
        assert r == prev + [o];
        forall m | 0 <= m < |r|
          ensures 0 <= r[m].destination < n && !group[r[m].destination].NoAction?
            && r[m] == OrderFor(group[r[m].destination], r[m].destination)
        {
          if m < |prev| {
            assert r[m] == prev[m];
          }
        }
      } else {
        assert r == prev;
      }
    }
  }

  lemma {:induction false} ConvertedPrefixComplete(group: seq<ActionToken>, n: nat)
    requires n <= |group|
    ensures OrdersCompleteIn(group, ConvertedPrefix(group, n), n)
  {
    if n > 0 {
      ConvertedPrefixComplete(group, n - 1);
      var prev := ConvertedPrefix(group, n - 1);
      var r := ConvertedPrefix(group, n);
      if !group[n - 1].NoAction? {
        assert r == prev + [OrderFor(group[n - 1], n - 1)];
      }
      forall k | 0 <= k < n && !group[k].NoAction? ensures exists m :: 0 <= m < |r| && r[m].destination == k {
        if k == n - 1 {
          assert r[|prev|].destination == k;
        } else {
          var m :| 0 <= m < |prev| && prev[m].destination == k;
          assert r[m] == prev[m];
        }
      }
    }
  }

  /** The properties of convert's result, for a whole line. */
  lemma ConvertOrders(group: seq<ActionToken>)
    ensures ConvertShape(group, Converted(group))
    ensures Converted(group) == [] <==> forall k :: 0 <= k < |group| ==> group[k].NoAction?
  {
    ConvertedPrefixShape(group, |group|);
    ConvertedPrefixComplete(group, |group|);
  }

  // ---------------------------------------------------------------------------
  // The whole pipeline

  function Merged(group: seq<TileObject>, rm: int): (r: seq<MoveOrder>) {
    CondenseTokens(group);
    Converted(Collapsed(Condensed(group), rm))
  }

  /** The move orders for one line: condense, then collapse, then convert. */
  method Merge(group: seq<TileObject>, rm: int) returns (orders: seq<MoveOrder>)
    ensures orders == Merged(group, rm)
  {
    var condensed := Condense(group);
    CondenseTokens(group);
    var collapsed := Collapse(condensed, rm);
    orders := Convert(collapsed);
  }
}
