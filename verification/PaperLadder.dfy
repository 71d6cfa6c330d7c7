/** The paper ladder: grid levels with a fill buffer, completed pairs between sparse
    observations, the mark of the inventory, and funding accrual between polls.
 */
module PaperLadder {
  import opened Common

  // ---- levels ----------------------------------------------------------------------------------

  datatype Range = Range(lower: real, upper: real, gridNum: int)

  ghost predicate Usable(g: Range) {
    g.upper > g.lower && g.gridNum >= 2
  }

  function LevelWidth(g: Range): real
    requires g.gridNum >= 2
  {
    (g.upper - g.lower) / g.gridNum as real
  }

  function LevelForPrice(g: Range, price: real): int {
    if g.upper <= g.lower || g.gridNum < 2 || price <= 0.0 then 0
    else
      var level := Truncate((price - g.lower) / LevelWidth(g));
      if level < 0 then 0 else if level >= g.gridNum then g.gridNum - 1 else level
  }

  const BUFFER := 0.0003

  /** A level counts as crossed only when the price is a buffer beyond its boundary. */
  function BufferedLevel(g: Range, price: real, last: int): int {
    var raw := LevelForPrice(g, price);
    if raw == last || price <= 0.0 then raw
    else if raw < last then LevelForPrice(g, price * (1.0 + BUFFER))
    else LevelForPrice(g, price * (1.0 - BUFFER))
  }

  function Boundary(g: Range, k: int): real
    requires g.gridNum >= 2
  {
    g.lower + k as real * LevelWidth(g)
  }

  /** The level of a price is given by the boundaries at or below it. */
  lemma LevelBoundary(g: Range, price: real, k: int)
    requires Usable(g) && price > 0.0 && 1 <= k <= g.gridNum - 1
    ensures k <= LevelForPrice(g, price) <==> Boundary(g, k) <= price
  {
    var w := LevelWidth(g);
    var x := (price - g.lower) / w;
    assert w > 0.0;
    assert x * w == price - g.lower;
    assert k as real <= x <==> k as real * w <= x * w;
  }

  lemma LevelBounds(g: Range, price: real)
    requires g.gridNum >= 2
    ensures 0 <= LevelForPrice(g, price) <= g.gridNum - 1
  {
  }

  lemma NextBoundary(g: Range, k: int)
    requires g.gridNum >= 2
    ensures Boundary(g, k + 1) == Boundary(g, k) + LevelWidth(g)
  {
    assert (k + 1) as real * LevelWidth(g) == k as real * LevelWidth(g) + LevelWidth(g);
  }

  /** A higher price is not at a lower level. */
  lemma LevelMonotone(g: Range, p: real, q: real)
    requires Usable(g) && 0.0 < p <= q
    ensures LevelForPrice(g, p) <= LevelForPrice(g, q)
  {
    LevelBounds(g, p);
    LevelBounds(g, q);
    var k := LevelForPrice(g, p);
    if k >= 1 {
      LevelBoundary(g, p, k);
      LevelBoundary(g, q, k);
    }
  }

  /** A step of less than one level width crosses at most one boundary. */
  lemma LevelAdjacent(g: Range, p: real, q: real)
    requires Usable(g) && 0.0 < p <= q < p + LevelWidth(g)
    ensures LevelForPrice(g, q) <= LevelForPrice(g, p) + 1
  {
    LevelBounds(g, p);
    LevelBounds(g, q);
    var k := LevelForPrice(g, q);
    if k >= 2 {
      LevelBoundary(g, q, k);
      LevelBoundary(g, p, k - 1);
      NextBoundary(g, k - 1);
    }
  }

  /** With levels wider than the buffer, the buffered level lies between the last level and the raw one. */
  lemma BufferedIsBetween(g: Range, price: real, last: int)
    requires Usable(g) && price > 0.0 && LevelWidth(g) > BUFFER * price
    ensures var raw, level := LevelForPrice(g, price), BufferedLevel(g, price, last);
            raw <= level <= last || last <= level <= raw
  {
    var up, down := price * (1.0 + BUFFER), price * (1.0 - BUFFER);
    assert up == price + BUFFER * price && down == price - BUFFER * price;
    LevelMonotone(g, price, up);
    LevelAdjacent(g, price, up);
    LevelMonotone(g, down, price);
    LevelAdjacent(g, down, price);
  }

  function BufferedPath(g: Range, last: int, prices: seq<real>): int {
    if prices == [] then last
    else BufferedLevel(g, prices[|prices| - 1], BufferedPath(g, last, prices[..|prices| - 1]))
  }

  /** So close to boundary `k` that the buffer hides every crossing of it. */
  ghost predicate Hugs(g: Range, k: int, price: real)
    requires g.gridNum >= 2
  {
    price > 0.0 && price * (1.0 - BUFFER) < Boundary(g, k) < price * (1.0 + BUFFER) && LevelWidth(g) > BUFFER * price
  }

  lemma HuggingLevel(g: Range, k: int, price: real)
    requires Usable(g) && 1 <= k <= g.gridNum - 1 && Hugs(g, k, price)
    ensures LevelForPrice(g, price) in {k - 1, k}
    ensures LevelForPrice(g, price) == k - 1 ==> LevelForPrice(g, price * (1.0 + BUFFER)) == k
    ensures LevelForPrice(g, price) == k ==> LevelForPrice(g, price * (1.0 - BUFFER)) == k - 1
  {
    var up, down := price * (1.0 + BUFFER), price * (1.0 - BUFFER);
    assert up == price + BUFFER * price && down == price - BUFFER * price;
    LevelBoundary(g, up, k);
    LevelBoundary(g, down, k);
    LevelMonotone(g, price, up);
    LevelAdjacent(g, price, up);
    LevelMonotone(g, down, price);
    LevelAdjacent(g, down, price);
    LevelBoundary(g, price, k);
    NextBoundary(g, k);
    NextBoundary(g, k - 1);
    LevelBounds(g, price);
    if k + 1 <= g.gridNum - 1 {
      LevelBoundary(g, price, k + 1);
      LevelBoundary(g, up, k + 1);
    }
    if k - 1 >= 1 {
      LevelBoundary(g, down, k - 1);
      LevelBoundary(g, price, k - 1);
    }
  }

  /** A price that hugs one boundary, along a path of any length, never moves the level and so
      never completes a pair. */
  lemma {:induction false} BoundaryKissingBooksNothing(g: Range, k: int, last: int, prices: seq<real>)
    requires Usable(g) && 1 <= k <= g.gridNum - 1 && last in {k - 1, k}
    requires forall i :: 0 <= i < |prices| ==> Hugs(g, k, prices[i])
    ensures BufferedPath(g, last, prices) == last
  {
    if prices != [] {
      BoundaryKissingBooksNothing(g, k, last, prices[..|prices| - 1]);
      HuggingLevel(g, k, prices[|prices| - 1]);
    }
  }

  /** From any level, the first such observation settles it next to the boundary. */
  lemma KissingSettlesAtOnce(g: Range, k: int, last: int, price: real)
    requires Usable(g) && 1 <= k <= g.gridNum - 1 && Hugs(g, k, price) && LevelWidth(g) > 2.0 * BUFFER * price
    ensures BufferedLevel(g, price, last) in {k - 1, k}
  {
    HuggingLevel(g, k, price);
    var up, down := price * (1.0 + BUFFER), price * (1.0 - BUFFER);
    assert up == down + 2.0 * BUFFER * price;
    LevelBounds(g, up);
    LevelBounds(g, down);
    NextBoundary(g, k);
    NextBoundary(g, k - 1);
    if k + 1 <= g.gridNum - 1 {
      LevelBoundary(g, up, k + 1);
    }
    if k - 1 >= 1 {
      LevelBoundary(g, down, k - 1);
    }
    LevelBoundary(g, up, k);
    LevelBoundary(g, down, k);
  }

  // ---- completed pairs -------------------------------------------------------------------------

  /** Pairs completed by one move: only moving back towards the midpoint, and not past it, earns. */
  function Pairs(gridNum: nat, last: int, current: int): nat {
    var delta, inventory := current - last, gridNum / 2 - last;
    if delta != 0 && (delta > 0) == (inventory > 0) && inventory != 0 then
      if Abs(delta) < Abs(inventory) then Abs(delta) else Abs(inventory)
    else 0
  }

  /** The inventory of the ladder, in levels. */
  function Depth(gridNum: nat, level: int): nat {
    Abs(gridNum / 2 - level)
  }

  /** The pairs of a move are what its length exceeds the change in depth by, halved. */
  lemma PairsExactly(gridNum: nat, last: int, current: int)
    ensures 2 * Pairs(gridNum, last, current) == Abs(current - last) - (Depth(gridNum, current) - Depth(gridNum, last))
  {
  }

  function TotalPairs(gridNum: nat, path: seq<int>): nat {
    if |path| < 2 then 0
    else TotalPairs(gridNum, path[..|path| - 1]) + Pairs(gridNum, path[|path| - 2], path[|path| - 1])
  }

  /** The number of level crossings of a path. */
  function Length(path: seq<int>): nat {
    if |path| < 2 then 0 else Length(path[..|path| - 1]) + Abs(path[|path| - 1] - path[|path| - 2])
  }

  /** Over any run, every crossing either loads a level of inventory or completes a pair: the
      crossings that loaded, minus the pairs, are the change in depth. */
  lemma {:induction false} LoadsMinusPairs(gridNum: nat, path: seq<int>)
    requires path != []
    ensures var pairs := TotalPairs(gridNum, path);
            Length(path) >= pairs
            && (Length(path) - pairs) - pairs == Depth(gridNum, path[|path| - 1]) - Depth(gridNum, path[0])
  {
    if |path| >= 2 {
      LoadsMinusPairs(gridNum, path[..|path| - 1]);
      PairsExactly(gridNum, path[|path| - 2], path[|path| - 1]);
    }
  }

  /** `thin` keeps the observations of `path` at the given increasing positions, both ends included. */
  ghost predicate Thins(thin: seq<int>, path: seq<int>, at: seq<nat>) {
    && |thin| == |at| > 0 && at[0] == 0 && at[|at| - 1] == |path| - 1
    && (forall i :: 0 <= i < |at| ==> at[i] < |path| && thin[i] == path[at[i]])
    && forall i, j :: 0 <= i <= j < |at| ==> at[i] <= at[j]
  }

  lemma {:induction false} LengthOfSlice(path: seq<int>, m: nat)
    requires m < |path|
    ensures Length(path) >= Length(path[..m + 1]) + Abs(path[|path| - 1] - path[m])
    decreases |path|
  {
    if m < |path| - 1 {
      LengthOfSlice(path[..|path| - 1], m);
      assert path[..|path| - 1][..m + 1] == path[..m + 1];
    } else {
      assert path[..m + 1] == path;
    }
  }

  lemma {:induction false} ThinIsShorter(thin: seq<int>, path: seq<int>, at: seq<nat>)
    requires Thins(thin, path, at)
    ensures Length(thin) <= Length(path)
    decreases |at|
  {
    if |at| >= 2 {
      var n := |at| - 1;
      var m := at[n - 1];
      assert Thins(thin[..n], path[..m + 1], at[..n]);
      ThinIsShorter(thin[..n], path[..m + 1], at[..n]);
      LengthOfSlice(path, m);
    }
  }

  /** Observing a run less often never books more pairs, whichever observations are dropped. */
  lemma SparserBooksNoMore(gridNum: nat, thin: seq<int>, path: seq<int>, at: seq<nat>)
    requires Thins(thin, path, at)
    ensures TotalPairs(gridNum, thin) <= TotalPairs(gridNum, path)
  {
    LoadsMinusPairs(gridNum, thin);
    LoadsMinusPairs(gridNum, path);
    ThinIsShorter(thin, path, at);
  }

  /** An observation on the way changes nothing; one off the way adds exactly the detour. */
  lemma DetourExactly(gridNum: nat, a: int, b: int, c: int)
    ensures 2 * (Pairs(gridNum, a, b) + Pairs(gridNum, b, c) - Pairs(gridNum, a, c)) ==
            Abs(b - a) + Abs(c - b) - Abs(c - a)
    ensures a <= b <= c || c <= b <= a ==> Pairs(gridNum, a, b) + Pairs(gridNum, b, c) == Pairs(gridNum, a, c)
  {
    PairsExactly(gridNum, a, b);
    PairsExactly(gridNum, b, c);
    PairsExactly(gridNum, a, c);
  }

  /** A step that does not approach the midpoint, nor cross it. */
  predicate Away(mid: int, a: int, b: int) {
    mid <= a <= b || b <= a <= mid
  }

  /** A run books nothing exactly when each of its steps leads away from the midpoint. */
  lemma {:induction false} NoPairsExactly(gridNum: nat, path: seq<int>)
    ensures TotalPairs(gridNum, path) == 0 <==> forall i :: 0 < i < |path| ==> Away(gridNum / 2, path[i - 1], path[i])
  {
    if |path| >= 2 {
      var n := |path| - 1;
      NoPairsExactly(gridNum, path[..n]);
      assert forall i :: 0 <= i < n ==> path[..n][i] == path[i];
      assert Pairs(gridNum, path[n - 1], path[n]) == 0 <==> Away(gridNum / 2, path[n - 1], path[n]);
    }
  }

  /** In particular a one-way traverse out of the range, on either side, only loads inventory. */
  lemma OneWayBooksNothing(gridNum: nat, path: seq<int>)
    requires || (forall i, j :: 0 <= i < j < |path| ==> gridNum / 2 <= path[i] <= path[j])
             || (forall i, j :: 0 <= i < j < |path| ==> path[j] <= path[i] <= gridNum / 2)
    ensures TotalPairs(gridNum, path) == 0
    ensures path != [] ==> Length(path) == Depth(gridNum, path[|path| - 1]) - Depth(gridNum, path[0])
  {
    NoPairsExactly(gridNum, path);
    if path != [] {
      LoadsMinusPairs(gridNum, path);
    }
  }

  // ---- the buffer against pairs --------------------------------------------------------------------

  function RawLevels(g: Range, last: int, prices: seq<real>): seq<int> {
    if prices == [] then [last]
    else RawLevels(g, last, prices[..|prices| - 1]) + [LevelForPrice(g, prices[|prices| - 1])]
  }

  function BufferedLevels(g: Range, last: int, prices: seq<real>): seq<int> {
    if prices == [] then [last]
    else BufferedLevels(g, last, prices[..|prices| - 1]) + [BufferedPath(g, last, prices)]
  }

  ghost predicate WiderThanBuffer(g: Range, prices: seq<real>)
    requires g.gridNum >= 2
  {
    forall i :: 0 <= i < |prices| ==> prices[i] > 0.0 && LevelWidth(g) > BUFFER * prices[i]
  }

  lemma LengthSnoc(path: seq<int>, level: int)
    requires path != []
    ensures Length(path + [level]) == Length(path) + Abs(level - path[|path| - 1])
  {
    assert (path + [level])[..|path|] == path;
  }

  /** What the buffered level has not walked yet is at most what the raw level has walked more. */
  lemma {:induction false} BufferedLagsBehind(g: Range, last: int, prices: seq<real>)
    requires Usable(g) && WiderThanBuffer(g, prices)
    ensures var raw, buffered := RawLevels(g, last, prices), BufferedLevels(g, last, prices);
            && |raw| == |buffered| == |prices| + 1 && raw[0] == buffered[0] == last
            && buffered[|prices|] == BufferedPath(g, last, prices)
            && Length(buffered) + Abs(raw[|prices|] - buffered[|prices|]) <= Length(raw)
  {
    if prices != [] {
      var n := |prices| - 1;
      var front := prices[..n];
      BufferedLagsBehind(g, last, front);
      BufferedIsBetween(g, prices[n], BufferedPath(g, last, front));
      LengthSnoc(RawLevels(g, last, front), LevelForPrice(g, prices[n]));
      LengthSnoc(BufferedLevels(g, last, front), BufferedPath(g, last, prices));
    }
  }

  /** On any price path the buffer only ever takes pairs away. */
  lemma BufferBooksNoMore(g: Range, last: int, prices: seq<real>)
    requires Usable(g) && WiderThanBuffer(g, prices)
    ensures TotalPairs(g.gridNum, BufferedLevels(g, last, prices)) <= TotalPairs(g.gridNum, RawLevels(g, last, prices))
  {
    BufferedLagsBehind(g, last, prices);
    LoadsMinusPairs(g.gridNum, RawLevels(g, last, prices));
    LoadsMinusPairs(g.gridNum, BufferedLevels(g, last, prices));
  }

  // ---- the mark of the ladder --------------------------------------------------------------------

  datatype Mark = Mark(pairProfit: real, unrealized: real, notional: real)

  /** Signed inventory in levels: long below the midpoint, short above it, at most half the grid. */
  function LevelsFromMid(g: Range, price: real): real
    requires Usable(g)
  {
    var half := g.gridNum as real / 2.0;
    var levels := ((g.upper + g.lower) / 2.0 - price) / LevelWidth(g);
    if levels > half then half else if levels < -half then -half else levels
  }

  function EntryPrice(g: Range, price: real): real
    requires Usable(g)
  {
    (g.upper + g.lower) / 2.0 - LevelsFromMid(g, price) * LevelWidth(g) / 2.0
  }

  /** Long below the middle, short above it. */
  function InventoryMark(levels: real, notional: real, entry: real, price: real): real {
    if notional > 0.0 && entry > 0.0 then
      if levels > 0.0 then notional * ((price - entry) / entry) else notional * ((entry - price) / entry)
    else 0.0
  }

  /** The share of one level of the leveraged investment. */
  function LevelShare(g: Range, investment: real, leverage: int): real
    requires g.gridNum >= 2
  {
    investment * (if leverage < 1 then 1 else leverage) as real / g.gridNum as real
  }

  /** What the pairs of one observation earn, on one level's share of the capital. */
  function PairProfit(g: Range, share: real, last: nat, current: nat, feeBps: real): real
    requires Usable(g) && g.upper + g.lower != 0.0
  {
    var stepPct := LevelWidth(g) / ((g.upper + g.lower) / 2.0);
    var feePct := feeBps * 2.0 / 10000.0;
    share * (stepPct - feePct) * Pairs(g.gridNum, last, current) as real
  }

  function Notional(g: Range, share: real, price: real): real
    requires Usable(g)
  {
    AbsReal(LevelsFromMid(g, price)) * share
  }

  function NeutralMark(g: Range, investment: real, leverage: int,
                       last: nat, current: nat, price: real, feeBps: real): Mark
    requires Usable(g) && price > 0.0 ==> g.upper + g.lower != 0.0
  {
    if g.upper <= g.lower || g.gridNum < 2 || price <= 0.0 then Mark(0.0, 0.0, 0.0)
    else
      var share := LevelShare(g, investment, leverage);
      var notional := Notional(g, share, price);
      Mark(PairProfit(g, share, last, current, feeBps),
           InventoryMark(LevelsFromMid(g, price), notional, EntryPrice(g, price), price), notional)
  }

  /** The price is never on the winning side of the average entry. */
  lemma EntryIsBehind(g: Range, price: real)
    requires Usable(g)
    ensures LevelsFromMid(g, price) > 0.0 ==> price <= EntryPrice(g, price)
    ensures LevelsFromMid(g, price) < 0.0 ==> price >= EntryPrice(g, price)
  {
    var w, mid := LevelWidth(g), (g.upper + g.lower) / 2.0;
    var free := (mid - price) / w;
    var levels := LevelsFromMid(g, price);
    assert w > 0.0 && free * w == mid - price;
    ClampedDistance(levels, free, w);
    assert EntryPrice(g, price) == mid - levels * w / 2.0;
  }

  lemma ClampedDistance(levels: real, free: real, w: real)
    requires w > 0.0
    ensures 0.0 < levels <= free ==> free * w >= levels * w > 0.0
    ensures free <= levels < 0.0 ==> free * w <= levels * w < 0.0
  {
    if 0.0 < levels <= free {
      assert (free - levels) * w >= 0.0;
    } else if free <= levels < 0.0 {
      assert (levels - free) * w >= 0.0;
    }
  }

  lemma ShareIsSound(g: Range, investment: real, leverage: int)
    requires g.gridNum >= 2 && investment >= 0.0
    ensures LevelShare(g, investment, leverage) >= 0.0
  {
    assert investment * (if leverage < 1 then 1 else leverage) as real >= 0.0;
  }

  lemma MarkParts(g: Range, investment: real, leverage: int, last: nat, current: nat, price: real, feeBps: real)
    requires Usable(g) && price > 0.0 && g.upper + g.lower != 0.0
    ensures var m := NeutralMark(g, investment, leverage, last, current, price, feeBps);
            var levels := LevelsFromMid(g, price);
            && m.notional == AbsReal(levels) * LevelShare(g, investment, leverage)
            && m.unrealized == InventoryMark(levels, m.notional, EntryPrice(g, price), price)
  {
  }

  /** The notional is one share for each level between price and middle, and loses half of that way
      against an entry halfway. */
  ghost predicate HalfwayIn(g: Range, price: real, share: real, m: Mark)
    requires g.gridNum >= 2
  {
    var mid := (g.upper + g.lower) / 2.0;
    && m.notional * LevelWidth(g) == AbsReal(mid - price) * share
    && m.unrealized * (price + mid) == -(m.notional * AbsReal(mid - price))
  }

  /** Inside the range the inventory is the filled part of the ladder, entered on average halfway
      between the price and the middle. */
  lemma InventoryExactly(g: Range, investment: real, leverage: int, last: nat, current: nat, price: real,
                         feeBps: real, m: Mark)
    requires Usable(g) && 0.0 < price && g.lower <= price <= g.upper && g.upper + g.lower > 0.0 && investment >= 0.0
    requires m == NeutralMark(g, investment, leverage, last, current, price, feeBps)
    ensures HalfwayIn(g, price, LevelShare(g, investment, leverage), m)
  {
    MarkParts(g, investment, leverage, last, current, price, feeBps);
    ShareIsSound(g, investment, leverage);
    InsideMark(g, price, LevelShare(g, investment, leverage), m);
  }

  lemma InsideMark(g: Range, price: real, share: real, m: Mark)
    requires Usable(g) && 0.0 < price && g.lower <= price <= g.upper && g.upper + g.lower > 0.0 && share >= 0.0
    requires m.notional == AbsReal(LevelsFromMid(g, price)) * share
    requires m.unrealized == InventoryMark(LevelsFromMid(g, price), m.notional, EntryPrice(g, price), price)
    ensures HalfwayIn(g, price, share, m)
  {
    InsideTheRange(g, price);
    WidthOfLevels(LevelsFromMid(g, price), LevelWidth(g), (g.upper + g.lower) / 2.0 - price, share);
    MarkOfLevels(LevelsFromMid(g, price), share, EntryPrice(g, price), price, (g.upper + g.lower) / 2.0, m);
  }

  lemma WidthOfLevels(levels: real, w: real, x: real, share: real)
    requires w > 0.0 && levels * w == x
    ensures AbsReal(levels) * share * w == AbsReal(x) * share
  {
    FreeSign(levels, w, x);
    assert AbsReal(levels) * w == AbsReal(x);
    assert AbsReal(levels) * share * w == AbsReal(levels) * w * share;
  }

  lemma MarkOfLevels(levels: real, share: real, entry: real, price: real, mid: real, m: Mark)
    requires share >= 0.0 && price > 0.0 && mid > 0.0 && 2.0 * entry == price + mid
    requires (levels > 0.0 <==> price < mid) && (levels < 0.0 <==> price > mid)
    requires m.notional == AbsReal(levels) * share && m.unrealized == InventoryMark(levels, m.notional, entry, price)
    ensures m.unrealized * (price + mid) == -(m.notional * AbsReal(mid - price))
  {
    assert AbsReal(levels) * share >= 0.0;
    MarkInside(levels, m.notional, entry, price, mid);
  }

  lemma MarkInside(levels: real, notional: real, entry: real, price: real, mid: real)
    requires notional >= 0.0 && price > 0.0 && mid > 0.0 && 2.0 * entry == price + mid
    requires (levels > 0.0 <==> price < mid) && (levels < 0.0 <==> price > mid) && (levels == 0.0 ==> notional == 0.0)
    ensures InventoryMark(levels, notional, entry, price) * (price + mid) == -(notional * AbsReal(mid - price))
  {
    HalfwayMark(notional, price, mid, entry);
  }

  /** Inside the range the distance from the middle is not clamped. */
  lemma InsideTheRange(g: Range, price: real)
    requires Usable(g) && g.lower <= price <= g.upper
    ensures var mid, levels := (g.upper + g.lower) / 2.0, LevelsFromMid(g, price);
            && LevelWidth(g) > 0.0 && levels * LevelWidth(g) == mid - price
            && -(g.gridNum as real / 2.0) <= levels <= g.gridNum as real / 2.0
            && 2.0 * EntryPrice(g, price) == price + mid
            && (levels > 0.0 <==> price < mid) && (levels < 0.0 <==> price > mid)
  {
    var w, mid := LevelWidth(g), (g.upper + g.lower) / 2.0;
    var free := (mid - price) / w;
    assert w > 0.0 && w * g.gridNum as real == g.upper - g.lower;
    assert free * w == mid - price;
    WithinHalf(free, w, g.gridNum as real, mid - price, g.upper - g.lower);
    FreeSign(free, w, mid - price);
    assert EntryPrice(g, price) == mid - free * w / 2.0;
  }

  lemma WithinHalf(free: real, w: real, n: real, x: real, span: real)
    requires w > 0.0 && n > 0.0 && free * w == x && w * n == span && -(span / 2.0) <= x <= span / 2.0
    ensures -(n / 2.0) <= free <= n / 2.0
  {
    assert (n / 2.0 - free) * w >= 0.0;
    assert (n / 2.0 + free) * w >= 0.0;
  }

  lemma FreeSign(free: real, w: real, x: real)
    requires w > 0.0 && free * w == x
    ensures (free > 0.0 <==> x > 0.0) && (free < 0.0 <==> x < 0.0)
  {
  }

  lemma HalfwayMark(notional: real, price: real, mid: real, entry: real)
    requires price > 0.0 && mid > 0.0 && 2.0 * entry == price + mid
    ensures notional * ((price - entry) / entry) * (price + mid) == notional * (price - mid)
    ensures notional * ((entry - price) / entry) * (price + mid) == notional * (mid - price)
  {
    var q := (price - entry) / entry;
    assert q * entry == price - entry;
    assert q * (price + mid) == price - mid;
    assert (entry - price) / entry == -q;
    assert notional * q * (price + mid) == notional * (q * (price + mid));
  }

  /** The inventory of a neutral ladder is never marked at a profit, and never exceeds half of
      the leveraged investment. */
  lemma InventoryNeverWins(g: Range, investment: real, leverage: int, last: nat, current: nat, price: real,
                           feeBps: real, m: Mark)
    requires investment >= 0.0 && (Usable(g) && price > 0.0 ==> g.upper + g.lower != 0.0)
    requires m == NeutralMark(g, investment, leverage, last, current, price, feeBps)
    ensures m.unrealized <= 0.0
    ensures 0.0 <= m.notional <= investment * (if leverage < 1 then 1 else leverage) as real / 2.0
  {
    var capital := Capital(investment, leverage);
    if Usable(g) && price > 0.0 {
      MarkParts(g, investment, leverage, last, current, price, feeBps);
      WithinCapital(g, price, capital, m);
    }
  }

  lemma Capital(investment: real, leverage: int) returns (capital: real)
    requires investment >= 0.0
    ensures capital == investment * (if leverage < 1 then 1 else leverage) as real && capital >= 0.0
  {
    capital := investment * (if leverage < 1 then 1 else leverage) as real;
  }

  lemma WithinCapital(g: Range, price: real, capital: real, m: Mark)
    requires Usable(g) && price > 0.0 && capital >= 0.0
    requires m.notional == AbsReal(LevelsFromMid(g, price)) * (capital / g.gridNum as real)
    requires m.unrealized == InventoryMark(LevelsFromMid(g, price), m.notional, EntryPrice(g, price), price)
    ensures m.unrealized <= 0.0 && 0.0 <= m.notional <= capital / 2.0
  {
    var share := capital / g.gridNum as real;
    assert share * g.gridNum as real == capital;
    assert share >= 0.0;
    LosingMark(g, price, share, m);
  }

  lemma LosingMark(g: Range, price: real, share: real, m: Mark)
    requires Usable(g) && price > 0.0 && share >= 0.0
    requires m.notional == AbsReal(LevelsFromMid(g, price)) * share
    requires m.unrealized == InventoryMark(LevelsFromMid(g, price), m.notional, EntryPrice(g, price), price)
    ensures m.unrealized <= 0.0 && 0.0 <= m.notional <= share * g.gridNum as real / 2.0
  {
    EntryIsBehind(g, price);
    AtMostHalf(AbsReal(LevelsFromMid(g, price)), share, g.gridNum as real);
    MarkSign(m.notional, price, EntryPrice(g, price));
  }

  lemma AtMostHalf(levels: real, share: real, n: real)
    requires 0.0 <= levels <= n / 2.0 && share >= 0.0
    ensures 0.0 <= levels * share <= share * n / 2.0
  {
    assert (n / 2.0 - levels) * share >= 0.0;
  }

  lemma MarkSign(notional: real, price: real, entry: real)
    requires notional >= 0.0
    ensures entry > 0.0 && price <= entry ==> notional * ((price - entry) / entry) <= 0.0
    ensures entry > 0.0 && price >= entry ==> notional * ((entry - price) / entry) <= 0.0
  {
    if entry > 0.0 {
      NonPositive(notional, if price <= entry then price - entry else entry - price, entry);
    }
  }

  lemma NonPositive(notional: real, gain: real, entry: real)
    requires notional >= 0.0 && gain <= 0.0 && entry > 0.0
    ensures notional * (gain / entry) <= 0.0
  {
    assert gain / entry <= 0.0;
  }

  /** A pair of one level's notional earns the width of a level over the middle of the range, less
      two legs of fees; the mark books it once for each level by which the price came back towards
      the middle. */
  lemma PairProfitExactly(g: Range, investment: real, leverage: int, last: nat, current: nat, price: real, feeBps: real)
    requires Usable(g) && price > 0.0 && g.upper + g.lower != 0.0
    ensures var m := NeutralMark(g, investment, leverage, last, current, price, feeBps);
            var share := investment * (if leverage < 1 then 1 else leverage) as real / g.gridNum as real;
            var mid := g.gridNum / 2;
            var back := if last < mid
                        then if current <= last then 0 else if current < mid then current - last else mid - last
                        else if current >= last then 0 else if current > mid then last - current else last - mid;
            m.pairProfit == back as real * (share * (2.0 * LevelWidth(g) / (g.upper + g.lower) - feeBps / 5000.0))
  {
    var share := investment * (if leverage < 1 then 1 else leverage) as real / g.gridNum as real;
    TwiceOverSum(LevelWidth(g), g.upper + g.lower);
    Reordered(share, LevelWidth(g) / ((g.upper + g.lower) / 2.0) - feeBps * 2.0 / 10000.0,
              Pairs(g.gridNum, last, current) as real);
  }

  lemma TwiceOverSum(width: real, sum: real)
    requires sum != 0.0
    ensures width / (sum / 2.0) == 2.0 * width / sum
  {
    var q := width / (sum / 2.0);
    assert q * (sum / 2.0) == width;
    assert q * sum == 2.0 * width;
  }

  lemma Reordered(a: real, b: real, c: real)
    ensures a * b * c == c * (a * b)
  {
  }

  // ---- funding ------------------------------------------------------------------------------------

  /** Eight hours, in seconds. */
  const INTERVAL := 28800

  function Accrued(exposure: real, rateBps: real, boundaries: int): real {
    exposure * rateBps / 10000.0 * boundaries as real
  }

  /** The accrued amount and the new settlement anchor, or nothing before the next boundary. */
  function FundingAccrual(exposure: real, rateBps: real, openedAt: int, lastAt: Option<int>,
                          now: int): Option<(real, int)> {
    if exposure <= 0.0 || rateBps == 0.0 then None
    else
      var anchor := if lastAt.Some? && lastAt.value > openedAt then lastAt.value else openedAt;
      var elapsed := now - anchor;
      if elapsed < INTERVAL then None
      else
        var boundaries := elapsed / INTERVAL;
        var delta := Accrued(exposure, rateBps, boundaries);
        if delta == 0.0 then None else Some((delta, anchor + boundaries * INTERVAL))
  }

  datatype Funding = Funding(total: real, lastAt: Option<int>)

  /** Polls at arbitrary times, in any order. */
  function Polled(exposure: real, rateBps: real, openedAt: int, polls: seq<int>): Funding {
    if polls == [] then Funding(0.0, None)
    else
      var f := Polled(exposure, rateBps, openedAt, polls[..|polls| - 1]);
      var a := FundingAccrual(exposure, rateBps, openedAt, f.lastAt, polls[|polls| - 1]);
      if a.None? then f else Funding(f.total + a.value.0, Some(a.value.1))
  }

  function Latest(openedAt: int, polls: seq<int>): int {
    if polls == [] then openedAt
    else
      var t := Latest(openedAt, polls[..|polls| - 1]);
      if t < polls[|polls| - 1] then polls[|polls| - 1] else t
  }

  lemma WholeIntervals(openedAt: int, k: int, t: int)
    requires openedAt + k * INTERVAL <= t
    ensures (t - openedAt) / INTERVAL == k + (t - (openedAt + k * INTERVAL)) / INTERVAL
  {
  }

  /** One poll, from an anchor `k` intervals after opening. */
  lemma PollStep(exposure: real, rateBps: real, openedAt: int, lastAt: Option<int>, k: nat, now: int)
    requires exposure > 0.0 && rateBps != 0.0
    requires (if lastAt.Some? then lastAt.value else openedAt) == openedAt + k * INTERVAL
    ensures var a := FundingAccrual(exposure, rateBps, openedAt, lastAt, now);
            var m := (now - openedAt) / INTERVAL;
            if m > k then a == Some((Accrued(exposure, rateBps, m - k), openedAt + m * INTERVAL)) else a == None
  {
    var anchor := openedAt + k * INTERVAL;
    var n := (now - anchor) / INTERVAL;
    if now - anchor >= INTERVAL {
      WholeIntervals(openedAt, k, now);
      NonZero(exposure, rateBps, n);
      var m := (now - openedAt) / INTERVAL;
      assert m - k == n && anchor + n * INTERVAL == openedAt + m * INTERVAL;
    } else if now >= anchor {
      WholeIntervals(openedAt, k, now);
    }
  }

  lemma NonZero(exposure: real, rateBps: real, n: int)
    requires exposure > 0.0 && rateBps != 0.0 && n >= 1
    ensures Accrued(exposure, rateBps, n) != 0.0
  {
    assert exposure * rateBps != 0.0;
    var unit := exposure * rateBps / 10000.0;
    assert unit != 0.0;
    assert unit * n as real != 0.0;
  }

  lemma AccruedAdds(exposure: real, rateBps: real, k: int, m: int)
    ensures Accrued(exposure, rateBps, 0) == 0.0
    ensures Accrued(exposure, rateBps, k) + Accrued(exposure, rateBps, m - k) == Accrued(exposure, rateBps, m)
  {
    Distributes(exposure * rateBps / 10000.0, k as real, m as real);
  }

  lemma Distributes(unit: real, k: real, m: real)
    ensures unit * 0.0 == 0.0 && unit * k + unit * (m - k) == unit * m
  {
  }

  lemma {:induction false} AccruedOverPolls(exposure: real, rateBps: real, openedAt: int, polls: seq<int>)
    requires exposure > 0.0 && rateBps != 0.0
    ensures var f := Polled(exposure, rateBps, openedAt, polls);
            var boundaries := (Latest(openedAt, polls) - openedAt) / INTERVAL;
            && f.total == Accrued(exposure, rateBps, boundaries)
            && (if f.lastAt.Some? then f.lastAt.value else openedAt) == openedAt + boundaries * INTERVAL
            && Latest(openedAt, polls) >= openedAt
  {
    if polls != [] {
      var front := polls[..|polls| - 1];
      AccruedOverPolls(exposure, rateBps, openedAt, front);
      var f := Polled(exposure, rateBps, openedAt, front);
      var now := polls[|polls| - 1];
      var k := (Latest(openedAt, front) - openedAt) / INTERVAL;
      PollStep(exposure, rateBps, openedAt, f.lastAt, k, now);
      AccruedAdds(exposure, rateBps, k, (now - openedAt) / INTERVAL);
      MoreTimeMoreIntervals(now - openedAt, Latest(openedAt, front) - openedAt);
    } else {
      AccruedAdds(exposure, rateBps, 0, 0);
    }
  }

  /** However often and in whatever order funding is polled, with a constant exposure it adds up to
      one exposure times the rate, in basis points, for each boundary passed by the latest poll, and
      the anchor trails that poll by less than one interval. */
  lemma FundingIgnoresPolling(exposure: real, rateBps: real, openedAt: int, polls: seq<int>)
    requires exposure > 0.0 && rateBps != 0.0
    ensures var f := Polled(exposure, rateBps, openedAt, polls);
            var boundaries := (Latest(openedAt, polls) - openedAt) / INTERVAL;
            && 10000.0 * f.total == exposure * rateBps * boundaries as real
            && (if f.lastAt.Some? then f.lastAt.value else openedAt) == openedAt + boundaries * INTERVAL
            && Latest(openedAt, polls) >= openedAt
  {
    AccruedOverPolls(exposure, rateBps, openedAt, polls);
    InBasisPoints(exposure, rateBps, (Latest(openedAt, polls) - openedAt) / INTERVAL);
  }

  lemma InBasisPoints(exposure: real, rateBps: real, boundaries: int)
    ensures 10000.0 * Accrued(exposure, rateBps, boundaries) == exposure * rateBps * boundaries as real
  {
  }

  lemma MoreTimeMoreIntervals(s: int, t: int)
    ensures s <= t ==> s / INTERVAL <= t / INTERVAL
    ensures t <= s ==> t / INTERVAL <= s / INTERVAL
  {
  }
}
