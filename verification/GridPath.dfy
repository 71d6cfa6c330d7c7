/** What a whole price path leaves behind: each level is its own two-state machine, and how
    finely the path is observed does not matter.
 */
module GridPath {
  import opened GridLadder
  import opened GridLedger

  // ---- each level is a two-state machine ---------------------------------------------

  /** The level whose crossing closes a lot resting at `k`. */
  function ExitLevel(l: Ladder, k: int): int {
    if l.direction.Short? then k - 1 else k + 1
  }

  /** A level at or below zero is never traded. */
  ghost predicate Touches(l: Ladder, m: Move, k: int) {
    Crosses(l, m, k) && Price(l, k) > 0.0
  }

  lemma {:induction false} FillLevelsHolds(l: Ladder, b: Book, m: Move, lo: int, hi: int, k: int)
    requires lo >= 0
    ensures k in FillLevels(l, b, m, lo, hi).lots <==>
            if Opens(l, m) then k in b.lots || (lo < k <= hi && Price(l, k) > 0.0)
            else k in b.lots && !(lo < ExitLevel(l, k) <= hi && Price(l, ExitLevel(l, k)) > 0.0)
    decreases hi - lo
  {
    if lo < hi {
      FillLevelsHolds(l, b, m, lo, hi - 1, k);
    }
  }

  /** One move, seen from one level. */
  lemma FillHolds(l: Ladder, b: Book, m: Move, k: int)
    requires ValidLadder(l)
    ensures k in Fill(l, b, m).lots <==>
            if Opens(l, m) then k in b.lots || Touches(l, m, k)
            else k in b.lots && !Touches(l, m, ExitLevel(l, k))
  {
    CrossingsExactly(l, m, k);
    CrossingsExactly(l, m, ExitLevel(l, k));
    if m.prev != m.next {
      FillLevelsHolds(l, b, m, FirstBelow(l, m), LastCrossed(l, m), k);
    }
  }

  function Walk(l: Ladder, b: Book, moves: seq<Move>): Book
    requires l.step > 0.0
  {
    if moves == [] then b else Fill(l, Walk(l, b, moves[..|moves| - 1]), moves[|moves| - 1])
  }

  ghost predicate OpensAt(l: Ladder, m: Move, k: int) {
    Opens(l, m) && Touches(l, m, k)
  }

  ghost predicate ClosesAt(l: Ladder, m: Move, k: int) {
    !Opens(l, m) && Touches(l, m, ExitLevel(l, k))
  }

  /** Some move opened level `k` and none after it closed it. */
  ghost predicate LastOpened(l: Ladder, moves: seq<Move>, k: int) {
    exists i :: 0 <= i < |moves| && OpensAt(l, moves[i], k) &&
                forall j :: i < j < |moves| ==> !ClosesAt(l, moves[j], k)
  }

  /** After any path, from an empty book, level `k` holds a lot exactly when its latest
      crossing was an opening one. */
  lemma {:induction false} LevelIsTwoStateMachine(l: Ladder, b: Book, moves: seq<Move>, k: int)
    requires ValidLadder(l) && b.lots == map[]
    ensures k in Walk(l, b, moves).lots <==> LastOpened(l, moves, k)
  {
    if moves != [] {
      var n := |moves| - 1;
      var front := moves[..n];
      LevelIsTwoStateMachine(l, b, front, k);
      FillHolds(l, Walk(l, b, front), moves[n], k);
      if LastOpened(l, front, k) && !ClosesAt(l, moves[n], k) {
        var i :| 0 <= i < n && OpensAt(l, front[i], k) && forall j :: i < j < n ==> !ClosesAt(l, front[j], k);
        assert OpensAt(l, moves[i], k);
        assert forall j :: i < j < n ==> moves[j] == front[j];
      }
      if LastOpened(l, moves, k) && !OpensAt(l, moves[n], k) {
        var i :| 0 <= i < |moves| && OpensAt(l, moves[i], k)
           && forall j :: i < j < |moves| ==> !ClosesAt(l, moves[j], k);
        assert OpensAt(l, front[i], k);
        assert forall j :: i < j < n ==> moves[j] == front[j];
      }
    }
  }

  // ---- splitting a move ---------------------------------------------------------------

  /** Equal books, except that the trades may be listed in another order. */
  ghost predicate SameUpToOrder(b: Book, c: Book) {
    b.(trades := c.trades) == c && multiset(b.trades) == multiset(c.trades)
  }

  lemma OpensCommute(l: Ladder, b: Book, i: int, x: real, j: int, y: real)
    requires i != j && Price(l, i) > 0.0 && Price(l, j) > 0.0
    ensures OpenLot(l, OpenLot(l, b, i, x), j, y) == OpenLot(l, OpenLot(l, b, j, y), i, x)
  {
    var bij := OpenLot(l, OpenLot(l, b, i, x), j, y);
    var bji := OpenLot(l, OpenLot(l, b, j, y), i, x);
    assert bij.lots == bji.lots;
  }

  lemma ClosesCommute(l: Ladder, b: Book, i: int, p: real, j: int, q: real)
    requires i != j && i in b.lots && j in b.lots
    ensures SameUpToOrder(CloseLot(l, CloseLot(l, b, i, p), j, q), CloseLot(l, CloseLot(l, b, j, q), i, p))
  {
    var bij := CloseLot(l, CloseLot(l, b, i, p), j, q);
    var bji := CloseLot(l, CloseLot(l, b, j, q), i, p);
    assert bij.lots == bji.lots;
  }

  /** The lot that a crossing of level `k` would close. */
  function Partner(l: Ladder, k: int): int {
    if l.direction.Short? then k + 1 else k - 1
  }

  ghost predicate Acts(l: Ladder, b: Book, m: Move, k: int) {
    Price(l, k) > 0.0 && if Opens(l, m) then k !in b.lots else Partner(l, k) in b.lots
  }

  lemma FillLevelCases(l: Ladder, b: Book, m: Move, k: int)
    ensures !Acts(l, b, m, k) ==> FillLevel(l, b, m, k) == b
    ensures Acts(l, b, m, k) && Opens(l, m) ==> FillLevel(l, b, m, k) == OpenLot(l, b, k, Notional(l, m, Price(l, k)))
    ensures Acts(l, b, m, k) && !Opens(l, m) ==> FillLevel(l, b, m, k) == CloseLot(l, b, Partner(l, k), Price(l, k))
  {
  }

  /** Fills at two levels do not interfere. */
  lemma LevelsCommute(l: Ladder, b: Book, m: Move, i: int, j: int)
    requires i != j
    ensures SameUpToOrder(FillLevel(l, FillLevel(l, b, m, i), m, j), FillLevel(l, FillLevel(l, b, m, j), m, i))
  {
    var bi, bj := FillLevel(l, b, m, i), FillLevel(l, b, m, j);
    FillLevelCases(l, b, m, i);
    FillLevelCases(l, b, m, j);
    FillLevelCases(l, bi, m, j);
    FillLevelCases(l, bj, m, i);
    if Acts(l, b, m, i) && Acts(l, b, m, j) {
      if Opens(l, m) {
        OpensCommute(l, b, i, Notional(l, m, Price(l, i)), j, Notional(l, m, Price(l, j)));
      } else {
        ClosesCommute(l, b, Partner(l, i), Price(l, i), Partner(l, j), Price(l, j));
      }
    }
  }

  lemma FillLevelRespects(l: Ladder, b: Book, c: Book, m: Move, k: int)
    requires SameUpToOrder(b, c)
    ensures SameUpToOrder(FillLevel(l, b, m, k), FillLevel(l, c, m, k))
  {
  }

  lemma {:induction false} FillLevelsRespects(l: Ladder, b: Book, c: Book, m: Move, lo: int, hi: int)
    requires SameUpToOrder(b, c)
    ensures SameUpToOrder(FillLevels(l, b, m, lo, hi), FillLevels(l, c, m, lo, hi))
    decreases hi - lo
  {
    if lo < hi {
      FillLevelsRespects(l, b, c, m, lo, hi - 1);
      FillLevelRespects(l, FillLevels(l, b, m, lo, hi - 1), FillLevels(l, c, m, lo, hi - 1), m, hi);
    }
  }

  lemma {:induction false} LevelPassesRange(l: Ladder, b: Book, m: Move, lo: int, hi: int, k: int)
    requires hi < k
    ensures SameUpToOrder(FillLevels(l, FillLevel(l, b, m, k), m, lo, hi),
                          FillLevel(l, FillLevels(l, b, m, lo, hi), m, k))
    decreases hi - lo
  {
    if lo < hi {
      var inner := FillLevels(l, b, m, lo, hi - 1);
      LevelPassesRange(l, b, m, lo, hi - 1, k);
      FillLevelRespects(l, FillLevels(l, FillLevel(l, b, m, k), m, lo, hi - 1), FillLevel(l, inner, m, k), m, hi);
      LevelsCommute(l, inner, m, k, hi);
    }
  }

  /** Filling the upper levels first gives the same book. */
  lemma {:induction false} UpperFirst(l: Ladder, b: Book, m: Move, lo: int, mid: int, hi: int)
    requires lo <= mid <= hi
    ensures SameUpToOrder(FillLevels(l, FillLevels(l, b, m, mid, hi), m, lo, mid), FillLevels(l, b, m, lo, hi))
    decreases hi - mid
  {
    if mid < hi {
      var upper := FillLevels(l, b, m, mid, hi - 1);
      UpperFirst(l, b, m, lo, mid, hi - 1);
      LevelPassesRange(l, upper, m, lo, mid, hi);
      FillLevelRespects(l, FillLevels(l, upper, m, lo, mid), FillLevels(l, b, m, lo, hi - 1), m, hi);
    }
  }

  lemma {:induction false} LowerFirst(l: Ladder, b: Book, m: Move, lo: int, mid: int, hi: int)
    requires lo <= mid <= hi
    ensures FillLevels(l, FillLevels(l, b, m, lo, mid), m, mid, hi) == FillLevels(l, b, m, lo, hi)
    decreases hi - mid
  {
    if mid < hi {
      LowerFirst(l, b, m, lo, mid, hi - 1);
    }
  }

  /** The fills of a range depend on the move only through its direction and its fill ratios. */
  lemma {:induction false} FillLevelsCongruent(l: Ladder, b: Book, m: Move, m': Move, lo: int, hi: int)
    requires Opens(l, m) == Opens(l, m')
    requires Opens(l, m) ==> forall k :: lo < k <= hi ==> FillRatio(m, Price(l, k)) == FillRatio(m', Price(l, k))
    ensures FillLevels(l, b, m, lo, hi) == FillLevels(l, b, m', lo, hi)
    decreases hi - lo
  {
    if lo < hi {
      FillLevelsCongruent(l, b, m, m', lo, hi - 1);
      var inner := FillLevels(l, b, m, lo, hi - 1);
      if Opens(l, m) {
        assert FillRatio(m, Price(l, hi)) == FillRatio(m', Price(l, hi));
        assert Notional(l, m, Price(l, hi)) == Notional(l, m', Price(l, hi));
      }
      FillLevelCases(l, inner, m, hi);
      FillLevelCases(l, inner, m', hi);
    }
  }

  /** An opening move closes nothing. */
  lemma {:induction false} OpeningKeepsTrades(l: Ladder, b: Book, m: Move, lo: int, hi: int)
    requires Opens(l, m)
    ensures FillLevels(l, b, m, lo, hi).trades == b.trades
    decreases hi - lo
  {
    if lo < hi {
      OpeningKeepsTrades(l, b, m, lo, hi - 1);
    }
  }

  lemma LevelOfMonotone(l: Ladder, p: real, q: real)
    requires ValidLadder(l) && p <= q
    ensures LevelOf(l, p) <= LevelOf(l, q)
  {
    var x, y := (p - l.lower) / l.step, (q - l.lower) / l.step;
    assert y - x == (q - p) / l.step;
    assert (q - p) / l.step >= 0.0;
  }

  /** The price stays inside the extreme of the candle it moves towards. */
  ghost predicate InCandle(m: Move) {
    if m.Down() then m.low <= m.next else m.next <= m.high
  }

  ghost predicate Between(a: real, x: real, b: real) {
    a < x < b || b < x < a
  }

  /** `(lo, cut]` and `(cut, hi]` filled by the two legs of `m`, in the order in which the price meets them. */
  lemma LegsRecompose(l: Ladder, b: Book, m: Move, m1: Move, m2: Move, lo: int, cut: int, hi: int)
    requires lo <= cut <= hi && m1.Down() == m2.Down() == m.Down()
    requires Opens(l, m) ==> forall k :: lo < k <= hi ==>
                 FillRatio(m, Price(l, k)) == FillRatio(if (k <= cut) == m.Down() then m2 else m1, Price(l, k))
    ensures !m.Down() ==> FillLevels(l, FillLevels(l, b, m1, lo, cut), m2, cut, hi) == FillLevels(l, b, m, lo, hi)
    ensures m.Down() ==>
              SameUpToOrder(FillLevels(l, FillLevels(l, b, m1, cut, hi), m2, lo, cut), FillLevels(l, b, m, lo, hi))
    ensures m.Down() && !l.direction.Short? ==>
              FillLevels(l, FillLevels(l, b, m1, cut, hi), m2, lo, cut) == FillLevels(l, b, m, lo, hi)
  {
    if m.Down() {
      var upper := FillLevels(l, b, m1, cut, hi);
      FillLevelsCongruent(l, b, m1, m, cut, hi);
      FillLevelsCongruent(l, upper, m2, m, lo, cut);
      UpperFirst(l, b, m, lo, cut, hi);
      if !l.direction.Short? {
        OpeningKeepsTrades(l, b, m, lo, hi);
        OpeningKeepsTrades(l, b, m, cut, hi);
        OpeningKeepsTrades(l, upper, m, lo, cut);
      }
    } else {
      FillLevelsCongruent(l, b, m1, m, lo, cut);
      FillLevelsCongruent(l, FillLevels(l, b, m1, lo, cut), m2, m, cut, hi);
      LowerFirst(l, b, m, lo, cut, hi);
    }
  }

  /** The level that separates the levels of the two legs. */
  function Cut(l: Ladder, m: Move, mid: real): int
    requires l.step > 0.0
  {
    var lvl := LevelOf(l, mid);
    if lvl < 0 then 0 else if lvl > l.levels - 1 then l.levels - 1 else lvl
  }

  lemma LegRanges(l: Ladder, m: Move, mid: real)
    requires ValidLadder(l) && Between(m.prev, mid, m.next) && FirstBelow(l, m) < LastCrossed(l, m)
    ensures FirstBelow(l, m) <= Cut(l, m, mid) <= LastCrossed(l, m)
    ensures var lower := if m.Down() then m.(prev := mid) else m.(next := mid);
            FirstBelow(l, lower) == FirstBelow(l, m) &&
            (LastCrossed(l, lower) == Cut(l, m, mid) || LastCrossed(l, lower) <= FirstBelow(l, m) == Cut(l, m, mid))
    ensures var upper := if m.Down() then m.(next := mid) else m.(prev := mid);
            LastCrossed(l, upper) == LastCrossed(l, m) &&
            (FirstBelow(l, upper) == Cut(l, m, mid) || FirstBelow(l, upper) >= LastCrossed(l, m) == Cut(l, m, mid))
  {
    LevelOfMonotone(l, m.Min(), mid);
    LevelOfMonotone(l, mid, m.Max());
  }

  lemma LegFills(l: Ladder, b: Book, m: Move, mid: real)
    requires ValidLadder(l) && Between(m.prev, mid, m.next) && FirstBelow(l, m) < LastCrossed(l, m)
    ensures var lower := if m.Down() then m.(prev := mid) else m.(next := mid);
            Fill(l, b, lower) == FillLevels(l, b, lower, FirstBelow(l, m), Cut(l, m, mid))
    ensures var upper := if m.Down() then m.(next := mid) else m.(prev := mid);
            Fill(l, b, upper) == FillLevels(l, b, upper, Cut(l, m, mid), LastCrossed(l, m))
  {
    LegRanges(l, m, mid);
  }

  lemma RatiosAgree(l: Ladder, m: Move, mid: real)
    requires ValidLadder(l) && Between(m.prev, mid, m.next) && InCandle(m) && Opens(l, m)
    requires FirstBelow(l, m) < LastCrossed(l, m)
    ensures forall k :: FirstBelow(l, m) < k <= LastCrossed(l, m) ==>
              FillRatio(m, Price(l, k)) ==
              FillRatio(if (k <= Cut(l, m, mid)) == m.Down() then m.(prev := mid) else m.(next := mid), Price(l, k))
  {
    LegRanges(l, m, mid);
    forall k | FirstBelow(l, m) < k <= LastCrossed(l, m)
      ensures FillRatio(m, Price(l, k)) ==
              FillRatio(if (k <= Cut(l, m, mid)) == m.Down() then m.(prev := mid) else m.(next := mid), Price(l, k))
    {
      CrossingsExactly(l, m, k);
      LevelOfFloor(l, mid, k);
    }
  }

  /** Observing a move at any price on the way gives the same lots, the same ledgers and the
      same trades.  Only a falling short grid, which closes several lots at once, may list
      its trades in another order. */
  lemma SplitMove(l: Ladder, b: Book, m: Move, mid: real)
    requires ValidLadder(l) && Between(m.prev, mid, m.next) && InCandle(m)
    ensures SameUpToOrder(Fill(l, Fill(l, b, m.(next := mid)), m.(prev := mid)), Fill(l, b, m))
    ensures !(l.direction.Short? && m.Down()) ==> Fill(l, Fill(l, b, m.(next := mid)), m.(prev := mid)) == Fill(l, b, m)
  {
    var first, second := m.(next := mid), m.(prev := mid);
    if FirstBelow(l, m) < LastCrossed(l, m) {
      LegRanges(l, m, mid);
      LegFills(l, b, m, mid);
      LegFills(l, Fill(l, b, first), m, mid);
      if Opens(l, m) {
        RatiosAgree(l, m, mid);
      }
      LegsRecompose(l, b, m, first, second, FirstBelow(l, m), Cut(l, m, mid), LastCrossed(l, m));
    } else {
      OutsideTheLadder(l, b, m, mid);
    }
  }

  lemma OutsideTheLadder(l: Ladder, b: Book, m: Move, mid: real)
    requires ValidLadder(l) && Between(m.prev, mid, m.next) && FirstBelow(l, m) >= LastCrossed(l, m)
    ensures Fill(l, b, m) == Fill(l, b, m.(next := mid)) == Fill(l, b, m.(prev := mid)) == b
  {
    LevelOfMonotone(l, m.Min(), mid);
    LevelOfMonotone(l, mid, m.Max());
  }

  // ---- the order of the trades -----------------------------------------------------------

  /** The record of closing the lot behind level `k` of a short grid. */
  function TradeAt(l: Ladder, b: Book, k: int): Trade
    requires k + 1 in b.lots
  {
    var lot := b.lots[k + 1];
    Trade(ShortPair, lot.base, Gross(l, lot, Price(l, k)), FeeOn(lot.base, Price(l, k), l.maker))
  }

  predicate Closes(l: Ladder, b: Book, k: int) {
    Price(l, k) > 0.0 && k + 1 in b.lots
  }

  /** What a falling short grid closes at levels `lo + 1` to `hi`, in ascending order. */
  function Closed(l: Ladder, b: Book, lo: int, hi: int): seq<Trade>
    decreases hi - lo
  {
    if hi <= lo then [] else Closed(l, b, lo, hi - 1) + if Closes(l, b, hi) then [TradeAt(l, b, hi)] else []
  }

  lemma {:induction false} FallingTrades(l: Ladder, b: Book, m: Move, lo: int, hi: int)
    requires l.direction.Short? && m.Down()
    ensures var after := FillLevels(l, b, m, lo, hi);
            && after.trades == b.trades + Closed(l, b, lo, hi)
            && forall j :: j <= lo + 1 || j > hi + 1 ==>
                 (j in after.lots <==> j in b.lots) && (j in b.lots ==> after.lots[j] == b.lots[j])
    decreases hi - lo
  {
    if lo < hi {
      FallingTrades(l, b, m, lo, hi - 1);
      FillLevelCases(l, FillLevels(l, b, m, lo, hi - 1), m, hi);
    }
  }

  lemma {:induction false} ClosedDependsOnLots(l: Ladder, b: Book, c: Book, lo: int, hi: int)
    requires forall k :: lo < k <= hi ==> (Closes(l, b, k) <==> Closes(l, c, k))
    requires forall k :: lo < k <= hi && Closes(l, b, k) && Closes(l, c, k) ==> b.lots[k + 1] == c.lots[k + 1]
    ensures Closed(l, b, lo, hi) == Closed(l, c, lo, hi)
    decreases hi - lo
  {
    if lo < hi {
      ClosedDependsOnLots(l, b, c, lo, hi - 1);
    }
  }

  lemma {:induction false} ClosedSplits(l: Ladder, b: Book, lo: int, mid: int, hi: int)
    requires lo <= mid <= hi
    ensures Closed(l, b, lo, hi) == Closed(l, b, lo, mid) + Closed(l, b, mid, hi)
    decreases hi - mid
  {
    if mid < hi {
      ClosedSplits(l, b, lo, mid, hi - 1);
    }
  }

  /** The first record comes from some level of the range that closes. */
  lemma {:induction false} ClosedHead(l: Ladder, b: Book, lo: int, hi: int)
    ensures Closed(l, b, lo, hi) == [] <==> forall k :: lo < k <= hi ==> !Closes(l, b, k)
    ensures Closed(l, b, lo, hi) != [] ==>
              exists k :: lo < k <= hi && Closes(l, b, k) && Closed(l, b, lo, hi)[0] == TradeAt(l, b, k)
    decreases hi - lo
  {
    if lo < hi {
      ClosedHead(l, b, lo, hi - 1);
    }
  }

  /** What the simulator lists of a trade, beside its side. */
  function Profits(trades: seq<Trade>): seq<real> {
    seq(|trades|, i requires 0 <= i < |trades| => trades[i].gross - trades[i].fee)
  }

  lemma ProfitsAppend(a: seq<Trade>, b: seq<Trade>)
    ensures Profits(a + b) == Profits(a) + Profits(b)
  {
  }

  function ProfitAt(l: Ladder, b: Book, k: int): real
    requires k + 1 in b.lots
  {
    TradeAt(l, b, k).gross - TradeAt(l, b, k).fee
  }

  /** No two lots would close with the same profit. */
  ghost predicate Distinguishable(l: Ladder, b: Book) {
    forall i, j :: i < j && Closes(l, b, i) && Closes(l, b, j) ==> ProfitAt(l, b, i) != ProfitAt(l, b, j)
  }

  /** Lots of full size close with less profit the higher they rest, with any fee above minus one. */
  lemma FullLotsAreDistinguishable(l: Ladder, b: Book)
    requires ValidLadder(l) && LotsOk(l, b.lots) && l.direction.Short? && l.maker > -1.0
    requires forall k :: k in b.lots ==> b.lots[k].quote == l.perLevel
    ensures Distinguishable(l, b)
  {
    forall i, j | i < j && Closes(l, b, i) && Closes(l, b, j) ensures ProfitAt(l, b, i) != ProfitAt(l, b, j) {
      assert LotOk(l, i + 1, b.lots[i + 1]) && LotOk(l, j + 1, b.lots[j + 1]);
      FullLotsDiffer(l, b, i, j);
    }
  }

  lemma FullLotsDiffer(l: Ladder, b: Book, i: int, j: int)
    requires ValidLadder(l) && l.direction.Short? && l.maker > -1.0 && i < j && Closes(l, b, i) && Closes(l, b, j)
    requires LotOk(l, i + 1, b.lots[i + 1]) && LotOk(l, j + 1, b.lots[j + 1])
    requires b.lots[i + 1].quote == b.lots[j + 1].quote == l.perLevel
    ensures ProfitAt(l, b, j) < ProfitAt(l, b, i)
  {
    var gain := PositiveScale(l.step, l.maker);
    var cost := l.perLevel * l.maker;
    ProfitOfFullLot(l, b, i, gain, cost);
    ProfitOfFullLot(l, b, j, gain, cost);
    PriceMonotone(l, i + 1, j + 1);
    HigherEarnsLess(b.lots[i + 1], b.lots[j + 1], gain, cost);
  }

  lemma PositiveScale(step: real, maker: real) returns (gain: real)
    requires step > 0.0 && maker > -1.0
    ensures gain == step * (1.0 + maker) && gain > 0.0
  {
    gain := step * (1.0 + maker);
  }

  /** The profit of a lot, from its entry alone. */
  function EntryProfit(lot: Lot, gain: real, cost: real): real {
    lot.base * gain - cost
  }

  lemma HigherEarnsLess(x: Lot, y: Lot, gain: real, cost: real)
    requires 0.0 < x.price < y.price && x.base > 0.0 && y.base > 0.0 && gain > 0.0
    requires x.base * x.price == y.base * y.price
    ensures EntryProfit(y, gain, cost) < EntryProfit(x, gain, cost)
  {
    SmallerWhenHigher(x.base, x.price, y.base, y.price, x.base * x.price);
    StrictlyLess(y.base, x.base, gain);
  }

  lemma ProfitOfFullLot(l: Ladder, b: Book, k: int, gain: real, cost: real)
    requires l.direction.Short? && Closes(l, b, k) && LotOk(l, k + 1, b.lots[k + 1])
    requires gain == l.step * (1.0 + l.maker) && cost == b.lots[k + 1].quote * l.maker
    ensures ProfitAt(l, b, k) == EntryProfit(b.lots[k + 1], gain, cost)
  {
    var lot := b.lots[k + 1];
    PriceStep(l, k);
    ProfitAlgebra(lot.base, lot.price, Price(l, k), l.step, l.maker);
  }

  lemma ProfitAlgebra(base: real, entry: real, exit: real, step: real, maker: real)
    requires entry == exit + step
    ensures base * (entry - exit) - base * exit * maker == base * (step * (1.0 + maker)) - base * entry * maker
  {
    assert base * exit * maker == base * entry * maker - base * step * maker;
  }

  lemma SmallerWhenHigher(x: real, p: real, y: real, q: real, quote: real)
    requires 0.0 < p < q && x > 0.0 && y > 0.0 && x * p == quote && y * q == quote
    ensures y < x
  {
    assert (x - y) * p == y * (q - p);
    assert y * (q - p) > 0.0;
    PositiveFactor(x - y, p);
  }

  lemma PositiveFactor(z: real, p: real)
    requires p > 0.0 && z * p > 0.0
    ensures z > 0.0
  {
  }

  lemma StrictlyLess(a: real, b: real, c: real)
    requires a < b && c > 0.0
    ensures a * c < b * c
  {
    assert (b - a) * c > 0.0;
  }

  /** The move closes no lot of a short grid. */
  ghost predicate Idle(l: Ladder, b: Book, m: Move) {
    forall k :: Touches(l, m, k) ==> k + 1 !in b.lots
  }

  lemma IdleExactly(l: Ladder, b: Book, m: Move, lo: int, hi: int)
    requires forall k :: lo < k <= hi <==> Crosses(l, m, k)
    ensures Idle(l, b, m) <==> Closed(l, b, lo, hi) == []
  {
    ClosedHead(l, b, lo, hi);
    if Closed(l, b, lo, hi) != [] {
      var k :| lo < k <= hi && Closes(l, b, k);
      assert Touches(l, m, k);
    }
    if !Idle(l, b, m) {
      var k :| Touches(l, m, k) && k + 1 in b.lots;
      assert Crosses(l, m, k) && Closes(l, b, k);
    }
  }

  lemma LegCrossings(l: Ladder, m: Move, mid: real)
    requires ValidLadder(l) && Between(m.prev, mid, m.next) && m.Down() && FirstBelow(l, m) < LastCrossed(l, m)
    ensures forall k :: Cut(l, m, mid) < k <= LastCrossed(l, m) <==> Crosses(l, m.(next := mid), k)
    ensures forall k :: FirstBelow(l, m) < k <= Cut(l, m, mid) <==> Crosses(l, m.(prev := mid), k)
  {
    LegRanges(l, m, mid);
    forall k ensures Cut(l, m, mid) < k <= LastCrossed(l, m) <==> Crosses(l, m.(next := mid), k) {
      CrossingsExactly(l, m.(next := mid), k);
    }
    forall k ensures FirstBelow(l, m) < k <= Cut(l, m, mid) <==> Crosses(l, m.(prev := mid), k) {
      CrossingsExactly(l, m.(prev := mid), k);
    }
  }

  /** Upper levels first or all levels in one go: the same records, in this order. */
  lemma SplitTrades(l: Ladder, b: Book, m: Move, mid: real)
    requires ValidLadder(l) && Between(m.prev, mid, m.next) && m.Down() && l.direction.Short?
    requires FirstBelow(l, m) < LastCrossed(l, m)
    ensures var lower := Closed(l, b, FirstBelow(l, m), Cut(l, m, mid));
            var upper := Closed(l, b, Cut(l, m, mid), LastCrossed(l, m));
            && Fill(l, b, m).trades == b.trades + (lower + upper)
            && Fill(l, Fill(l, b, m.(next := mid)), m.(prev := mid)).trades == b.trades + (upper + lower)
  {
    var lo, cut, hi := FirstBelow(l, m), Cut(l, m, mid), LastCrossed(l, m);
    var first := Fill(l, b, m.(next := mid));
    LegRanges(l, m, mid);
    LegFills(l, b, m, mid);
    LegFills(l, first, m, mid);
    FallingTrades(l, b, m.(next := mid), cut, hi);
    FallingTrades(l, first, m.(prev := mid), lo, cut);
    FallingTrades(l, b, m, lo, hi);
    ClosedDependsOnLots(l, first, b, lo, cut);
    ClosedSplits(l, b, lo, cut, hi);
  }

  lemma SwapExactly(l: Ladder, b: Book, lo: int, cut: int, hi: int)
    requires Distinguishable(l, b)
    ensures var lower, upper := Profits(Closed(l, b, lo, cut)), Profits(Closed(l, b, cut, hi));
            lower + upper == upper + lower <==> lower == [] || upper == []
  {
    var lower, upper := Profits(Closed(l, b, lo, cut)), Profits(Closed(l, b, cut, hi));
    if lower != [] && upper != [] {
      ClosedHead(l, b, lo, cut);
      ClosedHead(l, b, cut, hi);
      var i :| lo < i <= cut && Closes(l, b, i) && Closed(l, b, lo, cut)[0] == TradeAt(l, b, i);
      var j :| cut < j <= hi && Closes(l, b, j) && Closed(l, b, cut, hi)[0] == TradeAt(l, b, j);
      assert lower[0] == ProfitAt(l, b, i) && upper[0] == ProfitAt(l, b, j);
      assert (lower + upper)[0] != (upper + lower)[0];
    }
  }

  /** A falling short grid reports its profits in the same order, however the move is observed,
      exactly when the profits of the two legs read the same either way round. */
  lemma SplitProfitsExactly(l: Ladder, b: Book, m: Move, mid: real)
    requires ValidLadder(l) && l.direction.Short? && m.Down() && Between(m.prev, mid, m.next)
    requires FirstBelow(l, m) < LastCrossed(l, m)
    ensures var lower := Profits(Closed(l, b, FirstBelow(l, m), Cut(l, m, mid)));
            var upper := Profits(Closed(l, b, Cut(l, m, mid), LastCrossed(l, m)));
            Profits(Fill(l, Fill(l, b, m.(next := mid)), m.(prev := mid)).trades) == Profits(Fill(l, b, m).trades)
            <==> lower + upper == upper + lower
  {
    var lower := Closed(l, b, FirstBelow(l, m), Cut(l, m, mid));
    var upper := Closed(l, b, Cut(l, m, mid), LastCrossed(l, m));
    SplitTrades(l, b, m, mid);
    ProfitsAppend(lower, upper);
    ProfitsAppend(upper, lower);
    ProfitsAppend(b.trades, lower + upper);
    ProfitsAppend(b.trades, upper + lower);
    SamePrefix(Profits(b.trades), Profits(lower + upper), Profits(upper + lower));
  }

  /** When no two lots close with the same profit, that is exactly when one of the legs closes nothing. */
  lemma SplitOrderExactly(l: Ladder, b: Book, m: Move, mid: real)
    requires ValidLadder(l) && Distinguishable(l, b)
    requires l.direction.Short? && m.Down() && Between(m.prev, mid, m.next)
    ensures Profits(Fill(l, Fill(l, b, m.(next := mid)), m.(prev := mid)).trades) == Profits(Fill(l, b, m).trades)
            <==> Idle(l, b, m.(next := mid)) || Idle(l, b, m.(prev := mid))
  {
    var lo, cut, hi := FirstBelow(l, m), Cut(l, m, mid), LastCrossed(l, m);
    if lo < hi {
      SplitProfitsExactly(l, b, m, mid);
      SwapExactly(l, b, lo, cut, hi);
      LegCrossings(l, m, mid);
      IdleExactly(l, b, m.(next := mid), cut, hi);
      IdleExactly(l, b, m.(prev := mid), lo, cut);
    } else {
      OutsideTheLadder(l, b, m, mid);
      forall k ensures !Touches(l, m.(next := mid), k) {
        CrossingsExactly(l, m, k);
        assert Crosses(l, m.(next := mid), k) ==> Crosses(l, m, k);
      }
    }
  }

  lemma SamePrefix(a: seq<real>, x: seq<real>, y: seq<real>)
    ensures a + x == a + y <==> x == y
  {
    if a + x == a + y {
      assert x == (a + x)[|a|..] == (a + y)[|a|..] == y;
    }
  }

  /** Two resting lots of full size, one below the point of observation and one above it: the reported
      profits change places. */
  lemma ObservationReordersTrades(l: Ladder, b: Book)
    requires l == Ladder(0.0, 1.0, 5, 6.0, 0.1, Short)
    requires b.lots == map[2 := Lot(2.0, 3.0, 6.0), 3 := Lot(3.0, 2.0, 6.0)]
    ensures var m := Move(2.5, 0.5, 2.5, 0.5);
            Profits(Fill(l, Fill(l, b, m.(next := 1.5)), m.(prev := 1.5)).trades) != Profits(Fill(l, b, m).trades)
  {
    var m := Move(2.5, 0.5, 2.5, 0.5);
    assert Touches(l, m.(next := 1.5), 2) && Touches(l, m.(prev := 1.5), 1);
    FullLotsAreDistinguishable(l, b);
    SplitOrderExactly(l, b, m, 1.5);
  }

  /** A half lot and a full one that close with the same profit hide the order, although both legs
      close one. */
  lemma EqualProfitsHideTheOrder(l: Ladder, b: Book)
    requires l == Ladder(0.0, 1.0, 5, 6.0, 0.2, Short)
    requires b.lots == map[2 := Lot(2.0, 1.5, 3.0), 3 := Lot(3.0, 2.0, 6.0)]
    ensures var m := Move(2.5, 0.5, 2.5, 0.5);
            && !Idle(l, b, m.(next := 1.5)) && !Idle(l, b, m.(prev := 1.5))
            && Profits(Fill(l, Fill(l, b, m.(next := 1.5)), m.(prev := 1.5)).trades) == Profits(Fill(l, b, m).trades)
  {
    var m := Move(2.5, 0.5, 2.5, 0.5);
    assert Touches(l, m.(next := 1.5), 2) && Touches(l, m.(prev := 1.5), 1);
    CrossingsExactly(l, m, 2);
    assert ProfitAt(l, b, 1) == 1.2 && ProfitAt(l, b, 2) == 1.2;
    LegCrossings(l, m, 1.5);
    OneRecord(l, b, FirstBelow(l, m), Cut(l, m, 1.5), 1);
    OneRecord(l, b, Cut(l, m, 1.5), LastCrossed(l, m), 2);
    SplitProfitsExactly(l, b, m, 1.5);
  }

  lemma {:induction false} OneRecord(l: Ladder, b: Book, lo: int, hi: int, k: int)
    requires lo < k <= hi && Closes(l, b, k) && forall j :: lo < j <= hi && j != k ==> !Closes(l, b, j)
    ensures Closed(l, b, lo, hi) == [TradeAt(l, b, k)]
    decreases hi - lo
  {
    if k < hi {
      OneRecord(l, b, lo, hi - 1, k);
    } else {
      ClosedHead(l, b, lo, hi - 1);
    }
  }

  // ---- refining a whole path -----------------------------------------------------------------

  /** Consecutive legs lead from the start of `m` to its end, without turning back. */
  ghost predicate SplitsInto(m: Move, legs: seq<Move>) {
    && legs != [] && legs[0].prev == m.prev && legs[|legs| - 1].next == m.next
    && (forall i :: 0 <= i < |legs| ==> legs[i].high == m.high && legs[i].low == m.low)
    && (forall i :: 0 < i < |legs| ==> legs[i].prev == legs[i - 1].next)
    && forall i :: 0 <= i < |legs| ==>
         if m.Down() then m.next <= legs[i].next <= legs[i].prev else legs[i].prev <= legs[i].next <= m.next
  }

  lemma SameIsTransitive(a: Book, b: Book, c: Book)
    requires SameUpToOrder(a, b) && SameUpToOrder(b, c)
    ensures SameUpToOrder(a, c)
  {
  }

  lemma FillRespects(l: Ladder, b: Book, c: Book, m: Move)
    requires l.step > 0.0 && SameUpToOrder(b, c)
    ensures SameUpToOrder(Fill(l, b, m), Fill(l, c, m))
  {
    if m.prev != m.next {
      FillLevelsRespects(l, b, c, m, FirstBelow(l, m), LastCrossed(l, m));
    }
  }

  lemma {:induction false} WalkRespects(l: Ladder, b: Book, c: Book, moves: seq<Move>)
    requires l.step > 0.0 && SameUpToOrder(b, c)
    ensures SameUpToOrder(Walk(l, b, moves), Walk(l, c, moves))
  {
    if moves != [] {
      var front := moves[..|moves| - 1];
      WalkRespects(l, b, c, front);
      FillRespects(l, Walk(l, b, front), Walk(l, c, front), moves[|moves| - 1]);
    }
  }

  lemma {:induction false} WalkAppends(l: Ladder, b: Book, moves: seq<Move>, more: seq<Move>)
    requires l.step > 0.0
    ensures Walk(l, b, moves + more) == Walk(l, Walk(l, b, moves), more)
  {
    if more == [] {
      assert moves + more == moves;
    } else {
      var n := |more| - 1;
      WalkAppends(l, b, moves, more[..n]);
      assert (moves + more)[..|moves| + n] == moves + more[..n];
    }
  }

  /** One more leg, which may be no move at all. */
  lemma LastLeg(l: Ladder, b: Book, m: Move, mid: real)
    requires ValidLadder(l) && InCandle(m) && (Between(m.prev, mid, m.next) || mid == m.prev || mid == m.next)
    ensures SameUpToOrder(Fill(l, Fill(l, b, m.(next := mid)), m.(prev := mid)), Fill(l, b, m))
    ensures !l.direction.Short? ==> Fill(l, Fill(l, b, m.(next := mid)), m.(prev := mid)) == Fill(l, b, m)
  {
    if Between(m.prev, mid, m.next) {
      SplitMove(l, b, m, mid);
    } else if mid == m.prev {
      assert Fill(l, b, m.(next := mid)) == b && m.(prev := mid) == m;
    } else {
      assert m.(next := mid) == m;
    }
  }

  lemma ShorterSplit(m: Move, legs: seq<Move>)
    requires SplitsInto(m, legs) && InCandle(m) && |legs| >= 2 && legs[|legs| - 1].prev != m.prev
    ensures var mid := legs[|legs| - 1].prev;
            && SplitsInto(m.(next := mid), legs[..|legs| - 1]) && InCandle(m.(next := mid))
            && (Between(m.prev, mid, m.next) || mid == m.next) && legs[|legs| - 1] == m.(prev := mid)
  {
    var n := |legs| - 1;
    var front := legs[..n];
    Ordered(m, legs, n - 1);
    assert front[n - 1] == legs[n - 1];
    forall i | 0 <= i < n
      ensures if m.Down() then legs[n].prev <= front[i].next else front[i].next <= legs[n].prev
    {
      LaterLegs(m, legs, i, n - 1);
    }
  }

  /** While the price is back at, or still at, the start, nothing has moved. */
  lemma {:induction false} NothingYet(l: Ladder, b: Book, m: Move, legs: seq<Move>, n: nat)
    requires ValidLadder(l) && SplitsInto(m, legs) && n < |legs| && legs[n].prev == m.prev
    ensures Walk(l, b, legs[..n]) == b
  {
    if n > 0 {
      Ordered(m, legs, n - 1);
      if n > 1 {
        Ordered(m, legs, n - 2);
        LaterLegs(m, legs, n - 2, n - 1);
      }
      NothingYet(l, b, m, legs, n - 1);
      assert legs[..n][..n - 1] == legs[..n - 1];
    }
  }

  lemma {:induction false} Ordered(m: Move, legs: seq<Move>, i: nat)
    requires SplitsInto(m, legs) && i < |legs|
    ensures if m.Down() then legs[i].next <= m.prev else m.prev <= legs[i].next
  {
    if i > 0 { Ordered(m, legs, i - 1); }
  }

  lemma {:induction false} LaterLegs(m: Move, legs: seq<Move>, i: nat, j: nat)
    requires SplitsInto(m, legs) && i <= j < |legs|
    ensures if m.Down() then legs[j].next <= legs[i].next else legs[i].next <= legs[j].next
  {
    if i < j { LaterLegs(m, legs, i, j - 1); }
  }

  /** Any number of observations of one move. */
  lemma {:induction false} LegsOfMove(l: Ladder, b: Book, m: Move, legs: seq<Move>)
    requires ValidLadder(l) && InCandle(m) && SplitsInto(m, legs)
    ensures SameUpToOrder(Walk(l, b, legs), Fill(l, b, m))
    ensures !l.direction.Short? ==> Walk(l, b, legs) == Fill(l, b, m)
    decreases |legs|
  {
    var n := |legs| - 1;
    if n == 0 {
      assert legs[0] == m && legs[..0] == [];
    } else {
      var mid := legs[n].prev;
      if mid == m.prev {
        NothingYet(l, b, m, legs, n);
        assert legs[n] == m;
        return;
      }
      ShorterSplit(m, legs);
      LegsOfMove(l, b, m.(next := mid), legs[..n]);
      FillRespects(l, Walk(l, b, legs[..n]), Fill(l, b, m.(next := mid)), legs[n]);
      LastLeg(l, b, m, mid);
      SameIsTransitive(Walk(l, b, legs), Fill(l, Fill(l, b, m.(next := mid)), legs[n]), Fill(l, b, m));
    }
  }

  function Flatten(legs: seq<seq<Move>>): seq<Move> {
    if legs == [] then [] else Flatten(legs[..|legs| - 1]) + legs[|legs| - 1]
  }

  /** How finely a whole path is observed does not matter: the lots, the ledgers and the set of trades
      are the same, and on a long or neutral grid the list of trades too. */
  lemma {:induction false} RefinedPath(l: Ladder, b: Book, moves: seq<Move>, legs: seq<seq<Move>>)
    requires ValidLadder(l) && |legs| == |moves|
    requires forall i :: 0 <= i < |moves| ==> InCandle(moves[i]) && SplitsInto(moves[i], legs[i])
    ensures SameUpToOrder(Walk(l, b, Flatten(legs)), Walk(l, b, moves))
    ensures !l.direction.Short? ==> Walk(l, b, Flatten(legs)) == Walk(l, b, moves)
    decreases |moves|
  {
    if moves != [] {
      var n := |moves| - 1;
      var fine, coarse := Walk(l, b, Flatten(legs[..n])), Walk(l, b, moves[..n]);
      RefinedPath(l, b, moves[..n], legs[..n]);
      WalkAppends(l, b, Flatten(legs[..n]), legs[n]);
      WalkRespects(l, fine, coarse, legs[n]);
      LegsOfMove(l, coarse, moves[n], legs[n]);
      SameIsTransitive(Walk(l, fine, legs[n]), Walk(l, coarse, legs[n]), Fill(l, coarse, moves[n]));
    }
  }
}
