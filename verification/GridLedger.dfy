/** What every fill keeps: the scalar ledgers of a `Book` are exact sums over its resting lots
    and its closed trades.
 */
module GridLedger {
  import opened GridLadder

  /** The position a directional grid opens before the first candle; all zero for a neutral grid. */
  datatype Leg = Leg(base: real, entry: real, fee: real)

  ghost predicate ValidLeg(leg: Leg) {
    leg.base >= 0.0 && leg.entry > 0.0
  }

  // ---- sums over lots and trades ----------------------------------------------------

  function BaseSum(lots: map<int, Lot>, n: nat): real {
    if n == 0 then 0.0 else BaseSum(lots, n - 1) + (if n - 1 in lots then lots[n - 1].base else 0.0)
  }

  function QuoteSum(lots: map<int, Lot>, n: nat): real {
    if n == 0 then 0.0 else QuoteSum(lots, n - 1) + (if n - 1 in lots then lots[n - 1].quote else 0.0)
  }

  /** The mark of the resting lots at price `p`, each against its own entry. */
  function LotMark(l: Ladder, lots: map<int, Lot>, p: real, n: nat): real {
    if n == 0 then 0.0
    else LotMark(l, lots, p, n - 1) + (if n - 1 in lots then Gross(l, lots[n - 1], p) else 0.0)
  }

  function GrossSum(trades: seq<Trade>): real {
    if trades == [] then 0.0 else GrossSum(trades[..|trades| - 1]) + trades[|trades| - 1].gross
  }

  function FeeSum(trades: seq<Trade>): real {
    if trades == [] then 0.0 else FeeSum(trades[..|trades| - 1]) + trades[|trades| - 1].fee
  }

  lemma SumsAppend(trades: seq<Trade>, t: Trade)
    ensures GrossSum(trades + [t]) == GrossSum(trades) + t.gross
    ensures FeeSum(trades + [t]) == FeeSum(trades) + t.fee
  {
    assert (trades + [t])[..|trades|] == trades;
  }

  lemma {:induction false} SumsPut(lots: map<int, Lot>, k: int, lot: Lot, n: nat)
    requires 0 <= k && k !in lots
    ensures BaseSum(lots[k := lot], n) == BaseSum(lots, n) + (if k < n then lot.base else 0.0)
    ensures QuoteSum(lots[k := lot], n) == QuoteSum(lots, n) + (if k < n then lot.quote else 0.0)
  {
    if n > 0 {
      SumsPut(lots, k, lot, n - 1);
    }
  }

  lemma SumsTake(lots: map<int, Lot>, k: int, n: nat)
    requires 0 <= k < n && k in lots
    ensures BaseSum(lots - {k}, n) == BaseSum(lots, n) - lots[k].base
    ensures QuoteSum(lots - {k}, n) == QuoteSum(lots, n) - lots[k].quote
  {
    assert (lots - {k})[k := lots[k]] == lots;
    SumsPut(lots - {k}, k, lots[k], n);
  }

  // ---- the invariant ----------------------------------------------------------------

  ghost predicate LotOk(l: Ladder, k: int, lot: Lot) {
    && 1 <= k <= l.levels - 1
    && lot.price == Price(l, k) > 0.0
    && lot.base > 0.0 && lot.base * lot.price == lot.quote
    && (lot.quote == l.perLevel || (l.direction.Short? && lot.quote == l.perLevel * 0.5))
  }

  /** A closed pair earned exactly one step on its own size. */
  ghost predicate PairOk(l: Ladder, t: Trade) {
    && t.side == (if l.direction.Short? then ShortPair else LongPair)
    && t.base > 0.0 && t.gross == t.base * l.step
  }

  ghost predicate LotsOk(l: Ladder, lots: map<int, Lot>) {
    forall k :: k in lots ==> LotOk(l, k, lots[k])
  }

  /** The signed position and the quote spent are the opening leg plus the resting lots. */
  ghost predicate PositionExact(l: Ladder, leg: Leg, b: Book)
    requires l.levels >= 0
  {
    && b.base == (if l.direction.Short? then -(leg.base + BaseSum(b.lots, l.levels))
                  else leg.base + BaseSum(b.lots, l.levels))
    && b.quote == leg.base * leg.entry + QuoteSum(b.lots, l.levels)
  }

  /** Cash in equals cash out: profit, fees and funding add up to the gross of the closed trades;
      every lot paid its opening fee once, and every closed trade its closing fee once. */
  ghost predicate CashExact(l: Ladder, leg: Leg, b: Book) {
    && b.realized + b.fees + b.funding == GrossSum(b.trades)
    && b.fees == leg.fee + l.maker * b.quoteOpened + FeeSum(b.trades)
  }

  ghost predicate PairsExact(l: Ladder, b: Book) {
    && b.roundTrips == |b.trades|
    && b.lotsOpened == b.roundTrips + |b.lots|
    && forall i :: 0 <= i < |b.trades| ==> PairOk(l, b.trades[i])
  }

  ghost predicate Exact(l: Ladder, leg: Leg, b: Book) {
    && ValidLadder(l)
    && LotsOk(l, b.lots)
    && PositionExact(l, leg, b)
    && CashExact(l, leg, b)
    && PairsExact(l, b)
  }

  // ---- preservation -----------------------------------------------------------------

  lemma OpenedLotOk(l: Ladder, k: int, notional: real)
    requires 1 <= k <= l.levels - 1 && Price(l, k) > 0.0 && notional > 0.0
    requires notional == l.perLevel || (l.direction.Short? && notional == l.perLevel * 0.5)
    ensures LotOk(l, k, Lot(Price(l, k), notional / Price(l, k), notional))
  {
    var p := Price(l, k);
    var size := notional / p;
    assert size * p == notional;
    assert size > 0.0;
  }

  lemma OpenKeepsPosition(l: Ladder, leg: Leg, b: Book, k: int, notional: real)
    requires 0 <= k < l.levels && k !in b.lots && Price(l, k) > 0.0 && PositionExact(l, leg, b)
    ensures PositionExact(l, leg, OpenLot(l, b, k, notional))
  {
    SumsPut(b.lots, k, Lot(Price(l, k), notional / Price(l, k), notional), l.levels);
  }

  lemma OpenKeepsCash(l: Ladder, leg: Leg, b: Book, k: int, notional: real)
    requires Price(l, k) > 0.0 && CashExact(l, leg, b)
    ensures CashExact(l, leg, OpenLot(l, b, k, notional))
  {
    assert l.maker * (b.quoteOpened + notional) == l.maker * b.quoteOpened + notional * l.maker;
  }

  lemma OpenKeepsPairs(l: Ladder, b: Book, k: int, notional: real)
    requires Price(l, k) > 0.0 && k !in b.lots && PairsExact(l, b)
    ensures PairsExact(l, OpenLot(l, b, k, notional))
  {
  }

  lemma OpenKeeps(l: Ladder, leg: Leg, b: Book, k: int, notional: real)
    requires Exact(l, leg, b)
    requires 1 <= k <= l.levels - 1 && k !in b.lots && Price(l, k) > 0.0 && notional > 0.0
    requires notional == l.perLevel || (l.direction.Short? && notional == l.perLevel * 0.5)
    ensures Exact(l, leg, OpenLot(l, b, k, notional))
  {
    OpenedLotOk(l, k, notional);
    OpenKeepsPosition(l, leg, b, k, notional);
    OpenKeepsCash(l, leg, b, k, notional);
    OpenKeepsPairs(l, b, k, notional);
  }

  lemma PairGross(l: Ladder, k: int, lot: Lot)
    requires ValidLadder(l) && LotOk(l, k, lot)
    ensures Gross(l, lot, ExitPrice(l, k)) == lot.base * l.step
  {
    PriceStep(l, k);
    PriceStep(l, k - 1);
  }

  /** The price that closes the lot resting at level `k`. */
  function ExitPrice(l: Ladder, k: int): real {
    Price(l, if l.direction.Short? then k - 1 else k + 1)
  }

  lemma CloseKeepsPosition(l: Ladder, leg: Leg, b: Book, k: int, price: real)
    requires l.levels >= 0 && 0 <= k < l.levels && k in b.lots && PositionExact(l, leg, b)
    ensures PositionExact(l, leg, CloseLot(l, b, k, price))
  {
    SumsTake(b.lots, k, l.levels);
  }

  lemma CloseKeepsCash(l: Ladder, leg: Leg, b: Book, k: int, price: real)
    requires k in b.lots && CashExact(l, leg, b)
    ensures CashExact(l, leg, CloseLot(l, b, k, price))
  {
    var c := CloseLot(l, b, k, price);
    SumsAppend(b.trades, c.trades[|b.trades|]);
    assert c.trades == b.trades + [c.trades[|b.trades|]];
  }

  lemma CloseKeepsPairs(l: Ladder, b: Book, k: int)
    requires ValidLadder(l) && k in b.lots && LotOk(l, k, b.lots[k]) && PairsExact(l, b)
    ensures PairsExact(l, CloseLot(l, b, k, ExitPrice(l, k)))
  {
    var c := CloseLot(l, b, k, ExitPrice(l, k));
    PairGross(l, k, b.lots[k]);
    assert b.lots.Keys == c.lots.Keys + {k};
    assert |b.lots| == |b.lots.Keys| && |c.lots| == |c.lots.Keys|;
  }

  lemma CloseKeeps(l: Ladder, leg: Leg, b: Book, k: int)
    requires Exact(l, leg, b) && k in b.lots
    ensures Exact(l, leg, CloseLot(l, b, k, ExitPrice(l, k)))
  {
    CloseKeepsPosition(l, leg, b, k, ExitPrice(l, k));
    CloseKeepsCash(l, leg, b, k, ExitPrice(l, k));
    CloseKeepsPairs(l, b, k);
  }

  lemma OpeningSize(l: Ladder, m: Move, k: int)
    requires ValidLadder(l) && m.prev != m.next && Crosses(l, m, k) && Opens(l, m)
    ensures var notional := Notional(l, m, Price(l, k));
            notional > 0.0 && (notional == l.perLevel || (l.direction.Short? && notional == l.perLevel * 0.5))
  {
    HalfFillOnlyAtHigh(l, m, k);
    if FillRatio(m, Price(l, k)) == 1.0 {
      assert Notional(l, m, Price(l, k)) == l.perLevel;
    }
  }

  lemma FillLevelKeeps(l: Ladder, leg: Leg, b: Book, m: Move, k: int)
    requires Exact(l, leg, b) && m.prev != m.next && Crosses(l, m, k)
    ensures Exact(l, leg, FillLevel(l, b, m, k))
  {
    var partner := if l.direction.Short? then k + 1 else k - 1;
    var after := FillLevel(l, b, m, k);
    if Price(l, k) > 0.0 && Opens(l, m) && k !in b.lots {
      OpeningSize(l, m, k);
      var notional := Notional(l, m, Price(l, k));
      assert after == OpenLot(l, b, k, notional);
      OpenKeeps(l, leg, b, k, notional);
    } else if Price(l, k) > 0.0 && !Opens(l, m) && partner in b.lots {
      assert after == CloseLot(l, b, partner, ExitPrice(l, partner));
      CloseKeeps(l, leg, b, partner);
    } else {
      assert after == b;
    }
  }

  lemma {:induction false} FillLevelsKeeps(l: Ladder, leg: Leg, b: Book, m: Move, lo: int, hi: int)
    requires Exact(l, leg, b) && m.prev != m.next
    requires FirstBelow(l, m) <= lo && hi <= LastCrossed(l, m)
    ensures Exact(l, leg, FillLevels(l, b, m, lo, hi))
    decreases hi - lo
  {
    if lo < hi {
      FillLevelsKeeps(l, leg, b, m, lo, hi - 1);
      CrossingsExactly(l, m, hi);
      FillLevelKeeps(l, leg, FillLevels(l, b, m, lo, hi - 1), m, hi);
    }
  }

  /** Every move keeps the books exact, whatever the price does. */
  lemma FillKeepsExact(l: Ladder, leg: Leg, b: Book, m: Move)
    requires Exact(l, leg, b)
    ensures Exact(l, leg, Fill(l, b, m))
  {
    if m.prev != m.next {
      FillLevelsKeeps(l, leg, b, m, FirstBelow(l, m), LastCrossed(l, m));
    }
  }

  // ---- average-cost marking ---------------------------------------------------------

  /** The unrealized profit of the whole position against its average entry. */
  function Unrealized(b: Book, p: real): real {
    MarkAgainstAverage(b.base, b.quote, p)
  }

  function MarkAgainstAverage(base: real, quote: real, p: real): real {
    if base > 0.0 then base * (p - quote / base)
    else if base < 0.0 then -base * (quote / -base - p)
    else 0.0
  }

  function LegMark(l: Ladder, leg: Leg, p: real): real {
    Gross(l, Lot(leg.entry, leg.base, leg.base * leg.entry), p)
  }

  /** The mark of a position of size `base` bought (or sold) for `quote`. */
  function LinearMark(l: Ladder, base: real, quote: real, p: real): real {
    if l.direction.Short? then quote - base * p else base * p - quote
  }

  lemma LinearMarkAdds(l: Ladder, base1: real, quote1: real, base2: real, quote2: real, p: real)
    ensures LinearMark(l, base1 + base2, quote1 + quote2, p) ==
            LinearMark(l, base1, quote1, p) + LinearMark(l, base2, quote2, p)
  {
  }

  lemma LinearMarkOfNothing(l: Ladder, p: real)
    ensures LinearMark(l, 0.0, 0.0, p) == 0.0
  {
  }

  lemma GrossIsLinear(l: Ladder, lot: Lot, p: real)
    requires lot.base * lot.price == lot.quote
    ensures Gross(l, lot, p) == LinearMark(l, lot.base, lot.quote, p)
  {
  }

  lemma {:induction false} LotMarkIsLinear(l: Ladder, lots: map<int, Lot>, p: real, n: nat)
    requires LotsOk(l, lots)
    ensures LotMark(l, lots, p, n) == LinearMark(l, BaseSum(lots, n), QuoteSum(lots, n), p)
  {
    if n > 0 {
      LotMarkIsLinear(l, lots, p, n - 1);
      if n - 1 in lots {
        var lot := lots[n - 1];
        assert LotOk(l, n - 1, lot);
        GrossIsLinear(l, lot, p);
        LinearMarkAdds(l, BaseSum(lots, n - 1), QuoteSum(lots, n - 1), lot.base, lot.quote, p);
      }
    } else {
      LinearMarkOfNothing(l, p);
    }
  }

  lemma {:induction false} NoBaseNoQuote(l: Ladder, lots: map<int, Lot>, n: nat)
    requires LotsOk(l, lots)
    ensures BaseSum(lots, n) >= 0.0 && QuoteSum(lots, n) >= 0.0
    ensures BaseSum(lots, n) == 0.0 ==> QuoteSum(lots, n) == 0.0
  {
    if n > 0 {
      NoBaseNoQuote(l, lots, n - 1);
      if n - 1 in lots {
        assert lots[n - 1].base * lots[n - 1].price > 0.0;
      }
    }
  }

  lemma AverageMark(l: Ladder, b: Book, size: real, p: real)
    requires size >= 0.0 && (size == 0.0 ==> b.quote == 0.0)
    requires b.base == if l.direction.Short? then -size else size
    ensures Unrealized(b, p) == LinearMark(l, size, b.quote, p)
  {
    if size > 0.0 {
      assert size * (b.quote / size) == b.quote;
    }
  }

  ghost function Size(l: Ladder, leg: Leg, b: Book): real
    requires l.levels >= 0
  {
    leg.base + BaseSum(b.lots, l.levels)
  }

  lemma AverageMarkOfPosition(l: Ladder, leg: Leg, b: Book, p: real)
    requires l.levels >= 0 && ValidLeg(leg) && LotsOk(l, b.lots) && PositionExact(l, leg, b)
    ensures Unrealized(b, p) == LinearMark(l, Size(l, leg, b), b.quote, p)
  {
    NoBaseNoQuote(l, b.lots, l.levels);
    if Size(l, leg, b) == 0.0 {
      assert leg.base == 0.0;
    }
    AverageMark(l, b, Size(l, leg, b), p);
  }

  lemma LotByLotMark(l: Ladder, leg: Leg, b: Book, p: real)
    requires l.levels >= 0 && LotsOk(l, b.lots) && PositionExact(l, leg, b)
    ensures LinearMark(l, Size(l, leg, b), b.quote, p) == LegMark(l, leg, p) + LotMark(l, b.lots, p, l.levels)
  {
    var base, quote := BaseSum(b.lots, l.levels), QuoteSum(b.lots, l.levels);
    LinearMarkAdds(l, leg.base, leg.base * leg.entry, base, quote, p);
    GrossIsLinear(l, Lot(leg.entry, leg.base, leg.base * leg.entry), p);
    LotMarkIsLinear(l, b.lots, p, l.levels);
  }

  /** Marking against the average entry loses nothing: it is the sum of the marks of the
      opening leg and of each lot against its own entry. */
  lemma AverageCostIsExact(l: Ladder, leg: Leg, b: Book, p: real)
    requires Exact(l, leg, b) && ValidLeg(leg)
    ensures Unrealized(b, p) == LegMark(l, leg, p) + LotMark(l, b.lots, p, l.levels)
  {
    AverageMarkOfPosition(l, leg, b, p);
    LotByLotMark(l, leg, b, p);
  }

  // ---- the budget of a neutral grid --------------------------------------------------

  /** `perLevel` once for each of the levels 1 to `n - 1`. */
  function Rungs(perLevel: real, n: nat): real {
    if n <= 1 then 0.0 else Rungs(perLevel, n - 1) + perLevel
  }

  lemma {:induction false} RungsAre(perLevel: real, n: nat)
    requires n >= 1
    ensures Rungs(perLevel, n) == perLevel * (n - 1) as real
  {
    if n >= 2 {
      RungsAre(perLevel, n - 1);
      OneMore(perLevel, (n - 2) as real);
    }
  }

  lemma OneMore(x: real, m: real)
    ensures x * (m + 1.0) == x * m + x
  {
  }

  lemma QuoteAtMost(l: Ladder, k: int, lot: Lot)
    requires l.perLevel >= 0.0 && LotOk(l, k, lot)
    ensures lot.quote <= l.perLevel && k >= 1
  {
  }

  lemma {:induction false} QuoteSumBound(l: Ladder, lots: map<int, Lot>, n: nat)
    requires l.perLevel >= 0.0 && LotsOk(l, lots)
    ensures QuoteSum(lots, n) <= Rungs(l.perLevel, n)
  {
    if n > 0 {
      QuoteSumBound(l, lots, n - 1);
      if n - 1 in lots {
        QuoteAtMost(l, n - 1, lots[n - 1]);
      }
    }
  }

  lemma QuoteOfLots(l: Ladder, leg: Leg, b: Book)
    requires l.levels >= 2 && l.perLevel > 0.0 && LotsOk(l, b.lots) && leg.base == 0.0
    requires b.quote == leg.base * leg.entry + QuoteSum(b.lots, l.levels)
    ensures b.quote <= Rungs(l.perLevel, l.levels)
  {
    assert leg.base * leg.entry == 0.0;
    QuoteSumBound(l, b.lots, l.levels);
  }

  /** A neutral grid never commits more than all its levels but one. */
  lemma NeutralBudget(l: Ladder, leg: Leg, b: Book)
    requires Exact(l, leg, b) && leg.base == 0.0
    ensures b.quote <= l.perLevel * (l.levels - 1) as real
  {
    QuoteOfLots(l, leg, b);
    RungsAre(l.perLevel, l.levels);
  }
}
