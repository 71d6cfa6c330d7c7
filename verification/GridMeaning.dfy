/** What the pieces of a simulated run mean, said in prices and amounts: the way through a candle, the
    opening, stops, funding, liquidation and the size of a lot.
 */
module GridMeaning {
  import opened Common
  import opened GridLadder
  import opened GridLedger
  import opened GridPath
  import opened GridRun

  // ---- the way through a candle ----------------------------------------------------------------

  /** Four moves that lead from `from` over the open and both extremes to the close: a candle that
      closes below its open meets its high first, any other its low. */
  ghost predicate Through(moves: seq<Move>, from: real, c: Candle) {
    && |moves| == 4
    && (forall i :: 0 <= i < 4 ==> moves[i].high == c.high && moves[i].low == c.low)
    && moves[0].prev == from && (forall i :: 0 < i < 4 ==> moves[i].prev == moves[i - 1].next)
    && moves[0].next == c.open && moves[3].next == c.close
    && (c.close < c.open ==> moves[1].next == c.high && moves[2].next == c.low)
    && (c.close >= c.open ==> moves[1].next == c.low && moves[2].next == c.high)
  }

  lemma UnrolledPoints(p: Params, r: Run, c: Candle, a: real, b: real, d: real, e: real)
    requires p.levels >= 2 && p.upper > p.lower
    ensures PointsStep(p, r, c, [a, b, d, e]) ==
            PointStep(p, PointStep(p, PointStep(p, PointStep(p, r, c, a), c, b), c, d), c, e)
  {
    OnePointMore(p, r, c, [], a);
    OnePointMore(p, r, c, [a], b);
    OnePointMore(p, r, c, [a, b], d);
    OnePointMore(p, r, c, [a, b, d], e);
    assert [] + [a] == [a] && [a] + [b] == [a, b] && [a, b] + [d] == [a, b, d] && [a, b, d] + [e] == [a, b, d, e];
  }

  lemma OnePointMore(p: Params, r: Run, c: Candle, points: seq<real>, x: real)
    requires p.levels >= 2 && p.upper > p.lower
    ensures PointsStep(p, r, c, points + [x]) == PointStep(p, PointsStep(p, r, c, points), c, x)
  {
    assert (points + [x])[..|points|] == points;
  }

  /** Every candle without a stop is walked in that order, and nothing else is. */
  lemma CandleIsWalkedThrough(p: Params, r: Run, c: Candle)
    requires p.levels >= 2 && p.upper > p.lower && r.end.Completed? && !CandleStep(p, r, c).end.StopLoss?
    ensures var n := CandleStep(p, r, c);
            |n.moves| == |r.moves| + 4 && n.moves[..|r.moves|] == r.moves
            && Through(n.moves[|r.moves|..], r.last, c) && n.last == c.close
  {
    var first, second := if c.close < c.open then c.high else c.low, if c.close < c.open then c.low else c.high;
    UnrolledPoints(p, r, c, c.open, first, second, c.close);
    assert CandlePath(c) == [c.open, first, second, c.close];
    PointsKeepCurve(p, r, c, CandlePath(c));
    BarKeepsPath(p, PointsStep(p, r, c, CandlePath(c)));
    FourMoves(p, r, c, c.open, first, second, c.close);
  }

  lemma BarKeepsPath(p: Params, r: Run)
    ensures var n := BarClose(p, r); n.moves == r.moves && n.last == r.last && (n.end.StopLoss? <==> r.end.StopLoss?)
  {
  }

  lemma OneMove(p: Params, r: Run, c: Candle, x: real)
    requires p.levels >= 2 && p.upper > p.lower && !PointStep(p, r, c, x).end.StopLoss?
    ensures var n := PointStep(p, r, c, x);
            n.moves == r.moves + [Move(r.last, x, c.high, c.low)] && n.last == x && !r.end.StopLoss?
  {
  }

  lemma FourMoves(p: Params, r: Run, c: Candle, a: real, b: real, d: real, e: real)
    requires p.levels >= 2 && p.upper > p.lower
    requires !PointStep(p, PointStep(p, PointStep(p, PointStep(p, r, c, a), c, b), c, d), c, e).end.StopLoss?
    ensures var n := PointStep(p, PointStep(p, PointStep(p, PointStep(p, r, c, a), c, b), c, d), c, e);
            n.last == e && n.moves == r.moves + [Move(r.last, a, c.high, c.low), Move(a, b, c.high, c.low),
                                                 Move(b, d, c.high, c.low), Move(d, e, c.high, c.low)]
  {
    var r1 := PointStep(p, r, c, a);
    var r2 := PointStep(p, r1, c, b);
    var r3 := PointStep(p, r2, c, d);
    OneMove(p, r3, c, e);
    OneMove(p, r2, c, d);
    OneMove(p, r1, c, b);
    OneMove(p, r, c, a);
  }

  /** The book of a candle of a grid without a stop: four fills. */
  function Walked(l: Ladder, b: Book, from: real, c: Candle, first: real, second: real): Book
    requires l.step > 0.0
  {
    var begun := Fill(l, b, Move(from, c.open, c.high, c.low));
    var there := Fill(l, begun, Move(c.open, first, c.high, c.low));
    Fill(l, Fill(l, there, Move(first, second, c.high, c.low)), Move(second, c.close, c.high, c.low))
  }

  lemma CandleBook(p: Params, r: Run, c: Candle)
    requires SafeSetting(p) && Safe(p, r) && r.end.Completed? && PositivePrices(c) && StopLevel(p).None?
    ensures var n := CandleStep(p, r, c);
            && n.end.Completed?
            && n.book == (if c.close < c.open then Walked(LadderOf(p), r.book, r.last, c, c.high, c.low)
                          else Walked(LadderOf(p), r.book, r.last, c, c.low, c.high))
  {
    var first, second := if c.close < c.open then c.high else c.low, if c.close < c.open then c.low else c.high;
    assert CandlePath(c) == [c.open, first, second, c.close];
    UnrolledPoints(p, r, c, c.open, first, second, c.close);
    PointsKeepSafe(p, r, c, CandlePath(c));
    BarKeepsSafe(p, PointsStep(p, r, c, CandlePath(c)));
  }

  // ---- two candles with the same extremes ---------------------------------------------------------

  function Span(lo: int, hi: int): set<int>
    decreases hi - lo
  {
    if hi <= lo then {} else Span(lo, hi - 1) + {hi}
  }

  lemma {:induction false} InSpan(lo: int, hi: int, k: int)
    ensures k in Span(lo, hi) <==> lo < k <= hi
    decreases hi - lo
  {
    if lo < hi { InSpan(lo, hi - 1, k); }
  }

  ghost predicate Holds(l: Ladder, b: Book, levels: set<int>, pairs: int) {
    Exact(l, Leg(0.0, 1.0, 0.0), b) && b.lots.Keys == levels && b.roundTrips == pairs
  }

  /** A falling move buys at the levels it crosses. */
  lemma FallBuys(l: Ladder, b: Book, levels: set<int>, pairs: int, m: Move)
    requires ValidLadder(l) && l.direction.Neutral? && l.lower > 0.0 && m.Down() && Holds(l, b, levels, pairs)
    ensures Holds(l, Fill(l, b, m), levels + Span(FirstBelow(l, m), LastCrossed(l, m)), pairs)
  {
    var lo, hi := FirstBelow(l, m), LastCrossed(l, m);
    var n := Fill(l, b, m);
    FillKeepsExact(l, Leg(0.0, 1.0, 0.0), b, m);
    OneSided(l, b, m, lo, hi);
    forall k ensures k in n.lots.Keys <==> k in levels + Span(lo, hi) {
      FillHolds(l, b, m, k);
      CrossingsExactly(l, m, k);
      InSpan(lo, hi, k);
      if k >= 1 { PriceMonotone(l, 0, k); }
    }
    assert n.lots.Keys == levels + Span(lo, hi);
  }

  /** A rising move sells the lots one step below the levels it crosses. */
  lemma RiseSells(l: Ladder, b: Book, levels: set<int>, pairs: int, m: Move)
    requires ValidLadder(l) && l.direction.Neutral? && l.lower > 0.0 && m.prev < m.next && Holds(l, b, levels, pairs)
    ensures var left := levels - Span(FirstBelow(l, m) - 1, LastCrossed(l, m) - 1);
            Holds(l, Fill(l, b, m), left, pairs + |levels| - |left|)
  {
    var lo, hi := FirstBelow(l, m), LastCrossed(l, m);
    var n, left := Fill(l, b, m), levels - Span(lo - 1, hi - 1);
    FillKeepsExact(l, Leg(0.0, 1.0, 0.0), b, m);
    OneSided(l, b, m, lo, hi);
    forall k ensures k in n.lots.Keys <==> k in left {
      FillHolds(l, b, m, k);
      CrossingsExactly(l, m, k + 1);
      InSpan(lo - 1, hi - 1, k);
      if k >= 0 { PriceMonotone(l, 0, k + 1); }
    }
    assert n.lots.Keys == left;
    assert |b.lots| == |b.lots.Keys| && |n.lots| == |n.lots.Keys|;
  }

  /** A move only opens lots or only closes them. */
  lemma {:induction false} OneSided(l: Ladder, b: Book, m: Move, lo: int, hi: int)
    ensures Opens(l, m) ==> FillLevels(l, b, m, lo, hi).roundTrips == b.roundTrips
    ensures !Opens(l, m) ==> FillLevels(l, b, m, lo, hi).lotsOpened == b.lotsOpened
    decreases hi - lo
  {
    if lo < hi {
      OneSided(l, b, m, lo, hi - 1);
    }
  }

  /** The range of levels of a move, from the prices around it. */
  lemma MoveRange(l: Ladder, m: Move, lo: int, hi: int)
    requires l.step > 0.0 && 0 <= lo && 0 <= hi <= l.levels - 1
    requires Price(l, lo) <= m.Min() < Price(l, lo + 1) && Price(l, hi) <= m.Max()
    requires hi == l.levels - 1 || m.Max() < Price(l, hi + 1)
    ensures FirstBelow(l, m) == lo && LastCrossed(l, m) == hi
  {
    LevelIs(l, m.Min(), lo);
    if hi >= 1 { LevelOfFloor(l, m.Max(), hi); }
    LevelOfFloor(l, m.Max(), hi + 1);
    if hi == 0 { AtLeastLower(l, m.Max()); }
  }

  lemma LevelIs(l: Ladder, x: real, k: int)
    requires l.step > 0.0 && k >= 0 && Price(l, k) <= x < Price(l, k + 1)
    ensures LevelOf(l, x) == k
  {
    if k >= 1 { LevelOfFloor(l, x, k); } else { AtLeastLower(l, x); }
    LevelOfFloor(l, x, k + 1);
  }

  lemma AtLeastLower(l: Ladder, x: real)
    requires l.step > 0.0 && Price(l, 0) <= x
    ensures LevelOf(l, x) >= 0
  {
    assert (x - l.lower) / l.step >= 0.0;
  }

  /** Levels at 95, 100 and 105, between 90 and 110. */
  const PLAIN := Params(90.0, 110.0, 4, 400.0, 1.0, Neutral, None, None, 0.0, 0.0, 0.0, 0.0, 1.0)
  const RUNGS := Ladder(90.0, 5.0, 4, 100.0, 0.0, Neutral)

  lemma RunOfOne(p: Params, r: Run, c: Candle)
    requires p.levels >= 2 && p.upper > p.lower
    ensures RunOver(p, r, [c]) == CandleStep(p, r, c)
  {
    assert [c][..0] == [];
  }

  lemma SafeStart(p: Params, c: Candle)
    requires SafeSetting(p) && p.lower < c.open < p.upper
    ensures Accepts(p, [c]) && Divides(p, [c])
    ensures var r := Start(p, [c]);
            r.last == c.open && r.end.Completed? && Safe(p, r) && Holds(LadderOf(p), r.book, {}, 0)
  {
    StartOk(p, [c]);
    assert LegOf(p, c.open) == Leg(0.0, 1.0, 0.0);
    assert p.maker * 0.0 == 0.0;
  }

  lemma SafeCandle(p: Params, c: Candle)
    requires SafeSetting(p) && p.lower < c.open < p.upper && StopLevel(p).None? && PositivePrices(c)
    ensures Accepts(p, [c]) && Divides(p, [c])
    ensures var l, b, n := LadderOf(p), Start(p, [c]).book, RunOver(p, Start(p, [c]), [c]);
            n.end.Completed? && n.book == (if c.close < c.open then Walked(l, b, c.open, c, c.high, c.low)
                                           else Walked(l, b, c.open, c, c.low, c.high))
  {
    SafeStart(p, c);
    RunOfOne(p, Start(p, [c]), c);
    CandleBook(p, Start(p, [c]), c);
  }

  lemma PlainSetting()
    ensures LadderOf(PLAIN) == RUNGS && SafeSetting(PLAIN) && StopLevel(PLAIN).None?
  {
  }

  /** Up to the high first, then down to the low: three lots are bought, and none is sold. */
  lemma FallingCandle()
    ensures var c := Candle(100.0, 106.0, 94.0, 96.0);
            && Accepts(PLAIN, [c]) && Divides(PLAIN, [c])
            && var r := RunOver(PLAIN, Start(PLAIN, [c]), [c]);
            r.end.Completed? && r.book.lots.Keys == {1, 2, 3} && r.book.roundTrips == 0
  {
    var c := Candle(100.0, 106.0, 94.0, 96.0);
    PlainSetting();
    SafeStart(PLAIN, c);
    SafeCandle(PLAIN, c);
    FallingFills(Start(PLAIN, [c]).book);
  }

  lemma FallingFills(b: Book)
    requires Holds(RUNGS, b, {}, 0)
    ensures Holds(RUNGS, Walked(RUNGS, b, 100.0, Candle(100.0, 106.0, 94.0, 96.0), 106.0, 94.0), {1, 2, 3}, 0)
  {
    var up, down := Move(100.0, 106.0, 106.0, 94.0), Move(106.0, 94.0, 106.0, 94.0);
    var back := Move(94.0, 96.0, 106.0, 94.0);
    MoveRange(RUNGS, up, 2, 3);
    RiseSells(RUNGS, b, {}, 0, up);
    assert {} - Span(1, 2) == {};
    var b1 := Fill(RUNGS, b, up);
    MoveRange(RUNGS, down, 0, 3);
    FallBuys(RUNGS, b1, {}, 0, down);
    assert {} + Span(0, 3) == {1, 2, 3};
    var b2 := Fill(RUNGS, b1, down);
    MoveRange(RUNGS, back, 0, 1);
    RiseSells(RUNGS, b2, {1, 2, 3}, 0, back);
    assert {1, 2, 3} - Span(-1, 0) == {1, 2, 3};
  }

  /** Down to the low first, then up to the high: two lots are bought and sold, and a third is bought. */
  lemma RisingCandle()
    ensures var c := Candle(100.0, 106.0, 94.0, 104.0);
            && Accepts(PLAIN, [c]) && Divides(PLAIN, [c])
            && var r := RunOver(PLAIN, Start(PLAIN, [c]), [c]);
            r.end.Completed? && r.book.lots.Keys == {3} && r.book.roundTrips == 2
  {
    var c := Candle(100.0, 106.0, 94.0, 104.0);
    PlainSetting();
    SafeStart(PLAIN, c);
    SafeCandle(PLAIN, c);
    RisingFills(Start(PLAIN, [c]).book);
  }

  lemma RisingFills(b: Book)
    requires Holds(RUNGS, b, {}, 0)
    ensures Holds(RUNGS, Walked(RUNGS, b, 100.0, Candle(100.0, 106.0, 94.0, 104.0), 94.0, 106.0), {3}, 2)
  {
    var down, up := Move(100.0, 94.0, 106.0, 94.0), Move(94.0, 106.0, 106.0, 94.0);
    var back := Move(106.0, 104.0, 106.0, 94.0);
    MoveRange(RUNGS, down, 0, 2);
    FallBuys(RUNGS, b, {}, 0, down);
    assert {} + Span(0, 2) == {1, 2};
    var b1 := Fill(RUNGS, b, down);
    MoveRange(RUNGS, up, 0, 3);
    RiseSells(RUNGS, b1, {1, 2}, 0, up);
    assert {1, 2} - Span(-1, 2) == {};
    var b2 := Fill(RUNGS, b1, up);
    MoveRange(RUNGS, back, 2, 3);
    FallBuys(RUNGS, b2, {}, 2, back);
    assert {} + Span(2, 3) == {3};
  }

  // ---- the lot that is opened ----------------------------------------------------------------------

  /** Crossing a free level opens a lot at its price, for a full share of the notional, or for half
      a share on a short grid that only touches the high of the candle there. */
  lemma OpenedLotExactly(l: Ladder, b: Book, m: Move, k: int)
    requires ValidLadder(l) && Opens(l, m) && Touches(l, m, k) && k !in b.lots
    ensures var share := if l.direction.Short? && m.next == m.high && Price(l, k) == m.next
                         then l.perLevel / 2.0 else l.perLevel;
            var n := Fill(l, b, m);
            k in n.lots && n.lots[k] == Lot(Price(l, k), share / Price(l, k), share)
  {
    CrossingsExactly(l, m, k);
    HalfFillOnlyAtHigh(l, m, k);
    LotOfLevel(l, b, m, FirstBelow(l, m), LastCrossed(l, m), k);
  }

  lemma {:induction false} LotOfLevel(l: Ladder, b: Book, m: Move, lo: int, hi: int, k: int)
    requires Opens(l, m) && Price(l, k) > 0.0 && k !in b.lots && lo >= 0
    ensures var n, x := FillLevels(l, b, m, lo, hi), Notional(l, m, Price(l, k));
            if lo < k <= hi then k in n.lots && n.lots[k] == Lot(Price(l, k), x / Price(l, k), x) else k !in n.lots
    decreases hi - lo
  {
    if lo < hi {
      LotOfLevel(l, b, m, lo, hi - 1, k);
      FillLevelCases(l, FillLevels(l, b, m, lo, hi - 1), m, hi);
    }
  }

  // ---- the opening -----------------------------------------------------------------------------------

  /** The entry is the nearest price to the open that is inside the range, or, for an open outside
      of it, one step inside the bound that was passed. */
  lemma EntryExactly(p: Params, candles: seq<Candle>)
    requires Accepts(p, candles)
    ensures var open, step, entry := candles[0].open, (p.upper - p.lower) / p.levels as real, Entry(p, candles[0].open);
            && p.lower < entry < p.upper
            && (p.lower < open < p.upper ==> entry == open)
            && (open <= p.lower ==> entry == p.lower + step) && (open >= p.upper ==> entry == p.upper - step)
  {
    LadderValid(p, candles);
    var n := p.levels as real;
    var step := (p.upper - p.lower) / n;
    assert step * n == p.upper - p.lower && step > 0.0;
    assert step * (n - 2.0) >= 0.0;
  }

  /** A directional grid starts with half of its leveraged notional in the market, at taker cost; a
      neutral one starts flat. */
  lemma OpeningExactly(p: Params, candles: seq<Candle>)
    requires Accepts(p, candles) && Divides(p, candles)
    ensures var b, half := Start(p, candles).book, p.investment * (if p.leverage < 1.0 then 1.0 else p.leverage) / 2.0;
            var entry := Entry(p, candles[0].open);
            && b.lots == map[] && b.roundTrips == 0 && b.funding == 0.0 && b.realized == -b.fees
            && (p.direction.Neutral? ==> b.base == 0.0 && b.quote == 0.0 && b.fees == 0.0)
            && (p.direction.Long? ==> b.base * entry == half && b.quote == half && b.fees == half * p.taker)
            && (p.direction.Short? ==> b.base * entry == -half && b.quote == half && b.fees == half * p.taker)
  {
    var entry := Entry(p, candles[0].open);
    LegPaysHalf(p, entry);
    if p.direction.Short? {
      Negated(LegOf(p, entry).base, entry);
    }
  }

  lemma Negated(a: real, b: real)
    ensures -a * b == -(a * b)
  {
  }

  // ---- stops -----------------------------------------------------------------------------------------

  /** The stop of a grid: an absolute price first, else a distance from the bound it would lose at. */
  ghost predicate StopsAt(p: Params, stop: real) {
    if p.stopPrice.Some? && p.stopPrice.value > 0.0 then stop == p.stopPrice.value
    else
      && p.stopPct.Some? && p.stopPct.value > 0.0
      && (p.direction.Short? ==> (stop - p.upper) * 100.0 == p.upper * p.stopPct.value)
      && (!p.direction.Short? ==> (p.lower - stop) * 100.0 == p.lower * p.stopPct.value)
  }

  lemma StopLevelExactly(p: Params)
    ensures forall stop :: StopsAt(p, stop) <==> StopLevel(p) == Some(stop)
  {
    forall stop ensures StopsAt(p, stop) <==> StopLevel(p) == Some(stop) {
      if p.stopPct.Some? {
        StopDistance(p.upper, p.stopPct.value, stop);
        StopDistance(p.lower, p.stopPct.value, stop);
      }
    }
  }

  lemma StopDistance(bound: real, pct: real, stop: real)
    ensures (stop - bound) * 100.0 == bound * pct <==> stop == bound * (1.0 + pct / 100.0)
    ensures (bound - stop) * 100.0 == bound * pct <==> stop == bound * (1.0 - pct / 100.0)
  {
  }

  ghost predicate PastStop(p: Params, x: real) {
    exists stop :: StopsAt(p, stop) && if p.direction.Short? then x >= stop else x <= stop
  }

  lemma PastStopExactly(p: Params, x: real)
    ensures PastStop(p, x) <==> StopHit(p, x)
  {
    StopLevelExactly(p);
    if StopHit(p, x) { assert StopsAt(p, StopLevel(p).value); }
  }

  /** A candle ends in a stop exactly when one of its four prices is past the stop; the exit is at
      the first such price on the way. */
  lemma CandleStopsExactly(p: Params, r: Run, c: Candle)
    requires p.levels >= 2 && p.upper > p.lower && r.end.Completed?
    ensures var n := CandleStep(p, r, c);
            var first, second := if c.close < c.open then c.high else c.low, if c.close < c.open then c.low else c.high;
            && (n.end.StopLoss? <==>
                  PastStop(p, c.open) || PastStop(p, c.high) || PastStop(p, c.low) || PastStop(p, c.close))
            && (n.end.StopLoss? ==> n.last == if PastStop(p, c.open) then c.open
                                              else if PastStop(p, first) then first
                                              else if PastStop(p, second) then second else c.close)
  {
    var first, second := if c.close < c.open then c.high else c.low, if c.close < c.open then c.low else c.high;
    PastStopExactly(p, c.open);
    PastStopExactly(p, first);
    PastStopExactly(p, second);
    PastStopExactly(p, c.close);
    assert CandlePath(c) == [c.open, first, second, c.close];
    UnrolledPoints(p, r, c, c.open, first, second, c.close);
    FourPoints(p, r, c, c.open, first, second, c.close);
    PointsKeepCurve(p, r, c, CandlePath(c));
  }

  lemma FourPoints(p: Params, r: Run, c: Candle, a: real, b: real, d: real, e: real)
    requires p.levels >= 2 && p.upper > p.lower && r.end.Completed?
    ensures var n := PointStep(p, PointStep(p, PointStep(p, PointStep(p, r, c, a), c, b), c, d), c, e);
            && (n.end.StopLoss? <==> StopHit(p, a) || StopHit(p, b) || StopHit(p, d) || StopHit(p, e))
            && n.last == if StopHit(p, a) then a else if StopHit(p, b) then b else if StopHit(p, d) then d else e
  {
    PointEnds(p, r, c, a);
    PointEnds(p, PointStep(p, r, c, a), c, b);
    PointEnds(p, PointStep(p, PointStep(p, r, c, a), c, b), c, d);
    PointEnds(p, PointStep(p, PointStep(p, PointStep(p, r, c, a), c, b), c, d), c, e);
  }

  lemma PointEnds(p: Params, r: Run, c: Candle, x: real)
    requires p.levels >= 2 && p.upper > p.lower && !r.end.Liquidation?
    ensures var n := PointStep(p, r, c, x);
            if r.end.StopLoss? then n == r
            else n.last == x && n.end == if StopHit(p, x) then StopLoss else Completed
  {
  }

  /** A stop exit books the mark at the stop point, less slippage on the whole position and the taker
      fee on what is received or paid. */
  lemma StopBooksTheMark(p: Params, b: Book, point: real)
    requires b.base != 0.0
    ensures var n, size := StopOut(p, b, point), AbsReal(b.base);
            var paid := size * point * (if b.base > 0.0 then 1.0 - p.slippage else 1.0 + p.slippage);
            && n.base == 0.0 && n.quote == 0.0 && n.lots == map[] && n.fees == b.fees + paid * p.taker
            && n.realized == b.realized + Unrealized(b, point) - size * point * p.slippage - paid * p.taker
  {
    var size := AbsReal(b.base);
    var price := Slipped(p, b.base, point);
    assert size * (b.quote / size) == b.quote;
    StopAlgebra(size, b.quote / size, point, p.slippage);
    PaidAlgebra(size, point, 1.0 - p.slippage);
    PaidAlgebra(size, point, 1.0 + p.slippage);
  }

  lemma StopAlgebra(size: real, average: real, point: real, slippage: real)
    ensures size * (point * (1.0 - slippage) - average) == size * (point - average) - size * point * slippage
    ensures size * (average - point * (1.0 + slippage)) == size * (average - point) - size * point * slippage
  {
  }

  lemma PaidAlgebra(size: real, point: real, factor: real)
    ensures size * (point * factor) == size * point * factor
  {
  }

  // ---- funding and liquidation -----------------------------------------------------------------------

  /** Funding is the signed market value times the rate and the share of eight hours: longs pay it
      and shorts receive it. */
  lemma FundingExactly(p: Params, b: Book, last: real)
    ensures var paid := b.base * last * p.funding8h * (p.barHours / 8.0);
            PayFunding(p, b, last) == b.(realized := b.realized - paid, funding := b.funding + paid)
  {
    SignedFunding(b.base, last, p.funding8h, p.barHours / 8.0);
  }

  lemma SignedFunding(base: real, last: real, rate: real, share: real)
    ensures base > 0.0 ==> 1.0 * (AbsReal(base) * last) * rate * share == base * last * rate * share
    ensures base < 0.0 ==> -1.0 * (AbsReal(base) * last) * rate * share == base * last * rate * share
    ensures rate == 0.0 || base == 0.0 ==> base * last * rate * share == 0.0
  {
  }

  /** A long position is liquidated when 99 per cent of its market value no longer cover what it cost
      beyond the margin; a short one when the margin and its proceeds no longer cover 101 per cent. */
  lemma LiquidatesExactly(p: Params, b: Book, last: real)
    ensures var margin := p.investment + b.realized;
            Liquidates(p, b, last) <==>
            || (b.base > 0.0 && last > 0.0 && margin - b.quote + 0.99 * (b.base * last) <= 0.0)
            || (b.base < 0.0 && last > 0.0 && margin + b.quote - 1.01 * (-b.base * last) <= 0.0)
  {
    MarkOfSize(b.base, b.quote, last);
    HeldIsPositive(AbsReal(b.base), last);
  }

  lemma MarkOfSize(base: real, quote: real, last: real)
    ensures base > 0.0 ==> MarkAgainstAverage(base, quote, last) == base * last - quote
    ensures base < 0.0 ==> MarkAgainstAverage(base, quote, last) == quote - -base * last
  {
    if base > 0.0 {
      assert base * (quote / base) == quote;
    } else if base < 0.0 {
      assert -base * (quote / -base) == quote;
    }
  }

  lemma HeldIsPositive(size: real, last: real)
    requires size >= 0.0
    ensures size * last > 0.0 <==> size > 0.0 && last > 0.0
  {
  }

  /** The close of a bar that has not been stopped: funding, then either the end in liquidation, or
      one more point of the curve, the margin with the position marked at the last price. */
  lemma BarExactly(p: Params, r: Run)
    requires r.end.Completed?
    ensures var n, b := BarClose(p, r), PayFunding(p, r.book, r.last);
            var worth := p.investment + b.realized + (if b.base > 0.0 then b.base * r.last - b.quote
                                                      else if b.base < 0.0 then b.quote + b.base * r.last else 0.0);
            && |n.equity| == |r.equity| + 1 && n.equity[..|r.equity|] == r.equity
            && n.moves == r.moves && n.last == r.last
            && (n.end.Liquidation? <==> Liquidates(p, b, r.last)) && (!n.end.Liquidation? ==> n.end.Completed?)
            && n.equity[|r.equity|] == (if n.end.Liquidation? || worth < 0.0 then 0.0 else worth)
            && (if n.end.Liquidation? then n.book.realized == -p.investment else n.book == b)
  {
    var b := PayFunding(p, r.book, r.last);
    MarkOfSize(b.base, b.quote, r.last);
  }
}
