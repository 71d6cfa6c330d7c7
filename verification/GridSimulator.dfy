/** The simulator itself: a mutable level-to-lots dictionary and running totals, updated in
    place candle by candle, point by point and level by level.
 */
module GridSimulator {
  import opened Common
  import opened GridLadder
  import opened GridLedger
  import opened GridRun
  import Drawdown

  datatype Report = Report(
    end: EndReason, roundTrips: int, realized: real, fees: real, funding: real,
    finalEquity: real, maxDrawdown: real, equity: seq<real>, trades: seq<Trade>)

  datatype Outcome = InvalidParameters | DivisionByZero | Simulated(report: Report)

  class OpenGrid {
    const params: Params
    const ladder: Ladder

    var openLots: map<int, seq<Lot>>
    var baseHeld: real
    var quoteSpent: real
    var realized: real
    var feesPaid: real
    var fundingPaid: real
    var roundTrips: int
    var trades: seq<Trade>
    var lastPrice: real
    var endReason: EndReason
    var equity: seq<real>

    ghost var lotsOpened: int
    ghost var quoteOpened: real
    ghost var moves: seq<Move>

    /** The dictionary keeps a queue per level; no queue is ever empty or longer than one. */
    ghost predicate Valid()
      reads this
    {
      && params.levels >= 2 && params.upper > params.lower && ladder == LadderOf(params) && ladder.step > 0.0
      && forall k :: k in openLots ==> |openLots[k]| == 1
    }

    ghost function Lots(): map<int, Lot>
      reads this
      requires Valid()
    {
      map k | k in openLots :: openLots[k][0]
    }

    ghost function View(): Book
      reads this
      requires Valid()
    {
      Book(Lots(), baseHeld, quoteSpent, realized, feesPaid, fundingPaid, roundTrips, lotsOpened, quoteOpened, trades)
    }

    ghost function State(): Run
      reads this
      requires Valid()
    {
      Run(View(), lastPrice, endReason, equity, moves)
    }

    constructor (p: Params, candles: seq<Candle>)
      requires Accepts(p, candles) && Divides(p, candles)
      ensures Valid() && params == p && State() == Start(p, candles)
    {
      var step := (p.upper - p.lower) / p.levels as real;
      var entry := candles[0].open;
      if !(p.lower < entry < p.upper) {
        entry := Min(Max(entry, p.lower + step), p.upper - step);
      }
      var base, quote, fee := 0.0, 0.0, 0.0;
      if p.direction.Long? || p.direction.Short? {
        quote := Notional0(p) / 2.0;
        base := quote / entry;
        fee := quote * p.taker;
      }
      params, ladder := p, LadderOf(p);
      openLots, trades, roundTrips := map[], [], 0;
      baseHeld := if p.direction.Short? then -base else base;
      quoteSpent, feesPaid, fundingPaid, realized := quote, fee, 0.0, -fee;
      lastPrice, endReason, equity := entry, Completed, [p.investment];
      lotsOpened, quoteOpened, moves := 0, 0.0, [];
      new;
      LadderValid(p, candles);
    }

    method PushLot(lvl: int, lot: Lot)
      modifies this`openLots
      ensures openLots == old(openLots)[lvl := (if lvl in old(openLots) then old(openLots)[lvl] else []) + [lot]]
    {
      openLots := openLots[lvl := (if lvl in openLots then openLots[lvl] else []) + [lot]];
    }

    /** Takes the oldest lot of a level; an emptied queue is deleted. */
    method PopLot(lvl: int) returns (lot: Lot)
      requires lvl in openLots && openLots[lvl] != []
      modifies this`openLots
      ensures [lot] + (if lvl in openLots then openLots[lvl] else []) == old(openLots)[lvl]
      ensures openLots - {lvl} == old(openLots) - {lvl}
      ensures lvl in openLots ==> openLots[lvl] != []
    {
      lot := openLots[lvl][0];
      var rest := openLots[lvl][1..];
      if rest == [] {
        openLots := openLots - {lvl};
      } else {
        openLots := openLots[lvl := rest];
      }
    }

    /** The ledger side of opening a lot. */
    method PayForLot(size: real, notional: real)
      modifies this`baseHeld, this`quoteSpent, this`feesPaid, this`realized, this`lotsOpened, this`quoteOpened
      ensures baseHeld == if ladder.direction.Short? then old(baseHeld) - size else old(baseHeld) + size
      ensures quoteSpent == old(quoteSpent) + notional
      ensures feesPaid == old(feesPaid) + notional * ladder.maker
      ensures realized == old(realized) - notional * ladder.maker
      ensures lotsOpened == old(lotsOpened) + 1 && quoteOpened == old(quoteOpened) + notional
    {
      var fee := notional * ladder.maker;
      baseHeld := if ladder.direction.Short? then baseHeld - size else baseHeld + size;
      quoteSpent, feesPaid, realized := quoteSpent + notional, feesPaid + fee, realized - fee;
      lotsOpened, quoteOpened := lotsOpened + 1, quoteOpened + notional;
    }

    /** The ledger side of closing a lot. */
    method SettleLot(lot: Lot, gross: real, fee: real)
      modifies this`baseHeld, this`quoteSpent, this`feesPaid, this`realized, this`roundTrips, this`trades
      ensures baseHeld == if ladder.direction.Short? then old(baseHeld) + lot.base else old(baseHeld) - lot.base
      ensures quoteSpent == old(quoteSpent) - lot.quote
      ensures feesPaid == old(feesPaid) + fee && realized == old(realized) + (gross - fee)
      ensures roundTrips == old(roundTrips) + 1
      ensures trades == old(trades) +
                [Trade(if ladder.direction.Short? then ShortPair else LongPair, lot.base, gross, fee)]
    {
      feesPaid, realized := feesPaid + fee, realized + (gross - fee);
      roundTrips := roundTrips + 1;
      baseHeld := if ladder.direction.Short? then baseHeld + lot.base else baseHeld - lot.base;
      quoteSpent := quoteSpent - lot.quote;
      trades := trades + [Trade(if ladder.direction.Short? then ShortPair else LongPair, lot.base, gross, fee)];
    }

    method OpenAt(lvl: int, price: real, notional: real)
      requires Valid() && price == Price(ladder, lvl) > 0.0 && lvl !in openLots
      modifies this
      ensures Valid()
      ensures State() == old(State()).(book := OpenLot(ladder, old(View()), lvl, notional))
    {
      var size := notional / price;
      PushLot(lvl, Lot(price, size, notional));
      assert Lots() == old(Lots())[lvl := Lot(price, size, notional)];
      PayForLot(size, notional);
    }

    method CloseAt(lvl: int, price: real)
      requires Valid() && lvl in openLots
      modifies this
      ensures Valid()
      ensures State() == old(State()).(book := CloseLot(ladder, old(View()), lvl, price))
    {
      var lot := PopLot(lvl);
      assert |old(openLots)[lvl]| == 1;
      assert lvl !in openLots && openLots == old(openLots) - {lvl};
      assert lot == old(Lots())[lvl] && Lots() == old(Lots()) - {lvl};
      SettleLot(lot, Gross(ladder, lot, price), FeeOn(lot.base, price, ladder.maker));
    }

    method FillOne(m: Move, lvl: int)
      requires Valid()
      modifies this
      ensures Valid()
      ensures State() == old(State()).(book := FillLevel(ladder, old(View()), m, lvl))
    {
      var price := Price(ladder, lvl);
      if price <= 0.0 {
        return;
      }
      if Opens(ladder, m) {
        if lvl in openLots && openLots[lvl] != [] {
          return;
        }
        OpenAt(lvl, price, Notional(ladder, m, price));
      } else {
        var partner := if ladder.direction.Short? then lvl + 1 else lvl - 1;
        if partner in openLots && openLots[partner] != [] {
          CloseAt(partner, price);
        }
      }
    }

    /** Fills every level between two prices, one after the other, from the lowest up. */
    method FillBetween(m: Move)
      requires Valid()
      modifies this
      ensures Valid()
      ensures State() == old(State()).(book := Fill(ladder, old(View()), m))
    {
      if m.prev == m.next {
        return;
      }
      var lo, hi := FirstBelow(ladder, m), LastCrossed(ladder, m);
      var lvl := lo + 1;
      while lvl <= hi
        invariant Valid() && lo < lvl && (lvl <= hi + 1 || lvl == lo + 1)
        invariant State() == old(State()).(book := FillLevels(ladder, old(View()), m, lo, lvl - 1))
      {
        FillOne(m, lvl);
        lvl := lvl + 1;
      }
    }

    method StopPosition(point: real)
      requires Valid()
      modifies this
      ensures Valid()
      ensures State() == old(State()).(book := StopOut(params, old(View()), point))
    {
      if AbsReal(baseHeld) > 0.0 {
        var price := Slipped(params, baseHeld, point);
        var gross := ExitGross(baseHeld, quoteSpent, price);
        var fee := FeeOn(AbsReal(baseHeld), price, params.taker);
        realized, feesPaid := realized + (gross - fee), feesPaid + fee;
        trades := trades + [Trade(StopExit, AbsReal(baseHeld), gross, fee)];
        baseHeld, quoteSpent, openLots := 0.0, 0.0, map[];
      }
    }

    /** Walks the four points of a candle; a stop ends the walk. */
    method WalkCandle(c: Candle)
      requires Valid() && endReason.Completed?
      modifies this
      ensures Valid()
      ensures State() == PointsStep(params, old(State()), c, CandlePath(c))
    {
      var points := CandlePath(c);
      var i := 0;
      while i < |points| && !endReason.StopLoss?
        invariant 0 <= i <= |points| && Valid()
        invariant State() == PointsStep(params, old(State()), c, points[..i])
        invariant endReason.Completed? || endReason.StopLoss?
      {
        var point := points[i];
        assert points[..i + 1][..i] == points[..i];
        if StopHit(params, point) {
          StopPosition(point);
          endReason, lastPrice := StopLoss, point;
        } else {
          var m := Move(lastPrice, point, c.high, c.low);
          FillBetween(m);
          lastPrice, moves := point, moves + [m];
        }
        i := i + 1;
      }
      StoppedIsFinal(params, old(State()), c, points, i);
      assert points[..|points|] == points;
    }

    method AccrueFunding()
      requires Valid()
      modifies this
      ensures Valid()
      ensures State() == old(State()).(book := PayFunding(params, old(View()), lastPrice))
    {
      if params.funding8h != 0.0 && AbsReal(baseHeld) > 0.0 {
        var sign := if baseHeld > 0.0 then 1.0 else -1.0;
        var payment := sign * (AbsReal(baseHeld) * lastPrice) * params.funding8h * (params.barHours / 8.0);
        realized, fundingPaid := realized - payment, fundingPaid + payment;
      }
    }

    /** Marks the position at the last price and records the bar, or wipes the position out. */
    method MarkOrLiquidate()
      requires Valid() && endReason.Completed?
      modifies this
      ensures Valid()
      ensures State() == if Liquidates(params, old(View()), lastPrice)
                         then old(State()).(book := WipeOut(params, old(View())), end := Liquidation,
                                             equity := old(equity) + [0.0])
                         else old(State()).(equity := old(equity) + [Max(0.0, Margin(params, old(View()), lastPrice))])
    {
      var unrealized := MarkAgainstAverage(baseHeld, quoteSpent, lastPrice);
      var margin, held := params.investment + realized + unrealized, AbsReal(baseHeld) * lastPrice;
      if held > 0.0 && margin <= held * MAINTENANCE_RATE {
        endReason, realized := Liquidation, -params.investment;
        trades := trades + [Trade(Liquidated, 0.0, -params.investment, 0.0)];
        equity := equity + [0.0];
      } else {
        equity := equity + [Max(0.0, margin)];
      }
    }

    /** One candle of a run that has not ended. */
    method TakeCandle(c: Candle)
      requires Valid() && endReason.Completed?
      modifies this
      ensures Valid() && State() == CandleStep(params, old(State()), c)
    {
      PointsKeepCurve(params, State(), c, CandlePath(c));
      WalkCandle(c);
      CloseBar();
    }

    /** Funding, the liquidation check and the next point of the equity curve. */
    method CloseBar()
      requires Valid() && !endReason.Liquidation?
      modifies this
      ensures Valid()
      ensures State() == BarClose(params, old(State()))
    {
      if endReason.StopLoss? {
        equity := equity + [Max(0.0, params.investment + realized)];
      } else {
        AccrueFunding();
        MarkOrLiquidate();
      }
    }
  }

  lemma {:induction false} StoppedIsFinal(p: Params, r: Run, c: Candle, points: seq<real>, i: nat)
    requires p.levels >= 2 && p.upper > p.lower && i <= |points|
    requires PointsStep(p, r, c, points[..i]).end.StopLoss? || i == |points|
    ensures PointsStep(p, r, c, points) == PointsStep(p, r, c, points[..i])
    decreases |points| - i
  {
    if i == |points| {
      assert points[..i] == points;
    } else {
      assert points[..i + 1][..i] == points[..i];
      StoppedIsFinal(p, r, c, points, i + 1);
    }
  }

  lemma {:induction false} EndedIsFinal(p: Params, r: Run, candles: seq<Candle>, i: nat)
    requires p.levels >= 2 && p.upper > p.lower && i <= |candles|
    requires !RunOver(p, r, candles[..i]).end.Completed? || i == |candles|
    ensures RunOver(p, r, candles) == RunOver(p, r, candles[..i])
    decreases |candles| - i
  {
    if i == |candles| {
      assert candles[..i] == candles;
    } else {
      assert candles[..i + 1][..i] == candles[..i];
      EndedIsFinal(p, r, candles, i + 1);
    }
  }

  function ReportOf(r: Run, drawdown: real): Report
    requires r.equity != []
  {
    Report(r.end, r.book.roundTrips, r.book.realized, r.book.fees, r.book.funding,
           r.equity[|r.equity| - 1], drawdown, r.equity, r.book.trades)
  }

  /** The whole simulation is the specified run, and its drawdown is the worst fall of its curve. */
  method Simulate(p: Params, candles: seq<Candle>) returns (o: Outcome)
    ensures o.InvalidParameters? <==> !Accepts(p, candles)
    ensures o.DivisionByZero? <==> Accepts(p, candles) && !Divides(p, candles)
    ensures o.Simulated? ==>
              && Simulation(p, candles).equity != []
              && o.report == ReportOf(Simulation(p, candles), o.report.maxDrawdown)
              && Drawdown.IsWorstFall(o.report.equity, o.report.maxDrawdown)
  {
    if p.upper <= p.lower || p.levels < 2 || p.investment <= 0.0 || candles == [] {
      return InvalidParameters;
    }
    if (p.direction.Long? || p.direction.Short?) && Entry(p, candles[0].open) == 0.0 {
      return DivisionByZero;
    }
    var grid := new OpenGrid(p, candles);
    var i := 0;
    while i < |candles| && grid.endReason.Completed?
      invariant 0 <= i <= |candles| && grid.Valid() && grid.params == p && fresh(grid)
      invariant grid.State() == RunOver(p, Start(p, candles), candles[..i])
    {
      assert candles[..i + 1][..i] == candles[..i];
      grid.TakeCandle(candles[i]);
      i := i + 1;
    }
    EndedIsFinal(p, Start(p, candles), candles, i);
    CurveIsNonNegative(p, Start(p, candles), candles);
    var drawdown := Drawdown.MaxDrawdown(grid.equity);
    o := Simulated(Report(grid.endReason, grid.roundTrips, grid.realized, grid.feesPaid, grid.fundingPaid,
                          grid.equity[|grid.equity| - 1], drawdown, grid.equity, grid.trades));
  }
}
