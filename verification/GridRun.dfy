/** A whole simulated run of a futures grid over a sequence of candles: fills along the
    intra-candle path, stop exits, funding, maintenance-margin liquidation and the equity curve.
 */
module GridRun {
  import opened Common
  import opened GridLadder
  import opened GridLedger
  import opened GridPath

  datatype Candle = Candle(open: real, high: real, low: real, close: real)

  datatype Params = Params(
    lower: real, upper: real, levels: int, investment: real, leverage: real, direction: Direction,
    stopPct: Option<real>, stopPrice: Option<real>,
    maker: real, taker: real, slippage: real, funding8h: real, barHours: real)

  datatype EndReason = Completed | StopLoss | Liquidation

  /** `moves` lists the price moves that were filled, for the statements about paths. */
  datatype Run = Run(book: Book, last: real, end: EndReason, equity: seq<real>, moves: seq<Move>)

  const MAINTENANCE_RATE := 0.01

  predicate Accepts(p: Params, candles: seq<Candle>) {
    p.upper > p.lower && p.levels >= 2 && p.investment > 0.0 && candles != []
  }

  function Max(a: real, b: real): real { if a < b then b else a }

  function Min(a: real, b: real): real { if a < b then a else b }

  function Notional0(p: Params): real {
    p.investment * Max(p.leverage, 1.0)
  }

  function LadderOf(p: Params): Ladder
    requires p.levels >= 2
  {
    Ladder(p.lower, (p.upper - p.lower) / p.levels as real, p.levels,
           Notional0(p) / p.levels as real, p.maker, p.direction)
  }

  /** The first open, or the nearest price one step inside the range. */
  function Entry(p: Params, open: real): real
    requires p.levels >= 2
  {
    var step := LadderOf(p).step;
    if p.lower < open < p.upper then open else Min(Max(open, p.lower + step), p.upper - step)
  }

  predicate Directional(p: Params) { !p.direction.Neutral? }

  /** A directional grid divides by its entry price. */
  predicate Divides(p: Params, candles: seq<Candle>)
    requires Accepts(p, candles)
  {
    Directional(p) ==> Entry(p, candles[0].open) != 0.0
  }

  /** Half of the notional of a directional grid is opened at once, at taker cost. */
  function LegOf(p: Params, entry: real): Leg
    requires Directional(p) ==> entry != 0.0
  {
    if Directional(p) then Leg(Notional0(p) / 2.0 / entry, entry, Notional0(p) / 2.0 * p.taker)
    else Leg(0.0, 1.0, 0.0)
  }

  function StopLevel(p: Params): Option<real> {
    if p.stopPrice.Some? && p.stopPrice.value > 0.0 then p.stopPrice
    else if p.stopPct.Some? && p.stopPct.value > 0.0 then
      Some(if p.direction.Short? then p.upper * (1.0 + p.stopPct.value / 100.0)
           else p.lower * (1.0 - p.stopPct.value / 100.0))
    else None
  }

  predicate StopHit(p: Params, point: real) {
    StopLevel(p).Some? &&
    if p.direction.Short? then point >= StopLevel(p).value else point <= StopLevel(p).value
  }

  /** Open-high-low-close when the candle falls, open-low-high-close otherwise. */
  function CandlePath(c: Candle): seq<real> {
    if c.close < c.open then [c.open, c.high, c.low, c.close] else [c.open, c.low, c.high, c.close]
  }

  function OpeningBook(p: Params, leg: Leg): Book {
    var quote := if Directional(p) then Notional0(p) / 2.0 else 0.0;
    Book(map[], if p.direction.Short? then -leg.base else leg.base, quote, -leg.fee, leg.fee, 0.0, 0, 0, 0.0, [])
  }

  function Start(p: Params, candles: seq<Candle>): Run
    requires Accepts(p, candles) && Divides(p, candles)
  {
    var entry := Entry(p, candles[0].open);
    Run(OpeningBook(p, LegOf(p, entry)), entry, Completed, [p.investment], [])
  }

  /** The fill price of a stop order. */
  function Slipped(p: Params, base: real, point: real): real {
    if base > 0.0 then point * (1.0 - p.slippage) else point * (1.0 + p.slippage)
  }

  /** Measured against the average entry price. */
  function ExitGross(base: real, quote: real, price: real): real
    requires base != 0.0
  {
    var average := quote / AbsReal(base);
    AbsReal(base) * (if base > 0.0 then price - average else average - price)
  }

  /** The whole position leaves at once, at taker cost and with slippage. */
  function StopOut(p: Params, b: Book, point: real): Book {
    if b.base == 0.0 then b
    else
      var price := Slipped(p, b.base, point);
      var gross := ExitGross(b.base, b.quote, price);
      var fee := FeeOn(AbsReal(b.base), price, p.taker);
      b.(realized := b.realized + (gross - fee), fees := b.fees + fee,
      trades := b.trades + [Trade(StopExit, AbsReal(b.base), gross, fee)],
      base := 0.0, quote := 0.0, lots := map[])
  }

  function PointStep(p: Params, r: Run, c: Candle, point: real): Run
    requires p.levels >= 2 && p.upper > p.lower
  {
    if r.end.StopLoss? then r
    else if StopHit(p, point) then r.(book := StopOut(p, r.book, point), last := point, end := StopLoss)
    else
      var m := Move(r.last, point, c.high, c.low);
      r.(book := Fill(LadderOf(p), r.book, m), last := point, moves := r.moves + [m])
  }

  function PointsStep(p: Params, r: Run, c: Candle, points: seq<real>): Run
    requires p.levels >= 2 && p.upper > p.lower
  {
    if points == [] then r
    else PointStep(p, PointsStep(p, r, c, points[..|points| - 1]), c, points[|points| - 1])
  }

  /** Longs pay a positive funding rate, shorts receive it. */
  function PayFunding(p: Params, b: Book, last: real): Book {
    if p.funding8h == 0.0 || b.base == 0.0 then b
    else
      var sign := if b.base > 0.0 then 1.0 else -1.0;
      var payment := sign * (AbsReal(b.base) * last) * p.funding8h * (p.barHours / 8.0);
      b.(realized := b.realized - payment, funding := b.funding + payment)
  }

  function Margin(p: Params, b: Book, last: real): real {
    p.investment + b.realized + Unrealized(b, last)
  }

  predicate Liquidates(p: Params, b: Book, last: real) {
    var held := AbsReal(b.base) * last;
    held > 0.0 && Margin(p, b, last) <= held * MAINTENANCE_RATE
  }

  function WipeOut(p: Params, b: Book): Book {
    b.(realized := -p.investment, trades := b.trades + [Trade(Liquidated, 0.0, -p.investment, 0.0)])
  }

  function BarClose(p: Params, r: Run): Run {
    if r.end.StopLoss? then r.(equity := r.equity + [Max(0.0, p.investment + r.book.realized)])
    else
      var b := PayFunding(p, r.book, r.last);
      if Liquidates(p, b, r.last) then r.(book := WipeOut(p, b), end := Liquidation, equity := r.equity + [0.0])
      else r.(book := b, equity := r.equity + [Max(0.0, Margin(p, b, r.last))])
  }

  /** A run that has ended ignores the remaining candles. */
  function CandleStep(p: Params, r: Run, c: Candle): Run
    requires p.levels >= 2 && p.upper > p.lower
  {
    if !r.end.Completed? then r else BarClose(p, PointsStep(p, r, c, CandlePath(c)))
  }

  function RunOver(p: Params, r: Run, candles: seq<Candle>): Run
    requires p.levels >= 2 && p.upper > p.lower
  {
    if candles == [] then r else CandleStep(p, RunOver(p, r, candles[..|candles| - 1]), candles[|candles| - 1])
  }

  function Simulation(p: Params, candles: seq<Candle>): Run
    requires Accepts(p, candles) && Divides(p, candles)
  {
    RunOver(p, Start(p, candles), candles)
  }

  // ---- conservation over every run -----------------------------------------------------

  /** The lots are those that the path calls for. */
  ghost predicate Tracks(l: Ladder, lots: map<int, Lot>, moves: seq<Move>) {
    forall k :: k in lots <==> LastOpened(l, moves, k)
  }

  ghost predicate OpenBook(p: Params, leg: Leg, b: Book, moves: seq<Move>)
    requires p.levels >= 2
  {
    Exact(LadderOf(p), leg, b) && Tracks(LadderOf(p), b.lots, moves)
  }

  /** What the books promise in each of the three states of a run: they are exact and follow the
      path, up to the one booking that ended the run. */
  ghost predicate BooksOk(p: Params, leg: Leg, r: Run)
    requires p.levels >= 2
  {
    match r.end
    case Completed => OpenBook(p, leg, r.book, r.moves)
    case StopLoss => exists before: Book :: OpenBook(p, leg, before, r.moves) && r.book == StopOut(p, before, r.last)
    case Liquidation => exists before: Book :: OpenBook(p, leg, before, r.moves) && r.book == WipeOut(p, before)
  }

  ghost predicate CurveOk(p: Params, r: Run) {
    && r.equity != [] && r.equity[0] == p.investment
    && forall i :: 0 <= i < |r.equity| ==> r.equity[i] >= 0.0
  }

  lemma LadderValid(p: Params, candles: seq<Candle>)
    requires Accepts(p, candles)
    ensures ValidLadder(LadderOf(p))
    ensures Price(LadderOf(p), p.levels) == p.upper
    ensures p.lower >= 0.0 ==> Entry(p, candles[0].open) > 0.0
  {
    var l := LadderOf(p);
    var n := p.levels as real;
    assert n >= 2.0 && n * l.step == p.upper - p.lower;
    assert l.step > 0.0;
    assert Notional0(p) > 0.0 && l.perLevel * n == Notional0(p);
    assert p.lower + l.step <= p.upper - l.step by {
      assert (n - 2.0) * l.step >= 0.0;
    }
  }

  lemma StartOk(p: Params, candles: seq<Candle>)
    requires Accepts(p, candles) && Divides(p, candles)
    ensures BooksOk(p, LegOf(p, Entry(p, candles[0].open)), Start(p, candles))
  {
    LadderValid(p, candles);
    var entry := Entry(p, candles[0].open);
    LegPaysHalf(p, entry);
    NoLots(p.levels);
  }

  lemma LegPaysHalf(p: Params, entry: real)
    requires Directional(p) ==> entry != 0.0
    ensures var leg := LegOf(p, entry);
            leg.base * leg.entry == if Directional(p) then Notional0(p) / 2.0 else 0.0
  {
    if Directional(p) {
      var half := Notional0(p) / 2.0;
      assert half / entry * entry == half;
    } else {
      assert 0.0 * 1.0 == 0.0;
    }
  }

  lemma LegIsValid(p: Params, entry: real)
    requires p.investment > 0.0 && (Directional(p) ==> entry > 0.0)
    ensures ValidLeg(LegOf(p, entry))
  {
    if Directional(p) {
      assert Notional0(p) / 2.0 / entry >= 0.0;
    }
  }

  lemma {:induction false} NoLots(n: nat)
    ensures BaseSum(map[], n) == 0.0 && QuoteSum(map[], n) == 0.0
  {
    if n > 0 { NoLots(n - 1); }
  }

  lemma {:induction false} EmptySum(lots: map<int, Lot>, l: Ladder, k: int, n: nat)
    requires LotsOk(l, lots) && k in lots && k < n
    ensures BaseSum(lots, n) > 0.0
  {
    NoBaseNoQuote(l, lots, n - 1);
    if k < n - 1 {
      EmptySum(lots, l, k, n - 1);
    }
  }

  /** A flat position has no resting lots. */
  lemma FlatHasNoLots(l: Ladder, leg: Leg, b: Book)
    requires Exact(l, leg, b) && ValidLeg(leg) && b.base == 0.0
    ensures b.lots == map[]
  {
    assert BaseSum(b.lots, l.levels) <= 0.0;
    forall k
      ensures k !in b.lots
    {
      if k in b.lots {
        assert LotOk(l, k, b.lots[k]);
        EmptySum(b.lots, l, k, l.levels);
      }
    }
    assert b.lots == map[];
  }

  lemma StopKeepsCash(p: Params, leg: Leg, b: Book, point: real)
    requires p.levels >= 2 && CashExact(LadderOf(p), leg, b) && b.base != 0.0
    ensures CashExact(LadderOf(p), leg, StopOut(p, b, point))
  {
    var after := StopOut(p, b, point);
    SumsAppend(b.trades, after.trades[|b.trades|]);
    assert after.trades == b.trades + [after.trades[|b.trades|]];
  }

  lemma FillTracks(l: Ladder, b: Book, moves: seq<Move>, m: Move)
    requires ValidLadder(l) && Tracks(l, b.lots, moves)
    ensures Tracks(l, Fill(l, b, m).lots, moves + [m])
  {
    forall k ensures k in Fill(l, b, m).lots <==> LastOpened(l, moves + [m], k) {
      FillHolds(l, b, m, k);
      LastOpenedSnoc(l, moves, m, k);
    }
  }

  lemma PointKeepsBooks(p: Params, leg: Leg, r: Run, c: Candle, point: real)
    requires p.levels >= 2 && p.upper > p.lower && !r.end.Liquidation? && BooksOk(p, leg, r)
    ensures BooksOk(p, leg, PointStep(p, r, c, point)) && !PointStep(p, r, c, point).end.Liquidation?
  {
    if r.end.Completed? && !StopHit(p, point) {
      var m := Move(r.last, point, c.high, c.low);
      FillKeepsExact(LadderOf(p), leg, r.book, m);
      FillTracks(LadderOf(p), r.book, r.moves, m);
    }
  }

  lemma {:induction false} PointsKeepBooks(p: Params, leg: Leg, r: Run, c: Candle, points: seq<real>)
    requires p.levels >= 2 && p.upper > p.lower && !r.end.Liquidation? && BooksOk(p, leg, r)
    ensures BooksOk(p, leg, PointsStep(p, r, c, points)) && !PointsStep(p, r, c, points).end.Liquidation?
  {
    if points != [] {
      var front := points[..|points| - 1];
      PointsKeepBooks(p, leg, r, c, front);
      PointKeepsBooks(p, leg, PointsStep(p, r, c, front), c, points[|points| - 1]);
    }
  }

  lemma FundingKeepsExact(p: Params, leg: Leg, b: Book, last: real)
    requires p.levels >= 2 && Exact(LadderOf(p), leg, b)
    ensures Exact(LadderOf(p), leg, PayFunding(p, b, last))
  {
    var after := PayFunding(p, b, last);
    assert after.realized + after.funding == b.realized + b.funding;
    assert CashExact(LadderOf(p), leg, after);
  }

  lemma CandleKeepsBooks(p: Params, leg: Leg, r: Run, c: Candle)
    requires p.levels >= 2 && p.upper > p.lower && BooksOk(p, leg, r)
    ensures BooksOk(p, leg, CandleStep(p, r, c))
  {
    if r.end.Completed? {
      PointsKeepBooks(p, leg, r, c, CandlePath(c));
      var mid := PointsStep(p, r, c, CandlePath(c));
      if mid.end.Completed? {
        FundingKeepsExact(p, leg, mid.book, mid.last);
      }
    }
  }

  /** On every run, over every sequence of candles: position, quote, fees, profit, pairs and lots
      are exact sums and the lots follow the path, until the one booking that ends the run. */
  lemma {:induction false} EveryRunConserves(p: Params, candles: seq<Candle>, n: nat)
    requires Accepts(p, candles) && Divides(p, candles) && n <= |candles|
    ensures var r := RunOver(p, Start(p, candles), candles[..n]);
            BooksOk(p, LegOf(p, Entry(p, candles[0].open)), r)
  {
    var leg := LegOf(p, Entry(p, candles[0].open));
    if n == 0 {
      StartOk(p, candles);
    } else {
      EveryRunConserves(p, candles, n - 1);
      assert candles[..n][..n - 1] == candles[..n - 1];
      CandleKeepsBooks(p, leg, RunOver(p, Start(p, candles), candles[..n - 1]), candles[n - 1]);
    }
  }

  /** The levels with a lot, read off the path alone. */
  ghost function Resting(l: Ladder, moves: seq<Move>): set<int> {
    set k | 1 <= k < l.levels && LastOpened(l, moves, k)
  }

  lemma RestingIsLots(p: Params, leg: Leg, b: Book, moves: seq<Move>)
    requires p.levels >= 2 && OpenBook(p, leg, b, moves)
    ensures b.lots.Keys == Resting(LadderOf(p), moves) && |b.lots| == |Resting(LadderOf(p), moves)|
  {
    assert forall k :: k in b.lots ==> LotOk(LadderOf(p), k, b.lots[k]);
    assert |b.lots| == |b.lots.Keys|;
  }

  /** What a stop leaves: the closed pairs, each worth one step on its own size, followed by at most
      one exit; profit, fees and funding still add up to the gross of all of them; and every lot
      ever opened is in a pair or was resting just before the stop. */
  ghost predicate StoppedExact(p: Params, leg: Leg, r: Run)
    requires p.levels >= 2
  {
    var b, pairs := r.book, r.book.roundTrips;
    && 0 <= pairs <= |b.trades| <= pairs + 1
    && (forall i :: 0 <= i < pairs ==> PairOk(LadderOf(p), b.trades[i]))
    && (|b.trades| == pairs + 1 ==> b.trades[pairs].side == StopExit)
    && b.lotsOpened == pairs + |Resting(LadderOf(p), r.moves)|
    && CashExact(LadderOf(p), leg, b)
  }

  lemma StopOutIsExact(p: Params, leg: Leg, before: Book, r: Run)
    requires p.levels >= 2 && OpenBook(p, leg, before, r.moves) && r.book == StopOut(p, before, r.last)
    ensures StoppedExact(p, leg, r)
  {
    RestingIsLots(p, leg, before, r.moves);
    if before.base != 0.0 {
      StopKeepsCash(p, leg, before, r.last);
    }
  }

  /** Every run that ends in a stop ends with exact books; from a positive entry price it also
      ends flat. */
  lemma EveryStopIsExact(p: Params, candles: seq<Candle>, n: nat)
    requires Accepts(p, candles) && Divides(p, candles) && n <= |candles|
    requires RunOver(p, Start(p, candles), candles[..n]).end.StopLoss?
    ensures var r, entry := RunOver(p, Start(p, candles), candles[..n]), Entry(p, candles[0].open);
            && StoppedExact(p, LegOf(p, entry), r)
            && (entry > 0.0 || !Directional(p) ==> r.book.base == 0.0 && r.book.lots == map[])
  {
    EveryRunConserves(p, candles, n);
    var r, entry := RunOver(p, Start(p, candles), candles[..n]), Entry(p, candles[0].open);
    var leg := LegOf(p, entry);
    var before: Book :| OpenBook(p, leg, before, r.moves) && r.book == StopOut(p, before, r.last);
    StopOutIsExact(p, leg, before, r);
    if (entry > 0.0 || !Directional(p)) && before.base == 0.0 {
      LegIsValid(p, entry);
      FlatHasNoLots(LadderOf(p), leg, before);
    }
  }

  lemma StopGrossIsUnrealized(p: Params, b: Book, point: real)
    requires b.base != 0.0
    ensures StopOut(p, b, point).trades == b.trades + [StopOut(p, b, point).trades[|b.trades|]]
    ensures StopOut(p, b, point).trades[|b.trades|].gross == Unrealized(b, Slipped(p, b.base, point))
  {
  }

  lemma {:induction false} PointsKeepCurve(p: Params, r: Run, c: Candle, points: seq<real>)
    requires p.levels >= 2 && p.upper > p.lower && !r.end.Liquidation?
    ensures PointsStep(p, r, c, points).equity == r.equity && !PointsStep(p, r, c, points).end.Liquidation?
  {
    if points != [] {
      PointsKeepCurve(p, r, c, points[..|points| - 1]);
    }
  }

  /** The equity curve starts at the investment and is never negative, however the run goes. */
  lemma {:induction false} CurveIsNonNegative(p: Params, r: Run, candles: seq<Candle>)
    requires p.levels >= 2 && p.upper > p.lower && CurveOk(p, r)
    ensures CurveOk(p, RunOver(p, r, candles))
  {
    if candles != [] {
      CurveIsNonNegative(p, r, candles[..|candles| - 1]);
      var before := RunOver(p, r, candles[..|candles| - 1]);
      if before.end.Completed? {
        PointsKeepCurve(p, before, candles[|candles| - 1], CandlePath(candles[|candles| - 1]));
      }
    }
  }

  /** Leaving at the average entry price earns what leaving lot by lot would have earned. */
  lemma StopExitIsLotByLot(p: Params, leg: Leg, b: Book, point: real)
    requires p.levels >= 2 && Exact(LadderOf(p), leg, b) && ValidLeg(leg) && b.base != 0.0
    ensures var after := StopOut(p, b, point).trades;
            |after| == |b.trades| + 1 &&
            after[|b.trades|].gross ==
            LegMark(LadderOf(p), leg, Slipped(p, b.base, point)) +
            LotMark(LadderOf(p), b.lots, Slipped(p, b.base, point), p.levels)
  {
    StopGrossIsUnrealized(p, b, point);
    AverageCostIsExact(LadderOf(p), leg, b, Slipped(p, b.base, point));
  }

  lemma BudgetOfBook(p: Params, leg: Leg, b: Book)
    requires p.levels >= 2 && Exact(LadderOf(p), leg, b) && leg.base == 0.0
    ensures b.quote <= Notional0(p) * (p.levels - 1) as real / p.levels as real
  {
    NeutralBudget(LadderOf(p), leg, b);
    Reassociate(Notional0(p), p.levels as real);
  }

  /** A neutral run never spends the quote of its last level. */
  lemma NeutralRunBudget(p: Params, candles: seq<Candle>, n: nat)
    requires Accepts(p, candles) && p.direction.Neutral? && n <= |candles|
    ensures var r := RunOver(p, Start(p, candles), candles[..n]);
            r.end.Completed? ==> r.book.quote <= Notional0(p) * (p.levels - 1) as real / p.levels as real
  {
    EveryRunConserves(p, candles, n);
    var r := RunOver(p, Start(p, candles), candles[..n]);
    if r.end.Completed? {
      BudgetOfBook(p, LegOf(p, Entry(p, candles[0].open)), r.book);
    }
  }

  lemma Reassociate(x: real, n: real)
    requires n != 0.0
    ensures x / n * (n - 1.0) == x * (n - 1.0) / n
  {
  }

  // ---- the book of a run is the book of its path ---------------------------------------

  lemma LastOpenedSnoc(l: Ladder, moves: seq<Move>, m: Move, k: int)
    requires ValidLadder(l)
    ensures LastOpened(l, moves + [m], k) <==> OpensAt(l, m, k) || (LastOpened(l, moves, k) && !ClosesAt(l, m, k))
  {
    var all := moves + [m];
    if LastOpened(l, moves, k) && !ClosesAt(l, m, k) {
      var i :| 0 <= i < |moves| && OpensAt(l, moves[i], k) && forall j :: i < j < |moves| ==> !ClosesAt(l, moves[j], k);
      assert OpensAt(l, all[i], k);
    }
    if OpensAt(l, m, k) {
      assert OpensAt(l, all[|moves|], k);
    }
    if LastOpened(l, all, k) && !OpensAt(l, m, k) {
      var i :| 0 <= i < |all| && OpensAt(l, all[i], k) && forall j :: i < j < |all| ==> !ClosesAt(l, all[j], k);
      assert OpensAt(l, moves[i], k);
      assert forall j :: i < j < |moves| ==> all[j] == moves[j];
      assert !ClosesAt(l, all[|moves|], k);
    }
  }

  /** While a run lasts, a level holds a lot exactly when its latest crossing on the whole
      path so far was an opening one. */
  lemma EveryRunHolds(p: Params, candles: seq<Candle>, n: nat)
    requires Accepts(p, candles) && Divides(p, candles) && n <= |candles|
    ensures var r := RunOver(p, Start(p, candles), candles[..n]);
            r.end.Completed? ==> forall k :: k in r.book.lots <==> LastOpened(LadderOf(p), r.moves, k)
  {
    EveryRunConserves(p, candles, n);
  }

  // ---- a neutral unlevered grid is never liquidated -------------------------------------

  ghost predicate PositivePrices(c: Candle) {
    c.open > 0.0 && c.high > 0.0 && c.low > 0.0 && c.close > 0.0
  }

  /** A step covers the fees of both its legs, and the opening fees of a full ladder
      fit into the one level that is never bought. */
  ghost predicate FeesCovered(p: Params)
    requires p.levels >= 2
  {
    && p.direction.Neutral? && p.leverage <= 1.0 && p.funding8h == 0.0 && p.lower >= 0.0
    && p.maker * (p.levels - 1) as real <= 1.0
    && LadderOf(p).step >= 2.0 * p.maker * p.upper
  }

  /** Closed pairs never lost anything: the only negative part is the opening fee of resting lots. */
  ghost predicate Solvent(l: Ladder, b: Book) {
    b.realized >= -(l.maker * b.quote)
  }

  lemma PairPaysItsFees(l: Ladder, k: int, lot: Lot, upper: real)
    requires ValidLadder(l) && l.direction.Neutral? && LotOk(l, k, lot)
    requires Price(l, l.levels) <= upper && l.step >= 2.0 * l.maker * upper
    ensures Gross(l, lot, Price(l, k + 1)) - lot.base * Price(l, k + 1) * l.maker >= l.maker * lot.quote
  {
    var q := Price(l, k + 1);
    PairGross(l, k, lot);
    PriceStep(l, k);
    if k + 1 < l.levels { PriceMonotone(l, k + 1, l.levels); }
    assert lot.price <= upper && q <= upper;
    FeeWithin(l.maker, lot.price, upper, l.step);
    FeeWithin(l.maker, q, upper, l.step);
    var spare := l.step - l.maker * q - l.maker * lot.price;
    assert spare >= 0.0;
    assert lot.base * spare >= 0.0;
    assert lot.base * spare == lot.base * l.step - lot.base * q * l.maker - l.maker * (lot.base * lot.price);
  }

  /** A fee, or a rebate, takes at most half of a step that covers two fees at the upper bound. */
  lemma FeeWithin(maker: real, price: real, upper: real, step: real)
    requires 0.0 < price <= upper && step > 0.0 && step >= 2.0 * maker * upper
    ensures maker * price <= step / 2.0
  {
    if maker >= 0.0 {
      assert maker * price <= maker * upper;
    } else {
      assert maker * price <= 0.0;
    }
  }

  lemma OpenKeepsSolvent(l: Ladder, b: Book, k: int, x: real)
    requires Solvent(l, b) && Price(l, k) > 0.0
    ensures Solvent(l, OpenLot(l, b, k, x))
  {
    assert l.maker * (b.quote + x) == l.maker * b.quote + x * l.maker;
  }

  lemma CloseKeepsSolvent(l: Ladder, b: Book, k: int, upper: real)
    requires ValidLadder(l) && Solvent(l, b) && l.direction.Neutral?
    requires k in b.lots && LotOk(l, k, b.lots[k])
    requires Price(l, l.levels) <= upper && l.step >= 2.0 * l.maker * upper
    ensures Solvent(l, CloseLot(l, b, k, Price(l, k + 1)))
  {
    var lot := b.lots[k];
    PairPaysItsFees(l, k, lot, upper);
    assert l.maker * (b.quote - lot.quote) == l.maker * b.quote - l.maker * lot.quote;
  }

  lemma LevelKeepsSolvent(l: Ladder, leg: Leg, b: Book, m: Move, k: int, upper: real)
    requires Exact(l, leg, b) && Solvent(l, b) && l.direction.Neutral?
    requires Price(l, l.levels) <= upper && l.step >= 2.0 * l.maker * upper
    ensures Solvent(l, FillLevel(l, b, m, k))
  {
    FillLevelCases(l, b, m, k);
    if Acts(l, b, m, k) {
      if Opens(l, m) {
        OpenKeepsSolvent(l, b, k, Notional(l, m, Price(l, k)));
      } else {
        CloseKeepsSolvent(l, b, k - 1, upper);
      }
    }
  }

  lemma {:induction false} LevelsKeepSolvent(l: Ladder, leg: Leg, b: Book, m: Move, lo: int, hi: int, upper: real)
    requires Exact(l, leg, b) && Solvent(l, b) && l.direction.Neutral? && m.prev != m.next
    requires Price(l, l.levels) <= upper && l.step >= 2.0 * l.maker * upper
    requires FirstBelow(l, m) <= lo && hi <= LastCrossed(l, m)
    ensures Solvent(l, FillLevels(l, b, m, lo, hi))
    decreases hi - lo
  {
    if lo < hi {
      LevelsKeepSolvent(l, leg, b, m, lo, hi - 1, upper);
      FillLevelsKeeps(l, leg, b, m, lo, hi - 1);
      LevelKeepsSolvent(l, leg, FillLevels(l, b, m, lo, hi - 1), m, hi, upper);
    }
  }

  ghost predicate Safe(p: Params, r: Run)
    requires p.levels >= 2
  {
    r.end.Completed? ==>
      Exact(LadderOf(p), Leg(0.0, 1.0, 0.0), r.book) && Solvent(LadderOf(p), r.book) && r.last > 0.0
  }

  lemma FillKeepsSolvent(l: Ladder, leg: Leg, b: Book, m: Move, upper: real)
    requires Exact(l, leg, b) && Solvent(l, b) && l.direction.Neutral?
    requires Price(l, l.levels) <= upper && l.step >= 2.0 * l.maker * upper
    ensures Solvent(l, Fill(l, b, m))
  {
    if m.prev != m.next {
      LevelsKeepSolvent(l, leg, b, m, FirstBelow(l, m), LastCrossed(l, m), upper);
    }
  }

  /** The conditions under which the safety argument runs. */
  ghost predicate SafeSetting(p: Params) {
    && p.levels >= 2 && p.upper > p.lower && p.investment > 0.0 && FeesCovered(p)
    && ValidLadder(LadderOf(p)) && Price(LadderOf(p), p.levels) == p.upper
  }

  lemma PointKeepsSafe(p: Params, r: Run, c: Candle, point: real)
    requires SafeSetting(p) && Safe(p, r) && !r.end.Liquidation? && point > 0.0
    ensures Safe(p, PointStep(p, r, c, point)) && !PointStep(p, r, c, point).end.Liquidation?
  {
    if r.end.Completed? {
      var m := Move(r.last, point, c.high, c.low);
      FillKeepsExact(LadderOf(p), Leg(0.0, 1.0, 0.0), r.book, m);
      FillKeepsSolvent(LadderOf(p), Leg(0.0, 1.0, 0.0), r.book, m, p.upper);
    }
  }

  lemma {:induction false} PointsKeepSafe(p: Params, r: Run, c: Candle, points: seq<real>)
    requires SafeSetting(p) && Safe(p, r) && !r.end.Liquidation?
    requires forall i :: 0 <= i < |points| ==> points[i] > 0.0
    ensures Safe(p, PointsStep(p, r, c, points)) && !PointsStep(p, r, c, points).end.Liquidation?
  {
    if points != [] {
      var front := points[..|points| - 1];
      PointsKeepSafe(p, r, c, front);
      PointKeepsSafe(p, PointsStep(p, r, c, front), c, points[|points| - 1]);
    }
  }

  /** Even with every level bought and every opening fee paid, the investment is not exceeded,
      so the margin is at least the market value of what was bought. */
  lemma MarginCoversHoldings(p: Params, b: Book, last: real)
    requires p.levels >= 2 && p.upper > p.lower && p.investment > 0.0 && FeesCovered(p)
    requires Exact(LadderOf(p), Leg(0.0, 1.0, 0.0), b) && Solvent(LadderOf(p), b) && last > 0.0
    ensures b.base >= 0.0 && Margin(p, b, last) >= b.base * last
  {
    var l := LadderOf(p);
    var leg := Leg(0.0, 1.0, 0.0);
    var n := p.levels as real;
    PositionIsLinear(l, leg, b, last);
    NeutralBudget(l, leg, b);
    PerLevelTimesLevels(p.investment, n);
    FullLadderFits(p.investment, l.perLevel, p.maker, n, b.quote);
  }

  lemma PositionIsLinear(l: Ladder, leg: Leg, b: Book, last: real)
    requires Exact(l, leg, b) && leg == Leg(0.0, 1.0, 0.0) && l.direction.Neutral?
    ensures b.base >= 0.0 && b.quote >= 0.0 && Unrealized(b, last) == b.base * last - b.quote
  {
    NoBaseNoQuote(l, b.lots, l.levels);
    AverageMarkOfPosition(l, leg, b, last);
    assert b.base == Size(l, leg, b);
  }

  lemma PerLevelTimesLevels(investment: real, n: real)
    requires n > 0.0
    ensures investment / n * n == investment
  {
  }

  lemma FullLadderFits(investment: real, perLevel: real, maker: real, n: real, quote: real)
    requires n >= 2.0 && investment > 0.0 && perLevel * n == investment && maker * (n - 1.0) <= 1.0
    requires 0.0 <= quote <= perLevel * (n - 1.0)
    ensures investment - quote - maker * quote >= 0.0
  {
    assert perLevel > 0.0;
    assert perLevel * (n - 1.0) == perLevel * n - perLevel;
    if maker >= 0.0 {
      assert maker * quote <= maker * (perLevel * (n - 1.0));
      assert maker * (perLevel * (n - 1.0)) == perLevel * (maker * (n - 1.0));
      assert perLevel * (maker * (n - 1.0)) <= perLevel;
    } else {
      assert maker * quote <= 0.0;
    }
  }

  lemma NotLiquidated(p: Params, b: Book, last: real)
    requires b.base >= 0.0 && last > 0.0 && Margin(p, b, last) >= b.base * last
    ensures !Liquidates(p, b, last)
  {
    var held := b.base * last;
    assert held > 0.0 ==> held * MAINTENANCE_RATE < held;
  }

  lemma BarKeepsSafe(p: Params, r: Run)
    requires SafeSetting(p) && Safe(p, r) && !r.end.Liquidation?
    ensures BarClose(p, r).end == r.end && BarClose(p, r).book == r.book && BarClose(p, r).last == r.last
  {
    if r.end.Completed? {
      assert PayFunding(p, r.book, r.last) == r.book;
      MarginCoversHoldings(p, r.book, r.last);
      NotLiquidated(p, r.book, r.last);
    }
  }

  lemma CandleKeepsSafe(p: Params, r: Run, c: Candle)
    requires SafeSetting(p) && Safe(p, r) && !r.end.Liquidation? && PositivePrices(c)
    ensures Safe(p, CandleStep(p, r, c)) && !CandleStep(p, r, c).end.Liquidation?
  {
    if r.end.Completed? {
      PointsKeepSafe(p, r, c, CandlePath(c));
      BarKeepsSafe(p, PointsStep(p, r, c, CandlePath(c)));
    }
  }

  /** No sequence of candles with positive prices liquidates a neutral, unlevered grid whose
      step covers its fees. */
  lemma {:induction false} NeverLiquidated(p: Params, candles: seq<Candle>, n: nat)
    requires Accepts(p, candles) && FeesCovered(p) && n <= |candles|
    requires forall i :: 0 <= i < |candles| ==> PositivePrices(candles[i])
    ensures var r := RunOver(p, Start(p, candles), candles[..n]); Safe(p, r) && !r.end.Liquidation?
  {
    LadderValid(p, candles);
    if n == 0 {
      StartOk(p, candles);
    } else {
      NeverLiquidated(p, candles, n - 1);
      assert candles[..n][..n - 1] == candles[..n - 1];
      CandleKeepsSafe(p, RunOver(p, Start(p, candles), candles[..n - 1]), candles[n - 1]);
    }
  }
}
