/** When a bot is closed and how, in the prices and amounts of one reading, and over runs. */
module BotExits {
  import opened Common
  import opened BotPolicy
  import opened BotRuns

  /** A price at which a long or neutral bot gains counts up, for a short bot it counts down. */
  function Side(direction: Direction): real {
    if direction.SHORT? then -1.0 else 1.0
  }

  /** `level` is set, and the price has reached it in the direction in which the bot gains. */
  ghost predicate GainedTo(i: Input, level: Option<real>) {
    i.price > 0.0 && level.Some? && level.value > 0.0 && Side(i.direction) * (i.price - level.value) >= 0.0
  }

  /** `level` is set, and the price has reached it in the direction in which the bot loses. */
  ghost predicate LostTo(i: Input, level: Option<real>) {
    i.price > 0.0 && level.Some? && level.value > 0.0 && Side(i.direction) * (i.price - level.value) <= 0.0
  }

  ghost predicate Past(i: Input, level: Option<real>) {
    LostTo(i, level) && i.price != level.value
  }

  // ---- the price rules, which come first ----------------------------------------------------------

  ghost predicate TargetHit(i: Input) { GainedTo(i, i.targetPrice) && i.realized + i.unrealized > 0.0 }

  ghost predicate StopHit(i: Input) { LostTo(i, i.stopLoss) }

  ghost predicate CeilingHit(i: Input) {
    i.price > 0.0 && i.stopLossHigh.Some? && 0.0 < i.stopLossHigh.value <= i.price
  }

  // ---- the rules on profit ----------------------------------------------------------------------------

  ghost predicate TargetMet(i: Input) { 0.0 < i.target <= i.realized + i.unrealized }

  /** The book has turned against a directional bot that is more than 1.5 per cent of its budget up. */
  ghost predicate Exhausted(i: Input) {
    && i.smartExit && i.flowHarvest && 1000.0 * (i.realized + i.unrealized) > 15.0 * i.budget
    && !i.direction.NEUTRAL? && i.bias.Some? && Side(i.direction) * i.bias.value < -2.5
    && (i.direction.LONG? ==> i.flow in {Some(CONFIRMED_DUMP), Some(DUMP_PRESSURE)})
    && (i.direction.SHORT? ==> i.flow in {Some(CONFIRMED_PUMP), Some(PUMP_PRESSURE)})
  }

  /** With half of the target earned, the card stop of a directional bot can be tightened to 1.5 per
      cent behind the price. */
  ghost predicate Tightens(i: Input) {
    && 0.0 < i.target <= 2.0 * (i.realized + i.unrealized) && i.price > 0.0 && !i.direction.NEUTRAL?
    && i.stopLoss.Some?
    && var stop := RoundTo(i.price - Side(i.direction) * (0.015 * i.price), TrailScale(i));
    && Side(i.direction) * (stop - i.stopLoss.value) > 0.0
    && (i.trailing.Some? ==> Side(i.direction) * (stop - i.trailing.value) > 0.0)
  }

  /** Twice the half-life and four hours have passed, in calm, within one per cent of break-even. */
  ghost predicate Stale(i: Input) {
    && i.rotation && i.halfLife > 0.0 && i.ageHours > 4.0 && i.ageHours > 2.0 * i.halfLife && i.storm != Some(true)
    && -i.budget < 100.0 * (i.realized + i.unrealized) < i.budget
  }

  /** A directional bot has once earned three quarters of its target. */
  ghost predicate Armed(i: Input) {
    i.target > 0.0 && !i.direction.NEUTRAL? && 4.0 * i.peak >= 3.0 * i.target
  }

  ghost predicate BackToNothing(i: Input) { Armed(i) && 500.0 * (i.realized + i.unrealized) <= i.budget }

  /** An armed peak is at least three quarters of the target, so four fifths of it always exceed the
      guaranteed three tenths. */
  ghost predicate GaveBackAFifth(i: Input) { Armed(i) && 5.0 * (i.realized + i.unrealized) < 4.0 * i.peak }

  ghost predicate LossReached(i: Input) { i.maxLoss > 0.0 && i.realized + i.unrealized + i.maxLoss <= 0.0 }

  ghost predicate ThesisDead(i: Input) { Past(i, i.antiHunt) }

  // ---- the rules on the range ---------------------------------------------------------------------------

  ghost predicate Ranged(i: Input) { i.price > 0.0 && i.lower < i.upper }

  ghost predicate FellOut(i: Input) { Ranged(i) && 100.0 * i.price < i.lower * (100.0 - i.breakBuffer) }

  ghost predicate RoseOut(i: Input) { Ranged(i) && 100.0 * i.price > i.upper * (100.0 + i.breakBuffer) }

  /** Losing, still inside, and in the last 12 per cent of the range on the side the trend leads to. */
  ghost predicate EdgeOfTrend(i: Input) {
    && Ranged(i) && i.realized + i.unrealized < 0.0
    && i.lower * (100.0 - i.breakBuffer) < 100.0 * i.price < i.upper * (100.0 + i.breakBuffer)
    && ((i.regime.TREND_UP? && !i.direction.LONG? && 100.0 * (i.price - i.lower) >= 88.0 * (i.upper - i.lower))
        || (i.regime.TREND_DOWN? && !i.direction.SHORT? && 100.0 * (i.price - i.lower) <= 12.0 * (i.upper - i.lower)))
  }

  /** Below the range with no adjustment left, or holding long in a downtrend or an unknown market. */
  ghost predicate GivesUpBelow(i: Input) {
    FellOut(i) && (i.adjustmentsLeft <= 0 || (!i.direction.SHORT? && (i.regime.TREND_DOWN? || i.regime.NO_REGIME?)))
  }

  /** Above the range with no adjustment left, or against an uptrend; only a short bot also in an
      unknown market. */
  ghost predicate GivesUpAbove(i: Input) {
    && RoseOut(i) && !FellOut(i)
    && (i.adjustmentsLeft <= 0 || (!i.direction.LONG? && i.regime.TREND_UP?)
        || (i.direction.SHORT? && i.regime.NO_REGIME?))
  }

  // ---- every decision ---------------------------------------------------------------------------------------

  /** The decision ends the bot. */
  ghost predicate Ends(d: Decision) {
    d.Plain? && !d.action.HOLD?
  }

  ghost predicate PriceRule(i: Input) { TargetHit(i) || StopHit(i) || CeilingHit(i) }

  ghost predicate ProfitRule(i: Input) {
    Stale(i) || BackToNothing(i) || GaveBackAFifth(i) || LossReached(i) || ThesisDead(i)
  }

  ghost predicate RangeRule(i: Input) { EdgeOfTrend(i) || GivesUpBelow(i) || GivesUpAbove(i) }

  /** The rules of a decision, against the plain ones. */
  lemma RulesAreThese(i: Input)
    ensures TargetPriceReached(i) <==> TargetHit(i)
    ensures StopBreached(i) <==> StopHit(i)
    ensures UpperStopBreached(i) <==> CeilingHit(i)
    ensures FlowExhausted(i) <==> Exhausted(i)
    ensures AgedOut(i) <==> Stale(i)
    ensures TrailArmed(i) <==> Armed(i)
    ensures StructureBroken(i) <==> ThesisDead(i)
  {
  }

  lemma TrailIsThis(i: Input)
    ensures TrailAdvances(i) <==> Tightens(i)
  {
    assert i.price - 0.015 * i.price == i.price * 0.985 && i.price + 0.015 * i.price == i.price * 1.015;
  }

  lemma FloorIsAFifth(i: Input)
    requires Armed(i)
    ensures ProfitFloor(i) == i.peak * 0.8
  {
  }

  lemma BoundsAreThese(i: Input)
    ensures i.price < BreakDownAt(i) <==> 100.0 * i.price < i.lower * (100.0 - i.breakBuffer)
    ensures i.price > BreakDownAt(i) <==> 100.0 * i.price > i.lower * (100.0 - i.breakBuffer)
    ensures i.price < BreakUpAt(i) <==> 100.0 * i.price < i.upper * (100.0 + i.breakBuffer)
    ensures i.price > BreakUpAt(i) <==> 100.0 * i.price > i.upper * (100.0 + i.breakBuffer)
  {
    Hundredfold(i.lower, i.breakBuffer);
    Hundredfold(i.upper, i.breakBuffer);
  }

  lemma Hundredfold(bound: real, buffer: real)
    ensures 100.0 * (bound * (1.0 - buffer / 100.0)) == bound * (100.0 - buffer)
    ensures 100.0 * (bound * (1.0 + buffer / 100.0)) == bound * (100.0 + buffer)
  {
  }

  lemma PositionIs(i: Input)
    requires i.lower < i.upper
    ensures Position(i) >= 88.0 <==> 100.0 * (i.price - i.lower) >= 88.0 * (i.upper - i.lower)
    ensures Position(i) <= 12.0 <==> 100.0 * (i.price - i.lower) <= 12.0 * (i.upper - i.lower)
  {
    ShareOf(i.price - i.lower, i.upper - i.lower);
  }

  lemma ShareOf(x: real, width: real)
    requires width > 0.0
    ensures x / width * 100.0 >= 88.0 <==> 100.0 * x >= 88.0 * width
    ensures x / width * 100.0 <= 12.0 <==> 100.0 * x <= 12.0 * width
  {
    var q := x / width;
    assert q * width == x;
    assert (q * 100.0 - 88.0) * width == 100.0 * x - 88.0 * width;
    assert (q * 100.0 - 12.0) * width == 100.0 * x - 12.0 * width;
    SameSign(q * 100.0 - 88.0, width);
    SameSign(q * 100.0 - 12.0, width);
  }

  lemma SameSign(z: real, width: real)
    requires width > 0.0
    ensures z * width >= 0.0 <==> z >= 0.0
    ensures z * width <= 0.0 <==> z <= 0.0
  {
  }

  lemma EdgeIsThis(i: Input)
    requires i.price > 0.0 && i.lower < i.upper
    ensures PreBreakExit(i) <==> EdgeOfTrend(i)
  {
    BoundsAreThese(i);
    PositionIs(i);
  }

  /** The part of a decision that looks at the range. */
  lemma RangeExactly(i: Input)
    ensures var d := RangeDecision(i);
            && (Ends(d) <==> RangeRule(i)) && !d.Trail?
            && (d.Shift? <==> !RangeRule(i) && (FellOut(i) || RoseOut(i)))
            && (Ends(d) ==> d.action == if !EdgeOfTrend(i) && GivesUpAbove(i) && i.direction.NEUTRAL?
                                           && i.regime.TREND_UP? && i.realized + i.unrealized > 0.0
                                        then CLOSE_TAKE_PROFIT else CLOSE_RANGE_BREAK)
  {
    BoundsAreThese(i);
    if Ranged(i) { EdgeIsThis(i); }
  }

  /** When a bot is closed: a price rule, the profit target or an exhausted flow always close it; if
      none applies and the card stop cannot be tightened, the remaining rules do. */
  lemma EndsExactly(i: Input)
    ensures Ends(Decide(i)) <==>
            PriceRule(i) || TargetMet(i) || Exhausted(i) || (!Tightens(i) && (ProfitRule(i) || RangeRule(i)))
    ensures Decide(i).Trail? <==> Tightens(i) && !(PriceRule(i) || TargetMet(i) || Exhausted(i))
    ensures Decide(i).Shift? <==>
            && !(PriceRule(i) || TargetMet(i) || Exhausted(i) || Tightens(i) || ProfitRule(i) || RangeRule(i))
            && (FellOut(i) || RoseOut(i))
  {
    RulesAreThese(i);
    TrailIsThis(i);
    if Armed(i) { FloorIsAFifth(i); }
    RangeExactly(i);
  }

  /** How a price closes a bot: a target only in profit, and a stop as a profit exactly when there is
      one. */
  lemma PriceRulesExactly(i: Input)
    ensures TargetHit(i) ==> Decide(i) == Plain(CLOSE_TAKE_PROFIT, TakeProfitPriceHit)
    ensures !TargetHit(i) && StopHit(i) ==>
              Decide(i) == if i.realized + i.unrealized > 0.0 then Plain(CLOSE_TAKE_PROFIT, TrailingSlProfitLock)
                           else Plain(CLOSE_STOP_LOSS, StopLossPriceBreach)
    ensures !TargetHit(i) && !StopHit(i) && CeilingHit(i) ==>
              Decide(i) == if i.realized + i.unrealized > 0.0 then Plain(CLOSE_TAKE_PROFIT, TrailingSlProfitLock)
                           else Plain(CLOSE_STOP_LOSS, StopLossHighBreach)
  {
    RulesAreThese(i);
  }

  /** How profit and loss close a bot, each rule in its place. */
  lemma ProfitRulesExactly(i: Input)
    requires !PriceRule(i)
    ensures TargetMet(i) ==> Decide(i) == Plain(CLOSE_TAKE_PROFIT, TakeProfit)
    ensures !TargetMet(i) && Exhausted(i) ==> Decide(i) == Plain(CLOSE_SMART_HARVEST, SmartHarvest)
    ensures !TargetMet(i) && !Exhausted(i) && !Tightens(i) ==>
              && (Stale(i) ==> Decide(i) == Plain(CLOSE_OU_ROTATION, OuRotation))
              && (!Stale(i) && BackToNothing(i) ==> Decide(i) == Plain(CLOSE_TAKE_PROFIT, BreakevenLock))
              && (!Stale(i) && !BackToNothing(i) && GaveBackAFifth(i) ==>
                    Decide(i) == Plain(CLOSE_TAKE_PROFIT, TrailingTakeProfit))
              && (!Stale(i) && !BackToNothing(i) && !GaveBackAFifth(i) && LossReached(i) ==>
                    Decide(i) == Plain(CLOSE_STOP_LOSS, StopLoss))
              && (!Stale(i) && !BackToNothing(i) && !GaveBackAFifth(i) && !LossReached(i) && ThesisDead(i) ==>
                    Decide(i) == Plain(CLOSE_STRUCT_INVALID, AntiHunt))
              && (!ProfitRule(i) && RangeRule(i) ==>
                    Decide(i).action == if !EdgeOfTrend(i) && GivesUpAbove(i) && i.direction.NEUTRAL?
                                           && i.regime.TREND_UP? && i.realized + i.unrealized > 0.0
                                        then CLOSE_TAKE_PROFIT else CLOSE_RANGE_BREAK)
  {
    RulesAreThese(i);
    TrailIsThis(i);
    if Armed(i) { FloorIsAFifth(i); }
    RangeExactly(i);
  }

  // ---- over runs ---------------------------------------------------------------------------------------------

  /** An accepted reading ends the bot exactly when its decision does. */
  lemma ReadingEndsExactly(b: Bot, maxAdjustments: int, reading: Input)
    requires b.running
    ensures !Step(b, maxAdjustments, Manage(reading, true)).running <==>
            Ends(Decide(InputOf(b, maxAdjustments, reading)))
  {
  }

  /** The price of an observation is on the losing side of the card stop, or at it. */
  ghost predicate BeyondCard(b: Bot, price: real) {
    b.stopLoss.Some? && b.stopLoss.value > 0.0 && price > 0.0 && Side(b.direction) * (price - b.stopLoss.value) <= 0.0
  }

  lemma {:induction false} EndedStays(b: Bot, maxAdjustments: int, es: seq<Event>, n: nat)
    requires n <= |es| && !Run(b, maxAdjustments, es[..n]).running
    ensures Run(b, maxAdjustments, es) == Run(b, maxAdjustments, es[..n])
    decreases |es|
  {
    if n < |es| {
      var front := es[..|es| - 1];
      assert front[..n] == es[..n];
      EndedStays(b, maxAdjustments, front, n);
    } else {
      assert es[..n] == es;
    }
  }

  /** Over every run: a bot that is still running has never seen an accepted reading at or past the
      card stop it carried then. */
  lemma RunningNeverPassedItsStop(b: Bot, maxAdjustments: int, es: seq<Event>, n: nat)
    requires n < |es| && es[n].Manage? && es[n].accepted && Run(b, maxAdjustments, es).running
    ensures !BeyondCard(Run(b, maxAdjustments, es[..n]), es[n].reading.price)
  {
    var a := Run(b, maxAdjustments, es[..n]);
    if !a.running {
      EndedStays(b, maxAdjustments, es, n);
    }
    assert es[..n + 1][..n] == es[..n];
    if BeyondCard(a, es[n].reading.price) {
      PriceRulesExactly(InputOf(a, maxAdjustments, es[n].reading));
      EndedStays(b, maxAdjustments, es, n + 1);
    }
  }

  /** A long bot three in the red at 94, with its stop at 95. */
  lemma StopClosesLong(i: Input)
    requires i.direction.LONG? && i.stopLoss == Some(95.0) && i.price == 94.0 && i.targetPrice.None?
    requires i.realized + i.unrealized == -3.0
    ensures Decide(i) == Plain(CLOSE_STOP_LOSS, StopLossPriceBreach)
  {
    PriceRulesExactly(i);
  }

  // ---- the budget of shifts ------------------------------------------------------------------------------------

  /** A radar pass shifts a running bot exactly when it is accepted, in band 2 or above, and an
      adjustment is left, or the one beyond the budget that only bands 4 and up may take. */
  lemma RadarShiftsExactly(b: Bot, maxAdjustments: int, band: int, price: real, accepted: bool)
    ensures Step(b, maxAdjustments, Radar(band, price, accepted)).adjustments == b.adjustments + 1 <==>
            && b.running && accepted && price > 0.0 && b.lower < b.upper
            && ((band >= 2 && b.adjustments < maxAdjustments) || (band >= 4 && b.adjustments == maxAdjustments))
  {
  }
}
