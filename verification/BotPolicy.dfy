/** The supervision policy of a running grid bot: one decision per observation. */
module BotPolicy {
  import opened Common

  datatype Direction = LONG | SHORT | NEUTRAL

  datatype Regime = RANGE | TREND_UP | TREND_DOWN | NO_REGIME

  datatype Flow = CONFIRMED_DUMP | DUMP_PRESSURE | CONFIRMED_PUMP | PUMP_PRESSURE | CALM

  datatype Action =
    | HOLD | CLOSE_TAKE_PROFIT | CLOSE_STOP_LOSS | CLOSE_RANGE_BREAK | CLOSE_STRUCT_INVALID
    | CLOSE_SMART_HARVEST | CLOSE_OU_ROTATION | UPDATE_TRAILING_SL | ADJUST_UP | ADJUST_DOWN

  datatype Reason =
    | NoReason | TakeProfitPriceHit | TrailingSlProfitLock | StopLossPriceBreach | StopLossHighBreach | TakeProfit
    | SmartHarvest | TrailingSlAdvance | OuRotation | BreakevenLock | TrailingTakeProfit | StopLoss | AntiHunt
    | BreakUpEarly | BreakDownEarly | BreakDown | BreakUp | BreakUpProfitTake | BreakUpTrendStop
    | Reset | ShiftUp | ShiftDown | ShiftUpNoneLeft | ShiftDownNoneLeft

  datatype Decision =
    | Plain(action: Action, reason: Reason)
    | Shift(action: Action, reason: Reason, newLower: real, newUpper: real)
    | Trail(action: Action, reason: Reason, stop: real)

  datatype Input = Input(
    direction: Direction, lower: real, upper: real, price: real,
    realized: real, unrealized: real, peak: real, budget: real,
    target: real, maxLoss: real, breakBuffer: real, adjustmentsLeft: int, regime: Regime,
    antiHunt: Option<real>, targetPrice: Option<real>, stopLoss: Option<real>, stopLossHigh: Option<real>,
    trailing: Option<real>, flow: Option<Flow>, bias: Option<real>,
    ageHours: real, halfLife: real, smartExit: bool, flowHarvest: bool, rotation: bool,
    precision: int, storm: Option<bool>)

  function Total(i: Input): real { i.realized + i.unrealized }

  // ---- rounding -----------------------------------------------------------------------------

  function Pow10(n: nat): (r: real)
    ensures r >= 1.0
  {
    if n == 0 then 1.0 else 10.0 * Pow10(n - 1)
  }

  /** To the nearest integer, halves away from zero. */
  function RoundHalfAway(x: real): int {
    if x >= 0.0 then (x + 0.5).Floor else -((-x + 0.5).Floor)
  }

  /** To the nearest multiple of `1 / scale`. */
  function RoundTo(x: real, scale: real): real
    requires scale >= 1.0
  {
    RoundHalfAway(x * scale) as real / scale
  }

  // ---- the stages of a decision ---------------------------------------------------------------

  predicate Set(o: Option<real>, price: real) {
    o.Some? && o.value > 0.0 && price > 0.0
  }

  predicate TargetPriceReached(i: Input) {
    Set(i.targetPrice, i.price) && Total(i) > 0.0 &&
    if i.direction.SHORT? then i.price <= i.targetPrice.value else i.price >= i.targetPrice.value
  }

  predicate StopBreached(i: Input) {
    Set(i.stopLoss, i.price) &&
    if i.direction.SHORT? then i.price >= i.stopLoss.value else i.price <= i.stopLoss.value
  }

  predicate UpperStopBreached(i: Input) {
    Set(i.stopLossHigh, i.price) && i.price >= i.stopLossHigh.value
  }

  predicate FlowExhausted(i: Input) {
    && i.smartExit && i.flowHarvest && Total(i) > i.budget * 0.015
    && i.bias.Some? && i.flow.Some?
    && match i.direction
       case LONG => i.bias.value < -2.5 && (i.flow.value.CONFIRMED_DUMP? || i.flow.value.DUMP_PRESSURE?)
       case SHORT => i.bias.value > 2.5 && (i.flow.value.CONFIRMED_PUMP? || i.flow.value.PUMP_PRESSURE?)
       case NEUTRAL => false
  }

  function TrailPrecision(i: Input): nat {
    if i.precision > 0 then i.precision else 4
  }

  function TrailScale(i: Input): (scale: real)
    ensures scale >= 1.0
  {
    Pow10(TrailPrecision(i))
  }

  function TrailFactor(direction: Direction): real {
    if direction.SHORT? then 1.015 else 0.985
  }

  function TrailCandidate(i: Input): real {
    RoundTo(i.price * TrailFactor(i.direction), TrailScale(i))
  }

  /** The trailing stop moves only towards the price, and only past the stop on the card. */
  predicate TrailAdvances(i: Input) {
    && i.target > 0.0 && Total(i) >= i.target * 0.5 && i.price > 0.0 && i.stopLoss.Some?
    && match i.direction
       case LONG => (i.trailing.None? || TrailCandidate(i) > i.trailing.value) && TrailCandidate(i) > i.stopLoss.value
       case SHORT => (i.trailing.None? || TrailCandidate(i) < i.trailing.value) && TrailCandidate(i) < i.stopLoss.value
       case NEUTRAL => false
  }

  predicate AgedOut(i: Input) {
    && i.rotation && i.halfLife > 0.0
    && i.ageHours > (if 2.0 * i.halfLife < 4.0 then 4.0 else 2.0 * i.halfLife)
    && i.storm != Some(true)
    && AbsReal(Total(i)) < i.budget * 0.01
  }

  function ArmLevel(i: Input): real { i.target * 0.75 }

  predicate TrailArmed(i: Input) {
    i.target > 0.0 && !i.direction.NEUTRAL? && i.peak >= ArmLevel(i)
  }

  /** Four fifths of the peak, but at least the guaranteed floor. */
  function ProfitFloor(i: Input): real {
    var trailing := i.peak - i.peak * 0.2;
    var cap := ArmLevel(i) * 0.85;
    var guaranteed := if i.target * 0.3 > cap then cap else i.target * 0.3;
    if guaranteed > trailing then guaranteed else trailing
  }

  predicate StructureBroken(i: Input) {
    Set(i.antiHunt, i.price) &&
    if i.direction.SHORT? then i.price > i.antiHunt.value else i.price < i.antiHunt.value
  }

  function BreakDownAt(i: Input): real { i.lower * (1.0 - i.breakBuffer / 100.0) }

  function BreakUpAt(i: Input): real { i.upper * (1.0 + i.breakBuffer / 100.0) }

  function Position(i: Input): real
    requires i.upper > i.lower
  {
    (i.price - i.lower) / (i.upper - i.lower) * 100.0
  }

  predicate AdverseRegime(i: Input) {
    match i.direction
    case NEUTRAL => i.regime.TREND_UP? || i.regime.TREND_DOWN?
    case LONG => i.regime.TREND_DOWN?
    case SHORT => i.regime.TREND_UP?
  }

  /** An underwater bot at the edge of its range, in a confirmed adverse regime. */
  predicate PreBreakExit(i: Input)
    requires i.upper > i.lower
  {
    && AdverseRegime(i) && BreakDownAt(i) < i.price < BreakUpAt(i) && Total(i) < 0.0
    && (if i.regime.TREND_UP? then !i.direction.LONG? && Position(i) >= 88.0
        else !i.direction.SHORT? && Position(i) <= 12.0)
  }

  function RecenterBounds(lower: real, upper: real, price: real): (real, real) {
    var half := (upper - lower) / 2.0;
    (price - half, price + half)
  }

  function AdjustDecision(i: Input, action: Action, shift: Reason, none: Reason): Decision {
    if i.adjustmentsLeft <= 0 then Plain(CLOSE_RANGE_BREAK, none)
    else
      var width := i.upper - i.lower;
      Shift(action, shift, i.price - width / 2.0, i.price + width / 2.0)
  }

  /** The reset plan: nothing inside the buffered range or without adjustments left. */
  function ResetPlan(i: Input): Option<(real, real)> {
    if i.adjustmentsLeft <= 0 then None
    else
      var half := (i.upper - i.lower) / 2.0;
      if i.price > BreakUpAt(i) || i.price < BreakDownAt(i) then Some((i.price - half, i.price + half))
      else None
  }

  function OnBreakDown(i: Input): Decision {
    var adverse := i.regime.TREND_DOWN? || i.regime.NO_REGIME?;
    if ResetPlan(i).Some? && !adverse then
      Shift(ADJUST_DOWN, Reset, ResetPlan(i).value.0, ResetPlan(i).value.1)
    else if !i.direction.SHORT? && adverse then Plain(CLOSE_RANGE_BREAK, BreakDown)
    else AdjustDecision(i, ADJUST_DOWN, ShiftDown, ShiftDownNoneLeft)
  }

  function OnBreakUp(i: Input): Decision {
    var adverse := i.regime.TREND_UP? || i.regime.NO_REGIME?;
    if ResetPlan(i).Some? && !adverse then
      Shift(ADJUST_UP, Reset, ResetPlan(i).value.0, ResetPlan(i).value.1)
    else match i.direction
      case LONG => AdjustDecision(i, ADJUST_UP, ShiftUp, ShiftUpNoneLeft)
      case SHORT =>
        if adverse then Plain(CLOSE_RANGE_BREAK, BreakUp) else AdjustDecision(i, ADJUST_UP, ShiftUp, ShiftUpNoneLeft)
      case NEUTRAL =>
        if i.regime.TREND_UP? then
          if Total(i) > 0.0 then Plain(CLOSE_TAKE_PROFIT, BreakUpProfitTake)
          else Plain(CLOSE_RANGE_BREAK, BreakUpTrendStop)
        else AdjustDecision(i, ADJUST_UP, ShiftUp, ShiftUpNoneLeft)
  }

  /** The part of the policy that looks at the range. */
  function RangeDecision(i: Input): Decision {
    if i.price <= 0.0 || i.upper <= i.lower then Plain(HOLD, NoReason)
    else if PreBreakExit(i) then Plain(CLOSE_RANGE_BREAK, if i.regime.TREND_UP? then BreakUpEarly else BreakDownEarly)
    else if i.price < BreakDownAt(i) then OnBreakDown(i)
    else if i.price > BreakUpAt(i) then OnBreakUp(i)
    else Plain(HOLD, NoReason)
  }

  function Decide(i: Input): Decision {
    var inProfit := Total(i) > 0.0;
    if TargetPriceReached(i) then Plain(CLOSE_TAKE_PROFIT, TakeProfitPriceHit)
    else if StopBreached(i) then
      if inProfit then Plain(CLOSE_TAKE_PROFIT, TrailingSlProfitLock) else Plain(CLOSE_STOP_LOSS, StopLossPriceBreach)
    else if UpperStopBreached(i) then
      if inProfit then Plain(CLOSE_TAKE_PROFIT, TrailingSlProfitLock) else Plain(CLOSE_STOP_LOSS, StopLossHighBreach)
    else if i.target > 0.0 && Total(i) >= i.target then Plain(CLOSE_TAKE_PROFIT, TakeProfit)
    else if FlowExhausted(i) then Plain(CLOSE_SMART_HARVEST, SmartHarvest)
    else if TrailAdvances(i) then Trail(UPDATE_TRAILING_SL, TrailingSlAdvance, TrailCandidate(i))
    else if AgedOut(i) then Plain(CLOSE_OU_ROTATION, OuRotation)
    else if TrailArmed(i) && Total(i) <= i.budget * 0.002 then Plain(CLOSE_TAKE_PROFIT, BreakevenLock)
    else if TrailArmed(i) && Total(i) < ProfitFloor(i) then Plain(CLOSE_TAKE_PROFIT, TrailingTakeProfit)
    else if i.maxLoss > 0.0 && Total(i) <= -i.maxLoss then Plain(CLOSE_STOP_LOSS, StopLoss)
    else if StructureBroken(i) then Plain(CLOSE_STRUCT_INVALID, AntiHunt)
    else RangeDecision(i)
  }

  // ---- the deploy-time stop ---------------------------------------------------------------------

  function AntiHuntStop(direction: Direction, lower: real, upper: real, atr: real, mult: real): real {
    var buffer := atr * (if mult <= 0.0 then 1.5 else mult);
    if direction.SHORT? then upper + buffer
    else if lower - buffer <= 0.0 then lower * 0.95 else lower - buffer
  }

  function ClampStop(direction: Direction, lower: real, upper: real, stop: real): real {
    if direction.SHORT? then if stop <= upper then upper * 1.02 else stop
    else if stop >= lower then lower * 0.98 else stop
  }

  /** How far the stop lies outside the range. */
  function Beyond(direction: Direction, lower: real, upper: real, stop: real): real {
    if direction.SHORT? then stop - upper else lower - stop
  }

  /** The stop lies a multiple of the range of a bar beyond the bound, one and a half where none is given;
      where that would not be a price, five per cent below. */
  lemma AntiHuntExactly(direction: Direction, lower: real, upper: real, atr: real, mult: real)
    ensures var reach := atr * (if mult > 0.0 then mult else 1.5);
            var stop := AntiHuntStop(direction, lower, upper, atr, mult);
            && (direction.SHORT? || lower > reach ==> Beyond(direction, lower, upper, stop) == reach)
            && (!direction.SHORT? && lower <= reach ==> Beyond(direction, lower, upper, stop) == lower / 20.0)
  {
  }

  /** A clamped stop lies outside every range of positive prices. */
  lemma ClampedStopIsOutside(direction: Direction, lower: real, upper: real, atr: real, mult: real)
    requires 0.0 < lower < upper
    ensures var stop := ClampStop(direction, lower, upper, AntiHuntStop(direction, lower, upper, atr, mult));
            Beyond(direction, lower, upper, stop) > 0.0 && (atr >= 0.0 ==> stop > 0.0)
  {
  }

  /** Deployment rounds the stop to the price tick before and after clamping it.  In ticks, with
      bounds on the tick grid, the final stop is still outside the range exactly when the first
      rounding already was, or the bound is far enough from zero for two per cent to survive rounding. */
  lemma DeployedStopIsOutsideExactly(direction: Direction, lower: int, upper: int, raw: real)
    requires 0 < lower < upper
    ensures var rounded := RoundHalfAway(raw);
            var final := RoundHalfAway(ClampStop(direction, lower as real, upper as real, rounded as real));
            Beyond(direction, lower as real, upper as real, final as real) > 0.0 <==>
            if direction.SHORT? then rounded > upper || upper >= 25 else rounded < lower || lower >= 26
  {
    var rounded := RoundHalfAway(raw);
    assert RoundHalfAway(rounded as real) == rounded;
    TwoPercentAbove(upper);
    TwoPercentBelow(lower);
  }

  /** Bounds of ten and twenty ticks: both roundings leave the stop on the bound. */
  lemma CheapStopIsOnTheBound()
    ensures var final := RoundHalfAway(ClampStop(LONG, 10.0, 20.0, 10.0)) as real;
            Beyond(LONG, 10.0, 20.0, final) == 0.0
    ensures var final := RoundHalfAway(ClampStop(SHORT, 10.0, 20.0, 20.0)) as real;
            Beyond(SHORT, 10.0, 20.0, final) == 0.0
  {
  }

  lemma TwoPercentAbove(bound: int)
    requires bound > 0
    ensures RoundHalfAway(bound as real * 1.02) > bound <==> bound >= 25
  {
    assert bound as real * 1.02 == bound as real + bound as real * 0.02;
  }

  lemma TwoPercentBelow(bound: int)
    requires bound > 0
    ensures RoundHalfAway(bound as real * 0.98) < bound <==> bound >= 26
  {
    assert bound as real * 0.98 == bound as real - bound as real * 0.02;
  }

  // ---- single decisions ---------------------------------------------------------------------------

  /** All three places that re-center a range agree, and every shift follows a break of the
      buffered range, with an adjustment left to spend. */
  lemma ShiftsRecenter(i: Input)
    requires Decide(i).Shift?
    ensures Decide(i).action in {ADJUST_UP, ADJUST_DOWN}
    ensures (Decide(i).newLower, Decide(i).newUpper) == RecenterBounds(i.lower, i.upper, i.price)
    ensures i.adjustmentsLeft > 0 && i.price > 0.0 && i.upper > i.lower
    ensures if Decide(i).action.ADJUST_DOWN? then i.price < BreakDownAt(i) else i.price > BreakUpAt(i)
    ensures !StructureBroken(i) && !StopBreached(i)
  {
  }

  lemma CenteredIsInside(i: Input)
    requires 0.0 <= i.breakBuffer <= 100.0 && i.price > 0.0 && i.upper > i.lower
    requires (i.lower, i.upper) == RecenterBounds(i.lower, i.upper, i.price)
    ensures BreakDownAt(i) < i.price < BreakUpAt(i) && Position(i) == 50.0
  {
    var b := i.breakBuffer / 100.0;
    assert 0.0 <= b <= 1.0;
    if i.lower >= 0.0 {
      assert i.lower * (1.0 - b) <= i.lower;
    } else {
      assert i.lower * (1.0 - b) <= 0.0;
    }
    assert i.upper * (1.0 + b) >= i.upper;
    var width := i.upper - i.lower;
    assert i.price - i.lower == width / 2.0;
    HalfOf(i.price - i.lower, width);
  }

  lemma HalfOf(x: real, width: real)
    requires width > 0.0 && 2.0 * x == width
    ensures x / width == 0.5
  {
    var q := x / width;
    assert q * width == x;
    assert (q - 0.5) * width == 0.0;
  }

  /** A range centered on the price asks for no shift, no range-break close and, with its stop
      outside, no structural close. */
  lemma CenteredIsQuiet(i: Input)
    requires 0.0 <= i.breakBuffer <= 100.0 && i.price > 0.0 && i.upper > i.lower
    requires (i.lower, i.upper) == RecenterBounds(i.lower, i.upper, i.price)
    requires i.antiHunt.Some? && i.antiHunt.value > 0.0 ==>
               Beyond(i.direction, i.lower, i.upper, i.antiHunt.value) > 0.0
    ensures Decide(i).action !in {ADJUST_UP, ADJUST_DOWN, CLOSE_RANGE_BREAK, CLOSE_STRUCT_INVALID}
  {
    CenteredIsInside(i);
  }

  function Ceiling(x: real): int {
    -((-x).Floor)
  }

  /** At a price of `x` ticks, whole or not, rounding gains at least the distance of the stop. */
  predicate RoundingUndoes(short: bool, x: real) {
    if short then 1.015 * x - x.Floor as real < 0.5 else Ceiling(x) as real - 0.985 * x <= 0.5
  }

  function TrailedTo(i: Input): Input {
    i.(stopLoss := Some(TrailCandidate(i)), trailing := Some(TrailCandidate(i)))
  }

  /** A stop order that has just been trailed is triggered by that same price exactly when rounding
      undoes the distance. */
  lemma TrailedStopTriggersExactly(i: Input)
    requires TrailAdvances(i) && TrailCandidate(i) > 0.0
    ensures StopBreached(TrailedTo(i)) <==> RoundingUndoes(i.direction.SHORT?, i.price * TrailScale(i))
  {
    RoundingUndoesExactly(i.direction.SHORT?, i.price, TrailScale(i), TrailCandidate(i));
  }

  /** The same over plain numbers. */
  lemma RoundingUndoesExactly(short: bool, price: real, scale: real, stop: real)
    requires price > 0.0 && scale >= 1.0 && stop == RoundTo(price * (if short then 1.015 else 0.985), scale)
    ensures (if short then price >= stop else price <= stop) <==> RoundingUndoes(short, price * scale)
  {
    var x := price * scale;
    PositiveProduct(price, scale);
    var ticks := TicksOf(price, if short then 1.015 else 0.985, scale, x);
    RoundedTicks(short, x);
    TickOrder(price, stop, scale, x, ticks);
  }

  lemma PositiveProduct(a: real, b: real)
    requires a > 0.0 && b > 0.0
    ensures a * b > 0.0
  {
  }

  /** At a price of whole ticks that is the case exactly below 34 ticks. */
  lemma WholeTicksTriggerExactly(i: Input, n: nat)
    requires TrailAdvances(i) && TrailCandidate(i) > 0.0 && i.price * TrailScale(i) == n as real
    ensures StopBreached(TrailedTo(i)) <==> n < 34
  {
    TrailedStopTriggersExactly(i);
    UndoneBelow34(i.direction.SHORT?, n);
  }

  lemma UndoneBelow34(short: bool, n: int)
    ensures RoundingUndoes(short, n as real) <==> n < 34
  {
    assert (n as real).Floor == n && (-(n as real)).Floor == -n;
  }

  /** A long bot at 0.0020, trailed in steps of 0.0001: the new stop is the price itself. */
  lemma CheapTrailIsHitAtOnce(i: Input)
    requires i.direction.LONG? && i.price == 0.0020 && i.precision <= 0 && TrailAdvances(i)
    ensures TrailCandidate(i) == i.price && StopBreached(TrailedTo(i))
  {
    Pow10Four();
    var ticks := TicksOf(i.price, 0.985, TrailScale(i), 20.0);
    assert ticks == 20;
    assert TrailCandidate(i) * 10000.0 == 20.0;
  }

  lemma Pow10Four()
    ensures Pow10(4) == 10000.0
  {
    assert Pow10(1) == 10.0;
    assert Pow10(2) == 100.0;
    assert Pow10(3) == 1000.0;
  }

  lemma TicksOf(price: real, factor: real, scale: real, x: real) returns (ticks: int)
    requires scale >= 1.0 && price * scale == x
    ensures ticks == RoundHalfAway(x * factor) && RoundTo(price * factor, scale) * scale == ticks as real
  {
    var y := price * factor;
    Commutes(price, factor, scale);
    assert y * scale == x * factor;
    ticks := RoundHalfAway(y * scale);
    RoundedTimesScale(y, scale);
  }

  lemma RoundedTimesScale(x: real, scale: real)
    requires scale >= 1.0
    ensures RoundTo(x, scale) * scale == RoundHalfAway(x * scale) as real
  {
  }

  lemma Commutes(a: real, b: real, c: real)
    ensures a * b * c == a * c * b
  {
  }

  lemma RoundedTicks(short: bool, x: real)
    requires x > 0.0
    ensures var ticks := RoundHalfAway(x * if short then 1.015 else 0.985) as real;
            (if short then x >= ticks else x <= ticks) <==> RoundingUndoes(short, x)
  {
  }

  lemma TickOrder(price: real, stop: real, p: real, x: real, ticks: int)
    requires p >= 1.0 && price * p == x && stop * p == ticks as real
    ensures price <= stop <==> x <= ticks as real
    ensures price >= stop <==> x >= ticks as real
  {
    assert (price - stop) * p == x - ticks as real;
  }
}
