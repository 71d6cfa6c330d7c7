/** Whole supervised lives of a bot: any interleaving of manage passes and radar re-centers,
    driven by arbitrary prices and market readings.
 */
module BotRuns {
  import opened Common
  import opened BotPolicy

  /** What supervision stores between observations. */
  datatype Bot = Bot(
    direction: Direction, lower: real, upper: real, antiHunt: Option<real>, adjustments: int,
    stopLoss: Option<real>, trailing: Option<real>, running: bool)

  /** `reading` supplies price, profit and market data of a manage pass; its fields that the bot
      stores are overwritten.  `accepted` says whether the exchange and the vetoes let the
      decision through. */
  datatype Event =
    | Manage(reading: Input, accepted: bool)
    | Radar(band: int, price: real, accepted: bool)

  function InputOf(b: Bot, maxAdjustments: int, reading: Input): Input {
    reading.(direction := b.direction, lower := b.lower, upper := b.upper,
    adjustmentsLeft := maxAdjustments - b.adjustments,
    antiHunt := b.antiHunt, stopLoss := b.stopLoss, trailing := b.trailing)
  }

  /** The stop travels with the bound it protects. */
  function RecenterStop(direction: Direction, oldLower: real, oldUpper: real,
                        newLower: real, newUpper: real, stop: real): real {
    if direction.SHORT? then newUpper + (stop - oldUpper) else newLower - (oldLower - stop)
  }

  /** Only a stop above zero is moved. */
  function ShiftBot(b: Bot, newLower: real, newUpper: real): Bot {
    b.(lower := newLower, upper := newUpper, adjustments := b.adjustments + 1,
    antiHunt := if b.antiHunt.Some? && b.antiHunt.value > 0.0
                then Some(RecenterStop(b.direction, b.lower, b.upper, newLower, newUpper, b.antiHunt.value))
                else b.antiHunt)
  }

  function Apply(b: Bot, d: Decision): Bot {
    match d
    case Plain(action, _) => if action.HOLD? then b else b.(running := false)
    case Shift(_, _, newLower, newUpper) => ShiftBot(b, newLower, newUpper)
    case Trail(_, _, stop) => if stop > 0.0 then b.(stopLoss := Some(stop), trailing := Some(stop)) else b
  }

  /** The escape bands may exceed the budget by one shift. */
  predicate BudgetAllows(band: int, adjustments: int, maxAdjustments: int) {
    if band >= 4 then adjustments < maxAdjustments + 1 else adjustments < maxAdjustments
  }

  predicate RadarShifts(b: Bot, maxAdjustments: int, e: Event)
    requires e.Radar?
  {
    e.accepted && e.band >= 2 && BudgetAllows(e.band, b.adjustments, maxAdjustments)
    && e.price > 0.0 && b.upper > b.lower
  }

  function Step(b: Bot, maxAdjustments: int, e: Event): Bot {
    if !b.running then b
    else match e
      case Manage(reading, accepted) => if accepted then Apply(b, Decide(InputOf(b, maxAdjustments, reading))) else b
      case Radar(_, price, _) =>
        if RadarShifts(b, maxAdjustments, e) then
          ShiftBot(b, RecenterBounds(b.lower, b.upper, price).0, RecenterBounds(b.lower, b.upper, price).1)
        else b
  }

  function Run(b: Bot, maxAdjustments: int, es: seq<Event>): Bot {
    if es == [] then b else Step(Run(b, maxAdjustments, es[..|es| - 1]), maxAdjustments, es[|es| - 1])
  }

  // ---- geometry and budget over every run ----------------------------------------------------------

  ghost predicate StopOutside(b: Bot) {
    b.antiHunt.Some? && b.antiHunt.value > 0.0 ==> Beyond(b.direction, b.lower, b.upper, b.antiHunt.value) > 0.0
  }

  /** What stays the same between two points of a run: the direction, the width of the range,
      and the distance of the stop, as long as the stop stays above zero. */
  ghost predicate Kept(a: Bot, b: Bot) {
    && b.direction == a.direction && b.upper - b.lower == a.upper - a.lower
    && a.antiHunt.Some? == b.antiHunt.Some?
    && (b.antiHunt.Some? && b.antiHunt.value > 0.0 ==>
          a.antiHunt.value > 0.0 &&
          Beyond(b.direction, b.lower, b.upper, b.antiHunt.value) ==
          Beyond(a.direction, a.lower, a.upper, a.antiHunt.value))
  }

  lemma ShiftKeeps(b: Bot, price: real)
    ensures var r := RecenterBounds(b.lower, b.upper, price); Kept(b, ShiftBot(b, r.0, r.1))
  {
  }

  lemma StepKeeps(b: Bot, maxAdjustments: int, e: Event)
    requires b.adjustments <= maxAdjustments + 1
    ensures var c := Step(b, maxAdjustments, e);
            Kept(b, c) && b.adjustments <= c.adjustments <= b.adjustments + 1 && c.adjustments <= maxAdjustments + 1
    ensures Step(b, maxAdjustments, e).adjustments == b.adjustments ==>
              Step(b, maxAdjustments, e).lower == b.lower && Step(b, maxAdjustments, e).upper == b.upper
  {
    if b.running {
      match e
      case Manage(reading, accepted) =>
        var i := InputOf(b, maxAdjustments, reading);
        if accepted && Decide(i).Shift? {
          ShiftsRecenter(i);
          ShiftKeeps(b, i.price);
        }
      case Radar(_, price, _) =>
        ShiftKeeps(b, price);
    }
  }

  /** Over every run the width of the range and the distance of a live stop never change, and
      manage passes and radar together shift at most one time more than the budget. */
  lemma {:induction false} EveryRunKeepsGeometry(b: Bot, maxAdjustments: int, es: seq<Event>)
    requires b.adjustments <= maxAdjustments + 1
    ensures var c := Run(b, maxAdjustments, es);
            Kept(b, c) && b.adjustments <= c.adjustments <= maxAdjustments + 1
  {
    if es != [] {
      EveryRunKeepsGeometry(b, maxAdjustments, es[..|es| - 1]);
      StepKeeps(Run(b, maxAdjustments, es[..|es| - 1]), maxAdjustments, es[|es| - 1]);
    }
  }

  /** From a deploy-time stop outside the range, a live stop is outside the range for ever. */
  lemma StopStaysOutside(b: Bot, maxAdjustments: int, es: seq<Event>)
    requires b.adjustments <= maxAdjustments + 1 && StopOutside(b)
    ensures StopOutside(Run(b, maxAdjustments, es))
  {
    EveryRunKeepsGeometry(b, maxAdjustments, es);
  }

  /** A shift loses the distance of the stop exactly when it moves the range of a bot whose stop
      is no longer above zero. */
  lemma DistanceKeptExactly(b: Bot, price: real)
    requires b.antiHunt.Some?
    ensures var r := RecenterBounds(b.lower, b.upper, price);
            var c := ShiftBot(b, r.0, r.1);
            Beyond(c.direction, c.lower, c.upper, c.antiHunt.value) ==
            Beyond(b.direction, b.lower, b.upper, b.antiHunt.value) <==>
            b.antiHunt.value > 0.0 || price - b.lower == b.upper - price
  {
  }

  /** The stop of a short bot never falls to zero; the stop of any other bot can, and is then
      left behind by the next shift. */
  lemma ShortStopStaysAlive(b: Bot, maxAdjustments: int, es: seq<Event>)
    requires b.direction.SHORT? && b.antiHunt.Some? && b.antiHunt.value > 0.0 && StopOutside(b) && b.upper > b.lower
    requires b.adjustments <= maxAdjustments + 1 && b.upper > 0.0
    ensures var c := Run(b, maxAdjustments, es); c.antiHunt.Some? && c.antiHunt.value > 0.0 && c.upper > 0.0
  {
    if es != [] {
      var front := Run(b, maxAdjustments, es[..|es| - 1]);
      ShortStopStaysAlive(b, maxAdjustments, es[..|es| - 1]);
      StopStaysOutside(b, maxAdjustments, es[..|es| - 1]);
      EveryRunKeepsGeometry(b, maxAdjustments, es[..|es| - 1]);
      var e := es[|es| - 1];
      if e.Manage? && Decide(InputOf(front, maxAdjustments, e.reading)).Shift? {
        ShiftsRecenter(InputOf(front, maxAdjustments, e.reading));
      }
    }
  }

  /** One shift keeps the stop of a long or neutral bot above zero exactly when its price exceeds half
      the range and the distance of the stop. */
  lemma ShiftKeepsAliveExactly(b: Bot, price: real)
    requires !b.direction.SHORT? && b.antiHunt.Some? && b.antiHunt.value > 0.0
    ensures var r := RecenterBounds(b.lower, b.upper, price);
            ShiftBot(b, r.0, r.1).antiHunt.value > 0.0 <==> price > Reach(b)
  {
  }

  /** Half the range and the distance of the stop: what a shift puts below its price. */
  function Reach(b: Bot): real
    requires b.antiHunt.Some?
  {
    (b.upper - b.lower) / 2.0 + Beyond(b.direction, b.lower, b.upper, b.antiHunt.value)
  }

  function PriceOf(e: Event): real {
    match e case Manage(reading, _) => reading.price case Radar(_, price, _) => price
  }

  /** While prices stay above that reach, the stop of a long or neutral bot stays above zero and
      keeps its distance over any run, whatever becomes of the range. */
  lemma {:induction false} LongStopStaysAlive(b: Bot, maxAdjustments: int, es: seq<Event>)
    requires !b.direction.SHORT? && b.antiHunt.Some? && b.antiHunt.value > 0.0
    requires b.adjustments <= maxAdjustments + 1
    requires forall n :: 0 <= n < |es| ==> PriceOf(es[n]) > Reach(b)
    ensures var c := Run(b, maxAdjustments, es);
            && c.antiHunt.Some? && c.antiHunt.value > 0.0 && c.direction == b.direction
            && c.upper - c.lower == b.upper - b.lower
            && Beyond(c.direction, c.lower, c.upper, c.antiHunt.value) ==
               Beyond(b.direction, b.lower, b.upper, b.antiHunt.value)
  {
    if es != [] {
      var front, e := es[..|es| - 1], es[|es| - 1];
      LongStopStaysAlive(b, maxAdjustments, front);
      EveryRunKeepsGeometry(b, maxAdjustments, front);
      StepKeepsAlive(Run(b, maxAdjustments, front), maxAdjustments, e);
    }
  }

  lemma StepKeepsAlive(a: Bot, maxAdjustments: int, e: Event)
    requires !a.direction.SHORT? && a.antiHunt.Some? && a.antiHunt.value > 0.0
    requires a.adjustments <= maxAdjustments + 1 && PriceOf(e) > Reach(a)
    ensures var c := Step(a, maxAdjustments, e); c.antiHunt.Some? && c.antiHunt.value > 0.0 && Kept(a, c)
  {
    StepKeeps(a, maxAdjustments, e);
    ShiftKeepsAliveExactly(a, PriceOf(e));
    if e.Manage? && Decide(InputOf(a, maxAdjustments, e.reading)).Shift? {
      ShiftsRecenter(InputOf(a, maxAdjustments, e.reading));
    }
  }

  /** Two shifts, the first at a price within reach. */
  lemma LongStopCanBeLeftBehind()
    ensures var b := Bot(LONG, 10.0, 14.0, Some(1.0), 0, None, None, true);
            var es := [Radar(3, 6.0, true), Radar(3, 20.0, true)];
            Run(b, 2, es) == Bot(LONG, 18.0, 22.0, Some(-5.0), 2, None, None, true)
  {
    var b := Bot(LONG, 10.0, 14.0, Some(1.0), 0, None, None, true);
    var es := [Radar(3, 6.0, true), Radar(3, 20.0, true)];
    assert es[..1] == [Radar(3, 6.0, true)] && es[..1][..0] == [];
    assert Run(b, 2, es[..1]) == Bot(LONG, 4.0, 8.0, Some(-5.0), 1, None, None, true);
  }

  /** Right after any shift, the same observation asks for no further shift, no range-break
      close and no structural close. */
  lemma QuietAfterShift(b: Bot, maxAdjustments: int, e: Event, again: Input)
    requires b.running && b.adjustments <= maxAdjustments + 1 && StopOutside(b)
    requires var c := Step(b, maxAdjustments, e); c.adjustments == b.adjustments + 1
    requires again.price == if e.Manage? then e.reading.price else e.price
    requires 0.0 <= again.breakBuffer <= 100.0
    ensures Decide(InputOf(Step(b, maxAdjustments, e), maxAdjustments, again)).action
            !in {ADJUST_UP, ADJUST_DOWN, CLOSE_RANGE_BREAK, CLOSE_STRUCT_INVALID}
  {
    var c := Step(b, maxAdjustments, e);
    StepKeeps(b, maxAdjustments, e);
    if e.Manage? {
      ShiftsRecenter(InputOf(b, maxAdjustments, e.reading));
    }
    CenteredIsQuiet(InputOf(c, maxAdjustments, again));
  }

  // ---- the trailing stop -----------------------------------------------------------------------------

  /** The number of times a run moved the stop on the card. */
  function Trails(b: Bot, maxAdjustments: int, es: seq<Event>): nat {
    if es == [] then 0
    else
      var before := Run(b, maxAdjustments, es[..|es| - 1]);
      Trails(b, maxAdjustments, es[..|es| - 1]) +
      (if Step(before, maxAdjustments, es[|es| - 1]).stopLoss == before.stopLoss then 0 else 1)
  }

  predicate Whole(x: real) {
    x.Floor as real == x
  }

  /** A multiple of `1 / scale`. */
  predicate OnGrid(x: real, scale: real) {
    Whole(x * scale)
  }

  lemma {:induction false} Pow10Adds(m: nat, n: nat)
    ensures Pow10(m + n) == Pow10(m) * Pow10(n)
  {
    if m > 0 {
      Pow10Adds(m - 1, n);
      assert Pow10(m + n) == 10.0 * Pow10(m - 1 + n);
      assert 10.0 * (Pow10(m - 1) * Pow10(n)) == (10.0 * Pow10(m - 1)) * Pow10(n);
    }
  }

  lemma ProductOfWhole(a: real, b: real)
    requires Whole(a) && Whole(b)
    ensures Whole(a * b)
  {
    assert a * b == (a.Floor * b.Floor) as real;
  }

  lemma {:induction false} Pow10Whole(n: nat)
    ensures Whole(Pow10(n))
  {
    if n > 0 {
      Pow10Whole(n - 1);
      ProductOfWhole(10.0, Pow10(n - 1));
    }
  }

  lemma Rescale(t: real, p: real, q: real)
    requires p >= 1.0
    ensures t / p * p == t && t / p * (p * q) == t * q
  {
    assert t / p * (p * q) == t / p * p * q;
  }

  /** A multiple of a coarse tick is a multiple of a finer one. */
  lemma CoarseOnFineGrid(x: real, p: real, q: real)
    requires p >= 1.0 && Whole(q)
    ensures OnGrid(RoundTo(x, p), p * q)
  {
    var t := RoundHalfAway(x * p) as real;
    var rounded := RoundTo(x, p);
    assert rounded == t / p;
    Rescale(t, p, q);
    ProductOfWhole(t, q);
    assert rounded * (p * q) == t * q;
    WholeMultiple(rounded, p * q, t * q);
  }

  lemma WholeMultiple(x: real, scale: real, multiple: real)
    requires multiple == x * scale && Whole(multiple)
    ensures OnGrid(x, scale)
  {
  }

  lemma SameGrid(x: real, p: real, q: real)
    requires p == q && OnGrid(x, p)
    ensures OnGrid(x, q)
  {
  }

  lemma RoundedIsOnGrid(x: real, places: nat, finest: nat, p: real)
    requires places <= finest && p == Pow10(places)
    ensures OnGrid(RoundTo(x, p), Pow10(finest))
  {
    var rest: nat := finest - places;
    Pow10Adds(places, rest);
    Pow10Whole(rest);
    OnFinerGrid(x, p, Pow10(rest), Pow10(finest));
  }

  lemma OnFinerGrid(x: real, p: real, q: real, fine: real)
    requires p >= 1.0 && Whole(q) && fine == p * q
    ensures OnGrid(RoundTo(x, p), fine)
  {
    CoarseOnFineGrid(x, p, q);
  }

  lemma ScaledOrder(x: real, y: real, p: real)
    requires x < y && p >= 1.0
    ensures x * p < y * p && (y - x) * p == y * p - x * p
  {
  }

  /** Different prices of a grid are at least one tick apart. */
  lemma GridGap(x: real, y: real, p: real)
    requires p >= 1.0 && OnGrid(x, p) && OnGrid(y, p) && x < y
    ensures (y - x) * p >= 1.0
  {
    ScaledOrder(x, y, p);
    var m, n := (x * p).Floor, (y * p).Floor;
    assert m as real < n as real;
    assert n - m >= 1;
  }

  /** Every change of the card stop is a trailing advance towards the price. */
  lemma StepTrails(b: Bot, maxAdjustments: int, e: Event)
    requires Step(b, maxAdjustments, e).stopLoss != b.stopLoss
    ensures e.Manage? && b.stopLoss.Some?
    ensures var c := Step(b, maxAdjustments, e);
            var i := InputOf(b, maxAdjustments, e.reading);
            && c.stopLoss == c.trailing == Some(TrailCandidate(i)) && TrailAdvances(i)
            && c.stopLoss.value > 0.0
            && (if b.direction.SHORT? then c.stopLoss.value < b.stopLoss.value
                else b.direction.LONG? && c.stopLoss.value > b.stopLoss.value)
  {
  }

  ghost predicate PreciseTo(es: seq<Event>, finest: nat) {
    forall n :: 0 <= n < |es| && es[n].Manage? ==> TrailPrecision(es[n].reading) <= finest
  }

  /** How far a stop has moved towards the price, in ticks of the grid. */
  function Advance(a: Bot, b: Bot, scale: real): real
    requires a.stopLoss.Some? && b.stopLoss.Some?
  {
    (if a.direction.SHORT? then a.stopLoss.value - b.stopLoss.value else b.stopLoss.value - a.stopLoss.value) * scale
  }

  lemma StepGains(a: Bot, maxAdjustments: int, e: Event, finest: nat, scale: real)
    requires Step(a, maxAdjustments, e).stopLoss != a.stopLoss && scale == Pow10(finest)
    requires e.Manage? ==> TrailPrecision(e.reading) <= finest
    ensures var c := Step(a, maxAdjustments, e);
            && c.stopLoss.Some? && a.stopLoss.Some? && c.stopLoss.value > 0.0 && OnGrid(c.stopLoss.value, scale)
            && Advance(a, c, scale) > 0.0 && (OnGrid(a.stopLoss.value, scale) ==> Advance(a, c, scale) >= 1.0)
  {
    StepTrails(a, maxAdjustments, e);
    var c := Step(a, maxAdjustments, e);
    var i := InputOf(a, maxAdjustments, e.reading);
    RoundedIsOnGrid(i.price * TrailFactor(i.direction), TrailPrecision(i), finest, TrailScale(i));
    SameGrid(c.stopLoss.value, Pow10(finest), scale);
    PositiveAdvance(a, c, scale);
    if OnGrid(a.stopLoss.value, scale) {
      if a.direction.SHORT? {
        GridGap(c.stopLoss.value, a.stopLoss.value, scale);
      } else {
        GridGap(a.stopLoss.value, c.stopLoss.value, scale);
      }
    }
  }

  /** The stop on the card after `n` advances. */
  ghost predicate Gained(b: Bot, c: Bot, n: nat, scale: real) {
    && b.stopLoss.Some? && c.stopLoss.Some? && c.direction == b.direction
    && (n == 0 ==> c.stopLoss == b.stopLoss)
    && (n > 0 ==> OnGrid(c.stopLoss.value, scale) && c.stopLoss.value > 0.0 && Advance(b, c, scale) > 0.0)
    && Advance(b, c, scale) >= n as real - 1.0
  }

  lemma GainedStep(b: Bot, a: Bot, n: nat, maxAdjustments: int, e: Event, finest: nat, scale: real)
    requires scale == Pow10(finest) && Gained(b, a, n, scale) && a.adjustments <= maxAdjustments + 1
    requires e.Manage? ==> TrailPrecision(e.reading) <= finest
    ensures var c := Step(a, maxAdjustments, e); Gained(b, c, if c.stopLoss == a.stopLoss then n else n + 1, scale)
  {
    var c := Step(a, maxAdjustments, e);
    StepKeeps(a, maxAdjustments, e);
    if c.stopLoss != a.stopLoss {
      StepGains(a, maxAdjustments, e, finest, scale);
      AdvancesAdd(b, a, c, scale);
      if n == 0 {
        assert Advance(b, a, scale) == 0.0;
      }
    }
  }

  /** Every advance but the first gains at least one tick: the stop only ever tightens. */
  lemma {:induction false} TrailsGainTicks(b: Bot, maxAdjustments: int, es: seq<Event>, finest: nat, scale: real)
    requires scale == Pow10(finest) && b.stopLoss.Some? && b.adjustments <= maxAdjustments + 1 && PreciseTo(es, finest)
    ensures Gained(b, Run(b, maxAdjustments, es), Trails(b, maxAdjustments, es), scale)
  {
    if es == [] {
      assert Advance(b, b, scale) == 0.0;
    } else {
      var front := es[..|es| - 1];
      assert PreciseTo(front, finest);
      TrailsGainTicks(b, maxAdjustments, front, finest, scale);
      EveryRunKeepsGeometry(b, maxAdjustments, front);
      GainedStep(b, Run(b, maxAdjustments, front), Trails(b, maxAdjustments, front),
                 maxAdjustments, es[|es| - 1], finest, scale);
    }
  }

  lemma AdvancesAdd(a: Bot, b: Bot, c: Bot, scale: real)
    requires a.stopLoss.Some? && b.stopLoss.Some? && c.stopLoss.Some? && a.direction == b.direction == c.direction
    ensures Advance(a, c, scale) == Advance(a, b, scale) + Advance(b, c, scale)
  {
  }

  lemma PositiveAdvance(a: Bot, c: Bot, scale: real)
    requires scale >= 1.0 && a.stopLoss.Some? && c.stopLoss.Some?
    requires if a.direction.SHORT? then c.stopLoss.value < a.stopLoss.value else c.stopLoss.value > a.stopLoss.value
    ensures Advance(a, c, scale) > 0.0
  {
  }

  /** Rounding moves a value by at most half a tick, also counted in a coarser tick `1 / q`. */
  lemma RoundedIsNear(x: real, p: real, q: real)
    requires p >= q >= 1.0 && x >= 0.0
    ensures RoundTo(x, p) <= x + 0.5 / q
  {
    var c, h := RoundTo(x, p), 0.5 / q;
    assert x * p >= 0.0;
    RoundedTimesScale(x, p);
    assert (c - x) * p <= 0.5;
    assert h * q == 0.5 && h > 0.0;
    if c - x > h {
      Scaled(c - x, h, p, q);
    }
  }

  lemma Scaled(z: real, h: real, p: real, q: real)
    requires z > h > 0.0 && p >= q >= 1.0
    ensures z * p > h * q
  {
    assert (z - h) * p > 0.0;
    assert h * (p - q) >= 0.0;
  }

  lemma Pow10Grows(m: nat, n: nat)
    requires m <= n
    ensures Pow10(m) <= Pow10(n)
  {
    Pow10Adds(m, n - m);
    assert Pow10(m) * (Pow10(n - m) - 1.0) >= 0.0;
  }

  /** A trailing stop is at most the rounded fraction of some price of the run. */
  lemma TrailBelowPrice(i: Input, top: real, coarsest: nat)
    requires i.direction.LONG? && 0.0 < i.price <= top && coarsest <= TrailPrecision(i)
    ensures TrailCandidate(i) <= 0.985 * top + 0.5 / Pow10(coarsest)
  {
    Pow10Grows(coarsest, TrailPrecision(i));
    RoundedIsNear(i.price * TrailFactor(i.direction), TrailScale(i), Pow10(coarsest));
  }

  /** Prices up to `top`, rounded to ticks no coarser than those of precision `coarsest`. */
  ghost predicate PricesUpTo(es: seq<Event>, top: real, coarsest: nat) {
    forall n :: 0 <= n < |es| && es[n].Manage? ==>
      es[n].reading.price <= top && coarsest <= TrailPrecision(es[n].reading)
  }

  lemma {:induction false} LongStopIsBounded(b: Bot, maxAdjustments: int, es: seq<Event>, top: real, coarsest: nat)
    requires b.direction.LONG? && b.stopLoss.Some? && b.adjustments <= maxAdjustments + 1
    requires PricesUpTo(es, top, coarsest)
    ensures var c := Run(b, maxAdjustments, es);
            c.stopLoss.Some? && (c.stopLoss == b.stopLoss || c.stopLoss.value <= 0.985 * top + 0.5 / Pow10(coarsest))
  {
    if es != [] {
      var front := es[..|es| - 1];
      var e := es[|es| - 1];
      assert PricesUpTo(front, top, coarsest);
      LongStopIsBounded(b, maxAdjustments, front, top, coarsest);
      EveryRunKeepsGeometry(b, maxAdjustments, front);
      var a := Run(b, maxAdjustments, front);
      if Step(a, maxAdjustments, e).stopLoss != a.stopLoss {
        StepTrails(a, maxAdjustments, e);
        assert es[|es| - 1].reading.price <= top;
        TrailBelowPrice(InputOf(a, maxAdjustments, e.reading), top, coarsest);
      }
    }
  }

  /** The trailing stop cannot be moved for ever, whatever the order of prices, shifts and
      precisions: a short stop moves at most once per tick between it and zero ... */
  lemma ShortTrailingTerminates(b: Bot, maxAdjustments: int, es: seq<Event>, finest: nat, scale: real)
    requires scale == Pow10(finest) && b.direction.SHORT? && b.stopLoss.Some? && b.stopLoss.value >= 0.0
    requires b.adjustments <= maxAdjustments + 1 && PreciseTo(es, finest)
    ensures Trails(b, maxAdjustments, es) as real <= 1.0 + b.stopLoss.value * scale
  {
    TrailsGainTicks(b, maxAdjustments, es, finest, scale);
    ShortBound(b, Run(b, maxAdjustments, es), Trails(b, maxAdjustments, es), scale);
  }

  /** ... and a long stop at most once per tick between it and the highest price, less the distance
      and plus half a tick for rounding. */
  lemma LongTrailingTerminates(b: Bot, maxAdjustments: int, es: seq<Event>, finest: nat, coarsest: nat,
                               scale: real, top: real, ceiling: real)
    requires scale == Pow10(finest) && ceiling == 0.985 * top + 0.5 / Pow10(coarsest)
    requires b.direction.LONG? && b.stopLoss.Some? && b.adjustments <= maxAdjustments + 1
    requires PreciseTo(es, finest) && PricesUpTo(es, top, coarsest) && Trails(b, maxAdjustments, es) > 0
    ensures Trails(b, maxAdjustments, es) as real <= 1.0 + (ceiling - b.stopLoss.value) * scale
  {
    var c, n := Run(b, maxAdjustments, es), Trails(b, maxAdjustments, es);
    assert Gained(b, c, n, scale) by {
      TrailsGainTicks(b, maxAdjustments, es, finest, scale);
    }
    assert c.stopLoss == b.stopLoss || c.stopLoss.value <= ceiling by {
      LongStopIsBounded(b, maxAdjustments, es, top, coarsest);
    }
    LongBound(b, c, n, scale, ceiling);
  }

  lemma ShortBound(b: Bot, c: Bot, n: nat, p: real)
    requires p >= 1.0 && b.direction.SHORT? && Gained(b, c, n, p) && b.stopLoss.value >= 0.0
    ensures n as real <= 1.0 + b.stopLoss.value * p
  {
    assert b.stopLoss.value * p >= 0.0;
    if n > 0 {
      assert c.stopLoss.value * p > 0.0;
      assert Advance(b, c, p) == b.stopLoss.value * p - c.stopLoss.value * p;
    }
  }

  lemma LongBound(b: Bot, c: Bot, n: nat, p: real, ceiling: real)
    requires p >= 1.0 && b.direction.LONG? && Gained(b, c, n, p) && n > 0
    requires c.stopLoss == b.stopLoss || c.stopLoss.value <= ceiling
    ensures n as real <= 1.0 + (ceiling - b.stopLoss.value) * p
  {
    assert c.stopLoss != b.stopLoss;
    assert (ceiling - c.stopLoss.value) * p >= 0.0;
    assert (ceiling - b.stopLoss.value) * p == (ceiling - c.stopLoss.value) * p + Advance(b, c, p);
  }

  lemma {:induction false} NeutralNeverTrails(b: Bot, maxAdjustments: int, es: seq<Event>)
    requires b.direction.NEUTRAL? && b.adjustments <= maxAdjustments + 1
    ensures Trails(b, maxAdjustments, es) == 0
  {
    if es != [] {
      NeutralNeverTrails(b, maxAdjustments, es[..|es| - 1]);
      EveryRunKeepsGeometry(b, maxAdjustments, es[..|es| - 1]);
      var a := Run(b, maxAdjustments, es[..|es| - 1]);
      if Step(a, maxAdjustments, es[|es| - 1]).stopLoss != a.stopLoss {
        StepTrails(a, maxAdjustments, es[|es| - 1]);
      }
    }
  }

  /** A requested advance that rounds to nothing is never stored, so the same observation asks
      for it again; any other advance is stored and not asked for again. */
  lemma AdvanceIsStoredExactly(b: Bot, maxAdjustments: int, reading: Input)
    requires b.running && Decide(InputOf(b, maxAdjustments, reading)).Trail?
    ensures var c := Step(b, maxAdjustments, Manage(reading, true));
            Decide(InputOf(c, maxAdjustments, reading)).Trail? <==>
            TrailCandidate(InputOf(b, maxAdjustments, reading)) <= 0.0
  {
  }
}
