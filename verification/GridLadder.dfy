/** The ladder of a futures grid: price levels, resting lots, and what one price move fills.

    Prices, sizes and money are exact reals.  A `Book` is everything that the fill
    loop of the simulator changes; `Fill` is the meaning of one move of the price.
 */
module GridLadder {
  import opened Common

  datatype Direction = Neutral | Long | Short

  datatype Ladder = Ladder(lower: real, step: real, levels: int, perLevel: real, maker: real, direction: Direction)

  datatype Lot = Lot(price: real, base: real, quote: real)

  datatype Side = ShortPair | LongPair | StopExit | Liquidated

  /** A closed position.  The simulator reports `gross - fee`. */
  datatype Trade = Trade(side: Side, base: real, gross: real, fee: real)

  /** `lotsOpened` and `quoteOpened` count every lot ever opened; the simulator does not need
      them, the conservation laws do. */
  datatype Book = Book(
    lots: map<int, Lot>, base: real, quote: real,
    realized: real, fees: real, funding: real,
    roundTrips: int, lotsOpened: int, quoteOpened: real, trades: seq<Trade>)

  /** One straight move of the price inside a candle with the given extremes. */
  datatype Move = Move(prev: real, next: real, high: real, low: real) {
    predicate Down() { next < prev }
    function Min(): real { if prev < next then prev else next }
    function Max(): real { if prev < next then next else prev }
  }

  ghost predicate ValidLadder(l: Ladder) {
    l.step > 0.0 && l.levels >= 2 && l.perLevel > 0.0
  }

  function Price(l: Ladder, k: int): real {
    l.lower + k as real * l.step
  }

  function LevelOf(l: Ladder, price: real): int
    requires l.step > 0.0
  {
    Truncate((price - l.lower) / l.step)
  }

  function FirstBelow(l: Ladder, m: Move): int
    requires l.step > 0.0
  {
    var lvl := LevelOf(l, m.Min());
    if lvl < 0 then 0 else lvl
  }

  function LastCrossed(l: Ladder, m: Move): int
    requires l.step > 0.0
  {
    var lvl := LevelOf(l, m.Max());
    if l.levels - 1 < lvl then l.levels - 1 else lvl
  }

  /** A touch at the extreme of the candle fills half, a penetration fills all. */
  function FillRatio(m: Move, price: real): real {
    if (m.Down() && m.next == m.low && m.next >= price) || (!m.Down() && m.next == m.high && m.next <= price)
    then 0.5 else 1.0
  }

  function Notional(l: Ladder, m: Move, price: real): real {
    l.perLevel * FillRatio(m, price)
  }

  function OpenLot(l: Ladder, b: Book, k: int, notional: real): Book
    requires Price(l, k) > 0.0
  {
    var price := Price(l, k);
    var size := notional / price;
    var fee := notional * l.maker;
    b.(lots := b.lots[k := Lot(price, size, notional)],
    base := if l.direction.Short? then b.base - size else b.base + size,
    quote := b.quote + notional,
    fees := b.fees + fee,
    realized := b.realized - fee,
    lotsOpened := b.lotsOpened + 1,
    quoteOpened := b.quoteOpened + notional)
  }

  function Gross(l: Ladder, lot: Lot, price: real): real {
    if l.direction.Short? then lot.base * (lot.price - price) else lot.base * (price - lot.price)
  }

  function FeeOn(base: real, price: real, rate: real): real {
    base * price * rate
  }

  function CloseLot(l: Ladder, b: Book, k: int, price: real): Book
    requires k in b.lots
  {
    var lot := b.lots[k];
    var gross := Gross(l, lot, price);
    var fee := FeeOn(lot.base, price, l.maker);
    b.(lots := b.lots - {k},
    base := if l.direction.Short? then b.base + lot.base else b.base - lot.base,
    quote := b.quote - lot.quote,
    fees := b.fees + fee,
    realized := b.realized + (gross - fee),
    roundTrips := b.roundTrips + 1,
    trades := b.trades + [Trade(if l.direction.Short? then ShortPair else LongPair, lot.base, gross, fee)])
  }

  /** A move either opens lots or closes them: a short grid opens on the way up, the others on the way down. */
  predicate Opens(l: Ladder, m: Move) {
    if l.direction.Short? then !m.Down() else m.Down()
  }

  /** What crossing level `k` does: one side of the ladder opens a lot at `k`,
      the other closes the lot one step behind. */
  function FillLevel(l: Ladder, b: Book, m: Move, k: int): Book {
    var price := Price(l, k);
    if price <= 0.0 then b
    else if Opens(l, m) then
      if k in b.lots then b else OpenLot(l, b, k, Notional(l, m, price))
    else
      var partner := if l.direction.Short? then k + 1 else k - 1;
      if partner in b.lots then CloseLot(l, b, partner, price) else b
  }

  /** Levels `lo + 1` to `hi`, in ascending order. */
  function FillLevels(l: Ladder, b: Book, m: Move, lo: int, hi: int): Book
    decreases hi - lo
  {
    if hi <= lo then b else FillLevel(l, FillLevels(l, b, m, lo, hi - 1), m, hi)
  }

  function Fill(l: Ladder, b: Book, m: Move): Book
    requires l.step > 0.0
  {
    if m.prev == m.next then b else FillLevels(l, b, m, FirstBelow(l, m), LastCrossed(l, m))
  }

  // ---- crossings --------------------------------------------------------------------

  /** The geometric meaning of a crossing, with no integer arithmetic in it. */
  ghost predicate Crosses(l: Ladder, m: Move, k: int) {
    1 <= k <= l.levels - 1 && m.Min() < Price(l, k) <= m.Max()
  }

  lemma LevelOfFloor(l: Ladder, p: real, k: int)
    requires l.step > 0.0 && k >= 1
    ensures k <= LevelOf(l, p) <==> Price(l, k) <= p
  {
    var x := (p - l.lower) / l.step;
    assert x * l.step == p - l.lower;
    assert k as real <= x <==> k as real * l.step <= x * l.step;
  }

  /** The integer range that the loop walks is exactly the set of crossed levels. */
  lemma CrossingsExactly(l: Ladder, m: Move, k: int)
    requires ValidLadder(l)
    ensures FirstBelow(l, m) < k <= LastCrossed(l, m) <==> Crosses(l, m, k)
  {
    if k >= 1 {
      LevelOfFloor(l, m.Min(), k);
      LevelOfFloor(l, m.Max(), k);
    }
  }

  /** The half fill can only happen on the way up, at the exact high of the candle; so only a short
      grid, which opens on the way up, ever opens half a lot. */
  lemma HalfFillOnlyAtHigh(l: Ladder, m: Move, k: int)
    requires ValidLadder(l) && m.prev != m.next && Crosses(l, m, k)
    ensures FillRatio(m, Price(l, k)) == 0.5 <==> !m.Down() && m.next == m.high && Price(l, k) == m.next
    ensures Opens(l, m) && FillRatio(m, Price(l, k)) != 1.0 ==> l.direction.Short?
  {
  }

  lemma PriceStep(l: Ladder, k: int)
    ensures Price(l, k + 1) == Price(l, k) + l.step
  {
    assert (k + 1) as real * l.step == k as real * l.step + l.step;
  }

  lemma PriceMonotone(l: Ladder, i: int, j: int)
    requires l.step > 0.0 && i < j
    ensures Price(l, i) < Price(l, j)
  {
    Scaled(i as real, j as real, l.step);
  }

  lemma Scaled(a: real, b: real, step: real)
    requires a < b && step > 0.0
    ensures a * step < b * step
  {
    var gap := (b - a) * step;
    assert gap > 0.0;
    assert b * step == a * step + gap;
  }
}
