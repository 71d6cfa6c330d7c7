/** The purged walk-forward: a grid is derived on each training window and simulated on a later
    test window, window after window.
 */
module WalkForward {
  import opened Common
  import opened GridLadder
  import opened GridRun
  import opened GridSimulator
  import Drawdown

  // ---- the derived grid --------------------------------------------------------------------------

  function Insert(x: real, s: seq<real>): seq<real> {
    if s == [] || x <= s[0] then [x] + s else [s[0]] + Insert(x, s[1..])
  }

  function Sorted(s: seq<real>): seq<real> {
    if s == [] then [] else Insert(s[0], Sorted(s[1..]))
  }

  ghost predicate Ordered(s: seq<real>) {
    forall i, j :: 0 <= i <= j < |s| ==> s[i] <= s[j]
  }

  lemma OrderedCons(x: real, s: seq<real>)
    requires Ordered(s) && (s != [] ==> x <= s[0])
    ensures Ordered([x] + s)
  {
  }

  lemma {:induction false} InsertKeepsOrder(x: real, s: seq<real>)
    requires Ordered(s)
    ensures Ordered(Insert(x, s))
    ensures Insert(x, s) != [] && Insert(x, s)[0] == if s != [] && s[0] < x then s[0] else x
  {
    if s != [] && x > s[0] {
      InsertKeepsOrder(x, s[1..]);
      OrderedCons(s[0], Insert(x, s[1..]));
    } else {
      OrderedCons(x, s);
    }
  }

  lemma {:induction false} InsertKeepsContents(x: real, s: seq<real>)
    ensures multiset(Insert(x, s)) == multiset(s) + multiset{x}
  {
    if s != [] && x > s[0] {
      InsertKeepsContents(x, s[1..]);
      assert s == [s[0]] + s[1..];
    }
  }

  lemma SameSize(a: seq<real>, b: seq<real>)
    requires multiset(a) == multiset(b)
    ensures |a| == |b|
  {
    assert |multiset(a)| == |a| && |multiset(b)| == |b|;
  }

  lemma {:induction false} SortedIsSorted(s: seq<real>)
    ensures Ordered(Sorted(s)) && multiset(Sorted(s)) == multiset(s) && |Sorted(s)| == |s|
  {
    if s != [] {
      SortedIsSorted(s[1..]);
      InsertKeepsOrder(s[0], Sorted(s[1..]));
      InsertKeepsContents(s[0], Sorted(s[1..]));
      assert s == [s[0]] + s[1..];
    }
    SameSize(Sorted(s), s);
  }

  function Percentile(sorted: seq<real>, p: nat): real
    requires sorted != []
  {
    var i := |sorted| * p / 100;
    sorted[if i < |sorted| - 1 then i else |sorted| - 1]
  }

  datatype Grid = Grid(lower: real, upper: real, levels: int)

  const MIN_STEP_PCT := 0.35
  const MIN_CLOSES := 30

  /** Five times the fees, in percent, and never less than the smallest step. */
  function StepFloor(feeBps: real): real {
    Max(MIN_STEP_PCT, feeBps / 100.0 * 5.0)
  }

  function RangePct(lower: real, upper: real): real
    requires lower + upper > 0.0
  {
    (upper - lower) / ((lower + upper) / 2.0) * 100.0
  }

  function LevelsFor(rangePct: real, floor: real): int
    requires floor > 0.0
  {
    Max(6.0, Min(500.0, rangePct / floor)).Floor
  }

  function Derive(closes: seq<real>, feeBps: real): Option<Grid> {
    if |closes| < MIN_CLOSES then None
    else
      SortedIsSorted(closes);
      var sorted := Sorted(closes);
      var lower, upper := Percentile(sorted, 10), Percentile(sorted, 90);
      if (lower + upper) / 2.0 <= 0.0 || upper <= lower then None
      else Some(Grid(lower, upper, LevelsFor(RangePct(lower, upper), StepFloor(feeBps))))
  }

  function Below(s: seq<real>, x: real): nat {
    if s == [] then 0 else (if s[0] < x then 1 else 0) + Below(s[1..], x)
  }

  function Above(s: seq<real>, x: real): nat {
    if s == [] then 0 else (if s[0] > x then 1 else 0) + Above(s[1..], x)
  }

  lemma {:induction false} CountsOfInsert(x: real, s: seq<real>, y: real)
    ensures Below(Insert(x, s), y) == Below(s, y) + if x < y then 1 else 0
    ensures Above(Insert(x, s), y) == Above(s, y) + if x > y then 1 else 0
  {
    if s != [] && x > s[0] {
      CountsOfInsert(x, s[1..], y);
    }
  }

  lemma {:induction false} CountsOfSorted(s: seq<real>, y: real)
    ensures Below(Sorted(s), y) == Below(s, y) && Above(Sorted(s), y) == Above(s, y)
  {
    if s != [] {
      CountsOfSorted(s[1..], y);
      CountsOfInsert(s[0], Sorted(s[1..]), y);
    }
  }

  lemma {:induction false} RankBounds(s: seq<real>, i: int, y: real)
    requires Ordered(s) && i < |s| && (0 <= i ==> s[i] == y) && (i < 0 ==> forall k :: 0 <= k < |s| ==> y <= s[k])
    ensures Below(s, y) <= (if i < 0 then 0 else i)
    decreases |s|
  {
    if s != [] {
      RankBounds(s[1..], if i < 0 then i else i - 1, y);
    }
  }

  lemma {:induction false} RankBoundsAbove(s: seq<real>, j: int, y: real)
    requires Ordered(s) && j < |s| && (0 <= j ==> s[j] == y)
    ensures Above(s, y) <= (if j < 0 then |s| else |s| - 1 - j)
    decreases |s|
  {
    if s != [] {
      RankBoundsAbove(s[1..], j - 1, y);
    }
  }

  /** Both bounds are closes of the window; on each side at most a tenth of the closes lies beyond the
      bound, and at least a tenth at it or beyond. */
  lemma DerivedFromCloses(closes: seq<real>, feeBps: real)
    requires Derive(closes, feeBps).Some?
    ensures var g := Derive(closes, feeBps).value;
            && g.lower in closes && g.upper in closes && g.lower < g.upper && 6 <= g.levels <= 500
            && 10 * Below(closes, g.lower) <= |closes| < 10 * (|closes| - Above(closes, g.lower))
            && 10 * Above(closes, g.upper) <= |closes| <= 10 * (|closes| - Below(closes, g.upper))
  {
    SortedIsSorted(closes);
    var sorted := Sorted(closes);
    var g := Derive(closes, feeBps).value;
    var i, j := |closes| * 10 / 100, |closes| * 90 / 100;
    assert sorted[i] == g.lower && sorted[j] == g.upper;
    assert g.lower in multiset(sorted) && g.upper in multiset(sorted);
    RankBounds(sorted, i, g.lower);
    RankBoundsAbove(sorted, j, g.upper);
    RankBoundsAbove(sorted, i, g.lower);
    RankBounds(sorted, j, g.upper);
    CountsOfSorted(closes, g.lower);
    CountsOfSorted(closes, g.upper);
  }

  /** The step of the derived grid, in percent of the middle of its range, clears the floor exactly
      when the range is at least six floors wide. */
  lemma StepClearsFloorExactly(closes: seq<real>, feeBps: real)
    requires Derive(closes, feeBps).Some?
    ensures var g := Derive(closes, feeBps).value;
            RangePct(g.lower, g.upper) / g.levels as real >= StepFloor(feeBps)
            <==> RangePct(g.lower, g.upper) >= 6.0 * StepFloor(feeBps)
  {
    var g := Derive(closes, feeBps).value;
    LevelsClear(RangePct(g.lower, g.upper), StepFloor(feeBps));
  }

  /** The grid has as many levels as the floor admits: one more would not clear it, unless there are
      500 already. */
  lemma LevelsAreMost(closes: seq<real>, feeBps: real)
    requires Derive(closes, feeBps).Some?
    ensures var g := Derive(closes, feeBps).value;
            g.levels == 500 || RangePct(g.lower, g.upper) < (g.levels + 1) as real * StepFloor(feeBps)
  {
    var g := Derive(closes, feeBps).value;
    OneLevelTooMany(RangePct(g.lower, g.upper), StepFloor(feeBps));
  }

  lemma OneLevelTooMany(range: real, floor: real)
    requires floor > 0.0
    ensures LevelsFor(range, floor) == 500 || range < (LevelsFor(range, floor) + 1) as real * floor
  {
    var x := range / floor;
    var next := (LevelsFor(range, floor) + 1) as real;
    if LevelsFor(range, floor) != 500 {
      assert x < next;
      TimesFloor(x, next, floor, range);
    }
  }

  lemma TimesFloor(x: real, next: real, floor: real, range: real)
    requires floor > 0.0 && x < next && x * floor == range
    ensures range < next * floor
  {
    var gap := (next - x) * floor;
    assert gap > 0.0;
    assert next * floor == range + gap;
  }

  lemma LevelsClear(range: real, floor: real)
    requires floor > 0.0
    ensures 6 <= LevelsFor(range, floor) <= 500
    ensures range / LevelsFor(range, floor) as real >= floor <==> range >= 6.0 * floor
  {
    var x := range / floor;
    var n := LevelsFor(range, floor) as real;
    assert x * floor == range;
    Quotient(range, n, floor);
    if x >= 6.0 {
      Scale(6.0, x, floor);
      Scale(n, x, floor);
    } else {
      ScaleStrictly(x, 6.0, floor);
    }
  }

  lemma Scale(a: real, b: real, c: real)
    requires a <= b && c >= 0.0
    ensures a * c <= b * c
  {
    assert (b - a) * c >= 0.0;
  }

  lemma ScaleStrictly(a: real, b: real, c: real)
    requires a < b && c > 0.0
    ensures a * c < b * c
  {
    assert (b - a) * c > 0.0;
  }

  lemma Quotient(a: real, n: real, c: real)
    requires n > 0.0
    ensures a / n >= c <==> a >= c * n
  {
    ProductOrder(a / n, n, c, a);
  }

  lemma ProductOrder(q: real, n: real, c: real, a: real)
    requires n > 0.0 && q * n == a
    ensures q >= c <==> a >= c * n
  {
    var d := q - c;
    assert d * n == a - c * n;
    if d >= 0.0 {
      assert d * n >= 0.0;
    } else {
      assert d * n < 0.0;
    }
  }

  // ---- the windows -------------------------------------------------------------------------------

  datatype Windows = Windows(train: nat, test: nat, purge: nat)

  function MinInt(a: int, b: int): int { if a < b then a else b }

  function MaxInt(a: int, b: int): int { if a < b then b else a }

  /** With too few candles for one window, but at least forty, the windows shrink. */
  function Shrunk(total: nat, w: Windows): Windows {
    if total < w.train + w.purge + w.test && total >= 40 then
      var test := MaxInt(10, MinInt(w.test, total / 4));
      var purge := MinInt(w.purge, MaxInt(1, test / 5));
      Windows(MaxInt(20, MinInt(w.train, (total - purge - test) / 3)), test, purge)
    else w
  }

  predicate Fits(total: nat, w: Windows, start: int) {
    start + w.train + w.purge + w.test <= total
  }

  function WindowCount(total: nat, w: Windows): nat
    requires w.test > 0
  {
    if Fits(total, w, 0) then (total - w.train - w.purge) / w.test else 0
  }

  /** Forty candles are always enough for one window. */
  lemma FortyCandlesAlwaysFit(total: nat, w: Windows)
    requires total >= 40 && w.test > 0
    ensures var e := Shrunk(total, w); e.test > 0 && Fits(total, e, 0) && WindowCount(total, e) >= 1
  {
    var e := Shrunk(total, w);
    AtLeastOne(total - e.train - e.purge, e.test);
  }

  lemma AtLeastOne(a: int, n: int)
    requires a >= n > 0
    ensures a / n >= 1
  {
  }

  function WindowStart(w: Windows, i: nat): nat {
    if i == 0 then 0 else WindowStart(w, i - 1) + w.test
  }

  lemma {:induction false} StartIsProduct(w: Windows, i: nat)
    ensures WindowStart(w, i) == i * w.test
  {
    if i > 0 {
      StartIsProduct(w, i - 1);
    }
  }

  /** The windows that fit are exactly the first `WindowCount`. */
  lemma FittingWindows(total: nat, w: Windows, i: nat)
    requires w.test > 0
    ensures Fits(total, w, WindowStart(w, i)) <==> i < WindowCount(total, w)
  {
    StartIsProduct(w, i);
    var room := total - w.train - w.purge;
    if Fits(total, w, 0) {
      DivisionBound(room, w.test, i + 1);
      assert (i + 1) * w.test == i * w.test + w.test;
    } else {
      assert i * w.test >= 0;
    }
  }

  lemma DivisionBound(a: int, n: int, i: int)
    requires n > 0
    ensures i * n <= a <==> i <= a / n
  {
    RemainderBound(a / n, a % n, n, i);
  }

  lemma RemainderBound(q: int, r: int, n: int, i: int)
    requires 0 <= r < n
    ensures i * n <= q * n + r <==> i <= q
  {
    if i <= q {
      assert (q - i) * n >= 0;
    } else {
      assert (i - q - 1) * n >= 0;
    }
  }

  function TestStart(w: Windows, i: nat): nat {
    WindowStart(w, i) + w.train + w.purge
  }

  /** Test windows follow one another without gap or overlap, each starts `purge` candles after its
      own training window, and less than one test window of candles is left over at the end. */
  lemma WindowsTile(total: nat, w: Windows, i: nat)
    requires w.test > 0 && i < WindowCount(total, w)
    ensures TestStart(w, i) + w.test == TestStart(w, i + 1) <= total
    ensures TestStart(w, i) == (WindowStart(w, i) + w.train) + w.purge
    ensures total < TestStart(w, WindowCount(total, w)) + w.test
  {
    FittingWindows(total, w, i);
    FittingWindows(total, w, WindowCount(total, w));
  }

  // ---- the folds -----------------------------------------------------------------------------------

  datatype Setup = Setup(
    maker: real, taker: real, slippage: real, funding8h: real, barHours: real,
    investment: real, stopPct: Option<real>, stopPrice: Option<real>)

  datatype Fold = Fold(index: nat, testStart: nat, testEnd: nat, report: Report)

  function Closes(candles: seq<Candle>): seq<real> {
    seq(|candles|, i requires 0 <= i < |candles| => candles[i].close)
  }

  function FeeBps(s: Setup): real {
    (s.maker + s.slippage) * 10000.0
  }

  /** The grid of the window at `start`, from its training candles alone. */
  function Trained(s: Setup, candles: seq<Candle>, w: Windows, start: nat): Option<Grid>
    requires Fits(|candles|, w, start)
  {
    Derive(Closes(candles[start..start + w.train]), FeeBps(s))
  }

  function Tested(candles: seq<Candle>, w: Windows, start: nat): seq<Candle>
    requires Fits(|candles|, w, start)
  {
    candles[start + w.train + w.purge..start + w.train + w.purge + w.test]
  }

  function ParamsOf(s: Setup, g: Grid): Params {
    Params(g.lower, g.upper, g.levels, s.investment, 1.0, Neutral, s.stopPct, s.stopPrice,
           s.maker, s.taker, s.slippage, s.funding8h, s.barHours)
  }

  /** A window makes a fold when its grid can be derived and simulated. */
  predicate Folds(s: Setup, candles: seq<Candle>, w: Windows, start: nat) {
    Fits(|candles|, w, start) && Trained(s, candles, w, start).Some? && s.investment > 0.0
  }

  /** The positions among the first `n` windows that make a fold, in order. */
  function Kept(s: Setup, candles: seq<Candle>, w: Windows, n: nat): seq<nat> {
    if n == 0 then []
    else Kept(s, candles, w, n - 1) + if Folds(s, candles, w, WindowStart(w, n - 1)) then [n - 1] else []
  }

  /** The report of the training grid simulated over the test candles. */
  ghost predicate Reports(s: Setup, candles: seq<Candle>, w: Windows, start: nat, report: Report) {
    && Folds(s, candles, w, start)
    && var p, test := ParamsOf(s, Trained(s, candles, w, start).value), Tested(candles, w, start);
    && Accepts(p, test)
    && Simulation(p, test).equity != []
    && report == ReportOf(Simulation(p, test), report.maxDrawdown)
    && Drawdown.IsWorstFall(report.equity, report.maxDrawdown)
  }

  ghost predicate IsFold(s: Setup, candles: seq<Candle>, w: Windows, i: nat, f: Fold) {
    && f.index == i + 1 && f.testStart == TestStart(w, i) && f.testEnd == TestStart(w, i + 1)
    && Reports(s, candles, w, WindowStart(w, i), f.report)
  }

  method TryFold(s: Setup, candles: seq<Candle>, w: Windows, start: nat) returns (report: Option<Report>)
    requires w.test > 0 && Fits(|candles|, w, start)
    ensures if report.Some? then Reports(s, candles, w, start, report.value) else !Folds(s, candles, w, start)
  {
    report := None;
    var train := candles[start..start + w.train];
    var test := candles[start + w.train + w.purge..start + w.train + w.purge + w.test];
    var grid := Derive(Closes(train), FeeBps(s));
    if grid.Some? {
      DerivedFromCloses(Closes(train), FeeBps(s));
      assert Trained(s, candles, w, start) == grid && Tested(candles, w, start) == test;
      var outcome := Simulate(ParamsOf(s, grid.value), test);
      if outcome.Simulated? {
        report := Some(outcome.report);
      }
    }
  }

  /** The folds of the first `n` windows. */
  ghost predicate AreFolds(s: Setup, candles: seq<Candle>, w: Windows, folds: seq<Fold>, n: nat) {
    var kept := Kept(s, candles, w, n);
    |folds| == |kept| && forall k :: 0 <= k < |folds| ==> IsFold(s, candles, w, kept[k], folds[k])
  }

  /** The fold of the window at `start`, counted from one. */
  function FoldOf(w: Windows, index: nat, start: nat, report: Report): Fold {
    Fold(index + 1, start + w.train + w.purge, start + w.train + w.purge + w.test, report)
  }

  lemma NewFold(s: Setup, candles: seq<Candle>, w: Windows, n: nat, start: nat, report: Report)
    requires start == WindowStart(w, n) && Reports(s, candles, w, start, report)
    ensures IsFold(s, candles, w, n, FoldOf(w, n, start, report))
  {
  }

  lemma AppendFold(s: Setup, candles: seq<Candle>, w: Windows, folds: seq<Fold>,
                   n: nat, start: nat, report: Option<Report>)
    requires AreFolds(s, candles, w, folds, n) && start == WindowStart(w, n)
    requires if report.Some? then Reports(s, candles, w, start, report.value) else !Folds(s, candles, w, start)
    ensures AreFolds(s, candles, w, if report.None? then folds else folds + [FoldOf(w, n, start, report.value)], n + 1)
  {
    var kept, next := Kept(s, candles, w, n), Kept(s, candles, w, n + 1);
    if report.Some? {
      assert next == kept + [n];
      NewFold(s, candles, w, n, start, report.value);
    } else {
      assert next == kept;
    }
  }

  method WalkForwardFolds(s: Setup, candles: seq<Candle>, w: Windows) returns (folds: seq<Fold>)
    requires w.test > 0
    ensures var e := Shrunk(|candles|, w);
            e.test > 0 && AreFolds(s, candles, e, folds, WindowCount(|candles|, e))
  {
    var e := Shrunk(|candles|, w);
    folds := [];
    var start, index := 0, 0;
    FittingWindows(|candles|, e, 0);
    while start + e.train + e.purge + e.test <= |candles|
      invariant 0 <= index <= WindowCount(|candles|, e) && start == WindowStart(e, index)
      invariant AreFolds(s, candles, e, folds, index)
      decreases |candles| - start
    {
      FittingWindows(|candles|, e, index);
      ghost var was := folds;
      var report := TryFold(s, candles, e, start);
      if report.Some? {
        folds := folds + [FoldOf(e, index, start, report.value)];
      }
      AppendFold(s, candles, e, was, index, start, report);
      start := start + e.test;
      index := index + 1;
    }
    FittingWindows(|candles|, e, index);
  }

  /** A neutral, unlevered grid. */
  function Plainly(s: Setup, g: Grid): Params {
    Params(g.lower, g.upper, g.levels, s.investment, 1.0, Neutral, s.stopPct, s.stopPrice,
           s.maker, s.taker, s.slippage, s.funding8h, s.barHours)
  }

  /** The report is that of the grid derived from `train`, simulated over `test`. */
  ghost predicate IsSimulation(s: Setup, train: seq<Candle>, test: seq<Candle>, report: Report) {
    var g := Derive(Closes(train), (s.maker + s.slippage) * 10000.0);
    && g.Some? && Accepts(Plainly(s, g.value), test) && Simulation(Plainly(s, g.value), test).equity != []
    && report == ReportOf(Simulation(Plainly(s, g.value), test), report.maxDrawdown)
    && Drawdown.IsWorstFall(report.equity, report.maxDrawdown)
  }

  lemma ReportsPlainly(s: Setup, candles: seq<Candle>, w: Windows, start: nat, report: Report)
    requires Reports(s, candles, w, start, report)
    ensures var first := start + w.train + w.purge;
            first + w.test <= |candles|
            && IsSimulation(s, candles[start..start + w.train], candles[first..first + w.test], report)
  {
  }

  /** A reported fold is the simulation of exactly the candles of its label, on the grid derived from
      the training candles that end one purge before them. */
  lemma FoldIsSimulation(s: Setup, candles: seq<Candle>, w: Windows, i: nat, f: Fold)
    requires IsFold(s, candles, w, i, f)
    ensures var start := f.testStart - w.purge - w.train;
            && f.index == i + 1 && start == i * w.test && f.testEnd == f.testStart + w.test <= |candles|
            && IsSimulation(s, candles[start..start + w.train], candles[f.testStart..f.testEnd], f.report)
  {
    StartIsProduct(w, i);
    ReportsPlainly(s, candles, w, WindowStart(w, i), f.report);
  }

  /** Only the training candles and the candles of its label decide a fold: whatever the others are,
      those in the purge between the two included, it is reported all the same. */
  lemma FoldReadsOnly(s: Setup, a: seq<Candle>, b: seq<Candle>, w: Windows, i: nat, f: Fold)
    requires IsFold(s, a, w, i, f) && |a| == |b|
    requires forall k :: i * w.test <= k < i * w.test + w.train && k < |a| ==> a[k] == b[k]
    requires forall k :: f.testStart <= k < f.testEnd && k < |a| ==> a[k] == b[k]
    ensures IsFold(s, b, w, i, f)
  {
    StartIsProduct(w, i);
    var start := WindowStart(w, i);
    assert a[start..start + w.train] == b[start..start + w.train];
    assert a[f.testStart..f.testEnd] == b[f.testStart..f.testEnd];
    assert Tested(a, w, start) == Tested(b, w, start);
  }

  /** A window whose training ends by `m` derives the same grid whatever the candles from `m` on
      are; a fold whose test also ends by `m` has the same reports. */
  lemma NoPeeking(s: Setup, a: seq<Candle>, b: seq<Candle>, w: Windows, m: nat, start: nat)
    requires |a| == |b| && m <= |a| && a[..m] == b[..m] && Fits(|a|, w, start) && start + w.train <= m
    ensures Trained(s, a, w, start) == Trained(s, b, w, start)
    ensures start + w.train + w.purge + w.test <= m ==>
              forall r :: Reports(s, a, w, start, r) <==> Reports(s, b, w, start, r)
  {
    SameSlice(a, b, m, start, start + w.train);
    if start + w.train + w.purge + w.test <= m {
      SameSlice(a, b, m, start + w.train + w.purge, start + w.train + w.purge + w.test);
      assert Tested(a, w, start) == Tested(b, w, start);
    }
  }

  /** Over a whole walk, later candles cannot decide which of the first `n` windows are kept. */
  lemma {:induction false} NeverPeeks(s: Setup, a: seq<Candle>, b: seq<Candle>, w: Windows, m: nat, n: nat)
    requires w.test > 0 && |a| == |b| && m <= |a| && a[..m] == b[..m] && n <= WindowCount(|a|, w)
    requires n > 0 ==> WindowStart(w, n - 1) + w.train <= m
    ensures Kept(s, a, w, n) == Kept(s, b, w, n)
  {
    if n > 0 {
      NeverPeeks(s, a, b, w, m, n - 1);
      FittingWindows(|a|, w, n - 1);
      NoPeeking(s, a, b, w, m, WindowStart(w, n - 1));
    }
  }

  lemma SameSlice(a: seq<Candle>, b: seq<Candle>, m: nat, i: nat, j: nat)
    requires m <= |a| && m <= |b| && a[..m] == b[..m] && i <= j <= m
    ensures a[i..j] == b[i..j]
  {
    forall k | i <= k < j ensures a[k] == b[k] {
      assert a[k] == a[..m][k] && b[k] == b[..m][k];
    }
  }

  /** Training windows shorter than thirty candles never make a fold, however many candles there are. */
  lemma {:induction false} ShortTrainingKeepsNothing(s: Setup, candles: seq<Candle>, w: Windows, n: nat)
    requires w.train < MIN_CLOSES
    ensures Kept(s, candles, w, n) == []
  {
    if n > 0 {
      ShortTrainingKeepsNothing(s, candles, w, n - 1);
      var start := WindowStart(w, n - 1);
      if Fits(|candles|, w, start) {
        assert |Closes(candles[start..start + w.train])| < MIN_CLOSES;
      }
    }
  }

  /** Shrunken windows can still fold exactly when their training keeps thirty candles ... */
  lemma ShrunkTrainingFoldsExactly(total: nat, w: Windows)
    requires total >= 40 && total < w.train + w.purge + w.test
    ensures var e := Shrunk(total, w);
            e.train >= MIN_CLOSES <==> w.train >= MIN_CLOSES && total >= e.purge + e.test + 3 * MIN_CLOSES
  {
  }

  /** ... which any windows do from 127 candles on, if the given training has thirty at all ... */
  lemma EnoughCandlesFold(total: nat, w: Windows)
    requires total >= 127 && w.train >= MIN_CLOSES
    ensures Shrunk(total, w).train >= MIN_CLOSES
  {
  }

  const DEFAULT_WINDOWS := Windows(240, 60, 6)

  /** ... and the default windows exactly from there on. */
  lemma DefaultWindowsFoldExactly(total: nat)
    ensures var e := Shrunk(total, DEFAULT_WINDOWS);
            Fits(total, e, 0) && e.train >= MIN_CLOSES <==> total >= 127
  {
  }

  /** The default windows, shrunk to 40, 127 and 200 candles. */
  lemma ShrunkDefaults()
    ensures Shrunk(39, DEFAULT_WINDOWS) == DEFAULT_WINDOWS && Shrunk(306, DEFAULT_WINDOWS) == DEFAULT_WINDOWS
    ensures Shrunk(40, DEFAULT_WINDOWS) == Windows(20, 10, 2)
    ensures Shrunk(127, DEFAULT_WINDOWS) == Windows(30, 31, 6)
    ensures Shrunk(200, DEFAULT_WINDOWS) == Windows(48, 50, 6)
  {
  }

  /** The grid that is to be deployed is judged on the candles after the first training window. */
  function CandidateStart(total: nat, w: Windows): nat {
    if total > w.train + w.purge then w.train + w.purge else 0
  }

  /** With forty candles or more the candidate is always judged out of sample, on some candles. */
  lemma CandidateIsOutOfSample(total: nat, w: Windows)
    requires total >= 40 && w.test > 0
    ensures var e := Shrunk(total, w); e.train + e.purge == CandidateStart(total, e) < total
  {
    FortyCandlesAlwaysFit(total, w);
  }

  // ---- folds that cannot be liquidated ----------------------------------------------------------------

  /** `share` is the width over the middle, `load` the maker fee times the number of levels. */
  lemma WideEnough(lower: real, upper: real, share: real, load: real)
    requires 0.0 <= lower < upper && load >= 0.0
    requires share * ((lower + upper) / 2.0) == upper - lower && share >= 5.0 * load
    ensures load <= 0.4 && upper - lower >= 2.0 * load * upper
  {
    var mid := (lower + upper) / 2.0;
    if share > 2.0 {
      ScaleStrictly(2.0, share, mid);
      assert false;
    }
    Scale(5.0 * load, share, mid);
    Scale(upper / 2.0, mid, 5.0 * load);
    Scale(0.0, upper, load);
    assert 5.0 * load * (upper / 2.0) == 2.0 * load * upper + load * upper / 2.0;
  }

  lemma DerivedStepPaysFees(lower: real, upper: real, levels: real, maker: real, floor: real)
    requires 0.0 <= lower < upper && levels > 0.0 && floor >= 500.0 * maker
    requires RangePct(lower, upper) / levels >= floor
    ensures (upper - lower) / levels >= 2.0 * maker * upper
    ensures maker * levels <= 0.4
  {
    if maker < 0.0 {
      Rebate(upper - lower, levels, maker, upper);
      return;
    }
    var share := (upper - lower) / ((lower + upper) / 2.0);
    Quotient(share * 100.0, levels, floor);
    Scale(500.0 * maker, floor, levels);
    assert 500.0 * maker * levels == 500.0 * (maker * levels);
    Scale(0.0, maker, levels);
    WideEnough(lower, upper, share, maker * levels);
    Quotient(upper - lower, levels, 2.0 * maker * upper);
    assert 2.0 * (maker * levels) * upper == levels * (2.0 * maker * upper);
  }

  lemma Rebate(width: real, levels: real, maker: real, upper: real)
    requires width > 0.0 && levels > 0.0 && maker < 0.0 && upper > 0.0
    ensures width / levels >= 2.0 * maker * upper && maker * levels <= 0.0
  {
    assert width / levels >= 0.0;
    assert 2.0 * maker * upper <= 0.0;
  }

  lemma CoversFees(s: Setup, g: Grid)
    requires 0.0 < g.lower < g.upper && g.levels >= 6 && s.slippage >= 0.0 && s.funding8h == 0.0
    requires RangePct(g.lower, g.upper) / g.levels as real >= StepFloor(FeeBps(s))
    ensures FeesCovered(ParamsOf(s, g))
  {
    FloorCoversMaker(s);
    DerivedStepPaysFees(g.lower, g.upper, g.levels as real, s.maker, StepFloor(FeeBps(s)));
    OneLevelLess(s.maker, g.levels);
  }

  /** A derived grid on a range of at least six floors, without funding, pays its own fees. */
  lemma WideGridCoversFees(s: Setup, closes: seq<real>)
    requires s.slippage >= 0.0 && s.funding8h == 0.0
    requires forall x <- closes :: x > 0.0
    requires Derive(closes, FeeBps(s)).Some?
    requires var g := Derive(closes, FeeBps(s)).value; RangePct(g.lower, g.upper) >= 6.0 * StepFloor(FeeBps(s))
    ensures var p := ParamsOf(s, Derive(closes, FeeBps(s)).value); p.levels >= 2 && FeesCovered(p)
  {
    DerivedFromCloses(closes, FeeBps(s));
    StepClearsFloorExactly(closes, FeeBps(s));
    CoversFees(s, Derive(closes, FeeBps(s)).value);
  }

  lemma FloorCoversMaker(s: Setup)
    requires s.slippage >= 0.0
    ensures StepFloor(FeeBps(s)) >= 500.0 * s.maker && StepFloor(FeeBps(s)) > 0.0
  {
  }

  lemma OneLevelLess(maker: real, levels: int)
    requires levels >= 6 && maker * levels as real <= 0.4
    ensures maker * (levels - 1) as real <= 1.0
  {
    assert maker * (levels - 1) as real == maker * levels as real - maker;
    if maker < 0.0 {
      assert maker * (levels - 1) as real <= 0.0;
    }
  }

  /** A fold on such a range, on positive prices, never ends in liquidation. */
  lemma WideFoldsAreNeverLiquidated(s: Setup, candles: seq<Candle>, w: Windows, start: nat, report: Report)
    requires s.slippage >= 0.0 && s.funding8h == 0.0
    requires forall i :: 0 <= i < |candles| ==> PositivePrices(candles[i])
    requires Reports(s, candles, w, start, report)
    requires var g := Trained(s, candles, w, start).value;
             g.lower + g.upper > 0.0 && RangePct(g.lower, g.upper) >= 6.0 * StepFloor(FeeBps(s))
    ensures !report.end.Liquidation?
  {
    WideGridCoversFees(s, Closes(candles[start..start + w.train]));
    var p, test := ParamsOf(s, Trained(s, candles, w, start).value), Tested(candles, w, start);
    NeverLiquidated(p, test, |test|);
    assert test[..|test|] == test;
  }
}
