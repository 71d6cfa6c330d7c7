/** The fleet storm detector: a map with one timestamp per symbol, pruned on every trigger,
    that has to agree with the full history of triggers.
 */
module Storm {

  /** Five minutes, in nanoseconds. */
  const WINDOW := 300_000_000_000
  const DURATION := 300_000_000_000
  const MIN_SYMBOLS := 3

  datatype Deadline = Never | Until(time: int)

  // ---- the history ------------------------------------------------------------------------------

  datatype Trigger = Trigger(symbol: string, at: int)

  ghost predicate Chronological(log: seq<Trigger>) {
    forall i, j :: 0 <= i <= j < |log| ==> log[i].at <= log[j].at
  }

  /** No trigger is later than `t`. */
  ghost predicate Before(log: seq<Trigger>, t: int) {
    forall i :: 0 <= i < |log| ==> log[i].at <= t
  }

  /** The distinct symbols that triggered within the window that ends at `t`. */
  ghost function InWindow(log: seq<Trigger>, t: int): set<string> {
    set k | 0 <= k < |log| && t - log[k].at <= WINDOW :: log[k].symbol
  }

  /** Trigger `i` saw enough distinct symbols in its own window. */
  ghost predicate Arms(log: seq<Trigger>, i: int)
    requires 0 <= i < |log|
  {
    |InWindow(log[..i + 1], log[i].at)| >= MIN_SYMBOLS
  }

  ghost predicate Stormy(log: seq<Trigger>, t: int) {
    exists i :: 0 <= i < |log| && Arms(log, i) && t < log[i].at + DURATION
  }

  lemma Subset(a: set<string>, b: set<string>)
    requires a <= b
    ensures |a| <= |b|
  {
    assert b == a + (b - a);
  }

  /** The window only empties as time passes. */
  lemma WindowShrinks(log: seq<Trigger>, s: int, t: int)
    requires s <= t
    ensures InWindow(log, t) <= InWindow(log, s)
  {
  }

  /** Arming is settled by the triggers up to it: later ones change nothing. */
  lemma ArmingIsFinal(log: seq<Trigger>, x: Trigger, i: int)
    requires 0 <= i < |log|
    ensures Arms(log + [x], i) <==> Arms(log, i)
  {
    assert (log + [x])[..i + 1] == log[..i + 1];
  }

  /** A storm at `t` means at least three distinct symbols triggered less than window plus
      duration ago. */
  lemma StormNeedsDistinctSymbols(log: seq<Trigger>, t: int)
    requires Stormy(log, t)
    ensures |InWindow(log, t - DURATION)| >= MIN_SYMBOLS
  {
    var i :| 0 <= i < |log| && Arms(log, i) && t < log[i].at + DURATION;
    var seen := InWindow(log[..i + 1], log[i].at);
    forall s | s in seen ensures s in InWindow(log, t - DURATION) {
      var k :| 0 <= k < |log[..i + 1]| && log[i].at - log[..i + 1][k].at <= WINDOW && log[..i + 1][k].symbol == s;
      assert log[k].symbol == s && t - DURATION - log[k].at <= WINDOW;
    }
    Subset(seen, InWindow(log, t - DURATION));
  }

  /** While three symbols are inside the window a storm is on, save at the single instant when
      the latest trigger is exactly one duration old. */
  lemma CrowdedWindowIsStormy(log: seq<Trigger>, t: int)
    requires Chronological(log) && Before(log, t) && |InWindow(log, t)| >= MIN_SYMBOLS
    ensures log != [] && (Stormy(log, t) <==> t < log[|log| - 1].at + DURATION)
  {
    if log == [] {
      assert false;
    } else {
      var last := |log| - 1;
      WindowShrinks(log, log[last].at, t);
      Subset(InWindow(log, t), InWindow(log, log[last].at));
      assert log[..last + 1] == log;
      assert Arms(log, last);
    }
  }

  /** That instant: three symbols at once, read one duration later. */
  lemma CrowdedButCalm(a: string, b: string, c: string)
    requires a != b && b != c && a != c
    ensures var log := [Trigger(a, 0), Trigger(b, 0), Trigger(c, 0)];
            |InWindow(log, DURATION)| == MIN_SYMBOLS && !Stormy(log, DURATION)
  {
    var log := [Trigger(a, 0), Trigger(b, 0), Trigger(c, 0)];
    var seen := InWindow(log, DURATION);
    assert log[0].symbol in seen && log[1].symbol in seen && log[2].symbol in seen;
    assert seen == {a, b, c};
    CrowdedWindowIsStormy(log, DURATION);
  }

  /** One symbol, or two, can never raise a storm, however often they trigger. */
  lemma FewSymbolsNeverStorm(log: seq<Trigger>, symbols: set<string>, t: int)
    requires |symbols| < MIN_SYMBOLS && forall i :: 0 <= i < |log| ==> log[i].symbol in symbols
    ensures !Stormy(log, t)
  {
    if Stormy(log, t) {
      StormNeedsDistinctSymbols(log, t);
      Subset(InWindow(log, t - DURATION), symbols);
    }
  }

  /** The map holds the latest time of exactly the symbols in the window of the last trigger. */
  ghost predicate Agrees(log: seq<Trigger>, triggers: map<string, int>) {
    && triggers.Keys == (if log == [] then {} else InWindow(log, log[|log| - 1].at))
    && (forall s <- triggers.Keys :: Trigger(s, triggers[s]) in log)
    && forall i :: 0 <= i < |log| && log[i].symbol in triggers ==> log[i].at <= triggers[log[i].symbol]
  }

  /** The deadline is one duration after the latest trigger that armed. */
  ghost predicate DeadlineAgrees(log: seq<Trigger>, deadline: Deadline) {
    match deadline
    case Never => forall i :: 0 <= i < |log| ==> !Arms(log, i)
    case Until(time) =>
      && (exists i :: 0 <= i < |log| && Arms(log, i) && time == log[i].at + DURATION)
      && forall i :: 0 <= i < |log| && Arms(log, i) ==> log[i].at + DURATION <= time
  }

  /** Every symbol is examined once; those still pending are not yet deleted. */
  function Pruned(marked: map<string, int>, pending: set<string>, now: int): map<string, int> {
    map s | s in marked && (s in pending || now - marked[s] <= WINDOW) :: marked[s]
  }

  lemma PruneStep(marked: map<string, int>, pending: set<string>, s: string, now: int)
    requires s in pending && pending <= marked.Keys
    ensures var was, next := Pruned(marked, pending, now), Pruned(marked, pending - {s}, now);
            && s in was && was[s] == marked[s]
            && next == (if now - marked[s] > WINDOW then was - {s} else was)
            && |next.Keys - (pending - {s})| == |was.Keys - pending| + if now - marked[s] > WINDOW then 0 else 1
  {
    var was, next := Pruned(marked, pending, now), Pruned(marked, pending - {s}, now);
    if now - marked[s] > WINDOW {
      assert next.Keys - (pending - {s}) == was.Keys - pending;
    } else {
      assert next.Keys - (pending - {s}) == (was.Keys - pending) + {s};
    }
  }

  /** A new trigger arms exactly when its own window holds enough symbols. */
  lemma NewestArms(log: seq<Trigger>, x: Trigger)
    ensures Arms(log + [x], |log|) <==> |InWindow(log + [x], x.at)| >= MIN_SYMBOLS
  {
    assert (log + [x])[..|log| + 1] == log + [x];
  }

  lemma ExtendedDeadline(log: seq<Trigger>, deadline: Deadline, x: Trigger)
    requires DeadlineAgrees(log, deadline) && Before(log, x.at)
    ensures DeadlineAgrees(log + [x], if Arms(log + [x], |log|) then Until(x.at + DURATION) else deadline)
  {
    var longer := log + [x];
    if Arms(longer, |log|) {
      NewDeadline(log, x);
    } else {
      forall k | 0 <= k < |longer| ensures Arms(longer, k) <==> k < |log| && Arms(log, k) {
        if k < |log| {
          ArmingIsFinal(log, x, k);
        }
      }
      KeptDeadline(log, deadline, longer);
    }
  }

  lemma NewDeadline(log: seq<Trigger>, x: Trigger)
    requires Before(log, x.at) && Arms(log + [x], |log|)
    ensures DeadlineAgrees(log + [x], Until(x.at + DURATION))
  {
    assert (log + [x])[|log|] == x;
  }

  lemma KeptDeadline(log: seq<Trigger>, deadline: Deadline, longer: seq<Trigger>)
    requires DeadlineAgrees(log, deadline) && log <= longer
    requires forall k :: 0 <= k < |longer| ==> (Arms(longer, k) <==> k < |log| && Arms(log, k))
    ensures DeadlineAgrees(longer, deadline)
  {
    if deadline.Until? {
      var i :| 0 <= i < |log| && Arms(log, i) && deadline.time == log[i].at + DURATION;
      assert longer[i] == log[i] && Arms(longer, i);
    }
  }

  /** Deleting what left the window loses nothing that a later window needs. */
  lemma PrunedMapAgrees(log: seq<Trigger>, triggers: map<string, int>,
                        symbol: string, now: int, pruned: map<string, int>)
    requires Agrees(log, triggers) && Chronological(log) && Before(log, now)
    requires pruned == Pruned(triggers[symbol := now], {}, now)
    ensures Agrees(log + [Trigger(symbol, now)], pruned)
  {
    PrunedKeys(log, triggers, symbol, now);
    PrunedTimes(log, triggers, symbol, now);
    PrunedLatest(log, triggers, symbol, now);
  }

  lemma PrunedKeys(log: seq<Trigger>, triggers: map<string, int>, symbol: string, now: int)
    requires Agrees(log, triggers) && Before(log, now)
    ensures Pruned(triggers[symbol := now], {}, now).Keys == InWindow(log + [Trigger(symbol, now)], now)
  {
    var pruned, next := Pruned(triggers[symbol := now], {}, now), log + [Trigger(symbol, now)];
    forall s ensures s in pruned <==> s in InWindow(next, now) {
      if s == symbol {
        assert next[|log|].symbol == s;
      } else {
        SurvivorsAreInWindow(log, triggers, symbol, now, s);
      }
    }
  }

  lemma SurvivorsAreInWindow(log: seq<Trigger>, triggers: map<string, int>, symbol: string, now: int, s: string)
    requires Agrees(log, triggers) && Before(log, now) && s != symbol
    ensures s in triggers && now - triggers[s] <= WINDOW <==> s in InWindow(log + [Trigger(symbol, now)], now)
  {
    var next := log + [Trigger(symbol, now)];
    if s in triggers && now - triggers[s] <= WINDOW {
      assert Trigger(s, triggers[s]) in log;
      var k :| 0 <= k < |log| && log[k] == Trigger(s, triggers[s]);
      assert next[k] == log[k];
    }
    if s in InWindow(next, now) {
      var k :| 0 <= k < |next| && now - next[k].at <= WINDOW && next[k].symbol == s;
      assert log[k] == next[k];
      assert s in InWindow(log, log[|log| - 1].at);
    }
  }

  lemma PrunedTimes(log: seq<Trigger>, triggers: map<string, int>, symbol: string, now: int)
    requires Agrees(log, triggers)
    ensures var pruned := Pruned(triggers[symbol := now], {}, now);
            forall s <- pruned.Keys :: Trigger(s, pruned[s]) in log + [Trigger(symbol, now)]
  {
    var pruned, next := Pruned(triggers[symbol := now], {}, now), log + [Trigger(symbol, now)];
    forall s <- pruned.Keys ensures Trigger(s, pruned[s]) in next {
      if s == symbol {
        assert next[|log|] == Trigger(s, pruned[s]);
      } else {
        assert Trigger(s, triggers[s]) in log;
      }
    }
  }

  lemma PrunedLatest(log: seq<Trigger>, triggers: map<string, int>, symbol: string, now: int)
    requires Agrees(log, triggers) && Before(log, now)
    ensures var pruned, next := Pruned(triggers[symbol := now], {}, now), log + [Trigger(symbol, now)];
            forall i :: 0 <= i < |next| && next[i].symbol in pruned ==> next[i].at <= pruned[next[i].symbol]
  {
  }

  /** At any later time the map still holds every symbol of the window, with its latest time. */
  lemma MapCountsWindow(log: seq<Trigger>, triggers: map<string, int>, t: int)
    requires Agrees(log, triggers) && Before(log, t)
    ensures InWindow(log, t) == set s | s in triggers && t - triggers[s] <= WINDOW
  {
    forall s ensures s in InWindow(log, t) <==> s in triggers && t - triggers[s] <= WINDOW {
      if s in InWindow(log, t) {
        var k :| 0 <= k < |log| && t - log[k].at <= WINDOW && log[k].symbol == s;
        assert s in InWindow(log, log[|log| - 1].at);
      }
      if s in triggers && t - triggers[s] <= WINDOW {
        assert Trigger(s, triggers[s]) in log;
        var k :| 0 <= k < |log| && log[k] == Trigger(s, triggers[s]);
      }
    }
  }

  ghost predicate Consistent(log: seq<Trigger>, triggers: map<string, int>, deadline: Deadline) {
    Chronological(log) && Agrees(log, triggers) && DeadlineAgrees(log, deadline)
  }

  /** One trigger keeps map, deadline and history consistent. */
  lemma NotedAgrees(log: seq<Trigger>, triggers: map<string, int>, deadline: Deadline,
                    symbol: string, now: int, pruned: map<string, int>, next: Deadline)
    requires Consistent(log, triggers, deadline) && Before(log, now)
    requires pruned == Pruned(triggers[symbol := now], {}, now)
    requires next == if |pruned.Keys| >= MIN_SYMBOLS then Until(now + DURATION) else deadline
    ensures Consistent(log + [Trigger(symbol, now)], pruned, next)
  {
    PrunedMapAgrees(log, triggers, symbol, now, pruned);
    ExtendedDeadline(log, deadline, Trigger(symbol, now));
    NewestArms(log, Trigger(symbol, now));
  }

  function Named(symbols: seq<string>): set<string> {
    set s | s in symbols && s != ""
  }

  lemma NamedStep(symbols: seq<string>, i: nat)
    requires i < |symbols|
    ensures Named(symbols[..i + 1]) == Named(symbols[..i]) + if symbols[i] != "" then {symbols[i]} else {}
  {
    assert symbols[..i + 1] == symbols[..i] + [symbols[i]];
  }

  // ---- the detector -----------------------------------------------------------------------------

  class Detector {
    var triggers: map<string, int>
    var deadline: Deadline
    var fleet: set<string>
    /** Every trigger noted so far. */
    ghost var log: seq<Trigger>

    ghost predicate Valid()
      reads this
    {
      Consistent(log, triggers, deadline)
    }

    constructor ()
      ensures Valid() && log == [] && fleet == {}
    {
      triggers, deadline, fleet, log := map[], Never, {}, [];
    }

    /** The running fleet; empty names are dropped. */
    method SetFleetStormSymbols(symbols: seq<string>)
      requires Valid()
      modifies this`fleet
      ensures Valid() && fleet == Named(symbols)
    {
      var next: set<string> := {};
      for i := 0 to |symbols|
        invariant next == Named(symbols[..i])
      {
        if symbols[i] != "" {
          next := next + {symbols[i]};
        }
        NamedStep(symbols, i);
      }
      fleet := next;
      assert symbols[..|symbols|] == symbols;
    }

    /** Until the fleet is known, every symbol counts. */
    predicate FleetStormSymbol(symbol: string)
      reads this
    {
      fleet == {} || symbol in fleet
    }

    method NoteTrigger(symbol: string, now: int)
      requires Valid() && Before(log, now)
      modifies this`triggers, this`deadline, this`log
      ensures Valid() && log == old(log) + [Trigger(symbol, now)]
    {
      triggers := triggers[symbol := now];
      var distinct := Prune(now);
      if distinct >= MIN_SYMBOLS {
        deadline := Until(now + DURATION);
      }
      log := log + [Trigger(symbol, now)];
      NotedAgrees(old(log), old(triggers), old(deadline), symbol, now, triggers, deadline);
    }

    /** Deletes, one symbol at a time, what has left the window, and counts the rest. */
    method Prune(now: int) returns (distinct: nat)
      modifies this`triggers
      ensures triggers == Pruned(old(triggers), {}, now) && distinct == |triggers.Keys|
    {
      var pending := triggers.Keys;
      distinct := 0;
      assert triggers == Pruned(triggers, pending, now);
      assert triggers.Keys - pending == {};
      while pending != {}
        invariant pending <= old(triggers).Keys
        invariant triggers == Pruned(old(triggers), pending, now)
        invariant distinct == |triggers.Keys - pending|
        decreases |pending|
      {
        var s :| s in pending;
        PruneStep(old(triggers), pending, s, now);
        pending := pending - {s};
        if now - triggers[s] > WINDOW {
          triggers := triggers - {s};
        } else {
          distinct := distinct + 1;
        }
      }
      assert triggers.Keys - {} == triggers.Keys;
    }

    /** A sharp move of a watched symbol reaches the detector only when its symbol counts. */
    method OnSharpMove(symbol: string, now: int)
      requires Valid() && Before(log, now)
      modifies this`triggers, this`deadline, this`log
      ensures Valid()
      ensures log == if old(fleet) == {} || symbol in old(fleet) then old(log) + [Trigger(symbol, now)] else old(log)
    {
      if FleetStormSymbol(symbol) {
        NoteTrigger(symbol, now);
      }
    }

    method StormActive(now: int) returns (active: bool)
      requires Valid()
      ensures active <==> Stormy(log, now)
    {
      active := deadline.Until? && now < deadline.time;
    }

    /** The count is taken from the pruned map, and is the count over the whole history. */
    method StormState(now: int) returns (active: bool, symbols: nat)
      requires Valid() && Before(log, now)
      ensures active <==> Stormy(log, now)
      ensures symbols == |InWindow(log, now)|
    {
      active := deadline.Until? && now < deadline.time;
      symbols := CountRecent(now);
      MapCountsWindow(log, triggers, now);
    }

    method CountRecent(now: int) returns (symbols: nat)
      ensures symbols == |set s | s in triggers && now - triggers[s] <= WINDOW|
    {
      symbols := 0;
      var pending := triggers.Keys;
      ghost var counted: set<string> := {};
      while pending != {}
        invariant pending <= triggers.Keys
        invariant counted == set s | s in triggers && s !in pending && now - triggers[s] <= WINDOW
        invariant symbols == |counted|
        decreases |pending|
      {
        var s :| s in pending;
        pending := pending - {s};
        if now - triggers[s] <= WINDOW {
          symbols := symbols + 1;
          counted := counted + {s};
        }
      }
      assert counted == set s | s in triggers && now - triggers[s] <= WINDOW;
    }
  }
}
