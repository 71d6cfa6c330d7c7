/** What the statistics and the effect of a replay run mean: sizes of sets of items, and sums over
    the first item of each case, split by the sign of its result.
 */
module ReplayStats {
  import opened Common
  import opened ReplayCore
  import opened ReplayRuns

  /** The attempts of one episode, or one decision on its own. */
  ghost predicate SameCase(a: Item, b: Item) {
    (a.episode.Some? && b.episode.Some? && a.episode.value == b.episode.value)
    || (a.episode.None? && b.episode.None? && a.decision == b.decision)
  }

  /** The first item of its case, with a result, whose admission the replay turned round. */
  ghost predicate Counted(items: seq<Item>, i: nat) {
    && i < |items| && items[i].pnl.Some? && (items[i].base == ALLOW) != (items[i].next == Some(ALLOW))
    && forall j :: 0 <= j < i ==> !SameCase(items[j], items[i])
  }

  lemma CountedExactly(items: seq<Item>, i: nat)
    requires i < |items|
    ensures Counted(items, i) <==> Eligible(items, i)
  {
    forall j | 0 <= j < i ensures SameCase(items[j], items[i]) <==> SameOpportunity(items[j], items[i]) {
    }
  }

  /** The result, with its sign turned when the replay refuses what was admitted. */
  ghost function Turned(item: Item): real {
    if item.pnl.None? then 0.0 else if item.next == Some(ALLOW) then item.pnl.value else -item.pnl.value
  }

  ghost function Sum(n: nat, f: nat -> real): real {
    if n == 0 then 0.0 else Sum(n - 1, f) + f(n - 1)
  }

  ghost function All(items: seq<Item>): nat -> real {
    (i: nat) => if Counted(items, i) then Turned(items[i]) else 0.0
  }

  ghost function Gains(items: seq<Item>): nat -> real {
    (i: nat) => if Counted(items, i) && items[i].pnl.value > 0.0 then Turned(items[i]) else 0.0
  }

  ghost function Losses(items: seq<Item>): nat -> real {
    (i: nat) => if Counted(items, i) && items[i].pnl.value < 0.0 then Turned(items[i]) else 0.0
  }

  ghost function Pick(n: nat, p: nat -> bool): set<nat> {
    set i: nat | i < n && p(i)
  }

  lemma NothingPicked(p: nat -> bool)
    ensures Pick(0, p) == {}
  {
  }

  lemma PickGrows(n: nat, p: nat -> bool)
    ensures Pick(n + 1, p) == Pick(n, p) + (if p(n) then {n} else {})
    ensures |Pick(n + 1, p)| == |Pick(n, p)| + if p(n) then 1 else 0
  {
    assert Pick(n + 1, p) == Pick(n, p) + if p(n) then {n} else {};
  }

  ghost function IsChanged(items: seq<Item>): nat -> bool {
    (i: nat) => i < |items| && items[i].verdict.CHANGED?
  }

  ghost function IsFollowed(items: seq<Item>): nat -> bool {
    (i: nat) => i < |items| && items[i].verdict.CHANGED? && items[i].followed
  }

  ghost function IsCounted(items: seq<Item>): nat -> bool {
    (i: nat) => Counted(items, i)
  }

  ghost function IsCaused(items: seq<Item>, cause: Cause): nat -> bool {
    (i: nat) => i < |items| && items[i].verdict.NOT_REPLAYABLE? && items[i].cause == cause
  }

  ghost function Changed(items: seq<Item>, n: nat): set<nat> {
    Pick(n, IsChanged(items))
  }

  ghost function Followed(items: seq<Item>, n: nat): set<nat> {
    Pick(n, IsFollowed(items))
  }

  ghost function Resulting(items: seq<Item>, n: nat): set<nat> {
    Pick(n, IsCounted(items))
  }

  ghost function Caused(items: seq<Item>, n: nat, cause: Cause): set<nat> {
    Pick(n, IsCaused(items, cause))
  }

  /** Counts are the sizes of the sets they name; the profit difference, the missed profits and the
      prevented losses are sums over the counted items, of all results, of the gains and of the losses. */
  ghost predicate Means(items: seq<Item>, n: nat, s: Stats) {
    && s.checked == n && s.changed == |Changed(items, n)| && s.fullChain == |Followed(items, n)|
    && s.available == |Resulting(items, n)|
    && s.delta == Sum(n, All(items)) && s.missed == Sum(n, Gains(items)) && s.prevented == Sum(n, Losses(items))
  }

  lemma {:induction false} StatsExactly(items: seq<Item>, n: nat)
    requires n <= |items|
    ensures Means(items, n, Tally(items, n))
  {
    if n == 0 {
      NothingPicked(IsChanged(items));
      NothingPicked(IsFollowed(items));
      NothingPicked(IsCounted(items));
    } else {
      StatsExactly(items, n - 1);
      CountedExactly(items, n - 1);
      SetsGrow(items, n - 1);
      if Counted(items, n - 1) {
        WeightIsTurned(items[n - 1]);
      }
    }
  }

  lemma SetsGrow(items: seq<Item>, n: nat)
    requires n < |items|
    ensures |Changed(items, n + 1)| == |Changed(items, n)| + if items[n].verdict.CHANGED? then 1 else 0
    ensures |Followed(items, n + 1)| ==
            |Followed(items, n)| + if items[n].verdict.CHANGED? && items[n].followed then 1 else 0
    ensures |Resulting(items, n + 1)| == |Resulting(items, n)| + if Counted(items, n) then 1 else 0
  {
    PickGrows(n, IsChanged(items));
    PickGrows(n, IsFollowed(items));
    PickGrows(n, IsCounted(items));
  }

  lemma WeightIsTurned(item: Item)
    requires item.pnl.Some? ==> (item.base == ALLOW) != (item.next == Some(ALLOW))
    ensures item.pnl.Some? ==> Weighted(item, item.pnl.value) == Turned(item) && Weighted(item, 0.0) == 0.0
  {
  }

  /** Each cause is listed with the number of items it kept from being replayed. */
  lemma {:induction false} CausesExactly(items: seq<Item>, n: nat, cause: Cause)
    requires n <= |items| && cause != NoCause
    ensures var causes := Tally(items, n).causes;
            && (cause in causes <==> Caused(items, n, cause) != {})
            && (cause in causes ==> causes[cause] == |Caused(items, n, cause)|)
  {
    if n == 0 {
      NothingPicked(IsCaused(items, cause));
    } else {
      CausesExactly(items, n - 1, cause);
      PickGrows(n - 1, IsCaused(items, cause));
      OneMoreCause(items, n - 1, cause);
    }
  }

  lemma OneMoreCause(items: seq<Item>, n: nat, cause: Cause)
    requires n < |items| && cause != NoCause
    ensures var before, after := Tally(items, n).causes, Tally(items, n + 1).causes;
            if items[n].verdict.NOT_REPLAYABLE? && items[n].cause == cause
            then cause in after && after[cause] == (if cause in before then before[cause] else 0) + 1
            else (cause in after <==> cause in before) && (cause in before ==> after[cause] == before[cause])
  {
  }

  /** A run that only admits more misses no less than nothing and prevents no loss; one that only
      refuses more, the other way round. */
  lemma {:induction false} OneWayEffect(items: seq<Item>, n: nat, admits: bool)
    requires n <= |items|
    requires forall i :: 0 <= i < n ==>
               if admits then items[i].base == ALLOW ==> items[i].next == Some(ALLOW)
               else items[i].next == Some(ALLOW) ==> items[i].base == ALLOW
    ensures var s := Tally(items, n);
            if admits then s.missed >= 0.0 && s.prevented <= 0.0 else s.missed <= 0.0 && s.prevented >= 0.0
  {
    if n > 0 {
      OneWayEffect(items, n - 1, admits);
      CountedExactly(items, n - 1);
      var item := items[n - 1];
      if Counted(items, n - 1) {
        WeightIsTurned(item);
      }
    }
  }

  /** A refused decision that the replay admits, with a result of five: five missed, nothing prevented. */
  lemma MissedFive(item: Item)
    requires item.verdict.CHANGED? && item.base == DENY && item.next == Some(ALLOW) && item.pnl == Some(5.0)
    ensures var s := Tally([item], 1); s.delta == 5.0 && s.missed == 5.0 && s.prevented == 0.0 && s.available == 1
  {
    StatsExactly([item], 1);
    assert Counted([item], 0);
    assert All([item])(0) == 5.0 && Gains([item])(0) == 5.0 && Losses([item])(0) == 0.0;
    assert Sum(1, All([item])) == Sum(0, All([item])) + 5.0;
    assert Sum(1, Gains([item])) == Sum(0, Gains([item])) + 5.0;
    PickGrows(0, IsCounted([item]));
    NothingPicked(IsCounted([item]));
  }

  /** What an item says: whether its trace could be replayed and changed, and a result only when the
      replay turned the admission round. */
  lemma ItemExactly(plan: Plan, d: Decision)
    ensures var item := ItemOf(plan, d);
            && item.decision == d.id && item.episode == d.episode && item.base == d.outcome
            && (d.trace.None? ==> item.verdict.NOT_REPLAYABLE? && item.cause == InputsMissing && item.pnl.None?)
            && (d.trace.Some? ==>
                  var r := Replayed(d.trace.value, d.outcome, plan.override);
                  && (item.verdict.NOT_REPLAYABLE? <==> !r.replayable || (plan.override.gate == "" && r.gateChanged))
                  && (item.verdict.CHANGED? <==> r.replayable && r.gateChanged && plan.override.gate != "")
                  && item.next == r.outcome && item.followed == r.followed)
            && (item.pnl.Some? <==>
                  && !item.verdict.NOT_REPLAYABLE? && (d.outcome == ALLOW) != (item.next == Some(ALLOW))
                  && d.episode.Some? && d.episode.value in plan.outcomes && plan.outcomes[d.episode.value].Some?)
            && (item.pnl.Some? ==> item.pnl == plan.outcomes[d.episode.value])
  {
  }

  /** In particular every finished run carries these statistics of the items of its whole window. */
  lemma FinishedStatsExactly(now: int, es: seq<Event>, run: int)
    requires Punctual(Empty(now), es)
    requires run in Exec(Empty(now), es).rows && Exec(Empty(now), es).rows[run].status.DONE?
    ensures var r := Exec(Empty(now), es).rows[run];
            r.stats.Some? && Means(ItemsOf(r.plan, r.plan.window), |r.plan.window|, r.stats.value)
  {
    FinishedRunsAreComplete(now, es, run);
    var r := Exec(Empty(now), es).rows[run];
    StatsExactly(ItemsOf(r.plan, r.plan.window), |r.plan.window|);
  }
}
