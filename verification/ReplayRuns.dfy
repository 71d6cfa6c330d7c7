/** Replay experiments as durable runs: workers claim a run under a lease, judge its decisions
    in batches, may crash at any point, and finalize the run from its stored items.
 */
module ReplayRuns {
  import opened Common
  import opened ReplayCore

  const LEASE := 600
  const BATCH_SIZE := 500

  /** `trace` is `None` when the stored trace cannot be parsed. */
  datatype Decision = Decision(id: int, episode: Option<int>, outcome: Outcome, trace: Option<seq<Entry>>)

  /** What a run is about; it never changes.  `window` lists the decisions in processing order,
      `outcomes` the completed results of episodes. */
  datatype Plan = Plan(window: seq<Decision>, override: Override, outcomes: map<int, Option<real>>)

  datatype ItemVerdict = REPRODUCED | CHANGED | NOT_REPLAYABLE

  /** `episode` is the episode of the decision, as the finalization joins it. */
  datatype Item = Item(
    decision: int, episode: Option<int>, verdict: ItemVerdict, cause: Cause,
    base: Outcome, next: Option<Outcome>, followed: bool, pnl: Option<real>)

  // ---- one decision -----------------------------------------------------------------------

  function AdmissionDiff(base: Outcome, next: Option<Outcome>): int {
    (if next == Some(ALLOW) then 1 else 0) - (if base == ALLOW then 1 else 0)
  }

  function EpisodePnl(plan: Plan, d: Decision): Option<real> {
    if d.episode.Some? && d.episode.value in plan.outcomes then plan.outcomes[d.episode.value] else None
  }

  /** Turns the replay of a decision into its item.  Only an item with a known admission that
      differs from the recorded one carries the result of its episode. */
  function ItemFor(plan: Plan, d: Decision, r: Replay): Item {
    var verdict := if !r.replayable || (plan.override.gate == "" && r.gateChanged) then NOT_REPLAYABLE
                   else if r.gateChanged then CHANGED else REPRODUCED;
    var cause := if !r.replayable then r.cause else if verdict.NOT_REPLAYABLE? then InconsistentTrace else NoCause;
    var pnl := if !verdict.NOT_REPLAYABLE? && AdmissionDiff(d.outcome, r.outcome) != 0 then EpisodePnl(plan, d)
               else None;
    Item(d.id, d.episode, verdict, cause, d.outcome, r.outcome, r.followed, pnl)
  }

  ghost function ItemOf(plan: Plan, d: Decision): Item {
    if d.trace.None? then Item(d.id, d.episode, NOT_REPLAYABLE, InputsMissing, d.outcome, None, false, None)
    else ItemFor(plan, d, Replayed(d.trace.value, d.outcome, plan.override))
  }

  ghost function ItemsOf(plan: Plan, ds: seq<Decision>): seq<Item> {
    seq(|ds|, i requires 0 <= i < |ds| => ItemOf(plan, ds[i]))
  }

  // ---- the effect of a run ------------------------------------------------------------------

  /** Attempts of one episode count once; a decision without an episode stands for itself. */
  predicate SameOpportunity(a: Item, b: Item) {
    if a.episode.Some? then a.episode == b.episode else b.episode.None? && a.decision == b.decision
  }

  predicate FirstOfOpportunity(items: seq<Item>, i: nat)
    requires i < |items|
  {
    forall j :: 0 <= j < i ==> !SameOpportunity(items[j], items[i])
  }

  predicate Eligible(items: seq<Item>, i: nat)
    requires i < |items|
  {
    FirstOfOpportunity(items, i) && items[i].pnl.Some? && AdmissionDiff(items[i].base, items[i].next) != 0
  }

  datatype Stats = Stats(
    checked: int, changed: int, fullChain: int, available: int,
    causes: map<Cause, int>, delta: real, missed: real, prevented: real)

  function Weighted(item: Item, amount: real): real {
    AdmissionDiff(item.base, item.next) as real * amount
  }

  /** One more item. */
  function Count(items: seq<Item>, i: nat, s: Stats): Stats
    requires i < |items|
  {
    var it := items[i];
    var pnl := if it.pnl.Some? then it.pnl.value else 0.0;
    var eligible := Eligible(items, i);
    Stats(
      s.checked + 1,
      s.changed + (if it.verdict.CHANGED? then 1 else 0),
      s.fullChain + (if it.verdict.CHANGED? && it.followed then 1 else 0),
      s.available + (if eligible then 1 else 0),
      if it.verdict.NOT_REPLAYABLE? && !it.cause.NoCause?
      then s.causes[it.cause := (if it.cause in s.causes then s.causes[it.cause] else 0) + 1] else s.causes,
      s.delta + (if eligible then Weighted(it, pnl) else 0.0),
      s.missed + (if eligible then Weighted(it, if pnl > 0.0 then pnl else 0.0) else 0.0),
      s.prevented + (if eligible then Weighted(it, if pnl < 0.0 then pnl else 0.0) else 0.0))
  }

  function Tally(items: seq<Item>, n: nat): Stats
    requires n <= |items|
  {
    if n == 0 then Stats(0, 0, 0, 0, map[], 0.0, 0.0, 0.0) else Count(items, n - 1, Tally(items, n - 1))
  }

  /** The counterfactual profit is what was missed plus what was prevented. */
  lemma {:induction false} EffectDecomposes(items: seq<Item>, n: nat)
    requires n <= |items|
    ensures Tally(items, n).delta == Tally(items, n).missed + Tally(items, n).prevented
  {
    if n > 0 {
      EffectDecomposes(items, n - 1);
    }
  }

  /** The effect of a run depends on the items only, one opportunity at a time: an opportunity
      never contributes twice, and an item that could not be replayed never contributes. */
  lemma OpportunitiesCountOnce(plan: Plan, ds: seq<Decision>, i: nat, j: nat)
    requires i < |ds| && j < |ds|
    requires Eligible(ItemsOf(plan, ds), i)
    ensures !ItemsOf(plan, ds)[i].verdict.NOT_REPLAYABLE?
    ensures i != j && Eligible(ItemsOf(plan, ds), j) ==> !SameOpportunity(ItemsOf(plan, ds)[i], ItemsOf(plan, ds)[j])
  {
    var items := ItemsOf(plan, ds);
    assert items[i] == ItemOf(plan, ds[i]);
    if i < j {
      assert !SameOpportunity(items[i], items[j]) || !Eligible(items, j);
    } else if j < i {
      assert !SameOpportunity(items[j], items[i]);
    }
  }

  lemma ValidationItem(plan: Plan, d: Decision)
    requires plan.override.gate == ""
    ensures !ItemOf(plan, d).verdict.CHANGED? && ItemOf(plan, d).pnl.None?
    ensures ItemOf(plan, d).verdict.REPRODUCED? ==> ItemOf(plan, d).next == Some(d.outcome)
  {
  }

  /** A run without an override changes nothing and has an empty effect. */
  lemma {:induction false} ValidationHasNoEffect(plan: Plan, ds: seq<Decision>, n: nat)
    requires plan.override.gate == "" && n <= |ds|
    ensures var s := Tally(ItemsOf(plan, ds), n); s.changed == 0 && s.available == 0 && s.delta == 0.0 && s.checked == n
  {
    if n > 0 {
      ValidationItem(plan, ds[n - 1]);
      ValidationHasNoEffect(plan, ds, n - 1);
    }
  }

  // ---- the batch ------------------------------------------------------------------------------

  predicate HasItem(items: seq<Item>, id: int) {
    exists i :: 0 <= i < |items| && items[i].decision == id
  }

  /** The decisions of the window that have no item yet, in order. */
  function Pending(window: seq<Decision>, items: seq<Item>): seq<Decision> {
    if window == [] then []
    else (if HasItem(items, window[0].id) then [] else [window[0]]) + Pending(window[1..], items)
  }

  function Batch(window: seq<Decision>, items: seq<Item>): seq<Decision> {
    var pending := Pending(window, items);
    if |pending| > BATCH_SIZE then pending[..BATCH_SIZE] else pending
  }

  ghost predicate DistinctIds(window: seq<Decision>) {
    forall i, j :: 0 <= i < j < |window| ==> window[i].id != window[j].id
  }

  /** The items of a run are those of the first decisions of its window. */
  ghost predicate PrefixDone(plan: Plan, items: seq<Item>) {
    |items| <= |plan.window| && items == ItemsOf(plan, plan.window[..|items|])
  }

  lemma {:induction false} PendingOfUndone(window: seq<Decision>, items: seq<Item>)
    requires forall i :: 0 <= i < |window| ==> !HasItem(items, window[i].id)
    ensures Pending(window, items) == window
  {
    if window != [] {
      PendingOfUndone(window[1..], items);
    }
  }

  lemma {:induction false} PendingSkipsDone(window: seq<Decision>, items: seq<Item>, k: nat)
    requires k <= |window|
    requires forall i :: 0 <= i < k ==> HasItem(items, window[i].id)
    ensures Pending(window, items) == Pending(window[k..], items)
  {
    if k > 0 {
      PendingSkipsDone(window[1..], items, k - 1);
      assert window[1..][k - 1..] == window[k..];
    }
  }

  /** Skipping decisions that have an item is the same as resuming after the last one. */
  lemma PendingIsSuffix(plan: Plan, items: seq<Item>)
    requires DistinctIds(plan.window) && PrefixDone(plan, items)
    ensures Pending(plan.window, items) == plan.window[|items|..]
  {
    var k := |items|;
    forall i | 0 <= i < k
      ensures items[i].decision == plan.window[i].id && HasItem(items, plan.window[i].id)
    {
      assert items[i] == ItemOf(plan, plan.window[i]);
    }
    PendingSkipsDone(plan.window, items, k);
    PendingOfUndone(plan.window[k..], items);
  }

  lemma AppendBatch(plan: Plan, items: seq<Item>)
    requires DistinctIds(plan.window) && PrefixDone(plan, items)
    ensures var batch := Batch(plan.window, items);
            PrefixDone(plan, items + ItemsOf(plan, batch)) &&
            (batch == [] <==> |items| == |plan.window|) &&
            (|batch| < BATCH_SIZE ==> |items| + |batch| == |plan.window|)
  {
    PendingIsSuffix(plan, items);
    var batch := Batch(plan.window, items);
    var k := |items| + |batch|;
    assert batch == plan.window[|items|..k];
    assert plan.window[..k] == plan.window[..|items|] + batch;
    ItemsOfAppend(plan, plan.window[..|items|], batch);
  }

  lemma ItemsOfAppend(plan: Plan, ds: seq<Decision>, more: seq<Decision>)
    ensures ItemsOf(plan, ds + more) == ItemsOf(plan, ds) + ItemsOf(plan, more)
  {
  }

  // ---- runs, workers and their steps ------------------------------------------------------------

  datatype Status = QUEUED | RUNNING | DONE | FAILED | CANCELLED

  datatype Row = Row(plan: Plan, status: Status, lease: int, items: seq<Item>, stats: Option<Stats>)

  /** Where a live worker is.  `since` is when it last wrote the lease of its run. */
  datatype Worker =
    | Away
    | Claimed(run: int, since: int)
    | Refreshed(run: int, since: int)
    | Loaded(run: int, since: int, batch: seq<Decision>)
    | Closing(run: int, since: int)
    | Tallied(run: int, since: int, stats: Stats)

  datatype System = System(now: int, rows: map<int, Row>, workers: map<int, Worker>)

  datatype Event =
    | Tick(to: int)
    | Enqueue(run: int, plan: Plan)
    | Claim(worker: int, run: int)
    | Refresh(worker: int)
    | Select(worker: int)
    | Insert(worker: int)
    | Summarize(worker: int)
    | Finish(worker: int)
    | Crash(worker: int)
    | Fail(worker: int)
    | Cancel(run: int)

  function WorkerAt(s: System, w: int): Worker {
    if w in s.workers then s.workers[w] else Away
  }

  /** A worker that may still write items. */
  predicate Writing(x: Worker) {
    x.Claimed? || x.Refreshed? || x.Loaded?
  }

  predicate Due(r: Row, now: int) {
    r.status.QUEUED? || (r.status.RUNNING? && r.lease < now)
  }

  function Put(s: System, w: int, x: Worker): System {
    s.(workers := s.workers[w := x])
  }

  function PutRow(s: System, run: int, r: Row): System {
    s.(rows := s.rows[run := r])
  }

  /** One atomic statement of one worker, or of the environment; a statement whose guard does
      not hold changes nothing. */
  ghost function Step(s: System, e: Event): System {
    match e
    case Tick(to) => if to >= s.now then s.(now := to) else s
    case Enqueue(run, plan) =>
      if run in s.rows || !DistinctIds(plan.window) then s else PutRow(s, run, Row(plan, QUEUED, 0, [], None))
    case Claim(w, run) =>
      if WorkerAt(s, w).Away? && run in s.rows && Due(s.rows[run], s.now)
      then Put(PutRow(s, run, s.rows[run].(status := RUNNING, lease := s.now + LEASE)), w, Claimed(run, s.now)) else s
    case Refresh(w) =>
      var x := WorkerAt(s, w);
      if !x.Claimed? || x.run !in s.rows then s
      else if s.rows[x.run].status.RUNNING?
      then Put(PutRow(s, x.run, s.rows[x.run].(lease := s.now + LEASE)), w, Refreshed(x.run, s.now))
      else Put(s, w, Away)
    case Select(w) =>
      var x := WorkerAt(s, w);
      if !x.Refreshed? || x.run !in s.rows then s
      else
        var batch := Batch(s.rows[x.run].plan.window, s.rows[x.run].items);
        Put(s, w, if batch == [] then Closing(x.run, x.since) else Loaded(x.run, x.since, batch))
    case Insert(w) =>
      var x := WorkerAt(s, w);
      if !x.Loaded? || x.run !in s.rows then s
      else
        var row := s.rows[x.run];
        Put(PutRow(s, x.run, row.(items := row.items + ItemsOf(row.plan, x.batch))), w,
            if |x.batch| < BATCH_SIZE then Closing(x.run, x.since) else Claimed(x.run, x.since))
    case Summarize(w) =>
      var x := WorkerAt(s, w);
      if !x.Closing? || x.run !in s.rows then s
      else Put(s, w, Tallied(x.run, x.since, Tally(s.rows[x.run].items, |s.rows[x.run].items|)))
    case Finish(w) =>
      var x := WorkerAt(s, w);
      if !x.Tallied? || x.run !in s.rows then s
      else Put(PutRow(s, x.run, s.rows[x.run].(status := DONE, stats := Some(x.stats))), w, Away)
    case Crash(w) => Put(s, w, Away)
    case Fail(w) =>
      var x := WorkerAt(s, w);
      if x.Away? || x.run !in s.rows then s
      else Put(PutRow(s, x.run, s.rows[x.run].(status := FAILED, stats := None)), w, Away)
    case Cancel(run) =>
      if run in s.rows && (s.rows[run].status.QUEUED? || s.rows[run].status.RUNNING?)
      then PutRow(s, run, s.rows[run].(status := CANCELLED)) else s
  }

  ghost function Exec(s: System, es: seq<Event>): System {
    if es == [] then s else Step(Exec(s, es[..|es| - 1]), es[|es| - 1])
  }

  function Empty(now: int): System {
    System(now, map[], map[])
  }

  // ---- what every step keeps ----------------------------------------------------------------------

  ghost predicate Complete(r: Row) {
    r.items == ItemsOf(r.plan, r.plan.window)
  }

  ghost predicate RowOk(r: Row) {
    && DistinctIds(r.plan.window) && PrefixDone(r.plan, r.items)
    && (r.status.DONE? ==> Complete(r) && r.stats == Some(Tally(r.items, |r.items|)))
  }

  ghost predicate WorkerOk(s: System, x: Worker) {
    x.Away? ||
    (&& x.run in s.rows
     && !s.rows[x.run].status.QUEUED?
     && (Writing(x) ==> s.now <= x.since + LEASE &&
                        (s.rows[x.run].status.RUNNING? ==> x.since + LEASE <= s.rows[x.run].lease))
     && (x.Loaded? ==> x.batch == Batch(s.rows[x.run].plan.window, s.rows[x.run].items) != [])
     && (x.Closing? || x.Tallied? ==> Complete(s.rows[x.run]))
     && (x.Tallied? ==> x.stats == Tally(s.rows[x.run].items, |s.rows[x.run].items|)))
  }

  /** Two workers never write the same run. */
  ghost predicate OneWriter(s: System) {
    forall v, w :: v in s.workers && w in s.workers && v != w && Writing(s.workers[v]) && Writing(s.workers[w]) ==>
                     s.workers[v].run != s.workers[w].run
  }

  /** A batch, from one lease write to the next statement after its insert, takes no longer than the
      lease. */
  ghost predicate BatchesInTime(s: System) {
    forall w :: w in s.workers && Writing(s.workers[w]) ==> s.now <= s.workers[w].since + LEASE
  }

  ghost predicate Inv(s: System) {
    && (forall run :: run in s.rows ==> RowOk(s.rows[run]))
    && (forall w :: w in s.workers ==> WorkerOk(s, s.workers[w]))
    && OneWriter(s)
  }

  lemma ClaimKeeps(s: System, w: int, run: int)
    requires Inv(s) && WorkerAt(s, w).Away? && run in s.rows && Due(s.rows[run], s.now)
    ensures Inv(Step(s, Claim(w, run)))
  {
    forall v | v in s.workers && Writing(s.workers[v])
      ensures s.workers[v].run != run
    {
      assert WorkerOk(s, s.workers[v]);
    }
  }

  /** A worker that is about to insert is alone on its run. */
  lemma LoadedIsAlone(s: System, w: int, v: int)
    requires Inv(s) && WorkerAt(s, w).Loaded? && v in s.workers && v != w
    ensures s.workers[v].Away? || s.workers[v].run != WorkerAt(s, w).run
  {
    var x := WorkerAt(s, w);
    var row := s.rows[x.run];
    assert WorkerOk(s, x) && WorkerOk(s, s.workers[v]);
    AppendBatch(row.plan, row.items);
  }

  lemma InsertKeeps(s: System, w: int)
    requires Inv(s) && WorkerAt(s, w).Loaded?
    ensures Inv(Step(s, Insert(w)))
  {
    var x := WorkerAt(s, w);
    var row := s.rows[x.run];
    assert WorkerOk(s, x);
    AppendBatch(row.plan, row.items);
    assert row.plan.window[..|row.plan.window|] == row.plan.window;
    var t := Step(s, Insert(w));
    forall v | v in s.workers && v != w
      ensures WorkerOk(t, t.workers[v])
    {
      LoadedIsAlone(s, w, v);
      assert WorkerOk(s, s.workers[v]);
    }
  }

  lemma SelectKeeps(s: System, w: int)
    requires Inv(s) && WorkerAt(s, w).Refreshed?
    ensures Inv(Step(s, Select(w)))
  {
    var x := WorkerAt(s, w);
    assert WorkerOk(s, x);
    AppendBatch(s.rows[x.run].plan, s.rows[x.run].items);
    var row := s.rows[x.run];
    assert row.plan.window[..|row.plan.window|] == row.plan.window;
  }

  lemma RefreshKeeps(s: System, w: int)
    requires Inv(s)
    ensures Inv(Step(s, Refresh(w)))
  {
    var t := Step(s, Refresh(w));
    forall v | v in t.workers
      ensures WorkerOk(t, t.workers[v])
    {
      assert v != w ==> WorkerOk(s, s.workers[v]);
    }
  }

  lemma FinishKeeps(s: System, w: int)
    requires Inv(s)
    ensures Inv(Step(s, Finish(w)))
  {
    var t := Step(s, Finish(w));
    forall v | v in t.workers
      ensures WorkerOk(t, t.workers[v])
    {
      assert v != w ==> WorkerOk(s, s.workers[v]);
    }
  }

  lemma FailKeeps(s: System, w: int)
    requires Inv(s)
    ensures Inv(Step(s, Fail(w)))
  {
    var t := Step(s, Fail(w));
    forall v | v in t.workers
      ensures WorkerOk(t, t.workers[v])
    {
      assert v != w ==> WorkerOk(s, s.workers[v]);
    }
  }

  lemma SummarizeKeeps(s: System, w: int)
    requires Inv(s)
    ensures Inv(Step(s, Summarize(w)))
  {
  }

  /** Steps of the environment: time, new runs, crashes and cancellations. */
  lemma EnvironmentKeeps(s: System, e: Event)
    requires Inv(s) && (e.Tick? || e.Enqueue? || e.Crash? || e.Cancel?) && BatchesInTime(Step(s, e))
    ensures Inv(Step(s, e))
  {
    var t := Step(s, e);
    forall v | v in t.workers
      ensures WorkerOk(t, t.workers[v])
    {
      assert v in s.workers ==> WorkerOk(s, s.workers[v]);
    }
  }

  lemma StepKeeps(s: System, e: Event)
    requires Inv(s) && BatchesInTime(Step(s, e))
    ensures Inv(Step(s, e))
  {
    match e
    case Claim(w, run) =>
      if WorkerAt(s, w).Away? && run in s.rows && Due(s.rows[run], s.now) {
        ClaimKeeps(s, w, run);
      }
    case Refresh(w) => RefreshKeeps(s, w);
    case Select(w) =>
      if WorkerAt(s, w).Refreshed? {
        SelectKeeps(s, w);
      }
    case Insert(w) =>
      if WorkerAt(s, w).Loaded? {
        InsertKeeps(s, w);
      }
    case Summarize(w) => SummarizeKeeps(s, w);
    case Finish(w) => FinishKeeps(s, w);
    case Fail(w) => FailKeeps(s, w);
    case _ => EnvironmentKeeps(s, e);
  }

  /** Batches are in time in every state of the run. */
  ghost predicate Punctual(s: System, es: seq<Event>) {
    forall n :: 0 <= n <= |es| ==> BatchesInTime(Exec(s, es[..n]))
  }

  lemma PunctualPrefix(s: System, es: seq<Event>)
    requires es != [] && Punctual(s, es)
    ensures Punctual(s, es[..|es| - 1]) && BatchesInTime(Exec(s, es))
  {
    var front := es[..|es| - 1];
    forall n | 0 <= n <= |front| ensures BatchesInTime(Exec(s, front[..n])) {
      assert front[..n] == es[..n];
    }
    assert es[..|es|] == es;
  }

  lemma {:induction false} ExecKeeps(s: System, es: seq<Event>)
    requires Inv(s) && Punctual(s, es)
    ensures Inv(Exec(s, es))
  {
    if es != [] {
      PunctualPrefix(s, es);
      ExecKeeps(s, es[..|es| - 1]);
      StepKeeps(Exec(s, es[..|es| - 1]), es[|es| - 1]);
    }
  }

  /** Whatever the interleaving of claims, batches, crashes, expired leases, failures and
      cancellations, as long as batches are in time: a finished run holds exactly one item per
      decision of its window, in order, and the statistics of that full list of items. */
  lemma FinishedRunsAreComplete(now: int, es: seq<Event>, run: int)
    requires Punctual(Empty(now), es)
    requires run in Exec(Empty(now), es).rows && Exec(Empty(now), es).rows[run].status.DONE?
    ensures var r := Exec(Empty(now), es).rows[run];
            && r.items == ItemsOf(r.plan, r.plan.window)
            && r.stats == Some(Tally(ItemsOf(r.plan, r.plan.window), |r.plan.window|))
  {
    ExecKeeps(Empty(now), es);
    assert RowOk(Exec(Empty(now), es).rows[run]);
  }

  // ---- who holds a run --------------------------------------------------------------------------

  ghost predicate OneHolder(s: System) {
    forall v, w :: v in s.workers && w in s.workers && v != w && !s.workers[v].Away? && !s.workers[w].Away? ==>
                     s.workers[v].run != s.workers[w].run
  }

  /** Every live worker, also one that finalizes, is within a lease of its last refresh. */
  ghost predicate Prompt(s: System) {
    forall w :: w in s.workers && !s.workers[w].Away? ==> s.now <= s.workers[w].since + LEASE
  }

  ghost predicate LeaseCovers(s: System, x: Worker) {
    !x.Away? && x.run in s.rows && s.rows[x.run].status.RUNNING? ==> x.since + LEASE <= s.rows[x.run].lease
  }

  ghost predicate Held(s: System) {
    OneHolder(s) && forall w :: w in s.workers ==> LeaseCovers(s, s.workers[w])
  }

  /** A run whose lease is over, or that was never started, is held by nobody. */
  lemma DueIsFree(s: System, run: int, v: int)
    requires Inv(s) && Held(s) && Prompt(s) && run in s.rows && Due(s.rows[run], s.now)
    requires v in s.workers && !s.workers[v].Away?
    ensures s.workers[v].run != run
  {
    assert WorkerOk(s, s.workers[v]) && LeaseCovers(s, s.workers[v]);
  }

  lemma ClaimKeepsHeld(s: System, w: int, run: int)
    requires Inv(s) && Held(s) && Prompt(s)
    ensures Held(Step(s, Claim(w, run)))
  {
    if run in s.rows && Due(s.rows[run], s.now) {
      forall v | v in s.workers && !s.workers[v].Away?
        ensures s.workers[v].run != run
      {
        DueIsFree(s, run, v);
      }
    }
  }

  lemma RefreshKeepsHeld(s: System, w: int)
    requires Inv(s) && Held(s) && Prompt(s)
    ensures Held(Step(s, Refresh(w)))
  {
  }

  /** The remaining steps of a worker never lengthen or take a lease. */
  lemma BatchKeepsHeld(s: System, e: Event)
    requires Held(s) && (e.Select? || e.Insert? || e.Summarize?)
    ensures Held(Step(s, e))
  {
    var t := Step(s, e);
    forall w | w in t.workers
      ensures LeaseCovers(t, t.workers[w])
    {
      assert w in s.workers ==> LeaseCovers(s, s.workers[w]);
    }
  }

  lemma EndKeepsHeld(s: System, e: Event)
    requires Held(s) && (e.Finish? || e.Fail?)
    ensures Held(Step(s, e))
  {
    var t := Step(s, e);
    forall w | w in t.workers
      ensures LeaseCovers(t, t.workers[w])
    {
      assert w in s.workers ==> LeaseCovers(s, s.workers[w]);
    }
  }

  lemma EnvironmentKeepsHeld(s: System, e: Event)
    requires Inv(s) && Held(s) && (e.Tick? || e.Enqueue? || e.Crash? || e.Cancel?)
    ensures Held(Step(s, e))
  {
    var t := Step(s, e);
    forall w | w in t.workers
      ensures LeaseCovers(t, t.workers[w])
    {
      assert w in s.workers ==> LeaseCovers(s, s.workers[w]) && WorkerOk(s, s.workers[w]);
    }
  }

  lemma StepKeepsHeld(s: System, e: Event)
    requires Inv(s) && Held(s) && Prompt(s)
    ensures Held(Step(s, e))
  {
    match e
    case Claim(w, run) => ClaimKeepsHeld(s, w, run);
    case Refresh(w) => RefreshKeepsHeld(s, w);
    case Tick(_) => EnvironmentKeepsHeld(s, e);
    case Enqueue(_, _) => EnvironmentKeepsHeld(s, e);
    case Crash(_) => EnvironmentKeepsHeld(s, e);
    case Cancel(_) => EnvironmentKeepsHeld(s, e);
    case Finish(_) => EndKeepsHeld(s, e);
    case Fail(_) => EndKeepsHeld(s, e);
    case _ => BatchKeepsHeld(s, e);
  }

  /** If finalization too ends within a lease of the last refresh, no two live workers ever
      hold one run. */
  lemma {:induction false} PromptWorkersAreAlone(now: int, es: seq<Event>)
    requires forall n :: 0 <= n < |es| ==> Prompt(Exec(Empty(now), es[..n]))
    ensures Held(Exec(Empty(now), es)) && (Prompt(Exec(Empty(now), es)) ==> Inv(Exec(Empty(now), es)))
  {
    if es != [] {
      var front := es[..|es| - 1];
      forall n | 0 <= n < |front|
        ensures Prompt(Exec(Empty(now), front[..n]))
      {
        assert front[..n] == es[..n];
      }
      PromptWorkersAreAlone(now, front);
      assert es[..|es| - 1] == front && Prompt(Exec(Empty(now), front));
      if Prompt(Exec(Empty(now), es)) {
        StepKeeps(Exec(Empty(now), front), es[|es| - 1]);
      }
      StepKeepsHeld(Exec(Empty(now), front), es[|es| - 1]);
    }
  }

  /** A live worker that has written its last batch but not yet the final statement. */
  ghost predicate Finalizing(s: System, v: int) {
    v in s.workers && (s.workers[v].Closing? || s.workers[v].Tallied?)
  }

  /** A due claim of a run that is still being finalized. */
  ghost predicate Overtakes(s: System, e: Event) {
    && e.Claim? && WorkerAt(s, e.worker).Away? && e.run in s.rows && Due(s.rows[e.run], s.now)
    && exists v :: Finalizing(s, v) && s.workers[v].run == e.run
  }

  lemma OthersKeepHolders(s: System, e: Event)
    requires OneHolder(s) && !e.Claim?
    ensures OneHolder(Step(s, e))
  {
  }

  /** With batches in time, a step shares a run exactly when it overtakes a finalization. */
  lemma SharedExactly(s: System, e: Event)
    requires Inv(s) && OneHolder(s)
    ensures OneHolder(Step(s, e)) <==> !Overtakes(s, e)
  {
    if !e.Claim? {
      OthersKeepHolders(s, e);
    } else if WorkerAt(s, e.worker).Away? && e.run in s.rows && Due(s.rows[e.run], s.now) {
      var t := Step(s, e);
      if Overtakes(s, e) {
        var v :| Finalizing(s, v) && s.workers[v].run == e.run;
        assert t.workers[v] == s.workers[v] && t.workers[e.worker] == Claimed(e.run, s.now);
      } else {
        forall v | v in s.workers && !s.workers[v].Away? ensures s.workers[v].run != e.run {
          assert WorkerOk(s, s.workers[v]) && !(Finalizing(s, v) && s.workers[v].run == e.run);
        }
      }
    }
  }

  lemma ExecSnoc(s: System, es: seq<Event>, e: Event)
    ensures Exec(s, es + [e]) == Step(Exec(s, es), e)
  {
    assert (es + [e])[..|es|] == es;
  }

  const EMPTY_PLAN := Plan([], Override("", None), map[])
  const CLAIMED_BY_ONE := [Enqueue(7, EMPTY_PLAN), Claim(1, 7), Refresh(1)]
  const OVERTAKEN := CLAIMED_BY_ONE + [Select(1)] + [Tick(LEASE + 1)] + [Claim(2, 7)]

  lemma ClaimedByOne()
    ensures Exec(Empty(0), CLAIMED_BY_ONE) ==
            System(0, map[7 := Row(EMPTY_PLAN, RUNNING, LEASE, [], None)], map[1 := Refreshed(7, 0)])
  {
    var es := CLAIMED_BY_ONE;
    assert es == [] + [es[0]] + [es[1]] + [es[2]];
    ExecSnoc(Empty(0), [], es[0]);
    ExecSnoc(Empty(0), [] + [es[0]], es[1]);
    ExecSnoc(Empty(0), [] + [es[0]] + [es[1]], es[2]);
  }

  lemma StillFinalizing()
    ensures Exec(Empty(0), CLAIMED_BY_ONE + [Select(1)] + [Tick(LEASE + 1)]) ==
            System(LEASE + 1, map[7 := Row(EMPTY_PLAN, RUNNING, LEASE, [], None)], map[1 := Closing(7, 0)])
  {
    ClaimedByOne();
    ExecSnoc(Empty(0), CLAIMED_BY_ONE, Select(1));
    ExecSnoc(Empty(0), CLAIMED_BY_ONE + [Select(1)], Tick(LEASE + 1));
  }

  /** Short batches alone do not keep a run to one worker: the lease is not refreshed between
      the last batch and the final write, so a slow finalization can be overtaken. */
  lemma SlowFinalizationIsShared()
    ensures !OneHolder(Exec(Empty(0), OVERTAKEN))
  {
    StillFinalizing();
    ExecSnoc(Empty(0), CLAIMED_BY_ONE + [Select(1)] + [Tick(LEASE + 1)], Claim(2, 7));
    var s := Exec(Empty(0), OVERTAKEN);
    assert s.workers[1] == Closing(7, 0) && s.workers[2] == Claimed(7, LEASE + 1);
  }

  /** A due claim of a run that another worker is still writing. */
  ghost predicate Intrudes(s: System, e: Event) {
    && e.Claim? && WorkerAt(s, e.worker).Away? && e.run in s.rows && Due(s.rows[e.run], s.now)
    && exists v :: v in s.workers && Writing(s.workers[v]) && s.workers[v].run == e.run
  }

  /** Whatever the time batches take, a step lets two workers write one run exactly when it intrudes. */
  lemma WritersSharedExactly(s: System, e: Event)
    requires OneWriter(s)
    ensures OneWriter(Step(s, e)) <==> !Intrudes(s, e)
  {
    if e.Claim? {
      if Intrudes(s, e) {
        var v :| v in s.workers && Writing(s.workers[v]) && s.workers[v].run == e.run;
        var t := Step(s, e);
        assert t.workers[v] == s.workers[v] && t.workers[e.worker] == Claimed(e.run, s.now);
      }
    } else {
      OthersKeepWriters(s, e);
    }
  }

  lemma OthersKeepWriters(s: System, e: Event)
    requires OneWriter(s) && !e.Claim?
    ensures OneWriter(Step(s, e))
  {
  }

  // ---- late batches ---------------------------------------------------------------------------------

  ghost predicate NoDuplicates(items: seq<Item>) {
    forall i, j :: 0 <= i < j < |items| ==> items[i].decision != items[j].decision
  }

  /** Nothing but the earlier selection keeps a batch from inserting items a second time. */
  lemma InsertDuplicatesExactly(plan: Plan, items: seq<Item>, batch: seq<Decision>)
    requires NoDuplicates(items) && DistinctIds(batch)
    ensures NoDuplicates(items + ItemsOf(plan, batch)) <==> forall d <- batch :: !HasItem(items, d.id)
  {
    var all, n := items + ItemsOf(plan, batch), |items|;
    forall i | 0 <= i < |batch| ensures all[n + i].decision == batch[i].id {
      assert all[n + i] == ItemOf(plan, batch[i]);
    }
    BatchIsFresh(items, batch, all);
  }

  lemma BatchIsFresh(items: seq<Item>, batch: seq<Decision>, all: seq<Item>)
    requires NoDuplicates(items) && DistinctIds(batch) && |all| == |items| + |batch| && items == all[..|items|]
    requires forall i :: 0 <= i < |batch| ==> all[|items| + i].decision == batch[i].id
    ensures NoDuplicates(all) <==> forall d <- batch :: !HasItem(items, d.id)
  {
    var n := |items|;
    if NoDuplicates(all) {
      forall d <- batch ensures !HasItem(items, d.id) {
        var i :| 0 <= i < |batch| && batch[i] == d;
        forall j | 0 <= j < n ensures items[j].decision != d.id {
          assert all[j] == items[j] && all[j].decision != all[n + i].decision;
        }
      }
    }
    if forall d <- batch :: !HasItem(items, d.id) {
      forall i, j | 0 <= i < j < |all| ensures all[i].decision != all[j].decision {
        if j < n {
          assert all[i] == items[i] && all[j] == items[j];
        } else if i < n {
          assert all[i] == items[i] && all[n + (j - n)].decision == batch[j - n].id && batch[j - n] in batch;
        } else {
          assert all[n + (i - n)].decision == batch[i - n].id && all[n + (j - n)].decision == batch[j - n].id;
        }
      }
    }
  }

  const ONE := Decision(1, None, ALLOW, None)
  const SMALL_PLAN := Plan([ONE], Override("", None), map[])

  lemma BatchOfOne(items: seq<Item>)
    requires items == []
    ensures Batch(SMALL_PLAN.window, items) == [ONE]
  {
    PendingOfUndone(SMALL_PLAN.window, items);
  }

  /** A batch that outlasts the lease: a second worker selects the same decision, and both insert it. */
  lemma SlowBatchDuplicates() returns (es: seq<Event>)
    ensures !Punctual(Empty(0), es)
    ensures 7 in Exec(Empty(0), es).rows && !NoDuplicates(Exec(Empty(0), es).rows[7].items)
  {
    var slow, before := BothSelect();
    ExecSnoc(Empty(0), before, Insert(1));
    ExecSnoc(Empty(0), before + [Insert(1)], Insert(2));
    es := before + [Insert(1)] + [Insert(2)];
    assert es[..|slow|] == slow;
    var items := Exec(Empty(0), es).rows[7].items;
    assert items == [] + ItemsOf(SMALL_PLAN, [ONE]) + ItemsOf(SMALL_PLAN, [ONE]);
    assert items[0].decision == items[1].decision;
  }

  const SELECTED := Row(SMALL_PLAN, RUNNING, LEASE, [], None)
  const FIRST_LOADED := map[1 := Loaded(7, 0, [ONE])]

  /** The first worker has selected the one decision, and then outlasts its lease. */
  lemma FirstIsSlow() returns (slow: seq<Event>)
    ensures Exec(Empty(0), slow) == System(LEASE + 1, map[7 := SELECTED], FIRST_LOADED)
  {
    var queued := Row(SMALL_PLAN, QUEUED, 0, [], None);
    ExecSnoc(Empty(0), [], Enqueue(7, SMALL_PLAN));
    var enqueued := [] + [Enqueue(7, SMALL_PLAN)];
    assert Exec(Empty(0), enqueued) == System(0, map[7 := queued], map[]);
    var first := SelectsAll(0, enqueued, queued, map[], 1);
    ExecSnoc(Empty(0), first, Tick(LEASE + 1));
    slow := first + [Tick(LEASE + 1)];
  }

  /** After `slow` the first worker is late; after `es` two workers have selected the one decision. */
  lemma BothSelect() returns (slow: seq<Event>, es: seq<Event>)
    ensures slow <= es && !BatchesInTime(Exec(Empty(0), slow))
    ensures Exec(Empty(0), es) ==
            System(LEASE + 1, map[7 := SELECTED.(lease := LEASE + 1 + LEASE)],
                   FIRST_LOADED[2 := Loaded(7, LEASE + 1, [ONE])])
  {
    slow := FirstIsSlow();
    assert Exec(Empty(0), slow).workers[1] == Loaded(7, 0, [ONE]);
    es := SelectsAll(LEASE + 1, slow, SELECTED, FIRST_LOADED, 2);
  }

  /** Worker `w` claims the due run, refreshes its lease and selects the one decision. */
  lemma SelectsAll(now: int, before: seq<Event>, row: Row, workers: map<int, Worker>, w: int) returns (es: seq<Event>)
    requires Exec(Empty(0), before) == System(now, map[7 := row], workers) && w !in workers
    requires row.plan == SMALL_PLAN && row.items == [] && Due(row, now)
    ensures before <= es
    ensures Exec(Empty(0), es) ==
            System(now, map[7 := row.(status := RUNNING, lease := now + LEASE)], workers[w := Loaded(7, now, [ONE])])
  {
    BatchOfOne(row.items);
    ExecSnoc(Empty(0), before, Claim(w, 7));
    ExecSnoc(Empty(0), before + [Claim(w, 7)], Refresh(w));
    ExecSnoc(Empty(0), before + [Claim(w, 7)] + [Refresh(w)], Select(w));
    es := before + [Claim(w, 7)] + [Refresh(w)] + [Select(w)];
  }

  // ---- the code of one worker -----------------------------------------------------------------------

  /** The durable row of one run, as the statements of a worker see it. */
  class RunRow {
    const plan: Plan
    var status: Status
    var lease: int
    var items: seq<Item>
    var stats: Option<Stats>

    ghost function View(): Row
      reads this
    {
      Row(plan, status, lease, items, stats)
    }

    constructor (p: Plan)
      ensures View() == Row(p, QUEUED, 0, [], None)
    {
      plan, status, lease, items, stats := p, QUEUED, 0, [], None;
    }

    method Claim(now: int) returns (ok: bool)
      modifies this
      ensures ok == Due(old(View()), now)
      ensures View() == if ok then old(View()).(status := RUNNING, lease := now + LEASE) else old(View())
    {
      ok := status.QUEUED? || (status.RUNNING? && lease < now);
      if ok {
        status, lease := RUNNING, now + LEASE;
      }
    }

    method RefreshLease(now: int) returns (ok: bool)
      modifies this
      ensures ok == old(status).RUNNING?
      ensures View() == if ok then old(View()).(lease := now + LEASE) else old(View())
    {
      ok := status.RUNNING?;
      if ok {
        lease := now + LEASE;
      }
    }

    method ComputeItem(d: Decision) returns (item: Item)
      ensures item == ItemOf(plan, d)
    {
      if d.trace.None? {
        return Item(d.id, d.episode, NOT_REPLAYABLE, InputsMissing, d.outcome, None, false, None);
      }
      var r := ReplayTrace(d.trace.value, d.outcome, plan.override);
      item := ItemFor(plan, d, r);
    }

    method ComputeItems(batch: seq<Decision>) returns (computed: seq<Item>)
      ensures computed == ItemsOf(plan, batch)
    {
      computed := [];
      var i := 0;
      while i < |batch|
        invariant 0 <= i <= |batch| && computed == ItemsOf(plan, batch[..i])
      {
        var item := ComputeItem(batch[i]);
        computed := computed + [item];
        i := i + 1;
      }
      assert batch[..i] == batch;
    }

    /** One uninterrupted pass; `clock` is the time of each refresh.  A run that is not running
        any more is left alone, any other is finished from wherever it was interrupted before. */
    method Process(clock: nat -> int)
      requires DistinctIds(plan.window) && PrefixDone(plan, items)
      modifies this
      ensures !old(status).RUNNING? ==> View() == old(View())
      ensures old(status).RUNNING? ==> status.DONE? && items == ItemsOf(plan, plan.window)
                                       && stats == Some(Tally(ItemsOf(plan, plan.window), |plan.window|))
    {
      var round := 0;
      while true
        invariant status == old(status) && PrefixDone(plan, items)
        invariant !status.RUNNING? ==> View() == old(View())
        decreases |plan.window| - |items|
      {
        var ok := RefreshLease(clock(round));
        if !ok {
          return;
        }
        AppendBatch(plan, items);
        var batch := Batch(plan.window, items);
        if |batch| == 0 {
          break;
        }
        var computed := ComputeItems(batch);
        items := items + computed;
        if |batch| < BATCH_SIZE {
          break;
        }
        round := round + 1;
      }
      assert plan.window[..|plan.window|] == plan.window;
      status, stats := DONE, Some(Tally(items, |items|));
    }
  }
}
