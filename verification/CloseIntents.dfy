/** Durable close and re-deploy intents: the rows of the grid table under concurrent writers, each
    an atomic guarded update, with crashes between a re-deploy and the mark that consumes it.
 */
module CloseIntents {
  import opened Common

  type Id = nat

  datatype Status =
    | PendingSubmission | SubmissionUnknown | Failed
    | Running | StopRequested | Stopping
    | Stopped | Completed | Cancelled | Liquidated

  predicate Terminal(s: Status) {
    s.Stopped? || s.Completed? || s.Cancelled? || s.Liquidated?
  }

  /** The states that occupy a symbol. */
  predicate Active(s: Status) {
    !Terminal(s) && !s.Failed?
  }

  datatype Mesh = Mesh(lower: real, upper: real, gridNum: int, investment: real)

  /** The idempotency key of a create: a re-deploy is keyed by the closed bot and its break price. */
  datatype Key = Deploy(name: string) | Redeploy(parent: Id, microPrice: int)

  /** The fingerprint covers the key and the parameters of the request. */
  datatype Fingerprint = Fingerprint(account: string, key: Key, mesh: Mesh)

  /** How far a cancel has come in one visit. */
  datatype Cancel = NotSent | Sent | Gone

  /** Where the supervision loop stands with a bot: `local` is the status when the pass listed it,
      `read` whether the pass has taken over the remote state.  The table does not store this. */
  datatype Visit = Away | Visiting(local: Status, read: bool, cancel: Cancel)

  datatype Row = Row(
    symbol: string, status: Status, remote: bool, reason: Option<string>, baseline: Option<real>,
    pendingAt: Option<int>, breakPrice: Option<real>, done: bool, closedAt: int, fingerprint: Fingerprint,
    visit: Visit)

  type Table = map<Id, Row>

  const BREAK_REASONS: set<string> := {
    "RANGE_BREAK_DOWN", "RANGE_BREAK_UP", "RANGE_BREAK_UP_TREND_STOP",
    "RANGE_BREAK_DOWN_EARLY", "RANGE_BREAK_UP_EARLY",
    "RANGE_SHIFT_DOWN_NO_ADJUSTMENTS_LEFT", "RANGE_SHIFT_UP_NO_ADJUSTMENTS_LEFT",
    "EMERGENCY_OFI_DUMP", "EMERGENCY_OFI_PUMP"}

  const ALREADY_CLOSED := "ALREADY_CLOSED"

  /** Two hours, in seconds. */
  const MAX_AGE := 7200

  // ---- how the exchange ends a bot -----------------------------------------------------------------

  datatype Ending =
    | TakeProfitNative | StopLossNative | UserCancel | LiquidatedRemotely | RemoteFailed | ExternalClose | AlreadyClosed

  function EndStatus(e: Ending): Status {
    match e
    case TakeProfitNative => Completed
    case LiquidatedRemotely => Liquidated
    case RemoteFailed => Failed
    case _ => Stopped
  }

  function EndReason(e: Ending): string {
    match e
    case TakeProfitNative => "TAKE_PROFIT_NATIVE"
    case StopLossNative => "STOP_LOSS_NATIVE"
    case UserCancel => "USER_CANCEL"
    case LiquidatedRemotely => "LIQUIDATION"
    case RemoteFailed => "REMOTE_FAILED"
    case ExternalClose => "EXTERNAL_CLOSE"
    case AlreadyClosed => ALREADY_CLOSED
  }

  /** No ending that the exchange reports counts as a break. */
  lemma EndingsAreNoBreaks(e: Ending)
    ensures EndReason(e) !in BREAK_REASONS && EndReason(e) != "" && ALREADY_CLOSED !in BREAK_REASONS
  {
  }

  // ---- the writers ---------------------------------------------------------------------------------

  datatype Update =
    | ManageClose(reason: string, total: real)
    | FirstWriter(reason: string, total: real)
    | OperatorClose(reason: string, total: real)
    | ControlStop
    | FleetStop(reason: string)
    | Rotate(reason: string)
    | List
    | Sweep
    | CancelSubmit
    | CancelAccepted
    | CancelGone(now: int)
    | Settle(ending: Ending, now: int)
    | Reconcile
    | Leave
    | QueueRedeploy(price: real, now: int)
    | Persist
    | CreateFailed(unknown: bool)
    | ClearUnknown(now: int)
    | Adopt

  predicate InFlight(s: Status) { s.PendingSubmission? || s.SubmissionUnknown? }

  predicate Closing(s: Status) { s.StopRequested? || s.Stopping? }

  /** Running, or on its way out: what a pass lists. */
  predicate Supervised(s: Status) { s.Running? || Closing(s) }

  predicate FoundGone(r: Row) { r.visit.Visiting? && r.visit.cancel.Gone? }

  /** Who may act on a row, and when.  The statements of a visit have no condition on the status of
      the row: only the order of the visit restrains them.  A pass lists remote bots, cancels those
      that were not running, then settles or takes over the remote state, then manages and may
      cancel again; an emergency sweep only cancels.  All other writers are guarded updates. */
  predicate Applies(r: Row, u: Update) {
    match u
    case ManageClose(_, _) => r.remote && Supervised(r.status)
    case FirstWriter(_, _) => r.status.Running?
    case OperatorClose(_, _) => InFlight(r.status) || (r.remote && r.status.Running?)
    case ControlStop => if r.remote then !Terminal(r.status) else InFlight(r.status)
    case FleetStop(_) => InFlight(r.status) || r.status.Running?
    case Rotate(_) => r.status.Running?
    case List => r.visit.Away? && r.remote && Supervised(r.status)
    case Sweep => r.visit.Away? && r.remote && Supervised(r.status)
    case CancelSubmit => r.visit.Visiting? && !r.visit.cancel.Gone? && (r.visit.read || !r.visit.local.Running?)
    case CancelAccepted => r.visit.Visiting? && r.visit.cancel.Sent?
    case CancelGone(_) => r.visit.Visiting? && r.visit.cancel.Sent?
    case Settle(_, _) => r.visit.Visiting? && !r.visit.read
    case Reconcile => r.visit.Visiting? && !r.visit.read
    case Leave => r.visit.Visiting?
    case QueueRedeploy(_, _) => Closing(r.status)
    case Persist => r.status.PendingSubmission? || !r.remote
    case CreateFailed(_) => !r.remote
    case ClearUnknown(_) => !r.remote && (InFlight(r.status) || r.status.StopRequested?)
    case Adopt => !r.remote && (InFlight(r.status) || r.status.StopRequested?)
  }

  function Coalesce<T>(first: Option<T>, second: T): Option<T> {
    if first.Some? then first else Some(second)
  }

  /** The statement behind a supervised close: the first one sets the reason, and the first to find no
      baseline sets that.  It has no guard of its own on the remote id. */
  function Closed(r: Row, reason: string, total: real): Row {
    if !r.status.Running? && !Closing(r.status) then r
    else
      r.(status := if r.status.Running? then StopRequested else r.status,
      reason := if r.status.Running? then Some(reason) else r.reason,
      baseline := Coalesce(r.baseline, total))
  }

  function RowStep(r: Row, u: Update): Row {
    if !Applies(r, u) then r
    else
      match u
      case ManageClose(reason, total) => Closed(r, reason, total)
      case FirstWriter(reason, total) => r.(status := StopRequested, reason := Some(reason), baseline := Some(total))
      case OperatorClose(reason, total) =>
        r.(status := StopRequested, reason := Some(reason),
        baseline := if r.remote then Coalesce(r.baseline, total) else r.baseline)
      case FleetStop(reason) => r.(status := StopRequested, reason := Coalesce(r.reason, reason))
      case Rotate(reason) => r.(status := StopRequested, reason := Some(reason))
      case List => r.(visit := Visiting(r.status, false, NotSent))
      case Sweep => r.(visit := Visiting(r.status, true, NotSent))
      case CancelSubmit => r.(status := Stopping, visit := r.visit.(cancel := Sent))
      case CancelAccepted => r.(status := StopRequested, visit := r.visit.(cancel := NotSent))
      case CancelGone(now) =>
        r.(status := Stopped, reason := Some(ALREADY_CLOSED), closedAt := now, visit := r.visit.(cancel := Gone))
      case ControlStop => r.(status := StopRequested)
      case Settle(ending, now) =>
        r.(status := EndStatus(ending), closedAt := now, visit := Away,
        reason := if r.reason.Some? && r.reason.value != "" then r.reason else Some(EndReason(ending)))
      case Reconcile =>
        r.(status := if Closing(r.status) then r.status else r.visit.local,
        visit := r.visit.(read := true, cancel := NotSent))
      case Leave => r.(visit := Away)
      case QueueRedeploy(price, now) => r.(pendingAt := Some(now), breakPrice := Some(price))
      case Persist => r.(remote := true, status := if Closing(r.status) then r.status else Running)
      case CreateFailed(unknown) => r.(status := if unknown then SubmissionUnknown else Failed)
      case ClearUnknown(now) => r.(status := Failed, reason := Some("NOT_CREATED_ON_EXCHANGE"), closedAt := now)
      case Adopt => r.(remote := true, status := if r.status.StopRequested? then r.status else Running)
  }

  // ---- creates and re-deploys ------------------------------------------------------------------------

  predicate Busy(t: Table, account: string, symbol: string) {
    exists id <- t.Keys :: Active(t[id].status) && t[id].fingerprint.account == account && t[id].symbol == symbol
  }

  predicate Known(t: Table, f: Fingerprint) {
    exists id <- t.Keys :: t[id].fingerprint == f
  }

  /** One transaction: refuse a busy symbol, return the old row of a known fingerprint, else insert. */
  function Created(t: Table, id: Id, symbol: string, f: Fingerprint): Table {
    if Busy(t, f.account, symbol) || Known(t, f) || id in t then t
    else t[id := Row(symbol, PendingSubmission, false, None, None, None, None, false, 0, f, Away)]
  }

  datatype Verdict = Skip | Consume | Attempt(price: real)

  /** What one pass does with a row: not its turn, drop the intent, or re-deploy at the break price. */
  function IntentVerdict(r: Row, enabled: bool, now: int): Verdict {
    if !(r.reason.Some? && r.reason.value in BREAK_REASONS) || r.pendingAt.None? || r.done
       || !Terminal(r.status) || r.closedAt <= now - MAX_AGE then Skip
    else if !enabled || now - r.pendingAt.value >= MAX_AGE
            || r.breakPrice.None? || r.breakPrice.value <= 0.0 then Consume
    else Attempt(r.breakPrice.value)
  }

  /** Prices are rounded to six decimals in the key. */
  function Micro(price: real): int {
    (price * 1000000.0 + 0.5).Floor
  }

  lemma MicroIsNearest(price: real)
    ensures -0.5 <= Micro(price) as real - price * 1000000.0 <= 0.5
  {
  }

  function FingerprintOf(t: Table, parent: Id, mesh: Mesh): Fingerprint
    requires parent in t && t[parent].breakPrice.Some?
  {
    Fingerprint(t[parent].fingerprint.account, Redeploy(parent, Micro(t[parent].breakPrice.value)), mesh)
  }

  datatype Offer = Offer(enabled: bool, admitted: bool, mesh: Mesh, child: Id)

  /** The create of one intent, before the mark. */
  function Attempted(t: Table, id: Id, now: int, o: Offer): Table {
    if id in t && IntentVerdict(t[id], o.enabled, now).Attempt? && o.admitted then
      Created(t, o.child, t[id].symbol, FingerprintOf(t, id, o.mesh))
    else t
  }

  function Marked(t: Table, id: Id, now: int, o: Offer): Table {
    if id in t && !IntentVerdict(t[id], o.enabled, now).Skip? then
      Attempted(t, id, now, o)[id := t[id].(done := true)]
    else t
  }

  datatype Event =
    | RowUpdate(id: Id, update: Update)
    | Deployed(id: Id, symbol: string, account: string, name: string, mesh: Mesh)
    | Redeployed(id: Id, now: int, offer: Offer)
    | RedeployedThenCrashed(id: Id, now: int, offer: Offer)

  function Step(t: Table, e: Event): Table {
    match e
    case RowUpdate(id, u) => if id in t then t[id := RowStep(t[id], u)] else t
    case Deployed(id, symbol, account, name, mesh) => Created(t, id, symbol, Fingerprint(account, Deploy(name), mesh))
    case Redeployed(id, now, o) => Marked(t, id, now, o)
    case RedeployedThenCrashed(id, now, o) => Attempted(t, id, now, o)
  }

  function Run(t: Table, events: seq<Event>): Table {
    if events == [] then t else Step(Run(t, events[..|events| - 1]), events[|events| - 1])
  }

  // ---- what every step keeps ---------------------------------------------------------------------------

  ghost predicate RowOk(r: Row) {
    && (r.status.Running? ==> r.remote && r.baseline.None?)
    && (if r.remote then !InFlight(r.status)
        else r.baseline.None? && !Terminal(r.status))
    && (r.visit.Visiting? ==> VisitOk(r))
  }

  /** During a visit the row is still supervised, unless the cancel found the bot gone; and a bot
      that was listed as leaving is not running. */
  ghost predicate VisitOk(r: Row)
    requires r.visit.Visiting?
  {
    var v := r.visit;
    && r.remote && Supervised(v.local) && (!v.local.Running? ==> !r.status.Running?)
    && (if v.cancel.Gone?
        then r.status.Stopped? && r.reason == Some(ALREADY_CLOSED)
        else Supervised(r.status))
    && (!v.cancel.NotSent? ==> !r.status.Running? && (v.read || Closing(v.local)))
  }

  /** A closed bot that a re-deploy may start from: nothing in it can change any more. */
  ghost predicate Broken(r: Row) {
    && r.remote && Terminal(r.status)
    && r.reason.Some? && r.reason.value in BREAK_REASONS && r.pendingAt.Some? && r.breakPrice.Some?
  }

  ghost predicate IsChild(t: Table, c: Id, parent: Id) {
    c in t && t[c].fingerprint.key.Redeploy? && t[c].fingerprint.key.parent == parent
  }

  ghost predicate ChildrenOk(t: Table) {
    forall c, p :: IsChild(t, c, p) ==>
      p in t && Broken(t[p]) && t[c].fingerprint == FingerprintOf(t, p, t[c].fingerprint.mesh)
  }

  ghost predicate Distinct(t: Table) {
    forall a, b :: a in t && b in t && t[a].fingerprint == t[b].fingerprint ==> a == b
  }

  ghost predicate Good(t: Table) {
    (forall id :: id in t ==> RowOk(t[id])) && Distinct(t) && ChildrenOk(t)
  }

  lemma RowStepKeepsOk(r: Row, u: Update)
    requires RowOk(r)
    ensures RowOk(RowStep(r, u)) && RowStep(r, u).fingerprint == r.fingerprint && RowStep(r, u).symbol == r.symbol
    ensures r.remote ==> RowStep(r, u).remote
  {
  }

  /** Closed by a cancel that found the bot gone, in a visit that has not yet read the remote state. */
  predicate Reopenable(r: Row) {
    FoundGone(r) && !r.visit.read
  }

  /** A terminal row is frozen, up to the position of a visit, exactly unless it is reopenable. */
  lemma TerminalIsFrozenExactly(r: Row)
    requires RowOk(r) && Terminal(r.status)
    ensures (forall u: Update :: RowStep(r, u).(visit := r.visit) == r) <==> !Reopenable(r)
  {
    if Reopenable(r) {
      assert RowStep(r, Reconcile).status == r.visit.local;
    } else {
      forall u: Update ensures RowStep(r, u).(visit := r.visit) == r {
        TerminalStep(r, u);
      }
    }
  }

  lemma TerminalStep(r: Row, u: Update)
    requires RowOk(r) && Terminal(r.status) && !Reopenable(r)
    ensures RowStep(r, u).(visit := r.visit) == r && !Reopenable(RowStep(r, u))
  {
  }

  /** A bot that closed on a break is past its visit, and no writer changes anything in its row. */
  lemma BrokenIsFrozen(r: Row, u: Update)
    requires RowOk(r) && Broken(r)
    ensures RowStep(r, u) == r && r.visit.Away?
  {
    EndingsAreNoBreaks(AlreadyClosed);
  }

  lemma UpdateKeepsGood(t: Table, id: Id, u: Update)
    requires Good(t) && id in t
    ensures Good(t[id := RowStep(t[id], u)])
  {
    var n := t[id := RowStep(t[id], u)];
    RowStepKeepsOk(t[id], u);
    assert forall x :: x in t ==> n[x].fingerprint == t[x].fingerprint;
    forall c, p | IsChild(n, c, p)
      ensures p in n && Broken(n[p]) && n[c].fingerprint == FingerprintOf(n, p, n[c].fingerprint.mesh)
    {
      assert IsChild(t, c, p);
      if p == id { BrokenIsFrozen(t[p], u); }
    }
  }

  lemma CreateKeepsGood(t: Table, id: Id, symbol: string, f: Fingerprint)
    requires Good(t)
    requires f.key.Redeploy? ==>
               f.key.parent in t && Broken(t[f.key.parent]) && f == FingerprintOf(t, f.key.parent, f.mesh)
    ensures Good(Created(t, id, symbol, f))
  {
    var n := Created(t, id, symbol, f);
    if n != t {
      forall c, p | IsChild(n, c, p)
        ensures p in n && Broken(n[p]) && n[c].fingerprint == FingerprintOf(n, p, n[c].fingerprint.mesh)
      {
        if c != id { assert IsChild(t, c, p); }
      }
    }
  }

  lemma AttemptKeepsGood(t: Table, id: Id, now: int, o: Offer)
    requires Good(t)
    ensures Good(Attempted(t, id, now, o))
  {
    if id in t && IntentVerdict(t[id], o.enabled, now).Attempt? {
      CreateKeepsGood(t, o.child, t[id].symbol, FingerprintOf(t, id, o.mesh));
    }
  }

  lemma MarkKeepsGood(t: Table, id: Id)
    requires Good(t) && id in t
    ensures Good(t[id := t[id].(done := true)])
  {
    var n := t[id := t[id].(done := true)];
    assert forall x :: x in t ==> n[x].fingerprint == t[x].fingerprint;
    forall c, p | IsChild(n, c, p)
      ensures p in n && Broken(n[p]) && n[c].fingerprint == FingerprintOf(n, p, n[c].fingerprint.mesh)
    {
      assert IsChild(t, c, p);
    }
  }

  lemma StepKeepsGood(t: Table, e: Event)
    requires Good(t)
    ensures Good(Step(t, e))
  {
    match e
    case RowUpdate(id, u) => if id in t { UpdateKeepsGood(t, id, u); }
    case Deployed(id, symbol, account, name, mesh) =>
      CreateKeepsGood(t, id, symbol, Fingerprint(account, Deploy(name), mesh));
    case Redeployed(id, now, o) =>
      AttemptKeepsGood(t, id, now, o);
      if id in t { MarkKeepsGood(Attempted(t, id, now, o), id); }
    case RedeployedThenCrashed(id, now, o) => AttemptKeepsGood(t, id, now, o);
  }

  /** Over any interleaving of writers and crashes: a running bot has no close baseline, fingerprints
      are unique, and every re-deployed bot has a terminal parent that closed on a range break. */
  lemma {:induction false} EveryRunIsGood(events: seq<Event>)
    ensures Good(Run(map[], events))
  {
    if events != [] {
      EveryRunIsGood(events[..|events| - 1]);
      StepKeepsGood(Run(map[], events[..|events| - 1]), events[|events| - 1]);
    }
  }

  // ---- closing once --------------------------------------------------------------------------------------

  /** Left for good: no writer brings a remote bot back to running. */
  ghost predicate Left(t: Table, id: Id) {
    id in t && t[id].remote && !t[id].status.Running?
  }

  lemma StepOfRow(t: Table, e: Event, id: Id)
    requires Good(t) && id in t
    ensures id in Step(t, e)
    ensures Step(t, e)[id] == (if e.RowUpdate? && e.id == id then RowStep(t[id], e.update)
                               else t[id].(done := Step(t, e)[id].done))
  {
  }

  lemma RowStaysLeft(r: Row, u: Update)
    requires RowOk(r) && r.remote && !r.status.Running?
    ensures RowStep(r, u).remote && !RowStep(r, u).status.Running?
  {
  }

  lemma StepKeepsLeft(t: Table, e: Event, id: Id)
    requires Good(t) && Left(t, id)
    ensures Left(Step(t, e), id)
  {
    StepOfRow(t, e, id);
    if e.RowUpdate? && e.id == id {
      RowStaysLeft(t[id], e.update);
    }
  }

  /** The reason of a bot is that of the first to close it: a writer that takes it out of running gives
      its own, and afterwards it is only ever overwritten when a cancel finds the bot gone. */
  lemma ReasonIsFirst(r: Row, u: Update)
    requires RowOk(r)
    ensures r.remote && !r.status.Running? && r.reason.Some? && r.reason.value != "" ==>
              RowStep(r, u).reason in {r.reason, Some(ALREADY_CLOSED)}
    ensures r.status.Running? && (u.ManageClose? || u.FirstWriter? || u.OperatorClose? || u.Rotate?) ==>
              RowStep(r, u).status == StopRequested && RowStep(r, u).reason == Some(u.reason)
    ensures r.status.Running? && (u.ManageClose? || u.FirstWriter? || u.OperatorClose?) ==>
              RowStep(r, u).baseline == Some(u.total)
  {
  }

  /** Which bots each stop reaches: closers of a pass and first writers those that run, fleets and
      operators also what is still being submitted, the control plane everything with a remote id
      that has not ended; none of them touches a bot that has ended or takes a reason away. */
  lemma StopsReach(r: Row, u: Update)
    requires RowOk(r) && (u.FirstWriter? || u.FleetStop? || u.OperatorClose? || u.ControlStop? || u.Rotate?)
    ensures RowStep(r, u).status == StopRequested <==>
            || r.status == StopRequested
            || r.status == Running
            || (r.status in {PendingSubmission, SubmissionUnknown} && !u.FirstWriter? && !u.Rotate?)
            || (r.status in {Stopping, Failed} && r.remote && u.ControlStop?)
    ensures RowStep(r, u).status != StopRequested ==> RowStep(r, u) == r
    ensures (u.FleetStop? && r.reason.Some?) || u.ControlStop? ==> RowStep(r, u).reason == r.reason
  {
  }

  /** A re-deploy is queued, or queued again, exactly on a bot that is on its way out. */
  lemma QueueReaches(r: Row, price: real, now: int)
    ensures RowStep(r, QueueRedeploy(price, now)) ==
            if r.status in {StopRequested, Stopping} then r.(pendingAt := Some(now), breakPrice := Some(price)) else r
  {
  }

  /** How often a first-writer call on this bot succeeds along a run. */
  function Wins(t: Table, events: seq<Event>, id: Id): nat {
    if events == [] then 0
    else
      var before, e := Run(t, events[..|events| - 1]), events[|events| - 1];
      Wins(t, events[..|events| - 1], id)
      + if e.RowUpdate? && e.id == id && e.update.FirstWriter? && id in before && Applies(before[id], e.update)
        then 1 else 0
  }

  /** At most one first-writer call succeeds per bot, whatever else interleaves, and none after any
      other writer has closed it. */
  lemma {:induction false} OneFirstWriter(t: Table, events: seq<Event>, id: Id)
    requires Good(t)
    ensures Good(Run(t, events))
    ensures Wins(t, events, id) <= (if Left(t, id) then 0 else 1)
    ensures Left(t, id) || Wins(t, events, id) == 1 ==> Left(Run(t, events), id)
  {
    if events != [] {
      var front, e := events[..|events| - 1], events[|events| - 1];
      OneFirstWriter(t, front, id);
      StepKeepsGood(Run(t, front), e);
      if Left(Run(t, front), id) {
        StepKeepsLeft(Run(t, front), e, id);
      }
    }
  }

  lemma RowKeepsBaseline(r: Row, u: Update)
    requires RowOk(r) && r.baseline.Some?
    ensures RowStep(r, u).baseline == r.baseline
  {
  }

  lemma StepKeepsBaseline(t: Table, e: Event, id: Id)
    requires Good(t) && id in t && t[id].baseline.Some?
    ensures id in Step(t, e) && Step(t, e)[id].baseline == t[id].baseline
  {
    StepOfRow(t, e, id);
    if e.RowUpdate? { RowKeepsBaseline(t[id], e.update); }
  }

  /** The first recorded baseline is never changed. */
  lemma {:induction false} BaselineIsFinal(t: Table, events: seq<Event>, id: Id)
    requires Good(t) && id in t && t[id].baseline.Some?
    ensures Good(Run(t, events)) && id in Run(t, events) && Run(t, events)[id].baseline == t[id].baseline
  {
    if events != [] {
      var front, e := events[..|events| - 1], events[|events| - 1];
      BaselineIsFinal(t, front, id);
      StepKeepsGood(Run(t, front), e);
      StepKeepsBaseline(Run(t, front), e, id);
    }
  }

  /** A terminal row that is not reopenable keeps everything but the mark of its consumed intent,
      break price included. */
  lemma {:induction false} ClosedStaysClosed(t: Table, events: seq<Event>, id: Id)
    requires Good(t) && id in t && Terminal(t[id].status) && !Reopenable(t[id])
    ensures var n := Run(t, events);
            && Good(n) && id in n && n[id] == t[id].(done := n[id].done, visit := n[id].visit)
            && !Reopenable(n[id]) && (t[id].done ==> n[id].done)
  {
    if events != [] {
      var front, e := events[..|events| - 1], events[|events| - 1];
      ClosedStaysClosed(t, front, id);
      StepKeepsGood(Run(t, front), e);
      StepOfRow(Run(t, front), e, id);
      TerminalStep(Run(t, front)[id], if e.RowUpdate? then e.update else Leave);
    }
  }

  // ---- re-deploying once -----------------------------------------------------------------------------------

  ghost function Children(t: Table, parent: Id): set<Id> {
    set c | c in t && IsChild(t, c, parent)
  }

  ghost function Meshes(t: Table, parent: Id): set<Mesh> {
    set c | c in Children(t, parent) :: t[c].fingerprint.mesh
  }

  /** When an attempt adds a grid: the intent is due and admitted, the symbol is free, and no child
      of this bot was ever created with the same parameters. */
  ghost predicate Adds(t: Table, id: Id, now: int, o: Offer) {
    && id in t && o.child !in t && IntentVerdict(t[id], o.enabled, now).Attempt? && o.admitted
    && !Busy(t, t[id].fingerprint.account, t[id].symbol)
    && o.mesh !in Meshes(t, id)
  }

  lemma KnownExactly(t: Table, id: Id, mesh: Mesh)
    requires Good(t) && id in t && Broken(t[id])
    ensures Known(t, FingerprintOf(t, id, mesh)) <==> mesh in Meshes(t, id)
  {
    var f := FingerprintOf(t, id, mesh);
    if Known(t, f) {
      var c :| c in t && t[c].fingerprint == f;
      assert IsChild(t, c, id) && c in Children(t, id);
    }
    if mesh in Meshes(t, id) {
      var c :| c in Children(t, id) && t[c].fingerprint.mesh == mesh;
      assert IsChild(t, c, id);
    }
  }

  lemma DueIsBroken(r: Row, enabled: bool, now: int)
    requires RowOk(r) && IntentVerdict(r, enabled, now).Attempt?
    ensures Broken(r)
  {
  }

  /** The children of a bot grow by exactly the attempts that add one; in particular a second child
      needs an attempt on an intent whose mark was lost, after the first child has left the symbol,
      with parameters that differ from all earlier children. */
  lemma AttemptAddsExactly(t: Table, id: Id, now: int, o: Offer)
    requires Good(t)
    ensures Children(Attempted(t, id, now, o), id) == Children(t, id) + if Adds(t, id, now, o) then {o.child} else {}
    ensures Children(Marked(t, id, now, o), id) == Children(Attempted(t, id, now, o), id)
    ensures Adds(t, id, now, o) ==> o.child !in Children(t, id) && !t[id].done && Marked(t, id, now, o)[id].done
  {
    var n, m := Attempted(t, id, now, o), Marked(t, id, now, o);
    if id in t && IntentVerdict(t[id], o.enabled, now).Attempt? {
      DueIsBroken(t[id], o.enabled, now);
      KnownExactly(t, id, o.mesh);
    }
    forall c ensures c in Children(n, id) <==> c in Children(t, id) || (c == o.child && Adds(t, id, now, o)) {
      if c in t { assert c in n && n[c] == t[c]; }
    }
    forall c ensures c in Children(m, id) <==> c in Children(n, id) {
      assert (c in m <==> c in n) && (c in m ==> m[c].fingerprint == n[c].fingerprint);
    }
  }

  /** The intents that a pass takes up: bots that ended on a break less than two hours ago, with an
      intent that is not marked. */
  ghost predicate TakenUp(r: Row, now: int) {
    && r.status in {Stopped, Completed, Cancelled, Liquidated}
    && r.reason.Some? && r.reason.value in BREAK_REASONS && now - r.closedAt < 7200
    && r.pendingAt.Some? && !r.done
  }

  /** With the switch on, an intent less than two hours old and a positive break price. */
  ghost predicate Executable(r: Row, enabled: bool, now: int) {
    enabled && r.pendingAt.Some? && now - r.pendingAt.value < 7200 && r.breakPrice.Some? && r.breakPrice.value > 0.0
  }

  lemma VerdictExactly(r: Row, enabled: bool, now: int)
    ensures IntentVerdict(r, enabled, now).Skip? <==> !TakenUp(r, now)
    ensures IntentVerdict(r, enabled, now).Attempt? <==> TakenUp(r, now) && Executable(r, enabled, now)
    ensures IntentVerdict(r, enabled, now).Attempt? ==> Some(IntentVerdict(r, enabled, now).price) == r.breakPrice
  {
  }

  ghost predicate SymbolFree(t: Table, account: string, symbol: string) {
    forall x :: x in t && t[x].fingerprint.account == account && t[x].symbol == symbol
      ==> t[x].status in {Failed, Stopped, Completed, Cancelled, Liquidated}
  }

  /** No grid was ever created for this closed bot with this mesh. */
  ghost predicate MeshNew(t: Table, id: Id, mesh: Mesh) {
    forall c :: c in t && t[c].fingerprint.key.Redeploy? && t[c].fingerprint.key.parent == id
      ==> t[c].fingerprint.mesh != mesh
  }

  /** An attempt inserts a grid exactly when the intent is taken up and executable, the offer is
      admitted, the symbol is free and the mesh is new; it is then keyed by bot and break price. */
  lemma AttemptInsertsExactly(t: Table, id: Id, now: int, o: Offer)
    requires Good(t) && id in t && o.child !in t
    ensures var r, n := t[id], Attempted(t, id, now, o);
            && (o.child in n <==>
                  && TakenUp(r, now) && Executable(r, o.enabled, now) && o.admitted
                  && SymbolFree(t, r.fingerprint.account, r.symbol) && MeshNew(t, id, o.mesh))
            && (o.child !in n ==> n == t)
            && (o.child in n ==>
                  && n.Keys == t.Keys + {o.child} && (forall x :: x in t ==> n[x] == t[x])
                  && n[o.child].symbol == r.symbol && n[o.child].status == PendingSubmission
                  && n[o.child].fingerprint ==
                     Fingerprint(r.fingerprint.account, Redeploy(id, Micro(r.breakPrice.value)), o.mesh))
  {
    VerdictExactly(t[id], o.enabled, now);
    if IntentVerdict(t[id], o.enabled, now).Attempt? {
      DueIsBroken(t[id], o.enabled, now);
      KnownExactly(t, id, o.mesh);
      MeshNewExactly(t, id, o.mesh);
      FreeExactly(t, t[id].fingerprint.account, t[id].symbol);
    }
  }

  lemma MeshNewExactly(t: Table, id: Id, mesh: Mesh)
    ensures MeshNew(t, id, mesh) <==> mesh !in Meshes(t, id)
  {
    if !MeshNew(t, id, mesh) {
      var c :| c in t && t[c].fingerprint.key.Redeploy? && t[c].fingerprint.key.parent == id
                && t[c].fingerprint.mesh == mesh;
      assert c in Children(t, id);
    }
    if mesh in Meshes(t, id) {
      var c :| c in Children(t, id) && t[c].fingerprint.mesh == mesh;
      assert IsChild(t, c, id);
    }
  }

  lemma FreeExactly(t: Table, account: string, symbol: string)
    ensures SymbolFree(t, account, symbol) <==> !Busy(t, account, symbol)
  {
  }

  /** Every intent that a pass takes up is marked; one that is not executable is marked and nothing
      else happens; what is not taken up is left alone. */
  lemma PassConsumesExactly(t: Table, id: Id, now: int, o: Offer)
    requires id in t && o.child !in t
    ensures var n := Marked(t, id, now, o);
            && (TakenUp(t[id], now) ==> n[id] == t[id].(done := true))
            && (TakenUp(t[id], now) && !Executable(t[id], o.enabled, now) ==> n == t[id := t[id].(done := true)])
            && (!TakenUp(t[id], now) ==> n == t)
            && (o.child in n <==> o.child in Attempted(t, id, now, o))
  {
    VerdictExactly(t[id], o.enabled, now);
  }

  lemma SameChildren(t: Table, n: Table, id: Id)
    requires t.Keys == n.Keys && forall x :: x in t ==> t[x].fingerprint == n[x].fingerprint
    ensures Children(n, id) == Children(t, id)
  {
    assert forall c :: IsChild(n, c, id) <==> IsChild(t, c, id);
  }

  lemma CreatedChildren(t: Table, x: Id, symbol: string, f: Fingerprint, id: Id)
    requires !(f.key.Redeploy? && f.key.parent == id)
    ensures Children(Created(t, x, symbol, f), id) == Children(t, id)
  {
    assert forall c :: IsChild(Created(t, x, symbol, f), c, id) <==> IsChild(t, c, id);
  }

  lemma AttemptedChildren(t: Table, x: Id, now: int, o: Offer, id: Id)
    requires x != id
    ensures Children(Attempted(t, x, now, o), id) == Children(t, id)
  {
    if x in t && IntentVerdict(t[x], o.enabled, now).Attempt? {
      CreatedChildren(t, o.child, t[x].symbol, FingerprintOf(t, x, o.mesh), id);
    }
  }

  /** No other step touches the children of a bot. */
  lemma OthersAddNothing(t: Table, e: Event, id: Id)
    requires Good(t) && (e.RowUpdate? || e.Deployed? || e.id != id)
    ensures Children(Step(t, e), id) == Children(t, id)
  {
    match e
    case RowUpdate(x, u) =>
      if x in t { RowStepKeepsOk(t[x], u); }
      SameChildren(t, Step(t, e), id);
    case Deployed(x, symbol, account, name, mesh) =>
      CreatedChildren(t, x, symbol, Fingerprint(account, Deploy(name), mesh), id);
    case Redeployed(x, now, o) =>
      AttemptedChildren(t, x, now, o, id);
      SameChildren(Attempted(t, x, now, o), Marked(t, x, now, o), id);
    case RedeployedThenCrashed(x, now, o) => AttemptedChildren(t, x, now, o, id);
  }

  lemma ChildrenStep(t: Table, e: Event, id: Id)
    requires Good(t)
    ensures Children(Step(t, e), id) ==
            Children(t, id) + if (e.Redeployed? || e.RedeployedThenCrashed?) && e.id == id
                              && Adds(t, id, e.now, e.offer)
                              then {e.offer.child} else {}
  {
    match e
    case Redeployed(p, now, o) => if p == id { AttemptAddsExactly(t, id, now, o); } else { OthersAddNothing(t, e, id); }
    case RedeployedThenCrashed(p, now, o) =>
      if p == id { AttemptAddsExactly(t, id, now, o); } else { OthersAddNothing(t, e, id); }
    case _ => OthersAddNothing(t, e, id);
  }

  ghost predicate Disowned(t: Table, id: Id) {
    Left(t, id) && (t[id].reason.Some? ==> t[id].reason.value !in BREAK_REASONS)
  }

  lemma RowStaysDisowned(r: Row, u: Update)
    requires RowOk(r) && r.remote && !r.status.Running? && (r.reason.Some? ==> r.reason.value !in BREAK_REASONS)
    ensures RowStep(r, u).reason.Some? ==> RowStep(r, u).reason.value !in BREAK_REASONS
  {
    if u.Settle? {
      EndingsAreNoBreaks(u.ending);
    } else {
      EndingsAreNoBreaks(AlreadyClosed);
    }
  }

  lemma StepKeepsDisowned(t: Table, e: Event, id: Id)
    requires Good(t) && Disowned(t, id)
    ensures Disowned(Step(t, e), id) && Children(Step(t, e), id) == Children(t, id)
  {
    StepKeepsLeft(t, e, id);
    StepOfRow(t, e, id);
    if e.RowUpdate? { RowStaysDisowned(t[id], e.update); }
    ChildrenStep(t, e, id);
  }

  /** No child is ever created for a bot that left running without a break reason: for another
      reason, or, as the control plane stops it, for none. */
  lemma {:induction false} DisownedStaysChildless(t: Table, events: seq<Event>, id: Id)
    requires Good(t) && Disowned(t, id) && Children(t, id) == {}
    ensures var n := Run(t, events); Good(n) && Disowned(n, id) && Children(n, id) == {}
  {
    if events != [] {
      var front, e := events[..|events| - 1], events[|events| - 1];
      DisownedStaysChildless(t, front, id);
      StepKeepsGood(Run(t, front), e);
      StepKeepsDisowned(Run(t, front), e, id);
    }
  }

  /** No child is created before its parent is terminal. */
  lemma ChildNeedsTerminalParent(events: seq<Event>, id: Id)
    ensures var t := Run(map[], events); Children(t, id) != {} ==> id in t && Broken(t[id])
  {
    EveryRunIsGood(events);
    var t := Run(map[], events);
    if Children(t, id) != {} {
      var c :| c in Children(t, id);
      assert IsChild(t, c, id);
    }
  }

  lemma AddOne(s: set<Id>, x: Id)
    requires s == {}
    ensures |s + {x}| == 1
  {
    assert s + {x} == {x};
  }

  /** At most one child, and then its parent is marked. */
  ghost predicate OneMarked(t: Table, id: Id) {
    |Children(t, id)| <= 1 && (Children(t, id) != {} ==> id in t && t[id].done && Terminal(t[id].status))
  }

  lemma MarkedStays(t: Table, e: Event, id: Id)
    requires Good(t) && id in t && Broken(t[id]) && t[id].done
    ensures id in Step(t, e) && Broken(Step(t, e)[id]) && Step(t, e)[id].done
  {
    StepOfRow(t, e, id);
    BrokenIsFrozen(t[id], if e.RowUpdate? then e.update else Leave);
  }

  lemma StepKeepsOneMarked(t: Table, e: Event, id: Id)
    requires Good(t) && OneMarked(t, id) && !(e.RedeployedThenCrashed? && e.id == id)
    ensures OneMarked(Step(t, e), id)
  {
    ChildrenStep(t, e, id);
    if Children(t, id) != {} {
      var c :| c in Children(t, id);
      assert IsChild(t, c, id);
      MarkedStays(t, e, id);
    } else if e.Redeployed? && e.id == id && Adds(t, id, e.now, e.offer) {
      AttemptAddsExactly(t, id, e.now, e.offer);
      AddOne(Children(t, id), e.offer.child);
      StepOfRow(t, e, id);
    }
  }

  /** Without a crash between create and mark, every closed bot yields at most one child. */
  lemma {:induction false} NoCrashOneChild(events: seq<Event>, id: Id)
    requires forall i :: 0 <= i < |events| ==> !(events[i].RedeployedThenCrashed? && events[i].id == id)
    ensures var t := Run(map[], events);
            |Children(t, id)| <= 1 && (Children(t, id) != {} ==> id in t && t[id].done && Terminal(t[id].status))
  {
    if events != [] {
      var front, e := events[..|events| - 1], events[|events| - 1];
      NoCrashOneChild(front, id);
      EveryRunIsGood(front);
      StepKeepsOneMarked(Run(map[], front), e, id);
    }
  }

  /** With crashes anywhere, a bot whose attempts all ask for the same parameters yields at most
      one child: a repeated attempt finds the fingerprint of the first. */
  lemma {:induction false} SameMeshOneChild(events: seq<Event>, id: Id, mesh: Mesh)
    requires forall i :: 0 <= i < |events| && (events[i].Redeployed? || events[i].RedeployedThenCrashed?)
               && events[i].id == id
               ==> events[i].offer.mesh == mesh
    ensures var t := Run(map[], events); |Children(t, id)| <= 1 && Meshes(t, id) <= {mesh}
  {
    if events != [] {
      var front, e := events[..|events| - 1], events[|events| - 1];
      var t := Run(map[], front);
      SameMeshOneChild(front, id, mesh);
      EveryRunIsGood(front);
      EveryRunIsGood(events);
      ChildrenStep(t, e, id);
      SameMeshStep(t, e, id, mesh);
    }
  }

  lemma NewMesh(t: Table, id: Id, now: int, o: Offer)
    requires Good(t) && Adds(t, id, now, o)
    ensures o.child in Attempted(t, id, now, o) && o.child in Marked(t, id, now, o)
    ensures Attempted(t, id, now, o)[o.child].fingerprint.mesh == o.mesh
    ensures Marked(t, id, now, o)[o.child].fingerprint.mesh == o.mesh
  {
    DueIsBroken(t[id], o.enabled, now);
    KnownExactly(t, id, o.mesh);
  }

  lemma NoMeshNoChild(t: Table, id: Id)
    ensures Children(t, id) != {} ==> Meshes(t, id) != {}
  {
    if Children(t, id) != {} {
      var c :| c in Children(t, id);
      assert t[c].fingerprint.mesh in Meshes(t, id);
    }
  }

  lemma FingerprintIsFixed(t: Table, e: Event, c: Id)
    requires Good(t) && c in t
    ensures c in Step(t, e) && Step(t, e)[c].fingerprint == t[c].fingerprint
  {
    StepOfRow(t, e, c);
  }

  lemma SameChildrenSameMeshes(t: Table, e: Event, id: Id)
    requires Good(t) && Children(Step(t, e), id) == Children(t, id)
    ensures Meshes(Step(t, e), id) == Meshes(t, id)
  {
    forall c | c in Children(t, id) ensures c in Step(t, e) && Step(t, e)[c].fingerprint == t[c].fingerprint {
      FingerprintIsFixed(t, e, c);
    }
  }

  lemma SameMeshStep(t: Table, e: Event, id: Id, mesh: Mesh)
    requires Good(t) && |Children(t, id)| <= 1 && Meshes(t, id) <= {mesh}
    requires (e.Redeployed? || e.RedeployedThenCrashed?) && e.id == id ==> e.offer.mesh == mesh
    ensures |Children(Step(t, e), id)| <= 1 && Meshes(Step(t, e), id) <= {mesh}
  {
    ChildrenStep(t, e, id);
    if (e.Redeployed? || e.RedeployedThenCrashed?) && e.id == id && Adds(t, id, e.now, e.offer) {
      assert Meshes(t, id) == {};
      NoMeshNoChild(t, id);
      AddOne(Children(t, id), e.offer.child);
      NewMesh(t, id, e.now, e.offer);
      OnlyMesh(Step(t, e), id, e.offer.child);
    } else {
      SameChildrenSameMeshes(t, e, id);
    }
  }

  lemma OnlyMesh(t: Table, id: Id, c: Id)
    requires Children(t, id) == {c}
    ensures Meshes(t, id) == {t[c].fingerprint.mesh}
  {
    assert c in Children(t, id);
  }

  lemma Extended(t: Table, events: seq<Event>, e: Event)
    ensures Run(t, events + [e]) == Step(Run(t, events), e)
  {
    assert (events + [e])[..|events|] == events;
  }

  ghost function ParentRow(m: Mesh): Row {
    Row("BTC", Stopped, true, Some("RANGE_BREAK_DOWN"), Some(-1.0), Some(0), Some(100.0), false, 30,
        Fingerprint("main", Deploy("first"), m), Away)
  }

  ghost function ChildRow(status: Status, m: Mesh): Row {
    Row("BTC", status, status != PendingSubmission, if status.Stopped? then Some("MANUAL") else None,
        if status.Stopped? then Some(0.0) else None, None, None, false, if status.Stopped? then 90 else 0,
        Fingerprint("main", Redeploy(0, Micro(100.0)), m), Away)
  }

  ghost function FirstRow(m: Mesh): Row {
    Row("BTC", PendingSubmission, false, None, None, None, None, false, 0,
        Fingerprint("main", Deploy("first"), m), Away)
  }

  /** The first bot of the concrete runs, up and running. */
  lemma FirstRuns(m: Mesh) returns (events: seq<Event>)
    ensures Run(map[], events) == map[0 := FirstRow(m).(status := Running, remote := true)]
  {
    var deploy, persist := Deployed(0, "BTC", "main", "first", m), RowUpdate(0, Persist);
    Extended(map[], [], deploy);
    assert Run(map[], [] + [deploy]) == map[0 := FirstRow(m)];
    Extended(map[], [] + [deploy], persist);
    events := [] + [deploy] + [persist];
  }

  /** One more update of one row. */
  lemma Updated(events: seq<Event>, t: Table, id: Id, u: Update) returns (more: seq<Event>)
    requires Run(map[], events) == t && id in t
    ensures more == events + [RowUpdate(id, u)] && Run(map[], more) == t[id := RowStep(t[id], u)]
  {
    Extended(map[], events, RowUpdate(id, u));
    more := events + [RowUpdate(id, u)];
  }

  /** A bot that closed on a break, with its re-deploy queued and settled. */
  lemma BreakClose(m: Mesh) returns (events: seq<Event>)
    ensures Run(map[], events) == map[0 := ParentRow(m)]
  {
    events := FirstRuns(m);
    events := Updated(events, Run(map[], events), 0, FirstWriter("RANGE_BREAK_DOWN", -1.0));
    events := Updated(events, Run(map[], events), 0, QueueRedeploy(100.0, 0));
    events := Updated(events, Run(map[], events), 0, List);
    events := Updated(events, Run(map[], events), 0, Settle(UserCancel, 30));
    assert Run(map[], events) == map[0 := ParentRow(m)];
  }

  /** Its re-deploy creates a child, then the worker crashes. */
  lemma ChildCreated(m: Mesh, m1: Mesh) returns (events: seq<Event>)
    ensures Run(map[], events) == map[0 := ParentRow(m), 1 := ChildRow(PendingSubmission, m1)]
  {
    var before := BreakClose(m);
    var t := map[0 := ParentRow(m)];
    var retry := RedeployedThenCrashed(0, 60, Offer(true, true, m1, 1));
    Extended(map[], before, retry);
    assert "RANGE_BREAK_DOWN" in BREAK_REASONS;
    assert IntentVerdict(t[0], true, 60) == Attempt(100.0);
    events := before + [retry];
  }

  /** An operator closes the child. */
  lemma ClosedChild(m: Mesh, m1: Mesh) returns (events: seq<Event>)
    ensures Run(map[], events) == map[0 := ParentRow(m), 1 := ChildRow(Stopped, m1)]
  {
    events := ChildCreated(m, m1);
    var t := map[0 := ParentRow(m), 1 := ChildRow(PendingSubmission, m1)];
    var running := RowStep(t[1], Persist);
    events := Updated(events, t, 1, Persist);
    var asked := RowStep(running, OperatorClose("MANUAL", 0.0));
    events := Updated(events, t[1 := running], 1, OperatorClose("MANUAL", 0.0));
    var listed := RowStep(asked, List);
    events := Updated(events, t[1 := asked], 1, List);
    events := Updated(events, t[1 := listed], 1, Settle(UserCancel, 90));
    assert RowStep(listed, Settle(UserCancel, 90)) == ChildRow(Stopped, m1);
  }

  /** Within two hours of the close the intent, whose mark was lost, is attempted again; by then the
      mesh has moved, the fingerprint differs, and a second child is created. */
  lemma SecondChildAfterCrash(m: Mesh, m1: Mesh, m2: Mesh) returns (events: seq<Event>)
    requires m1 != m2
    ensures Children(Run(map[], events), 0) == {1, 2}
  {
    var before := ClosedChild(m, m1);
    var retry := Redeployed(0, 120, Offer(true, true, m2, 2));
    var t := Run(map[], before);
    EveryRunIsGood(before);
    Extended(map[], before, retry);
    events := before + [retry];
    assert IsChild(t, 1, 0) && Children(t, 0) == {1};
    assert "RANGE_BREAK_DOWN" in BREAK_REASONS;
    assert IntentVerdict(t[0], true, 120) == Attempt(100.0);
    OnlyMesh(t, 0, 1);
    ChildrenStep(t, retry, 0);
  }

  // ---- one active grid per symbol ------------------------------------------------------------------------------

  ghost predicate Rivals(t: Table, a: Id, b: Id) {
    && a != b && a in t && b in t && Active(t[a].status) && Active(t[b].status)
    && t[a].fingerprint.account == t[b].fingerprint.account && t[a].symbol == t[b].symbol
  }

  ghost predicate OneActive(t: Table) {
    forall a, b :: !Rivals(t, a, b)
  }

  /** The writers that make an inactive row active again: the answer to a create that arrives after the
      row was written off, the control-plane stop of a bot that failed at the exchange, and the
      remote state read after the cancel of the same visit found the bot gone. */
  predicate Revives(r: Row, u: Update) {
    if r.status.Failed? then
      if r.remote then u.ControlStop? else u.Persist? || (u.CreateFailed? && u.unknown)
    else Reopenable(r) && u.Reconcile?
  }

  lemma RevivesExactly(r: Row, u: Update)
    requires RowOk(r)
    ensures !Active(r.status) && Active(RowStep(r, u).status) <==> Revives(r, u)
  {
  }

  /** A writer keeps one active grid per account and symbol exactly unless it revives a row on a symbol
      that was taken meanwhile. */
  lemma UpdateKeepsOneActiveExactly(t: Table, id: Id, u: Update)
    requires Good(t) && OneActive(t) && id in t
    ensures OneActive(Step(t, RowUpdate(id, u)))
            <==> !(Revives(t[id], u) && Busy(t, t[id].fingerprint.account, t[id].symbol))
  {
    var n := Step(t, RowUpdate(id, u));
    var account, symbol := t[id].fingerprint.account, t[id].symbol;
    RowStepKeepsOk(t[id], u);
    RevivesExactly(t[id], u);
    if Revives(t[id], u) && Busy(t, account, symbol) {
      var b :| b in t && Active(t[b].status) && t[b].fingerprint.account == account && t[b].symbol == symbol;
      assert Rivals(n, id, b);
    } else {
      forall a, b ensures !Rivals(n, a, b) {
        assert !Rivals(t, a, b);
      }
    }
  }

  lemma CreateKeepsOneActive(t: Table, id: Id, symbol: string, f: Fingerprint)
    requires OneActive(t)
    ensures OneActive(Created(t, id, symbol, f))
  {
    forall a, b ensures !Rivals(Created(t, id, symbol, f), a, b) {
      assert !Rivals(t, a, b);
    }
  }

  lemma RedeployKeepsOneActive(t: Table, id: Id, now: int, o: Offer)
    requires Good(t) && OneActive(t)
    ensures OneActive(Attempted(t, id, now, o)) && OneActive(Marked(t, id, now, o))
  {
    if id in t && IntentVerdict(t[id], o.enabled, now).Attempt? {
      CreateKeepsOneActive(t, o.child, t[id].symbol, FingerprintOf(t, id, o.mesh));
    }
    forall a, b ensures !Rivals(Marked(t, id, now, o), a, b) {
      assert !Rivals(Attempted(t, id, now, o), a, b);
    }
  }

  /** No row is revived along a run. */
  ghost predicate Timely(t: Table, events: seq<Event>) {
    forall i :: 0 <= i < |events| && events[i].RowUpdate? && events[i].id in Run(t, events[..i])
      ==> !Revives(Run(t, events[..i])[events[i].id], events[i].update)
  }

  /** Over any interleaving that revives no row, re-deploys and crashes included, each account
      has at most one active grid per symbol. */
  lemma {:induction false} OneActivePerSymbol(events: seq<Event>)
    requires Timely(map[], events)
    ensures OneActive(Run(map[], events))
  {
    if events != [] {
      var front, e := events[..|events| - 1], events[|events| - 1];
      var t := Run(map[], front);
      assert forall i :: 0 <= i < |front| ==> front[..i] == events[..i];
      OneActivePerSymbol(front);
      EveryRunIsGood(front);
      match e
      case RowUpdate(id, u) => if id in t { UpdateKeepsOneActiveExactly(t, id, u); }
      case Deployed(id, symbol, account, name, mesh) =>
        CreateKeepsOneActive(t, id, symbol, Fingerprint(account, Deploy(name), mesh));
      case Redeployed(id, now, o) => RedeployKeepsOneActive(t, id, now, o);
      case RedeployedThenCrashed(id, now, o) => RedeployKeepsOneActive(t, id, now, o);
    }
  }

  /** A second grid on the symbol of an inactive first one. */
  lemma SecondDeployed(events: seq<Event>, m: Mesh, first: Row) returns (more: seq<Event>)
    requires Run(map[], events) == map[0 := first] && !Active(first.status)
    requires first.fingerprint == FirstRow(m).fingerprint
    ensures events <= more && Run(map[], more) ==
            map[0 := first, 1 := FirstRow(m).(fingerprint := Fingerprint("main", Deploy("second"), m))]
  {
    Extended(map[], events, Deployed(1, "BTC", "main", "second", m));
    more := events + [Deployed(1, "BTC", "main", "second", m)];
  }

  lemma WrittenOff(m: Mesh) returns (events: seq<Event>)
    ensures var reason := Some("NOT_CREATED_ON_EXCHANGE");
            Run(map[], events) == map[0 := FirstRow(m).(status := Failed, reason := reason, closedAt := 300)]
  {
    var deploy := Deployed(0, "BTC", "main", "first", m);
    Extended(map[], [], deploy);
    events := [] + [deploy];
    assert Run(map[], events) == map[0 := FirstRow(m)];
    events := Updated(events, map[0 := FirstRow(m)], 0, ClearUnknown(300));
  }

  /** A submission written off after its grace period, a new grid on the symbol, and then the answer
      to the first create: two active grids. */
  lemma LateAnswerDoubles(m: Mesh) returns (events: seq<Event>)
    ensures Rivals(Run(map[], events), 0, 1)
  {
    events := WrittenOff(m);
    events := SecondDeployed(events, m, Run(map[], events)[0]);
    events := Updated(events, Run(map[], events), 0, Persist);
  }

  /** A bot that failed at the exchange, a new grid on the symbol, and then a control-plane stop of
      the failed bot: two active grids. */
  lemma StopOfFailedDoubles(m: Mesh) returns (events: seq<Event>)
    ensures Rivals(Run(map[], events), 0, 1)
  {
    events := FirstRuns(m);
    events := Updated(events, Run(map[], events), 0, List);
    events := Updated(events, Run(map[], events), 0, Settle(RemoteFailed, 60));
    events := SecondDeployed(events, m, Run(map[], events)[0]);
    events := Updated(events, Run(map[], events), 0, ControlStop);
  }

  /** A stop request whose cancel finds the bot gone, a new grid on the symbol, and then, in the same
      visit, a remote state that is only closing: the stopped row is reopened, and two grids are
      active. */
  lemma ReopenedDoubles(m: Mesh) returns (events: seq<Event>)
    ensures Rivals(Run(map[], events), 0, 1)
  {
    events := CancelledAsGone(m);
    events := SecondDeployed(events, m, GoneRow(m));
    events := Updated(events, Run(map[], events), 0, Reconcile);
  }

  ghost function GoneRow(m: Mesh): Row {
    FirstRow(m).(status := Stopped, remote := true, reason := Some(ALREADY_CLOSED), baseline := Some(0.0),
    closedAt := 60, visit := Visiting(StopRequested, false, Gone))
  }

  lemma CancelledAsGone(m: Mesh) returns (events: seq<Event>)
    ensures Run(map[], events) == map[0 := GoneRow(m)]
  {
    events := FirstRuns(m);
    var running := FirstRow(m).(status := Running, remote := true);
    var asked := RowStep(running, OperatorClose("MANUAL", 0.0));
    events := Updated(events, map[0 := running], 0, OperatorClose("MANUAL", 0.0));
    var listed := RowStep(asked, List);
    events := Updated(events, map[0 := asked], 0, List);
    var sent := RowStep(listed, CancelSubmit);
    events := Updated(events, map[0 := listed], 0, CancelSubmit);
    events := Updated(events, map[0 := sent], 0, CancelGone(60));
    assert RowStep(sent, CancelGone(60)) == GoneRow(m);
  }

  // ---- the table ---------------------------------------------------------------------------------------------------

  class GridTable {
    var rows: Table

    constructor ()
      ensures rows == map[]
    {
      rows := map[];
    }

    /** Any supervised writer may ask for the close; only the first records reason and baseline. */
    method RecordCloseIntent(id: Id, reason: string, total: real) returns (affected: bool)
      modifies this
      ensures rows == if id in old(rows) then old(rows)[id := Closed(old(rows)[id], reason, total)] else old(rows)
      ensures id in old(rows) && old(rows)[id].remote ==>
                rows == Step(old(rows), RowUpdate(id, ManageClose(reason, total)))
      ensures affected <==> id in old(rows) && (old(rows)[id].status.Running? || Closing(old(rows)[id].status))
    {
      affected := id in rows &&
                  (rows[id].status.Running? || rows[id].status.StopRequested? || rows[id].status.Stopping?);
      if affected {
        var r := rows[id];
        if r.baseline.None? {
          rows := rows[id := rows[id].(baseline := Some(total))];
        }
        if r.status.Running? {
          rows := rows[id := rows[id].(status := StopRequested, reason := Some(reason))];
        }
      }
    }

    /** Succeeds only for the writer that takes the bot out of running. */
    method RecordCloseIntentFirstWriter(id: Id, reason: string, total: real) returns (affected: bool)
      modifies this
      ensures rows == Step(old(rows), RowUpdate(id, FirstWriter(reason, total)))
      ensures affected <==> id in old(rows) && old(rows)[id].status.Running?
    {
      affected := id in rows && rows[id].status.Running?;
      if affected {
        rows := rows[id := rows[id].(status := StopRequested, reason := Some(reason), baseline := Some(total))];
      }
    }

    method QueueRealRedeploy(id: Id, price: real, now: int)
      modifies this
      ensures rows == Step(old(rows), RowUpdate(id, QueueRedeploy(price, now)))
    {
      if id in rows && (rows[id].status.StopRequested? || rows[id].status.Stopping?) {
        rows := rows[id := rows[id].(pendingAt := Some(now), breakPrice := Some(price))];
      }
    }

    method MarkDone(id: Id)
      requires id in rows
      modifies this
      ensures rows == old(rows)[id := old(rows[id]).(done := true)]
    {
      rows := rows[id := rows[id].(done := true)];
    }

    /** Refuses a busy symbol and replays a known fingerprint. */
    method CreateGridBot(id: Id, symbol: string, f: Fingerprint)
      requires id !in rows
      modifies this
      ensures rows == Created(old(rows), id, symbol, f)
    {
      if !Busy(rows, f.account, symbol) && !Known(rows, f) {
        rows := rows[id := Row(symbol, PendingSubmission, false, None, None, None, None, false, 0, f, Away)];
      }
    }

    /** One attempt, then the mark, whatever the outcome. */
    method ProcessIntent(id: Id, now: int, offer: Offer)
      requires id in rows && !IntentVerdict(rows[id], offer.enabled, now).Skip? && offer.child !in rows
      modifies this
      ensures rows == Marked(old(rows), id, now, offer)
    {
      match IntentVerdict(rows[id], offer.enabled, now) {
        case Attempt(price) =>
          if offer.admitted {
            var f := Fingerprint(rows[id].fingerprint.account, Redeploy(id, Micro(price)), offer.mesh);
            CreateGridBot(offer.child, rows[id].symbol, f);
          }
        case _ =>
      }
      MarkDone(id);
    }

    /** One pass over the due intents: each is attempted at most once and then consumed. The verdict
        on a row is taken when the pass starts. */
    method ProcessRedeployIntents(due: seq<Id>, now: int, offers: seq<Offer>)
      requires |due| <= 5 && Due(rows, due, now, offers)
      modifies this
      ensures rows == Run(old(rows), Pass(due, now, offers))
      ensures forall i :: 0 <= i < |due| ==> due[i] in rows && rows[due[i]] == old(rows)[due[i]].(done := true)
      ensures forall c :: c in rows && c !in old(rows) ==> Justified(old(rows), due, now, offers, |due|, c)
    {
      ghost var start := rows;
      var i := 0;
      while i < |due|
        invariant 0 <= i <= |due| && PassAt(start, rows, due, now, offers, i)
      {
        ghost var before := rows;
        ProcessIntent(due[i], now, offers[i]);
        PassStep(start, before, due, now, offers, i);
        i := i + 1;
      }
      assert due[..i] == due && offers[..i] == offers;
    }
  }

  /** The due intents of one pass, distinct, with a fresh identifier for each child. */
  predicate Due(t: Table, due: seq<Id>, now: int, offers: seq<Offer>) {
    && |due| == |offers|
    && (forall i :: 0 <= i < |due| ==> due[i] in t && !IntentVerdict(t[due[i]], offers[i].enabled, now).Skip?)
    && (forall i :: 0 <= i < |due| ==> offers[i].child !in t)
    && (forall i, j :: 0 <= i < j < |due| ==> due[i] != due[j] && offers[i].child != offers[j].child)
  }

  /** A new row is the child of one of the first `n` intents, which was executable and admitted. */
  ghost predicate Justified(t: Table, due: seq<Id>, now: int, offers: seq<Offer>, n: nat, c: Id) {
    exists i :: 0 <= i < n && i < |due| && i < |offers| && offers[i].child == c && due[i] in t
                && Executable(t[due[i]], offers[i].enabled, now) && offers[i].admitted
  }

  ghost predicate PassAt(start: Table, t: Table, due: seq<Id>, now: int, offers: seq<Offer>, i: nat) {
    && Due(start, due, now, offers) && i <= |due|
    && t == Run(start, Pass(due[..i], now, offers[..i]))
    && (forall k :: 0 <= k < i ==> due[k] in t && t[due[k]] == start[due[k]].(done := true))
    && (forall k :: i <= k < |due| ==> due[k] in t && t[due[k]] == start[due[k]] && offers[k].child !in t)
    && forall c :: c in t && c !in start ==> Justified(start, due, now, offers, i, c)
  }

  lemma PassStep(start: Table, t: Table, due: seq<Id>, now: int, offers: seq<Offer>, i: nat)
    requires i < |due| && PassAt(start, t, due, now, offers, i)
    ensures PassAt(start, Marked(t, due[i], now, offers[i]), due, now, offers, i + 1)
  {
    MarkedTouches(t, due[i], now, offers[i]);
    RunOfPass(start, due, now, offers, i);
    var n := Marked(t, due[i], now, offers[i]);
    forall k | 0 <= k < i + 1 ensures due[k] in n && n[due[k]] == start[due[k]].(done := true) {
      if k < i { assert due[k] != due[i]; }
    }
    forall k | i + 1 <= k < |due| ensures due[k] in n && n[due[k]] == start[due[k]] && offers[k].child !in n {
      assert due[i] != due[k] && offers[i].child != offers[k].child;
    }
    VerdictExactly(t[due[i]], offers[i].enabled, now);
    forall c | c in n && c !in start ensures Justified(start, due, now, offers, i + 1, c) {
      if c in t { assert Justified(start, due, now, offers, i, c); }
    }
  }

  lemma MarkedTouches(t: Table, id: Id, now: int, o: Offer)
    requires id in t && !IntentVerdict(t[id], o.enabled, now).Skip?
    ensures var n := Marked(t, id, now, o);
            && n.Keys <= t.Keys + {o.child} && id in n && n[id] == t[id].(done := true)
            && forall x :: x in t && x != id ==> x in n && n[x] == t[x]
  {
  }

  function Pass(due: seq<Id>, now: int, offers: seq<Offer>): seq<Event>
    requires |due| == |offers|
  {
    seq(|due|, i requires 0 <= i < |due| => Redeployed(due[i], now, offers[i]))
  }

  lemma RunOfPass(t: Table, due: seq<Id>, now: int, offers: seq<Offer>, i: nat)
    requires |due| == |offers| && i < |due|
    ensures Run(t, Pass(due[..i + 1], now, offers[..i + 1]))
            == Step(Run(t, Pass(due[..i], now, offers[..i])), Redeployed(due[i], now, offers[i]))
  {
    assert Pass(due[..i + 1], now, offers[..i + 1])
           == Pass(due[..i], now, offers[..i]) + [Redeployed(due[i], now, offers[i])];
    Extended(t, Pass(due[..i], now, offers[..i]), Redeployed(due[i], now, offers[i]));
  }
}
