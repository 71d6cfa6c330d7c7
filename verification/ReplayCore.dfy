/** Re-judging one recorded gate chain under one changed threshold.

    A recording lists what each gate of the chain said.  Replay changes the verdict of one
    gate; gates that were never evaluated stay unknown.
 */
module ReplayCore {
  import opened Common

  datatype Verdict = PASS | REJECT | WAIT | EXEMPT | NOT_EVALUATED | UNKNOWN

  datatype Outcome = ALLOW | DEFER | DENY

  datatype Direction = Gte | Lte | NotPinned

  /** One gate of a recorded chain.  `hasInputs` is false for an entry without recorded inputs;
      a zero `threshold` means that the threshold, if any, is among the inputs. */
  datatype Entry = Entry(
    gate: string, verdict: Verdict, threshold: real,
    hasInputs: bool, inThreshold: Option<real>, inValue: Option<real>, inRatio: Option<real>, direction: Direction)

  datatype Cause = NoCause | GateNotInTrace | InputsMissing | ThresholdNotStored | ChainNotRecorded | InconsistentTrace

  datatype Facts = Facts(value: real, threshold: real, gte: bool) | NoFacts(cause: Cause)

  /** An empty gate name asks for validation of the recording. */
  datatype Override = Override(gate: string, threshold: Option<real>)

  /** `outcome` is `None` when the new outcome of the chain is not known. */
  datatype Replay = Replay(replayable: bool, outcome: Option<Outcome>, followed: bool, cause: Cause, gateChanged: bool)

  function NotReplayable(cause: Cause, gateChanged: bool): Replay {
    Replay(false, None, false, cause, gateChanged)
  }

  function GateFacts(e: Entry): Facts {
    if !e.hasInputs then NoFacts(InputsMissing)
    else
      var threshold := if e.threshold != 0.0 then e.threshold
                       else if e.inThreshold.Some? then e.inThreshold.value else 0.0;
      var value := if e.inValue.Some? then e.inValue else e.inRatio;
      if threshold == 0.0 then NoFacts(ThresholdNotStored)
      else if value.None? || e.direction.NotPinned? then NoFacts(InputsMissing)
      else Facts(value.value, threshold, e.direction.Gte?)
  }

  predicate Rejects(value: real, threshold: real, gte: bool) {
    if gte then value >= threshold else value <= threshold
  }

  /** A gate can be re-judged exactly when it recorded inputs, a threshold on the entry or else among
      them, a value or else a ratio, and the direction of its comparison; a missing threshold is
      named first. */
  lemma FactsExactly(e: Entry)
    ensures var f := GateFacts(e);
            var stored := e.threshold != 0.0 || (e.inThreshold.Some? && e.inThreshold.value != 0.0);
            && (f.Facts? <==> e.hasInputs && stored && (e.inValue.Some? || e.inRatio.Some?) && !e.direction.NotPinned?)
            && (f.NoFacts? ==> f.cause == if e.hasInputs && !stored then ThresholdNotStored else InputsMissing)
            && (f.Facts? ==>
                  && (f.gte <==> e.direction.Gte?)
                  && (e.threshold != 0.0 ==> f.threshold == e.threshold)
                  && (e.threshold == 0.0 ==> Some(f.threshold) == e.inThreshold)
                  && (e.inValue.Some? ==> Some(f.value) == e.inValue)
                  && (e.inValue.None? ==> Some(f.value) == e.inRatio))
  {
  }

  /** Thresholds reject on their own value: a "gte" gate from the threshold up, an "lte" gate from it
      down. */
  lemma BothRejectAtTheThreshold(value: real, threshold: real)
    ensures Rejects(value, threshold, true) && Rejects(value, threshold, false) <==> value == threshold
    ensures Rejects(value, threshold, true) <==> threshold <= value
    ensures Rejects(value, threshold, true) || Rejects(value, threshold, false)
  {
  }

  // ---- what replay is expected to answer ----------------------------------------------

  /** A recorded threshold decision that its own numbers do not support. */
  predicate Contradicts(e: Entry) {
    var f := GateFacts(e);
    f.Facts? && (e.verdict.PASS? || e.verdict.REJECT?) && Rejects(f.value, f.threshold, f.gte) != e.verdict.REJECT?
  }

  ghost predicate Contains(trace: seq<Entry>, v: Verdict) {
    exists i :: 0 <= i < |trace| && trace[i].verdict == v
  }

  /** The outcome of a chain: a rejecting gate decides, else a deferring one, else it is open. */
  ghost function ChainOutcome(trace: seq<Entry>): Outcome {
    if Contains(trace, REJECT) then DENY else if Contains(trace, WAIT) then DEFER else ALLOW
  }

  ghost function Validated(trace: seq<Entry>, base: Outcome): Replay {
    if trace == [] then NotReplayable(ChainNotRecorded, false)
    else if exists i :: 0 <= i < |trace| && Contradicts(trace[i]) then NotReplayable(InconsistentTrace, false)
    else Replay(true, Some(base), true, NoCause, false)
  }

  /** The recorded remainder is the only evidence about the gates after an overridden rejection. */
  ghost function AfterUnblocking(remainder: seq<Entry>): Replay {
    if remainder == [] then NotReplayable(ChainNotRecorded, true)
    else if Contains(remainder, REJECT) then Replay(true, Some(DENY), true, NoCause, true)
    else if Contains(remainder, NOT_EVALUATED) then Replay(true, None, false, NoCause, true)
    else Replay(true, Some(ChainOutcome(remainder)), true, NoCause, true)
  }

  ghost function Judged(trace: seq<Entry>, base: Outcome, at: nat, override: Override): Replay
    requires at < |trace|
  {
    var target := trace[at];
    var f := GateFacts(target);
    if target.verdict.EXEMPT? then NotReplayable(ThresholdNotStored, false)
    else if target.verdict.NOT_EVALUATED? then NotReplayable(InputsMissing, false)
    else if f.NoFacts? then NotReplayable(f.cause, false)
    else if override.threshold.None? then NotReplayable(ThresholdNotStored, false)
    else
      var rejects := Rejects(f.value, override.threshold.value, f.gte);
      if rejects == target.verdict.REJECT? then Replay(true, Some(base), true, NoCause, false)
      else if rejects then Replay(true, Some(DENY), true, NoCause, true)
      else AfterUnblocking(trace[at + 1..])
  }

  /** The first entry of `gate` at or after `from`, or the length of the trace. */
  function FirstIndex(trace: seq<Entry>, gate: string, from: nat): (at: nat)
    requires from <= |trace|
    ensures from <= at <= |trace|
    ensures forall i :: from <= i < at ==> trace[i].gate != gate
    ensures at < |trace| ==> trace[at].gate == gate
    decreases |trace| - from
  {
    if from == |trace| || trace[from].gate == gate then from else FirstIndex(trace, gate, from + 1)
  }

  /** The replay of a whole trace: validation, or judgement of the first entry of the gate. */
  ghost function Replayed(trace: seq<Entry>, base: Outcome, override: Override): Replay {
    if override.gate == "" then Validated(trace, base)
    else
      var at := FirstIndex(trace, override.gate, 0);
      if at == |trace| then NotReplayable(GateNotInTrace, false) else Judged(trace, base, at, override)
  }

  // ---- the algorithm --------------------------------------------------------------------

  method Validate(trace: seq<Entry>, base: Outcome) returns (r: Replay)
    ensures r == Validated(trace, base)
  {
    if |trace| == 0 {
      return NotReplayable(ChainNotRecorded, false);
    }
    var i := 0;
    while i < |trace|
      invariant 0 <= i <= |trace|
      invariant forall j :: 0 <= j < i ==> !Contradicts(trace[j])
    {
      var f := GateFacts(trace[i]);
      if f.Facts? && (trace[i].verdict.PASS? || trace[i].verdict.REJECT?) {
        if Rejects(f.value, f.threshold, f.gte) != trace[i].verdict.REJECT? {
          assert Contradicts(trace[i]);
          return NotReplayable(InconsistentTrace, false);
        }
      }
      i := i + 1;
    }
    r := Replay(true, Some(base), true, NoCause, false);
  }

  method WalkRemainder(remainder: seq<Entry>) returns (r: Replay)
    ensures r == AfterUnblocking(remainder)
  {
    if |remainder| == 0 {
      return NotReplayable(ChainNotRecorded, true);
    }
    var outcome, followed := ALLOW, true;
    var i := 0;
    while i < |remainder|
      invariant 0 <= i <= |remainder|
      invariant !Contains(remainder[..i], REJECT)
      invariant followed <==> !Contains(remainder[..i], NOT_EVALUATED)
      invariant outcome == if Contains(remainder[..i], WAIT) then DEFER else ALLOW
    {
      ContainsSnoc(remainder, i);
      match remainder[i].verdict {
        case REJECT =>
          return Replay(true, Some(DENY), true, NoCause, true);
        case WAIT =>
          outcome := DEFER;
        case NOT_EVALUATED =>
          followed := false;
        case _ =>
      }
      i := i + 1;
    }
    assert remainder[..i] == remainder;
    r := if followed then Replay(true, Some(outcome), true, NoCause, true)
         else Replay(true, None, false, NoCause, true);
  }

  lemma ContainsSnoc(trace: seq<Entry>, i: nat)
    requires i < |trace|
    ensures forall v :: Contains(trace[..i + 1], v) <==> Contains(trace[..i], v) || trace[i].verdict == v
    ensures Contains(trace, trace[i].verdict)
  {
    forall v
      ensures Contains(trace[..i + 1], v) <==> Contains(trace[..i], v) || trace[i].verdict == v
    {
      assert trace[..i + 1][i] == trace[i];
      if Contains(trace[..i], v) {
        var j :| 0 <= j < i && trace[..i][j].verdict == v;
        assert trace[..i + 1][j].verdict == v;
      }
      if Contains(trace[..i + 1], v) && trace[i].verdict != v {
        var j :| 0 <= j < i + 1 && trace[..i + 1][j].verdict == v;
        assert trace[..i][j].verdict == v;
      }
    }
  }

  /** Re-judges one recorded trace against one override. */
  method ReplayTrace(trace: seq<Entry>, base: Outcome, override: Override) returns (r: Replay)
    ensures r == Replayed(trace, base, override)
  {
    if override.gate == "" {
      r := Validate(trace, base);
      return;
    }
    var at := 0;
    while at < |trace| && trace[at].gate != override.gate
      invariant 0 <= at <= |trace|
      invariant FirstIndex(trace, override.gate, at) == FirstIndex(trace, override.gate, 0)
    {
      at := at + 1;
    }
    if at == |trace| {
      return NotReplayable(GateNotInTrace, false);
    }
    var target := trace[at];
    if target.verdict.EXEMPT? {
      return NotReplayable(ThresholdNotStored, false);
    }
    if target.verdict.NOT_EVALUATED? {
      return NotReplayable(InputsMissing, false);
    }
    var f := GateFacts(target);
    if f.NoFacts? {
      return NotReplayable(f.cause, false);
    }
    if override.threshold.None? {
      return NotReplayable(ThresholdNotStored, false);
    }
    var rejectsNow := Rejects(f.value, override.threshold.value, f.gte);
    if rejectsNow == target.verdict.REJECT? {
      return Replay(true, Some(base), true, NoCause, false);
    }
    if rejectsNow {
      return Replay(true, Some(DENY), true, NoCause, true);
    }
    r := WalkRemainder(trace[at + 1..]);
  }

  // ---- replay is the certain answer -------------------------------------------------------

  /** A chain in which every gate has been evaluated, and which agrees with `trace` wherever
      `trace` was evaluated. */
  ghost predicate Completes(full: seq<Entry>, trace: seq<Entry>) {
    && |full| == |trace|
    && forall i :: 0 <= i < |trace| ==>
         full[i].verdict != NOT_EVALUATED && (trace[i].verdict == NOT_EVALUATED || full[i] == trace[i])
  }

  /** Every way of completing the trace leads to outcome `o`. */
  ghost predicate Certain(trace: seq<Entry>, o: Outcome) {
    forall full: seq<Entry> :: Completes(full, trace) ==> ChainOutcome(full) == o
  }

  function Evaluated(e: Entry, v: Verdict): Entry {
    if e.verdict.NOT_EVALUATED? then e.(verdict := v) else e
  }

  function Fill(trace: seq<Entry>, v: Verdict): seq<Entry> {
    seq(|trace|, i requires 0 <= i < |trace| => Evaluated(trace[i], v))
  }

  lemma FillCompletes(trace: seq<Entry>, v: Verdict)
    requires v != NOT_EVALUATED
    ensures Completes(Fill(trace, v), trace)
    ensures forall w :: w != v && w != NOT_EVALUATED ==> (Contains(Fill(trace, v), w) <==> Contains(trace, w))
    ensures Contains(Fill(trace, v), v) <==> Contains(trace, v) || Contains(trace, NOT_EVALUATED)
  {
    var full := Fill(trace, v);
    forall w | w != v && w != NOT_EVALUATED
      ensures Contains(full, w) <==> Contains(trace, w)
    {
      if Contains(trace, w) {
        var i :| 0 <= i < |trace| && trace[i].verdict == w;
        assert full[i].verdict == w;
      }
    }
    if Contains(trace, v) {
      var i :| 0 <= i < |trace| && trace[i].verdict == v;
      assert full[i].verdict == v;
    }
    if Contains(trace, NOT_EVALUATED) {
      var i :| 0 <= i < |trace| && trace[i].verdict == NOT_EVALUATED;
      assert full[i].verdict == v;
    }
  }

  /** The outcome of a partly evaluated chain is certain exactly when some gate rejected or
      every gate was evaluated. */
  lemma CertainExactly(trace: seq<Entry>, o: Outcome)
    ensures Certain(trace, o) <==>
            if Contains(trace, REJECT) then o == DENY
            else !Contains(trace, NOT_EVALUATED) && o == ChainOutcome(trace)
  {
    FillCompletes(trace, PASS);
    FillCompletes(trace, REJECT);
    assert Completes(Fill(trace, PASS), trace);
    assert Completes(Fill(trace, REJECT), trace);
    if Contains(trace, REJECT) {
      forall full: seq<Entry> | Completes(full, trace)
        ensures ChainOutcome(full) == DENY
      {
        var i :| 0 <= i < |trace| && trace[i].verdict == REJECT;
        assert full[i].verdict == REJECT;
      }
    } else if !Contains(trace, NOT_EVALUATED) {
      forall full: seq<Entry> | Completes(full, trace)
        ensures full == trace
      {
      }
    }
  }

  /** The recording as the chain would have been recorded under the override. */
  function Overridden(trace: seq<Entry>, at: nat, rejects: bool): seq<Entry>
    requires at < |trace|
  {
    trace[at := trace[at].(verdict := if rejects then REJECT else PASS)]
  }

  /** What a caller can read off the recording before the overridden gate: nothing there
      rejected; and unless a later gate rejected or was never evaluated, nothing there was
      unevaluated, and nothing there deferred unless a later gate did too. */
  ghost predicate PrefixHarmless(prefix: seq<Entry>, remainder: seq<Entry>) {
    Contains(remainder, REJECT) ||
    (!Contains(prefix, REJECT) &&
     (Contains(remainder, NOT_EVALUATED) ||
      (!Contains(prefix, NOT_EVALUATED) && (Contains(prefix, WAIT) ==> Contains(remainder, WAIT)))))
  }

  ghost predicate AnswersCertainly(trace: seq<Entry>, r: Replay) {
    && (r.followed <==> exists o :: Certain(trace, o))
    && (r.followed ==> r.outcome.Some? && Certain(trace, r.outcome.value))
  }

  lemma ContainsOverridden(trace: seq<Entry>, at: nat, rejects: bool, v: Verdict)
    requires at < |trace|
    ensures Contains(Overridden(trace, at, rejects), v) <==>
            Contains(trace[..at], v) || Contains(trace[at + 1..], v) || v == if rejects then REJECT else PASS
  {
    var t := Overridden(trace, at, rejects);
    assert t[at].verdict == if rejects then REJECT else PASS;
    if Contains(trace[..at], v) {
      var i :| 0 <= i < at && trace[..at][i].verdict == v;
      assert t[i].verdict == v;
    }
    if Contains(trace[at + 1..], v) {
      var i :| 0 <= i < |trace| - at - 1 && trace[at + 1..][i].verdict == v;
      assert t[at + 1 + i].verdict == v;
    }
    if Contains(t, v) && v != t[at].verdict {
      var i :| 0 <= i < |t| && t[i].verdict == v;
      if i < at { assert trace[..at][i].verdict == v; } else { assert trace[at + 1..][i - at - 1].verdict == v; }
    }
  }

  /** When a threshold flips a gate, the replayed answer is the certain one: with a newly
      rejecting gate always, with a newly passing gate exactly on harmless prefixes. */
  lemma ReplayIsCertainAnswer(trace: seq<Entry>, base: Outcome, at: nat, override: Override)
    requires at < |trace|
    requires Judged(trace, base, at, override).replayable && Judged(trace, base, at, override).gateChanged
    ensures var rejects := !trace[at].verdict.REJECT?;
            AnswersCertainly(Overridden(trace, at, rejects), Judged(trace, base, at, override)) <==>
            rejects || PrefixHarmless(trace[..at], trace[at + 1..])
  {
    var r := Judged(trace, base, at, override);
    var rejects := !trace[at].verdict.REJECT?;
    var t := Overridden(trace, at, rejects);
    forall v { ContainsOverridden(trace, at, rejects, v); }
    forall o { CertainExactly(t, o); }
    if Contains(t, REJECT) {
      assert Certain(t, DENY);
    } else if !Contains(t, NOT_EVALUATED) {
      assert Certain(t, ChainOutcome(t));
    }
  }

  /** A deferring gate before a rejection that the new threshold lifts: the replay allows, while the
      chain, every gate of which was evaluated, would still defer. */
  lemma HarmfulPrefixMisleads(waiting: Entry, target: Entry, passing: Entry, base: Outcome, override: Override)
    requires waiting.verdict.WAIT? && target.verdict.REJECT? && passing.verdict.PASS?
    requires override.threshold.Some? && GateFacts(target).Facts?
    requires !Rejects(GateFacts(target).value, override.threshold.value, GateFacts(target).gte)
    ensures var trace := [waiting, target, passing];
            var r := Judged(trace, base, 1, override);
            && r.replayable && r.followed && r.outcome == Some(ALLOW)
            && Certain(Overridden(trace, 1, false), DEFER) && !AnswersCertainly(Overridden(trace, 1, false), r)
  {
    var trace := [waiting, target, passing];
    var t := Overridden(trace, 1, false);
    assert trace[2..] == [passing];
    assert t == [waiting, target.(verdict := PASS), passing];
    assert t[0].verdict == WAIT;
    CertainExactly(t, DEFER);
    CertainExactly(t, ALLOW);
  }

  /** A chain that stops at its first rejection records nothing but passes before it. */
  lemma ShortCircuitIsHarmless(prefix: seq<Entry>, remainder: seq<Entry>)
    requires forall i :: 0 <= i < |prefix| ==> prefix[i].verdict.PASS? || prefix[i].verdict.EXEMPT?
    ensures PrefixHarmless(prefix, remainder)
  {
  }

  /** Which recordings a threshold override cannot be replayed on, and what is named as the cause. */
  lemma RefusesExactly(trace: seq<Entry>, base: Outcome, override: Override)
    requires override.gate != ""
    ensures var r := Replayed(trace, base, override);
            var at := FirstIndex(trace, override.gate, 0);
            if at == |trace| then r == NotReplayable(GateNotInTrace, false)
            else
              var e, f := trace[at], GateFacts(trace[at]);
              var limit := override.threshold;
              var lifts := e.verdict == REJECT && f.Facts? && limit.Some?
                           && (if f.gte then f.value < limit.value else f.value > limit.value);
              && (r.replayable <==> e.verdict !in {EXEMPT, NOT_EVALUATED} && f.Facts? && override.threshold.Some?
                                    && !(lifts && at == |trace| - 1))
              && (!r.replayable && lifts ==> r.cause == ChainNotRecorded)
              && (!r.replayable && !lifts ==>
                    r.cause == if e.verdict == NOT_EVALUATED then InputsMissing
                               else if e.verdict == EXEMPT || f.Facts? then ThresholdNotStored else f.cause)
              && (r.replayable && !r.gateChanged ==> r.followed && r.outcome == Some(base))
              && (r.replayable && r.gateChanged && !lifts ==> r.followed && r.outcome == Some(DENY))
  {
  }

  // ---- validation ---------------------------------------------------------------------------

  /** A recording that validates is reproduced when a gate is replayed with its own threshold. */
  lemma OwnThresholdReproduces(trace: seq<Entry>, base: Outcome, at: nat, override: Override)
    requires at < |trace| && Validated(trace, base).replayable
    requires trace[at].verdict.PASS? || trace[at].verdict.REJECT?
    requires GateFacts(trace[at]).Facts? && override.threshold == Some(GateFacts(trace[at]).threshold)
    ensures Judged(trace, base, at, override) == Replay(true, Some(base), true, NoCause, false)
  {
    assert !Contradicts(trace[at]);
  }

  // ---- monotonicity ---------------------------------------------------------------------------

  function Rank(o: Outcome): int {
    match o case DENY => 0 case DEFER => 1 case ALLOW => 2
  }

  /** `a` is at least as permissive a threshold as `b`. */
  predicate Looser(a: real, b: real, gte: bool) {
    if gte then a >= b else a <= b
  }

  ghost function AtThreshold(trace: seq<Entry>, base: Outcome, at: nat, threshold: real): Replay
    requires at < |trace|
  {
    Judged(trace, base, at, Override(trace[at].gate, Some(threshold)))
  }

  /** No loosening of the threshold at `at` makes a followed replay worse. */
  ghost predicate NeverWorse(trace: seq<Entry>, base: Outcome, at: nat)
    requires at < |trace| && GateFacts(trace[at]).Facts?
  {
    forall tight, loose :: Looser(loose, tight, GateFacts(trace[at]).gte) ==>
      var r, s := AtThreshold(trace, base, at, tight), AtThreshold(trace, base, at, loose);
      r.replayable && r.followed && s.replayable && s.followed ==> Rank(r.outcome.value) <= Rank(s.outcome.value)
  }

  /** Loosening a threshold never makes the replayed outcome worse, unless the recording itself
      lets a chain with a rejecting gate end better than the gates after that rejection allow. */
  lemma LooserIsNoWorseExactly(trace: seq<Entry>, base: Outcome, at: nat)
    requires at < |trace| && GateFacts(trace[at]).Facts?
    ensures var unblocked := AfterUnblocking(trace[at + 1..]);
            NeverWorse(trace, base, at) <==>
            !(trace[at].verdict.REJECT? && unblocked.replayable && unblocked.followed
              && Rank(unblocked.outcome.value) < Rank(base))
  {
    var f := GateFacts(trace[at]);
    var unblocked := AfterUnblocking(trace[at + 1..]);
    if trace[at].verdict.REJECT? && unblocked.replayable && unblocked.followed
       && Rank(unblocked.outcome.value) < Rank(base) {
      var beyond := if f.gte then f.value + 1.0 else f.value - 1.0;
      assert Looser(beyond, f.value, f.gte);
      assert AtThreshold(trace, base, at, f.value).outcome == Some(base);
      assert AtThreshold(trace, base, at, beyond) == unblocked;
    }
  }

  /** In particular, on every recording whose rejections deny. */
  lemma LooserIsNoWorse(trace: seq<Entry>, base: Outcome, at: nat)
    requires at < |trace| && GateFacts(trace[at]).Facts?
    requires trace[at].verdict.REJECT? ==> base.DENY?
    ensures NeverWorse(trace, base, at)
  {
    LooserIsNoWorseExactly(trace, base, at);
  }
}
