/** Sustained risk ends in an enforced TERMINATE: neither the cooldown nor the budget can
    hold it back for longer than one cooldown. */
module Escalations {
  import opened Wrappers
  import opened RiskTypes
  import opened RiskCore
  import opened UserStates
  import opened RiskEngines
  import opened EngineRuns
  import Policy
  import Latency

  // ---------------------------------------------------------------------
  // Single events inside a run
  // ---------------------------------------------------------------------

  function StateAt(setup: Setup, s: EngineState, events: seq<EngineEvent>, k: nat): EngineState
    requires ValidEvents(events) && k <= |events|
  {
    Run(setup, s, events[..k]).0
  }

  function EmittedAt(setup: Setup, s: EngineState, events: seq<EngineEvent>, k: nat): seq<RiskOutcome>
    requires ValidEvents(events) && k < |events|
  {
    Step(setup, StateAt(setup, s, events, k), events[k]).1
  }

  predicate ScoredAt(setup: Setup, s: EngineState, events: seq<EngineEvent>, k: nat)
    requires ValidEvents(events) && k < |events|
  {
    var more := EmittedAt(setup, s, events, k);
    events[k].Window? && more != [] && more[0].trace.Some?
  }

  predicate Terminates(more: seq<RiskOutcome>) {
    && more != [] && more[0].decision.Some?
    && more[0].decision.value.enforcementApplied && more[0].decision.value.action == Terminate
  }

  // The scored windows of the first k events.
  function ScoredBy(setup: Setup, s: EngineState, events: seq<EngineEvent>, k: nat): nat
    requires ValidEvents(events) && k <= |events|
  {
    |AdjustedScores(Run(setup, s, events[..k]).1)|
  }

  // ---------------------------------------------------------------------
  // The user stays one the engine acts against
  // ---------------------------------------------------------------------

  /** Active, or out of it only for the length of an outage, and out of shadow mode. */
  predicate Enforceable(s: EngineState) {
    && !s.shadowMode
    && (s.user.state == Active || (s.user.state == Degraded && s.user.preDegraded == Some(Active)))
  }

  ghost predicate Undisturbed(events: seq<EngineEvent>) {
    forall i :: 0 <= i < |events| ==> !events[i].Suspension? && !(events[i].ShadowMode? && events[i].enabled)
  }

  lemma StepKeepsEnforceable(setup: Setup, s: EngineState, event: EngineEvent)
    requires setup.settings.Valid() && event.Valid() && Enforceable(s)
    requires !event.Suspension? && !(event.ShadowMode? && event.enabled)
    ensures Enforceable(Step(setup, s, event).0)
  {
    if event.Window? {
      ProcessCases(setup.settings, setup.userId, s, event.request, event.decisionId);
    }
  }

  lemma {:induction false} StaysEnforceable(setup: Setup, s: EngineState, events: seq<EngineEvent>, k: nat)
    requires setup.settings.Valid() && ValidEvents(events) && k <= |events| && Enforceable(s) && Undisturbed(events)
    ensures Enforceable(StateAt(setup, s, events, k))
  {
    if k > 0 {
      StaysEnforceable(setup, s, events, k - 1);
      assert events[..k][..k - 1] == events[..k - 1];
      StepKeepsEnforceable(setup, StateAt(setup, s, events, k - 1), events[k - 1]);
    }
  }

  // ---------------------------------------------------------------------
  // The policy remembers nothing from the future
  // ---------------------------------------------------------------------

  ghost predicate AllBy(policy: Policy.PolicyState, t: int) {
    && (forall i :: 0 <= i < |policy.applied| ==> policy.applied[i] <= t)
    && (forall action :: action in policy.lastByAction ==> policy.lastByAction[action] <= t)
  }

  ghost predicate Timely(s: EngineState) {
    if s.lastDecisionUs.None? then s.policy == Policy.Fresh else AllBy(s.policy, s.lastDecisionUs.value)
  }

  lemma PrunedKeepsBounds(times: seq<int>, start: int, t: int)
    requires forall i :: 0 <= i < |times| ==> times[i] <= t
    ensures forall i :: 0 <= i < |Policy.Pruned(times, start)| ==> Policy.Pruned(times, start)[i] <= t
    ensures t <= start ==> Policy.Pruned(times, start) == []
  {
    if times != [] && times[0] <= start {
      PrunedKeepsBounds(times[1..], start, t);
    }
  }

  lemma DecideIsTimely(settings: RiskSettings, p: Policy.PolicyState, level: RiskLevel, highCount: nat, t: int,
                       enabled: bool)
    requires AllBy(p, t)
    ensures AllBy(Policy.Decide(settings, p, level, highCount, t, enabled).0, t)
  {
    PrunedKeepsBounds(p.applied, t - settings.cooldownUs, t);
  }

  lemma StepIsTimely(setup: Setup, s: EngineState, event: EngineEvent)
    requires setup.settings.Valid() && event.Valid() && Timely(s)
    ensures Timely(Step(setup, s, event).0)
  {
    var (s', more) := Step(setup, s, event);
    StepAdds(setup, s, event);
    if more != [] {
      var t := event.request.tDecisionUs;
      assert AllBy(s.policy, t);
      if IsScored(setup.settings, s, event.request, s', more[0]) {
        DecideIsTimely(setup.settings, s.policy, s'.core.level,
                       CountAtLeast(s'.core.history, setup.settings.highThreshold), t,
                       s'.user.state == Active && !s.shadowMode);
      }
    }
  }

  lemma {:induction false} RunIsTimely(setup: Setup, s: EngineState, events: seq<EngineEvent>)
    requires setup.settings.Valid() && ValidEvents(events) && Timely(s)
    ensures Timely(Run(setup, s, events).0)
    decreases |events|
  {
    if events != [] {
      RunIsTimely(setup, s, events[..|events| - 1]);
      StepIsTimely(setup, Run(setup, s, events[..|events| - 1]).0, events[|events| - 1]);
    }
  }

  // ---------------------------------------------------------------------
  // A request for TERMINATE waits for one cooldown at most
  // ---------------------------------------------------------------------

  // With nothing applied after `since`, an enabled request for TERMINATE is applied, or
  // still comes within a cooldown and leaves nothing applied after `since`.
  lemma RequestWaits(settings: RiskSettings, p: Policy.PolicyState, level: RiskLevel, highCount: nat, t: int, since: int)
    requires settings.Valid() && AllBy(p, since)
    requires Policy.Requested(settings, level, highCount) == Terminate
    ensures var (p', result) := Policy.Decide(settings, p, level, highCount, t, true);
            || (result.enforcementApplied && result.emitted == Terminate)
            || (t < since + settings.cooldownUs && !result.enforcementApplied && AllBy(p', since))
  {
    PrunedKeepsBounds(p.applied, t - settings.cooldownUs, since);
  }

  // The same for one event of an enforceable user; events that score nothing leave the policy alone.
  lemma EventWaits(setup: Setup, s: EngineState, event: EngineEvent, since: int)
    requires setup.settings.Valid() && event.Valid() && Enforceable(s) && AllBy(s.policy, since)
    requires var more := Step(setup, s, event).1;
             more != [] && more[0].trace.Some? ==> more[0].trace.value.requested == Terminate
    ensures var (s', more) := Step(setup, s, event);
            || Terminates(more)
            || (AllBy(s'.policy, since)
                && (event.Window? && more != [] && more[0].trace.Some? ==>
                      event.request.tDecisionUs < since + setup.settings.cooldownUs))
  {
    var (s', more) := Step(setup, s, event);
    StepAdds(setup, s, event);
    if more != [] && IsScored(setup.settings, s, event.request, s', more[0]) {
      var highCount := CountAtLeast(s'.core.history, setup.settings.highThreshold);
      assert s'.user.state == Active;
      RequestWaits(setup.settings, s.policy, s'.core.level, highCount, event.request.tDecisionUs, since);
    }
  }

  // ---------------------------------------------------------------------
  // Every late enough scored window requests TERMINATE
  // ---------------------------------------------------------------------

  lemma {:induction false} PrefixScores(setup: Setup, s: EngineState, events: seq<EngineEvent>, k: nat, c: real)
    requires setup.settings.Valid() && ValidEvents(events) && k <= |events|
    ensures ScoredBy(setup, s, events, k) <= |AdjustedScores(Run(setup, s, events).1)|
    ensures AllAtLeast(AdjustedScores(Run(setup, s, events).1), c) ==> AllAtLeast(AdjustedScores(Run(setup, s, events[..k]).1), c)
    decreases |events|
  {
    if k == |events| {
      assert events[..k] == events;
    } else {
      var before := events[..|events| - 1];
      PrefixScores(setup, s, before, k, c);
      assert before[..k] == events[..k];
      var (state, outcomes) := Run(setup, s, before);
      var more := Step(setup, state, events[|events| - 1]).1;
      StepAdds(setup, state, events[|events| - 1]);
      ScoresAppend(outcomes, more);
      PartsAtLeast(AdjustedScores(outcomes), AdjustedScores(more), c);
    }
  }

  lemma PartsAtLeast(xs: seq<real>, ys: seq<real>, c: real)
    ensures AllAtLeast(xs + ys, c) ==> AllAtLeast(xs, c)
  {
    if AllAtLeast(xs + ys, c) {
      assert forall i :: 0 <= i < |xs| ==> (xs + ys)[i] == xs[i];
    }
  }

  // The scores never fall under c, and m of them are enough to smooth them up to HIGH.
  ghost predicate Sustained(setup: Setup, s: EngineState, events: seq<EngineEvent>, c: real, m: nat) {
    && ValidState(setup, s) && ValidEvents(events)
    && 0.0 <= c && 1 <= m && Latency.RisingFloor(setup.settings, c, m) >= setup.settings.highThreshold
    && AllAtLeast(AdjustedScores(Run(setup, s, events).1), c)
  }

  lemma SustainedSoFar(setup: Setup, s: EngineState, events: seq<EngineEvent>, c: real, m: nat, k: nat)
    requires Sustained(setup, s, events, c, m) && k <= |events|
    ensures Sustained(setup, s, events[..k], c, m)
  {
    PrefixScores(setup, s, events, k, c);
  }

  lemma ScoredByGrows(setup: Setup, s: EngineState, events: seq<EngineEvent>, i: nat, k: nat)
    requires setup.settings.Valid() && ValidEvents(events) && i <= k <= |events|
    ensures ScoredBy(setup, s, events, i) <= ScoredBy(setup, s, events, k)
  {
    PrefixScores(setup, s, events[..k], i, 0.0);
    assert events[..k][..i] == events[..i];
  }

  lemma LastEmitted(setup: Setup, s: EngineState, events: seq<EngineEvent>, k: nat)
    requires ValidEvents(events) && k < |events|
    ensures Run(setup, s, events[..k + 1]).1 == Run(setup, s, events[..k]).1 + EmittedAt(setup, s, events, k)
  {
    assert events[..k + 1][..k] == events[..k];
  }

  lemma EmitsAtMostOne(setup: Setup, s: EngineState, event: EngineEvent)
    requires setup.settings.Valid() && event.Valid()
    ensures |Step(setup, s, event).1| <= 1
  {
    StepAdds(setup, s, event);
  }

  // The outcome that a run ends with, seen from the whole run.
  lemma LastRequestsTerminate(setup: Setup, s: EngineState, events: seq<EngineEvent>, c: real, m: nat,
                              before: seq<RiskOutcome>, more: seq<RiskOutcome>)
    requires Sustained(setup, s, events, c, m)
    requires Run(setup, s, events).1 == before + more && |more| == 1 && more[0].trace.Some?
    requires |AdjustedScores(Run(setup, s, events).1)| >= m + setup.settings.breachN - 1
    ensures more[0].trace.value.requested == Terminate
  {
    EngineDetects(setup, s, events, c, m);
    assert (before + more)[|before|] == more[0];
  }

  lemma RequestsTerminate(setup: Setup, s: EngineState, events: seq<EngineEvent>, c: real, m: nat, i: nat, k: nat)
    requires Sustained(setup, s, events, c, m) && i <= k < |events|
    requires ScoredBy(setup, s, events, i + 1) >= m + setup.settings.breachN - 1
    ensures var more := EmittedAt(setup, s, events, k);
            more != [] && more[0].trace.Some? ==> more[0].trace.value.requested == Terminate
  {
    var more := EmittedAt(setup, s, events, k);
    if more != [] && more[0].trace.Some? {
      EmitsAtMostOne(setup, StateAt(setup, s, events, k), events[k]);
      SustainedSoFar(setup, s, events, c, m, k + 1);
      ScoredByGrows(setup, s, events, i + 1, k + 1);
      LastEmitted(setup, s, events, k);
      LastRequestsTerminate(setup, s, events[..k + 1], c, m, Run(setup, s, events[..k]).1, more);
    }
  }

  // ---------------------------------------------------------------------
  // Main result
  // ---------------------------------------------------------------------

  lemma StateAfter(setup: Setup, s: EngineState, events: seq<EngineEvent>, k: nat)
    requires ValidEvents(events) && k < |events|
    ensures StateAt(setup, s, events, k + 1) == Step(setup, StateAt(setup, s, events, k), events[k]).0
  {
    assert events[..k + 1][..k] == events[..k];
  }

  // When event i is scored, everything applied before it is in its past.
  lemma NothingAheadOf(setup: Setup, s: EngineState, events: seq<EngineEvent>, i: nat)
    requires setup.settings.Valid() && ValidEvents(events) && Timely(s)
    requires i < |events| && ScoredAt(setup, s, events, i)
    ensures AllBy(StateAt(setup, s, events, i).policy, events[i].request.tDecisionUs)
  {
    RunIsTimely(setup, s, events[..i]);
    StepAdds(setup, StateAt(setup, s, events, i), events[i]);
  }

  // One event after which still nothing has been applied.
  lemma EventKeepsWaiting(setup: Setup, s: EngineState, event: EngineEvent, since: int)
    requires setup.settings.Valid() && event.Valid() && Enforceable(s) && AllBy(s.policy, since)
    requires var more := Step(setup, s, event).1;
             && (more != [] && more[0].trace.Some? ==> more[0].trace.value.requested == Terminate)
             && !Terminates(more)
    ensures AllBy(Step(setup, s, event).0.policy, since)
  {
    EventWaits(setup, s, event, since);
  }

  // From event i to event k nothing has been applied.
  lemma {:induction false} NothingAppliedSince(setup: Setup, s: EngineState, events: seq<EngineEvent>, c: real, m: nat,
                                               i: nat, k: nat)
    requires Sustained(setup, s, events, c, m) && Timely(s) && Enforceable(s) && Undisturbed(events)
    requires i <= k < |events| && ScoredAt(setup, s, events, i)
    requires ScoredBy(setup, s, events, i + 1) >= m + setup.settings.breachN - 1
    requires forall l :: i <= l < k ==> !Terminates(EmittedAt(setup, s, events, l))
    ensures AllBy(StateAt(setup, s, events, k).policy, events[i].request.tDecisionUs)
    decreases k
  {
    if k == i {
      NothingAheadOf(setup, s, events, i);
    } else {
      var l := k - 1;
      NothingAppliedSince(setup, s, events, c, m, i, l);
      StaysEnforceable(setup, s, events, l);
      RequestsTerminate(setup, s, events, c, m, i, l);
      assert !Terminates(EmittedAt(setup, s, events, l));
      EventKeepsWaiting(setup, StateAt(setup, s, events, l), events[l], events[i].request.tDecisionUs);
      StateAfter(setup, s, events, l);
    }
  }

  /** A stretch of events, from a state with a user the engine acts against, whose scores
      are all at least c: by event i that is `windows` of them, and event j is a scored
      window one cooldown later. */
  ghost predicate Escalating(setup: Setup, s: EngineState, events: seq<EngineEvent>, c: real, windows: nat, i: nat, j: nat) {
    && ValidEvents(events) && Enforceable(s) && Undisturbed(events)
    && AllAtLeast(AdjustedScores(Run(setup, s, events).1), c)
    && i <= j < |events| && ScoredAt(setup, s, events, i) && ScoredAt(setup, s, events, j)
    && ScoredBy(setup, s, events, i + 1) >= windows
    && events[j].request.tDecisionUs >= events[i].request.tDecisionUs + setup.settings.cooldownUs
  }

  ghost predicate TerminatesBetween(setup: Setup, s: EngineState, events: seq<EngineEvent>, i: nat, j: nat) {
    ValidEvents(events) && j < |events| && exists k :: i <= k <= j && Terminates(EmittedAt(setup, s, events, k))
  }

  /** Escalation: after any history, for a user who is ACTIVE but for outages and out of
      shadow mode, once m + n - 1 scored windows have been at least c, an enforced TERMINATE
      comes no later than the first scored window one cooldown on, whatever failures, holds
      and earlier actions lie between. */
  lemma SustainedRiskTerminates(setup: Setup, user: Machine, history: seq<EngineEvent>, events: seq<EngineEvent>,
                                c: real, m: nat, i: nat, j: nat)
    requires setup.settings.Valid() && user.Valid() && ValidEvents(history)
    requires 0.0 <= c && 1 <= m && Latency.RisingFloor(setup.settings, c, m) >= setup.settings.highThreshold
    requires Escalating(setup, Run(setup, Cold(user), history).0, events, c, m + setup.settings.breachN - 1, i, j)
    ensures TerminatesBetween(setup, Run(setup, Cold(user), history).0, events, i, j)
  {
    var s := Run(setup, Cold(user), history).0;
    RunFacts(setup, Cold(user), history);
    RunIsTimely(setup, Cold(user), history);
    if forall k :: i <= k < j ==> !Terminates(EmittedAt(setup, s, events, k)) {
      NothingAppliedSince(setup, s, events, c, m, i, j);
      StaysEnforceable(setup, s, events, j);
      RequestsTerminate(setup, s, events, c, m, i, j);
      EventWaits(setup, StateAt(setup, s, events, j), events[j], events[i].request.tDecisionUs);
      assert Terminates(EmittedAt(setup, s, events, j));
    }
  }

  /** Every excess escalates: for any score above the high threshold there is one number of
      windows that is enough for every user, history and stretch of events. */
  lemma EveryExcessTerminates(settings: RiskSettings, c: real) returns (windows: nat)
    requires settings.Valid() && settings.highThreshold < c <= 1.0
    ensures forall setup: Setup, user: Machine, history, events, i: nat, j: nat ::
              setup.settings == settings && user.Valid() && ValidEvents(history)
              && Escalating(setup, Run(setup, Cold(user), history).0, events, c, windows, i, j)
              ==> TerminatesBetween(setup, Run(setup, Cold(user), history).0, events, i, j)
  {
    var m := Latency.Outlast(settings, c, c - settings.highThreshold);
    Latency.FloorReaches(settings, c, m, c - settings.highThreshold);
    windows := m + settings.breachN - 1;
    forall setup: Setup, user: Machine, history, events, i: nat, j: nat
      | setup.settings == settings && user.Valid() && ValidEvents(history)
        && Escalating(setup, Run(setup, Cold(user), history).0, events, c, windows, i, j)
      ensures TerminatesBetween(setup, Run(setup, Cold(user), history).0, events, i, j)
    {
      SustainedRiskTerminates(setup, user, history, events, c, m, i, j);
    }
  }
}
