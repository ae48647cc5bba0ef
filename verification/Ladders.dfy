/** Which action a window brings: read off the level, the scores and the log of what was
    applied before, over whole runs of the engine. */
module Ladders {
  import opened Wrappers
  import opened RiskTypes
  import opened RiskCore
  import opened Deques
  import opened UserStates
  import opened RiskEngines
  import opened EngineRuns
  import Policy

  // ---------------------------------------------------------------------
  // When the policy applies what is asked for
  // ---------------------------------------------------------------------

  /** The same action was applied less than a cooldown ago. */
  ghost predicate Cooling(settings: RiskSettings, log: seq<Policy.Applied>, action: DecisionAction, t: int) {
    exists i :: 0 <= i < |log| && log[i].action == action && t - log[i].t < settings.cooldownUs
  }

  function AppliedLately(settings: RiskSettings, log: seq<Policy.Applied>, t: int): nat {
    Policy.CountIn(log, t - settings.cooldownUs, t)
  }

  // What the policy remembers of an action is an entry of the log.
  ghost predicate Remembers(s: Policy.PolicyState, log: seq<Policy.Applied>) {
    forall a :: a in s.lastByAction ==> exists i :: 0 <= i < |log| && log[i] == Policy.Applied(a, s.lastByAction[a])
  }

  lemma {:induction false} CountOfTail(log: seq<Policy.Applied>, kept: nat, start: int, end: int)
    requires kept <= |log| && Policy.Before(log, end)
    requires forall i :: 0 <= i < |log| ==> (log[i].t > start <==> i >= |log| - kept)
    ensures Policy.CountIn(log, start, end) == kept
    decreases |log|
  {
    if log != [] {
      var before := log[..|log| - 1];
      assert forall i :: 0 <= i < |before| ==> before[i] == log[i];
      CountOfTail(before, if kept == 0 then 0 else kept - 1, start, end);
    }
  }

  // The deque left by pruning is as long as the window is full.
  lemma KeptIsCounted(settings: RiskSettings, s: Policy.PolicyState, log: seq<Policy.Applied>, now: int, t: int)
    requires Policy.Digest(settings, s, log, now) && now <= t
    ensures |Policy.Pruned(s.applied, t - settings.cooldownUs)| == AppliedLately(settings, log, t)
  {
    Policy.PrunedDequeIsTheWindow(settings, s, log, now, t);
    CountOfTail(log, |Policy.Pruned(s.applied, t - settings.cooldownUs)|, t - settings.cooldownUs, t);
  }

  lemma CooldownIsLogged(settings: RiskSettings, s: Policy.PolicyState, log: seq<Policy.Applied>, action: DecisionAction,
                         t: int)
    requires Policy.LastKnown(s.lastByAction, log) && Remembers(s, log)
    ensures action in s.lastByAction && t - s.lastByAction[action] < settings.cooldownUs <==> Cooling(settings, log, action, t)
  {
    if Cooling(settings, log, action, t) {
      var i :| 0 <= i < |log| && log[i].action == action && t - log[i].t < settings.cooldownUs;
      assert action in s.lastByAction && log[i].t <= s.lastByAction[action];
    }
  }

  lemma DecideRemembers(settings: RiskSettings, s: Policy.PolicyState, log: seq<Policy.Applied>, level: RiskLevel,
                        highCount: nat, t: int, enabled: bool)
    requires Remembers(s, log)
    ensures var (s', result) := Policy.Decide(settings, s, level, highCount, t, enabled);
            Remembers(s', log + Policy.Logged(result, t))
  {
    var (s', result) := Policy.Decide(settings, s, level, highCount, t, enabled);
    var log' := log + Policy.Logged(result, t);
    forall a | a in s'.lastByAction
      ensures exists i :: 0 <= i < |log'| && log'[i] == Policy.Applied(a, s'.lastByAction[a])
    {
      if result.enforcementApplied && a == result.emitted {
        assert log'[|log|] == Policy.Applied(a, s'.lastByAction[a]);
      } else {
        var i :| 0 <= i < |log| && log[i] == Policy.Applied(a, s.lastByAction[a]);
        assert log'[i] == log[i];
      }
    }
  }

  /** What stands in the way of an action that the level asks for. */
  ghost predicate Allowed(settings: RiskSettings, log: seq<Policy.Applied>, action: DecisionAction, t: int) {
    !Cooling(settings, log, action, t) && AppliedLately(settings, log, t) < settings.actionBudget
  }

  // The ladder's rung for a level and the scores of the history.
  ghost predicate Brings(level: RiskLevel, full: bool, requested: DecisionAction) {
    && (requested == Continue <==> level == Low)
    && (requested == SoftChallenge <==> level == Medium)
    && (requested == Terminate <==> level == High && full)
    && (requested == Reauth <==> level == High && !full)
  }

  // What becomes of an action asked for.
  ghost predicate Follows(settings: RiskSettings, log: seq<Policy.Applied>, enabled: bool, t: int, requested: DecisionAction,
                          emitted: DecisionAction, applied: bool, exhausted: bool, reason: string) {
    && (applied <==> enabled && requested != Continue && Allowed(settings, log, requested, t))
    && (exhausted <==> enabled && requested != Continue && !Cooling(settings, log, requested, t)
                       && AppliedLately(settings, log, t) >= settings.actionBudget)
    && emitted == (if enabled && requested != Continue && !applied then NoAction else requested)
    && reason == (if !enabled then "SHADOW_OR_NON_ENFORCING"
                  else if requested == Continue then "RISK_LOW"
                  else if Cooling(settings, log, requested, t) then "ACTION_COOLDOWN"
                  else if !applied then "ACTION_BUDGET" else "RISK_ESCALATION")
  }

  lemma RequestedBrings(settings: RiskSettings, level: RiskLevel, highCount: nat)
    requires level != Unavailable
    ensures Brings(level, highCount >= settings.breachN, Policy.Requested(settings, level, highCount))
  {
  }

  lemma DecideFollows(settings: RiskSettings, s: Policy.PolicyState, log: seq<Policy.Applied>, now: int, level: RiskLevel,
                      highCount: nat, t: int, enabled: bool)
    requires level != Unavailable && Policy.Digest(settings, s, log, now) && now <= t && Remembers(s, log)
    ensures var result := Policy.Decide(settings, s, level, highCount, t, enabled).1;
            && Brings(level, highCount >= settings.breachN, result.requested)
            && Follows(settings, log, enabled, t, result.requested, result.emitted, result.enforcementApplied,
                       result.budgetExhausted, result.reason)
  {
    RequestedBrings(settings, level, highCount);
    KeptIsCounted(settings, s, log, now, t);
    CooldownIsLogged(settings, s, log, Policy.Requested(settings, level, highCount), t);
  }

  // ---------------------------------------------------------------------
  // Over whole runs
  // ---------------------------------------------------------------------

  lemma StepRemembers(setup: Setup, s: EngineState, log: seq<Policy.Applied>, event: EngineEvent)
    requires setup.settings.Valid() && event.Valid() && Remembers(s.policy, log)
    ensures var (s', more) := Step(setup, s, event);
            Remembers(s'.policy, log + AppliedLog(more))
  {
    var (s', more) := Step(setup, s, event);
    StepAdds(setup, s, event);
    if more == [] {
      assert log + AppliedLog(more) == log;
    } else {
      ScoresOfOne(more);
      if IsScored(setup.settings, s, event.request, s', more[0]) {
        DecideRemembers(setup.settings, s.policy, log, s'.core.level,
                        CountAtLeast(s'.core.history, setup.settings.highThreshold), event.request.tDecisionUs,
                        s'.user.state == Active && !s.shadowMode);
      } else {
        assert log + AppliedLog(more) == log;
      }
    }
  }

  lemma {:induction false} RunRemembers(setup: Setup, user: Machine, events: seq<EngineEvent>)
    requires setup.settings.Valid() && ValidEvents(events)
    ensures var (end, outcomes) := Run(setup, Cold(user), events); Remembers(end.policy, AppliedLog(outcomes))
    decreases |events|
  {
    if events != [] {
      var j := |events| - 1;
      RunRemembers(setup, user, events[..j]);
      var (before, outcomes) := Run(setup, Cold(user), events[..j]);
      StepRemembers(setup, before, AppliedLog(outcomes), events[j]);
      StepIsSingle(setup, before, events[j]);
      AppliedAppend(outcomes, Step(setup, before, events[j]).1);
    }
  }

  lemma StepIsSingle(setup: Setup, s: EngineState, event: EngineEvent)
    requires setup.settings.Valid() && event.Valid()
    ensures |Step(setup, s, event).1| <= 1
  {
    StepAdds(setup, s, event);
  }

  /** The last breach_n smoothed scores of the run exist and reach the high threshold. */
  ghost predicate FullyHigh(settings: RiskSettings, scores: seq<real>) {
    && |scores| >= settings.breachN
    && AllAtLeast(LastN(scores, settings.breachN), settings.highThreshold)
  }

  lemma FullCountMeans(settings: RiskSettings, history: seq<real>, scores: seq<real>)
    requires settings.Valid() && history == LastN(scores, settings.breachN)
    ensures CountAtLeast(history, settings.highThreshold) >= settings.breachN <==> FullyHigh(settings, scores)
  {
    CountIsBounded(history, settings.highThreshold);
  }

  // The decision of a scored window against the run before it.
  ghost predicate LadderHolds(setup: Setup, outcomes: seq<RiskOutcome>, outcome: RiskOutcome, enabled: bool) {
    outcome.trace.Some? && outcome.decision.Some? &&
    var d, trace := outcome.decision.value, outcome.trace.value;
    && trace.resultingLevel == d.level
    && Brings(d.level, FullyHigh(setup.settings, SmoothedScores(outcomes + [outcome])), trace.requested)
    && Follows(setup.settings, AppliedLog(outcomes), enabled, d.tDecisionUs, trace.requested, d.action,
               d.enforcementApplied, ActionBudgetExhausted in outcome.alerts, d.reason)
  }

  /** Main result: over any run of the engine, the action that a scored window asks for is
      read off its level and the last breach_n smoothed scores of the run, and it is applied
      exactly when the user is ACTIVE out of shadow mode, the same action was not applied
      within the last cooldown, and the log of applied actions leaves room in the budget. */
  lemma ActionsAreExact(setup: Setup, user: Machine, events: seq<EngineEvent>, event: EngineEvent)
    requires setup.settings.Valid() && user.Valid() && ValidEvents(events) && event.Valid()
    ensures var (before, outcomes) := Run(setup, Cold(user), events);
            var (after, more) := Step(setup, before, event);
            more != [] && more[0].trace.Some? ==>
              LadderHolds(setup, outcomes, more[0], after.user.state == Active && !before.shadowMode)
  {
    var (before, outcomes) := Run(setup, Cold(user), events);
    var (after, more) := Step(setup, before, event);
    StepAdds(setup, before, event);
    if more != [] && more[0].trace.Some? {
      RunIsAccounted(setup, user, events);
      RunRemembers(setup, user, events);
      ScoredHistory(setup, user, events, event);
      RunFacts(setup, Cold(user), events);
      StepKeepsValid(setup, before, event);
      ScoredFollows(setup, before, outcomes, event);
    }
  }

  // The history after a step is the last scores of the run that it ends.
  lemma ScoredHistory(setup: Setup, user: Machine, events: seq<EngineEvent>, event: EngineEvent)
    requires setup.settings.Valid() && user.Valid() && ValidEvents(events) && event.Valid()
    ensures var (before, outcomes) := Run(setup, Cold(user), events);
            var (after, more) := Step(setup, before, event);
            after.core.history == LastN(SmoothedScores(outcomes + more), setup.settings.breachN)
  {
    var longer := events + [event];
    assert longer[..|events|] == events;
    HistoryIsTheLastScores(setup, user, longer);
  }

  lemma ScoredFollows(setup: Setup, before: EngineState, outcomes: seq<RiskOutcome>, event: EngineEvent)
    requires setup.settings.Valid() && event.Valid()
    requires Accounted(setup, before, AppliedLog(outcomes)) && Remembers(before.policy, AppliedLog(outcomes))
    requires var (after, more) := Step(setup, before, event);
             && Adds(setup, before, event, after, more) && more != [] && more[0].trace.Some?
             && after.core.history == LastN(SmoothedScores(outcomes + more), setup.settings.breachN)
             && after.core.level != Unavailable
    ensures var (after, more) := Step(setup, before, event);
            LadderHolds(setup, outcomes, more[0], after.user.state == Active && !before.shadowMode)
  {
    var (after, more) := Step(setup, before, event);
    var t := event.request.tDecisionUs;
    var now := if before.lastDecisionUs.Some? then before.lastDecisionUs.value else t;
    assert Policy.Digest(setup.settings, before.policy, AppliedLog(outcomes), now);
    assert more == [more[0]];
    FullCountMeans(setup.settings, after.core.history, SmoothedScores(outcomes + more));
    DecideFollows(setup.settings, before.policy, AppliedLog(outcomes), now, after.core.level,
                  CountAtLeast(after.core.history, setup.settings.highThreshold), t,
                  after.user.state == Active && !before.shadowMode);
  }
}
