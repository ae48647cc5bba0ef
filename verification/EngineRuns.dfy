/** What holds of the risk engine over whole runs, with every kind of event interleaved. */
module EngineRuns {
  import opened Wrappers
  import opened Texts
  import opened RiskTypes
  import opened Deques
  import opened RiskCore
  import opened UserStates
  import opened RiskEngines
  import Policy
  import Latency

  datatype EngineEvent =
    | Window(request: DecisionInput, decisionId: string)
    | HeartbeatLoss
    | ComponentFailure(component: string, detail: string)
    | ComponentRecovery
    | ShadowMode(enabled: bool)
    | Enrolled(windows: nat, days: nat, calibration: nat)
    | Suspension
    | Reenrollment
  {
    predicate Valid() {
      Window? ==> request.Valid()
    }
  }

  datatype Setup = Setup(settings: RiskSettings, enrollment: EnrollmentConfig, userId: string)

  ghost predicate ValidEvents(events: seq<EngineEvent>) {
    forall i :: 0 <= i < |events| ==> events[i].Valid()
  }

  /** One event: the next state and the outcomes it produces (none when a call raises). */
  function Step(setup: Setup, s: EngineState, event: EngineEvent): (EngineState, seq<RiskOutcome>)
    requires event.Valid()
  {
    match event
    case Window(request, decisionId) =>
      var (s', result) := Process(setup.settings, setup.userId, s, request, decisionId);
      (s', if result.Ok? then [result.value] else [])
    case HeartbeatLoss => (s.(user := DegradedFrom(s.user)), [])
    case ComponentFailure(component, detail) =>
      (if Blank(component) || Blank(detail) then s else s.(user := DegradedFrom(s.user)), [])
    case ComponentRecovery => (s.(user := RecoveredFrom(s.user)), [])
    case ShadowMode(enabled) => (s.(shadowMode := enabled), [])
    case Enrolled(w, d, c) => (s.(user := ProgressedFrom(setup.enrollment, s.user, w, d, c)), [])
    case Suspension => (s.(user := SuspendedFrom(s.user)), [])
    case Reenrollment => (s.(user := RestartedFrom(s.user)), [])
  }

  function Run(setup: Setup, s: EngineState, events: seq<EngineEvent>): (EngineState, seq<RiskOutcome>)
    requires ValidEvents(events)
    decreases |events|
  {
    if events == [] then (s, [])
    else
      var (before, outcomes) := Run(setup, s, events[..|events| - 1]);
      var (after, more) := Step(setup, before, events[|events| - 1]);
      (after, outcomes + more)
  }

  function Cold(user: Machine): EngineState {
    EngineState(ColdStart, None, false, user, Policy.Fresh)
  }

  ghost predicate ValidState(setup: Setup, s: EngineState) {
    setup.settings.Valid() && s.core.Valid(setup.settings) && s.user.Valid()
  }

  // ---------------------------------------------------------------------
  // Scored windows: the traces of a run
  // ---------------------------------------------------------------------

  function AdjustedScores(outcomes: seq<RiskOutcome>): seq<real> {
    if outcomes == [] then []
    else
      var last := outcomes[|outcomes| - 1];
      AdjustedScores(outcomes[..|outcomes| - 1])
      + if last.trace.Some? then [last.trace.value.adjustedScore] else []
  }

  function SmoothedScores(outcomes: seq<RiskOutcome>): seq<real> {
    if outcomes == [] then []
    else
      var last := outcomes[|outcomes| - 1];
      SmoothedScores(outcomes[..|outcomes| - 1])
      + if last.trace.Some? then [last.trace.value.smoothedScore] else []
  }

  // ---------------------------------------------------------------------
  // Step invariants
  // ---------------------------------------------------------------------

  // The one outcome a step may add, sorted into scored and unscored.
  ghost predicate Adds(setup: Setup, s: EngineState, event: EngineEvent, s': EngineState, more: seq<RiskOutcome>) {
    if more == [] then s'.core == s.core && s'.policy == s.policy && s'.lastDecisionUs == s.lastDecisionUs
    else
      && |more| == 1 && event.Window? && event.request.Valid()
      && s'.lastDecisionUs == Some(event.request.tDecisionUs) && s'.shadowMode == s.shadowMode
      && (s.lastDecisionUs.Some? ==> s.lastDecisionUs.value <= event.request.tDecisionUs)
      && (IsScored(setup.settings, s, event.request, s', more[0]) || IsUnscored(s, s', more[0]))
  }

  lemma StepAdds(setup: Setup, s: EngineState, event: EngineEvent)
    requires setup.settings.Valid() && event.Valid()
    ensures var (s', more) := Step(setup, s, event); Adds(setup, s, event, s', more)
  {
    if event.Window? {
      ProcessCases(setup.settings, setup.userId, s, event.request, event.decisionId);
    }
  }

  /** One event keeps the state valid and emits only decisions that meet the contract. */
  lemma StepKeepsValid(setup: Setup, s: EngineState, event: EngineEvent)
    requires ValidState(setup, s) && event.Valid()
    ensures var (s', more) := Step(setup, s, event);
            && ValidState(setup, s')
            && (more != [] && more[0].decision.Some? ==> more[0].decision.value.ContractHolds())
  {
    var (s', more) := Step(setup, s, event);
    StepAdds(setup, s, event);
    if more != [] && IsScored(setup.settings, s, event.request, s', more[0]) {
      ScoredKeepsValid(setup.settings, s, event.request, s', more[0]);
    }
  }

  lemma ScoresOfOne(more: seq<RiskOutcome>)
    requires |more| == 1
    ensures AdjustedScores(more) == if more[0].trace.Some? then [more[0].trace.value.adjustedScore] else []
    ensures SmoothedScores(more) == if more[0].trace.Some? then [more[0].trace.value.smoothedScore] else []
    ensures AppliedLog(more) ==
            if more[0].decision.Some? && more[0].decision.value.enforcementApplied
            then [Policy.Applied(more[0].decision.value.action, more[0].decision.value.tDecisionUs)] else []
  {
    assert more[..0] == [];
  }

  // A step moves the level state exactly as its own adjusted scores say.
  lemma StepMovesTheLevel(setup: Setup, s: EngineState, event: EngineEvent)
    requires setup.settings.Valid() && event.Valid()
    ensures var (s', more) := Step(setup, s, event);
            && |more| <= 1
            && s'.core == AdvanceAll(setup.settings, s.core, AdjustedScores(more))
            && s'.core.history == (if SmoothedScores(more) == [] then s.core.history
                                   else Pushed(s.core.history, SmoothedScores(more)[0], setup.settings.breachN))
  {
    var (s', more) := Step(setup, s, event);
    StepAdds(setup, s, event);
    assert AdvanceAll(setup.settings, s.core, []) == s.core;
    if more != [] {
      ScoresOfOne(more);
      if more[0].trace.Some? {
        var adjusted := more[0].trace.value.adjustedScore;
        assert [adjusted][..0] == [];
        assert AdvanceAll(setup.settings, s.core, [adjusted]) == Advance(setup.settings, s.core, adjusted);
      }
    }
  }

  /** Every reachable state is valid and every decision ever emitted meets the contract. */
  lemma {:induction false} RunFacts(setup: Setup, s: EngineState, events: seq<EngineEvent>)
    requires ValidState(setup, s) && ValidEvents(events)
    ensures var (end, outcomes) := Run(setup, s, events);
            && ValidState(setup, end)
            && forall i :: 0 <= i < |outcomes| && outcomes[i].decision.Some? ==> outcomes[i].decision.value.ContractHolds()
    decreases |events|
  {
    if events != [] {
      var j := |events| - 1;
      RunFacts(setup, s, events[..j]);
      StepAdds(setup, Run(setup, s, events[..j]).0, events[j]);
      StepKeepsValid(setup, Run(setup, s, events[..j]).0, events[j]);
    }
  }

  lemma ScoresAppend(outcomes: seq<RiskOutcome>, more: seq<RiskOutcome>)
    requires |more| <= 1
    ensures AdjustedScores(outcomes + more) == AdjustedScores(outcomes) + AdjustedScores(more)
    ensures SmoothedScores(outcomes + more) == SmoothedScores(outcomes) + SmoothedScores(more)
  {
    if more == [] {
      assert outcomes + more == outcomes;
    } else {
      assert (outcomes + more)[..|outcomes|] == outcomes && more[..0] == [];
    }
  }

  /** Holds, failures, outages and mode changes never touch the level state: after any
      run it is what the adjusted scores of the scored windows alone produce. */
  lemma {:induction false} OnlyScoredWindowsMoveTheLevel(setup: Setup, s: EngineState, events: seq<EngineEvent>)
    requires ValidState(setup, s) && ValidEvents(events)
    ensures var (end, outcomes) := Run(setup, s, events);
            end.core == AdvanceAll(setup.settings, s.core, AdjustedScores(outcomes))
    decreases |events|
  {
    if events != [] {
      var j := |events| - 1;
      OnlyScoredWindowsMoveTheLevel(setup, s, events[..j]);
      var (before, outcomes) := Run(setup, s, events[..j]);
      OneStepMoves(setup, before, s.core, outcomes, events[j]);
    }
  }

  lemma OneStepMoves(setup: Setup, before: EngineState, start: Core, outcomes: seq<RiskOutcome>, event: EngineEvent)
    requires setup.settings.Valid() && event.Valid()
    requires before.core == AdvanceAll(setup.settings, start, AdjustedScores(outcomes))
    ensures var (after, more) := Step(setup, before, event);
            after.core == AdvanceAll(setup.settings, start, AdjustedScores(outcomes + more))
  {
    StepMovesTheLevel(setup, before, event);
    var more := Step(setup, before, event).1;
    ScoresAppend(outcomes, more);
    AdvanceAllAppend(setup.settings, start, AdjustedScores(outcomes), AdjustedScores(more));
  }

  lemma AdvanceAllAppend(settings: RiskSettings, core: Core, values: seq<real>, more: seq<real>)
    requires |more| <= 1
    ensures AdvanceAll(settings, core, values + more) == AdvanceAll(settings, AdvanceAll(settings, core, values), more)
  {
    if more == [] {
      assert values + more == values;
    } else {
      assert (values + more)[..|values|] == values && more[..0] == [];
    }
  }

  /** The breach history is exactly the last breach_n smoothed scores ever produced. */
  lemma {:induction false} HistoryIsTheLastScores(setup: Setup, user: Machine, events: seq<EngineEvent>)
    requires setup.settings.Valid() && user.Valid() && ValidEvents(events)
    ensures var (end, outcomes) := Run(setup, Cold(user), events);
            end.core.history == LastN(SmoothedScores(outcomes), setup.settings.breachN)
    decreases |events|
  {
    if events != [] {
      var j := |events| - 1;
      HistoryIsTheLastScores(setup, user, events[..j]);
      var (before, outcomes) := Run(setup, Cold(user), events[..j]);
      OneStepRemembers(setup, before, outcomes, events[j]);
    }
  }

  lemma {:induction false} OneStepRemembers(setup: Setup, before: EngineState, outcomes: seq<RiskOutcome>,
                                            event: EngineEvent)
    requires setup.settings.Valid() && event.Valid()
    requires before.core.history == LastN(SmoothedScores(outcomes), setup.settings.breachN)
    ensures var (after, more) := Step(setup, before, event);
            after.core.history == LastN(SmoothedScores(outcomes + more), setup.settings.breachN)
  {
    StepMovesTheLevel(setup, before, event);
    var (after, more) := Step(setup, before, event);
    ScoresAppend(outcomes, more);
    SmoothedOfFew(more);
    HistoryRemembers(before.core.history, after.core.history, SmoothedScores(outcomes), SmoothedScores(more),
                     setup.settings.breachN);
  }

  lemma HistoryRemembers(history: seq<real>, history': seq<real>, scores: seq<real>, more: seq<real>, n: nat)
    requires history == LastN(scores, n) && |more| <= 1
    requires history' == if more == [] then history else Pushed(history, more[0], n)
    ensures history' == LastN(scores + more, n)
  {
    if more == [] {
      assert scores + more == scores;
    } else {
      assert more == [more[0]];
      LastNAppend(scores, more[0], n);
    }
  }

  lemma SmoothedOfFew(more: seq<RiskOutcome>)
    requires |more| <= 1
    ensures |SmoothedScores(more)| <= 1
  {
    if more != [] {
      ScoresOfOne(more);
    }
  }

  // ---------------------------------------------------------------------
  // Latency of the whole engine
  // ---------------------------------------------------------------------

  /** Detection through the whole engine: whatever failures and holds are interleaved,
      once the adjusted scores of m + k - 1 scored windows are at least c the level is
      HIGH, and a further scored window after m + n - 1 of them requests TERMINATE. */
  lemma {:induction false} EngineDetects(setup: Setup, s: EngineState, events: seq<EngineEvent>, c: real, m: nat)
    requires ValidState(setup, s) && ValidEvents(events) && 0.0 <= c && 1 <= m
    requires Latency.RisingFloor(setup.settings, c, m) >= setup.settings.highThreshold
    requires AllAtLeast(AdjustedScores(Run(setup, s, events).1), c)
    ensures var (end, outcomes) := Run(setup, s, events);
            |AdjustedScores(outcomes)| >= m + setup.settings.breachK - 1 ==> end.core.level == High
    ensures var (end, outcomes) := Run(setup, s, events);
            && outcomes != [] && outcomes[|outcomes| - 1].trace.Some?
            && |AdjustedScores(outcomes)| >= m + setup.settings.breachN - 1
            ==> outcomes[|outcomes| - 1].trace.value.requested == Terminate
  {
    var (end, outcomes) := Run(setup, s, events);
    OnlyScoredWindowsMoveTheLevel(setup, s, events);
    Latency.Detection(setup.settings, s.core, AdjustedScores(outcomes), c, m);
    LastTraceIsCurrent(setup, s, events);
  }

  /** Recovery through the whole engine: m + n - 1 scored windows at or under c bring the
      level to LOW from any state. */
  lemma EngineRecovers(setup: Setup, s: EngineState, events: seq<EngineEvent>, c: real, m: nat)
    requires ValidState(setup, s) && ValidEvents(events) && c <= 1.0 && 1 <= m
    requires Latency.FallingCeiling(setup.settings, c, m) < setup.settings.mediumThreshold
    requires AllAtMost(AdjustedScores(Run(setup, s, events).1), c)
    ensures var (end, outcomes) := Run(setup, s, events);
            |AdjustedScores(outcomes)| >= m + setup.settings.breachN - 1 ==> end.core.level == Low
  {
    OnlyScoredWindowsMoveTheLevel(setup, s, events);
    Latency.Recovery(setup.settings, s.core, AdjustedScores(Run(setup, s, events).1), c, m);
  }

  // The latest trace still describes the current level state.
  lemma {:induction false} LastTraceIsCurrent(setup: Setup, s: EngineState, events: seq<EngineEvent>)
    requires ValidState(setup, s) && ValidEvents(events)
    ensures var (end, outcomes) := Run(setup, s, events);
            IsCurrent(setup, outcomes, end.core)
    decreases |events|
  {
    if events != [] {
      var j := |events| - 1;
      LastTraceIsCurrent(setup, s, events[..j]);
      var (before, outcomes) := Run(setup, s, events[..j]);
      StepTrace(setup, before, outcomes, events[j]);
    }
  }

  // The last outcome, when it holds a trace, describes the level state.
  ghost predicate IsCurrent(setup: Setup, outcomes: seq<RiskOutcome>, core: Core) {
    outcomes != [] && outcomes[|outcomes| - 1].trace.Some? ==>
      Describes(setup, outcomes[|outcomes| - 1].trace.value, core)
  }

  ghost predicate Describes(setup: Setup, trace: DecisionTrace, core: Core) {
    && trace.breachHistory == core.history && trace.resultingLevel == core.level
    && trace.requested == Policy.Requested(setup.settings, core.level, CountAtLeast(core.history, setup.settings.highThreshold))
  }

  lemma StepTrace(setup: Setup, s: EngineState, outcomes: seq<RiskOutcome>, event: EngineEvent)
    requires setup.settings.Valid() && event.Valid() && IsCurrent(setup, outcomes, s.core)
    ensures var (s', more) := Step(setup, s, event);
            IsCurrent(setup, outcomes + more, s'.core)
  {
    StepAdds(setup, s, event);
    var more := Step(setup, s, event).1;
    if more == [] {
      assert outcomes + more == outcomes;
    }
  }

  // ---------------------------------------------------------------------
  // Alerts
  // ---------------------------------------------------------------------

  // An alert raised at `i`, and nothing but HIGH in the scored windows since.
  ghost predicate AnnouncedAt(outcomes: seq<RiskOutcome>, i: nat) {
    && i < |outcomes| && BehavioralRiskHigh in outcomes[i].alerts
    && forall k :: i <= k < |outcomes| && outcomes[k].trace.Some? ==> outcomes[k].trace.value.resultingLevel == High
  }

  /** HIGH never goes unannounced: whenever a run from a cold start stands at HIGH, the alert
      was raised, and every window scored since then has been HIGH. */
  lemma {:induction false} HighIsAnnounced(setup: Setup, user: Machine, events: seq<EngineEvent>)
    requires setup.settings.Valid() && ValidEvents(events)
    ensures var (end, outcomes) := Run(setup, Cold(user), events);
            end.core.level == High ==> exists i: nat :: AnnouncedAt(outcomes, i)
    decreases |events|
  {
    if events != [] {
      var j := |events| - 1;
      HighIsAnnounced(setup, user, events[..j]);
      var (before, outcomes) := Run(setup, Cold(user), events[..j]);
      StepIsAnnounced(setup, before, outcomes, events[j]);
    }
  }

  // What one step says of the level and its alert.
  lemma StepAlerts(setup: Setup, s: EngineState, event: EngineEvent)
    requires setup.settings.Valid() && event.Valid()
    ensures var (s', more) := Step(setup, s, event);
            && |more| <= 1
            && (more == [] || more[0].trace.None? ==> s'.core.level == s.core.level)
            && (more != [] && more[0].trace.Some? ==>
                  && more[0].trace.value.resultingLevel == s'.core.level
                  && (s'.core.level == High && s.core.level != High ==> BehavioralRiskHigh in more[0].alerts))
  {
    StepAdds(setup, s, event);
  }

  lemma StepIsAnnounced(setup: Setup, s: EngineState, outcomes: seq<RiskOutcome>, event: EngineEvent)
    requires setup.settings.Valid() && event.Valid()
    requires s.core.level == High ==> exists i: nat :: AnnouncedAt(outcomes, i)
    ensures var (s', more) := Step(setup, s, event);
            s'.core.level == High ==> exists i: nat :: AnnouncedAt(outcomes + more, i)
  {
    StepAlerts(setup, s, event);
    var (s', more) := Step(setup, s, event);
    if s'.core.level == High {
      if s.core.level == High {
        var i: nat :| AnnouncedAt(outcomes, i);
        AnnouncementStands(outcomes, more, i);
      } else {
        assert AnnouncedAt(outcomes + more, |outcomes|);
      }
    }
  }

  lemma AnnouncementStands(outcomes: seq<RiskOutcome>, more: seq<RiskOutcome>, i: nat)
    requires AnnouncedAt(outcomes, i) && |more| <= 1
    requires more != [] && more[0].trace.Some? ==> more[0].trace.value.resultingLevel == High
    ensures AnnouncedAt(outcomes + more, i)
  {
  }

  // ---------------------------------------------------------------------
  // What an enforced action proves
  // ---------------------------------------------------------------------

  /** Nothing is enforced against a user who is not ACTIVE or while shadow mode is on, and
      an enforced TERMINATE means that the last breach_n smoothed scores of the whole run
      exist and all reached the high threshold. */
  lemma {:induction false} EnforcementNeedsEvidence(setup: Setup, user: Machine, events: seq<EngineEvent>,
                                                    event: EngineEvent)
    requires setup.settings.Valid() && user.Valid() && ValidEvents(events) && event.Valid()
    ensures var (before, outcomes) := Run(setup, Cold(user), events);
            var (after, more) := Step(setup, before, event);
            more != [] && more[0].decision.Some? && more[0].decision.value.enforcementApplied ==>
              && more[0].decision.value.userState == Active && after.user.state == Active && !before.shadowMode
              && more[0].decision.value.action in {SoftChallenge, Reauth, Terminate}
              && (more[0].decision.value.action == Terminate ==>
                    var scores := SmoothedScores(outcomes + more);
                    && |scores| >= setup.settings.breachN
                    && AllAtLeast(LastN(scores, setup.settings.breachN), setup.settings.highThreshold))
  {
    var (before, outcomes) := Run(setup, Cold(user), events);
    var (after, more) := Step(setup, before, event);
    var longer := events + [event];
    assert longer[..|events|] == events;
    HistoryIsTheLastScores(setup, user, longer);
    StepAdds(setup, before, event);
    if more != [] && IsScored(setup.settings, before, event.request, after, more[0])
       && more[0].decision.value.enforcementApplied {
      EnforcedMeans(setup.settings, before, event.request, after, more[0]);
    }
  }

  // ---------------------------------------------------------------------
  // Cooldown and budget of the whole engine
  // ---------------------------------------------------------------------

  /** The log of applied actions, read off the emitted decisions. */
  function AppliedLog(outcomes: seq<RiskOutcome>): seq<Policy.Applied> {
    if outcomes == [] then []
    else
      var last := outcomes[|outcomes| - 1].decision;
      AppliedLog(outcomes[..|outcomes| - 1])
      + if last.Some? && last.value.enforcementApplied
        then [Policy.Applied(last.value.action, last.value.tDecisionUs)] else []
  }

  ghost predicate Accounted(setup: Setup, s: EngineState, log: seq<Policy.Applied>) {
    && Policy.Spaced(setup.settings, log) && Policy.Budgeted(setup.settings, log)
    && (s.lastDecisionUs.None? ==> log == [] && s.policy == Policy.Fresh)
    && (s.lastDecisionUs.Some? ==> Policy.Digest(setup.settings, s.policy, log, s.lastDecisionUs.value))
  }

  lemma {:induction false} RunIsAccounted(setup: Setup, user: Machine, events: seq<EngineEvent>)
    requires setup.settings.Valid() && user.Valid() && ValidEvents(events)
    ensures var (end, outcomes) := Run(setup, Cold(user), events);
            Accounted(setup, end, AppliedLog(outcomes))
    decreases |events|
  {
    if events != [] {
      var j := |events| - 1;
      RunIsAccounted(setup, user, events[..j]);
      var (before, outcomes) := Run(setup, Cold(user), events[..j]);
      StepIsAccounted(setup, before, AppliedLog(outcomes), events[j]);
      AppliedAppend(outcomes, Step(setup, before, events[j]).1);
    }
  }

  lemma AppliedAppend(outcomes: seq<RiskOutcome>, more: seq<RiskOutcome>)
    requires |more| <= 1
    ensures AppliedLog(outcomes + more) == AppliedLog(outcomes) + AppliedLog(more)
  {
    if more == [] {
      assert outcomes + more == outcomes;
    } else {
      assert (outcomes + more)[..|outcomes|] == outcomes && more[..0] == [];
    }
  }

  lemma StepIsAccounted(setup: Setup, s: EngineState, log: seq<Policy.Applied>, event: EngineEvent)
    requires setup.settings.Valid() && event.Valid() && Accounted(setup, s, log)
    ensures var (s', more) := Step(setup, s, event);
            |more| <= 1 && Accounted(setup, s', log + AppliedLog(more))
  {
    var (s', more) := Step(setup, s, event);
    StepAdds(setup, s, event);
    if more == [] {
      assert log + AppliedLog(more) == log;
    } else {
      ScoresOfOne(more);
      var t := event.request.tDecisionUs;
      var now := if s.lastDecisionUs.Some? then s.lastDecisionUs.value else t;
      assert Policy.Digest(setup.settings, s.policy, log, now);
      if IsScored(setup.settings, s, event.request, s', more[0]) {
        Policy.DecideKeepsDigest(setup.settings, s.policy, log, now, s'.core.level,
                                 CountAtLeast(s'.core.history, setup.settings.highThreshold), t,
                                 s'.user.state == Active && !s.shadowMode);
      } else {
        assert log + AppliedLog(more) == log;
      }
    }
  }

  /** Over any run of the engine two enforced occurrences of one action are a cooldown
      apart, and no window of one cooldown's length holds more than min(budget, 3). */
  lemma EngineRespectsBudget(setup: Setup, user: Machine, events: seq<EngineEvent>, end: int)
    requires setup.settings.Valid() && user.Valid() && ValidEvents(events)
    ensures var log := AppliedLog(Run(setup, Cold(user), events).1);
            && Policy.Spaced(setup.settings, log)
            && Policy.CountIn(log, end - setup.settings.cooldownUs, end) <= setup.settings.actionBudget
            && Policy.CountIn(log, end - setup.settings.cooldownUs, end) <= 3
  {
    RunIsAccounted(setup, user, events);
    var (s, outcomes) := Run(setup, Cold(user), events);
    AccountedRespectsBudget(setup, s, AppliedLog(outcomes), end);
  }

  lemma AccountedRespectsBudget(setup: Setup, s: EngineState, log: seq<Policy.Applied>, end: int)
    requires setup.settings.Valid() && Accounted(setup, s, log)
    ensures Policy.Spaced(setup.settings, log)
    ensures Policy.CountIn(log, end - setup.settings.cooldownUs, end) <= setup.settings.actionBudget
    ensures Policy.CountIn(log, end - setup.settings.cooldownUs, end) <= 3
  {
    Policy.LogRespectsWindow(setup.settings, log, end);
  }
}
