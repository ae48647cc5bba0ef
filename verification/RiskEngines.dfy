/** The risk engine: scored windows in, decisions out, failing open and loudly. */
module RiskEngines {
  import opened Wrappers
  import opened Texts
  import opened RiskTypes
  import opened RiskCore
  import opened UserStates
  import Policy

  /** Everything the engine remembers between two calls. */
  datatype EngineState = EngineState(
    core: Core,
    lastDecisionUs: Option<nat>,
    shadowMode: bool,
    user: Machine,
    policy: Policy.PolicyState)

  function RequiredFailure(score: ScoreResult): Option<ModelStatus> {
    if score.quality in {Full, KbdOnly} && (!score.keyboard.available || score.keyboard.status != Scored) then
      Some(score.keyboard.status)
    else if score.quality in {Full, MouseOnly} && (!score.mouse.available || score.mouse.status != Scored) then
      Some(score.mouse.status)
    else None
  }

  // The fused score of a window that reaches the smoother, None where the engine fails open.
  function Evidence(settings: RiskSettings, score: ScoreResult): Option<real> {
    if score.quality == InsufficientData || RequiredFailure(score).Some? then None
    else
      var fused := Fusion(settings, score);
      if fused.None? then None else Some(fused.value.score)
  }

  function UnscoredDecision(
    userId: string, request: DecisionInput, decisionId: string, user: UserState, reason: string, shadow: bool)
    : RiskDecision
  {
    RiskDecision(decisionId, userId, request.sessionId, request.segmentId, request.score.windowId,
                 request.tDecisionUs, request.score.quality, None, None, Unavailable, user,
                 NoAction, reason, shadow, false)
  }

  function Held(s: EngineState, userId: string, request: DecisionInput, decisionId: string): RiskOutcome {
    RiskOutcome(Some(UnscoredDecision(userId, request, decisionId, s.user.state, "INSUFFICIENT_EVIDENCE_HOLD",
                                      s.user.state == Calibrating || s.shadowMode)), None, [])
  }

  function FailedOpen(s: EngineState, userId: string, request: DecisionInput, decisionId: string): RiskOutcome {
    RiskOutcome(Some(UnscoredDecision(userId, request, decisionId, Degraded, "FAIL_OPEN_COMPONENT_UNAVAILABLE",
                                      s.shadowMode)), None, [RiskInputUnavailable])
  }

  /** A window whose fused score reached the smoother. */
  function Score(
    settings: RiskSettings, s: EngineState, userId: string, request: DecisionInput, decisionId: string, fused: real)
    : (EngineState, RiskOutcome)
    requires request.Valid()
  {
    var user := RecoveredFrom(s.user);
    var adjusted := request.context.Adjust(fused);
    var core := Advance(settings, s.core, adjusted);
    var enforcing := user.state == Active && !s.shadowMode;
    var highCount := CountAtLeast(core.history, settings.highThreshold);
    var (policy, result) :=
      Policy.Decide(settings, s.policy, core.level, highCount, request.tDecisionUs, enforcing);
    var alerts :=
      (if core.level == High && s.core.level != High then [BehavioralRiskHigh] else [])
      + (if result.budgetExhausted then [ActionBudgetExhausted] else []);
    var decision :=
      RiskDecision(decisionId, userId, request.sessionId, request.segmentId, request.score.windowId,
                   request.tDecisionUs, request.score.quality, Some(fused), core.smoothed, core.level,
                   user.state, result.emitted, result.reason, user.state == Calibrating || s.shadowMode,
                   result.enforcementApplied);
    var trace := DecisionTrace(fused, adjusted, s.core.smoothed, core.smoothed.value, core.history,
                               s.core.level, core.level, result.requested, result.emitted);
    (s.(core := core, user := user, policy := policy), RiskOutcome(Some(decision), Some(trace), alerts))
  }

  function Process(
    settings: RiskSettings, userId: string, s: EngineState, request: DecisionInput, decisionId: string)
    : (EngineState, Result<RiskOutcome, RiskError>)
    requires request.Valid()
  {
    if request.score.userId != userId then (s, Err(AnotherUser))
    else if s.lastDecisionUs.Some? && request.tDecisionUs < s.lastDecisionUs.value then (s, Err(NonMonotonicTime))
    else
      var s1 := s.(lastDecisionUs := Some(request.tDecisionUs));
      if s.user.state in {Enrolling, Suspended} then (s1, Ok(RiskOutcome(None, None, [])))
      else if request.score.quality == InsufficientData then (s1, Ok(Held(s1, userId, request, decisionId)))
      else
        var evidence := Evidence(settings, request.score);
        if evidence.None? then
          (s1.(user := DegradedFrom(s.user)), Ok(FailedOpen(s1, userId, request, decisionId)))
        else
          var (s2, outcome) := Score(settings, s1, userId, request, decisionId, evidence.value);
          (s2, Ok(outcome))
  }

  class RiskEngine {
    const userId: string
    const settings: RiskSettings
    const machine: UserStateMachine
    const policy: Policy.DecisionPolicy
    var history: seq<real>
    var smoothed: Option<real>
    var riskLevel: RiskLevel
    var lastDecisionUs: Option<nat>
    var shadowMode: bool

    ghost predicate Valid()
      reads this, machine, policy
    {
      && settings.Valid() && policy.settings == settings
      && View().core.Valid(settings) && View().user.Valid()
    }

    function View(): EngineState
      reads this, machine, policy
    {
      EngineState(Core(history, smoothed, riskLevel), lastDecisionUs, shadowMode, machine.View(), policy.View())
    }

    constructor (userId: string, settings: RiskSettings, machine: UserStateMachine)
      requires settings.Valid() && machine.View().Valid()
      ensures Valid() && fresh(policy)
      ensures this.userId == userId && this.settings == settings && this.machine == machine
      ensures View() == EngineState(ColdStart, None, false, machine.View(), Policy.Fresh)
    {
      this.userId := userId;
      this.settings := settings;
      this.machine := machine;
      policy := new Policy.DecisionPolicy(settings);
      history := [];
      smoothed := None;
      riskLevel := Low;
      lastDecisionUs := None;
      shadowMode := false;
    }

    method SetShadowMode(enabled: bool)
      requires Valid()
      modifies this`shadowMode
      ensures Valid() && View() == old(View()).(shadowMode := enabled)
    {
      shadowMode := enabled;
    }

    method ProcessWindow(request: DecisionInput, decisionId: string) returns (result: Result<RiskOutcome, RiskError>)
      requires Valid() && request.Valid()
      modifies this, machine, policy
      ensures Valid()
      ensures (View(), result) == Process(settings, userId, old(View()), request, decisionId)
    {
      if request.score.userId != userId {
        return Err(AnotherUser);
      }
      if lastDecisionUs.Some? && request.tDecisionUs < lastDecisionUs.value {
        return Err(NonMonotonicTime);
      }
      lastDecisionUs := Some(request.tDecisionUs);

      var state := machine.state;
      if state in {Enrolling, Suspended} {
        return Ok(RiskOutcome(None, None, []));
      }
      if request.score.quality == InsufficientData {
        var held := UnscoredDecision(userId, request, decisionId, state, "INSUFFICIENT_EVIDENCE_HOLD",
                                     state == Calibrating || shadowMode);
        return Ok(RiskOutcome(Some(held), None, []));
      }
      var failure := RequiredFailure(request.score);
      if failure.Some? {
        var failed := FailureOutcome(request, decisionId);
        return Ok(failed);
      }
      var fused := Fusion(settings, request.score);
      if fused.None? {
        var failed := FailureOutcome(request, decisionId);
        return Ok(failed);
      }
      EvidenceIsUnit(settings, request.score);
      var scored := ScoreWindow(request, decisionId, fused.value.score);
      return Ok(scored);
    }

    method FailureOutcome(request: DecisionInput, decisionId: string) returns (outcome: RiskOutcome)
      requires Valid() && request.Valid()
      modifies machine
      ensures Valid() && View() == old(View()).(user := DegradedFrom(old(View()).user))
      ensures outcome == FailedOpen(old(View()), userId, request, decisionId)
    {
      var _ := machine.Degrade("RISK_INPUT_UNAVAILABLE");
      var decision := UnscoredDecision(userId, request, decisionId, Degraded,
                                       "FAIL_OPEN_COMPONENT_UNAVAILABLE", shadowMode);
      return RiskOutcome(Some(decision), None, [RiskInputUnavailable]);
    }

    method AdvanceLevel(adjusted: real)
      requires Valid() && 0.0 <= adjusted <= 1.0
      modifies this`history, this`smoothed, this`riskLevel
      ensures Valid()
      ensures View() == old(View()).(core := Advance(settings, old(View().core), adjusted))
    {
      AdvanceKeepsValid(settings, Core(history, smoothed, riskLevel), adjusted);
      var current := Smoothed(settings, smoothed, adjusted);
      smoothed := Some(current);
      history := Pushed(history, current, settings.breachN);
      riskLevel := WithHysteresis(settings, history, riskLevel, Candidate(settings, history));
    }

    method ScoreWindow(request: DecisionInput, decisionId: string, fused: real) returns (outcome: RiskOutcome)
      requires Valid() && request.Valid() && 0.0 <= fused <= 1.0
      modifies this`history, this`smoothed, this`riskLevel, machine, policy
      ensures Valid()
      ensures (View(), outcome) == Score(settings, old(View()), userId, request, decisionId, fused)
    {
      if machine.state == Degraded {
        var _ := machine.Recover();
      }
      var state := machine.state;
      var adjusted := request.context.Adjust(fused);
      var previous, prior := smoothed, riskLevel;
      AdvanceLevel(adjusted);
      var current := smoothed.value;
      var highCount := CountAtLeast(history, settings.highThreshold);
      var decided := policy.DecideAction(riskLevel, highCount, request.tDecisionUs, state == Active && !shadowMode);
      var alerts := if riskLevel == High && prior != High then [BehavioralRiskHigh] else [];
      if decided.budgetExhausted {
        alerts := alerts + [ActionBudgetExhausted];
      }
      var emitted, applied, reason := decided.emitted, decided.enforcementApplied, decided.reason;
      if state == Degraded {
        emitted, applied, reason := NoAction, false, "DEGRADED_FAIL_OPEN";
      }
      var decision :=
        RiskDecision(decisionId, userId, request.sessionId, request.segmentId, request.score.windowId,
                     request.tDecisionUs, request.score.quality, Some(fused), smoothed, riskLevel,
                     state, emitted, reason, state == Calibrating || shadowMode, applied);
      var trace := DecisionTrace(fused, adjusted, previous, current, history, prior, riskLevel,
                                 decided.requested, emitted);
      assert alerts == (if riskLevel == High && prior != High then [BehavioralRiskHigh] else [])
                       + (if decided.budgetExhausted then [ActionBudgetExhausted] else []);
      return RiskOutcome(Some(decision), Some(trace), alerts);
    }

    method LoseHeartbeat() returns (alert: AlertCode)
      requires Valid()
      modifies machine
      ensures Valid() && View() == old(View()).(user := DegradedFrom(old(View()).user))
      ensures alert == HeartbeatLost
    {
      var _ := machine.Degrade("COLLECTOR_HEARTBEAT_LOST");
      return HeartbeatLost;
    }

    method FailComponent(component: string, detail: string) returns (result: Result<AlertCode, RiskError>)
      requires Valid()
      modifies machine
      ensures Valid()
      ensures result == if Blank(component) || Blank(detail) then Err(BlankField) else Ok(ComponentFailed)
      ensures View() == if result.Err? then old(View()) else old(View()).(user := DegradedFrom(old(View()).user))
    {
      if Blank(component) || Blank(detail) {
        return Err(BlankField);
      }
      var _ := machine.Degrade("BACKEND_COMPONENT_FAILED");
      return Ok(ComponentFailed);
    }

    method RecoverComponent() returns (recovered: bool)
      requires Valid()
      modifies machine
      ensures Valid() && View() == old(View()).(user := RecoveredFrom(old(View()).user))
      ensures recovered <==> old(machine.state) == Degraded
    {
      if machine.state != Degraded {
        return false;
      }
      var _ := machine.Recover();
      return true;
    }
  }

  lemma EvidenceIsUnit(settings: RiskSettings, score: ScoreResult)
    requires settings.Valid() && score.Valid()
    ensures Evidence(settings, score).Some? ==> 0.0 <= Evidence(settings, score).value <= 1.0
    ensures Fusion(settings, score).Some? ==> 0.0 <= Fusion(settings, score).value.score <= 1.0
  {
    FusionIsAMean(settings, score, 0.0, 1.0);
  }

  // ---------------------------------------------------------------------
  // One window at a time
  // ---------------------------------------------------------------------

  /** A scored window: its evidence moves the level, and the policy decides on the result. */
  ghost predicate IsScored(
    settings: RiskSettings, s: EngineState, request: DecisionInput, s': EngineState, outcome: RiskOutcome)
    requires request.Valid()
  {
    && Evidence(settings, request.score).Some?
    && outcome.trace.Some? && outcome.decision.Some?
    && var adjusted := request.context.Adjust(Evidence(settings, request.score).value);
    && var enabled := s'.user.state == Active && !s.shadowMode;
    && var highCount := CountAtLeast(s'.core.history, settings.highThreshold);
    && var trace, decision := outcome.trace.value, outcome.decision.value;
    && var (policy, result) := Policy.Decide(settings, s.policy, s'.core.level, highCount, request.tDecisionUs, enabled);
    && s'.core == Advance(settings, s.core, adjusted)
    && s'.user == RecoveredFrom(s.user)
    && s'.policy == policy
    && trace.adjustedScore == adjusted
    && Some(trace.smoothedScore) == s'.core.smoothed
    && trace.breachHistory == s'.core.history
    && trace.priorLevel == s.core.level && trace.resultingLevel == s'.core.level
    && trace.fusedScore == Evidence(settings, request.score).value
    && trace.requested == result.requested
    && decision.tDecisionUs == request.tDecisionUs
    && decision.quality == request.score.quality != InsufficientData
    && decision.userState == s'.user.state
    && decision.fusedScore == Evidence(settings, request.score)
    && decision.smoothedScore == s'.core.smoothed
    && decision.level == s'.core.level
    && decision.action == result.emitted && decision.reason == result.reason
    && decision.enforcementApplied == result.enforcementApplied
    && (BehavioralRiskHigh in outcome.alerts <==> s'.core.level == High && s.core.level != High)
    && (ActionBudgetExhausted in outcome.alerts <==> result.budgetExhausted)
  }

  /** An unscored window: the level, the budget and the cooldowns stand still. */
  ghost predicate IsUnscored(s: EngineState, s': EngineState, outcome: RiskOutcome) {
    && outcome.trace.None?
    && s'.core == s.core && s'.policy == s.policy
    && s'.user in {s.user, DegradedFrom(s.user)}
    && (outcome.decision.Some? ==>
          var decision := outcome.decision.value;
          && decision.level == Unavailable && !decision.enforcementApplied && decision.action == NoAction
          && decision.fusedScore.None? && decision.smoothedScore.None?)
  }

  // The two conditions under which the engine raises.
  predicate IsRefused(userId: string, s: EngineState, request: DecisionInput) {
    request.score.userId != userId || (s.lastDecisionUs.Some? && request.tDecisionUs < s.lastDecisionUs.value)
  }

  // Scoring a window is one of the two ways a window is handled.
  lemma ScoringIsScored(
    settings: RiskSettings, s: EngineState, userId: string, request: DecisionInput, decisionId: string, fused: real)
    requires request.Valid() && request.score.quality != InsufficientData
    requires Evidence(settings, request.score) == Some(fused)
    ensures var (s', outcome) := Score(settings, s, userId, request, decisionId, fused);
            && IsScored(settings, s, request, s', outcome)
            && s'.lastDecisionUs == s.lastDecisionUs && s'.shadowMode == s.shadowMode
  {
    var core := Advance(settings, s.core, request.context.Adjust(fused));
    var enabled := RecoveredFrom(s.user).state == Active && !s.shadowMode;
    var result := Policy.Decide(settings, s.policy, core.level, CountAtLeast(core.history, settings.highThreshold),
                                request.tDecisionUs, enabled).1;
    var outcome := Score(settings, s, userId, request, decisionId, fused).1;
    TwoAlerts(core.level == High && s.core.level != High, result.budgetExhausted);
    assert outcome.alerts == (if core.level == High && s.core.level != High then [BehavioralRiskHigh] else [])
                             + (if result.budgetExhausted then [ActionBudgetExhausted] else []);
  }

  lemma TwoAlerts(rose: bool, exhausted: bool)
    ensures var alerts := (if rose then [BehavioralRiskHigh] else []) + (if exhausted then [ActionBudgetExhausted] else []);
            (BehavioralRiskHigh in alerts <==> rose) && (ActionBudgetExhausted in alerts <==> exhausted)
  {
  }

  /** Every call either raises and changes nothing, or handles its window in one of the
      two ways above; a user who is enrolling or suspended gets no decision. */
  lemma ProcessCases(settings: RiskSettings, userId: string, s: EngineState, request: DecisionInput, decisionId: string)
    requires settings.Valid() && request.Valid()
    ensures var (s', result) := Process(settings, userId, s, request, decisionId);
            && (result.Err? <==> IsRefused(userId, s, request))
            && (result.Err? ==> s' == s)
            && (result.Ok? ==>
                  && s'.lastDecisionUs == Some(request.tDecisionUs) && s'.shadowMode == s.shadowMode
                  && (IsScored(settings, s, request, s', result.value) || IsUnscored(s, s', result.value))
                  && (result.value.decision.None? <==> s.user.state in {Enrolling, Suspended})
                  && (result.value.trace.None? <==>
                        s.user.state in {Enrolling, Suspended} || Evidence(settings, request.score).None?))
  {
    if !IsRefused(userId, s, request) && s.user.state !in {Enrolling, Suspended} && Evidence(settings, request.score).Some? {
      var s1 := s.(lastDecisionUs := Some(request.tDecisionUs));
      ScoringIsScored(settings, s1, userId, request, decisionId, Evidence(settings, request.score).value);
      var (s', outcome) := Score(settings, s1, userId, request, decisionId, Evidence(settings, request.score).value);
      assert Process(settings, userId, s, request, decisionId) == (s', Ok(outcome));
      assert IsScored(settings, s, request, s', outcome);
    }
  }

  /** A decision names an enrolling user exactly when an outage that began while enrolling
      ends with this window: recovery comes before the decision is built. */
  lemma EnrollingDecisions(settings: RiskSettings, userId: string, s: EngineState, request: DecisionInput,
                           decisionId: string)
    requires settings.Valid() && request.Valid() && s.user.Valid() && !IsRefused(userId, s, request)
    ensures var outcome := Process(settings, userId, s, request, decisionId).1.value;
            outcome.decision.Some? && outcome.decision.value.userState == Enrolling <==>
              && s.user.state == Degraded && s.user.preDegraded in {None, Some(Enrolling)}
              && Evidence(settings, request.score).Some?
  {
    if s.user.state !in {Enrolling, Suspended} && Evidence(settings, request.score).Some? {
      var s1 := s.(lastDecisionUs := Some(request.tDecisionUs));
      ScoringIsScored(settings, s1, userId, request, decisionId, Evidence(settings, request.score).value);
    }
  }

  lemma ScoredKeepsValid(
    settings: RiskSettings, s: EngineState, request: DecisionInput, s': EngineState, outcome: RiskOutcome)
    requires settings.Valid() && request.Valid() && s.core.Valid(settings) && s.user.Valid()
    requires IsScored(settings, s, request, s', outcome)
    ensures s'.core.Valid(settings) && s'.user.Valid() && outcome.decision.value.ContractHolds()
  {
    EvidenceIsUnit(settings, request.score);
    AdvanceKeepsValid(settings, s.core, outcome.trace.value.adjustedScore);
  }

  /** What one enforced decision proves about the state it was taken in. */
  lemma EnforcedMeans(
    settings: RiskSettings, s: EngineState, request: DecisionInput, s': EngineState, outcome: RiskOutcome)
    requires settings.Valid() && request.Valid() && IsScored(settings, s, request, s', outcome)
    requires outcome.decision.value.enforcementApplied
    ensures s'.user.state == Active && !s.shadowMode
    ensures outcome.decision.value.action == outcome.trace.value.requested
    ensures outcome.decision.value.action in {SoftChallenge, Reauth, Terminate}
    ensures outcome.decision.value.action == Terminate ==>
              |s'.core.history| == settings.breachN && AllAtLeast(s'.core.history, settings.highThreshold)
  {
    var history := s'.core.history;
    Policy.AppliedMeans(settings, s.policy, s'.core.level, CountAtLeast(history, settings.highThreshold),
                        request.tDecisionUs, s'.user.state == Active && !s.shadowMode);
    CountIsBounded(history, settings.highThreshold);
    assert |history| <= settings.breachN;
  }
}
