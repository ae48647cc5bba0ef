/** Failing open and loudly: how every window is handled, read off the request alone, and
    why a user is degraded. */
module FailingOpen {
  import opened Wrappers
  import opened Texts
  import opened RiskTypes
  import opened RiskCore
  import opened UserStates
  import opened RiskEngines
  import opened EngineRuns

  // ---------------------------------------------------------------------
  // What a window's quality requires
  // ---------------------------------------------------------------------

  predicate Usable(modality: ModalityScore) {
    modality.available && modality.status == Scored
  }

  /** A modality that the window's quality promises is missing or was not scored. */
  predicate Incomplete(score: ScoreResult) {
    || (score.quality in {Full, KbdOnly} && !Usable(score.keyboard))
    || (score.quality in {Full, MouseOnly} && !Usable(score.mouse))
  }

  lemma EvidenceIsComplete(settings: RiskSettings, score: ScoreResult)
    requires settings.Valid() && score.Valid()
    ensures Evidence(settings, score).Some? <==> score.quality != InsufficientData && !Incomplete(score)
  {
    FusionIsAMean(settings, score, 0.0, 1.0);
  }

  // ---------------------------------------------------------------------
  // The four ways a window is handled
  // ---------------------------------------------------------------------

  // The decision says whose it is and which window it is about.
  ghost predicate Concerns(d: RiskDecision, setup: Setup, event: EngineEvent)
    requires event.Window?
  {
    var request := event.request;
    && d.decisionId == event.decisionId && d.userId == setup.userId
    && d.sessionId == request.sessionId && d.segmentId == request.segmentId && d.windowId == request.score.windowId
    && d.tDecisionUs == request.tDecisionUs && d.quality == request.score.quality
  }

  ghost predicate Harmless(d: RiskDecision) {
    && d.level == Unavailable && d.action == NoAction && !d.enforcementApplied
    && d.fusedScore.None? && d.smoothedScore.None?
  }

  // Nobody to decide about: only the time is noted.
  ghost predicate Unheard(s: EngineState, t: nat, s': EngineState, outcome: RiskOutcome) {
    s' == s.(lastDecisionUs := Some(t)) && outcome == RiskOutcome(None, None, [])
  }

  /** Too little data: a decision that does nothing, no alert, and nothing moves. */
  ghost predicate HeldBack(setup: Setup, s: EngineState, event: EngineEvent, s': EngineState, outcome: RiskOutcome)
    requires event.Window?
  {
    && s' == s.(lastDecisionUs := Some(event.request.tDecisionUs))
    && outcome.decision.Some? && outcome.trace.None? && outcome.alerts == []
    && var d := outcome.decision.value;
    && Concerns(d, setup, event) && Harmless(d) && d.reason == "INSUFFICIENT_EVIDENCE_HOLD"
    && d.userState == s.user.state && d.shadowMode == (s.user.state == Calibrating || s.shadowMode)
  }

  /** Required input is missing: the user is degraded, the decision says so, and there is
      exactly one alert. */
  ghost predicate FailedLoudly(setup: Setup, s: EngineState, event: EngineEvent, s': EngineState, outcome: RiskOutcome)
    requires event.Window?
  {
    && s'.user.state == Degraded
    && (s.user.state == Degraded ==> s'.user == s.user)
    && (s.user.state != Degraded ==> s'.user.preDegraded == Some(s.user.state))
    && s' == s.(lastDecisionUs := Some(event.request.tDecisionUs), user := s'.user)
    && outcome.decision.Some? && outcome.trace.None? && outcome.alerts == [RiskInputUnavailable]
    && var d := outcome.decision.value;
    && Concerns(d, setup, event) && Harmless(d) && d.reason == "FAIL_OPEN_COMPONENT_UNAVAILABLE"
    && d.userState == Degraded && d.shadowMode == s.shadowMode
  }

  /** Scored: an outage ends, and no alert speaks of missing input. */
  ghost predicate Judged(setup: Setup, s: EngineState, event: EngineEvent, s': EngineState, outcome: RiskOutcome)
    requires event.Window? && event.Valid()
  {
    && IsScored(setup.settings, s, event.request, s', outcome)
    && s'.lastDecisionUs == Some(event.request.tDecisionUs) && s'.shadowMode == s.shadowMode
    && s'.user.state != Degraded
    && (forall i :: 0 <= i < |outcome.alerts| ==> outcome.alerts[i] in {BehavioralRiskHigh, ActionBudgetExhausted})
    && Concerns(outcome.decision.value, setup, event)
    && outcome.decision.value.shadowMode == (s'.user.state == Calibrating || s.shadowMode)
    && outcome.trace.value.previousSmoothed == s.core.smoothed
    && outcome.trace.value.emitted == outcome.decision.value.action
  }

  // One window, by what its request holds and the state the user is in.
  ghost predicate Handled(setup: Setup, s: EngineState, event: EngineEvent, s': EngineState, more: seq<RiskOutcome>)
    requires event.Window? && event.Valid()
  {
    var score := event.request.score;
    if IsRefused(setup.userId, s, event.request) then s' == s && more == []
    else
      && |more| == 1
      && if s.user.state in {Enrolling, Suspended} then Unheard(s, event.request.tDecisionUs, s', more[0])
         else if score.quality == InsufficientData then HeldBack(setup, s, event, s', more[0])
         else if Incomplete(score) then FailedLoudly(setup, s, event, s', more[0])
         else Judged(setup, s, event, s', more[0])
  }

  lemma ScoredIsJudged(setup: Setup, s: EngineState, event: EngineEvent)
    requires setup.settings.Valid() && event.Valid() && event.Window? && s.user.Valid()
    requires !IsRefused(setup.userId, s, event.request) && s.user.state !in {Enrolling, Suspended}
    requires Evidence(setup.settings, event.request.score).Some?
    ensures var (s', more) := Step(setup, s, event); |more| == 1 && Judged(setup, s, event, s', more[0])
  {
    var fused := Evidence(setup.settings, event.request.score).value;
    var s1 := s.(lastDecisionUs := Some(event.request.tDecisionUs));
    ScoringIsScored(setup.settings, s1, setup.userId, event.request, event.decisionId, fused);
    var (s', outcome) := Score(setup.settings, s1, setup.userId, event.request, event.decisionId, fused);
    assert Process(setup.settings, setup.userId, s, event.request, event.decisionId) == (s', Ok(outcome));
    RecoveryEndsOutage(s.user);
    assert Concerns(outcome.decision.value, setup, event);
  }

  lemma RecoveryEndsOutage(m: Machine)
    requires m.Valid()
    ensures RecoveredFrom(m).state != Degraded
  {
  }

  /** Every window is handled in exactly one of these ways, whatever came before it. */
  lemma WindowsAreHandled(setup: Setup, user: Machine, events: seq<EngineEvent>, event: EngineEvent)
    requires setup.settings.Valid() && user.Valid() && ValidEvents(events) && event.Valid() && event.Window?
    ensures var (before, _) := Run(setup, Cold(user), events);
            var (after, more) := Step(setup, before, event);
            Handled(setup, before, event, after, more)
  {
    RunFacts(setup, Cold(user), events);
    StepIsHandled(setup, Run(setup, Cold(user), events).0, event);
  }

  lemma StepIsHandled(setup: Setup, s: EngineState, event: EngineEvent)
    requires ValidState(setup, s) && event.Valid() && event.Window?
    ensures var (s', more) := Step(setup, s, event); Handled(setup, s, event, s', more)
  {
    EvidenceIsComplete(setup.settings, event.request.score);
    if !IsRefused(setup.userId, s, event.request) && s.user.state !in {Enrolling, Suspended}
       && Evidence(setup.settings, event.request.score).Some? {
      ScoredIsJudged(setup, s, event);
    }
  }

  // ---------------------------------------------------------------------
  // No outage without a cause
  // ---------------------------------------------------------------------

  /** What may degrade a user: a lost heartbeat, a failed component, or a window that says so
      in its alert and its decision. */
  ghost predicate CausesOutage(setup: Setup, s: EngineState, event: EngineEvent)
    requires event.Valid()
  {
    match event
    case HeartbeatLoss => true
    case ComponentFailure(component, detail) => !Blank(component) && !Blank(detail)
    case Window(request, _) =>
      var more := Step(setup, s, event).1;
      && Incomplete(request.score) && |more| == 1 && more[0].alerts == [RiskInputUnavailable]
      && more[0].decision.Some? && more[0].decision.value.userState == Degraded
    case _ => false
  }

  lemma DegradingIsCaused(setup: Setup, s: EngineState, event: EngineEvent)
    requires ValidState(setup, s) && event.Valid()
    requires s.user.state != Degraded && Step(setup, s, event).0.user.state == Degraded
    ensures CausesOutage(setup, s, event)
  {
    if event.Window? {
      StepIsHandled(setup, s, event);
    } else if event.ComponentRecovery? || event.Enrolled? || event.Reenrollment? || event.Suspension? {
      assert false;
    }
  }

  // The event that began the outage, and nothing but outage since.
  ghost predicate Began(setup: Setup, user: Machine, events: seq<EngineEvent>, k: nat)
    requires ValidEvents(events)
  {
    && k < |events| && CausesOutage(setup, Run(setup, Cold(user), events[..k]).0, events[k])
    && forall j :: k < j <= |events| ==> Run(setup, Cold(user), events[..j]).0.user.state == Degraded
  }

  /** Over any run, a user who stands DEGRADED was degraded by a cause that was announced, and
      has been so ever since. */
  lemma {:induction false} OutagesAreCaused(setup: Setup, user: Machine, events: seq<EngineEvent>) returns (k: nat)
    requires setup.settings.Valid() && user.Valid() && user.state != Degraded && ValidEvents(events)
    requires Run(setup, Cold(user), events).0.user.state == Degraded
    ensures Began(setup, user, events, k)
    decreases |events|
  {
    var last := |events| - 1;
    var before := Run(setup, Cold(user), events[..last]).0;
    if before.user.state == Degraded {
      k := OutagesAreCaused(setup, user, events[..last]);
      OutageGoesOn(setup, user, events, k);
    } else {
      k := last;
      RunFacts(setup, Cold(user), events[..last]);
      DegradingIsCaused(setup, before, events[last]);
      assert events[..|events|] == events;
    }
  }

  lemma OutageGoesOn(setup: Setup, user: Machine, events: seq<EngineEvent>, k: nat)
    requires ValidEvents(events) && events != [] && Began(setup, user, events[..|events| - 1], k)
    requires Run(setup, Cold(user), events).0.user.state == Degraded
    ensures Began(setup, user, events, k)
  {
    var before := events[..|events| - 1];
    assert before[..k] == events[..k] && before[k] == events[k];
    forall j | k < j <= |events| ensures Run(setup, Cold(user), events[..j]).0.user.state == Degraded {
      if j < |events| {
        assert before[..j] == events[..j];
      } else {
        assert events[..j] == events;
      }
    }
  }
}
