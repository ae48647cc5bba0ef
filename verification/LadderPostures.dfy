/** From the scores to the posture: what an enforced window makes of the session. */
module LadderPostures {
  import opened Wrappers
  import opened RiskTypes
  import opened RiskEngines
  import opened UserStates
  import opened Postures
  import opened Challenges
  import opened Enforcement
  import opened RuntimeRuns
  import opened Ladders
  import Engine = EngineRuns

  /** The posture after an enforced window, from the posture before and the window's level;
      `full` says that the last breach_n scores all reach the high threshold. */
  ghost predicate Escalates(before: Posture, level: RiskLevel, full: bool, after: Posture) {
    && level in {Medium, High}
    && (level == Medium ==> after == if before == Normal then Challenged else before)
    && (level == High && !full ==> after == if before in {Normal, Challenged} then ReauthRequired else before)
    && (level == High && full ==> after == LockedOut)
  }

  // One enforced decision and the ladder.
  lemma DecisionEscalates(s: SessionState, d: RiskDecision, full: bool, now: int)
    requires d.enforcementApplied && d.action in {SoftChallenge, Reauth, Terminate} && Brings(d.level, full, d.action)
    ensures var s' := DecisionObserved(true, s, d.decisionId, d.action, d.enforcementApplied, now).0;
            && Escalates(s.posture, d.level, full, s'.posture)
            && (s'.posture != s.posture ==> s'.decisionId == Some(d.decisionId) && s'.since == Some(now))
            && (s'.posture == s.posture ==> s' == s)
  {
  }

  lemma EnforcedSession(config: Config, b: Backend, d: RiskDecision, reply: AdapterReply, prompt: Prompt, token: string,
                        now: int)
    ensures Enforced(config, b, d, reply, prompt, token, now).session ==
            if Gated(d) then b.session
            else DecisionObserved(config.enabled, b.session, d.decisionId, d.action, d.enforcementApplied, now).0
  {
    if !Gated(d) && d.action in {SoftChallenge, Reauth} {
      var (pending, native) := NativePrompted(config, b.pending, d, prompt, token, now);
      ExecutedSession(config, b.(pending := pending), d, native, now);
    } else {
      ExecutedSession(config, b, d, reply, now);
    }
  }

  // What the live engine makes of a monitoring event.
  function Produced(config: Config, live: LiveSession, event: RuntimeEvent): seq<RiskOutcome>
    requires event.Valid() && event.Monitored?
  {
    Engine.Step(config.SetupFor(live.userId), live.engine, event.event).1
  }

  // The session of a backend that has, or has not, enforced a decision.
  ghost predicate PostureFollows(config: Config, live: LiveSession, more: seq<RiskOutcome>, before: SessionState,
                                 after: SessionState) {
    if more != [] && more[0].decision.Some? && more[0].decision.value.enforcementApplied then
      Escalates(before.posture, more[0].decision.value.level,
                FullyHigh(config.settings, Engine.SmoothedScores(live.outcomes + [more[0]])), after.posture)
    else after == before
  }

  // A monitoring event touches the session only through its decision.
  lemma WatchedSession(config: Config, r: Runtime, event: RuntimeEvent)
    requires event.Valid() && event.Monitored? && r.live.Some?
    ensures var more := Produced(config, r.live.value, event);
            Step(config, r, event).backend.session ==
            if more == [] || more[0].decision.None? then r.backend.session
            else Enforced(config, r.backend, more[0].decision.value, event.reply, event.prompt, event.token, event.at).session
  {
  }

  // What the ladder says of an enforced outcome.
  ghost predicate Enforces(config: Config, live: LiveSession, outcome: RiskOutcome) {
    outcome.decision.Some? && outcome.decision.value.enforcementApplied ==>
      && outcome.decision.value.userState == Active
      && outcome.decision.value.action in {SoftChallenge, Reauth, Terminate}
      && Brings(outcome.decision.value.level, FullyHigh(config.settings, Engine.SmoothedScores(live.outcomes + [outcome])),
                outcome.decision.value.action)
  }

  lemma EnforcedFollows(config: Config, live: LiveSession, b: Backend, outcome: RiskOutcome, event: RuntimeEvent)
    requires config.enabled && event.Monitored? && outcome.decision.Some? && Enforces(config, live, outcome)
    ensures PostureFollows(config, live, [outcome], b.session,
                           Enforced(config, b, outcome.decision.value, event.reply, event.prompt, event.token, event.at).session)
  {
    var d := outcome.decision.value;
    EnforcedSession(config, b, d, event.reply, event.prompt, event.token, event.at);
    if d.enforcementApplied {
      DecisionEscalates(b.session, d, FullyHigh(config.settings, Engine.SmoothedScores(live.outcomes + [outcome])),
                        event.at);
    }
  }

  // The live engine's latest step, seen from the history.
  lemma LiveEnforces(config: Config, shadow: bool, events: seq<RuntimeEvent>, event: RuntimeEvent)
    requires config.settings.Valid() && ValidEvents(events) && event.Valid() && event.Monitored?
    requires Run(config, shadow, events).live.Some?
    ensures var live := Run(config, shadow, events).live.value;
            var more := Produced(config, live, event);
            |more| <= 1 && (more != [] ==> Enforces(config, live, more[0]))
  {
    EngineIsIndependent(config, shadow, events);
    var story := StoryOf(shadow, events).value;
    ActionsAreExact(config.SetupFor(story.userId), Machine(story.stored, None), story.events, event.event);
    Engine.StepAdds(config.SetupFor(story.userId), Run(config, shadow, events).live.value.engine, event.event);
  }

  /** Main result: in any run of the runtime with enforcement enabled, an enforced window
      takes the session to CHALLENGED at MEDIUM, to REAUTH_REQUIRED at HIGH and to LOCKED_OUT
      at HIGH with the session's last breach_n scores all high, never lower than it was; and
      a window that enforces nothing leaves the session as it was. */
  lemma LevelsReachThePosture(config: Config, shadow: bool, events: seq<RuntimeEvent>, event: RuntimeEvent)
    requires config.settings.Valid() && config.enabled && ValidEvents(events) && event.Valid() && event.Monitored?
    requires Run(config, shadow, events).live.Some?
    ensures var r := Run(config, shadow, events);
            var live := r.live.value;
            PostureFollows(config, live, Produced(config, live, event), r.backend.session,
                           Step(config, r, event).backend.session)
  {
    var r := Run(config, shadow, events);
    var live := r.live.value;
    var more := Produced(config, live, event);
    WatchedSession(config, r, event);
    LiveEnforces(config, shadow, events, event);
    if more != [] && more[0].decision.Some? {
      EnforcedFollows(config, live, r.backend, more[0], event);
      assert more == [more[0]];
    }
  }
}
