/** Sustained risk locks the session out: the engine's escalation carried through the runtime. */
module Lockouts {
  import opened Wrappers
  import opened RiskTypes
  import opened UserStates
  import opened RiskEngines
  import opened Postures
  import opened Challenges
  import opened Enforcement
  import opened RuntimeRuns
  import opened Escalations
  import Engine = EngineRuns
  import Latency

  // ---------------------------------------------------------------------
  // A stretch of one session
  // ---------------------------------------------------------------------

  // No session starts or ends in it; anything else may happen.
  ghost predicate WithinSession(events: seq<RuntimeEvent>) {
    forall i :: 0 <= i < |events| ==> !events[i].Starts? && !events[i].Ends?
  }

  function After(config: Config, r: Runtime, events: seq<RuntimeEvent>): Runtime
    requires ValidEvents(events)
    decreases |events|
  {
    if events == [] then r else Step(config, After(config, r, events[..|events| - 1]), events[|events| - 1])
  }

  function EngineEvents(events: seq<RuntimeEvent>): (es: seq<Engine.EngineEvent>)
    requires ValidEvents(events)
    ensures Engine.ValidEvents(es)
    decreases |events|
  {
    if events == [] then []
    else
      var last := events[|events| - 1];
      EngineEvents(events[..|events| - 1]) + if last.Monitored? then [last.event] else []
  }

  lemma {:induction false} RunGoesOn(config: Config, shadow: bool, history: seq<RuntimeEvent>, events: seq<RuntimeEvent>)
    requires ValidEvents(history) && ValidEvents(events)
    ensures ValidEvents(history + events)
    ensures Run(config, shadow, history + events) == After(config, Run(config, shadow, history), events)
    decreases |events|
  {
    if events == [] {
      assert history + events == history;
    } else {
      var before := events[..|events| - 1];
      RunGoesOn(config, shadow, history, before);
      assert (history + events)[..|history + events| - 1] == history + before;
    }
  }

  // The engine inside the stretch.
  ghost predicate SameSession(config: Config, start: LiveSession, r: Runtime, es: seq<Engine.EngineEvent>) {
    && Engine.ValidEvents(es)
    && r.live.Some? && r.live.value.userId == start.userId
    && r.live.value.engine == Engine.Run(config.SetupFor(start.userId), start.engine, es).0
  }

  lemma StepStaysInSession(config: Config, start: LiveSession, r: Runtime, es: seq<Engine.EngineEvent>, event: RuntimeEvent)
    requires event.Valid() && !event.Starts? && !event.Ends? && SameSession(config, start, r, es)
    ensures SameSession(config, start, Step(config, r, event), es + if event.Monitored? then [event.event] else [])
  {
    if event.Monitored? {
      assert (es + [event.event])[..|es|] == es;
    } else {
      assert es + [] == es;
    }
  }

  lemma {:induction false} StretchStaysInSession(config: Config, r: Runtime, events: seq<RuntimeEvent>)
    requires ValidEvents(events) && WithinSession(events) && r.live.Some?
    ensures SameSession(config, r.live.value, After(config, r, events), EngineEvents(events))
    decreases |events|
  {
    if events != [] {
      var before, last := events[..|events| - 1], events[|events| - 1];
      StretchStaysInSession(config, r, before);
      StepStaysInSession(config, r.live.value, After(config, r, before), EngineEvents(before), last);
    }
  }

  // Where the k-th monitoring event stands in the stretch.
  ghost predicate StandsAt(events: seq<RuntimeEvent>, k: nat, p: nat)
    requires ValidEvents(events)
  {
    && p < |events| && k < |EngineEvents(events)| && events[p].Monitored?
    && events[p].event == EngineEvents(events)[k] && EngineEvents(events[..p]) == EngineEvents(events)[..k]
  }

  lemma {:induction false} FindMonitored(events: seq<RuntimeEvent>, k: nat) returns (p: nat)
    requires ValidEvents(events) && k < |EngineEvents(events)|
    ensures StandsAt(events, k, p)
    decreases |events|
  {
    var before, last := events[..|events| - 1], events[|events| - 1];
    var es := EngineEvents(before);
    if k < |es| {
      p := FindMonitored(before, k);
      assert before[..p] == events[..p];
      assert EngineEvents(events)[..k] == es[..k];
    } else {
      p := |before|;
      assert EngineEvents(events)[..k] == es;
    }
  }

  // ---------------------------------------------------------------------
  // The enforced TERMINATE locks the session out
  // ---------------------------------------------------------------------

  // An enforced TERMINATE names an ACTIVE user.
  lemma TerminatesTheActive(setup: Engine.Setup, s: EngineState, event: Engine.EngineEvent)
    requires setup.settings.Valid() && event.Valid() && Terminates(Engine.Step(setup, s, event).1)
    ensures Engine.Step(setup, s, event).1[0].decision.value.userState == Active
  {
    var (after, more) := Engine.Step(setup, s, event);
    Engine.StepAdds(setup, s, event);
    EnforcedMeans(setup.settings, s, event.request, after, more[0]);
  }

  // A session is locked out by enforcing such a decision.
  lemma EnforcingLocksOut(config: Config, b: Backend, d: RiskDecision, reply: AdapterReply, prompt: Prompt, token: string,
                          now: int)
    requires config.enabled && Consistent(b.session)
    requires d.action == Terminate && d.enforcementApplied && d.userState == Active
    ensures Enforced(config, b, d, reply, prompt, token, now).session.posture == LockedOut
  {
    EnforcedRules(config, b, d, reply, prompt, token, now);
  }

  lemma TerminateLocksOut(config: Config, r: Runtime, event: RuntimeEvent)
    requires config.settings.Valid() && config.enabled && event.Valid() && event.Monitored? && r.live.Some?
    requires Consistent(r.backend.session)
    requires Terminates(Engine.Step(config.SetupFor(r.live.value.userId), r.live.value.engine, event.event).1)
    ensures Step(config, r, event).backend.session.posture == LockedOut
  {
    var setup, engine := config.SetupFor(r.live.value.userId), r.live.value.engine;
    var more := Engine.Step(setup, engine, event.event).1;
    TerminatesTheActive(setup, engine, event.event);
    EnforcingLocksOut(config, r.backend, more[0].decision.value, event.reply, event.prompt, event.token, event.at);
  }

  // The k-th monitoring event of the stretch, when the engine enforces a TERMINATE at it.
  lemma LockedOutAt(config: Config, shadow: bool, history: seq<RuntimeEvent>, events: seq<RuntimeEvent>, k: nat, p: nat)
    requires config.settings.Valid() && config.enabled && ValidEvents(history) && ValidEvents(events)
    requires WithinSession(events) && StandsAt(events, k, p) && Run(config, shadow, history).live.Some?
    requires var live := Run(config, shadow, history).live.value;
             Terminates(EmittedAt(config.SetupFor(live.userId), live.engine, EngineEvents(events), k))
    ensures After(config, Run(config, shadow, history), events[..p + 1]).backend.session.posture == LockedOut
  {
    var r := Run(config, shadow, history);
    StretchStaysInSession(config, r, events[..p]);
    RunGoesOn(config, shadow, history, events[..p]);
    EveryRuntimeIsSound(config, shadow, history + events[..p]);
    assert events[..p + 1][..p] == events[..p];
    TerminateLocksOut(config, After(config, r, events[..p]), events[p]);
  }

  // The engine of the live session, sustained risk, and an enforced TERMINATE.
  lemma SessionTerminates(config: Config, shadow: bool, history: seq<RuntimeEvent>, es: seq<Engine.EngineEvent>,
                          c: real, m: nat, i: nat, j: nat) returns (k: nat)
    requires config.settings.Valid() && ValidEvents(history) && Run(config, shadow, history).live.Some?
    requires 0.0 <= c && 1 <= m && Latency.RisingFloor(config.settings, c, m) >= config.settings.highThreshold
    requires var live := Run(config, shadow, history).live.value;
             Escalating(config.SetupFor(live.userId), live.engine, es, c, m + config.settings.breachN - 1, i, j)
    ensures Engine.ValidEvents(es) && i <= k <= j < |es|
    ensures var live := Run(config, shadow, history).live.value;
            Terminates(EmittedAt(config.SetupFor(live.userId), live.engine, es, k))
  {
    EngineIsIndependent(config, shadow, history);
    var story := StoryOf(shadow, history).value;
    SustainedRiskTerminates(config.SetupFor(story.userId), Machine(story.stored, None), story.events, es, c, m, i, j);
    var live := Run(config, shadow, history).live.value;
    k :| i <= k <= j && Terminates(EmittedAt(config.SetupFor(live.userId), live.engine, es, k));
  }

  /** Sustained risk locks out: from any reachable runtime with enforcement enabled, over any
      stretch of its session, whatever is answered, swept, prompted or asked for in between,
      scores held at c lock the session out no later than the first scored window one cooldown
      after m + n - 1 of them. */
  lemma SustainedRiskLocksOut(config: Config, shadow: bool, history: seq<RuntimeEvent>, events: seq<RuntimeEvent>,
                              c: real, m: nat, i: nat, j: nat)
    returns (p: nat)
    requires config.settings.Valid() && config.enabled && ValidEvents(history) && ValidEvents(events) && WithinSession(events)
    requires 0.0 <= c && 1 <= m && Latency.RisingFloor(config.settings, c, m) >= config.settings.highThreshold
    requires Run(config, shadow, history).live.Some?
    requires var live := Run(config, shadow, history).live.value;
             Escalating(config.SetupFor(live.userId), live.engine, EngineEvents(events), c, m + config.settings.breachN - 1, i, j)
    ensures p < |events| && events[p].Monitored?
    ensures i <= |EngineEvents(events[..p])| <= j
    ensures After(config, Run(config, shadow, history), events[..p + 1]).backend.session.posture == LockedOut
  {
    var k := SessionTerminates(config, shadow, history, EngineEvents(events), c, m, i, j);
    p := FindMonitored(events, k);
    LockedOutAt(config, shadow, history, events, k, p);
  }
}
