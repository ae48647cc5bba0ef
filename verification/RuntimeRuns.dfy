/** The whole runtime: the risk engine decides, the coordinator enforces, people answer. */
module RuntimeRuns {
  import opened Wrappers
  import opened RiskTypes
  import opened RiskCore
  import opened Deques
  import opened RiskEngines
  import opened UserStates
  import opened Postures
  import opened Challenges
  import opened Enforcement
  import Engine = EngineRuns

  datatype Config = Config(
    settings: RiskSettings,
    enrollment: EnrollmentConfig,
    enabled: bool,
    timeout: nat,
    credential: Option<Credential>)
  {
    function SetupFor(userId: string): Engine.Setup {
      Engine.Setup(settings, enrollment, userId)
    }
  }

  /** The platform a challenge adapter meets: whether prompts are enabled, supported and start. */
  datatype Prompt = Prompt(enabled: bool, supported: bool, spawned: bool)

  /** A start names the session that the pipeline opens, or none when the pipeline refuses
      the entry after the engine has already been created anew. Prompts and recoveries need
      a segment to be anchored to. */
  datatype RuntimeEvent =
    | Starts(userId: string, sessionId: Option<string>, stored: UserState)
    | Ends
    | Monitored(event: Engine.EngineEvent, reply: AdapterReply, prompt: Prompt, token: string, at: int)
    | Answers(id: string, answer: string, presented: Option<string>, at: int, later: int)
    | Sweeps(at: int)
    | Schedules(segmentId: Option<string>, suffix: string, secret: string, at: int)
    | Recovers(segmentId: Option<string>, suffix: string, secret: string, at: int)
  {
    // Engine decisions never carry a reserved prefix.
    predicate Valid() {
      Monitored? ==> event.Valid() && (event.Window? ==> IsEngineDecision(event.decisionId))
    }
  }

  /** The live session: whose it is, its engine and what that engine has produced. */
  datatype LiveSession = LiveSession(
    userId: string, sessionId: Option<string>, engine: EngineState, outcomes: seq<RiskOutcome>)

  /** The runtime. Sessions come and go with their engines; the administrative shadow mode,
      the outcomes stored and the enforcement backend outlive them. */
  datatype Runtime = Runtime(live: Option<LiveSession>, shadow: bool, outcomes: seq<RiskOutcome>, backend: Backend)
  {
    // Where a challenge can be anchored now.
    function AnchorAt(segmentId: Option<string>): Option<Anchor> {
      if live.None? || live.value.sessionId.None? || segmentId.None? then None
      else Some(Anchor(live.value.userId, live.value.sessionId.value, segmentId.value))
    }
  }

  ghost predicate ValidEvents(events: seq<RuntimeEvent>) {
    forall i :: 0 <= i < |events| ==> events[i].Valid()
  }

  function Boot(shadow: bool): Runtime {
    Runtime(None, shadow, [], Backend(Unchallenged, [], [], [], 0))
  }

  /** The native challenge adapter: it registers the challenge before it looks at the
      platform, and withdraws it only when the prompt process does not start. */
  function NativePrompted(config: Config, pending: seq<PendingChallenge>, decision: RiskDecision,
                          prompt: Prompt, token: string, now: int): (seq<PendingChallenge>, AdapterReply)
  {
    if config.credential.None? then (pending, Replied(Skipped, "CHALLENGE_NOT_CONFIGURED", false))
    else
      var anchor := Anchor(decision.userId, decision.sessionId, decision.segmentId);
      var item := Dispatched(config.timeout, config.credential.value, decision.decisionId, anchor, decision.action,
                             now, token);
      var registered := Put(pending, item);
      if !prompt.enabled then (registered, Replied(Skipped, "ENFORCEMENT_DISABLED", false))
      else if !prompt.supported then (registered, Replied(Skipped, "NATIVE_PROMPT_UNSUPPORTED_PLATFORM", false))
      else if !prompt.spawned then
        (Without(registered, decision.decisionId), Replied(FailedOpen, "NATIVE_PROMPT_UNAVAILABLE", false))
      else (registered, Replied(Succeeded, "CHALLENGE_DISPATCHED", false))
  }

  // Executing a decision: the challenge actions go to the native prompt, the others to `reply`.
  function Enforced(config: Config, b: Backend, decision: RiskDecision, reply: AdapterReply,
                    prompt: Prompt, token: string, now: int): Backend
  {
    if !Gated(decision) && decision.action in {SoftChallenge, Reauth} then
      var (pending, native) := NativePrompted(config, b.pending, decision, prompt, token, now);
      Executed(config.enabled, b.(pending := pending), decision, native, now)
    else
      Executed(config.enabled, b, decision, reply, now)
  }

  // The registry after a participant asks to reauthenticate; only a blocked session may.
  function Recovered(config: Config, b: Backend, anchor: Anchor, suffix: string, token: string, now: int): Backend {
    if config.credential.None? || !Blocking(b.session.posture) || Enforcing(Unexpired(b.pending, now)) != [] then b
    else b.(pending := Put(b.pending, Dispatched(config.timeout, config.credential.value, RECOVERY_PREFIX + suffix,
                                                 anchor, Reauth, now, token)))
  }

  function Scheduled(config: Config, b: Backend, anchor: Anchor, suffix: string, token: string, now: int): Backend {
    if config.credential.None? then b
    else b.(pending := Put(b.pending, Dispatched(config.timeout, config.credential.value, SCHEDULED_PREFIX + suffix,
                                                 anchor, SoftChallenge, now, token)))
  }

  // Starting creates the engine anew, cold, in the stored state; a refused entry keeps the session id.
  function Started(config: Config, r: Runtime, userId: string, sessionId: Option<string>, stored: UserState): Runtime {
    var engine := Engine.Cold(Machine(stored, None)).(shadowMode := r.shadow);
    var kept := if sessionId.None? && r.live.Some? then r.live.value.sessionId else sessionId;
    r.(live := Some(LiveSession(userId, kept, engine, [])))
  }

  // One monitoring event through the live engine, and its decision enforced.
  function Watched(config: Config, r: Runtime, event: RuntimeEvent): Runtime
    requires event.Valid() && event.Monitored? && r.live.Some?
  {
    var live := r.live.value;
    var (engine, more) := Engine.Step(config.SetupFor(live.userId), live.engine, event.event);
    var r' := r.(live := Some(live.(engine := engine, outcomes := live.outcomes + more)), outcomes := r.outcomes + more);
    if more == [] || more[0].decision.None? then r'
    else
      r'.(backend := Enforced(config, r.backend, more[0].decision.value, event.reply, event.prompt, event.token, event.at))
  }

  function Step(config: Config, r: Runtime, event: RuntimeEvent): Runtime
    requires event.Valid()
  {
    match event
    case Starts(userId, sessionId, stored) => Started(config, r, userId, sessionId, stored)
    case Ends => if r.live.Some? && r.live.value.sessionId.Some? then r.(live := None) else r
    case Monitored(e, _, _, _, _) =>
      var r' := r.(shadow := if e.ShadowMode? then e.enabled else r.shadow);
      if r.live.None? then r' else Watched(config, r', event)
    case Answers(id, answer, presented, at, later) =>
      r.(backend := Answered(config.enabled, config.credential, r.backend, id, answer, presented, at, later).0)
    case Sweeps(at) => r.(backend := Swept(config.enabled, r.backend, at))
    case Schedules(segmentId, suffix, secret, at) =>
      var anchor := r.AnchorAt(segmentId);
      if anchor.None? then r else r.(backend := Scheduled(config, r.backend, anchor.value, suffix, secret, at))
    case Recovers(segmentId, suffix, secret, at) =>
      var anchor := r.AnchorAt(segmentId);
      if anchor.None? then r else r.(backend := Recovered(config, r.backend, anchor.value, suffix, secret, at))
  }

  function Run(config: Config, shadow: bool, events: seq<RuntimeEvent>): Runtime
    requires ValidEvents(events)
    decreases |events|
  {
    if events == [] then Boot(shadow)
    else Step(config, Run(config, shadow, events[..|events| - 1]), events[|events| - 1])
  }

  // ---------------------------------------------------------------------
  // The engine inside the runtime
  // ---------------------------------------------------------------------

  /** The live session as the history alone tells it: whose it is, the state it was started
      in, the session the pipeline has, and what its engine has been given since. */
  datatype SessionStory = SessionStory(
    userId: string, sessionId: Option<string>, stored: UserState, events: seq<Engine.EngineEvent>)

  // The administrative shadow mode after a history.
  function ShadowAfter(shadow: bool, events: seq<RuntimeEvent>): bool
    decreases |events|
  {
    if events == [] then shadow
    else NextShadow(ShadowAfter(shadow, events[..|events| - 1]), events[|events| - 1])
  }

  function NextShadow(shadow: bool, event: RuntimeEvent): bool {
    if event.Monitored? && event.event.ShadowMode? then event.event.enabled else shadow
  }

  ghost predicate Wellformed(story: Option<SessionStory>) {
    story.Some? ==> Engine.ValidEvents(story.value.events)
  }

  // The session that a start opens, or else the one there was.
  function NextId(story: Option<SessionStory>, given: Option<string>): Option<string> {
    if given.Some? then given else if story.Some? then story.value.sessionId else None
  }

  function NextStory(shadow: bool, story: Option<SessionStory>, event: RuntimeEvent): (next: Option<SessionStory>)
    requires event.Valid() && Wellformed(story)
    ensures Wellformed(next)
  {
    match event
    case Starts(userId, sessionId, stored) =>
      Some(SessionStory(userId, NextId(story, sessionId), stored, [Engine.ShadowMode(shadow)]))
    case Ends => if story.Some? && story.value.sessionId.Some? then None else story
    case Monitored(e, _, _, _, _) =>
      if story.None? then None else Some(story.value.(events := story.value.events + [e]))
    case _ => story
  }

  function StoryOf(shadow: bool, events: seq<RuntimeEvent>): (story: Option<SessionStory>)
    requires ValidEvents(events)
    ensures Wellformed(story)
    decreases |events|
  {
    if events == [] then None
    else
      var before := events[..|events| - 1];
      NextStory(ShadowAfter(shadow, before), StoryOf(shadow, before), events[|events| - 1])
  }

  // What the engine of a story's session has come to.
  function Engined(config: Config, story: SessionStory): (EngineState, seq<RiskOutcome>)
    requires Engine.ValidEvents(story.events)
  {
    Engine.Run(config.SetupFor(story.userId), Engine.Cold(Machine(story.stored, None)), story.events)
  }

  // The live session is what its story says: the engine run from a cold start on its events.
  ghost predicate Tells(config: Config, story: Option<SessionStory>, live: Option<LiveSession>)
    requires Wellformed(story)
  {
    && (story.Some? <==> live.Some?)
    && (story.Some? ==>
          && live.value.userId == story.value.userId
          && live.value.sessionId == story.value.sessionId
          && (live.value.engine, live.value.outcomes) == Engined(config, story.value))
  }

  lemma StartTells(config: Config, userId: string, id: Option<string>, stored: UserState, shadow: bool)
    ensures Engined(config, SessionStory(userId, id, stored, [Engine.ShadowMode(shadow)])) ==
            (Engine.Cold(Machine(stored, None)).(shadowMode := shadow), [])
  {
    var es := [Engine.ShadowMode(shadow)];
    var cold := Engine.Cold(Machine(stored, None));
    assert es[..0] == [];
    assert Engine.Run(config.SetupFor(userId), cold, []) == (cold, []);
    assert Engine.Step(config.SetupFor(userId), cold, es[0]) == (cold.(shadowMode := shadow), []);
    var none: seq<RiskOutcome> := [];
    assert none + [] == none;
  }

  lemma WatchTells(config: Config, story: SessionStory, e: Engine.EngineEvent)
    requires Engine.ValidEvents(story.events) && e.Valid()
    ensures var (engine, outcomes) := Engined(config, story);
            var (engine', more) := Engine.Step(config.SetupFor(story.userId), engine, e);
            Engined(config, story.(events := story.events + [e])) == (engine', outcomes + more)
  {
    assert (story.events + [e])[..|story.events|] == story.events;
  }

  lemma StepTells(config: Config, r: Runtime, story: Option<SessionStory>, event: RuntimeEvent)
    requires event.Valid() && Wellformed(story) && Tells(config, story, r.live)
    ensures Tells(config, NextStory(r.shadow, story, event), Step(config, r, event).live)
  {
    if event.Starts? {
      StartTells(config, event.userId, NextId(story, event.sessionId), event.stored, r.shadow);
    } else if event.Monitored? && r.live.Some? {
      WatchTells(config, story.value, event.event);
    }
  }

  lemma StepShadow(config: Config, r: Runtime, event: RuntimeEvent)
    requires event.Valid()
    ensures Step(config, r, event).shadow == NextShadow(r.shadow, event)
  {
  }

  lemma {:induction false} ShadowIsRemembered(config: Config, shadow: bool, events: seq<RuntimeEvent>)
    requires ValidEvents(events)
    ensures Run(config, shadow, events).shadow == ShadowAfter(shadow, events)
    decreases |events|
  {
    if events != [] {
      var before := events[..|events| - 1];
      ShadowIsRemembered(config, shadow, before);
      StepShadow(config, Run(config, shadow, before), events[|events| - 1]);
    }
  }

  /** Nothing a person or the backend does reaches the engine: in every session its part of
      the runtime is the engine started cold in the stored state and run on the session's
      monitoring events alone, whatever earlier sessions did. */
  lemma {:induction false} EngineIsIndependent(config: Config, shadow: bool, events: seq<RuntimeEvent>)
    requires ValidEvents(events)
    ensures Tells(config, StoryOf(shadow, events), Run(config, shadow, events).live)
    decreases |events|
  {
    if events != [] {
      var before, last := events[..|events| - 1], events[|events| - 1];
      EngineIsIndependent(config, shadow, before);
      ShadowIsRemembered(config, shadow, before);
      var r, story := Run(config, shadow, before), StoryOf(shadow, before);
      StepTells(config, r, story, last);
      assert Run(config, shadow, events) == Step(config, r, last);
      assert StoryOf(shadow, events) == NextStory(r.shadow, story, last);
    }
  }

  // ---------------------------------------------------------------------
  // What stays true in every run
  // ---------------------------------------------------------------------

  /** A challenge that can move the ladder was opened by an enforced decision of the
      engine with the same id and action, or by a participant recovering a blocked session. */
  ghost predicate Justified(outcomes: seq<RiskOutcome>, p: PendingChallenge) {
    || IsScheduled(p.decisionId)
    || (IsRecovery(p.decisionId) && p.action == Reauth)
    || exists i :: 0 <= i < |outcomes| && EnforcedBy(outcomes[i], p)
  }

  predicate EnforcedBy(outcome: RiskOutcome, p: PendingChallenge) {
    && outcome.decision.Some?
    && outcome.decision.value.decisionId == p.decisionId && outcome.decision.value.action == p.action
    && outcome.decision.value.enforcementApplied && outcome.decision.value.userState == Active
    && p.action in {SoftChallenge, Reauth}
  }

  ghost predicate AllJustified(outcomes: seq<RiskOutcome>, pending: seq<PendingChallenge>) {
    forall p :: p in pending ==> Justified(outcomes, p)
  }

  ghost predicate Sound(r: Runtime) {
    Consistent(r.backend.session) && Distinct(r.backend.pending) && AllJustified(r.outcomes, r.backend.pending)
  }

  lemma JustifiedGrows(outcomes: seq<RiskOutcome>, more: seq<RiskOutcome>, pending: seq<PendingChallenge>)
    requires AllJustified(outcomes, pending)
    ensures AllJustified(outcomes + more, pending)
  {
    forall p | p in pending ensures Justified(outcomes + more, p) {
      if !IsScheduled(p.decisionId) && !(IsRecovery(p.decisionId) && p.action == Reauth) {
        var i :| 0 <= i < |outcomes| && EnforcedBy(outcomes[i], p);
        assert EnforcedBy((outcomes + more)[i], p);
      }
    }
  }

  lemma PutStaysSound(outcomes: seq<RiskOutcome>, pending: seq<PendingChallenge>, item: PendingChallenge)
    requires Distinct(pending) && AllJustified(outcomes, pending) && Justified(outcomes, item)
    ensures Distinct(Put(pending, item)) && AllJustified(outcomes, Put(pending, item))
  {
    PutMeans(pending, item);
    PutKeepsDistinct(pending, item);
  }

  // The registry after a sweep and after an answer holds a part of what it held before.
  lemma SweptPending(enabled: bool, b: Backend, now: int)
    ensures Swept(enabled, b, now).pending == Unexpired(b.pending, now)
    ensures Distinct(b.pending) ==> Distinct(Swept(enabled, b, now).pending)
    ensures forall p :: p in Swept(enabled, b, now).pending ==> p in b.pending
  {
    SweepOnlyResolves(enabled, b.(pending := Unexpired(b.pending, now)), Overdue(b.pending, now), now);
    OverdueMeans(b.pending, now);
    if Distinct(b.pending) {
      RemovingOverdueLeavesUnexpired(b.pending, now);
      WithoutAllKeepsDistinct(b.pending, Overdue(b.pending, now));
    }
  }

  lemma AnsweredPending(config: Config, b: Backend, id: string, answer: string, presented: Option<string>, at: int,
                        later: int)
    requires Distinct(b.pending)
    ensures var after := Answered(config.enabled, config.credential, b, id, answer, presented, at, later).0;
            Distinct(after.pending) && forall p :: p in after.pending ==> p in b.pending
  {
    SweptPending(config.enabled, b, at);
    var swept := Swept(config.enabled, b, at);
    WithoutMeans(swept.pending, id);
    WithoutKeepsDistinct(swept.pending, id);
  }

  // ---------------------------------------------------------------------
  // The session across one event
  // ---------------------------------------------------------------------

  lemma ExecutedSession(config: Config, b: Backend, d: RiskDecision, reply: AdapterReply, now: int)
    ensures var after := Executed(config.enabled, b, d, reply, now);
            && after.pending == b.pending
            && after.session == (if Gated(d) then b.session
                                 else Observe(config.enabled, b.session, OfDecision(d.decisionId, d.action, d.enforcementApplied, now)).0)
  {
  }

  /** Enforcing a decision never lowers the posture, and locks the session out only for an
      enforced TERMINATE. */
  lemma EnforcedRules(config: Config, b: Backend, d: RiskDecision, reply: AdapterReply, prompt: Prompt, token: string,
                      now: int)
    requires Consistent(b.session)
    ensures var s' := Enforced(config, b, d, reply, prompt, token, now).session;
            && Consistent(s')
            && PostureRank(s'.posture) >= PostureRank(b.session.posture)
            && (b.session.posture != LockedOut ==>
                  (s'.posture == LockedOut <==>
                     config.enabled && d.action == Terminate && d.enforcementApplied && d.userState == Active))
  {
    var o := OfDecision(d.decisionId, d.action, d.enforcementApplied, now);
    ObserveKeepsConsistent(config.enabled, b.session, o);
    LadderRules(config.enabled, b.session, o);
    LadderIsEnforced(b.session, d.decisionId, Accepted, now);
    if !Gated(d) && d.action in {SoftChallenge, Reauth} {
      var (pending, native) := NativePrompted(config, b.pending, d, prompt, token, now);
      ExecutedSession(config, b.(pending := pending), d, native, now);
    } else {
      ExecutedSession(config, b, d, reply, now);
    }
  }

  lemma EnforcedStaysSound(config: Config, outcomes: seq<RiskOutcome>, b: Backend, outcome: RiskOutcome,
                           reply: AdapterReply, prompt: Prompt, token: string, now: int)
    requires Distinct(b.pending) && AllJustified(outcomes, b.pending) && outcome.decision.Some?
    ensures var after := Enforced(config, b, outcome.decision.value, reply, prompt, token, now);
            Distinct(after.pending) && AllJustified(outcomes + [outcome], after.pending)
  {
    var d := outcome.decision.value;
    JustifiedGrows(outcomes, [outcome], b.pending);
    if !Gated(d) && d.action in {SoftChallenge, Reauth} {
      var (pending, native) := NativePrompted(config, b.pending, d, prompt, token, now);
      ExecutedSession(config, b.(pending := pending), d, native, now);
      if config.credential.Some? {
        var anchor := Anchor(d.userId, d.sessionId, d.segmentId);
        var item := Dispatched(config.timeout, config.credential.value, d.decisionId, anchor, d.action, now, token);
        assert EnforcedBy((outcomes + [outcome])[|outcomes|], item);
        PutStaysSound(outcomes + [outcome], b.pending, item);
        WithoutMeans(Put(b.pending, item), d.decisionId);
        WithoutKeepsDistinct(Put(b.pending, item), d.decisionId);
      }
    } else {
      ExecutedSession(config, b, d, reply, now);
    }
  }

  // The challenge that an answer settles after the sweep, if it settles one.
  function Settles(config: Config, b: Backend, id: string, answer: string, presented: Option<string>, at: int,
                   later: int)
    : Option<ResponseResult>
  {
    var result := Responded(config.credential, Swept(config.enabled, b, at).pending, id, answer, presented, later).1;
    if result.Ok? then Some(result.value) else None
  }

  lemma SettledMeans(config: Config, b: Backend, id: string, answer: string, presented: Option<string>, at: int,
                     later: int)
    requires Settles(config, b, id, answer, presented, at, later).Some?
    ensures var r := Settles(config, b, id, answer, presented, at, later).value;
            && config.credential.Some? && r.challenge in b.pending && r.challenge.decisionId == id
            && (r.outcome == Accepted <==> later <= r.challenge.expiresAt && config.credential.value.verify(answer))
  {
    SweptPending(config.enabled, b, at);
    FindMeans(Swept(config.enabled, b, at).pending, id);
  }

  lemma AnsweredSession(config: Config, b: Backend, id: string, answer: string, presented: Option<string>, at: int,
                        later: int)
    ensures var swept := Swept(config.enabled, b, at);
            var settled := Settles(config, b, id, answer, presented, at, later);
            Answered(config.enabled, config.credential, b, id, answer, presented, at, later).0.session
            == if settled.None? then swept.session
               else Resolved(config.enabled, swept, settled.value.challenge, settled.value.outcome, settled.value.evidence, later).session
  {
    var swept := Swept(config.enabled, b, at);
    var (pending, result) := Responded(config.credential, swept.pending, id, answer, presented, later);
    if result.Ok? {
      ResolvedSession(config.enabled, swept.(pending := pending), result.value.challenge, result.value.outcome,
                      result.value.evidence, later);
      ResolvedSession(config.enabled, swept, result.value.challenge, result.value.outcome, result.value.evidence,
                      later);
    }
  }

  /** Every event keeps the runtime sound. */
  lemma StepStaysSound(config: Config, r: Runtime, event: RuntimeEvent)
    requires config.settings.Valid() && event.Valid() && Sound(r)
    ensures Sound(Step(config, r, event))
  {
    match event {
      case Starts(_, _, _) =>
      case Ends =>
      case Monitored(e, _, _, _, _) =>
        if r.live.Some? {
          WatchingStaysSound(config, r.(shadow := if e.ShadowMode? then e.enabled else r.shadow), event);
        }
      case Answers(id, answer, presented, at, later) =>
        AnsweredPending(config, r.backend, id, answer, presented, at, later);
        AnsweredSession(config, r.backend, id, answer, presented, at, later);
        var swept := Swept(config.enabled, r.backend, at);
        SweepRules(config.enabled, r.backend.(pending := Unexpired(r.backend.pending, at)),
                   Overdue(r.backend.pending, at), at);
        var settled := Settles(config, r.backend, id, answer, presented, at, later);
        if settled.Some? {
          ResolveRules(config.enabled, swept, settled.value.challenge, settled.value.outcome, settled.value.evidence,
                       later);
        }
      case Sweeps(at) =>
        SweptPending(config.enabled, r.backend, at);
        SweepRules(config.enabled, r.backend.(pending := Unexpired(r.backend.pending, at)),
                   Overdue(r.backend.pending, at), at);
      case Schedules(_, _, _, _) =>
        OpeningStaysSound(config, r, event);
      case Recovers(_, _, _, _) =>
        OpeningStaysSound(config, r, event);
    }
  }

  lemma OpeningStaysSound(config: Config, r: Runtime, event: RuntimeEvent)
    requires event.Schedules? || event.Recovers?
    requires Sound(r)
    ensures Sound(Step(config, r, event)) && Step(config, r, event).backend.session == r.backend.session
  {
    var anchor := r.AnchorAt(event.segmentId);
    if config.credential.Some? && anchor.Some? {
      var prefix := if event.Schedules? then SCHEDULED_PREFIX else RECOVERY_PREFIX;
      var action := if event.Schedules? then SoftChallenge else Reauth;
      var item := Dispatched(config.timeout, config.credential.value, prefix + event.suffix, anchor.value, action,
                             event.at, event.secret);
      PutStaysSound(r.outcomes, r.backend.pending, item);
    }
  }

  lemma WatchingStaysSound(config: Config, r: Runtime, event: RuntimeEvent)
    requires config.settings.Valid() && event.Valid() && event.Monitored? && r.live.Some? && Sound(r)
    ensures Sound(Watched(config, r, event))
  {
    var live := r.live.value;
    var more := Engine.Step(config.SetupFor(live.userId), live.engine, event.event).1;
    Engine.StepAdds(config.SetupFor(live.userId), live.engine, event.event);
    JustifiedGrows(r.outcomes, more, r.backend.pending);
    if more != [] && more[0].decision.Some? {
      assert more == [more[0]];
      EnforcedRules(config, r.backend, more[0].decision.value, event.reply, event.prompt, event.token, event.at);
      EnforcedStaysSound(config, r.outcomes, r.backend, more[0], event.reply, event.prompt, event.token, event.at);
    }
  }

  /** Every reachable runtime is sound, across any number of sessions: a failed response
      leaves it blocked, NORMAL has no cause, and every enforcing challenge outstanding has
      its justification. */
  lemma {:induction false} EveryRuntimeIsSound(config: Config, shadow: bool, events: seq<RuntimeEvent>)
    requires config.settings.Valid() && ValidEvents(events)
    ensures Sound(Run(config, shadow, events))
    decreases |events|
  {
    if events != [] {
      EveryRuntimeIsSound(config, shadow, events[..|events| - 1]);
      StepStaysSound(config, Run(config, shadow, events[..|events| - 1]), events[|events| - 1]);
    }
  }

  // ---------------------------------------------------------------------
  // How a lockout begins and ends
  // ---------------------------------------------------------------------

  /** The engine's part of a lockout: a window whose decision is an enforced TERMINATE for an
      ACTIVE user out of shadow mode, with the session's last breach_n smoothed scores all high. */
  ghost predicate TerminatedOnEvidence(config: Config, r: Runtime, event: RuntimeEvent)
    requires event.Valid()
  {
    && event.Monitored? && r.live.Some? && !r.live.value.engine.shadowMode
    && var more := Engine.Step(config.SetupFor(r.live.value.userId), r.live.value.engine, event.event).1;
    && more != [] && more[0].decision.Some?
    && more[0].decision.value.action == Terminate && more[0].decision.value.userState == Active
    && var scores := Engine.SmoothedScores(r.live.value.outcomes + more);
    && |scores| >= config.settings.breachN
    && AllAtLeast(LastN(scores, config.settings.breachN), config.settings.highThreshold)
  }

  /** The participant's part: an outstanding, justified REAUTH went past its deadline or was
      answered wrongly or late. */
  ghost predicate ReauthFailed(config: Config, r: Runtime, event: RuntimeEvent) {
    && (event.Answers? || event.Sweeps?)
    && exists p :: p in r.backend.pending && FailedReauth(p) && Justified(r.outcomes, p) && FailsAt(config, event, p)
  }

  predicate FailsAt(config: Config, event: RuntimeEvent, p: PendingChallenge)
    requires event.Answers? || event.Sweeps?
  {
    || p.expiresAt <= event.at
    || (event.Answers? && config.credential.Some? && p.decisionId == event.id
        && !(event.later <= p.expiresAt && config.credential.value.verify(event.answer)))
  }

  lemma SweepLocksForAReason(config: Config, r: Runtime, event: RuntimeEvent)
    requires Sound(r) && (event.Answers? || event.Sweeps?)
    requires r.backend.session.posture != LockedOut
    requires Swept(config.enabled, r.backend, event.at).session.posture == LockedOut
    ensures ReauthFailed(config, r, event)
  {
    var b := r.backend;
    var overdue := Overdue(b.pending, event.at);
    SweepRules(config.enabled, b.(pending := Unexpired(b.pending, event.at)), overdue, event.at);
    var i :| 0 <= i < |overdue| && FailedReauth(overdue[i]);
    OverdueMeans(b.pending, event.at);
    assert overdue[i] in b.pending && FailsAt(config, event, overdue[i]);
  }

  lemma AnswerLocksForAReason(config: Config, r: Runtime, event: RuntimeEvent)
    requires Sound(r) && event.Answers?
    requires r.backend.session.posture != LockedOut
    requires Step(config, r, event).backend.session.posture == LockedOut
    ensures ReauthFailed(config, r, event)
  {
    var (id, answer, presented) := (event.id, event.answer, event.presented);
    var swept := Swept(config.enabled, r.backend, event.at);
    if swept.session.posture == LockedOut {
      SweepLocksForAReason(config, r, event);
    } else {
      var overdue := Overdue(r.backend.pending, event.at);
      SweepRules(config.enabled, r.backend.(pending := Unexpired(r.backend.pending, event.at)), overdue, event.at);
      AnsweredSession(config, r.backend, id, answer, presented, event.at, event.later);
      var settled := Settles(config, r.backend, id, answer, presented, event.at, event.later).value;
      SettledMeans(config, r.backend, id, answer, presented, event.at, event.later);
      ResolveRules(config.enabled, swept, settled.challenge, settled.outcome, settled.evidence, event.later);
      assert FailsAt(config, event, settled.challenge);
    }
  }

  // What the live session's engine decided, seen from the history.
  lemma EngineLocksOnEvidence(config: Config, shadow: bool, events: seq<RuntimeEvent>, event: RuntimeEvent)
    requires config.settings.Valid() && ValidEvents(events) && event.Valid()
    requires event.Monitored? && Run(config, shadow, events).live.Some?
    ensures var r := Run(config, shadow, events);
            var live := r.live.value;
            var more := Engine.Step(config.SetupFor(live.userId), live.engine, event.event).1;
            more != [] && more[0].decision.Some?
            && more[0].decision.value.action == Terminate && more[0].decision.value.enforcementApplied
            ==> TerminatedOnEvidence(config, r, event)
  {
    EngineIsIndependent(config, shadow, events);
    var story := StoryOf(shadow, events).value;
    Engine.EnforcementNeedsEvidence(config.SetupFor(story.userId), Machine(story.stored, None), story.events, event.event);
  }

  /** Main result, first half: in any run, across any number of sessions, the event that
      locks out is a TERMINATE on full evidence or the failure of a justified REAUTH;
      nothing else ever does. */
  lemma LockoutIsJustified(config: Config, shadow: bool, events: seq<RuntimeEvent>, event: RuntimeEvent)
    requires config.settings.Valid() && ValidEvents(events) && event.Valid()
    ensures var r := Run(config, shadow, events);
            r.backend.session.posture != LockedOut && Step(config, r, event).backend.session.posture == LockedOut ==>
              TerminatedOnEvidence(config, r, event) || ReauthFailed(config, r, event)
  {
    var r := Run(config, shadow, events);
    EveryRuntimeIsSound(config, shadow, events);
    if r.backend.session.posture != LockedOut && Step(config, r, event).backend.session.posture == LockedOut {
      match event {
        case Starts(_, _, _) =>
        case Ends =>
        case Monitored(e, reply, prompt, token, at) =>
          EngineLocksOnEvidence(config, shadow, events, event);
          var live := r.live.value;
          var d := Engine.Step(config.SetupFor(live.userId), live.engine, e).1[0].decision.value;
          EnforcedRules(config, r.backend, d, reply, prompt, token, at);
        case Answers(_, _, _, _, _) =>
          AnswerLocksForAReason(config, r, event);
        case Sweeps(_) =>
          SweepLocksForAReason(config, r, event);
        case Schedules(_, _, _, _) =>
          OpeningStaysSound(config, r, event);
          assert false;
        case Recovers(_, _, _, _) =>
          OpeningStaysSound(config, r, event);
          assert false;
      }
    }
  }

  /** Second half: a lockout ends only when a justified REAUTH is answered correctly and in
      time, and then the session is NORMAL with nothing remembered. Ending a session and
      starting another one does not end it. */
  lemma LockoutEndsByReauth(config: Config, shadow: bool, events: seq<RuntimeEvent>, event: RuntimeEvent)
    requires config.settings.Valid() && ValidEvents(events) && event.Valid()
    ensures var r := Run(config, shadow, events);
            r.backend.session.posture == LockedOut && Step(config, r, event).backend.session.posture != LockedOut ==>
              && event.Answers? && Step(config, r, event).backend.session == Unchallenged
              && config.credential.Some? && config.credential.value.verify(event.answer)
              && exists p :: p in r.backend.pending && p.decisionId == event.id && p.action == Reauth
                          && Justified(r.outcomes, p) && event.later <= p.expiresAt
  {
    var r := Run(config, shadow, events);
    EveryRuntimeIsSound(config, shadow, events);
    var b := r.backend;
    if b.session.posture == LockedOut && Step(config, r, event).backend.session.posture != LockedOut {
      match event {
        case Starts(_, _, _) =>
        case Ends =>
        case Monitored(e, reply, prompt, token, at) =>
          var live := r.live.value;
          var more := Engine.Step(config.SetupFor(live.userId), live.engine, e).1;
          EnforcedRules(config, b, more[0].decision.value, reply, prompt, token, at);
          assert false;
        case Answers(id, answer, presented, at, later) =>
          SweepRules(config.enabled, b.(pending := Unexpired(b.pending, at)), Overdue(b.pending, at), at);
          AnsweredSession(config, b, id, answer, presented, at, later);
          var settled := Settles(config, b, id, answer, presented, at, later).value;
          SettledMeans(config, b, id, answer, presented, at, later);
          ResolveRules(config.enabled, Swept(config.enabled, b, at), settled.challenge, settled.outcome,
                       settled.evidence, later);
        case Sweeps(at) =>
          SweepRules(config.enabled, b.(pending := Unexpired(b.pending, at)), Overdue(b.pending, at), at);
          assert false;
        case Schedules(_, _, _, _) =>
          OpeningStaysSound(config, r, event);
          assert false;
        case Recovers(_, _, _, _) =>
          OpeningStaysSound(config, r, event);
          assert false;
      }
    }
  }
}
