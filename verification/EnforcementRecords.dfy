/** What the enforcement backend records: one outcome for every decision and every resolved
    challenge of the engine, and an anchor for every verification that succeeded. */
module EnforcementRecords {
  import opened Wrappers
  import opened RiskTypes
  import opened Postures
  import opened Challenges
  import opened Enforcement
  import opened RuntimeRuns
  import opened ChallengeAnswers
  import Engine = EngineRuns

  // ---------------------------------------------------------------------
  // Decisions
  // ---------------------------------------------------------------------

  /** A decision is acted on when it names an ACTIVE user and was enforced or asks for nothing. */
  predicate ActedOn(d: RiskDecision) {
    d.userState == Active && (d.enforcementApplied || d.action == Continue)
  }

  // The outcome of a decision, from what its adapter answered.
  ghost predicate TellsExecution(d: RiskDecision, reply: AdapterReply, now: int, o: ActionOutcome) {
    && o.decisionId == d.decisionId && o.action == d.action && o.at == now
    && (!ActedOn(d) ==> o.status == Skipped && o.code == "STATE_GATED_NO_ENFORCEMENT")
    && (ActedOn(d) && reply.Missing? ==> o.status == FailedOpen && o.code == "ENFORCEMENT_ADAPTER_UNAVAILABLE")
    && (ActedOn(d) && reply.Raised? ==> o.status == FailedOpen && o.code == "ENFORCEMENT_ADAPTER_FAILED")
    && (ActedOn(d) && reply.Replied? ==> o.status == reply.status && o.code == reply.code)
    && (o.anchored <==> ActedOn(d) && d.action == Reauth && reply.Replied? && reply.status == Succeeded && reply.evidence)
  }

  /** Executing a decision stores exactly one outcome, which tells what happened; an adapter
      that is missing or raises leaves a notice, and a reauthentication that succeeded on
      evidence an anchor. */
  lemma ExecutionIsExact(enabled: bool, b: Backend, d: RiskDecision, reply: AdapterReply, now: int)
    ensures var b' := Executed(enabled, b, d, reply, now);
            && |b'.outcomes| == |b.outcomes| + 1 && b'.outcomes[..|b.outcomes|] == b.outcomes
            && var o := b'.outcomes[|b.outcomes|];
            && TellsExecution(d, reply, now, o)
            && b'.anchors == b.anchors + (if o.anchored then [VerificationRecord(A2Reauth, d.decisionId, now)] else [])
            && b'.notices == b.notices + (if ActedOn(d) && !reply.Replied? then 1 else 0)
            && b'.pending == b.pending
            && (!ActedOn(d) ==> b'.session == b.session)
  {
    var b' := Executed(enabled, b, d, reply, now);
    assert b'.outcomes[..|b.outcomes|] == b.outcomes;
    if !d.enforcementApplied {
      assert DecisionObserved(enabled, b.session, d.decisionId, d.action, false, now).0 == b.session;
    }
  }

  // What the native prompt answers in each situation.
  ghost predicate TellsPrompt(config: Config, prompt: Prompt, reply: AdapterReply) {
    && reply.Replied? && !reply.evidence
    && (reply.status == Succeeded <==> config.credential.Some? && prompt.enabled && prompt.supported && prompt.spawned)
    && (reply.status == FailedOpen <==> config.credential.Some? && prompt.enabled && prompt.supported && !prompt.spawned)
    && reply.status != Cancelled
    && reply.code == if config.credential.None? then "CHALLENGE_NOT_CONFIGURED"
                     else if !prompt.enabled then "ENFORCEMENT_DISABLED"
                     else if !prompt.supported then "NATIVE_PROMPT_UNSUPPORTED_PLATFORM"
                     else if !prompt.spawned then "NATIVE_PROMPT_UNAVAILABLE"
                     else "CHALLENGE_DISPATCHED"
  }

  // The challenge of a decision, outstanding for the whole timeout.
  predicate OpenedFor(config: Config, d: RiskDecision, token: string, now: int, c: PendingChallenge) {
    && c.decisionId == d.decisionId && c.action == d.action && c.token == token
    && c.userId == d.userId && c.sessionId == d.sessionId && c.segmentId == d.segmentId
    && c.openedAt == now && c.expiresAt == now + config.timeout
    && config.credential.Some? && c.question == config.credential.value.question
  }

  /** The challenge stays outstanding unless its prompt was tried and did not start. */
  predicate StaysOpen(config: Config, prompt: Prompt) {
    config.credential.Some? && (prompt.spawned || !prompt.enabled || !prompt.supported)
  }

  lemma PromptIsExact(config: Config, pending: seq<PendingChallenge>, d: RiskDecision, prompt: Prompt, token: string,
                      now: int)
    requires Distinct(pending)
    ensures var (pending', reply) := NativePrompted(config, pending, d, prompt, token, now);
            && TellsPrompt(config, prompt, reply)
            && (config.credential.None? ==> pending' == pending)
            && (config.credential.Some? ==> forall p :: p in pending' <==>
                  || (p in pending && p.decisionId != d.decisionId)
                  || (StaysOpen(config, prompt) && OpenedFor(config, d, token, now, p)))
  {
    if config.credential.Some? {
      var anchor := Anchor(d.userId, d.sessionId, d.segmentId);
      var item := Dispatched(config.timeout, config.credential.value, d.decisionId, anchor, d.action, now, token);
      forall p ensures OpenedFor(config, d, token, now, p) <==> p == item {
      }
      PutMeans(pending, item);
      WithoutMeans(Put(pending, item), d.decisionId);
    }
  }

  // ---------------------------------------------------------------------
  // Sweeps and answers
  // ---------------------------------------------------------------------

  // One cancelled outcome for every overdue challenge of the engine.
  function ExpiryRecords(overdue: seq<PendingChallenge>, now: int): seq<ActionOutcome> {
    if overdue == [] then []
    else
      var last := overdue[|overdue| - 1];
      ExpiryRecords(overdue[..|overdue| - 1], now)
      + if IsScheduled(last.decisionId) || IsRecovery(last.decisionId) then []
        else [ActionOutcome(last.decisionId, last.action, Cancelled, "CHALLENGE_EXPIRED", now, false)]
  }

  lemma {:induction false} ExpiriesAreRecorded(enabled: bool, b: Backend, overdue: seq<PendingChallenge>, now: int)
    ensures ExpiredAll(enabled, b, overdue, now).outcomes == b.outcomes + ExpiryRecords(overdue, now)
    decreases |overdue|
  {
    if overdue == [] {
      assert b.outcomes + [] == b.outcomes;
    } else {
      var before, last := overdue[..|overdue| - 1], overdue[|overdue| - 1];
      ExpiriesAreRecorded(enabled, b, before, now);
      var so := b.outcomes + ExpiryRecords(before, now);
      assert so + [] == so;
      assert "CHALLENGE_" + "EXPIRED" == "CHALLENGE_EXPIRED";
    }
  }

  /** A sweep removes exactly the overdue challenges and records exactly those of the engine. */
  lemma SweepIsExact(enabled: bool, b: Backend, now: int)
    ensures var b' := Swept(enabled, b, now);
            && (forall p :: p in b'.pending <==> p in b.pending && p.expiresAt > now)
            && b'.outcomes == b.outcomes + ExpiryRecords(Overdue(b.pending, now), now)
            && b'.anchors == b.anchors && b'.notices == b.notices
  {
    SweepOnlyResolves(enabled, b.(pending := Unexpired(b.pending, now)), Overdue(b.pending, now), now);
    ExpiriesAreRecorded(enabled, b.(pending := Unexpired(b.pending, now)), Overdue(b.pending, now), now);
    OverdueMeans(b.pending, now);
  }

  // What an answer to a challenge of the engine is recorded as.
  ghost predicate TellsAnswer(c: PendingChallenge, outcome: ResponseOutcome, at: int, o: ActionOutcome) {
    && o.decisionId == c.decisionId && o.action == c.action && o.at == at
    && (o.status == Succeeded <==> outcome == Accepted)
    && (o.status == Cancelled <==> outcome != Accepted)
    && o.code == (match outcome
                  case Accepted => "CHALLENGE_ACCEPTED"
                  case Rejected => "CHALLENGE_REJECTED"
                  case Expired => "CHALLENGE_EXPIRED")
    && (o.anchored <==> outcome == Accepted && c.action == Reauth)
  }

  /** The verification that an accepted answer amounts to: a reauthentication, from a decision
      or a recovery, or a scheduled one; a soft challenge of the engine is none. */
  function VerifiedBy(c: PendingChallenge, at: int): seq<VerificationRecord> {
    if IsScheduled(c.decisionId) then [VerificationRecord(A3Scheduled, c.decisionId, at)]
    else if IsRecovery(c.decisionId) || c.action == Reauth then [VerificationRecord(A2Reauth, c.decisionId, at)]
    else []
  }

  // What settling a challenge makes of the swept backend.
  ghost predicate Settled(enabled: bool, swept: Backend, c: PendingChallenge, outcome: ResponseOutcome, at: int, after: Backend) {
    && (forall p :: p in after.pending <==> p in swept.pending && p != c)
    && after.session == (if IsScheduled(c.decisionId) then swept.session
                         else Observe(enabled, swept.session, OfOutcome(c.decisionId, c.action, outcome, at)).0)
    && after.anchors == swept.anchors + (if outcome == Accepted then VerifiedBy(c, at) else [])
    && after.notices == swept.notices
    && if IsScheduled(c.decisionId) || IsRecovery(c.decisionId) then after.outcomes == swept.outcomes
       else
         && |after.outcomes| == |swept.outcomes| + 1 && after.outcomes[..|swept.outcomes|] == swept.outcomes
         && TellsAnswer(c, outcome, at, after.outcomes[|swept.outcomes|])
  }

  lemma PrefixesDiffer(id: string)
    ensures !(IsScheduled(id) && IsRecovery(id))
  {
    assert SCHEDULED_PREFIX[0] != RECOVERY_PREFIX[0];
  }

  lemma ResolutionIsSettled(enabled: bool, swept: Backend, pending: seq<PendingChallenge>, r: ResponseResult, at: int)
    requires r.evidence <==> r.outcome == Accepted
    requires forall p :: p in pending <==> p in swept.pending && p != r.challenge
    ensures var resolved := Resolved(enabled, swept.(pending := pending), r.challenge, r.outcome, r.evidence, at);
            Settled(enabled, swept, r.challenge, r.outcome, at, resolved.(anchors := resolved.anchors + SinkAnchors(r, at)))
  {
    var resolved := Resolved(enabled, swept.(pending := pending), r.challenge, r.outcome, r.evidence, at);
    PrefixesDiffer(r.challenge.decisionId);
    CodesSpelled();
    if IsEngineDecision(r.challenge.decisionId) {
      assert resolved.outcomes[..|swept.outcomes|] == swept.outcomes;
    }
    assert resolved.anchors + [] == resolved.anchors && swept.anchors + [] == swept.anchors;
  }

  lemma CodesSpelled()
    ensures "CHALLENGE_" + OutcomeName(Accepted) == "CHALLENGE_ACCEPTED"
    ensures "CHALLENGE_" + OutcomeName(Rejected) == "CHALLENGE_REJECTED"
    ensures "CHALLENGE_" + OutcomeName(Expired) == "CHALLENGE_EXPIRED"
  {
  }

  // Nothing outstanding of this id admits the token.
  ghost predicate Unknown(b: Backend, id: string, presented: Option<string>) {
    forall c :: !IsMeant(b.pending, id, presented, c)
  }

  /** One answer through the backend, after its sweep: to a challenge still outstanding, to one
      that the sweep has just expired, or to none. */
  ghost predicate AnswerHolds(config: Config, b: Backend, id: string, answer: string, presented: Option<string>, at: int,
                              later: int, after: Backend, result: Result<ResponseOutcome, ApiError>) {
    var swept := Swept(config.enabled, b, at);
    && (config.credential.None? ==> result == Err(Conflict) && after == swept)
    && (config.credential.Some? && Unknown(b, id, presented) ==> result == Err(NotFound) && after == swept)
    && forall c :: config.credential.Some? && IsMeant(b.pending, id, presented, c) ==>
         if c.expiresAt <= at then result == Ok(Expired) && after == swept
         else
           && result.Ok? && IsWorth(config.credential.value, c, answer, later, result.value)
           && Settled(config.enabled, swept, c, result.value, later, after)
  }

  // An answer to a challenge that the sweep leaves outstanding.
  lemma AnswerInTime(config: Config, b: Backend, c: PendingChallenge, answer: string, presented: Option<string>, at: int,
                     later: int)
    requires Distinct(b.pending) && config.credential.Some?
    requires c in b.pending && Admitted(c, presented) && c.expiresAt > at
    ensures var (after, result) := Answered(config.enabled, config.credential, b, c.decisionId, answer, presented, at, later);
            && result.Ok? && IsWorth(config.credential.value, c, answer, later, result.value)
            && Settled(config.enabled, Swept(config.enabled, b, at), c, result.value, later, after)
  {
    var swept := Swept(config.enabled, b, at);
    SweptPending(config.enabled, b, at);
    OverdueMeans(b.pending, at);
    RespondIsExact(config.credential, swept.pending, c.decisionId, answer, presented, later);
    var (pending, responded) := Responded(config.credential, swept.pending, c.decisionId, answer, presented, later);
    assert IsMeant(swept.pending, c.decisionId, presented, c);
    OnlyOneIsMeant(swept.pending, c.decisionId, c);
    ResolutionIsSettled(config.enabled, swept, pending, responded.value, later);
  }

  // An answer that finds nothing outstanding after the sweep.
  lemma AnswerTooLate(config: Config, b: Backend, id: string, answer: string, presented: Option<string>, at: int, later: int)
    requires Distinct(b.pending) && config.credential.Some?
    requires forall c :: IsMeant(b.pending, id, presented, c) ==> c.expiresAt <= at
    ensures Answered(config.enabled, config.credential, b, id, answer, presented, at, later) ==
            (Swept(config.enabled, b, at), if Unknown(b, id, presented) then Err(NotFound) else Ok(Expired))
  {
    var swept := Swept(config.enabled, b, at);
    SweptPending(config.enabled, b, at);
    OverdueMeans(b.pending, at);
    RespondIsExact(config.credential, swept.pending, id, answer, presented, later);
    forall c ensures !IsMeant(swept.pending, id, presented, c) {
      assert c in swept.pending ==> c in b.pending && c.expiresAt > at;
    }
    LateIsFound(b.pending, id, at);
    var late := Find(Overdue(b.pending, at), id);
    if late.Some? && Admitted(late.value, presented) {
      assert IsMeant(b.pending, id, presented, late.value);
    }
  }

  lemma AnswersAreExact(config: Config, b: Backend, id: string, answer: string, presented: Option<string>, at: int, later: int)
    requires Distinct(b.pending)
    ensures var (after, result) := Answered(config.enabled, config.credential, b, id, answer, presented, at, later);
            AnswerHolds(config, b, id, answer, presented, at, later, after, result)
  {
    if config.credential.Some? {
      if exists c :: IsMeant(b.pending, id, presented, c) && c.expiresAt > at {
        var c :| IsMeant(b.pending, id, presented, c) && c.expiresAt > at;
        OnlyOneIsMeant(b.pending, id, c);
        AnswerInTime(config, b, c, answer, presented, at, later);
      } else {
        AnswerTooLate(config, b, id, answer, presented, at, later);
      }
    }
  }

  lemma OnlyOneIsMeant(pending: seq<PendingChallenge>, id: string, c: PendingChallenge)
    requires Distinct(pending) && c in pending && c.decisionId == id
    ensures forall d :: d in pending && d.decisionId == id ==> d == c
  {
    forall d | d in pending && d.decisionId == id ensures d == c {
      IdsIdentify(pending, c, d);
    }
  }

  // What looking up an id among the overdue finds.
  lemma LateIsFound(pending: seq<PendingChallenge>, id: string, now: int)
    requires Distinct(pending)
    ensures var late := Find(Overdue(pending, now), id);
            && (late.Some? ==> late.value in pending && late.value.decisionId == id && late.value.expiresAt <= now)
            && forall c :: c in pending && c.decisionId == id && c.expiresAt <= now ==> late == Some(c)
  {
    OverdueMeans(pending, now);
    FindMeans(Overdue(pending, now), id);
    forall c | c in pending && c.decisionId == id && c.expiresAt <= now ensures Find(Overdue(pending, now), id) == Some(c) {
      OverdueIsGone(pending, c, now);
    }
  }

  // ---------------------------------------------------------------------
  // In every reachable runtime
  // ---------------------------------------------------------------------

  /** Main result: in every reachable runtime an answer under another token than the
      challenge's, or to an id that is not outstanding, is not found and does nothing beyond
      the sweep; an answer to a challenge that the sweep has just expired is EXPIRED; and any
      other settles its challenge for what it is worth, with one outcome recorded for a
      challenge of the engine, SUCCEEDED exactly when accepted, and its anchor. */
  lemma EveryAnswerIsRecorded(config: Config, shadow: bool, events: seq<RuntimeEvent>, event: RuntimeEvent)
    requires config.settings.Valid() && ValidEvents(events) && event.Answers?
    ensures var r := Run(config, shadow, events);
            var (after, result) := Answered(config.enabled, config.credential, r.backend, event.id, event.answer,
                                            event.presented, event.at, event.later);
            && Step(config, r, event) == r.(backend := after)
            && AnswerHolds(config, r.backend, event.id, event.answer, event.presented, event.at, event.later, after, result)
  {
    EveryRuntimeIsSound(config, shadow, events);
    AnswersAreExact(config, Run(config, shadow, events).backend, event.id, event.answer, event.presented, event.at,
                    event.later);
  }

  // A decision through the coordinator: the native prompt answers for a challenge, `reply` for the rest.
  ghost predicate DecisionHolds(config: Config, b: Backend, d: RiskDecision, event: RuntimeEvent, after: Backend)
    requires event.Monitored?
  {
    var prompts := ActedOn(d) && d.action in {SoftChallenge, Reauth};
    && |after.outcomes| == |b.outcomes| + 1 && after.outcomes[..|b.outcomes|] == b.outcomes
    && (exists reply :: TellsExecution(d, reply, event.at, after.outcomes[|b.outcomes|])
                        && (if prompts then TellsPrompt(config, event.prompt, reply) else reply == event.reply))
    && after.anchors == b.anchors + (if after.outcomes[|b.outcomes|].anchored
                                     then [VerificationRecord(A2Reauth, d.decisionId, event.at)] else [])
    && (after.outcomes[|b.outcomes|].anchored ==> !prompts)
    && after.notices == b.notices + (if ActedOn(d) && !prompts && !event.reply.Replied? then 1 else 0)
    && (prompts && config.credential.Some? ==> forall p :: p in after.pending <==>
          || (p in b.pending && p.decisionId != d.decisionId)
          || (StaysOpen(config, event.prompt) && OpenedFor(config, d, event.token, event.at, p)))
    && (!prompts || config.credential.None? ==> after.pending == b.pending)
  }

  lemma EnforcedHolds(config: Config, b: Backend, d: RiskDecision, event: RuntimeEvent)
    requires Distinct(b.pending) && event.Monitored?
    ensures DecisionHolds(config, b, d, event, Enforced(config, b, d, event.reply, event.prompt, event.token, event.at))
  {
    if !Gated(d) && d.action in {SoftChallenge, Reauth} {
      var (pending, native) := NativePrompted(config, b.pending, d, event.prompt, event.token, event.at);
      PromptIsExact(config, b.pending, d, event.prompt, event.token, event.at);
      ExecutionIsExact(config.enabled, b.(pending := pending), d, native, event.at);
    } else {
      ExecutionIsExact(config.enabled, b, d, event.reply, event.at);
    }
  }

  /** In every reachable runtime each decision of the engine is recorded once, as acted on or
      gated; a challenge is registered for it exactly when it is acted on, asks for one and
      is configured, and withdrawn only when its prompt does not start. */
  lemma EveryDecisionIsRecorded(config: Config, shadow: bool, events: seq<RuntimeEvent>, event: RuntimeEvent)
    requires config.settings.Valid() && ValidEvents(events) && event.Valid() && event.Monitored?
    requires Run(config, shadow, events).live.Some?
    ensures var r := Run(config, shadow, events);
            var more := Engine.Step(config.SetupFor(r.live.value.userId), r.live.value.engine, event.event).1;
            if more == [] || more[0].decision.None? then Step(config, r, event).backend == r.backend
            else DecisionHolds(config, r.backend, more[0].decision.value, event, Step(config, r, event).backend)
  {
    var r := Run(config, shadow, events);
    EveryRuntimeIsSound(config, shadow, events);
    var more := Engine.Step(config.SetupFor(r.live.value.userId), r.live.value.engine, event.event).1;
    if more != [] && more[0].decision.Some? {
      EnforcedHolds(config, r.backend, more[0].decision.value, event);
    }
  }

  // A challenge opened on request, for the session and segment named.
  predicate OpenedOn(config: Config, id: string, anchor: Anchor, action: DecisionAction, token: string, now: int,
                     c: PendingChallenge) {
    && c.decisionId == id && c.action == action && c.token == token && AnchoredAt(c, anchor)
    && c.openedAt == now && c.expiresAt == now + config.timeout
    && config.credential.Some? && c.question == config.credential.value.question
  }

  /** A participant may ask for a recovery only in a blocked session with no enforcing
      challenge outstanding, and gets a REAUTH; a scheduled prompt is a soft one. Neither
      touches anything but the registry. */
  lemma RequestsAreExact(config: Config, b: Backend, anchor: Anchor, suffix: string, token: string, now: int)
    requires Distinct(b.pending)
    ensures var b' := Recovered(config, b, anchor, suffix, token, now);
            var allowed := && config.credential.Some? && Blocking(b.session.posture)
                           && forall p :: p in b.pending && !IsScheduled(p.decisionId) ==> p.expiresAt <= now;
            && b' == b.(pending := b'.pending)
            && (!allowed ==> b' == b)
            && (allowed ==> forall p :: p in b'.pending <==>
                  || (p in b.pending && p.decisionId != "recovery:" + suffix)
                  || OpenedOn(config, "recovery:" + suffix, anchor, Reauth, token, now, p))
    ensures var b' := Scheduled(config, b, anchor, suffix, token, now);
            && b' == b.(pending := b'.pending)
            && (config.credential.None? ==> b' == b)
            && (config.credential.Some? ==> forall p :: p in b'.pending <==>
                  || (p in b.pending && p.decisionId != "scheduled-anchor:" + suffix)
                  || OpenedOn(config, "scheduled-anchor:" + suffix, anchor, SoftChallenge, token, now, p))
  {
    OverdueMeans(b.pending, now);
    EnforcingMeans(Unexpired(b.pending, now));
    NothingEnforcing(b.pending, now);
    if config.credential.Some? {
      var recovery := Dispatched(config.timeout, config.credential.value, RECOVERY_PREFIX + suffix, anchor, Reauth, now, token);
      var scheduled := Dispatched(config.timeout, config.credential.value, SCHEDULED_PREFIX + suffix, anchor, SoftChallenge, now, token);
      forall p
        ensures OpenedOn(config, "recovery:" + suffix, anchor, Reauth, token, now, p) <==> p == recovery
        ensures OpenedOn(config, "scheduled-anchor:" + suffix, anchor, SoftChallenge, token, now, p) <==> p == scheduled
      {
      }
      PutMeans(b.pending, recovery);
      PutMeans(b.pending, scheduled);
    }
  }

  /** In every reachable runtime such a request reaches the registry exactly when a session
      and a segment are open to anchor it to; otherwise it changes nothing. */
  lemma RequestsNeedAnAnchor(config: Config, shadow: bool, events: seq<RuntimeEvent>, event: RuntimeEvent)
    requires config.settings.Valid() && ValidEvents(events) && (event.Recovers? || event.Schedules?)
    ensures var r := Run(config, shadow, events);
            if r.live.Some? && r.live.value.sessionId.Some? && event.segmentId.Some? then
              var anchor := Anchor(r.live.value.userId, r.live.value.sessionId.value, event.segmentId.value);
              && Distinct(r.backend.pending)
              && Step(config, r, event) ==
                 r.(backend := if event.Recovers? then Recovered(config, r.backend, anchor, event.suffix, event.secret, event.at)
                               else Scheduled(config, r.backend, anchor, event.suffix, event.secret, event.at))
            else Step(config, r, event) == r
  {
    EveryRuntimeIsSound(config, shadow, events);
  }

  lemma NothingEnforcing(pending: seq<PendingChallenge>, now: int)
    ensures Enforcing(Unexpired(pending, now)) == [] <==> forall p :: p in pending && !IsScheduled(p.decisionId) ==> p.expiresAt <= now
  {
    OverdueMeans(pending, now);
    EnforcingMeans(Unexpired(pending, now));
    var enforcing := Enforcing(Unexpired(pending, now));
    if enforcing != [] {
      assert enforcing[0] in enforcing;
    }
  }
}
