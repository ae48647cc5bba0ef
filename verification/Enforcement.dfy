/** The coordinator that acts on decisions and the API calls that resolve challenges. */
module Enforcement {
  import opened Wrappers
  import opened RiskTypes
  import opened Postures
  import opened Challenges

  datatype ActionStatus = Succeeded | FailedOpen | Cancelled | Skipped

  /** What the adapter of an action answers; a missing or raising adapter fails open. */
  datatype AdapterReply = Missing | Raised | Replied(status: ActionStatus, code: string, evidence: bool)

  datatype AnchorKind = A2Reauth | A3Scheduled

  datatype VerificationRecord = VerificationRecord(kind: AnchorKind, decisionId: string, at: int)

  datatype ActionOutcome = ActionOutcome(
    decisionId: string, action: DecisionAction, status: ActionStatus, code: string, at: int, anchored: bool)

  datatype ApiError = NotFound | Conflict

  /** The backend's enforcement state with the records it has stored. */
  datatype Backend = Backend(
    session: SessionState,
    pending: seq<PendingChallenge>,
    outcomes: seq<ActionOutcome>,
    anchors: seq<VerificationRecord>,
    notices: nat)

  predicate Gated(decision: RiskDecision) {
    decision.userState != Active || (!decision.enforcementApplied && decision.action != Continue)
  }

  function Record(b: Backend, outcome: ActionOutcome): Backend {
    b.(outcomes := b.outcomes + [outcome],
       anchors := b.anchors + if outcome.anchored then [VerificationRecord(A2Reauth, outcome.decisionId, outcome.at)] else [])
  }

  function Executed(enabled: bool, b: Backend, decision: RiskDecision, reply: AdapterReply, now: int): Backend {
    var id, action := decision.decisionId, decision.action;
    if Gated(decision) then
      Record(b, ActionOutcome(id, action, Skipped, "STATE_GATED_NO_ENFORCEMENT", now, false))
    else
      var observed := b.(session := DecisionObserved(enabled, b.session, id, action, decision.enforcementApplied, now).0);
      match reply
      case Missing =>
        Record(observed.(notices := b.notices + 1),
               ActionOutcome(id, action, FailedOpen, "ENFORCEMENT_ADAPTER_UNAVAILABLE", now, false))
      case Raised =>
        Record(observed.(notices := b.notices + 1),
               ActionOutcome(id, action, FailedOpen, "ENFORCEMENT_ADAPTER_FAILED", now, false))
      case Replied(status, code, evidence) =>
        Record(observed, ActionOutcome(id, action, status, code, now, action == Reauth && status == Succeeded && evidence))
  }

  function ResponseRecorded(b: Backend, c: PendingChallenge, outcome: ResponseOutcome, evidence: bool,
                            now: int): Backend {
    Record(b, ActionOutcome(c.decisionId, c.action, if outcome == Accepted then Succeeded else Cancelled,
                            "CHALLENGE_" + OutcomeName(outcome), now, outcome == Accepted && c.action == Reauth && evidence))
  }

  // What resolving one challenge does: the ladder moves unless it is a scheduled prompt,
  // and an outcome is stored only for a challenge that has a stored decision.
  function Resolved(enabled: bool, b: Backend, c: PendingChallenge, outcome: ResponseOutcome, evidence: bool,
                    now: int): Backend {
    var moved :=
      if IsScheduled(c.decisionId) then b
      else b.(session := OutcomeObserved(enabled, b.session, c.decisionId, c.action, outcome, now).0);
    if IsEngineDecision(c.decisionId) then ResponseRecorded(moved, c, outcome, evidence, now) else moved
  }

  function ExpiredAll(enabled: bool, b: Backend, expired: seq<PendingChallenge>, now: int): Backend {
    if expired == [] then b
    else
      var c := expired[|expired| - 1];
      var before := ExpiredAll(enabled, b, expired[..|expired| - 1], now);
      if IsScheduled(c.decisionId) then before else Resolved(enabled, before, c, Expired, false, now)
  }

  function Swept(enabled: bool, b: Backend, now: int): Backend {
    ExpiredAll(enabled, b.(pending := Unexpired(b.pending, now)), Overdue(b.pending, now), now)
  }

  /** A sweep, then the answer, then its consequences; an answer to a challenge the sweep has
      just expired is late, not unknown. */
  function Answered(enabled: bool, credential: Option<Credential>, b: Backend,
                    id: string, answer: string, token: Option<string>, now: int, later: int)
    : (Backend, Result<ResponseOutcome, ApiError>)
  {
    var swept := Swept(enabled, b, now);
    var (pending, result) := Responded(credential, swept.pending, id, answer, token, later);
    match result
    case Err(NotConfigured) => (swept, Err(Conflict))
    case Err(UnknownChallenge) =>
      var late := Find(Overdue(b.pending, now), id);
      (swept, if late.Some? && (token.None? || late.value.token == token.value) then Ok(Expired) else Err(NotFound))
    case Ok(r) =>
      var resolved := Resolved(enabled, swept.(pending := pending), r.challenge, r.outcome, r.evidence, later);
      (resolved.(anchors := resolved.anchors + SinkAnchors(r, later)), Ok(r.outcome))
  }

  // The anchors of the in-memory challenges come from their own sinks.
  function SinkAnchors(r: ResponseResult, now: int): seq<VerificationRecord> {
    if r.outcome != Accepted || !r.evidence then []
    else if IsRecovery(r.challenge.decisionId) then [VerificationRecord(A2Reauth, r.challenge.decisionId, now)]
    else if IsScheduled(r.challenge.decisionId) then [VerificationRecord(A3Scheduled, r.challenge.decisionId, now)]
    else []
  }

  class EnforcementBackend {
    const session: EnforcementSessionState
    const service: ChallengeService
    var outcomes: seq<ActionOutcome>
    var anchors: seq<VerificationRecord>
    var notices: nat

    ghost predicate Valid()
      reads this, service
    {
      service.Valid()
    }

    function View(): Backend
      reads this, session, service
    {
      Backend(session.View(), service.pending, outcomes, anchors, notices)
    }

    constructor (enabled: bool, service: ChallengeService)
      requires service.Valid()
      ensures Valid() && this.service == service && fresh(session) && session.enabled == enabled
      ensures View() == Backend(Unchallenged, service.pending, [], [], 0)
    {
      this.service := service;
      session := new EnforcementSessionState(enabled);
      outcomes, anchors, notices := [], [], 0;
    }

    method Store(outcome: ActionOutcome)
      requires Valid()
      modifies this`outcomes, this`anchors
      ensures Valid() && View() == Record(old(View()), outcome)
    {
      if outcome.anchored {
        anchors := anchors + [VerificationRecord(A2Reauth, outcome.decisionId, outcome.at)];
      }
      outcomes := outcomes + [outcome];
    }

    method Execute(decision: RiskDecision, reply: AdapterReply, now: int)
      requires Valid()
      modifies this, session
      ensures Valid() && View() == Executed(session.enabled, old(View()), decision, reply, now)
    {
      var id, action := decision.decisionId, decision.action;
      if Gated(decision) {
        Store(ActionOutcome(id, action, Skipped, "STATE_GATED_NO_ENFORCEMENT", now, false));
        return;
      }
      var _ := session.ObserveDecision(id, action, decision.enforcementApplied, now);
      match reply {
        case Missing =>
          notices := notices + 1;
          Store(ActionOutcome(id, action, FailedOpen, "ENFORCEMENT_ADAPTER_UNAVAILABLE", now, false));
        case Raised =>
          notices := notices + 1;
          Store(ActionOutcome(id, action, FailedOpen, "ENFORCEMENT_ADAPTER_FAILED", now, false));
        case Replied(status, code, evidence) =>
          Store(ActionOutcome(id, action, status, code, now, action == Reauth && status == Succeeded && evidence));
      }
    }

    method Resolve(c: PendingChallenge, outcome: ResponseOutcome, evidence: bool, now: int)
      requires Valid()
      modifies this, session
      ensures Valid() && View() == Resolved(session.enabled, old(View()), c, outcome, evidence, now)
    {
      if !IsScheduled(c.decisionId) {
        var _ := session.ObserveChallengeOutcome(c.decisionId, c.action, outcome, now);
      }
      if IsEngineDecision(c.decisionId) {
        Store(ActionOutcome(c.decisionId, c.action, if outcome == Accepted then Succeeded else Cancelled,
                            "CHALLENGE_" + OutcomeName(outcome), now, outcome == Accepted && c.action == Reauth && evidence));
      }
    }

    method SweepExpiredChallenges(now: int) returns (expired: seq<PendingChallenge>)
      requires Valid()
      modifies this, session, service`pending
      ensures Valid() && View() == Swept(session.enabled, old(View()), now)
      ensures expired == Overdue(old(service.pending), now)
    {
      expired := service.ExpireOverdue(now);
      ghost var start := View();
      for i := 0 to |expired|
        invariant Valid() && View() == ExpiredAll(session.enabled, start, expired[..i], now)
      {
        assert expired[..i + 1][..i] == expired[..i];
        if IsScheduled(expired[i].decisionId) {
          continue;
        }
        Resolve(expired[i], Expired, false, now);
      }
      assert expired[..|expired|] == expired;
    }

    method RespondToChallenge(id: string, answer: string, token: Option<string>, now: int, later: int)
      returns (result: Result<ResponseOutcome, ApiError>)
      requires Valid()
      modifies this, session, service`pending
      ensures Valid()
      ensures (View(), result) ==
              Answered(session.enabled, service.credential, old(View()), id, answer, token, now, later)
    {
      var justExpired := SweepExpiredChallenges(now);
      var responded := service.Respond(id, answer, token, later);
      match responded {
        case Err(NotConfigured) =>
          return Err(Conflict);
        case Err(UnknownChallenge) =>
          var late := Find(justExpired, id);
          if late.Some? && (token.None? || late.value.token == token.value) {
            return Ok(Expired);
          }
          return Err(NotFound);
        case Ok(r) =>
          Resolve(r.challenge, r.outcome, r.evidence, later);
          anchors := anchors + SinkAnchors(r, later);
          return Ok(r.outcome);
      }
    }
  }

  // ---------------------------------------------------------------------
  // What resolving a challenge can and cannot do
  // ---------------------------------------------------------------------

  /** Everything but the posture and the records stands still while a sweep resolves. */
  lemma {:induction false} SweepOnlyResolves(enabled: bool, b: Backend, expired: seq<PendingChallenge>, now: int)
    ensures var b' := ExpiredAll(enabled, b, expired, now);
            b'.pending == b.pending && b'.anchors == b.anchors && b'.notices == b.notices
    decreases |expired|
  {
    if expired != [] {
      SweepOnlyResolves(enabled, b, expired[..|expired| - 1], now);
    }
  }

  /** Scheduled prompts expire silently: a sweep moves the posture and stores outcomes
      exactly as if they had not been there. */
  lemma {:induction false} ScheduledPromptsExpireSilently(enabled: bool, b: Backend, expired: seq<PendingChallenge>,
                                                          now: int)
    ensures ExpiredAll(enabled, b, expired, now) == ExpiredAll(enabled, b, Enforcing(expired), now)
    decreases |expired|
  {
    if expired != [] {
      var before, last := expired[..|expired| - 1], expired[|expired| - 1];
      ScheduledPromptsExpireSilently(enabled, b, before, now);
      assert expired == before + [last];
      EnforcingAppend(before, last);
      if !IsScheduled(last.decisionId) {
        assert (Enforcing(before) + [last])[..|Enforcing(before)|] == Enforcing(before);
      } else {
        assert Enforcing(before) + [] == Enforcing(before);
      }
    }
  }

  lemma {:induction false} EnforcingAppend(items: seq<PendingChallenge>, last: PendingChallenge)
    ensures Enforcing(items + [last]) == Enforcing(items) + if IsScheduled(last.decisionId) then [] else [last]
  {
    if items == [] {
      assert Enforcing([last]) == (if !IsScheduled(last.decisionId) then [last] else []) + Enforcing([]);
    } else {
      EnforcingAppend(items[1..], last);
      assert (items + [last])[1..] == items[1..] + [last];
    }
  }

  /** Answering a scheduled prompt, rightly or wrongly, changes the posture no more than the
      sweep before it does, stores no outcome, and can only leave an A3 anchor. */
  lemma ScheduledAnswersNeverMove(enabled: bool, credential: Option<Credential>, b: Backend,
                                  id: string, answer: string, token: Option<string>, now: int, later: int)
    requires IsScheduled(id)
    ensures var (b', result) := Answered(enabled, credential, b, id, answer, token, now, later);
            var swept := Swept(enabled, b, now);
            && b'.session == swept.session && b'.outcomes == swept.outcomes
            && (b'.anchors == swept.anchors || exists at :: b'.anchors == swept.anchors + [VerificationRecord(A3Scheduled, id, at)])
  {
    var swept := Swept(enabled, b, now);
    FindMeans(swept.pending, id);
    var (pending, result) := Responded(credential, swept.pending, id, answer, token, later);
    if result.Ok? {
      assert result.value.challenge.decisionId == id;
      ScheduledLeavesA3(result.value, later);
      assert swept.anchors + [] == swept.anchors;
      assert Resolved(enabled, swept.(pending := pending), result.value.challenge, result.value.outcome, result.value.evidence, later)
             == swept.(pending := pending);
    }
  }

  lemma ScheduledLeavesA3(r: ResponseResult, now: int)
    requires IsScheduled(r.challenge.decisionId)
    ensures SinkAnchors(r, now) in {[], [VerificationRecord(A3Scheduled, r.challenge.decisionId, now)]}
  {
    assert SCHEDULED_PREFIX[0] != RECOVERY_PREFIX[0];
  }

  /** A late answer never beats the expiry: once the sweep's clock has reached the deadline
      the answer is EXPIRED whatever it says, and nothing but the sweep happens. */
  lemma LateAnswersAreExpired(enabled: bool, credential: Option<Credential>, b: Backend, c: PendingChallenge,
                              answer: string, token: Option<string>, now: int, later: int)
    requires credential.Some? && Distinct(b.pending) && c in b.pending && c.expiresAt <= now
    requires token.None? || token.value == c.token
    ensures Answered(enabled, credential, b, c.decisionId, answer, token, now, later) ==
            (Swept(enabled, b, now), Ok(Expired))
  {
    var cleared := b.(pending := Unexpired(b.pending, now));
    SweepOnlyResolves(enabled, cleared, Overdue(b.pending, now), now);
    OverdueIsGone(b.pending, c, now);
  }

  // In a registry of distinct ids, an overdue challenge is found among the overdue only.
  lemma OverdueIsGone(pending: seq<PendingChallenge>, c: PendingChallenge, now: int)
    requires Distinct(pending) && c in pending && c.expiresAt <= now
    ensures Find(Overdue(pending, now), c.decisionId) == Some(c)
    ensures Find(Unexpired(pending, now), c.decisionId).None?
  {
    var overdue, unexpired := Overdue(pending, now), Unexpired(pending, now);
    OverdueMeans(pending, now);
    FindMeans(overdue, c.decisionId);
    FindMeans(unexpired, c.decisionId);
    var i :| 0 <= i < |overdue| && overdue[i] == c;
    IdsIdentify(pending, c, Find(overdue, c.decisionId).value);
    forall j | 0 <= j < |unexpired| ensures unexpired[j].decisionId != c.decisionId {
      assert unexpired[j] in unexpired;
      IdsIdentify(pending, c, unexpired[j]);
    }
  }

  lemma IdsIdentify(pending: seq<PendingChallenge>, c: PendingChallenge, d: PendingChallenge)
    requires Distinct(pending) && c in pending && d in pending
    ensures c == d <==> c.decisionId == d.decisionId
  {
    var i :| 0 <= i < |pending| && pending[i] == c;
    var j :| 0 <= j < |pending| && pending[j] == d;
  }

  // ---------------------------------------------------------------------
  // How a sweep or an answer may lock or unlock the session
  // ---------------------------------------------------------------------

  ghost predicate FailedReauth(c: PendingChallenge) {
    c.action == Reauth && !IsScheduled(c.decisionId)
  }

  /** A sweep keeps the ladder consistent, never lowers a posture, and locks the session out
      exactly when it was locked out already or an enforcing REAUTH is among the expired. */
  lemma {:induction false} SweepRules(enabled: bool, b: Backend, expired: seq<PendingChallenge>, now: int)
    requires Consistent(b.session)
    ensures var s' := ExpiredAll(enabled, b, expired, now).session;
            && Consistent(s')
            && PostureRank(s'.posture) >= PostureRank(b.session.posture)
            && (s'.posture == LockedOut <==>
                  || b.session.posture == LockedOut
                  || (enabled && exists i :: 0 <= i < |expired| && FailedReauth(expired[i])))
    decreases |expired|
  {
    if expired != [] {
      var last := |expired| - 1;
      SweepRules(enabled, b, expired[..last], now);
      var before := ExpiredAll(enabled, b, expired[..last], now);
      assert forall i :: 0 <= i < last ==> expired[..last][i] == expired[i];
      assert (exists i :: 0 <= i < |expired| && FailedReauth(expired[i])) <==>
             ((exists i :: 0 <= i < last && FailedReauth(expired[..last][i])) || FailedReauth(expired[last]));
      if !IsScheduled(expired[last].decisionId) {
        ExpiryStep(enabled, before, expired[last], now);
      }
    }
  }

  lemma ExpiryStep(enabled: bool, b: Backend, c: PendingChallenge, now: int)
    requires Consistent(b.session) && !IsScheduled(c.decisionId)
    ensures var s' := Resolved(enabled, b, c, Expired, false, now).session;
            && Consistent(s') && PostureRank(s'.posture) >= PostureRank(b.session.posture)
            && (s'.posture == LockedOut <==> b.session.posture == LockedOut || (enabled && FailedReauth(c)))
  {
    ResolvedSession(enabled, b, c, Expired, false, now);
    ObserveKeepsConsistent(enabled, b.session, OfOutcome(c.decisionId, c.action, Expired, now));
  }

  // The same for one answered challenge, which may also unlock.
  lemma ResolveRules(enabled: bool, b: Backend, c: PendingChallenge, outcome: ResponseOutcome, evidence: bool, now: int)
    requires Consistent(b.session)
    ensures var s' := Resolved(enabled, b, c, outcome, evidence, now).session;
            && Consistent(s')
            && (b.session.posture != LockedOut && s'.posture == LockedOut ==> FailedReauth(c) && outcome != Accepted)
            && (b.session.posture == LockedOut && s'.posture != LockedOut ==>
                  FailedReauth(c) && outcome == Accepted && s' == Unchallenged)
  {
    var o := OfOutcome(c.decisionId, c.action, outcome, now);
    ObserveKeepsConsistent(enabled, b.session, o);
    LadderRules(enabled, b.session, o);
    ResolvedSession(enabled, b, c, outcome, evidence, now);
    assert c.action == Reauth && outcome == Accepted && b.session.posture == LockedOut && enabled ==>
        Observe(enabled, b.session, o).0 == Unchallenged;
  }

  // The session after a resolution: an observation of the outcome unless the prompt was scheduled.
  lemma ResolvedSession(enabled: bool, b: Backend, c: PendingChallenge, outcome: ResponseOutcome, evidence: bool,
                        now: int)
    ensures Resolved(enabled, b, c, outcome, evidence, now).session
            == if IsScheduled(c.decisionId) then b.session
               else Observe(enabled, b.session, OfOutcome(c.decisionId, c.action, outcome, now)).0
  {
  }
}
