/** The backend-held enforcement posture and its ladder, one atomic call at a time. */
module Postures {
  import opened Wrappers
  import opened RiskTypes

  datatype Posture = Normal | Challenged | ReauthRequired | LockedOut

  datatype ResponseOutcome = Accepted | Rejected | Expired

  datatype PostureTransition = PostureTransition(
    previous: Posture, current: Posture, code: string, decisionId: string, at: int)

  datatype SessionState = SessionState(
    posture: Posture,
    decisionId: Option<string>,
    since: Option<int>,
    failedResponses: nat)

  const Unchallenged := SessionState(Normal, None, None, 0)

  function PostureRank(posture: Posture): nat {
    match posture case Normal => 0 case Challenged => 1 case ReauthRequired => 2 case LockedOut => 3
  }

  predicate Blocking(posture: Posture) {
    posture in {ReauthRequired, LockedOut}
  }

  /** The rung an action stands for; the other actions are not on the ladder. */
  function Rung(action: DecisionAction): Option<Posture> {
    match action
    case SoftChallenge => Some(Challenged)
    case Reauth => Some(ReauthRequired)
    case Terminate => Some(LockedOut)
    case _ => None
  }

  function OutcomeName(outcome: ResponseOutcome): string {
    match outcome
    case Accepted => "ACCEPTED"
    case Rejected => "REJECTED"
    case Expired => "EXPIRED"
  }

  function OutcomeCode(outcome: ResponseOutcome): string {
    "ENFORCEMENT_CHALLENGE_" + OutcomeName(outcome)
  }

  function EnforcementCode(target: Posture): string {
    match target
    case Normal => "ENFORCEMENT_NORMAL"
    case Challenged => "ENFORCEMENT_SOFT_CHALLENGE"
    case ReauthRequired => "ENFORCEMENT_REAUTH_REQUIRED"
    case LockedOut => "ENFORCEMENT_LOCKED_OUT"
  }

  function Moved(s: SessionState, target: Posture, code: string, id: string, now: int)
    : (SessionState, Option<PostureTransition>)
  {
    if s.posture == target then (s, None)
    else
      (SessionState(target,
                    if target == Normal then None else Some(id),
                    if target == Normal then None else Some(now),
                    if target == Normal then 0 else s.failedResponses),
       Some(PostureTransition(s.posture, target, code, id, now)))
  }

  function DecisionObserved(enabled: bool, s: SessionState, id: string, action: DecisionAction, applied: bool, now: int)
    : (SessionState, Option<PostureTransition>)
  {
    var target := Rung(action);
    if !enabled || !applied || target.None? then (s, None)
    else if PostureRank(target.value) <= PostureRank(s.posture) then (s, None)
    else Moved(s, target.value, EnforcementCode(target.value), id, now)
  }

  function OutcomeObserved(
    enabled: bool, s: SessionState, id: string, action: DecisionAction, outcome: ResponseOutcome, now: int)
    : (SessionState, Option<PostureTransition>)
  {
    var target := Rung(action);
    if !enabled || target.None? || target.value == LockedOut then (s, None)
    else if outcome == Accepted then
      if action == Reauth then Moved(s, Normal, "ENFORCEMENT_REAUTH_ACCEPTED", id, now)
      else if PostureRank(s.posture) > PostureRank(Challenged) then (s, None)
      else Moved(s, Normal, "ENFORCEMENT_CHALLENGE_ACCEPTED", id, now)
    else
      var failed := s.(failedResponses := s.failedResponses + 1);
      if action == Reauth then Moved(failed, LockedOut, OutcomeCode(outcome), id, now)
      else if PostureRank(s.posture) > PostureRank(Challenged) then (failed, None)
      else Moved(failed, ReauthRequired, OutcomeCode(outcome), id, now)
  }

  class EnforcementSessionState {
    const enabled: bool
    var posture: Posture
    var decisionId: Option<string>
    var since: Option<int>
    var failedResponses: nat

    function View(): SessionState
      reads this
    {
      SessionState(posture, decisionId, since, failedResponses)
    }

    constructor (enabled: bool)
      ensures this.enabled == enabled && View() == Unchallenged
    {
      this.enabled := enabled;
      posture, decisionId, since, failedResponses := Normal, None, None, 0;
    }

    method Move(target: Posture, code: string, id: string, now: int) returns (transition: Option<PostureTransition>)
      modifies this
      ensures (View(), transition) == Moved(old(View()), target, code, id, now)
    {
      var previous := posture;
      if previous == target {
        return None;
      }
      posture := target;
      decisionId := if target == Normal then None else Some(id);
      since := if target == Normal then None else Some(now);
      if target == Normal {
        failedResponses := 0;
      }
      return Some(PostureTransition(previous, target, code, id, now));
    }

    method ObserveDecision(id: string, action: DecisionAction, applied: bool, now: int)
      returns (transition: Option<PostureTransition>)
      modifies this
      ensures (View(), transition) == DecisionObserved(enabled, old(View()), id, action, applied, now)
    {
      if !enabled || !applied {
        return None;
      }
      var target := Rung(action);
      if target.None? {
        return None;
      }
      if PostureRank(target.value) <= PostureRank(posture) {
        return None;
      }
      transition := Move(target.value, EnforcementCode(target.value), id, now);
    }

    method ObserveChallengeOutcome(id: string, action: DecisionAction, outcome: ResponseOutcome, now: int)
      returns (transition: Option<PostureTransition>)
      modifies this
      ensures (View(), transition) == OutcomeObserved(enabled, old(View()), id, action, outcome, now)
    {
      if !enabled {
        return None;
      }
      var target := Rung(action);
      if target.None? || target.value == LockedOut {
        return None;
      }
      if outcome == Accepted {
        if action == Reauth {
          transition := Move(Normal, "ENFORCEMENT_REAUTH_ACCEPTED", id, now);
          return;
        }
        if PostureRank(posture) > PostureRank(Challenged) {
          return None;
        }
        transition := Move(Normal, "ENFORCEMENT_CHALLENGE_ACCEPTED", id, now);
        return;
      }
      failedResponses := failedResponses + 1;
      if action == Reauth {
        transition := Move(LockedOut, OutcomeCode(outcome), id, now);
        return;
      }
      if PostureRank(posture) > PostureRank(Challenged) {
        return None;
      }
      transition := Move(ReauthRequired, OutcomeCode(outcome), id, now);
    }
  }

  // ---------------------------------------------------------------------
  // Calls as atomic steps
  // ---------------------------------------------------------------------

  datatype Observation =
    | OfDecision(id: string, action: DecisionAction, applied: bool, at: int)
    | OfOutcome(id: string, action: DecisionAction, outcome: ResponseOutcome, at: int)

  function Observe(enabled: bool, s: SessionState, o: Observation): (SessionState, Option<PostureTransition>) {
    match o
    case OfDecision(id, action, applied, at) => DecisionObserved(enabled, s, id, action, applied, at)
    case OfOutcome(id, action, outcome, at) => OutcomeObserved(enabled, s, id, action, outcome, at)
  }

  /** The ladder's own invariant: only a session off NORMAL has a cause and a start, and a
      failed response always leaves the session blocked. */
  ghost predicate Consistent(s: SessionState) {
    && (s.posture == Normal <==> s.since.None?)
    && (s.posture == Normal <==> s.decisionId.None?)
    && (s.failedResponses > 0 ==> Blocking(s.posture))
  }

  /** Every observation keeps the ladder consistent. */
  lemma ObserveKeepsConsistent(enabled: bool, s: SessionState, o: Observation)
    requires Consistent(s)
    ensures Consistent(Observe(enabled, s, o).0)
  {
  }

  /** The ladder's rules, read off one observation: a decision never lowers the posture;
      a lockout is entered only by an applied TERMINATE or a failed REAUTH and left only by
      an accepted REAUTH; a disabled session never moves; a transition reports the move. */
  lemma LadderRules(enabled: bool, s: SessionState, o: Observation)
    ensures var (s', transition) := Observe(enabled, s, o);
            && (o.OfDecision? ==> PostureRank(s'.posture) >= PostureRank(s.posture))
            && (s.posture != LockedOut && s'.posture == LockedOut ==>
                  || (o.OfDecision? && o.action == Terminate && o.applied)
                  || (o.OfOutcome? && o.action == Reauth && o.outcome != Accepted))
            && (s.posture == LockedOut && s'.posture != LockedOut ==>
                  o.OfOutcome? && o.action == Reauth && o.outcome == Accepted && s'.posture == Normal)
            && (!enabled ==> s' == s && transition.None?)
            && (transition.None? <==> s'.posture == s.posture)
            && (transition.Some? ==> transition.value.previous == s.posture && transition.value.current == s'.posture)
  {
  }

  /** Conversely the ladder is enforced: an applied TERMINATE and a failed REAUTH always lock
      the session out, a failed SOFT_CHALLENGE always blocks it, and an accepted REAUTH
      always restores it. */
  lemma LadderIsEnforced(s: SessionState, id: string, outcome: ResponseOutcome, now: int)
    ensures DecisionObserved(true, s, id, Terminate, true, now).0.posture == LockedOut
    ensures outcome != Accepted ==> OutcomeObserved(true, s, id, Reauth, outcome, now).0.posture == LockedOut
    ensures outcome != Accepted ==> Blocking(OutcomeObserved(true, s, id, SoftChallenge, outcome, now).0.posture)
    ensures OutcomeObserved(true, s, id, Reauth, Accepted, now).0 ==
            if s.posture == Normal then s else Unchallenged
  {
  }
}
