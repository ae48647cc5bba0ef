/** The posture as its history tells it: where each observation leads, and what the session
    remembers of the observations so far. */
module PostureHistories {
  import opened Wrappers
  import opened RiskTypes
  import opened Postures

  // ---------------------------------------------------------------------
  // Where one observation leads
  // ---------------------------------------------------------------------

  // The posture that an applied decision calls for.
  predicate CallsFor(action: DecisionAction, target: Posture) {
    || (action == SoftChallenge && target == Challenged)
    || (action == Reauth && target == ReauthRequired)
    || (action == Terminate && target == LockedOut)
  }

  /** A decision raises the posture to the one it calls for; an answered REAUTH decides alone;
      an answered soft challenge counts only where nothing stronger stands. */
  ghost predicate Leads(before: Posture, o: Observation, after: Posture) {
    match o
    case OfDecision(_, action, applied, _) =>
      && (forall target :: applied && CallsFor(action, target) ==>
            after == if PostureRank(target) > PostureRank(before) then target else before)
      && (!applied || action !in {SoftChallenge, Reauth, Terminate} ==> after == before)
    case OfOutcome(_, action, outcome, _) =>
      && (action == Reauth ==> after == if outcome == Accepted then Normal else LockedOut)
      && (action == SoftChallenge && before in {ReauthRequired, LockedOut} ==> after == before)
      && (action == SoftChallenge && before in {Normal, Challenged} ==> after == if outcome == Accepted then Normal else ReauthRequired)
      && (action !in {SoftChallenge, Reauth} ==> after == before)
  }

  function ObservedAt(o: Observation): int {
    match o case OfDecision(_, _, _, at) => at case OfOutcome(_, _, _, at) => at
  }

  // The reason code of a move.
  ghost predicate Coded(o: Observation, code: string) {
    match o
    case OfDecision(_, action, _, _) =>
      && (action == SoftChallenge ==> code == "ENFORCEMENT_SOFT_CHALLENGE")
      && (action == Reauth ==> code == "ENFORCEMENT_REAUTH_REQUIRED")
      && (action == Terminate ==> code == "ENFORCEMENT_LOCKED_OUT")
    case OfOutcome(_, action, outcome, _) =>
      && (outcome == Accepted && action == Reauth ==> code == "ENFORCEMENT_REAUTH_ACCEPTED")
      && (outcome == Accepted && action == SoftChallenge ==> code == "ENFORCEMENT_CHALLENGE_ACCEPTED")
      && (outcome == Rejected ==> code == "ENFORCEMENT_CHALLENGE_REJECTED")
      && (outcome == Expired ==> code == "ENFORCEMENT_CHALLENGE_EXPIRED")
  }

  /** An answer to a challenge that was wrong or came too late. */
  predicate Fails(o: Observation) {
    o.OfOutcome? && o.action in {SoftChallenge, Reauth} && o.outcome != Accepted
  }

  // The transition, if the posture moved, tells of the observation.
  ghost predicate Told(before: Posture, o: Observation, after: Posture, transition: Option<PostureTransition>) {
    if after == before then transition.None?
    else
      && transition.Some?
      && var t := transition.value;
      && t.previous == before && t.current == after && t.decisionId == o.id && t.at == ObservedAt(o) && Coded(o, t.code)
  }

  lemma CodesAreSpelled()
    ensures OutcomeCode(Rejected) == "ENFORCEMENT_CHALLENGE_REJECTED"
    ensures OutcomeCode(Expired) == "ENFORCEMENT_CHALLENGE_EXPIRED"
  {
  }

  /** One observation of an enabled session, exactly. */
  lemma ObservationIsExact(s: SessionState, o: Observation)
    ensures var (s', transition) := Observe(true, s, o);
            && Leads(s.posture, o, s'.posture) && Told(s.posture, o, s'.posture, transition)
            && (s'.posture == s.posture ==> s'.decisionId == s.decisionId && s'.since == s.since)
            && (s'.posture != s.posture && s'.posture == Normal ==> s' == Unchallenged)
            && (s'.posture != s.posture && s'.posture != Normal ==> s'.decisionId == Some(o.id) && s'.since == Some(ObservedAt(o)))
            && (s'.posture == s.posture || s'.posture != Normal ==>
                  s'.failedResponses == s.failedResponses + if Fails(o) then 1 else 0)
  {
    CodesAreSpelled();
  }

  // ---------------------------------------------------------------------
  // Over whole histories
  // ---------------------------------------------------------------------

  function Observing(observations: seq<Observation>): (SessionState, seq<PostureTransition>) {
    if observations == [] then (Unchallenged, [])
    else
      var (s, log) := Observing(observations[..|observations| - 1]);
      var (s', transition) := Observe(true, s, observations[|observations| - 1]);
      (s', Extended(log, transition))
  }

  // The wrong and late answers since the session was last NORMAL.
  function FailuresSinceNormal(observations: seq<Observation>): nat {
    if observations == [] || Observing(observations).0.posture == Normal then 0
    else
      FailuresSinceNormal(observations[..|observations| - 1])
      + if Fails(observations[|observations| - 1]) then 1 else 0
  }

  // What the session remembers is in the log of transitions.
  ghost predicate Remembered(s: SessionState, log: seq<PostureTransition>) {
    && s.posture == (if log == [] then Normal else log[|log| - 1].current)
    && (s.posture == Normal ==> s.decisionId.None? && s.since.None?)
    && (s.posture != Normal ==>
          s.decisionId == Some(log[|log| - 1].decisionId) && s.since == Some(log[|log| - 1].at))
  }

  // The transition is the one that the observation leads to, and tells of it.
  ghost predicate MadeBy(t: PostureTransition, o: Observation) {
    Told(t.previous, o, t.current, Some(t)) && Leads(t.previous, o, t.current)
  }

  ghost predicate Explained(observations: seq<Observation>, t: PostureTransition) {
    exists i :: 0 <= i < |observations| && MadeBy(t, observations[i])
  }

  ghost predicate Accounted(observations: seq<Observation>, log: seq<PostureTransition>) {
    forall k :: 0 <= k < |log| ==> Explained(observations, log[k])
  }

  function Extended(log: seq<PostureTransition>, transition: Option<PostureTransition>): seq<PostureTransition> {
    if transition.Some? then log + [transition.value] else log
  }

  lemma AccountGoesOn(observations: seq<Observation>, log: seq<PostureTransition>, s: SessionState, o: Observation)
    requires Accounted(observations, log)
    ensures Accounted(observations + [o], Extended(log, Observe(true, s, o).1))
  {
    ObservationIsExact(s, o);
    var transition := Observe(true, s, o).1;
    var log', all := Extended(log, transition), observations + [o];
    forall k | 0 <= k < |log'| ensures Explained(all, log'[k]) {
      if k < |log| {
        var i :| 0 <= i < |observations| && MadeBy(log[k], observations[i]);
        assert MadeBy(log'[k], all[i]);
      } else {
        assert all[|observations|] == o && MadeBy(transition.value, o);
      }
    }
  }

  lemma MemoryGoesOn(log: seq<PostureTransition>, s: SessionState, o: Observation)
    requires Remembered(s, log)
    ensures var (s', transition) := Observe(true, s, o); Remembered(s', Extended(log, transition))
  {
    ObservationIsExact(s, o);
  }

  lemma FailuresGoOn(before: seq<Observation>, o: Observation)
    requires Remembered(Observing(before).0, Observing(before).1)
    requires Observing(before).0.failedResponses == FailuresSinceNormal(before)
    ensures Observing(before + [o]).0.failedResponses == FailuresSinceNormal(before + [o])
  {
    var s := Observing(before).0;
    assert (before + [o])[..|before|] == before;
    ObservationIsExact(s, o);
  }

  /** Main result: after any history of decisions and answers the session's posture, cause and
      start are those of the last transition, every transition is the one its observation
      leads to, under its reason code, and the failed responses are those since NORMAL. */
  lemma {:induction false} SessionTellsItsHistory(observations: seq<Observation>)
    ensures var (s, log) := Observing(observations);
            && Remembered(s, log) && Accounted(observations, log)
            && s.failedResponses == FailuresSinceNormal(observations)
    decreases |observations|
  {
    if observations != [] {
      var before, o := observations[..|observations| - 1], observations[|observations| - 1];
      SessionTellsItsHistory(before);
      var (s, log) := Observing(before);
      AccountGoesOn(before, log, s, o);
      MemoryGoesOn(log, s, o);
      FailuresGoOn(before, o);
      assert before + [o] == observations;
    }
  }
}
