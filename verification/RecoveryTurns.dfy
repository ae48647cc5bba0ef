/** The way back while the runtime goes on: other events between one attempt and the next. */
module RecoveryTurns {
  import opened Wrappers
  import opened RiskTypes
  import opened Postures
  import opened Challenges
  import opened Enforcement
  import opened RuntimeRuns
  import opened Recoveries
  import Engine = EngineRuns

  /** A participant asks for the way back and answers what is handed out, or anything else happens. */
  datatype Turn = Asks(segmentId: Option<string>, round: Round) | Happens(event: RuntimeEvent)
  {
    predicate Valid() {
      Happens? ==> event.Valid()
    }
  }

  ghost predicate AllValid(turns: seq<Turn>) {
    forall i :: 0 <= i < |turns| ==> turns[i].Valid()
  }

  function Take(config: Config, r: Runtime, turn: Turn): Runtime
    requires config.credential.Some? && turn.Valid()
  {
    match turn
    case Happens(event) => Step(config, r, event)
    case Asks(segmentId, round) =>
      if !Blocking(r.backend.session.posture) then r
      else
        var asking := Step(config, r, Recovers(segmentId, round.suffix, round.secret, round.asked));
        var c := HandedOut(config, r.backend, round);
        Step(config, asking, Answers(c.decisionId, round.answer, round.presented, round.at, round.later))
  }

  function AfterTurns(config: Config, r: Runtime, turns: seq<Turn>): Runtime
    requires config.credential.Some? && AllValid(turns)
    decreases |turns|
  {
    if turns == [] then r else Take(config, AfterTurns(config, r, turns[..|turns| - 1]), turns[|turns| - 1])
  }

  function AsksIn(turns: seq<Turn>): nat {
    if turns == [] then 0 else AsksIn(turns[..|turns| - 1]) + if turns[|turns| - 1].Asks? then 1 else 0
  }

  // Every enforcing challenge outstanding afterwards was outstanding before.
  ghost predicate OpensNoChallenge(r: Runtime, r': Runtime) {
    forall p :: p in r'.backend.pending && !IsScheduled(p.decisionId) ==> p in r.backend.pending
  }

  /** A request comes at `start` or later, in a session with an open segment, and while the
      session is blocked its answer is right; other events open no enforcing challenge. */
  ghost predicate Permitted(config: Config, r: Runtime, turn: Turn, start: int)
    requires config.credential.Some? && turn.Valid()
  {
    match turn
    case Happens(event) => OpensNoChallenge(r, Step(config, r, event))
    case Asks(segmentId, round) =>
      && start <= round.asked && r.AnchorAt(segmentId) == Some(round.anchor)
      && (Blocking(r.backend.session.posture) ==> AnsweredRightly(config, r.backend, round))
  }

  ghost predicate AllPermitted(config: Config, r: Runtime, turns: seq<Turn>, start: int)
    requires config.credential.Some? && AllValid(turns)
  {
    forall i :: 0 <= i < |turns| ==> Permitted(config, AfterTurns(config, r, turns[..i]), turns[i], start)
  }

  // ---------------------------------------------------------------------
  // What other events can do to a blocked session
  // ---------------------------------------------------------------------

  lemma ResolvingUnblocks(enabled: bool, b: Backend, c: PendingChallenge, outcome: ResponseOutcome, evidence: bool, now: int)
    requires Blocking(b.session.posture)
    ensures var s' := Resolved(enabled, b, c, outcome, evidence, now).session;
            Blocking(s'.posture) || s' == Unchallenged
  {
    ResolvedSession(enabled, b, c, outcome, evidence, now);
  }

  lemma AnsweringUnblocks(config: Config, b: Backend, id: string, answer: string, presented: Option<string>, at: int, later: int)
    requires Consistent(b.session) && Blocking(b.session.posture)
    ensures var s' := Answered(config.enabled, config.credential, b, id, answer, presented, at, later).0.session;
            Blocking(s'.posture) || s' == Unchallenged
  {
    SweepRules(config.enabled, b.(pending := Unexpired(b.pending, at)), Overdue(b.pending, at), at);
    AnsweredSession(config, b, id, answer, presented, at, later);
    var settled := Settles(config, b, id, answer, presented, at, later);
    if settled.Some? {
      ResolvingUnblocks(config.enabled, Swept(config.enabled, b, at), settled.value.challenge, settled.value.outcome,
                        settled.value.evidence, later);
    }
  }

  /** No event takes a blocked session anywhere but to another blocking posture or to NORMAL
      with nothing remembered. */
  lemma BlockedGoesToNormal(config: Config, r: Runtime, event: RuntimeEvent)
    requires event.Valid() && Consistent(r.backend.session) && Blocking(r.backend.session.posture)
    ensures var s' := Step(config, r, event).backend.session;
            Blocking(s'.posture) || s' == Unchallenged
  {
    match event {
      case Monitored(e, reply, prompt, token, at) =>
        if r.live.Some? {
          var live := r.live.value;
          var more := Engine.Step(config.SetupFor(live.userId), live.engine, e).1;
          if more != [] && more[0].decision.Some? {
            EnforcedRules(config, r.backend, more[0].decision.value, reply, prompt, token, at);
          }
        }
      case Answers(id, answer, presented, at, later) =>
        AnsweringUnblocks(config, r.backend, id, answer, presented, at, later);
      case Sweeps(at) =>
        SweepRules(config.enabled, r.backend.(pending := Unexpired(r.backend.pending, at)),
                   Overdue(r.backend.pending, at), at);
      case _ =>
    }
  }

  lemma {:induction false} DistinctOnce(pending: seq<PendingChallenge>)
    requires Distinct(pending)
    ensures forall p :: multiset(pending)[p] <= 1
  {
    if pending != [] {
      DistinctOnce(pending[1..]);
      assert pending == [pending[0]] + pending[1..];
      assert pending[0] !in pending[1..];
    }
  }

  lemma {:induction false} OutstandingIsPart(pending: seq<PendingChallenge>, now: int)
    ensures multiset(Unexpired(pending, now)) <= multiset(pending)
    ensures multiset(Enforcing(pending)) <= multiset(pending)
  {
    if pending != [] {
      OutstandingIsPart(pending[1..], now);
      assert pending == [pending[0]] + pending[1..];
    }
  }

  // Fewer challenges of distinct ids stay outstanding when none is opened.
  lemma OutstandingShrinks(b: Backend, b': Backend, start: int)
    requires Distinct(b'.pending)
    requires forall p :: p in b'.pending && !IsScheduled(p.decisionId) ==> p in b.pending
    ensures |Outstanding(b', start)| <= |Outstanding(b, start)|
  {
    EachOnce(b'.pending, start);
    EnforcingMeans(Unexpired(b'.pending, start));
    OverdueMeans(b'.pending, start);
    EnforcingMeans(Unexpired(b.pending, start));
    OverdueMeans(b.pending, start);
    FewerIfEachOnce(Outstanding(b', start), Outstanding(b, start));
  }

  lemma EachOnce(pending: seq<PendingChallenge>, start: int)
    requires Distinct(pending)
    ensures forall p :: multiset(Enforcing(Unexpired(pending, start)))[p] <= 1
  {
    var unexpired := Unexpired(pending, start);
    DistinctOnce(pending);
    OutstandingIsPart(pending, start);
    OutstandingIsPart(unexpired, start);
    forall p ensures multiset(Enforcing(unexpired))[p] <= 1 {
      assert multiset(Enforcing(unexpired))[p] <= multiset(unexpired)[p] <= multiset(pending)[p];
    }
  }

  lemma FewerIfEachOnce(few: seq<PendingChallenge>, many: seq<PendingChallenge>)
    requires forall p :: multiset(few)[p] <= 1
    requires forall p :: p in few ==> p in many
    ensures |few| <= |many|
  {
    var rest := multiset(many) - multiset(few);
    forall p ensures multiset(few)[p] <= multiset(many)[p] {
      assert p in few <==> p in multiset(few);
    }
    assert multiset(many) == multiset(few) + rest;
    assert |multiset(many)| == |many| && |multiset(few)| == |few|;
  }

  // ---------------------------------------------------------------------
  // Turn after turn
  // ---------------------------------------------------------------------

  ghost predicate StillBlocked(config: Config, r: Runtime) {
    Sound(r) && Blocked(config, r.backend)
  }

  lemma HappeningMakesNoRegress(config: Config, r: Runtime, event: RuntimeEvent, start: int)
    requires config.settings.Valid() && event.Valid() && StillBlocked(config, r) && OpensNoChallenge(r, Step(config, r, event))
    ensures var r' := Step(config, r, event);
            || r'.backend.session == Unchallenged
            || (StillBlocked(config, r') && |Outstanding(r'.backend, start)| <= |Outstanding(r.backend, start)|)
  {
    StepStaysSound(config, r, event);
    BlockedGoesToNormal(config, r, event);
    OutstandingShrinks(r.backend, Step(config, r, event).backend, start);
  }

  lemma AskingMakesProgress(config: Config, r: Runtime, turn: Turn, start: int)
    requires config.settings.Valid() && config.credential.Some? && turn.Asks? && StillBlocked(config, r)
    requires Permitted(config, r, turn, start)
    ensures var r' := Take(config, r, turn);
            || r'.backend.session == Unchallenged
            || (StillBlocked(config, r') && |Outstanding(r'.backend, start)| < |Outstanding(r.backend, start)|)
  {
    var round := turn.round;
    var ask := Recovers(turn.segmentId, round.suffix, round.secret, round.asked);
    var c := HandedOut(config, r.backend, round);
    RoundIsTwoEvents(config, r, turn.segmentId, round);
    RoundMakesProgress(config, r.backend, round, start);
    StepStaysSound(config, r, ask);
    StepStaysSound(config, Step(config, r, ask), Answers(c.decisionId, round.answer, round.presented, round.at, round.later));
  }

  ghost predicate Restored(config: Config, r: Runtime, turns: seq<Turn>)
    requires config.credential.Some? && AllValid(turns)
  {
    exists k :: 0 <= k <= |turns| && AfterTurns(config, r, turns[..k]).backend.session == Unchallenged
  }

  lemma {:induction false} TurnsMakeProgress(config: Config, r: Runtime, turns: seq<Turn>, start: int)
    requires config.settings.Valid() && config.credential.Some? && AllValid(turns)
    requires StillBlocked(config, r) && AllPermitted(config, r, turns, start)
    ensures var r' := AfterTurns(config, r, turns);
            || Restored(config, r, turns)
            || (StillBlocked(config, r') && AsksIn(turns) + |Outstanding(r'.backend, start)| <= |Outstanding(r.backend, start)|)
    decreases |turns|
  {
    if turns != [] {
      var n := |turns| - 1;
      PermittedEarlier(config, r, turns, start);
      TurnsMakeProgress(config, r, turns[..n], start);
      if Restored(config, r, turns[..n]) {
        RestoredEarlier(config, r, turns);
      } else {
        var before := AfterTurns(config, r, turns[..n]);
        assert Permitted(config, before, turns[n], start);
        LastTurn(config, before, turns[n], start);
        assert turns[..|turns|] == turns;
      }
    }
  }

  lemma LastTurn(config: Config, r: Runtime, turn: Turn, start: int)
    requires config.settings.Valid() && config.credential.Some? && turn.Valid() && StillBlocked(config, r)
    requires Permitted(config, r, turn, start)
    ensures var r' := Take(config, r, turn);
            || r'.backend.session == Unchallenged
            || (StillBlocked(config, r')
                && (if turn.Asks? then 1 else 0) + |Outstanding(r'.backend, start)| <= |Outstanding(r.backend, start)|)
  {
    if turn.Asks? {
      AskingMakesProgress(config, r, turn, start);
    } else {
      HappeningMakesNoRegress(config, r, turn.event, start);
    }
  }

  lemma PermittedEarlier(config: Config, r: Runtime, turns: seq<Turn>, start: int)
    requires config.credential.Some? && AllValid(turns) && turns != [] && AllPermitted(config, r, turns, start)
    ensures AllPermitted(config, r, turns[..|turns| - 1], start)
  {
    var n := |turns| - 1;
    forall i | 0 <= i < n
      ensures Permitted(config, AfterTurns(config, r, turns[..n][..i]), turns[..n][i], start)
    {
      assert turns[..n][..i] == turns[..i];
      assert Permitted(config, AfterTurns(config, r, turns[..i]), turns[i], start);
    }
  }

  lemma RestoredEarlier(config: Config, r: Runtime, turns: seq<Turn>)
    requires config.credential.Some? && AllValid(turns) && turns != [] && Restored(config, r, turns[..|turns| - 1])
    ensures Restored(config, r, turns)
  {
    var n := |turns| - 1;
    var k :| 0 <= k <= n && AfterTurns(config, r, turns[..n][..k]).backend.session == Unchallenged;
    assert turns[..n][..k] == turns[..k];
  }

  /** Main result: from every reachable runtime whose session is blocked, while monitoring,
      sweeps, wrong answers and session changes go on in between but open no further enforcing
      challenge, more right attempts than there are enforcing challenges outstanding bring the
      session to NORMAL with nothing remembered at some turn. */
  lemma AWayBackMeanwhile(config: Config, shadow: bool, events: seq<RuntimeEvent>, turns: seq<Turn>, start: int)
    requires config.settings.Valid() && config.enabled && config.credential.Some? && ValidEvents(events) && AllValid(turns)
    requires var r := Run(config, shadow, events);
             && Blocking(r.backend.session.posture) && AllPermitted(config, r, turns, start)
             && AsksIn(turns) > |Outstanding(r.backend, start)|
    ensures Restored(config, Run(config, shadow, events), turns)
  {
    EveryRuntimeIsSound(config, shadow, events);
    TurnsMakeProgress(config, Run(config, shadow, events), turns, start);
  }
}
