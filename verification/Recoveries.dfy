/** The way back: what asking to reauthenticate and answering correctly does to a blocked session. */
module Recoveries {
  import opened Wrappers
  import opened RiskTypes
  import opened Postures
  import opened Challenges
  import opened Enforcement
  import opened RuntimeRuns

  // ---------------------------------------------------------------------
  // The challenge handed out
  // ---------------------------------------------------------------------

  /** The challenge opened last; the earlier entry of the registry wins a tie. */
  function Newest(items: seq<PendingChallenge>): PendingChallenge
    requires items != []
    decreases |items|
  {
    var last := items[|items| - 1];
    if |items| == 1 then last
    else
      var best := Newest(items[..|items| - 1]);
      if best.openedAt < last.openedAt then last else best
  }

  // Where the newest stands: every earlier entry is older, and no later one is newer.
  ghost predicate NewestAt(items: seq<PendingChallenge>, i: nat) {
    && i < |items| && items[i] == Newest(items)
    && (forall j :: 0 <= j < i ==> items[j].openedAt < items[i].openedAt)
    && (forall j :: i <= j < |items| ==> items[j].openedAt <= items[i].openedAt)
  }

  lemma {:induction false} NewestStands(items: seq<PendingChallenge>) returns (i: nat)
    requires items != []
    ensures NewestAt(items, i)
    decreases |items|
  {
    var last := |items| - 1;
    if last == 0 {
      i := 0;
    } else {
      var before := items[..last];
      i := NewestStands(before);
      assert forall j :: 0 <= j < last ==> before[j] == items[j];
      if items[i].openedAt < items[last].openedAt {
        i := last;
      }
    }
  }

  /** The service's choice among the outstanding challenges is exactly this one. */
  lemma NewestIsTheFirstMax(items: seq<PendingChallenge>, item: PendingChallenge)
    requires items != []
    ensures IsFirstMax(items, item, OpenedBefore()) <==> item == Newest(items)
  {
    var i := NewestStands(items);
    if IsFirstMax(items, item, OpenedBefore()) {
      var k :| 0 <= k < |items| && items[k] == item
               && (forall j :: 0 <= j < k ==> OpenedBefore()(items[j], item))
               && (forall j :: k <= j < |items| ==> !OpenedBefore()(item, items[j]));
      assert k == i;
    }
    assert forall j :: 0 <= j < i ==> OpenedBefore()(items[j], items[i]);
    assert forall j :: i <= j < |items| ==> !OpenedBefore()(items[i], items[j]);
  }

  /** One request for a way back and the answer to what it hands out. */
  datatype Round = Round(anchor: Anchor, suffix: string, secret: string, asked: int,
                         answer: string, presented: Option<string>, at: int, later: int)

  function Outstanding(b: Backend, asked: int): seq<PendingChallenge> {
    Enforcing(Unexpired(b.pending, asked))
  }

  function HandedOut(config: Config, b: Backend, round: Round): PendingChallenge
    requires config.credential.Some?
  {
    if Outstanding(b, round.asked) != [] then Newest(Outstanding(b, round.asked))
    else Dispatched(config.timeout, config.credential.value, RECOVERY_PREFIX + round.suffix, round.anchor, Reauth,
                    round.asked, round.secret)
  }

  // The right answer to the challenge handed out, before its deadline.
  predicate AnsweredRightly(config: Config, b: Backend, round: Round) {
    && config.credential.Some? && config.credential.value.verify(round.answer)
    && var c := HandedOut(config, b, round);
    && round.at < c.expiresAt && round.later <= c.expiresAt
    && (round.presented.None? || round.presented.value == c.token)
  }

  function Asked(config: Config, b: Backend, round: Round): Backend {
    Recovered(config, b, round.anchor, round.suffix, round.secret, round.asked)
  }

  function Tried(config: Config, b: Backend, round: Round): (Backend, Result<ResponseOutcome, ApiError>)
    requires config.credential.Some?
  {
    Answered(config.enabled, config.credential, Asked(config, b, round), HandedOut(config, b, round).decisionId,
             round.answer, round.presented, round.at, round.later)
  }

  ghost predicate Blocked(config: Config, b: Backend) {
    config.enabled && config.credential.Some? && Consistent(b.session) && Blocking(b.session.posture) && Distinct(b.pending)
  }

  lemma HandedOutIsRegistered(config: Config, b: Backend, round: Round)
    requires Blocked(config, b)
    ensures var c, asking := HandedOut(config, b, round), Asked(config, b, round);
            && c in asking.pending && !IsScheduled(c.decisionId) && Distinct(asking.pending)
            && asking.session == b.session
            && (Outstanding(b, round.asked) != [] ==> asking == b && c.expiresAt > round.asked)
  {
    var c := HandedOut(config, b, round);
    if Outstanding(b, round.asked) != [] {
      var i := NewestStands(Outstanding(b, round.asked));
      assert c in Outstanding(b, round.asked);
      EnforcingMeans(Unexpired(b.pending, round.asked));
      OverdueMeans(b.pending, round.asked);
    } else {
      assert SCHEDULED_PREFIX[0] != c.decisionId[0];
      PutMeans(b.pending, c);
      PutKeepsDistinct(b.pending, c);
    }
  }

  // ---------------------------------------------------------------------
  // One round
  // ---------------------------------------------------------------------

  // A correct answer in time settles its challenge and nothing else.
  lemma RightAnswerSettles(config: Config, b: Backend, c: PendingChallenge, answer: string, presented: Option<string>,
                           at: int, later: int)
    requires config.credential.Some? && Distinct(b.pending) && c in b.pending
    requires config.credential.value.verify(answer) && at < c.expiresAt && later <= c.expiresAt
    requires presented.None? || presented.value == c.token
    ensures Settles(config, b, c.decisionId, answer, presented, at, later) == Some(ResponseResult(Accepted, c, true))
    ensures var (b', result) := Answered(config.enabled, config.credential, b, c.decisionId, answer, presented, at, later);
            && result == Ok(Accepted)
            && b'.pending == Without(Unexpired(b.pending, at), c.decisionId) && Distinct(b'.pending)
  {
    SweptPending(config.enabled, b, at);
    var swept := Swept(config.enabled, b, at);
    OverdueMeans(b.pending, at);
    FindOne(swept.pending, c);
    WithoutKeepsDistinct(swept.pending, c.decisionId);
  }

  // To an enforcing challenge of a blocked session, it restores the session or leaves it blocked.
  lemma RightAnswer(config: Config, b: Backend, c: PendingChallenge, answer: string, presented: Option<string>,
                    at: int, later: int)
    requires Blocked(config, b) && c in b.pending && !IsScheduled(c.decisionId)
    requires config.credential.value.verify(answer) && at < c.expiresAt && later <= c.expiresAt
    requires presented.None? || presented.value == c.token
    ensures var (b', result) := Answered(true, config.credential, b, c.decisionId, answer, presented, at, later);
            && result == Ok(Accepted)
            && b'.pending == Without(Unexpired(b.pending, at), c.decisionId) && Distinct(b'.pending)
            && (if c.action == Reauth then b'.session == Unchallenged
                else Consistent(b'.session) && Blocking(b'.session.posture))
  {
    RightAnswerSettles(config, b, c, answer, presented, at, later);
    var swept := Swept(true, b, at);
    SweepRules(true, b.(pending := Unexpired(b.pending, at)), Overdue(b.pending, at), at);
    AnsweredSession(config, b, c.decisionId, answer, presented, at, later);
    ResolvedSession(true, swept, c, Accepted, true, later);
    LadderIsEnforced(swept.session, c.decisionId, Accepted, later);
  }

  lemma FindOne(pending: seq<PendingChallenge>, item: PendingChallenge)
    requires Distinct(pending) && item in pending
    ensures Find(pending, item.decisionId) == Some(item)
  {
    FindMeans(pending, item.decisionId);
    var i :| 0 <= i < |pending| && pending[i] == item;
  }

  /** The exact condition: a blocked participant who asks for the way back and answers what
      is handed out correctly and in time is always told ACCEPTED, but the session is back to
      NORMAL if and only if the challenge handed out asks for a REAUTH. */
  lemma RecoveryRestoresAccess(config: Config, b: Backend, round: Round)
    requires Blocked(config, b) && AnsweredRightly(config, b, round)
    ensures var (b', result) := Tried(config, b, round);
            && result == Ok(Accepted)
            && (b'.session == Unchallenged <==>
                  Outstanding(b, round.asked) == [] || Newest(Outstanding(b, round.asked)).action == Reauth)
            && (b'.session != Unchallenged ==> Blocked(config, b'))
  {
    var c := HandedOut(config, b, round);
    HandedOutIsRegistered(config, b, round);
    RightAnswer(config, Asked(config, b, round), c, round.answer, round.presented, round.at, round.later);
  }

  /** A round of the registry is two events of the runtime, while a session has a segment
      to anchor the challenge to. */
  lemma RoundIsTwoEvents(config: Config, r: Runtime, segmentId: Option<string>, round: Round)
    requires config.credential.Some? && r.AnchorAt(segmentId) == Some(round.anchor)
    ensures var asking := Step(config, r, Recovers(segmentId, round.suffix, round.secret, round.asked));
            var c := HandedOut(config, r.backend, round);
            Step(config, asking, Answers(c.decisionId, round.answer, round.presented, round.at, round.later)).backend
            == Tried(config, r.backend, round).0
  {
  }

  // ---------------------------------------------------------------------
  // Round after round
  // ---------------------------------------------------------------------

  // A round of a session that is not blocked is refused.
  function AfterRounds(config: Config, b: Backend, rounds: seq<Round>): Backend
    requires config.credential.Some?
    decreases |rounds|
  {
    if rounds == [] then b
    else
      var before := AfterRounds(config, b, rounds[..|rounds| - 1]);
      if Blocking(before.session.posture) then Tried(config, before, rounds[|rounds| - 1]).0 else before
  }

  // Every round asked at `start` or later and answered rightly, as far as the session is still blocked.
  ghost predicate AllAnsweredRightly(config: Config, b: Backend, rounds: seq<Round>, start: int)
    requires config.credential.Some?
  {
    forall i :: 0 <= i < |rounds| ==>
      start <= rounds[i].asked
      && (Blocking(AfterRounds(config, b, rounds[..i]).session.posture) ==>
            AnsweredRightly(config, AfterRounds(config, b, rounds[..i]), rounds[i]))
  }

  lemma {:induction false} RemovalShrinks(pending: seq<PendingChallenge>, at: int, id: string, start: int)
    ensures var left, all := Enforcing(Unexpired(Without(Unexpired(pending, at), id), start)), Enforcing(Unexpired(pending, start));
            && |left| <= |all|
            && (forall c :: c in all && c.decisionId == id ==> |left| < |all|)
  {
    if pending != [] {
      RemovalShrinks(pending[1..], at, id, start);
      OneFewer(pending[0], pending[1..], at, id, start);
    }
  }

  // What the first entry adds to either side.
  lemma OneFewer(first: PendingChallenge, rest: seq<PendingChallenge>, at: int, id: string, start: int)
    ensures var more := if first.expiresAt > start && !IsScheduled(first.decisionId) then [first] else [];
            Enforcing(Unexpired([first] + rest, start)) == more + Enforcing(Unexpired(rest, start))
    ensures var more := if first.expiresAt > at && first.decisionId != id && first.expiresAt > start && !IsScheduled(first.decisionId)
                        then [first] else [];
            Enforcing(Unexpired(Without(Unexpired([first] + rest, at), id), start))
            == more + Enforcing(Unexpired(Without(Unexpired(rest, at), id), start))
  {
    UnexpiredCons(first, rest, start);
    EnforcingCons(first, Unexpired(rest, start));
    UnexpiredCons(first, rest, at);
    WithoutCons(first, Unexpired(rest, at), id);
    var kept := Without(Unexpired(rest, at), id);
    UnexpiredCons(first, kept, start);
    EnforcingCons(first, Unexpired(kept, start));
  }

  lemma UnexpiredCons(first: PendingChallenge, rest: seq<PendingChallenge>, now: int)
    ensures Unexpired([first] + rest, now) == (if first.expiresAt > now then [first] + Unexpired(rest, now) else Unexpired(rest, now))
  {
    assert ([first] + rest)[1..] == rest;
  }

  lemma EnforcingCons(first: PendingChallenge, rest: seq<PendingChallenge>)
    ensures Enforcing([first] + rest) == (if IsScheduled(first.decisionId) then Enforcing(rest) else [first] + Enforcing(rest))
  {
    assert ([first] + rest)[1..] == rest;
  }

  lemma WithoutCons(first: PendingChallenge, rest: seq<PendingChallenge>, id: string)
    ensures Without([first] + rest, id) == (if first.decisionId == id then Without(rest, id) else [first] + Without(rest, id))
  {
    assert ([first] + rest)[1..] == rest;
  }

  // A round either restores the session or uses up one outstanding challenge.
  lemma RoundMakesProgress(config: Config, b: Backend, round: Round, start: int)
    requires Blocked(config, b) && AnsweredRightly(config, b, round) && start <= round.asked
    ensures var b' := Tried(config, b, round).0;
            || b'.session == Unchallenged
            || (Blocked(config, b') && |Outstanding(b', start)| < |Outstanding(b, start)|)
  {
    RecoveryRestoresAccess(config, b, round);
    if Tried(config, b, round).0.session != Unchallenged {
      var c := HandedOut(config, b, round);
      HandedOutIsRegistered(config, b, round);
      RightAnswer(config, b, c, round.answer, round.presented, round.at, round.later);
      RemovalShrinks(b.pending, round.at, c.decisionId, start);
      EnforcingMeans(Unexpired(b.pending, start));
      OverdueMeans(b.pending, start);
      assert c in Outstanding(b, start);
    }
  }

  lemma {:induction false} RoundsMakeProgress(config: Config, b: Backend, rounds: seq<Round>, start: int)
    requires Blocked(config, b) && AllAnsweredRightly(config, b, rounds, start)
    ensures var b' := AfterRounds(config, b, rounds);
            || b'.session == Unchallenged
            || (Blocked(config, b') && |rounds| + |Outstanding(b', start)| <= |Outstanding(b, start)|)
    decreases |rounds|
  {
    if rounds != [] {
      var last := |rounds| - 1;
      assert forall i :: 0 <= i < last ==> rounds[..last][i] == rounds[i] && rounds[..last][..i] == rounds[..i];
      RoundsMakeProgress(config, b, rounds[..last], start);
      var before := AfterRounds(config, b, rounds[..last]);
      if before.session != Unchallenged {
        RoundMakesProgress(config, before, rounds[last], start);
      }
    }
  }

  /** Main result: from every reachable runtime whose session is blocked, one more round of
      asking and answering rightly than there are enforcing challenges outstanding brings it
      back to NORMAL with nothing remembered. */
  lemma AlwaysAWayBack(config: Config, shadow: bool, events: seq<RuntimeEvent>, rounds: seq<Round>, start: int)
    requires config.settings.Valid() && config.enabled && config.credential.Some? && ValidEvents(events)
    requires var b := Run(config, shadow, events).backend;
             && Blocking(b.session.posture) && AllAnsweredRightly(config, b, rounds, start)
             && |rounds| > |Outstanding(b, start)|
    ensures AfterRounds(config, Run(config, shadow, events).backend, rounds).session == Unchallenged
  {
    EveryRuntimeIsSound(config, shadow, events);
    RoundsMakeProgress(config, Run(config, shadow, events).backend, rounds, start);
  }
}
