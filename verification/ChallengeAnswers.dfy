/** Who may answer a challenge, and what an answer is worth. */
module ChallengeAnswers {
  import opened Wrappers
  import opened RiskTypes
  import opened Postures
  import opened Challenges
  import opened ChallengeLedger

  /** The answer comes under the challenge's own token, or under none. */
  predicate Admitted(c: PendingChallenge, presented: Option<string>) {
    presented.None? || presented.value == c.token
  }

  // The challenge an answer is for.
  ghost predicate IsMeant(pending: seq<PendingChallenge>, id: string, presented: Option<string>, c: PendingChallenge) {
    c in pending && c.decisionId == id && Admitted(c, presented)
  }

  // What the answer is worth: nothing after the deadline, and otherwise what the credential says.
  ghost predicate IsWorth(credential: Credential, c: PendingChallenge, answer: string, at: int, outcome: ResponseOutcome) {
    && (outcome == Expired <==> at > c.expiresAt)
    && (outcome == Rejected <==> at <= c.expiresAt && !credential.verify(answer))
    && (outcome == Accepted <==> at <= c.expiresAt && credential.verify(answer))
  }

  lemma FoundById(pending: seq<PendingChallenge>, c: PendingChallenge)
    requires Distinct(pending) && c in pending
    ensures Find(pending, c.decisionId) == Some(c)
  {
    FindMeans(pending, c.decisionId);
    var i :| 0 <= i < |pending| && pending[i] == c;
    var d := Find(pending, c.decisionId).value;
    var j :| 0 <= j < |pending| && pending[j] == d;
  }

  /** An answer settles the outstanding challenge of its id that admits its token, which then
      leaves the registry alone; any other answer is to an unknown challenge and changes
      nothing. */
  lemma RespondIsExact(credential: Option<Credential>, pending: seq<PendingChallenge>, id: string, answer: string,
                       presented: Option<string>, now: int)
    requires Distinct(pending)
    ensures var (pending', result) := Responded(credential, pending, id, answer, presented, now);
            && (result == Err(NotConfigured) <==> credential.None?)
            && (result == Err(UnknownChallenge) <==> credential.Some? && forall c :: !IsMeant(pending, id, presented, c))
            && (result.Err? ==> pending' == pending)
            && (result.Ok? ==>
                  && IsMeant(pending, id, presented, result.value.challenge)
                  && IsWorth(credential.value, result.value.challenge, answer, now, result.value.outcome)
                  && (result.value.evidence <==> result.value.outcome == Accepted)
                  && forall p :: p in pending' <==> p in pending && p != result.value.challenge)
  {
    FindMeans(pending, id);
    forall c | c in pending && c.decisionId == id ensures Find(pending, id) == Some(c) {
      FoundById(pending, c);
    }
    WithoutMeans(pending, id);
    var candidate := Find(pending, id);
    if candidate.None? || !Admitted(candidate.value, presented) {
      forall c ensures !IsMeant(pending, id, presented, c) {
        if c in pending && c.decisionId == id {
          assert candidate == Some(c);
        }
      }
    } else {
      assert IsMeant(pending, id, presented, candidate.value);
      forall p | p in pending ensures p.decisionId == id <==> p == candidate.value {
      }
    }
  }

  // ---------------------------------------------------------------------
  // Over whole runs of the registry
  // ---------------------------------------------------------------------

  // Where and when a challenge was opened, and as what.
  ghost predicate OpenedAs(setup: Setup, t: Timed, c: PendingChallenge) {
    && setup.credential.Some? && c.question == setup.credential.value.question
    && c.openedAt == t.now && c.expiresAt == t.now + setup.timeout
    && match t.op
       case OpenOp(id, anchor, action, token) =>
         c.decisionId == id && c.action == action && c.token == token && AnchoredAt(c, anchor)
       case ScheduleOp(anchor, suffix, token) =>
         c.decisionId == "scheduled-anchor:" + suffix && c.action == SoftChallenge && c.token == token && AnchoredAt(c, anchor)
       case RecoverOp(anchor, suffix, token) =>
         c.decisionId == "recovery:" + suffix && c.action == Reauth && c.token == token && AnchoredAt(c, anchor)
       case _ => false
  }

  predicate AnchoredAt(c: PendingChallenge, anchor: Anchor) {
    c.userId == anchor.userId && c.sessionId == anchor.sessionId && c.segmentId == anchor.segmentId
  }

  ghost predicate WasOpened(setup: Setup, ops: seq<Timed>, c: PendingChallenge) {
    exists i :: 0 <= i < |ops| && OpenedAs(setup, ops[i], c)
  }

  ghost predicate AllOpened(setup: Setup, ops: seq<Timed>, items: seq<PendingChallenge>) {
    forall c :: c in items ==> WasOpened(setup, ops, c)
  }

  // The answer that settled a challenge was given by an operation, and was worth its outcome.
  ghost predicate WasAnswered(setup: Setup, ops: seq<Timed>, r: Response) {
    && setup.credential.Some?
    && Admitted(r.challenge, r.presented)
    && IsWorth(setup.credential.value, r.challenge, r.answer, r.at, r.outcome)
    && WasOpened(setup, ops, r.challenge)
    && exists i :: 0 <= i < |ops| && ops[i] == Timed(RespondOp(r.challenge.decisionId, r.answer, r.presented), r.at)
  }

  ghost predicate Accountable(setup: Setup, ops: seq<Timed>, l: Ledger) {
    && AllOpened(setup, ops, l.pending) && AllOpened(setup, ops, l.expired) && AllOpened(setup, ops, l.discarded)
    && (forall i :: 0 <= i < |l.responded| ==> WasAnswered(setup, ops, l.responded[i]))
    && (forall c :: c in l.expired ==> c.expiresAt <= l.now)
  }

  lemma OpenedStays(setup: Setup, ops: seq<Timed>, t: Timed, items: seq<PendingChallenge>)
    requires AllOpened(setup, ops, items)
    ensures AllOpened(setup, ops + [t], items)
  {
    forall c | c in items ensures WasOpened(setup, ops + [t], c) {
      var i :| 0 <= i < |ops| && OpenedAs(setup, ops[i], c);
      assert (ops + [t])[i] == ops[i];
    }
  }

  lemma AnsweredStays(setup: Setup, ops: seq<Timed>, t: Timed, r: Response)
    requires WasAnswered(setup, ops, r)
    ensures WasAnswered(setup, ops + [t], r)
  {
    var i :| 0 <= i < |ops| && OpenedAs(setup, ops[i], r.challenge);
    var j :| 0 <= j < |ops| && ops[j] == Timed(RespondOp(r.challenge.decisionId, r.answer, r.presented), r.at);
    assert (ops + [t])[i] == ops[i] && (ops + [t])[j] == ops[j];
  }

  lemma LedgerStays(setup: Setup, ops: seq<Timed>, t: Timed, l: Ledger)
    requires Accountable(setup, ops, l) && l.now <= t.now
    ensures Accountable(setup, ops + [t], l.(now := t.now))
  {
    OpenedStays(setup, ops, t, l.pending);
    OpenedStays(setup, ops, t, l.expired);
    OpenedStays(setup, ops, t, l.discarded);
    forall i | 0 <= i < |l.responded| ensures WasAnswered(setup, ops + [t], l.responded[i]) {
      AnsweredStays(setup, ops, t, l.responded[i]);
    }
  }

  lemma OpeningIsAccountable(setup: Setup, ops: seq<Timed>, l: Ledger, t: Timed)
    requires Accountable(setup, ops, l) && Distinct(l.pending) && l.now <= t.now && Opens(setup, l, t).Some?
    ensures Accountable(setup, ops + [t], Step(setup, l, t))
  {
    var item := Opens(setup, l, t).value;
    LedgerStays(setup, ops, t, l);
    PutMeans(l.pending, item);
    assert (ops + [t])[|ops|] == t && OpenedAs(setup, t, item);
    assert WasOpened(setup, ops + [t], item);
  }

  lemma ResponseIsAccountable(setup: Setup, ops: seq<Timed>, l: Ledger, t: Timed)
    requires Accountable(setup, ops, l) && Distinct(l.pending) && l.now <= t.now && t.op.RespondOp?
    ensures Accountable(setup, ops + [t], Step(setup, l, t))
  {
    LedgerStays(setup, ops, t, l);
    var (id, answer, presented) := (t.op.id, t.op.answer, t.op.presented);
    RespondIsExact(setup.credential, l.pending, id, answer, presented, t.now);
    var (pending, result) := Responded(setup.credential, l.pending, id, answer, presented, t.now);
    if result.Ok? {
      var response := Response(result.value.challenge, answer, presented, result.value.outcome, t.now);
      assert (ops + [t])[|ops|] == t;
      assert WasAnswered(setup, ops + [t], response);
      var l' := Step(setup, l, t);
      assert l'.responded == l.responded + [response];
      forall i | 0 <= i < |l'.responded| ensures WasAnswered(setup, ops + [t], l'.responded[i]) {
        if i < |l.responded| {
          assert l'.responded[i] == l.responded[i];
        }
      }
    }
  }

  lemma RemovalIsAccountable(setup: Setup, ops: seq<Timed>, l: Ledger, t: Timed)
    requires Accountable(setup, ops, l) && l.now <= t.now && (t.op.ExpireOp? || t.op.DiscardOp?)
    ensures Accountable(setup, ops + [t], Step(setup, l, t))
  {
    LedgerStays(setup, ops, t, l);
    if t.op.ExpireOp? {
      OverdueMeans(l.pending, t.now);
    } else {
      WithoutMeans(l.pending, t.op.id);
      FindMeans(l.pending, t.op.id);
    }
  }

  lemma StepIsAccountable(setup: Setup, ops: seq<Timed>, l: Ledger, t: Timed)
    requires Accountable(setup, ops, l) && Distinct(l.pending) && l.now <= t.now
    ensures Accountable(setup, ops + [t], Step(setup, l, t))
  {
    if Opens(setup, l, t).Some? {
      OpeningIsAccountable(setup, ops, l, t);
    } else if t.op.RespondOp? {
      ResponseIsAccountable(setup, ops, l, t);
    } else if t.op.ExpireOp? || t.op.DiscardOp? {
      RemovalIsAccountable(setup, ops, l, t);
    } else {
      LedgerStays(setup, ops, t, l);
    }
  }

  lemma LastIsAccountable(setup: Setup, start: int, before: seq<Timed>, last: Timed)
    requires Accountable(setup, before, Run(setup, start, before)) && Invariant(Run(setup, start, before))
    requires Admissible(setup, Run(setup, start, before), last)
    ensures Accountable(setup, before + [last], Run(setup, start, before + [last]))
  {
    StepIsAccountable(setup, before, Run(setup, start, before), last);
    assert (before + [last])[..|before|] == before;
  }

  /** Main result: over any run with fresh identifiers and a monotone clock every challenge
      was opened by one of the operations, as that operation asked and for the whole timeout;
      every challenge settled by an answer was presented with its own token or with none, and
      its outcome is what the answer was worth at that time. */
  lemma {:induction false} EveryAnswerIsAccountable(setup: Setup, start: int, ops: seq<Timed>)
    requires AdmissibleRun(setup, start, ops)
    ensures Accountable(setup, ops, Run(setup, start, ops))
    decreases |ops|
  {
    if ops != [] {
      var before, last := ops[..|ops| - 1], ops[|ops| - 1];
      forall i | 0 <= i < |before| ensures Admissible(setup, Run(setup, start, before[..i]), before[i]) {
        assert before[..i] == ops[..i] && Admissible(setup, Run(setup, start, ops[..i]), ops[i]);
      }
      assert Admissible(setup, Run(setup, start, before), last);
      EveryAnswerIsAccountable(setup, start, before);
      EveryChallengeIsResolvedOnce(setup, start, before);
      LastIsAccountable(setup, start, before, last);
      assert ops == before + [last];
    }
  }

  /** In every such run an answer under another token, or to an id that is not outstanding,
      changes nothing but the time. */
  lemma ForeignAnswersChangeNothing(setup: Setup, start: int, ops: seq<Timed>, id: string, answer: string,
                                    presented: Option<string>, now: int)
    requires AdmissibleRun(setup, start, ops)
    requires forall c :: !IsMeant(Run(setup, start, ops).pending, id, presented, c)
    ensures var l := Run(setup, start, ops);
            Step(setup, l, Timed(RespondOp(id, answer, presented), now)) == l.(now := now)
  {
    EveryChallengeIsResolvedOnce(setup, start, ops);
    RespondIsExact(setup.credential, Run(setup, start, ops).pending, id, answer, presented, now);
  }
}
