/** Whole runs of the challenge registry: every challenge is resolved at most once. */
module ChallengeLedger {
  import opened Wrappers
  import opened RiskTypes
  import opened Postures
  import opened Challenges

  datatype Setup = Setup(timeout: nat, credential: Option<Credential>)

  datatype RegistryOp =
    | OpenOp(id: string, anchor: Anchor, action: DecisionAction, token: string)
    | ScheduleOp(anchor: Anchor, suffix: string, token: string)
    | RecoverOp(anchor: Anchor, suffix: string, token: string)
    | ExpireOp
    | RespondOp(id: string, answer: string, presented: Option<string>)
    | DiscardOp(id: string)

  /** An operation and the clock reading it happens at. */
  datatype Timed = Timed(op: RegistryOp, now: int)

  /** A challenge that an answer has settled, with what was answered and under which token. */
  datatype Response = Response(
    challenge: PendingChallenge, answer: string, presented: Option<string>, outcome: ResponseOutcome, at: int)

  /** The registry and everything that has left it. */
  datatype Ledger = Ledger(
    pending: seq<PendingChallenge>,
    issued: seq<string>,
    responded: seq<Response>,
    expired: seq<PendingChallenge>,
    discarded: seq<PendingChallenge>,
    now: int)

  function Start(now: int): Ledger {
    Ledger([], [], [], [], [], now)
  }

  // The challenge an operation adds to the registry, if it adds one.
  function Opens(setup: Setup, l: Ledger, t: Timed): Option<PendingChallenge> {
    if setup.credential.None? then None
    else
      match t.op
      case OpenOp(id, anchor, action, token) => Some(Dispatched(setup.timeout, setup.credential.value, id, anchor, action, t.now, token))
      case ScheduleOp(anchor, suffix, token) =>
        Some(Dispatched(setup.timeout, setup.credential.value, SCHEDULED_PREFIX + suffix, anchor, SoftChallenge, t.now, token))
      case RecoverOp(anchor, suffix, token) =>
        if Enforcing(Unexpired(l.pending, t.now)) != [] then None
        else Some(Dispatched(setup.timeout, setup.credential.value, RECOVERY_PREFIX + suffix, anchor, Reauth, t.now, token))
      case _ => None
  }

  function Step(setup: Setup, l: Ledger, t: Timed): Ledger {
    var l' := l.(now := t.now);
    var opening := Opens(setup, l, t);
    if opening.Some? then
      l'.(pending := Put(l.pending, opening.value), issued := l.issued + [opening.value.decisionId])
    else
      match t.op
      case ExpireOp =>
        l'.(pending := Unexpired(l.pending, t.now), expired := l.expired + Overdue(l.pending, t.now))
      case RespondOp(id, answer, presented) =>
        var (pending, result) := Responded(setup.credential, l.pending, id, answer, presented, t.now);
        if result.Err? then l'
        else l'.(pending := pending,
                 responded := l.responded + [Response(result.value.challenge, answer, presented, result.value.outcome, t.now)])
      case DiscardOp(id) =>
        var found := Find(l.pending, id);
        if found.None? then l'
        else l'.(pending := Without(l.pending, id), discarded := l.discarded + [found.value])
      case _ => l'
  }

  function Run(setup: Setup, start: int, ops: seq<Timed>): Ledger {
    if ops == [] then Start(start) else Step(setup, Run(setup, start, ops[..|ops| - 1]), ops[|ops| - 1])
  }

  // Identifiers are never reused, engine decisions carry no reserved prefix, time never falls.
  ghost predicate Admissible(setup: Setup, l: Ledger, t: Timed) {
    && l.now <= t.now
    && (t.op.OpenOp? ==> IsEngineDecision(t.op.id))
    && (Opens(setup, l, t).Some? ==> Opens(setup, l, t).value.decisionId !in l.issued)
  }

  ghost predicate AdmissibleRun(setup: Setup, start: int, ops: seq<Timed>) {
    forall i :: 0 <= i < |ops| ==> Admissible(setup, Run(setup, start, ops[..i]), ops[i])
  }

  // ---------------------------------------------------------------------
  // Counting identifiers
  // ---------------------------------------------------------------------

  function Bag(ids: seq<string>): multiset<string> {
    multiset(ids)
  }

  function IdsOfResponses(responses: seq<Response>): seq<string> {
    seq(|responses|, i requires 0 <= i < |responses| => responses[i].challenge.decisionId)
  }

  /** Counted with multiplicity, the identifiers opened are those still pending and those
      that left by a response, by expiry or by being discarded. */
  ghost predicate Conserved(l: Ledger) {
    Bag(l.issued) == Bag(Ids(l.pending)) + Bag(IdsOfResponses(l.responded)) + Bag(Ids(l.expired)) + Bag(Ids(l.discarded))
  }

  // Together with conservation: no identifier is in two places, or twice in one.
  ghost predicate OpenedOnce(l: Ledger) {
    forall id :: Bag(l.issued)[id] <= 1
  }

  predicate LiveRecovery(p: PendingChallenge, now: int) {
    IsRecovery(p.decisionId) && p.expiresAt > now
  }

  /** No two recovery challenges are outstanding at the same time. */
  ghost predicate OneRecovery(l: Ledger) {
    forall p, q :: p in l.pending && q in l.pending && LiveRecovery(p, l.now) && LiveRecovery(q, l.now) ==> p == q
  }

  ghost predicate OnTime(l: Ledger) {
    forall i :: 0 <= i < |l.responded| ==>
      (l.responded[i].outcome == Accepted ==> l.responded[i].at <= l.responded[i].challenge.expiresAt)
  }

  ghost predicate Invariant(l: Ledger) {
    Orderly(l) && Conserved(l) && OpenedOnce(l) && OnTime(l)
  }

  ghost predicate Orderly(l: Ledger) {
    Distinct(l.pending) && OneRecovery(l)
  }

  lemma {:induction false} BagWithout(pending: seq<PendingChallenge>, id: string)
    requires Distinct(pending)
    ensures Holds(pending, id) ==> Bag(Ids(pending)) == Bag(Ids(Without(pending, id))) + multiset{id}
    ensures Holds(pending, id) <==> id in Bag(Ids(pending))
  {
    if pending != [] {
      BagWithout(pending[1..], id);
      BagHead(pending);
      var rest := Without(pending[1..], id);
      if pending[0].decisionId == id {
        FindMeans(pending[1..], id);
        NothingToRemove(pending[1..], id);
        assert Without(pending, id) == pending[1..] by { assert [] + rest == rest; }
      } else {
        assert Without(pending, id) == [pending[0]] + rest;
        BagCons(pending[0], rest);
      }
    }
  }

  lemma {:induction false} NothingToRemove(pending: seq<PendingChallenge>, id: string)
    requires forall i :: 0 <= i < |pending| ==> pending[i].decisionId != id
    ensures Without(pending, id) == pending
  {
    if pending != [] {
      NothingToRemove(pending[1..], id);
    }
  }

  lemma BagHead(pending: seq<PendingChallenge>)
    requires pending != []
    ensures Bag(Ids(pending)) == multiset{pending[0].decisionId} + Bag(Ids(pending[1..]))
  {
    assert Ids(pending) == [pending[0].decisionId] + Ids(pending[1..]);
  }

  lemma BagCons(item: PendingChallenge, rest: seq<PendingChallenge>)
    ensures Bag(Ids([item] + rest)) == multiset{item.decisionId} + Bag(Ids(rest))
  {
    BagHead([item] + rest);
    assert ([item] + rest)[1..] == rest;
  }

  lemma BagAppend(pending: seq<PendingChallenge>, more: seq<PendingChallenge>)
    ensures Bag(Ids(pending + more)) == Bag(Ids(pending)) + Bag(Ids(more))
  {
    assert Ids(pending + more) == Ids(pending) + Ids(more);
  }

  lemma BagOfOne(item: PendingChallenge)
    ensures Bag(Ids([item])) == multiset{item.decisionId}
  {
    assert Ids([item]) == [item.decisionId];
  }

  lemma BagOfResponses(responded: seq<Response>, response: Response)
    ensures Bag(IdsOfResponses(responded + [response]))
            == Bag(IdsOfResponses(responded)) + multiset{response.challenge.decisionId}
  {
    assert IdsOfResponses(responded + [response]) == IdsOfResponses(responded) + [response.challenge.decisionId];
  }

  lemma {:induction false} BagSplits(pending: seq<PendingChallenge>, now: int)
    ensures Bag(Ids(pending)) == Bag(Ids(Overdue(pending, now))) + Bag(Ids(Unexpired(pending, now)))
  {
    if pending != [] {
      BagSplits(pending[1..], now);
      BagHead(pending);
      var overdue, unexpired := Overdue(pending[1..], now), Unexpired(pending[1..], now);
      if pending[0].expiresAt <= now {
        BagCons(pending[0], overdue);
        assert [] + unexpired == unexpired;
      } else {
        BagCons(pending[0], unexpired);
        assert [] + overdue == overdue;
      }
    }
  }

  // ---------------------------------------------------------------------
  // One operation
  // ---------------------------------------------------------------------

  lemma OpeningKeepsInvariant(setup: Setup, l: Ledger, t: Timed)
    requires Invariant(l) && Admissible(setup, l, t) && Opens(setup, l, t).Some?
    ensures Invariant(Step(setup, l, t))
  {
    PutKeepsDistinct(l.pending, Opens(setup, l, t).value);
    OpeningIsConserved(setup, l, t);
    OpeningKeepsOneRecovery(setup, l, t);
  }

  lemma OpeningIsConserved(setup: Setup, l: Ledger, t: Timed)
    requires Invariant(l) && Admissible(setup, l, t) && Opens(setup, l, t).Some?
    ensures Conserved(Step(setup, l, t)) && OpenedOnce(Step(setup, l, t))
  {
    var item := Opens(setup, l, t).value;
    var id := item.decisionId;
    assert id !in Bag(l.issued);
    BagWithout(l.pending, id);
    PutMeans(l.pending, item);
    BagAppend(l.pending, [item]);
    BagOfOne(item);
    assert Bag(l.issued + [id]) == Bag(l.issued) + multiset{id};
  }

  lemma OpeningKeepsOneRecovery(setup: Setup, l: Ledger, t: Timed)
    requires Distinct(l.pending) && OneRecovery(l) && Admissible(setup, l, t) && Opens(setup, l, t).Some?
    ensures OneRecovery(Step(setup, l, t))
  {
    var item := Opens(setup, l, t).value;
    PutMeans(l.pending, item);
    PrefixesAreApart(item.decisionId);
    if t.op.RecoverOp? {
      OverdueMeans(l.pending, t.now);
      EnforcingMeans(Unexpired(l.pending, t.now));
      forall p | p in l.pending && IsRecovery(p.decisionId) ensures p.expiresAt <= t.now {
        PrefixesAreApart(p.decisionId);
        assert p !in Enforcing(Unexpired(l.pending, t.now));
      }
    }
  }

  // The two reserved prefixes start with different letters.
  lemma PrefixesAreApart(id: string)
    ensures !(IsScheduled(id) && IsRecovery(id))
  {
    assert SCHEDULED_PREFIX[0] != RECOVERY_PREFIX[0];
  }

  // Fewer pending challenges at a later time stay orderly.
  lemma FewerStayOrderly(before: Ledger, after: Ledger)
    requires Orderly(before) && before.now <= after.now && Distinct(after.pending)
    requires forall p :: p in after.pending ==> p in before.pending
    ensures Orderly(after)
  {
  }

  lemma ExpiryIsOrderly(l: Ledger, now: int)
    requires Orderly(l) && l.now <= now
    ensures Orderly(l.(pending := Unexpired(l.pending, now), now := now))
  {
    RemovingOverdueLeavesUnexpired(l.pending, now);
    WithoutAllKeepsDistinct(l.pending, Overdue(l.pending, now));
    OverdueMeans(l.pending, now);
    FewerStayOrderly(l, l.(pending := Unexpired(l.pending, now), now := now));
  }

  lemma RemovalIsOrderly(l: Ledger, id: string, now: int)
    requires Orderly(l) && l.now <= now
    ensures Orderly(l.(pending := Without(l.pending, id), now := now))
  {
    WithoutMeans(l.pending, id);
    WithoutKeepsDistinct(l.pending, id);
    FewerStayOrderly(l, l.(pending := Without(l.pending, id), now := now));
  }

  // Orderliness looks at the pending challenges and the clock only.
  lemma OrderlyDepends(a: Ledger, b: Ledger)
    requires Orderly(a) && a.pending == b.pending && a.now <= b.now
    ensures Orderly(b)
  {
  }

  lemma ExpiryKeepsInvariant(setup: Setup, l: Ledger, t: Timed)
    requires Invariant(l) && l.now <= t.now && t.op == ExpireOp
    ensures Invariant(Step(setup, l, t))
  {
    ExpiryIsOrderly(l, t.now);
    OrderlyDepends(l.(pending := Unexpired(l.pending, t.now), now := t.now), Step(setup, l, t));
    ExpiryConserves(setup, l, t);
  }

  lemma ExpiryConserves(setup: Setup, l: Ledger, t: Timed)
    requires Conserved(l) && t.op == ExpireOp
    ensures Conserved(Step(setup, l, t))
  {
    BagSplits(l.pending, t.now);
    BagAppend(l.expired, Overdue(l.pending, t.now));
  }

  lemma ResponseKeepsInvariant(setup: Setup, l: Ledger, t: Timed)
    requires Invariant(l) && l.now <= t.now && t.op.RespondOp?
    ensures Invariant(Step(setup, l, t))
  {
    var id := t.op.id;
    var result := Responded(setup.credential, l.pending, id, t.op.answer, t.op.presented, t.now).1;
    if result.Ok? {
      RemovalIsOrderly(l, id, t.now);
      OrderlyDepends(l.(pending := Without(l.pending, id), now := t.now), Step(setup, l, t));
      FindMeans(l.pending, id);
      BagWithout(l.pending, id);
      BagOfResponses(l.responded, Response(result.value.challenge, t.op.answer, t.op.presented, result.value.outcome, t.now));
    } else {
      OrderlyDepends(l, Step(setup, l, t));
    }
  }

  lemma DiscardKeepsInvariant(setup: Setup, l: Ledger, t: Timed)
    requires Invariant(l) && l.now <= t.now && t.op.DiscardOp?
    ensures Invariant(Step(setup, l, t))
  {
    var id := t.op.id;
    var found := Find(l.pending, id);
    if found.Some? {
      RemovalIsOrderly(l, id, t.now);
      OrderlyDepends(l.(pending := Without(l.pending, id), now := t.now), Step(setup, l, t));
      FindMeans(l.pending, id);
      BagWithout(l.pending, id);
      BagAppend(l.discarded, [found.value]);
      BagOfOne(found.value);
    } else {
      OrderlyDepends(l, Step(setup, l, t));
    }
  }

  lemma StepKeepsInvariant(setup: Setup, l: Ledger, t: Timed)
    requires Invariant(l) && Admissible(setup, l, t)
    ensures Invariant(Step(setup, l, t))
  {
    if Opens(setup, l, t).Some? {
      OpeningKeepsInvariant(setup, l, t);
    } else if t.op == ExpireOp {
      ExpiryKeepsInvariant(setup, l, t);
    } else if t.op.RespondOp? {
      ResponseKeepsInvariant(setup, l, t);
    } else if t.op.DiscardOp? {
      DiscardKeepsInvariant(setup, l, t);
    }
  }

  /** Main result: over any run with fresh identifiers and a monotone clock every challenge
      opened is pending, responded, expired or discarded, and exactly one of these; at most
      one unexpired recovery challenge exists; and no answer is accepted after its deadline. */
  lemma {:induction false} EveryChallengeIsResolvedOnce(setup: Setup, start: int, ops: seq<Timed>)
    requires AdmissibleRun(setup, start, ops)
    ensures Invariant(Run(setup, start, ops))
    decreases |ops|
  {
    if ops == [] {
      assert Ids([]) == [] && IdsOfResponses([]) == [] && Bag([]) == multiset{};
    } else {
      var before := ops[..|ops| - 1];
      forall i | 0 <= i < |before| ensures Admissible(setup, Run(setup, start, before[..i]), before[i]) {
        assert before[..i] == ops[..i] && Admissible(setup, Run(setup, start, ops[..i]), ops[i]);
      }
      EveryChallengeIsResolvedOnce(setup, start, before);
      assert ops[..|ops| - 1] == before;
      StepKeepsInvariant(setup, Run(setup, start, before), ops[|ops| - 1]);
    }
  }

  /** In numbers: opened = pending + responded + expired + discarded. */
  lemma NumbersBalance(l: Ledger)
    requires Conserved(l)
    ensures |l.issued| == |l.pending| + |l.responded| + |l.expired| + |l.discarded|
  {
    assert |Bag(l.issued)| == |l.issued|;
    assert |Bag(Ids(l.pending))| == |l.pending| && |Bag(IdsOfResponses(l.responded))| == |l.responded|;
    assert |Bag(Ids(l.expired))| == |l.expired| && |Bag(Ids(l.discarded))| == |l.discarded|;
  }

  /** And no challenge is resolved twice, or both resolved and pending. */
  lemma ResolvedAtMostOnce(l: Ledger, id: string)
    requires Conserved(l) && OpenedOnce(l)
    ensures Bag(IdsOfResponses(l.responded))[id] + Bag(Ids(l.expired))[id] + Bag(Ids(l.discarded))[id] <= 1
    ensures id in Bag(Ids(l.pending)) ==>
              id !in Bag(IdsOfResponses(l.responded)) && id !in Bag(Ids(l.expired)) && id !in Bag(Ids(l.discarded))
  {
    assert Bag(l.issued)[id] <= 1;
  }
}
