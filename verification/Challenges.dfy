/** The in-memory registry of pending challenges, from dispatch to resolution. */
module Challenges {
  import opened Wrappers
  import opened RiskTypes
  import opened Postures

  const SCHEDULED_PREFIX := "scheduled-anchor:"
  const RECOVERY_PREFIX := "recovery:"

  predicate IsScheduled(id: string) {
    SCHEDULED_PREFIX <= id
  }

  predicate IsRecovery(id: string) {
    RECOVERY_PREFIX <= id
  }

  predicate IsEngineDecision(id: string) {
    !(IsScheduled(id) || IsRecovery(id))
  }

  datatype Credential = Credential(question: string, verify: string -> bool)

  datatype PendingChallenge = PendingChallenge(
    decisionId: string,
    userId: string,
    sessionId: string,
    segmentId: string,
    action: DecisionAction,
    question: string,
    openedAt: int,
    expiresAt: int,
    token: string)

  datatype ResponseResult = ResponseResult(outcome: ResponseOutcome, challenge: PendingChallenge, evidence: bool)

  datatype ChallengeError = NotConfigured | UnknownChallenge

  /** Where a challenge is anchored: the user, session and segment it is opened for. */
  datatype Anchor = Anchor(userId: string, sessionId: string, segmentId: string)

  // ---------------------------------------------------------------------
  // The registry as an insertion-ordered dictionary
  // ---------------------------------------------------------------------

  function Ids(pending: seq<PendingChallenge>): seq<string> {
    seq(|pending|, i requires 0 <= i < |pending| => pending[i].decisionId)
  }

  ghost predicate Distinct(pending: seq<PendingChallenge>) {
    forall i, j :: 0 <= i < j < |pending| ==> pending[i].decisionId != pending[j].decisionId
  }

  function Find(pending: seq<PendingChallenge>, id: string): Option<PendingChallenge> {
    if pending == [] then None
    else if pending[0].decisionId == id then Some(pending[0])
    else Find(pending[1..], id)
  }

  // Assignment under an existing key keeps its place, under a new one appends.
  function Put(pending: seq<PendingChallenge>, item: PendingChallenge): seq<PendingChallenge> {
    if pending == [] then [item]
    else if pending[0].decisionId == item.decisionId then [item] + pending[1..]
    else [pending[0]] + Put(pending[1..], item)
  }

  function Without(pending: seq<PendingChallenge>, id: string): seq<PendingChallenge> {
    if pending == [] then []
    else (if pending[0].decisionId == id then [] else [pending[0]]) + Without(pending[1..], id)
  }

  function Overdue(pending: seq<PendingChallenge>, now: int): seq<PendingChallenge> {
    if pending == [] then []
    else (if pending[0].expiresAt <= now then [pending[0]] else []) + Overdue(pending[1..], now)
  }

  function Unexpired(pending: seq<PendingChallenge>, now: int): seq<PendingChallenge> {
    if pending == [] then []
    else (if pending[0].expiresAt > now then [pending[0]] else []) + Unexpired(pending[1..], now)
  }

  function Enforcing(pending: seq<PendingChallenge>): seq<PendingChallenge> {
    if pending == [] then []
    else (if !IsScheduled(pending[0].decisionId) then [pending[0]] else []) + Enforcing(pending[1..])
  }

  // The first element that no other exceeds, as `max` picks it.
  ghost predicate IsFirstMax(items: seq<PendingChallenge>, item: PendingChallenge,
                             less: (PendingChallenge, PendingChallenge) -> bool) {
    exists i :: 0 <= i < |items| && items[i] == item
      && (forall j :: 0 <= j < i ==> less(items[j], item))
      && (forall j :: i <= j < |items| ==> !less(item, items[j]))
  }

  function OpenedBefore(): (PendingChallenge, PendingChallenge) -> bool {
    (a: PendingChallenge, b: PendingChallenge) => a.openedAt < b.openedAt
  }

  function RankedBefore(): (PendingChallenge, PendingChallenge) -> bool {
    (a: PendingChallenge, b: PendingChallenge) =>
      if IsScheduled(a.decisionId) != IsScheduled(b.decisionId) then IsScheduled(a.decisionId)
      else a.openedAt < b.openedAt
  }

  method FirstMax(items: seq<PendingChallenge>, less: (PendingChallenge, PendingChallenge) -> bool)
    returns (item: PendingChallenge)
    requires items != []
    requires forall a, b, c :: (less(a, b) && !less(c, b) ==> less(a, c))
    requires forall a, b :: less(a, b) ==> !less(b, a)
    ensures IsFirstMax(items, item, less)
  {
    var best := 0;
    for i := 1 to |items|
      invariant 0 <= best < i
      invariant forall j :: 0 <= j < best ==> less(items[j], items[best])
      invariant forall j :: best <= j < i ==> !less(items[best], items[j])
    {
      if less(items[best], items[i]) {
        forall j | 0 <= j < i ensures less(items[j], items[i]) {
          if j < best {
            assert less(items[j], items[best]) && !less(items[i], items[best]);
          } else {
            assert !less(items[best], items[j]);
            LessThroughEqual(items[best], items[j], items[i], less);
          }
        }
        best := i;
      }
    }
    item := items[best];
  }

  lemma LessThroughEqual(a: PendingChallenge, b: PendingChallenge, c: PendingChallenge,
                         less: (PendingChallenge, PendingChallenge) -> bool)
    requires forall x, y, z :: (less(x, y) && !less(z, y) ==> less(x, z))
    requires less(a, c) && !less(a, b)
    ensures less(b, c)
  {
  }

  /** The challenge dispatched at `now`. */
  function Dispatched(timeout: nat, credential: Credential, id: string, anchor: Anchor, action: DecisionAction,
                      now: int, token: string): PendingChallenge
  {
    PendingChallenge(id, anchor.userId, anchor.sessionId, anchor.segmentId, action, credential.question,
                     now, now + timeout, token)
  }

  class ChallengeService {
    const timeout: nat
    const credential: Option<Credential>
    var pending: seq<PendingChallenge>

    ghost predicate Valid()
      reads this
    {
      0 < timeout && Distinct(pending)
    }

    constructor (timeout: nat, credential: Option<Credential>)
      requires 0 < timeout
      ensures Valid() && this.timeout == timeout && this.credential == credential && pending == []
    {
      this.timeout := timeout;
      this.credential := credential;
      pending := [];
    }

    method Open(id: string, anchor: Anchor, action: DecisionAction, now: int, token: string)
      returns (result: Result<PendingChallenge, ChallengeError>)
      requires Valid()
      modifies this`pending
      ensures Valid()
      ensures result == if credential.None? then Err(NotConfigured) else Ok(Dispatched(timeout, credential.value, id, anchor, action, now, token))
      ensures pending == if result.Err? then old(pending) else Put(old(pending), result.value)
    {
      if credential.None? {
        return Err(NotConfigured);
      }
      var item := Dispatched(timeout, credential.value, id, anchor, action, now, token);
      PutKeepsDistinct(pending, item);
      pending := Put(pending, item);
      return Ok(item);
    }

    method OpenScheduled(anchor: Anchor, now: int, suffix: string, token: string)
      returns (result: Result<PendingChallenge, ChallengeError>)
      requires Valid()
      modifies this`pending
      ensures Valid()
      ensures result.Err? <==> credential.None?
      ensures result.Ok? ==>
                && result.value == Dispatched(timeout, credential.value, SCHEDULED_PREFIX + suffix, anchor, SoftChallenge, now, token)
                && IsScheduled(result.value.decisionId)
      ensures pending == if result.Err? then old(pending) else Put(old(pending), result.value)
    {
      result := Open(SCHEDULED_PREFIX + suffix, anchor, SoftChallenge, now, token);
    }

    /** Opens the recovery challenge, or returns the newest enforcement challenge outstanding. */
    method OpenReauthentication(anchor: Anchor, now: int, suffix: string, token: string)
      returns (result: Result<PendingChallenge, ChallengeError>)
      requires Valid()
      modifies this`pending
      ensures Valid()
      ensures result.Err? <==> credential.None?
      ensures var existing := Enforcing(Unexpired(old(pending), now));
              result.Ok? && existing != [] ==>
                pending == old(pending) && IsFirstMax(existing, result.value, OpenedBefore())
      ensures result.Ok? && Enforcing(Unexpired(old(pending), now)) == [] ==>
                && result.value == Dispatched(timeout, credential.value, RECOVERY_PREFIX + suffix, anchor, Reauth, now, token)
                && pending == Put(old(pending), result.value)
      ensures result.Err? ==> pending == old(pending)
    {
      if credential.None? {
        return Err(NotConfigured);
      }
      var existing := Enforcing(Unexpired(pending, now));
      if existing != [] {
        var newest := FirstMax(existing, OpenedBefore());
        return Ok(newest);
      }
      var item := Dispatched(timeout, credential.value, RECOVERY_PREFIX + suffix, anchor, Reauth, now, token);
      PutKeepsDistinct(pending, item);
      pending := Put(pending, item);
      return Ok(item);
    }

    method ExpireOverdue(now: int) returns (overdue: seq<PendingChallenge>)
      requires Valid()
      modifies this`pending
      ensures Valid()
      ensures overdue == Overdue(old(pending), now)
      ensures pending == Unexpired(old(pending), now)
    {
      overdue := Overdue(pending, now);
      for i := 0 to |overdue|
        invariant Valid()
        invariant pending == WithoutAll(old(pending), overdue[..i])
      {
        assert overdue[..i + 1][..i] == overdue[..i];
        WithoutKeepsDistinct(pending, overdue[i].decisionId);
        pending := Without(pending, overdue[i].decisionId);
      }
      assert overdue[..|overdue|] == overdue;
      RemovingOverdueLeavesUnexpired(old(pending), now);
    }

    method ActiveChallenge(now: int) returns (active: Option<PendingChallenge>)
      requires Valid()
      ensures var outstanding := Unexpired(pending, now);
              && (active.None? <==> outstanding == [])
              && (active.Some? ==> IsFirstMax(outstanding, active.value, RankedBefore()))
    {
      var outstanding := Unexpired(pending, now);
      if outstanding == [] {
        return None;
      }
      var first := FirstMax(outstanding, RankedBefore());
      return Some(first);
    }

    method Respond(id: string, answer: string, token: Option<string>, now: int)
      returns (result: Result<ResponseResult, ChallengeError>)
      requires Valid()
      modifies this`pending
      ensures Valid()
      ensures (pending, result) == Responded(credential, old(pending), id, answer, token, now)
    {
      if credential.None? {
        return Err(NotConfigured);
      }
      var candidate := Find(pending, id);
      if candidate.None? {
        return Err(UnknownChallenge);
      }
      if token.Some? && candidate.value.token != token.value {
        return Err(UnknownChallenge);
      }
      WithoutKeepsDistinct(pending, id);
      pending := Without(pending, id);
      if now > candidate.value.expiresAt {
        return Ok(ResponseResult(Expired, candidate.value, false));
      }
      if !credential.value.verify(answer) {
        return Ok(ResponseResult(Rejected, candidate.value, false));
      }
      return Ok(ResponseResult(Accepted, candidate.value, true));
    }

    method Discard(id: string)
      requires Valid()
      modifies this`pending
      ensures Valid() && pending == Without(old(pending), id)
    {
      WithoutKeepsDistinct(pending, id);
      pending := Without(pending, id);
    }
  }

  function Responded(credential: Option<Credential>, pending: seq<PendingChallenge>,
                     id: string, answer: string, token: Option<string>, now: int)
    : (seq<PendingChallenge>, Result<ResponseResult, ChallengeError>)
  {
    if credential.None? then (pending, Err(NotConfigured))
    else
      var candidate := Find(pending, id);
      if candidate.None? || (token.Some? && candidate.value.token != token.value) then (pending, Err(UnknownChallenge))
      else
        (Without(pending, id),
         Ok(if now > candidate.value.expiresAt then ResponseResult(Expired, candidate.value, false)
            else if !credential.value.verify(answer) then ResponseResult(Rejected, candidate.value, false)
            else ResponseResult(Accepted, candidate.value, true)))
  }

  // ---------------------------------------------------------------------
  // Facts about the registry
  // ---------------------------------------------------------------------

  function Holds(pending: seq<PendingChallenge>, id: string): bool {
    Find(pending, id).Some?
  }

  lemma {:induction false} FindMeans(pending: seq<PendingChallenge>, id: string)
    ensures Find(pending, id).Some? ==>
              Find(pending, id).value in pending && Find(pending, id).value.decisionId == id
    ensures Find(pending, id).None? <==> forall i :: 0 <= i < |pending| ==> pending[i].decisionId != id
  {
    if pending != [] {
      FindMeans(pending[1..], id);
      assert pending == [pending[0]] + pending[1..];
    }
  }

  lemma {:induction false} PutMeans(pending: seq<PendingChallenge>, item: PendingChallenge)
    requires Distinct(pending)
    ensures forall p :: p in Put(pending, item) <==> p == item || (p in pending && p.decisionId != item.decisionId)
    ensures !Holds(pending, item.decisionId) ==> Put(pending, item) == pending + [item]
  {
    if pending != [] {
      PutMeans(pending[1..], item);
      assert pending == [pending[0]] + pending[1..];
      FindMeans(pending, item.decisionId);
      if pending[0].decisionId == item.decisionId {
        assert forall p :: p in pending[1..] ==> p.decisionId != item.decisionId;
      }
    }
  }

  /** A challenge opened under an outstanding id takes its place, any other goes to the end. */
  lemma {:induction false} PutKeepsPlaces(pending: seq<PendingChallenge>, item: PendingChallenge)
    requires Distinct(pending)
    ensures |Put(pending, item)| == |pending| + if Holds(pending, item.decisionId) then 0 else 1
    ensures forall i :: 0 <= i < |Put(pending, item)| ==>
              Put(pending, item)[i] == if i == |pending| || pending[i].decisionId == item.decisionId then item else pending[i]
  {
    if pending != [] {
      PutKeepsPlaces(pending[1..], item);
    }
  }

  lemma {:induction false} PutKeepsDistinct(pending: seq<PendingChallenge>, item: PendingChallenge)
    requires Distinct(pending)
    ensures Distinct(Put(pending, item))
    ensures forall p :: p in Put(pending, item) ==>
              p.decisionId == item.decisionId || exists q :: q in pending && q.decisionId == p.decisionId
  {
    if pending != [] {
      PutKeepsDistinct(pending[1..], item);
      var rest := Put(pending[1..], item);
      if pending[0].decisionId != item.decisionId {
        forall i | 0 <= i < |rest| ensures rest[i].decisionId != pending[0].decisionId {
          assert rest[i] in rest;
          if rest[i].decisionId != item.decisionId {
            var q :| q in pending[1..] && q.decisionId == rest[i].decisionId;
          }
        }
      }
    }
  }

  lemma {:induction false} WithoutMeans(pending: seq<PendingChallenge>, id: string)
    ensures forall p :: p in Without(pending, id) <==> p in pending && p.decisionId != id
  {
    if pending != [] {
      WithoutMeans(pending[1..], id);
      assert pending == [pending[0]] + pending[1..];
    }
  }

  lemma {:induction false} WithoutKeepsDistinct(pending: seq<PendingChallenge>, id: string)
    requires Distinct(pending)
    ensures Distinct(Without(pending, id))
  {
    if pending != [] {
      WithoutKeepsDistinct(pending[1..], id);
      WithoutMeans(pending[1..], id);
      var rest := Without(pending[1..], id);
      forall i | 0 <= i < |rest| ensures rest[i].decisionId != pending[0].decisionId {
        assert rest[i] in rest;
      }
    }
  }

  function WithoutAll(pending: seq<PendingChallenge>, items: seq<PendingChallenge>): seq<PendingChallenge> {
    if items == [] then pending
    else Without(WithoutAll(pending, items[..|items| - 1]), items[|items| - 1].decisionId)
  }

  lemma {:induction false} WithoutAllKeepsDistinct(pending: seq<PendingChallenge>, items: seq<PendingChallenge>)
    requires Distinct(pending)
    ensures Distinct(WithoutAll(pending, items))
    decreases |items|
  {
    if items != [] {
      WithoutAllKeepsDistinct(pending, items[..|items| - 1]);
      WithoutKeepsDistinct(WithoutAll(pending, items[..|items| - 1]), items[|items| - 1].decisionId);
    }
  }

  // The pending challenges that no item of the list names, in order.
  function Filtered(pending: seq<PendingChallenge>, items: seq<PendingChallenge>): seq<PendingChallenge> {
    if pending == [] then []
    else (if Holds(items, pending[0].decisionId) then [] else [pending[0]]) + Filtered(pending[1..], items)
  }

  lemma {:induction false} FilterOneMore(pending: seq<PendingChallenge>, items: seq<PendingChallenge>,
                                         item: PendingChallenge)
    ensures Filtered(pending, items + [item]) == Without(Filtered(pending, items), item.decisionId)
  {
    if pending != [] {
      FilterOneMore(pending[1..], items, item);
      var rest := Filtered(pending[1..], items);
      assert ([pending[0]] + rest)[1..] == rest && [] + rest == rest;
      assert [] + Without(rest, item.decisionId) == Without(rest, item.decisionId);
      FindMeans(items, pending[0].decisionId);
      FindMeans(items + [item], pending[0].decisionId);
      assert (items + [item])[|items|] == item;
      assert forall i :: 0 <= i < |items| ==> (items + [item])[i] == items[i];
    }
  }

  lemma {:induction false} WithoutAllFilters(pending: seq<PendingChallenge>, items: seq<PendingChallenge>)
    ensures WithoutAll(pending, items) == Filtered(pending, items)
    decreases |items|
  {
    if items == [] {
      FilterNothing(pending);
    } else {
      WithoutAllFilters(pending, items[..|items| - 1]);
      FilterOneMore(pending, items[..|items| - 1], items[|items| - 1]);
      assert items == items[..|items| - 1] + [items[|items| - 1]];
    }
  }

  lemma {:induction false} FilterNothing(pending: seq<PendingChallenge>)
    ensures Filtered(pending, []) == pending
  {
    if pending != [] {
      FilterNothing(pending[1..]);
    }
  }

  lemma {:induction false} OverdueMeans(pending: seq<PendingChallenge>, now: int)
    ensures forall p :: p in Overdue(pending, now) <==> p in pending && p.expiresAt <= now
    ensures forall p :: p in Unexpired(pending, now) <==> p in pending && p.expiresAt > now
  {
    if pending != [] {
      OverdueMeans(pending[1..], now);
      assert pending == [pending[0]] + pending[1..];
    }
  }

  lemma {:induction false} EnforcingMeans(pending: seq<PendingChallenge>)
    ensures forall p :: p in Enforcing(pending) <==> p in pending && !IsScheduled(p.decisionId)
  {
    if pending != [] {
      EnforcingMeans(pending[1..]);
      assert pending == [pending[0]] + pending[1..];
    }
  }

  lemma {:induction false} FilterByTime(pending: seq<PendingChallenge>, items: seq<PendingChallenge>, now: int)
    requires forall p :: p in pending ==> (Holds(items, p.decisionId) <==> p.expiresAt <= now)
    ensures Filtered(pending, items) == Unexpired(pending, now)
  {
    if pending != [] {
      assert pending[0] in pending;
      assert forall p :: p in pending[1..] ==> p in pending;
      FilterByTime(pending[1..], items, now);
    }
  }

  // Popping every overdue challenge, one by one, leaves exactly the unexpired ones.
  lemma RemovingOverdueLeavesUnexpired(pending: seq<PendingChallenge>, now: int)
    requires Distinct(pending)
    ensures WithoutAll(pending, Overdue(pending, now)) == Unexpired(pending, now)
  {
    var overdue := Overdue(pending, now);
    WithoutAllFilters(pending, overdue);
    OverdueMeans(pending, now);
    forall p | p in pending ensures Holds(overdue, p.decisionId) <==> p.expiresAt <= now {
      FindMeans(overdue, p.decisionId);
      if p.expiresAt <= now {
        var i :| 0 <= i < |overdue| && overdue[i] == p;
      }
      if Holds(overdue, p.decisionId) {
        var q := Find(overdue, p.decisionId).value;
        assert q in pending && q.decisionId == p.decisionId;
      }
    }
    FilterByTime(pending, overdue, now);
  }

  /** The active challenge is outstanding; it is a scheduled prompt only when nothing else is,
      and no other of its kind was opened later. */
  lemma ActiveIsEnforcingFirst(pending: seq<PendingChallenge>, now: int, active: PendingChallenge)
    requires IsFirstMax(Unexpired(pending, now), active, RankedBefore())
    ensures active in pending && active.expiresAt > now
    ensures forall d :: d in pending && d.expiresAt > now ==>
              && (IsScheduled(active.decisionId) ==> IsScheduled(d.decisionId))
              && (IsScheduled(active.decisionId) == IsScheduled(d.decisionId) ==> d.openedAt <= active.openedAt)
  {
    var outstanding := Unexpired(pending, now);
    OverdueMeans(pending, now);
    forall d | d in pending && d.expiresAt > now
      ensures RankedBefore()(d, active) || !RankedBefore()(active, d)
    {
      assert d in outstanding;
      var j :| 0 <= j < |outstanding| && outstanding[j] == d;
    }
  }
}
