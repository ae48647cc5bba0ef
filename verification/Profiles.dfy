/** The table of model profiles: one active version a user, a few retained, and rollback. */
module Profiles {
  import opened Wrappers

  datatype Status = Retained | Active | Rejected

  datatype Row = Row(
    userId: string,
    keyboardArtifact: Option<string>,
    mouseArtifact: Option<string>,
    status: Status,
    createdAt: int,
    activatedAt: Option<int>,
    retiredAt: Option<int>)

  // The primary key is the profile version.
  type Table = map<string, Row>

  datatype Profile = Profile(
    version: string, userId: string, keyboardArtifact: Option<string>, mouseArtifact: Option<string>, createdAt: int)

  datatype StoreError = DuplicateVersion | NoArtifact | NothingToRollBack

  // The key both queries order by, newest first.
  function Stamp(row: Row): int {
    if row.retiredAt.Some? then row.retiredAt.value else row.createdAt
  }

  predicate IsRetained(rows: Table, user: string, v: string) {
    v in rows && rows[v].userId == user && rows[v].status == Retained
  }

  predicate IsActive(rows: Table, user: string, v: string) {
    v in rows && rows[v].userId == user && rows[v].status == Active
  }

  // The partial unique index on the table.
  ghost predicate OneActive(rows: Table) {
    forall v, w :: v in rows && w in rows && IsActive(rows, rows[w].userId, v) && rows[w].status == Active ==> v == w
  }

  /** A possible answer of the query for a user's retained versions: each once, newest
      first; rows with equal timestamps may come in any order. */
  ghost predicate Fetches(rows: Table, user: string, fetched: seq<string>) {
    && (forall v :: v in fetched <==> IsRetained(rows, user, v))
    && (forall i, j :: 0 <= i < j < |fetched| ==>
          fetched[i] != fetched[j] && fetched[i] in rows && fetched[j] in rows
          && Stamp(rows[fetched[i]]) >= Stamp(rows[fetched[j]]))
  }

  /** A possible answer of the same query with LIMIT 1. */
  ghost predicate FetchesNewest(rows: Table, user: string, chosen: Option<string>) {
    && (chosen.None? ==> forall v :: !IsRetained(rows, user, v))
    && (chosen.Some? ==>
          && IsRetained(rows, user, chosen.value)
          && forall v :: IsRetained(rows, user, v) ==> Stamp(rows[chosen.value]) >= Stamp(rows[v]))
  }

  ghost predicate FetchesActive(rows: Table, user: string, active: Option<string>) {
    && (active.None? ==> forall v :: !IsActive(rows, user, v))
    && (active.Some? ==> IsActive(rows, user, active.value))
  }

  function Retire(rows: Table, user: string, now: int): Table {
    map v | v in rows ::
      if rows[v].userId == user && rows[v].status == Active then rows[v].(status := Retained, retiredAt := Some(now)) else rows[v]
  }

  function Inserted(profile: Profile, now: int): Row {
    Row(profile.userId, profile.keyboardArtifact, profile.mouseArtifact, Active, profile.createdAt, Some(now), None)
  }

  // The table between the insertion and the deletions of an activation.
  function Replaced(rows: Table, profile: Profile, now: int): Table {
    Retire(rows, profile.userId, now)[profile.version := Inserted(profile, now)]
  }

  function Beyond(fetched: seq<string>, retainedVersions: nat): seq<string> {
    if retainedVersions <= |fetched| then fetched[retainedVersions..] else []
  }

  function Activated(rows: Table, profile: Profile, retainedVersions: nat, now: int, fetched: seq<string>)
    : (Table, Result<(), StoreError>)
  {
    if profile.version in rows then (rows, Err(DuplicateVersion))
    else if profile.keyboardArtifact.None? && profile.mouseArtifact.None? then (rows, Err(NoArtifact))
    else (map v | v in Replaced(rows, profile, now) && v !in Beyond(fetched, retainedVersions) :: Replaced(rows, profile, now)[v], Ok(()))
  }

  function RolledBack(rows: Table, now: int, active: Option<string>, chosen: Option<string>)
    : (Table, Result<string, StoreError>)
    requires active.Some? ==> active.value in rows
    requires chosen.Some? ==> chosen.value in rows
  {
    if active.None? || chosen.None? then (rows, Err(NothingToRollBack))
    else
      var a, r := active.value, chosen.value;
      var retired := rows[a := rows[a].(status := Retained, retiredAt := Some(now))];
      (retired[r := retired[r].(status := Active, activatedAt := Some(now), retiredAt := None)], Ok(r))
  }

  class UpdateRepository {
    var rows: Table

    constructor ()
      ensures rows == map[]
    {
      rows := map[];
    }

    /** One transaction: a failed insertion undoes the retirement before it. */
    method ActivateProfile(profile: Profile, retainedVersions: nat, now: int, fetched: seq<string>)
      returns (result: Result<(), StoreError>)
      requires OneActive(rows) && Fetches(Replaced(rows, profile, now), profile.userId, fetched)
      modifies this
      ensures (rows, result) == Activated(old(rows), profile, retainedVersions, now, fetched)
    {
      var begin := rows;
      rows := Retire(rows, profile.userId, now);
      if profile.version in rows {
        rows := begin;
        return Err(DuplicateVersion);
      }
      if profile.keyboardArtifact.None? && profile.mouseArtifact.None? {
        rows := begin;
        return Err(NoArtifact);
      }
      rows := rows[profile.version := Inserted(profile, now)];
      var beyond := Beyond(fetched, retainedVersions);
      assert forall v :: v in beyond ==> v in fetched;
      DeleteRetained(beyond);
      return Ok(());
    }

    method DeleteRetained(versions: seq<string>)
      requires forall v :: v in versions && v in rows ==> rows[v].status == Retained
      modifies this
      ensures rows == map v | v in old(rows) && v !in versions :: old(rows)[v]
    {
      for i := 0 to |versions|
        invariant rows == map v | v in old(rows) && v !in versions[..i] :: old(rows)[v]
      {
        assert versions[i] in versions && versions[..i + 1] == versions[..i] + [versions[i]];
        if versions[i] in rows && rows[versions[i]].status == Retained {
          rows := rows - {versions[i]};
        }
      }
      assert versions[..|versions|] == versions;
    }

    method Rollback(user: string, now: int, active: Option<string>, chosen: Option<string>)
      returns (result: Result<string, StoreError>)
      requires OneActive(rows) && FetchesActive(rows, user, active) && FetchesNewest(rows, user, chosen)
      modifies this
      ensures (rows, result) == RolledBack(old(rows), now, active, chosen)
    {
      if active.None? || chosen.None? {
        return Err(NothingToRollBack);
      }
      rows := rows[active.value := rows[active.value].(status := Retained, retiredAt := Some(now))];
      rows := rows[chosen.value := rows[chosen.value].(status := Active, activatedAt := Some(now), retiredAt := None)];
      return Ok(chosen.value);
    }
  }

  // ---------------------------------------------------------------------
  // What every table keeps
  // ---------------------------------------------------------------------

  function RetainedOf(rows: Table, user: string): set<string> {
    set v | v in rows && IsRetained(rows, user, v)
  }

  ghost predicate Dated(rows: Table) {
    forall v :: v in rows && rows[v].status == Retained ==> rows[v].retiredAt.Some?
  }

  /** At most one ACTIVE and at most R RETAINED versions a user, every RETAINED one with its
      retirement time. */
  ghost predicate Sound(rows: Table, retainedVersions: nat) {
    && OneActive(rows) && Dated(rows)
    && forall user :: |RetainedOf(rows, user)| <= retainedVersions
  }

  lemma {:induction false} DistinctSetSize(items: seq<string>, elements: set<string>)
    requires forall i, j :: 0 <= i < j < |items| ==> items[i] != items[j]
    requires forall v :: v in elements <==> v in items
    ensures |elements| == |items|
    decreases |items|
  {
    if items == [] {
      assert elements == {};
    } else {
      var last := items[|items| - 1];
      assert items == items[..|items| - 1] + [last];
      DistinctSetSize(items[..|items| - 1], elements - {last});
    }
  }

  // In a list without repetitions, the items before a cut are those not after it.
  lemma CutSplits(items: seq<string>, cut: nat, v: string)
    requires cut <= |items| && forall i, j :: 0 <= i < j < |items| ==> items[i] != items[j]
    ensures v in items[..cut] <==> v in items && v !in items[cut..]
  {
    assert items == items[..cut] + items[cut..];
  }

  function Kept(fetched: seq<string>, retainedVersions: nat): seq<string> {
    if retainedVersions <= |fetched| then fetched[..retainedVersions] else fetched
  }

  // The retained versions of an activated table are the first R fetched.
  lemma ActivatedRetained(rows: Table, profile: Profile, retainedVersions: nat, now: int, fetched: seq<string>)
    requires Fetches(Replaced(rows, profile, now), profile.userId, fetched)
    requires Activated(rows, profile, retainedVersions, now, fetched).1.Ok?
    ensures var rows' := Activated(rows, profile, retainedVersions, now, fetched).0;
            && (forall v :: IsRetained(rows', profile.userId, v) <==> v in Kept(fetched, retainedVersions))
            && |RetainedOf(rows', profile.userId)| == |Kept(fetched, retainedVersions)|
  {
    var rows' := Activated(rows, profile, retainedVersions, now, fetched).0;
    var kept := Kept(fetched, retainedVersions);
    forall v ensures IsRetained(rows', profile.userId, v) <==> v in kept {
      if retainedVersions <= |fetched| {
        CutSplits(fetched, retainedVersions, v);
      }
      assert v in fetched <==> IsRetained(Replaced(rows, profile, now), profile.userId, v);
    }
    DistinctSetSize(kept, RetainedOf(rows', profile.userId));
  }

  /** Activation keeps the table sound, keeps the newest versions, and touches no other user. */
  lemma ActivationIsSound(rows: Table, profile: Profile, retainedVersions: nat, now: int, fetched: seq<string>)
    requires Sound(rows, retainedVersions)
    requires Fetches(Replaced(rows, profile, now), profile.userId, fetched)
    ensures var (rows', result) := Activated(rows, profile, retainedVersions, now, fetched);
            && Sound(rows', retainedVersions)
            && (result.Err? ==> rows' == rows)
            && (result.Ok? ==> IsActive(rows', profile.userId, profile.version))
            && (forall v, w :: v in rows && v !in rows' && IsRetained(rows', rows[v].userId, w) ==>
                  rows[v].userId == profile.userId && Stamp(Replaced(rows, profile, now)[v]) <= Stamp(rows'[w]))
            && (forall v :: v in rows && rows[v].userId != profile.userId ==> v in rows' && rows'[v] == rows[v])
  {
    var (rows', result) := Activated(rows, profile, retainedVersions, now, fetched);
    if result.Ok? {
      ActivatedRetained(rows, profile, retainedVersions, now, fetched);
      ActivatedActive(rows, profile, retainedVersions, now, fetched);
      var beyond := Beyond(fetched, retainedVersions);
      forall v | v in beyond ensures v in fetched {
      }
      forall user ensures |RetainedOf(rows', user)| <= retainedVersions {
        if user != profile.userId {
          assert RetainedOf(rows', user) == RetainedOf(rows, user);
        }
      }
      forall v, w | v in rows && v !in rows' && IsRetained(rows', rows[v].userId, w)
        ensures rows[v].userId == profile.userId && Stamp(Replaced(rows, profile, now)[v]) <= Stamp(rows'[w])
      {
        DeletedIsOlder(rows, profile, retainedVersions, now, fetched, v, w);
      }
    }
  }

  lemma ActivatedActive(rows: Table, profile: Profile, retainedVersions: nat, now: int, fetched: seq<string>)
    requires OneActive(rows) && Fetches(Replaced(rows, profile, now), profile.userId, fetched)
    requires Activated(rows, profile, retainedVersions, now, fetched).1.Ok?
    ensures var rows' := Activated(rows, profile, retainedVersions, now, fetched).0;
            && OneActive(rows') && IsActive(rows', profile.userId, profile.version)
            && forall v :: v in rows && rows[v].userId != profile.userId ==> v in rows' && rows'[v] == rows[v]
  {
    var beyond := Beyond(fetched, retainedVersions);
    forall v | v in beyond ensures IsRetained(Replaced(rows, profile, now), profile.userId, v) {
      assert v in fetched;
    }
  }

  lemma DeletedIsOlder(rows: Table, profile: Profile, retainedVersions: nat, now: int, fetched: seq<string>,
                       v: string, w: string)
    requires OneActive(rows) && Fetches(Replaced(rows, profile, now), profile.userId, fetched)
    requires Activated(rows, profile, retainedVersions, now, fetched).1.Ok?
    requires var rows' := Activated(rows, profile, retainedVersions, now, fetched).0;
             v in rows && v !in rows' && IsRetained(rows', rows[v].userId, w)
    ensures var rows' := Activated(rows, profile, retainedVersions, now, fetched).0;
            rows[v].userId == profile.userId && Stamp(Replaced(rows, profile, now)[v]) <= Stamp(rows'[w])
  {
    var beyond, kept := Beyond(fetched, retainedVersions), Kept(fetched, retainedVersions);
    assert v in beyond;
    var j :| 0 <= j < |beyond| && beyond[j] == v;
    assert fetched[retainedVersions + j] == v && v in fetched;
    ActivatedRetained(rows, profile, retainedVersions, now, fetched);
    var i :| 0 <= i < |kept| && kept[i] == w;
    assert fetched[i] == w;
  }

  // The two rows a rollback trades, and every other row left alone.
  lemma RollbackTrades(rows: Table, user: string, now: int, a: string, r: string)
    requires IsActive(rows, user, a) && IsRetained(rows, user, r)
    ensures var rows' := RolledBack(rows, now, Some(a), Some(r)).0;
            && rows'.Keys == rows.Keys
            && rows'[r] == rows[r].(status := Active, activatedAt := Some(now), retiredAt := None)
            && rows'[a] == rows[a].(status := Retained, retiredAt := Some(now))
            && forall v :: v in rows && v != a && v != r ==> rows'[v] == rows[v]
  {
  }

  /** Rollback keeps the table sound; it fails exactly when the user has no active or no
      retained version. */
  lemma RollbackIsSound(rows: Table, user: string, retainedVersions: nat, now: int,
                        active: Option<string>, chosen: Option<string>)
    requires Sound(rows, retainedVersions)
    requires FetchesActive(rows, user, active) && FetchesNewest(rows, user, chosen)
    ensures var (rows', result) := RolledBack(rows, now, active, chosen);
            && Sound(rows', retainedVersions)
            && (result.Err? <==> (forall v :: !IsActive(rows, user, v)) || (forall v :: !IsRetained(rows, user, v)))
            && (result.Err? ==> rows' == rows)
            && (result.Ok? ==> IsActive(rows', user, chosen.value) && IsRetained(rows', user, active.value))
  {
    if active.Some? && chosen.Some? {
      var rows' := RolledBack(rows, now, active, chosen).0;
      RollbackTrades(rows, user, now, active.value, chosen.value);
      assert OneActive(rows') by {
        RollbackKeepsOneActive(rows, user, now, active.value, chosen.value);
      }
      forall u ensures |RetainedOf(rows', u)| <= retainedVersions {
        RollbackKeepsCount(rows, user, now, active.value, chosen.value, u);
      }
    }
  }

  lemma RollbackKeepsOneActive(rows: Table, user: string, now: int, a: string, r: string)
    requires OneActive(rows) && IsActive(rows, user, a) && IsRetained(rows, user, r)
    ensures OneActive(RolledBack(rows, now, Some(a), Some(r)).0)
  {
    var rows' := RolledBack(rows, now, Some(a), Some(r)).0;
    RollbackTrades(rows, user, now, a, r);
    forall v, w | v in rows' && w in rows' && IsActive(rows', rows'[w].userId, v) && rows'[w].status == Active
      ensures v == w
    {
      assert v != r && rows[v].userId == user ==> IsActive(rows, user, v);
      assert w != r && rows[w].userId == user ==> IsActive(rows, user, w);
    }
  }

  // Who is retained after a rollback: one leaves, one enters.
  lemma RollbackRetains(rows: Table, user: string, now: int, a: string, r: string, u: string, v: string)
    requires IsActive(rows, user, a) && IsRetained(rows, user, r)
    ensures IsRetained(RolledBack(rows, now, Some(a), Some(r)).0, u, v) <==>
              (u == user && v == a) || (IsRetained(rows, u, v) && v != r)
  {
  }

  lemma RollbackKeepsCount(rows: Table, user: string, now: int, a: string, r: string, u: string)
    requires IsActive(rows, user, a) && IsRetained(rows, user, r)
    ensures |RetainedOf(RolledBack(rows, now, Some(a), Some(r)).0, u)| == |RetainedOf(rows, u)|
  {
    var before, after := RetainedOf(rows, u), RetainedOf(RolledBack(rows, now, Some(a), Some(r)).0, u);
    forall v ensures v in after <==> (u == user && v == a) || (v in before && v != r) {
      RollbackRetains(rows, user, now, a, r, u, v);
    }
    if u == user {
      assert after == before - {r} + {a};
    } else {
      assert after == before;
    }
  }

  // ---------------------------------------------------------------------
  // Whole runs
  // ---------------------------------------------------------------------

  datatype TableOp =
    | Activate(profile: Profile, now: int, fetched: seq<string>)
    | Rollback(user: string, now: int, active: Option<string>, chosen: Option<string>)

  // The answers the operation's queries give are possible on the table they meet.
  ghost predicate Possible(rows: Table, op: TableOp) {
    match op
    case Activate(profile, now, fetched) => Fetches(Replaced(rows, profile, now), profile.userId, fetched)
    case Rollback(user, now, active, chosen) => FetchesActive(rows, user, active) && FetchesNewest(rows, user, chosen)
  }

  ghost function Step(rows: Table, retainedVersions: nat, op: TableOp): Table
    requires Possible(rows, op)
  {
    match op
    case Activate(profile, now, fetched) => Activated(rows, profile, retainedVersions, now, fetched).0
    case Rollback(user, now, active, chosen) => RolledBack(rows, now, active, chosen).0
  }

  /** The tables a run goes through, from the empty one, at whatever times. */
  ghost predicate IsRun(tables: seq<Table>, ops: seq<TableOp>, retainedVersions: nat) {
    && |tables| == |ops| + 1 && tables[0] == map[]
    && forall i :: 0 <= i < |ops| ==>
         Possible(tables[i], ops[i]) && tables[i + 1] == Step(tables[i], retainedVersions, ops[i])
  }

  lemma StepIsSound(rows: Table, retainedVersions: nat, op: TableOp)
    requires Sound(rows, retainedVersions) && Possible(rows, op)
    ensures Sound(Step(rows, retainedVersions, op), retainedVersions)
  {
    match op {
      case Activate(profile, now, fetched) => ActivationIsSound(rows, profile, retainedVersions, now, fetched);
      case Rollback(user, now, active, chosen) => RollbackIsSound(rows, user, retainedVersions, now, active, chosen);
    }
  }

  /** Main result: in every state reached by activations and rollbacks, even with a clock that
      goes back, each user has at most one ACTIVE and at most R RETAINED versions, and every
      RETAINED one has its retirement time. */
  lemma {:induction false} EveryTableIsSound(tables: seq<Table>, ops: seq<TableOp>, retainedVersions: nat, i: nat)
    requires IsRun(tables, ops, retainedVersions) && i <= |ops|
    ensures Sound(tables[i], retainedVersions)
    decreases i
  {
    if i == 0 {
      assert forall user :: RetainedOf(tables[0], user) == {};
    } else {
      EveryTableIsSound(tables, ops, retainedVersions, i - 1);
      StepIsSound(tables[i - 1], retainedVersions, ops[i - 1]);
    }
  }

  ghost predicate InTimeOrder(ops: seq<TableOp>) {
    forall i, j :: 0 <= i < j < |ops| ==> ops[i].now <= ops[j].now
  }

  // No retirement is later than the clock.
  ghost predicate RetiredBy(rows: Table, clock: int) {
    forall v :: v in rows && rows[v].status == Retained && rows[v].retiredAt.Some? ==> rows[v].retiredAt.value <= clock
  }

  lemma StepRetiresBy(rows: Table, retainedVersions: nat, op: TableOp, clock: int)
    requires RetiredBy(rows, clock) && Possible(rows, op) && clock <= op.now
    ensures RetiredBy(Step(rows, retainedVersions, op), op.now)
  {
  }

  // With operations in time order, retirements carry no later time than the last of them.
  lemma {:induction false} RunsRetireBy(tables: seq<Table>, ops: seq<TableOp>, retainedVersions: nat, i: nat)
    requires IsRun(tables, ops, retainedVersions) && InTimeOrder(ops) && i <= |ops|
    ensures i == 0 ==> tables[i] == map[]
    ensures i > 0 ==> RetiredBy(tables[i], ops[i - 1].now)
    decreases i
  {
    if i > 0 {
      RunsRetireBy(tables, ops, retainedVersions, i - 1);
      StepRetiresBy(tables[i - 1], retainedVersions, ops[i - 1], if i == 1 then ops[0].now else ops[i - 2].now);
    }
  }

  // ---------------------------------------------------------------------
  // Rolling back
  // ---------------------------------------------------------------------

  /** Rolling back undoes an activation that is later than every retirement before it: the
      version it replaced is active again and the new one is retained. */
  lemma RollbackUndoesActivation(rows: Table, profile: Profile, retainedVersions: nat, now: int, fetched: seq<string>,
                                 previous: string, later: int, active: Option<string>, chosen: Option<string>)
    requires OneActive(rows) && 1 <= retainedVersions
    requires forall v :: IsRetained(rows, profile.userId, v) ==> Stamp(rows[v]) < now
    requires IsActive(rows, profile.userId, previous)
    requires Fetches(Replaced(rows, profile, now), profile.userId, fetched)
    requires var (rows', result) := Activated(rows, profile, retainedVersions, now, fetched);
             result.Ok? && FetchesActive(rows', profile.userId, active) && FetchesNewest(rows', profile.userId, chosen)
    ensures active == Some(profile.version) && chosen == Some(previous)
    ensures var rows' := Activated(rows, profile, retainedVersions, now, fetched).0;
            var (restored, result) := RolledBack(rows', later, active, chosen);
            result == Ok(previous) && IsActive(restored, profile.userId, previous)
            && IsRetained(restored, profile.userId, profile.version)
  {
    var user := profile.userId;
    var replaced := Replaced(rows, profile, now);
    var rows' := Activated(rows, profile, retainedVersions, now, fetched).0;
    ActivatedRetained(rows, profile, retainedVersions, now, fetched);
    ActivatedActive(rows, profile, retainedVersions, now, fetched);
    assert IsRetained(replaced, user, previous) && Stamp(replaced[previous]) == now;
    forall v | IsRetained(replaced, user, v) && v != previous ensures Stamp(replaced[v]) < now {
      assert v in rows && replaced[v] == rows[v];
    }
    var k :| 0 <= k < |fetched| && fetched[k] == previous;
    assert fetched[0] in fetched && Stamp(replaced[fetched[0]]) >= Stamp(replaced[fetched[k]]);
    assert Kept(fetched, retainedVersions)[0] == previous && IsRetained(rows', user, previous) && rows'[previous] == replaced[previous];
    assert IsActive(rows', user, profile.version);
    var r := chosen.value;
    assert IsRetained(rows', user, r) && rows'[r] == replaced[r];
  }

  /** The other retained versions are all older than the first rollback. */
  ghost predicate OthersAreOlder(rows: Table, user: string, chosen: string, now: int) {
    forall v :: IsRetained(rows, user, v) && v != chosen ==> Stamp(rows[v]) < now
  }

  lemma {:induction false} NewestExists(rows: Table, among: set<string>) returns (newest: string)
    requires among != {} && among <= rows.Keys
    ensures newest in among && forall v :: v in among ==> Stamp(rows[newest]) >= Stamp(rows[v])
    decreases among
  {
    newest :| newest in among;
    if among != {newest} {
      assert among == (among - {newest}) + {newest};
      var other := NewestExists(rows, among - {newest});
      if Stamp(rows[other]) > Stamp(rows[newest]) {
        newest := other;
      }
    }
  }

  /** Two rollbacks in a row bring the original version back, in whatever order equal
      timestamps are returned, exactly when the first rollback is later than the retirement
      of every other retained version. */
  lemma TwoRollbacksRestore(rows: Table, user: string, now: int, a: string, r: string)
    requires OneActive(rows) && IsActive(rows, user, a) && FetchesNewest(rows, user, Some(r))
    ensures var first := RolledBack(rows, now, Some(a), Some(r)).0;
            && FetchesActive(first, user, Some(r))
            && ((forall again :: FetchesNewest(first, user, Some(again)) ==> again == a)
                <==> OthersAreOlder(rows, user, r, now))
  {
    var first := RolledBack(rows, now, Some(a), Some(r)).0;
    assert IsRetained(first, user, a) && Stamp(first[a]) == now;
    forall v ensures IsRetained(first, user, v) <==> v == a || (IsRetained(rows, user, v) && v != r) {
    }
    forall v | v in rows && v != a && v != r ensures first[v] == rows[v] {
    }
    if OthersAreOlder(rows, user, r, now) {
      forall again | FetchesNewest(first, user, Some(again)) ensures again == a {
        assert Stamp(first[again]) >= now;
      }
    } else {
      var among := RetainedOf(first, user) - {a};
      var v :| IsRetained(rows, user, v) && v != r && Stamp(rows[v]) >= now;
      assert v in among;
      var again := NewestExists(first, among);
      assert FetchesNewest(first, user, Some(again)) && again != a;
    }
  }

  /** In any state a run reaches, two rollbacks with later timestamps restore the original. */
  lemma RunsRestoreAfterTwoRollbacks(tables: seq<Table>, ops: seq<TableOp>, retainedVersions: nat,
                                     user: string, a: string, r: string, now: int, again: string, later: int)
    requires IsRun(tables, ops, retainedVersions) && InTimeOrder(ops) && (ops != [] ==> ops[|ops| - 1].now < now)
    requires IsActive(tables[|ops|], user, a) && FetchesNewest(tables[|ops|], user, Some(r))
    requires FetchesNewest(RolledBack(tables[|ops|], now, Some(a), Some(r)).0, user, Some(again))
    ensures var first := RolledBack(tables[|ops|], now, Some(a), Some(r)).0;
            var (second, result) := RolledBack(first, later, Some(r), Some(again));
            again == a && result == Ok(a) && IsActive(second, user, a) && IsRetained(second, user, r)
  {
    var rows := tables[|ops|];
    EveryTableIsSound(tables, ops, retainedVersions, |ops|);
    RunsRetireBy(tables, ops, retainedVersions, |ops|);
    assert ops != [];
    assert OthersAreOlder(rows, user, r, now);
    TwoRollbacksRestore(rows, user, now, a, r);
  }
}
