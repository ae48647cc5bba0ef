/** What one activation writes, row by row. */
module ProfileRows {
  import opened Wrappers
  import opened Profiles

  // The row of a version that stays in the table.
  ghost predicate CarriedOver(before: Row, after: Row, user: string, now: int) {
    if before.userId == user && before.status == Active then
      after == Row(user, before.keyboardArtifact, before.mouseArtifact, Retained, before.createdAt, before.activatedAt, Some(now))
    else after == before
  }

  /** An activation is refused exactly for a known version or a profile without artifacts, and
      then changes nothing. Otherwise the profile's row is the ACTIVE one from now on, the
      version it replaces is RETAINED from now on, every other row that stays is as it was,
      and as many retained versions stay as the limit allows. */
  lemma ActivationIsExact(rows: Table, profile: Profile, retainedVersions: nat, now: int, fetched: seq<string>)
    requires OneActive(rows) && Fetches(Replaced(rows, profile, now), profile.userId, fetched)
    ensures var (rows', result) := Activated(rows, profile, retainedVersions, now, fetched);
            && (result == Err(DuplicateVersion) <==> profile.version in rows)
            && (result == Err(NoArtifact) <==>
                  profile.version !in rows && profile.keyboardArtifact.None? && profile.mouseArtifact.None?)
            && (result.Err? ==> rows' == rows && result.error != NothingToRollBack)
            && (result.Ok? ==>
                  && profile.version in rows'
                  && rows'[profile.version] == Row(profile.userId, profile.keyboardArtifact, profile.mouseArtifact, Active,
                                                   profile.createdAt, Some(now), None)
                  && (forall v :: v in rows' && v != profile.version ==> v in rows && CarriedOver(rows[v], rows'[v], profile.userId, now))
                  && |RetainedOf(rows', profile.userId)| ==
                     if |fetched| <= retainedVersions then |fetched| else retainedVersions)
  {
    var (rows', result) := Activated(rows, profile, retainedVersions, now, fetched);
    if result.Ok? {
      ActivatedRetained(rows, profile, retainedVersions, now, fetched);
      var replaced, beyond := Replaced(rows, profile, now), Beyond(fetched, retainedVersions);
      assert !IsRetained(replaced, profile.userId, profile.version);
      assert forall v :: v in beyond ==> v in fetched;
    }
  }

  /** The retained versions from which an activation keeps the newest are those retained
      before and the one it replaces. */
  lemma FetchedAreTheReplaced(rows: Table, profile: Profile, now: int, fetched: seq<string>)
    requires profile.version !in rows && Fetches(Replaced(rows, profile, now), profile.userId, fetched)
    ensures forall v :: v in fetched <==> IsRetained(rows, profile.userId, v) || IsActive(rows, profile.userId, v)
  {
    forall v ensures v in fetched <==> IsRetained(rows, profile.userId, v) || IsActive(rows, profile.userId, v) {
      assert v in fetched <==> IsRetained(Replaced(rows, profile, now), profile.userId, v);
    }
  }
}
