/** Every way in which verifying a manifest file can end, entry by entry. */
module FreezeChecks {
  import opened Wrappers
  import opened Apportionment
  import opened Freeze
  import opened FreezeFiles

  // The entry whose checksum stands for its id: the last one of it.
  ghost predicate Stands(entries: seq<Entry>, k: nat) {
    && k < |entries| && Keyed(entries[k])
    && forall j :: k < j < |entries| ==> entries[j].windowId != entries[k].windowId
  }

  // The window that stands for its id in the corpus.
  ghost predicate IsCurrent(windows: seq<Window>, i: nat) {
    i < |windows| && forall j :: i < j < |windows| ==> windows[j].id != windows[i].id
  }

  /** An entry names a window that the corpus does not hold. */
  ghost predicate SomeMissing(entries: seq<Entry>, windows: seq<Window>) {
    exists k :: 0 <= k < |entries| && Keyed(entries[k])
                && forall i :: 0 <= i < |windows| ==> windows[i].id != entries[k].windowId.value
  }

  /** An entry that stands for its id has another checksum than the window that does. */
  ghost predicate SomeChanged(digests: Digests, entries: seq<Entry>, windows: seq<Window>) {
    exists k: nat, i: nat :: Stands(entries, k) && IsCurrent(windows, i) && entries[k].windowId == Some(windows[i].id)
                             && entries[k].checksum != Some(digests.window(windows[i]))
  }

  lemma {:induction false} ExpectedStands(entries: seq<Entry>, id: int) returns (k: nat)
    requires AllKeyed(entries) && id in ExpectedOf(entries)
    ensures Stands(entries, k) && entries[k].windowId == Some(id) && entries[k].checksum == Some(ExpectedOf(entries)[id])
    decreases |entries|
  {
    k := |entries| - 1;
    if entries[k].windowId != Some(id) {
      k := ExpectedStands(entries[..k], id);
    }
  }

  lemma {:induction false} StandingIsExpected(entries: seq<Entry>, k: nat)
    requires AllKeyed(entries) && k < |entries|
    ensures entries[k].windowId.value in ExpectedOf(entries)
    ensures Stands(entries, k) ==> ExpectedOf(entries)[entries[k].windowId.value] == entries[k].checksum.value
    decreases |entries|
  {
    if k < |entries| - 1 {
      StandingIsExpected(entries[..|entries| - 1], k);
      assert Stands(entries, k) ==> Stands(entries[..|entries| - 1], k);
    }
  }

  lemma {:induction false} CurrentStands(digests: Digests, windows: seq<Window>, id: int) returns (i: nat)
    requires id in Current(digests, windows)
    ensures IsCurrent(windows, i) && windows[i].id == id && Current(digests, windows)[id] == digests.window(windows[i])
    decreases |windows|
  {
    i := |windows| - 1;
    if windows[i].id != id {
      i := CurrentStands(digests, windows[..i], id);
    }
  }

  lemma {:induction false} StandingIsCurrent(digests: Digests, windows: seq<Window>, i: nat)
    requires i < |windows|
    ensures windows[i].id in Current(digests, windows)
    ensures IsCurrent(windows, i) ==> Current(digests, windows)[windows[i].id] == digests.window(windows[i])
    decreases |windows|
  {
    if i < |windows| - 1 {
      StandingIsCurrent(digests, windows[..|windows| - 1], i);
      assert IsCurrent(windows, i) ==> IsCurrent(windows[..|windows| - 1], i);
    }
  }

  lemma MissingMeans(digests: Digests, entries: seq<Entry>, windows: seq<Window>)
    requires AllKeyed(entries)
    ensures ExpectedOf(entries).Keys <= Current(digests, windows).Keys <==> !SomeMissing(entries, windows)
  {
    var expected, current := ExpectedOf(entries), Current(digests, windows);
    if SomeMissing(entries, windows) {
      var k :| 0 <= k < |entries| && Keyed(entries[k])
               && forall i :: 0 <= i < |windows| ==> windows[i].id != entries[k].windowId.value;
      StandingIsExpected(entries, k);
      var id := entries[k].windowId.value;
      assert id in expected.Keys;
      if id in current {
        var i := CurrentStands(digests, windows, id);
        assert false;
      }
    } else {
      forall id | id in expected.Keys ensures id in current.Keys {
        var k := ExpectedStands(entries, id);
        var i :| 0 <= i < |windows| && windows[i].id == entries[k].windowId.value;
        StandingIsCurrent(digests, windows, i);
      }
    }
  }

  lemma ChangedMeans(digests: Digests, entries: seq<Entry>, windows: seq<Window>)
    requires AllKeyed(entries)
    ensures Changed(ExpectedOf(entries), Current(digests, windows)) <==> SomeChanged(digests, entries, windows)
  {
    var expected, current := ExpectedOf(entries), Current(digests, windows);
    if Changed(expected, current) {
      var id :| id in expected && id in current && current[id] != expected[id];
      var k := ExpectedStands(entries, id);
      var i := CurrentStands(digests, windows, id);
      assert entries[k].checksum != Some(digests.window(windows[i]));
    }
    if SomeChanged(digests, entries, windows) {
      var k: nat, i: nat :| Stands(entries, k) && IsCurrent(windows, i) && entries[k].windowId == Some(windows[i].id)
                            && entries[k].checksum != Some(digests.window(windows[i]));
      StandingIsExpected(entries, k);
      StandingIsCurrent(digests, windows, i);
      assert windows[i].id in expected && windows[i].id in current && current[windows[i].id] != expected[windows[i].id];
    }
  }

  // How the entries of an intact file are judged.
  ghost predicate Judged(digests: Digests, entries: seq<Entry>, windows: seq<Window>, result: Result<Counts, FreezeError>) {
    if exists k :: 0 <= k < |entries| && !Keyed(entries[k]) then result == Err(LookupFailed)
    else if SomeMissing(entries, windows) then result == Err(WindowMissing)
    else if SomeChanged(digests, entries, windows) then result == Err(WindowChanged)
    else if exists k :: 0 <= k < |entries| && entries[k].partition.None? then result == Err(LookupFailed)
    else if !Complete(entries) then result == Err(PartitionMissing)
    else
      && result == Ok(Counts(Named(entries, "TRAIN"), Named(entries, "VALIDATION"), Named(entries, "EVALUATION")))
      && Named(entries, "TRAIN") + Named(entries, "VALIDATION") + Named(entries, "EVALUATION") == |entries|
  }

  /** Main result: a file that cannot be read, is no object, was altered under its checksum or
      has no list of records is refused as such; otherwise verification looks for a lookup
      failure, a missing window, a changed one and partitions other than the three, in this
      order, and counts the entries of each partition. */
  lemma VerificationIsExact(digests: Digests, file: ManifestFile, windows: seq<Window>)
    ensures var result := VerifiedFile(digests, file, windows);
            match file
            case Unreadable => result == Err(ManifestUnreadable)
            case NotAnObject => result == Err(LookupFailed)
            case WithoutRecords(intact) => result == Err(if intact then RecordsInvalid else ChecksumMismatch)
            case WithRecords(intact, entries) =>
              if intact then Judged(digests, entries, windows, result) else result == Err(ChecksumMismatch)
  {
    if file.WithRecords? && AllKeyed(file.entries) {
      MissingMeans(digests, file.entries, windows);
      ChangedMeans(digests, file.entries, windows);
      if Complete(file.entries) {
        NamesAddUp(file.entries);
      }
    }
  }

  lemma {:induction false} NamesAddUp(entries: seq<Entry>)
    requires forall i :: 0 <= i < |entries| ==> entries[i].partition in {Some("TRAIN"), Some("VALIDATION"), Some("EVALUATION")}
    ensures Named(entries, "TRAIN") + Named(entries, "VALIDATION") + Named(entries, "EVALUATION") == |entries|
    decreases |entries|
  {
    if entries != [] {
      NamesAddUp(entries[..|entries| - 1]);
      assert "TRAIN" != "VALIDATION" && "TRAIN" != "EVALUATION" && "VALIDATION"[0] != "EVALUATION"[0];
      assert entries[|entries| - 1].partition in {Some("TRAIN"), Some("VALIDATION"), Some("EVALUATION")};
    }
  }
}
