/** Verifying a manifest file as it was read, whatever is in it. */
module FreezeFiles {
  import opened Wrappers
  import opened Apportionment
  import opened Freeze

  /** One entry of the record list; a key may be missing, a partition may be any string. */
  datatype Entry = Entry(windowId: Option<int>, checksum: Option<string>, partition: Option<string>)

  /** What reading a manifest file yields; `intact` says whether its checksum matches. */
  datatype ManifestFile =
    | Unreadable
    | NotAnObject
    | WithoutRecords(intact: bool)
    | WithRecords(intact: bool, entries: seq<Entry>)

  function NameOf(partition: Partition): string {
    match partition
    case Train => "TRAIN"
    case Validation => "VALIDATION"
    case Evaluation => "EVALUATION"
  }

  predicate Keyed(entry: Entry) {
    entry.windowId.Some? && entry.checksum.Some?
  }

  predicate AllKeyed(entries: seq<Entry>) {
    forall i :: 0 <= i < |entries| ==> Keyed(entries[i])
  }

  predicate AllPartitioned(entries: seq<Entry>) {
    forall i :: 0 <= i < |entries| ==> entries[i].partition.Some?
  }

  function ExpectedOf(entries: seq<Entry>): map<int, string>
    requires AllKeyed(entries)
  {
    if entries == [] then map[]
    else
      var last := entries[|entries| - 1];
      ExpectedOf(entries[..|entries| - 1])[last.windowId.value := last.checksum.value]
  }

  function Named(entries: seq<Entry>, name: string): nat {
    if entries == [] then 0
    else Named(entries[..|entries| - 1], name) + if entries[|entries| - 1].partition == Some(name) then 1 else 0
  }

  // Exactly the three partitions occur.
  predicate Complete(entries: seq<Entry>) {
    && (forall i :: 0 <= i < |entries| ==> entries[i].partition in {Some("TRAIN"), Some("VALIDATION"), Some("EVALUATION")})
    && Named(entries, "TRAIN") > 0 && Named(entries, "VALIDATION") > 0 && Named(entries, "EVALUATION") > 0
  }

  predicate Changed(expected: map<int, string>, current: map<int, string>) {
    exists id :: id in expected && id in current && current[id] != expected[id]
  }

  function VerifiedEntries(digests: Digests, entries: seq<Entry>, windows: seq<Window>): Result<Counts, FreezeError> {
    if !AllKeyed(entries) then Err(LookupFailed)
    else
      var current, expected := Current(digests, windows), ExpectedOf(entries);
      if !(expected.Keys <= current.Keys) then Err(WindowMissing)
      else if Changed(expected, current) then Err(WindowChanged)
      else if !AllPartitioned(entries) then Err(LookupFailed)
      else if !Complete(entries) then Err(PartitionMissing)
      else Ok(Counts(Named(entries, "TRAIN"), Named(entries, "VALIDATION"), Named(entries, "EVALUATION")))
  }

  function VerifiedFile(digests: Digests, file: ManifestFile, windows: seq<Window>): Result<Counts, FreezeError> {
    match file
    case Unreadable => Err(ManifestUnreadable)
    case NotAnObject => Err(LookupFailed)
    case WithoutRecords(intact) => Err(if intact then RecordsInvalid else ChecksumMismatch)
    case WithRecords(intact, entries) =>
      if !intact then Err(ChecksumMismatch) else VerifiedEntries(digests, entries, windows)
  }

  method VerifyFreeze(digests: Digests, file: ManifestFile, windows: seq<Window>)
    returns (result: Result<Counts, FreezeError>)
    ensures result == VerifiedFile(digests, file, windows)
  {
    if file.Unreadable? {
      return Err(ManifestUnreadable);
    }
    if file.NotAnObject? {
      return Err(LookupFailed);
    }
    if !file.intact {
      return Err(ChecksumMismatch);
    }
    var current: map<int, string> := map[];
    for i := 0 to |windows|
      invariant current == Current(digests, windows[..i])
    {
      assert windows[..i + 1][..i] == windows[..i];
      current := current[windows[i].id := digests.window(windows[i])];
    }
    assert windows[..|windows|] == windows;
    if file.WithoutRecords? {
      return Err(RecordsInvalid);
    }
    var expected := ReadExpected(file.entries);
    if expected.None? {
      return Err(LookupFailed);
    }
    if !(expected.value.Keys <= current.Keys) {
      return Err(WindowMissing);
    }
    if exists id :: id in expected.value && id in current && current[id] != expected.value[id] {
      return Err(WindowChanged);
    }
    var counts := CountPartitions(file.entries);
    if counts.None? {
      return Err(LookupFailed);
    }
    var (three, others) := counts.value;
    if others > 0 || three.training == 0 || three.validation == 0 || three.evaluation == 0 {
      return Err(PartitionMissing);
    }
    return Ok(three);
  }

  // The dictionary of expected checksums, unless an entry lacks a key.
  method ReadExpected(entries: seq<Entry>) returns (expected: Option<map<int, string>>)
    ensures expected.Some? <==> AllKeyed(entries)
    ensures expected.Some? ==> expected.value == ExpectedOf(entries)
  {
    var table: map<int, string> := map[];
    for i := 0 to |entries|
      invariant AllKeyed(entries[..i]) && table == ExpectedOf(entries[..i])
    {
      assert entries[..i + 1][..i] == entries[..i];
      if entries[i].windowId.None? || entries[i].checksum.None? {
        return None;
      }
      table := table[entries[i].windowId.value := entries[i].checksum.value];
    }
    assert entries[..|entries|] == entries;
    return Some(table);
  }

  // The three partitions counted, and the entries with another one, unless an entry names none.
  method CountPartitions(entries: seq<Entry>) returns (counts: Option<(Counts, nat)>)
    ensures counts.Some? <==> AllPartitioned(entries)
    ensures counts.Some? ==>
              && counts.value.0 == Counts(Named(entries, "TRAIN"), Named(entries, "VALIDATION"), Named(entries, "EVALUATION"))
              && (counts.value.1 == 0 <==> forall i :: 0 <= i < |entries| ==>
                    entries[i].partition in {Some("TRAIN"), Some("VALIDATION"), Some("EVALUATION")})
  {
    var three, others := Counts(0, 0, 0), 0;
    for i := 0 to |entries|
      invariant AllPartitioned(entries[..i])
      invariant three == Counts(Named(entries[..i], "TRAIN"), Named(entries[..i], "VALIDATION"), Named(entries[..i], "EVALUATION"))
      invariant others == 0 <==> forall j :: 0 <= j < i ==>
                  entries[j].partition in {Some("TRAIN"), Some("VALIDATION"), Some("EVALUATION")}
    {
      assert entries[..i + 1][..i] == entries[..i];
      var partition := entries[i].partition;
      if partition.None? {
        return None;
      }
      if partition.value == "TRAIN" {
        three := three.(training := three.training + 1);
      } else if partition.value == "VALIDATION" {
        three := three.(validation := three.validation + 1);
      } else if partition.value == "EVALUATION" {
        three := three.(evaluation := three.evaluation + 1);
      } else {
        others := others + 1;
      }
    }
    assert entries[..|entries|] == entries;
    return Some((three, others));
  }

  // ---------------------------------------------------------------------
  // The file a built manifest is written to
  // ---------------------------------------------------------------------

  function EntryOf(record: Record): Entry {
    Entry(Some(record.windowId), Some(record.checksum), Some(NameOf(record.partition)))
  }

  function EntriesOf(records: seq<Record>): seq<Entry> {
    seq(|records|, i requires 0 <= i < |records| => EntryOf(records[i]))
  }

  function FileOf(digests: Digests, manifest: Manifest): ManifestFile {
    WithRecords(manifest.checksum == digests.base(manifest.base), EntriesOf(manifest.base.draft.records))
  }

  lemma {:induction false} EntriesMatch(records: seq<Record>)
    ensures AllKeyed(EntriesOf(records)) && ExpectedOf(EntriesOf(records)) == Expected(records)
    ensures forall partition :: Named(EntriesOf(records), NameOf(partition)) == CountOf(records, partition)
  {
    if records != [] {
      var n := |records| - 1;
      EntriesMatch(records[..n]);
      assert EntriesOf(records)[..n] == EntriesOf(records[..n]);
      assert forall p, q: Partition :: NameOf(p) == NameOf(q) <==> p == q;
    }
  }

  /** A written manifest, read back whole, verifies exactly as the manifest itself. */
  lemma WrittenManifestsVerifyAlike(digests: Digests, manifest: Manifest, windows: seq<Window>)
    ensures VerifiedFile(digests, FileOf(digests, manifest), windows) == VerifiedAgainst(digests, manifest, windows)
  {
    var records := manifest.base.draft.records;
    EntriesMatch(records);
    assert Named(EntriesOf(records), NameOf(Train)) == CountOf(records, Train);
    assert Named(EntriesOf(records), NameOf(Validation)) == CountOf(records, Validation);
    assert Named(EntriesOf(records), NameOf(Evaluation)) == CountOf(records, Evaluation);
  }
}
