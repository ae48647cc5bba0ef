/** Frozen corpora: building a manifest and verifying a corpus against it. */
module Freeze {
  import opened Wrappers
  import opened RiskTypes
  import opened Apportionment
  import Sorting

  // Identifiers and calendar days are compared by their order only.
  datatype Window = Window(
    id: int, participant: int, day: int, provenance: string, quality: WindowQuality, content: string)

  datatype Record = Record(
    windowId: int, participant: int, day: int, partition: Partition, checksum: string,
    provenance: string, quality: WindowQuality)

  datatype Draft = Draft(assignments: map<int, map<int, Partition>>, records: seq<Record>)

  datatype Base = Base(version: string, frozenAt: int, configVersion: string, draft: Draft)

  datatype Manifest = Manifest(base: Base, checksum: string)

  // SHA-256 of a window and of a manifest stay uninterpreted.
  datatype Digests = Digests(window: Window -> string, base: Base -> string)

  const VERSION_CHARACTERS := "abcdefghijklmnopqrstuvwxyzABCDEFGHIJKLMNOPQRSTUVWXYZ0123456789-_"

  predicate IsVersion(version: string) {
    version != "" && forall i :: 0 <= i < |version| ==> version[i] in VERSION_CHARACTERS
  }

  // ---------------------------------------------------------------------
  // Sorted sets
  // ---------------------------------------------------------------------

  function InsertOnce(x: int, xs: seq<int>): seq<int> {
    if xs == [] || x < xs[0] then [x] + xs
    else if x == xs[0] then xs
    else [xs[0]] + InsertOnce(x, xs[1..])
  }

  function SortedSet(xs: seq<int>): seq<int> {
    if xs == [] then [] else InsertOnce(xs[0], SortedSet(xs[1..]))
  }

  lemma {:induction false} InsertOnceMeans(x: int, xs: seq<int>)
    requires StrictlyAscending(xs)
    ensures StrictlyAscending(InsertOnce(x, xs))
    ensures forall y :: y in InsertOnce(x, xs) <==> y == x || y in xs
  {
    if xs != [] && x > xs[0] {
      InsertOnceMeans(x, xs[1..]);
      var rest := InsertOnce(x, xs[1..]);
      assert xs == [xs[0]] + xs[1..];
      forall i | 0 <= i < |rest| ensures xs[0] < rest[i] {
        assert rest[i] in rest;
      }
    }
  }

  lemma {:induction false} SortedSetMeans(xs: seq<int>)
    ensures StrictlyAscending(SortedSet(xs)) && forall y :: y in SortedSet(xs) <==> y in xs
  {
    if xs != [] {
      SortedSetMeans(xs[1..]);
      InsertOnceMeans(xs[0], SortedSet(xs[1..]));
      assert xs == [xs[0]] + xs[1..];
    }
  }

  // ---------------------------------------------------------------------
  // Grouping
  // ---------------------------------------------------------------------

  function Group(windows: seq<Window>, participant: int): seq<Window> {
    if windows == [] then []
    else
      var last := windows[|windows| - 1];
      Group(windows[..|windows| - 1], participant) + if last.participant == participant then [last] else []
  }

  function ParticipantIds(windows: seq<Window>): seq<int> {
    seq(|windows|, i requires 0 <= i < |windows| => windows[i].participant)
  }

  function DaysOf(windows: seq<Window>): seq<int> {
    seq(|windows|, i requires 0 <= i < |windows| => windows[i].day)
  }

  function ById(): Window -> Sorting.Key {
    (w: Window) => Sorting.Key(w.id, 0)
  }

  lemma {:induction false} GroupMeans(windows: seq<Window>, participant: int)
    ensures forall w :: w in Group(windows, participant) <==> w in windows && w.participant == participant
  {
    if windows != [] {
      GroupMeans(windows[..|windows| - 1], participant);
      assert windows == windows[..|windows| - 1] + [windows[|windows| - 1]];
    }
  }

  // ---------------------------------------------------------------------
  // Building
  // ---------------------------------------------------------------------

  function MakeRecord(digests: Digests, assignment: map<int, Partition>, w: Window): Record
    requires w.day in assignment
  {
    Record(w.id, w.participant, w.day, assignment[w.day], digests.window(w), w.provenance, w.quality)
  }

  function RecordsOf(digests: Digests, assignment: map<int, Partition>, windows: seq<Window>): seq<Record>
    requires forall i :: 0 <= i < |windows| ==> windows[i].day in assignment
  {
    seq(|windows|, i requires 0 <= i < |windows| => MakeRecord(digests, assignment, windows[i]))
  }

  // A participant's windows in id order.
  function Sorted(windows: seq<Window>, participant: int): seq<Window> {
    Sorting.Sort(Group(windows, participant), ById())
  }

  function DaySplit(settings: SplitSettings, windows: seq<Window>,
                    participant: int): Result<map<int, Partition>, FreezeError>
    requires settings.Valid()
  {
    Partitioned(settings, SortedSet(DaysOf(Group(windows, participant))))
  }

  lemma {:induction false} SortedMeans(windows: seq<Window>, participant: int)
    ensures |Sorted(windows, participant)| == |Group(windows, participant)|
    ensures forall w :: w in Sorted(windows, participant) <==> w in windows && w.participant == participant
  {
    var group, sorted := Group(windows, participant), Sorted(windows, participant);
    Sorting.SortIsAscendingPermutation(group, ById());
    GroupMeans(windows, participant);
    assert |multiset(sorted)| == |multiset(group)|;
    forall w ensures w in sorted <==> w in group {
      assert w in sorted <==> w in multiset(sorted);
      assert w in group <==> w in multiset(group);
    }
  }

  // Every day of a participant's windows is assigned to a partition.
  lemma EveryDayIsAssigned(settings: SplitSettings, windows: seq<Window>, participant: int)
    requires settings.Valid() && DaySplit(settings, windows, participant).Ok?
    ensures forall w :: w in Sorted(windows, participant) ==> w.day in DaySplit(settings, windows, participant).value
  {
    var group := Group(windows, participant);
    var days := SortedSet(DaysOf(group));
    SortedSetMeans(DaysOf(group));
    AssignedMeans(settings, |days|, days);
    SortedMeans(windows, participant);
    GroupMeans(windows, participant);
    forall w | w in Sorted(windows, participant) ensures w.day in DaySplit(settings, windows, participant).value {
      var i :| 0 <= i < |group| && group[i] == w;
      assert DaysOf(group)[i] == w.day;
    }
  }

  function Added(settings: SplitSettings, digests: Digests, windows: seq<Window>, draft: Draft, participant: int): Draft
    requires settings.Valid() && DaySplit(settings, windows, participant).Ok?
  {
    var assignment := DaySplit(settings, windows, participant).value;
    EveryDayIsAssigned(settings, windows, participant);
    Draft(draft.assignments[participant := assignment],
          draft.records + RecordsOf(digests, assignment, Sorted(windows, participant)))
  }

  function Drafted(settings: SplitSettings, digests: Digests, windows: seq<Window>,
                   participants: seq<int>): Result<Draft, FreezeError>
    requires settings.Valid()
    decreases |participants|
  {
    if participants == [] then Ok(Draft(map[], []))
    else
      var before := Drafted(settings, digests, windows, participants[..|participants| - 1]);
      var split := DaySplit(settings, windows, participants[|participants| - 1]);
      if before.Err? then before
      else if split.Err? then Err(split.error)
      else Ok(Added(settings, digests, windows, before.value, participants[|participants| - 1]))
  }

  predicate AllEligible(eligible: Window -> bool, windows: seq<Window>) {
    forall i :: 0 <= i < |windows| ==> eligible(windows[i])
  }

  function Built(settings: SplitSettings, digests: Digests, eligible: Window -> bool, windows: seq<Window>,
                 version: string, frozenAt: int, configVersion: string): Result<Manifest, FreezeError>
    requires settings.Valid()
  {
    if !IsVersion(version) then Err(BadVersion)
    else if !AllEligible(eligible, windows) then Err(IneligibleWindow)
    else if windows == [] then Err(NoWindows)
    else
      var draft := Drafted(settings, digests, windows, SortedSet(ParticipantIds(windows)));
      if draft.Err? then Err(draft.error)
      else
        var base := Base(version, frozenAt, configVersion, draft.value);
        Ok(Manifest(base, digests.base(base)))
  }

  // The dictionary of lists that the eligibility loop fills.
  function Grouped(windows: seq<Window>): map<int, seq<Window>> {
    if windows == [] then map[]
    else
      var before, w := Grouped(windows[..|windows| - 1]), windows[|windows| - 1];
      before[w.participant := (if w.participant in before then before[w.participant] else []) + [w]]
  }

  lemma {:induction false} GroupedMeans(windows: seq<Window>, participant: int)
    ensures participant in Grouped(windows) <==> Group(windows, participant) != []
    ensures participant in Grouped(windows) ==> Grouped(windows)[participant] == Group(windows, participant)
  {
    if windows != [] {
      GroupedMeans(windows[..|windows| - 1], participant);
    }
  }

  method GroupWindows(eligible: Window -> bool, windows: seq<Window>)
    returns (result: Result<map<int, seq<Window>>, FreezeError>)
    ensures result == if AllEligible(eligible, windows) then Ok(Grouped(windows)) else Err(IneligibleWindow)
  {
    var grouped: map<int, seq<Window>> := map[];
    for i := 0 to |windows|
      invariant forall j :: 0 <= j < i ==> eligible(windows[j])
      invariant grouped == Grouped(windows[..i])
    {
      assert windows[..i + 1][..i] == windows[..i];
      var w := windows[i];
      if !eligible(w) {
        return Err(IneligibleWindow);
      }
      grouped := grouped[w.participant := (if w.participant in grouped then grouped[w.participant] else []) + [w]];
    }
    assert windows[..|windows|] == windows;
    return Ok(grouped);
  }

  // Every listed participant has a group.
  lemma ListedHasGroup(windows: seq<Window>, i: nat)
    requires i < |SortedSet(ParticipantIds(windows))|
    ensures var p := SortedSet(ParticipantIds(windows))[i];
            p in Grouped(windows) && Grouped(windows)[p] == Group(windows, p)
  {
    var p := SortedSet(ParticipantIds(windows))[i];
    SortedSetMeans(ParticipantIds(windows));
    assert p in ParticipantIds(windows);
    var j :| 0 <= j < |windows| && ParticipantIds(windows)[j] == p;
    GroupMeans(windows, p);
    assert windows[j] in Group(windows, p);
    GroupedMeans(windows, p);
  }

  // The loop over the participants in order.
  method DraftRecords(settings: SplitSettings, digests: Digests, windows: seq<Window>, grouped: map<int, seq<Window>>)
    returns (result: Result<Draft, FreezeError>)
    requires settings.Valid() && grouped == Grouped(windows)
    ensures result == Drafted(settings, digests, windows, SortedSet(ParticipantIds(windows)))
  {
    var participants := SortedSet(ParticipantIds(windows));
    var draft := Draft(map[], []);
    for i := 0 to |participants|
      invariant Drafted(settings, digests, windows, participants[..i]) == Ok(draft)
    {
      ListedHasGroup(windows, i);
      DraftingGoesOn(settings, digests, windows, participants, i);
      var p := participants[i];
      var split := PartitionDays(settings, SortedSet(DaysOf(grouped[p])));
      if split.Err? {
        DraftingStops(settings, digests, windows, participants, i + 1);
        return Err(split.error);
      }
      draft := AddParticipant(settings, digests, windows, draft, p, grouped[p], split.value);
    }
    assert participants[..|participants|] == participants;
    return Ok(draft);
  }

  lemma DraftingGoesOn(settings: SplitSettings, digests: Digests, windows: seq<Window>, participants: seq<int>, i: nat)
    requires settings.Valid() && i < |participants| && Drafted(settings, digests, windows, participants[..i]).Ok?
    ensures var split := DaySplit(settings, windows, participants[i]);
            Drafted(settings, digests, windows, participants[..i + 1]) ==
            if split.Err? then Err(split.error)
            else Ok(Added(settings, digests, windows, Drafted(settings, digests, windows, participants[..i]).value, participants[i]))
  {
    assert participants[..i + 1][..i] == participants[..i];
  }

  // One participant's day assignment, and one record for each of the windows in id order.
  method AddParticipant(settings: SplitSettings, digests: Digests, windows: seq<Window>, draft: Draft,
                        participant: int, own: seq<Window>, assignment: map<int, Partition>) returns (extended: Draft)
    requires settings.Valid() && own == Group(windows, participant)
    requires DaySplit(settings, windows, participant) == Ok(assignment)
    ensures extended == Added(settings, digests, windows, draft, participant)
  {
    EveryDayIsAssigned(settings, windows, participant);
    var records := MakeRecords(digests, assignment, Sorting.Sort(own, ById()));
    extended := Draft(draft.assignments[participant := assignment], draft.records + records);
  }

  method MakeRecords(digests: Digests, assignment: map<int, Partition>, sorted: seq<Window>)
    returns (records: seq<Record>)
    requires forall w :: w in sorted ==> w.day in assignment
    ensures records == RecordsOf(digests, assignment, sorted)
  {
    records := [];
    for i := 0 to |sorted|
      invariant |records| == i && forall j :: 0 <= j < i ==> records[j] == MakeRecord(digests, assignment, sorted[j])
    {
      assert sorted[i] in sorted;
      records := records + [MakeRecord(digests, assignment, sorted[i])];
    }
  }

  method ManifestDocument(settings: SplitSettings, digests: Digests, eligible: Window -> bool, windows: seq<Window>,
                          version: string, frozenAt: int, configVersion: string)
    returns (result: Result<Manifest, FreezeError>)
    requires settings.Valid()
    ensures result == Built(settings, digests, eligible, windows, version, frozenAt, configVersion)
  {
    if !IsVersion(version) {
      return Err(BadVersion);
    }
    var grouped := GroupWindows(eligible, windows);
    if grouped.Err? {
      return Err(grouped.error);
    }
    if windows == [] {
      return Err(NoWindows);
    }
    var draft := DraftRecords(settings, digests, windows, grouped.value);
    if draft.Err? {
      return Err(draft.error);
    }
    var base := Base(version, frozenAt, configVersion, draft.value);
    return Ok(Manifest(base, digests.base(base)));
  }

  lemma {:induction false} DraftingStops(settings: SplitSettings, digests: Digests, windows: seq<Window>,
                                         participants: seq<int>, n: nat)
    requires settings.Valid() && n <= |participants| && Drafted(settings, digests, windows, participants[..n]).Err?
    ensures Drafted(settings, digests, windows, participants) == Drafted(settings, digests, windows, participants[..n])
    decreases |participants|
  {
    if n == |participants| {
      assert participants[..n] == participants;
    } else {
      assert participants[..|participants| - 1][..n] == participants[..n];
      DraftingStops(settings, digests, windows, participants[..|participants| - 1], n);
    }
  }

  // ---------------------------------------------------------------------
  // Verifying
  // ---------------------------------------------------------------------

  // Dictionaries keyed by window id: the last entry of an id stays.
  function Current(digests: Digests, windows: seq<Window>): map<int, string> {
    if windows == [] then map[]
    else Current(digests, windows[..|windows| - 1])[windows[|windows| - 1].id := digests.window(windows[|windows| - 1])]
  }

  function Expected(records: seq<Record>): map<int, string> {
    if records == [] then map[]
    else Expected(records[..|records| - 1])[records[|records| - 1].windowId := records[|records| - 1].checksum]
  }

  function CountOf(records: seq<Record>, partition: Partition): nat {
    if records == [] then 0
    else CountOf(records[..|records| - 1], partition) + if records[|records| - 1].partition == partition then 1 else 0
  }

  datatype Counts = Counts(training: nat, validation: nat, evaluation: nat)

  function CountsOf(records: seq<Record>): Counts {
    Counts(CountOf(records, Train), CountOf(records, Validation), CountOf(records, Evaluation))
  }

  function VerifiedAgainst(digests: Digests, manifest: Manifest, windows: seq<Window>): Result<Counts, FreezeError> {
    var records := manifest.base.draft.records;
    var current, expected := Current(digests, windows), Expected(records);
    if manifest.checksum != digests.base(manifest.base) then Err(ChecksumMismatch)
    else if !(expected.Keys <= current.Keys) then Err(WindowMissing)
    else if exists id :: id in expected && id in current && current[id] != expected[id] then Err(WindowChanged)
    else if CountOf(records, Train) == 0 || CountOf(records, Validation) == 0 || CountOf(records, Evaluation) == 0 then
      Err(PartitionMissing)
    else Ok(CountsOf(records))
  }

  // ---------------------------------------------------------------------
  // What a built manifest records
  // ---------------------------------------------------------------------

  predicate Describes(digests: Digests, r: Record, w: Window) {
    && r.windowId == w.id && r.participant == w.participant && r.day == w.day && r.checksum == digests.window(w)
    && r.provenance == w.provenance && r.quality == w.quality
  }

  ghost predicate Recorded(digests: Digests, records: seq<Record>, w: Window) {
    exists i :: 0 <= i < |records| && Describes(digests, records[i], w)
  }

  lemma RecordedGrows(digests: Digests, records: seq<Record>, more: seq<Record>, w: Window)
    requires Recorded(digests, records, w) || Recorded(digests, more, w)
    ensures Recorded(digests, records + more, w)
  {
    if Recorded(digests, records, w) {
      var i :| 0 <= i < |records| && Describes(digests, records[i], w);
      assert (records + more)[i] == records[i];
    } else {
      var i :| 0 <= i < |more| && Describes(digests, more[i], w);
      assert (records + more)[|records| + i] == more[i];
    }
  }

  /** Every window of a drafted participant has its record. */
  lemma {:induction false} EveryWindowIsRecorded(
    settings: SplitSettings, digests: Digests, windows: seq<Window>, participants: seq<int>, w: Window)
    requires settings.Valid() && Drafted(settings, digests, windows, participants).Ok?
    requires w in windows && w.participant in participants
    ensures Recorded(digests, Drafted(settings, digests, windows, participants).value.records, w)
    decreases |participants|
  {
    var before, last := participants[..|participants| - 1], participants[|participants| - 1];
    var draft := Drafted(settings, digests, windows, before).value;
    assert participants == before + [last];
    EveryDayIsAssigned(settings, windows, last);
    var sorted := Sorted(windows, last);
    var more := RecordsOf(digests, DaySplit(settings, windows, last).value, sorted);
    if w.participant == last {
      SortedMeans(windows, last);
      assert w in sorted;
      var i :| 0 <= i < |sorted| && sorted[i] == w;
      assert Describes(digests, more[i], w);
    } else {
      EveryWindowIsRecorded(settings, digests, windows, before, w);
    }
    RecordedGrows(digests, draft.records, more, w);
  }

  /** Every record describes a supplied window. */
  lemma {:induction false} EveryRecordHasItsWindow(
    settings: SplitSettings, digests: Digests, windows: seq<Window>, participants: seq<int>, i: nat) returns (w: Window)
    requires settings.Valid() && Drafted(settings, digests, windows, participants).Ok?
    requires i < |Drafted(settings, digests, windows, participants).value.records|
    ensures w in windows && Describes(digests, Drafted(settings, digests, windows, participants).value.records[i], w)
    decreases |participants|
  {
    var before, last := participants[..|participants| - 1], participants[|participants| - 1];
    var draft := Drafted(settings, digests, windows, before).value;
    if i < |draft.records| {
      w := EveryRecordHasItsWindow(settings, digests, windows, before, i);
    } else {
      w := AddedRecordHasItsWindow(settings, digests, windows, draft, last, i);
    }
  }

  lemma AddedRecordHasItsWindow(
    settings: SplitSettings, digests: Digests, windows: seq<Window>, draft: Draft, participant: int, i: nat) returns (w: Window)
    requires settings.Valid() && DaySplit(settings, windows, participant).Ok?
    requires |draft.records| <= i < |Added(settings, digests, windows, draft, participant).records|
    ensures w in windows && Describes(digests, Added(settings, digests, windows, draft, participant).records[i], w)
  {
    EveryDayIsAssigned(settings, windows, participant);
    SortedMeans(windows, participant);
    var sorted := Sorted(windows, participant);
    w := sorted[i - |draft.records|];
    assert w in sorted;
    assert RecordsOf(digests, DaySplit(settings, windows, participant).value, sorted)[i - |draft.records|].windowId == w.id;
  }

  // ---------------------------------------------------------------------
  // How many records
  // ---------------------------------------------------------------------

  function Total(windows: seq<Window>, participants: seq<int>): nat {
    if participants == [] then 0
    else Total(windows, participants[..|participants| - 1]) + |Group(windows, participants[|participants| - 1])|
  }

  lemma {:induction false} DraftTotals(settings: SplitSettings, digests: Digests, windows: seq<Window>,
                                       participants: seq<int>)
    requires settings.Valid() && Drafted(settings, digests, windows, participants).Ok?
    ensures |Drafted(settings, digests, windows, participants).value.records| == Total(windows, participants)
    decreases |participants|
  {
    if participants != [] {
      DraftTotals(settings, digests, windows, participants[..|participants| - 1]);
      SortedMeans(windows, participants[|participants| - 1]);
    }
  }

  // One window more adds one to the group of its participant only.
  lemma {:induction false} TotalOfOneMore(windows: seq<Window>, w: Window, participants: seq<int>)
    requires StrictlyAscending(participants)
    ensures Total(windows + [w], participants) == Total(windows, participants) + if w.participant in participants then 1 else 0
    decreases |participants|
  {
    if participants != [] {
      var before, last := participants[..|participants| - 1], participants[|participants| - 1];
      TotalOfOneMore(windows, w, before);
      assert (windows + [w])[..|windows|] == windows;
      assert participants == before + [last];
      if w.participant == last {
        assert w.participant !in before;
      }
    }
  }

  lemma {:induction false} GroupsPartitionTheWindows(windows: seq<Window>, participants: seq<int>)
    requires StrictlyAscending(participants)
    requires forall i :: 0 <= i < |windows| ==> windows[i].participant in participants
    ensures Total(windows, participants) == |windows|
    decreases |windows|
  {
    if windows == [] {
      NoWindowsNoTotal(participants);
    } else {
      var before, last := windows[..|windows| - 1], windows[|windows| - 1];
      forall i | 0 <= i < |before| ensures before[i].participant in participants {
        assert before[i] == windows[i];
      }
      GroupsPartitionTheWindows(before, participants);
      TotalOfOneMore(before, last, participants);
      assert before + [last] == windows;
    }
  }

  lemma {:induction false} NoWindowsNoTotal(participants: seq<int>)
    ensures Total([], participants) == 0
    decreases |participants|
  {
    if participants != [] {
      NoWindowsNoTotal(participants[..|participants| - 1]);
    }
  }

  lemma {:induction false} CountsAddUp(records: seq<Record>)
    ensures CountOf(records, Train) + CountOf(records, Validation) + CountOf(records, Evaluation) == |records|
  {
    if records != [] {
      CountsAddUp(records[..|records| - 1]);
    }
  }

  /** A manifest records every window exactly as often as it was supplied. */
  lemma ManifestCountsWindows(settings: SplitSettings, digests: Digests, eligible: Window -> bool, windows: seq<Window>,
                              version: string, frozenAt: int, configVersion: string)
    requires settings.Valid()
    ensures var built := Built(settings, digests, eligible, windows, version, frozenAt, configVersion);
            built.Ok? ==> |built.value.base.draft.records| == |windows|
  {
    var participants := SortedSet(ParticipantIds(windows));
    SortedSetMeans(ParticipantIds(windows));
    forall i | 0 <= i < |windows| ensures windows[i].participant in participants {
      assert ParticipantIds(windows)[i] == windows[i].participant;
    }
    GroupsPartitionTheWindows(windows, participants);
    if Drafted(settings, digests, windows, participants).Ok? {
      DraftTotals(settings, digests, windows, participants);
    }
  }

  // ---------------------------------------------------------------------
  // All three partitions
  // ---------------------------------------------------------------------

  lemma {:induction false} CountFinds(records: seq<Record>, i: nat)
    requires i < |records|
    ensures CountOf(records, records[i].partition) > 0
    decreases |records|
  {
    if i < |records| - 1 {
      CountFinds(records[..|records| - 1], i);
    }
  }

  lemma {:induction false} CountAppend(records: seq<Record>, more: seq<Record>, partition: Partition)
    ensures CountOf(records + more, partition) == CountOf(records, partition) + CountOf(more, partition)
    decreases |more|
  {
    if more == [] {
      assert records + more == records;
    } else {
      CountAppend(records, more[..|more| - 1], partition);
      assert (records + more)[..|records + more| - 1] == records + more[..|more| - 1];
    }
  }

  // The day at an index of a participant's calendar has a record in that day's partition.
  lemma DayHasRecord(settings: SplitSettings, digests: Digests, windows: seq<Window>, participant: int, i: nat)
    requires settings.Valid() && DaySplit(settings, windows, participant).Ok?
    requires i < |SortedSet(DaysOf(Group(windows, participant)))|
    requires forall w :: w in Sorted(windows, participant) ==> w.day in DaySplit(settings, windows, participant).value
    ensures var days := SortedSet(DaysOf(Group(windows, participant)));
            CountOf(RecordsOf(digests, DaySplit(settings, windows, participant).value, Sorted(windows, participant)),
                    PartitionAt(settings, |days|, i)) > 0
  {
    var group, sorted := Group(windows, participant), Sorted(windows, participant);
    var days := SortedSet(DaysOf(group));
    var assignment := DaySplit(settings, windows, participant).value;
    SortedSetMeans(DaysOf(group));
    AssignedMeans(settings, |days|, days);
    assert AssignedAt(settings, |days|, days, i);
    assert days[i] in DaysOf(group);
    var j :| 0 <= j < |group| && DaysOf(group)[j] == days[i];
    GroupMeans(windows, participant);
    SortedMeans(windows, participant);
    assert group[j] in group;
    var k :| 0 <= k < |sorted| && sorted[k] == group[j];
    CountFinds(RecordsOf(digests, assignment, sorted), k);
  }

  lemma ParticipantHasAllPartitions(settings: SplitSettings, digests: Digests, windows: seq<Window>, draft: Draft,
                                    participant: int, partition: Partition)
    requires settings.Valid() && DaySplit(settings, windows, participant).Ok?
    ensures CountOf(Added(settings, digests, windows, draft, participant).records, partition) > 0
  {
    var days := SortedSet(DaysOf(Group(windows, participant)));
    var assignment := DaySplit(settings, windows, participant).value;
    EveryDayIsAssigned(settings, windows, participant);
    SplitIsFair(settings, |days|);
    var i := if partition == Train then 0
             else if partition == Validation then TrainEnd(settings, |days|)
             else ValidationEnd(settings, |days|);
    assert PartitionAt(settings, |days|, i) == partition;
    DayHasRecord(settings, digests, windows, participant, i);
    CountAppend(draft.records, RecordsOf(digests, assignment, Sorted(windows, participant)), partition);
  }

  // ---------------------------------------------------------------------
  // Verification means agreement
  // ---------------------------------------------------------------------

  ghost predicate UniqueWindows(windows: seq<Window>) {
    forall v, w :: v in windows && w in windows && v.id == w.id ==> v == w
  }

  lemma {:induction false} CurrentHas(digests: Digests, windows: seq<Window>, w: Window)
    requires w in windows
    ensures w.id in Current(digests, windows)
    decreases |windows|
  {
    var before, last := windows[..|windows| - 1], windows[|windows| - 1];
    assert windows == before + [last];
    if w != last {
      CurrentHas(digests, before, w);
    }
  }

  lemma {:induction false} CurrentEntry(digests: Digests, windows: seq<Window>, id: int) returns (w: Window)
    requires id in Current(digests, windows)
    ensures w in windows && w.id == id && Current(digests, windows)[id] == digests.window(w)
    decreases |windows|
  {
    var before, last := windows[..|windows| - 1], windows[|windows| - 1];
    assert windows == before + [last];
    w := last;
    if last.id != id {
      w := CurrentEntry(digests, before, id);
    }
  }

  lemma {:induction false} ExpectedHas(records: seq<Record>, i: nat)
    requires i < |records|
    ensures records[i].windowId in Expected(records)
    decreases |records|
  {
    if i < |records| - 1 {
      ExpectedHas(records[..|records| - 1], i);
    }
  }

  lemma {:induction false} ExpectedEntry(records: seq<Record>, id: int) returns (i: nat)
    requires id in Expected(records)
    ensures i < |records| && records[i].windowId == id && Expected(records)[id] == records[i].checksum
    decreases |records|
  {
    i := |records| - 1;
    if records[i].windowId != id {
      i := ExpectedEntry(records[..i], id);
    }
  }

  // What the manifest of distinct windows expects of each of them.
  lemma ManifestExpects(settings: SplitSettings, digests: Digests, windows: seq<Window>, participants: seq<int>,
                        w: Window)
    requires settings.Valid() && Drafted(settings, digests, windows, participants).Ok?
    requires UniqueWindows(windows) && w in windows && w.participant in participants
    ensures var expected := Expected(Drafted(settings, digests, windows, participants).value.records);
            w.id in expected && expected[w.id] == digests.window(w)
  {
    var records := Drafted(settings, digests, windows, participants).value.records;
    EveryWindowIsRecorded(settings, digests, windows, participants, w);
    var i :| 0 <= i < |records| && Describes(digests, records[i], w);
    ExpectedHas(records, i);
    var j := ExpectedEntry(records, w.id);
    var v := EveryRecordHasItsWindow(settings, digests, windows, participants, j);
    assert v == w;
  }

  lemma ManifestExpectsNoOther(settings: SplitSettings, digests: Digests, windows: seq<Window>,
                               participants: seq<int>, id: int)
    returns (w: Window)
    requires settings.Valid() && Drafted(settings, digests, windows, participants).Ok?
    requires id in Expected(Drafted(settings, digests, windows, participants).value.records)
    ensures w in windows && w.id == id
  {
    var i := ExpectedEntry(Drafted(settings, digests, windows, participants).value.records, id);
    w := EveryRecordHasItsWindow(settings, digests, windows, participants, i);
  }

  lemma AllParticipantsListed(windows: seq<Window>, w: Window)
    requires w in windows
    ensures w.participant in SortedSet(ParticipantIds(windows))
  {
    SortedSetMeans(ParticipantIds(windows));
    var i :| 0 <= i < |windows| && windows[i] == w;
    assert ParticipantIds(windows)[i] == w.participant;
  }

  lemma DraftHasAllPartitions(settings: SplitSettings, digests: Digests, windows: seq<Window>, participants: seq<int>,
                              partition: Partition)
    requires settings.Valid() && Drafted(settings, digests, windows, participants).Ok? && participants != []
    ensures CountOf(Drafted(settings, digests, windows, participants).value.records, partition) > 0
  {
    var before, last := participants[..|participants| - 1], participants[|participants| - 1];
    ParticipantHasAllPartitions(settings, digests, windows, Drafted(settings, digests, windows, before).value, last,
                                partition);
  }

  ghost predicate Injective(digests: Digests) {
    && (forall v, w :: digests.window(v) == digests.window(w) ==> v == w)
    && (forall a, b :: digests.base(a) == digests.base(b) ==> a == b)
  }

  // With distinct ids and an injective digest, the dictionary knows a window exactly when
  // the corpus holds it.
  lemma CurrentOfUnique(digests: Digests, windows: seq<Window>, w: Window)
    requires UniqueWindows(windows) && Injective(digests)
    ensures w in windows <==> w.id in Current(digests, windows) && Current(digests, windows)[w.id] == digests.window(w)
  {
    if w in windows {
      CurrentHas(digests, windows, w);
    }
    if w.id in Current(digests, windows) {
      var v := CurrentEntry(digests, windows, w.id);
      assert w in windows ==> v == w;
    }
  }

  predicate Agrees(current: map<int, string>, expected: map<int, string>) {
    forall id :: id in expected ==> id in current && current[id] == expected[id]
  }

  // The two dictionary checks together.
  lemma VerificationIsAgreement(digests: Digests, manifest: Manifest, windows: seq<Window>)
    requires manifest.checksum == digests.base(manifest.base)
    requires forall partition :: CountOf(manifest.base.draft.records, partition) > 0
    ensures VerifiedAgainst(digests, manifest, windows).Ok? <==>
              Agrees(Current(digests, windows), Expected(manifest.base.draft.records))
    ensures VerifiedAgainst(digests, manifest, windows).Ok? ==>
              VerifiedAgainst(digests, manifest, windows).value == CountsOf(manifest.base.draft.records)
  {
    var current, expected := Current(digests, windows), Expected(manifest.base.draft.records);
    if expected.Keys <= current.Keys {
      forall id | id in expected ensures id in current {
        assert id in expected.Keys && id in current.Keys;
      }
    }
    if Agrees(current, expected) {
      forall id | id in expected.Keys ensures id in current.Keys {
        assert id in expected;
      }
      assert expected.Keys <= current.Keys;
    }
  }

  /** Main result: a manifest verifies against a corpus exactly when every frozen window is
      still there unchanged. Windows may have been added; none may be missing or differ. */
  lemma VerifiesExactlySupersets(settings: SplitSettings, digests: Digests, eligible: Window -> bool,
                                 windows: seq<Window>,
                                 version: string, frozenAt: int, configVersion: string, corpus: seq<Window>)
    requires settings.Valid() && Injective(digests) && UniqueWindows(windows) && UniqueWindows(corpus)
    requires Built(settings, digests, eligible, windows, version, frozenAt, configVersion).Ok?
    ensures var manifest := Built(settings, digests, eligible, windows, version, frozenAt, configVersion).value;
            VerifiedAgainst(digests, manifest, corpus).Ok? <==> forall w :: w in windows ==> w in corpus
  {
    var manifest := Built(settings, digests, eligible, windows, version, frozenAt, configVersion).value;
    var participants := SortedSet(ParticipantIds(windows));
    AllParticipantsListed(windows, windows[0]);
    forall partition ensures CountOf(manifest.base.draft.records, partition) > 0 {
      DraftHasAllPartitions(settings, digests, windows, participants, partition);
    }
    VerificationIsAgreement(digests, manifest, corpus);
    AgreementIsInclusion(settings, digests, windows, participants, corpus);
  }

  // For one frozen window: it is in the corpus exactly when the dictionaries agree on it.
  lemma WindowAgreement(settings: SplitSettings, digests: Digests, windows: seq<Window>, participants: seq<int>,
                        corpus: seq<Window>, w: Window)
    requires settings.Valid() && Injective(digests) && UniqueWindows(windows) && UniqueWindows(corpus)
    requires Drafted(settings, digests, windows, participants).Ok?
    requires w in windows && w.participant in participants
    ensures var expected := Expected(Drafted(settings, digests, windows, participants).value.records);
            var current := Current(digests, corpus);
            w.id in expected && (w in corpus <==> w.id in current && current[w.id] == expected[w.id])
  {
    ManifestExpects(settings, digests, windows, participants, w);
    CurrentOfUnique(digests, corpus, w);
  }

  lemma AgreementIsInclusion(settings: SplitSettings, digests: Digests, windows: seq<Window>, participants: seq<int>,
                             corpus: seq<Window>)
    requires settings.Valid() && Injective(digests) && UniqueWindows(windows) && UniqueWindows(corpus)
    requires participants == SortedSet(ParticipantIds(windows))
    requires Drafted(settings, digests, windows, participants).Ok?
    ensures Agrees(Current(digests, corpus), Expected(Drafted(settings, digests, windows, participants).value.records))
            <==> forall w :: w in windows ==> w in corpus
  {
    var expected, current := Expected(Drafted(settings, digests, windows, participants).value.records), Current(digests, corpus);
    forall w | w in windows
      ensures w.id in expected && (w in corpus <==> w.id in current && current[w.id] == expected[w.id])
    {
      AllParticipantsListed(windows, w);
      WindowAgreement(settings, digests, windows, participants, corpus, w);
    }
    forall id | id in expected ensures exists w :: w in windows && w.id == id {
      var w := ManifestExpectsNoOther(settings, digests, windows, participants, id);
    }
    InclusionFrom(expected, current, windows, corpus);
  }

  lemma InclusionFrom(expected: map<int, string>, current: map<int, string>, windows: seq<Window>, corpus: seq<Window>)
    requires forall w :: w in windows ==> w.id in expected && (w in corpus <==> w.id in current && current[w.id] == expected[w.id])
    requires forall id :: id in expected ==> exists w :: w in windows && w.id == id
    ensures Agrees(current, expected) <==> forall w :: w in windows ==> w in corpus
  {
  }

  /** A manifest altered in any way under its old checksum never verifies. */
  lemma AlteredManifestsFail(digests: Digests, manifest: Manifest, altered: Base, windows: seq<Window>)
    requires Injective(digests) && VerifiedAgainst(digests, manifest, windows).Ok? && altered != manifest.base
    ensures VerifiedAgainst(digests, Manifest(altered, manifest.checksum), windows) == Err(ChecksumMismatch)
  {
  }
}
