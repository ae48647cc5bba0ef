/** No leakage: in a frozen corpus a participant's days follow each other from training
    through validation to evaluation, and no day is in two partitions. */
module Leakage {
  import opened Wrappers
  import opened Apportionment
  import opened Freeze

  function Stage(partition: Partition): nat {
    match partition case Train => 0 case Validation => 1 case Evaluation => 2
  }

  // The record carries the partition that its participant's split gives its day.
  ghost predicate IsAssigned(settings: SplitSettings, windows: seq<Window>, r: Record)
    requires settings.Valid()
  {
    && DaySplit(settings, windows, r.participant).Ok?
    && r.day in DaySplit(settings, windows, r.participant).value
    && r.partition == DaySplit(settings, windows, r.participant).value[r.day]
  }

  ghost predicate AllAssigned(settings: SplitSettings, windows: seq<Window>, records: seq<Record>)
    requires settings.Valid()
  {
    forall i :: 0 <= i < |records| ==> IsAssigned(settings, windows, records[i])
  }

  // The dictionary of assignments holds the split of every participant listed.
  ghost predicate Lists(settings: SplitSettings, windows: seq<Window>, participants: seq<int>,
                        assignments: map<int, map<int, Partition>>)
    requires settings.Valid()
  {
    && (forall p :: p in assignments <==> p in participants)
    && forall p :: p in assignments ==> DaySplit(settings, windows, p) == Ok(assignments[p])
  }

  lemma AddedIsAssigned(settings: SplitSettings, digests: Digests, windows: seq<Window>, draft: Draft, participant: int)
    requires settings.Valid() && DaySplit(settings, windows, participant).Ok?
    requires AllAssigned(settings, windows, draft.records)
    ensures AllAssigned(settings, windows, Added(settings, digests, windows, draft, participant).records)
  {
    EveryDayIsAssigned(settings, windows, participant);
    SortedMeans(windows, participant);
    var assignment, sorted := DaySplit(settings, windows, participant).value, Sorted(windows, participant);
    var more := RecordsOf(digests, assignment, sorted);
    forall i | 0 <= i < |more| ensures IsAssigned(settings, windows, more[i]) {
      assert sorted[i] in sorted;
      assert more[i] == MakeRecord(digests, assignment, sorted[i]);
    }
  }

  lemma ListGrows(settings: SplitSettings, windows: seq<Window>, before: seq<int>, last: int,
                  assignments: map<int, map<int, Partition>>)
    requires settings.Valid() && DaySplit(settings, windows, last).Ok? && Lists(settings, windows, before, assignments)
    ensures Lists(settings, windows, before + [last], assignments[last := DaySplit(settings, windows, last).value])
  {
  }

  ghost predicate Assigns(settings: SplitSettings, windows: seq<Window>, participants: seq<int>, draft: Draft)
    requires settings.Valid()
  {
    AllAssigned(settings, windows, draft.records) && Lists(settings, windows, participants, draft.assignments)
  }

  // One participant more.
  lemma AddedAssigns(settings: SplitSettings, digests: Digests, windows: seq<Window>, participants: seq<int>, draft: Draft)
    requires settings.Valid() && participants != []
    requires DaySplit(settings, windows, participants[|participants| - 1]).Ok?
    requires Assigns(settings, windows, participants[..|participants| - 1], draft)
    ensures Assigns(settings, windows, participants,
                    Added(settings, digests, windows, draft, participants[|participants| - 1]))
  {
    var before, last := participants[..|participants| - 1], participants[|participants| - 1];
    assert participants == before + [last];
    AddedIsAssigned(settings, digests, windows, draft, last);
    ListGrows(settings, windows, before, last, draft.assignments);
  }

  lemma NothingAssigned(settings: SplitSettings, windows: seq<Window>)
    requires settings.Valid()
    ensures Assigns(settings, windows, [], Draft(map[], []))
  {
  }

  // A draft ends with its last participant.
  lemma DraftEnds(settings: SplitSettings, digests: Digests, windows: seq<Window>, participants: seq<int>)
    requires settings.Valid() && Drafted(settings, digests, windows, participants).Ok? && participants != []
    ensures var before, last := participants[..|participants| - 1], participants[|participants| - 1];
            && Drafted(settings, digests, windows, before).Ok? && DaySplit(settings, windows, last).Ok?
            && Drafted(settings, digests, windows, participants).value
               == Added(settings, digests, windows, Drafted(settings, digests, windows, before).value, last)
  {
  }

  lemma {:induction false} DraftIsAssigned(settings: SplitSettings, digests: Digests, windows: seq<Window>,
                                           participants: seq<int>)
    requires settings.Valid() && Drafted(settings, digests, windows, participants).Ok?
    ensures Assigns(settings, windows, participants, Drafted(settings, digests, windows, participants).value)
    decreases |participants|
  {
    if participants == [] {
      NothingAssigned(settings, windows);
    } else {
      var before := participants[..|participants| - 1];
      DraftEnds(settings, digests, windows, participants);
      DraftIsAssigned(settings, digests, windows, before);
      AddedAssigns(settings, digests, windows, participants, Drafted(settings, digests, windows, before).value);
    }
  }

  // A later day of a split is never in an earlier stage.
  lemma StagesFollowTheDays(settings: SplitSettings, days: seq<int>, a: int, b: int)
    requires settings.Valid() && StrictlyAscending(days) && Partitioned(settings, days).Ok?
    requires a in Partitioned(settings, days).value && b in Partitioned(settings, days).value && a <= b
    ensures Stage(Partitioned(settings, days).value[a]) <= Stage(Partitioned(settings, days).value[b])
  {
    SplitIsContiguous(settings, days, 0);
    var i :| 0 <= i < |days| && days[i] == a;
    var j :| 0 <= j < |days| && days[j] == b;
    SplitIsContiguous(settings, days, i);
    SplitIsContiguous(settings, days, j);
  }

  /** Main result: in a built manifest no record of a participant is in an earlier stage than
      one of an earlier day, records of one day share their partition, and each carries the
      partition that the manifest's own assignments give its participant's day. */
  lemma StagesNeverMix(settings: SplitSettings, digests: Digests, eligible: Window -> bool, windows: seq<Window>,
                       version: string, frozenAt: int, configVersion: string, i: nat, j: nat)
    requires settings.Valid() && Built(settings, digests, eligible, windows, version, frozenAt, configVersion).Ok?
    requires var records := Built(settings, digests, eligible, windows, version, frozenAt, configVersion).value.base.draft.records;
             i < |records| && j < |records| && records[i].participant == records[j].participant
             && records[i].day <= records[j].day
    ensures var draft := Built(settings, digests, eligible, windows, version, frozenAt, configVersion).value.base.draft;
            var r, q := draft.records[i], draft.records[j];
            && Stage(r.partition) <= Stage(q.partition)
            && (r.day == q.day ==> r.partition == q.partition)
            && r.participant in draft.assignments && r.day in draft.assignments[r.participant]
            && r.partition == draft.assignments[r.participant][r.day]
  {
    var participants := SortedSet(ParticipantIds(windows));
    var draft := Drafted(settings, digests, windows, participants).value;
    DraftIsAssigned(settings, digests, windows, participants);
    var r, q := draft.records[i], draft.records[j];
    assert IsAssigned(settings, windows, r) && IsAssigned(settings, windows, q);
    var days := SortedSet(DaysOf(Group(windows, r.participant)));
    SortedSetMeans(DaysOf(Group(windows, r.participant)));
    StagesFollowTheDays(settings, days, r.day, q.day);
    var w := EveryRecordHasItsWindow(settings, digests, windows, participants, i);
    AllParticipantsListed(windows, w);
  }
}
