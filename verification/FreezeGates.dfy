/** When a manifest is built, and with which error it is refused. */
module FreezeGates {
  import opened Wrappers
  import opened Apportionment
  import opened Freeze

  /** A version is named with at least one character, all of them admitted. */
  predicate NamesAVersion(version: string) {
    |version| > 0 && forall c :: c in version ==> c in VERSION_CHARACTERS
  }

  // The distinct days on which a participant has windows.
  function DaysObserved(windows: seq<Window>, participant: int): set<int> {
    set i | 0 <= i < |windows| && windows[i].participant == participant :: windows[i].day
  }

  predicate EnoughDays(settings: SplitSettings, windows: seq<Window>, participant: int) {
    |DaysObserved(windows, participant)| >= settings.minDistinctDays && |DaysObserved(windows, participant)| >= 3
  }

  function Elements(days: seq<int>): set<int> {
    set d | d in days
  }

  lemma {:induction false} AscendingSize(days: seq<int>)
    requires StrictlyAscending(days)
    ensures |Elements(days)| == |days|
    decreases |days|
  {
    if days != [] {
      var before, last := days[..|days| - 1], days[|days| - 1];
      assert days == before + [last];
      assert Elements(days) == Elements(before) + {last} && last !in Elements(before);
      AscendingSize(before);
    }
  }

  lemma SplitNeedsDays(settings: SplitSettings, windows: seq<Window>, participant: int)
    requires settings.Valid()
    ensures NeedsDays(DaySplit(settings, windows, participant), EnoughDays(settings, windows, participant))
    ensures DaySplit(settings, windows, participant) == Err(TooFewDays) <==>
              |DaysObserved(windows, participant)| < settings.minDistinctDays
  {
    SortedSetMeans(DaysOf(Group(windows, participant)));
    DaysAreObserved(windows, participant);
    AscendingSize(SortedSet(DaysOf(Group(windows, participant))));
    assert DaysObserved(windows, participant) == Elements(SortedSet(DaysOf(Group(windows, participant))));
  }

  lemma DaysAreObserved(windows: seq<Window>, participant: int)
    ensures forall d :: d in DaysObserved(windows, participant) <==> d in SortedSet(DaysOf(Group(windows, participant)))
  {
    var group := Group(windows, participant);
    SortedSetMeans(DaysOf(group));
    GroupMeans(windows, participant);
    forall d ensures d in DaysObserved(windows, participant) <==> d in DaysOf(group) {
      if d in DaysObserved(windows, participant) {
        var i :| 0 <= i < |windows| && windows[i].participant == participant && windows[i].day == d;
        assert windows[i] in group;
        var j :| 0 <= j < |group| && group[j] == windows[i];
        assert DaysOf(group)[j] == d;
      }
      if d in DaysOf(group) {
        var j :| 0 <= j < |group| && DaysOf(group)[j] == d;
        assert group[j] in group;
        var i :| 0 <= i < |windows| && windows[i] == group[j];
      }
    }
  }

  predicate AllHaveDays(settings: SplitSettings, windows: seq<Window>, participants: seq<int>) {
    forall k :: 0 <= k < |participants| ==> EnoughDays(settings, windows, participants[k])
  }

  lemma OneMoreHasDays(settings: SplitSettings, windows: seq<Window>, before: seq<int>, last: int)
    ensures AllHaveDays(settings, windows, before + [last]) <==>
              AllHaveDays(settings, windows, before) && EnoughDays(settings, windows, last)
  {
    var participants := before + [last];
    assert participants[|before|] == last && forall k :: 0 <= k < |before| ==> participants[k] == before[k];
  }

  // Built exactly when there are days enough, and refused for their number otherwise.
  ghost predicate NeedsDays<T>(result: Result<T, FreezeError>, enough: bool) {
    (result.Ok? <==> enough) && (result.Err? ==> result.error in {TooFewDays, NoThreeWaySplit})
  }

  lemma {:induction false} DraftNeedsDays(settings: SplitSettings, digests: Digests, windows: seq<Window>,
                                          participants: seq<int>)
    requires settings.Valid()
    ensures NeedsDays(Drafted(settings, digests, windows, participants), AllHaveDays(settings, windows, participants))
    decreases |participants|
  {
    if participants != [] {
      var before, last := participants[..|participants| - 1], participants[|participants| - 1];
      DraftNeedsDays(settings, digests, windows, before);
      SplitNeedsDays(settings, windows, last);
      OneMoreNeedsDays(settings, digests, windows, before, last);
      assert participants == before + [last];
    }
  }

  lemma OneMoreNeedsDays(settings: SplitSettings, digests: Digests, windows: seq<Window>, before: seq<int>, last: int)
    requires settings.Valid()
    requires NeedsDays(Drafted(settings, digests, windows, before), AllHaveDays(settings, windows, before))
    requires NeedsDays(DaySplit(settings, windows, last), EnoughDays(settings, windows, last))
    ensures NeedsDays(Drafted(settings, digests, windows, before + [last]), AllHaveDays(settings, windows, before + [last]))
  {
    DraftingOneMore(settings, digests, windows, before, last);
    OneMoreHasDays(settings, windows, before, last);
  }

  lemma DraftingOneMore(settings: SplitSettings, digests: Digests, windows: seq<Window>, before: seq<int>, last: int)
    requires settings.Valid()
    ensures var draft := Drafted(settings, digests, windows, before + [last]);
            var earlier, split := Drafted(settings, digests, windows, before), DaySplit(settings, windows, last);
            && (draft.Ok? <==> earlier.Ok? && split.Ok?)
            && (draft.Err? ==> draft.error == if earlier.Err? then earlier.error else split.error)
  {
    assert (before + [last])[..|before|] == before;
  }

  /** Main result: a manifest is built exactly when the version is well named, every window is
      eligible, there is one, and every participant has enough distinct days for all three
      partitions; each refusal names the first of these that fails. */
  lemma BuildingIsExact(settings: SplitSettings, digests: Digests, eligible: Window -> bool, windows: seq<Window>,
                        version: string, frozenAt: int, configVersion: string)
    requires settings.Valid()
    ensures var result := Built(settings, digests, eligible, windows, version, frozenAt, configVersion);
            var named, admitted := NamesAVersion(version), forall i :: 0 <= i < |windows| ==> eligible(windows[i]);
            var enough := forall i :: 0 <= i < |windows| ==> EnoughDays(settings, windows, windows[i].participant);
            && (result.Ok? <==> named && admitted && windows != [] && enough)
            && (result == Err(BadVersion) <==> !named)
            && (result == Err(IneligibleWindow) <==> named && !admitted)
            && (result == Err(NoWindows) <==> named && admitted && windows == [])
            && (result.Err? && named && admitted && windows != [] ==> result.error in {TooFewDays, NoThreeWaySplit})
            && (result.Ok? ==>
                  && result.value.base.version == version && result.value.base.frozenAt == frozenAt
                  && result.value.base.configVersion == configVersion
                  && result.value.checksum == digests.base(result.value.base))
  {
    var participants := SortedSet(ParticipantIds(windows));
    DraftNeedsDays(settings, digests, windows, participants);
    ParticipantsHaveDays(settings, windows);
  }

  // Asking the participants is asking the windows.
  lemma ParticipantsHaveDays(settings: SplitSettings, windows: seq<Window>)
    ensures var participants := SortedSet(ParticipantIds(windows));
            AllHaveDays(settings, windows, participants) <==>
            (forall i :: 0 <= i < |windows| ==> EnoughDays(settings, windows, windows[i].participant))
  {
    var participants := SortedSet(ParticipantIds(windows));
    SortedSetMeans(ParticipantIds(windows));
    forall i | 0 <= i < |windows| ensures windows[i].participant in participants {
      assert ParticipantIds(windows)[i] == windows[i].participant;
    }
    forall k | 0 <= k < |participants| ensures exists i :: 0 <= i < |windows| && windows[i].participant == participants[k] {
      assert participants[k] in participants;
      var i :| 0 <= i < |windows| && ParticipantIds(windows)[i] == participants[k];
    }
  }
}
