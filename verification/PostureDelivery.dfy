/** What the sink receives: transitions are made under the lock and delivered outside it. */
module PostureDelivery {
  import opened Wrappers
  import opened RiskTypes
  import opened Postures
  import opened PostureLocks

  // ---------------------------------------------------------------------
  // What is made and not yet delivered
  // ---------------------------------------------------------------------

  function RemoveFirst(entries: seq<Entry>, e: Entry): seq<Entry> {
    if entries == [] then []
    else if entries[0] == e then entries[1..]
    else [entries[0]] + RemoveFirst(entries[1..], e)
  }

  function Remaining(made: seq<Entry>, delivered: seq<Entry>): seq<Entry>
    decreases |delivered|
  {
    if delivered == [] then made
    else RemoveFirst(Remaining(made, delivered[..|delivered| - 1]), delivered[|delivered| - 1])
  }

  /** The transitions on their way to the sink, the oldest first. */
  function Waiting(s: State): seq<Entry> {
    Remaining(s.made, s.delivered)
  }

  ghost predicate OneEach(entries: seq<Entry>) {
    forall i, j :: 0 <= i < j < |entries| ==> entries[i].thread != entries[j].thread
  }

  // A thread is about to call the sink exactly with what it has waiting.
  ghost predicate Held(s: State) {
    forall e: Entry :: e in Waiting(s) <==> PcOf(s, e.thread) == ToEmit(e.transition)
  }

  /** Nothing is lost, invented or delivered twice: counted with multiplicity, what was made
      is what was delivered and what waits, and each thread holds its own one. */
  ghost predicate Accounted(s: State) {
    && multiset(s.made) == multiset(s.delivered) + multiset(Waiting(s))
    && OneEach(Waiting(s)) && Held(s)
  }

  lemma {:induction false} RemovingOne(entries: seq<Entry>, e: Entry)
    requires e in entries
    ensures multiset(entries) == multiset(RemoveFirst(entries, e)) + multiset{e}
  {
    assert entries == [entries[0]] + entries[1..];
    if entries[0] != e {
      RemovingOne(entries[1..], e);
    }
  }

  lemma {:induction false} RemovingThread(entries: seq<Entry>, e: Entry)
    requires OneEach(entries) && e in entries
    ensures OneEach(RemoveFirst(entries, e))
    ensures forall f :: f in RemoveFirst(entries, e) <==> f in entries && f.thread != e.thread
  {
    HeadStandsAlone(entries);
    if entries[0] != e {
      RemovingThread(entries[1..], e);
      HeadKeepsOneEach(entries[0], RemoveFirst(entries[1..], e));
    }
  }

  lemma HeadStandsAlone(entries: seq<Entry>)
    requires OneEach(entries) && entries != []
    ensures OneEach(entries[1..])
    ensures forall f :: f in entries[1..] <==> f in entries && f.thread != entries[0].thread
  {
    assert entries == [entries[0]] + entries[1..];
    forall f | f in entries[1..] ensures f.thread != entries[0].thread {
      var i :| 0 <= i < |entries[1..]| && entries[1..][i] == f;
      assert entries[i + 1] == f;
    }
  }

  lemma HeadKeepsOneEach(head: Entry, rest: seq<Entry>)
    requires OneEach(rest) && forall f :: f in rest ==> f.thread != head.thread
    ensures OneEach([head] + rest)
  {
    assert forall i :: 0 <= i < |rest| ==> rest[i] in rest;
  }

  lemma {:induction false} RemovingBefore(entries: seq<Entry>, e: Entry, last: Entry)
    requires e in entries
    ensures RemoveFirst(entries + [last], e) == RemoveFirst(entries, e) + [last]
  {
    assert (entries + [last])[0] == entries[0] && (entries + [last])[1..] == entries[1..] + [last];
    if entries[0] != e {
      RemovingBefore(entries[1..], e, last);
      assert [entries[0]] + (RemoveFirst(entries[1..], e) + [last]) == ([entries[0]] + RemoveFirst(entries[1..], e)) + [last];
    }
  }

  lemma NextIsLeft(all: multiset<Entry>, gone: multiset<Entry>, left: multiset<Entry>, next: Entry)
    requires all == gone + left && gone + multiset{next} <= all
    ensures next in left
  {
    assert (gone + multiset{next})[next] == gone[next] + 1;
  }

  lemma {:induction false} RemainingMeans(made: seq<Entry>, delivered: seq<Entry>)
    requires multiset(delivered) <= multiset(made)
    ensures multiset(made) == multiset(delivered) + multiset(Remaining(made, delivered))
    decreases |delivered|
  {
    if delivered != [] {
      var before, last := delivered[..|delivered| - 1], delivered[|delivered| - 1];
      assert delivered == before + [last];
      assert multiset(delivered) == multiset(before) + multiset{last};
      RemainingMeans(made, before);
      NextIsLeft(multiset(made), multiset(before), multiset(Remaining(made, before)), last);
      RemovingOne(Remaining(made, before), last);
    }
  }

  // A new transition waits behind all others.
  lemma {:induction false} RemainingGrows(made: seq<Entry>, delivered: seq<Entry>, e: Entry)
    requires multiset(delivered) <= multiset(made)
    ensures Remaining(made + [e], delivered) == Remaining(made, delivered) + [e]
    decreases |delivered|
  {
    if delivered != [] {
      var before, last := delivered[..|delivered| - 1], delivered[|delivered| - 1];
      assert delivered == before + [last];
      assert multiset(delivered) == multiset(before) + multiset{last};
      RemainingGrows(made, before, e);
      RemainingMeans(made, before);
      NextIsLeft(multiset(made), multiset(before), multiset(Remaining(made, before)), last);
      RemovingBefore(Remaining(made, before), last, e);
    }
  }

  lemma RemainingShrinks(made: seq<Entry>, delivered: seq<Entry>, e: Entry)
    ensures Remaining(made, delivered + [e]) == RemoveFirst(Remaining(made, delivered), e)
  {
    assert (delivered + [e])[..|delivered|] == delivered;
  }

  // ---------------------------------------------------------------------
  // Conservation
  // ---------------------------------------------------------------------

  // What one section does to the two logs.
  lemma LogsAfter(s: State, section: Section)
    ensures var s', pc := Execute(s, section), PcOf(s, section.thread);
            if section.Emit? && pc.ToEmit? then
              s'.made == s.made && s'.delivered == s.delivered + [Entry(section.thread, pc.transition)]
            else
              s'.delivered == s.delivered && (s'.made == s.made || (section.Move? && pc.ToMove?
                && PcOf(s', section.thread).ToEmit?
                && s'.made == s.made + [Entry(section.thread, PcOf(s', section.thread).transition)]))
  {
  }

  lemma MoveIsAccounted(s: State, section: Section, e: Entry)
    requires Accounted(s) && Execute(s, section).made == s.made + [e]
    ensures Accounted(Execute(s, section)) && Waiting(Execute(s, section)) == Waiting(s) + [e]
  {
    MoveHolds(s, section, e);
    RemainingGrows(s.made, s.delivered, e);
    NobodyElse(s, section);
    assert multiset(s.made + [e]) == multiset(s.made) + multiset{e};
    assert multiset(Waiting(s) + [e]) == multiset(Waiting(s)) + multiset{e};
    HeldAfterMove(s, section, e);
  }

  lemma MoveHolds(s: State, section: Section, e: Entry)
    requires Execute(s, section).made == s.made + [e]
    ensures e.thread == section.thread && Execute(s, section).delivered == s.delivered
    ensures !PcOf(s, e.thread).ToEmit? && PcOf(Execute(s, section), e.thread) == ToEmit(e.transition)
  {
    LogsAfter(s, section);
    assert (s.made + [e])[|s.made|] == e;
  }

  lemma HeldAfterMove(s: State, section: Section, e: Entry)
    requires Held(s) && !PcOf(s, section.thread).ToEmit?
    requires e.thread == section.thread && PcOf(Execute(s, section), e.thread) == ToEmit(e.transition)
    requires Waiting(Execute(s, section)) == Waiting(s) + [e]
    ensures Held(Execute(s, section))
  {
    var s' := Execute(s, section);
    forall f: Entry ensures f in Waiting(s') <==> PcOf(s', f.thread) == ToEmit(f.transition) {
      if f.thread != section.thread {
        OneLeavesOthers(s, section, f.thread);
      }
    }
  }

  // A thread that is not about to call the sink has nothing waiting.
  lemma NobodyElse(s: State, section: Section)
    requires Held(s) && !PcOf(s, section.thread).ToEmit?
    ensures forall i :: 0 <= i < |Waiting(s)| ==> Waiting(s)[i].thread != section.thread
  {
    forall i | 0 <= i < |Waiting(s)| ensures Waiting(s)[i].thread != section.thread {
      assert Waiting(s)[i] in Waiting(s);
    }
  }

  lemma EmitIsAccounted(s: State, section: Section)
    requires Accounted(s) && section.Emit? && PcOf(s, section.thread).ToEmit?
    ensures Accounted(Execute(s, section))
    ensures var e := Entry(section.thread, PcOf(s, section.thread).transition);
            e in Waiting(s) && Waiting(Execute(s, section)) == RemoveFirst(Waiting(s), e)
  {
    var e := Entry(section.thread, PcOf(s, section.thread).transition);
    RemainingShrinks(s.made, s.delivered, e);
    assert e in Waiting(s);
    RemovingOne(Waiting(s), e);
    RemovingThread(Waiting(s), e);
    assert multiset(s.delivered + [e]) == multiset(s.delivered) + multiset{e};
    HeldAfterEmit(s, section, e);
  }

  lemma HeldAfterEmit(s: State, section: Section, e: Entry)
    requires Held(s) && section.Emit? && e.thread == section.thread && PcOf(s, e.thread) == ToEmit(e.transition)
    requires forall f :: f in Waiting(Execute(s, section)) <==> f in Waiting(s) && f.thread != e.thread
    ensures Held(Execute(s, section))
  {
    var s' := Execute(s, section);
    forall f: Entry ensures f in Waiting(s') <==> PcOf(s', f.thread) == ToEmit(f.transition) {
      if f.thread != section.thread {
        OneLeavesOthers(s, section, f.thread);
      }
    }
  }

  lemma QuietIsAccounted(s: State, section: Section)
    requires Accounted(s) && Execute(s, section).made == s.made && Execute(s, section).delivered == s.delivered
    ensures Accounted(Execute(s, section)) && Waiting(Execute(s, section)) == Waiting(s)
  {
    var s' := Execute(s, section);
    assert PcOf(s', section.thread) == PcOf(s, section.thread) || (!PcOf(s', section.thread).ToEmit? && !PcOf(s, section.thread).ToEmit?);
    forall e: Entry ensures PcOf(s', e.thread) == ToEmit(e.transition) <==> PcOf(s, e.thread) == ToEmit(e.transition) {
      if e.thread != section.thread {
        OneLeavesOthers(s, section, e.thread);
      }
    }
  }

  lemma LastMade(s: State, section: Section)
    requires Execute(s, section).made != s.made
    ensures var made := Execute(s, section).made; |made| == |s.made| + 1 && made == s.made + [made[|s.made|]]
  {
    LogsAfter(s, section);
  }

  lemma StepIsAccounted(s: State, section: Section)
    requires Accounted(s)
    ensures Accounted(Execute(s, section))
  {
    LogsAfter(s, section);
    if section.Emit? && PcOf(s, section.thread).ToEmit? {
      EmitIsAccounted(s, section);
    } else if Execute(s, section).made != s.made {
      LastMade(s, section);
      MoveIsAccounted(s, section, Execute(s, section).made[|s.made|]);
    } else {
      QuietIsAccounted(s, section);
    }
  }

  /** Conservation under every interleaving. */
  lemma {:induction false} NothingIsLost(schedule: seq<Section>)
    ensures Accounted(ExecuteAll(Initial, schedule))
    decreases |schedule|
  {
    if schedule != [] {
      NothingIsLost(schedule[..|schedule| - 1]);
      StepIsAccounted(ExecuteAll(Initial, schedule[..|schedule| - 1]), schedule[|schedule| - 1]);
    }
  }

  // ---------------------------------------------------------------------
  // Order
  // ---------------------------------------------------------------------

  /** A call of the sink is in turn when its thread holds the oldest transition waiting. */
  predicate InTurn(s: State, section: Section) {
    section.Emit? && PcOf(s, section.thread).ToEmit? ==> Waiting(s) != [] && Waiting(s)[0].thread == section.thread
  }

  predicate InTurnAt(schedule: seq<Section>, i: nat)
    requires i < |schedule|
  {
    InTurn(ExecuteAll(Initial, schedule[..i]), schedule[i])
  }

  ghost predicate AllInTurn(schedule: seq<Section>) {
    forall i :: 0 <= i < |schedule| ==> InTurnAt(schedule, i)
  }

  lemma {:induction false} PrefixRemains(made: seq<Entry>, k: nat)
    requires k <= |made|
    ensures Remaining(made, made[..k]) == made[k..]
    decreases k
  {
    if k > 0 {
      assert made[..k][..k - 1] == made[..k - 1];
      PrefixRemains(made, k - 1);
      assert made[k - 1..][1..] == made[k..];
    }
  }

  lemma StepStaysInOrder(s: State, section: Section)
    requires Accounted(s)
    ensures var s' := Execute(s, section);
            s'.delivered <= s'.made <==> s.delivered <= s.made && InTurn(s, section)
  {
    LogsAfter(s, section);
    LogsFit(s);
    var s' := Execute(s, section);
    if s.delivered <= s.made {
      PrefixRemains(s.made, |s.delivered|);
      assert s.made[..|s.delivered|] == s.delivered;
      if section.Emit? && PcOf(s, section.thread).ToEmit? {
        var e := Entry(section.thread, PcOf(s, section.thread).transition);
        EmissionInOrder(s, e);
      }
    } else {
      OrderIsNotRestored(s, s');
    }
  }

  // Both logs only grow, so a wrong order stays.
  lemma OrderIsNotRestored(s: State, s': State)
    requires |s.delivered| <= |s.made| && s.made <= s'.made && s.delivered <= s'.delivered
    ensures s'.delivered <= s'.made ==> s.delivered <= s.made
  {
    if s'.delivered <= s'.made {
      assert forall i :: 0 <= i < |s.delivered| ==> s.delivered[i] == s'.delivered[i] && s.made[i] == s'.made[i];
    }
  }

  lemma LogsFit(s: State)
    requires Accounted(s)
    ensures |s.delivered| <= |s.made|
  {
    assert |multiset(s.made)| == |s.made| && |multiset(s.delivered)| == |s.delivered|;
  }

  // From an ordered log, a delivery keeps the order exactly when it is the oldest one waiting.
  lemma EmissionInOrder(s: State, e: Entry)
    requires Accounted(s) && s.delivered <= s.made && Waiting(s) == s.made[|s.delivered|..] && e in Waiting(s)
    ensures s.delivered + [e] <= s.made <==> Waiting(s)[0].thread == e.thread
  {
    var oldest := Waiting(s)[0];
    assert oldest == s.made[|s.delivered|];
    assert oldest in Waiting(s);
    if oldest == e {
      assert s.made[..|s.delivered| + 1] == s.delivered + [e];
    }
    assert s.delivered + [e] <= s.made ==> (s.delivered + [e])[|s.delivered|] == s.made[|s.delivered|];
  }

  /** The exact condition, for every schedule: the sink has received the transitions in the
      order they were made if and only if every call of it was in turn. */
  lemma {:induction false} DeliveryIsExact(schedule: seq<Section>)
    ensures var s := ExecuteAll(Initial, schedule);
            s.delivered <= s.made <==> AllInTurn(schedule)
    decreases |schedule|
  {
    if schedule != [] {
      var before, last := schedule[..|schedule| - 1], schedule[|schedule| - 1];
      DeliveryIsExact(before);
      NothingIsLost(before);
      StepStaysInOrder(ExecuteAll(Initial, before), last);
      OneMoreInTurn(schedule);
    }
  }

  lemma InTurnEarlier(schedule: seq<Section>, k: nat, i: nat)
    requires i < k <= |schedule|
    ensures InTurnAt(schedule[..k], i) <==> InTurnAt(schedule, i)
  {
    assert schedule[..k][..i] == schedule[..i];
  }

  lemma OneMoreInTurn(schedule: seq<Section>)
    requires schedule != []
    ensures AllInTurn(schedule) <==> AllInTurn(schedule[..|schedule| - 1]) && InTurnAt(schedule, |schedule| - 1)
  {
    var last := |schedule| - 1;
    forall i | 0 <= i < last ensures InTurnAt(schedule[..last], i) <==> InTurnAt(schedule, i) {
      InTurnEarlier(schedule, last, i);
    }
  }

  /** Hence what the sink has received chains whenever its calls were in turn. */
  lemma InTurnChains(schedule: seq<Section>)
    requires AllInTurn(schedule)
    ensures Chained(TransitionsOf(ExecuteAll(Initial, schedule).delivered))
  {
    DeliveryIsExact(schedule);
    TransitionsChain(schedule);
    var s := ExecuteAll(Initial, schedule);
    var made, delivered := TransitionsOf(s.made), TransitionsOf(s.delivered);
    assert forall i :: 0 <= i < |delivered| ==> s.delivered[i] == s.made[i] && delivered[i] == made[i];
  }

  // A move that makes a transition while another is on its way to the sink.
  ghost predicate Overtakes(s: State, section: Section) {
    Execute(s, section).made != s.made && Waiting(s) != []
  }

  ghost predicate OvertakesAt(schedule: seq<Section>, i: nat)
    requires i < |schedule|
  {
    Overtakes(ExecuteAll(Initial, schedule[..i]), schedule[i])
  }

  ghost predicate NoneOvertakes(schedule: seq<Section>) {
    forall i :: 0 <= i < |schedule| ==> !OvertakesAt(schedule, i)
  }

  lemma NoneOvertook(schedule: seq<Section>, k: nat)
    requires NoneOvertakes(schedule) && k <= |schedule|
    ensures NoneOvertakes(schedule[..k])
  {
    forall i | 0 <= i < k ensures !OvertakesAt(schedule[..k], i) {
      assert schedule[..k][..i] == schedule[..i];
      assert !OvertakesAt(schedule, i);
    }
  }

  lemma {:induction false} AtMostOneWaits(schedule: seq<Section>)
    requires NoneOvertakes(schedule)
    ensures |Waiting(ExecuteAll(Initial, schedule))| <= 1
    decreases |schedule|
  {
    if schedule != [] {
      var before, last := schedule[..|schedule| - 1], schedule[|schedule| - 1];
      NoneOvertook(schedule, |before|);
      AtMostOneWaits(before);
      NothingIsLost(before);
      assert !OvertakesAt(schedule, |before|);
      OneWaitsAfter(ExecuteAll(Initial, before), last);
    }
  }

  lemma OneWaitsAfter(s: State, section: Section)
    requires Accounted(s) && |Waiting(s)| <= 1 && !Overtakes(s, section)
    ensures |Waiting(Execute(s, section))| <= 1
  {
    WaitingAfter(s, section);
  }

  lemma WaitingAfter(s: State, section: Section)
    requires Accounted(s)
    ensures |Waiting(Execute(s, section))| <= |Waiting(s)| + if Execute(s, section).made != s.made then 1 else 0
  {
    LogsAfter(s, section);
    if section.Emit? && PcOf(s, section.thread).ToEmit? {
      EmitIsAccounted(s, section);
      RemovingOne(Waiting(s), Entry(section.thread, PcOf(s, section.thread).transition));
      RemovalIsShorter(Waiting(s), Entry(section.thread, PcOf(s, section.thread).transition));
    } else if Execute(s, section).made != s.made {
      LastMade(s, section);
      MoveIsAccounted(s, section, Execute(s, section).made[|s.made|]);
    } else {
      QuietIsAccounted(s, section);
    }
  }

  lemma {:induction false} RemovalIsShorter(entries: seq<Entry>, e: Entry)
    ensures |RemoveFirst(entries, e)| <= |entries|
  {
    if entries != [] && entries[0] != e {
      RemovalIsShorter(entries[1..], e);
    }
  }

  /** When no other move falls between a move and its delivery, the sink receives the
      transitions in order, chained up to the current posture but for the one on its way. */
  lemma QuietDeliveryChains(schedule: seq<Section>)
    requires NoneOvertakes(schedule)
    ensures var s := ExecuteAll(Initial, schedule);
            && s.delivered <= s.made && |s.made| <= |s.delivered| + 1
            && Chained(TransitionsOf(s.delivered))
  {
    NoneOvertakenInTurn(schedule);
    InTurnChains(schedule);
    DeliveryIsExact(schedule);
    AtMostOneWaits(schedule);
    var s := ExecuteAll(Initial, schedule);
    PrefixRemains(s.made, |s.delivered|);
    assert s.made[..|s.delivered|] == s.delivered;
  }

  lemma NoneOvertakenInTurn(schedule: seq<Section>)
    requires NoneOvertakes(schedule)
    ensures AllInTurn(schedule)
  {
    forall i | 0 <= i < |schedule| ensures InTurnAt(schedule, i) {
      NoneOvertook(schedule, i);
      AtMostOneWaits(schedule[..i]);
      NothingIsLost(schedule[..i]);
      OnlyOneIsInTurn(ExecuteAll(Initial, schedule[..i]), schedule[i]);
    }
  }

  lemma OnlyOneIsInTurn(s: State, section: Section)
    requires Accounted(s) && |Waiting(s)| <= 1
    ensures InTurn(s, section)
  {
    if section.Emit? && PcOf(s, section.thread).ToEmit? {
      assert Entry(section.thread, PcOf(s, section.thread).transition) in Waiting(s);
    }
  }

  // ---------------------------------------------------------------------
  // The sink can be told in the wrong order
  // ---------------------------------------------------------------------

  /** From the history of two reauthentications: a soft challenge moves the session and leaves
      the lock, the second reauthentication fails, and its lockout reaches the sink first.
      The transitions made chain, the ones the sink receives do not. */
  lemma LockoutIsToldFirst()
    ensures var s := ExecuteAll(Initial, TwoReauths());
            var moved := Execute(Execute(s, BeginDecision(0, "third", SoftChallenge, true)), Move(0, 30));
            var failed := ExecuteAll(moved, CallSections(1, OfOutcome("second", Reauth, Rejected, 40)));
            var told := Execute(failed, Emit(0));
            && |told.delivered| == |told.made| == 4
            && Chained(TransitionsOf(told.made)) && !Chained(TransitionsOf(told.delivered))
            && told.delivered[2].transition.current == LockedOut && told.delivered[3].transition.current == Challenged
            && told.session.posture == LockedOut
  {
    TwoReauthsLeaveNormal();
    var s := ExecuteAll(Initial, TwoReauths());
    var begin, move := BeginDecision(0, "third", SoftChallenge, true), Move(0, 30);
    var moved := Execute(Execute(s, begin), move);
    SoftChallengeLeavesLock(s);
    var failure := OfOutcome("second", Reauth, Rejected, 40);
    var failed := ExecuteAll(moved, CallSections(1, failure));
    UninterruptedCallIsAtomic(moved, 1, failure);
    OthersDoNotMoveIt(moved, CallSections(1, failure), 0);
    var told := Execute(failed, Emit(0));
    ToldIsReached(begin, move, failure);
    var delivered := TransitionsOf(told.delivered);
    assert delivered[2].current == LockedOut && delivered[3].previous == Normal;
  }

  // The session is CHALLENGED, and the thread that made it so has not called the sink.
  lemma SoftChallengeLeavesLock(s: State)
    requires s.session == Unchallenged && PcOf(s, 0) == Ready
    ensures var moved := Execute(Execute(s, BeginDecision(0, "third", SoftChallenge, true)), Move(0, 30));
            var soft := PostureTransition(Normal, Challenged, EnforcementCode(Challenged), "third", 30);
            && moved.session.posture == Challenged && PcOf(moved, 0) == ToEmit(soft) && PcOf(moved, 1) == PcOf(s, 1)
            && moved.made == s.made + [Entry(0, soft)] && moved.delivered == s.delivered
  {
    var begin, move := BeginDecision(0, "third", SoftChallenge, true), Move(0, 30);
    OneLeavesOthers(s, begin, 1);
    OneLeavesOthers(Execute(s, begin), move, 1);
  }

  // The state above is the one a schedule from the start reaches, so its transitions chain.
  lemma ToldIsReached(begin: Section, move: Section, failure: Observation)
    ensures var s := ExecuteAll(Initial, TwoReauths());
            var failed := ExecuteAll(Execute(Execute(s, begin), move), CallSections(1, failure));
            Chained(TransitionsOf(Execute(failed, Emit(0)).made))
  {
    var s := ExecuteAll(Initial, TwoReauths());
    ExecuteTwo(s, begin, move);
    ExecuteInTurn(Initial, TwoReauths(), [begin, move]);
    ExecuteInTurn(Initial, TwoReauths() + [begin, move], CallSections(1, failure));
    var schedule := TwoReauths() + [begin, move] + CallSections(1, failure);
    assert (schedule + [Emit(0)])[..|schedule|] == schedule;
    TransitionsChain(schedule + [Emit(0)]);
  }
}
