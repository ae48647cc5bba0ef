/** The posture at lock granularity: the rank check and the move of one call are separate
    critical sections, and the sink is called after the last of them, outside the lock, so
    sections and deliveries of several threads may interleave. */
module PostureLocks {
  import opened Wrappers
  import opened RiskTypes
  import opened Postures

  /** Where a thread stands between two critical sections. */
  datatype Pc =
    | Ready
    | ToMove(target: Posture, code: string, id: string)
    | ToCheckFailure(code: string, id: string)
    | ToEmit(transition: PostureTransition)

  /** A transition and the thread whose call made it. */
  datatype Entry = Entry(thread: nat, transition: PostureTransition)

  /** The session with two logs: the transitions in the order they were made under the lock,
      and in the order the sink received them. */
  datatype State = State(
    session: SessionState,
    threads: map<nat, Pc>,
    made: seq<Entry>,
    delivered: seq<Entry>)
  {
    // The posture the last transition led to.
    function Reached(): Posture {
      if made == [] then Normal else made[|made| - 1].transition.current
    }
  }

  /** One critical section of one thread, or its call of the sink; `at` is the clock reading
      inside the section. */
  datatype Section =
    | BeginDecision(thread: nat, id: string, action: DecisionAction, applied: bool)
    | BeginOutcome(thread: nat, id: string, action: DecisionAction, outcome: ResponseOutcome)
    | CheckFailure(thread: nat)
    | Move(thread: nat, at: int)
    | Emit(thread: nat)

  const Initial := State(Unchallenged, map[], [], [])

  function PcOf(s: State, thread: nat): Pc {
    if thread in s.threads then s.threads[thread] else Ready
  }

  function Goto(s: State, thread: nat, pc: Pc): State {
    s.(threads := s.threads[thread := pc])
  }

  // A section that its thread is not at is not executed.
  function Execute(s: State, section: Section): State {
    var pc := PcOf(s, section.thread);
    match section
    case BeginDecision(thread, id, action, applied) =>
      var target := Rung(action);
      if pc != Ready || !applied || target.None? || PostureRank(target.value) <= PostureRank(s.session.posture) then s
      else Goto(s, thread, ToMove(target.value, EnforcementCode(target.value), id))
    case BeginOutcome(thread, id, action, outcome) =>
      var target := Rung(action);
      if pc != Ready || target.None? || target.value == LockedOut then s
      else if outcome == Accepted then
        if action == Reauth then Goto(s, thread, ToMove(Normal, "ENFORCEMENT_REAUTH_ACCEPTED", id))
        else if PostureRank(s.session.posture) > PostureRank(Challenged) then s
        else Goto(s, thread, ToMove(Normal, "ENFORCEMENT_CHALLENGE_ACCEPTED", id))
      else
        var failed := s.(session := s.session.(failedResponses := s.session.failedResponses + 1));
        Goto(failed, thread, if action == Reauth then ToMove(LockedOut, OutcomeCode(outcome), id)
                             else ToCheckFailure(OutcomeCode(outcome), id))
    case CheckFailure(thread) =>
      if !pc.ToCheckFailure? then s
      else if PostureRank(s.session.posture) > PostureRank(Challenged) then Goto(s, thread, Ready)
      else Goto(s, thread, ToMove(ReauthRequired, pc.code, pc.id))
    case Move(thread, at) =>
      if !pc.ToMove? then s
      else
        var (session, transition) := Moved(s.session, pc.target, pc.code, pc.id, at);
        if transition.None? then Goto(s, thread, Ready).(session := session)
        else
          Goto(s, thread, ToEmit(transition.value)).(session := session,
                                                     made := s.made + [Entry(thread, transition.value)])
    case Emit(thread) =>
      if !pc.ToEmit? then s
      else Goto(s, thread, Ready).(delivered := s.delivered + [Entry(thread, pc.transition)])
  }

  function ExecuteAll(s: State, schedule: seq<Section>): State {
    if schedule == [] then s
    else Execute(ExecuteAll(s, schedule[..|schedule| - 1]), schedule[|schedule| - 1])
  }

  function TransitionsOf(entries: seq<Entry>): (transitions: seq<PostureTransition>)
    ensures |transitions| == |entries|
  {
    seq(|entries|, i requires 0 <= i < |entries| => entries[i].transition)
  }

  /** Each transition starts where the one before it ended, the first at NORMAL. */
  ghost predicate Chained(transitions: seq<PostureTransition>) {
    && (transitions != [] ==> transitions[0].previous == Normal)
    && (forall i :: 0 < i < |transitions| ==> transitions[i].previous == transitions[i - 1].current)
    && (forall i :: 0 <= i < |transitions| ==> transitions[i].previous != transitions[i].current)
  }

  /** Under every interleaving the transitions made chain up to the current posture, and the
      session has a start time exactly when it is not NORMAL. */
  lemma {:induction false} TransitionsChain(schedule: seq<Section>)
    ensures var s := ExecuteAll(Initial, schedule);
            && Chained(TransitionsOf(s.made))
            && s.session.posture == s.Reached()
            && (s.session.posture == Normal <==> s.session.since.None?)
    decreases |schedule|
  {
    if schedule != [] {
      TransitionsChain(schedule[..|schedule| - 1]);
      ExecuteKeepsChain(ExecuteAll(Initial, schedule[..|schedule| - 1]), schedule[|schedule| - 1]);
    }
  }

  // What an entry does to the session.
  ghost predicate Makes(s: State, e: Entry, s': State) {
    && s'.made == s.made + [e]
    && e.transition.previous == s.session.posture != e.transition.current == s'.session.posture
    && (e.transition.current == Normal <==> s'.session.since.None?)
  }

  // Only a move makes a transition, and what it makes is the change of the session.
  lemma ExecuteMeans(s: State, section: Section)
    ensures var s' := Execute(s, section);
            || (s'.made == s.made && s'.session.posture == s.session.posture && s'.session.since == s.session.since)
            || (section.Move? && exists e: Entry :: Makes(s, e, s'))
  {
    if section.Move? && PcOf(s, section.thread).ToMove? {
      var pc := PcOf(s, section.thread);
      var (session, transition) := Moved(s.session, pc.target, pc.code, pc.id, section.at);
      if transition.Some? {
        assert Makes(s, Entry(section.thread, transition.value), Execute(s, section));
      }
    }
  }

  lemma ExecuteKeepsChain(s: State, section: Section)
    requires Chained(TransitionsOf(s.made))
    requires s.session.posture == s.Reached()
    requires s.session.posture == Normal <==> s.session.since.None?
    ensures var s' := Execute(s, section);
            && Chained(TransitionsOf(s'.made))
            && s'.session.posture == s'.Reached()
            && (s'.session.posture == Normal <==> s'.session.since.None?)
  {
    ExecuteMeans(s, section);
    var s' := Execute(s, section);
    if s'.made != s.made || s'.session.posture != s.session.posture {
      var e: Entry :| Makes(s, e, s');
      ChainExtends(s.made, e);
    }
  }

  lemma ChainExtends(made: seq<Entry>, e: Entry)
    requires Chained(TransitionsOf(made)) && e.transition.previous != e.transition.current
    requires e.transition.previous == if made == [] then Normal else made[|made| - 1].transition.current
    ensures Chained(TransitionsOf(made + [e]))
  {
    assert TransitionsOf(made + [e]) == TransitionsOf(made) + [e.transition];
  }

  // The sections of one call, in order.
  function CallSections(thread: nat, o: Observation): seq<Section> {
    match o
    case OfDecision(id, action, applied, at) =>
      [BeginDecision(thread, id, action, applied), Move(thread, at), Emit(thread)]
    case OfOutcome(id, action, outcome, at) =>
      [BeginOutcome(thread, id, action, outcome), CheckFailure(thread), Move(thread, at), Emit(thread)]
  }

  // The atomic call's effect: the ladder's step, and its transition made and delivered at once.
  ghost predicate CallDone(s: State, thread: nat, o: Observation, s': State) {
    var (session, transition) := Observe(true, s.session, o);
    var entries := if transition.Some? then [Entry(thread, transition.value)] else [];
    && s'.session == session && PcOf(s', thread) == Ready
    && s'.made == s.made + entries && s'.delivered == s.delivered + entries
  }

  /** A call that is not interrupted is the atomic call of the ladder, delivery included. */
  lemma UninterruptedCallIsAtomic(s: State, thread: nat, o: Observation)
    requires PcOf(s, thread) == Ready
    ensures CallDone(s, thread, o, ExecuteAll(s, CallSections(thread, o)))
  {
    var sections := CallSections(thread, o);
    match o {
      case OfDecision(id, action, applied, at) =>
        ExecuteThree(s, sections);
        DecisionIsAtomic(s, thread, id, action, applied, at);
      case OfOutcome(id, action, outcome, at) =>
        assert sections == sections[..3] + [sections[3]];
        ExecuteThree(s, sections[..3]);
        OutcomeIsAtomic(s, thread, id, action, outcome, at);
    }
  }

  lemma DecisionIsAtomic(s: State, thread: nat, id: string, action: DecisionAction, applied: bool, at: int)
    requires PcOf(s, thread) == Ready
    ensures var moved := Execute(Execute(s, BeginDecision(thread, id, action, applied)), Move(thread, at));
            CallDone(s, thread, OfDecision(id, action, applied, at), Execute(moved, Emit(thread)))
  {
  }

  lemma OutcomeIsAtomic(s: State, thread: nat, id: string, action: DecisionAction, outcome: ResponseOutcome, at: int)
    requires PcOf(s, thread) == Ready
    ensures var checked := Execute(Execute(s, BeginOutcome(thread, id, action, outcome)), CheckFailure(thread));
            var moved := Execute(checked, Move(thread, at));
            CallDone(s, thread, OfOutcome(id, action, outcome, at), Execute(moved, Emit(thread)))
  {
    var begin := BeginOutcome(thread, id, action, outcome);
    var checked := Execute(Execute(s, begin), CheckFailure(thread));
    assert checked.made == s.made && checked.delivered == s.delivered;
    var target := Rung(action);
    if target.None? || target.value == LockedOut {
      assert checked == s;
    } else if outcome == Accepted {
      assert checked == Execute(s, begin) && checked.session == s.session;
    } else {
      assert checked.session == s.session.(failedResponses := s.session.failedResponses + 1);
    }
  }

  lemma ExecuteTwo(s: State, first: Section, second: Section)
    ensures ExecuteAll(s, [first, second]) == Execute(Execute(s, first), second)
  {
    assert [first, second][..1] == [first] && [first][..0] == [];
    assert ExecuteAll(s, [first]) == Execute(ExecuteAll(s, []), first);
  }

  lemma ExecuteThree(s: State, sections: seq<Section>)
    requires |sections| == 3
    ensures ExecuteAll(s, sections) == Execute(Execute(Execute(s, sections[0]), sections[1]), sections[2])
  {
    assert sections[..2] == [sections[0], sections[1]];
    ExecuteTwo(s, sections[0], sections[1]);
  }

  // ---------------------------------------------------------------------
  // When the assumption of atomic calls is needed
  // ---------------------------------------------------------------------

  ghost predicate OfOthers(sections: seq<Section>, thread: nat) {
    forall i :: 0 <= i < |sections| ==> sections[i].thread != thread
  }

  // Sections of other threads leave a thread where it stands.
  lemma {:induction false} OthersDoNotMoveIt(s: State, sections: seq<Section>, thread: nat)
    requires OfOthers(sections, thread)
    ensures PcOf(ExecuteAll(s, sections), thread) == PcOf(s, thread)
    decreases |sections|
  {
    if sections != [] {
      var before, last := sections[..|sections| - 1], sections[|sections| - 1];
      assert sections == before + [last];
      OthersDoNotMoveIt(s, before, thread);
      OneLeavesOthers(ExecuteAll(s, before), last, thread);
    }
  }

  lemma OneLeavesOthers(s: State, section: Section, thread: nat)
    requires section.thread != thread
    ensures PcOf(Execute(s, section), thread) == PcOf(s, thread)
  {
  }

  // The posture after some sections: the end of the last transition they made, if any.
  ghost predicate EndsAt(s: State, s': State) {
    && s.made <= s'.made
    && s'.session.posture == if s'.made == s.made then s.session.posture else s'.Reached()
  }

  lemma {:induction false} SectionsEndAt(s: State, sections: seq<Section>)
    ensures EndsAt(s, ExecuteAll(s, sections))
    decreases |sections|
  {
    if sections != [] {
      SectionsEndAt(s, sections[..|sections| - 1]);
      ExecuteMeans(ExecuteAll(s, sections[..|sections| - 1]), sections[|sections| - 1]);
    }
  }

  lemma {:induction false} WithoutMovesNothingIsMade(s: State, sections: seq<Section>)
    requires forall i :: 0 <= i < |sections| ==> !sections[i].Move?
    ensures ExecuteAll(s, sections).made == s.made
    decreases |sections|
  {
    if sections != [] {
      WithoutMovesNothingIsMade(s, sections[..|sections| - 1]);
    }
  }

  // A call that raises the posture, a decision or a failed soft challenge, has passed its rank
  // check: its thread is about to move.
  predicate Checked(s: State, check: Section) {
    && ((check.BeginDecision? && PcOf(s, check.thread) == Ready)
        || (check.CheckFailure? && PcOf(s, check.thread).ToCheckFailure?))
    && PcOf(Execute(s, check), check.thread).ToMove?
  }

  function RungOf(check: Section): Option<Posture> {
    match check
    case BeginDecision(_, _, action, _) => Rung(action)
    case CheckFailure(_) => Some(ReauthRequired)
    case _ => None
  }

  /** The exact condition. Between a successful rank check and its move, other threads may run
      any sections; the move lowers the posture exactly when some transition was made since
      the check and the last one ended above the call's rung. */
  lemma LoweringIsExact(s: State, check: Section, between: seq<Section>, at: int)
    requires Checked(s, check) && OfOthers(between, check.thread)
    ensures var target := RungOf(check);
            var moving := ExecuteAll(Execute(s, check), between);
            var moved := Execute(moving, Move(check.thread, at));
            target.Some? &&
            (PostureRank(moved.session.posture) < PostureRank(moving.session.posture)
             <==> |moving.made| > |s.made| && PostureRank(moving.Reached()) > PostureRank(target.value))
  {
    CheckedStillStands(s, check, between);
    var moving := ExecuteAll(Execute(s, check), between);
    MoveReaches(moving, check.thread, at);
    AboveTheRung(s, moving, PostureRank(RungOf(check).value));
  }

  // What others run leaves the call about to move to its rung.
  lemma CheckedStillStands(s: State, check: Section, between: seq<Section>)
    requires Checked(s, check) && OfOthers(between, check.thread)
    ensures var moving := ExecuteAll(Execute(s, check), between);
            && EndsAt(s, moving)
            && PcOf(moving, check.thread).ToMove?
            && RungOf(check) == Some(PcOf(moving, check.thread).target)
            && PostureRank(s.session.posture) < PostureRank(RungOf(check).value)
  {
    CheckedMeans(s, check);
    OthersDoNotMoveIt(Execute(s, check), between, check.thread);
    SectionsEndAt(Execute(s, check), between);
  }

  // A posture above a rung that was not above it before is the end of a transition since.
  lemma AboveTheRung(s: State, s': State, rung: nat)
    requires EndsAt(s, s') && PostureRank(s.session.posture) <= rung
    ensures rung < PostureRank(s'.session.posture)
            <==> |s'.made| > |s.made| && PostureRank(s'.Reached()) > rung
  {
    if |s'.made| == |s.made| {
      assert s'.made == s.made;
    }
  }

  // A successful check changes nothing but where its thread stands.
  lemma CheckedMeans(s: State, check: Section)
    requires Checked(s, check)
    ensures var checked := Execute(s, check);
            && checked.session == s.session && checked.made == s.made
            && RungOf(check).Some? && PostureRank(RungOf(check).value) > PostureRank(s.session.posture)
            && PcOf(checked, check.thread).target == RungOf(check).value
  {
  }

  lemma MoveReaches(s: State, thread: nat, at: int)
    requires PcOf(s, thread).ToMove?
    ensures var rung := PostureRank(PcOf(s, thread).target);
            PostureRank(Execute(s, Move(thread, at)).session.posture) < PostureRank(s.session.posture)
            <==> rung < PostureRank(s.session.posture)
  {
    assert Execute(s, Move(thread, at)).session.posture == PcOf(s, thread).target;
  }

  /** Hence calls of different threads may interleave freely as long as no other move falls
      between a check and its move: then, from any history, neither a decision nor a failed
      soft challenge ever lowers the posture. */
  lemma QuietGapNeverLowers(before: seq<Section>, check: Section, between: seq<Section>, at: int)
    requires Checked(ExecuteAll(Initial, before), check) && OfOthers(between, check.thread)
    requires forall i :: 0 <= i < |between| ==> !between[i].Move?
    ensures var moving := ExecuteAll(Initial, before + [check] + between);
            var moved := Execute(moving, Move(check.thread, at));
            PostureRank(moved.session.posture) >= PostureRank(moving.session.posture)
  {
    var s := ExecuteAll(Initial, before);
    assert (before + [check])[..|before|] == before;
    assert ExecuteAll(Initial, before + [check]) == Execute(s, check);
    ExecuteInTurn(Initial, before + [check], between);
    LoweringIsExact(s, check, between, at);
    WithoutMovesNothingIsMade(Execute(s, check), between);
  }

  lemma {:induction false} ExecuteInTurn(s: State, first: seq<Section>, second: seq<Section>)
    ensures ExecuteAll(s, first + second) == ExecuteAll(ExecuteAll(s, first), second)
    decreases |second|
  {
    if second == [] {
      assert first + second == first;
    } else {
      ExecuteInTurn(s, first, second[..|second| - 1]);
      assert (first + second)[..|first + second| - 1] == first + second[..|second| - 1];
    }
  }

  // A correct soft answer has passed its rank check: its thread is about to move to NORMAL.
  predicate SoftAnswered(s: State, check: Section) {
    && check.BeginOutcome? && check.action == SoftChallenge && check.outcome == Accepted
    && PcOf(s, check.thread) == Ready && PcOf(Execute(s, check), check.thread).ToMove?
  }

  /** The exact condition for the other direction: the move of a correct soft answer unblocks
      the session exactly when some transition was made since its check and the last one
      ended in a blocking posture. */
  lemma UnwindingIsExact(s: State, check: Section, between: seq<Section>, at: int)
    requires SoftAnswered(s, check) && OfOthers(between, check.thread)
    ensures var moving := ExecuteAll(Execute(s, check), between);
            var moved := Execute(moving, Move(check.thread, at));
            && moved.session.posture == Normal
            && (Blocking(moving.session.posture)
                <==> |moving.made| > |s.made| && Blocking(moving.Reached()))
  {
    var checked := Execute(s, check);
    assert checked.session == s.session && checked.made == s.made && PcOf(checked, check.thread).target == Normal;
    OthersDoNotMoveIt(checked, between, check.thread);
    SectionsEndAt(checked, between);
    AboveTheRung(s, ExecuteAll(checked, between), PostureRank(Challenged));
  }

  /** A stale soft answer can unwind an escalation: it checks its rank while the session is
      CHALLENGED, a TERMINATE locks the session out, and the move leads back to NORMAL. */
  lemma StaleAnswerUnwindsLockout()
    ensures var s := ExecuteAll(Initial, CallSections(0, OfDecision("soft", SoftChallenge, true, 10)));
            var check := BeginOutcome(1, "soft", SoftChallenge, Accepted);
            var between := CallSections(0, OfDecision("end", Terminate, true, 20));
            var moving := ExecuteAll(Execute(s, check), between);
            && SoftAnswered(s, check) && OfOthers(between, 1)
            && moving.session.posture == LockedOut && Execute(moving, Move(1, 30)).session == Unchallenged
  {
    var soft, end := OfDecision("soft", SoftChallenge, true, 10), OfDecision("end", Terminate, true, 20);
    var s := ExecuteAll(Initial, CallSections(0, soft));
    DecisionRaises(Initial, soft, 1);
    var check := BeginOutcome(1, "soft", SoftChallenge, Accepted);
    OneLeavesOthers(s, check, 0);
    DecisionRaises(Execute(s, check), end, 1);
  }

  // An applied decision of thread 0 for a higher rung reaches it and leaves another thread where it stands.
  lemma DecisionRaises(s: State, decision: Observation, other: nat)
    requires decision.OfDecision? && decision.applied && Rung(decision.action).Some? && other != 0
    requires PcOf(s, 0) == Ready && PostureRank(Rung(decision.action).value) > PostureRank(s.session.posture)
    ensures var s' := ExecuteAll(s, CallSections(0, decision));
            && s'.session.posture == Rung(decision.action).value
            && PcOf(s', 0) == Ready && PcOf(s', other) == PcOf(s, other)
  {
    UninterruptedCallIsAtomic(s, 0, decision);
    OthersDoNotMoveIt(s, CallSections(0, decision), other);
  }

  // Thread 0 takes decisions, thread 1 resolves challenges. Two decisions asked for a
  // reauthentication; the first has been answered correctly and the session is NORMAL.
  function TwoReauths(): seq<Section> {
    CallSections(0, OfDecision("first", Reauth, true, 10)) + CallSections(0, OfDecision("second", Reauth, true, 15))
    + CallSections(1, OfOutcome("first", Reauth, Accepted, 20))
  }

  lemma TwoReauthsLeaveNormal()
    ensures var s := ExecuteAll(Initial, TwoReauths());
            s.session == Unchallenged && PcOf(s, 0) == Ready && PcOf(s, 1) == Ready && |s.made| == 2
            && s.delivered == s.made
  {
    var first, second := OfDecision("first", Reauth, true, 10), OfDecision("second", Reauth, true, 15);
    var answer := OfOutcome("first", Reauth, Accepted, 20);
    UninterruptedCallIsAtomic(Initial, 0, first);
    OthersDoNotMoveIt(Initial, CallSections(0, first), 1);
    var s1 := ExecuteAll(Initial, CallSections(0, first));
    UninterruptedCallIsAtomic(s1, 0, second);
    OthersDoNotMoveIt(s1, CallSections(0, second), 1);
    var s2 := ExecuteAll(s1, CallSections(0, second));
    UninterruptedCallIsAtomic(s2, 1, answer);
    OthersDoNotMoveIt(s2, CallSections(1, answer), 0);
    ExecuteInTurn(Initial, CallSections(0, first), CallSections(0, second));
    ExecuteInTurn(Initial, CallSections(0, first) + CallSections(0, second), CallSections(1, answer));
  }

  /** So the assumption of atomic calls is needed. A soft challenge checks its rank while the
      session is NORMAL; the second reauthentication fails and locks the session out; the move
      then lowers the posture and leaves a failed response unblocked. */
  lemma StaleCheckLowersPosture()
    ensures var s := ExecuteAll(Initial, TwoReauths());
            var check := BeginDecision(0, "third", SoftChallenge, true);
            var between := CallSections(1, OfOutcome("second", Reauth, Rejected, 30));
            var moving := ExecuteAll(Execute(s, check), between);
            var moved := Execute(moving, Move(0, 40));
            && Checked(s, check) && OfOthers(between, 0)
            && moving.session.posture == LockedOut && moved.session.posture == Challenged
            && moved.session.failedResponses > 0 && !Blocking(moved.session.posture)
  {
    var s := ExecuteAll(Initial, TwoReauths());
    TwoReauthsLeaveNormal();
    var check, failure := BeginDecision(0, "third", SoftChallenge, true), OfOutcome("second", Reauth, Rejected, 30);
    var checked := Execute(s, check);
    OneLeavesOthers(s, check, 1);
    UninterruptedCallIsAtomic(checked, 1, failure);
    OthersDoNotMoveIt(checked, CallSections(1, failure), 0);
  }

  // ---------------------------------------------------------------------
  // When a failed response leaves the session blocked
  // ---------------------------------------------------------------------

  // A failed challenge whose consequence, or a decision whose blocking move, is still to come.
  predicate BlockingToCome(pc: Pc) {
    pc.ToCheckFailure? || (pc.ToMove? && Blocking(pc.target))
  }

  // The last transition led from a blocking posture down to CHALLENGED.
  predicate FellToChallenged(s: State) {
    && s.made != []
    && Blocking(s.made[|s.made| - 1].transition.previous) && s.made[|s.made| - 1].transition.current == Challenged
  }

  ghost predicate Excused(s: State) {
    s.session.failedResponses > 0 && !Blocking(s.session.posture) ==>
      FellToChallenged(s) || exists thread: nat :: BlockingToCome(PcOf(s, thread))
  }

  lemma MoveStaysExcused(s: State, section: Section)
    requires section.Move? && PcOf(s, section.thread).ToMove? && Excused(s) && s.session.posture == s.Reached()
    ensures Excused(Execute(s, section))
  {
    var s', pc := Execute(s, section), PcOf(s, section.thread);
    if s'.session.failedResponses > 0 && !Blocking(s'.session.posture) && !FellToChallenged(s') {
      assert !Blocking(s.session.posture) && !FellToChallenged(s);
      var thread: nat :| BlockingToCome(PcOf(s, thread));
      assert thread != section.thread;
      OneLeavesOthers(s, section, thread);
      assert BlockingToCome(PcOf(s', thread));
    }
  }

  lemma StepStaysExcused(s: State, section: Section)
    requires Excused(s) && s.session.posture == s.Reached()
    ensures Excused(Execute(s, section))
  {
    var s' := Execute(s, section);
    if section.Move? && PcOf(s, section.thread).ToMove? {
      MoveStaysExcused(s, section);
    } else if s'.session.failedResponses > 0 && !Blocking(s'.session.posture) && !FellToChallenged(s') {
      if s'.session.failedResponses > s.session.failedResponses {
        assert BlockingToCome(PcOf(s', section.thread));
      } else {
        var thread: nat :| BlockingToCome(PcOf(s, thread));
        if thread != section.thread {
          OneLeavesOthers(s, section, thread);
        }
        assert BlockingToCome(PcOf(s', thread));
      }
    }
  }

  lemma {:induction false} AlwaysExcused(schedule: seq<Section>)
    ensures Excused(ExecuteAll(Initial, schedule))
    decreases |schedule|
  {
    if schedule != [] {
      AlwaysExcused(schedule[..|schedule| - 1]);
      TransitionsChain(schedule[..|schedule| - 1]);
      StepStaysExcused(ExecuteAll(Initial, schedule[..|schedule| - 1]), schedule[|schedule| - 1]);
    }
  }

  /** With atomic calls a failed response always leaves the session blocked. Under every
      interleaving, once no blocking step is still to come, it does so exactly when the last
      transition did not lead from a blocking posture down to CHALLENGED. */
  lemma FailuresBlockExactly(schedule: seq<Section>)
    requires var s := ExecuteAll(Initial, schedule);
             s.session.failedResponses > 0 && forall thread: nat :: !BlockingToCome(PcOf(s, thread))
    ensures var s := ExecuteAll(Initial, schedule);
            Blocking(s.session.posture) <==> !FellToChallenged(s)
  {
    AlwaysExcused(schedule);
    TransitionsChain(schedule);
  }
}
