/** Authenticated sessions and their idle segments, with a monitor for the lifecycle log. */
module Sessions {
  import opened Wrappers
  import opened Texts

  /** Identifiers are given by the caller or minted by the id factory, which never repeats. */
  datatype Id = Given(name: string) | Minted(serial: nat)

  datatype EventKind = Keyboard | Mouse | Focus | Heartbeat | Registry | DeviceMetadata

  datatype IngestedEvent = IngestedEvent(kind: EventKind, sequence: nat, tCapture: nat)
  {
    predicate IsInput() {
      kind in {Keyboard, Mouse}
    }
  }

  datatype AuthenticatedEntry = AuthenticatedEntry(
    userId: string,
    evidenceId: string,
    authenticated: bool,
    anchorIsAware: bool,
    sessionId: Option<string>)

  datatype AttributedEvent = AttributedEvent(event: IngestedEvent, userId: string, sessionId: Id, segmentId: Id)

  datatype LifecycleKind = SessionStarted | SessionEnded | SessionStartRejected | SegmentStarted | SegmentEnded

  datatype LifecycleEvent = LifecycleEvent(
    kind: LifecycleKind,
    userId: string,
    sessionId: Option<Id>,
    segmentId: Option<Id>,
    tCapture: Option<nat>,
    reason: string)

  datatype LifecycleError = AlreadyActive | BlankIdentifier | NaiveAnchor | NoneActive

  datatype ActiveSession = ActiveSession(
    userId: string,
    sessionId: Id,
    segmentId: Option<Id>,
    lastInput: Option<nat>,
    lastEvent: Option<nat>)

  datatype ManagerState = ManagerState(active: Option<ActiveSession>, minted: nat)

  const Fresh := ManagerState(None, 0)

  function Started(s: ManagerState, entry: AuthenticatedEntry): (ManagerState, Result<LifecycleEvent, LifecycleError>) {
    if s.active.Some? then (s, Err(AlreadyActive))
    else if Blank(entry.userId) || Blank(entry.evidenceId) then (s, Err(BlankIdentifier))
    else if !entry.anchorIsAware then (s, Err(NaiveAnchor))
    else if !entry.authenticated then
      (s, Ok(LifecycleEvent(SessionStartRejected, entry.userId, None, None, None, "ENTRY_AUTHENTICATION_FAILED")))
    else
      var mint := entry.sessionId.None? || entry.sessionId.value == "";
      if !mint && Blank(entry.sessionId.value) then (s, Err(BlankIdentifier))
      else
        var id := if mint then Minted(s.minted) else Given(entry.sessionId.value);
        (ManagerState(Some(ActiveSession(entry.userId, id, None, None, None)), if mint then s.minted + 1 else s.minted),
         Ok(LifecycleEvent(SessionStarted, entry.userId, Some(id), None, None, "AUTHENTICATED_ENTRY")))
  }

  predicate IdleSplit(idleSplitUs: nat, session: ActiveSession, event: IngestedEvent) {
    event.IsInput() && session.lastInput.Some? && event.tCapture - session.lastInput.value > idleSplitUs
  }

  function Attributed(idleSplitUs: nat, s: ManagerState, event: IngestedEvent)
    : (ManagerState, Option<AttributedEvent>, seq<LifecycleEvent>)
  {
    if s.active.None? then (s, None, [])
    else
      var session := s.active.value;
      var split := IdleSplit(idleSplitUs, session, event);
      var ended :=
        if split && session.segmentId.Some?
        then [LifecycleEvent(SegmentEnded, session.userId, Some(session.sessionId), session.segmentId,
                             Some(event.tCapture), "IDLE_SPLIT")]
        else [];
      var opens := split || session.segmentId.None?;
      var segment := if opens then Minted(s.minted) else session.segmentId.value;
      var started :=
        if opens
        then [LifecycleEvent(SegmentStarted, session.userId, Some(session.sessionId), Some(segment),
                             Some(event.tCapture),
                             if session.lastEvent.None? then "FIRST_EVENT" else "INPUT_RESUMED")]
        else [];
      var session' := session.(segmentId := Some(segment), lastEvent := Some(event.tCapture),
                               lastInput := if event.IsInput() then Some(event.tCapture) else session.lastInput);
      (ManagerState(Some(session'), if opens then s.minted + 1 else s.minted),
       Some(AttributedEvent(event, session.userId, session.sessionId, segment)),
       ended + started)
  }

  function Ended(s: ManagerState, reason: string): (ManagerState, Result<seq<LifecycleEvent>, LifecycleError>) {
    if s.active.None? then (s, Err(NoneActive))
    else
      var session := s.active.value;
      var segment :=
        if session.segmentId.Some?
        then [LifecycleEvent(SegmentEnded, session.userId, Some(session.sessionId), session.segmentId,
                             session.lastEvent, reason)]
        else [];
      (s.(active := None),
       Ok(segment + [LifecycleEvent(SessionEnded, session.userId, Some(session.sessionId), None,
                                    session.lastEvent, reason)]))
  }

  class SessionManager {
    const idleSplitUs: nat
    var active: Option<ActiveSession>
    var minted: nat

    function View(): ManagerState
      reads this
    {
      ManagerState(active, minted)
    }

    constructor (idleSplitUs: nat)
      requires 0 < idleSplitUs
      ensures View() == Fresh && this.idleSplitUs == idleSplitUs
    {
      this.idleSplitUs := idleSplitUs;
      active, minted := None, 0;
    }

    method Mint() returns (id: Id)
      modifies this`minted
      ensures id == Minted(old(minted)) && minted == old(minted) + 1
    {
      id := Minted(minted);
      minted := minted + 1;
    }

    method Start(entry: AuthenticatedEntry) returns (result: Result<LifecycleEvent, LifecycleError>)
      modifies this
      ensures (View(), result) == Started(old(View()), entry)
    {
      if active.Some? {
        return Err(AlreadyActive);
      }
      if Blank(entry.userId) || Blank(entry.evidenceId) {
        return Err(BlankIdentifier);
      }
      if !entry.anchorIsAware {
        return Err(NaiveAnchor);
      }
      if !entry.authenticated {
        return Ok(LifecycleEvent(SessionStartRejected, entry.userId, None, None, None, "ENTRY_AUTHENTICATION_FAILED"));
      }
      var id: Id;
      if entry.sessionId.None? || entry.sessionId.value == "" {
        id := Mint();
      } else {
        if Blank(entry.sessionId.value) {
          return Err(BlankIdentifier);
        }
        id := Given(entry.sessionId.value);
      }
      active := Some(ActiveSession(entry.userId, id, None, None, None));
      return Ok(LifecycleEvent(SessionStarted, entry.userId, Some(id), None, None, "AUTHENTICATED_ENTRY"));
    }

    method Attribute(event: IngestedEvent)
      returns (attributed: Option<AttributedEvent>, lifecycle: seq<LifecycleEvent>)
      modifies this
      ensures (View(), attributed, lifecycle) == Attributed(idleSplitUs, old(View()), event)
    {
      if active.None? {
        return None, [];
      }
      var session := active.value;
      lifecycle := [];
      if IdleSplit(idleSplitUs, session, event) {
        if session.segmentId.Some? {
          lifecycle := [LifecycleEvent(SegmentEnded, session.userId, Some(session.sessionId), session.segmentId,
                                       Some(event.tCapture), "IDLE_SPLIT")];
        }
        session := session.(segmentId := None);
      }
      if session.segmentId.None? {
        var segment := Mint();
        session := session.(segmentId := Some(segment));
        lifecycle := lifecycle
          + [LifecycleEvent(SegmentStarted, session.userId, Some(session.sessionId), Some(segment),
                            Some(event.tCapture),
                            if session.lastEvent.None? then "FIRST_EVENT" else "INPUT_RESUMED")];
      }
      session := session.(lastEvent := Some(event.tCapture));
      if event.IsInput() {
        session := session.(lastInput := Some(event.tCapture));
      }
      active := Some(session);
      attributed := Some(AttributedEvent(event, session.userId, session.sessionId, session.segmentId.value));
      ghost var specified := Attributed(idleSplitUs, old(View()), event).2;
      assert lifecycle == specified;
    }

    method End(reason: string) returns (result: Result<seq<LifecycleEvent>, LifecycleError>)
      modifies this
      ensures (View(), result) == Ended(old(View()), reason)
    {
      if active.None? {
        return Err(NoneActive);
      }
      var session := active.value;
      var lifecycle := [];
      if session.segmentId.Some? {
        lifecycle := [LifecycleEvent(SegmentEnded, session.userId, Some(session.sessionId), session.segmentId,
                                     session.lastEvent, reason)];
      }
      lifecycle := lifecycle + [LifecycleEvent(SessionEnded, session.userId, Some(session.sessionId), None,
                                               session.lastEvent, reason)];
      active := None;
      return Ok(lifecycle);
    }
  }

  // ---------------------------------------------------------------------
  // The monitor: an independent reader of the log
  // ---------------------------------------------------------------------

  /** What leaves the manager, in order: lifecycle events and accepted events. */
  datatype Entry = Life(event: LifecycleEvent) | Accepted(attributed: AttributedEvent)

  datatype Phase =
    | Closed
    | Open(user: string, session: Id, ended: Option<nat>, idled: bool, lastSeen: Option<nat>)
    | InSegment(user: string, session: Id, segment: Id, start: nat, lastInput: Option<nat>, lastEvent: nat,
                opens: bool, resumes: bool)

  /** Reads one log entry, or rejects it. A log is accepted when it is a sequence of
      sessions, each one bracketing segments; every entry is the session's user's, every
      accepted event belongs to the open session and segment, neighbouring inputs of a
      segment are at most `idle` apart, a segment starts with its first event, and it is
      followed by another only when an input resumes after more than `idle`; a session and
      its last segment end with their last event. With `timed`, segments moreover end no earlier
      than they start, hold their events, and do not overlap. */
  function Read(idle: nat, timed: bool, phase: Phase, entry: Entry): Option<Phase> {
    match (phase, entry)
    case (Closed, Life(e)) =>
      if e.kind == SessionStarted && e.sessionId.Some? && e.segmentId.None? then Some(Open(e.userId, e.sessionId.value, None, false, None))
      else if e.kind == SessionStartRejected && e.sessionId.None? then Some(Closed)
      else None
    case (Open(user, session, ended, idled, last), Life(e)) =>
      if e.sessionId != Some(session) || e.userId != user then None
      else if e.kind == SegmentStarted && e.segmentId.Some? && e.tCapture.Some? && (ended.Some? ==> idled)
              && e.reason == (if ended.Some? then "INPUT_RESUMED" else "FIRST_EVENT")
              && (ended.Some? ==> e.tCapture == ended) then
        Some(InSegment(user, session, e.segmentId.value, e.tCapture.value, None, e.tCapture.value, true, ended.Some?))
      else if e.kind == SessionEnded && e.segmentId.None? && e.tCapture == ended == last then Some(Closed)
      else None
    case (InSegment(user, session, segment, start, lastInput, lastEvent, opens, resumes), Life(e)) =>
      if e.kind == SegmentEnded && e.userId == user && e.sessionId == Some(session) && e.segmentId == Some(segment)
         && e.tCapture.Some? && (timed ==> start <= lastEvent <= e.tCapture.value) then
        Some(Open(user, session, e.tCapture, lastInput.Some? && e.tCapture.value - lastInput.value > idle, Some(lastEvent)))
      else None
    case (InSegment(user, session, segment, start, lastInput, lastEvent, opens, resumes), Accepted(a)) =>
      var t := a.event.tCapture;
      if a.userId == user && a.sessionId == session && a.segmentId == segment && (timed ==> lastEvent <= t)
         && (opens ==> t == start) && (resumes ==> a.event.IsInput())
         && (a.event.IsInput() && lastInput.Some? ==> t - lastInput.value <= idle) then
        Some(InSegment(user, session, segment, start, if a.event.IsInput() then Some(t) else lastInput, t, false, false))
      else None
    case _ => None
  }

  function ReadAll(idle: nat, timed: bool, phase: Phase, log: seq<Entry>): Option<Phase> {
    if log == [] then Some(phase)
    else
      var before := ReadAll(idle, timed, phase, log[..|log| - 1]);
      if before.None? then None else Read(idle, timed, before.value, log[|log| - 1])
  }

  lemma {:induction false} ReadAppend(idle: nat, timed: bool, phase: Phase, log: seq<Entry>, more: seq<Entry>)
    requires ReadAll(idle, timed, phase, log).Some?
    ensures ReadAll(idle, timed, phase, log + more)
            == ReadAll(idle, timed, ReadAll(idle, timed, phase, log).value, more)
    decreases |more|
  {
    if more == [] {
      assert log + more == log;
    } else {
      ReadAppend(idle, timed, phase, log, more[..|more| - 1]);
      assert (log + more)[..|log + more| - 1] == log + more[..|more| - 1];
    }
  }

  // ---------------------------------------------------------------------
  // Whole runs
  // ---------------------------------------------------------------------

  datatype Operation = StartOp(entry: AuthenticatedEntry) | EventOp(event: IngestedEvent) | EndOp(reason: string)

  function Lives(events: seq<LifecycleEvent>): seq<Entry> {
    seq(|events|, i requires 0 <= i < |events| => Life(events[i]))
  }

  function Apply(idle: nat, s: ManagerState, op: Operation): (ManagerState, seq<Entry>) {
    match op
    case StartOp(entry) =>
      var (s', result) := Started(s, entry);
      (s', if result.Ok? then [Life(result.value)] else [])
    case EventOp(event) =>
      var (s', attributed, lifecycle) := Attributed(idle, s, event);
      (s', Lives(lifecycle) + if attributed.Some? then [Accepted(attributed.value)] else [])
    case EndOp(reason) =>
      var (s', result) := Ended(s, reason);
      (s', if result.Ok? then Lives(result.value) else [])
  }

  function Run(idle: nat, ops: seq<Operation>): (ManagerState, seq<Entry>) {
    if ops == [] then (Fresh, [])
    else
      var (s, log) := Run(idle, ops[..|ops| - 1]);
      var (s', more) := Apply(idle, s, ops[|ops| - 1]);
      (s', log + more)
  }

  // Capture times never fall within a session, as the sequence tracker guarantees.
  ghost predicate InOrder(idle: nat, ops: seq<Operation>) {
    forall i :: 0 <= i < |ops| && ops[i].EventOp? ==>
      var active := Run(idle, ops[..i]).0.active;
      active.Some? && active.value.lastEvent.Some? ==> active.value.lastEvent.value <= ops[i].event.tCapture
  }

  // The manager's state is the monitor's phase.
  ghost predicate Matches(timed: bool, s: ManagerState, phase: Phase) {
    if s.active.None? then phase == Closed
    else
      var session := s.active.value;
      if session.segmentId.None? then
        phase == Open(session.userId, session.sessionId, None, false, None) && session.lastInput.None? && session.lastEvent.None?
      else
        && phase.InSegment? && session.lastEvent.Some?
        && phase == InSegment(session.userId, session.sessionId, session.segmentId.value, phase.start, session.lastInput,
                              session.lastEvent.value, false, false)
        && (timed ==> phase.start <= phase.lastEvent)
  }

  lemma StartIsAccepted(idle: nat, timed: bool, s: ManagerState, phase: Phase, entry: AuthenticatedEntry)
    requires Matches(timed, s, phase)
    ensures var (s', more) := Apply(idle, s, StartOp(entry));
            ReadAll(idle, timed, phase, more).Some? && Matches(timed, s', ReadAll(idle, timed, phase, more).value)
  {
    var more := Apply(idle, s, StartOp(entry)).1;
    if more != [] {
      ReadOne(idle, timed, phase, more[0]);
    }
  }

  lemma EndIsAccepted(idle: nat, timed: bool, s: ManagerState, phase: Phase, reason: string)
    requires Matches(timed, s, phase)
    ensures var (s', more) := Apply(idle, s, EndOp(reason));
            ReadAll(idle, timed, phase, more).Some? && Matches(timed, s', ReadAll(idle, timed, phase, more).value)
  {
    var more := Apply(idle, s, EndOp(reason)).1;
    if |more| == 1 {
      ReadOne(idle, timed, phase, more[0]);
      assert more == [more[0]];
    } else if |more| == 2 {
      ReadTwo(idle, timed, phase, more[0], more[1]);
      assert more == [more[0], more[1]];
    }
  }

  lemma SplitIsAccepted(idle: nat, timed: bool, s: ManagerState, phase: Phase, event: IngestedEvent)
    requires Matches(timed, s, phase) && s.active.Some?
    requires timed && s.active.value.lastEvent.Some? ==> s.active.value.lastEvent.value <= event.tCapture
    requires s.active.value.segmentId.Some? && IdleSplit(idle, s.active.value, event)
    ensures var (s', more) := Apply(idle, s, EventOp(event));
            ReadAll(idle, timed, phase, more).Some? && Matches(timed, s', ReadAll(idle, timed, phase, more).value)
  {
    var (s', attributed, lifecycle) := Attributed(idle, s, event);
    var more := Apply(idle, s, EventOp(event)).1;
    assert more == [Life(lifecycle[0]), Life(lifecycle[1]), Accepted(attributed.value)];
    var open := Read(idle, timed, phase, more[0]);
    assert open == Some(Open(phase.user, phase.session, Some(event.tCapture), true, Some(phase.lastEvent)));
    var segment := Read(idle, timed, open.value, more[1]);
    assert segment.Some?;
    ReadTwo(idle, timed, phase, more[0], more[1]);
    ReadThree(idle, timed, phase, more[0], more[1], more[2]);
  }

  lemma FirstIsAccepted(idle: nat, timed: bool, s: ManagerState, phase: Phase, event: IngestedEvent)
    requires Matches(timed, s, phase) && s.active.Some?
    requires timed && s.active.value.lastEvent.Some? ==> s.active.value.lastEvent.value <= event.tCapture
    requires s.active.value.segmentId.None?
    ensures var (s', more) := Apply(idle, s, EventOp(event));
            ReadAll(idle, timed, phase, more).Some? && Matches(timed, s', ReadAll(idle, timed, phase, more).value)
  {
    var (s', attributed, lifecycle) := Attributed(idle, s, event);
    var more := Apply(idle, s, EventOp(event)).1;
    assert more == [Life(lifecycle[0]), Accepted(attributed.value)];
    ReadTwo(idle, timed, phase, more[0], more[1]);
  }

  lemma InsideIsAccepted(idle: nat, timed: bool, s: ManagerState, phase: Phase, event: IngestedEvent)
    requires Matches(timed, s, phase) && s.active.Some?
    requires timed && s.active.value.lastEvent.Some? ==> s.active.value.lastEvent.value <= event.tCapture
    requires s.active.value.segmentId.Some? && !IdleSplit(idle, s.active.value, event)
    ensures var (s', more) := Apply(idle, s, EventOp(event));
            ReadAll(idle, timed, phase, more).Some? && Matches(timed, s', ReadAll(idle, timed, phase, more).value)
  {
    var (s', attributed, lifecycle) := Attributed(idle, s, event);
    var more := Apply(idle, s, EventOp(event)).1;
    assert more == [Accepted(attributed.value)];
    ReadOne(idle, timed, phase, more[0]);
  }

  /** One operation extends the log by entries the monitor accepts. */
  lemma {:induction false} ApplyIsAccepted(idle: nat, timed: bool, s: ManagerState, phase: Phase, op: Operation)
    requires Matches(timed, s, phase)
    requires timed && op.EventOp? && s.active.Some? && s.active.value.lastEvent.Some? ==>
               s.active.value.lastEvent.value <= op.event.tCapture
    ensures var (s', more) := Apply(idle, s, op);
            ReadAll(idle, timed, phase, more).Some? && Matches(timed, s', ReadAll(idle, timed, phase, more).value)
  {
    match op
    case StartOp(entry) => StartIsAccepted(idle, timed, s, phase, entry);
    case EventOp(event) =>
      if s.active.Some? {
        if s.active.value.segmentId.None? {
          FirstIsAccepted(idle, timed, s, phase, event);
        } else if IdleSplit(idle, s.active.value, event) {
          SplitIsAccepted(idle, timed, s, phase, event);
        } else {
          InsideIsAccepted(idle, timed, s, phase, event);
        }
      }
    case EndOp(reason) => EndIsAccepted(idle, timed, s, phase, reason);
  }

  lemma ReadOne(idle: nat, timed: bool, phase: Phase, a: Entry)
    ensures ReadAll(idle, timed, phase, [a]) == Read(idle, timed, phase, a)
  {
    assert [a][..0] == [];
  }

  lemma ReadTwo(idle: nat, timed: bool, phase: Phase, a: Entry, b: Entry)
    ensures ReadAll(idle, timed, phase, [a, b]) ==
            var first := Read(idle, timed, phase, a);
            if first.None? then None else Read(idle, timed, first.value, b)
  {
    ReadOne(idle, timed, phase, a);
    assert [a, b][..1] == [a];
  }

  lemma ReadThree(idle: nat, timed: bool, phase: Phase, a: Entry, b: Entry, c: Entry)
    ensures ReadAll(idle, timed, phase, [a, b, c]) ==
            var second := ReadAll(idle, timed, phase, [a, b]);
            if second.None? then None else Read(idle, timed, second.value, c)
  {
    assert [a, b, c][..2] == [a, b];
  }

  /** When a session starts, is rejected, or is refused with an error. */
  lemma StartIsExact(s: ManagerState, entry: AuthenticatedEntry)
    ensures var (s', result) := Started(s, entry);
            var wellFormed := !Blank(entry.userId) && !Blank(entry.evidenceId) && entry.anchorIsAware;
            && (s.active.Some? <==> result == Err(AlreadyActive))
            && (s.active.None? && wellFormed && !entry.authenticated <==>
                  result.Ok? && result.value.kind == SessionStartRejected)
            && (s.active.None? && wellFormed && entry.authenticated
                && (entry.sessionId.Some? && entry.sessionId.value != "" ==> !Blank(entry.sessionId.value)) <==>
                  result.Ok? && result.value.kind == SessionStarted)
            && (result.Ok? && result.value.kind == SessionStarted <==> s' != s)
            && (result.Ok? ==> result.value.kind in {SessionStarted, SessionStartRejected} && result.value.userId == entry.userId)
            && (result == Err(NaiveAnchor) <==>
                  s.active.None? && !Blank(entry.userId) && !Blank(entry.evidenceId) && !entry.anchorIsAware)
  {
  }

  /** Every run's lifecycle log is well bracketed: the monitor accepts it, with every
      accepted event inside its segment, no idle gap inside a segment and one between any
      two of a session; when capture times never fall within a session, segments also
      respect time and do not overlap. */
  lemma {:induction false} LifecycleIsWellBracketed(idle: nat, timed: bool, ops: seq<Operation>)
    requires timed ==> InOrder(idle, ops)
    ensures var (s, log) := Run(idle, ops);
            var phase := ReadAll(idle, timed, Closed, log);
            phase.Some? && Matches(timed, s, phase.value)
    decreases |ops|
  {
    if ops != [] {
      var last := |ops| - 1;
      if timed {
        forall i | 0 <= i < last && ops[i].EventOp?
          ensures var active := Run(idle, ops[..last][..i]).0.active;
                  active.Some? && active.value.lastEvent.Some? ==>
                    active.value.lastEvent.value <= ops[..last][i].event.tCapture
        {
          assert ops[..last][..i] == ops[..i];
        }
      }
      LifecycleIsWellBracketed(idle, timed, ops[..last]);
      var (s, log) := Run(idle, ops[..last]);
      var phase := ReadAll(idle, timed, Closed, log).value;
      ApplyIsAccepted(idle, timed, s, phase, ops[last]);
      ReadAppend(idle, timed, Closed, log, Apply(idle, s, ops[last]).1);
    }
  }

  // ---------------------------------------------------------------------
  // Identifiers
  // ---------------------------------------------------------------------

  // The serial number under which a session or a segment was started.
  function SerialOf(entry: Entry): seq<nat> {
    match entry
    case Accepted(_) => []
    case Life(e) =>
      if e.kind == SegmentStarted && e.segmentId.Some? && e.segmentId.value.Minted? then [e.segmentId.value.serial]
      else if e.kind == SessionStarted && e.sessionId.Some? && e.sessionId.value.Minted? then [e.sessionId.value.serial]
      else []
  }

  function Serials(log: seq<Entry>): seq<nat> {
    if log == [] then [] else Serials(log[..|log| - 1]) + SerialOf(log[|log| - 1])
  }

  ghost predicate NeverReused(serials: seq<nat>, next: nat) {
    && (forall i, j :: 0 <= i < j < |serials| ==> serials[i] < serials[j])
    && forall i :: 0 <= i < |serials| ==> serials[i] < next
  }

  lemma {:induction false} SerialsAppend(log: seq<Entry>, more: seq<Entry>)
    ensures Serials(log + more) == Serials(log) + Serials(more)
    decreases |more|
  {
    if more == [] {
      assert log + more == log;
    } else {
      var before, last := more[..|more| - 1], more[|more| - 1];
      SerialsAppend(log, before);
      assert (log + more)[..|log + more| - 1] == log + before;
      Associates(Serials(log), Serials(before), SerialOf(last));
    }
  }

  lemma Associates(a: seq<nat>, b: seq<nat>, c: seq<nat>)
    ensures (a + b) + c == a + (b + c)
  {
  }

  // What one operation mints, it mints in order.
  ghost predicate Mints(idle: nat, s: ManagerState, op: Operation) {
    var (s', more) := Apply(idle, s, op);
    Serials(more) == (if s'.minted == s.minted then [] else [s.minted]) && s.minted <= s'.minted <= s.minted + 1
  }

  lemma StartMints(idle: nat, s: ManagerState, entry: AuthenticatedEntry)
    ensures Mints(idle, s, StartOp(entry))
  {
    var more := Apply(idle, s, StartOp(entry)).1;
    if more != [] {
      SerialsOfFew(more[0], more[0], more[0]);
      assert more == [more[0]];
    }
  }

  lemma EndMints(idle: nat, s: ManagerState, reason: string)
    ensures Mints(idle, s, EndOp(reason))
  {
    var more := Apply(idle, s, EndOp(reason)).1;
    if |more| == 1 {
      SerialsOfFew(more[0], more[0], more[0]);
      assert more == [more[0]];
    } else if |more| == 2 {
      SerialsOfFew(more[0], more[1], more[1]);
      assert more == [more[0], more[1]];
    }
  }

  lemma SplitMints(idle: nat, s: ManagerState, event: IngestedEvent)
    requires s.active.Some? && s.active.value.segmentId.Some? && IdleSplit(idle, s.active.value, event)
    ensures Mints(idle, s, EventOp(event))
  {
    var (s', attributed, lifecycle) := Attributed(idle, s, event);
    var more := Apply(idle, s, EventOp(event)).1;
    assert more == [Life(lifecycle[0]), Life(lifecycle[1]), Accepted(attributed.value)];
    SerialsOfFew(more[0], more[1], more[2]);
    assert SerialOf(more[0]) == [] && SerialOf(more[1]) == [s.minted] && SerialOf(more[2]) == [];
  }

  lemma FirstMints(idle: nat, s: ManagerState, event: IngestedEvent)
    requires s.active.Some? && s.active.value.segmentId.None?
    ensures Mints(idle, s, EventOp(event))
  {
    var (s', attributed, lifecycle) := Attributed(idle, s, event);
    var more := Apply(idle, s, EventOp(event)).1;
    assert more == [Life(lifecycle[0]), Accepted(attributed.value)];
    SerialsOfFew(more[0], more[1], more[1]);
    assert SerialOf(more[0]) == [s.minted] && SerialOf(more[1]) == [];
  }

  lemma InsideMints(idle: nat, s: ManagerState, event: IngestedEvent)
    requires s.active.Some? && s.active.value.segmentId.Some? && !IdleSplit(idle, s.active.value, event)
    ensures Mints(idle, s, EventOp(event))
  {
    var (s', attributed, lifecycle) := Attributed(idle, s, event);
    var more := Apply(idle, s, EventOp(event)).1;
    assert more == [Accepted(attributed.value)];
    SerialsOfFew(more[0], more[0], more[0]);
  }

  lemma EventMints(idle: nat, s: ManagerState, event: IngestedEvent)
    ensures Mints(idle, s, EventOp(event))
  {
    if s.active.Some? {
      if s.active.value.segmentId.None? {
        FirstMints(idle, s, event);
      } else if IdleSplit(idle, s.active.value, event) {
        SplitMints(idle, s, event);
      } else {
        InsideMints(idle, s, event);
      }
    }
  }

  lemma ApplyMints(idle: nat, s: ManagerState, op: Operation)
    ensures Mints(idle, s, op)
  {
    match op
    case StartOp(entry) => StartMints(idle, s, entry);
    case EventOp(event) => EventMints(idle, s, event);
    case EndOp(reason) => EndMints(idle, s, reason);
  }

  lemma SerialsOfFew(a: Entry, b: Entry, c: Entry)
    ensures Serials([a]) == SerialOf(a)
    ensures Serials([a, b]) == SerialOf(a) + SerialOf(b)
    ensures Serials([a, b, c]) == SerialOf(a) + SerialOf(b) + SerialOf(c)
  {
    assert [a][..0] == [] && [a, b][..1] == [a] && [a, b, c][..2] == [a, b];
  }

  /** No identifier minted for a session or a segment is ever minted again. */
  lemma {:induction false} IdentifiersAreFresh(idle: nat, ops: seq<Operation>)
    ensures var (s, log) := Run(idle, ops); NeverReused(Serials(log), s.minted)
    decreases |ops|
  {
    if ops != [] {
      var before := ops[..|ops| - 1];
      IdentifiersAreFresh(idle, before);
      var (s, log) := Run(idle, before);
      var (s', more) := Apply(idle, s, ops[|ops| - 1]);
      ApplyMints(idle, s, ops[|ops| - 1]);
      SerialsAppend(log, more);
      OneMoreIsFresh(Serials(log), Serials(more), s.minted, s'.minted);
    }
  }

  lemma OneMoreIsFresh(serials: seq<nat>, more: seq<nat>, next: nat, next': nat)
    requires NeverReused(serials, next) && next <= next' <= next + 1 && more == if next' == next then [] else [next]
    ensures NeverReused(serials + more, next')
  {
    if next' == next {
      assert serials + more == serials;
    }
  }
}
