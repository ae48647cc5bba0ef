/** The ingestion pipeline: chunks in, attributed events out, every frame accounted for. */
module Pipeline {
  import opened Wrappers
  import opened Deques
  import opened Framing
  import Ordering
  import opened Sessions
  import opened Texts

  datatype Settings = Settings(maxFrameBytes: nat, ringCapacity: nat, idleSplitUs: nat)
  {
    predicate Valid() {
      0 < maxFrameBytes && 0 < ringCapacity && 0 < idleSplitUs
    }
  }

  /** The verdict of JSON and schema validation, which this model leaves to its caller. */
  datatype Validated = MalformedJson | InvalidSchema | Valid(event: IngestedEvent)

  datatype Counters = Counters(
    chunks: nat, frames: nat, accepted: nat,
    malformed: nat, schema: nat,
    oversized: nat, zeroLength: nat, truncated: nat,
    missing: nat, duplicates: nat, outOfOrder: nat, inactive: nat,
    overwrites: nat, availability: nat)

  const Zero := Counters(0, 0, 0, 0, 0, 0, 0, 0, 0, 0, 0, 0, 0, 0)

  datatype State = State(
    decoder: DecoderState,
    tracker: Ordering.TrackerState,
    sessions: ManagerState,
    ring: seq<AttributedEvent>,
    counters: Counters)

  datatype ReportError = BlankField

  /** What one call reports: accepted events, lifecycle events and availability codes. */
  datatype Batch = Batch(events: seq<AttributedEvent>, lifecycle: seq<LifecycleEvent>, availability: seq<string>)

  function IssueCode(issue: FrameIssue): string {
    match issue
    case OversizedFrame(_, _) => "OVERSIZED_FRAME"
    case ZeroLengthFrame => "ZERO_LENGTH_FRAME"
    case TruncatedFrame(_, _) => "TRUNCATED_FRAME"
  }

  function Counted(c: Counters, issue: FrameIssue): Counters {
    var d := c.(availability := c.availability + 1);
    match issue
    case OversizedFrame(_, _) => d.(oversized := c.oversized + 1)
    case ZeroLengthFrame => d.(zeroLength := c.zeroLength + 1)
    case TruncatedFrame(_, _) => d.(truncated := c.truncated + 1)
  }

  function CountedAll(c: Counters, issues: seq<FrameIssue>): Counters {
    if issues == [] then c else Counted(CountedAll(c, issues[..|issues| - 1]), issues[|issues| - 1])
  }

  function Codes(issues: seq<FrameIssue>): seq<string> {
    if issues == [] then [] else Codes(issues[..|issues| - 1]) + [IssueCode(issues[|issues| - 1])]
  }

  /** One payload: validated, ordered, attributed, and put in the ring. */
  function Consumed(settings: Settings, s: State, verdict: Validated): (State, Batch) {
    var c := s.counters.(frames := s.counters.frames + 1);
    match verdict
    case MalformedJson =>
      (s.(counters := c.(malformed := c.malformed + 1, availability := c.availability + 1)),
       Batch([], [], ["MALFORMED_JSON"]))
    case InvalidSchema =>
      (s.(counters := c.(schema := c.schema + 1, availability := c.availability + 1)),
       Batch([], [], ["INVALID_EVENT_SCHEMA"]))
    case Valid(event) =>
      var (tracker, ordering) := Ordering.Observed(settings.ringCapacity, s.tracker, event.sequence, Some(event.tCapture));
      Placed(settings, s.(tracker := tracker, counters := c.(missing := c.missing + ordering.missing)), ordering.status, event)
  }

  function Placed(settings: Settings, s: State, status: Ordering.Status, event: IngestedEvent): (State, Batch) {
    var c := s.counters;
    if status == Ordering.Duplicate then
      (s.(counters := c.(duplicates := c.duplicates + 1)), Batch([], [], []))
    else if status == Ordering.OutOfOrder then
      (s.(counters := c.(outOfOrder := c.outOfOrder + 1)), Batch([], [], []))
    else
      var (sessions, attributed, lifecycle) := Attributed(settings.idleSplitUs, s.sessions, event);
      if attributed.None? then
        (s.(counters := c.(inactive := c.inactive + 1, availability := c.availability + 1)),
         Batch([], [], ["INACTIVE_SESSION"]))
      else
        (s.(sessions := sessions, ring := LastN(s.ring + [attributed.value], settings.ringCapacity),
            counters := c.(accepted := c.accepted + 1,
                           overwrites := c.overwrites + if |s.ring| == settings.ringCapacity then 1 else 0)),
         Batch([attributed.value], lifecycle, []))
  }

  function Joined(a: Batch, b: Batch): Batch {
    Batch(a.events + b.events, a.lifecycle + b.lifecycle, a.availability + b.availability)
  }

  function ConsumedAll(settings: Settings, validate: seq<Byte> -> Validated, s: State, payloads: seq<seq<Byte>>)
    : (State, Batch)
  {
    if payloads == [] then (s, Batch([], [], []))
    else
      var (before, batch) := ConsumedAll(settings, validate, s, payloads[..|payloads| - 1]);
      var (after, more) := Consumed(settings, before, validate(payloads[|payloads| - 1]));
      (after, Joined(batch, more))
  }

  function ConsumedDecoded(settings: Settings, validate: seq<Byte> -> Validated, s: State, decoded: DecodeResult)
    : (State, Batch)
  {
    var (s', batch) :=
      ConsumedAll(settings, validate, s.(counters := CountedAll(s.counters, decoded.issues)), decoded.payloads);
    (s', Joined(Batch([], [], Codes(decoded.issues)), batch))
  }

  function Fed(settings: Settings, validate: seq<Byte> -> Validated, s: State, chunk: seq<Byte>): (State, Batch) {
    var (decoder, decoded) := Feed(settings.maxFrameBytes, s.decoder, chunk);
    ConsumedDecoded(settings, validate,
                    s.(decoder := decoder, counters := s.counters.(chunks := s.counters.chunks + 1)), decoded)
  }

  function Finished(settings: Settings, validate: seq<Byte> -> Validated, s: State): (State, Batch) {
    ConsumedDecoded(settings, validate, s.(decoder := Idle), Finish(s.decoder))
  }

  function SessionBegun(s: State, entry: AuthenticatedEntry): (State, Result<LifecycleEvent, LifecycleError>) {
    var (sessions, result) := Started(s.sessions, entry);
    if result.Ok? && result.value.kind == SessionStarted then
      (s.(sessions := sessions, tracker := Ordering.Fresh, ring := []), result)
    else (s.(sessions := sessions), result)
  }

  function SessionClosed(s: State, reason: string): (State, Result<seq<LifecycleEvent>, LifecycleError>) {
    var (sessions, result) := Ended(s.sessions, reason);
    if result.Ok? then (s.(sessions := sessions, tracker := Ordering.Fresh, ring := []), result) else (s, result)
  }

  // A report of a failure, unless one of its fields is blank.
  function Reported(s: State, code: string, component: string, detail: string): (State, Result<string, ReportError>) {
    if Blank(code) || Blank(component) || Blank(detail) then (s, Err(BlankField))
    else (s.(counters := s.counters.(availability := s.counters.availability + 1)), Ok(code))
  }

  class IngestionPipeline {
    const settings: Settings
    const validate: seq<Byte> -> Validated
    const decoder: IncrementalFrameDecoder
    const ordering: Ordering.SequenceTracker
    const sessions: SessionManager
    var rawRing: seq<AttributedEvent>
    var counters: Counters

    ghost predicate Valid()
      reads this, decoder, ordering, sessions
    {
      && settings.Valid()
      && decoder.Valid() && decoder.maxFrameBytes == settings.maxFrameBytes
      && ordering.Valid() && ordering.historyCapacity == settings.ringCapacity
      && sessions.idleSplitUs == settings.idleSplitUs
    }

    function View(): State
      reads this, decoder, ordering, sessions
    {
      State(decoder.View(), ordering.View(), sessions.View(), rawRing, counters)
    }

    constructor (settings: Settings, validate: seq<Byte> -> Validated)
      requires settings.Valid()
      ensures Valid() && this.settings == settings && this.validate == validate
      ensures View() == Initial
      ensures fresh(decoder) && fresh(ordering) && fresh(sessions)
    {
      this.settings := settings;
      this.validate := validate;
      decoder := new IncrementalFrameDecoder(settings.maxFrameBytes);
      ordering := new Ordering.SequenceTracker(settings.ringCapacity);
      sessions := new SessionManager(settings.idleSplitUs);
      rawRing := [];
      counters := Zero;
    }

    method StartSession(entry: AuthenticatedEntry) returns (result: Result<LifecycleEvent, LifecycleError>)
      requires Valid()
      modifies this`rawRing, ordering, sessions
      ensures Valid() && (View(), result) == SessionBegun(old(View()), entry)
    {
      result := sessions.Start(entry);
      if result.Ok? && result.value.kind == SessionStarted {
        ordering.Reset();
        rawRing := [];
      }
    }

    method EndSession(reason: string) returns (result: Result<seq<LifecycleEvent>, LifecycleError>)
      requires Valid()
      modifies this`rawRing, ordering, sessions
      ensures Valid() && (View(), result) == SessionClosed(old(View()), reason)
    {
      result := sessions.End(reason);
      if result.Ok? {
        ordering.Reset();
        rawRing := [];
      }
    }

    method RecordFrameIssue(issue: FrameIssue) returns (code: string)
      modifies this`counters
      ensures counters == Counted(old(counters), issue) && code == IssueCode(issue)
    {
      match issue {
        case OversizedFrame(_, _) => counters := counters.(oversized := counters.oversized + 1);
        case ZeroLengthFrame => counters := counters.(zeroLength := counters.zeroLength + 1);
        case TruncatedFrame(_, _) => counters := counters.(truncated := counters.truncated + 1);
      }
      counters := counters.(availability := counters.availability + 1);
      code := IssueCode(issue);
    }

    method Consume(payload: seq<Byte>) returns (batch: Batch)
      requires Valid()
      modifies this`rawRing, this`counters, ordering, sessions
      ensures Valid() && (View(), batch) == Consumed(settings, old(View()), validate(payload))
    {
      counters := counters.(frames := counters.frames + 1);
      var validated := validate(payload);
      if validated.MalformedJson? {
        counters := counters.(malformed := counters.malformed + 1, availability := counters.availability + 1);
        return Batch([], [], ["MALFORMED_JSON"]);
      }
      if validated.InvalidSchema? {
        counters := counters.(schema := counters.schema + 1, availability := counters.availability + 1);
        return Batch([], [], ["INVALID_EVENT_SCHEMA"]);
      }
      var event := validated.event;
      var observed := ordering.Observe(event.sequence, Some(event.tCapture));
      counters := counters.(missing := counters.missing + observed.missing);
      batch := Place(observed.status, event);
    }

    method Place(status: Ordering.Status, event: IngestedEvent) returns (batch: Batch)
      requires Valid()
      modifies this`rawRing, this`counters, sessions
      ensures Valid() && (View(), batch) == Placed(settings, old(View()), status, event)
    {
      if status == Ordering.Duplicate {
        counters := counters.(duplicates := counters.duplicates + 1);
        return Batch([], [], []);
      }
      if status == Ordering.OutOfOrder {
        counters := counters.(outOfOrder := counters.outOfOrder + 1);
        return Batch([], [], []);
      }
      var attributed, changes := sessions.Attribute(event);
      if attributed.None? {
        counters := counters.(inactive := counters.inactive + 1, availability := counters.availability + 1);
        return Batch([], [], ["INACTIVE_SESSION"]);
      }
      if |rawRing| == settings.ringCapacity {
        counters := counters.(overwrites := counters.overwrites + 1);
      }
      rawRing := LastN(rawRing + [attributed.value], settings.ringCapacity);
      counters := counters.(accepted := counters.accepted + 1);
      return Batch([attributed.value], changes, []);
    }

    method ConsumeDecoded(decoded: DecodeResult) returns (batch: Batch)
      requires Valid()
      modifies this`rawRing, this`counters, ordering, sessions
      ensures Valid() && (View(), batch) == ConsumedDecoded(settings, validate, old(View()), decoded)
    {
      var availability: seq<string> := [];
      for i := 0 to |decoded.issues|
        invariant Valid()
        invariant View() == old(View()).(counters := CountedAll(old(counters), decoded.issues[..i]))
        invariant availability == Codes(decoded.issues[..i])
      {
        assert decoded.issues[..i + 1][..i] == decoded.issues[..i];
        var code := RecordFrameIssue(decoded.issues[i]);
        availability := availability + [code];
      }
      assert decoded.issues[..|decoded.issues|] == decoded.issues;
      ghost var start := View();
      batch := Batch([], [], []);
      for i := 0 to |decoded.payloads|
        invariant Valid()
        invariant (View(), batch) == ConsumedAll(settings, validate, start, decoded.payloads[..i])
      {
        assert decoded.payloads[..i + 1][..i] == decoded.payloads[..i];
        var more := Consume(decoded.payloads[i]);
        batch := Joined(batch, more);
      }
      assert decoded.payloads[..|decoded.payloads|] == decoded.payloads;
      batch := Joined(Batch([], [], availability), batch);
    }

    method FeedChunk(chunk: seq<Byte>) returns (batch: Batch)
      requires Valid()
      modifies this`rawRing, this`counters, decoder, ordering, sessions
      ensures Valid() && (View(), batch) == Fed(settings, validate, old(View()), chunk)
    {
      counters := counters.(chunks := counters.chunks + 1);
      var decoded := decoder.FeedChunk(chunk);
      batch := ConsumeDecoded(decoded);
    }

    method FinishTransport() returns (batch: Batch)
      requires Valid()
      modifies this`rawRing, this`counters, decoder, ordering, sessions
      ensures Valid() && (View(), batch) == Finished(settings, validate, old(View()))
    {
      var decoded := decoder.FinishStream();
      batch := ConsumeDecoded(decoded);
    }

    method ReportInfrastructureFailure(code: string, component: string, detail: string)
      returns (result: Result<string, ReportError>)
      requires Valid()
      modifies this`counters
      ensures Valid() && (View(), result) == Reported(old(View()), code, component, detail)
    {
      if Blank(code) || Blank(component) || Blank(detail) {
        return Err(BlankField);
      }
      counters := counters.(availability := counters.availability + 1);
      return Ok(code);
    }
  }

  const Initial := State(Idle, Ordering.Fresh, Sessions.Fresh, [], Zero)

  // ---------------------------------------------------------------------
  // Whole runs
  // ---------------------------------------------------------------------

  datatype Operation =
    | BeginOp(entry: AuthenticatedEntry)
    | CloseOp(reason: string)
    | FeedOp(chunk: seq<Byte>)
    | FinishOp
    | ReportOp(code: string, component: string, detail: string)

  /** Everything a run leaves behind: the state, the lifecycle-and-event log, the events
      accepted since the last session change, and the failures reported from outside. */
  datatype History = History(state: State, log: seq<Entry>, sinceChange: seq<AttributedEvent>, reports: nat)

  const Beginning := History(Initial, [], [], 0)

  // A consumed payload extends the history by its lifecycle changes, then its event.
  function Extended(h: History, s: State, batch: Batch): History {
    h.(state := s,
       log := h.log + Lives(batch.lifecycle) + if batch.events == [] then [] else [Accepted(batch.events[0])],
       sinceChange := h.sinceChange + batch.events)
  }

  function ConsumeHistory(settings: Settings, validate: seq<Byte> -> Validated, h: History, payloads: seq<seq<Byte>>)
    : History
  {
    if payloads == [] then h
    else
      var before := ConsumeHistory(settings, validate, h, payloads[..|payloads| - 1]);
      var (s, batch) := Consumed(settings, before.state, validate(payloads[|payloads| - 1]));
      Extended(before, s, batch)
  }

  function DecodedHistory(settings: Settings, validate: seq<Byte> -> Validated, h: History,
                          decoded: DecodeResult): History {
    ConsumeHistory(settings, validate,
                   h.(state := h.state.(counters := CountedAll(h.state.counters, decoded.issues))), decoded.payloads)
  }

  function Step(settings: Settings, validate: seq<Byte> -> Validated, h: History, op: Operation): History {
    match op
    case BeginOp(entry) =>
      var (s, result) := SessionBegun(h.state, entry);
      if result.Ok? then
        h.(state := s, log := h.log + [Life(result.value)],
           sinceChange := if result.value.kind == SessionStarted then [] else h.sinceChange)
      else h.(state := s)
    case CloseOp(reason) =>
      var (s, result) := SessionClosed(h.state, reason);
      if result.Ok? then h.(state := s, log := h.log + Lives(result.value), sinceChange := []) else h.(state := s)
    case FeedOp(chunk) =>
      var (decoder, decoded) := Feed(settings.maxFrameBytes, h.state.decoder, chunk);
      var c := h.state.counters;
      DecodedHistory(settings, validate,
                     h.(state := h.state.(decoder := decoder, counters := c.(chunks := c.chunks + 1))), decoded)
    case FinishOp =>
      DecodedHistory(settings, validate, h.(state := h.state.(decoder := Idle)), Finish(h.state.decoder))
    case ReportOp(code, component, detail) =>
      var (s, result) := Reported(h.state, code, component, detail);
      h.(state := s, reports := h.reports + if result.Ok? then 1 else 0)
  }

  function Run(settings: Settings, validate: seq<Byte> -> Validated, ops: seq<Operation>): History {
    if ops == [] then Beginning
    else Step(settings, validate, Run(settings, validate, ops[..|ops| - 1]), ops[|ops| - 1])
  }

  // The history's state is the one the methods leave.
  lemma {:induction false} HistoryFollowsTheMethods(
    settings: Settings, validate: seq<Byte> -> Validated, h: History, payloads: seq<seq<Byte>>)
    ensures ConsumeHistory(settings, validate, h, payloads).state == ConsumedAll(settings, validate, h.state, payloads).0
  {
    if payloads != [] {
      HistoryFollowsTheMethods(settings, validate, h, payloads[..|payloads| - 1]);
    }
  }

  lemma DecodingFollowsTheMethods(settings: Settings, validate: seq<Byte> -> Validated, h: History, decoded: DecodeResult)
    ensures DecodedHistory(settings, validate, h, decoded).state == ConsumedDecoded(settings, validate, h.state, decoded).0
  {
    HistoryFollowsTheMethods(settings, validate,
                             h.(state := h.state.(counters := CountedAll(h.state.counters, decoded.issues))),
                             decoded.payloads);
  }

  lemma FeedIsTheCall(settings: Settings, validate: seq<Byte> -> Validated, h: History, chunk: seq<Byte>)
    ensures Step(settings, validate, h, FeedOp(chunk)).state == Fed(settings, validate, h.state, chunk).0
  {
    var (decoder, decoded) := Feed(settings.maxFrameBytes, h.state.decoder, chunk);
    var counters := h.state.counters.(chunks := h.state.counters.chunks + 1);
    var counted := h.(state := h.state.(decoder := decoder, counters := counters));
    assert Step(settings, validate, h, FeedOp(chunk)) == DecodedHistory(settings, validate, counted, decoded);
    assert Fed(settings, validate, h.state, chunk) == ConsumedDecoded(settings, validate, counted.state, decoded);
    DecodingFollowsTheMethods(settings, validate, counted, decoded);
  }

  lemma FinishIsTheCall(settings: Settings, validate: seq<Byte> -> Validated, h: History)
    ensures Step(settings, validate, h, FinishOp).state == Finished(settings, validate, h.state).0
  {
    DecodingFollowsTheMethods(settings, validate, h.(state := h.state.(decoder := Idle)), Finish(h.state.decoder));
  }

  /** Each operation of a history is the call of the same name. */
  lemma StepIsTheCall(settings: Settings, validate: seq<Byte> -> Validated, h: History, op: Operation)
    ensures Step(settings, validate, h, op).state ==
            match op
            case BeginOp(entry) => SessionBegun(h.state, entry).0
            case CloseOp(reason) => SessionClosed(h.state, reason).0
            case FeedOp(chunk) => Fed(settings, validate, h.state, chunk).0
            case FinishOp => Finished(settings, validate, h.state).0
            case ReportOp(code, component, detail) => Reported(h.state, code, component, detail).0
  {
    if op.FeedOp? {
      FeedIsTheCall(settings, validate, h, op.chunk);
    } else if op.FinishOp? {
      FinishIsTheCall(settings, validate, h);
    }
  }

  /** Conservation and bookkeeping, as one invariant of the history. */
  ghost predicate Balanced(settings: Settings, h: History) {
    var c := h.state.counters;
    && c.frames == c.malformed + c.schema + c.duplicates + c.outOfOrder + c.inactive + c.accepted
    && c.availability == c.oversized + c.zeroLength + c.truncated + c.malformed + c.schema + c.inactive + h.reports
    && h.state.ring == LastN(h.sinceChange, settings.ringCapacity)
  }

  /** The session manager's last event is the tracker's last capture time. */
  ghost predicate Linked(h: History) {
    && (h.state.tracker.expected.None? ==> h.state.tracker.lastCapture.None?)
    && (h.state.sessions.active.Some? ==> h.state.sessions.active.value.lastEvent == h.state.tracker.lastCapture)
  }

  // The log so far is accepted by the timed monitor and ends in the manager's phase.
  ghost predicate Monitored(settings: Settings, h: History) {
    var phase := ReadAll(settings.idleSplitUs, true, Closed, h.log);
    phase.Some? && Matches(true, h.state.sessions, phase.value)
  }

  ghost predicate Invariant(settings: Settings, h: History) {
    Balanced(settings, h) && Linked(h) && Monitored(settings, h)
  }

  lemma {:induction false} IssuesKeepInvariant(settings: Settings, h: History, issues: seq<FrameIssue>)
    requires Invariant(settings, h)
    ensures Invariant(settings, h.(state := h.state.(counters := CountedAll(h.state.counters, issues))))
    decreases |issues|
  {
    if issues != [] {
      IssuesKeepInvariant(settings, h, issues[..|issues| - 1]);
    }
  }

  lemma AcceptedEventKeepsMonitored(settings: Settings, h: History, event: IngestedEvent)
    requires settings.Valid() && Monitored(settings, h) && h.state.sessions.active.Some?
    requires h.state.sessions.active.value.lastEvent.Some? ==>
               h.state.sessions.active.value.lastEvent.value <= event.tCapture
    ensures var (sessions, attributed, lifecycle) := Attributed(settings.idleSplitUs, h.state.sessions, event);
            attributed.Some? &&
            var log := h.log + (Lives(lifecycle) + [Accepted(attributed.value)]);
            var phase := ReadAll(settings.idleSplitUs, true, Closed, log);
            phase.Some? && Matches(true, sessions, phase.value)
  {
    var idle := settings.idleSplitUs;
    var phase := ReadAll(idle, true, Closed, h.log).value;
    ApplyIsAccepted(idle, true, h.state.sessions, phase, EventOp(event));
    ReadAppend(idle, true, Closed, h.log, Apply(idle, h.state.sessions, EventOp(event)).1);
  }

  /** One payload, whatever the verdict, keeps the invariant. */
  lemma ConsumeKeepsInvariant(settings: Settings, h: History, verdict: Validated)
    requires settings.Valid() && Invariant(settings, h)
    ensures var (s, batch) := Consumed(settings, h.state, verdict);
            |batch.events| <= 1 && Invariant(settings, Extended(h, s, batch))
  {
    var (s, batch) := Consumed(settings, h.state, verdict);
    var h' := Extended(h, s, batch);
    if batch.events == [] {
      assert h'.log == h.log && h'.sinceChange == h.sinceChange;
    } else {
      AcceptedEventKeepsInvariant(settings, h, verdict);
    }
  }

  lemma AcceptedEventKeepsInvariant(settings: Settings, h: History, verdict: Validated)
    requires settings.Valid() && Invariant(settings, h) && Consumed(settings, h.state, verdict).1.events != []
    ensures var (s, batch) := Consumed(settings, h.state, verdict);
            |batch.events| <= 1 && Invariant(settings, Extended(h, s, batch))
  {
    var event := verdict.event;
    AcceptedEventKeepsMonitored(settings, h, event);
    var (s, batch) := Consumed(settings, h.state, verdict);
    var (sessions, attributed, lifecycle) := Attributed(settings.idleSplitUs, h.state.sessions, event);
    assert Extended(h, s, batch).log == h.log + (Lives(lifecycle) + [Accepted(attributed.value)]);
    LastNAppend(h.sinceChange, attributed.value, settings.ringCapacity);
  }

  lemma {:induction false} PayloadsKeepInvariant(
    settings: Settings, validate: seq<Byte> -> Validated, h: History, payloads: seq<seq<Byte>>)
    requires settings.Valid() && Invariant(settings, h)
    ensures Invariant(settings, ConsumeHistory(settings, validate, h, payloads))
    decreases |payloads|
  {
    if payloads != [] {
      var last := |payloads| - 1;
      PayloadsKeepInvariant(settings, validate, h, payloads[..last]);
      ConsumeKeepsInvariant(settings, ConsumeHistory(settings, validate, h, payloads[..last]),
                            validate(payloads[last]));
    }
  }

  lemma DecodingKeepsInvariant(settings: Settings, validate: seq<Byte> -> Validated, h: History, decoded: DecodeResult)
    requires settings.Valid() && Invariant(settings, h)
    ensures Invariant(settings, DecodedHistory(settings, validate, h, decoded))
  {
    IssuesKeepInvariant(settings, h, decoded.issues);
    PayloadsKeepInvariant(settings, validate,
                          h.(state := h.state.(counters := CountedAll(h.state.counters, decoded.issues))),
                          decoded.payloads);
  }

  lemma StepKeepsInvariant(settings: Settings, validate: seq<Byte> -> Validated, h: History, op: Operation)
    requires settings.Valid() && Invariant(settings, h)
    ensures Invariant(settings, Step(settings, validate, h, op))
  {
    match op
    case BeginOp(entry) =>
      BeginKeepsMonitored(settings, validate, h, entry);
      BeginKeepsBooks(settings, validate, h, entry);
    case CloseOp(reason) => CloseKeepsInvariant(settings, validate, h, reason);
    case FeedOp(chunk) =>
      var (decoder, decoded) := Feed(settings.maxFrameBytes, h.state.decoder, chunk);
      var c := h.state.counters;
      var h1 := h.(state := h.state.(decoder := decoder, counters := c.(chunks := c.chunks + 1)));
      DecodingKeepsInvariant(settings, validate, h1, decoded);
    case FinishOp =>
      DecodingKeepsInvariant(settings, validate, h.(state := h.state.(decoder := Idle)), Finish(h.state.decoder));
    case ReportOp(_, _, _) =>
  }

  lemma BeginKeepsBooks(settings: Settings, validate: seq<Byte> -> Validated, h: History, entry: AuthenticatedEntry)
    requires Balanced(settings, h) && Linked(h)
    ensures Balanced(settings, Step(settings, validate, h, BeginOp(entry)))
    ensures Linked(Step(settings, validate, h, BeginOp(entry)))
  {
  }

  lemma BeginKeepsMonitored(settings: Settings, validate: seq<Byte> -> Validated, h: History, entry: AuthenticatedEntry)
    requires settings.Valid() && Monitored(settings, h)
    ensures Monitored(settings, Step(settings, validate, h, BeginOp(entry)))
  {
    var idle := settings.idleSplitUs;
    var phase := ReadAll(idle, true, Closed, h.log).value;
    StartIsAccepted(idle, true, h.state.sessions, phase, entry);
    ReadAppend(idle, true, Closed, h.log, Apply(idle, h.state.sessions, StartOp(entry)).1);
  }

  lemma CloseKeepsInvariant(settings: Settings, validate: seq<Byte> -> Validated, h: History, reason: string)
    requires settings.Valid() && Invariant(settings, h)
    ensures Invariant(settings, Step(settings, validate, h, CloseOp(reason)))
  {
    var idle := settings.idleSplitUs;
    var phase := ReadAll(idle, true, Closed, h.log).value;
    EndIsAccepted(idle, true, h.state.sessions, phase, reason);
    ReadAppend(idle, true, Closed, h.log, Apply(idle, h.state.sessions, EndOp(reason)).1);
  }

  /** Main result: after any sequence of calls every frame received is accounted for once,
      every availability event has a source, the raw ring is the last `capacity` events
      accepted since the session changed, and the lifecycle log satisfies the timed
      monitor without any assumption on the input: the tracker guarantees the times. */
  lemma {:induction false} IngestionIsConserved(settings: Settings, validate: seq<Byte> -> Validated,
                                                ops: seq<Operation>)
    requires settings.Valid()
    ensures Invariant(settings, Run(settings, validate, ops))
    decreases |ops|
  {
    if ops != [] {
      IngestionIsConserved(settings, validate, ops[..|ops| - 1]);
      StepKeepsInvariant(settings, validate, Run(settings, validate, ops[..|ops| - 1]), ops[|ops| - 1]);
    }
  }
}
