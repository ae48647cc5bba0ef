/** Duplicate detection starts anew with every session: what the tracker remembers is what the
    current session, or the time since the last one ended, has offered it. */
module SessionMemory {
  import opened Wrappers
  import opened Deques
  import opened Sessions
  import opened Pipeline
  import opened Framing
  import Ordering
  import PipelineCounts

  // The numbers and times of the valid events among the payloads.
  function Seen(validate: seq<Byte> -> Validated, payloads: seq<seq<Byte>>): seq<Ordering.Observation> {
    if payloads == [] then []
    else
      var verdict := validate(payloads[|payloads| - 1]);
      Seen(validate, payloads[..|payloads| - 1])
      + if verdict.Valid? then [Ordering.Observation(verdict.event.sequence, Some(verdict.event.tCapture))] else []
  }

  // Whether a call begins a new session or ends the current one; a resumption does neither.
  predicate Changes(s: State, op: Pipeline.Operation) {
    match op
    case BeginOp(entry) =>
      var result := Started(s.sessions, entry).1;
      result.Ok? && result.value.kind == SessionStarted
    case CloseOp(_) => s.sessions.active.Some?
    case _ => false
  }

  // What one call lets the tracker observe.
  function OfferedBy(settings: Settings, validate: seq<Byte> -> Validated, s: State, op: Pipeline.Operation)
    : seq<Ordering.Observation>
  {
    match op
    case FeedOp(chunk) => Seen(validate, Feed(settings.maxFrameBytes, s.decoder, chunk).1.payloads)
    case FinishOp => Seen(validate, Finish(s.decoder).payloads)
    case _ => []
  }

  /** The valid events of the stream since the last change of session. */
  function Offered(settings: Settings, validate: seq<Byte> -> Validated, ops: seq<Pipeline.Operation>)
    : seq<Ordering.Observation>
  {
    if ops == [] then []
    else
      var before, op := ops[..|ops| - 1], ops[|ops| - 1];
      var s := Pipeline.Run(settings, validate, before).state;
      if Changes(s, op) then [] else Offered(settings, validate, before) + OfferedBy(settings, validate, s, op)
  }

  // The tracker is the one that has observed exactly these.
  ghost predicate Remembers(settings: Settings, h: History, offered: seq<Ordering.Observation>) {
    h.state.tracker == Ordering.Run(settings.ringCapacity, offered).0
  }

  lemma OneMoreRemembered(settings: Settings, h: History, offered: seq<Ordering.Observation>, verdict: Validated)
    requires Remembers(settings, h, offered)
    ensures var (s, batch) := Consumed(settings, h.state, verdict);
            Remembers(settings, Extended(h, s, batch), offered
              + if verdict.Valid? then [Ordering.Observation(verdict.event.sequence, Some(verdict.event.tCapture))] else [])
  {
    if verdict.Valid? {
      var next := Ordering.Observation(verdict.event.sequence, Some(verdict.event.tCapture));
      assert (offered + [next])[..|offered|] == offered;
    } else {
      assert offered + [] == offered;
    }
  }

  lemma {:induction false} PayloadsRemembered(settings: Settings, validate: seq<Byte> -> Validated, h: History,
                                              offered: seq<Ordering.Observation>, payloads: seq<seq<Byte>>)
    requires Remembers(settings, h, offered)
    ensures Remembers(settings, ConsumeHistory(settings, validate, h, payloads), offered + Seen(validate, payloads))
    decreases |payloads|
  {
    if payloads == [] {
      assert offered + [] == offered;
    } else {
      var before, verdict := payloads[..|payloads| - 1], validate(payloads[|payloads| - 1]);
      PayloadsRemembered(settings, validate, h, offered, before);
      OneMoreRemembered(settings, ConsumeHistory(settings, validate, h, before), offered + Seen(validate, before), verdict);
      assert offered + Seen(validate, payloads)
             == offered + Seen(validate, before)
                + if verdict.Valid? then [Ordering.Observation(verdict.event.sequence, Some(verdict.event.tCapture))] else [];
    }
  }

  lemma DecodingRemembered(settings: Settings, validate: seq<Byte> -> Validated, h: History,
                           offered: seq<Ordering.Observation>, decoded: DecodeResult)
    requires Remembers(settings, h, offered)
    ensures Remembers(settings, DecodedHistory(settings, validate, h, decoded), offered + Seen(validate, decoded.payloads))
  {
    PayloadsRemembered(settings, validate,
                       h.(state := h.state.(counters := CountedAll(h.state.counters, decoded.issues))), offered,
                       decoded.payloads);
  }

  lemma FeedingRemembered(settings: Settings, validate: seq<Byte> -> Validated, h: History,
                          offered: seq<Ordering.Observation>, chunk: seq<Byte>)
    requires Remembers(settings, h, offered)
    ensures Remembers(settings, Step(settings, validate, h, FeedOp(chunk)),
                      offered + OfferedBy(settings, validate, h.state, FeedOp(chunk)))
  {
    var (decoder, decoded) := Feed(settings.maxFrameBytes, h.state.decoder, chunk);
    var counters := h.state.counters.(chunks := h.state.counters.chunks + 1);
    DecodingRemembered(settings, validate, h.(state := h.state.(decoder := decoder, counters := counters)), offered,
                       decoded);
  }

  lemma FinishingRemembered(settings: Settings, validate: seq<Byte> -> Validated, h: History,
                            offered: seq<Ordering.Observation>)
    requires Remembers(settings, h, offered)
    ensures Remembers(settings, Step(settings, validate, h, FinishOp),
                      offered + OfferedBy(settings, validate, h.state, FinishOp))
  {
    DecodingRemembered(settings, validate, h.(state := h.state.(decoder := Idle)), offered, Finish(h.state.decoder));
  }

  lemma SessionCallsRemembered(settings: Settings, validate: seq<Byte> -> Validated, h: History,
                               offered: seq<Ordering.Observation>, op: Pipeline.Operation)
    requires Remembers(settings, h, offered) && (op.BeginOp? || op.CloseOp? || op.ReportOp?)
    ensures Remembers(settings, Step(settings, validate, h, op), if Changes(h.state, op) then [] else offered)
  {
  }

  // One call, whatever it is.
  lemma CallRemembered(settings: Settings, validate: seq<Byte> -> Validated, h: History,
                       offered: seq<Ordering.Observation>, op: Pipeline.Operation)
    requires Remembers(settings, h, offered)
    ensures Remembers(settings, Step(settings, validate, h, op),
                      if Changes(h.state, op) then [] else offered + OfferedBy(settings, validate, h.state, op))
  {
    if op.FeedOp? {
      FeedingRemembered(settings, validate, h, offered, op.chunk);
    } else if op.FinishOp? {
      FinishingRemembered(settings, validate, h, offered);
    } else {
      SessionCallsRemembered(settings, validate, h, offered, op);
      assert offered + [] == offered;
    }
  }

  lemma {:induction false} MemoryIsOfTheSession(settings: Settings, validate: seq<Byte> -> Validated,
                                                ops: seq<Pipeline.Operation>)
    ensures Remembers(settings, Pipeline.Run(settings, validate, ops), Offered(settings, validate, ops))
    decreases |ops|
  {
    if ops != [] {
      var before := ops[..|ops| - 1];
      MemoryIsOfTheSession(settings, validate, before);
      CallRemembered(settings, validate, Pipeline.Run(settings, validate, before), Offered(settings, validate, before),
                     ops[|ops| - 1]);
    }
  }

  ghost predicate Exceeds(offered: seq<Ordering.Observation>, sequence: nat) {
    forall i :: 0 <= i < |offered| ==> offered[i].sequence < sequence
  }

  // The time does not fall behind that of the event accepted last.
  ghost predicate InTime(capacity: nat, offered: seq<Ordering.Observation>, t: nat) {
    var results := Ordering.Run(capacity, offered).1;
    |results| == |offered| && Ordering.Punctual(Ordering.AcceptedOf(offered, results), Some(t))
  }

  // How the tracker judges one event after what it was offered.
  ghost predicate Judged(capacity: nat, offered: seq<Ordering.Observation>, sequence: nat, t: nat,
                         result: Ordering.OrderingResult) {
    var records := Ordering.Records(offered);
    && (result.status == Ordering.Duplicate <==> sequence in LastN(records, capacity))
    && (result.IsAccepted() <==> Exceeds(offered, sequence) && InTime(capacity, offered, t))
    && (Exceeds(offered, sequence) && records != [] ==>
          result.status != Ordering.Duplicate && result.missing == sequence - records[|records| - 1] - 1)
    && (!Exceeds(offered, sequence) ==> result.missing == 0)
    && (offered == [] ==> result.IsAccepted())
  }

  lemma ObservationIsJudged(capacity: nat, offered: seq<Ordering.Observation>, sequence: nat, t: nat)
    requires 0 < capacity
    ensures Judged(capacity, offered, sequence, t,
                   Ordering.Observed(capacity, Ordering.Run(capacity, offered).0, sequence, Some(t)).1)
  {
    var next := Ordering.Observation(sequence, Some(t));
    Ordering.AcceptanceIsExact(capacity, offered, next);
    var records, s := Ordering.Records(offered), Ordering.Run(capacity, offered).0;
    Ordering.StatusMeans(capacity, offered, next);
    Ordering.RecordsFacts(offered);
    Ordering.TrackerRemembersRecords(capacity, offered);
    Ordering.ObserveTracks(capacity, s, records, next.sequence, next.t);
    if Exceeds(offered, next.sequence) && records != [] {
      Ordering.RecordIsObserved(offered);
      Ordering.TailIsBelow(records, capacity, next.sequence);
    }
  }

  // The fate of an event follows from the tracker's judgement and whether a session is active.
  lemma FateFollows(settings: Settings, s: State, event: IngestedEvent)
    ensures var result := Ordering.Observed(settings.ringCapacity, s.tracker, event.sequence, Some(event.tCapture)).1;
            var fate := PipelineCounts.FateOf(settings, s, Valid(event));
            && (fate.Repeated? <==> result.status == Ordering.Duplicate)
            && (fate.Late? <==> result.status == Ordering.OutOfOrder)
            && (fate.Taken? <==> result.IsAccepted() && s.sessions.active.Some?)
            && (fate.Homeless? <==> result.IsAccepted() && s.sessions.active.None?)
            && PipelineCounts.MissingIn(fate) == if fate.Repeated? then 0 else result.missing
  {
  }

  /** Main result: after any history, what becomes of a valid event is decided by the events
      offered since the session changed: it is repeated exactly if its number is one of the
      last `ringCapacity` records among them; admitted exactly if it exceeds them all and is not
      earlier than the one accepted last, and then taken or homeless as a session is active or
      not; late otherwise. The gap is counted from their last record. */
  lemma FatesAreOfTheSession(settings: Settings, validate: seq<Byte> -> Validated, ops: seq<Pipeline.Operation>,
                             event: IngestedEvent)
    requires settings.Valid()
    ensures var s := Pipeline.Run(settings, validate, ops).state;
            var fate := PipelineCounts.FateOf(settings, s, Valid(event));
            var offered := Offered(settings, validate, ops);
            var records := Ordering.Records(offered);
            && !fate.Broken? && !fate.Invalid?
            && (fate.Repeated? <==> event.sequence in LastN(records, settings.ringCapacity))
            && (fate.Taken? || fate.Homeless? <==>
                  Exceeds(offered, event.sequence) && InTime(settings.ringCapacity, offered, event.tCapture))
            && (fate.Taken? ==> s.sessions.active.Some?) && (fate.Homeless? ==> s.sessions.active.None?)
            && (Exceeds(offered, event.sequence) && records != [] ==>
                  !fate.Repeated? && PipelineCounts.MissingIn(fate) == event.sequence - records[|records| - 1] - 1)
            && (!Exceeds(offered, event.sequence) ==> PipelineCounts.MissingIn(fate) == 0)
            && (offered == [] ==> fate.Taken? || fate.Homeless?)
  {
    MemoryIsOfTheSession(settings, validate, ops);
    var s := Pipeline.Run(settings, validate, ops).state;
    ObservationIsJudged(settings.ringCapacity, Offered(settings, validate, ops), event.sequence, event.tCapture);
    FateFollows(settings, s, event);
  }
}
