/** What ingestion hands to windowing: the accepted events of a session, in the order that
    live and batch windowing agree on. */
module AcceptedOrder {
  import opened Wrappers
  import opened Sessions
  import opened Pipeline
  import Framing
  import Ordering
  import LiveBatch

  ghost predicate Ascending(events: seq<AttributedEvent>) {
    forall i, j :: 0 <= i < j < |events| ==>
      events[i].event.sequence < events[j].event.sequence && events[i].event.tCapture <= events[j].event.tCapture
  }

  // The tracker stands behind every accepted event.
  ghost predicate Passed(tracker: Ordering.TrackerState, events: seq<AttributedEvent>) {
    forall i :: 0 <= i < |events| ==>
      && tracker.expected.Some? && events[i].event.sequence < tracker.expected.value
      && tracker.lastCapture.Some? && events[i].event.tCapture <= tracker.lastCapture.value
  }

  ghost predicate Follows(h: History) {
    Ascending(h.sinceChange) && Passed(h.state.tracker, h.sinceChange)
  }

  // Every wire event is timed, so an admitted one is behind nothing accepted.
  lemma ObservedPasses(capacity: nat, tracker: Ordering.TrackerState, event: IngestedEvent, events: seq<AttributedEvent>)
    requires Passed(tracker, events)
    ensures var (after, result) := Ordering.Observed(capacity, tracker, event.sequence, Some(event.tCapture));
            && Passed(after, events)
            && (result.IsAccepted() ==>
                  && after.expected == Some(event.sequence + 1) && after.lastCapture == Some(event.tCapture)
                  && forall i :: 0 <= i < |events| ==>
                       events[i].event.sequence < event.sequence && events[i].event.tCapture <= event.tCapture)
  {
  }

  // A consumed payload adds nothing, or one event the tracker has just admitted.
  lemma ConsumedAdds(settings: Settings, s: State, verdict: Validated)
    ensures var (s', batch) := Consumed(settings, s, verdict);
            if verdict.Valid? then
              var (tracker, result) := Ordering.Observed(settings.ringCapacity, s.tracker, verdict.event.sequence, Some(verdict.event.tCapture));
              && s'.tracker == tracker
              && (batch.events == [] || (result.IsAccepted() && |batch.events| == 1 && batch.events[0].event == verdict.event))
            else s'.tracker == s.tracker && batch.events == []
  {
  }

  lemma ConsumeKeepsOrder(settings: Settings, h: History, verdict: Validated)
    requires Follows(h)
    ensures var (s, batch) := Consumed(settings, h.state, verdict); Follows(Extended(h, s, batch))
  {
    ConsumedAdds(settings, h.state, verdict);
    var batch := Consumed(settings, h.state, verdict).1;
    if verdict.Valid? {
      ObservedPasses(settings.ringCapacity, h.state.tracker, verdict.event, h.sinceChange);
    }
    if batch.events == [] {
      assert h.sinceChange + batch.events == h.sinceChange;
    }
  }

  lemma {:induction false} PayloadsKeepOrder(settings: Settings, validate: seq<Framing.Byte> -> Validated, h: History,
                                             payloads: seq<seq<Framing.Byte>>)
    requires Follows(h)
    ensures Follows(ConsumeHistory(settings, validate, h, payloads))
    decreases |payloads|
  {
    if payloads != [] {
      var last := |payloads| - 1;
      PayloadsKeepOrder(settings, validate, h, payloads[..last]);
      ConsumeKeepsOrder(settings, ConsumeHistory(settings, validate, h, payloads[..last]), validate(payloads[last]));
    }
  }

  lemma DecodingKeepsOrder(settings: Settings, validate: seq<Framing.Byte> -> Validated, h: History,
                           decoded: Framing.DecodeResult)
    requires Follows(h)
    ensures Follows(DecodedHistory(settings, validate, h, decoded))
  {
    PayloadsKeepOrder(settings, validate,
                      h.(state := h.state.(counters := CountedAll(h.state.counters, decoded.issues))), decoded.payloads);
  }

  lemma StepKeepsOrder(settings: Settings, validate: seq<Framing.Byte> -> Validated, h: History, op: Pipeline.Operation)
    requires Follows(h)
    ensures Follows(Step(settings, validate, h, op))
  {
    match op {
      case FeedOp(chunk) =>
        var (decoder, decoded) := Framing.Feed(settings.maxFrameBytes, h.state.decoder, chunk);
        var counters := h.state.counters.(chunks := h.state.counters.chunks + 1);
        DecodingKeepsOrder(settings, validate, h.(state := h.state.(decoder := decoder, counters := counters)), decoded);
      case FinishOp =>
        DecodingKeepsOrder(settings, validate, h.(state := h.state.(decoder := Framing.Idle)), Framing.Finish(h.state.decoder));
      case _ =>
        SessionCallsKeepOrder(settings, validate, h, op);
    }
  }

  // Starting or ending a session begins anew together with the tracker, or changes neither.
  lemma SessionCallsKeepOrder(settings: Settings, validate: seq<Framing.Byte> -> Validated, h: History,
                              op: Pipeline.Operation)
    requires Follows(h) && (op.BeginOp? || op.CloseOp? || op.ReportOp?)
    ensures Follows(Step(settings, validate, h, op))
  {
    var h' := Step(settings, validate, h, op);
    assert h'.sinceChange == [] || (h'.sinceChange == h.sinceChange && h'.state.tracker == h.state.tracker);
  }

  lemma {:induction false} RunsKeepOrder(settings: Settings, validate: seq<Framing.Byte> -> Validated,
                                         ops: seq<Pipeline.Operation>)
    ensures Follows(Pipeline.Run(settings, validate, ops))
    decreases |ops|
  {
    if ops != [] {
      RunsKeepOrder(settings, validate, ops[..|ops| - 1]);
      StepKeepsOrder(settings, validate, Pipeline.Run(settings, validate, ops[..|ops| - 1]), ops[|ops| - 1]);
    }
  }

  /** The windowing events among the accepted ones: `decode` picks them, by segment or kind,
      and gives their content. */
  function StreamOf(decode: AttributedEvent -> Option<LiveBatch.StreamEvent>, events: seq<AttributedEvent>)
    : seq<LiveBatch.StreamEvent>
  {
    if events == [] then []
    else
      var last := decode(events[|events| - 1]);
      StreamOf(decode, events[..|events| - 1]) + if last.Some? then [last.value] else []
  }

  // Decoding keeps the envelope's number and capture time.
  ghost predicate KeepsEnvelope(decode: AttributedEvent -> Option<LiveBatch.StreamEvent>) {
    forall e :: decode(e).Some? ==>
      LiveBatch.SequenceOf(decode(e).value) == e.event.sequence && LiveBatch.TimeOf(decode(e).value) == e.event.tCapture
  }

  lemma {:induction false} StreamIsInOrder(decode: AttributedEvent -> Option<LiveBatch.StreamEvent>,
                                           events: seq<AttributedEvent>)
    requires KeepsEnvelope(decode) && Ascending(events)
    ensures LiveBatch.InOrder(StreamOf(decode, events))
    ensures events != [] ==> forall i :: 0 <= i < |StreamOf(decode, events)| ==>
              && LiveBatch.SequenceOf(StreamOf(decode, events)[i]) <= events[|events| - 1].event.sequence
              && LiveBatch.TimeOf(StreamOf(decode, events)[i]) <= events[|events| - 1].event.tCapture
    decreases |events|
  {
    if events != [] {
      StreamIsInOrder(decode, events[..|events| - 1]);
    }
  }

  /** In every reachable state the events accepted since the session changed, and hence the
      windowing events of any of its segments, are in the order windowing relies on. */
  lemma SessionsAreInOrder(settings: Settings, validate: seq<Framing.Byte> -> Validated, ops: seq<Pipeline.Operation>,
                           decode: AttributedEvent -> Option<LiveBatch.StreamEvent>)
    requires KeepsEnvelope(decode)
    ensures LiveBatch.InOrder(StreamOf(decode, Pipeline.Run(settings, validate, ops).sinceChange))
  {
    RunsKeepOrder(settings, validate, ops);
    StreamIsInOrder(decode, Pipeline.Run(settings, validate, ops).sinceChange);
  }
}
