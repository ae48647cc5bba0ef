/** Every counter of the pipeline against the fates of the payloads and the issues of the
    stream, over whole histories. */
module PipelineCounts {
  import opened Wrappers
  import opened Deques
  import opened Framing
  import opened Sessions
  import opened Pipeline
  import Ordering

  /** What becomes of one payload. */
  datatype Fate =
    | Broken
    | Invalid
    | Repeated
    | Late(missing: nat)
    | Homeless(missing: nat)
    | Taken(missing: nat, displaced: bool)

  // Read off the verdict, the tracker's judgement, and whether there is a session and room.
  function FateOf(settings: Settings, s: State, verdict: Validated): Fate {
    match verdict
    case MalformedJson => Broken
    case InvalidSchema => Invalid
    case Valid(event) =>
      var seen := Ordering.Observed(settings.ringCapacity, s.tracker, event.sequence, Some(event.tCapture)).1;
      match seen.status
      case Duplicate => Repeated
      case OutOfOrder => Late(seen.missing)
      case _ =>
        if s.sessions.active.None? then Homeless(seen.missing)
        else Taken(seen.missing, |s.ring| == settings.ringCapacity)
  }

  function Count<T>(items: seq<T>, kind: T -> bool): nat {
    if items == [] then 0
    else Count(items[..|items| - 1], kind) + if kind(items[|items| - 1]) then 1 else 0
  }

  function MissingIn(fate: Fate): nat {
    if fate.Late? || fate.Homeless? || fate.Taken? then fate.missing else 0
  }

  function TotalMissing(fates: seq<Fate>): nat {
    if fates == [] then 0 else TotalMissing(fates[..|fates| - 1]) + MissingIn(fates[|fates| - 1])
  }

  /** A history with the chunks fed, the issues of the stream and the fates of the payloads. */
  datatype Chronicle = Chronicle(h: History, chunks: nat, issues: seq<FrameIssue>, fates: seq<Fate>)

  const Opening := Chronicle(Beginning, 0, [], [])

  function Told(settings: Settings, validate: seq<Byte> -> Validated, c: Chronicle, payloads: seq<seq<Byte>>): Chronicle {
    if payloads == [] then c
    else
      var before := Told(settings, validate, c, payloads[..|payloads| - 1]);
      var verdict := validate(payloads[|payloads| - 1]);
      var (s, batch) := Consumed(settings, before.h.state, verdict);
      before.(h := Extended(before.h, s, batch), fates := before.fates + [FateOf(settings, before.h.state, verdict)])
  }

  function ToldDecoded(settings: Settings, validate: seq<Byte> -> Validated, c: Chronicle, decoded: DecodeResult): Chronicle {
    var counted := c.h.(state := c.h.state.(counters := CountedAll(c.h.state.counters, decoded.issues)));
    Told(settings, validate, c.(h := counted, issues := c.issues + decoded.issues), decoded.payloads)
  }

  // One chunk more, and the decoder after it.
  function Received(c: Chronicle, decoder: DecoderState): Chronicle {
    var counters := c.h.state.counters.(chunks := c.h.state.counters.chunks + 1);
    c.(h := c.h.(state := c.h.state.(decoder := decoder, counters := counters)), chunks := c.chunks + 1)
  }

  function Tell(settings: Settings, validate: seq<Byte> -> Validated, c: Chronicle, op: Pipeline.Operation): Chronicle {
    match op
    case FeedOp(chunk) =>
      var (decoder, decoded) := Feed(settings.maxFrameBytes, c.h.state.decoder, chunk);
      ToldDecoded(settings, validate, Received(c, decoder), decoded)
    case FinishOp =>
      ToldDecoded(settings, validate, c.(h := c.h.(state := c.h.state.(decoder := Idle))), Finish(c.h.state.decoder))
    case _ => c.(h := Step(settings, validate, c.h, op))
  }

  function TellAll(settings: Settings, validate: seq<Byte> -> Validated, ops: seq<Pipeline.Operation>): Chronicle {
    if ops == [] then Opening
    else Tell(settings, validate, TellAll(settings, validate, ops[..|ops| - 1]), ops[|ops| - 1])
  }

  // ---------------------------------------------------------------------
  // The chronicle is the history, with its sources
  // ---------------------------------------------------------------------

  lemma {:induction false} TellingConsumes(settings: Settings, validate: seq<Byte> -> Validated, c: Chronicle,
                                           payloads: seq<seq<Byte>>)
    ensures Told(settings, validate, c, payloads).h == ConsumeHistory(settings, validate, c.h, payloads)
    decreases |payloads|
  {
    if payloads != [] {
      TellingConsumes(settings, validate, c, payloads[..|payloads| - 1]);
    }
  }

  lemma TellingIsTheStep(settings: Settings, validate: seq<Byte> -> Validated, c: Chronicle, op: Pipeline.Operation)
    ensures Tell(settings, validate, c, op).h == Step(settings, validate, c.h, op)
  {
    match op {
      case FeedOp(chunk) =>
        var (decoder, decoded) := Feed(settings.maxFrameBytes, c.h.state.decoder, chunk);
        DecodingIsTold(settings, validate, Received(c, decoder), decoded);
      case FinishOp =>
        DecodingIsTold(settings, validate, c.(h := c.h.(state := c.h.state.(decoder := Idle))), Finish(c.h.state.decoder));
      case _ =>
    }
  }

  lemma DecodingIsTold(settings: Settings, validate: seq<Byte> -> Validated, c: Chronicle, decoded: DecodeResult)
    ensures ToldDecoded(settings, validate, c, decoded).h == DecodedHistory(settings, validate, c.h, decoded)
  {
    var counted := c.h.(state := c.h.state.(counters := CountedAll(c.h.state.counters, decoded.issues)));
    TellingConsumes(settings, validate, c.(h := counted, issues := c.issues + decoded.issues), decoded.payloads);
  }

  // ---------------------------------------------------------------------
  // Every counter has its meaning
  // ---------------------------------------------------------------------

  ghost predicate Tallied(c: Counters, chunks: nat, issues: seq<FrameIssue>, fates: seq<Fate>) {
    && c.chunks == chunks && c.frames == |fates|
    && c.malformed == Count(fates, (f: Fate) => f.Broken?)
    && c.schema == Count(fates, (f: Fate) => f.Invalid?)
    && c.duplicates == Count(fates, (f: Fate) => f.Repeated?)
    && c.outOfOrder == Count(fates, (f: Fate) => f.Late?)
    && c.inactive == Count(fates, (f: Fate) => f.Homeless?)
    && c.accepted == Count(fates, (f: Fate) => f.Taken?)
    && c.overwrites == Count(fates, (f: Fate) => f.Taken? && f.displaced)
    && c.missing == TotalMissing(fates)
    && c.oversized == Count(issues, (i: FrameIssue) => i.OversizedFrame?)
    && c.zeroLength == Count(issues, (i: FrameIssue) => i.ZeroLengthFrame?)
    && c.truncated == Count(issues, (i: FrameIssue) => i.TruncatedFrame?)
  }

  lemma CountOneMore<T>(items: seq<T>, item: T, kind: T -> bool)
    ensures Count(items + [item], kind) == Count(items, kind) + if kind(item) then 1 else 0
  {
    assert (items + [item])[..|items|] == items;
  }

  // What one payload adds to the counters.
  lemma ConsumedCounts(settings: Settings, s: State, verdict: Validated)
    ensures var c, c' := s.counters, Consumed(settings, s, verdict).0.counters;
            var fate := FateOf(settings, s, verdict);
            && c'.chunks == c.chunks && c'.frames == c.frames + 1
            && c'.oversized == c.oversized && c'.zeroLength == c.zeroLength && c'.truncated == c.truncated
            && c'.malformed == c.malformed + (if fate.Broken? then 1 else 0)
            && c'.schema == c.schema + (if fate.Invalid? then 1 else 0)
            && c'.duplicates == c.duplicates + (if fate.Repeated? then 1 else 0)
            && c'.outOfOrder == c.outOfOrder + (if fate.Late? then 1 else 0)
            && c'.inactive == c.inactive + (if fate.Homeless? then 1 else 0)
            && c'.accepted == c.accepted + (if fate.Taken? then 1 else 0)
            && c'.overwrites == c.overwrites + (if fate.Taken? && fate.displaced then 1 else 0)
            && c'.missing == c.missing + MissingIn(fate)
  {
  }

  lemma FateIsTallied(c: Counters, c': Counters, chunks: nat, issues: seq<FrameIssue>, fates: seq<Fate>, fate: Fate)
    requires Tallied(c, chunks, issues, fates)
    requires c'.chunks == c.chunks && c'.frames == c.frames + 1
    requires c'.oversized == c.oversized && c'.zeroLength == c.zeroLength && c'.truncated == c.truncated
    requires c'.malformed == c.malformed + (if fate.Broken? then 1 else 0)
    requires c'.schema == c.schema + (if fate.Invalid? then 1 else 0)
    requires c'.duplicates == c.duplicates + (if fate.Repeated? then 1 else 0)
    requires c'.outOfOrder == c.outOfOrder + (if fate.Late? then 1 else 0)
    requires c'.inactive == c.inactive + (if fate.Homeless? then 1 else 0)
    requires c'.accepted == c.accepted + (if fate.Taken? then 1 else 0)
    requires c'.overwrites == c.overwrites + (if fate.Taken? && fate.displaced then 1 else 0)
    requires c'.missing == c.missing + MissingIn(fate)
    ensures Tallied(c', chunks, issues, fates + [fate])
  {
    CountOneMore(fates, fate, (f: Fate) => f.Broken?);
    CountOneMore(fates, fate, (f: Fate) => f.Invalid?);
    CountOneMore(fates, fate, (f: Fate) => f.Repeated?);
    CountOneMore(fates, fate, (f: Fate) => f.Late?);
    CountOneMore(fates, fate, (f: Fate) => f.Homeless?);
    CountOneMore(fates, fate, (f: Fate) => f.Taken?);
    CountOneMore(fates, fate, (f: Fate) => f.Taken? && f.displaced);
    assert (fates + [fate])[..|fates|] == fates;
  }

  lemma IssueIsTallied(c: Counters, chunks: nat, issues: seq<FrameIssue>, fates: seq<Fate>, issue: FrameIssue)
    requires Tallied(c, chunks, issues, fates)
    ensures Tallied(Counted(c, issue), chunks, issues + [issue], fates)
  {
    CountOneMore(issues, issue, (i: FrameIssue) => i.OversizedFrame?);
    CountOneMore(issues, issue, (i: FrameIssue) => i.ZeroLengthFrame?);
    CountOneMore(issues, issue, (i: FrameIssue) => i.TruncatedFrame?);
  }

  lemma {:induction false} IssuesAreTallied(c: Counters, chunks: nat, issues: seq<FrameIssue>, fates: seq<Fate>,
                                            more: seq<FrameIssue>)
    requires Tallied(c, chunks, issues, fates)
    ensures Tallied(CountedAll(c, more), chunks, issues + more, fates)
    decreases |more|
  {
    if more == [] {
      assert issues + more == issues;
    } else {
      var before, last := more[..|more| - 1], more[|more| - 1];
      IssuesAreTallied(c, chunks, issues, fates, before);
      IssueIsTallied(CountedAll(c, before), chunks, issues + before, fates, last);
      assert (issues + before) + [last] == issues + more;
    }
  }

  ghost predicate Balances(c: Chronicle) {
    Tallied(c.h.state.counters, c.chunks, c.issues, c.fates)
  }

  lemma {:induction false} PayloadsAreTallied(settings: Settings, validate: seq<Byte> -> Validated, c: Chronicle,
                                              payloads: seq<seq<Byte>>)
    requires Balances(c)
    ensures Balances(Told(settings, validate, c, payloads))
    decreases |payloads|
  {
    if payloads != [] {
      PayloadsAreTallied(settings, validate, c, payloads[..|payloads| - 1]);
      var before := Told(settings, validate, c, payloads[..|payloads| - 1]);
      var verdict := validate(payloads[|payloads| - 1]);
      ConsumedCounts(settings, before.h.state, verdict);
      FateIsTallied(before.h.state.counters, Consumed(settings, before.h.state, verdict).0.counters, before.chunks,
                    before.issues, before.fates, FateOf(settings, before.h.state, verdict));
    }
  }

  lemma DecodingIsTallied(settings: Settings, validate: seq<Byte> -> Validated, c: Chronicle, decoded: DecodeResult)
    requires Balances(c)
    ensures Balances(ToldDecoded(settings, validate, c, decoded))
  {
    IssuesAreTallied(c.h.state.counters, c.chunks, c.issues, c.fates, decoded.issues);
    var counted := c.h.(state := c.h.state.(counters := CountedAll(c.h.state.counters, decoded.issues)));
    PayloadsAreTallied(settings, validate, c.(h := counted, issues := c.issues + decoded.issues), decoded.payloads);
  }

  lemma TellingBalances(settings: Settings, validate: seq<Byte> -> Validated, c: Chronicle, op: Pipeline.Operation)
    requires Balances(c)
    ensures Balances(Tell(settings, validate, c, op))
  {
    match op {
      case FeedOp(chunk) =>
        var (decoder, decoded) := Feed(settings.maxFrameBytes, c.h.state.decoder, chunk);
        ReceivingBalances(c, decoder);
        DecodingIsTallied(settings, validate, Received(c, decoder), decoded);
      case FinishOp =>
        DecodingIsTallied(settings, validate, c.(h := c.h.(state := c.h.state.(decoder := Idle))), Finish(c.h.state.decoder));
      case _ =>
        SessionCallsBalance(settings, validate, c, op);
    }
  }

  lemma ReceivingBalances(c: Chronicle, decoder: DecoderState)
    requires Balances(c)
    ensures Balances(Received(c, decoder))
  {
  }

  // Starting or ending a session and reporting a failure touch none of these counters.
  lemma SessionCallsBalance(settings: Settings, validate: seq<Byte> -> Validated, c: Chronicle, op: Pipeline.Operation)
    requires Balances(c) && (op.BeginOp? || op.CloseOp? || op.ReportOp?)
    ensures Balances(Tell(settings, validate, c, op))
  {
    var counters, counters' := c.h.state.counters, Step(settings, validate, c.h, op).state.counters;
    assert counters' == counters.(availability := counters'.availability);
  }

  /** Main result: after any sequence of calls every counter is the number of payloads of its
      fate, or of issues of its kind, in the whole history; the missing count is the sum of
      the gaps that the tracker reported. */
  lemma {:induction false} EveryCounterIsExact(settings: Settings, validate: seq<Byte> -> Validated,
                                               ops: seq<Pipeline.Operation>)
    ensures var c := TellAll(settings, validate, ops);
            c.h == Pipeline.Run(settings, validate, ops) && Balances(c)
    decreases |ops|
  {
    if ops != [] {
      var before := ops[..|ops| - 1];
      EveryCounterIsExact(settings, validate, before);
      TellingIsTheStep(settings, validate, TellAll(settings, validate, before), ops[|ops| - 1]);
      TellingBalances(settings, validate, TellAll(settings, validate, before), ops[|ops| - 1]);
    }
  }

  // ---------------------------------------------------------------------
  // What a call reports
  // ---------------------------------------------------------------------

  function CodesOfIssues(issues: seq<FrameIssue>): seq<string> {
    if issues == [] then []
    else
      CodesOfIssues(issues[..|issues| - 1])
      + [match issues[|issues| - 1]
         case OversizedFrame(_, _) => "OVERSIZED_FRAME"
         case ZeroLengthFrame => "ZERO_LENGTH_FRAME"
         case TruncatedFrame(_, _) => "TRUNCATED_FRAME"]
  }

  function CodesOfFates(fates: seq<Fate>): seq<string> {
    if fates == [] then []
    else
      CodesOfFates(fates[..|fates| - 1])
      + match fates[|fates| - 1]
        case Broken => ["MALFORMED_JSON"]
        case Invalid => ["INVALID_EVENT_SCHEMA"]
        case Homeless(_) => ["INACTIVE_SESSION"]
        case _ => []
  }

  // The fates of payloads consumed one after the other from a state.
  function FatesFrom(settings: Settings, validate: seq<Byte> -> Validated, s: State, payloads: seq<seq<Byte>>): seq<Fate> {
    if payloads == [] then []
    else
      var before := payloads[..|payloads| - 1];
      FatesFrom(settings, validate, s, before)
      + [FateOf(settings, ConsumedAll(settings, validate, s, before).0, validate(payloads[|payloads| - 1]))]
  }

  lemma {:induction false} IssuesAreReported(issues: seq<FrameIssue>)
    ensures Codes(issues) == CodesOfIssues(issues)
  {
    if issues != [] {
      IssuesAreReported(issues[..|issues| - 1]);
    }
  }

  lemma {:induction false} FatesAreReported(settings: Settings, validate: seq<Byte> -> Validated, s: State,
                                            payloads: seq<seq<Byte>>)
    ensures var batch := ConsumedAll(settings, validate, s, payloads).1;
            && batch.availability == CodesOfFates(FatesFrom(settings, validate, s, payloads))
            && |batch.events| == Count(FatesFrom(settings, validate, s, payloads), (f: Fate) => f.Taken?)
    decreases |payloads|
  {
    if payloads != [] {
      var before := payloads[..|payloads| - 1];
      FatesAreReported(settings, validate, s, before);
      var state := ConsumedAll(settings, validate, s, before).0;
      var verdict := validate(payloads[|payloads| - 1]);
      ReportOfOne(settings, state, verdict);
      var fates, fate := FatesFrom(settings, validate, s, before), FateOf(settings, state, verdict);
      CountOneMore(fates, fate, (f: Fate) => f.Taken?);
      assert (fates + [fate])[..|fates|] == fates;
    }
  }

  lemma ReportOfOne(settings: Settings, s: State, verdict: Validated)
    ensures var fate, batch := FateOf(settings, s, verdict), Consumed(settings, s, verdict).1;
            && batch.availability == (match fate
                                      case Broken => ["MALFORMED_JSON"]
                                      case Invalid => ["INVALID_EVENT_SCHEMA"]
                                      case Homeless(_) => ["INACTIVE_SESSION"]
                                      case _ => [])
            && |batch.events| == if fate.Taken? then 1 else 0
  {
  }

  /** A call reports the codes of its issues, then those of its payloads' fates, and as many
      events as were taken. */
  lemma CallsReportExactly(settings: Settings, validate: seq<Byte> -> Validated, s: State, decoded: DecodeResult)
    ensures var batch := ConsumedDecoded(settings, validate, s, decoded).1;
            var fates := FatesFrom(settings, validate, s.(counters := CountedAll(s.counters, decoded.issues)), decoded.payloads);
            && batch.availability == CodesOfIssues(decoded.issues) + CodesOfFates(fates)
            && |batch.events| == Count(fates, (f: Fate) => f.Taken?)
  {
    IssuesAreReported(decoded.issues);
    FatesAreReported(settings, validate, s.(counters := CountedAll(s.counters, decoded.issues)), decoded.payloads);
  }
}
