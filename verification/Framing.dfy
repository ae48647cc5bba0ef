/** Length-prefixed framing: the encoder, the incremental decoder, and their inverse laws. */
module Framing {
  import opened Wrappers

  type Byte = b: int | 0 <= b < 256 witness 0

  const HEADER_SIZE := 4
  const HEADER_LIMIT := 0x1_0000_0000

  // ---------------------------------------------------------------------
  // The four-byte network-order header
  // ---------------------------------------------------------------------

  function Pack(n: nat): (header: seq<Byte>)
    requires n < HEADER_LIMIT
    ensures |header| == HEADER_SIZE
  {
    [n / 0x100_0000, n / 0x1_0000 % 0x100, n / 0x100 % 0x100, n % 0x100]
  }

  function Unpack(header: seq<Byte>): (n: nat)
    requires |header| == HEADER_SIZE
    ensures n < HEADER_LIMIT
  {
    var a: int, b: int, c: int, d: int := header[0], header[1], header[2], header[3];
    a * 0x100_0000 + b * 0x1_0000 + c * 0x100 + d
  }

  lemma UnpackInvertsPack(n: nat)
    requires n < HEADER_LIMIT
    ensures Unpack(Pack(n)) == n
  {
    var high, middle := n / 0x1_0000, n / 0x100;
    assert n == middle * 0x100 + n % 0x100;
    assert middle == high * 0x100 + middle % 0x100 by { assert n / 0x100 / 0x100 == n / 0x1_0000; }
    assert high == (n / 0x100_0000) * 0x100 + high % 0x100 by { assert n / 0x1_0000 / 0x100 == n / 0x100_0000; }
  }

  lemma PackInvertsUnpack(header: seq<Byte>)
    requires |header| == HEADER_SIZE
    ensures Pack(Unpack(header)) == header
  {
    var a: int, b: int, c: int, d: int := header[0], header[1], header[2], header[3];
    var n := Unpack(header);
    var high, middle := a * 0x100 + b, a * 0x1_0000 + b * 0x100 + c;
    LastByte(middle, d);
    LastByte(high, c);
    LastByte(a, b);
    assert n == middle * 0x100 + d && middle == high * 0x100 + c;
    assert n / 0x1_0000 == n / 0x100 / 0x100 && n / 0x100_0000 == n / 0x1_0000 / 0x100;
    assert Pack(n) == [a, b, c, d];
  }

  lemma LastByte(rest: nat, byte: int)
    requires 0 <= byte < 0x100
    ensures (rest * 0x100 + byte) / 0x100 == rest && (rest * 0x100 + byte) % 0x100 == byte
  {
  }

  // ---------------------------------------------------------------------
  // Encoder
  // ---------------------------------------------------------------------

  datatype FrameError = EmptyPayload | PayloadTooLarge | LengthNotRepresentable

  function FramePayload(payload: seq<Byte>, limit: nat): Result<seq<Byte>, FrameError> {
    if payload == [] then Err(EmptyPayload)
    else if |payload| > limit then Err(PayloadTooLarge)
    else if |payload| >= HEADER_LIMIT then Err(LengthNotRepresentable)
    else Ok(Pack(|payload|) + payload)
  }

  ghost predicate Frameable(payloads: seq<seq<Byte>>, limit: nat) {
    forall i :: 0 <= i < |payloads| ==> FramePayload(payloads[i], limit).Ok?
  }

  function Encode(payloads: seq<seq<Byte>>, limit: nat): seq<Byte>
    requires Frameable(payloads, limit)
  {
    if payloads == [] then [] else FramePayload(payloads[0], limit).value + Encode(payloads[1..], limit)
  }

  // ---------------------------------------------------------------------
  // Decoder
  // ---------------------------------------------------------------------

  datatype FrameIssue =
    | ZeroLengthFrame
    | OversizedFrame(declared: nat, limit: nat)
    | TruncatedFrame(buffered: nat, expected: Option<nat>)

  datatype DecodeResult = DecodeResult(payloads: seq<seq<Byte>>, issues: seq<FrameIssue>)

  datatype DecoderState = DecoderState(buffer: seq<Byte>, expected: Option<nat>)
  {
    predicate Valid(limit: nat) {
      expected.Some? ==> 1 <= expected.value <= limit
    }

    // What the state of a decoder that has just been fed looks like.
    predicate Waiting(limit: nat) {
      Valid(limit) && |buffer| < if expected.Some? then expected.value else HEADER_SIZE
    }
  }

  const Idle := DecoderState([], None)
  const Nothing := DecodeResult([], [])

  function After(result: DecodeResult, rest: (DecoderState, DecodeResult)): (DecoderState, DecodeResult) {
    (rest.0, DecodeResult(result.payloads + rest.1.payloads, result.issues + rest.1.issues))
  }

  lemma NothingAfter(result: DecodeResult, s: DecoderState)
    ensures After(result, (s, Nothing)) == (s, result)
    ensures After(Nothing, (s, result)) == (s, result)
  {
    assert result.payloads + [] == result.payloads && result.issues + [] == result.issues;
    assert [] + result.payloads == result.payloads && [] + result.issues == result.issues;
  }

  lemma AfterIsAssociative(a: DecodeResult, b: DecodeResult, rest: (DecoderState, DecodeResult))
    ensures After(a, After(b, rest)) == After(DecodeResult(a.payloads + b.payloads, a.issues + b.issues), rest)
  {
    assert a.payloads + (b.payloads + rest.1.payloads) == a.payloads + b.payloads + rest.1.payloads;
    assert a.issues + (b.issues + rest.1.issues) == a.issues + b.issues + rest.1.issues;
  }

  /** Consume as many whole frames as the buffer holds. */
  function Drain(limit: nat, s: DecoderState): (DecoderState, DecodeResult)
    decreases |s.buffer|, if s.expected.Some? then 1 else 0
  {
    if s.expected.None? then
      if |s.buffer| < HEADER_SIZE then (s, Nothing)
      else
        var declared, rest := Unpack(s.buffer[..HEADER_SIZE]), s.buffer[HEADER_SIZE..];
        if declared == 0 then
          After(DecodeResult([], [ZeroLengthFrame]), Drain(limit, DecoderState(rest, None)))
        else if declared > limit then
          (Idle, DecodeResult([], [OversizedFrame(declared, limit)]))
        else
          Drain(limit, DecoderState(rest, Some(declared)))
    else if |s.buffer| < s.expected.value then (s, Nothing)
    else
      After(DecodeResult([s.buffer[..s.expected.value]], []),
            Drain(limit, DecoderState(s.buffer[s.expected.value..], None)))
  }

  function Feed(limit: nat, s: DecoderState, chunk: seq<Byte>): (DecoderState, DecodeResult) {
    Drain(limit, s.(buffer := s.buffer + chunk))
  }

  function FeedAll(limit: nat, s: DecoderState, chunks: seq<seq<Byte>>): (DecoderState, DecodeResult) {
    if chunks == [] then (s, Nothing)
    else
      var (before, result) := FeedAll(limit, s, chunks[..|chunks| - 1]);
      After(result, Feed(limit, before, chunks[|chunks| - 1]))
  }

  function Finish(s: DecoderState): DecodeResult {
    if s == Idle then Nothing else DecodeResult([], [TruncatedFrame(|s.buffer|, s.expected)])
  }

  class IncrementalFrameDecoder {
    const maxFrameBytes: nat
    var buffer: seq<Byte>
    var expected: Option<nat>

    function View(): DecoderState
      reads this
    {
      DecoderState(buffer, expected)
    }

    predicate Valid()
      reads this
    {
      0 < maxFrameBytes && View().Valid(maxFrameBytes)
    }

    constructor (maxFrameBytes: nat)
      requires 0 < maxFrameBytes
      ensures Valid() && this.maxFrameBytes == maxFrameBytes && View() == Idle
    {
      this.maxFrameBytes := maxFrameBytes;
      buffer := [];
      expected := None;
    }

    method FeedChunk(chunk: seq<Byte>) returns (result: DecodeResult)
      requires Valid()
      modifies this
      ensures Valid() && View().Waiting(maxFrameBytes)
      ensures |buffer| < if maxFrameBytes < HEADER_SIZE then HEADER_SIZE else maxFrameBytes
      ensures (View(), result) == Feed(maxFrameBytes, old(View()), chunk)
    {
      buffer := buffer + chunk;
      ghost var start := View();
      var payloads: seq<seq<Byte>> := [];
      var issues: seq<FrameIssue> := [];
      DrainLeavesWaiting(maxFrameBytes, start);
      NothingAfter(Drain(maxFrameBytes, start).1, Drain(maxFrameBytes, start).0);
      while true
        invariant Valid()
        invariant After(DecodeResult(payloads, issues), Drain(maxFrameBytes, View())) == Drain(maxFrameBytes, start)
        decreases |buffer|
      {
        ghost var soFar := DecodeResult(payloads, issues);
        if expected.None? {
          if |buffer| < HEADER_SIZE {
            NothingAfter(soFar, View());
            break;
          }
          var declared := Unpack(buffer[..HEADER_SIZE]);
          buffer := buffer[HEADER_SIZE..];
          if declared == 0 {
            AfterIsAssociative(soFar, DecodeResult([], [ZeroLengthFrame]), Drain(maxFrameBytes, View()));
            assert payloads + [] == payloads;
            issues := issues + [ZeroLengthFrame];
            continue;
          }
          if declared > maxFrameBytes {
            issues := issues + [OversizedFrame(declared, maxFrameBytes)];
            assert payloads + [] == payloads;
            Reset();
            break;
          }
          expected := Some(declared);
        }
        if |buffer| < expected.value {
          NothingAfter(soFar, View());
          break;
        }
        var payload := buffer[..expected.value];
        buffer := buffer[expected.value..];
        expected := None;
        AfterIsAssociative(soFar, DecodeResult([payload], []), Drain(maxFrameBytes, View()));
        assert issues + [] == issues;
        payloads := payloads + [payload];
      }
      result := DecodeResult(payloads, issues);
    }

    method FinishStream() returns (result: DecodeResult)
      requires Valid()
      modifies this
      ensures Valid() && View() == Idle
      ensures result == Finish(old(View()))
    {
      if expected.None? && buffer == [] {
        return Nothing;
      }
      result := DecodeResult([], [TruncatedFrame(|buffer|, expected)]);
      Reset();
    }

    method Reset()
      modifies this
      ensures View() == Idle
    {
      buffer := [];
      expected := None;
    }
  }

  /** Between two calls a decoder holds less than one header or less than one frame. */
  lemma DrainLeavesWaiting(limit: nat, s: DecoderState)
    requires 0 < limit && s.Valid(limit)
    ensures Drain(limit, s).0.Waiting(limit)
    decreases |s.buffer|, if s.expected.Some? then 1 else 0
  {
    if s.expected.Some? && |s.buffer| >= s.expected.value {
      DrainLeavesWaiting(limit, DecoderState(s.buffer[s.expected.value..], None));
    }
  }

  // ---------------------------------------------------------------------
  // Chunking
  // ---------------------------------------------------------------------

  predicate HasOversized(issues: seq<FrameIssue>) {
    exists i :: 0 <= i < |issues| && issues[i].OversizedFrame?
  }

  function Concat(chunks: seq<seq<Byte>>): seq<Byte> {
    if chunks == [] then [] else Concat(chunks[..|chunks| - 1]) + chunks[|chunks| - 1]
  }

  lemma OversizedAlone(declared: nat, limit: nat)
    ensures HasOversized([OversizedFrame(declared, limit)])
  {
    assert [OversizedFrame(declared, limit)][0].OversizedFrame?;
  }

  lemma OversizedAfter(result: DecodeResult, rest: (DecoderState, DecodeResult))
    requires !HasOversized(result.issues)
    ensures HasOversized(After(result, rest).1.issues) <==> HasOversized(rest.1.issues)
  {
    var all := After(result, rest).1.issues;
    if HasOversized(rest.1.issues) {
      var i :| 0 <= i < |rest.1.issues| && rest.1.issues[i].OversizedFrame?;
      assert all[|result.issues| + i].OversizedFrame?;
    }
    if HasOversized(all) {
      var i :| 0 <= i < |all| && all[i].OversizedFrame?;
      assert i >= |result.issues| && rest.1.issues[i - |result.issues|].OversizedFrame?;
    }
  }

  // Bytes that arrive after a drain without oversized header could as well have arrived before it.
  lemma {:induction false} DrainSplits(limit: nat, s: DecoderState, more: seq<Byte>)
    requires !HasOversized(Drain(limit, s).1.issues)
    ensures Drain(limit, s.(buffer := s.buffer + more))
            == After(Drain(limit, s).1, Feed(limit, Drain(limit, s).0, more))
    decreases |s.buffer|, if s.expected.Some? then 1 else 0
  {
    var longer := s.(buffer := s.buffer + more);
    if s.expected.None? && |s.buffer| >= HEADER_SIZE {
      var declared, rest := Unpack(s.buffer[..HEADER_SIZE]), s.buffer[HEADER_SIZE..];
      assert longer.buffer[..HEADER_SIZE] == s.buffer[..HEADER_SIZE] && longer.buffer[HEADER_SIZE..] == rest + more;
      if declared == 0 {
        var inner, head := DecoderState(rest, None), DecodeResult([], [ZeroLengthFrame]);
        OversizedAfter(head, Drain(limit, inner));
        DrainSplits(limit, inner, more);
        AfterIsAssociative(head, Drain(limit, inner).1, Feed(limit, Drain(limit, inner).0, more));
      } else if declared <= limit {
        DrainSplits(limit, DecoderState(rest, Some(declared)), more);
      } else {
        OversizedAlone(declared, limit);
        assert false;
      }
    } else if s.expected.Some? && |s.buffer| >= s.expected.value {
      var inner := DecoderState(s.buffer[s.expected.value..], None);
      var head := DecodeResult([s.buffer[..s.expected.value]], []);
      assert longer.buffer[..s.expected.value] == s.buffer[..s.expected.value];
      assert longer.buffer[s.expected.value..] == inner.buffer + more;
      OversizedAfter(head, Drain(limit, inner));
      DrainSplits(limit, inner, more);
      AfterIsAssociative(head, Drain(limit, inner).1, Feed(limit, Drain(limit, inner).0, more));
    } else {
      NothingAfter(Feed(limit, s, more).1, Feed(limit, s, more).0);
    }
  }

  // After an oversized header whatever the same chunk still holds is dropped.
  lemma {:induction false} OversizedDropsTheRest(limit: nat, s: DecoderState, more: seq<Byte>)
    requires HasOversized(Drain(limit, s).1.issues)
    ensures Drain(limit, s.(buffer := s.buffer + more)) == Drain(limit, s) && Drain(limit, s).0 == Idle
    decreases |s.buffer|, if s.expected.Some? then 1 else 0
  {
    var longer := s.(buffer := s.buffer + more);
    if s.expected.None? && |s.buffer| >= HEADER_SIZE {
      var declared, rest := Unpack(s.buffer[..HEADER_SIZE]), s.buffer[HEADER_SIZE..];
      assert longer.buffer[..HEADER_SIZE] == s.buffer[..HEADER_SIZE] && longer.buffer[HEADER_SIZE..] == rest + more;
      if declared == 0 {
        OversizedAfter(DecodeResult([], [ZeroLengthFrame]), Drain(limit, DecoderState(rest, None)));
        OversizedDropsTheRest(limit, DecoderState(rest, None), more);
      } else if declared <= limit {
        OversizedDropsTheRest(limit, DecoderState(rest, Some(declared)), more);
      }
    } else if s.expected.Some? && |s.buffer| >= s.expected.value {
      var rest := s.buffer[s.expected.value..];
      assert longer.buffer[..s.expected.value] == s.buffer[..s.expected.value];
      assert longer.buffer[s.expected.value..] == rest + more;
      OversizedAfter(DecodeResult([s.buffer[..s.expected.value]], []), Drain(limit, DecoderState(rest, None)));
      OversizedDropsTheRest(limit, DecoderState(rest, None), more);
    }
  }

  // A fresh decoder always reacts to bytes: it keeps them, or it reports something.
  lemma BytesLeaveATrace(limit: nat, chunk: seq<Byte>)
    requires chunk != []
    ensures Feed(limit, Idle, chunk) != (Idle, Nothing)
  {
    assert Idle.buffer + chunk == chunk;
    if |chunk| >= HEADER_SIZE {
      var declared, rest := Unpack(chunk[..HEADER_SIZE]), chunk[HEADER_SIZE..];
      if declared == 0 {
        assert Feed(limit, Idle, chunk).1.issues[0] == ZeroLengthFrame;
      } else if declared <= limit {
        var fed := Drain(limit, DecoderState(rest, Some(declared)));
        assert Feed(limit, Idle, chunk) == fed;
        if |rest| >= declared {
          assert fed.1.payloads[0] == rest[..declared];
        } else {
          assert fed.0 == DecoderState(rest, Some(declared));
        }
      }
    }
  }

  /** Where a cut between two chunks is harmless: exactly when no oversized header ends
      in the first chunk, or nothing follows it. */
  lemma CutIsHarmless(limit: nat, s: DecoderState, first: seq<Byte>, second: seq<Byte>)
    ensures After(Feed(limit, s, first).1, Feed(limit, Feed(limit, s, first).0, second)) == Feed(limit, s, first + second)
            <==> !HasOversized(Feed(limit, s, first).1.issues) || second == []
  {
    var whole := s.(buffer := s.buffer + first);
    var (middle, result) := Feed(limit, s, first);
    assert s.buffer + (first + second) == whole.buffer + second;
    if !HasOversized(result.issues) {
      DrainSplits(limit, whole, second);
    } else {
      OversizedDropsTheRest(limit, whole, second);
      var (end, added) := Feed(limit, Idle, second);
      if second == [] {
        assert Idle.buffer + [] == [];
        NothingAfter(result, Idle);
      } else {
        BytesLeaveATrace(limit, second);
        if added.payloads != [] {
          assert |(result.payloads + added.payloads)| > |result.payloads|;
        } else if added.issues != [] {
          assert |(result.issues + added.issues)| > |result.issues|;
        }
      }
    }
  }

  /** Chunk invariance: a stream without oversized header decodes to the same payloads,
      issues and final state however it is cut. */
  lemma {:induction false} ChunkingIsInvisible(limit: nat, s: DecoderState, chunks: seq<seq<Byte>>)
    requires !HasOversized(Feed(limit, s, Concat(chunks)).1.issues)
    requires s.Waiting(limit)
    ensures FeedAll(limit, s, chunks) == Feed(limit, s, Concat(chunks))
    decreases |chunks|
  {
    if chunks == [] {
      assert s.buffer + [] == s.buffer;
    } else {
      var before, last := chunks[..|chunks| - 1], chunks[|chunks| - 1];
      var whole := s.(buffer := s.buffer + Concat(before));
      assert s.buffer + Concat(chunks) == whole.buffer + last;
      if HasOversized(Drain(limit, whole).1.issues) {
        OversizedDropsTheRest(limit, whole, last);
      }
      ChunkingIsInvisible(limit, s, before);
      CutIsHarmless(limit, s, Concat(before), last);
    }
  }

  // ---------------------------------------------------------------------
  // Round trip
  // ---------------------------------------------------------------------

  // Decoding one whole frame at the head of the buffer.
  lemma DrainOneFrame(limit: nat, payload: seq<Byte>, rest: seq<Byte>)
    requires FramePayload(payload, limit).Ok?
    ensures Drain(limit, DecoderState(FramePayload(payload, limit).value + rest, None))
            == After(DecodeResult([payload], []), Drain(limit, DecoderState(rest, None)))
  {
    var stream := Pack(|payload|) + payload + rest;
    assert stream[..HEADER_SIZE] == Pack(|payload|) && stream[HEADER_SIZE..] == payload + rest;
    UnpackInvertsPack(|payload|);
    assert (payload + rest)[..|payload|] == payload && (payload + rest)[|payload|..] == rest;
  }

  lemma {:induction false} DecodeOfEncode(limit: nat, payloads: seq<seq<Byte>>)
    requires Frameable(payloads, limit)
    ensures Drain(limit, DecoderState(Encode(payloads, limit), None)) == (Idle, DecodeResult(payloads, []))
  {
    if payloads != [] {
      DecodeOfEncode(limit, payloads[1..]);
      DrainOneFrame(limit, payloads[0], Encode(payloads[1..], limit));
      var rest := Drain(limit, DecoderState(Encode(payloads[1..], limit), None));
      assert [payloads[0]] + payloads[1..] == payloads;
      assert rest.1.payloads == payloads[1..] && rest.1.issues == [];
      var all := After(DecodeResult([payloads[0]], []), rest);
      assert all.1.payloads == payloads;
      assert all.1.issues == [];
    }
  }

  /** Round trip: the frames of any payload list, cut into any chunks, decode to exactly
      that list, without issue, and leave a decoder for which `finish` reports nothing. */
  lemma RoundTrip(limit: nat, payloads: seq<seq<Byte>>, chunks: seq<seq<Byte>>)
    requires Frameable(payloads, limit) && Concat(chunks) == Encode(payloads, limit)
    ensures FeedAll(limit, Idle, chunks) == (Idle, DecodeResult(payloads, []))
    ensures Finish(FeedAll(limit, Idle, chunks).0) == Nothing
  {
    DecodeOfEncode(limit, payloads);
    assert Idle.buffer + Concat(chunks) == Encode(payloads, limit);
    ChunkingIsInvisible(limit, Idle, chunks);
  }

  // The bytes a decoder state stands for.
  function Pending(s: DecoderState): seq<Byte>
    requires s.expected.Some? ==> s.expected.value < HEADER_LIMIT
  {
    (if s.expected.Some? then Pack(s.expected.value) else []) + s.buffer
  }

  /** The converse: decoded payloads re-encode to the bytes they came from. Nothing is
      invented and nothing is lost: an issue-free stream is the encoding of its payloads
      followed by the bytes still pending. */
  lemma {:induction false} EncodeOfDecode(limit: nat, s: DecoderState)
    requires 0 < limit && s.Valid(limit) && (s.expected.Some? ==> s.expected.value < HEADER_LIMIT)
    requires Drain(limit, s).1.issues == []
    ensures var (end, result) := Drain(limit, s);
            && Frameable(result.payloads, limit)
            && (end.expected.Some? ==> end.expected.value < HEADER_LIMIT)
            && Pending(s) == Encode(result.payloads, limit) + Pending(end)
    decreases |s.buffer|, if s.expected.Some? then 1 else 0
  {
    if s.expected.None? && |s.buffer| >= HEADER_SIZE {
      var header, rest := s.buffer[..HEADER_SIZE], s.buffer[HEADER_SIZE..];
      if Unpack(header) != 0 {
        EncodeOfDecode(limit, DecoderState(rest, Some(Unpack(header))));
        PackInvertsUnpack(header);
        assert Pending(s) == Pack(Unpack(header)) + rest;
      }
    } else if s.expected.Some? && |s.buffer| >= s.expected.value {
      var payload, rest := s.buffer[..s.expected.value], s.buffer[s.expected.value..];
      EncodeOfDecode(limit, DecoderState(rest, None));
      var (end, result) := Drain(limit, DecoderState(rest, None));
      PayloadReencodes(limit, s, payload, rest, result.payloads, Pending(end));
    } else {
      assert [] + Pending(s) == Pending(s);
    }
  }

  // A payload and the bytes after it, put back in front of what the rest re-encodes to.
  lemma PayloadReencodes(limit: nat, s: DecoderState, payload: seq<Byte>, rest: seq<Byte>, payloads: seq<seq<Byte>>,
                         tail: seq<Byte>)
    requires 0 < |payload| <= limit && |payload| < HEADER_LIMIT
    requires s == DecoderState(payload + rest, Some(|payload|))
    requires Frameable(payloads, limit) && rest == Encode(payloads, limit) + tail
    ensures Frameable([payload] + payloads, limit)
    ensures Pending(s) == Encode([payload] + payloads, limit) + tail
  {
    var all := [payload] + payloads;
    assert all[1..] == payloads;
    var frame := Pack(|payload|) + payload;
    assert Encode(all, limit) == frame + Encode(payloads, limit);
    assert frame + (Encode(payloads, limit) + tail) == frame + Encode(payloads, limit) + tail;
    assert Pending(s) == Pack(|payload|) + (payload + rest) == frame + rest;
  }

  /** So a fresh decoder consumes a stream cleanly exactly when the stream is an encoding. */
  lemma CleanStreamsAreEncodings(limit: nat, stream: seq<Byte>, payloads: seq<seq<Byte>>)
    requires 0 < limit
    ensures Feed(limit, Idle, stream) == (Idle, DecodeResult(payloads, []))
            <==> Frameable(payloads, limit) && stream == Encode(payloads, limit)
  {
    assert Idle.buffer + stream == stream;
    if Feed(limit, Idle, stream) == (Idle, DecodeResult(payloads, [])) {
      EncodeOfDecode(limit, DecoderState(stream, None));
      assert [] + stream == stream;
    }
    if Frameable(payloads, limit) && stream == Encode(payloads, limit) {
      DecodeOfEncode(limit, payloads);
    }
  }
}
