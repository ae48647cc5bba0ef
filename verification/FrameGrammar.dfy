/** Every byte explained: whatever a stream holds, the decoder reads it as frames, empty
    headers and oversized headers, and reports exactly these. */
module FrameGrammar {
  import opened Wrappers
  import opened Framing

  /** What the decoder reads off a stream, one after the other. */
  datatype Item = Frame(payload: seq<Byte>) | Zero | Oversized(declared: nat)

  function Wire(item: Item): seq<Byte>
    requires item.Frame? ==> |item.payload| < HEADER_LIMIT
    requires item.Oversized? ==> item.declared < HEADER_LIMIT
  {
    match item
    case Frame(payload) => Pack(|payload|) + payload
    case Zero => Pack(0)
    case Oversized(declared) => Pack(declared)
  }

  // Frames of an admitted length; an oversized header comes last, as it drops the rest.
  predicate WellFormed(limit: nat, items: seq<Item>) {
    items != [] ==>
      && (items[0].Frame? ==> 1 <= |items[0].payload| <= limit && |items[0].payload| < HEADER_LIMIT)
      && (items[0].Oversized? ==> limit < items[0].declared < HEADER_LIMIT && |items| == 1)
      && WellFormed(limit, items[1..])
  }

  function Wires(limit: nat, items: seq<Item>): seq<Byte>
    requires WellFormed(limit, items)
  {
    if items == [] then [] else Wire(items[0]) + Wires(limit, items[1..])
  }

  function PayloadsOf(items: seq<Item>): seq<seq<Byte>> {
    if items == [] then [] else (if items[0].Frame? then [items[0].payload] else []) + PayloadsOf(items[1..])
  }

  function IssuesOf(limit: nat, items: seq<Item>): seq<FrameIssue> {
    if items == [] then []
    else
      (match items[0]
       case Frame(_) => []
       case Zero => [ZeroLengthFrame]
       case Oversized(declared) => [OversizedFrame(declared, limit)])
      + IssuesOf(limit, items[1..])
  }

  predicate Drops(items: seq<Item>) {
    items != [] && items[|items| - 1].Oversized?
  }

  // The bytes a state holds, with the header it has already read.
  function Held(s: DecoderState): seq<Byte>
    requires s.expected.Some? ==> s.expected.value < HEADER_LIMIT
  {
    (if s.expected.Some? then Pack(s.expected.value) else []) + s.buffer
  }

  predicate Sized(limit: nat, s: DecoderState) {
    s.Valid(limit) && (s.expected.Some? ==> s.expected.value < HEADER_LIMIT)
  }

  // The bytes before are the items read, then what is dropped or what is still held.
  ghost predicate Explains(limit: nat, s: DecoderState, after: (DecoderState, DecodeResult), items: seq<Item>,
                           dropped: seq<Byte>) {
    && Sized(limit, s) && Sized(limit, after.0) && WellFormed(limit, items)
    && after.1 == DecodeResult(PayloadsOf(items), IssuesOf(limit, items))
    && Held(s) == Wires(limit, items) + (if Drops(items) then dropped else Held(after.0))
    && (Drops(items) ==> after.0 == Idle) && (!Drops(items) ==> after.0.Waiting(limit))
  }

  // One item read in front of the others.
  lemma ItemInFront(limit: nat, item: Item, items: seq<Item>)
    requires WellFormed(limit, items) && !item.Oversized?
    requires item.Frame? ==> 1 <= |item.payload| <= limit && |item.payload| < HEADER_LIMIT
    ensures WellFormed(limit, [item] + items)
    ensures Wires(limit, [item] + items) == Wire(item) + Wires(limit, items)
    ensures PayloadsOf([item] + items) == (if item.Frame? then [item.payload] else []) + PayloadsOf(items)
    ensures IssuesOf(limit, [item] + items) == (if item.Zero? then [ZeroLengthFrame] else []) + IssuesOf(limit, items)
    ensures Drops([item] + items) <==> Drops(items)
  {
    assert ([item] + items)[1..] == items;
  }

  lemma NothingRead(limit: nat, s: DecoderState)
    requires Sized(limit, s) && s.Waiting(limit)
    ensures Explains(limit, s, (s, Nothing), [], [])
  {
    assert [] + Held(s) == Held(s);
  }

  lemma HeaderIsPacked(s: DecoderState)
    requires s.expected.None? && |s.buffer| >= HEADER_SIZE
    ensures var declared := Unpack(s.buffer[..HEADER_SIZE]);
            Held(s) == Pack(declared) + s.buffer[HEADER_SIZE..]
  {
    PackInvertsUnpack(s.buffer[..HEADER_SIZE]);
    assert s.buffer == s.buffer[..HEADER_SIZE] + s.buffer[HEADER_SIZE..];
    assert [] + s.buffer == s.buffer;
  }

  lemma OversizedRead(limit: nat, s: DecoderState)
    requires Sized(limit, s) && s.expected.None? && |s.buffer| >= HEADER_SIZE
    requires Unpack(s.buffer[..HEADER_SIZE]) > limit
    ensures var declared := Unpack(s.buffer[..HEADER_SIZE]);
            Explains(limit, s, (Idle, DecodeResult([], [OversizedFrame(declared, limit)])), [Oversized(declared)],
                     s.buffer[HEADER_SIZE..])
  {
    var declared := Unpack(s.buffer[..HEADER_SIZE]);
    HeaderIsPacked(s);
    assert [Oversized(declared)][1..] == [];
    assert Wires(limit, [Oversized(declared)]) == Pack(declared) + [];
    assert Pack(declared) + [] == Pack(declared);
  }

  lemma Joins(a: seq<Byte>, b: seq<Byte>, c: seq<Byte>)
    ensures a + (b + c) == (a + b) + c
  {
  }

  // The bytes of a state whose first item is read off, given those of the rest.
  lemma BytesInFront(limit: nat, held: seq<Byte>, item: Item, rest: seq<Byte>, items: seq<Item>, tail: seq<Byte>)
    requires WellFormed(limit, items) && !item.Oversized?
    requires item.Frame? ==> 1 <= |item.payload| <= limit && |item.payload| < HEADER_LIMIT
    requires held == Wire(item) + rest && rest == Wires(limit, items) + tail
    ensures WellFormed(limit, [item] + items) && held == Wires(limit, [item] + items) + tail
  {
    ItemInFront(limit, item, items);
    Joins(Wire(item), Wires(limit, items), tail);
  }

  lemma ReportsInFront(limit: nat, item: Item, items: seq<Item>, first: DecodeResult, after: (DecoderState, DecodeResult))
    requires WellFormed(limit, items) && !item.Oversized?
    requires item.Frame? ==> 1 <= |item.payload| <= limit && |item.payload| < HEADER_LIMIT
    requires after.1 == DecodeResult(PayloadsOf(items), IssuesOf(limit, items))
    requires first == if item.Frame? then DecodeResult([item.payload], []) else DecodeResult([], [ZeroLengthFrame])
    ensures After(first, after).1 == DecodeResult(PayloadsOf([item] + items), IssuesOf(limit, [item] + items))
    ensures After(first, after).0 == after.0
  {
    ItemInFront(limit, item, items);
  }

  // One item in front of what the rest is read as.
  lemma ItemRead(limit: nat, s: DecoderState, item: Item, rest: DecoderState, first: DecodeResult,
                 after: (DecoderState, DecodeResult), items: seq<Item>, dropped: seq<Byte>)
    requires Sized(limit, s) && !item.Oversized? && Explains(limit, rest, after, items, dropped)
    requires item.Frame? ==> 1 <= |item.payload| <= limit && |item.payload| < HEADER_LIMIT
    requires Held(s) == Wire(item) + Held(rest)
    requires first == if item.Frame? then DecodeResult([item.payload], []) else DecodeResult([], [ZeroLengthFrame])
    ensures Explains(limit, s, After(first, after), [item] + items, dropped)
  {
    BytesInFront(limit, Held(s), item, Held(rest), items, if Drops(items) then dropped else Held(after.0));
    ReportsInFront(limit, item, items, first, after);
    ItemInFront(limit, item, items);
  }

  lemma FrameIsHeld(limit: nat, s: DecoderState)
    requires Sized(limit, s) && s.expected.Some? && |s.buffer| >= s.expected.value
    ensures Held(s) == Wire(Frame(s.buffer[..s.expected.value])) + Held(DecoderState(s.buffer[s.expected.value..], None))
  {
    var payload, rest := s.buffer[..s.expected.value], s.buffer[s.expected.value..];
    assert s.buffer == payload + rest && [] + rest == rest;
    Joins(Pack(|payload|), payload, rest);
  }

  lemma {:induction false} DrainExplains(limit: nat, s: DecoderState) returns (items: seq<Item>, dropped: seq<Byte>)
    requires Sized(limit, s)
    ensures Explains(limit, s, Drain(limit, s), items, dropped)
    decreases |s.buffer|, if s.expected.Some? then 1 else 0
  {
    items, dropped := [], [];
    if s.expected.None? {
      if |s.buffer| < HEADER_SIZE {
        NothingRead(limit, s);
      } else {
        var declared, rest := Unpack(s.buffer[..HEADER_SIZE]), s.buffer[HEADER_SIZE..];
        if declared == 0 {
          items, dropped := DrainExplains(limit, DecoderState(rest, None));
          HeaderIsPacked(s);
          assert Held(DecoderState(rest, None)) == rest by { assert [] + rest == rest; }
          ItemRead(limit, s, Zero, DecoderState(rest, None), DecodeResult([], [ZeroLengthFrame]),
                   Drain(limit, DecoderState(rest, None)), items, dropped);
          items := [Zero] + items;
        } else if declared > limit {
          OversizedRead(limit, s);
          items, dropped := [Oversized(declared)], rest;
        } else {
          items, dropped := DrainExplains(limit, DecoderState(rest, Some(declared)));
          HeaderIsPacked(s);
        }
      }
    } else if |s.buffer| < s.expected.value {
      NothingRead(limit, s);
    } else {
      var rest := DecoderState(s.buffer[s.expected.value..], None);
      items, dropped := DrainExplains(limit, rest);
      var payload := s.buffer[..s.expected.value];
      FrameIsHeld(limit, s);
      ItemRead(limit, s, Frame(payload), rest, DecodeResult([payload], []), Drain(limit, rest), items, dropped);
      items := [Frame(payload)] + items;
    }
  }

  /** Main result: for any decoder and any chunk, what the decoder held and the chunk together
      are the frames it delivers, the zero and oversized headers it reports, in their order,
      and then what it holds afterwards; only behind an oversized header is anything dropped. */
  lemma EveryByteIsExplained(limit: nat, s: DecoderState, chunk: seq<Byte>) returns (items: seq<Item>, dropped: seq<Byte>)
    requires Sized(limit, s)
    ensures Explains(limit, s.(buffer := s.buffer + chunk), Feed(limit, s, chunk), items, dropped)
    ensures Held(s.(buffer := s.buffer + chunk)) == Held(s) + chunk
  {
    items, dropped := DrainExplains(limit, s.(buffer := s.buffer + chunk));
  }

  /** At the end of a stream a truncated frame is reported exactly when bytes are held, with the
      number waiting behind the header, and the length that the header declares, if it is whole. */
  lemma EveryEndIsExplained(limit: nat, s: DecoderState)
    requires Sized(limit, s) && s.Waiting(limit)
    ensures Finish(s).payloads == []
    ensures Finish(s).issues == [] <==> Held(s) == []
    ensures 0 < |Held(s)| < HEADER_SIZE ==> Finish(s).issues == [TruncatedFrame(|Held(s)|, None)]
    ensures |Held(s)| >= HEADER_SIZE ==>
              var declared := Unpack(Held(s)[..HEADER_SIZE]);
              && |Held(s)| - HEADER_SIZE < declared <= limit
              && Finish(s).issues == [TruncatedFrame(|Held(s)| - HEADER_SIZE, Some(declared))]
  {
    if s.expected.Some? {
      UnpackInvertsPack(s.expected.value);
      assert Held(s)[..HEADER_SIZE] == Pack(s.expected.value);
    } else {
      assert Held(s) == s.buffer;
    }
  }
}
