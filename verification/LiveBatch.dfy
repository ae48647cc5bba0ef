/** Live windowing, one event at a time with focus changes interleaved, against the batch
    extraction of the finished stream. */
module LiveBatch {
  import opened Wrappers
  import opened Sorting
  import opened Timelines
  import opened Windows
  import WindowContents

  // The event contract admits no screen without area.
  type Screen = r: Resolution | r.width > 0 && r.height > 0 witness Resolution(1, 1)

  /** The events of a segment; registry entries and heartbeats leave its builder alone. */
  datatype StreamEvent =
    | Input(input: InputEvent)
    | Context(context: ContextEvent)
    | Device(t: int, sequence: int, screen: Screen)
    | Other(t: int, sequence: int)

  function TimeOf(e: StreamEvent): int {
    match e
    case Input(i) => i.t
    case Context(c) => c.t
    case Device(t, _, _) => t
    case Other(t, _) => t
  }

  function SequenceOf(e: StreamEvent): int {
    match e
    case Input(i) => i.sequence
    case Context(c) => c.sequence
    case Device(_, n, _) => n
    case Other(_, n) => n
  }

  /** The order in which the sequence tracker lets a stream through. */
  ghost predicate InOrder(stream: seq<StreamEvent>) {
    forall i, j :: 0 <= i < j < |stream| ==>
      SequenceOf(stream[i]) < SequenceOf(stream[j]) && TimeOf(stream[i]) <= TimeOf(stream[j])
  }

  function Inputs(stream: seq<StreamEvent>): seq<InputEvent> {
    if stream == [] then []
    else
      var last := stream[|stream| - 1];
      Inputs(stream[..|stream| - 1]) + if last.Input? then [last.input] else []
  }

  function Contexts(stream: seq<StreamEvent>): seq<ContextEvent> {
    if stream == [] then []
    else
      var last := stream[|stream| - 1];
      Contexts(stream[..|stream| - 1]) + if last.Context? then [last.context] else []
  }

  // ---------------------------------------------------------------------
  // The two ways of windowing
  // ---------------------------------------------------------------------

  /** A window with the focus changes and the screen known when it was closed. */
  datatype Sighting = Sighting(window: Window, marks: seq<Mark>, resolution: Option<Resolution>)

  function Seen(windows: seq<Window>, marks: seq<Mark>, resolution: Option<Resolution>): seq<Sighting> {
    seq(|windows|, i requires 0 <= i < |windows| => Sighting(windows[i], marks, resolution))
  }

  datatype LiveState = LiveState(
    progress: Progress, marks: seq<Mark>, resolution: Option<Resolution>, sightings: seq<Sighting>)

  function LiveStep(config: Config, s: LiveState, e: StreamEvent): LiveState {
    match e
    case Context(c) => s.(marks := Added(s.marks, Mark(c.t, c.focus)))
    case Input(i) =>
      var (progress, windows) := PushedAll(config, s.progress, Sort([i], InputKey()));
      s.(progress := progress, sightings := s.sightings + Seen(windows, s.marks, s.resolution))
    case Device(_, _, screen) => s.(resolution := Some(screen))
    case Other(_, _) => s
  }

  // `device` is the screen the runtime knew when the segment began.
  function Live(config: Config, device: Option<Resolution>, stream: seq<StreamEvent>): LiveState {
    if stream == [] then LiveState(Fresh, [], device, [])
    else LiveStep(config, Live(config, device, stream[..|stream| - 1]), stream[|stream| - 1])
  }

  // Every window of a live run: those closed on the way and the trailing one.
  function Sightings(config: Config, device: Option<Resolution>, stream: seq<StreamEvent>): seq<Sighting>
    requires HasEvents(Live(config, device, stream).progress)
  {
    var end := Live(config, device, stream);
    end.sightings + Seen(Flushed(config, end.progress).1, end.marks, end.resolution)
  }

  /** Every window of a batch extraction over the whole segment. */
  function BatchWindows(config: Config, inputs: seq<InputEvent>): seq<Window>
    requires HasEvents(PushedAll(config, Fresh, Sort(inputs, InputKey())).0)
  {
    var (end, windows) := PushedAll(config, Fresh, Sort(inputs, InputKey()));
    windows + Flushed(config, end).1
  }

  // The order in which the extractor receives the inputs of a stream.
  function Supplied(stream: seq<StreamEvent>): seq<InputEvent> {
    OfKind(Inputs(stream), true) + OfKind(Inputs(stream), false)
  }

  ghost predicate Matches(config: Config, closed: seq<Closed>, sightings: seq<Sighting>) {
    && |closed| == |sightings|
    && forall i :: 0 <= i < |closed| ==>
         Report(config, closed[i], sightings[i].window, sightings[i].marks, sightings[i].resolution)
  }

  ghost predicate Shows(builder: WindowBuilder, s: LiveState)
    requires builder.Valid()
    reads builder, builder.timeline
  {
    builder.View() == s.progress && builder.timeline.Marks() == s.marks && builder.resolution == s.resolution
  }

  /** The runtime's handling of one event: a focus change extends the timeline, a device event
      sets the screen, an input is pushed and closes a window or not. */
  method OnEvent(config: Config, builder: WindowBuilder, e: StreamEvent, ghost s: LiveState, closed: seq<Closed>)
    returns (closed': seq<Closed>)
    requires builder.Valid() && builder.config == config
    requires Shows(builder, s) && Matches(config, closed, s.sightings)
    modifies builder, builder.timeline
    ensures builder.Valid()
    ensures Shows(builder, LiveStep(config, s, e)) && Matches(config, closed', LiveStep(config, s, e).sightings)
  {
    closed' := closed;
    match e {
      case Context(c) => builder.PushContextEvent(c);
      case Input(i) =>
        var more := builder.PushEvents([i]);
        closed' := closed + more;
      case Device(_, _, screen) =>
        var _ := builder.SetDeviceResolution(screen.width, screen.height);
      case Other(_, _) =>
    }
  }

  /** The runtime's event loop over one segment, with the flush at its end. */
  method WindowLive(config: Config, device: Option<Resolution>, stream: seq<StreamEvent>) returns (closed: seq<Closed>)
    ensures HasEvents(Live(config, device, stream).progress)
    ensures Matches(config, closed, Sightings(config, device, stream))
  {
    var builder := new WindowBuilder(config, [], device);
    closed := [];
    for i := 0 to |stream|
      invariant builder.Valid() && builder.config == config
      invariant fresh(builder) && fresh(builder.timeline)
      invariant Shows(builder, Live(config, device, stream[..i]))
      invariant Matches(config, closed, Live(config, device, stream[..i]).sightings)
    {
      assert stream[..i + 1][..i] == stream[..i];
      closed := OnEvent(config, builder, stream[i], Live(config, device, stream[..i]), closed);
    }
    assert stream[..|stream|] == stream;
    var trailing := builder.Flush();
    closed := closed + trailing;
  }

  /** The offline extraction of a whole segment. */
  method ExtractWindows(config: Config, kbd: seq<InputEvent>, mouse: seq<InputEvent>, contexts: seq<ContextEvent>,
                        screen: Option<Resolution>)
    returns (closed: seq<Closed>)
    ensures HasEvents(PushedAll(config, Fresh, Sort(kbd + mouse, InputKey())).0)
    ensures Reports(config, closed, BatchWindows(config, kbd + mouse), MarksOf(Sort(contexts, ContextKey())), screen)
  {
    var builder := new WindowBuilder(config, contexts, screen);
    closed := builder.PushEvents(kbd + mouse);
    var trailing := builder.Flush();
    closed := closed + trailing;
  }

  // ---------------------------------------------------------------------
  // Focus changes that come later do not matter
  // ---------------------------------------------------------------------

  lemma {:induction false} FutureIsInactive(marks: seq<Mark>, later: seq<Mark>, x: int)
    requires forall i :: 0 <= i < |later| ==> later[i].t > x
    ensures ActiveAt(marks + later, x) == ActiveAt(marks, x)
    decreases |later|
  {
    if later == [] {
      assert marks + later == marks;
    } else {
      FutureIsInactive(marks, later[..|later| - 1], x);
      assert (marks + later)[..|marks + later| - 1] == marks + later[..|later| - 1];
    }
  }

  lemma {:induction false} FutureIsUncounted(marks: seq<Mark>, later: seq<Mark>, start: int, end: int)
    requires forall i :: 0 <= i < |later| ==> later[i].t >= end
    ensures SwitchesBetween(marks + later, start, end) == SwitchesBetween(marks, start, end)
    decreases |later|
  {
    if later == [] {
      assert marks + later == marks;
    } else {
      FutureIsUncounted(marks, later[..|later| - 1], start, end);
      assert (marks + later)[..|marks + later| - 1] == marks + later[..|later| - 1];
    }
  }

  lemma {:induction false} FutureDoesNotOccupy(marks: seq<Mark>, later: seq<Mark>, start: int, end: int, f: Focus,
                                               c: Category)
    requires forall i :: 0 <= i < |later| ==> later[i].t >= end
    ensures Occupancy(marks + later, start, end, f) == Occupancy(marks, start, end, f)
    ensures CategoryOccupancy(marks + later, start, end, c) == CategoryOccupancy(marks, start, end, c)
    decreases end - start
  {
    if start < end {
      FutureDoesNotOccupy(marks, later, start, end - 1, f, c);
      FutureIsInactive(marks, later, end - 1);
    }
  }

  /** A focus change at or after the end of a proper interval leaves its mixture alone. */
  lemma MixtureIgnoresTheFuture(marks: seq<Mark>, later: seq<Mark>, start: int, end: int, m: Mixture)
    requires start < end && forall i :: 0 <= i < |later| ==> later[i].t >= end
    ensures IsMixture(marks + later, start, end, m) <==> IsMixture(marks, start, end, m)
  {
    FutureIsUncounted(marks, later, start, end);
    forall f: Focus ensures Occupancy(marks + later, start, end, f) == Occupancy(marks, start, end, f) {
      FutureDoesNotOccupy(marks, later, start, end, f, f.category);
    }
    forall c: Category ensures CategoryOccupancy(marks + later, start, end, c) == CategoryOccupancy(marks, start, end, c) {
      FutureDoesNotOccupy(marks, later, start, end, Focus(0, c), c);
    }
  }

  // The last focus a list of changes assigns to the instant x itself.
  function AssignedAt(later: seq<Mark>, x: int): Option<Focus> {
    if later == [] then None
    else if later[|later| - 1].t == x then Some(later[|later| - 1].focus)
    else AssignedAt(later[..|later| - 1], x)
  }

  lemma {:induction false} ActiveWithLater(marks: seq<Mark>, later: seq<Mark>, x: int)
    requires forall i :: 0 <= i < |later| ==> later[i].t >= x
    ensures ActiveAt(marks + later, x) ==
            if AssignedAt(later, x).Some? then AssignedAt(later, x).value else ActiveAt(marks, x)
    decreases |later|
  {
    if later == [] {
      assert marks + later == marks;
    } else {
      ActiveWithLater(marks, later[..|later| - 1], x);
      assert (marks + later)[..|marks + later| - 1] == marks + later[..|later| - 1];
    }
  }

  /** For a window of no duration the two mixtures differ exactly when a later focus change
      carries the very same capture time and names another focus. */
  lemma {:induction false} InstantWindowsDiffer(marks: seq<Mark>, later: seq<Mark>, x: int, live: Mixture,
                                                batch: Mixture)
    requires forall i :: 0 <= i < |later| ==> later[i].t >= x
    requires IsMixture(marks, x, x, live) && IsMixture(marks + later, x, x, batch)
    ensures live == batch <==> AssignedAt(later, x).None? || AssignedAt(later, x).value == ActiveAt(marks, x)
  {
    ActiveWithLater(marks, later, x);
    FutureIsUncounted(marks, later, x, x);
    assert ActiveAt(marks, x) in live.apps;
  }

  // ---------------------------------------------------------------------
  // The stream order is the sorted order
  // ---------------------------------------------------------------------

  lemma {:induction false} InputsAreOrdered(stream: seq<StreamEvent>)
    requires InOrder(stream)
    ensures StrictlyAscending(Inputs(stream), InputKey())
    ensures stream != [] ==> forall i :: 0 <= i < |Inputs(stream)| ==>
              && Inputs(stream)[i].t <= TimeOf(stream[|stream| - 1])
              && Inputs(stream)[i].sequence <= SequenceOf(stream[|stream| - 1])
    decreases |stream|
  {
    if stream != [] {
      InputsAreOrdered(stream[..|stream| - 1]);
    }
  }

  lemma {:induction false} ContextsAreOrdered(stream: seq<StreamEvent>)
    requires InOrder(stream)
    ensures StrictlyAscending(Contexts(stream), ContextKey())
    ensures stream != [] ==> forall i :: 0 <= i < |Contexts(stream)| ==>
              && Contexts(stream)[i].t <= TimeOf(stream[|stream| - 1])
              && Contexts(stream)[i].sequence <= SequenceOf(stream[|stream| - 1])
    decreases |stream|
  {
    if stream != [] {
      ContextsAreOrdered(stream[..|stream| - 1]);
    }
  }

  lemma {:induction false} KindsAreAPartition(inputs: seq<InputEvent>)
    ensures multiset(OfKind(inputs, true) + OfKind(inputs, false)) == multiset(inputs)
    decreases |inputs|
  {
    if inputs != [] {
      var last := inputs[|inputs| - 1];
      KindsAreAPartition(inputs[..|inputs| - 1]);
      assert inputs == inputs[..|inputs| - 1] + [last];
    }
  }

  /** Sorting the keyboard events and the mouse events together restores the stream. */
  lemma {:induction false} BatchSortsBack(stream: seq<StreamEvent>)
    requires InOrder(stream)
    ensures Sort(Supplied(stream), InputKey()) == Inputs(stream)
    ensures Sort(Contexts(stream), ContextKey()) == Contexts(stream)
  {
    InputsAreOrdered(stream);
    ContextsAreOrdered(stream);
    KindsAreAPartition(Inputs(stream));
    SortRecovers(Supplied(stream), Inputs(stream), InputKey());
    SortRecovers(Contexts(stream), Contexts(stream), ContextKey());
  }

  // ---------------------------------------------------------------------
  // Live equals batch
  // ---------------------------------------------------------------------

  function WindowsIn(sightings: seq<Sighting>): seq<Window> {
    seq(|sightings|, i requires 0 <= i < |sightings| => sightings[i].window)
  }

  // Each sighting saw a prefix of the changes; the others were still to come.
  ghost predicate SawAPrefix(sightings: seq<Sighting>, marks: seq<Mark>, now: int) {
    forall i :: 0 <= i < |sightings| ==> sightings[i].window.tEnd <= now && IsPrefixFor(sightings[i], marks)
  }

  ghost predicate Agrees(config: Config, device: Option<Resolution>, stream: seq<StreamEvent>) {
    var s := Live(config, device, stream);
    && (s.progress, WindowsIn(s.sightings)) == PushedAll(config, Fresh, Inputs(stream))
    && s.marks == MarksOf(Contexts(stream))
    && (stream == [] ==> s.sightings == [])
    && (stream != [] ==> SawAPrefix(s.sightings, s.marks, TimeOf(stream[|stream| - 1])))
  }

  lemma ContextKeepsAgreement(config: Config, device: Option<Resolution>, before: seq<StreamEvent>, c: ContextEvent)
    requires InOrder(before + [Context(c)]) && Agrees(config, device, before)
    ensures Agrees(config, device, before + [Context(c)])
  {
    var stream := before + [Context(c)];
    assert stream[..|before|] == before;
    ContextComesLast(before, c);
    var s := Live(config, device, before);
    var mark := Mark(c.t, c.focus);
    AddedLast(s.marks, mark);
    assert MarksOf(Contexts(stream)) == MarksOf(Contexts(before)) + [mark];
    assert Inputs(stream) == Inputs(before);
    LaterChangeKeepsPrefixes(s.sightings, s.marks, mark,
                             if before == [] then c.t else TimeOf(before[|before| - 1]));
  }

  // In an ordered stream a change is no older than anything before it.
  lemma ContextComesLast(before: seq<StreamEvent>, c: ContextEvent)
    requires InOrder(before + [Context(c)])
    ensures InOrder(before)
    ensures before != [] ==> TimeOf(before[|before| - 1]) <= c.t
    ensures forall i :: 0 <= i < |Contexts(before)| ==> Contexts(before)[i].t <= c.t
  {
    var stream := before + [Context(c)];
    PrefixInOrder(before, Context(c));
    ContextsAreOrdered(before);
    if before != [] {
      assert TimeOf(stream[|before| - 1]) <= TimeOf(stream[|before|]);
    }
  }

  lemma LaterChangeKeepsPrefixes(sightings: seq<Sighting>, marks: seq<Mark>, mark: Mark, now: int)
    requires SawAPrefix(sightings, marks, now) && now <= mark.t
    ensures SawAPrefix(sightings, marks + [mark], mark.t)
  {
    forall i | 0 <= i < |sightings| ensures IsPrefixFor(sightings[i], marks + [mark]) {
      assert IsPrefixFor(sightings[i], marks);
      assert (marks + [mark])[..|sightings[i].marks|] == marks[..|sightings[i].marks|];
    }
  }

  // A device event or one that is not for the builder closes nothing and moves no focus.
  lemma OtherKeepsAgreement(config: Config, device: Option<Resolution>, before: seq<StreamEvent>, e: StreamEvent)
    requires InOrder(before + [e]) && Agrees(config, device, before) && (e.Device? || e.Other?)
    ensures Agrees(config, device, before + [e])
  {
    var stream := before + [e];
    assert stream[..|before|] == before;
    var s := Live(config, device, before);
    assert Inputs(stream) == Inputs(before) && Contexts(stream) == Contexts(before);
    if before != [] {
      assert TimeOf(stream[|before| - 1]) <= TimeOf(stream[|before|]);
      assert SawAPrefix(s.sightings, s.marks, TimeOf(e));
    }
  }

  lemma InputKeepsAgreement(config: Config, device: Option<Resolution>, before: seq<StreamEvent>, e: InputEvent)
    requires InOrder(before + [Input(e)]) && Agrees(config, device, before)
    ensures Agrees(config, device, before + [Input(e)])
  {
    var s := Live(config, device, before);
    LiveTakes(config, device, before, e);
    StreamTakes(before, e);
    var (progress, windows) := Pushed(config, s.progress, e);
    PushedAllOneMore(config, Inputs(before), e);
    WindowsAppend(s.sightings, windows, s.marks, s.resolution);
    NewSightingsSeeAll(s.sightings, windows, s.marks, s.resolution, if before == [] then e.t else TimeOf(before[|before| - 1]), e.t);
  }

  lemma StreamTakes(before: seq<StreamEvent>, e: InputEvent)
    ensures Inputs(before + [Input(e)]) == Inputs(before) + [e]
    ensures Contexts(before + [Input(e)]) == Contexts(before)
    ensures TimeOf((before + [Input(e)])[|before|]) == e.t
  {
    assert (before + [Input(e)])[..|before|] == before;
  }

  lemma PushedAllOneMore(config: Config, events: seq<InputEvent>, e: InputEvent)
    ensures var (s, windows) := PushedAll(config, Fresh, events);
            var (s', more) := Pushed(config, s, e);
            PushedAll(config, Fresh, events + [e]) == (s', windows + more)
  {
    assert (events + [e])[..|events|] == events;
  }

  lemma WindowsAppend(sightings: seq<Sighting>, windows: seq<Window>, marks: seq<Mark>, screen: Option<Resolution>)
    ensures WindowsIn(sightings + Seen(windows, marks, screen)) == WindowsIn(sightings) + windows
  {
  }

  // What an input does to the live state.
  lemma LiveTakes(config: Config, device: Option<Resolution>, before: seq<StreamEvent>, e: InputEvent)
    requires InOrder(before + [Input(e)])
    ensures var s := Live(config, device, before);
            var (progress, windows) := Pushed(config, s.progress, e);
            && Live(config, device, before + [Input(e)])
               == s.(progress := progress, sightings := s.sightings + Seen(windows, s.marks, s.resolution))
            && (forall i :: 0 <= i < |windows| ==> windows[i].tEnd == e.t)
            && (before != [] ==> TimeOf(before[|before| - 1]) <= e.t)
  {
    var stream := before + [Input(e)];
    assert stream[..|before|] == before;
    SortOfAscending([e], InputKey());
    PushOne(config, Live(config, device, before).progress, e);
    if before != [] {
      assert TimeOf(stream[|before| - 1]) <= TimeOf(stream[|before|]);
    }
  }

  // Windows closed now have seen every change there is.
  lemma NewSightingsSeeAll(sightings: seq<Sighting>, windows: seq<Window>, marks: seq<Mark>, screen: Option<Resolution>,
                           before: int, now: int)
    requires sightings == [] || (SawAPrefix(sightings, marks, before) && before <= now)
    requires forall i :: 0 <= i < |windows| ==> windows[i].tEnd == now
    ensures SawAPrefix(sightings + Seen(windows, marks, screen), marks, now)
  {
    assert marks[..|marks|] == marks;
    var all := sightings + Seen(windows, marks, screen);
    forall i | 0 <= i < |all| ensures all[i].window.tEnd <= now && IsPrefixFor(all[i], marks) {
      if i < |sightings| {
        assert all[i] == sightings[i];
      }
    }
  }

  lemma PushOne(config: Config, s: Progress, e: InputEvent)
    ensures PushedAll(config, s, [e]) == Pushed(config, s, e)
  {
    assert [e][..0] == [];
    assert PushedAll(config, s, []) == (s, []);
    assert [] + Pushed(config, s, e).1 == Pushed(config, s, e).1;
  }

  lemma {:induction false} LiveAgrees(config: Config, device: Option<Resolution>, stream: seq<StreamEvent>)
    requires InOrder(stream)
    ensures Agrees(config, device, stream)
    decreases |stream|
  {
    if stream == [] {
      assert WindowsIn([]) == [] && MarksOf([]) == [];
    } else {
      var before, last := stream[..|stream| - 1], stream[|stream| - 1];
      assert stream == before + [last];
      PrefixInOrder(before, last);
      LiveAgrees(config, device, before);
      LastKeepsAgreement(config, device, before, last);
    }
  }

  lemma LastKeepsAgreement(config: Config, device: Option<Resolution>, before: seq<StreamEvent>, last: StreamEvent)
    requires InOrder(before + [last]) && Agrees(config, device, before)
    ensures Agrees(config, device, before + [last])
  {
    match last {
      case Context(c) => ContextKeepsAgreement(config, device, before, c);
      case Input(e) => InputKeepsAgreement(config, device, before, e);
      case _ => OtherKeepsAgreement(config, device, before, last);
    }
  }

  lemma PrefixInOrder(before: seq<StreamEvent>, last: StreamEvent)
    requires InOrder(before + [last])
    ensures InOrder(before)
  {
    assert forall i :: 0 <= i < |before| ==> before[i] == (before + [last])[i];
  }

  // The sightings of a live run are the batch's windows, each with a prefix of its changes.
  lemma {:induction false} SightingsAreBatchWindows(config: Config, device: Option<Resolution>, stream: seq<StreamEvent>)
    requires InOrder(stream) && HasEvents(Live(config, device, stream).progress)
    ensures HasEvents(PushedAll(config, Fresh, Sort(Supplied(stream), InputKey())).0)
    ensures WindowsIn(Sightings(config, device, stream)) == BatchWindows(config, Supplied(stream))
    ensures MarksOf(Sort(Contexts(stream), ContextKey())) == Live(config, device, stream).marks
    ensures forall i :: 0 <= i < |Sightings(config, device, stream)| ==>
              IsPrefixFor(Sightings(config, device, stream)[i], Live(config, device, stream).marks)
  {
    BatchSortsBack(stream);
    LiveAgrees(config, device, stream);
    var s := Live(config, device, stream);
    var trailing := Flushed(config, s.progress).1;
    WindowsAppend(s.sightings, trailing, s.marks, s.resolution);
    TrailingSawEverything(s.sightings, trailing, s.marks, s.resolution);
  }

  // No window of a stream ends before it starts.
  lemma BatchWindowsAreProper(config: Config, stream: seq<StreamEvent>)
    requires InOrder(stream)
    requires HasEvents(PushedAll(config, Fresh, Sort(Supplied(stream), InputKey())).0)
    ensures var windows := BatchWindows(config, Supplied(stream));
            forall i :: 0 <= i < |windows| ==> windows[i].tStart <= windows[i].tEnd
  {
    BatchSortsBack(stream);
    InputsAreOrdered(stream);
    var inputs := Inputs(stream);
    forall i, j | 0 <= i < j < |inputs| ensures inputs[i].t <= inputs[j].t {
      assert KeyLess(InputKey()(inputs[i]), InputKey()(inputs[j]));
    }
    WindowContents.WindowsFollowEachOther(config, inputs);
    WindowContents.FlushIsProper(config, inputs);
  }

  /** Main result: on a stream ordered as the tracker accepts it, live windowing closes the
      same windows as the batch extraction, with the same events, bounds, counts, quality
      and index. What they report of focus and screen is the same too, except exactly
      for a window of no duration when a change recorded after it was closed carries its very
      instant and names another focus than the one it was closed with, and for a window with
      mouse features closed under another screen than the batch is given. */
  lemma LiveEqualsBatch(config: Config, device: Option<Resolution>, stream: seq<StreamEvent>, screen: Option<Resolution>,
                      live: seq<Closed>, batch: seq<Closed>)
    requires InOrder(stream)
    requires HasEvents(Live(config, device, stream).progress) && Matches(config, live, Sightings(config, device, stream))
    requires HasEvents(PushedAll(config, Fresh, Sort(Supplied(stream), InputKey())).0)
    requires Reports(config, batch, BatchWindows(config, Supplied(stream)),
                     MarksOf(Sort(Contexts(stream), ContextKey())), screen)
    ensures |live| == |batch| == |Sightings(config, device, stream)|
    ensures forall i :: 0 <= i < |live| ==> live[i].window == batch[i].window
    ensures forall i :: 0 <= i < |live| ==>
              (live[i] == batch[i] <==>
               && (live[i].window.tStart < live[i].window.tEnd
                   || FocusStands(Sightings(config, device, stream)[i], Live(config, device, stream).marks))
               && ScreenStands(config, Sightings(config, device, stream)[i], screen))
  {
    SightingsAreBatchWindows(config, device, stream);
    BatchWindowsAreProper(config, stream);
    SightingsAgree(config, Sightings(config, device, stream), Live(config, device, stream).marks, screen, live, batch);
  }

  // The screen known when the window was closed scales its mouse features as the given one does.
  predicate ScreenStands(config: Config, sighting: Sighting, screen: Option<Resolution>) {
    ScreenOf(config, sighting.window.quality, sighting.resolution) == ScreenOf(config, sighting.window.quality, screen)
  }

  // No change recorded after the window was closed gives its start another focus.
  predicate FocusStands(sighting: Sighting, marks: seq<Mark>) {
    |sighting.marks| <= |marks| ==>
      var latest := AssignedAt(marks[|sighting.marks|..], sighting.window.tStart);
      latest.None? || latest.value == ActiveAt(sighting.marks, sighting.window.tStart)
  }

  lemma SightingsAgree(config: Config, all: seq<Sighting>, marks: seq<Mark>, screen: Option<Resolution>,
                       live: seq<Closed>, batch: seq<Closed>)
    requires Matches(config, live, all) && Reports(config, batch, WindowsIn(all), marks, screen)
    requires forall i :: 0 <= i < |all| ==> IsPrefixFor(all[i], marks)
    requires forall i :: 0 <= i < |all| ==> WindowsIn(all)[i].tStart <= WindowsIn(all)[i].tEnd
    ensures |live| == |batch| == |all|
    ensures forall i :: 0 <= i < |live| ==> live[i].window == batch[i].window
    ensures forall i :: 0 <= i < |live| ==>
              (live[i] == batch[i] <==>
               && (live[i].window.tStart < live[i].window.tEnd || FocusStands(all[i], marks))
               && ScreenStands(config, all[i], screen))
  {
    forall i | 0 <= i < |live|
      ensures live[i].window == batch[i].window
      ensures live[i] == batch[i] <==>
              && (live[i].window.tStart < live[i].window.tEnd || FocusStands(all[i], marks))
              && ScreenStands(config, all[i], screen)
    {
      assert WindowsIn(all)[i] == all[i].window;
      OneSightingAgrees(all[i], marks, live[i], batch[i]);
    }
  }

  lemma OneSightingAgrees(sighting: Sighting, marks: seq<Mark>, live: Closed, batch: Closed)
    requires IsPrefixFor(sighting, marks) && live.window == batch.window == sighting.window
    requires live.window.tStart <= live.window.tEnd
    requires IsMixture(sighting.marks, live.window.tStart, live.window.tEnd, live.mixture)
    requires IsMixture(marks, live.window.tStart, live.window.tEnd, batch.mixture)
    ensures live.mixture == batch.mixture <==> live.window.tStart < live.window.tEnd || FocusStands(sighting, marks)
  {
    if live.window.tStart < live.window.tEnd {
      SameMixture(sighting.marks, marks, live, batch);
    } else {
      var later := marks[|sighting.marks|..];
      assert sighting.marks + later == marks;
      InstantWindowsDiffer(sighting.marks, later, live.window.tStart, live.mixture, batch.mixture);
    }
  }

  // A key press that closes a window at once, and a focus change of the same instant after it.
  const PRESS := KeyEvent(5, 1, true, false)
  const CHANGE := ContextEvent(5, 2, Focus(7, Gaming))

  lemma PressClosesAtOnce(config: Config, device: Option<Resolution>)
    requires config.windowKeystrokes == 1
    ensures var window := WindowOf(config, 0, Recorded(None, PRESS), 5);
            Live(config, device, [Input(PRESS)]) == LiveState(Progress(None, 1), [], device, [Sighting(window, [], device)])
  {
    assert [Input(PRESS)][..0] == [];
    SortOfAscending([PRESS], InputKey());
    PushOne(config, Fresh, PRESS);
    var window := WindowOf(config, 0, Recorded(None, PRESS), 5);
    assert Pushed(config, Fresh, PRESS) == (Progress(None, 1), [window]);
    assert Live(config, device, []) == LiveState(Fresh, [], device, []);
    assert [] + Seen([window], [], device) == [Sighting(window, [], device)];
  }

  lemma ChangeComesTooLate(config: Config, device: Option<Resolution>)
    requires config.windowKeystrokes == 1
    ensures var window := WindowOf(config, 0, Recorded(None, PRESS), 5);
            && Live(config, device, [Input(PRESS), Context(CHANGE)]).marks == [Mark(5, CHANGE.focus)]
            && Sightings(config, device, [Input(PRESS), Context(CHANGE)]) == [Sighting(window, [], device)]
  {
    var stream := [Input(PRESS), Context(CHANGE)];
    assert stream[..1] == [Input(PRESS)];
    PressClosesAtOnce(config, device);
    AddedLast([], Mark(5, CHANGE.focus));
    assert [] + [Mark(5, CHANGE.focus)] == [Mark(5, CHANGE.focus)];
    var end := Live(config, device, stream);
    assert end == Live(config, device, [Input(PRESS)]).(marks := [Mark(5, CHANGE.focus)]);
    assert Seen([], end.marks, device) == [] && end.sightings + [] == end.sightings;
  }

  /** The exception does occur: a key press closes a window at once, and the focus change of
      the same instant comes after it. */
  lemma SimultaneousFocusDiffers(config: Config, device: Option<Resolution>, live: seq<Closed>, batch: seq<Closed>)
    requires config.windowKeystrokes == 1
    requires var stream := [Input(PRESS), Context(CHANGE)];
             && HasEvents(Live(config, device, stream).progress)
             && Matches(config, live, Sightings(config, device, stream))
             && HasEvents(PushedAll(config, Fresh, Sort(Supplied(stream), InputKey())).0)
             && Reports(config, batch, BatchWindows(config, Supplied(stream)),
                        MarksOf(Sort(Contexts(stream), ContextKey())), device)
    ensures |live| == |batch| == 1 && live[0].window == batch[0].window && live[0] != batch[0]
  {
    var stream := [Input(PRESS), Context(CHANGE)];
    LiveEqualsBatch(config, device, stream, device, live, batch);
    ChangeComesTooLate(config, device);
    var marks := Live(config, device, stream).marks;
    assert marks[0..] == marks && marks[..0] == [];
    assert AssignedAt(marks, 5) == Some(CHANGE.focus);
  }

  ghost predicate IsPrefixFor(sighting: Sighting, marks: seq<Mark>) {
    && |sighting.marks| <= |marks|
    && sighting.marks == marks[..|sighting.marks|]
    && forall j :: |sighting.marks| <= j < |marks| ==> marks[j].t >= sighting.window.tEnd
  }

  // The trailing window is closed with every change known, the others with a prefix of them.
  lemma TrailingSawEverything(sightings: seq<Sighting>, trailing: seq<Window>, marks: seq<Mark>,
                              screen: Option<Resolution>)
    requires forall i :: 0 <= i < |sightings| ==> IsPrefixFor(sightings[i], marks)
    ensures var all := sightings + Seen(trailing, marks, screen);
            forall i :: 0 <= i < |all| ==> IsPrefixFor(all[i], marks)
  {
    var all := sightings + Seen(trailing, marks, screen);
    assert marks[..|marks|] == marks;
    forall i | 0 <= i < |all| ensures IsPrefixFor(all[i], marks) {
      if i < |sightings| {
        assert all[i] == sightings[i];
      }
    }
  }

  lemma SameMixture(seen: seq<Mark>, marks: seq<Mark>, live: Closed, batch: Closed)
    requires live.window == batch.window && live.window.tStart < live.window.tEnd
    requires |seen| <= |marks| && seen == marks[..|seen|]
    requires forall j :: |seen| <= j < |marks| ==> marks[j].t >= live.window.tEnd
    requires IsMixture(seen, live.window.tStart, live.window.tEnd, live.mixture)
    requires IsMixture(marks, live.window.tStart, live.window.tEnd, batch.mixture)
    ensures live.mixture == batch.mixture
  {
    var later := marks[|seen|..];
    assert seen + later == marks;
    MixtureIgnoresTheFuture(seen, later, live.window.tStart, live.window.tEnd, live.mixture);
    MixtureIsUnique(marks, live.window.tStart, live.window.tEnd, live.mixture, batch.mixture);
  }

  /** Pushing an ordered stream in any two portions is pushing it at once. */
  lemma {:induction false} PushingIsIncremental(config: Config, s: Progress, first: seq<InputEvent>,
                                                second: seq<InputEvent>)
    ensures var (middle, windows) := PushedAll(config, s, first);
            var (end, more) := PushedAll(config, middle, second);
            PushedAll(config, s, first + second) == (end, windows + more)
    decreases |second|
  {
    var (middle, windows) := PushedAll(config, s, first);
    if second == [] {
      assert first + second == first && windows + [] == windows;
    } else {
      var last := |second| - 1;
      PushingIsIncremental(config, s, first, second[..last]);
      assert (first + second)[..|first + second| - 1] == first + second[..last];
      var (end, more) := PushedAll(config, middle, second[..last]);
      var tail := Pushed(config, end, second[last]).1;
      assert windows + (more + tail) == windows + more + tail;
    }
  }
}
