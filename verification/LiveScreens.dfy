/** The screen that live windows scale their mouse features from, and when it is the batch's. */
module LiveScreens {
  import opened Wrappers
  import opened RiskTypes
  import opened Sorting
  import opened Timelines
  import opened Windows
  import opened LiveBatch

  /** The screen of the last device event, or the one known before the segment. */
  function ScreenAfter(device: Option<Resolution>, stream: seq<StreamEvent>): Option<Resolution> {
    if stream == [] then device
    else if stream[|stream| - 1].Device? then Some(stream[|stream| - 1].screen)
    else ScreenAfter(device, stream[..|stream| - 1])
  }

  // A window closed by the input at an index, knowing what was reported before it.
  ghost predicate ClosedBy(device: Option<Resolution>, stream: seq<StreamEvent>, sighting: Sighting, k: nat)
    requires k < |stream|
  {
    && stream[k].Input? && sighting.window.tEnd == TimeOf(stream[k])
    && sighting.marks == MarksOf(Contexts(stream[..k]))
    && sighting.resolution == ScreenAfter(device, stream[..k])
  }

  lemma {:induction false} ScreenIsTheLastReported(config: Config, device: Option<Resolution>, stream: seq<StreamEvent>)
    ensures Live(config, device, stream).resolution == ScreenAfter(device, stream)
  {
    if stream != [] {
      ScreenIsTheLastReported(config, device, stream[..|stream| - 1]);
    }
  }

  // Only an input adds sightings, with what is known at that moment.
  lemma StepSights(config: Config, device: Option<Resolution>, before: seq<StreamEvent>, e: StreamEvent)
    requires InOrder(before + [e])
    ensures var s, s' := Live(config, device, before), Live(config, device, before + [e]);
            && |s.sightings| <= |s'.sightings| && s'.sightings[..|s.sightings|] == s.sightings
            && (forall i :: |s.sightings| <= i < |s'.sightings| ==> ClosedBy(device, before + [e], s'.sightings[i], |before|))
  {
    var stream := before + [e];
    assert stream[..|before|] == before;
    PrefixInOrder(before, e);
    if e.Input? {
      LiveTakes(config, device, before, e.input);
      LiveAgrees(config, device, before);
      ScreenIsTheLastReported(config, device, before);
    }
  }

  /** Every window closed on the way was closed by an input of the stream, at its time, knowing
      exactly the focus changes and the last screen reported before that input. */
  lemma {:induction false} SightingsKnowTheirPast(config: Config, device: Option<Resolution>, stream: seq<StreamEvent>,
                                                  i: nat)
    returns (k: nat)
    requires InOrder(stream) && i < |Live(config, device, stream).sightings|
    ensures k < |stream| && ClosedBy(device, stream, Live(config, device, stream).sightings[i], k)
    decreases |stream|
  {
    var n := |stream| - 1;
    var before, e := stream[..n], stream[n];
    assert stream == before + [e];
    StepSights(config, device, before, e);
    PrefixInOrder(before, e);
    var s, s' := Live(config, device, before), Live(config, device, stream);
    if i < |s.sightings| {
      k := SightingsKnowTheirPast(config, device, before, i);
      assert s'.sightings[i] == s'.sightings[..|s.sightings|][i];
      assert stream[..k] == before[..k];
    } else {
      k := n;
    }
  }

  // Every device event of the segment names the screen already known.
  predicate Steady(device: Option<Resolution>, stream: seq<StreamEvent>) {
    forall i :: 0 <= i < |stream| && stream[i].Device? ==> device == Some(stream[i].screen)
  }

  ghost predicate AllSawScreen(sightings: seq<Sighting>, device: Option<Resolution>) {
    forall i :: 0 <= i < |sightings| ==> sightings[i].resolution == device
  }

  lemma {:induction false} LiveKeepsScreen(config: Config, device: Option<Resolution>, stream: seq<StreamEvent>)
    requires Steady(device, stream)
    ensures Live(config, device, stream).resolution == device
    ensures AllSawScreen(Live(config, device, stream).sightings, device)
    decreases |stream|
  {
    if stream != [] {
      LiveKeepsScreen(config, device, stream[..|stream| - 1]);
      StepKeepsScreen(config, Live(config, device, stream[..|stream| - 1]), stream[|stream| - 1], device);
    }
  }

  lemma StepKeepsScreen(config: Config, s: LiveState, e: StreamEvent, device: Option<Resolution>)
    requires s.resolution == device && AllSawScreen(s.sightings, device)
    requires e.Device? ==> device == Some(e.screen)
    ensures LiveStep(config, s, e).resolution == device && AllSawScreen(LiveStep(config, s, e).sightings, device)
  {
  }

  /** A segment whose screen does not change, extracted with that screen: live and batch
      windows are the same but for focus changes of the very instant of a window. */
  lemma SteadyScreensAgree(config: Config, device: Option<Resolution>, stream: seq<StreamEvent>, live: seq<Closed>,
                           batch: seq<Closed>)
    requires InOrder(stream) && Steady(device, stream)
    requires HasEvents(Live(config, device, stream).progress) && Matches(config, live, Sightings(config, device, stream))
    requires HasEvents(PushedAll(config, Fresh, Sort(Supplied(stream), InputKey())).0)
    requires Reports(config, batch, BatchWindows(config, Supplied(stream)),
                     MarksOf(Sort(Contexts(stream), ContextKey())), device)
    ensures |live| == |batch| == |Sightings(config, device, stream)|
    ensures forall i :: 0 <= i < |live| ==>
              (live[i] == batch[i] <==>
               live[i].window.tStart < live[i].window.tEnd
               || FocusStands(Sightings(config, device, stream)[i], Live(config, device, stream).marks))
  {
    LiveEqualsBatch(config, device, stream, device, live, batch);
    LiveKeepsScreen(config, device, stream);
    assert AllSawScreen(Sightings(config, device, stream), device);
  }

  // ---------------------------------------------------------------------
  // A screen reported after its window was closed
  // ---------------------------------------------------------------------

  const MOVE := MouseEvent(5, 1)
  const KEY := KeyEvent(5, 2, true, false)

  function MoveAndKey(config: Config): Window {
    WindowOf(config, 0, Recorded(Some(Recorded(None, MOVE)), KEY), 5)
  }

  lemma MoveWaits(config: Config)
    requires config.windowKeystrokes == 1 && config.windowUs > 0
    ensures Live(config, None, [Input(MOVE)]) == LiveState(Progress(Some(Recorded(None, MOVE)), 0), [], None, [])
  {
    assert [Input(MOVE)][..0] == [];
    LiveStart(config);
    SortOfAscending([MOVE], InputKey());
    PushOne(config, Fresh, MOVE);
    MoveClosesNothing(config);
    assert [] + Seen([], [], None) == [];
  }

  lemma LiveStart(config: Config)
    ensures Live(config, None, []) == LiveState(Fresh, [], None, [])
  {
  }

  lemma MoveClosesNothing(config: Config)
    requires config.windowKeystrokes == 1 && config.windowUs > 0
    ensures Pushed(config, Fresh, MOVE) == (Progress(Some(Recorded(None, MOVE)), 0), [])
  {
  }

  lemma KeyCloses(config: Config)
    requires config.windowKeystrokes == 1 && config.windowUs > 0
    ensures Live(config, None, [Input(MOVE), Input(KEY)])
            == LiveState(Progress(None, 1), [], None, [Sighting(MoveAndKey(config), [], None)])
  {
    MoveWaits(config);
    assert [Input(MOVE), Input(KEY)][..1] == [Input(MOVE)];
    var waiting := Progress(Some(Recorded(None, MOVE)), 0);
    SortOfAscending([KEY], InputKey());
    PushOne(config, waiting, KEY);
    assert Pushed(config, waiting, KEY) == (Progress(None, 1), [MoveAndKey(config)]);
    assert [] + Seen([MoveAndKey(config)], [], None) == [Sighting(MoveAndKey(config), [], None)];
  }

  lemma ScreenComesTooLate(config: Config, screen: Screen)
    requires config.windowKeystrokes == 1 && config.windowUs > 0
    ensures Sightings(config, None, [Input(MOVE), Input(KEY), Device(5, 3, screen)])
            == [Sighting(MoveAndKey(config), [], None)]
  {
    var stream := [Input(MOVE), Input(KEY), Device(5, 3, screen)];
    assert stream[..2] == [Input(MOVE), Input(KEY)];
    KeyCloses(config);
    var end := Live(config, None, stream);
    assert end == Live(config, None, stream[..2]).(resolution := Some(screen));
    assert Seen([], end.marks, end.resolution) == [] && end.sightings + [] == end.sightings;
  }

  /** The exception does occur: the first window is closed before the runtime has heard of any
      screen, and the batch is given the screen reported right after. */
  lemma LateScreenDiffers(config: Config, screen: Screen, live: seq<Closed>, batch: seq<Closed>)
    requires config.windowKeystrokes == 1 && config.windowUs > 0 && config.minMouseSamples == 1
    requires screen != config.reference
    requires var stream := [Input(MOVE), Input(KEY), Device(5, 3, screen)];
             && HasEvents(Live(config, None, stream).progress)
             && Matches(config, live, Sightings(config, None, stream))
             && HasEvents(PushedAll(config, Fresh, Sort(Supplied(stream), InputKey())).0)
             && Reports(config, batch, BatchWindows(config, Supplied(stream)),
                        MarksOf(Sort(Contexts(stream), ContextKey())), Some(screen))
    ensures |live| == |batch| == 1 && live[0].window == batch[0].window && live[0] != batch[0]
  {
    var stream := [Input(MOVE), Input(KEY), Device(5, 3, screen)];
    LiveEqualsBatch(config, None, stream, Some(screen), live, batch);
    ScreenComesTooLate(config, screen);
    assert !ScreenStands(config, Sighting(MoveAndKey(config), [], None), Some(screen));
  }
}
