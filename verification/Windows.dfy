/** Closing feature windows over one segment's events, live or in one batch. */
module Windows {
  import opened Wrappers
  import opened Sorting
  import opened Timelines
  import opened RiskTypes

  datatype Resolution = Resolution(width: int, height: int)

  /** The window configuration; `reference` is the screen that mouse features are scaled to. */
  datatype Config = Config(
    windowUs: int, windowKeystrokes: int, minKeystrokes: int, minMouseSamples: int, reference: Resolution)

  datatype InputEvent =
    | KeyEvent(t: int, sequence: int, isDown: bool, isRepeat: bool)
    | MouseEvent(t: int, sequence: int)

  datatype Pending = Pending(tStart: int, kbd: seq<InputEvent>, mouse: seq<InputEvent>, keystrokes: nat)

  /** A closed window with the events its features are computed from. */
  datatype Window = Window(
    index: nat, tStart: int, tEnd: int, quality: WindowQuality,
    keyCount: nat, mouseCount: nat, kbd: seq<InputEvent>, mouse: seq<InputEvent>)

  /** A window with the focus mixture its context block reports and, if it has mouse
      features, the screen they are scaled from. */
  datatype Closed = Closed(window: Window, mixture: Mixture, screen: Option<Resolution>)

  // An unknown or degenerate screen counts as the reference, whose scale is one.
  function ScreenOf(config: Config, quality: WindowQuality, resolution: Option<Resolution>): Option<Resolution> {
    if quality != Full && quality != MouseOnly then None
    else if resolution.Some? && resolution.value.width > 0 && resolution.value.height > 0 then resolution
    else Some(config.reference)
  }

  function InputKey(): InputEvent -> Key {
    (e: InputEvent) => Key(e.t, e.sequence)
  }

  function Quality(keyCount: nat, mouseCount: nat, config: Config): WindowQuality {
    var kbdOk, mouseOk := keyCount >= config.minKeystrokes, mouseCount >= config.minMouseSamples;
    if kbdOk && mouseOk then Full
    else if kbdOk then KbdOnly
    else if mouseOk then MouseOnly
    else InsufficientData
  }

  function Recorded(pending: Option<Pending>, e: InputEvent): Pending {
    var p := if pending.None? then Pending(e.t, [], [], 0) else pending.value;
    if e.KeyEvent? then
      p.(kbd := p.kbd + [e], keystrokes := p.keystrokes + if e.isDown && !e.isRepeat then 1 else 0)
    else p.(mouse := p.mouse + [e])
  }

  predicate Closes(config: Config, p: Pending, e: InputEvent) {
    p.keystrokes >= config.windowKeystrokes || e.t - p.tStart >= config.windowUs
  }

  function WindowOf(config: Config, index: nat, p: Pending, tEnd: int): Window {
    Window(index, p.tStart, tEnd, Quality(p.keystrokes, |p.mouse|, config), p.keystrokes, |p.mouse|, p.kbd, p.mouse)
  }

  /** The builder without its timeline. */
  datatype Progress = Progress(pending: Option<Pending>, index: nat)

  const Fresh := Progress(None, 0)

  function Pushed(config: Config, s: Progress, e: InputEvent): (Progress, seq<Window>) {
    var p := Recorded(s.pending, e);
    if Closes(config, p, e) then (Progress(None, s.index + 1), [WindowOf(config, s.index, p, e.t)])
    else (Progress(Some(p), s.index), [])
  }

  function PushedAll(config: Config, s: Progress, events: seq<InputEvent>): (Progress, seq<Window>) {
    if events == [] then (s, [])
    else
      var (before, windows) := PushedAll(config, s, events[..|events| - 1]);
      var (after, more) := Pushed(config, before, events[|events| - 1]);
      (after, windows + more)
  }

  function MaxTime(events: seq<InputEvent>): int
    requires events != []
  {
    if |events| == 1 || MaxTime(events[..|events| - 1]) < events[|events| - 1].t then events[|events| - 1].t
    else MaxTime(events[..|events| - 1])
  }

  function Flushed(config: Config, s: Progress): (Progress, seq<Window>)
    requires s.pending.Some? ==> s.pending.value.kbd + s.pending.value.mouse != []
  {
    if s.pending.None? then (s, [])
    else
      var p := s.pending.value;
      (Progress(None, s.index + 1), [WindowOf(config, s.index, p, MaxTime(p.kbd + p.mouse))])
  }

  predicate HasEvents(s: Progress) {
    s.pending.Some? ==> s.pending.value.kbd + s.pending.value.mouse != []
  }

  // The inputs of one kind, in order.
  function OfKind(inputs: seq<InputEvent>, keyboard: bool): seq<InputEvent> {
    if inputs == [] then []
    else
      var last := inputs[|inputs| - 1];
      OfKind(inputs[..|inputs| - 1], keyboard) + if last.KeyEvent? == keyboard then [last] else []
  }

  // A closed window that knew these focus changes and this screen.
  ghost predicate Report(config: Config, closed: Closed, window: Window, marks: seq<Mark>, resolution: Option<Resolution>) {
    && closed.window == window
    && IsMixture(marks, window.tStart, window.tEnd, closed.mixture)
    && closed.screen == ScreenOf(config, window.quality, resolution)
  }

  ghost predicate Reports(config: Config, closed: seq<Closed>, windows: seq<Window>, marks: seq<Mark>,
                          resolution: Option<Resolution>) {
    && |closed| == |windows|
    && forall i :: 0 <= i < |closed| ==> Report(config, closed[i], windows[i], marks, resolution)
  }

  class WindowBuilder {
    const config: Config
    const timeline: ContextTimeline
    var resolution: Option<Resolution>
    var pending: Option<Pending>
    var windowIndex: nat

    function View(): Progress
      reads this
    {
      Progress(pending, windowIndex)
    }

    ghost predicate Valid()
      reads this, timeline
    {
      timeline.Valid() && HasEvents(View())
    }

    constructor (config: Config, contextEvents: seq<ContextEvent>, resolution: Option<Resolution>)
      ensures Valid() && fresh(timeline)
      ensures this.config == config && this.resolution == resolution && View() == Fresh
      ensures timeline.Marks() == MarksOf(Sort(contextEvents, ContextKey()))
    {
      this.config := config;
      timeline := new ContextTimeline(contextEvents);
      pending, windowIndex, this.resolution := None, 0, resolution;
    }

    method Close(tEnd: int) returns (closed: Closed)
      requires Valid() && pending.Some?
      modifies this`pending, this`windowIndex
      ensures Valid() && View() == Progress(None, old(windowIndex) + 1)
      ensures closed.window == WindowOf(config, old(windowIndex), old(pending).value, tEnd)
      ensures Report(config, closed, closed.window, timeline.Marks(), resolution)
    {
      var p := pending.value;
      var keyCount, mouseCount := p.keystrokes, |p.mouse|;
      var mixture := timeline.FocusShares(p.tStart, tEnd);
      var window := Window(windowIndex, p.tStart, tEnd, Quality(keyCount, mouseCount, config),
                           keyCount, mouseCount, p.kbd, p.mouse);
      windowIndex := windowIndex + 1;
      pending := None;
      closed := Closed(window, mixture, ScreenOf(config, window.quality, resolution));
    }

    // One event of the loop: it is recorded, and may close its window.
    method PushEvent(e: InputEvent) returns (closed: seq<Closed>)
      requires Valid()
      modifies this`pending, this`windowIndex
      ensures Valid()
      ensures View() == Pushed(config, old(View()), e).0
      ensures Reports(config, closed, Pushed(config, old(View()), e).1, timeline.Marks(), resolution)
    {
      var p := if pending.None? then Pending(e.t, [], [], 0) else pending.value;
      if e.KeyEvent? {
        p := p.(kbd := p.kbd + [e]);
        if e.isDown && !e.isRepeat {
          p := p.(keystrokes := p.keystrokes + 1);
        }
      } else {
        p := p.(mouse := p.mouse + [e]);
      }
      pending := Some(p);
      closed := [];
      if p.keystrokes >= config.windowKeystrokes || e.t - p.tStart >= config.windowUs {
        var window := Close(e.t);
        closed := [window];
      }
    }

    method PushEvents(events: seq<InputEvent>) returns (closed: seq<Closed>)
      requires Valid()
      modifies this`pending, this`windowIndex
      ensures Valid()
      ensures View() == PushedAll(config, old(View()), Sort(events, InputKey())).0
      ensures Reports(config, closed, PushedAll(config, old(View()), Sort(events, InputKey())).1, timeline.Marks(), resolution)
    {
      closed := [];
      var ordered := Sort(events, InputKey());
      for i := 0 to |ordered|
        invariant Valid()
        invariant View() == PushedAll(config, old(View()), ordered[..i]).0
        invariant Reports(config, closed, PushedAll(config, old(View()), ordered[..i]).1, timeline.Marks(), resolution)
      {
        assert ordered[..i + 1][..i] == ordered[..i];
        var more := PushEvent(ordered[i]);
        closed := closed + more;
      }
      assert ordered[..|ordered|] == ordered;
    }

    method PushContextEvent(event: ContextEvent)
      requires Valid()
      modifies timeline
      ensures Valid() && timeline.Marks() == Added(old(timeline.Marks()), Mark(event.t, event.focus))
    {
      timeline.Add(Mark(event.t, event.focus));
    }

    // Raises ValueError, modelled by the result, for a screen without area.
    method SetDeviceResolution(width: int, height: int) returns (ok: bool)
      requires Valid()
      modifies this`resolution
      ensures Valid() && ok == (width > 0 && height > 0)
      ensures resolution == if ok then Some(Resolution(width, height)) else old(resolution)
    {
      ok := width > 0 && height > 0;
      if ok {
        resolution := Some(Resolution(width, height));
      }
    }

    method Flush() returns (closed: seq<Closed>)
      requires Valid()
      modifies this`pending, this`windowIndex
      ensures Valid() && View() == Flushed(config, old(View())).0
      ensures Reports(config, closed, Flushed(config, old(View())).1, timeline.Marks(), resolution)
    {
      if pending.None? {
        return [];
      }
      var last := MaxTime(pending.value.kbd + pending.value.mouse);
      var window := Close(last);
      return [window];
    }
  }
}
