/** What a window is labelled and timed as, read off the events it holds. */
module WindowLabels {
  import opened Wrappers
  import opened RiskTypes
  import opened Windows
  import opened WindowContents
  import opened Timelines

  /** Every window of a stream, with the trailing one. */
  function AllWindows(config: Config, events: seq<InputEvent>): seq<Window>
    requires HasEvents(PushedAll(config, Fresh, events).0)
  {
    var (s, windows) := PushedAll(config, Fresh, events);
    windows + Flushed(config, s).1
  }

  // ---------------------------------------------------------------------
  // Labels
  // ---------------------------------------------------------------------

  /** The label names the modalities of which the window holds enough. */
  ghost predicate Labelled(config: Config, w: Window) {
    && w.keyCount == Keystrokes(w.kbd) && w.mouseCount == |w.mouse|
    && (w.quality in {Full, KbdOnly} <==> Keystrokes(w.kbd) >= config.minKeystrokes)
    && (w.quality in {Full, MouseOnly} <==> |w.mouse| >= config.minMouseSamples)
  }

  lemma QualityNamesModalities(config: Config, w: Window)
    requires w.keyCount == Keystrokes(w.kbd) && w.mouseCount == |w.mouse|
    requires w.quality == Quality(w.keyCount, w.mouseCount, config)
    ensures Labelled(config, w)
  {
  }

  /** Main result: every window of every stream, trailing or not, is labelled by the events it
      holds: FULL or KBD_ONLY exactly with enough keystrokes, FULL or MOUSE_ONLY exactly with
      enough mouse samples. */
  lemma EveryWindowIsLabelled(config: Config, events: seq<InputEvent>)
    requires HasEvents(PushedAll(config, Fresh, events).0)
    ensures forall i :: 0 <= i < |AllWindows(config, events)| ==>
              Labelled(config, AllWindows(config, events)[i]) && AllWindows(config, events)[i].index == i
  {
    WindowsCloseWhenDue(config, events);
    var (s, windows) := PushedAll(config, Fresh, events);
    var all := AllWindows(config, events);
    forall i | 0 <= i < |all| ensures Labelled(config, all[i]) && all[i].index == i {
      if i < |windows| {
        assert all[i] == windows[i];
      } else {
        assert all[i] == Flushed(config, s).1[0];
      }
      QualityNamesModalities(config, all[i]);
    }
  }

  /** A closed window names a screen exactly when it holds enough mouse samples: the one known
      when it was closed, or the reference where none with an area is known. */
  lemma ScreensGoWithTheMouse(config: Config, closed: Closed, w: Window, marks: seq<Mark>, resolution: Option<Resolution>)
    requires Labelled(config, w) && Report(config, closed, w, marks, resolution)
    ensures closed.screen.Some? <==> |w.mouse| >= config.minMouseSamples
    ensures closed.screen.Some? && resolution.Some? && resolution.value.width > 0 && resolution.value.height > 0 ==>
              closed.screen == resolution
    ensures closed.screen.Some? && !(resolution.Some? && resolution.value.width > 0 && resolution.value.height > 0) ==>
              closed.screen == Some(config.reference)
  {
  }

  // ---------------------------------------------------------------------
  // Times
  // ---------------------------------------------------------------------

  ghost predicate AllWithin(events: seq<InputEvent>, start: int, end: int) {
    forall i :: 0 <= i < |events| ==> start <= events[i].t <= end
  }

  ghost predicate Attained(kbd: seq<InputEvent>, mouse: seq<InputEvent>, t: int) {
    (exists i :: 0 <= i < |kbd| && kbd[i].t == t) || (exists i :: 0 <= i < |mouse| && mouse[i].t == t)
  }

  /** The window starts with its earliest event and ends with its latest. */
  ghost predicate Spanned(kbd: seq<InputEvent>, mouse: seq<InputEvent>, start: int, end: int) {
    && AllWithin(kbd, start, end) && AllWithin(mouse, start, end)
    && Attained(kbd, mouse, start) && Attained(kbd, mouse, end)
  }

  ghost predicate Waits(s: Progress, now: int) {
    s.pending.Some? ==> Spanned(s.pending.value.kbd, s.pending.value.mouse, s.pending.value.tStart, now)
  }

  lemma RecordedSpans(s: Progress, e: InputEvent, now: int)
    requires Waits(s, now) && now <= e.t
    ensures var p := Recorded(s.pending, e); Spanned(p.kbd, p.mouse, p.tStart, e.t)
  {
    var p := Recorded(s.pending, e);
    if e.KeyEvent? {
      assert p.kbd[|p.kbd| - 1] == e;
    } else {
      assert p.mouse[|p.mouse| - 1] == e;
    }
    if s.pending.Some? {
      AttainedStays(s.pending.value, e);
    }
  }

  lemma AttainedStays(p: Pending, e: InputEvent)
    requires Attained(p.kbd, p.mouse, p.tStart)
    ensures Attained(p.kbd + [e], p.mouse, p.tStart) && Attained(p.kbd, p.mouse + [e], p.tStart)
  {
    if exists i :: 0 <= i < |p.kbd| && p.kbd[i].t == p.tStart {
      var i :| 0 <= i < |p.kbd| && p.kbd[i].t == p.tStart;
      assert (p.kbd + [e])[i] == p.kbd[i];
    } else {
      var i :| 0 <= i < |p.mouse| && p.mouse[i].t == p.tStart;
      assert (p.mouse + [e])[i] == p.mouse[i];
    }
  }

  ghost predicate AllSpanned(windows: seq<Window>) {
    forall i :: 0 <= i < |windows| ==> Spanned(windows[i].kbd, windows[i].mouse, windows[i].tStart, windows[i].tEnd)
  }

  lemma {:induction false} PushedAreSpanned(config: Config, events: seq<InputEvent>)
    requires NonDecreasing(events)
    ensures var (s, windows) := PushedAll(config, Fresh, events);
            && AllSpanned(windows)
            && (if events == [] then s.pending.None? else Waits(s, events[|events| - 1].t))
    decreases |events|
  {
    if events != [] {
      var before, e := events[..|events| - 1], events[|events| - 1];
      assert NonDecreasing(before) by {
        assert forall i :: 0 <= i < |before| ==> before[i] == events[i];
      }
      PushedAreSpanned(config, before);
      var s := PushedAll(config, Fresh, before).0;
      var now := if before == [] then e.t else events[|events| - 2].t;
      assert before != [] ==> before[|before| - 1] == events[|events| - 2];
      RecordedSpans(s, e, now);
      OneMoreSpans(PushedAll(config, Fresh, before).1, Pushed(config, s, e).1);
    }
  }

  lemma OneMoreSpans(windows: seq<Window>, more: seq<Window>)
    requires AllSpanned(windows) && AllSpanned(more)
    ensures AllSpanned(windows + more)
  {
  }

  lemma {:induction false} MaxTimeMeans(events: seq<InputEvent>)
    requires events != []
    ensures forall i :: 0 <= i < |events| ==> events[i].t <= MaxTime(events)
    ensures exists i :: 0 <= i < |events| && events[i].t == MaxTime(events)
  {
    if |events| > 1 {
      var before := events[..|events| - 1];
      MaxTimeMeans(before);
      var i :| 0 <= i < |before| && before[i].t == MaxTime(before);
      assert events[i] == before[i];
      assert forall j :: 0 <= j < |before| ==> before[j] == events[j];
    } else {
      assert events[0].t == MaxTime(events);
    }
  }

  // The latest of the pending events is where they end.
  lemma LatestIsTheEnd(kbd: seq<InputEvent>, mouse: seq<InputEvent>, start: int, end: int)
    requires Spanned(kbd, mouse, start, end) && kbd + mouse != []
    ensures MaxTime(kbd + mouse) == end
  {
    var all := kbd + mouse;
    MaxTimeMeans(all);
    var i :| 0 <= i < |all| && all[i].t == MaxTime(all);
    if exists j :: 0 <= j < |kbd| && kbd[j].t == end {
      var j :| 0 <= j < |kbd| && kbd[j].t == end;
      assert all[j] == kbd[j];
    } else {
      var j :| 0 <= j < |mouse| && mouse[j].t == end;
      assert all[|kbd| + j] == mouse[j];
    }
  }

  /** On a stream in time order every window, trailing or not, starts with the earliest event
      it holds and ends with the latest. */
  lemma EveryWindowIsSpanned(config: Config, events: seq<InputEvent>)
    requires NonDecreasing(events) && HasEvents(PushedAll(config, Fresh, events).0)
    ensures AllSpanned(AllWindows(config, events))
  {
    PushedAreSpanned(config, events);
    var (s, windows) := PushedAll(config, Fresh, events);
    if s.pending.Some? {
      var p := s.pending.value;
      LatestIsTheEnd(p.kbd, p.mouse, p.tStart, events[|events| - 1].t);
    }
    OneMoreSpans(windows, Flushed(config, s).1);
  }
}
