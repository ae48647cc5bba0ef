/** What the windows of a stream hold: every input once, in order, cut where a window is due. */
module WindowContents {
  import opened Wrappers
  import opened Windows

  function KeysOf(windows: seq<Window>): seq<InputEvent> {
    if windows == [] then [] else KeysOf(windows[..|windows| - 1]) + windows[|windows| - 1].kbd
  }

  function MouseOf(windows: seq<Window>): seq<InputEvent> {
    if windows == [] then [] else MouseOf(windows[..|windows| - 1]) + windows[|windows| - 1].mouse
  }

  function Keystrokes(kbd: seq<InputEvent>): nat {
    if kbd == [] then 0
    else
      var last := kbd[|kbd| - 1];
      Keystrokes(kbd[..|kbd| - 1]) + if last.KeyEvent? && last.isDown && !last.isRepeat then 1 else 0
  }

  function Waiting(s: Progress): Pending {
    if s.pending.Some? then s.pending.value else Pending(0, [], [], 0)
  }

  lemma KeysAppend(windows: seq<Window>, more: seq<Window>)
    requires |more| <= 1
    ensures KeysOf(windows + more) == KeysOf(windows) + KeysOf(more)
    ensures MouseOf(windows + more) == MouseOf(windows) + MouseOf(more)
  {
    if more == [] {
      assert windows + more == windows;
    } else {
      assert (windows + more)[..|windows|] == windows && more[..0] == [];
    }
  }

  /** No input is lost, duplicated or reordered: the keyboard events of the windows closed so
      far, then those waiting, are the keyboard events pushed, and so for the mouse. */
  lemma {:induction false} WindowsHoldTheStream(config: Config, events: seq<InputEvent>)
    ensures var (s, windows) := PushedAll(config, Fresh, events);
            && KeysOf(windows) + Waiting(s).kbd == OfKind(events, true)
            && MouseOf(windows) + Waiting(s).mouse == OfKind(events, false)
    decreases |events|
  {
    if events != [] {
      var e := events[|events| - 1];
      WindowsHoldTheStream(config, events[..|events| - 1]);
      var (s, windows) := PushedAll(config, Fresh, events[..|events| - 1]);
      var (s', more) := Pushed(config, s, e);
      KeysAppend(windows, more);
      OnePushHolds(config, s, e);
      HandOver(KeysOf(windows), Waiting(s).kbd, KeysOf(more), Waiting(s').kbd, if e.KeyEvent? then [e] else []);
      HandOver(MouseOf(windows), Waiting(s).mouse, MouseOf(more), Waiting(s').mouse, if e.KeyEvent? then [] else [e]);
    }
  }

  // What waits after a push and what the push closes is what waited before and the new event.
  lemma HandOver(closed: seq<InputEvent>, waiting: seq<InputEvent>, more: seq<InputEvent>, left: seq<InputEvent>,
                 pushed: seq<InputEvent>)
    requires more + left == waiting + pushed
    ensures (closed + more) + left == (closed + waiting) + pushed
  {
    assert (closed + more) + left == closed + (more + left);
    assert (closed + waiting) + pushed == closed + (waiting + pushed);
  }

  lemma OnePushHolds(config: Config, s: Progress, e: InputEvent)
    ensures var (s', more) := Pushed(config, s, e);
            && |more| <= 1
            && KeysOf(more) + Waiting(s').kbd == Waiting(s).kbd + (if e.KeyEvent? then [e] else [])
            && MouseOf(more) + Waiting(s').mouse == Waiting(s).mouse + (if e.KeyEvent? then [] else [e])
  {
    var more := Pushed(config, s, e).1;
    if more != [] {
      assert more[..0] == [];
    }
  }

  /** A window is closed exactly when due: every closed one has reached its keystrokes or its
      duration, with the counts its quality is judged by, and the waiting one has not. */
  lemma {:induction false} WindowsCloseWhenDue(config: Config, events: seq<InputEvent>)
    ensures var (s, windows) := PushedAll(config, Fresh, events);
            && s.index == |windows|
            && (forall i :: 0 <= i < |windows| ==>
                  && windows[i].index == i && windows[i].keyCount == Keystrokes(windows[i].kbd)
                  && windows[i].mouseCount == |windows[i].mouse|
                  && windows[i].quality == Quality(windows[i].keyCount, windows[i].mouseCount, config)
                  && (windows[i].keyCount >= config.windowKeystrokes || windows[i].tEnd - windows[i].tStart >= config.windowUs))
            && (s.pending.Some? ==>
                  && s.pending.value.keystrokes == Keystrokes(s.pending.value.kbd) < config.windowKeystrokes
                  && events != [] && events[|events| - 1].t - s.pending.value.tStart < config.windowUs)
    decreases |events|
  {
    if events != [] {
      WindowsCloseWhenDue(config, events[..|events| - 1]);
      var s := PushedAll(config, Fresh, events[..|events| - 1]).0;
      KeystrokesOfRecorded(s.pending, events[|events| - 1]);
    }
  }

  lemma KeystrokesOfRecorded(pending: Option<Pending>, e: InputEvent)
    requires pending.Some? ==> pending.value.keystrokes == Keystrokes(pending.value.kbd)
    ensures Recorded(pending, e).keystrokes == Keystrokes(Recorded(pending, e).kbd)
  {
    var before := if pending.Some? then pending.value.kbd else [];
    assert (before + [e])[..|before|] == before;
  }

  ghost predicate NonDecreasing(events: seq<InputEvent>) {
    forall i, j :: 0 <= i < j < |events| ==> events[i].t <= events[j].t
  }

  /** On a stream in time order the windows follow each other in time without overlap. */
  lemma {:induction false} WindowsFollowEachOther(config: Config, events: seq<InputEvent>)
    requires NonDecreasing(events)
    ensures var (s, windows) := PushedAll(config, Fresh, events);
            && (forall i :: 0 <= i < |windows| ==> windows[i].tStart <= windows[i].tEnd <= events[|events| - 1].t)
            && (forall i, j :: 0 <= i < j < |windows| ==> windows[i].tEnd <= windows[j].tStart)
            && (s.pending.Some? ==> s.pending.value.tStart <= events[|events| - 1].t
                                    && forall i :: 0 <= i < |windows| ==> windows[i].tEnd <= s.pending.value.tStart)
            && (events == [] ==> s.pending.None? && windows == [])
    decreases |events|
  {
    if events != [] {
      var before := events[..|events| - 1];
      assert NonDecreasing(before) by {
        assert forall i :: 0 <= i < |before| ==> before[i] == events[i];
      }
      WindowsFollowEachOther(config, before);
      if before != [] {
        assert before[|before| - 1] == events[|events| - 2];
      }
    }
  }

  // Whatever waits has come no earlier than its window began.
  lemma {:induction false} WaitingIsProper(config: Config, events: seq<InputEvent>)
    requires NonDecreasing(events)
    ensures var s := PushedAll(config, Fresh, events).0;
            HasEvents(s)
            && (s.pending.Some? ==>
                  && NoneBefore(s.pending.value.kbd, s.pending.value.tStart)
                  && NoneBefore(s.pending.value.mouse, s.pending.value.tStart))
    decreases |events|
  {
    if events != [] {
      var before := events[..|events| - 1];
      assert NonDecreasing(before) by {
        assert forall i :: 0 <= i < |before| ==> before[i] == events[i];
      }
      WaitingIsProper(config, before);
      WindowsFollowEachOther(config, before);
      var s := PushedAll(config, Fresh, before).0;
      if s.pending.Some? {
        assert before[|before| - 1] == events[|events| - 2];
      }
    }
  }

  ghost predicate NoneBefore(events: seq<InputEvent>, start: int) {
    forall i :: 0 <= i < |events| ==> start <= events[i].t
  }

  lemma {:induction false} MaxTimeIsReached(events: seq<InputEvent>, low: int)
    requires events != [] && NoneBefore(events, low)
    ensures low <= MaxTime(events)
  {
    if |events| > 1 {
      MaxTimeIsReached(events[..|events| - 1], low);
    }
  }

  /** The trailing window too ends no earlier than it starts. */
  lemma FlushIsProper(config: Config, events: seq<InputEvent>)
    requires NonDecreasing(events)
    ensures var s := PushedAll(config, Fresh, events).0;
            HasEvents(s) && forall i :: 0 <= i < |Flushed(config, s).1| ==>
              Flushed(config, s).1[i].tStart <= Flushed(config, s).1[i].tEnd
  {
    WaitingIsProper(config, events);
    var s := PushedAll(config, Fresh, events).0;
    if s.pending.Some? {
      MaxTimeIsReached(s.pending.value.kbd + s.pending.value.mouse, s.pending.value.tStart);
    }
  }
}
