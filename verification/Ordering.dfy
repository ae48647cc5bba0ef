/** Bounded sequence continuity: gaps, duplicates and late events. */
module Ordering {
  import opened Wrappers
  import opened Deques

  datatype Status = Accepted | GapAccepted | Duplicate | OutOfOrder

  datatype OrderingResult = OrderingResult(status: Status, missing: nat)
  {
    predicate IsAccepted() {
      status in {Accepted, GapAccepted}
    }
  }

  datatype TrackerState = TrackerState(
    recent: seq<nat>,
    recentSet: set<nat>,
    expected: Option<nat>,
    lastCapture: Option<nat>)

  const Fresh := TrackerState([], {}, None, None)

  function Elements(xs: seq<nat>): set<nat> {
    set x | x in xs
  }

  function Remembered(capacity: nat, s: TrackerState, sequence: nat): TrackerState {
    var recent := LastN(s.recent + [sequence], capacity);
    s.(recent := recent, recentSet := Elements(recent))
  }

  function Observed(capacity: nat, s: TrackerState, sequence: nat, t: Option<nat>): (TrackerState, OrderingResult) {
    if s.expected.None? then
      (Remembered(capacity, s, sequence).(expected := Some(sequence + 1), lastCapture := t), OrderingResult(Accepted, 0))
    else if sequence < s.expected.value then
      (s, OrderingResult(if sequence in s.recentSet then Duplicate else OutOfOrder, 0))
    else
      var missing := sequence - s.expected.value;
      var s' := Remembered(capacity, s, sequence).(expected := Some(sequence + 1));
      if t.Some? && s.lastCapture.Some? && t.value < s.lastCapture.value then
        (s', OrderingResult(OutOfOrder, missing))
      else
        (s'.(lastCapture := t), OrderingResult(if missing > 0 then GapAccepted else Accepted, missing))
  }

  class SequenceTracker {
    const historyCapacity: nat
    var recent: seq<nat>
    var recentSet: set<nat>
    var expected: Option<nat>
    var lastCaptureUs: Option<nat>

    function View(): TrackerState
      reads this
    {
      TrackerState(recent, recentSet, expected, lastCaptureUs)
    }

    // The set always holds exactly the deque's elements, each of them once.
    ghost predicate Valid()
      reads this
    {
      && 0 < historyCapacity && |recent| <= historyCapacity
      && recentSet == Elements(recent) && Increasing(recent)
      && (forall i :: 0 <= i < |recent| ==> expected.Some? && recent[i] < expected.value)
    }

    constructor (historyCapacity: nat)
      requires 0 < historyCapacity
      ensures Valid() && View() == Fresh && this.historyCapacity == historyCapacity
    {
      this.historyCapacity := historyCapacity;
      recent, recentSet, expected, lastCaptureUs := [], {}, None, None;
    }

    method Remember(sequence: nat)
      requires Valid() && (expected.Some? ==> sequence >= expected.value)
      modifies this`recent, this`recentSet
      ensures View() == Remembered(historyCapacity, old(View()), sequence)
      ensures |recent| <= historyCapacity && recentSet == Elements(recent) && Increasing(recent)
      ensures forall i :: 0 <= i < |recent| ==> recent[i] <= sequence
    {
      ghost var kept := if |recent| == historyCapacity then recent[1..] else recent;
      RoomInDeque(historyCapacity, recent, kept, sequence);
      RoomInSet(historyCapacity, recent, kept, sequence);
      if |recent| == historyCapacity {
        var removed := recent[0];
        assert removed in recentSet;  // so the removal cannot fail
        recent := recent[1..];
        recentSet := recentSet - {removed};
      }
      recent := recent + [sequence];
      recentSet := recentSet + {sequence};
    }

    method Observe(sequence: nat, t: Option<nat>) returns (result: OrderingResult)
      requires Valid()
      modifies this
      ensures Valid()
      ensures (View(), result) == Observed(historyCapacity, old(View()), sequence, t)
    {
      if expected.None? {
        Remember(sequence);
        expected := Some(sequence + 1);
        lastCaptureUs := t;
        return OrderingResult(Accepted, 0);
      }
      if sequence < expected.value {
        if sequence in recentSet {
          return OrderingResult(Duplicate, 0);
        }
        return OrderingResult(OutOfOrder, 0);
      }
      var missing := sequence - expected.value;
      Remember(sequence);
      expected := Some(sequence + 1);
      if t.Some? && lastCaptureUs.Some? && t.value < lastCaptureUs.value {
        return OrderingResult(OutOfOrder, missing);
      }
      lastCaptureUs := t;
      if missing > 0 {
        return OrderingResult(GapAccepted, missing);
      }
      return OrderingResult(Accepted, missing);
    }

    method Reset()
      requires 0 < historyCapacity
      modifies this
      ensures Valid() && View() == Fresh
    {
      recent, recentSet, expected, lastCaptureUs := [], {}, None, None;
    }
  }

  // The deque after making room, with the new number at its end.
  lemma RoomInDeque(capacity: nat, recent: seq<nat>, kept: seq<nat>, sequence: nat)
    requires 0 < capacity && |recent| <= capacity && Increasing(recent)
    requires forall i :: 0 <= i < |recent| ==> recent[i] < sequence
    requires kept == if |recent| == capacity then recent[1..] else recent
    ensures kept + [sequence] == LastN(recent + [sequence], capacity) && |kept| < capacity
    ensures Increasing(kept + [sequence]) && forall i :: 0 <= i < |kept| + 1 ==> (kept + [sequence])[i] <= sequence
  {
    if |recent| == capacity {
      assert (recent + [sequence])[1..] == kept + [sequence];
      assert forall i :: 0 <= i < |kept| ==> kept[i] == recent[i + 1];
    }
    AppendIncreases(kept, sequence);
  }

  // And the set.
  lemma RoomInSet(capacity: nat, recent: seq<nat>, kept: seq<nat>, sequence: nat)
    requires 0 < capacity && |recent| <= capacity && Increasing(recent)
    requires kept == if |recent| == capacity then recent[1..] else recent
    ensures (if |recent| == capacity then Elements(recent) - {recent[0]} else Elements(recent)) + {sequence}
            == Elements(kept + [sequence])
  {
    if |recent| == capacity {
      RemoveFirst(recent);
    }
    AddLast(kept, sequence);
  }

  lemma RemoveFirst(xs: seq<nat>)
    requires xs != [] && Increasing(xs)
    ensures Elements(xs) - {xs[0]} == Elements(xs[1..])
  {
    assert xs == [xs[0]] + xs[1..];
  }

  lemma AppendIncreases(xs: seq<nat>, x: nat)
    requires Increasing(xs) && forall i :: 0 <= i < |xs| ==> xs[i] < x
    ensures Increasing(xs + [x]) && forall i :: 0 <= i < |xs| + 1 ==> (xs + [x])[i] <= x
  {
  }

  lemma AddLast(xs: seq<nat>, x: nat)
    ensures Elements(xs) + {x} == Elements(xs + [x])
  {
  }

  // ---------------------------------------------------------------------
  // Whole runs
  // ---------------------------------------------------------------------

  datatype Observation = Observation(sequence: nat, t: Option<nat>)

  function Run(capacity: nat, observations: seq<Observation>): (TrackerState, seq<OrderingResult>) {
    if observations == [] then (Fresh, [])
    else
      var (s, results) := Run(capacity, observations[..|observations| - 1]);
      var last := observations[|observations| - 1];
      var (s', result) := Observed(capacity, s, last.sequence, last.t);
      (s', results + [result])
  }

  /** The admitted numbers, told without the tracker: those above every earlier number. */
  function Records(observations: seq<Observation>): seq<nat> {
    if observations == [] then []
    else Recorded(Records(observations[..|observations| - 1]), observations[|observations| - 1].sequence)
  }

  function Recorded(records: seq<nat>, sequence: nat): seq<nat> {
    if records == [] || sequence > records[|records| - 1] then records + [sequence] else records
  }

  function TotalMissing(results: seq<OrderingResult>): nat {
    if results == [] then 0 else TotalMissing(results[..|results| - 1]) + results[|results| - 1].missing
  }

  function AcceptedOf(observations: seq<Observation>, results: seq<OrderingResult>): seq<Observation>
    requires |observations| == |results|
  {
    if observations == [] then []
    else
      var last := |observations| - 1;
      AcceptedOf(observations[..last], results[..last])
      + if results[last].IsAccepted() then [observations[last]] else []
  }

  ghost predicate Increasing(xs: seq<nat>) {
    forall i, j :: 0 <= i < j < |xs| ==> xs[i] < xs[j]
  }

  // The first record is the first observation; no earlier number exceeds the last record.
  lemma {:induction false} RecordsFacts(observations: seq<Observation>)
    ensures var records := Records(observations);
            && Increasing(records) && (records == [] <==> observations == [])
            && (observations != [] ==> records[0] == observations[0].sequence)
            && forall i :: 0 <= i < |observations| ==> observations[i].sequence <= records[|records| - 1]
  {
    if observations != [] {
      var before, last := observations[..|observations| - 1], observations[|observations| - 1];
      RecordsFacts(before);
      RecordedFacts(Records(before), last.sequence);
      forall i | 0 <= i < |observations| ensures observations[i].sequence <= Records(observations)[|Records(observations)| - 1] {
        assert i < |before| ==> before[i] == observations[i];
      }
    }
  }

  lemma RecordedFacts(records: seq<nat>, sequence: nat)
    requires Increasing(records)
    ensures var recorded := Recorded(records, sequence);
            && Increasing(recorded) && recorded != [] && sequence <= recorded[|recorded| - 1]
            && recorded[0] == (if records == [] then sequence else records[0])
            && (records != [] ==> records[|records| - 1] <= recorded[|recorded| - 1])
  {
  }

  // The tracker's memory is a function of the records.
  ghost predicate Tracks(capacity: nat, s: TrackerState, records: seq<nat>) {
    && s.recent == LastN(records, capacity) && s.recentSet == Elements(s.recent)
    && s.expected == if records == [] then None else Some(records[|records| - 1] + 1)
  }

  lemma ObserveTracks(capacity: nat, s: TrackerState, records: seq<nat>, sequence: nat, t: Option<nat>)
    requires 0 < capacity && Tracks(capacity, s, records) && Increasing(records)
    ensures var (s', result) := Observed(capacity, s, sequence, t);
            && Tracks(capacity, s', Recorded(records, sequence))
            && (result.status == Duplicate <==> sequence in LastN(records, capacity))
            && (Recorded(records, sequence) == records ==> result.missing == 0 && !result.IsAccepted())
            && (Recorded(records, sequence) != records ==>
                  result.missing == if records == [] then 0 else sequence - records[|records| - 1] - 1)
  {
    ElementsMean(s.recent, sequence);
    if s.expected.None? || sequence >= s.expected.value {
      assert Recorded(records, sequence) == records + [sequence];
      LastNAppend(records, sequence, capacity);
      TailIsBelow(records, capacity, sequence);
    }
  }

  lemma ElementsMean(recent: seq<nat>, sequence: nat)
    ensures sequence in Elements(recent) <==> sequence in recent
  {
  }

  lemma TailIsBelow(records: seq<nat>, capacity: nat, sequence: nat)
    requires Increasing(records) && (records != [] ==> sequence > records[|records| - 1])
    ensures sequence !in LastN(records, capacity)
  {
    var tail := LastN(records, capacity);
    forall i | 0 <= i < |tail| ensures tail[i] < sequence {
      assert tail[i] == records[|records| - |tail| + i];
    }
  }

  /** The tracker's memory after any run: the next expected number follows the last record,
      the deque is the last `capacity` records in increasing order, the set is the deque,
      and numbers skipped plus numbers admitted account for the whole range. */
  lemma {:induction false} TrackerRemembersRecords(capacity: nat, observations: seq<Observation>)
    requires 0 < capacity
    ensures var (s, results) := Run(capacity, observations);
            var records := Records(observations);
            && |results| == |observations|
            && Tracks(capacity, s, records) && Increasing(s.recent)
            && (observations != [] ==>
                  s.expected.Some? && s.expected.value - observations[0].sequence == |records| + TotalMissing(results))
    decreases |observations|
  {
    RecordsFacts(observations);
    if observations != [] {
      var before := observations[..|observations| - 1];
      var last := observations[|observations| - 1];
      TrackerRemembersRecords(capacity, before);
      RecordsFacts(before);
      var (s, results) := Run(capacity, before);
      OneMoreIsTracked(capacity, s, results, Records(before), observations[0].sequence, last);
      assert Records(observations) == Recorded(Records(before), last.sequence);
    }
  }

  // The tracker and its results against the records from `first` on.
  ghost predicate Accounts(capacity: nat, s: TrackerState, results: seq<OrderingResult>, records: seq<nat>, first: nat) {
    && Tracks(capacity, s, records) && Increasing(s.recent)
    && (if records == [] then TotalMissing(results) == 0
        else s.expected.Some? && s.expected.value - first == |records| + TotalMissing(results))
  }

  lemma OneMoreIsTracked(capacity: nat, s: TrackerState, results: seq<OrderingResult>, records: seq<nat>, first: nat,
                         next: Observation)
    requires 0 < capacity && Increasing(records) && Accounts(capacity, s, results, records, first)
    requires if records == [] then first == next.sequence else first == records[0]
    ensures var (s', result) := Observed(capacity, s, next.sequence, next.t);
            Accounts(capacity, s', results + [result], Recorded(records, next.sequence), first)
  {
    ObserveTracks(capacity, s, records, next.sequence, next.t);
    MissingAppend(results, Observed(capacity, s, next.sequence, next.t).1);
    RecordedFacts(records, next.sequence);
    TailIsIncreasing(Recorded(records, next.sequence), capacity);
    RangeAccounted(records, TotalMissing(results), first, next.sequence);
  }

  lemma TailIsIncreasing(records: seq<nat>, capacity: nat)
    requires Increasing(records)
    ensures Increasing(LastN(records, capacity))
  {
  }

  // One more number keeps first..last = admitted + missing.
  lemma RangeAccounted(records: seq<nat>, missing: nat, first: nat, sequence: nat)
    requires Increasing(records) && (records == [] ==> missing == 0 && first == sequence)
    requires records != [] ==> records[|records| - 1] + 1 - first == |records| + missing
    ensures var recorded := Recorded(records, sequence);
            var skipped := if recorded == records || records == [] then 0 else sequence - records[|records| - 1] - 1;
            recorded[|recorded| - 1] + 1 - first == |recorded| + missing + skipped
  {
  }

  lemma RunAppend(capacity: nat, before: seq<Observation>, next: Observation)
    ensures var (s, results) := Run(capacity, before);
            var (s', result) := Observed(capacity, s, next.sequence, next.t);
            Run(capacity, before + [next]) == (s', results + [result])
  {
    assert (before + [next])[..|before|] == before;
  }

  lemma MissingAppend(results: seq<OrderingResult>, result: OrderingResult)
    ensures TotalMissing(results + [result]) == TotalMissing(results) + result.missing
  {
    assert (results + [result])[..|results|] == results;
  }

  /** What each status means, in terms of the earlier observations alone: DUPLICATE is
      reported exactly for a number among the last `capacity` admitted ones, a number is
      admitted exactly when it exceeds all earlier ones, and `missing` counts the gap. */
  lemma {:induction false} StatusMeans(capacity: nat, before: seq<Observation>, next: Observation)
    requires 0 < capacity
    ensures var result := Observed(capacity, Run(capacity, before).0, next.sequence, next.t).1;
            var records := Records(before);
            && Records(before + [next]) == Recorded(records, next.sequence)
            && (Recorded(records, next.sequence) != records <==>
                  forall i :: 0 <= i < |before| ==> before[i].sequence < next.sequence)
            && (result.status == Duplicate <==> next.sequence in LastN(records, capacity))
            && (result.IsAccepted() ==> Recorded(records, next.sequence) != records)
            && (Recorded(records, next.sequence) != records && before != [] ==>
                  result.missing == next.sequence - records[|records| - 1] - 1)
  {
    TrackerRemembersRecords(capacity, before);
    RecordsFacts(before);
    ObserveTracks(capacity, Run(capacity, before).0, Records(before), next.sequence, next.t);
    assert (before + [next])[..|before|] == before;
    if before != [] {
      RecordIsObserved(before);
    }
  }

  lemma {:induction false} RecordIsObserved(observations: seq<Observation>)
    requires observations != []
    ensures var records := Records(observations);
            records != [] && exists i :: 0 <= i < |observations| && observations[i].sequence == records[|records| - 1]
  {
    RecordsFacts(observations);
    var last := |observations| - 1;
    var before := observations[..last];
    RecordsFacts(before);
    if Records(before) != [] && observations[last].sequence <= Records(before)[|Records(before)| - 1] {
      RecordIsObserved(before);
      var i :| 0 <= i < |before| && before[i].sequence == Records(before)[|Records(before)| - 1];
      assert observations[i].sequence == Records(observations)[|Records(observations)| - 1];
    } else {
      assert observations[last].sequence == Records(observations)[|Records(observations)| - 1];
    }
  }

  // Two accepted neighbours that both carry a capture time carry them in order.
  ghost predicate TimesInOrder(accepted: seq<Observation>) {
    forall i :: 0 <= i < |accepted| - 1 && accepted[i].t.Some? && accepted[i + 1].t.Some? ==>
      accepted[i].t.value <= accepted[i + 1].t.value
  }

  ghost predicate SequencesIncrease(accepted: seq<Observation>) {
    forall i, j :: 0 <= i < j < |accepted| ==> accepted[i].sequence < accepted[j].sequence
  }

  /** Accepted sequence numbers strictly increase over every run, and the capture times of
      neighbouring accepted events never fall when both are present. */
  lemma {:induction false} AcceptedIsOrdered(capacity: nat, observations: seq<Observation>)
    requires 0 < capacity
    ensures var (s, results) := Run(capacity, observations);
            && |results| == |observations|
            && var accepted := AcceptedOf(observations, results);
            && SequencesIncrease(accepted) && TimesInOrder(accepted)
            && Ordered(s, accepted) && (observations != [] <==> accepted != [])
    decreases |observations|
  {
    if observations != [] {
      var last := |observations| - 1;
      AcceptedIsOrdered(capacity, observations[..last]);
      var (s, results) := Run(capacity, observations[..last]);
      var result := Observed(capacity, s, observations[last].sequence, observations[last].t).1;
      assert (results + [result])[..last] == results;
      FreshAccepts(capacity, observations[..last]);
      OneMoreIsOrdered(capacity, s, AcceptedOf(observations[..last], results), observations[last]);
    }
  }

  // Before any observation the tracker is fresh, afterwards it expects a number.
  lemma {:induction false} FreshAccepts(capacity: nat, observations: seq<Observation>)
    requires 0 < capacity
    ensures Run(capacity, observations).0.expected.None? <==> observations == []
    decreases |observations|
  {
    if observations != [] {
      FreshAccepts(capacity, observations[..|observations| - 1]);
    }
  }

  // The accepted observations so far, told by what the tracker remembers of the last.
  ghost predicate Ordered(s: TrackerState, accepted: seq<Observation>) {
    && SequencesIncrease(accepted) && TimesInOrder(accepted)
    && (accepted != [] ==>
          s.lastCapture == accepted[|accepted| - 1].t && s.expected.Some?
          && accepted[|accepted| - 1].sequence < s.expected.value)
  }

  lemma OneMoreIsOrdered(capacity: nat, s: TrackerState, accepted: seq<Observation>, next: Observation)
    requires Ordered(s, accepted) && (s.expected.Some? <==> accepted != [])
    ensures var (s', result) := Observed(capacity, s, next.sequence, next.t);
            var accepted' := accepted + if result.IsAccepted() then [next] else [];
            Ordered(s', accepted') && accepted' != []
  {
    var (s', result) := Observed(capacity, s, next.sequence, next.t);
    if result.IsAccepted() {
      AppendKeepsOrder(accepted, next);
    } else {
      assert accepted + [] == accepted;
    }
  }

  lemma AppendKeepsOrder(accepted: seq<Observation>, next: Observation)
    requires SequencesIncrease(accepted) && TimesInOrder(accepted)
    requires accepted != [] ==> accepted[|accepted| - 1].sequence < next.sequence
    requires accepted != [] && accepted[|accepted| - 1].t.Some? && next.t.Some? ==>
               accepted[|accepted| - 1].t.value <= next.t.value
    ensures SequencesIncrease(accepted + [next]) && TimesInOrder(accepted + [next])
  {
  }

  // No accepted event before this time is known to be later than it.
  ghost predicate Punctual(accepted: seq<Observation>, t: Option<nat>) {
    accepted != [] && accepted[|accepted| - 1].t.Some? && t.Some? ==> accepted[|accepted| - 1].t.value <= t.value
  }

  // What the tracker lets through, by the number it expects and the event accepted last.
  lemma AcceptedByTime(capacity: nat, s: TrackerState, accepted: seq<Observation>, next: Observation)
    requires s.expected.None? <==> accepted == []
    requires accepted != [] ==> s.lastCapture == accepted[|accepted| - 1].t
    ensures var result := Observed(capacity, s, next.sequence, next.t).1;
            && (result.IsAccepted() <==>
                  (s.expected.Some? ==> s.expected.value <= next.sequence) && Punctual(accepted, next.t))
            && (result.status == GapAccepted <==> result.IsAccepted() && result.missing > 0)
  {
  }

  // The number expected is the first above all earlier ones.
  lemma ExpectedIsAbove(capacity: nat, before: seq<Observation>, sequence: nat)
    requires 0 < capacity
    ensures var expected := Run(capacity, before).0.expected;
            (expected.Some? ==> expected.value <= sequence)
            <==> forall i :: 0 <= i < |before| ==> before[i].sequence < sequence
  {
    TrackerRemembersRecords(capacity, before);
    RecordsFacts(before);
    if before != [] {
      RecordIsObserved(before);
    }
  }

  /** An event is accepted exactly if its number exceeds all earlier ones and its time does not
      fall behind that of the event accepted last, where both are present. */
  lemma AcceptanceIsExact(capacity: nat, before: seq<Observation>, next: Observation)
    requires 0 < capacity
    ensures var (s, results) := Run(capacity, before);
            var result := Observed(capacity, s, next.sequence, next.t).1;
            && |results| == |before|
            && (result.IsAccepted() <==>
                  (forall i :: 0 <= i < |before| ==> before[i].sequence < next.sequence)
                  && Punctual(AcceptedOf(before, results), next.t))
            && (result.status == GapAccepted <==> result.IsAccepted() && result.missing > 0)
  {
    AcceptedIsOrdered(capacity, before);
    FreshAccepts(capacity, before);
    ExpectedIsAbove(capacity, before, next.sequence);
    var (s, results) := Run(capacity, before);
    AcceptedByTime(capacity, s, AcceptedOf(before, results), next);
  }

  /** When every observation carries a capture time, accepted times never decrease at all. */
  lemma TimedRunsAreMonotone(capacity: nat, observations: seq<Observation>, i: nat, j: nat)
    requires 0 < capacity && forall k :: 0 <= k < |observations| ==> observations[k].t.Some?
    requires |Run(capacity, observations).1| == |observations|
    requires i <= j < |AcceptedOf(observations, Run(capacity, observations).1)|
    ensures var accepted := AcceptedOf(observations, Run(capacity, observations).1);
            accepted[i].t.Some? && accepted[j].t.Some? && accepted[i].t.value <= accepted[j].t.value
    decreases j - i
  {
    AcceptedIsOrdered(capacity, observations);
    AcceptedIsTimed(observations, Run(capacity, observations).1);
    if i < j {
      TimedRunsAreMonotone(capacity, observations, i, j - 1);
      var accepted := AcceptedOf(observations, Run(capacity, observations).1);
      assert accepted[j - 1].t.value <= accepted[j - 1 + 1].t.value;
    }
  }

  lemma {:induction false} AcceptedIsTimed(observations: seq<Observation>, results: seq<OrderingResult>)
    requires |observations| == |results| && forall k :: 0 <= k < |observations| ==> observations[k].t.Some?
    ensures forall k :: 0 <= k < |AcceptedOf(observations, results)| ==> AcceptedOf(observations, results)[k].t.Some?
  {
    if observations != [] {
      AcceptedIsTimed(observations[..|observations| - 1], results[..|results| - 1]);
    }
  }

  // The latest capture time that the accepted events carry.
  function LastTimed(accepted: seq<Observation>): Option<nat> {
    if accepted == [] then None
    else if accepted[|accepted| - 1].t.Some? then accepted[|accepted| - 1].t
    else LastTimed(accepted[..|accepted| - 1])
  }

  /** An event without capture time erases the memory of the last one. A new event whose time
      falls behind that of an earlier accepted one is let through exactly when the event
      accepted just before it carried no time. */
  lemma FallsSlipThrough(capacity: nat, before: seq<Observation>, next: Observation)
    requires 0 < capacity && |Run(capacity, before).1| == |before|
    requires forall i :: 0 <= i < |before| ==> before[i].sequence < next.sequence
    requires var timed := LastTimed(AcceptedOf(before, Run(capacity, before).1));
             timed.Some? && next.t.Some? && next.t.value < timed.value
    ensures var (s, results) := Run(capacity, before);
            var accepted := AcceptedOf(before, results);
            Observed(capacity, s, next.sequence, next.t).1.IsAccepted() <==> accepted[|accepted| - 1].t.None?
  {
    AcceptedIsOrdered(capacity, before);
    TrackerRemembersRecords(capacity, before);
    RecordIsObserved(before);
  }

  /** So the condition is met in runs: accepted times that fall, across an untimed event. */
  lemma MissingTimestampForgets(capacity: nat)
    requires 0 < capacity
    ensures var observations := [Observation(1, Some(10)), Observation(2, None), Observation(3, Some(5))];
            && |Run(capacity, observations).1| == |observations|
            && AcceptedOf(observations, Run(capacity, observations).1) == observations
  {
    var a, b, c := Observation(1, Some(10)), Observation(2, None), Observation(3, Some(5));
    var observations := [a, b, c];
    assert observations == [a, b] + [c] && [a, b] == [a] + [b] && [a] == [] + [a];
    assert observations[..2] == [a, b] && [a, b][..1] == [a] && [a][..0] == [];
    var ok := OrderingResult(Accepted, 0);
    var (s1, one) := Observed(capacity, Fresh, 1, a.t);
    var (s2, two) := Observed(capacity, s1, 2, b.t);
    assert s1.expected == Some(2) && s2.expected == Some(3) && s2.lastCapture == None && one == two == ok;
    assert Observed(capacity, s2, 3, c.t).1 == ok;
    RunAppend(capacity, [], a);
    RunAppend(capacity, [a], b);
    RunAppend(capacity, [a, b], c);
    assert [ok, ok, ok][..2] == [ok, ok] && [ok, ok][..1] == [ok] && [ok][..0] == [];
    assert AcceptedOf([a], [ok]) == [a] by { assert [] + [a] == [a]; }
    assert AcceptedOf([a, b], [ok, ok]) == [a, b];
    assert Run(capacity, observations).1 == [ok, ok, ok];
    assert AcceptedOf(observations, [ok, ok, ok]) == [a, b] + [c];
  }
}
