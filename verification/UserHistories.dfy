/** Where a user stands, as the history of reports, outages and suspensions tells it. */
module UserHistories {
  import opened Wrappers
  import opened RiskTypes
  import opened UserStates

  /** Suspended, and not re-enrolled since. */
  predicate IsSuspended(events: seq<MachineEvent>) {
    events != [] &&
    match events[|events| - 1]
    case Suspend => true
    case Restart => false
    case _ => IsSuspended(events[..|events| - 1])
  }

  /** Failed while not suspended, and neither recovered nor suspended since. */
  predicate IsOut(events: seq<MachineEvent>) {
    events != [] &&
    match events[|events| - 1]
    case Degrade => !IsSuspended(events[..|events| - 1])
    case Recover => false
    case Suspend => false
    case _ => IsOut(events[..|events| - 1])
  }

  predicate IsUp(events: seq<MachineEvent>) {
    !IsSuspended(events) && !IsOut(events)
  }

  // A sufficient enrollment report that was heard, with no suspension since.
  ghost predicate EnrolledAt(config: EnrollmentConfig, events: seq<MachineEvent>, i: nat) {
    Enrolls(config, events, i) && IsUp(events[..i])
  }

  ghost predicate CalibratedAt(config: EnrollmentConfig, events: seq<MachineEvent>, j: nat) {
    Calibrates(config, events, j) && IsUp(events[..j])
  }

  ghost predicate HasEnrolled(config: EnrollmentConfig, events: seq<MachineEvent>) {
    exists i: nat :: EnrolledAt(config, events, i)
  }

  ghost predicate HasCalibrated(config: EnrollmentConfig, events: seq<MachineEvent>) {
    exists i: nat, j: nat :: i < j && EnrolledAt(config, events, i) && CalibratedAt(config, events, j)
  }

  // ---------------------------------------------------------------------
  // One event more
  // ---------------------------------------------------------------------

  predicate Enough(config: EnrollmentConfig, event: MachineEvent) {
    event.Progress? && event.windows >= config.minWindows && event.days >= config.minDistinctDays
  }

  lemma EarlierEnrollment(config: EnrollmentConfig, before: seq<MachineEvent>, last: MachineEvent, i: nat)
    requires i < |before|
    ensures EnrolledAt(config, before + [last], i) <==> EnrolledAt(config, before, i) && !last.Suspend?
  {
    var events := before + [last];
    assert events[..i] == before[..i] && events[|before|] == last;
    assert forall k :: 0 <= k < |before| ==> events[k] == before[k];
  }

  lemma LatestEnrollment(config: EnrollmentConfig, before: seq<MachineEvent>, last: MachineEvent)
    ensures EnrolledAt(config, before + [last], |before|) <==> Enough(config, last) && IsUp(before)
  {
    assert (before + [last])[..|before|] == before;
  }

  lemma EnrollmentGoesOn(config: EnrollmentConfig, before: seq<MachineEvent>, last: MachineEvent)
    ensures HasEnrolled(config, before + [last]) <==>
              (HasEnrolled(config, before) && !last.Suspend?) || (Enough(config, last) && IsUp(before))
  {
    var events := before + [last];
    LatestEnrollment(config, before, last);
    if HasEnrolled(config, events) {
      var i: nat :| EnrolledAt(config, events, i);
      if i < |before| {
        EarlierEnrollment(config, before, last, i);
      }
    }
    if HasEnrolled(config, before) && !last.Suspend? {
      var i: nat :| EnrolledAt(config, before, i);
      EarlierEnrollment(config, before, last, i);
    }
    if Enough(config, last) && IsUp(before) {
      assert EnrolledAt(config, events, |before|);
    }
  }

  lemma SameCalibration(config: EnrollmentConfig, before: seq<MachineEvent>, last: MachineEvent, j: nat)
    ensures j < |before| ==> (CalibratedAt(config, before + [last], j) <==> CalibratedAt(config, before, j))
    ensures CalibratedAt(config, before + [last], |before|) <==>
              last.Progress? && last.calibration >= config.calibrationWindows && IsUp(before)
  {
    assert (before + [last])[..|before|] == before;
    if j < |before| {
      assert (before + [last])[..j] == before[..j];
    }
  }

  lemma CalibrationGoesOn(config: EnrollmentConfig, before: seq<MachineEvent>, last: MachineEvent)
    ensures HasCalibrated(config, before + [last]) <==>
              || (HasCalibrated(config, before) && !last.Suspend?)
              || (last.Progress? && last.calibration >= config.calibrationWindows && IsUp(before) && HasEnrolled(config, before))
  {
    var events := before + [last];
    if HasCalibrated(config, events) {
      var i: nat, j: nat :| i < j && EnrolledAt(config, events, i) && CalibratedAt(config, events, j);
      EarlierEnrollment(config, before, last, i);
      SameCalibration(config, before, last, j);
    }
    if HasCalibrated(config, before) && !last.Suspend? {
      var i: nat, j: nat :| i < j && EnrolledAt(config, before, i) && CalibratedAt(config, before, j);
      EarlierEnrollment(config, before, last, i);
      SameCalibration(config, before, last, j);
    }
    if last.Progress? && last.calibration >= config.calibrationWindows && IsUp(before) && HasEnrolled(config, before) {
      var i: nat :| EnrolledAt(config, before, i);
      EarlierEnrollment(config, before, last, i);
      SameCalibration(config, before, last, 0);
      assert CalibratedAt(config, events, |before|);
    }
  }

  // ---------------------------------------------------------------------
  // The state is the history
  // ---------------------------------------------------------------------

  ghost predicate Stands(config: EnrollmentConfig, events: seq<MachineEvent>, m: Machine) {
    && m.Valid() && (m.state == Degraded ==> m.preDegraded.Some?)
    && (m.state == Suspended <==> IsSuspended(events))
    && (m.state == Degraded <==> IsOut(events))
    && (Standing(m) in {Calibrating, Active} <==> HasEnrolled(config, events))
    && (Standing(m) == Active <==> HasCalibrated(config, events))
  }

  lemma StepStands(config: EnrollmentConfig, before: seq<MachineEvent>, m: Machine, last: MachineEvent)
    requires Stands(config, before, m)
    ensures Stands(config, before + [last], MachineStep(config, m, last))
  {
    assert (before + [last])[..|before|] == before;
    EnrollmentGoesOn(config, before, last);
    CalibrationGoesOn(config, before, last);
  }

  /** Main result: over any run of a new user the state is read off the history. The user is
      SUSPENDED exactly when suspended and not re-enrolled since, DEGRADED exactly when an
      outage began outside a suspension and has not ended, stands CALIBRATING or ACTIVE
      exactly on a sufficient enrollment report heard outside outages with no suspension
      since, and ACTIVE exactly on a later sufficient calibration report heard so. */
  lemma {:induction false} StateIsItsHistory(config: EnrollmentConfig, events: seq<MachineEvent>)
    ensures Stands(config, events, MachineRun(config, Machine(Enrolling, None), events))
    decreases |events|
  {
    if events != [] {
      var before, last := events[..|events| - 1], events[|events| - 1];
      StateIsItsHistory(config, before);
      StepStands(config, before, MachineRun(config, Machine(Enrolling, None), before), last);
      assert events == before + [last];
    }
  }
}
