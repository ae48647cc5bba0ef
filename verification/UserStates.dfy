/** The per-user enrollment / calibration / active / degraded / suspended machine. */
module UserStates {
  import opened Wrappers
  import opened RiskTypes

  datatype StateTransition = StateTransition(previous: UserState, current: UserState, reason: string)

  /** The machine's state as a value. */
  datatype Machine = Machine(state: UserState, preDegraded: Option<UserState>)
  {
    // A remembered state exists only while degraded and is never itself a failure state.
    predicate Valid() {
      preDegraded.Some? ==> state == Degraded && preDegraded.value !in {Degraded, Suspended}
    }
  }

  function DegradedFrom(m: Machine): Machine {
    if m.state in {Degraded, Suspended} then m else Machine(Degraded, Some(m.state))
  }

  function RecoveredFrom(m: Machine): Machine {
    if m.state != Degraded then m
    else Machine(if m.preDegraded.Some? then m.preDegraded.value else Enrolling, None)
  }

  function ProgressedFrom(config: EnrollmentConfig, m: Machine, windows: int, days: int, calibration: int): Machine {
    if m.state == Enrolling && windows >= config.minWindows && days >= config.minDistinctDays then
      m.(state := Calibrating)
    else if m.state == Calibrating && calibration >= config.calibrationWindows then
      m.(state := Active)
    else m
  }

  function SuspendedFrom(m: Machine): Machine {
    if m.state == Suspended then m else Machine(Suspended, None)
  }

  function RestartedFrom(m: Machine): Machine {
    if m.state == Suspended then m.(state := Enrolling) else m
  }

  class UserStateMachine {
    const config: EnrollmentConfig
    var state: UserState
    var preDegraded: Option<UserState>

    function View(): Machine
      reads this
    {
      Machine(state, preDegraded)
    }

    constructor (config: EnrollmentConfig, initial: UserState)
      ensures this.config == config && View() == Machine(initial, None)
    {
      this.config := config;
      state := initial;
      preDegraded := None;
    }

    method Move(target: UserState, reason: string) returns (transition: StateTransition)
      modifies this`state
      ensures View() == old(View()).(state := target)
      ensures transition == StateTransition(old(state), target, reason)
    {
      transition := StateTransition(state, target, reason);
      state := target;
    }

    method ObserveProgress(windows: int, days: int, calibration: int)
      returns (result: Result<Option<StateTransition>, RiskError>)
      modifies this
      ensures result.Err? <==> windows < 0 || days < 0 || calibration < 0
      ensures View() == if result.Err? then old(View())
                        else ProgressedFrom(config, old(View()), windows, days, calibration)
      ensures result.Ok? ==> (result.value.Some? <==> state != old(state))
      ensures result.Ok? && result.value.Some? ==>
                result.value.value.previous == old(state) && result.value.value.current == state
    {
      if windows < 0 || days < 0 || calibration < 0 {
        return Err(NegativeProgress);
      }
      if state == Enrolling {
        if windows >= config.minWindows && days >= config.minDistinctDays {
          var moved := Move(Calibrating, "ENROLLMENT_EVIDENCE_REACHED");
          return Ok(Some(moved));
        }
        return Ok(None);
      }
      if state == Calibrating && calibration >= config.calibrationWindows {
        var moved := Move(Active, "CALIBRATION_COMPLETED");
        return Ok(Some(moved));
      }
      return Ok(None);
    }

    method Degrade(reason: string) returns (transition: Option<StateTransition>)
      modifies this
      ensures View() == DegradedFrom(old(View()))
      ensures transition == if old(state) in {Degraded, Suspended} then None
                            else Some(StateTransition(old(state), Degraded, reason))
    {
      if state in {Degraded, Suspended} {
        return None;
      }
      preDegraded := Some(state);
      var moved := Move(Degraded, reason);
      return Some(moved);
    }

    method Recover() returns (result: Result<StateTransition, RiskError>)
      modifies this
      ensures result.Err? <==> old(state) != Degraded
      ensures View() == RecoveredFrom(old(View()))
      ensures result.Ok? ==> result.value == StateTransition(Degraded, state, "COMPONENT_RECOVERED")
    {
      if state != Degraded {
        return Err(NothingToRecover);
      }
      var target := if preDegraded.Some? then preDegraded.value else Enrolling;
      preDegraded := None;
      var moved := Move(target, "COMPONENT_RECOVERED");
      return Ok(moved);
    }

    method Suspend(reason: string) returns (transition: Option<StateTransition>)
      modifies this
      ensures View() == SuspendedFrom(old(View()))
      ensures transition == if old(state) == Suspended then None
                            else Some(StateTransition(old(state), Suspended, reason))
    {
      if state == Suspended {
        return None;
      }
      preDegraded := None;
      var moved := Move(Suspended, reason);
      return Some(moved);
    }

    method RestartEnrollment() returns (result: Result<StateTransition, RiskError>)
      modifies this
      ensures result.Err? <==> old(state) != Suspended
      ensures View() == RestartedFrom(old(View()))
      ensures result.Ok? ==> result.value == StateTransition(Suspended, Enrolling, "REENROLLED")
    {
      if state != Suspended {
        return Err(NotSuspended);
      }
      var moved := Move(Enrolling, "REENROLLED");
      return Ok(moved);
    }
  }

  datatype MachineEvent =
    | Degrade
    | Recover
    | Progress(windows: nat, days: nat, calibration: nat)
    | Suspend
    | Restart

  function MachineStep(config: EnrollmentConfig, m: Machine, event: MachineEvent): Machine {
    match event
    case Degrade => DegradedFrom(m)
    case Recover => RecoveredFrom(m)
    case Progress(w, d, c) => ProgressedFrom(config, m, w, d, c)
    case Suspend => SuspendedFrom(m)
    case Restart => RestartedFrom(m)
  }

  function MachineRun(config: EnrollmentConfig, m: Machine, events: seq<MachineEvent>): Machine
    decreases |events|
  {
    if events == [] then m
    else MachineStep(config, MachineRun(config, m, events[..|events| - 1]), events[|events| - 1])
  }

  /** Degradation is transparent: whatever failures and progress reports arrive
      while degraded, the first recovery lands in exactly the state that was left. */
  lemma {:induction false} RecoveryRestoresTheStateLeft(
    config: EnrollmentConfig, m: Machine, outage: seq<MachineEvent>)
    requires m.state !in {Degraded, Suspended} && m.Valid()
    requires forall e :: e in outage ==> e.Degrade? || e.Progress?
    ensures RecoveredFrom(MachineRun(config, DegradedFrom(m), outage)) == m
  {
    StaysDegraded(config, m, outage);
  }

  lemma {:induction false} StaysDegraded(config: EnrollmentConfig, m: Machine, outage: seq<MachineEvent>)
    requires m.state !in {Degraded, Suspended}
    requires forall e :: e in outage ==> e.Degrade? || e.Progress?
    ensures MachineRun(config, DegradedFrom(m), outage) == DegradedFrom(m)
    decreases |outage|
  {
    if outage != [] {
      var last := |outage| - 1;
      StaysDegraded(config, m, outage[..last]);
      assert outage[last] in outage;
    }
  }

  // The state a user stands in, looking through a degradation.
  function Standing(m: Machine): UserState {
    if m.state == Degraded && m.preDegraded.Some? then m.preDegraded.value else m.state
  }

  // A progress report with enough enrollment evidence, and no suspension since.
  ghost predicate Enrolls(config: EnrollmentConfig, events: seq<MachineEvent>, i: nat) {
    && i < |events| && events[i].Progress?
    && events[i].windows >= config.minWindows && events[i].days >= config.minDistinctDays
    && forall k :: i < k < |events| ==> !events[k].Suspend?
  }

  predicate Calibrates(config: EnrollmentConfig, events: seq<MachineEvent>, j: nat) {
    j < |events| && events[j].Progress? && events[j].calibration >= config.calibrationWindows
  }

  /** CALIBRATING and ACTIVE are earned: over any run of a new user, whatever outages,
      suspensions and restarts it holds, a user stands there only on a sufficient enrollment
      report, and ACTIVE only on a later sufficient calibration report, not suspended since. */
  lemma {:induction false} ActiveIsEarned(config: EnrollmentConfig, events: seq<MachineEvent>)
    ensures var standing := Standing(MachineRun(config, Machine(Enrolling, None), events));
            && (standing == Calibrating ==> exists i: nat :: Enrolls(config, events, i))
            && (standing == Active ==>
                  exists i: nat, j: nat :: i < j && Enrolls(config, events, i) && Calibrates(config, events, j))
    decreases |events|
  {
    if events != [] {
      var n := |events| - 1;
      ActiveIsEarned(config, events[..n]);
      var before, after := MachineRun(config, Machine(Enrolling, None), events[..n]), MachineRun(config, Machine(Enrolling, None), events);
      if Standing(after) == Standing(before) && !events[n].Suspend? {
        if Standing(before) == Calibrating {
          var i: nat :| Enrolls(config, events[..n], i);
          EarlierStaysEarned(config, events, i);
        } else if Standing(before) == Active {
          var i: nat, j: nat :| i < j && Enrolls(config, events[..n], i) && Calibrates(config, events[..n], j);
          EarlierStaysEarned(config, events, i);
          assert Calibrates(config, events, j);
        }
      } else if Standing(after) == Calibrating {
        assert Enrolls(config, events, n);
      } else if Standing(after) == Active {
        var i: nat :| Enrolls(config, events[..n], i);
        EarlierStaysEarned(config, events, i);
        assert Calibrates(config, events, n);
      }
    }
  }

  lemma EarlierStaysEarned(config: EnrollmentConfig, events: seq<MachineEvent>, i: nat)
    requires events != [] && !events[|events| - 1].Suspend?
    requires Enrolls(config, events[..|events| - 1], i)
    ensures Enrolls(config, events, i)
  {
    forall k | i < k < |events| ensures !events[k].Suspend? {
      assert k < |events| - 1 ==> events[..|events| - 1][k] == events[k];
    }
  }

  /** Every run keeps the machine consistent, and only a suspension followed by a
      restart can take a user who started calibrating back to enrolling. */
  lemma {:induction false} RunsStayEnrolled(config: EnrollmentConfig, m: Machine, events: seq<MachineEvent>)
    requires m.Valid() && m.state != Suspended
    requires m.state != Enrolling && m.preDegraded != Some(Enrolling) && (m.state == Degraded ==> m.preDegraded.Some?)
    requires forall e :: e in events ==> !e.Suspend?
    ensures var end := MachineRun(config, m, events);
            && end.Valid() && end.state !in {Enrolling, Suspended}
            && end.preDegraded != Some(Enrolling) && (end.state == Degraded ==> end.preDegraded.Some?)
    decreases |events|
  {
    if events != [] {
      var last := |events| - 1;
      RunsStayEnrolled(config, m, events[..last]);
      assert events[last] in events;
    }
  }
}
