/** The offline replay of the risk level, re-implemented apart from the engine, and the
    proof that it reproduces the engine's recorded levels. */
module Replay {
  import opened Wrappers
  import opened RiskTypes
  import opened Deques
  import opened RiskCore
  import opened UserStates
  import opened RiskEngines
  import opened EngineRuns

  /** One window's evidence in the units consumed just before smoothing. */
  datatype Reading = Reading(fused: Option<real>, confidence: real)
  {
    function Adjusted(): real
      requires fused.Some?
    {
      fused.value * confidence
    }
  }

  datatype ReplayStep = ReplayStep(smoothed: Option<real>, level: RiskLevel)

  datatype OperatingPoint = OperatingPoint(medium: real, high: real, alpha: real, k: nat, n: nat)

  datatype ReplayState = ReplayState(history: seq<real>, smoothed: Option<real>, level: RiskLevel)

  const Start := ReplayState([], None, Low)

  // The replay's own case split, in its own order.
  function NextLevel(p: OperatingPoint, history: seq<real>, level: RiskLevel): RiskLevel {
    var candidate :=
      if CountAtLeast(history, p.high) >= p.k then High
      else if CountAtLeast(history, p.medium) >= p.k then Medium
      else Low;
    if Rank(candidate) >= Rank(level) then candidate
    else if |history| >= p.n && AllBelow(history, if level == High then p.high else p.medium) then candidate
    else level
  }

  function Blend(alpha: real, adjusted: real, previous: Option<real>): real {
    if previous.None? then adjusted else alpha * adjusted + (1.0 - alpha) * previous.value
  }

  function Next(p: OperatingPoint, s: ReplayState, reading: Reading): (ReplayState, ReplayStep) {
    if reading.fused.None? then (s, ReplayStep(s.smoothed, Unavailable))
    else
      var smoothed := Blend(p.alpha, reading.Adjusted(), s.smoothed);
      var history := LastN(s.history + [smoothed], p.n);
      var level := NextLevel(p, history, s.level);
      (ReplayState(history, Some(smoothed), level), ReplayStep(Some(smoothed), level))
  }

  function Replayed(p: OperatingPoint, readings: seq<Reading>): (ReplayState, seq<ReplayStep>) {
    if readings == [] then (Start, [])
    else
      var (before, steps) := Replayed(p, readings[..|readings| - 1]);
      var (after, step) := Next(p, before, readings[|readings| - 1]);
      (after, steps + [step])
  }

  method Settle(p: OperatingPoint, history: seq<real>, previous: RiskLevel) returns (level: RiskLevel)
    ensures level == NextLevel(p, history, previous)
  {
    level := previous;
    var mediumCount := CountAtLeast(history, p.medium);
    var highCount := CountAtLeast(history, p.high);
    var candidate := Low;
    if highCount >= p.k {
      candidate := High;
    } else if mediumCount >= p.k {
      candidate := Medium;
    }
    if Rank(candidate) >= Rank(level) {
      level := candidate;
    } else if |history| >= p.n {
      var boundary := if level == High then p.high else p.medium;
      if AllBelow(history, boundary) {
        level := candidate;
      }
    }
  }

  method ReplayRiskLevels(readings: seq<Reading>, p: OperatingPoint) returns (steps: seq<ReplayStep>)
    ensures steps == Replayed(p, readings).1
    ensures |steps| == |readings|
  {
    var history: seq<real> := [];
    var smoothed: Option<real> := None;
    var level := Low;
    steps := [];
    for i := 0 to |readings|
      invariant |steps| == i
      invariant Replayed(p, readings[..i]) == (ReplayState(history, smoothed, level), steps)
    {
      var reading := readings[i];
      assert readings[..i + 1][..i] == readings[..i];
      if reading.fused.None? {
        steps := steps + [ReplayStep(smoothed, Unavailable)];
        continue;
      }
      ghost var before := ReplayState(history, smoothed, level);
      var current := Blend(p.alpha, reading.Adjusted(), smoothed);
      smoothed := Some(current);
      history := LastN(history + [current], p.n);
      level := Settle(p, history, level);
      assert Next(p, before, reading) == (ReplayState(history, smoothed, level), ReplayStep(smoothed, level));
      steps := steps + [ReplayStep(smoothed, level)];
    }
    assert readings[..|readings|] == readings;
  }

  // ---------------------------------------------------------------------
  // Refinement
  // ---------------------------------------------------------------------

  function PointOf(settings: RiskSettings): OperatingPoint {
    OperatingPoint(settings.mediumThreshold, settings.highThreshold, settings.ewmaAlpha,
                   settings.breachK, settings.breachN)
  }

  /** The reading the replay documents: the fused score and the context confidence. */
  function Documented(settings: RiskSettings, request: DecisionInput): Reading {
    Reading(Evidence(settings, request.score), request.context.confidence)
  }

  /** A reading that is right in every adjustment mode. */
  function ReadingOf(settings: RiskSettings, request: DecisionInput): Reading
    requires request.Valid()
  {
    var evidence := Evidence(settings, request.score);
    if evidence.Some? && request.context.NormalizationAvailable()
    then Reading(Some(request.context.Adjust(evidence.value)), 1.0)
    else Documented(settings, request)
  }

  // One reading per window the engine accepted.
  function Readings(setup: Setup, s: EngineState, events: seq<EngineEvent>): seq<Reading>
    requires ValidEvents(events)
    decreases |events|
  {
    if events == [] then []
    else
      var event := events[|events| - 1];
      var before := Run(setup, s, events[..|events| - 1]).0;
      Readings(setup, s, events[..|events| - 1])
      + if Step(setup, before, event).1 == [] then [] else [ReadingOf(setup.settings, event.request)]
  }

  ghost predicate Damped(events: seq<EngineEvent>) {
    forall i :: 0 <= i < |events| && events[i].Window? ==> !events[i].request.context.NormalizationAvailable()
  }

  function DocumentedReadings(setup: Setup, s: EngineState, events: seq<EngineEvent>): seq<Reading>
    requires ValidEvents(events)
    decreases |events|
  {
    if events == [] then []
    else
      var event := events[|events| - 1];
      var before := Run(setup, s, events[..|events| - 1]).0;
      DocumentedReadings(setup, s, events[..|events| - 1])
      + if Step(setup, before, event).1 == [] then [] else [Documented(setup.settings, event.request)]
  }

  function DecisionLevels(outcomes: seq<RiskOutcome>): seq<RiskLevel> {
    if outcomes == [] then []
    else
      DecisionLevels(outcomes[..|outcomes| - 1])
      + if outcomes[|outcomes| - 1].decision.Some? then [outcomes[|outcomes| - 1].decision.value.level] else []
  }

  function ReplayLevels(steps: seq<ReplayStep>): seq<RiskLevel> {
    if steps == [] then [] else ReplayLevels(steps[..|steps| - 1]) + [steps[|steps| - 1].level]
  }

  // A user the engine decides for: neither enrolling nor suspended, not even behind an outage.
  predicate Decided(user: Machine) {
    && user.Valid() && user.state !in {Enrolling, Suspended}
    && (user.state == Degraded ==> user.preDegraded.Some? && user.preDegraded.value != Enrolling)
  }

  ghost predicate NeverSuspended(events: seq<EngineEvent>) {
    forall i :: 0 <= i < |events| ==> !events[i].Suspension?
  }

  function Mirror(core: Core): ReplayState {
    ReplayState(core.history, core.smoothed, core.level)
  }

  // Both re-implementations take the same step from the same state.
  lemma NextIsAdvance(settings: RiskSettings, core: Core, reading: Reading, adjusted: real)
    requires settings.Valid() && |core.history| <= settings.breachN && core.level != Unavailable
    requires reading.fused.Some? && reading.Adjusted() == adjusted
    ensures var (s', step) := Next(PointOf(settings), Mirror(core), reading);
            s' == Mirror(Advance(settings, core, adjusted)) && step.level == Advance(settings, core, adjusted).level
  {
    var p := PointOf(settings);
    var smoothed := Smoothed(settings, core.smoothed, adjusted);
    SmoothingAgrees(settings, core.smoothed, adjusted);
    var history := Pushed(core.history, smoothed, settings.breachN);
    SettlingAgrees(settings, history, core.level);
    assert Next(p, Mirror(core), reading) ==
           (ReplayState(history, Some(smoothed), NextLevel(p, history, core.level)),
            ReplayStep(Some(smoothed), NextLevel(p, history, core.level)));
  }

  lemma SmoothingAgrees(settings: RiskSettings, previous: Option<real>, adjusted: real)
    ensures Blend(PointOf(settings).alpha, adjusted, previous) == Smoothed(settings, previous, adjusted)
  {
  }

  lemma SettlingAgrees(settings: RiskSettings, history: seq<real>, level: RiskLevel)
    requires level != Unavailable
    ensures NextLevel(PointOf(settings), history, level) ==
            WithHysteresis(settings, history, level, Candidate(settings, history))
  {
  }

  lemma ReadingAdjusts(settings: RiskSettings, request: DecisionInput)
    requires request.Valid() && Evidence(settings, request.score).Some?
    ensures var reading := ReadingOf(settings, request);
            && reading.fused.Some?
            && reading.Adjusted() == request.context.Adjust(Evidence(settings, request.score).value)
  {
    var fused := Evidence(settings, request.score).value;
    if request.context.NormalizationAvailable() {
      AdjustedAlready(request.context.Adjust(fused));
    } else {
      DampingIsAdjusted(request.context, fused);
    }
  }

  lemma AdjustedAlready(adjusted: real)
    ensures Reading(Some(adjusted), 1.0).Adjusted() == adjusted
  {
  }

  lemma DampingIsAdjusted(context: ContextAssessment, fused: real)
    requires context.Valid() && !context.NormalizationAvailable()
    ensures Reading(Some(fused), context.confidence).Adjusted() == context.Adjust(fused)
  {
  }

  // One accepted window: the decision and the replay step name the same level.
  lemma StepAgrees(setup: Setup, s: EngineState, event: EngineEvent)
    requires ValidState(setup, s) && event.Valid() && !event.Suspension? && Decided(s.user)
    ensures var (s', more) := Step(setup, s, event);
            && Decided(s'.user)
            && (more == [] ==> s'.core == s.core)
            && (more != [] ==>
                  && event.Window? && |more| == 1 && more[0].decision.Some?
                  && var (r, step) := Next(PointOf(setup.settings), Mirror(s.core), ReadingOf(setup.settings, event.request));
                     r == Mirror(s'.core) && step.level == more[0].decision.value.level)
  {
    var (s', more) := Step(setup, s, event);
    StepAdds(setup, s, event);
    if more != [] {
      ProcessCases(setup.settings, setup.userId, s, event.request, event.decisionId);
      if IsScored(setup.settings, s, event.request, s', more[0]) {
        ReadingAdjusts(setup.settings, event.request);
        NextIsAdvance(setup.settings, s.core, ReadingOf(setup.settings, event.request),
                      more[0].trace.value.adjustedScore);
      }
    }
  }

  /** Replay refines the engine: for every sequence of events with failures, outages and
      holds interleaved, starting while calibrating or active and without suspension, the
      replay over the abstracted readings yields exactly the recorded risk levels. */
  lemma {:induction false} ReplayRefinesEngine(setup: Setup, user: Machine, events: seq<EngineEvent>)
    requires setup.settings.Valid() && ValidEvents(events) && Decided(user) && NeverSuspended(events)
    ensures var (end, outcomes) := Run(setup, Cold(user), events);
            var (state, steps) := Replayed(PointOf(setup.settings), Readings(setup, Cold(user), events));
            && ReplayLevels(steps) == DecisionLevels(outcomes)
            && state == Mirror(end.core) && Decided(end.user)
    decreases |events|
  {
    if events != [] {
      var j := |events| - 1;
      ReplayRefinesEngine(setup, user, events[..j]);
      RunFacts(setup, Cold(user), events[..j]);
      var (before, outcomes) := Run(setup, Cold(user), events[..j]);
      OneStepMirrors(setup, before, outcomes, Readings(setup, Cold(user), events[..j]), events[j]);
    }
  }

  // The replay of some readings stands where the engine stands, with the same levels behind it.
  ghost predicate Mirrors(setup: Setup, s: EngineState, outcomes: seq<RiskOutcome>, readings: seq<Reading>) {
    var (state, steps) := Replayed(PointOf(setup.settings), readings);
    ReplayLevels(steps) == DecisionLevels(outcomes) && state == Mirror(s.core) && Decided(s.user)
  }

  lemma OneStepMirrors(setup: Setup, before: EngineState, outcomes: seq<RiskOutcome>, readings: seq<Reading>,
                       event: EngineEvent)
    requires ValidState(setup, before) && event.Valid() && !event.Suspension?
    requires Mirrors(setup, before, outcomes, readings)
    ensures var (after, more) := Step(setup, before, event);
            if more == [] then Mirrors(setup, after, outcomes + more, readings + [])
            else event.Window? && Mirrors(setup, after, outcomes + more, readings + [ReadingOf(setup.settings, event.request)])
  {
    var (after, more) := Step(setup, before, event);
    StepAgrees(setup, before, event);
    if more == [] {
      assert outcomes + more == outcomes && readings + [] == readings;
    } else {
      assert more == [more[0]];
      LevelsAppend(PointOf(setup.settings), readings, ReadingOf(setup.settings, event.request), outcomes, more[0]);
    }
  }

  lemma LevelsAppend(p: OperatingPoint, readings: seq<Reading>, reading: Reading,
                     outcomes: seq<RiskOutcome>, outcome: RiskOutcome)
    requires outcome.decision.Some?
    ensures DecisionLevels(outcomes + [outcome]) == DecisionLevels(outcomes) + [outcome.decision.value.level]
    ensures var (s, steps) := Replayed(p, readings);
            var (s', step) := Next(p, s, reading);
            && Replayed(p, readings + [reading]) == (s', steps + [step])
            && ReplayLevels(steps + [step]) == ReplayLevels(steps) + [step.level]
  {
    assert (readings + [reading])[..|readings|] == readings;
    assert (outcomes + [outcome])[..|outcomes|] == outcomes;
    var (s, steps) := Replayed(p, readings);
    var step := Next(p, s, reading).1;
    assert (steps + [step])[..|steps|] == steps;
  }

  /** In damping mode, the only mode the replay documents, its documented readings suffice. */
  lemma {:induction false} DocumentedReadingsSuffice(setup: Setup, s: EngineState, events: seq<EngineEvent>)
    requires ValidEvents(events) && Damped(events)
    ensures DocumentedReadings(setup, s, events) == Readings(setup, s, events)
    decreases |events|
  {
    if events != [] {
      var before, last := events[..|events| - 1], events[|events| - 1];
      DocumentedReadingsSuffice(setup, s, before);
      if Step(setup, Run(setup, s, before).0, last).1 != [] {
        DampedIsDocumented(setup.settings, last.request);
      }
    }
  }

  lemma DampedIsDocumented(settings: RiskSettings, request: DecisionInput)
    requires request.Valid() && !request.context.NormalizationAvailable()
    ensures ReadingOf(settings, request) == Documented(settings, request)
  {
  }

  // A window whose normalisation moves a harmless fused score to 1, judged two out of two.
  predicate Moves(setup: Setup, window: EngineEvent) {
    && setup.settings.Valid() && setup.settings.ewmaAlpha == 1.0
    && setup.settings.breachK == 2 && setup.settings.breachN == 2 && setup.settings.mediumThreshold > 0.25
    && window.Window? && window.Valid() && window.request.score.userId == setup.userId
    && window.request.context.NormalizationAvailable()
    && ReadingOf(setup.settings, window.request) == Reading(Some(1.0), 1.0)
    && Documented(setup.settings, window.request) == Reading(Some(0.25), 1.0)
  }

  lemma SomeWindowMoves() returns (setup: Setup, window: EngineEvent)
    ensures Moves(setup, window)
  {
    setup := Setup(RiskSettings(0.5, 0.5, 1.0, 0.5, 0.75, 2, 2, 60_000_000, 2), EnrollmentConfig(1, 1, 1), "user");
    var context := ContextAssessment(1.0, PerContextNormalization, Some(0.0), Some(0.25), Some(0.0), Some(1.0));
    var score := ScoreResult("user", "w", KbdOnly, ModalityScore(true, Some(0.25), Scored),
                             ModalityScore(false, None, ModelUnavailable));
    window := Window(DecisionInput(score, "s", "g", 0, context), "a");
    FusionCases(setup.settings, score);
    assert Evidence(setup.settings, score) == Some(0.25) && context.Adjust(0.25) == 1.0;
  }

  lemma EngineGoesHigh(setup: Setup, window: EngineEvent)
    requires Moves(setup, window)
    ensures ValidEvents([window, window])
    ensures DecisionLevels(Run(setup, Cold(Machine(Active, None)), [window, window]).1) == [Low, High]
  {
    ReadingsOfTwo(setup, Cold(Machine(Active, None)), window);
    ReplayRefinesEngine(setup, Machine(Active, None), [window, window]);
    ReplayOfTwo(PointOf(setup.settings), 1.0);
  }

  lemma ReplayStaysLow(setup: Setup, window: EngineEvent)
    requires Moves(setup, window)
    ensures ValidEvents([window, window])
    ensures var documented := DocumentedReadings(setup, Cold(Machine(Active, None)), [window, window]);
            ReplayLevels(Replayed(PointOf(setup.settings), documented).1) == [Low, Low]
  {
    DocumentedOfTwo(setup, Cold(Machine(Active, None)), window);
    ReplayOfTwo(PointOf(setup.settings), 0.25);
  }

  /** Outside damping mode the documented readings can misreport the level: a context whose
      normalisation moves a harmless fused score to 1 makes the engine raise the level to
      HIGH over two windows that the replay keeps LOW. */
  lemma NormalizationEscapesTheReplay()
    returns (setup: Setup, events: seq<EngineEvent>)
    ensures setup.settings.Valid() && ValidEvents(events) && NeverSuspended(events) && !Damped(events)
    ensures var cold := Cold(Machine(Active, None));
            && DecisionLevels(Run(setup, cold, events).1) == [Low, High]
            && ReplayLevels(Replayed(PointOf(setup.settings), DocumentedReadings(setup, cold, events)).1) == [Low, Low]
  {
    var window;
    setup, window := SomeWindowMoves();
    events := [window, window];
    assert !Damped(events) by { assert events[0].Window?; }
    EngineGoesHigh(setup, window);
    ReplayStaysLow(setup, window);
  }

  // A window that is not refused yields its outcome.
  lemma WindowIsTaken(setup: Setup, s: EngineState, window: EngineEvent)
    requires setup.settings.Valid() && window.Window? && window.Valid()
    requires !IsRefused(setup.userId, s, window.request)
    ensures var (s', more) := Step(setup, s, window);
            more != [] && s'.lastDecisionUs == Some(window.request.tDecisionUs)
  {
    ProcessCases(setup.settings, setup.userId, s, window.request, window.decisionId);
  }

  lemma TwoWindowsRun(setup: Setup, s: EngineState, window: EngineEvent)
    requires setup.settings.Valid() && window.Window? && window.Valid() && ValidEvents([window, window])
    requires window.request.score.userId == setup.userId && s.lastDecisionUs.None?
    ensures var s1 := Step(setup, s, window).0;
            && Run(setup, s, []).0 == s && Run(setup, s, [window]).0 == s1
            && Step(setup, s, window).1 != [] && Step(setup, s1, window).1 != []
  {
    WindowIsTaken(setup, s, window);
    WindowIsTaken(setup, Step(setup, s, window).0, window);
    assert [window][..0] == [];
    assert Run(setup, s, []).0 == s;
  }

  lemma ReadingsOfTwo(setup: Setup, s: EngineState, window: EngineEvent)
    requires setup.settings.Valid() && window.Window? && window.Valid() && ValidEvents([window, window])
    requires window.request.score.userId == setup.userId && s.lastDecisionUs.None?
    ensures var reading := ReadingOf(setup.settings, window.request);
            Readings(setup, s, [window, window]) == [reading, reading]
  {
    TwoWindowsRun(setup, s, window);
    assert [window, window][..1] == [window] && [window][..0] == [];
    var reading := ReadingOf(setup.settings, window.request);
    assert Readings(setup, s, [window]) == [reading] by { assert [] + [reading] == [reading]; }
  }

  lemma DocumentedOfTwo(setup: Setup, s: EngineState, window: EngineEvent)
    requires setup.settings.Valid() && window.Window? && window.Valid() && ValidEvents([window, window])
    requires window.request.score.userId == setup.userId && s.lastDecisionUs.None?
    ensures var reading := Documented(setup.settings, window.request);
            DocumentedReadings(setup, s, [window, window]) == [reading, reading]
  {
    TwoWindowsRun(setup, s, window);
    assert [window, window][..1] == [window] && [window][..0] == [];
    var reading := Documented(setup.settings, window.request);
    assert DocumentedReadings(setup, s, [window]) == [reading] by { assert [] + [reading] == [reading]; }
  }

  // Two equal readings without smoothing, judged two out of two.
  lemma ReplayOfTwo(p: OperatingPoint, x: real)
    requires p.alpha == 1.0 && p.k == 2 && p.n == 2 && p.medium < p.high
    requires x >= p.high || x < p.medium
    ensures var reading := Reading(Some(x), 1.0);
            ReplayLevels(Replayed(p, [reading, reading]).1) == [Low, if x >= p.high then High else Low]
  {
    var reading := Reading(Some(x), 1.0);
    assert [reading, reading][..1] == [reading] && [reading][..0] == [];
    CountOfOne(x, p.high);
    CountOfOne(x, p.medium);
    CountOfTwo(x, p.high);
    CountOfTwo(x, p.medium);
    var first, one := ReplayState([x], Some(x), Low), ReplayStep(Some(x), Low);
    assert Blend(p.alpha, x * 1.0, None) == x && Blend(p.alpha, x * 1.0, Some(x)) == x;
    assert [] + [x] == [x] && [x] + [x] == [x, x];
    assert Next(p, Start, reading) == (first, one);
    var two := Next(p, first, reading).1;
    assert two.level == if x >= p.high then High else Low;
    assert Replayed(p, [reading]) == (first, [one]) by { assert [] + [one] == [one]; }
    assert Replayed(p, [reading, reading]).1 == [one, two];
    assert [one, two][..1] == [one] && [one][..0] == [];
    assert ReplayLevels([one]) == [Low] by { assert [] + [Low] == [Low]; }
  }

  lemma CountOfOne(x: real, threshold: real)
    ensures CountAtLeast([x], threshold) == if x >= threshold then 1 else 0
  {
    assert [x][..0] == [];
  }

  lemma CountOfTwo(x: real, threshold: real)
    ensures CountAtLeast([x, x], threshold) == if x >= threshold then 2 else 0
  {
    assert [x, x][..1] == [x];
    CountOfOne(x, threshold);
  }
}
