/** What the measured rejection rate does not bound: the windows spent at MEDIUM, and
    anything once contexts normalise. */
module AlarmLimits {
  import opened Wrappers
  import opened RiskTypes
  import opened RiskCore
  import opened UserStates
  import opened RiskEngines
  import opened EngineRuns
  import opened Alarms
  import Replay

  // One scored window of an active user.
  lemma WindowIsScored(setup: Setup, s: EngineState, window: EngineEvent)
    requires setup.settings.Valid() && window.Window? && window.Valid() && s.user == Machine(Active, None)
    requires !IsRefused(setup.userId, s, window.request) && Evidence(setup.settings, window.request.score).Some?
    ensures var (s', more) := Step(setup, s, window);
            && |more| == 1 && more[0].trace.Some? && s'.user == s.user
            && s'.lastDecisionUs == Some(window.request.tDecisionUs)
            && var trace, fused := more[0].trace.value, Evidence(setup.settings, window.request.score).value;
            && trace.fusedScore == fused && s'.core == Advance(setup.settings, s.core, window.request.context.Adjust(fused))
            && trace.priorLevel == s.core.level && trace.resultingLevel == s'.core.level
  {
    ProcessCases(setup.settings, setup.userId, s, window.request, window.decisionId);
  }

  // A window at time 0 whose fused score reaches the smoother as it is.
  predicate Carries(setup: Setup, window: EngineEvent, fused: real) {
    && window.Window? && window.Valid() && window.request.tDecisionUs == 0
    && window.request.score.userId == setup.userId
    && !window.request.context.NormalizationAvailable()
    && Evidence(setup.settings, window.request.score) == Some(fused) && window.request.context.Adjust(fused) == fused
  }

  // Half the weight on the past, two breaches out of two.
  predicate Slow(setup: Setup) {
    && setup.settings.Valid() && setup.settings.ewmaAlpha == 0.5
    && setup.settings.breachK == 2 && setup.settings.breachN == 2
    && setup.settings.mediumThreshold == 0.5 && setup.settings.highThreshold == 0.75
  }

  lemma SomeWindowsCarry() returns (setup: Setup, spike: EngineEvent, calm: EngineEvent)
    ensures Slow(setup) && Carries(setup, spike, 1.0) && Carries(setup, calm, 0.4)
  {
    setup := Setup(RiskSettings(0.5, 0.5, 0.5, 0.5, 0.75, 2, 2, 60_000_000, 2), EnrollmentConfig(1, 1, 1), "user");
    spike := WindowOf(1.0);
    calm := WindowOf(0.4);
    FusionCases(setup.settings, spike.request.score);
    FusionCases(setup.settings, calm.request.score);
  }

  function WindowOf(risk: real): EngineEvent {
    var context := ContextAssessment(1.0, MultiplicativeDamping, None, None, None, None);
    var score := ScoreResult("user", "w", KbdOnly, ModalityScore(true, Some(risk), Scored),
                             ModalityScore(false, None, ModelUnavailable));
    Window(DecisionInput(score, "s", "g", 0, context), "d")
  }

  lemma FirstSpike(setup: Setup, x: real)
    requires setup.settings.Valid() && setup.settings.breachK == 2 && setup.settings.breachN == 2
    ensures Advance(setup.settings, ColdStart, x) == Core([x], Some(x), Low)
  {
    Replay.CountOfOne(x, setup.settings.mediumThreshold);
    Replay.CountOfOne(x, setup.settings.highThreshold);
    assert Pushed([], x, 2) == [x];
  }

  // A score that leaves the average between the thresholds, after one that was at least medium.
  lemma AverageLingers(setup: Setup, history: seq<real>, x: real, level: RiskLevel, value: real, y: real)
    requires Slow(setup) && level in {Low, Medium} && 1 <= |history| <= 2 && history[|history| - 1] == x
    requires y == 0.5 * value + 0.5 * x && 0.5 <= x && 0.5 <= y < 0.75
    ensures Advance(setup.settings, Core(history, Some(x), level), value) == Core([x, y], Some(y), Medium)
  {
    CountOfPair(x, y, 0.5);
    CountOfPair(x, y, 0.75);
    assert Pushed(history, y, 2) == [x, y];
  }

  lemma CountOfPair(x: real, y: real, threshold: real)
    ensures CountAtLeast([x, y], threshold) == (if x >= threshold then 1 else 0) + (if y >= threshold then 1 else 0)
  {
    assert [x, y][..1] == [x];
    Replay.CountOfOne(x, threshold);
  }

  lemma RunOneMore(setup: Setup, s: EngineState, events: seq<EngineEvent>, event: EngineEvent)
    requires ValidEvents(events) && event.Valid()
    ensures ValidEvents(events + [event])
    ensures var (before, outcomes) := Run(setup, s, events);
            var (after, more) := Step(setup, before, event);
            Run(setup, s, events + [event]) == (after, outcomes + more)
  {
    assert (events + [event])[..|events|] == events;
  }

  lemma RunOfTwo(setup: Setup, s: EngineState, a: EngineEvent, b: EngineEvent)
    requires a.Valid() && b.Valid()
    ensures ValidEvents([a, b])
    ensures var (s1, first) := Step(setup, s, a);
            var (s2, second) := Step(setup, s1, b);
            Run(setup, s, [a, b]) == (s2, first + second)
  {
    RunOneMore(setup, s, [], a);
    RunOneMore(setup, s, [a], b);
    var none: seq<RiskOutcome> := [];
    var first := Step(setup, s, a).1;
    assert none + first == first;
    assert [] + [a] == [a] && [a] + [b] == [a, b];
  }

  // The state and the outcomes after some windows: the fused scores so far, and how many of
  // the windows were at MEDIUM or above.
  ghost predicate Stands(s: EngineState, outcomes: seq<RiskOutcome>, core: Core, fused: seq<real>, above: nat) {
    && s.user == Machine(Active, None) && (s.lastDecisionUs.Some? ==> s.lastDecisionUs.value == 0)
    && s.core == core && FusedScores(outcomes) == fused && WindowsAt(outcomes, Medium) == above
  }

  lemma OneMoreStands(setup: Setup, s: EngineState, outcomes: seq<RiskOutcome>, core: Core, fused: seq<real>,
                      above: nat, window: EngineEvent, x: real)
    requires setup.settings.Valid() && Stands(s, outcomes, core, fused, above) && Carries(setup, window, x)
    ensures var next := Advance(setup.settings, core, x);
            var (s', more) := Step(setup, s, window);
            Stands(s', outcomes + more, next, fused + [x], above + if Rank(next.level) >= 1 then 1 else 0)
  {
    WindowIsScored(setup, s, window);
    var more := Step(setup, s, window).1;
    assert more == [more[0]];
    OneMoreOutcome(outcomes, more[0], Medium);
  }

  // A breaching score x and two calm ones v, with the level states they lead to.
  datatype Lingering = Lingering(x: real, v: real, one: Core, two: Core, three: Core)

  predicate Lingers(settings: RiskSettings, l: Lingering) {
    && l.x >= settings.mediumThreshold > l.v
    && Advance(settings, ColdStart, l.x) == l.one && Advance(settings, l.one, l.v) == l.two
    && Advance(settings, l.two, l.v) == l.three
    && l.one.level == Low && l.two.level == Medium && l.three.level == Medium
  }

  lemma SomeScoresLinger(setup: Setup) returns (l: Lingering)
    requires Slow(setup)
    ensures l.x == 1.0 && l.v == 0.4 && Lingers(setup.settings, l)
  {
    l := Lingering(1.0, 0.4, Core([1.0], Some(1.0), Low), Core([1.0, 0.7], Some(0.7), Medium),
                   Core([0.7, 0.55], Some(0.55), Medium));
    FirstSpike(setup, 1.0);
    AverageLingers(setup, [1.0], 1.0, Low, 0.4, 0.7);
    AverageLingers(setup, [1.0, 0.7], 0.7, Medium, 0.4, 0.55);
  }

  lemma SomeWindowsLinger() returns (setup: Setup, spike: EngineEvent, calm: EngineEvent, l: Lingering)
    ensures setup.settings.Valid() && Lingers(setup.settings, l)
    ensures Carries(setup, spike, l.x) && Carries(setup, calm, l.v)
  {
    setup, spike, calm := SomeWindowsCarry();
    l := SomeScoresLinger(setup);
  }

  ghost predicate RunsTo(setup: Setup, events: seq<EngineEvent>, s: EngineState, outcomes: seq<RiskOutcome>) {
    ValidEvents(events) && Run(setup, Cold(Machine(Active, None)), events) == (s, outcomes)
  }

  // The run on these windows ends so.
  ghost predicate Reached(setup: Setup, events: seq<EngineEvent>, core: Core, fused: seq<real>, above: nat) {
    exists s, outcomes :: RunsTo(setup, events, s, outcomes) && Stands(s, outcomes, core, fused, above)
  }

  lemma TakeWindow(setup: Setup, events: seq<EngineEvent>, core: Core, fused: seq<real>, above: nat,
                   window: EngineEvent, x: real, next: Core)
    requires setup.settings.Valid() && Carries(setup, window, x) && Reached(setup, events, core, fused, above)
    requires next == Advance(setup.settings, core, x)
    ensures Reached(setup, events + [window], next, fused + [x], above + if next.level in {Medium, High} then 1 else 0)
  {
    var s, outcomes :| RunsTo(setup, events, s, outcomes) && Stands(s, outcomes, core, fused, above);
    RunOneMore(setup, Cold(Machine(Active, None)), events, window);
    OneMoreStands(setup, s, outcomes, core, fused, above, window, x);
    var (s', more) := Step(setup, s, window);
    assert RunsTo(setup, events + [window], s', outcomes + more);
  }

  lemma NothingYet(setup: Setup)
    ensures Reached(setup, [], ColdStart, [], 0)
  {
    assert RunsTo(setup, [], Cold(Machine(Active, None)), []) && Stands(Cold(Machine(Active, None)), [], ColdStart, [], 0);
  }

  lemma OneSpike(setup: Setup, spike: EngineEvent, l: Lingering)
    requires setup.settings.Valid() && Lingers(setup.settings, l) && Carries(setup, spike, l.x)
    ensures Reached(setup, [spike], l.one, [l.x], 0)
  {
    NothingYet(setup);
    TakeWindow(setup, [], ColdStart, [], 0, spike, l.x, l.one);
    assert [] + [spike] == [spike] && [] + [l.x] == [l.x];
  }

  lemma SpikeAndCalm(setup: Setup, spike: EngineEvent, calm: EngineEvent, l: Lingering)
    requires setup.settings.Valid() && Lingers(setup.settings, l)
    requires Carries(setup, spike, l.x) && Carries(setup, calm, l.v)
    ensures Reached(setup, [spike] + [calm], l.two, [l.x] + [l.v], 1)
  {
    OneSpike(setup, spike, l);
    TakeWindow(setup, [spike], l.one, [l.x], 0, calm, l.v, l.two);
  }

  lemma SpikeAndTwoCalm(setup: Setup, spike: EngineEvent, calm: EngineEvent, l: Lingering)
    requires setup.settings.Valid() && Lingers(setup.settings, l)
    requires Carries(setup, spike, l.x) && Carries(setup, calm, l.v)
    ensures Reached(setup, [spike] + [calm] + [calm], l.three, [l.x] + [l.v] + [l.v], 2)
  {
    SpikeAndCalm(setup, spike, calm, l);
    TakeWindow(setup, [spike] + [calm], l.two, [l.x] + [l.v], 1, calm, l.v, l.three);
  }

  /** It does not bound the windows spent at MEDIUM: one breaching window, smoothed, holds the
      level at MEDIUM for two windows that do not breach. */
  lemma OneBreachHoldsTwoWindows() returns (setup: Setup, events: seq<EngineEvent>)
    ensures setup.settings.Valid() && ValidEvents(events) && Replay.Damped(events)
    ensures var outcomes := Run(setup, Cold(Machine(Active, None)), events).1;
            && CountAtLeast(FusedScores(outcomes), setup.settings.mediumThreshold) == 1
            && WindowsAt(outcomes, Medium) == 2
  {
    var spike, calm, l;
    setup, spike, calm, l := SomeWindowsLinger();
    events := [spike] + [calm] + [calm];
    var fused := [l.x] + [l.v] + [l.v];
    SpikeAndTwoCalm(setup, spike, calm, l);
    OneBreach(fused, l.x, l.v, setup.settings.mediumThreshold);
    AllDamped(setup, spike, calm, l);
    ReachedMeans(setup, events, l.three, fused, 2);
  }

  lemma OneBreach(fused: seq<real>, x: real, v: real, threshold: real)
    requires fused == [x] + [v] + [v] && x >= threshold > v
    ensures CountAtLeast(fused, threshold) == 1
  {
    assert fused == [x, v, v];
    CountOfThree(x, v, v, threshold);
  }

  lemma AllDamped(setup: Setup, spike: EngineEvent, calm: EngineEvent, l: Lingering)
    requires Carries(setup, spike, l.x) && Carries(setup, calm, l.v)
    ensures Replay.Damped([spike] + [calm] + [calm])
  {
  }

  lemma ReachedMeans(setup: Setup, events: seq<EngineEvent>, core: Core, fused: seq<real>, above: nat)
    requires Reached(setup, events, core, fused, above)
    ensures ValidEvents(events)
    ensures var outcomes := Run(setup, Cold(Machine(Active, None)), events).1;
            FusedScores(outcomes) == fused && WindowsAt(outcomes, Medium) == above
  {
  }

  lemma CountOfThree(x: real, y: real, z: real, threshold: real)
    ensures CountAtLeast([x, y, z], threshold) == CountAtLeast([x, y], threshold) + if z >= threshold then 1 else 0
    ensures CountAtLeast([x, y], threshold) == (if x >= threshold then 1 else 0) + (if y >= threshold then 1 else 0)
  {
    assert [x, y, z][..2] == [x, y];
    CountOfPair(x, y, threshold);
  }

  /** Nor anything outside damping: two windows with harmless fused scores, normalised, make
      the engine leave LOW while the rate measured on them is zero. */
  lemma NormalizationEscapesTheRate() returns (setup: Setup, events: seq<EngineEvent>)
    ensures setup.settings.Valid() && ValidEvents(events) && !Replay.Damped(events)
    ensures var (end, outcomes) := Run(setup, Cold(Machine(Active, None)), events);
            end.core.level == High && CountAtLeast(FusedScores(outcomes), setup.settings.mediumThreshold) == 0
  {
    var window;
    setup, window := Replay.SomeWindowMoves();
    events := [window, window];
    assert !Replay.Damped(events) by { assert events[0].Window?; }
    TwoMovedWindows(setup, window);
  }

  lemma TwoMovedWindows(setup: Setup, window: EngineEvent)
    requires Replay.Moves(setup, window)
    ensures ValidEvents([window, window])
    ensures var (end, outcomes) := Run(setup, Cold(Machine(Active, None)), [window, window]);
            end.core.level == High && CountAtLeast(FusedScores(outcomes), setup.settings.mediumThreshold) == 0
  {
    var cold := Cold(Machine(Active, None));
    WindowIsScored(setup, cold, window);
    var (s1, first) := Step(setup, cold, window);
    WindowIsScored(setup, s1, window);
    var second := Step(setup, s1, window).1;
    RunOfTwo(setup, cold, window, window);
    AddsTo([], first, 0.25);
    AddsTo(first, second, 0.25);
    assert [] + first == first;
    CountOfPair(0.25, 0.25, setup.settings.mediumThreshold);
    MovedToHigh(setup, 1.0);
  }

  lemma AddsTo(outcomes: seq<RiskOutcome>, more: seq<RiskOutcome>, fused: real)
    requires |more| == 1 && more[0].trace.Some? && more[0].trace.value.fusedScore == fused
    ensures FusedScores(outcomes + more) == FusedScores(outcomes) + [fused]
  {
    assert more == [more[0]];
    OneMoreOutcome(outcomes, more[0], Medium);
  }

  // Two high scores without smoothing.
  lemma MovedToHigh(setup: Setup, x: real)
    requires setup.settings.Valid() && setup.settings.ewmaAlpha == 1.0 && setup.settings.breachK == 2 && setup.settings.breachN == 2
    requires x >= setup.settings.highThreshold
    ensures Advance(setup.settings, Advance(setup.settings, ColdStart, x), x).level == High
  {
    FirstSpike(setup, x);
    assert Smoothed(setup.settings, Some(x), x) == x;
    assert Pushed([x], x, 2) == [x, x];
    CountOfPair(x, x, setup.settings.highThreshold);
  }
}
