/** How often the level can rise: never more often than the raw scores breach, and what the
    measured false rejection rate therefore bounds. */
module Alarms {
  import opened Wrappers
  import opened RiskTypes
  import opened RiskCore
  import opened UserStates
  import opened RiskEngines
  import opened EngineRuns
  import opened Deques
  import Calibration
  import FalseRejection
  import Replay

  function ThresholdOf(settings: RiskSettings, bound: RiskLevel): real {
    if bound == High then settings.highThreshold else settings.mediumThreshold
  }

  predicate Rises(before: RiskLevel, after: RiskLevel, bound: RiskLevel) {
    Rank(before) < Rank(bound) <= Rank(after)
  }

  /** How many of the scores raised the level to `bound` or above from below it. */
  function Alarms(settings: RiskSettings, values: seq<real>, bound: RiskLevel): nat {
    if values == [] then 0
    else
      var before := values[..|values| - 1];
      Alarms(settings, before, bound)
      + if Rises(AdvanceAll(settings, ColdStart, before).level, AdvanceAll(settings, ColdStart, values).level, bound)
        then 1 else 0
  }

  predicate InStretch(core: Core, threshold: real) {
    core.smoothed.Some? && core.smoothed.value >= threshold
  }

  // How many stretches of smoothed scores at or above the threshold have begun.
  function Stretches(settings: RiskSettings, values: seq<real>, threshold: real): nat {
    if values == [] then 0
    else
      var before := values[..|values| - 1];
      Stretches(settings, before, threshold)
      + if !InStretch(AdvanceAll(settings, ColdStart, before), threshold)
           && InStretch(AdvanceAll(settings, ColdStart, values), threshold) then 1 else 0
  }

  // ---------------------------------------------------------------------
  // A stretch begins with a raw breach
  // ---------------------------------------------------------------------

  lemma BlendStaysBelow(alpha: real, x: real, y: real, threshold: real)
    requires 0.0 < alpha <= 1.0 && x < threshold && y < threshold
    ensures alpha * x + (1.0 - alpha) * y < threshold
  {
    var beta, gapX, gapY := 1.0 - alpha, threshold - x, threshold - y;
    PositiveProduct(alpha, gapX);
    NonNegativeProduct(beta, gapY);
    BlendByGaps(alpha, beta, x, y, gapX, gapY);
  }

  lemma BlendByGaps(alpha: real, beta: real, x: real, y: real, gapX: real, gapY: real)
    requires alpha + beta == 1.0 && x + gapX == y + gapY
    ensures alpha * x + beta * y == x + gapX - alpha * gapX - beta * gapY
  {
    var threshold := x + gapX;
    assert alpha * x == alpha * threshold - alpha * gapX;
    assert beta * y == beta * threshold - beta * gapY;
    assert alpha * threshold + beta * threshold == (alpha + beta) * threshold;
  }

  lemma PositiveProduct(x: real, y: real)
    requires x > 0.0 && y > 0.0
    ensures x * y > 0.0
  {
  }

  lemma NonNegativeProduct(x: real, y: real)
    requires x >= 0.0 && y >= 0.0
    ensures x * y >= 0.0
  {
  }

  lemma StretchBeginsWithBreach(settings: RiskSettings, core: Core, value: real, threshold: real)
    requires settings.Valid() && !InStretch(core, threshold) && InStretch(Advance(settings, core, value), threshold)
    ensures value >= threshold
  {
    if core.smoothed.Some? && value < threshold {
      BlendStaysBelow(settings.ewmaAlpha, value, core.smoothed.value, threshold);
    }
  }

  lemma {:induction false} StretchesAreBreaches(settings: RiskSettings, values: seq<real>, threshold: real)
    requires settings.Valid()
    ensures Stretches(settings, values, threshold) <= CountAtLeast(values, threshold)
  {
    if values != [] {
      var before, last := values[..|values| - 1], values[|values| - 1];
      StretchesAreBreaches(settings, before, threshold);
      var core := AdvanceAll(settings, ColdStart, before);
      if !InStretch(core, threshold) && InStretch(Advance(settings, core, last), threshold) {
        StretchBeginsWithBreach(settings, core, last, threshold);
      }
    }
  }

  // ---------------------------------------------------------------------
  // A stretch raises the level at most once
  // ---------------------------------------------------------------------

  lemma {:induction false} CountWithoutFirst(history: seq<real>, threshold: real)
    requires history != []
    ensures CountAtLeast(history[1..], threshold) <= CountAtLeast(history, threshold) <= CountAtLeast(history[1..], threshold) + 1
  {
    var last := |history| - 1;
    if last > 0 {
      CountWithoutFirst(history[..last], threshold);
      assert history[1..][..last - 1] == history[..last][1..];
    }
  }

  // Pushing a breach never lowers the count, pushing another score never raises it.
  lemma PushMovesCount(history: seq<real>, value: real, n: nat, threshold: real)
    requires 1 <= n && |history| <= n
    ensures var pushed := CountAtLeast(Pushed(history, value, n), threshold);
            if value >= threshold then CountAtLeast(history, threshold) <= pushed
            else pushed <= CountAtLeast(history, threshold)
  {
    var grown := history + [value];
    assert grown[..|history|] == history;
    if |history| == n {
      CountWithoutFirst(grown, threshold);
      assert Pushed(history, value, n) == grown[1..];
    } else {
      assert Pushed(history, value, n) == grown;
    }
  }

  // A rise needs the breaches it asks for now, and did not have them before.
  lemma RiseIsCounted(settings: RiskSettings, core: Core, value: real, bound: RiskLevel)
    requires settings.Valid() && LevelAgrees(settings, core) && bound in {Medium, High}
    requires Rises(core.level, Advance(settings, core, value).level, bound)
    ensures var threshold := ThresholdOf(settings, bound);
            CountAtLeast(core.history, threshold) < settings.breachK
            <= CountAtLeast(Advance(settings, core, value).history, threshold)
  {
    CountIsAntitone(Advance(settings, core, value).history, settings.mediumThreshold, settings.highThreshold);
  }

  // Stretches have paid for the rises so far, and the stretch under way still can while it
  // has not brought enough breaches.
  ghost predicate Paid(settings: RiskSettings, core: Core, threshold: real, alarms: nat, stretches: nat) {
    && alarms <= stretches
    && (InStretch(core, threshold) && CountAtLeast(core.history, threshold) < settings.breachK ==> alarms < stretches)
  }

  lemma StepIsPaid(settings: RiskSettings, core: Core, value: real, bound: RiskLevel, alarms: nat, stretches: nat)
    requires settings.Valid() && LevelAgrees(settings, core) && |core.history| <= settings.breachN
    requires bound in {Medium, High} && Paid(settings, core, ThresholdOf(settings, bound), alarms, stretches)
    ensures var next, threshold := Advance(settings, core, value), ThresholdOf(settings, bound);
            Paid(settings, next, threshold, alarms + (if Rises(core.level, next.level, bound) then 1 else 0),
                 stretches + (if !InStretch(core, threshold) && InStretch(next, threshold) then 1 else 0))
  {
    var next, threshold := Advance(settings, core, value), ThresholdOf(settings, bound);
    PushMovesCount(core.history, next.smoothed.value, settings.breachN, threshold);
    if Rises(core.level, next.level, bound) {
      RiseIsCounted(settings, core, value, bound);
    }
  }

  lemma {:induction false} AlarmsArePaid(settings: RiskSettings, values: seq<real>, bound: RiskLevel)
    requires settings.Valid() && bound in {Medium, High}
    ensures var core, threshold := AdvanceAll(settings, ColdStart, values), ThresholdOf(settings, bound);
            && core.level != Unavailable && |core.history| <= settings.breachN && LevelAgrees(settings, core)
            && Paid(settings, core, threshold, Alarms(settings, values, bound), Stretches(settings, values, threshold))
  {
    if values != [] {
      var before, last := values[..|values| - 1], values[|values| - 1];
      AlarmsArePaid(settings, before, bound);
      var core := AdvanceAll(settings, ColdStart, before);
      AdvanceAgrees(settings, core, last);
      StepIsPaid(settings, core, last, bound, Alarms(settings, before, bound),
                 Stretches(settings, before, ThresholdOf(settings, bound)));
    }
  }

  /** Whatever the smoothing, the level rises to MEDIUM or above no more often than the scores
      reach the medium threshold, and to HIGH no more often than they reach the high one. */
  lemma AlarmsAreBounded(settings: RiskSettings, values: seq<real>, bound: RiskLevel)
    requires settings.Valid() && bound in {Medium, High}
    ensures Alarms(settings, values, bound) <= CountAtLeast(values, ThresholdOf(settings, bound))
  {
    AlarmsArePaid(settings, values, bound);
    StretchesAreBreaches(settings, values, ThresholdOf(settings, bound));
  }

  // ---------------------------------------------------------------------
  // The same of the engine
  // ---------------------------------------------------------------------

  function FusedScores(outcomes: seq<RiskOutcome>): seq<real> {
    if outcomes == [] then []
    else
      var last := outcomes[|outcomes| - 1];
      FusedScores(outcomes[..|outcomes| - 1]) + if last.trace.Some? then [last.trace.value.fusedScore] else []
  }

  /** The windows whose trace records a rise of the level to `bound` or above. */
  function EngineAlarms(outcomes: seq<RiskOutcome>, bound: RiskLevel): nat {
    if outcomes == [] then 0
    else
      var last := outcomes[|outcomes| - 1];
      EngineAlarms(outcomes[..|outcomes| - 1], bound)
      + if last.trace.Some? && Rises(last.trace.value.priorLevel, last.trace.value.resultingLevel, bound) then 1 else 0
  }

  // The windows scored at `bound` or above.
  function WindowsAt(outcomes: seq<RiskOutcome>, bound: RiskLevel): nat {
    if outcomes == [] then 0
    else
      var last := outcomes[|outcomes| - 1];
      WindowsAt(outcomes[..|outcomes| - 1], bound)
      + if last.trace.Some? && Rank(last.trace.value.resultingLevel) >= Rank(bound) then 1 else 0
  }

  // What one more outcome adds to each of these.
  lemma OneMoreOutcome(outcomes: seq<RiskOutcome>, outcome: RiskOutcome, bound: RiskLevel)
    ensures FusedScores(outcomes + [outcome]) ==
            FusedScores(outcomes) + if outcome.trace.Some? then [outcome.trace.value.fusedScore] else []
    ensures AdjustedScores(outcomes + [outcome]) ==
            AdjustedScores(outcomes) + if outcome.trace.Some? then [outcome.trace.value.adjustedScore] else []
    ensures EngineAlarms(outcomes + [outcome], bound) == EngineAlarms(outcomes, bound)
            + if outcome.trace.Some? && Rises(outcome.trace.value.priorLevel, outcome.trace.value.resultingLevel, bound) then 1 else 0
    ensures WindowsAt(outcomes + [outcome], bound) == WindowsAt(outcomes, bound)
            + if outcome.trace.Some? && Rank(outcome.trace.value.resultingLevel) >= Rank(bound) then 1 else 0
  {
    assert (outcomes + [outcome])[..|outcomes|] == outcomes;
  }

  // What a trace says of the step that made it.
  lemma TraceMeans(setup: Setup, s: EngineState, event: EngineEvent)
    requires setup.settings.Valid() && event.Valid()
    ensures var (s', more) := Step(setup, s, event);
            && |more| <= 1
            && (more == [] || more[0].trace.None? ==> s'.core == s.core)
            && (more != [] && more[0].trace.Some? ==>
                  && event.Window?
                  && var trace := more[0].trace.value;
                  && s'.core == Advance(setup.settings, s.core, trace.adjustedScore)
                  && trace.priorLevel == s.core.level && trace.resultingLevel == s'.core.level
                  && trace.adjustedScore == event.request.context.Adjust(trace.fusedScore) && 0.0 <= trace.fusedScore <= 1.0)
  {
    StepAdds(setup, s, event);
    if event.Window? {
      EvidenceIsUnit(setup.settings, event.request.score);
    }
  }

  ghost predicate Counted(setup: Setup, core: Core, outcomes: seq<RiskOutcome>, bound: RiskLevel) {
    && core == AdvanceAll(setup.settings, ColdStart, AdjustedScores(outcomes))
    && EngineAlarms(outcomes, bound) == Alarms(setup.settings, AdjustedScores(outcomes), bound)
    && |FusedScores(outcomes)| == |AdjustedScores(outcomes)|
  }

  lemma StepIsCounted(setup: Setup, s: EngineState, outcomes: seq<RiskOutcome>, event: EngineEvent, bound: RiskLevel)
    requires setup.settings.Valid() && event.Valid() && Counted(setup, s.core, outcomes, bound)
    ensures var (s', more) := Step(setup, s, event); Counted(setup, s'.core, outcomes + more, bound)
  {
    TraceMeans(setup, s, event);
    var more := Step(setup, s, event).1;
    if more == [] {
      assert outcomes + more == outcomes;
    } else {
      assert more == [more[0]];
      OneMoreOutcome(outcomes, more[0], bound);
      if more[0].trace.Some? {
        var scores := AdjustedScores(outcomes);
        assert (scores + [more[0].trace.value.adjustedScore])[..|scores|] == scores;
      } else {
        assert AdjustedScores(outcomes) + [] == AdjustedScores(outcomes) && FusedScores(outcomes) + [] == FusedScores(outcomes);
      }
    }
  }

  lemma {:induction false} RunIsCounted(setup: Setup, user: Machine, events: seq<EngineEvent>, bound: RiskLevel)
    requires setup.settings.Valid() && ValidEvents(events)
    ensures var (end, outcomes) := Run(setup, Cold(user), events); Counted(setup, end.core, outcomes, bound)
    decreases |events|
  {
    if events != [] {
      var j := |events| - 1;
      RunIsCounted(setup, user, events[..j], bound);
      var (before, outcomes) := Run(setup, Cold(user), events[..j]);
      StepIsCounted(setup, before, outcomes, events[j], bound);
    }
  }

  // Damping never raises a score.
  lemma DampedStep(setup: Setup, s: EngineState, outcomes: seq<RiskOutcome>, event: EngineEvent, threshold: real)
    requires setup.settings.Valid() && event.Valid()
    requires event.Window? ==> !event.request.context.NormalizationAvailable()
    requires CountAtLeast(AdjustedScores(outcomes), threshold) <= CountAtLeast(FusedScores(outcomes), threshold)
    ensures var more := Step(setup, s, event).1;
            CountAtLeast(AdjustedScores(outcomes + more), threshold) <= CountAtLeast(FusedScores(outcomes + more), threshold)
  {
    TraceMeans(setup, s, event);
    var more := Step(setup, s, event).1;
    if more == [] {
      assert outcomes + more == outcomes;
    } else {
      assert more == [more[0]];
      OneMoreOutcome(outcomes, more[0], Medium);
      var adjusted, fused := AdjustedScores(outcomes), FusedScores(outcomes);
      if more[0].trace.Some? {
        var trace := more[0].trace.value;
        DampingLowers(event.request.context, trace.fusedScore);
        CountsGrow(adjusted, fused, trace.adjustedScore, trace.fusedScore, threshold);
      } else {
        assert adjusted + [] == adjusted && fused + [] == fused;
      }
    }
  }

  lemma CountsGrow(xs: seq<real>, ys: seq<real>, x: real, y: real, threshold: real)
    requires CountAtLeast(xs, threshold) <= CountAtLeast(ys, threshold) && x <= y
    ensures CountAtLeast(xs + [x], threshold) <= CountAtLeast(ys + [y], threshold)
  {
    assert (xs + [x])[..|xs|] == xs && (ys + [y])[..|ys|] == ys;
  }

  lemma DampingLowers(context: ContextAssessment, fused: real)
    requires context.Valid() && !context.NormalizationAvailable() && 0.0 <= fused
    ensures context.Adjust(fused) <= fused
  {
    ShareIsLess(fused, context.confidence);
  }

  lemma ShareIsLess(x: real, weight: real)
    requires 0.0 <= x && weight <= 1.0
    ensures x * weight <= x
  {
    assert x * (1.0 - weight) >= 0.0;
  }

  lemma {:induction false} DampedRun(setup: Setup, user: Machine, events: seq<EngineEvent>, threshold: real)
    requires setup.settings.Valid() && ValidEvents(events) && Replay.Damped(events)
    ensures var outcomes := Run(setup, Cold(user), events).1;
            CountAtLeast(AdjustedScores(outcomes), threshold) <= CountAtLeast(FusedScores(outcomes), threshold)
    decreases |events|
  {
    if events != [] {
      var j := |events| - 1;
      DampedRun(setup, user, events[..j], threshold);
      var (before, outcomes) := Run(setup, Cold(user), events[..j]);
      DampedStep(setup, before, outcomes, events[j], threshold);
    }
  }

  /** Over every run, in either adjustment mode, the level rises no more often than the
      adjusted scores breach; with damping, no more often than the fused scores do. */
  lemma EngineAlarmsAreBounded(setup: Setup, user: Machine, events: seq<EngineEvent>, bound: RiskLevel)
    requires setup.settings.Valid() && ValidEvents(events) && bound in {Medium, High}
    ensures var outcomes, threshold := Run(setup, Cold(user), events).1, ThresholdOf(setup.settings, bound);
            && EngineAlarms(outcomes, bound) <= CountAtLeast(AdjustedScores(outcomes), threshold)
            && (Replay.Damped(events) ==> EngineAlarms(outcomes, bound) <= CountAtLeast(FusedScores(outcomes), threshold))
  {
    RunIsCounted(setup, user, events, bound);
    var outcomes := Run(setup, Cold(user), events).1;
    AlarmsAreBounded(setup.settings, AdjustedScores(outcomes), bound);
    if Replay.Damped(events) {
      DampedRun(setup, user, events, ThresholdOf(setup.settings, bound));
    }
  }

  /** What the measured rate bounds: on the windows it was measured on, damped, the fraction
      of scored windows at which the engine leaves LOW is at most the rate. */
  lemma RateBoundsAlarms(setup: Setup, user: Machine, events: seq<EngineEvent>,
                         windows: seq<FalseRejection.WindowScores>)
    requires setup.settings.Valid() && ValidEvents(events) && Replay.Damped(events) && FalseRejection.AllValid(windows)
    requires FusedScores(Run(setup, Cold(user), events).1) == FalseRejection.EngineRisks(setup.settings, windows) != []
    ensures var outcomes := Run(setup, Cold(user), events).1;
            var rate := FalseRejection.RejectionRate(FalseRejection.FusedAll(setup.settings, windows), setup.settings.mediumThreshold);
            rate.Some? && Ratio(EngineAlarms(outcomes, Medium) as real, |FusedScores(outcomes)| as real) <= rate.value
  {
    EngineAlarmsAreBounded(setup, user, events, Medium);
    FalseRejection.RateIsTheEnginesRate(setup.settings, windows);
    var scores := FusedScores(Run(setup, Cold(user), events).1);
    RatioIsMonotone(EngineAlarms(Run(setup, Cold(user), events).1, Medium) as real,
                    CountAtLeast(scores, setup.settings.mediumThreshold) as real, |scores| as real);
  }

  lemma RatioIsMonotone(x: real, y: real, total: real)
    requires x <= y && total > 0.0
    ensures Ratio(x, total) <= Ratio(y, total)
  {
  }
}
