/** The risk level as the scores tell it: when it rises, how long it holds, when it falls. */
module Levels {
  import opened Wrappers
  import opened RiskTypes
  import opened RiskCore
  import opened Deques
  import opened UserStates
  import opened RiskEngines
  import opened EngineRuns

  // ---------------------------------------------------------------------
  // What the last scores say
  // ---------------------------------------------------------------------

  /** At least breach_k of the last breach_n scores reach the threshold. */
  predicate Breached(settings: RiskSettings, scores: seq<real>, threshold: real) {
    CountAtLeast(LastN(scores, settings.breachN), threshold) >= settings.breachK
  }

  /** The last breach_n scores exist and are all below the threshold. */
  predicate Calm(settings: RiskSettings, scores: seq<real>, threshold: real) {
    |scores| >= settings.breachN && AllBelow(LastN(scores, settings.breachN), threshold)
  }

  // Begun by the j-th score, and ended by none since.
  ghost predicate LastsFrom(scores: seq<real>, begins: seq<real> -> bool, ends: seq<real> -> bool, j: nat) {
    && 1 <= j <= |scores| && begins(scores[..j])
    && forall i :: j < i <= |scores| ==> !ends(scores[..i])
  }

  ghost predicate Lasts(scores: seq<real>, begins: seq<real> -> bool, ends: seq<real> -> bool) {
    exists j: nat :: LastsFrom(scores, begins, ends, j)
  }

  function Breaches(settings: RiskSettings, threshold: real): seq<real> -> bool {
    (scores: seq<real>) => Breached(settings, scores, threshold)
  }

  function Calms(settings: RiskSettings, threshold: real): seq<real> -> bool {
    (scores: seq<real>) => Calm(settings, scores, threshold)
  }

  /** The high threshold was breached, with no calm below it since. */
  ghost predicate StandsHigh(settings: RiskSettings, scores: seq<real>) {
    Lasts(scores, Breaches(settings, settings.highThreshold), Calms(settings, settings.highThreshold))
  }

  /** What ends an elevation: calm below the medium threshold, or, from HIGH, calm below the
      high one when too few scores breach the medium one. */
  ghost predicate Clears(settings: RiskSettings, scores: seq<real>) {
    || Calm(settings, scores, settings.mediumThreshold)
    || (scores != [] && StandsHigh(settings, scores[..|scores| - 1])
        && Calm(settings, scores, settings.highThreshold) && !Breached(settings, scores, settings.mediumThreshold))
  }

  ghost function Clearings(settings: RiskSettings): seq<real> -> bool {
    (scores: seq<real>) => Clears(settings, scores)
  }

  /** The medium threshold was breached, with nothing to clear it since. */
  ghost predicate StandsElevated(settings: RiskSettings, scores: seq<real>) {
    Lasts(scores, Breaches(settings, settings.mediumThreshold), Clearings(settings))
  }

  // ---------------------------------------------------------------------
  // One score more
  // ---------------------------------------------------------------------

  lemma LastsFromEarlier(before: seq<real>, x: real, begins: seq<real> -> bool, ends: seq<real> -> bool, j: nat)
    requires j <= |before|
    ensures LastsFrom(before + [x], begins, ends, j) <==> LastsFrom(before, begins, ends, j) && !ends(before + [x])
  {
    var scores := before + [x];
    assert scores[..|scores|] == scores;
    assert forall i :: 0 <= i <= |before| ==> scores[..i] == before[..i];
  }

  lemma LastingGoesOn(before: seq<real>, x: real, begins: seq<real> -> bool, ends: seq<real> -> bool)
    ensures var scores := before + [x];
            Lasts(scores, begins, ends) <==> begins(scores) || (Lasts(before, begins, ends) && !ends(scores))
  {
    var scores := before + [x];
    assert scores[..|scores|] == scores;
    assert LastsFrom(scores, begins, ends, |scores|) <==> begins(scores);
    forall j: nat | j <= |before|
      ensures LastsFrom(scores, begins, ends, j) <==> LastsFrom(before, begins, ends, j) && !ends(scores)
    {
      LastsFromEarlier(before, x, begins, ends, j);
    }
  }

  // The level that these scores stand for.
  ghost predicate Tells(settings: RiskSettings, scores: seq<real>, level: RiskLevel) {
    && level != Unavailable
    && (level == High <==> StandsHigh(settings, scores))
    && (level in {Medium, High} <==> StandsElevated(settings, scores))
  }

  // What the last scores say, about both thresholds at once.
  lemma CountsCompare(settings: RiskSettings, scores: seq<real>)
    requires settings.Valid()
    ensures Breached(settings, scores, settings.highThreshold) ==> Breached(settings, scores, settings.mediumThreshold)
    ensures Calm(settings, scores, settings.mediumThreshold) ==> Calm(settings, scores, settings.highThreshold)
    ensures Calm(settings, scores, settings.highThreshold) ==> !Breached(settings, scores, settings.highThreshold)
    ensures Calm(settings, scores, settings.mediumThreshold) ==> !Breached(settings, scores, settings.mediumThreshold)
  {
    var history := LastN(scores, settings.breachN);
    CountIsAntitone(history, settings.mediumThreshold, settings.highThreshold);
    CountIsBounded(history, settings.highThreshold);
    CountIsBounded(history, settings.mediumThreshold);
  }

  lemma LevelGoesOn(settings: RiskSettings, before: seq<real>, x: real, level: RiskLevel, level': RiskLevel)
    requires settings.Valid() && Tells(settings, before, level)
    requires var history := LastN(before + [x], settings.breachN);
             level' == WithHysteresis(settings, history, level, Candidate(settings, history))
    ensures Tells(settings, before + [x], level')
  {
    var scores := before + [x];
    LastingGoesOn(before, x, Breaches(settings, settings.highThreshold), Calms(settings, settings.highThreshold));
    LastingGoesOn(before, x, Breaches(settings, settings.mediumThreshold), Clearings(settings));
    CountsCompare(settings, scores);
    assert scores[..|scores| - 1] == before;
  }

  // ---------------------------------------------------------------------
  // Over whole runs
  // ---------------------------------------------------------------------

  lemma StepTells(setup: Setup, s: EngineState, outcomes: seq<RiskOutcome>, event: EngineEvent)
    requires setup.settings.Valid() && event.Valid()
    requires s.core.history == LastN(SmoothedScores(outcomes), setup.settings.breachN)
    requires Tells(setup.settings, SmoothedScores(outcomes), s.core.level)
    ensures var (s', more) := Step(setup, s, event);
            Tells(setup.settings, SmoothedScores(outcomes + more), s'.core.level)
  {
    var (s', more) := Step(setup, s, event);
    StepAdds(setup, s, event);
    ScoresAppend(outcomes, more);
    if more == [] {
      assert SmoothedScores(outcomes) + [] == SmoothedScores(outcomes);
    } else {
      ScoresOfOne(more);
      if more[0].trace.Some? {
        LastNAppend(SmoothedScores(outcomes), more[0].trace.value.smoothedScore, setup.settings.breachN);
        LevelGoesOn(setup.settings, SmoothedScores(outcomes), more[0].trace.value.smoothedScore, s.core.level, s'.core.level);
      } else {
        assert SmoothedScores(outcomes) + [] == SmoothedScores(outcomes);
      }
    }
  }

  /** Main result: over any run of the engine the level is read off the smoothed scores. It is
      HIGH exactly when some earlier breach of the high threshold has been followed by no
      calm below it, and MEDIUM or HIGH exactly when some earlier breach of the medium one
      has been followed by nothing that clears it. */
  lemma {:induction false} LevelIsItsScores(setup: Setup, user: Machine, events: seq<EngineEvent>)
    requires setup.settings.Valid() && user.Valid() && ValidEvents(events)
    ensures var (end, outcomes) := Run(setup, Cold(user), events);
            Tells(setup.settings, SmoothedScores(outcomes), end.core.level)
    decreases |events|
  {
    if events == [] {
      assert !StandsHigh(setup.settings, []) && !StandsElevated(setup.settings, []);
    } else {
      var before := events[..|events| - 1];
      LevelIsItsScores(setup, user, before);
      HistoryIsTheLastScores(setup, user, before);
      var (s, outcomes) := Run(setup, Cold(user), before);
      StepTells(setup, s, outcomes, events[|events| - 1]);
    }
  }
}
