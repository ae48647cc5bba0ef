/** When the replay of the documented readings is right: the exact condition, over whole runs. */
module ReplayExactness {
  import opened Wrappers
  import opened RiskTypes
  import opened RiskCore
  import opened UserStates
  import opened RiskEngines
  import opened EngineRuns
  import opened Replay

  /** The smoothed scores a replay reports, one for each reading that carried a score. */
  function SmoothedOf(steps: seq<ReplayStep>): seq<real> {
    if steps == [] then []
    else
      var last := steps[|steps| - 1];
      SmoothedOf(steps[..|steps| - 1])
      + if last.level != Unavailable && last.smoothed.Some? then [last.smoothed.value] else []
  }

  /** The documented reading of a request says what the engine smooths: its adjustment is the
      damping that the reading's confidence stands for. */
  predicate DocumentsTheAdjustment(settings: RiskSettings, request: DecisionInput)
    requires request.Valid()
  {
    var evidence := Evidence(settings, request.score);
    evidence.Some? ==> request.context.Adjust(evidence.value) == Documented(settings, request).Adjusted()
  }

  // Event i of the run is a window that the engine takes.
  predicate TakenAt(setup: Setup, user: Machine, events: seq<EngineEvent>, i: nat)
    requires ValidEvents(events) && i < |events|
  {
    events[i].Window? && Step(setup, Run(setup, Cold(user), events[..i]).0, events[i]).1 != []
  }

  predicate DocumentedAt(setup: Setup, user: Machine, events: seq<EngineEvent>, i: nat)
    requires ValidEvents(events) && i < |events|
  {
    TakenAt(setup, user, events, i) ==> DocumentsTheAdjustment(setup.settings, events[i].request)
  }

  ghost predicate AllDocumented(setup: Setup, user: Machine, events: seq<EngineEvent>)
    requires ValidEvents(events)
  {
    forall i :: 0 <= i < |events| ==> DocumentedAt(setup, user, events, i)
  }

  // ---------------------------------------------------------------------
  // One step
  // ---------------------------------------------------------------------

  function LastOf(scores: seq<real>): Option<real> {
    if scores == [] then None else Some(scores[|scores| - 1])
  }

  lemma SmoothedOfAppend(steps: seq<ReplayStep>, step: ReplayStep)
    ensures SmoothedOf(steps + [step]) ==
            SmoothedOf(steps) + if step.level != Unavailable && step.smoothed.Some? then [step.smoothed.value] else []
  {
    assert (steps + [step])[..|steps|] == steps;
  }

  // The replay stands at the last score it reported.
  ghost predicate AtLastScore(s: ReplayState, steps: seq<ReplayStep>) {
    s.level != Unavailable && s.smoothed == LastOf(SmoothedOf(steps))
  }

  lemma {:induction false} ReplayStandsAtLastScore(p: OperatingPoint, readings: seq<Reading>)
    ensures AtLastScore(Replayed(p, readings).0, Replayed(p, readings).1)
    decreases |readings|
  {
    if readings != [] {
      var (before, steps) := Replayed(p, readings[..|readings| - 1]);
      ReplayStandsAtLastScore(p, readings[..|readings| - 1]);
      SmoothedOfAppend(steps, Next(p, before, readings[|readings| - 1]).1);
    }
  }

  // What a taken window of a decided user adds to the engine's scores.
  lemma TakenWindow(setup: Setup, s: EngineState, event: EngineEvent)
    requires ValidState(setup, s) && event.Valid() && Decided(s.user) && Step(setup, s, event).1 != []
    ensures var (s', more) := Step(setup, s, event);
            && event.Window? && |more| == 1
            && var evidence := Evidence(setup.settings, event.request.score);
            && s'.core.smoothed == (if evidence.None? then s.core.smoothed
                                    else Some(Smoothed(setup.settings, s.core.smoothed, event.request.context.Adjust(evidence.value))))
            && SmoothedScores(more) == (if evidence.None? then [] else [s'.core.smoothed.value])
  {
    StepAdds(setup, s, event);
    ProcessCases(setup.settings, setup.userId, s, event.request, event.decisionId);
    ScoresOfOne(Step(setup, s, event).1);
  }

  lemma {:induction false} EngineStandsAtLastScore(setup: Setup, user: Machine, events: seq<EngineEvent>)
    requires setup.settings.Valid() && ValidEvents(events)
    ensures var (end, outcomes) := Run(setup, Cold(user), events);
            end.core.smoothed == LastOf(SmoothedScores(outcomes))
    decreases |events|
  {
    if events != [] {
      var j := |events| - 1;
      EngineStandsAtLastScore(setup, user, events[..j]);
      var (before, outcomes) := Run(setup, Cold(user), events[..j]);
      StepStandsAtLastScore(setup, before, outcomes, events[j]);
    }
  }

  lemma StepStandsAtLastScore(setup: Setup, s: EngineState, outcomes: seq<RiskOutcome>, event: EngineEvent)
    requires setup.settings.Valid() && event.Valid() && s.core.smoothed == LastOf(SmoothedScores(outcomes))
    ensures var (s', more) := Step(setup, s, event);
            s'.core.smoothed == LastOf(SmoothedScores(outcomes + more))
  {
    StepAdds(setup, s, event);
    var more := Step(setup, s, event).1;
    ScoresAppend(outcomes, more);
    if more == [] {
      assert SmoothedScores(outcomes) + [] == SmoothedScores(outcomes);
    } else {
      ScoresOfOne(more);
    }
  }

  // Two smoothings from the same score agree exactly on equal readings.
  lemma SmoothingIsInjective(settings: RiskSettings, previous: Option<real>, x: real, y: real)
    requires settings.Valid()
    ensures Smoothed(settings, previous, x) == Smoothed(settings, previous, y) <==> x == y
  {
    if previous.Some? && x != y {
      SmoothedIsMean(settings, previous.value, x);
      SmoothedIsMean(settings, previous.value, y);
      MeansDiffer(settings.ewmaAlpha, x, y, previous.value);
    }
  }

  function Mean(alpha: real, x: real, previous: real): real {
    alpha * x + (1.0 - alpha) * previous
  }

  lemma SmoothedIsMean(settings: RiskSettings, previous: real, x: real)
    ensures Smoothed(settings, Some(previous), x) == Mean(settings.ewmaAlpha, x, previous)
  {
  }

  lemma MeansDiffer(alpha: real, x: real, y: real, previous: real)
    requires alpha > 0.0 && x != y
    ensures Mean(alpha, x, previous) != Mean(alpha, y, previous)
  {
    var gap := alpha * (x - y);
    assert gap != 0.0;
    assert Mean(alpha, x, previous) - Mean(alpha, y, previous) == gap;
  }

  lemma AppendsAgree(a: seq<real>, b: seq<real>, x: real, y: real)
    ensures a + [x] == b + [y] <==> a == b && x == y
  {
    if a + [x] == b + [y] {
      assert (a + [x])[|a|] == x && (b + [y])[|b|] == y;
      assert a == (a + [x])[..|a|] && b == (b + [y])[..|b|];
    }
  }

  // Each list goes on from its own last score; the longer lists agree exactly when the
  // shorter ones do and the readings are equal.
  lemma ListsAgree(settings: RiskSettings, reported: seq<real>, scores: seq<real>, x: real, y: real)
    requires settings.Valid()
    ensures reported + [Smoothed(settings, LastOf(reported), x)] == scores + [Smoothed(settings, LastOf(scores), y)]
            <==> reported == scores && x == y
  {
    AppendsAgree(reported, scores, Smoothed(settings, LastOf(reported), x), Smoothed(settings, LastOf(scores), y));
    SmoothingIsInjective(settings, LastOf(scores), x, y);
  }

  // One more reading, by what the replay reports for it.
  lemma ReplayReports(settings: RiskSettings, readings: seq<Reading>, reading: Reading)
    ensures var reported := SmoothedOf(Replayed(PointOf(settings), readings).1);
            SmoothedOf(Replayed(PointOf(settings), readings + [reading]).1) ==
            if reading.fused.None? then reported
            else reported + [Smoothed(settings, LastOf(reported), reading.Adjusted())]
  {
    var p := PointOf(settings);
    assert (readings + [reading])[..|readings|] == readings;
    var (replay, steps) := Replayed(p, readings);
    var (after, step) := Next(p, replay, reading);
    assert Replayed(p, readings + [reading]) == (after, steps + [step]);
    ReplayStandsAtLastScore(p, readings);
    SmoothedOfAppend(steps, step);
    if reading.fused.None? {
      assert SmoothedOf(steps) + [] == SmoothedOf(steps);
    } else {
      SmoothingAgrees(settings, replay.smoothed, reading.Adjusted());
      NextIsNeverUnavailable(p, replay, reading);
      assert step.smoothed == Some(Smoothed(settings, LastOf(SmoothedOf(steps)), reading.Adjusted()));
    }
  }

  lemma NextIsNeverUnavailable(p: OperatingPoint, s: ReplayState, reading: Reading)
    requires s.level != Unavailable && reading.fused.Some?
    ensures Next(p, s, reading).1.level != Unavailable
  {
  }

  // The replay of the readings reports the scores that the outcomes carry.
  predicate Same(setup: Setup, readings: seq<Reading>, outcomes: seq<RiskOutcome>) {
    SmoothedOf(Replayed(PointOf(setup.settings), readings).1) == SmoothedScores(outcomes)
  }

  // One taken window keeps the two lists equal exactly when its reading documents it.
  lemma OneWindowAgrees(setup: Setup, s: EngineState, outcomes: seq<RiskOutcome>, event: EngineEvent,
                        readings: seq<Reading>)
    requires ValidState(setup, s) && event.Valid() && Decided(s.user) && Step(setup, s, event).1 != []
    requires s.core.smoothed == LastOf(SmoothedScores(outcomes))
    ensures event.Window?
    ensures Same(setup, readings + [Documented(setup.settings, event.request)], outcomes + Step(setup, s, event).1)
            <==> Same(setup, readings, outcomes) && DocumentsTheAdjustment(setup.settings, event.request)
  {
    var more := Step(setup, s, event).1;
    TakenWindow(setup, s, event);
    ScoresAppend(outcomes, more);
    var documented := Documented(setup.settings, event.request);
    ReplayReports(setup.settings, readings, documented);
    var reported, scores := SmoothedOf(Replayed(PointOf(setup.settings), readings).1), SmoothedScores(outcomes);
    if documented.fused.None? {
      assert scores + [] == scores;
    } else {
      ListsAgree(setup.settings, reported, scores, documented.Adjusted(),
                 event.request.context.Adjust(documented.fused.value));
    }
  }

  // ---------------------------------------------------------------------
  // Whole runs
  // ---------------------------------------------------------------------

  lemma DocumentedEarlier(setup: Setup, user: Machine, events: seq<EngineEvent>, i: nat)
    requires ValidEvents(events) && i < |events| - 1
    ensures DocumentedAt(setup, user, events[..|events| - 1], i) <==> DocumentedAt(setup, user, events, i)
  {
    assert events[..|events| - 1][..i] == events[..i];
  }

  lemma AllDocumentedOneMore(setup: Setup, user: Machine, events: seq<EngineEvent>)
    requires ValidEvents(events) && events != []
    ensures var j := |events| - 1;
            AllDocumented(setup, user, events) <==>
              AllDocumented(setup, user, events[..j])
              && DocumentedAt(setup, user, events, j)
  {
    var j := |events| - 1;
    forall i | 0 <= i < j
      ensures DocumentedAt(setup, user, events[..j], i) <==> DocumentedAt(setup, user, events, i)
    {
      DocumentedEarlier(setup, user, events, i);
    }
  }

  /** Main result: over every run, in either adjustment mode, the replay of the documented
      readings reports the engine's smoothed scores exactly when every window taken has an
      adjustment that its reading documents. That is a property of each request alone. */
  lemma {:induction false} DocumentedReplayIsExact(setup: Setup, user: Machine, events: seq<EngineEvent>)
    requires setup.settings.Valid() && ValidEvents(events) && Decided(user) && NeverSuspended(events)
    ensures SmoothedOf(Replayed(PointOf(setup.settings), DocumentedReadings(setup, Cold(user), events)).1)
            == SmoothedScores(Run(setup, Cold(user), events).1)
            <==> AllDocumented(setup, user, events)
    decreases |events|
  {
    if events != [] {
      var j := |events| - 1;
      DocumentedReplayIsExact(setup, user, events[..j]);
      AllDocumentedOneMore(setup, user, events);
      LastEventAgrees(setup, user, events);
    }
  }

  lemma LastEventAgrees(setup: Setup, user: Machine, events: seq<EngineEvent>)
    requires setup.settings.Valid() && ValidEvents(events) && Decided(user) && NeverSuspended(events) && events != []
    ensures var j := |events| - 1;
            Same(setup, DocumentedReadings(setup, Cold(user), events), Run(setup, Cold(user), events).1) <==>
              Same(setup, DocumentedReadings(setup, Cold(user), events[..j]), Run(setup, Cold(user), events[..j]).1)
              && DocumentedAt(setup, user, events, j)
  {
    var j := |events| - 1;
    StandsDecided(setup, user, events[..j]);
    var (before, outcomes) := Run(setup, Cold(user), events[..j]);
    var readings := DocumentedReadings(setup, Cold(user), events[..j]);
    OneEventAgrees(setup, before, outcomes, events[j], readings);
    var more := Step(setup, before, events[j]).1;
    assert Run(setup, Cold(user), events).1 == outcomes + more;
    assert DocumentedReadings(setup, Cold(user), events)
           == readings + if more == [] then [] else [Documented(setup.settings, events[j].request)];
  }

  lemma OneEventAgrees(setup: Setup, s: EngineState, outcomes: seq<RiskOutcome>, event: EngineEvent,
                       readings: seq<Reading>)
    requires ValidState(setup, s) && event.Valid() && Decided(s.user)
    requires s.core.smoothed == LastOf(SmoothedScores(outcomes))
    ensures var more := Step(setup, s, event).1;
            && (more != [] ==> event.Window?)
            && (Same(setup, readings + if more == [] then [] else [Documented(setup.settings, event.request)], outcomes + more)
                <==> Same(setup, readings, outcomes)
                     && (event.Window? && more != [] ==> DocumentsTheAdjustment(setup.settings, event.request)))
  {
    if Step(setup, s, event).1 == [] {
      assert readings + [] == readings && outcomes + [] == outcomes;
    } else {
      OneWindowAgrees(setup, s, outcomes, event, readings);
    }
  }

  // After any run of a decided user the engine stands at its last score.
  lemma StandsDecided(setup: Setup, user: Machine, events: seq<EngineEvent>)
    requires setup.settings.Valid() && ValidEvents(events) && Decided(user) && NeverSuspended(events)
    ensures var (end, outcomes) := Run(setup, Cold(user), events);
            ValidState(setup, end) && Decided(end.user) && end.core.smoothed == LastOf(SmoothedScores(outcomes))
  {
    ReplayRefinesEngine(setup, user, events);
    RunFacts(setup, Cold(user), events);
    EngineStandsAtLastScore(setup, user, events);
  }

  /** With damping the condition always holds. */
  lemma DampingIsDocumented(settings: RiskSettings, request: DecisionInput)
    requires request.Valid() && !request.context.NormalizationAvailable()
    ensures DocumentsTheAdjustment(settings, request)
  {
    var evidence := Evidence(settings, request.score);
    if evidence.Some? {
      DampingIsAdjusted(request.context, evidence.value);
    }
  }
}
