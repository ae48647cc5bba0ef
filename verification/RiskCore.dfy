/** Fusion, smoothing, breach counting and hysteresis: the arithmetic of the risk level. */
module RiskCore {
  import opened Wrappers
  import opened RiskTypes
  import opened Deques

  // ---------------------------------------------------------------------
  // Fusion
  // ---------------------------------------------------------------------

  datatype Fused = Fused(score: real, keyboardUsed: real, mouseUsed: real)

  /** The availability-renormalised weighted mean, or None where the engine raises. */
  function Fusion(settings: RiskSettings, score: ScoreResult): Option<Fused> {
    var weighted :=
      (if score.keyboard.available && score.keyboard.calibrated.Some?
       then [(score.keyboard.calibrated.value, settings.keyboardWeight)] else [])
      + (if score.mouse.available && score.mouse.calibrated.Some?
         then [(score.mouse.calibrated.value, settings.mouseWeight)] else []);
    var total := TotalWeight(weighted);
    if weighted == [] || total <= 0.0 then None
    else
      Some(Fused(Ratio(TotalScore(weighted), total),
                 if score.keyboard.available then Ratio(settings.keyboardWeight, total) else 0.0,
                 if score.mouse.available then Ratio(settings.mouseWeight, total) else 0.0))
  }

  function Ratio(numerator: real, denominator: real): real
    requires denominator != 0.0
  {
    numerator / denominator
  }

  function TotalWeight(weighted: seq<(real, real)>): real {
    if weighted == [] then 0.0 else TotalWeight(weighted[..|weighted| - 1]) + weighted[|weighted| - 1].1
  }

  function TotalScore(weighted: seq<(real, real)>): real {
    if weighted == [] then 0.0
    else TotalScore(weighted[..|weighted| - 1]) + weighted[|weighted| - 1].0 * weighted[|weighted| - 1].1
  }

  // The fused value of two available modalities.
  function BothFused(k: real, kw: real, m: real, mw: real): Fused
    requires kw > 0.0 && mw > 0.0
  {
    Fused(Ratio(k * kw + m * mw, kw + mw), Ratio(kw, kw + mw), Ratio(mw, kw + mw))
  }

  // What fusion computes in each availability case, free of the lists.
  lemma FusionCases(settings: RiskSettings, score: ScoreResult)
    requires settings.Valid() && score.Valid()
    ensures Fusion(settings, score) ==
            if score.keyboard.available && score.mouse.available then
              Some(BothFused(score.keyboard.calibrated.value, settings.keyboardWeight,
                             score.mouse.calibrated.value, settings.mouseWeight))
            else if score.keyboard.available then Some(Fused(score.keyboard.calibrated.value, 1.0, 0.0))
            else if score.mouse.available then Some(Fused(score.mouse.calibrated.value, 0.0, 1.0))
            else None
  {
    if score.keyboard.available {
      var keyboard := (score.keyboard.calibrated.value, settings.keyboardWeight);
      if score.mouse.available {
        var mouse := (score.mouse.calibrated.value, settings.mouseWeight);
        TotalsOfTwo(keyboard, mouse);
        var sum, total := TotalScore([keyboard] + [mouse]), TotalWeight([keyboard] + [mouse]);
        assert sum == keyboard.0 * keyboard.1 + mouse.0 * mouse.1;
        var direct := score.keyboard.calibrated.value * settings.keyboardWeight
                      + score.mouse.calibrated.value * settings.mouseWeight;
        assert sum == direct;
        assert total == settings.keyboardWeight + settings.mouseWeight;
        assert Ratio(sum, total) == Ratio(direct, settings.keyboardWeight + settings.mouseWeight);
        var fused := Fused(Ratio(sum, total), Ratio(keyboard.1, total), Ratio(mouse.1, total));
        assert Fusion(settings, score) == Some(fused);
        assert fused == BothFused(score.keyboard.calibrated.value, settings.keyboardWeight,
                                  score.mouse.calibrated.value, settings.mouseWeight);
      } else {
        assert [keyboard] + [] == [keyboard];
        TotalsOfOne(keyboard);
      }
    } else if score.mouse.available {
      var mouse := (score.mouse.calibrated.value, settings.mouseWeight);
      assert [] + [mouse] == [mouse];
      TotalsOfOne(mouse);
    }
  }

  lemma TotalsOfOne(a: (real, real))
    requires a.1 > 0.0
    ensures TotalWeight([a]) == a.1 && Ratio(TotalScore([a]), a.1) == a.0 && Ratio(a.1, a.1) == 1.0
  {
    assert [a][..0] == [];
    assert TotalScore([a]) == a.0 * a.1;
    CancelFactor(a.0, a.1);
  }

  lemma TotalsOfTwo(a: (real, real), b: (real, real))
    ensures TotalWeight([a] + [b]) == a.1 + b.1
    ensures TotalScore([a] + [b]) == a.0 * a.1 + b.0 * b.1
  {
    assert ([a] + [b])[..1] == [a] && [a][..0] == [];
    assert TotalWeight([a]) == a.1 && TotalScore([a]) == a.0 * a.1;
  }

  lemma CancelFactor(x: real, factor: real)
    requires factor > 0.0
    ensures x * factor / factor == x && factor / factor == 1.0
  {
  }

  /** Fusion fails exactly when no modality is available, and otherwise its value lies
      within whatever bounds the available scores share, with shares that sum to one. */
  lemma FusionIsAMean(settings: RiskSettings, score: ScoreResult, low: real, high: real)
    requires settings.Valid() && score.Valid()
    requires score.keyboard.available ==> low <= score.keyboard.calibrated.value <= high
    requires score.mouse.available ==> low <= score.mouse.calibrated.value <= high
    ensures Fusion(settings, score).None? <==> !score.keyboard.available && !score.mouse.available
    ensures Fusion(settings, score).Some? ==>
              var fused := Fusion(settings, score).value;
              low <= fused.score <= high && fused.keyboardUsed + fused.mouseUsed == 1.0
  {
    if score.keyboard.available && score.mouse.available {
      var k, m := score.keyboard.calibrated.value, score.mouse.calibrated.value;
      var fused := BothFused(k, settings.keyboardWeight, m, settings.mouseWeight);
      assert Fusion(settings, score) == Some(fused) by { FusionCases(settings, score); }
      BothFusedIsAMean(k, settings.keyboardWeight, m, settings.mouseWeight, low, high);
    } else {
      FusionCases(settings, score);
    }
  }

  /** The score is mixed by the shares reported with it, which are in proportion to the weights,
      and a modality has a share exactly when it is available. */
  lemma SharesFollowTheWeights(settings: RiskSettings, score: ScoreResult)
    requires settings.Valid() && score.Valid() && Fusion(settings, score).Some?
    ensures var fused := Fusion(settings, score).value;
            && (fused.keyboardUsed > 0.0 <==> score.keyboard.available)
            && (fused.mouseUsed > 0.0 <==> score.mouse.available)
            && (score.keyboard.available && score.mouse.available ==>
                  fused.keyboardUsed * settings.mouseWeight == fused.mouseUsed * settings.keyboardWeight)
            && fused.score == (if score.keyboard.available then score.keyboard.calibrated.value * fused.keyboardUsed else 0.0)
                              + (if score.mouse.available then score.mouse.calibrated.value * fused.mouseUsed else 0.0)
  {
    FusionCases(settings, score);
    if score.keyboard.available && score.mouse.available {
      MixIsProportional(score.keyboard.calibrated.value, settings.keyboardWeight,
                        score.mouse.calibrated.value, settings.mouseWeight);
    }
  }

  lemma MixIsProportional(k: real, kw: real, m: real, mw: real)
    requires kw > 0.0 && mw > 0.0
    ensures var fused := BothFused(k, kw, m, mw);
            && fused.keyboardUsed > 0.0 && fused.mouseUsed > 0.0
            && fused.keyboardUsed * mw == fused.mouseUsed * kw
            && fused.score == k * fused.keyboardUsed + m * fused.mouseUsed
  {
    var total := kw + mw;
    var x, y := kw / total, mw / total;
    assert x * total == kw && y * total == mw;
    assert x > 0.0 && y > 0.0;
    assert x * mw == y * kw by { assert x * (y * total) == y * (x * total); }
    var mix := k * x + m * y;
    assert mix * total == k * kw + m * mw by {
      assert k * x * total == k * (x * total);
      assert m * y * total == m * (y * total);
      assert mix * total == k * x * total + m * y * total;
    }
    CancelFactor(mix, total);
  }

  lemma BothFusedIsAMean(k: real, kw: real, m: real, mw: real, low: real, high: real)
    requires kw > 0.0 && mw > 0.0 && low <= k <= high && low <= m <= high
    ensures var fused := BothFused(k, kw, m, mw);
            low <= fused.score <= high && fused.keyboardUsed + fused.mouseUsed == 1.0
  {
    MeanIsBetween(k, kw, m, mw);
    SharesSumToOne(kw, mw);
  }

  lemma SharesSumToOne(kw: real, mw: real)
    requires kw > 0.0 && mw > 0.0
    ensures Ratio(kw, kw + mw) + Ratio(mw, kw + mw) == 1.0
  {
    assert kw / (kw + mw) + mw / (kw + mw) == (kw + mw) / (kw + mw);
  }

  lemma MeanIsBetween(k: real, kw: real, m: real, mw: real)
    requires kw > 0.0 && mw > 0.0
    ensures RealMin(k, m) <= Ratio(k * kw + m * mw, kw + mw) <= RealMax(k, m)
  {
    var low, high, total := RealMin(k, m), RealMax(k, m), kw + mw;
    var sum := k * kw + m * mw;
    var lowK, lowM, highK, highM := low * kw, low * mw, high * kw, high * mw;
    assert lowK <= k * kw <= highK by { ProductIsMonotone(low, k, kw); ProductIsMonotone(k, high, kw); }
    assert lowM <= m * mw <= highM by { ProductIsMonotone(low, m, mw); ProductIsMonotone(m, high, mw); }
    BetweenMultiples(low, high, sum, total) by {
      assert low * total == lowK + lowM && high * total == highK + highM;
    }
  }

  lemma BetweenMultiples(low: real, high: real, sum: real, total: real)
    requires total > 0.0 && low * total <= sum <= high * total
    ensures low <= sum / total <= high
  {
    CancelFactor(low, total);
    CancelFactor(high, total);
    DivisionIsMonotone(low * total, sum, total);
    DivisionIsMonotone(sum, high * total, total);
  }

  // ---------------------------------------------------------------------
  // The risk level
  // ---------------------------------------------------------------------

  /** The three fields that carry the level from one scored window to the next. */
  datatype Core = Core(history: seq<real>, smoothed: Option<real>, level: RiskLevel)
  {
    ghost predicate Valid(settings: RiskSettings) {
      && |history| <= settings.breachN
      && (forall v :: v in history ==> 0.0 <= v <= 1.0)
      && (smoothed.Some? ==> 0.0 <= smoothed.value <= 1.0)
      && level != Unavailable
    }
  }

  const ColdStart := Core([], None, Low)

  function Pushed(history: seq<real>, value: real, capacity: nat): (r: seq<real>)
    ensures |r| <= capacity
    ensures |history| < capacity ==> |r| == |history| + 1
    ensures |history| == capacity ==> |r| == capacity
    ensures capacity > 0 ==> r != [] && r[|r| - 1] == value
  {
    LastN(history + [value], capacity)
  }

  function Rank(level: RiskLevel): int {
    match level case Low => 0 case Medium => 1 case High => 2 case Unavailable => -1
  }

  function CountAtLeast(history: seq<real>, threshold: real): nat {
    if history == [] then 0
    else CountAtLeast(history[..|history| - 1], threshold) + if history[|history| - 1] >= threshold then 1 else 0
  }

  predicate AllBelow(history: seq<real>, boundary: real) {
    forall i :: 0 <= i < |history| ==> history[i] < boundary
  }

  ghost predicate AllAtLeast(history: seq<real>, boundary: real) {
    forall i :: 0 <= i < |history| ==> history[i] >= boundary
  }

  ghost predicate AllAtMost(history: seq<real>, boundary: real) {
    forall i :: 0 <= i < |history| ==> history[i] <= boundary
  }

  function Smoothed(settings: RiskSettings, previous: Option<real>, adjusted: real): real {
    if previous.None? then adjusted
    else settings.ewmaAlpha * adjusted + (1.0 - settings.ewmaAlpha) * previous.value
  }

  function Candidate(settings: RiskSettings, history: seq<real>): RiskLevel {
    if CountAtLeast(history, settings.highThreshold) >= settings.breachK then High
    else if CountAtLeast(history, settings.mediumThreshold) >= settings.breachK then Medium
    else Low
  }

  function WithHysteresis(settings: RiskSettings, history: seq<real>, current: RiskLevel,
                          candidate: RiskLevel): RiskLevel {
    if Rank(candidate) >= Rank(current) then candidate
    else if |history| < settings.breachN then current
    else
      var boundary := if current == High then settings.highThreshold else settings.mediumThreshold;
      if AllBelow(history, boundary) then candidate else current
  }

  /** One scored window. */
  function Advance(settings: RiskSettings, core: Core, adjusted: real): Core {
    var smoothed := Smoothed(settings, core.smoothed, adjusted);
    var history := Pushed(core.history, smoothed, settings.breachN);
    Core(history, Some(smoothed), WithHysteresis(settings, history, core.level, Candidate(settings, history)))
  }

  function AdvanceAll(settings: RiskSettings, core: Core, values: seq<real>): Core {
    if values == [] then core
    else Advance(settings, AdvanceAll(settings, core, values[..|values| - 1]), values[|values| - 1])
  }

  // ---------------------------------------------------------------------
  // Facts about counting
  // ---------------------------------------------------------------------

  lemma {:induction false} CountIsBounded(history: seq<real>, threshold: real)
    ensures CountAtLeast(history, threshold) <= |history|
    ensures CountAtLeast(history, threshold) == |history| <==> AllAtLeast(history, threshold)
    ensures CountAtLeast(history, threshold) == 0 <==> AllBelow(history, threshold)
  {
    if history != [] {
      var rest := history[..|history| - 1];
      CountIsBounded(rest, threshold);
      if AllAtLeast(rest, threshold) && history[|rest|] >= threshold {
        assert AllAtLeast(history, threshold);
      }
    }
  }

  lemma {:induction false} CountIsAntitone(history: seq<real>, low: real, high: real)
    requires low <= high
    ensures CountAtLeast(history, high) <= CountAtLeast(history, low)
  {
    if history != [] {
      CountIsAntitone(history[..|history| - 1], low, high);
    }
  }

  // A run of `count` breaches at the end of the history is counted in full.
  lemma {:induction false} CountOfTail(history: seq<real>, threshold: real, count: nat)
    requires count <= |history|
    requires forall i :: |history| - count <= i < |history| ==> history[i] >= threshold
    ensures CountAtLeast(history, threshold) >= count
  {
    if count > 0 {
      CountOfTail(history[..|history| - 1], threshold, count - 1);
    }
  }

  // ---------------------------------------------------------------------
  // Invariants of the level
  // ---------------------------------------------------------------------

  lemma BlendStaysInUnit(alpha: real, x: real, y: real)
    requires 0.0 < alpha <= 1.0 && 0.0 <= x <= 1.0 && 0.0 <= y <= 1.0
    ensures 0.0 <= alpha * x + (1.0 - alpha) * y <= 1.0
  {
    var beta := 1.0 - alpha;
    var left, right := alpha * x, beta * y;
    assert 0.0 <= left <= alpha by { ShareOfUnit(alpha, x); }
    assert 0.0 <= right <= beta by { ShareOfUnit(beta, y); }
  }

  lemma ShareOfUnit(weight: real, x: real)
    requires 0.0 <= weight && 0.0 <= x <= 1.0
    ensures 0.0 <= weight * x <= weight
  {
    assert weight * (1.0 - x) >= 0.0;
  }

  lemma AdvanceKeepsValid(settings: RiskSettings, core: Core, adjusted: real)
    requires settings.Valid() && core.Valid(settings) && 0.0 <= adjusted <= 1.0
    ensures Advance(settings, core, adjusted).Valid(settings)
  {
    SmoothingStaysInUnit(settings, core.smoothed, adjusted);
    PushKeepsRange(core.history, Smoothed(settings, core.smoothed, adjusted), settings.breachN);
  }

  lemma SmoothingStaysInUnit(settings: RiskSettings, previous: Option<real>, adjusted: real)
    requires settings.Valid() && 0.0 <= adjusted <= 1.0
    requires previous.Some? ==> 0.0 <= previous.value <= 1.0
    ensures 0.0 <= Smoothed(settings, previous, adjusted) <= 1.0
  {
    if previous.Some? {
      BlendStaysInUnit(settings.ewmaAlpha, adjusted, previous.value);
    }
  }

  lemma PushKeepsRange(history: seq<real>, value: real, capacity: nat)
    requires forall v :: v in history ==> 0.0 <= v <= 1.0
    requires 0.0 <= value <= 1.0
    ensures forall v :: v in Pushed(history, value, capacity) ==> 0.0 <= v <= 1.0
  {
    var grown := history + [value];
    assert forall v :: v in Pushed(history, value, capacity) ==> v in grown;
  }

  /** Escalation needs evidence and recovery needs a clean history: the level rises to
      L only when at least breach_k of the last breach_n smoothed scores reach L's
      threshold, and it falls from L only when all of the last breach_n are below it. */
  lemma LevelMovesOnEvidence(settings: RiskSettings, core: Core, adjusted: real)
    requires settings.Valid() && core.Valid(settings)
    ensures var next := Advance(settings, core, adjusted);
            && (Rank(next.level) > Rank(core.level) ==>
                  CountAtLeast(next.history, if next.level == High then settings.highThreshold
                                             else settings.mediumThreshold) >= settings.breachK)
            && (Rank(next.level) < Rank(core.level) ==>
                  && |next.history| == settings.breachN
                  && AllBelow(next.history, if core.level == High then settings.highThreshold
                                            else settings.mediumThreshold))
  {
    var next := Advance(settings, core, adjusted);
    CountIsBounded(next.history, settings.highThreshold);
    CountIsBounded(next.history, settings.mediumThreshold);
  }

  /** At every moment the level agrees with the history it was computed from: enough
      breaches force it up, a full quiet history forces it down. */
  ghost predicate LevelAgrees(settings: RiskSettings, core: Core) {
    && (CountAtLeast(core.history, settings.highThreshold) >= settings.breachK ==> core.level == High)
    && (CountAtLeast(core.history, settings.mediumThreshold) >= settings.breachK ==> core.level in {Medium, High})
    && (|core.history| == settings.breachN && AllBelow(core.history, settings.mediumThreshold) ==> core.level == Low)
    && (|core.history| == settings.breachN && AllBelow(core.history, settings.highThreshold) ==> core.level != High)
  }

  lemma AdvanceAgrees(settings: RiskSettings, core: Core, adjusted: real)
    requires settings.Valid() && core.level != Unavailable
    ensures LevelAgrees(settings, Advance(settings, core, adjusted))
  {
    var history := Advance(settings, core, adjusted).history;
    CountIsBounded(history, settings.highThreshold);
    CountIsBounded(history, settings.mediumThreshold);
    CountIsAntitone(history, settings.mediumThreshold, settings.highThreshold);
  }
}
