/** How many scored windows the engine needs to raise, and to clear, a sustained change. */
module Latency {
  import opened Wrappers
  import opened RiskTypes
  import opened RiskCore
  import Policy

  /** The weight that m smoothing steps leave on the past. */
  function Power(base: real, exponent: nat): real {
    if exponent == 0 then 1.0 else base * Power(base, exponent - 1)
  }

  lemma {:induction false} PowerIsUnit(base: real, exponent: nat)
    requires 0.0 <= base <= 1.0
    ensures 0.0 <= Power(base, exponent) <= 1.0
  {
    if exponent > 0 {
      PowerIsUnit(base, exponent - 1);
      var rest := Power(base, exponent - 1);
      var product := base * rest;
      assert 0.0 <= product <= 1.0 by { DampingIn(rest, base); }
    }
  }

  lemma DampingIn(x: real, factor: real)
    requires 0.0 <= x <= 1.0 && 0.0 <= factor <= 1.0
    ensures 0.0 <= factor * x <= x
  {
  }

  lemma {:induction false} PowerDecreases(base: real, less: nat, more: nat)
    requires 0.0 <= base <= 1.0 && less <= more
    ensures Power(base, more) <= Power(base, less)
    decreases more - less
  {
    if less < more {
      PowerDecreases(base, less, more - 1);
      PowerIsUnit(base, more - 1);
      DampingIn(Power(base, more - 1), base);
    }
  }

  // ---------------------------------------------------------------------
  // Smoothing under sustained readings
  // ---------------------------------------------------------------------

  lemma BlendFromBelow(alpha: real, beta: real, value: real, bound: real, previous: real, memory: real)
    requires 0.0 < alpha <= 1.0 && beta == 1.0 - alpha
    requires value >= bound && previous >= bound - memory
    ensures alpha * value + beta * previous >= bound - beta * memory
  {
    var added, kept := alpha * value, beta * previous;
    assert added >= alpha * bound by { ProductIsMonotone(bound, value, alpha); }
    assert kept >= (bound - memory) * beta by { ProductIsMonotone(bound - memory, previous, beta); }
    assert alpha * bound + (bound - memory) * beta == bound - beta * memory;
  }

  lemma BlendFromAbove(alpha: real, beta: real, value: real, bound: real, previous: real, memory: real)
    requires 0.0 < alpha <= 1.0 && beta == 1.0 - alpha
    requires value <= bound && previous <= bound + memory
    ensures alpha * value + beta * previous <= bound + beta * memory
  {
    var added, kept := alpha * value, beta * previous;
    assert added <= alpha * bound by { ProductIsMonotone(value, bound, alpha); }
    assert kept <= (bound + memory) * beta by { ProductIsMonotone(previous, bound + memory, beta); }
    assert alpha * bound + (bound + memory) * beta == bound + beta * memory;
  }

  /** How far sustained readings of at least c must have lifted the score after j windows. */
  function RisingFloor(settings: RiskSettings, c: real, j: nat): real {
    c - Power(1.0 - settings.ewmaAlpha, j) * c
  }

  /** How far sustained readings of at most c must have lowered it. */
  function FallingCeiling(settings: RiskSettings, c: real, j: nat): real {
    c + Power(1.0 - settings.ewmaAlpha, j) * (1.0 - c)
  }

  lemma RiseOnce(settings: RiskSettings, previous: Option<real>, value: real, c: real, j: nat)
    requires settings.Valid() && value >= c >= 0.0
    requires previous.Some? ==> previous.value >= RisingFloor(settings, c, j)
    ensures Smoothed(settings, previous, value) >= RisingFloor(settings, c, j + 1)
  {
    var beta := 1.0 - settings.ewmaAlpha;
    var memory := Power(beta, j) * c;
    assert beta * memory == Power(beta, j + 1) * c;
    if previous.Some? {
      BlendFromBelow(settings.ewmaAlpha, beta, value, c, previous.value, memory);
    } else {
      PowerIsUnit(beta, j + 1);
      ProductIsMonotone(0.0, Power(beta, j + 1), c);
    }
  }

  lemma FallOnce(settings: RiskSettings, previous: Option<real>, value: real, c: real, j: nat)
    requires settings.Valid() && value <= c <= 1.0
    requires previous.Some? ==> previous.value <= FallingCeiling(settings, c, j)
    ensures Smoothed(settings, previous, value) <= FallingCeiling(settings, c, j + 1)
  {
    var beta := 1.0 - settings.ewmaAlpha;
    var memory := Power(beta, j) * (1.0 - c);
    assert beta * memory == Power(beta, j + 1) * (1.0 - c);
    if previous.Some? {
      BlendFromAbove(settings.ewmaAlpha, beta, value, c, previous.value, memory);
    } else {
      PowerIsUnit(beta, j + 1);
      ProductIsMonotone(0.0, Power(beta, j + 1), 1.0 - c);
    }
  }

  lemma FloorRises(settings: RiskSettings, c: real, less: nat, more: nat)
    requires settings.Valid() && 0.0 <= c && less <= more
    ensures RisingFloor(settings, c, less) <= RisingFloor(settings, c, more)
  {
    var beta := 1.0 - settings.ewmaAlpha;
    PowerDecreases(beta, less, more);
    ProductIsMonotone(Power(beta, more), Power(beta, less), c);
  }

  lemma CeilingFalls(settings: RiskSettings, c: real, less: nat, more: nat)
    requires settings.Valid() && c <= 1.0 && less <= more
    ensures FallingCeiling(settings, c, more) <= FallingCeiling(settings, c, less)
  {
    var beta := 1.0 - settings.ewmaAlpha;
    PowerDecreases(beta, less, more);
    ProductIsMonotone(Power(beta, more), Power(beta, less), 1.0 - c);
  }

  // After j readings of at least c the smoothed score has closed all but (1-alpha)^j of its gap to c.
  lemma {:induction false} SmoothedRises(settings: RiskSettings, core: Core, values: seq<real>, c: real)
    requires settings.Valid() && core.Valid(settings) && c >= 0.0
    requires AllAtLeast(values, c)
    ensures var smoothed := AdvanceAll(settings, core, values).smoothed;
            smoothed.Some? ==> smoothed.value >= RisingFloor(settings, c, |values|)
    decreases |values|
  {
    if values != [] {
      var j := |values| - 1;
      SmoothedRises(settings, core, values[..j], c);
      RiseOnce(settings, AdvanceAll(settings, core, values[..j]).smoothed, values[j], c, j);
    }
  }

  lemma {:induction false} SmoothedFalls(settings: RiskSettings, core: Core, values: seq<real>, c: real)
    requires settings.Valid() && core.Valid(settings) && c <= 1.0
    requires AllAtMost(values, c)
    ensures var smoothed := AdvanceAll(settings, core, values).smoothed;
            smoothed.Some? ==> smoothed.value <= FallingCeiling(settings, c, |values|)
    decreases |values|
  {
    if values != [] {
      var j := |values| - 1;
      SmoothedFalls(settings, core, values[..j], c);
      FallOnce(settings, AdvanceAll(settings, core, values[..j]).smoothed, values[j], c, j);
    }
  }

  // ---------------------------------------------------------------------
  // The breach history under sustained readings
  // ---------------------------------------------------------------------

  function Least(x: int, y: int): int {
    if x <= y then x else y
  }

  // From window m on every smoothed score is a breach, so the tail of the history is too.
  ghost predicate TailAtLeast(history: seq<real>, count: int, threshold: real) {
    count <= |history| && forall i :: |history| - count <= i < |history| && 0 <= i ==> history[i] >= threshold
  }

  ghost predicate TailBelow(history: seq<real>, count: int, boundary: real) {
    count <= |history| && forall i :: |history| - count <= i < |history| && 0 <= i ==> history[i] < boundary
  }

  lemma PushExtendsTail(history: seq<real>, value: real, capacity: nat, count: nat, threshold: real)
    requires TailAtLeast(history, count, threshold) && value >= threshold && 0 < capacity
    ensures TailAtLeast(Pushed(history, value, capacity), Least(count + 1, capacity), threshold)
  {
    var grown := history + [value];
    assert forall i :: |history| - count <= i < |grown| && 0 <= i ==> grown[i] >= threshold;
  }

  lemma PushExtendsTailBelow(history: seq<real>, value: real, capacity: nat, count: nat, boundary: real)
    requires TailBelow(history, count, boundary) && value < boundary && 0 < capacity
    ensures TailBelow(Pushed(history, value, capacity), Least(count + 1, capacity), boundary)
  {
    var grown := history + [value];
    assert forall i :: |history| - count <= i < |grown| && 0 <= i ==> grown[i] < boundary;
  }

  lemma {:induction false} BreachesAccumulate(settings: RiskSettings, core: Core, values: seq<real>, c: real, m: nat)
    requires settings.Valid() && core.Valid(settings) && 0.0 <= c && 1 <= m
    requires AllAtLeast(values, c)
    requires RisingFloor(settings, c, m) >= settings.highThreshold
    ensures |values| >= m ==>
              TailAtLeast(AdvanceAll(settings, core, values).history,
                          Least(|values| - m + 1, settings.breachN), settings.highThreshold)
    decreases |values|
  {
    if |values| >= m {
      var j := |values| - 1;
      var count := if j >= m then Least(j - m + 1, settings.breachN) else 0;
      if j >= m {
        BreachesAccumulate(settings, core, values[..j], c, m);
      }
      BreachesGrow(settings, core, values, c, m, count, Least(|values| - m + 1, settings.breachN));
    }
  }

  lemma BreachesGrow(settings: RiskSettings, core: Core, values: seq<real>, c: real, m: nat, count: nat, length: nat)
    requires settings.Valid() && core.Valid(settings) && 0.0 <= c && 1 <= m <= |values| && AllAtLeast(values, c)
    requires RisingFloor(settings, c, m) >= settings.highThreshold
    requires length == Least(count + 1, settings.breachN)
    requires TailAtLeast(AdvanceAll(settings, core, values[..|values| - 1]).history, count, settings.highThreshold)
    ensures TailAtLeast(AdvanceAll(settings, core, values).history, length, settings.highThreshold)
  {
    var j := |values| - 1;
    SmoothedBreaches(settings, core, values, c, m);
    BreachStep(settings, AdvanceAll(settings, core, values[..j]), values[j], count, length);
  }

  lemma SmoothedBreaches(settings: RiskSettings, core: Core, values: seq<real>, c: real, m: nat)
    requires settings.Valid() && core.Valid(settings) && 0.0 <= c && 1 <= m <= |values| && AllAtLeast(values, c)
    requires RisingFloor(settings, c, m) >= settings.highThreshold
    ensures AdvanceAll(settings, core, values).smoothed.value >= settings.highThreshold
  {
    SmoothedRises(settings, core, values, c);
    FloorRises(settings, c, m, |values|);
  }

  lemma SmoothedIsQuiet(settings: RiskSettings, core: Core, values: seq<real>, c: real, m: nat)
    requires settings.Valid() && core.Valid(settings) && c <= 1.0 && 1 <= m <= |values| && AllAtMost(values, c)
    requires FallingCeiling(settings, c, m) < settings.mediumThreshold
    ensures AdvanceAll(settings, core, values).smoothed.value < settings.mediumThreshold
  {
    SmoothedFalls(settings, core, values, c);
    CeilingFalls(settings, c, m, |values|);
  }

  lemma BreachStep(settings: RiskSettings, core: Core, value: real, count: nat, length: nat)
    requires settings.Valid() && TailAtLeast(core.history, count, settings.highThreshold)
    requires length == Least(count + 1, settings.breachN)
    requires Advance(settings, core, value).smoothed.value >= settings.highThreshold
    ensures TailAtLeast(Advance(settings, core, value).history, length, settings.highThreshold)
  {
    PushExtendsTail(core.history, Smoothed(settings, core.smoothed, value), settings.breachN, count, settings.highThreshold);
  }

  lemma QuietStep(settings: RiskSettings, core: Core, value: real, count: nat, length: nat)
    requires settings.Valid() && TailBelow(core.history, count, settings.mediumThreshold)
    requires length == Least(count + 1, settings.breachN)
    requires Advance(settings, core, value).smoothed.value < settings.mediumThreshold
    ensures TailBelow(Advance(settings, core, value).history, length, settings.mediumThreshold)
  {
    PushExtendsTailBelow(core.history, Smoothed(settings, core.smoothed, value), settings.breachN, count,
                         settings.mediumThreshold);
  }

  lemma {:induction false} QuietAccumulates(settings: RiskSettings, core: Core, values: seq<real>, c: real, m: nat)
    requires settings.Valid() && core.Valid(settings) && c <= 1.0 && 1 <= m
    requires AllAtMost(values, c)
    requires FallingCeiling(settings, c, m) < settings.mediumThreshold
    ensures |values| >= m ==>
              TailBelow(AdvanceAll(settings, core, values).history,
                        Least(|values| - m + 1, settings.breachN), settings.mediumThreshold)
    decreases |values|
  {
    if |values| >= m {
      var j := |values| - 1;
      var before := AdvanceAll(settings, core, values[..j]);
      var length := Least(|values| - m + 1, settings.breachN);
      SmoothedIsQuiet(settings, core, values, c, m);
      if j >= m {
        QuietAccumulates(settings, core, values[..j], c, m);
        QuietStep(settings, before, values[j], Least(j - m + 1, settings.breachN), length);
      } else {
        QuietStep(settings, before, values[j], 0, length);
      }
    }
  }

  // ---------------------------------------------------------------------
  // Main results on scored windows
  // ---------------------------------------------------------------------

  /** Detection. From any reachable state, once every adjusted reading is at least c,
      where c exceeds the high threshold and m smoothing steps suffice to lift the score
      over it, the level is HIGH from window m + k - 1 on and the requested action is
      TERMINATE from window m + n - 1 on. */
  lemma {:induction false} Detection(settings: RiskSettings, core: Core, values: seq<real>, c: real, m: nat)
    requires settings.Valid() && core.Valid(settings) && 0.0 <= c && 1 <= m
    requires AllAtLeast(values, c)
    requires RisingFloor(settings, c, m) >= settings.highThreshold
    ensures var end := AdvanceAll(settings, core, values);
            && (|values| >= m + settings.breachK - 1 ==> end.level == High)
            && (|values| >= m + settings.breachN - 1 ==>
                  Policy.Requested(settings, end.level, CountAtLeast(end.history, settings.highThreshold)) == Terminate)
  {
    if |values| >= m + settings.breachK - 1 {
      var end := AdvanceAll(settings, core, values);
      BreachesAccumulate(settings, core, values, c, m);
      LevelsStayKnown(settings, core, values[..|values| - 1]);
      AdvanceAgrees(settings, AdvanceAll(settings, core, values[..|values| - 1]), values[|values| - 1]);
      CountOfTail(end.history, settings.highThreshold, Least(|values| - m + 1, settings.breachN));
    }
  }

  /** Recovery. Once every adjusted reading is at most c, where c is under the medium
      threshold and m smoothing steps suffice to bring any score under it, the level is
      LOW from window m + n - 1 on. */
  lemma Recovery(settings: RiskSettings, core: Core, values: seq<real>, c: real, m: nat)
    requires settings.Valid() && core.Valid(settings) && c <= 1.0 && 1 <= m
    requires AllAtMost(values, c)
    requires FallingCeiling(settings, c, m) < settings.mediumThreshold
    ensures |values| >= m + settings.breachN - 1 ==> AdvanceAll(settings, core, values).level == Low
  {
    if |values| >= m + settings.breachN - 1 {
      var end := AdvanceAll(settings, core, values);
      QuietAccumulates(settings, core, values, c, m);
      LevelsStayKnown(settings, core, values[..|values| - 1]);
      AdvanceAgrees(settings, AdvanceAll(settings, core, values[..|values| - 1]), values[|values| - 1]);
      assert |end.history| == settings.breachN;
    }
  }

  lemma {:induction false} LevelsStayKnown(settings: RiskSettings, core: Core, values: seq<real>)
    requires core.level != Unavailable
    ensures AdvanceAll(settings, core, values).level != Unavailable
  {
    if values != [] {
      LevelsStayKnown(settings, core, values[..|values| - 1]);
    }
  }

  // ---------------------------------------------------------------------
  // The detection bound is exact
  // ---------------------------------------------------------------------

  // From a quiet start and a constant reading the score follows the floor exactly.
  lemma {:induction false} ConstantReadingsFollowTheFloor(settings: RiskSettings, core: Core, values: seq<real>,
                                                          c: real)
    requires settings.Valid() && core.smoothed == Some(0.0)
    requires forall i :: 0 <= i < |values| ==> values[i] == c
    ensures AdvanceAll(settings, core, values).smoothed == Some(RisingFloor(settings, c, |values|))
    decreases |values|
  {
    if values != [] {
      var j := |values| - 1;
      ConstantReadingsFollowTheFloor(settings, core, values[..j], c);
      FloorRecurrence(settings, c, j);
    }
  }

  lemma FloorRecurrence(settings: RiskSettings, c: real, j: nat)
    ensures Smoothed(settings, Some(RisingFloor(settings, c, j)), c) == RisingFloor(settings, c, j + 1)
  {
    var alpha := settings.ewmaAlpha;
    var beta, memory := 1.0 - alpha, Power(1.0 - alpha, j) * c;
    assert beta * memory == Power(beta, j + 1) * c;
    assert alpha * c + beta * (c - memory) == c - beta * memory;
  }

  // Only the last `count` entries of the history can be breaches.
  ghost predicate HeadBelow(history: seq<real>, count: nat, boundary: real) {
    forall i :: 0 <= i < |history| - count ==> history[i] < boundary
  }

  lemma {:induction false} CountOfHead(history: seq<real>, boundary: real, count: nat)
    requires HeadBelow(history, count, boundary)
    ensures CountAtLeast(history, boundary) <= count
  {
    if history != [] && count > 0 {
      CountOfHead(history[..|history| - 1], boundary, count - 1);
    } else if history != [] {
      CountIsBounded(history, boundary);
    }
  }

  lemma PushKeepsHead(history: seq<real>, value: real, capacity: nat, count: nat, boundary: real)
    requires HeadBelow(history, count, boundary)
    ensures HeadBelow(Pushed(history, value, capacity), count + 1, boundary)
    ensures count == 0 && value < boundary ==> HeadBelow(Pushed(history, value, capacity), 0, boundary)
  {
    var grown := history + [value];
    assert HeadBelow(grown, count + 1, boundary);
  }

  function Excess(windows: nat, m: nat): nat {
    if windows < m then 0 else windows - m + 1
  }

  lemma {:induction false} FewBreachesEarly(settings: RiskSettings, core: Core, values: seq<real>, c: real, m: nat)
    requires settings.Valid() && core.smoothed == Some(0.0) && 0.0 <= c && 1 <= m
    requires AllBelow(core.history, settings.highThreshold) && core.level !in {High, Unavailable}
    requires forall i :: 0 <= i < |values| ==> values[i] == c
    requires RisingFloor(settings, c, m - 1) < settings.highThreshold
    ensures var end := AdvanceAll(settings, core, values);
            && HeadBelow(end.history, Excess(|values|, m), settings.highThreshold)
            && (|values| < m + settings.breachK - 1 ==> end.level !in {High, Unavailable})
    decreases |values|
  {
    if values != [] {
      var j := |values| - 1;
      var before, end := AdvanceAll(settings, core, values[..j]), AdvanceAll(settings, core, values);
      FewBreachesEarly(settings, core, values[..j], c, m);
      ConstantReadingsFollowTheFloor(settings, core, values, c);
      if |values| < m {
        FloorRises(settings, c, |values|, m - 1);
      }
      PushKeepsHead(before.history, end.smoothed.value, settings.breachN, Excess(j, m), settings.highThreshold);
      CountOfHead(end.history, settings.highThreshold, Excess(|values|, m));
    }
  }

  /** The bound of Detection cannot be improved: from a quiet user, a constant reading c
      that first lifts the score over the high threshold in window m makes the level
      HIGH in window m + k - 1 and in no earlier one. */
  lemma DetectionIsExact(settings: RiskSettings, core: Core, values: seq<real>, c: real, m: nat)
    requires settings.Valid() && core.Valid(settings) && 0.0 <= c && 1 <= m
    requires core.smoothed == Some(0.0) && AllBelow(core.history, settings.highThreshold) && core.level != High
    requires forall i :: 0 <= i < |values| ==> values[i] == c
    requires RisingFloor(settings, c, m - 1) < settings.highThreshold <= RisingFloor(settings, c, m)
    ensures AdvanceAll(settings, core, values).level == High <==> |values| >= m + settings.breachK - 1
  {
    Detection(settings, core, values, c, m);
    FewBreachesEarly(settings, core, values, c, m);
  }

  // ---------------------------------------------------------------------
  // The number of smoothing steps always exists
  // ---------------------------------------------------------------------

  // Bernoulli's inequality for the memory of the smoother.
  lemma {:induction false} MemoryFades(alpha: real, m: nat)
    requires 0.0 < alpha <= 1.0
    ensures Power(1.0 - alpha, m) * (1.0 + (m as real) * alpha) <= 1.0
  {
    if m > 0 {
      var beta, rest := 1.0 - alpha, Power(1.0 - alpha, m - 1);
      MemoryFades(alpha, m - 1);
      PowerIsUnit(beta, m - 1);
      var before, after := 1.0 + ((m - 1) as real) * alpha, 1.0 + (m as real) * alpha;
      assert after == before + alpha;
      assert beta * after == before - (m as real) * (alpha * alpha);
      assert beta * after <= before;
      ProductIsMonotone(beta * after, before, rest);
      assert Power(beta, m) * after == (beta * after) * rest;
    }
  }

  /** For every amount of memory there is a number of windows that outlasts it, and
      weight / (alpha * gap) rounded down plus one is such a number. */
  lemma MemoryOutlasted(alpha: real, weight: real, gap: real) returns (m: nat)
    requires 0.0 < alpha <= 1.0 && 0.0 <= weight && 0.0 < gap
    ensures m == (weight / (alpha * gap)).Floor + 1
    ensures 1 <= m && Power(1.0 - alpha, m) * weight < gap
  {
    var unit := alpha * gap;
    assert unit > 0.0;
    var ratio := weight / unit;
    assert ratio >= 0.0 && ratio * unit == weight;
    m := ratio.Floor + 1;
    var steps := m as real;
    assert steps > ratio;
    var power := Power(1.0 - alpha, m);
    MemoryFades(alpha, m);
    PowerIsUnit(1.0 - alpha, m);
    assert weight < steps * unit by { assert (steps - ratio) * unit > 0.0; }
    if power > 0.0 {
      var lifted := steps * alpha;
      assert power * weight < power * (steps * unit) by { assert power * (steps * unit - weight) > 0.0; }
      assert power * (steps * unit) == (power * lifted) * gap;
      assert power * (1.0 + lifted) == power + power * lifted;
      assert power * lifted <= 1.0;
      ProductIsMonotone(power * lifted, 1.0, gap);
    }
  }

  // A memory smaller than the gap leaves the bound on the right side of its threshold.
  lemma FloorReaches(settings: RiskSettings, c: real, j: nat, gap: real)
    requires Power(1.0 - settings.ewmaAlpha, j) * c < gap
    ensures RisingFloor(settings, c, j) > c - gap
  {
  }

  lemma CeilingReaches(settings: RiskSettings, c: real, j: nat, gap: real)
    requires Power(1.0 - settings.ewmaAlpha, j) * (1.0 - c) < gap
    ensures FallingCeiling(settings, c, j) < c + gap
  {
  }

  /** Hence every sustained excess over the high threshold is detected and every
      sustained calm under the medium threshold is cleared, after finitely many windows. */
  lemma LatencyIsFinite(settings: RiskSettings, raised: real, calm: real) returns (detect: nat, clear: nat)
    requires settings.Valid()
    requires settings.highThreshold < raised <= 1.0 && 0.0 <= calm < settings.mediumThreshold
    ensures 1 <= detect && RisingFloor(settings, raised, detect) >= settings.highThreshold
    ensures 1 <= clear && FallingCeiling(settings, calm, clear) < settings.mediumThreshold
  {
    detect := Outlast(settings, raised, raised - settings.highThreshold);
    FloorReaches(settings, raised, detect, raised - settings.highThreshold);
    clear := Outlast(settings, 1.0 - calm, settings.mediumThreshold - calm);
    CeilingReaches(settings, calm, clear, settings.mediumThreshold - calm);
  }

  lemma Outlast(settings: RiskSettings, weight: real, gap: real) returns (m: nat)
    requires settings.Valid() && 0.0 <= weight && 0.0 < gap
    ensures 1 <= m && Power(1.0 - settings.ewmaAlpha, m) * weight < gap
  {
    m := MemoryOutlasted(settings.ewmaAlpha, weight, gap);
  }
}
