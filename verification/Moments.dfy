/** Weighted running moments against their batch definition. */
module Moments {
  import opened RealBounds

  datatype Statistics = Statistics(weight: real, mean: real, m2: real)
  {
    function Variance(): real {
      if weight > 0.0 then m2 / weight else 0.0
    }

    function Update(value: real, added: real): Statistics {
      var total := weight + added;
      if total <= 0.0 then this
      else
        var moved := Moved(value, added);
        Statistics(total, moved, m2 + Spread(value, added, moved))
    }

    // Where the mean moves to, and what the observation adds to the squared deviations.
    function Moved(value: real, added: real): real
      requires weight + added > 0.0
    {
      mean + (added / (weight + added)) * (value - mean)
    }

    function Spread(value: real, added: real, moved: real): real {
      added * (value - mean) * (value - moved)
    }

    /** The raw sums the record stands for. */
    function Raw(): RawSums {
      RawSums(weight, mean * weight, m2 + mean * (mean * weight))
    }

    // What any record of scores in the unit interval satisfies.
    predicate Plausible() {
      && 0.0 <= weight && 0.0 <= mean <= 1.0 && 0.0 <= m2
      && Raw().energy <= Raw().mass
    }
  }

  const Empty := Statistics(0.0, 0.0, 0.0)

  /** Total weight, weighted sum, and weighted sum of squares. */
  datatype RawSums = RawSums(weight: real, mass: real, energy: real)
  {
    function Plus(value: real, added: real): RawSums {
      RawSums(weight + added, mass + added * value, energy + added * (value * value))
    }
  }

  datatype Observation = Observation(value: real, weight: real)

  function Running(observations: seq<Observation>): Statistics {
    if observations == [] then Empty
    else
      var last := observations[|observations| - 1];
      Running(observations[..|observations| - 1]).Update(last.value, last.weight)
  }

  /** A sum over the observations. */
  function Total(observations: seq<Observation>, f: Observation -> real): real {
    if observations == [] then 0.0
    else Total(observations[..|observations| - 1], f) + f(observations[|observations| - 1])
  }

  function Weight(): Observation -> real { (o: Observation) => o.weight }
  function Mass(): Observation -> real { (o: Observation) => o.weight * o.value }
  function Energy(): Observation -> real { (o: Observation) => o.weight * (o.value * o.value) }
  function Deviation(mean: real): Observation -> real { (o: Observation) => o.weight * ((o.value - mean) * (o.value - mean)) }

  ghost predicate Weighted(observations: seq<Observation>) {
    forall i :: 0 <= i < |observations| ==> observations[i].weight > 0.0
  }

  ghost predicate InUnit(observations: seq<Observation>) {
    forall i :: 0 <= i < |observations| ==> 0.0 <= observations[i].value <= 1.0
  }

  /** One update adds to the total weight, the weighted sum and the raw second moment. */
  lemma UpdateAdds(s: Statistics, value: real, added: real)
    requires s.weight >= 0.0 && added > 0.0
    ensures s.Update(value, added).Raw() == s.Raw().Plus(value, added)
  {
    var moved := s.Moved(value, added);
    FirstMomentAdds(s, value, added);
    SecondMomentAdds(s, value, added, moved);
    assert s.Update(value, added) == Statistics(s.weight + added, moved, s.m2 + s.Spread(value, added, moved));
  }

  // The algebra of the mean: it moves by the new observation's share of the total weight.
  lemma FirstMomentAdds(s: Statistics, value: real, added: real)
    requires s.weight >= 0.0 && added > 0.0
    ensures s.Moved(value, added) * (s.weight + added) == s.mean * s.weight + added * value
  {
    var total, delta := s.weight + added, value - s.mean;
    var ratio := added / total;
    assert ratio * total == added;
    assert (ratio * delta) * total == (ratio * total) * delta;
    assert (s.mean + ratio * delta) * total == s.mean * total + (ratio * delta) * total;
  }

  // The algebra of the second moment, given where the mean moves.
  lemma SecondMomentAdds(s: Statistics, value: real, added: real, moved: real)
    requires moved * (s.weight + added) == s.mean * s.weight + added * value
    ensures s.Spread(value, added, moved) + moved * (moved * (s.weight + added))
            == s.mean * (s.mean * s.weight) + added * (value * value)
  {
    var mean, weight := s.mean, s.weight;
    var mass, gain, cross := mean * weight, added * value, added * mean;
    assert moved * (moved * (weight + added)) == moved * mass + moved * gain;
    assert s.Spread(value, added, moved) == gain * value - gain * moved - cross * value + cross * moved;
    assert cross * value == mean * gain;
    assert moved * mass == mean * (moved * weight);
    assert cross * moved == mean * (moved * added);
    assert mean * (moved * weight) + mean * (moved * added) == mean * (moved * (weight + added));
    assert mean * (moved * (weight + added)) == mean * mass + mean * gain;
    assert gain * value == added * (value * value);
  }

  function RawTotals(observations: seq<Observation>): RawSums {
    if observations == [] then RawSums(0.0, 0.0, 0.0)
    else
      var last := observations[|observations| - 1];
      RawTotals(observations[..|observations| - 1]).Plus(last.value, last.weight)
  }

  lemma {:induction false} RawTotalsAreTotals(observations: seq<Observation>)
    ensures RawTotals(observations)
            == RawSums(Total(observations, Weight()), Total(observations, Mass()), Total(observations, Energy()))
    decreases |observations|
  {
    if observations != [] {
      RawTotalsAreTotals(observations[..|observations| - 1]);
    }
  }

  lemma {:induction false} WeightIsPositive(observations: seq<Observation>)
    requires Weighted(observations)
    ensures RawTotals(observations).weight >= 0.0
    ensures observations != [] ==> RawTotals(observations).weight > 0.0
    decreases |observations|
  {
    if observations != [] {
      WeightIsPositive(observations[..|observations| - 1]);
    }
  }

  // The running record carries exactly the raw sums.
  lemma {:induction false} RunningSums(observations: seq<Observation>)
    requires Weighted(observations)
    ensures Running(observations).Raw() == RawTotals(observations)
    decreases |observations|
  {
    if observations != [] {
      var before, o := observations[..|observations| - 1], observations[|observations| - 1];
      RunningSums(before);
      WeightIsPositive(before);
      UpdateAdds(Running(before), o.value, o.weight);
    }
  }

  lemma {:induction false} DeviationExpands(observations: seq<Observation>, mean: real)
    ensures Total(observations, Deviation(mean))
            == Expansion(mean, Total(observations, Energy()), Total(observations, Mass()), Total(observations, Weight()))
  {
    if observations != [] {
      var j := |observations| - 1;
      var o := observations[j];
      DeviationExpands(observations[..j], mean);
      SquareExpands(o, mean);
      ExpansionAdds(mean, Total(observations[..j], Energy()), Total(observations[..j], Mass()),
                    Total(observations[..j], Weight()), Energy()(o), Mass()(o), o.weight);
    }
  }

  lemma ExpansionAdds(mean: real, e1: real, m1: real, w1: real, e2: real, m2: real, w2: real)
    ensures Expansion(mean, e1 + e2, m1 + m2, w1 + w2) == Expansion(mean, e1, m1, w1) + Expansion(mean, e2, m2, w2)
  {
  }

  lemma SquareExpands(o: Observation, mean: real)
    ensures Deviation(mean)(o) == Expansion(mean, Energy()(o), Mass()(o), o.weight)
  {
    var square := (o.value - mean) * (o.value - mean);
    assert square == o.value * o.value - 2.0 * (mean * o.value) + mean * mean;
    assert o.weight * square
           == o.weight * (o.value * o.value) - o.weight * (2.0 * (mean * o.value)) + o.weight * (mean * mean);
    assert o.weight * (2.0 * (mean * o.value)) == 2.0 * (mean * (o.weight * o.value));
  }

  /** Running moments are batch moments: total weight, weighted mean, and the weighted sum
      of squared deviations from that mean. */
  lemma RunningIsBatch(observations: seq<Observation>)
    requires Weighted(observations) && observations != []
    ensures var s := Running(observations);
            && s.weight == Total(observations, Weight()) > 0.0
            && s.mean == Total(observations, Mass()) / Total(observations, Weight())
            && s.m2 == Total(observations, Deviation(s.mean))
  {
    var s := Running(observations);
    RunningSums(observations);
    DeviationExpands(observations, s.mean);
    RawTotalsAreTotals(observations);
    WeightIsPositive(observations);
    BatchAlgebra(s, RawTotals(observations));
  }

  lemma BatchAlgebra(s: Statistics, raw: RawSums)
    requires s.weight > 0.0 && s.Raw() == raw
    ensures s.weight == raw.weight && s.mean == raw.mass / raw.weight
    ensures s.m2 == Expansion(s.mean, raw.energy, raw.mass, raw.weight)
  {
    var product := s.mean * s.weight;
    assert (s.mean * s.mean) * s.weight == s.mean * product;
    assert product / s.weight == s.mean;
  }

  // The weighted sum of squared deviations, expanded.
  function Expansion(mean: real, energy: real, mass: real, weight: real): real {
    energy - 2.0 * (mean * mass) + (mean * mean) * weight
  }

  // ---------------------------------------------------------------------
  // Order
  // ---------------------------------------------------------------------

  lemma {:induction false} TotalAppend(a: seq<Observation>, b: seq<Observation>, f: Observation -> real)
    ensures Total(a + b, f) == Total(a, f) + Total(b, f)
    decreases |b|
  {
    if b == [] {
      assert a + b == a;
    } else {
      assert (a + b)[..|a + b| - 1] == a + b[..|b| - 1];
      TotalAppend(a, b[..|b| - 1], f);
    }
  }

  lemma {:induction false} TotalPermutes(a: seq<Observation>, b: seq<Observation>, f: Observation -> real)
    requires multiset(a) == multiset(b)
    ensures Total(a, f) == Total(b, f)
    decreases |a|
  {
    assert |a| == |b| by { assert |multiset(a)| == |multiset(b)|; }
    if a != [] {
      var last := a[|a| - 1];
      assert last in multiset(a) && last in multiset(b);
      var i :| 0 <= i < |b| && b[i] == last;
      WithoutOne(a, |a| - 1);
      WithoutOne(b, i);
      assert a[..|a| - 1] + a[|a|..] == a[..|a| - 1];
      TotalPermutes(a[..|a| - 1], b[..i] + b[i + 1..], f);
      TotalWithoutOne(b, i, f);
    }
  }

  lemma WithoutOne(xs: seq<Observation>, i: nat)
    requires i < |xs|
    ensures multiset(xs[..i] + xs[i + 1..]) == multiset(xs) - multiset{xs[i]}
  {
    assert xs == xs[..i] + [xs[i]] + xs[i + 1..];
  }

  lemma TotalWithoutOne(xs: seq<Observation>, i: nat, f: Observation -> real)
    requires i < |xs|
    ensures Total(xs, f) == Total(xs[..i] + xs[i + 1..], f) + f(xs[i])
  {
    var before, after := xs[..i], xs[i + 1..];
    assert xs == xs[..i + 1] + after;
    assert Total(xs[..i + 1], f) == Total(before, f) + f(xs[i]) by { assert xs[..i + 1][..i] == before; }
    TotalAppend(before, after, f);
    TotalAppend(xs[..i + 1], after, f);
  }

  /** The order of the observations does not matter. */
  lemma OrderDoesNotMatter(a: seq<Observation>, b: seq<Observation>)
    requires Weighted(a) && multiset(a) == multiset(b)
    ensures Running(a) == Running(b)
  {
    assert |a| == |b| by { assert |multiset(a)| == |multiset(b)|; }
    forall i | 0 <= i < |b| ensures b[i].weight > 0.0 {
      assert b[i] in multiset(a);
    }
    if a != [] {
      RunningIsBatch(a);
      RunningIsBatch(b);
      TotalPermutes(a, b, Weight());
      TotalPermutes(a, b, Mass());
      TotalPermutes(a, b, Deviation(Running(a).mean));
    }
  }

  // ---------------------------------------------------------------------
  // Bounds
  // ---------------------------------------------------------------------

  /** Scores in the unit interval keep a record plausible. */
  lemma UpdateIsPlausible(s: Statistics, value: real, added: real)
    requires s.Plausible() && 0.0 <= value <= 1.0 && added > 0.0
    ensures s.Update(value, added).Plausible() && s.Update(value, added).weight > 0.0
  {
    var s' := s.Update(value, added);
    var total, delta := s.weight + added, value - s.mean;
    var ratio := added / total;
    assert 0.0 < ratio <= 1.0 by { RatioInUnit(added, total); }
    assert 0.0 <= s'.mean <= 1.0 && 0.0 <= s'.m2 by {
      UpdateMoves(s, value, added, ratio);
      MeanStaysInUnit(s.mean, value, delta, ratio);
      SquareIsNonNegative(added, delta, ratio);
    }
    assert s'.Raw().energy <= s'.Raw().mass by {
      UpdateAdds(s, value, added);
      EnergyIsBelowMass(value, added);
    }
  }

  // How far one update moves the mean and the squared deviations.
  lemma UpdateMoves(s: Statistics, value: real, added: real, ratio: real)
    requires s.weight >= 0.0 && added > 0.0 && ratio == added / (s.weight + added)
    ensures var delta := value - s.mean;
            && s.Update(value, added).mean == s.mean + Times(ratio, delta)
            && s.Update(value, added).m2 == s.m2 + added * delta * ((1.0 - ratio) * delta)
  {
    var s', delta := s.Update(value, added), value - s.mean;
    assert s'.mean == s.mean + Times(ratio, delta);
    assert value - s'.mean == (1.0 - ratio) * delta;
  }

  lemma EnergyIsBelowMass(value: real, added: real)
    requires 0.0 <= value <= 1.0 && added > 0.0
    ensures added * (value * value) <= added * value
  {
    var square := value * value;
    assert square <= value;
    assert added * (value - square) >= 0.0;
  }

  lemma MeanStaysInUnit(mean: real, value: real, delta: real, ratio: real)
    requires 0.0 <= mean <= 1.0 && 0.0 <= value <= 1.0 && delta == value - mean && 0.0 < ratio <= 1.0
    ensures 0.0 <= mean + Times(ratio, delta) <= 1.0
  {
    TimesStaysBetween(delta, ratio);
  }

  lemma SquareIsNonNegative(added: real, delta: real, ratio: real)
    requires added > 0.0 && 0.0 < ratio <= 1.0
    ensures added * delta * ((1.0 - ratio) * delta) >= 0.0
  {
    var square, share := delta * delta, added * (1.0 - ratio);
    assert square >= 0.0 && share >= 0.0;
    assert share * square >= 0.0;
    assert added * delta * ((1.0 - ratio) * delta) == share * square;
  }

  /** The variance of scores in the unit interval is at most mean * (1 - mean), so at most 1/4. */
  lemma VarianceIsBounded(s: Statistics)
    requires s.Plausible()
    ensures 0.0 <= s.Variance() <= s.mean * (1.0 - s.mean) <= 0.25
  {
    var spread := s.mean * (1.0 - s.mean);
    var half := s.mean - 0.5;
    assert half * half >= 0.0;
    assert spread == 0.25 - half * half;
    assert spread >= 0.0 by {
      var rest := 1.0 - s.mean;
      ScaledDown(rest, s.mean);
      assert spread == s.mean * rest;
    }
    if s.weight > 0.0 {
      var variance := s.m2 / s.weight;
      assert variance * s.weight == s.m2;
      assert s.mean * (s.mean * s.weight) + spread * s.weight == s.mean * s.weight;
      assert s.m2 <= spread * s.weight;
      QuotientBounds(s.m2, s.weight, spread);
    }
  }

  /** Hence the bounds for every record of scores in the unit interval. */
  lemma {:induction false} RunningIsPlausible(observations: seq<Observation>)
    requires Weighted(observations) && InUnit(observations)
    ensures Running(observations).Plausible()
    ensures 0.0 <= Running(observations).Variance() <= 0.25
    decreases |observations|
  {
    if observations != [] {
      var j := |observations| - 1;
      RunningIsPlausible(observations[..j]);
      UpdateIsPlausible(Running(observations[..j]), observations[j].value, observations[j].weight);
    }
    VarianceIsBounded(Running(observations));
  }
}

/** Small facts about products and quotients of reals. */
module RealBounds {

  lemma ScaledDown(x: real, factor: real)
    requires 0.0 <= x && 0.0 <= factor <= 1.0
    ensures 0.0 <= factor * x <= x
  {
  }

  // A product under a name, for reasoning that need not look inside it.
  function Times(factor: real, x: real): real {
    factor * x
  }

  lemma TimesScalesDown(x: real, factor: real)
    requires 0.0 <= x && 0.0 <= factor <= 1.0
    ensures 0.0 <= Times(factor, x) <= x
  {
    ScaledDown(x, factor);
  }

  lemma TimesNegates(factor: real, x: real)
    ensures Times(factor, -x) == -Times(factor, x)
  {
  }

  lemma TimesStaysBetween(x: real, factor: real)
    requires 0.0 <= factor <= 1.0
    ensures 0.0 <= x ==> 0.0 <= Times(factor, x) <= x
    ensures x <= 0.0 ==> x <= Times(factor, x) <= 0.0
  {
    if x >= 0.0 {
      TimesScalesDown(x, factor);
    }
    if x <= 0.0 {
      TimesScalesDown(-x, factor);
      TimesNegates(factor, x);
    }
  }

  lemma RatioInUnit(part: real, whole: real)
    requires 0.0 < part <= whole
    ensures 0.0 < part / whole <= 1.0
  {
  }

  lemma QuotientBounds(x: real, whole: real, bound: real)
    requires 0.0 <= x <= bound * whole && 0.0 < whole
    ensures 0.0 <= x / whole <= bound
  {
    var q := x / whole;
    assert q * whole == x;
    if q > bound {
      assert (q - bound) * whole > 0.0;
    }
  }
}
