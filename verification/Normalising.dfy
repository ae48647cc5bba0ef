/** What a window's normalisation removes: the context's own offset, as far as its
    applications are covered. */
module Normalising {
  import opened Wrappers
  import opened Timelines
  import opened Moments
  import opened ContextLayer
  import opened RiskTypes

  // Every application of the window that counts as empirical has the genuine mean m.
  ghost predicate CommonMean(config: ContextLayer.Config, table: map<AppKey, Statistics>, user: string,
                             shares: seq<FocusShare>, m: real)
    requires config.Valid()
  {
    forall i :: 0 <= i < |shares| && AppConfidence(config, table, user, shares[i]).1 ==>
      Lookup(table, (user, shares[i].appId)).mean == m
  }

  /** A mean, as far as it is covered. */
  function Diluted(m: real, coverage: real): real {
    m * coverage
  }

  lemma ScaledFactor(fraction: real, total: real, m: real, x: real)
    requires total > 0.0
    ensures Scaled(fraction, total, Diluted(m, x)) == Diluted(m, Scaled(fraction, total, x))
  {
    var part := fraction / total;
    assert part * (m * x) == m * (part * x);
  }

  lemma DilutedAdds(m: real, a: real, b: real)
    ensures Diluted(m, a) + Diluted(m, b) == Diluted(m, a + b) && Diluted(m, 0.0) == 0.0 && Diluted(m, 1.0) == m
  {
  }

  lemma {:induction false} MeanIsDiluted(config: ContextLayer.Config, table: map<AppKey, Statistics>, user: string,
                                         shares: seq<FocusShare>, total: real, m: real)
    requires config.Valid() && total > 0.0 && CommonMean(config, table, user, shares, m)
    ensures Blend(shares, total, MeanOf(config, table, user)) == Diluted(m, Blend(shares, total, CoverageOf(config, table, user)))
    decreases |shares|
  {
    DilutedAdds(m, 0.0, 0.0);
    if shares != [] {
      var before, last := shares[..|shares| - 1], shares[|shares| - 1];
      MeanIsDiluted(config, table, user, before, total, m);
      var covered := CoverageOf(config, table, user)(last);
      assert MeanOf(config, table, user)(last) == Diluted(m, covered);
      ScaledFactor(last.fraction, total, m, covered);
      DilutedAdds(m, Blend(before, total, CoverageOf(config, table, user)), Scaled(last.fraction, total, covered));
    }
  }

  // The assessment of a window with these shares.
  ghost function AssessmentOf(config: ContextLayer.Config, s: LearningState, user: string, shares: seq<FocusShare>,
                              root: real -> real): ContextAssessment
    requires config.Valid() && TotalFraction(shares) > 0.0
  {
    var total := TotalFraction(shares);
    Built(config, s.baselines, user, Blend(shares, total, ConfidenceOf(config, s.statistics, user)),
          Blend(shares, total, CoverageOf(config, s.statistics, user)),
          Blend(shares, total, MeanOf(config, s.statistics, user)),
          Blend(shares, total, VarianceOf(config, s.statistics, user)), root)
  }

  lemma AssessmentIsValid(config: ContextLayer.Config, s: LearningState, user: string, shares: seq<FocusShare>,
                          root: real -> real)
    requires config.Valid() && TotalFraction(shares) > 0.0 && Positive(shares) && AllPlausible(s.statistics)
    ensures AssessmentOf(config, s, user, shares, root).Valid()
  {
    MixtureBounds(config, s.statistics, user, shares);
  }

  /** The exact condition: where a window's empirical applications have the genuine mean m,
      normalisation takes a score of m to the profile's mean if and only if they cover the
      whole window, or m is zero. The location is the mean diluted by what they cover. */
  lemma RecentringIsExact(config: ContextLayer.Config, s: LearningState, user: string, shares: seq<FocusShare>,
                          root: real -> real, m: real)
    requires config.Valid() && TotalFraction(shares) > 0.0 && Positive(shares) && AllPlausible(s.statistics)
    requires CommonMean(config, s.statistics, user, shares, m)
    requires AssessmentOf(config, s, user, shares, root).NormalizationAvailable()
    ensures var context := AssessmentOf(config, s, user, shares, root);
            var coverage := Blend(shares, TotalFraction(shares), CoverageOf(config, s.statistics, user));
            && context.Valid() && user in s.baselines && context.contextLocation == Some(Diluted(m, coverage))
            && (context.Recentred(m) == s.baselines[user].mean <==> coverage == 1.0 || m == 0.0)
  {
    AssessmentIsValid(config, s, user, shares, root);
    MeanIsDiluted(config, s.statistics, user, shares, TotalFraction(shares), m);
    var context := AssessmentOf(config, s, user, shares, root);
    var coverage := Blend(shares, TotalFraction(shares), CoverageOf(config, s.statistics, user));
    StandsAtBaseline(context, m);
    Undiluted(m, coverage);
  }

  lemma StandsAtBaseline(context: ContextAssessment, x: real)
    requires context.Valid() && context.NormalizationAvailable()
    ensures context.Recentred(x) == context.baselineLocation.value <==> x == context.contextLocation.value
  {
    var gap := (x - context.contextLocation.value) / context.contextScale.value;
    assert gap * context.contextScale.value == x - context.contextLocation.value;
    assert gap * context.baselineScale.value == 0.0 <==> gap == 0.0;
  }

  lemma Undiluted(m: real, coverage: real)
    ensures m == Diluted(m, coverage) <==> coverage == 1.0 || m == 0.0
  {
    assert m - m * coverage == m * (1.0 - coverage);
  }

  /** With full coverage a score at the context's mean is adjusted to the profile's mean. */
  lemma FullCoverageRecentres(config: ContextLayer.Config, s: LearningState, user: string, shares: seq<FocusShare>,
                              root: real -> real, m: real)
    requires config.Valid() && TotalFraction(shares) > 0.0 && Positive(shares)
    requires AllPlausible(s.statistics) && AllPlausible(s.baselines)
    requires CommonMean(config, s.statistics, user, shares, m)
    requires AssessmentOf(config, s, user, shares, root).NormalizationAvailable()
    requires Blend(shares, TotalFraction(shares), CoverageOf(config, s.statistics, user)) == 1.0
    ensures var context := AssessmentOf(config, s, user, shares, root);
            context.Valid() && user in s.baselines && context.Adjust(m) == s.baselines[user].mean
  {
    RecentringIsExact(config, s, user, shares, root, m);
    assert s.baselines[user].Plausible();
  }

  // Six parts of a window belong to an application known well enough, four to a new one.
  const SHARES := [FocusShare(1, Browsing, 0.6), FocusShare(2, Browsing, 0.4)]

  function Example(): ContextLayer.Config {
    ContextLayer.Config(0.5, 1.0, 1.0, PerContextNormalization, 0.1,
                        map[Productivity := 1.0, Browsing := 1.0, Development := 1.0, Creative := 1.0, Gaming := 1.0,
                            System := 1.0, UnknownCategory := 1.0])
  }

  function Learned(): LearningState {
    Learning(map[("user", 1) := Statistics(10.0, 0.5, 0.0)], map["user" := Statistics(10.0, 0.5, 0.0)])
  }

  lemma ExampleIsValid()
    ensures Example().Valid()
  {
    forall c: Category ensures c in Example().bootstrap && Example().bootstrap[c] == 1.0 {
      match c {
        case Productivity =>
        case Browsing =>
        case Development =>
        case Creative =>
        case Gaming =>
        case System =>
        case UnknownCategory =>
      }
    }
  }

  lemma BlendOfTwo(first: FocusShare, second: FocusShare, total: real, f: FocusShare -> real)
    requires total > 0.0
    ensures Blend([first, second], total, f) == Scaled(first.fraction, total, f(first)) + Scaled(second.fraction, total, f(second))
    ensures TotalFraction([first, second]) == first.fraction + second.fraction
  {
    assert [first, second][..1] == [first] && [first][..0] == [];
    assert Blend([], total, f) == 0.0 && TotalFraction([]) == 0.0;
    assert Blend([first], total, f) == Scaled(first.fraction, total, f(first)) && TotalFraction([first]) == first.fraction;
  }

  /** Partial coverage does occur under normalisation, and moves the very score that is
      genuine in the context off the profile's mean. */
  lemma PartialCoverageOffsets(root: real -> real)
    ensures Example().Valid() && TotalFraction(SHARES) == 1.0 && Positive(SHARES)
    ensures CommonMean(Example(), Learned().statistics, "user", SHARES, 0.5)
    ensures var context := AssessmentOf(Example(), Learned(), "user", SHARES, root);
            && context.Valid() && context.NormalizationAvailable()
            && context.contextLocation == Some(0.3) && context.Recentred(0.5) != 0.5
  {
    ExampleIsValid();
    var config, s := Example(), Learned();
    var covered := CoverageOf(config, s.statistics, "user");
    assert SHARES == [SHARES[0], SHARES[1]];
    BlendOfTwo(SHARES[0], SHARES[1], 1.0, covered);
    assert covered(SHARES[0]) == 1.0 && covered(SHARES[1]) == 0.0;
    ScaledWhole(1.0, 0.6);
    assert Scaled(0.6, 1.0, 1.0) == 0.6 && Scaled(0.4, 1.0, 0.0) == 0.0;
    assert s.statistics[("user", 1)].Plausible();
    RecentringIsExact(config, s, "user", SHARES, root, 0.5);
  }
}
