/** What the assessed confidence of a window says about the genuine windows learned from. */
module Confidences {
  import opened Wrappers
  import opened Timelines
  import opened Moments
  import opened ContextLayer
  import RiskTypes

  // ---------------------------------------------------------------------
  // What was observed of an application
  // ---------------------------------------------------------------------

  // A window's focus on the application, each share with its fraction as weight.
  function SharesOn(shares: seq<FocusShare>, app: nat, score: real): seq<Observation> {
    if shares == [] then []
    else
      var last := shares[|shares| - 1];
      SharesOn(shares[..|shares| - 1], app, score)
      + if last.appId == app && last.fraction > 0.0 then [Observation(score, last.fraction)] else []
  }

  /** Every score observed of the user while the application had focus. */
  function ObservationsOf(windows: seq<Genuine>, user: string, app: nat): seq<Observation> {
    if windows == [] then []
    else
      var last := windows[|windows| - 1];
      ObservationsOf(windows[..|windows| - 1], user, app)
      + if last.user == user then SharesOn(last.shares, app, last.score) else []
  }

  lemma {:induction false} SharesAreWeighted(shares: seq<FocusShare>, app: nat, score: real)
    ensures Weighted(SharesOn(shares, app, score))
  {
    if shares != [] {
      SharesAreWeighted(shares[..|shares| - 1], app, score);
    }
  }

  lemma {:induction false} ObservationsAreWeighted(windows: seq<Genuine>, user: string, app: nat)
    ensures Weighted(ObservationsOf(windows, user, app))
    decreases |windows|
  {
    if windows != [] {
      var last := windows[|windows| - 1];
      ObservationsAreWeighted(windows[..|windows| - 1], user, app);
      SharesAreWeighted(last.shares, app, last.score);
    }
  }

  // ---------------------------------------------------------------------
  // A record is the running record of its own observations
  // ---------------------------------------------------------------------

  // The table knows the application exactly by these observations.
  ghost predicate Holds(table: map<AppKey, Statistics>, key: AppKey, observations: seq<Observation>) {
    (key in table <==> observations != []) && Lookup(table, key) == Running(observations)
  }

  lemma RunningOneMore(observations: seq<Observation>, o: Observation)
    ensures Running(observations + [o]) == Running(observations).Update(o.value, o.weight)
  {
    assert (observations + [o])[..|observations|] == observations;
  }

  lemma CreditIsHeld(table: map<AppKey, Statistics>, user: string, share: FocusShare, score: real, key: AppKey,
                     observations: seq<Observation>)
    requires Holds(table, key, observations)
    ensures Holds(Credited(table, user, share, score), key,
                  observations + if key == (user, share.appId) && share.fraction > 0.0
                                 then [Observation(score, share.fraction)] else [])
  {
    if key == (user, share.appId) && share.fraction > 0.0 {
      RunningOneMore(observations, Observation(score, share.fraction));
    } else {
      assert observations + [] == observations;
    }
  }

  lemma {:induction false} CreditsAreHeld(table: map<AppKey, Statistics>, user: string, shares: seq<FocusShare>,
                                          score: real, key: AppKey, observations: seq<Observation>)
    requires Holds(table, key, observations)
    ensures Holds(CreditedAll(table, user, shares, score), key,
                  observations + if user == key.0 then SharesOn(shares, key.1, score) else [])
    decreases |shares|
  {
    if shares == [] {
      assert observations + [] == observations;
    } else {
      var before, last := shares[..|shares| - 1], shares[|shares| - 1];
      CreditsAreHeld(table, user, before, score, key, observations);
      var earlier := if user == key.0 then SharesOn(before, key.1, score) else [];
      var more := if key == (user, last.appId) && last.fraction > 0.0 then [Observation(score, last.fraction)] else [];
      CreditIsHeld(CreditedAll(table, user, before, score), user, last, score, key, observations + earlier);
      assert (observations + earlier) + more == observations + (earlier + more);
      assert earlier + more == if user == key.0 then SharesOn(shares, key.1, score) else [];
    }
  }

  /** Whatever windows were learned from, the record of an application is the running record
      of the scores observed while it had focus, and there is none exactly when there were none. */
  lemma {:induction false} RecordsAreTheirObservations(windows: seq<Genuine>, user: string, app: nat)
    ensures Holds(Learned(windows).statistics, (user, app), ObservationsOf(windows, user, app))
    decreases |windows|
  {
    if windows != [] {
      var before, last := windows[..|windows| - 1], windows[|windows| - 1];
      RecordsAreTheirObservations(before, user, app);
      CreditsAreHeld(Learned(before).statistics, last.user, last.shares, last.score, (user, app),
                     ObservationsOf(before, user, app));
    }
  }

  // ---------------------------------------------------------------------
  // What an application deserves
  // ---------------------------------------------------------------------

  function WeightOf(observations: seq<Observation>): real {
    Total(observations, Weight())
  }

  // The batch mean and variance; both are zero where nothing was observed.
  function BatchMean(observations: seq<Observation>): real {
    if WeightOf(observations) > 0.0 then Total(observations, Mass()) / WeightOf(observations) else 0.0
  }

  function BatchVariance(observations: seq<Observation>): real {
    if WeightOf(observations) > 0.0
    then Total(observations, Deviation(BatchMean(observations))) / WeightOf(observations) else 0.0
  }

  lemma RunningIsTheBatch(observations: seq<Observation>)
    requires Weighted(observations)
    ensures var s := Running(observations);
            s.weight == WeightOf(observations) && s.mean == BatchMean(observations) && s.Variance() == BatchVariance(observations)
  {
    if observations != [] {
      RunningIsBatch(observations);
    }
  }

  /** Enough was observed of the application to speak for itself. */
  predicate Known(config: Config, observations: seq<Observation>) {
    WeightOf(observations) >= config.minObservations
  }

  /** The confidence an application deserves: one minus its scaled variance, at least the
      floor, when enough was observed of it, whatever its category; its category's bootstrap
      otherwise, whatever was observed. */
  function Deserved(config: Config, observations: seq<Observation>, category: Category): real
    requires category in config.bootstrap
  {
    if !Known(config, observations) then config.bootstrap[category]
    else if 1.0 - config.varianceScale * BatchVariance(observations) < config.confidenceFloor then config.confidenceFloor
    else 1.0 - config.varianceScale * BatchVariance(observations)
  }

  // The record of an application, in terms of its observations.
  lemma RecordIsTheBatch(windows: seq<Genuine>, user: string, app: nat)
    ensures var table, observations := Learned(windows).statistics, ObservationsOf(windows, user, app);
            && ((user, app) !in table ==> WeightOf(observations) == 0.0)
            && Lookup(table, (user, app)).weight == WeightOf(observations)
            && Lookup(table, (user, app)).mean == BatchMean(observations)
            && Lookup(table, (user, app)).Variance() == BatchVariance(observations)
  {
    RecordsAreTheirObservations(windows, user, app);
    ObservationsAreWeighted(windows, user, app);
    RunningIsTheBatch(ObservationsOf(windows, user, app));
  }

  // What the table after learning says of one share.
  lemma ShareIsExact(config: Config, windows: seq<Genuine>, user: string, share: FocusShare)
    requires config.Valid()
    ensures var table, observations := Learned(windows).statistics, ObservationsOf(windows, user, share.appId);
            AppConfidence(config, table, user, share) == (Deserved(config, observations, share.category), Known(config, observations))
  {
    var table, observations := Learned(windows).statistics, ObservationsOf(windows, user, share.appId);
    RecordIsTheBatch(windows, user, share.appId);
    DeservedIsFloored(config, observations, share.category);
    ConfidenceOfRecord(config, table, user, share, WeightOf(observations), BatchVariance(observations));
  }

  // The confidence of an application, given the weight and the variance of its record.
  lemma ConfidenceOfRecord(config: Config, table: map<AppKey, Statistics>, user: string, share: FocusShare, weight: real,
                           variance: real)
    requires config.Valid()
    requires Lookup(table, (user, share.appId)).weight == weight && Lookup(table, (user, share.appId)).Variance() == variance
    ensures AppConfidence(config, table, user, share) ==
            if weight >= config.minObservations then (RiskTypes.RealMax(config.confidenceFloor, Steadiness(config.varianceScale, variance)), true)
            else (RiskTypes.RealMax(config.confidenceFloor, config.bootstrap[share.category]), false)
  {
    var key := (user, share.appId);
    if key in table {
      assert table[key].Variance() == variance;
    } else {
      assert weight == 0.0;
    }
  }

  // The larger of the two, written as the source does.
  lemma DeservedIsFloored(config: Config, observations: seq<Observation>, category: Category)
    requires config.Valid()
    ensures Deserved(config, observations, category) ==
            if Known(config, observations)
            then RiskTypes.RealMax(config.confidenceFloor, Steadiness(config.varianceScale, BatchVariance(observations)))
            else RiskTypes.RealMax(config.confidenceFloor, config.bootstrap[category])
  {
    assert config.confidenceFloor <= config.bootstrap[category];
    SteadinessMeans(config.varianceScale, BatchVariance(observations));
  }

  lemma SteadinessMeans(scale: real, variance: real)
    ensures Steadiness(scale, variance) == 1.0 - scale * variance
  {
  }

  // ---------------------------------------------------------------------
  // A window's assessment is the mean over its focus
  // ---------------------------------------------------------------------

  /** The sum of a value over the window, in proportion to its focus. */
  ghost function OverFocus(shares: seq<FocusShare>, f: FocusShare -> real): real {
    if shares == [] then 0.0
    else OverFocus(shares[..|shares| - 1], f) + shares[|shares| - 1].fraction * f(shares[|shares| - 1])
  }

  lemma ScaledUndone(fraction: real, total: real, x: real)
    requires total > 0.0
    ensures total * Scaled(fraction, total, x) == fraction * x
  {
    var part := fraction / total;
    assert total * part == fraction;
    assert total * (part * x) == (total * part) * x;
  }

  /** The value, weighed by the whole focus of the window, is the sum over its shares. */
  ghost predicate IsFocusMean(shares: seq<FocusShare>, total: real, value: real, f: FocusShare -> real) {
    total * value == OverFocus(shares, f)
  }

  ghost predicate Alike(shares: seq<FocusShare>, f: FocusShare -> real, g: FocusShare -> real) {
    forall i :: 0 <= i < |shares| ==> f(shares[i]) == g(shares[i])
  }

  lemma {:induction false} BlendIsWeighted(shares: seq<FocusShare>, total: real, f: FocusShare -> real,
                                           g: FocusShare -> real)
    requires total > 0.0 && Alike(shares, f, g)
    ensures IsFocusMean(shares, total, Blend(shares, total, f), g)
    decreases |shares|
  {
    if shares != [] {
      var before, last := shares[..|shares| - 1], shares[|shares| - 1];
      BlendIsWeighted(before, total, f, g);
      ScaledUndone(last.fraction, total, f(last));
      var blended, more := Blend(before, total, f), Scaled(last.fraction, total, f(last));
      assert total * (blended + more) == total * blended + total * more;
    }
  }

  ghost function DeservedBy(config: Config, windows: seq<Genuine>, user: string): FocusShare -> real
    requires config.Valid()
  {
    (share: FocusShare) => Deserved(config, ObservationsOf(windows, user, share.appId), share.category)
  }

  ghost function KnownBy(config: Config, windows: seq<Genuine>, user: string): FocusShare -> real {
    (share: FocusShare) => if Known(config, ObservationsOf(windows, user, share.appId)) then 1.0 else 0.0
  }

  ghost function MeanBy(config: Config, windows: seq<Genuine>, user: string): FocusShare -> real {
    (share: FocusShare) =>
      var observations := ObservationsOf(windows, user, share.appId);
      if Known(config, observations) then BatchMean(observations) else 0.0
  }

  ghost function VarianceBy(config: Config, windows: seq<Genuine>, user: string): FocusShare -> real {
    (share: FocusShare) =>
      var observations := ObservationsOf(windows, user, share.appId);
      if Known(config, observations) then BatchVariance(observations) else 0.0
  }

  function EvidenceBy(windows: seq<Genuine>, user: string, shares: seq<FocusShare>): real {
    if shares == [] then 0.0
    else
      EvidenceBy(windows, user, shares[..|shares| - 1])
      + WeightOf(ObservationsOf(windows, user, shares[|shares| - 1].appId))
  }

  lemma {:induction false} EvidenceIsExact(config: Config, windows: seq<Genuine>, user: string, shares: seq<FocusShare>)
    requires config.Valid()
    ensures EvidenceOf(Learned(windows).statistics, user, shares) == EvidenceBy(windows, user, shares)
  {
    if shares != [] {
      EvidenceIsExact(config, windows, user, shares[..|shares| - 1]);
      RecordIsTheBatch(windows, user, shares[|shares| - 1].appId);
    }
  }

  lemma ConfidencesAreDeserved(config: Config, windows: seq<Genuine>, user: string, shares: seq<FocusShare>)
    requires config.Valid()
    ensures Alike(shares, ConfidenceOf(config, Learned(windows).statistics, user), DeservedBy(config, windows, user))
    ensures Alike(shares, CoverageOf(config, Learned(windows).statistics, user), KnownBy(config, windows, user))
  {
    forall i | 0 <= i < |shares|
      ensures AppConfidence(config, Learned(windows).statistics, user, shares[i])
              == (DeservedBy(config, windows, user)(shares[i]), Known(config, ObservationsOf(windows, user, shares[i].appId)))
    {
      ShareIsExact(config, windows, user, shares[i]);
    }
  }

  lemma MomentsAreBatch(config: Config, windows: seq<Genuine>, user: string, shares: seq<FocusShare>)
    requires config.Valid()
    ensures Alike(shares, MeanOf(config, Learned(windows).statistics, user), MeanBy(config, windows, user))
    ensures Alike(shares, VarianceOf(config, Learned(windows).statistics, user), VarianceBy(config, windows, user))
  {
    forall i | 0 <= i < |shares|
      ensures MeanOf(config, Learned(windows).statistics, user)(shares[i]) == MeanBy(config, windows, user)(shares[i])
      ensures VarianceOf(config, Learned(windows).statistics, user)(shares[i]) == VarianceBy(config, windows, user)(shares[i])
    {
      MomentIsBatch(config, windows, user, shares[i]);
    }
  }

  lemma MomentIsBatch(config: Config, windows: seq<Genuine>, user: string, share: FocusShare)
    requires config.Valid()
    ensures MeanOf(config, Learned(windows).statistics, user)(share) == MeanBy(config, windows, user)(share)
    ensures VarianceOf(config, Learned(windows).statistics, user)(share) == VarianceBy(config, windows, user)(share)
  {
    ShareIsExact(config, windows, user, share);
    RecordIsTheBatch(windows, user, share.appId);
  }

  /** Main result: after learning from any list of genuine windows, what `Assess` blends over
      a window is the focus-weighted mean of what each application deserves, and so are its
      coverage, mean and variance; the evidence is the weight observed of its applications. */
  lemma AssessmentIsExact(config: Config, windows: seq<Genuine>, user: string, shares: seq<FocusShare>, total: real)
    requires config.Valid() && total > 0.0
    ensures var table := Learned(windows).statistics;
            && IsFocusMean(shares, total, Blend(shares, total, ConfidenceOf(config, table, user)), DeservedBy(config, windows, user))
            && IsFocusMean(shares, total, Blend(shares, total, CoverageOf(config, table, user)), KnownBy(config, windows, user))
            && IsFocusMean(shares, total, Blend(shares, total, MeanOf(config, table, user)), MeanBy(config, windows, user))
            && IsFocusMean(shares, total, Blend(shares, total, VarianceOf(config, table, user)), VarianceBy(config, windows, user))
            && EvidenceOf(table, user, shares) == EvidenceBy(windows, user, shares)
  {
    var table := Learned(windows).statistics;
    ConfidencesAreDeserved(config, windows, user, shares);
    MomentsAreBatch(config, windows, user, shares);
    BlendIsWeighted(shares, total, ConfidenceOf(config, table, user), DeservedBy(config, windows, user));
    BlendIsWeighted(shares, total, CoverageOf(config, table, user), KnownBy(config, windows, user));
    BlendIsWeighted(shares, total, MeanOf(config, table, user), MeanBy(config, windows, user));
    BlendIsWeighted(shares, total, VarianceOf(config, table, user), VarianceBy(config, windows, user));
    EvidenceIsExact(config, windows, user, shares);
  }

  /** The confidence in an application known well enough falls as the variance of what was
      observed of it grows, and its category does not matter. */
  lemma ConfidenceFallsWithVariance(config: Config, a: seq<Genuine>, b: seq<Genuine>, user: string, first: FocusShare,
                                    second: FocusShare)
    requires config.Valid()
    requires var steady, varied := ObservationsOf(a, user, first.appId), ObservationsOf(b, user, second.appId);
             && Known(config, steady) && Known(config, varied) && BatchVariance(steady) <= BatchVariance(varied)
    ensures ConfidenceOf(config, Learned(a).statistics, user)(first) >= ConfidenceOf(config, Learned(b).statistics, user)(second)
  {
    ShareIsExact(config, a, user, first);
    ShareIsExact(config, b, user, second);
    DeservedFalls(config, ObservationsOf(a, user, first.appId), ObservationsOf(b, user, second.appId), first.category,
                  second.category);
  }

  lemma DeservedFalls(config: Config, steady: seq<Observation>, varied: seq<Observation>, first: Category, second: Category)
    requires config.Valid() && Known(config, steady) && Known(config, varied)
    requires BatchVariance(steady) <= BatchVariance(varied)
    ensures Deserved(config, steady, first) >= Deserved(config, varied, second)
  {
    DeservedIsFloored(config, steady, first);
    DeservedIsFloored(config, varied, second);
    SteadinessFalls(config.varianceScale, BatchVariance(steady), BatchVariance(varied));
  }

  lemma SteadinessFalls(scale: real, less: real, more: real)
    requires scale >= 0.0 && less <= more
    ensures Steadiness(scale, more) <= Steadiness(scale, less)
  {
    RiskTypes.ProductIsMonotone(less, more, scale);
  }

  // ---------------------------------------------------------------------
  // The parameters of normalisation
  // ---------------------------------------------------------------------

  // Every score observed of the user, each counted once.
  function BaselineOf(windows: seq<Genuine>, user: string): seq<Observation> {
    if windows == [] then []
    else
      var last := windows[|windows| - 1];
      BaselineOf(windows[..|windows| - 1], user) + if last.user == user then [Observation(last.score, 1.0)] else []
  }

  lemma {:induction false} BaselinesAreTheirObservations(windows: seq<Genuine>, user: string)
    ensures var baselines, observations := Learned(windows).baselines, BaselineOf(windows, user);
            && Weighted(observations) && WeightOf(observations) == |observations| as real
            && (user in baselines <==> observations != []) && Lookup(baselines, user) == Running(observations)
    decreases |windows|
  {
    if windows != [] {
      var before, last := windows[..|windows| - 1], windows[|windows| - 1];
      BaselinesAreTheirObservations(before, user);
      var observations := BaselineOf(before, user);
      if last.user == user {
        RunningOneMore(observations, Observation(last.score, 1.0));
        assert (observations + [Observation(last.score, 1.0)])[..|observations|] == observations;
      } else {
        assert observations + [] == observations;
      }
    }
  }

  lemma BaselineIsTheBatch(windows: seq<Genuine>, user: string)
    ensures var s, observations := Lookup(Learned(windows).baselines, user), BaselineOf(windows, user);
            && s.weight == |observations| as real
            && s.mean == BatchMean(observations) && s.Variance() == BatchVariance(observations)
  {
    BaselinesAreTheirObservations(windows, user);
    RunningIsTheBatch(BaselineOf(windows, user));
  }

  /** The assessment normalises exactly when the mode asks for it, half of the window is
      covered and enough windows of the user were learned from; then it carries the given
      context's mean and deviation and the batch mean and deviation of all the user's scores,
      no deviation below the least scale. Otherwise it carries the confidence alone. */
  lemma ParametersAreExact(config: Config, windows: seq<Genuine>, user: string, confidence: real, coverage: real, mean: real,
                           variance: real, root: real -> real)
    requires config.Valid()
    ensures var observations := BaselineOf(windows, user);
            var built := Built(config, Learned(windows).baselines, user, confidence, coverage, mean, variance, root);
            && built.confidence == confidence
            && (built.NormalizationAvailable() <==>
                  && config.mode == RiskTypes.PerContextNormalization && coverage >= 0.5
                  && |observations| as real >= config.minObservations)
            && (built.NormalizationAvailable() ==>
                  && built.contextLocation == Some(mean)
                  && built.contextScale == Some(RiskTypes.RealMax(root(RiskTypes.RealMax(variance, 0.0)), config.minScale))
                  && built.baselineLocation == Some(BatchMean(observations))
                  && built.baselineScale == Some(RiskTypes.RealMax(root(BatchVariance(observations)), config.minScale)))
            && (!built.NormalizationAvailable() ==>
                  built == RiskTypes.ContextAssessment(confidence, RiskTypes.MultiplicativeDamping, None, None, None, None))
  {
    BaselinesAreTheirObservations(windows, user);
    BaselineIsTheBatch(windows, user);
  }
}
