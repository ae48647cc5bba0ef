/** Per-application context statistics: learning from genuine windows, and the confidence
    assessed from what was learned. */
module ContextLayer {
  import opened Wrappers
  import opened Texts
  import opened Timelines
  import opened Sums
  import opened Moments
  import RiskTypes

  datatype FocusShare = FocusShare(appId: nat, category: Category, fraction: real)

  type AppKey = (string, nat)

  datatype Config = Config(
    confidenceFloor: real,
    minObservations: real,
    varianceScale: real,
    mode: RiskTypes.AdjustmentMode,
    minScale: real,
    bootstrap: map<Category, real>)
  {
    // The schema bounds and the constructor's checks.
    ghost predicate Valid() {
      && 0.0 < confidenceFloor <= 1.0 && 1.0 <= minObservations && 0.0 < varianceScale && 0.0 < minScale
      && forall c: Category :: c in bootstrap && confidenceFloor <= bootstrap[c] <= 1.0
    }
  }

  datatype ConfidenceSource = Empirical | Bootstrap | NeutralFallback

  /** One assessment explained; the variance only where some application is empirical. */
  datatype Trace = Trace(
    assessment: RiskTypes.ContextAssessment, source: ConfidenceSource, evidence: real, coverage: real,
    variance: Option<real>, bootstrap: real)

  datatype LayerError = BlankUser | ScoreOutOfRange

  function Lookup<K>(table: map<K, Statistics>, key: K): Statistics {
    if key in table then table[key] else Empty
  }

  // ---------------------------------------------------------------------
  // Learning
  // ---------------------------------------------------------------------

  function Credited(table: map<AppKey, Statistics>, user: string, share: FocusShare, score: real)
    : map<AppKey, Statistics>
  {
    if share.fraction <= 0.0 then table
    else table[(user, share.appId) := Lookup(table, (user, share.appId)).Update(score, share.fraction)]
  }

  function CreditedAll(table: map<AppKey, Statistics>, user: string, shares: seq<FocusShare>, score: real)
    : map<AppKey, Statistics>
  {
    if shares == [] then table
    else Credited(CreditedAll(table, user, shares[..|shares| - 1], score), user, shares[|shares| - 1], score)
  }

  ghost predicate AllPlausible<K>(table: map<K, Statistics>) {
    forall k :: k in table ==> table[k].Plausible() && table[k].weight > 0.0
  }

  // ---------------------------------------------------------------------
  // Assessment
  // ---------------------------------------------------------------------

  // One minus the scaled variance.
  function Steadiness(scale: real, variance: real): real {
    1.0 - scale * variance
  }

  function AppConfidence(config: Config, table: map<AppKey, Statistics>, user: string, share: FocusShare): (real, bool)
    requires share.category in config.bootstrap
  {
    var key := (user, share.appId);
    if key in table && table[key].weight >= config.minObservations then
      (RiskTypes.RealMax(config.confidenceFloor, Steadiness(config.varianceScale, table[key].Variance())), true)
    else (RiskTypes.RealMax(config.confidenceFloor, config.bootstrap[share.category]), false)
  }

  function TotalFraction(shares: seq<FocusShare>): real {
    if shares == [] then 0.0 else TotalFraction(shares[..|shares| - 1]) + shares[|shares| - 1].fraction
  }

  // The shares with a positive fraction.
  function Usable(shares: seq<FocusShare>): seq<FocusShare> {
    if shares == [] then []
    else Usable(shares[..|shares| - 1]) + if shares[|shares| - 1].fraction > 0.0 then [shares[|shares| - 1]] else []
  }

  /** x, counted in proportion to a fraction of the total. */
  function Scaled(fraction: real, total: real, x: real): real
    requires total > 0.0
  {
    fraction / total * x
  }

  /** The mixture of a per-application value over the shares. */
  function Blend(shares: seq<FocusShare>, total: real, f: FocusShare -> real): real
    requires total > 0.0
  {
    if shares == [] then 0.0
    else
      var last := shares[|shares| - 1];
      Blend(shares[..|shares| - 1], total, f) + Scaled(last.fraction, total, f(last))
  }

  ghost function ConfidenceOf(config: Config, table: map<AppKey, Statistics>, user: string): FocusShare -> real
    requires config.Valid()
  {
    (share: FocusShare) => AppConfidence(config, table, user, share).0
  }

  ghost function CoverageOf(config: Config, table: map<AppKey, Statistics>, user: string): FocusShare -> real
    requires config.Valid()
  {
    (share: FocusShare) => if AppConfidence(config, table, user, share).1 then 1.0 else 0.0
  }

  // The genuine mean and variance of the applications that count as empirical.
  ghost function MeanOf(config: Config, table: map<AppKey, Statistics>, user: string): FocusShare -> real
    requires config.Valid()
  {
    (share: FocusShare) =>
      if AppConfidence(config, table, user, share).1 then Lookup(table, (user, share.appId)).mean else 0.0
  }

  ghost function VarianceOf(config: Config, table: map<AppKey, Statistics>, user: string): FocusShare -> real
    requires config.Valid()
  {
    (share: FocusShare) =>
      if AppConfidence(config, table, user, share).1 then Lookup(table, (user, share.appId)).Variance() else 0.0
  }

  predicate AnyKnown(table: map<AppKey, Statistics>, user: string, shares: seq<FocusShare>) {
    exists i :: 0 <= i < |shares| && (user, shares[i].appId) in table
  }

  ghost function EvidenceOf(table: map<AppKey, Statistics>, user: string, shares: seq<FocusShare>): real {
    if shares == [] then 0.0
    else EvidenceOf(table, user, shares[..|shares| - 1]) + Lookup(table, (user, shares[|shares| - 1].appId)).weight
  }

  // Confidence without normalisation parameters.
  function Damping(confidence: real): RiskTypes.ContextAssessment {
    RiskTypes.ContextAssessment(confidence, RiskTypes.MultiplicativeDamping, None, None, None, None)
  }

  /** The user's baseline supports normalising a window with this empirical coverage. */
  predicate Normalises(config: Config, baselines: map<string, Statistics>, user: string, coverage: real) {
    && config.mode == RiskTypes.PerContextNormalization
    && user in baselines && coverage >= 0.5 && baselines[user].weight >= config.minObservations
  }

  /** The assessment built from a mixture; `root` is the square root. */
  function Built(config: Config, baselines: map<string, Statistics>, user: string, confidence: real, coverage: real,
                 mean: real, variance: real, root: real -> real): RiskTypes.ContextAssessment
  {
    if !Normalises(config, baselines, user, coverage) then Damping(confidence)
    else
      RiskTypes.ContextAssessment(
        confidence, RiskTypes.PerContextNormalization,
        Some(mean), Some(RiskTypes.RealMax(root(RiskTypes.RealMax(variance, 0.0)), config.minScale)),
        Some(baselines[user].mean), Some(RiskTypes.RealMax(root(baselines[user].Variance()), config.minScale)))
  }

  class ContextConfidenceLayer {
    const config: Config
    var statistics: map<AppKey, Statistics>
    var baselines: map<string, Statistics>
    var learningSuspended: bool

    ghost predicate Valid()
      reads this
    {
      config.Valid() && AllPlausible(statistics) && AllPlausible(baselines)
    }

    constructor (config: Config)
      requires config.Valid()
      ensures Valid() && this.config == config
      ensures statistics == map[] && baselines == map[] && !learningSuspended
    {
      this.config := config;
      statistics, baselines, learningSuspended := map[], map[], false;
    }

    method SuspendLearning(enabled: bool)
      requires Valid()
      modifies this`learningSuspended
      ensures Valid() && learningSuspended == enabled
    {
      learningSuspended := enabled;
    }

    method ObserveGenuine(user: string, shares: seq<FocusShare>, score: real) returns (result: Result<(), LayerError>)
      requires Valid()
      modifies this`statistics, this`baselines
      ensures Valid()
      ensures result.Err? <==> !learningSuspended && (Blank(user) || !(0.0 <= score <= 1.0))
      ensures Learning(statistics, baselines) ==
              if learningSuspended || result.Err? then old(Learning(statistics, baselines))
              else Observed(old(Learning(statistics, baselines)), user, shares, score)
    {
      if learningSuspended {
        return Ok(());
      }
      if Blank(user) {
        return Err(BlankUser);
      }
      if !(0.0 <= score <= 1.0) {
        return Err(ScoreOutOfRange);
      }
      for i := 0 to |shares|
        invariant Valid() && baselines == old(baselines)
        invariant statistics == CreditedAll(old(statistics), user, shares[..i], score)
      {
        assert shares[..i + 1][..i] == shares[..i];
        var share := shares[i];
        if share.fraction <= 0.0 {
          continue;
        }
        var current := Lookup(statistics, (user, share.appId));
        UpdateIsPlausible(current, score, share.fraction);
        statistics := statistics[(user, share.appId) := current.Update(score, share.fraction)];
      }
      assert shares[..|shares|] == shares;
      var baseline := Lookup(baselines, user);
      UpdateIsPlausible(baseline, score, 1.0);
      baselines := baselines[user := baseline.Update(score, 1.0)];
      return Ok(());
    }

    /** The confidence of a window: the share-weighted mixture of its applications'. The
        source's clamps are kept; the contract says they never bind. */
    method Assess(user: string, shares: seq<FocusShare>, dominant: Category, root: real -> real)
      returns (result: Result<Trace, LayerError>)
      requires Valid()
      ensures result.Err? <==> Blank(user)
      ensures result.Ok? ==>
                && result.value.assessment.Valid() && config.confidenceFloor <= result.value.assessment.confidence
                && 0.0 <= result.value.coverage <= 1.0
                && result.value.bootstrap == config.bootstrap[dominant]
      ensures result.Ok? && Usable(shares) == [] ==>
                result.value == Trace(Damping(config.bootstrap[dominant]), NeutralFallback, 0.0, 0.0, None, config.bootstrap[dominant])
      ensures result.Ok? && Usable(shares) != [] ==>
                var usable := Usable(shares);
                var total := TotalFraction(usable);
                && total > 0.0
                && var variance := Blend(usable, total, VarianceOf(config, statistics, user));
                && result.value.assessment ==
                   Built(config, baselines, user, Blend(usable, total, ConfidenceOf(config, statistics, user)),
                         result.value.coverage, Blend(usable, total, MeanOf(config, statistics, user)), variance, root)
                && result.value.coverage == Blend(usable, total, CoverageOf(config, statistics, user))
                && result.value.evidence == EvidenceOf(statistics, user, usable)
                && result.value.variance == (if result.value.coverage > 0.0 then Some(variance) else None)
                && result.value.source ==
                   (if result.value.coverage >= 0.5 then Empirical
                    else if AnyKnown(statistics, user, usable) || dominant != UnknownCategory then Bootstrap
                    else NeutralFallback)
    {
      if Blank(user) {
        return Err(BlankUser);
      }
      var usable := Usable(shares);
      var total := TotalFraction(usable);
      UsableIsPositive(shares);
      var reference := config.bootstrap[dominant];
      if usable == [] || total <= 0.0 {
        return Ok(Trace(Damping(RiskTypes.RealMax(config.confidenceFloor, reference)), NeutralFallback, 0.0, 0.0, None,
                        reference));
      }
      var blended, coverage, evidence, mean, variance, anyStatistics := Accumulate(user, usable, total);
      MixtureBounds(config, statistics, user, usable);
      var floored := RiskTypes.RealMax(config.confidenceFloor, blended);
      var confidence := if 1.0 <= floored then 1.0 else floored;
      var source :=
        if coverage >= 0.5 then Empirical
        else if anyStatistics || dominant != UnknownCategory then Bootstrap
        else NeutralFallback;
      var assessment := BuildAssessment(user, confidence, coverage, mean, variance, root);
      return Ok(Trace(assessment, source, evidence, coverage, if coverage > 0.0 then Some(variance) else None, reference));
    }

    // Normalisation parameters, when the mode asks for them and the evidence allows.
    method BuildAssessment(user: string, confidence: real, coverage: real, mean: real, variance: real,
                           root: real -> real) returns (assessment: RiskTypes.ContextAssessment)
      requires Valid() && 0.0 < confidence <= 1.0
      ensures assessment == Built(config, baselines, user, confidence, coverage, mean, variance, root)
      ensures assessment.Valid()
      ensures assessment.NormalizationAvailable() <==> Normalises(config, baselines, user, coverage)
    {
      if config.mode != RiskTypes.PerContextNormalization {
        return Damping(confidence);
      }
      if user !in baselines || coverage < 0.5 || baselines[user].weight < config.minObservations {
        return Damping(confidence);
      }
      var baseline := baselines[user];
      return RiskTypes.ContextAssessment(
          confidence, RiskTypes.PerContextNormalization,
          Some(mean), Some(RiskTypes.RealMax(root(RiskTypes.RealMax(variance, 0.0)), config.minScale)),
          Some(baseline.mean), Some(RiskTypes.RealMax(root(baseline.Variance()), config.minScale)));
    }

    method Accumulate(user: string, usable: seq<FocusShare>, total: real)
      returns (blended: real, coverage: real, evidence: real, mean: real, variance: real, anyStatistics: bool)
      requires Valid() && total > 0.0
      ensures blended == Blend(usable, total, ConfidenceOf(config, statistics, user))
      ensures coverage == Blend(usable, total, CoverageOf(config, statistics, user))
      ensures evidence == EvidenceOf(statistics, user, usable)
      ensures mean == Blend(usable, total, MeanOf(config, statistics, user))
      ensures variance == Blend(usable, total, VarianceOf(config, statistics, user))
      ensures anyStatistics <==> AnyKnown(statistics, user, usable)
    {
      blended, coverage, evidence, mean, variance, anyStatistics := 0.0, 0.0, 0.0, 0.0, 0.0, false;
      for i := 0 to |usable|
        invariant blended == Blend(usable[..i], total, ConfidenceOf(config, statistics, user))
        invariant coverage == Blend(usable[..i], total, CoverageOf(config, statistics, user))
        invariant evidence == EvidenceOf(statistics, user, usable[..i])
        invariant mean == Blend(usable[..i], total, MeanOf(config, statistics, user))
        invariant variance == Blend(usable[..i], total, VarianceOf(config, statistics, user))
        invariant anyStatistics <==> AnyKnown(statistics, user, usable[..i])
      {
        assert usable[..i + 1][..i] == usable[..i];
        var share := usable[i];
        var (confidence, isEmpirical) := AppConfidence(config, statistics, user, share);
        var key := (user, share.appId);
        blended := blended + Scaled(share.fraction, total, confidence);
        ScaledZero(share.fraction, total);
        if isEmpirical {
          coverage := coverage + Scaled(share.fraction, total, 1.0);
          mean := mean + Scaled(share.fraction, total, statistics[key].mean);
          variance := variance + Scaled(share.fraction, total, statistics[key].Variance());
        }
        if key in statistics {
          anyStatistics := true;
          evidence := evidence + statistics[key].weight;
        }
      }
      assert usable[..|usable|] == usable;
    }
  }

  // ---------------------------------------------------------------------
  // Bounds of a blend
  // ---------------------------------------------------------------------

  ghost predicate Positive(shares: seq<FocusShare>) {
    forall i :: 0 <= i < |shares| ==> shares[i].fraction > 0.0
  }

  lemma {:induction false} UsableIsPositive(shares: seq<FocusShare>)
    ensures Positive(Usable(shares))
    ensures Usable(shares) != [] ==> TotalFraction(Usable(shares)) > 0.0
    decreases |shares|
  {
    if shares != [] {
      UsableIsPositive(shares[..|shares| - 1]);
      var usable, last := Usable(shares[..|shares| - 1]), shares[|shares| - 1];
      if last.fraction > 0.0 {
        assert (usable + [last])[..|usable|] == usable;
        assert TotalFraction(Usable(shares)) == TotalFraction(usable) + last.fraction;
      } else {
        assert Usable(shares) == usable;
      }
    }
  }

  /** Every application's confidence lies between the floor and one: the variance of a
      plausible record is not negative, so its empirical confidence cannot exceed one. */
  lemma AppConfidenceBounds(config: Config, table: map<AppKey, Statistics>, user: string)
    requires config.Valid() && AllPlausible(table)
    ensures forall share :: config.confidenceFloor <= ConfidenceOf(config, table, user)(share) <= 1.0
  {
    forall share ensures config.confidenceFloor <= ConfidenceOf(config, table, user)(share) <= 1.0 {
      var key := (user, share.appId);
      if key in table {
        VarianceIsBounded(table[key]);
        assert config.varianceScale * table[key].Variance() >= 0.0;
      }
    }
  }

  lemma ScaledZero(fraction: real, total: real)
    requires total > 0.0
    ensures Scaled(fraction, total, 0.0) == 0.0
  {
  }

  lemma ScaledIsMonotone(fraction: real, total: real, x: real, y: real)
    requires fraction > 0.0 && total > 0.0 && x <= y
    ensures Scaled(fraction, total, x) <= Scaled(fraction, total, y)
  {
    var part := fraction / total;
    assert part > 0.0;
    assert part * (y - x) >= 0.0;
  }

  lemma ScaledAdds(first: real, second: real, total: real, x: real)
    requires total > 0.0
    ensures Scaled(first + second, total, x) == Scaled(first, total, x) + Scaled(second, total, x)
  {
    var a, b := first / total, second / total;
    assert (first + second) / total == a + b;
    assert (a + b) * x == a * x + b * x;
  }

  lemma ScaledWhole(total: real, x: real)
    requires total > 0.0
    ensures Scaled(total, total, x) == x && Scaled(0.0, total, x) == 0.0
  {
    assert total / total == 1.0 && 0.0 / total == 0.0;
  }

  lemma {:induction false} PartialBlendIsBetween(
    shares: seq<FocusShare>, total: real, f: FocusShare -> real, low: real, high: real)
    requires total > 0.0 && Positive(shares) && forall s :: low <= f(s) <= high
    ensures Scaled(TotalFraction(shares), total, low) <= Blend(shares, total, f) <= Scaled(TotalFraction(shares), total, high)
    decreases |shares|
  {
    if shares == [] {
      ScaledWhole(total, low);
      ScaledWhole(total, high);
    } else {
      var before, last := shares[..|shares| - 1], shares[|shares| - 1];
      PartialBlendIsBetween(before, total, f, low, high);
      ScaledIsMonotone(last.fraction, total, low, f(last));
      ScaledIsMonotone(last.fraction, total, f(last), high);
      ScaledAdds(TotalFraction(before), last.fraction, total, low);
      ScaledAdds(TotalFraction(before), last.fraction, total, high);
    }
  }

  /** A mixture lies between the bounds of what it mixes. */
  lemma BlendIsBetween(shares: seq<FocusShare>, f: FocusShare -> real, low: real, high: real)
    requires TotalFraction(shares) > 0.0 && Positive(shares) && forall s :: low <= f(s) <= high
    ensures low <= Blend(shares, TotalFraction(shares), f) <= high
  {
    PartialBlendIsBetween(shares, TotalFraction(shares), f, low, high);
    ScaledWhole(TotalFraction(shares), low);
    ScaledWhole(TotalFraction(shares), high);
  }

  lemma MixtureBounds(config: Config, table: map<AppKey, Statistics>, user: string, shares: seq<FocusShare>)
    requires config.Valid() && AllPlausible(table) && TotalFraction(shares) > 0.0 && Positive(shares)
    ensures config.confidenceFloor <= Blend(shares, TotalFraction(shares), ConfidenceOf(config, table, user)) <= 1.0
    ensures 0.0 <= Blend(shares, TotalFraction(shares), CoverageOf(config, table, user)) <= 1.0
  {
    AppConfidenceBounds(config, table, user);
    BlendIsBetween(shares, ConfidenceOf(config, table, user), config.confidenceFloor, 1.0);
    BlendIsBetween(shares, CoverageOf(config, table, user), 0.0, 1.0);
  }

  // ---------------------------------------------------------------------
  // The per-application records recombine to the user's baseline
  // ---------------------------------------------------------------------

  datatype LearningState = Learning(statistics: map<AppKey, Statistics>, baselines: map<string, Statistics>)

  function Observed(s: LearningState, user: string, shares: seq<FocusShare>, score: real): LearningState {
    Learning(CreditedAll(s.statistics, user, shares, score),
             s.baselines[user := Lookup(s.baselines, user).Update(score, 1.0)])
  }

  ghost function KeysOf(table: map<AppKey, Statistics>, user: string): set<AppKey> {
    set key | key in table.Keys && key.0 == user
  }

  ghost function WeightAt(table: map<AppKey, Statistics>): AppKey -> real {
    (key: AppKey) => Lookup(table, key).weight
  }

  ghost function MassAt(table: map<AppKey, Statistics>): AppKey -> real {
    (key: AppKey) => Lookup(table, key).Raw().mass
  }

  ghost function UserWeight(table: map<AppKey, Statistics>, user: string): real {
    Sum(KeysOf(table, user), WeightAt(table))
  }

  ghost function UserMass(table: map<AppKey, Statistics>, user: string): real {
    Sum(KeysOf(table, user), MassAt(table))
  }

  // Raising one entry raises the sum over its owner's keys by as much, whether it is new or not.
  lemma SumOverKeys(before: map<AppKey, Statistics>, after: map<AppKey, Statistics>, key: AppKey,
                    f: AppKey -> real, g: AppKey -> real)
    requires after.Keys == before.Keys + {key}
    requires forall k: AppKey :: k != key ==> f(k) == g(k)
    requires key !in before ==> f(key) == 0.0
    ensures Sum(KeysOf(after, key.0), g) == Sum(KeysOf(before, key.0), f) + g(key) - f(key)
  {
    var keys := KeysOf(after, key.0);
    assert KeysOf(before, key.0) == if key in before then keys else keys - {key};
    SumChanges(keys, f, g, key);
    if key !in before {
      SumOut(keys, f, key);
    }
  }

  // Replacing one record moves its owner's sums by the difference.
  lemma ReplacementAdds(table: map<AppKey, Statistics>, key: AppKey, updated: Statistics)
    ensures var after := table[key := updated];
            && UserWeight(after, key.0) == UserWeight(table, key.0) + updated.weight - Lookup(table, key).weight
            && UserMass(after, key.0) == UserMass(table, key.0) + updated.Raw().mass - Lookup(table, key).Raw().mass
  {
    var after := table[key := updated];
    SumOverKeys(table, after, key, WeightAt(table), WeightAt(after));
    SumOverKeys(table, after, key, MassAt(table), MassAt(after));
  }

  function Moment(fraction: real, score: real): real {
    fraction * score
  }

  lemma UpdateMoves(s: Statistics, score: real, fraction: real)
    requires s.Plausible() && 0.0 <= score <= 1.0 && fraction > 0.0
    ensures var s' := s.Update(score, fraction);
            && s'.Plausible() && s'.weight > 0.0
            && s'.weight == s.weight + fraction
            && s'.Raw().mass == s.Raw().mass + Moment(fraction, score)
  {
    UpdateIsPlausible(s, score, fraction);
    UpdateAdds(s, score, fraction);
    assert s.Raw().Plus(score, fraction).mass == s.Raw().mass + Moment(fraction, score);
  }

  lemma CreditAdds(table: map<AppKey, Statistics>, user: string, share: FocusShare, score: real)
    requires AllPlausible(table) && share.fraction > 0.0 && 0.0 <= score <= 1.0
    ensures var after := Credited(table, user, share, score);
            && AllPlausible(after)
            && UserWeight(after, user) == UserWeight(table, user) + share.fraction
            && UserMass(after, user) == UserMass(table, user) + Moment(share.fraction, score)
  {
    var key := (user, share.appId);
    var current := Lookup(table, key);
    UpdateMoves(current, score, share.fraction);
    ReplacementAdds(table, key, current.Update(score, share.fraction));
  }

  lemma CreditLeavesOthers(table: map<AppKey, Statistics>, user: string, share: FocusShare, score: real, other: string)
    requires other != user
    ensures var after := Credited(table, user, share, score);
            UserWeight(after, other) == UserWeight(table, other) && UserMass(after, other) == UserMass(table, other)
  {
    var after := Credited(table, user, share, score);
    assert KeysOf(after, other) == KeysOf(table, other);
    SumOfEqual(KeysOf(table, other), WeightAt(table), WeightAt(after));
    SumOfEqual(KeysOf(table, other), MassAt(table), MassAt(after));
  }

  // Shares without focus contribute nothing.
  function PositiveFraction(shares: seq<FocusShare>): real {
    if shares == [] then 0.0
    else
      var fraction := shares[|shares| - 1].fraction;
      PositiveFraction(shares[..|shares| - 1]) + if fraction > 0.0 then fraction else 0.0
  }

  function PositiveMass(shares: seq<FocusShare>, score: real): real {
    if shares == [] then 0.0
    else
      var fraction := shares[|shares| - 1].fraction;
      PositiveMass(shares[..|shares| - 1], score) + if fraction > 0.0 then Moment(fraction, score) else 0.0
  }

  lemma {:induction false} MassIsFractionTimesScore(shares: seq<FocusShare>, score: real)
    ensures PositiveMass(shares, score) == PositiveFraction(shares) * score
  {
    if shares != [] {
      MassIsFractionTimesScore(shares[..|shares| - 1], score);
    }
  }

  // What crediting a whole window does to every user's sums.
  ghost predicate Adds(table: map<AppKey, Statistics>, after: map<AppKey, Statistics>, user: string, weight: real,
                       mass: real) {
    && AllPlausible(after)
    && UserWeight(after, user) == UserWeight(table, user) + weight
    && UserMass(after, user) == UserMass(table, user) + mass
    && forall other :: other != user ==>
         UserWeight(after, other) == UserWeight(table, other) && UserMass(after, other) == UserMass(table, other)
  }

  lemma CreditOneAdds(table: map<AppKey, Statistics>, user: string, share: FocusShare, score: real)
    requires AllPlausible(table) && 0.0 <= score <= 1.0
    ensures Adds(table, Credited(table, user, share, score), user,
                 if share.fraction > 0.0 then share.fraction else 0.0,
                 if share.fraction > 0.0 then Moment(share.fraction, score) else 0.0)
  {
    if share.fraction > 0.0 {
      CreditAdds(table, user, share, score);
      var after := Credited(table, user, share, score);
      forall other | other != user
        ensures UserWeight(after, other) == UserWeight(table, other) && UserMass(after, other) == UserMass(table, other)
      {
        CreditLeavesOthers(table, user, share, score, other);
      }
    }
  }

  lemma {:induction false} CreditAllAdds(table: map<AppKey, Statistics>, user: string, shares: seq<FocusShare>,
                                         score: real)
    requires AllPlausible(table) && 0.0 <= score <= 1.0
    ensures Adds(table, CreditedAll(table, user, shares, score), user, PositiveFraction(shares), PositiveMass(shares, score))
    decreases |shares|
  {
    if shares != [] {
      var before, share := shares[..|shares| - 1], shares[|shares| - 1];
      CreditAllAdds(table, user, before, score);
      CreditOneAdds(CreditedAll(table, user, before, score), user, share, score);
    }
  }

  datatype Genuine = Genuine(user: string, shares: seq<FocusShare>, score: real)

  // Windows whose positive shares make one unit of focus, as every mixture's do.
  ghost predicate Whole(windows: seq<Genuine>) {
    forall i :: 0 <= i < |windows| ==> PositiveFraction(windows[i].shares) == 1.0 && 0.0 <= windows[i].score <= 1.0
  }

  function Learned(windows: seq<Genuine>): LearningState {
    if windows == [] then Learning(map[], map[])
    else
      var last := windows[|windows| - 1];
      Observed(Learned(windows[..|windows| - 1]), last.user, last.shares, last.score)
  }

  // The user's application records hold what the user's baseline holds.
  ghost predicate Recombined(s: LearningState, user: string) {
    && AllPlausible(s.statistics) && AllPlausible(s.baselines)
    && UserWeight(s.statistics, user) == Lookup(s.baselines, user).weight
    && UserMass(s.statistics, user) == Lookup(s.baselines, user).Raw().mass
  }

  lemma BaselineMoves(baselines: map<string, Statistics>, user: string, score: real)
    requires AllPlausible(baselines) && 0.0 <= score <= 1.0
    ensures var after := baselines[user := Lookup(baselines, user).Update(score, 1.0)];
            && AllPlausible(after)
            && Lookup(after, user).weight == Lookup(baselines, user).weight + 1.0
            && Lookup(after, user).Raw().mass == Lookup(baselines, user).Raw().mass + score
            && forall other :: other != user ==> Lookup(after, other) == Lookup(baselines, other)
  {
    UpdateMoves(Lookup(baselines, user), score, 1.0);
    assert Moment(1.0, score) == score;
  }

  /** One whole window keeps every user's records recombined. */
  lemma ObservingRecombines(s: LearningState, window: Genuine, user: string)
    requires Recombined(s, user) && PositiveFraction(window.shares) == 1.0 && 0.0 <= window.score <= 1.0
    ensures Recombined(Observed(s, window.user, window.shares, window.score), user)
  {
    CreditAllAdds(s.statistics, window.user, window.shares, window.score);
    MassIsFractionTimesScore(window.shares, window.score);
    assert PositiveMass(window.shares, window.score) == window.score;
    BaselineMoves(s.baselines, window.user, window.score);
  }

  /** Recombination: for every user, the application records hold exactly the weight and
      the weighted sum of the user's baseline, so their weighted means average to its mean. */
  lemma {:induction false} RecordsRecombine(windows: seq<Genuine>, user: string)
    requires Whole(windows)
    ensures Recombined(Learned(windows), user)
    decreases |windows|
  {
    if windows == [] {
      assert KeysOf(map[], user) == {};
    } else {
      RecordsRecombine(windows[..|windows| - 1], user);
      ObservingRecombines(Learned(windows[..|windows| - 1]), windows[|windows| - 1], user);
    }
  }
}
