/** The false rejection rate of a first profile, measured on the percentile scale. */
module FalseRejection {
  import opened Wrappers
  import opened RiskTypes
  import Calibration
  import RiskCore
  import RiskEngines

  /** What scoring one window gives: a percentile for each modality that is available, an
      artifact that must not be used at all, or a raw score that is not finite. */
  datatype WindowScores =
    | SchemaMismatched
    | NotFinite
    | Percentiles(keyboard: Option<real>, mouse: Option<real>)

  datatype MeasureError = RefusedArtifact

  predicate ValidPercentile(percentile: Option<real>) {
    percentile.Some? ==> 0.0 <= percentile.value <= 100.0
  }

  predicate ValidScores(window: WindowScores) {
    window.Percentiles? ==> ValidPercentile(window.keyboard) && ValidPercentile(window.mouse)
  }

  predicate AllValid(windows: seq<WindowScores>) {
    forall i :: 0 <= i < |windows| ==> ValidScores(windows[i])
  }

  function RiskOf(percentile: real): real {
    1.0 - percentile / 100.0
  }

  function PercentileFor(risk: real): real {
    (1.0 - risk) * 100.0
  }

  function WeightedMean(p: real, q: real, v: real, w: real): real
    requires v + w > 0.0
  {
    (v * p + w * q) / (v + w)
  }

  /** Availability-renormalised fusion on the percentile scale. */
  function FusePercentiles(keyboard: Option<real>, mouse: Option<real>, keyboardWeight: real,
                           mouseWeight: real): Option<real>
    requires keyboardWeight + mouseWeight > 0.0
  {
    if keyboard.None? then mouse
    else if mouse.None? then keyboard
    else Some(WeightedMean(keyboard.value, mouse.value, keyboardWeight, mouseWeight))
  }

  function FusedOf(settings: RiskSettings, window: WindowScores): Option<real>
    requires settings.Valid()
  {
    if window.Percentiles? then FusePercentiles(window.keyboard, window.mouse, settings.keyboardWeight, settings.mouseWeight)
    else None
  }

  function FusedAll(settings: RiskSettings, windows: seq<WindowScores>): seq<real>
    requires settings.Valid()
  {
    if windows == [] then []
    else
      var last := FusedOf(settings, windows[|windows| - 1]);
      FusedAll(settings, windows[..|windows| - 1]) + if last.Some? then [last.value] else []
  }

  method FusedWindowPercentiles(settings: RiskSettings, windows: seq<WindowScores>)
    returns (result: Result<seq<real>, MeasureError>)
    requires settings.Valid()
    ensures result.Err? <==> exists i :: 0 <= i < |windows| && windows[i].SchemaMismatched?
    ensures result.Ok? ==> result.value == FusedAll(settings, windows)
  {
    var scores: seq<real> := [];
    for i := 0 to |windows|
      invariant scores == FusedAll(settings, windows[..i])
      invariant forall j :: 0 <= j < i ==> !windows[j].SchemaMismatched?
    {
      assert windows[..i + 1][..i] == windows[..i];
      match windows[i] {
        case SchemaMismatched =>
          return Err(RefusedArtifact);
        case NotFinite =>
          continue;
        case Percentiles(keyboard, mouse) =>
          var fused := FusePercentiles(keyboard, mouse, settings.keyboardWeight, settings.mouseWeight);
          if fused.Some? {
            scores := scores + [fused.value];
          }
      }
    }
    assert windows[..|windows|] == windows;
    return Ok(scores);
  }

  // The mean of the inclusive comparison; no score, no rate.
  function RejectionRate(percentiles: seq<real>, mediumThreshold: real): Option<real> {
    if percentiles == [] then None
    else Some(RiskCore.Ratio(Calibration.CountAtMost(percentiles, PercentileFor(mediumThreshold)) as real, |percentiles| as real))
  }

  // ---------------------------------------------------------------------
  // The same windows as the engine sees them
  // ---------------------------------------------------------------------

  function ModalityOf(percentile: Option<real>): ModalityScore {
    if percentile.None? then ModalityScore(false, None, ModelUnavailable)
    else ModalityScore(true, Some(RiskOf(percentile.value)), Scored)
  }

  function ScoreOf(window: WindowScores, quality: WindowQuality): ScoreResult
    requires window.Percentiles?
  {
    ScoreResult("", "", quality, ModalityOf(window.keyboard), ModalityOf(window.mouse))
  }

  /** The risk the engine fuses for a window, None for one it cannot score. */
  function EngineRisk(settings: RiskSettings, window: WindowScores): Option<real> {
    if !window.Percentiles? then None
    else
      var fused := RiskCore.Fusion(settings, ScoreOf(window, Full));
      if fused.None? then None else Some(fused.value.score)
  }

  function EngineRisks(settings: RiskSettings, windows: seq<WindowScores>): seq<real> {
    if windows == [] then []
    else
      var last := EngineRisk(settings, windows[|windows| - 1]);
      EngineRisks(settings, windows[..|windows| - 1]) + if last.Some? then [last.value] else []
  }

  /** The two maps are inverse to each other and reverse the order. */
  lemma MapsAreInverse(percentile: real, risk: real)
    ensures PercentileFor(RiskOf(percentile)) == percentile && RiskOf(PercentileFor(risk)) == risk
    ensures RiskOf(percentile) >= risk <==> percentile <= PercentileFor(risk)
  {
  }

  lemma ScoreOfIsValid(window: WindowScores, quality: WindowQuality)
    requires window.Percentiles? && ValidScores(window)
    ensures ScoreOf(window, quality).Valid()
  {
  }

  // The weighted mean commutes with the decreasing affine map.
  lemma MeanCommutes(p: real, q: real, x: real, y: real, v: real, w: real)
    requires v > 0.0 && w > 0.0 && x == RiskOf(p) && y == RiskOf(q)
    ensures RiskCore.Ratio(x * v + y * w, v + w) == RiskOf(WeightedMean(p, q, v, w))
  {
    var total := v + w;
    var mean := WeightedMean(p, q, v, w);
    assert mean * total == v * p + w * q;
    var risk := RiskOf(mean);
    assert risk * total == x * v + y * w by {
      ScaledRisk(p, x, v);
      ScaledRisk(q, y, w);
      ScaledRisk(mean, risk, total);
    }
    RiskCore.CancelFactor(risk, total);
  }

  lemma ScaledRisk(p: real, x: real, v: real)
    requires x == RiskOf(p)
    ensures x * v == v - v * p / 100.0
  {
    var q := p / 100.0;
    assert v * p / 100.0 == v * q;
    assert x * v == v - q * v;
  }

  /** For every mix of available modalities the engine's fused risk is the risk of the fused
      percentile, and exists exactly when that does. */
  lemma FusionCommutes(settings: RiskSettings, window: WindowScores)
    requires settings.Valid() && ValidScores(window)
    ensures EngineRisk(settings, window) ==
            if FusedOf(settings, window).None? then None else Some(RiskOf(FusedOf(settings, window).value))
  {
    if window.Percentiles? {
      var score := ScoreOf(window, Full);
      ScoreOfIsValid(window, Full);
      RiskCore.FusionCases(settings, score);
      if window.keyboard.Some? && window.mouse.Some? {
        MeanCommutes(window.keyboard.value, window.mouse.value, score.keyboard.calibrated.value,
                     score.mouse.calibrated.value, settings.keyboardWeight, settings.mouseWeight);
        assert EngineRisk(settings, window).value == RiskOf(FusedOf(settings, window).value);
      }
    }
  }

  lemma {:induction false} CountsFlip(settings: RiskSettings, windows: seq<WindowScores>, threshold: real)
    requires settings.Valid() && AllValid(windows)
    ensures |FusedAll(settings, windows)| == |EngineRisks(settings, windows)|
    ensures Calibration.CountAtMost(FusedAll(settings, windows), PercentileFor(threshold))
            == RiskCore.CountAtLeast(EngineRisks(settings, windows), threshold)
  {
    if windows != [] {
      var n := |windows| - 1;
      CountsFlip(settings, windows[..n], threshold);
      FusionCommutes(settings, windows[n]);
      var fused, risk := FusedOf(settings, windows[n]), EngineRisk(settings, windows[n]);
      var percentiles, risks := FusedAll(settings, windows[..n]), EngineRisks(settings, windows[..n]);
      if fused.Some? {
        MapsAreInverse(fused.value, threshold);
        assert (percentiles + [fused.value])[..|percentiles|] == percentiles;
        assert (risks + [risk.value])[..|risks|] == risks;
      } else {
        assert percentiles + [] == percentiles && risks + [] == risks;
      }
    }
  }

  /** Main result: the false rejection rate measured on percentiles is the fraction of
      scorable windows whose fused risk reaches the engine's medium threshold. */
  lemma RateIsTheEnginesRate(settings: RiskSettings, windows: seq<WindowScores>)
    requires settings.Valid() && AllValid(windows)
    ensures var risks := EngineRisks(settings, windows);
            RejectionRate(FusedAll(settings, windows), settings.mediumThreshold) ==
            if risks == [] then None
            else Some(RiskCore.Ratio(RiskCore.CountAtLeast(risks, settings.mediumThreshold) as real, |risks| as real))
  {
    CountsFlip(settings, windows, settings.mediumThreshold);
  }

  /** Where the live engine does score the window, in whatever quality class, this fused risk
      is the evidence that reaches its smoother. */
  lemma EvidenceIsEngineRisk(settings: RiskSettings, window: WindowScores, quality: WindowQuality)
    requires settings.Valid() && ValidScores(window) && window.Percentiles?
    ensures var evidence := RiskEngines.Evidence(settings, ScoreOf(window, quality));
            && (evidence.Some? ==> evidence == EngineRisk(settings, window))
            && (evidence.None? <==> quality == InsufficientData || EngineRisk(settings, window).None?
                                    || RiskEngines.RequiredFailure(ScoreOf(window, quality)).Some?)
  {
    FusionIgnoresQuality(settings, window, quality);
  }

  lemma FusionIgnoresQuality(settings: RiskSettings, window: WindowScores, quality: WindowQuality)
    requires window.Percentiles?
    ensures RiskCore.Fusion(settings, ScoreOf(window, quality)) == RiskCore.Fusion(settings, ScoreOf(window, Full))
  {
  }
}
