/** Values exchanged by the scorer, the risk engine and the decision policy. */
module RiskTypes {
  import opened Wrappers

  datatype RiskLevel = Low | Medium | High | Unavailable

  datatype DecisionAction = Continue | SoftChallenge | Reauth | Terminate | NoAction

  datatype UserState = Enrolling | Calibrating | Active | Degraded | Suspended

  datatype WindowQuality = Full | KbdOnly | MouseOnly | InsufficientData

  datatype ModelStatus = Scored | ModelUnavailable | Failed | SchemaMismatch

  datatype EnrollmentConfig = EnrollmentConfig(minWindows: nat, minDistinctDays: nat, calibrationWindows: nat)

  datatype RiskSettings = RiskSettings(
    keyboardWeight: real,
    mouseWeight: real,
    ewmaAlpha: real,
    mediumThreshold: real,
    highThreshold: real,
    breachK: nat,
    breachN: nat,
    cooldownUs: nat,
    actionBudget: nat)
  {
    // The schema bounds together with the loader's cross-field checks.
    predicate Valid() {
      && keyboardWeight > 0.0 && mouseWeight > 0.0
      && 0.0 < ewmaAlpha <= 1.0
      && 0.0 <= mediumThreshold < highThreshold <= 1.0
      && 2 <= breachK <= breachN
      && 1 <= cooldownUs
      && 1 <= actionBudget
    }
  }

  /** One modality's score. An unavailable modality carries no score at all. */
  datatype ModalityScore = ModalityScore(available: bool, calibrated: Option<real>, status: ModelStatus)
  {
    predicate Valid() {
      && (available <==> calibrated.Some?)
      && (available ==> status == Scored && 0.0 <= calibrated.value <= 1.0)
    }
  }

  datatype ScoreResult = ScoreResult(
    userId: string,
    windowId: string,
    quality: WindowQuality,
    keyboard: ModalityScore,
    mouse: ModalityScore)
  {
    predicate Valid() {
      keyboard.Valid() && mouse.Valid()
    }
  }

  datatype AdjustmentMode = MultiplicativeDamping | PerContextNormalization

  datatype ContextAssessment = ContextAssessment(
    confidence: real,
    mode: AdjustmentMode,
    contextLocation: Option<real>,
    contextScale: Option<real>,
    baselineLocation: Option<real>,
    baselineScale: Option<real>)
  {
    predicate Valid() {
      && 0.0 < confidence <= 1.0
      && (contextScale.Some? ==> contextScale.value > 0.0)
      && (baselineScale.Some? ==> baselineScale.value > 0.0)
    }

    predicate NormalizationAvailable() {
      && mode == PerContextNormalization
      && contextLocation.Some? && contextScale.Some?
      && baselineLocation.Some? && baselineScale.Some?
    }

    /** Damping scales by the confidence; normalisation moves the score off this
        context's genuine distribution onto the profile-wide one and clamps it. */
    function Adjust(fused: real): (adjusted: real)
      requires Valid()
      ensures 0.0 <= fused <= 1.0 ==> 0.0 <= adjusted <= 1.0
    {
      if !NormalizationAvailable() then
        DampingStaysInUnit(fused, confidence);
        fused * confidence
      else
        RealMin(1.0, RealMax(0.0, Recentred(fused)))
    }

    function Recentred(fused: real): real
      requires Valid() && NormalizationAvailable()
    {
      var standardized := (fused - contextLocation.value) / contextScale.value;
      baselineLocation.value + standardized * baselineScale.value
    }
  }

  function RealMin(x: real, y: real): real {
    if x <= y then x else y
  }

  function RealMax(x: real, y: real): real {
    if x >= y then x else y
  }

  /** Adjustment never reorders two fused scores of the same context. */
  lemma AdjustIsMonotone(context: ContextAssessment, x: real, y: real)
    requires context.Valid() && x <= y
    ensures context.Adjust(x) <= context.Adjust(y)
  {
    if context.NormalizationAvailable() {
      RecentringIsMonotone(context, x, y);
    } else {
      var damped, dampedMore := x * context.confidence, y * context.confidence;
      assert damped <= dampedMore by { ProductIsMonotone(x, y, context.confidence); }
      assert context.Adjust(x) == damped && context.Adjust(y) == dampedMore;
    }
  }

  lemma RecentringIsMonotone(context: ContextAssessment, x: real, y: real)
    requires context.Valid() && context.NormalizationAvailable() && x <= y
    ensures context.Recentred(x) <= context.Recentred(y)
  {
    var location, scale := context.contextLocation.value, context.contextScale.value;
    var below, above := (x - location) / scale, (y - location) / scale;
    assert below <= above by { DivisionIsMonotone(x - location, y - location, scale); }
    var spread := context.baselineScale.value;
    var low, high := below * spread, above * spread;
    assert low <= high by { ProductIsMonotone(below, above, spread); }
    assert context.Recentred(x) == context.baselineLocation.value + low;
  }

  /** What normalisation is for: a score so many deviations off this context's genuine
      location lands as many deviations off the profile-wide one, as far as [0, 1] reaches. */
  lemma RecentringKeepsDeviations(context: ContextAssessment, deviations: real)
    requires context.Valid() && context.NormalizationAvailable()
    ensures var moved := context.baselineLocation.value + deviations * context.baselineScale.value;
            context.Adjust(context.contextLocation.value + deviations * context.contextScale.value)
            == if moved < 0.0 then 0.0 else if moved > 1.0 then 1.0 else moved
  {
    RecentredDeviations(context, deviations);
  }

  // The same before the clamp.
  lemma RecentredDeviations(context: ContextAssessment, deviations: real)
    requires context.Valid() && context.NormalizationAvailable()
    ensures context.Recentred(context.contextLocation.value + deviations * context.contextScale.value)
            == context.baselineLocation.value + deviations * context.baselineScale.value
  {
    var location, scale := context.contextLocation.value, context.contextScale.value;
    var offset := deviations * scale;
    assert offset / scale == deviations;
    assert (location + offset - location) / scale == deviations;
  }

  lemma ProductIsMonotone(x: real, y: real, factor: real)
    requires x <= y && factor >= 0.0
    ensures x * factor <= y * factor
  {
    assert (y - x) * factor >= 0.0;
  }

  lemma DampingStaysInUnit(fused: real, confidence: real)
    requires 0.0 < confidence <= 1.0
    ensures 0.0 <= fused <= 1.0 ==> 0.0 <= fused * confidence <= 1.0
  {
    if 0.0 <= fused <= 1.0 {
      ProductIsMonotone(0.0, fused, confidence);
      ProductIsMonotone(fused, 1.0, confidence);
      assert fused * confidence <= 1.0 * confidence;
    }
  }

  lemma DivisionIsMonotone(x: real, y: real, divisor: real)
    requires x <= y && divisor > 0.0
    ensures x / divisor <= y / divisor
  {
    assert (y - x) / divisor >= 0.0;
  }

  datatype DecisionInput = DecisionInput(
    score: ScoreResult,
    sessionId: string,
    segmentId: string,
    tDecisionUs: nat,
    context: ContextAssessment)
  {
    predicate Valid() {
      score.Valid() && context.Valid()
    }
  }

  datatype RiskDecision = RiskDecision(
    decisionId: string,
    userId: string,
    sessionId: string,
    segmentId: string,
    windowId: string,
    tDecisionUs: nat,
    quality: WindowQuality,
    fusedScore: Option<real>,
    smoothedScore: Option<real>,
    level: RiskLevel,
    userState: UserState,
    action: DecisionAction,
    reason: string,
    shadowMode: bool,
    enforcementApplied: bool)
  {
    // The conditional rules of the decision contract.
    predicate ContractHolds() {
      && (fusedScore.Some? ==> 0.0 <= fusedScore.value <= 1.0)
      && (smoothedScore.Some? ==> 0.0 <= smoothedScore.value <= 1.0)
      && (quality == InsufficientData ==>
            fusedScore.None? && smoothedScore.None? && action == NoAction && !enforcementApplied)
      && (userState != Active ==> !enforcementApplied)
    }
  }

  datatype DecisionTrace = DecisionTrace(
    fusedScore: real,
    adjustedScore: real,
    previousSmoothed: Option<real>,
    smoothedScore: real,
    breachHistory: seq<real>,
    priorLevel: RiskLevel,
    resultingLevel: RiskLevel,
    requested: DecisionAction,
    emitted: DecisionAction)

  datatype AlertCode =
    RiskInputUnavailable | BehavioralRiskHigh | ActionBudgetExhausted | HeartbeatLost | ComponentFailed

  datatype RiskOutcome = RiskOutcome(
    decision: Option<RiskDecision>,
    trace: Option<DecisionTrace>,
    alerts: seq<AlertCode>)

  datatype RiskError =
    AnotherUser | NonMonotonicTime | NothingToRecover | NotSuspended | NegativeProgress | BlankField
}
