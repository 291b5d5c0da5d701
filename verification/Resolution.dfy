/** computeResolution: from a risk vector, a context and a policy to score, band, trust state,
    policy action and decision. */
module Resolution {
  import opened Utf16
  import opened JsonParser
  import opened Rounding

  // ---------------------------------------------------------------- inputs

  /** A component that an imported vector may lack. */
  type Reading = Option<real>

  function Or(reading: Reading, fallback: real): real
  {
    match reading
    case Some(x) => x
    case None => fallback
  }

  datatype TrustVectorV1 = TrustVectorV1(
    executionReliability: Reading, economicIntegrity: Reading, identityCredibility: Reading,
    behavioralStability: Reading, dependencyRisk: Reading, adversarialRisk: Reading, evidenceFreshness: Reading)

  const NO_V1 := TrustVectorV1(None, None, None, None, None, None, None)

  datatype Vector = Vector(
    identityIntegrity: Reading, executionReliability: Reading, validationQuality: Reading,
    coordinationStability: Reading, freshness: Reading, validatorDiversityScore: Reading,
    disputeRate: Reading, reversalRate: Reading, reversalAsymmetry: Reading,
    collusionRisk: Reading, sockpuppetRisk: Reading, validatorBriberyRisk: Reading, anomalyWindowRisk: Reading,
    domainCompetence: map<Str, real>,
    v1: TrustVectorV1,
    quarantineCount: int)

  datatype Counts = Counts(tasksTotal: nat, validationsTotal: nat)

  datatype Band = Quarantined | Restricted | Watch | Allowed | Preferred | Privileged

  /** Position in BAND_ORDER. */
  function BandRank(b: Band): (r: nat)
    ensures r < 6
  {
    match b
    case Quarantined => 0
    case Restricted => 1
    case Watch => 2
    case Allowed => 3
    case Preferred => 4
    case Privileged => 5
  }

  datatype Risk = Low | Medium | High | Unrecognized

  datatype Context = Context(domain: Option<Str>, risk: Risk)

  datatype BandRange = BandRange(band: Band, min: real, max: real)

  datatype RiskRule = RiskRule(minimumForExecution: Band, minimumForValidation: Band)

  datatype Policy = Policy(
    id: Str, version: Str, bands: seq<BandRange>,
    low: RiskRule, medium: RiskRule, high: RiskRule, minimumConfidenceHighRisk: real)

  /** risk_rules[level] ?? risk_rules.medium */
  function RuleFor(policy: Policy, risk: Risk): RiskRule
  {
    match risk
    case Low => policy.low
    case High => policy.high
    case _ => policy.medium
  }

  datatype TrustConfig = TrustConfig(minVerifiedScore: real, riskyThreshold: real, quarantineThreshold: real)

  // ---------------------------------------------------------------- score and band

  function DomainFit(v: Vector, context: Context): real
  {
    match context.domain
    case None => 0.35
    case Some(d) => if d == [] then 0.35 else if d in v.domainCompetence then v.domainCompetence[d] else 0.12
  }

  function CollusionPenalty(v: Vector): real
  {
    25.0 * Clamp(0.0,
                 0.55 * Or(v.collusionRisk, 0.0) + 0.2 * Or(v.sockpuppetRisk, 0.0) +
                 0.15 * Or(v.validatorBriberyRisk, 0.0) + 0.1 * Or(v.anomalyWindowRisk, 0.0),
                 1.0)
  }

  function RawScore(v: Vector, context: Context): real
  {
    20.0 + 15.0 * Or(v.identityIntegrity, 0.0) + 20.0 * Or(v.executionReliability, 0.0)
    + 15.0 * Or(v.validationQuality, 0.0) + 15.0 * DomainFit(v, context)
    + 10.0 * Or(v.freshness, 0.0) + 10.0 * Or(v.coordinationStability, 0.0)
    - (20.0 * Or(v.disputeRate, 0.0) + 12.0 * Or(v.reversalAsymmetry, 0.0))
    - CollusionPenalty(v)
    - 10.0 * (1.0 - Or(v.freshness, 0.0))
    - 0.12 * Or(v.v1.dependencyRisk, 20.0)
    - 0.15 * Or(v.v1.adversarialRisk, 20.0)
  }

  function Score(v: Vector, context: Context): (s: int)
    ensures 0 <= s <= 100
  {
    Round(Clamp(0.0, RawScore(v, context), 100.0))
  }

  /** The first range that holds the score; quarantined when none does. */
  function ScoreBand(score: int, bands: seq<BandRange>): Band
  {
    if bands == [] then Quarantined
    else if bands[0].min <= score as real <= bands[0].max then bands[0].band
    else ScoreBand(score, bands[1..])
  }

  predicate BandAtLeast(current: Band, minimum: Band)
  {
    BandRank(current) >= BandRank(minimum)
  }

  // ---------------------------------------------------------------- confidence and preliminary decision

  function Confidence(v: Vector, counts: Counts, context: Context): real
  {
    var evidenceVolume := Clamp(0.0, counts.tasksTotal as real / 20.0 + counts.validationsTotal as real / 20.0, 1.0);
    var contradiction := Clamp(0.0,
                               Or(v.disputeRate, 0.0) + Or(v.reversalRate, 0.0) * 0.5 +
                               Or(v.sockpuppetRisk, 0.0) * 0.2 + Or(v.anomalyWindowRisk, 0.0) * 0.15,
                               1.0);
    var c := Clamp(0.0,
                   0.35 * evidenceVolume + 0.2 * Or(v.freshness, 0.0) + 0.2 * Or(v.validatorDiversityScore, 0.0) +
                   0.15 * DomainFit(v, context) + 0.1 * (1.0 - contradiction),
                   1.0);
    Round(c * 100.0) as real / 100.0
  }

  datatype Decision = Deny | Restrict | AllowWithValidation | Allow

  function DecisionTable(band: Band, risk: Risk): Decision
  {
    match band
    case Privileged => Allow
    case Preferred => if risk == High then AllowWithValidation else Allow
    case Allowed => if risk == Low then Allow else AllowWithValidation
    case Watch => if risk == High then Restrict else AllowWithValidation
    case Restricted => if risk == High then Deny else Restrict
    case Quarantined => Deny
  }

  /** The decision before the policy action overrides it. */
  function PreliminaryDecision(band: Band, confidence: real, context: Context, policy: Policy): Decision
  {
    var d :=
      if !BandAtLeast(band, RuleFor(policy, context.risk).minimumForExecution) then
        if context.risk == High && band == Restricted then Deny else Restrict
      else DecisionTable(band, context.risk);
    var minimum := if context.risk == High then policy.minimumConfidenceHighRisk else 0.4;
    if confidence < minimum && d == Allow then AllowWithValidation else d
  }

  // ---------------------------------------------------------------- trust vector and state

  datatype TrustVector = TrustVector(
    executionReliability: int, economicIntegrity: int, identityCredibility: int, behavioralStability: int,
    dependencyRisk: int, adversarialRisk: int, evidenceFreshness: int, overallTrust: int)

  function TrustVectorOf(v: Vector, score: int): TrustVector
  {
    TrustVector(
      Round(Or(v.v1.executionReliability, Or(v.executionReliability, 0.0) * 100.0)),
      Round(Or(v.v1.economicIntegrity, 55.0)),
      Round(Or(v.v1.identityCredibility, Or(v.identityIntegrity, 0.0) * 100.0)),
      Round(Or(v.v1.behavioralStability, Or(v.coordinationStability, 0.0) * 100.0)),
      Round(Or(v.v1.dependencyRisk, 20.0)),
      Round(Or(v.v1.adversarialRisk, Or(v.collusionRisk, 0.0) * 100.0)),
      Round(Or(v.v1.evidenceFreshness, Or(v.freshness, 0.0) * 100.0)),
      score)
  }

  datatype TrustState = QUARANTINED | COMPROMISED | RISKY | DEGRADING | UNKNOWN | VERIFIED

  /** From worst to best. */
  function StateRank(s: TrustState): nat
  {
    match s
    case QUARANTINED => 0
    case COMPROMISED => 1
    case RISKY => 2
    case DEGRADING => 3
    case UNKNOWN => 4
    case VERIFIED => 5
  }

  function DeriveTrustState(t: TrustVector, score: int, config: TrustConfig, quarantineSignals: int): TrustState
  {
    if quarantineSignals > 0 || t.adversarialRisk >= 90 || score as real <= config.quarantineThreshold then QUARANTINED
    else if t.adversarialRisk >= 80 || score <= 35 then COMPROMISED
    else if (score as real) < config.riskyThreshold || t.adversarialRisk >= 70 then RISKY
    else if t.evidenceFreshness < 40 || t.executionReliability < 50 then DEGRADING
    else if score as real >= config.minVerifiedScore && t.adversarialRisk < 40 then VERIFIED
    else UNKNOWN
  }

  // ---------------------------------------------------------------- policy action

  datatype Action = ALLOW | RATE_LIMIT | REQUIRE_ESCROW | REQUIRE_SECONDARY_VALIDATION | BLOCK | QUARANTINE

  datatype PolicyDecision = PolicyDecision(
    allow: bool, action: Action, routingPriority: int, maxRequestsPerMinute: int,
    escrowRequired: bool, secondaryValidationRequired: bool)

  /** The action as a decision table: the first row that applies. */
  function ActionFor(t: TrustVector, state: TrustState): Action
  {
    if state == QUARANTINED then QUARANTINE
    else if state == COMPROMISED then BLOCK
    else if state == RISKY || t.adversarialRisk > 70 then REQUIRE_SECONDARY_VALIDATION
    else if state == DEGRADING then RATE_LIMIT
    else if t.economicIntegrity < 60 then REQUIRE_ESCROW
    else if t.executionReliability < 50 then RATE_LIMIT
    else ALLOW
  }

  function RoutingPriority(t: TrustVector): int
  {
    Round(Clamp(0.0,
                100.0 - t.adversarialRisk as real * 0.45 - t.dependencyRisk as real * 0.25
                + t.executionReliability as real * 0.2,
                100.0))
  }

  function RequestBudget(action: Action): int
  {
    match action
    case QUARANTINE => 0
    case BLOCK => 1
    case RATE_LIMIT => 20
    case REQUIRE_SECONDARY_VALIDATION => 40
    case REQUIRE_ESCROW => 40
    case ALLOW => 120
  }

  function PolicyFor(t: TrustVector, state: TrustState): PolicyDecision
  {
    var action := ActionFor(t, state);
    PolicyDecision(
      action != BLOCK && action != QUARANTINE,
      action, RoutingPriority(t), RequestBudget(action),
      action == REQUIRE_ESCROW || t.economicIntegrity < 60,
      action == REQUIRE_SECONDARY_VALIDATION || t.adversarialRisk > 70)
  }

  /** derivePolicy: the action is set from the state and then overridden in three steps, which
      amounts to the first applicable row of the table. */
  method DerivePolicy(t: TrustVector, state: TrustState) returns (p: PolicyDecision)
    ensures p == PolicyFor(t, state)
  {
    var action := ALLOW;
    if state == QUARANTINED {
      action := QUARANTINE;
    } else if state == COMPROMISED {
      action := BLOCK;
    } else if state == RISKY {
      action := REQUIRE_SECONDARY_VALIDATION;
    } else if state == DEGRADING {
      action := RATE_LIMIT;
    }
    if t.adversarialRisk > 70 && action !in {QUARANTINE, BLOCK} {
      action := REQUIRE_SECONDARY_VALIDATION;
    }
    if t.economicIntegrity < 60 && action == ALLOW {
      action := REQUIRE_ESCROW;
    }
    if t.executionReliability < 50 && action == ALLOW {
      action := RATE_LIMIT;
    }
    var allow := action !in {BLOCK, QUARANTINE};
    var budget := 120;
    if action == QUARANTINE {
      budget := 0;
    } else if action == BLOCK {
      budget := 1;
    } else if action == RATE_LIMIT {
      budget := 20;
    } else if action == REQUIRE_SECONDARY_VALIDATION || action == REQUIRE_ESCROW {
      budget := 40;
    }
    p := PolicyDecision(
      allow, action, RoutingPriority(t), budget,
      action == REQUIRE_ESCROW || t.economicIntegrity < 60,
      action == REQUIRE_SECONDARY_VALIDATION || t.adversarialRisk > 70);
  }

  /** mapActionToLegacyDecision; every action derivePolicy produces has its own decision. */
  function LegacyDecision(action: Action): Decision
  {
    match action
    case ALLOW => Allow
    case BLOCK => Deny
    case QUARANTINE => Deny
    case _ => Restrict
  }

  // ---------------------------------------------------------------- resolution

  datatype Computed = Computed(
    score: int, band: Band, confidence: real, preliminary: Decision, decision: Decision,
    trustState: TrustState, trustVector: TrustVector, trustPolicy: PolicyDecision)

  function ComputeResolution(v: Vector, counts: Counts, context: Context, policy: Policy, config: TrustConfig): Computed
  {
    var score := Score(v, context);
    var band := ScoreBand(score, policy.bands);
    var confidence := Confidence(v, counts, context);
    var t := TrustVectorOf(v, score);
    var state := DeriveTrustState(t, score, config, v.quarantineCount);
    var p := PolicyFor(t, state);
    Computed(score, band, confidence, PreliminaryDecision(band, confidence, context, policy),
             LegacyDecision(p.action), state, t, p)
  }

  /** validationEligible */
  predicate ValidationEligible(band: Band, context: Context, policy: Policy)
  {
    BandAtLeast(band, RuleFor(policy, context.risk).minimumForValidation)
  }
}
