/** What a resolution answers: its decision, action and budget by thresholds on the score and the readings, its
    score as a sum, and its band as the first range that holds the score. */
module ResolutionMeaning {
  import opened Utf16
  import opened JsonParser
  import opened Rounding
  import opened Resolution

  // ---------------------------------------------------------------- readings

  /** A component, a fallback without it. */
  function Read(r: Reading, fallback: real): real
  {
    if r == None then fallback else r.value
  }

  /** The percent readings of trust_vector_v1, each with the reading that stands in for it. */
  datatype Readings = Readings(adversity: int, recency: int, execution: int, economy: int, dependency: int)

  function ReadingsOf(v: Vector): Readings
  {
    Readings(
      Round(Read(v.v1.adversarialRisk, 100.0 * Read(v.collusionRisk, 0.0))),
      Round(Read(v.v1.evidenceFreshness, 100.0 * Read(v.freshness, 0.0))),
      Round(Read(v.v1.executionReliability, 100.0 * Read(v.executionReliability, 0.0))),
      Round(Read(v.v1.economicIntegrity, 55.0)),
      Round(Read(v.v1.dependencyRisk, 20.0)))
  }

  /** The trust vector: the readings, two more of the same kind, and the score. */
  predicate VectorReads(t: TrustVector, v: Vector, score: int)
  {
    var r := ReadingsOf(v);
    && t.adversarialRisk == r.adversity && t.evidenceFreshness == r.recency
    && t.executionReliability == r.execution && t.economicIntegrity == r.economy
    && t.dependencyRisk == r.dependency && t.overallTrust == score
    && t.identityCredibility == Round(Read(v.v1.identityCredibility, 100.0 * Read(v.identityIntegrity, 0.0)))
    && t.behavioralStability == Round(Read(v.v1.behavioralStability, 100.0 * Read(v.coordinationStability, 0.0)))
  }

  lemma TrustVectorReads(v: Vector, score: int)
    ensures VectorReads(TrustVectorOf(v, score), v, score)
  {
  }

  // ---------------------------------------------------------------- zones

  /** Quarantined: a quarantine event, an adversarial risk from 90 on, or a score down to the threshold. */
  predicate Isolated(score: int, r: Readings, quarantines: int, config: TrustConfig)
  {
    quarantines > 0 || r.adversity >= 90 || score as real <= config.quarantineThreshold
  }

  /** Compromised: an adversarial risk from 80 on, or a score down to 35. */
  predicate Compromised(score: int, r: Readings)
  {
    r.adversity >= 80 || score <= 35
  }

  /** Risky: an adversarial risk from 70 on, or a score below the threshold. */
  predicate Doubtful(score: int, r: Readings, config: TrustConfig)
  {
    r.adversity >= 70 || (score as real) < config.riskyThreshold
  }

  /** Degrading: stale evidence or unreliable execution. */
  predicate Fading(r: Readings)
  {
    r.recency < 40 || r.execution < 50
  }

  // ---------------------------------------------------------------- the answer

  /** Each action and trust state under exactly its own condition, with the requests and the extra measures that come
      with it. */
  predicate AnswerMeans(c: Computed, r: Readings, quarantines: int, config: TrustConfig)
  {
    var isolated, compromised := Isolated(c.score, r, quarantines, config), Compromised(c.score, r);
    var doubtful, fading := Doubtful(c.score, r, config), Fading(r);
    var p := c.trustPolicy;
    // the trust state
    && (c.trustState == QUARANTINED <==> isolated)
    && (c.trustState == COMPROMISED <==> !isolated && compromised)
    && (c.trustState == RISKY <==> !isolated && !compromised && doubtful)
    && (c.trustState == DEGRADING <==> !isolated && !compromised && !doubtful && fading)
    && (c.trustState == VERIFIED
        <==> !isolated && !compromised && !doubtful && !fading && c.score as real >= config.minVerifiedScore
             && r.adversity < 40)
    && (c.trustState == UNKNOWN
        <==> !isolated && !compromised && !doubtful && !fading
             && !(c.score as real >= config.minVerifiedScore && r.adversity < 40))
    // the action and its budget
    && (p.action == QUARANTINE <==> isolated)
    && (p.action == BLOCK <==> !isolated && compromised)
    && (p.action == REQUIRE_SECONDARY_VALIDATION <==> !isolated && !compromised && doubtful)
    && (p.action == RATE_LIMIT <==> !isolated && !compromised && !doubtful && fading)
    && (p.action == REQUIRE_ESCROW <==> !isolated && !compromised && !doubtful && !fading && r.economy < 60)
    && (p.action == ALLOW <==> !isolated && !compromised && !doubtful && !fading && r.economy >= 60)
    && p.maxRequestsPerMinute
       == (if isolated then 0
           else if compromised then 1
           else if doubtful then 40
           else if fading then 20
           else if r.economy < 60 then 40
           else 120)
    && (p.allow <==> !isolated && !compromised)
    && (p.escrowRequired <==> r.economy < 60)
    && (p.secondaryValidationRequired <==> (!isolated && !compromised && doubtful) || r.adversity > 70)
    && p.routingPriority
       == Round(Clamp(0.0, 100.0 - 0.45 * r.adversity as real - 0.25 * r.dependency as real + 0.2 * r.execution as real,
                      100.0))
    // the decision
    && (c.decision == Deny <==> isolated || compromised)
    && (c.decision == Allow <==> !isolated && !compromised && !doubtful && !fading && r.economy >= 60)
    && (c.decision == Restrict
        <==> !isolated && !compromised && (doubtful || fading || r.economy < 60))
  }

  // ---------------------------------------------------------------- the score and the band

  /** The competence in the context's domain: 0.12 in an unknown one, 0.35 without a domain. */
  function Fit(v: Vector, context: Context): real
  {
    match context.domain
    case Some(d) => if d == [] then 0.35 else if d in v.domainCompetence.Keys then v.domainCompetence[d] else 0.12
    case None => 0.35
  }

  /** The score: what speaks for the subject less what speaks against it, to a whole number between 0 and 100. */
  predicate ScoreMeans(score: int, v: Vector, context: Context)
  {
    var gain := 20.0 + 15.0 * Read(v.identityIntegrity, 0.0) + 20.0 * Read(v.executionReliability, 0.0)
                + 15.0 * Read(v.validationQuality, 0.0) + 15.0 * Fit(v, context)
                + 10.0 * Read(v.coordinationStability, 0.0) + 20.0 * Read(v.freshness, 0.0) - 10.0;
    var collusion := 0.55 * Read(v.collusionRisk, 0.0) + 0.2 * Read(v.sockpuppetRisk, 0.0)
                     + 0.15 * Read(v.validatorBriberyRisk, 0.0) + 0.1 * Read(v.anomalyWindowRisk, 0.0);
    var loss := 20.0 * Read(v.disputeRate, 0.0) + 12.0 * Read(v.reversalAsymmetry, 0.0)
                + 25.0 * Clamp(0.0, collusion, 1.0)
                + 0.12 * Read(v.v1.dependencyRisk, 20.0) + 0.15 * Read(v.v1.adversarialRisk, 20.0);
    score == Round(Clamp(0.0, gain - loss, 100.0))
  }

  /** The first range that holds the score gives the band; quarantined when none does. */
  predicate FirstRange(band: Band, score: int, bands: seq<BandRange>)
  {
    if exists i | 0 <= i < |bands| :: Holds(bands[i], score) then
      exists i | 0 <= i < |bands| && Holds(bands[i], score) ::
        bands[i].band == band && forall j | 0 <= j < i :: !Holds(bands[j], score)
    else band == Quarantined
  }

  predicate Holds(range: BandRange, score: int)
  {
    range.min <= score as real && score as real <= range.max
  }

  lemma {:induction false} BandIsFirst(score: int, bands: seq<BandRange>)
    ensures FirstRange(ScoreBand(score, bands), score, bands)
  {
    if bands != [] {
      if Holds(bands[0], score) {
      } else {
        BandIsFirst(score, bands[1..]);
        if exists i | 0 <= i < |bands| :: Holds(bands[i], score) {
          var i :| 0 <= i < |bands| && Holds(bands[i], score);
          assert Holds(bands[1..][i - 1], score);
          var k :| 0 <= k < |bands[1..]| && Holds(bands[1..][k], score) && bands[1..][k].band == ScoreBand(score, bands)
                   && forall j | 0 <= j < k :: !Holds(bands[1..][j], score);
          assert Holds(bands[k + 1], score) && bands[k + 1].band == ScoreBand(score, bands);
          forall j | 0 <= j < k + 1 ensures !Holds(bands[j], score) {
            if j > 0 { assert !Holds(bands[1..][j - 1], score); }
          }
        } else {
          forall i | 0 <= i < |bands[1..]| ensures !Holds(bands[1..][i], score) {
            assert !Holds(bands[i + 1], score);
          }
        }
      }
    }
  }

  // ---------------------------------------------------------------- confidence and the preliminary decision

  /** The confidence: volume of evidence, freshness, diversity of judges, fit and lack of contradiction, to two
      decimals. */
  predicate ConfidenceMeans(confidence: real, v: Vector, counts: Counts, context: Context)
  {
    var volume := Clamp(0.0, (counts.tasksTotal + counts.validationsTotal) as real / 20.0, 1.0);
    var contradiction := Clamp(0.0, Read(v.disputeRate, 0.0) + 0.5 * Read(v.reversalRate, 0.0)
                                    + 0.2 * Read(v.sockpuppetRisk, 0.0) + 0.15 * Read(v.anomalyWindowRisk, 0.0), 1.0);
    var sum := 0.35 * volume + 0.2 * Read(v.freshness, 0.0) + 0.2 * Read(v.validatorDiversityScore, 0.0)
               + 0.15 * Fit(v, context) + 0.1 - 0.1 * contradiction;
    confidence == Round(100.0 * Clamp(0.0, sum, 1.0)) as real / 100.0
  }

  /** From worst to best. */
  predicate AtLeast(band: Band, minimum: Band)
  {
    match minimum
    case Quarantined => true
    case Restricted => !band.Quarantined?
    case Watch => !band.Quarantined? && !band.Restricted?
    case Allowed => band.Allowed? || band.Preferred? || band.Privileged?
    case Preferred => band.Preferred? || band.Privileged?
    case Privileged => band.Privileged?
  }

  function RuleOf(policy: Policy, risk: Risk): RiskRule
  {
    if risk.Low? then policy.low else if risk.High? then policy.high else policy.medium
  }

  /** The decision before the action overrides it, by the band, the risk and the confidence. */
  predicate PreliminaryMeans(c: Computed, context: Context, policy: Policy)
  {
    var high, band := context.risk == High, c.band;
    var sure := c.confidence >= if high then policy.minimumConfidenceHighRisk else 0.4;
    var executes := AtLeast(band, RuleOf(policy, context.risk).minimumForExecution);
    var open := band == Privileged || (band == Preferred && !high) || (band == Allowed && context.risk == Low);
    && (c.preliminary == Deny <==> (high && band == Restricted) || (executes && band == Quarantined))
    && (c.preliminary == Allow <==> executes && open && sure)
    && (c.preliminary == AllowWithValidation
        <==> executes && (if open then !sure
                          else band == Preferred || band == Allowed || (band == Watch && !high)))
    && (c.preliminary == Restrict
        <==> if executes then (band == Watch && high) || (band == Restricted && !high)
             else !(high && band == Restricted))
  }

  /** Whether a subject may validate is whether its band reaches the rule's minimum for validation. */
  lemma ValidatesIff(band: Band, context: Context, policy: Policy)
    ensures ValidationEligible(band, context, policy)
            <==> AtLeast(band, RuleOf(policy, context.risk).minimumForValidation)
  {
  }

  // ---------------------------------------------------------------- the operation

  /** What computeResolution answers. */
  predicate Means(c: Computed, v: Vector, counts: Counts, context: Context, policy: Policy, config: TrustConfig)
  {
    && ScoreMeans(c.score, v, context) && VectorReads(c.trustVector, v, c.score)
    && FirstRange(c.band, c.score, policy.bands)
    && ConfidenceMeans(c.confidence, v, counts, context)
    && PreliminaryMeans(c, context, policy)
    && AnswerMeans(c, ReadingsOf(v), v.quarantineCount, config)
  }

  /** scoreBand: the loop over the ranges in their order. */
  method FindBand(score: int, bands: seq<BandRange>) returns (band: Band)
    ensures band == ScoreBand(score, bands) && FirstRange(band, score, bands)
  {
    var i := 0;
    while i < |bands|
      invariant 0 <= i <= |bands|
      invariant forall j | 0 <= j < i :: !Holds(bands[j], score)
      invariant ScoreBand(score, bands) == ScoreBand(score, bands[i..])
    {
      if bands[i].min <= score as real <= bands[i].max {
        assert Holds(bands[i], score);
        return bands[i].band;
      }
      assert bands[i..][1..] == bands[i + 1..];
      i := i + 1;
    }
    band := Quarantined;
  }

  lemma ScoreIs(v: Vector, context: Context)
    ensures ScoreMeans(Score(v, context), v, context)
  {
  }

  lemma ConfidenceIs(v: Vector, counts: Counts, context: Context)
    ensures ConfidenceMeans(Confidence(v, counts, context), v, counts, context)
  {
  }

  lemma PreliminaryIs(c: Computed, context: Context, policy: Policy)
    requires c.preliminary == PreliminaryDecision(c.band, c.confidence, context, policy)
    ensures PreliminaryMeans(c, context, policy)
  {
  }

  lemma AnswerIs(c: Computed, v: Vector, config: TrustConfig)
    requires c.trustState == DeriveTrustState(TrustVectorOf(v, c.score), c.score, config, v.quarantineCount)
    requires c.trustPolicy == PolicyFor(TrustVectorOf(v, c.score), c.trustState)
    requires c.decision == LegacyDecision(c.trustPolicy.action)
    ensures AnswerMeans(c, ReadingsOf(v), v.quarantineCount, config)
  {
    TrustVectorReads(v, c.score);
  }

  /** computeResolution */
  method Resolve(v: Vector, counts: Counts, context: Context, policy: Policy, config: TrustConfig)
    returns (c: Computed)
    ensures c == ComputeResolution(v, counts, context, policy, config)
    ensures Means(c, v, counts, context, policy, config)
  {
    var score, confidence := Score(v, context), Confidence(v, counts, context);
    var band := FindBand(score, policy.bands);
    var t := TrustVectorOf(v, score);
    var state := DeriveTrustState(t, score, config, v.quarantineCount);
    var p := DerivePolicy(t, state);
    c := Computed(score, band, confidence, PreliminaryDecision(band, confidence, context, policy),
                  LegacyDecision(p.action), state, t, p);
    ScoreIs(v, context);
    ConfidenceIs(v, counts, context);
    PreliminaryIs(c, context, policy);
    AnswerIs(c, v, config);
    TrustVectorReads(v, score);
  }

  lemma ResolutionMeans(v: Vector, counts: Counts, context: Context, policy: Policy, config: TrustConfig)
    ensures Means(ComputeResolution(v, counts, context, policy, config), v, counts, context, policy, config)
  {
    var c := ComputeResolution(v, counts, context, policy, config);
    BandIsFirst(c.score, policy.bands);
    ScoreIs(v, context);
    ConfidenceIs(v, counts, context);
    PreliminaryIs(c, context, policy);
    AnswerIs(c, v, config);
    TrustVectorReads(v, c.score);
  }

  /** A request is allowed exactly when every threshold is met. */
  lemma AllowedIff(v: Vector, counts: Counts, context: Context, policy: Policy, config: TrustConfig)
    ensures var c, r := ComputeResolution(v, counts, context, policy, config), ReadingsOf(v);
            c.decision == Allow
            <==> && c.score as real >= config.riskyThreshold && c.score as real > config.quarantineThreshold
                 && c.score > 35 && v.quarantineCount <= 0 && r.adversity < 70 && r.recency >= 40
                 && r.execution >= 50 && r.economy >= 60
  {
    ResolutionMeans(v, counts, context, policy, config);
  }
}
