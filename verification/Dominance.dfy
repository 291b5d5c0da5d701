/** A snapshot that is at least as good in every component is never treated worse, except in its
    request budget. */
module Dominance {
  import opened Utf16
  import opened JsonParser
  import opened Rounding
  import opened Resolution
  import P = SnapshotProperties

  predicate NoWorse(a: Reading, b: Reading, fallback: real)
  {
    Or(a, fallback) <= Or(b, fallback)
  }

  /** b is at least as good as a: higher in every positive component, lower in every risk. */
  predicate Dominated(a: Vector, b: Vector)
  {
    && NoWorse(a.identityIntegrity, b.identityIntegrity, 0.0)
    && NoWorse(a.executionReliability, b.executionReliability, 0.0)
    && NoWorse(a.validationQuality, b.validationQuality, 0.0)
    && NoWorse(a.coordinationStability, b.coordinationStability, 0.0)
    && NoWorse(a.freshness, b.freshness, 0.0)
    && NoWorse(b.disputeRate, a.disputeRate, 0.0)
    && NoWorse(b.reversalAsymmetry, a.reversalAsymmetry, 0.0)
    && NoWorse(b.collusionRisk, a.collusionRisk, 0.0)
    && NoWorse(b.sockpuppetRisk, a.sockpuppetRisk, 0.0)
    && NoWorse(b.validatorBriberyRisk, a.validatorBriberyRisk, 0.0)
    && NoWorse(b.anomalyWindowRisk, a.anomalyWindowRisk, 0.0)
    && b.quarantineCount <= a.quarantineCount
    && DominatedV1(a, b)
  }

  /** The trust_vector_v1 entries, under each default the code reads them with. */
  predicate DominatedV1(a: Vector, b: Vector)
  {
    && Or(a.v1.executionReliability, Or(a.executionReliability, 0.0) * 100.0)
       <= Or(b.v1.executionReliability, Or(b.executionReliability, 0.0) * 100.0)
    && NoWorse(a.v1.economicIntegrity, b.v1.economicIntegrity, 55.0)
    && Or(a.v1.evidenceFreshness, Or(a.freshness, 0.0) * 100.0)
       <= Or(b.v1.evidenceFreshness, Or(b.freshness, 0.0) * 100.0)
    && NoWorse(b.v1.dependencyRisk, a.v1.dependencyRisk, 20.0)
    && NoWorse(b.v1.adversarialRisk, a.v1.adversarialRisk, 20.0)
    && Or(b.v1.adversarialRisk, Or(b.collusionRisk, 0.0) * 100.0)
       <= Or(a.v1.adversarialRisk, Or(a.collusionRisk, 0.0) * 100.0)
  }

  /** The domain the context asks about counts among the components. */
  predicate DominatedIn(a: Vector, b: Vector, context: Context)
  {
    Dominated(a, b) && DomainFit(a, context) <= DomainFit(b, context)
  }

  lemma CollusionPenaltyAntitone(a: Vector, b: Vector)
    requires Dominated(a, b)
    ensures CollusionPenalty(b) <= CollusionPenalty(a)
  {
    ClampMonotone(0.0,
                  0.55 * Or(b.collusionRisk, 0.0) + 0.2 * Or(b.sockpuppetRisk, 0.0) +
                  0.15 * Or(b.validatorBriberyRisk, 0.0) + 0.1 * Or(b.anomalyWindowRisk, 0.0),
                  0.55 * Or(a.collusionRisk, 0.0) + 0.2 * Or(a.sockpuppetRisk, 0.0) +
                  0.15 * Or(a.validatorBriberyRisk, 0.0) + 0.1 * Or(a.anomalyWindowRisk, 0.0),
                  1.0);
  }

  lemma ScoreMonotone(a: Vector, b: Vector, context: Context)
    requires DominatedIn(a, b, context)
    ensures Score(a, context) <= Score(b, context)
  {
    CollusionPenaltyAntitone(a, b);
    assert RawScore(a, context) <= RawScore(b, context);
    ClampMonotone(0.0, RawScore(a, context), RawScore(b, context), 100.0);
    RoundMonotone(Clamp(0.0, RawScore(a, context), 100.0), Clamp(0.0, RawScore(b, context), 100.0));
  }

  /** The comparisons that the trust state and the policy action make. */
  predicate BetterVector(s: TrustVector, t: TrustVector)
  {
    && s.executionReliability <= t.executionReliability
    && s.economicIntegrity <= t.economicIntegrity
    && s.evidenceFreshness <= t.evidenceFreshness
    && t.dependencyRisk <= s.dependencyRisk
    && t.adversarialRisk <= s.adversarialRisk
  }

  lemma TrustVectorMonotone(a: Vector, b: Vector, m: int, n: int)
    requires Dominated(a, b)
    ensures BetterVector(TrustVectorOf(a, m), TrustVectorOf(b, n))
  {
  }

  lemma StateMonotone(s: TrustVector, t: TrustVector, m: int, n: int, config: TrustConfig, q: int, r: int)
    requires BetterVector(s, t) && m <= n && r <= q
    ensures StateRank(DeriveTrustState(s, m, config, q)) <= StateRank(DeriveTrustState(t, n, config, r))
  {
  }

  /** Score, trust state, routing priority and final decision never get worse, under any policy
      and any trust configuration. (Deny < Restrict < Allow; AllowWithValidation does not occur.) */
  lemma DominanceTheorem(a: Vector, b: Vector, ca: Counts, cb: Counts, context: Context, policy: Policy,
                         config: TrustConfig)
    requires DominatedIn(a, b, context)
    ensures var x := ComputeResolution(a, ca, context, policy, config);
            var y := ComputeResolution(b, cb, context, policy, config);
            && x.score <= y.score
            && StateRank(x.trustState) <= StateRank(y.trustState)
            && x.trustPolicy.routingPriority <= y.trustPolicy.routingPriority
            && x.decision in {Deny, Restrict, Allow} && y.decision in {Deny, Restrict, Allow}
            && (x.decision == Allow ==> y.decision == Allow)
            && (y.decision == Deny ==> x.decision == Deny)
  {
    ScoreMonotone(a, b, context);
    var m, n := Score(a, context), Score(b, context);
    TrustVectorMonotone(a, b, m, n);
    var s, t := TrustVectorOf(a, m), TrustVectorOf(b, n);
    StateMonotone(s, t, m, n, config, a.quarantineCount, b.quarantineCount);
    PriorityMonotone(s, t);
  }

  lemma PriorityMonotone(s: TrustVector, t: TrustVector)
    requires BetterVector(s, t)
    ensures RoutingPriority(s) <= RoutingPriority(t)
  {
    var x := 100.0 - s.adversarialRisk as real * 0.45 - s.dependencyRisk as real * 0.25
      + s.executionReliability as real * 0.2;
    var y := 100.0 - t.adversarialRisk as real * 0.45 - t.dependencyRisk as real * 0.25
      + t.executionReliability as real * 0.2;
    assert x <= y;
    ClampMonotone(0.0, x, y, 100.0);
    RoundMonotone(Clamp(0.0, x, 100.0), Clamp(0.0, y, 100.0));
  }

  // ---------------------------------------------------------------- bands

  /** No score has a higher band than its successor: a check on the policy alone. */
  predicate Ladder(bands: seq<BandRange>)
  {
    forall s | 0 <= s < 100 :: BandRank(ScoreBand(s, bands)) <= BandRank(ScoreBand(s + 1, bands))
  }

  lemma {:induction false} LadderClimbs(bands: seq<BandRange>, m: int, n: int)
    requires Ladder(bands) && 0 <= m <= n <= 100
    ensures BandRank(ScoreBand(m, bands)) <= BandRank(ScoreBand(n, bands))
    decreases n - m
  {
    if m < n {
      LadderClimbs(bands, m, n - 1);
      assert BandRank(ScoreBand(n - 1, bands)) <= BandRank(ScoreBand(n - 1 + 1, bands));
    }
  }

  /** Readings as computeSnapshot stores them: in their ranges, with one of its three identity readings. */
  predicate Stored(v: Vector)
  {
    P.VectorInRange(v) && v.identityIntegrity in {Some(0.0), Some(0.35), Some(0.96)}
  }

  const DOMAIN: Str := [0x64]

  const IN_DOMAIN: Context := Context(Some(DOMAIN), Medium)

  const ZERO_V1 := TrustVectorV1(Some(0.0), Some(0.0), Some(0.0), Some(0.0), Some(0.0), Some(0.0), Some(0.0))

  /** Every reading at one level, the dispute rate at its opposite, and a given identity. */
  function LevelVector(identity: real, level: real): Vector
  {
    var x := Some(level);
    Vector(Some(identity), x, x, x, x, Some(0.0), Some(1.0 - level), Some(0.0), Some(0.0), Some(0.0), Some(0.0),
           Some(0.0), Some(0.0), map[DOMAIN := level], ZERO_V1, 0)
  }

  /** The vector of that identity with a given score in the domain. */
  function VectorScoring(identity: real, score: int): Vector
  {
    LevelVector(identity, (score as real + 10.0 - 15.0 * identity) / 100.0)
  }

  /** An identity with which both a score and the next one are reached. */
  function IdentityFor(score: int): real
  {
    if score < 50 then 0.0 else 0.96
  }

  lemma LevelScores(identity: real, level: real)
    ensures RawScore(LevelVector(identity, level), IN_DOMAIN) == 15.0 * identity + 100.0 * level - 10.0
  {
    assert CollusionPenalty(LevelVector(identity, level)) == 0.0;
  }

  lemma LevelStored(identity: real, level: real)
    requires identity in {0.0, 0.35, 0.96} && 0.0 <= level <= 1.0
    ensures Stored(LevelVector(identity, level))
  {
  }

  lemma VectorScoringScores(identity: real, score: int)
    requires identity in {0.0, 0.96} && 0 <= score <= 100
    requires if identity == 0.0 then score <= 50 else score >= 50
    ensures Score(VectorScoring(identity, score), IN_DOMAIN) == score && Stored(VectorScoring(identity, score))
  {
    var level := (score as real + 10.0 - 15.0 * identity) / 100.0;
    LevelScores(identity, level);
    LevelStored(identity, level);
    RoundInteger(score);
  }

  lemma LevelsDominate(identity: real, low: real, high: real)
    requires low <= high
    ensures DominatedIn(LevelVector(identity, low), LevelVector(identity, high), IN_DOMAIN)
  {
  }

  /** Neighbouring scores are reached by stored vectors, the better of which dominates the other. */
  lemma NeighboursDominate(s: int) returns (a: Vector, b: Vector)
    requires 0 <= s < 100
    ensures DominatedIn(a, b, IN_DOMAIN) && Stored(a) && Stored(b)
    ensures Score(a, IN_DOMAIN) == s && Score(b, IN_DOMAIN) == s + 1
  {
    var identity := IdentityFor(s);
    a, b := VectorScoring(identity, s), VectorScoring(identity, s + 1);
    VectorScoringScores(identity, s);
    VectorScoringScores(identity, s + 1);
    LevelsDominate(identity, (s as real + 10.0 - 15.0 * identity) / 100.0,
                   ((s + 1) as real + 10.0 - 15.0 * identity) / 100.0);
  }

  ghost predicate NeverLower(a: Vector, b: Vector, context: Context, bands: seq<BandRange>)
  {
    BandRank(ScoreBand(Score(a, context), bands)) <= BandRank(ScoreBand(Score(b, context), bands))
  }

  /** A better snapshot never falls to a lower band under a policy exactly when the policy's bands form a
      ladder, be it among all vectors or among those that computeSnapshot can store. */
  lemma BandDominance(policy: Policy)
    ensures (forall a, b, context | DominatedIn(a, b, context) :: NeverLower(a, b, context, policy.bands))
            <==> Ladder(policy.bands)
    ensures (forall a, b, context | DominatedIn(a, b, context) && Stored(a) && Stored(b) ::
               NeverLower(a, b, context, policy.bands))
            <==> Ladder(policy.bands)
  {
    if Ladder(policy.bands) {
      forall a, b, context | DominatedIn(a, b, context) ensures NeverLower(a, b, context, policy.bands) {
        ScoreMonotone(a, b, context);
        LadderClimbs(policy.bands, Score(a, context), Score(b, context));
      }
    } else {
      var s :| 0 <= s < 100 && BandRank(ScoreBand(s, policy.bands)) > BandRank(ScoreBand(s + 1, policy.bands));
      var a, b := NeighboursDominate(s);
      assert !NeverLower(a, b, IN_DOMAIN, policy.bands);
    }
  }

  /** The bands of the default policy. */
  const DEFAULT_BANDS: seq<BandRange> := [
    BandRange(Privileged, 90.0, 100.0), BandRange(Preferred, 75.0, 89.0), BandRange(Allowed, 60.0, 74.0),
    BandRange(Watch, 40.0, 59.0), BandRange(Restricted, 20.0, 39.0), BandRange(Quarantined, 0.0, 19.0)]

  function DefaultBandOf(score: int): Band
  {
    if score >= 90 then Privileged else if score >= 75 then Preferred else if score >= 60 then Allowed
    else if score >= 40 then Watch else if score >= 20 then Restricted else Quarantined
  }

  lemma DefaultBands(score: int)
    requires 0 <= score <= 100
    ensures ScoreBand(score, DEFAULT_BANDS) == DefaultBandOf(score)
  {
    var b := DEFAULT_BANDS;
    var x := score as real;
    assert ScoreBand(score, b[5..]) == Quarantined by { assert b[5..][1..] == []; }
    assert ScoreBand(score, b[4..])
           == (if 20 <= score <= 39 then Restricted else Quarantined) by { assert b[4..][1..] == b[5..]; }
    assert ScoreBand(score, b[3..])
           == (if 40 <= score <= 59 then Watch else ScoreBand(score, b[4..])) by { assert b[3..][1..] == b[4..]; }
    assert ScoreBand(score, b[2..])
           == (if 60 <= score <= 74 then Allowed else ScoreBand(score, b[3..])) by { assert b[2..][1..] == b[3..]; }
    assert ScoreBand(score, b[1..])
           == (if 75 <= score <= 89 then Preferred else ScoreBand(score, b[2..])) by { assert b[1..][1..] == b[2..]; }
  }

  /** The default policy's bands tile 0..100 and form a ladder. */
  lemma DefaultPolicyIsLadder()
    ensures Ladder(DEFAULT_BANDS)
  {
    forall s | 0 <= s < 100
      ensures BandRank(ScoreBand(s, DEFAULT_BANDS)) <= BandRank(ScoreBand(s + 1, DEFAULT_BANDS))
    {
      DefaultBands(s);
      DefaultBands(s + 1);
    }
  }

  // ---------------------------------------------------------------- the request budget

  /** The thresholds between which a subject needs secondary validation: not quarantined or compromised by
      its quarantines, adversarial risk or score, but below the risky score or at adversarial risk 70. */
  predicate NeedsValidation(t: TrustVector, score: int, quarantines: int, config: TrustConfig)
  {
    && quarantines <= 0 && t.adversarialRisk < 80 && score > 35 && score as real > config.quarantineThreshold
    && ((score as real) < config.riskyThreshold || t.adversarialRisk >= 70)
  }

  /** Past the risky thresholds, but with stale evidence or unreliable execution. */
  predicate PastRiskyButPoor(t: TrustVector, score: int, config: TrustConfig)
  {
    && score as real >= config.riskyThreshold && t.adversarialRisk < 70
    && (t.evidenceFreshness < 40 || t.executionReliability < 50)
  }

  /** The budget of requests per minute is not monotone: it drops exactly when a subject that needs secondary
      validation improves past the risky thresholds while its evidence is stale or its execution unreliable. */
  lemma RequestBudgetDrops(a: Vector, b: Vector, ca: Counts, cb: Counts, context: Context, policy: Policy,
                           config: TrustConfig)
    requires DominatedIn(a, b, context)
    ensures var x := ComputeResolution(a, ca, context, policy, config);
            var y := ComputeResolution(b, cb, context, policy, config);
            var m, n := Score(a, context), Score(b, context);
            y.trustPolicy.maxRequestsPerMinute < x.trustPolicy.maxRequestsPerMinute <==>
            && NeedsValidation(TrustVectorOf(a, m), m, a.quarantineCount, config)
            && PastRiskyButPoor(TrustVectorOf(b, n), n, config)
  {
    DominanceTheorem(a, b, ca, cb, context, policy, config);
    ScoreMonotone(a, b, context);
    TrustVectorMonotone(a, b, Score(a, context), Score(b, context));
  }

  const NEUTRAL: Context := Context(None, Medium)

  /** Execution reliability 0.4 on fresh evidence, with a given identity; validation and stability at another. */
  function Unreliable(identity: real, quality: real): Vector
  {
    var v1 := TrustVectorV1(Some(40.0), Some(90.0), Some(0.0), Some(0.0), Some(0.0), Some(0.0), Some(90.0));
    Vector(Some(identity), Some(0.4), Some(quality), Some(quality), Some(0.9), Some(0.0), Some(0.0), Some(0.0),
           Some(0.0), Some(0.0), Some(0.0), Some(0.0), Some(0.0), map[], v1, 0)
  }

  lemma UnreliableReadings(identity: real, quality: real)
    ensures RawScore(Unreliable(identity, quality), NEUTRAL) == 41.25 + 15.0 * identity + 25.0 * quality
    ensures var t := TrustVectorOf(Unreliable(identity, quality), Score(Unreliable(identity, quality), NEUTRAL));
            t.executionReliability == 40 && t.adversarialRisk == 0
  {
    assert CollusionPenalty(Unreliable(identity, quality)) == 0.0;
    RoundInteger(40);
    RoundInteger(0);
  }

  lemma UnreliableScores(identity: real, quality: real, score: int)
    requires score as real - 0.5 <= 41.25 + 15.0 * identity + 25.0 * quality < score as real + 0.5 && 0 < score < 100
    ensures var v := Unreliable(identity, quality);
            && Score(v, NEUTRAL) == score && v.quarantineCount == 0
            && TrustVectorOf(v, Score(v, NEUTRAL)).executionReliability == 40
            && TrustVectorOf(v, Score(v, NEUTRAL)).adversarialRisk == 0
  {
    UnreliableReadings(identity, quality);
  }

  lemma UnreliableStored(identity: real, quality: real)
    requires identity in {0.0, 0.35, 0.96} && 0.0 <= quality <= 1.0
    ensures Stored(Unreliable(identity, quality))
  {
  }

  lemma UnreliableDominated()
    ensures DominatedIn(Unreliable(0.35, 0.0), Unreliable(0.96, 1.0), NEUTRAL)
  {
  }

  const EXAMPLE_CONFIG := TrustConfig(80.0, 50.0, 25.0)

  function BudgetOf(v: Vector, policy: Policy): int
  {
    ComputeResolution(v, Counts(0, 0), NEUTRAL, policy, EXAMPLE_CONFIG).trustPolicy.maxRequestsPerMinute
  }

  /** Such a pair exists among stored vectors: with identity 0.35 and nothing validated a subject scores 47, is
      risky and may send 40 requests a minute; with everything validated it scores 81 and may send 20. */
  lemma RequestBudgetDropExample(policy: Policy)
    ensures var a, b := Unreliable(0.35, 0.0), Unreliable(0.96, 1.0);
            && Stored(a) && Stored(b) && DominatedIn(a, b, NEUTRAL)
            && Score(a, NEUTRAL) == 47 && Score(b, NEUTRAL) == 81
            && BudgetOf(a, policy) == 40 && BudgetOf(b, policy) == 20
  {
    UnreliableStored(0.35, 0.0);
    UnreliableStored(0.96, 1.0);
    UnreliableScores(0.35, 0.0, 47);
    UnreliableScores(0.96, 1.0, 81);
    UnreliableDominated();
    BudgetOfRisky(Unreliable(0.35, 0.0), policy);
    BudgetOfDegrading(Unreliable(0.96, 1.0), policy);
  }

  lemma BudgetOfRisky(v: Vector, policy: Policy)
    requires NeedsValidation(TrustVectorOf(v, Score(v, NEUTRAL)), Score(v, NEUTRAL), v.quarantineCount, EXAMPLE_CONFIG)
    ensures BudgetOf(v, policy) == 40
  {
  }

  lemma BudgetOfDegrading(v: Vector, policy: Policy)
    requires PastRiskyButPoor(TrustVectorOf(v, Score(v, NEUTRAL)), Score(v, NEUTRAL), EXAMPLE_CONFIG)
    requires v.quarantineCount <= 0
    ensures BudgetOf(v, policy) == 20
  {
  }
}
