/** What computeSnapshot keeps for every evidence log: independence of arrival order, and the ranges
    of everything it derives. */
module SnapshotProperties {
  import opened Utf16
  import opened JsonParser
  import opened Rounding
  import opened Snapshot
  import Ordering
  import R = Resolution
  import G = ValidatorGraph

  // ---------------------------------------------------------------- arrival order

  lemma NewestFirstIsOrder(collate: (Str, Str) -> int)
    requires G.Collation(collate)
    ensures Ordering.WeakOrder(NewestFirst(collate))
  {
    var lt := (x: Str, y: Str) => collate(x, y) < 0;
    var less := NewestFirst(collate);
    forall x ensures !less(x, x) {
      assert !lt(x.id, x.id);
    }
    forall x, y, z | less(x, y) && less(y, z) ensures less(x, z) {
      assert lt(x.id, y.id) && lt(y.id, z.id) ==> lt(x.id, z.id);
    }
    forall x, y, z | less(x, z) ensures less(x, y) || less(y, z) {
      assert lt(x.id, z.id) ==> lt(x.id, y.id) || lt(y.id, z.id);
    }
  }

  /** Newest first, and within an instant by id. */
  ghost predicate NewerFirst(collate: (Str, Str) -> int, log: seq<Evidence>)
  {
    forall i, j | 0 <= i < j < |log| ::
      log[i].at > log[j].at || (log[i].at == log[j].at && collate(log[i].id, log[j].id) <= 0)
  }

  lemma SortedIsNewerFirst(collate: (Str, Str) -> int, evidences: seq<Evidence>)
    requires G.Collation(collate)
    ensures NewerFirst(collate, Ordering.Sort(NewestFirst(collate), evidences))
  {
    var log := Ordering.Sort(NewestFirst(collate), evidences);
    NewestFirstIsOrder(collate);
    Ordering.SortSorted(NewestFirst(collate), evidences);
    forall i, j | 0 <= i < j < |log|
      ensures log[i].at > log[j].at || (log[i].at == log[j].at && collate(log[i].id, log[j].id) <= 0)
    {
      assert !NewestFirst(collate)(log[j], log[i]);
      assert collate(log[i].id, log[j].id) > 0 <==> collate(log[j].id, log[i].id) < 0;
    }
  }

  /** Of two entries of the ordered log, the earlier one is the newer one, or of the same instant and not behind it
      by id. */
  lemma OrderedIsNewerFirst(host: Host, evidences: seq<Evidence>)
    requires G.Collation(host.collate)
    ensures NewerFirst(host.collate, Ordered(host, evidences))
  {
    SortedIsNewerFirst(host.collate, evidences);
  }

  /** Distinct evidences of the same instant have ids that localeCompare tells apart. */
  ghost predicate ToldApart(collate: (Str, Str) -> int, evidences: seq<Evidence>)
  {
    forall x, y | x in evidences && y in evidences && x != y && x.at == y.at :: collate(x.id, y.id) != 0
  }

  lemma ToldApartMeansNoTies(collate: (Str, Str) -> int, evidences: seq<Evidence>)
    requires G.Collation(collate)
    ensures ToldApart(collate, evidences) <==> Ordering.NoTies(NewestFirst(collate), multiset(evidences))
  {
    var less := NewestFirst(collate);
    if Ordering.NoTies(less, multiset(evidences)) {
      forall x, y | x in evidences && y in evidences && x != y && x.at == y.at ensures collate(x.id, y.id) != 0 {
        assert x in multiset(evidences) && y in multiset(evidences);
        assert less(x, y) || less(y, x);
      }
    }
  }

  lemma NewerFirstIsSorted(collate: (Str, Str) -> int, a: seq<Evidence>, b: seq<Evidence>)
    requires G.Collation(collate) && multiset(a) == multiset(b) && ToldApart(collate, a) && NewerFirst(collate, b)
    ensures Ordering.WeakOrder(NewestFirst(collate)) && Ordering.Sorted(NewestFirst(collate), b)
    ensures Ordering.NoTies(NewestFirst(collate), multiset(b))
  {
    NewestFirstIsOrder(collate);
    ToldApartMeansNoTies(collate, a);
    forall i, j | 0 <= i < j < |b| ensures !NewestFirst(collate)(b[j], b[i]) {
      assert collate(b[i].id, b[j].id) > 0 <==> collate(b[j].id, b[i].id) < 0;
    }
  }

  /** The order of the log is independent of arrival exactly when its entries are told apart. */
  lemma OrderForgetsArrival(collate: (Str, Str) -> int, a: seq<Evidence>)
    requires G.Collation(collate)
    ensures NewerFirst(collate, Ordering.Sort(NewestFirst(collate), a))
    ensures (forall b | multiset(b) == multiset(a) ::
               Ordering.Sort(NewestFirst(collate), b) == Ordering.Sort(NewestFirst(collate), a)) <==>
                 ToldApart(collate, a)
  {
    NewestFirstIsOrder(collate);
    SortedIsNewerFirst(collate, a);
    ToldApartMeansNoTies(collate, a);
    Ordering.SortForgetsArrival(NewestFirst(collate), a);
  }

  /** The snapshot does not depend on the order the evidence arrived in: it is computed from the one arrangement that
      is newest first. */
  lemma ArrivalOrderDoesNotMatter(host: Host, a: seq<Evidence>, b: seq<Evidence>, passport: Passport,
                                  others: map<Str, Passport>,
                                  previous: Option<Previous>, minimumDiversity: int, penalties: Penalties, now: int)
    requires G.Collation(host.collate) && multiset(a) == multiset(b) && ToldApart(host.collate, a)
    ensures ComputeSnapshot(host, a, passport, others, previous, minimumDiversity, penalties, now)
         == ComputeSnapshot(host, b, passport, others, previous, minimumDiversity, penalties, now)
    ensures NewerFirst(host.collate, b) ==> Ordered(host, a) == b
  {
    if NewerFirst(host.collate, b) {
      NewerFirstIsSorted(host.collate, a, b);
      Ordering.SortIdentity(NewestFirst(host.collate), b);
    }
    NewestFirstIsOrder(host.collate);
    ToldApartMeansNoTies(host.collate, a);
    Ordering.SortPermutation(NewestFirst(host.collate), a, b);
  }

  // ---------------------------------------------------------------- averages

  predicate InUnit(x: real)
  {
    0.0 <= x <= 1.0
  }

  lemma QuotientBounds(low: real, numerator: real, denominator: real, high: real)
    requires denominator > 0.0 && low * denominator <= numerator <= high * denominator
    ensures low <= numerator / denominator <= high
  {
    var q := numerator / denominator;
    assert q * denominator == numerator;
  }

  lemma {:induction false} SumBounds<T(!new)>(f: T -> real, low: real, high: real, s: seq<T>)
    requires forall i | 0 <= i < |s| :: low <= f(s[i]) <= high
    ensures low * |s| as real <= Sum(f, s) <= high * |s| as real
  {
    if s != [] {
      SumBounds(f, low, high, s[1..]);
      var n := |s[1..]| as real;
      assert low * (n + 1.0) == low * n + low && high * (n + 1.0) == high * n + high;
    }
  }

  lemma {:induction false} SumOrder<T(!new)>(f: T -> real, g: T -> real, s: seq<T>)
    requires forall i | 0 <= i < |s| :: f(s[i]) <= g(s[i])
    ensures Sum(f, s) <= Sum(g, s)
  {
    if s != [] {
      SumOrder(f, g, s[1..]);
    }
  }

  lemma {:induction false} SumScaled<T(!new)>(f: T -> real, g: T -> real, c: real, s: seq<T>)
    requires forall i | 0 <= i < |s| :: f(s[i]) == c * g(s[i])
    ensures Sum(f, s) == c * Sum(g, s)
  {
    if s != [] {
      SumScaled(f, g, c, s[1..]);
      assert c * (g(s[0]) + Sum(g, s[1..])) == c * g(s[0]) + c * Sum(g, s[1..]);
    }
  }

  lemma {:induction false} SumPositive<T(!new)>(f: T -> real, s: seq<T>)
    requires forall i | 0 <= i < |s| :: f(s[i]) > 0.0
    ensures Sum(f, s) >= 0.0 && (s != [] ==> Sum(f, s) > 0.0)
  {
    if s != [] {
      SumPositive(f, s[1..]);
    }
  }

  lemma ProductOrder(x: real, y: real, w: real)
    requires x <= y && w >= 0.0
    ensures x * w <= y * w
  {
  }

  lemma {:induction false} WeightedSumBounds(values: seq<Weighted<real>>, low: real, high: real)
    requires forall i | 0 <= i < |values| :: low <= values[i].item <= high && values[i].weight > 0.0
    ensures low * Denominator(values) <= Numerator(values) <= high * Denominator(values)
    ensures Denominator(values) >= 0.0 && (values != [] ==> Denominator(values) > 0.0)
  {
    if values != [] {
      WeightedSumBounds(values[1..], low, high);
      var w, d := values[0].weight, Denominator(values[1..]);
      ProductOrder(low, values[0].item, w);
      ProductOrder(values[0].item, high, w);
      Distributes(low, w, d);
      Distributes(high, w, d);
    }
  }

  lemma Distributes(x: real, w: real, d: real)
    ensures x * (w + d) == x * w + x * d
  {
  }

  /** A weighted average with positive weights lies in the range of its values; it is 0 for none. */
  lemma AverageConvex(values: seq<Weighted<real>>, low: real, high: real)
    requires forall i | 0 <= i < |values| :: low <= values[i].item <= high && values[i].weight > 0.0
    ensures values == [] ==> AverageWeighted(values) == 0.0
    ensures values != [] ==> low <= AverageWeighted(values) <= high
  {
    WeightedSumBounds(values, low, high);
    if values != [] {
      QuotientBounds(low, Numerator(values), Denominator(values), high);
    }
  }

  lemma MeanBounds<T(!new)>(f: T -> real, low: real, high: real, s: seq<T>)
    requires s != [] && forall i | 0 <= i < |s| :: low <= f(s[i]) <= high
    ensures low <= Sum(f, s) / |s| as real <= high
  {
    SumBounds(f, low, high, s);
    QuotientBounds(low, Sum(f, s), |s| as real, high);
  }

  lemma ShareBounds(n: nat, total: nat)
    requires n <= total && total > 0
    ensures InUnit(n as real / total as real)
  {
    QuotientBounds(0.0, n as real, total as real, 1.0);
  }

  // ---------------------------------------------------------------- ranges of the parts

  lemma SuccessRateRange(tasks: seq<Weighted<Evidence>>)
    requires forall i | 0 <= i < |tasks| :: tasks[i].weight > 0.0
    ensures InUnit(SuccessRate(tasks))
  {
    if tasks != [] {
      var success := (w: Weighted<Evidence>) => SuccessWeight(w);
      var weight := (w: Weighted<Evidence>) => w.weight;
      var zero := (w: Weighted<Evidence>) => 0.0 * w.weight;
      SumOrder(success, weight, tasks);
      SumOrder(zero, success, tasks);
      SumScaled(zero, weight, 0.0, tasks);
      QuotientBounds(0.0, Sum(success, tasks), Max(1.0, Sum(weight, tasks)), 1.0);
    }
  }

  lemma AveragedRange(value: Evidence -> real, tasks: seq<Weighted<Evidence>>)
    requires forall i | 0 <= i < |tasks| :: tasks[i].weight > 0.0
    requires forall e :: InUnit(value(e))
    ensures InUnit(Averaged(value, tasks))
  {
    AverageConvex(Map((w: Weighted<Evidence>) => Weighted(value(w.item), w.weight), tasks), 0.0, 1.0);
  }

  lemma ConsensusRange(recent: seq<Evidence>)
    ensures InUnit(ConsensusAgreement(recent))
  {
    if recent != [] {
      AveragedRange(Agreement, RollingWeights(recent));
    }
  }

  lemma FreshnessRange(host: Host, hours: real, halfLife: real)
    requires HostOk(host) && hours >= 0.0
    ensures InUnit(Freshness(host, hours, halfLife))
  {
    var scale := Max(1.0, if halfLife == 0.0 then 72.0 else halfLife);
    assert hours / scale >= 0.0 by {
      QuotientBounds(0.0, hours, scale, hours);
    }
  }

  lemma RatioRange(n: nat, total: nat)
    requires n <= total
    ensures InUnit(Ratio(n, total)) && InUnit(Round4(Ratio(n, total)))
  {
  }

  /** Every graph signal lies in [0, 1] except the reversal rate, which is only bounded below. */
  lemma GraphRange(host: Host, counts: GraphCounts, minimumDiversity: int)
    requires G.Collation(host.collate)
    requires counts.sharedIssuer <= |counts.ids| && counts.sharedInfra <= |counts.ids|
    ensures var g := ComputeGraphSignals(host, counts, minimumDiversity);
            && InUnit(g.mutualValidation) && InUnit(g.diversity) && InUnit(g.clusterDensity)
            && InUnit(g.sharedIssuer) && InUnit(g.sharedInfra) && InUnit(g.collusionRisk) && g.reversalRate >= 0.0
    ensures InUnit(CollusionMix(Ratio(G.Repeated(counts.ids), |counts.ids|),
                                Ratio(G.DominantCount(host.collate, counts.ids), |counts.ids|),
                                Clamp(0.0, |G.Members(counts.ids)| as real / Max(1.0, minimumDiversity as real), 1.0),
                                Ratio(counts.sharedIssuer, |counts.ids|), Ratio(counts.sharedInfra, |counts.ids|)))
  {
    G.ClusterDensityBounds(host.collate, counts.ids);
    RatioRange(G.Repeated(counts.ids), |counts.ids|);
    RatioRange(G.DominantCount(host.collate, counts.ids), |counts.ids|);
    RatioRange(counts.sharedIssuer, |counts.ids|);
    RatioRange(counts.sharedInfra, |counts.ids|);
  }

  /** The clamp on the dependency risk does nothing. */
  lemma DependencyRange(passport: Passport, window: seq<Evidence>)
    ensures var all := passport.dependencies + DependenciesOf(window);
            all != [] ==>
              InUnit(DependencyMix(Sum((d: DependencyReading) => Clamp(0.0, Health(d), 100.0), all) / |all| as real,
                                   |Filter((d: DependencyReading) => Risky(d), all)| as real / |all| as real))
  {
    var all := passport.dependencies + DependenciesOf(window);
    if all != [] {
      var health := (d: DependencyReading) => Clamp(0.0, Health(d), 100.0);
      MeanBounds(health, 0.0, 100.0, all);
      ShareBounds(|Filter((d: DependencyReading) => Risky(d), all)|, |all|);
    }
  }

  predicate ScoresInUnit(events: seq<Evidence>)
  {
    forall i | 0 <= i < |events| :: InUnit(R.Or(events[i].quality, 0.0)) && InUnit(R.Or(events[i].confidence, 0.0))
  }

  /** The clamp on domain competence does nothing when the quality and confidence scores lie in [0, 1]. */
  lemma CompetenceRange(host: Host, events: seq<Evidence>, now: int, halfLife: real)
    requires HostOk(host) && events != [] && ScoresInUnit(events)
    ensures InUnit(CompetenceMix(|Filter((e: Evidence) => IsCompleted(e), events)| as real / |events| as real,
                                 Sum((e: Evidence) => ValidatedQuality(e), events) / |events| as real,
                                 Freshness(host, FreshestHours(events, now), halfLife)))
  {
    ShareBounds(|Filter((e: Evidence) => IsCompleted(e), events)|, |events|);
    MeanBounds((e: Evidence) => ValidatedQuality(e), 0.0, 1.0, events);
    FreshnessRange(host, FreshestHours(events, now), halfLife);
  }

  // ---------------------------------------------------------------- the whole vector

  predicate PreviousOk(previous: Option<Previous>)
  {
    previous.Some? && previous.value.executionReliability.Some? ==> InUnit(previous.value.executionReliability.value)
  }

  predicate SignalsInRange(s: Signals)
  {
    && InUnit(s.execution) && InUnit(s.accuracy) && InUnit(s.consensus) && InUnit(s.resilience) && InUnit(s.asymmetry)
    && InUnit(s.highValue) && InUnit(s.validation) && InUnit(s.freshness) && InUnit(s.volatility)
    && InUnit(s.coordination)
    && InUnit(s.disputeRate) && InUnit(s.identity) && InUnit(s.sockpuppet) && InUnit(s.bribery) && InUnit(s.anomaly)
    && InUnit(s.dependency) && InUnit(s.adversarial)
    && InUnit(s.graph.mutualValidation) && InUnit(s.graph.diversity) && InUnit(s.graph.clusterDensity)
    && InUnit(s.graph.sharedIssuer) && InUnit(s.graph.sharedInfra) && InUnit(s.graph.collusionRisk)
    && s.graph.reversalRate >= 0.0
  }

  /** The combinations of weight 1 whose clamps never bind. Validator bribery joins them when the
      reversal rate is at most 1. */
  predicate ClampsIdle(s: Signals)
  {
    && InUnit(ValidationMix(s.accuracy, s.consensus, s.graph.diversity, s.resilience)
              * LowDiversityCap(s.graph.diversity))
    && InUnit(SockpuppetMix(s.graph.sharedIssuer, s.graph.sharedInfra, s.graph.diversity))
    && (s.graph.reversalRate <= 1.0 ==> InUnit(BriberyMix(s.highValue, s.graph.mutualValidation, s.graph.reversalRate)))
    && InUnit(AnomalyMix(s.volatility, s.highValue, s.graph.clusterDensity))
    && InUnit(StabilityMix(s.coordination, s.anomaly, s.asymmetry, s.adversarial))
    && InUnit(IdentityMix(s.identity, s.sockpuppet, s.graph.sharedIssuer))
    && InUnit(EconomicMix(s.execution, s.validation, s.disputeRate, s.adversarial))
    && InUnit(AdversarialMix(s.graph.collusionRisk, s.sockpuppet, s.bribery,
                             Clamp(0.0, s.anomaly + s.adversarial * 0.7, 1.0)))
  }

  lemma NonNegativeProduct(x: real, y: real)
    requires 0.0 <= x && 0.0 <= y
    ensures 0.0 <= x * y
  {
  }

  lemma UnitProduct(x: real, y: real)
    requires InUnit(x) && InUnit(y)
    ensures InUnit(x * y)
  {
    NonNegativeProduct(x, y);
    NonNegativeProduct(1.0 - x, y);
    assert (1.0 - x) * y == y - x * y;
  }

  lemma ValidationMixRange(accuracy: real, consensus: real, diversity: real, resilience: real)
    requires InUnit(accuracy) && InUnit(consensus) && InUnit(diversity) && InUnit(resilience)
    ensures InUnit(ValidationMix(accuracy, consensus, diversity, resilience) * LowDiversityCap(diversity))
  {
    UnitProduct(ValidationMix(accuracy, consensus, diversity, resilience), LowDiversityCap(diversity));
  }

  lemma AdversarialMixRange(collusion: real, sockpuppet: real, bribery: real, anomaly: real)
    requires InUnit(collusion) && InUnit(sockpuppet) && InUnit(bribery) && InUnit(anomaly)
    ensures InUnit(AdversarialMix(collusion, sockpuppet, bribery, anomaly))
  {
  }

  lemma ClampsIdleInRange(s: Signals)
    requires SignalsInRange(s)
    ensures ClampsIdle(s)
  {
    ValidationMixRange(s.accuracy, s.consensus, s.graph.diversity, s.resilience);
    AdversarialMixRange(s.graph.collusionRisk, s.sockpuppet, s.bribery,
                        Clamp(0.0, s.anomaly + s.adversarial * 0.7, 1.0));
  }

  lemma ExecutionRange(tasks: seq<Weighted<Evidence>>)
    requires forall i | 0 <= i < |tasks| :: tasks[i].weight > 0.0
    ensures InUnit(ExecutionMix(SuccessRate(tasks), Averaged(QualityValue, tasks), Averaged(ConfidenceValue, tasks),
                                Averaged(LatencyValue, tasks)))
  {
    SuccessRateRange(tasks);
    AveragedRange(QualityValue, tasks);
    AveragedRange(ConfidenceValue, tasks);
    AveragedRange(LatencyValue, tasks);
  }

  /** The combination of the execution reliability over the engine's own task weights stays in [0, 1]. */
  lemma ExecutionClampIdle(host: Host, ordered: seq<Evidence>)
    ensures var tasks := TaskWeights(host, Window(ordered, 20));
            InUnit(ExecutionMix(SuccessRate(tasks), Averaged(QualityValue, tasks), Averaged(ConfidenceValue, tasks),
                                Averaged(LatencyValue, tasks)))
  {
    ExecutionRange(TaskWeights(host, Window(ordered, 20)));
  }

  /** The signals that are clamped, or bounded where they are read. */
  predicate Clamped(s: Signals)
  {
    && InUnit(s.execution) && InUnit(s.accuracy) && InUnit(s.resilience) && InUnit(s.asymmetry)
    && InUnit(s.highValue) && InUnit(s.validation) && InUnit(s.volatility) && InUnit(s.coordination)
    && InUnit(s.disputeRate) && InUnit(s.identity) && InUnit(s.sockpuppet) && InUnit(s.bribery)
    && InUnit(s.anomaly) && InUnit(s.dependency) && InUnit(s.adversarial)
  }

  lemma SignalsClamped(host: Host, ordered: seq<Evidence>, passport: Passport, others: map<Str, Passport>,
                       previous: Option<Previous>, minimumDiversity: int, penalties: Penalties, now: int)
    requires PreviousOk(previous)
    ensures var s := ComputeSignals(host, ordered, passport, others, previous, minimumDiversity, penalties, now);
            Clamped(s)
  {
    var recent, medium := Window(ordered, 20), Window(ordered, 100);
    var tasks := TaskWeights(host, recent);
    var execution := ExecutionReliability(tasks);
    SignalsFromClamped(
      execution, ValidationAccuracy(recent, medium), ConsensusAgreement(recent),
      ComputeGraphSignals(host, GraphCountsOf(medium, passport, others), minimumDiversity),
      |Filter(IsDispute, medium)| as real / Max(1.0, |medium| as real), TaskValue(ValueOf(host), tasks),
      if ordered == [] then 0.2 else Freshness(host, AgeHours(ordered[0].at, now), penalties.halfLifeHours),
      if previous.Some? then R.Or(previous.value.executionReliability, execution) else execution,
      passport.status, DependencyRisk(passport, recent), AdversarialRiskSignal(penalties, medium));
  }

  lemma SignalsFromClamped(execution: real, accuracy: real, consensus: real, graph: GraphSignals, disputeShare: real,
                           taskValue: real, freshness: real, before: real, status: Status, dependency: real,
                           adversarial: real)
    requires InUnit(execution) && InUnit(accuracy) && InUnit(before) && InUnit(dependency) && InUnit(adversarial)
    ensures var s := SignalsFrom(execution, accuracy, consensus, graph, disputeShare, taskValue, freshness, before,
                                 status, dependency, adversarial);
            Clamped(s)
  {
  }

  /** Range safety: every signal except the reversal rate lies in [0, 1], and the clamps on the
      combinations of weight 1 do nothing. */
  lemma SignalRanges(host: Host, ordered: seq<Evidence>, passport: Passport, others: map<Str, Passport>,
                     previous: Option<Previous>, minimumDiversity: int, penalties: Penalties, now: int)
    requires HostOk(host) && G.Collation(host.collate) && PreviousOk(previous)
    ensures var s := ComputeSignals(host, ordered, passport, others, previous, minimumDiversity, penalties, now);
            SignalsInRange(s) && ClampsIdle(s)
  {
    var s := ComputeSignals(host, ordered, passport, others, previous, minimumDiversity, penalties, now);
    SignalsClamped(host, ordered, passport, others, previous, minimumDiversity, penalties, now);
    ConsensusRange(Window(ordered, 20));
    GraphRange(host, GraphCountsOf(Window(ordered, 100), passport, others), minimumDiversity);
    if ordered != [] {
      FreshnessRange(host, AgeHours(ordered[0].at, now), penalties.halfLifeHours);
    }
    ClampsIdleInRange(s);
  }

  predicate PercentEntry(r: R.Reading)
  {
    r.Some? && 0.0 <= r.value <= 100.0 && r.value == r.value.Floor as real
  }

  lemma PercentRange(x: real)
    requires InUnit(x)
    ensures PercentEntry(Percent(x))
  {
    RoundPercent(x);
  }

  predicate Rate(r: R.Reading)
  {
    r.Some? && InUnit(r.value)
  }

  predicate VectorInRange(v: R.Vector)
  {
    && Rate(v.identityIntegrity) && Rate(v.executionReliability) && Rate(v.validationQuality)
    && Rate(v.coordinationStability) && Rate(v.freshness) && Rate(v.validatorDiversityScore) && Rate(v.disputeRate)
    && Rate(v.reversalAsymmetry) && Rate(v.collusionRisk) && Rate(v.sockpuppetRisk) && Rate(v.validatorBriberyRisk)
    && Rate(v.anomalyWindowRisk)
    && (forall d | d in v.domainCompetence :: InUnit(v.domainCompetence[d]))
    && PercentEntry(v.v1.executionReliability) && PercentEntry(v.v1.economicIntegrity)
    && PercentEntry(v.v1.identityCredibility) && PercentEntry(v.v1.behavioralStability)
    && PercentEntry(v.v1.dependencyRisk) && PercentEntry(v.v1.adversarialRisk) && PercentEntry(v.v1.evidenceFreshness)
  }

  lemma StoredRanges(s: Signals, domains: map<Str, real>, quarantines: nat)
    requires SignalsInRange(s) && forall d | d in domains :: InUnit(domains[d])
    ensures VectorInRange(VectorOf(s, domains, quarantines))
  {
    V1Ranges(s);
  }

  lemma VectorOfSnapshot(host: Host, evidences: seq<Evidence>, passport: Passport, others: map<Str, Passport>,
                         previous: Option<Previous>, minimumDiversity: int, penalties: Penalties, now: int,
                         good: R.Vector -> bool, s: Signals)
    requires s == ComputeSignals(host, Ordered(host, evidences), passport, others, previous, minimumDiversity,
                                 penalties, now)
    requires forall domains, n ::
               (forall d | d in domains :: 0.0 <= domains[d] <= 1.0) ==> good(VectorOf(s, domains, n))
    ensures var snapshot := ComputeSnapshot(host, evidences, passport, others, previous, minimumDiversity, penalties,
                                            now);
            good(snapshot.vector) && snapshot.graph == s.graph
  {
  }

  /** The graph ratios beside the vector, and issuer_correlation, which is the rounded shared-issuer ratio. */
  predicate GraphInRange(g: GraphSignals)
  {
    && InUnit(g.mutualValidation) && InUnit(g.diversity) && InUnit(g.clusterDensity) && InUnit(g.sharedIssuer)
    && InUnit(g.sharedInfra) && InUnit(g.collusionRisk) && InUnit(Round4(g.sharedIssuer)) && g.reversalRate >= 0.0
  }

  /** Every rate of the stored vector and every graph ratio except reversal_rate lies in [0, 1], and each
      trust_vector_v1 entry is an integer between 0 and 100. */
  lemma VectorRanges(host: Host, evidences: seq<Evidence>, passport: Passport, others: map<Str, Passport>,
                     previous: Option<Previous>, minimumDiversity: int, penalties: Penalties, now: int)
    requires HostOk(host) && G.Collation(host.collate) && PreviousOk(previous)
    ensures var snapshot := ComputeSnapshot(host, evidences, passport, others, previous, minimumDiversity, penalties,
                                            now);
            VectorInRange(snapshot.vector) && GraphInRange(snapshot.graph)
  {
    var ordered := Ordered(host, evidences);
    SignalRanges(host, ordered, passport, others, previous, minimumDiversity, penalties, now);
    var s := ComputeSignals(host, ordered, passport, others, previous, minimumDiversity, penalties, now);
    forall domains: map<Str, real>, n | forall d | d in domains :: 0.0 <= domains[d] <= 1.0
      ensures VectorInRange(VectorOf(s, domains, n))
    {
      StoredRanges(s, domains, n);
    }
    VectorOfSnapshot(host, evidences, passport, others, previous, minimumDiversity, penalties, now,
                     v => VectorInRange(v), s);
  }

  lemma V1Ranges(s: Signals)
    requires SignalsInRange(s)
    ensures var v1 := TrustVectorV1Of(s);
            && PercentEntry(v1.executionReliability) && PercentEntry(v1.economicIntegrity)
            && PercentEntry(v1.identityCredibility) && PercentEntry(v1.behavioralStability)
            && PercentEntry(v1.dependencyRisk) && PercentEntry(v1.adversarialRisk) && PercentEntry(v1.evidenceFreshness)
  {
    forall x | InUnit(x) ensures PercentEntry(Percent(x)) {
      PercentRange(x);
    }
  }

  // ---------------------------------------------------------------- the reversal rate

  /** The reversal rate counts evidences but divides by validations: before rounding it stays within
      [0, 1] exactly when there are no more reversals than validations, or no validations at all. */
  lemma ReversalRateBound(counts: GraphCounts)
    ensures Ratio(counts.reversals, |counts.ids|) <= 1.0 <==> counts.ids == [] || counts.reversals <= |counts.ids|
  {
    if counts.ids != [] {
      var n := |counts.ids| as real;
      var q := counts.reversals as real / n;
      assert q * n == counts.reversals as real;
      if counts.reversals > |counts.ids| {
        if q <= 1.0 { ProductOrder(q, 1.0, n); }
      } else {
        QuotientBounds(0.0, counts.reversals as real, n, 1.0);
      }
    }
  }

  lemma TwoReversals(e: Evidence, f: Evidence, v: Verdict)
    requires e.eventType == ValidationReversed && f.eventType == ValidationReversed
    requires e.validators == [v] && f.validators == []
    ensures |ValidatorIds([e, f])| == 1 && Reversals([e, f]) == 2
  {
    assert [e, f][..1] == [e] && [e][..0] == [];
    assert ValidatorIds([e]) == ValidatorIds([]) + IdsOf([v]);
    assert ValidatorIds([e, f]) == ValidatorIds([e]) + IdsOf([]);
    assert Reversals([e]) == Reversals([]) + 1;
  }

  /** Two reversals with a single validator between them give a reversal rate of 2. */
  lemma ReversalRateExceedsOne(host: Host, e: Evidence, f: Evidence, v: Verdict, passport: Passport,
                               others: map<Str, Passport>)
    requires e.eventType == ValidationReversed && f.eventType == ValidationReversed
    requires e.validators == [v] && f.validators == []
    ensures ComputeGraphSignals(host, GraphCountsOf([e, f], passport, others), 3).reversalRate == 2.0
  {
    TwoReversals(e, f, v);
    RoundInteger(20000);
  }
}
