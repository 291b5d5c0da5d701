/** computeSnapshot: a subject's evidence log folded into a risk vector. */
module Snapshot {
  import opened Utf16
  import opened JsonParser
  import opened Rounding
  import Ordering
  import R = Resolution
  import G = ValidatorGraph

  // ---------------------------------------------------------------- inputs

  /** Event names that carry a penalty once normalised (upper case, dots and dashes as underscores). */
  datatype Adversity =
    | PaymentFailed | ReplayAttempt | DuplicatePaymentSignature | MalformedPayload | PayloadMismatch
    | VerifierDelay | RateSpike | OutputInconsistency | DependencyFailure | QuarantineEvent

  /** The prefix of an event name the engine does not otherwise know. */
  datatype Family = TaskFamily | ValidationFamily | DisputeFamily | NoFamily

  /** What the engine reads off an event name: the names it tests for, the names that carry a
      penalty, and the prefix of any other name. */
  datatype EventType =
    | TaskCompleted | TaskFailed | TaskTimeout
    | ValidationPassed | ValidationFailed | ValidationReversed
    | DisputeOpened | DisputeResolved
    | Adverse(rule: Adversity)
    | Other(family: Family)

  /** The root issuer org_infopunks is told apart from the others. */
  datatype Issuer = NoIssuer | RootIssuer | Issuer(id: Str)

  datatype Verdict = Verdict(validatorId: Str, passed: bool)

  /** One entry of context.dependency_health. */
  datatype DependencyReading = Plain(value: real) | Detailed(risky: bool, health: R.Reading) | Opaque

  datatype Evidence = Evidence(
    id: Str, at: int, eventType: EventType,
    domain: Option<Str>, risk: R.Risk,
    difficulty: R.Reading, capitalExposure: R.Reading, uncertainty: R.Reading, downstreamImpact: R.Reading,
    externalVerification: bool, bootstrap: bool,
    latencyMs: R.Reading, quality: R.Reading, confidence: R.Reading,
    validators: seq<Verdict>, dependencies: seq<DependencyReading>)

  datatype Status = Active | Suspended | Revoked

  datatype Passport = Passport(
    status: Status, issuer: Issuer, ownerOrg: Option<Str>, framework: Option<Str>, createdAt: int,
    dependencies: seq<DependencyReading>)

  datatype Penalties = Penalties(halfLifeHours: real, replay: real, duplicatePayment: real, malformed: real,
                                 verifierDelay: real)

  datatype Previous = Previous(version: int, executionReliability: R.Reading)

  /** What the host computes: 0.5^x, log10 and String.localeCompare. */
  datatype Host = Host(halfPower: real -> real, log10: real -> real, collate: (Str, Str) -> int)

  /** 0.5^x lies in (0, 1] for every x that is not negative. */
  ghost predicate HostOk(host: Host)
  {
    forall x: real | x >= 0.0 :: 0.0 < host.halfPower(x) <= 1.0
  }

  // ---------------------------------------------------------------- folds

  function Filter<T>(p: T -> bool, s: seq<T>): (r: seq<T>)
    ensures |r| <= |s|
    ensures forall x | x in r :: x in s && p(x)
    ensures forall x | x in s && p(x) :: x in r
  {
    if s == [] then []
    else if p(s[0]) then [s[0]] + Filter(p, s[1..])
    else Filter(p, s[1..])
  }

  function Sum<T>(f: T -> real, s: seq<T>): real
  {
    if s == [] then 0.0 else f(s[0]) + Sum(f, s[1..])
  }

  function Max(x: real, y: real): real
  {
    if x >= y then x else y
  }

  function Min(x: real, y: real): real
  {
    if x <= y then x else y
  }

  function Abs(x: real): real
  {
    if x >= 0.0 then x else -x
  }

  datatype Weighted<T> = Weighted(item: T, weight: real)

  /** The weight of the item at position i among n. */
  function RollingWeight(i: nat, n: nat): (r: real)
    ensures i < n ==> 0.0 < r <= 1.0
  {
    1.0 - i as real / (n + 1) as real
  }

  /** rollingWeights, from position `index` on. */
  function RollingFrom<T>(items: seq<T>, index: nat): (r: seq<Weighted<T>>)
    requires index <= |items|
    ensures |r| == |items| - index
    ensures forall i | 0 <= i < |r| :: r[i] == Weighted(items[index + i], RollingWeight(index + i, |items|))
    decreases |items| - index
  {
    if index == |items| then []
    else
      [Weighted(items[index], RollingWeight(index, |items|))] + RollingFrom(items, index + 1)
  }

  function RollingWeights<T>(items: seq<T>): (r: seq<Weighted<T>>)
    ensures |r| == |items|
    ensures forall i | 0 <= i < |r| :: r[i] == Weighted(items[i], 1.0 - i as real / (|items| + 1) as real)
    ensures forall i | 0 <= i < |r| :: 0.0 < r[i].weight <= 1.0
  {
    RollingFrom(items, 0)
  }

  function Numerator(values: seq<Weighted<real>>): real
  {
    if values == [] then 0.0 else values[0].item * values[0].weight + Numerator(values[1..])
  }

  function Denominator(values: seq<Weighted<real>>): real
  {
    if values == [] then 0.0 else values[0].weight + Denominator(values[1..])
  }

  function AverageWeighted(values: seq<Weighted<real>>): real
  {
    if Denominator(values) == 0.0 then 0.0 else Numerator(values) / Denominator(values)
  }

  function Map<S, T>(f: S -> T, s: seq<S>): (r: seq<T>)
    ensures |r| == |s|
    ensures forall i | 0 <= i < |s| :: r[i] == f(s[i])
  {
    if s == [] then [] else [f(s[0])] + Map(f, s[1..])
  }

  // ---------------------------------------------------------------- order and windows

  function NewestFirst(collate: (Str, Str) -> int): (Evidence, Evidence) -> bool
  {
    (a: Evidence, b: Evidence) => a.at > b.at || (a.at == b.at && collate(a.id, b.id) < 0)
  }

  function Ordered(host: Host, evidences: seq<Evidence>): (r: seq<Evidence>)
    ensures multiset(r) == multiset(evidences) && |r| == |evidences|
  {
    Ordering.Sort(NewestFirst(host.collate), evidences)
  }

  function Window(ordered: seq<Evidence>, size: nat): (r: seq<Evidence>)
    ensures |r| <= size && r <= ordered
  {
    if |ordered| <= size then ordered else ordered[..size]
  }

  function AgeHours(at: int, now: int): (h: real)
    ensures h >= 0.0
  {
    Max(0.0, (now - at) as real / 3600000.0)
  }

  function Freshness(host: Host, hours: real, halfLife: real): real
  {
    Round4(host.halfPower(hours / Max(1.0, if halfLife == 0.0 then 72.0 else halfLife)))
  }

  // ---------------------------------------------------------------- task value

  function TaskValueWeight(host: Host, e: Evidence): (w: real)
    ensures 0.5 <= w <= 3.0
  {
    var baseRisk := match e.risk case High => 1.25 case Low => 0.85 case _ => 1.0;
    var difficulty := Clamp(0.7, R.Or(e.difficulty, 1.0), 2.0);
    var exposure := 1.0 + Clamp(0.0, host.log10(R.Or(e.capitalExposure, 0.0) + 1.0) / 5.0, 0.6);
    var uncertainty := 0.85 + Clamp(0.0, R.Or(e.uncertainty, 1.0 - R.Or(e.confidence, 0.5)), 1.0) * 0.35;
    var verifiability := if e.externalVerification then 1.15 else 1.0;
    var downstream := 1.0 + Clamp(0.0, R.Or(e.downstreamImpact, 0.0), 1.0) * 0.3;
    var distinct := |set v | v in e.validators :: v.validatorId|;
    var diversity := 1.0 + Clamp(0.0, distinct as real / 3.0, 1.0) * 0.15;
    var bootstrap := if e.bootstrap then 0.8 else 1.0;
    WorthOf(baseRisk, difficulty, exposure, uncertainty, verifiability, downstream, diversity, bootstrap)
  }

  function WorthOf(baseRisk: real, difficulty: real, exposure: real, uncertainty: real, verifiability: real,
                   downstream: real, diversity: real, bootstrap: real): (w: real)
    ensures 0.5 <= w <= 3.0
  {
    var product := baseRisk * difficulty * exposure * uncertainty * verifiability * downstream * diversity * bootstrap;
    Round4Between(Clamp(0.5, product, 3.0))
  }

  function Round4Between(x: real): (r: real)
    requires 0.5 <= x <= 3.0
    ensures 0.5 <= r <= 3.0
  {
    Round4(x)
  }

  // ---------------------------------------------------------------- event predicates

  predicate IsTask(e: Evidence)
  {
    e.eventType in {TaskCompleted, TaskFailed, TaskTimeout, Other(TaskFamily)}
  }

  predicate IsValidation(e: Evidence)
  {
    e.eventType in {ValidationPassed, ValidationFailed, ValidationReversed, Other(ValidationFamily)}
  }

  predicate IsDispute(e: Evidence)
  {
    e.eventType in {DisputeOpened, DisputeResolved, Other(DisputeFamily)}
  }

  predicate IsReversal(e: Evidence) { e.eventType == ValidationReversed }
  predicate IsCompleted(e: Evidence) { e.eventType == TaskCompleted }

  predicate HasPass(e: Evidence)
  {
    exists i | 0 <= i < |e.validators| :: e.validators[i].passed
  }

  function Passes(e: Evidence): (r: nat)
    ensures r <= |e.validators|
  {
    |Filter((v: Verdict) => v.passed, e.validators)|
  }

  lemma ShareInUnit(n: nat, total: nat)
    requires 0 < total && n <= total
    ensures 0.0 <= n as real / total as real <= 1.0
  {
    var t := total as real;
    assert n as real / t == (n as real) * (1.0 / t) && t * (1.0 / t) == 1.0;
    assert (t - n as real) * (1.0 / t) >= 0.0;
  }

  function Agreement(e: Evidence): (r: real)
    ensures 0.0 <= r <= 1.0
  {
    if e.validators == [] then 0.5
    else
      ShareInUnit(Passes(e), |e.validators|);
      Passes(e) as real / |e.validators| as real
  }

  // ---------------------------------------------------------------- graph signals

  function IdsOf(validators: seq<Verdict>): (r: seq<Str>)
    ensures |r| == |validators|
  {
    if validators == [] then [] else [validators[0].validatorId] + IdsOf(validators[1..])
  }

  /** Every validation of every evidence, in order. */
  function ValidatorIds(evidences: seq<Evidence>): seq<Str>
  {
    if evidences == [] then []
    else ValidatorIds(evidences[..|evidences| - 1]) + IdsOf(evidences[|evidences| - 1].validators)
  }

  function Reversals(evidences: seq<Evidence>): (n: nat)
    ensures n <= |evidences|
  {
    if evidences == [] then 0
    else Reversals(evidences[..|evidences| - 1]) + if IsReversal(evidences[|evidences| - 1]) then 1 else 0
  }

  predicate EqualPresent(a: Option<Str>, b: Option<Str>)
  {
    a.Some? && b.Some? && a.value != [] && a.value == b.value
  }

  predicate SharesIssuer(passport: Passport, others: map<Str, Passport>, id: Str)
  {
    id in others && others[id].issuer == passport.issuer && passport.issuer != NoIssuer &&
    (passport.issuer != RootIssuer || EqualPresent(passport.ownerOrg, others[id].ownerOrg))
  }

  predicate SharesInfrastructure(passport: Passport, others: map<Str, Passport>, id: Str)
  {
    id in others &&
    (EqualPresent(passport.ownerOrg, others[id].ownerOrg) || EqualPresent(passport.framework, others[id].framework))
  }

  function SharedIssuers(passport: Passport, others: map<Str, Passport>, ids: seq<Str>): (n: nat)
    ensures n <= |ids|
  {
    if ids == [] then 0
    else
      SharedIssuers(passport, others, ids[..|ids| - 1])
      + if SharesIssuer(passport, others, ids[|ids| - 1]) then 1 else 0
  }

  function SharedInfrastructure(passport: Passport, others: map<Str, Passport>, ids: seq<Str>): (n: nat)
    ensures n <= |ids|
  {
    if ids == [] then 0
    else SharedInfrastructure(passport, others, ids[..|ids| - 1])
         + if SharesInfrastructure(passport, others, ids[|ids| - 1]) then 1 else 0
  }

  datatype GraphCounts = GraphCounts(ids: seq<Str>, reversals: nat, sharedIssuer: nat, sharedInfra: nat)

  function GraphCountsOf(evidences: seq<Evidence>, passport: Passport, others: map<Str, Passport>): (c: GraphCounts)
    ensures c.sharedIssuer <= |c.ids| && c.sharedInfra <= |c.ids| && c.reversals <= |evidences|
  {
    var ids := ValidatorIds(evidences);
    GraphCounts(ids, Reversals(evidences),
                SharedIssuers(passport, others, ids), SharedInfrastructure(passport, others, ids))
  }

  /** What the loop over the validators of one evidence counts for some of them. */
  datatype Tally = Tally(pairs: map<Str, nat>, sharedIssuer: nat, sharedInfra: nat)

  function TallyOf(subject: Str, passport: Passport, others: map<Str, Passport>, pairs: map<Str, nat>, ids: seq<Str>)
    : Tally
  {
    Tally(G.BumpedAll(subject, pairs, ids), SharedIssuers(passport, others, ids),
          SharedInfrastructure(passport, others, ids))
  }

  lemma TallyStep(subject: Str, passport: Passport, others: map<Str, Passport>, pairs: map<Str, nat>, ids: seq<Str>,
                  id: Str)
    ensures var t := TallyOf(subject, passport, others, pairs, ids);
            TallyOf(subject, passport, others, pairs, ids + [id]) ==
            Tally(G.Bumped(t.pairs, G.PairKey(subject, id)),
                  t.sharedIssuer + (if SharesIssuer(passport, others, id) then 1 else 0),
                  t.sharedInfra + (if SharesInfrastructure(passport, others, id) then 1 else 0))
  {
    assert (ids + [id])[..|ids|] == ids;
  }

  /** The loop over the validators of one evidence. */
  method CountVerdicts(subject: Str, ids: seq<Str>, passport: Passport, others: map<Str, Passport>,
                       pairs: map<Str, nat>)
    returns (tally: Tally)
    ensures tally == TallyOf(subject, passport, others, pairs, ids)
  {
    tally := Tally(pairs, 0, 0);
    for j := 0 to |ids|
      invariant tally == TallyOf(subject, passport, others, pairs, ids[..j])
    {
      var id := ids[j];
      TallyStep(subject, passport, others, pairs, ids[..j], id);
      assert ids[..j + 1] == ids[..j] + [id];
      tally := tally.(pairs := G.Bumped(tally.pairs, G.PairKey(subject, id)));
      if SharesIssuer(passport, others, id) {
        tally := tally.(sharedIssuer := tally.sharedIssuer + 1);
      }
      if SharesInfrastructure(passport, others, id) {
        tally := tally.(sharedInfra := tally.sharedInfra + 1);
      }
    }
    assert ids[..|ids|] == ids;
  }

  lemma {:induction false} SharedConcat(passport: Passport, others: map<Str, Passport>, a: seq<Str>, b: seq<Str>)
    ensures SharedIssuers(passport, others, a + b)
            == SharedIssuers(passport, others, a) + SharedIssuers(passport, others, b)
    ensures SharedInfrastructure(passport, others, a + b)
         == SharedInfrastructure(passport, others, a) + SharedInfrastructure(passport, others, b)
  {
    if b == [] {
      assert a + b == a;
    } else {
      var front := b[..|b| - 1];
      SharedConcat(passport, others, a, front);
      assert (a + b)[..|a + b| - 1] == a + front;
    }
  }

  lemma PrefixStep(evidences: seq<Evidence>, i: nat)
    requires i < |evidences|
    ensures ValidatorIds(evidences[..i + 1]) == ValidatorIds(evidences[..i]) + IdsOf(evidences[i].validators)
    ensures Reversals(evidences[..i + 1]) == Reversals(evidences[..i]) + if IsReversal(evidences[i]) then 1 else 0
  {
    assert evidences[..i + 1][..i] == evidences[..i];
  }

  lemma GraphCountsStep(evidences: seq<Evidence>, i: nat, passport: Passport, others: map<Str, Passport>,
                        c: GraphCounts,
                        ids: seq<Str>, issuer: nat, infra: nat)
    requires i < |evidences| && c == GraphCountsOf(evidences[..i], passport, others)
    requires ids == c.ids + IdsOf(evidences[i].validators)
    requires SharedIssuers(passport, others, ids) == SharedIssuers(passport, others, c.ids) + issuer
    requires SharedInfrastructure(passport, others, ids)
          == SharedInfrastructure(passport, others, c.ids) + infra
    ensures GraphCountsOf(evidences[..i + 1], passport, others)
         == GraphCounts(ids, c.reversals + (if IsReversal(evidences[i]) then 1 else 0), c.sharedIssuer + issuer,
                        c.sharedInfra + infra)
  {
    PrefixStep(evidences, i);
    var front, next := evidences[..i], evidences[..i + 1];
    assert c == GraphCounts(ValidatorIds(front), Reversals(front), SharedIssuers(passport, others, c.ids),
                            SharedInfrastructure(passport, others, c.ids));
    assert GraphCountsOf(next, passport, others)
        == GraphCounts(ids, Reversals(next), SharedIssuers(passport, others, ids),
                       SharedInfrastructure(passport, others, ids));
  }

  lemma CountsNext(evidences: seq<Evidence>, i: nat, passport: Passport, others: map<Str, Passport>,
                   counts: GraphCounts, more: seq<Str>)
    requires i < |evidences| && counts == GraphCountsOf(evidences[..i], passport, others)
             && more == IdsOf(evidences[i].validators)
    ensures GraphCountsOf(evidences[..i + 1], passport, others)
         == GraphCounts(counts.ids + more, counts.reversals + (if IsReversal(evidences[i]) then 1 else 0),
                        counts.sharedIssuer + SharedIssuers(passport, others, more),
                        counts.sharedInfra + SharedInfrastructure(passport, others, more))
  {
    SharedConcat(passport, others, counts.ids, more);
    GraphCountsStep(evidences, i, passport, others, counts, counts.ids + more, SharedIssuers(passport, others, more),
                    SharedInfrastructure(passport, others, more));
  }

  /** The counts with one more evidence. */
  function NextCounts(counts: GraphCounts, e: Evidence, tally: Tally): GraphCounts
  {
    GraphCounts(counts.ids + IdsOf(e.validators), counts.reversals + (if IsReversal(e) then 1 else 0),
                counts.sharedIssuer + tally.sharedIssuer, counts.sharedInfra + tally.sharedInfra)
  }

  lemma CountedNext(subject: Str, evidences: seq<Evidence>, i: nat, passport: Passport, others: map<Str, Passport>,
                    counts: GraphCounts, pairs: map<Str, nat>, tally: Tally)
    requires i < |evidences| && counts == GraphCountsOf(evidences[..i], passport, others)
             && pairs == G.BumpedAll(subject, map[], counts.ids)
    requires tally == TallyOf(subject, passport, others, pairs, IdsOf(evidences[i].validators))
    ensures NextCounts(counts, evidences[i], tally) == GraphCountsOf(evidences[..i + 1], passport, others)
    ensures tally.pairs == G.BumpedAll(subject, map[], NextCounts(counts, evidences[i], tally).ids)
  {
    CountsNext(evidences, i, passport, others, counts, IdsOf(evidences[i].validators));
    G.BumpedAllConcat(subject, map[], counts.ids, IdsOf(evidences[i].validators));
  }

  /** The loops over evidences and their validators. */
  method CountEvidences(subject: Str, evidences: seq<Evidence>, passport: Passport, others: map<Str, Passport>)
    returns (counts: GraphCounts, pairs: map<Str, nat>)
    ensures counts == GraphCountsOf(evidences, passport, others) && pairs == G.BumpedAll(subject, map[], counts.ids)
  {
    counts, pairs := GraphCounts([], 0, 0, 0), map[];
    for i := 0 to |evidences|
      invariant counts == GraphCountsOf(evidences[..i], passport, others)
      invariant pairs == G.BumpedAll(subject, map[], counts.ids)
    {
      var tally := CountVerdicts(subject, IdsOf(evidences[i].validators), passport, others, pairs);
      CountedNext(subject, evidences, i, passport, others, counts, pairs, tally);
      counts, pairs := NextCounts(counts, evidences[i], tally), tally.pairs;
    }
    assert evidences[..|evidences|] == evidences;
  }

  /** The counting loops of computeGraphSignals. */
  method CountGraph(subject: Str, evidences: seq<Evidence>, passport: Passport, others: map<Str, Passport>)
    returns (counts: GraphCounts, repeated: nat)
    ensures counts == GraphCountsOf(evidences, passport, others)
    ensures repeated == G.Repeated(counts.ids)
  {
    var pairs: map<Str, nat>;
    counts, pairs := CountEvidences(subject, evidences, passport, others);
    G.BumpedAllCounts(subject, [], map[], counts.ids);
    assert [] + counts.ids == counts.ids;
    repeated := G.RepeatedInteractions(subject, counts.ids, pairs);
  }

  datatype GraphSignals = GraphSignals(
    mutualValidation: real, diversity: real, clusterDensity: real, reversalRate: real,
    sharedIssuer: real, sharedInfra: real, collusionRisk: real)

  function Ratio(n: nat, total: nat): (r: real)
    ensures r >= 0.0
    ensures n <= total ==> r <= 1.0
  {
    if total == 0 then 0.0 else n as real / total as real
  }

  function CollusionMix(mutual: real, density: real, diversity: real, issuer: real, infra: real): real
  {
    0.4 * mutual + 0.2 * density + 0.15 * (1.0 - diversity) + 0.15 * issuer + 0.1 * infra
  }

  function ComputeGraphSignals(host: Host, counts: GraphCounts, minimumDiversity: int): GraphSignals
  {
    var total := |counts.ids|;
    var distinct := |G.Members(counts.ids)|;
    var diversity := Clamp(0.0, distinct as real / Max(1.0, minimumDiversity as real), 1.0);
    var mutual := Ratio(G.Repeated(counts.ids), total);
    var density := Ratio(G.DominantCount(host.collate, counts.ids), total);
    GraphFrom(mutual, diversity, density, Ratio(counts.reversals, total), Ratio(counts.sharedIssuer, total),
              Ratio(counts.sharedInfra, total))
  }

  function GraphFrom(mutual: real, diversity: real, density: real, reversals: real, issuer: real, infra: real)
    : GraphSignals
  {
    GraphSignals(
      Round4(mutual), Round4(diversity), Round4(density), Round4(reversals), Round4(issuer), Round4(infra),
      Round4(Clamp(0.0, CollusionMix(mutual, density, diversity, issuer, infra), 1.0)))
  }

  // ---------------------------------------------------------------- dependencies and adversarial events

  function Health(d: DependencyReading): real
  {
    match d
    case Plain(value) => value
    case Detailed(_, health) => R.Or(health, 60.0)
    case Opaque => 60.0
  }

  predicate Risky(d: DependencyReading)
  {
    match d
    case Plain(value) => value < 40.0
    case Detailed(risky, _) => risky
    case Opaque => false
  }

  function DependenciesOf(window: seq<Evidence>): seq<DependencyReading>
  {
    if window == [] then [] else window[0].dependencies + DependenciesOf(window[1..])
  }

  function DependencyMix(averageHealth: real, riskyShare: real): real
  {
    0.55 * (1.0 - averageHealth / 100.0) + 0.45 * riskyShare
  }

  function DependencyRisk(passport: Passport, window: seq<Evidence>): (r: real)
    ensures 0.0 <= r <= 1.0
  {
    var all := passport.dependencies + DependenciesOf(window);
    if all == [] then 0.2
    else
      var averageHealth := Sum((d: DependencyReading) => Clamp(0.0, Health(d), 100.0), all) / |all| as real;
      var riskyShare := |Filter((d: DependencyReading) => Risky(d), all)| as real / |all| as real;
      Round4(Clamp(0.0, DependencyMix(averageHealth, riskyShare), 1.0))
  }

  /** The penalty of an event; events without a rule cost nothing. */
  function Penalty(p: Penalties, eventType: EventType): (r: real)
    ensures r >= 0.0
  {
    match eventType
    case Adverse(rule) =>
      (match rule
       case PaymentFailed => 18.0
       case ReplayAttempt => Max(0.0, p.replay)
       case DuplicatePaymentSignature => Max(0.0, p.duplicatePayment)
       case MalformedPayload => Max(0.0, p.malformed)
       case PayloadMismatch => 22.0
       case VerifierDelay => Max(0.0, p.verifierDelay)
       case RateSpike => 14.0
       case OutputInconsistency => 16.0
       case DependencyFailure => 18.0
       case QuarantineEvent => 50.0)
    case _ => 0.0
  }

  function AdversarialRiskSignal(p: Penalties, window: seq<Evidence>): (r: real)
    ensures 0.0 <= r <= 1.0
  {
    Round4(Clamp(0.0, Sum((e: Evidence) => Penalty(p, e.eventType), window) / 120.0, 1.0))
  }

  function QuarantineSignals(window: seq<Evidence>): nat
  {
    |Filter((e: Evidence) => e.eventType == Adverse(QuarantineEvent), window)|
  }

  // ---------------------------------------------------------------- domains

  predicate InDomain(e: Evidence, domain: Str)
  {
    domain != [] && e.domain == Some(domain)
  }

  function Domains(window: seq<Evidence>): set<Str>
  {
    set e | e in window && e.domain.Some? && e.domain.value != [] :: e.domain.value
  }

  function FreshestHours(window: seq<Evidence>, now: int): (h: real)
    ensures h >= 0.0
  {
    if window == [] then 9999.0 else Min(AgeHours(window[0].at, now), FreshestHours(window[1..], now))
  }

  function ValidatedQuality(e: Evidence): real
  {
    (R.Or(e.quality, 0.0) + R.Or(e.confidence, 0.0)) / 2.0
  }

  function CompetenceMix(success: real, quality: real, freshness: real): real
  {
    0.5 * success + 0.3 * quality + 0.2 * freshness
  }

  function DomainCompetence(host: Host, window: seq<Evidence>, domain: Str, now: int, halfLife: real): (r: real)
    ensures 0.0 <= r <= 1.0
  {
    var events := Filter((e: Evidence) => InDomain(e, domain), window);
    if events == [] then 0.0
    else
      var success := |Filter((e: Evidence) => IsCompleted(e), events)| as real / |events| as real;
      var quality := Sum((e: Evidence) => ValidatedQuality(e), events) / |events| as real;
      var freshness := Freshness(host, FreshestHours(events, now), halfLife);
      Round4(Clamp(0.0, CompetenceMix(success, quality, freshness), 1.0))
  }

  // ---------------------------------------------------------------- the snapshot

  datatype Snapshot = Snapshot(version: int, vector: R.Vector, graph: GraphSignals, taskValue: real, counts: R.Counts,
                               lastEventAt: int)

  predicate WeightedTask(w: Weighted<Evidence>)
  {
    IsTask(w.item)
  }

  function TaskWeights(host: Host, recent: seq<Evidence>): (r: seq<Weighted<Evidence>>)
    ensures forall i | 0 <= i < |r| :: r[i].weight > 0.0
  {
    var tasks := Filter(WeightedTask, RollingWeights(recent));
    assert forall i | 0 <= i < |tasks| :: tasks[i] in RollingWeights(recent);
    Map(Scaled(host), tasks)
  }

  /** A task's weight, times what it is worth. */
  function Scaled(host: Host): Weighted<Evidence> -> Weighted<Evidence>
  {
    (w: Weighted<Evidence>) => ScaledTask(host, w)
  }

  /** computeTaskValueWeight on one host. */
  function ValueOf(host: Host): Evidence -> real
  {
    (e: Evidence) => TaskValueWeight(host, e)
  }

  function ScaledTask(host: Host, w: Weighted<Evidence>): (r: Weighted<Evidence>)
    ensures r.item == w.item
    ensures w.weight > 0.0 ==> r.weight > 0.0
  {
    Weighted(w.item, w.weight * TaskValueWeight(host, w.item))
  }

  function SuccessWeight(w: Weighted<Evidence>): real
  {
    if IsCompleted(w.item) then w.weight else 0.0
  }

  function SuccessRate(tasks: seq<Weighted<Evidence>>): real
  {
    if tasks == [] then 0.5
    else Sum((w: Weighted<Evidence>) => SuccessWeight(w), tasks)
         / Max(1.0, Sum((w: Weighted<Evidence>) => w.weight, tasks))
  }

  function Averaged(value: Evidence -> real, tasks: seq<Weighted<Evidence>>): real
  {
    AverageWeighted(Map((w: Weighted<Evidence>) => Weighted(value(w.item), w.weight), tasks))
  }

  function LatencyValue(e: Evidence): (r: real)
    ensures 0.0 <= r <= 1.0
  {
    if R.Or(e.latencyMs, 10000.0) <= 2500.0 then 1.0 else 0.4
  }

  function QualityValue(e: Evidence): (r: real)
    ensures 0.0 <= r <= 1.0
  {
    Clamp(0.0, R.Or(e.quality, 0.5), 1.0)
  }

  function ConfidenceValue(e: Evidence): (r: real)
    ensures 0.0 <= r <= 1.0
  {
    Clamp(0.0, R.Or(e.confidence, 0.5), 1.0)
  }


  function ExecutionMix(success: real, quality: real, confidence: real, latency: real): real
  {
    0.35 * success + 0.3 * quality + 0.2 * confidence + 0.15 * latency
  }

  function ExecutionReliability(tasks: seq<Weighted<Evidence>>): (r: real)
    ensures 0.0 <= r <= 1.0
  {
    Clamp(0.0, ExecutionMix(SuccessRate(tasks), Averaged(QualityValue, tasks), Averaged(ConfidenceValue, tasks),
                            Averaged(LatencyValue, tasks)), 1.0)
  }

  function ValidationAccuracy(recent: seq<Evidence>, medium: seq<Evidence>): (r: real)
    ensures 0.0 <= r <= 1.0
  {
    var validations := |Filter((e: Evidence) => IsValidation(e), medium)|;
    if validations == 0 then 0.5
    else
      var passed := |Filter((e: Evidence) => e.eventType == ValidationPassed, medium)|
        + |Filter((e: Evidence) => HasPass(e), recent)|;
      Clamp(0.0, passed as real / (validations as real + Max(1.0, |recent| as real)), 1.0)
  }

  function ConsensusAgreement(recent: seq<Evidence>): real
  {
    if recent == [] then 0.5
    else Averaged(Agreement, RollingWeights(recent))
  }

  function ValidationMix(accuracy: real, consensus: real, diversity: real, resilience: real): real
  {
    0.45 * accuracy + 0.25 * consensus + 0.2 * diversity + 0.1 * resilience
  }

  function LowDiversityCap(diversity: real): (r: real)
    ensures 0.0 <= r <= 1.0
  {
    if diversity < 1.0 then Clamp(0.35, 0.55 + diversity * 0.45, 1.0) else 1.0
  }

  function TaskValue(value: Evidence -> real, tasks: seq<Weighted<Evidence>>): real
  {
    if tasks == [] then 1.0
    else Sum((w: Weighted<Evidence>) => value(w.item), tasks) / |tasks| as real
  }

  function SockpuppetMix(issuer: real, infra: real, diversity: real): real
  {
    0.45 * issuer + 0.35 * infra + 0.2 * (1.0 - diversity)
  }

  function BriberyMix(highValue: real, mutual: real, reversalRate: real): real
  {
    0.45 * highValue + 0.3 * mutual + 0.25 * reversalRate
  }

  function AnomalyMix(volatility: real, highValue: real, density: real): real
  {
    0.4 * volatility + 0.3 * highValue + 0.2 * density + 0.1 * density
  }

  function StabilityMix(coordination: real, anomaly: real, asymmetry: real, adversarial: real): real
  {
    0.45 * coordination + 0.25 * (1.0 - anomaly) + 0.2 * (1.0 - asymmetry) + 0.1 * (1.0 - adversarial)
  }

  function IdentityMix(identity: real, sockpuppet: real, issuer: real): real
  {
    0.65 * identity + 0.2 * (1.0 - sockpuppet) + 0.15 * (1.0 - issuer)
  }

  function EconomicMix(execution: real, validation: real, disputes: real, adversarial: real): real
  {
    0.4 * execution + 0.25 * validation + 0.2 * (1.0 - disputes) + 0.15 * (1.0 - adversarial)
  }

  function AdversarialMix(collusion: real, sockpuppet: real, bribery: real, anomaly: real): real
  {
    0.4 * collusion + 0.25 * sockpuppet + 0.2 * bribery + 0.15 * anomaly
  }

  function IdentityIntegrity(status: Status): (r: real)
    ensures 0.0 <= r <= 1.0
  {
    match status case Active => 0.96 case Suspended => 0.35 case Revoked => 0.0
  }

  /** The unrounded intermediate values of computeSnapshot. */
  datatype Signals = Signals(
    execution: real, accuracy: real, consensus: real, graph: GraphSignals, resilience: real, asymmetry: real,
    taskValue: real, highValue: real, validation: real, freshness: real, volatility: real, coordination: real,
    disputeRate: real, identity: real, sockpuppet: real, bribery: real, anomaly: real,
    dependency: real, adversarial: real)

  /** The signals, from what is read off the log directly. */
  function SignalsFrom(execution: real, accuracy: real, consensus: real, graph: GraphSignals, disputeShare: real,
                       taskValue: real, freshness: real, before: real, status: Status, dependency: real,
                       adversarial: real): Signals
  {
    var resilience := Clamp(0.0, 1.0 - graph.reversalRate, 1.0);
    var asymmetry := Clamp(0.0, graph.reversalRate * 1.4 + disputeShare, 1.0);
    var highValue := Clamp(0.0, Max(0.0, taskValue - 1.0) * (1.0 - graph.diversity), 1.0);
    var validation :=
      Clamp(0.0, ValidationMix(accuracy, consensus, graph.diversity, resilience) * LowDiversityCap(graph.diversity),
            1.0);
    var volatility := Abs(before - execution);
    var coordination := Clamp(0.0, 1.0 - volatility, 1.0);
    var sockpuppet := Clamp(0.0, SockpuppetMix(graph.sharedIssuer, graph.sharedInfra, graph.diversity), 1.0);
    var bribery := Clamp(0.0, BriberyMix(highValue, graph.mutualValidation, graph.reversalRate), 1.0);
    var anomaly := Clamp(0.0, AnomalyMix(volatility, highValue, graph.clusterDensity), 1.0);
    Signals(execution, accuracy, consensus, graph, resilience, asymmetry, taskValue, highValue, validation, freshness,
            volatility, coordination, Clamp(0.0, disputeShare, 1.0), IdentityIntegrity(status), sockpuppet, bribery,
            anomaly, dependency, adversarial)
  }

  function ComputeSignals(host: Host, ordered: seq<Evidence>, passport: Passport, others: map<Str, Passport>,
                          previous: Option<Previous>, minimumDiversity: int, penalties: Penalties, now: int): Signals
  {
    var recent, medium := Window(ordered, 20), Window(ordered, 100);
    var tasks := TaskWeights(host, recent);
    var execution := ExecutionReliability(tasks);
    SignalsFrom(
      execution, ValidationAccuracy(recent, medium), ConsensusAgreement(recent),
      ComputeGraphSignals(host, GraphCountsOf(medium, passport, others), minimumDiversity),
      |Filter(IsDispute, medium)| as real / Max(1.0, |medium| as real), TaskValue(ValueOf(host), tasks),
      if ordered == [] then 0.2 else Freshness(host, AgeHours(ordered[0].at, now), penalties.halfLifeHours),
      if previous.Some? then R.Or(previous.value.executionReliability, execution) else execution,
      passport.status, DependencyRisk(passport, recent), AdversarialRiskSignal(penalties, medium))
  }

  function Percent(x: real): R.Reading
  {
    Some(Round(x * 100.0) as real)
  }

  function TrustVectorV1Of(s: Signals): R.TrustVectorV1
  {
    R.TrustVectorV1(
      Percent(s.execution),
      Percent(Clamp(0.0, EconomicMix(s.execution, s.validation, s.disputeRate, s.adversarial), 1.0)),
      Percent(Clamp(0.0, IdentityMix(s.identity, s.sockpuppet, s.graph.sharedIssuer), 1.0)),
      Percent(Clamp(0.0, StabilityMix(s.coordination, s.anomaly, s.asymmetry, s.adversarial), 1.0)),
      Percent(s.dependency),
      Percent(Clamp(0.0, AdversarialMix(s.graph.collusionRisk, s.sockpuppet, s.bribery,
                                        Clamp(0.0, s.anomaly + s.adversarial * 0.7, 1.0)), 1.0)),
      Percent(s.freshness))
  }

  function ValidationsTotal(medium: seq<Evidence>): nat
  {
    |Filter((e: Evidence) => IsValidation(e), medium)| + |ValidatorIds(medium)|
  }

  /** The stored vector. */
  function VectorOf(s: Signals, domains: map<Str, real>, quarantines: nat): R.Vector
  {
    R.Vector(
      Some(Round4(s.identity)), Some(Round4(s.execution)), Some(Round4(s.validation)), Some(Round4(s.coordination)),
      Some(Round4(s.freshness)), Some(s.graph.diversity), Some(Round4(s.disputeRate)), Some(s.graph.reversalRate),
      Some(Round4(s.asymmetry)), Some(s.graph.collusionRisk), Some(Round4(s.sockpuppet)), Some(Round4(s.bribery)),
      Some(Round4(s.anomaly)), domains, TrustVectorV1Of(s), quarantines)
  }

  function DomainMap(host: Host, medium: seq<Evidence>, now: int, halfLife: real): (r: map<Str, real>)
    ensures forall d | d in r :: 0.0 <= r[d] <= 1.0
  {
    map d | d in Domains(medium) :: DomainCompetence(host, medium, d, now, halfLife)
  }

  /** The stored snapshot, from the signals and the window behind them. */
  function SnapshotOf(s: Signals, medium: seq<Evidence>, domains: map<Str, real>, version: int, lastEventAt: int)
    : Snapshot
  {
    Snapshot(version, VectorOf(s, domains, QuarantineSignals(medium)), s.graph, Round4(s.taskValue),
             R.Counts(|Filter(IsTask, medium)|, ValidationsTotal(medium)), lastEventAt)
  }

  /** computeSnapshot */
  function ComputeSnapshot(host: Host, evidences: seq<Evidence>, passport: Passport, others: map<Str, Passport>,
                           previous: Option<Previous>, minimumDiversity: int, penalties: Penalties, now: int): Snapshot
  {
    var ordered := Ordered(host, evidences);
    var medium := Window(ordered, 100);
    var s := ComputeSignals(host, ordered, passport, others, previous, minimumDiversity, penalties, now);
    SnapshotOf(s, medium, DomainMap(host, medium, now, penalties.halfLifeHours),
               (if previous.Some? then previous.value.version else 0) + 1,
               if ordered == [] then passport.createdAt else ordered[0].at)
  }
}
