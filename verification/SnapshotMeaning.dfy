/** What a snapshot says about the log: which evidence it is made from, and every stored reading as a formula
    over counts and weighted sums of the newest evidence. */
module SnapshotMeaning {
  import opened Utf16
  import opened JsonParser
  import opened Rounding
  import opened Snapshot
  import Ordering
  import P = SnapshotProperties
  import R = Resolution
  import G = ValidatorGraph

  // ---------------------------------------------------------------- which evidence

  /** The newest k of a log. */
  function Newest(log: seq<Evidence>, k: nat): (r: seq<Evidence>)
    ensures |r| == (if |log| < k then |log| else k) && r <= log
  {
    log[..if |log| < k then |log| else k]
  }

  /** The last event of a snapshot is the newest evidence's instant, and the passport's without evidence. */
  lemma LastEventIsNewest(host: Host, evidences: seq<Evidence>, passport: Passport, others: map<Str, Passport>,
                          previous: Option<Previous>, minimumDiversity: int, penalties: Penalties, now: int)
    requires G.Collation(host.collate)
    ensures var last := ComputeSnapshot(host, evidences, passport, others, previous, minimumDiversity, penalties,
                                        now).lastEventAt;
            if evidences == [] then last == passport.createdAt
            else (forall e | e in evidences :: e.at <= last) && exists e :: e in evidences && e.at == last
  {
    var log := Ordered(host, evidences);
    P.OrderedIsNewerFirst(host, evidences);
    if evidences != [] {
      forall e | e in evidences ensures e.at <= log[0].at {
        assert e in multiset(evidences) && e in multiset(log);
        var i :| 0 <= i < |log| && log[i] == e;
      }
      assert log[0] in multiset(log);
      assert log[0] in evidences;
    }
  }

  /** No evidence outside a window is newer than one inside. */
  lemma WindowIsNewest(host: Host, evidences: seq<Evidence>, k: nat)
    requires G.Collation(host.collate)
    ensures var log := Ordered(host, evidences);
            && multiset(Newest(log, k)) + multiset(log[|Newest(log, k)|..]) == multiset(evidences)
            && forall e, f | e in Newest(log, k) && f in log[|Newest(log, k)|..] :: f.at <= e.at
  {
    var log := Ordered(host, evidences);
    var inside := Newest(log, k);
    var outside := log[|inside|..];
    P.OrderedIsNewerFirst(host, evidences);
    assert log == inside + outside;
    FrontIsNewer(host.collate, log, |inside|);
  }

  lemma FrontIsNewer(collate: (Str, Str) -> int, log: seq<Evidence>, n: nat)
    requires P.NewerFirst(collate, log) && n <= |log|
    ensures forall e, f | e in log[..n] && f in log[n..] :: f.at <= e.at
  {
    forall e, f | e in log[..n] && f in log[n..] ensures f.at <= e.at {
      var i :| 0 <= i < n && log[..n][i] == e;
      var j :| 0 <= j < |log| - n && log[n..][j] == f;
      assert log[i] == e && log[n + j] == f;
    }
  }

  // ---------------------------------------------------------------- counting

  /** How many positions satisfy p. */
  ghost function Number<T>(p: T -> bool, s: seq<T>): nat
  {
    |set i | 0 <= i < |s| && p(s[i])|
  }

  lemma NumberFront<T>(p: T -> bool, s: seq<T>)
    requires s != []
    ensures Number(p, s) == Number(p, s[..|s| - 1]) + if p(s[|s| - 1]) then 1 else 0
  {
    var n := |s| - 1;
    var all, front := set i | 0 <= i < |s| && p(s[i]), set i | 0 <= i < n && p(s[..n][i]);
    assert all == front + if p(s[n]) then {n} else {};
  }

  lemma {:induction false} FilterBack<T>(p: T -> bool, s: seq<T>)
    requires s != []
    ensures Filter(p, s) == Filter(p, s[..|s| - 1]) + if p(s[|s| - 1]) then [s[|s| - 1]] else []
  {
    if |s| > 1 {
      FilterBack(p, s[1..]);
      assert s[1..][..|s[1..]| - 1] == s[..|s| - 1][1..];
    } else {
      assert s[1..] == [] && s[..0] == [];
    }
  }

  lemma {:induction false} FilterNumber<T>(p: T -> bool, s: seq<T>)
    ensures |Filter(p, s)| == Number(p, s)
  {
    if s != [] {
      FilterBack(p, s);
      NumberFront(p, s);
      FilterNumber(p, s[..|s| - 1]);
    }
  }

  // The events as the engine sorts them, kind by kind.

  predicate TaskEvent(e: Evidence)
  {
    match e.eventType
    case TaskCompleted | TaskFailed | TaskTimeout => true
    case Other(family) => family == TaskFamily
    case _ => false
  }

  predicate ValidationEvent(e: Evidence)
  {
    match e.eventType
    case ValidationPassed | ValidationFailed | ValidationReversed => true
    case Other(family) => family == ValidationFamily
    case _ => false
  }

  predicate DisputeEvent(e: Evidence)
  {
    match e.eventType
    case DisputeOpened | DisputeResolved => true
    case Other(family) => family == DisputeFamily
    case _ => false
  }

  /** n of a total, 0 of none. */
  function Share(n: int, total: int): real
  {
    if total == 0 then 0.0 else n as real / total as real
  }

  /** The verdicts on the evidence of a window. */
  function Verdicts(window: seq<Evidence>): nat
  {
    if window == [] then 0 else Verdicts(window[..|window| - 1]) + |window[|window| - 1].validators|
  }

  lemma {:induction false} VerdictsAreIds(window: seq<Evidence>)
    ensures |ValidatorIds(window)| == Verdicts(window)
  {
    if window != [] {
      VerdictsAreIds(window[..|window| - 1]);
    }
  }

  lemma {:induction false} ReversalsAreNumber(window: seq<Evidence>)
    ensures Reversals(window) == Number(Reversed, window)
  {
    if window != [] {
      ReversalsAreNumber(window[..|window| - 1]);
      NumberFront(Reversed, window);
    }
  }

  lemma SameNumber<T>(p: T -> bool, q: T -> bool, s: seq<T>)
    requires forall x | x in s :: p(x) == q(x)
    ensures |Filter(p, s)| == Number(q, s)
  {
    FilterNumber(p, s);
    assert (set i | 0 <= i < |s| && p(s[i])) == set i | 0 <= i < |s| && q(s[i]);
  }


  predicate QuarantineOrdered(e: Evidence)
  {
    e.eventType == Adverse(QuarantineEvent)
  }

  predicate Reversed(e: Evidence)
  {
    e.eventType.ValidationReversed?
  }

  /** The counts are those of the window. */
  ghost predicate CountsFrom(counts: R.Counts, quarantines: int, window: seq<Evidence>)
  {
    && counts.tasksTotal == Number(TaskEvent, window)
    && counts.validationsTotal == Number(ValidationEvent, window) + Verdicts(window)
    && quarantines == Number(QuarantineOrdered, window)
  }

  lemma WindowCounts(medium: seq<Evidence>)
    ensures CountsFrom(R.Counts(|Filter(IsTask, medium)|, ValidationsTotal(medium)),
                       QuarantineSignals(medium), medium)
  {
    SameNumber(IsTask, TaskEvent, medium);
    SameNumber((e: Evidence) => IsValidation(e), ValidationEvent, medium);
    VerdictsAreIds(medium);
    SameNumber((e: Evidence) => e.eventType == Adverse(QuarantineEvent), QuarantineOrdered, medium);
  }

  // ---------------------------------------------------------------- weighted sums

  /** The sum of f over the positions from i on. */
  function SumFrom(f: nat -> real, i: nat, n: nat): real
    requires i <= n
    decreases n - i
  {
    if i == n then 0.0 else f(i) + SumFrom(f, i + 1, n)
  }

  function One(e: Evidence): real
  {
    1.0
  }

  function Completion(e: Evidence): real
  {
    if e.eventType.TaskCompleted? then 1.0 else 0.0
  }

  function OutcomeQuality(e: Evidence): real
  {
    match e.quality case Some(q) => if q < 0.0 then 0.0 else if q > 1.0 then 1.0 else q case None => 0.5
  }

  function OutcomeConfidence(e: Evidence): real
  {
    match e.confidence case Some(c) => if c < 0.0 then 0.0 else if c > 1.0 then 1.0 else c case None => 0.5
  }

  function Latency(e: Evidence): real
  {
    if e.latencyMs.Some? && e.latencyMs.value <= 2500.0 then 1.0 else 0.4
  }

  /** What the i-th newest evidence adds to a sum over tasks: its f, its worth, and its place. */
  function TaskTerm(value: Evidence -> real, recent: seq<Evidence>, f: Evidence -> real): nat -> real
  {
    (i: nat) =>
      if i < |recent| && TaskEvent(recent[i])
      then f(recent[i]) * ((1.0 - i as real / (|recent| + 1) as real) * value(recent[i]))
      else 0.0
  }

  function TaskSum(value: Evidence -> real, recent: seq<Evidence>, f: Evidence -> real): real
  {
    SumFrom(TaskTerm(value, recent, f), 0, |recent|)
  }

  function Quotient(sum: real, weight: real): real
  {
    if weight == 0.0 then 0.0 else sum / weight
  }

  /** The mean of f over the tasks, newer and more valuable ones counting more; 0 without tasks. */
  function TaskMean(value: Evidence -> real, recent: seq<Evidence>, f: Evidence -> real): real
  {
    Quotient(TaskSum(value, recent, f), TaskSum(value, recent, One))
  }

  /** The share of the weight of tasks that completed ones have; 0.5 without tasks. */
  ghost function SuccessShare(value: Evidence -> real, recent: seq<Evidence>): real
  {
    if Number(TaskEvent, recent) == 0 then 0.5
    else
      var weight := TaskSum(value, recent, One);
      TaskSum(value, recent, Completion) / if weight < 1.0 then 1.0 else weight
  }

  /** Summing over the kept and mapped entries is summing over the positions kept. */
  lemma {:induction false} SumOverKept<T>(all: seq<T>, keep: T -> bool, g: T -> T, h: T -> real, term: nat -> real,
                                          i: nat)
    requires i <= |all|
    requires forall j: nat | j < |all| :: term(j) == if keep(all[j]) then h(g(all[j])) else 0.0
    ensures Sum(h, Map(g, Filter(keep, all[i..]))) == SumFrom(term, i, |all|)
    decreases |all| - i
  {
    if i < |all| {
      SumOverKept(all, keep, g, h, term, i + 1);
      assert all[i..][1..] == all[i + 1..];
      var rest := Filter(keep, all[i + 1..]);
      if keep(all[i]) {
        assert Filter(keep, all[i..]) == [all[i]] + rest && ([all[i]] + rest)[1..] == rest;
        assert Map(g, [all[i]] + rest) == [g(all[i])] + Map(g, rest);
        assert ([g(all[i])] + Map(g, rest))[1..] == Map(g, rest);
      } else {
        assert Filter(keep, all[i..]) == rest;
      }
    }
  }

  lemma {:induction false} NumeratorIs(read: Evidence -> real, f: Evidence -> real, tasks: seq<Weighted<Evidence>>)
    requires forall e :: read(e) == f(e)
    ensures var values := Map((w: Weighted<Evidence>) => Weighted(read(w.item), w.weight), tasks);
            Numerator(values) == Sum(Product(f), tasks) && Denominator(values) == Sum(Product(One), tasks)
  {
    var g := (w: Weighted<Evidence>) => Weighted(read(w.item), w.weight);
    if tasks != [] {
      NumeratorIs(read, f, tasks[1..]);
      assert Map(g, tasks)[1..] == Map(g, tasks[1..]);
      assert Product(f)(tasks[0]) == f(tasks[0].item) * tasks[0].weight;
      assert Product(One)(tasks[0]) == tasks[0].weight;
      assert read(tasks[0].item) == f(tasks[0].item);
    }
  }

  function Product(f: Evidence -> real): Weighted<Evidence> -> real
  {
    (w: Weighted<Evidence>) => f(w.item) * w.weight
  }

  function Tasks(g: Weighted<Evidence> -> Weighted<Evidence>, recent: seq<Evidence>): seq<Weighted<Evidence>>
  {
    Map(g, Filter(WeightedTask, RollingWeights(recent)))
  }

  /** One entry is its evidence's worth times its weight. */
  predicate ScalesOne(g: Weighted<Evidence> -> Weighted<Evidence>, value: Evidence -> real, w: Weighted<Evidence>)
  {
    g(w) == Weighted(w.item, w.weight * value(w.item))
  }

  ghost predicate Scales(g: Weighted<Evidence> -> Weighted<Evidence>, value: Evidence -> real)
  {
    forall w :: ScalesOne(g, value, w)
  }

  lemma TermAt(value: Evidence -> real, g: Weighted<Evidence> -> Weighted<Evidence>, recent: seq<Evidence>,
               f: Evidence -> real, j: nat, w: Weighted<Evidence>)
    requires j < |recent| && w.item == recent[j] && w.weight == 1.0 - j as real / (|recent| + 1) as real
    requires ScalesOne(g, value, w)
    ensures TaskTerm(value, recent, f)(j) == if WeightedTask(w) then Product(f)(g(w)) else 0.0
  {
  }

  lemma SumIs(value: Evidence -> real, g: Weighted<Evidence> -> Weighted<Evidence>, recent: seq<Evidence>,
              f: Evidence -> real)
    requires Scales(g, value)
    ensures Sum(Product(f), Tasks(g, recent)) == TaskSum(value, recent, f)
  {
    var all := RollingWeights(recent);
    forall j: nat | j < |recent|
      ensures TaskTerm(value, recent, f)(j) == if WeightedTask(all[j]) then Product(f)(g(all[j])) else 0.0
    {
      assert ScalesOne(g, value, all[j]);
      TermAt(value, g, recent, f, j, all[j]);
    }
    SumOverKept(all, WeightedTask, g, Product(f), TaskTerm(value, recent, f), 0);
    assert all[0..] == all;
  }

  lemma MeanIs(value: Evidence -> real, g: Weighted<Evidence> -> Weighted<Evidence>, recent: seq<Evidence>,
               read: Evidence -> real, f: Evidence -> real)
    requires Scales(g, value) && forall e :: read(e) == f(e)
    ensures Averaged(read, Tasks(g, recent)) == TaskMean(value, recent, f)
  {
    NumeratorIs(read, f, Tasks(g, recent));
    SumIs(value, g, recent, f);
    SumIs(value, g, recent, One);
    AveragedQuotient(read, Tasks(g, recent), TaskSum(value, recent, f), TaskSum(value, recent, One));
  }

  lemma AveragedQuotient(read: Evidence -> real, tasks: seq<Weighted<Evidence>>, sum: real, weight: real)
    requires var values := Map((w: Weighted<Evidence>) => Weighted(read(w.item), w.weight), tasks);
             Numerator(values) == sum && Denominator(values) == weight
    ensures Averaged(read, tasks) == Quotient(sum, weight)
  {
  }

  // ---------------------------------------------------------------- readings of the log

  /** Execution reliability, over the newest twenty. */
  ghost function Execution(value: Evidence -> real, recent: seq<Evidence>): real
  {
    Clamp(0.0, 0.35 * SuccessShare(value, recent) + 0.3 * TaskMean(value, recent, OutcomeQuality)
               + 0.2 * TaskMean(value, recent, OutcomeConfidence) + 0.15 * TaskMean(value, recent, Latency), 1.0)
  }

  lemma {:induction false} SuccessSum(tasks: seq<Weighted<Evidence>>)
    ensures Sum((w: Weighted<Evidence>) => SuccessWeight(w), tasks) == Sum(Product(Completion), tasks)
    ensures Sum((w: Weighted<Evidence>) => w.weight, tasks) == Sum(Product(One), tasks)
  {
    if tasks != [] {
      SuccessSum(tasks[1..]);
      assert Product(One)(tasks[0]) == tasks[0].weight;
      assert Product(Completion)(tasks[0]) == SuccessWeight(tasks[0]);
    }
  }

  lemma NumberAgrees<S, T>(p: S -> bool, s: seq<S>, q: T -> bool, t: seq<T>)
    requires |s| == |t| && forall i | 0 <= i < |s| :: p(s[i]) == q(t[i])
    ensures Number(p, s) == Number(q, t)
  {
    assert (set i | 0 <= i < |s| && p(s[i])) == set i | 0 <= i < |t| && q(t[i]);
  }

  lemma TasksNumberOf(g: Weighted<Evidence> -> Weighted<Evidence>, recent: seq<Evidence>,
                      all: seq<Weighted<Evidence>>)
    requires |all| == |recent| && forall i | 0 <= i < |all| :: all[i].item == recent[i]
    ensures |Map(g, Filter(WeightedTask, all))| == Number(TaskEvent, recent)
  {
    FilterNumber(WeightedTask, all);
    NumberAgrees(WeightedTask, all, TaskEvent, recent);
  }

  lemma TasksNumber(g: Weighted<Evidence> -> Weighted<Evidence>, recent: seq<Evidence>)
    ensures |Tasks(g, recent)| == Number(TaskEvent, recent)
  {
    TasksNumberOf(g, recent, RollingWeights(recent));
  }

  lemma SuccessIs(value: Evidence -> real, g: Weighted<Evidence> -> Weighted<Evidence>, recent: seq<Evidence>)
    requires Scales(g, value)
    ensures SuccessRate(Tasks(g, recent)) == SuccessShare(value, recent)
  {
    TasksNumber(g, recent);
    SuccessSum(Tasks(g, recent));
    SumIs(value, g, recent, Completion);
    SumIs(value, g, recent, One);
    SuccessQuotient(Tasks(g, recent), TaskSum(value, recent, Completion), TaskSum(value, recent, One));
  }

  lemma SuccessQuotient(tasks: seq<Weighted<Evidence>>, sum: real, weight: real)
    requires Sum((w: Weighted<Evidence>) => SuccessWeight(w), tasks) == sum
    requires Sum((w: Weighted<Evidence>) => w.weight, tasks) == weight
    ensures SuccessRate(tasks) == if |tasks| == 0 then 0.5 else sum / if weight < 1.0 then 1.0 else weight
  {
  }

  lemma ExecutionIs(value: Evidence -> real, g: Weighted<Evidence> -> Weighted<Evidence>, recent: seq<Evidence>)
    requires Scales(g, value)
    ensures ExecutionReliability(Tasks(g, recent)) == Execution(value, recent)
  {
    SuccessIs(value, g, recent);
    MeanIs(value, g, recent, QualityValue, OutcomeQuality);
    MeanIs(value, g, recent, ConfidenceValue, OutcomeConfidence);
    MeanIs(value, g, recent, LatencyValue, Latency);
  }

  // What the tasks are worth.

  /** computeTaskValueWeight's factors: stakes, difficulty, exposure, doubt, verifiability, impact, distinct judges,
      and the discount of bootstrapping evidence. */
  ghost predicate Factors(host: Host, e: Evidence, a: real, b: real, c: real, d: real, f: real, g: real, h: real,
                          k: real)
  {
    var judges := set v | v in e.validators :: v.validatorId;
    var capital := if e.capitalExposure.Some? then e.capitalExposure.value else 0.0;
    var doubt :=
      if e.uncertainty.Some? then e.uncertainty.value
      else if e.confidence.Some? then 1.0 - e.confidence.value else 0.5;
    var impact := if e.downstreamImpact.Some? then e.downstreamImpact.value else 0.0;
    && a == (match e.risk case High => 1.25 case Low => 0.85 case Medium => 1.0 case Unrecognized => 1.0)
    && b == Clamp(0.7, if e.difficulty.Some? then e.difficulty.value else 1.0, 2.0)
    && c == 1.0 + Clamp(0.0, host.log10(capital + 1.0) / 5.0, 0.6)
    && d == 0.85 + Clamp(0.0, doubt, 1.0) * 0.35
    && f == (if e.externalVerification then 1.15 else 1.0)
    && g == 1.0 + Clamp(0.0, impact, 1.0) * 0.3
    && h == 1.0 + Clamp(0.0, |judges| as real / 3.0, 1.0) * 0.15
    && k == (if e.bootstrap then 0.8 else 1.0)
  }

  /** What a task is worth: the product of its factors, between 0.5 and 3. */
  lemma WorthIs(host: Host, e: Evidence)
    ensures exists a, b, c, d, f, g, h, k | Factors(host, e, a, b, c, d, f, g, h, k) ::
              TaskValueWeight(host, e) == Round4(Clamp(0.5, a * b * c * d * f * g * h * k, 3.0))
  {
    var a, b, c, d, f, g, h, k := FactorsOf(host, e);
    WorthProduct(a, b, c, d, f, g, h, k);
  }

  lemma FactorsOf(host: Host, e: Evidence)
    returns (a: real, b: real, c: real, d: real, f: real, g: real, h: real, k: real)
    ensures Factors(host, e, a, b, c, d, f, g, h, k) && TaskValueWeight(host, e) == WorthOf(a, b, c, d, f, g, h, k)
  {
    a := match e.risk case High => 1.25 case Low => 0.85 case _ => 1.0;
    b := Clamp(0.7, R.Or(e.difficulty, 1.0), 2.0);
    c := 1.0 + Clamp(0.0, host.log10(R.Or(e.capitalExposure, 0.0) + 1.0) / 5.0, 0.6);
    d := 0.85 + Clamp(0.0, R.Or(e.uncertainty, 1.0 - R.Or(e.confidence, 0.5)), 1.0) * 0.35;
    f := if e.externalVerification then 1.15 else 1.0;
    g := 1.0 + Clamp(0.0, R.Or(e.downstreamImpact, 0.0), 1.0) * 0.3;
    h := 1.0 + Clamp(0.0, |set v | v in e.validators :: v.validatorId| as real / 3.0, 1.0) * 0.15;
    k := if e.bootstrap then 0.8 else 1.0;
  }

  lemma WorthProduct(a: real, b: real, c: real, d: real, f: real, g: real, h: real, k: real)
    ensures WorthOf(a, b, c, d, f, g, h, k) == Round4(Clamp(0.5, a * b * c * d * f * g * h * k, 3.0))
  {
  }

  function WorthTerm(value: Evidence -> real, recent: seq<Evidence>): nat -> real
  {
    (i: nat) => if i < |recent| && TaskEvent(recent[i]) then value(recent[i]) else 0.0
  }

  /** What a task is worth on average; 1 without tasks. */
  ghost function MeanWorth(value: Evidence -> real, recent: seq<Evidence>): real
  {
    if Number(TaskEvent, recent) == 0 then 1.0
    else SumFrom(WorthTerm(value, recent), 0, |recent|) / Number(TaskEvent, recent) as real
  }

  lemma WorthSum(value: Evidence -> real, g: Weighted<Evidence> -> Weighted<Evidence>, recent: seq<Evidence>)
    requires Scales(g, value)
    ensures Sum((w: Weighted<Evidence>) => value(w.item), Tasks(g, recent))
         == SumFrom(WorthTerm(value, recent), 0, |recent|)
  {
    forall w ensures g(w).item == w.item { assert ScalesOne(g, value, w); }
    WorthSumOf(value, g, recent, RollingWeights(recent));
  }

  lemma WorthSumOf(value: Evidence -> real, g: Weighted<Evidence> -> Weighted<Evidence>, recent: seq<Evidence>,
                   all: seq<Weighted<Evidence>>)
    requires forall w :: g(w).item == w.item
    requires |all| == |recent| && forall j | 0 <= j < |all| :: all[j].item == recent[j]
    ensures Sum((w: Weighted<Evidence>) => value(w.item), Map(g, Filter(WeightedTask, all)))
         == SumFrom(WorthTerm(value, recent), 0, |recent|)
  {
    SumOverKept(all, WeightedTask, g, (w: Weighted<Evidence>) => value(w.item), WorthTerm(value, recent), 0);
    assert all[0..] == all;
  }

  lemma MeanWorthIs(value: Evidence -> real, g: Weighted<Evidence> -> Weighted<Evidence>, recent: seq<Evidence>)
    requires Scales(g, value)
    ensures TaskValue(value, Tasks(g, recent)) == MeanWorth(value, recent)
  {
    TasksNumber(g, recent);
    WorthSum(value, g, recent);
    WorthQuotient(value, Tasks(g, recent), SumFrom(WorthTerm(value, recent), 0, |recent|));
  }

  lemma WorthQuotient(value: Evidence -> real, tasks: seq<Weighted<Evidence>>, sum: real)
    requires Sum((w: Weighted<Evidence>) => value(w.item), tasks) == sum
    ensures TaskValue(value, tasks) == if |tasks| == 0 then 1.0 else sum / |tasks| as real
  {
  }

  // Validations and verdicts.

  predicate PassedEvent(e: Evidence)
  {
    e.eventType.ValidationPassed?
  }

  predicate Passed(v: Verdict)
  {
    v.passed
  }

  ghost predicate PassedOnce(e: Evidence)
  {
    exists v :: v in e.validators && v.passed
  }

  /** The validations passed of those made, counting an evidence with a passing verdict as one more. */
  ghost function Accuracy(recent: seq<Evidence>, medium: seq<Evidence>): real
  {
    var made := Number(ValidationEvent, medium);
    var shown := if |recent| < 1 then 1 else |recent|;
    if made == 0 then 0.5
    else Clamp(0.0, (Number(PassedEvent, medium) + Number(PassedOnce, recent)) as real / (made + shown) as real, 1.0)
  }

  lemma AccuracyIs(recent: seq<Evidence>, medium: seq<Evidence>)
    ensures ValidationAccuracy(recent, medium) == Accuracy(recent, medium)
  {
    SameNumber((e: Evidence) => IsValidation(e), ValidationEvent, medium);
    SameNumber((e: Evidence) => e.eventType == ValidationPassed, PassedEvent, medium);
    forall e | e in recent ensures HasPass(e) == PassedOnce(e) {
      if PassedOnce(e) {
        var v :| v in e.validators && v.passed;
        var i :| 0 <= i < |e.validators| && e.validators[i] == v;
      }
    }
    SameNumber((e: Evidence) => HasPass(e), PassedOnce, recent);
  }

  /** The share of an evidence's verdicts that pass; a half without verdicts. */
  ghost function PassShare(e: Evidence): real
  {
    if e.validators == [] then 0.5 else Number(Passed, e.validators) as real / |e.validators| as real
  }

  /** What the i-th newest evidence adds to a sum in which newer ones count more. */
  ghost function PlacedTerm(recent: seq<Evidence>, f: Evidence -> real): nat -> real
  {
    (i: nat) => if i < |recent| then f(recent[i]) * (1.0 - i as real / (|recent| + 1) as real) else 0.0
  }

  /** The mean of pass shares, newer evidence counting more; a half without evidence. */
  ghost function Consensus(recent: seq<Evidence>): real
  {
    if recent == [] then 0.5
    else Quotient(SumFrom(PlacedTerm(recent, PassShare), 0, |recent|), SumFrom(PlacedTerm(recent, One), 0, |recent|))
  }

  lemma AgreementIs(e: Evidence)
    ensures Agreement(e) == PassShare(e)
  {
    SameNumber((v: Verdict) => v.passed, Passed, e.validators);
  }

  lemma {:induction false} SumAll<T>(all: seq<T>, h: T -> real, term: nat -> real, i: nat)
    requires i <= |all| && forall j: nat | j < |all| :: term(j) == h(all[j])
    ensures Sum(h, all[i..]) == SumFrom(term, i, |all|)
    decreases |all| - i
  {
    if i < |all| {
      SumAll(all, h, term, i + 1);
      assert all[i..][1..] == all[i + 1..];
    }
  }

  lemma PlacedAt(recent: seq<Evidence>, f: Evidence -> real, w: Weighted<Evidence>, j: nat)
    requires j < |recent| && w.item == recent[j] && w.weight == 1.0 - j as real / (|recent| + 1) as real
    ensures PlacedTerm(recent, f)(j) == Product(f)(w)
  {
  }

  lemma PlacedSum(recent: seq<Evidence>, f: Evidence -> real)
    ensures Sum(Product(f), RollingWeights(recent)) == SumFrom(PlacedTerm(recent, f), 0, |recent|)
  {
    var all := RollingWeights(recent);
    forall j: nat | j < |recent| ensures PlacedTerm(recent, f)(j) == Product(f)(all[j]) {
      PlacedAt(recent, f, all[j], j);
    }
    SumAll(all, Product(f), PlacedTerm(recent, f), 0);
    assert all[0..] == all;
  }

  lemma ConsensusIs(recent: seq<Evidence>)
    ensures ConsensusAgreement(recent) == Consensus(recent)
  {
    forall e ensures Agreement(e) == PassShare(e) { AgreementIs(e); }
    NumeratorIs(Agreement, PassShare, RollingWeights(recent));
    PlacedSum(recent, PassShare);
    PlacedSum(recent, One);
    AveragedQuotient(Agreement, RollingWeights(recent), SumFrom(PlacedTerm(recent, PassShare), 0, |recent|),
                     SumFrom(PlacedTerm(recent, One), 0, |recent|));
  }

  // ---------------------------------------------------------------- the graph

  /** How many verdicts on the evidence of a window satisfy q. */
  ghost function VerdictNumber(q: Verdict -> bool, window: seq<Evidence>): nat
  {
    if window == [] then 0
    else VerdictNumber(q, window[..|window| - 1]) + Number(q, window[|window| - 1].validators)
  }

  lemma {:induction false} NumberConcat<T>(p: T -> bool, a: seq<T>, b: seq<T>)
    ensures Number(p, a + b) == Number(p, a) + Number(p, b)
  {
    if b == [] {
      assert a + b == a;
    } else {
      var n := |b| - 1;
      NumberConcat(p, a, b[..n]);
      NumberFront(p, a + b);
      NumberFront(p, b);
      assert (a + b)[..|a + b| - 1] == a + b[..n];
    }
  }

  lemma {:induction false} IdAt(verdicts: seq<Verdict>, i: nat)
    requires i < |verdicts|
    ensures IdsOf(verdicts)[i] == verdicts[i].validatorId
  {
    if i > 0 {
      IdAt(verdicts[1..], i - 1);
    }
  }

  lemma {:induction false} VerdictNumberIs(p: Str -> bool, q: Verdict -> bool, window: seq<Evidence>)
    requires forall v :: q(v) == p(v.validatorId)
    ensures Number(p, ValidatorIds(window)) == VerdictNumber(q, window)
  {
    if window != [] {
      var n := |window| - 1;
      var last := window[n].validators;
      VerdictNumberIs(p, q, window[..n]);
      NumberConcat(p, ValidatorIds(window[..n]), IdsOf(last));
      forall i | 0 <= i < |last| ensures IdsOf(last)[i] == last[i].validatorId { IdAt(last, i); }
      NumberAgrees(p, IdsOf(last), q, last);
    }
  }

  /** Who has judged the evidence of a window. */
  ghost function Judges(window: seq<Evidence>): set<Str>
  {
    set e, v | e in window && v in e.validators :: v.validatorId
  }

  lemma {:induction false} JudgesAre(window: seq<Evidence>)
    ensures G.Members(ValidatorIds(window)) == Judges(window)
  {
    if window == [] {
      assert Judges(window) == {};
    } else {
      var n := |window| - 1;
      var last := window[n].validators;
      JudgesAre(window[..n]);
      assert window == window[..n] + [window[n]];
      forall i | 0 <= i < |last| ensures IdsOf(last)[i] == last[i].validatorId { IdAt(last, i); }
      var own := set v | v in last :: v.validatorId;
      assert G.Members(IdsOf(last)) == own by {
        forall v | v in last ensures v.validatorId in IdsOf(last) {
          var i :| 0 <= i < |last| && last[i] == v;
          assert IdsOf(last)[i] == v.validatorId;
        }
      }
      assert Judges(window) == Judges(window[..n]) + own;
      assert G.Members(ValidatorIds(window)) == G.Members(ValidatorIds(window[..n])) + G.Members(IdsOf(last));
    }
  }

  /** The verdicts of one validator. */
  ghost function By(id: Str, window: seq<Evidence>): nat
  {
    VerdictNumber((v: Verdict) => v.validatorId == id, window)
  }

  ghost predicate Dominant(judges: set<Str>, given: Str -> int, top: int)
  {
    && (forall a, b | a in judges && b in judges && a != b :: given(a) + given(b) <= top)
    && exists a, b | a in judges && b in judges && a != b :: given(a) + given(b) == top
  }

  lemma {:induction false} CountIsNumber(ids: seq<Str>, id: Str)
    ensures G.Count(ids, id) == Number((x: Str) => x == id, ids)
  {
    if ids != [] {
      var n := |ids| - 1;
      assert ids == ids[..n] + [ids[n]];
      CountIsNumber(ids[..n], id);
      NumberFront((x: Str) => x == id, ids);
    }
  }

  lemma CountIsBy(window: seq<Evidence>, id: Str)
    ensures G.Count(ValidatorIds(window), id) == By(id, window)
  {
    CountIsNumber(ValidatorIds(window), id);
    VerdictNumberIs((x: Str) => x == id, (v: Verdict) => v.validatorId == id, window);
  }

  /** The most verdicts that two validators have given together; all of them when there are at most two. */
  ghost predicate TopTwo(window: seq<Evidence>, top: int)
  {
    var judges := Judges(window);
    if |judges| <= 2 then top == Verdicts(window)
    else Dominant(judges, (id: Str) => By(id, window), top)
  }

  lemma DominantIs(collate: (Str, Str) -> int, ids: seq<Str>, judges: set<Str>, given: Str -> int)
    requires G.Collation(collate) && G.Members(ids) == judges && |judges| > 2
    requires forall id :: given(id) == G.Count(ids, id)
    ensures Dominant(judges, given, G.DominantCount(collate, ids))
  {
    G.DominantIsLargestPair(collate, ids);
    forall a, b | a in judges && b in judges && a != b ensures given(a) + given(b) <= G.DominantCount(collate, ids) {
      assert G.Together(ids, a, b) <= G.DominantCount(collate, ids);
    }
    var a, b :| a in ids && b in ids && a != b && G.Together(ids, a, b) == G.DominantCount(collate, ids);
    assert a in judges && b in judges && given(a) + given(b) == G.DominantCount(collate, ids);
  }

  lemma TopTwoIs(collate: (Str, Str) -> int, window: seq<Evidence>)
    requires G.Collation(collate)
    ensures TopTwo(window, G.DominantCount(collate, ValidatorIds(window)))
  {
    var ids, judges := ValidatorIds(window), Judges(window);
    JudgesAre(window);
    if |judges| <= 2 {
      G.ClusterDensityBounds(collate, ids);
      VerdictsAreIds(window);
    } else {
      forall id ensures By(id, window) == G.Count(ids, id) { CountIsBy(window, id); }
      DominantIs(collate, ids, judges, (id: Str) => By(id, window));
    }
  }

  /** Both named, not empty and equal. */
  predicate SameName(a: Option<Str>, b: Option<Str>)
  {
    a == b && a != None && a != Some([])
  }

  /** A validator issued like the subject; among those of the root issuer, only within one organisation. */
  predicate SameIssuer(passport: Passport, other: Passport)
  {
    match passport.issuer
    case NoIssuer => false
    case RootIssuer => other.issuer.RootIssuer? && SameName(passport.ownerOrg, other.ownerOrg)
    case Issuer(_) => other.issuer == passport.issuer
  }

  predicate SameInfrastructure(passport: Passport, other: Passport)
  {
    SameName(passport.ownerOrg, other.ownerOrg) || SameName(passport.framework, other.framework)
  }

  /** The verdicts of validators whose passport is at hand and stands in a relation to the subject's. */
  ghost function Related(related: (Passport, Passport) -> bool, passport: Passport, others: map<Str, Passport>,
                         window: seq<Evidence>): nat
  {
    VerdictNumber(VerdictOf(related, passport, others), window)
  }

  function VerdictOf(related: (Passport, Passport) -> bool, passport: Passport, others: map<Str, Passport>)
    : Verdict -> bool
  {
    (v: Verdict) => v.validatorId in others && related(passport, others[v.validatorId])
  }

  function IssuerShared(passport: Passport, others: map<Str, Passport>): Str -> bool
  {
    (id: Str) => SharesIssuer(passport, others, id)
  }

  function InfrastructureShared(passport: Passport, others: map<Str, Passport>): Str -> bool
  {
    (id: Str) => SharesInfrastructure(passport, others, id)
  }

  lemma {:induction false} SharedAreNumbers(passport: Passport, others: map<Str, Passport>, ids: seq<Str>)
    ensures SharedIssuers(passport, others, ids) == Number(IssuerShared(passport, others), ids)
    ensures SharedInfrastructure(passport, others, ids)
         == Number(InfrastructureShared(passport, others), ids)
  {
    if ids != [] {
      SharedAreNumbers(passport, others, ids[..|ids| - 1]);
      NumberFront(IssuerShared(passport, others), ids);
      NumberFront(InfrastructureShared(passport, others), ids);
    }
  }

  lemma RelationsAgree(passport: Passport, others: map<Str, Passport>, id: Str)
    requires id in others
    ensures SharesIssuer(passport, others, id) == SameIssuer(passport, others[id])
    ensures SharesInfrastructure(passport, others, id) == SameInfrastructure(passport, others[id])
  {
  }

  lemma SharedAreRelated(passport: Passport, others: map<Str, Passport>, window: seq<Evidence>)
    ensures SharedIssuers(passport, others, ValidatorIds(window)) == Related(SameIssuer, passport, others, window)
    ensures SharedInfrastructure(passport, others, ValidatorIds(window))
         == Related(SameInfrastructure, passport, others, window)
  {
    SharedAreNumbers(passport, others, ValidatorIds(window));
    forall v: Verdict
      ensures IssuerShared(passport, others)(v.validatorId) == VerdictOf(SameIssuer, passport, others)(v)
      ensures InfrastructureShared(passport, others)(v.validatorId)
              == VerdictOf(SameInfrastructure, passport, others)(v)
    {
      if v.validatorId in others {
        RelationsAgree(passport, others, v.validatorId);
      }
    }
    VerdictNumberIs(IssuerShared(passport, others), VerdictOf(SameIssuer, passport, others), window);
    VerdictNumberIs(InfrastructureShared(passport, others), VerdictOf(SameInfrastructure, passport, others), window);
  }

  /** Distinct judges, of as many as are wanted. */
  function Diverse(judges: int, minimumDiversity: int): real
  {
    Clamp(0.0, judges as real / (if minimumDiversity < 1 then 1.0 else minimumDiversity as real), 1.0)
  }

  /** computeGraphSignals, as shares of the verdicts on a window. */
  ghost predicate GraphMeans(g: GraphSignals, window: seq<Evidence>, passport: Passport, others: map<Str, Passport>,
                             minimumDiversity: int, top: int)
  {
    && TopTwo(window, top)
    && Shares(g, minimumDiversity, Verdicts(window), |Judges(window)|, top, Number(Reversed, window),
              Related(SameIssuer, passport, others, window), Related(SameInfrastructure, passport, others, window))
  }

  /** Of so many verdicts by so many judges: those beyond a judge's first, those of the top two, reversals, and those
      of related validators. */
  ghost predicate Shares(g: GraphSignals, minimumDiversity: int, total: int, judges: int, top: int, reversals: int,
                         issuer: int, infra: int)
  {
    GraphOf(g, Share(total - judges, total), Diverse(judges, minimumDiversity), Share(top, total),
            Share(reversals, total), Share(issuer, total), Share(infra, total))
  }

  /** Four decimals of each share, and of their combination. */
  ghost predicate GraphOf(g: GraphSignals, repeated: real, diverse: real, dense: real, reversals: real, issuer: real,
                          infra: real)
  {
    && g.mutualValidation == Round4(repeated)
    && g.diversity == Round4(diverse)
    && g.clusterDensity == Round4(dense)
    && g.reversalRate == Round4(reversals)
    && g.sharedIssuer == Round4(issuer)
    && g.sharedInfra == Round4(infra)
    && g.collusionRisk
       == Round4(Clamp(0.0, 0.4 * repeated + 0.2 * dense + 0.15 * (1.0 - diverse) + 0.15 * issuer + 0.1 * infra, 1.0))
  }

  lemma GraphFromIs(repeated: real, diverse: real, dense: real, reversals: real, issuer: real, infra: real)
    ensures GraphOf(GraphFrom(repeated, diverse, dense, reversals, issuer, infra), repeated, diverse, dense, reversals,
                    issuer, infra)
  {
  }


  lemma CountsAre(window: seq<Evidence>, passport: Passport, others: map<Str, Passport>)
    ensures var counts := GraphCountsOf(window, passport, others);
            && Verdicts(window) == |counts.ids| && Judges(window) == G.Members(counts.ids)
            && Number(Reversed, window) == counts.reversals
            && Related(SameIssuer, passport, others, window) == counts.sharedIssuer
            && Related(SameInfrastructure, passport, others, window) == counts.sharedInfra
  {
    VerdictsAreIds(window);
    JudgesAre(window);
    ReversalsAreNumber(window);
    SharedAreRelated(passport, others, window);
  }

  lemma GraphIs(host: Host, window: seq<Evidence>, passport: Passport, others: map<Str, Passport>,
                minimumDiversity: int)
    requires G.Collation(host.collate)
    ensures GraphMeans(ComputeGraphSignals(host, GraphCountsOf(window, passport, others), minimumDiversity), window,
                       passport, others, minimumDiversity, G.DominantCount(host.collate, ValidatorIds(window)))
  {
    TopTwoIs(host.collate, window);
    CountsAre(window, passport, others);
    GraphAt(host, GraphCountsOf(window, passport, others), minimumDiversity, Verdicts(window), |Judges(window)|,
            G.DominantCount(host.collate, ValidatorIds(window)), Number(Reversed, window),
            Related(SameIssuer, passport, others, window), Related(SameInfrastructure, passport, others, window));
  }

  lemma GraphAt(host: Host, counts: GraphCounts, minimumDiversity: int, total: int, judges: int, top: int,
                reversals: int, issuer: int, infra: int)
    requires total == |counts.ids| && judges == |G.Members(counts.ids)|
    requires top == G.DominantCount(host.collate, counts.ids) && reversals == counts.reversals
    requires issuer == counts.sharedIssuer && infra == counts.sharedInfra
    ensures Shares(ComputeGraphSignals(host, counts, minimumDiversity), minimumDiversity, total, judges, top, reversals,
                   issuer, infra)
  {
    GraphFormula(host, counts, minimumDiversity, Share(total - judges, total), Diverse(judges, minimumDiversity),
                 Share(top, total), Share(reversals, total), Share(issuer, total), Share(infra, total));
  }

  /** One graph from its shares, whatever those are. */
  lemma GraphFormula(host: Host, counts: GraphCounts, minimumDiversity: int, repeated: real, diverse: real, dense: real,
                     reversals: real, issuer: real, infra: real)
    requires repeated == Share(|counts.ids| - |G.Members(counts.ids)|, |counts.ids|)
    requires diverse == Diverse(|G.Members(counts.ids)|, minimumDiversity)
    requires dense == Share(G.DominantCount(host.collate, counts.ids), |counts.ids|)
    requires reversals == Share(counts.reversals, |counts.ids|)
    requires issuer == Share(counts.sharedIssuer, |counts.ids|) && infra == Share(counts.sharedInfra, |counts.ids|)
    ensures GraphOf(ComputeGraphSignals(host, counts, minimumDiversity), repeated, diverse, dense, reversals, issuer,
                    infra)
  {
    GraphEquals(host, counts, minimumDiversity, repeated, diverse, dense, reversals, issuer, infra);
    GraphFromIs(repeated, diverse, dense, reversals, issuer, infra);
  }

  lemma GraphEquals(host: Host, counts: GraphCounts, minimumDiversity: int, repeated: real, diverse: real, dense: real,
                    reversals: real, issuer: real, infra: real)
    requires repeated == Share(|counts.ids| - |G.Members(counts.ids)|, |counts.ids|)
    requires diverse == Diverse(|G.Members(counts.ids)|, minimumDiversity)
    requires dense == Share(G.DominantCount(host.collate, counts.ids), |counts.ids|)
    requires reversals == Share(counts.reversals, |counts.ids|)
    requires issuer == Share(counts.sharedIssuer, |counts.ids|) && infra == Share(counts.sharedInfra, |counts.ids|)
    ensures ComputeGraphSignals(host, counts, minimumDiversity)
         == GraphFrom(repeated, diverse, dense, reversals, issuer, infra)
  {
  }

  // ---------------------------------------------------------------- dependencies and adversarial events

  /** The health of a dependency, 60 when it is not given. */
  function HealthOf(d: DependencyReading): real
  {
    Clamp(0.0, match d case Plain(value) => value
               case Detailed(_, Some(health)) => health
               case Detailed(_, None) => 60.0
               case Opaque => 60.0, 100.0)
  }

  predicate AtRisk(d: DependencyReading)
  {
    (d.Plain? && d.value < 40.0) || (d.Detailed? && d.risky)
  }

  function HealthTerm(all: seq<DependencyReading>): nat -> real
  {
    (i: nat) => if i < |all| then HealthOf(all[i]) else 0.0
  }

  /** The dependencies of the passport and then of the newest evidence, one after the other. */
  function Gathered(own: seq<DependencyReading>, recent: seq<Evidence>): seq<DependencyReading>
  {
    if recent == [] then own
    else Gathered(own, recent[..|recent| - 1]) + recent[|recent| - 1].dependencies
  }

  lemma {:induction false} DependenciesBack(recent: seq<Evidence>)
    requires recent != []
    ensures DependenciesOf(recent) == DependenciesOf(recent[..|recent| - 1]) + recent[|recent| - 1].dependencies
  {
    if |recent| > 1 {
      DependenciesBack(recent[1..]);
      assert recent[1..][..|recent| - 2] == recent[..|recent| - 1][1..];
    } else {
      assert recent[1..] == [] && recent[..0] == [];
    }
  }

  lemma {:induction false} DependenciesGathered(own: seq<DependencyReading>, recent: seq<Evidence>)
    ensures own + DependenciesOf(recent) == Gathered(own, recent)
  {
    if recent == [] {
      assert own + [] == own;
    } else {
      var n := |recent| - 1;
      DependenciesBack(recent);
      DependenciesGathered(own, recent[..n]);
      Regroup(own, DependenciesOf(recent[..n]), recent[n].dependencies);
    }
  }

  lemma Regroup<T>(a: seq<T>, b: seq<T>, c: seq<T>)
    ensures a + (b + c) == a + b + c
  {
  }

  /** dependencySignals: low mean health and the share of risky dependencies; 0.2 without dependencies. */
  ghost predicate DependencyOf(risk: real, all: seq<DependencyReading>)
  {
    if all == [] then risk == 0.2
    else
      var health := SumFrom(HealthTerm(all), 0, |all|) / |all| as real;
      risk == Round4(Clamp(0.0, 0.55 * (1.0 - health / 100.0) + 0.45 * (Number(AtRisk, all) as real / |all| as real),
                           1.0))
  }

  lemma DependencyIs(passport: Passport, recent: seq<Evidence>)
    ensures DependencyOf(DependencyRisk(passport, recent), Gathered(passport.dependencies, recent))
  {
    var all := passport.dependencies + DependenciesOf(recent);
    DependenciesGathered(passport.dependencies, recent);
    SumAll(all, (d: DependencyReading) => Clamp(0.0, Health(d), 100.0), HealthTerm(all), 0);
    assert all[0..] == all;
    SameNumber((d: DependencyReading) => Risky(d), AtRisk, all);
    DependencyFormula(passport, recent, SumFrom(HealthTerm(all), 0, |all|), Number(AtRisk, all));
  }

  lemma DependencyFormula(passport: Passport, recent: seq<Evidence>, health: real, risky: nat)
    requires var all := passport.dependencies + DependenciesOf(recent);
             && health == Sum((d: DependencyReading) => Clamp(0.0, Health(d), 100.0), all)
             && risky == |Filter((d: DependencyReading) => Risky(d), all)|
    ensures var n := |passport.dependencies + DependenciesOf(recent)|;
            DependencyRisk(passport, recent) ==
            if n == 0 then 0.2
            else Round4(Clamp(0.0, 0.55 * (1.0 - (health / n as real) / 100.0) + 0.45 * (risky as real / n as real),
                              1.0))
  {
  }

  /** What an event costs: the configured penalties count as 0 when negative. */
  function Charge(p: Penalties, e: Evidence): real
  {
    var cost :=
      match e.eventType
      case Adverse(PaymentFailed) => 18.0
      case Adverse(ReplayAttempt) => p.replay
      case Adverse(DuplicatePaymentSignature) => p.duplicatePayment
      case Adverse(MalformedPayload) => p.malformed
      case Adverse(PayloadMismatch) => 22.0
      case Adverse(VerifierDelay) => p.verifierDelay
      case Adverse(RateSpike) => 14.0
      case Adverse(OutputInconsistency) => 16.0
      case Adverse(DependencyFailure) => 18.0
      case Adverse(QuarantineEvent) => 50.0
      case _ => 0.0;
    if cost < 0.0 then 0.0 else cost
  }

  function ChargeTerm(p: Penalties, window: seq<Evidence>): nat -> real
  {
    (i: nat) => if i < |window| then Charge(p, window[i]) else 0.0
  }

  /** adversarialSignals: the cost of the newest hundred events, of 120. */
  function Adversity(p: Penalties, window: seq<Evidence>): real
  {
    Round4(Clamp(0.0, SumFrom(ChargeTerm(p, window), 0, |window|) / 120.0, 1.0))
  }

  lemma AdversityIs(p: Penalties, window: seq<Evidence>)
    ensures AdversarialRiskSignal(p, window) == Adversity(p, window)
  {
    var f := (e: Evidence) => Penalty(p, e.eventType);
    forall j: nat | j < |window| ensures ChargeTerm(p, window)(j) == f(window[j]) {
      assert Charge(p, window[j]) == Penalty(p, window[j].eventType);
    }
    SumAll(window, f, ChargeTerm(p, window), 0);
    assert window[0..] == window;
  }

  // ---------------------------------------------------------------- domains

  function Within(domain: Str): Evidence -> bool
  {
    (e: Evidence) => e.domain == Some(domain)
  }

  function CompletedWithin(domain: Str): Evidence -> bool
  {
    (e: Evidence) => e.domain == Some(domain) && e.eventType.TaskCompleted?
  }

  function QualityTerm(domain: Str, window: seq<Evidence>): nat -> real
  {
    (i: nat) =>
      if i < |window| && window[i].domain == Some(domain)
      then ((match window[i].quality case Some(q) => q case None => 0.0)
            + (match window[i].confidence case Some(c) => c case None => 0.0)) / 2.0
      else 0.0
  }

  /** Hours since an instant, none when it lies ahead. */
  function HoursSince(at: int, now: int): real
  {
    if now <= at then 0.0 else (now - at) as real / 3600000.0
  }

  /** The age of a domain's youngest event, at most 9999 hours. */
  ghost predicate Youngest(domain: Str, window: seq<Evidence>, now: int, hours: real)
  {
    && hours <= 9999.0
    && (forall e | e in window && e.domain == Some(domain) :: hours <= HoursSince(e.at, now))
    && (hours == 9999.0 || exists e | e in window && e.domain == Some(domain) :: hours == HoursSince(e.at, now))
  }

  /** How fresh something of that age is: halved once per half-life, which is at least an hour and 72 when 0. */
  function Fresh(host: Host, hours: real, halfLife: real): real
  {
    var life := if halfLife == 0.0 then 72.0 else if halfLife < 1.0 then 1.0 else halfLife;
    Round4(host.halfPower(hours / life))
  }

  /** Half success, three tenths quality and confidence, two tenths freshness. */
  ghost predicate CompetenceMeans(competence: real, host: Host, window: seq<Evidence>, domain: Str, now: int,
                                  halfLife: real)
  {
    var n := Number(Within(domain), window);
    exists hours | Youngest(domain, window, now, hours) ::
      competence == Competence(Number(CompletedWithin(domain), window),
                               SumFrom(QualityTerm(domain, window), 0, |window|),
                               n, Fresh(host, hours, halfLife))
  }

  function Competence(completed: int, quality: real, n: int, recency: real): real
  {
    if n == 0 then 0.0
    else Round4(Clamp(0.0, 0.5 * (completed as real / n as real) + 0.3 * (quality / n as real) + 0.2 * recency, 1.0))
  }

  lemma {:induction false} FreshestIsYoungest(window: seq<Evidence>, now: int)
    ensures var hours := FreshestHours(window, now);
            && hours <= 9999.0 && (forall e | e in window :: hours <= HoursSince(e.at, now))
            && (hours == 9999.0 || exists e | e in window :: hours == HoursSince(e.at, now))
  {
    if window != [] {
      FreshestIsYoungest(window[1..], now);
      assert window == [window[0]] + window[1..];
      var hours, rest := FreshestHours(window, now), FreshestHours(window[1..], now);
      if hours == rest && rest != 9999.0 {
        var e :| e in window[1..] && rest == HoursSince(e.at, now);
        assert e in window;
      }
    }
  }

  lemma YoungestIs(window: seq<Evidence>, domain: Str, now: int)
    requires domain != []
    ensures Youngest(domain, window, now, FreshestHours(Filter((e: Evidence) => InDomain(e, domain), window), now))
  {
    FreshestIsYoungest(Filter((e: Evidence) => InDomain(e, domain), window), now);
  }

  lemma {:induction false} FilterTwice<T>(p: T -> bool, q: T -> bool, both: T -> bool, s: seq<T>)
    requires forall x | x in s :: both(x) == (p(x) && q(x))
    ensures |Filter(q, Filter(p, s))| == Number(both, s)
  {
    if s == [] {
    } else {
      var n := |s| - 1;
      FilterBack(p, s);
      NumberFront(both, s);
      FilterTwice(p, q, both, s[..n]);
      if p(s[n]) {
        var front := Filter(p, s[..n]);
        FilterBack(q, front + [s[n]]);
        assert (front + [s[n]])[..|front|] == front;
      } else {
        assert Filter(p, s) == Filter(p, s[..n]);
      }
    }
  }

  lemma FilterSum(domain: Str, window: seq<Evidence>)
    requires domain != []
    ensures Sum((e: Evidence) => ValidatedQuality(e), Filter((e: Evidence) => InDomain(e, domain), window))
         == SumFrom(QualityTerm(domain, window), 0, |window|)
  {
    var p, f := (e: Evidence) => InDomain(e, domain), (e: Evidence) => ValidatedQuality(e);
    SumOfKept(p, f, QualityTerm(domain, window), window, 0);
    assert window[0..] == window;
  }

  lemma {:induction false} SumOfKept<T>(keep: T -> bool, f: T -> real, term: nat -> real, all: seq<T>, i: nat)
    requires i <= |all| && forall j: nat | j < |all| :: term(j) == if keep(all[j]) then f(all[j]) else 0.0
    ensures Sum(f, Filter(keep, all[i..])) == SumFrom(term, i, |all|)
    decreases |all| - i
  {
    if i < |all| {
      SumOfKept(keep, f, term, all, i + 1);
      assert all[i..][1..] == all[i + 1..];
      var rest := Filter(keep, all[i + 1..]);
      if keep(all[i]) {
        assert Filter(keep, all[i..]) == [all[i]] + rest && ([all[i]] + rest)[1..] == rest;
      } else {
        assert Filter(keep, all[i..]) == rest;
      }
    }
  }

  lemma CompetenceIs(host: Host, window: seq<Evidence>, domain: Str, now: int, halfLife: real)
    requires domain != []
    ensures CompetenceMeans(DomainCompetence(host, window, domain, now, halfLife), host, window, domain, now, halfLife)
  {
    var p := (e: Evidence) => InDomain(e, domain);
    var events := Filter(p, window);
    var hours := FreshestHours(events, now);
    SameNumber(p, Within(domain), window);
    FilterTwice(p, (e: Evidence) => IsCompleted(e), CompletedWithin(domain), window);
    FilterSum(domain, window);
    YoungestIs(window, domain, now);
    FreshIs(host, hours, halfLife);
    CompetenceFormula(host, window, domain, now, halfLife, Number(CompletedWithin(domain), window),
                      SumFrom(QualityTerm(domain, window), 0, |window|), Number(Within(domain), window),
                      Fresh(host, hours, halfLife));
  }

  lemma FreshIs(host: Host, hours: real, halfLife: real)
    ensures Freshness(host, hours, halfLife) == Fresh(host, hours, halfLife)
  {
  }

  lemma CompetenceFormula(host: Host, window: seq<Evidence>, domain: Str, now: int, halfLife: real, completed: int,
                          quality: real, n: int, recency: real)
    requires var events := Filter((e: Evidence) => InDomain(e, domain), window);
             && completed == |Filter((e: Evidence) => IsCompleted(e), events)|
             && quality == Sum((e: Evidence) => ValidatedQuality(e), events) && n == |events|
             && recency == Freshness(host, FreshestHours(events, now), halfLife)
    ensures DomainCompetence(host, window, domain, now, halfLife) == Competence(completed, quality, n, recency)
  {
  }

  // ---------------------------------------------------------------- the snapshot

  /** The readings that follow from others: from the shares of the graph, the disputes, the change of execution
      reliability since the previous snapshot, and the passport's status. */
  ghost predicate Derived(s: Signals, disputes: real, before: real, status: Status)
  {
    var g := s.graph;
    var change := if before >= s.execution then before - s.execution else s.execution - before;
    var surplus := if s.taskValue >= 1.0 then s.taskValue - 1.0 else 0.0;
    var cap := if g.diversity < 1.0 then Clamp(0.35, 0.55 + g.diversity * 0.45, 1.0) else 1.0;
    && s.resilience == Clamp(0.0, 1.0 - g.reversalRate, 1.0)
    && s.asymmetry == Clamp(0.0, g.reversalRate * 1.4 + disputes, 1.0)
    && s.highValue == Clamp(0.0, surplus * (1.0 - g.diversity), 1.0)
    && s.validation
       == Clamp(0.0, (0.45 * s.accuracy + 0.25 * s.consensus + 0.2 * g.diversity + 0.1 * s.resilience) * cap, 1.0)
    && s.volatility == change
    && s.coordination == Clamp(0.0, 1.0 - change, 1.0)
    && s.disputeRate == Clamp(0.0, disputes, 1.0)
    && s.identity == (match status case Active => 0.96 case Suspended => 0.35 case Revoked => 0.0)
    && s.sockpuppet == Clamp(0.0, 0.45 * g.sharedIssuer + 0.35 * g.sharedInfra + 0.2 * (1.0 - g.diversity), 1.0)
    && s.bribery == Clamp(0.0, 0.45 * s.highValue + 0.3 * g.mutualValidation + 0.25 * g.reversalRate, 1.0)
    && s.anomaly == Clamp(0.0, 0.4 * change + 0.3 * s.highValue + 0.2 * g.clusterDensity + 0.1 * g.clusterDensity, 1.0)
  }

  /** The readings taken off the log directly. */
  ghost predicate Direct(s: Signals, execution: real, accuracy: real, consensus: real, graph: GraphSignals,
                         taskValue: real, recency: real, dependency: real, adversarial: real)
  {
    && s.execution == execution && s.accuracy == accuracy && s.consensus == consensus && s.graph == graph
    && s.taskValue == taskValue && s.freshness == recency && s.dependency == dependency
    && s.adversarial == adversarial
  }

  lemma SignalsFromIs(execution: real, accuracy: real, consensus: real, graph: GraphSignals, disputes: real,
                      taskValue: real, recency: real, before: real, status: Status, dependency: real,
                      adversarial: real)
    ensures var s := SignalsFrom(execution, accuracy, consensus, graph, disputes, taskValue, recency, before, status,
                                 dependency, adversarial);
            && Derived(s, disputes, before, status)
            && Direct(s, execution, accuracy, consensus, graph, taskValue, recency, dependency, adversarial)
  {
  }

  /** The execution reliability of the previous snapshot; the present one without it. */
  function Before(previous: Option<Previous>, execution: real): real
  {
    match previous
    case Some(Previous(_, Some(x))) => x
    case _ => execution
  }

  /** The disputes among the newest hundred. */
  ghost function Disputes(medium: seq<Evidence>): real
  {
    Number(DisputeEvent, medium) as real / if medium == [] then 1.0 else |medium| as real
  }

  function Recency(host: Host, log: seq<Evidence>, penalties: Penalties, now: int): real
  {
    if log == [] then 0.2 else Fresh(host, HoursSince(log[0].at, now), penalties.halfLifeHours)
  }

  /** Every reading of a log ordered newest first: of its newest twenty and its newest hundred. */
  ghost predicate SignalsMean(s: Signals, host: Host, log: seq<Evidence>, passport: Passport,
                              others: map<Str, Passport>, previous: Option<Previous>, minimumDiversity: int,
                              penalties: Penalties, now: int)
  {
    var recent, medium := Newest(log, 20), Newest(log, 100);
    && Direct(s, Execution(ValueOf(host), recent), Accuracy(recent, medium), Consensus(recent), s.graph,
              MeanWorth(ValueOf(host), recent), Recency(host, log, penalties, now), s.dependency,
              Adversity(penalties, medium))
    && (exists top :: GraphMeans(s.graph, medium, passport, others, minimumDiversity, top))
    && DependencyOf(s.dependency, Gathered(passport.dependencies, recent))
    && Derived(s, Disputes(medium), Before(previous, s.execution), passport.status)
  }

  /** Signals from equal pieces. */
  lemma SameSignals(host: Host, log: seq<Evidence>, passport: Passport, others: map<Str, Passport>,
                    previous: Option<Previous>, minimumDiversity: int, penalties: Penalties, now: int,
                    execution: real, accuracy: real, consensus: real, graph: GraphSignals, disputes: real,
                    taskValue: real, recency: real, before: real, dependency: real, adversarial: real)
    requires execution == ExecutionReliability(TaskWeights(host, Window(log, 20)))
    requires accuracy == ValidationAccuracy(Window(log, 20), Window(log, 100))
    requires consensus == ConsensusAgreement(Window(log, 20))
    requires graph == ComputeGraphSignals(host, GraphCountsOf(Window(log, 100), passport, others), minimumDiversity)
    requires disputes == |Filter(IsDispute, Window(log, 100))| as real / Max(1.0, |Window(log, 100)| as real)
    requires taskValue == TaskValue(ValueOf(host), TaskWeights(host, Window(log, 20)))
    requires recency == if log == [] then 0.2 else Freshness(host, AgeHours(log[0].at, now), penalties.halfLifeHours)
    requires before == if previous.Some? then R.Or(previous.value.executionReliability, execution) else execution
    requires dependency == DependencyRisk(passport, Window(log, 20))
    requires adversarial == AdversarialRiskSignal(penalties, Window(log, 100))
    ensures ComputeSignals(host, log, passport, others, previous, minimumDiversity, penalties, now)
         == SignalsFrom(execution, accuracy, consensus, graph, disputes, taskValue, recency, before, passport.status,
                        dependency, adversarial)
  {
  }

  lemma HostScales(host: Host)
    ensures Scales(Scaled(host), ValueOf(host))
  {
    forall w ensures ScalesOne(Scaled(host), ValueOf(host), w) {
      assert Scaled(host)(w) == ScaledTask(host, w);
    }
  }

  lemma TaskReadings(host: Host, recent: seq<Evidence>)
    ensures ExecutionReliability(TaskWeights(host, recent)) == Execution(ValueOf(host), recent)
    ensures TaskValue(ValueOf(host), TaskWeights(host, recent)) == MeanWorth(ValueOf(host), recent)
  {
    HostScales(host);
    assert TaskWeights(host, recent) == Tasks(Scaled(host), recent);
    ExecutionIs(ValueOf(host), Scaled(host), recent);
    MeanWorthIs(ValueOf(host), Scaled(host), recent);
  }

  lemma WindowIs(log: seq<Evidence>, k: nat)
    ensures Window(log, k) == Newest(log, k)
  {
  }

  lemma DisputesAre(medium: seq<Evidence>)
    ensures |Filter(IsDispute, medium)| as real / Max(1.0, |medium| as real) == Disputes(medium)
  {
    SameNumber(IsDispute, DisputeEvent, medium);
  }

  lemma RecencyIs(host: Host, log: seq<Evidence>, penalties: Penalties, now: int)
    ensures (if log == [] then 0.2 else Freshness(host, AgeHours(log[0].at, now), penalties.halfLifeHours))
         == Recency(host, log, penalties, now)
  {
    if log != [] {
      AgeIs(log[0].at, now);
      FreshIs(host, AgeHours(log[0].at, now), penalties.halfLifeHours);
    }
  }

  lemma AgeIs(at: int, now: int)
    ensures AgeHours(at, now) == HoursSince(at, now)
  {
  }

  lemma BeforeIs(previous: Option<Previous>, execution: real)
    ensures (if previous.Some? then R.Or(previous.value.executionReliability, execution) else execution)
         == Before(previous, execution)
  {
  }

  lemma SignalsEqual(host: Host, log: seq<Evidence>, passport: Passport, others: map<Str, Passport>,
                     previous: Option<Previous>, minimumDiversity: int, penalties: Penalties, now: int,
                     recent: seq<Evidence>, medium: seq<Evidence>, execution: real, graph: GraphSignals)
    requires recent == Newest(log, 20) && medium == Newest(log, 100) && execution == Execution(ValueOf(host), recent)
    requires graph == ComputeGraphSignals(host, GraphCountsOf(medium, passport, others), minimumDiversity)
    ensures ComputeSignals(host, log, passport, others, previous, minimumDiversity, penalties, now)
         == SignalsFrom(execution, Accuracy(recent, medium), Consensus(recent), graph, Disputes(medium),
                        MeanWorth(ValueOf(host), recent), Recency(host, log, penalties, now),
                        Before(previous, execution), passport.status, DependencyRisk(passport, recent),
                        Adversity(penalties, medium))
  {
    WindowIs(log, 20);
    WindowIs(log, 100);
    TaskReadings(host, recent);
    AccuracyIs(recent, medium);
    ConsensusIs(recent);
    DisputesAre(medium);
    RecencyIs(host, log, penalties, now);
    BeforeIs(previous, execution);
    AdversityIs(penalties, medium);
    SameSignals(host, log, passport, others, previous, minimumDiversity, penalties, now, execution,
                Accuracy(recent, medium), Consensus(recent), graph, Disputes(medium),
                MeanWorth(ValueOf(host), recent), Recency(host, log, penalties, now), Before(previous, execution),
                DependencyRisk(passport, recent), Adversity(penalties, medium));
  }

  lemma SignalsAre(host: Host, log: seq<Evidence>, passport: Passport, others: map<Str, Passport>,
                   previous: Option<Previous>, minimumDiversity: int, penalties: Penalties, now: int)
    requires G.Collation(host.collate)
    ensures SignalsMean(ComputeSignals(host, log, passport, others, previous, minimumDiversity, penalties, now), host,
                        log, passport, others, previous, minimumDiversity, penalties, now)
  {
    var recent, medium := Newest(log, 20), Newest(log, 100);
    var execution := Execution(ValueOf(host), recent);
    var graph := ComputeGraphSignals(host, GraphCountsOf(medium, passport, others), minimumDiversity);
    SignalsEqual(host, log, passport, others, previous, minimumDiversity, penalties, now, recent, medium, execution,
                 graph);
    GraphIs(host, medium, passport, others, minimumDiversity);
    DependencyIs(passport, recent);
    SignalsFromIs(execution, Accuracy(recent, medium), Consensus(recent), graph, Disputes(medium),
                  MeanWorth(ValueOf(host), recent), Recency(host, log, penalties, now), Before(previous, execution),
                  passport.status, DependencyRisk(passport, recent), Adversity(penalties, medium));
    Assembled(ComputeSignals(host, log, passport, others, previous, minimumDiversity, penalties, now), host, log,
              passport, others, previous, minimumDiversity, penalties, now,
              G.DominantCount(host.collate, ValidatorIds(medium)), DependencyRisk(passport, recent), graph);
  }

  lemma Assembled(s: Signals, host: Host, log: seq<Evidence>, passport: Passport, others: map<Str, Passport>,
                  previous: Option<Previous>, minimumDiversity: int, penalties: Penalties, now: int, top: int,
                  dependency: real, graph: GraphSignals)
    requires var recent, medium := Newest(log, 20), Newest(log, 100);
             && Direct(s, Execution(ValueOf(host), recent), Accuracy(recent, medium), Consensus(recent), graph,
                       MeanWorth(ValueOf(host), recent), Recency(host, log, penalties, now), dependency,
                       Adversity(penalties, medium))
             && GraphMeans(graph, medium, passport, others, minimumDiversity, top)
             && DependencyOf(dependency, Gathered(passport.dependencies, recent))
             && Derived(s, Disputes(medium), Before(previous, Execution(ValueOf(host), recent)), passport.status)
    ensures SignalsMean(s, host, log, passport, others, previous, minimumDiversity, penalties, now)
  {
  }

  // What is stored: every reading to four decimals, those of trust_vector_v1 in percent.

  predicate FourDecimals(stored: R.Reading, x: real)
  {
    stored == Some(Round4(x))
  }

  predicate InPercent(stored: R.Reading, x: real)
  {
    stored == Some(Round(100.0 * x) as real)
  }

  ghost predicate V1Means(t: R.TrustVectorV1, s: Signals)
  {
    var g := s.graph;
    && InPercent(t.executionReliability, s.execution)
    && InPercent(t.economicIntegrity,
                 Clamp(0.0, 0.4 * s.execution + 0.25 * s.validation + 0.2 * (1.0 - s.disputeRate)
                            + 0.15 * (1.0 - s.adversarial), 1.0))
    && InPercent(t.identityCredibility,
                 Clamp(0.0, 0.65 * s.identity + 0.2 * (1.0 - s.sockpuppet) + 0.15 * (1.0 - g.sharedIssuer), 1.0))
    && InPercent(t.behavioralStability,
                 Clamp(0.0, 0.45 * s.coordination + 0.25 * (1.0 - s.anomaly) + 0.2 * (1.0 - s.asymmetry)
                            + 0.1 * (1.0 - s.adversarial), 1.0))
    && InPercent(t.dependencyRisk, s.dependency)
    && InPercent(t.adversarialRisk,
                 Clamp(0.0, 0.4 * g.collusionRisk + 0.25 * s.sockpuppet + 0.2 * s.bribery
                            + 0.15 * Clamp(0.0, s.anomaly + s.adversarial * 0.7, 1.0), 1.0))
    && InPercent(t.evidenceFreshness, s.freshness)
  }

  ghost predicate VectorMeans(v: R.Vector, s: Signals)
  {
    var g := s.graph;
    && FourDecimals(v.identityIntegrity, s.identity) && FourDecimals(v.executionReliability, s.execution)
    && FourDecimals(v.validationQuality, s.validation) && FourDecimals(v.coordinationStability, s.coordination)
    && FourDecimals(v.freshness, s.freshness) && FourDecimals(v.disputeRate, s.disputeRate)
    && FourDecimals(v.reversalAsymmetry, s.asymmetry) && FourDecimals(v.sockpuppetRisk, s.sockpuppet)
    && FourDecimals(v.validatorBriberyRisk, s.bribery) && FourDecimals(v.anomalyWindowRisk, s.anomaly)
    && v.validatorDiversityScore == Some(g.diversity) && v.reversalRate == Some(g.reversalRate)
    && v.collusionRisk == Some(g.collusionRisk)
    && V1Means(v.v1, s)
  }

  lemma VectorIs(s: Signals, domains: map<Str, real>, quarantines: nat)
    ensures var v := VectorOf(s, domains, quarantines);
            VectorMeans(v, s) && v.domainCompetence == domains && v.quarantineCount == quarantines
  {
  }

  /** A competence for every domain named on the newest hundred, and for no other. */
  ghost predicate DomainsMean(competences: map<Str, real>, host: Host, medium: seq<Evidence>, now: int, halfLife: real)
  {
    && (forall d :: d in competences <==> d != [] && exists e :: e in medium && e.domain == Some(d))
    && forall d | d in competences :: CompetenceMeans(competences[d], host, medium, d, now, halfLife)
  }

  lemma DomainsAre(host: Host, medium: seq<Evidence>, now: int, halfLife: real)
    ensures DomainsMean(DomainMap(host, medium, now, halfLife), host, medium, now, halfLife)
  {
    var domains := DomainMap(host, medium, now, halfLife);
    forall d | d in domains ensures CompetenceMeans(domains[d], host, medium, d, now, halfLife) {
      CompetenceIs(host, medium, d, now, halfLife);
    }
  }

  /** What computeSnapshot answers. */
  ghost predicate SnapshotMeans(snapshot: Snapshot, s: Signals, host: Host, log: seq<Evidence>, passport: Passport,
                                previous: Option<Previous>, penalties: Penalties, now: int)
  {
    var medium := Newest(log, 100);
    && snapshot.version == (match previous case Some(p) => p.version + 1 case None => 1)
    && snapshot.lastEventAt == (if log == [] then passport.createdAt else log[0].at)
    && snapshot.graph == s.graph
    && snapshot.taskValue == Round4(s.taskValue)
    && VectorMeans(snapshot.vector, s)
    && CountsFrom(snapshot.counts, snapshot.vector.quarantineCount, medium)
    && DomainsMean(snapshot.vector.domainCompetence, host, medium, now, penalties.halfLifeHours)
  }

  lemma SnapshotOfMeans(snapshot: Snapshot, s: Signals, host: Host, log: seq<Evidence>, passport: Passport,
                        previous: Option<Previous>, penalties: Penalties, now: int, medium: seq<Evidence>,
                        domains: map<Str, real>)
    requires medium == Newest(log, 100) && domains == DomainMap(host, medium, now, penalties.halfLifeHours)
    requires snapshot == SnapshotOf(s, medium, domains, (if previous.Some? then previous.value.version else 0) + 1,
                                    if log == [] then passport.createdAt else log[0].at)
    ensures SnapshotMeans(snapshot, s, host, log, passport, previous, penalties, now)
  {
    WindowCounts(medium);
    VectorIs(s, domains, QuarantineSignals(medium));
    DomainsAre(host, medium, now, penalties.halfLifeHours);
  }

  lemma SnapshotOfLog(host: Host, evidences: seq<Evidence>, passport: Passport, others: map<Str, Passport>,
                      previous: Option<Previous>, minimumDiversity: int, penalties: Penalties, now: int,
                      log: seq<Evidence>, medium: seq<Evidence>, s: Signals, domains: map<Str, real>)
    requires log == Ordered(host, evidences) && medium == Newest(log, 100)
    requires s == ComputeSignals(host, log, passport, others, previous, minimumDiversity, penalties, now)
    requires domains == DomainMap(host, medium, now, penalties.halfLifeHours)
    ensures ComputeSnapshot(host, evidences, passport, others, previous, minimumDiversity, penalties, now)
         == SnapshotOf(s, medium, domains, (if previous.Some? then previous.value.version else 0) + 1,
                       if log == [] then passport.createdAt else log[0].at)
  {
    WindowIs(log, 100);
  }

  /** The stored snapshot of a log, arrived in any order: with the log newest first, every part of it is what the
      newest hundred and the newest twenty say. */
  lemma ComputedSnapshotMeans(host: Host, evidences: seq<Evidence>, passport: Passport, others: map<Str, Passport>,
                              previous: Option<Previous>, minimumDiversity: int, penalties: Penalties, now: int)
    returns (log: seq<Evidence>, s: Signals)
    requires G.Collation(host.collate)
    ensures P.NewerFirst(host.collate, log) && multiset(log) == multiset(evidences)
    ensures SignalsMean(s, host, log, passport, others, previous, minimumDiversity, penalties, now)
    ensures SnapshotMeans(ComputeSnapshot(host, evidences, passport, others, previous, minimumDiversity, penalties,
                                          now), s, host, log, passport, previous, penalties, now)
  {
    log := Ordered(host, evidences);
    s := ComputeSignals(host, log, passport, others, previous, minimumDiversity, penalties, now);
    P.OrderedIsNewerFirst(host, evidences);
    SignalsAre(host, log, passport, others, previous, minimumDiversity, penalties, now);
    StoredMeans(host, evidences, passport, others, previous, minimumDiversity, penalties, now, log, s,
                ComputeSnapshot(host, evidences, passport, others, previous, minimumDiversity, penalties, now));
  }

  lemma StoredMeans(host: Host, evidences: seq<Evidence>, passport: Passport, others: map<Str, Passport>,
                    previous: Option<Previous>, minimumDiversity: int, penalties: Penalties, now: int,
                    log: seq<Evidence>, s: Signals, snapshot: Snapshot)
    requires log == Ordered(host, evidences)
    requires s == ComputeSignals(host, log, passport, others, previous, minimumDiversity, penalties, now)
    requires snapshot == ComputeSnapshot(host, evidences, passport, others, previous, minimumDiversity, penalties, now)
    ensures SnapshotMeans(snapshot, s, host, log, passport, previous, penalties, now)
  {
    var medium := Newest(log, 100);
    var domains := DomainMap(host, medium, now, penalties.halfLifeHours);
    SnapshotOfLog(host, evidences, passport, others, previous, minimumDiversity, penalties, now, log, medium, s,
                  domains);
    SnapshotOfMeans(snapshot, s, host, log, passport, previous, penalties, now, medium, domains);
  }
}
