/** selectValidators: which candidates are eligible, the best of them, and whether they meet the quorum. */
module Quorum {
  import opened Utf16
  import opened JsonParser
  import opened TrustStore
  import opened Rounding
  import Ordering
  import Platform
  import K = Credentials
  import R = Resolution
  import M = ResolutionMeaning
  import Effects
  import G = ValidatorGraph

  // ---------------------------------------------------------------- the quorum policy

  datatype QuorumInput = QuorumInput(requiredCount: Option<int>, consensusThreshold: Option<real>)

  datatype QuorumPolicy = QuorumPolicy(requiredCount: int, consensusThreshold: real)

  /** What the request asks for, or else the policy, or else a default. */
  function Asked<T>(request: Option<T>, policy: Option<T>, default: T): T
  {
    if request.Some? then request.value else if policy.Some? then policy.value else default
  }

  /** normalizeQuorumPolicy; `||` also replaces a zero. */
  function NormalizeQuorumPolicy(input: QuorumInput, minimumCount: Option<int>, policyThreshold: Option<real>)
    : (q: QuorumPolicy)
    ensures q.requiredCount >= 1 && 0.0 <= q.consensusThreshold <= 1.0
    ensures Asked(input.requiredCount, minimumCount, 1) >= 1 ==>
              q.requiredCount == Asked(input.requiredCount, minimumCount, 1)
    ensures Asked(input.requiredCount, minimumCount, 1) < 1 ==> q.requiredCount == 1
    ensures var asked := Asked(input.consensusThreshold, policyThreshold, 0.67);
            && (0.0 < asked <= 1.0 ==> q.consensusThreshold == asked)
            && (asked == 0.0 ==> q.consensusThreshold == 0.67)
            && (asked < 0.0 ==> q.consensusThreshold == 0.0) && (asked > 1.0 ==> q.consensusThreshold == 1.0)
  {
    var count :=
      match input.requiredCount
      case Some(n) => n
      case None => match minimumCount case Some(n) => n case None => 1;
    var threshold :=
      match input.consensusThreshold
      case Some(x) => x
      case None => match policyThreshold case Some(x) => x case None => 0.67;
    var count' := if count == 0 then 1 else count;
    QuorumPolicy(if count' < 1 then 1 else count', Clamp(0.0, if threshold == 0.0 then 0.67 else threshold, 1.0))
  }

  /** A threshold between 0 and 1 that a caller asks for is used exactly when it is not 0. */
  lemma ThresholdKept(input: QuorumInput, minimumCount: Option<int>, policyThreshold: Option<real>)
    requires input.consensusThreshold.Some? && 0.0 <= input.consensusThreshold.value <= 1.0
    ensures NormalizeQuorumPolicy(input, minimumCount, policyThreshold).consensusThreshold
            == input.consensusThreshold.value
            <==> input.consensusThreshold.value != 0.0
    ensures input.consensusThreshold.value == 0.0 ==>
            NormalizeQuorumPolicy(input, minimumCount, policyThreshold).consensusThreshold == 0.67
  {
  }

  // ---------------------------------------------------------------- judging candidates

  datatype Entry = Entry(subjectId: Str, selectionScore: real)

  datatype Reason = NotValidatorCapable | SharedCluster | BelowThreshold | UnknownCandidate | CandidateBlocked

  datatype Rejection = Rejection(subjectId: Str, why: Reason)

  datatype Verdict = Eligible(entry: Entry) | Ineligible(rejection: Rejection)

  /** What a routing decision is made for; `density` reads a snapshot's closed_cluster_density. */
  datatype Routing = Routing(
    env: Env, subject: SnapshotRow, context: R.Context, policy: R.Policy,
    density: SnapshotRow -> R.Reading)

  // validation
  const VALIDATION: Str := [0x76, 0x61, 0x6C, 0x69, 0x64, 0x61, 0x74, 0x69, 0x6F, 0x6E]

  /** The passport lists the validation capability. */
  predicate Capable(db: Db, p: Passport)
  {
    exists c | c in K.CapabilitiesOf(db.credentials.capabilities, p.passportId) :: c.name == VALIDATION
  }

  function Apart(a: real, b: real): real
  {
    if a < b then b - a else a - b
  }

  predicate InSharedCluster(rt: Routing, snapshot: SnapshotRow)
  {
    var near := Apart(R.Or(rt.density(snapshot), 0.0), R.Or(rt.density(rt.subject), 0.0)) < 0.1;
    var risk := snapshot.vector.collusionRisk;
    (risk.Some? && risk.value >= 0.55) || (near && risk.Some? && risk.value > 0.4)
  }

  function SelectionScore(rt: Routing, snapshot: SnapshotRow): (r: real)
    ensures 0.0 <= r <= 1.0
  {
    var computed := R.ComputeResolution(snapshot.vector, snapshot.counts, rt.context, rt.policy, rt.env.config);
    var latency := 1.0 - Clamp(0.0, R.Or(snapshot.vector.executionReliability, 0.0) * 0.2, 1.0);
    var fit := Clamp(0.0, 0.55 * (computed.score as real / 100.0) + 0.25 * ValidatorFit(snapshot.vector, rt.context)
                          + 0.1 * computed.confidence + 0.1 * (1.0 - latency), 1.0);
    RoundPercent(fit);
    Round(fit * 100.0) as real / 100.0
  }

  function JudgeSnapshot(rt: Routing, candidate: Str, snapshot: SnapshotRow): Verdict
  {
    var computed := R.ComputeResolution(snapshot.vector, snapshot.counts, rt.context, rt.policy, rt.env.config);
    if InSharedCluster(rt, snapshot) then Ineligible(Rejection(candidate, SharedCluster))
    else if !R.ValidationEligible(computed.band, rt.context, rt.policy)
      then Ineligible(Rejection(candidate, BelowThreshold))
    else Eligible(Entry(candidate, SelectionScore(rt, snapshot)))
  }

  function Blocked(candidate: Str, error: Error): Verdict
  {
    Ineligible(Rejection(candidate, if error == UnknownSubject then UnknownCandidate else CandidateBlocked))
  }

  /** One round of the candidate loop, which may compute a missing snapshot. */
  function Judge(rt: Routing, db: Db, candidate: Str, now: Str): (Db, Verdict)
  {
    match EnsureSubject(db, candidate)
    case Err(e) => (db, Blocked(candidate, e))
    case Ok(passport) =>
      if passport.subjectType != ValidatorSubject && !Capable(db, passport) then
        (db, Ineligible(Rejection(candidate, NotValidatorCapable)))
      else
        var (db', row) := SnapshotFor(rt.env, db, candidate, now);
        match row
        case Err(e) => (db', Blocked(candidate, e))
        case Ok(snapshot) => (db', JudgeSnapshot(rt, candidate, snapshot))
  }

  function JudgeAll(rt: Routing, db: Db, candidates: seq<Str>, now: Str): (Db, seq<Verdict>)
  {
    if candidates == [] then (db, [])
    else
      var (db1, before) := JudgeAll(rt, db, candidates[..|candidates| - 1], now);
      var (db2, verdict) := Judge(rt, db1, candidates[|candidates| - 1], now);
      (db2, before + [verdict])
  }

  function Entries(verdicts: seq<Verdict>): seq<Entry>
  {
    if verdicts == [] then []
    else
      var last := verdicts[|verdicts| - 1];
      Entries(verdicts[..|verdicts| - 1]) + if last.Eligible? then [last.entry] else []
  }

  function Rejections(verdicts: seq<Verdict>): seq<Rejection>
  {
    if verdicts == [] then []
    else
      var last := verdicts[|verdicts| - 1];
      Rejections(verdicts[..|verdicts| - 1]) + if last.Ineligible? then [last.rejection] else []
  }

  function EntryIds(es: seq<Entry>): (r: seq<Str>)
    ensures |r| == |es| && forall i | 0 <= i < |r| :: r[i] == es[i].subjectId
  {
    seq(|es|, i requires 0 <= i < |es| => es[i].subjectId)
  }

  function RejectedIds(rs: seq<Rejection>): (r: seq<Str>)
    ensures |r| == |rs| && forall i | 0 <= i < |r| :: r[i] == rs[i].subjectId
  {
    seq(|rs|, i requires 0 <= i < |rs| => rs[i].subjectId)
  }

  function NameOf(v: Verdict): Str
  {
    if v.Eligible? then v.entry.subjectId else v.rejection.subjectId
  }

  lemma JudgeNames(rt: Routing, db: Db, candidate: Str, now: Str)
    ensures NameOf(Judge(rt, db, candidate, now).1) == candidate
  {
  }

  /** One verdict per candidate occurrence. */
  lemma {:induction false} JudgeAllNames(rt: Routing, db: Db, candidates: seq<Str>, now: Str)
    ensures var vs := JudgeAll(rt, db, candidates, now).1;
            |vs| == |candidates| && forall i | 0 <= i < |vs| :: NameOf(vs[i]) == candidates[i]
  {
    if candidates != [] {
      var front := candidates[..|candidates| - 1];
      JudgeAllNames(rt, db, front, now);
      JudgeNames(rt, JudgeAll(rt, db, front, now).0, candidates[|candidates| - 1], now);
    }
  }

  lemma OneList(vs: seq<Verdict>, v: Verdict)
    ensures EntryIds(Entries(vs + [v])) == EntryIds(Entries(vs)) + if v.Eligible? then [NameOf(v)] else []
    ensures RejectedIds(Rejections(vs + [v])) == RejectedIds(Rejections(vs)) + if v.Eligible? then [] else [NameOf(v)]
  {
    assert (vs + [v])[..|vs|] == vs;
  }

  lemma {:induction false} VerdictsPartitioned(vs: seq<Verdict>, names: seq<Str>)
    requires |vs| == |names| && forall i | 0 <= i < |vs| :: NameOf(vs[i]) == names[i]
    ensures multiset(EntryIds(Entries(vs))) + multiset(RejectedIds(Rejections(vs))) == multiset(names)
  {
    if vs != [] {
      var n := |vs| - 1;
      VerdictsPartitioned(vs[..n], names[..n]);
      assert names == names[..n] + [names[n]];
      OneList(vs[..n], vs[n]);
      assert vs == vs[..n] + [vs[n]];
    }
  }

  /** Every candidate occurrence ends up in exactly one of the two lists. */
  lemma CandidatesPartitioned(rt: Routing, db: Db, candidates: seq<Str>, now: Str)
    ensures var vs := JudgeAll(rt, db, candidates, now).1;
            && |vs| == |candidates|
            && multiset(EntryIds(Entries(vs))) + multiset(RejectedIds(Rejections(vs))) == multiset(candidates)
  {
    JudgeAllNames(rt, db, candidates, now);
    VerdictsPartitioned(JudgeAll(rt, db, candidates, now).1, candidates);
  }

  // ---------------------------------------------------------------- who is eligible

  /** A validator, or a subject that lists the validation capability. */
  ghost predicate CanValidate(db: Db, p: Passport)
  {
    || p.subjectType.ValidatorSubject?
    || exists i | 0 <= i < |K.CapabilitiesOf(db.credentials.capabilities, p.passportId)| ::
         K.CapabilitiesOf(db.credentials.capabilities, p.passportId)[i].name == VALIDATION
  }

  /** A collusion risk from 0.55 on, or above 0.4 at a cluster density within 0.1 of the subject's. */
  predicate Colludes(rt: Routing, snapshot: SnapshotRow)
  {
    match snapshot.vector.collusionRisk
    case None => false
    case Some(risk) =>
      var gap := M.Read(rt.density(snapshot), 0.0) - M.Read(rt.density(rt.subject), 0.0);
      risk >= 0.55 || (risk > 0.4 && -0.1 < gap < 0.1)
  }

  /** The band reaches the rule's minimum for validation. */
  ghost predicate Reaches(rt: Routing, snapshot: SnapshotRow)
  {
    M.AtLeast(R.ComputeResolution(snapshot.vector, snapshot.counts, rt.context, rt.policy, rt.env.config).band,
              M.RuleOf(rt.policy, rt.context.risk).minimumForValidation)
  }

  /** The score: 0.55 of the trust score, a quarter of the competence in the domain, 0.2 where there is none, and a
      tenth each of the confidence and of a fifth of the execution reliability, to two decimals. */
  ghost predicate Scores(rt: Routing, snapshot: SnapshotRow, score: real)
  {
    var c := R.ComputeResolution(snapshot.vector, snapshot.counts, rt.context, rt.policy, rt.env.config);
    var competence :=
      match rt.context.domain
      case None => 0.2
      case Some(d) =>
        if d in snapshot.vector.domainCompetence.Keys then snapshot.vector.domainCompetence[d] else 0.2;
    var swift := Clamp(0.0, 0.2 * M.Read(snapshot.vector.executionReliability, 0.0), 1.0);
    score == Round(100.0 * Clamp(0.0, 0.0055 * c.score as real + 0.25 * competence + 0.1 * c.confidence + 0.1 * swift,
                                 1.0)) as real / 100.0
  }

  /** A candidate is eligible exactly when it is active, can validate, does not collude and reaches the band; a
      rejection names the first of these that fails. */
  ghost predicate Judged(rt: Routing, db: Db, snapshots: map<Str, SnapshotRow>, candidate: Str, v: Verdict)
  {
    var subject := EnsureSubject(db, candidate);
    var can := subject.Ok? && CanValidate(db, subject.value);
    && NameOf(v) == candidate && (can ==> candidate in snapshots)
    && (v.Eligible? <==> can && !Colludes(rt, snapshots[candidate]) && Reaches(rt, snapshots[candidate]))
    && (v.Eligible? ==> Scores(rt, snapshots[candidate], v.entry.selectionScore))
    && (v.Ineligible? ==>
          v.rejection.why == if subject == Err(UnknownSubject) then UnknownCandidate
                             else if subject.Err? then CandidateBlocked
                             else if !can then NotValidatorCapable
                             else if Colludes(rt, snapshots[candidate]) then SharedCluster
                             else BelowThreshold)
  }

  lemma SnapshotIsJudged(rt: Routing, candidate: Str, snapshot: SnapshotRow)
    ensures var v := JudgeSnapshot(rt, candidate, snapshot);
            && NameOf(v) == candidate
            && (v.Eligible? <==> !Colludes(rt, snapshot) && Reaches(rt, snapshot))
            && (v.Eligible? ==> Scores(rt, snapshot, v.entry.selectionScore))
            && (v.Ineligible? ==> v.rejection.why == if Colludes(rt, snapshot) then SharedCluster else BelowThreshold)
  {
    M.ValidatesIff(R.ComputeResolution(snapshot.vector, snapshot.counts, rt.context, rt.policy, rt.env.config).band,
                   rt.context, rt.policy);
    ScoreIs(rt, snapshot);
    assert InSharedCluster(rt, snapshot) == Colludes(rt, snapshot);
  }

  lemma ScoreIs(rt: Routing, snapshot: SnapshotRow)
    ensures Scores(rt, snapshot, SelectionScore(rt, snapshot))
  {
  }

  /** Only snapshots are added. */
  ghost predicate Extends(db: Db, db': Db)
  {
    && db' == db.(snapshots := db'.snapshots)
    && forall s | s in db.snapshots :: s in db'.snapshots && db'.snapshots[s] == db.snapshots[s]
  }

  lemma CandidateIsJudged(rt: Routing, db: Db, candidate: Str, now: Str)
    ensures var (db', v) := Judge(rt, db, candidate, now);
            Extends(db, db') && Judged(rt, db, db'.snapshots, candidate, v)
  {
    var subject := EnsureSubject(db, candidate);
    if subject.Ok? && CanValidate(db, subject.value) {
      Effects.SnapshotGrows(rt.env, db, candidate, now);
      var (db', row) := SnapshotFor(rt.env, db, candidate, now);
      SnapshotIsJudged(rt, candidate, row.value);
    }
  }

  lemma JudgedStays(rt: Routing, db: Db, db1: Db, db2: Db, candidate: Str, v: Verdict)
    requires Extends(db, db1) && Extends(db1, db2) && Judged(rt, db, db1.snapshots, candidate, v)
    ensures Judged(rt, db, db2.snapshots, candidate, v)
  {
  }

  lemma JudgedEarlier(rt: Routing, db: Db, db1: Db, snapshots: map<Str, SnapshotRow>, candidate: Str, v: Verdict)
    requires Extends(db, db1) && Judged(rt, db1, snapshots, candidate, v)
    ensures Judged(rt, db, snapshots, candidate, v)
  {
    assert EnsureSubject(db1, candidate) == EnsureSubject(db, candidate);
  }

  /** Every candidate is judged by the snapshots there are in the end. */
  ghost predicate AllJudged(rt: Routing, db: Db, db': Db, candidates: seq<Str>, verdicts: seq<Verdict>)
  {
    && Extends(db, db') && |verdicts| == |candidates|
    && forall i | 0 <= i < |candidates| :: Judged(rt, db, db'.snapshots, candidates[i], verdicts[i])
  }

  lemma {:induction false} CandidatesAreJudged(rt: Routing, db: Db, candidates: seq<Str>, now: Str)
    ensures var (db', verdicts) := JudgeAll(rt, db, candidates, now);
            AllJudged(rt, db, db', candidates, verdicts)
  {
    if candidates != [] {
      var n := |candidates| - 1;
      var (db1, before) := JudgeAll(rt, db, candidates[..n], now);
      var (db2, v) := Judge(rt, db1, candidates[n], now);
      CandidatesAreJudged(rt, db, candidates[..n], now);
      CandidateIsJudged(rt, db1, candidates[n], now);
      JudgedEarlier(rt, db, db1, db2.snapshots, candidates[n], v);
      forall i | 0 <= i < n ensures Judged(rt, db, db2.snapshots, candidates[i], before[i]) {
        assert candidates[..n][i] == candidates[i];
        JudgedStays(rt, db, db1, db2, candidates[i], before[i]);
      }
      ExtendsTwice(db, db1, db2);
    }
  }

  lemma ExtendsTwice(db: Db, db1: Db, db2: Db)
    requires Extends(db, db1) && Extends(db1, db2)
    ensures Extends(db, db2)
  {
  }

  // ---------------------------------------------------------------- choosing the best

  function BetterScore(collate: (Str, Str) -> int): (Entry, Entry) -> bool
  {
    (a: Entry, b: Entry) =>
      a.selectionScore > b.selectionScore
      || (a.selectionScore == b.selectionScore && collate(a.subjectId, b.subjectId) < 0)
  }

  function Total(es: seq<Entry>): real
  {
    if es == [] then 0.0 else es[0].selectionScore + Total(es[1..])
  }

  function Average(es: seq<Entry>): real
  {
    if es == [] then 0.0 else Total(es) / |es| as real
  }

  /** How far the scores lie above m, all together. */
  function Excess(es: seq<Entry>, m: real): real
  {
    if es == [] then 0.0 else (es[0].selectionScore - m) + Excess(es[1..], m)
  }

  lemma {:induction false} ExcessIs(es: seq<Entry>, m: real)
    ensures Excess(es, m) == Total(es) - |es| as real * m
  {
    if es != [] {
      ExcessIs(es[1..], m);
      assert |es| as real == |es[1..]| as real + 1.0;
      Spread(|es[1..]| as real, m);
    }
  }

  lemma Spread(n: real, m: real)
    ensures (n + 1.0) * m == n * m + m
  {
  }

  /** The average is the value the scores lie above and below by the same amount. */
  lemma AverageBalances(es: seq<Entry>)
    ensures es != [] ==> Excess(es, Average(es)) == 0.0
    ensures es == [] ==> Average(es) == 0.0
  {
    ExcessIs(es, Average(es));
  }

  /** The first required_count of the eligible candidates, best first. */
  function Best(collate: (Str, Str) -> int, eligible: seq<Entry>, requiredCount: int): seq<Entry>
    requires requiredCount >= 1
  {
    var sorted := Ordering.Sort(BetterScore(collate), eligible);
    if requiredCount < |sorted| then sorted[..requiredCount] else sorted
  }

  predicate Satisfied(best: seq<Entry>, q: QuorumPolicy)
  {
    |best| >= q.requiredCount && Average(best) >= q.consensusThreshold
  }

  lemma BetterScoreIsOrder(collate: (Str, Str) -> int)
    requires G.Collation(collate)
    ensures Ordering.WeakOrder(BetterScore(collate))
  {
    var lt := (x: Str, y: Str) => collate(x, y) < 0;
    var less := BetterScore(collate);
    forall x, y, z | less(x, y) && less(y, z) ensures less(x, z) {
      assert lt(x.subjectId, y.subjectId) && lt(y.subjectId, z.subjectId) ==> lt(x.subjectId, z.subjectId);
    }
    forall x, y, z | less(x, z) ensures less(x, y) || less(y, z) {
      assert lt(x.subjectId, z.subjectId) ==> lt(x.subjectId, y.subjectId) || lt(y.subjectId, z.subjectId);
    }
    forall x ensures !less(x, x) {
      assert !lt(x.subjectId, x.subjectId);
    }
  }

  ghost predicate Descending(es: seq<Entry>)
  {
    forall i, j | 0 <= i < j < |es| :: es[i].selectionScore >= es[j].selectionScore
  }

  lemma {:induction false} TotalRemoved(es: seq<Entry>, i: nat)
    requires i < |es|
    ensures Total(es) == es[i].selectionScore + Total(Ordering.RemoveAt(es, i))
  {
    if i > 0 {
      var rest := Ordering.RemoveAt(es, i);
      assert rest[1..] == Ordering.RemoveAt(es[1..], i - 1);
      TotalRemoved(es[1..], i - 1);
    } else {
      assert Ordering.RemoveAt(es, 0) == es[1..];
    }
  }

  /** Some element of a pick can be traded for the first of a descending list. */
  lemma Tradable(sorted: seq<Entry>, pick: seq<Entry>) returns (i: nat)
    requires Descending(sorted) && multiset(pick) <= multiset(sorted) && pick != [] && sorted != []
    ensures i < |pick| && pick[i].selectionScore <= sorted[0].selectionScore
    ensures multiset(Ordering.RemoveAt(pick, i)) <= multiset(sorted[1..])
  {
    i := 0;
    if sorted[0] in pick {
      i :| 0 <= i < |pick| && pick[i] == sorted[0];
    }
    Ordering.TailMultiset(sorted);
    assert pick[i] in multiset(sorted);
    assert multiset(pick)[sorted[0]] <= multiset(sorted)[sorted[0]];
  }

  /** Of all ways to pick that many, the front of a descending list has the largest total. */
  lemma {:induction false} FrontIsLargest(sorted: seq<Entry>, pick: seq<Entry>)
    requires Descending(sorted) && multiset(pick) <= multiset(sorted) && |pick| <= |sorted|
    ensures Total(pick) <= Total(sorted[..|pick|])
  {
    if pick != [] {
      var i := Tradable(sorted, pick);
      FrontIsLargest(sorted[1..], Ordering.RemoveAt(pick, i));
      TotalRemoved(pick, i);
      assert sorted[..|pick|][1..] == sorted[1..][..|pick| - 1];
    }
  }

  lemma SortedDescending(collate: (Str, Str) -> int, eligible: seq<Entry>)
    requires G.Collation(collate)
    ensures Descending(Ordering.Sort(BetterScore(collate), eligible))
  {
    BetterScoreIsOrder(collate);
    Ordering.SortSorted(BetterScore(collate), eligible);
  }

  lemma PickIsBounded(eligible: seq<Entry>, pick: seq<Entry>)
    requires multiset(pick) <= multiset(eligible)
    ensures |pick| <= |eligible|
  {
    assert |multiset(eligible)| == |multiset(pick)| + |multiset(eligible) - multiset(pick)|;
  }

  lemma AverageMonotone(a: seq<Entry>, b: seq<Entry>)
    requires |a| == |b| && Total(a) <= Total(b)
    ensures Average(a) <= Average(b)
  {
    if a != [] {
      var n := |a| as real;
      assert Total(b) / n - Total(a) / n == (Total(b) - Total(a)) / n;
    }
  }

  /** The best are a choice of eligible entries, and no choice of as many has a larger mean. */
  lemma BestHasLargestMean(collate: (Str, Str) -> int, eligible: seq<Entry>, k: int, pick: seq<Entry>)
    requires G.Collation(collate) && k >= 1
    ensures var best := Best(collate, eligible, k);
            && |best| == (if k < |eligible| then k else |eligible|) && multiset(best) <= multiset(eligible)
            && (multiset(pick) <= multiset(eligible) && |pick| == |best| ==> Average(pick) <= Average(best))
  {
    var sorted := Ordering.Sort(BetterScore(collate), eligible);
    var best := Best(collate, eligible, k);
    assert sorted == sorted[..|best|] + sorted[|best|..];
    if multiset(pick) <= multiset(eligible) && |pick| == |best| {
      SortedDescending(collate, eligible);
      FrontIsLargest(sorted, pick);
      assert sorted[..|best|] == best;
      AverageMonotone(pick, best);
    }
  }

  /** Quorum optimality: the quorum is satisfied exactly when some required_count eligible candidates
      reach the consensus threshold. */
  lemma QuorumOptimal(collate: (Str, Str) -> int, eligible: seq<Entry>, q: QuorumPolicy)
    requires G.Collation(collate) && q.requiredCount >= 1
    ensures Satisfied(Best(collate, eligible, q.requiredCount), q)
            <==> exists pick: seq<Entry> ::
                   |pick| == q.requiredCount && multiset(pick) <= multiset(eligible)
                   && Average(pick) >= q.consensusThreshold
  {
    var best := Best(collate, eligible, q.requiredCount);
    BestHasLargestMean(collate, eligible, q.requiredCount, best);
    forall pick: seq<Entry> | |pick| == q.requiredCount && multiset(pick) <= multiset(eligible)
      && Average(pick) >= q.consensusThreshold
      ensures Satisfied(best, q)
    {
      PickIsBounded(eligible, pick);
      BestHasLargestMean(collate, eligible, q.requiredCount, pick);
    }
  }

  // ---------------------------------------------------------------- the method

  datatype Selection = Selection(best: seq<Entry>, rejected: seq<Rejection>, satisfied: bool)

  lemma JudgeNext(rt: Routing, db: Db, candidates: seq<Str>, i: nat, now: Str)
    requires i < |candidates|
    ensures var (db1, before) := JudgeAll(rt, db, candidates[..i], now);
            var (db2, verdict) := Judge(rt, db1, candidates[i], now);
            && JudgeAll(rt, db, candidates[..i + 1], now) == (db2, before + [verdict])
            && Entries(before + [verdict]) == Entries(before) + (if verdict.Eligible? then [verdict.entry] else [])
            && Rejections(before + [verdict])
              == Rejections(before) + (if verdict.Ineligible? then [verdict.rejection] else [])
  {
    assert candidates[..i + 1][..i] == candidates[..i];
    var (db1, before) := JudgeAll(rt, db, candidates[..i], now);
    var verdict := Judge(rt, db1, candidates[i], now).1;
    assert (before + [verdict])[..|before|] == before;
  }

  /** The body of the candidate loop. */
  method JudgeCandidate(platform: Platform.TrustPlatform, rt: Routing, candidate: Str, now: Str)
    returns (verdict: Verdict)
    requires platform.env == rt.env
    modifies platform`app
    ensures (platform.app, verdict) == Judge(rt, old(platform.app), candidate, now)
    ensures Extends(old(platform.app), platform.app)
    ensures Judged(rt, old(platform.app), platform.app.snapshots, candidate, verdict)
    ensures old(platform.Valid()) ==> platform.Valid()
  {
    CandidateIsJudged(rt, platform.app, candidate, now);
    var passport := EnsureSubject(platform.app, candidate);
    if passport.Err? {
      return Blocked(candidate, passport.error);
    }
    if passport.value.subjectType != ValidatorSubject && !Capable(platform.app, passport.value) {
      return Ineligible(Rejection(candidate, NotValidatorCapable));
    }
    var snapshot := platform.SnapshotOrRecompute(candidate, now);
    if snapshot.Err? {
      return Blocked(candidate, snapshot.error);
    }
    return JudgeSnapshot(rt, candidate, snapshot.value);
  }

  /** The candidate loop of selectValidators, the sort, the choice and the quorum. */
  method ChooseValidators(platform: Platform.TrustPlatform, rt: Routing, q: QuorumPolicy, candidates: seq<Str>,
                          now: Str)
    returns (r: Selection)
    requires platform.env == rt.env && q.requiredCount >= 1
    modifies platform`app
    ensures var (db, verdicts) := JudgeAll(rt, old(platform.app), candidates, now);
            var best := Best(rt.env.collate, Entries(verdicts), q.requiredCount);
            platform.app == db && r == Selection(best, Rejections(verdicts), Satisfied(best, q))
    ensures old(platform.Valid()) ==> platform.Valid()
  {
    var selected: seq<Entry>, rejected: seq<Rejection> := [], [];
    var i := 0;
    while i < |candidates|
      invariant 0 <= i <= |candidates|
      invariant old(platform.Valid()) ==> platform.Valid()
      invariant platform.app == JudgeAll(rt, old(platform.app), candidates[..i], now).0
      invariant selected == Entries(JudgeAll(rt, old(platform.app), candidates[..i], now).1)
      invariant rejected == Rejections(JudgeAll(rt, old(platform.app), candidates[..i], now).1)
    {
      JudgeNext(rt, old(platform.app), candidates, i, now);
      var verdict := JudgeCandidate(platform, rt, candidates[i], now);
      match verdict {
        case Eligible(entry) => selected := selected + [entry];
        case Ineligible(rejection) => rejected := rejected + [rejection];
      }
      i := i + 1;
    }
    assert candidates[..i] == candidates;
    var sorted := Ordering.Sort(BetterScore(rt.env.collate), selected);
    var best := if q.requiredCount < |sorted| then sorted[..q.requiredCount] else sorted;
    return Selection(best, rejected, |best| >= q.requiredCount && Average(best) >= q.consensusThreshold);
  }

  datatype RoutingInput = RoutingInput(
    subjectId: Str, context: R.Context, policyId: Option<Str>, policyVersion: Option<Str>,
    quorum: QuorumInput, minimumCount: Option<int>, candidates: seq<Str>)

  /** How the parts that only routing reads are read: a snapshot's closed_cluster_density and a policy's
      default_quorum_consensus_threshold. */
  datatype Readings = Readings(density: SnapshotRow -> R.Reading, threshold: R.Policy -> Option<real>)

  function RoutingOf(env: Env, readings: Readings, input: RoutingInput, subject: SnapshotRow): Routing
  {
    var policy := GetPolicy(env, OrElse(input.policyId, env.defaultPolicy.id),
                            OrElse(input.policyVersion, env.defaultPolicy.version));
    Routing(env, subject, input.context, policy, readings.density)
  }

  /** The choice is made for the subject's snapshot under the policy asked for, the built-in one by default. */
  ghost predicate RoutesUnder(env: Env, readings: Readings, input: RoutingInput, subject: SnapshotRow, rt: Routing)
  {
    var id := Asked(input.policyId, None, env.defaultPolicy.id);
    var version := Asked(input.policyVersion, None, env.defaultPolicy.version);
    && rt.env == env && rt.subject == subject && rt.context == input.context && rt.density == readings.density
    && rt.policy == if (id, version) in env.policies.Keys then env.policies[(id, version)] else env.defaultPolicy
  }

  function QuorumOf(readings: Readings, input: RoutingInput, rt: Routing): (q: QuorumPolicy)
    ensures q.requiredCount >= 1
  {
    NormalizeQuorumPolicy(input.quorum, input.minimumCount, readings.threshold(rt.policy))
  }

  /** Best first, by score and then by name, and none left out that is better than one chosen. */
  ghost predicate BestFirst(collate: (Str, Str) -> int, best: seq<Entry>, eligible: seq<Entry>)
  {
    && multiset(best) <= multiset(eligible)
    && (forall i, j | 0 <= i < j < |best| :: !Outranks(collate, best[j], best[i]))
    && forall a, b | multiset(best)[a] < multiset(eligible)[a] && b in best :: !Outranks(collate, a, b)
  }

  predicate Outranks(collate: (Str, Str) -> int, a: Entry, b: Entry)
  {
    || a.selectionScore > b.selectionScore
    || (a.selectionScore == b.selectionScore && collate(a.subjectId, b.subjectId) < 0)
  }

  lemma BestIsFirst(collate: (Str, Str) -> int, eligible: seq<Entry>, k: int)
    requires G.Collation(collate) && k >= 1
    ensures BestFirst(collate, Best(collate, eligible, k), eligible)
  {
    var less := BetterScore(collate);
    var sorted := Ordering.Sort(less, eligible);
    BetterScoreIsOrder(collate);
    Ordering.SortSorted(less, eligible);
    var n: nat := if k < |sorted| then k else |sorted|;
    assert sorted[..|sorted|] == sorted;
    Effects.FrontLeads(less, sorted, n);
    forall a, b ensures less(a, b) == Outranks(collate, a, b) {}
    LeadersOutrank(collate, less, sorted[..n], eligible);
  }

  lemma LeadersOutrank(collate: (Str, Str) -> int, less: (Entry, Entry) -> bool, best: seq<Entry>, all: seq<Entry>)
    requires forall a, b :: less(a, b) == Outranks(collate, a, b)
    requires multiset(best) <= multiset(all)
    requires forall i, j | 0 <= i < j < |best| :: !less(best[j], best[i])
    requires forall a, b | multiset(best)[a] < multiset(all)[a] && b in best :: !less(a, b)
    ensures BestFirst(collate, best, all)
  {
    forall i, j | 0 <= i < j < |best| ensures !Outranks(collate, best[j], best[i]) {
      assert !less(best[j], best[i]);
    }
    forall a, b | multiset(best)[a] < multiset(all)[a] && b in best ensures !Outranks(collate, a, b) {
      assert !less(a, b);
    }
  }

  /** What the choice amounts to, for the verdicts the candidates got. */
  ghost predicate Chosen(rt: Routing, q: QuorumPolicy, candidates: seq<Str>, verdicts: seq<Verdict>, r: Selection)
  {
    && multiset(EntryIds(Entries(verdicts))) + multiset(RejectedIds(r.rejected)) == multiset(candidates)
    && r.rejected == Rejections(verdicts) && BestFirst(rt.env.collate, r.best, Entries(verdicts))
    && |r.best| == (if |Entries(verdicts)| < q.requiredCount then |Entries(verdicts)| else q.requiredCount)
    && (r.satisfied <==> exists pick: seq<Entry> ::
          |pick| == q.requiredCount && multiset(pick) <= multiset(Entries(verdicts))
          && Average(pick) >= q.consensusThreshold)
  }

  lemma SelectionIsChosen(rt: Routing, db: Db, q: QuorumPolicy, candidates: seq<Str>, now: Str)
    requires G.Collation(rt.env.collate) && q.requiredCount >= 1
    ensures var verdicts := JudgeAll(rt, db, candidates, now).1;
            var best := Best(rt.env.collate, Entries(verdicts), q.requiredCount);
            Chosen(rt, q, candidates, verdicts, Selection(best, Rejections(verdicts), Satisfied(best, q)))
  {
    var verdicts := JudgeAll(rt, db, candidates, now).1;
    CandidatesPartitioned(rt, db, candidates, now);
    BestHasLargestMean(rt.env.collate, Entries(verdicts), q.requiredCount, []);
    BestIsFirst(rt.env.collate, Entries(verdicts), q.requiredCount);
    QuorumOptimal(rt.env.collate, Entries(verdicts), q);
  }

  /** selectValidators: an inactive subject is refused and nothing changes; for any other the choice is made
      against its snapshot, which is computed first when there is none. */
  method SelectValidators(platform: Platform.TrustPlatform, readings: Readings, input: RoutingInput, now: Str)
    returns (r: Result<Selection>)
    requires platform.Valid() && G.Collation(platform.env.collate)
    modifies platform`app
    ensures platform.Valid()
    ensures r.Ok? <==> EnsureSubject(old(platform.app), input.subjectId).Ok?
    ensures r.Err? ==> platform.app == old(platform.app)
    ensures r.Ok? ==>
              var (db, subject) := SnapshotFor(platform.env, old(platform.app), input.subjectId, now);
              var rt := RoutingOf(platform.env, readings, input, subject.value);
              var (db', verdicts) := JudgeAll(rt, db, input.candidates, now);
              platform.app == db' && Chosen(rt, QuorumOf(readings, input, rt), input.candidates, verdicts, r.value)
              && AllJudged(rt, db, db', input.candidates, verdicts)
              && RoutesUnder(platform.env, readings, input, subject.value, rt)
  {
    var passport := EnsureSubject(platform.app, input.subjectId);
    if passport.Err? {
      return Err(passport.error);
    }
    var subject := platform.SnapshotOrRecompute(input.subjectId, now);
    var rt := RoutingOf(platform.env, readings, input, subject.value);
    var q := QuorumOf(readings, input, rt);
    SelectionIsChosen(rt, platform.app, q, input.candidates, now);
    CandidatesAreJudged(rt, platform.app, input.candidates, now);
    var selection := ChooseValidators(platform, rt, q, input.candidates, now);
    return Ok(selection);
  }
}
