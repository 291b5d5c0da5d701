/** The engine's loops over mutable maps, buildDomainStats and adversarialSignals, against the closed
    forms that computeSnapshot is stated in. */
module SignalLoops {
  import opened Utf16
  import opened Rounding
  import opened Snapshot

  // ---------------------------------------------------------------- folds over one more element

  lemma {:induction false} FilterAppend<T>(p: T -> bool, s: seq<T>, x: T)
    ensures Filter(p, s + [x]) == Filter(p, s) + if p(x) then [x] else []
  {
    if s != [] {
      assert (s + [x])[1..] == s[1..] + [x];
      FilterAppend(p, s[1..], x);
    }
  }

  lemma {:induction false} FilterSame<T(!new)>(p: T -> bool, q: T -> bool, s: seq<T>)
    requires forall x :: p(x) == q(x)
    ensures Filter(p, s) == Filter(q, s)
  {
    if s != [] {
      FilterSame(p, q, s[1..]);
    }
  }

  lemma {:induction false} MapAppend<S, T>(f: S -> T, s: seq<S>, x: S)
    ensures Map(f, s + [x]) == Map(f, s) + [f(x)]
  {
    if s != [] {
      assert (s + [x])[1..] == s[1..] + [x];
      MapAppend(f, s[1..], x);
    }
  }

  lemma {:induction false} SumAppend<T>(f: T -> real, s: seq<T>, x: T)
    ensures Sum(f, s + [x]) == Sum(f, s) + f(x)
  {
    if s != [] {
      assert (s + [x])[1..] == s[1..] + [x];
      SumAppend(f, s[1..], x);
    } else {
      assert ([x])[1..] == [] && s + [x] == [x];
    }
  }

  lemma {:induction false} FreshestAppend(s: seq<Evidence>, x: Evidence, now: int)
    ensures FreshestHours(s + [x], now) == Min(FreshestHours(s, now), AgeHours(x.at, now))
  {
    if s != [] {
      assert (s + [x])[1..] == s[1..] + [x];
      FreshestAppend(s[1..], x, now);
    } else {
      assert s + [x] == [x] && [x][1..] == [];
    }
  }

  // ---------------------------------------------------------------- domains

  datatype Bucket = Bucket(total: nat, success: nat, validatedQuality: seq<real>, freshestHours: real)

  function Belongs(domain: Str): Evidence -> bool
  {
    (e: Evidence) => InDomain(e, domain)
  }

  function Completed(): Evidence -> bool
  {
    (e: Evidence) => IsCompleted(e)
  }

  function Quality(): Evidence -> real
  {
    (e: Evidence) => ValidatedQuality(e)
  }

  function BucketOf(events: seq<Evidence>, now: int): Bucket
  {
    Bucket(|events|, |Filter(Completed(), events)|, Map(Quality(), events), FreshestHours(events, now))
  }

  /** Per domain, the statistics of the events in it. */
  function DomainStats(evidences: seq<Evidence>, now: int): map<Str, Bucket>
  {
    map d | d in Domains(evidences) :: BucketOf(Filter(Belongs(d), evidences), now)
  }

  const NO_EVENTS: Bucket := Bucket(0, 0, [], 9999.0)

  /** The bucket with one more event. */
  function Added(b: Bucket, e: Evidence, now: int): Bucket
  {
    Bucket(b.total + 1, b.success + (if IsCompleted(e) then 1 else 0), b.validatedQuality + [ValidatedQuality(e)],
           Min(b.freshestHours, AgeHours(e.at, now)))
  }

  lemma BucketAppend(events: seq<Evidence>, e: Evidence, now: int)
    ensures BucketOf(events + [e], now) == Added(BucketOf(events, now), e, now)
  {
    FilterAppend(Completed(), events, e);
    MapAppend(Quality(), events, e);
    FreshestAppend(events, e, now);
  }

  lemma {:induction false} NoneBelong(evidences: seq<Evidence>, domain: Str)
    requires domain !in Domains(evidences)
    ensures Filter(Belongs(domain), evidences) == []
  {
    if evidences != [] {
      assert evidences[0] in evidences;
      forall d | d in Domains(evidences[1..]) ensures d in Domains(evidences) {
        var e :| e in evidences[1..] && e.domain.Some? && e.domain.value != [] && e.domain.value == d;
        assert e in evidences;
      }
      NoneBelong(evidences[1..], domain);
    }
  }

  function DomainOf(e: Evidence): set<Str>
  {
    if e.domain.Some? && e.domain.value != [] then {e.domain.value} else {}
  }

  lemma DomainsAppend(evidences: seq<Evidence>, e: Evidence)
    ensures Domains(evidences + [e]) == Domains(evidences) + DomainOf(e)
  {
    forall d
      ensures d in Domains(evidences + [e]) <==>
              d in Domains(evidences) || (e.domain.Some? && e.domain.value != [] && d == e.domain.value)
    {
      if d in Domains(evidences) {
        var x :| x in evidences && x.domain.Some? && x.domain.value != [] && x.domain.value == d;
        assert x in evidences + [e];
      }
      assert e in evidences + [e];
    }
  }

  /** The statistics with one more event. */
  function NextStats(stats: map<Str, Bucket>, e: Evidence, now: int): map<Str, Bucket>
  {
    if e.domain.None? || e.domain.value == [] then stats
    else stats[e.domain.value := Added(if e.domain.value in stats then stats[e.domain.value] else NO_EVENTS, e, now)]
  }

  /** One domain's bucket with one more event. */
  lemma BucketAt(evidences: seq<Evidence>, e: Evidence, now: int, d: Str)
    ensures var b := BucketOf(Filter(Belongs(d), evidences), now);
            BucketOf(Filter(Belongs(d), evidences + [e]), now) == if InDomain(e, d) then Added(b, e, now) else b
  {
    FilterAppend(Belongs(d), evidences, e);
    BucketAppend(Filter(Belongs(d), evidences), e, now);
    assert Filter(Belongs(d), evidences) + [] == Filter(Belongs(d), evidences);
  }

  lemma NewBucket(evidences: seq<Evidence>, now: int, d: Str)
    ensures BucketOf(Filter(Belongs(d), evidences), now)
            == if d in Domains(evidences) then DomainStats(evidences, now)[d] else NO_EVENTS
  {
    if d !in Domains(evidences) {
      NoneBelong(evidences, d);
    }
  }

  lemma DomainStatsKeys(evidences: seq<Evidence>, now: int)
    ensures DomainStats(evidences, now).Keys == Domains(evidences)
  {
  }

  lemma NextStatsKeys(stats: map<Str, Bucket>, e: Evidence, now: int)
    ensures NextStats(stats, e, now).Keys == stats.Keys + DomainOf(e)
  {
  }

  lemma StatsKeys(evidences: seq<Evidence>, e: Evidence, now: int)
    ensures DomainStats(evidences + [e], now).Keys == NextStats(DomainStats(evidences, now), e, now).Keys
  {
    DomainsAppend(evidences, e);
    DomainStatsKeys(evidences, now);
    DomainStatsKeys(evidences + [e], now);
    NextStatsKeys(DomainStats(evidences, now), e, now);
  }

  lemma StatsValue(evidences: seq<Evidence>, e: Evidence, now: int, d: Str)
    requires d in Domains(evidences + [e]) && d in NextStats(DomainStats(evidences, now), e, now)
    ensures DomainStats(evidences + [e], now)[d] == NextStats(DomainStats(evidences, now), e, now)[d]
  {
    BucketAt(evidences, e, now, d);
    NewBucket(evidences, now, d);
    StatsStep(DomainStats(evidences, now), e, now, d);
  }

  lemma StatsStep(stats: map<Str, Bucket>, e: Evidence, now: int, d: Str)
    requires d in NextStats(stats, e, now)
    ensures NextStats(stats, e, now)[d]
            == if InDomain(e, d) then Added(if d in stats then stats[d] else NO_EVENTS, e, now) else stats[d]
  {
  }

  lemma MapsEqual<K, V>(m: map<K, V>, n: map<K, V>)
    requires m.Keys == n.Keys && forall k | k in m :: m[k] == n[k]
    ensures m == n
  {
  }

  lemma StatsAppend(evidences: seq<Evidence>, e: Evidence, now: int)
    ensures DomainStats(evidences + [e], now) == NextStats(DomainStats(evidences, now), e, now)
  {
    var next, stats := DomainStats(evidences + [e], now), NextStats(DomainStats(evidences, now), e, now);
    StatsKeys(evidences, e, now);
    forall d | d in next.Keys ensures next[d] == stats[d] {
      StatsValue(evidences, e, now, d);
    }
    MapsEqual(next, stats);
  }

  /** One round of the loop. */
  method AddToBucket(before: map<Str, Bucket>, e: Evidence, now: int) returns (stats: map<Str, Bucket>)
    ensures stats == NextStats(before, e, now)
  {
    if e.domain.None? || e.domain.value == [] {
      return before;
    }
    var domain := e.domain.value;
    var bucket := if domain in before then before[domain] else NO_EVENTS;
    bucket := bucket.(total := bucket.total + 1);
    if IsCompleted(e) {
      bucket := bucket.(success := bucket.success + 1);
    }
    bucket := bucket.(validatedQuality := bucket.validatedQuality + [ValidatedQuality(e)],
                      freshestHours := Min(bucket.freshestHours, AgeHours(e.at, now)));
    return before[domain := bucket];
  }

  /** buildDomainStats */
  method BuildDomainStats(evidences: seq<Evidence>, now: int) returns (stats: map<Str, Bucket>)
    ensures stats == DomainStats(evidences, now)
  {
    stats := map[];
    var i := 0;
    while i < |evidences|
      invariant 0 <= i <= |evidences|
      invariant stats == DomainStats(evidences[..i], now)
    {
      assert evidences[..i + 1] == evidences[..i] + [evidences[i]];
      StatsAppend(evidences[..i], evidences[i], now);
      stats := AddToBucket(stats, evidences[i], now);
      i := i + 1;
    }
    assert evidences[..i] == evidences;
  }

  function Total(values: seq<real>): real
  {
    if values == [] then 0.0 else values[0] + Total(values[1..])
  }

  /** The competence computed from a bucket. */
  function CompetenceOf(host: Host, b: Bucket, halfLife: real): real
    requires b.total > 0 && b.validatedQuality != []
  {
    var success := b.success as real / b.total as real;
    var quality := Total(b.validatedQuality) / |b.validatedQuality| as real;
    Round4(Clamp(0.0, CompetenceMix(success, quality, Freshness(host, b.freshestHours, halfLife)), 1.0))
  }

  lemma {:induction false} TotalIsSum(f: Evidence -> real, s: seq<Evidence>)
    ensures Total(Map(f, s)) == Sum(f, s)
  {
    if s != [] {
      assert Map(f, s)[1..] == Map(f, s[1..]);
      TotalIsSum(f, s[1..]);
    }
  }

  lemma {:induction false} SumSame(f: Evidence -> real, g: Evidence -> real, s: seq<Evidence>)
    requires forall e :: f(e) == g(e)
    ensures Sum(f, s) == Sum(g, s)
  {
    if s != [] {
      SumSame(f, g, s[1..]);
    }
  }

  lemma SomeBelong(evidences: seq<Evidence>, domain: Str)
    requires domain in Domains(evidences)
    ensures Filter(Belongs(domain), evidences) != []
  {
    var e :| e in evidences && e.domain.Some? && e.domain.value != [] && e.domain.value == domain;
    assert Belongs(domain)(e);
  }

  /** The competences read off the buckets are the closed form's. */
  lemma CompetenceFromBuckets(host: Host, evidences: seq<Evidence>, domain: Str, now: int, halfLife: real)
    requires domain in Domains(evidences)
    ensures var b := DomainStats(evidences, now)[domain];
            b.total > 0 && b.validatedQuality != []
            && CompetenceOf(host, b, halfLife) == DomainCompetence(host, evidences, domain, now, halfLife)
  {
    SomeBelong(evidences, domain);
    var p, completed, quality :=
      (e: Evidence) => InDomain(e, domain), (e: Evidence) => IsCompleted(e), (e: Evidence) => ValidatedQuality(e);
    FilterSame(p, Belongs(domain), evidences);
    var events := Filter(Belongs(domain), evidences);
    FilterSame(completed, Completed(), events);
    SumSame(quality, Quality(), events);
    TotalIsSum(Quality(), events);
    CompetenceForm(host, evidences, domain, now, halfLife, events);
  }

  lemma CompetenceForm(host: Host, evidences: seq<Evidence>, domain: Str, now: int, halfLife: real,
                       events: seq<Evidence>)
    requires events == Filter(Belongs(domain), evidences) && events != []
    ensures DomainCompetence(host, evidences, domain, now, halfLife) ==
            Round4(Clamp(0.0, CompetenceMix(|Filter(Completed(), events)| as real / |events| as real,
                                            Sum(Quality(), events) / |events| as real,
                                            Freshness(host, FreshestHours(events, now), halfLife)), 1.0))
  {
    var p, completed, quality :=
      (e: Evidence) => InDomain(e, domain), (e: Evidence) => IsCompleted(e), (e: Evidence) => ValidatedQuality(e);
    FilterSame(p, Belongs(domain), evidences);
    FilterSame(completed, Completed(), events);
    SumSame(quality, Quality(), events);
  }

  // ---------------------------------------------------------------- adverse events

  /** An entry of the event-count map; the map keeps them in the order of their first occurrence. */
  datatype Count = Count(eventType: EventType, n: nat)

  /** eventCounts.set(t, (eventCounts.get(t) ?? 0) + 1) */
  function Bump(counts: seq<Count>, t: EventType): seq<Count>
  {
    if counts == [] then [Count(t, 1)]
    else if counts[0].eventType == t then [Count(t, counts[0].n + 1)] + counts[1..]
    else [counts[0]] + Bump(counts[1..], t)
  }

  /** What the second loop adds up. */
  function Charged(p: Penalties, counts: seq<Count>): real
  {
    if counts == [] then 0.0 else Penalty(p, counts[0].eventType) * counts[0].n as real + Charged(p, counts[1..])
  }

  function PenaltyOf(p: Penalties): Evidence -> real
  {
    (e: Evidence) => Penalty(p, e.eventType)
  }

  lemma {:induction false} ChargedBump(p: Penalties, counts: seq<Count>, t: EventType)
    ensures Charged(p, Bump(counts, t)) == Charged(p, counts) + Penalty(p, t)
  {
    if counts == [] {
      ChargedFirst(p, Count(t, 1), []);
    } else if counts[0].eventType == t {
      ChargedFirst(p, Count(t, counts[0].n + 1), counts[1..]);
      OneMore(Penalty(p, t), counts[0].n);
    } else {
      ChargedFirst(p, counts[0], Bump(counts[1..], t));
      ChargedBump(p, counts[1..], t);
    }
  }

  lemma ChargedFirst(p: Penalties, c: Count, rest: seq<Count>)
    ensures Charged(p, [c] + rest) == Penalty(p, c.eventType) * c.n as real + Charged(p, rest)
    ensures [c] + [] == [c]
  {
    assert ([c] + rest)[1..] == rest;
  }

  lemma OneMore(x: real, n: nat)
    ensures x * (n + 1) as real == x * n as real + x
  {
    assert (n + 1) as real == n as real + 1.0;
  }

  lemma ChargedPrefix(p: Penalties, counts: seq<Count>, i: nat)
    requires i < |counts|
    ensures Charged(p, counts[..i + 1])
            == Charged(p, counts[..i]) + Penalty(p, counts[i].eventType) * counts[i].n as real
    decreases i
  {
    if i > 0 {
      assert counts[..i + 1][1..] == counts[1..][..i] && counts[..i][1..] == counts[1..][..i - 1];
      ChargedPrefix(p, counts[1..], i - 1);
    } else {
      assert counts[..1][1..] == [];
    }
  }

  /** The count loop of adversarialSignals. */
  method CountEvents(p: Penalties, window: seq<Evidence>) returns (counts: seq<Count>)
    ensures Charged(p, counts) == Sum(PenaltyOf(p), window)
    ensures forall k | 0 <= k < |counts| :: counts[k].n >= 1
  {
    counts := [];
    for i := 0 to |window|
      invariant Charged(p, counts) == Sum(PenaltyOf(p), window[..i])
      invariant forall k | 0 <= k < |counts| :: counts[k].n >= 1
    {
      ChargedBump(p, counts, window[i].eventType);
      BumpPositive(counts, window[i].eventType);
      SumNext(p, window, i);
      counts := Bump(counts, window[i].eventType);
    }
    assert window[..|window|] == window;
  }

  lemma SumNext(p: Penalties, window: seq<Evidence>, i: nat)
    requires i < |window|
    ensures Sum(PenaltyOf(p), window[..i + 1]) == Sum(PenaltyOf(p), window[..i]) + Penalty(p, window[i].eventType)
  {
    SumAppend(PenaltyOf(p), window[..i], window[i]);
    assert window[..i + 1] == window[..i] + [window[i]];
  }

  /** The penalty loop of adversarialSignals. */
  method ChargeCounts(p: Penalties, counts: seq<Count>) returns (negative: real)
    requires forall k | 0 <= k < |counts| :: counts[k].n >= 1
    ensures negative == Charged(p, counts)
  {
    negative := 0.0;
    for k := 0 to |counts|
      invariant negative == Charged(p, counts[..k])
    {
      ChargedPrefix(p, counts, k);
      var units := if counts[k].n >= 1 then counts[k].n else 1;
      negative := negative + Penalty(p, counts[k].eventType) * units as real;
    }
    assert counts[..|counts|] == counts;
  }

  /** adversarialSignals: grouped by type or not, what is charged is the penalty of every single event.
      Clean executions are counted as well, but carry no penalty. */
  method AdversarialSignals(p: Penalties, window: seq<Evidence>) returns (riskSignal: real)
    ensures riskSignal == AdversarialRiskSignal(p, window)
  {
    var counts := CountEvents(p, window);
    var negative := ChargeCounts(p, counts);
    RiskForm(p, window);
    return Round4(Clamp(0.0, negative / 120.0, 1.0));
  }

  lemma {:induction false} BumpPositive(counts: seq<Count>, t: EventType)
    requires forall k | 0 <= k < |counts| :: counts[k].n >= 1
    ensures forall k | 0 <= k < |Bump(counts, t)| :: Bump(counts, t)[k].n >= 1
  {
    if counts != [] && counts[0].eventType != t {
      BumpPositive(counts[1..], t);
    }
  }

  lemma RiskForm(p: Penalties, window: seq<Evidence>)
    ensures AdversarialRiskSignal(p, window) == Round4(Clamp(0.0, Sum(PenaltyOf(p), window) / 120.0, 1.0))
  {
    var f := (e: Evidence) => Penalty(p, e.eventType);
    SumSame(f, PenaltyOf(p), window);
  }
}
