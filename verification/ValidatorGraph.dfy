/** The counting part of computeGraphSignals: who validated a subject, how often, and how
    concentrated that is. */
module ValidatorGraph {
  import opened Utf16
  import Ordering

  // ---------------------------------------------------------------- counting

  /** Occurrences of k in s. */
  function Count(s: seq<Str>, k: Str): (n: nat)
    ensures n == multiset(s)[k]
    ensures n <= |s|
  {
    if s == [] then 0
    else
      assert s == [s[0]] + s[1..];
      (if s[0] == k then 1 else 0) + Count(s[1..], k)
  }

  /** Positions of s whose value lies in d. */
  function CountIn(s: seq<Str>, d: set<Str>): (n: nat)
    ensures n <= |s|
  {
    if s == [] then 0 else (if s[0] in d then 1 else 0) + CountIn(s[1..], d)
  }

  function Members(s: seq<Str>): (r: set<Str>)
    ensures forall k :: k in r <==> k in s
  {
    set k | k in s
  }

  lemma {:induction false} MembersAtMost(s: seq<Str>)
    ensures |Members(s)| <= |s|
    ensures s != [] ==> |Members(s)| >= 1
  {
    if s != [] {
      MembersAtMost(s[1..]);
      assert s == [s[0]] + s[1..];
      assert Members(s) == {s[0]} + Members(s[1..]);
    } else {
      assert Members(s) == {};
    }
  }

  /** Validations beyond the first of each validator. */
  function Repeated(validators: seq<Str>): (n: nat)
    ensures n <= |validators|
  {
    MembersAtMost(validators);
    |validators| - |Members(validators)|
  }

  lemma {:induction false} CountInExtend(s: seq<Str>, d: set<Str>, k: Str)
    requires k !in d
    ensures CountIn(s, d + {k}) == CountIn(s, d) + Count(s, k)
  {
    if s != [] {
      CountInExtend(s[1..], d, k);
    }
  }

  lemma {:induction false} CountInAll(s: seq<Str>, d: set<Str>)
    requires forall k | k in s :: k in d
    ensures CountIn(s, d) == |s|
  {
    if s != [] {
      CountInAll(s[1..], d);
    }
  }

  // ---------------------------------------------------------------- the pair map

  const PAIR_SEPARATOR: Str := [COLON, COLON]

  function PairKey(subject: Str, validator: Str): Str
  {
    subject + PAIR_SEPARATOR + validator
  }

  lemma PairKeyInjective(subject: Str, v: Str, w: Str)
    requires PairKey(subject, v) == PairKey(subject, w)
    ensures v == w
  {
    var prefix := subject + PAIR_SEPARATOR;
    assert PairKey(subject, v)[|prefix|..] == v && PairKey(subject, w)[|prefix|..] == w;
  }

  /** The pair map holds, per validator seen, the number of its validations. */
  ghost predicate PairsCount(subject: Str, validators: seq<Str>, pairs: map<Str, nat>)
  {
    && (forall v :: PairKey(subject, v) in pairs <==> v in validators)
    && (forall k | k in pairs :: exists v | v in validators :: k == PairKey(subject, v))
    && (forall v | v in validators :: pairs[PairKey(subject, v)] == Count(validators, v))
  }

  /** pairCounts.set(pair, (pairCounts.get(pair) ?? 0) + 1) */
  function Bumped(pairs: map<Str, nat>, key: Str): map<Str, nat>
  {
    pairs[key := (if key in pairs then pairs[key] else 0) + 1]
  }

  lemma BumpCounts(subject: Str, validators: seq<Str>, pairs: map<Str, nat>, id: Str)
    requires PairsCount(subject, validators, pairs)
    ensures PairsCount(subject, validators + [id], Bumped(pairs, PairKey(subject, id)))
  {
    var key := PairKey(subject, id);
    var ids, bumped := validators + [id], Bumped(pairs, key);
    assert id in ids;
    forall v ensures PairKey(subject, v) == key ==> v == id {
      if PairKey(subject, v) == key { PairKeyInjective(subject, v, id); }
    }
    forall k | k in bumped ensures exists v | v in ids :: k == PairKey(subject, v) {
      if k != key {
        var v :| v in validators && k == PairKey(subject, v);
        assert v in ids;
      }
    }
    forall v | v in ids ensures bumped[PairKey(subject, v)] == Count(ids, v) {
      assert multiset(ids)[v] == multiset(validators)[v] + if v == id then 1 else 0;
    }
  }

  /** The pair counts after a row of validators. */
  function BumpedAll(subject: Str, pairs: map<Str, nat>, ids: seq<Str>): map<Str, nat>
  {
    if ids == [] then pairs else Bumped(BumpedAll(subject, pairs, ids[..|ids| - 1]), PairKey(subject, ids[|ids| - 1]))
  }

  lemma {:induction false} BumpedAllConcat(subject: Str, pairs: map<Str, nat>, a: seq<Str>, b: seq<Str>)
    ensures BumpedAll(subject, BumpedAll(subject, pairs, a), b) == BumpedAll(subject, pairs, a + b)
  {
    if b == [] {
      assert a + b == a;
    } else {
      assert (a + b)[..|a + b| - 1] == a + b[..|b| - 1];
      BumpedAllConcat(subject, pairs, a, b[..|b| - 1]);
    }
  }

  lemma {:induction false} BumpedAllKeeps(subject: Str, counts: (seq<Str>, map<Str, nat>) -> bool, validators: seq<Str>,
                                          pairs: map<Str, nat>, ids: seq<Str>)
    requires counts(validators, pairs)
    requires forall vs, ps, id | counts(vs, ps) :: counts(vs + [id], Bumped(ps, PairKey(subject, id)))
    ensures counts(validators + ids, BumpedAll(subject, pairs, ids))
  {
    if ids == [] {
      assert validators + ids == validators;
    } else {
      var front, id := ids[..|ids| - 1], ids[|ids| - 1];
      BumpedAllKeeps(subject, counts, validators, pairs, front);
      assert validators + ids == validators + front + [id];
    }
  }

  lemma BumpedAllCounts(subject: Str, validators: seq<Str>, pairs: map<Str, nat>, ids: seq<Str>)
    requires PairsCount(subject, validators, pairs)
    ensures PairsCount(subject, validators + ids, BumpedAll(subject, pairs, ids))
  {
    var counts := (vs: seq<Str>, ps: map<Str, nat>) => PairsCount(subject, vs, ps);
    forall vs, ps, id | counts(vs, ps) ensures counts(vs + [id], Bumped(ps, PairKey(subject, id))) {
      BumpCounts(subject, vs, ps, id);
    }
    BumpedAllKeeps(subject, counts, validators, pairs, ids);
    assert counts(validators + ids, BumpedAll(subject, pairs, ids));
  }

  /** Which pairs the second loop still has to visit. */
  ghost predicate Pending(subject: Str, validators: seq<Str>, todo: set<Str>, done: set<Str>)
  {
    && (forall v | v in validators :: PairKey(subject, v) in todo <==> v !in done)
    && (forall k | k in todo :: exists v | v in validators :: k == PairKey(subject, v))
    && forall v | v in done :: v in validators
  }

  lemma PendingStep(subject: Str, validators: seq<Str>, todo: set<Str>, done: set<Str>, v: Str)
    requires Pending(subject, validators, todo, done) && v in validators
    ensures Pending(subject, validators, todo - {PairKey(subject, v)}, done + {v})
  {
    forall w | w in validators && PairKey(subject, w) == PairKey(subject, v) ensures w == v {
      PairKeyInjective(subject, v, w);
    }
  }

  lemma AllDone(subject: Str, validators: seq<Str>, done: set<Str>)
    requires Pending(subject, validators, {}, done)
    ensures done == Members(validators)
  {
    forall v ensures v in done <==> v in validators {
      if v in validators {
        assert PairKey(subject, v) !in {};
      }
    }
  }

  /** The validator behind a pair that is still to be visited. */
  lemma PendingPair(subject: Str, validators: seq<Str>, todo: set<Str>, done: set<Str>, k: Str) returns (v: Str)
    requires Pending(subject, validators, todo, done) && k in todo
    ensures v in validators && k == PairKey(subject, v) && v !in done
  {
    v :| v in validators && k == PairKey(subject, v);
  }

  /** The loop over the pair map: repeated interactions are the validations beyond the first of each
      validator, so they are all validations less the distinct validators. */
  method RepeatedInteractions(ghost subject: Str, ghost validators: seq<Str>, pairs: map<Str, nat>)
    returns (repeated: nat)
    requires PairsCount(subject, validators, pairs)
    ensures repeated == Repeated(validators) == |validators| - |Members(validators)|
  {
    repeated := 0;
    var todo := pairs.Keys;
    ghost var done: set<Str> := {};
    CountInNone(validators);
    while todo != {}
      invariant todo <= pairs.Keys && Pending(subject, validators, todo, done)
      invariant repeated == CountIn(validators, done) - |done|
      decreases todo
    {
      var k :| k in todo;
      ghost var v := PendingPair(subject, validators, todo, done, k);
      var count := pairs[k];
      CountPositive(validators, v);
      CountInExtend(validators, done, v);
      PendingStep(subject, validators, todo, done, v);
      if count > 1 {
        repeated := repeated + count - 1;
      }
      todo := todo - {k};
      done := done + {v};
    }
    AllDone(subject, validators, done);
    CountInAll(validators, done);
  }

  lemma CountPositive(s: seq<Str>, k: Str)
    requires k in s
    ensures Count(s, k) >= 1
  {
    assert multiset(s)[k] > 0;
  }

  // ---------------------------------------------------------------- clusters

  datatype Cluster = Cluster(validator: Str, count: nat)

  /** Distinct values in order of first appearance: [...new Set(s)]. */
  function Distinct(s: seq<Str>): (r: seq<Str>)
    ensures forall k :: k in r <==> k in s
    ensures forall i, j | 0 <= i < j < |r| :: r[i] != r[j]
    ensures |r| == |Members(s)|
  {
    if s == [] then
      assert Members(s) == {};
      []
    else
      var front := Distinct(s[..|s| - 1]);
      var last := s[|s| - 1];
      assert s == s[..|s| - 1] + [last];
      assert Members(s) == Members(s[..|s| - 1]) + {last};
      if last in front then
        assert Members(s) == Members(s[..|s| - 1]);
        front
      else front + [last]
  }

  function ClustersOf(ids: seq<Str>, all: seq<Str>): (r: seq<Cluster>)
    ensures |r| == |ids|
    ensures forall i | 0 <= i < |r| :: r[i] == Cluster(ids[i], Count(all, ids[i]))
  {
    if ids == [] then [] else [Cluster(ids[0], Count(all, ids[0]))] + ClustersOf(ids[1..], all)
  }

  function Total(clusters: seq<Cluster>): nat
  {
    if clusters == [] then 0 else clusters[0].count + Total(clusters[1..])
  }

  function LargerFirst(collate: (Str, Str) -> int): (Cluster, Cluster) -> bool
  {
    (a: Cluster, b: Cluster) => a.count > b.count || (a.count == b.count && collate(a.validator, b.validator) < 0)
  }

  /** The clusters, largest first. */
  function SortedClusters(collate: (Str, Str) -> int, validators: seq<Str>): (r: seq<Cluster>)
    ensures |r| == |Members(validators)|
  {
    Ordering.Sort(LargerFirst(collate), ClustersOf(Distinct(validators), validators))
  }

  /** The validations of the two largest clusters. */
  function DominantCount(collate: (Str, Str) -> int, validators: seq<Str>): nat
  {
    var c := SortedClusters(collate, validators);
    if |c| <= 2 then Total(c) else Total(c[..2])
  }

  lemma {:induction false} ClusterTotal(ids: seq<Str>, all: seq<Str>)
    requires forall i, j | 0 <= i < j < |ids| :: ids[i] != ids[j]
    ensures Total(ClustersOf(ids, all)) == CountIn(all, Members(ids))
  {
    if ids != [] {
      ClusterTotal(ids[1..], all);
      assert ids == [ids[0]] + ids[1..];
      forall j | 0 <= j < |ids[1..]| ensures ids[1..][j] != ids[0] {
        assert ids[j + 1] != ids[0];
      }
      assert Members(ids) == Members(ids[1..]) + {ids[0]};
      CountInExtend(all, Members(ids[1..]), ids[0]);
      assert ClustersOf(ids, all)[1..] == ClustersOf(ids[1..], all);
    } else {
      assert Members(ids) == {};
      CountInNone(all);
    }
  }

  lemma {:induction false} CountInNone(s: seq<Str>)
    ensures CountIn(s, {}) == 0
  {
    if s != [] { CountInNone(s[1..]); }
  }

  /** Per-validator counts add up to all validations. */
  lemma ClusterCountsAddUp(validators: seq<Str>)
    ensures Total(ClustersOf(Distinct(validators), validators)) == |validators|
  {
    var ids := Distinct(validators);
    ClusterTotal(ids, validators);
    CountInAll(validators, Members(ids));
  }

  lemma {:induction false} TotalSplit(a: seq<Cluster>, b: seq<Cluster>)
    ensures Total(a + b) == Total(a) + Total(b)
  {
    if a == [] {
      assert a + b == b;
    } else {
      assert (a + b)[1..] == a[1..] + b;
      TotalSplit(a[1..], b);
    }
  }

  lemma {:induction false} TotalRemoveAt(c: seq<Cluster>, i: nat)
    requires i < |c|
    ensures Total(c) == c[i].count + Total(Ordering.RemoveAt(c, i))
  {
    if i == 0 {
      assert Ordering.RemoveAt(c, 0) == c[1..];
    } else {
      TotalRemoveAt(c[1..], i - 1);
      assert Ordering.RemoveAt(c, i)[1..] == Ordering.RemoveAt(c[1..], i - 1);
    }
  }

  /** The total does not depend on the order of the clusters. */
  lemma {:induction false} TotalPermutation(a: seq<Cluster>, b: seq<Cluster>)
    requires multiset(a) == multiset(b)
    ensures Total(a) == Total(b)
  {
    assert |a| == |multiset(a)| == |multiset(b)| == |b|;
    if a != [] {
      assert a[0] in multiset(b);
      var i :| 0 <= i < |b| && b[i] == a[0];
      Ordering.TailMultiset(a);
      TotalPermutation(a[1..], Ordering.RemoveAt(b, i));
      TotalRemoveAt(b, i);
    }
  }

  /** What a comparator like localeCompare has to be. */
  ghost predicate Collation(collate: (Str, Str) -> int)
  {
    && Ordering.WeakOrder((x: Str, y: Str) => collate(x, y) < 0)
    && forall x, y :: collate(x, y) > 0 <==> collate(y, x) < 0
  }

  lemma LargerFirstIsOrder(collate: (Str, Str) -> int)
    requires Collation(collate)
    ensures Ordering.WeakOrder(LargerFirst(collate))
  {
    var lt := (x: Str, y: Str) => collate(x, y) < 0;
    var less := LargerFirst(collate);
    forall x, y, z | less(x, y) && less(y, z) ensures less(x, z) {
      assert lt(x.validator, y.validator) && lt(y.validator, z.validator) ==> lt(x.validator, z.validator);
    }
    forall x, y, z | less(x, z) ensures less(x, y) || less(y, z) {
      assert lt(x.validator, z.validator) ==> lt(x.validator, y.validator) || lt(y.validator, z.validator);
    }
    forall x ensures !less(x, x) {
      assert !lt(x.validator, x.validator);
    }
  }

  lemma {:induction false} TotalAtMost(c: seq<Cluster>, bound: nat)
    requires forall i | 0 <= i < |c| :: c[i].count <= bound
    ensures Total(c) <= |c| * bound
  {
    if c != [] {
      TotalAtMost(c[1..], bound);
      assert |c| * bound == bound + |c[1..]| * bound;
    }
  }

  /** The two largest of n counts hold at least the share 2/n of the total. */
  lemma LargestTwo(first: int, second: int, n: int, others: int)
    requires n >= 2 && first >= second >= 0 && others <= (n - 2) * second
    ensures 2 * (first + second + others) <= n * (first + second)
  {
    assert n * (first + second) - 2 * (first + second) - 2 * ((n - 2) * second) == (n - 2) * (first - second);
    assert (n - 2) * (first - second) >= 0;
  }

  lemma SortedCounts(collate: (Str, Str) -> int, c: seq<Cluster>)
    requires Ordering.Sorted(LargerFirst(collate), c)
    ensures forall i, j | 0 <= i < j < |c| :: c[j].count <= c[i].count
  {
    var less := LargerFirst(collate);
    forall i, j | 0 <= i < j < |c| ensures c[j].count <= c[i].count {
      assert !less(c[j], c[i]);
    }
  }

  lemma TotalOfTwo(c: seq<Cluster>)
    requires |c| == 2
    ensures Total(c) == c[0].count + c[1].count
  {
    assert Total(c[1..]) == c[1].count + Total(c[1..][1..]);
  }

  lemma TopTwoShare(c: seq<Cluster>)
    requires |c| > 2 && forall i, j | 0 <= i < j < |c| :: c[j].count <= c[i].count
    ensures Total(c[..2]) <= Total(c)
    ensures 2 * Total(c) <= |c| * Total(c[..2])
  {
    TotalSplit(c[..2], c[2..]);
    assert c == c[..2] + c[2..];
    TotalOfTwo(c[..2]);
    TotalAtMost(c[2..], c[1].count);
    LargestTwo(c[0].count, c[1].count, |c|, Total(c[2..]));
  }

  /** Before rounding, closed_cluster_density = dominant / total lies between min(1, 2/distinct)
      and 1, and reaches 1 when at most two validators are involved. */
  lemma ClusterDensityBounds(collate: (Str, Str) -> int, validators: seq<Str>)
    requires Collation(collate)
    ensures DominantCount(collate, validators) <= |validators|
    ensures |Members(validators)| <= 2 ==> DominantCount(collate, validators) == |validators|
    ensures 2 * |validators| <= |Members(validators)| * DominantCount(collate, validators)
            || DominantCount(collate, validators) == |validators|
  {
    var raw := ClustersOf(Distinct(validators), validators);
    var c := SortedClusters(collate, validators);
    ClusterCountsAddUp(validators);
    TotalPermutation(c, raw);
    if |c| > 2 {
      LargerFirstIsOrder(collate);
      Ordering.SortSorted(LargerFirst(collate), raw);
      SortedCounts(collate, c);
      TopTwoShare(c);
    }
  }

  /** What two validators contribute together. */
  function Together(validators: seq<Str>, a: Str, b: Str): nat
  {
    Count(validators, a) + Count(validators, b)
  }

  lemma {:induction false} DistinctOnce<T>(s: seq<T>, x: T)
    requires forall i, j | 0 <= i < j < |s| :: s[i] != s[j]
    ensures multiset(s)[x] <= 1
  {
    if s != [] {
      assert s == [s[0]] + s[1..];
      DistinctOnce(s[1..], x);
      if x == s[0] {
        assert x !in s[1..];
      }
    }
  }

  lemma OnceDiffers<T>(s: seq<T>)
    requires |s| >= 2 && multiset(s)[s[0]] <= 1
    ensures s[0] != s[1]
  {
    assert s == [s[0]] + ([s[1]] + s[2..]);
  }

  lemma ClusterIn(collate: (Str, Str) -> int, validators: seq<Str>, a: Str) returns (i: nat)
    requires a in validators
    ensures var c := SortedClusters(collate, validators); i < |c| && c[i] == Cluster(a, Count(validators, a))
  {
    var ids := Distinct(validators);
    var raw := ClustersOf(ids, validators);
    var c := SortedClusters(collate, validators);
    var k :| 0 <= k < |ids| && ids[k] == a;
    assert raw[k] in multiset(c);
    i :| 0 <= i < |c| && c[i] == raw[k];
  }

  lemma ClusterAt(collate: (Str, Str) -> int, validators: seq<Str>, i: nat)
    requires i < |SortedClusters(collate, validators)|
    ensures var c := SortedClusters(collate, validators)[i];
            c.validator in validators && c.count == Count(validators, c.validator)
  {
    var raw := ClustersOf(Distinct(validators), validators);
    assert SortedClusters(collate, validators)[i] in multiset(raw);
  }

  lemma FirstTwoDiffer(collate: (Str, Str) -> int, validators: seq<Str>)
    requires |SortedClusters(collate, validators)| >= 2
    ensures var c := SortedClusters(collate, validators); c[0].validator != c[1].validator
  {
    var raw := ClustersOf(Distinct(validators), validators);
    var c := SortedClusters(collate, validators);
    ClusterAt(collate, validators, 0);
    ClusterAt(collate, validators, 1);
    DistinctOnce(raw, c[0]);
    OnceDiffers(c);
  }

  /** The dominant count is the most that any two validators contribute together. */
  lemma DominantIsLargestPair(collate: (Str, Str) -> int, validators: seq<Str>)
    requires Collation(collate) && |Members(validators)| >= 2
    ensures forall a, b | a in validators && b in validators && a != b ::
              Together(validators, a, b) <= DominantCount(collate, validators)
    ensures exists a, b | a in validators && b in validators && a != b ::
              Together(validators, a, b) == DominantCount(collate, validators)
  {
    var raw := ClustersOf(Distinct(validators), validators);
    var c := SortedClusters(collate, validators);
    LargerFirstIsOrder(collate);
    Ordering.SortSorted(LargerFirst(collate), raw);
    SortedCounts(collate, c);
    TotalOfTwo(c[..2]);
    assert |c| == 2 ==> c[..2] == c;
    FirstTwoDiffer(collate, validators);
    ClusterAt(collate, validators, 0);
    ClusterAt(collate, validators, 1);
    assert Together(validators, c[0].validator, c[1].validator) == DominantCount(collate, validators);
    forall a, b | a in validators && b in validators && a != b
      ensures Together(validators, a, b) <= c[0].count + c[1].count
    {
      var i := ClusterIn(collate, validators, a);
      var j := ClusterIn(collate, validators, b);
      assert i != j;
    }
  }
}
