/** The windowed rate limiter, which forgets old windows, against a ledger that never forgets. */
module RateLimiter {
  import opened Utf16
  import opened JsonParser

  // ---------------------------------------------------------------- window keys

  /** `${key_id}:${bucket}:${minute}` */
  function WindowKey(keyId: Str, bucket: Str, minute: nat): Str
  {
    keyId + [COLON] + bucket + [COLON] + NatText(minute)
  }

  /** split(":").at(-1) */
  function LastPart(s: Str): (r: Str)
    ensures |r| <= |s| && s[|s| - |r|..] == r
  {
    if s == [] || s[|s| - 1] == COLON then [] else LastPart(s[..|s| - 1]) + [s[|s| - 1]]
  }

  lemma {:induction false} LastPartOf(prefix: Str, part: Str)
    requires COLON !in part
    ensures LastPart(prefix + [COLON] + part) == part
  {
    var s := prefix + [COLON] + part;
    if part != [] {
      assert s[..|s| - 1] == prefix + [COLON] + part[..|part| - 1];
      LastPartOf(prefix, part[..|part| - 1]);
    }
  }

  /** Number(text) < bound; text that is no number compares as false. */
  predicate NumberBelow(text: Str, bound: int)
  {
    AllDigits(text) && NatOf(text) < bound
  }

  predicate Stale(key: Str, minute: int)
  {
    NumberBelow(LastPart(key), minute - 2)
  }

  lemma WindowKeyStale(keyId: Str, bucket: Str, window: nat, minute: int)
    ensures Stale(WindowKey(keyId, bucket, window), minute) <==> window < minute - 2
  {
    LastPartOf(keyId + [COLON] + bucket, NatText(window));
    NatRoundTrip(window);
  }

  lemma JoinInjective(a: Str, part: Str, a': Str, part': Str)
    requires COLON !in part && COLON !in part' && a + [COLON] + part == a' + [COLON] + part'
    ensures a == a' && part == part'
  {
    LastPartOf(a, part);
    LastPartOf(a', part');
    assert (a + [COLON] + part)[..|a|] == a && (a' + [COLON] + part')[..|a'|] == a';
  }

  lemma NatTextInjective(m: nat, n: nat)
    requires NatText(m) == NatText(n)
    ensures m == n
  {
    NatRoundTrip(m);
    NatRoundTrip(n);
  }

  /** Buckets without a colon make window keys unambiguous, whatever the API key ids. */
  lemma WindowKeyInjective(keyId: Str, bucket: Str, minute: nat, keyId': Str, bucket': Str, minute': nat)
    requires COLON !in bucket && COLON !in bucket'
    requires WindowKey(keyId, bucket, minute) == WindowKey(keyId', bucket', minute')
    ensures keyId == keyId' && bucket == bucket' && minute == minute'
  {
    JoinInjective(keyId + [COLON] + bucket, NatText(minute), keyId' + [COLON] + bucket', NatText(minute'));
    NatTextInjective(minute, minute');
    JoinInjective(keyId, bucket, keyId', bucket');
  }

  // ---------------------------------------------------------------- routes and configuration

  datatype Rate = Rate(cost: Option<int>, limit: Option<int>)

  datatype Route = Route(bucket: Option<Str>, cost: Option<int>, limit: Option<int>)

  datatype RateConfig = RateConfig(fallback: Rate, buckets: map<Str, Rate>)

  // default
  const DEFAULT_BUCKET: Str := [0x64, 0x65, 0x66, 0x61, 0x75, 0x6C, 0x74]

  /** A request as the limiter sees it: its resolved bucket, cost and limit, and the minute it comes in. */
  datatype Request = Request(keyId: Str, bucket: Str, cost: int, limit: int, minute: nat)

  function FirstOf(a: Option<int>, b: Option<int>, c: int): int
  {
    match a
    case Some(x) => x
    case None => match b case Some(y) => y case None => c
  }

  /** What the bucket is configured with, or the fallback for an unknown bucket. */
  function Configured(config: RateConfig, bucket: Str): Rate
  {
    if bucket in config.buckets.Keys then config.buckets[bucket] else config.fallback
  }

  /** resolveRateLimit */
  function Resolve(config: RateConfig, keyId: Str, route: Route, minute: nat): (r: Request)
    ensures r.keyId == keyId && r.minute == minute
    ensures route.bucket.Some? ==> r.bucket == route.bucket.value
    ensures route.bucket.None? ==> r.bucket == DEFAULT_BUCKET
    ensures route.cost.Some? ==> r.cost == route.cost.value
    ensures route.limit.Some? ==> r.limit == route.limit.value
    ensures var rate := Configured(config, r.bucket);
            && (route.cost.None? && rate.cost.Some? ==> r.cost == rate.cost.value)
            && (route.cost.None? && rate.cost.None? ==> r.cost == 1)
            && (route.limit.None? && rate.limit.Some? ==> r.limit == rate.limit.value)
            && (route.limit.None? && rate.limit.None? ==> r.limit == 600)
  {
    var bucket := match route.bucket case Some(b) => b case None => DEFAULT_BUCKET;
    var rate := if bucket in config.buckets then config.buckets[bucket] else config.fallback;
    Request(keyId, bucket, FirstOf(route.cost, rate.cost, 1), FirstOf(route.limit, rate.limit, 600), minute)
  }

  function KeyOf(r: Request): Str
  {
    WindowKey(r.keyId, r.bucket, r.minute)
  }

  // ---------------------------------------------------------------- the limiter

  datatype Limiter = Limiter(used: map<Str, int>, cleaned: Option<int>)

  function Used(used: map<Str, int>, key: Str): int
  {
    if key in used then used[key] else 0
  }

  function WithoutStale(used: map<Str, int>, minute: int): map<Str, int>
  {
    map key | key in used && !Stale(key, minute) :: used[key]
  }

  function Cleanup(lim: Limiter, minute: int): Limiter
  {
    if lim.cleaned == Some(minute) then lim else Limiter(WithoutStale(lim.used, minute), Some(minute))
  }

  /** enforceRateLimit on a resolved request. */
  function Enforce(lim: Limiter, r: Request): (Limiter, bool)
  {
    var clean := Cleanup(lim, r.minute);
    var used := Used(clean.used, KeyOf(r));
    if used + r.cost > r.limit then (clean, false) else (clean.(used := clean.used[KeyOf(r) := used + r.cost]), true)
  }

  /** getBudgetRemaining */
  function Remaining(lim: Limiter, r: Request): int
  {
    var left := r.limit - Used(lim.used, KeyOf(r));
    if left > 0 then left else 0
  }

  /** The remaining budget is what the caller can still spend now: a call of positive cost is admitted
      exactly when it costs no more. */
  lemma RemainingIsAdmissible(lim: Limiter, r: Request, cost: int)
    requires cost > 0
    ensures Enforce(lim, r.(cost := cost)).1 <==> cost <= Remaining(lim, r)
  {
    WindowKeyStale(r.keyId, r.bucket, r.minute, r.minute);
    assert KeyOf(r.(cost := cost)) == KeyOf(r);
  }

  /** What is left of a map while the entries under keys have still to be looked at. */
  function Unswept<K, V>(m: map<K, V>, keys: set<K>, stale: K -> bool): map<K, V>
  {
    map k | k in m && (k in keys || !stale(k)) :: m[k]
  }

  lemma Swept<K, V>(m: map<K, V>, keys: set<K>, key: K, stale: K -> bool)
    requires key in keys
    ensures Unswept(m, keys - {key}, stale)
            == if stale(key) then Unswept(m, keys, stale) - {key} else Unswept(m, keys, stale)
  {
  }

  lemma SweptAll<K, V>(m: map<K, V>, stale: K -> bool)
    ensures Unswept(m, m.Keys, stale) == m
  {
  }

  function StaleAt(minute: int): Str -> bool
  {
    (key: Str) => Stale(key, minute)
  }

  lemma SweptIsWithoutStale(used: map<Str, int>, minute: int)
    ensures Unswept(used, {}, StaleAt(minute)) == WithoutStale(used, minute)
  {
  }

  class RateLimits {
    const config: RateConfig
    var rateLimits: map<Str, int>
    var lastRateLimitCleanupMinute: Option<int>

    constructor (config: RateConfig)
      ensures this.config == config && Contents() == Limiter(map[], None)
    {
      this.config := config;
      rateLimits := map[];
      lastRateLimitCleanupMinute := None;
    }

    function Contents(): Limiter
      reads this
    {
      Limiter(rateLimits, lastRateLimitCleanupMinute)
    }

    method CleanupRateLimits(currentMinute: int)
      modifies this
      ensures Contents() == Cleanup(old(Contents()), currentMinute)
    {
      if lastRateLimitCleanupMinute == Some(currentMinute) {
        return;
      }
      var keys := rateLimits.Keys;
      SweptAll(rateLimits, StaleAt(currentMinute));
      while keys != {}
        invariant rateLimits == Unswept(old(rateLimits), keys, StaleAt(currentMinute))
        decreases |keys|
      {
        var key :| key in keys;
        Swept(old(rateLimits), keys, key, StaleAt(currentMinute));
        if Stale(key, currentMinute) {
          rateLimits := rateLimits - {key};
        }
        keys := keys - {key};
      }
      SweptIsWithoutStale(old(rateLimits), currentMinute);
      lastRateLimitCleanupMinute := Some(currentMinute);
    }

    method EnforceRateLimit(keyId: Str, route: Route, minute: nat) returns (admitted: bool)
      modifies this
      ensures (Contents(), admitted) == Enforce(old(Contents()), Resolve(config, keyId, route, minute))
    {
      CleanupRateLimits(minute);
      var policy := Resolve(config, keyId, route, minute);
      var key := KeyOf(policy);
      var used := if key in rateLimits then rateLimits[key] else 0;
      if used + policy.cost > policy.limit {
        return false;
      }
      rateLimits := rateLimits[key := used + policy.cost];
      return true;
    }

    method GetBudgetRemaining(keyId: Str, route: Route, minute: nat) returns (remaining: int)
      ensures remaining == Remaining(Contents(), Resolve(config, keyId, route, minute))
      ensures forall cost | cost > 0 ::
                Enforce(Contents(), Resolve(config, keyId, route, minute).(cost := cost)).1 <==> cost <= remaining
    {
      forall cost | cost > 0
        ensures Enforce(Contents(), Resolve(config, keyId, route, minute).(cost := cost)).1
                <==> cost <= Remaining(Contents(), Resolve(config, keyId, route, minute))
      {
        RemainingIsAdmissible(Contents(), Resolve(config, keyId, route, minute), cost);
      }
      var policy := Resolve(config, keyId, route, minute);
      var key := KeyOf(policy);
      var used := if key in rateLimits then rateLimits[key] else 0;
      remaining := policy.limit - used;
      if remaining < 0 {
        remaining := 0;
      }
    }
  }

  // ---------------------------------------------------------------- the ledger

  predicate SameWindow(a: Request, b: Request)
  {
    a.keyId == b.keyId && a.bucket == b.bucket && a.minute == b.minute
  }

  /** What the ledger's entries in the window of r add up to. */
  function Spent(ledger: seq<Request>, r: Request): int
  {
    if ledger == [] then 0
    else
      var last := ledger[|ledger| - 1];
      Spent(ledger[..|ledger| - 1], r) + if SameWindow(last, r) then last.cost else 0
  }

  predicate LedgerAdmits(ledger: seq<Request>, r: Request)
  {
    Spent(ledger, r) + r.cost <= r.limit
  }

  /** The ledger after some requests: every request it admitted, forever. */
  function LedgerAfter(rs: seq<Request>): seq<Request>
  {
    if rs == [] then []
    else
      var before, r := LedgerAfter(rs[..|rs| - 1]), rs[|rs| - 1];
      if LedgerAdmits(before, r) then before + [r] else before
  }

  /** The limiter after some requests. */
  function LimiterAfter(rs: seq<Request>): Limiter
  {
    if rs == [] then Limiter(map[], None) else Enforce(LimiterAfter(rs[..|rs| - 1]), rs[|rs| - 1]).0
  }

  predicate LimiterAdmits(rs: seq<Request>, j: nat)
    requires j < |rs|
  {
    Enforce(LimiterAfter(rs[..j]), rs[j]).1
  }

  ghost predicate Plain(rs: seq<Request>)
  {
    forall i | 0 <= i < |rs| :: COLON !in rs[i].bucket
  }

  function Minutes(rs: seq<Request>): (r: seq<nat>)
    ensures |r| == |rs| && forall i | 0 <= i < |r| :: r[i] == rs[i].minute
  {
    seq(|rs|, i requires 0 <= i < |rs| => rs[i].minute)
  }

  /** The clock shows minute m, later runs more than two minutes ahead of it. */
  ghost predicate Forgotten(clock: seq<nat>, m: nat)
  {
    exists a, i | 0 <= a < i < |clock| :: clock[a] == m && clock[i] > m + 2
  }

  lemma ForgottenGrows(clock: seq<nat>, next: nat, m: nat)
    ensures Forgotten(clock, m) ==> Forgotten(clock + [next], m)
    ensures m in clock && next > m + 2 ==> Forgotten(clock + [next], m)
  {
    if Forgotten(clock, m) {
      var a, i :| 0 <= a < i < |clock| && clock[a] == m && clock[i] > m + 2;
      assert (clock + [next])[a] == m && (clock + [next])[i] > m + 2;
    }
    if m in clock && next > m + 2 {
      var a :| 0 <= a < |clock| && clock[a] == m;
      assert (clock + [next])[a] == m && (clock + [next])[|clock|] > m + 2;
    }
  }

  // ---------------------------------------------------------------- the limiter refines the ledger

  /** For windows that were not forgotten, the limiter remembers what the ledger does. */
  ghost predicate Remembers(lim: Limiter, ledger: seq<Request>, clock: seq<nat>)
  {
    forall x: Request | COLON !in x.bucket && !Forgotten(clock, x.minute) ::
      Used(lim.used, KeyOf(x)) == Spent(ledger, x)
  }

  lemma KeysDiffer(a: Request, b: Request)
    requires COLON !in a.bucket && COLON !in b.bucket
    ensures KeyOf(a) == KeyOf(b) <==> SameWindow(a, b)
  {
    if KeyOf(a) == KeyOf(b) {
      WindowKeyInjective(a.keyId, a.bucket, a.minute, b.keyId, b.bucket, b.minute);
    }
  }

  lemma SpentAppend(ledger: seq<Request>, r: Request, x: Request)
    ensures Spent(ledger + [r], x) == Spent(ledger, x) + if SameWindow(r, x) then r.cost else 0
  {
    assert (ledger + [r])[..|ledger|] == ledger;
  }

  lemma {:induction false} SpentSameWindow(ledger: seq<Request>, x: Request, y: Request)
    requires SameWindow(x, y)
    ensures Spent(ledger, x) == Spent(ledger, y)
  {
    if ledger != [] {
      SpentSameWindow(ledger[..|ledger| - 1], x, y);
    }
  }

  lemma {:induction false} NothingSpent(ledger: seq<Request>, x: Request)
    requires forall i | 0 <= i < |ledger| :: ledger[i].minute != x.minute
    ensures Spent(ledger, x) == 0
  {
    if ledger != [] {
      NothingSpent(ledger[..|ledger| - 1], x);
    }
  }

  lemma {:induction false} LedgerMinutes(rs: seq<Request>)
    ensures forall i | 0 <= i < |LedgerAfter(rs)| :: LedgerAfter(rs)[i] in rs
  {
    if rs != [] {
      LedgerMinutes(rs[..|rs| - 1]);
    }
  }

  /** Cleaning up only drops windows that the clock has left behind. */
  lemma CleanupRemembers(lim: Limiter, ledger: seq<Request>, clock: seq<nat>, next: nat, x: Request)
    requires Remembers(lim, ledger, clock) && forall i | 0 <= i < |ledger| :: ledger[i].minute in clock
    requires COLON !in x.bucket && !Forgotten(clock + [next], x.minute)
    ensures Used(Cleanup(lim, next).used, KeyOf(x)) == Spent(ledger, x)
  {
    ForgottenGrows(clock, next, x.minute);
    WindowKeyStale(x.keyId, x.bucket, x.minute, next);
    if x.minute < next - 2 {
      NothingSpent(ledger, x);
    }
  }

  lemma StepRemembers(lim: Limiter, ledger: seq<Request>, clock: seq<nat>, r: Request, x: Request)
    requires Remembers(lim, ledger, clock) && forall i | 0 <= i < |ledger| :: ledger[i].minute in clock
    requires COLON !in r.bucket && COLON !in x.bucket && !Forgotten(clock + [r.minute], x.minute)
    ensures Used(Enforce(lim, r).0.used, KeyOf(x)) == Spent(if LedgerAdmits(ledger, r) then ledger + [r] else ledger, x)
    ensures SameWindow(r, x) ==> Enforce(lim, r).1 == LedgerAdmits(ledger, r)
  {
    CleanupRemembers(lim, ledger, clock, r.minute, x);
    SpentAppend(ledger, r, x);
    KeysDiffer(r, x);
    if SameWindow(r, x) {
      SpentSameWindow(ledger, r, x);
    }
  }

  lemma {:induction false} RunRemembers(rs: seq<Request>)
    requires Plain(rs)
    ensures Remembers(LimiterAfter(rs), LedgerAfter(rs), Minutes(rs))
  {
    if rs != [] {
      var front, r := rs[..|rs| - 1], rs[|rs| - 1];
      RunRemembers(front);
      LedgerMinutes(front);
      LedgerClock(front);
      assert Minutes(rs) == Minutes(front) + [r.minute];
      forall x: Request | COLON !in x.bucket && !Forgotten(Minutes(rs), x.minute)
        ensures Used(LimiterAfter(rs).used, KeyOf(x)) == Spent(LedgerAfter(rs), x)
      {
        StepRemembers(LimiterAfter(front), LedgerAfter(front), Minutes(front), r, x);
      }
    }
  }

  lemma LedgerClock(rs: seq<Request>)
    ensures forall i | 0 <= i < |LedgerAfter(rs)| :: LedgerAfter(rs)[i].minute in Minutes(rs)
  {
    LedgerMinutes(rs);
    forall i | 0 <= i < |LedgerAfter(rs)| ensures LedgerAfter(rs)[i].minute in Minutes(rs) {
      var k :| 0 <= k < |rs| && rs[k] == LedgerAfter(rs)[i];
      assert Minutes(rs)[k] == rs[k].minute;
    }
  }

  lemma NotForgottenBySelf(clock: seq<nat>, m: nat)
    ensures Forgotten(clock + [m], m) <==> Forgotten(clock, m)
  {
    ForgottenGrows(clock, m, m);
    if Forgotten(clock + [m], m) {
      var a, i :| 0 <= a < i < |clock + [m]| && (clock + [m])[a] == m && (clock + [m])[i] > m + 2;
      assert i < |clock| && clock[a] == m && clock[i] > m + 2;
    }
  }

  /** A call is decided as the ledger decides it unless its window has been forgotten. */
  lemma DecisionMatches(rs: seq<Request>, j: nat)
    requires Plain(rs) && j < |rs| && !Forgotten(Minutes(rs[..j]), rs[j].minute)
    ensures LimiterAdmits(rs, j) == LedgerAdmits(LedgerAfter(rs[..j]), rs[j])
  {
    var clock, m := Minutes(rs[..j]), rs[j].minute;
    RunRemembers(rs[..j]);
    LedgerClock(rs[..j]);
    NotForgottenBySelf(clock, m);
    StepRemembers(LimiterAfter(rs[..j]), LedgerAfter(rs[..j]), clock, rs[j], rs[j]);
  }

  /** The budget reported for a window that has not been forgotten is the limit minus what was admitted. */
  lemma RemainingMatches(rs: seq<Request>, r: Request)
    requires Plain(rs) && COLON !in r.bucket && !Forgotten(Minutes(rs), r.minute)
    ensures var left := r.limit - Spent(LedgerAfter(rs), r);
            Remaining(LimiterAfter(rs), r) == if left > 0 then left else 0
  {
    RunRemembers(rs);
  }

  // Which clocks let the limiter refine the ledger.

  ghost predicate Agree(rs: seq<Request>)
  {
    forall j | 0 <= j < |rs| :: LimiterAdmits(rs, j) == LedgerAdmits(LedgerAfter(rs[..j]), rs[j])
  }

  ghost predicate NeverForgets(clock: seq<nat>)
  {
    forall j | 0 <= j < |clock| :: !Forgotten(clock[..j], clock[j])
  }

  /** Requests for one window at a and j, and for another key in between. */
  function Probe(clock: seq<nat>, a: nat, j: nat): (rs: seq<Request>)
    ensures |rs| == |clock|
    ensures forall k | 0 <= k < |rs| ::
              rs[k] == Request(if k == a || k == j then [DIGIT_0] else [DIGIT_9], [], 1, 1, clock[k])
  {
    seq(|clock|, k requires 0 <= k < |clock| =>
        Request(if k == a || k == j then [DIGIT_0] else [DIGIT_9], [], 1, 1, clock[k]))
  }

  lemma {:induction false} ProbeLedger(clock: seq<nat>, a: nat, j: nat, n: nat)
    requires a < j < |clock| && n <= j
    ensures Spent(LedgerAfter(Probe(clock, a, j)[..n]), Probe(clock, a, j)[j])
            == if a < n && clock[a] == clock[j] then 1 else 0
  {
    var rs := Probe(clock, a, j);
    if n > 0 {
      ProbeLedger(clock, a, j, n - 1);
      assert rs[..n][..n - 1] == rs[..n - 1];
      var before := LedgerAfter(rs[..n - 1]);
      SpentAppend(before, rs[n - 1], rs[j]);
      if SameWindow(rs[n - 1], rs[j]) {
        SpentSameWindow(before, rs[n - 1], rs[j]);
      }
    }
  }

  lemma CleanedAt(rs: seq<Request>)
    requires rs != []
    ensures LimiterAfter(rs).cleaned == Some(rs[|rs| - 1].minute)
  {
  }

  lemma StaysAbsent(lim: Limiter, r: Request, key: Str)
    requires KeyOf(r) != key
    requires key !in lim.used || (lim.cleaned != Some(r.minute) && Stale(key, r.minute))
    ensures key !in Enforce(lim, r).0.used
  {
  }

  ghost predicate Absent(rs: seq<Request>, n: nat, key: Str)
    requires n <= |rs|
  {
    key !in LimiterAfter(rs[..n]).used
  }

  lemma StepAbsent(rs: seq<Request>, n: nat, key: Str)
    requires 0 < n <= |rs| && KeyOf(rs[n - 1]) != key
    requires Absent(rs, n - 1, key) || (1 < n && rs[n - 2].minute != rs[n - 1].minute && Stale(key, rs[n - 1].minute))
    ensures Absent(rs, n, key)
  {
    assert rs[..n][..n - 1] == rs[..n - 1];
    if 1 < n {
      CleanedAt(rs[..n - 1]);
    }
    StaysAbsent(LimiterAfter(rs[..n - 1]), rs[n - 1], key);
  }

  /** A window that the clock has left behind stays out of the map until it is used again. */
  lemma {:induction false} StaysForgotten(rs: seq<Request>, a: nat, i: nat, n: nat, m: nat, key: Str)
    requires a < i < n <= |rs| && rs[a].minute == m && rs[i].minute > m + 2
    requires forall k | a < k < n :: KeyOf(rs[k]) != key
    requires forall k | a < k < n && rs[k].minute > m + 2 :: Stale(key, rs[k].minute)
    ensures Absent(rs, n, key)
  {
    if i < n - 1 {
      StaysForgotten(rs, a, i, n - 1, m, key);
    } else if a < n - 2 && rs[n - 2].minute > m + 2 {
      StaysForgotten(rs, a, n - 2, n - 1, m, key);
    }
    StepAbsent(rs, n, key);
  }

  lemma ProbeLimiter(clock: seq<nat>, a: nat, i: nat, j: nat)
    requires a < i < j < |clock| && clock[a] == clock[j] && clock[i] > clock[j] + 2
    ensures KeyOf(Probe(clock, a, j)[j]) !in LimiterAfter(Probe(clock, a, j)[..j]).used
  {
    var rs := Probe(clock, a, j);
    var x := rs[j];
    forall k | a < k < j ensures KeyOf(rs[k]) != KeyOf(x) {
      KeysDiffer(rs[k], x);
    }
    forall k | a < k < j && rs[k].minute > x.minute + 2 ensures Stale(KeyOf(x), rs[k].minute) {
      WindowKeyStale(x.keyId, x.bucket, x.minute, rs[k].minute);
    }
    StaysForgotten(rs, a, i, j, x.minute, KeyOf(x));
  }

  lemma ProbeDisagrees(clock: seq<nat>, a: nat, i: nat, j: nat)
    requires a < i < j < |clock| && clock[a] == clock[j] && clock[i] > clock[j] + 2
    ensures Plain(Probe(clock, a, j)) && Minutes(Probe(clock, a, j)) == clock && !Agree(Probe(clock, a, j))
  {
    var rs := Probe(clock, a, j);
    ProbeLedger(clock, a, j, j);
    ProbeLimiter(clock, a, i, j);
    assert LimiterAdmits(rs, j) != LedgerAdmits(LedgerAfter(rs[..j]), rs[j]);
  }

  /** The limiter decides every run over a clock as the ledger does exactly when the clock never comes
      back to a minute after having been more than two minutes past it. */
  lemma ClockDecides(clock: seq<nat>)
    ensures NeverForgets(clock) <==> forall rs: seq<Request> | Plain(rs) && Minutes(rs) == clock :: Agree(rs)
  {
    if NeverForgets(clock) {
      forall rs: seq<Request> | Plain(rs) && Minutes(rs) == clock ensures Agree(rs) {
        forall j | 0 <= j < |rs| ensures LimiterAdmits(rs, j) == LedgerAdmits(LedgerAfter(rs[..j]), rs[j]) {
          assert Minutes(rs[..j]) == clock[..j];
          DecisionMatches(rs, j);
        }
      }
    } else {
      var j :| 0 <= j < |clock| && Forgotten(clock[..j], clock[j]);
      var a, i :| 0 <= a < i < |clock[..j]| && clock[..j][a] == clock[j] && clock[..j][i] > clock[j] + 2;
      ProbeDisagrees(clock, a, i, j);
    }
  }

  ghost predicate Nondecreasing(clock: seq<nat>)
  {
    forall a, b | 0 <= a <= b < |clock| :: clock[a] <= clock[b]
  }

  /** Under a clock that does not run backwards, every decision is the ledger's. */
  lemma NondecreasingRefines(rs: seq<Request>)
    requires Plain(rs) && Nondecreasing(Minutes(rs))
    ensures Agree(rs)
  {
    var clock := Minutes(rs);
    forall j | 0 <= j < |clock| ensures !Forgotten(clock[..j], clock[j]) {
    }
    ClockDecides(clock);
  }

  /** What the limiter admitted. */
  function Admitted(rs: seq<Request>): seq<Request>
  {
    if rs == [] then []
    else
      Admitted(rs[..|rs| - 1]) + if LimiterAdmits(rs, |rs| - 1) then [rs[|rs| - 1]] else []
  }

  lemma {:induction false} AdmittedIsLedger(rs: seq<Request>)
    requires Agree(rs)
    ensures Admitted(rs) == LedgerAfter(rs)
  {
    if rs != [] {
      var front := rs[..|rs| - 1];
      forall j | 0 <= j < |front| ensures LimiterAdmits(front, j) == LedgerAdmits(LedgerAfter(front[..j]), front[j]) {
        assert front[..j] == rs[..j];
        assert LimiterAdmits(rs, j) == LedgerAdmits(LedgerAfter(rs[..j]), rs[j]);
      }
      AdmittedIsLedger(front);
      assert LimiterAdmits(rs, |rs| - 1) == LedgerAdmits(LedgerAfter(front), rs[|rs| - 1]);
    }
  }

  /** Limits fixed per bucket, and costs that are not negative. */
  ghost predicate Fixed(rs: seq<Request>, limitOf: map<Str, nat>)
  {
    forall i | 0 <= i < |rs| :: rs[i].bucket in limitOf && rs[i].limit == limitOf[rs[i].bucket] && rs[i].cost >= 0
  }

  lemma {:induction false} LedgerWithin(rs: seq<Request>, limitOf: map<Str, nat>, x: Request)
    requires Fixed(rs, limitOf) && x.bucket in limitOf
    ensures 0 <= Spent(LedgerAfter(rs), x) <= limitOf[x.bucket]
  {
    if rs != [] {
      var front, r := rs[..|rs| - 1], rs[|rs| - 1];
      LedgerWithin(front, limitOf, x);
      SpentAppend(LedgerAfter(front), r, x);
      if SameWindow(r, x) {
        SpentSameWindow(LedgerAfter(front), r, x);
      }
    }
  }

  /** With limits fixed per bucket, the cost admitted per key, bucket and minute never exceeds the limit. */
  lemma AdmittedWithinLimit(rs: seq<Request>, limitOf: map<Str, nat>, x: Request)
    requires Plain(rs) && NeverForgets(Minutes(rs)) && Fixed(rs, limitOf) && x.bucket in limitOf
    ensures Spent(Admitted(rs), x) <= limitOf[x.bucket]
  {
    ClockDecides(Minutes(rs));
    AdmittedIsLedger(rs);
    LedgerWithin(rs, limitOf, x);
  }

  // ---------------------------------------------------------------- what the map holds

  ghost predicate HoldsOnly(used: map<Str, int>, low: int, high: int)
  {
    forall key | key in used :: exists x: Request :: key == KeyOf(x) && low <= x.minute <= high
  }

  lemma CleanupHolds(lim: Limiter, minute: int, low: int, high: int)
    requires HoldsOnly(lim.used, low, high) && (lim.cleaned == Some(minute) ==> low >= minute - 2)
    ensures HoldsOnly(Cleanup(lim, minute).used, if low < minute - 2 then minute - 2 else low, high)
  {
    var clean := Cleanup(lim, minute).used;
    forall key | key in clean
      ensures exists x: Request :: key == KeyOf(x) && (if low < minute - 2 then minute - 2 else low) <= x.minute <= high
    {
      var x: Request :| key == KeyOf(x) && low <= x.minute <= high;
      WindowKeyStale(x.keyId, x.bucket, x.minute, minute);
    }
  }

  lemma StepHolds(lim: Limiter, r: Request, low: int, high: int)
    requires HoldsOnly(lim.used, low, high) && high <= r.minute
             && (lim.cleaned == Some(r.minute) ==> low >= r.minute - 2)
    ensures HoldsOnly(Enforce(lim, r).0.used, r.minute - 2, r.minute)
  {
    CleanupHolds(lim, r.minute, low, high);
    var clean, used := Cleanup(lim, r.minute).used, Enforce(lim, r).0.used;
    forall key | key in used ensures exists x: Request :: key == KeyOf(x) && r.minute - 2 <= x.minute <= r.minute {
      if key in clean {
        var x: Request :| key == KeyOf(x) && (if low < r.minute - 2 then r.minute - 2 else low) <= x.minute <= high;
      }
    }
  }

  /** After a call in minute m, the map holds only windows m-2..m, if the clock does not run backwards. */
  lemma {:induction false} WindowsKept(rs: seq<Request>)
    requires rs != [] && Nondecreasing(Minutes(rs))
    ensures var m := rs[|rs| - 1].minute; HoldsOnly(LimiterAfter(rs).used, m - 2, m)
  {
    var front, r := rs[..|rs| - 1], rs[|rs| - 1];
    if front == [] {
      StepHolds(LimiterAfter(front), r, r.minute, r.minute);
    } else {
      assert Minutes(front) == Minutes(rs)[..|front|];
      WindowsKept(front);
      CleanedAt(front);
      var before: int := front[|front| - 1].minute;
      assert before == Minutes(rs)[|rs| - 2] <= Minutes(rs)[|rs| - 1];
      StepHolds(LimiterAfter(front), r, before - 2, before);
    }
  }
}
