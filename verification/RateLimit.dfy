/** The sliding-window rate limiter: a pruned, expiring Redis sorted set of request times. */
module RateLimit {
  import opened Wrappers
  import opened FiniteSets

  /** A sorted set with its expiry: every member has a score, here the time of the attempt. */
  datatype ZSet = ZSet(scores: map<nat, real>, expireAt: real)

  /** What commands find under a key at time `now`; `expiry` says whether EXPIRE has any effect. */
  function Alive(expiry: bool, key: Option<ZSet>, now: real): map<nat, real> {
    if key.None? || (expiry && now >= key.value.expireAt) then map[] else key.value.scores
  }

  /** `ZREMRANGEBYSCORE key 0 max` */
  function ZRemRangeByScore(scores: map<nat, real>, max: real): map<nat, real> {
    map m | m in scores && !(0.0 <= scores[m] <= max) :: scores[m]
  }

  /** A request reads its clock at `now`, and its pipeline reaches Redis at `at`. */
  datatype Attempt = Attempt(now: real, at: real)

  /** The pipeline of one request: prune, add, (count,) expire. Scores are clock readings, the expiry is Redis's. */
  function Hit(expiry: bool, key: Option<ZSet>, window: int, member: nat, a: Attempt): ZSet {
    ZSet(ZRemRangeByScore(Alive(expiry, key, a.at), a.now - window as real)[member := a.now], a.at + window as real)
  }

  datatype Verdict = Verdict(admitted: bool, limit: nat, remaining: nat, reset: int, retryAfter: Option<int>)

  function Remaining(limit: nat, count: nat): nat {
    if count > limit then 0 else limit - count
  }

  class RateLimiter {
    const limit: nat
    const window: int
    var store: map<string, ZSet>

    constructor (requestsPerWindow: nat, windowSeconds: int)
      ensures limit == requestsPerWindow && window == windowSeconds && store == map[]
    {
      limit, window, store := requestsPerWindow, windowSeconds, map[];
    }

    ghost function KeyAt(identifier: string): Option<ZSet>
      reads this
    {
      if identifier in store then Some(store[identifier]) else None
    }

    /** One request of a client: only the client's own key changes, and the verdict is the count's. */
    method Call(identifier: string, member: nat, a: Attempt) returns (v: Verdict)
      requires identifier in store ==> member !in store[identifier].scores
      modifies this
      ensures KeyAt(identifier) == Some(Hit(true, old(KeyAt(identifier)), window, member, a))
      ensures forall other :: other != identifier ==> KeyAt(other) == old(KeyAt(other))
      ensures var count := |store[identifier].scores|;
              && (v.admitted <==> count <= limit)
              && (v.admitted ==> v.remaining + count == limit)
              && (!v.admitted ==> v.remaining == 0)
              && (v.retryAfter == if v.admitted then None else Some(window))
      ensures v.limit == limit && v.reset == (a.now + window as real).Floor
    {
      var windowStart := a.now - window as real;
      var scores: map<nat, real> := map[];
      if identifier in store && a.at < store[identifier].expireAt {
        scores := store[identifier].scores;
      }
      scores := ZRemRangeByScore(scores, windowStart);
      scores := scores[member := a.now];
      var requestCount := |scores|;
      store := store[identifier := ZSet(scores, a.at + window as real)];
      var remaining := Remaining(limit, requestCount);
      var resetTime := (a.now + window as real).Floor;
      if requestCount > limit {
        return Verdict(false, limit, 0, resetTime, Some(window));
      }
      v := Verdict(true, limit, remaining, resetTime, None);
    }
  }

  // ----- whole runs of one client -----

  /** Attempt `n` is `times[n]` and adds member `n`: it takes the key from `keys[n]` to `keys[n + 1]`. */
  ghost predicate AttemptAt(expiry: bool, times: seq<Attempt>, window: int, keys: seq<Option<ZSet>>, n: nat)
    requires n < |times| && |keys| == |times| + 1
  {
    keys[n + 1] == Some(Hit(expiry, keys[n], window, n, times[n]))
  }

  /** The key before the first attempt and after each one. */
  ghost predicate IsRun(expiry: bool, times: seq<Attempt>, window: int, keys: seq<Option<ZSet>>) {
    && |keys| == |times| + 1
    && keys[0] == None
    && forall n: nat :: n < |times| ==> AttemptAt(expiry, times, window, keys, n)
  }

  /** Every sequence of attempts has its run. */
  lemma {:induction false} RunExists(expiry: bool, times: seq<Attempt>, window: int) returns (keys: seq<Option<ZSet>>)
    ensures IsRun(expiry, times, window, keys)
    decreases |times|
  {
    if times == [] {
      keys := [None];
    } else {
      var n := |times| - 1;
      var before := RunExists(expiry, times[..n], window);
      keys := before + [Some(Hit(expiry, before[n], window, n, times[n]))];
      forall m: nat | m < |times| ensures AttemptAt(expiry, times, window, keys, m) {
        if m < n {
          assert AttemptAt(expiry, times[..n], window, before, m);
        }
      }
    }
  }

  function Scores(key: Option<ZSet>): map<nat, real> {
    if key.None? then map[] else key.value.scores
  }

  /** The decision about attempt `n`: the cardinality that the pipeline reads is within the limit. */
  predicate Admitted(keys: seq<Option<ZSet>>, limit: nat, n: nat) {
    n + 1 < |keys| && |Scores(keys[n + 1])| <= limit
  }

  ghost predicate Clock(times: seq<Attempt>) {
    forall i :: 0 <= i < |times| ==> times[i].now >= 0.0
  }

  /** A later attempt carries a time at most `skew` before that of any earlier attempt. */
  ghost predicate SkewAtMost(times: seq<Attempt>, skew: real) {
    forall i, j :: 0 <= i < j < |times| ==> times[j].now >= times[i].now - skew
  }

  /** How far Redis's clock, when the pipeline arrives, is ahead of the reading of the client's clock. */
  function Lag(a: Attempt): real {
    a.at - a.now
  }

  /**
   Attempts are numbered in the order in which Redis runs their pipelines, on its own clock, and their
   lags, by delays and by clocks that disagree, differ by at most `spread`.
   */
  ghost predicate Arrivals(times: seq<Attempt>, spread: real) {
    && (forall i, j :: 0 <= i < j < |times| ==> times[i].at <= times[j].at)
    && (forall i, j :: 0 <= i < |times| && 0 <= j < |times| ==> Lag(times[i]) - Lag(times[j]) <= spread)
  }

  lemma ArrivalsAreAlmostInOrder(times: seq<Attempt>, spread: real)
    requires Arrivals(times, spread)
    ensures SkewAtMost(times, spread)
  {
    forall i, j | 0 <= i < j < |times| ensures times[j].now >= times[i].now - spread {
      assert Lag(times[j]) - Lag(times[i]) <= spread;
    }
  }

  /** Attempt `i` was pruned by none of the attempts after it, up to attempt `n - 1`. */
  ghost predicate Survives(times: seq<Attempt>, window: int, i: nat, n: nat) {
    i < n <= |times| && forall j :: i < j < n ==> times[i].now > times[j].now - window as real
  }

  /** The key holds exactly the attempts among the first `n` that no later one of them pruned, with their times. */
  ghost predicate HoldsSurvivors(key: Option<ZSet>, times: seq<Attempt>, window: int, n: nat) {
    && n <= |times|
    && (forall i: nat :: i in Scores(key) <==> Survives(times, window, i, n))
    && (forall i: nat :: i in Scores(key) ==> i < n && Scores(key)[i] == times[i].now)
    && (key.Some? ==> n > 0 && key.value.expireAt == times[n - 1].at + window as real)
  }

  lemma SurvivalStep(times: seq<Attempt>, window: int, i: nat, n: nat)
    requires i < n < |times|
    ensures Survives(times, window, i, n + 1) <==> Survives(times, window, i, n) && times[i].now > times[n].now - window as real
  {
  }

  lemma HitKeepsSurvivors(key: Option<ZSet>, times: seq<Attempt>, window: int, n: nat)
    requires Clock(times) && n < |times|
    requires HoldsSurvivors(key, times, window, n)
    ensures HoldsSurvivors(Some(Hit(false, key, window, n, times[n])), times, window, n + 1)
  {
    var scores := Hit(false, key, window, n, times[n]).scores;
    forall i: nat
      ensures i in scores <==> Survives(times, window, i, n + 1)
    {
      if i < n {
        SurvivalStep(times, window, i, n);
      }
    }
  }

  /** Without expiry the key holds exactly the attempts that no later attempt pruned, whatever the order of times. */
  lemma {:induction false} KeyHoldsSurvivors(times: seq<Attempt>, window: int, keys: seq<Option<ZSet>>, n: nat)
    requires Clock(times) && IsRun(false, times, window, keys) && n <= |times|
    ensures HoldsSurvivors(keys[n], times, window, n)
    decreases n
  {
    if n > 0 {
      KeyHoldsSurvivors(times, window, keys, n - 1);
      assert AttemptAt(false, times, window, keys, n - 1);
      HitKeepsSurvivors(keys[n - 1], times, window, n - 1);
    }
  }

  /** When the key would have expired, pruning empties it anyway, if all lags are the same. */
  lemma ExpiredKeyIsPrunedEmpty(key: Option<ZSet>, times: seq<Attempt>, window: int, n: nat)
    requires Clock(times) && Arrivals(times, 0.0) && n < |times|
    requires HoldsSurvivors(key, times, window, n)
    ensures Hit(true, key, window, n, times[n]) == Hit(false, key, window, n, times[n])
  {
    var max := times[n].now - window as real;
    if key.Some? && times[n].at >= key.value.expireAt {
      forall m | m in key.value.scores
        ensures 0.0 <= key.value.scores[m] <= max
      {
        assert m in Scores(key);
        assert m < n - 1 ==> times[m].at <= times[n - 1].at;
        assert Lag(times[n]) - Lag(times[m]) <= 0.0;
      }
      assert ZRemRangeByScore(key.value.scores, max) == map[];
      assert ZRemRangeByScore(map[], max) == map[];
    }
  }

  /** If all lags are the same, the key's EXPIRE never changes what any command finds. */
  lemma {:induction false} ExpiryIsUnobservable(times: seq<Attempt>, window: int, keys: seq<Option<ZSet>>, kept: seq<Option<ZSet>>, n: nat)
    requires Clock(times) && Arrivals(times, 0.0) && n <= |times|
    requires IsRun(true, times, window, keys) && IsRun(false, times, window, kept)
    ensures keys[n] == kept[n]
    decreases n
  {
    if n > 0 {
      ExpiryIsUnobservable(times, window, keys, kept, n - 1);
      KeyHoldsSurvivors(times, window, kept, n - 1);
      assert AttemptAt(true, times, window, keys, n - 1) && AttemptAt(false, times, window, kept, n - 1);
      ExpiredKeyIsPrunedEmpty(kept[n - 1], times, window, n - 1);
    }
  }

  /** No later attempt pruned attempt `i`, and none came so late that the whole key had expired. */
  ghost predicate Lasts(times: seq<Attempt>, window: int, i: nat, n: nat) {
    i < n <= |times| && forall j :: i < j < n ==> StepSpares(times, window, i, j)
  }

  predicate StepSpares(times: seq<Attempt>, window: int, i: nat, j: nat)
    requires i < j < |times|
  {
    times[i].now > times[j].now - window as real && times[j].at < times[j - 1].at + window as real
  }

  ghost predicate HoldsLasting(key: Option<ZSet>, times: seq<Attempt>, window: int, n: nat) {
    && n <= |times|
    && (forall i: nat :: i in Scores(key) <==> Lasts(times, window, i, n))
    && (forall i: nat :: i in Scores(key) ==> i < n && Scores(key)[i] == times[i].now)
    && (key.Some? ==> n > 0 && key.value.expireAt == times[n - 1].at + window as real)
    && (n > 0 ==> key.Some?)
  }

  lemma HitKeepsLasting(key: Option<ZSet>, times: seq<Attempt>, window: int, n: nat)
    requires Clock(times) && n < |times|
    requires HoldsLasting(key, times, window, n)
    ensures HoldsLasting(Some(Hit(true, key, window, n, times[n])), times, window, n + 1)
  {
    var scores := Hit(true, key, window, n, times[n]).scores;
    forall i: nat
      ensures i in scores <==> Lasts(times, window, i, n + 1)
    {
      if i < n {
        assert Lasts(times, window, i, n + 1) <==> Lasts(times, window, i, n) && StepSpares(times, window, i, n);
      }
    }
  }

  /** With expiry, for any clock readings and arrival times, the key holds exactly the attempts that last. */
  lemma {:induction false} KeyHoldsLasting(times: seq<Attempt>, window: int, keys: seq<Option<ZSet>>, n: nat)
    requires Clock(times) && IsRun(true, times, window, keys) && n <= |times|
    ensures HoldsLasting(keys[n], times, window, n)
    decreases n
  {
    if n > 0 {
      KeyHoldsLasting(times, window, keys, n - 1);
      assert AttemptAt(true, times, window, keys, n - 1);
      HitKeepsLasting(keys[n - 1], times, window, n - 1);
    }
  }

  /** Whenever the key had expired, every attempt still in it was due to be pruned. */
  ghost predicate ExpiryDropsOnlyTheDue(times: seq<Attempt>, window: int) {
    forall j: nat :: 0 < j < |times| && times[j].at >= times[j - 1].at + window as real ==> AllDue(times, window, j)
  }

  ghost predicate AllDue(times: seq<Attempt>, window: int, j: nat)
    requires j < |times|
  {
    forall i: nat :: Survives(times, window, i, j) ==> times[i].now <= times[j].now - window as real
  }

  ghost predicate SameMembers(keys: seq<Option<ZSet>>, kept: seq<Option<ZSet>>, n: nat)
    requires n < |keys| && n < |kept|
  {
    Scores(keys[n]).Keys == Scores(kept[n]).Keys
  }

  lemma {:induction false} SurvivorsLast(times: seq<Attempt>, window: int, i: nat, n: nat)
    requires ExpiryDropsOnlyTheDue(times, window) && n <= |times|
    ensures Lasts(times, window, i, n) <==> Survives(times, window, i, n)
    decreases n
  {
    if i + 1 < n {
      var j := n - 1;
      SurvivorsLast(times, window, i, j);
      SurvivalStep(times, window, i, j);
      assert Lasts(times, window, i, n) <==> Lasts(times, window, i, j) && StepSpares(times, window, i, j);
      if times[j].at >= times[j - 1].at + window as real {
        assert AllDue(times, window, j);
      }
    }
  }

  lemma DroppedOnlyIfDue(times: seq<Attempt>, window: int, j: nat, n: nat)
    requires 0 < j < |times| && n == j + 1 && times[j].at >= times[j - 1].at + window as real
    requires forall i: nat :: Lasts(times, window, i, n) <==> Survives(times, window, i, n)
    ensures AllDue(times, window, j)
  {
    forall i: nat | Survives(times, window, i, j) ensures times[i].now <= times[j].now - window as real {
      SurvivalStep(times, window, i, j);
      assert Lasts(times, window, i, j + 1) ==> StepSpares(times, window, i, j);
    }
  }

  /**
   Exactly when the key's EXPIRE is unobservable: for any clock readings and arrivals, every request
   finds the attempts that it would find without it, if and only if, whenever a pause of a whole
   window at Redis has let the key expire, the next request would have pruned all that was in it.
   */
  lemma ExpiryIsUnobservableIffOnlyTheDueGo(times: seq<Attempt>, window: int, keys: seq<Option<ZSet>>, kept: seq<Option<ZSet>>)
    requires Clock(times)
    requires IsRun(true, times, window, keys) && IsRun(false, times, window, kept)
    ensures (forall n: nat :: n <= |times| ==> SameMembers(keys, kept, n)) <==> ExpiryDropsOnlyTheDue(times, window)
  {
    if ExpiryDropsOnlyTheDue(times, window) {
      forall n: nat | n <= |times| ensures SameMembers(keys, kept, n) {
        KeyHoldsLasting(times, window, keys, n);
        KeyHoldsSurvivors(times, window, kept, n);
        forall i: nat ensures i in Scores(keys[n]) <==> i in Scores(kept[n]) {
          SurvivorsLast(times, window, i, n);
        }
      }
    }
    if forall n: nat :: n <= |times| ==> SameMembers(keys, kept, n) {
      forall j: nat | 0 < j < |times| && times[j].at >= times[j - 1].at + window as real ensures AllDue(times, window, j) {
        var n := j + 1;
        KeyHoldsLasting(times, window, keys, n);
        KeyHoldsSurvivors(times, window, kept, n);
        assert SameMembers(keys, kept, n);
        forall i: nat ensures Lasts(times, window, i, n) <==> Survives(times, window, i, n) {
          assert i in Scores(keys[n]) <==> i in Scores(kept[n]);
        }
        DroppedOnlyIfDue(times, window, j, n);
      }
    }
  }

  /** All attempts so far, admitted or not, in the half-open span of `length` seconds that ends with attempt `n`. */
  function InWindow(times: seq<Attempt>, length: real, n: nat): set<nat>
    requires n < |times|
  {
    set i: nat | i <= n && times[i].now > times[n].now - length
  }

  /** An attempt is dropped only when it is older than a window, less the spread. */
  lemma RecentAttemptsLast(times: seq<Attempt>, window: int, spread: real, i: nat, n: nat)
    requires Arrivals(times, spread) && spread >= 0.0 && i <= n < |times|
    requires times[i].now > times[n].now - (window as real - spread)
    ensures Lasts(times, window, i, n + 1)
  {
    ArrivalsAreAlmostInOrder(times, spread);
    forall j | i < j < n + 1 ensures StepSpares(times, window, i, j) {
      assert j < n ==> times[n].now >= times[j].now - spread && times[j].at <= times[n].at;
      assert i < j - 1 ==> times[i].at <= times[j - 1].at;
      assert Lag(times[n]) - Lag(times[i]) <= spread;
    }
  }

  /**
   What a request is decided by, for clocks and delays whose lags differ by at most `spread`: the
   pruned, expiring set has all attempts of the last window less the spread, and none from before the
   window. If all lags are the same it is exactly the attempts of the last window, so that the request
   is admitted if and only if their number is within the limit.
   */
  lemma LimiterCountsTheWindow(times: seq<Attempt>, window: int, keys: seq<Option<ZSet>>, limit: nat, spread: real, n: nat)
    requires Clock(times) && Arrivals(times, spread) && spread >= 0.0 && window > 0 && n < |times|
    requires IsRun(true, times, window, keys)
    ensures InWindow(times, window as real - spread, n) <= Scores(keys[n + 1]).Keys <= InWindow(times, window as real, n)
    ensures |InWindow(times, window as real, n)| <= limit ==> Admitted(keys, limit, n)
    ensures Admitted(keys, limit, n) ==> |InWindow(times, window as real - spread, n)| <= limit
    ensures spread == 0.0 ==> Scores(keys[n + 1]).Keys == InWindow(times, window as real, n)
    ensures spread == 0.0 ==> (Admitted(keys, limit, n) <==> |InWindow(times, window as real, n)| <= limit)
  {
    KeyHoldsLasting(times, window, keys, n + 1);
    var held := Scores(keys[n + 1]).Keys;
    var inner, outer := InWindow(times, window as real - spread, n), InWindow(times, window as real, n);
    forall i | i in inner ensures i in held {
      RecentAttemptsLast(times, window, spread, i, n);
    }
    forall i | i in held ensures i in outer {
      assert Lasts(times, window, i, n + 1);
      assert i < n ==> StepSpares(times, window, i, n);
    }
    SubsetIsNoLarger(inner, held);
    SubsetIsNoLarger(held, outer);
    assert |Scores(keys[n + 1])| == |held|;
    assert spread == 0.0 ==> inner == outer;
  }

  /** The admitted attempts with times in `[from, from + length)`. */
  function AdmittedIn(times: seq<Attempt>, keys: seq<Option<ZSet>>, limit: nat, from: real, length: real): set<nat> {
    set i: nat | i < |times| && Admitted(keys, limit, i) && from <= times[i].now < from + length
  }

  lemma BurstIsKept(key: Option<ZSet>, times: seq<Attempt>, window: int, skew: real, from: real, burst: set<nat>, last: nat)
    requires skew >= 0.0 && SkewAtMost(times, skew)
    requires last in burst && last < |times|
    requires forall i :: i in burst ==> i <= last && from <= times[i].now < from + (window as real - skew)
    requires HoldsSurvivors(key, times, window, last + 1)
    ensures burst <= Scores(key).Keys
  {
    forall i | i in burst ensures Survives(times, window, i, last + 1) {
      forall j | i < j < last + 1 ensures times[i].now > times[j].now - window as real {
        assert j < last ==> times[last].now >= times[j].now - skew;
      }
    }
  }

  lemma BurstIsBounded(times: seq<Attempt>, window: int, keys: seq<Option<ZSet>>, limit: nat, skew: real, from: real)
    requires skew >= 0.0 && SkewAtMost(times, skew)
    requires |keys| == |times| + 1
    requires forall n: nat :: n <= |times| ==> HoldsSurvivors(keys[n], times, window, n)
    ensures |AdmittedIn(times, keys, limit, from, window as real - skew)| <= limit
  {
    var burst := AdmittedIn(times, keys, limit, from, window as real - skew);
    if burst != {} {
      var last := HasLargest(burst);
      BurstIsKept(keys[last + 1], times, window, skew, from, burst, last);
      SubsetIsNoLarger(burst, Scores(keys[last + 1]).Keys);
      assert |Scores(keys[last + 1])| == |Scores(keys[last + 1]).Keys|;
    }
  }

  /**
   However much clocks disagree, up to a skew: no span of `window - skew` seconds ever holds more
   admitted requests than the limit (key expiry left aside).
   */
  lemma NoBurstUnderSkew(times: seq<Attempt>, window: int, keys: seq<Option<ZSet>>, limit: nat, skew: real, from: real)
    requires Clock(times) && skew >= 0.0 && SkewAtMost(times, skew)
    requires IsRun(false, times, window, keys)
    ensures |AdmittedIn(times, keys, limit, from, window as real - skew)| <= limit
  {
    forall n: nat | n <= |times| ensures HoldsSurvivors(keys[n], times, window, n) {
      KeyHoldsSurvivors(times, window, keys, n);
    }
    BurstIsBounded(times, window, keys, limit, skew, from);
  }

  /**
   With expiry: for clocks and delays whose lags differ by at most `spread`, at most `limit` requests
   are admitted in any half-open span of one window less the spread; of one whole window, if all lags
   are the same.
   */
  lemma NoBurst(times: seq<Attempt>, window: int, keys: seq<Option<ZSet>>, limit: nat, spread: real, from: real)
    requires Clock(times) && Arrivals(times, spread) && spread >= 0.0
    requires IsRun(true, times, window, keys)
    ensures |AdmittedIn(times, keys, limit, from, window as real - spread)| <= limit
  {
    var burst := AdmittedIn(times, keys, limit, from, window as real - spread);
    if burst != {} {
      var last := HasLargest(burst);
      KeyHoldsLasting(times, window, keys, last + 1);
      forall i | i in burst ensures i in Scores(keys[last + 1]) {
        RecentAttemptsLast(times, window, spread, i, last);
      }
      SubsetIsNoLarger(burst, Scores(keys[last + 1]).Keys);
      assert |Scores(keys[last + 1])| == |Scores(keys[last + 1]).Keys|;
    }
  }

  /** The second request reads its clock before the first attempt leaves the window, and reaches Redis after. */
  function SlowRequest(): seq<Attempt> {
    [Attempt(0.0, 0.0), Attempt(59.6, 60.1)]
  }

  /**
   The failing case: a slow request finds the key gone although an attempt of its own window was in
   it, and is admitted beyond the limit of one request in 60 seconds.
   */
  lemma SlowRequestSeesExpiry(keys: seq<Option<ZSet>>, kept: seq<Option<ZSet>>)
    requires IsRun(true, SlowRequest(), 60, keys) && IsRun(false, SlowRequest(), 60, kept)
    ensures Scores(keys[2]).Keys == {1} && Scores(kept[2]).Keys == {0, 1}
    ensures AdmittedIn(SlowRequest(), keys, 1, 0.0, 60.0) == {0, 1}
    ensures !ExpiryDropsOnlyTheDue(SlowRequest(), 60)
  {
    var times := SlowRequest();
    assert AttemptAt(true, times, 60, keys, 0) && AttemptAt(true, times, 60, keys, 1);
    assert AttemptAt(false, times, 60, kept, 0) && AttemptAt(false, times, 60, kept, 1);
    assert Scores(keys[1]) == map[0 := 0.0] && Scores(keys[2]) == map[1 := 59.6];
    assert Survives(times, 60, 0, 1);
    assert !AllDue(times, 60, 1);
  }

  lemma HitGrowsByOne(expiry: bool, key: Option<ZSet>, window: int, member: nat, a: Attempt)
    ensures |Hit(expiry, key, window, member, a).scores| <= |Scores(key)| + 1
  {
    var alive := Alive(expiry, key, a.at);
    var kept := ZRemRangeByScore(alive, a.now - window as real);
    SubsetIsNoLarger(kept.Keys, Scores(key).Keys);
    var scores := Hit(expiry, key, window, member, a).scores;
    assert scores.Keys == kept.Keys + {member};
    assert |scores| == |scores.Keys| && |Scores(key)| == |Scores(key).Keys|;
  }

  lemma {:induction false} GrowsByAtMost(expiry: bool, times: seq<Attempt>, window: int, keys: seq<Option<ZSet>>, n: nat, k: nat)
    requires IsRun(expiry, times, window, keys)
    requires n + k <= |times|
    ensures |Scores(keys[n + k])| <= |Scores(keys[n])| + k
    decreases k
  {
    if k > 0 {
      GrowsByAtMost(expiry, times, window, keys, n, k - 1);
      var m := n + k - 1;
      assert AttemptAt(expiry, times, window, keys, m);
      HitGrowsByOne(expiry, keys[m], window, m, times[m]);
    }
  }

  /** A response that shows `remaining` promises to admit that many next requests, whatever their times. */
  lemma RemainingIsAPromise(times: seq<Attempt>, window: int, keys: seq<Option<ZSet>>, limit: nat, n: nat, k: nat)
    requires IsRun(true, times, window, keys)
    requires n + k < |times|
    requires 1 <= k <= Remaining(limit, |Scores(keys[n + 1])|)
    ensures Admitted(keys, limit, n + k)
  {
    GrowsByAtMost(true, times, window, keys, n + 1, k);
  }

  /** All of these attempts are still in the window of attempt `m`. */
  ghost predicate StillIn(times: seq<Attempt>, window: int, held: set<nat>, m: nat)
    requires m < |times|
  {
    forall i :: i in held && i < |times| ==> times[i].now > times[m].now - window as real
  }

  lemma OneMoreInWindow(times: seq<Attempt>, window: int, n: nat, m: nat)
    requires Arrivals(times, 0.0) && window > 0 && n <= m && m + 1 < |times|
    requires StillIn(times, window, InWindow(times, window as real, n), m + 1)
    ensures InWindow(times, window as real, m + 1) == InWindow(times, window as real, m) + {m + 1}
  {
    ArrivalsAreAlmostInOrder(times, 0.0);
    assert n in InWindow(times, window as real, n);
    assert times[m + 1].now >= times[m].now && (n < m ==> times[m].now >= times[n].now);
    forall i | i in InWindow(times, window as real, m) ensures times[i].now > times[m + 1].now - window as real {
      if i <= n {
        assert i in InWindow(times, window as real, n);
      } else {
        assert times[i].now >= times[n].now;
      }
    }
  }

  lemma StillInBefore(times: seq<Attempt>, window: int, held: set<nat>, m: nat)
    requires Arrivals(times, 0.0) && m + 1 < |times| && StillIn(times, window, held, m + 1)
    ensures StillIn(times, window, held, m)
  {
    ArrivalsAreAlmostInOrder(times, 0.0);
    assert times[m + 1].now >= times[m].now - 0.0;
  }

  /** While nothing that was held leaves the window, each further attempt counts one more. */
  lemma {:induction false} HeldGrows(times: seq<Attempt>, window: int, n: nat, k: nat)
    requires Arrivals(times, 0.0) && window > 0 && n + k < |times|
    requires StillIn(times, window, InWindow(times, window as real, n), n + k)
    ensures |InWindow(times, window as real, n + k)| == |InWindow(times, window as real, n)| + k
    decreases k
  {
    if k > 0 {
      var m := n + k - 1;
      StillInBefore(times, window, InWindow(times, window as real, n), m);
      HeldGrows(times, window, n, k - 1);
      OneMoreInWindow(times, window, n, m);
      var before := InWindow(times, window as real, m);
      assert m + 1 !in before;
      assert |before + {m + 1}| == |before| + 1;
    }
  }

  /**
   The promise is tight, with equal lags: as long as nothing that was counted after attempt `n` has left
   the window, attempt `n + k` is admitted if and only if `k` is at most what the response to attempt
   `n` showed as remaining, namely the limit less the count, or 0 beyond the limit.
   */
  lemma RemainingIsTight(times: seq<Attempt>, window: int, keys: seq<Option<ZSet>>, limit: nat, n: nat, k: nat)
    requires Clock(times) && Arrivals(times, 0.0) && window > 0
    requires IsRun(true, times, window, keys)
    requires 1 <= k && n + k < |times|
    requires StillIn(times, window, Scores(keys[n + 1]).Keys, n + k)
    ensures var count := |Scores(keys[n + 1])|;
            && (Admitted(keys, limit, n + k) <==> count + k <= limit)
            && (Admitted(keys, limit, n + k) <==> k <= Remaining(limit, count))
            && (count <= limit ==> Remaining(limit, count) + count == limit)
            && (count > limit ==> Remaining(limit, count) == 0)
  {
    LimiterCountsTheWindow(times, window, keys, limit, 0.0, n);
    LimiterCountsTheWindow(times, window, keys, limit, 0.0, n + k);
    var held := Scores(keys[n + 1]).Keys;
    assert held == InWindow(times, window as real, n);
    assert |Scores(keys[n + 1])| == |held|;
    HeldGrows(times, window, n, k);
  }

  lemma OnlyLastInWindow(times: seq<Attempt>, window: int, spread: real, n: nat)
    requires Arrivals(times, spread) && spread >= 0.0 && window > 0
    requires 0 < n < |times| && times[n].now >= times[n - 1].now + window as real + spread
    ensures InWindow(times, window as real, n) == {n}
  {
    ArrivalsAreAlmostInOrder(times, spread);
    forall i: nat | i < n ensures times[i].now <= times[n].now - window as real {
      assert i < n - 1 ==> times[n - 1].now >= times[i].now - spread;
    }
  }

  /** After a silence of one window, and the spread, the next `limit` requests are all admitted. */
  lemma SilenceResetsTheLimit(times: seq<Attempt>, window: int, keys: seq<Option<ZSet>>, limit: nat, spread: real, n: nat, k: nat)
    requires Clock(times) && Arrivals(times, spread) && spread >= 0.0 && window > 0
    requires IsRun(true, times, window, keys)
    requires 0 < n && n + k < |times| && k < limit
    requires times[n].now >= times[n - 1].now + window as real + spread
    ensures Admitted(keys, limit, n + k)
  {
    LimiterCountsTheWindow(times, window, keys, limit, spread, n);
    OnlyLastInWindow(times, window, spread, n);
    var held := Scores(keys[n + 1]).Keys;
    SubsetIsNoLarger(held, {n});
    assert |Scores(keys[n + 1])| == |held|;
    GrowsByAtMost(true, times, window, keys, n + 1, k);
  }
}
