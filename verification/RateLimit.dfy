/** The fixed-window rate limiter: app/middleware/ratelimit.py. Clock values are whole milliseconds. */
module RateLimit {
  import opened Wrappers

  const WINDOW: int := 60_000
  const IDLE_TTL: int := 600_000
  const PRUNE_INTERVAL: int := 60_000

  datatype Bucket = Bucket(windowStart: int, count: int, lastSeen: int)

  type Buckets = map<string, Bucket>

  datatype Verdict = Verdict(allowed: bool, retryAfter: int)

  // ---- One check, on the bucket of its key ----

  predicate InWindow(b: Option<Bucket>, now: int) {
    b.Some? && now - b.value.windowStart < WINDOW
  }

  /** `max(1, int(window_start + 60 - now + 0.999))`, in milliseconds. */
  function RetryAfter(b: Bucket, now: int): int
    requires now - b.windowStart < WINDOW
  {
    var seconds := (b.windowStart + WINDOW - now + 999) / 1000;
    if seconds < 1 then 1 else seconds
  }

  function Decide(b: Option<Bucket>, limit: int, now: int): Verdict {
    if !InWindow(b, now) then Verdict(limit > 0, 0)
    else if b.value.count >= limit then Verdict(false, RetryAfter(b.value, now))
    else Verdict(true, 0)
  }

  function Touch(b: Option<Bucket>, limit: int, now: int): Bucket {
    if !InWindow(b, now) then Bucket(now, 1, now)
    else if b.value.count >= limit then b.value.(lastSeen := now)
    else Bucket(b.value.windowStart, b.value.count + 1, now)
  }

  function Get(m: Buckets, key: string): Option<Bucket> {
    if key in m then Some(m[key]) else None
  }

  function Pruned(m: Buckets, now: int): Buckets {
    map k | k in m && now - m[k].lastSeen <= IDLE_TTL :: m[k]
  }

  // ---- The limiter ----

  class Limiter {
    var buckets: Buckets
    var lastPrune: int

    constructor ()
      ensures buckets == map[] && lastPrune == 0
    {
      buckets, lastPrune := map[], 0;
    }

    method Reset()
      modifies this
      ensures buckets == map[] && lastPrune == 0
    {
      buckets, lastPrune := map[], 0;
    }

    /** Every clock value in the state is in the past, and nothing has been idle for long since the last sweep. */
    ghost predicate Valid(now: int)
      reads this
    {
      && 0 <= lastPrune <= now
      && forall k :: k in buckets ==>
           && buckets[k].windowStart <= buckets[k].lastSeen <= now
           && lastPrune - buckets[k].lastSeen <= IDLE_TTL
    }

    method Prune(now: int)
      requires Valid(now)
      modifies this
      ensures Valid(now) && now - lastPrune < PRUNE_INTERVAL
      ensures buckets == (if now - old(lastPrune) < PRUNE_INTERVAL then old(buckets) else Pruned(old(buckets), now))
      ensures lastPrune == (if now - old(lastPrune) < PRUNE_INTERVAL then old(lastPrune) else now)
    {
      if now - lastPrune < PRUNE_INTERVAL {
        return;
      }
      lastPrune := now;
      var stale := set k | k in buckets && now - buckets[k].lastSeen > IDLE_TTL;
      buckets := buckets - stale;
      assert buckets == Pruned(old(buckets), now);
    }

    /** `_check`. The verdict is the one for the key's unpruned bucket, and no surviving bucket has been idle for 660 s. */
    method Check(key: string, limit: int, now: int) returns (v: Verdict)
      requires Valid(now)
      modifies this
      ensures Valid(now)
      ensures v == Decide(Get(old(buckets), key), limit, now)
      ensures Get(buckets, key) == Some(Touch(Get(old(buckets), key), limit, now))
      ensures forall k :: k != key && k in buckets ==> k in old(buckets) && buckets[k] == old(buckets)[k]
      ensures forall k :: k != key && k in old(buckets) && k !in buckets ==> now - old(buckets)[k].lastSeen > 600_000
      ensures forall k :: k in buckets ==> now - buckets[k].lastSeen < 660_000
    {
      Prune(now);
      if key !in buckets || now - buckets[key].windowStart >= WINDOW {
        buckets := buckets[key := Bucket(now, 1, now)];
        return Verdict(limit > 0, 0);
      }
      var b := buckets[key];
      buckets := buckets[key := b.(lastSeen := now)];
      if b.count >= limit {
        var seconds := (b.windowStart + WINDOW - now + 999) / 1000;
        return Verdict(false, if seconds < 1 then 1 else seconds);
      }
      buckets := buckets[key := buckets[key].(count := b.count + 1)];
      return Verdict(true, 0);
    }
  }

  // ---- Pruning is unobservable ----

  datatype Request = Request(key: string, limit: int, now: int)

  ghost predicate Ordered(rs: seq<Request>) {
    forall i, j :: 0 <= i < j < |rs| ==> rs[i].now <= rs[j].now
  }

  /** A limiter that never prunes: its buckets after a run of requests. */
  function Unpruned(rs: seq<Request>): Buckets {
    if rs == [] then map[] else
      var before, r := Unpruned(rs[..|rs| - 1]), rs[|rs| - 1];
      before[r.key := Touch(Get(before, r.key), r.limit, r.now)]
  }

  function UnprunedVerdict(rs: seq<Request>, i: nat): Verdict
    requires i < |rs|
  {
    Decide(Get(Unpruned(rs[..i]), rs[i].key), rs[i].limit, rs[i].now)
  }

  /** The pruning limiter's buckets, next to those of the one that never prunes: the missing ones are long idle. */
  ghost predicate Mirrors(pruned: Buckets, full: Buckets, now: int) {
    && (forall k :: k in pruned ==> k in full && full[k] == pruned[k])
    && (forall k :: k in full && k !in pruned ==> now - full[k].lastSeen > IDLE_TTL)
    && (forall k :: k in full ==> full[k].windowStart <= full[k].lastSeen <= now)
  }

  /** A long idle bucket decides like a missing one. */
  lemma MirrorsDecideAlike(pruned: Buckets, full: Buckets, key: string, limit: int, then_: int, now: int)
    requires Mirrors(pruned, full, then_) && then_ <= now
    ensures Decide(Get(pruned, key), limit, now) == Decide(Get(full, key), limit, now)
    ensures Touch(Get(pruned, key), limit, now) == Touch(Get(full, key), limit, now)
  {
  }

  /** `after` is what one check makes of `before`: the key is touched, and other buckets stay unless they are long idle. */
  ghost predicate Checked(before: Buckets, after: Buckets, r: Request) {
    && Get(after, r.key) == Some(Touch(Get(before, r.key), r.limit, r.now))
    && (forall k :: k != r.key && k in after ==> k in before && after[k] == before[k])
    && (forall k :: k != r.key && k in before && k !in after ==> r.now - before[k].lastSeen > IDLE_TTL)
  }

  lemma MirrorsStep(rs: seq<Request>, i: nat, before: Buckets, after: Buckets, then_: int)
    requires i < |rs| && then_ <= rs[i].now && Mirrors(before, Unpruned(rs[..i]), then_) && Checked(before, after, rs[i])
    ensures Mirrors(after, Unpruned(rs[..i + 1]), rs[i].now)
    ensures Decide(Get(before, rs[i].key), rs[i].limit, rs[i].now) == UnprunedVerdict(rs, i)
  {
    var r := rs[i];
    MirrorsDecideAlike(before, Unpruned(rs[..i]), r.key, r.limit, then_, r.now);
    assert rs[..i + 1][..|rs[..i + 1]| - 1] == rs[..i];
  }

  /** On every run of requests with a nondecreasing clock, the limiter answers like one that never prunes. */
  method ServeAll(rs: seq<Request>) returns (vs: seq<Verdict>)
    requires Ordered(rs) && forall i :: 0 <= i < |rs| ==> rs[i].now >= 0
    ensures |vs| == |rs| && forall i :: 0 <= i < |rs| ==> vs[i] == UnprunedVerdict(rs, i)
  {
    var limiter := new Limiter();
    vs := [];
    var i := 0;
    ghost var clock := 0;
    while i < |rs|
      invariant i <= |rs| && |vs| == i && 0 <= clock && (i > 0 ==> clock == rs[i - 1].now) && (i < |rs| ==> clock <= rs[i].now)
      invariant fresh(limiter) && limiter.Valid(clock)
      invariant Mirrors(limiter.buckets, Unpruned(rs[..i]), clock)
      invariant forall j :: 0 <= j < i ==> vs[j] == UnprunedVerdict(rs, j)
    {
      var r := rs[i];
      ghost var before := limiter.buckets;
      var v := limiter.Check(r.key, r.limit, r.now);
      MirrorsStep(rs, i, before, limiter.buckets, clock);
      vs := vs + [v];
      clock := r.now;
      i := i + 1;
    }
  }

  // ---- The rate bound ----

  /** Whether request `i` is for this key and is admitted. */
  predicate Admitted(rs: seq<Request>, key: string, i: nat)
    requires i < |rs|
  {
    rs[i].key == key && UnprunedVerdict(rs, i).allowed
  }

  /** Admissions of a key among the first `n` requests, in the half-open interval [from, to). */
  function Admissions(rs: seq<Request>, key: string, n: nat, from: int, to: int): nat
    requires n <= |rs|
  {
    if n == 0 then 0 else
      Admissions(rs, key, n - 1, from, to)
      + if from <= rs[n - 1].now < to && Admitted(rs, key, n - 1) then 1 else 0
  }

  ghost predicate FixedLimit(rs: seq<Request>, key: string, limit: int) {
    forall i :: 0 <= i < |rs| && rs[i].key == key ==> rs[i].limit == limit
  }

  /** Admissions from `a` on. */
  function Since(rs: seq<Request>, key: string, n: nat, a: int): nat
    requires n <= |rs|
  {
    if n == 0 then 0 else Since(rs, key, n - 1, a) + if a <= rs[n - 1].now && Admitted(rs, key, n - 1) then 1 else 0
  }

  lemma {:induction false} AdmissionsSince(rs: seq<Request>, key: string, n: nat, from: int, to: int)
    requires n <= |rs| && from <= to
    ensures Admissions(rs, key, n, from, to) == Since(rs, key, n, from) - Since(rs, key, n, to)
  {
    if n > 0 {
      AdmissionsSince(rs, key, n - 1, from, to);
    }
  }

  lemma {:induction false} NoneSince(rs: seq<Request>, key: string, n: nat, a: int)
    requires n <= |rs| && forall i :: 0 <= i < n ==> rs[i].now < a
    ensures Since(rs, key, n, a) == 0
  {
    if n > 0 {
      NoneSince(rs, key, n - 1, a);
    }
  }

  /** Where the admissions of a key lie, relative to the window of its bucket. */
  ghost predicate Paced(rs: seq<Request>, key: string, limit: int, n: nat)
    requires n <= |rs|
  {
    var b := Get(Unpruned(rs[..n]), key);
    if b.None? then forall a: int :: Since(rs, key, n, a) == 0
    else
      var start, count := b.value.windowStart, b.value.count;
      && 1 <= count <= limit && Since(rs, key, n, start) == count
      && (n > 0 ==> start <= rs[n - 1].now)
      && (forall a: int :: a >= start + WINDOW ==> Since(rs, key, n, a) == 0)
      && (forall a: int :: a > start ==> Since(rs, key, n, a) <= count - 1)
      && (forall a: int :: start - WINDOW < a <= start ==> Since(rs, key, n, a) - count <= limit - 1)
      && (forall a: int :: MinuteBound(rs, key, limit, n, a))
  }

  predicate MinuteBound(rs: seq<Request>, key: string, limit: int, n: nat, a: int)
    requires n <= |rs|
  {
    Since(rs, key, n, a) - Since(rs, key, n, a + WINDOW) <= 2 * limit - 1
  }

  ghost predicate NoneAfter(rs: seq<Request>, key: string, m: nat, t: int)
    requires m <= |rs|
  {
    forall a: int :: a > t ==> Since(rs, key, m, a) == 0
  }

  lemma {:induction false} AlwaysPaced(rs: seq<Request>, key: string, limit: int, n: nat)
    requires Ordered(rs) && FixedLimit(rs, key, limit) && limit >= 1 && n <= |rs|
    ensures Paced(rs, key, limit, n)
  {
    if n > 0 {
      var m := n - 1;
      AlwaysPaced(rs, key, limit, m);
      assert rs[..n][..|rs[..n]| - 1] == rs[..m];
      if rs[m].key == key {
        assert NoneAfter(rs, key, m, rs[m].now) by {
          forall a: int | a > rs[m].now ensures Since(rs, key, m, a) == 0 {
            NoneSince(rs, key, m, a);
          }
        }
        if InWindow(Get(Unpruned(rs[..m]), key), rs[m].now) {
          PacedWithin(rs, key, limit, m, n);
        } else {
          PacedAnew(rs, key, limit, m, n);
        }
      } else {
        assert forall a: int :: Since(rs, key, n, a) == Since(rs, key, m, a);
        if Get(Unpruned(rs[..m]), key).Some? {
          forall a: int ensures MinuteBound(rs, key, limit, n, a) {
            assert MinuteBound(rs, key, limit, m, a);
          }
        }
        assert n > 1 ==> rs[n - 2].now <= rs[m].now;
        if m == 0 {
          assert rs[..0] == [];
        }
      }
    }
  }

  /** A request that opens a window. */
  lemma PacedAnew(rs: seq<Request>, key: string, limit: int, m: nat, n: nat)
    requires Ordered(rs) && limit >= 1 && m < |rs| && n == m + 1 && Paced(rs, key, limit, m)
    requires rs[m].key == key && rs[m].limit == limit && !InWindow(Get(Unpruned(rs[..m]), key), rs[m].now)
    requires NoneAfter(rs, key, m, rs[m].now)
    ensures Paced(rs, key, limit, n)
  {
    assert rs[..n][..|rs[..n]| - 1] == rs[..m];
    assert Admitted(rs, key, m);
    assert Since(rs, key, m, rs[m].now) == 0;
    forall a: int ensures Since(rs, key, n, a) == Since(rs, key, m, a) + if a <= rs[m].now then 1 else 0 {
    }
    forall a: int ensures MinuteBound(rs, key, limit, n, a) {
      assert Since(rs, key, m, a) - Since(rs, key, m, a + WINDOW) <= 2 * limit - 1 by {
        assert Get(Unpruned(rs[..m]), key).Some? ==> MinuteBound(rs, key, limit, m, a);
      }
      assert Since(rs, key, m, a + WINDOW) >= 0;
    }
  }

  /** A request inside the window of its bucket. */
  lemma PacedWithin(rs: seq<Request>, key: string, limit: int, m: nat, n: nat)
    requires Ordered(rs) && limit >= 1 && m < |rs| && n == m + 1 && Paced(rs, key, limit, m)
    requires rs[m].key == key && rs[m].limit == limit && InWindow(Get(Unpruned(rs[..m]), key), rs[m].now)
    requires NoneAfter(rs, key, m, rs[m].now)
    ensures Paced(rs, key, limit, n)
  {
    assert rs[..n][..|rs[..n]| - 1] == rs[..m];
    var b, now := Get(Unpruned(rs[..m]), key).value, rs[m].now;
    assert m > 0 ==> rs[m - 1].now <= now;
    var more := if b.count < limit then 1 else 0;
    assert Admitted(rs, key, m) <==> b.count < limit;
    forall a: int ensures Since(rs, key, n, a) == Since(rs, key, m, a) + if a <= now then more else 0 {
    }
    forall a: int ensures MinuteBound(rs, key, limit, n, a) {
      assert Since(rs, key, m, a) - Since(rs, key, m, a + WINDOW) <= 2 * limit - 1 by {
        assert Get(Unpruned(rs[..m]), key).Some? ==> MinuteBound(rs, key, limit, m, a);
      }
      assert Since(rs, key, m, a + WINDOW) >= 0;
    }
  }

  /** The start of the key's window after `n` requests. */
  function WindowAfter(rs: seq<Request>, key: string, n: nat): Option<int>
    requires n <= |rs|
  {
    match Get(Unpruned(rs[..n]), key)
    case None => None
    case Some(b) => Some(b.windowStart)
  }

  lemma WindowMoves(rs: seq<Request>, key: string, n: nat)
    requires 0 < n <= |rs| && WindowAfter(rs, key, n - 1).Some?
    ensures WindowAfter(rs, key, n).Some?
    ensures var start, next := WindowAfter(rs, key, n - 1).value, WindowAfter(rs, key, n).value;
      next == start || next == rs[n - 1].now >= start + WINDOW
  {
    assert rs[..n][..|rs[..n]| - 1] == rs[..n - 1];
  }

  /** However long the run goes on, a window holds at most L admissions. */
  lemma {:induction false} WindowHolds(rs: seq<Request>, key: string, limit: int, n: nat, m: nat)
    requires Ordered(rs) && FixedLimit(rs, key, limit) && limit >= 1 && n <= m <= |rs| && WindowAfter(rs, key, n).Some?
    ensures var start, now := WindowAfter(rs, key, n).value, WindowAfter(rs, key, m);
      && now.Some? && (now.value == start || (now.value >= start + WINDOW && m > 0 && rs[m - 1].now >= start + WINDOW))
      && Admissions(rs, key, m, start, start + WINDOW) <= limit
    decreases m
  {
    var start := WindowAfter(rs, key, n).value;
    if n < m {
      WindowHolds(rs, key, limit, n, m - 1);
      WindowMoves(rs, key, m);
      assert m > 1 ==> rs[m - 2].now <= rs[m - 1].now;
    }
    if WindowAfter(rs, key, m).value == start {
      AlwaysPaced(rs, key, limit, m);
      AdmissionsSince(rs, key, m, start, start + WINDOW);
    }
  }

  /** With a fixed limit L >= 1, every window of a key holds at most L admissions, and no half-open 60 s interval of any run holds
      more than 2L - 1 (a window always opens with an admission, which an interval reaching into the next window misses). */
  lemma RateBound(rs: seq<Request>, key: string, limit: int, a: int)
    requires Ordered(rs) && FixedLimit(rs, key, limit) && limit >= 1
    ensures Admissions(rs, key, |rs|, a, a + 60_000) <= 2 * limit - 1
    ensures forall n :: 0 <= n <= |rs| && WindowAfter(rs, key, n).Some? ==>
      Admissions(rs, key, |rs|, WindowAfter(rs, key, n).value, WindowAfter(rs, key, n).value + 60_000) <= limit
  {
    AlwaysPaced(rs, key, limit, |rs|);
    assert rs[..|rs|] == rs;
    AdmissionsSince(rs, key, |rs|, a, a + WINDOW);
    assert key in Unpruned(rs) ==> MinuteBound(rs, key, limit, |rs|, a);
    if key !in Unpruned(rs) {
      assert Since(rs, key, |rs|, a) == 0;
    }
    forall n | 0 <= n <= |rs| && WindowAfter(rs, key, n).Some?
      ensures Admissions(rs, key, |rs|, WindowAfter(rs, key, n).value, WindowAfter(rs, key, n).value + WINDOW) <= limit
    {
      WindowHolds(rs, key, limit, n, |rs|);
    }
  }

  /** One request, then L - 1 at the end of its window, then L at the start of the next. */
  function Burst(key: string, limit: nat): seq<Request> {
    seq(2 * limit, i => Request(key, limit, if i == 0 then 0 else if i < limit then WINDOW - 1 else WINDOW))
  }

  lemma {:induction false} BurstBuckets(key: string, limit: nat, n: nat)
    requires limit >= 1 && 1 <= n <= 2 * limit
    ensures var rs := Burst(key, limit); var b := Get(Unpruned(rs[..n]), key);
      && b.Some? && b.value.windowStart == (if n <= limit then 0 else WINDOW)
      && b.value.count == (if n <= limit then n else n - limit)
      && Admitted(rs, key, n - 1)
      && Admissions(rs, key, n, WINDOW - 1, 2 * WINDOW - 1) == n - 1
  {
    var rs := Burst(key, limit);
    assert rs[..n][..|rs[..n]| - 1] == rs[..n - 1];
    if n > 1 {
      BurstBuckets(key, limit, n - 1);
    } else {
      assert rs[..0] == [];
      assert Admissions(rs, key, 0, WINDOW - 1, 2 * WINDOW - 1) == 0;
    }
  }

  /** The bound is reached for every limit. */
  lemma RateBoundIsTight(key: string, limit: nat)
    requires limit >= 1
    ensures Ordered(Burst(key, limit)) && FixedLimit(Burst(key, limit), key, limit)
    ensures Admissions(Burst(key, limit), key, |Burst(key, limit)|, 59_999, 119_999) == 2 * limit - 1
  {
    BurstAdmitted(key, limit, 2 * limit);
    BurstOrdered(key, limit);
  }

  lemma BurstAdmitted(key: string, limit: nat, n: nat)
    requires limit >= 1 && n == 2 * limit
    ensures n == |Burst(key, limit)| && Admissions(Burst(key, limit), key, n, WINDOW - 1, 2 * WINDOW - 1) == n - 1
  {
    BurstBuckets(key, limit, n);
  }

  lemma BurstOrdered(key: string, limit: nat)
    ensures Ordered(Burst(key, limit)) && FixedLimit(Burst(key, limit), key, limit)
  {
  }

  // ---- Retry-After ----

  /** A rejected key that waits exactly `retry_after` seconds is admitted, and no smaller positive number of seconds suffices. */
  lemma RetryAfterIsExact(b: Bucket, limit: int, now: int, seconds: int)
    requires limit >= 1 && InWindow(Some(b), now) && b.count >= limit && seconds > 0
    ensures !Decide(Some(b), limit, now).allowed
    ensures Decide(Some(Touch(Some(b), limit, now)), limit, now + 1000 * seconds).allowed
       <==> seconds >= Decide(Some(b), limit, now).retryAfter
  {
  }

  /** A limit that is not positive admits nothing; the answer that opens a window advises no wait at all. */
  lemma NonPositiveLimitBlocks(b: Option<Bucket>, limit: int, now: int)
    requires limit <= 0 && (b.Some? ==> b.value.count >= 1)
    ensures !Decide(b, limit, now).allowed
    ensures Decide(b, limit, now).retryAfter == 0 <==> !InWindow(b, now)
  {
  }
}
