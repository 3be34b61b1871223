/** The fixed-window request limiter and the sliding-window bound it really gives. */
module RateLimiter {

  datatype Limits = Limits(windowSeconds: int, maxRequests: nat)

  datatype Bucket = Bucket(startedAt: int, count: nat)

  /** `RateLimiter.allow`: the answer and the buckets it leaves. */
  function Allow(l: Limits, buckets: map<string, Bucket>, key: string, now: int): (bool, map<string, Bucket>) {
    var b := if key in buckets then buckets[key] else Bucket(now, 0);
    if now - b.startedAt >= l.windowSeconds then (true, buckets[key := Bucket(now, 1)])
    else if b.count >= l.maxRequests then (false, buckets)
    else (true, buckets[key := Bucket(b.startedAt, b.count + 1)])
  }

  datatype Call = Call(key: string, now: int)

  ghost predicate ClockRuns(calls: seq<Call>) {
    forall i, j :: 0 <= i < j < |calls| ==> calls[i].now <= calls[j].now
  }

  function BucketsAfter(l: Limits, calls: seq<Call>, n: nat): map<string, Bucket>
    requires n <= |calls|
  {
    if n == 0 then map[]
    else Allow(l, BucketsAfter(l, calls, n - 1), calls[n - 1].key, calls[n - 1].now).1
  }

  /** The times at which the first `n` calls admitted `key`. */
  function Admitted(l: Limits, calls: seq<Call>, key: string, n: nat): seq<int>
    requires n <= |calls|
  {
    if n == 0 then []
    else
      var c := calls[n - 1];
      Admitted(l, calls, key, n - 1)
      + if c.key == key && Allow(l, BucketsAfter(l, calls, n - 1), c.key, c.now).0 then [c.now] else []
  }

  /** The bucket counts the admissions since `startedAt`, and the bucket before it, which started at
      least a window earlier, holds at most the maximum. */
  ghost predicate BucketTells(l: Limits, b: Bucket, h: seq<int>, clock: int) {
    && 1 <= b.count <= |h| && b.count <= l.maxRequests
    && b.startedAt <= clock
    && (forall i :: 0 <= i < |h| ==> h[i] <= clock)
    && (forall i :: 0 <= i <= |h| - b.count ==> h[i] <= b.startedAt)
    && (forall i :: 0 <= i <= |h| - b.count - l.maxRequests ==> h[i] <= b.startedAt - l.windowSeconds)
  }

  ghost predicate Spread(l: Limits, h: seq<int>) {
    l.maxRequests > 0 ==>
      forall i :: 0 <= i && i + 2 * l.maxRequests - 1 < |h| ==> h[i + 2 * l.maxRequests - 1] - h[i] >= l.windowSeconds
  }

  lemma AdmissionKeepsSpread(l: Limits, b: Bucket, h: seq<int>, clock: int, now: int)
    requires BucketTells(l, b, h, clock) && Spread(l, h) && clock <= now
    ensures now - b.startedAt >= l.windowSeconds ==>
        BucketTells(l, Bucket(now, 1), h + [now], now) && Spread(l, h + [now])
    ensures now - b.startedAt < l.windowSeconds && b.count < l.maxRequests
            ==> BucketTells(l, Bucket(b.startedAt, b.count + 1), h + [now], now) && Spread(l, h + [now])
  {
    var i := |h| - 2 * l.maxRequests + 1;
    if 0 <= i < |h| && now - b.startedAt >= l.windowSeconds {
      assert h[i] <= b.startedAt;
    }
  }

  ghost predicate Invariant(l: Limits, buckets: map<string, Bucket>, h: seq<int>, key: string, clock: int) {
    && Spread(l, h)
    && (if key in buckets then BucketTells(l, buckets[key], h, clock) else h == [])
  }

  lemma CallKeepsInvariant(l: Limits, buckets: map<string, Bucket>, h: seq<int>, key: string, clock: int, c: Call)
    requires Invariant(l, buckets, h, key, clock) && clock <= c.now && l.windowSeconds > 0
    ensures var (ok, after) := Allow(l, buckets, c.key, c.now);
            Invariant(l, after, if c.key == key && ok then h + [c.now] else h, key, c.now)
  {
    if c.key == key {
      if key in buckets {
        AdmissionKeepsSpread(l, buckets[key], h, clock, c.now);
      }
    } else {
      var after := Allow(l, buckets, c.key, c.now).1;
      assert key in after <==> key in buckets;
    }
  }

  function ClockAfter(calls: seq<Call>, n: nat): int
    requires n <= |calls|
  {
    if calls == [] then 0 else if n == 0 then calls[0].now else calls[n - 1].now
  }

  ghost predicate InOrder(h: seq<int>, bound: int) {
    && (forall i :: 0 <= i < |h| ==> h[i] <= bound)
    && (forall i, j :: 0 <= i < j < |h| ==> h[i] <= h[j])
  }

  lemma {:induction false} LimiterInvariant(l: Limits, calls: seq<Call>, key: string, n: nat)
    requires n <= |calls| && ClockRuns(calls) && l.windowSeconds > 0
    ensures Invariant(l, BucketsAfter(l, calls, n), Admitted(l, calls, key, n), key, ClockAfter(calls, n))
  {
    if n > 0 {
      LimiterInvariant(l, calls, key, n - 1);
      CallKeepsInvariant(l, BucketsAfter(l, calls, n - 1), Admitted(l, calls, key, n - 1), key,
                         ClockAfter(calls, n - 1), calls[n - 1]);
    }
  }

  lemma {:induction false} AdmittedInOrder(l: Limits, calls: seq<Call>, key: string, n: nat)
    requires n <= |calls| && ClockRuns(calls)
    ensures InOrder(Admitted(l, calls, key, n), ClockAfter(calls, n))
  {
    if n > 0 {
      AdmittedInOrder(l, calls, key, n - 1);
      OrderedSnoc(Admitted(l, calls, key, n - 1), ClockAfter(calls, n - 1), calls[n - 1].now);
    }
  }

  lemma OrderedSnoc(h: seq<int>, bound: int, now: int)
    requires InOrder(h, bound) && bound <= now
    ensures InOrder(h, now) && InOrder(h + [now], now)
  {
  }

  lemma SpreadBounds(l: Limits, h: seq<int>, i: nat, j: nat)
    requires Spread(l, h) && l.maxRequests > 0 && i + 2 * l.maxRequests - 1 <= j < |h|
    requires forall a, b :: 0 <= a < b < |h| ==> h[a] <= h[b]
    ensures h[j] - h[i] >= l.windowSeconds
  {
    var m := i + 2 * l.maxRequests - 1;
    assert h[m] - h[i] >= l.windowSeconds;
    assert m == j || h[m] <= h[j];
  }

  /** For every key and every run with a clock that never goes back, an interval shorter than the
      window admits fewer than twice the maximum. */
  lemma FewerThanTwiceTheMaximum(l: Limits, calls: seq<Call>, key: string, i: nat, j: nat)
    requires ClockRuns(calls) && l.windowSeconds > 0
    requires i <= j < |Admitted(l, calls, key, |calls|)|
    requires Admitted(l, calls, key, |calls|)[j] - Admitted(l, calls, key, |calls|)[i] < l.windowSeconds
    ensures j - i + 1 <= 2 * l.maxRequests - 1
  {
    LimiterInvariant(l, calls, key, |calls|);
    AdmittedInOrder(l, calls, key, |calls|);
    if j - i + 1 > 2 * l.maxRequests - 1 {
      SpreadBounds(l, Admitted(l, calls, key, |calls|), i, j);
    }
  }

  /** One call to open a window, the rest of the maximum at its last instant, and a full window's
      worth at the next. */
  ghost function Burst(l: Limits, key: string): seq<Call> {
    seq(2 * l.maxRequests, i requires 0 <= i < 2 * l.maxRequests =>
      Call(key, if i == 0 then 0 else if i < l.maxRequests then l.windowSeconds - 1 else l.windowSeconds))
  }

  lemma {:induction false} BurstIsAdmitted(l: Limits, key: string, n: nat)
    requires n <= 2 * l.maxRequests && l.windowSeconds > 0
    ensures Admitted(l, Burst(l, key), key, n) == seq(n, i requires 0 <= i < n => Burst(l, key)[i].now)
    ensures n > 0 ==> key in BucketsAfter(l, Burst(l, key), n)
                      && BucketsAfter(l, Burst(l, key), n)[key]
                         == if n <= l.maxRequests then Bucket(0, n) else Bucket(l.windowSeconds, n - l.maxRequests)
  {
    if n > 0 { BurstIsAdmitted(l, key, n - 1); }
  }

  /** The bound is exact: the burst gets one less than twice the maximum through within one second. */
  lemma BoundIsReached(l: Limits, key: string)
    requires l.maxRequests > 0 && l.windowSeconds > 1
    ensures var h := Admitted(l, Burst(l, key), key, |Burst(l, key)|);
            && ClockRuns(Burst(l, key))
            && |h| == 2 * l.maxRequests
            && h[|h| - 1] - h[1] <= 1 < l.windowSeconds
  {
    BurstIsAdmitted(l, key, 2 * l.maxRequests);
  }

  /** The rate limit read literally: no interval shorter than the window admits more than the maximum. */
  ghost predicate NeverExceedsMaximum(l: Limits) {
    forall calls: seq<Call>, key: string, i: nat, j: nat ::
      ClockRuns(calls) && i <= j < |Admitted(l, calls, key, |calls|)|
      && Admitted(l, calls, key, |calls|)[j] - Admitted(l, calls, key, |calls|)[i] < l.windowSeconds
      ==> j - i + 1 <= l.maxRequests
  }

  /** It holds exactly for limits of at most one request. */
  lemma NeverExceedsMaximumIff(l: Limits)
    requires l.windowSeconds > 1
    ensures NeverExceedsMaximum(l) <==> l.maxRequests <= 1
  {
    if l.maxRequests <= 1 {
      forall calls: seq<Call>, key: string, i: nat, j: nat |
        ClockRuns(calls) && i <= j < |Admitted(l, calls, key, |calls|)|
        && Admitted(l, calls, key, |calls|)[j] - Admitted(l, calls, key, |calls|)[i] < l.windowSeconds
        ensures j - i + 1 <= l.maxRequests
      {
        FewerThanTwiceTheMaximum(l, calls, key, i, j);
      }
    } else {
      BoundIsReached(l, "");
      var j := 2 * l.maxRequests - 1;
      assert 1 <= j < |Admitted(l, Burst(l, ""), "", |Burst(l, "")|)|;
    }
  }

  /** The limiter object, with its buckets updated in place. */
  class Limiter {
    const limits: Limits
    var buckets: map<string, Bucket>

    constructor (limits: Limits)
      ensures this.limits == limits && buckets == map[]
    {
      this.limits := limits;
      buckets := map[];
    }

    method AllowRequest(key: string, now: int) returns (ok: bool)
      modifies this
      ensures (ok, buckets) == Allow(limits, old(buckets), key, now)
    {
      var b := if key in buckets then buckets[key] else Bucket(now, 0);
      if now - b.startedAt >= limits.windowSeconds {
        buckets := buckets[key := Bucket(now, 1)];
        return true;
      }
      if b.count >= limits.maxRequests {
        return false;
      }
      buckets := buckets[key := Bucket(b.startedAt, b.count + 1)];
      return true;
    }
  }
}
