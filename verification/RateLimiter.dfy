/** The fixed-window rate limiter, and the sliding-window bound it gives. */
module RateLimiter {
  import opened Results

  type Key = nat

  datatype Bucket = Bucket(count: int, windowStart: int)

  datatype Decision = Allowed | Refused(retryAfterSeconds: int)

  datatype Limits = Limits(max: int, windowMs: int)

  /** The first request of a window always passes, whatever the limit. */
  function Quota(limits: Limits): int {
    if limits.max < 1 then 1 else limits.max
  }

  function Decide(limits: Limits, bucket: Option<Bucket>, now: int): Decision {
    if bucket == None || now - bucket.value.windowStart >= limits.windowMs then Allowed
    else if bucket.value.count >= limits.max then
      var seconds := (limits.windowMs - (now - bucket.value.windowStart) + 999) / 1000;
      Refused(if seconds < 1 then 1 else seconds)
    else Allowed
  }

  function NextBucket(limits: Limits, bucket: Option<Bucket>, now: int): Option<Bucket> {
    if bucket == None || now - bucket.value.windowStart >= limits.windowMs then Some(Bucket(1, now))
    else if bucket.value.count >= limits.max then bucket
    else Some(bucket.value.(count := bucket.value.count + 1))
  }

  class MemoryRateLimiter {
    const limits: Limits
    var buckets: map<Key, Bucket>

    constructor (limits: Limits)
      ensures this.limits == limits && buckets == map[]
    {
      this.limits := limits;
      buckets := map[];
    }

    ghost function BucketOf(key: Key): Option<Bucket>
      reads this
    {
      if key in buckets then Some(buckets[key]) else None
    }

    /** A refusal leaves everything as it was; other keys are never touched. */
    method Consume(key: Key, now: int) returns (decision: Decision)
      modifies this
      ensures decision == Decide(limits, old(BucketOf(key)), now)
      ensures BucketOf(key) == NextBucket(limits, old(BucketOf(key)), now)
      ensures forall other :: other != key ==> BucketOf(other) == old(BucketOf(other))
      ensures decision.Refused? ==> buckets == old(buckets)
    {
      if key !in buckets || now - buckets[key].windowStart >= limits.windowMs {
        buckets := buckets[key := Bucket(1, now)];
        return Allowed;
      }
      var existing := buckets[key];
      if existing.count >= limits.max {
        var retryAfterMs := limits.windowMs - (now - existing.windowStart);
        var seconds := (retryAfterMs + 999) / 1000;
        return Refused(if seconds < 1 then 1 else seconds);
      }
      buckets := buckets[key := existing.(count := existing.count + 1)];
      return Allowed;
    }
  }

  /* ---- traces ---- */

  datatype Request = Request(key: Key, at: int)

  /** The bucket of a key after a trace. */
  function BucketAfter(limits: Limits, trace: seq<Request>, key: Key): Option<Bucket> {
    if trace == [] then None
    else
      var before, last := BucketAfter(limits, trace[..|trace| - 1], key), trace[|trace| - 1];
      if last.key == key then NextBucket(limits, before, last.at) else before
  }

  /** When the requests of a key were allowed. */
  function AllowedAt(limits: Limits, trace: seq<Request>, key: Key): seq<int> {
    if trace == [] then []
    else
      var rest, last := trace[..|trace| - 1], trace[|trace| - 1];
      AllowedAt(limits, rest, key)
      + if last.key == key && Decide(limits, BucketAfter(limits, rest, key), last.at) == Allowed then [last.at] else []
  }

  predicate ClockRuns(trace: seq<Request>) {
    forall i, j :: 0 <= i < j < |trace| ==> trace[i].at <= trace[j].at
  }

  /** How many of the instants lie in [from, to). */
  function Within(times: seq<int>, from: int, to: int): nat {
    if times == [] then 0
    else Within(times[..|times| - 1], from, to) + if from <= times[|times| - 1] < to then 1 else 0
  }

  lemma {:induction false} WithinSplits(times: seq<int>, a: int, b: int, c: int)
    requires a <= b <= c
    ensures Within(times, a, c) == Within(times, a, b) + Within(times, b, c)
  {
    if times != [] {
      WithinSplits(times[..|times| - 1], a, b, c);
    }
  }

  lemma {:induction false} WithinNothing(times: seq<int>, from: int, to: int)
    requires forall i :: 0 <= i < |times| ==> !(from <= times[i] < to)
    ensures Within(times, from, to) == 0
  {
    if times != [] {
      WithinNothing(times[..|times| - 1], from, to);
    }
  }

  lemma WithinOneMore(times: seq<int>, t: int, from: int, to: int)
    ensures Within(times + [t], from, to) == Within(times, from, to) + if from <= t < to then 1 else 0
  {
    assert (times + [t])[..|times|] == times;
  }

  /** What the bucket says about the allowed instants: the current window holds `count` of them, one of
      them at its start; the window length before it, without its first instant, less than a quota; and
      none lies beyond its end. */
  ghost predicate Describes(limits: Limits, bucket: Option<Bucket>, times: seq<int>) {
    match bucket
    case None => times == []
    case Some(b) =>
      && 1 <= b.count <= Quota(limits)
      && (forall i :: 0 <= i < |times| ==> times[i] < b.windowStart + limits.windowMs)
      && Within(times, b.windowStart, b.windowStart + limits.windowMs) == b.count
      && Within(times, b.windowStart, b.windowStart + 1) >= 1
      && Within(times, b.windowStart - limits.windowMs + 1, b.windowStart) < Quota(limits)
  }

  function InWindowFrom(limits: Limits, times: seq<int>, x: int): nat {
    Within(times, x, x + limits.windowMs)
  }

  ghost predicate Bounded(limits: Limits, times: seq<int>) {
    forall x :: InWindowFrom(limits, times, x) < 2 * Quota(limits)
  }

  lemma NewWindow(limits: Limits, bucket: Option<Bucket>, times: seq<int>, now: int)
    requires limits.windowMs > 0 && Describes(limits, bucket, times) && Bounded(limits, times)
    requires bucket.Some? ==> now - bucket.value.windowStart >= limits.windowMs
    ensures Describes(limits, Some(Bucket(1, now)), times + [now]) && Bounded(limits, times + [now])
  {
    var w := limits.windowMs;
    if bucket.Some? {
      var s := bucket.value.windowStart;
      WithinNothing(times, now, now + w);
      WithinNothing(times, now, now + 1);
      WithinBeyond(times, s + 1, s + w, now - w + 1, now);
      WithinSplits(times, s, s + 1, s + w);
    } else {
      WithinNothing(times, now, now + w);
      WithinNothing(times, now, now + 1);
      WithinNothing(times, now - w + 1, now);
    }
    WithinOneMore(times, now, now, now + w);
    WithinOneMore(times, now, now, now + 1);
    WithinOneMore(times, now, now - w + 1, now);
    forall x
      ensures InWindowFrom(limits, times + [now], x) < 2 * Quota(limits)
    {
      TwoWindows(limits, Bucket(1, now), times, now, x);
    }
  }

  /** An interval of the window's length meets the current window and one stretch before it, of which it
      misses the first instant. */
  lemma TwoWindows(limits: Limits, b: Bucket, before: seq<int>, t: int, x: int)
    requires limits.windowMs > 0 && Describes(limits, Some(b), before + [t]) && Bounded(limits, before) && t >= b.windowStart
    ensures InWindowFrom(limits, before + [t], x) < 2 * Quota(limits)
  {
    var w, s, after := limits.windowMs, b.windowStart, before + [t];
    if x + w <= s {
      WithinOneMore(before, t, x, x + w);
      assert InWindowFrom(limits, before, x) < 2 * Quota(limits);
    } else if x < s {
      WithinSplits(after, x, s, x + w);
      WithinSplits(after, s - w + 1, x, s);
      WithinSplits(after, s, x + w, s + w);
    } else {
      WithinBeyond(after, s, s + w, x, x + w);
    }
  }

  lemma WithinBeyond(times: seq<int>, s: int, end: int, x: int, y: int)
    requires s <= x <= y && s <= end && forall i :: 0 <= i < |times| ==> times[i] < end
    ensures Within(times, x, y) <= Within(times, s, end)
  {
    if y <= end {
      WithinSplits(times, s, x, end);
      WithinSplits(times, x, y, end);
    } else if x <= end {
      WithinSplits(times, x, end, y);
      WithinNothing(times, end, y);
      WithinSplits(times, s, x, end);
    } else {
      WithinNothing(times, x, y);
    }
  }

  lemma SameWindow(limits: Limits, b: Bucket, times: seq<int>, now: int)
    requires limits.windowMs > 0 && Describes(limits, Some(b), times) && Bounded(limits, times)
    requires b.windowStart <= now < b.windowStart + limits.windowMs && b.count < limits.max
    ensures Describes(limits, Some(b.(count := b.count + 1)), times + [now]) && Bounded(limits, times + [now])
  {
    var w, s := limits.windowMs, b.windowStart;
    WithinOneMore(times, now, s, s + w);
    WithinOneMore(times, now, s, s + 1);
    WithinOneMore(times, now, s - w + 1, s);
    forall x
      ensures InWindowFrom(limits, times + [now], x) < 2 * Quota(limits)
    {
      TwoWindows(limits, b.(count := b.count + 1), times, now, x);
    }
  }

  lemma {:induction false} TraceIsDescribed(limits: Limits, trace: seq<Request>, key: Key)
    requires limits.windowMs > 0 && ClockRuns(trace)
    ensures Describes(limits, BucketAfter(limits, trace, key), AllowedAt(limits, trace, key))
    ensures Bounded(limits, AllowedAt(limits, trace, key))
    ensures BucketAfter(limits, trace, key).Some? ==> exists i :: 0 <= i < |trace| && trace[i].at == BucketAfter(limits, trace, key).value.windowStart
  {
    if trace != [] {
      var n := |trace| - 1;
      var rest, last := trace[..n], trace[n];
      TraceIsDescribed(limits, rest, key);
      var bucket, times := BucketAfter(limits, rest, key), AllowedAt(limits, rest, key);
      if bucket.Some? {
        var i :| 0 <= i < |rest| && rest[i].at == bucket.value.windowStart;
        assert trace[i].at <= last.at;
      }
      if last.key != key {
        assert times + [] == times;
      } else if bucket == None || last.at - bucket.value.windowStart >= limits.windowMs {
        NewWindow(limits, bucket, times, last.at);
        assert trace[n].at == last.at;
      } else if bucket.value.count < limits.max {
        SameWindow(limits, bucket.value, times, last.at);
      } else {
        assert times + [] == times;
      }
    }
  }

  /** Whatever the trace, as long as the clock does not run backwards: no interval of the window's length
      contains two full quotas of allowed requests of a key. */
  lemma SlidingWindowBound(limits: Limits, trace: seq<Request>, key: Key, x: int)
    requires ClockRuns(trace)
    ensures Within(AllowedAt(limits, trace, key), x, x + limits.windowMs) <= 2 * Quota(limits) - 1
  {
    if limits.windowMs > 0 {
      TraceIsDescribed(limits, trace, key);
      assert InWindowFrom(limits, AllowedAt(limits, trace, key), x) < 2 * Quota(limits);
    } else {
      WithinNothing(AllowedAt(limits, trace, key), x, x + limits.windowMs);
    }
  }

  lemma OneMoreRequest(limits: Limits, trace: seq<Request>, last: Request)
    ensures BucketAfter(limits, trace + [last], last.key) == NextBucket(limits, BucketAfter(limits, trace, last.key), last.at)
    ensures AllowedAt(limits, trace + [last], last.key)
            == AllowedAt(limits, trace, last.key)
               + if Decide(limits, BucketAfter(limits, trace, last.key), last.at) == Allowed then [last.at] else []
  {
    assert (trace + [last])[..|trace|] == trace;
  }

  /** One less would be wrong: the end of one window and the whole of the next. */
  lemma BoundIsReached()
    ensures var limits := Limits(2, 10);
            var trace := [Request(0, 0)] + [Request(0, 9)] + [Request(0, 10)] + [Request(0, 10)];
            ClockRuns(trace) && InWindowFrom(limits, AllowedAt(limits, trace, 0), 9) == 2 * Quota(limits) - 1
  {
    var limits := Limits(2, 10);
    var one := [Request(0, 0)];
    assert [] + one == one;
    OneMoreRequest(limits, [], Request(0, 0));
    OneMoreRequest(limits, one, Request(0, 9));
    OneMoreRequest(limits, one + [Request(0, 9)], Request(0, 10));
    OneMoreRequest(limits, one + [Request(0, 9)] + [Request(0, 10)], Request(0, 10));
    WithinOneMore([], 0, 9, 19);
    WithinOneMore([] + [0], 9, 9, 19);
    WithinOneMore([] + [0] + [9], 10, 9, 19);
    WithinOneMore([] + [0] + [9] + [10], 10, 9, 19);
  }

  /** A refused caller that waits as long as it was told, with nobody else using its key, is then allowed. */
  lemma WaitingHelps(limits: Limits, bucket: Option<Bucket>, now: int)
    requires Decide(limits, bucket, now).Refused?
    ensures NextBucket(limits, bucket, now) == bucket
    ensures Decide(limits, bucket, now).retryAfterSeconds >= 1
    ensures Decide(limits, bucket, now + 1000 * Decide(limits, bucket, now).retryAfterSeconds) == Allowed
  {
  }

  /** And no sooner: a second less is not enough. */
  lemma WaitingLessDoesNot(limits: Limits, bucket: Option<Bucket>, now: int)
    requires Decide(limits, bucket, now).Refused? && Decide(limits, bucket, now).retryAfterSeconds > 1
    ensures Decide(limits, bucket, now + 1000 * (Decide(limits, bucket, now).retryAfterSeconds - 1)).Refused?
  {
  }

  /** No refusal comes early: the window the refused request falls into is full already. */
  lemma RefusalsAreEarned(limits: Limits, trace: seq<Request>, last: Request)
    requires limits.windowMs > 0 && ClockRuns(trace + [last])
    requires Decide(limits, BucketAfter(limits, trace, last.key), last.at).Refused?
    ensures exists x :: x <= last.at < x + limits.windowMs && InWindowFrom(limits, AllowedAt(limits, trace, last.key), x) == Quota(limits)
  {
    assert forall i :: 0 <= i < |trace| ==> trace[i] == (trace + [last])[i];
    assert ClockRuns(trace);
    TraceIsDescribed(limits, trace, last.key);
    var x := BucketAfter(limits, trace, last.key).value.windowStart;
    var i :| 0 <= i < |trace| && trace[i].at == x;
    assert (trace + [last])[|trace|] == last && (trace + [last])[i].at <= last.at;
    assert InWindowFrom(limits, AllowedAt(limits, trace, last.key), x) == Quota(limits);
  }
}
