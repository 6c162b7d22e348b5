/** The fixed-window rate limiter, keyed by casino group. */
module RateLimiter {
  import opened Domain

  datatype Limiter = Limiter(maxPerWindow: int, windowMs: int)

  datatype Bucket = Bucket(count: nat, resetAt: int)

  datatype Request = Request(key: string, now: int)

  /** The bucket a request is counted in. */
  function CurrentBucket(l: Limiter, b: Option<Bucket>, now: int): Bucket {
    if b.None? || now >= b.value.resetAt then Bucket(0, now + l.windowMs) else b.value
  }

  predicate Grants(l: Limiter, b: Option<Bucket>, now: int) {
    CurrentBucket(l, b, now).count < l.maxPerWindow
  }

  function AfterRequest(l: Limiter, b: Option<Bucket>, now: int): Bucket {
    var c := CurrentBucket(l, b, now);
    if Grants(l, b, now) then c.(count := c.count + 1) else c
  }

  function BucketOf(buckets: map<string, Bucket>, key: string): Option<Bucket> {
    if key in buckets then Some(buckets[key]) else None
  }

  class GroupRateLimiter {
    const l: Limiter
    var buckets: map<string, Bucket>

    constructor (l: Limiter)
      ensures this.l == l && buckets == map[]
    {
      this.l := l;
      buckets := map[];
    }

    method TryConsume(key: string, now: int) returns (granted: bool)
      modifies this
      ensures granted == Grants(l, BucketOf(old(buckets), key), now)
      ensures buckets == old(buckets)[key := AfterRequest(l, BucketOf(old(buckets), key), now)]
    {
      var bucket := BucketOf(buckets, key);
      if bucket.None? || now >= bucket.value.resetAt {
        bucket := Some(Bucket(0, now + l.windowMs));
        buckets := buckets[key := bucket.value];
      }
      if bucket.value.count >= l.maxPerWindow {
        assert buckets[key] == bucket.value;
        return false;
      }
      buckets := buckets[key := bucket.value.(count := bucket.value.count + 1)];
      granted := true;
    }
  }

  // Runs

  function BucketsAfter(l: Limiter, run: seq<Request>): map<string, Bucket> {
    if run == [] then map[]
    else
      var before, last := BucketsAfter(l, run[..|run| - 1]), run[|run| - 1];
      before[last.key := AfterRequest(l, BucketOf(before, last.key), last.now)]
  }

  /** The times at which the key was granted a request. */
  function GrantTimes(l: Limiter, run: seq<Request>, key: string): seq<int> {
    if run == [] then []
    else
      var front, last := run[..|run| - 1], run[|run| - 1];
      GrantTimes(l, front, key)
      + if last.key == key && Grants(l, BucketOf(BucketsAfter(l, front), key), last.now) then [last.now] else []
  }

  function Only(run: seq<Request>, key: string): seq<Request> {
    if run == [] then []
    else Only(run[..|run| - 1], key) + if run[|run| - 1].key == key then [run[|run| - 1]] else []
  }

  /** Requests of other keys make no difference to a key's bucket or grants. */
  lemma {:induction false} KeysAreIndependent(l: Limiter, run: seq<Request>, key: string)
    ensures BucketOf(BucketsAfter(l, run), key) == BucketOf(BucketsAfter(l, Only(run, key)), key)
    ensures GrantTimes(l, run, key) == GrantTimes(l, Only(run, key), key)
  {
    if run != [] {
      var front, last := run[..|run| - 1], run[|run| - 1];
      KeysAreIndependent(l, front, key);
      var only := Only(front, key);
      if last.key == key {
        assert Only(run, key) == only + [last] && (only + [last])[..|only|] == only;
      } else {
        assert Only(run, key) == only;
      }
    }
  }

  predicate Monotone(run: seq<Request>) {
    forall i, j :: 0 <= i < j < |run| ==> run[i].now <= run[j].now
  }

  /** How many of these times fall into [t, t + window). */
  function Within(times: seq<int>, t: int, window: int): (n: nat)
    ensures n <= |times|
  {
    if times == [] then 0
    else Within(times[..|times| - 1], t, window) + if t <= times[|times| - 1] < t + window then 1 else 0
  }

  lemma {:induction false} WithinConcat(a: seq<int>, b: seq<int>, t: int, window: int)
    ensures Within(a + b, t, window) == Within(a, t, window) + Within(b, t, window)
  {
    if b == [] {
      assert a + b == a;
    } else {
      assert (a + b)[..|a + b| - 1] == a + b[..|b| - 1];
      WithinConcat(a, b[..|b| - 1], t, window);
    }
  }

  lemma {:induction false} NoneWithin(times: seq<int>, t: int, window: int)
    requires forall i :: 0 <= i < |times| ==> times[i] < t || times[i] >= t + window
    ensures Within(times, t, window) == 0
  {
    if times != [] {
      NoneWithin(times[..|times| - 1], t, window);
    }
  }

  function Most(l: Limiter): nat {
    if l.maxPerWindow < 0 then 0 else l.maxPerWindow
  }

  /** Two buckets' worth, less the grant that opens the first of them. */
  function Bound(l: Limiter): nat {
    if l.maxPerWindow < 1 then 0 else 2 * l.maxPerWindow - 1
  }

  /** The grants of a key: those of earlier buckets, all before the current bucket starts, and those of
      the current bucket, the first of which starts it. An interval that reaches into the current bucket
      misses the start of the bucket before, and so holds less than one bucket's worth of the earlier
      grants. */
  ghost predicate Split(l: Limiter, b: Bucket, earlier: seq<int>, current: seq<int>, now: int) {
    var openedAt := b.resetAt - l.windowMs;
    && |current| == b.count <= Most(l) && openedAt <= now
    && (forall i :: 0 <= i < |earlier| ==> earlier[i] < openedAt)
    && (forall i :: 0 <= i < |current| ==> openedAt <= current[i] < b.resetAt)
    && (if Most(l) == 0 then current == [] else current != [] && current[0] == openedAt)
    && (forall t: int :: Within(earlier, t, l.windowMs) <= Bound(l))
    && (forall t: int :: t + l.windowMs > openedAt ==> Within(earlier, t, l.windowMs) <= Bound(l) - Most(l))
  }

  lemma SplitBounds(l: Limiter, b: Bucket, earlier: seq<int>, current: seq<int>, now: int, t: int)
    requires Split(l, b, earlier, current, now)
    ensures Within(earlier + current, t, l.windowMs) <= Bound(l)
    ensures t > b.resetAt - l.windowMs ==> Within(earlier + current, t, l.windowMs) <= Bound(l) - Most(l)
  {
    WithinConcat(earlier, current, t, l.windowMs);
    if t + l.windowMs <= b.resetAt - l.windowMs {
      NoneWithin(current, t, l.windowMs);
    }
    if t > b.resetAt - l.windowMs {
      NoneWithin(earlier, t, l.windowMs);
      if current != [] {
        assert [current[0]] + current[1..] == current;
        WithinConcat([current[0]], current[1..], t, l.windowMs);
        NoneWithin([current[0]], t, l.windowMs);
      }
    }
  }

  /** One more request of the key, at a later time. */
  lemma SplitStep(l: Limiter, b: Bucket, earlier: seq<int>, current: seq<int>, before: int, now: int)
    returns (earlier': seq<int>, current': seq<int>)
    requires l.windowMs > 0 && before <= now && Split(l, b, earlier, current, before)
    ensures earlier' + current' == earlier + current + if Grants(l, Some(b), now) then [now] else []
    ensures Split(l, AfterRequest(l, Some(b), now), earlier', current', now)
  {
    var more := if Grants(l, Some(b), now) then [now] else [];
    if now >= b.resetAt {
      earlier', current' := earlier + current, more;
      EarlierBounds(l, b, earlier, current, before, now);
      hide Within;
    } else {
      hide Within;
      earlier', current' := earlier, current + more;
      assert earlier + (current + more) == earlier + current + more;
    }
  }

  lemma EarlierBounds(l: Limiter, b: Bucket, earlier: seq<int>, current: seq<int>, before: int, now: int)
    requires Split(l, b, earlier, current, before) && now >= b.resetAt
    ensures forall t: int :: Within(earlier + current, t, l.windowMs) <= Bound(l)
    ensures forall t: int :: t + l.windowMs > now ==> Within(earlier + current, t, l.windowMs) <= Bound(l) - Most(l)
  {
    hide Split, Within;
    forall t: int
      ensures Within(earlier + current, t, l.windowMs) <= Bound(l)
      ensures t + l.windowMs > now ==> Within(earlier + current, t, l.windowMs) <= Bound(l) - Most(l)
    {
      SplitBounds(l, b, earlier, current, before, t);
    }
  }

  /** Every run of one key splits. */
  lemma {:induction false} RunSplits(l: Limiter, run: seq<Request>, key: string) returns (earlier: seq<int>, current: seq<int>)
    requires l.windowMs > 0 && Monotone(run) && run != [] && forall i :: 0 <= i < |run| ==> run[i].key == key
    ensures earlier + current == GrantTimes(l, run, key)
    ensures key in BucketsAfter(l, run) && Split(l, BucketsAfter(l, run)[key], earlier, current, run[|run| - 1].now)
  {
    var front, last := run[..|run| - 1], run[|run| - 1];
    if front == [] {
      earlier, current := [], GrantTimes(l, run, key);
      assert GrantTimes(l, [], key) == [] && BucketsAfter(l, []) == map[];
    } else {
      earlier, current := RunSplits(l, front, key);
      earlier, current := SplitStep(l, BucketsAfter(l, front)[key], earlier, current, front[|front| - 1].now, last.now);
    }
  }

  lemma {:induction false} OnlyIsOrdered(run: seq<Request>, key: string)
    requires Monotone(run)
    ensures Monotone(Only(run, key))
    ensures forall i :: 0 <= i < |Only(run, key)| ==> Only(run, key)[i].key == key && Only(run, key)[i] in run
  {
    if run != [] {
      OnlyIsOrdered(run[..|run| - 1], key);
    }
  }

  /** Over any run with a monotone clock, a key is granted at most the maximum per bucket, and less than
      twice the maximum in any interval as long as the window. */
  lemma WindowBound(l: Limiter, run: seq<Request>, key: string, t: int)
    requires Monotone(run)
    ensures key in BucketsAfter(l, run) ==> BucketsAfter(l, run)[key].count <= Most(l)
    ensures Within(GrantTimes(l, run, key), t, l.windowMs) <= Bound(l)
  {
    CountBounded(l, run, key);
    KeysAreIndependent(l, run, key);
    OnlyIsOrdered(run, key);
    if l.windowMs <= 0 {
      NoneWithin(GrantTimes(l, run, key), t, l.windowMs);
    } else if Only(run, key) != [] {
      var earlier, current := RunSplits(l, Only(run, key), key);
      SplitBounds(l, BucketsAfter(l, Only(run, key))[key], earlier, current, Only(run, key)[|Only(run, key)| - 1].now, t);
    }
  }

  /** A request is refused only when the key already has its maximum of grants within the last window. */
  lemma RefusedWhenFull(l: Limiter, run: seq<Request>, key: string, now: int) returns (t: int)
    requires Monotone(run) && (run != [] ==> run[|run| - 1].now <= now) && l.windowMs > 0
    requires !Grants(l, BucketOf(BucketsAfter(l, run), key), now)
    ensures t <= now < t + l.windowMs && Within(GrantTimes(l, run, key), t, l.windowMs) >= Most(l)
  {
    t := now;
    KeysAreIndependent(l, run, key);
    OnlyIsOrdered(run, key);
    var only := Only(run, key);
    if only != [] {
      var earlier, current := RunSplits(l, only, key);
      var b := BucketsAfter(l, only)[key];
      if now < b.resetAt && Most(l) > 0 {
        t := b.resetAt - l.windowMs;
        WithinConcat(earlier, current, t, l.windowMs);
        AllWithin(current, t, l.windowMs);
        LastIsNoLater(run, key);
      }
    } else {
      assert BucketsAfter(l, only) == map[];
    }
  }

  lemma {:induction false} AllWithin(times: seq<int>, t: int, window: int)
    requires forall i :: 0 <= i < |times| ==> t <= times[i] < t + window
    ensures Within(times, t, window) == |times|
  {
    if times != [] {
      AllWithin(times[..|times| - 1], t, window);
    }
  }

  lemma {:induction false} LastIsNoLater(run: seq<Request>, key: string)
    requires Monotone(run) && Only(run, key) != []
    ensures run != [] && Only(run, key)[|Only(run, key)| - 1].now <= run[|run| - 1].now
  {
    OnlyIsOrdered(run, key);
    var r := Only(run, key)[|Only(run, key)| - 1];
    assert r in run;
  }

  lemma {:induction false} CountBounded(l: Limiter, run: seq<Request>, key: string)
    ensures key in BucketsAfter(l, run) ==> BucketsAfter(l, run)[key].count <= Most(l)
  {
    if run != [] {
      CountBounded(l, run[..|run| - 1], key);
    }
  }

  lemma NextRequest(l: Limiter, run: seq<Request>, r: Request)
    ensures BucketsAfter(l, run + [r]) == BucketsAfter(l, run)[r.key := AfterRequest(l, BucketOf(BucketsAfter(l, run), r.key), r.now)]
    ensures GrantTimes(l, run + [r], r.key)
         == GrantTimes(l, run, r.key) + if Grants(l, BucketOf(BucketsAfter(l, run), r.key), r.now) then [r.now] else []
  {
    assert (run + [r])[..|run|] == run;
  }

  /** The bound is reached: with two requests per ten milliseconds, three are granted within ten. */
  lemma BoundIsReached() returns (l: Limiter, run: seq<Request>)
    ensures l == Limiter(2, 10) && Monotone(run) && Within(GrantTimes(l, run, "k"), 1, 10) == Bound(l)
  {
    l := Limiter(2, 10);
    var r0, r9, r10 := Request("k", 0), Request("k", 9), Request("k", 10);
    run := [] + [r0] + [r9] + [r10] + [r10];
    assert BucketsAfter(l, []) == map[] && GrantTimes(l, [], "k") == [];
    hide BucketsAfter, GrantTimes, Within;
    NextRequest(l, [], r0);
    NextRequest(l, [] + [r0], r9);
    NextRequest(l, [] + [r0] + [r9], r10);
    NextRequest(l, [] + [r0] + [r9] + [r10], r10);
    assert GrantTimes(l, run, "k") == [0, 9, 10, 10];
    ThreeWithin();
  }

  lemma ThreeWithin()
    ensures Within([0, 9, 10, 10], 1, 10) == 3
  {
    assert [0, 9, 10, 10] == [0] + [9] + [10] + [10];
    WithinConcat([0] + [9] + [10], [10], 1, 10);
    WithinConcat([0] + [9], [10], 1, 10);
    WithinConcat([0], [9], 1, 10);
  }
}
