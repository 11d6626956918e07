/** The latency histogram, its percentiles, and the bounded record of slow requests. */
module Latencies {
  import opened Text

  /** Upper bounds in milliseconds; the last bucket takes everything slower. */
  const BOUNDS: seq<nat> := [1, 5, 10, 25, 50, 100, 250, 500, 1000, 2500, 5000, 10000, SIZE_MAX]
  const BUCKETS: nat := 13

  lemma BoundsAscend()
    ensures |BOUNDS| == BUCKETS && BOUNDS[12] == SIZE_MAX
    ensures forall i, j | 0 <= i < j < BUCKETS :: BOUNDS[i] < BOUNDS[j]
  {
  }

  /** How many samples are at most `v`. */
  function AtMost(samples: seq<nat>, v: nat): (n: nat)
    ensures n <= |samples|
  {
    if samples == [] then 0
    else AtMost(samples[..|samples| - 1], v) + if samples[|samples| - 1] <= v then 1 else 0
  }

  function Below(samples: seq<nat>, v: nat): nat { if v == 0 then 0 else AtMost(samples, v - 1) }

  /** `v` is the `rank`-th smallest sample. */
  predicate IsRanked(samples: seq<nat>, rank: nat, v: nat) {
    Below(samples, v) < rank <= AtMost(samples, v)
  }

  lemma {:induction false} AtMostGrows(samples: seq<nat>, v: nat, w: nat)
    requires v <= w
    ensures AtMost(samples, v) <= AtMost(samples, w)
    decreases |samples|
  {
    if samples != [] {
      AtMostGrows(samples[..|samples| - 1], v, w);
    }
  }

  lemma {:induction false} AtMostAll(samples: seq<nat>, v: nat)
    requires forall i | 0 <= i < |samples| :: samples[i] <= v
    ensures AtMost(samples, v) == |samples|
    decreases |samples|
  {
    if samples != [] {
      AtMostAll(samples[..|samples| - 1], v);
    }
  }

  /** Every rank has its sample, and only one value. */
  lemma {:induction false} RankedExists(samples: seq<nat>, rank: nat, limit: nat) returns (v: nat)
    requires 1 <= rank <= AtMost(samples, limit)
    ensures IsRanked(samples, rank, v) && v <= limit
    decreases limit
  {
    if Below(samples, limit) < rank {
      return limit;
    }
    v := RankedExists(samples, rank, limit - 1);
  }

  lemma RankedUnique(samples: seq<nat>, rank: nat, v: nat, w: nat)
    requires IsRanked(samples, rank, v) && IsRanked(samples, rank, w)
    ensures v == w
  {
    if v < w {
      AtMostGrows(samples, v, w - 1);
    } else if w < v {
      AtMostGrows(samples, w, v - 1);
    }
  }

  /** The first bucket whose bound is not below the sample. */
  ghost predicate InBucket(bucket: nat, v: nat) {
    bucket < BUCKETS && v <= BOUNDS[bucket] && (bucket > 0 ==> BOUNDS[bucket - 1] < v)
  }

  /** The running total over the buckets up to and including `k`. */
  function Cumulative(buckets: seq<nat>, k: nat): nat
    requires k < |buckets|
  {
    buckets[k] + if k == 0 then 0 else Cumulative(buckets, k - 1)
  }

  /** The histogram counts each sample in its bucket. */
  ghost predicate Counts(buckets: seq<nat>, samples: seq<nat>) {
    |buckets| == BUCKETS && forall k: nat | k < BUCKETS :: Cumulative(buckets, k) == AtMost(samples, BOUNDS[k])
  }

  lemma {:induction false} CumulativeStep(buckets: seq<nat>, bucket: nat, k: nat)
    requires bucket < |buckets| && k < |buckets|
    ensures Cumulative(buckets[bucket := buckets[bucket] + 1], k) == Cumulative(buckets, k) + if bucket <= k then 1 else 0
    decreases k
  {
    if k > 0 {
      CumulativeStep(buckets, bucket, k - 1);
    }
  }

  lemma CountsOneMore(buckets: seq<nat>, samples: seq<nat>, bucket: nat, v: nat)
    requires Counts(buckets, samples) && InBucket(bucket, v)
    ensures Counts(buckets[bucket := buckets[bucket] + 1], samples + [v])
  {
    BoundsAscend();
    hide BOUNDS;
    forall k: nat | k < BUCKETS
      ensures Cumulative(buckets[bucket := buckets[bucket] + 1], k) == AtMost(samples + [v], BOUNDS[k])
    {
      CumulativeStep(buckets, bucket, k);
      assert (samples + [v])[..|samples|] == samples;
    }
  }

  // ---------------------------------------------------------------- percentiles

  /** The answer for the bucket where the running total reaches the rank. */
  function Reported(bucket: nat, latencyMax: nat): nat
    requires bucket < BUCKETS && BUCKETS == |BOUNDS|
  {
    if BOUNDS[bucket] == SIZE_MAX then latencyMax else BOUNDS[bucket]
  }

  ghost predicate FirstReaching(buckets: seq<nat>, rank: nat, bucket: nat) {
    && bucket < |buckets| && Cumulative(buckets, bucket) >= rank
    && (bucket > 0 ==> Cumulative(buckets, bucket - 1) < rank)
  }

  /** The exact rank-th smallest sample lies in the bucket whose bound is reported; in the last
  bucket it is at most the maximum, which is what is reported. */
  lemma PercentileBrackets(buckets: seq<nat>, samples: seq<nat>, rank: nat, bucket: nat, v: nat, latencyMax: nat)
    requires Counts(buckets, samples) && FirstReaching(buckets, rank, bucket) && 1 <= rank
    requires IsRanked(samples, rank, v) && v <= latencyMax
    ensures |BOUNDS| == BUCKETS && InBucket(bucket, v) && v <= Reported(bucket, latencyMax)
  {
    BoundsAscend();
    hide BOUNDS;
    if v > BOUNDS[bucket] {
      AtMostGrows(samples, BOUNDS[bucket], v - 1);
    }
    if bucket > 0 && v <= BOUNDS[bucket - 1] {
      AtMostGrows(samples, v, BOUNDS[bucket - 1]);
    }
  }

  lemma {:induction false} CumulativeGrows(buckets: seq<nat>, j: nat, k: nat)
    requires j <= k < |buckets|
    ensures Cumulative(buckets, j) <= Cumulative(buckets, k)
    decreases k
  {
    if j < k {
      CumulativeGrows(buckets, j, k - 1);
    }
  }

  /** A higher rank never reports less: p50 <= p95 <= p99. */
  lemma PercentilesAscend(buckets: seq<nat>, samples: seq<nat>, low: nat, high: nat, a: nat, b: nat, latencyMax: nat)
    requires Counts(buckets, samples) && 1 <= low <= high <= |samples|
    requires FirstReaching(buckets, low, a) && FirstReaching(buckets, high, b)
    requires forall i | 0 <= i < |samples| :: samples[i] <= latencyMax <= SIZE_MAX
    ensures |BOUNDS| == BUCKETS && Reported(a, latencyMax) <= Reported(b, latencyMax)
  {
    BoundsAscend();
    hide BOUNDS;
    if a > b {
      CumulativeGrows(buckets, b, a - 1);
    }
    AtMostAll(samples, latencyMax);
    var v := RankedExists(samples, high, latencyMax);
    PercentileBrackets(buckets, samples, high, b, v, latencyMax);
  }

  /** The exact ceiling of `ratio * count`. */
  function Ceiling(x: real): int { -((-x).Floor) }

  lemma RankInRange(ratio: real, count: nat)
    requires 0.0 < ratio <= 1.0 && count > 0
    ensures 1 <= Ceiling(ratio * count as real) <= count
  {
    assert 0.0 < ratio * count as real <= count as real;
  }

  // ---------------------------------------------------------------- the store

  /** The last `limit` of a list. */
  function Newest<T>(items: seq<T>, limit: nat): seq<T> {
    if |items| <= limit then items else items[|items| - limit..]
  }

  lemma NewestOfMore<T>(items: seq<T>, more: T, limit: nat)
    ensures Newest(Newest(items, limit) + [more], limit) == Newest(items + [more], limit)
  {
  }

  /** The least and the greatest sample. */
  ghost predicate Extremes(samples: seq<nat>, least: nat, greatest: nat) {
    && (forall i | 0 <= i < |samples| :: least <= samples[i] <= greatest <= SIZE_MAX)
    && (if samples == [] then greatest == 0 else least in samples && greatest in samples)
  }

  lemma ExtremesOfMore(samples: seq<nat>, least: nat, greatest: nat, more: nat)
    requires Extremes(samples, least, greatest) && more <= SIZE_MAX
    ensures Extremes(samples + [more], if samples == [] || more < least then more else least,
                     if more > greatest then more else greatest)
  {
    var all := samples + [more];
    assert all[|samples|] == more;
    assert forall i | 0 <= i < |samples| :: all[i] == samples[i];
  }

  /** What `Percentile` reports for a rank: the bound of the bucket where the running total
  reaches it, or the maximum. */
  ghost predicate Reports(buckets: seq<nat>, rank: nat, latencyMax: nat, reported: nat) {
    exists bucket: nat ::
      FirstReaching(buckets, rank, bucket) && bucket < BUCKETS == |BOUNDS| && reported == Reported(bucket, latencyMax)
  }

  class ObservabilityStore {
    var requestCount: nat
    var latencyMin: nat
    var latencyMax: nat
    var latencySum: nat
    var latencyBuckets: seq<nat>
    var slowThreshold: nat
    var slowLimit: nat
    var slowRequests: seq<nat>
    ghost var samples: seq<nat>
    /** Latencies of all slow requests since the limits last changed, the kept ones included. */
    ghost var slowSeen: seq<nat>

    ghost predicate Valid()
      reads this
    {
      && requestCount == |samples| && Counts(latencyBuckets, samples)
      && Extremes(samples, latencyMin, latencyMax)
      && slowRequests == Newest(slowSeen, slowLimit)
    }

    constructor (slowThreshold: nat, slowLimit: nat)
      ensures Valid() && samples == []
    {
      BoundsAscend();
      requestCount, latencyMin, latencyMax, latencySum := 0, 0, 0, 0;
      latencyBuckets := seq(BUCKETS, _ => 0);
      this.slowThreshold, this.slowLimit, slowRequests := slowThreshold, slowLimit, [];
      samples, slowSeen := [], [];
      new;
      forall k: nat | k < BUCKETS ensures Cumulative(latencyBuckets, k) == 0 {
        NothingCounted(latencyBuckets, k);
      }
    }

    lemma {:induction false} NothingCounted(buckets: seq<nat>, k: nat)
      requires k < |buckets| && forall i | 0 <= i < |buckets| :: buckets[i] == 0
      ensures Cumulative(buckets, k) == 0
      decreases k
    {
      if k > 0 {
        NothingCounted(buckets, k - 1);
      }
    }

    /** `std::lower_bound` on the bounds. */
    method BucketOf(latency: nat) returns (bucket: nat)
      requires latency <= SIZE_MAX
      ensures InBucket(bucket, latency)
    {
      BoundsAscend();
      hide BOUNDS;
      var low, high := 0, BUCKETS - 1;
      while low < high
        invariant 0 <= low <= high < BUCKETS && latency <= BOUNDS[high] && (low > 0 ==> BOUNDS[low - 1] < latency)
      {
        var middle := (low + high) / 2;
        if BOUNDS[middle] < latency {
          low := middle + 1;
        } else {
          high := middle;
        }
      }
      bucket := low;
    }

    method RecordRequest(latency: nat)
      requires Valid() && latency <= SIZE_MAX
      modifies this
      ensures Valid() && samples == old(samples) + [latency]
      ensures latencySum == old(latencySum) + latency
      ensures slowSeen == if latency >= old(slowThreshold) then old(slowSeen) + [latency] else old(slowSeen)
      ensures slowThreshold == old(slowThreshold) && slowLimit == old(slowLimit)
    {
      hide Counts, InBucket, Extremes, Newest;
      ExtremesOfMore(samples, latencyMin, latencyMax, latency);
      requestCount := requestCount + 1;
      latencySum := latencySum + latency;
      latencyMin := if requestCount == 1 || latency < latencyMin then latency else latencyMin;
      latencyMax := if latency > latencyMax then latency else latencyMax;
      var bucket := BucketOf(latency);
      Count(bucket, latency);
      if latency < slowThreshold {
        return;
      }
      NewestOfMore(slowSeen, latency, slowLimit);
      slowSeen := slowSeen + [latency];
      slowRequests := slowRequests + [latency];
      TrimBoundedRecords();
    }

    method Count(bucket: nat, latency: nat)
      requires Counts(latencyBuckets, samples) && InBucket(bucket, latency)
      modifies this`latencyBuckets, this`samples
      ensures Counts(latencyBuckets, samples) && samples == old(samples) + [latency]
    {
      CountsOneMore(latencyBuckets, samples, bucket, latency);
      latencyBuckets := latencyBuckets[bucket := latencyBuckets[bucket] + 1];
      samples := samples + [latency];
    }

    /** Drops from the front until the limit is met. */
    method TrimBoundedRecords()
      modifies this`slowRequests
      ensures slowRequests == Newest(old(slowRequests), slowLimit)
    {
      while |slowRequests| > slowLimit
        invariant |slowRequests| <= |old(slowRequests)|
        invariant slowRequests == old(slowRequests)[|old(slowRequests)| - |slowRequests|..]
        invariant |slowRequests| >= slowLimit || slowRequests == old(slowRequests)
      {
        slowRequests := slowRequests[1..];
      }
    }

    /** New limits take effect at once. */
    method Reconfigure(slowThreshold: nat, slowLimit: nat)
      requires Valid()
      modifies this
      ensures Valid() && samples == old(samples) && slowRequests == Newest(old(slowRequests), slowLimit)
    {
      this.slowThreshold, this.slowLimit := slowThreshold, slowLimit;
      slowSeen := slowRequests;
      TrimBoundedRecords();
    }

    /** The exact ceiling of the ratio is the rank; with no requests there is nothing to report. */
    method Percentile(ratio: real) returns (reported: nat)
      requires Valid() && 0.0 < ratio <= 1.0
      ensures requestCount == 0 ==> reported == 0
      ensures requestCount > 0 ==>
                var rank := Ceiling(ratio * requestCount as real);
                1 <= rank <= |samples| && Reports(latencyBuckets, rank, latencyMax, reported)
    {
      hide Counts, Extremes, Reports;
      if requestCount == 0 {
        return 0;
      }
      RankInRange(ratio, requestCount);
      reported := AtRank(Ceiling(ratio * requestCount as real));
    }

    /** The loop with its running total. */
    method AtRank(rank: nat) returns (reported: nat)
      requires Valid() && 1 <= rank <= |samples|
      ensures Reports(latencyBuckets, rank, latencyMax, reported)
    {
      BoundsAscend();
      hide BOUNDS;
      var cumulative := 0;
      for index := 0 to BUCKETS
        invariant cumulative == (if index == 0 then 0 else Cumulative(latencyBuckets, index - 1)) < rank
      {
        cumulative := cumulative + latencyBuckets[index];
        if cumulative >= rank {
          assert FirstReaching(latencyBuckets, rank, index);
          return Reported(index, latencyMax);
        }
      }
      AtMostAll(samples, SIZE_MAX);
      assert false;
    }

    /** The reported value against the exact one: the exact sample is not above it, and every
    smaller bound is below the exact sample, unless the maximum is reported. */
    lemma PercentileIsClose(rank: nat, reported: nat, v: nat)
      requires Valid() && Reports(latencyBuckets, rank, latencyMax, reported)
      requires 1 <= rank <= |samples| && IsRanked(samples, rank, v)
      ensures v <= reported
      ensures forall i | 0 <= i < |BOUNDS| && BOUNDS[i] < reported && reported <= 10000 :: BOUNDS[i] < v
      ensures reported > 10000 ==> reported == latencyMax && v > 10000
    {
      var bucket: nat :| FirstReaching(latencyBuckets, rank, bucket) && bucket < BUCKETS == |BOUNDS|
                         && reported == Reported(bucket, latencyMax);
      hide Counts, FirstReaching;
      AtMostAll(samples, latencyMax);
      RankedIsSample(samples, rank, v, latencyMax);
      PercentileBrackets(latencyBuckets, samples, rank, bucket, v, latencyMax);
    }
  }

  lemma RankedIsSample(samples: seq<nat>, rank: nat, v: nat, greatest: nat)
    requires rank <= |samples| && IsRanked(samples, rank, v) && AtMost(samples, greatest) == |samples|
    ensures v <= greatest
  {
    if v > greatest {
      AtMostGrows(samples, greatest, v - 1);
    }
  }
}
