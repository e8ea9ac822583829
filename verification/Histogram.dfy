/** The latency histogram: piecewise quantised order statistics. */
module Histograms {
  const BUCKETS: nat := 2090

  /** The first latency that no bucket holds. */
  const LIMIT: nat := 9_000_000

  function BucketIndex(ns: nat): nat {
    if ns < 1000 then ns
    else if ns < 1_000_000 then 1000 + ns / 1000
    else if ns < 10_000_000 then 2000 + ns / 100_000
    else BUCKETS
  }

  function BucketToNs(i: nat): nat {
    if i < 1000 then i
    else if i < 2000 then (i - 1000) * 1000
    else (i - 2000) * 100_000
  }

  function Resolution(ns: nat): nat {
    if ns < 1000 then 1 else if ns < 1_000_000 then 1000 else 100_000
  }

  /** Later latencies never go to earlier buckets, as far as buckets go. */
  lemma IndexMonotone(x: nat, y: nat)
    requires x <= y && BucketIndex(y) < BUCKETS
    ensures BucketIndex(x) <= BucketIndex(y) && (BucketIndex(x) < BUCKETS)
  {
  }

  /** Exactly the latencies below 9 ms have a bucket, and its floor is within one
      resolution below them. */
  lemma FloorIsClose(ns: nat)
    ensures BucketIndex(ns) < BUCKETS <==> ns < LIMIT
    ensures ns < LIMIT ==> BucketToNs(BucketIndex(ns)) <= ns < BucketToNs(BucketIndex(ns)) + Resolution(ns)
  {
  }

  /** How many samples have an index below i. */
  function Under(samples: seq<nat>, i: nat): (n: nat)
    ensures n <= |samples|
  {
    if samples == [] then 0
    else
      var k := |samples| - 1;
      Under(samples[..k], i) + (if BucketIndex(samples[k]) < i then 1 else 0)
  }

  /** How many samples are below the value. */
  function Below(samples: seq<nat>, value: nat): (n: nat)
    ensures n <= |samples|
  {
    if samples == [] then 0
    else
      var k := |samples| - 1;
      Below(samples[..k], value) + (if samples[k] < value then 1 else 0)
  }

  /** x is the rank-th smallest sample. */
  ghost predicate IsRanked(samples: seq<nat>, rank: nat, x: nat) {
    x in samples && Below(samples, x) < rank <= Below(samples, x + 1)
  }

  lemma {:induction false} UnderMonotone(samples: seq<nat>, i: nat, j: nat)
    requires i <= j
    ensures Under(samples, i) <= Under(samples, j)
  {
    if samples != [] {
      UnderMonotone(samples[..|samples| - 1], i, j);
    }
  }

  lemma {:induction false} UnderNone(samples: seq<nat>)
    ensures Under(samples, 0) == 0
  {
    if samples != [] {
      UnderNone(samples[..|samples| - 1]);
    }
  }

  /** Everything in an earlier bucket than x is smaller than x. */
  lemma {:induction false} UnderBelow(samples: seq<nat>, i: nat, x: nat)
    requires i <= BUCKETS && i <= BucketIndex(x)
    ensures Under(samples, i) <= Below(samples, x)
  {
    if samples != [] {
      var k := |samples| - 1;
      UnderBelow(samples[..k], i, x);
      if BucketIndex(samples[k]) < i && x <= samples[k] {
        IndexMonotone(x, samples[k]);
      }
    }
  }

  /** Everything up to x is in x's bucket or an earlier one. */
  lemma {:induction false} BelowUnder(samples: seq<nat>, x: nat)
    requires BucketIndex(x) < BUCKETS
    ensures Below(samples, x + 1) <= Under(samples, BucketIndex(x) + 1)
  {
    if samples != [] {
      var k := |samples| - 1;
      BelowUnder(samples[..k], x);
      if samples[k] <= x {
        IndexMonotone(samples[k], x);
      }
    }
  }

  /** The bucket at which the running total reaches the rank. */
  ghost predicate Reaches(samples: seq<nat>, rank: nat, i: nat) {
    i < BUCKETS && Under(samples, i) < rank <= Under(samples, i + 1)
  }

  /** That bucket is the one of the ranked sample; none is reached when the ranked
      sample has no bucket. */
  lemma RankedBucket(samples: seq<nat>, rank: nat, x: nat)
    requires IsRanked(samples, rank, x)
    ensures x < LIMIT <==> rank <= Under(samples, BUCKETS)
    ensures x < LIMIT ==> Reaches(samples, rank, BucketIndex(x))
    ensures forall i: nat :: Reaches(samples, rank, i) ==> x < LIMIT && i == BucketIndex(x)
  {
    FloorIsClose(x);
    var b := BucketIndex(x);
    if x < LIMIT {
      BelowUnder(samples, x);
      UnderBelow(samples, b, x);
      UnderMonotone(samples, b + 1, BUCKETS);
    } else {
      UnderBelow(samples, BUCKETS, x);
    }
    forall i: nat | Reaches(samples, rank, i)
      ensures x < LIMIT && i == b
    {
      UnderMonotone(samples, i + 1, BUCKETS);
      if i < b {
        UnderMonotone(samples, i + 1, b);
      } else if b < i {
        UnderMonotone(samples, b + 1, i);
      }
    }
  }

  /** The rank a percentile asks for. */
  function Target(count: nat, p: real): nat
    requires p >= 0.0
  {
    assert count as real * p >= 0.0;
    (count as real * p / 100.0).Floor
  }

  /** The rank is the given percentage of the number of samples, rounded down. */
  lemma TargetIsPercentage(count: nat, p: real)
    requires 0.0 <= p
    ensures Target(count, p) as real <= count as real * p / 100.0 < Target(count, p) as real + 1.0
    ensures Target(count, 50.0) == count / 2 && Target(count, 100.0) == count && Target(count, 0.0) == 0
  {
    assert count as real * 50.0 / 100.0 == count as real / 2.0;
    assert count == 2 * (count / 2) + count % 2;
    assert count as real / 2.0 == (count / 2) as real + (count % 2) as real / 2.0;
  }

  class LatencyHistogram {
    const buckets: array<nat>
    var count: nat
    var max: nat
    ghost var samples: seq<nat>

    ghost predicate Valid()
      reads this, buckets
    {
      && buckets.Length == BUCKETS && count == |samples|
      && (forall i :: 0 <= i < BUCKETS ==> buckets[i] == Under(samples, i + 1) - Under(samples, i))
      && (forall x :: x in samples ==> x <= max) && (samples == [] ==> max == 0) && (samples != [] ==> max in samples)
    }

    constructor ()
      ensures Valid() && samples == [] && fresh(buckets)
    {
      buckets := new nat[BUCKETS](_ => 0);
      count, max, samples := 0, 0, [];
    }

    method Record(latency: nat)
      requires Valid()
      modifies this, buckets
      ensures Valid() && samples == old(samples) + [latency]
    {
      ghost var was := samples;
      count := count + 1;
      if latency > max {
        max := latency;
      }
      samples := samples + [latency];
      assert samples[..|was|] == was;
      var i := BucketIndex(latency);
      if i < BUCKETS {
        buckets[i] := buckets[i] + 1;
      }
    }

    /** The floor of the bucket of the target-th smallest sample; the maximum when
        that sample is too large for any bucket; 0 when there are no samples or the
        target is 0. */
    method Percentile(p: real) returns (ns: nat)
      requires Valid() && p >= 0.0
      ensures count == 0 || Target(count, p) == 0 ==> ns == 0
      ensures forall x: nat :: IsRanked(samples, Target(count, p), x) ==>
                ns == if x < LIMIT then BucketToNs(BucketIndex(x)) else max
    {
      hide IsRanked, Target, BucketIndex;
      if count == 0 {
        NoneRanked(samples, Target(count, p));
        return 0;
      }
      var target := Target(count, p);
      var cumulative: nat := 0;
      UnderNone(samples);
      for i := 0 to BUCKETS
        invariant cumulative == Under(samples, i)
        invariant i == 0 || cumulative < target
      {
        UnderMonotone(samples, i, i + 1);
        cumulative := cumulative + buckets[i];
        if cumulative >= target {
          forall x: nat | IsRanked(samples, target, x)
            ensures x < LIMIT && i == BucketIndex(x)
          {
            RankedBucket(samples, target, x);
            RankPositive(samples, target, x);
            assert Reaches(samples, target, i);
          }
          assert target == 0 ==> i == 0;
          return BucketToNs(i);
        }
      }
      forall x: nat | IsRanked(samples, target, x)
        ensures x >= LIMIT
      {
        RankedBucket(samples, target, x);
      }
      ns := max;
    }
  }

  lemma RankPositive(samples: seq<nat>, rank: nat, x: nat)
    requires IsRanked(samples, rank, x)
    ensures rank > 0
  {
  }

  lemma NoneRanked(samples: seq<nat>, rank: nat)
    requires samples == []
    ensures forall x: nat :: !IsRanked(samples, rank, x)
  {
  }

  /** Every rank from 1 to the number of samples has its sample. */
  lemma RankExists(samples: seq<nat>, rank: nat)
    requires 1 <= rank <= |samples|
    ensures exists x: nat :: IsRanked(samples, rank, x)
  {
    var bound := AllBelow(samples);
    RankBelow(samples, rank, bound);
  }

  lemma {:induction false} AllBelow(samples: seq<nat>) returns (bound: nat)
    ensures Below(samples, bound) == |samples|
  {
    bound := 0;
    if samples != [] {
      var k := |samples| - 1;
      var b := AllBelow(samples[..k]);
      bound := if samples[k] < b then b else samples[k] + 1;
      BelowMonotone(samples[..k], b, bound);
    }
  }

  lemma {:induction false} BelowMonotone(samples: seq<nat>, a: nat, b: nat)
    requires a <= b
    ensures Below(samples, a) <= Below(samples, b)
  {
    if samples != [] {
      BelowMonotone(samples[..|samples| - 1], a, b);
    }
  }

  lemma {:induction false} RankBelow(samples: seq<nat>, rank: nat, bound: nat)
    requires 1 <= rank <= Below(samples, bound)
    ensures exists x: nat :: IsRanked(samples, rank, x)
    decreases bound
  {
    BelowZero(samples);
    if Below(samples, bound - 1) < rank {
      BelowMember(samples, bound - 1);
      assert IsRanked(samples, rank, bound - 1);
    } else {
      RankBelow(samples, rank, bound - 1);
    }
  }

  lemma {:induction false} BelowZero(samples: seq<nat>)
    ensures Below(samples, 0) == 0
  {
    if samples != [] {
      BelowZero(samples[..|samples| - 1]);
    }
  }

  lemma {:induction false} BelowMember(samples: seq<nat>, x: nat)
    ensures Below(samples, x) < Below(samples, x + 1) ==> x in samples
    ensures Below(samples, x) <= Below(samples, x + 1)
  {
    if samples != [] {
      var k := |samples| - 1;
      BelowMember(samples[..k], x);
      assert samples == samples[..k] + [samples[k]];
    }
  }
}
