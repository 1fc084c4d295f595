/** The bucketed percentile estimator of src/histogram.rs: a fixed layout of
    10 000 equal buckets over `[0, max)`, whose counts are kept by the external
    `histogram` crate, and an inverse query that finds, by ten steps of
    bisection, the percentile at which a value sits. */
module Histograms {
  import opened Wrappers
  import opened Floats
  import opened Numbers
  import opened Metrics
  import opened Bisection

  const NUM_BUCKETS: nat := 10_000

  /** `(value as f64 / bucket_size).floor() as u64`, where the cast
      saturates (negative and NaN give 0, +inf and huge values give
      `u64::MAX`), then clamped into the last bucket. */
  function BucketOf(value: Float, bucketSize: real, numBuckets: nat): (b: nat)
    requires bucketSize > 0.0 && numBuckets > 0
    ensures b < numBuckets
  {
    var raw: int := match value
      case Finite(v) => (v / bucketSize).Floor
      case PosInf => U64_MAX
      case NaN => 0;
    var cast: nat := if raw < 0 then 0 else if raw > U64_MAX then U64_MAX else raw;
    if cast >= numBuckets then numBuckets - 1 else cast
  }

  /** Scaling by a positive width keeps the order of two reals. */
  lemma ScaleMonotone(x: real, y: real, c: real)
    requires c > 0.0 && x < y
    ensures x * c < y * c
  {
    assert (y - x) * c > 0.0;
  }

  /** A value inside `[0, max)` lands in the bucket whose range
      `[b * bucketSize, (b + 1) * bucketSize)` holds it. */
  lemma BucketHoldsValue(v: real, bucketSize: real, numBuckets: nat)
    requires bucketSize > 0.0 && 0 < numBuckets <= U64_MAX
    requires 0.0 <= v < bucketSize * numBuckets as real
    ensures var b := BucketOf(Finite(v), bucketSize, numBuckets);
            b as real <= v / bucketSize < b as real + 1.0
  {
    var q := v / bucketSize;
    assert q * bucketSize == v;
    if q < 0.0 {
      ScaleMonotone(q, 0.0, bucketSize);
    }
    if q >= numBuckets as real {
      if q > numBuckets as real {
        ScaleMonotone(numBuckets as real, q, bucketSize);
      }
      assert false;
    }
    var f := q.Floor;
    assert 0 <= f < numBuckets;
  }

  /** A value at or above `max` (or +inf) is counted in the last bucket,
      never rejected; a negative value or NaN is counted in bucket 0. */
  lemma BucketClamps(value: Float, bucketSize: real, numBuckets: nat)
    requires bucketSize > 0.0 && 0 < numBuckets <= U64_MAX
    ensures value == PosInf ==> BucketOf(value, bucketSize, numBuckets) == numBuckets - 1
    ensures value.Finite? && value.v >= bucketSize * numBuckets as real ==>
              BucketOf(value, bucketSize, numBuckets) == numBuckets - 1
    ensures value == NaN || (value.Finite? && value.v < 0.0) ==> BucketOf(value, bucketSize, numBuckets) == 0
  {
    if value.Finite? {
      var q := value.v / bucketSize;
      assert q * bucketSize == value.v;
      if value.v >= bucketSize * numBuckets as real && q < numBuckets as real {
        ScaleMonotone(q, numBuckets as real, bucketSize);
      }
      if value.v < 0.0 && q >= 0.0 {
        if q > 0.0 {
          ScaleMonotone(0.0, q, bucketSize);
        }
      }
    }
  }

  /** The bucket counts that the sequence `samples` of inserted values
      produces. */
  function Tally(samples: seq<Float>, bucketSize: real, numBuckets: nat): (t: seq<nat>)
    requires bucketSize > 0.0 && numBuckets > 0
    ensures |t| == numBuckets
  {
    if samples == [] then seq(numBuckets, _ => 0)
    else
      var t := Tally(samples[..|samples| - 1], bucketSize, numBuckets);
      var b := BucketOf(samples[|samples| - 1], bucketSize, numBuckets);
      t[b := t[b] + 1]
  }

  /** How many of `samples` fall into bucket `b`. */
  function CountIn(samples: seq<Float>, b: nat, bucketSize: real, numBuckets: nat): nat
    requires bucketSize > 0.0 && numBuckets > 0
  {
    if samples == [] then 0
    else CountIn(samples[..|samples| - 1], b, bucketSize, numBuckets)
         + (if BucketOf(samples[|samples| - 1], bucketSize, numBuckets) == b then 1 else 0)
  }

  function Sum(s: seq<nat>): nat {
    if s == [] then 0 else Sum(s[..|s| - 1]) + s[|s| - 1]
  }

  /** Each bucket of the tally counts exactly the samples that fall into it. */
  lemma {:induction false} TallyCounts(samples: seq<Float>, b: nat, bucketSize: real, numBuckets: nat)
    requires bucketSize > 0.0 && numBuckets > 0 && b < numBuckets
    ensures Tally(samples, bucketSize, numBuckets)[b] == CountIn(samples, b, bucketSize, numBuckets)
  {
    if samples != [] {
      TallyCounts(samples[..|samples| - 1], b, bucketSize, numBuckets);
    }
  }

  lemma {:induction false} SumZeros(n: nat)
    ensures Sum(seq(n, _ => 0)) == 0
  {
    if n > 0 {
      assert seq(n, _ => 0)[..n - 1] == seq(n - 1, _ => 0);
      SumZeros(n - 1);
    }
  }

  lemma {:induction false} SumBump(s: seq<nat>, i: nat)
    requires i < |s|
    ensures Sum(s[i := s[i] + 1]) == Sum(s) + 1
  {
    var t := s[i := s[i] + 1];
    if i == |s| - 1 {
      assert t[..|t| - 1] == s[..|s| - 1];
    } else {
      assert t[..|t| - 1] == s[..|s| - 1][i := s[i] + 1];
      SumBump(s[..|s| - 1], i);
    }
  }

  /** Nothing is lost: the counts add up to the number of inserted values. */
  lemma {:induction false} TallyTotal(samples: seq<Float>, bucketSize: real, numBuckets: nat)
    requires bucketSize > 0.0 && numBuckets > 0
    ensures Sum(Tally(samples, bucketSize, numBuckets)) == |samples|
  {
    if samples == [] {
      SumZeros(numBuckets);
    } else {
      var t := Tally(samples[..|samples| - 1], bucketSize, numBuckets);
      TallyTotal(samples[..|samples| - 1], bucketSize, numBuckets);
      SumBump(t, BucketOf(samples[|samples| - 1], bucketSize, numBuckets));
    }
  }

  /** One histogram (`histogram::Histogram` plus its layout), as a value:
      the source derives `Clone` for it and owns it without sharing, so
      `increment(&mut self)` is the function from the old value to the new. */
  datatype Histogram = Histogram(counts: seq<nat>, bucketSize: real, numBuckets: nat, max: real)
  {
    /** The layout `new(max)` sets up: 10 000 buckets of width `max / 10 000`. */
    ghost predicate Valid() {
      max > 0.0 && bucketSize == max / 10_000.0 && numBuckets == NUM_BUCKETS && |counts| == numBuckets
    }

    /** The counts are those of the inserted values `samples`, in order. */
    ghost predicate Holds(samples: seq<Float>) {
      Valid() && counts == Tally(samples, bucketSize, numBuckets)
    }

    /** `Histogram::new(max)`: the bucket count is `max / (max / 10 000)`,
        exactly 10 000, and nothing is counted yet. */
    static function New(max: real): (h: Histogram)
      requires max > 0.0
      ensures h.Holds([]) && h.max == max && h.numBuckets == 10_000
    {
      var bucketSize := max / 10_000.0;
      assert max / bucketSize == 10_000.0;
      Histogram(seq(NUM_BUCKETS, _ => 0), bucketSize, (max / bucketSize).Floor as nat, max)
    }

    /** `increment`: the layout is kept and the call never fails
        (`IncrementCounts` says which bucket gains). */
    function Increment(value: Float): (h: Histogram)
      requires Valid()
      ensures h.Valid() && h.max == max && h.bucketSize == bucketSize
    {
      var b := BucketOf(value, bucketSize, numBuckets);
      this.(counts := counts[b := counts[b] + 1])
    }

    function Snapshot(rank: BucketRank): Quantiles {
      Quantiles(rank, counts, bucketSize)
    }

    /** `percentile(p)`: the bucket the crate reports, scaled back by the
        bucket width; the crate's error is passed on. */
    function Percentile(p: real, rank: BucketRank): (r: Result<real, string>)
      ensures rank(counts, p).Ok? <==> r.Ok?
      ensures r.Ok? ==> r.value == rank(counts, p).value as real * bucketSize
      ensures r.Err? ==> r.error == rank(counts, p).error
    {
      Snapshot(rank).Percentile(p)
    }

    /** The rank `get_percentile` computes for `value`. */
    function Rank(value: Float, rank: BucketRank): Result<real, string> {
      PercentileRank(Snapshot(rank), value)
    }

    /** `get_percentile(value)`: ten steps of bisection over `[0, 100]`,
        aborting on the first failing `percentile` call. */
    method GetPercentile(value: Float, rank: BucketRank) returns (r: Result<real, string>)
      ensures r == Rank(value, rank)
    {
      ghost var q := Snapshot(rank);
      var lower := 0.0;
      var upper := 100.0;
      var mid := 50.0;
      var step := 0;
      ghost var whole := Bisect(q, value, lower, upper, BISECTION_STEPS - step);
      while step < 10
        invariant step <= 10
        invariant mid == (lower + upper) / 2.0
        invariant whole == Bisect(q, value, lower, upper, BISECTION_STEPS - step)
      {
        var x := Percentile(mid, rank);
        assert x == q.Percentile(mid);
        if x.Err? {
          return Err(x.error);
        }
        if Exceeds(x.value, value) {
          upper := mid;
          mid := (upper + lower) / 2.0;
        } else {
          lower := mid;
          mid := (upper + lower) / 2.0;
        }
        step := step + 1;
      }
      r := Ok(mid);
    }
  }

  /** Exactly one bucket, the one `value` maps to, gains one. */
  lemma IncrementCounts(h: Histogram, value: Float)
    requires h.Valid()
    ensures Sum(h.Increment(value).counts) == Sum(h.counts) + 1
    ensures forall b :: 0 <= b < h.numBuckets ==>
              h.Increment(value).counts[b] == h.counts[b] + (if b == BucketOf(value, h.bucketSize, h.numBuckets) then 1 else 0)
  {
    SumBump(h.counts, BucketOf(value, h.bucketSize, h.numBuckets));
  }

  /** Inserting a value records it: a histogram holding `samples` holds
      `samples + [value]` after `Increment(value)`. */
  lemma IncrementRecords(h: Histogram, samples: seq<Float>, value: Float)
    requires h.Holds(samples)
    ensures h.Increment(value).Holds(samples + [value])
  {
    assert (samples + [value])[..|samples|] == samples;
  }
}
