/** The inverse query of src/histogram.rs: from a value back to the
    percentile at which it sits, found by bisection over `[0, 100]` against the
    histogram's own value-at-percentile query. */
module Bisection {
  import opened Wrappers
  import opened Floats

  /** The crate's percentile query over a vector of bucket counts: the bucket
      index found at percentile `p`, or the crate's error. The crate's
      algorithm is not modelled; every query takes it as a parameter. */
  type BucketRank = (seq<nat>, real) -> Result<nat, string>

  /** The value-to-percentile side of one histogram: the crate's query over
      the current counts, scaled back from bucket index to value. */
  datatype Quantiles = Quantiles(rank: BucketRank, counts: seq<nat>, bucketSize: real) {
    /** `percentile`: the bucket index at `p` times the bucket width; the
        crate's error is passed on. */
    function Percentile(p: real): Result<real, string> {
      match rank(counts, p)
      case Ok(i) => Ok(i as real * bucketSize)
      case Err(e) => Err(e)
    }
  }

  datatype Interval = Interval(lower: real, upper: real) {
    function Mid(): real { (lower + upper) / 2.0 }
  }

  /** `steps` bisection steps on `[lower, upper]`: probe the midpoint; when
      the percentile there exceeds `value` keep the lower half, otherwise the
      upper half; the first failing probe aborts. */
  function Bisect(q: Quantiles, value: Float, lower: real, upper: real, steps: nat): Result<Interval, string>
    decreases steps
  {
    if steps == 0 then Ok(Interval(lower, upper))
    else
      var mid := (lower + upper) / 2.0;
      match q.Percentile(mid)
      case Err(e) => Err(e)
      case Ok(x) =>
        var down := Exceeds(x, value);
        Bisect(q, value, if down then lower else mid, if down then mid else upper, steps - 1)
  }

  const BISECTION_STEPS: nat := 10

  /** `get_percentile`: the midpoint of the interval left after ten steps
      of bisection over `[0, 100]`. */
  function PercentileRank(q: Quantiles, value: Float): Result<real, string> {
    match Bisect(q, value, 0.0, 100.0, BISECTION_STEPS)
    case Ok(i) => Ok(i.Mid())
    case Err(e) => Err(e)
  }

  function Pow2(n: nat): (r: nat)
    ensures r > 0
  {
    if n == 0 then 1 else 2 * Pow2(n - 1)
  }

  /** `d` halved `n` times. */
  function Halve(d: real, n: nat): real
    decreases n
  {
    if n == 0 then d else Halve(d / 2.0, n - 1)
  }

  /** `k` widths of `h` laid end to end; kept as a sum so that the grid
      reasoning below stays linear. */
  function Times(k: nat, h: real): real
    decreases k
  {
    if k == 0 then 0.0 else Times(k - 1, h) + h
  }

  lemma {:induction false} TimesAdd(a: nat, b: nat, h: real)
    ensures Times(a + b, h) == Times(a, h) + Times(b, h)
    decreases b
  {
    if b > 0 {
      TimesAdd(a, b - 1, h);
    }
  }

  lemma {:induction false} TimesIsProduct(k: nat, h: real)
    ensures Times(k, h) == k as real * h
    decreases k
  {
    if k > 0 {
      TimesIsProduct(k - 1, h);
      assert (k - 1) as real * h + h == ((k - 1) as real + 1.0) * h;
    }
  }

  lemma {:induction false} HalveTimesPow2(d: real, n: nat)
    ensures Times(Pow2(n), Halve(d, n)) == d
    decreases n
  {
    if n > 0 {
      HalveTimesPow2(d / 2.0, n - 1);
      TimesAdd(Pow2(n - 1), Pow2(n - 1), Halve(d, n));
    }
  }

  /** The index, counted from the left, of the cell of width
      `Halve(upper - lower, steps)` that the bisection ends in. */
  function Cell(q: Quantiles, value: Float, lower: real, upper: real, steps: nat): nat
    decreases steps
  {
    if steps == 0 then 0
    else
      var mid := (lower + upper) / 2.0;
      match q.Percentile(mid)
      case Err(_) => 0
      case Ok(x) =>
        if Exceeds(x, value) then Cell(q, value, lower, mid, steps - 1)
        else Pow2(steps - 1) + Cell(q, value, mid, upper, steps - 1)
  }

  /** The interval found is one cell of the grid that `steps` halvings of
      `[lower, upper]` lay down. */
  lemma {:induction false} BisectGrid(q: Quantiles, value: Float, lower: real, upper: real, steps: nat)
    requires Bisect(q, value, lower, upper, steps).Ok?
    ensures var i := Bisect(q, value, lower, upper, steps).value;
            var h := Halve(upper - lower, steps);
            var k := Cell(q, value, lower, upper, steps);
            k < Pow2(steps) && i.upper - i.lower == h && i.lower == lower + Times(k, h)
    decreases steps
  {
    if steps > 0 {
      var mid := (lower + upper) / 2.0;
      var h := Halve(upper - lower, steps);
      var p := Pow2(steps - 1);
      assert mid - lower == (upper - lower) / 2.0 == upper - mid;
      if Exceeds(q.Percentile(mid).value, value) {
        BisectGrid(q, value, lower, mid, steps - 1);
      } else {
        BisectGrid(q, value, mid, upper, steps - 1);
        HalveTimesPow2(upper - lower, steps);
        TimesAdd(p, p, h);
        TimesAdd(p, Cell(q, value, mid, upper, steps - 1), h);
      }
    }
  }

  /** The answer lies strictly inside `(0, 100)`: it is the centre of one
      of the 1024 cells of width 100/1024, so between 100/2048 and
      100 - 100/2048. */
  lemma RankBounds(q: Quantiles, value: Float)
    requires PercentileRank(q, value).Ok?
    ensures var r := PercentileRank(q, value).value;
            100.0 / 2048.0 <= r <= 100.0 - 100.0 / 2048.0 &&
            exists k: nat :: k < 1024 && r == (2 * k + 1) as real * 100.0 / 2048.0
  {
    var i := Bisect(q, value, 0.0, 100.0, BISECTION_STEPS).value;
    BisectGrid(q, value, 0.0, 100.0, BISECTION_STEPS);
    var h := Halve(100.0, BISECTION_STEPS);
    GridWidth(h);
    var k := Cell(q, value, 0.0, 100.0, BISECTION_STEPS);
    CellCentre(k, h, i);
  }

  /** Ten halvings of 100 leave cells of width 100/1024. */
  lemma GridWidth(h: real)
    requires h == Halve(100.0, BISECTION_STEPS)
    ensures Pow2(BISECTION_STEPS) == 1024 && h == 100.0 / 1024.0
  {
    HalveTimesPow2(100.0, BISECTION_STEPS);
    assert Pow2(BISECTION_STEPS) == 1024;
    TimesIsProduct(1024, h);
  }

  lemma CellCentre(k: nat, h: real, i: Interval)
    requires k < 1024 && h == 100.0 / 1024.0
    requires i.upper - i.lower == h && i.lower == 0.0 + Times(k, h)
    ensures 100.0 / 2048.0 <= i.Mid() <= 100.0 - 100.0 / 2048.0
    ensures i.Mid() == (2 * k + 1) as real * 100.0 / 2048.0
  {
    TimesIsProduct(k, h);
  }

  /** The interval found stays inside the one bisection started from. */
  lemma {:induction false} BisectWithin(q: Quantiles, value: Float, lower: real, upper: real, steps: nat)
    requires lower <= upper && Bisect(q, value, lower, upper, steps).Ok?
    ensures var i := Bisect(q, value, lower, upper, steps).value;
            lower <= i.lower <= i.upper <= upper
    decreases steps
  {
    if steps > 0 {
      var mid := (lower + upper) / 2.0;
      if Exceeds(q.Percentile(mid).value, value) {
        BisectWithin(q, value, lower, mid, steps - 1);
      } else {
        BisectWithin(q, value, mid, upper, steps - 1);
      }
    }
  }

  /** A larger value never gets a smaller percentile. This holds for any
      percentile query, monotone or not: both searches probe the same
      midpoints until the first probe that separates them, and there the
      smaller value goes down and the larger one up. */
  lemma {:induction false} BisectMonotone(q: Quantiles, a: Float, b: Float, lower: real, upper: real, steps: nat)
    requires lower <= upper && AtMost(a, b)
    requires Bisect(q, a, lower, upper, steps).Ok? && Bisect(q, b, lower, upper, steps).Ok?
    ensures Bisect(q, a, lower, upper, steps).value.Mid() <= Bisect(q, b, lower, upper, steps).value.Mid()
    decreases steps
  {
    if steps > 0 {
      var mid := (lower + upper) / 2.0;
      var x := q.Percentile(mid).value;
      if Exceeds(x, b) {
        ExceedsAntitone(x, a, b);
        BisectMonotone(q, a, b, lower, mid, steps - 1);
      } else if !Exceeds(x, a) {
        BisectMonotone(q, a, b, mid, upper, steps - 1);
      } else {
        BisectWithin(q, a, lower, mid, steps - 1);
        BisectWithin(q, b, mid, upper, steps - 1);
      }
    }
  }

  lemma RankMonotone(q: Quantiles, a: Float, b: Float)
    requires AtMost(a, b) && PercentileRank(q, a).Ok? && PercentileRank(q, b).Ok?
    ensures PercentileRank(q, a).value <= PercentileRank(q, b).value
  {
    BisectMonotone(q, a, b, 0.0, 100.0, BISECTION_STEPS);
  }

  /** The interval found brackets the value: its lower end is the start or
      a probe whose percentile did not exceed the value, its upper end is the
      start or a probe whose percentile did. */
  lemma {:induction false} BisectBrackets(q: Quantiles, value: Float, lower: real, upper: real, steps: nat)
    requires Bisect(q, value, lower, upper, steps).Ok?
    ensures var i := Bisect(q, value, lower, upper, steps).value;
            (i.lower == lower || (q.Percentile(i.lower).Ok? && !Exceeds(q.Percentile(i.lower).value, value))) &&
            (i.upper == upper || (q.Percentile(i.upper).Ok? && Exceeds(q.Percentile(i.upper).value, value)))
    decreases steps
  {
    if steps > 0 {
      var mid := (lower + upper) / 2.0;
      if Exceeds(q.Percentile(mid).value, value) {
        BisectBrackets(q, value, lower, mid, steps - 1);
      } else {
        BisectBrackets(q, value, mid, upper, steps - 1);
      }
    }
  }

  /** No finite percentile exceeds NaN or +inf, so those values are always
      sent up, to the top cell. */
  lemma {:induction false} BisectNonFinite(q: Quantiles, value: Float, lower: real, upper: real, steps: nat)
    requires !value.Finite? && Bisect(q, value, lower, upper, steps).Ok?
    ensures var i := Bisect(q, value, lower, upper, steps).value;
            i.upper == upper && i.lower == upper - (upper - lower) / Pow2(steps) as real
    decreases steps
  {
    if steps > 0 {
      var mid := (lower + upper) / 2.0;
      BisectNonFinite(q, value, mid, upper, steps - 1);
      assert Pow2(steps) as real == 2.0 * Pow2(steps - 1) as real;
    }
  }

  lemma RankNonFinite(q: Quantiles, value: Float)
    requires !value.Finite? && PercentileRank(q, value).Ok?
    ensures PercentileRank(q, value).value == 100.0 - 100.0 / 2048.0
  {
    BisectNonFinite(q, value, 0.0, 100.0, BISECTION_STEPS);
    assert Pow2(BISECTION_STEPS) == 1024;
  }
}
