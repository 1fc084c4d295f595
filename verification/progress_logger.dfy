/** The `ProgressLogger` of src/progress_logger.rs: a counter that reports
    throughput at most once a minute. The clock is an input: every call
    receives the current time in seconds, and the report is returned
    instead of printed. */
module ProgressLogging {
  import opened Wrappers
  import opened Floats

  /** A report is due once more than this many seconds have passed. */
  const REPORT_INTERVAL: real := 60.0

  /** What one report shows. `remaining` and `eta` are present only with
      a target; with no item counted the rate is zero and the estimate is
      infinite (not a number when nothing remains either). */
  datatype Report = Report(total: nat, itemCount: nat, elapsed: real, rate: real,
                           target: Option<nat>, remaining: Option<nat>, eta: Option<Float>)

  /** Seconds to go at `rate` items a second. */
  function Eta(remaining: nat, itemCount: nat, elapsed: real): (r: Float)
    requires elapsed > 0.0
    ensures itemCount > 0 ==> r.Finite? && r.v * (itemCount as real / elapsed) == remaining as real
    ensures itemCount == 0 && remaining > 0 ==> r == PosInf
    ensures itemCount == 0 && remaining == 0 ==> r == NaN
  {
    if itemCount == 0 then (if remaining > 0 then PosInf else NaN)
    else Finite(remaining as real * elapsed / itemCount as real)
  }

  /** The items still to go towards `target`, never negative. */
  function Remaining(target: nat, total: nat): (r: nat)
    ensures r == 0 <==> total >= target
    ensures total < target ==> total + r == target
  {
    if target < total then 0 else target - total
  }

  class ProgressLogger {
    var tagline: string
    var lastReportTime: real
    var itemCount: nat
    var total: nat
    var target: Option<nat>

    /** The items counted since the last report are among all counted. */
    predicate Valid()
      reads this
    {
      itemCount <= total
    }

    /** `ProgressLogger::new`, at time `now`. */
    constructor (tagline: string, now: real)
      ensures Valid()
      ensures this.tagline == tagline && lastReportTime == now
      ensures itemCount == 0 && total == 0 && target == None
    {
      this.tagline := tagline;
      lastReportTime := now;
      itemCount := 0;
      total := 0;
      target := None;
    }

    /** `ProgressLogger::new_with_target`, at time `now`. */
    constructor WithTarget(tagline: string, target: nat, now: real)
      ensures Valid()
      ensures this.tagline == tagline && lastReportTime == now
      ensures itemCount == 0 && total == 0 && this.target == Some(target)
    {
      this.tagline := tagline;
      lastReportTime := now;
      itemCount := 0;
      total := 0;
      this.target := Some(target);
    }

    /** `increment(count)` at time `now`: `count` is always added to the
        running total; when more than a minute has passed since the last
        report, a report is made, the per-interval count restarts and the
        report time moves to `now`. */
    method Increment(count: nat, now: real) returns (report: Option<Report>)
      requires Valid()
      modifies this
      ensures Valid()
      ensures tagline == old(tagline) && target == old(target)
      ensures total == old(total) + count
      ensures report.Some? <==> now - old(lastReportTime) > REPORT_INTERVAL
      ensures report.Some? ==> itemCount == 0 && lastReportTime == now
      ensures report.None? ==> itemCount == old(itemCount) + count && lastReportTime == old(lastReportTime)
      ensures report.Some? ==> report.value.total == total && report.value.itemCount == old(itemCount) + count
      ensures report.Some? ==> report.value.target == target
      ensures report.Some? ==> (report.value.remaining.Some? <==> target.Some?)
      ensures report.Some? && target.Some? ==> report.value.remaining == Some(Remaining(target.value, total))
      ensures report.Some? ==> report.value.elapsed == now - old(lastReportTime) > 0.0 &&
                               report.value.rate == report.value.itemCount as real / report.value.elapsed
      ensures report.Some? ==> (report.value.eta.Some? <==> target.Some?)
      ensures report.Some? && target.Some? ==>
                report.value.eta == Some(Eta(report.value.remaining.value, report.value.itemCount, report.value.elapsed))
    {
      itemCount := itemCount + count;
      total := total + count;
      var elapsed := now - lastReportTime;
      report := None;
      if elapsed > REPORT_INTERVAL {
        var rate := itemCount as real / elapsed;
        match target {
          case Some(t) =>
            var remaining := Remaining(t, total);
            report := Some(Report(total, itemCount, elapsed, rate, target, Some(remaining), Some(Eta(remaining, itemCount, elapsed))));
          case None =>
            report := Some(Report(total, itemCount, elapsed, rate, None, None, None));
        }
        lastReportTime := now;
        itemCount := 0;
      }
    }
  }

  /** The running total only grows, and after a run of increments it is the
      sum of their counts; the logger never loses items. */
  function Sum(counts: seq<nat>): nat {
    if counts == [] then 0 else Sum(counts[..|counts| - 1]) + counts[|counts| - 1]
  }

  /** `increment` called once per count, at the given times, adds up every
      count in the total, whatever reports fall in between. */
  method IncrementAll(logger: ProgressLogger, counts: seq<nat>, times: seq<real>)
    requires logger.Valid() && |times| == |counts|
    modifies logger
    ensures logger.Valid()
    ensures logger.total == old(logger.total) + Sum(counts)
    ensures logger.target == old(logger.target) && logger.tagline == old(logger.tagline)
  {
    var i := 0;
    while i < |counts|
      invariant i <= |counts|
      invariant logger.Valid()
      invariant logger.total == old(logger.total) + Sum(counts[..i])
      invariant logger.target == old(logger.target) && logger.tagline == old(logger.tagline)
    {
      assert counts[..i + 1][..i] == counts[..i];
      var _ := logger.Increment(counts[i], times[i]);
      i := i + 1;
    }
    assert counts[..|counts|] == counts;
  }
}
