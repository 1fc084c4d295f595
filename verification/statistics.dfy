/** Per-ship statistics of src/statistics.rs: raw counters turned into
    per-battle ratios, and one percentile histogram per resulting metric. */
module Statistics {
  import opened Wrappers
  import opened Floats
  import opened Metrics
  import opened WowsData
  import opened Bisection
  import opened Histograms

  datatype AveragedBatteryStats = AveragedBatteryStats(frags: Float, hits: Float, hitrate: Float, shots: Float)

  datatype AveragedShipStats = AveragedShipStats(
    xp: Float,
    mainBattery: AveragedBatteryStats,
    secondaryBattery: AveragedBatteryStats,
    torpedoes: AveragedBatteryStats,
    ramming: AveragedBatteryStats,
    winrate: Float,
    winSurvivalRate: Float,
    damageDealt: Float,
    kills: Float,
    planesKilled: Float,
    pointsCaptured: Float,
    spotted: Float,
    damageOnSpotting: Float)

  /** The field of an averaged battery record that `f` names. */
  function FieldValue(s: AveragedBatteryStats, f: BatteryField): Float {
    match f
    case Frags => s.frags
    case Hits => s.hits
    case Hitrate => s.hitrate
    case Shots => s.shots
  }

  function BatteryOf(s: AveragedShipStats, b: Battery): AveragedBatteryStats {
    match b
    case MainBattery => s.mainBattery
    case SecondaryBattery => s.secondaryBattery
    case TorpedoBattery => s.torpedoes
    case RammingBattery => s.ramming
  }

  /** The value of metric `m` in an averaged ship record. */
  function MetricValue(s: AveragedShipStats, m: Metric): Float {
    match m
    case Xp => s.xp
    case BatteryMetric(b, f) => FieldValue(BatteryOf(s, b), f)
    case Winrate => s.winrate
    case WinSurvivalRate => s.winSurvivalRate
    case DamageDealt => s.damageDealt
    case Kills => s.kills
    case PlanesKilled => s.planesKilled
    case PointsCaptured => s.pointsCaptured
    case Spotted => s.spotted
    case DamageOnSpotting => s.damageOnSpotting
  }

  /** The raw battery counters each battery metric is read from: the
      secondary battery comes from `second_battery`; the aircraft counters
      are never read. */
  function RawBattery(stats: DetailedStats, b: Battery): BatteryStats {
    match b
    case MainBattery => stats.mainBattery
    case SecondaryBattery => stats.secondBattery
    case TorpedoBattery => stats.torpedoes
    case RammingBattery => stats.ramming
  }

  /** The number of battles every per-battle ratio is taken over: wins plus
      losses, so draws are left out and the `battles` counter is not used. */
  function BattleCount(stats: DetailedStats): nat {
    stats.wins + stats.losses
  }

  /** The counter behind each metric, as a reference table. */
  function Numerator(stats: DetailedStats, m: Metric): nat {
    match m
    case Xp => stats.xp
    case BatteryMetric(b, Frags) => RawBattery(stats, b).frags
    case BatteryMetric(b, Hits) => RawBattery(stats, b).hits
    case BatteryMetric(b, Hitrate) => RawBattery(stats, b).hits
    case BatteryMetric(b, Shots) => RawBattery(stats, b).shots
    case Winrate => stats.wins
    case WinSurvivalRate => stats.survivedWins
    case DamageDealt => stats.damageDealt
    case Kills => stats.frags
    case PlanesKilled => stats.planesKilled
    case PointsCaptured => stats.capturePoints
    case Spotted => stats.shipsSpotted
    case DamageOnSpotting => stats.damageScouting
  }

  /** What each metric is divided by: shots for a hit rate, wins for the
      survival rate, the battle count for everything else. */
  function Denominator(stats: DetailedStats, m: Metric): nat {
    match m
    case BatteryMetric(b, Hitrate) => RawBattery(stats, b).shots
    case WinSurvivalRate => stats.wins
    case _ => BattleCount(stats)
  }

  /** `AveragedBatteryStats::calculate`: three per-battle ratios and the hit
      rate, which does not depend on the battle count. */
  function CalculateBattery(stats: BatteryStats, numBattles: nat): (r: AveragedBatteryStats)
    ensures numBattles > 0 ==> r.frags.Finite? && r.frags.v * numBattles as real == stats.frags as real
    ensures numBattles > 0 ==> r.hits.Finite? && r.hits.v * numBattles as real == stats.hits as real
    ensures numBattles > 0 ==> r.shots.Finite? && r.shots.v * numBattles as real == stats.shots as real
    ensures numBattles == 0 ==> !r.frags.Finite? && !r.hits.Finite? && !r.shots.Finite?
    ensures r.hitrate.Finite? <==> stats.shots > 0
    ensures r.hitrate.Finite? ==> r.hitrate.v * stats.shots as real == stats.hits as real
  {
    AveragedBatteryStats(
      Div(stats.frags, numBattles),
      Div(stats.hits, numBattles),
      Div(stats.hits, stats.shots),
      Div(stats.shots, numBattles))
  }

  /** `AveragedShipStats::calculate`: every metric is its counter from the
      reference table divided by its denominator. */
  function Calculate(stats: DetailedStats): (r: AveragedShipStats)
    ensures forall m :: MetricValue(r, m) == Div(Numerator(stats, m), Denominator(stats, m))
  {
    var n := BattleCount(stats);
    var r := AveragedShipStats(
      Div(stats.xp, n),
      CalculateBattery(stats.mainBattery, n),
      CalculateBattery(stats.secondBattery, n),
      CalculateBattery(stats.torpedoes, n),
      CalculateBattery(stats.ramming, n),
      Div(stats.wins, n),
      Div(stats.survivedWins, stats.wins),
      Div(stats.damageDealt, n),
      Div(stats.frags, n),
      Div(stats.planesKilled, n),
      Div(stats.capturePoints, n),
      Div(stats.shipsSpotted, n),
      Div(stats.damageScouting, n));
    assert forall b :: BatteryOf(r, b) == CalculateBattery(RawBattery(stats, b), n);
    r
  }

  /** Every per-battle metric is exactly its counter over the battle count. */
  lemma PerBattle(stats: DetailedStats, m: Metric)
    requires BattleCount(stats) > 0 && Denominator(stats, m) == BattleCount(stats)
    ensures MetricValue(Calculate(stats), m) == Finite(Numerator(stats, m) as real / BattleCount(stats) as real)
  {
    assert MetricValue(Calculate(stats), m) == Div(Numerator(stats, m), BattleCount(stats));
  }

  /** With no win and no loss every per-battle metric is +inf or NaN. */
  lemma NoBattles(stats: DetailedStats, m: Metric)
    requires BattleCount(stats) == 0 && Denominator(stats, m) == 0
    ensures !MetricValue(Calculate(stats), m).Finite?
  {
    assert MetricValue(Calculate(stats), m) == Div(Numerator(stats, m), 0);
  }

  /** The rates are fractions: win rate, survival rate and each hit rate
      lie in `[0, 1]` when their counters are consistent. */
  lemma RatesAreFractions(stats: DetailedStats)
    requires stats.wins + stats.losses > 0 && stats.survivedWins <= stats.wins
    requires forall b :: RawBattery(stats, b).hits <= RawBattery(stats, b).shots
    ensures var r := Calculate(stats);
            r.winrate.Finite? && 0.0 <= r.winrate.v <= 1.0 &&
            (r.winSurvivalRate.Finite? ==> 0.0 <= r.winSurvivalRate.v <= 1.0) &&
            forall b :: FieldValue(BatteryOf(r, b), Hitrate).Finite? ==>
                          0.0 <= FieldValue(BatteryOf(r, b), Hitrate).v <= 1.0
  {
    var r := Calculate(stats);
    assert MetricValue(r, Winrate) == r.winrate;
    assert MetricValue(r, WinSurvivalRate) == r.winSurvivalRate;
    forall b | FieldValue(BatteryOf(r, b), Hitrate).Finite?
      ensures 0.0 <= FieldValue(BatteryOf(r, b), Hitrate).v <= 1.0
    {
      assert MetricValue(r, BatteryMetric(b, Hitrate)) == FieldValue(BatteryOf(r, b), Hitrate);
      var raw := RawBattery(stats, b);
      FractionBounds(raw.hits, raw.shots);
    }
    FractionBounds(stats.wins, stats.wins + stats.losses);
    FractionBounds(stats.survivedWins, stats.wins);
  }

  lemma FractionBounds(a: nat, b: nat)
    requires a <= b
    ensures Div(a, b).Finite? ==> 0.0 <= Div(a, b).v <= 1.0
  {
    if b > 0 {
      var q := a as real / b as real;
      assert q * b as real == a as real;
      assert q <= 1.0 by {
        assert a as real <= b as real;
        if q > 1.0 {
          assert q * b as real > b as real;
        }
      }
    }
  }

  /** The battle counter does not enter any ratio. */
  lemma IgnoresBattlesCounter(stats: DetailedStats, battles: nat, m: Metric)
    ensures MetricValue(Calculate(stats.(battles := battles)), m) == MetricValue(Calculate(stats), m)
  {
  }

  /** The maximum each histogram of a weapon battery is created with
      (`BatteryHistogram::new`). */
  function BatteryMax(f: BatteryField): (r: real)
    ensures r > 0.0
  {
    match f
    case Frags => 20.0
    case Hits => 1000.0
    case Hitrate => 1.0
    case Shots => 10_000.0
  }

  /** The maximum each metric's histogram is created with
      (`ShipStatsHistogram::new`). */
  function InitialMax(m: Metric): (r: real)
    ensures r > 0.0
  {
    match m
    case Xp => 10_000.0
    case BatteryMetric(_, f) => BatteryMax(f)
    case Winrate => 1.0
    case WinSurvivalRate => 1.0
    case DamageDealt => 1_000_000.0
    case Kills => 12.0
    case PlanesKilled => 100.0
    case PointsCaptured => 10.0
    case Spotted => 100.0
    case DamageOnSpotting => 1_000_000.0
  }

  /** The values of metric `m` across a sequence of averaged records. */
  function Column(samples: seq<AveragedShipStats>, m: Metric): (c: seq<Float>)
    ensures |c| == |samples| && forall i :: 0 <= i < |samples| ==> c[i] == MetricValue(samples[i], m)
  {
    seq(|samples|, i requires 0 <= i < |samples| => MetricValue(samples[i], m))
  }

  lemma ColumnAppend(samples: seq<AveragedShipStats>, s: AveragedShipStats, m: Metric)
    ensures Column(samples + [s], m) == Column(samples, m) + [MetricValue(s, m)]
  {
    assert forall i :: 0 <= i < |samples| ==> (samples + [s])[i] == samples[i];
  }

  /** The values of field `f` across a sequence of averaged battery records. */
  function BatteryColumn(samples: seq<AveragedBatteryStats>, f: BatteryField): (c: seq<Float>)
    ensures |c| == |samples| && forall i :: 0 <= i < |samples| ==> c[i] == FieldValue(samples[i], f)
  {
    seq(|samples|, i requires 0 <= i < |samples| => FieldValue(samples[i], f))
  }

  lemma BatteryColumnAppend(samples: seq<AveragedBatteryStats>, s: AveragedBatteryStats, f: BatteryField)
    ensures BatteryColumn(samples + [s], f) == BatteryColumn(samples, f) + [FieldValue(s, f)]
  {
    assert forall i :: 0 <= i < |samples| ==> (samples + [s])[i] == samples[i];
  }

  /** A successful percentile rank: finite and strictly inside `(0, 100)`. */
  predicate IsPercent(x: Float) {
    x.Finite? && 100.0 / 2048.0 <= x.v <= 100.0 - 100.0 / 2048.0
  }

  /** The order in which `get_percentile` visits the fields of a battery. */
  const BATTERY_FIELDS: seq<BatteryField> := [Frags, Hits, Hitrate, Shots]

  /** The four histograms of one weapon battery (`BatteryHistogram`). */
  datatype BatteryHistogram = BatteryHistogram(frags: Histogram, hits: Histogram, hitrate: Histogram, shots: Histogram)
  {
    /** Which histogram holds field `f`. */
    function Slot(f: BatteryField): Histogram {
      match f
      case Frags => frags
      case Hits => hits
      case Hitrate => hitrate
      case Shots => shots
    }

    ghost predicate Valid() {
      forall f :: Slot(f).Valid() && Slot(f).max == BatteryMax(f)
    }

    /** Each histogram holds its field of the inserted records. */
    ghost predicate Holds(samples: seq<AveragedBatteryStats>) {
      forall f :: Slot(f).max == BatteryMax(f) && Slot(f).Holds(BatteryColumn(samples, f))
    }

    /** `BatteryHistogram::new`. */
    static function New(): (h: BatteryHistogram)
      ensures h.Holds([])
    {
      var h := BatteryHistogram(Histogram.New(20.0), Histogram.New(1000.0), Histogram.New(1.0), Histogram.New(10_000.0));
      assert forall f :: BatteryColumn([], f) == [];
      h
    }

    /** `increment`: each field goes into its own histogram, once. */
    function Increment(value: AveragedBatteryStats): (h: BatteryHistogram)
      requires Valid()
      ensures h.Valid()
      ensures forall f :: h.Slot(f) == Slot(f).Increment(FieldValue(value, f))
    {
      assert Slot(Frags).Valid() && Slot(Hits).Valid() && Slot(Hitrate).Valid() && Slot(Shots).Valid();
      BatteryHistogram(frags.Increment(value.frags), hits.Increment(value.hits),
                       hitrate.Increment(value.hitrate), shots.Increment(value.shots))
    }

    /** The ranking `hr` of each field of `value` in its own histogram. */
    function SlotRanks(value: AveragedBatteryStats, hr: HistogramRanks): BatteryField -> Result<real, string> {
      f => hr(Slot(f), FieldValue(value, f))
    }

    /** The battery record assembled from the ranking `hr` of each field in
        its own histogram, in the order of `BATTERY_FIELDS`, the first
        failure aborting. */
    function RanksWith(value: AveragedBatteryStats, hr: HistogramRanks): Result<AveragedBatteryStats, string> {
      var a :- hr(frags, value.frags);
      var b :- hr(hits, value.hits);
      var c :- hr(hitrate, value.hitrate);
      var d :- hr(shots, value.shots);
      Ok(AveragedBatteryStats(Finite(a), Finite(b), Finite(c), Finite(d)))
    }

    /** The record `get_percentile` returns. */
    function Ranks(value: AveragedBatteryStats, rank: BucketRank): Result<AveragedBatteryStats, string> {
      RanksWith(value, RankAll(rank))
    }

    /** `get_percentile`. */
    method GetPercentile(value: AveragedBatteryStats, rank: BucketRank) returns (r: Result<AveragedBatteryStats, string>)
      ensures r == Ranks(value, rank)
    {
      var a := frags.GetPercentile(value.frags, rank);
      if a.Err? {
        return Err(a.error);
      }
      var b := hits.GetPercentile(value.hits, rank);
      if b.Err? {
        return Err(b.error);
      }
      var c := hitrate.GetPercentile(value.hitrate, rank);
      if c.Err? {
        return Err(c.error);
      }
      var d := shots.GetPercentile(value.shots, rank);
      if d.Err? {
        return Err(d.error);
      }
      r := Ok(AveragedBatteryStats(Finite(a.value), Finite(b.value), Finite(c.value), Finite(d.value)));
    }
  }

  /** A ranking whose every success is a percentile of the grid
      `get_percentile` bisects on. */
  ghost predicate PercentRanking(hr: HistogramRanks) {
    forall x: Histogram, v: Float :: hr(x, v).Ok? ==> IsPercent(Finite(hr(x, v).value))
  }

  /** `get_percentile`'s ranking only ever yields percentiles. */
  lemma RankAllPercent(rank: BucketRank)
    ensures PercentRanking(RankAll(rank))
  {
    forall x: Histogram, v: Float | RankAll(rank)(x, v).Ok?
      ensures IsPercent(Finite(RankAll(rank)(x, v).value))
    {
      RankBounds(x.Snapshot(rank), v);
    }
  }

  /** The battery record succeeds exactly when every field ranks; it then
      holds each field's rank (a percentile, when the ranking yields
      those); otherwise it carries the error of the first field, in the
      order of `BATTERY_FIELDS`, that fails. */
  lemma BatteryRanksSpec(h: BatteryHistogram, value: AveragedBatteryStats, hr: HistogramRanks)
    ensures h.RanksWith(value, hr).Ok? <==> forall f :: h.SlotRanks(value, hr)(f).Ok?
    ensures h.RanksWith(value, hr).Ok? ==>
              forall f :: FieldValue(h.RanksWith(value, hr).value, f) == Finite(h.SlotRanks(value, hr)(f).value) &&
                          (PercentRanking(hr) ==> IsPercent(FieldValue(h.RanksWith(value, hr).value, f)))
    ensures h.RanksWith(value, hr).Err? ==>
              exists i :: 0 <= i < |BATTERY_FIELDS| && h.SlotRanks(value, hr)(BATTERY_FIELDS[i]) == Err(h.RanksWith(value, hr).error) &&
                          forall j :: 0 <= j < i ==> h.SlotRanks(value, hr)(BATTERY_FIELDS[j]).Ok?
  {
    var r := h.RanksWith(value, hr);
    var rk := h.SlotRanks(value, hr);
    assert forall f :: rk(f) == hr(h.Slot(f), FieldValue(value, f));
    assert h.Slot(Frags) == h.frags && h.Slot(Hits) == h.hits && h.Slot(Hitrate) == h.hitrate && h.Slot(Shots) == h.shots;
    assert BATTERY_FIELDS[0] == Frags && BATTERY_FIELDS[1] == Hits && BATTERY_FIELDS[2] == Hitrate && BATTERY_FIELDS[3] == Shots;
    if rk(Frags).Err? {
      assert rk(BATTERY_FIELDS[0]) == Err(r.error);
    } else if rk(Hits).Err? {
      assert rk(BATTERY_FIELDS[1]) == Err(r.error);
    } else if rk(Hitrate).Err? {
      assert rk(BATTERY_FIELDS[2]) == Err(r.error);
    } else if rk(Shots).Err? {
      assert rk(BATTERY_FIELDS[3]) == Err(r.error);
    } else {
      forall f
        ensures rk(f).Ok?
        ensures FieldValue(r.value, f) == Finite(rk(f).value)
      {
        match f
        case Frags =>
        case Hits =>
        case Hitrate =>
        case Shots =>
      }
    }
  }

  /** Incrementing records the battery record in every histogram. */
  lemma BatteryIncrementRecords(h: BatteryHistogram, samples: seq<AveragedBatteryStats>, value: AveragedBatteryStats)
    requires h.Holds(samples)
    ensures h.Increment(value).Holds(samples + [value])
  {
    forall f ensures h.Slot(f).Valid() && h.Slot(f).max == BatteryMax(f) {
    }
    forall f
      ensures h.Increment(value).Slot(f).max == BatteryMax(f)
      ensures h.Increment(value).Slot(f).Holds(BatteryColumn(samples + [value], f))
    {
      BatteryColumnAppend(samples, value, f);
      IncrementRecords(h.Slot(f), BatteryColumn(samples, f), FieldValue(value, f));
    }
  }

  /** The four metrics of battery `b`, in the order of `BATTERY_FIELDS`. */
  function BatteryMetrics(b: Battery): (ms: seq<Metric>)
    ensures |ms| == |BATTERY_FIELDS| && forall i :: 0 <= i < |ms| ==> ms[i] == BatteryMetric(b, BATTERY_FIELDS[i])
  {
    [BatteryMetric(b, Frags), BatteryMetric(b, Hits), BatteryMetric(b, Hitrate), BatteryMetric(b, Shots)]
  }

  /** The order in which `ShipStatsHistogram::get_percentile` visits the
      metrics. */
  const METRIC_ORDER: seq<Metric> :=
    [Xp] + BatteryMetrics(MainBattery) + BatteryMetrics(SecondaryBattery) + BatteryMetrics(TorpedoBattery) +
    BatteryMetrics(RammingBattery) +
    [Winrate, WinSurvivalRate, DamageDealt, Kills, PlanesKilled, PointsCaptured, Spotted, DamageOnSpotting]

  /** Where the metrics of battery `b` start in `METRIC_ORDER`. */
  function BatteryOffset(b: Battery): nat {
    match b
    case MainBattery => 1
    case SecondaryBattery => 5
    case TorpedoBattery => 9
    case RammingBattery => 13
  }

  /** The position of field `f` in `BATTERY_FIELDS`. */
  function FieldIndex(f: BatteryField): (i: nat)
    ensures i < |BATTERY_FIELDS| && BATTERY_FIELDS[i] == f
  {
    match f
    case Frags => 0
    case Hits => 1
    case Hitrate => 2
    case Shots => 3
  }

  /** The position of metric `m` in `METRIC_ORDER`. */
  function MetricIndex(m: Metric): nat {
    match m
    case Xp => 0
    case BatteryMetric(b, f) => BatteryOffset(b) + FieldIndex(f)
    case Winrate => 17
    case WinSurvivalRate => 18
    case DamageDealt => 19
    case Kills => 20
    case PlanesKilled => 21
    case PointsCaptured => 22
    case Spotted => 23
    case DamageOnSpotting => 24
  }

  /** The battery metrics of `b` sit as a block at `BatteryOffset(b)`. */
  lemma BatteryBlock(b: Battery, i: nat)
    requires i < |BATTERY_FIELDS|
    ensures BatteryOffset(b) + i < |METRIC_ORDER| && METRIC_ORDER[BatteryOffset(b) + i] == BatteryMetric(b, BATTERY_FIELDS[i])
  {
    var o := METRIC_ORDER;
    var bs := BatteryMetrics(MainBattery) + BatteryMetrics(SecondaryBattery) + BatteryMetrics(TorpedoBattery) +
              BatteryMetrics(RammingBattery);
    assert o == [Xp] + bs + o[17..];
    assert o[BatteryOffset(b) + i] == bs[BatteryOffset(b) - 1 + i];
    match b
    case MainBattery =>
    case SecondaryBattery =>
    case TorpedoBattery =>
    case RammingBattery =>
  }

  /** `METRIC_ORDER` visits every metric exactly once: `MetricIndex` finds
      each metric in it, and is the inverse of indexing it. */
  lemma MetricOrderIndex(m: Metric)
    ensures |METRIC_ORDER| == 25
    ensures MetricIndex(m) < |METRIC_ORDER| && METRIC_ORDER[MetricIndex(m)] == m
  {
    var o := METRIC_ORDER;
    assert o[17..] == [Winrate, WinSurvivalRate, DamageDealt, Kills, PlanesKilled, PointsCaptured, Spotted, DamageOnSpotting];
    match m
    case BatteryMetric(b, f) => BatteryBlock(b, FieldIndex(f));
    case _ =>
  }

  lemma MetricOrderDistinct(i: nat, j: nat)
    requires i < j < |METRIC_ORDER|
    ensures METRIC_ORDER[i] != METRIC_ORDER[j]
  {
    MetricIndexInverse(i);
    MetricIndexInverse(j);
  }

  lemma MetricIndexInverse(i: nat)
    requires i < |METRIC_ORDER|
    ensures MetricIndex(METRIC_ORDER[i]) == i
  {
    var o := METRIC_ORDER;
    MetricOrderIndex(Xp);
    if 1 <= i < 17 {
      var b := if i < 5 then MainBattery else if i < 9 then SecondaryBattery else if i < 13 then TorpedoBattery else RammingBattery;
      BatteryBlock(b, i - BatteryOffset(b));
    } else if i >= 17 {
      assert o[17..] == [Winrate, WinSurvivalRate, DamageDealt, Kills, PlanesKilled, PointsCaptured, Spotted, DamageOnSpotting];
      assert o[i] == o[17..][i - 17];
    }
  }

  /** One histogram per metric of an averaged ship record
      (`ShipStatsHistogram`), grouped per battery as the source groups them. */
  datatype ShipStatsHistogram = ShipStatsHistogram(
    xp: Histogram,
    mainBattery: BatteryHistogram,
    secondaryBattery: BatteryHistogram,
    torpedoes: BatteryHistogram,
    ramming: BatteryHistogram,
    winrate: Histogram,
    winSurvivalRate: Histogram,
    damageDealt: Histogram,
    kills: Histogram,
    planesKilled: Histogram,
    pointsCaptured: Histogram,
    spotted: Histogram,
    damageOnSpotting: Histogram)
  {
    function Battery(b: Battery): BatteryHistogram {
      match b
      case MainBattery => mainBattery
      case SecondaryBattery => secondaryBattery
      case TorpedoBattery => torpedoes
      case RammingBattery => ramming
    }

    /** Which histogram holds metric `m`. */
    function Slot(m: Metric): Histogram {
      match m
      case Xp => xp
      case BatteryMetric(b, f) => Battery(b).Slot(f)
      case Winrate => winrate
      case WinSurvivalRate => winSurvivalRate
      case DamageDealt => damageDealt
      case Kills => kills
      case PlanesKilled => planesKilled
      case PointsCaptured => pointsCaptured
      case Spotted => spotted
      case DamageOnSpotting => damageOnSpotting
    }

    ghost predicate Valid() {
      forall m :: Slot(m).Valid() && Slot(m).max == InitialMax(m)
    }

    /** Each histogram holds its metric of the inserted records. */
    ghost predicate Holds(samples: seq<AveragedShipStats>) {
      forall m :: Slot(m).max == InitialMax(m) && Slot(m).Holds(Column(samples, m))
    }

    /** `ShipStatsHistogram::new`. */
    static function New(): (h: ShipStatsHistogram)
      ensures h.Holds([])
    {
      var h := ShipStatsHistogram(
        Histogram.New(10_000.0),
        BatteryHistogram.New(), BatteryHistogram.New(), BatteryHistogram.New(), BatteryHistogram.New(),
        Histogram.New(1.0), Histogram.New(1.0), Histogram.New(1_000_000.0), Histogram.New(12.0),
        Histogram.New(100.0), Histogram.New(10.0), Histogram.New(100.0), Histogram.New(1_000_000.0));
      assert forall m :: Column([], m) == [];
      assert forall f :: BatteryColumn([], f) == [];
      h
    }

    /** `increment`: each metric goes into its own histogram, once
        (`ShipIncrementSlots`). */
    function Increment(value: AveragedShipStats): ShipStatsHistogram
      requires Valid()
    {
      FieldsValid();
      ShipStatsHistogram(
        xp.Increment(value.xp),
        mainBattery.Increment(value.mainBattery),
        secondaryBattery.Increment(value.secondaryBattery),
        torpedoes.Increment(value.torpedoes),
        ramming.Increment(value.ramming),
        winrate.Increment(value.winrate),
        winSurvivalRate.Increment(value.winSurvivalRate),
        damageDealt.Increment(value.damageDealt),
        kills.Increment(value.kills),
        planesKilled.Increment(value.planesKilled),
        pointsCaptured.Increment(value.pointsCaptured),
        spotted.Increment(value.spotted),
        damageOnSpotting.Increment(value.damageOnSpotting))
    }

    lemma FieldsValid()
      requires Valid()
      ensures forall b :: Battery(b).Valid()
      ensures mainBattery.Valid() && secondaryBattery.Valid() && torpedoes.Valid() && ramming.Valid()
      ensures xp.Valid() && winrate.Valid() && winSurvivalRate.Valid() && damageDealt.Valid() && kills.Valid() &&
              planesKilled.Valid() && pointsCaptured.Valid() && spotted.Valid() && damageOnSpotting.Valid()
    {
      assert Slot(Xp).Valid() && Slot(Winrate).Valid() && Slot(WinSurvivalRate).Valid() && Slot(DamageDealt).Valid() &&
             Slot(Kills).Valid() && Slot(PlanesKilled).Valid() && Slot(PointsCaptured).Valid() &&
             Slot(Spotted).Valid() && Slot(DamageOnSpotting).Valid();
      forall b ensures Battery(b).Valid() {
        forall f ensures Battery(b).Slot(f).Valid() && Battery(b).Slot(f).max == BatteryMax(f) {
          assert Battery(b).Slot(f) == Slot(BatteryMetric(b, f));
        }
      }
      assert Battery(MainBattery).Valid() && Battery(SecondaryBattery).Valid() &&
             Battery(TorpedoBattery).Valid() && Battery(RammingBattery).Valid();
    }

    /** The ranking `hr` of each metric of `value` in its own histogram. */
    function SlotRanks(value: AveragedShipStats, hr: HistogramRanks): MetricRanks {
      m => hr(Slot(m), MetricValue(value, m))
    }

    /** The ship record assembled from the ranking `hr` of every metric in
        its own histogram, in the order the source evaluates the fields, the
        first failure aborting. */
    function RanksWith(value: AveragedShipStats, hr: HistogramRanks): Result<AveragedShipStats, string> {
      var x :- hr(xp, value.xp);
      var mb :- mainBattery.RanksWith(value.mainBattery, hr);
      var sb :- secondaryBattery.RanksWith(value.secondaryBattery, hr);
      var tb :- torpedoes.RanksWith(value.torpedoes, hr);
      var rb :- ramming.RanksWith(value.ramming, hr);
      var w :- hr(winrate, value.winrate);
      var ws :- hr(winSurvivalRate, value.winSurvivalRate);
      var dd :- hr(damageDealt, value.damageDealt);
      var k :- hr(kills, value.kills);
      var pk :- hr(planesKilled, value.planesKilled);
      var pc :- hr(pointsCaptured, value.pointsCaptured);
      var sp :- hr(spotted, value.spotted);
      var ds :- hr(damageOnSpotting, value.damageOnSpotting);
      Ok(AveragedShipStats(Finite(x), mb, sb, tb, rb, Finite(w), Finite(ws), Finite(dd), Finite(k), Finite(pk),
                           Finite(pc), Finite(sp), Finite(ds)))
    }

    /** The record `get_percentile` returns. */
    function Ranks(value: AveragedShipStats, rank: BucketRank): Result<AveragedShipStats, string> {
      RanksWith(value, RankAll(rank))
    }

    /** `get_percentile`. */
    method GetPercentile(value: AveragedShipStats, rank: BucketRank) returns (r: Result<AveragedShipStats, string>)
      ensures r == Ranks(value, rank)
    {
      var x := xp.GetPercentile(value.xp, rank);
      if x.Err? { return Err(x.error); }
      var mb := mainBattery.GetPercentile(value.mainBattery, rank);
      if mb.Err? { return Err(mb.error); }
      var sb := secondaryBattery.GetPercentile(value.secondaryBattery, rank);
      if sb.Err? { return Err(sb.error); }
      var tb := torpedoes.GetPercentile(value.torpedoes, rank);
      if tb.Err? { return Err(tb.error); }
      var rb := ramming.GetPercentile(value.ramming, rank);
      if rb.Err? { return Err(rb.error); }
      var w := winrate.GetPercentile(value.winrate, rank);
      if w.Err? { return Err(w.error); }
      var ws := winSurvivalRate.GetPercentile(value.winSurvivalRate, rank);
      if ws.Err? { return Err(ws.error); }
      var dd := damageDealt.GetPercentile(value.damageDealt, rank);
      if dd.Err? { return Err(dd.error); }
      var k := kills.GetPercentile(value.kills, rank);
      if k.Err? { return Err(k.error); }
      var pk := planesKilled.GetPercentile(value.planesKilled, rank);
      if pk.Err? { return Err(pk.error); }
      var pc := pointsCaptured.GetPercentile(value.pointsCaptured, rank);
      if pc.Err? { return Err(pc.error); }
      var sp := spotted.GetPercentile(value.spotted, rank);
      if sp.Err? { return Err(sp.error); }
      var ds := damageOnSpotting.GetPercentile(value.damageOnSpotting, rank);
      if ds.Err? { return Err(ds.error); }
      r := Ok(AveragedShipStats(Finite(x.value), mb.value, sb.value, tb.value, rb.value, Finite(w.value), Finite(ws.value),
                                Finite(dd.value), Finite(k.value), Finite(pk.value), Finite(pc.value), Finite(sp.value),
                                Finite(ds.value)));
    }
  }

  /** Any ranking of a value in a histogram. */
  type HistogramRanks = (Histogram, Float) -> Result<real, string>

  /** The ranking `get_percentile` applies in each histogram. */
  function RankAll(rank: BucketRank): HistogramRanks {
    (x: Histogram, v: Float) => x.Rank(v, rank)
  }

  /** Any per-metric ranking, in the shape `get_percentile` consumes it. */
  type MetricRanks = Metric -> Result<real, string>

  /** The battery record assembled from per-metric ranks, the first failure
      in the order of `BATTERY_FIELDS` aborting. */
  function CollectBattery(rk: MetricRanks, b: Battery): Result<AveragedBatteryStats, string> {
    var a :- rk(BatteryMetric(b, Frags));
    var h :- rk(BatteryMetric(b, Hits));
    var c :- rk(BatteryMetric(b, Hitrate));
    var d :- rk(BatteryMetric(b, Shots));
    Ok(AveragedBatteryStats(Finite(a), Finite(h), Finite(c), Finite(d)))
  }

  /** The ship record assembled from per-metric ranks, in the order the
      source evaluates its fields, the first failure aborting. */
  function Collect(rk: MetricRanks): Result<AveragedShipStats, string> {
    var x :- rk(Xp);
    var mb :- CollectBattery(rk, MainBattery);
    var sb :- CollectBattery(rk, SecondaryBattery);
    var tb :- CollectBattery(rk, TorpedoBattery);
    var rb :- CollectBattery(rk, RammingBattery);
    var w :- rk(Winrate);
    var ws :- rk(WinSurvivalRate);
    var dd :- rk(DamageDealt);
    var k :- rk(Kills);
    var pk :- rk(PlanesKilled);
    var pc :- rk(PointsCaptured);
    var sp :- rk(Spotted);
    var ds :- rk(DamageOnSpotting);
    Ok(AveragedShipStats(Finite(x), mb, sb, tb, rb, Finite(w), Finite(ws), Finite(dd), Finite(k), Finite(pk),
                         Finite(pc), Finite(sp), Finite(ds)))
  }

  /** Every metric before position `n` of `METRIC_ORDER` ranks successfully. */
  ghost predicate OkBefore(rk: MetricRanks, n: nat) {
    n <= |METRIC_ORDER| && forall j :: 0 <= j < n ==> rk(METRIC_ORDER[j]).Ok?
  }

  /** The metric at position `i` is the first, in the order of
      `METRIC_ORDER`, whose rank fails, and it fails with `e`. */
  ghost predicate FailsFirstAt(rk: MetricRanks, i: nat, e: string) {
    i < |METRIC_ORDER| && OkBefore(rk, i) && rk(METRIC_ORDER[i]) == Err(e)
  }

  lemma StepOk(rk: MetricRanks, m: Metric)
    requires OkBefore(rk, MetricIndex(m)) && rk(m).Ok?
    ensures OkBefore(rk, MetricIndex(m) + 1)
  {
    MetricOrderIndex(m);
  }

  lemma StepErr(rk: MetricRanks, m: Metric, e: string)
    requires OkBefore(rk, MetricIndex(m)) && rk(m) == Err(e)
    ensures exists i :: FailsFirstAt(rk, i, e)
  {
    MetricOrderIndex(m);
    assert FailsFirstAt(rk, MetricIndex(m), e);
  }

  lemma BatteryOk(rk: MetricRanks, b: Battery)
    requires OkBefore(rk, BatteryOffset(b)) && CollectBattery(rk, b).Ok?
    ensures OkBefore(rk, BatteryOffset(b) + 4)
  {
    forall j | 0 <= j < BatteryOffset(b) + 4
      ensures rk(METRIC_ORDER[j]).Ok?
    {
      if j >= BatteryOffset(b) {
        BatteryBlock(b, j - BatteryOffset(b));
      }
    }
  }

  lemma BatteryErr(rk: MetricRanks, b: Battery)
    requires OkBefore(rk, BatteryOffset(b)) && CollectBattery(rk, b).Err?
    ensures exists i :: FailsFirstAt(rk, i, CollectBattery(rk, b).error)
  {
    var e := CollectBattery(rk, b).error;
    var k := if rk(BatteryMetric(b, Frags)).Err? then 0
             else if rk(BatteryMetric(b, Hits)).Err? then 1
             else if rk(BatteryMetric(b, Hitrate)).Err? then 2
             else 3;
    forall j | 0 <= j < BatteryOffset(b) + k
      ensures rk(METRIC_ORDER[j]).Ok?
    {
      if j >= BatteryOffset(b) {
        BatteryBlock(b, j - BatteryOffset(b));
      }
    }
    BatteryBlock(b, k);
    assert FailsFirstAt(rk, BatteryOffset(b) + k, e);
  }

  /** The experience and the battery metrics all rank. */
  ghost predicate HeadOk(rk: MetricRanks) {
    rk(Xp).Ok? && CollectBattery(rk, MainBattery).Ok? && CollectBattery(rk, SecondaryBattery).Ok? &&
    CollectBattery(rk, TorpedoBattery).Ok? && CollectBattery(rk, RammingBattery).Ok?
  }

  /** The first 17 metrics of `METRIC_ORDER` rank, or one of them is the
      first to fail. */
  lemma HeadErr(rk: MetricRanks)
    ensures HeadOk(rk) ==> OkBefore(rk, 17)
    ensures !HeadOk(rk) ==> Collect(rk).Err? && exists i :: FailsFirstAt(rk, i, Collect(rk).error)
  {
    MetricOrderIndex(Xp);
    if rk(Xp).Err? { StepErr(rk, Xp, Collect(rk).error); return; }
    StepOk(rk, Xp);
    if CollectBattery(rk, MainBattery).Err? { BatteryErr(rk, MainBattery); return; }
    BatteryOk(rk, MainBattery);
    if CollectBattery(rk, SecondaryBattery).Err? { BatteryErr(rk, SecondaryBattery); return; }
    BatteryOk(rk, SecondaryBattery);
    if CollectBattery(rk, TorpedoBattery).Err? { BatteryErr(rk, TorpedoBattery); return; }
    BatteryOk(rk, TorpedoBattery);
    if CollectBattery(rk, RammingBattery).Err? { BatteryErr(rk, RammingBattery); return; }
    BatteryOk(rk, RammingBattery);
  }

  /** A failing record carries the error of the first metric, in the order
      of `METRIC_ORDER`, whose rank fails. */
  lemma CollectErr(rk: MetricRanks)
    requires Collect(rk).Err?
    ensures exists i :: FailsFirstAt(rk, i, Collect(rk).error)
  {
    HeadErr(rk);
    if !HeadOk(rk) { return; }
    var e := Collect(rk).error;
    if rk(Winrate).Err? { StepErr(rk, Winrate, e); return; }
    StepOk(rk, Winrate);
    if rk(WinSurvivalRate).Err? { StepErr(rk, WinSurvivalRate, e); return; }
    StepOk(rk, WinSurvivalRate);
    if rk(DamageDealt).Err? { StepErr(rk, DamageDealt, e); return; }
    StepOk(rk, DamageDealt);
    if rk(Kills).Err? { StepErr(rk, Kills, e); return; }
    StepOk(rk, Kills);
    if rk(PlanesKilled).Err? { StepErr(rk, PlanesKilled, e); return; }
    StepOk(rk, PlanesKilled);
    if rk(PointsCaptured).Err? { StepErr(rk, PointsCaptured, e); return; }
    StepOk(rk, PointsCaptured);
    if rk(Spotted).Err? { StepErr(rk, Spotted, e); return; }
    StepOk(rk, Spotted);
    StepErr(rk, DamageOnSpotting, e);
  }

  /** A successful battery record holds every battery metric's rank. */
  lemma CollectBatteryOk(rk: MetricRanks, b: Battery)
    requires CollectBattery(rk, b).Ok?
    ensures forall f :: rk(BatteryMetric(b, f)).Ok? &&
                        FieldValue(CollectBattery(rk, b).value, f) == Finite(rk(BatteryMetric(b, f)).value)
  {
    forall f ensures rk(BatteryMetric(b, f)).Ok? && FieldValue(CollectBattery(rk, b).value, f) == Finite(rk(BatteryMetric(b, f)).value) {
      match f
      case Frags =>
      case Hits =>
      case Hitrate =>
      case Shots =>
    }
  }

  /** A successful record holds every metric's rank. */
  lemma CollectOk(rk: MetricRanks)
    requires Collect(rk).Ok?
    ensures forall m :: rk(m).Ok? && MetricValue(Collect(rk).value, m) == Finite(rk(m).value)
  {
    var out := Collect(rk).value;
    forall b ensures CollectBattery(rk, b).Ok? && BatteryOf(out, b) == CollectBattery(rk, b).value {
      match b
      case MainBattery =>
      case SecondaryBattery =>
      case TorpedoBattery =>
      case RammingBattery =>
    }
    forall m ensures rk(m).Ok? && MetricValue(out, m) == Finite(rk(m).value) {
      match m
      case BatteryMetric(b, f) => CollectBatteryOk(rk, b);
      case Xp =>
      case Winrate =>
      case WinSurvivalRate =>
      case DamageDealt =>
      case Kills =>
      case PlanesKilled =>
      case PointsCaptured =>
      case Spotted =>
      case DamageOnSpotting =>
    }
  }

  /** The battery histograms rank exactly as the assembly over the ship's
      metrics does. */
  lemma BatteryRanksCollect(h: ShipStatsHistogram, value: AveragedShipStats, hr: HistogramRanks, b: Battery)
    ensures h.Battery(b).RanksWith(BatteryOf(value, b), hr) == CollectBattery(h.SlotRanks(value, hr), b)
  {
    var rk := h.SlotRanks(value, hr);
    var hb, vb := h.Battery(b), BatteryOf(value, b);
    forall f ensures rk(BatteryMetric(b, f)) == hr(hb.Slot(f), FieldValue(vb, f)) {
      assert rk(BatteryMetric(b, f)) == hr(h.Slot(BatteryMetric(b, f)), MetricValue(value, BatteryMetric(b, f)));
    }
    assert hb.Slot(Frags) == hb.frags && hb.Slot(Hits) == hb.hits && hb.Slot(Hitrate) == hb.hitrate && hb.Slot(Shots) == hb.shots;
  }

  /** Each plain metric is ranked in its own histogram. */
  lemma PlainRanks(h: ShipStatsHistogram, value: AveragedShipStats, hr: HistogramRanks)
    ensures var rk := h.SlotRanks(value, hr);
            rk(Xp) == hr(h.xp, value.xp) && rk(Winrate) == hr(h.winrate, value.winrate) &&
            rk(WinSurvivalRate) == hr(h.winSurvivalRate, value.winSurvivalRate) &&
            rk(DamageDealt) == hr(h.damageDealt, value.damageDealt) && rk(Kills) == hr(h.kills, value.kills) &&
            rk(PlanesKilled) == hr(h.planesKilled, value.planesKilled) &&
            rk(PointsCaptured) == hr(h.pointsCaptured, value.pointsCaptured) &&
            rk(Spotted) == hr(h.spotted, value.spotted) && rk(DamageOnSpotting) == hr(h.damageOnSpotting, value.damageOnSpotting)
  {
    var rk := h.SlotRanks(value, hr);
    assert forall m :: rk(m) == hr(h.Slot(m), MetricValue(value, m));
  }

  /** Ranking the ship's histograms one by one is the assembly over its
      per-metric ranks. */
  lemma RanksCollect(h: ShipStatsHistogram, value: AveragedShipStats, hr: HistogramRanks)
    ensures h.RanksWith(value, hr) == Collect(h.SlotRanks(value, hr))
  {
    BatteryRanksCollect(h, value, hr, MainBattery);
    BatteryRanksCollect(h, value, hr, SecondaryBattery);
    BatteryRanksCollect(h, value, hr, TorpedoBattery);
    BatteryRanksCollect(h, value, hr, RammingBattery);
    PlainRanks(h, value, hr);
  }

  /** A successful ship record holds each metric's rank, a percentile
      when the ranking yields those. */
  lemma ShipRanksOk(h: ShipStatsHistogram, value: AveragedShipStats, hr: HistogramRanks)
    requires h.RanksWith(value, hr).Ok?
    ensures forall m :: h.SlotRanks(value, hr)(m).Ok? &&
                        MetricValue(h.RanksWith(value, hr).value, m) == Finite(h.SlotRanks(value, hr)(m).value)
    ensures PercentRanking(hr) ==> forall m :: IsPercent(MetricValue(h.RanksWith(value, hr).value, m))
  {
    var rk := h.SlotRanks(value, hr);
    RanksCollect(h, value, hr);
    CollectOk(rk);
    if PercentRanking(hr) {
      forall m ensures IsPercent(MetricValue(h.RanksWith(value, hr).value, m)) {
        assert rk(m) == hr(h.Slot(m), MetricValue(value, m));
      }
    }
  }

  /** A failing ship record carries the error of the first metric, in the
      order of `METRIC_ORDER`, whose rank fails. */
  lemma ShipRanksErr(h: ShipStatsHistogram, value: AveragedShipStats, hr: HistogramRanks)
    requires h.RanksWith(value, hr).Err?
    ensures exists i :: FailsFirstAt(h.SlotRanks(value, hr), i, h.RanksWith(value, hr).error)
  {
    RanksCollect(h, value, hr);
    CollectErr(h.SlotRanks(value, hr));
  }

  /** The ship record succeeds exactly when every metric ranks. */
  lemma ShipRanksSpec(h: ShipStatsHistogram, value: AveragedShipStats, hr: HistogramRanks)
    ensures h.RanksWith(value, hr).Ok? <==> forall m :: h.SlotRanks(value, hr)(m).Ok?
  {
    var rk := h.SlotRanks(value, hr);
    if h.RanksWith(value, hr).Ok? {
      ShipRanksOk(h, value, hr);
    } else {
      ShipRanksErr(h, value, hr);
      var i: nat :| FailsFirstAt(rk, i, h.RanksWith(value, hr).error);
      assert !rk(METRIC_ORDER[i]).Ok?;
    }
  }

  /** Each metric of `value` goes into its own histogram. */
  lemma ShipIncrementSlots(h: ShipStatsHistogram, value: AveragedShipStats, m: Metric)
    requires h.Valid()
    ensures h.Slot(m).Valid() && h.Increment(value).Slot(m) == h.Slot(m).Increment(MetricValue(value, m))
  {
    match m
    case BatteryMetric(b, f) =>
      h.FieldsValid();
    case _ =>
  }

  /** Incrementing records the ship record in every histogram. */
  lemma ShipIncrementRecords(h: ShipStatsHistogram, samples: seq<AveragedShipStats>, value: AveragedShipStats)
    requires h.Holds(samples)
    ensures h.Increment(value).Holds(samples + [value])
  {
    forall m
      ensures h.Increment(value).Slot(m).max == InitialMax(m)
      ensures h.Increment(value).Slot(m).Holds(Column(samples + [value], m))
    {
      ColumnAppend(samples, value, m);
      ShipIncrementSlots(h, value, m);
      IncrementRecords(h.Slot(m), Column(samples, m), MetricValue(value, m));
    }
  }
}
