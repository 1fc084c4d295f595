/** `calculate_aggregate_stats` of src/database.rs: the records read back
    from the record file are averaged and inserted, ship by ship, into one
    set of histograms per ship. */
module Aggregation {
  import opened Wrappers
  import opened WowsData
  import opened Statistics
  import opened Numbers
  import opened RecordFile

  // ---------------------------------------------------------------------
  // Aggregation in `calculate_aggregate_stats`
  // ---------------------------------------------------------------------

  /** One decoded record: the reply of the detailed-statistics call, a map
      from player id to that player's per-ship statistics (or none), in the
      map's iteration order. */
  type PlayerStats = seq<(string, Option<seq<DetailedStatTypes>>)>

  /** The per-ship statistics one player's entry holds. */
  function EntrySamples(e: (string, Option<seq<DetailedStatTypes>>)): seq<DetailedStatTypes> {
    match e.1
    case Some(stats) => stats
    case None => []
  }

  /** The per-ship statistics a record holds, player after player. */
  function RecordSamples(x: PlayerStats): seq<DetailedStatTypes> {
    if x == [] then [] else RecordSamples(x[..|x| - 1]) + EntrySamples(x[|x| - 1])
  }

  function AllSamples(records: seq<PlayerStats>): seq<DetailedStatTypes> {
    if records == [] then [] else AllSamples(records[..|records| - 1]) + RecordSamples(records[|records| - 1])
  }

  /** Only ships played in at least ten decided battles are counted. */
  predicate Eligible(s: DetailedStatTypes) {
    s.pvp.wins + s.pvp.losses >= 10
  }

  ghost predicate AllValid(m: map<nat, ShipStatsHistogram>) {
    forall id :: id in m ==> m[id].Valid()
  }

  lemma IncrementValid(h: ShipStatsHistogram, value: AveragedShipStats)
    requires h.Valid()
    ensures h.Increment(value).Valid()
  {
    forall m ensures h.Increment(value).Slot(m).Valid() && h.Increment(value).Slot(m).max == InitialMax(m) {
      ShipIncrementSlots(h, value, m);
    }
  }

  lemma NewValid()
    ensures ShipStatsHistogram.New().Valid()
  {
    var h := ShipStatsHistogram.New();
    assert h.Holds([]);
    forall m ensures h.Slot(m).Valid() && h.Slot(m).max == InitialMax(m) {
      assert h.Slot(m).Holds(Column([], m));
    }
  }

  /** The body of the innermost loop: an eligible sample is averaged and
      inserted into its ship's histograms, created on first sight. */
  function AddSample(m: map<nat, ShipStatsHistogram>, s: DetailedStatTypes): (r: map<nat, ShipStatsHistogram>)
    requires AllValid(m)
    ensures AllValid(r)
  {
    if !Eligible(s) then m
    else
      var h := if s.shipId in m then m[s.shipId] else ShipStatsHistogram.New();
      NewValid();
      IncrementValid(h, Calculate(s.pvp));
      m[s.shipId := h.Increment(Calculate(s.pvp))]
  }

  /** The histograms after inserting `samples` one by one into `m`. */
  function AggregateFrom(m: map<nat, ShipStatsHistogram>, samples: seq<DetailedStatTypes>): (r: map<nat, ShipStatsHistogram>)
    requires AllValid(m)
    ensures AllValid(r)
  {
    if samples == [] then m else AddSample(AggregateFrom(m, samples[..|samples| - 1]), samples[|samples| - 1])
  }

  lemma {:induction false} AggregateFromAppend(m: map<nat, ShipStatsHistogram>, a: seq<DetailedStatTypes>, b: seq<DetailedStatTypes>)
    requires AllValid(m)
    ensures AggregateFrom(m, a + b) == AggregateFrom(AggregateFrom(m, a), b)
  {
    if b != [] {
      var ab, init, last := a + b, b[..|b| - 1], b[|b| - 1];
      assert ab[..|ab| - 1] == a + init && ab[|ab| - 1] == last;
      AggregateFromAppend(m, a, init);
      assert AggregateFrom(m, ab) == AddSample(AggregateFrom(m, a + init), last);
    } else {
      assert a + b == a;
    }
  }

  /** The averaged records of ship `id` among the eligible `samples`. */
  function ShipSamples(samples: seq<DetailedStatTypes>, id: nat): seq<AveragedShipStats> {
    if samples == [] then []
    else
      var s := samples[|samples| - 1];
      ShipSamples(samples[..|samples| - 1], id) + (if Eligible(s) && s.shipId == id then [Calculate(s.pvp)] else [])
  }

  /** Some eligible sample is of ship `id`. */
  ghost predicate SeenShip(samples: seq<DetailedStatTypes>, id: nat) {
    exists i :: 0 <= i < |samples| && Eligible(samples[i]) && samples[i].shipId == id
  }

  /** Aggregating from nothing keeps histograms for exactly the ships seen
      in an eligible sample. */
  lemma {:induction false} AggregateKey(samples: seq<DetailedStatTypes>, id: nat)
    ensures id in AggregateFrom(map[], samples) <==> SeenShip(samples, id)
  {
    if samples != [] {
      var init := samples[..|samples| - 1];
      var s := samples[|samples| - 1];
      AggregateKey(init, id);
      if SeenShip(init, id) {
        var i :| 0 <= i < |init| && Eligible(init[i]) && init[i].shipId == id;
        assert samples[i] == init[i];
      }
      if SeenShip(samples, id) && !(Eligible(s) && s.shipId == id) {
        var i :| 0 <= i < |samples| && Eligible(samples[i]) && samples[i].shipId == id;
        assert init[i] == samples[i];
      }
    }
  }

  /** Each ship's histograms hold exactly that ship's averaged eligible
      samples, in order. */
  lemma {:induction false} AggregateHoldsShip(samples: seq<DetailedStatTypes>, id: nat)
    requires id in AggregateFrom(map[], samples)
    ensures AggregateFrom(map[], samples)[id].Holds(ShipSamples(samples, id))
  {
    var init := samples[..|samples| - 1];
    var s := samples[|samples| - 1];
    var m := AggregateFrom(map[], init);
    var r := AggregateFrom(map[], samples);
    assert r == AddSample(m, s);
    if Eligible(s) && s.shipId == id {
      var h := if id in m then m[id] else ShipStatsHistogram.New();
      var v := Calculate(s.pvp);
      if id in m {
        AggregateHoldsShip(init, id);
      } else {
        AggregateKey(init, id);
        NoSamples(init, id);
      }
      assert h.Holds(ShipSamples(init, id));
      ShipIncrementRecords(h, ShipSamples(init, id), v);
      assert r[id] == h.Increment(v);
      assert ShipSamples(samples, id) == ShipSamples(init, id) + [v];
    } else {
      assert r[id] == m[id];
      AggregateHoldsShip(init, id);
      assert ShipSamples(samples, id) == ShipSamples(init, id) + [] == ShipSamples(init, id);
    }
  }

  /** A ship absent from the aggregate has no eligible sample. */
  lemma {:induction false} NoSamples(samples: seq<DetailedStatTypes>, id: nat)
    requires forall i :: 0 <= i < |samples| ==> !(Eligible(samples[i]) && samples[i].shipId == id)
    ensures ShipSamples(samples, id) == []
  {
    if samples != [] {
      NoSamples(samples[..|samples| - 1], id);
    }
  }

  /** The innermost loop of `calculate_aggregate_stats`: one player's
      per-ship statistics, in order. */
  method AddSamples(hist: map<nat, ShipStatsHistogram>, stats: seq<DetailedStatTypes>) returns (r: map<nat, ShipStatsHistogram>)
    requires AllValid(hist)
    ensures AllValid(r) && r == AggregateFrom(hist, stats)
  {
    r := hist;
    var j := 0;
    while j < |stats|
      invariant j <= |stats|
      invariant AllValid(r) && r == AggregateFrom(hist, stats[..j])
    {
      assert stats[..j + 1][..j] == stats[..j];
      r := AddSample(r, stats[j]);
      j := j + 1;
    }
    assert stats[..|stats|] == stats;
  }

  /** The middle loop of `calculate_aggregate_stats`: one record, player
      by player. */
  method AddRecord(hist: map<nat, ShipStatsHistogram>, x: PlayerStats) returns (r: map<nat, ShipStatsHistogram>)
    requires AllValid(hist)
    ensures AllValid(r) && r == AggregateFrom(hist, RecordSamples(x))
  {
    r := hist;
    var i := 0;
    while i < |x|
      invariant i <= |x|
      invariant AllValid(r) && r == AggregateFrom(hist, RecordSamples(x[..i]))
    {
      assert x[..i + 1][..i] == x[..i];
      ghost var before := RecordSamples(x[..i]);
      match x[i].1 {
        case None =>
        case Some(stats) =>
          r := AddSamples(r, stats);
      }
      AggregateFromAppend(hist, before, EntrySamples(x[i]));
      i := i + 1;
    }
    assert x[..|x|] == x;
  }

  /** Aggregating one more record continues from the aggregate of the
      records before it. */
  lemma AggregateRecord(records: seq<PlayerStats>, x: PlayerStats)
    ensures AggregateFrom(map[], AllSamples(records + [x])) ==
            AggregateFrom(AggregateFrom(map[], AllSamples(records)), RecordSamples(x))
  {
    assert (records + [x])[..|records|] == records;
    assert AllSamples(records + [x]) == AllSamples(records) + RecordSamples(x);
    AggregateFromAppend(map[], AllSamples(records), RecordSamples(x));
  }

  /** The reading loop's invariant is kept across one record. */
  lemma ReadStep(file: seq<byte>, pos: nat, length: nat, x: PlayerStats, decode: seq<byte> -> Option<PlayerStats>,
                 done: seq<PlayerStats>)
    requires pos + 4 <= |file| && length == FromU32LE(file[pos..pos + 4]) && pos + 4 + length <= |file|
    requires decode(file[pos + 4..pos + 4 + length]) == Some(x)
    requires Decoded(file, decode) == done + Decoded(file[pos..], decode)
    ensures Decoded(file, decode) == (done + [x]) + Decoded(file[pos + 4 + length..], decode)
  {
    DecodedAt(file, pos, length, x, decode);
    var later := Decoded(file[pos + 4 + length..], decode);
    assert done + ([x] + later) == (done + [x]) + later;
  }

  /** `calculate_aggregate_stats` over the contents of the record file. */
  method CalculateAggregateStats(file: seq<byte>, decode: seq<byte> -> Option<PlayerStats>)
    returns (hist: map<nat, ShipStatsHistogram>)
    ensures hist == AggregateFrom(map[], AllSamples(Decoded(file, decode)))
  {
    hist := map[];
    var pos := 0;
    ghost var done: seq<PlayerStats> := [];
    while true
      invariant pos <= |file|
      invariant Decoded(file, decode) == done + Decoded(file[pos..], decode)
      invariant hist == AggregateFrom(map[], AllSamples(done))
      decreases |file| - pos
    {
      if |file| - pos < 4 {
        DecodedStops(file, pos, 0, decode);
        break;
      }
      var length := FromU32LE(file[pos..pos + 4]);
      if |file| - pos - 4 < length {
        DecodedStops(file, pos, length, decode);
        break;
      }
      var payload := file[pos + 4..pos + 4 + length];
      match decode(payload) {
        case None =>
          DecodedStops(file, pos, length, decode);
          break;
        case Some(x) =>
          ReadStep(file, pos, length, x, decode, done);
          AggregateRecord(done, x);
          hist := AddRecord(hist, x);
          done := done + [x];
          pos := pos + 4 + length;
      }
    }
    assert Decoded(file, decode) == done + [] == done;
  }
}
