# warships-player-stats, modelled in Dafny

This project models the core of warships-player-stats, a service that crawls
the World of Warships public API. It collects every player's per-ship
statistics and turns them into per-ship percentile tables. It also serves a
"cheat sheet" of ships for one matchmaking tier. The model covers the
deterministic logic of that service:

- **Percentile estimation.** A bucketed histogram of 10 000 buckets. Out-of-range
  values are clamped. Reading a percentile back is a ten-step bisection
  (`Histograms`, `Bisection`, `Floats`).
- **Per-ship metrics.** A player's counters become 25 per-battle ratios, and
  one histogram per ratio aggregates them (`Metrics`, `Statistics`).
- **Crawl bookkeeping.** The three-letter search prefixes and the lowercase
  nickname lookup. The merge of a fresh player list into the known one. The
  length-prefixed record file and the aggregation read back from it, which
  skips players with fewer than ten games (`PlayerList`, `RecordFile`,
  `Aggregation`). The per-player statistics store and the database object
  (`StatsStore`, `Database`).
- **The API client's pure parts.** The cache-key preimage, request parameters,
  the breadth-first player search that refines any full (100-player) reply,
  and the paged ship enumeration (`Scraper`, `Numbers`).
- **Ship data and display.** The ship and module database with its 100-id
  request chunks (`Ships`). Game-parameter loading with its two-level ability
  resolution (`GameParams`). The ship-class order and `Ship::from`
  (`Cheatsheet`). The settings reader and the cheat sheet's tier filter and
  stable sort (`App`).
- **The progress counter.** It reports at most once a minute, with the clock
  passed in (`ProgressLogging`).

Rust panics are an explicit outcome (`Wrappers.Outcome`), carrying the panic
message (its fixed part, see below). Errors are `Result` values over
`Errors.Error`. An `f32` value is a `real` with explicit NaN and infinity
markers (`Floats.Float`), so zero denominators are modelled rather than excluded. Anything the code hands to a
foreign crate or to the network is a parameter of the model:

- the API replies;
- the clock;
- JSON, bincode and gzip codecs, with their round-trip laws stated as predicates where a property needs them;
- SHA-256;
- the percentile query of the `histogram` crate.

A `HashMap` is iterated in an unspecified order, so wherever the order
matters the model takes it as a sequence.

## Model

| member | source | states |
|---|---|---|
| ProgressLogging.Eta | src/progress_logger.rs:37-41 | with items counted, the estimate times the rate (items over elapsed seconds) gives back the remaining items; with none counted it is +inf while items remain and NaN when none remain, as `remaining as f64 / 0.0` is |
| ProgressLogging.Remaining | src/progress_logger.rs:40 | the items still to go are zero exactly when the total has reached the target, and otherwise make the total up to the target |
| ProgressLogging.ProgressLogger.constructor | src/progress_logger.rs:12-20 | a new logger keeps its tagline, reports from `now`, has counted nothing and has no target |
| ProgressLogging.ProgressLogger.WithTarget | src/progress_logger.rs:22-30 | as `new`, with the given target |
| ProgressLogging.ProgressLogger.Increment | src/progress_logger.rs:32-51 | the count always joins the total; a report is made exactly when more than 60 seconds have passed, and then the interval count restarts at zero and the report time moves to `now`, otherwise the interval count grows and the report time stays; the report carries the total, the interval count, the seconds elapsed since the last report, the rate as the interval count over those seconds and, only with a target, the remaining items and the estimate `Eta` gives for them at that rate |
| ProgressLogging.IncrementAll | src/progress_logger.rs:32-34 | any run of increments adds the sum of their counts to the total, whatever reports fall between them; tagline and target never change |
| Histograms.BucketOf | src/histogram.rs:29-31 | the bucket of a value is always a valid bucket index |
| Histograms.BucketHoldsValue | src/histogram.rs:29 | a finite value in `[0, max)` lands in the bucket whose range `[b, b+1)` times the bucket width contains it |
| Histograms.BucketClamps | src/histogram.rs:29-33 | a value at or above `max`, and +inf, go to the last bucket; NaN and negative values go to bucket 0 (the saturating float-to-integer cast) |
| Histograms.Tally | src/histogram.rs:27-36 | the bucket counts a sequence of inserted values leaves has one entry per bucket |
| Histograms.TallyCounts | src/histogram.rs:27-36 | each bucket counts exactly the inserted values that map to it |
| Histograms.TallyTotal | src/histogram.rs:27-36 | no inserted value is lost: the bucket counts add up to the number of values |
| Histograms.Histogram.New | src/histogram.rs:10-25 | a new histogram for `max` has 10 000 buckets of width `max / 10 000` and holds no value |
| Histograms.Histogram.Increment | src/histogram.rs:27-36 | inserting keeps the layout (maximum, bucket width, bucket count) and never fails |
| Histograms.IncrementCounts | src/histogram.rs:29-34 | inserting adds one to exactly the bucket the value maps to and leaves every other bucket alone |
| Histograms.IncrementRecords | src/histogram.rs:27-36 | a histogram holding the values `samples` holds `samples + [value]` after inserting `value` |
| Histograms.Histogram.Percentile | src/histogram.rs:38-40 | the value at a percentile is the bucket index the percentile query reports times the bucket width; the query's error is passed on unchanged |
| Histograms.Histogram.GetPercentile | src/histogram.rs:42-57 | the loop of ten bisection steps returns the percentile rank of the value, as the bisection specification defines it, including the first failing probe's error |
| Bisection.BisectGrid | src/histogram.rs:43-55 | after `steps` halvings the interval left is one cell of the grid of `2^steps` equal cells of the starting interval |
| Bisection.RankBounds | src/histogram.rs:42-57 | a percentile rank is the centre of one of the 1024 cells of `[0, 100]`, so it lies in `[100/2048, 100 - 100/2048]` |
| Bisection.BisectWithin | src/histogram.rs:43-55 | the interval left stays inside the starting interval |
| Bisection.BisectMonotone | src/histogram.rs:48-54 | bisection is monotone in the value: a value at most another never ends at a larger midpoint, whatever the percentile query answers |
| Bisection.RankMonotone | src/histogram.rs:42-57 | a larger value never gets a smaller percentile rank |
| Bisection.BisectBrackets | src/histogram.rs:48-54 | the interval left brackets the value: its lower end is the start or a probe whose percentile does not exceed the value, its upper end is the start's end or a probe whose percentile exceeds it |
| Bisection.BisectNonFinite | src/histogram.rs:48-54 | no finite percentile exceeds NaN or +inf, so for those values every step keeps the upper half |
| Bisection.RankNonFinite | src/histogram.rs:42-57 | NaN and +inf get the highest rank, `100 - 100/2048` |
| Floats.Div | src/statistics.rs:34-37 | `a as f32 / b as f32` of two counters is finite exactly when `b > 0`, and then times `b` gives `a`; it is +inf exactly when `b = 0 < a` (NaN for 0/0) |
| Floats.ExceedsAntitone | src/histogram.rs:48 | a percentile value that exceeds a larger value also exceeds a smaller one |
| Statistics.CalculateBattery | src/statistics.rs:32-39 | with at least one battle, frags, hits and shots per battle are finite and times the battle count give back their counters; the hit rate is hits over shots, finite exactly when shots were fired |
| Statistics.Calculate | src/statistics.rs:43-60 | every one of the 25 metrics is its counter (the reference table `Numerator`) divided, as `f32`, by its denominator (`Denominator`: wins for the win-survival rate, shots for a hit rate, wins plus losses for the rest) |
| Statistics.PerBattle | src/statistics.rs:44-58 | with at least one battle, a per-battle metric is exactly its counter over wins plus losses |
| Statistics.NoBattles | src/statistics.rs:44-58 | with no win and no loss, every per-battle metric is +inf or NaN |
| Statistics.RatesAreFractions | src/statistics.rs:36-52 | the win rate, the win-survival rate and every hit rate lie in `[0, 1]` when the counters are consistent (survived wins at most wins, hits at most shots) |
| Statistics.FractionBounds | src/statistics.rs:51-52 | a counter over a counter at least as large is, when finite, in `[0, 1]` |
| Statistics.IgnoresBattlesCounter | src/statistics.rs:44 | the record's own battle counter enters no metric: the battle count is wins plus losses |
| Statistics.BatteryMax | src/statistics.rs:89-96 | each battery histogram is created with a positive maximum (20, 1000, 1, 10 000) |
| Statistics.InitialMax | src/statistics.rs:120-136 | each ship histogram is created with a positive maximum |
| Statistics.Column | src/statistics.rs:138-155 | the values one metric's histogram receives are that metric of each inserted record, in order |
| Statistics.BatteryColumn | src/statistics.rs:98-104 | the values one battery field's histogram receives are that field of each inserted record, in order |
| Statistics.BatteryHistogram.New | src/statistics.rs:89-96 | a new battery histogram holds no record, each field's histogram with its own maximum |
| Statistics.BatteryHistogram.Increment | src/statistics.rs:98-104 | each field of the record goes into its own histogram, once, and every histogram keeps its layout |
| Statistics.BatteryIncrementRecords | src/statistics.rs:98-104 | a battery histogram holding `samples` holds `samples + [value]` after the increment |
| Statistics.BatteryHistogram.GetPercentile | src/statistics.rs:106-116 | returns the battery record of per-field ranks as `BatteryRanksSpec` describes it |
| Statistics.BatteryRanksSpec | src/statistics.rs:106-116 | the battery ranks succeed exactly when every field ranks; then each field of the result is its field's rank, a percentile strictly inside `(0, 100)`; otherwise the first failing field, in the order frags, hits, hit rate, shots, gives the error |
| Statistics.RankAllPercent | src/histogram.rs:42-57 | every successful rank that `get_percentile` produces is a percentile in `[100/2048, 100 - 100/2048]` |
| Statistics.BatteryMetrics | src/statistics.rs:110-115 | the four metrics of one battery, in the order `get_percentile` evaluates its fields |
| Statistics.FieldIndex | src/statistics.rs:110-115 | each battery field has its position in that evaluation order |
| Statistics.BatteryBlock | src/statistics.rs:162-190 | the four metrics of each battery sit in one block of the ship evaluation order, in field order |
| Statistics.MetricOrderIndex | src/statistics.rs:162-190 | the ship evaluation order lists 25 metrics and each metric at its own index |
| Statistics.MetricOrderDistinct | src/statistics.rs:162-190 | no metric is evaluated twice |
| Statistics.MetricIndexInverse | src/statistics.rs:162-190 | the index of the metric at a position is that position |
| Statistics.ShipStatsHistogram.New | src/statistics.rs:120-136 | a new ship histogram holds no record, each metric's histogram with its own maximum |
| Statistics.ShipStatsHistogram.FieldsValid | src/statistics.rs:72-86 | a valid ship histogram is made of 25 valid histograms |
| Statistics.ShipIncrementSlots | src/statistics.rs:138-155 | the increment puts each metric of the record into its own histogram and nothing else into it |
| Statistics.ShipIncrementRecords | src/statistics.rs:138-155 | a ship histogram holding `samples` holds `samples + [value]` after the increment |
| Statistics.ShipStatsHistogram.GetPercentile | src/statistics.rs:158-191 | returns the ship record of per-metric ranks as `ShipRanksSpec`, `ShipRanksOk` and `ShipRanksErr` describe it |
| Statistics.StepOk | src/statistics.rs:162-190 | one more successful metric extends the successful prefix of the evaluation order |
| Statistics.StepErr | src/statistics.rs:162-190 | a metric that fails after a successful prefix is the first failure |
| Statistics.BatteryOk | src/statistics.rs:164-169 | a battery that ranks extends the successful prefix by its four metrics |
| Statistics.BatteryErr | src/statistics.rs:164-169 | a battery that fails after a successful prefix fails at its first failing metric |
| Statistics.HeadErr | src/statistics.rs:163-169 | the experience metric and the four batteries either all rank or give the first failure in order |
| Statistics.CollectErr | src/statistics.rs:158-191 | a failed ship record carries the error of the first metric, in evaluation order, whose rank fails |
| Statistics.CollectBatteryOk | src/statistics.rs:110-115 | a battery record that ranks holds the rank of each field |
| Statistics.CollectOk | src/statistics.rs:162-190 | a ship record that ranks holds the rank of each metric |
| Statistics.BatteryRanksCollect | src/statistics.rs:164-169 | a battery's own `get_percentile` gives what the ship query assembles for that battery |
| Statistics.RanksCollect | src/statistics.rs:158-191 | the ship query is the assembly of per-metric ranks in evaluation order |
| Statistics.ShipRanksOk | src/statistics.rs:158-191 | a successful ship query holds each metric's rank, each a percentile strictly inside `(0, 100)` |
| Statistics.ShipRanksErr | src/statistics.rs:158-191 | a failed ship query carries the first failing metric's error |
| Statistics.ShipRanksSpec | src/statistics.rs:158-191 | the ship query succeeds exactly when every one of the 25 metrics ranks |
| Ships.ShipDb.constructor | src/ships.rs:19-23 | a new ship database has no ship and no module |
| Ships.ShipDb.GetShipInfo | src/ships.rs:25-28 | the stored information for a ship id, present exactly when the id is stored |
| Ships.ShipDb.GetAllInfo | src/ships.rs:30-33 | the copy of the ship map holds exactly the ids `get_ship_info` finds, each with the description `get_ship_info` returns for it |
| Ships.ShipDb.EnumerateShips | src/ships.rs:102-105 | every stored ship id, each once, and nothing else |
| Ships.KeysOf | src/ships.rs:104 | the keys of a map, each once |
| Ships.CollectModuleIds | src/ships.rs:42-52 | the set gathered is the module ids named in the module tree of every stored ship |
| Ships.ModuleIdsStep | src/ships.rs:46-50 | visiting one more ship adds exactly the module ids of its tree |
| Ships.Ordered | src/ships.rs:57 | the set's elements, each once, in some order (the set's iteration order) |
| Ships.Chunk | src/ships.rs:56-60 | the chunks, read in order, give back the ids; each is non-empty, at most 100 long, and all but the last are full |
| Ships.Fetched | src/ships.rs:62-73 | a failed module request panics with the `unwrap` message |
| Ships.FetchModules | src/ships.rs:62-73 | the download loop yields the module map the chunks' replies build in order, or the panic of the first failed request |
| Ships.PanicStays | src/ships.rs:64-67 | any failed chunk request makes the whole download panic |
| Ships.InsertAllKeys | src/ships.rs:70 | after insertion the ids are the old ones and those of the inserted pairs |
| Ships.InsertAllLast | src/ships.rs:70 | an id's module is that of its last inserted pair |
| Ships.InsertAllAppend | src/ships.rs:63-72 | inserting two runs of pairs is inserting the first, then the second |
| Ships.FetchedInsertsAll | src/ships.rs:62-73 | a completed download is the insertion of every chunk's pairs, chunk after chunk |
| Ships.ShipDb.UpdateModules | src/ships.rs:40-78 | the ships are untouched; every module id of every ship is requested once, in full chunks of 100 except the last; on success the module map is replaced wholesale by the download, and on a panic it is kept |
| Ships.ShipDb.UpdateOnce | src/ships.rs:80-96 | a successful enumeration replaces the whole ship map and an error keeps it; the modules are then refreshed for the ships now stored |
| PlayerList.LowerChar | src/database.rs:63 | lowercasing never leaves an upper-case ASCII letter |
| PlayerList.ToLower | src/database.rs:63 | a lowercased nickname has as many characters as the nickname |
| PlayerList.ToLowerIdempotent | src/database.rs:63 | lowercasing an already lowercased nickname changes nothing, so looking up a lowercased name finds the key the lookup was built with |
| PlayerList.BuildLookup | src/database.rs:61-64 | the insertion loop leaves exactly the lookup of every player's lowercased nickname to their account id, later players overwriting earlier ones |
| PlayerList.LookupKeys | src/database.rs:61-64 | the lookup's keys are exactly the lowercased nicknames of the players, no more and no fewer |
| PlayerList.LookupLastWins | src/database.rs:368-371 | a player whose lowercased nickname no later player shares is found under that name with their own account id |
| PlayerList.AlphabetLetters | src/database.rs:332-335 | the alphabet holds the 26 lower-case letters, a to z, in order |
| PlayerList.Prefixes | src/database.rs:336-337 | the cartesian product of three alphabets has 26 * 26 * 26 searches |
| PlayerList.PrefixShape | src/database.rs:337-347 | every search string is three lower-case letters |
| PlayerList.PrefixesDistinct | src/database.rs:337 | no search string is issued twice |
| PlayerList.PrefixesComplete | src/database.rs:337 | every three-letter lower-case string is among the searches |
| PlayerList.FetchPlayerList | src/database.rs:329-373 | the result is the lookup built from the players of every search that succeeded, in the order the searches completed, failed searches contributing nothing |
| PlayerList.CompletionOrderHolds | src/database.rs:336-361 | in any completion order that includes every prefix, each player a successful search for a three-letter lowercase string returns is gathered |
| PlayerList.SearchOrderComplete | src/database.rs:336-337 | the searches completing in the order they were issued is such an order |
| PlayerList.GatheredHolds | src/database.rs:351-357 | a player returned by any successful search is in the gathered list |
| PlayerList.MergePlayers | src/database.rs:154-160 | the merged list is the fetched lookup overridden by the known one, and the count is the number of fetched names not already known |
| PlayerList.MergeOfKeys | src/database.rs:155-159 | the merge loop's keys are the known names plus the fetched ones, a known name keeping its known id and a new one taking the fetched id |
| PlayerList.NewOfCount | src/database.rs:154-157 | the new-player count equals the size of the set of fetched names that were not known |
| PlayerList.MergeKeeps | src/database.rs:155-159 | merging never changes a known player's id, gives each new player their fetched id, and grows the list by exactly the new names |
| StatsStore.StatsKeyInjective | src/database.rs:109 | two players are stored under the same `detailed_stats:` key only if they are the same player |
| StatsStore.StoreLoad | src/database.rs:90-120 | when decoding undoes encoding, `get_detailed_stats` after a successful `update_detailed_stats` gives back the statistics stored |
| StatsStore.StoreOthers | src/database.rs:104-120 | storing one player's statistics leaves what every other player loads unchanged |
| StatsStore.LoadMissing | src/database.rs:92-96 | a player never stored loads as `CacheEntryNotFound` |
| StatsStore.ReplyStats | src/database.rs:302-313 | a reply carries statistics to store exactly when the call succeeded and the first entry of its map has some, and those are the ones stored |
| StatsStore.StoreAllStops | src/database.rs:305 | after a store error, later replies change nothing: the error ends `fetch_player_data` |
| StatsStore.StoreAllSucceeds | src/database.rs:298-316 | all the stores of `fetch_player_data` succeed exactly when every reply's statistics encode |
| StatsStore.StoreAllUntouched | src/database.rs:298-316 | a player no reply carried statistics for loads after the fetch as before it, whatever the encoders do |
| StatsStore.StoreAllLoad | src/database.rs:298-316 | when every store succeeds and the codecs invert, each player loads the statistics of the last reply for it, and every other player loads as before |
| Database.Db.constructor | src/database.rs:46-74 | a new database holds the given ships, aggregate and store, and the lookup of the stored players by lowercased nickname |
| Database.Db.GetUser | src/database.rs:76-81 | a user is found exactly when the name is a key of the player list, and then with its account id |
| Database.Db.GetShipStats | src/database.rs:83-88 | a ship's information and histogram are returned exactly when both are known, and then both as stored |
| Database.Db.UpdateDetailedStats | src/database.rs:104-120 | on success only the player's entry changes, to the encoded statistics, which then load back unchanged while every other player's load is as before; an encoder error is returned and changes nothing |
| Database.Db.Update | src/database.rs:147-193 | the store holds the writes of `fetch_player_data` for the replies in completion order, up to the first encoder error, which is returned; otherwise an aggregate error is returned, and failing that a ship-list error; the merged player list, the new aggregate and the new ships are installed together exactly when no store, aggregate or ship error occurred, with the count of new players returned; on any error those three stay as they were |
| RecordFile.Frame | src/database.rs:296-298 | a frame is the four-byte length header followed by the payload |
| RecordFile.FramesAppend | src/database.rs:297-298 | writing one more record appends exactly its frame to the file |
| RecordFile.Successes | src/database.rs:290-318 | only the successful replies are written, so never more records than replies |
| RecordFile.WriteRecords | src/database.rs:289-318 | the file is the frames of the successful replies, in arrival order, when every payload's length fits in a `u32`; otherwise the length conversion panics |
| RecordFile.EncodingsHas | src/database.rs:291-298 | every successful reply's encoding is among the written payloads |
| RecordFile.OversizedStays | src/database.rs:296 | a single payload of 2^32 bytes or more makes the write panic |
| RecordFile.DecodedAt | src/database.rs:214-241 | a complete header, a complete payload and a successful decode yield that record and reading continues after the frame |
| RecordFile.DecodedStops | src/database.rs:216-240 | a short header, a short payload or a failed decode ends reading with no further records |
| RecordFile.DecodeFrame | src/database.rs:223-241 | reading one well-formed frame gives its record, then goes on with the rest |
| RecordFile.ReadsAll | src/database.rs:214-262 | any reader that takes one well-formed frame at a time reads a file of frames back as all its records, in order |
| RecordFile.FramesRoundTrip | src/database.rs:214-241 | when decoding undoes encoding, reading what was written gives back every record in order, followed by whatever the remaining bytes read as |
| RecordFile.TruncatedTail | src/database.rs:216-231 | a file cut off inside the last header or payload still yields every complete record and nothing more |
| Aggregation.IncrementValid | src/database.rs:252-256 | incrementing a valid ship histogram keeps it valid, so the `unwrap` at that call never panics |
| Aggregation.NewValid | src/database.rs:249-251 | a new ship histogram is valid |
| Aggregation.AddSample | src/database.rs:245-256 | adding a sample keeps every histogram in the map valid |
| Aggregation.AggregateFrom | src/database.rs:242-261 | folding samples keeps every histogram in the map valid |
| Aggregation.AggregateFromAppend | src/database.rs:214-262 | aggregating two runs of samples one after the other is aggregating them together |
| Aggregation.AggregateKey | src/database.rs:246-251 | a ship has a histogram exactly when some eligible sample (ten or more games) is for that ship |
| Aggregation.AggregateHoldsShip | src/database.rs:245-256 | each ship's histogram holds exactly that ship's eligible samples |
| Aggregation.NoSamples | src/database.rs:246-248 | a ship with no eligible sample has no samples counted |
| Aggregation.AddSamples | src/database.rs:245-257 | the per-ship loop leaves the fold of the samples into the histograms, all still valid |
| Aggregation.AddRecord | src/database.rs:242-261 | one record's players, with and without statistics, fold into the histograms as their samples do |
| Aggregation.AggregateRecord | src/database.rs:214-262 | aggregating the records read so far and then one more is aggregating all of them |
| Aggregation.CalculateAggregateStats | src/database.rs:207-264 | the histograms are the aggregate of every record read from the file before the first short header, short payload or decode failure |
| Numbers.DecimalString | src/database.rs:91 | a decimal rendering is a non-empty string of digits |
| Numbers.ParseU64 | src/scraper.rs:331 | a parsed `u64` is at most 2^64 - 1 |
| Numbers.ParseDecimalRoundTrip | src/scraper.rs:336 | the decimal rendering of any `u64` parses back to that number |
| Numbers.DecimalInjective | src/database.rs:91 | different numbers render as different decimal strings |
| Numbers.U32LE | src/database.rs:297 | the little-endian form of a `u32` is four bytes |
| Numbers.FromU32LE | src/database.rs:223 | four little-endian bytes read as a number below 2^32 |
| Numbers.U32RoundTrip | src/database.rs:223 | reading back the written little-endian header gives the length written |
| Scraper.JoinedAppend | src/scraper.rs:69-74 | the cache-key text of two runs of parameters is the text of the first followed by that of the second |
| Scraper.JoinedFirst | src/scraper.rs:70-73 | each parameter contributes `_`, its name, `_` and its value, in that order |
| Scraper.JoinedLength | src/scraper.rs:69-74 | the cache-key text is as long as the parameters' names and values plus two separators each |
| Scraper.Hash | src/scraper.rs:67-76 | the key is the digest of the URI followed by every parameter's `_name_value`, in order |
| Scraper.Requested | src/scraper.rs:153-179 | a request succeeds exactly when the exchange gives a body that decodes, and then with the decoded value; a transport error is passed on unchanged and an undecodable body is a JSON error |
| Scraper.WowsClient.constructor | src/scraper.rs:46-55 | a new client keeps its application id and gets a fresh request counter tagged `api_requests`, with nothing counted and no target |
| Scraper.WowsClient.Fork | src/scraper.rs:57-65 | a fork is a new client with the same application id sharing the same request counter |
| Scraper.WowsClient.Request | src/scraper.rs:150-180 | the form sent is the caller's parameters followed by the application id; the result is that of the exchange and decode; only a decoded reply is counted, once, on the shared counter, and a failed one leaves the counter as it was |
| Scraper.FormShape | src/scraper.rs:150-151 | the form has one more parameter than the caller gave, the caller's first and unchanged, the application id last |
| Scraper.Children | src/scraper.rs:282-291 | a full reply is refined by 26 searches |
| Scraper.ChildrenShape | src/scraper.rs:284-289 | each refining search is the search followed by one more letter, a to z in order |
| Scraper.LoadAppend | src/scraper.rs:280-297 | the outstanding work of two queues together is the sum of their work |
| Scraper.LoadUniform | src/scraper.rs:280-297 | a queue of searches of one length carries that many times the work of one |
| Scraper.RefineLowersLoad | src/scraper.rs:282-296 | replacing a search shorter than the depth bound by its 26 refinements strictly lowers the outstanding work, so the queue loop ends |
| Scraper.RefinedTail | src/scraper.rs:289-296 | appending refinements does not disturb the searches still queued after the current one |
| Scraper.PushChildren | src/scraper.rs:286-291 | the loop over the alphabet appends exactly the 26 refinements of the search to the queue |
| Scraper.ListPlayers | src/scraper.rs:276-299 | the loop's result is the breadth-first exploration of the searches: a reply of exactly 100 players is replaced by its refinements, any other reply is appended, and the first error ends the search with that error |
| Scraper.ExploreFailsOnError | src/scraper.rs:281 | if any search still queued fails, the whole listing fails |
| Scraper.ExploreSound | src/scraper.rs:281-295 | every player listed came from a reply of other than exactly 100 players to a search extending a queued one |
| Scraper.ExploreFlat | src/scraper.rs:293-295 | when no reply is full, the listing is every reply, in queue order |
| Scraper.SingleSearch | src/scraper.rs:276-299 | a search whose reply is not full lists exactly that reply |
| Scraper.PageParams | src/scraper.rs:336-339 | the parameters of a page are the single `page_no` whose text parses back to the page number |
| Scraper.PageParamsInjective | src/scraper.rs:336-339 | different pages are requested with different parameters |
| Scraper.InsertReply | src/scraper.rs:341-346 | inserting a reply's entries gives the fold of the entries into the map, skipping absent ships and panicking on a key that is not a `u64` |
| Scraper.InsertedPanicStays | src/scraper.rs:343 | once a key fails to parse, the rest of the reply changes nothing: the panic stands |
| Scraper.InsertedPanics | src/scraper.rs:343 | inserting panics exactly when some present ship's key is not a `u64`, with the `unwrap` message |
| Scraper.InsertedKeys | src/scraper.rs:329-334 | after inserting, the ids are exactly the earlier ones plus the parsed keys of the present ships |
| Scraper.InsertedLastWins | src/scraper.rs:343 | a present ship whose id no later entry repeats is stored under its id with its own information |
| Scraper.InsertedAppend | src/scraper.rs:329-346 | inserting two replies one after the other is inserting their entries together, a panic in the first ending it |
| Scraper.FetchPages | src/scraper.rs:335-347 | the page loop gives the fold of pages 2 to the page total, in order, stopping at the first request error or key panic |
| Scraper.EnumerateShips | src/scraper.rs:322-349 | the result is the first page inserted into an empty map, then the later pages; an error on the first page is returned and a missing page total panics |
| Scraper.PagedInsertsAll | src/scraper.rs:335-347 | when every page succeeds, the result is all pages' entries inserted in page order |
| Scraper.PagedStep | src/scraper.rs:335-346 | a successful run to the last page is a successful run to the page before followed by the last page's entries |
| Scraper.EnumeratedInsertsAll | src/scraper.rs:322-349 | a successful enumeration fetched every page from 1 to the page total and holds all their entries inserted in order |
| Scraper.MissingPageTotalPanics | src/scraper.rs:335 | a first reply without a page total makes the enumeration panic |
| Scraper.PagedFinal | src/scraper.rs:340 | once the page loop has stopped, later pages change nothing |
| Scraper.PagedStopsOnError | src/scraper.rs:340 | a request error on any page makes the enumeration fail or panic, never succeed |
| GameParams.Get | src/gameparams.rs:105-109 | a member is found exactly when the object has a member of that name |
| GameParams.Resolve | src/gameparams.rs:64-68 | an empty option, or a one-name option whose entry exists, panics on the index; a one-name option whose entry is missing yields nothing; otherwise it yields the named ability exactly when both the entry and the field exist |
| GameParams.SlotOptions | src/gameparams.rs:61-69 | a slot never has more abilities than options |
| GameParams.SlotOptionsPanics | src/gameparams.rs:66 | building a slot panics exactly when one of its options is empty, or has one name whose entry exists |
| GameParams.SlotOptionsAllDefined | src/gameparams.rs:61-69 | when every option is defined, the slot holds each named ability, in option order |
| GameParams.SlotOptionsNoneDefined | src/gameparams.rs:65-67 | options naming missing entries or fields are dropped without error |
| GameParams.SlotOptionsFilter | src/gameparams.rs:61-69 | when no option panics, the slot holds the abilities of exactly the defined options, each once, in option order, whatever mix of defined and undefined options it has |
| GameParams.DefinedIndicesIn | src/gameparams.rs:64-68 | the positions the slot keeps are all defined options |
| GameParams.DefinedIndicesSorted | src/gameparams.rs:61-69 | the kept positions are in option order |
| GameParams.DefinedIndicesCover | src/gameparams.rs:64-68 | every defined option's position is kept |
| GameParams.Slots | src/gameparams.rs:57-72 | there is one slot per entry of the ship's slot map, each holding that entry's resolved options |
| GameParams.Process | src/gameparams.rs:56-81 | the processed ship keeps the id, name and level; a ship without abilities has no slots; one with abilities has one slot per entry unless an option panics |
| GameParams.TypeOf | src/gameparams.rs:105-110 | a `typeinfo` is only read from an object entry; otherwise the `unwrap` panics |
| GameParams.Types | src/gameparams.rs:104-115 | when every entry's `typeinfo` decodes, there is one type name per entry |
| GameParams.TypesOk | src/gameparams.rs:104-115 | after a successful first loop, each entry's `typeinfo` decodes to the type name recorded for it |
| GameParams.OccursIff | src/gameparams.rs:111-114 | a type name is counted at least once exactly when some entry has it |
| GameParams.CountTypes | src/gameparams.rs:103-115 | on success the counts map holds exactly the type names that occur, each with its number of entries; otherwise the first failing entry's panic or decode error is the result |
| GameParams.TypesStop | src/gameparams.rs:105-110 | the first entry whose `typeinfo` fails decides the outcome of the whole loop |
| GameParams.FieldsKeys | src/gameparams.rs:132-140 | an ability entry's table holds exactly the fields that decode as an ability |
| GameParams.AbilityKeys | src/gameparams.rs:122-144 | the ability table's keys are exactly the keys of the entries of type `Ability` |
| GameParams.ShipsFrom | src/gameparams.rs:147-160 | every ship in the map is stored under its own id |
| GameParams.ShipStep | src/gameparams.rs:148-159 | an entry that is not a `Ship` leaves the ship map as it was, and a stored ship is keyed by its id |
| GameParams.ShipsFromStep | src/gameparams.rs:148-159 | the third loop after one more entry is one step from its state before |
| GameParams.ShipsFromShipEntries | src/gameparams.rs:155-158 | every ship in the map comes from a `Ship` entry that decodes to a ship with that id |
| GameParams.ShipsFromLastWins | src/gameparams.rs:155-158 | a `Ship` entry whose id no later ship repeats is the one kept, processed against the ability table |
| GameParams.ShipsFromStops | src/gameparams.rs:154-156 | once the loop fails on some entry, the entries after it change nothing |
| GameParams.TypesObjects | src/gameparams.rs:105-107 | after a successful first loop, every entry is an object, so the later `unwrap` calls on the same entries cannot panic |
| GameParams.BuildAbilityTable | src/gameparams.rs:121-144 | the second loop builds the ability table of the `Ability` entries |
| GameParams.DecodeFields | src/gameparams.rs:131-141 | the inner loop keeps exactly the fields that decode, later duplicates overwriting earlier ones |
| GameParams.BuildShips | src/gameparams.rs:147-160 | the third loop's result is the fold of the entries into the ship map, stopping at the first decode error or panic |
| GameParams.Load | src/gameparams.rs:98-163 | a top-level value that is not an object panics; otherwise the result is the ships of the three loops, or the first failure |
| GameParams.Params.GetShip | src/gameparams.rs:165-167 | a ship is found exactly when its id is in the table, and then as stored |
| Cheatsheet.Short | src/cheatsheet.rs:16-23 | every class has a two-letter short name |
| Cheatsheet.ShortInjective | src/cheatsheet.rs:16-23 | two classes share a short name only if they are the same class |
| Cheatsheet.PartialCmp | src/cheatsheet.rs:26-39 | the comparison is always defined, `Equal` exactly for equal classes, and otherwise orders destroyers, cruisers, battleships and carriers in that order |
| Cheatsheet.CmpAntisymmetric | src/cheatsheet.rs:41-45 | swapping the arguments of `cmp` swaps `Less` and `Greater` and keeps `Equal` |
| Cheatsheet.CmpTransitive | src/cheatsheet.rs:41-45 | `cmp` is transitive, so it is a total order |
| Cheatsheet.CmpChain | src/cheatsheet.rs:32-35 | destroyer < cruiser < battleship < carrier |
| Cheatsheet.FromString | src/cheatsheet.rs:47-60 | exactly the four API names `Cruiser`, `Destroyer`, `Battleship` and `AirCarrier` are accepted, each for the class it names; any other name panics with `Unknown ship type` and the name |
| Cheatsheet.FromApiName | src/cheatsheet.rs:47-60 | every class is recovered from its API name |
| Cheatsheet.LastRangeSpec | src/cheatsheet.rs:87-96 | a sonar or radar range is absent exactly when no option has that type, and otherwise is the scaled range of the last such option |
| Cheatsheet.OptionsPrefix | src/cheatsheet.rs:87-88 | the options visited so far are a prefix of all the options, slot by slot |
| Cheatsheet.OptionsStep | src/cheatsheet.rs:87-88 | finishing a slot adds exactly its options to those visited |
| Cheatsheet.ScanStep | src/cheatsheet.rs:88-95 | visiting one more option keeps the scan well defined exactly when a sonar or radar option has a range, and replaces the sonar or radar range when the option is of that type |
| Cheatsheet.RangedPrefix | src/cheatsheet.rs:90-93 | if no option lacks a range, neither does any prefix of them |
| Cheatsheet.MaxRangeUnique | src/cheatsheet.rs:97-110 | there is only one largest torpedo range |
| Cheatsheet.DescribesUnique | src/cheatsheet.rs:80-134 | the description of what `Ship::from` yields fixes its outcome, except which missing module the panic names when several are missing; with one missing module it is fixed outright |
| Cheatsheet.ModuleMissingInjective | src/cheatsheet.rs:99-102 | the missing-module panic names the module: different ids give different messages |
| Cheatsheet.MaxRangeStep | src/cheatsheet.rs:103-109 | visiting one more module keeps the running value the largest torpedo range seen, taking the module's range when it is larger or when none was seen |
| Cheatsheet.ScanConsumables | src/cheatsheet.rs:85-96 | a sonar or radar option without a range panics on the `unwrap`; otherwise hydro and radar are the scaled ranges of the last sonar and last radar option |
| Cheatsheet.MaxTorpedoRange | src/cheatsheet.rs:97-110 | a module missing from the module map panics with a message naming one missing module's id; otherwise the result is the largest torpedo range over the module tree, or nothing when no module has torpedoes |
| Cheatsheet.ShipFrom | src/cheatsheet.rs:80-134 | the entry copies the name, id, tier, nation and contour image, takes the speed and matchmaking tiers with 0 for missing ones, and holds the last sonar and radar ranges and the largest torpedo range; a missing range, module, contour image or unknown class panics, in the order the code meets them |
| Cheatsheet.CheatsheetDb.constructor | src/cheatsheet.rs:145-155 | the sheet database keeps the ship database and game parameters it is given |
| Cheatsheet.CheatsheetDb.EnumerateShips | src/cheatsheet.rs:157-159 | every ship of the ship database is listed, once |
| Cheatsheet.CheatsheetDb.GetShip | src/cheatsheet.rs:161-167 | a ship absent from the game parameters or the ship database panics on the `unwrap`; otherwise the result is `Some` of what `Ship::from` yields, never `None` |
| App.ParseBool | src/main.rs:247 | exactly `true` and `false` parse as booleans, each as itself |
| App.RequestPeriod | src/main.rs:263 | the period is the nanoseconds per request truncated toward zero, saturating at the `u64` bounds: 0 for a negative rate and the largest `u64` for a zero rate or a quotient beyond 64 bits |
| App.TwentyPerSecond | src/main.rs:286 | a rate of 20 requests a second gives a period of 50 000 000 ns |
| App.ConfigFromMap | src/main.rs:245-270 | the settings are accepted exactly when `disable_scraper`, if present, is a boolean and `api_key`, a float `api_request_rate` and `mongo` are present; then the scraper is disabled only by `true` (absent means false), the key and the Mongo URL are copied and the period follows the rate; otherwise the first missing or malformed setting panics with its message |
| App.ConfigTestPanics | src/main.rs:279-287 | the settings of `config_parser_works` have no `mongo`, so `from_map` panics with the missing-`mongo` message |
| App.ConfigTestWithMongo | src/main.rs:279-287 | with a `mongo` entry added, the same settings give key `asdf`, period 50 000 000 and the scraper enabled, as the test expects |
| App.StrLessIrreflexive | src/main.rs:76 | no name sorts before itself |
| App.StrLessTransitive | src/main.rs:76 | the name order is transitive |
| App.StrLessTotal | src/main.rs:76 | of two different names, one sorts before the other |
| App.KeyTrichotomy | src/main.rs:76 | of two ships, exactly one of these holds: the first key is less, the second is less, or both have the same class and name |
| App.StrNotLessTransitive | src/main.rs:76 | "not before" is transitive on names, as a sort needs |
| App.KeyNotLessTransitive | src/main.rs:76 | "not before" is transitive on the (class, name) key |
| App.InsertByKeyPerm | src/main.rs:76 | inserting a ship into a sorted run adds exactly that ship |
| App.SortByKeyPerm | src/main.rs:76 | sorting rearranges the ships without adding or losing any |
| App.InsertByKeySorted | src/main.rs:76 | inserting into a run sorted by (class, name) keeps it sorted |
| App.SortByKeySorted | src/main.rs:76 | the sorted ships are in (class, name) order |
| App.InsertByKeyStable | src/main.rs:76 | inserting a ship places it after every ship with the same key |
| App.SortByKeyStable | src/main.rs:76 | ships with equal keys keep their relative order, as in a stable sort |
| App.OnTierMembers | src/main.rs:70-75 | a ship is kept exactly when it was fetched and its matchmaking range includes the tier |
| App.SheetOrder | src/main.rs:69-76 | the sheet is sorted by (class, name) and holds exactly the fetched ships of the tier |
| App.RenderCheatsheet | src/main.rs:69-76 | every known ship is fetched once, in enumeration order; the sheet is the stable (class, name) sort of those whose matchmaking range includes the tier; a ship that cannot be fetched panics with the reason `get_ship` gives |

## Left out

- Concurrency is not modelled: the tokio tasks, the `select!` fan-out of at most 100 requests in flight, the `Mutex`/`Arc` locking and the request throttle. Every loop runs sequentially, and replies are taken in the order the caller gives, which stands for completion order.
- The weekly update loops (`database_update_loop`, the ship `update_loop` timer) and their sleeps are not modelled: they are scheduling. One pass of each is modelled (`Database.Db.Update`, `Ships.ShipDb.UpdateOnce`).
- Network I/O, file I/O (create, rename, read), sled, MongoDB, gzip, SHA-256 and its hex rendering, bincode and serde_json are not modelled. Each is a function parameter, because it is foreign code. Where a round trip is claimed, the codecs are required to be inverse (`StatsStore.Inverse`, `RecordFile.FramesRoundTrip`).
- The sled `insert(...).expect(...)` in `update_detailed_stats` is modelled as a map update that cannot fail: the store is a map, not a database.
- The UTF-8 check and JSON parse at the start of `GameParams::load` are not modelled: `GameParams.Load` starts from the parsed top-level value.
- Histograms are values, not objects. `increment(&mut self)` is a function from the old histogram to the new one. The histograms are owned without sharing, so no aliasing is lost, but update in place is not modelled.
- App.RequestPeriod: the rate is a real parsed from the settings, so the `NaN`, `inf` and `-0.0` rates that `parse::<f64>` accepts are not modelled. For each of them the source's saturating cast gives a period of 0 (a negative zero divides to negative infinity), while a real zero rate gives the largest `u64`.
- `f32` and `f64` rounding is not modelled: values are exact reals, with NaN and infinity kept explicit. `RANGE_SCALE` (33.333333) and the 1e9 in the request period are exact decimals.
- `f32::max` is modelled as the maximum of two reals; NaN torpedo ranges are not modelled.
- Lowercasing is modelled only for the ASCII letters A-Z: Unicode case mapping is not.
- `u64` arithmetic is unbounded except where the source converts or parses: the `u32` frame length, `str::parse::<u64>` and the saturating `as u64` casts.
- Statistics.BattleCount and Aggregation.Eligible take `wins + losses` as an exact sum. In the source both counters are `u32` and the sum is a `u32` addition, which panics on overflow in a debug build and wraps in a release build; neither is modelled, because the API's game counts stay far below 2^32.
- The Rocket routes, Tera templates and filters, `build_playerstats_context` and the player-stats page are not modelled: they are presentation. Only the ship selection and sort of `render_cheatsheet` are (`App.RenderCheatsheet`).
- The logging (`println!`, tracing, the progress lines printed by `ProgressLogger`) is not modelled. The values a report would print are returned by `ProgressLogging.ProgressLogger.Increment` and stated in its contract, and the `now` timestamps are parameters.
- Scraper.ListPlayers: requires `Bounded(lookup, depth)`, that no search of some length gets a full reply. The source loop has no bound and would not end if every refinement kept returning 100 players; `depth` is a ghost termination measure only.
- Scraper.WowsClient.Request: the cache key computed at the top of `request` is unused by the live code, so it is not computed there. `Scraper.Hash` models `hash` on its own. The commented-out cache paths are not modelled.
- `list_players_helper`, `get_detailed_stats` and `get_ship_info` are not modelled as calls: each is one `request` with a single parameter, and the player search and page enumeration take its results as oracle functions. Their request counting is stated once, in `Scraper.WowsClient.Request`, and not chained through those loops.
- Ships.ShipDb.UpdateModules: `get_module_info` is called by src/ships.rs but is not defined in src/scraper.rs; the module download takes its replies as a parameter.
- `WowsClient::new` is called with two arguments in src/main.rs but takes one in src/scraper.rs. The model follows src/scraper.rs.
- The `StatsHistogram` used in src/main.rs is not defined by src/statistics.rs, and is not part of this model.
- Database.Db.Update: the store writes of `fetch_player_data` and their error exit are modelled (`StatsStore.StoreAll`), but the record-file writes of the same loop are modelled apart (`RecordFile.WriteRecords`) and not interleaved with them. A file create or write error, which would also end `fetch_player_data`, and the `u32` length panic are therefore not threaded through `Database.Db.Update`; the aggregate it installs is a parameter.
- Panic messages keep the fixed text of the source's `unwrap`: an `unwrap` on an `Err` is `called `Result::unwrap()` on an `Err` value` without the error's debug rendering after it, and an index out of range is `index out of bounds` without the length and index.
- RecordFile.WriteRecords: a bincode serialisation failure is not modelled, because serialising these maps cannot fail. A reply that failed is only printed by the source; it appears as `None` and is skipped.
- `Database::new` reads `ships.bin` and `playerlist.bin`, and `update` writes them: the files are not modelled. `Database.Db.constructor` takes the decoded ship map, player list and aggregate.
- Ships.ShipDb.GetModules returns the module map as it is stored. It has no contract beyond that, so it has no row above.

## Findings

| source | as written | input that shows it | evidently intended | confidence | as-written member | corrected member |
|---|---|---|---|---|---|---|
| src/main.rs:279-287 | `config_parser_works` builds settings with only `api_key` and `api_request_rate`, but `Config::from_map` requires `mongo` (src/main.rs:259-262) | `{"api_key": "asdf", "api_request_rate": "20"}` makes `from_map` panic with "Could not find 'mongo' in settings" before any assertion runs | the test settings include a `mongo` entry, so that the key and the 50 000 000 ns period are checked | high (not executed) | App.ConfigTestPanics | App.ConfigTestWithMongo |
