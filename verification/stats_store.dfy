/** The per-player statistics store of src/database.rs: each player's
    detailed statistics, as compressed JSON, under a key derived from the
    account id. The JSON and gzip codecs are parameters. */
module StatsStore {
  import opened Wrappers
  import opened Numbers
  import opened Errors
  import opened WowsData
  import opened Aggregation

  // ---------------------------------------------------------------------
  // Per-player detailed statistics store
  // ---------------------------------------------------------------------

  /** `format!("detailed_stats:{}", player_id)`. */
  function StatsKey(id: nat): string {
    "detailed_stats:" + DecimalString(id)
  }

  /** Different players are stored under different keys. */
  lemma StatsKeyInjective(a: nat, b: nat)
    requires StatsKey(a) == StatsKey(b)
    ensures a == b
  {
    var p := "detailed_stats:";
    assert StatsKey(a)[|p|..] == DecimalString(a);
    assert StatsKey(b)[|p|..] == DecimalString(b);
    DecimalInjective(a, b);
  }

  /** The foreign encoders the store goes through: JSON (its text as
      bytes; decoding covers the UTF-8 check) and gzip. */
  datatype Codec = Codec(
    toJson: seq<DetailedStatTypes> -> Result<seq<byte>, Error>,
    fromJson: seq<byte> -> Result<seq<DetailedStatTypes>, Error>,
    compress: seq<byte> -> Result<seq<byte>, Error>,
    decompress: seq<byte> -> Result<seq<byte>, Error>)

  /** Decoding undoes encoding, for both layers. */
  ghost predicate Inverse(c: Codec) {
    (forall b :: c.compress(b).Ok? ==> c.decompress(c.compress(b).value) == Ok(b)) &&
    (forall x :: c.toJson(x).Ok? ==> c.fromJson(c.toJson(x).value) == Ok(x))
  }

  /** The body `update_detailed_stats` inserts: the JSON text, compressed;
      either encoder's error is returned. */
  function Encoded(stats: seq<DetailedStatTypes>, c: Codec): Result<seq<byte>, Error> {
    var text :- c.toJson(stats);
    c.compress(text)
  }

  /** `get_detailed_stats` over the store's contents: a missing key is
      `CacheEntryNotFound`; otherwise decompress and decode, passing on
      either error. */
  function Load(data: map<string, seq<byte>>, id: nat, c: Codec): Result<seq<DetailedStatTypes>, Error> {
    var key := StatsKey(id);
    if key !in data then Err(CacheEntryNotFound)
    else
      var text :- c.decompress(data[key]);
      c.fromJson(text)
  }

  /** `update_detailed_stats` over the store's contents. */
  function Store(data: map<string, seq<byte>>, id: nat, stats: seq<DetailedStatTypes>, c: Codec): Result<map<string, seq<byte>>, Error> {
    var body :- Encoded(stats, c);
    Ok(data[StatsKey(id) := body])
  }

  /** What was stored is loaded back, and nothing else changes. */
  lemma StoreLoad(data: map<string, seq<byte>>, id: nat, stats: seq<DetailedStatTypes>, c: Codec)
    requires Inverse(c) && Store(data, id, stats, c).Ok?
    ensures Load(Store(data, id, stats, c).value, id, c) == Ok(stats)
  {
  }

  /** Storing one player's statistics leaves every other player's as it
      was, whatever the encoders do. */
  lemma StoreOthers(data: map<string, seq<byte>>, id: nat, stats: seq<DetailedStatTypes>, c: Codec, other: nat)
    requires Store(data, id, stats, c).Ok? && other != id
    ensures Load(Store(data, id, stats, c).value, other, c) == Load(data, other, c)
  {
    if StatsKey(other) == StatsKey(id) {
      StatsKeyInjective(other, id);
    }
  }

  /** A player never stored is not found. */
  lemma LoadMissing(id: nat, c: Codec)
    ensures Load(map[], id, c) == Err(CacheEntryNotFound)
  {
  }

  // ---------------------------------------------------------------------
  // The store writes of `fetch_player_data`
  // ---------------------------------------------------------------------

  /** One completed detailed-statistics call: the account id asked for,
      and the reply, or `None` when the call failed (the source only
      prints that error). */
  type PlayerReply = (nat, Option<PlayerStats>)

  /** The statistics `fetch_player_data` stores for a reply: those of the
      reply map's first entry, when the call succeeded and that entry has
      any. */
  function ReplyStats(reply: Option<PlayerStats>): (s: Option<seq<DetailedStatTypes>>)
    ensures s.Some? <==> reply.Some? && reply.value != [] && reply.value[0].1.Some?
    ensures s.Some? ==> s == reply.value[0].1
  {
    match reply
    case Some(entries) => if entries != [] then entries[0].1 else None
    case None => None
  }

  /** The store after a sequence of writes, and the error that stopped
      them, if any. */
  datatype Stored = Stored(data: map<string, seq<byte>>, error: Option<Error>)

  /** The store writes `fetch_player_data` makes for `replies`, in
      completion order: each reply with statistics is stored under its
      account id, and the first encoder error ends the writing, keeping
      what was stored before it. */
  function StoreAll(data: map<string, seq<byte>>, replies: seq<PlayerReply>, c: Codec): Stored
    decreases |replies|
  {
    if replies == [] then Stored(data, None)
    else
      var prev := StoreAll(data, replies[..|replies| - 1], c);
      var last := replies[|replies| - 1];
      var s := ReplyStats(last.1);
      if prev.error.Some? || s.None? then prev
      else match Store(prev.data, last.0, s.value, c)
        case Ok(d) => Stored(d, None)
        case Err(e) => Stored(prev.data, Some(e))
  }

  /** The statistics the last reply for `id` that carried any holds. */
  function Latest(replies: seq<PlayerReply>, id: nat): Option<seq<DetailedStatTypes>>
    decreases |replies|
  {
    if replies == [] then None
    else
      var last := replies[|replies| - 1];
      if last.0 == id && ReplyStats(last.1).Some? then ReplyStats(last.1)
      else Latest(replies[..|replies| - 1], id)
  }

  /** Once a write has failed, later replies change nothing. */
  lemma {:induction false} StoreAllStops(data: map<string, seq<byte>>, replies: seq<PlayerReply>, k: nat, c: Codec)
    requires k <= |replies| && StoreAll(data, replies[..k], c).error.Some?
    ensures StoreAll(data, replies, c) == StoreAll(data, replies[..k], c)
    decreases |replies|
  {
    if k < |replies| {
      var init := replies[..|replies| - 1];
      assert init[..k] == replies[..k];
      StoreAllStops(data, init, k, c);
    } else {
      assert replies[..k] == replies;
    }
  }

  /** The writes all succeed exactly when every reply with statistics
      encodes. */
  lemma {:induction false} StoreAllSucceeds(data: map<string, seq<byte>>, replies: seq<PlayerReply>, c: Codec)
    ensures StoreAll(data, replies, c).error.None? <==>
            forall j :: 0 <= j < |replies| && ReplyStats(replies[j].1).Some? ==> Encoded(ReplyStats(replies[j].1).value, c).Ok?
    decreases |replies|
  {
    if replies != [] {
      var init := replies[..|replies| - 1];
      StoreAllSucceeds(data, init, c);
      assert forall j :: 0 <= j < |init| ==> init[j] == replies[j];
    }
  }

  /** After the writes, a player no reply carried statistics for loads as
      before, whatever the encoders do. */
  lemma {:induction false} StoreAllUntouched(data: map<string, seq<byte>>, replies: seq<PlayerReply>, c: Codec, id: nat)
    requires Latest(replies, id).None?
    ensures Load(StoreAll(data, replies, c).data, id, c) == Load(data, id, c)
    decreases |replies|
  {
    if replies != [] {
      var init := replies[..|replies| - 1];
      var last := replies[|replies| - 1];
      StoreAllUntouched(data, init, c, id);
      var prev := StoreAll(data, init, c);
      var s := ReplyStats(last.1);
      if prev.error.None? && s.Some? && Store(prev.data, last.0, s.value, c).Ok? {
        StoreOthers(prev.data, last.0, s.value, c, id);
      }
    }
  }

  /** When every write succeeds and the codecs invert, each player loads
      the statistics of the last reply that carried any for it, and every
      other player loads as before. */
  lemma {:induction false} StoreAllLoad(data: map<string, seq<byte>>, replies: seq<PlayerReply>, c: Codec, id: nat)
    requires Inverse(c) && StoreAll(data, replies, c).error.None?
    ensures Load(StoreAll(data, replies, c).data, id, c) ==
            if Latest(replies, id).Some? then Ok(Latest(replies, id).value) else Load(data, id, c)
    decreases |replies|
  {
    if replies != [] {
      var init := replies[..|replies| - 1];
      var last := replies[|replies| - 1];
      var prev := StoreAll(data, init, c);
      var s := ReplyStats(last.1);
      assert prev.error.None?;
      StoreAllLoad(data, init, c, id);
      if s.Some? {
        if last.0 == id {
          StoreLoad(prev.data, id, s.value, c);
        } else {
          StoreOthers(prev.data, last.0, s.value, c, id);
        }
      }
    }
  }
}
