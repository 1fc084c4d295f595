/** The `Database` of src/database.rs: the state the web server reads
    (ships, aggregate histograms, nickname lookup, per-player store) and the
    updates that replace it. */
module Database {
  import opened Wrappers
  import opened Errors
  import opened Numbers
  import opened WowsData
  import opened Statistics
  import opened PlayerList
  import opened StatsStore

  /** The in-memory state of the web server: ships, aggregate histograms,
      the nickname lookup, and the per-player store. */
  class Db {
    var ships: map<nat, ShipInfo>
    var stats: map<nat, ShipStatsHistogram>
    var playerList: map<string, nat>
    var playerData: map<string, seq<byte>>

    /** `Database::new`, given the decoded ship and player files, the
        aggregate computed from the record file, and the opened store. */
    constructor (ships: map<nat, ShipInfo>, players: seq<PlayerRecord>, stats: map<nat, ShipStatsHistogram>,
                 playerData: map<string, seq<byte>>)
      ensures this.ships == ships && this.stats == stats && this.playerData == playerData
      ensures playerList == LookupOf(players)
    {
      this.ships := ships;
      this.stats := stats;
      this.playerData := playerData;
      var lookup := BuildLookup(players);
      playerList := lookup;
    }

    /** `get_user`: the account id stored under `username`, which is
        looked up as given. */
    function GetUser(username: string): (r: Option<nat>)
      reads this
      ensures r.Some? <==> username in playerList
      ensures r.Some? ==> r.value == playerList[username]
    {
      if username in playerList then Some(playerList[username]) else None
    }

    /** `get_ship_stats`: the ship's description and histograms, when both
        are known. */
    function GetShipStats(id: nat): (r: Option<(ShipInfo, ShipStatsHistogram)>)
      reads this
      ensures r.Some? <==> id in ships && id in stats
      ensures r.Some? ==> r.value.0 == ships[id] && r.value.1 == stats[id]
    {
      match (if id in ships then Some(ships[id]) else None, if id in stats then Some(stats[id]) else None)
      case (Some(a), Some(b)) => Some((a, b))
      case _ => None
    }

    function GetDetailedStats(id: nat, c: Codec): Result<seq<DetailedStatTypes>, Error>
      reads this
    {
      Load(playerData, id, c)
    }

    /** `update_detailed_stats`: on success the player's stats read back
        unchanged and every other player's entry is as before; on an
        encoder error nothing is stored. */
    method UpdateDetailedStats(id: nat, s: seq<DetailedStatTypes>, c: Codec) returns (r: Result<(), Error>)
      modifies this
      ensures ships == old(ships) && stats == old(stats) && playerList == old(playerList)
      ensures r.Ok? <==> Encoded(s, c).Ok?
      ensures r.Ok? ==> playerData == old(playerData)[StatsKey(id) := Encoded(s, c).value]
      ensures r.Err? ==> playerData == old(playerData) && r.error == Encoded(s, c).error
      ensures r.Ok? && Inverse(c) ==> GetDetailedStats(id, c) == Ok(s)
      ensures r.Ok? ==> forall other :: other != id ==> GetDetailedStats(other, c) == old(GetDetailedStats(other, c))
    {
      var body := Encoded(s, c);
      if body.Err? {
        return Err(body.error);
      }
      if Inverse(c) {
        StoreLoad(playerData, id, s, c);
      }
      forall other | other != id
        ensures Load(playerData[StatsKey(id) := body.value], other, c) == Load(playerData, other, c)
      {
        StoreOthers(playerData, id, s, c, other);
      }
      playerData := playerData[StatsKey(id) := body.value];
      r := Ok(());
    }

    /** `update` after the player list is refreshed: merge the fetched
        lookup into the known one; store the statistics of each detailed
        reply, in completion order, as `fetch_player_data` does, returning
        the first encoder error; then install the merged list, the new
        aggregate and the new ships together. Any error leaves those three
        as they were, while the statistics stored before it stay. */
    method Update(fetched: map<string, nat>, order: seq<string>, replies: seq<PlayerReply>, c: Codec,
                  aggregate: Result<map<nat, ShipStatsHistogram>, Error>, newShips: Result<map<nat, ShipInfo>, Error>)
      returns (r: Result<nat, Error>)
      requires forall i, j :: 0 <= i < j < |order| ==> order[i] != order[j]
      requires forall k :: k in fetched <==> k in order
      modifies this
      ensures playerData == StoreAll(old(playerData), replies, c).data
      ensures r.Ok? <==> StoreAll(old(playerData), replies, c).error.None? && aggregate.Ok? && newShips.Ok?
      ensures StoreAll(old(playerData), replies, c).error.Some? ==> r == Err(StoreAll(old(playerData), replies, c).error.value)
      ensures StoreAll(old(playerData), replies, c).error.None? && aggregate.Err? ==> r == Err(aggregate.error)
      ensures StoreAll(old(playerData), replies, c).error.None? && aggregate.Ok? && newShips.Err? ==> r == Err(newShips.error)
      ensures r.Ok? ==> playerList == fetched + old(playerList) && stats == aggregate.value && ships == newShips.value
      ensures r.Ok? ==> r.value == NewOf(old(playerList), fetched, order)
      ensures r.Err? ==> ships == old(ships) && stats == old(stats) && playerList == old(playerList)
    {
      var merged, numNew := MergePlayers(playerList, fetched, order);
      var i := 0;
      while i < |replies|
        invariant 0 <= i <= |replies|
        invariant StoreAll(old(playerData), replies[..i], c).error.None?
        invariant playerData == StoreAll(old(playerData), replies[..i], c).data
        invariant ships == old(ships) && stats == old(stats) && playerList == old(playerList)
      {
        assert replies[..i + 1][..i] == replies[..i];
        var s := ReplyStats(replies[i].1);
        if s.Some? {
          var stored := UpdateDetailedStats(replies[i].0, s.value, c);
          if stored.Err? {
            StoreAllStops(old(playerData), replies, i + 1, c);
            return Err(stored.error);
          }
        }
        i := i + 1;
      }
      assert replies[..i] == replies;
      if aggregate.Err? {
        return Err(aggregate.error);
      }
      if newShips.Err? {
        return Err(newShips.error);
      }
      playerList := merged;
      stats := aggregate.value;
      ships := newShips.value;
      r := Ok(numNew);
    }
  }
}
