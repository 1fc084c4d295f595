/** The records exchanged with the statistics API (src/wows_data.rs), reduced
    to the fields the modelled code reads. */
module WowsData {
  import opened Wrappers

  /** Paging metadata of an API reply. */
  datatype ReplyMeta = ReplyMeta(count: Option<nat>, pageTotal: Option<nat>, total: Option<nat>,
                                 limit: Option<nat>, page: Option<nat>)

  datatype MobilityProfile = MobilityProfile(rudderTime: real, total: real, turningRadius: real, maxSpeed: real)

  /** The default profile of a ship. src/wows_data.rs makes all three fields
      mandatory, while src/cheatsheet.rs reads them as optional; the model
      follows the code that reads them. */
  datatype ShipProfile = ShipProfile(mobility: Option<MobilityProfile>,
                                     battleLevelRangeMax: Option<nat>,
                                     battleLevelRangeMin: Option<nat>)

  /** One entry of a ship's module tree. */
  datatype ModuleInfo = ModuleInfo(name: string, isDefault: bool, moduleId: nat, moduleType: string)

  datatype ShipInfo = ShipInfo(
    shipId: nat,
    name: string,
    tier: nat,
    nation: string,
    shipType: string,
    images: map<string, string>,
    modulesTree: map<string, ModuleInfo>,
    defaultProfile: ShipProfile,
    isPremium: bool)

  /** Detailed module information: its declaration is not part of this
      model; only the torpedo range is read. */
  datatype TorpedoProfile = TorpedoProfile(distance: real)
  datatype ModuleProfile = ModuleProfile(torpedoes: Option<TorpedoProfile>)
  datatype DetailedModuleInfo = DetailedModuleInfo(profile: ModuleProfile)

  datatype BatteryStats = BatteryStats(maxFragsBattle: nat, frags: nat, hits: nat, shots: nat)

  /** The per-ship counters of one player (pvp section). */
  datatype DetailedStats = DetailedStats(
    xp: nat,
    battles: nat,
    wins: nat,
    losses: nat,
    draws: nat,
    survivedWins: nat,
    damageDealt: nat,
    frags: nat,
    planesKilled: nat,
    capturePoints: nat,
    shipsSpotted: nat,
    damageScouting: nat,
    mainBattery: BatteryStats,
    secondBattery: BatteryStats,
    torpedoes: BatteryStats,
    ramming: BatteryStats,
    aircraft: BatteryStats)

  datatype DetailedStatTypes = DetailedStatTypes(pvp: DetailedStats, accountId: nat, shipId: nat,
                                                 battles: nat, lastBattleTime: nat)

  datatype PlayerRecord = PlayerRecord(nickname: string, accountId: nat)
}
