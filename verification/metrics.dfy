/** The fixed list of scalar metrics a per-ship statistics record is
    flattened into: eight whole-ship metrics, `xp`, and four fields for each of
    the four weapon batteries. */
module Metrics {

  datatype Battery = MainBattery | SecondaryBattery | TorpedoBattery | RammingBattery

  datatype BatteryField = Frags | Hits | Hitrate | Shots

  datatype Metric =
    | Xp
    | BatteryMetric(battery: Battery, field: BatteryField)
    | Winrate
    | WinSurvivalRate
    | DamageDealt
    | Kills
    | PlanesKilled
    | PointsCaptured
    | Spotted
    | DamageOnSpotting
}
