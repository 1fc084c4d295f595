/** The cheat sheet of src/cheatsheet.rs: ship classes with their order,
    short codes and API names, and the sheet entry built for one ship from
    its API description, its game parameters and the module map. */
module Cheatsheet {
  import opened Wrappers
  import opened WowsData
  import opened GameParams
  import opened Ships
  import opened Numbers

  // ---------------------------------------------------------------------
  // ShipClass
  // ---------------------------------------------------------------------

  datatype ShipClass = Destroyer | Cruiser | Battleship | AircraftCarrier

  datatype Ordering = Less | Equal | Greater

  /** The position of a class on the sheet: destroyers first, carriers
      last. */
  function Rank(c: ShipClass): nat {
    match c
    case Destroyer => 0
    case Cruiser => 1
    case Battleship => 2
    case AircraftCarrier => 3
  }

  /** `ShipClass::short`: the two-letter code shown on the sheet. */
  function Short(c: ShipClass): (s: string)
    ensures |s| == 2
  {
    match c
    case Destroyer => "DD"
    case Cruiser => "CR"
    case Battleship => "BB"
    case AircraftCarrier => "CV"
  }

  /** The four codes are distinct, so a code names its class. */
  lemma ShortInjective(a: ShipClass, b: ShipClass)
    ensures Short(a) == Short(b) <==> a == b
  {
  }

  /** `partial_cmp`: always defined; `Equal` exactly for equal classes,
      and otherwise the class with the lower rank is the lesser. */
  function PartialCmp(a: ShipClass, b: ShipClass): (r: Option<Ordering>)
    ensures r.Some?
    ensures r.value == Equal <==> a == b
    ensures r.value == Less <==> Rank(a) < Rank(b)
    ensures r.value == Greater <==> Rank(a) > Rank(b)
  {
    if a == b then Some(Equal)
    else
      Some(match (a, b)
           case (Destroyer, _) => Less
           case (Cruiser, Battleship) => Less
           case (Cruiser, AircraftCarrier) => Less
           case (Battleship, AircraftCarrier) => Less
           case _ => Greater)
  }

  /** `cmp`: the `unwrap` of `partial_cmp`, which never fails. */
  function Cmp(a: ShipClass, b: ShipClass): Ordering {
    PartialCmp(a, b).value
  }

  /** `cmp` is antisymmetric: swapping the arguments swaps `Less` and
      `Greater` and keeps `Equal`. */
  lemma CmpAntisymmetric(a: ShipClass, b: ShipClass)
    ensures Cmp(a, b) == Less <==> Cmp(b, a) == Greater
    ensures Cmp(a, b) == Equal <==> Cmp(b, a) == Equal
  {
  }

  /** `cmp` is transitive. */
  lemma CmpTransitive(a: ShipClass, b: ShipClass, c: ShipClass)
    requires Cmp(a, b) == Less && Cmp(b, c) == Less
    ensures Cmp(a, c) == Less
  {
  }

  /** The order is Destroyer < Cruiser < Battleship < AircraftCarrier. */
  lemma CmpChain()
    ensures Cmp(Destroyer, Cruiser) == Less && Cmp(Cruiser, Battleship) == Less
    ensures Cmp(Battleship, AircraftCarrier) == Less
  {
  }

  /** The name the statistics API gives a class. */
  function ApiName(c: ShipClass): string {
    match c
    case Destroyer => "Destroyer"
    case Cruiser => "Cruiser"
    case Battleship => "Battleship"
    case AircraftCarrier => "AirCarrier"
  }

  /** `From<String>`: exactly the four API names are accepted, each for
      the class it names; anything else panics. */
  function FromString(s: string): (r: Outcome<ShipClass>)
    ensures r.Value? <==> s == "Cruiser" || s == "Destroyer" || s == "Battleship" || s == "AirCarrier"
    ensures r.Value? ==> ApiName(r.value) == s
    ensures r.Panic? ==> r.reason == "Unknown ship type " + s
  {
    if s == "Cruiser" then Value(Cruiser)
    else if s == "Destroyer" then Value(Destroyer)
    else if s == "Battleship" then Value(Battleship)
    else if s == "AirCarrier" then Value(AircraftCarrier)
    else Panic("Unknown ship type " + s)
  }

  /** Reading back the API name of a class gives the class. */
  lemma FromApiName(c: ShipClass)
    ensures FromString(ApiName(c)) == Value(c)
  {
  }

  // ---------------------------------------------------------------------
  // Ship::from
  // ---------------------------------------------------------------------

  /** One line of the sheet. */
  datatype Ship = Ship(name: string, id: nat, tier: nat, profileUrl: string, shipClass: ShipClass, speed: real,
                       torpedoes: Option<real>, hydro: Option<real>, radar: Option<real>,
                       minTier: nat, maxTier: nat, nation: string)

  /** Ship detection ranges are divided by this to give kilometres. */
  const RANGE_SCALE: real := 33.333333

  /** The panic of the `expect` on a module id missing from the module
      map. */
  function ModuleMissing(id: nat): string {
    "Couldn't find module " + DecimalString(id) + " specified in ship"
  }
  const NO_CONTOUR: string := "Couldn't find contour image"

  /** The consumable options of every slot, slot after slot. */
  function Options(slots: seq<AbilitySlot>): seq<Ability> {
    if slots == [] then [] else Options(slots[..|slots| - 1]) + slots[|slots| - 1].options
  }

  /** A hydro-acoustic search or radar consumable. */
  predicate IsRangeType(a: Ability) {
    a.consumableType == "sonar" || a.consumableType == "rls"
  }

  /** Every sonar and radar option carries its detection range. */
  predicate Ranged(opts: seq<Ability>) {
    forall i :: 0 <= i < |opts| && IsRangeType(opts[i]) ==> opts[i].distShip.Some?
  }

  /** The scaled range of the last option of consumable type `t`, if any. */
  function LastRange(opts: seq<Ability>, t: string): Option<real>
    requires Ranged(opts) && (t == "sonar" || t == "rls")
  {
    if opts == [] then None
    else
      var last := opts[|opts| - 1];
      if last.consumableType == t then Some(last.distShip.value / RANGE_SCALE)
      else LastRange(opts[..|opts| - 1], t)
  }

  /** `LastRange` is absent exactly when no option has type `t`, and is
      otherwise the scaled range of an option of type `t` that no later
      option of that type follows. */
  lemma {:induction false} LastRangeSpec(opts: seq<Ability>, t: string)
    requires Ranged(opts) && (t == "sonar" || t == "rls")
    ensures LastRange(opts, t).None? <==> forall i :: 0 <= i < |opts| ==> opts[i].consumableType != t
    ensures LastRange(opts, t).Some? ==>
              exists i :: 0 <= i < |opts| && opts[i].consumableType == t &&
                          LastRange(opts, t) == Some(opts[i].distShip.value / RANGE_SCALE) &&
                          forall j :: i < j < |opts| ==> opts[j].consumableType != t
  {
    if opts != [] {
      var n := |opts| - 1;
      var init := opts[..n];
      assert forall i :: 0 <= i < n ==> init[i] == opts[i];
      LastRangeSpec(init, t);
      if opts[n].consumableType == t {
        assert opts[n].consumableType == t && LastRange(opts, t) == Some(opts[n].distShip.value / RANGE_SCALE);
      } else if LastRange(init, t).Some? {
        var i :| 0 <= i < n && init[i].consumableType == t &&
                 LastRange(init, t) == Some(init[i].distShip.value / RANGE_SCALE) &&
                 forall j :: i < j < n ==> init[j].consumableType != t;
        assert opts[i].consumableType == t && LastRange(opts, t) == Some(opts[i].distShip.value / RANGE_SCALE);
      }
    }
  }

  /** The options of the slots before `s` and the first `o` options of
      slot `s` are a prefix of all the options. */
  lemma {:induction false} OptionsPrefix(slots: seq<AbilitySlot>, s: nat, o: nat)
    requires s < |slots| && o <= |slots[s].options|
    ensures Options(slots[..s]) + slots[s].options[..o] <= Options(slots)
    decreases |slots|
  {
    if s < |slots| - 1 {
      var init := slots[..|slots| - 1];
      assert init[..s] == slots[..s] && init[s] == slots[s];
      OptionsPrefix(init, s, o);
    } else {
      assert slots[..|slots| - 1] == slots[..s];
      var opts := slots[s].options;
      assert opts == opts[..o] + opts[o..];
    }
  }

  /** Options of one more slot follow those before it. */
  lemma OptionsStep(slots: seq<AbilitySlot>, s: nat)
    requires s < |slots|
    ensures Options(slots[..s + 1]) == Options(slots[..s]) + slots[s].options[..|slots[s].options|]
  {
    assert slots[..s + 1][..s] == slots[..s];
    assert slots[s].options[..|slots[s].options|] == slots[s].options;
  }

  /** One more option scanned: it stays ranged unless the option is a
      range type without a range, and it becomes the last of its type. */
  lemma ScanStep(done: seq<Ability>, opts: seq<Ability>, o: nat)
    requires o < |opts|
    ensures Ranged(done + opts[..o + 1]) <==>
              Ranged(done + opts[..o]) && (IsRangeType(opts[o]) ==> opts[o].distShip.Some?)
    ensures Ranged(done + opts[..o + 1]) ==>
              LastRange(done + opts[..o + 1], "sonar") ==
                (if opts[o].consumableType == "sonar" then Some(opts[o].distShip.value / RANGE_SCALE)
                 else LastRange(done + opts[..o], "sonar"))
    ensures Ranged(done + opts[..o + 1]) ==>
              LastRange(done + opts[..o + 1], "rls") ==
                (if opts[o].consumableType == "rls" then Some(opts[o].distShip.value / RANGE_SCALE)
                 else LastRange(done + opts[..o], "rls"))
  {
    var before, after := done + opts[..o], done + opts[..o + 1];
    assert after == before + [opts[o]];
    assert after[..|after| - 1] == before;
    assert forall i :: 0 <= i < |before| ==> after[i] == before[i];
    assert after[|before|] == opts[o];
  }

  /** A ranged sequence stays ranged when cut to a prefix. */
  lemma RangedPrefix(small: seq<Ability>, big: seq<Ability>)
    requires small <= big && Ranged(big)
    ensures Ranged(small)
  {
    assert forall i :: 0 <= i < |small| ==> small[i] == big[i];
  }

  /** The module's torpedo range, if it has torpedoes. */
  function TorpedoRange(m: DetailedModuleInfo): Option<real> {
    match m.profile.torpedoes
    case Some(t) => Some(t.distance)
    case None => None
  }

  /** Every module of the tree is in the module map. */
  predicate AllKnown(tree: map<string, ModuleInfo>, modules: map<nat, DetailedModuleInfo>) {
    forall k :: k in tree ==> tree[k].moduleId in modules
  }

  /** `reason` names a module of the tree that the module map lacks;
      which one is met first depends on the tree's iteration order. */
  predicate MissingReason(tree: map<string, ModuleInfo>, modules: map<nat, DetailedModuleInfo>, reason: string) {
    exists k :: k in tree && tree[k].moduleId !in modules && reason == ModuleMissing(tree[k].moduleId)
  }

  /** `r` is the largest torpedo range over the tree entries `keys`, or
      `None` when none of them has torpedoes. */
  predicate IsMaxRange(tree: map<string, ModuleInfo>, modules: map<nat, DetailedModuleInfo>, keys: set<string>,
                       r: Option<real>)
    requires forall k :: k in keys ==> k in tree && tree[k].moduleId in modules
  {
    (r.None? <==> forall k :: k in keys ==> TorpedoRange(modules[tree[k].moduleId]).None?) &&
    (r.Some? ==>
       (exists k :: k in keys && TorpedoRange(modules[tree[k].moduleId]) == r) &&
       forall k :: k in keys && TorpedoRange(modules[tree[k].moduleId]).Some? ==>
                      TorpedoRange(modules[tree[k].moduleId]).value <= r.value)
  }

  /** The largest range is unique. */
  lemma MaxRangeUnique(tree: map<string, ModuleInfo>, modules: map<nat, DetailedModuleInfo>, keys: set<string>,
                       r1: Option<real>, r2: Option<real>)
    requires forall k :: k in keys ==> k in tree && tree[k].moduleId in modules
    requires IsMaxRange(tree, modules, keys, r1) && IsMaxRange(tree, modules, keys, r2)
    ensures r1 == r2
  {
    if r1.Some? {
      var k1 :| k1 in keys && TorpedoRange(modules[tree[k1].moduleId]) == r1;
      var k2 :| k2 in keys && TorpedoRange(modules[tree[k2].moduleId]) == r2;
      assert r1.value <= r2.value && r2.value <= r1.value;
    }
  }

  /** What `Ship::from` yields: it panics on a sonar or radar option
      without a range, then on a module missing from the module map, then
      on a missing contour image, then on an unknown class name; otherwise
      the entry copies the description and holds the last sonar and radar
      ranges and the largest torpedo range. */
  predicate Describes(info: ShipInfo, params: ProcessedShip, modules: map<nat, DetailedModuleInfo>, r: Outcome<Ship>) {
    var opts := Options(params.abilitySlots);
    if !Ranged(opts) then r == Panic(UNWRAP_NONE)
    else if !AllKnown(info.modulesTree, modules) then r.Panic? && MissingReason(info.modulesTree, modules, r.reason)
    else if "contour" !in info.images then r == Panic(NO_CONTOUR)
    else if FromString(info.shipType).Panic? then r == Panic(FromString(info.shipType).reason)
    else
      r.Value? &&
      var ship := r.value;
      ship.name == info.name && ship.id == info.shipId && ship.tier == info.tier &&
      ship.profileUrl == info.images["contour"] && ship.shipClass == FromString(info.shipType).value &&
      ship.speed == (match info.defaultProfile.mobility case Some(m) => m.maxSpeed case None => 0.0) &&
      IsMaxRange(info.modulesTree, modules, info.modulesTree.Keys, ship.torpedoes) &&
      ship.hydro == LastRange(opts, "sonar") && ship.radar == LastRange(opts, "rls") &&
      ship.minTier == (match info.defaultProfile.battleLevelRangeMin case Some(t) => t case None => 0) &&
      ship.maxTier == (match info.defaultProfile.battleLevelRangeMax case Some(t) => t case None => 0) &&
      ship.nation == info.nation
  }

  /** `Describes` fixes the outcome, except which missing module a
      missing-module panic names when the tree lacks several. */
  lemma DescribesUnique(info: ShipInfo, params: ProcessedShip, modules: map<nat, DetailedModuleInfo>,
                        r1: Outcome<Ship>, r2: Outcome<Ship>)
    requires Describes(info, params, modules, r1) && Describes(info, params, modules, r2)
    ensures r1 == r2 || (r1.Panic? && r2.Panic? && !AllKnown(info.modulesTree, modules))
    ensures OneMissing(info.modulesTree, modules) ==> r1 == r2
  {
    var opts := Options(params.abilitySlots);
    if Ranged(opts) && AllKnown(info.modulesTree, modules) && "contour" in info.images && FromString(info.shipType).Value? {
      MaxRangeUnique(info.modulesTree, modules, info.modulesTree.Keys, r1.value.torpedoes, r2.value.torpedoes);
    }
    if Ranged(opts) && !AllKnown(info.modulesTree, modules) && OneMissing(info.modulesTree, modules) {
      var a :| a in info.modulesTree && info.modulesTree[a].moduleId !in modules && r1.reason == ModuleMissing(info.modulesTree[a].moduleId);
      var b :| b in info.modulesTree && info.modulesTree[b].moduleId !in modules && r2.reason == ModuleMissing(info.modulesTree[b].moduleId);
      assert info.modulesTree[a].moduleId == info.modulesTree[b].moduleId;
    }
  }

  /** All tree entries the module map lacks name the same module. */
  predicate OneMissing(tree: map<string, ModuleInfo>, modules: map<nat, DetailedModuleInfo>) {
    forall a, b :: a in tree && b in tree && tree[a].moduleId !in modules && tree[b].moduleId !in modules ==>
      tree[a].moduleId == tree[b].moduleId
  }

  /** Different missing modules give different panics. */
  lemma ModuleMissingInjective(a: nat, b: nat)
    requires ModuleMissing(a) == ModuleMissing(b)
    ensures a == b
  {
    var p := "Couldn't find module ";
    var da, db := DecimalString(a), DecimalString(b);
    assert ModuleMissing(a) == p + da + " specified in ship";
    assert ModuleMissing(b) == p + db + " specified in ship";
    assert da == ModuleMissing(a)[|p|..|p| + |da|] == db;
    DecimalInjective(a, b);
  }

  /** Visiting one more tree entry keeps the largest range: it is
      replaced by the entry's range when that is larger. */
  lemma MaxRangeStep(tree: map<string, ModuleInfo>, modules: map<nat, DetailedModuleInfo>, done: set<string>,
                     k: string, before: Option<real>, after: Option<real>)
    requires forall j :: j in done ==> j in tree && tree[j].moduleId in modules
    requires k in tree && tree[k].moduleId in modules
    requires IsMaxRange(tree, modules, done, before)
    requires var d := TorpedoRange(modules[tree[k].moduleId]);
             after == (match d
                       case None => before
                       case Some(v) => Some(match before case Some(x) => (if x >= v then x else v) case None => v))
    ensures IsMaxRange(tree, modules, done + {k}, after)
  {
    var d := TorpedoRange(modules[tree[k].moduleId]);
    if d.Some? && before.Some? && before.value < d.value {
      forall j | j in done + {k} && TorpedoRange(modules[tree[j].moduleId]).Some?
        ensures TorpedoRange(modules[tree[j].moduleId]).value <= after.value
      {
      }
    }
  }

  /** The first loop of `Ship::from`: the last sonar and radar options,
      slot after slot, in order. */
  method ScanConsumables(slots: seq<AbilitySlot>) returns (r: Outcome<(Option<real>, Option<real>)>)
    ensures !Ranged(Options(slots)) ==> r == Panic(UNWRAP_NONE)
    ensures Ranged(Options(slots)) ==>
              r == Value((LastRange(Options(slots), "sonar"), LastRange(Options(slots), "rls")))
  {
    var hydro: Option<real> := None;
    var radar: Option<real> := None;
    var s := 0;
    while s < |slots|
      invariant s <= |slots|
      invariant Ranged(Options(slots[..s]))
      invariant hydro == LastRange(Options(slots[..s]), "sonar") && radar == LastRange(Options(slots[..s]), "rls")
    {
      ghost var done := Options(slots[..s]);
      var opts := slots[s].options;
      var o := 0;
      assert done + opts[..0] == done;
      while o < |opts|
        invariant o <= |opts|
        invariant Ranged(done + opts[..o])
        invariant hydro == LastRange(done + opts[..o], "sonar") && radar == LastRange(done + opts[..o], "rls")
      {
        ScanStep(done, opts, o);
        var ability := opts[o];
        if ability.consumableType == "sonar" {
          if ability.distShip.None? {
            OptionsPrefix(slots, s, o + 1);
            if Ranged(Options(slots)) {
              RangedPrefix(done + opts[..o + 1], Options(slots));
            }
            return Panic(UNWRAP_NONE);
          }
          hydro := Some(ability.distShip.value / RANGE_SCALE);
        } else if ability.consumableType == "rls" {
          if ability.distShip.None? {
            OptionsPrefix(slots, s, o + 1);
            if Ranged(Options(slots)) {
              RangedPrefix(done + opts[..o + 1], Options(slots));
            }
            return Panic(UNWRAP_NONE);
          }
          radar := Some(ability.distShip.value / RANGE_SCALE);
        }
        o := o + 1;
      }
      OptionsStep(slots, s);
      s := s + 1;
    }
    assert slots[..|slots|] == slots;
    r := Value((hydro, radar));
  }

  /** The second loop of `Ship::from`: the largest torpedo range over the
      modules of the tree, visited in the map's (unspecified) order; a
      module missing from the module map panics. */
  method MaxTorpedoRange(tree: map<string, ModuleInfo>, modules: map<nat, DetailedModuleInfo>)
    returns (r: Outcome<Option<real>>)
    ensures !AllKnown(tree, modules) <==> r.Panic?
    ensures r.Panic? ==> MissingReason(tree, modules, r.reason)
    ensures AllKnown(tree, modules) ==> r.Value? && IsMaxRange(tree, modules, tree.Keys, r.value)
  {
    var torpedoes: Option<real> := None;
    var rest := tree.Keys;
    ghost var done: set<string> := {};
    while rest != {}
      invariant rest <= tree.Keys && done == tree.Keys - rest
      invariant forall k :: k in done ==> tree[k].moduleId in modules
      invariant IsMaxRange(tree, modules, done, torpedoes)
      decreases |rest|
    {
      var k :| k in rest;
      var id := tree[k].moduleId;
      if id !in modules {
        assert !AllKnown(tree, modules) by { assert k in tree && tree[k].moduleId !in modules; }
        return Panic(ModuleMissing(id));
      }
      ghost var previous := torpedoes;
      match modules[id].profile.torpedoes {
        case Some(spec) =>
          torpedoes := Some(match torpedoes case Some(x) => (if x >= spec.distance then x else spec.distance)
                                            case None => spec.distance);
        case None =>
      }
      MaxRangeStep(tree, modules, done, k, previous, torpedoes);
      assert tree.Keys - (rest - {k}) == done + {k};
      rest := rest - {k};
      done := done + {k};
    }
    assert done == tree.Keys;
    r := Value(torpedoes);
  }

  /** `Ship::from`. */
  method ShipFrom(info: ShipInfo, params: ProcessedShip, modules: map<nat, DetailedModuleInfo>) returns (r: Outcome<Ship>)
    ensures Describes(info, params, modules, r)
  {
    var ranges := ScanConsumables(params.abilitySlots);
    if ranges.Panic? {
      return Panic(ranges.reason);
    }
    var torpedoes := MaxTorpedoRange(info.modulesTree, modules);
    if torpedoes.Panic? {
      return Panic(torpedoes.reason);
    }
    if "contour" !in info.images {
      return Panic(NO_CONTOUR);
    }
    var profileUrl := info.images["contour"];
    var shipClass := FromString(info.shipType);
    if shipClass.Panic? {
      return Panic(shipClass.reason);
    }
    var speed := match info.defaultProfile.mobility case Some(m) => m.maxSpeed case None => 0.0;
    var minTier := match info.defaultProfile.battleLevelRangeMin case Some(t) => t case None => 0;
    var maxTier := match info.defaultProfile.battleLevelRangeMax case Some(t) => t case None => 0;
    r := Value(Ship(info.name, info.shipId, info.tier, profileUrl, shipClass.value, speed, torpedoes.value,
                    ranges.value.0, ranges.value.1, minTier, maxTier, info.nation));
  }

  // ---------------------------------------------------------------------
  // CheatsheetDb
  // ---------------------------------------------------------------------

  /** What `get_ship` yields for `id`: a panic when the game parameters
      or the ship description lack it, and otherwise `Ship::from`. */
  predicate Serves(ships: map<nat, ShipInfo>, modules: map<nat, DetailedModuleInfo>, params: Params, id: nat,
                   r: Outcome<Ship>) {
    if id !in params.ships || id !in ships then r == Panic(UNWRAP_NONE)
    else Describes(ships[id], params.ships[id], modules, r)
  }

  /** The sheet's view of the ship database and the game parameters. */
  class CheatsheetDb {
    const shipdb: ShipDb
    const gameparams: Params

    /** `CheatsheetDb::from`. */
    constructor (shipdb: ShipDb, gameparams: Params)
      ensures this.shipdb == shipdb && this.gameparams == gameparams
    {
      this.shipdb := shipdb;
      this.gameparams := gameparams;
    }

    /** `enumerate_ships`: every ship the database knows, once. */
    method EnumerateShips() returns (ids: seq<nat>)
      ensures Distinct(ids)
      ensures forall id :: id in ids <==> id in shipdb.ships
    {
      ids := shipdb.EnumerateShips();
    }

    /** `get_ship`: either `Some` entry or a panic, never `None`. */
    method GetShip(id: nat) returns (r: Outcome<Option<Ship>>)
      ensures r.Panic? ==> Serves(shipdb.ships, shipdb.modules, gameparams, id, Panic(r.reason))
      ensures r.Value? ==> r.value.Some? && Serves(shipdb.ships, shipdb.modules, gameparams, id, Value(r.value.value))
    {
      var param := gameparams.GetShip(id);
      if param.None? {
        return Panic(UNWRAP_NONE);
      }
      var info := shipdb.GetShipInfo(id);
      if info.None? {
        return Panic(UNWRAP_NONE);
      }
      var modules := shipdb.GetModules();
      var ship := ShipFrom(info.value, param.value, modules);
      match ship {
        case Panic(why) =>
          r := Panic(why);
        case Value(s) =>
          r := Value(Some(s));
      }
    }
  }
}
