/** The game-parameter table of src/gameparams.rs: ships with their
    consumable slots resolved against the ability entries. The JSON text
    is taken as already parsed into a tree; turning a JSON value into a
    record (serde) is a decoder passed as a parameter. */
module GameParams {
  import opened Wrappers
  import opened Errors

  /** A parsed JSON value: an object, with its members in iteration
      order, or any other value. */
  datatype Json = Object(members: seq<(string, Json)>) | NonObject

  /** The member `key` of an object, if present (object keys are
      distinct, so the first match is the only one). */
  function Get(members: seq<(string, Json)>, key: string): (r: Option<Json>)
    ensures r.Some? <==> exists i :: 0 <= i < |members| && members[i].0 == key
  {
    if members == [] then None
    else if members[0].0 == key then Some(members[0].1)
    else
      var r := Get(members[1..], key);
      assert forall i :: 1 <= i < |members| ==> members[i] == members[1..][i - 1];
      r
  }

  datatype Ability = Ability(consumableType: string, distShip: Option<real>, distTorpedo: Option<real>,
                             group: string, numConsumables: int, reloadTime: real, workTime: real)

  /** One slot of a ship's consumables: each option names an ability entry
      and a field of it. */
  datatype ShipAbility = ShipAbility(abils: seq<seq<string>>, slot: nat)

  /** A `Ship` entry as decoded; `abilities` keeps the slot map's
      iteration order. */
  datatype RawShip = RawShip(id: nat, name: string, level: nat, abilities: Option<seq<(string, ShipAbility)>>)

  datatype TypeInfo = TypeInfo(nation: Option<string>, species: Option<string>, objectType: string)

  datatype AbilitySlot = AbilitySlot(options: seq<Ability>)

  datatype ProcessedShip = ProcessedShip(id: nat, name: string, level: nat, abilitySlots: seq<AbilitySlot>)

  /** The serde decoders for the three record kinds. */
  datatype Decoders = Decoders(typeInfo: Json -> Result<TypeInfo, Error>,
                               ability: Json -> Result<Ability, Error>,
                               ship: Json -> Result<RawShip, Error>)

  /** Ability entry name, then field name, to the decoded ability. */
  type AbilityTable = map<string, map<string, Ability>>

  const INDEX_PANIC: string := "index out of bounds"
  const NO_TYPEINFO: string := "Couldn't find typeinfo"

  // ---------------------------------------------------------------------
  // ProcessedShip::from
  // ---------------------------------------------------------------------

  /** An option whose ability entry and field both exist. */
  predicate Defined(raw: seq<string>, table: AbilityTable) {
    |raw| >= 2 && raw[0] in table && raw[1] in table[raw[0]]
  }

  /** The ability a defined option names. */
  function Named(raw: seq<string>, table: AbilityTable): Ability
    requires Defined(raw, table)
  {
    table[raw[0]][raw[1]]
  }

  /** An option that makes `raw_abil[0]` or `raw_abil[1]` index out of
      bounds; `[1]` is only read once `[0]` names an ability entry. */
  predicate Malformed(raw: seq<string>, table: AbilityTable) {
    |raw| == 0 || (raw[0] in table && |raw| < 2)
  }

  /** The `filter_map` closure: the ability an option names, or nothing
      when its entry or its field is missing. */
  function Resolve(raw: seq<string>, table: AbilityTable): (r: Outcome<Option<Ability>>)
    ensures r.Panic? <==> Malformed(raw, table)
    ensures r.Value? ==> (r.value.Some? <==> Defined(raw, table))
    ensures Defined(raw, table) ==> r == Value(Some(table[raw[0]][raw[1]]))
  {
    if |raw| == 0 then Panic(INDEX_PANIC)
    else if raw[0] !in table then Value(None)
    else if |raw| < 2 then Panic(INDEX_PANIC)
    else if raw[1] !in table[raw[0]] then Value(None)
    else Value(Some(table[raw[0]][raw[1]]))
  }

  /** The options of one slot: the defined ones, in order; the first
      malformed option panics. */
  function SlotOptions(abils: seq<seq<string>>, table: AbilityTable): (r: Outcome<seq<Ability>>)
    ensures r.Value? ==> |r.value| <= |abils|
  {
    if abils == [] then Value([])
    else
      match Resolve(abils[0], table)
      case Panic(why) => Panic(why)
      case Value(a) =>
        match SlotOptions(abils[1..], table)
        case Panic(why) => Panic(why)
        case Value(rest) => Value((if a.Some? then [a.value] else []) + rest)
  }

  /** A slot panics exactly when one of its options is malformed. */
  lemma {:induction false} SlotOptionsPanics(abils: seq<seq<string>>, table: AbilityTable)
    ensures SlotOptions(abils, table).Panic? <==> exists i :: 0 <= i < |abils| && Malformed(abils[i], table)
  {
    if abils != [] {
      SlotOptionsPanics(abils[1..], table);
      if exists i :: 0 <= i < |abils| && Malformed(abils[i], table) {
        var i :| 0 <= i < |abils| && Malformed(abils[i], table);
        if i > 0 {
          assert abils[1..][i - 1] == abils[i];
        }
      }
      if exists i :: 0 <= i < |abils[1..]| && Malformed(abils[1..][i], table) {
        var i :| 0 <= i < |abils[1..]| && Malformed(abils[1..][i], table);
        assert abils[i + 1] == abils[1..][i];
      }
    }
  }

  /** When every option is defined, the slot holds each named ability, in
      order. */
  lemma {:induction false} SlotOptionsAllDefined(abils: seq<seq<string>>, table: AbilityTable)
    requires forall i :: 0 <= i < |abils| ==> Defined(abils[i], table)
    ensures SlotOptions(abils, table).Value?
    ensures var opts := SlotOptions(abils, table).value;
            |opts| == |abils| && forall i :: 0 <= i < |abils| ==> opts[i] == Named(abils[i], table)
  {
    if abils != [] {
      assert forall i :: 0 <= i < |abils[1..]| ==> abils[1..][i] == abils[i + 1];
      SlotOptionsAllDefined(abils[1..], table);
    }
  }

  /** Options naming missing entries or fields are dropped silently. */
  lemma {:induction false} SlotOptionsNoneDefined(abils: seq<seq<string>>, table: AbilityTable)
    requires forall i :: 0 <= i < |abils| ==> !Defined(abils[i], table) && !Malformed(abils[i], table)
    ensures SlotOptions(abils, table) == Value([])
  {
    if abils != [] {
      assert forall i :: 0 <= i < |abils[1..]| ==> abils[1..][i] == abils[i + 1];
      SlotOptionsNoneDefined(abils[1..], table);
    }
  }

  /** The positions, from `from` on, of the options that name a defined
      ability, in increasing order. */
  function DefinedIndices(abils: seq<seq<string>>, table: AbilityTable, from: nat): seq<nat>
    requires from <= |abils|
    decreases |abils| - from
  {
    if from == |abils| then []
    else (if Defined(abils[from], table) then [from] else []) + DefinedIndices(abils, table, from + 1)
  }

  /** `DefinedIndices` lists only defined positions from `from` on. */
  lemma {:induction false} DefinedIndicesIn(abils: seq<seq<string>>, table: AbilityTable, from: nat)
    requires from <= |abils|
    ensures forall k :: 0 <= k < |DefinedIndices(abils, table, from)| ==>
              from <= DefinedIndices(abils, table, from)[k] < |abils| &&
              Defined(abils[DefinedIndices(abils, table, from)[k]], table)
    decreases |abils| - from
  {
    if from < |abils| {
      DefinedIndicesIn(abils, table, from + 1);
    }
  }

  /** `DefinedIndices` is strictly increasing. */
  lemma {:induction false} DefinedIndicesSorted(abils: seq<seq<string>>, table: AbilityTable, from: nat)
    requires from <= |abils|
    ensures forall k, l :: 0 <= k < l < |DefinedIndices(abils, table, from)| ==>
              DefinedIndices(abils, table, from)[k] < DefinedIndices(abils, table, from)[l]
    decreases |abils| - from
  {
    if from < |abils| {
      DefinedIndicesSorted(abils, table, from + 1);
      DefinedIndicesIn(abils, table, from + 1);
    }
  }

  /** `DefinedIndices` lists every defined position from `from` on. */
  lemma {:induction false} DefinedIndicesCover(abils: seq<seq<string>>, table: AbilityTable, from: nat)
    requires from <= |abils|
    ensures forall i :: from <= i < |abils| && Defined(abils[i], table) ==> i in DefinedIndices(abils, table, from)
    decreases |abils| - from
  {
    if from < |abils| {
      DefinedIndicesCover(abils, table, from + 1);
    }
  }

  lemma {:induction false} SlotOptionsFrom(abils: seq<seq<string>>, table: AbilityTable, from: nat)
    requires from <= |abils|
    requires forall i :: from <= i < |abils| ==> !Malformed(abils[i], table)
    ensures SlotOptions(abils[from..], table).Value?
    ensures var idx := DefinedIndices(abils, table, from);
            var opts := SlotOptions(abils[from..], table).value;
            |opts| == |idx| &&
            forall k :: 0 <= k < |idx| ==> idx[k] < |abils| && Defined(abils[idx[k]], table) &&
                                           opts[k] == Named(abils[idx[k]], table)
    decreases |abils| - from
  {
    if from < |abils| {
      assert abils[from..][1..] == abils[from + 1..];
      assert abils[from..][0] == abils[from];
      SlotOptionsFrom(abils, table, from + 1);
      DefinedIndicesIn(abils, table, from + 1);
      var rest := SlotOptions(abils[from + 1..], table).value;
      var idxRest := DefinedIndices(abils, table, from + 1);
      if Defined(abils[from], table) {
        assert SlotOptions(abils[from..], table) == Value([Named(abils[from], table)] + rest);
        assert DefinedIndices(abils, table, from) == [from] + idxRest;
      } else {
        assert SlotOptions(abils[from..], table) == Value([] + rest);
        assert DefinedIndices(abils, table, from) == [] + idxRest;
      }
    }
  }

  /** A slot without malformed options holds exactly the abilities its
      defined options name, in option order: the options at the defined
      positions, each once, in increasing order, and no other. */
  lemma SlotOptionsFilter(abils: seq<seq<string>>, table: AbilityTable)
    requires forall i :: 0 <= i < |abils| ==> !Malformed(abils[i], table)
    ensures SlotOptions(abils, table).Value?
    ensures var idx := DefinedIndices(abils, table, 0);
            var opts := SlotOptions(abils, table).value;
            |opts| == |idx| &&
            (forall k :: 0 <= k < |idx| ==>
               idx[k] < |abils| && Defined(abils[idx[k]], table) && opts[k] == Named(abils[idx[k]], table)) &&
            (forall k, l :: 0 <= k < l < |idx| ==> idx[k] < idx[l]) &&
            (forall i :: 0 <= i < |abils| && Defined(abils[i], table) ==> i in idx)
  {
    assert abils[0..] == abils;
    SlotOptionsFrom(abils, table, 0);
    DefinedIndicesSorted(abils, table, 0);
    DefinedIndicesCover(abils, table, 0);
  }

  /** One slot per entry of the ship's slot map, in its order. */
  function Slots(entries: seq<(string, ShipAbility)>, table: AbilityTable): (r: Outcome<seq<AbilitySlot>>)
    ensures r.Value? ==> |r.value| == |entries|
    ensures r.Value? ==> forall i :: 0 <= i < |entries| ==> SlotOptions(entries[i].1.abils, table) == Value(r.value[i].options)
  {
    if entries == [] then Value([])
    else
      match SlotOptions(entries[0].1.abils, table)
      case Panic(why) => Panic(why)
      case Value(options) =>
        match Slots(entries[1..], table)
        case Panic(why) => Panic(why)
        case Value(rest) =>
          assert forall i :: 1 <= i < |entries| ==> entries[i] == entries[1..][i - 1];
          Value([AbilitySlot(options)] + rest)
  }

  /** `ProcessedShip::from`: id, name and level are copied, and the slots
      are resolved; a ship without slots gets none. */
  function Process(ship: RawShip, table: AbilityTable): (r: Outcome<ProcessedShip>)
    ensures r.Value? ==> r.value.id == ship.id && r.value.name == ship.name && r.value.level == ship.level
    ensures ship.abilities.None? ==> r == Value(ProcessedShip(ship.id, ship.name, ship.level, []))
    ensures ship.abilities.Some? ==> (r.Value? <==> Slots(ship.abilities.value, table).Value?)
    ensures ship.abilities.Some? && r.Value? ==> |r.value.abilitySlots| == |ship.abilities.value|
  {
    match ship.abilities
    case None => Value(ProcessedShip(ship.id, ship.name, ship.level, []))
    case Some(entries) =>
      match Slots(entries, table)
      case Panic(why) => Panic(why)
      case Value(slots) => Value(ProcessedShip(ship.id, ship.name, ship.level, slots))
  }

  // ---------------------------------------------------------------------
  // GameParams::load
  // ---------------------------------------------------------------------

  /** The `typeinfo` of one top-level entry: a non-object entry or one
      without `typeinfo` panics; a `typeinfo` that does not decode is an
      error. */
  function TypeOf(entry: Json, dec: Decoders): (r: Outcome<Result<TypeInfo, Error>>)
    ensures r.Value? ==> entry.Object?
  {
    match entry
    case NonObject => Panic(UNWRAP_NONE)
    case Object(members) =>
      match Get(members, "typeinfo")
      case None => Panic(NO_TYPEINFO)
      case Some(ti) => Value(dec.typeInfo(ti))
  }

  /** The type names of `entries`, in order, as the first loop of `load`
      reads them; the first failure stops it. */
  function Types(entries: seq<(string, Json)>, dec: Decoders): (r: Outcome<Result<seq<string>, Error>>)
    ensures r.Value? && r.value.Ok? ==> |r.value.value| == |entries|
  {
    if entries == [] then Value(Ok([]))
    else
      match Types(entries[..|entries| - 1], dec)
      case Panic(why) => Panic(why)
      case Value(Err(e)) => Value(Err(e))
      case Value(Ok(ts)) =>
        match TypeOf(entries[|entries| - 1].1, dec)
        case Panic(why) => Panic(why)
        case Value(Err(e)) => Value(Err(e))
        case Value(Ok(ti)) => Value(Ok(ts + [ti.objectType]))
  }

  /** Once the first loop succeeds, every entry's `typeinfo` decodes to
      the type recorded for it, so the later loops cannot fail on it. */
  lemma {:induction false} TypesOk(entries: seq<(string, Json)>, dec: Decoders, i: nat)
    requires Types(entries, dec).Value? && Types(entries, dec).value.Ok? && i < |entries|
    ensures TypeOf(entries[i].1, dec).Value? && TypeOf(entries[i].1, dec).value.Ok?
    ensures TypeOf(entries[i].1, dec).value.value.objectType == Types(entries, dec).value.value[i]
  {
    var init := entries[..|entries| - 1];
    if i < |entries| - 1 {
      assert init[i] == entries[i];
      TypesOk(init, dec, i);
    }
  }

  /** A failure of the first loop ends `load` with that failure. */
  function Failed<T, U>(r: Outcome<Result<T, Error>>): Outcome<Result<U, Error>>
    requires !(r.Value? && r.value.Ok?)
  {
    match r
    case Panic(why) => Panic(why)
    case Value(Err(e)) => Value(Err(e))
  }

  function Occurrences(ts: seq<string>, t: string): nat {
    if ts == [] then 0 else Occurrences(ts[..|ts| - 1], t) + (if ts[|ts| - 1] == t then 1 else 0)
  }

  /** `type_counts` counts every type name: present exactly for the names
      that occur, with their number of occurrences. */
  ghost predicate CountsOf(counts: map<string, nat>, ts: seq<string>) {
    forall t :: (t in counts <==> t in ts) && (t in counts ==> counts[t] == Occurrences(ts, t))
  }

  lemma OccursIff(ts: seq<string>, t: string)
    ensures Occurrences(ts, t) > 0 <==> t in ts
  {
    if ts != [] {
      OccursIff(ts[..|ts| - 1], t);
      assert ts == ts[..|ts| - 1] + [ts[|ts| - 1]];
    }
  }

  /** The first loop of `load`: the number of entries of each type. */
  method CountTypes(entries: seq<(string, Json)>, dec: Decoders) returns (r: Outcome<Result<map<string, nat>, Error>>)
    ensures Types(entries, dec).Value? && Types(entries, dec).value.Ok? ==>
              r.Value? && r.value.Ok? && CountsOf(r.value.value, Types(entries, dec).value.value)
    ensures !(Types(entries, dec).Value? && Types(entries, dec).value.Ok?) ==> r == Failed(Types(entries, dec))
  {
    var counts: map<string, nat> := map[];
    var i := 0;
    ghost var ts: seq<string> := [];
    while i < |entries|
      invariant i <= |entries|
      invariant Types(entries[..i], dec) == Value(Ok(ts))
      invariant CountsOf(counts, ts)
    {
      assert entries[..i + 1][..i] == entries[..i];
      match TypeOf(entries[i].1, dec) {
        case Panic(why) =>
          TypesStop(entries, i, dec);
          return Panic(why);
        case Value(Err(e)) =>
          TypesStop(entries, i, dec);
          return Value(Err(e));
        case Value(Ok(ti)) =>
          var t := ti.objectType;
          if t !in counts {
            counts := counts[t := 0];
          }
          counts := counts[t := counts[t] + 1];
          forall u ensures (u in counts <==> u in ts + [t]) && (u in counts ==> counts[u] == Occurrences(ts + [t], u)) {
            assert (ts + [t])[..|ts|] == ts;
            OccursIff(ts, u);
          }
          ts := ts + [t];
      }
      i := i + 1;
    }
    assert entries[..|entries|] == entries;
    r := Value(Ok(counts));
  }

  /** The first entry whose `typeinfo` fails decides how the whole loop
      fails. */
  lemma {:induction false} TypesStop(entries: seq<(string, Json)>, i: nat, dec: Decoders)
    requires i < |entries|
    requires Types(entries[..i], dec).Value? && Types(entries[..i], dec).value.Ok?
    requires !(TypeOf(entries[i].1, dec).Value? && TypeOf(entries[i].1, dec).value.Ok?)
    ensures Types(entries, dec) == Failed(TypeOf(entries[i].1, dec))
  {
    var init := entries[..|entries| - 1];
    if i < |entries| - 1 {
      assert init[..i] == entries[..i] && init[i] == entries[i];
      TypesStop(init, i, dec);
    } else {
      assert init == entries[..i];
    }
  }

  /** The fields of one `Ability` entry that decode as an ability; the
      others are dropped. */
  function Fields(members: seq<(string, Json)>, dec: Decoders): map<string, Ability> {
    if members == [] then map[]
    else
      var last := members[|members| - 1];
      var m := Fields(members[..|members| - 1], dec);
      match dec.ability(last.1)
      case Ok(a) => m[last.0 := a]
      case Err(_) => m
  }

  lemma {:induction false} FieldsKeys(members: seq<(string, Json)>, dec: Decoders, f: string)
    ensures f in Fields(members, dec) <==> exists i :: 0 <= i < |members| && members[i].0 == f && dec.ability(members[i].1).Ok?
  {
    if members != [] {
      var init := members[..|members| - 1];
      FieldsKeys(init, dec, f);
      if exists i :: 0 <= i < |init| && init[i].0 == f && dec.ability(init[i].1).Ok? {
        var i :| 0 <= i < |init| && init[i].0 == f && dec.ability(init[i].1).Ok?;
        assert members[i] == init[i];
      }
      if exists i :: 0 <= i < |members| && members[i].0 == f && dec.ability(members[i].1).Ok? {
        var i :| 0 <= i < |members| && members[i].0 == f && dec.ability(members[i].1).Ok?;
        if i < |init| {
          assert init[i] == members[i];
        }
      }
    }
  }

  /** The ability table built by the second loop of `load` over entries of
      the given types. */
  function AbilityTableOf(entries: seq<(string, Json)>, ts: seq<string>, dec: Decoders): AbilityTable
    requires |ts| == |entries|
    requires forall i :: 0 <= i < |entries| ==> entries[i].1.Object?
  {
    if entries == [] then map[]
    else
      var n := |entries| - 1;
      var m := AbilityTableOf(entries[..n], ts[..n], dec);
      if ts[n] == "Ability" then m[entries[n].0 := Fields(entries[n].1.members, dec)] else m
  }

  /** Only `Ability` entries enter the table, keyed by their entry key. */
  lemma {:induction false} AbilityKeys(entries: seq<(string, Json)>, ts: seq<string>, dec: Decoders, k: string)
    requires |ts| == |entries|
    requires forall i :: 0 <= i < |entries| ==> entries[i].1.Object?
    ensures k in AbilityTableOf(entries, ts, dec) <==> exists i :: 0 <= i < |entries| && entries[i].0 == k && ts[i] == "Ability"
  {
    if entries != [] {
      var n := |entries| - 1;
      var init, tsInit := entries[..n], ts[..n];
      AbilityKeys(init, tsInit, dec, k);
      if exists i :: 0 <= i < n && init[i].0 == k && tsInit[i] == "Ability" {
        var i :| 0 <= i < n && init[i].0 == k && tsInit[i] == "Ability";
        assert entries[i] == init[i] && ts[i] == tsInit[i];
      }
      if exists i :: 0 <= i < |entries| && entries[i].0 == k && ts[i] == "Ability" {
        var i :| 0 <= i < |entries| && entries[i].0 == k && ts[i] == "Ability";
        if i < n {
          assert init[i] == entries[i] && tsInit[i] == ts[i];
        }
      }
    }
  }

  /** The ship map built by the third loop of `load`: each `Ship` entry is
      decoded (an error ends `load`) and processed (which may panic), and
      inserted under its id, a later one replacing an earlier. */
  function ShipsFrom(entries: seq<(string, Json)>, ts: seq<string>, table: AbilityTable, dec: Decoders)
    : (r: Outcome<Result<map<nat, ProcessedShip>, Error>>)
    requires |ts| == |entries|
    ensures r.Value? && r.value.Ok? ==> forall id :: id in r.value.value ==> r.value.value[id].id == id
  {
    if entries == [] then Value(Ok(map[]))
    else
      var n := |entries| - 1;
      match ShipsFrom(entries[..n], ts[..n], table, dec)
      case Panic(why) => Panic(why)
      case Value(Err(e)) => Value(Err(e))
      case Value(Ok(m)) => ShipStep(m, entries[n].1, ts[n], table, dec)
  }

  /** One iteration of the third loop over an entry of type `t`. */
  function ShipStep(m: map<nat, ProcessedShip>, entry: Json, t: string, table: AbilityTable, dec: Decoders)
    : (r: Outcome<Result<map<nat, ProcessedShip>, Error>>)
    requires forall id :: id in m ==> m[id].id == id
    ensures r.Value? && r.value.Ok? ==> forall id :: id in r.value.value ==> r.value.value[id].id == id
    ensures t != "Ship" ==> r == Value(Ok(m))
  {
    if t != "Ship" then Value(Ok(m))
    else
      match dec.ship(entry)
      case Err(e) => Value(Err(e))
      case Ok(raw) =>
        match Process(raw, table)
        case Panic(why) => Panic(why)
        case Value(p) => Value(Ok(m[p.id := p]))
  }

  /** The third loop's state after entry `i` is its step from the state
      before. */
  lemma ShipsFromStep(entries: seq<(string, Json)>, ts: seq<string>, table: AbilityTable, dec: Decoders,
                      i: nat, m: map<nat, ProcessedShip>)
    requires |ts| == |entries| && i < |entries|
    requires ShipsFrom(entries[..i], ts[..i], table, dec) == Value(Ok(m))
    ensures ShipsFrom(entries[..i + 1], ts[..i + 1], table, dec) == ShipStep(m, entries[i].1, ts[i], table, dec)
  {
    assert entries[..i + 1][..i] == entries[..i] && ts[..i + 1][..i] == ts[..i];
  }

  /** Every ship in the map comes from a `Ship` entry that decodes to a
      ship of that id. */
  lemma {:induction false} ShipsFromShipEntries(entries: seq<(string, Json)>, ts: seq<string>, table: AbilityTable,
                                                dec: Decoders, id: nat)
    requires |ts| == |entries|
    requires ShipsFrom(entries, ts, table, dec).Value? && ShipsFrom(entries, ts, table, dec).value.Ok?
    requires id in ShipsFrom(entries, ts, table, dec).value.value
    ensures exists i :: 0 <= i < |entries| && ts[i] == "Ship" && dec.ship(entries[i].1).Ok? && dec.ship(entries[i].1).value.id == id
  {
    var n := |entries| - 1;
    var init, tsInit := entries[..n], ts[..n];
    var m := ShipsFrom(init, tsInit, table, dec).value.value;
    if id in m {
      ShipsFromShipEntries(init, tsInit, table, dec, id);
      var i :| 0 <= i < n && tsInit[i] == "Ship" && dec.ship(init[i].1).Ok? && dec.ship(init[i].1).value.id == id;
      assert entries[i] == init[i] && ts[i] == tsInit[i];
    } else {
      assert ts[n] == "Ship" && dec.ship(entries[n].1).Ok? && dec.ship(entries[n].1).value.id == id;
    }
  }

  /** A `Ship` entry whose id no later ship shares is the one kept. */
  lemma {:induction false} ShipsFromLastWins(entries: seq<(string, Json)>, ts: seq<string>, table: AbilityTable,
                                             dec: Decoders, i: nat)
    requires |ts| == |entries| && i < |entries|
    requires ShipsFrom(entries, ts, table, dec).Value? && ShipsFrom(entries, ts, table, dec).value.Ok?
    requires ts[i] == "Ship" && dec.ship(entries[i].1).Ok?
    requires forall j :: i < j < |entries| && ts[j] == "Ship" && dec.ship(entries[j].1).Ok? ==>
               dec.ship(entries[j].1).value.id != dec.ship(entries[i].1).value.id
    ensures var raw := dec.ship(entries[i].1).value;
            Process(raw, table).Value? && raw.id in ShipsFrom(entries, ts, table, dec).value.value &&
            ShipsFrom(entries, ts, table, dec).value.value[raw.id] == Process(raw, table).value
  {
    var n := |entries| - 1;
    var init, tsInit := entries[..n], ts[..n];
    if i < n {
      assert init[i] == entries[i] && tsInit[i] == ts[i];
      forall j | i < j < |init| && tsInit[j] == "Ship" && dec.ship(init[j].1).Ok?
        ensures dec.ship(init[j].1).value.id != dec.ship(init[i].1).value.id
      {
        assert init[j] == entries[j] && tsInit[j] == ts[j];
      }
      ShipsFromLastWins(init, tsInit, table, dec, i);
    }
  }

  /** Once a prefix of the entries fails, the whole loop fails the same
      way. */
  lemma {:induction false} ShipsFromStops(entries: seq<(string, Json)>, ts: seq<string>, table: AbilityTable,
                                          dec: Decoders, k: nat)
    requires |ts| == |entries| && k <= |entries|
    requires !(ShipsFrom(entries[..k], ts[..k], table, dec).Value? && ShipsFrom(entries[..k], ts[..k], table, dec).value.Ok?)
    ensures ShipsFrom(entries, ts, table, dec) == ShipsFrom(entries[..k], ts[..k], table, dec)
    decreases |entries|
  {
    if k < |entries| {
      var n := |entries| - 1;
      assert entries[..n][..k] == entries[..k] && ts[..n][..k] == ts[..k];
      ShipsFromStops(entries[..n], ts[..n], table, dec, k);
    } else {
      assert entries[..k] == entries && ts[..k] == ts;
    }
  }

  /** Every entry of a table whose first loop succeeded is an object. */
  lemma TypesObjects(entries: seq<(string, Json)>, dec: Decoders)
    requires Types(entries, dec).Value? && Types(entries, dec).value.Ok?
    ensures forall i :: 0 <= i < |entries| ==> entries[i].1.Object?
  {
    forall i | 0 <= i < |entries| ensures entries[i].1.Object? {
      TypesOk(entries, dec, i);
    }
  }

  /** The second loop of `load`: each `Ability` entry becomes the map of
      its fields that decode as abilities. */
  method BuildAbilityTable(entries: seq<(string, Json)>, ghost ts: seq<string>, dec: Decoders) returns (table: AbilityTable)
    requires Types(entries, dec) == Value(Ok(ts))
    ensures TypesObjectsHold(entries, ts) && table == AbilityTableOf(entries, ts, dec)
  {
    TypesObjects(entries, dec);
    table := map[];
    var i := 0;
    while i < |entries|
      invariant i <= |entries|
      invariant table == AbilityTableOf(entries[..i], ts[..i], dec)
    {
      TypesOk(entries, dec, i);
      assert entries[..i + 1][..i] == entries[..i] && ts[..i + 1][..i] == ts[..i];
      var ti := TypeOf(entries[i].1, dec).value.value;
      if ti.objectType == "Ability" {
        var fields := DecodeFields(entries[i].1.members, dec);
        table := table[entries[i].0 := fields];
      }
      i := i + 1;
    }
    assert entries[..|entries|] == entries && ts[..|ts|] == ts;
  }

  /** The inner loop of the second loop of `load`: the fields of one
      `Ability` entry that decode, a failure being ignored. */
  method DecodeFields(members: seq<(string, Json)>, dec: Decoders) returns (fields: map<string, Ability>)
    ensures fields == Fields(members, dec)
  {
    fields := map[];
    var j := 0;
    while j < |members|
      invariant j <= |members|
      invariant fields == Fields(members[..j], dec)
    {
      assert members[..j + 1][..j] == members[..j];
      match dec.ability(members[j].1) {
        case Ok(a) =>
          fields := fields[members[j].0 := a];
        case Err(_) =>
      }
      j := j + 1;
    }
    assert members[..|members|] == members;
  }

  predicate TypesObjectsHold(entries: seq<(string, Json)>, ts: seq<string>) {
    |ts| == |entries| && forall i :: 0 <= i < |entries| ==> entries[i].1.Object?
  }

  /** The third loop of `load`. */
  method BuildShips(entries: seq<(string, Json)>, ghost ts: seq<string>, table: AbilityTable, dec: Decoders)
    returns (r: Outcome<Result<map<nat, ProcessedShip>, Error>>)
    requires Types(entries, dec) == Value(Ok(ts))
    ensures r == ShipsFrom(entries, ts, table, dec)
  {
    var ships: map<nat, ProcessedShip> := map[];
    var i := 0;
    while i < |entries|
      invariant i <= |entries|
      invariant ShipsFrom(entries[..i], ts[..i], table, dec) == Value(Ok(ships))
    {
      TypesOk(entries, dec, i);
      ShipsFromStep(entries, ts, table, dec, i, ships);
      var ti := TypeOf(entries[i].1, dec).value.value;
      if ti.objectType == "Ship" {
        match dec.ship(entries[i].1) {
          case Err(e) =>
            ShipsFromStops(entries, ts, table, dec, i + 1);
            return Value(Err(e));
          case Ok(raw) =>
            match Process(raw, table) {
              case Panic(why) =>
                ShipsFromStops(entries, ts, table, dec, i + 1);
                return Panic(why);
              case Value(p) =>
                ships := ships[p.id := p];
            }
        }
      }
      i := i + 1;
    }
    assert entries[..|entries|] == entries && ts[..|ts|] == ts;
    r := Value(Ok(ships));
  }

  /** What `load` yields for the top-level entries. */
  function Loaded(entries: seq<(string, Json)>, dec: Decoders): Outcome<Result<Params, Error>> {
    match Types(entries, dec)
    case Panic(why) => Panic(why)
    case Value(Err(e)) => Value(Err(e))
    case Value(Ok(ts)) =>
      TypesObjects(entries, dec);
      match ShipsFrom(entries, ts, AbilityTableOf(entries, ts, dec), dec)
      case Panic(why) => Panic(why)
      case Value(Err(e)) => Value(Err(e))
      case Value(Ok(ships)) => Value(Ok(Params(ships)))
  }

  /** `GameParams::load` over the parsed top-level value: a non-object
      panics; otherwise the three loops run in turn over its entries. */
  method Load(top: Json, dec: Decoders) returns (r: Outcome<Result<Params, Error>>)
    ensures top.NonObject? ==> r == Panic(UNWRAP_NONE)
    ensures top.Object? ==> r == Loaded(top.members, dec)
  {
    if top.NonObject? {
      return Panic(UNWRAP_NONE);
    }
    var entries := top.members;
    var counted := CountTypes(entries, dec);
    match counted {
      case Panic(why) =>
        return Panic(why);
      case Value(Err(e)) =>
        return Value(Err(e));
      case Value(Ok(_)) =>
    }
    ghost var ts := Types(entries, dec).value.value;
    var table := BuildAbilityTable(entries, ts, dec);
    var ships := BuildShips(entries, ts, table, dec);
    match ships {
      case Panic(why) =>
        r := Panic(why);
      case Value(Err(e)) =>
        r := Value(Err(e));
      case Value(Ok(m)) =>
        r := Value(Ok(Params(m)));
    }
  }

  /** The ships of a loaded table. */
  datatype Params = Params(ships: map<nat, ProcessedShip>) {
    /** `get_ship`: a plain lookup. */
    function GetShip(id: nat): (r: Option<ProcessedShip>)
      ensures r.Some? <==> id in ships
      ensures r.Some? ==> r.value == ships[id]
    {
      if id in ships then Some(ships[id]) else None
    }
  }
}
