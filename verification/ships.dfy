/** The ship database of src/ships.rs: the ship descriptions and the
    detailed module information, refreshed from the API. The API call for
    module information is a function parameter, and locking is left out
    (single-threaded model). */
module Ships {
  import opened Wrappers
  import opened Errors
  import opened WowsData

  /** Module ids are requested at most this many at a time. */
  const CHUNK_SIZE: nat := 100

  /** The module ids named in one ship's module tree. */
  function ShipModuleIds(ship: ShipInfo): set<nat> {
    set name | name in ship.modulesTree :: ship.modulesTree[name].moduleId
  }

  /** The module ids named in the module tree of any ship among `ids`. */
  function ModuleIdsOf(ships: map<nat, ShipInfo>, ids: set<nat>): set<nat> {
    set id, m | id in ids && id in ships && m in ShipModuleIds(ships[id]) :: m
  }

  function Flatten(chunks: seq<seq<nat>>): seq<nat> {
    if chunks == [] then [] else Flatten(chunks[..|chunks| - 1]) + chunks[|chunks| - 1]
  }

  predicate Distinct(s: seq<nat>) {
    forall i, j :: 0 <= i < j < |s| ==> s[i] != s[j]
  }

  /** Chunks as `chunks(100)` cuts them: none empty, every one but the last
      full. */
  predicate WellChunked(chunks: seq<seq<nat>>) {
    forall i :: 0 <= i < |chunks| ==>
      0 < |chunks[i]| <= CHUNK_SIZE && (i < |chunks| - 1 ==> |chunks[i]| == CHUNK_SIZE)
  }

  /** The module map after inserting `pairs` in order into `m`: a later
      pair overwrites an earlier one with the same id. */
  function InsertAll(m: map<nat, DetailedModuleInfo>, pairs: seq<(nat, DetailedModuleInfo)>): map<nat, DetailedModuleInfo> {
    if pairs == [] then m else InsertAll(m, pairs[..|pairs| - 1])[pairs[|pairs| - 1].0 := pairs[|pairs| - 1].1]
  }

  /** The module map built from the replies to `queries`, chunk after
      chunk; the first failed call panics (its `unwrap`). */
  function Fetched(queries: seq<seq<nat>>, fetch: seq<nat> -> Result<seq<(nat, DetailedModuleInfo)>, Error>)
    : (r: Outcome<map<nat, DetailedModuleInfo>>)
    ensures r.Panic? ==> r.reason == UNWRAP_ERR
  {
    if queries == [] then Value(map[])
    else
      match Fetched(queries[..|queries| - 1], fetch)
      case Panic(why) => Panic(why)
      case Value(m) =>
        match fetch(queries[|queries| - 1])
        case Err(_) => Panic(UNWRAP_ERR)
        case Ok(pairs) => Value(InsertAll(m, pairs))
  }

  /** The keys of `InsertAll` are the old keys and the ids of the pairs. */
  lemma {:induction false} InsertAllKeys(m: map<nat, DetailedModuleInfo>, pairs: seq<(nat, DetailedModuleInfo)>, k: nat)
    ensures k in InsertAll(m, pairs) <==> k in m || exists i :: 0 <= i < |pairs| && pairs[i].0 == k
  {
    if pairs != [] {
      var init := pairs[..|pairs| - 1];
      InsertAllKeys(m, init, k);
      if exists i :: 0 <= i < |init| && init[i].0 == k {
        var i :| 0 <= i < |init| && init[i].0 == k;
        assert pairs[i] == init[i];
      }
      if exists i :: 0 <= i < |pairs| && pairs[i].0 == k {
        var i :| 0 <= i < |pairs| && pairs[i].0 == k;
        if i < |init| {
          assert init[i] == pairs[i];
        }
      }
    }
  }

  /** The last pair with a given id wins. */
  lemma {:induction false} InsertAllLast(m: map<nat, DetailedModuleInfo>, pairs: seq<(nat, DetailedModuleInfo)>, i: nat)
    requires i < |pairs|
    requires forall j :: i < j < |pairs| ==> pairs[j].0 != pairs[i].0
    ensures pairs[i].0 in InsertAll(m, pairs) && InsertAll(m, pairs)[pairs[i].0] == pairs[i].1
  {
    var init := pairs[..|pairs| - 1];
    if i < |pairs| - 1 {
      forall j | i < j < |init| ensures init[j].0 != init[i].0 {
        assert init[j] == pairs[j];
      }
      InsertAllLast(m, init, i);
    }
  }

  /** Every pair replied to `queries`, in order (a failed reply adds
      none). */
  function AllPairs(queries: seq<seq<nat>>, fetch: seq<nat> -> Result<seq<(nat, DetailedModuleInfo)>, Error>)
    : seq<(nat, DetailedModuleInfo)>
  {
    if queries == [] then []
    else
      var last := fetch(queries[|queries| - 1]);
      AllPairs(queries[..|queries| - 1], fetch) + (if last.Ok? then last.value else [])
  }

  lemma {:induction false} InsertAllAppend(m: map<nat, DetailedModuleInfo>, a: seq<(nat, DetailedModuleInfo)>,
                                           b: seq<(nat, DetailedModuleInfo)>)
    ensures InsertAll(m, a + b) == InsertAll(InsertAll(m, a), b)
  {
    if b != [] {
      assert (a + b)[..|a + b| - 1] == a + b[..|b| - 1];
      InsertAllAppend(m, a, b[..|b| - 1]);
    } else {
      assert a + b == a;
    }
  }

  /** A successful download is every reply inserted in order into one
      empty map, so a later chunk overwrites an equal id of an earlier
      one (`InsertAllLast`). */
  lemma {:induction false} FetchedInsertsAll(queries: seq<seq<nat>>,
                                             fetch: seq<nat> -> Result<seq<(nat, DetailedModuleInfo)>, Error>)
    requires Fetched(queries, fetch).Value?
    ensures Fetched(queries, fetch).value == InsertAll(map[], AllPairs(queries, fetch))
  {
    if queries != [] {
      var init := queries[..|queries| - 1];
      FetchedInsertsAll(init, fetch);
      InsertAllAppend(map[], AllPairs(init, fetch), fetch(queries[|queries| - 1]).value);
    }
  }

  /** The keys of `m` in some order, each once (`HashMap` iteration order
      is not specified). */
  method KeysOf<V>(m: map<nat, V>) returns (ids: seq<nat>)
    ensures Distinct(ids)
    ensures forall id :: id in ids <==> id in m
  {
    ids := [];
    var left := m.Keys;
    while left != {}
      invariant left <= m.Keys
      invariant Distinct(ids)
      invariant forall id :: id in ids <==> id in m && id !in left
      decreases left
    {
      var id :| id in left;
      ids := ids + [id];
      left := left - {id};
    }
  }

  /** The elements of `s` in some order, each once. */
  method Ordered(s: set<nat>) returns (ids: seq<nat>)
    ensures Distinct(ids)
    ensures forall id :: id in ids <==> id in s
  {
    ids := [];
    var left := s;
    while left != {}
      invariant left <= s
      invariant Distinct(ids)
      invariant forall id :: id in ids <==> id in s && id !in left
      decreases left
    {
      var id :| id in left;
      ids := ids + [id];
      left := left - {id};
    }
  }

  /** The module-id collection of `update_modules`: every module id of
      every ship's module tree, once. */
  method CollectModuleIds(ships: map<nat, ShipInfo>) returns (ids: set<nat>)
    ensures ids == ModuleIdsOf(ships, ships.Keys)
  {
    ids := {};
    var left := ships.Keys;
    while left != {}
      invariant left <= ships.Keys
      invariant ids == ModuleIdsOf(ships, ships.Keys - left)
      decreases left
    {
      var id :| id in left;
      var tree := ships[id].modulesTree;
      var names := tree.Keys;
      ghost var before := ids;
      while names != {}
        invariant names <= tree.Keys
        invariant ids == before + (set name | name in tree.Keys - names :: tree[name].moduleId)
        decreases names
      {
        var name :| name in names;
        ids := ids + {tree[name].moduleId};
        names := names - {name};
      }
      assert ids == before + ShipModuleIds(ships[id]);
      ModuleIdsStep(ships, ships.Keys - left, id);
      left := left - {id};
      assert ships.Keys - left == (ships.Keys - (left + {id})) + {id};
    }
    assert ships.Keys - left == ships.Keys;
  }

  lemma ModuleIdsStep(ships: map<nat, ShipInfo>, done: set<nat>, id: nat)
    requires id in ships
    ensures ModuleIdsOf(ships, done + {id}) == ModuleIdsOf(ships, done) + ShipModuleIds(ships[id])
  {
    forall m | m in ShipModuleIds(ships[id]) ensures m in ModuleIdsOf(ships, done + {id}) {
    }
  }

  /** The chunking loop of `update_modules`: `ids` cut, in order, into
      chunks of `CHUNK_SIZE`, the last one possibly shorter. */
  method Chunk(ids: seq<nat>) returns (queries: seq<seq<nat>>)
    ensures Flatten(queries) == ids
    ensures WellChunked(queries)
  {
    queries := [];
    var i := 0;
    while i < |ids|
      invariant i <= |ids|
      invariant Flatten(queries) == ids[..i]
      invariant WellChunked(queries)
      invariant i < |ids| ==> forall k :: 0 <= k < |queries| ==> |queries[k]| == CHUNK_SIZE
    {
      var end := if |ids| - i < CHUNK_SIZE then |ids| else i + CHUNK_SIZE;
      assert ids[..end] == ids[..i] + ids[i..end];
      assert (queries + [ids[i..end]])[..|queries|] == queries;
      queries := queries + [ids[i..end]];
      i := end;
    }
    assert ids[..|ids|] == ids;
  }

  /** The download loop of `update_modules`: each chunk's reply is inserted
      in order into one new map. */
  method FetchModules(queries: seq<seq<nat>>, fetch: seq<nat> -> Result<seq<(nat, DetailedModuleInfo)>, Error>)
    returns (r: Outcome<map<nat, DetailedModuleInfo>>)
    ensures r == Fetched(queries, fetch)
  {
    var modules: map<nat, DetailedModuleInfo> := map[];
    var i := 0;
    while i < |queries|
      invariant i <= |queries|
      invariant Fetched(queries[..i], fetch) == Value(modules)
    {
      assert queries[..i + 1][..i] == queries[..i];
      match fetch(queries[i]) {
        case Err(_) =>
          PanicStays(queries, i, fetch);
          return Panic(UNWRAP_ERR);
        case Ok(pairs) =>
          var j := 0;
          ghost var start := modules;
          while j < |pairs|
            invariant j <= |pairs|
            invariant modules == InsertAll(start, pairs[..j])
          {
            assert pairs[..j + 1][..j] == pairs[..j];
            modules := modules[pairs[j].0 := pairs[j].1];
            j := j + 1;
          }
          assert pairs[..|pairs|] == pairs;
      }
      i := i + 1;
    }
    assert queries[..|queries|] == queries;
    r := Value(modules);
  }

  /** Once a chunk's request fails, the whole download panics. */
  lemma {:induction false} PanicStays(queries: seq<seq<nat>>, i: nat,
                                      fetch: seq<nat> -> Result<seq<(nat, DetailedModuleInfo)>, Error>)
    requires i < |queries| && fetch(queries[i]).Err?
    ensures Fetched(queries, fetch) == Panic(UNWRAP_ERR)
  {
    var init := queries[..|queries| - 1];
    if i < |queries| - 1 {
      assert init[i] == queries[i];
      PanicStays(init, i, fetch);
    }
  }

  class ShipDb {
    var ships: map<nat, ShipInfo>
    var modules: map<nat, DetailedModuleInfo>

    /** `ShipDb::new`: both maps start empty. */
    constructor ()
      ensures ships == map[] && modules == map[]
    {
      ships := map[];
      modules := map[];
    }

    /** `get_ship_info`: the stored description, if any. */
    function GetShipInfo(id: nat): (r: Option<ShipInfo>)
      reads this
      ensures r.Some? <==> id in ships
      ensures r.Some? ==> r.value == ships[id]
    {
      if id in ships then Some(ships[id]) else None
    }

    /** `get_all_info`: a copy of the whole ship map. */
    function GetAllInfo(): (r: map<nat, ShipInfo>)
      reads this
      ensures forall id :: GetShipInfo(id).Some? <==> id in r
      ensures forall id :: id in r ==> GetShipInfo(id) == Some(r[id])
    {
      ships
    }

    /** `get_modules`: a copy of the whole module map. */
    function GetModules(): map<nat, DetailedModuleInfo>
      reads this
    {
      modules
    }

    /** `enumerate_ships`: every known ship id, once. */
    method EnumerateShips() returns (ids: seq<nat>)
      ensures Distinct(ids)
      ensures forall id :: id in ids <==> GetShipInfo(id).Some?
    {
      ids := KeysOf(ships);
    }

    /** `update_modules`: the module ids of every ship are requested in
        chunks of at most 100, and the module map is replaced wholesale by
        the replies; a failed request panics and leaves the map as it was.
        `queries` are the requests made, in order. */
    method UpdateModules(fetch: seq<nat> -> Result<seq<(nat, DetailedModuleInfo)>, Error>)
      returns (r: Outcome<()>, queries: seq<seq<nat>>)
      modifies this
      ensures ships == old(ships)
      ensures Distinct(Flatten(queries)) && WellChunked(queries)
      ensures forall id :: id in Flatten(queries) <==> id in ModuleIdsOf(ships, ships.Keys)
      ensures r.Value? <==> Fetched(queries, fetch).Value?
      ensures r.Value? ==> modules == Fetched(queries, fetch).value
      ensures r.Panic? ==> modules == old(modules)
    {
      var ids := CollectModuleIds(ships);
      var ordered := Ordered(ids);
      queries := Chunk(ordered);
      var fetched := FetchModules(queries, fetch);
      match fetched {
        case Panic(why) =>
          r := Panic(why);
        case Value(m) =>
          modules := m;
          r := Value(());
      }
    }

    /** One pass of `update_loop`: a successful enumeration replaces the
        whole ship map and an error keeps it; the modules are then
        refreshed for the ships now known. */
    method UpdateOnce(enumerated: Result<map<nat, ShipInfo>, Error>,
                      fetch: seq<nat> -> Result<seq<(nat, DetailedModuleInfo)>, Error>)
      returns (r: Outcome<()>, queries: seq<seq<nat>>)
      modifies this
      ensures enumerated.Ok? ==> ships == enumerated.value
      ensures enumerated.Err? ==> ships == old(ships)
      ensures forall id :: id in Flatten(queries) <==> id in ModuleIdsOf(ships, ships.Keys)
      ensures r.Value? <==> Fetched(queries, fetch).Value?
      ensures r.Value? ==> modules == Fetched(queries, fetch).value
      ensures r.Panic? ==> modules == old(modules)
    {
      if enumerated.Ok? {
        ships := enumerated.value;
      }
      r, queries := UpdateModules(fetch);
    }
  }
}
