/** The deterministic parts of src/main.rs: reading the settings map into
    a `Config`, and choosing and ordering the ships of the cheat sheet for
    one tier. Parsing a float is a parameter. */
module App {
  import opened Wrappers
  import opened Numbers
  import opened Ships
  import opened Cheatsheet

  // ---------------------------------------------------------------------
  // Config::from_map
  // ---------------------------------------------------------------------

  datatype Config = Config(disableScraper: bool, apiKey: string, requestPeriod: nat, mongoUrl: string)

  const NO_API_KEY: string := "Could not find 'api_key' in settings"
  const NO_RATE: string := "Could not find 'api_request_rate' in settings"
  const BAD_RATE: string := "Could not parse api_request_rate as a float"
  const NO_MONGO: string := "Could not find 'mongo' in settings"

  /** `str::parse::<bool>`: exactly "true" and "false". */
  function ParseBool(s: string): (r: Option<bool>)
    ensures r.Some? <==> s == "true" || s == "false"
    ensures r.Some? ==> (r.value <==> s == "true")
  {
    if s == "true" then Some(true) else if s == "false" then Some(false) else None
  }

  /** `(1e9 / rate) as u64`: the quotient truncated toward zero, with
      Rust's saturating cast: a negative quotient gives 0 and one beyond
      the 64-bit range (including the infinity of a zero rate) gives the
      largest value. */
  function RequestPeriod(rate: real): (p: nat)
    ensures p <= U64_MAX
    ensures rate > 0.0 && 1000000000.0 / rate < U64_LIMIT as real ==>
              p as real <= 1000000000.0 / rate < p as real + 1.0
    ensures rate > 0.0 && 1000000000.0 / rate >= U64_LIMIT as real ==> p == U64_MAX
    ensures rate == 0.0 ==> p == U64_MAX
    ensures rate < 0.0 ==> p == 0
  {
    if rate == 0.0 then U64_MAX
    else if rate < 0.0 then 0
    else
      var q := 1000000000.0 / rate;
      if q >= U64_LIMIT as real then U64_MAX else q.Floor
  }

  /** A rate of 20 requests a second is one every 50 ms. */
  lemma TwentyPerSecond()
    ensures RequestPeriod(20.0) == 50000000
  {
    assert 1000000000.0 / 20.0 == 50000000.0;
  }

  /** The settings `from_map` accepts: a `disable_scraper` entry, when
      present, is a boolean; `api_key`, `api_request_rate` and `mongo` are
      present; and the rate parses as a float. */
  predicate Accepted(settings: map<string, string>, parseFloat: string -> Option<real>) {
    ("disable_scraper" in settings ==> ParseBool(settings["disable_scraper"]).Some?) &&
    "api_key" in settings && "api_request_rate" in settings &&
    parseFloat(settings["api_request_rate"]).Some? && "mongo" in settings
  }

  /** `Config::from_map`. The settings are read in order, and the first
      that is missing or malformed panics. */
  function ConfigFromMap(settings: map<string, string>, parseFloat: string -> Option<real>): (r: Outcome<Config>)
    ensures r.Value? <==> Accepted(settings, parseFloat)
    ensures r.Value? ==> (r.value.disableScraper <==> "disable_scraper" in settings && settings["disable_scraper"] == "true")
    ensures r.Value? ==> r.value.apiKey == settings["api_key"] && r.value.mongoUrl == settings["mongo"]
    ensures r.Value? ==> r.value.requestPeriod == RequestPeriod(parseFloat(settings["api_request_rate"]).value)
    ensures "disable_scraper" in settings && ParseBool(settings["disable_scraper"]).None? ==> r == Panic(UNWRAP_ERR)
    ensures ("disable_scraper" in settings ==> ParseBool(settings["disable_scraper"]).Some?) ==>
              ("api_key" !in settings ==> r == Panic(NO_API_KEY)) &&
              ("api_key" in settings && "api_request_rate" !in settings ==> r == Panic(NO_RATE)) &&
              (("api_key" in settings && "api_request_rate" in settings &&
                parseFloat(settings["api_request_rate"]).None?) ==> r == Panic(BAD_RATE)) &&
              (("api_key" in settings && "api_request_rate" in settings &&
                parseFloat(settings["api_request_rate"]).Some? && "mongo" !in settings) ==> r == Panic(NO_MONGO))
  {
    var disable := if "disable_scraper" in settings then ParseBool(settings["disable_scraper"]) else Some(false);
    if disable.None? then Panic(UNWRAP_ERR)
    else if "api_key" !in settings then Panic(NO_API_KEY)
    else if "api_request_rate" !in settings then Panic(NO_RATE)
    else
      var rate := parseFloat(settings["api_request_rate"]);
      if rate.None? then Panic(BAD_RATE)
      else if "mongo" !in settings then Panic(NO_MONGO)
      else Value(Config(disable.value, settings["api_key"], RequestPeriod(rate.value), settings["mongo"]))
  }

  /** The settings of the `config_parser_works` test, as written. */
  function TestSettings(): map<string, string> {
    map["api_key" := "asdf", "api_request_rate" := "20"]
  }

  /** As written, the test's settings lack `mongo`, so `from_map` panics
      before the test's assertions are reached. */
  lemma ConfigTestPanics(parseFloat: string -> Option<real>)
    requires parseFloat("20") == Some(20.0)
    ensures ConfigFromMap(TestSettings(), parseFloat) == Panic(NO_MONGO)
  {
    assert "disable_scraper" !in TestSettings() && "mongo" !in TestSettings();
  }

  /** The test's settings with the `mongo` entry it evidently needs. */
  function CorrectedTestSettings(): map<string, string> {
    TestSettings()["mongo" := "mongodb://localhost:27017"]
  }

  /** With `mongo` present, the test's two assertions hold: the API key is
      kept and the request period is 50 ms. */
  lemma ConfigTestWithMongo(parseFloat: string -> Option<real>)
    requires parseFloat("20") == Some(20.0)
    ensures var r := ConfigFromMap(CorrectedTestSettings(), parseFloat);
            r.Value? && r.value.apiKey == "asdf" && r.value.requestPeriod == 50000000 && !r.value.disableScraper
  {
    assert "disable_scraper" !in CorrectedTestSettings();
    TwentyPerSecond();
  }

  // ---------------------------------------------------------------------
  // Cheat sheet order: `sort_by_key(|ship| (ship.class, ship.name))`
  // ---------------------------------------------------------------------

  /** Rust's `String` order: lexicographic by character. */
  predicate StrLess(a: string, b: string) {
    if a == [] then b != []
    else if b == [] then false
    else if a[0] != b[0] then a[0] < b[0]
    else StrLess(a[1..], b[1..])
  }

  lemma {:induction false} StrLessIrreflexive(a: string)
    ensures !StrLess(a, a)
  {
    if a != [] {
      StrLessIrreflexive(a[1..]);
    }
  }

  lemma {:induction false} StrLessTransitive(a: string, b: string, c: string)
    requires StrLess(a, b) && StrLess(b, c)
    ensures StrLess(a, c)
  {
    if a != [] && b != [] && c != [] && a[0] == b[0] && b[0] == c[0] {
      StrLessTransitive(a[1..], b[1..], c[1..]);
    }
  }

  /** Two different strings are ordered one way or the other. */
  lemma {:induction false} StrLessTotal(a: string, b: string)
    requires a != b
    ensures StrLess(a, b) || StrLess(b, a)
  {
    if a != [] && b != [] && a[0] == b[0] {
      assert a == [a[0]] + a[1..] && b == [b[0]] + b[1..];
      StrLessTotal(a[1..], b[1..]);
    }
  }

  /** The sort key `(class, name)` of `x` is below that of `y`. */
  predicate KeyLess(x: Ship, y: Ship) {
    Cmp(x.shipClass, y.shipClass) == Less || (x.shipClass == y.shipClass && StrLess(x.name, y.name))
  }

  predicate SameKey(x: Ship, y: Ship) {
    x.shipClass == y.shipClass && x.name == y.name
  }

  /** Keys are totally ordered: below, above or equal. */
  lemma KeyTrichotomy(x: Ship, y: Ship)
    ensures KeyLess(x, y) || KeyLess(y, x) || SameKey(x, y)
    ensures !(KeyLess(x, y) && KeyLess(y, x)) && !(KeyLess(x, y) && SameKey(x, y))
  {
    if x.shipClass == y.shipClass {
      if x.name != y.name {
        StrLessTotal(x.name, y.name);
      }
      StrLessIrreflexive(x.name);
      if StrLess(x.name, y.name) && StrLess(y.name, x.name) {
        StrLessTransitive(x.name, y.name, x.name);
      }
    }
  }

  /** "Not below" is transitive on strings. */
  lemma {:induction false} StrNotLessTransitive(a: string, b: string, c: string)
    requires !StrLess(a, b) && !StrLess(b, c)
    ensures !StrLess(a, c)
  {
    if a != [] && b != [] && c != [] && a[0] == b[0] && b[0] == c[0] {
      StrNotLessTransitive(a[1..], b[1..], c[1..]);
    }
  }

  /** "Not below" is transitive on keys, so the sorted order is well
      defined. */
  lemma KeyNotLessTransitive(x: Ship, y: Ship, z: Ship)
    requires !KeyLess(x, y) && !KeyLess(y, z)
    ensures !KeyLess(x, z)
  {
    if x.shipClass == z.shipClass {
      assert Rank(y.shipClass) == Rank(x.shipClass);
      assert PartialCmp(x.shipClass, y.shipClass).value == Equal;
      StrNotLessTransitive(x.name, y.name, z.name);
    }
  }

  predicate SortedByKey(s: seq<Ship>) {
    forall i, j :: 0 <= i < j < |s| ==> !KeyLess(s[j], s[i])
  }

  /** Places `x` after every ship whose key is not above its own. */
  function InsertByKey(sorted: seq<Ship>, x: Ship): seq<Ship> {
    if sorted == [] then [x]
    else
      var n := |sorted| - 1;
      if KeyLess(x, sorted[n]) then InsertByKey(sorted[..n], x) + [sorted[n]]
      else sorted + [x]
  }

  /** The stable sort of `sort_by_key`, as an insertion sort. */
  function SortByKey(s: seq<Ship>): seq<Ship> {
    if s == [] then []
    else
      var n := |s| - 1;
      InsertByKey(SortByKey(s[..n]), s[n])
  }

  lemma {:induction false} InsertByKeyPerm(sorted: seq<Ship>, x: Ship)
    ensures multiset(InsertByKey(sorted, x)) == multiset(sorted) + multiset{x}
  {
    if sorted != [] {
      var n := |sorted| - 1;
      assert sorted == sorted[..n] + [sorted[n]];
      if KeyLess(x, sorted[n]) {
        InsertByKeyPerm(sorted[..n], x);
      }
    }
  }

  /** The sort only reorders. */
  lemma {:induction false} SortByKeyPerm(s: seq<Ship>)
    ensures multiset(SortByKey(s)) == multiset(s)
  {
    if s != [] {
      var n := |s| - 1;
      assert s == s[..n] + [s[n]];
      SortByKeyPerm(s[..n]);
      InsertByKeyPerm(SortByKey(s[..n]), s[n]);
    }
  }

  /** A sorted sequence stays sorted when a ship not below any of it is
      appended. */
  lemma SortedSnoc(s: seq<Ship>, x: Ship)
    requires SortedByKey(s)
    requires forall i :: 0 <= i < |s| ==> !KeyLess(x, s[i])
    ensures SortedByKey(s + [x])
  {
    var t := s + [x];
    assert forall i :: 0 <= i < |s| ==> t[i] == s[i];
  }

  lemma {:induction false} InsertByKeySorted(sorted: seq<Ship>, x: Ship)
    requires SortedByKey(sorted)
    ensures SortedByKey(InsertByKey(sorted, x))
  {
    if sorted != [] {
      var n := |sorted| - 1;
      var last, init := sorted[n], sorted[..n];
      if KeyLess(x, last) {
        assert SortedByKey(init);
        InsertByKeySorted(init, x);
        var front := InsertByKey(init, x);
        InsertByKeyPerm(init, x);
        KeyTrichotomy(x, last);
        forall i | 0 <= i < |front|
          ensures !KeyLess(last, front[i])
        {
          var y := front[i];
          assert y in multiset(front);
          if y != x {
            assert y in multiset(init);
            var k :| 0 <= k < n && init[k] == y;
            assert sorted[k] == y;
          }
        }
        SortedSnoc(front, last);
      } else {
        forall i | 0 <= i < n
          ensures !KeyLess(x, sorted[i])
        {
          KeyNotLessTransitive(x, last, sorted[i]);
        }
        SortedSnoc(sorted, x);
      }
    }
  }

  /** The sorted ships are in key order. */
  lemma {:induction false} SortByKeySorted(s: seq<Ship>)
    ensures SortedByKey(SortByKey(s))
  {
    if s != [] {
      SortByKeySorted(s[..|s| - 1]);
      InsertByKeySorted(SortByKey(s[..|s| - 1]), s[|s| - 1]);
    }
  }

  /** The ships of `s` with the sort key of `k`, in order. */
  function WithKey(s: seq<Ship>, k: Ship): seq<Ship> {
    if s == [] then []
    else WithKey(s[..|s| - 1], k) + (if SameKey(s[|s| - 1], k) then [s[|s| - 1]] else [])
  }

  lemma WithKeyAppend(s: seq<Ship>, x: Ship, k: Ship)
    ensures WithKey(s + [x], k) == WithKey(s, k) + (if SameKey(x, k) then [x] else [])
  {
    assert (s + [x])[..|s|] == s;
  }

  lemma SnocSplit(s: seq<Ship>)
    requires s != []
    ensures s == s[..|s| - 1] + [s[|s| - 1]]
  {
  }

  lemma SwapEmpty(w: seq<Ship>, a: seq<Ship>, b: seq<Ship>)
    requires a == [] || b == []
    ensures w + a + b == w + b + a
  {
    if a == [] {
      assert w + a == w && w + b + a == w + b;
    } else {
      assert w + b == w && w + a + b == w + a;
    }
  }

  lemma {:induction false} InsertByKeyStable(sorted: seq<Ship>, x: Ship, k: Ship)
    ensures WithKey(InsertByKey(sorted, x), k) == WithKey(sorted, k) + (if SameKey(x, k) then [x] else [])
  {
    var fx := if SameKey(x, k) then [x] else [];
    if sorted == [] {
      WithKeyAppend([], x, k);
      assert [] + [x] == [x];
    } else {
      var n := |sorted| - 1;
      var last, init := sorted[n], sorted[..n];
      if KeyLess(x, last) {
        var fl := if SameKey(last, k) then [last] else [];
        InsertByKeyStable(init, x, k);
        var front := InsertByKey(init, x);
        assert InsertByKey(sorted, x) == front + [last];
        WithKeyAppend(front, last, k);
        SnocSplit(sorted);
        WithKeyAppend(init, last, k);
        KeyTrichotomy(x, last);
        SwapEmpty(WithKey(init, k), fx, fl);
      } else {
        WithKeyAppend(sorted, x, k);
      }
    }
  }

  /** The sort is stable: ships with equal keys keep their order. */
  lemma {:induction false} SortByKeyStable(s: seq<Ship>, k: Ship)
    ensures WithKey(SortByKey(s), k) == WithKey(s, k)
  {
    if s != [] {
      var n := |s| - 1;
      SortByKeyStable(s[..n], k);
      InsertByKeyStable(SortByKey(s[..n]), s[n], k);
    }
  }

  // ---------------------------------------------------------------------
  // render_cheatsheet
  // ---------------------------------------------------------------------

  /** The ship is matched with players of `tier`. */
  predicate InTier(x: Ship, tier: nat) {
    x.minTier <= tier && x.maxTier >= tier
  }

  /** The ships of `s` on the sheet for `tier`, in order. */
  function OnTier(s: seq<Ship>, tier: nat): seq<Ship> {
    if s == [] then []
    else OnTier(s[..|s| - 1], tier) + (if InTier(s[|s| - 1], tier) then [s[|s| - 1]] else [])
  }

  lemma {:induction false} OnTierMembers(s: seq<Ship>, tier: nat)
    ensures forall x :: x in OnTier(s, tier) <==> x in s && InTier(x, tier)
  {
    if s != [] {
      var init := s[..|s| - 1];
      OnTierMembers(init, tier);
      assert s == init + [s[|s| - 1]];
    }
  }

  /** The sheet for `tier` is in key order and holds exactly the fetched
      ships of that tier. */
  lemma SheetOrder(fetched: seq<Ship>, tier: nat)
    ensures var sheet := SortByKey(OnTier(fetched, tier));
            SortedByKey(sheet) && forall x :: x in sheet <==> x in fetched && InTier(x, tier)
  {
    var ships := OnTier(fetched, tier);
    SortByKeySorted(ships);
    SortByKeyPerm(ships);
    OnTierMembers(fetched, tier);
    assert forall x :: x in SortByKey(ships) <==> x in multiset(ships);
  }

  /** The ship selection and sort of `render_cheatsheet` (the rendering is
      not modelled): every ship the database knows is fetched in
      enumeration order, kept when `tier` is within its matchmaking range,
      and the kept ships are sorted by class, then name. `fetched` are the
      ships fetched, one per id. */
  method RenderCheatsheet(db: CheatsheetDb, tier: nat) returns (r: Outcome<seq<Ship>>, ids: seq<nat>,
                                                                ghost fetched: seq<Ship>)
    ensures Distinct(ids) && forall id :: id in ids <==> id in db.shipdb.ships
    ensures r.Value? ==> |fetched| == |ids|
    ensures r.Value? ==>
              forall i :: 0 <= i < |ids| ==> Serves(db.shipdb.ships, db.shipdb.modules, db.gameparams, ids[i], Value(fetched[i]))
    ensures r.Value? ==> r.value == SortByKey(OnTier(fetched, tier))
    ensures r.Value? ==> SortedByKey(r.value) && forall x :: x in r.value <==> x in fetched && InTier(x, tier)
    ensures r.Panic? ==> exists i :: 0 <= i < |ids| && Serves(db.shipdb.ships, db.shipdb.modules, db.gameparams, ids[i], Panic(r.reason))
  {
    ids := db.EnumerateShips();
    var ships: seq<Ship> := [];
    fetched := [];
    var i := 0;
    while i < |ids|
      invariant i <= |ids| && |fetched| == i
      invariant forall j :: 0 <= j < i ==> Serves(db.shipdb.ships, db.shipdb.modules, db.gameparams, ids[j], Value(fetched[j]))
      invariant ships == OnTier(fetched, tier)
    {
      var got := db.GetShip(ids[i]);
      if got.Panic? {
        return Panic(got.reason), ids, fetched;
      }
      var ship := got.value.value;
      assert (fetched + [ship])[..i] == fetched;
      fetched := fetched + [ship];
      if ship.minTier <= tier && ship.maxTier >= tier {
        ships := ships + [ship];
      }
      i := i + 1;
    }
    SheetOrder(fetched, tier);
    r := Value(SortByKey(ships));
  }
}
