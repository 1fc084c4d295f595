/** The player list of src/database.rs: nicknames keyed in lowercase, the
    three-letter searches that gather them, and the merge of a fresh list
    into the known one. The player-search API call is a parameter. */
module PlayerList {
  import opened Wrappers
  import opened Errors
  import opened WowsData

  // ---------------------------------------------------------------------
  // Nickname lookup
  // ---------------------------------------------------------------------

  /** `char::to_lowercase` on the ASCII letters. */
  function LowerChar(c: char): (l: char)
    ensures !('A' <= l <= 'Z')
  {
    if 'A' <= c <= 'Z' then (c as int + 32) as char else c
  }

  /** `str::to_lowercase`, letter by letter. */
  function ToLower(s: string): (r: string)
    ensures |r| == |s|
  {
    seq(|s|, i requires 0 <= i < |s| => LowerChar(s[i]))
  }

  /** Lowercasing twice is lowercasing once. */
  lemma ToLowerIdempotent(s: string)
    ensures ToLower(ToLower(s)) == ToLower(s)
  {
  }

  /** The lookup the insertion loop leaves: every player's lowercased
      nickname mapped to their account id, a later player overwriting an
      earlier one with the same lowercased nickname. */
  function LookupOf(players: seq<PlayerRecord>): map<string, nat> {
    if players == [] then map[]
    else
      var last := players[|players| - 1];
      LookupOf(players[..|players| - 1])[ToLower(last.nickname) := last.accountId]
  }

  /** The loop of `Database::new` and of `fetch_player_list` that inserts
      each player under the lowercased nickname. */
  method BuildLookup(players: seq<PlayerRecord>) returns (lookup: map<string, nat>)
    ensures lookup == LookupOf(players)
  {
    lookup := map[];
    var i := 0;
    while i < |players|
      invariant i <= |players|
      invariant lookup == LookupOf(players[..i])
    {
      assert players[..i + 1][..i] == players[..i];
      lookup := lookup[ToLower(players[i].nickname) := players[i].accountId];
      i := i + 1;
    }
    assert players[..|players|] == players;
  }

  /** The keys are exactly the lowercased nicknames. */
  lemma {:induction false} LookupKeys(players: seq<PlayerRecord>)
    ensures LookupOf(players).Keys == set i | 0 <= i < |players| :: ToLower(players[i].nickname)
  {
    if players != [] {
      var init := players[..|players| - 1];
      LookupKeys(init);
      var s := set i | 0 <= i < |players| :: ToLower(players[i].nickname);
      var t := set i | 0 <= i < |init| :: ToLower(init[i].nickname);
      assert s == t + {ToLower(players[|players| - 1].nickname)} by {
        forall k | k in s ensures k in t + {ToLower(players[|players| - 1].nickname)} {
          var i :| 0 <= i < |players| && k == ToLower(players[i].nickname);
          if i < |init| {
            assert k == ToLower(init[i].nickname);
          }
        }
        forall k | k in t ensures k in s {
          var i :| 0 <= i < |init| && k == ToLower(init[i].nickname);
          assert k == ToLower(players[i].nickname);
        }
      }
    }
  }

  /** Among players sharing a lowercased nickname, the last one wins. */
  lemma {:induction false} LookupLastWins(players: seq<PlayerRecord>, i: nat)
    requires i < |players|
    requires forall j :: i < j < |players| ==> ToLower(players[j].nickname) != ToLower(players[i].nickname)
    ensures ToLower(players[i].nickname) in LookupOf(players)
    ensures LookupOf(players)[ToLower(players[i].nickname)] == players[i].accountId
  {
    if i < |players| - 1 {
      var init := players[..|players| - 1];
      assert init[i] == players[i];
      LookupLastWins(init, i);
    }
  }

  // ---------------------------------------------------------------------
  // Search prefixes of `fetch_player_list`
  // ---------------------------------------------------------------------

  /** The alphabet the prefixes are drawn from. */
  const ALPHABET: string := "abcdefghijklmnopqrstuvwxyz"

  /** The `k`-th lowercase letter. */
  function Letter(k: nat): char
    requires k < 26
  {
    ('a' as int + k) as char
  }

  /** The alphabet is the 26 lowercase letters in order. */
  lemma AlphabetLetters()
    ensures |ALPHABET| == 26 && forall k :: 0 <= k < 26 ==> ALPHABET[k] == Letter(k)
  {
  }

  const NUM_PREFIXES: nat := 26 * 26 * 26

  /** The `i`-th string of the three-fold cartesian product of the
      alphabet, the last letter varying fastest. */
  function Prefix(i: nat): string
    requires i < NUM_PREFIXES
  {
    [Letter(i / 26 / 26), Letter(i / 26 % 26), Letter(i % 26)]
  }

  /** `(0..3).map(|_| alphabet.iter()).multi_cartesian_product()`, joined
      into strings. */
  function Prefixes(): (ps: seq<string>)
    ensures |ps| == NUM_PREFIXES
  {
    seq(NUM_PREFIXES, i requires 0 <= i < NUM_PREFIXES => Prefix(i))
  }

  predicate IsLowerWord(s: string) {
    forall k :: 0 <= k < |s| ==> 'a' <= s[k] <= 'z'
  }

  /** Every prefix is three lowercase letters. */
  lemma PrefixShape(i: nat)
    requires i < NUM_PREFIXES
    ensures |Prefix(i)| == 3 && IsLowerWord(Prefix(i))
  {
  }

  /** No prefix is searched twice. */
  lemma PrefixesDistinct(i: nat, j: nat)
    requires i < NUM_PREFIXES && j < NUM_PREFIXES && i != j
    ensures Prefix(i) != Prefix(j)
  {
    var q, r := i / 26, j / 26;
    assert i == 26 * q + i % 26 && j == 26 * r + j % 26;
    assert q == 26 * (q / 26) + q % 26 && r == 26 * (r / 26) + r % 26;
  }

  /** Every three-letter lowercase string is searched. */
  lemma PrefixesComplete(s: string)
    requires |s| == 3 && IsLowerWord(s)
    ensures exists i :: 0 <= i < NUM_PREFIXES && Prefix(i) == s
  {
    var x, y, z := s[0] as int - 'a' as int, s[1] as int - 'a' as int, s[2] as int - 'a' as int;
    var i := 26 * (26 * x + y) + z;
    assert i / 26 == 26 * x + y;
    assert i / 26 / 26 == x && i / 26 % 26 == y && i % 26 == z;
    assert Prefix(i) == s;
  }

  /** The players gathered from the searches that succeed, in search
      order; a failed search is reported and skipped. */
  function Gathered(listPlayers: string -> Result<seq<PlayerRecord>, Error>, searches: seq<string>): seq<PlayerRecord> {
    if searches == [] then []
    else
      var last := searches[|searches| - 1];
      Gathered(listPlayers, searches[..|searches| - 1]) +
        (match listPlayers(last) case Ok(v) => v case Err(_) => [])
  }

  /** `fetch_player_list`: the searches run concurrently, so their replies
      arrive in some `order` of completion; each successful reply is
      appended, then the players are keyed by lowercased nickname. */
  method FetchPlayerList(listPlayers: string -> Result<seq<PlayerRecord>, Error>, order: seq<string>)
    returns (lookup: map<string, nat>)
    ensures lookup == LookupOf(Gathered(listPlayers, order))
  {
    var playerList: seq<PlayerRecord> := [];
    var i := 0;
    while i < |order|
      invariant i <= |order|
      invariant playerList == Gathered(listPlayers, order[..i])
    {
      assert order[..i + 1][..i] == order[..i];
      match listPlayers(order[i]) {
        case Ok(v) => playerList := playerList + v;
        case Err(_) =>
      }
      i := i + 1;
    }
    assert order[..|order|] == order;
    lookup := BuildLookup(playerList);
  }

  /** Each player of a successful search is in the gathered list. */
  lemma {:induction false} GatheredHolds(listPlayers: string -> Result<seq<PlayerRecord>, Error>, searches: seq<string>,
                                         i: nat, p: PlayerRecord)
    requires i < |searches| && listPlayers(searches[i]).Ok? && p in listPlayers(searches[i]).value
    ensures p in Gathered(listPlayers, searches)
  {
    if i < |searches| - 1 {
      var init := searches[..|searches| - 1];
      assert init[i] == searches[i];
      GatheredHolds(listPlayers, init, i, p);
    }
  }

  /** Whatever order the searches complete in, as long as every prefix
      completes, each player returned by a successful search for any
      three-letter lowercase string is gathered. */
  lemma CompletionOrderHolds(listPlayers: string -> Result<seq<PlayerRecord>, Error>, order: seq<string>,
                             s: string, p: PlayerRecord)
    requires forall i :: 0 <= i < NUM_PREFIXES ==> Prefix(i) in order
    requires |s| == 3 && IsLowerWord(s) && listPlayers(s).Ok? && p in listPlayers(s).value
    ensures p in Gathered(listPlayers, order)
  {
    PrefixesComplete(s);
    var i :| 0 <= i < NUM_PREFIXES && Prefix(i) == s;
    assert s in order;
    var j :| 0 <= j < |order| && order[j] == s;
    GatheredHolds(listPlayers, order, j, p);
  }

  /** The prefixes completing in search order is one such order. */
  lemma SearchOrderComplete()
    ensures forall i :: 0 <= i < NUM_PREFIXES ==> Prefix(i) in Prefixes()
  {
    forall i | 0 <= i < NUM_PREFIXES
      ensures Prefix(i) in Prefixes()
    {
      assert Prefixes()[i] == Prefix(i);
    }
  }

  // ---------------------------------------------------------------------
  // Player-list merge in `update`
  // ---------------------------------------------------------------------

  /** The merged list after the loop has visited `order`: a name already
      present keeps its id, a new one is added with the fetched id. */
  function MergeOf<K>(known: map<K, nat>, fetched: map<K, nat>, order: seq<K>): map<K, nat>
    requires forall k :: k in order ==> k in fetched
  {
    if order == [] then known
    else
      var m := MergeOf(known, fetched, order[..|order| - 1]);
      var k := order[|order| - 1];
      if k in m then m else m[k := fetched[k]]
  }

  /** How many names the loop found new while visiting `order`. */
  function NewOf<K>(known: map<K, nat>, fetched: map<K, nat>, order: seq<K>): nat
    requires forall k :: k in order ==> k in fetched
  {
    if order == [] then 0
    else
      NewOf(known, fetched, order[..|order| - 1]) +
        (if order[|order| - 1] in MergeOf(known, fetched, order[..|order| - 1]) then 0 else 1)
  }

  /** The merge loop of `update`: walking the fetched lookup in its
      iteration order `order`, add every name not known yet and count it. */
  method MergePlayers<K>(known: map<K, nat>, fetched: map<K, nat>, order: seq<K>)
    returns (merged: map<K, nat>, numNew: nat)
    requires forall i, j :: 0 <= i < j < |order| ==> order[i] != order[j]
    requires forall k :: k in fetched <==> k in order
    ensures merged == fetched + known
    ensures numNew == NewOf(known, fetched, order)
  {
    merged := known;
    numNew := 0;
    var i := 0;
    while i < |order|
      invariant i <= |order|
      invariant merged == MergeOf(known, fetched, order[..i])
      invariant numNew == NewOf(known, fetched, order[..i])
    {
      assert order[..i + 1][..i] == order[..i];
      var k := order[i];
      if k !in merged {
        numNew := numNew + 1;
        merged := merged[k := fetched[k]];
      }
      i := i + 1;
    }
    assert order[..|order|] == order;
    MergeOfKeys(known, fetched, order);
    MergedIsUnion(known, fetched, merged);
  }

  /** The merged list holds the known names and the visited ones; a
      known name keeps its id. */
  lemma {:induction false} MergeOfKeys<K>(known: map<K, nat>, fetched: map<K, nat>, order: seq<K>)
    requires forall k :: k in order ==> k in fetched
    ensures forall k :: k in MergeOf(known, fetched, order) <==> k in known || k in order
    ensures forall k :: k in MergeOf(known, fetched, order) ==>
              MergeOf(known, fetched, order)[k] == if k in known then known[k] else fetched[k]
  {
    if order != [] {
      MergeOfKeys(known, fetched, order[..|order| - 1]);
      forall k ensures k in order <==> k in order[..|order| - 1] || k == order[|order| - 1] {
        assert order == order[..|order| - 1] + [order[|order| - 1]];
      }
    }
  }

  /** Over distinct names, the count is the number of names not known
      before. */
  lemma {:induction false} NewOfCount<K>(known: map<K, nat>, fetched: map<K, nat>, order: seq<K>, elems: set<K>)
    requires forall i, j :: 0 <= i < j < |order| ==> order[i] != order[j]
    requires forall k :: k in elems <==> k in order
    requires elems <= fetched.Keys
    ensures NewOf(known, fetched, order) == |elems - known.Keys|
  {
    if order != [] {
      var last := order[|order| - 1];
      var init := order[..|order| - 1];
      assert order == init + [last];
      ElemsInit(order, init, last, elems);
      NewOfCount(known, fetched, init, elems - {last});
      MergeOfKeys(known, fetched, init);
      assert elems == (elems - {last}) + {last};
      NewCount(elems - {last}, known.Keys, last);
    } else {
      assert elems - known.Keys == {};
    }
  }

  lemma ElemsInit<K>(order: seq<K>, init: seq<K>, last: K, elems: set<K>)
    requires order == init + [last]
    requires forall i, j :: 0 <= i < j < |order| ==> order[i] != order[j]
    requires forall k :: k in elems <==> k in order
    ensures forall k :: k in elems - {last} <==> k in init
  {
    forall k | k in init ensures k != last {
      var j :| 0 <= j < |init| && init[j] == k;
      assert order[j] == k && order[|init|] == last;
    }
  }

  lemma NewCount<K>(seen: set<K>, known: set<K>, k: K)
    requires k !in seen
    ensures |(seen + {k}) - known| == |seen - known| + (if k in known then 0 else 1)
  {
    if k in known {
      assert (seen + {k}) - known == seen - known;
    } else {
      assert (seen + {k}) - known == (seen - known) + {k};
    }
  }

  lemma MergedIsUnion<K>(known: map<K, nat>, fetched: map<K, nat>, merged: map<K, nat>)
    requires merged.Keys == known.Keys + fetched.Keys
    requires forall k :: k in merged ==> merged[k] == if k in known then known[k] else fetched[k]
    ensures merged == fetched + known
  {
  }

  /** A merge never overwrites a known name, keeps every fetched one, and
      grows the list by exactly the number of new names it reports. */
  lemma MergeKeeps<K>(known: map<K, nat>, fetched: map<K, nat>)
    ensures forall k :: k in known ==> k in fetched + known && (fetched + known)[k] == known[k]
    ensures forall k :: k in fetched && k !in known ==> (fetched + known)[k] == fetched[k]
    ensures |fetched + known| == |known| + |fetched.Keys - known.Keys|
  {
    var merged := fetched + known;
    assert merged.Keys == known.Keys + (fetched.Keys - known.Keys);
    assert known.Keys * (fetched.Keys - known.Keys) == {};
  }
}
