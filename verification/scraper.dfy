/** The deterministic bookkeeping of the API client in src/scraper.rs: the
    cache-key preimage, the parameters and error handling of one request,
    the worklist that refines a player search until no reply is full, and
    the paged enumeration of every ship. The HTTP exchange, JSON decoding,
    SHA-256 with its hex encoding, the throttle and the wall clock are
    parameters. */
module Scraper {
  import opened Wrappers
  import opened Errors
  import opened Numbers
  import opened WowsData
  import opened ProgressLogging
  import opened PlayerList

  /** A query parameter: a name and a value. */
  type Param = (string, string)

  // ---------------------------------------------------------------------
  // Cache key
  // ---------------------------------------------------------------------

  /** What `hash` appends to the URI: `_name_value` for each parameter, in
      the given order. */
  function Joined(params: seq<Param>): string {
    if params == [] then [] else Joined(params[..|params| - 1]) + Entry(params[|params| - 1])
  }

  /** What one parameter adds to the preimage. */
  function Entry(p: Param): string {
    "_" + p.0 + "_" + p.1
  }

  /** The suffix of a list of parameters is the suffixes of its parts. */
  lemma {:induction false} JoinedAppend(a: seq<Param>, b: seq<Param>)
    ensures Joined(a + b) == Joined(a) + Joined(b)
  {
    if b != [] {
      var b' := b[..|b| - 1];
      var last := b[|b| - 1];
      assert (a + b)[..|a + b| - 1] == a + b';
      assert (a + b)[|a + b| - 1] == last;
      JoinedAppend(a, b');
      assert Joined(a + b) == (Joined(a) + Joined(b')) + Entry(last);
      assert (Joined(a) + Joined(b')) + Entry(last) == Joined(a) + (Joined(b') + Entry(last));
    } else {
      assert a + b == a;
      assert Joined(a) + [] == Joined(a);
    }
  }

  /** Read from the front: the first parameter contributes `_name_value`,
      followed by the rest. */
  lemma JoinedFirst(p: Param, rest: seq<Param>)
    ensures Joined([p] + rest) == "_" + p.0 + "_" + p.1 + Joined(rest)
  {
    JoinedAppend([p], rest);
    assert [p][..0] == [];
  }

  /** The characters of the preimage: each parameter adds its name, its
      value and two separators. */
  function ParamsWidth(params: seq<Param>): nat {
    if params == [] then 0
    else ParamsWidth(params[..|params| - 1]) + 2 + |params[|params| - 1].0| + |params[|params| - 1].1|
  }

  lemma {:induction false} JoinedLength(params: seq<Param>)
    ensures |Joined(params)| == ParamsWidth(params)
  {
    if params != [] {
      JoinedLength(params[..|params| - 1]);
    }
  }

  /** `hash`: the URI with `_name_value` pushed for each parameter, then
      digested (SHA-256 and hex encoding are the parameter `digest`). */
  method Hash(uri: string, params: seq<Param>, digest: string -> string) returns (h: string)
    ensures h == digest(uri + Joined(params))
  {
    var s := uri;
    var i := 0;
    while i < |params|
      invariant i <= |params|
      invariant s == uri + Joined(params[..i])
    {
      assert params[..i + 1][..i] == params[..i];
      ghost var before := s;
      s := s + "_";
      s := s + params[i].0;
      s := s + "_";
      s := s + params[i].1;
      assert s == before + Entry(params[i]);
      i := i + 1;
    }
    assert params[..|params|] == params;
    h := digest(s);
  }

  // ---------------------------------------------------------------------
  // One request
  // ---------------------------------------------------------------------

  /** The result of a request whose HTTP exchange gave `body`: a transport
      error is passed on, text that does not decode is a JSON error. */
  function Requested<T>(body: Result<string, Error>, parse: string -> Option<T>): (r: Result<T, Error>)
    ensures r.Ok? <==> body.Ok? && parse(body.value).Some?
    ensures r.Ok? ==> r.value == parse(body.value).value
    ensures body.Err? ==> r == Err(body.error)
    ensures body.Ok? && parse(body.value).None? ==> r == Err(Serde)
  {
    match body
    case Err(e) => Err(e)
    case Ok(text) =>
      match parse(text)
      case Some(x) => Ok(x)
      case None => Err(Serde)
  }

  /** The API client. Its request counter is shared by every fork. */
  class WowsClient {
    const applicationId: string
    const logger: ProgressLogger

    /** `WowsClient::new`, at time `now`: a fresh counter tagged
        "api_requests". */
    constructor (applicationId: string, now: real)
      ensures this.applicationId == applicationId
      ensures fresh(logger) && logger.Valid()
      ensures logger.tagline == "api_requests" && logger.total == 0 && logger.target == None
    {
      this.applicationId := applicationId;
      logger := new ProgressLogger("api_requests", now);
    }

    /** `fork`: a new client with the same key and the same counter. */
    method Fork() returns (c: WowsClient)
      ensures fresh(c) && c.applicationId == applicationId && c.logger == logger
    {
      c := new WowsClient.Share(applicationId, logger);
    }

    constructor Share(applicationId: string, logger: ProgressLogger)
      ensures this.applicationId == applicationId && this.logger == logger
    {
      this.applicationId := applicationId;
      this.logger := logger;
    }

    /** `request`: the caller's parameters followed by the application id
        are sent to `uri` (`send` is the HTTP exchange); a decoded reply is
        counted once on the shared counter at time `now`. */
    method Request<T>(uri: string, params: seq<Param>, send: (string, seq<Param>) -> Result<string, Error>,
                      parse: string -> Option<T>, now: real)
      returns (r: Result<T, Error>, form: seq<Param>)
      requires logger.Valid()
      modifies logger
      ensures logger.Valid()
      ensures form == params + [("application_id", applicationId)]
      ensures r == Requested(send(uri, form), parse)
      ensures r.Ok? ==> logger.total == old(logger.total) + 1
      ensures r.Err? ==> logger.total == old(logger.total) && logger.itemCount == old(logger.itemCount)
      ensures r.Err? ==> logger.lastReportTime == old(logger.lastReportTime)
      ensures logger.tagline == old(logger.tagline) && logger.target == old(logger.target)
    {
      form := params + [("application_id", applicationId)];
      var body := send(uri, form);
      if body.Err? {
        return Err(body.error), form;
      }
      match parse(body.value) {
        case Some(x) =>
          var _ := logger.Increment(1, now);
          r := Ok(x);
        case None =>
          r := Err(Serde);
      }
    }
  }

  /** The parameters of a request always end with the application id, and
      the caller's parameters come first, unchanged. */
  lemma FormShape(params: seq<Param>, applicationId: string)
    ensures var form := params + [("application_id", applicationId)];
            |form| == |params| + 1 && form[..|params|] == params && form[|params|] == ("application_id", applicationId)
  {
  }

  // ---------------------------------------------------------------------
  // Player search refinement
  // ---------------------------------------------------------------------

  /** A reply holding this many players may have been cut short. */
  const FULL_REPLY: nat := 100

  /** The searches that refine `s`: `s` extended by each lowercase letter,
      in alphabetical order. */
  function Children(s: string): (c: seq<string>)
    ensures |c| == 26
  {
    seq(26, k requires 0 <= k < 26 => s + [ALPHABET[k]])
  }

  /** Each refinement is one letter longer than `s`, starts with `s`, and
      they come from 'a' to 'z'. */
  lemma ChildrenShape(s: string)
    ensures forall k :: 0 <= k < 26 ==> Children(s)[k] == s + [Letter(k)]
    ensures forall k :: 0 <= k < 26 ==> |Children(s)[k]| == |s| + 1 && s <= Children(s)[k]
  {
    AlphabetLetters();
  }

  /** The assumption under which `list_players` stops: no search of length
      `depth` or more gets a full reply. */
  ghost predicate Bounded(lookup: string -> Result<seq<PlayerRecord>, Error>, depth: nat) {
    forall s: string :: |s| >= depth && lookup(s).Ok? ==> |lookup(s).value| != FULL_REPLY
  }

  /** The termination measure: a search of length below `depth` weighs more
      than all 26 of its refinements together. */
  function Weight(len: nat, depth: nat): (w: nat)
    ensures w >= 1
    decreases depth - len
  {
    if len >= depth then 1 else 27 * Weight(len + 1, depth)
  }

  function Load(queue: seq<string>, depth: nat): nat {
    if queue == [] then 0 else Weight(|queue[0]|, depth) + Load(queue[1..], depth)
  }

  lemma {:induction false} LoadAppend(a: seq<string>, b: seq<string>, depth: nat)
    ensures Load(a + b, depth) == Load(a, depth) + Load(b, depth)
  {
    if a != [] {
      assert (a + b)[1..] == a[1..] + b;
      assert (a + b)[0] == a[0];
      LoadAppend(a[1..], b, depth);
      assert Load(a + b, depth) == Weight(|a[0]|, depth) + Load(a[1..] + b, depth);
    } else {
      assert a + b == b;
    }
  }

  lemma {:induction false} LoadUniform(queue: seq<string>, len: nat, depth: nat)
    requires forall i :: 0 <= i < |queue| ==> |queue[i]| == len
    ensures Load(queue, depth) == |queue| * Weight(len, depth)
  {
    if queue != [] {
      LoadUniform(queue[1..], len, depth);
    }
  }

  /** Replacing a search shorter than `depth` by its refinements lowers the
      load. */
  lemma RefineLowersLoad(queue: seq<string>, depth: nat)
    requires queue != [] && |queue[0]| < depth
    ensures Load(queue[1..] + Children(queue[0]), depth) < Load(queue, depth)
  {
    ChildrenShape(queue[0]);
    LoadUniform(Children(queue[0]), |queue[0]| + 1, depth);
    LoadAppend(queue[1..], Children(queue[0]), depth);
  }

  /** What `list_players` returns for the worklist `queue`: searches are
      taken first in, first out; a full reply adds the refinements of its
      search to the end of the worklist, any other reply is appended to the
      result, and the first error ends the whole search with that error. */
  ghost function Explore(queue: seq<string>, lookup: string -> Result<seq<PlayerRecord>, Error>, depth: nat)
    : Result<seq<PlayerRecord>, Error>
    requires Bounded(lookup, depth)
    decreases Load(queue, depth)
  {
    if queue == [] then Ok([])
    else
      match lookup(queue[0])
      case Err(e) => Err(e)
      case Ok(reply) =>
        if |reply| == FULL_REPLY then
          RefineLowersLoad(queue, depth);
          Explore(queue[1..] + Children(queue[0]), lookup, depth)
        else
          match Explore(queue[1..], lookup, depth)
          case Err(e) => Err(e)
          case Ok(rest) => Ok(reply + rest)
  }

  /** `result` in front of what is still to come. */
  function Prepend(result: seq<PlayerRecord>, rest: Result<seq<PlayerRecord>, Error>): Result<seq<PlayerRecord>, Error> {
    match rest
    case Err(e) => Err(e)
    case Ok(more) => Ok(result + more)
  }

  lemma RefinedTail(searches: seq<string>, i: nat, s: string)
    requires i < |searches|
    ensures (searches + Children(s))[i + 1..] == searches[i + 1..] + Children(s)
    ensures searches[i..][1..] == searches[i + 1..]
  {
  }

  /** The refinements of `s`, appended one letter at a time, as the inner
      loop of `list_players` pushes them. */
  method PushChildren(searches: seq<string>, s: string) returns (r: seq<string>)
    ensures r == searches + Children(s)
  {
    r := searches;
    var k := 0;
    while k < 26
      invariant k <= 26
      invariant r == searches + Children(s)[..k]
    {
      assert Children(s)[..k + 1] == Children(s)[..k] + [s + [ALPHABET[k]]];
      r := r + [s + [ALPHABET[k]]];
      k := k + 1;
    }
    assert Children(s)[..26] == Children(s);
  }

  /** `list_players` with the helper `lookup` (one search request): the
      worklist loop over `searches`. The ghost `depth` bounds the length of
      the searches that may still get a full reply. */
  method ListPlayers(search: string, lookup: string -> Result<seq<PlayerRecord>, Error>, ghost depth: nat)
    returns (r: Result<seq<PlayerRecord>, Error>)
    requires Bounded(lookup, depth)
    ensures r == Explore([search], lookup, depth)
  {
    var searches := [search];
    var i := 0;
    var result: seq<PlayerRecord> := [];
    assert searches[i..] == [search];
    ghost var whole := Explore([search], lookup, depth);
    assert whole.Ok? ==> [] + whole.value == whole.value;
    while i < |searches|
      invariant i <= |searches|
      invariant Explore([search], lookup, depth) == Prepend(result, Explore(searches[i..], lookup, depth))
      decreases Load(searches[i..], depth)
    {
      var reply := lookup(searches[i]);
      if reply.Err? {
        return Err(reply.error);
      }
      RefinedTail(searches, i, searches[i]);
      if |reply.value| == FULL_REPLY {
        RefineLowersLoad(searches[i..], depth);
        searches := PushChildren(searches, searches[i]);
      } else {
        ghost var rest := Explore(searches[i + 1..], lookup, depth);
        assert rest.Ok? ==> result + (reply.value + rest.value) == (result + reply.value) + rest.value;
        result := result + reply.value;
      }
      i := i + 1;
    }
    assert searches[i..] == [];
    assert result + [] == result;
    r := Ok(result);
  }

  /** A search succeeds only when every search in its worklist succeeds. */
  lemma {:induction false} ExploreFailsOnError(queue: seq<string>, lookup: string -> Result<seq<PlayerRecord>, Error>,
                                              depth: nat, j: nat)
    requires Bounded(lookup, depth)
    requires j < |queue| && lookup(queue[j]).Err?
    ensures Explore(queue, lookup, depth).Err?
    decreases Load(queue, depth)
  {
    if j > 0 && lookup(queue[0]).Ok? {
      var reply := lookup(queue[0]).value;
      {
        if |reply| == FULL_REPLY {
          RefineLowersLoad(queue, depth);
          assert (queue[1..] + Children(queue[0]))[j - 1] == queue[j];
          ExploreFailsOnError(queue[1..] + Children(queue[0]), lookup, depth, j - 1);
        } else {
          ExploreFailsOnError(queue[1..], lookup, depth, j - 1);
        }
      }
    }
  }

  /** Every player returned came from a reply that was not full, to a
      search that starts with one of the searches in the worklist. */
  lemma {:induction false} ExploreSound(queue: seq<string>, lookup: string -> Result<seq<PlayerRecord>, Error>,
                                       depth: nat, p: PlayerRecord)
    requires Bounded(lookup, depth)
    requires Explore(queue, lookup, depth).Ok? && p in Explore(queue, lookup, depth).value
    ensures exists s, j :: 0 <= j < |queue| && queue[j] <= s && lookup(s).Ok? &&
                           |lookup(s).value| != FULL_REPLY && p in lookup(s).value
    decreases Load(queue, depth)
  {
    var reply := lookup(queue[0]).value;
    if |reply| == FULL_REPLY {
      var next := queue[1..] + Children(queue[0]);
      RefineLowersLoad(queue, depth);
      ExploreSound(next, lookup, depth, p);
      var s, j :| 0 <= j < |next| && next[j] <= s && lookup(s).Ok? &&
                  |lookup(s).value| != FULL_REPLY && p in lookup(s).value;
      if j < |queue| - 1 {
        assert queue[j + 1] <= s;
      } else {
        ChildrenShape(queue[0]);
        assert queue[0] <= next[j];
        assert queue[0] <= s;
      }
    } else if p in reply {
      assert queue[0] <= queue[0];
    } else {
      ExploreSound(queue[1..], lookup, depth, p);
      var s, j :| 0 <= j < |queue[1..]| && queue[1..][j] <= s && lookup(s).Ok? &&
                  |lookup(s).value| != FULL_REPLY && p in lookup(s).value;
      assert queue[j + 1] <= s;
    }
  }

  /** The replies to the searches of `queue`, in order. */
  function Replies(queue: seq<string>, lookup: string -> Result<seq<PlayerRecord>, Error>): seq<PlayerRecord> {
    if queue == [] then []
    else (match lookup(queue[0]) case Ok(reply) => reply case Err(_) => []) + Replies(queue[1..], lookup)
  }

  /** When no search in the worklist fails or gets a full reply, the result
      is their replies concatenated in worklist order. */
  lemma {:induction false} ExploreFlat(queue: seq<string>, lookup: string -> Result<seq<PlayerRecord>, Error>, depth: nat)
    requires Bounded(lookup, depth)
    requires forall j :: 0 <= j < |queue| ==> lookup(queue[j]).Ok? && |lookup(queue[j]).value| != FULL_REPLY
    ensures Explore(queue, lookup, depth) == Ok(Replies(queue, lookup))
    decreases Load(queue, depth)
  {
    if queue != [] {
      assert forall j :: 0 <= j < |queue[1..]| ==> queue[1..][j] == queue[j + 1];
      ExploreFlat(queue[1..], lookup, depth);
    }
  }

  /** A search whose reply is not full returns exactly that reply. */
  lemma SingleSearch(search: string, lookup: string -> Result<seq<PlayerRecord>, Error>, depth: nat)
    requires Bounded(lookup, depth)
    requires lookup(search).Ok? && |lookup(search).value| != FULL_REPLY
    ensures Explore([search], lookup, depth) == Ok(lookup(search).value)
  {
    ExploreFlat([search], lookup, depth);
    assert [search][1..] == [];
    assert lookup(search).value + [] == lookup(search).value;
    assert Replies([search], lookup) == lookup(search).value + Replies([], lookup);
  }

  // ---------------------------------------------------------------------
  // Ship enumeration
  // ---------------------------------------------------------------------

  /** A reply of the ship encyclopedia: its paging metadata and its entries,
      keyed by the ship id as text, in the order the decoded map yields
      them. */
  datatype ShipsReply = ShipsReply(meta: ReplyMeta, data: seq<(string, Option<ShipInfo>)>)

  /** The parameters that request page `page`. */
  function PageParams(page: nat): (p: seq<Param>)
    ensures |p| == 1 && p[0].0 == "page_no"
    ensures page <= U64_MAX ==> ParseU64(p[0].1) == Some(page)
  {
    if page <= U64_MAX then
      ParseDecimalRoundTrip(page);
      [("page_no", DecimalString(page))]
    else
      [("page_no", DecimalString(page))]
  }

  /** Different pages are requested with different parameters. */
  lemma PageParamsInjective(p: nat, q: nat)
    requires PageParams(p) == PageParams(q)
    ensures p == q
  {
    DecimalInjective(p, q);
  }

  /** `m` after inserting the entries of one page in order: `None` entries
      are skipped, a present entry whose key is not a number panics, and a
      later entry overwrites an earlier one with the same id. */
  function Inserted(m: map<nat, ShipInfo>, data: seq<(string, Option<ShipInfo>)>): Outcome<map<nat, ShipInfo>> {
    if data == [] then Value(m)
    else
      match Inserted(m, data[..|data| - 1])
      case Panic(reason) => Panic(reason)
      case Value(m') =>
        var (k, v) := data[|data| - 1];
        match v
        case None => Value(m')
        case Some(info) =>
          match ParseU64(k)
          case None => Panic(UNWRAP_ERR)
          case Some(id) => Value(m'[id := info])
  }

  /** An entry that `Inserted` turns into a map entry. */
  predicate Present(entry: (string, Option<ShipInfo>)) {
    entry.1.Some?
  }

  /** The insertion loop over one page. */
  method InsertReply(m: map<nat, ShipInfo>, data: seq<(string, Option<ShipInfo>)>) returns (r: Outcome<map<nat, ShipInfo>>)
    ensures r == Inserted(m, data)
  {
    var result := m;
    var i := 0;
    while i < |data|
      invariant i <= |data|
      invariant Inserted(m, data[..i]) == Value(result)
    {
      assert data[..i + 1][..i] == data[..i];
      match data[i].1 {
        case None =>
        case Some(info) =>
          match ParseU64(data[i].0) {
            case None =>
              InsertedPanicStays(m, data, i + 1);
              return Panic(UNWRAP_ERR);
            case Some(id) =>
              result := result[id := info];
          }
      }
      i := i + 1;
    }
    assert data[..|data|] == data;
    r := Value(result);
  }

  /** Once a page's insertion panics, the rest of the page does not matter. */
  lemma {:induction false} InsertedPanicStays(m: map<nat, ShipInfo>, data: seq<(string, Option<ShipInfo>)>, i: nat)
    requires i <= |data| && Inserted(m, data[..i]).Panic?
    ensures Inserted(m, data) == Panic(Inserted(m, data[..i]).reason)
    decreases |data| - i
  {
    if i < |data| {
      assert data[..i + 1][..i] == data[..i];
      InsertedPanicStays(m, data, i + 1);
    } else {
      assert data[..i] == data;
    }
  }

  /** Insertion panics exactly when a present entry's key is not a
      64-bit number. */
  lemma {:induction false} InsertedPanics(m: map<nat, ShipInfo>, data: seq<(string, Option<ShipInfo>)>)
    ensures Inserted(m, data).Panic? <==> exists j :: 0 <= j < |data| && Present(data[j]) && ParseU64(data[j].0).None?
    ensures Inserted(m, data).Panic? ==> Inserted(m, data).reason == UNWRAP_ERR
  {
    if data != [] {
      var init := data[..|data| - 1];
      InsertedPanics(m, init);
      assert forall j :: 0 <= j < |init| ==> init[j] == data[j];
    }
  }

  /** After insertion, the ids are the old ones and those of the present
      entries. */
  lemma {:induction false} InsertedKeys(m: map<nat, ShipInfo>, data: seq<(string, Option<ShipInfo>)>)
    requires Inserted(m, data).Value?
    ensures forall id :: id in Inserted(m, data).value <==>
              id in m || exists j :: 0 <= j < |data| && Present(data[j]) && ParseU64(data[j].0) == Some(id)
  {
    if data != [] {
      var init := data[..|data| - 1];
      InsertedKeys(m, init);
      assert forall j :: 0 <= j < |init| ==> init[j] == data[j];
    }
  }

  /** The stored information for an id is that of the last present entry
      with that id. */
  lemma {:induction false} InsertedLastWins(m: map<nat, ShipInfo>, data: seq<(string, Option<ShipInfo>)>, j: nat)
    requires Inserted(m, data).Value?
    requires j < |data| && Present(data[j]) && ParseU64(data[j].0).Some?
    requires forall l :: j < l < |data| && Present(data[l]) ==> ParseU64(data[l].0) != ParseU64(data[j].0)
    ensures ParseU64(data[j].0).value in Inserted(m, data).value
    ensures Inserted(m, data).value[ParseU64(data[j].0).value] == data[j].1.value
  {
    if j < |data| - 1 {
      var init := data[..|data| - 1];
      assert init[j] == data[j];
      assert forall l :: j < l < |init| ==> init[l] == data[l];
      InsertedLastWins(m, init, j);
    }
  }

  /** Inserting two runs of entries is inserting the first, then the
      second. */
  lemma {:induction false} InsertedAppend(m: map<nat, ShipInfo>, a: seq<(string, Option<ShipInfo>)>,
                                         b: seq<(string, Option<ShipInfo>)>)
    ensures Inserted(m, a + b) == (match Inserted(m, a) case Panic(reason) => Panic(reason)
                                                     case Value(m') => Inserted(m', b))
  {
    if b != [] {
      var b' := b[..|b| - 1];
      assert (a + b)[..|a + b| - 1] == a + b';
      assert (a + b)[|a + b| - 1] == b[|b| - 1];
      InsertedAppend(m, a, b');
      match Inserted(m, a) {
        case Panic(reason) =>
          assert Inserted(m, a + b') == Panic(reason);
        case Value(m') =>
          assert Inserted(m, a + b') == Inserted(m', b');
          assert b[..|b| - 1] == b';
      }
    } else {
      assert a + b == a;
    }
  }

  /** The enumeration after pages 2 to `last`, starting from the map `m`
      built from page 1; a request error ends it with that error. */
  function Paged(m: map<nat, ShipInfo>, last: nat, fetch: seq<Param> -> Result<ShipsReply, Error>)
    : Outcome<Result<map<nat, ShipInfo>, Error>>
  {
    if last <= 1 then Value(Ok(m))
    else
      var before := Paged(m, last - 1, fetch);
      if before.Value? && before.value.Ok? then PageStep(before.value.value, last, fetch) else before
  }

  /** Page `page` requested and its entries inserted into `m`. */
  function PageStep(m: map<nat, ShipInfo>, page: nat, fetch: seq<Param> -> Result<ShipsReply, Error>)
    : Outcome<Result<map<nat, ShipInfo>, Error>>
  {
    match fetch(PageParams(page))
    case Err(e) => Value(Err(e))
    case Ok(reply) =>
      match Inserted(m, reply.data)
      case Panic(reason) => Panic(reason)
      case Value(m') => Value(Ok(m'))
  }

  /** What `enumerate_ships` returns with `fetch` as the request for a
      page: page 1 is requested and inserted, its missing page count
      panics, and pages 2 to the page count follow. */
  function Enumerated(fetch: seq<Param> -> Result<ShipsReply, Error>): Outcome<Result<map<nat, ShipInfo>, Error>> {
    match fetch(PageParams(1))
    case Err(e) => Value(Err(e))
    case Ok(first) =>
      match Inserted(map[], first.data)
      case Panic(reason) => Panic(reason)
      case Value(m) =>
        match first.meta.pageTotal
        case None => Panic(UNWRAP_NONE)
        case Some(total) => Paged(m, total, fetch)
  }

  /** The loop of `enumerate_ships` over pages 2 to `total`, starting from
      the map `m` built from page 1. */
  method FetchPages(m: map<nat, ShipInfo>, total: nat, fetch: seq<Param> -> Result<ShipsReply, Error>)
    returns (r: Outcome<Result<map<nat, ShipInfo>, Error>>)
    ensures r == Paged(m, total, fetch)
  {
    var result := m;
    var page := 2;
    while page < total + 1
      invariant 2 <= page && (page <= total + 1 || page == 2)
      invariant Paged(m, page - 1, fetch) == Value(Ok(result))
    {
      var next := fetch(PageParams(page));
      if next.Err? {
        PagedFinal(m, page, total, fetch);
        return Value(Err(next.error));
      }
      var inserted := InsertReply(result, next.value.data);
      if inserted.Panic? {
        PagedFinal(m, page, total, fetch);
        return Panic(inserted.reason);
      }
      result := inserted.value;
      page := page + 1;
    }
    r := Value(Ok(result));
  }

  /** `enumerate_ships`: page 1, its page count, then the other pages. */
  method EnumerateShips(fetch: seq<Param> -> Result<ShipsReply, Error>) returns (r: Outcome<Result<map<nat, ShipInfo>, Error>>)
    ensures r == Enumerated(fetch)
  {
    var reply := fetch(PageParams(1));
    if reply.Err? {
      return Value(Err(reply.error));
    }
    var first := InsertReply(map[], reply.value.data);
    if first.Panic? {
      return Panic(first.reason);
    }
    if reply.value.meta.pageTotal.None? {
      return Panic(UNWRAP_NONE);
    }
    r := FetchPages(first.value, reply.value.meta.pageTotal.value, fetch);
  }

  /** The entries of pages 2 to `last`, one page after another. */
  function PagesData(last: nat, fetch: seq<Param> -> Result<ShipsReply, Error>): seq<(string, Option<ShipInfo>)> {
    if last <= 1 then []
    else PagesData(last - 1, fetch) + (match fetch(PageParams(last)) case Ok(reply) => reply.data case Err(_) => [])
  }

  /** A completed run over pages 2 to `last` requested each of them without
      error and holds the insertion of all their entries in page order, so
      a later page overwrites an earlier one. */
  lemma {:induction false} PagedInsertsAll(m: map<nat, ShipInfo>, last: nat, fetch: seq<Param> -> Result<ShipsReply, Error>)
    requires Paged(m, last, fetch).Value? && Paged(m, last, fetch).value.Ok?
    ensures forall p :: 2 <= p <= last ==> fetch(PageParams(p)).Ok?
    ensures Inserted(m, PagesData(last, fetch)) == Value(Paged(m, last, fetch).value.value)
  {
    if last > 1 {
      var before := Paged(m, last - 1, fetch);
      assert before.Value? && before.value.Ok?;
      var reply := fetch(PageParams(last)).value;
      PagedInsertsAll(m, last - 1, fetch);
      PagedStep(m, last, fetch);
      assert PagesData(last, fetch) == PagesData(last - 1, fetch) + reply.data;
      InsertedAppend(m, PagesData(last - 1, fetch), reply.data);
    }
  }

  /** One more page: the map so far with that page's entries inserted. */
  lemma PagedStep(m: map<nat, ShipInfo>, last: nat, fetch: seq<Param> -> Result<ShipsReply, Error>)
    requires last > 1 && Paged(m, last, fetch).Value? && Paged(m, last, fetch).value.Ok?
    ensures Paged(m, last - 1, fetch).Value? && Paged(m, last - 1, fetch).value.Ok?
    ensures fetch(PageParams(last)).Ok?
    ensures Inserted(Paged(m, last - 1, fetch).value.value, fetch(PageParams(last)).value.data)
            == Value(Paged(m, last, fetch).value.value)
  {
  }

  /** A completed enumeration holds the insertion of every entry of every
      page, page 1 first: the ids are those of the present entries, and for
      an id on several pages the last page wins. */
  lemma EnumeratedInsertsAll(fetch: seq<Param> -> Result<ShipsReply, Error>)
    requires Enumerated(fetch).Value? && Enumerated(fetch).value.Ok?
    ensures fetch(PageParams(1)).Ok? && fetch(PageParams(1)).value.meta.pageTotal.Some?
    ensures var total := fetch(PageParams(1)).value.meta.pageTotal.value;
            (forall p :: 2 <= p <= total ==> fetch(PageParams(p)).Ok?) &&
            Inserted(map[], fetch(PageParams(1)).value.data + PagesData(total, fetch)) == Value(Enumerated(fetch).value.value)
  {
    var first := fetch(PageParams(1)).value;
    var m := Inserted(map[], first.data).value;
    PagedInsertsAll(m, first.meta.pageTotal.value, fetch);
    InsertedAppend(map[], first.data, PagesData(first.meta.pageTotal.value, fetch));
  }

  /** A first page without a page count panics once its entries are in. */
  lemma MissingPageTotalPanics(fetch: seq<Param> -> Result<ShipsReply, Error>)
    requires fetch(PageParams(1)).Ok? && fetch(PageParams(1)).value.meta.pageTotal.None?
    ensures Enumerated(fetch).Panic?
  {
  }

  /** A run that has ended with an error or a panic by page `p` ends that
      way, whatever the later pages hold. */
  lemma {:induction false} PagedFinal(m: map<nat, ShipInfo>, p: nat, last: nat, fetch: seq<Param> -> Result<ShipsReply, Error>)
    requires p <= last && !(Paged(m, p, fetch).Value? && Paged(m, p, fetch).value.Ok?)
    ensures Paged(m, last, fetch) == Paged(m, p, fetch)
    decreases last - p
  {
    if p < last {
      PagedFinal(m, p, last - 1, fetch);
    }
  }

  /** An error on any page requested ends the enumeration without a map. */
  lemma PagedStopsOnError(m: map<nat, ShipInfo>, last: nat, fetch: seq<Param> -> Result<ShipsReply, Error>, p: nat)
    requires 2 <= p <= last && fetch(PageParams(p)).Err?
    ensures Paged(m, last, fetch).Panic? || Paged(m, last, fetch).value.Err?
  {
    PagedFinal(m, p, last, fetch);
  }
}
