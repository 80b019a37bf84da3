/** The pipeline of api/main.py: resolving a profile link to an account id,
    joining an inventory's assets with their descriptions, looking up a
    market price with retries, attaching prices to items, and reading a price
    string as a number. Every request is an oracle argument: `page` answers
    the profile-page request for a URL, `inventory` the inventory request for
    a URL, and `prices` the price requests for an item name, attempt by
    attempt. */
module SteamApi {
  import opened Wrappers
  import opened Text
  import opened Decimal
  import opened Patterns
  import opened Upstream

  const AppId: int := 730
  const ContextId: int := 2
  const DefaultRetries: int := 3

  // ---------------------------------------------------------------------------
  // Account id resolution
  // ---------------------------------------------------------------------------

  /** `re.match(r"^/profiles/(\d+)/?$", path)`, giving `group(1)`. */
  function DirectProfileId(path: string): (r: Option<string>)
    ensures r.Some? ==> r.value != [] && AllDigits(r.value)
    ensures r.Some? ==> path == ProfilesPrefix + r.value || path == ProfilesPrefix + r.value + "/"
  {
    if !LiteralAt(path, 0, ProfilesPrefix) then None
    else
      var n := RunLength(path, 10, IsDigit);
      RunLengthRun(path, 10, IsDigit);
      if n == 0 then None
      else if 10 + n == |path| then
        SplitProfilePath(path, n, false);
        Some(path[10..10 + n])
      else if 11 + n == |path| && path[10 + n] == '/' then
        SplitProfilePath(path, n, true);
        Some(path[10..10 + n])
      else None
  }

  /** A path that starts with the prefix and ends after the digits (and an
      optional slash) is the concatenation of those pieces. */
  lemma SplitProfilePath(path: string, n: nat, slash: bool)
    requires LiteralAt(path, 0, ProfilesPrefix)
    requires |path| == 10 + n + (if slash then 1 else 0)
    requires slash ==> path[10 + n] == '/'
    ensures !slash ==> path == ProfilesPrefix + path[10..10 + n]
    ensures slash ==> path == ProfilesPrefix + path[10..10 + n] + "/"
  {
    var rhs := if slash then ProfilesPrefix + path[10..10 + n] + "/" else ProfilesPrefix + path[10..10 + n];
    assert |rhs| == |path|;
    forall k | 0 <= k < |path| ensures rhs[k] == path[k] {
      if k < 10 {
        assert path[k] == path[..10][k];
      }
    }
  }

  /** Every path of the form `/profiles/<digits>` or `/profiles/<digits>/` is
      recognised, with exactly those digits. */
  lemma DirectProfileIdComplete(path: string, d: string)
    requires d != [] && AllDigits(d)
    requires path == ProfilesPrefix + d || path == ProfilesPrefix + d + "/"
    ensures DirectProfileId(path) == Some(d)
  {
    assert LiteralAt(path, 0, ProfilesPrefix) by {
      assert path[..10] == ProfilesPrefix;
    }
    assert LiteralAt(path, 10, d) by {
      assert path[10..10 + |d|] == d;
    }
    RunLengthExact(path, 10, d, IsDigit);
  }

  /** `get_steamid64_from_profile_url`: the id from the link's path when it is
      a direct profile path; otherwise the profile page at `profileUrl` is
      fetched (`page(profileUrl)`) and the first `"steamid": "<digits>"`
      field in its body is taken. */
  function ResolveSteamId(profileUrl: string, path: string, page: string -> PageFetch): (r: Result<string, Error>)
    ensures DirectProfileId(path).Some? ==> r == Ok(DirectProfileId(path).value)
    ensures r.Ok? ==> r.value != [] && AllDigits(r.value)
    ensures r == Err(HttpError) <==> DirectProfileId(path).None? && page(profileUrl).PageFailed?
    ensures r == Err(SteamIdNotFound) <==>
      DirectProfileId(path).None? && page(profileUrl).PageOk? && Search(SteamIdField, page(profileUrl).body).None?
    ensures r.Ok? && DirectProfileId(path).None? ==>
      page(profileUrl).PageOk? && Search(SteamIdField, page(profileUrl).body) == Some(r.value)
  {
    match DirectProfileId(path)
    case Some(id) => Ok(id)
    case None =>
      match page(profileUrl)
      case PageFailed => Err(HttpError)
      case PageOk(body) =>
        match Search(SteamIdField, body)
        case Some(id) => Ok(id)
        case None => Err(SteamIdNotFound)
  }

  /** A direct profile path never consults the page oracle: any two oracles
      give the same answer. */
  lemma DirectIdNeedsNoFetch(profileUrl: string, path: string, page1: string -> PageFetch, page2: string -> PageFetch)
    requires DirectProfileId(path).Some?
    ensures ResolveSteamId(profileUrl, path, page1) == ResolveSteamId(profileUrl, path, page2)
  {
  }

  const InventoryHost: string := "https://steamcommunity.com/inventory/"
  const InventoryQuery: string := "?l=english&count=2000"

  /** The inventory endpoint for an account: host, id, application id,
      context id, then the English-locale and 2000-item query. */
  function InventoryUrl(steamId: string, appId: int, contextId: int): string {
    InventoryHost + steamId + InventoryPath(appId, contextId)
  }

  /** What follows the account id: `/<app id>/<context id>` and the query. */
  function InventoryPath(appId: int, contextId: int): (tail: string)
    ensures tail != [] && tail[0] == '/'
  {
    "/" + IntToDecimal(appId) + "/" + IntToDecimal(contextId) + InventoryQuery
  }

  /** The pieces of `a + b + c` sit at the offsets their lengths give. */
  lemma ConcatPieces(a: string, b: string, c: string)
    ensures LiteralAt(a + b + c, 0, a) && LiteralAt(a + b + c, |a|, b)
    ensures c != [] ==> CharAt(a + b + c, |a| + |b|, c[0])
  {
    var x := a + b + c;
    assert x[..|a|] == a;
    assert x[|a|..|a| + |b|] == b;
  }

  /** The account id can be read back from an inventory URL: it is the digit
      run right after the host. */
  lemma InventoryUrlSteamId(steamId: string, appId: int, contextId: int)
    requires AllDigits(steamId)
    ensures var url := InventoryUrl(steamId, appId, contextId);
      LiteralAt(url, 0, InventoryHost) && LiteralAt(url, |InventoryHost|, steamId)
      && RunLength(url, |InventoryHost|, IsDigit) == |steamId|
  {
    var tail := InventoryPath(appId, contextId);
    var url := InventoryHost + steamId + tail;
    ConcatPieces(InventoryHost, steamId, tail);
    RunLengthExact(url, |InventoryHost|, steamId, IsDigit);
  }

  /** Distinct account ids give distinct inventory URLs. */
  lemma InventoryUrlInjective(id1: string, id2: string, appId: int, contextId: int)
    requires AllDigits(id1) && AllDigits(id2)
    requires InventoryUrl(id1, appId, contextId) == InventoryUrl(id2, appId, contextId)
    ensures id1 == id2
  {
    InventoryUrlSteamId(id1, appId, contextId);
    InventoryUrlSteamId(id2, appId, contextId);
  }

  /** `build_inventory_url`: resolve, then format. */
  function BuildInventoryUrl(profileUrl: string, path: string, page: string -> PageFetch, appId: int, contextId: int)
    : (r: Result<string, Error>)
    ensures r.Err? <==> ResolveSteamId(profileUrl, path, page).Err?
    ensures r.Err? ==> r.error == ResolveSteamId(profileUrl, path, page).error
    ensures r.Ok? ==> r.value == InventoryUrl(ResolveSteamId(profileUrl, path, page).value, appId, contextId)
  {
    match ResolveSteamId(profileUrl, path, page)
    case Ok(id) => Ok(InventoryUrl(id, appId, contextId))
    case Err(e) => Err(e)
  }

  // ---------------------------------------------------------------------------
  // Inventory join
  // ---------------------------------------------------------------------------

  /** How an f-string prints `d.get('classid')`: a missing key prints "None". */
  function KeyPart(v: Option<string>): string {
    match v
    case Some(s) => s
    case None => "None"
  }

  /** `f"{classid}_{instanceid}"`, with "0" for a missing instance id. */
  function CompositeKey(classid: Option<string>, instanceid: Option<string>): string {
    KeyPart(classid) + "_" + instanceid.GetOr("0")
  }

  function DescKey(d: Description): string {
    CompositeKey(d.classid, d.instanceid)
  }

  function AssetKey(a: Asset): string {
    CompositeKey(a.classid, a.instanceid)
  }

  /** When the class ids contain no '_', the composite key determines the
      class id and the instance id (with "0" standing for missing). */
  lemma CompositeKeyInjective(c1: Option<string>, i1: Option<string>, c2: Option<string>, i2: Option<string>)
    requires '_' !in KeyPart(c1) && '_' !in KeyPart(c2)
    requires CompositeKey(c1, i1) == CompositeKey(c2, i2)
    ensures KeyPart(c1) == KeyPart(c2) && i1.GetOr("0") == i2.GetOr("0")
  {
    var k1, k2 := KeyPart(c1), KeyPart(c2);
    var x := CompositeKey(c1, i1);
    assert x[|k1|] == '_';
    assert x[|k2|] == '_';
    assert k1 == x[..|k1|] && k2 == x[..|k2|];
    assert i1.GetOr("0") == x[|k1| + 1..] && i2.GetOr("0") == x[|k2| + 1..];
  }

  /** `descs[j]` is the last description with its key. */
  predicate LastWithKey(descs: seq<Description>, j: int) {
    && 0 <= j < |descs|
    && forall j' :: j < j' < |descs| ==> DescKey(descs[j']) != DescKey(descs[j])
  }

  /** The dictionary `{key(d): d for d in descriptions}`, built left to
      right so that a later description overwrites an earlier one. */
  function DescIndex(descs: seq<Description>): map<string, Description> {
    if descs == [] then map[]
    else DescIndex(descs[..|descs| - 1])[DescKey(descs[|descs| - 1]) := descs[|descs| - 1]]
  }

  /** The index holds exactly the descriptions' keys. */
  lemma {:induction false} DescIndexKeys(descs: seq<Description>, k: string)
    ensures k in DescIndex(descs) <==> exists j :: 0 <= j < |descs| && DescKey(descs[j]) == k
  {
    if descs != [] {
      var prefix := descs[..|descs| - 1];
      DescIndexKeys(prefix, k);
      if k in DescIndex(prefix) {
        var j :| 0 <= j < |prefix| && DescKey(prefix[j]) == k;
        assert descs[j] == prefix[j];
      }
      if j :| 0 <= j < |descs| - 1 && DescKey(descs[j]) == k {
        assert prefix[j] == descs[j];
      }
    }
  }

  /** Each key maps to the last description carrying it. */
  lemma {:induction false} DescIndexLast(descs: seq<Description>, j: int)
    requires LastWithKey(descs, j)
    ensures DescKey(descs[j]) in DescIndex(descs) && DescIndex(descs)[DescKey(descs[j])] == descs[j]
  {
    var n := |descs|;
    if j < n - 1 {
      var prefix := descs[..n - 1];
      assert LastWithKey(prefix, j) by {
        forall j' | j < j' < |prefix| ensures DescKey(prefix[j']) != DescKey(prefix[j]) {
          assert prefix[j'] == descs[j'];
          assert prefix[j] == descs[j];
        }
      }
      DescIndexLast(prefix, j);
      assert DescKey(descs[n - 1]) != DescKey(descs[j]);
    }
  }

  /** The priced state of an item: no "price" key yet, or the quote (or `None`)
      written by the price attachment. */
  datatype PriceSlot = NoPriceKey | Priced(quote: Option<PriceQuote>)

  /** One record of `get_inventory`'s result. */
  datatype NamedItem = NamedItem(
    assetid: Option<string>,
    classid: Option<string>,
    instanceid: Option<string>,
    name: Option<string>,
    itemType: Option<string>,
    price: PriceSlot)

  /** `desc.get("market_hash_name") or desc.get("name")`. */
  function RecordName(d: Description): Option<string> {
    if Truthy(d.marketHashName) then d.marketHashName else d.name
  }

  /** The record for one asset; a missing description is read as `{}`. */
  function ItemOf(a: Asset, index: map<string, Description>): NamedItem {
    var key := AssetKey(a);
    if key in index then
      NamedItem(a.assetid, a.classid, a.instanceid, RecordName(index[key]), index[key].itemType, NoPriceKey)
    else
      NamedItem(a.assetid, a.classid, a.instanceid, None, None, NoPriceKey)
  }

  function InventoryItems(assets: seq<Asset>, descs: seq<Description>): seq<NamedItem> {
    var index := DescIndex(descs);
    seq(|assets|, i requires 0 <= i < |assets| => ItemOf(assets[i], index))
  }

  /** What `get_inventory` promises of its records: one per asset, in asset
      order, carrying the asset's ids and the fields of the last description
      with the asset's key, or `None` fields when no description has it. */
  lemma InventoryItemsSpec(assets: seq<Asset>, descs: seq<Description>, i: int, j: int)
    requires 0 <= i < |assets|
    ensures |InventoryItems(assets, descs)| == |assets|
    ensures var item := InventoryItems(assets, descs)[i];
      && item.assetid == assets[i].assetid
      && item.classid == assets[i].classid
      && item.instanceid == assets[i].instanceid
      && item.price == NoPriceKey
    ensures (forall j' :: 0 <= j' < |descs| ==> DescKey(descs[j']) != AssetKey(assets[i])) ==>
      InventoryItems(assets, descs)[i].name.None? && InventoryItems(assets, descs)[i].itemType.None?
    ensures LastWithKey(descs, j) && DescKey(descs[j]) == AssetKey(assets[i]) ==>
      InventoryItems(assets, descs)[i].name == RecordName(descs[j])
      && InventoryItems(assets, descs)[i].itemType == descs[j].itemType
  {
    DescIndexKeys(descs, AssetKey(assets[i]));
    if LastWithKey(descs, j) {
      DescIndexLast(descs, j);
    }
  }

  /** The two loops of `get_inventory`: index the descriptions, then emit one
      record per asset, in asset order. */
  method JoinAssets(assets: seq<Asset>, descs: seq<Description>) returns (items: seq<NamedItem>)
    ensures items == InventoryItems(assets, descs)
  {
    var index: map<string, Description> := map[];
    var n := 0;
    while n < |descs|
      invariant n <= |descs|
      invariant index == DescIndex(descs[..n])
    {
      assert descs[..n + 1][..n] == descs[..n];
      index := index[DescKey(descs[n]) := descs[n]];
      n := n + 1;
    }
    assert descs[..n] == descs;
    items := [];
    var i := 0;
    while i < |assets|
      invariant i <= |assets|
      invariant |items| == i
      invariant forall k :: 0 <= k < i ==> items[k] == ItemOf(assets[k], index)
    {
      items := items + [ItemOf(assets[i], index)];
      i := i + 1;
    }
  }

  /** The result of `get_inventory`, as a value. */
  function InventoryResult(profileUrl: string, path: string, page: string -> PageFetch,
                           inventory: string -> InventoryResponse): Result<seq<NamedItem>, Error>
  {
    match BuildInventoryUrl(profileUrl, path, page, AppId, ContextId)
    case Err(e) => Err(e)
    case Ok(url) =>
      match inventory(url)
      case InventoryFailed => Err(HttpError)
      case InventoryOk(payload) =>
        if !TruthyFlag(payload.success) then Err(SteamFailure)
        else Ok(InventoryItems(payload.assets.GetOr([]), payload.descriptions.GetOr([])))
  }

  /** `get_inventory`: resolve the account, request its inventory URL, reject
      a failed request or a falsy `success` flag, then join. */
  method GetInventory(profileUrl: string, path: string, page: string -> PageFetch,
                      inventory: string -> InventoryResponse)
    returns (r: Result<seq<NamedItem>, Error>)
    ensures r == InventoryResult(profileUrl, path, page, inventory)
    ensures ResolveSteamId(profileUrl, path, page).Err? ==> r == Err(ResolveSteamId(profileUrl, path, page).error)
    ensures ResolveSteamId(profileUrl, path, page).Ok? ==>
      var response := inventory(InventoryUrl(ResolveSteamId(profileUrl, path, page).value, AppId, ContextId));
      && (response.InventoryFailed? ==> r == Err(HttpError))
      && (response.InventoryOk? && !TruthyFlag(response.payload.success) ==> r == Err(SteamFailure))
      && (response.InventoryOk? && TruthyFlag(response.payload.success) ==>
            r.Ok? && |r.value| == |response.payload.assets.GetOr([])|)
  {
    var url := BuildInventoryUrl(profileUrl, path, page, AppId, ContextId);
    if url.Err? {
      return Err(url.error);
    }
    var response := inventory(url.value);
    if response.InventoryFailed? {
      return Err(HttpError);
    }
    if !TruthyFlag(response.payload.success) {
      return Err(SteamFailure);
    }
    var items := JoinAssets(response.payload.assets.GetOr([]), response.payload.descriptions.GetOr([]));
    r := Ok(items);
  }

  // ---------------------------------------------------------------------------
  // Price lookup with retries
  // ---------------------------------------------------------------------------

  /** An attempt that `get_item_price` returns from: status 200 and a truthy
      `success`. A raised request, any other status or a falsy flag is a
      failure that is retried. */
  predicate Succeeded(a: PriceAttempt) {
    a.Responded? && a.status == 200 && TruthyFlag(a.payload.success)
  }

  function QuoteOf(p: PricePayload): PriceQuote {
    PriceQuote(p.lowestPrice, p.medianPrice, p.volume)
  }

  function MaxZero(n: int): nat {
    if n > 0 then n else 0
  }

  /** The first successful attempt number in `from..retries`. */
  function FirstSuccess(attempt: nat -> PriceAttempt, from: nat, retries: int): (r: Option<nat>)
    requires from >= 1
    ensures r.Some? ==> from <= r.value <= retries && Succeeded(attempt(r.value))
    ensures r.Some? ==> forall k :: from <= k < r.value ==> !Succeeded(attempt(k))
    ensures r.None? ==> forall k :: from <= k <= retries ==> !Succeeded(attempt(k))
    decreases if retries >= from then retries - from + 1 else 0
  {
    if from > retries then None
    else if Succeeded(attempt(from)) then Some(from)
    else FirstSuccess(attempt, from + 1, retries)
  }

  /** What `get_item_price` returns when attempt number `k` (counting from 1)
      has outcome `attempt(k)`. */
  function LookupResult(attempt: nat -> PriceAttempt, retries: int): Option<PriceQuote> {
    match FirstSuccess(attempt, 1, retries)
    case Some(k) => Some(QuoteOf(attempt(k).payload))
    case None => None
  }

  /** `get_item_price`: up to `retries` attempts, returning the quote of the
      first successful one; after each failed attempt but the last it sleeps
      `0.5 * attempt` seconds, logged in `sleeps` in half-seconds. */
  method GetItemPrice(attempt: nat -> PriceAttempt, retries: int)
    returns (quote: Option<PriceQuote>, attempts: nat, sleeps: seq<nat>)
    ensures quote == LookupResult(attempt, retries)
    ensures attempts <= MaxZero(retries)
    ensures quote.Some? ==>
      && 1 <= attempts && Succeeded(attempt(attempts))
      && quote.value == QuoteOf(attempt(attempts).payload)
      && forall k :: 1 <= k < attempts ==> !Succeeded(attempt(k))
    ensures quote.None? ==>
      attempts == MaxZero(retries) && forall k :: 1 <= k <= retries ==> !Succeeded(attempt(k))
    ensures |sleeps| == (if attempts == 0 then 0 else attempts - 1)
    ensures forall j :: 0 <= j < |sleeps| ==> sleeps[j] == j + 1
  {
    quote, attempts, sleeps := None, 0, [];
    var n := 1;
    while n <= retries
      invariant 1 <= n <= MaxZero(retries) + 1
      invariant attempts == n - 1
      invariant forall k :: 1 <= k < n ==> !Succeeded(attempt(k))
      invariant n <= retries ==> |sleeps| == n - 1
      invariant n > retries ==> |sleeps| == (if n == 1 then 0 else n - 2)
      invariant forall j :: 0 <= j < |sleeps| ==> sleeps[j] == j + 1
      decreases retries - n
    {
      attempts := n;
      var outcome := attempt(n);
      if outcome.Responded? && outcome.status == 200 && TruthyFlag(outcome.payload.success) {
        quote := Some(QuoteOf(outcome.payload));
        assert MaxZero(retries) == retries;
        return;
      }
      if n < retries {
        sleeps := sleeps + [n];
      }
      n := n + 1;
    }
  }

  // ---------------------------------------------------------------------------
  // Price attachment
  // ---------------------------------------------------------------------------

  /** Tenths of a second slept before each price request. */
  const SleepBetweenPriceRequests: nat := 1

  /** `{item.get("name") for item in items if item.get("name")}`. */
  function UniqueNames(items: seq<NamedItem>): set<string> {
    set i | 0 <= i < |items| && Truthy(items[i].name) :: items[i].name.value
  }

  /** Any number of items sharing one truthy name give one distinct name, so
      one lookup. */
  lemma UniqueNamesOfCopies(items: seq<NamedItem>, name: string)
    requires items != [] && name != []
    requires forall i :: 0 <= i < |items| ==> items[i].name == Some(name)
    ensures UniqueNames(items) == {name}
  {
    assert Truthy(items[0].name);
  }

  /** An item after `add_prices_to_items`: a truthy name gets the quote that
      looking that name up yields; any other item is left as it was. */
  function WithPrice(item: NamedItem, prices: string -> nat -> PriceAttempt): NamedItem {
    if Truthy(item.name) then item.(price := Priced(LookupResult(prices(item.name.value), DefaultRetries)))
    else item
  }

  /** The state of the lookup loop: the names not yet looked up are
      `remaining`; every other name was requested once, in the order of
      `calls`, and its result cached. */
  ghost predicate FetchedSoFar(names: set<string>, remaining: set<string>, cache: map<string, Option<PriceQuote>>,
                         calls: seq<string>, prices: string -> nat -> PriceAttempt)
  {
    && remaining <= names
    && cache.Keys == names - remaining
    && (forall n :: n in cache ==> cache[n] == LookupResult(prices(n), DefaultRetries))
    && |calls| + |remaining| == |names|
    && (forall n :: n in calls <==> n in names && n !in remaining)
    && (forall i, j :: 0 <= i < j < |calls| ==> calls[i] != calls[j])
  }

  lemma FetchedNothing(names: set<string>, prices: string -> nat -> PriceAttempt)
    ensures FetchedSoFar(names, names, map[], [], prices)
  {
  }

  /** Looking up one more remaining name keeps the loop state. */
  lemma FetchedOneMore(names: set<string>, remaining: set<string>, cache: map<string, Option<PriceQuote>>,
                       calls: seq<string>, prices: string -> nat -> PriceAttempt, name: string)
    requires FetchedSoFar(names, remaining, cache, calls, prices) && name in remaining
    ensures FetchedSoFar(names, remaining - {name}, cache[name := LookupResult(prices(name), DefaultRetries)],
                         calls + [name], prices)
  {
    var calls' := calls + [name];
    assert |remaining - {name}| == |remaining| - 1;
    assert forall n :: n in calls' <==> n in calls || n == name;
    forall i, j | 0 <= i < j < |calls'| ensures calls'[i] != calls'[j] {
      if j == |calls| {
        assert calls'[i] == calls[i];
        assert calls[i] in calls;
      }
    }
  }

  /** The lookup loop of `add_prices_to_items`: one `get_item_price` call per
      distinct name, in an unspecified order, each after a fixed delay, with
      the result cached under the name. */
  method FetchPrices(names: set<string>, prices: string -> nat -> PriceAttempt)
    returns (cache: map<string, Option<PriceQuote>>, calls: seq<string>, delay: nat)
    ensures cache.Keys == names
    ensures forall n :: n in cache ==> cache[n] == LookupResult(prices(n), DefaultRetries)
    ensures |calls| == |names|
    ensures forall n :: n in calls <==> n in names
    ensures forall i, j :: 0 <= i < j < |calls| ==> calls[i] != calls[j]
    ensures delay == SleepBetweenPriceRequests * |calls|
  {
    cache, calls, delay := map[], [], 0;
    var remaining := names;
    FetchedNothing(names, prices);
    while remaining != {}
      invariant FetchedSoFar(names, remaining, cache, calls, prices)
      invariant delay == SleepBetweenPriceRequests * |calls|
      decreases |remaining|
    {
      var name :| name in remaining;
      delay := delay + SleepBetweenPriceRequests;
      var quote, _, _ := GetItemPrice(prices(name), DefaultRetries);
      FetchedOneMore(names, remaining, cache, calls, prices, name);
      cache := cache[name := quote];
      calls := calls + [name];
      remaining := remaining - {name};
    }
  }

  /** The write-back loop of `add_prices_to_items`: `price_cache.get(name)`
      onto every item with a truthy name, in place. */
  method AttachPrices(a: array<NamedItem>, cache: map<string, Option<PriceQuote>>)
    modifies a
    ensures forall i :: 0 <= i < a.Length ==>
      a[i] == if Truthy(old(a[i]).name) then
                old(a[i]).(price := Priced(if old(a[i]).name.value in cache then cache[old(a[i]).name.value] else None))
              else old(a[i])
  {
    for i := 0 to a.Length
      invariant forall k :: 0 <= k < i ==>
        a[k] == if Truthy(old(a[k]).name) then
                  old(a[k]).(price := Priced(if old(a[k]).name.value in cache then cache[old(a[k]).name.value] else None))
                else old(a[k])
      invariant forall k :: i <= k < a.Length ==> a[k] == old(a[k])
    {
      var name := a[i].name;
      if Truthy(name) {
        a[i] := a[i].(price := Priced(if name.value in cache then cache[name.value] else None));
      }
    }
  }

  /** `add_prices_to_items`: every item with a truthy name gets the quote for
      that name, looked up once per distinct name; the list keeps its length
      and order, and nothing but the `price` of named items changes. */
  method AddPricesToItems(a: array<NamedItem>, prices: string -> nat -> PriceAttempt)
    returns (calls: seq<string>, delay: nat)
    modifies a
    ensures forall i :: 0 <= i < a.Length ==> a[i] == WithPrice(old(a[i]), prices)
    ensures forall i, j :: 0 <= i < a.Length && 0 <= j < a.Length && Truthy(a[i].name) && a[i].name == a[j].name ==>
      a[i].price == a[j].price
    ensures forall i :: 0 <= i < a.Length && !Truthy(a[i].name) ==> a[i] == old(a[i])
    ensures forall i :: 0 <= i < a.Length ==> a[i].(price := old(a[i]).price) == old(a[i])
    ensures |calls| == |UniqueNames(old(a[..]))|
    ensures forall n :: n in calls <==> n in UniqueNames(old(a[..]))
    ensures forall i, j :: 0 <= i < j < |calls| ==> calls[i] != calls[j]
    ensures delay == SleepBetweenPriceRequests * |calls|
  {
    var cache;
    cache, calls, delay := FetchPrices(UniqueNames(a[..]), prices);
    ghost var before := a[..];
    forall i | 0 <= i < a.Length && Truthy(a[i].name)
      ensures a[i].name.value in cache
    {
      assert a[i] == before[i];
    }
    AttachPrices(a, cache);
  }

  // ---------------------------------------------------------------------------
  // Price strings
  // ---------------------------------------------------------------------------

  /** `re.sub(r"[^0-9,\.]", "", raw).replace(",", ".")`: digits and periods
      are kept, commas become periods, everything else is dropped. The two
      steps act character by character, so they are done in one pass. */
  function CleanPrice(raw: string): (clean: string)
    ensures DecimalChars(clean)
    ensures |clean| <= |raw|
  {
    if raw == [] then []
    else
      var c := raw[0];
      (if IsDigit(c) || c == '.' then [c] else if c == ',' then ['.'] else []) + CleanPrice(raw[1..])
  }

  /** Number of ',' and '.' characters: each becomes a period. */
  function Separators(raw: string): nat {
    if raw == [] then 0 else (if raw[0] == ',' || raw[0] == '.' then 1 else 0) + Separators(raw[1..])
  }

  /** A string already clean is left unchanged, so cleaning is idempotent. */
  lemma {:induction false} CleanPriceFixesClean(s: string)
    requires DecimalChars(s)
    ensures CleanPrice(s) == s
  {
    if s != [] {
      CleanPriceFixesClean(s[1..]);
      assert s == [s[0]] + s[1..];
    }
  }

  lemma CleanPriceIdempotent(raw: string)
    ensures CleanPrice(CleanPrice(raw)) == CleanPrice(raw)
  {
    CleanPriceFixesClean(CleanPrice(raw));
  }

  /** Cleaning keeps every digit and turns every separator into one period. */
  lemma {:induction false} CleanPriceCounts(raw: string)
    ensures HasDigit(CleanPrice(raw)) <==> HasDigit(raw)
    ensures CountDots(CleanPrice(raw)) == Separators(raw)
  {
    if raw != [] {
      CleanPriceCounts(raw[1..]);
      var head := if IsDigit(raw[0]) || raw[0] == '.' then [raw[0]] else if raw[0] == ',' then ['.'] else [];
      var rest := CleanPrice(raw[1..]);
      assert CleanPrice(raw) == head + rest;
      HasDigitConcat(head, rest);
      HasDigitConcat([raw[0]], raw[1..]);
      assert raw == [raw[0]] + raw[1..];
      CountDotsConcat(head, rest);
    }
  }

  /** Cleaning works character by character. */
  lemma {:induction false} CleanPriceConcat(a: string, b: string)
    ensures CleanPrice(a + b) == CleanPrice(a) + CleanPrice(b)
  {
    if a == [] {
      assert a + b == b;
    } else {
      assert (a + b)[0] == a[0];
      assert (a + b)[1..] == a[1..] + b;
      CleanPriceConcat(a[1..], b);
    }
  }

  /** `parse_price_to_float`: `None` for a missing or empty string, otherwise
      the cleaned string read as a decimal, `None` if that fails. */
  function ParsePriceToFloat(raw: Option<string>): (r: Option<real>)
    ensures !Truthy(raw) ==> r.None?
    ensures r.Some? ==> r.value >= 0.0
    ensures Truthy(raw) ==> (r.Some? <==> HasDigit(raw.value) && Separators(raw.value) <= 1)
  {
    if !Truthy(raw) then None
    else
      CleanPriceCounts(raw.value);
      ParseDecimal(CleanPrice(raw.value))
  }

  /** A price in fixed-point notation reads as the number it writes. */
  lemma ParsePriceOfFixed(n: nat, k: nat)
    ensures ParsePriceToFloat(Some(FormatFixed(n, k))) == Some(n as real / Pow10(k) as real)
  {
    ParseDecimalOfFixed(n, k);
    CleanPriceFixesClean(FormatFixed(n, k));
  }

  /** Cleaning turns the comma between two runs of digits into a period. */
  lemma CleanPriceOfComma(w: string, f: string)
    requires AllDigits(w) && AllDigits(f)
    ensures CleanPrice(w + "," + f) == w + "." + f
  {
    CleanPriceConcat(w + ",", f);
    CleanPriceCommaAfter(w);
    CleanPriceOfDigits(f);
  }

  lemma CleanPriceCommaAfter(w: string)
    requires AllDigits(w)
    ensures CleanPrice(w + ",") == w + "."
  {
    CleanPriceConcat(w, ",");
    CleanPriceOfDigits(w);
    assert CleanPrice(",") == "." by {
      assert ","[1..] == [];
    }
  }

  lemma CleanPriceOfDigits(w: string)
    requires AllDigits(w)
    ensures CleanPrice(w) == w
  {
    SplitNoDot(w);
    CleanPriceFixesClean(w);
  }

  /** A non-empty price string reads as its cleaned form. */
  lemma ParsePriceOfCleaned(raw: string, clean: string)
    requires raw != [] && CleanPrice(raw) == clean
    ensures DecimalChars(clean)
    ensures ParsePriceToFloat(Some(raw)) == ParseDecimal(clean)
  {
  }

  lemma CleanPriceOfCommaFixed(n: nat, k: nat)
    ensures CleanPrice(CommaFixed(n, k)) == FormatFixed(n, k)
  {
    CleanPriceOfComma(WholePart(n, k), FractionPart(n, k));
  }

  /** A price with a decimal comma reads as the number it writes. */
  lemma ParsePriceOfCommaFixed(n: nat, k: nat)
    ensures ParsePriceToFloat(Some(CommaFixed(n, k))) == Some(n as real / Pow10(k) as real)
  {
    CleanPriceOfCommaFixed(n, k);
    assert CommaFixed(n, k) != [];
    ParsePriceOfCleaned(CommaFixed(n, k), FormatFixed(n, k));
    ParseDecimalOfFixed(n, k);
  }

  /** A missing or empty string, and a string without digits, give `None`. */
  lemma ParsePriceNoDigits()
    ensures ParsePriceToFloat(None) == None
    ensures ParsePriceToFloat(Some("")) == None
    ensures ParsePriceToFloat(Some("not a price")) == None
  {
    assert !HasDigit("not a price");
  }

  /** A thousands separator next to a decimal point gives `None`. */
  lemma ParsePriceTwoSeparators()
    ensures ParsePriceToFloat(Some("1,234.56")) == None
  {
    assert Separators("1,234.56") == 2;
  }

  /** A comma decimal with a currency sign is read as a decimal. */
  lemma ParsePriceCommaDecimal()
    ensures ParsePriceToFloat(Some("1,50 $")) == Some(1.5)
  {
    var raw := "1,50 $";
    assert CleanPrice(raw) == "1.50";
    ParsePriceOfCleaned(raw, "1.50");
    ParseOnePointFifty();
  }

  lemma ParseOnePointFifty()
    ensures ParseDecimal("1.50") == Some(1.5)
  {
    var s := "1.50";
    assert BeforeDot(s) == "1" && AfterDot(s) == "50";
    assert HasDigit(s) by { assert IsDigit(s[0]); }
    assert CountDots(s) == 1;
    assert DigitsValue("5") == 5 by { assert "5"[..0] == ""; }
    assert DigitsValue("1") == 1 by { assert "1"[..0] == ""; }
    assert DigitsValue("50") == 50 by { assert "50"[..1] == "5"; }
    assert Pow10(2) == 100;
    assert DecimalValue(BeforeDot(s), AfterDot(s)) == 1.5;
  }
}
