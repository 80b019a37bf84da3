/** The single-file service of main.py: resolve a link to an account id,
    list the market names of the account's inventory, look each name up once
    per occurrence, and answer the rounded sum. Every request is an oracle
    argument: `page` answers the profile-page request for a link, `inventory`
    the inventory request for a URL, and `respond(k)(name)` the `k`-th price
    request (counting from 0), made for `name`. */
module SteamSite {
  import opened Wrappers
  import opened Text
  import opened Decimal
  import opened Patterns
  import opened Upstream
  import opened Replies
  import SteamApi

  // ---------------------------------------------------------------------------
  // Account id resolution
  // ---------------------------------------------------------------------------

  /** `get_steamid64`: the digits after the first `/profiles/` that is
      followed by a digit, anywhere in the link; otherwise the page at the
      link is fetched and the first `"steamid":"<digits>"` (no whitespace)
      in its body is taken. */
  function SteamId64(link: string, page: string -> PageFetch): (r: Result<string, Error>)
    ensures Search(ProfilesSegment, link).Some? ==> r == Ok(Search(ProfilesSegment, link).value)
    ensures r.Ok? ==> r.value != [] && AllDigits(r.value)
    ensures r == Err(HttpError) <==> Search(ProfilesSegment, link).None? && page(link).PageFailed?
    ensures r == Err(SteamIdNotFound) <==>
      Search(ProfilesSegment, link).None? && page(link).PageOk? && Search(SteamIdFieldTight, page(link).body).None?
    ensures r.Ok? && Search(ProfilesSegment, link).None? ==>
      page(link).PageOk? && Search(SteamIdFieldTight, page(link).body) == Some(r.value)
  {
    match Search(ProfilesSegment, link)
    case Some(id) => Ok(id)
    case None =>
      match page(link)
      case PageFailed => Err(HttpError)
      case PageOk(body) =>
        match Search(SteamIdFieldTight, body)
        case Some(id) => Ok(id)
        case None => Err(SteamIdNotFound)
  }

  /** A `/profiles/` followed by a maximal digit run `d`, with no match
      earlier in the link, gives exactly `d`. */
  lemma ProfilesSegmentFound(link: string, i: nat, d: string)
    requires d != [] && AllDigits(d)
    requires LiteralAt(link, i, ProfilesPrefix) && LiteralAt(link, i + 10, d)
    requires i + 10 + |d| == |link| || !IsDigit(link[i + 10 + |d|])
    requires forall j :: 0 <= j < i ==> MatchAt(ProfilesSegment, link, j).None?
    ensures Search(ProfilesSegment, link) == Some(d)
  {
    RunLengthExact(link, i + 10, d, IsDigit);
    assert MatchAt(ProfilesSegment, link, i) == Some(d);
    FirstMatchIs(ProfilesSegment, link, 0, i);
  }

  /** `FirstMatch` from `from` is the first matching index `i`. */
  lemma {:induction false} FirstMatchIs(p: Pattern, s: string, from: nat, i: nat)
    requires from <= i <= |s| && MatchAt(p, s, i).Some?
    requires forall j :: from <= j < i ==> MatchAt(p, s, j).None?
    ensures FirstMatch(p, s, from) == Some(i)
    decreases i - from
  {
    if from < i {
      FirstMatchIs(p, s, from + 1, i);
    }
  }

  /** A link that yields an id never consults the page oracle. */
  lemma LinkIdNeedsNoFetch(link: string, page1: string -> PageFetch, page2: string -> PageFetch)
    requires Search(ProfilesSegment, link).Some?
    ensures SteamId64(link, page1) == SteamId64(link, page2)
  {
  }

  // ---------------------------------------------------------------------------
  // Inventory names
  // ---------------------------------------------------------------------------

  /** The name `get_inventory_items` emits for an asset: the
      `market_hash_name` of its description when that is truthy; there is no
      fallback to `name`. A missing description is read as `{}`. */
  function AssetName(a: Asset, index: map<string, Description>): (r: Option<string>)
    ensures r.Some? ==> r.value != []
  {
    var key := SteamApi.AssetKey(a);
    if key in index && Truthy(index[key].marketHashName) then index[key].marketHashName else None
  }

  /** The names of the assets, in asset order, dropping assets without one. */
  function NamesOf(assets: seq<Asset>, index: map<string, Description>): seq<string> {
    if assets == [] then []
    else
      var n := |assets|;
      match AssetName(assets[n - 1], index)
      case Some(name) => NamesOf(assets[..n - 1], index) + [name]
      case None => NamesOf(assets[..n - 1], index)
  }

  /** The names are exactly the named assets' names, in asset order: `pos`
      lists the named assets' positions, increasing, and the `k`-th name is
      that of asset `pos[k]`. */
  lemma {:induction false} NamesOfPositions(assets: seq<Asset>, index: map<string, Description>)
    returns (pos: seq<nat>)
    ensures |pos| == |NamesOf(assets, index)|
    ensures forall k :: 0 <= k < |pos| ==> pos[k] < |assets|
    ensures forall k, l :: 0 <= k < l < |pos| ==> pos[k] < pos[l]
    ensures forall k :: 0 <= k < |pos| ==> AssetName(assets[pos[k]], index) == Some(NamesOf(assets, index)[k])
    ensures forall i :: 0 <= i < |assets| && AssetName(assets[i], index).Some? ==> i in pos
  {
    if assets == [] {
      pos := [];
    } else {
      var n := |assets|;
      var prefix := assets[..n - 1];
      var before := NamesOfPositions(prefix, index);
      forall k | 0 <= k < |before|
        ensures AssetName(assets[before[k]], index) == Some(NamesOf(prefix, index)[k])
      {
        assert assets[before[k]] == prefix[before[k]];
      }
      forall i | 0 <= i < n - 1 && AssetName(assets[i], index).Some?
        ensures i in before
      {
        assert assets[i] == prefix[i];
      }
      if AssetName(assets[n - 1], index).Some? {
        pos := before + [n - 1];
      } else {
        pos := before;
      }
    }
  }

  /** At most one name per asset. */
  lemma NamesOfLength(assets: seq<Asset>, index: map<string, Description>)
    ensures |NamesOf(assets, index)| <= |assets|
  {
    var pos := NamesOfPositions(assets, index);
    PositionsBound(pos, |assets|);
  }

  /** An increasing sequence of indices below `n` has at most `n` entries. */
  lemma {:induction false} PositionsBound(pos: seq<nat>, n: nat)
    requires forall k :: 0 <= k < |pos| ==> pos[k] < n
    requires forall k, l :: 0 <= k < l < |pos| ==> pos[k] < pos[l]
    ensures |pos| <= n
  {
    if pos != [] {
      var last := pos[|pos| - 1];
      var prefix := pos[..|pos| - 1];
      assert forall k :: 0 <= k < |prefix| ==> prefix[k] < last;
      PositionsBound(prefix, last);
    }
  }

  /** When every asset is named, there is one name per asset, in order. */
  lemma {:induction false} NamesOfAllNamed(assets: seq<Asset>, index: map<string, Description>)
    requires forall i :: 0 <= i < |assets| ==> AssetName(assets[i], index).Some?
    ensures |NamesOf(assets, index)| == |assets|
    ensures forall i :: 0 <= i < |assets| ==> NamesOf(assets, index)[i] == AssetName(assets[i], index).value
  {
    if assets != [] {
      var prefix := assets[..|assets| - 1];
      assert forall i :: 0 <= i < |prefix| ==> prefix[i] == assets[i];
      NamesOfAllNamed(prefix, index);
    }
  }

  /** `d['classid']` and `asset['classid']` raise `KeyError` on a missing key. */
  predicate DescriptionsKeyed(descs: seq<Description>) {
    forall j :: 0 <= j < |descs| ==> descs[j].classid.Some?
  }

  predicate AssetsKeyed(assets: seq<Asset>) {
    forall i :: 0 <= i < |assets| ==> assets[i].classid.Some?
  }

  /** The result of `get_inventory_items`, as a value. */
  function InventoryNames(steamId: string, inventory: string -> InventoryResponse): Result<seq<string>, Error> {
    match inventory(SteamApi.InventoryUrl(steamId, SteamApi.AppId, SteamApi.ContextId))
    case InventoryFailed => Err(HttpError)
    case InventoryOk(payload) =>
      if !TruthyFlag(payload.success) then Err(SteamFailure)
      else
        var assets, descs := payload.assets.GetOr([]), payload.descriptions.GetOr([]);
        if !DescriptionsKeyed(descs) || !AssetsKeyed(assets) then Err(MissingKey)
        else Ok(NamesOf(assets, SteamApi.DescIndex(descs)))
  }

  /** The dictionary comprehension of `get_inventory_items`: descriptions by
      composite key, later ones overwriting earlier ones; a description
      without `classid` raises. */
  method IndexDescriptions(descs: seq<Description>) returns (r: Result<map<string, Description>, Error>)
    ensures DescriptionsKeyed(descs) ==> r == Ok(SteamApi.DescIndex(descs))
    ensures !DescriptionsKeyed(descs) ==> r == Err(MissingKey)
  {
    var index: map<string, Description> := map[];
    for j := 0 to |descs|
      invariant index == SteamApi.DescIndex(descs[..j])
      invariant DescriptionsKeyed(descs[..j])
    {
      if descs[j].classid.None? {
        assert !DescriptionsKeyed(descs) by {
          assert descs[j].classid.None?;
        }
        return Err(MissingKey);
      }
      assert descs[..j + 1][..j] == descs[..j];
      index := index[SteamApi.DescKey(descs[j]) := descs[j]];
    }
    assert descs[..|descs|] == descs;
    r := Ok(index);
  }

  /** The asset loop of `get_inventory_items`: append the name of each asset
      that has one; an asset without `classid` raises. */
  method CollectNames(assets: seq<Asset>, index: map<string, Description>) returns (r: Result<seq<string>, Error>)
    ensures AssetsKeyed(assets) ==> r == Ok(NamesOf(assets, index))
    ensures !AssetsKeyed(assets) ==> r == Err(MissingKey)
  {
    var names: seq<string> := [];
    for i := 0 to |assets|
      invariant names == NamesOf(assets[..i], index)
      invariant AssetsKeyed(assets[..i])
    {
      if assets[i].classid.None? {
        assert !AssetsKeyed(assets) by {
          assert assets[i].classid.None?;
        }
        return Err(MissingKey);
      }
      assert assets[..i + 1][..i] == assets[..i];
      var key := SteamApi.CompositeKey(assets[i].classid, assets[i].instanceid);
      if key in index && Truthy(index[key].marketHashName) {
        names := names + [index[key].marketHashName.value];
      }
    }
    assert assets[..|assets|] == assets;
    r := Ok(names);
  }

  /** `get_inventory_items`: request the inventory, reject a failed request
      or a falsy `success`, index the descriptions, then collect the names
      asset by asset. */
  method GetInventoryItems(steamId: string, inventory: string -> InventoryResponse)
    returns (r: Result<seq<string>, Error>)
    ensures r == InventoryNames(steamId, inventory)
  {
    var response := inventory(SteamApi.InventoryUrl(steamId, SteamApi.AppId, SteamApi.ContextId));
    if response.InventoryFailed? {
      return Err(HttpError);
    }
    if !TruthyFlag(response.payload.success) {
      return Err(SteamFailure);
    }
    var index := IndexDescriptions(response.payload.descriptions.GetOr([]));
    if index.Err? {
      return Err(index.error);
    }
    r := CollectNames(response.payload.assets.GetOr([]), index.value);
  }

  // ---------------------------------------------------------------------------
  // Price strings
  // ---------------------------------------------------------------------------

  /** `re.sub(r"[^\d,]", "", raw).replace(",", ".")`: digits are kept, commas
      become periods, everything else (periods included) is dropped. */
  function CleanPriceRoot(raw: string): (clean: string)
    ensures DecimalChars(clean)
    ensures |clean| <= |raw|
  {
    if raw == [] then []
    else
      var c := raw[0];
      (if IsDigit(c) then [c] else if c == ',' then ['.'] else []) + CleanPriceRoot(raw[1..])
  }

  /** Number of ',' characters: each becomes a period. */
  function Commas(raw: string): nat {
    if raw == [] then 0 else (if raw[0] == ',' then 1 else 0) + Commas(raw[1..])
  }

  /** Cleaning keeps every digit, and its periods are exactly the commas. */
  lemma {:induction false} CleanPriceRootCounts(raw: string)
    ensures HasDigit(CleanPriceRoot(raw)) <==> HasDigit(raw)
    ensures CountDots(CleanPriceRoot(raw)) == Commas(raw)
  {
    if raw != [] {
      CleanPriceRootCounts(raw[1..]);
      var head := if IsDigit(raw[0]) then [raw[0]] else if raw[0] == ',' then ['.'] else [];
      var rest := CleanPriceRoot(raw[1..]);
      assert CleanPriceRoot(raw) == head + rest;
      HasDigitConcat(head, rest);
      HasDigitConcat([raw[0]], raw[1..]);
      assert raw == [raw[0]] + raw[1..];
      CountDotsConcat(head, rest);
    }
  }

  /** A string of digits is left unchanged. */
  lemma {:induction false} CleanPriceRootKeepsDigits(s: string)
    requires AllDigits(s)
    ensures CleanPriceRoot(s) == s
  {
    if s != [] {
      CleanPriceRootKeepsDigits(s[1..]);
      assert s == [s[0]] + s[1..];
    }
  }

  /** Cleaning works character by character. */
  lemma {:induction false} CleanPriceRootConcat(a: string, b: string)
    ensures CleanPriceRoot(a + b) == CleanPriceRoot(a) + CleanPriceRoot(b)
  {
    if a == [] {
      assert a + b == b;
    } else {
      assert (a + b)[0] == a[0];
      assert (a + b)[1..] == a[1..] + b;
      CleanPriceRootConcat(a[1..], b);
    }
  }

  /** The cleaning and parsing tail of `get_item_price`: `None` for a missing
      or empty `lowest_price`, otherwise the cleaned string read as a
      decimal, `None` if that fails. */
  function PriceValue(raw: Option<string>): (r: Option<real>)
    ensures !Truthy(raw) ==> r.None?
    ensures r.Some? ==> r.value >= 0.0
    ensures Truthy(raw) ==> (r.Some? <==> HasDigit(raw.value) && Commas(raw.value) <= 1)
  {
    if !Truthy(raw) then None
    else
      CleanPriceRootCounts(raw.value);
      ParseDecimal(CleanPriceRoot(raw.value))
  }

  /** A price string of plain digits is read as that whole number. */
  lemma PriceValueOfNat(n: nat)
    ensures PriceValue(Some(NatToDecimal(n))) == Some(n as real)
  {
    CleanPriceRootKeepsDigits(NatToDecimal(n));
    ParseDecimalOfNat(n);
  }

  /** Between two runs of digits, a comma becomes a period. */
  lemma CleanPriceRootOfComma(w: string, f: string)
    requires AllDigits(w) && AllDigits(f)
    ensures CleanPriceRoot(w + "," + f) == w + "." + f
  {
    CleanPriceRootConcat(w + ",", f);
    CleanPriceRootBefore(w, ',');
    CleanPriceRootKeepsDigits(f);
  }

  /** Between two runs of digits, a period is dropped. */
  lemma CleanPriceRootOfPeriod(w: string, f: string)
    requires AllDigits(w) && AllDigits(f)
    ensures CleanPriceRoot(w + "." + f) == w + f
  {
    CleanPriceRootConcat(w + ".", f);
    CleanPriceRootBefore(w, '.');
    CleanPriceRootKeepsDigits(f);
  }

  /** Digits followed by a separator: a comma becomes a period, a period
      goes. */
  lemma CleanPriceRootBefore(w: string, sep: char)
    requires AllDigits(w) && (sep == ',' || sep == '.')
    ensures CleanPriceRoot(w + [sep]) == w + (if sep == ',' then "." else "")
  {
    CleanPriceRootConcat(w, [sep]);
    CleanPriceRootKeepsDigits(w);
    assert CleanPriceRoot([sep]) == (if sep == ',' then "." else "") by {
      assert [sep][1..] == [];
    }
  }

  lemma CleanPriceRootOfCommaFixed(n: nat, k: nat)
    ensures CleanPriceRoot(CommaFixed(n, k)) == FormatFixed(n, k)
  {
    CleanPriceRootOfComma(WholePart(n, k), FractionPart(n, k));
  }

  /** A non-empty price string reads as its cleaned form. */
  lemma PriceValueOfCleaned(raw: string, clean: string)
    requires raw != [] && CleanPriceRoot(raw) == clean
    ensures DecimalChars(clean)
    ensures PriceValue(Some(raw)) == ParseDecimal(clean)
  {
  }

  /** A price with a decimal comma reads as the number it writes. */
  lemma PriceValueOfCommaFixed(n: nat, k: nat)
    ensures PriceValue(Some(CommaFixed(n, k))) == Some(n as real / Pow10(k) as real)
  {
    CleanPriceRootOfCommaFixed(n, k);
    assert CommaFixed(n, k) != [];
    PriceValueOfCleaned(CommaFixed(n, k), FormatFixed(n, k));
    ParseDecimalOfFixed(n, k);
  }

  /** Between two runs of digits, a period is dropped and the digits are
      read as one whole number. */
  lemma PriceValueOfPeriod(w: string, f: string)
    requires AllDigits(w) && AllDigits(f) && w != []
    ensures AllDigits(w + f)
    ensures PriceValue(Some(w + "." + f)) == Some(DigitsValue(w + f) as real)
  {
    PriceValueDropsPeriod(w, f);
    ParseDecimalOfDigits(w + f);
  }

  lemma PriceValueDropsPeriod(w: string, f: string)
    requires AllDigits(w) && AllDigits(f)
    ensures AllDigits(w + f)
    ensures PriceValue(Some(w + "." + f)) == ParseDecimal(w + f)
  {
    CleanPriceRootOfPeriod(w, f);
    PriceValueOfCleaned(w + "." + f, w + f);
  }

  /** Digits around a period are read as one whole number. */
  lemma PriceValueOfJoined(q: nat, r: nat, k: nat)
    requires r < Pow10(k)
    ensures PriceValue(Some(NatToDecimal(q) + "." + LowDigits(r, k))) == Some((q * Pow10(k) + r) as real)
  {
    PriceValueOfPeriod(NatToDecimal(q), LowDigits(r, k));
    DigitsValueConcat(NatToDecimal(q), LowDigits(r, k));
    DigitsValueOfDecimal(q);
    LowDigitsValue(r, k);
  }

  /** A price with a decimal period loses the period: its digits are read as
      one whole number, `10^k` times the written value. */
  lemma PriceValueOfFixed(n: nat, k: nat)
    ensures PriceValue(Some(FormatFixed(n, k))) == Some(n as real)
  {
    DivMod(n, Pow10(k));
    PriceValueOfJoined(n / Pow10(k), n % Pow10(k), k);
  }

  /** `get_item_price` for one response: a raised request propagates; a
      status other than 200 or a falsy `success` gives `None`; otherwise the
      `lowest_price` string is read. */
  function RootItemPrice(outcome: PriceAttempt): (r: Result<Option<real>, Error>)
    ensures r.Err? <==> outcome.Raised?
    ensures r.Err? ==> r.error == HttpError
    ensures r.Ok? && r.value.Some? ==> r.value.value >= 0.0
  {
    match outcome
    case Raised => Err(HttpError)
    case Responded(status, payload) =>
      if status != 200 then Ok(None)
      else if !TruthyFlag(payload.success) then Ok(None)
      else Ok(PriceValue(payload.lowestPrice))
  }

  /** A response with a status other than 200 or a falsy `success` gives no
      price; a successful one gives its `lowest_price` read as above. */
  lemma RootItemPriceCases(outcome: PriceAttempt)
    requires outcome.Responded?
    ensures outcome.status != 200 || !TruthyFlag(outcome.payload.success) ==> RootItemPrice(outcome) == Ok(None)
    ensures outcome.status == 200 && TruthyFlag(outcome.payload.success) ==>
      RootItemPrice(outcome) == Ok(PriceValue(outcome.payload.lowestPrice))
  {
  }

  // ---------------------------------------------------------------------------
  // The handler
  // ---------------------------------------------------------------------------

  /** How the price loop of `check` ends: all lookups done, with the sum of
      the truthy prices, or aborted by the request with index `at` raising.
      Either way `naps` counts the 0.1 s sleeps taken so far. */
  datatype LoopOutcome = Completed(total: real, naps: nat) | Aborted(at: nat, naps: nat)

  /** What `get_item_price` gives back for one request. */
  type Answer = Result<Option<real>, Error>

  /** The answers to the requests for `names`, in request order. */
  function Answers(names: seq<string>, respond: nat -> string -> PriceAttempt): (r: seq<Answer>)
    ensures |r| == |names|
  {
    AnswersFrom(names, 0, respond)
  }

  function AnswersFrom(names: seq<string>, i: nat, respond: nat -> string -> PriceAttempt): (r: seq<Answer>)
    requires i <= |names|
    ensures |r| == |names| - i
    decreases |names| - i
  {
    if i == |names| then [] else [RootItemPrice(respond(i)(names[i]))] + AnswersFrom(names, i + 1, respond)
  }

  /** Request `k` is answered by `get_item_price` for the `k`-th name. */
  lemma AnswersAt(names: seq<string>, respond: nat -> string -> PriceAttempt, k: nat)
    requires k < |names|
    ensures Answers(names, respond)[k] == RootItemPrice(respond(k)(names[k]))
  {
    AnswersFromAt(names, respond, 0, k);
  }

  lemma {:induction false} AnswersFromAt(names: seq<string>, respond: nat -> string -> PriceAttempt, i: nat, k: nat)
    requires i <= k < |names|
    ensures AnswersFrom(names, i, respond)[k - i] == RootItemPrice(respond(k)(names[k]))
    decreases k - i
  {
    var rest := AnswersFrom(names, i + 1, respond);
    assert AnswersFrom(names, i, respond) == [RootItemPrice(respond(i)(names[i]))] + rest;
    if i < k {
      AnswersFromAt(names, respond, i + 1, k);
      assert AnswersFrom(names, i, respond)[k - i] == rest[k - i - 1];
    }
  }

  /** The price loop of `check` over `names`, as a value: one request per
      name occurrence; a truthy (present and non-zero) price is added and
      followed by a sleep. */
  function PriceLoop(names: seq<string>, respond: nat -> string -> PriceAttempt): (r: LoopOutcome)
    ensures r.Aborted? ==> r.at < |names|
  {
    PriceRun(Answers(names, respond), |names|)
  }

  /** The first `k` iterations of the price loop over the answers. */
  function PriceRun(answers: seq<Answer>, k: nat): (r: LoopOutcome)
    requires k <= |answers|
    ensures r.Aborted? ==> r.at < k
  {
    if k == 0 then Completed(0.0, 0)
    else
      match PriceRun(answers, k - 1)
      case Aborted(j, naps) => Aborted(j, naps)
      case Completed(total, naps) => LookupStep(total, naps, k - 1, answers[k - 1])
  }

  /** One iteration of the loop, request `k` having been answered `price`. */
  function LookupStep(total: real, naps: nat, k: nat, price: Answer): (r: LoopOutcome)
    ensures r.Aborted? ==> r.at == k && r.naps == naps
  {
    match price
    case Err(_) => Aborted(k, naps)
    case Ok(p) =>
      if p.Some? && p.value != 0.0 then Completed(total + p.value, naps + 1)
      else Completed(total, naps)
  }

  /** The loop aborts exactly at the first answer that is an error. */
  lemma {:induction false} PriceRunAborts(answers: seq<Answer>, k: nat)
    requires k <= |answers|
    ensures PriceRun(answers, k).Aborted? ==>
      var j := PriceRun(answers, k).at;
      answers[j].Err? && forall i :: 0 <= i < j ==> answers[i].Ok?
  {
    if k > 0 {
      if PriceRun(answers, k - 1).Aborted? {
        PriceRunAborts(answers, k - 1);
      } else {
        PriceRunCompletes(answers, k - 1);
      }
    }
  }

  /** The loop completes exactly when no answer is an error. */
  lemma {:induction false} PriceRunCompletes(answers: seq<Answer>, k: nat)
    requires k <= |answers|
    ensures PriceRun(answers, k).Completed? <==> forall j :: 0 <= j < k ==> answers[j].Ok?
  {
    if k > 0 {
      PriceRunCompletes(answers, k - 1);
      if PriceRun(answers, k - 1).Aborted? {
        PriceRunAborts(answers, k - 1);
      }
    }
  }

  /** With non-negative prices, a completed loop has a non-negative total;
      either way there is at most one sleep per lookup. */
  lemma {:induction false} PriceRunBounds(answers: seq<Answer>, k: nat)
    requires k <= |answers|
    requires forall j :: 0 <= j < k && answers[j].Ok? && answers[j].value.Some? ==> answers[j].value.value >= 0.0
    ensures PriceRun(answers, k).Completed? ==> PriceRun(answers, k).total >= 0.0
    ensures PriceRun(answers, k).naps <= k
  {
    if k > 0 {
      PriceRunBounds(answers, k - 1);
    }
  }

  /** Answers that all give the same non-zero price `v` are each added and
      each followed by a sleep: the run sums one `v` per occurrence. */
  lemma {:induction false} PriceRunCopies(answers: seq<Answer>, k: nat, v: real)
    requires k <= |answers| && v != 0.0
    requires forall j :: 0 <= j < |answers| ==> answers[j] == Ok(Some(v))
    ensures PriceRun(answers, k) == Completed(Repeated(k, v), k)
  {
    if k > 0 {
      PriceRunCopies(answers, k - 1, v);
    }
  }

  /** Once the first `j` iterations abort, every longer run aborts at the
      same request. */
  lemma {:induction false} PriceRunAbortSticks(answers: seq<Answer>, j: nat, k: nat)
    requires j <= k <= |answers| && PriceRun(answers, j).Aborted?
    ensures PriceRun(answers, k) == PriceRun(answers, j)
  {
    if j < k {
      PriceRunAbortSticks(answers, j, k - 1);
    }
  }

  /** `check` aborts exactly at the first price request that raises. */
  lemma PriceLoopAborts(names: seq<string>, respond: nat -> string -> PriceAttempt)
    ensures PriceLoop(names, respond).Aborted? ==>
      var k := PriceLoop(names, respond).at;
      respond(k)(names[k]).Raised? && forall j :: 0 <= j < k ==> !respond(j)(names[j]).Raised?
  {
    var answers := Answers(names, respond);
    PriceRunAborts(answers, |names|);
    forall j | 0 <= j < |names| {
      AnswersAt(names, respond, j);
    }
  }

  /** `check` finishes its loop exactly when no price request raises. */
  lemma PriceLoopCompletes(names: seq<string>, respond: nat -> string -> PriceAttempt)
    ensures PriceLoop(names, respond).Completed? <==> forall j :: 0 <= j < |names| ==> !respond(j)(names[j]).Raised?
  {
    var answers := Answers(names, respond);
    PriceRunCompletes(answers, |names|);
    forall j | 0 <= j < |names| {
      AnswersAt(names, respond, j);
    }
  }

  /** A completed loop of `check` has a non-negative total, and the loop,
      completed or not, sleeps at most once per name. */
  lemma PriceLoopBounds(names: seq<string>, respond: nat -> string -> PriceAttempt)
    ensures PriceLoop(names, respond).Completed? ==> PriceLoop(names, respond).total >= 0.0
    ensures PriceLoop(names, respond).naps <= |names|
  {
    var answers := Answers(names, respond);
    forall j | 0 <= j < |names| {
      AnswersAt(names, respond, j);
    }
    PriceRunBounds(answers, |names|);
  }

  /** `check` over `n` occurrences of one name whose every request gets the
      same answer `attempt`, a non-zero price `v`: the loop completes with
      total `n * v` and `n` sleeps, since main.py looks up every occurrence. */
  lemma PriceLoopCopies(names: seq<string>, respond: nat -> string -> PriceAttempt, name: string,
                        attempt: PriceAttempt, v: real)
    requires v != 0.0 && RootItemPrice(attempt) == Ok(Some(v))
    requires forall j :: 0 <= j < |names| ==> names[j] == name && respond(j)(name) == attempt
    ensures PriceLoop(names, respond) == Completed(|names| as real * v, |names|)
  {
    AnswersCopies(names, respond, name, attempt);
    PriceLoopOfAnswers(names, respond, v);
  }

  /** A loop whose every answer is the same non-zero price `v`. */
  lemma PriceLoopOfAnswers(names: seq<string>, respond: nat -> string -> PriceAttempt, v: real)
    requires v != 0.0
    requires forall j :: 0 <= j < |names| ==> Answers(names, respond)[j] == Ok(Some(v))
    ensures PriceLoop(names, respond) == Completed(Repeated(|names|, v), |names|)
  {
    PriceRunCopies(Answers(names, respond), |names|, v);
  }

  /** Requests for one name that all get the same attempt are all answered
      alike. */
  lemma AnswersCopies(names: seq<string>, respond: nat -> string -> PriceAttempt, name: string, attempt: PriceAttempt)
    requires forall j :: 0 <= j < |names| ==> names[j] == name && respond(j)(name) == attempt
    ensures forall j :: 0 <= j < |names| ==> Answers(names, respond)[j] == RootItemPrice(attempt)
  {
    forall j | 0 <= j < |names| {
      AnswersAt(names, respond, j);
    }
  }

  /** `round(total, 2)` on an exact value: the nearest multiple of 0.01,
      ties to the even multiple. */
  function Round2(x: real): (r: real)
    ensures (r * 100.0).Floor as real == r * 100.0
    ensures -0.005 <= r - x <= 0.005
  {
    var m := NearestInteger(x * 100.0);
    HundredthsBound(x, m);
    m as real / 100.0
  }

  /** The integer nearest to `y`, ties to the even one. */
  function NearestInteger(y: real): (m: int)
    ensures -0.5 <= m as real - y <= 0.5
  {
    var f := y.Floor;
    if y - f as real < 0.5 then f
    else if y - f as real > 0.5 then f + 1
    else if f % 2 == 0 then f else f + 1
  }

  lemma HundredthsBound(x: real, m: int)
    requires -0.5 <= m as real - x * 100.0 <= 0.5
    ensures (m as real / 100.0 * 100.0).Floor as real == m as real / 100.0 * 100.0
    ensures -0.005 <= m as real / 100.0 - x <= 0.005
  {
    assert m as real / 100.0 * 100.0 == m as real;
  }

  /** A value with at most two decimals is left as it is. */
  lemma Round2Exact(m: int)
    ensures Round2(m as real / 100.0) == m as real / 100.0
  {
    assert (m as real / 100.0) * 100.0 == m as real;
  }

  /** The names `check` loops over for a non-empty link: resolve the
      account, then list its inventory's names. */
  function LinkNames(link: string, page: string -> PageFetch, inventory: string -> InventoryResponse)
    : (r: Result<seq<string>, Error>)
    ensures SteamId64(link, page).Err? ==> r == Err(SteamId64(link, page).error)
    ensures SteamId64(link, page).Ok? ==> r == InventoryNames(SteamId64(link, page).value, inventory)
  {
    match SteamId64(link, page)
    case Err(e) => Err(e)
    case Ok(id) => InventoryNames(id, inventory)
  }

  /** The reply of `check` for a request body whose "link" is `link`. */
  function RootReply(link: Option<string>, page: string -> PageFetch, inventory: string -> InventoryResponse,
                     respond: nat -> string -> PriceAttempt): Reply
  {
    if !Truthy(link) then NoLink
    else
      match LinkNames(link.value, page, inventory)
      case Err(e) => Failed(e)
      case Ok(names) => NamesReply(names, respond)
  }

  /** The reply of `check` once the account's names are listed. */
  function NamesReply(names: seq<string>, respond: nat -> string -> PriceAttempt): Reply
  {
    match PriceLoop(names, respond)
    case Aborted(_, _) => Failed(HttpError)
    case Completed(total, _) => TotalValue(Round2(total))
  }

  /** The price loop of `check`: one request per name occurrence, in list
      order, stopping at the first that raises. */
  method PriceLookups(names: seq<string>, respond: nat -> string -> PriceAttempt)
    returns (outcome: LoopOutcome, lookups: seq<string>)
    ensures outcome == PriceLoop(names, respond)
    ensures outcome.Completed? ==> lookups == names
    ensures outcome.Aborted? ==> outcome.at < |names| && lookups == names[..outcome.at + 1]
  {
    ghost var answers := Answers(names, respond);
    lookups := [];
    var total, naps := 0.0, 0;
    for k := 0 to |names|
      invariant lookups == names[..k]
      invariant PriceRun(answers, k) == Completed(total, naps)
    {
      assert names[..k + 1] == names[..k] + [names[k]];
      lookups := lookups + [names[k]];
      var price := RootItemPrice(respond(k)(names[k]));
      AnswersAt(names, respond, k);
      if price.Err? {
        PriceRunAbortSticks(answers, k + 1, |names|);
        return Aborted(k, naps), lookups;
      }
      if price.value.Some? && price.value.value != 0.0 {
        total := total + price.value.value;
        naps := naps + 1;
      }
    }
    outcome := Completed(total, naps);
  }

  /** `check`. `lookups` lists the names whose price was requested, in
      request order, and `naps` counts the 0.1 s sleeps. */
  method Check(link: Option<string>, page: string -> PageFetch, inventory: string -> InventoryResponse,
               respond: nat -> string -> PriceAttempt)
    returns (reply: Reply, lookups: seq<string>, naps: nat)
    ensures reply == RootReply(link, page, inventory, respond)
    ensures !Truthy(link) || LinkNames(link.value, page, inventory).Err? ==> lookups == [] && naps == 0
    ensures Truthy(link) && LinkNames(link.value, page, inventory).Ok? ==>
      var names := LinkNames(link.value, page, inventory).value;
      var outcome := PriceLoop(names, respond);
      && naps == outcome.naps
      && (outcome.Completed? ==> lookups == names)
      && (outcome.Aborted? ==> lookups == names[..outcome.at + 1])
  {
    if !Truthy(link) {
      return NoLink, [], 0;
    }
    var id := SteamId64(link.value, page);
    if id.Err? {
      return Failed(id.error), [], 0;
    }
    var inventoryNames := GetInventoryItems(id.value, inventory);
    assert inventoryNames == LinkNames(link.value, page, inventory);
    if inventoryNames.Err? {
      return Failed(inventoryNames.error), [], 0;
    }
    assert RootReply(link, page, inventory, respond) == NamesReply(inventoryNames.value, respond);
    reply, lookups, naps := PriceAndReply(inventoryNames.value, respond);
  }

  /** The price loop of `check` followed by its reply: the rounded total, or
      a server error when a request raised. */
  method PriceAndReply(names: seq<string>, respond: nat -> string -> PriceAttempt)
    returns (reply: Reply, lookups: seq<string>, naps: nat)
    ensures reply == NamesReply(names, respond)
    ensures naps == PriceLoop(names, respond).naps
    ensures PriceLoop(names, respond).Completed? ==> lookups == names
    ensures PriceLoop(names, respond).Aborted? ==> lookups == names[..PriceLoop(names, respond).at + 1]
  {
    var outcome;
    outcome, lookups := PriceLookups(names, respond);
    naps := outcome.naps;
    match outcome
    case Aborted(_, _) =>
      reply := Failed(HttpError);
    case Completed(total, _) =>
      reply := TotalValue(Round2(total));
  }

  /** A missing or empty link is answered 400 before anything is fetched. */
  lemma NoLinkIsBadRequest(link: Option<string>, page: string -> PageFetch, inventory: string -> InventoryResponse,
                           respond: nat -> string -> PriceAttempt)
    requires link.None? || link == Some("")
    ensures StatusCode(RootReply(link, page, inventory, respond)) == 400
  {
  }

  /** A raised price request is answered 500, whatever the earlier lookups gave. */
  lemma RaisedLookupIsServerError(link: Option<string>, page: string -> PageFetch,
                                  inventory: string -> InventoryResponse, respond: nat -> string -> PriceAttempt, k: nat)
    requires Truthy(link) && LinkNames(link.value, page, inventory).Ok?
    requires k < |LinkNames(link.value, page, inventory).value|
    requires respond(k)(LinkNames(link.value, page, inventory).value[k]).Raised?
    ensures RootReply(link, page, inventory, respond) == Failed(HttpError)
  {
    var names := LinkNames(link.value, page, inventory).value;
    PriceLoopCompletes(names, respond);
  }
}
