# Steam inventory valuation, modelled in Dafny

This project models the deterministic core of a small service that values a
Steam account's CS:GO inventory. The service takes a profile link, resolves
it to a 64-bit account id (`steamid64`), fetches the inventory and joins its
assets with their descriptions. It then looks up each item's market price
and answers the total.

The repository holds two near-copies of this pipeline, and the model covers
both:

- **api/main.py with api/app.py** (modules `SteamApi` and `ApiApp`):
  - the profile path is matched in full;
  - a page's `"steamid"` field may have spaces around its colon;
  - every asset becomes a record, whose name falls back to the description's
    `name`;
  - each distinct name is looked up once, with up to three attempts, and the
    quote is cached onto every copy;
  - prices keep their periods, and the total is not rounded.
- **main.py** (module `SteamSite`):
  - the link is searched anywhere for `/profiles/<digits>`;
  - the page's field must be written tight, as `"steamid":"<digits>"`;
  - only `market_hash_name`s are listed;
  - every occurrence is looked up once, with no retries;
  - prices lose their periods, and the total is rounded to cents.

`Divergence` states where the two pipelines agree and exhibits inputs where
they part.

Every network call is a parameter (an oracle):

- `page(url)` is the profile-page fetch, giving `PageFailed` or a body.
- `inventory(url)` is the inventory fetch, giving `InventoryFailed` or a
  decoded payload.
- `prices(name)(attempt)` is the price request of api/main.py, attempt by
  attempt.
- `respond(k)(name)` is main.py's `k`-th price request.

JSON objects are records of `Option` fields, where `None` stands for a
missing key. Python truthiness is written out (`Truthy`, `TruthyFlag`).

Regular expressions are modelled by hand:

- `\d+` is a greedy scan over ASCII digits (`RunLength`);
- `\s*` is a greedy scan over Python's whitespace characters;
- `re.search` is the leftmost index at which the pattern matches
  (`FirstMatch`).

`float()` on a cleaned price string is read as an exact real (`ParseDecimal`).
`round(x, 2)` is rounding to the nearest hundredth, ties to even, on exact
reals (`Round2`).

Modules:

- `Wrappers`: `Option`, `Result`.
- `Text`: character classes, greedy runs, decimal formatting of integers.
- `Decimal`: `float()` on strings of digits and periods.
- `Upstream`: the payloads and errors.
- `Replies`: the handlers' replies and status codes.
- `Patterns`: the three regular expressions of the searches (`SteamApi` holds
  api/main.py's anchored path match).
- `SteamApi`, `ApiApp`, `SteamSite`, `Divergence`: as above.

The imperative parts are methods proved against specification functions:

- `JoinAssets` and `GetItemPrice` are loops; `GetInventory` calls
  `JoinAssets` on the fetched payload.
- `FetchPrices` fills the price cache one name at a time.
- `AttachPrices` and `AddPricesToItems` update an `array` of item records in
  place.
- `SumTotal` (api/app.py) and `PriceLookups` / `Check` (main.py) accumulate
  totals.
- `IndexDescriptions`, `CollectNames` and `GetInventoryItems` build
  main.py's dictionary and name list.

## Model

| member | source | states |
|---|---|---|
| Text.RunLengthRun | api/main.py:19 | a greedy `\d+` (or `\s*`) run from `i` consists of matching characters and stops at the end or at a non-matching one |
| Text.RunLengthExact | api/main.py:19 | a maximal run of matching characters is exactly what the greedy scan measures |
| Text.IntToDecimal | api/main.py:32 | `str(n)` is non-empty and is all digits exactly when `n >= 0` |
| Text.IntToDecimalInjective | api/main.py:32 | different integers format to different strings |
| Text.DigitsValueOfDecimal | main.py:60 | reading the digits of `str(n)` back gives `n` |
| Decimal.ParseDecimal | api/main.py:96-99 | `float()` on a string of digits and periods succeeds exactly when it has a digit and at most one period, and the value is non-negative |
| Decimal.ParseDecimalOfDigits | api/main.py:97 | a digit string reads as its integer value |
| Decimal.ParseDecimalOfNat | main.py:60 | `float(str(n)) == n` |
| Decimal.ParseDecimalOfFixed | api/main.py:97 | `float()` of the fixed-point string of `n` with `k` decimals (all digits of `n`, a period before its last `k`) is `n / 10^k`, so every such string reads as its own value |
| Decimal.LowDigitsValue | api/main.py:97 | the last `k` digits of a fixed-point string read back as the remainder they print |
| Text.DigitsValueConcat | api/main.py:97 | the value of two digit strings written one after the other is the first's value shifted by the second's length plus the second's |
| Decimal.Repeated | api/app.py:19-24 | a value added to itself `n` times is `n` times the value; both totals are expressed through it |
| Patterns.CaptureDigits | api/main.py:25 | a captured `(\d+)` group is a non-empty digit string found in the text at that index |
| Patterns.MatchAt | main.py:18-20 | a match of any of the three patterns (`/profiles/(\d+)`, the spaced field and the tight field) captures a non-empty digit string |
| Patterns.FieldMatchAt | api/main.py:25 | a match of `"steamid"\s*:\s*"(\d+)"` captures a non-empty digit string |
| Patterns.FirstMatch | main.py:18 | gives the leftmost matching index from `from`: the pattern matches there and nowhere before, or nowhere at all |
| Patterns.Search | api/main.py:25 | `re.search` finds something exactly when some index matches, and what it finds is the match at the leftmost such index |
| Patterns.SteamIdFieldComplete | api/main.py:25 | every text `"steamid"`, spaces, `:`, spaces, `"digits"` is matched there, capturing the digits |
| Patterns.SteamIdFieldSound | api/main.py:25 | conversely, every match is such a text |
| Upstream.Truthy | api/app.py:13 | Python truthiness of an optional string: present and non-empty |
| Upstream.TruthyFlag | api/main.py:40 | Python truthiness of the optional `success` flag: present and `True` |
| Replies.StatusCode | api/app.py:13-27 | the status of a reply: 400 for `No link`, 500 for an error, 200 for a total |
| SteamApi.DirectProfileId | api/main.py:19-21 | a match gives non-empty digits `d` with path `/profiles/d` or `/profiles/d/` |
| SteamApi.DirectProfileIdComplete | api/main.py:19-21 | every path `/profiles/d` or `/profiles/d/` with non-empty digits `d` matches and gives `d` |
| SteamApi.ResolveSteamId | api/main.py:16-28 | a direct path gives its digits. Otherwise: a failed page fetch is the HTTP error; a page without the field is the not-found error; a found id is the page's first field match. Any id is non-empty digits |
| SteamApi.DirectIdNeedsNoFetch | api/main.py:19-22 | for a direct path the result does not depend on the page oracle, so nothing is fetched |
| SteamApi.InventoryPath | api/main.py:32 | the part after the account id starts with `/` |
| SteamApi.InventoryUrl | api/main.py:32 | the inventory endpoint: the host, the account id, then `/<app id>/<context id>` and the English-locale, 2000-item query |
| SteamApi.InventoryUrlSteamId | api/main.py:32 | the inventory URL holds the host, then the account id as a maximal digit run |
| SteamApi.InventoryUrlInjective | api/main.py:32 | different account ids give different inventory URLs |
| SteamApi.BuildInventoryUrl | api/main.py:30-32 | fails exactly when resolution fails, with its error; otherwise gives the inventory URL of the resolved id |
| SteamApi.KeyPart | api/main.py:44-47 | how an f-string prints an optional id: the string itself, or `None` when the key is missing |
| SteamApi.CompositeKey | api/main.py:44-47 | the key `classid_instanceid`, with a missing class id printed as `None` and a missing instance id read as "0" |
| SteamApi.CompositeKeyInjective | api/main.py:44-47 | when class ids have no `_`, the key `classid_instanceid` determines the printed class id and the instance id, a missing one read as "0" |
| SteamApi.DescIndex | api/main.py:44 | the dictionary comprehension over the descriptions, built left to right so that a later description overwrites an earlier one with the same key |
| SteamApi.DescIndexKeys | api/main.py:44 | the description index holds exactly the descriptions' keys |
| SteamApi.DescIndexLast | api/main.py:44 | a key maps to the last description carrying it |
| SteamApi.RecordName | api/main.py:53 | `market_hash_name or name`: the `market_hash_name` when truthy, else the `name` as it is (`None`, `""` or a string) |
| SteamApi.ItemOf | api/main.py:46-55 | the record of one asset: its three ids, the name and type of the description with its key, `None` for both when there is none (the `{}` default), and no `price` key |
| SteamApi.InventoryItems | api/main.py:45-56 | one `ItemOf` record per asset, in asset order, against the description index |
| SteamApi.InventoryItemsSpec | api/main.py:45-56 | one record per asset, in asset order, with the asset's ids and no `price` key. With no description for its key, name and type are `None`; otherwise they come from the last such description, the name being `market_hash_name` when truthy, else `name` |
| SteamApi.JoinAssets | api/main.py:45-56 | the asset loop builds exactly those records |
| SteamApi.InventoryResult | api/main.py:34-56 | the value of `get_inventory`: resolution errors passed on, a failed fetch as the HTTP error, a falsy `success` as the Steam error, else the joined records, a missing `assets` or `descriptions` list read as empty |
| SteamApi.GetInventory | api/main.py:34-56 | a resolution error is passed on; a failed fetch is the HTTP error; a falsy `success` is the Steam error with no items; otherwise one record per asset |
| SteamApi.FirstSuccess | api/main.py:61-71 | finds the first attempt in range with status 200 and truthy `success`, or reports that none succeeded |
| SteamApi.Succeeded | api/main.py:64-66 | an attempt is returned from when it answered with status 200 and a truthy `success`; a raised request, any other status or a falsy flag is retried |
| SteamApi.LookupResult | api/main.py:61-76 | the value of `get_item_price`: the three fields of the first successful attempt within the retries, else `None` |
| SteamApi.GetItemPrice | api/main.py:58-76 | at most `retries` attempts, none when `retries <= 0`. Returns the three fields of the first successful attempt, trying no further; after all fail it returns `None` having made every attempt. Raised attempts count as failures. Sleeps follow every failed attempt but the last, of `attempt` half-seconds |
| SteamApi.UniqueNames | api/main.py:79 | the set of the items' truthy names |
| SteamApi.UniqueNamesOfCopies | api/main.py:79 | any number of items sharing one truthy name give one distinct name, so one lookup |
| SteamApi.FetchedOneMore | api/main.py:81-85 | looking up one more pending name keeps the loop state: each done name requested once, in call order, its result cached |
| SteamApi.FetchPrices | api/main.py:79-85 | the cache has exactly the distinct names as keys, each holding that name's lookup result. Each name is requested exactly once, and there is one 0.1 s delay per request |
| SteamApi.WithPrice | api/main.py:86-89 | an item after pricing: a truthy name gets the lookup result of that name as its `price`; any other item is left as it was |
| SteamApi.AttachPrices | api/main.py:86-89 | in place, every item with a truthy name gets its cached quote (`None` if absent); other items are untouched |
| SteamApi.AddPricesToItems | api/main.py:78-90 | in place, items keep their order and every field but `price`. Items without a truthy name get no price key; named items get their name's lookup result, so copies get the same. One call per distinct name, one delay per call |
| SteamApi.CleanPrice | api/main.py:95 | the cleaned string has only digits and periods and is no longer than the input |
| SteamApi.CleanPriceFixesClean | api/main.py:95 | a string of digits and periods is left unchanged |
| SteamApi.CleanPriceIdempotent | api/main.py:95 | cleaning twice is cleaning once |
| SteamApi.CleanPriceCounts | api/main.py:95 | cleaning keeps the presence of a digit, and every comma or period becomes a period |
| SteamApi.ParsePriceToFloat | api/main.py:92-99 | `None` or empty gives `None`; otherwise the result exists exactly when the raw string has a digit and at most one comma or period, and it is non-negative |
| SteamApi.ParsePriceNoDigits | api/main.py:93-94 | `None`, `""` and `"not a price"` give `None` |
| SteamApi.ParsePriceTwoSeparators | api/main.py:95-99 | `"1,234.56"` gives `None` |
| SteamApi.ParsePriceCommaDecimal | api/main.py:95-97 | `"1,50 $"` gives 1.5 |
| SteamApi.ParseOnePointFifty | api/main.py:97 | `float("1.50") == 1.5` |
| SteamApi.CleanPriceConcat | api/main.py:95 | cleaning works character by character: cleaning a concatenation concatenates the cleaned parts |
| SteamApi.ParsePriceOfFixed | api/main.py:92-99 | a fixed-point price `n` with `k` decimals and a period reads as `n / 10^k` |
| SteamApi.ParsePriceOfCommaFixed | api/main.py:92-99 | the same price written with a decimal comma also reads as `n / 10^k` |
| ApiApp.ItemValue | api/app.py:21-24 | an item adds a non-negative amount: nothing when it has no price or a `None` price, nothing when its `lowest_price` does not parse, and the parsed value when it does |
| ApiApp.ItemsTotal | api/app.py:19-24 | the sum of the item values in list order, starting from 0.0 |
| ApiApp.ItemsTotalAppend | api/app.py:19-24 | the total of a concatenation is the sum of the totals |
| ApiApp.ItemsTotalNonNegative | api/app.py:19-24 | the total is non-negative |
| ApiApp.ItemsTotalCopies | api/app.py:20-24 | the total of `n` copies of one item is `n` times its value, because the sum runs over items, not names |
| ApiApp.SumTotal | api/app.py:19-24 | the summing loop computes the total of all items |
| ApiApp.PricedItems | api/app.py:18 | attaching prices keeps the number of items |
| ApiApp.CheckReply | api/app.py:9-27 | the reply of `check`: `No link` for a missing or empty link, the error of a failed inventory, else the unrounded total of the priced items |
| ApiApp.Check | api/app.py:9-27 | replies per the handler. A missing or empty link gets `No link` with no lookups; a failure makes no lookups. Otherwise each distinct name of the inventory is looked up exactly once |
| ApiApp.NoLinkIsBadRequest | api/app.py:13-14 | a missing or empty link is answered 400 |
| ApiApp.SteamFailureIsServerError | api/app.py:16-27 | an inventory with a falsy `success` is answered as a server error |
| ApiApp.TwoCopiesTotal | api/app.py:17-25 | two copies named "Widget" priced `"1,50 $"` total 3.0 |
| SteamSite.SteamId64 | main.py:16-26 | a `/profiles/<digits>` anywhere in the link gives its first such digits. Otherwise: a failed fetch is the HTTP error; a page without a tight field is the not-found error; a found id is the page's first tight field. Any id is non-empty digits |
| SteamSite.ProfilesSegmentFound | main.py:18-20 | the first `/profiles/` followed by a digit run gives that maximal run |
| SteamSite.FirstMatchIs | main.py:18 | an index that matches with none before it is the one the search reports |
| SteamSite.LinkIdNeedsNoFetch | main.py:18-21 | when the link holds the segment, the result does not depend on the page oracle |
| SteamSite.AssetName | main.py:40-42 | an emitted name is non-empty |
| SteamSite.NamesOf | main.py:38-43 | the truthy `market_hash_name`s of the assets, in asset order, skipping the other assets |
| SteamSite.NamesOfPositions | main.py:38-43 | each listed name is the truthy `market_hash_name` of an asset. The assets come in increasing order, and every such asset is listed |
| SteamSite.NamesOfLength | main.py:38-43 | no more names than assets |
| SteamSite.NamesOfAllNamed | main.py:38-43 | when every asset has a name, the names are the assets' names, one for one |
| SteamSite.IndexDescriptions | main.py:36 | the index of the descriptions when every one has a `classid`, else the missing-key error |
| SteamSite.CollectNames | main.py:38-43 | the listed names when every asset has a `classid`, else the missing-key error |
| SteamSite.GetInventoryItems | main.py:28-43 | the names of the fetched inventory, or the fetch, Steam or missing-key error |
| SteamSite.InventoryNames | main.py:28-43 | the value of `get_inventory_items`: a failed fetch as the HTTP error, a falsy `success` as the Steam error, a description or asset without `classid` as the missing-key error, else the listed names |
| SteamSite.CleanPriceRoot | main.py:58 | only digits and periods remain, no more characters than before |
| SteamSite.CleanPriceRootCounts | main.py:58 | cleaning keeps the presence of a digit and leaves one period per comma of the input, so the input's own periods are gone |
| SteamSite.CleanPriceRootKeepsDigits | main.py:58 | a digit string is left unchanged |
| SteamSite.CleanPriceRootOfCommaFixed | main.py:58 | a fixed-point price with a decimal comma cleans to the same digits with a period |
| SteamSite.PriceValue | main.py:54-62 | an empty or missing price gives `None`; otherwise a value exists exactly when the raw string has a digit and at most one comma. It is non-negative |
| SteamSite.PriceValueOfNat | main.py:58-60 | the price `str(n)` reads as `n` |
| SteamSite.PriceValueOfCommaFixed | main.py:58-60 | a fixed-point price `n` with `k` decimals and a decimal comma reads as `n / 10^k` |
| SteamSite.PriceValueOfFixed | main.py:58-60 | the same price with a decimal period reads as `n`: the period is dropped |
| SteamSite.PriceValueDropsPeriod | main.py:58-60 | a price `w.f` reads as `float()` of `wf` |
| SteamSite.RootItemPrice | main.py:45-62 | raises (the HTTP error) exactly when the request raised; any price is non-negative |
| SteamSite.RootItemPriceCases | main.py:49-56 | a status other than 200 or a falsy `success` gives `None`; a successful answer gives its `lowest_price` read as a price |
| SteamSite.Answers | main.py:75-76 | one answer per name |
| SteamSite.AnswersAt | main.py:75-76 | answer `k` is the `k`-th request's price, made for the `k`-th name |
| SteamSite.PriceLoop | main.py:75-79 | an aborted loop stopped at one of the names |
| SteamSite.PriceRun | main.py:75-79 | after `k` iterations, an abort happened at one of them |
| SteamSite.LookupStep | main.py:76-79 | an iteration aborts only at its own request |
| SteamSite.PriceRunAborts | main.py:75-82 | the loop aborts at the first error answer, all earlier answers being prices |
| SteamSite.PriceRunCompletes | main.py:75-80 | the loop completes exactly when no answer is an error |
| SteamSite.PriceRunBounds | main.py:74-79 | with non-negative prices a completed run's total is non-negative; completed or aborted, there is at most one sleep per iteration |
| SteamSite.PriceRunAbortSticks | main.py:75-82 | once the loop has aborted, further names change nothing |
| SteamSite.PriceRunCopies | main.py:75-79 | answers that all give the same non-zero price `v` make a run of `k` iterations complete with total `k` times `v` and `k` sleeps |
| SteamSite.PriceLoopAborts | main.py:75-82 | `check` aborts at the first price request that raises |
| SteamSite.PriceLoopCompletes | main.py:75-80 | `check` finishes its loop exactly when no price request raises |
| SteamSite.PriceLoopBounds | main.py:74-79 | a finished loop has a non-negative total; completed or aborted, there is at most one sleep per name |
| SteamSite.PriceLoopCopies | main.py:75-79 | `n` occurrences of one name, each request answering the same non-zero price `v`: the loop completes with total `n` times `v` and `n` sleeps, one request per occurrence and no deduplication |
| SteamSite.PriceLoopOfAnswers | main.py:75-79 | a loop whose every answer is the same non-zero price `v` completes with `n` times `v` and `n` sleeps |
| SteamSite.AnswersCopies | main.py:75-76 | requests for one name that all get the same attempt are all answered alike |
| SteamSite.Round2 | main.py:80 | the result is a whole number of hundredths, within half a hundredth of the input |
| SteamSite.NearestInteger | main.py:80 | the chosen integer is within one half of the input |
| SteamSite.Round2Exact | main.py:80 | a value with at most two decimals is left unchanged |
| SteamSite.LinkNames | main.py:72-73 | a resolution error is passed on; otherwise the names are those of the resolved account's inventory |
| SteamSite.PriceLookups | main.py:75-79 | the loop ends as the loop function says. When it completes, every name was requested, in list order; when it aborts, the names up to and including the raising one were |
| SteamSite.PriceAndReply | main.py:74-82 | the total rounded to cents, or a server error after a raised request; requests and sleeps as in the loop, the sleeps before a raised request included |
| SteamSite.Check | main.py:64-82 | replies per the handler, with no requests for a missing link or a failed resolution or listing. Otherwise the requests go, in order, up to the first that raises, all of them when none does, and `naps` is the loop's sleep count in both outcomes |
| SteamSite.RootReply | main.py:64-82 | the reply of `check`: `No link` for a missing or empty link, the error of a failed resolution or listing, else the reply to the listed names |
| SteamSite.NamesReply | main.py:74-82 | the reply once the names are listed: a server error when a price request raised, else the loop total rounded to cents |
| SteamSite.NoLinkIsBadRequest | main.py:68-69 | a missing or empty link is answered 400 |
| SteamSite.RaisedLookupIsServerError | main.py:75-82 | any raised price request turns the reply into a server error, whatever the other requests gave |
| Divergence.AnchoredImpliesUnanchored | api/main.py:19 | a path api/main.py accepts is found, with the same digits, by main.py's search |
| Divergence.UnanchoredAcceptsLongerPath | main.py:18 | `/profiles/7/inventory` is rejected by api/main.py's match, yet main.py finds `7` |
| Divergence.TightFieldIsSpacedField | main.py:23 | a tight field is also a match of the spaced pattern at the same index, with the same digits |
| Divergence.TightSearchImpliesSpacedSearch | main.py:23 | a page where main.py finds an id is one where api/main.py finds one |
| Divergence.SpacedFieldNotTight | api/main.py:25 | `"steamid": "5"` is accepted only by api/main.py's pattern |
| Divergence.NamesAgreeWhenPresent | main.py:41-42 | where main.py lists a name, api/main.py's record has the same name |
| Divergence.NameFallbackOnlyInApi | api/main.py:53 | a description with only a truthy `name` names api/main.py's record and is dropped by main.py |
| Divergence.CopiesLookedUpPerOccurrence | api/main.py:79-85 | for `n` copies of one item priced `v`, api/main.py has one distinct name and so one lookup, while main.py's loop completes with `n` requests, `n` sleeps and total `n` times `v` |
| Divergence.CleaningOfPeriods | main.py:58 | on digits and periods api/main.py's cleaning keeps every period and main.py's leaves none |
| Divergence.PeriodDecimalReadsDifferently | main.py:58-60 | the price `"1.5"` reads as 1.5 in api/main.py and 15.0 in main.py |
| Divergence.ApiKeepsPeriod | api/main.py:95-97 | api/main.py reads `"1.5"` as 1.5 |
| Divergence.RootDropsPeriod | main.py:58-60 | main.py reads `"1.5"` as 15.0 |
| Divergence.PeriodPriceScaled | main.py:58-60 | a fixed-point price `n` with `k` decimals and a period reads as `n / 10^k` in api/main.py and as `n` in main.py |
| Divergence.CommaPriceAgrees | api/main.py:95-97 | with a decimal comma both read the price as `n / 10^k` |
| Divergence.RoundingTiesToEven | main.py:80 | `round` gives 0.12 for 0.125, 0.14 for 0.135 and 1.0 for 1.004 on exact values |

## Notes on the code

- api/main.py:53 gives a `None` name when the description has neither a
  truthy `market_hash_name` nor a `name`, and `""` when `name` is `""`; an
  asset with no description at all also gets a `None` name.
- api/main.py:88-89 adds no `price` key to items without a truthy name; the
  model keeps that apart from a `None` price (`NoPriceKey` against
  `Priced(None)`).
- main.py's `get_item_price` lets a network error through, and `check`
  answers it with a 500 (`SteamSite.RaisedLookupIsServerError`).
- main.py:58 drops periods when cleaning prices
  (`Divergence.PeriodDecimalReadsDifferently`, `Divergence.PeriodPriceScaled`).
- main.py:75-76 makes one price request per occurrence of a name, where
  api/main.py:79-85 makes one per distinct name
  (`Divergence.CopiesLookedUpPerOccurrence`).

## Left out

- HTTP: `requests.get`, headers, cookies, timeouts, status handling inside
  `raise_for_status` and JSON decoding are replaced by the oracle results
  `PageFetch`, `InventoryResponse` and `PriceAttempt`.
- Flask routing, CORS, port binding, `load_dotenv` and reading the request
  body are plumbing. The handlers take the body's `"link"` value as an
  `Option<string>`.
- `urlparse(...).path` is a parameter (`urlPath`), since its source is not
  part of this model. `quote` only shapes the price URL, which stays inside
  the price oracle.
- `time.sleep` is not performed. Sleeps are returned as counts: half-seconds
  in `GetItemPrice`, one 0.1 s unit per call in `FetchPrices`, and `naps` in
  main.py's `Check`.
- IEEE floating point: `float()`, sums and `round` work on exact reals, so
  representation error and accumulated float rounding are not modelled.
- Regular expressions: `\d` is ASCII digits only, not Unicode digits.
  `$`, which also matches before a final newline, is modelled as the end of
  the string only.
- Set iteration order in `add_prices_to_items` is unspecified. `FetchPrices`
  picks each next name by an arbitrary choice and promises nothing about the
  order.
- Exception message texts, and `str(e)` in the 500 replies, are reduced to
  one error constructor per cause (`Upstream.Error`).
- JSON values of an unexpected type (a number where a string is expected, a
  null list) are not modelled. Fields are either an expected value or
  missing.
- Aliasing between item dictionaries: each item is a value in one array
  slot.
- SteamSite.RootItemPrice: its contract states only the raise and sign
  facts, because a fuller contract made every caller costlier to verify. The
  status, `success` and value cases are stated by
  `SteamSite.RootItemPriceCases`.
- SteamApi.ParsePriceToFloat: reading back Python's `str()` of a parsed
  float is not modelled, since float-to-string conversion is outside the
  model. Cleaning is proved idempotent (`SteamApi.CleanPriceIdempotent`),
  and every fixed-point string reads as its own value
  (`Decimal.ParseDecimalOfFixed`, `SteamApi.ParsePriceOfFixed`).
- SteamSite.Check: states the requests made, not the text of the URLs they
  go to. main.py:47 puts the name into the price URL unquoted, where
  api/main.py:59 quotes it; the URL text is not modelled, and `respond` is
  indexed by the name.
