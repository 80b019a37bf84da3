/** The `/check` handler of api/app.py: reject a missing link, otherwise load
    the inventory, attach prices and add up every item's lowest price. */
module ApiApp {
  import opened Wrappers
  import opened Upstream
  import opened SteamApi
  import opened Replies
  import opened Decimal

  /** What one item adds to the total: its parsed lowest price, or 0 when it
      has no price, a `None` price, no `lowest_price` or one that does not
      parse. */
  function ItemValue(item: NamedItem): (v: real)
    ensures v >= 0.0
    ensures item.price.NoPriceKey? || item.price == Priced(None) ==> v == 0.0
    ensures item.price.Priced? && item.price.quote.Some? ==>
              var parsed := ParsePriceToFloat(item.price.quote.value.lowestPrice);
              (parsed.None? ==> v == 0.0) && (parsed.Some? ==> v == parsed.value)
  {
    match item.price
    case Priced(Some(quote)) => ParsePriceToFloat(quote.lowestPrice).GetOr(0.0)
    case _ => 0.0
  }

  /** The sum of the item values, in list order. */
  function ItemsTotal(items: seq<NamedItem>): real {
    if items == [] then 0.0 else ItemsTotal(items[..|items| - 1]) + ItemValue(items[|items| - 1])
  }

  /** The total of a concatenation is the sum of the totals. */
  lemma {:induction false} ItemsTotalAppend(s: seq<NamedItem>, t: seq<NamedItem>)
    ensures ItemsTotal(s + t) == ItemsTotal(s) + ItemsTotal(t)
    decreases |t|
  {
    if t == [] {
      assert s + t == s;
    } else {
      assert (s + t)[..|s + t| - 1] == s + t[..|t| - 1];
      ItemsTotalAppend(s, t[..|t| - 1]);
    }
  }

  /** No item contributes a negative amount, so the total is never negative. */
  lemma {:induction false} ItemsTotalNonNegative(s: seq<NamedItem>)
    ensures ItemsTotal(s) >= 0.0
  {
    if s != [] {
      ItemsTotalNonNegative(s[..|s| - 1]);
    }
  }

  lemma {:induction false} ItemsTotalRepeated(s: seq<NamedItem>, x: NamedItem)
    requires forall i :: 0 <= i < |s| ==> s[i] == x
    ensures ItemsTotal(s) == Repeated(|s|, ItemValue(x))
  {
    if s != [] {
      var prefix := s[..|s| - 1];
      assert forall i :: 0 <= i < |prefix| ==> prefix[i] == x;
      ItemsTotalRepeated(prefix, x);
      assert s[|s| - 1] == x;
      var v := ItemValue(x);
      assert ItemsTotal(s) == ItemsTotal(prefix) + v;
      assert Repeated(|s|, v) == Repeated(|prefix|, v) + v;
    }
  }

  /** `n` copies of an item contribute `n` times its value: the sum runs
      over items, not over distinct names. */
  lemma ItemsTotalCopies(s: seq<NamedItem>, x: NamedItem)
    requires forall i :: 0 <= i < |s| ==> s[i] == x
    ensures ItemsTotal(s) == |s| as real * ItemValue(x)
  {
    ItemsTotalRepeated(s, x);
  }

  /** The summing loop of `check`. */
  method SumTotal(a: array<NamedItem>) returns (total: real)
    ensures total == ItemsTotal(a[..])
  {
    total := 0.0;
    for i := 0 to a.Length
      invariant total == ItemsTotal(a[..i])
    {
      var priceInfo := if a[i].price.Priced? && a[i].price.quote.Some? then a[i].price.quote.value
                       else PriceQuote(None, None, None);
      var value := ParsePriceToFloat(priceInfo.lowestPrice);
      if value.Some? {
        total := total + value.value;
      }
      assert total == ItemsTotal(a[..i]) + ItemValue(a[i]);
      assert a[..i + 1][..i] == a[..i];
    }
    assert a[..a.Length] == a[..];
  }

  function PricedItems(items: seq<NamedItem>, prices: string -> nat -> PriceAttempt): (r: seq<NamedItem>)
    ensures |r| == |items|
  {
    seq(|items|, i requires 0 <= i < |items| => WithPrice(items[i], prices))
  }

  /** The reply of `check` for a request body whose "link" is `link`;
      `urlPath` stands for `urlparse(link).path`. */
  function CheckReply(link: Option<string>, urlPath: string -> string, page: string -> PageFetch,
                      inventory: string -> InventoryResponse, prices: string -> nat -> PriceAttempt): Reply
  {
    if !Truthy(link) then NoLink
    else
      match InventoryResult(link.value, urlPath(link.value), page, inventory)
      case Err(e) => Failed(e)
      case Ok(items) => TotalValue(ItemsTotal(PricedItems(items, prices)))
  }

  /** `check`. `lookups` lists the names whose price was requested. */
  method Check(link: Option<string>, urlPath: string -> string, page: string -> PageFetch,
               inventory: string -> InventoryResponse, prices: string -> nat -> PriceAttempt)
    returns (reply: Reply, lookups: seq<string>)
    ensures reply == CheckReply(link, urlPath, page, inventory, prices)
    ensures !Truthy(link) ==> reply == NoLink && lookups == []
    ensures reply.Failed? ==> lookups == []
    ensures reply.TotalValue? ==>
      var items := InventoryResult(link.value, urlPath(link.value), page, inventory).value;
      && (forall n :: n in lookups <==> n in UniqueNames(items))
      && (forall i, j :: 0 <= i < j < |lookups| ==> lookups[i] != lookups[j])
  {
    lookups := [];
    if !Truthy(link) {
      return NoLink, [];
    }
    var inventoryItems := GetInventory(link.value, urlPath(link.value), page, inventory);
    if inventoryItems.Err? {
      return Failed(inventoryItems.error), [];
    }
    var items := inventoryItems.value;
    var a := new NamedItem[|items|](i requires 0 <= i < |items| => items[i]);
    assert a[..] == items;
    var delay;
    lookups, delay := AddPricesToItems(a, prices);
    assert a[..] == PricedItems(items, prices);
    var total := SumTotal(a);
    reply := TotalValue(total);
  }

  /** A missing or empty link is answered 400 before anything is fetched. */
  lemma NoLinkIsBadRequest(link: Option<string>, urlPath: string -> string, page: string -> PageFetch,
                           inventory: string -> InventoryResponse, prices: string -> nat -> PriceAttempt)
    requires link.None? || link == Some("")
    ensures StatusCode(CheckReply(link, urlPath, page, inventory, prices)) == 400
  {
  }

  /** An inventory payload whose `success` flag is falsy is answered 500. */
  lemma SteamFailureIsServerError(link: string, urlPath: string -> string, page: string -> PageFetch,
                                  inventory: string -> InventoryResponse, prices: string -> nat -> PriceAttempt)
    requires link != []
    requires ResolveSteamId(link, urlPath(link), page).Ok?
    requires var response := inventory(InventoryUrl(ResolveSteamId(link, urlPath(link), page).value, AppId, ContextId));
      response.InventoryOk? && !TruthyFlag(response.payload.success)
    ensures CheckReply(Some(link), urlPath, page, inventory, prices) == Failed(SteamFailure)
  {
  }

  /** Two owned copies of one item whose lowest price reads "1,50 $" are
      worth 3.0 together. */
  lemma TwoCopiesTotal(link: string, urlPath: string -> string, page: string -> PageFetch,
                       inventory: string -> InventoryResponse, prices: string -> nat -> PriceAttempt, x: NamedItem)
    requires link != []
    requires InventoryResult(link, urlPath(link), page, inventory) == Ok([x, x])
    requires x.name == Some("Widget")
    requires LookupResult(prices("Widget"), DefaultRetries) == Some(PriceQuote(Some("1,50 $"), None, None))
    ensures CheckReply(Some(link), urlPath, page, inventory, prices) == TotalValue(3.0)
  {
    var y := WithPrice(x, prices);
    assert PricedItems([x, x], prices) == [y, y];
    assert CheckReply(Some(link), urlPath, page, inventory, prices) == TotalValue(ItemsTotal([y, y]));
    CommaPriceValue(y);
    PairTotal(y);
  }

  lemma CommaPriceValue(y: NamedItem)
    requires y.price == Priced(Some(PriceQuote(Some("1,50 $"), None, None)))
    ensures ItemValue(y) == 1.5
  {
    ParsePriceCommaDecimal();
  }

  lemma PairTotal(y: NamedItem)
    ensures ItemsTotal([y, y]) == ItemValue(y) + ItemValue(y)
  {
    var pair := [y, y];
    assert pair[..1] == [y];
    assert [y][..0] == [];
    assert ItemsTotal([y]) == ItemValue(y);
    assert ItemsTotal(pair) == ItemsTotal(pair[..1]) + ItemValue(pair[1]);
  }
}
