/** What the upstream platform hands back, as values. Every network call of
    the system is replaced by one of these: the outcome of fetching a profile
    page, of fetching an inventory, or of one price request. JSON objects are
    records whose fields are `Option`s (`None` for a missing key). */
module Upstream {
  import opened Wrappers

  /** The exceptions that reach a caller. Message texts are not modelled. */
  datatype Error =
    | HttpError        // the request raised, the status was an error status, or the body was not JSON
    | SteamIdNotFound  // no account id in the profile page
    | SteamFailure     // the inventory payload's `success` flag is falsy
    | MissingKey       // a `KeyError` from indexing a JSON object with `[...]`

  /** Python truthiness of an optional string: present and non-empty. */
  predicate Truthy(s: Option<string>) {
    s.Some? && s.value != []
  }

  /** Python truthiness of the `success` flag. */
  predicate TruthyFlag(b: Option<bool>) {
    b == Some(true)
  }

  /** Fetching a profile page: it failed (raised or error status), or it gave a body. */
  datatype PageFetch = PageFailed | PageOk(body: string)

  datatype Asset = Asset(assetid: Option<string>, classid: Option<string>, instanceid: Option<string>)

  datatype Description = Description(
    classid: Option<string>,
    instanceid: Option<string>,
    marketHashName: Option<string>,
    name: Option<string>,
    itemType: Option<string>)

  datatype InventoryPayload = InventoryPayload(
    success: Option<bool>,
    assets: Option<seq<Asset>>,
    descriptions: Option<seq<Description>>)

  /** Fetching an inventory: it failed (raised, error status, not JSON), or it gave a payload. */
  datatype InventoryResponse = InventoryFailed | InventoryOk(payload: InventoryPayload)

  datatype PricePayload = PricePayload(
    success: Option<bool>,
    lowestPrice: Option<string>,
    medianPrice: Option<string>,
    volume: Option<string>)

  /** One price request: it raised (network error, timeout, or a 200 body that
      is not JSON), or it answered with a status and a decoded payload. */
  datatype PriceAttempt = Raised | Responded(status: int, payload: PricePayload)

  /** The dictionary of the three optional market fields. */
  datatype PriceQuote = PriceQuote(lowestPrice: Option<string>, medianPrice: Option<string>, volume: Option<string>)
}
