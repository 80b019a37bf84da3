/** The answers both `/check` handlers give, as values. */
module Replies {
  import opened Upstream

  /** 400 `{"error": "No link"}`, 500 carrying the exception, or 200 with
      `total_value`. */
  datatype Reply = NoLink | Failed(error: Error) | TotalValue(total: real)

  function StatusCode(r: Reply): int {
    match r
    case NoLink => 400
    case Failed(_) => 500
    case TotalValue(_) => 200
  }
}
