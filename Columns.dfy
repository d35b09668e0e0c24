/**
 * The `VARCHAR` columns that handlers fill from the request body, and what
 * PostgreSQL stores when a value is longer than the column.
 */
module Columns {
  import opened Domain

  /** Width of `products.name VARCHAR(100)`. */
  const NameWidth := 100

  /** Width of `orders.status VARCHAR(20)`. */
  const StatusWidth := 20

  /** Width of `orders.payment_method VARCHAR(20)`. */
  const PaymentMethodWidth := 20

  /** Every character of `s` past the first `width` is a space. */
  predicate OnlySpacesPast(s: string, width: nat) {
    forall i :: width <= i < |s| ==> s[i] == ' '
  }

  /**
   * What a `VARCHAR(width)` column stores for `s` under PostgreSQL's
   * assignment cast: `s` itself when it fits; `s` cut to `width` characters
   * when every character past the width is a space; `None`, a failed
   * statement, when some character past the width is not a space.
   */
  function ColumnValue(s: string, width: nat): (r: Option<string>)
    ensures r.Some? <==> OnlySpacesPast(s, width)
    ensures |s| <= width ==> r == Some(s)
    ensures r.Some? ==> r.value <= s && |r.value| <= width
    ensures r.Some? && |s| > width ==> |r.value| == width
  {
    if |s| <= width then Some(s)
    else if OnlySpacesPast(s, width) then Some(s[..width])
    else None
  }
}
