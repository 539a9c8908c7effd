/** The part of getSncfPrice that turns the price service's answer into a base
    fare. The request itself (URL, fetch, JSON decoding) is not modelled: the
    answer arrives as the `price` field, None when it is absent or not a number. */
module FareLookup {
  import opened Trip

  /** `response?.price || -1`, then -1 raises ApiException: a missing price, a
      price of 0 (falsy) and a price of -1 all fail; any other number is the
      base fare, unchanged. */
  function SncfPrice(response: Option<real>): (r: Result<real>)
    ensures r.Ok? <==> response.Some? && response.value != 0.0 && response.value != -1.0
    ensures r.Ok? ==> r.value == response.value
    ensures r.Err? ==> r.error == ApiException
  {
    var price := if response.Some? && response.value != 0.0 then response.value else -1.0;
    if price == -1.0 then Err(ApiException) else Ok(price)
  }
}
