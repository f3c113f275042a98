/**
 * What the two service variants (app.py with a local SQL cache, handler.py with
 * a hosted key-value cache) have in common: the outcome of the one page fetch,
 * the 5-minute validity window and the shape of the responses.
 */
module Service {

  /** The page fetch (`requests.get` followed by `raise_for_status`): either the
      page text or a failure (network error, timeout, non-success status). */
  datatype FetchOutcome = FetchFailed | Fetched(text: string)

  /** How long a cached price is served, in seconds. */
  const ValiditySeconds: int := 300

  /** A record stamped `timestamp` is still valid at `now`: its age is strictly
      below the window. */
  predicate Fresh(timestamp: int, now: int) {
    now - timestamp < ValiditySeconds
  }

  /** A record is valid from its stamp until just before 300 seconds have
      passed, and once stale it stays stale. */
  lemma FreshWindow(timestamp: int, now: int, later: int)
    requires now <= later
    ensures Fresh(timestamp, now) <==> now < timestamp + 300
    ensures Fresh(timestamp, timestamp) && !Fresh(timestamp, timestamp + 300)
    ensures !Fresh(timestamp, now) ==> !Fresh(timestamp, later)
  { }

  /** The JSON body: the price payload (`price`, `cached`, `timestamp`; the
      derived `text_he`, `text_en` and `currency` fields are not modelled) or
      an `{error, message}` pair. */
  datatype Body =
    | PriceBody(price: int, cached: bool, timestamp: int)
    | ErrorBody(error: string, message: string)

  datatype Response = Response(status: int, body: Body)

  function Success(price: int, cached: bool, now: int): Response {
    Response(200, PriceBody(price, cached, now))
  }

  /** The 503 answer when no price could be obtained. */
  const Unavailable: Response :=
    Response(503, ErrorBody("Service temporarily unavailable", "Could not retrieve current price"))
}
