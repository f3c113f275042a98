/**
 * The price request of app.py: `get_cached_price`, `save_price` and the
 * hit/fetch/503 decision of `get_price`, as one pure transition from the cache
 * table before the request to the response and the cache table after it.
 *
 * The SQL table `cache(key, value, timestamp)` is a map from key to row; the
 * service only ever reads and writes the key 'price'.  Each request sees one
 * clock reading `now` (integer seconds) and its collaborators' behaviour: a
 * failing cache read, the fetch outcome, a failing cache write.
 */
module App {

  import opened Wrappers
  import opened PyValues
  import opened Service
  import Scraper

  const CacheKey: string := "price"

  datatype Row = Row(value: int, timestamp: int)

  type CacheTable = map<string, Row>

  /** What one request meets: the clock, whether the cache read raises, the
      fetch outcome (used only if a fetch is made) and whether the write raises. */
  datatype Request = Request(now: int, readFault: bool, fetch: FetchOutcome, writeFault: bool)

  /** The response, the cache table afterwards, and whether the page was fetched. */
  datatype Served = Served(response: Response, cache: CacheTable, fetched: bool)

  /** Every cached price is plausible. */
  predicate CacheInvariant(cache: CacheTable) {
    CacheKey in cache ==> Scraper.Plausible(cache[CacheKey].value)
  }

  /** `get_cached_price`: the stored value while younger than the window;
      a missing row, an expired row and a read fault are all misses. */
  function GetCachedPrice(cache: CacheTable, now: int, readFault: bool): (r: Option<int>)
    ensures r.Some? ==> CacheKey in cache && r.value == cache[CacheKey].value
  {
    if readFault then None
    else if CacheKey in cache && Fresh(cache[CacheKey].timestamp, now) then Some(cache[CacheKey].value)
    else None
  }

  /** `save_price`: `INSERT OR REPLACE` of the 'price' row; a write fault is
      swallowed and leaves the table as it was. */
  function SavePrice(cache: CacheTable, price: int, now: int, writeFault: bool): (c: CacheTable)
    ensures !writeFault ==> CacheKey in c && c[CacheKey] == Row(price, now)
    ensures writeFault ==> c == cache
    ensures forall key :: key != CacheKey ==> (key in c <==> key in cache)
    ensures forall key :: key != CacheKey && key in cache ==> c[key] == cache[key]
  {
    if writeFault then cache else cache[CacheKey := Row(price, now)]
  }

  /** `if price:` on `None` or an `int`. */
  predicate Obtained(price: Option<int>) {
    Truthy(FromOption(price))
  }

  function Respond(price: Option<int>, cached: bool, now: int): (r: Response)
    ensures r.status == 200 <==> price.Some? && price.value != 0
    ensures r.status == 200 ==> r.body == PriceBody(price.value, cached, now)
    ensures r.status != 200 ==> r == Unavailable
  {
    if Obtained(price) then Success(price.value, cached, now) else Unavailable
  }

  /** `get_price`: serve the cache if it hits, else fetch once, extract, write
      through on a price, and answer 200 with the price or 503. */
  function GetPrice(cache: CacheTable, req: Request): (s: Served)
    ensures s.response.status == 200 || s.response.status == 503
    ensures s.fetched <==> GetCachedPrice(cache, req.now, req.readFault).None?
  {
    var hit := GetCachedPrice(cache, req.now, req.readFault);
    if hit.Some? then
      Served(Respond(hit, true, req.now), cache, false)
    else
      match req.fetch
      case FetchFailed => Served(Unavailable, cache, true)
      case Fetched(text) =>
        var price := Scraper.ExtractPrice(text);
        var after := if Obtained(price) then SavePrice(cache, price.value, req.now, req.writeFault) else cache;
        Served(Respond(price, false, req.now), after, true)
  }

  // ---------------------------------------------------------------------------
  // Properties
  // ---------------------------------------------------------------------------

  /** With a readable cache, the request is served from the cache exactly when
      the stored row is younger than 300 seconds; the cache is then untouched
      and the answer is the stored price flagged `cached`. */
  lemma HitIffYoungerThanWindow(cache: CacheTable, req: Request)
    requires !req.readFault && CacheInvariant(cache)
    ensures var s := GetPrice(cache, req);
      !s.fetched <==> CacheKey in cache && req.now - cache[CacheKey].timestamp < 300
    ensures var s := GetPrice(cache, req);
      !s.fetched ==> s.cache == cache && s.response == Success(cache[CacheKey].value, true, req.now)
  {
  }

  /** The window edge: a row 299 seconds old is served, one 300 seconds old is not. */
  lemma WindowEdge(price: int, t: int, fetch: FetchOutcome)
    requires Scraper.Plausible(price)
    ensures !GetPrice(map[CacheKey := Row(price, t)], Request(t + 299, false, fetch, false)).fetched
    ensures GetPrice(map[CacheKey := Row(price, t)], Request(t + 300, false, fetch, false)).fetched
  {
  }

  /** A cache read fault counts as a miss: the request answers as it would
      with an empty cache, and writes to the real table what it would have
      written to that empty one. */
  lemma ReadFaultIsMiss(cache: CacheTable, req: Request)
    requires req.readFault
    ensures var s := GetPrice(cache, req);
      s.fetched && s.response == GetPrice(map[], req.(readFault := false)).response
    ensures GetPrice(cache, req).cache == cache + GetPrice(map[], req.(readFault := false)).cache
  {
  }

  /** The cache changes only after a fetch whose text yields a price, and then
      only the 'price' row, to that price and the request time; the price is
      answered as fresh. */
  lemma WriteOnlyOnExtractedPrice(cache: CacheTable, req: Request)
    ensures var s := GetPrice(cache, req);
      s.cache != cache ==>
        && s.fetched && req.fetch.Fetched? && !req.writeFault
        && var p := Scraper.ExtractPrice(req.fetch.text);
        && p.Some?
        && s.cache == cache[CacheKey := Row(p.value, req.now)]
        && s.response == Success(p.value, false, req.now)
  {
  }

  /** A fetch that fails or yields no price answers 503 and leaves the cache alone. */
  lemma FailedFetchIsUnavailable(cache: CacheTable, req: Request)
    requires GetPrice(cache, req).fetched
    requires req.fetch.FetchFailed? || Scraper.ExtractPrice(req.fetch.text).None?
    ensures GetPrice(cache, req).response == Unavailable
    ensures GetPrice(cache, req).cache == cache
  {
  }

  /** A successful answer says `cached` exactly when it did not fetch, and a
      fresh answer carries the extracted price. */
  lemma CachedFlagMeansFromCache(cache: CacheTable, req: Request)
    ensures var s := GetPrice(cache, req);
      s.response.status == 200 ==> (s.response.body.cached <==> !s.fetched)
    ensures var s := GetPrice(cache, req);
      s.fetched && s.response.status == 200 ==>
        && req.fetch.Fetched?
        && Scraper.ExtractPrice(req.fetch.text) == Some(s.response.body.price)
  {
  }

  /** Every price the cache ever holds is plausible. */
  lemma CacheInvariantPreserved(cache: CacheTable, req: Request)
    requires CacheInvariant(cache)
    ensures CacheInvariant(GetPrice(cache, req).cache)
  {
  }

  /** With a plausible cache, the answer is a success exactly when a price was
      obtained, from the cache or from the page. */
  lemma SuccessIffPriceObtained(cache: CacheTable, req: Request)
    requires CacheInvariant(cache)
    ensures var s := GetPrice(cache, req);
      s.response.status == 200 <==>
        !s.fetched || (req.fetch.Fetched? && Scraper.ExtractPrice(req.fetch.text).Some?)
  {
  }

  /** A cache write fault never changes the answer. */
  lemma WriteFaultInvisible(cache: CacheTable, req: Request)
    ensures GetPrice(cache, req.(writeFault := true)).response == GetPrice(cache, req.(writeFault := false)).response
  {
  }

  /** A fresh price fetched at time T is served from the cache to a request at
      T + d for d < 300, with the same price; at d >= 300 the page is fetched again. */
  lemma FreshFetchThenLaterRequest(cache: CacheTable, first: Request, second: Request)
    requires !first.writeFault && !second.readFault
    requires GetPrice(cache, first).fetched && GetPrice(cache, first).response.status == 200
    ensures var s1 := GetPrice(cache, first);
      var s2 := GetPrice(s1.cache, second);
      second.now - first.now < 300 ==>
        && !s2.fetched && s2.cache == s1.cache
        && s2.response == Success(s1.response.body.price, true, second.now)
    ensures var s1 := GetPrice(cache, first);
      second.now - first.now >= 300 ==> GetPrice(s1.cache, second).fetched
  {
  }

  /** Two cache hits within the window give the same price and change nothing. */
  lemma HitsAreStable(cache: CacheTable, first: Request, second: Request)
    requires CacheInvariant(cache) && !first.readFault && !second.readFault
    requires !GetPrice(cache, first).fetched
    requires first.now <= second.now && CacheKey in cache && Fresh(cache[CacheKey].timestamp, second.now)
    ensures var s1 := GetPrice(cache, first);
      var s2 := GetPrice(s1.cache, second);
      && !s2.fetched && s2.cache == cache
      && s1.response.body.price == s2.response.body.price
  {
  }
}
