/**
 * The serverless variant, handler.py: `get_cached_price`, `cache_price`,
 * `fetch_fresh_price` and the decision of `main`, as one pure transition from
 * the cache table before the invocation to the response and the table after it.
 *
 * The key-value table is a map from item id to item; the handler only uses the
 * id 'current_price'.  The invocation sees one clock reading `now` (integer
 * seconds, standing for both `datetime.now()` and `time.time()`) and the
 * behaviour of its collaborators.
 */
module Handler {

  import opened Wrappers
  import opened PyValues
  import opened Service
  import Scraper

  const CacheId: string := "current_price"

  /** Items carry an expiry (`ttl`) one hour after they are written, for the
      store's own clean-up. */
  const TtlSeconds: int := 3600

  datatype Item = Item(price: int, timestamp: int, ttl: int)

  type CacheTable = map<string, Item>

  /** What one invocation meets: the clock, whether the cache read raises, the
      fetch outcome (used only if a fetch is made), whether the cache write
      raises, and whether building the success response raises. */
  datatype Event = Event(now: int, readFault: bool, fetch: FetchOutcome, writeFault: bool, responseFault: bool)

  datatype Served = Served(response: Response, cache: CacheTable, fetched: bool)

  /** `fetch_fresh_price`'s result together with the table after it. */
  datatype FreshPrice = FreshPrice(price: Option<int>, cache: CacheTable)

  /** The 500 answer when the handler itself raises. */
  const InternalError: Response :=
    Response(500, ErrorBody("Internal server error", "An unexpected error occurred"))

  /** Every stored item holds a plausible price and expires one hour after its stamp. */
  predicate CacheInvariant(cache: CacheTable) {
    CacheId in cache ==>
      && Scraper.Plausible(cache[CacheId].price)
      && cache[CacheId].ttl == cache[CacheId].timestamp + TtlSeconds
  }

  /** `get_cached_price`: the stored price while the item is younger than five
      minutes; a missing item, an expired item and a read fault are all misses. */
  function GetCachedPrice(cache: CacheTable, now: int, readFault: bool): (r: Option<int>)
    ensures r.Some? ==> CacheId in cache && r.value == cache[CacheId].price
  {
    if readFault then None
    else if CacheId in cache && Fresh(cache[CacheId].timestamp, now) then Some(cache[CacheId].price)
    else None
  }

  /** `cache_price`: `put_item` of the whole 'current_price' item, expiring one
      hour from now; a write fault is swallowed and leaves the table as it was. */
  function CachePrice(cache: CacheTable, price: int, now: int, writeFault: bool): (c: CacheTable)
    ensures !writeFault ==> CacheId in c && c[CacheId] == Item(price, now, now + TtlSeconds)
    ensures writeFault ==> c == cache
    ensures forall id :: id != CacheId ==> (id in c <==> id in cache)
    ensures forall id :: id != CacheId && id in cache ==> c[id] == cache[id]
  {
    if writeFault then cache else cache[CacheId := Item(price, now, now + TtlSeconds)]
  }

  /** `fetch_fresh_price`: fetch, extract, and keep the price only if
      `validate_price` accepts it, caching it then. */
  function FetchFreshPrice(cache: CacheTable, now: int, fetch: FetchOutcome, writeFault: bool): (r: FreshPrice)
    ensures r.price.Some? ==> Scraper.Plausible(r.price.value)
    ensures r.price.None? ==> r.cache == cache
  {
    match fetch
    case FetchFailed => FreshPrice(None, cache)
    case Fetched(text) =>
      var price := Scraper.ExtractPrice(text);
      if Truthy(Scraper.ValidatePrice(FromOption(price))) then
        FreshPrice(price, CachePrice(cache, price.value, now, writeFault))
      else
        FreshPrice(None, cache)
  }

  /** The answer once a price is in hand: the price, or 500 when building
      the response raises. */
  function Answer(price: int, cached: bool, ev: Event): (r: Response)
    ensures r.status == 200 <==> !ev.responseFault
    ensures r.status == 200 ==> r.body == PriceBody(price, cached, ev.now)
    ensures r.status != 200 ==> r == InternalError
  {
    if ev.responseFault then InternalError else Success(price, cached, ev.now)
  }

  /** `main`: the cached price if there is one, else a fresh one; 503 when
      neither is available, 500 when building the success answer raises. */
  function Main(cache: CacheTable, ev: Event): (s: Served)
    ensures s.response.status == 200 || s.response.status == 503 || s.response.status == 500
    ensures s.fetched <==> GetCachedPrice(cache, ev.now, ev.readFault).None?
    ensures !s.fetched ==> s.cache == cache
  {
    var hit := GetCachedPrice(cache, ev.now, ev.readFault);
    if hit.Some? then
      Served(Answer(hit.value, true, ev), cache, false)
    else
      var got := FetchFreshPrice(cache, ev.now, ev.fetch, ev.writeFault);
      var response := if got.price.None? then Unavailable else Answer(got.price.value, false, ev);
      Served(response, got.cache, true)
  }

  // ---------------------------------------------------------------------------
  // Properties
  // ---------------------------------------------------------------------------

  /** `fetch_fresh_price` returns a price exactly when the page was fetched and
      the scraper found one, and then returns that price: the validation never
      rejects what the scraper returns. */
  lemma FreshPriceIsExtractedPrice(cache: CacheTable, now: int, fetch: FetchOutcome, writeFault: bool)
    ensures var r := FetchFreshPrice(cache, now, fetch, writeFault);
      r.price.Some? <==> fetch.Fetched? && Scraper.ExtractPrice(fetch.text).Some?
    ensures var r := FetchFreshPrice(cache, now, fetch, writeFault);
      fetch.Fetched? ==> r.price == Scraper.ExtractPrice(fetch.text)
  {
    if fetch.Fetched? {
      Scraper.ExtractedPricesValidate(fetch.text);
    }
  }

  /** With a readable cache, the invocation is served from the cache exactly
      when the item is younger than 300 seconds, and then answers the stored
      price flagged `cached` (unless the response itself fails). */
  lemma HitIffYoungerThanWindow(cache: CacheTable, ev: Event)
    requires !ev.readFault
    ensures var s := Main(cache, ev);
      !s.fetched <==> CacheId in cache && ev.now - cache[CacheId].timestamp < 300
    ensures var s := Main(cache, ev);
      !s.fetched && !ev.responseFault ==> s.response == Success(cache[CacheId].price, true, ev.now)
    ensures var s := Main(cache, ev);
      !s.fetched && ev.responseFault ==> s.response == InternalError
  {
  }

  /** A cache hit is always before the item's expiry: the one-hour TTL
      outlasts the five-minute window. */
  lemma HitBeforeExpiry(cache: CacheTable, now: int)
    requires CacheInvariant(cache)
    requires GetCachedPrice(cache, now, false).Some?
    ensures now < cache[CacheId].ttl
  {
  }

  /** A read fault counts as a miss: the invocation answers as it would with
      an empty table, and writes to the real table what it would have written
      to that empty one. */
  lemma ReadFaultIsMiss(cache: CacheTable, ev: Event)
    requires ev.readFault
    ensures var s := Main(cache, ev);
      s.fetched && s.response == Main(map[], ev.(readFault := false)).response
    ensures Main(cache, ev).cache == cache + Main(map[], ev.(readFault := false)).cache
  {
  }

  /** A miss whose fetch fails or yields no price answers 503 and writes nothing. */
  lemma FailedFetchIsUnavailable(cache: CacheTable, ev: Event)
    requires Main(cache, ev).fetched
    requires ev.fetch.FetchFailed? || Scraper.ExtractPrice(ev.fetch.text).None?
    ensures Main(cache, ev).response == Unavailable
    ensures Main(cache, ev).cache == cache
  {
    FreshPriceIsExtractedPrice(cache, ev.now, ev.fetch, ev.writeFault);
  }

  /** The table changes only after a fetch whose text yields a price, and then
      only the 'current_price' item, to that price stamped now and expiring in
      an hour. */
  lemma WriteOnlyOnExtractedPrice(cache: CacheTable, ev: Event)
    ensures var s := Main(cache, ev);
      s.cache != cache ==>
        && s.fetched && ev.fetch.Fetched? && !ev.writeFault
        && var p := Scraper.ExtractPrice(ev.fetch.text);
        && p.Some?
        && s.cache == cache[CacheId := Item(p.value, ev.now, ev.now + TtlSeconds)]
  {
    var got := FetchFreshPrice(cache, ev.now, ev.fetch, ev.writeFault);
    assert Main(cache, ev).fetched ==> Main(cache, ev).cache == got.cache;
    FreshPriceWrite(cache, ev.now, ev.fetch, ev.writeFault);
  }

  /** What `fetch_fresh_price` writes: nothing, or the extracted price. */
  lemma FreshPriceWrite(cache: CacheTable, now: int, fetch: FetchOutcome, writeFault: bool)
    ensures var r := FetchFreshPrice(cache, now, fetch, writeFault);
      r.cache != cache ==>
        && fetch.Fetched? && !writeFault
        && var p := Scraper.ExtractPrice(fetch.text);
        && p.Some?
        && r.cache == cache[CacheId := Item(p.value, now, now + TtlSeconds)]
  {
    FreshPriceIsExtractedPrice(cache, now, fetch, writeFault);
  }

  /** A failing response build answers 500, never 503, and only when a price
      was obtained; a price fetched on the way stays cached. */
  lemma ResponseFaultIsInternalError(cache: CacheTable, ev: Event)
    ensures var s := Main(cache, ev);
      s.response.status == 500 <==> ev.responseFault && s.response != Unavailable
    ensures var s := Main(cache, ev);
      s.response.status == 500 ==>
        s.cache == Main(cache, ev.(responseFault := false)).cache
        && Main(cache, ev.(responseFault := false)).response.status == 200
  {
  }

  /** A successful answer says `cached` exactly when it did not fetch, and a
      fresh answer carries the extracted price. */
  lemma CachedFlagMeansFromCache(cache: CacheTable, ev: Event)
    ensures var s := Main(cache, ev);
      s.response.status == 200 ==> (s.response.body.cached <==> !s.fetched)
    ensures var s := Main(cache, ev);
      s.fetched && s.response.status == 200 ==>
        && ev.fetch.Fetched?
        && Scraper.ExtractPrice(ev.fetch.text) == Some(s.response.body.price)
  {
    FreshPriceIsExtractedPrice(cache, ev.now, ev.fetch, ev.writeFault);
  }

  /** Every item the table ever holds is plausible and expires an hour after its stamp. */
  lemma CacheInvariantPreserved(cache: CacheTable, ev: Event)
    requires CacheInvariant(cache)
    ensures CacheInvariant(Main(cache, ev).cache)
  {
  }

  /** A cache write fault never changes the answer. */
  lemma WriteFaultInvisible(cache: CacheTable, ev: Event)
    ensures Main(cache, ev.(writeFault := true)).response == Main(cache, ev.(writeFault := false)).response
  {
  }

  /** A fresh price fetched at time T is served from the cache to an
      invocation at T + d for d < 300, with the same price; at d >= 300 the
      page is fetched again. */
  lemma FreshFetchThenLaterEvent(cache: CacheTable, first: Event, second: Event)
    requires !first.writeFault && !second.readFault
    requires Main(cache, first).fetched && Main(cache, first).response.status == 200
    ensures var s1 := Main(cache, first);
      var s2 := Main(s1.cache, second);
      second.now - first.now < 300 ==>
        && !s2.fetched && s2.cache == s1.cache
        && s2.response == (if second.responseFault then InternalError
                           else Success(s1.response.body.price, true, second.now))
    ensures var s1 := Main(cache, first);
      second.now - first.now >= 300 ==> Main(s1.cache, second).fetched
  {
    FreshPriceIsExtractedPrice(cache, first.now, first.fetch, first.writeFault);
  }
}
