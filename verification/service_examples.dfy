/**
 * The two service variants side by side, and one end-to-end scenario.
 */
module ServiceExamples {

  import opened Wrappers
  import opened Chars
  import opened Service
  import Scraper
  import ScraperExamples
  import App
  import Handler

  /** The two tables hold the same price with the same stamp, or both nothing. */
  predicate SameCache(a: App.CacheTable, h: Handler.CacheTable) {
    && (App.CacheKey in a <==> Handler.CacheId in h)
    && (App.CacheKey in a ==>
          a[App.CacheKey].value == h[Handler.CacheId].price
          && a[App.CacheKey].timestamp == h[Handler.CacheId].timestamp)
  }

  /** Without faults, and with tables holding the same plausible price, the
      SQL variant and the serverless variant give the same answer, fetch in
      the same cases, and leave tables that still agree. */
  lemma VariantsAgree(a: App.CacheTable, h: Handler.CacheTable, now: int, fetch: FetchOutcome)
    requires App.CacheInvariant(a) && Handler.CacheInvariant(h) && SameCache(a, h)
    ensures var sa := App.GetPrice(a, App.Request(now, false, fetch, false));
      var sh := Handler.Main(h, Handler.Event(now, false, fetch, false, false));
      && sa.response == sh.response
      && sa.fetched == sh.fetched
      && SameCache(sa.cache, sh.cache)
  {
    Handler.FreshPriceIsExtractedPrice(h, now, fetch, false);
  }

  /** Where the variants part: a stored price of 0 is a cache hit for both,
      but app.py's `if price:` turns it into a 503 while handler.py's
      `is None` test answers it (with 500 should building that answer raise).
      No run of either variant stores a 0. */
  lemma StoredZeroDiverges(t: int, responseFault: bool)
    ensures App.GetPrice(map[App.CacheKey := App.Row(0, t)], App.Request(t, false, FetchFailed, false)).response
            == Unavailable
    ensures Handler.Main(map[Handler.CacheId := Handler.Item(0, t, t + 3600)],
                         Handler.Event(t, false, FetchFailed, false, responseFault)).response
            == if responseFault then Handler.InternalError else Success(0, true, t)
  {
  }

  /** The newlines and indentation around the paragraph of the scraper's
      first test page, as the markup leaves them in the page text. */
  const Indent: string := "\n    \n    \n    "

  /** The text of the scraper's first test page. */
  function PhrasePage(): (s: string)
    ensures Scraper.ExtractPrice(s) == Some(8)
  {
    assert AllSpaces(Indent, 0, |Indent|);
    ScraperExamples.HebrewPhraseExample(Indent, Indent);
    Indent + PriceWord + " " + NowWord + " 8 " + [Shekel] + Indent
  }

  /** From an empty cache, app.py: a first request whose page yields price
      `p` answers it fresh and caches it; a request up to 299 seconds later
      answers `p` from the cache without fetching. */
  lemma AppFetchThenServe(text: string, p: int, t: int, d: int, later: FetchOutcome)
    requires Scraper.ExtractPrice(text) == Some(p) && 0 <= d < 300
    ensures var s1 := App.GetPrice(map[], App.Request(t, false, Fetched(text), false));
      var s2 := App.GetPrice(s1.cache, App.Request(t + d, false, later, false));
      && s1.response == Success(p, false, t)
      && s1.cache == map[App.CacheKey := App.Row(p, t)]
      && s2.response == Success(p, true, t + d)
      && !s2.fetched
  {
  }

  /** The same scenario for handler.py, whose item also expires in an hour.
      Either invocation answers 500 instead when building its response
      raises; the price is cached and served from the cache all the same. */
  lemma HandlerFetchThenServe(text: string, p: int, t: int, d: int, later: FetchOutcome, fault1: bool, fault2: bool)
    requires Scraper.ExtractPrice(text) == Some(p) && 0 <= d < 300
    ensures var s1 := Handler.Main(map[], Handler.Event(t, false, Fetched(text), false, fault1));
      var s2 := Handler.Main(s1.cache, Handler.Event(t + d, false, later, false, fault2));
      && s1.response == (if fault1 then Handler.InternalError else Success(p, false, t))
      && s1.cache == map[Handler.CacheId := Handler.Item(p, t, t + 3600)]
      && s2.response == (if fault2 then Handler.InternalError else Success(p, true, t + d))
      && !s2.fetched
  {
    Handler.FreshPriceIsExtractedPrice(map[], t, Fetched(text), false);
  }

  /** End to end with the Hebrew page of the scraper's first test case: both
      variants answer 8 fresh, then 8 from the cache for the next 299 seconds;
      handler.py answers 500 instead on an invocation whose response fails to build. */
  lemma PhrasePageScenario(t: int, d: int, later: FetchOutcome, fault1: bool, fault2: bool)
    requires 0 <= d < 300
    ensures var s1 := App.GetPrice(map[], App.Request(t, false, Fetched(PhrasePage()), false));
      && s1.response == Success(8, false, t)
      && App.GetPrice(s1.cache, App.Request(t + d, false, later, false)).response == Success(8, true, t + d)
    ensures var s1 := Handler.Main(map[], Handler.Event(t, false, Fetched(PhrasePage()), false, fault1));
      && s1.response == (if fault1 then Handler.InternalError else Success(8, false, t))
      && Handler.Main(s1.cache, Handler.Event(t + d, false, later, false, fault2)).response
         == (if fault2 then Handler.InternalError else Success(8, true, t + d))
  {
    var page := PhrasePage();
    AppFetchThenServe(page, 8, t, d, later);
    HandlerFetchThenServe(page, 8, t, d, later, fault1, fault2);
  }
}
