# Fast Lane price service: a Dafny model

This project models the core of a small service. The service reports the current toll of the Tel Aviv "Fast Lane" in shekels. It has three parts:

- **The scraper** (`scraper.py`). `extract_price` tries five regular expressions on the page text in a fixed order. Each pattern offers only its leftmost capture. The first such capture in 1..100 is the price, unless an earlier pattern's capture is one `int()` refuses, which ends extraction with no price. `validate_price` is the sanity predicate that goes with it.
- **The SQL-backed web service** (`app.py`). `get_price` serves the price cached in a local table while it is younger than 300 seconds. Otherwise it fetches the page once, extracts the price, and writes the price through to the table. It answers 200 with the price, or 503.
- **The serverless variant** (`handler.py`). It has the same cache-or-fetch cycle over a key-value table. Its items also carry a one-hour expiry. `fetch_fresh_price` caches only a price that `validate_price` accepts. `main` adds a 500 answer for failures of the handler itself.

Modules, one per component:

| file | module | what it holds |
|---|---|---|
| wrappers.dfy | `Wrappers` | `Option` |
| chars.dfy | `Chars` | The regex character classes (`\d`, `\s`, `₪`, the Hebrew words); maximal digit and space runs; decimal numerals; `int()` with its digit limit. |
| patterns.dfy | `Patterns` | The five patterns as executable matchers. A reference reading of each regex with Python's backtracking priority. Proofs that `re.search` and the matchers agree. |
| pyvalues.dfy | `PyValues` | The Python values the code passes around, with truthiness and `isinstance(_, int)`. |
| scraper.dfy | `Scraper` | `extract_price`, `validate_price` and their properties. |
| scraper_examples.dfy | `ScraperExamples` | Families of inputs with known answers, the test-suite cases, and the leftmost-match pitfall. |
| service.dfy | `Service` | What both services share: the fetch outcome, the 300-second window, and the responses. |
| app.dfy | `App` | `get_cached_price`, `save_price` and `get_price` as one pure transition. |
| handler.dfy | `Handler` | `get_cached_price`, `cache_price`, `fetch_fresh_price` and `main` as one pure transition. |
| service_examples.dfy | `ServiceExamples` | The two variants compared, and an end-to-end scenario. |

Each request is a pure function with three inputs:

- the cache table before the request (a map from key to row or item);
- one clock reading `now`, in integer seconds;
- the behaviour of the collaborators: the cache read raises, the fetch outcome, the cache write raises, and (handler only) building the success response raises.

It returns the response, the table afterwards, and whether the page was fetched.

Three facts of the code worth stating up front:

- **The success timestamp.** A success answer is stamped with the request time (`datetime.now()`, app.py:118, handler.py:133), not with the time the price was observed.
- **When a fetch failure gives 503.** A failed fetch gives 503 only on a cache miss. A cache hit never fetches (app.py:91, handler.py:120).
- **A stored 0.** `app.py` tests the price with `if price:`, so a stored 0 is a cache hit answered 503. `handler.py` tests `is None` and would answer it with 200. Neither service ever stores a 0 (`CacheInvariantPreserved`). `ServiceExamples.StoredZeroDiverges` records the difference.

## Model

| member | source | states |
|---|---|---|
| Chars.DigitsEnd | scraper.py:30 | `\d+` is greedy: the run it ends is all digits and cannot be extended. |
| Chars.SpacesEnd | scraper.py:30-34 | `\s*` and `\s+` are greedy: the run they end is all whitespace and cannot be extended. |
| Chars.ParseInt | scraper.py:40 | `int()` of a digit run succeeds exactly when the run has at most 4300 digits. |
| Chars.ParseIntInvertsDecimal | scraper.py:40 | For a numeral without a leading zero that `int()` accepts, writing the number back with `str` gives the numeral again. |
| Chars.Decimal | scraper.py:40 | The numeral Python writes for `n` denotes `n` and has no leading zero. |
| Chars.ParseDecimal | scraper.py:40 | `int()` of the numeral of any price-sized number gives the number back. |
| Patterns.LazyDigitsShekel | scraper.py:34 | The lazy `.*?` of pattern 5 never crosses a line feed. It stops where `(\d+)\s*₪` first matches. |
| Patterns.LazyFindsEarliest | scraper.py:34 | The lazy scan reaches the earliest group start at which the rest of pattern 5 matches. |
| Patterns.MatchAt | scraper.py:29-35 | Each pattern's group is a run of digits at or after the start that cannot be extended to the right. That the group also cannot be extended to the left holds only for the leftmost match (`LeftmostGroupIsWholeNumeral`). |
| Patterns.SearchFrom | scraper.py:38 | `re.search` returns the first start with a match, and "no match" only when no start matches. |
| Patterns.LeftmostIsFirstMatch | scraper.py:38 | The match `re.search` reports for a whole text is a match at its start. No earlier index matches. There is no match exactly when no index matches. |
| Patterns.MatchAtSound | scraper.py:29-35 | Whatever the matcher finds at a start is a way the regex can match there. |
| Patterns.MatchAtComplete | scraper.py:29-35 | If the regex can match at a start, the matcher finds a match there, and it is the one backtracking tries first. |
| Patterns.LeftmostIsPythonMatch | scraper.py:38 | The search returns the leftmost match with the backtracking-preferred group, and "none" only when the regex matches nowhere. |
| Patterns.LeftmostGroupIsWholeNumeral | scraper.py:38-40 | The captured group is a whole numeral of the text. `999 ₪` never yields `99` or `9`. |
| Scraper.PatternVerdictMeaning | scraper.py:38-40 | One pattern's verdict: no match exactly when `re.search` finds none. A ValueError exactly when the leftmost group has more than 4300 digits. Otherwise the decimal value of the leftmost group's digits. |
| Scraper.TryPatterns | scraper.py:37-49 | A price the loop returns lies in 1..100. |
| Scraper.ExtractPrice | scraper.py:11-53 | A price is in 1..100. Empty input gives no price. |
| Scraper.ExtractIsFirstPlausibleCapture | scraper.py:37-49 | The result is `v` exactly when the text is non-empty and some pattern captures `v` in 1..100 while every earlier pattern fails to match or captures a number outside 1..100. |
| Scraper.UnconvertibleCaptureAborts | scraper.py:40 | A capture `int()` refuses (over 4300 digits) ends extraction with no price, even if a later pattern would find one. The exception is caught around the whole loop. |
| Scraper.ValidatePrice | scraper.py:55-57 | The result is truthy exactly for an `int` (booleans included) in 1..100. A falsy argument is returned unchanged. A truthy one gives a boolean. |
| Scraper.ExtractedPricesValidate | scraper.py:55-57 | Every price `extract_price` returns passes `validate_price`. Its "no price" result fails it. |
| ScraperExamples.PriceBeforeShekel | scraper.py:30 | Digit-free text, then a price, whitespace and `₪`, then anything, extracts exactly that price. |
| ScraperExamples.SeparatorIsWhitespace | scraper.py:30 | `\s` covers the information separators U+001C to U+001F as `str.isspace` does, so `8\x1c₪` extracts 8. |
| ScraperExamples.ShekelBeforePrice | scraper.py:31 | Digit-free text with no other `₪`, then `₪` directly followed by a price not followed by a digit, then any text with no `₪`, extracts exactly that price. |
| ScraperExamples.NoMarkerNoPrice | scraper.py:29-35 | Text with neither `₪` nor the word המחיר yields no price. |
| ScraperExamples.ImplausibleOnlyNumeral | scraper.py:42-46 | Text whose only numeral lies outside 1..100 yields no price. |
| ScraperExamples.AsciiTextHasNoPrice | scraper.py:29-35 | Plain ASCII text never yields a price: every pattern needs `₪` or המחיר. |
| ScraperExamples.AllSkippedNoPrice | scraper.py:48-49 | If every pattern is passed over, the result is no price. |
| ScraperExamples.HebrewPhraseExample | test_scraper.py:12-21 | `המחיר עכשיו 8 ₪`, between any whitespace (the newlines and indentation the markup leaves), extracts 8. |
| ScraperExamples.ShekelFirstExample | test_scraper.py:25-34 | `Current price: ₪8`, between any whitespace, extracts 8. |
| ScraperExamples.NoPriceExample | test_scraper.py:38-47 | `No pricing information here`, between any whitespace, yields no price. |
| ScraperExamples.ImplausiblePriceExample | test_scraper.py:50-60 | `המחיר עכשיו 999 ₪`, between any whitespace, yields no price. The whole numeral 999 is captured, not a plausible fragment of it. |
| ScraperExamples.OnlyLeftmostMatchCounts | scraper.py:38-46 | Each pattern offers only its leftmost match. In `200₪;8₪`, pattern 1 also matches `8` further right, yet the result is no price. |
| ScraperExamples.ValidatePriceExamples | test_scraper.py:63-71 | The validation cases of the test suite: 8, 1 and 100 give `True`; 101 and `"8"` give `False`; 0 gives 0, which equals `False` in Python. `None` gives `None` itself, which does not equal `False`, so the suite's assertion `validate_price(None) == False` (test_scraper.py:70) fails as written. |
| Service.FreshWindow | app.py:45 | A record is valid from its stamp until just before 300 seconds have passed, and once stale it stays stale. `handler.py:32` uses the same window. |
| App.GetCachedPrice | app.py:33-54 | A hit returns the value stored under the key 'price'. |
| App.SavePrice | app.py:56-66 | The 'price' row becomes (price, now) unless the write fails. Every other row is untouched. |
| App.GetPrice | app.py:79-127 | The answer is 200 or 503. The page is fetched exactly when the cache misses. A request carries a single fetch outcome, so it fetches at most once. |
| App.HitIffYoungerThanWindow | app.py:42-47 | With a readable cache, a request is served from the cache exactly when the row is under 300 seconds old. It then answers the stored price, flagged `cached`, and changes nothing. |
| App.WindowEdge | app.py:45 | A row 299 seconds old is served from the cache; one 300 seconds old is not. |
| App.Respond | app.py:113-127 | The answer is 200 exactly when a non-zero price is in hand, with that price, the `cached` flag and the request time. Otherwise it is the 503 answer. |
| App.ReadFaultIsMiss | app.py:52-54 | A failing cache read answers exactly as an empty cache does, and writes to the real table what it would have written to the empty one. |
| App.WriteOnlyOnExtractedPrice | app.py:100-103 | The table changes only after a fetch whose text yields a price. Then only the 'price' row changes, to that price and the request time, and the answer is that price, fresh. |
| App.FailedFetchIsUnavailable | app.py:108-111 | A miss whose fetch fails or yields no price answers 503 and writes nothing. |
| App.CachedFlagMeansFromCache | app.py:87-88 | A success says `cached` exactly when it did not fetch. A fresh success carries the extracted price. |
| App.CacheInvariantPreserved | app.py:101-103 | The cached price always lies in 1..100. |
| App.SuccessIffPriceObtained | app.py:113-127 | Given that invariant, the answer is 200 exactly when the cache hit or the fetched text yielded a price. |
| App.WriteFaultInvisible | app.py:65-66 | A failing cache write never changes the answer. |
| App.FreshFetchThenLaterRequest | app.py:42-47 | After a fresh price at T, a request at T+d is answered from the cache with that price if d < 300. It fetches again if d >= 300. |
| App.HitsAreStable | app.py:42-47 | Two hits within the window answer the same price and change nothing. |
| Handler.GetCachedPrice | handler.py:22-41 | A hit returns the price stored under the id 'current_price'. |
| Handler.CachePrice | handler.py:43-59 | The 'current_price' item becomes (price, now, now + 3600) unless the write fails. Every other item is untouched. |
| Handler.FetchFreshPrice | handler.py:61-87 | A returned price lies in 1..100. Without a price the table is untouched. |
| Handler.FreshPriceIsExtractedPrice | handler.py:74-80 | `fetch_fresh_price` returns a price exactly when the page was fetched and the scraper found one, and returns that price. |
| Handler.Answer | handler.py:129-146 | With a price in hand, the answer is 200 exactly when building the response does not raise, with that price, the `cached` flag and the request time. Otherwise it is the 500 answer. |
| Handler.FreshPriceWrite | handler.py:74-77 | `fetch_fresh_price` changes the table only when the page was fetched, the scraper found a price and the write did not fail. It then writes that price, stamped now and expiring in an hour. |
| Handler.Main | handler.py:102-146 | The answer is 200, 503 or 500. The page is fetched exactly when the cache misses. A hit leaves the table alone. |
| Handler.HitIffYoungerThanWindow | handler.py:28-34 | With a readable cache, an invocation is served from the cache exactly when the item is under 300 seconds old. It answers the stored price, flagged `cached`, or 500 when building that response raises. |
| Handler.HitBeforeExpiry | handler.py:32-48 | For every item the handler writes, a cache hit comes before the item's one-hour expiry. |
| Handler.ReadFaultIsMiss | handler.py:39-41 | A failing cache read answers exactly as an empty table does, and writes to the real table what it would have written to the empty one. |
| Handler.FailedFetchIsUnavailable | handler.py:123-127 | A miss whose fetch fails or yields no price answers 503 and writes nothing. |
| Handler.WriteOnlyOnExtractedPrice | handler.py:74-77 | The table changes only after a fetch whose text yields a price. Then only the 'current_price' item changes: it gets that price, stamped now, expiring in an hour. |
| Handler.ResponseFaultIsInternalError | handler.py:141-146 | A 500 answer comes only from a failing response build after a price was obtained. It is never a 503, and a price fetched on the way stays cached. |
| Handler.CachedFlagMeansFromCache | handler.py:116-132 | A success says `cached` exactly when it did not fetch. A fresh success carries the extracted price. |
| Handler.CacheInvariantPreserved | handler.py:48-55 | Every stored item holds a price in 1..100 and expires an hour after its stamp. |
| Handler.WriteFaultInvisible | handler.py:58-59 | A failing cache write never changes the answer. |
| Handler.FreshFetchThenLaterEvent | handler.py:28-34 | After a fresh price at T, an invocation at T+d is served from the cache if d < 300, answering that price or 500 when building the response raises. It fetches again if d >= 300. |
| ServiceExamples.VariantsAgree | handler.py:102-139 | Without faults, and with tables holding the same plausible price, both services give the same answer and fetch in the same cases. Their tables still agree afterwards. |
| ServiceExamples.StoredZeroDiverges | app.py:114 | A stored 0 is a hit for both services: 503 in `app.py`; in `handler.py` 200 with price 0, or 500 when building that response raises. |
| ServiceExamples.PhrasePage | test_scraper.py:12-21 | The text of the first test page, with the newlines and indentation its markup leaves around the paragraph, extracts to 8. |
| ServiceExamples.AppFetchThenServe | app.py:86-122 | From an empty cache, a page yielding `p` is answered fresh and cached. For the next 299 seconds it is answered from the cache without a fetch. |
| ServiceExamples.HandlerFetchThenServe | handler.py:114-146 | The same scenario for the serverless variant, whose item expires after an hour. An invocation whose response build raises answers 500 instead, and the price is cached and served from the cache all the same. |
| ServiceExamples.PhrasePageScenario | app.py:79-127 | With the Hebrew test page, both services answer 8 fresh, then 8 from the cache. Each handler invocation answers 500 instead when building its response raises. |

## Left out

- Non-string input: `extract_price(None)` also yields no price. It is not modelled, because every caller passes page text.
- Markup: `BeautifulSoup(...).get_text()` is not modelled. `ExtractPrice` takes the text after markup has been stripped. The test cases are stated on that text: the paragraph's content between arbitrary whitespace, which covers the newlines and indentation the test pages leave around it.
- Character classes: with `re.UNICODE`, Python's `\d` and `\s` also match non-ASCII digits and non-ASCII whitespace (U+0085, U+00A0, U+2028 and others), and `int()` accepts non-ASCII digits. The model uses the ASCII digits and the ASCII characters `str.isspace` accepts: ` \t\n\r\v\f` and the separators U+001C to U+001F.
- Chars.ParseInt: follows the 4300-digit limit of CPython 3.11 and later. Interpreters without the limit convert any length, and then `UnconvertibleCaptureAborts` does not apply.
- Clocks: each request reads one clock, `now`, in integer seconds. The source calls `datetime.now()` several times per request and `time.time()` for the expiry. Their differences, sub-second ages, and ISO-8601 formatting and parsing are not modelled.
- Logging: `logger` calls and `app.py`'s `log_request` are not modelled. The latter swallows all of its errors, so it cannot change an answer.
- Web and host plumbing: the Flask app, `/health`, `/stats`, database initialisation, `run_production.py`, the HTTP headers built by `create_response`, and the `requestContext` lookup are not modelled.
- Response text: the derived `text_he`, `text_en` and `currency` fields of the success body, and JSON serialisation, are not modelled.
- Handler.Main: a failing `json.dumps` of the success body is modelled as a `responseFault` flag, an input. The store's resource API returns every stored number as a `Decimal`, and `json.dumps` refuses those. So in the deployed handler every cache hit ends in a 500, and only fresh answers succeed. The store's client library is not part of this model.
- ServiceExamples.VariantsAgree: holds only with `responseFault` false. With numbers read back as `Decimal`, the handler's hits answer 500 where app.py answers 200.
- The network: the fetch is an input (`Fetched(text)` or `FetchFailed`). A timeout, a connection error and a non-success status are all `FetchFailed`.
- Concurrency: requests are modelled one at a time. Concurrent requests racing on the cache are not modelled.
