# Meta Ads Library scraper: target resolution and result extraction

This project models the core of the `MetaAdsScraper` class of the Meta Ads
Library scraper web app, and proves properties of the model. The class builds
a Facebook Ads Library URL in one of three ways: from a page id, from a search
term and country, or from a URL the user pastes. It loads that URL in a
headless browser. From the rendered page it then reads the total-count heading
and up to 20 ad cards into a record. The record holds `timestamp`, `url`,
`total_resultados` and `anuncios`. Each entry of `anuncios` is an `index` and a
`texto`.

The model has four files:

- `wrappers.dfy`: the `Option` type.
- `library_url.dfy` (module `LibraryUrl`): pure functions that compute the URL
  each search navigates to. They cover the page-id template, the term template
  and the `view_all_page_id=(\d+)` search of a pasted URL. They come with
  lemmas on dispatch, verbatim loading and round trips.
- `extraction.dfy` (module `Extraction`): the page as extraction sees it, and
  the specification function `Extracted`. `ExtractData` is the record-building
  loop, proved equal to `Extracted`. Lemmas cover the 20-card cap, the
  50-character minimum, the 500-character cut, the 1-based positions and the
  candidate order.
- `scraper.dfy` (module `Scraper`): the class `MetaAdsScraper` with its
  `driver` field. It holds the driver lifecycle (start, which does nothing
  when a driver exists, and close), which is also stated as a fold over a
  sequence of start and quit requests, and the three search entry points.

Things the model takes as inputs:

- The browser page is a `Page` value: the driver's current URL, the text of
  the count heading (`None` when the lookup or the read raised), and the text
  reads of the candidate cards (`None` for a read that raised). The whole
  card list is `None` when the card lookup itself raised.
- The extraction instant is an opaque string `now`.
- A driver is an opaque handle.
- A browser launch is the handle it produced, or `None` when it raised.
- A search result also records the URL handed to the browser (`navigated`).
  The source returns only the record; `navigated` is there so that contracts
  can state which URL was loaded.
- A search called while there is no driver raises in the source (an attribute
  access on `None`). The model returns `NoBrowser` in that case.

Two behaviours of the source are kept on purpose. The term is pasted into the
query without percent-encoding. A pasted URL that carries a page id is reduced
to a page-id search with `country=ALL`, so the URL's other parameters are
dropped.

## Model

| member | source | states |
|---|---|---|
| LibraryUrl.PageIdUrl | streamlit_app.py:136 | the page-id URL template; its shape and round trip are stated by PageIdUrlRoundTrip |
| LibraryUrl.TermUrl | streamlit_app.py:143 | the term URL template; its fields and verbatim reload are stated by TermUrlVerbatim |
| LibraryUrl.HitAt | streamlit_app.py:125 | the pattern `view_all_page_id=\d+` matching at a position; FirstHit and PageIdOf are characterised by it |
| LibraryUrl.ContainsMarkerFrom | streamlit_app.py:123 | the substring search from a position on; ContainsMarkerFromSpec states what it decides |
| LibraryUrl.ContainsMarker | streamlit_app.py:123 | the test `"view_all_page_id=" in url`; ContainsMarkerFromSpec states what it decides |
| LibraryUrl.NavigatedUrl | streamlit_app.py:121-130 | the URL a pasted-URL search loads; UrlDispatch, NoPageIdVerbatim and EmbeddedPageId state which one |
| LibraryUrl.FirstHit | streamlit_app.py:125 | the result is the leftmost position at or after `from` where the marker is followed by a digit; None means there is no such position |
| LibraryUrl.DigitRun | streamlit_app.py:125 | the greedy `\d+` run: a slice of the input made only of digits, ending at the end of the string or at a non-digit |
| LibraryUrl.PageIdOf | streamlit_app.py:124-127 | a page id is found exactly when the pattern matches somewhere, and it is then a nonempty digit string |
| LibraryUrl.PageIdOfLeftmost | streamlit_app.py:125-127 | when the leftmost match starts at p, the extracted id is the maximal digit run right after the marker at p |
| LibraryUrl.ContainsMarkerFromSpec | streamlit_app.py:123 | the substring test holds exactly when the marker occurs at some position of the URL |
| LibraryUrl.UrlDispatch | streamlit_app.py:121-130 | a URL with a match is navigated as the page-id URL of its extracted id; a URL without a match is navigated verbatim |
| LibraryUrl.NoPageIdVerbatim | streamlit_app.py:123-130 | a URL without the marker substring, or whose every marker has no digit after it, yields no id and is loaded as is |
| LibraryUrl.DigitFreeVerbatim | streamlit_app.py:123-130 | a URL with no digit at all has no match, yields no id and is loaded as is |
| LibraryUrl.EmbeddedPageId | streamlit_app.py:121-136 | a URL of the form prefix + `view_all_page_id=` + id + tail, with no match in the prefix and a tail that does not start with a digit, yields exactly that id and navigates to the page-id URL for it |
| LibraryUrl.PageIdUrlRoundTrip | streamlit_app.py:134-136 | the page-id URL is the fixed base with `country=ALL&view_all_page_id=` + id; pasted back as a URL it yields the same id and is navigated unchanged |
| LibraryUrl.TermUrlVerbatim | streamlit_app.py:141-143 | the term URL is the fixed base, then the country, then `&q=`, then the term unencoded; when country, `&q=` and term hold no match of the page-id pattern, it is loaded verbatim when pasted |
| Extraction.Qualifies | streamlit_app.py:177 | the keep test `texto and len(texto) > 50` on a card read that did not raise; AdsOfMember and ExtractedRecord state its role |
| Extraction.AdAt | streamlit_app.py:176-181 | the ad one candidate contributes, if any; AdsOfMember states which |
| Extraction.AdsOf | streamlit_app.py:174-181 | the ads of the loop over the candidates; AdsOfLength, AdsOfMember, AdsOfOrdered and FailedReadSkipped state its properties |
| Extraction.Extracted | streamlit_app.py:148-187 | the record the extraction builds; ExtractedRecord, CardsBeyondCapIgnored and ThreeCardsExample state its properties, and ExtractData is proved equal to it |
| Extraction.Snippet | streamlit_app.py:180 | the cut text is a prefix of the card text, at most 500 characters long, and as long as the text when the text is shorter (no padding) |
| Extraction.Candidates | streamlit_app.py:172-174 | the candidates are the first min(n, 20) cards of the lookup, or none when the lookup raised |
| Extraction.ExtractData | streamlit_app.py:148-187 | the loop over the candidates builds exactly the record `Extracted` specifies |
| Extraction.AdsOfLength | streamlit_app.py:174-181 | no more ads than candidate cards |
| Extraction.AdsOfMember | streamlit_app.py:174-181 | an ad with index i and text t is emitted if and only if candidate i (1-based) was read, its text is longer than 50 characters, and t is that text cut to 500 characters |
| Extraction.AdsOfOrdered | streamlit_app.py:174-179 | every ad index lies in 1..number of candidates, and indices strictly increase along the list (candidate order) |
| Extraction.ExtractedRecord | streamlit_app.py:148-187 | the record carries the given timestamp and the current URL; `total_resultados` is the heading text, or `Não encontrado` when the heading is missing; at most 20 ads, each from a qualifying card among the first 20 at its 1-based position, 51 to 500 characters long, indices strictly increasing; no ads when the card lookup raised |
| Extraction.FailedReadSkipped | streamlit_app.py:175-183 | turning one card's read into a failure removes exactly that card's ad and leaves all other ads as they were |
| Extraction.CardsBeyondCapIgnored | streamlit_app.py:172-174 | cards after the 20th never change the record |
| Extraction.ThreeCardsExample | streamlit_app.py:158-181 | heading `36 results` and three cards with texts over 50 characters give that total and ads 1, 2, 3 in order |
| Scraper.Step | streamlit_app.py:89-199 | the driver state after one start or quit request; StartBrowser and Close are proved to follow it |
| Scraper.Run | streamlit_app.py:89-199 | the driver state after a sequence of start and quit requests; RunEndingInQuit, RunWithoutQuit and RunAfterQuit state its properties |
| Scraper.RunEndingInQuit | streamlit_app.py:195-199 | from any state, a sequence of requests that ends with a quit leaves no driver |
| Scraper.RunWithoutQuit | streamlit_app.py:89-119 | without a quit, the driver is the one held at the start or, when there was none, the first launch that succeeded; later launches never replace it |
| Scraper.RunAfterQuit | streamlit_app.py:89-199 | everything after a quit behaves as on a scraper that never had a driver |
| Scraper.StartIdempotent | streamlit_app.py:89-92 | once a driver exists, further start requests leave it unchanged |
| Scraper.MetaAdsScraper.constructor | streamlit_app.py:83-87 | a new scraper has no driver |
| Scraper.MetaAdsScraper.StartBrowser | streamlit_app.py:89-119 | the new state is one start step: an existing driver is kept and the call succeeds; otherwise the launched driver is stored, and the call fails, leaving no driver, when the launch raised |
| Scraper.MetaAdsScraper.Close | streamlit_app.py:195-199 | the new state is one quit step: there is no driver, whatever the state before, so closing twice is the same as closing once |
| Scraper.MetaAdsScraper.Load | streamlit_app.py:130-132 | with a driver, the URL is loaded as given and the record is extracted from the page; without one, the call fails |
| Scraper.MetaAdsScraper.SearchByPageId | streamlit_app.py:134-139 | with a driver, the page-id URL is loaded and the page extracted; without one, the call fails |
| Scraper.MetaAdsScraper.SearchByTerm | streamlit_app.py:141-146 | with a driver, the term URL for the given country (`BR` when the caller leaves it out) is loaded, the country sits in the URL's country slot, and the page is extracted; without one, the call fails |
| Scraper.MetaAdsScraper.SearchByUrl | streamlit_app.py:121-132 | with a driver, a URL carrying a page id gives the result of the page-id search for that id, and any other URL is loaded verbatim; without one, the call fails |

## Left out

- Browser launch details are not modelled: Chrome options, binary paths, the system chromedriver with the webdriver-manager fallback, and the `WebDriverWait` object held in `self.wait` (streamlit_app.py:94-119). They are foreign library calls. A launch is reduced to the handle it produced or its failure, and the text of the raised error message is not modelled.
- The Selenium-availability check in the constructor (streamlit_app.py:84-85) is not modelled. It depends on the environment.
- `driver.quit()` is treated as not raising. If it raised in the source, `self.driver` would not be cleared.
- `driver.get`, the 5-second settle delays and the `_scroll_page` loop (streamlit_app.py:130-146, 189-193) are not modelled. They are navigation I/O and timing. The page after loading is an input. So the model has no failure of the loading itself: in the source, a raising `driver.get`, `driver.current_url` (line 152) or `execute_script` (line 168, outside any try) makes the whole search raise, while `Load` and the search methods always return `Fetched` when a driver exists.
- CSS selector semantics of `find_element` and `find_elements` are not modelled. Their outcomes are inputs.
- `datetime.now().isoformat()` and `driver.current_url` are opaque string inputs.
- The regular-expression engine is not modelled. The search is specified directly, as the leftmost marker followed by a maximal digit run. `\d` is modelled as the ASCII digits 0-9, while Python's `\d` on strings also accepts other Unicode decimal digits.
- The Streamlit interface is not modelled: `main`, `exibir_resultados`, CSS, tabs, metrics and the JSON download. It is presentation only.
