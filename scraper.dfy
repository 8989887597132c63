/**
 * The scraper object: it owns at most one browser driver and runs the three
 * kinds of search through it. Launching the browser, loading a URL and
 * scrolling are browser I/O; a driver is an opaque handle, a launch attempt
 * is given as the handle it produced (None when it raised), and the page the
 * browser shows after loading is given as a Page.
 */
module Scraper {
  import opened Wrappers
  import opened LibraryUrl
  import opened Extraction

  /** An opaque browser-driver handle. */
  datatype Driver = Driver(session: nat)

  /** Outcome of a search. */
  datatype Search =
    | Fetched(navigated: string, dados: Record)  // the URL loaded and the record extracted
    | NoBrowser                                   // no driver: the call on it raises

  /** A lifecycle request: start the browser (with the launch outcome) or quit it. */
  datatype Request = Start(launch: Option<Driver>) | Quit

  /** Driver state after one request: a start keeps an existing driver, otherwise takes the launch result. */
  function Step(current: Option<Driver>, request: Request): Option<Driver>
  {
    match request
    case Start(launch) => if current.Some? then current else launch
    case Quit => None
  }

  /** Driver state after a sequence of requests, applied in order. */
  function Run(current: Option<Driver>, requests: seq<Request>): Option<Driver>
    decreases |requests|
  {
    if requests == [] then current else Run(Step(current, requests[0]), requests[1..])
  }

  /** The first launch among the start requests that produced a driver, if any. */
  function FirstLaunch(requests: seq<Request>): Option<Driver>
    decreases |requests|
  {
    if requests == [] then None
    else if requests[0].Start? && requests[0].launch.Some? then requests[0].launch
    else FirstLaunch(requests[1..])
  }

  /** Starting is idempotent once a driver exists: further launches are ignored. */
  lemma StartIdempotent(current: Option<Driver>, first: Option<Driver>, again: Option<Driver>)
    requires Step(current, Start(first)).Some?
    ensures Step(Step(current, Start(first)), Start(again)) == Step(current, Start(first))
  {
  }

  /** Whatever came before, a run that ends with a quit leaves no driver. */
  lemma {:induction false} RunEndingInQuit(current: Option<Driver>, requests: seq<Request>)
    requires requests != [] && requests[|requests| - 1] == Quit
    ensures Run(current, requests) == None
    decreases |requests|
  {
    if |requests| > 1 {
      RunEndingInQuit(Step(current, requests[0]), requests[1..]);
    }
  }

  /**
   * Without a quit, the driver is the one held at the start or, when there
   * was none, the first launch that succeeded; later launches never replace it.
   */
  lemma {:induction false} RunWithoutQuit(current: Option<Driver>, requests: seq<Request>)
    requires forall i :: 0 <= i < |requests| ==> requests[i].Start?
    ensures Run(current, requests) == if current.Some? then current else FirstLaunch(requests)
    decreases |requests|
  {
    if requests != [] {
      RunWithoutQuit(Step(current, requests[0]), requests[1..]);
    }
  }

  /** A quit resets the lifecycle: what follows it runs as from a fresh scraper. */
  lemma {:induction false} RunAfterQuit(current: Option<Driver>, before: seq<Request>, after: seq<Request>)
    ensures Run(current, before + [Quit] + after) == Run(None, after)
    decreases |before|
  {
    if before == [] {
      assert before + [Quit] + after == [Quit] + after;
      assert ([Quit] + after)[1..] == after;
    } else {
      assert (before + [Quit] + after)[0] == before[0];
      assert (before + [Quit] + after)[1..] == before[1..] + [Quit] + after;
      RunAfterQuit(Step(current, before[0]), before[1..], after);
    }
  }

  class MetaAdsScraper {
    var driver: Option<Driver>

    constructor ()
      ensures driver == None
    {
      driver := None;
    }

    /**
     * Starts the browser unless a driver already exists. `launch` is the
     * driver the launch produced, None when it raised; `ok` is false exactly
     * when the launch was needed and failed.
     */
    method StartBrowser(launch: Option<Driver>) returns (ok: bool)
      modifies this
      ensures driver == Step(old(driver), Start(launch))
      ensures ok == driver.Some?
      ensures old(driver).Some? ==> ok
    {
      if driver.Some? {
        return true;
      }
      if launch.Some? {
        driver := launch;
        ok := true;
      } else {
        ok := false;
      }
    }

    /** Quits the browser if there is one; afterwards there is none. */
    method Close()
      modifies this
      ensures driver == Step(old(driver), Quit) == None
    {
      if driver.Some? {
        driver := None;
      }
    }

    /** Loads `url` (shown as `page` afterwards) and extracts the record. */
    method Load(url: string, page: Page, now: string) returns (r: Search)
      ensures driver.None? ==> r == NoBrowser
      ensures driver.Some? ==> r == Fetched(url, Extracted(page, now))
    {
      if driver.None? {
        return NoBrowser;
      }
      var dados := ExtractData(page, now);
      r := Fetched(url, dados);
    }

    /** Search by page id: loads the page-id URL for `pageId`. */
    method SearchByPageId(pageId: string, page: Page, now: string) returns (r: Search)
      ensures driver.None? ==> r == NoBrowser
      ensures driver.Some? ==> r == Fetched(PageIdUrl(pageId), Extracted(page, now))
    {
      r := Load(PageIdUrl(pageId), page, now);
    }

    /** Search by term in `country`, which is DefaultCountry when the caller leaves it out. */
    method SearchByTerm(term: string, page: Page, now: string, country: string := DefaultCountry) returns (r: Search)
      ensures driver.None? ==> r == NoBrowser
      ensures driver.Some? ==> r == Fetched(TermUrl(term, country), Extracted(page, now))
      ensures driver.Some? ==> r.navigated[|LibraryBase|..|LibraryBase| + |country|] == country
    {
      TermUrlVerbatim(term, country);
      r := Load(TermUrl(term, country), page, now);
    }

    /**
     * Search by pasted URL: a URL carrying a page id becomes the search by
     * that id, any other URL is loaded verbatim.
     */
    method SearchByUrl(url: string, page: Page, now: string) returns (r: Search)
      ensures driver.None? ==> r == NoBrowser
      ensures driver.Some? ==> r == Fetched(NavigatedUrl(url), Extracted(page, now))
      ensures driver.Some? && PageIdOf(url).Some? ==> r == Fetched(PageIdUrl(PageIdOf(url).value), Extracted(page, now))
      ensures driver.Some? && PageIdOf(url).None? ==> r == Fetched(url, Extracted(page, now))
    {
      UrlDispatch(url);
      if ContainsMarker(url) {
        var pageId := PageIdOf(url);
        if pageId.Some? {
          r := SearchByPageId(pageId.value, page, now);
          return;
        }
      }
      r := Load(url, page, now);
    }
  }
}
