/**
 * Target resolution of the ads-library scraper: the URL that a search by
 * page id, by free-text term or by a pasted URL loads into the browser.
 * The navigation itself is I/O; here only the navigated URL is computed.
 */
module LibraryUrl {
  import opened Wrappers

  const LibraryHost := "https://www.facebook.com"
  const LibraryPath := "/ads/library/"
  const LibraryQuery := "?active_status=all&ad_type=all&country="

  /** Fixed part of every library URL the scraper builds, up to the country value. */
  const LibraryBase := LibraryHost + LibraryPath + LibraryQuery

  /** The query parameter that names an advertiser page. */
  const Marker := "view_all_page_id="

  /** Country used by a term search when the caller gives none. */
  const DefaultCountry := "BR"

  /** The `\d` class of the page-id pattern (ASCII digits). */
  predicate IsDigit(c: char)
  {
    '0' <= c <= '9'
  }

  predicate AllDigits(s: string)
  {
    forall k :: 0 <= k < |s| ==> IsDigit(s[k])
  }

  predicate NoDigits(s: string)
  {
    forall k :: 0 <= k < |s| ==> !IsDigit(s[k])
  }

  /** A page id as the library URL carries it: one or more digits. */
  predicate IsPageId(s: string)
  {
    |s| > 0 && AllDigits(s)
  }

  /** URL of a search by page id (country fixed to ALL). */
  function PageIdUrl(pageId: string): string
  {
    LibraryBase + "ALL&" + Marker + pageId
  }

  /** URL of a search by term; the term is inserted as is, without percent-encoding. */
  function TermUrl(term: string, country: string): string
  {
    LibraryBase + country + "&q=" + term
  }

  /** The marker occurs in `s` starting at `p`. */
  predicate MarkerAt(s: string, p: nat)
  {
    p + |Marker| <= |s| && s[p..p + |Marker|] == Marker
  }

  /** The pattern `view_all_page_id=\d+` matches in `s` starting at `p`. */
  predicate HitAt(s: string, p: nat)
  {
    MarkerAt(s, p) && p + |Marker| < |s| && IsDigit(s[p + |Marker|])
  }

  /** The substring test `"view_all_page_id=" in s[from..]`. */
  predicate ContainsMarkerFrom(s: string, from: nat)
    decreases |s| - from
  {
    from + |Marker| <= |s| && (MarkerAt(s, from) || ContainsMarkerFrom(s, from + 1))
  }

  /** The substring test `"view_all_page_id=" in url`. */
  predicate ContainsMarker(s: string)
  {
    ContainsMarkerFrom(s, 0)
  }

  /** The substring test holds exactly when the marker occurs at some position at or after `from`. */
  lemma {:induction false} ContainsMarkerFromSpec(s: string, from: nat)
    decreases |s| - from
    ensures ContainsMarkerFrom(s, from) <==> exists p: nat :: from <= p && MarkerAt(s, p)
  {
    if from + |Marker| <= |s| {
      ContainsMarkerFromSpec(s, from + 1);
      if !MarkerAt(s, from) && !ContainsMarkerFrom(s, from + 1) {
        assert forall p: nat :: from <= p && MarkerAt(s, p) ==> p == from || from + 1 <= p;
      }
    }
  }

  /** Leftmost start, at or after `from`, where the page-id pattern matches. */
  function FirstHit(s: string, from: nat): (r: Option<nat>)
    decreases |s| - from
    ensures r.Some? ==> from <= r.value && HitAt(s, r.value)
    ensures r.Some? ==> forall q: nat :: from <= q < r.value ==> !HitAt(s, q)
    ensures r.None? ==> forall q: nat :: from <= q ==> !HitAt(s, q)
  {
    if |s| <= from + |Marker| then None
    else if HitAt(s, from) then Some(from)
    else FirstHit(s, from + 1)
  }

  /** The greedy `\d+` run of `s` starting at `i`. */
  function DigitRun(s: string, i: nat): (r: string)
    requires i <= |s|
    decreases |s| - i
    ensures i + |r| <= |s| && r == s[i..i + |r|]
    ensures AllDigits(r)
    ensures i + |r| == |s| || !IsDigit(s[i + |r|])
  {
    if i < |s| && IsDigit(s[i]) then [s[i]] + DigitRun(s, i + 1) else []
  }

  /**
   * Group 1 of `re.search(r'view_all_page_id=(\d+)', url)`: the maximal digit
   * run after the leftmost occurrence of the marker that is followed by a digit.
   */
  function PageIdOf(url: string): (r: Option<string>)
    ensures r.Some? <==> exists p: nat :: HitAt(url, p)
    ensures r.Some? ==> IsPageId(r.value)
  {
    match FirstHit(url, 0)
    case Some(p) => Some(DigitRun(url, p + |Marker|))
    case None => None
  }

  /**
   * When the leftmost match starts at `p`, the page id is the maximal digit
   * run right after the marker at `p`.
   */
  lemma PageIdOfLeftmost(url: string, p: nat)
    requires HitAt(url, p)
    requires forall q: nat :: q < p ==> !HitAt(url, q)
    ensures PageIdOf(url) == Some(DigitRun(url, p + |Marker|))
  {
    var h := FirstHit(url, 0);
    assert h.Some?;
    assert !(h.value < p) && !(p < h.value);
  }

  /**
   * The URL a search by pasted URL navigates to: that of a page-id search
   * when the URL carries a page id, the URL itself otherwise.
   */
  function NavigatedUrl(url: string): string
  {
    if ContainsMarker(url) then
      match PageIdOf(url)
      case Some(pageId) => PageIdUrl(pageId)
      case None => url
    else
      url
  }

  /** A URL carrying a page id is navigated as a page-id search for exactly that id. */
  lemma UrlDispatch(url: string)
    ensures (exists p: nat :: HitAt(url, p)) ==>
      PageIdOf(url).Some? && NavigatedUrl(url) == PageIdUrl(PageIdOf(url).value)
    ensures (forall p: nat :: !HitAt(url, p)) ==> NavigatedUrl(url) == url
  {
    ContainsMarkerFromSpec(url, 0);
    if p: nat :| HitAt(url, p) {
      assert MarkerAt(url, p);
    }
  }

  /** A URL without the marker substring, or with no digit after any marker, is loaded verbatim. */
  lemma NoPageIdVerbatim(url: string)
    requires !ContainsMarker(url) || forall p: nat :: MarkerAt(url, p) ==> !HitAt(url, p)
    ensures PageIdOf(url) == None
    ensures NavigatedUrl(url) == url
  {
    ContainsMarkerFromSpec(url, 0);
    assert forall p: nat :: HitAt(url, p) ==> MarkerAt(url, p);
  }

  /** A string without digits contains no page-id match, so it is navigated verbatim. */
  lemma DigitFreeVerbatim(url: string)
    requires NoDigits(url)
    ensures forall p: nat :: !HitAt(url, p)
    ensures PageIdOf(url) == None
    ensures NavigatedUrl(url) == url
  {
    assert forall p: nat :: HitAt(url, p) ==> IsDigit(url[p + |Marker|]);
  }

  /** No match of the pattern can start inside `a` when `a` is followed by the marker. */
  lemma {:induction false} NoHitBefore(a: string, rest: string, q: nat)
    requires forall p: nat :: !HitAt(a, p)
    requires q < |a|
    ensures !HitAt(a + Marker + rest, q)
  {
    var s := a + Marker + rest;
    if q + |Marker| < |a| {
      assert s[q..q + |Marker|] == a[q..q + |Marker|];
      assert s[q + |Marker|] == a[q + |Marker|];
      assert !HitAt(a, q);
    } else if q + |Marker| == |a| {
      assert s[q + |Marker|] == Marker[0];
    } else {
      // the marker's closing '=' would fall on one of its first 16 characters
      assert s[q + |Marker| - 1] == Marker[q + |Marker| - 1 - |a|];
    }
  }

  /**
   * Embedding a page id after a prefix without a match, and before a tail
   * that does not continue the digit run, yields exactly that id; the URL is
   * then navigated as the page-id search for it.
   */
  lemma {:induction false} EmbeddedPageId(a: string, pageId: string, b: string)
    requires forall p: nat :: !HitAt(a, p)
    requires IsPageId(pageId)
    requires b == [] || !IsDigit(b[0])
    ensures PageIdOf(a + Marker + pageId + b) == Some(pageId)
    ensures NavigatedUrl(a + Marker + pageId + b) == PageIdUrl(pageId)
  {
    var s := a + Marker + pageId + b;
    assert s == a + Marker + (pageId + b);
    forall q: nat | q < |a| ensures !HitAt(s, q) {
      NoHitBefore(a, pageId + b, q);
    }
    var m := |a| + |Marker|;
    assert s[|a|..m] == Marker;
    assert HitAt(s, |a|);
    PageIdOfLeftmost(s, |a|);
    assert s[m..] == pageId + b;
    DigitRunOf(s, m, pageId, b);
    UrlDispatch(s);
  }

  /** The digit run starting at `i` is `d` when `s[i..]` is `d` followed by a non-digit or the end. */
  lemma {:induction false} DigitRunOf(s: string, i: nat, d: string, b: string)
    requires i <= |s| && s[i..] == d + b
    requires AllDigits(d)
    requires b == [] || !IsDigit(b[0])
    ensures DigitRun(s, i) == d
    decreases |d|
  {
    if d == [] {
      assert s[i..] == b;
      if i < |s| { assert s[i] == b[0]; }
    } else {
      assert s[i] == d[0];
      assert s[i + 1..] == d[1..] + b;
      DigitRunOf(s, i + 1, d[1..], b);
    }
  }

  /** Everything a page-id URL holds before the page id. */
  lemma PageIdPrefixNoDigits()
    ensures NoDigits(LibraryBase + "ALL&" + Marker)
  {
    assert NoDigits(LibraryHost) && NoDigits(LibraryPath) && NoDigits(LibraryQuery);
    assert NoDigits("ALL&") && NoDigits(Marker);
  }

  /**
   * The page-id URL ends with the marker and the id, and resolving it as a
   * pasted URL gives back the same id and the same URL.
   */
  lemma PageIdUrlRoundTrip(pageId: string)
    requires IsPageId(pageId)
    ensures PageIdUrl(pageId) == LibraryBase + "ALL&" + Marker + pageId
    ensures PageIdOf(PageIdUrl(pageId)) == Some(pageId)
    ensures NavigatedUrl(PageIdUrl(pageId)) == PageIdUrl(pageId)
  {
    var a := LibraryBase + "ALL&";
    PageIdPrefixNoDigits();
    assert NoDigits(a);
    DigitFreeVerbatim(a);
    assert a + Marker + pageId + [] == PageIdUrl(pageId);
    EmbeddedPageId(a, pageId, []);
  }

  /** The last 17 characters of the base hold no `v`, the marker's first character. */
  lemma BaseTailNoMarkerStart()
    ensures forall j :: |LibraryBase| - |Marker| <= j < |LibraryBase| ==> LibraryBase[j] != Marker[0]
  {
    var k := |LibraryHost| + |LibraryPath|;
    assert forall j :: |LibraryQuery| - |Marker| <= j < |LibraryQuery| ==> LibraryQuery[j] != 'v';
    assert forall j :: k <= j < |LibraryBase| ==> LibraryBase[j] == LibraryQuery[j - k];
  }

  /**
   * A match in the base followed by `t` lies wholly in `t`: none starts in
   * the base, and one at `|LibraryBase| + p` is a match of `t` at `p`.
   */
  lemma {:induction false} HitAfterBase(t: string, q: nat)
    ensures q < |LibraryBase| ==> !HitAt(LibraryBase + t, q)
    ensures q >= |LibraryBase| ==> (HitAt(LibraryBase + t, q) <==> HitAt(t, q - |LibraryBase|))
  {
    var s := LibraryBase + t;
    var n := |LibraryBase|;
    if q < n {
      if q + |Marker| < n {
        assert NoDigits(LibraryHost) && NoDigits(LibraryPath) && NoDigits(LibraryQuery);
        assert s[q + |Marker|] == LibraryBase[q + |Marker|];
      } else {
        BaseTailNoMarkerStart();
        assert s[q] == LibraryBase[q];
      }
    } else {
      if q + |Marker| <= |s| {
        assert s[q..q + |Marker|] == t[q - n..q - n + |Marker|];
      }
      if q + |Marker| < |s| {
        assert s[q + |Marker|] == t[q - n + |Marker|];
      }
    }
  }

  /**
   * The term URL is the fixed base, the country, `&q=` and the term exactly as
   * given; when country, `&q=` and term hold no match of the page-id pattern,
   * a pasted term URL is loaded verbatim.
   */
  lemma TermUrlVerbatim(term: string, country: string)
    ensures TermUrl(term, country)[..|LibraryBase|] == LibraryBase
    ensures TermUrl(term, country)[|LibraryBase|..|LibraryBase| + |country|] == country
    ensures TermUrl(term, country)[|LibraryBase| + |country|..|LibraryBase| + |country| + 3] == "&q="
    ensures TermUrl(term, country)[|LibraryBase| + |country| + 3..] == term
    ensures (forall p: nat :: !HitAt(country + "&q=" + term, p)) ==>
      NavigatedUrl(TermUrl(term, country)) == TermUrl(term, country)
  {
    var t := country + "&q=" + term;
    var u := TermUrl(term, country);
    assert u == LibraryBase + t;
    if forall p: nat :: !HitAt(t, p) {
      forall q: nat ensures !HitAt(u, q) {
        HitAfterBase(t, q);
      }
      UrlDispatch(u);
    }
  }
}
