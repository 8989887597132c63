/**
 * Result extraction: turning the loaded library page into the scraper's
 * record. The page is abstracted to what the extraction reads from it: the
 * text of the total-count heading (absent when the lookup or the read raised)
 * and the text reads of the candidate ad cards.
 */
module Extraction {
  import opened Wrappers

  /** At most this many candidate cards are examined. */
  const MaxCards := 20

  /** A card is kept only when its text is longer than this. */
  const MinTextLength := 50

  /** A kept card's text is cut to at most this many characters. */
  const MaxTextLength := 500

  /** Total-count value when the heading cannot be read. */
  const NotFound := "Não encontrado"

  /** The text read of one candidate card; None when reading it raised. */
  type Card = Option<string>

  /** One emitted ad: its 1-based candidate position and its cut text. */
  datatype Ad = Ad(index: nat, texto: string)

  /**
   * What extraction reads from the browser: the current URL, the count
   * heading's text, and the card reads (None when the card lookup raised).
   */
  datatype Page = Page(currentUrl: string, heading: Option<string>, cards: Option<seq<Card>>)

  /** The record handed back to the caller. */
  datatype Record = Record(timestamp: string, url: string, totalResultados: string, anuncios: seq<Ad>)

  /** A card read that yields an ad. */
  predicate Qualifies(card: Card)
  {
    card.Some? && card.value != [] && |card.value| > MinTextLength
  }

  /** `text[:MaxTextLength]`: the prefix of length min(|text|, MaxTextLength). */
  function Snippet(text: string): (r: string)
    ensures |r| <= MaxTextLength && |r| <= |text| && r == text[..|r|]
    ensures |r| == |text| || |r| == MaxTextLength
  {
    if |text| <= MaxTextLength then text else text[..MaxTextLength]
  }

  /** The ad contributed by the card at 1-based position `position`, if any. */
  function AdAt(position: nat, card: Card): seq<Ad>
  {
    if Qualifies(card) then [Ad(position, Snippet(card.value))] else []
  }

  /** Ads contributed by `cards`, in candidate order, tagged with 1-based positions. */
  function AdsOf(cards: seq<Card>): seq<Ad>
  {
    if cards == [] then []
    else AdsOf(cards[..|cards| - 1]) + AdAt(|cards|, cards[|cards| - 1])
  }

  /** `cards[:MaxCards]` of the card lookup, or nothing when the lookup raised. */
  function Candidates(page: Page): (r: seq<Card>)
    ensures |r| <= MaxCards
    ensures page.cards.Some? ==> |r| == if |page.cards.value| < MaxCards then |page.cards.value| else MaxCards
    ensures page.cards.Some? ==> r == page.cards.value[..|r|]
    ensures page.cards.None? ==> r == []
  {
    match page.cards
    case None => []
    case Some(cs) => if |cs| <= MaxCards then cs else cs[..MaxCards]
  }

  /** The record the extraction builds from `page` at instant `now`. */
  function Extracted(page: Page, now: string): Record
  {
    Record(now, page.currentUrl, page.heading.GetOr(NotFound), AdsOf(Candidates(page)))
  }

  /** Builds the record field by field, examining the candidate cards in order. */
  method ExtractData(page: Page, now: string) returns (dados: Record)
    ensures dados == Extracted(page, now)
  {
    dados := Record(now, page.currentUrl, NotFound, []);
    if page.heading.Some? {
      dados := dados.(totalResultados := page.heading.value);
    }
    var cards := Candidates(page);
    var anuncios: seq<Ad> := [];
    for i := 0 to |cards|
      invariant anuncios == AdsOf(cards[..i])
    {
      assert cards[..i + 1][..i] == cards[..i];
      var card := cards[i];
      if card.Some? {
        var texto := card.value;
        if texto != [] && |texto| > MinTextLength {
          anuncios := anuncios + [Ad(i + 1, Snippet(texto))];
        }
      }
    }
    assert cards[..|cards|] == cards;
    dados := dados.(anuncios := anuncios);
  }

  /** No more ads than candidates. */
  lemma {:induction false} AdsOfLength(cards: seq<Card>)
    ensures |AdsOf(cards)| <= |cards|
  {
    if cards != [] {
      AdsOfLength(cards[..|cards| - 1]);
    }
  }

  /**
   * An ad is emitted exactly for each qualifying card, tagged with that
   * card's 1-based position and carrying its cut text.
   */
  lemma {:induction false} AdsOfMember(cards: seq<Card>, ad: Ad)
    ensures ad in AdsOf(cards) <==>
      1 <= ad.index <= |cards| && Qualifies(cards[ad.index - 1]) &&
      ad.texto == Snippet(cards[ad.index - 1].value)
  {
    if cards != [] {
      var init := cards[..|cards| - 1];
      AdsOfMember(init, ad);
      if 1 <= ad.index < |cards| {
        assert cards[ad.index - 1] == init[ad.index - 1];
      }
    }
  }

  /** Positions lie in 1..|cards| and strictly increase along the ads. */
  lemma {:induction false} AdsOfOrdered(cards: seq<Card>)
    ensures forall j :: 0 <= j < |AdsOf(cards)| ==> 1 <= AdsOf(cards)[j].index <= |cards|
    ensures forall j, k :: 0 <= j < k < |AdsOf(cards)| ==> AdsOf(cards)[j].index < AdsOf(cards)[k].index
  {
    if cards != [] {
      AdsOfOrdered(cards[..|cards| - 1]);
    }
  }

  /**
   * What a record promises: the heading text or the sentinel, never more than
   * MaxCards ads, each from a qualifying candidate card at its 1-based
   * position, carrying that card's text cut to at most MaxTextLength
   * characters, in candidate order.
   */
  lemma ExtractedRecord(page: Page, now: string)
    ensures Extracted(page, now).timestamp == now
    ensures Extracted(page, now).url == page.currentUrl
    ensures page.heading.None? ==> Extracted(page, now).totalResultados == NotFound
    ensures page.heading.Some? ==> Extracted(page, now).totalResultados == page.heading.value
    ensures page.cards.None? ==> Extracted(page, now).anuncios == []
    ensures |Extracted(page, now).anuncios| <= MaxCards
    ensures forall ad :: ad in Extracted(page, now).anuncios <==>
      page.cards.Some? && 1 <= ad.index <= MaxCards && ad.index <= |page.cards.value| &&
      Qualifies(page.cards.value[ad.index - 1]) && ad.texto == Snippet(page.cards.value[ad.index - 1].value)
    ensures forall ad :: ad in Extracted(page, now).anuncios ==> MinTextLength < |ad.texto| <= MaxTextLength
    ensures forall j, k :: 0 <= j < k < |Extracted(page, now).anuncios| ==>
      Extracted(page, now).anuncios[j].index < Extracted(page, now).anuncios[k].index
  {
    var cands := Candidates(page);
    AdsOfLength(cands);
    AdsOfOrdered(cands);
    forall ad: Ad ensures ad in AdsOf(cands) <==>
      page.cards.Some? && 1 <= ad.index <= MaxCards && ad.index <= |page.cards.value| &&
      Qualifies(page.cards.value[ad.index - 1]) && ad.texto == Snippet(page.cards.value[ad.index - 1].value)
    {
      AdsOfMember(cands, ad);
    }
  }

  /** A card whose text read fails drops its own ad and leaves every other ad as it was. */
  lemma FailedReadSkipped(cards: seq<Card>, k: nat)
    requires k < |cards|
    ensures forall ad :: ad in AdsOf(cards[k := None]) <==> ad in AdsOf(cards) && ad.index != k + 1
  {
    forall ad: Ad ensures ad in AdsOf(cards[k := None]) <==> ad in AdsOf(cards) && ad.index != k + 1 {
      AdsOfMember(cards, ad);
      AdsOfMember(cards[k := None], ad);
    }
  }

  /** Cards after the first MaxCards never influence the record. */
  lemma CardsBeyondCapIgnored(url: string, heading: Option<string>, cards: seq<Card>, more: seq<Card>, now: string)
    requires |cards| >= MaxCards
    ensures Extracted(Page(url, heading, Some(cards + more)), now) == Extracted(Page(url, heading, Some(cards)), now)
  {
    assert (cards + more)[..MaxCards] == cards[..MaxCards];
  }

  /** A heading "36 results" and three long cards give that total and ads 1, 2, 3 in order. */
  lemma ThreeCardsExample(url: string, now: string, t1: string, t2: string, t3: string)
    requires |t1| > MinTextLength && |t2| > MinTextLength && |t3| > MinTextLength
    ensures Extracted(Page(url, Some("36 results"), Some([Some(t1), Some(t2), Some(t3)])), now) ==
      Record(now, url, "36 results", [Ad(1, Snippet(t1)), Ad(2, Snippet(t2)), Ad(3, Snippet(t3))])
  {
    var cs: seq<Card> := [Some(t1), Some(t2), Some(t3)];
    assert cs[..2] == [Some(t1), Some(t2)];
    assert cs[..2][..1] == [Some(t1)];
    assert AdsOf([Some(t1)]) == [Ad(1, Snippet(t1))];
    assert AdsOf(cs[..2]) == [Ad(1, Snippet(t1)), Ad(2, Snippet(t2))];
    assert AdsOf(cs) == [Ad(1, Snippet(t1)), Ad(2, Snippet(t2)), Ad(3, Snippet(t3))];
  }
}
