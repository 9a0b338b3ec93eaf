/** One page of search results on a prefecture site (scraper/scraper.py): the
    search URL for a keyword and offset, and `extract_card_data`, which reads a
    result card. A card is its serialised HTML and its descendant elements in
    document order; `find` is the first matching descendant, `find_all` all of
    them. */
module Cards {
  import opened Wrappers
  import opened Text

  // ---------------------------------------------------------------------------
  // Search URL
  // ---------------------------------------------------------------------------

  function SiteRoot(domain: string): string
  {
    "https://www." + domain
  }

  /** The part of the search URL after the (optional) offset segment. */
  function SearchTail(keyword: string): string
  {
    "(searchtext)/" + keyword + "?SearchText=" + keyword
  }

  /** The URL `scrape_government_site` requests: the `(offset)/<n>/` segment is
      present only for a positive offset. */
  function SearchUrl(domain: string, keyword: string, offset: int): string
  {
    if offset > 0 then
      SiteRoot(domain) + "/contenu/recherche/" + "(offset)/" + IntToString(offset) + "/" + SearchTail(keyword)
    else
      SiteRoot(domain) + "/contenu/recherche/" + SearchTail(keyword)
  }

  /** A positive offset inserts exactly one segment into the first-page URL, and
      the offset can be read back from it. */
  lemma SearchUrlOffsetSegment(domain: string, keyword: string, offset: int)
    requires offset > 0
    ensures var base := SiteRoot(domain) + "/contenu/recherche/";
            var digits := NatToString(offset);
            SearchUrl(domain, keyword, offset) == base + "(offset)/" + digits + "/" + SearchTail(keyword)
            && SearchUrl(domain, keyword, 0) == base + SearchTail(keyword)
            && DigitsValue(digits) == offset
  {
    NatToStringRoundTrip(offset);
  }

  /** Different positive offsets give different URLs. */
  lemma SearchUrlDistinguishesOffsets(domain: string, keyword: string, m: int, n: int)
    requires 0 < m && 0 < n && m != n
    ensures SearchUrl(domain, keyword, m) != SearchUrl(domain, keyword, n)
  {
    var base := SiteRoot(domain) + "/contenu/recherche/" + "(offset)/";
    var t := "/" + SearchTail(keyword);
    var dm := NatToString(m);
    var dn := NatToString(n);
    var a := base + dm + t;
    var b := base + dn + t;
    assert SearchUrl(domain, keyword, m) == a;
    assert SearchUrl(domain, keyword, n) == b;
    if |dm| < |dn| {
      assert a[|base| + |dm|] == '/';
      assert b[|base| + |dm|] == dn[|dm|];
    } else if |dn| < |dm| {
      assert b[|base| + |dn|] == '/';
      assert a[|base| + |dn|] == dm[|dn|];
    } else if a == b {
      assert dm == a[|base|..|base| + |dm|];
      assert dn == b[|base|..|base| + |dn|];
      NatToStringInjective(m, n);
    }
  }

  // ---------------------------------------------------------------------------
  // Cards
  // ---------------------------------------------------------------------------

  /** A descendant element: its tag, its classes, its text, its `href` attribute. */
  datatype Element = Element(tag: string, classes: seq<string>, text: string, href: Option<string>)

  datatype CardElement = CardElement(html: string, elements: seq<Element>)

  /** The dictionary `extract_card_data` returns; an absent key is `None`, and
      an absent `metadata` key is the empty map. */
  datatype CardData = CardData(
    title: Option<string>,
    link: Option<string>,
    description: Option<string>,
    date: Option<string>,
    metadata: map<string, seq<string>>,
    htmlContent: Option<string>)

  /** Python's truth value of the dictionary: false only for `{}`. */
  predicate IsNonEmpty(c: CardData)
  {
    c.title.Some? || c.link.Some? || c.description.Some? || c.date.Some?
    || |c.metadata| > 0 || c.htmlContent.Some?
  }

  predicate Matches(e: Element, tag: string, cls: Option<string>)
  {
    e.tag == tag && (cls.None? || cls.value in e.classes)
  }

  /** `card.find(tag)` / `card.find(tag, class_=cls)`: the first matching descendant. */
  function Find(els: seq<Element>, tag: string, cls: Option<string>): (r: Option<Element>)
    ensures r.Some? ==> r.value in els && Matches(r.value, tag, cls)
    ensures r.None? ==> forall e :: e in els ==> !Matches(e, tag, cls)
  {
    if els == [] then None
    else if Matches(els[0], tag, cls) then Some(els[0])
    else Find(els[1..], tag, cls)
  }

  /** `find` returns the first match in document order. */
  lemma {:induction false} FindIsFirst(els: seq<Element>, tag: string, cls: Option<string>, i: nat)
    requires i < |els| && Matches(els[i], tag, cls)
    requires forall j :: 0 <= j < i ==> !Matches(els[j], tag, cls)
    ensures Find(els, tag, cls) == Some(els[i])
  {
    if i > 0 {
      FindIsFirst(els[1..], tag, cls, i - 1);
    }
  }

  /** `card.find_all(class_=cls)`: every descendant with that class, in order. */
  function FindAllWithClass(els: seq<Element>, cls: string): (r: seq<Element>)
    ensures forall e :: e in r <==> e in els && cls in e.classes
  {
    if els == [] then []
    else if cls in els[0].classes then [els[0]] + FindAllWithClass(els[1..], cls)
    else FindAllWithClass(els[1..], cls)
  }

  /** `element.get_text(strip=True)`. */
  function TextOf(e: Element): string
  {
    Strip(e.text)
  }

  function TextsOf(els: seq<Element>): (r: seq<string>)
    ensures |r| == |els| && forall i :: 0 <= i < |els| ==> r[i] == TextOf(els[i])
  {
    seq(|els|, i requires 0 <= i < |els| => TextOf(els[i]))
  }

  /** Python's `x or y` on two optional elements. */
  function OrElse(a: Option<Element>, b: Option<Element>): Option<Element>
  {
    if a.Some? then a else b
  }

  /** The classes whose texts are collected as metadata, in order. */
  const MetadataClasses: seq<string> := ["fr-card__title", "fr-card__content", "fr-card__detail"]

  /** Python's truth value of the optional `domain` argument. */
  predicate Truthy(s: Option<string>)
  {
    s.Some? && s.value != ""
  }

  /** The stored link for a card's `href`: a non-empty href not starting with
      "http" becomes absolute on the given domain; any other href is kept. */
  function AbsoluteLink(href: string, domain: Option<string>): string
  {
    if href != "" && !StartsWith(href, "http") && Truthy(domain) then
      SiteRoot(domain.value) + href
    else
      href
  }

  /** The card fields other than metadata. */
  function TitleOf(card: CardElement): Option<string>
  {
    var e := OrElse(OrElse(Find(card.elements, "h3", None), Find(card.elements, "h2", None)),
                    Find(card.elements, "h1", None));
    if e.Some? then Some(TextOf(e.value)) else None
  }

  function LinkOf(card: CardElement, domain: Option<string>): Option<string>
  {
    var a := Find(card.elements, "a", None);
    if a.Some? then Some(AbsoluteLink(a.value.href.GetOr(""), domain)) else None
  }

  function DescriptionOf(card: CardElement): Option<string>
  {
    var e := OrElse(Find(card.elements, "p", None), Find(card.elements, "div", Some("fr-card__desc")));
    if e.Some? then Some(TextOf(e.value)) else None
  }

  function DateOf(card: CardElement): Option<string>
  {
    var e := OrElse(Find(card.elements, "time", None), Find(card.elements, "span", Some("date")));
    if e.Some? then Some(TextOf(e.value)) else None
  }

  /** Metadata built from the first `k` metadata classes. */
  function MetadataUpTo(els: seq<Element>, k: nat): (m: map<string, seq<string>>)
    requires k <= |MetadataClasses|
    ensures forall c :: c in m ==> c in MetadataClasses[..k]
  {
    if k == 0 then map[]
    else
      var m := MetadataUpTo(els, k - 1);
      var c := MetadataClasses[k - 1];
      var found := FindAllWithClass(els, c);
      if found != [] then m[c := TextsOf(found)] else m
  }

  /** What `extract_card_data(card, domain)` returns. */
  function CardDataOf(card: CardElement, domain: Option<string>): CardData
  {
    CardData(TitleOf(card), LinkOf(card, domain), DescriptionOf(card), DateOf(card),
             MetadataUpTo(card.elements, |MetadataClasses|), Some(card.html))
  }

  /** `extract_card_data`: fills the record field by field and collects the
      metadata class by class. */
  method ExtractCardData(card: CardElement, domain: Option<string>) returns (c: CardData)
    ensures c == CardDataOf(card, domain)
  {
    var els := card.elements;
    var title := None;
    var titleElement := OrElse(OrElse(Find(els, "h3", None), Find(els, "h2", None)), Find(els, "h1", None));
    if titleElement.Some? {
      title := Some(TextOf(titleElement.value));
    }
    assert title == TitleOf(card);
    var link := None;
    var linkElement := Find(els, "a", None);
    if linkElement.Some? {
      var original := linkElement.value.href.GetOr("");
      link := Some(original);
      if original != "" && !StartsWith(original, "http") && Truthy(domain) {
        link := Some(SiteRoot(domain.value) + original);
      }
    }
    assert link == LinkOf(card, domain);
    var description := None;
    var descriptionElement := OrElse(Find(els, "p", None), Find(els, "div", Some("fr-card__desc")));
    if descriptionElement.Some? {
      description := Some(TextOf(descriptionElement.value));
    }
    assert description == DescriptionOf(card);
    var date := None;
    var dateElement := OrElse(Find(els, "time", None), Find(els, "span", Some("date")));
    if dateElement.Some? {
      date := Some(TextOf(dateElement.value));
    }
    var metadata := CollectMetadata(els);
    c := CardData(title, link, description, date, metadata, Some(card.html));
  }

  /** The metadata loop of `extract_card_data`: one key per metadata class that
      some descendant carries. */
  method CollectMetadata(els: seq<Element>) returns (metadata: map<string, seq<string>>)
    ensures metadata == MetadataUpTo(els, |MetadataClasses|)
  {
    metadata := map[];
    for k := 0 to |MetadataClasses|
      invariant metadata == MetadataUpTo(els, k)
    {
      var found := FindAllWithClass(els, MetadataClasses[k]);
      if found != [] {
        metadata := metadata[MetadataClasses[k] := TextsOf(found)];
      }
    }
  }

  // ---------------------------------------------------------------------------
  // Properties
  // ---------------------------------------------------------------------------

  /** A relative href on a known domain gets the site root in front. */
  lemma RelativeLinkIsPrefixed(href: string, domain: string)
    requires href != "" && !StartsWith(href, "http") && domain != ""
    ensures AbsoluteLink(href, Some(domain)) == "https://www." + domain + href
  {
  }

  /** An href starting with "http" is stored as is. */
  lemma AbsoluteLinkKept(href: string, domain: Option<string>)
    requires StartsWith(href, "http")
    ensures AbsoluteLink(href, domain) == href
  {
  }

  /** Making a link absolute twice changes nothing more. */
  lemma AbsoluteLinkIdempotent(href: string, domain: Option<string>)
    ensures AbsoluteLink(AbsoluteLink(href, domain), domain) == AbsoluteLink(href, domain)
  {
    var l := AbsoluteLink(href, domain);
    if l != href {
      assert l[..4] == "http";
    }
  }

  /** A card without an `<a>` element has no `link` key; with one it always has it. */
  lemma LinkKeyIffAnchor(card: CardElement, domain: Option<string>)
    ensures CardDataOf(card, domain).link.Some? <==> exists e :: e in card.elements && e.tag == "a"
  {
    if exists e :: e in card.elements && e.tag == "a" {
      var e :| e in card.elements && e.tag == "a";
      assert Matches(e, "a", None);
    }
  }

  /** The title comes from the first `<h3>`; only without one from the first
      `<h2>`, and only without both from the first `<h1>`. */
  lemma TitlePriority(card: CardElement)
    ensures var h3 := Find(card.elements, "h3", None);
            var h2 := Find(card.elements, "h2", None);
            var h1 := Find(card.elements, "h1", None);
            TitleOf(card) == (if h3.Some? then Some(TextOf(h3.value))
                              else if h2.Some? then Some(TextOf(h2.value))
                              else if h1.Some? then Some(TextOf(h1.value))
                              else None)
  {
  }

  /** The metadata built from the first `k` classes has a key exactly for
      those of them some descendant carries, holding the texts of those
      descendants in order. */
  lemma {:induction false} MetadataUpToSpec(els: seq<Element>, k: nat, c: string)
    requires k <= |MetadataClasses|
    ensures var m := MetadataUpTo(els, k);
            (c in m <==> c in MetadataClasses[..k] && FindAllWithClass(els, c) != [])
            && (c in m ==> m[c] == TextsOf(FindAllWithClass(els, c)))
  {
    if k > 0 {
      MetadataUpToSpec(els, k - 1, c);
      assert MetadataClasses[..k] == MetadataClasses[..k - 1] + [MetadataClasses[k - 1]];
    }
  }

  /** The metadata has a key exactly for the metadata classes some descendant
      carries, holding the texts of those descendants in order. */
  lemma MetadataKeysAreFoundClasses(els: seq<Element>, c: string)
    ensures var m := MetadataUpTo(els, |MetadataClasses|);
            (c in m <==> c in MetadataClasses && exists e :: e in els && c in e.classes)
            && (c in m ==> m[c] == TextsOf(FindAllWithClass(els, c)))
  {
    MetadataUpToSpec(els, |MetadataClasses|, c);
    var found := FindAllWithClass(els, c);
    if found != [] {
      assert found[0] in found;
    }
    assert MetadataClasses[..|MetadataClasses|] == MetadataClasses;
  }

  /** Every extracted card is non-empty (its HTML is always recorded), so the
      filter in `scrape_government_site` keeps every card. */
  lemma ExtractedCardIsKept(card: CardElement, domain: Option<string>)
    ensures IsNonEmpty(CardDataOf(card, domain))
    ensures CardDataOf(card, domain).htmlContent == Some(card.html)
  {
  }
}
