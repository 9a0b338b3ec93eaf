/** The crawl of scraper/scraper.py: `scrape_government_site` fetches one page
    of search results, extracts its cards and saves them; `scrape_all_results`
    walks the pages ten results at a time, saves everything again and runs the
    older sweep. */
module Pager {
  import opened Wrappers
  import opened Dates
  import opened Models
  import opened Cards
  import opened Legacy

  /** The `div.fr-card` elements of the page a URL serves; `None` when the
      request raises (after the retries of `make_request_with_retry`). */
  type Fetch = string -> Option<seq<CardElement>>

  /** The results step, the last offset fetched after a page, and the pages
      between two session resets. */
  const OffsetStep: nat := 10
  const MaxOffset: nat := 1000
  const PagesPerSession: nat := 5

  // ---------------------------------------------------------------------------
  // One page
  // ---------------------------------------------------------------------------

  /** `extract_card_data(card, domain)` as a function of the card. */
  function Extractor(domain: string): CardElement -> CardData
  {
    card => CardDataOf(card, Some(domain))
  }

  /** The cards of a page, extracted, the empty dictionaries dropped. */
  function Extracted(cards: seq<CardElement>, extract: CardElement -> CardData): seq<CardData>
  {
    if cards == [] then []
    else
      var c := extract(cards[|cards| - 1]);
      Extracted(cards[..|cards| - 1], extract) + if IsNonEmpty(c) then [c] else []
  }

  /** An extractor that never yields an empty record keeps every card, in page order. */
  lemma {:induction false} ExtractedKeepsEveryCard(cards: seq<CardElement>, extract: CardElement -> CardData)
    requires forall card :: IsNonEmpty(extract(card))
    ensures |Extracted(cards, extract)| == |cards|
    ensures forall i :: 0 <= i < |cards| ==> Extracted(cards, extract)[i] == extract(cards[i])
  {
    if cards != [] {
      var init := cards[..|cards| - 1];
      ExtractedKeepsEveryCard(init, extract);
      var r := Extracted(cards, extract);
      assert r == Extracted(init, extract) + [extract(cards[|cards| - 1])];
      forall i | 0 <= i < |cards|
        ensures r[i] == extract(cards[i])
      {
        if i < |init| {
          assert cards[i] == init[i];
        }
      }
    }
  }

  /** No card of a page is dropped: the results are the cards' data, in page order. */
  lemma PageKeepsEveryCard(cards: seq<CardElement>, domain: string)
    ensures |Extracted(cards, Extractor(domain))| == |cards|
    ensures forall i :: 0 <= i < |cards| ==> Extracted(cards, Extractor(domain))[i] == CardDataOf(cards[i], Some(domain))
  {
    forall card
      ensures IsNonEmpty(Extractor(domain)(card))
    {
      ExtractedCardIsKept(card, Some(domain));
    }
    ExtractedKeepsEveryCard(cards, Extractor(domain));
  }

  /** What `scrape_government_site(domain, keyword, offset)` returns. */
  function SiteResults(fetch: Fetch, domain: string, keyword: string, offset: int): seq<CardData>
  {
    match fetch(SearchUrl(domain, keyword, offset))
    case None => []
    case Some(cards) => Extracted(cards, Extractor(domain))
  }

  /** The card loop of `scrape_government_site`. */
  method ExtractPage(cards: seq<CardElement>, domain: string) returns (results: seq<CardData>)
    ensures results == Extracted(cards, Extractor(domain))
  {
    results := [];
    for i := 0 to |cards|
      invariant results == Extracted(cards[..i], Extractor(domain))
    {
      assert cards[..i + 1][..i] == cards[..i];
      var cardData := ExtractCardData(cards[i], Some(domain));
      if IsNonEmpty(cardData) {
        results := results + [cardData];
      }
    }
    assert cards[..|cards|] == cards;
  }

  /** `scrape_government_site`: the page is fetched, its cards extracted, and
      the results saved with the older `save_to_database` when there are any. */
  method ScrapeGovernmentSite(store: DocumentStore, domain: string, keyword: string, offset: int, fetch: Fetch,
                              stored: Option<seq<string>>, wallNow: Instant, svc: LegacyServices)
    returns (results: seq<CardData>)
    requires store.Valid()
    modifies store
    ensures store.Valid()
    ensures results == SiteResults(fetch, domain, keyword, offset)
    ensures store.rows == LegacySyncAll(old(store.rows), results, LegacyRunFor(domain, stored, wallNow, svc)).rows
  {
    var url := SearchUrl(domain, keyword, offset);
    var page := fetch(url);
    if page.None? {
      return [];
    }
    results := ExtractPage(page.value, domain);
    if results != [] {
      var _ := LegacySaveToDatabase(store, results, domain, stored, wallNow, svc);
    }
  }

  // ---------------------------------------------------------------------------
  // All pages
  // ---------------------------------------------------------------------------

  /** The non-empty pages the pager collects from `offset` on: it stops at the
      first empty page, and after the page at the last offset not above `MaxOffset`. */
  function PagesFrom(site: nat -> seq<CardData>, offset: nat): seq<seq<CardData>>
    requires offset <= MaxOffset
    decreases MaxOffset - offset
  {
    var page := site(offset);
    if page == [] then []
    else if offset + OffsetStep > MaxOffset then [page]
    else [page] + PagesFrom(site, offset + OffsetStep)
  }

  /** The results of the site for each offset. */
  function Site(fetch: Fetch, domain: string, keyword: string): nat -> seq<CardData>
  {
    offset => SiteResults(fetch, domain, keyword, offset)
  }

  function Flatten(pages: seq<seq<CardData>>): seq<CardData>
  {
    if pages == [] then [] else Flatten(pages[..|pages| - 1]) + pages[|pages| - 1]
  }

  /** A call of `save_to_database` on the table: the table it leaves. */
  type Save = (map<string, Document>, seq<CardData>) -> map<string, Document>

  /** The older `save_to_database` of one run. */
  function Saver(run: LegacyRun): Save
  {
    (rows, items) => LegacySyncAll(rows, items, run).rows
  }

  /** `save` agrees with the older `save_to_database` of `run` wherever that is applied. */
  ghost predicate SavesAs(save: Save, run: LegacyRun)
  {
    forall rows, items {:trigger LegacySyncAll(rows, items, run)} :: save(rows, items) == LegacySyncAll(rows, items, run).rows
  }

  /** `site` agrees with `scrape_government_site` wherever that is applied. */
  ghost predicate SitesAs(site: nat -> seq<CardData>, fetch: Fetch, domain: string, keyword: string)
  {
    forall offset: nat {:trigger SiteResults(fetch, domain, keyword, offset)} :: site(offset) == SiteResults(fetch, domain, keyword, offset)
  }

  /** The table after each page was saved as it was scraped. */
  function SavePages(rows: map<string, Document>, pages: seq<seq<CardData>>, save: Save): map<string, Document>
  {
    if pages == [] then rows
    else save(SavePages(rows, pages[..|pages| - 1], save), pages[|pages| - 1])
  }

  /** The number of requests the pager makes: one per collected page, and one
      more for the empty page that stopped it, unless the offset limit did. */
  function Fetches(pages: seq<seq<CardData>>): nat
  {
    |pages| + if OffsetStep * |pages| <= MaxOffset then 1 else 0
  }

  /** One more page moves the reset count on exactly when the page count
      reaches a multiple of `PagesPerSession`. */
  lemma ResetStep(n: nat)
    ensures (n + 1) / PagesPerSession == n / PagesPerSession + if (n + 1) % PagesPerSession == 0 then 1 else 0
  {
  }

  /** The pager has collected `done` and is about to fetch `offset`; the
      pages still to come complete `pages`. */
  ghost predicate Walked(site: nat -> seq<CardData>, pages: seq<seq<CardData>>, done: seq<seq<CardData>>, offset: nat)
  {
    offset == OffsetStep * |done| <= MaxOffset && pages == done + PagesFrom(site, offset)
  }

  /** The state of the page loop after the pages `done`. */
  ghost predicate Paged(site: nat -> seq<CardData>, done: seq<seq<CardData>>, offset: nat, pageCount: nat,
                        resets: nat, fetches: nat, allResults: seq<CardData>)
  {
    Walked(site, PagesFrom(site, 0), done, offset) && pageCount == |done| && allResults == Flatten(done)
    && resets == pageCount / PagesPerSession && fetches == pageCount
  }

  /** What the page loop returns once it has stopped. */
  ghost predicate PagedAll(site: nat -> seq<CardData>, allResults: seq<CardData>, resets: nat, fetches: nat)
  {
    var pages := PagesFrom(site, 0);
    allResults == Flatten(pages) && resets == |pages| / PagesPerSession && fetches == Fetches(pages)
  }

  lemma PagedStarts(site: nat -> seq<CardData>)
    ensures Paged(site, [], 0, 0, 0, 0, [])
  {
    assert [] + PagesFrom(site, 0) == PagesFrom(site, 0);
  }

  /** An empty page ends the walk. */
  lemma PagedStops(site: nat -> seq<CardData>, done: seq<seq<CardData>>, offset: nat, pageCount: nat,
                   resets: nat, fetches: nat, allResults: seq<CardData>)
    requires Paged(site, done, offset, pageCount, resets, fetches, allResults) && site(offset) == []
    ensures PagesFrom(site, 0) == done && PagedAll(site, allResults, resets, fetches + 1)
  {
    assert done + [] == done;
  }

  /** A non-empty page is collected; past the offset limit the walk ends. */
  lemma PagedSteps(site: nat -> seq<CardData>, done: seq<seq<CardData>>, offset: nat, pageCount: nat,
                   resets: nat, fetches: nat, allResults: seq<CardData>,
                   done': seq<seq<CardData>>, offset': nat, pageCount': nat, resets': nat, fetches': nat,
                   allResults': seq<CardData>)
    requires Paged(site, done, offset, pageCount, resets, fetches, allResults) && site(offset) != []
    requires done' == done + [site(offset)] && offset' == offset + OffsetStep && pageCount' == pageCount + 1
    requires resets' == resets + (if pageCount' % PagesPerSession == 0 then 1 else 0)
    requires fetches' == fetches + 1 && allResults' == allResults + site(offset)
    ensures offset' > MaxOffset ==> PagesFrom(site, 0) == done' && PagedAll(site, allResults', resets', fetches')
    ensures offset' <= MaxOffset ==> Paged(site, done', offset', pageCount', resets', fetches', allResults')
  {
    WalkAdvances(site, done, offset);
    FlattenSnoc(done, site(offset));
    ResetStep(pageCount);
  }

  /** Fetching a non-empty page moves the walk on by one page: past the
      limit, the pages collected are all the pages there are. */
  lemma WalkAdvances(site: nat -> seq<CardData>, done: seq<seq<CardData>>, offset: nat)
    requires Walked(site, PagesFrom(site, 0), done, offset) && site(offset) != []
    ensures var done' := done + [site(offset)];
            (offset + OffsetStep > MaxOffset ==> PagesFrom(site, 0) == done')
            && (offset + OffsetStep <= MaxOffset ==> Walked(site, PagesFrom(site, 0), done', offset + OffsetStep))
  {
    var done' := done + [site(offset)];
    var pages := PagesFrom(site, 0);
    if offset + OffsetStep <= MaxOffset {
      assert PagesFrom(site, offset) == [site(offset)] + PagesFrom(site, offset + OffsetStep);
      assert pages == done' + PagesFrom(site, offset + OffsetStep);
    } else {
      assert PagesFrom(site, offset) == [site(offset)];
    }
  }

  /** Flattening one more page appends its results. */
  lemma FlattenSnoc(done: seq<seq<CardData>>, page: seq<CardData>)
    ensures Flatten(done + [page]) == Flatten(done) + page
  {
    assert (done + [page])[..|done|] == done;
  }

  /** Saving one more page extends the saves of the pages before it. */
  lemma SavePagesSnoc(rows: map<string, Document>, pages: seq<seq<CardData>>, page: seq<CardData>, save: Save)
    ensures SavePages(rows, pages + [page], save) == save(SavePages(rows, pages, save), page)
  {
    assert (pages + [page])[..|pages|] == pages;
  }

  /** The page at `offset` is scraped and, when it is not empty, saved after
      the pages before it. */
  method ScrapeNext(store: DocumentStore, domain: string, keyword: string, offset: nat, fetch: Fetch,
                    stored: Option<seq<string>>, wallNow: Instant, svc: LegacyServices,
                    ghost site: nat -> seq<CardData>, ghost save: Save,
                    ghost rows: map<string, Document>, ghost done: seq<seq<CardData>>)
    returns (pageResults: seq<CardData>)
    requires SitesAs(site, fetch, domain, keyword) && SavesAs(save, LegacyRunFor(domain, stored, wallNow, svc))
    requires store.Valid() && store.rows == SavePages(rows, done, save)
    modifies store
    ensures store.Valid()
    ensures pageResults == site(offset)
    ensures pageResults == [] ==> store.rows == old(store.rows)
    ensures pageResults != [] ==> store.rows == SavePages(rows, done + [pageResults], save)
  {
    pageResults := ScrapeGovernmentSite(store, domain, keyword, offset, fetch, stored, wallNow, svc);
    SavePagesSnoc(rows, done, pageResults, save);
  }

  /** One iteration of the page loop of `scrape_all_results`: `stop` is set
      at an empty page and once the offset passes `MaxOffset`. */
  method PageStep(store: DocumentStore, domain: string, keyword: string, fetch: Fetch,
                  stored: Option<seq<string>>, wallNow: Instant, svc: LegacyServices,
                  ghost site: nat -> seq<CardData>, ghost save: Save, ghost rows: map<string, Document>,
                  ghost done: seq<seq<CardData>>, offset: nat, pageCount: nat, resets: nat, fetches: nat,
                  allResults: seq<CardData>)
    returns (stop: bool, ghost done': seq<seq<CardData>>, offset': nat, pageCount': nat, resets': nat, fetches': nat,
             allResults': seq<CardData>)
    requires SitesAs(site, fetch, domain, keyword) && SavesAs(save, LegacyRunFor(domain, stored, wallNow, svc))
    requires store.Valid() && store.rows == SavePages(rows, done, save)
    requires Paged(site, done, offset, pageCount, resets, fetches, allResults)
    modifies store
    ensures store.Valid()
    ensures stop ==> PagedAll(site, allResults', resets', fetches') && store.rows == SavePages(rows, PagesFrom(site, 0), save)
    ensures !stop ==> Paged(site, done', offset', pageCount', resets', fetches', allResults')
                      && store.rows == SavePages(rows, done', save) && offset' > offset
  {
    var pageResults := ScrapeNext(store, domain, keyword, offset, fetch, stored, wallNow, svc, site, save, rows, done);
    done', offset', pageCount', resets', fetches', allResults' := done, offset, pageCount, resets, fetches + 1, allResults;
    if pageResults == [] {
      PagedStops(site, done, offset, pageCount, resets, fetches, allResults);
      return true, done', offset', pageCount', resets', fetches', allResults';
    }
    allResults' := allResults + pageResults;
    done' := done + [pageResults];
    offset' := offset + OffsetStep;
    pageCount' := pageCount + 1;
    resets' := resets + if pageCount' % PagesPerSession == 0 then 1 else 0;
    PagedSteps(site, done, offset, pageCount, resets, fetches, allResults,
               done', offset', pageCount', resets', fetches', allResults');
    stop := offset' > MaxOffset;
  }

  /** The page loop of `scrape_all_results`: every page is saved as it is scraped. */
  method CollectPages(store: DocumentStore, domain: string, keyword: string, fetch: Fetch,
                      stored: Option<seq<string>>, wallNow: Instant, svc: LegacyServices,
                      ghost site: nat -> seq<CardData>, ghost save: Save)
    returns (allResults: seq<CardData>, resets: nat, fetches: nat)
    requires SitesAs(site, fetch, domain, keyword) && SavesAs(save, LegacyRunFor(domain, stored, wallNow, svc))
    requires store.Valid()
    modifies store
    ensures store.Valid()
    ensures PagedAll(site, allResults, resets, fetches)
    ensures store.rows == SavePages(old(store.rows), PagesFrom(site, 0), save)
  {
    ghost var rows := store.rows;
    ghost var done: seq<seq<CardData>> := [];
    PagedStarts(site);
    allResults := [];
    var offset: nat := 0;
    var pageCount: nat := 0;
    resets, fetches := 0, 0;
    while true
      invariant store.Valid() && store.rows == SavePages(rows, done, save)
      invariant Paged(site, done, offset, pageCount, resets, fetches, allResults)
      decreases MaxOffset - offset
    {
      var stop;
      stop, done, offset, pageCount, resets, fetches, allResults :=
        PageStep(store, domain, keyword, fetch, stored, wallNow, svc, site, save, rows,
                 done, offset, pageCount, resets, fetches, allResults);
      if stop {
        break;
      }
    }
  }

  /** `scrape_all_results(domain, keyword)`: returns `all_results`, with the
      number of session resets and of page requests; the table ends with every
      page saved, everything saved once more, and the older sweep applied. */
  method ScrapeAllResults(store: DocumentStore, domain: string, keyword: string, fetch: Fetch,
                          stored: Option<seq<string>>, wallNow: Instant, svc: LegacyServices)
    returns (allResults: seq<CardData>, resets: nat, fetches: nat)
    requires store.Valid()
    modifies store
    ensures store.Valid()
    ensures var pages := PagesFrom(Site(fetch, domain, keyword), 0);
            allResults == Flatten(pages) && resets == |pages| / PagesPerSession && fetches == Fetches(pages)
    ensures var pages := PagesFrom(Site(fetch, domain, keyword), 0);
            var run := LegacyRunFor(domain, stored, wallNow, svc);
            store.rows == LegacyKept(LegacySyncAll(SavePages(old(store.rows), pages, Saver(run)), Flatten(pages), run).rows, stored)
  {
    ghost var run := LegacyRunFor(domain, stored, wallNow, svc);
    allResults, resets, fetches := CollectPages(store, domain, keyword, fetch, stored, wallNow, svc,
                                                Site(fetch, domain, keyword), Saver(run));
    ghost var saved := store.rows;
    if allResults != [] {
      var _ := LegacySaveToDatabase(store, allResults, domain, stored, wallNow, svc);
    } else {
      assert LegacySyncAll(saved, allResults, LegacyRunFor(domain, stored, wallNow, svc)).rows == saved;
    }
    var _ := LegacyRemoveDocumentsWithNegativeKeywords(store, stored);
  }

  // ---------------------------------------------------------------------------
  // Properties
  // ---------------------------------------------------------------------------

  /** The `i`-th collected page is the non-empty result at offset `offset + 10 i`,
      and the pager stopped at an empty page or past the offset limit. */
  lemma {:induction false} PagesFromShape(site: nat -> seq<CardData>, offset: nat)
    requires offset <= MaxOffset
    ensures var pages := PagesFrom(site, offset);
            (forall i :: 0 <= i < |pages| ==> pages[i] == site(offset + OffsetStep * i) && pages[i] != [])
            && (offset + OffsetStep * |pages| > MaxOffset || site(offset + OffsetStep * |pages|) == [])
    decreases MaxOffset - offset
  {
    var page := site(offset);
    if page != [] && offset + OffsetStep <= MaxOffset {
      PagesFromShape(site, offset + OffsetStep);
      var rest := PagesFrom(site, offset + OffsetStep);
      var pages := PagesFrom(site, offset);
      assert pages == [page] + rest;
      forall i | 0 < i < |pages|
        ensures pages[i] == site(offset + OffsetStep * i)
      {
        assert pages[i] == rest[i - 1];
        assert offset + OffsetStep + OffsetStep * (i - 1) == offset + OffsetStep * i;
      }
      assert offset + OffsetStep + OffsetStep * |rest| == offset + OffsetStep * |pages|;
    }
  }

  /** At most `(MaxOffset - offset) / 10 + 1` pages from `offset`. */
  lemma {:induction false} PagesFromBound(site: nat -> seq<CardData>, offset: nat)
    requires offset <= MaxOffset
    ensures OffsetStep * (|PagesFrom(site, offset)| - 1) <= MaxOffset - offset
    decreases MaxOffset - offset
  {
    var page := site(offset);
    if page != [] && offset + OffsetStep <= MaxOffset {
      PagesFromBound(site, offset + OffsetStep);
    }
  }

  /** The pager collects at most 101 pages and makes at most 101 requests. */
  lemma PagerMakesAtMost101Requests(site: nat -> seq<CardData>)
    ensures |PagesFrom(site, 0)| <= 101
    ensures Fetches(PagesFrom(site, 0)) <= 101
  {
    PagesFromBound(site, 0);
  }

  lemma {:induction false} SyncAllAppend(rows: map<string, Document>, a: seq<CardData>, b: seq<CardData>, run: LegacyRun)
    ensures LegacySyncAll(rows, a + b, run).rows == LegacySyncAll(LegacySyncAll(rows, a, run).rows, b, run).rows
    decreases |b|
  {
    if b == [] {
      assert a + b == a;
    } else {
      assert (a + b)[..|a + b| - 1] == a + b[..|b| - 1];
      SyncAllAppend(rows, a, b[..|b| - 1], run);
    }
  }

  /** Saving the pages one by one leaves the table that saving them all at once would. */
  lemma {:induction false} SavePagesIsOneSave(rows: map<string, Document>, pages: seq<seq<CardData>>, run: LegacyRun)
    ensures SavePages(rows, pages, Saver(run)) == LegacySyncAll(rows, Flatten(pages), run).rows
  {
    if pages != [] {
      SavePagesIsOneSave(rows, pages[..|pages| - 1], run);
      SyncAllAppend(rows, Flatten(pages[..|pages| - 1]), pages[|pages| - 1], run);
    }
  }

  /** The final save of `scrape_all_results` repeats the saves made page by
      page: when the results have distinct links and dates read from their
      detail texts, it changes nothing and its count is 0. */
  lemma FinalSaveChangesNothing(rows: map<string, Document>, pages: seq<seq<CardData>>, run: LegacyRun)
    requires KeyedByLink(rows)
    requires DistinctLinks(Flatten(pages))
    requires forall i :: 0 <= i < |Flatten(pages)| ==> HasParsedDate(Flatten(pages)[i])
    ensures var again := LegacySyncAll(SavePages(rows, pages, Saver(run)), Flatten(pages), run);
            again.rows == SavePages(rows, pages, Saver(run)) && Sync.WriteCount(again.actions) == 0
  {
    SavePagesIsOneSave(rows, pages, run);
    ResaveSavesNothing(rows, Flatten(pages), run, run);
  }
}
