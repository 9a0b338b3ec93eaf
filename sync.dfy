/** The persistence engine of scraper/analysis.py: `save_to_database`, which
    decides for each scraped card whether to delete, skip, update or create a
    `GovernmentDocument`, and `remove_documents_with_negative_keywords`, the
    sweep that deletes every flagged row in bulk batches.

    Fetching, PDF extraction, the language-model calls and the database lookup
    are the fields of `Services`; a `None` answer means that call raised. The
    clock is two instants: `now` (the injected `now` argument) and `wallNow`
    (`timezone.now()`). */
module Sync {
  import opened Wrappers
  import opened Text
  import opened Dates
  import opened DateParse
  import opened Keywords
  import opened Prefectures
  import opened Models
  import opened Enrichment

  /** A scraped search-result card as `save_to_database` reads it. */
  datatype ScrapedCard = ScrapedCard(
    title: string,
    link: string,
    description: Option<string>,
    metadata: map<string, seq<string>>)

  /** What `get_document_info` answers. */
  datatype DocumentInfo = DocumentInfo(
    summary: string,
    isAnimalProject: bool,
    animalType: Option<string>,
    animalNumber: Option<int>)

  /** The collaborators of `save_to_database`. */
  datatype Services = Services(
    lookupFails: string -> bool,                   // the lookup of the existing row raises
    fetchPageText: string -> Option<string>,       // `fetch_page_text`
    pdfText: string -> string,                     // `extract_text_from_pdf`: "" on its own errors
    pdfLinks: string -> seq<string>,               // `extract_pdf_links_from_page`: [] on its own errors
    trimTokens: string -> Option<string>,          // `trim_text`
    documentInfo: string -> Option<DocumentInfo>,  // `get_document_info`
    intensiveCheck: string -> Option<bool>)        // `check_if_intensive_farming(summary).is_intensive_farming`

  /** What one call of `save_to_database` works with: the domain's
      prefecture, the process's cached lower-cased negative keywords, one
      reading of each clock for the whole call, and the collaborators. */
  datatype Run = Run(
    prefName: Option<string>,
    prefCode: Option<string>,
    regionName: Option<string>,
    negativeKeywords: seq<string>,
    now: Instant,
    wallNow: Instant,
    svc: Services)

  /** `pref_name`, `pref_code` and `region_name` come from the domain's
      prefecture, and are `None` when the domain is not in the table. */
  function RunFor(domain: string, kws: seq<string>, now: Instant, wallNow: Instant, svc: Services): Run
  {
    var p := PrefectureByDomain(domain);
    Run(if p.Some? then Some(p.value.name) else None,
        if p.Some? then Some(p.value.code) else None,
        if p.Some? then Some(p.value.region) else None,
        kws, now, wallNow, svc)
  }

  // ---------------------------------------------------------------------------
  // The filters
  // ---------------------------------------------------------------------------

  const DetailClass: string := "fr-card__detail"

  /** `date_updated`: parsed from the joined detail lines when the card has
      them, else the injected `now`. */
  function CardDate(card: ScrapedCard, now: Instant, wallNow: Instant): Instant
  {
    if DetailClass in card.metadata then DateFromDetail(Some(Join(" ", card.metadata[DetailClass])), wallNow)
    else now
  }

  /** Python's `f"{x}"` of an optional string: a missing one prints as "None". */
  function Shown(s: Option<string>): string
  {
    if s.None? then "None" else s.value
  }

  /** `contains_negative_keywords(card.title, card.description)`. */
  predicate IsNegativeCard(card: ScrapedCard, kws: seq<string>)
  {
    HasNegativeKeyword(kws, card.title, Shown(card.description))
  }

  /** `date_updated < timezone.now() - timedelta(days=30)`. */
  predicate IsStale(date: Instant, wallNow: Instant)
  {
    date < wallNow - Days(RecentDays)
  }

  predicate IsPdfLink(link: string)
  {
    EndsWith(Lower(link), ".pdf")
  }

  /** `full_page_text`: the PDF's text for a PDF link, else the page's text. */
  function PageText(link: string, svc: Services): Option<string>
  {
    if IsPdfLink(link) then Some(svc.pdfText(link)) else svc.fetchPageText(link)
  }

  // ---------------------------------------------------------------------------
  // Classification and refinement
  // ---------------------------------------------------------------------------

  /** The refinement of an intensive-farming card: the linked PDFs' texts are
      appended to the page text and the document info is asked again. With no
      PDF link, no usable PDF text, or an exception, `info` stays as it was. */
  function Refine(link: string, pageText: string, info: DocumentInfo, svc: Services): DocumentInfo
  {
    var links := svc.pdfLinks(link);
    if links == [] then info
    else
      var texts := Budgeted(PdfSample(links), svc.pdfText);
      if texts == [] then info
      else
        match svc.trimTokens(EnrichedText(pageText, texts))
        case None => info
        case Some(trimmed) =>
          match svc.documentInfo(trimmed)
          case None => info
          case Some(refined) => refined
  }

  /** The fetched text, the document info finally kept and the intensive-farming flag. */
  datatype Analysis = Analysis(pageText: string, info: DocumentInfo, intensive: bool)

  /** Fetch, classify and possibly refine; `None` when an exception escapes to
      the per-item handler. */
  function Analyse(link: string, svc: Services): Option<Analysis>
  {
    match PageText(link, svc)
    case None => None
    case Some(text) =>
      match svc.documentInfo(text)
      case None => None
      case Some(info) =>
        if !info.isAnimalProject then Some(Analysis(text, info, false))
        else
          match svc.intensiveCheck(info.summary)
          case None => None
          case Some(intensive) =>
            Some(Analysis(text, if intensive then Refine(link, text, info, svc) else info, intensive))
  }

  /** The refinement step of `save_to_database`. */
  method RefineInfo(link: string, pageText: string, info: DocumentInfo, svc: Services) returns (r: DocumentInfo)
    ensures r == Refine(link, pageText, info, svc)
  {
    r := info;
    var linkedPdfs := svc.pdfLinks(link);
    if linkedPdfs == [] {
      return;
    }
    var pdfSample := SamplePdfLinks(linkedPdfs);
    var appendedTexts, _ := CollectPdfTexts(pdfSample, svc.pdfText);
    if appendedTexts == [] {
      return;
    }
    var enrichedText := EnrichedText(pageText, appendedTexts);
    var trimmed := svc.trimTokens(enrichedText);
    if trimmed.None? {
      return;
    }
    var refined := svc.documentInfo(trimmed.value);
    if refined.Some? {
      r := refined.value;
    }
  }

  /** Fetching and classifying one card in `save_to_database`. */
  method AnalyseCard(link: string, svc: Services) returns (a: Option<Analysis>)
    ensures a == Analyse(link, svc)
  {
    var fullPageText: Option<string>;
    if !IsPdfLink(link) {
      fullPageText := svc.fetchPageText(link);
    } else {
      fullPageText := Some(svc.pdfText(link));
    }
    if fullPageText.None? {
      return None;
    }
    var documentInfo := svc.documentInfo(fullPageText.value);
    if documentInfo.None? {
      return None;
    }
    var info := documentInfo.value;
    var isIntensiveFarming := false;
    if info.isAnimalProject {
      var check := svc.intensiveCheck(info.summary);
      if check.None? {
        return None;
      }
      isIntensiveFarming := check.value;
    }
    if isIntensiveFarming {
      info := RefineInfo(link, fullPageText.value, info, svc);
    }
    return Some(Analysis(fullPageText.value, info, isIntensiveFarming));
  }

  /** Whether the analysis fails is decided by the page fetch, the first
      document-info call and the intensive-farming check alone: a failure
      during refinement never aborts the item. */
  lemma RefinementFailureDoesNotAbortItem(link: string, svc: Services)
    ensures Analyse(link, svc).Some? <==>
            PageText(link, svc).Some?
            && svc.documentInfo(PageText(link, svc).value).Some?
            && (svc.documentInfo(PageText(link, svc).value).value.isAnimalProject ==>
                  svc.intensiveCheck(svc.documentInfo(PageText(link, svc).value).value.summary).Some?)
  {
    match PageText(link, svc)
    case None =>
    case Some(text) =>
      match svc.documentInfo(text)
      case None =>
      case Some(info) =>
        if info.isAnimalProject && svc.intensiveCheck(info.summary).Some? {
          var r := if svc.intensiveCheck(info.summary).value then Refine(link, text, info, svc) else info;
          assert Analyse(link, svc) == Some(Analysis(text, r, svc.intensiveCheck(info.summary).value));
        }
  }

  /** Only an intensive-farming card is refined; for every other card the first
      document-info answer is kept, and the flag is on only for an animal
      project the check calls intensive. */
  lemma RefinementOnlyForIntensive(link: string, svc: Services)
    requires Analyse(link, svc).Some?
    ensures var a := Analyse(link, svc).value;
            var first := svc.documentInfo(a.pageText);
            PageText(link, svc) == Some(a.pageText)
            && first.Some?
            && (a.intensive <==> first.value.isAnimalProject && svc.intensiveCheck(first.value.summary) == Some(true))
            && (!a.intensive ==> a.info == first.value)
  {
  }

  /** A refinement that replaces the info does so with the oracle's answer on
      the trimmed enriched corpus, which holds the page text and at least one
      linked PDF text, every such text within the per-PDF and total caps. */
  lemma RefinedInfoComesFromEnrichedCorpus(link: string, pageText: string, info: DocumentInfo, svc: Services)
    requires Refine(link, pageText, info, svc) != info
    ensures var texts := Budgeted(PdfSample(svc.pdfLinks(link)), svc.pdfText);
            |texts| > 0
            && SumLengths(texts) <= TotalPdfCharBudget
            && (forall i :: 0 <= i < |texts| ==> |texts[i]| <= PerPdfCharLimit)
            && IsSubstring(pageText, EnrichedText(pageText, texts))
            && svc.trimTokens(EnrichedText(pageText, texts)).Some?
            && svc.documentInfo(svc.trimTokens(EnrichedText(pageText, texts)).value) == Some(Refine(link, pageText, info, svc))
  {
    var texts := Budgeted(PdfSample(svc.pdfLinks(link)), svc.pdfText);
    BudgetedBounds(PdfSample(svc.pdfLinks(link)), svc.pdfText);
    EnrichedTextContainsItsSources(pageText, texts);
  }

  // ---------------------------------------------------------------------------
  // The decision for one card
  // ---------------------------------------------------------------------------

  /** Python's truth test on an optional string. */
  predicate Given(s: Option<string>)
  {
    s.Some? && s.value != ""
  }

  /** An attribution column is overwritten only with a given value. */
  function KeepUnlessGiven(current: Option<string>, given: Option<string>): Option<string>
  {
    if Given(given) then given else current
  }

  /** `changed`: an edited title or description, a new date, or a given
      attribution value that differs from the stored one. */
  predicate Changed(e: Document, card: ScrapedCard, date: Instant, run: Run)
  {
    e.title != card.title
    || e.description.GetOr("") != card.description.GetOr("")
    || e.dateUpdated != date
    || (Given(run.prefName) && e.prefectureName != run.prefName)
    || (Given(run.prefCode) && e.prefectureCode != run.prefCode)
    || (Given(run.regionName) && e.regionName != run.regionName)
  }

  /** The existing row after the update branch. */
  function UpdatedRow(e: Document, card: ScrapedCard, date: Instant, a: Analysis, run: Run): Document
  {
    e.(title := card.title,
       description := card.description,
       dateUpdated := date,
       fullPageText := Some(a.pageText),
       summary := Some(a.info.summary),
       isAnimalProject := a.info.isAnimalProject,
       isIntensiveFarming := a.intensive,
       prefectureName := KeepUnlessGiven(e.prefectureName, run.prefName),
       prefectureCode := KeepUnlessGiven(e.prefectureCode, run.prefCode),
       regionName := KeepUnlessGiven(e.regionName, run.regionName))
  }

  /** The row the create branch builds. */
  function NewRow(card: ScrapedCard, date: Instant, a: Analysis, run: Run): Document
  {
    Document(card.link, card.title, card.description, date, false,
             run.prefName, run.prefCode, run.regionName,
             Some(a.info.summary), Some(a.pageText), a.info.isAnimalProject, a.intensive,
             a.info.animalType, a.info.animalNumber)
  }

  datatype SkipReason = LookupFailed | NegativeNew | Stale | Unchanged | NoChanges | ItemFailed

  /** What `save_to_database` does with one card. */
  datatype Action =
    | Deleted(link: string)
    | Skipped(reason: SkipReason)
    | Updated(doc: Document)
    | Created(doc: Document)
  {
    predicate IsWrite()
    {
      Updated? || Created?
    }
  }

  /** The decision for one card against the table `rows`. */
  function Decide(rows: map<string, Document>, card: ScrapedCard, run: Run): Action
  {
    if run.svc.lookupFails(card.link) then Skipped(LookupFailed)
    else if IsNegativeCard(card, run.negativeKeywords) then
      if card.link in rows then Deleted(card.link) else Skipped(NegativeNew)
    else
      var date := CardDate(card, run.now, run.wallNow);
      if IsStale(date, run.wallNow) then Skipped(Stale)
      else if card.link in rows && rows[card.link].dateUpdated == date then Skipped(Unchanged)
      else
        match Analyse(card.link, run.svc)
        case None => Skipped(ItemFailed)
        case Some(a) => Write(rows, card, date, a, run)
  }

  /** The last step for a card that passed the filters and was analysed. */
  function Write(rows: map<string, Document>, card: ScrapedCard, date: Instant, a: Analysis, run: Run): Action
  {
    if card.link in rows then
      if Changed(rows[card.link], card, date, run) then Updated(UpdatedRow(rows[card.link], card, date, a, run))
      else Skipped(NoChanges)
    else Created(NewRow(card, date, a, run))
  }

  /** `Decide` for a card that passes the filters and is analysed. */
  lemma DecideReachesWrite(rows: map<string, Document>, card: ScrapedCard, run: Run, a: Analysis)
    requires !run.svc.lookupFails(card.link) && !IsNegativeCard(card, run.negativeKeywords)
    requires var date := CardDate(card, run.now, run.wallNow);
             !IsStale(date, run.wallNow) && !(card.link in rows && rows[card.link].dateUpdated == date)
    requires Analyse(card.link, run.svc) == Some(a)
    ensures Decide(rows, card, run) == Write(rows, card, CardDate(card, run.now, run.wallNow), a, run)
  {
  }

  /** The table after an action. */
  function Apply(rows: map<string, Document>, a: Action): map<string, Document>
  {
    match a
    case Deleted(link) => rows - {link}
    case Skipped(_) => rows
    case Updated(d) => rows[d.link := d]
    case Created(d) => rows[d.link := d]
  }

  /** One iteration of the loop of `save_to_database`. */
  method SyncCard(store: DocumentStore, card: ScrapedCard, run: Run) returns (saved: nat)
    requires store.Valid()
    modifies store
    ensures store.Valid()
    ensures store.rows == Apply(old(store.rows), Decide(old(store.rows), card, run))
    ensures saved == if Decide(old(store.rows), card, run).IsWrite() then 1 else 0
  {
    ghost var rows := store.rows;
    var dateUpdated := run.now;
    if DetailClass in card.metadata {
      dateUpdated := ParseDateFromDetail(Some(Join(" ", card.metadata[DetailClass])), run.wallNow);
    }
    assert dateUpdated == CardDate(card, run.now, run.wallNow);
    if run.svc.lookupFails(card.link) {
      return 0;
    }
    var existing := store.Find(card.link);
    var negative := ContainsNegativeKeywords(run.negativeKeywords, card.title, Shown(card.description));
    if negative {
      if existing.Some? {
        store.Delete(card.link);
      }
      return 0;
    }
    if dateUpdated < run.wallNow - Days(RecentDays) {
      return 0;
    }
    if existing.Some? && existing.value.dateUpdated == dateUpdated {
      return 0;
    }
    var analysis := AnalyseCard(card.link, run.svc);
    if analysis.None? {
      return 0;
    }
    var a := analysis.value;
    DecideReachesWrite(rows, card, run, a);
    saved := WriteAnalysed(store, existing, card, dateUpdated, a, run);
  }

  /** The update-or-create tail of one iteration of `save_to_database`, for a
      card that passed the filters and was analysed. */
  method WriteAnalysed(store: DocumentStore, existing: Option<Document>, card: ScrapedCard, dateUpdated: Instant,
                       a: Analysis, run: Run)
    returns (saved: nat)
    requires store.Valid()
    requires existing.Some? <==> card.link in store.rows
    requires existing.Some? ==> existing.value == store.rows[card.link] && existing.value.dateUpdated != dateUpdated
    modifies store
    ensures store.Valid()
    ensures store.rows == Apply(old(store.rows), Write(old(store.rows), card, dateUpdated, a, run))
    ensures saved == if Write(old(store.rows), card, dateUpdated, a, run).IsWrite() then 1 else 0
  {
    if existing.Some? {
      var e := existing.value;
      var changed :=
        e.title != card.title
        || e.description.GetOr("") != card.description.GetOr("")
        || e.dateUpdated != dateUpdated
        || (Given(run.prefName) && e.prefectureName != run.prefName)
        || (Given(run.prefCode) && e.prefectureCode != run.prefCode)
        || (Given(run.regionName) && e.regionName != run.regionName);
      // The stored date differs from `dateUpdated` here, so `changed` always holds
      // and the source's no-change branch is never taken.
      assert changed;
      e := e.(title := card.title, description := card.description, dateUpdated := dateUpdated,
              fullPageText := Some(a.pageText), summary := Some(a.info.summary),
              isAnimalProject := a.info.isAnimalProject, isIntensiveFarming := a.intensive);
      if Given(run.prefName) {
        e := e.(prefectureName := run.prefName);
      }
      if Given(run.prefCode) {
        e := e.(prefectureCode := run.prefCode);
      }
      if Given(run.regionName) {
        e := e.(regionName := run.regionName);
      }
      assert e == UpdatedRow(store.rows[card.link], card, dateUpdated, a, run);
      store.Save(e);
      return 1;
    }
    var _ := store.Create(NewRow(card, dateUpdated, a, run));
    return 1;
  }

  // ---------------------------------------------------------------------------
  // The whole batch
  // ---------------------------------------------------------------------------

  datatype SyncResult = SyncResult(rows: map<string, Document>, actions: seq<Action>)

  /** The cards processed one after the other, each against the table the
      earlier ones left. */
  function SyncAll(rows: map<string, Document>, cards: seq<ScrapedCard>, run: Run): (r: SyncResult)
    ensures |r.actions| == |cards|
  {
    if cards == [] then SyncResult(rows, [])
    else
      var p := SyncAll(rows, cards[..|cards| - 1], run);
      var a := Decide(p.rows, cards[|cards| - 1], run);
      SyncResult(Apply(p.rows, a), p.actions + [a])
  }

  /** The number of creates and updates. */
  function WriteCount(actions: seq<Action>): nat
  {
    if actions == [] then 0
    else WriteCount(actions[..|actions| - 1]) + if actions[|actions| - 1].IsWrite() then 1 else 0
  }

  /** `save_to_database(scraped_cards, domain)`: returns `saved`. */
  method SaveToDatabase(store: DocumentStore, cache: KeywordCache, scrapedCards: seq<ScrapedCard>, domain: string,
                        stored: Option<seq<string>>, now: Instant, wallNow: Instant, svc: Services)
    returns (saved: nat)
    requires store.Valid()
    modifies store, cache
    ensures store.Valid()
    ensures scrapedCards == [] ==> cache.cached == old(cache.cached)
    ensures scrapedCards != [] ==> cache.cached == Some(CachedKeywords(old(cache.cached), stored))
    ensures var kws := CachedKeywords(old(cache.cached), stored);
            var r := SyncAll(old(store.rows), scrapedCards, RunFor(domain, kws, now, wallNow, svc));
            store.rows == r.rows && saved == WriteCount(r.actions)
  {
    saved := 0;
    if scrapedCards == [] {
      return;
    }
    var kws := cache.Get(stored);
    var prefectureInfo := PrefectureByDomain(domain);
    var prefName := if prefectureInfo.Some? then Some(prefectureInfo.value.name) else None;
    var prefCode := if prefectureInfo.Some? then Some(prefectureInfo.value.code) else None;
    var regionName := if prefectureInfo.Some? then Some(prefectureInfo.value.region) else None;
    var run := Run(prefName, prefCode, regionName, kws, now, wallNow, svc);
    assert run == RunFor(domain, kws, now, wallNow, svc);
    saved := SyncCards(store, scrapedCards, run);
  }

  /** The loop of `save_to_database` over the cards, with `saved` counting
      the creates and updates. */
  method SyncCards(store: DocumentStore, cards: seq<ScrapedCard>, run: Run) returns (saved: nat)
    requires store.Valid()
    modifies store
    ensures store.Valid()
    ensures var r := SyncAll(old(store.rows), cards, run);
            store.rows == r.rows && saved == WriteCount(r.actions)
  {
    ghost var rows := store.rows;
    saved := 0;
    for k := 0 to |cards|
      invariant store.Valid()
      invariant store.rows == SyncAll(rows, cards[..k], run).rows
      invariant saved == WriteCount(SyncAll(rows, cards[..k], run).actions)
    {
      SyncAllStep(rows, cards, k, run);
      var s := SyncCard(store, cards[k], run);
      saved := saved + s;
    }
    assert cards[..|cards|] == cards;
  }

  /** One more card: its decision is taken on the rows left by the cards
      before it, applied to them, and counted when it writes. */
  lemma SyncAllStep(rows: map<string, Document>, cards: seq<ScrapedCard>, k: nat, run: Run)
    requires k < |cards|
    ensures var p := SyncAll(rows, cards[..k], run);
            var a := Decide(p.rows, cards[k], run);
            SyncAll(rows, cards[..k + 1], run).rows == Apply(p.rows, a)
            && WriteCount(SyncAll(rows, cards[..k + 1], run).actions)
               == WriteCount(p.actions) + if a.IsWrite() then 1 else 0
  {
    assert cards[..k + 1][..k] == cards[..k];
    var p := SyncAll(rows, cards[..k], run);
    var a := Decide(p.rows, cards[k], run);
    assert (p.actions + [a])[..|p.actions|] == p.actions;
  }

  // ---------------------------------------------------------------------------
  // Properties of the decision
  // ---------------------------------------------------------------------------

  /** A decision touches only the row of the card's own link, and a written
      row is keyed by that link. */
  lemma DecisionTouchesOnlyItsLink(rows: map<string, Document>, card: ScrapedCard, run: Run)
    requires KeyedByLink(rows)
    ensures var a := Decide(rows, card, run);
            (a.Deleted? ==> a.link == card.link)
            && (a.IsWrite() ==> a.doc.link == card.link)
            && KeyedByLink(Apply(rows, a))
            && forall l :: l != card.link ==>
                 (l in Apply(rows, a) <==> l in rows) && (l in rows ==> Apply(rows, a)[l] == rows[l])
  {
  }

  /** At most one row per link, keyed by it, after any batch. */
  lemma {:induction false} SyncAllKeyedByLink(rows: map<string, Document>, cards: seq<ScrapedCard>, run: Run)
    requires KeyedByLink(rows)
    ensures KeyedByLink(SyncAll(rows, cards, run).rows)
  {
    if cards != [] {
      SyncAllKeyedByLink(rows, cards[..|cards| - 1], run);
      DecisionTouchesOnlyItsLink(SyncAll(rows, cards[..|cards| - 1], run).rows, cards[|cards| - 1], run);
    }
  }

  /** A card with a negative keyword is never written: an existing row with its
      link is deleted, otherwise nothing happens. A failed lookup skips the card. */
  lemma NegativeCardIsNeverWritten(rows: map<string, Document>, card: ScrapedCard, run: Run)
    ensures run.svc.lookupFails(card.link) ==> Decide(rows, card, run) == Skipped(LookupFailed)
    ensures !run.svc.lookupFails(card.link) && IsNegativeCard(card, run.negativeKeywords) ==>
            Decide(rows, card, run) == if card.link in rows then Deleted(card.link) else Skipped(NegativeNew)
  {
  }

  /** A write happens only for a card that passed every filter: the lookup
      worked, no negative keyword, within the 30-day window, and not the
      stored date again. */
  lemma WritesPassEveryFilter(rows: map<string, Document>, card: ScrapedCard, run: Run)
    requires Decide(rows, card, run).IsWrite()
    ensures var date := CardDate(card, run.now, run.wallNow);
            !run.svc.lookupFails(card.link)
            && !IsNegativeCard(card, run.negativeKeywords)
            && !IsStale(date, run.wallNow)
            && (card.link in rows ==> rows[card.link].dateUpdated != date)
            && (Decide(rows, card, run).Created? <==> card.link !in rows)
  {
  }

  /** A stale card, or one whose stored row has the same date, is skipped
      before any page fetch or oracle call: the decision is the same whatever
      the fetchers and oracles answer. */
  lemma SkipsBeforeAnyFetch(rows: map<string, Document>, card: ScrapedCard, run: Run, other: Services)
    requires !run.svc.lookupFails(card.link) && !IsNegativeCard(card, run.negativeKeywords)
    requires var date := CardDate(card, run.now, run.wallNow);
             IsStale(date, run.wallNow) || (card.link in rows && rows[card.link].dateUpdated == date)
    requires other.lookupFails == run.svc.lookupFails
    ensures Decide(rows, card, run).Skipped?
    ensures Decide(rows, card, run) == Decide(rows, card, run.(svc := other))
  {
  }

  /** The update rule: title, description and date come from the card, the
      analysis fields from the analysis, an attribution column changes only to
      a given value, and `is_icpe`, `animal_type` and `animal_number` keep
      their stored values. */
  lemma UpdateRule(rows: map<string, Document>, card: ScrapedCard, run: Run)
    requires KeyedByLink(rows)
    requires Decide(rows, card, run).Updated?
    ensures var d := Decide(rows, card, run).doc;
            var e := rows[card.link];
            var date := CardDate(card, run.now, run.wallNow);
            var a := Analyse(card.link, run.svc).value;
            card.link in rows && Analyse(card.link, run.svc).Some?
            && d.link == e.link == card.link
            && d.title == card.title && d.description == card.description && d.dateUpdated == date
            && d.fullPageText == Some(a.pageText) && d.summary == Some(a.info.summary)
            && d.isAnimalProject == a.info.isAnimalProject && d.isIntensiveFarming == a.intensive
            && d.isIcpe == e.isIcpe && d.animalType == e.animalType && d.animalNumber == e.animalNumber
            && d.prefectureName == (if Given(run.prefName) then run.prefName else e.prefectureName)
            && d.prefectureCode == (if Given(run.prefCode) then run.prefCode else e.prefectureCode)
            && d.regionName == (if Given(run.regionName) then run.regionName else e.regionName)
  {
  }

  /** A card that reaches the update step always has a new date, so the
      `changed` test never fails there: an existing row that gets this far is
      always rewritten. */
  lemma ReachedExistingRowIsRewritten(rows: map<string, Document>, card: ScrapedCard, run: Run)
    ensures Decide(rows, card, run) != Skipped(NoChanges)
  {
  }

  /** A card whose detail lines carry a valid date: its `date_updated` is
      that date's midnight and reads neither clock. */
  predicate HasDetailDate(card: ScrapedCard)
  {
    DetailClass in card.metadata
    && var d := FirstMatch(DatePatterns, Join(" ", card.metadata[DetailClass]));
       d.Some? && IsValidDate(d.value)
  }

  /** Syncing a card with a dated detail line again after it was written,
      under any later clock and collaborators but the same negative keywords,
      writes nothing: the stored row now carries the card's date, so the card
      is skipped as unchanged unless the lookup fails or the date has left the
      30-day window by then. */
  lemma SyncCardIsIdempotent(rows: map<string, Document>, card: ScrapedCard, run: Run, later: Run)
    requires KeyedByLink(rows)
    requires HasDetailDate(card)
    requires later.negativeKeywords == run.negativeKeywords
    requires Decide(rows, card, run).IsWrite()
    ensures var date := CardDate(card, run.now, run.wallNow);
            Decide(Apply(rows, Decide(rows, card, run)), card, later)
            == if later.svc.lookupFails(card.link) then Skipped(LookupFailed)
               else if IsStale(date, later.wallNow) then Skipped(Stale)
               else Skipped(Unchanged)
  {
    var a := Decide(rows, card, run);
    assert a.doc.link == card.link;
    assert a.doc.dateUpdated == CardDate(card, run.now, run.wallNow) == CardDate(card, later.now, later.wallNow);
  }

  /** A card without detail lines is dated by the clock, so every later pass
      whose `now` reads differently, while the card is still inside the window
      and its analysis succeeds, rewrites the row the first pass wrote. */
  lemma UndatedCardIsRewrittenLater(rows: map<string, Document>, card: ScrapedCard, run: Run, now: Instant, wallNow: Instant)
    requires KeyedByLink(rows)
    requires DetailClass !in card.metadata
    requires Decide(rows, card, run).IsWrite()
    requires now != run.now && !IsStale(now, wallNow)
    ensures var b := Decide(Apply(rows, Decide(rows, card, run)), card, run.(now := now, wallNow := wallNow));
            b.Updated? && b.doc.link == card.link && b.doc.dateUpdated == now
  {
    var a := Decide(rows, card, run);
    assert a.doc.link == card.link && a.doc.dateUpdated == run.now;
  }

  lemma {:induction false} WriteCountBound(actions: seq<Action>)
    ensures WriteCount(actions) <= |actions|
  {
    if actions != [] {
      WriteCountBound(actions[..|actions| - 1]);
    }
  }

  /** `saved` counts the creates and updates, at most one per card. */
  lemma SavedCountsWrites(rows: map<string, Document>, cards: seq<ScrapedCard>, run: Run)
    ensures WriteCount(SyncAll(rows, cards, run).actions) <= |cards|
  {
    WriteCountBound(SyncAll(rows, cards, run).actions);
  }
}
