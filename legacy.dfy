/** The older persistence path of scraper/scraper.py: the ICPE cascade that
    marks a document, `save_to_database`, which creates, updates, deletes or
    skips one scraped card at a time, and `remove_documents_with_negative_keywords`,
    which deletes the flagged rows one by one. */
module Legacy {
  import opened Wrappers
  import opened Text
  import opened Dates
  import opened DateParse
  import opened Keywords
  import opened Prefectures
  import opened Models
  import opened Cards
  import Sync

  /** The network calls of the cascade, each with the failure the source
      catches folded in: `pageText(url)` is the text of the fetched page, `None`
      when the request raises (`check_page_for_icpe` then answers false);
      `pdfLinks(url)` is `extract_pdf_links_from_page`, `[]` when it raises;
      `pdfText(url)` is `extract_text_from_pdf`, "" when it raises. */
  datatype LegacyServices = LegacyServices(
    pageText: string -> Option<string>,
    pdfLinks: string -> seq<string>,
    pdfText: string -> string)

  // ---------------------------------------------------------------------------
  // The ICPE cascade
  // ---------------------------------------------------------------------------

  /** A fetch the cascade makes, in the order it makes them. */
  datatype Probe = PageProbe(url: string) | PdfListProbe(url: string) | PdfProbe(url: string)

  /** `check_page_for_icpe(url)`. */
  predicate PageIsIcpe(url: string, svc: LegacyServices)
  {
    svc.pageText(url).Some? && HasIcpeKeyword(svc.pageText(url).value)
  }

  /** The first PDF at index `i` or later whose text holds an ICPE keyword. */
  function FirstIcpePdfFrom(urls: seq<string>, pdfText: string -> string, i: nat): (r: Option<nat>)
    requires i <= |urls|
    ensures r.Some? ==> i <= r.value < |urls| && HasIcpeKeyword(pdfText(urls[r.value]))
    ensures forall j :: i <= j < (if r.Some? then r.value else |urls|) ==> !HasIcpeKeyword(pdfText(urls[j]))
    decreases |urls| - i
  {
    if i == |urls| then None
    else if HasIcpeKeyword(pdfText(urls[i])) then Some(i)
    else FirstIcpePdfFrom(urls, pdfText, i + 1)
  }

  function FirstIcpePdf(urls: seq<string>, pdfText: string -> string): Option<nat>
  {
    FirstIcpePdfFrom(urls, pdfText, 0)
  }

  /** The PDFs `check_pdfs_for_icpe` opens: all of them, or up to the first match. */
  function PdfsOpened(urls: seq<string>, pdfText: string -> string): seq<string>
  {
    match FirstIcpePdf(urls, pdfText)
    case Some(i) => urls[..i + 1]
    case None => urls
  }

  function PdfProbes(urls: seq<string>): (r: seq<Probe>)
    ensures |r| == |urls| && forall j :: 0 <= j < |urls| ==> r[j] == PdfProbe(urls[j])
  {
    if urls == [] then [] else PdfProbes(urls[..|urls| - 1]) + [PdfProbe(urls[|urls| - 1])]
  }

  /** `check_pdfs_for_icpe(pdf_urls)`: the PDFs are visited in order and the
      search stops at the first one whose text holds an ICPE keyword. */
  method CheckPdfsForIcpe(urls: seq<string>, pdfText: string -> string) returns (found: bool, visited: seq<string>)
    ensures found <==> exists j :: 0 <= j < |urls| && HasIcpeKeyword(pdfText(urls[j]))
    ensures found == FirstIcpePdf(urls, pdfText).Some?
    ensures visited == PdfsOpened(urls, pdfText)
  {
    visited := [];
    for k := 0 to |urls|
      invariant visited == urls[..k]
      invariant forall j :: 0 <= j < k ==> !HasIcpeKeyword(pdfText(urls[j]))
    {
      var text := pdfText(urls[k]);
      visited := visited + [urls[k]];
      var hit := false;
      if text != "" {
        hit := ContainsIcpeKeywords(text);
      }
      if hit {
        return true, visited;
      }
    }
    assert visited == urls;
    return false, visited;
  }

  /** The verdict of the cascade and the fetches it made. */
  datatype IcpeVerdict = IcpeVerdict(isIcpe: bool, probes: seq<Probe>)

  /** The three stages of the ICPE check in `save_to_database`: title and
      description, then (for a non-empty link) the page, then the PDFs it links. */
  function IcpeCascade(title: string, description: string, link: string, svc: LegacyServices): IcpeVerdict
  {
    if HasIcpeKeyword(Strip(title + " " + description)) then IcpeVerdict(true, [])
    else if link == "" then IcpeVerdict(false, [])
    else if PageIsIcpe(link, svc) then IcpeVerdict(true, [PageProbe(link)])
    else
      var pdfs := svc.pdfLinks(link);
      IcpeVerdict(FirstIcpePdf(pdfs, svc.pdfText).Some?,
                  [PageProbe(link), PdfListProbe(link)] + PdfProbes(PdfsOpened(pdfs, svc.pdfText)))
  }

  /** The cascade as `save_to_database` runs it. */
  method CheckIcpe(title: string, description: string, link: string, svc: LegacyServices)
    returns (isIcpe: bool, probes: seq<Probe>)
    ensures IcpeVerdict(isIcpe, probes) == IcpeCascade(title, description, link, svc)
  {
    var combined := Strip(title + " " + description);
    isIcpe := ContainsIcpeKeywords(combined);
    probes := [];
    if isIcpe || link == "" {
      return;
    }
    probes := [PageProbe(link)];
    var pageText := svc.pageText(link);
    if pageText.Some? {
      isIcpe := ContainsIcpeKeywords(pageText.value);
    }
    if isIcpe {
      return;
    }
    probes := probes + [PdfListProbe(link)];
    var pdfLinks := svc.pdfLinks(link);
    if pdfLinks != [] {
      var visited;
      isIcpe, visited := CheckPdfsForIcpe(pdfLinks, svc.pdfText);
      probes := probes + PdfProbes(visited);
    }
  }

  /** A document is ICPE exactly when one of the three stages finds a keyword. */
  lemma IcpeCascadeVerdict(title: string, description: string, link: string, svc: LegacyServices)
    ensures IcpeCascade(title, description, link, svc).isIcpe <==>
            HasIcpeKeyword(Strip(title + " " + description))
            || (link != "" && (PageIsIcpe(link, svc)
                               || exists j :: 0 <= j < |svc.pdfLinks(link)| && HasIcpeKeyword(svc.pdfText(svc.pdfLinks(link)[j]))))
  {
    var pdfs := svc.pdfLinks(link);
    var first := FirstIcpePdf(pdfs, svc.pdfText);
    if first.Some? {
      assert HasIcpeKeyword(svc.pdfText(pdfs[first.value]));
    }
  }

  /** Each stage runs only when the earlier ones found nothing: the page is
      fetched only after the title and description failed, the PDF list only
      after the page failed, and a PDF only after the earlier PDFs failed. */
  lemma {:induction false} IcpeStagesRunInOrder(title: string, description: string, link: string, svc: LegacyServices)
    ensures var v := IcpeCascade(title, description, link, svc);
            (v.probes != [] <==> !HasIcpeKeyword(Strip(title + " " + description)) && link != "")
            && (v.probes != [] ==> v.probes[0] == PageProbe(link))
            && (|v.probes| > 1 <==> v.probes != [] && !PageIsIcpe(link, svc))
            && (|v.probes| > 1 ==> v.probes[1] == PdfListProbe(link))
            && (forall j :: 2 <= j < |v.probes| ==>
                  v.probes[j] == PdfProbe(svc.pdfLinks(link)[j - 2])
                  && forall i :: 0 <= i < j - 2 ==> !HasIcpeKeyword(svc.pdfText(svc.pdfLinks(link)[i])))
  {
    var v := IcpeCascade(title, description, link, svc);
    if v.probes != [] && !PageIsIcpe(link, svc) {
      var pdfs := svc.pdfLinks(link);
      var visited := PdfsOpened(pdfs, svc.pdfText);
      var tail := PdfProbes(visited);
      assert v.probes == [PageProbe(link), PdfListProbe(link)] + tail;
      forall j | 2 <= j < |v.probes|
        ensures v.probes[j] == PdfProbe(pdfs[j - 2])
        ensures forall i :: 0 <= i < j - 2 ==> !HasIcpeKeyword(svc.pdfText(pdfs[i]))
      {
        assert v.probes[j] == tail[j - 2];
        assert visited[j - 2] == pdfs[j - 2];
      }
    }
  }

  // ---------------------------------------------------------------------------
  // save_to_database
  // ---------------------------------------------------------------------------

  /** What one run of the older `save_to_database` works with: the attribution
      from the domain, the stored negative keywords (`None` for a failed query),
      the clock and the services. */
  datatype LegacyRun = LegacyRun(
    prefName: Option<string>,
    prefCode: Option<string>,
    regionName: Option<string>,
    stored: Option<seq<string>>,
    wallNow: Instant,
    svc: LegacyServices)

  function LegacyRunFor(domain: string, stored: Option<seq<string>>, wallNow: Instant, svc: LegacyServices): LegacyRun
  {
    var p := PrefectureByDomain(domain);
    if p.Some? then LegacyRun(Some(p.value.name), Some(p.value.code), Some(p.value.region), stored, wallNow, svc)
    else LegacyRun(None, None, None, stored, wallNow, svc)
  }

  /** `item.get(key, "")` for the three text fields. */
  function TitleOfItem(item: CardData): string { item.title.GetOr("") }
  function DescriptionOfItem(item: CardData): string { item.description.GetOr("") }
  function LinkOfItem(item: CardData): string { item.link.GetOr("") }

  /** The detail text an item's date is read from, when its metadata has one. */
  function DetailOfItem(item: CardData): Option<string>
  {
    if Sync.DetailClass in item.metadata then Some(Join(" ", item.metadata[Sync.DetailClass])) else None
  }

  /** `date_updated`: the parsed detail date, else the current time. */
  function ItemDate(item: CardData, wallNow: Instant): Instant
  {
    if DetailOfItem(item).Some? then LegacyDateFromDetail(DetailOfItem(item), wallNow) else wallNow
  }

  predicate IsNegativeItem(item: CardData, stored: Option<seq<string>>)
  {
    LegacyHasNegativeKeyword(stored, TitleOfItem(item), DescriptionOfItem(item))
  }

  /** The existing row after the update branch: every scraped field is
      overwritten, attribution only with a given value, the other columns kept. */
  function LegacyUpdatedRow(e: Document, item: CardData, date: Instant, isIcpe: bool, run: LegacyRun): Document
  {
    e.(title := TitleOfItem(item),
       description := Some(DescriptionOfItem(item)),
       dateUpdated := date,
       isIcpe := isIcpe,
       prefectureName := Sync.KeepUnlessGiven(e.prefectureName, run.prefName),
       prefectureCode := Sync.KeepUnlessGiven(e.prefectureCode, run.prefCode),
       regionName := Sync.KeepUnlessGiven(e.regionName, run.regionName))
  }

  /** The row the create branch builds; the columns it does not name take their defaults. */
  function LegacyNewRow(item: CardData, date: Instant, isIcpe: bool, run: LegacyRun): Document
  {
    Document(LinkOfItem(item), TitleOfItem(item), Some(DescriptionOfItem(item)), date, isIcpe,
             run.prefName, run.prefCode, run.regionName,
             None, None, false, false, None, None)
  }

  /** The decision for one item and the fetches the ICPE check made for it. */
  datatype LegacyStep = LegacyStep(action: Sync.Action, probes: seq<Probe>)

  function LegacyDecide(rows: map<string, Document>, item: CardData, run: LegacyRun): LegacyStep
  {
    var link := LinkOfItem(item);
    var date := ItemDate(item, run.wallNow);
    if IsNegativeItem(item, run.stored) then
      LegacyStep(if link in rows then Sync.Deleted(link) else Sync.Skipped(Sync.NegativeNew), [])
    else if link in rows && rows[link].dateUpdated == date then
      LegacyStep(Sync.Skipped(Sync.Unchanged), [])
    else
      var v := IcpeCascade(TitleOfItem(item), DescriptionOfItem(item), link, run.svc);
      if link in rows then LegacyStep(Sync.Updated(LegacyUpdatedRow(rows[link], item, date, v.isIcpe, run)), v.probes)
      else LegacyStep(Sync.Created(LegacyNewRow(item, date, v.isIcpe, run)), v.probes)
  }

  datatype LegacyResult = LegacyResult(rows: map<string, Document>, actions: seq<Sync.Action>)

  /** The items processed one after the other. */
  function LegacySyncAll(rows: map<string, Document>, items: seq<CardData>, run: LegacyRun): (r: LegacyResult)
    ensures |r.actions| == |items|
  {
    if items == [] then LegacyResult(rows, [])
    else
      var p := LegacySyncAll(rows, items[..|items| - 1], run);
      var a := LegacyDecide(p.rows, items[|items| - 1], run).action;
      LegacyResult(Sync.Apply(p.rows, a), p.actions + [a])
  }

  /** One iteration of the loop of the older `save_to_database`. */
  method LegacySaveItem(store: DocumentStore, item: CardData, run: LegacyRun) returns (saved: nat)
    requires store.Valid()
    modifies store
    ensures store.Valid()
    ensures var a := LegacyDecide(old(store.rows), item, run).action;
            store.rows == Sync.Apply(old(store.rows), a) && saved == if a.IsWrite() then 1 else 0
  {
    var title := TitleOfItem(item);
    var description := DescriptionOfItem(item);
    var link := LinkOfItem(item);
    var dateUpdated := run.wallNow;
    if Sync.DetailClass in item.metadata {
      dateUpdated := LegacyDateFromDetail(Some(Join(" ", item.metadata[Sync.DetailClass])), run.wallNow);
    }
    assert dateUpdated == ItemDate(item, run.wallNow);
    var negative := LegacyContainsNegativeKeywords(run.stored, title, description);
    if negative {
      var existing := store.Find(link);
      if existing.Some? {
        store.Delete(link);
      }
      return 0;
    }
    var existing := store.Find(link);
    if existing.Some? && existing.value.dateUpdated == dateUpdated {
      return 0;
    }
    var isIcpe, _ := CheckIcpe(title, description, link, run.svc);
    LegacyWrite(store, existing, item, dateUpdated, isIcpe, run);
    return 1;
  }

  /** The update-or-create branch for an item that passed the screens. */
  method LegacyWrite(store: DocumentStore, existing: Option<Document>, item: CardData, dateUpdated: Instant,
                     isIcpe: bool, run: LegacyRun)
    requires store.Valid()
    requires existing.Some? <==> LinkOfItem(item) in store.rows
    requires existing.Some? ==> existing.value == store.rows[LinkOfItem(item)] && existing.value.link == LinkOfItem(item)
    modifies store
    ensures store.Valid()
    ensures store.rows == if existing.Some?
                          then old(store.rows)[LinkOfItem(item) := LegacyUpdatedRow(existing.value, item, dateUpdated, isIcpe, run)]
                          else old(store.rows)[LinkOfItem(item) := LegacyNewRow(item, dateUpdated, isIcpe, run)]
  {
    if existing.Some? {
      var e := existing.value;
      e := e.(title := TitleOfItem(item), description := Some(DescriptionOfItem(item)),
              dateUpdated := dateUpdated, isIcpe := isIcpe);
      if Sync.Given(run.prefName) {
        e := e.(prefectureName := run.prefName);
      }
      if Sync.Given(run.prefCode) {
        e := e.(prefectureCode := run.prefCode);
      }
      if Sync.Given(run.regionName) {
        e := e.(regionName := run.regionName);
      }
      assert e == LegacyUpdatedRow(existing.value, item, dateUpdated, isIcpe, run);
      store.Save(e);
    } else {
      var _ := store.Create(LegacyNewRow(item, dateUpdated, isIcpe, run));
    }
  }

  /** The older `save_to_database(scraped_data, domain)`: returns `saved_count`. */
  method LegacySaveToDatabase(store: DocumentStore, scrapedData: seq<CardData>, domain: string,
                              stored: Option<seq<string>>, wallNow: Instant, svc: LegacyServices)
    returns (savedCount: nat)
    requires store.Valid()
    modifies store
    ensures store.Valid()
    ensures var r := LegacySyncAll(old(store.rows), scrapedData, LegacyRunFor(domain, stored, wallNow, svc));
            store.rows == r.rows && savedCount == Sync.WriteCount(r.actions)
  {
    var run := LegacyRunFor(domain, stored, wallNow, svc);
    ghost var rows := store.rows;
    savedCount := 0;
    for k := 0 to |scrapedData|
      invariant store.Valid()
      invariant var r := LegacySyncAll(rows, scrapedData[..k], run);
                store.rows == r.rows && savedCount == Sync.WriteCount(r.actions)
    {
      assert scrapedData[..k + 1][..k] == scrapedData[..k];
      var saved := LegacySaveItem(store, scrapedData[k], run);
      savedCount := savedCount + saved;
    }
    assert scrapedData[..|scrapedData|] == scrapedData;
  }

  // ---------------------------------------------------------------------------
  // Properties of save_to_database
  // ---------------------------------------------------------------------------

  /** A negative item deletes the row with its link, if any, and is never
      saved; nothing is fetched for it. */
  lemma NegativeItemIsDeletedNeverSaved(rows: map<string, Document>, item: CardData, run: LegacyRun)
    requires IsNegativeItem(item, run.stored)
    ensures var s := LegacyDecide(rows, item, run);
            !s.action.IsWrite() && s.probes == []
            && Sync.Apply(rows, s.action) == rows - {LinkOfItem(item)}
  {
  }

  /** An item whose row has the same date is skipped before any ICPE check;
      any other non-negative item is written exactly once, as an update when
      its link is stored and as a create otherwise. */
  lemma LegacyWriteRule(rows: map<string, Document>, item: CardData, run: LegacyRun)
    requires KeyedByLink(rows)
    requires !IsNegativeItem(item, run.stored)
    ensures var link := LinkOfItem(item);
            var s := LegacyDecide(rows, item, run);
            var sameDate := link in rows && rows[link].dateUpdated == ItemDate(item, run.wallNow);
            (sameDate ==> s.action == Sync.Skipped(Sync.Unchanged) && s.probes == [])
            && (!sameDate ==>
                  s.action.IsWrite() && (s.action.Updated? <==> link in rows)
                  && s.action.doc.link == link && s.action.doc.dateUpdated == ItemDate(item, run.wallNow)
                  && s.action.doc.isIcpe == IcpeCascade(TitleOfItem(item), DescriptionOfItem(item), link, run.svc).isIcpe)
  {
  }

  lemma {:induction false} LegacySyncAllKeyedByLink(rows: map<string, Document>, items: seq<CardData>, run: LegacyRun)
    requires KeyedByLink(rows)
    ensures KeyedByLink(LegacySyncAll(rows, items, run).rows)
  {
    if items != [] {
      LegacySyncAllKeyedByLink(rows, items[..|items| - 1], run);
    }
  }

  /** An item's date read from its detail text, independent of the clock. */
  predicate HasParsedDate(item: CardData)
  {
    DetailOfItem(item).Some?
    && Search(LegacyPattern, DetailOfItem(item).value).Some?
    && IsValidDate(Search(LegacyPattern, DetailOfItem(item).value).value)
  }

  predicate DistinctLinks(items: seq<CardData>)
  {
    forall i, j :: 0 <= i < j < |items| ==> LinkOfItem(items[i]) != LinkOfItem(items[j])
  }

  /** What a run leaves for an item: no row when it is negative, else a row with its date. */
  predicate Settled(rows: map<string, Document>, item: CardData, run: LegacyRun)
  {
    if IsNegativeItem(item, run.stored) then LinkOfItem(item) !in rows
    else LinkOfItem(item) in rows && rows[LinkOfItem(item)].dateUpdated == ItemDate(item, run.wallNow)
  }

  /** After its own step an item is settled. */
  lemma StepSettlesItem(rows: map<string, Document>, item: CardData, run: LegacyRun)
    requires KeyedByLink(rows)
    ensures Settled(Sync.Apply(rows, LegacyDecide(rows, item, run).action), item, run)
  {
  }

  /** Settling holds for one clock reading only: an item without a detail
      line is dated by `timezone.now()`, so a later pass reading another
      instant rewrites the row the first pass left. */
  lemma UndatedItemIsRewrittenLater(rows: map<string, Document>, item: CardData, run: LegacyRun, wallNow: Instant)
    requires KeyedByLink(rows)
    requires DetailOfItem(item).None? && !IsNegativeItem(item, run.stored)
    requires wallNow != run.wallNow
    ensures var once := Sync.Apply(rows, LegacyDecide(rows, item, run).action);
            var a := LegacyDecide(once, item, run.(wallNow := wallNow)).action;
            a.Updated? && a.doc.link == LinkOfItem(item) && a.doc.dateUpdated == wallNow
  {
    StepSettlesItem(rows, item, run);
  }

  /** A step for another link leaves a settled item settled. */
  lemma StepKeepsOtherItem(rows: map<string, Document>, item: CardData, other: CardData, run: LegacyRun)
    requires KeyedByLink(rows)
    requires LinkOfItem(item) != LinkOfItem(other) && Settled(rows, other, run)
    ensures Settled(Sync.Apply(rows, LegacyDecide(rows, item, run).action), other, run)
  {
    var q := Sync.Apply(rows, LegacyDecide(rows, item, run).action);
    assert LinkOfItem(other) in q <==> LinkOfItem(other) in rows;
    assert LinkOfItem(other) in q ==> q[LinkOfItem(other)] == rows[LinkOfItem(other)];
  }

  lemma {:induction false} SaveSettlesItems(rows: map<string, Document>, items: seq<CardData>, run: LegacyRun)
    requires KeyedByLink(rows)
    requires DistinctLinks(items)
    ensures forall i :: 0 <= i < |items| ==> Settled(LegacySyncAll(rows, items, run).rows, items[i], run)
  {
    if items != [] {
      var init := items[..|items| - 1];
      var last := items[|items| - 1];
      assert DistinctLinks(init);
      SaveSettlesItems(rows, init, run);
      LegacySyncAllKeyedByLink(rows, init, run);
      var p := LegacySyncAll(rows, init, run).rows;
      forall i | 0 <= i < |items|
        ensures Settled(LegacySyncAll(rows, items, run).rows, items[i], run)
      {
        if i < |items| - 1 {
          assert init[i] == items[i];
          StepKeepsOtherItem(p, last, items[i], run);
        } else {
          StepSettlesItem(p, last, run);
        }
      }
    }
  }

  /** Items that are all settled in `rows` are all skipped, and `rows` stays. */
  lemma {:induction false} SettledItemsAreSkipped(rows: map<string, Document>, items: seq<CardData>, run: LegacyRun)
    requires forall i :: 0 <= i < |items| ==> Settled(rows, items[i], run)
    ensures LegacySyncAll(rows, items, run).rows == rows
    ensures Sync.WriteCount(LegacySyncAll(rows, items, run).actions) == 0
  {
    if items != [] {
      var init := items[..|items| - 1];
      SettledItemsAreSkipped(rows, init, run);
    }
  }

  /** Saving the same batch again, with dates read from the detail texts and
      distinct links, saves nothing, whatever the clock says the second time. */
  lemma ResaveSavesNothing(rows: map<string, Document>, items: seq<CardData>, run: LegacyRun, later: LegacyRun)
    requires KeyedByLink(rows)
    requires DistinctLinks(items)
    requires forall i :: 0 <= i < |items| ==> HasParsedDate(items[i])
    requires later.stored == run.stored
    ensures var once := LegacySyncAll(rows, items, run);
            var twice := LegacySyncAll(once.rows, items, later);
            twice.rows == once.rows && Sync.WriteCount(twice.actions) == 0
  {
    var once := LegacySyncAll(rows, items, run).rows;
    SaveSettlesItems(rows, items, run);
    forall i | 0 <= i < |items|
      ensures Settled(once, items[i], later)
    {
      assert ItemDate(items[i], run.wallNow) == ItemDate(items[i], later.wallNow);
    }
    SettledItemsAreSkipped(once, items, later);
  }

  lemma {:induction false} LegacyWriteCountBound(rows: map<string, Document>, items: seq<CardData>, run: LegacyRun)
    ensures Sync.WriteCount(LegacySyncAll(rows, items, run).actions) <= |items|
  {
    if items != [] {
      LegacyWriteCountBound(rows, items[..|items| - 1], run);
    }
  }

  // ---------------------------------------------------------------------------
  // remove_documents_with_negative_keywords
  // ---------------------------------------------------------------------------

  predicate RowIsLegacyNegative(d: Document, stored: Option<seq<string>>)
  {
    LegacyHasNegativeKeyword(stored, d.title, d.description.GetOr(""))
  }

  /** The rows the older sweep keeps. */
  function LegacyKept(rows: map<string, Document>, stored: Option<seq<string>>): map<string, Document>
  {
    map l | l in rows && !RowIsLegacyNegative(rows[l], stored) :: rows[l]
  }

  /** The older sweep: the rows are visited in some order and each flagged row
      is deleted on its own; the count is the number deleted. */
  method LegacyRemoveDocumentsWithNegativeKeywords(store: DocumentStore, stored: Option<seq<string>>)
    returns (removedCount: nat)
    requires store.Valid()
    modifies store
    ensures store.Valid()
    ensures store.rows == LegacyKept(old(store.rows), stored)
    ensures removedCount == |old(store.rows).Keys| - |store.rows.Keys|
  {
    ghost var rows := store.rows;
    var documents := store.rows.Keys;
    removedCount := 0;
    while documents != {}
      invariant store.Valid()
      invariant documents <= rows.Keys
      invariant forall l :: l in store.rows <==>
                  l in rows && (l in documents || !RowIsLegacyNegative(rows[l], stored))
      invariant forall l :: l in store.rows ==> store.rows[l] == rows[l]
      invariant removedCount + |store.rows.Keys| == |rows.Keys|
      decreases |documents|
    {
      var link :| link in documents;
      var deleted := DeleteIfNegative(store, link, stored);
      if deleted {
        removedCount := removedCount + 1;
      }
      documents := documents - {link};
    }
    IsLegacyKept(store.rows, rows, stored);
  }

  lemma IsLegacyKept(current: map<string, Document>, rows: map<string, Document>, stored: Option<seq<string>>)
    requires forall l :: l in current <==> l in rows && !RowIsLegacyNegative(rows[l], stored)
    requires forall l :: l in current ==> current[l] == rows[l]
    ensures current == LegacyKept(rows, stored)
  {
  }

  /** One row of the older sweep: screened, and deleted when flagged. */
  method DeleteIfNegative(store: DocumentStore, link: string, stored: Option<seq<string>>) returns (deleted: bool)
    requires store.Valid() && link in store.rows
    modifies store
    ensures store.Valid()
    ensures deleted == RowIsLegacyNegative(old(store.rows)[link], stored)
    ensures store.rows == if deleted then old(store.rows) - {link} else old(store.rows)
    ensures |store.rows.Keys| + (if deleted then 1 else 0) == |old(store.rows).Keys|
  {
    var document := store.rows[link];
    deleted := LegacyContainsNegativeKeywords(stored, document.title, document.description.GetOr(""));
    if deleted {
      ghost var before := store.rows.Keys;
      store.Delete(link);
      assert store.rows.Keys == before - {link};
    }
  }
}
