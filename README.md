# libscanner in Dafny

libscanner watches the "recherche" pages of the French prefectures' web sites
(`https://www.<domain>/contenu/recherche/...`). It turns each result card
into a `GovernmentDocument` row, keyed by the document's link. It drops cards
that contain a stored negative keyword and classifies the remaining ones with
a language model, enriched with text from the PDFs they link to. A Django view
lists the rows, and a formatter prints a per-keyword report.

This project models the deterministic core of that pipeline and proves what
it promises:

- **`Sync`, `Enrichment`, `Sweep`** (from `scraper/analysis.py`): the newer
  persistence engine. For each card it runs the filters in the source's order
  (failed lookup, negative keyword, 30-day freshness, same link and date), then
  fetches, classifies and possibly enriches the card, and then updates or
  creates its row. The PDF sample is deduplicated and capped at 5 links. The
  appended text is budgeted at 200 000 characters per PDF and 400 000 in total.
  The sweep deletes flagged rows in bulk batches of 100.
- **`DateParse`, `Dates`**: both `parse_date_from_detail` functions, the newer
  one with three case-insensitive patterns and the legacy one with one
  case-sensitive pattern, over a proleptic Gregorian calendar.
- **`Keywords`**: the negative-keyword screens (cached and legacy) and the
  13-keyword ICPE screen.
- **`Retry`**: the attempt state machine of `make_request_with_retry`.
- **`Cards`**: the search URL and `extract_card_data` over an abstract card
  (a list of elements with tag, classes, text and href).
- **`Legacy`, `Pager`** (from `scraper/scraper.py`): the legacy engine with its
  ICPE cascade, `scrape_government_site`, the pager of `scrape_all_results`, and
  the legacy sweep.
- **`Prefectures`**: the 96-row prefecture table and its four lookups.
- **`Models`**: the document record (the fields `scraper/models.py` declares
  together with the analysis fields `summary`, `full_page_text`,
  `is_animal_project`, `is_intensive_farming`, `animal_type` and
  `animal_number`, which `scraper/analysis.py` and `scraper/views.py` read and
  write), `is_recent`, and the store as a class
  holding a `map` from link to document, which makes link uniqueness
  structural.
- **`Listing`**: the filter and pagination of `document_list`.
- **`Formatting`**: `format_results_pretty`, as a method that appends the
  source's lines in the source's order, proved equal to a specification
  function.
- **`Text`, `Wrappers`**: shared string helpers and `Option`.

Fetchers, PDF extraction, the language model, token trimming and the database
lookup are function-typed fields of a `Services` (or `LegacyServices`)
record, and a `None` answer stands for a call that raised. The clock is two
instants: `now` is the injected `now` argument of the newer engine, and
`wallNow` stands for `timezone.now()`. The lower-cased negative keywords of
the newer engine live in one `KeywordCache` per process, shared by
`save_to_database` and the batched sweep.

`make_request_with_retry` retries timeouts, connection errors, 429 responses
and other non-HTTP exceptions; every other HTTP error, 5xx included, is raised
on the first attempt (`scraper/scraper.py:121-130`).

## Model

| member | source | states |
|---|---|---|
| Dates.DaysInMonth | scraper/analysis.py:54-56 | a month has 28 to 31 days, and 29 exactly for February of a leap year, which is when `datetime(...)` accepts day 29 of February |
| Dates.WholeDays | scraper/models.py:35 | the `.days` of a time difference is the floor of the elapsed whole days: `Days(n) <= later - earlier < Days(n+1)` |
| Dates.DayNumberMonotone | scraper/analysis.py:54-56 | a later valid calendar date has a strictly larger day number |
| Dates.MidnightInjective | scraper/analysis.py:54-56 | two valid dates give the same parsed instant iff they are the same date |
| Dates.MidnightOrder | scraper/analysis.py:206 | the parsed instants compare as the calendar dates do, so the freshness comparison is a date comparison |
| DateParse.SearchFrom | scraper/analysis.py:50 | `re.search`: returns the leftmost position at or after `i` where the pattern matches, and `None` only when it matches nowhere from `i` on |
| DateParse.SearchIsLeftmost | scraper/analysis.py:50-52 | a found date is the match at some position with no match at any earlier position |
| DateParse.SearchNone | scraper/analysis.py:50-51 | a search fails iff the pattern matches at no position |
| DateParse.FirstMatchSpec | scraper/analysis.py:49-59 | the patterns are tried in order: the date found is the one of the first pattern that matches, every earlier pattern matching nowhere |
| DateParse.ParseDateFromDetail | scraper/analysis.py:48-60 | the loop over `DATE_PATTERNS` returns exactly the date of the first matching pattern, or `now()` when none matches or the first match is not a valid date (no later pattern is tried) |
| DateParse.CaseSensitiveMatchIsCaseInsensitiveMatch | scraper/analysis.py:35 | whatever the case-sensitive legacy pattern matches, the `IGNORECASE` pattern matches with the same date |
| DateParse.LegacyAgreesWhenMatchIsLeftmost | scraper/scraper.py:455-470 | when the leftmost "Mis à jour le" match (in any case) is written exactly, both parsers return the same instant |
| DateParse.MatchRendered | scraper/analysis.py:37-39 | a prefix followed by a date written `DD/MM/YYYY` matches at position 0 with that date |
| DateParse.RenderedDateRoundTrip | scraper/analysis.py:48-56 | parsing "<prefix> DD/MM/YYYY" for any of the three prefixes gives midnight of that date |
| DateParse.LegacyRenderedDateRoundTrip | scraper/scraper.py:455-470 | the legacy parser reads "Mis à jour le DD/MM/YYYY" back as midnight of that date |
| DateParse.PublishedLineReadOnlyByNewParser | scraper/scraper.py:455-476 | a "Publié le" line is parsed by the newer parser but falls back to `now()` in the legacy one |
| DateParse.InvalidFirstDateFallsBack | scraper/analysis.py:57-60 | an invalid first match (31/02) gives `now()` even though a later valid date follows |
| Keywords.KeywordCache.Get | scraper/analysis.py:67-78 | the first call loads the lower-cased keywords and keeps them; every later call returns the kept list, whatever the table holds by then |
| Keywords.CacheHidesLaterTable | scraper/analysis.py:67-86 | once the cache is filled the table no longer matters, and after a failed first load no text is ever screened out |
| Keywords.LowerNonEmpty | scraper/analysis.py:75 | the cached list holds exactly the lower-cased forms of the non-empty stored keywords |
| Keywords.ContainsNegativeKeywords | scraper/analysis.py:81-86 | the early-return loop answers true iff some non-empty cached keyword is a substring of the lower-cased `title + " " + description` |
| Keywords.NegativeScreenIgnoresCase | scraper/analysis.py:82 | upper-casing the title and description does not change the screen's answer |
| Keywords.KeywordInTitleIsFlagged | scraper/analysis.py:81-86 | a stored keyword found in the title (ignoring case) flags the card |
| Keywords.FailedQueryFlagsNothing | scraper/analysis.py:76-78 | when loading the keywords raises, neither screen flags anything |
| Keywords.LegacyContainsNegativeKeywords | scraper/scraper.py:378-407 | the legacy loop answers true iff some stored keyword, lower-cased, is a substring of the lower-cased text, and false when the query raises |
| Keywords.LegacyScreenVersusNew | scraper/scraper.py:396-397 | the legacy screen flags a card iff the newer one does or an empty keyword is stored (the legacy loop has no `if kw` guard) |
| Keywords.ContainsIcpeKeywords | scraper/scraper.py:182-225 | false on empty text, otherwise true iff one of the 13 keywords is a substring of the lower-cased text |
| Keywords.IcpeKeywordsBeyondTenAreRedundant | scraper/scraper.py:203-217 | "déclaration icpe", "déclaration initiale dicpe" and "dicpe" all contain "icpe", so the screen is decided by the other ten keywords |
| Keywords.IcpeScreenIgnoresCase | scraper/scraper.py:197 | upper-casing the text does not change the ICPE screen |
| Retry.MakeRequestWithRetry | scraper/scraper.py:91-136 | the attempt loop returns exactly the result of the attempt state machine `RetryResultOf` |
| Retry.RetryFromSettlesAtFirstStop | scraper/scraper.py:91-134 | the loop ends at the first attempt that succeeds, raises a non-429 HTTP error, or is the last one, and every earlier attempt was transient |
| Retry.AttemptBound | scraper/scraper.py:91 | at most `max_retries + 1` attempts are made, and at least one when `max_retries >= 0` |
| Retry.NonRateLimitErrorRaisedImmediately | scraper/scraper.py:121-130 | an HTTP error other than 429 is raised on the attempt where it happens |
| Retry.ExhaustedRetriesReraiseLastFailure | scraper/scraper.py:113-134 | when every attempt is transient, the last attempt's failure is re-raised after `max_retries + 1` attempts |
| Retry.SuccessMeansEarlierAttemptsWereTransient | scraper/scraper.py:108-111 | a returned response has no HTTP error status, and every attempt before it failed transiently |
| Retry.AllAttemptsFailedOnlyWithoutAttempts | scraper/scraper.py:136 | the final "All attempts failed" raise is reached iff `max_retries < 0`, when the loop makes no attempt at all |
| Cards.SearchUrlOffsetSegment | scraper/scraper.py:646-650 | a positive offset inserts the segment `(offset)/<decimal offset>/`, and offset 0 gives the plain `(searchtext)` URL |
| Cards.SearchUrlDistinguishesOffsets | scraper/scraper.py:646-647 | distinct positive offsets give distinct URLs |
| Cards.Find | scraper/scraper.py:728 | `find(tag, class_)` returns a matching element, or `None` only when no element matches |
| Cards.FindIsFirst | scraper/scraper.py:728 | `find` returns the first matching element in document order |
| Cards.FindAllWithClass | scraper/scraper.py:790 | `find_all(class_=c)` keeps exactly the elements carrying class `c` |
| Cards.TextsOf | scraper/scraper.py:792 | one stripped text per found element, in order |
| Cards.MetadataUpTo | scraper/scraper.py:789-795 | the metadata keys are among the three metadata classes |
| Cards.MetadataUpToSpec | scraper/scraper.py:789-795 | after the first `k` classes, a class is a key iff it is one of them and some element carries it |
| Cards.MetadataKeysAreFoundClasses | scraper/scraper.py:786-798 | a metadata key is present iff it is one of the three classes and the card has an element of that class |
| Cards.CollectMetadata | scraper/scraper.py:786-798 | the loop that fills `metadata` builds exactly the specified metadata map |
| Cards.ExtractCardData | scraper/scraper.py:709-812 | the step-by-step filling of `card_data` yields exactly the record `CardDataOf` specifies |
| Cards.RelativeLinkIsPrefixed | scraper/scraper.py:749-751 | a non-empty href that does not start with "http" becomes `https://www.<domain>` + href when a domain is given |
| Cards.AbsoluteLinkKept | scraper/scraper.py:745-754 | an href starting with "http" is kept unchanged |
| Cards.AbsoluteLinkIdempotent | scraper/scraper.py:745-754 | making a link absolute twice is the same as once |
| Cards.LinkKeyIffAnchor | scraper/scraper.py:743-756 | the record has a `link` key iff the card has an `<a>` element |
| Cards.TitlePriority | scraper/scraper.py:727-734 | the title is the text of the first h3, else of the first h2, else of the first h1, else absent |
| Cards.ExtractedCardIsKept | scraper/scraper.py:804 | `html_content` is always set, so an extracted card is never the empty record that `scrape_government_site` drops |
| Prefectures.Table | scraper/constants.py:7-129 | the table has 96 rows, row `i` being the `i`-th entry of `PREFECTURES` |
| Prefectures.FilterRegion | scraper/constants.py:133-143 | keeps exactly the entries of the given region |
| Prefectures.FilterRegionAppend | scraper/constants.py:143 | filtering distributes over concatenation, so table order is kept |
| Prefectures.FirstByDomain | scraper/constants.py:145-158 | returns the first entry with that domain, or `None` iff no entry has it |
| Prefectures.AllRegions | scraper/constants.py:160-167 | a region is listed iff some entry has it |
| Prefectures.AllDomains | scraper/constants.py:169-176 | one domain per entry, in table order |
| Prefectures.LookupOwnDomain | scraper/constants.py:145-176 | looking up the `i`-th listed domain returns the `i`-th entry |
| Prefectures.LookupUnknownDomain | scraper/constants.py:145-158 | a domain that is not listed is looked up as `None` |
| Prefectures.AllRegionsAreTheThirteen | scraper/constants.py:160-167 | the regions are exactly the thirteen metropolitan regions |
| Prefectures.RegionListedIffItHasPrefectures | scraper/constants.py:133-167 | a region has prefectures iff it is among the listed regions |
| Prefectures.DomainsDistinct | scraper/constants.py:7-129 | no two entries share a domain |
| Prefectures.CodesDistinct | scraper/constants.py:7-129 | no two entries share a code |
| Models.IsRecentWithinWindow | scraper/models.py:33-35 | `is_recent(days)` holds iff less than `days + 1` whole days have elapsed since `date_updated` |
| Models.FutureIsRecent | scraper/models.py:33-35 | a document dated in the future is recent for any non-negative window |
| Models.DocumentStore.constructor | scraper/models.py:6-13 | an empty table keyed by link |
| Models.DocumentStore.Find | scraper/analysis.py:189-192 | `filter(link=...).first()` finds a row iff one is stored under that link, and the row carries that link |
| Models.DocumentStore.Create | scraper/models.py:13 | creating succeeds iff no row has that link (unique constraint); on success only that key is added |
| Models.DocumentStore.Save | scraper/analysis.py:349 | saving an existing row replaces it under its own link and changes nothing else |
| Models.DocumentStore.Delete | scraper/analysis.py:200 | deleting removes exactly that link |
| Models.DocumentStore.DeleteAll | scraper/analysis.py:421 | a bulk delete removes exactly the given links |
| Models.NegativeKeywordTable.constructor | scraper/models.py:38-47 | an empty keyword table |
| Models.NegativeKeywordTable.Add | scraper/models.py:43-47 | adding succeeds iff the keyword is not stored yet (unique constraint), and appends it |
| Enrichment.StrippedLinks | scraper/analysis.py:251-254 | stripped links are never empty and no more numerous than the links |
| Enrichment.StrippedLinksSound | scraper/analysis.py:252 | every kept link is the stripped form of an input link |
| Enrichment.StrippedLinksComplete | scraper/analysis.py:252-253 | every input link that strips to a non-empty string is kept |
| Enrichment.FirstOccurrencesSpec | scraper/analysis.py:250-256 | deduplication keeps pairwise-distinct links, and exactly the links of the input |
| Enrichment.FirstOccurrencesPrefix | scraper/analysis.py:249-258 | deduplicating a longer list extends the earlier result, so first-occurrence order is kept |
| Enrichment.PdfSampleSpec | scraper/analysis.py:249-258 | the sample has at most 5 distinct, non-empty, stripped input links; below the cap it contains every non-empty stripped link |
| Enrichment.SamplePdfLinks | scraper/analysis.py:249-258 | the loop with `seen` and the cap check builds exactly the specified sample |
| Enrichment.Budgeted | scraper/analysis.py:261-284 | the appended texts total at most 400 000 characters |
| Enrichment.BudgetedBounds | scraper/analysis.py:268-272 | there is at most one text per sampled PDF; each is non-empty and at most 200 000 characters |
| Enrichment.BudgetedTextComesFromPdf | scraper/analysis.py:267-278 | every appended text is a prefix of some PDF's extracted text |
| Enrichment.BudgetedSaturated | scraper/analysis.py:264-265 | once the total budget is reached, later PDFs add nothing |
| Enrichment.UnderBudgetOnlyPerPdfLimitApplies | scraper/analysis.py:271-278 | while the total stays under budget, each text is only clipped to the per-PDF limit |
| Enrichment.CollectPdfTexts | scraper/analysis.py:261-284 | the budget loop builds exactly the specified texts, and `total_appended` is their total length |
| Enrichment.EnrichedTextContainsItsSources | scraper/analysis.py:286-296 | the enriched corpus starts with the page-text marker and contains the page text and every appended PDF text |
| Sync.RefineInfo | scraper/analysis.py:240-322 | the refinement step returns the refined info, or the first info whenever any step yields nothing or raises |
| Sync.AnalyseCard | scraper/analysis.py:216-322 | fetching, classifying and refining yield the specified analysis, or `None` when an exception reaches the per-item handler |
| Sync.RefinementFailureDoesNotAbortItem | scraper/analysis.py:216-236 | an item is analysed iff its page text, its first document info and (for animal projects) the intensive check are obtained; enrichment failures never matter |
| Sync.RefinementOnlyForIntensive | scraper/analysis.py:232-240 | the intensive flag is the classifier's answer for animal projects only, and a non-intensive card keeps its first info |
| Sync.RefinedInfoComesFromEnrichedCorpus | scraper/analysis.py:247-307 | a changed info comes from the trimmed enriched corpus of a non-empty, budgeted PDF sample |
| Sync.DecideReachesWrite | scraper/analysis.py:188-236 | a card that passes all filters and is analysed reaches the update-or-create step |
| Sync.SyncCard | scraper/analysis.py:175-393 | one iteration applies exactly the decision for the card to the store and adds 1 to `saved` iff it wrote |
| Sync.WriteAnalysed | scraper/analysis.py:324-372 | the update-or-create step applies exactly the specified write to the store |
| Sync.SyncAll | scraper/analysis.py:175 | one decision per card |
| Sync.SaveToDatabase | scraper/analysis.py:151-396 | an empty batch returns 0 and leaves the keyword cache alone; otherwise the cache is filled, the domain's prefecture is looked up once and the store ends as the cards' decisions applied in order under the cached keywords, with the number of writes returned |
| Sync.SyncCards | scraper/analysis.py:172-396 | the loop over the cards leaves the store as their decisions applied in order, each against the rows the earlier ones left, and `saved` counts the creates and updates |
| Sync.DecisionTouchesOnlyItsLink | scraper/analysis.py:188-372 | a decision deletes or writes only the card's own link, keeps the store keyed by link, and leaves every other row as it was |
| Sync.SyncAllKeyedByLink | scraper/models.py:13 | after a whole run every row is still stored under its own link, so there is at most one row per link |
| Sync.NegativeCardIsNeverWritten | scraper/analysis.py:188-203 | a failed lookup skips the card; a negative card deletes the existing row or is skipped, and is never written |
| Sync.WritesPassEveryFilter | scraper/analysis.py:188-214 | a write happens only for a looked-up, non-negative, fresh card whose stored date differs, and it creates iff no row exists |
| Sync.SkipsBeforeAnyFetch | scraper/analysis.py:205-214 | a stale card and an unchanged card are skipped whatever the fetchers and the oracle would answer |
| Sync.UpdateRule | scraper/analysis.py:324-350 | an update overwrites title, description, date, page text, summary and flags; attribution only with non-empty values; `is_icpe`, `animal_type` and `animal_number` stay |
| Sync.ReachedExistingRowIsRewritten | scraper/analysis.py:211-214 | a card that reaches the update step always has a different date, so the "no changes" branch is never taken |
| Sync.SyncCardIsIdempotent | scraper/analysis.py:180-214 | a card whose detail line carries a valid date, processed again after it was written, under any later clock and the same keywords, writes nothing: it is skipped as unchanged, or as stale or failed lookup when those apply |
| Sync.UndatedCardIsRewrittenLater | scraper/analysis.py:180-214 | a card without detail lines is dated by `now()`, so a later pass whose `now()` differs and is inside the window rewrites its row with the new date |
| Sync.WriteCountBound | scraper/analysis.py:350-372 | the write count never exceeds the number of actions |
| Sync.SavedCountsWrites | scraper/analysis.py:396 | `saved` is at most the number of cards |
| Sweep.Flagged | scraper/analysis.py:415-417 | every flagged id names a stored row whose title and description hold a negative keyword |
| Sweep.FlaggedWithin | scraper/analysis.py:415-417 | flagged ids come from the iteration order |
| Sweep.FlaggedComplete | scraper/analysis.py:415-417 | every negative row of the iteration is flagged |
| Sweep.FlaggedDistinct | scraper/analysis.py:415-417 | a row is flagged at most once |
| Sweep.FirstFailingBatch | scraper/analysis.py:420-429 | the first bulk delete that raises is a real batch of the flagged ids |
| Sweep.ScreenRow | scraper/analysis.py:416 | the screen of one row answers the row's negative-keyword test |
| Sweep.DeleteBatch | scraper/analysis.py:421 | a bulk delete removes exactly the batch, or nothing when it raises |
| Sweep.VisitRow | scraper/analysis.py:415-424 | one iteration keeps the batching invariant, or stops with the store the specified sweep leaves and a result of 0 |
| Sweep.DeleteLastBatch | scraper/analysis.py:427-435 | the final partial batch completes the sweep, or reports 0 when its delete raises |
| Sweep.RemoveDocumentsWithNegativeKeywords | scraper/analysis.py:399-435 | the batched sweep screens with the process's cached keywords, fills the cache when there is a row to screen, and leaves the specified store and returns the specified count |
| Sweep.SweepRows | scraper/analysis.py:404-435 | the loop over the rows in batches of 100 leaves the specified store and returns the specified count for the given keywords |
| Sweep.SweepStopsAt | scraper/analysis.py:433-435 | the first failing batch ends the sweep with the earlier batches deleted and 0 returned |
| Sweep.SweepCompletes | scraper/analysis.py:415-432 | when no batch fails, every flagged row is deleted and their number is returned |
| Sweep.SweepRemovesExactlyFlaggedRows | scraper/analysis.py:399-432 | without failures, exactly the negative rows disappear, the others are untouched, and the count is the number of rows removed |
| Sweep.SweepFailureReportsZero | scraper/analysis.py:433-435 | on a failure the count is 0, and the only rows missing are negative ones |
| Legacy.FirstIcpePdfFrom | scraper/scraper.py:334-347 | the position found is the first PDF whose text holds an ICPE keyword |
| Legacy.PdfProbes | scraper/scraper.py:334-337 | one extraction per PDF, in list order |
| Legacy.CheckPdfsForIcpe | scraper/scraper.py:324-347 | the answer is true iff some PDF's text holds an ICPE keyword, and exactly the PDFs up to the first hit are opened |
| Legacy.CheckIcpe | scraper/scraper.py:549-578 | the cascade code yields the specified verdict and fetches |
| Legacy.IcpeCascadeVerdict | scraper/scraper.py:549-578 | `is_icpe` iff the stripped title and description hold a keyword, or the link is non-empty and its page or one of its PDFs does |
| Legacy.IcpeStagesRunInOrder | scraper/scraper.py:549-578 | the page is fetched only when the text screen fails and a link exists; PDFs are listed only when the page check fails; each PDF is opened only after all earlier ones missed |
| Legacy.LegacySyncAll | scraper/scraper.py:511 | one decision per item |
| Legacy.LegacySaveItem | scraper/scraper.py:511-618 | one iteration applies exactly the item's decision and counts 1 iff it wrote |
| Legacy.LegacyWrite | scraper/scraper.py:581-614 | the update overwrites the existing row and the create inserts the new row under the item's link |
| Legacy.LegacySaveToDatabase | scraper/scraper.py:485-620 | the loop leaves the store as the items' decisions applied in order, and returns the number of writes |
| Legacy.NegativeItemIsDeletedNeverSaved | scraper/scraper.py:525-535 | a negative item removes any row with its link, runs no ICPE check, and is never saved |
| Legacy.LegacyWriteRule | scraper/scraper.py:537-614 | a same-date item is skipped before any ICPE check; otherwise it writes exactly once (update iff a row exists) with the cascade's verdict |
| Legacy.LegacySyncAllKeyedByLink | scraper/models.py:13 | the legacy engine keeps every row under its own link |
| Legacy.StepSettlesItem | scraper/scraper.py:525-614 | after an item is processed, processing it again under the same clock reading is a no-op |
| Legacy.UndatedItemIsRewrittenLater | scraper/scraper.py:519-546 | an item without a detail line is dated by `timezone.now()`, so a later pass reading another instant rewrites its row with that instant |
| Legacy.StepKeepsOtherItem | scraper/scraper.py:525-614 | processing an item does not unsettle an item with another link |
| Legacy.SaveSettlesItems | scraper/scraper.py:511-620 | after a save of items with distinct links, every item is settled |
| Legacy.SettledItemsAreSkipped | scraper/scraper.py:511-620 | saving settled items changes nothing and returns 0 |
| Legacy.ResaveSavesNothing | scraper/scraper.py:537-546 | re-saving a batch whose dates were parsed from detail text writes nothing and returns 0 |
| Legacy.LegacyWriteCountBound | scraper/scraper.py:620 | the return value is at most the number of items |
| Legacy.LegacyRemoveDocumentsWithNegativeKeywords | scraper/scraper.py:410-437 | the loop deletes exactly the rows the legacy screen flags and returns how many it deleted |
| Legacy.IsLegacyKept | scraper/scraper.py:424-430 | a store holding exactly the unflagged rows, unchanged, is the specified result of the legacy sweep |
| Legacy.DeleteIfNegative | scraper/scraper.py:425-430 | one iteration deletes the row iff the legacy screen flags it, and the row count drops by one exactly then |
| Pager.ExtractedKeepsEveryCard | scraper/scraper.py:678-685 | when no extraction yields an empty record, every card is kept, in order |
| Pager.PageKeepsEveryCard | scraper/scraper.py:678-685 | `scrape_government_site` keeps one extracted record per `fr-card` |
| Pager.ExtractPage | scraper/scraper.py:675-685 | the loop over the cards builds exactly the specified results |
| Pager.ScrapeGovernmentSite | scraper/scraper.py:623-706 | returns the page's extracted cards (or none when the fetch fails) and saves them with the legacy engine |
| Pager.ScrapeNext | scraper/scraper.py:861-869 | one fetch returns the next page; a non-empty page is saved, an empty one changes nothing |
| Pager.PageStep | scraper/scraper.py:857-888 | one iteration keeps the pager invariant with a larger offset, or stops having seen every page |
| Pager.CollectPages | scraper/scraper.py:849-888 | the loop collects every page the specification walks and saves each in turn |
| Pager.ScrapeAllResults | scraper/scraper.py:835-904 | the results are the concatenated pages, the session is reset once per 5 pages, each page is saved, then the whole list again, then the legacy sweep runs |
| Pager.PagesFromShape | scraper/scraper.py:857-888 | page `i` is the site's answer at offset `10 i` and is non-empty; the walk ends at an empty page or past offset 1000 |
| Pager.PagesFromBound | scraper/scraper.py:875-888 | the last non-empty page lies at an offset of at most 1000 |
| Pager.PagerMakesAtMost101Requests | scraper/scraper.py:857-888 | at most 101 pages are kept and at most 101 requests made |
| Pager.SavePagesIsOneSave | scraper/scraper.py:692 | saving page after page gives the same store as saving their concatenation |
| Pager.FinalSaveChangesNothing | scraper/scraper.py:893-895 | with distinct links and parsed dates, the final save of all results writes nothing |
| Listing.ShowFlags | scraper/views.py:19-32 | with no type parameter only intensive is shown; otherwise each flag is on iff its parameter is "true" |
| Listing.TypeFilterByCategory | scraper/views.py:35-44 | a document passes iff all flags are off or a switched-on category contains it |
| Listing.OneCategoryEach | scraper/views.py:37-41 | every document is in exactly one of the three categories |
| Listing.AllSwitchesShowEverything | scraper/views.py:35-44 | all flags on, and all flags off, both let every document through |
| Listing.ExplicitFalseListsEverything | scraper/views.py:23-44 | a request that gives a type parameter but sets none to "true" turns every switch off, and then every document passes the type filter |
| Listing.DefaultListsIntensiveOnly | scraper/views.py:19-44 | with no parameters a document passes the type filter iff it is intensive farming |
| Listing.ContainsIsIContains | scraper/views.py:48 | `icontains` accepts every exact substring |
| Listing.IContainsIgnoresCase | scraper/views.py:48 | upper-casing the needle does not change `icontains` |
| Listing.DepartmentKeepsItsOwnRows | scraper/views.py:47-48 | filtering by a document's own prefecture name keeps it |
| Listing.SearchFindsTitleWord | scraper/views.py:50-54 | a search for any part of the title keeps the document |
| Listing.Filtered | scraper/views.py:35-54 | the listing keeps exactly the documents that pass every filter |
| Listing.FilteredKeepsOrder | scraper/models.py:26 | filtering keeps the newest-first order |
| Listing.EmptyRequestListsIntensive | scraper/views.py:19-54 | an empty request lists exactly the intensive-farming documents |
| Listing.PageCount | scraper/views.py:57 | the number of 20-row pages is the least that holds all rows, and at least 1 |
| Listing.PageNumber | scraper/views.py:58-59 | `get_page` serves the requested page when it exists, and always some valid page |
| Listing.PageRows | scraper/views.py:57-59 | a page holds at most 20 rows, and at least one when the list is non-empty |
| Listing.PagesCoverList | scraper/views.py:57 | the first `k` pages are the first `20 k` rows |
| Listing.PagesPartitionList | scraper/views.py:57 | all the pages together are the whole list, in order |
| Listing.DocumentList | scraper/views.py:6-59 | the page shows passing documents only, at most 20, and at least one whenever some document passes |
| Formatting.Banner | scraper/utils/formatting.py:18 | the banner is 100 '=' characters |
| Formatting.Clip | scraper/utils/formatting.py:43 | `[:100]` keeps the first `min(len, 100)` characters |
| Formatting.Shown | scraper/utils/formatting.py:36 | `results[:3]` is a prefix of at most 3 items, the whole list when it is that short |
| Formatting.ReportFrame | scraper/utils/formatting.py:17-51 | the report starts with banner, title, banner, and ends with a newline and a banner |
| Formatting.KeywordHeaderListed | scraper/utils/formatting.py:22-24 | each keyword's block opens with its upper-cased header and its `total_items` line |
| Formatting.ItemHeaderInjective | scraper/utils/formatting.py:37 | distinct item numbers give distinct item headers |
| Formatting.MoreLineInjective | scraper/utils/formatting.py:46 | distinct remainders give distinct "... and N more items" lines |
| Formatting.ItemsLinesShape | scraper/utils/formatting.py:36-43 | the items block holds the headers `Item 1` … `Item n` and nothing else that looks like one; each item gives 1 to 4 lines |
| Formatting.ItemsShownPerPrefecture | scraper/utils/formatting.py:32-48 | "Item n" appears in a prefecture's block iff its count is positive and `n` is at most 3 and at most the number of results |
| Formatting.MoreLineWhenTruncated | scraper/utils/formatting.py:45-46 | "... and N more items" appears iff the count is positive and there are more than 3 results, with `N = len - 3` |
| Formatting.PrefectureBlockSize | scraper/utils/formatting.py:32-48 | a count of 0 or less gives the single "No results" line; otherwise the block starts with the count line and has at most 14 lines |
| Formatting.DescriptionClipped | scraper/utils/formatting.py:42-43 | the description line holds the first 100 characters followed by "..." |
| Formatting.AppendItem | scraper/utils/formatting.py:37-43 | the appends for one item add exactly that item's lines |
| Formatting.AppendItems | scraper/utils/formatting.py:36-43 | the item loop adds exactly the numbered items' lines |
| Formatting.AppendPrefecture | scraper/utils/formatting.py:28-48 | the appends for one prefecture add exactly its block |
| Formatting.AppendKeyword | scraper/utils/formatting.py:23-48 | the appends for one keyword add exactly its block |
| Formatting.FormatResultsPretty | scraper/utils/formatting.py:6-51 | the nested append loops and the final join produce exactly the specified report |
| Text.StripSpec | scraper/analysis.py:252 | `strip()` returns the slice between the leading and trailing whitespace, with no whitespace at either end |
| Text.StripIdempotent | scraper/analysis.py:252 | stripping twice is stripping once |
| Text.LowerOfUpper | scraper/views.py:48 | lower-casing forgets an earlier upper-casing |
| Text.JoinContainsPart | scraper/analysis.py:296 | every joined part occurs in the joined string |
| Text.NatToStringRoundTrip | scraper/scraper.py:647 | the decimal rendering of a number reads back as that number |
| Text.NatToStringInjective | scraper/scraper.py:647 | distinct numbers render differently |

## Left out

- HTTP sessions, throttling, sleeps, random backoff, user-agent rotation and
  proxies are not modelled (`scraper/scraper.py:22-179`). `reset_session` is
  only counted.
- BeautifulSoup parsing is not modelled. A card is a list of elements with a
  tag, classes, a text and an href. `get_text(strip=True)` is the element's
  stripped text, without the joining of nested strings.
- PDF text extraction, `extract_pdf_links_from_page`, `fetch_page_text`,
  `fetch_page_soup`, `trim_text`, `get_document_info` and
  `check_if_intensive_farming` are uninterpreted function parameters (foreign
  libraries and a language model). An extraction error is modelled as the
  empty text, which both engines skip anyway.
- `ScrapedCard`, `fetch_page_soup`, `fetch_page_text` and
  `iterate_search_pages` are imported by `scraper/analysis.py` but are not
  defined in `scraper/scraper.py`. They are abstract here, and
  `scraper/analysis.py:442-480` (the newer `scrape_all_results`, built on
  `iterate_search_pages`) is not part of this model.
- The clocks are read once per call of `save_to_database` /
  `scrape_all_results`: `now` and `wallNow` hold for every card of the call,
  while the source reads `now()` and `timezone.now()` again for each card
  (`scraper/analysis.py:60`, `181`, `206`; `scraper/scraper.py:476`, `482`,
  `519`). So an undated card of one batch gets one date, and a batch that
  holds the same undated link twice counts 1 write here where the source can
  count 2. Across calls the model follows the source: an undated card is
  rewritten by every later pass (`Sync.UndatedCardIsRewrittenLater`,
  `Legacy.UndatedItemIsRewrittenLater`). Time zones are ignored: a parsed date
  is midnight of the day, in seconds.
- DateParse.SearchFrom, DateParse.DateFromDetail and
  DateParse.LegacyDateFromDetail: a digit is an ASCII `0`-`9`. Python's `\d`
  and `int()` also accept every other Unicode decimal digit (fullwidth
  `０`-`９`, Arabic-Indic and so on), so a detail line such as
  "Le ０１/０２/２０２４" parses to a date in the source and falls back to the
  clock here.
- The newer engine's keyword cache is filled when `save_to_database` starts on
  a non-empty batch and when the sweep starts on a non-empty table, while the
  source fills it at the first screened card or row; the two differ only when
  every lookup of a batch fails. The legacy engine reads the keyword table
  once per call, where the source queries it for each item; the table is not
  changed during a call.
- Upper- and lower-casing map one char to one char, over ASCII and the
  Latin-1 letters that have a Latin-1 partner. Three Latin-1 letters are kept
  unchanged by `Upper`, where Python maps them elsewhere: `ß` (U+00DF)
  upper-cases to the two chars "SS", `ÿ` (U+00FF) to `Ÿ` (U+0178) and `µ`
  (U+00B5) to `Μ` (U+039C). Python's full Unicode case tables are not
  modelled. `strip()` uses Python's whitespace characters. The four lemmas
  below are about the model's one-to-one casing and fail in Python on text
  holding `ß`, `ÿ` or `µ`.
- Text.LowerOfUpper: in Python `"ß".upper().lower()` is "ss" and
  `"µ".upper().lower()` is `μ` (U+03BC), so lower-casing after upper-casing
  does not give back the lower-case form for those letters.
- Keywords.NegativeScreenIgnoresCase: the keyword "straße" flags the title
  "straße" but not its upper-cased form "STRASSE" in Python.
- Keywords.IcpeScreenIgnoresCase: "installation claßée" does not hold an ICPE
  keyword, but its Python upper-cased form, lower-cased again, holds
  "installation classée".
- Formatting.KeywordHeaderListed: for the keyword "straße" Python prints
  "--- KEYWORD: STRASSE ---", while the model's header reads "STRAßE".
- Database failures other than the lookup in `scraper/analysis.py:188-195`
  are not modelled: `save()`, `create()` and `delete()` always succeed. The
  sweep models only bulk-delete failures.
- The exception handlers of `extract_card_data` (`scraper/scraper.py:814-817`)
  are not modelled: the abstract card cannot raise. The `except` branches of
  `scrape_government_site` are modelled by a fetch that answers `None`.
- Legacy.LegacyRemoveDocumentsWithNegativeKeywords: the rows are visited in
  an arbitrary order, since the query has no ordering that matters here. The
  query's failure path, which returns the count so far, is not modelled.
- `max_length` on `title` and the other fields, and `created_at` /
  `updated_at`, are not modelled. Django's `DateTimeField` is an integer
  instant.
- The memory housekeeping (`gc.collect`, `cache_clear`, `del`) has no
  observable effect and is left out.
- `scraper/analysis.py:275-276` (`remaining <= 0: break`) cannot fire, since
  the loop already stops at the budget (`scraper/analysis.py:264-265`). The
  model folds the two checks.
- Prefectures.AllRegions: `get_all_regions` returns a list built from a set.
  Its order is Python's set iteration order, so the model returns a `set`.
- Listing.DocumentList: the departments dropdown (`scraper/views.py:61-64`)
  and the template context are not modelled. A `page` value that is not an
  integer is modelled as absent and is served as page 1. An out-of-range page
  is served as the last page, as Django's `get_page` does.
- Formatting.FormatResultsPretty: the `keywords` argument is unused by the
  source and by the model. Dictionaries are sequences in insertion order. The
  optional title, link and description of an item are `Option<string>`.
  `total_items` and `count` are integers.
- The Celery and Redis orchestration, the management commands, the admin, the
  templates, the example scripts and `llm_api/views.py` are not part of this
  model.
