/** The stored records of scraper/models.py: `GovernmentDocument`, kept unique
    by `link`, and `NegativeKeyword`, kept unique by `keyword`. A document holds
    the union of the fields the rest of the code reads and writes. */
module Models {
  import opened Wrappers
  import opened Dates

  /** One `GovernmentDocument` row. Nullable columns are `Option`s; `title`
      and `dateUpdated` are required. */
  datatype Document = Document(
    link: string,
    title: string,
    description: Option<string>,
    dateUpdated: Instant,
    isIcpe: bool,
    prefectureName: Option<string>,
    prefectureCode: Option<string>,
    regionName: Option<string>,
    summary: Option<string>,
    fullPageText: Option<string>,
    isAnimalProject: bool,
    isIntensiveFarming: bool,
    animalType: Option<string>,
    animalNumber: Option<int>)

  /** The default window of `is_recent`, in days. */
  const RecentDays: int := 30

  /** `doc.is_recent(days)`: the whole days elapsed since `date_updated` are at most `days`. */
  predicate IsRecent(doc: Document, now: Instant, days: int)
  {
    WholeDays(now, doc.dateUpdated) <= days
  }

  /** `is_recent` holds exactly when less than `days + 1` full days have passed. */
  lemma IsRecentWithinWindow(doc: Document, now: Instant, days: int)
    ensures IsRecent(doc, now, days) <==> now - doc.dateUpdated < Days(days + 1)
  {
    var n := WholeDays(now, doc.dateUpdated);
    if n > days {
      assert Days(days + 1) <= Days(n);
    }
    if now - doc.dateUpdated >= Days(days + 1) {
      assert Days(days + 1) < Days(n + 1);
    }
  }

  /** A document dated in the future counts as recent for any window of at least zero days. */
  lemma FutureIsRecent(doc: Document, now: Instant, days: int)
    requires days >= 0 && now <= doc.dateUpdated
    ensures IsRecent(doc, now, days)
  {
    IsRecentWithinWindow(doc, now, days);
  }

  /** The default ordering, `-date_updated`: newest first. */
  predicate NewestFirst(docs: seq<Document>)
  {
    forall i, j :: 0 <= i < j < |docs| ==> docs[i].dateUpdated >= docs[j].dateUpdated
  }

  /** Rows keyed by their own link. */
  predicate KeyedByLink(rows: map<string, Document>)
  {
    forall l :: l in rows ==> rows[l].link == l
  }

  /** The `GovernmentDocument` table. The map from link to row makes the unique
      constraint on `link` structural: there is at most one row per link. */
  class DocumentStore {
    var rows: map<string, Document>

    ghost predicate Valid()
      reads this
    {
      KeyedByLink(rows)
    }

    constructor ()
      ensures Valid() && rows == map[]
    {
      rows := map[];
    }

    /** `GovernmentDocument.objects.filter(link=link).first()`. */
    method Find(link: string) returns (r: Option<Document>)
      requires Valid()
      ensures r.Some? <==> link in rows
      ensures r.Some? ==> r.value == rows[link] && r.value.link == link
    {
      if link in rows {
        r := Some(rows[link]);
      } else {
        r := None;
      }
    }

    /** `GovernmentDocument.objects.create(...)`: refused (an integrity error)
        when a row with the same link exists. */
    method Create(doc: Document) returns (ok: bool)
      requires Valid()
      modifies this
      ensures Valid()
      ensures ok <==> doc.link !in old(rows)
      ensures rows == if ok then old(rows)[doc.link := doc] else old(rows)
    {
      ok := doc.link !in rows;
      if ok {
        rows := rows[doc.link := doc];
      }
    }

    /** `document.save()` on a row that was read from the table: the row with
        that link is overwritten. */
    method Save(doc: Document)
      requires Valid() && doc.link in rows
      modifies this
      ensures Valid()
      ensures rows == old(rows)[doc.link := doc]
    {
      rows := rows[doc.link := doc];
    }

    /** `document.delete()`: the row with that link is gone, the others stay. */
    method Delete(link: string)
      requires Valid()
      modifies this
      ensures Valid()
      ensures rows == old(rows) - {link}
    {
      rows := rows - {link};
    }

    /** `GovernmentDocument.objects.filter(link__in=links).delete()`. */
    method DeleteAll(links: set<string>)
      requires Valid()
      modifies this
      ensures Valid()
      ensures rows == old(rows) - links
    {
      rows := rows - links;
    }
  }

  /** The `NegativeKeyword` table: `keyword` is unique. The rows are listed by
      `keyword` in the source; which keyword is found first does not change
      any screen's answer, so the model keeps insertion order. */
  class NegativeKeywordTable {
    var keywords: seq<string>

    ghost predicate Valid()
      reads this
    {
      forall i, j :: 0 <= i < j < |keywords| ==> keywords[i] != keywords[j]
    }

    constructor ()
      ensures Valid() && keywords == []
    {
      keywords := [];
    }

    /** `NegativeKeyword.objects.create(keyword=kw)`: refused when the keyword exists. */
    method Add(kw: string) returns (ok: bool)
      requires Valid()
      modifies this
      ensures Valid()
      ensures ok <==> kw !in old(keywords)
      ensures keywords == if ok then old(keywords) + [kw] else old(keywords)
    {
      ok := kw !in keywords;
      if ok {
        keywords := keywords + [kw];
      }
    }
  }
}
