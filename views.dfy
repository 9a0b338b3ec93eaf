/** The document list screen of scraper/views.py (`document_list`): which
    documents a request selects and which page of them it shows. The queryset
    narrowing is modelled as a predicate on one document, applied in order to
    the table's rows. */
module Listing {
  import opened Wrappers
  import opened Text
  import opened Models

  // ---------------------------------------------------------------------------
  // The request
  // ---------------------------------------------------------------------------

  /** The query-string parameters `document_list` reads. `page` is the page
      number once read as an integer (`None` when missing or not a number). */
  datatype Request = Request(
    department: Option<string>,
    search: Option<string>,
    intensive: Option<string>,
    otherAnimal: Option<string>,
    otherDocs: Option<string>,
    page: Option<int>)

  /** A parameter counts for `any([...])` when it is present and not empty. */
  predicate Given(p: Option<string>)
  {
    p.Some? && p.value != ""
  }

  /** `param == 'true'`. */
  predicate IsTrue(p: Option<string>)
  {
    p == Some("true")
  }

  /** The three document-type switches shown on the screen. */
  datatype Flags = Flags(intensive: bool, otherAnimal: bool, otherDocs: bool)

  /** The switches a request turns on. With none of the three parameters
      given, intensive farming alone is shown; otherwise each switch is on
      exactly when its parameter reads `true`, so all three may be off. */
  function ShowFlags(intensive: Option<string>, otherAnimal: Option<string>, otherDocs: Option<string>): (f: Flags)
    ensures f.intensive <==> IsTrue(intensive) || (!Given(intensive) && !Given(otherAnimal) && !Given(otherDocs))
    ensures f.otherAnimal <==> IsTrue(otherAnimal)
    ensures f.otherDocs <==> IsTrue(otherDocs)
  {
    if !Given(intensive) && !Given(otherAnimal) && !Given(otherDocs) then
      Flags(true, false, false)
    else
      Flags(IsTrue(intensive), IsTrue(otherAnimal), IsTrue(otherDocs))
  }

  // ---------------------------------------------------------------------------
  // The document-type filter
  // ---------------------------------------------------------------------------

  /** One `Q(...)` term of the type filter: `is_intensive_farming` must equal
      `intensive`, and `is_animal_project` must equal `animal` when that is set. */
  datatype Clause = Clause(animal: Option<bool>, intensive: bool)

  predicate Matches(c: Clause, d: Document)
  {
    d.isIntensiveFarming == c.intensive && (c.animal.None? || d.isAnimalProject == c.animal.value)
  }

  /** The terms OR-ed into `type_filters`, in the order they are added. */
  function TypeClauses(f: Flags): seq<Clause>
  {
    (if f.intensive then [Clause(None, true)] else [])
    + (if f.otherAnimal then [Clause(Some(true), false)] else [])
    + (if f.otherDocs then [Clause(Some(false), false)] else [])
  }

  /** The type filter: an empty `Q()` does not filter; otherwise a document
      must match one of the terms. */
  predicate TypePasses(f: Flags, d: Document)
  {
    var cs := TypeClauses(f);
    cs == [] || exists i :: 0 <= i < |cs| && Matches(cs[i], d)
  }

  /** The three categories the screen offers. */
  predicate IsIntensive(d: Document)
  {
    d.isIntensiveFarming
  }

  predicate IsOtherAnimal(d: Document)
  {
    d.isAnimalProject && !d.isIntensiveFarming
  }

  predicate IsOtherDocument(d: Document)
  {
    !d.isAnimalProject && !d.isIntensiveFarming
  }

  /** A document passes the type filter exactly when every switch is off, or
      a switch is on whose category the document belongs to. */
  lemma TypeFilterByCategory(f: Flags, d: Document)
    ensures TypePasses(f, d) <==>
      (!f.intensive && !f.otherAnimal && !f.otherDocs)
      || (f.intensive && IsIntensive(d))
      || (f.otherAnimal && IsOtherAnimal(d))
      || (f.otherDocs && IsOtherDocument(d))
  {
    var cs := TypeClauses(f);
    if f.intensive && IsIntensive(d) {
      assert Matches(cs[0], d);
    }
    if f.otherAnimal && IsOtherAnimal(d) {
      var i := if f.intensive then 1 else 0;
      assert Matches(cs[i], d);
    }
    if f.otherDocs && IsOtherDocument(d) {
      var i := |cs| - 1;
      assert Matches(cs[i], d);
    }
  }

  /** Every document belongs to exactly one of the three categories. */
  lemma OneCategoryEach(d: Document)
    ensures IsIntensive(d) || IsOtherAnimal(d) || IsOtherDocument(d)
    ensures !(IsIntensive(d) && IsOtherAnimal(d))
    ensures !(IsIntensive(d) && IsOtherDocument(d))
    ensures !(IsOtherAnimal(d) && IsOtherDocument(d))
  {
  }

  /** Turning on all three switches shows the same documents as turning all off. */
  lemma AllSwitchesShowEverything(d: Document)
    ensures TypePasses(Flags(true, true, true), d)
    ensures TypePasses(Flags(false, false, false), d)
  {
    TypeFilterByCategory(Flags(true, true, true), d);
  }

  /** A request that gives a type parameter but sets none of them to `true`
      (`?intensive=false`, say) turns every switch off, and with no switch on
      the type filter is dropped: every document is listed, not none. */
  lemma ExplicitFalseListsEverything(intensive: Option<string>, otherAnimal: Option<string>, otherDocs: Option<string>,
                                     d: Document)
    requires Given(intensive) || Given(otherAnimal) || Given(otherDocs)
    requires !IsTrue(intensive) && !IsTrue(otherAnimal) && !IsTrue(otherDocs)
    ensures ShowFlags(intensive, otherAnimal, otherDocs) == Flags(false, false, false)
    ensures TypePasses(ShowFlags(intensive, otherAnimal, otherDocs), d)
  {
    AllSwitchesShowEverything(d);
  }

  /** A request without type parameters lists intensive farming documents only. */
  lemma DefaultListsIntensiveOnly(d: Document)
    ensures TypePasses(ShowFlags(None, None, None), d) <==> d.isIntensiveFarming
  {
    TypeFilterByCategory(ShowFlags(None, None, None), d);
  }

  // ---------------------------------------------------------------------------
  // Department and search filters
  // ---------------------------------------------------------------------------

  /** `hay__icontains=needle`: `needle` occurs in `hay`, ignoring case. */
  predicate IContains(hay: string, needle: string)
  {
    IsSubstring(Lower(needle), Lower(hay))
  }

  /** An empty `department` does not filter; otherwise the prefecture name
      must contain it, ignoring case (a row without one never matches). */
  predicate DepartmentPasses(department: string, d: Document)
  {
    department == "" || (d.prefectureName.Some? && IContains(d.prefectureName.value, department))
  }

  /** An empty `search` does not filter; otherwise the title or the
      description must contain it, ignoring case. */
  predicate SearchPasses(search: string, d: Document)
  {
    search == "" || IContains(d.title, search)
    || (d.description.Some? && IContains(d.description.value, search))
  }

  /** A verbatim occurrence is also a case-insensitive one. */
  lemma ContainsIsIContains(hay: string, needle: string)
    requires IsSubstring(needle, hay)
    ensures IContains(hay, needle)
  {
    var i :| 0 <= i <= |hay| && OccursAt(needle, hay, i);
    var a, c := hay[..i], hay[i + |needle|..];
    assert hay == a + needle + c;
    LowerAppend(a + needle, c);
    LowerAppend(a, needle);
    SubstringOfConcat(Lower(a), Lower(needle), Lower(c));
  }

  /** Upper-casing the needle does not change what it matches. */
  lemma IContainsIgnoresCase(hay: string, needle: string)
    ensures IContains(hay, Upper(needle)) <==> IContains(hay, needle)
  {
    LowerOfUpper(needle);
  }

  /** Choosing a department by its exact name keeps its documents. */
  lemma DepartmentKeepsItsOwnRows(d: Document)
    requires d.prefectureName.Some?
    ensures DepartmentPasses(d.prefectureName.value, d)
  {
    var n := d.prefectureName.value;
    assert n[0..|n|] == n;
    assert OccursAt(n, n, 0);
    ContainsIsIContains(n, n);
  }

  /** A search for a word of the title finds the document. */
  lemma SearchFindsTitleWord(search: string, d: Document)
    requires IsSubstring(search, d.title)
    ensures SearchPasses(search, d)
  {
    ContainsIsIContains(d.title, search);
  }

  // ---------------------------------------------------------------------------
  // The listing
  // ---------------------------------------------------------------------------

  /** A document is listed when it passes all three filters. */
  predicate Passes(r: Request, d: Document)
  {
    TypePasses(ShowFlags(r.intensive, r.otherAnimal, r.otherDocs), d)
    && DepartmentPasses(r.department.GetOr(""), d)
    && SearchPasses(r.search.GetOr(""), d)
  }

  /** The rows the filtered queryset yields, in the table's order. */
  function Filtered(docs: seq<Document>, r: Request): (kept: seq<Document>)
    ensures |kept| <= |docs|
    ensures forall d :: d in kept <==> d in docs && Passes(r, d)
  {
    if docs == [] then []
    else
      var rest := Filtered(docs[..|docs| - 1], r);
      var last := docs[|docs| - 1];
      assert docs == docs[..|docs| - 1] + [last];
      if Passes(r, last) then rest + [last] else rest
  }

  /** Filtering keeps the newest-first order of the table. */
  lemma {:induction false} FilteredKeepsOrder(docs: seq<Document>, r: Request)
    requires NewestFirst(docs)
    ensures NewestFirst(Filtered(docs, r))
  {
    if docs != [] {
      var init := docs[..|docs| - 1];
      var last := docs[|docs| - 1];
      assert NewestFirst(init);
      FilteredKeepsOrder(init, r);
      var rest := Filtered(init, r);
      if Passes(r, last) {
        var kept := rest + [last];
        forall i, j | 0 <= i < j < |kept| ensures kept[i].dateUpdated >= kept[j].dateUpdated {
          if j == |rest| {
            assert kept[i] in init;
            var k :| 0 <= k < |init| && init[k] == kept[i];
            assert docs[k] == kept[i];
          }
        }
      }
    }
  }

  /** A request with no parameters at all lists the intensive farming rows. */
  lemma EmptyRequestListsIntensive(docs: seq<Document>, d: Document)
    ensures d in Filtered(docs, Request(None, None, None, None, None, None))
        <==> d in docs && d.isIntensiveFarming
  {
    DefaultListsIntensiveOnly(d);
  }

  // ---------------------------------------------------------------------------
  // Pagination
  // ---------------------------------------------------------------------------

  /** `Paginator(documents, 20)`. */
  const PerPage: nat := 20

  /** The number of pages: at least one, even for an empty list. */
  function PageCount(n: nat): (c: nat)
    ensures c >= 1
    ensures n <= c * PerPage
    ensures n > 0 ==> (c - 1) * PerPage < n
  {
    if n == 0 then 1 else (n + PerPage - 1) / PerPage
  }

  /** `paginator.get_page(number)`: a missing or non-numeric number gives the
      first page, one out of range gives the last page. */
  function PageNumber(requested: Option<int>, n: nat): (p: nat)
    ensures 1 <= p <= PageCount(n)
    ensures requested.Some? && 1 <= requested.value <= PageCount(n) ==> p == requested.value
  {
    match requested
    case None => 1
    case Some(k) => if 1 <= k <= PageCount(n) then k else PageCount(n)
  }

  /** The rows of page `p`: the `p`-th run of `PerPage` rows, the last one shorter. */
  function PageRows(docs: seq<Document>, p: nat): (rows: seq<Document>)
    requires 1 <= p <= PageCount(|docs|)
    ensures |rows| <= PerPage
    ensures docs != [] ==> rows != []
  {
    var start := (p - 1) * PerPage;
    var end := if p * PerPage < |docs| then p * PerPage else |docs|;
    docs[start..end]
  }

  /** Page `p` is followed by page `p + 1`: together the pages lay out the list in order. */
  lemma {:induction false} PagesCoverList(docs: seq<Document>, k: nat)
    requires k <= PageCount(|docs|)
    ensures AllPages(docs, k) == docs[..if k * PerPage < |docs| then k * PerPage else |docs|]
  {
    if k > 0 {
      PagesCoverList(docs, k - 1);
      var a := if (k - 1) * PerPage < |docs| then (k - 1) * PerPage else |docs|;
      var b := if k * PerPage < |docs| then k * PerPage else |docs|;
      assert a == (k - 1) * PerPage;
      assert docs[..b] == docs[..a] + docs[a..b];
    }
  }

  /** The first `k` pages, one after another. */
  function AllPages(docs: seq<Document>, k: nat): seq<Document>
    requires k <= PageCount(|docs|)
  {
    if k == 0 then [] else AllPages(docs, k - 1) + PageRows(docs, k)
  }

  /** All pages together are exactly the listed rows. */
  lemma PagesPartitionList(docs: seq<Document>)
    ensures AllPages(docs, PageCount(|docs|)) == docs
  {
    PagesCoverList(docs, PageCount(|docs|));
  }

  /** What the screen shows: the switches, the two text filters and one page. */
  datatype Screen = Screen(flags: Flags, department: string, search: string, pageNumber: nat, rows: seq<Document>)

  /** `document_list(request)` over the table's rows `docs`. */
  function DocumentList(docs: seq<Document>, r: Request): (s: Screen)
    ensures s.flags == ShowFlags(r.intensive, r.otherAnimal, r.otherDocs)
    ensures |s.rows| <= PerPage
    ensures forall d :: d in s.rows ==> d in docs && Passes(r, d)
    ensures Filtered(docs, r) != [] ==> s.rows != []
  {
    var kept := Filtered(docs, r);
    var p := PageNumber(r.page, |kept|);
    var rows := PageRows(kept, p);
    assert forall d :: d in rows ==> d in kept;
    Screen(ShowFlags(r.intensive, r.otherAnimal, r.otherDocs), r.department.GetOr(""), r.search.GetOr(""), p, rows)
  }
}
