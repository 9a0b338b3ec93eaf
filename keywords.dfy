/** Keyword screens on a document's text: the negative-keyword screen of
    scraper/analysis.py and its older copy in scraper/scraper.py, and the ICPE
    keyword screen of scraper/scraper.py. All of them compare lower-cased text
    with `in`. */
module Keywords {
  import opened Wrappers
  import opened Text

  // ---------------------------------------------------------------------------
  // Negative keywords
  // ---------------------------------------------------------------------------

  /** The stored keywords, lower-cased, the empty ones dropped. */
  function LowerNonEmpty(stored: seq<string>): (r: seq<string>)
    ensures |r| <= |stored|
    ensures forall kw :: kw in r ==> kw != ""
    ensures forall kw :: kw in r <==> exists i :: 0 <= i < |stored| && stored[i] != "" && Lower(stored[i]) == kw
  {
    if stored == [] then []
    else
      var rest := LowerNonEmpty(stored[1..]);
      assert forall i :: 0 < i < |stored| ==> stored[i] == stored[1..][i - 1];
      if stored[0] == "" then rest else [Lower(stored[0])] + rest
  }

  /** `_negative_keywords_lower()`: `None` stands for a failed query, which gives no keywords. */
  function NegativeKeywordsLower(stored: Option<seq<string>>): seq<string>
  {
    match stored
    case None => []
    case Some(kws) => LowerNonEmpty(kws)
  }

  /** What `_negative_keywords_lower()` answers in a process whose cache holds
      `cached`: the cached list once there is one, else the list loaded from
      the table as it is now. */
  function CachedKeywords(cached: Option<seq<string>>, stored: Option<seq<string>>): seq<string>
  {
    if cached.Some? then cached.value else NegativeKeywordsLower(stored)
  }

  /** The `lru_cache(maxsize=1)` around `_negative_keywords_lower`, one per
      process: the first call loads the list and keeps it, a failed load's
      empty list included, and nothing clears it. */
  class KeywordCache {
    var cached: Option<seq<string>>

    constructor ()
      ensures cached == None
    {
      cached := None;
    }

    /** `_negative_keywords_lower()`, where `stored` is the `keywords` of the
        `NegativeKeywordTable` of module `Models`, or `None` when the query
        raises. */
    method Get(stored: Option<seq<string>>) returns (kws: seq<string>)
      modifies this
      ensures kws == CachedKeywords(old(cached), stored)
      ensures cached == Some(kws)
    {
      if cached.None? {
        cached := Some(NegativeKeywordsLower(stored));
      }
      kws := cached.value;
    }
  }

  /** Once the cache is filled, the keyword table no longer matters: a keyword
      added or removed later is not seen, and after a failed first load no
      text is ever screened out. */
  lemma CacheHidesLaterTable(cached: seq<string>, stored: Option<seq<string>>, title: string, description: string)
    ensures CachedKeywords(Some(cached), stored) == cached
    ensures !HasNegativeKeyword(CachedKeywords(Some(NegativeKeywordsLower(None)), stored), title, description)
  {
  }

  /** The text both screens search: `f"{title} {description}".lower()`. */
  function ScreenText(title: string, description: string): string
  {
    Lower(title + " " + description)
  }

  /** The newer screen: some non-empty keyword occurs in the lower-cased text. */
  predicate HasNegativeKeyword(kwsLower: seq<string>, title: string, description: string)
  {
    exists i :: 0 <= i < |kwsLower| && kwsLower[i] != "" && IsSubstring(kwsLower[i], ScreenText(title, description))
  }

  /** `contains_negative_keywords` of scraper/analysis.py. */
  method ContainsNegativeKeywords(kwsLower: seq<string>, title: string, description: string) returns (found: bool)
    ensures found == HasNegativeKeyword(kwsLower, title, description)
  {
    var text := ScreenText(title, description);
    for k := 0 to |kwsLower|
      invariant forall i :: 0 <= i < k ==> !(kwsLower[i] != "" && IsSubstring(kwsLower[i], text))
    {
      if kwsLower[k] != "" && IsSubstring(kwsLower[k], text) {
        return true;
      }
    }
    return false;
  }

  /** The older screen: every stored keyword is lower-cased and searched, the
      empty one included (which occurs in every text); a failed query gives false. */
  predicate LegacyHasNegativeKeyword(stored: Option<seq<string>>, title: string, description: string)
  {
    stored.Some?
    && exists i :: 0 <= i < |stored.value| && IsSubstring(Lower(stored.value[i]), ScreenText(title, description))
  }

  /** `contains_negative_keywords` of scraper/scraper.py. */
  method LegacyContainsNegativeKeywords(stored: Option<seq<string>>, title: string, description: string)
    returns (found: bool)
    ensures found == LegacyHasNegativeKeyword(stored, title, description)
  {
    if stored.None? {
      return false;
    }
    var kws := stored.value;
    var text := ScreenText(title, description);
    for k := 0 to |kws|
      invariant forall i :: 0 <= i < k ==> !IsSubstring(Lower(kws[i]), text)
    {
      if IsSubstring(Lower(kws[k]), text) {
        return true;
      }
    }
    return false;
  }

  /** The two screens agree except that an empty stored keyword makes the older
      one flag every document. */
  lemma LegacyScreenVersusNew(stored: seq<string>, title: string, description: string)
    ensures LegacyHasNegativeKeyword(Some(stored), title, description) <==>
            (HasNegativeKeyword(NegativeKeywordsLower(Some(stored)), title, description) || "" in stored)
  {
    var text := ScreenText(title, description);
    var kws := NegativeKeywordsLower(Some(stored));
    if "" in stored {
      var i :| 0 <= i < |stored| && stored[i] == "";
      assert OccursAt(Lower(stored[i]), text, 0);
    }
    if HasNegativeKeyword(kws, title, description) {
      var j :| 0 <= j < |kws| && kws[j] != "" && IsSubstring(kws[j], text);
      assert kws[j] in kws;
      var i :| 0 <= i < |stored| && stored[i] != "" && Lower(stored[i]) == kws[j];
      assert IsSubstring(Lower(stored[i]), text);
    }
    if LegacyHasNegativeKeyword(Some(stored), title, description) && "" !in stored {
      var i :| 0 <= i < |stored| && IsSubstring(Lower(stored[i]), text);
      assert stored[i] != "";
      assert Lower(stored[i]) in kws;
      var j :| 0 <= j < |kws| && kws[j] == Lower(stored[i]);
    }
  }

  /** The screen ignores letter case in the document. */
  lemma NegativeScreenIgnoresCase(kwsLower: seq<string>, title: string, description: string)
    ensures HasNegativeKeyword(kwsLower, Upper(title), Upper(description)) == HasNegativeKeyword(kwsLower, title, description)
  {
    var t := title + " " + description;
    var u := Upper(title) + " " + Upper(description);
    assert u == Upper(t) by {
      forall i | 0 <= i < |u|
        ensures u[i] == Upper(t)[i]
      {
        if i < |title| {
          assert u[i] == Upper(title)[i] && t[i] == title[i];
        } else if i > |title| {
          assert u[i] == Upper(description)[i - |title| - 1] && t[i] == description[i - |title| - 1];
        }
      }
    }
    LowerOfUpper(t);
    assert ScreenText(Upper(title), Upper(description)) == ScreenText(title, description);
  }

  /** A stored keyword found in the title, in any letter case, flags the document. */
  lemma KeywordInTitleIsFlagged(stored: seq<string>, i: nat, title: string, description: string)
    requires i < |stored| && stored[i] != ""
    requires IsSubstring(Lower(stored[i]), Lower(title))
    ensures HasNegativeKeyword(NegativeKeywordsLower(Some(stored)), title, description)
  {
    var kws := NegativeKeywordsLower(Some(stored));
    var kw := Lower(stored[i]);
    assert kw in kws;
    var j :| 0 <= j < |kws| && kws[j] == kw;
    assert title + " " + description == title + (" " + description);
    LowerOfPrefix(title, " " + description);
    SubstringTransitive(kw, Lower(title), ScreenText(title, description));
  }

  /** A failed keyword query lets every document through the newer screen. */
  lemma FailedQueryFlagsNothing(title: string, description: string)
    ensures !HasNegativeKeyword(NegativeKeywordsLower(None), title, description)
    ensures !LegacyHasNegativeKeyword(None, title, description)
  {
  }

  // ---------------------------------------------------------------------------
  // ICPE keywords
  // ---------------------------------------------------------------------------

  /** The keywords `contains_icpe_keywords` looks for, in its order. */
  const IcpeKeywords: seq<string> := [
    "icpe",
    "installations classées",
    "installation classée",
    "déclaration icpe",
    "autorisation environnementale",
    "régime d'autorisation",
    "régime d'enregistrement",
    "régime de déclaration",
    "rubriques des activités",
    "nomenclature des installations",
    "code de l'environnement",
    "déclaration initiale dicpe",
    "dicpe"
  ]

  /** A non-empty text whose lower-cased form contains one of the ICPE keywords. */
  predicate HasIcpeKeyword(text: string)
  {
    text != "" && exists i :: 0 <= i < |IcpeKeywords| && IsSubstring(IcpeKeywords[i], Lower(text))
  }

  /** `contains_icpe_keywords` of scraper/scraper.py. */
  method ContainsIcpeKeywords(text: string) returns (found: bool)
    ensures found == HasIcpeKeyword(text)
  {
    if text == "" {
      return false;
    }
    var lowered := Lower(text);
    for k := 0 to |IcpeKeywords|
      invariant forall i :: 0 <= i < k ==> !IsSubstring(IcpeKeywords[i], lowered)
    {
      if IsSubstring(IcpeKeywords[k], lowered) {
        return true;
      }
    }
    return false;
  }

  /** The keywords that contain "icpe" add nothing: the first ten decide alone. */
  lemma IcpeKeywordsBeyondTenAreRedundant(text: string)
    ensures HasIcpeKeyword(text) <==>
            text != "" && exists i :: 0 <= i < 11 && i != 3 && IsSubstring(IcpeKeywords[i], Lower(text))
  {
    var lowered := Lower(text);
    if HasIcpeKeyword(text) {
      var i :| 0 <= i < |IcpeKeywords| && IsSubstring(IcpeKeywords[i], lowered);
      if i == 3 || i == 11 || i == 12 {
        IcpeKeywordEndsInIcpe(i);
        SubstringTransitive(IcpeKeywords[0], IcpeKeywords[i], lowered);
      }
    }
  }

  /** The three keywords that end in "icpe" contain the first keyword. */
  lemma IcpeKeywordEndsInIcpe(i: nat)
    requires i == 3 || i == 11 || i == 12
    ensures IsSubstring(IcpeKeywords[0], IcpeKeywords[i])
  {
    var k := IcpeKeywords[i];
    assert k[|k| - 4..] == "icpe";
    assert OccursAt("icpe", k, |k| - 4);
  }

  /** The ICPE screen ignores letter case. */
  lemma IcpeScreenIgnoresCase(text: string)
    ensures HasIcpeKeyword(Upper(text)) == HasIcpeKeyword(text)
  {
    LowerOfUpper(text);
  }
}
