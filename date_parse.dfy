/** Reading the "last updated" date out of a search-result card's detail line:
    `parse_date_from_detail` in scraper/analysis.py (three case-insensitive
    patterns) and its older copy in scraper/scraper.py (one case-sensitive
    pattern). A regular-expression search is modelled as the leftmost position
    where the whole pattern matches. */
module DateParse {
  import opened Wrappers
  import opened Text
  import opened Dates

  /** A pattern `<prefix>(\d{1,2})/(\d{1,2})/(\d{4})`, compiled with or without `re.IGNORECASE`. */
  datatype Pattern = Pattern(prefix: string, ignoreCase: bool)

  const MisAJourLe: string := "Mis à jour le "
  const PublieLe: string := "Publié le "
  const LeDate: string := "Le "

  /** The patterns of scraper/analysis.py, in the order they are tried. */
  const DatePatterns: seq<Pattern> :=
    [Pattern(MisAJourLe, true), Pattern(PublieLe, true), Pattern(LeDate, true)]

  /** The one pattern of the older parser in scraper/scraper.py. */
  const LegacyPattern: Pattern := Pattern(MisAJourLe, false)

  /** Two chars match under the pattern's case rule. */
  predicate CharMatches(ignoreCase: bool, p: char, c: char)
  {
    if ignoreCase then LowerChar(p) == LowerChar(c) else p == c
  }

  /** The pattern's literal prefix matches `s` at position `i`. */
  predicate PrefixAt(p: Pattern, s: string, i: nat)
  {
    i + |p.prefix| <= |s|
    && forall k :: 0 <= k < |p.prefix| ==> CharMatches(p.ignoreCase, p.prefix[k], s[i + k])
  }

  /** `(\d{1,2})/` at position `j`: the number and the position after the slash.
      The greedy two-digit reading is tried first; backing off to one digit
      succeeds only when the second char is the slash. */
  function NumberSlashAt(s: string, j: nat): (r: Option<(nat, nat)>)
    ensures r.Some? ==> j + 2 <= r.value.1 <= j + 3 && r.value.1 <= |s| && r.value.0 < 100
  {
    if j + 3 <= |s| && IsDigit(s[j]) && IsDigit(s[j + 1]) && s[j + 2] == '/' then
      Some((10 * DigitValue(s[j]) + DigitValue(s[j + 1]), j + 3))
    else if j + 2 <= |s| && IsDigit(s[j]) && s[j + 1] == '/' then
      Some((DigitValue(s[j]), j + 2))
    else
      None
  }

  /** `(\d{4})` at position `j`. */
  function YearAt(s: string, j: nat): (r: Option<nat>)
    ensures r.Some? ==> j + 4 <= |s| && r.value < 10000
  {
    if j + 4 <= |s| && IsDigit(s[j]) && IsDigit(s[j + 1]) && IsDigit(s[j + 2]) && IsDigit(s[j + 3]) then
      Some(100 * (10 * DigitValue(s[j]) + DigitValue(s[j + 1])) + 10 * DigitValue(s[j + 2]) + DigitValue(s[j + 3]))
    else
      None
  }

  /** The whole pattern matched at position `i`: the groups (day, month, year)
      as a (not yet validated) date. */
  function MatchAt(p: Pattern, s: string, i: nat): (r: Option<Date>)
    ensures r.Some? ==> i + |p.prefix| + 8 <= |s|
  {
    if !PrefixAt(p, s, i) then None
    else
      match NumberSlashAt(s, i + |p.prefix|)
      case None => None
      case Some((day, j)) =>
        match NumberSlashAt(s, j)
        case None => None
        case Some((month, k)) =>
          match YearAt(s, k)
          case None => None
          case Some(year) => Some(Date(year, month, day))
  }

  /** The leftmost position at or after `i` where the pattern matches. */
  function SearchFrom(p: Pattern, s: string, i: nat): (r: Option<nat>)
    ensures r.Some? ==> i <= r.value <= |s| && MatchAt(p, s, r.value).Some?
    ensures r.Some? ==> forall j: nat :: i <= j < r.value ==> MatchAt(p, s, j).None?
    ensures r.None? ==> forall j: nat :: i <= j ==> MatchAt(p, s, j).None?
    decreases |s| - i
  {
    if i > |s| then None
    else if MatchAt(p, s, i).Some? then Some(i)
    else SearchFrom(p, s, i + 1)
  }

  /** `pattern.search(s)`: the groups of the leftmost match, if any. */
  function Search(p: Pattern, s: string): Option<Date>
  {
    match SearchFrom(p, s, 0)
    case None => None
    case Some(i) => MatchAt(p, s, i)
  }

  /** The groups of the first pattern, in order, that matches anywhere. */
  function FirstMatch(pats: seq<Pattern>, s: string): Option<Date>
  {
    if pats == [] then None
    else if Search(pats[0], s).Some? then Search(pats[0], s)
    else FirstMatch(pats[1..], s)
  }

  /** What scraper/analysis.py's `parse_date_from_detail` returns: midnight of the
      first pattern's leftmost date when that date exists, and the current time
      `wallNow` when no pattern matches or the matched date is invalid (the
      invalid case stops the search instead of trying the next pattern). */
  function DateFromDetail(detail: Option<string>, wallNow: Instant): Instant
  {
    match FirstMatch(DatePatterns, detail.GetOr(""))
    case None => wallNow
    case Some(d) => if IsValidDate(d) then Midnight(d) else wallNow
  }

  /** `parse_date_from_detail` of scraper/analysis.py, trying the patterns in a loop. */
  method ParseDateFromDetail(detail: Option<string>, wallNow: Instant) returns (r: Instant)
    ensures r == DateFromDetail(detail, wallNow)
  {
    var text := detail.GetOr("");
    for k := 0 to |DatePatterns|
      invariant FirstMatch(DatePatterns, text) == FirstMatch(DatePatterns[k..], text)
    {
      assert DatePatterns[k..][1..] == DatePatterns[k + 1..];
      var m := Search(DatePatterns[k], text);
      if m.Some? {
        if IsValidDate(m.value) {
          return Midnight(m.value);
        }
        return wallNow;
      }
    }
    return wallNow;
  }

  /** What scraper/scraper.py's `parse_date_from_detail` returns: only the exact,
      case-sensitive "Mis à jour le" pattern is tried; a missing text (the search
      raises), no match or an invalid date all give the current time. */
  function LegacyDateFromDetail(detail: Option<string>, wallNow: Instant): Instant
  {
    match detail
    case None => wallNow
    case Some(text) =>
      match Search(LegacyPattern, text)
      case None => wallNow
      case Some(d) => if IsValidDate(d) then Midnight(d) else wallNow
  }

  // ---------------------------------------------------------------------------
  // Properties
  // ---------------------------------------------------------------------------

  /** A successful search yields the groups of the leftmost match. */
  lemma SearchIsLeftmost(p: Pattern, s: string, d: Date)
    requires Search(p, s) == Some(d)
    ensures exists i: nat :: MatchAt(p, s, i) == Some(d)
                             && forall j: nat :: j < i ==> MatchAt(p, s, j).None?
  {
    var i := SearchFrom(p, s, 0).value;
    assert MatchAt(p, s, i) == Some(d);
  }

  /** A failed search means the pattern matches nowhere. */
  lemma SearchNone(p: Pattern, s: string)
    ensures Search(p, s).None? <==> forall i: nat :: MatchAt(p, s, i).None?
  {
  }

  /** `FirstMatch` picks the first pattern in the list that matches, and only then. */
  lemma FirstMatchSpec(pats: seq<Pattern>, s: string, d: Date)
    ensures FirstMatch(pats, s) == Some(d) <==>
            exists k :: 0 <= k < |pats| && Search(pats[k], s) == Some(d)
                        && forall k' :: 0 <= k' < k ==> Search(pats[k'], s).None?
  {
    if FirstMatch(pats, s) == Some(d) {
      FirstMatchFound(pats, s, d);
    }
    if exists k :: 0 <= k < |pats| && Search(pats[k], s) == Some(d)
                   && forall k' :: 0 <= k' < k ==> Search(pats[k'], s).None? {
      var k :| 0 <= k < |pats| && Search(pats[k], s) == Some(d)
               && forall k' :: 0 <= k' < k ==> Search(pats[k'], s).None?;
      FirstMatchAt(pats, s, d, k);
    }
  }

  /** What `FirstMatch` returns comes from the first pattern that matches. */
  lemma {:induction false} FirstMatchFound(pats: seq<Pattern>, s: string, d: Date)
    requires FirstMatch(pats, s) == Some(d)
    ensures exists k :: 0 <= k < |pats| && Search(pats[k], s) == Some(d)
                        && forall k' :: 0 <= k' < k ==> Search(pats[k'], s).None?
  {
    if Search(pats[0], s).None? {
      FirstMatchFound(pats[1..], s, d);
      var k :| 0 <= k < |pats[1..]| && Search(pats[1..][k], s) == Some(d)
               && forall k' :: 0 <= k' < k ==> Search(pats[1..][k'], s).None?;
      assert Search(pats[k + 1], s) == Some(d);
      forall k' | 0 <= k' < k + 1 ensures Search(pats[k'], s).None? {
        if k' > 0 {
          assert pats[k'] == pats[1..][k' - 1];
        }
      }
    } else {
      assert Search(pats[0], s) == Some(d);
    }
  }

  /** The first pattern that matches decides what `FirstMatch` returns. */
  lemma {:induction false} FirstMatchAt(pats: seq<Pattern>, s: string, d: Date, k: nat)
    requires k < |pats| && Search(pats[k], s) == Some(d)
    requires forall k' :: 0 <= k' < k ==> Search(pats[k'], s).None?
    ensures FirstMatch(pats, s) == Some(d)
  {
    if k > 0 {
      assert Search(pats[0], s).None?;
      assert pats[1..][k - 1] == pats[k];
      forall k' | 0 <= k' < k - 1 ensures Search(pats[1..][k'], s).None? {
        assert pats[1..][k'] == pats[k' + 1];
      }
      FirstMatchAt(pats[1..], s, d, k - 1);
    }
  }

  /** A case-sensitive match is also a case-insensitive match, with the same groups. */
  lemma CaseSensitiveMatchIsCaseInsensitiveMatch(prefix: string, s: string, i: nat)
    requires MatchAt(Pattern(prefix, false), s, i).Some?
    ensures MatchAt(Pattern(prefix, true), s, i) == MatchAt(Pattern(prefix, false), s, i)
  {
    assert PrefixAt(Pattern(prefix, true), s, i);
  }

  /** When the older parser's exact "Mis à jour le" match is also the leftmost
      case-insensitive one, both parsers read the same date. */
  lemma LegacyAgreesWhenMatchIsLeftmost(text: string, wallNow: Instant, i: nat)
    requires MatchAt(LegacyPattern, text, i).Some?
    requires forall j: nat :: j < i ==> MatchAt(DatePatterns[0], text, j).None?
    ensures LegacyDateFromDetail(Some(text), wallNow) == DateFromDetail(Some(text), wallNow)
  {
    CaseSensitiveMatchIsCaseInsensitiveMatch(MisAJourLe, text, i);
    LeftmostMatchIsFound(DatePatterns[0], text, i);
    forall j: nat | j < i ensures MatchAt(LegacyPattern, text, j).None? {
      if MatchAt(LegacyPattern, text, j).Some? {
        CaseSensitiveMatchIsCaseInsensitiveMatch(MisAJourLe, text, j);
      }
    }
    LeftmostMatchIsFound(LegacyPattern, text, i);
  }

  /** A search finds a match with none to its left. */
  lemma LeftmostMatchIsFound(p: Pattern, s: string, i: nat)
    requires MatchAt(p, s, i).Some?
    requires forall j: nat :: j < i ==> MatchAt(p, s, j).None?
    ensures SearchFrom(p, s, 0) == Some(i) && Search(p, s) == MatchAt(p, s, i)
  {
  }

  // ---------------------------------------------------------------------------
  // Round trip with the "DD/MM/YYYY" form the cards use
  // ---------------------------------------------------------------------------

  /** `n` written with exactly two digits. */
  function TwoDigits(n: nat): (r: string)
    requires n < 100
    ensures |r| == 2 && AllDigits(r) && 10 * DigitValue(r[0]) + DigitValue(r[1]) == n
  {
    [DigitChar(n / 10), DigitChar(n % 10)]
  }

  /** `n` written with exactly four digits. */
  function FourDigits(n: nat): (r: string)
    requires n < 10000
    ensures |r| == 4 && AllDigits(r)
    ensures 100 * (10 * DigitValue(r[0]) + DigitValue(r[1])) + 10 * DigitValue(r[2]) + DigitValue(r[3]) == n
  {
    TwoDigits(n / 100) + TwoDigits(n % 100)
  }

  /** A date written "DD/MM/YYYY", as `strftime("%d/%m/%Y")` writes it. */
  function Render(d: Date): (r: string)
    requires IsValidDate(d)
    ensures |r| == 10
  {
    TwoDigits(d.day) + "/" + TwoDigits(d.month) + "/" + FourDigits(d.year)
  }

  lemma MatchRendered(p: Pattern, d: Date)
    requires IsValidDate(d)
    ensures MatchAt(p, p.prefix + Render(d), 0) == Some(d)
  {
    var s := p.prefix + Render(d);
    var n := |p.prefix|;
    assert PrefixAt(p, s, 0) by {
      forall k | 0 <= k < n ensures CharMatches(p.ignoreCase, p.prefix[k], s[k]) {
        assert s[k] == p.prefix[k];
      }
    }
    assert s[n..n + 2] == TwoDigits(d.day);
    assert s[n + 3..n + 5] == TwoDigits(d.month);
    assert s[n + 6..n + 10] == FourDigits(d.year);
    assert NumberSlashAt(s, n) == Some((d.day, n + 3));
    assert NumberSlashAt(s, n + 3) == Some((d.month, n + 6));
  }

  /** Any valid date written after any of the three prefixes is read back exactly. */
  lemma RenderedDateRoundTrip(k: nat, d: Date, wallNow: Instant)
    requires k < |DatePatterns| && IsValidDate(d)
    ensures DateFromDetail(Some(DatePatterns[k].prefix + Render(d)), wallNow) == Midnight(d)
  {
    var s := DatePatterns[k].prefix + Render(d);
    MatchRendered(DatePatterns[k], d);
    assert SearchFrom(DatePatterns[k], s, 0) == Some(0);
    // The earlier patterns have longer prefixes than the text leaves room for.
    forall k' | 0 <= k' < k ensures Search(DatePatterns[k'], s).None? {
      assert |s| < |DatePatterns[k'].prefix| + 8;
    }
    FirstMatchSpec(DatePatterns, s, d);
  }

  /** The older parser reads back a date written after "Mis à jour le". */
  lemma LegacyRenderedDateRoundTrip(d: Date, wallNow: Instant)
    requires IsValidDate(d)
    ensures LegacyDateFromDetail(Some(MisAJourLe + Render(d)), wallNow) == Midnight(d)
  {
    MatchRendered(LegacyPattern, d);
    assert SearchFrom(LegacyPattern, MisAJourLe + Render(d), 0) == Some(0);
  }

  /** The two parsers disagree on a "Publié le" line: the newer one reads the
      date, the older one falls back to the current time. */
  lemma PublishedLineReadOnlyByNewParser(d: Date, wallNow: Instant)
    requires IsValidDate(d)
    ensures DateFromDetail(Some(PublieLe + Render(d)), wallNow) == Midnight(d)
    ensures LegacyDateFromDetail(Some(PublieLe + Render(d)), wallNow) == wallNow
  {
    RenderedDateRoundTrip(1, d, wallNow);
    assert |PublieLe + Render(d)| < |MisAJourLe| + 8;
    SearchNone(LegacyPattern, PublieLe + Render(d));
  }

  /** An impossible first date stops the parse: the valid date after it is not
      tried, and the current time is returned. */
  lemma InvalidFirstDateFallsBack(wallNow: Instant)
    ensures DateFromDetail(Some("Mis à jour le 31/02/2024 Publié le 01/03/2024"), wallNow) == wallNow
  {
    var s := "Mis à jour le 31/02/2024 Publié le 01/03/2024";
    assert MatchAt(DatePatterns[0], s, 0) == Some(Date(2024, 2, 31));
    assert SearchFrom(DatePatterns[0], s, 0) == Some(0);
  }
}
