/** The PDF enrichment step of `save_to_database` (scraper/analysis.py): the
    sample of linked PDFs, the texts appended under per-PDF and total
    character caps, and the corpus handed back to the document-info oracle. */
module Enrichment {
  import opened Text

  /** At most this many PDFs are sampled. */
  const PdfCap: nat := 5
  /** `PER_PDF_CHAR_LIMIT`. */
  const PerPdfCharLimit: nat := 200_000
  /** `TOTAL_PDF_CHAR_BUDGET`. */
  const TotalPdfCharBudget: nat := 400_000

  predicate Distinct(s: seq<string>)
  {
    forall i, j :: 0 <= i < j < |s| ==> s[i] != s[j]
  }

  // ---------------------------------------------------------------------------
  // PDF sample
  // ---------------------------------------------------------------------------

  /** The links stripped of surrounding whitespace, the empty ones dropped, in order. */
  function StrippedLinks(links: seq<string>): (r: seq<string>)
    ensures |r| <= |links|
    ensures forall x :: x in r ==> x != ""
  {
    if links == [] then []
    else
      var u := Strip(links[|links| - 1]);
      if u == "" then StrippedLinks(links[..|links| - 1]) else StrippedLinks(links[..|links| - 1]) + [u]
  }

  /** Every stripped link is the non-empty stripped form of one of the links. */
  lemma {:induction false} StrippedLinksSound(links: seq<string>)
    ensures forall x :: x in StrippedLinks(links) ==> exists i :: 0 <= i < |links| && Strip(links[i]) == x
  {
    if links != [] {
      var init := links[..|links| - 1];
      StrippedLinksSound(init);
      forall x | x in StrippedLinks(links)
        ensures exists i :: 0 <= i < |links| && Strip(links[i]) == x
      {
        if x in StrippedLinks(init) {
          var i :| 0 <= i < |init| && Strip(init[i]) == x;
          assert links[i] == init[i];
        } else {
          assert Strip(links[|links| - 1]) == x;
        }
      }
    }
  }

  /** Every link whose stripped form is non-empty is among the stripped links. */
  lemma {:induction false} StrippedLinksComplete(links: seq<string>)
    ensures forall i :: 0 <= i < |links| && Strip(links[i]) != "" ==> Strip(links[i]) in StrippedLinks(links)
  {
    if links != [] {
      var init := links[..|links| - 1];
      StrippedLinksComplete(init);
      forall i | 0 <= i < |links| && Strip(links[i]) != ""
        ensures Strip(links[i]) in StrippedLinks(links)
      {
        if i < |init| {
          assert init[i] == links[i];
        }
      }
    }
  }

  lemma {:induction false} StrippedLinksAppend(a: seq<string>, b: seq<string>)
    ensures StrippedLinks(a + b) == StrippedLinks(a) + StrippedLinks(b)
    decreases |b|
  {
    if b != [] {
      var b' := b[..|b| - 1];
      assert (a + b)[..|a + b| - 1] == a + b';
      StrippedLinksAppend(a, b');
    } else {
      assert a + b == a;
    }
  }

  /** Each string at its first occurrence, in order of first occurrence. */
  function FirstOccurrences(s: seq<string>): (r: seq<string>)
    ensures |r| <= |s|
  {
    if s == [] then []
    else
      var p := FirstOccurrences(s[..|s| - 1]);
      if s[|s| - 1] in p then p else p + [s[|s| - 1]]
  }

  /** The first occurrences are pairwise distinct and are exactly the strings
      of the input. */
  lemma {:induction false} FirstOccurrencesSpec(s: seq<string>)
    ensures Distinct(FirstOccurrences(s))
    ensures forall x :: x in FirstOccurrences(s) <==> x in s
  {
    if s != [] {
      var init := s[..|s| - 1];
      FirstOccurrencesSpec(init);
      assert forall x :: x in s <==> x in init || x == s[|s| - 1];
    }
  }

  /** Extending the input only extends the list of first occurrences. */
  lemma {:induction false} FirstOccurrencesPrefix(a: seq<string>, b: seq<string>)
    ensures |FirstOccurrences(a)| <= |FirstOccurrences(a + b)|
    ensures FirstOccurrences(a + b)[..|FirstOccurrences(a)|] == FirstOccurrences(a)
    decreases |b|
  {
    if b == [] {
      assert a + b == a;
    } else {
      var b' := b[..|b| - 1];
      assert (a + b)[..|a + b| - 1] == a + b';
      FirstOccurrencesPrefix(a, b');
    }
  }

  function Take(s: seq<string>, n: nat): (r: seq<string>)
  {
    if |s| <= n then s else s[..n]
  }

  /** `pdf_sample`: the first five distinct stripped non-empty links. */
  function PdfSample(links: seq<string>): seq<string>
  {
    Take(FirstOccurrences(StrippedLinks(links)), PdfCap)
  }

  /** The sample holds stripped, non-empty, pairwise distinct links, at most five
      of them; when it holds fewer than five it has every non-empty stripped link. */
  lemma PdfSampleSpec(links: seq<string>)
    ensures var r := PdfSample(links);
            |r| <= PdfCap && Distinct(r)
            && (forall x :: x in r ==> x != "" && exists i :: 0 <= i < |links| && Strip(links[i]) == x)
            && (|r| < PdfCap ==> forall i :: 0 <= i < |links| && Strip(links[i]) != "" ==> Strip(links[i]) in r)
  {
    var f := FirstOccurrences(StrippedLinks(links));
    var r := PdfSample(links);
    FirstOccurrencesSpec(StrippedLinks(links));
    StrippedLinksSound(links);
    StrippedLinksComplete(links);
    assert forall x :: x in r ==> x in f;
    if |r| < PdfCap {
      assert r == f;
      forall i | 0 <= i < |links| && Strip(links[i]) != ""
        ensures Strip(links[i]) in r
      {
        assert Strip(links[i]) in StrippedLinks(links);
        assert Strip(links[i]) in f;
      }
    }
  }

  lemma StrippedLinksSnoc(links: seq<string>, k: nat)
    requires k < |links|
    ensures StrippedLinks(links[..k + 1]) ==
            if Strip(links[k]) == "" then StrippedLinks(links[..k]) else StrippedLinks(links[..k]) + [Strip(links[k])]
  {
    assert links[..k + 1][..k] == links[..k];
  }

  lemma FirstOccurrencesSnoc(s: seq<string>, u: string)
    ensures FirstOccurrences(s + [u]) == if u in FirstOccurrences(s) then FirstOccurrences(s) else FirstOccurrences(s) + [u]
  {
    assert (s + [u])[..|s|] == s;
  }

  /** One more link adds its stripped form to the distinct ones found so far,
      unless it is blank or already there. */
  lemma SampleStep(links: seq<string>, k: nat, sample: seq<string>)
    requires k < |links| && sample == FirstOccurrences(StrippedLinks(links[..k]))
    ensures var u := Strip(links[k]);
            FirstOccurrences(StrippedLinks(links[..k + 1]))
            == if u == "" || u in sample then sample else sample + [u]
  {
    StrippedLinksSnoc(links, k);
    if Strip(links[k]) != "" {
      FirstOccurrencesSnoc(StrippedLinks(links[..k]), Strip(links[k]));
    }
  }

  /** Once the first `k` links give five distinct ones, the rest are not looked at. */
  lemma SampleFullAt(links: seq<string>, k: nat)
    requires k <= |links|
    requires |FirstOccurrences(StrippedLinks(links[..k]))| == PdfCap
    ensures PdfSample(links) == FirstOccurrences(StrippedLinks(links[..k]))
  {
    assert links == links[..k] + links[k..];
    StrippedLinksAppend(links[..k], links[k..]);
    FirstOccurrencesPrefix(StrippedLinks(links[..k]), StrippedLinks(links[k..]));
  }

  /** One pass of the sampling loop: the link is stripped and kept when it is
      non-empty and not yet seen. */
  method SampleLink(links: seq<string>, k: nat, sample: seq<string>, seen: set<string>)
    returns (sample': seq<string>, seen': set<string>)
    requires k < |links| && sample == FirstOccurrences(StrippedLinks(links[..k]))
    requires forall x :: x in seen <==> x in sample
    ensures sample' == FirstOccurrences(StrippedLinks(links[..k + 1]))
    ensures forall x :: x in seen' <==> x in sample'
    ensures |sample'| <= |sample| + 1
  {
    var u := Strip(links[k]);
    SampleStep(links, k, sample);
    sample', seen' := sample, seen;
    if u != "" && u !in seen {
      seen' := seen + {u};
      sample' := sample + [u];
    }
  }

  /** The sampling loop of `save_to_database`, with its `seen` set. */
  method SamplePdfLinks(links: seq<string>) returns (sample: seq<string>)
    ensures sample == PdfSample(links)
  {
    sample := [];
    var seen: set<string> := {};
    var k := 0;
    while k < |links| && |sample| < PdfCap
      invariant k <= |links|
      invariant sample == FirstOccurrences(StrippedLinks(links[..k]))
      invariant forall x :: x in seen <==> x in sample
      invariant |sample| <= PdfCap
    {
      sample, seen := SampleLink(links, k, sample, seen);
      k := k + 1;
    }
    if |sample| == PdfCap {
      SampleFullAt(links, k);
    } else {
      assert links[..k] == links;
    }
  }

  // ---------------------------------------------------------------------------
  // Appended PDF texts
  // ---------------------------------------------------------------------------

  function SumLengths(texts: seq<string>): nat
  {
    if texts == [] then 0 else SumLengths(texts[..|texts| - 1]) + |texts[|texts| - 1]|
  }

  /** `s[:n]`. */
  function Clip(s: string, n: nat): (r: string)
  {
    if |s| > n then s[..n] else s
  }

  /** One step of the text-collection loop: the text `t` extracted from the next
      PDF is skipped when it is empty or the budget is spent, else cut to the
      per-PDF limit and then to what is left of the total budget. */
  function BudgetStep(prev: seq<string>, t: string): seq<string>
  {
    var total := SumLengths(prev);
    if total >= TotalPdfCharBudget || t == "" then prev
    else prev + [Clip(Clip(t, PerPdfCharLimit), TotalPdfCharBudget - total)]
  }

  lemma SumLengthsSnoc(prev: seq<string>, t: string)
    ensures SumLengths(prev + [t]) == SumLengths(prev) + |t|
  {
    assert (prev + [t])[..|prev|] == prev;
  }

  /** The texts appended for the sampled PDFs `urls`; together they stay within the total budget. */
  function Budgeted(urls: seq<string>, pdfText: string -> string): (r: seq<string>)
    ensures SumLengths(r) <= TotalPdfCharBudget
  {
    if urls == [] then []
    else
      var prev := Budgeted(urls[..|urls| - 1], pdfText);
      var t := pdfText(urls[|urls| - 1]);
      SumLengthsSnoc(prev, Clip(Clip(t, PerPdfCharLimit), TotalPdfCharBudget - SumLengths(prev)));
      BudgetStep(prev, t)
  }

  /** At most one text per sampled PDF; each is non-empty and at most the per-PDF limit long. */
  lemma {:induction false} BudgetedBounds(urls: seq<string>, pdfText: string -> string)
    ensures |Budgeted(urls, pdfText)| <= |urls|
    ensures forall i :: 0 <= i < |Budgeted(urls, pdfText)| ==>
              Budgeted(urls, pdfText)[i] != "" && |Budgeted(urls, pdfText)[i]| <= PerPdfCharLimit
  {
    if urls != [] {
      var prev := Budgeted(urls[..|urls| - 1], pdfText);
      BudgetedBounds(urls[..|urls| - 1], pdfText);
      var r := Budgeted(urls, pdfText);
      assert r == prev || (|r| == |prev| + 1 && r[..|prev|] == prev && r[|prev|] != "" && |r[|prev|]| <= PerPdfCharLimit);
    }
  }

  /** Every appended text is the start of the text extracted from one of the sampled PDFs. */
  lemma {:induction false} BudgetedTextComesFromPdf(urls: seq<string>, pdfText: string -> string, i: nat)
    requires i < |Budgeted(urls, pdfText)|
    ensures exists j :: 0 <= j < |urls| && StartsWith(pdfText(urls[j]), Budgeted(urls, pdfText)[i])
  {
    var init := urls[..|urls| - 1];
    var prev := Budgeted(init, pdfText);
    var r := Budgeted(urls, pdfText);
    if i < |prev| {
      assert r[i] == prev[i] by {
        assert r == prev || r[..|prev|] == prev;
      }
      BudgetedTextComesFromPdf(init, pdfText, i);
      var j :| 0 <= j < |init| && StartsWith(pdfText(init[j]), prev[i]);
      assert init[j] == urls[j];
    } else {
      var t := pdfText(urls[|urls| - 1]);
      var c := Clip(t, PerPdfCharLimit);
      var d := Clip(c, TotalPdfCharBudget - SumLengths(prev));
      assert r == prev + [d] && r[i] == d;
      assert c == t[..|c|] && d == c[..|d|];
      assert StartsWith(pdfText(urls[|urls| - 1]), r[i]);
    }
  }

  /** Once the budget is spent, further PDFs add nothing. */
  lemma {:induction false} BudgetedSaturated(a: seq<string>, b: seq<string>, pdfText: string -> string)
    requires SumLengths(Budgeted(a, pdfText)) >= TotalPdfCharBudget
    ensures Budgeted(a + b, pdfText) == Budgeted(a, pdfText)
    decreases |b|
  {
    if b == [] {
      assert a + b == a;
    } else {
      var b' := b[..|b| - 1];
      assert (a + b)[..|a + b| - 1] == a + b';
      BudgetedSaturated(a, b', pdfText);
    }
  }

  /** Each non-empty extraction cut to the per-PDF limit, with no total budget. */
  function PerPdfClips(urls: seq<string>, pdfText: string -> string): seq<string>
  {
    if urls == [] then []
    else
      var t := pdfText(urls[|urls| - 1]);
      var prev := PerPdfClips(urls[..|urls| - 1], pdfText);
      if t == "" then prev else prev + [Clip(t, PerPdfCharLimit)]
  }

  /** While the total budget is not reached, only the per-PDF limit has cut anything. */
  lemma {:induction false} UnderBudgetOnlyPerPdfLimitApplies(urls: seq<string>, pdfText: string -> string)
    requires SumLengths(Budgeted(urls, pdfText)) < TotalPdfCharBudget
    ensures Budgeted(urls, pdfText) == PerPdfClips(urls, pdfText)
  {
    if urls != [] {
      var init := urls[..|urls| - 1];
      var prev := Budgeted(init, pdfText);
      var t := pdfText(urls[|urls| - 1]);
      if SumLengths(prev) < TotalPdfCharBudget && t != "" {
        var c := Clip(t, PerPdfCharLimit);
        var d := Clip(c, TotalPdfCharBudget - SumLengths(prev));
        SumLengthsSnoc(prev, d);
        assert SumLengths(prev) + |d| < TotalPdfCharBudget;
        assert d == c;
      }
      UnderBudgetOnlyPerPdfLimitApplies(init, pdfText);
    }
  }

  lemma BudgetedSnoc(urls: seq<string>, k: nat, pdfText: string -> string)
    requires k < |urls|
    ensures Budgeted(urls[..k + 1], pdfText) == BudgetStep(Budgeted(urls[..k], pdfText), pdfText(urls[k]))
  {
    assert urls[..k + 1][..k] == urls[..k];
  }

  /** One pass of the text-collection loop: an empty text is skipped, any
      other is cut to the per-PDF limit and to what is left of the budget. */
  method AppendPdfText(texts: seq<string>, total: nat, text: string) returns (texts': seq<string>, total': nat)
    requires total == SumLengths(texts) && total < TotalPdfCharBudget
    ensures texts' == BudgetStep(texts, text)
    ensures total' == SumLengths(texts')
  {
    texts', total' := texts, total;
    if text == "" {
      return;
    }
    var clipped := text;
    if |clipped| > PerPdfCharLimit {
      clipped := clipped[..PerPdfCharLimit];
    }
    var remaining := TotalPdfCharBudget - total;
    if |clipped| > remaining {
      clipped := clipped[..remaining];
    }
    assert clipped == Clip(Clip(text, PerPdfCharLimit), remaining);
    SumLengthsSnoc(texts, clipped);
    texts' := texts + [clipped];
    total' := total + |clipped|;
  }

  /** The text-collection loop of `save_to_database`, with its running total. */
  method CollectPdfTexts(urls: seq<string>, pdfText: string -> string) returns (texts: seq<string>, total: nat)
    ensures texts == Budgeted(urls, pdfText)
    ensures total == SumLengths(texts)
  {
    texts := [];
    total := 0;
    var k := 0;
    while k < |urls| && total < TotalPdfCharBudget
      invariant k <= |urls|
      invariant texts == Budgeted(urls[..k], pdfText)
      invariant total == SumLengths(texts)
    {
      BudgetedSnoc(urls, k, pdfText);
      texts, total := AppendPdfText(texts, total, pdfText(urls[k]));
      k := k + 1;
    }
    if k < |urls| {
      assert urls == urls[..k] + urls[k..];
      BudgetedSaturated(urls[..k], urls[k..], pdfText);
    } else {
      assert urls[..k] == urls;
    }
  }

  // ---------------------------------------------------------------------------
  // Enriched corpus
  // ---------------------------------------------------------------------------

  const PageTextStart: string := "==== PAGE TEXT START ===="
  const PageTextEnd: string := "==== PAGE TEXT END ===="
  const PdfTextStart: string := "==== LINKED PDF TEXT START ===="
  const PdfTextEnd: string := "==== LINKED PDF TEXT END ===="
  const NextPdf: string := "\n\n==== NEXT PDF ====\n\n"

  /** `enriched_text`: the page text and the appended texts between markers. */
  function EnrichedText(pageText: string, texts: seq<string>): string
  {
    Join("\n\n", [PageTextStart, pageText, PageTextEnd, PdfTextStart, Join(NextPdf, texts), PdfTextEnd])
  }

  /** The enriched corpus opens with the page marker and contains the page text
      and every appended PDF text. */
  lemma EnrichedTextContainsItsSources(pageText: string, texts: seq<string>)
    ensures StartsWith(EnrichedText(pageText, texts), PageTextStart)
    ensures IsSubstring(pageText, EnrichedText(pageText, texts))
    ensures forall i :: 0 <= i < |texts| ==> IsSubstring(texts[i], EnrichedText(pageText, texts))
  {
    var parts := [PageTextStart, pageText, PageTextEnd, PdfTextStart, Join(NextPdf, texts), PdfTextEnd];
    var e := EnrichedText(pageText, texts);
    JoinStartsWithFirst("\n\n", parts);
    JoinContainsPart("\n\n", parts, 1);
    JoinContainsPart("\n\n", parts, 4);
    forall i | 0 <= i < |texts|
      ensures IsSubstring(texts[i], e)
    {
      JoinContainsPart(NextPdf, texts, i);
      SubstringTransitive(texts[i], Join(NextPdf, texts), e);
    }
  }
}
