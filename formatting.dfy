/** The plain-text report of scraper/utils/formatting.py
    (`format_results_pretty`): a banner, then for each keyword a header and,
    for each prefecture searched, a summary line with up to three example
    items, then a closing banner, all joined by newlines. */
module Formatting {
  import opened Wrappers
  import opened Text

  // ---------------------------------------------------------------------------
  // The results being reported
  // ---------------------------------------------------------------------------

  /** One result dict; each of the three keys may be missing. */
  datatype Item = Item(title: Option<string>, link: Option<string>, description: Option<string>)

  /** One entry of `data['prefectures']`: the prefecture's name and region,
      its results and the `count` reported for it (which the report does not
      check against the number of results). */
  datatype PrefectureResult = PrefectureResult(name: string, region: string, results: seq<Item>, count: int)

  /** One entry of `results_by_keyword`, in the dict's order. */
  datatype KeywordResult = KeywordResult(keyword: string, totalItems: int, prefectures: seq<PrefectureResult>)

  /** The width of the banner. */
  const BannerWidth: nat := 100

  /** How many items are shown per prefecture. */
  const ShownItems: nat := 3

  /** How many characters of a description are shown. */
  const ClipLength: nat := 100

  const Title: string := "ANIMAL KEYWORDS SCRAPING RESULTS"

  // ---------------------------------------------------------------------------
  // The lines
  // ---------------------------------------------------------------------------

  /** `"=" * 100`. */
  function Banner(): (r: string)
    ensures |r| == BannerWidth
    ensures forall i :: 0 <= i < |r| ==> r[i] == '='
  {
    Repeat('=', BannerWidth)
  }

  /** `description[:100]`: the first 100 characters, or all of a shorter one. */
  function Clip(s: string): (r: string)
    ensures |r| == if |s| < ClipLength then |s| else ClipLength
    ensures StartsWith(s, r)
  {
    if |s| <= ClipLength then s else s[..ClipLength]
  }

  function KeywordHeader(keyword: string): string
  {
    "\n--- KEYWORD: " + Upper(keyword) + " ---"
  }

  function TotalLine(totalItems: int): string
  {
    "Total items found: " + IntToString(totalItems)
  }

  /** The start of both prefecture summary lines: name and region. */
  function Heading(p: PrefectureResult): string
  {
    "\n  " + p.name + " (" + p.region + "): "
  }

  function CountLine(p: PrefectureResult): string
  {
    Heading(p) + IntToString(p.count) + " items"
  }

  function NoResultsLine(p: PrefectureResult): string
  {
    Heading(p) + "No results"
  }

  function ItemHeader(n: nat): string
  {
    "    Item " + NatToString(n) + ":"
  }

  /** A key line of an item: six spaces, the key, a colon and the value. */
  function FieldLine(key: string, value: string): string
  {
    "      " + key + ": " + value
  }

  function TitleLine(t: string): string
  {
    FieldLine("Title", t)
  }

  function LinkLine(l: string): string
  {
    FieldLine("Link", l)
  }

  function DescriptionLine(d: string): string
  {
    FieldLine("Description", Clip(d) + "...")
  }

  function MoreLine(n: nat): string
  {
    "    ... and " + NatToString(n) + " more items"
  }

  /** The lines of the keys an item has: title, link, description. */
  function FieldLines(item: Item): seq<string>
  {
    (match item.title case Some(t) => [TitleLine(t)] case None => [])
    + (match item.link case Some(l) => [LinkLine(l)] case None => [])
    + (match item.description case Some(d) => [DescriptionLine(d)] case None => [])
  }

  /** The lines of item number `n`: its header, then the keys it has. */
  function ItemLines(n: nat, item: Item): seq<string>
  {
    [ItemHeader(n)] + FieldLines(item)
  }

  /** The lines of `items`, numbered from 1. */
  function ItemsLines(items: seq<Item>): seq<string>
  {
    if items == [] then []
    else ItemsLines(items[..|items| - 1]) + ItemLines(|items|, items[|items| - 1])
  }

  /** `results[:3]`. */
  function Shown(results: seq<Item>): (r: seq<Item>)
    ensures |r| <= ShownItems && |r| <= |results| && r == results[..|r|]
    ensures |results| <= ShownItems ==> r == results
  {
    if |results| <= ShownItems then results else results[..ShownItems]
  }

  /** The lines of one prefecture: a count line with up to three items and a
      note of how many more there are, or a single "No results" line. */
  function PrefectureLines(p: PrefectureResult): seq<string>
  {
    if p.count > 0 then
      [CountLine(p)] + ItemsLines(Shown(p.results))
      + (if |p.results| > ShownItems then [MoreLine(|p.results| - ShownItems)] else [])
    else
      [NoResultsLine(p)]
  }

  /** The lines of each of `xs`, one block after another. */
  function Blocks<T>(xs: seq<T>, lines: T -> seq<string>): seq<string>
  {
    if xs == [] then []
    else Blocks(xs[..|xs| - 1], lines) + lines(xs[|xs| - 1])
  }

  /** One more element adds its block at the end. */
  lemma BlocksSnoc<T>(xs: seq<T>, j: nat, lines: T -> seq<string>)
    requires j < |xs|
    ensures Blocks(xs[..j + 1], lines) == Blocks(xs[..j], lines) + lines(xs[j])
  {
    assert xs[..j + 1][..j] == xs[..j];
  }

  /** A step of a formatting loop: appending the next element's lines to
      the blocks of the elements before it gives the blocks of one more. */
  lemma BlocksStep<T>(start: seq<string>, xs: seq<T>, j: nat, lines: T -> seq<string>,
                      before: seq<string>, after: seq<string>)
    requires j < |xs|
    requires before == start + Blocks(xs[..j], lines)
    requires after == before + lines(xs[j])
    ensures after == start + Blocks(xs[..j + 1], lines)
  {
    BlocksSnoc(xs, j, lines);
  }

  /** Appending a block to what is already there. */
  lemma AppendBlock(start: seq<string>, done: seq<string>, block: seq<string>)
    ensures start + done + block == start + (done + block)
  {
  }

  function KeywordLines(k: KeywordResult): seq<string>
  {
    [KeywordHeader(k.keyword), TotalLine(k.totalItems)] + Blocks(k.prefectures, PrefectureLines)
  }


  /** The opening lines: banner, title, banner. */
  function Opening(): seq<string>
  {
    [Banner(), Title, Banner()]
  }

  /** The closing line: a newline, then the banner. */
  function Closing(): string
  {
    "\n" + Banner()
  }

  /** Every line of the report, in order. */
  function ReportLines(ks: seq<KeywordResult>): seq<string>
  {
    Opening() + Blocks(ks, KeywordLines) + [Closing()]
  }

  /** The report: its lines joined by newlines. */
  function Report(ks: seq<KeywordResult>): string
  {
    Join("\n", ReportLines(ks))
  }

  // ---------------------------------------------------------------------------
  // What the report promises
  // ---------------------------------------------------------------------------

  /** Joined lines start with the joined head and a separator, and end with a
      separator and the last line. */
  lemma JoinFrame(sep: string, head: seq<string>, body: seq<string>, last: string)
    requires head != []
    ensures StartsWith(Join(sep, head + body + [last]), Join(sep, head) + sep)
    ensures EndsWith(Join(sep, head + body + [last]), sep + last)
  {
    JoinFrameStart(sep, head, body + [last]);
    assert head + (body + [last]) == head + body + [last];
    JoinFrameEnd(sep, head + body, last);
  }

  lemma JoinFrameStart(sep: string, head: seq<string>, rest: seq<string>)
    requires head != [] && rest != []
    ensures StartsWith(Join(sep, head + rest), Join(sep, head) + sep)
  {
    JoinAppend(sep, head, rest);
    PrefixOfConcat(Join(sep, head) + sep, Join(sep, rest));
  }

  lemma JoinFrameEnd(sep: string, init: seq<string>, last: string)
    requires init != []
    ensures EndsWith(Join(sep, init + [last]), sep + last)
  {
    JoinSnoc(sep, init, last);
    SeparatedSuffix(Join(sep, init), sep, last);
  }

  /** A concatenation starts with its left operand. */
  lemma PrefixOfConcat(a: string, b: string)
    ensures StartsWith(a + b, a)
  {
    assert (a + b)[..|a|] == a;
  }

  /** A separator and what follows it end the concatenation. */
  lemma SeparatedSuffix(a: string, sep: string, b: string)
    ensures EndsWith(a + sep + b, sep + b)
  {
    assert a + sep + b == a + (sep + b);
    SuffixOfConcat(a, sep + b);
  }

  /** A concatenation ends with its right operand. */
  lemma SuffixOfConcat(a: string, b: string)
    ensures EndsWith(a + b, b)
  {
    assert (a + b)[|a + b| - |b|..] == b;
  }

  /** The report opens with banner, title and banner on lines of their own,
      and closes with an empty line and the banner. */
  lemma ReportFrame(ks: seq<KeywordResult>)
    ensures StartsWith(Report(ks), Banner() + "\n" + Title + "\n" + Banner() + "\n")
    ensures EndsWith(Report(ks), "\n\n" + Banner())
  {
    JoinFrame("\n", Opening(), Blocks(ks, KeywordLines), Closing());
    JoinThree("\n", Banner(), Title, Banner());
    var b := Banner();
    assert "\n" + Closing() == "\n\n" + b;
  }

  /** Joining three lines puts a separator between each neighbouring pair. */
  lemma JoinThree(sep: string, a: string, b: string, c: string)
    ensures Join(sep, [a, b, c]) == a + sep + b + sep + c
  {
    JoinSnoc(sep, [a], b);
    JoinSnoc(sep, [a, b], c);
    assert [a] + [b] == [a, b];
    assert [a, b] + [c] == [a, b, c];
  }

  /** The blocks of the first `n` elements open the blocks of all of them. */
  lemma {:induction false} BlocksPrefix<T>(xs: seq<T>, n: nat, lines: T -> seq<string>)
    requires n <= |xs|
    ensures |Blocks(xs[..n], lines)| <= |Blocks(xs, lines)|
    ensures Blocks(xs, lines)[..|Blocks(xs[..n], lines)|] == Blocks(xs[..n], lines)
  {
    if n < |xs| {
      var init := xs[..|xs| - 1];
      BlocksPrefix(init, n, lines);
      assert init[..n] == xs[..n];
    } else {
      assert xs[..n] == xs;
    }
  }

  /** Each keyword's header, with the keyword upper-cased, and its total
      stand on two consecutive lines after everything said about the
      keywords before it. */
  lemma KeywordHeaderListed(ks: seq<KeywordResult>, i: nat)
    requires i < |ks|
    ensures var at := |Opening()| + |Blocks(ks[..i], KeywordLines)|;
            at + 1 < |ReportLines(ks)|
            && ReportLines(ks)[at] == "\n--- KEYWORD: " + Upper(ks[i].keyword) + " ---"
            && ReportLines(ks)[at + 1] == "Total items found: " + IntToString(ks[i].totalItems)
  {
    var before := Blocks(ks[..i], KeywordLines);
    BlocksSnoc(ks, i, KeywordLines);
    BlocksPrefix(ks, i + 1, KeywordLines);
    var upto := Blocks(ks[..i + 1], KeywordLines);
    var all := Blocks(ks, KeywordLines);
    assert upto == before + KeywordLines(ks[i]);
    assert all[|before|] == upto[|before|] == KeywordHeader(ks[i].keyword);
    assert all[|before| + 1] == upto[|before| + 1] == TotalLine(ks[i].totalItems);
    assert ReportLines(ks) == Opening() + (all + [Closing()]);
  }

  /** Item lines are indented by a space, and the fifth character of each is
      `I` for an item header and a space otherwise. */
  predicate IsItemLine(x: string)
  {
    |x| > 4 && x[0] == ' ' && (x[4] == 'I' || x[4] == ' ')
  }

  /** Item headers differ when their numbers differ. */
  lemma ItemHeaderInjective(m: nat, n: nat)
    requires ItemHeader(m) == ItemHeader(n)
    ensures m == n
  {
    var a, b := ItemHeader(m), ItemHeader(n);
    assert NatToString(m) == a[9..|a| - 1];
    assert NatToString(n) == b[9..|b| - 1];
    NatToStringInjective(m, n);
  }

  /** "More" lines differ when their counts differ. */
  lemma MoreLineInjective(m: nat, n: nat)
    requires MoreLine(m) == MoreLine(n)
    ensures m == n
  {
    var a, b := MoreLine(m), MoreLine(n);
    assert NatToString(m) == a[12..|a| - 11];
    assert NatToString(n) == b[12..|b| - 11];
    NatToStringInjective(m, n);
  }

  /** A key line starts with six spaces. */
  lemma FieldLineShape(key: string, value: string)
    ensures |FieldLine(key, value)| > 4
    ensures FieldLine(key, value)[0] == ' ' && FieldLine(key, value)[4] == ' '
  {
  }

  /** The key lines of an item are indented by six spaces, and there are at most three. */
  lemma FieldLinesShape(item: Item)
    ensures |FieldLines(item)| <= 3
    ensures forall x :: x in FieldLines(item) ==> |x| > 4 && x[0] == ' ' && x[4] == ' '
  {
    FieldLineShape("Title", item.title.GetOr(""));
    FieldLineShape("Link", item.link.GetOr(""));
    FieldLineShape("Description", Clip(item.description.GetOr("")) + "...");
  }

  /** The lines of one item are item lines, and the only header among them is its own. */
  lemma ItemLinesShape(m: nat, item: Item, n: nat)
    ensures forall x :: x in ItemLines(m, item) ==> IsItemLine(x)
    ensures ItemHeader(n) in ItemLines(m, item) <==> n == m
    ensures 1 <= |ItemLines(m, item)| <= 4
  {
    FieldLinesShape(item);
    assert ItemHeader(m)[0] == ' ' && ItemHeader(m)[4] == 'I';
    if ItemHeader(n) in ItemLines(m, item) && ItemHeader(n) == ItemHeader(m) {
      ItemHeaderInjective(m, n);
    }
  }

  /** `items` yields item lines only, with one header per item, numbered 1 to `|items|`. */
  lemma {:induction false} ItemsLinesShape(items: seq<Item>, n: nat)
    ensures forall x :: x in ItemsLines(items) ==> IsItemLine(x)
    ensures ItemHeader(n) in ItemsLines(items) <==> 1 <= n <= |items|
    ensures |items| <= |ItemsLines(items)| <= 4 * |items|
  {
    if items != [] {
      var init := items[..|items| - 1];
      ItemsLinesShape(init, n);
      ItemLinesShape(|items|, items[|items| - 1], n);
    }
  }

  /** The summary lines start a new paragraph; the "more" line is indented
      by four spaces and then shows dots. */
  lemma SummaryLinesShape(p: PrefectureResult, n: nat)
    ensures CountLine(p)[0] == '\n' && NoResultsLine(p)[0] == '\n'
    ensures |MoreLine(n)| > 4 && MoreLine(n)[0] == ' ' && MoreLine(n)[4] == '.'
    ensures |ItemHeader(n)| > 4 && ItemHeader(n)[0] == ' ' && ItemHeader(n)[4] == 'I'
  {
  }

  /** A prefecture with a positive count lists its first three results at
      most, numbered from 1, and a prefecture without one lists no item. */
  lemma ItemsShownPerPrefecture(p: PrefectureResult, n: nat)
    ensures ItemHeader(n) in PrefectureLines(p)
        <==> p.count > 0 && 1 <= n <= |p.results| && n <= ShownItems
  {
    var shown := Shown(p.results);
    ItemsLinesShape(shown, n);
    SummaryLinesShape(p, n);
    if p.count > 0 && |p.results| > ShownItems {
      SummaryLinesShape(p, |p.results| - ShownItems);
    }
  }

  /** The "... and N more items" line appears exactly when a prefecture
      with a positive count has more than three results, with N the number
      of results not shown. */
  lemma MoreLineWhenTruncated(p: PrefectureResult, m: nat)
    ensures MoreLine(m) in PrefectureLines(p)
        <==> p.count > 0 && |p.results| > ShownItems && m == |p.results| - ShownItems
  {
    SummaryLinesShape(p, m);
    if p.count > 0 {
      var items := ItemsLines(Shown(p.results));
      ItemsLinesShape(Shown(p.results), 0);
      assert MoreLine(m) !in items;
      if |p.results| > ShownItems {
        var rest := |p.results| - ShownItems;
        assert PrefectureLines(p) == [CountLine(p)] + items + [MoreLine(rest)];
        if MoreLine(m) == MoreLine(rest) {
          MoreLineInjective(m, rest);
        }
      } else {
        assert PrefectureLines(p) == [CountLine(p)] + items;
      }
    }
  }

  /** A prefecture without a positive count gets the single "No results"
      line; any other gets at most fourteen lines, whatever its number of results. */
  lemma PrefectureBlockSize(p: PrefectureResult)
    ensures p.count <= 0 ==> PrefectureLines(p) == [Heading(p) + "No results"]
    ensures p.count > 0 ==> PrefectureLines(p)[0] == Heading(p) + IntToString(p.count) + " items"
    ensures 1 <= |PrefectureLines(p)| <= 2 + 4 * ShownItems
  {
    ItemsLinesShape(Shown(p.results), 0);
  }

  /** A description is shown whole when it has at most 100 characters, and
      cut to its first 100 otherwise, always followed by `...`. */
  lemma DescriptionClipped(d: string)
    ensures |d| <= ClipLength ==> DescriptionLine(d) == "      Description: " + d + "..."
    ensures |d| > ClipLength ==> DescriptionLine(d) == "      Description: " + d[..ClipLength] + "..."
    ensures |DescriptionLine(d)| <= 19 + ClipLength + 3
  {
  }

  // ---------------------------------------------------------------------------
  // The formatter
  // ---------------------------------------------------------------------------

  /** One pass of the innermost loop: the lines of item number `n`. */
  method AppendItem(output: seq<string>, n: nat, item: Item) returns (out: seq<string>)
    ensures out == output + ItemLines(n, item)
  {
    out := output + [ItemHeader(n)];
    if item.title.Some? {
      out := out + [TitleLine(item.title.value)];
    }
    if item.link.Some? {
      out := out + [LinkLine(item.link.value)];
    }
    if item.description.Some? {
      out := out + [DescriptionLine(item.description.value)];
    }
  }

  /** The innermost loop: items numbered from 1, one after another. */
  method AppendItems(output: seq<string>, shown: seq<Item>) returns (out: seq<string>)
    ensures out == output + ItemsLines(shown)
  {
    out := output;
    var i := 0;
    while i < |shown|
      invariant i <= |shown|
      invariant out == output + ItemsLines(shown[..i])
    {
      out := AppendItem(out, i + 1, shown[i]);
      assert shown[..i + 1][..i] == shown[..i];
      i := i + 1;
    }
    assert shown[..i] == shown;
  }

  /** One pass of the prefecture loop: the count line, the first three items
      and the "more" note, or the "No results" line. */
  method AppendPrefecture(output: seq<string>, p: PrefectureResult) returns (out: seq<string>)
    ensures out == output + PrefectureLines(p)
  {
    if p.count > 0 {
      out := output + [CountLine(p)];
      ghost var head := out;
      out := AppendItems(out, Shown(p.results));
      ghost var items := ItemsLines(Shown(p.results));
      if |p.results| > ShownItems {
        AppendBlock(head, items, [MoreLine(|p.results| - ShownItems)]);
        out := out + [MoreLine(|p.results| - ShownItems)];
        AppendBlock(output, [CountLine(p)], items + [MoreLine(|p.results| - ShownItems)]);
      } else {
        AppendBlock(output, [CountLine(p)], items);
      }
    } else {
      out := output + [NoResultsLine(p)];
    }
  }

  /** One pass of the keyword loop: the keyword's header and total, then
      each of its prefectures. */
  method AppendKeyword(output: seq<string>, data: KeywordResult) returns (out: seq<string>)
    ensures out == output + KeywordLines(data)
  {
    out := output + [KeywordHeader(data.keyword), TotalLine(data.totalItems)];
    ghost var start := out;
    var j := 0;
    while j < |data.prefectures|
      invariant j <= |data.prefectures|
      invariant out == start + Blocks(data.prefectures[..j], PrefectureLines)
    {
      var next := AppendPrefecture(out, data.prefectures[j]);
      BlocksStep(start, data.prefectures, j, PrefectureLines, out, next);
      out := next;
      j := j + 1;
    }
    assert data.prefectures[..j] == data.prefectures;
    AppendBlock(output, [KeywordHeader(data.keyword), TotalLine(data.totalItems)], Blocks(data.prefectures, PrefectureLines));
  }

  /** `format_results_pretty(results_by_keyword, keywords)`; `keywords` is not read. */
  method FormatResultsPretty(resultsByKeyword: seq<KeywordResult>, keywords: seq<string>) returns (text: string)
    ensures text == Report(resultsByKeyword)
  {
    var output: seq<string> := [];
    output := output + [Banner()];
    output := output + [Title];
    output := output + [Banner()];
    ghost var start := output;
    var k := 0;
    while k < |resultsByKeyword|
      invariant k <= |resultsByKeyword|
      invariant output == start + Blocks(resultsByKeyword[..k], KeywordLines)
    {
      var next := AppendKeyword(output, resultsByKeyword[k]);
      BlocksStep(start, resultsByKeyword, k, KeywordLines, output, next);
      output := next;
      k := k + 1;
    }
    assert resultsByKeyword[..k] == resultsByKeyword;
    assert start == Opening();
    AppendBlock(start, Blocks(resultsByKeyword, KeywordLines), [Closing()]);
    output := output + [Closing()];
    text := Join("\n", output);
  }
}
