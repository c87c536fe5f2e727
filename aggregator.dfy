/** `write_content` in app/tools/utils.py: it builds a content dictionary by
    appending, in three loops, up to three Spanish results, then up to three
    English results, then one detailed entry per source whose page could be
    scraped. The search is a parameter `search` (what `research(topic)`
    returns) and the scraper a parameter `scrape` (what `scrape_website(url)`
    returns). */
module Aggregator {
  import opened Basics
  import opened PyStr
  import opened Llm
  import opened Search
  import opened Scraper

  /** The dictionary passed as `research_results`: either key may be absent. */
  datatype ResearchDict = ResearchDict(
    spanishResults: Option<seq<SearchResult>>,
    englishResults: Option<seq<SearchResult>>)

  /** The argument `research_results`: omitted (`None`), a dictionary such as
      `research` returns, or a list of result dictionaries, the type the
      parameter is annotated with. */
  datatype ResearchArg = Omitted | Dict(dict: ResearchDict) | List(items: seq<SearchResult>)

  /** The keys of the dictionary `research` returns that `write_content`
      reads: a found record has `spanish_results` and never
      `english_results`; an error record has neither. */
  function AsDict(rec: ResearchRecord): ResearchDict {
    match rec
    case Found(results, _, _) => ResearchDict(Some(results), None)
    case Failed(_) => ResearchDict(None, None)
  }

  /** What the two key tests of `write_content` see: the `research(topic)`
      record when the argument is omitted, the dictionary itself, and for a
      list neither key (`in` on a list compares the items, and no result
      dictionary equals a key name). */
  function KeysRead(arg: ResearchArg, searched: ResearchRecord): ResearchDict {
    match arg
    case Omitted => AsDict(searched)
    case Dict(d) => d
    case List(_) => ResearchDict(None, None)
  }

  /** One item of `research_summary`: a search result or a scraped page. */
  datatype SummaryEntry =
    | ResultEntry(title: string, snippet: string, link: string, language: Lang)
    | DetailEntry(detailedContent: string, language: Lang, source: string)

  /** The dictionary `write_content` returns (its timestamp is not modelled). */
  datatype Content = Content(
    topic: string,
    contentType: string,
    researchSummary: seq<SummaryEntry>,
    sources: seq<string>)

  /** How many results per language are summarised (`[:3]`). */
  const PerLanguage: nat := 3

  /** The results taken from one key: its first three, or none if absent. */
  function Selected(results: Option<seq<SearchResult>>): seq<SearchResult> {
    if results.Some? then Prefix(results.value, PerLanguage) else []
  }

  /** The entry appended for one search result; absent fields read as `""`. */
  function ResultEntryOf(result: SearchResult, lang: Lang): SummaryEntry {
    ResultEntry(result.title.GetOr(""), result.snippet.GetOr(""), result.link.GetOr(""), lang)
  }

  /** The entries appended for `results`, in order. */
  function ResultEntries(results: seq<SearchResult>, lang: Lang): seq<SummaryEntry>
    decreases |results|
  {
    if results == [] then []
    else ResultEntries(results[..|results| - 1], lang) + [ResultEntryOf(results[|results| - 1], lang)]
  }

  /** The links appended to `sources` for `results`, in order. */
  function Links(results: seq<SearchResult>): seq<string>
    decreases |results|
  {
    if results == [] then []
    else Links(results[..|results| - 1]) + [results[|results| - 1].link.GetOr("")]
  }

  /** The detailed entries appended for `sources`: one per source whose scrape
      gave a page, in source order; error strings are skipped. */
  function Details(sources: seq<string>, scrape: string -> ScrapeOutcome): seq<SummaryEntry>
    decreases |sources|
  {
    if sources == [] then []
    else
      var source := sources[|sources| - 1];
      Details(sources[..|sources| - 1], scrape) +
      match scrape(source)
      case Page(p) => [DetailEntry(p.content, p.language, source)]
      case ScrapeError(_) => []
  }

  /** The result entries `write_content` appends for a dictionary. */
  function SummaryOf(d: ResearchDict): seq<SummaryEntry> {
    ResultEntries(Selected(d.spanishResults), Es) + ResultEntries(Selected(d.englishResults), En)
  }

  /** The sources `write_content` collects for a dictionary. */
  function SourcesOf(d: ResearchDict): seq<string> {
    Links(Selected(d.spanishResults)) + Links(Selected(d.englishResults))
  }

  /** One of `write_content`'s Spanish and English result loops: append the
      entry and the link of each of the first three results. */
  method AppendResults(summary: seq<SummaryEntry>, sources: seq<string>, results: seq<SearchResult>, lang: Lang)
    returns (summary': seq<SummaryEntry>, sources': seq<string>)
    ensures summary' == summary + ResultEntries(Prefix(results, PerLanguage), lang)
    ensures sources' == sources + Links(Prefix(results, PerLanguage))
  {
    var top := Prefix(results, PerLanguage);
    summary', sources' := summary, sources;
    for i := 0 to |top|
      invariant summary' == summary + ResultEntries(top[..i], lang)
      invariant sources' == sources + Links(top[..i])
    {
      assert top[..i + 1][..i] == top[..i];
      summary' := summary' + [ResultEntryOf(top[i], lang)];
      sources' := sources' + [top[i].link.GetOr("")];
    }
    assert top[..|top|] == top;
  }

  /** `write_content`'s scraping loop over the sources: append a detailed entry for each
      source whose scrape gave a page. */
  method AppendDetails(summary: seq<SummaryEntry>, sources: seq<string>, scrape: string -> ScrapeOutcome)
    returns (summary': seq<SummaryEntry>)
    ensures summary' == summary + Details(sources, scrape)
  {
    summary' := summary;
    for i := 0 to |sources|
      invariant summary' == summary + Details(sources[..i], scrape)
    {
      var source := sources[i];
      assert sources[..i + 1][..i] == sources[..i];
      var page := scrape(source);
      if page.Page? {
        summary' := summary' + [DetailEntry(page.page.content, page.page.language, source)];
      }
    }
    assert sources[..|sources|] == sources;
  }

  /** `write_content(topic, content_type, research_results)`. */
  method WriteContent(
    topic: string,
    contentType: string,
    researchResults: ResearchArg,
    search: string -> ResearchRecord,
    scrape: string -> ScrapeOutcome)
    returns (content: Content)
    ensures content.topic == topic && content.contentType == contentType
    ensures var d := KeysRead(researchResults, search(topic));
            && content.sources == SourcesOf(d)
            && content.researchSummary == SummaryOf(d) + Details(content.sources, scrape)
    ensures researchResults.List? ==> content == Content(topic, contentType, [], [])
  {
    var d := match researchResults
      case Omitted => AsDict(search(topic))
      case Dict(dict) => dict
      case List(_) => ResearchDict(None, None);
    var summary: seq<SummaryEntry> := [];
    var sources: seq<string> := [];
    if d.spanishResults.Some? {
      summary, sources := AppendResults(summary, sources, d.spanishResults.value, Es);
    }
    if d.englishResults.Some? {
      summary, sources := AppendResults(summary, sources, d.englishResults.value, En);
    }
    assert summary == SummaryOf(d) && sources == SourcesOf(d);
    summary := AppendDetails(summary, sources, scrape);
    content := Content(topic, contentType, summary, sources);
  }

  // -----------------------------------------------------------------------
  // properties of the specification

  /** The entries for a list of results are one per result, in order, with
      absent fields defaulted to `""`. */
  lemma {:induction false} ResultEntriesAt(results: seq<SearchResult>, lang: Lang)
    ensures |ResultEntries(results, lang)| == |results|
    ensures forall i :: 0 <= i < |results| ==>
              ResultEntries(results, lang)[i] == ResultEntryOf(results[i], lang)
    decreases |results|
  {
    if results != [] {
      ResultEntriesAt(results[..|results| - 1], lang);
    }
  }

  /** The links of a list of results are one per result, in order. */
  lemma {:induction false} LinksAt(results: seq<SearchResult>)
    ensures |Links(results)| == |results|
    ensures forall i :: 0 <= i < |results| ==> Links(results)[i] == results[i].link.GetOr("")
    decreases |results|
  {
    if results != [] {
      LinksAt(results[..|results| - 1]);
    }
  }

  /** At most six sources; the i-th source is the link of the i-th result
      entry; the first entries are the leading Spanish results and the rest
      the leading English results, each with its fields defaulted. */
  lemma SummaryLayout(d: ResearchDict)
    ensures var sp, en := Selected(d.spanishResults), Selected(d.englishResults);
            && |sp| <= PerLanguage && |en| <= PerLanguage
            && |SourcesOf(d)| == |SummaryOf(d)| == |sp| + |en| <= 2 * PerLanguage
            && (forall i :: 0 <= i < |SourcesOf(d)| ==>
                  SummaryOf(d)[i].ResultEntry? && SummaryOf(d)[i].link == SourcesOf(d)[i])
            && (forall i :: 0 <= i < |sp| ==> SummaryOf(d)[i] == ResultEntryOf(sp[i], Es))
            && (forall i :: 0 <= i < |en| ==> SummaryOf(d)[|sp| + i] == ResultEntryOf(en[i], En))
  {
    var sp, en := Selected(d.spanishResults), Selected(d.englishResults);
    ResultEntriesAt(sp, Es);
    ResultEntriesAt(en, En);
    LinksAt(sp);
    LinksAt(en);
  }

  /** `a` occurs in `b` in order, possibly with gaps. */
  predicate IsSubsequence(a: seq<string>, b: seq<string>)
    decreases |b|
  {
    if a == [] then true
    else if b == [] then false
    else (a[|a| - 1] == b[|b| - 1] && IsSubsequence(a[..|a| - 1], b[..|b| - 1]))
         || IsSubsequence(a, b[..|b| - 1])
  }

  /** The sources the detailed entries name. */
  function DetailSources(details: seq<SummaryEntry>): seq<string>
    requires forall k :: 0 <= k < |details| ==> details[k].DetailEntry?
  {
    seq(|details|, k requires 0 <= k < |details| => details[k].source)
  }

  /** Each detailed entry carries a source whose scrape gave a page, with that
      page's content and language; there are at most as many as sources;
      and their sources appear in source order. */
  lemma {:induction false} DetailsFaithful(sources: seq<string>, scrape: string -> ScrapeOutcome)
    ensures var ds := Details(sources, scrape);
            && |ds| <= |sources|
            && (forall k :: 0 <= k < |ds| ==>
                  && ds[k].DetailEntry?
                  && ds[k].source in sources
                  && scrape(ds[k].source).Page?
                  && ds[k].detailedContent == scrape(ds[k].source).page.content
                  && ds[k].language == scrape(ds[k].source).page.language)
            && IsSubsequence(DetailSources(ds), sources)
    decreases |sources|
  {
    if sources != [] {
      var init, last := sources[..|sources| - 1], sources[|sources| - 1];
      DetailsFaithful(init, scrape);
      var prev := Details(init, scrape);
      var ds := Details(sources, scrape);
      assert forall s :: s in init ==> s in sources;
      if scrape(last).Page? {
        assert ds == prev + [DetailEntry(scrape(last).page.content, scrape(last).page.language, last)];
        assert DetailSources(ds)[..|ds| - 1] == DetailSources(prev);
      } else {
        assert ds == prev;
      }
    }
  }

  /** The number of sources whose scrape gave a page. */
  function PageCount(sources: seq<string>, scrape: string -> ScrapeOutcome): nat
    decreases |sources|
  {
    if sources == [] then 0
    else PageCount(sources[..|sources| - 1], scrape) + (if scrape(sources[|sources| - 1]).Page? then 1 else 0)
  }

  /** There is one detailed entry per source that could be scraped. */
  lemma {:induction false} DetailsCount(sources: seq<string>, scrape: string -> ScrapeOutcome)
    ensures |Details(sources, scrape)| == PageCount(sources, scrape)
    decreases |sources|
  {
    if sources != [] {
      DetailsCount(sources[..|sources| - 1], scrape);
    }
  }

  /** When the scrape of exactly one source fails, every other source gets
      its detailed entry. */
  lemma {:induction false} OneFailureLosesOnePage(sources: seq<string>, scrape: string -> ScrapeOutcome, failed: nat)
    requires failed < |sources|
    requires scrape(sources[failed]).ScrapeError?
    requires forall i :: 0 <= i < |sources| && i != failed ==> scrape(sources[i]).Page?
    ensures PageCount(sources, scrape) == |sources| - 1
    decreases |sources|
  {
    var init := sources[..|sources| - 1];
    if failed == |sources| - 1 {
      AllPages(init, scrape);
    } else {
      OneFailureLosesOnePage(init, scrape, failed);
    }
  }

  lemma {:induction false} AllPages(sources: seq<string>, scrape: string -> ScrapeOutcome)
    requires forall i :: 0 <= i < |sources| ==> scrape(sources[i]).Page?
    ensures PageCount(sources, scrape) == |sources|
    decreases |sources|
  {
    if sources != [] {
      AllPages(sources[..|sources| - 1], scrape);
    }
  }

  /** Five Spanish and five English results with one of the six selected
      pages failing: six result entries, six sources, five detailed
      entries. */
  lemma FiveAndFiveOneFailure(d: ResearchDict, scrape: string -> ScrapeOutcome, failed: nat)
    requires d.spanishResults.Some? && |d.spanishResults.value| == 5
    requires d.englishResults.Some? && |d.englishResults.value| == 5
    requires failed < |SourcesOf(d)|
    requires scrape(SourcesOf(d)[failed]).ScrapeError?
    requires forall i :: 0 <= i < |SourcesOf(d)| && i != failed ==> scrape(SourcesOf(d)[i]).Page?
    ensures |SourcesOf(d)| == 6
    ensures |SummaryOf(d) + Details(SourcesOf(d), scrape)| == 11
  {
    SummaryLayout(d);
    DetailsCount(SourcesOf(d), scrape);
    OneFailureLosesOnePage(SourcesOf(d), scrape, failed);
  }

  /** Fed what `research` returns, `write_content` only ever summarises
      Spanish results, at most three of them; an error record yields no
      results and no sources at all. */
  lemma FromResearch(rec: ResearchRecord)
    ensures var d := AsDict(rec);
            && |SourcesOf(d)| <= PerLanguage
            && (forall i :: 0 <= i < |SummaryOf(d)| ==> SummaryOf(d)[i].language == Es)
            && (rec.Failed? ==> SourcesOf(d) == [] && SummaryOf(d) == [])
  {
    var d := AsDict(rec);
    SummaryLayout(d);
    assert Selected(d.englishResults) == [];
  }
}
