/** `scrape_website` in app/tools/utils.py. The GET request, the encoding
    detection and the BeautifulSoup pass (removing script, style, iframe, nav
    and footer, then collecting the p, h1..h6 and article elements) are a
    parameter `fetch` that yields the text of each collected element, or the
    message of the exception raised on the way. What the model states is the
    string pipeline the function runs on those texts. */
module Scraper {
  import opened Basics
  import opened PyStr
  import opened Llm

  /** The ceiling on the content handed downstream (`text[:5000]`). */
  const MaxContent: nat := 5000
  /** The size of the sample given to the language detector (`text[:100]`). */
  const SampleSize: nat := 100

  /** The dictionary `scrape_website` returns on success. */
  datatype ScrapedPage = ScrapedPage(content: string, language: Lang, url: string, length: nat)

  /** `scrape_website` returns the page dictionary, or on any exception a
      plain error string. */
  datatype ScrapeOutcome = Page(page: ScrapedPage) | ScrapeError(message: string)

  type Fetcher = string -> Result<seq<string>>

  /** Each element text with its surrounding whitespace stripped, in order. */
  function StripAll(texts: seq<string>): seq<string> {
    seq(|texts|, i requires 0 <= i < |texts| => Strip(texts[i]))
  }

  /** The text extraction of `scrape_website`: strip each element text,
      join them with spaces, then collapse every whitespace run. */
  function ExtractText(texts: seq<string>): (text: string)
    ensures IsNormalized(text)
    ensures Letters(text) == Letters(Join(" ", StripAll(texts)))
    ensures Split(text) == Split(Join(" ", StripAll(texts)))
  {
    var joined := Join(" ", StripAll(texts));
    NormalizeKeepsWords(joined);
    NormalizeIsNormalized(joined);
    NormalizeKeepsLetters(joined);
    Normalize(joined)
  }

  function ErrorText(message: string): string {
    "Error al extraer contenido: " + message
  }

  /** `scrape_website(url)`. */
  function ScrapeWebsite(url: string, fetch: Fetcher, llm: Chat -> LlmReply): (r: ScrapeOutcome)
    ensures r.Page? <==> fetch(url).Ok?
    ensures fetch(url).Err? ==> r == ScrapeError(ErrorText(fetch(url).message))
    ensures fetch(url).Ok? ==>
              var text := ExtractText(fetch(url).value);
              && r.page.url == url
              && r.page.length == |text|
              && r.page.content <= text
              && |r.page.content| <= MaxContent
              && (r.page.content == text <==> |text| <= MaxContent)
              && (|text| > MaxContent ==> |r.page.content| == MaxContent)
              && r.page.language == DetectLanguage(Prefix(text, SampleSize), llm)
  {
    match fetch(url)
    case Err(e) => ScrapeError(ErrorText(e))
    case Ok(texts) =>
      var text := ExtractText(texts);
      var lang := DetectLanguage(Prefix(text, SampleSize), llm);
      Page(ScrapedPage(Prefix(text, MaxContent), lang, url, |text|))
  }

  /** The language tag depends on the first 100 characters of the page text
      only: two pages that agree there get the same tag. */
  lemma LanguageFromSampleOnly(url1: string, url2: string, fetch: Fetcher, llm: Chat -> LlmReply)
    requires fetch(url1).Ok? && fetch(url2).Ok?
    ensures Prefix(ExtractText(fetch(url1).value), SampleSize) ==
            Prefix(ExtractText(fetch(url2).value), SampleSize) ==>
              ScrapeWebsite(url1, fetch, llm).page.language ==
              ScrapeWebsite(url2, fetch, llm).page.language
  {
  }

  /** A page short enough to keep whole has normalized content; a truncated
      one still starts clean and has no whitespace run, though its cut may
      land right after a space. */
  lemma ContentShape(url: string, fetch: Fetcher, llm: Chat -> LlmReply)
    requires fetch(url).Ok?
    ensures var c := ScrapeWebsite(url, fetch, llm).page.content;
            && (ScrapeWebsite(url, fetch, llm).page.length <= MaxContent ==> IsNormalized(c))
            && (c != [] ==> !IsSpace(c[0]))
            && (forall k :: 0 <= k < |c| - 1 && IsSpace(c[k]) ==> c[k] == ' ' && !IsSpace(c[k + 1]))
  {
  }

  lemma StripExample(raw: string)
    requires raw == "  Hello   world  \n\n "
    ensures Strip(raw) == "Hello   world"
  {
    var g1, g2 := "  ", "  \n\n ";
    assert AllSpace(g1) && AllSpace(g2);
    assert raw == g1 + "Hello   world" + g2;
    StripSurrounded(g1, "Hello   world", g2);
  }

  lemma NormalizeExample(inner: string)
    requires inner == "Hello   world"
    ensures Normalize(inner) == "Hello world"
  {
    var hello, world := "Hello", "world";
    assert AllSpace("   ") && IsWord(hello) && IsWord(world);
    assert inner == hello + "   " + world;
    SplitWordThenSpace(hello, "   ", world);
    SplitWord(world);
    JoinCons(" ", hello, [world]);
  }

  /** The example page `"  Hello   world  \n\n "` yields `"Hello world"`. */
  lemma HelloWorld(raw: string)
    requires raw == "  Hello   world  \n\n "
    ensures ExtractText([raw]) == "Hello world"
  {
    StripExample(raw);
    var inner := Strip(raw);
    assert StripAll([raw]) == [inner];
    assert Join(" ", [inner]) == inner;
    NormalizeExample(inner);
  }
}
