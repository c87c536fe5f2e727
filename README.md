# Research pipeline of the brand-strategy agent service, in Dafny

The service takes a brand description and a task and runs a Serper web
search. It can scrape and language-tag the pages found, and it hands the
formatted findings to a group of language-model agents. Most of the
repository is I/O glue. This project models the deterministic core under
that glue:

- `PyStr` (basics of Python strings): `str.strip()`, `str.split()`,
  `sep.join()`, ASCII `str.lower()`, slicing and `str(int)`, over
  `seq<char>`, with Python's whitespace set.
- `Llm` (`translate_to_english`, `detect_language`): the language model is a
  parameter `llm: Chat -> Result<string>`. A failed call is `Err`.
- `Scraper` (`scrape_website`): the GET request and the HTML parse are a
  parameter `fetch` that yields the element texts or the exception message.
  The model covers the text pipeline that follows: strip, join, collapse
  whitespace, take the 100-character language sample, truncate to 5000.
- `Search` (`research`): the POST to the search API is a parameter `send`.
  The model covers the missing-key check, the single Spanish request, and how
  the response is shaped into a record.
- `Aggregator` (`write_content`): the three appending loops are methods with
  loop invariants, proved against specification functions. Lemmas prove the
  ordering, bounds, defaults and detailed-entry properties of those
  functions.
- `Routes` (`format_search_results`, `analyze_task`): the numbering loop is a
  method proved against a function. The request checks and early exits of
  the handler are a pure decision function.

The code leaves the English half of the pipeline empty, and the model
follows the code. `write_content` (app/tools/utils.py:175-183) and
`analyze_task` (app/api/routes.py:58) read an `english_results` key, but
`research` (app/tools/utils.py:44-51) sends one Spanish request and never
writes that key. So `write_content` fed by `research` summarises Spanish
results only (`Aggregator.FromResearch`). The English block of the agents'
prompt is always the empty-list sentinel (`Routes.AnalyzeTask`). A failed
search is not propagated by `write_content`: it yields an empty summary.
`analyze_task` answers it with 500.

## Model

| member | source | states |
|---|---|---|
| `PyStr.Strip` | app/tools/utils.py:105 | the result starts and ends with non-whitespace, and it is the slice of the input left once only whitespace is removed from each end |
| `PyStr.StripSurrounded` | app/tools/utils.py:105 | stripping text padded with whitespace gives back exactly that text |
| `PyStr.Split` | app/tools/utils.py:106 | every item of `s.split()` is non-empty and has no whitespace |
| `PyStr.SplitJoin` | app/tools/utils.py:106 | splitting a space-joined list of words gives back the words |
| `PyStr.JoinWordsNormalized` | app/tools/utils.py:106 | joining words with single spaces gives a normalized string, which is empty exactly when there are no words |
| `PyStr.NormalizeIsNormalized` | app/tools/utils.py:106 | `' '.join(s.split())` has no whitespace at either end, has no whitespace other than the space, and never has two whitespace characters in a row |
| `PyStr.NormalizedIffFixed` | app/tools/utils.py:106 | a string has that normalized shape if and only if normalizing it leaves it unchanged |
| `PyStr.NormalizeIdempotent` | app/tools/utils.py:106 | normalizing twice equals normalizing once |
| `PyStr.NormalizeKeepsWords` | app/tools/utils.py:106 | normalization keeps the words of the input, whole and in order: whitespace between two words becomes one space and is never dropped |
| `PyStr.NormalizeKeepsLetters` | app/tools/utils.py:106 | normalization keeps every non-whitespace character in order: it only rewrites whitespace |
| `PyStr.PrefixIsLeading` | app/tools/utils.py:111 | a slice `s[:n]`, used for the 100-character language sample, the 5000-character content and the first three results of each language, is the first min(n, len(s)) items of `s`, in order |
| `PyStr.NatToStringRoundTrip` | app/tools/utils.py:53 | the decimal rendering of a status code or result number parses back to the number |
| `PyStr.NatToStringInjective` | app/api/routes.py:97-98 | distinct result numbers render differently |
| `Llm.TranslateToEnglish` | app/tools/utils.py:61-82 | a failed translation call returns the input text unchanged; a successful one returns the reply with the whitespace at both ends removed: the slice of the reply left once only whitespace is cut from each end, starting and ending with non-whitespace |
| `Llm.DetectLanguageCharacterized` | app/tools/utils.py:124-144 | `detect_language` gives `en` exactly when the model's stripped reply is `en` in any letter case, and `es` likewise; any other reply and any failed call give `unknown` |
| `Llm.LowerIsCode` | app/tools/utils.py:139 | a reply lower-cases to `en` (or `es`) exactly when it is one of the four casings of that code |
| `Llm.LabelOfCharacterized` | app/tools/utils.py:139-144 | the label is `en` if and only if the stripped reply is `en` in any case, and likewise for `es`; any other reply, and any failed call, gives `unknown` |
| `Search.Research` | app/tools/utils.py:15-59 | with no key the result is the missing-key error; a record is found exactly when the key is set, the request returns, the status is 200 and the body decodes; `total_results` then equals the number of `spanish_results` and the query is recorded; any other status gives `Error <status>: <text>`; an exception from the request or from decoding the body gives its message |
| `Search.NoKeyNoRequest` | app/tools/utils.py:21-23 | without a key the record does not depend on the network: no request is sent |
| `Search.OnlySpanishRequest` | app/tools/utils.py:31-39 | the record depends only on the answer to the one request with `gl = hl = "es"` |
| `Search.FoundHoldsOrganic` | app/tools/utils.py:41-46 | on a 200 answer `spanish_results` is the `organic` list as returned, and a missing list is read as empty |
| `Search.StatusErrorCarriesStatus` | app/tools/utils.py:52-53 | the non-200 error message starts with `Error ` followed by the status, which can be read back |
| `Scraper.ExtractText` | app/tools/utils.py:104-106 | the extracted text is normalized, keeps every non-whitespace character of the stripped, joined element texts, and has exactly their words |
| `Scraper.ScrapeWebsite` | app/tools/utils.py:84-122 | a page record comes back exactly when the fetch succeeds, otherwise the error string; `content` is a prefix of the normalized text of at most 5000 characters, which is the whole text if and only if the text is at most 5000 characters long; `length` is the full length; `url` is the URL; the language is detected from the first 100 characters |
| `Scraper.LanguageFromSampleOnly` | app/tools/utils.py:110-111 | two pages whose texts share their first 100 characters get the same language tag |
| `Scraper.ContentShape` | app/tools/utils.py:113-114 | untruncated content is normalized; truncated content still starts with non-whitespace and has no whitespace runs |
| `Scraper.HelloWorld` | app/tools/utils.py:105-106 | the element text `"  Hello   world  \n\n "` yields `"Hello world"` |
| `Aggregator.AppendResults` | app/tools/utils.py:164-183 | one results loop appends, in order, the defaulted entry and the link of each of the first three results |
| `Aggregator.AppendDetails` | app/tools/utils.py:186-196 | the scraping loop appends one detailed entry per source whose scrape gave a page, in source order |
| `Aggregator.WriteContent` | app/tools/utils.py:146-199 | topic and type are kept; an omitted `research_results` is replaced by `research(topic)`; `sources` are the links of the selected Spanish and then English results; `research_summary` is their entries followed by the detailed entries; a list argument, the annotated type, has neither key and gives no entries and no sources |
| `Aggregator.ResultEntriesAt` | app/tools/utils.py:165-171 | there is one summary entry per result, the i-th from the i-th result, with missing title, snippet and link read as `""` |
| `Aggregator.LinksAt` | app/tools/utils.py:172 | there is one source per result, the i-th being the i-th result's link or `""` |
| `Aggregator.SummaryLayout` | app/tools/utils.py:163-183 | at most 3 Spanish entries come first, then at most 3 English ones, so at most 6 sources; the i-th source is the link of the i-th summary entry |
| `Aggregator.DetailsFaithful` | app/tools/utils.py:185-196 | there are no more detailed entries than sources; each names a source whose scrape gave a page and carries that page's content and language; their sources occur in source order |
| `Aggregator.DetailsCount` | app/tools/utils.py:186-194 | the number of detailed entries equals the number of sources that could be scraped |
| `Aggregator.AllPages` | app/tools/utils.py:186-196 | when every scrape succeeds, every source is counted as scraped |
| `Aggregator.OneFailureLosesOnePage` | app/tools/utils.py:186-196 | when exactly one source fails to scrape, all the others are counted as scraped |
| `Aggregator.FiveAndFiveOneFailure` | app/tools/utils.py:163-196 | with 5 Spanish and 5 English results and one failing page: 6 sources and 6 + 5 = 11 summary entries |
| `Aggregator.FromResearch` | app/tools/utils.py:164-183 | fed a `research` record, at most 3 sources and only Spanish entries; an error record gives no entries and no sources |
| `Routes.FormatSearchResults` | app/api/routes.py:94-101 | the loop's output equals the newline join of three lines per result, or the sentinel for an empty list |
| `Routes.LinesAt` | app/api/routes.py:96-100 | there are exactly 3n lines; result k (from 0) gives lines 3k..3k+2: `k+1. title`, `   URL: link`, `   Resumen: snippet` plus a newline; a missing title reads `Sin título` and a missing link or snippet `No disponible` |
| `Routes.FormattedShape` | app/api/routes.py:101 | an empty list renders as exactly `No se encontraron resultados.`; a non-empty one starts with `1. ` and is never the sentinel |
| `Routes.AnalyzeTask` | app/api/routes.py:17-58 | a non-JSON request gets 400 `La solicitud debe ser JSON`; a missing or falsy `brand_task` or `user_task` gets 400 `Faltan campos requeridos`; an unreadable body gets 500; an accepted request gets the agents exactly when `research(brand + " " + user)` finds results, and gets 500 `Error en la búsqueda: …` otherwise; the agents get the brand and user task as received, the results of that search, and an English block that is always the sentinel |
| `Routes.RejectedWithoutSearch` | app/api/routes.py:21-33 | a request rejected with 400 gets the same reply whatever the key and network: `research` is not called |
| `Routes.SearchesTheJoinedQuery` | app/api/routes.py:36-38 | an accepted request depends on the search only through `research` on the query `brand + " " + user` |
| `Routes.NoKeyNoAgents` | app/api/routes.py:38-42 | with no search key, every accepted request gets 500 with the missing-key message and no agents |

## Left out

- HTTP traffic is not modelled: the POST in `research`, the GET in `scrape_website`, timeouts, headers, `raise_for_status` and encoding detection (app/tools/utils.py:25-39, 88-95). These are network I/O. They appear only as the parameters `send` and `fetch`.
- The BeautifulSoup pass is not modelled: removing script, style, iframe, nav and footer, then `find_all` (app/tools/utils.py:97-104). It is a foreign library. Its output is taken as the list of element texts.
- The OpenAI calls are not modelled. They appear as the parameter `llm`, whose reply is either the text of the first choice or an error.
- `analyze_sentiment` (app/tools/utils.py:205-226) is not modelled. It decodes the model's JSON and falls back to a float confidence.
- Timestamps (`datetime.now()`) and all logging are not modelled.
- `Aggregator.WriteContent` takes `research_results` in three shapes only: omitted, a dictionary of result lists, or a list of result dictionaries. Other values the calling agent could pass (a dictionary whose lists are not lists of dictionaries, a list holding the string `spanish_results`) make the body raise, and `write_content`'s outer exception handler (app/tools/utils.py:201-203) then returns an error dictionary; neither those inputs nor the handler are modelled.
- The text of `initial_message` is not modelled (app/api/routes.py:47-65). The reply carries its two formatted result blocks instead.
- Agent creation, the agent conversation and the success response are not modelled (app/api/routes.py:44-84). Nor is the 500 answer to exceptions they raise. All of this is external library code.
- The `index` and `health_check` routes (app/api/routes.py:12-14, 103-113) are not modelled. They only render a template or report a timestamp.
- app/agents/agent_config.py, app/config/settings.py, app/__init__.py and test_serper.py are not part of this model. They are library wiring, environment reads and a manual smoke script.
- `PyStr.Lower` maps only ASCII letters. Python's `str.lower()` also maps other letters, but no non-ASCII character lower-cases to `e`, `n` or `s`. So the `en`/`es` decision of `detect_language` is exact.
- A search-result field that is present with JSON `null` is treated like a missing key. So it gets the default (`""`, `Sin título`, `No disponible`). Python's `dict.get` would return `None` and render `None`. Likewise a JSON `null` `organic` reads as an empty list, where Python raises on `len(None)`.
- A JSON value of another type in `brand_task` or `user_task` is modelled by its truthiness and its `str()` rendering only.
- The default `"article"` of `content_type` in `write_content` (app/tools/utils.py:146) is not modelled: `Aggregator.WriteContent` takes the content type as an explicit argument.
