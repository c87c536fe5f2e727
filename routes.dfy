/** app/api/routes.py: `format_search_results`, which renders search results
    into the prompt handed to the agents, and the decisions `analyze_task`
    takes before it starts the agent conversation. The HTTP request is a
    value; the search runs through `Research` with the key and network given
    as parameters. */
module Routes {
  import opened Basics
  import opened PyStr
  import opened Search

  const NoResults: string := "No se encontraron resultados."

  /** The three lines one result contributes, numbered `k`; absent fields
      read as `Sin título` and `No disponible`. */
  function EntryLines(k: nat, result: SearchResult): seq<string> {
    [ NatToString(k) + ". " + result.title.GetOr("Sin título"),
      "   URL: " + result.link.GetOr("No disponible"),
      "   Resumen: " + result.snippet.GetOr("No disponible") + "\n" ]
  }

  /** The list `formatted` holds once every result has been appended. */
  function Lines(results: seq<SearchResult>): seq<string>
    decreases |results|
  {
    if results == [] then []
    else Lines(results[..|results| - 1]) + EntryLines(|results|, results[|results| - 1])
  }

  /** What `format_search_results(results)` returns. */
  function FormattedResults(results: seq<SearchResult>): string {
    if results == [] then NoResults else Join("\n", Lines(results))
  }

  /** `format_search_results`: the `enumerate` loop appending three lines per
      result, then the newline join or the empty-list sentinel. */
  method FormatSearchResults(results: seq<SearchResult>) returns (s: string)
    ensures s == FormattedResults(results)
  {
    var formatted: seq<string> := [];
    for i := 0 to |results|
      invariant formatted == Lines(results[..i])
    {
      assert results[..i + 1][..i] == results[..i];
      var result := results[i];
      formatted := formatted + [NatToString(i + 1) + ". " + result.title.GetOr("Sin título")];
      formatted := formatted + ["   URL: " + result.link.GetOr("No disponible")];
      formatted := formatted + ["   Resumen: " + result.snippet.GetOr("No disponible") + "\n"];
    }
    assert results[..|results|] == results;
    if formatted != [] {
      s := Join("\n", formatted);
    } else {
      s := NoResults;
    }
  }

  /** Result `k` (from 0) owns lines 3k, 3k+1 and 3k+2 and is numbered k+1;
      there are exactly three lines per result. */
  lemma {:induction false} LinesAt(results: seq<SearchResult>)
    ensures |Lines(results)| == 3 * |results|
    ensures forall k :: 0 <= k < |results| ==>
              Lines(results)[3 * k..3 * k + 3] == EntryLines(k + 1, results[k])
    decreases |results|
  {
    if results != [] {
      var init := results[..|results| - 1];
      LinesAt(init);
      var ls := Lines(results);
      forall k | 0 <= k < |results|
        ensures ls[3 * k..3 * k + 3] == EntryLines(k + 1, results[k])
      {
        if k < |init| {
          assert ls[3 * k..3 * k + 3] == Lines(init)[3 * k..3 * k + 3];
          assert init[k] == results[k];
        }
      }
    }
  }

  /** An empty list renders as the sentinel; a non-empty one never does, as
      it starts with the number 1. */
  lemma FormattedShape(results: seq<SearchResult>)
    ensures results == [] ==> FormattedResults(results) == NoResults
    ensures results != [] ==> "1. " <= FormattedResults(results)
    ensures results != [] ==> FormattedResults(results) != NoResults
  {
    if results != [] {
      LinesAt(results);
      var ls := Lines(results);
      assert ls[0] == ls[0..3][0] == EntryLines(1, results[0])[0];
      assert NatToString(1) == "1";
      JoinStartsWithFirst("\n", ls);
      assert "1. " <= ls[0];
      assert FormattedResults(results)[0] == '1' != NoResults[0];
    }
  }

  /** A join starts with its first part. */
  lemma JoinStartsWithFirst(sep: string, parts: seq<string>)
    requires parts != []
    ensures parts[0] <= Join(sep, parts)
  {
  }

  // -----------------------------------------------------------------------
  // analyze_task

  /** The value of one key of the request's JSON object. Absent covers a
      missing key and JSON null (both `None`); a non-string value carries
      its truthiness and its `str()` rendering. */
  datatype Field = Absent | Str(s: string) | NonStr(truthy: bool, rendered: string) {
    predicate Truthy() {
      match this
      case Absent => false
      case Str(s) => s != ""
      case NonStr(t, _) => t
    }
    function Rendered(): string {
      match this
      case Absent => "None"
      case Str(s) => s
      case NonStr(_, r) => r
    }
  }

  /** What `request.get_json()` and `data.get(...)` give: the two fields, or
      the message of the exception they raised (malformed JSON, a body that
      is not an object). */
  datatype Body = Object(brandTask: Field, userTask: Field) | Raises(message: string)

  datatype Request = Request(isJson: bool, body: Body)

  /** The handler's answer: an error with its status code, or the hand-off
      to the agent conversation with what it is given (the agents, the
      conversation and the response of a completed chat are not modelled). */
  datatype Reply =
    | ErrorReply(status: int, error: string)
    | StartAgents(brandTask: string, userTask: string, searchResults: ResearchRecord,
                  spanishBlock: string, englishBlock: string)

  /** `f"{brand_task} {user_task}"`. */
  function SearchQuery(brand: Field, user: Field): string {
    brand.Rendered() + " " + user.Rendered()
  }

  /** The request passes the JSON and required-field checks of `analyze_task`. */
  predicate Accepted(req: Request) {
    req.isJson && req.body.Object? && req.body.brandTask.Truthy() && req.body.userTask.Truthy()
  }

  /** `analyze_task` up to the start of the agent conversation. */
  function AnalyzeTask(req: Request, apiKey: Option<string>, send: Sender): (reply: Reply)
    ensures !req.isJson ==> reply == ErrorReply(400, "La solicitud debe ser JSON")
    ensures req.isJson && req.body.Object? && !Accepted(req) ==>
              reply == ErrorReply(400, "Faltan campos requeridos")
    ensures req.isJson && req.body.Raises? ==>
              reply == ErrorReply(500, "Error en el servidor: " + req.body.message)
    ensures reply.ErrorReply? && reply.status == 400 <==>
              !req.isJson || (req.body.Object? && !Accepted(req))
    ensures reply.StartAgents? <==>
              Accepted(req) && Research(SearchQuery(req.body.brandTask, req.body.userTask), apiKey, send).Found?
    ensures Accepted(req) ==>
              var rec := Research(SearchQuery(req.body.brandTask, req.body.userTask), apiKey, send);
              rec.Failed? ==> reply == ErrorReply(500, "Error en la búsqueda: " + rec.error)
    ensures reply.StartAgents? ==>
              && reply.searchResults == Research(reply.brandTask + " " + reply.userTask, apiKey, send)
              && reply.searchResults.Found?
              && reply.brandTask == req.body.brandTask.Rendered()
              && reply.userTask == req.body.userTask.Rendered()
              && reply.spanishBlock == FormattedResults(reply.searchResults.spanishResults)
              && reply.englishBlock == NoResults
  {
    if !req.isJson then ErrorReply(400, "La solicitud debe ser JSON")
    else
      match req.body
      case Raises(m) => ErrorReply(500, "Error en el servidor: " + m)
      case Object(brand, user) =>
        if !brand.Truthy() || !user.Truthy() then ErrorReply(400, "Faltan campos requeridos")
        else
          var results := Research(SearchQuery(brand, user), apiKey, send);
          match results
          case Failed(e) => ErrorReply(500, "Error en la búsqueda: " + e)
          case Found(spanish, _, _) =>
            StartAgents(brand.Rendered(), user.Rendered(), results,
                        FormattedResults(spanish), FormattedResults([]))
  }

  /** A request turned away with 400 never reaches the search: its reply is
      the same whatever the key and the network. */
  lemma RejectedWithoutSearch(req: Request, key1: Option<string>, send1: Sender, key2: Option<string>, send2: Sender)
    requires !Accepted(req)
    ensures AnalyzeTask(req, key1, send1) == AnalyzeTask(req, key2, send2)
  {
  }

  /** The only search an accepted request runs is for `brand + " " + user`:
      two configurations that answer that query alike give the same reply. */
  lemma SearchesTheJoinedQuery(req: Request, key1: Option<string>, send1: Sender, key2: Option<string>, send2: Sender)
    requires Accepted(req)
    requires var q := SearchQuery(req.body.brandTask, req.body.userTask);
             Research(q, key1, send1) == Research(q, key2, send2)
    ensures AnalyzeTask(req, key1, send1) == AnalyzeTask(req, key2, send2)
  {
  }

  /** With no search key configured, no request gets past the search: an
      accepted one is answered 500 with the missing-key message. */
  lemma NoKeyNoAgents(req: Request, send: Sender)
    requires Accepted(req)
    ensures AnalyzeTask(req, None, send) == ErrorReply(500, "Error en la búsqueda: " + MissingKeyError)
  {
  }
}
