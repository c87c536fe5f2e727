/** `research` in app/tools/utils.py: one Spanish-locale query to the Serper
    search API, shaped into a result record or an error record. The HTTP
    round trip is a parameter `send` that maps the request to the response
    (or to the message of the exception `requests.post` raised). */
module Search {
  import opened Basics
  import opened PyStr

  /** One entry of the API's `organic` list; any of its keys may be missing. */
  datatype SearchResult = SearchResult(title: Option<string>, link: Option<string>, snippet: Option<string>)

  /** The POST request: the `X-API-KEY` header and the JSON body `{q, gl, hl}`. */
  datatype SearchRequest = SearchRequest(apiKey: string, q: string, gl: string, hl: string)

  /** An HTTP response: its status code, its raw text, and what
      `response.json().get('organic')` yields — the list, a missing key, or
      the message of the exception decoding the body raised. */
  datatype HttpResponse = HttpResponse(status: int, text: string, organic: Result<Option<seq<SearchResult>>>)

  type Sender = SearchRequest -> Result<HttpResponse>

  /** The dictionary `research` returns: the Spanish results with their count
      and the query (the timestamp of the metadata is not modelled), or an
      error message alone. */
  datatype ResearchRecord =
    | Found(spanishResults: seq<SearchResult>, totalResults: nat, query: string)
    | Failed(error: string)

  const MissingKeyError: string := "Falta configurar SERPER_API_KEY"

  /** `if not Config.SERPER_API_KEY`: unset and empty both count as missing. */
  predicate KeyConfigured(apiKey: Option<string>) {
    apiKey.Some? && apiKey.value != ""
  }

  /** The one request `research` sends: Spanish results for Spain. */
  function SpanishRequest(apiKey: string, query: string): SearchRequest {
    SearchRequest(apiKey, query, "es", "es")
  }

  /** The error text for a non-200 answer: `f"Error {status}: {text}"`. */
  function StatusError(status: int, text: string): string {
    "Error " + IntToString(status) + ": " + text
  }

  /** `research(query)`. */
  function Research(query: string, apiKey: Option<string>, send: Sender): (r: ResearchRecord)
    ensures !KeyConfigured(apiKey) ==> r == Failed(MissingKeyError)
    ensures r.Found? ==> r.totalResults == |r.spanishResults| && r.query == query
    ensures r.Found? <==>
              && KeyConfigured(apiKey)
              && send(SpanishRequest(apiKey.value, query)).Ok?
              && send(SpanishRequest(apiKey.value, query)).value.status == 200
              && send(SpanishRequest(apiKey.value, query)).value.organic.Ok?
    ensures KeyConfigured(apiKey) && send(SpanishRequest(apiKey.value, query)).Ok? ==>
              var resp := send(SpanishRequest(apiKey.value, query)).value;
              resp.status != 200 ==> r == Failed(StatusError(resp.status, resp.text))
    ensures KeyConfigured(apiKey) && send(SpanishRequest(apiKey.value, query)).Err? ==>
              r == Failed(send(SpanishRequest(apiKey.value, query)).message)
    ensures KeyConfigured(apiKey) && send(SpanishRequest(apiKey.value, query)).Ok? ==>
              var resp := send(SpanishRequest(apiKey.value, query)).value;
              resp.status == 200 && resp.organic.Err? ==> r == Failed(resp.organic.message)
  {
    if !KeyConfigured(apiKey) then Failed(MissingKeyError)
    else
      match send(SpanishRequest(apiKey.value, query))
      case Err(e) => Failed(e)
      case Ok(resp) =>
        if resp.status == 200 then
          match resp.organic
          case Err(e) => Failed(e)
          case Ok(organic) =>
            var results := organic.GetOr([]);
            Found(results, |results|, query)
        else Failed(StatusError(resp.status, resp.text))
  }

  /** Without an API key `research` answers without sending anything: the
      record is the same whatever the network would have said. */
  lemma NoKeyNoRequest(query: string, apiKey: Option<string>, send1: Sender, send2: Sender)
    requires !KeyConfigured(apiKey)
    ensures Research(query, apiKey, send1) == Research(query, apiKey, send2) == Failed(MissingKeyError)
  {
  }

  /** `research` sends only the Spanish request: two networks that answer it
      alike give the same record. */
  lemma OnlySpanishRequest(query: string, key: string, send1: Sender, send2: Sender)
    requires key != ""
    requires send1(SpanishRequest(key, query)) == send2(SpanishRequest(key, query))
    ensures Research(query, Some(key), send1) == Research(query, Some(key), send2)
  {
  }

  /** On a 200 answer the record holds the `organic` list exactly as the API
      returned it (an absent list reads as empty). */
  lemma FoundHoldsOrganic(query: string, key: string, send: Sender)
    requires key != ""
    requires send(SpanishRequest(key, query)).Ok?
    requires send(SpanishRequest(key, query)).value.status == 200
    requires send(SpanishRequest(key, query)).value.organic.Ok?
    ensures Research(query, Some(key), send).spanishResults ==
            send(SpanishRequest(key, query)).value.organic.value.GetOr([])
  {
  }

  /** The status code can be read back from the error message of a non-200
      answer with a non-negative status. */
  lemma {:induction false} StatusErrorCarriesStatus(status: nat, text: string)
    ensures var m := StatusError(status, text);
            var digits := NatToString(status);
            && m[..6] == "Error "
            && m[6..6 + |digits|] == digits
            && ParseNat(m[6..6 + |digits|]) == status
  {
    NatToStringRoundTrip(status);
    var digits := NatToString(status);
    var m := StatusError(status, text);
    assert m == "Error " + digits + ": " + text;
    assert m[6..6 + |digits|] == digits;
  }
}
