/** The web-search tool: one POST of the query to the search service,
    authorised with the service key, whose successful body is handed back
    as it came. */
module TavilySearch {

  import opened Results
  import opened Errors
  import opened Environments
  import opened Http

  const Endpoint := "https://api.tavily.com/search"

  /** The environment variable holding the key. */
  const ApiKeyVariable := "TavilyAPIKey"

  datatype SearchTool = SearchTool(apiKey: string)

  /** Construction never fails: a missing key becomes the empty key. */
  function NewSearchTool(env: Environment): (tool: SearchTool)
    ensures ApiKeyVariable in env ==> tool.apiKey == env[ApiKeyVariable]
    ensures ApiKeyVariable !in env ==> tool.apiKey == ""
  {
    SearchTool(if ApiKeyVariable in env then env[ApiKeyVariable] else "")
  }

  /** The anonymous object `{ query }`: the body has no other member. */
  datatype QueryBody = QueryBody(query: string)

  /** The request sent for `query`; `serialize` is the JSON serialiser. */
  function SearchRequest(tool: SearchTool, query: string, serialize: QueryBody -> string): (request: HttpRequest)
    ensures request.httpMethod == Post && request.uri == Endpoint
    ensures request.authorization == Some(Authorization("Bearer", tool.apiKey))
    ensures request.content.Some? && request.content.value.mediaType == "application/json"
    ensures request.content.value.text == serialize(QueryBody(query))
  {
    HttpRequest(Post, Endpoint, Some(Authorization("Bearer", tool.apiKey)),
                Some(Content(serialize(QueryBody(query)), "utf-8", "application/json")))
  }

  /** `SearchTavilyAsync`: the raw body of a successful response; the
      transport's failure or the failed status otherwise, rethrown. */
  function Search(tool: SearchTool, query: string, serialize: QueryBody -> string, send: Transport): (r: Result<string, Error>)
    ensures var response := send(SearchRequest(tool, query, serialize));
            && (r.Ok? <==> response.Ok? && IsSuccessStatus(response.value.status))
            && (r.Ok? ==> r.value == response.value.body)
            && (response.Err? ==> r == Err(response.error))
            && (response.Ok? && r.Err? ==> r.error == HttpStatus(response.value.status))
  {
    SendForBody(send, SearchRequest(tool, query, serialize))
  }

  /** What the service receives: a POST to the fixed endpoint, the bearer
      key read from the environment (empty when unset), and a JSON body
      that a parser inverse to the serialiser reads back as exactly the
      query, with nothing added. */
  lemma SearchRequestCarriesQuery(env: Environment, query: string, serialize: QueryBody -> string,
                                  parse: string -> Option<QueryBody>)
    requires forall b :: parse(serialize(b)) == Some(b)
    ensures var request := SearchRequest(NewSearchTool(env), query, serialize);
            && request.httpMethod == Post && request.uri == Endpoint
            && request.authorization == Some(Authorization("Bearer", if ApiKeyVariable in env then env[ApiKeyVariable] else ""))
            && request.content.Some? && request.content.value.mediaType == "application/json"
            && parse(request.content.value.text) == Some(QueryBody(query))
  {
  }
}
