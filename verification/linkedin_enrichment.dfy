/** The enrichment tool the agent can call: search the web for the person's
    profile URL, pick the first profile URL out of the search result, and
    fetch that profile. The search and the profile lookup are parameters;
    a run records which of them was called, with what, in order. */
module LinkedInEnrichment {

  import opened Results
  import opened Errors
  import opened Environments
  import opened LinkedInUrl
  import TavilySearch
  import ScrapinProfile
  import Http

  /** Appended to the caller's query before searching. */
  const SearchSuffix := " LinkedIn URL"

  const NotFoundMessage := "LinkedIn URL not found in Tavily response."

  /** A call the pipeline makes to one of its two services. */
  datatype Call = SearchCall(query: string) | ProfileCall(url: string)

  /** The calls made, in order, and what the pipeline returned or threw. */
  datatype Run = Run(calls: seq<Call>, result: Result<string, Error>)

  /** `EnrichLinkedInProfileAsync`. Every failure is logged and rethrown,
      so it is the pipeline's own failure. */
  function Enrich(query: string, search: string -> Result<string, Error>,
                  profile: string -> Result<string, Error>): (run: Run)
    ensures |run.calls| >= 1 && run.calls[0] == SearchCall(query + SearchSuffix)
    ensures search(query + SearchSuffix).Err?
            ==> run == Run([SearchCall(query + SearchSuffix)], Err(search(query + SearchSuffix).error))
    ensures search(query + SearchSuffix).Ok? && ExtractLinkedInUrl(search(query + SearchSuffix).value).None?
            ==> run == Run([SearchCall(query + SearchSuffix)], Err(InvalidOperation(NotFoundMessage)))
    ensures search(query + SearchSuffix).Ok? && ExtractLinkedInUrl(search(query + SearchSuffix).value).Some?
            ==> var url := ExtractLinkedInUrl(search(query + SearchSuffix).value).value;
                run == Run([SearchCall(query + SearchSuffix), ProfileCall(url)], profile(url))
  {
    var searched := query + SearchSuffix;
    match search(searched)
    case Err(e) => Run([SearchCall(searched)], Err(e))
    case Ok(text) =>
      match ExtractLinkedInUrl(text)
      // `string.IsNullOrEmpty`: a match is never empty, so only "no match" fails here
      case None => Run([SearchCall(searched)], Err(InvalidOperation(NotFoundMessage)))
      case Some(url) => Run([SearchCall(searched), ProfileCall(url)], profile(url))
  }

  /** The profile service is only ever called with a profile URL taken
      verbatim from the search result, at most once, and after the search. */
  lemma ProfileCalledOnlyWithExtractedUrl(query: string, search: string -> Result<string, Error>,
                                          profile: string -> Result<string, Error>)
    ensures var run := Enrich(query, search, profile);
            && |run.calls| <= 2
            && forall k :: 1 <= k < |run.calls| ==>
                 && run.calls[k].ProfileCall?
                 && search(query + SearchSuffix).Ok?
                 && IsProfileUrl(run.calls[k].url)
                 && exists i, j :: 0 <= i < j <= |search(query + SearchSuffix).value|
                                   && run.calls[k].url == search(query + SearchSuffix).value[i..j]
  {
  }

  /** A success is the profile service's answer, unchanged: a failure is
      never turned into a value. */
  lemma SuccessIsProfileAnswer(query: string, search: string -> Result<string, Error>,
                               profile: string -> Result<string, Error>)
    ensures var run := Enrich(query, search, profile);
            run.result.Ok? ==> && search(query + SearchSuffix).Ok?
                               && |run.calls| == 2
                               && run.result == profile(run.calls[1].url)
  {
  }

  /** Every failure comes from exactly one stage: the search, the
      extraction, or the profile lookup. */
  lemma FailureHasOneSource(query: string, search: string -> Result<string, Error>,
                            profile: string -> Result<string, Error>)
    ensures var run := Enrich(query, search, profile);
            var s := search(query + SearchSuffix);
            run.result.Err? ==>
              || (s.Err? && run.result.error == s.error && |run.calls| == 1)
              || (s.Ok? && ExtractLinkedInUrl(s.value).None? && run.result.error == InvalidOperation(NotFoundMessage)
                  && |run.calls| == 1)
              || (s.Ok? && |run.calls| == 2 && profile(run.calls[1].url) == run.result)
  {
  }

  /** The tool as the host constructs it: the profile tool's constructor
      throws without its key, so the enrichment tool cannot be built
      either; the search tool always can be. */
  datatype Tools = Tools(search: TavilySearch.SearchTool, profile: ScrapinProfile.ProfileTool)

  function NewTools(env: Environment): (r: Result<Tools, Error>)
    ensures r.Ok? <==> ScrapinProfile.ApiKeyVariable in env
    ensures r.Ok? ==> r.value.search == TavilySearch.NewSearchTool(env)
    ensures r.Ok? ==> r.value.profile.apiKey == env[ScrapinProfile.ApiKeyVariable]
    ensures r.Err? ==> r.error == InvalidOperation(ScrapinProfile.MissingKeyMessage)
  {
    var profile :- ScrapinProfile.NewProfileTool(env);
    Ok(Tools(TavilySearch.NewSearchTool(env), profile))
  }

  /** The pipeline wired to the two concrete tools over one transport: the
      search is the search tool's POST of the suffixed query, and the profile
      lookup is the profile tool's GET for the extracted URL. */
  function EnrichWith(tools: Tools, query: string, serialize: TavilySearch.QueryBody -> string,
                      send: Http.Transport): (run: Run)
    ensures var found := TavilySearch.Search(tools.search, query + SearchSuffix, serialize, send);
            && |run.calls| >= 1 && run.calls[0] == SearchCall(query + SearchSuffix)
            && (found.Err? ==> run.result == Err(found.error))
            && (|run.calls| == 2 <==> found.Ok? && ExtractLinkedInUrl(found.value).Some?)
            && (|run.calls| == 2 ==>
                  run.calls[1] == ProfileCall(ExtractLinkedInUrl(found.value).value)
                  && run.result == ScrapinProfile.GetProfileInfo(tools.profile, run.calls[1].url, send))
  {
    Enrich(query,
           q => TavilySearch.Search(tools.search, q, serialize, send),
           u => ScrapinProfile.GetProfileInfo(tools.profile, u, send))
  }

  /** When the wired pipeline reaches the profile service, the request it
      sends is a GET to the profile endpoint whose query string names the
      configured key and, as `linkedInUrl`, exactly the profile URL the
      matcher took out of the search service's response body: a substring
      of that body, casing kept. */
  lemma WiredProfileRequest(tools: Tools, query: string, serialize: TavilySearch.QueryBody -> string,
                            send: Http.Transport)
    ensures var run := EnrichWith(tools, query, serialize, send);
            var found := TavilySearch.Search(tools.search, query + SearchSuffix, serialize, send);
            |run.calls| == 2 ==>
              && found.Ok?
              && var url := ExtractLinkedInUrl(found.value).value;
              && (exists i, j :: 0 <= i < j <= |found.value| && url == found.value[i..j])
              && var request := ScrapinProfile.ProfileRequest(tools.profile, run.calls[1].url);
              && request.httpMethod == Http.Get
              && ScrapinProfile.ParseUri(request.uri)
                 == Some(ScrapinProfile.ParsedUri(ScrapinProfile.Endpoint,
                           [("apikey", tools.profile.apiKey), ("linkedInUrl", url)]))
  {
    ProfileCalledOnlyWithExtractedUrl(query,
      q => TavilySearch.Search(tools.search, q, serialize, send),
      u => ScrapinProfile.GetProfileInfo(tools.profile, u, send));
  }
}
