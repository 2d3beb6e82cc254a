/** The profile-enrichment tool: its key is required at construction, and
    each lookup is one GET whose query string carries the key and the
    profile URL, each escaped with `Uri.EscapeDataString`. */
module ScrapinProfile {

  import opened Results
  import opened Errors
  import opened Environments
  import opened Strings
  import opened Http
  import opened PercentEncoding

  const Endpoint := "https://api.scrapin.io/enrichment/profile"

  /** The environment variable holding the key, spelt as the source spells it. */
  const ApiKeyVariable := "ScrapintAPIKey"

  const MissingKeyMessage := "Failed to load Scrapin API key"

  datatype ProfileTool = ProfileTool(apiKey: string)

  /** The constructor: an unset variable throws, unlike the search tool's;
      a variable set to the empty text is accepted. */
  function NewProfileTool(env: Environment): (r: Result<ProfileTool, Error>)
    ensures r.Ok? <==> ApiKeyVariable in env
    ensures r.Ok? ==> r.value.apiKey == env[ApiKeyVariable]
    ensures r.Err? ==> r.error == InvalidOperation(MissingKeyMessage)
  {
    if ApiKeyVariable in env then Ok(ProfileTool(env[ApiKeyVariable]))
    else Err(InvalidOperation(MissingKeyMessage))
  }

  /** One query parameter: its name, `=`, and its escaped value. Whatever
      the value holds, nothing after the `=` is a query delimiter, so the
      parameter ends at the next `&` and its name at the first `=`. */
  function Parameter(name: string, value: string): (p: string)
    ensures |name| < |p| && p[..|name|] == name && p[|name|] == '='
    ensures forall k :: |name| < k < |p| ==> p[k] !in "&=?#"
  {
    EscapedHasNoDelimiters(value);
    var p := name + "=" + EscapeDataString(value);
    assert forall k :: |name| < k < |p| ==> p[k] == EscapeDataString(value)[k - |name| - 1];
    p
  }

  /** The request URI for a profile URL: `{Endpoint}?apikey={key}&linkedInUrl={url}`
      with both values escaped. Whatever the key and the profile URL contain
      (`&`, `=`, `?`, `/`, `:`, `%` or any other character), the service
      reads exactly two parameters back from it, named `apikey` and
      `linkedInUrl`, with exactly the key and the URL as values, and the
      path is the endpoint. */
  function RequestUri(tool: ProfileTool, linkedInUrl: string): (uri: string)
    ensures ParseUri(uri) == Some(ParsedUri(Endpoint, [("apikey", tool.apiKey), ("linkedInUrl", linkedInUrl)]))
  {
    QueryRoundTrip(tool.apiKey, linkedInUrl);
    Endpoint + "?" + Parameter("apikey", tool.apiKey) + "&" + Parameter("linkedInUrl", linkedInUrl)
  }

  function ProfileRequest(tool: ProfileTool, linkedInUrl: string): (request: HttpRequest)
    ensures request.httpMethod == Get && request.uri == RequestUri(tool, linkedInUrl)
    ensures request.authorization.None? && request.content.None?
  {
    HttpRequest(Get, RequestUri(tool, linkedInUrl), None, None)
  }

  /** `GetLinkedInProfileInfoAsync`: the raw body of a successful response;
      the transport's failure or the failed status otherwise. */
  function GetProfileInfo(tool: ProfileTool, linkedInUrl: string, send: Transport): (r: Result<string, Error>)
    ensures var response := send(ProfileRequest(tool, linkedInUrl));
            && (r.Ok? <==> response.Ok? && IsSuccessStatus(response.value.status))
            && (r.Ok? ==> r.value == response.value.body)
            && (response.Err? ==> r == Err(response.error))
            && (response.Ok? && r.Err? ==> r.error == HttpStatus(response.value.status))
  {
    SendForBody(send, ProfileRequest(tool, linkedInUrl))
  }

  /** How a server reads a URI: the path before the first `?`, then the
      `&`-separated parameters, each a name and a value split at the first
      `=` and percent-decoded. */
  datatype ParsedUri = ParsedUri(path: string, parameters: seq<(string, string)>)

  function DecodeParameter(p: string): Option<(string, string)>
  {
    var (name, value) := SplitFirst(p, '=');
    match (PercentDecode(name), PercentDecode(value.GetOr("")))
    case (Some(n), Some(v)) => Some((n, v))
    case _ => None
  }

  function DecodeParameters(ps: seq<string>): (r: Option<seq<(string, string)>>)
    ensures r.Some? ==> |r.value| == |ps|
  {
    if |ps| == 0 then Some([])
    else match (DecodeParameter(ps[0]), DecodeParameters(ps[1..]))
      case (Some(p), Some(rest)) => Some([p] + rest)
      case _ => None
  }

  function ParseUri(uri: string): Option<ParsedUri>
  {
    var (path, query) := SplitFirst(uri, '?');
    if query.None? then Some(ParsedUri(path, []))
    else match DecodeParameters(Split(query.value, '&'))
      case Some(ps) => Some(ParsedUri(path, ps))
      case None => None
  }

  lemma DecodeNamedParameter(name: string, value: string)
    requires forall k :: 0 <= k < |name| ==> IsUnreserved(name[k])
    ensures DecodeParameter(Parameter(name, value)) == Some((name, value))
  {
    assert '=' !in name;
    SplitFirstAt(name, EscapeDataString(value), '=');
    EscapeUnreserved(name);
    PercentDecodeEscape(name);
    PercentDecodeEscape(value);
  }

  lemma EndpointHasNoQuery()
    ensures '?' !in Endpoint
  {
  }

  lemma ParameterNames()
    ensures forall k :: 0 <= k < |"apikey"| ==> IsUnreserved("apikey"[k])
    ensures forall k :: 0 <= k < |"linkedInUrl"| ==> IsUnreserved("linkedInUrl"[k])
  {
  }

  lemma NoAmpersand(name: string, value: string)
    requires forall k :: 0 <= k < |name| ==> IsUnreserved(name[k])
    ensures '&' !in Parameter(name, value)
  {
    var p := Parameter(name, value);
    forall k | 0 <= k < |p|
      ensures p[k] != '&'
    {
      if k < |name| {
        assert p[k] == p[..|name|][k] == name[k];
      }
    }
  }

  lemma SplitPair(p1: string, p2: string, sep: char)
    requires sep !in p1 && sep !in p2
    ensures Split(p1 + [sep] + p2, sep) == [p1, p2]
  {
    assert [p1, p2][1..] == [p2];
    assert Join([p1, p2], sep) == p1 + [sep] + p2;
    SplitJoin([p1, p2], sep);
  }

  lemma DecodePair(p1: string, p2: string, d1: (string, string), d2: (string, string))
    requires DecodeParameter(p1) == Some(d1) && DecodeParameter(p2) == Some(d2)
    ensures DecodeParameters([p1, p2]) == Some([d1, d2])
  {
    var single: seq<string> := [p2];
    assert single[0] == p2 && single[1..] == [];
    assert DecodeParameters(single[1..]) == Some([]);
    assert DecodeParameters(single) == Some([d2] + []);
    assert [d2] + [] == [d2];
    var pair: seq<string> := [p1, p2];
    assert pair[0] == p1 && pair[1..] == single;
    assert DecodeParameters(pair[1..]) == Some([d2]);
    assert DecodeParameters(pair) == Some([d1] + [d2]);
    assert [d1] + [d2] == [d1, d2];
  }

  lemma QueryRoundTrip(key: string, linkedInUrl: string)
    ensures ParseUri(Endpoint + "?" + Parameter("apikey", key) + "&" + Parameter("linkedInUrl", linkedInUrl))
         == Some(ParsedUri(Endpoint, [("apikey", key), ("linkedInUrl", linkedInUrl)]))
  {
    var p1 := Parameter("apikey", key);
    var p2 := Parameter("linkedInUrl", linkedInUrl);
    var query := p1 + ['&'] + p2;
    assert Endpoint + "?" + p1 + "&" + p2 == Endpoint + ['?'] + query;
    EndpointHasNoQuery();
    SplitFirstAt(Endpoint, query, '?');
    ParameterNames();
    NoAmpersand("apikey", key);
    NoAmpersand("linkedInUrl", linkedInUrl);
    SplitPair(p1, p2, '&');
    DecodeNamedParameter("apikey", key);
    DecodeNamedParameter("linkedInUrl", linkedInUrl);
    DecodePair(p1, p2, ("apikey", key), ("linkedInUrl", linkedInUrl));
  }

  /** Distinct profile URLs are sent as distinct requests. */
  lemma RequestUriInjective(tool: ProfileTool, u1: string, u2: string)
    requires RequestUri(tool, u1) == RequestUri(tool, u2)
    ensures u1 == u2
  {
  }
}
