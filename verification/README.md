# Chat back end and browser client: a Dafny model

This project models the logic the chatbot repository writes itself. The
language-model agent library, the HTTP transport, the JSON serialiser and the
environment surround that logic. Each of them is a parameter here: a function
from its input to its outcome.

The modelled parts:

- **Chat request binding** (`chat_request.dfy`, module `ChatModels`). The body
  of both chat endpoints is bound from JSON. `Message`, `Sender` and `Text`
  are required. `Timestamp` keeps its default when absent. An absent
  `ChatHistory` is the empty list. A bound request is then validated. The
  controller carries `[ApiController]`, and the project declares its string
  members non-nullable. So ASP.NET Core treats `Message`, and each item's
  `Sender` and `Text`, as `[Required]`. For an authenticated caller, empty or
  white-space-only text there is answered with 400 before either action runs.
  The actions are modelled on requests that passed this step.
- **Chat endpoints** (`agent_controller.dfy`, module `AgentController`).
  - The prompt is the message, a fixed sentence and the serialised history.
  - The blocking endpoint returns the agent's text unchanged.
  - The streaming endpoint frames the agent's text deltas as server-sent
    events. Each progress frame carries the text so far. Then exactly one
    terminal frame follows: the completion frame, or the fixed apology frame.
  - `ChatStream` is written as the controller's loop and proved equal to the
    reference function `StreamFrames`.
- **Browser client** (`api_client.dfy`, module `ApiClient`).
  - Request configuration: `credentials` is forced to `include`; caller
    headers override the defaults.
  - The URL is the base URL followed by the endpoint.
  - The stream reader's line buffer and the order of its callbacks.
- **Server and client together** (`stream_protocol.dfy`, module
  `StreamProtocol`). For any way the transport cuts the server's output into
  chunks, the client's buffer recovers exactly the server's JSON payloads, in
  order. The client then calls `onMessage` once per frame and `onComplete`
  last.
- **Profile URL matcher** (`linkedin_url.dfy`, module `LinkedInUrl`). The
  pattern `https://([a-z]{2,3}\.)?linkedin\.com/in/[a-zA-Z0-9\-_%]+` is
  matched case-insensitively and coded by hand. It gives the leftmost match,
  with the handle as long as possible. The matcher is proved against a
  declarative definition of a profile URL.
- **Enrichment pipeline** (`linkedin_enrichment.dfy`, module
  `LinkedInEnrichment`). The stages are: search, extract the URL, fetch the
  profile. The model records which service was called, with what, and in
  which order.
- **Search tool** (`tavily_search.dfy`, module `TavilySearch`) and **profile
  tool** (`scrapin_profile.dfy`, module `ScrapinProfile`). These cover the
  requests the tools build and how a status or a transport failure becomes
  the tool's failure. Shared HTTP pieces are in `http.dfy` (module `Http`).
- **`Uri.EscapeDataString`** (`utf8.dfy`, module `Utf8`; `percent_encoding.dfy`,
  module `PercentEncoding`). It is modelled concretely:
  - The unreserved set is that of section 2.3 of RFC 3986.
  - Every other character becomes percent-encoded UTF-8 (RFC 3629) bytes,
    written with upper-case hexadecimal digits (section 2.1 of RFC 3986).
  - Percent-decoding the result gives the value back. The profile request's
    query string is parsed back into exactly its two parameters.
- **JWT settings provider** (`jwt_settings.dfy`, module `JwtSettingsProvider`).
  It validates the settings, then memoises them in a one-slot cache that is
  set only on success.

Shared definitions live in `results.dfy` (modules `Results`, `Errors`) and
`strings.dfy` (module `Strings`). `Strings` defines concatenation, JavaScript's
`split`, and lines each terminated by a separator.

## Model

| member | source | states |
|---|---|---|
| ChatModels.BindHistoryItem | backend/src/lambda-api/Models/ChatRequest.cs:9-14 | An item binds exactly when `Sender` and `Text` are present. Both are kept verbatim: blank text is left to validation. An absent `Timestamp` takes the default. A rejection names exactly the missing required members. |
| ChatModels.BindHistory | backend/src/lambda-api/Models/ChatRequest.cs:6 | The history binds exactly when every item binds. Order and length are kept: item i of the result is the binding of item i. A failure is some item's own failure. |
| ChatModels.BindRequest | backend/src/lambda-api/Models/ChatRequest.cs:3-7 | A body binds exactly when `Message` is present and the history binds. An absent history becomes the empty list. A missing message alone is reported as `Message`. |
| ChatModels.BindRoundTrip | backend/src/lambda-api/Models/ChatRequest.cs:1-15 | Binding alone loses nothing: every request, sent with all members present, binds back to itself. Whether it is accepted is decided by validation (`ChatModels.ReceiveRoundTrip`). |
| ChatModels.HistoryProblems | backend/src/lambda-api/Models/ChatRequest.cs:6-12 | Validation of the history reports an item's `Sender` (or `Text`) path exactly when that member of that item is blank, and reports nothing else. |
| ChatModels.Validate | backend/src/lambda-api/Models/ChatRequest.cs:5-12 | A bound request passes exactly when `Message` and every item's `Sender` and `Text` hold some non-white-space text, and then it is unchanged. Otherwise the error lists `Message` exactly when it is blank and each item member exactly when it is blank. |
| ChatModels.Receive | backend/src/lambda-api/Models/ChatRequest.cs:1-15 | For an authenticated caller, a body reaches the action exactly when it binds and the bound request is valid. A binding failure is reported as such; a bound but invalid request fails validation. |
| ChatModels.ReceiveRoundTrip | backend/src/lambda-api/Models/ChatRequest.cs:1-15 | A request whose required texts are not blank is received exactly as sent. One with a blank required text is refused by validation. |
| ChatModels.BlankMessagesRejected | backend/src/lambda-api/Models/ChatRequest.cs:5 | The bodies with message `""` and message `" \t\n"` bind but are refused, naming `Message`. A message with surrounding spaces is accepted unchanged. |
| AgentController.BuildPrompt | backend/src/lambda-api/Controllers/AgentController.cs:22-25 | The prompt starts with the message. After it, with no separator, come the fixed sentence and the serialised history. |
| AgentController.PromptKeepsParts | backend/src/lambda-api/Controllers/AgentController.cs:22-45 | For messages of the same length, equal prompts mean equal messages and equal serialised histories: the prompt loses neither part, given the message length. |
| AgentController.Chat | backend/src/lambda-api/Controllers/AgentController.cs:20-29 | The reply is exactly the agent's final text for the prompt. The agent's failure is the endpoint's failure, unchanged. |
| AgentController.ProgressFrames | backend/src/lambda-api/Controllers/AgentController.cs:52-63 | One frame per delta. Frame i carries the concatenation of the first i+1 deltas, not delta i alone. It is not complete and not an error. |
| AgentController.StreamFrames | backend/src/lambda-api/Controllers/AgentController.cs:47-84 | For k deltas there are k+1 frames, and only the last is complete. On normal end the last frame carries the full text. On failure it carries the apology with `error` set. |
| AgentController.TerminalFrame | backend/src/lambda-api/Controllers/AgentController.cs:65-82 | The closing frame is complete and flagged as an error exactly when the run failed. On success its text repeats the last progress frame's text, or is empty when there was none. On failure it is the apology. |
| AgentController.EventText | backend/src/lambda-api/Controllers/AgentController.cs:61-82 | One event written to the response is exactly two lines: `data: ` with the payload, then the blank line that ends the event, whenever the payload has no newline. |
| AgentController.Wire | backend/src/lambda-api/Controllers/AgentController.cs:52-84 | The output is empty exactly before the first frame, and after any frame it ends with the blank line that closes an event. |
| AgentController.WireGrows | backend/src/lambda-api/Controllers/AgentController.cs:52-84 | What is written for the first k frames is a prefix of what is written for all of them: later events only append. |
| AgentController.ProgressTextsGrow | backend/src/lambda-api/Controllers/AgentController.cs:54-58 | Each progress frame's text is a prefix of every later frame's text, including the completion frame. |
| AgentController.ErrorFrameIsConstant | backend/src/lambda-api/Controllers/AgentController.cs:73-84 | Two failing runs end with the identical frame, whatever text came before. Its text is the fixed apology. |
| AgentController.StreamExamples | backend/src/lambda-api/Controllers/AgentController.cs:50-71 | `["Hel","lo"]` gives "Hel", "Hello", then "Hello" complete. A failure after "Hel" gives "Hel" then the apology. No deltas give one empty complete frame. |
| AgentController.ChatStream | backend/src/lambda-api/Controllers/AgentController.cs:32-85 | The controller's accumulate-and-write loop produces exactly `StreamFrames` of the agent's run for the prompt. It writes exactly `data: <json>` plus a blank line for each frame, in order. |
| StreamProtocol.WireIsEventLines | backend/src/lambda-api/Controllers/AgentController.cs:61-82 | What the endpoint writes is its event lines, each ended by `\n`: per frame, the `data: ` line and then an empty line. |
| StreamProtocol.EventLinesNewlineFree | backend/src/lambda-api/Controllers/AgentController.cs:55-61 | If no frame's JSON contains a raw newline, no event line does. |
| StreamProtocol.EventLinesPayloads | frontend/src/services/apiClient.ts:81-85 | The `data: ` payloads of the event lines are the frames' JSON texts, in order. The blank lines contribute nothing. |
| StreamProtocol.WireRoundTrip | frontend/src/services/apiClient.ts:76-91 | For any chunking of the server's output, the client's complete lines are exactly the event lines and its buffer ends empty. The payloads are exactly the frames' JSON, in order. |
| StreamProtocol.DispatchRendered | frontend/src/services/apiClient.ts:81-88 | With a parser that reads back what the serialiser wrote, dispatching the payloads calls `onMessage` with every frame, in order. |
| StreamProtocol.ClientReceivesFrames | frontend/src/services/apiClient.ts:53-91 | For a successful streamed response carrying the endpoint's output, the client's callbacks are `onMessage` for each frame in order, then `onComplete`. |
| ApiClient.WithDefaults | frontend/src/services/apiClient.ts:42-51 | `credentials` is `include` whatever the caller passes. The headers are the union of defaults and caller headers, and a caller header wins. The method and body are the caller's. |
| ApiClient.ApiClientCall | frontend/src/services/apiClient.ts:1-23 | Without a base URL it throws before any request. Otherwise it sends to base URL followed by endpoint, with JSON defaults. A rejected fetch or non-2xx status fails. Success is exactly a 2xx response whose body parses, and the value is the parse. |
| ApiClient.BodyText | frontend/src/services/apiClient.ts:22 | The text `response.json()` reads is the whole body, and it is the same text the streaming reader's lines and buffer spell out for those chunks. A body that fails while read fails with a read error; a missing body reads as empty text. |
| ApiClient.Feed | frontend/src/services/apiClient.ts:77-79 | The old buffer plus the chunk is exactly the complete lines, each followed by `\n`, then the new buffer. Neither the lines nor the buffer contain `\n`, so the buffer is the text after the last `\n`. |
| ApiClient.ReadChunks | frontend/src/services/apiClient.ts:69-80 | After any number of chunks, the lines taken so far, each with its `\n`, followed by the buffer, spell exactly the text received. |
| ApiClient.ChunkingIrrelevant | frontend/src/services/apiClient.ts:77-79 | Two chunkings of the same text give the same lines and the same buffer. |
| ApiClient.UnterminatedTailAddsNoLine | frontend/src/services/apiClient.ts:71-79 | A final chunk without `\n` adds no line: it only extends the buffer, which is never dispatched. |
| ApiClient.DataPayloadsAppend | frontend/src/services/apiClient.ts:81-82 | Lines are processed in order: the payloads of two runs of lines are the payloads of the first, then those of the second. |
| ApiClient.DataPayloads | frontend/src/services/apiClient.ts:81-84 | Each payload, prefixed with `data: `, is one of the lines. There are no payloads exactly when no line starts with `data: `. There are never more payloads than lines. |
| ApiClient.Dispatch | frontend/src/services/apiClient.ts:81-88 | Only `onMessage` calls, at most one per payload. None exactly when no payload parses. When every payload parses, one call per payload, in order, with its parsed value. |
| ApiClient.BadPayloadSkipped | frontend/src/services/apiClient.ts:83-88 | A payload that fails to parse is skipped, and every later payload is still delivered. |
| ApiClient.StreamApiClient | frontend/src/services/apiClient.ts:25-99 | Without a base URL it throws to the caller, sends nothing and calls nothing. Otherwise it never throws and makes exactly one final non-message callback. A rejected fetch gives only `onError` with a network error; a non-2xx status only `onError` with that status; a missing body only `onError` with "no response body". For a 2xx body the messages are the dispatch of its complete `data: ` lines, followed by `onComplete` when the body was read to its end and by `onError` with the read error when reading failed. |
| Strings.Split | frontend/src/services/apiClient.ts:78 | `split("\n")` gives at least one part. No part contains the separator, and joining the parts with it gives the text back. |
| Strings.SplitJoin | frontend/src/services/apiClient.ts:78-79 | Splitting inverts joining separator-free parts. |
| Strings.TerminatedUnique | frontend/src/services/apiClient.ts:78-79 | Text has only one reading as separator-free lines, each terminated, followed by a separator-free rest. |
| LinkedInUrl.HandleEnd | backend/src/lambda-api/Tools/LinkedInEnrichmentTool.cs:57 | The handle run extends over handle characters only. It stops at the end of the text or at a non-handle character, so it is greedy. |
| LinkedInUrl.ProfileUrlExtends | backend/src/lambda-api/Tools/LinkedInEnrichmentTool.cs:57 | Any substring that is a profile URL with a given subdomain length is found by the engine's attempt with that length at the same start. |
| LinkedInUrl.MatchAt | backend/src/lambda-api/Tools/LinkedInEnrichmentTool.cs:57 | A match at a start is a non-empty profile URL, ends where the handle can grow no further, and exists exactly when some profile URL starts there. |
| LinkedInUrl.AlternativesExclusive | backend/src/lambda-api/Tools/LinkedInEnrichmentTool.cs:57 | At any start, at most one of the three alternatives (three-letter subdomain, two-letter subdomain, none) can get as far as the handle, so the engine's order among them never changes the match. |
| LinkedInUrl.MatchAtIsLongest | backend/src/lambda-api/Tools/LinkedInEnrichmentTool.cs:57 | Whenever a profile URL starts at a position, the engine matches there, and its match is at least as long as that URL: the greedy handle gives the longest match. |
| LinkedInUrl.FindFrom | backend/src/lambda-api/Tools/LinkedInEnrichmentTool.cs:57-58 | The match found is a profile URL and no profile URL starts earlier. When nothing is found, no substring from that point on is a profile URL. |
| LinkedInUrl.FindProfileUrl | backend/src/lambda-api/Tools/LinkedInEnrichmentTool.cs:57-58 | `Regex.Match`: the leftmost match with a maximal handle. There is no match exactly when no substring is a profile URL. |
| LinkedInUrl.ExtractLinkedInUrl | backend/src/lambda-api/Tools/LinkedInEnrichmentTool.cs:54-60 | The result is a profile URL and a contiguous substring of the input, casing kept. It is absent exactly when no substring of the input is a profile URL. |
| LinkedInUrl.NoSchemeNoMatch | backend/src/lambda-api/Tools/LinkedInEnrichmentTool.cs:57 | With no `h` or `H` from some position on, no match is found from there. |
| LinkedInUrl.AcceptsSubdomainWww | backend/src/lambda-api/Tools/LinkedInEnrichmentTool.cs:57 | `https://www.linkedin.com/in/jane-doe_1` is extracted whole. |
| LinkedInUrl.AcceptsSubdomainFr | backend/src/lambda-api/Tools/LinkedInEnrichmentTool.cs:57 | `https://fr.linkedin.com/in/jean-pierre` is extracted whole. |
| LinkedInUrl.RejectsCompanyPage | backend/src/lambda-api/Tools/LinkedInEnrichmentTool.cs:57 | `https://linkedin.com/company/acme` yields no URL. |
| LinkedInUrl.RejectsPlainText | backend/src/lambda-api/Tools/LinkedInEnrichmentTool.cs:57 | The text `no profile link` yields no URL. |
| LinkedInEnrichment.Enrich | backend/src/lambda-api/Tools/LinkedInEnrichmentTool.cs:20-52 | Search is always called first, with the query plus ` LinkedIn URL`. A search failure ends the run with that failure. With no URL in the result, the run fails with the not-found message and no profile call. Otherwise the profile service is called once, with the extracted URL, and its result is returned unchanged. |
| LinkedInEnrichment.ProfileCalledOnlyWithExtractedUrl | backend/src/lambda-api/Tools/LinkedInEnrichmentTool.cs:32-42 | At most two calls are made. Any profile call follows a successful search and uses a profile URL that is a verbatim substring of the search result. |
| LinkedInEnrichment.SuccessIsProfileAnswer | backend/src/lambda-api/Tools/LinkedInEnrichmentTool.cs:42-45 | A successful run made both calls, and its value is the profile service's answer. |
| LinkedInEnrichment.FailureHasOneSource | backend/src/lambda-api/Tools/LinkedInEnrichmentTool.cs:24-51 | A failure is the search's failure, the not-found failure, or the profile service's failure, and never becomes a value. |
| LinkedInEnrichment.NewTools | backend/src/lambda-api/Tools/LinkedInEnrichmentTool.cs:10-16 | The tool can be constructed exactly when the profile key is set. The search tool never prevents it. |
| LinkedInEnrichment.EnrichWith | backend/src/lambda-api/Tools/LinkedInEnrichmentTool.cs:18-52 | With the two concrete tools injected, the first call is the search tool's for the suffixed query and its failure is the pipeline's. The profile tool is called exactly when the search succeeds and a profile URL is found in its body, with that URL, and its answer over the same transport is the pipeline's result. |
| LinkedInEnrichment.WiredProfileRequest | backend/src/lambda-api/Tools/LinkedInEnrichmentTool.cs:28-42 | When the wired pipeline calls the profile service, its GET's query string reads back as exactly the configured key and, as `linkedInUrl`, the profile URL the matcher took from the search response body, a substring of that body. |
| Http.EnsureSuccess | backend/src/lambda-api/Tools/TavilySearchTool.cs:31-32 | A response yields its body exactly when its status is 2xx, and the body is unmodified. Any other status fails with that status. |
| Http.SendForBody | backend/src/lambda-api/Tools/ScrapinLinkedInTool.cs:22-25 | Success is exactly a delivered 2xx response, and the value is its body. A transport failure and a failed status are both passed on. |
| TavilySearch.NewSearchTool | backend/src/lambda-api/Tools/TavilySearchTool.cs:11 | The key is the variable's value, or the empty text when unset. Construction cannot fail. |
| TavilySearch.SearchRequest | backend/src/lambda-api/Tools/TavilySearchTool.cs:22-29 | The request is a POST to the fixed endpoint, authorised with scheme `Bearer` and the key as parameter, and with a JSON body that is the serialisation of the one-member object `{ query }`. |
| TavilySearch.SearchRequestCarriesQuery | backend/src/lambda-api/Tools/TavilySearchTool.cs:23-29 | A parser inverse to the serialiser reads the body back as exactly the query. The bearer key is the environment's, or empty. |
| TavilySearch.Search | backend/src/lambda-api/Tools/TavilySearchTool.cs:16-42 | Success is exactly a 2xx response to that request, and the value is the raw body. Transport failures and failed statuses are rethrown. |
| ScrapinProfile.NewProfileTool | backend/src/lambda-api/Tools/ScrapinLinkedInTool.cs:10-14 | Construction succeeds exactly when the key variable is set, even to empty text. Otherwise it throws with the fixed message. |
| ScrapinProfile.ProfileRequest | backend/src/lambda-api/Tools/ScrapinLinkedInTool.cs:19-22 | The request is a GET of the escaped-query URI, with no authorisation and no body. |
| ScrapinProfile.GetProfileInfo | backend/src/lambda-api/Tools/ScrapinLinkedInTool.cs:17-26 | Success is exactly a 2xx response, and the value is the raw body. Failures pass through. |
| ScrapinProfile.DecodeNamedParameter | backend/src/lambda-api/Tools/ScrapinLinkedInTool.cs:21 | A parameter `name=esc(value)` reads back as exactly `(name, value)`. |
| ScrapinProfile.RequestUri | backend/src/lambda-api/Tools/ScrapinLinkedInTool.cs:21 | Whatever the key and URL contain, the URI's path is the endpoint. Its query reads back as exactly `apikey` = key and `linkedInUrl` = URL, in that order. |
| ScrapinProfile.Parameter | backend/src/lambda-api/Tools/ScrapinLinkedInTool.cs:21 | A parameter is its name, `=`, then text with no `&`, `=`, `?` or `#`, whatever the value: the value cannot end the parameter or add another. |
| ScrapinProfile.RequestUriInjective | backend/src/lambda-api/Tools/ScrapinLinkedInTool.cs:21 | Distinct profile URLs give distinct request URIs. |
| Utf8.EncodeChar | backend/src/lambda-api/Tools/ScrapinLinkedInTool.cs:21 | A character takes one to four bytes. It takes one byte exactly when it is ASCII, and that byte is its code. The other bytes are continuation bytes. |
| Utf8.DecodeFirstEncodeChar | backend/src/lambda-api/Tools/ScrapinLinkedInTool.cs:21 | The decoder reads an encoded character back, with its length, whatever follows. |
| Utf8.DecodeEncode | backend/src/lambda-api/Tools/ScrapinLinkedInTool.cs:21 | Decoding the UTF-8 bytes of any text gives the text back. |
| Utf8.EncodeAscii | backend/src/lambda-api/Tools/ScrapinLinkedInTool.cs:21 | ASCII text encodes to its own character codes, one byte each. |
| PercentEncoding.Triplet | backend/src/lambda-api/Tools/ScrapinLinkedInTool.cs:21 | A byte becomes `%` and two upper-case hexadecimal digits whose values are its high and low halves. |
| PercentEncoding.EscapeWellEscaped | backend/src/lambda-api/Tools/ScrapinLinkedInTool.cs:21 | The escaper's output consists of unreserved characters and well-formed triplets only. |
| PercentEncoding.WellEscapedAlphabet | backend/src/lambda-api/Tools/ScrapinLinkedInTool.cs:21 | Well-escaped text uses only unreserved characters, `%` and upper-case hexadecimal digits. |
| PercentEncoding.EscapedHasNoDelimiters | backend/src/lambda-api/Tools/ScrapinLinkedInTool.cs:21 | No escaped value contains `&`, `=`, `?`, `#`, `/`, `:`, `+` or a space. |
| PercentEncoding.UnescapeEscape | backend/src/lambda-api/Tools/ScrapinLinkedInTool.cs:21 | The bytes an escaped value stands for are exactly the UTF-8 bytes of the value. |
| PercentEncoding.PercentDecodeEscape | backend/src/lambda-api/Tools/ScrapinLinkedInTool.cs:21 | Percent-decoding an escaped value gives the value back. |
| PercentEncoding.EscapeInjective | backend/src/lambda-api/Tools/ScrapinLinkedInTool.cs:21 | Distinct values never share an escaped form. |
| PercentEncoding.EscapesPercentSign | backend/src/lambda-api/Tools/ScrapinLinkedInTool.cs:21 | `%` is escaped as `%25`. |
| PercentEncoding.EscapeUnreserved | backend/src/lambda-api/Tools/ScrapinLinkedInTool.cs:21 | Text of unreserved characters passes through unchanged. |
| PercentEncoding.EscapeDataString | backend/src/lambda-api/Tools/ScrapinLinkedInTool.cs:21 | Escaping keeps unreserved characters and replaces every other one by three to twelve characters, so the text grows by at most twelve times, and keeps its length exactly when every character is unreserved. |
| JwtSettingsProvider.Load | backend/src/lambda-api/Services/JwtSettingsProvider.cs:13-33 | An unset or empty variable fails as "not set". An unparseable value fails as "failed to parse". `null` or any empty setting fails as "missing required fields". Otherwise the parsed settings are returned. |
| JwtSettingsProvider.GetJwtSettings | backend/src/lambda-api/Services/JwtSettingsProvider.cs:8-37 | A cached value is returned without reading the environment. Otherwise the outcome is the load's. The cache is set exactly on success, to the returned value, and it only ever holds complete settings. |
| JwtSettingsProvider.CachedIsFinal | backend/src/lambda-api/Services/JwtSettingsProvider.cs:10-11 | Once cached, every later call returns the cached value, whatever the environment holds then, and the cache never changes. |
| JwtSettingsProvider.FirstSuccessSticks | backend/src/lambda-api/Services/JwtSettingsProvider.cs:8-37 | Across a sequence of calls, each call before the first success validates its own environment afresh. The first successful value is returned by that call and every later one, and it stays cached. |
| JwtSettingsProvider.RecoversAfterFailure | backend/src/lambda-api/Services/JwtSettingsProvider.cs:27-36 | A failed call leaves the cache empty, so a later call with a valid environment succeeds and caches its own value. |

## Left out

- The agent library, including its tool-calling loop and model calls, is a parameter. The blocking endpoint takes a final text or a failure; the streaming endpoint takes a delta sequence that ends or fails after its last delta.
- Response headers of the streaming endpoint (CORS, content type, keep-alive) and flushing are not modelled. Writes to the response are taken to succeed. If the final write failed, the source would send an error frame after the complete frame; that case is not modelled.
- JSON is abstract. The serialiser and parser are parameters, and the round-trip property assumes that a frame's JSON contains no raw newline and that the parser reads back what the serialiser wrote. A frame always carries `error`; the source omits that member from progress and completion frames, and the JSON renderer parameter may do the same.
- `TextDecoder` is left out: the response body arrives as already-decoded text chunks.
- `onError` and `onComplete` are optional in the source. The model records the callback made as if both were supplied. A throwing `onComplete` or `onError` is not modelled. A handler that throws from `onMessage` is treated like a payload that fails to parse: both are logged and skipped.
- `reader.releaseLock()` and console logging are not modelled, and neither is the server-side logging.
- `RequestInit` keeps only the method, body, credentials and headers as a plain name-to-value map. A `Headers` object or an array of pairs in `options.headers` is not modelled; nor is header-name case folding.
- Regex matching is hand-coded for this one pattern. Case folding is on ASCII letters only: .NET's culture-aware case-insensitive matching of non-ASCII characters (for example the Kelvin sign) is not modelled.
- Characters are Unicode scalar values. A lone UTF-16 surrogate in a .NET string, which the escaper replaces, cannot occur in the model.
- The percent-decoder is the model's own reading of a query string. It rejects a `%` not followed by two hexadecimal digits and splits parameters at `&` and their names at the first `=`. It is not a model of any particular server.
- HTTP clients are not modelled: `IHttpClientFactory`, default headers on a shared client, timeouts, async and cancellation. A transport is a function from the request to a response or a failure.
- The environment is read as a map from names to values, at construction for the two tools and at each call for the JWT provider.
- The static cache of the JWT settings is a value threaded through the calls. Concurrent first calls, each of which may load and store, are not modelled.
- The file declaring the `JwtSettings` class is not part of this model. Only the three members the provider validates are modelled, as optional strings.
- A member given as JSON `null` (for example `"chatHistory": null`) is not modelled: an absent member and a present value are the two cases.
- ChatModels.BindHistoryItem: the binder reports missing members by their JSON names and with a message format not modelled here. The model keeps only which members were missing.
- The project file is not part of this model. It is taken to enable nullable reference types, which is what makes the implicit `[Required]` of `ChatModels.Validate` apply. Validation errors are identified by member path; ASP.NET Core's key format (`ChatHistory[0].Sender`) and messages are not modelled.
- The `[Authorize]` attribute on the controller and the JWT bearer authentication set up at start-up run before binding: a caller without a valid token is answered with 401 and its body is never read. The model covers authenticated callers only; authentication is not modelled.
- ChatModels.Validate: lists every blank required member, while ASP.NET Core stops recording model errors at its error limit (`MvcOptions.MaxModelValidationErrors`, 200 by default) and replaces the last slot with a "too many errors" entry. A request with more blank members than that gets a shorter list; whether it is accepted or refused is unaffected.
