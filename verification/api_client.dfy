/** The browser's HTTP client: `apiClient` for JSON calls and
    `streamApiClient` for the event-stream chat endpoint, which reads the
    response body as text chunks, cuts it into lines and hands every
    `data: ` line's payload to `onMessage`.

    `fetch`, the `TextDecoder` and `JSON.parse` are parameters: `fetch` maps
    the request to an outcome, the body arrives as already-decoded text
    chunks, and parsing either yields a value or fails. */
module ApiClient {

  import opened Results
  import opened Strings

  /** The members of `RequestInit` the client reads or writes; `headers` is
      a plain object of header names to values. */
  datatype RequestInit = RequestInit(
    httpMethod: Option<string>,
    body: Option<string>,
    credentials: Option<string>,
    headers: Option<map<string, string>>)

  const JsonHeaders: map<string, string> := map["Content-Type" := "application/json"]

  const EventStreamHeaders: map<string, string> := map[
    "Content-Type" := "application/json",
    "Accept" := "text/event-stream",
    "Cache-Control" := "no-cache"]

  function CallerHeaders(options: RequestInit): map<string, string>
  {
    options.headers.GetOr(map[])
  }

  /** `{ ...options, credentials: "include", headers: { ...defaults, ...options.headers } }`:
      the caller cannot change `credentials`; its headers override the
      defaults of the same name and keep the other defaults. */
  function WithDefaults(options: RequestInit, defaults: map<string, string>): (config: RequestInit)
    ensures config.credentials == Some("include")
    ensures config.httpMethod == options.httpMethod && config.body == options.body
    ensures config.headers.Some?
    ensures config.headers.value.Keys == defaults.Keys + CallerHeaders(options).Keys
    ensures forall name :: name in CallerHeaders(options) ==> config.headers.value[name] == CallerHeaders(options)[name]
    ensures forall name :: name in defaults && name !in CallerHeaders(options) ==> config.headers.value[name] == defaults[name]
  {
    options.(credentials := Some("include"), headers := Some(defaults + CallerHeaders(options)))
  }

  datatype Request = Request(url: string, init: RequestInit)

  /** The errors the client raises or reports. */
  datatype ClientError =
    | ApiUrlUndefined       // "API URL is not defined in environment variables"
    | HttpError(status: int) // "HTTP error! status: <status>"
    | NetworkError          // `fetch` rejected
    | NoResponseBody        // "No response body"
    | ReadError             // a `reader.read()` rejected
    | InvalidJson           // `response.json()` rejected

  datatype BodyEnd = Done | ReadFailed

  /** A response body: the decoded text chunks it delivered, then its end. */
  datatype Body = Body(chunks: seq<string>, end: BodyEnd)

  datatype Response = Response(status: int, body: Option<Body>)

  datatype FetchOutcome = Rejected | Resolved(response: Response)

  /** `response.ok` */
  predicate IsOk(status: int)
  {
    200 <= status <= 299
  }

  /** `!apiUrl` is false: the variable is set and not empty. */
  predicate ApiUrlDefined(apiUrl: Option<string>)
  {
    apiUrl.Some? && apiUrl.value != ""
  }

  /** One call: the request sent, if any, and what the promise settles to. */
  datatype Call<T> = Call(sent: Option<Request>, result: Result<T, ClientError>)

  /** The text `response.json()` parses: the whole body, or nothing. It
      is the text the streaming reader's lines and buffer spell out for the
      same chunks; a body that fails while being read fails the parse. */
  function BodyText(response: Response): (r: Result<string, ClientError>)
    ensures r.Ok? <==> response.body.None? || response.body.value.end == Done
    ensures r.Err? ==> r.error == ReadError
    ensures response.body.None? ==> r == Ok("")
    ensures r.Ok? && response.body.Some? ==>
              var batch := ReadChunks(response.body.value.chunks);
              r.value == Terminated(batch.lines, '\n') + batch.buffer
  {
    match response.body
    case None => Ok("")
    case Some(body) => if body.end == Done then Ok(Concat(body.chunks)) else Err(ReadError)
  }

  /** `apiClient(endpoint, options)`. */
  function ApiClientCall<T>(apiUrl: Option<string>, endpoint: string, options: RequestInit,
                            fetch: Request -> FetchOutcome, parse: string -> Option<T>): (call: Call<T>)
    ensures !ApiUrlDefined(apiUrl) ==> call == Call(None, Err(ApiUrlUndefined))
    ensures ApiUrlDefined(apiUrl) ==>
      call.sent == Some(Request(apiUrl.value + endpoint, WithDefaults(options, JsonHeaders)))
    ensures ApiUrlDefined(apiUrl) ==>
      var outcome := fetch(call.sent.value);
      && (outcome.Rejected? ==> call.result == Err(NetworkError))
      && (outcome.Resolved? && !IsOk(outcome.response.status) ==> call.result == Err(HttpError(outcome.response.status)))
      && (call.result.Ok? <==> outcome.Resolved? && IsOk(outcome.response.status)
                               && BodyText(outcome.response).Ok? && parse(BodyText(outcome.response).value).Some?)
      && (call.result.Ok? ==> Some(call.result.value) == parse(BodyText(outcome.response).value))
  {
    if !ApiUrlDefined(apiUrl) then Call(None, Err(ApiUrlUndefined))
    else
      var request := Request(apiUrl.value + endpoint, WithDefaults(options, JsonHeaders));
      var result := match fetch(request)
        case Rejected => Err(NetworkError)
        case Resolved(response) =>
          if !IsOk(response.status) then Err(HttpError(response.status))
          else match BodyText(response)
            case Err(e) => Err(e)
            case Ok(text) => match parse(text)
              case None => Err(InvalidJson)
              case Some(value) => Ok(value);
      Call(Some(request), result)
  }

  // ---- the line buffer of streamApiClient ----

  const DataPrefix := "data: "

  /** Complete lines taken from the stream, and the unterminated rest kept
      in the buffer. */
  datatype LineBatch = LineBatch(lines: seq<string>, buffer: string)

  predicate NoNewline(s: string)
  {
    '\n' !in s
  }

  predicate AllNoNewline(lines: seq<string>)
  {
    forall k :: 0 <= k < |lines| ==> NoNewline(lines[k])
  }

  /** One step of the read loop: append the chunk to the buffer, split on
      `\n`, keep the last piece. The old buffer and the chunk are exactly the
      complete lines, each with its `\n`, followed by the new buffer. */
  function Feed(buffer: string, chunk: string): (batch: LineBatch)
    ensures Terminated(batch.lines, '\n') + batch.buffer == buffer + chunk
    ensures AllNoNewline(batch.lines) && NoNewline(batch.buffer)
  {
    var parts := Split(buffer + chunk, '\n');
    JoinAsTerminated(parts, '\n');
    LineBatch(parts[..|parts| - 1], parts[|parts| - 1])
  }

  /** The read loop over every chunk received, from an empty buffer. */
  function ReadChunks(chunks: seq<string>): (batch: LineBatch)
    ensures Terminated(batch.lines, '\n') + batch.buffer == Concat(chunks)
    ensures AllNoNewline(batch.lines) && NoNewline(batch.buffer)
  {
    if |chunks| == 0 then LineBatch([], "")
    else
      var before := ReadChunks(chunks[..|chunks| - 1]);
      var step := Feed(before.buffer, chunks[|chunks| - 1]);
      FeedExtends(before, chunks[|chunks| - 1]);
      LineBatch(before.lines + step.lines, step.buffer)
  }

  /** Feeding a chunk after earlier lines keeps their reading: the lines so
      far, then the new buffer, spell the text so far followed by the chunk. */
  lemma FeedExtends(before: LineBatch, chunk: string)
    requires AllNoNewline(before.lines) && NoNewline(before.buffer)
    ensures var step := Feed(before.buffer, chunk);
            && Terminated(before.lines + step.lines, '\n') + step.buffer
               == Terminated(before.lines, '\n') + before.buffer + chunk
            && AllNoNewline(before.lines + step.lines)
  {
    var step := Feed(before.buffer, chunk);
    var lines := before.lines + step.lines;
    TerminatedAppend(before.lines, step.lines, '\n');
    calc {
      Terminated(lines, '\n') + step.buffer;
      Terminated(before.lines, '\n') + (Terminated(step.lines, '\n') + step.buffer);
      Terminated(before.lines, '\n') + (before.buffer + chunk);
    }
    forall k | 0 <= k < |lines|
      ensures NoNewline(lines[k])
    {
      if k >= |before.lines| {
        assert lines[k] == step.lines[k - |before.lines|];
      }
    }
  }

  /** How the text was cut into chunks does not matter: only the text does. */
  lemma ChunkingIrrelevant(a: seq<string>, b: seq<string>)
    requires Concat(a) == Concat(b)
    ensures ReadChunks(a) == ReadChunks(b)
  {
    var ra, rb := ReadChunks(a), ReadChunks(b);
    TerminatedUnique(ra.lines, ra.buffer, rb.lines, rb.buffer, '\n');
  }

  /** Text after the last `\n` is never delivered as a line: a trailing
      chunk without a newline adds no line. */
  lemma UnterminatedTailAddsNoLine(chunks: seq<string>, tail: string)
    requires NoNewline(tail)
    ensures ReadChunks(chunks + [tail]).lines == ReadChunks(chunks).lines
    ensures ReadChunks(chunks + [tail]).buffer == ReadChunks(chunks).buffer + tail
  {
    var before, after := ReadChunks(chunks), ReadChunks(chunks + [tail]);
    assert (chunks + [tail])[..|chunks|] == chunks;
    assert Concat(chunks + [tail]) == Concat(chunks) + tail;
    assert Terminated(after.lines, '\n') + after.buffer
        == Terminated(before.lines, '\n') + (before.buffer + tail);
    assert NoNewline(before.buffer + tail);
    TerminatedUnique(after.lines, after.buffer, before.lines, before.buffer + tail, '\n');
  }

  /** The payloads of the `data: ` lines, in order, each without its first
      six characters; every other line is skipped. */
  function DataPayloads(lines: seq<string>): (payloads: seq<string>)
    ensures |payloads| <= |lines|
    ensures forall k :: 0 <= k < |payloads| ==> DataPrefix + payloads[k] in lines
    ensures payloads == [] <==> forall j :: 0 <= j < |lines| ==> !(DataPrefix <= lines[j])
  {
    if |lines| == 0 then []
    else
      var rest := DataPayloads(lines[1..]);
      assert forall k :: 0 <= k < |rest| ==> DataPrefix + rest[k] in lines by {
        forall k | 0 <= k < |rest| ensures DataPrefix + rest[k] in lines {
          var j :| 0 <= j < |lines[1..]| && lines[1..][j] == DataPrefix + rest[k];
          assert lines[j + 1] == DataPrefix + rest[k];
        }
      }
      if DataPrefix <= lines[0] then
        assert DataPrefix + lines[0][|DataPrefix|..] == lines[0];
        [lines[0][|DataPrefix|..]] + rest
      else rest
  }

  lemma {:induction false} DataPayloadsAppend(a: seq<string>, b: seq<string>)
    ensures DataPayloads(a + b) == DataPayloads(a) + DataPayloads(b)
    decreases |a|
  {
    if |a| == 0 {
      assert a + b == b;
    } else {
      assert (a + b)[1..] == a[1..] + b;
      DataPayloadsAppend(a[1..], b);
    }
  }

  datatype Event<T> = OnMessage(data: T) | OnError(error: ClientError) | OnComplete

  /** `onMessage` for every payload that parses; a payload that fails to
      parse (or whose handler throws) is logged and skipped. */
  function Dispatch<T>(payloads: seq<string>, parse: string -> Option<T>): (events: seq<Event<T>>)
    ensures |events| <= |payloads|
    ensures forall k :: 0 <= k < |events| ==> events[k].OnMessage?
    ensures events == [] <==> forall k :: 0 <= k < |payloads| ==> parse(payloads[k]).None?
    ensures (forall k :: 0 <= k < |payloads| ==> parse(payloads[k]).Some?) ==>
              |events| == |payloads| && forall k :: 0 <= k < |payloads| ==> events[k] == OnMessage(parse(payloads[k]).value)
  {
    if |payloads| == 0 then []
    else (match parse(payloads[0]) case Some(v) => [OnMessage(v)] case None => []) + Dispatch(payloads[1..], parse)
  }

  lemma {:induction false} DispatchAppend<T>(a: seq<string>, b: seq<string>, parse: string -> Option<T>)
    ensures Dispatch(a + b, parse) == Dispatch(a, parse) + Dispatch(b, parse)
    decreases |a|
  {
    if |a| == 0 {
      assert a + b == b;
    } else {
      assert (a + b)[1..] == a[1..] + b;
      DispatchAppend(a[1..], b, parse);
    }
  }

  /** A payload that fails to parse is skipped and the ones after it are
      still delivered. */
  lemma BadPayloadSkipped<T>(a: seq<string>, bad: string, b: seq<string>, parse: string -> Option<T>)
    requires parse(bad).None?
    ensures Dispatch(a + [bad] + b, parse) == Dispatch(a, parse) + Dispatch(b, parse)
  {
    DispatchAppend(a + [bad], b, parse);
    DispatchAppend(a, [bad], parse);
  }

  /** What one `streamApiClient` call does: the request it sends, whether it
      throws to its caller, and the callbacks it makes, in order. */
  datatype StreamCall<T> = StreamCall(sent: Option<Request>, thrown: Option<ClientError>, events: seq<Event<T>>)

  /** `streamApiClient(endpoint, options, onMessage, onError, onComplete)`. */
  function StreamApiClient<T>(apiUrl: Option<string>, endpoint: string, options: RequestInit,
                              fetch: Request -> FetchOutcome, parse: string -> Option<T>): (call: StreamCall<T>)
    ensures !ApiUrlDefined(apiUrl) ==> call == StreamCall(None, Some(ApiUrlUndefined), [])
    ensures ApiUrlDefined(apiUrl) ==>
      && call.thrown.None?
      && call.sent == Some(Request(apiUrl.value + endpoint, WithDefaults(options, EventStreamHeaders)))
      && |call.events| >= 1
      && (forall k :: 0 <= k < |call.events| - 1 ==> call.events[k].OnMessage?)
      && !call.events[|call.events| - 1].OnMessage?
    ensures ApiUrlDefined(apiUrl) ==>
      var outcome := fetch(call.sent.value);
      && (call.events[|call.events| - 1] == OnComplete <==>
            outcome.Resolved? && IsOk(outcome.response.status) && outcome.response.body.Some?
            && outcome.response.body.value.end == Done)
      && (outcome.Resolved? && IsOk(outcome.response.status) && outcome.response.body.Some? ==>
            call.events[..|call.events| - 1]
              == Dispatch(DataPayloads(ReadChunks(outcome.response.body.value.chunks).lines), parse))
    ensures ApiUrlDefined(apiUrl) ==>
      var outcome := fetch(call.sent.value);
      && (outcome.Rejected? ==> call.events == [OnError(NetworkError)])
      && (outcome.Resolved? && !IsOk(outcome.response.status) ==>
            call.events == [OnError(HttpError(outcome.response.status))])
      && (outcome.Resolved? && IsOk(outcome.response.status) && outcome.response.body.None? ==>
            call.events == [OnError(NoResponseBody)])
      && (outcome.Resolved? && IsOk(outcome.response.status) && outcome.response.body.Some?
          && outcome.response.body.value.end == ReadFailed ==>
            call.events[|call.events| - 1] == OnError(ReadError))
  {
    if !ApiUrlDefined(apiUrl) then StreamCall(None, Some(ApiUrlUndefined), [])
    else
      var request := Request(apiUrl.value + endpoint, WithDefaults(options, EventStreamHeaders));
      var events: seq<Event<T>> := match fetch(request)
        case Rejected => [OnError(NetworkError)]
        case Resolved(response) =>
          if !IsOk(response.status) then [OnError(HttpError(response.status))]
          else if response.body.None? then [OnError(NoResponseBody)]
          else
            var body := response.body.value;
            var messages := Dispatch(DataPayloads(ReadChunks(body.chunks).lines), parse);
            messages + [if body.end == Done then OnComplete else OnError(ReadError)];
      StreamCall(Some(request), None, events)
  }
}
