/** The outbound HTTP calls the two tools make, as data: the request each
    builds, the response the transport hands back, and
    `EnsureSuccessStatusCode` followed by reading the body as text. The
    transport itself is a parameter of every call. */
module Http {

  import opened Results
  import opened Errors

  datatype HttpMethod = Get | Post

  /** `AuthenticationHeaderValue(scheme, parameter)`. */
  datatype Authorization = Authorization(scheme: string, parameter: string)

  /** `StringContent(text, encoding, mediaType)`. */
  datatype Content = Content(text: string, charset: string, mediaType: string)

  datatype HttpRequest = HttpRequest(httpMethod: HttpMethod, uri: string,
                                     authorization: Option<Authorization>, content: Option<Content>)

  /** A response whose body has already been read as text. */
  datatype HttpResponse = HttpResponse(status: int, body: string)

  /** What sending a request can come to: a response, or an exception from
      the transport (the error it raises is whatever the transport says). */
  type Transport = HttpRequest -> Result<HttpResponse, Error>

  /** `IsSuccessStatusCode`: a status in the 2xx range. */
  predicate IsSuccessStatus(status: int)
  {
    200 <= status <= 299
  }

  /** `EnsureSuccessStatusCode()` then `ReadAsStringAsync()`: the body of a
      2xx response, verbatim; any other status throws. */
  function EnsureSuccess(response: HttpResponse): (r: Result<string, Error>)
    ensures r.Ok? <==> IsSuccessStatus(response.status)
    ensures r.Ok? ==> r.value == response.body
    ensures r.Err? ==> r.error == HttpStatus(response.status)
  {
    if IsSuccessStatus(response.status) then Ok(response.body) else Err(HttpStatus(response.status))
  }

  /** Sends `request` and reads the body of a successful response. Nothing is
      caught: a transport failure and a failed status both reach the caller. */
  function SendForBody(send: Transport, request: HttpRequest): (r: Result<string, Error>)
    ensures r.Ok? <==> send(request).Ok? && IsSuccessStatus(send(request).value.status)
    ensures r.Ok? ==> r.value == send(request).value.body
    ensures send(request).Err? ==> r == Err(send(request).error)
    ensures send(request).Ok? && r.Err? ==> r.error == HttpStatus(send(request).value.status)
  {
    var response :- send(request);
    EnsureSuccess(response)
  }
}
