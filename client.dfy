/** The embedding provider client: its configuration, the headers and HTTP
    request it builds, and how a received response is classified. The
    network itself is not modelled: what comes back for a request is an
    `Exchange` value supplied by the caller. */
module EmbeddingClient {
  import opened Outcomes

  const ApiBase: string := "https://lai.rambhat.la/v1"
  const OrganizationHeader: string := "OpenAI-Organization"
  const EmbeddingModel: string := "text-embedding-ada-002"
  const EmbeddingsPath: string := "/embeddings"

  datatype Client = Client(apiKey: string, apiBase: string, orgId: string)

  /** `Client::new`: the given key, the default base and no organization. */
  function NewClient(apiKey: string): (c: Client)
    ensures c.apiKey == apiKey && c.apiBase == ApiBase && c.orgId == ""
  {
    Client(apiKey, ApiBase, "")
  }

  /** The organization header is sent exactly when an organization is set,
      and it is the only header the client adds. */
  function Headers(c: Client): (h: map<string, string>)
    ensures OrganizationHeader in h <==> c.orgId != ""
    ensures forall name :: name in h ==> name == OrganizationHeader && h[name] == c.orgId
  {
    if c.orgId != "" then map[OrganizationHeader := c.orgId] else map[]
  }

  /** A client made by `NewClient`, the only way the source makes one,
      never sends the organization header. */
  lemma NewClientSendsNoHeaders(apiKey: string)
    ensures Headers(NewClient(apiKey)) == map[]
  {
    var h := Headers(NewClient(apiKey));
    assert forall name :: name !in h;
  }

  datatype EmbeddingRequest = EmbeddingRequest(model: string, input: seq<string>, user: Option<string>)

  /** The provider's answer: one embedding per input, in input order. */
  datatype EmbeddingResponse<V> = EmbeddingResponse(data: seq<seq<V>>)

  /** `create_embedding_request`: every field of the builder is set, so
      building never fails; the model is fixed, no user is sent and the
      input is passed through unchanged. */
  function CreateEmbeddingRequest(input: seq<string>): (r: Result<EmbeddingRequest>)
    ensures r.Ok?
    ensures r.value.model == EmbeddingModel && r.value.user == None && r.value.input == input
  {
    Ok(EmbeddingRequest(EmbeddingModel, input, None))
  }

  /** What goes on the wire: POST to `url` with a bearer token, the client's
      headers and the request as the JSON body. */
  datatype HttpRequest = HttpRequest(url: string, bearerToken: string, headers: map<string, string>, body: EmbeddingRequest)

  function BuildHttpRequest(c: Client, request: EmbeddingRequest): (h: HttpRequest)
    ensures h.url == c.apiBase + EmbeddingsPath && h.bearerToken == c.apiKey
    ensures h.headers == Headers(c) && h.body == request
  {
    HttpRequest(c.apiBase + EmbeddingsPath, c.apiKey, Headers(c), request)
  }

  /** What the network returned for one request: either the transport
      failed, or a status code arrived with a body, described by how that
      body parses as the provider's error object and as a response. */
  datatype Exchange<V> =
    | TransportFailure
    | Received(status: nat, asApiError: Option<string>, asResponse: Option<EmbeddingResponse<V>>)

  /** `StatusCode::is_success`: the 2xx range. */
  function IsSuccess(status: nat): (ok: bool)
    ensures ok <==> status / 100 == 2
  {
    200 <= status <= 299
  }

  /** The classification of `post_embedding_request`. A non-success status
      is read only as an error object; a success status only as a response;
      a body that does not parse as the shape it is read as is a
      deserialization error whatever the status. */
  function PostEmbeddingRequest<V>(x: Exchange<V>): (r: Result<EmbeddingResponse<V>>)
    ensures r.Ok? <==> x.Received? && IsSuccess(x.status) && x.asResponse.Some?
    ensures r.Ok? ==> r.value == x.asResponse.value
    ensures r == Err(Transport) <==> x.TransportFailure?
    ensures (r.Err? && r.error.ApiError?) <==> x.Received? && !IsSuccess(x.status) && x.asApiError.Some?
    ensures (r.Err? && r.error.ApiError?) ==> r.error.detail == x.asApiError.value
    ensures r == Err(JsonDeserialize) <==>
              x.Received? && (if IsSuccess(x.status) then x.asResponse.None? else x.asApiError.None?)
  {
    match x
    case TransportFailure => Err(Transport)
    case Received(status, asApiError, asResponse) =>
      if !IsSuccess(status) then
        match asApiError
        case None => Err(JsonDeserialize)
        case Some(detail) => Err(ApiError(detail))
      else
        match asResponse
        case None => Err(JsonDeserialize)
        case Some(response) => Ok(response)
  }

  /** A rate-limited answer (status 429) with a readable error body is the
      provider's own error, never a deserialization failure. */
  lemma RateLimitIsApiError<V>(detail: string, asResponse: Option<EmbeddingResponse<V>>)
    ensures PostEmbeddingRequest(Received(429, Some(detail), asResponse)) == Err(ApiError(detail))
  {
  }

  /** `get_embedding`: build the request for `input`, send it with `send`,
      classify the answer. */
  function GetEmbedding<V>(c: Client, input: seq<string>, send: HttpRequest -> Exchange<V>): (r: Result<EmbeddingResponse<V>>)
    ensures r == PostEmbeddingRequest(send(HttpRequest(c.apiBase + EmbeddingsPath, c.apiKey, Headers(c),
                                                       EmbeddingRequest(EmbeddingModel, input, None))))
  {
    match CreateEmbeddingRequest(input)
    case Err(e) => Err(e)
    case Ok(request) => PostEmbeddingRequest(send(BuildHttpRequest(c, request)))
  }
}
