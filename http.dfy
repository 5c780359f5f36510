/**
 * What travels between the client and the server: requests, the call log entry
 * for each dispatched request, responses and errors as axios reports them, and
 * the server's answers to one request made through the configured `api` instance.
 */
module Http {
  import opened Wrappers

  /** The axios entry point that issued a call: the `api` instance, whose request
      and response interceptors run, or the bare `axios` module, which has none. */
  datatype Channel = Instance | Bare

  /** A request body: nothing, a flat JSON object, a JSON array of flat objects,
      or a multipart form of named files. */
  datatype Payload =
    | NoBody
    | Fields(fields: map<string, string>)
    | Records(records: seq<map<string, string>>)
    | Files(files: seq<string>)

  datatype Request = Request(verb: string, url: string, headers: map<string, string>, body: Payload)

  /** One request as it left the client, with the entry point that sent it. */
  datatype Call = Call(channel: Channel, request: Request)

  const AuthorizationHeader := "Authorization"

  /** The headers every request made through the `api` instance starts with. */
  const InstanceHeaders: map<string, string> := map["Content-Type" := "application/json"]

  /** A request made through the `api` instance, before its interceptor runs: it
      carries the instance's JSON content type and no credential yet. */
  function ApiRequest(verb: string, url: string, body: Payload): (r: Request)
    ensures r.verb == verb && r.url == url && r.body == body
    ensures "Content-Type" in r.headers && r.headers["Content-Type"] == "application/json"
    ensures AuthorizationHeader !in r.headers
  {
    Request(verb, url, InstanceHeaders, body)
  }

  /** A failed call: no response at all (a network failure), or a response with its
      HTTP status and the `msg` and `message` fields of its JSON body, if any. */
  datatype HttpError =
    | NoResponse
    | ErrorResponse(status: int, msg: Option<string>, message: Option<string>)
  {
    /** `err.response?.status === code` */
    predicate HasStatus(code: int)
    {
      ErrorResponse? && status == code
    }

    /** `err.response?.data?.msg || fallback` */
    function MsgOr(fallback: string): string
    {
      if ErrorResponse? then Or(msg, fallback) else fallback
    }

    /** `err.response?.data?.message || fallback` */
    function MessageOr(fallback: string): string
    {
      if ErrorResponse? then Or(message, fallback) else fallback
    }
  }

  /** JavaScript `v || fallback` on an optional string: absent and empty are falsy. */
  function Or(v: Option<string>, fallback: string): string
  {
    if v.Some? && v.value != "" then v.value else fallback
  }

  /** The outcome of one call: the response body's data, or the error. */
  datatype Response<T> = Ok(data: T) | Fail(error: HttpError)

  /** The server's answers to every call that one request through the `api`
      instance may give rise to: the request itself, the token refresh (whose
      data is the new access token) and the replay of the request. Which of them
      are consulted depends on the client's logic. */
  datatype Exchange<T> = Exchange(first: Response<T>, refresh: Response<string>, replay: Response<T>)
}
