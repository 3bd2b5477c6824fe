/** The HTTP surface shared by the three handlers: the response shape that
    `_response` builds, the parsed request body, and how an invocation ends. */
module Http {
  import opened Values

  /** What `_response` returns; the body is the dict that `json.dumps` serialises. */
  datatype Response = Response(statusCode: int, headers: map<string, string>, body: map<string, string>)

  /** The fixed headers every response carries. */
  const CorsHeaders: map<string, string> := map[
    "Content-Type" := "application/json",
    "Access-Control-Allow-Origin" := "*",
    "Access-Control-Allow-Headers" := "Content-Type,Authorization",
    "Access-Control-Allow-Methods" := "OPTIONS,POST"
  ]

  /** `_response(status_code, body)`. */
  function Respond(statusCode: int, body: map<string, string>): (r: Response)
    ensures r.headers == CorsHeaders
    ensures r.headers["Access-Control-Allow-Origin"] == "*"
    ensures r.statusCode == statusCode && r.body == body
  {
    Response(statusCode, CorsHeaders, body)
  }

  /** `{"error": message}`. */
  function ErrorBody(message: string): map<string, string> {
    map["error" := message]
  }

  /** The answer to an `OPTIONS` request, identical in all three handlers. */
  function PreflightOk(): (r: Response)
    ensures r.statusCode == 200 && r.headers == CorsHeaders
    ensures r.body == map["message" := "Preflight OK"]
  {
    Respond(200, map["message" := "Preflight OK"])
  }

  /** What `json.loads` made of the event's body text: a value, or the text
      of the exception it raised (malformed JSON, or a body that is not text). */
  datatype RequestBody = Parsed(value: Json) | Malformed(message: string)

  /** `json.loads(text)` followed by a `.get` on the result: a JSON object
      yields its fields, any other JSON value raises an AttributeError. */
  function LoadObject(b: RequestBody): (r: Result<map<string, Json>>)
    ensures r.Ok? <==> b.Parsed? && b.value.JObject?
    ensures r.Ok? ==> r.value == b.value.fields
    ensures b.Parsed? && !b.value.JObject? ==> r == Err(AttributeErrorText(b.value, "get"))
    ensures b.Malformed? ==> r == Err(b.message)
  {
    match b
    case Malformed(m) => Err(m)
    case Parsed(JObject(fields)) => Ok(fields)
    case Parsed(v) => Err(AttributeErrorText(v, "get"))
  }

  /** How an invocation of a handler ends: with a response, or with an
      exception that escapes the handler to the Lambda runtime. */
  datatype Outcome = Returned(response: Response) | Raised(message: string)
}
