/** The chat endpoint: an ordered ladder of guards in front of one call to
    the conversational agent, whose streamed chunks are joined into the
    reply. The token verifier and the agent are oracles (function-typed
    parameters); the result records which of them were called and with what. */
module ChatHandler {
  import opened Values
  import opened Text
  import opened Http
  import opened Tokens

  const MissingAuthorization: string := "Missing or invalid Authorization header"
  const TokenExpired: string := "Token has expired"
  const TokenInvalid: string := "Invalid token"
  const MissingSession: string := "Missing session ID in token"
  const MissingInput: string := "Missing 'input' field"
  const InternalError: string := "Internal server error"
  const BearerPrefix: string := "Bearer "

  /** The parts of the API Gateway event the handler reads. `headers` and
      `body` are `None` when the event has no such key. */
  datatype ChatEvent = ChatEvent(httpMethod: string, headers: Option<map<string, string>>, body: Option<RequestBody>)

  /** One event of the agent's completion stream, with its chunk's bytes
      already decoded to text. */
  datatype StreamEvent = StreamEvent(chunk: Option<Chunk>)
  datatype Chunk = Chunk(bytes: Option<string>)

  /** The keyword arguments of `invoke_agent`. `memoryId` is `None` when the
      `sub` claim is a list or dict, whose Python rendering is not modelled. */
  datatype AgentRequest = AgentRequest(
    agentId: string, agentAliasId: string, sessionId: Json, inputText: Json,
    enableTrace: bool, endSession: Json, memoryId: Option<string>)

  /** What `invoke_agent` and the iteration over its stream produced: the
      response's `completion` entry (`None` if it has none), or the text of
      the exception raised on the way. */
  datatype AgentReply = Streamed(completion: Option<seq<StreamEvent>>) | AgentFailure(message: string)

  /** Process configuration: the agent ids and `BEDROCK_REFUSAL_MESSAGE`. */
  datatype Config = Config(agentId: string, agentAliasId: string, refusalMessage: Option<string>)

  /** The response, the token handed to the verifier (if it was called), the
      request sent to the agent (if it was invoked), and whether the
      guardrail warning was logged. */
  datatype ChatResult = ChatResult(
    response: Response, verifiedToken: Option<string>, agentCall: Option<AgentRequest>, guardrailWarning: bool)

  // ---------------------------------------------------------------------
  // The steps of the ladder
  // ---------------------------------------------------------------------

  /** The authorization header, looked up under the exact lower-case key;
      an event without headers has none. */
  function AuthorizationHeader(headers: Option<map<string, string>>): Option<string> {
    var h := if headers.Some? then headers.value else map[];
    if "authorization" in h then Some(h["authorization"]) else None
  }

  predicate StartsWith(s: string, prefix: string) {
    |prefix| <= |s| && s[..|prefix|] == prefix
  }

  /** The header guard: a header is present and starts with "Bearer ". */
  predicate BearerPresent(header: Option<string>) {
    header.Some? && StartsWith(header.value, BearerPrefix)
  }

  /** The second space-separated field of the header: the text after "Bearer " up to the next
      space, empty when another space follows at once. */
  function BearerToken(header: string): (token: string)
    requires StartsWith(header, BearerPrefix)
    ensures token == TakeUntil(header[|BearerPrefix|..], ' ')
    ensures ' ' !in token
  {
    BearerFields(header);
    SplitJoin(header, ' ');
    Split(header, ' ')[1]
  }

  lemma BearerFields(header: string)
    requires StartsWith(header, BearerPrefix)
    ensures |Split(header, ' ')| >= 2
    ensures Split(header, ' ')[1] == TakeUntil(header[|BearerPrefix|..], ' ')
  {
    var rest := header[|BearerPrefix|..];
    assert header == "Bearer" + [' '] + rest by {
      assert header == header[..|BearerPrefix|] + rest;
    }
    SplitAfterField("Bearer", rest, ' ');
    SplitHead(rest, ' ');
  }

  /** `verify_jwt`: the decoded payload, or the text of the exception it raises. */
  function VerifyJwt(d: Decoding): (r: Result<map<string, Json>>)
    ensures r.Ok? <==> d.Decoded?
    ensures r.Ok? ==> r.value == d.payload
    ensures d.ExpiredSignature? ==> r == Err("Token has expired")
    ensures d.InvalidToken? ==> r == Err("Invalid token")
    ensures d.DecodeFailure? ==> r == Err(d.message)
  {
    match d
    case Decoded(payload) => Ok(payload)
    case ExpiredSignature => Err(TokenExpired)
    case InvalidToken => Err(TokenInvalid)
    case DecodeFailure(message) => Err(message)
  }

  /** The agent memory id: "memory-" followed by the `sub` claim as Python
      renders it (`None`, `True`, `False`, decimal integers, text as is). */
  function MemoryId(sub: Json): (id: Option<string>)
    ensures id.Some? <==> !sub.JArray? && !sub.JObject?
    ensures id.Some? ==> StartsWith(id.value, "memory-")
    ensures sub.JStr? ==> id == Some("memory-" + sub.s)
  {
    match sub
    case JStr(s) => Some("memory-" + s)
    case JNull => Some("memory-None")
    case JBool(b) => Some(if b then "memory-True" else "memory-False")
    case JNum(n) => Some("memory-" + Decimal(n))
    case _ => None
  }

  /** The event's body, or an empty JSON object when the event has none. */
  function BodyOrEmpty(body: Option<RequestBody>): RequestBody {
    if body.Some? then body.value else Parsed(JObject(map[]))
  }

  /** What one stream event adds: its chunk's bytes, or "" when the event has
      no chunk or the chunk no bytes. */
  function ChunkText(e: StreamEvent): string {
    if e.chunk.Some? && e.chunk.value.bytes.Some? then e.chunk.value.bytes.value else ""
  }

  /** The completion after the events so far, in arrival order. */
  function Completion(events: seq<StreamEvent>): string
    decreases |events|
  {
    if events == [] then "" else Completion(events[..|events| - 1]) + ChunkText(events[|events| - 1])
  }

  /** The chunk loop: each event's text is appended to the completion in
      arrival order. */
  method CollectCompletion(events: seq<StreamEvent>) returns (completion: string)
    ensures completion == Completion(events)
  {
    completion := "";
    for i := 0 to |events|
      invariant completion == Completion(events[..i])
    {
      completion := completion + ChunkText(events[i]);
      assert events[..i + 1][..i] == events[..i];
    }
    assert events[..|events|] == events;
  }

  /** The guardrail check: a non-empty refusal message is configured and the
      completion is exactly that message. */
  predicate GuardrailIntervened(refusal: Option<string>, completion: string) {
    refusal.Some? && refusal.value != "" && completion == refusal.value
  }

  function InternalErrorBody(details: string): map<string, string> {
    map["error" := InternalError, "details" := details]
  }

  // ---------------------------------------------------------------------
  // lambda_handler
  // ---------------------------------------------------------------------

  /** The token the handler hands to the verifier, if it gets that far. */
  function PresentedToken(event: ChatEvent): Option<string> {
    var header := AuthorizationHeader(event.headers);
    if event.httpMethod != "OPTIONS" && BearerPresent(header) then Some(BearerToken(header.value)) else None
  }

  /** `lambda_handler(event, context)` of the chat endpoint. */
  function Handle(event: ChatEvent, verify: string -> Decoding, agent: AgentRequest -> AgentReply, config: Config): (r: ChatResult)
    ensures r.response.headers == CorsHeaders
    ensures r.response.statusCode in {200, 400, 401, 500}
    ensures r.verifiedToken == PresentedToken(event)
    ensures r.agentCall.Some? ==> r.verifiedToken.Some? && verify(r.verifiedToken.value).Decoded?
    ensures r.response.statusCode == 200 && event.httpMethod != "OPTIONS" ==> r.agentCall.Some?
  {
    if event.httpMethod == "OPTIONS" then
      ChatResult(PreflightOk(), None, None, false)
    else
      var header := AuthorizationHeader(event.headers);
      if !BearerPresent(header) then
        ChatResult(Respond(401, ErrorBody(MissingAuthorization)), None, None, false)
      else
        var token := BearerToken(header.value);
        match VerifyJwt(verify(token))
        case Err(message) =>
          ChatResult(Respond(401, ErrorBody(message)), Some(token), None, false)
        case Ok(payload) =>
          if "email" !in payload then
            ChatResult(Respond(500, InternalErrorBody(KeyErrorText("email"))), Some(token), None, false)
          else
            var sessionId := GetOr(payload, "sessionId", JNull);
            if !Truthy(sessionId) then
              ChatResult(Respond(401, ErrorBody(MissingSession)), Some(token), None, false)
            else
              match LoadObject(BodyOrEmpty(event.body))
              case Err(details) =>
                ChatResult(Respond(500, InternalErrorBody(details)), Some(token), None, false)
              case Ok(body) =>
                var input := GetOr(body, "input", JNull);
                if !Truthy(input) then
                  ChatResult(Respond(400, ErrorBody(MissingInput)), Some(token), None, false)
                else
                  var request := AgentRequest(
                    config.agentId, config.agentAliasId, sessionId, input, false,
                    GetOr(body, "endSession", JBool(false)), MemoryId(GetOr(payload, "sub", JNull)));
                  match agent(request)
                  case AgentFailure(details) =>
                    ChatResult(Respond(500, InternalErrorBody(details)), Some(token), Some(request), false)
                  case Streamed(events) =>
                    var completion := Completion(if events.Some? then events.value else []);
                    ChatResult(Respond(200, map["response" := completion]), Some(token), Some(request),
                               GuardrailIntervened(config.refusalMessage, completion))
  }

  // ---------------------------------------------------------------------
  // Properties of the ladder
  // ---------------------------------------------------------------------

  /** A verified request: past the method and header guards, with a token
      that decodes to `payload`. */
  predicate Verified(event: ChatEvent, verify: string -> Decoding, payload: map<string, Json>) {
    PresentedToken(event).Some? && verify(PresentedToken(event).value) == Decoded(payload)
  }

  /** An OPTIONS request is answered before headers or body are looked at. */
  lemma PreflightFirst(event: ChatEvent, verify: string -> Decoding, agent: AgentRequest -> AgentReply, config: Config)
    requires event.httpMethod == "OPTIONS"
    ensures Handle(event, verify, agent, config) == ChatResult(PreflightOk(), None, None, false)
  {
  }

  /** No `authorization` value, or one not starting with "Bearer ", is
      refused before the verifier or the agent is called. */
  lemma MissingBearerRefused(event: ChatEvent, verify: string -> Decoding, agent: AgentRequest -> AgentReply, config: Config)
    requires event.httpMethod != "OPTIONS"
    requires !BearerPresent(AuthorizationHeader(event.headers))
    ensures Handle(event, verify, agent, config) == ChatResult(Respond(401, ErrorBody(MissingAuthorization)), None, None, false)
  {
  }

  /** Only the exact key "authorization" is read: a header sent as
      "Authorization" alone counts as missing. */
  lemma CapitalisedHeaderIgnored(event: ChatEvent, verify: string -> Decoding, agent: AgentRequest -> AgentReply, config: Config)
    requires event.httpMethod != "OPTIONS"
    requires event.headers.Some? && "Authorization" in event.headers.value && "authorization" !in event.headers.value
    ensures Handle(event, verify, agent, config).response == Respond(401, ErrorBody(MissingAuthorization))
    ensures Handle(event, verify, agent, config).agentCall == None
  {
  }

  /** The verifier receives the second space-separated field of the header. */
  lemma TokenIsSecondField(event: ChatEvent, verify: string -> Decoding, agent: AgentRequest -> AgentReply, config: Config)
    requires event.httpMethod != "OPTIONS"
    requires event.headers.Some? && "authorization" in event.headers.value
    requires StartsWith(event.headers.value["authorization"], BearerPrefix)
    ensures Handle(event, verify, agent, config).verifiedToken
         == Some(TakeUntil(event.headers.value["authorization"][|BearerPrefix|..], ' '))
  {
  }

  /** A token that fails verification is refused with the verifier's message:
      "Token has expired", "Invalid token", or the text of any other error. */
  lemma VerificationFailureRefused(event: ChatEvent, verify: string -> Decoding, agent: AgentRequest -> AgentReply, config: Config)
    requires PresentedToken(event).Some?
    requires !verify(PresentedToken(event).value).Decoded?
    ensures var r := Handle(event, verify, agent, config);
      r.agentCall == None &&
      r.response == Respond(401, ErrorBody(
        match verify(PresentedToken(event).value)
        case ExpiredSignature => "Token has expired"
        case InvalidToken => "Invalid token"
        case DecodeFailure(m) => m))
  {
  }

  /** A payload without `email` raises KeyError inside the handler's `try`,
      before the session check: 500 "Internal server error". */
  lemma MissingEmailIsInternalError(event: ChatEvent, verify: string -> Decoding, agent: AgentRequest -> AgentReply, config: Config, payload: map<string, Json>)
    requires Verified(event, verify, payload) && "email" !in payload
    ensures var r := Handle(event, verify, agent, config);
      r.agentCall == None && r.response.statusCode == 500 &&
      r.response.body == map["error" := "Internal server error", "details" := "'email'"]
  {
    assert KeyErrorText("email") == "'email'";
  }

  /** The session check comes before the body is read: a missing or empty
      `sessionId` is refused whatever the body holds, `input` included. */
  lemma SessionCheckedFirst(event: ChatEvent, verify: string -> Decoding, agent: AgentRequest -> AgentReply, config: Config, payload: map<string, Json>)
    requires Verified(event, verify, payload) && "email" in payload
    requires !Truthy(GetOr(payload, "sessionId", JNull))
    ensures var r := Handle(event, verify, agent, config);
      r.agentCall == None && r.response == Respond(401, ErrorBody(MissingSession))
  {
  }

  /** With a session, a body that is malformed or not a JSON object is
      answered 500 "Internal server error" with the error's text as details,
      and the agent is not invoked; an event without a body is read as the
      empty object "{}" and so lacks `input`: 400. */
  lemma BadBodyIsInternalError(event: ChatEvent, verify: string -> Decoding, agent: AgentRequest -> AgentReply, config: Config, payload: map<string, Json>)
    requires Verified(event, verify, payload) && "email" in payload
    requires Truthy(GetOr(payload, "sessionId", JNull))
    ensures event.body.Some? && LoadObject(event.body.value).Err? ==>
      var r := Handle(event, verify, agent, config);
      r.agentCall == None && r.response.statusCode == 500 &&
      r.response.body == map["error" := "Internal server error", "details" := LoadObject(event.body.value).error]
    ensures event.body.None? ==>
      var r := Handle(event, verify, agent, config);
      r.agentCall == None && r.response == Respond(400, ErrorBody(MissingInput))
  {
  }

  /** With a session, a body whose `input` is missing or empty gets 400 and
      the agent is not invoked. */
  lemma MissingInputRejected(event: ChatEvent, verify: string -> Decoding, agent: AgentRequest -> AgentReply, config: Config, payload: map<string, Json>, body: map<string, Json>)
    requires Verified(event, verify, payload) && "email" in payload
    requires Truthy(GetOr(payload, "sessionId", JNull))
    requires LoadObject(BodyOrEmpty(event.body)) == Ok(body)
    requires !Truthy(GetOr(body, "input", JNull))
    ensures var r := Handle(event, verify, agent, config);
      r.agentCall == None && r.response == Respond(400, ErrorBody(MissingInput))
  {
  }

  /** Past every guard, the agent is invoked with the session id and input,
      `endSession` defaulting to false, and the memory id "memory-" + sub;
      its streamed chunks are returned, in order, as the 200 reply. A
      completion equal to the refusal message is returned unchanged; it only
      logs the guardrail warning. */
  lemma AgentInvoked(event: ChatEvent, verify: string -> Decoding, agent: AgentRequest -> AgentReply, config: Config, payload: map<string, Json>, body: map<string, Json>)
    requires Verified(event, verify, payload) && "email" in payload
    requires Truthy(GetOr(payload, "sessionId", JNull))
    requires LoadObject(BodyOrEmpty(event.body)) == Ok(body)
    requires Truthy(GetOr(body, "input", JNull))
    ensures var r := Handle(event, verify, agent, config);
      var request := AgentRequest(config.agentId, config.agentAliasId, payload["sessionId"], body["input"], false,
        if "endSession" in body then body["endSession"] else JBool(false), MemoryId(GetOr(payload, "sub", JNull)));
      && r.agentCall == Some(request)
      && (agent(request).AgentFailure? ==>
            r.response == Respond(500, map["error" := "Internal server error", "details" := agent(request).message]))
      && (agent(request).Streamed? ==>
            var events := if agent(request).completion.Some? then agent(request).completion.value else [];
            && r.response == Respond(200, map["response" := Completion(events)])
            && r.guardrailWarning == (config.refusalMessage.Some? && config.refusalMessage.value != ""
                                      && Completion(events) == config.refusalMessage.value))
  {
  }

  /** Completion distributes over concatenated streams: chunks are joined in
      arrival order and none is dropped or repeated. */
  lemma {:induction false} CompletionAppend(a: seq<StreamEvent>, b: seq<StreamEvent>)
    ensures Completion(a + b) == Completion(a) + Completion(b)
    decreases |b|
  {
    if b == [] {
      assert a + b == a;
    } else {
      var b', last := b[..|b| - 1], b[|b| - 1];
      var ab := a + b;
      assert ab[..|ab| - 1] == a + b';
      assert ab[|ab| - 1] == last;
      assert Completion(ab) == Completion(a + b') + ChunkText(last);
      assert Completion(b) == Completion(b') + ChunkText(last);
      CompletionAppend(a, b');
    }
  }

  /** The completion only grows as events arrive: what was collected after
      the first `i` events is a prefix of the final completion. */
  lemma CompletionGrows(events: seq<StreamEvent>, i: int)
    requires 0 <= i <= |events|
    ensures Completion(events[..i]) <= Completion(events)
  {
    assert events == events[..i] + events[i..];
    CompletionAppend(events[..i], events[i..]);
  }

  /** A token the shared-secret signer produced verifies to its claims
      before `exp`, and to "Token has expired" from then on. */
  lemma VerifyJwtOfSignedToken(c: ClaimSet, sign: ClaimSet -> Signing, verify: string -> Decoding, clock: int)
    requires SharedSecret(sign, verify, clock) && sign(c).Signed? && c.iat <= clock
    ensures VerifyJwt(verify(sign(c).token)) == if clock < c.exp then Ok(Payload(c)) else Err("Token has expired")
  {
  }

  /** Distinct text subjects name distinct memories. */
  lemma TextSubjectsKeepMemoriesApart(a: string, b: string)
    requires MemoryId(JStr(a)) == MemoryId(JStr(b))
    ensures a == b
  {
    assert ("memory-" + a)[7..] == a;
    assert ("memory-" + b)[7..] == b;
  }

  /** Python's rendering makes some subjects of other types name the same
      memory as a text subject: a token without `sub` shares the memory of
      the subject "None", and the number 5 that of the subject "5". */
  lemma OtherSubjectsCollide()
    ensures MemoryId(JNull) == MemoryId(JStr("None"))
    ensures MemoryId(JBool(true)) == MemoryId(JStr("True"))
    ensures MemoryId(JNum(5)) == MemoryId(JStr("5"))
  {
    assert "memory-" + "None" == "memory-None";
    assert "memory-" + "True" == "memory-True";
    assert Decimal(5) == "5";
  }

  /** The refusal message only decides whether the warning is logged: the
      response and the agent call are the same whatever it is. */
  lemma RefusalMessageOnlyLogs(event: ChatEvent, verify: string -> Decoding, agent: AgentRequest -> AgentReply, c1: Config, c2: Config)
    requires c1.agentId == c2.agentId && c1.agentAliasId == c2.agentAliasId
    ensures Handle(event, verify, agent, c1).response == Handle(event, verify, agent, c2).response
    ensures Handle(event, verify, agent, c1).agentCall == Handle(event, verify, agent, c2).agentCall
  {
  }

  /** `[b"Hello, ", b"world!"]` becomes "Hello, world!"; an event without a
      chunk adds nothing. */
  lemma CompletionExample()
    ensures Completion([StreamEvent(Some(Chunk(Some("Hello, ")))), StreamEvent(None), StreamEvent(Some(Chunk(Some("world!"))))])
         == "Hello, world!"
  {
    var e1, e2, e3 := StreamEvent(Some(Chunk(Some("Hello, ")))), StreamEvent(None), StreamEvent(Some(Chunk(Some("world!"))));
    assert [e1, e2, e3][..2] == [e1, e2];
    assert [e1, e2][..1] == [e1];
    assert [e1][..0] == [];
    assert Completion([e1]) == "Hello, ";
    assert Completion([e1, e2]) == "Hello, ";
    assert Completion([e1, e2, e3]) == "Hello, " + "world!";
  }
}
