/** The login endpoint: validate the body, look the user up, check the
    password, issue a token. The credential store, bcrypt and the token
    signer are oracles; the handler only reads the store. */
module LoginHandler {
  import opened Values
  import opened Http
  import opened Tokens

  const CredentialsRequired: string := "Email and password are required"
  const InvalidCredentials: string := "Invalid email or password"
  const LoginSuccessful: string := "Login successful"

  datatype LoginEvent = LoginEvent(httpMethod: string, body: Option<RequestBody>)

  /** What the store read keyed by email returned: the `Item` entry, no
      item, or the exception raised. */
  datatype Lookup = Item(attributes: map<string, Json>) | NoItem | LookupFailure(message: string)

  /** What `bcrypt.checkpw` returned or raised. */
  datatype Check = Match | Mismatch | CheckFailure(message: string)

  /** The oracles and inputs one invocation sees: the store read, bcrypt's
      check, the token signer, the clock (seconds) and the fresh uuid. */
  datatype Services = Services(
    getItem: Json -> Lookup, checkPassword: (string, string) -> Check, sign: ClaimSet -> Signing,
    now: int, uuid: string)

  /** The response, the key looked up in the store (if it was read), and the
      claims handed to the signer (if a token was requested). */
  datatype LoginResult = LoginResult(response: Response, lookedUp: Option<Json>, issued: Option<ClaimSet>)

  /** `generate_jwt(email)`: the subject is the email exactly as given. */
  function LoginClaims(email: Json, now: int, uuid: string): (c: ClaimSet)
    ensures c.sub == c.email == email
    ensures c.sessionId == uuid && c.iat == now
    ensures c.exp - c.iat == 24 * 60 * 60
  {
    ClaimSet(email, uuid, now + ExpirationSeconds, now, email)
  }

  function Failed(message: string, lookedUp: Option<Json>): LoginResult {
    LoginResult(Respond(500, ErrorBody(message)), lookedUp, None)
  }

  /** `lambda_handler(event, context)` of the login endpoint. */
  function Handle(event: LoginEvent, svc: Services): (r: LoginResult)
    ensures r.response.headers == CorsHeaders
    ensures r.response.statusCode in {200, 400, 401, 500}
    ensures r.response.statusCode == 200 && event.httpMethod != "OPTIONS" ==>
      r.issued.Some? && r.issued.value == LoginClaims(r.issued.value.email, svc.now, svc.uuid)
      && r.lookedUp == Some(r.issued.value.email)
      && svc.sign(r.issued.value).Signed?
      && r.response.body == map["message" := LoginSuccessful, "token" := svc.sign(r.issued.value).token]
  {
    if event.httpMethod == "OPTIONS" then
      LoginResult(PreflightOk(), None, None)
    else if event.body.None? then
      Failed(KeyErrorText("body"), None)
    else
      match LoadObject(event.body.value)
      case Err(message) => Failed(message, None)
      case Ok(body) =>
        var email := GetOr(body, "email", JNull);
        var password := GetOr(body, "password", JNull);
        if !Truthy(email) || !Truthy(password) then
          LoginResult(Respond(400, ErrorBody(CredentialsRequired)), None, None)
        else
          match svc.getItem(email)
          case LookupFailure(message) => Failed(message, Some(email))
          case NoItem => LoginResult(Respond(401, ErrorBody(InvalidCredentials)), Some(email), None)
          case Item(user) =>
            if user == map[] then
              LoginResult(Respond(401, ErrorBody(InvalidCredentials)), Some(email), None)
            else if "password" !in user then
              Failed(KeyErrorText("password"), Some(email))
            else if !password.JStr? then
              Failed(AttributeErrorText(password, "encode"), Some(email))
            else if !user["password"].JStr? then
              Failed(AttributeErrorText(user["password"], "encode"), Some(email))
            else
              match svc.checkPassword(password.s, user["password"].s)
              case CheckFailure(message) => Failed(message, Some(email))
              case Mismatch => LoginResult(Respond(401, ErrorBody(InvalidCredentials)), Some(email), None)
              case Match =>
                var claims := LoginClaims(email, svc.now, svc.uuid);
                match svc.sign(claims)
                case SigningFailure(message) => LoginResult(Respond(500, ErrorBody(message)), Some(email), Some(claims))
                case Signed(token) =>
                  LoginResult(Respond(200, map["message" := LoginSuccessful, "token" := token]), Some(email), Some(claims))
  }

  /** The body's email and password, when the body is a JSON object. */
  predicate HasFields(event: LoginEvent, email: Json, password: Json) {
    event.httpMethod != "OPTIONS" && event.body.Some? && LoadObject(event.body.value).Ok?
    && GetOr(LoadObject(event.body.value).value, "email", JNull) == email
    && GetOr(LoadObject(event.body.value).value, "password", JNull) == password
  }

  /** A body that is missing, malformed or not a JSON object is answered 500
      by the handler's `except Exception` before the store is read: a
      missing body with the KeyError text "'body'", the others with the
      text of the parser's or the `.get` error. */
  lemma BodyFailuresReported(event: LoginEvent, svc: Services)
    requires event.httpMethod != "OPTIONS"
    ensures event.body.None? ==>
      Handle(event, svc) == LoginResult(Respond(500, ErrorBody("'body'")), None, None)
    ensures event.body.Some? && LoadObject(event.body.value).Err? ==>
      Handle(event, svc) == LoginResult(Respond(500, ErrorBody(LoadObject(event.body.value).error)), None, None)
  {
    assert KeyErrorText("body") == "'body'";
  }

  lemma PreflightFirst(event: LoginEvent, svc: Services)
    requires event.httpMethod == "OPTIONS"
    ensures Handle(event, svc) == LoginResult(PreflightOk(), None, None)
  {
  }

  /** A missing or empty email or password is refused before the store is read. */
  lemma CredentialsRequiredFirst(event: LoginEvent, svc: Services, email: Json, password: Json)
    requires HasFields(event, email, password)
    requires !Truthy(email) || !Truthy(password)
    ensures Handle(event, svc) == LoginResult(Respond(400, ErrorBody(CredentialsRequired)), None, None)
  {
  }

  /** An unknown email and a wrong password get the same 401 response, so a
      caller cannot tell which one happened. */
  lemma UnknownUserLooksLikeWrongPassword(event: LoginEvent, unknown: Services, known: Services, email: Json, password: Json)
    requires HasFields(event, email, password) && Truthy(email) && password.JStr? && password.s != ""
    requires unknown.getItem(email) == NoItem
    requires known.getItem(email).Item? && "password" in known.getItem(email).attributes
    requires known.getItem(email).attributes["password"].JStr?
    requires known.checkPassword(password.s, known.getItem(email).attributes["password"].s) == Mismatch
    ensures Handle(event, unknown).response == Handle(event, known).response
    ensures Handle(event, unknown).response == Respond(401, ErrorBody(InvalidCredentials))
  {
  }

  /** Every exception inside the handler's `try` becomes 500 with its text:
      a store error, a stored user without a password, a password or stored
      hash that is not text, a bcrypt error, or a signer error. */
  lemma ServiceFailuresReported(event: LoginEvent, svc: Services, email: Json, password: Json)
    requires HasFields(event, email, password) && Truthy(email) && Truthy(password)
    ensures svc.getItem(email).LookupFailure? ==>
      Handle(event, svc).response == Respond(500, ErrorBody(svc.getItem(email).message))
    ensures (svc.getItem(email).Item? && svc.getItem(email).attributes != map[]
             && "password" !in svc.getItem(email).attributes) ==>
      Handle(event, svc).response == Respond(500, ErrorBody("'password'"))
    ensures (svc.getItem(email).Item? && "password" in svc.getItem(email).attributes
             && !password.JStr?) ==>
      Handle(event, svc).response == Respond(500, ErrorBody(AttributeErrorText(password, "encode")))
    ensures (svc.getItem(email).Item? && "password" in svc.getItem(email).attributes
             && password.JStr? && !svc.getItem(email).attributes["password"].JStr?) ==>
      Handle(event, svc).response == Respond(500, ErrorBody(AttributeErrorText(svc.getItem(email).attributes["password"], "encode")))
    ensures (svc.getItem(email).Item? && "password" in svc.getItem(email).attributes
             && password.JStr? && svc.getItem(email).attributes["password"].JStr?
             && svc.checkPassword(password.s, svc.getItem(email).attributes["password"].s).CheckFailure?) ==>
      Handle(event, svc).response
        == Respond(500, ErrorBody(svc.checkPassword(password.s, svc.getItem(email).attributes["password"].s).message))
    ensures (svc.getItem(email).Item? && "password" in svc.getItem(email).attributes
             && password.JStr? && svc.getItem(email).attributes["password"].JStr?
             && svc.checkPassword(password.s, svc.getItem(email).attributes["password"].s) == Match
             && svc.sign(LoginClaims(email, svc.now, svc.uuid)).SigningFailure?) ==>
      Handle(event, svc).response == Respond(500, ErrorBody(svc.sign(LoginClaims(email, svc.now, svc.uuid)).message))
  {
    assert KeyErrorText("password") == "'password'";
  }

  /** A token is issued only to a stored user whose text password hash
      bcrypt reports as matching the text password given. */
  lemma TokenOnlyOnMatch(event: LoginEvent, svc: Services, email: Json, password: Json)
    requires HasFields(event, email, password)
    requires Handle(event, svc).response.statusCode == 200
    ensures svc.getItem(email).Item? && "password" in svc.getItem(email).attributes
    ensures password.JStr? && svc.getItem(email).attributes["password"].JStr?
    ensures svc.checkPassword(password.s, svc.getItem(email).attributes["password"].s) == Match
    ensures Handle(event, svc).issued == Some(LoginClaims(email, svc.now, svc.uuid))
  {
  }

  /** A matching password yields 200 with the signed claims: email as given,
      `sub` equal to the raw email, the fresh uuid, and `exp` 24 hours
      after `iat`. */
  lemma SuccessIssuesClaims(event: LoginEvent, svc: Services, email: Json, password: Json, hash: string)
    requires HasFields(event, email, password) && Truthy(email) && password.JStr? && password.s != ""
    requires svc.getItem(email).Item? && "password" in svc.getItem(email).attributes
    requires svc.getItem(email).attributes["password"] == JStr(hash)
    requires svc.checkPassword(password.s, hash) == Match
    requires svc.sign(ClaimSet(email, svc.uuid, svc.now + 86400, svc.now, email)).Signed?
    ensures var c := ClaimSet(email, svc.uuid, svc.now + 86400, svc.now, email);
      Handle(event, svc) == LoginResult(
        Respond(200, map["message" := "Login successful", "token" := svc.sign(c).token]), Some(email), Some(c))
  {
  }
}
