/** The signup endpoint: validate the body, hash the password, issue a
    token, then insert the user record on the condition that no record with
    that email exists. bcrypt, SHA-256 and the token signer are oracles; the
    credential table is a class whose item map the conditional put updates. */
module SignupHandler {
  import opened Values
  import opened Text
  import opened Http
  import opened Tokens

  const CredentialsRequired: string := "Email and password are required"
  const UserCreated: string := "User created successfully"
  const UserExists: string := "User with this email already exists"
  const ConditionalCheckFailed: string := "ConditionalCheckFailedException"
  const ConditionalCheckFailedText: string :=
    "An error occurred (ConditionalCheckFailedException) when calling the PutItem operation: The conditional request failed"

  datatype SignupEvent = SignupEvent(httpMethod: string, body: Option<RequestBody>)

  /** The item written to the credential table: never the plaintext password. */
  datatype UserRecord = UserRecord(name: Json, email: string, password: string, createdAt: string)

  /** What goes wrong with the write apart from the condition on the items
      held before it: nothing, a store `ClientError` with its error code and
      text, or another exception (a connection failure, say). A `ClientError`
      carrying the conditional-check code stands for a record with the same
      email that another invocation inserted after those items were read. */
  datatype StoreFault = NoFault | ClientFault(code: string, message: string) | OtherFault(message: string)

  /** What `put_item` did: stored the item, raised a `ClientError`, or raised
      another exception. */
  datatype PutResult = Stored | ClientError(code: string, message: string) | PutException(message: string)

  /** What `bcrypt.hashpw` returned, or the text of the exception it raised. */
  datatype Hashing = Hashed(hash: string) | HashFailure(message: string)

  /** The oracles and inputs one invocation sees: bcrypt's hash with its salt,
      the hex SHA-256 digest, the token signer, the clock (seconds), the
      fresh uuid, the `createdAt` timestamp text, and the store's fault. */
  datatype Services = Services(
    hashPassword: (string, string) -> Hashing, sha256Hex: string -> string, sign: ClaimSet -> Signing,
    salt: string, now: int, uuid: string, createdAt: string, fault: StoreFault)

  /** The email as the subject hash sees it: surrounding whitespace removed, lower-cased. */
  function Normalize(email: string): string {
    Lower(Strip(email))
  }

  /** `generate_jwt(email)`: the subject is the hex SHA-256 of the normalised email. */
  function SignupClaims(email: string, sha256Hex: string -> string, now: int, uuid: string): (c: ClaimSet)
    ensures c.email == JStr(email) && c.sub == JStr(sha256Hex(Normalize(email)))
    ensures c.sessionId == uuid && c.iat == now
    ensures c.exp - c.iat == 24 * 60 * 60
  {
    ClaimSet(JStr(email), uuid, now + ExpirationSeconds, now, JStr(sha256Hex(Normalize(email))))
  }

  /** Everything before the write: either the response is already decided,
      or there is a record to put and the token to return once it is stored. */
  datatype Prepared = Decided(response: Response) | Write(record: UserRecord, token: string, claims: ClaimSet)

  function Prepare(event: SignupEvent, svc: Services): (p: Prepared)
    ensures p.Write? ==>
      && p.claims == SignupClaims(p.record.email, svc.sha256Hex, svc.now, svc.uuid)
      && svc.sign(p.claims) == Signed(p.token)
      && p.record.createdAt == svc.createdAt
  {
    if event.httpMethod == "OPTIONS" then
      Decided(PreflightOk())
    else if event.body.None? then
      Decided(Respond(500, ErrorBody(KeyErrorText("body"))))
    else
      match LoadObject(event.body.value)
      case Err(message) => Decided(Respond(500, ErrorBody(message)))
      case Ok(body) =>
        var fullname := GetOr(body, "fullname", JNull);
        var email := GetOr(body, "email", JNull);
        var password := GetOr(body, "password", JNull);
        if !Truthy(email) || !Truthy(password) then
          Decided(Respond(400, ErrorBody(CredentialsRequired)))
        else if !password.JStr? then
          Decided(Respond(500, ErrorBody(AttributeErrorText(password, "encode"))))
        else
          match svc.hashPassword(password.s, svc.salt)
          case HashFailure(message) => Decided(Respond(500, ErrorBody(message)))
          case Hashed(hashed) =>
            if !email.JStr? then
              Decided(Respond(500, ErrorBody(AttributeErrorText(email, "strip"))))
            else
              var claims := SignupClaims(email.s, svc.sha256Hex, svc.now, svc.uuid);
              match svc.sign(claims)
              case SigningFailure(message) => Decided(Respond(500, ErrorBody(message)))
              case Signed(token) => Write(UserRecord(fullname, email.s, hashed, svc.createdAt), token, claims)
  }

  /** The store's conditional put, which writes only when no item carries
      the record's email, against the items held before the write. */
  function PutOutcome(items: map<string, UserRecord>, record: UserRecord, fault: StoreFault): PutResult {
    match fault
    case NoFault => if record.email in items then ClientError(ConditionalCheckFailed, ConditionalCheckFailedText) else Stored
    case ClientFault(code, message) => ClientError(code, message)
    case OtherFault(message) => PutException(message)
  }

  function ItemsAfterPut(items: map<string, UserRecord>, record: UserRecord, fault: StoreFault): map<string, UserRecord> {
    if PutOutcome(items, record, fault) == Stored then items[record.email := record] else items
  }

  /** The conditional put only ever adds the record under a new key: an
      existing record is never overwritten, and nothing else changes. */
  lemma PutOnlyAdds(items: map<string, UserRecord>, record: UserRecord, fault: StoreFault)
    ensures var after := ItemsAfterPut(items, record, fault);
      && (forall k :: k in items ==> k in after && after[k] == items[k])
      && (forall k :: k in after && k !in items ==> k == record.email && after[k] == record)
      && (after != items <==> PutOutcome(items, record, fault) == Stored)
  {
    var after := ItemsAfterPut(items, record, fault);
    if PutOutcome(items, record, fault) == Stored {
      assert record.email !in items;
      assert record.email in after;
    }
  }

  /** The except clauses: a stored item answers 200 with the token; the
      conditional-check failure answers 400; any other `ClientError` is
      re-raised from inside its except clause and escapes the handler; any
      other exception answers 500 with its text. */
  function Finish(put: PutResult, token: string): (r: Outcome)
    ensures r.Raised? <==> put.ClientError? && put.code != ConditionalCheckFailed
    ensures r.Raised? ==> r.message == "Error creating user: " + put.message
    ensures r.Returned? ==> r.response.headers == CorsHeaders && r.response.statusCode in {200, 400, 500}
    ensures (r.Returned? && r.response.statusCode == 200) <==> put.Stored?
    ensures put.Stored? ==> r.response.body == map["message" := "User created successfully", "token" := token]
    ensures (r.Returned? && r.response.statusCode == 400) <==> put.ClientError? && put.code == ConditionalCheckFailed
  {
    match put
    case Stored => Returned(Respond(200, map["message" := UserCreated, "token" := token]))
    case ClientError(code, message) =>
      if code == ConditionalCheckFailed then Returned(Respond(400, ErrorBody(UserExists)))
      else Raised("Error creating user: " + message)
    case PutException(message) => Returned(Respond(500, ErrorBody(message)))
  }

  /** One invocation: its outcome and the table's items afterwards. */
  datatype SignupStep = SignupStep(outcome: Outcome, items: map<string, UserRecord>)

  /** `lambda_handler(event, context)` of the signup endpoint, as a function
      of the table's items before the call. The table changes exactly when
      the answer is "User created successfully", and then by one new record. */
  function Spec(items: map<string, UserRecord>, event: SignupEvent, svc: Services): (r: SignupStep)
    ensures forall k :: k in items ==> k in r.items && r.items[k] == items[k]
    ensures r.items != items <==> r.outcome.Returned? && r.outcome.response.body.Keys == {"message", "token"}
    ensures r.items != items ==>
      && Prepare(event, svc).Write?
      && Prepare(event, svc).record.email !in items
      && r.items == items[Prepare(event, svc).record.email := Prepare(event, svc).record]
      && r.outcome == Returned(Respond(200, map["message" := UserCreated, "token" := Prepare(event, svc).token]))
  {
    match Prepare(event, svc)
    case Decided(response) => SignupStep(Returned(response), items)
    case Write(record, token, _) =>
      PutOnlyAdds(items, record, svc.fault);
      SignupStep(Finish(PutOutcome(items, record, svc.fault), token), ItemsAfterPut(items, record, svc.fault))
  }

  /** The credential table: items keyed by email. */
  class UserTable {
    var items: map<string, UserRecord>

    constructor (items: map<string, UserRecord>)
      ensures this.items == items
    {
      this.items := items;
    }

    /** The conditional put: insert `record` unless its email is taken or
        the store fails. */
    method PutItem(record: UserRecord, fault: StoreFault) returns (result: PutResult)
      modifies this
      ensures result == PutOutcome(old(items), record, fault)
      ensures items == ItemsAfterPut(old(items), record, fault)
    {
      match fault {
        case NoFault =>
          if record.email in items {
            result := ClientError(ConditionalCheckFailed, ConditionalCheckFailedText);
          } else {
            items := items[record.email := record];
            result := Stored;
          }
        case ClientFault(code, message) =>
          result := ClientError(code, message);
        case OtherFault(message) =>
          result := PutException(message);
      }
    }
  }

  /** `lambda_handler(event, context)`: the prepared record is put into
      `table`, and the put's outcome decides the answer. */
  method Handle(table: UserTable, event: SignupEvent, svc: Services) returns (outcome: Outcome)
    modifies table
    ensures outcome == Spec(old(table.items), event, svc).outcome
    ensures table.items == Spec(old(table.items), event, svc).items
  {
    match Prepare(event, svc) {
      case Decided(response) =>
        outcome := Returned(response);
      case Write(record, token, _) =>
        var put := table.PutItem(record, svc.fault);
        outcome := Finish(put, token);
    }
  }

  // ---------------------------------------------------------------------
  // Properties
  // ---------------------------------------------------------------------

  /** The body's fields, when the body is a JSON object. */
  predicate HasFields(event: SignupEvent, fullname: Json, email: Json, password: Json) {
    event.httpMethod != "OPTIONS" && event.body.Some? && LoadObject(event.body.value).Ok?
    && GetOr(LoadObject(event.body.value).value, "fullname", JNull) == fullname
    && GetOr(LoadObject(event.body.value).value, "email", JNull) == email
    && GetOr(LoadObject(event.body.value).value, "password", JNull) == password
  }

  lemma PreflightFirst(items: map<string, UserRecord>, event: SignupEvent, svc: Services)
    requires event.httpMethod == "OPTIONS"
    ensures Spec(items, event, svc) == SignupStep(Returned(PreflightOk()), items)
  {
  }

  /** Email and password are required, `fullname` is not; a refusal leaves the table alone. */
  lemma CredentialsRequiredFirst(items: map<string, UserRecord>, event: SignupEvent, svc: Services, fullname: Json, email: Json, password: Json)
    requires HasFields(event, fullname, email, password)
    ensures !Truthy(email) || !Truthy(password) <==>
      Spec(items, event, svc) == SignupStep(Returned(Respond(400, ErrorBody(CredentialsRequired))), items)
  {
    assert ErrorBody(UserExists)["error"][0] != ErrorBody(CredentialsRequired)["error"][0];
  }

  /** A user with string email and password is recorded with the name, the
      email as given, the bcrypt hash of the password and the creation
      time, and gets the signed token; the insert happens once, under the
      new email. */
  lemma NewUserStored(items: map<string, UserRecord>, event: SignupEvent, svc: Services, fullname: Json, email: string, password: string)
    requires HasFields(event, fullname, JStr(email), JStr(password)) && email != "" && password != ""
    requires email !in items && svc.fault == NoFault
    requires svc.hashPassword(password, svc.salt).Hashed?
    requires svc.sign(SignupClaims(email, svc.sha256Hex, svc.now, svc.uuid)).Signed?
    ensures var record := UserRecord(fullname, email, svc.hashPassword(password, svc.salt).hash, svc.createdAt);
      var token := svc.sign(SignupClaims(email, svc.sha256Hex, svc.now, svc.uuid)).token;
      Spec(items, event, svc) == SignupStep(
        Returned(Respond(200, map["message" := "User created successfully", "token" := token])),
        items[email := record])
  {
  }

  /** A second signup with a taken email is refused with 400 and the
      existing record stays as it was. */
  lemma DuplicateRefused(items: map<string, UserRecord>, event: SignupEvent, svc: Services)
    requires Prepare(event, svc).Write? && Prepare(event, svc).record.email in items
    requires svc.fault == NoFault
    ensures Spec(items, event, svc) == SignupStep(Returned(Respond(400, ErrorBody("User with this email already exists"))), items)
  {
  }

  /** A store error other than the condition failure escapes the handler
      (it is raised inside the `except ClientError` clause, which the
      following `except Exception` does not cover); an exception that is not
      a `ClientError` answers 500 with its text. Neither changes the table. */
  lemma StoreFaultsPropagate(items: map<string, UserRecord>, event: SignupEvent, svc: Services)
    requires Prepare(event, svc).Write?
    ensures svc.fault.ClientFault? && svc.fault.code != ConditionalCheckFailed ==>
      Spec(items, event, svc) == SignupStep(Raised("Error creating user: " + svc.fault.message), items)
    ensures svc.fault.OtherFault? ==>
      Spec(items, event, svc) == SignupStep(Returned(Respond(500, ErrorBody(svc.fault.message))), items)
  {
  }

  /** A body that is missing, malformed or not a JSON object is answered
      500 by the handler's `except Exception`, and nothing is written: a
      missing body with the KeyError text "'body'", the others with the
      text of the parser's or the `.get` error. */
  lemma BodyFailuresReported(items: map<string, UserRecord>, event: SignupEvent, svc: Services)
    requires event.httpMethod != "OPTIONS"
    ensures event.body.None? ==>
      Spec(items, event, svc) == SignupStep(Returned(Respond(500, ErrorBody("'body'"))), items)
    ensures event.body.Some? && LoadObject(event.body.value).Err? ==>
      Spec(items, event, svc) == SignupStep(Returned(Respond(500, ErrorBody(LoadObject(event.body.value).error))), items)
  {
    assert KeyErrorText("body") == "'body'";
  }

  /** The 400 "User with this email already exists" is given only when the
      email was already in the table, or when the store reported the
      conditional-check failure for a record inserted concurrently; the
      table is then unchanged. */
  lemma RefusalMeansTaken(items: map<string, UserRecord>, event: SignupEvent, svc: Services)
    requires Spec(items, event, svc).outcome == Returned(Respond(400, ErrorBody(UserExists)))
    ensures Prepare(event, svc).Write?
    ensures Prepare(event, svc).record.email in items
         || (svc.fault.ClientFault? && svc.fault.code == ConditionalCheckFailed)
    ensures Spec(items, event, svc).items == items
  {
    assert ErrorBody(UserExists)["error"][0] != ErrorBody(CredentialsRequired)["error"][0];
  }

  /** Exceptions before the write answer 500 with their text and write
      nothing: in order, a password that is not text, a bcrypt failure, an
      email that is not text, a signer failure. */
  lemma EarlyFailuresReported(items: map<string, UserRecord>, event: SignupEvent, svc: Services, fullname: Json, email: Json, password: Json)
    requires HasFields(event, fullname, email, password) && Truthy(email) && Truthy(password)
    ensures !password.JStr? ==>
      Spec(items, event, svc) == SignupStep(Returned(Respond(500, ErrorBody(AttributeErrorText(password, "encode")))), items)
    ensures password.JStr? && svc.hashPassword(password.s, svc.salt).HashFailure? ==>
      Spec(items, event, svc) == SignupStep(Returned(Respond(500, ErrorBody(svc.hashPassword(password.s, svc.salt).message))), items)
    ensures password.JStr? && svc.hashPassword(password.s, svc.salt).Hashed? && !email.JStr? ==>
      Spec(items, event, svc) == SignupStep(Returned(Respond(500, ErrorBody(AttributeErrorText(email, "strip")))), items)
    ensures (password.JStr? && svc.hashPassword(password.s, svc.salt).Hashed? && email.JStr?
             && svc.sign(SignupClaims(email.s, svc.sha256Hex, svc.now, svc.uuid)).SigningFailure?) ==>
      Spec(items, event, svc) == SignupStep(Returned(Respond(500, ErrorBody(
        svc.sign(SignupClaims(email.s, svc.sha256Hex, svc.now, svc.uuid)).message))), items)
  {
  }

  /** Emails that differ only in surrounding whitespace get the same subject. */
  lemma PaddedEmailsShareSubject(email: string, w1: string, w2: string, sha256Hex: string -> string, now: int, uuid: string)
    requires AllPySpace(w1) && AllPySpace(w2)
    ensures SignupClaims(w1 + email + w2, sha256Hex, now, uuid).sub == SignupClaims(email, sha256Hex, now, uuid).sub
  {
    StripIgnoresPadding(w1, email, w2);
  }

  /** Emails that differ only in the case of ASCII letters get the same subject. */
  lemma CaseVariantsShareSubject(e1: string, e2: string, sha256Hex: string -> string, now: int, uuid: string)
    requires Lower(e1) == Lower(e2)
    ensures SignupClaims(e1, sha256Hex, now, uuid).sub == SignupClaims(e2, sha256Hex, now, uuid).sub
  {
    StripOfLower(e1);
    StripOfLower(e2);
  }

  /** Normalising an already normalised email changes nothing, so the
      subject of a normalised email is the subject of the email. */
  lemma NormalizeIdempotent(email: string)
    ensures Normalize(Normalize(email)) == Normalize(email)
  {
    StripOfLower(Strip(email));
    StripIdempotent(email);
    LowerIdempotent(Strip(email));
  }

  /** Lower-casing does not touch whitespace, so it commutes with `strip()`. */
  lemma StripOfLower(s: string)
    ensures Lower(Strip(s)) == Strip(Lower(s))
  {
    TrimStartOfLower(s);
    TrimEndOfLower(TrimStart(s));
  }

  lemma {:induction false} TrimStartOfLower(s: string)
    ensures Lower(TrimStart(s)) == TrimStart(Lower(s))
    decreases |s|
  {
    if s != [] {
      assert Lower(s)[0] == LowerChar(s[0]);
      assert IsPySpace(s[0]) <==> IsPySpace(LowerChar(s[0]));
      if IsPySpace(s[0]) {
        assert Lower(s)[1..] == Lower(s[1..]);
        TrimStartOfLower(s[1..]);
      }
    }
  }

  lemma {:induction false} TrimEndOfLower(s: string)
    ensures Lower(TrimEnd(s)) == TrimEnd(Lower(s))
    decreases |s|
  {
    if s != [] {
      var n := |s| - 1;
      assert Lower(s)[n] == LowerChar(s[n]);
      assert IsPySpace(s[n]) <==> IsPySpace(LowerChar(s[n]));
      if IsPySpace(s[n]) {
        assert Lower(s)[..n] == Lower(s[..n]);
        TrimEndOfLower(s[..n]);
      }
    }
  }
}
