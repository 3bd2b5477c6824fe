/** How the three handlers fit together: a token issued by login or signup
    opens a chat session while it is live, which agent memory it names, and
    what a signup leaves for a later login to find. */
module Sessions {
  import opened Values
  import opened Text
  import opened Http
  import opened Tokens
  import ChatHandler
  import LoginHandler
  import SignupHandler

  /** The chat request once it holds `token`, as the handler receives it
      when the gateway in front of it delivers header names in lower case:
      a POST with the `authorization` header and a body holding `input`.
      The client itself writes the header name as `Authorization`, which
      `ClientChatRequest` keeps; the lemmas about `ChatRequest` describe
      the deployed pair only under that lower-casing gateway. */
  function ChatRequest(token: string, input: Json): ChatHandler.ChatEvent {
    ChatHandler.ChatEvent("POST", Some(map["authorization" := "Bearer " + token]),
                          Some(Parsed(JObject(map["input" := input]))))
  }

  /** The chat request with the header name exactly as the client writes it. */
  function ClientChatRequest(token: string, input: Json): ChatHandler.ChatEvent {
    ChatHandler.ChatEvent("POST", Some(map["Authorization" := "Bearer " + token]),
                          Some(Parsed(JObject(map["input" := input]))))
  }

  /** Delivered with its header name unchanged, the client's request is
      refused whatever token it carries, live or not: 401 "Missing or
      invalid Authorization header", nothing verified and no agent call. */
  lemma ClientHeaderRefused(token: string, input: Json, verify: string -> Decoding,
                            agent: ChatHandler.AgentRequest -> ChatHandler.AgentReply, config: ChatHandler.Config)
    ensures var r := ChatHandler.Handle(ClientChatRequest(token, input), verify, agent, config);
      && r.response == Respond(401, ErrorBody("Missing or invalid Authorization header"))
      && r.verifiedToken == None && r.agentCall == None
  {
    ChatHandler.CapitalisedHeaderIgnored(ClientChatRequest(token, input), verify, agent, config);
  }

  /** The three handlers answer a preflight request identically, before
      looking at anything else in it. */
  lemma PreflightSameEverywhere(chat: ChatHandler.ChatEvent, verify: string -> Decoding,
                                agent: ChatHandler.AgentRequest -> ChatHandler.AgentReply, config: ChatHandler.Config,
                                login: LoginHandler.LoginEvent, loginSvc: LoginHandler.Services,
                                items: map<string, SignupHandler.UserRecord>, signup: SignupHandler.SignupEvent, signupSvc: SignupHandler.Services)
    requires chat.httpMethod == "OPTIONS" && login.httpMethod == "OPTIONS" && signup.httpMethod == "OPTIONS"
    ensures ChatHandler.Handle(chat, verify, agent, config).response == LoginHandler.Handle(login, loginSvc).response
    ensures LoginHandler.Handle(login, loginSvc).response == SignupHandler.Spec(items, signup, signupSvc).outcome.response
    ensures SignupHandler.Spec(items, signup, signupSvc).outcome.response == Respond(200, map["message" := "Preflight OK"])
  {
  }

  /** A token without spaces reaches the verifier unchanged. */
  lemma PresentsToken(token: string, input: Json)
    requires ' ' !in token
    ensures ChatHandler.PresentedToken(ChatRequest(token, input)) == Some(token)
  {
    var header := "Bearer " + token;
    assert header[..|ChatHandler.BearerPrefix|] == ChatHandler.BearerPrefix;
    assert header[|ChatHandler.BearerPrefix|..] == token;
    TakeUntilWhole(token, ' ');
  }

  /** A live token for claims `c`, sent as `ChatRequest` (header name in
      lower case), reaches the agent with the token's session id and the
      memory id that its subject names. */
  lemma LiveTokenReachesAgent(c: ClaimSet, sign: ClaimSet -> Signing, verify: string -> Decoding, clock: int,
                              agent: ChatHandler.AgentRequest -> ChatHandler.AgentReply, config: ChatHandler.Config, input: Json)
    requires SharedSecret(sign, verify, clock) && sign(c).Signed? && c.iat <= clock < c.exp
    requires ' ' !in sign(c).token && c.sessionId != "" && Truthy(input)
    ensures ChatHandler.Handle(ChatRequest(sign(c).token, input), verify, agent, config).agentCall
         == Some(ChatHandler.AgentRequest(config.agentId, config.agentAliasId, JStr(c.sessionId), input, false,
                                          JBool(false), ChatHandler.MemoryId(c.sub)))
  {
    var event := ChatRequest(sign(c).token, input);
    PresentsToken(sign(c).token, input);
    ChatHandler.AgentInvoked(event, verify, agent, config, Payload(c), map["input" := input]);
  }

  /** From `exp` on, the same token is refused as expired and the agent is not invoked. */
  lemma ExpiredTokenRefused(c: ClaimSet, sign: ClaimSet -> Signing, verify: string -> Decoding, clock: int,
                            agent: ChatHandler.AgentRequest -> ChatHandler.AgentReply, config: ChatHandler.Config, input: Json)
    requires SharedSecret(sign, verify, clock) && sign(c).Signed? && c.iat <= clock && c.exp <= clock
    requires ' ' !in sign(c).token
    ensures var r := ChatHandler.Handle(ChatRequest(sign(c).token, input), verify, agent, config);
      r.agentCall == None && r.response == Respond(401, ErrorBody("Token has expired"))
  {
    PresentsToken(sign(c).token, input);
  }

  /** The token a successful login returns, sent as `ChatRequest` (header
      name in lower case), opens a chat session for 24 hours: the agent gets
      the login's fresh session id and the memory id "memory-" followed by
      the email as it was typed. */
  lemma LoginOpensChat(event: LoginHandler.LoginEvent, svc: LoginHandler.Services, verify: string -> Decoding, clock: int,
                       agent: ChatHandler.AgentRequest -> ChatHandler.AgentReply, config: ChatHandler.Config, input: Json, email: string)
    requires event.httpMethod != "OPTIONS" && LoginHandler.Handle(event, svc).response.statusCode == 200
    requires LoginHandler.Handle(event, svc).lookedUp == Some(JStr(email))
    requires SharedSecret(svc.sign, verify, clock) && svc.now <= clock < svc.now + ExpirationSeconds
    requires svc.uuid != "" && Truthy(input)
    requires ' ' !in LoginHandler.Handle(event, svc).response.body["token"]
    ensures ChatHandler.Handle(ChatRequest(LoginHandler.Handle(event, svc).response.body["token"], input), verify, agent, config).agentCall
         == Some(ChatHandler.AgentRequest(config.agentId, config.agentAliasId, JStr(svc.uuid), input, false,
                                          JBool(false), Some("memory-" + email)))
  {
    var c := LoginHandler.Handle(event, svc).issued.value;
    LiveTokenReachesAgent(c, svc.sign, verify, clock, agent, config, input);
  }

  /** Once 24 hours have passed, the login's token is refused as expired. */
  lemma LoginTokenExpires(event: LoginHandler.LoginEvent, svc: LoginHandler.Services, verify: string -> Decoding, clock: int,
                          agent: ChatHandler.AgentRequest -> ChatHandler.AgentReply, config: ChatHandler.Config, input: Json)
    requires event.httpMethod != "OPTIONS" && LoginHandler.Handle(event, svc).response.statusCode == 200
    requires SharedSecret(svc.sign, verify, clock) && svc.now + ExpirationSeconds <= clock
    requires ' ' !in LoginHandler.Handle(event, svc).response.body["token"]
    ensures var r := ChatHandler.Handle(ChatRequest(LoginHandler.Handle(event, svc).response.body["token"], input), verify, agent, config);
      r.agentCall == None && r.response == Respond(401, ErrorBody("Token has expired"))
  {
    var c := LoginHandler.Handle(event, svc).issued.value;
    ExpiredTokenRefused(c, svc.sign, verify, clock, agent, config, input);
  }

  /** The token a successful signup returns, sent as `ChatRequest` (header
      name in lower case), opens a chat session whose memory id is "memory-"
      followed by the SHA-256 of the normalised email. */
  lemma SignupOpensChat(items: map<string, SignupHandler.UserRecord>, event: SignupHandler.SignupEvent, svc: SignupHandler.Services,
                        verify: string -> Decoding, clock: int,
                        agent: ChatHandler.AgentRequest -> ChatHandler.AgentReply, config: ChatHandler.Config, input: Json)
    requires SignupHandler.Spec(items, event, svc).items != items
    requires SharedSecret(svc.sign, verify, clock) && svc.now <= clock < svc.now + ExpirationSeconds
    requires svc.uuid != "" && Truthy(input)
    requires ' ' !in SignupHandler.Prepare(event, svc).token
    ensures var p := SignupHandler.Prepare(event, svc);
      && SignupHandler.Spec(items, event, svc).outcome.response.body["token"] == p.token
      && ChatHandler.Handle(ChatRequest(p.token, input), verify, agent, config).agentCall
         == Some(ChatHandler.AgentRequest(config.agentId, config.agentAliasId, JStr(svc.uuid), input, false,
                                          JBool(false), Some("memory-" + svc.sha256Hex(SignupHandler.Normalize(p.record.email)))))
  {
    var p := SignupHandler.Prepare(event, svc);
    LiveTokenReachesAgent(p.claims, svc.sign, verify, clock, agent, config, input);
  }

  /** Lower-case hexadecimal text, the form of `hexdigest()`. */
  predicate HexDigest(s: string) {
    forall i :: 0 <= i < |s| ==> s[i] in "0123456789abcdef"
  }

  /** The same person gets two different agent memories: a login token names
      the memory after the email, a signup token after its hash. */
  lemma LoginAndSignupMemoriesDiffer(email: string, sha256Hex: string -> string, now: int, uuid: string)
    requires '@' in email && HexDigest(sha256Hex(SignupHandler.Normalize(email)))
    ensures ChatHandler.MemoryId(LoginHandler.LoginClaims(JStr(email), now, uuid).sub)
         != ChatHandler.MemoryId(SignupHandler.SignupClaims(email, sha256Hex, now, uuid).sub)
  {
    var digest := sha256Hex(SignupHandler.Normalize(email));
    var i :| 0 <= i < |email| && email[i] == '@';
    var fromLogin, fromSignup := "memory-" + email, "memory-" + digest;
    assert fromLogin[7 + i] == '@';
    assert 7 + i < |fromSignup| ==> fromSignup[7 + i] != '@';
  }

  /** The attributes a login's store read returns for a stored record. */
  function Attributes(r: SignupHandler.UserRecord): map<string, Json> {
    map["name" := r.name, "email" := JStr(r.email), "password" := JStr(r.password), "createdAt" := JStr(r.createdAt)]
  }

  /** `getItem` reads the table holding `items`, keyed by the exact email. */
  ghost predicate ReadsTable(getItem: Json -> LoginHandler.Lookup, items: map<string, SignupHandler.UserRecord>) {
    forall k :: getItem(JStr(k)) == if k in items then LoginHandler.Item(Attributes(items[k])) else LoginHandler.NoItem
  }

  /** After a signup stores a user, logging in with the same email and
      password succeeds, given a bcrypt check that accepts the password
      against the hash the signup stored. */
  lemma SignupThenLogin(items: map<string, SignupHandler.UserRecord>, signup: SignupHandler.SignupEvent, signupSvc: SignupHandler.Services,
                        fullname: Json, email: string, password: string,
                        login: LoginHandler.LoginEvent, loginSvc: LoginHandler.Services)
    requires SignupHandler.HasFields(signup, fullname, JStr(email), JStr(password)) && email != "" && password != ""
    requires email !in items && signupSvc.fault == SignupHandler.NoFault
    requires signupSvc.hashPassword(password, signupSvc.salt).Hashed?
    requires signupSvc.sign(SignupHandler.SignupClaims(email, signupSvc.sha256Hex, signupSvc.now, signupSvc.uuid)).Signed?
    requires ReadsTable(loginSvc.getItem, SignupHandler.Spec(items, signup, signupSvc).items)
    requires LoginHandler.HasFields(login, JStr(email), JStr(password))
    requires loginSvc.checkPassword(password, signupSvc.hashPassword(password, signupSvc.salt).hash) == LoginHandler.Match
    requires loginSvc.sign(LoginHandler.LoginClaims(JStr(email), loginSvc.now, loginSvc.uuid)).Signed?
    ensures LoginHandler.Handle(login, loginSvc).response.statusCode == 200
  {
    SignupHandler.NewUserStored(items, signup, signupSvc, fullname, email, password);
    var record := SignupHandler.UserRecord(fullname, email, signupSvc.hashPassword(password, signupSvc.salt).hash, signupSvc.createdAt);
    assert loginSvc.getItem(JStr(email)) == LoginHandler.Item(Attributes(record));
    LoginHandler.SuccessIssuesClaims(login, loginSvc, JStr(email), JStr(password), record.password);
  }

  /** The table is keyed by the email as typed at signup: a login with any
      other spelling, even one that differs only in case or surrounding
      whitespace, finds no user and is refused. */
  lemma OtherSpellingNotFound(items: map<string, SignupHandler.UserRecord>, signup: SignupHandler.SignupEvent, signupSvc: SignupHandler.Services,
                              login: LoginHandler.LoginEvent, loginSvc: LoginHandler.Services, email: string, password: Json)
    requires email !in items && email != "" && Truthy(password)
    requires SignupHandler.Prepare(signup, signupSvc).Write? && SignupHandler.Prepare(signup, signupSvc).record.email != email
    requires ReadsTable(loginSvc.getItem, SignupHandler.Spec(items, signup, signupSvc).items)
    requires LoginHandler.HasFields(login, JStr(email), password)
    ensures LoginHandler.Handle(login, loginSvc).response == Respond(401, ErrorBody("Invalid email or password"))
  {
    var p := SignupHandler.Prepare(signup, signupSvc);
    SignupHandler.PutOnlyAdds(items, p.record, signupSvc.fault);
    assert loginSvc.getItem(JStr(email)) == LoginHandler.NoItem;
  }
}
