# Market-research chat: a verified model of its request handlers and client state

This project models the authentication and chat core of a market-research chat
system in Dafny and proves properties of that model. The system has two parts.
The Python backend (`backend_service`) is three AWS Lambda handlers. The
TypeScript client (`ai-market-research`) contributes two modules:

- **signup** validates an email and password and hashes the password with bcrypt.
  It issues a 24-hour session token whose subject is the SHA-256 of the
  normalised email. It then inserts the user into the credential table, but
  only if no user with that email exists.
- **login** looks the user up by email, checks the password with bcrypt and issues
  a 24-hour session token whose subject is the email.
- **chat** guards the request with an ordered ladder of checks: preflight, bearer
  header, token verification, session claim and input field. It then invokes the
  conversational agent with a memory id derived from the token's subject and
  joins the streamed chunks into the reply.
- the client **chat hook** keeps the conversation, the input box, the loading flag and
  the last error. Its `handleSubmit` appends the user message and an empty assistant
  placeholder, sends the request, and then rewrites only the placeholder.
- the client **auth utilities** read the token and the authenticated flag from
  `localStorage`; `logout` removes them.

The model has these parts:

| file | module | contents |
|---|---|---|
| `values.dfy` | `Values` | `Option`, `Result`, parsed JSON, Python truthiness, exception texts |
| `text.dfy` | `Text` | `str.split(" ")`, `str.strip()`, ASCII `str.lower()`, JavaScript blank test, decimal rendering |
| `http.dfy` | `Http` | the response shape with its CORS headers, request-body parsing, how an invocation ends |
| `tokens.dfy` | `Tokens` | the claim set, the 24-hour lifetime, the signer and verifier outcomes |
| `chat_handler.dfy` | `ChatHandler` | the chat handler; the chunk loop is a method |
| `login_handler.dfy` | `LoginHandler` | the login handler |
| `signup_handler.dfy` | `SignupHandler` | the signup handler; its table is a class with a conditional put |
| `sessions.dfy` | `Sessions` | properties that span handlers: issued tokens opening chat sessions, signup then login |
| `auth_utils.dfy` | `AuthUtils` | the storage queries and the in-place `logout` |
| `custom_chat.dfy` | `CustomChat` | the chat hook's state as a class |

### Boundaries

Outside services are function-typed parameters ("oracles"). Each handler is a
function of the event and its oracles. Where it helps, the result also records
which oracles were called and with what:

- DynamoDB's `get_item`
- bcrypt's `hashpw` and `checkpw`
- SHA-256
- the JWT encoder and decoder
- the Bedrock agent
- `fetch`

Clock readings, `uuid4`, the bcrypt salt and deployment settings are plain inputs.
The settings are the agent ids and the refusal message.

The token codec is not modelled. Where a property needs a signer and a verifier
that share a secret, the predicate `Tokens.SharedSecret` states it: every signed
claim set decodes to its claims before `exp` and is reported expired from `exp` on.

### Behaviour of the code worth knowing (the model follows the code throughout)

- **Chat header case.** The chat handler reads only the header key
  `authorization`, in lower case (`backend_service/chat_handler.py:86`). The
  client sends the header as `Authorization`
  (`ai-market-research/hooks/use-custom-chat.ts:72`), and the unit tests do the
  same and expect it to be accepted. In the model such a request gets 401
  `Missing or invalid Authorization header` whatever token it carries; see
  `ChatHandler.CapitalisedHeaderIgnored` and `Sessions.ClientHeaderRefused`.
  The client and the handler therefore work together only behind a gateway
  that delivers header names in lower case. The lemmas about issued tokens
  opening chat sessions assume such a gateway: they send the request as
  `Sessions.ChatRequest`, with the lower-case key.
- **Memory ids differ between login and signup.** Login sets the `sub` claim to
  the email exactly as typed (`backend_service/login_handler.py:43`). Signup sets
  it to the hex SHA-256 of the stripped, lower-cased email
  (`backend_service/signup_handler.py:43`). The chat handler names the agent memory
  after `sub`, so the same person gets one memory through a signup token and another
  through a login token; see `Sessions.LoginAndSignupMemoriesDiffer`.
- **Missing `email` claim in chat.** A verified payload without `email` raises a
  KeyError inside the handler's `try`. The answer is 500 `Internal server error`
  with details `'email'`, and it comes before the session check.
- **Other store errors in signup.** A store `ClientError` other than the
  conditional-check failure is re-raised from inside its `except` clause. The
  sibling `except Exception` does not catch it, so the exception escapes the
  handler (`Outcome.Raised`) instead of becoming a 500 response.
- **Logout without a window.** `logout` touches `localStorage` before its window
  check. Without browser globals the first access throws, so nothing changes and
  the guard is never reached.

## Model

| member | source | states |
|---|---|---|
| Text.Split | backend_service/chat_handler.py:92 | splitting on a separator always yields at least one field |
| Text.SplitJoin | backend_service/chat_handler.py:92 | no field contains the separator, and joining the fields with it gives back the text |
| Text.StripIgnoresPadding | backend_service/signup_handler.py:43 | `strip()` gives the same text whatever whitespace surrounds its argument |
| Text.StripHasNoPadding | backend_service/signup_handler.py:43 | the result of `strip()` neither starts nor ends with whitespace |
| Text.Decimal | ai-market-research/hooks/use-custom-chat.ts:49 | the rendering is non-empty, starts with a minus sign exactly for a negative number, and is otherwise decimal digits |
| Text.StripIdempotent | backend_service/signup_handler.py:43 | stripping an already stripped text changes nothing |
| Text.LowerIdempotent | backend_service/signup_handler.py:43 | lower-casing an already lower-cased text changes nothing |
| Text.Lower | backend_service/signup_handler.py:43 | the length is kept and each character goes through the ASCII case map, every other character unchanged |
| Http.Respond | backend_service/chat_handler.py:42-62 | every response carries the four CORS headers, the origin wildcard among them, with the given status and body |
| Http.PreflightOk | backend_service/chat_handler.py:81-82 | the preflight answer is 200 with the CORS headers and the body {"message": "Preflight OK"} |
| Text.DecimalRoundTrip | ai-market-research/hooks/use-custom-chat.ts:49 | reading back a rendered integer gives the integer |
| Text.DecimalInjective | ai-market-research/hooks/use-custom-chat.ts:61 | distinct integers render as distinct decimal texts |
| Http.LoadObject | backend_service/chat_handler.py:107-108 | parsing succeeds exactly for a JSON object and yields its fields; any other value gives the AttributeError for `get`; a malformed body gives the parser's error |
| ChatHandler.BearerToken | backend_service/chat_handler.py:92 | the token is the text after "Bearer " up to the next space, and holds no space |
| ChatHandler.VerifyJwt | backend_service/chat_handler.py:20-39 | verification succeeds exactly when the decoder returned a payload, and yields it; an expired signature gives "Token has expired", an invalid token "Invalid token", any other decoder error its own text |
| ChatHandler.VerifyJwtOfSignedToken | backend_service/chat_handler.py:33-37 | a token from the signer that shares the secret verifies to its claims before `exp` and to "Token has expired" from then on |
| ChatHandler.MemoryId | backend_service/chat_handler.py:114 | a memory id exists exactly for a subject that is not a list or dict; it always starts with "memory-", and a text subject follows it unchanged |
| ChatHandler.TextSubjectsKeepMemoriesApart | backend_service/chat_handler.py:114 | distinct text subjects name distinct memories |
| ChatHandler.OtherSubjectsCollide | backend_service/chat_handler.py:101-114 | a token without `sub` shares the memory of the subject "None"; `true` and 5 share the memories of "True" and "5" |
| ChatHandler.CompletionGrows | backend_service/chat_handler.py:127-130 | the completion collected after a prefix of the stream is a prefix of the final completion |
| ChatHandler.RefusalMessageOnlyLogs | backend_service/chat_handler.py:132-136 | the configured refusal message changes neither the response nor the agent call; it only decides the warning |
| ChatHandler.CollectCompletion | backend_service/chat_handler.py:127-130 | the loop's result is the completion of the whole stream, each chunk's text in arrival order |
| ChatHandler.Handle | backend_service/chat_handler.py:65-139 | every response carries the CORS headers and a status in {200, 400, 401, 500}; the verifier gets exactly the presented bearer token; the agent is invoked only after a successful verification; every 200 answer to a non-preflight request comes from an agent call |
| ChatHandler.PreflightFirst | backend_service/chat_handler.py:81-82 | OPTIONS gets 200 "Preflight OK" before headers or body are read, with no verifier or agent call |
| ChatHandler.MissingBearerRefused | backend_service/chat_handler.py:85-90 | a missing header, or one not starting with "Bearer ", gets 401 before any verifier or agent call |
| ChatHandler.CapitalisedHeaderIgnored | backend_service/chat_handler.py:85-86 | a header sent only under the key "Authorization" counts as missing: 401 and no agent call |
| ChatHandler.TokenIsSecondField | backend_service/chat_handler.py:92-94 | the verifier receives the second space-separated field of the header |
| ChatHandler.VerificationFailureRefused | backend_service/chat_handler.py:33-39 | a token failing verification gets 401 with "Token has expired", "Invalid token" or the other error's text, and the agent is not invoked |
| ChatHandler.MissingEmailIsInternalError | backend_service/chat_handler.py:99 | a verified payload without `email` gets 500 "Internal server error" with details `'email'` |
| ChatHandler.SessionCheckedFirst | backend_service/chat_handler.py:100-105 | a missing or falsy `sessionId` gets 401 "Missing session ID in token" whatever the body holds |
| ChatHandler.BadBodyIsInternalError | backend_service/chat_handler.py:107-108 | past the session check, a malformed body or one that is not a JSON object gets 500 "Internal server error" with the error's text as details and no agent call; an event without a body is read as "{}" and gets 400 "Missing 'input' field" |
| ChatHandler.MissingInputRejected | backend_service/chat_handler.py:107-112 | a missing or falsy `input` gets 400 "Missing 'input' field" and no agent call |
| ChatHandler.AgentInvoked | backend_service/chat_handler.py:107-136 | past every guard, the agent gets the session id, the input, `endSession` defaulting to false, trace off and the memory id from `sub`; an agent error gives 500 with its text; a stream gives 200 with its completion; the guardrail warning is logged exactly when the completion equals a non-empty refusal message |
| ChatHandler.CompletionAppend | backend_service/chat_handler.py:127-130 | the completion of two streams in sequence is the concatenation of their completions |
| ChatHandler.CompletionExample | backend_service/chat_handler.py:127-130 | the chunks "Hello, " and "world!" around an event without a chunk join to "Hello, world!" |
| LoginHandler.LoginClaims | backend_service/login_handler.py:37-45 | both `email` and `sub` are the email as given, `sessionId` is the fresh uuid, and `exp` is 24 hours after `iat` |
| LoginHandler.Handle | backend_service/login_handler.py:49-86 | every response carries the CORS headers and a status in {200, 400, 401, 500}; a 200 answer to a non-preflight request signed the login claims for the email that was looked up, and its body holds "Login successful" and that token |
| LoginHandler.BodyFailuresReported | backend_service/login_handler.py:53-56 | a missing body gives 500 with the KeyError text `'body'`; a malformed body or one that is not a JSON object gives 500 with the error's text; the store is not read |
| LoginHandler.PreflightFirst | backend_service/login_handler.py:50-51 | OPTIONS gets 200 "Preflight OK" with no lookup |
| LoginHandler.CredentialsRequiredFirst | backend_service/login_handler.py:58-59 | a missing or falsy email or password gets 400 before the store is read |
| LoginHandler.UnknownUserLooksLikeWrongPassword | backend_service/login_handler.py:64-75 | an unknown email and a wrong password get the same 401 "Invalid email or password" |
| LoginHandler.ServiceFailuresReported | backend_service/login_handler.py:64-86 | a store error, a stored user without a password (`'password'`), a password or stored hash that is not text (the `encode` AttributeError), a bcrypt error and a signer error each give 500 with the exception's text |
| LoginHandler.TokenOnlyOnMatch | backend_service/login_handler.py:64-83 | a 200 answer means the store returned a user with a text password hash, the password given is text, bcrypt reported a match, and the login claims of that email were signed |
| LoginHandler.SuccessIssuesClaims | backend_service/login_handler.py:71-83 | a matching password gives 200 "Login successful" with the token signed over the 24-hour claims of the email |
| SignupHandler.SignupClaims | backend_service/signup_handler.py:37-45 | `email` is the email as given, `sub` is the SHA-256 of its stripped and lower-cased form, `sessionId` is the fresh uuid, and `exp` is 24 hours after `iat` |
| SignupHandler.Prepare | backend_service/signup_handler.py:49-73 | a record to write comes with the signup claims of its email, the token signed over them, and the creation time |
| SignupHandler.Finish | backend_service/signup_handler.py:76-86 | the handler raises exactly for a store error other than the conditional-check failure, with "Error creating user: " and its text; otherwise the answer carries the CORS headers; it is 200 with the message and token exactly when the item was stored, and 400 exactly for the conditional-check failure |
| SignupHandler.NormalizeIdempotent | backend_service/signup_handler.py:43 | normalising (strip, then lower-case) an already normalised email changes nothing |
| SignupHandler.PutOnlyAdds | backend_service/signup_handler.py:74 | the conditional put never overwrites or removes a record; the only key it can add is the record's email; the table changes exactly when the put stores the record |
| SignupHandler.Spec | backend_service/signup_handler.py:48-86 | no existing record ever changes; the table changes exactly when the answer holds a message and a token, and then the new email was absent, exactly that record is added, and the answer is 200 "User created successfully" with the token |
| SignupHandler.UserTable.PutItem | backend_service/signup_handler.py:74 | the put's result and the new items are those of the conditional put on the old items |
| SignupHandler.Handle | backend_service/signup_handler.py:48-86 | the outcome and the table's new items are those of `SignupHandler.Spec` on the old items |
| SignupHandler.PreflightFirst | backend_service/signup_handler.py:49-50 | OPTIONS gets 200 "Preflight OK" and the table is unchanged |
| SignupHandler.CredentialsRequiredFirst | backend_service/signup_handler.py:58-59 | a missing or falsy email or password, and nothing else, gets 400 "Email and password are required" with the table unchanged |
| SignupHandler.NewUserStored | backend_service/signup_handler.py:61-79 | a new email is stored with the name, the email as given, the bcrypt hash of the password and the creation time, and the answer is 200 with the signed token |
| SignupHandler.DuplicateRefused | backend_service/signup_handler.py:81-83 | a taken email gets 400 "User with this email already exists" and the existing record stays as it was |
| SignupHandler.StoreFaultsPropagate | backend_service/signup_handler.py:81-86 | another store `ClientError` escapes the handler as "Error creating user: …"; any other store exception gives 500 with its text; neither changes the table |
| SignupHandler.EarlyFailuresReported | backend_service/signup_handler.py:62-65 | in the order the code meets them, a non-text password (`encode`), a bcrypt `hashpw` error, a non-text email (`strip`) and a signer error each give 500 with the exception's text and write nothing |
| SignupHandler.BodyFailuresReported | backend_service/signup_handler.py:52-56 | a missing body gives 500 with the KeyError text `'body'`; a malformed body or one that is not a JSON object gives 500 with the error's text; nothing is written |
| SignupHandler.RefusalMeansTaken | backend_service/signup_handler.py:74-83 | a 400 "User with this email already exists" comes only after a record was prepared, when its email is already in the table or the store reports the conditional-check failure for a concurrent insert; the table is unchanged |
| SignupHandler.PaddedEmailsShareSubject | backend_service/signup_handler.py:43 | emails differing only in surrounding whitespace get the same subject |
| SignupHandler.CaseVariantsShareSubject | backend_service/signup_handler.py:43 | emails differing only in the case of ASCII letters get the same subject |
| Sessions.PreflightSameEverywhere | backend_service/signup_handler.py:49-50 | chat, login and signup all answer OPTIONS with the same 200 "Preflight OK" response |
| Sessions.PresentsToken | backend_service/chat_handler.py:88-92 | a "Bearer " header over a token without spaces presents that token unchanged |
| Sessions.LiveTokenReachesAgent | backend_service/chat_handler.py:92-124 | a token presented before its `exp`, under the lower-case header key a lower-casing gateway delivers, reaches the agent with its session id and the memory id of its subject |
| Sessions.ClientHeaderRefused | ai-market-research/hooks/use-custom-chat.ts:71-73 | the request with the header name exactly as the client writes it, `Authorization`, gets 401 "Missing or invalid Authorization header" whatever its token, with nothing verified and no agent call |
| Sessions.ExpiredTokenRefused | backend_service/chat_handler.py:36-37 | from `exp` on the same token gets 401 "Token has expired" and no agent call |
| Sessions.LoginOpensChat | backend_service/login_handler.py:37-45 | for 24 hours a login token, sent under the lower-case header key a lower-casing gateway delivers, opens chat with the login's session id and memory "memory-" followed by the email as typed |
| Sessions.LoginTokenExpires | backend_service/login_handler.py:41 | 24 hours after login the token is refused as expired |
| Sessions.SignupOpensChat | backend_service/signup_handler.py:37-45 | the returned signup token, sent under the lower-case header key a lower-casing gateway delivers, opens chat with memory "memory-" followed by the SHA-256 of the normalised email |
| Sessions.LoginAndSignupMemoriesDiffer | backend_service/signup_handler.py:43 | for an email containing "@", the login token and the signup token name different agent memories |
| Sessions.SignupThenLogin | backend_service/login_handler.py:64-83 | after a signup stores a user, logging in with the same email and password succeeds |
| Sessions.OtherSpellingNotFound | backend_service/login_handler.py:64-69 | a login under any spelling of the email other than the stored one, even a case or whitespace variant, finds no user and gets 401 |
| AuthUtils.GetToken | ai-market-research/lib/auth-utils.ts:28-31 | a token is returned exactly when a window exists and the key is stored, and it is the stored value |
| AuthUtils.IsAuthenticated | ai-market-research/lib/auth-utils.ts:23-26 | authenticated exactly when `GetToken` yields a non-empty token and the flag holds "true" |
| AuthUtils.WithoutSession | ai-market-research/lib/auth-utils.ts:14-15 | exactly the two session keys are removed; every other key keeps its value |
| AuthUtils.LoggedOut | ai-market-research/lib/auth-utils.ts:13-31 | once the session keys are removed, the page is not authenticated and has no token |
| AuthUtils.AuthenticatedHasToken | ai-market-research/lib/auth-utils.ts:25 | an authenticated page has a stored non-empty token |
| AuthUtils.FlagAndTokenExact | ai-market-research/lib/auth-utils.ts:25 | only the exact flag "true" together with a non-empty token authenticates |
| AuthUtils.Browser.Logout | ai-market-research/lib/auth-utils.ts:13-21 | with a window, both keys and the flag cookie are removed and the page goes to "/login"; without one, the storage access throws and nothing changes; afterwards the page is logged out |
| CustomChat.ReplyText | ai-market-research/hooks/use-custom-chat.ts:87 | the content is the reply's non-empty `response`, else its non-empty `message`, else the serialised reply |
| CustomChat.Settlement | ai-market-research/hooks/use-custom-chat.ts:78-97 | the request succeeds exactly for a 2xx status with a readable body; a non-2xx status gives "HTTP error! status: " with the status; a network or body error gives its text |
| CustomChat.Rewrite | ai-market-research/hooks/use-custom-chat.ts:84-90 | the length and order are kept; exactly the messages carrying the id get the new content |
| CustomChat.RewriteAppend | ai-market-research/hooks/use-custom-chat.ts:100-110 | rewriting distributes over concatenation, so messages appended meanwhile are treated alike |
| CustomChat.RewriteAbsent | ai-market-research/hooks/use-custom-chat.ts:84-90 | a conversation without the id is unchanged |
| CustomChat.SubmitIdsDistinct | ai-market-research/hooks/use-custom-chat.ts:49-61 | the user message's id and the placeholder's id differ |
| CustomChat.PlaceholderIsFresh | ai-market-research/hooks/use-custom-chat.ts:61-62 | the placeholder id is new to a conversation whose ids are all earlier clock readings |
| CustomChat.SettleFillsPlaceholder | ai-market-research/hooks/use-custom-chat.ts:84-110 | settling changes only the placeholder's content, whatever was appended after it |
| CustomChat.ChatState.constructor | ai-market-research/hooks/use-custom-chat.ts:20-27 | the hook starts with the initial messages, an empty input, no loading and no error |
| CustomChat.ChatState.InputChange | ai-market-research/hooks/use-custom-chat.ts:29-34 | only the input changes, to the typed value |
| CustomChat.ChatState.Submit | ai-market-research/hooks/use-custom-chat.ts:36-64 | a blank input changes nothing; a missing or empty token sets only the error; otherwise the user message and an empty placeholder are appended in that order, the input is cleared, loading starts, the error is cleared, and the request carries "Bearer " and the token |
| CustomChat.ChatState.Settle | ai-market-research/hooks/use-custom-chat.ts:78-117 | the placeholder gets the reply text, or the apology with the error set; loading stops either way; nothing else changes |
| CustomChat.ChatState.HandleSubmit | ai-market-research/hooks/use-custom-chat.ts:36-118 | a blank input changes nothing; a missing or empty token sets only the error to "No JWT Token available!"; otherwise a whole submission appends exactly the user message and the settled assistant message, clears the input, points the id reference at the placeholder, and ends with loading stopped and the error set only on failure |

## Left out

- Logging (`logger.info`, `logger.warning`, `console.log`) is left out. The only logging the model keeps is whether the chat handler's guardrail warning fires.
- The HS256 signature, the secret and `jwt.decode`'s checks are left out: tokens are opaque strings from the signer and verifier oracles.
- The datetime claims are modelled as integer seconds. The two separate `datetime.now()` readings in `generate_jwt` are one `now`, so `exp - iat` is exactly 24 hours.
- The single integer `now` also assumes the host clock runs in UTC. `datetime.now()` gives naive local time and PyJWT reads naive times as UTC, so on a host in another zone the 24-hour window shifts by the zone offset; that shift is not modelled.
- bcrypt and SHA-256 internals are left out; they are oracles. An error from `bcrypt.hashpw` is the oracle's `HashFailure`, and one from `bcrypt.checkpw` its `CheckFailure`. The 72-byte bcrypt password limit is not modelled beyond that: a library that rejects a longer password shows up as one of those failures, and one that truncates it shows up as an oracle that hashes only the prefix.
- JSON text is left out: bodies are parsed values or a parser error text, and `json.dumps` of responses is not rendered. JSON numbers are integers; floats are not modelled.
- UTF-8 encoding and decoding are left out: chunks arrive as decoded text, and `encode("utf-8")` is only an AttributeError check on non-text values.
- Sessions.LiveTokenReachesAgent: holds for the request with the lower-case `authorization` key (`Sessions.ChatRequest`). The client writes `Authorization`, which the handler refuses (`Sessions.ClientHeaderRefused`). Whether the gateway lower-cases header names is deployment configuration, which is not modelled.
- Sessions.LoginOpensChat: holds under the same lower-casing gateway as `Sessions.LiveTokenReachesAgent`; with the header as the client writes it, the login token gets 401 (`Sessions.ClientHeaderRefused`).
- Sessions.SignupOpensChat: holds under the same lower-casing gateway as `Sessions.LiveTokenReachesAgent`; with the header as the client writes it, the signup token gets 401 (`Sessions.ClientHeaderRefused`).
- ChatHandler.MemoryId: a list or dict `sub` claim is rendered by Python's `repr`, which is not modelled, so the model gives no memory id for it.
- Text.Lower: only ASCII letters are lower-cased. Python's `str.lower()` also maps non-ASCII letters.
- An event without `httpMethod`, which raises KeyError outside every handler's `try`, is not modelled.
- A `headers` entry that is JSON null, which would make the chat handler's `.get` fail, is not modelled.
- The `Item` returned by the store lookup is a map of JSON values; DynamoDB's typed attribute values are not modelled.
- The deployment environment is left out: table names, agent ids and the refusal message are inputs.
- The `isAuthenticated` cookie is modelled only as an entry removed from the cookie jar; its path and other attributes are not modelled.
- CustomChat.ChatState.Settle: the `onResponse` and `onError` callbacks are not modelled.
- CustomChat.ReplyText: the reply's `response` and `message` fields are modelled as absent or text. A non-text truthy field, and a reply that is JSON `null`, are not modelled.
- CustomChat.ChatState.Submit: the token comes in as a parameter holding what `AuthUtils.GetToken` returns. The endpoint URL is not modelled.
- React's batching and re-rendering are left out. Each state setter is an assignment to the field, and any interleaving between `Submit` and `Settle` is allowed.
- The client pages (`app/chat/page.tsx`, `app/signup/page.tsx`, `app/page.tsx`) are not part of this model.
