/** The client chat hook: the conversation, the input box, the loading flag
    and the last error, as state that `handleSubmit` updates in sequence.
    The request to the chat endpoint is split at its `await`: `Submit` runs
    up to the request, `Settle` applies what the request came back with, and
    anything may happen to the state in between. */
module CustomChat {
  import opened Values
  import opened Text

  datatype Role = User | Assistant

  /** A chat message; ids are millisecond timestamps rendered in decimal. */
  datatype Message = Message(id: string, role: Role, content: string)

  const NoToken: string := "No JWT Token available!"
  const Apology: string :=
    "Sorry, I couldn't process your request. Please try again or contact support if the problem persists."

  /** The parsed reply's `response` and `message` fields (absent, or text)
      and the reply's JSON serialisation. */
  datatype Reply = Reply(response: Option<string>, message: Option<string>, serialized: string)

  /** What reading the reply body gave: the parsed reply, or the text of the
      error `response.json()` threw. */
  datatype ReplyBody = Readable(reply: Reply) | Unreadable(message: string)

  /** What the request came back with: the status and body, or the text of
      the error `fetch` threw. */
  datatype FetchOutcome = Responded(status: int, body: ReplyBody) | NetworkFailure(message: string)

  /** The request `handleSubmit` sends, and the placeholder it will fill. */
  datatype Pending = Pending(placeholderId: string, authorization: string, input: string)

  /** JavaScript truthiness of an optional text field. */
  predicate Present(field: Option<string>) {
    field.Some? && field.value != ""
  }

  /** The placeholder's new content: the reply's `response` when it is
      non-empty text, else its `message` when that is, else the whole reply
      serialised. */
  function ReplyText(reply: Reply): (text: string)
    ensures Present(reply.response) ==> text == reply.response.value
    ensures !Present(reply.response) && Present(reply.message) ==> text == reply.message.value
    ensures !Present(reply.response) && !Present(reply.message) ==> text == reply.serialized
  {
    if Present(reply.response) then reply.response.value
    else if Present(reply.message) then reply.message.value
    else reply.serialized
  }

  /** `response.ok`: a status in 200-299. */
  predicate Successful(status: int) {
    200 <= status <= 299
  }

  /** The text the placeholder receives, or the error that was caught. */
  function Settlement(outcome: FetchOutcome): (s: Result<string>)
    ensures s.Ok? <==> outcome.Responded? && Successful(outcome.status) && outcome.body.Readable?
    ensures s.Ok? ==> s.value == ReplyText(outcome.body.reply)
    ensures outcome.NetworkFailure? ==> s == Err(outcome.message)
    ensures outcome.Responded? && !Successful(outcome.status) ==> s == Err("HTTP error! status: " + Decimal(outcome.status))
    ensures outcome.Responded? && Successful(outcome.status) && outcome.body.Unreadable? ==> s == Err(outcome.body.message)
  {
    match outcome
    case NetworkFailure(message) => Err(message)
    case Responded(status, body) =>
      if !Successful(status) then Err("HTTP error! status: " + Decimal(status))
      else
        match body
        case Unreadable(message) => Err(message)
        case Readable(reply) => Ok(ReplyText(reply))
  }

  /** The `messages.map` that gives every message carrying `id` the new
      content and leaves the rest, and the order, as they were. */
  function Rewrite(messages: seq<Message>, id: string, content: string): (r: seq<Message>)
    ensures |r| == |messages|
    ensures forall i :: 0 <= i < |messages| ==>
      r[i] == if messages[i].id == id then messages[i].(content := content) else messages[i]
    decreases |messages|
  {
    if messages == [] then []
    else
      var head := if messages[0].id == id then messages[0].(content := content) else messages[0];
      [head] + Rewrite(messages[1..], id, content)
  }

  /** The ids the conversation holds. */
  function Ids(messages: seq<Message>): set<string> {
    set i | 0 <= i < |messages| :: messages[i].id
  }

  /** Rewriting works message by message: it distributes over concatenation,
      so messages appended while the request was on its way are treated alike. */
  lemma RewriteAppend(a: seq<Message>, b: seq<Message>, id: string, content: string)
    ensures Rewrite(a + b, id, content) == Rewrite(a, id, content) + Rewrite(b, id, content)
  {
    var lhs, rhs := Rewrite(a + b, id, content), Rewrite(a, id, content) + Rewrite(b, id, content);
    assert |lhs| == |rhs|;
    forall i | 0 <= i < |lhs|
      ensures lhs[i] == rhs[i]
    {
      if i >= |a| {
        assert (a + b)[i] == b[i - |a|];
      }
    }
  }

  /** A conversation none of whose messages carries `id` is left as it is. */
  lemma RewriteAbsent(messages: seq<Message>, id: string, content: string)
    requires id !in Ids(messages)
    ensures Rewrite(messages, id, content) == messages
  {
    var r := Rewrite(messages, id, content);
    forall i | 0 <= i < |messages|
      ensures r[i] == messages[i]
    {
      assert messages[i].id in Ids(messages);
    }
  }

  /** The two ids `handleSubmit` takes from the clock differ: the user
      message's is the first reading, the placeholder's one more than the
      second, which is not earlier. */
  lemma SubmitIdsDistinct(t1: int, t2: int)
    requires t1 <= t2
    ensures Decimal(t1) != Decimal(t2 + 1)
  {
    if Decimal(t1) == Decimal(t2 + 1) {
      DecimalInjective(t1, t2 + 1);
    }
  }

  /** The placeholder is new to a conversation whose ids all come from
      earlier clock readings. */
  lemma PlaceholderIsFresh(messages: seq<Message>, stamps: seq<int>, t2: int)
    requires |stamps| == |messages|
    requires forall i :: 0 <= i < |messages| ==> messages[i].id == Decimal(stamps[i]) && stamps[i] <= t2
    ensures Decimal(t2 + 1) !in Ids(messages)
  {
    if Decimal(t2 + 1) in Ids(messages) {
      var i :| 0 <= i < |messages| && messages[i].id == Decimal(t2 + 1);
      DecimalInjective(stamps[i], t2 + 1);
    }
  }

  /** Settling a submission whose placeholder id is fresh changes the
      placeholder's content and nothing else, wherever the messages after it
      came from. */
  lemma SettleFillsPlaceholder(before: seq<Message>, user: Message, placeholderId: string, later: seq<Message>, content: string)
    requires placeholderId !in Ids(before) && user.id != placeholderId && placeholderId !in Ids(later)
    ensures Rewrite(before + [user, Message(placeholderId, Assistant, "")] + later, placeholderId, content)
         == before + [user, Message(placeholderId, Assistant, content)] + later
  {
    var added := [user, Message(placeholderId, Assistant, "")];
    RewriteAppend(before + added, later, placeholderId, content);
    RewriteAppend(before, added, placeholderId, content);
    RewriteAbsent(before, placeholderId, content);
    RewriteAbsent(later, placeholderId, content);
  }

  /** The hook's state. `messageIdRef` is the placeholder id of the latest submission. */
  class ChatState {
    var messages: seq<Message>
    var input: string
    var isLoading: bool
    var error: Option<string>
    var messageIdRef: string

    /** `useCustomChat({initialMessages})`. */
    constructor (initialMessages: seq<Message>)
      ensures messages == initialMessages && input == "" && !isLoading && error == None && messageIdRef == ""
    {
      messages := initialMessages;
      input := "";
      isLoading := false;
      error := None;
      messageIdRef := "";
    }

    /** `handleInputChange`: the input box takes the typed value. */
    method InputChange(value: string)
      modifies this
      ensures input == value
      ensures messages == old(messages) && isLoading == old(isLoading) && error == old(error)
      ensures messageIdRef == old(messageIdRef)
    {
      input := value;
    }

    /** `handleSubmit` up to the request. `token` is what `getToken()`
        returned; `t1` and `t2` are the two clock readings. A blank input
        does nothing; a missing or empty token only sets the error;
        otherwise the user message and an empty placeholder are appended,
        the input is cleared, loading starts and the request is returned. */
    method Submit(token: Option<string>, t1: int, t2: int) returns (pending: Option<Pending>)
      modifies this
      ensures JsBlank(old(input)) ==>
        pending == None && messages == old(messages) && input == old(input) && isLoading == old(isLoading)
        && error == old(error) && messageIdRef == old(messageIdRef)
      ensures !JsBlank(old(input)) && !Present(token) ==>
        pending == None && messages == old(messages) && input == old(input) && isLoading == old(isLoading)
        && error == Some(NoToken) && messageIdRef == old(messageIdRef)
      ensures !JsBlank(old(input)) && Present(token) ==>
        var placeholderId := Decimal(t2 + 1);
        && pending == Some(Pending(placeholderId, "Bearer " + token.value, old(input)))
        && messages == old(messages) + [Message(Decimal(t1), User, old(input)), Message(placeholderId, Assistant, "")]
        && input == "" && isLoading && error == None && messageIdRef == placeholderId
    {
      if JsBlank(input) {
        return None;
      }
      if token.None? || token.value == "" {
        error := Some(NoToken);
        return None;
      }
      var userMessage := Message(Decimal(t1), User, input);
      messages := messages + [userMessage];
      input := "";
      isLoading := true;
      error := None;
      var placeholderId := Decimal(t2 + 1);
      messageIdRef := placeholderId;
      messages := messages + [Message(placeholderId, Assistant, "")];
      pending := Some(Pending(placeholderId, "Bearer " + token.value, userMessage.content));
    }

    /** `handleSubmit` after the request: the placeholder gets the reply's
        text, or the apology and the caught error; loading stops either way. */
    method Settle(pending: Pending, outcome: FetchOutcome)
      modifies this
      ensures Settlement(outcome).Ok? ==>
        messages == Rewrite(old(messages), pending.placeholderId, Settlement(outcome).value) && error == old(error)
      ensures Settlement(outcome).Err? ==>
        messages == Rewrite(old(messages), pending.placeholderId, Apology) && error == Some(Settlement(outcome).error)
      ensures !isLoading && input == old(input) && messageIdRef == old(messageIdRef)
    {
      match Settlement(outcome) {
        case Ok(text) =>
          messages := Rewrite(messages, pending.placeholderId, text);
        case Err(message) =>
          error := Some(message);
          messages := Rewrite(messages, pending.placeholderId, Apology);
      }
      isLoading := false;
    }

    /** One whole `handleSubmit` with nothing happening during the request:
        when the conversation's ids are all earlier clock readings, it ends
        with the user message and the settled assistant message appended,
        the input cleared and loading stopped; the early returns change what
        `Submit` says they change. */
    method HandleSubmit(token: Option<string>, t1: int, t2: int, stamps: seq<int>, outcome: FetchOutcome)
      requires t1 <= t2 && |stamps| == |messages|
      requires forall i :: 0 <= i < |messages| ==> messages[i].id == Decimal(stamps[i]) && stamps[i] <= t2
      modifies this
      ensures !JsBlank(old(input)) && Present(token) ==>
        var reply := if Settlement(outcome).Ok? then Settlement(outcome).value else Apology;
        && messages == old(messages) + [Message(Decimal(t1), User, old(input)), Message(Decimal(t2 + 1), Assistant, reply)]
        && input == "" && !isLoading && messageIdRef == Decimal(t2 + 1)
        && error == (if Settlement(outcome).Ok? then None else Some(Settlement(outcome).error))
      ensures JsBlank(old(input)) ==>
        messages == old(messages) && input == old(input) && isLoading == old(isLoading)
        && error == old(error) && messageIdRef == old(messageIdRef)
      ensures !JsBlank(old(input)) && !Present(token) ==>
        messages == old(messages) && input == old(input) && isLoading == old(isLoading)
        && error == Some(NoToken) && messageIdRef == old(messageIdRef)
    {
      var before := messages;
      PlaceholderIsFresh(before, stamps, t2);
      SubmitIdsDistinct(t1, t2);
      var pending := Submit(token, t1, t2);
      if pending.Some? {
        Settle(pending.value, outcome);
        var reply := if Settlement(outcome).Ok? then Settlement(outcome).value else Apology;
        SettleFillsPlaceholder(before, Message(Decimal(t1), User, old(input)), Decimal(t2 + 1), [], reply);
        assert before + [Message(Decimal(t1), User, old(input)), Message(Decimal(t2 + 1), Assistant, "")] + []
            == before + [Message(Decimal(t1), User, old(input)), Message(Decimal(t2 + 1), Assistant, "")];
        assert before + [Message(Decimal(t1), User, old(input)), Message(Decimal(t2 + 1), Assistant, reply)] + []
            == before + [Message(Decimal(t1), User, old(input)), Message(Decimal(t2 + 1), Assistant, reply)];
      }
    }
  }
}
