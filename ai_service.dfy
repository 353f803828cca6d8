/** The assistant's API service: how the outcome of a request becomes an
    `ApiResponse` and what a chat request sends. The HTTP client is left out; a
    request's outcome is given as a value. */
module AiService {
  import opened Common
  import opened Text

  datatype ChatRole = User | Assistant

  /** A chat message; `timestamp` is the time it was added, in milliseconds. */
  datatype ChatMessage = ChatMessage(role: ChatRole, content: string, timestamp: Option<int>)

  /** A message as the chat request carries it. */
  datatype WireMessage = WireMessage(role: ChatRole, content: string)

  datatype ChatRequest = ChatRequest(input: string, messages: seq<WireMessage>)

  /** The body of a chat reply. */
  datatype ChatResponse = ChatResponse(text: string, error: Option<string>)

  /** The error body a server may send with a failing status. */
  datatype ErrorBody = ErrorBody(error: Option<string>, message: Option<string>)

  /** How a request ended: a response in the 2xx range, a response with another
      status, a request without any response, or a failure before it was sent. */
  datatype RequestOutcome<T> =
    | Responded(data: Option<T>, status: int)
    | ErrorStatus(body: Option<ErrorBody>, status: int)
    | NoResponse
    | SetupFailure(message: Option<string>)

  /** What every service call resolves to. */
  datatype ApiResponse<T> = ApiResponse(data: Option<T>, error: Option<string>, status: int)

  /** The error text of a failing status: the body's `error`, else its `message`,
      else `HTTP error! status: <status>`. */
  function StatusErrorText(body: Option<ErrorBody>, status: int): (text: string)
    ensures text != ""
    ensures body.Some? && Truthy(body.value.error) ==> text == body.value.error.value
    ensures body.Some? && !Truthy(body.value.error) && Truthy(body.value.message) ==> text == body.value.message.value
    ensures !(body.Some? && (Truthy(body.value.error) || Truthy(body.value.message))) ==>
              text == StatusPrefix + IntToString(status)
  {
    var fallback := StatusPrefix + IntToString(status);
    match body
    case Some(b) => OrElse(b.error, OrElse(b.message, fallback))
    case None => fallback
  }

  /** `handleRequest`: a response passes its data and status on with no error;
      every failure gives no data and an error text, with the response's status
      when there was one and 0 otherwise. */
  function HandleRequest<T>(outcome: RequestOutcome<T>): (r: ApiResponse<T>)
    ensures outcome.Responded? ==> r == ApiResponse(outcome.data, None, outcome.status)
    ensures outcome.ErrorStatus? ==>
              r == ApiResponse(None, Some(StatusErrorText(outcome.body, outcome.status)), outcome.status)
    ensures outcome.NoResponse? ==> r == ApiResponse(None, Some("No response received from server"), 0)
    ensures outcome.SetupFailure? ==> r == ApiResponse(None, Some(OrElse(outcome.message, "Unknown error occurred")), 0)
  {
    match outcome
    case Responded(data, status) => ApiResponse(data, None, status)
    case ErrorStatus(body, status) => ApiResponse(None, Some(StatusErrorText(body, status)), status)
    case NoResponse => ApiResponse(None, Some("No response received from server"), 0)
    case SetupFailure(message) => ApiResponse(None, Some(OrElse(message, "Unknown error occurred")), 0)
  }

  /** A response carries an error exactly when the request failed, and then a
      non-empty one and no data. */
  lemma ErrorIffFailed<T>(outcome: RequestOutcome<T>)
    ensures var r := HandleRequest(outcome);
            (r.error.Some? <==> !outcome.Responded?) &&
            (r.error.Some? ==> r.error.value != "" && r.data.None?) &&
            (r.status == 0 <== outcome.NoResponse? || outcome.SetupFailure?)
  {
  }

  /** The text every status error without a usable body starts with. */
  const StatusPrefix := "HTTP error! status: "

  /** A failing status without an error body is reported by its number, which
      reads back from the text after `status: `; different statuses give different
      messages. */
  lemma StatusWithoutBody<T>(status: int, other: int)
    ensures var e := HandleRequest<T>(ErrorStatus(None, status)).error;
            e.Some? && |e.value| > |StatusPrefix| && e.value[..|StatusPrefix|] == StatusPrefix &&
            ParseInt(e.value[|StatusPrefix|..]) == Finite(status as real)
    ensures other != status ==>
            HandleRequest<T>(ErrorStatus(None, status)).error != HandleRequest<T>(ErrorStatus(None, other)).error
  {
    var text := IntToString(status);
    var e := StatusPrefix + text;
    assert HandleRequest<T>(ErrorStatus(None, status)).error == Some(e);
    assert e[..|StatusPrefix|] == StatusPrefix && e[|StatusPrefix|..] == text;
    ParseIntOfIntToString(status);
    var e2 := StatusPrefix + IntToString(other);
    if other != status && e == e2 {
      assert e[|StatusPrefix|..] == e2[|StatusPrefix|..];
      IntToStringInjective(status, other);
    }
  }

  /** A message as sent: its role and content, without a timestamp. */
  function ToWire(m: ChatMessage): (w: WireMessage)
    ensures w.role == m.role && w.content == m.content
  {
    WireMessage(m.role, m.content)
  }

  /** `sendChatMessage`'s payload: the input and the history, each message reduced
      to role and content. */
  function ChatPayload(input: string, history: seq<ChatMessage>): (req: ChatRequest)
    ensures req.input == input && |req.messages| == |history|
    ensures forall i :: 0 <= i < |history| ==> req.messages[i] == ToWire(history[i])
  {
    ChatRequest(input, seq(|history|, i requires 0 <= i < |history| => ToWire(history[i])))
  }

  /** Timestamps do not reach the server: histories that differ only in them give
      the same payload. */
  lemma PayloadIgnoresTimestamps(input: string, h1: seq<ChatMessage>, h2: seq<ChatMessage>)
    requires |h1| == |h2|
    requires forall i :: 0 <= i < |h1| ==> h1[i].role == h2[i].role && h1[i].content == h2[i].content
    ensures ChatPayload(input, h1) == ChatPayload(input, h2)
  {
    var p1, p2 := ChatPayload(input, h1), ChatPayload(input, h2);
    assert forall i :: 0 <= i < |h1| ==> p1.messages[i] == p2.messages[i];
  }

  /** The payload of a longer history extends the payload of the shorter one. */
  lemma PayloadOfAppend(input: string, history: seq<ChatMessage>, m: ChatMessage)
    ensures ChatPayload(input, history + [m]).messages == ChatPayload(input, history).messages + [ToWire(m)]
  {
    var a, b := ChatPayload(input, history + [m]).messages, ChatPayload(input, history).messages + [ToWire(m)];
    assert forall i :: 0 <= i < |history| ==> (history + [m])[i] == history[i];
    assert forall i :: 0 <= i < |a| ==> a[i] == b[i];
  }
}
