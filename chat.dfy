/** The sports assistant's chat panel: the message list, the input box, the
    loading flag and the last error, and the changes that sending a message,
    pressing a key and clearing the chat make to them. The service's reply is a
    parameter: a function from the request sent to the response received. */
module Chat {
  import opened Common
  import opened Text
  import opened AiService

  /** What a failed reply is shown as, after this prefix. */
  const ErrorPrefix := "Sorry, I encountered an error: "

  /** A reply counts as failed when it carries an error or no data. */
  predicate ReplyFailed(response: ApiResponse<ChatResponse>)
  {
    Truthy(response.error) || response.data.None?
  }

  /** The error a failed reply is reported with: its own, else 'Failed to get
      response'. */
  function FailureText(response: ApiResponse<ChatResponse>): (msg: string)
    ensures msg != ""
    ensures Truthy(response.error) ==> msg == response.error.value
    ensures !Truthy(response.error) ==> msg == "Failed to get response"
  {
    OrElse(response.error, "Failed to get response")
  }

  /** The assistant's message for a reply received at `now`: the reply's text, or
      the apology with the error. */
  function ReplyMessage(response: ApiResponse<ChatResponse>, now: int): (m: ChatMessage)
    ensures m.role == Assistant && m.timestamp == Some(now)
    ensures !ReplyFailed(response) ==> m.content == response.data.value.text
    ensures ReplyFailed(response) ==> m.content == ErrorPrefix + FailureText(response)
  {
    if ReplyFailed(response) then ChatMessage(Assistant, ErrorPrefix + FailureText(response), Some(now))
    else ChatMessage(Assistant, response.data.value.text, Some(now))
  }

  /** The panel's state. */
  datatype ChatSnapshot = ChatSnapshot(messages: seq<ChatMessage>, input: string, isLoading: bool, error: Option<string>)

  /** A message is sent only when the input has more than whitespace and no reply
      is pending. */
  predicate CanSend(s: ChatSnapshot): (ok: bool)
    ensures ok <==> !AllSpace(s.input) && !s.isLoading
  {
    TrimEmptyIffBlank(s.input);
    Trim(s.input) != "" && !s.isLoading
  }

  /** `handleSendMessage` from start to end: the trimmed input is added as the
      user's message, the request carries it with the history before it, the input
      is cleared, and the reply or the apology is added. */
  function AfterSend(s: ChatSnapshot, reply: ChatRequest -> ApiResponse<ChatResponse>,
                     sentAt: int, repliedAt: int): (t: ChatSnapshot)
    ensures !CanSend(s) ==> t == s
    ensures CanSend(s) ==>
              var response := reply(ChatPayload(Trim(s.input), s.messages));
              t.messages == s.messages + [ChatMessage(User, Trim(s.input), Some(sentAt)), ReplyMessage(response, repliedAt)] &&
              t.input == "" && !t.isLoading &&
              (ReplyFailed(response) ==> t.error == Some(FailureText(response))) &&
              (!ReplyFailed(response) ==> t.error.None?)
  {
    if !CanSend(s) then s
    else
      var text := Trim(s.input);
      var response := reply(ChatPayload(text, s.messages));
      ChatSnapshot(s.messages + [ChatMessage(User, text, Some(sentAt)), ReplyMessage(response, repliedAt)], "", false,
                   if ReplyFailed(response) then Some(FailureText(response)) else None)
  }

  lemma AppendTwo<T>(h: seq<T>, u: T, a: T)
    ensures h + [u] + [a] == h + [u, a]
  {
  }

  /** The state a send that goes ahead ends in, field by field. */
  lemma SendOutcome(s: ChatSnapshot, reply: ChatRequest -> ApiResponse<ChatResponse>, sentAt: int, repliedAt: int)
    requires CanSend(s)
    ensures var response := reply(ChatPayload(Trim(s.input), s.messages));
            AfterSend(s, reply, sentAt, repliedAt) ==
              ChatSnapshot(s.messages + [ChatMessage(User, Trim(s.input), Some(sentAt)), ReplyMessage(response, repliedAt)], "", false,
                           if ReplyFailed(response) then Some(FailureText(response)) else None)
  {
  }

  /** The part of `handleSendMessage` before its `await`: the trimmed input is
      added as the user's message, the input is cleared, loading starts and the
      error is reset. Nothing changes without trimmed input or while loading. */
  function BeginSend(s: ChatSnapshot, sentAt: int): (t: ChatSnapshot)
    ensures !CanSend(s) ==> t == s
    ensures CanSend(s) ==> t == ChatSnapshot(s.messages + [ChatMessage(User, Trim(s.input), Some(sentAt))], "", true, None)
  {
    if !CanSend(s) then s
    else ChatSnapshot(s.messages + [ChatMessage(User, Trim(s.input), Some(sentAt))], "", true, None)
  }

  /** The part after the `await`, applied to the panel as it is when the reply
      arrives: the answer or the apology is appended to the messages of that
      moment (`prev => [...prev, m]`), a failure sets the error, and loading ends. */
  function FinishSend(s: ChatSnapshot, response: ApiResponse<ChatResponse>, repliedAt: int): (t: ChatSnapshot)
    ensures t.messages == s.messages + [ReplyMessage(response, repliedAt)]
    ensures t.input == s.input && !t.isLoading
    ensures ReplyFailed(response) ==> t.error == Some(FailureText(response))
    ensures !ReplyFailed(response) ==> t.error == s.error
  {
    s.(messages := s.messages + [ReplyMessage(response, repliedAt)], isLoading := false,
       error := if ReplyFailed(response) then Some(FailureText(response)) else s.error)
  }

  /** With nothing in between, the two halves make up the whole send. */
  lemma SendIsBeginThenFinish(s: ChatSnapshot, reply: ChatRequest -> ApiResponse<ChatResponse>, sentAt: int, repliedAt: int)
    requires CanSend(s)
    ensures AfterSend(s, reply, sentAt, repliedAt) ==
            FinishSend(BeginSend(s, sentAt), reply(ChatPayload(Trim(s.input), s.messages)), repliedAt)
  {
    var response := reply(ChatPayload(Trim(s.input), s.messages));
    var user := ChatMessage(User, Trim(s.input), Some(sentAt));
    AppendTwo(s.messages, user, ReplyMessage(response, repliedAt));
    SendOutcome(s, reply, sentAt, repliedAt);
  }

  /** `handleKeyPress`: Enter without Shift sends; every other key changes nothing
      here (typing goes through the input's own handler). */
  function AfterKeyPress(s: ChatSnapshot, key: string, shiftKey: bool, reply: ChatRequest -> ApiResponse<ChatResponse>,
                         sentAt: int, repliedAt: int): (t: ChatSnapshot)
    ensures !(key == "Enter" && !shiftKey) ==> t == s
    ensures key == "Enter" && !shiftKey ==> t == AfterSend(s, reply, sentAt, repliedAt)
  {
    if key == "Enter" && !shiftKey then AfterSend(s, reply, sentAt, repliedAt) else s
  }

  /** `clearChat`: no messages and no error; the input and the loading flag stay. */
  function AfterClear(s: ChatSnapshot): (t: ChatSnapshot)
    ensures t.messages == [] && t.error.None?
    ensures t.input == s.input && t.isLoading == s.isLoading
  {
    s.(messages := [], error := None)
  }

  // ---------------------------------------------------------------------------
  // The panel's invariant

  /** The conversation alternates: the user's messages at even places, each
      answered by the assistant's at the next place. */
  predicate Paired(ms: seq<ChatMessage>)
  {
    |ms| % 2 == 0 && forall i :: 0 <= i < |ms| ==> ms[i].role == (if i % 2 == 0 then User else Assistant)
  }

  /** Between sends: nothing is pending, the conversation alternates, and an error
      is the one the last message apologises for. */
  predicate Valid(s: ChatSnapshot)
  {
    !s.isLoading && Paired(s.messages) &&
    (s.error.Some? ==> s.messages != [] && s.messages[|s.messages| - 1].content == ErrorPrefix + s.error.value)
  }

  lemma PairedAppend(ms: seq<ChatMessage>, u: ChatMessage, a: ChatMessage)
    requires Paired(ms) && u.role == User && a.role == Assistant
    ensures Paired(ms + [u, a])
  {
    var t := ms + [u, a];
    assert forall i :: 0 <= i < |ms| ==> t[i] == ms[i];
    assert t[|ms|] == u && t[|ms| + 1] == a;
  }

  /** Sending keeps the invariant. */
  lemma SendKeepsValid(s: ChatSnapshot, reply: ChatRequest -> ApiResponse<ChatResponse>, sentAt: int, repliedAt: int)
    requires Valid(s)
    ensures Valid(AfterSend(s, reply, sentAt, repliedAt))
  {
    if CanSend(s) {
      var response := reply(ChatPayload(Trim(s.input), s.messages));
      PairedAppend(s.messages, ChatMessage(User, Trim(s.input), Some(sentAt)), ReplyMessage(response, repliedAt));
    }
  }

  /** Clearing keeps the invariant. */
  lemma ClearKeepsValid(s: ChatSnapshot)
    requires Valid(s)
    ensures Valid(AfterClear(s))
  {
  }

  /** Clearing while a reply is pending: 'Clear Chat' is shown whenever there are
      messages, loading or not. The reply then lands in the emptied list alone, so
      the conversation no longer alternates from a user message. */
  lemma ClearWhilePendingBreaksPairing(s: ChatSnapshot, response: ApiResponse<ChatResponse>, sentAt: int, repliedAt: int)
    requires Valid(s) && CanSend(s)
    ensures var pending := BeginSend(s, sentAt);
            pending.isLoading && pending.messages != [] &&
            FinishSend(AfterClear(pending), response, repliedAt).messages == [ReplyMessage(response, repliedAt)] &&
            !Valid(FinishSend(AfterClear(pending), response, repliedAt))
  {
    var t := FinishSend(AfterClear(BeginSend(s, sentAt)), response, repliedAt);
    assert t.messages[0].role == Assistant;
  }

  /** Adjacent messages have different roles. */
  predicate Alternating(ms: seq<ChatMessage>)
  {
    forall i :: 0 < i < |ms| ==> ms[i - 1].role != ms[i].role
  }

  /** What holds in every state the panel reaches, also when the chat is cleared
      while a reply is pending: the roles alternate; while loading, no error is
      shown and the last message, if any, is the user's; otherwise the last
      message, if any, is the assistant's; and an error is the one the last
      message apologises for. */
  predicate Consistent(s: ChatSnapshot)
  {
    Alternating(s.messages) &&
    (s.isLoading ==> s.error.None? && (s.messages == [] || s.messages[|s.messages| - 1].role == User)) &&
    (!s.isLoading ==> s.messages == [] || s.messages[|s.messages| - 1].role == Assistant) &&
    (s.error.Some? ==> s.messages != [] && s.messages[|s.messages| - 1].content == ErrorPrefix + s.error.value)
  }

  lemma AlternatingAppend(ms: seq<ChatMessage>, m: ChatMessage)
    requires Alternating(ms) && (ms == [] || ms[|ms| - 1].role != m.role)
    ensures Alternating(ms + [m])
  {
    var t := ms + [m];
    assert forall i :: 0 <= i < |ms| ==> t[i] == ms[i];
  }

  /** Every panel between sends is consistent. */
  lemma ValidIsConsistent(s: ChatSnapshot)
    requires Valid(s)
    ensures Consistent(s)
  {
    var ms := s.messages;
    forall i | 0 < i < |ms|
      ensures ms[i - 1].role != ms[i].role
    {
      assert ms[i - 1].role == (if (i - 1) % 2 == 0 then User else Assistant);
    }
    if ms != [] {
      assert ms[|ms| - 1].role == Assistant;
    }
  }

  /** Starting a send keeps the panel consistent. */
  lemma BeginKeepsConsistent(s: ChatSnapshot, sentAt: int)
    requires Consistent(s)
    ensures Consistent(BeginSend(s, sentAt))
  {
    if CanSend(s) {
      AlternatingAppend(s.messages, ChatMessage(User, Trim(s.input), Some(sentAt)));
    }
  }

  /** The reply arriving while loading keeps the panel consistent. */
  lemma FinishKeepsConsistent(s: ChatSnapshot, response: ApiResponse<ChatResponse>, repliedAt: int)
    requires Consistent(s) && s.isLoading
    ensures Consistent(FinishSend(s, response, repliedAt))
  {
    AlternatingAppend(s.messages, ReplyMessage(response, repliedAt));
  }

  /** Clearing, at any moment, keeps the panel consistent. */
  lemma ClearKeepsConsistent(s: ChatSnapshot)
    requires Consistent(s)
    ensures Consistent(AfterClear(s))
  {
  }

  /** A blank input sends nothing, whatever the reply would have been. */
  lemma BlankInputSendsNothing(s: ChatSnapshot, reply: ChatRequest -> ApiResponse<ChatResponse>, sentAt: int, repliedAt: int)
    requires AllSpace(s.input)
    ensures AfterSend(s, reply, sentAt, repliedAt) == s
  {
    TrimEmptyIffBlank(s.input);
  }

  /** A send adds exactly two messages, the user's trimmed text and then the
      assistant's answer, and keeps the earlier ones. */
  lemma SendAddsOneExchange(s: ChatSnapshot, reply: ChatRequest -> ApiResponse<ChatResponse>, sentAt: int, repliedAt: int)
    requires CanSend(s)
    ensures var t := AfterSend(s, reply, sentAt, repliedAt);
            |t.messages| == |s.messages| + 2 && t.messages[..|s.messages|] == s.messages &&
            t.messages[|s.messages|].role == User && t.messages[|s.messages|].content == Trim(s.input) &&
            t.messages[|s.messages| + 1].role == Assistant
  {
    var t := AfterSend(s, reply, sentAt, repliedAt);
    var response := reply(ChatPayload(Trim(s.input), s.messages));
    assert t.messages == s.messages + [ChatMessage(User, Trim(s.input), Some(sentAt)), ReplyMessage(response, repliedAt)];
  }

  /** A reply that tells how many earlier messages the request carried. */
  function CountingReply(req: ChatRequest): ApiResponse<ChatResponse>
  {
    ApiResponse(Some(ChatResponse(IntToString(|req.messages|), None)), None, 200)
  }

  /** The request leaves out the message being sent: its history is the
      conversation before it. */
  lemma RequestCarriesEarlierHistory(s: ChatSnapshot, sentAt: int, repliedAt: int)
    requires CanSend(s)
    ensures AfterSend(s, CountingReply, sentAt, repliedAt).messages[|s.messages| + 1].content == IntToString(|s.messages|)
  {
  }

  // ---------------------------------------------------------------------------
  // The panel as an object

  class ChatPanel {
    var messages: seq<ChatMessage>
    var input: string
    var isLoading: bool
    var error: Option<string>

    function Snapshot(): ChatSnapshot
      reads this
    {
      ChatSnapshot(messages, input, isLoading, error)
    }

    /** An empty panel. */
    constructor ()
      ensures Snapshot() == ChatSnapshot([], "", false, None)
      ensures Valid(Snapshot())
    {
      messages, input, isLoading, error := [], "", false, None;
    }

    /** Typing: the input box's text becomes `text`. */
    method SetInput(text: string)
      modifies this
      ensures Snapshot() == old(Snapshot()).(input := text)
    {
      input := text;
    }

    /** The start of `handleSendMessage`, up to its `await`: the request it sends,
        if it sends one, carries the trimmed input and the history before the new
        message. */
    method StartSend(sentAt: int) returns (request: Option<ChatRequest>)
      modifies this
      ensures Snapshot() == BeginSend(old(Snapshot()), sentAt)
      ensures request.Some? <==> CanSend(old(Snapshot()))
      ensures request.Some? ==> request.value == ChatPayload(Trim(old(input)), old(messages))
    {
      if Trim(input) == "" || isLoading {
        return None;
      }
      var text := Trim(input);
      var history := messages;
      messages := messages + [ChatMessage(User, text, Some(sentAt))];
      input := "";
      isLoading := true;
      error := None;
      request := Some(ChatPayload(text, history));
    }

    /** The continuation after the `await`, on the panel as it is then. */
    method ReceiveReply(response: ApiResponse<ChatResponse>, repliedAt: int)
      modifies this
      ensures Snapshot() == FinishSend(old(Snapshot()), response, repliedAt)
    {
      var assistantMessage;
      if Truthy(response.error) || response.data.None? {
        var errorMessage := OrElse(response.error, "Failed to get response");
        error := Some(errorMessage);
        assistantMessage := ChatMessage(Assistant, ErrorPrefix + errorMessage, Some(repliedAt));
      } else {
        assistantMessage := ChatMessage(Assistant, response.data.value.text, Some(repliedAt));
      }
      assert assistantMessage == ReplyMessage(response, repliedAt);
      messages := messages + [assistantMessage];
      isLoading := false;
    }

    /** `handleSendMessage` with the reply arriving before anything else happens. */
    method HandleSendMessage(reply: ChatRequest -> ApiResponse<ChatResponse>, sentAt: int, repliedAt: int)
      modifies this
      ensures Snapshot() == AfterSend(old(Snapshot()), reply, sentAt, repliedAt)
    {
      ghost var s := Snapshot();
      var request := StartSend(sentAt);
      if request.Some? {
        var response := reply(request.value);
        ReceiveReply(response, repliedAt);
        SendIsBeginThenFinish(s, reply, sentAt, repliedAt);
      }
    }

    /** `handleKeyPress`. */
    method HandleKeyPress(key: string, shiftKey: bool, reply: ChatRequest -> ApiResponse<ChatResponse>,
                          sentAt: int, repliedAt: int)
      modifies this
      ensures Snapshot() == AfterKeyPress(old(Snapshot()), key, shiftKey, reply, sentAt, repliedAt)
    {
      if key == "Enter" && !shiftKey {
        HandleSendMessage(reply, sentAt, repliedAt);
      }
    }

    /** `clearChat`. */
    method ClearChat()
      modifies this
      ensures Snapshot() == AfterClear(old(Snapshot()))
    {
      messages := [];
      error := None;
    }
  }
}
