/** The chat screen: a history of messages shown as bubbles, and the send
    action that appends the user's message and a loading placeholder, asks
    the assistant service, and then either takes over the history the
    service returns or appends an error message. */
module Chat {
  import opened Wrappers
  import opened JsText

  /** One message of the conversation: `{ role, parts }`. The screen writes
      roles "user" and "model"; histories from the service may hold others. */
  datatype Message = Message(role: string, parts: seq<string>)

  /** The message the history starts with. */
  const Greeting: Message :=
    Message("model", ["Hello, I am your AI assistant. How can I help you today?"])
  /** The message shown while the service is being asked. */
  const Placeholder: Message := Message("model", ["Loading response..."])

  /** The user's message for the trimmed text. */
  function UserMessage(text: string): Message {
    Message("user", [text])
  }

  /** The message appended when the request throws. */
  function ErrorMessage(errorMessage: string): Message {
    Message("model", ["Error: " + errorMessage])
  }

  /** The body posted to the service: the message and the history sent with it. */
  datatype ChatRequest = ChatRequest(message: string, history: seq<Message>)

  /** How the request ends: the service's reply carries a whole new history,
      or the request (or reading its reply) throws an error with a message. */
  datatype ServerOutcome = Replied(history: seq<Message>) | Failed(errorMessage: string)

  /** The text of a bubble: the message's parts joined by single spaces. */
  function BubbleText(m: Message): string {
    Join(m.parts, " ")
  }

  /** A bubble is drawn as the user's exactly when the role is "user". */
  predicate IsUserBubble(m: Message) {
    m.role == "user"
  }

  /** What sending `input` posts when the history is `h`: nothing for a
      blank input, otherwise the trimmed text together with the history
      that already ends in the user's message. */
  function RequestFor(h: seq<Message>, input: string): Option<ChatRequest> {
    if IsBlank(input) then None
    else Some(ChatRequest(Trim(input), h + [UserMessage(Trim(input))]))
  }

  /** The history shown while the request is in flight. */
  function PendingHistory(h: seq<Message>, input: string): seq<Message> {
    match RequestFor(h, input)
    case None => h
    case Some(request) => request.history + [Placeholder]
  }

  /** The history once the request has ended, from the history `h` shown
      at that moment. */
  function Resolved(h: seq<Message>, outcome: ServerOutcome): seq<Message> {
    match outcome
    case Replied(serverHistory) => serverHistory
    case Failed(errorMessage) => h + [ErrorMessage(errorMessage)]
  }

  class ChatScreen {
    var history: seq<Message>
    var inputText: string

    /** The screen opens with the greeting alone and an empty input. */
    constructor ()
      ensures history == [Greeting] && inputText == ""
    {
      history, inputText := [Greeting], "";
    }

    /** Typing in the message field. */
    method EditInput(text: string)
      modifies this`inputText
      ensures inputText == text
    {
      inputText := text;
    }

    /** The part of `sendChat` that runs before the request is awaited: a
        blank input changes nothing and sends nothing; otherwise the user's
        message and the placeholder are appended, the input is cleared, and
        the request carries the history without the placeholder. */
    method Send() returns (request: Option<ChatRequest>)
      modifies this
      ensures request == RequestFor(old(history), old(inputText))
      ensures history == PendingHistory(old(history), old(inputText))
      ensures inputText == if request.None? then old(inputText) else ""
    {
      var trimmedMessage := Trim(inputText);
      if trimmedMessage == [] {
        return None;
      }
      var newHistory := history + [UserMessage(trimmedMessage)];
      history := newHistory;
      inputText := "";
      history := history + [Placeholder];
      request := Some(ChatRequest(trimmedMessage, newHistory));
    }

    /** The part of `sendChat` that runs once the request has ended: the
        service's history replaces the shown one, or the error message is
        appended after what is shown (placeholder included). */
    method Receive(outcome: ServerOutcome)
      modifies this`history
      ensures history == Resolved(old(history), outcome)
    {
      match outcome
      case Replied(serverHistory) =>
        history := serverHistory;
      case Failed(errorMessage) =>
        history := history + [ErrorMessage(errorMessage)];
    }

    /** `sendChat` as a whole, when nothing else happens while it waits. */
    method SendChat(outcome: ServerOutcome) returns (request: Option<ChatRequest>)
      modifies this
      ensures request == RequestFor(old(history), old(inputText))
      ensures history ==
        if request.None? then old(history)
        else Resolved(PendingHistory(old(history), old(inputText)), outcome)
      ensures inputText == if request.None? then old(inputText) else ""
    {
      request := Send();
      if request.Some? {
        Receive(outcome);
      }
    }
  }

  /** While the request is in flight the history is the old one followed
      by exactly two bubbles: the user's, showing the trimmed text, and the
      placeholder. A blank input leaves the history as it was. */
  lemma PendingShowsUserThenPlaceholder(h: seq<Message>, input: string)
    ensures IsBlank(input) ==> PendingHistory(h, input) == h
    ensures !IsBlank(input) ==>
      var p := PendingHistory(h, input);
      |p| == |h| + 2 && p[..|h|] == h
      && IsUserBubble(p[|h|]) && BubbleText(p[|h|]) == Trim(input)
      && p[|h| + 1] == Placeholder && !IsUserBubble(p[|h| + 1])
  {
    if !IsBlank(input) {
      var p := PendingHistory(h, input);
      assert p == h + [UserMessage(Trim(input)), Placeholder];
    }
  }

  /** The posted history is the shown history minus its final placeholder:
      the request never includes the placeholder it is waiting behind. */
  lemma RequestOmitsOwnPlaceholder(h: seq<Message>, input: string)
    requires !IsBlank(input)
    ensures var request := RequestFor(h, input).value;
      PendingHistory(h, input) == request.history + [Placeholder]
      && request.history[|request.history| - 1] == UserMessage(request.message)
  {
  }

  /** The only placeholder a request can carry is one already in the
      history it was sent from: sending adds none of its own. */
  lemma RequestCarriesPlaceholderIff(h: seq<Message>, input: string)
    requires !IsBlank(input)
    ensures Placeholder in RequestFor(h, input).value.history <==> Placeholder in h
  {
    var request := RequestFor(h, input).value;
    assert request.history == h + [UserMessage(Trim(input))];
    assert UserMessage(Trim(input)) != Placeholder;
  }

  /** A failed request keeps the placeholder and puts the error after it,
      although the comment above that branch says the placeholder is removed. */
  lemma FailureKeepsPlaceholder(h: seq<Message>, input: string, errorMessage: string)
    requires !IsBlank(input)
    ensures Resolved(PendingHistory(h, input), Failed(errorMessage))
            == h + [UserMessage(Trim(input)), Placeholder, ErrorMessage(errorMessage)]
  {
  }

  /** Because of that, the next message after a failure posts a history
      that still holds the stale placeholder. */
  lemma NextRequestAfterFailureCarriesPlaceholder(
    h: seq<Message>, first: string, errorMessage: string, second: string)
    requires !IsBlank(first) && !IsBlank(second)
    ensures var shown := Resolved(PendingHistory(h, first), Failed(errorMessage));
      Placeholder in RequestFor(shown, second).value.history
  {
    var shown := Resolved(PendingHistory(h, first), Failed(errorMessage));
    FailureKeepsPlaceholder(h, first, errorMessage);
    assert shown[|h| + 1] == Placeholder;
    RequestCarriesPlaceholderIff(shown, second);
  }

  /** A bubble with several parts shows them in order, one space apart. */
  lemma BubbleTextOfParts(m: Message, k: nat)
    requires 0 < k < |m.parts|
    ensures BubbleText(m) == Join(m.parts[..k], " ") + " " + Join(m.parts[k..], " ")
    ensures |BubbleText(m)| == TotalLength(m.parts) + |m.parts| - 1
  {
    assert m.parts == m.parts[..k] + m.parts[k..];
    JoinConcat(m.parts[..k], m.parts[k..], " ");
    JoinLength(m.parts, " ");
  }
}
