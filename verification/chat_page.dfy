/**
 * The chat page's streaming state machine (`handleSendMessage` and
 * `handleCancelMessage` of src/pages/ChatPage.tsx).
 *
 * Sending a message appends the user's message, switches streaming on and
 * consumes the events of the reply stream one by one: `content` events grow
 * the streaming text, and `done`, `error` and `cancelled` end the stream.  The
 * cooperative cancel flag (`streamingRef.current`) is checked before each
 * event, so nothing is applied after the stream has ended or been cancelled.
 *
 * The pure part is a `ChatState` value and step functions on it; the class
 * `ChatPage` holds the same state in fields, and each of its methods is proved
 * to move that state exactly as the step functions say.  Clock readings
 * (`Date.now()`, `toISOString()`) are parameters, and so is the outcome of the
 * backend's cancel call.
 */
module ChatPage {
  import opened Wrappers
  import opened Strings

  datatype Role = User | Assistant

  datatype Message = Message(id: int, chatSessionId: int, role: Role, content: string, timestamp: string)

  /** One reading of the clock: `Date.now()` and `new Date().toISOString()`. */
  datatype Stamp = Stamp(millis: int, iso: string)

  /** The events of the reply stream; `Other` is any other type, such as `user_message_saved`. */
  datatype StreamEvent =
    | Content(data: Option<string>)
    | Done
    | Error(error: Option<string>)
    | Cancelled(reason: Option<string>)
    | Other(kind: string)
  {
    /** The events after which the page stops streaming. */
    predicate Terminal() {
      Done? || Error? || Cancelled?
    }
  }

  /** How the stream ends once it has yielded its events: it returns, or it throws. */
  datatype StreamEnd = Finished | Threw

  const CancelledSuffix: string := " [cancelled]"
  const DefaultStreamError: string := "An error occurred while generating response"
  const SendFailedError: string := "Failed to send message. Please try again."

  /**
   * The page's state: the message list, the text streamed so far, the
   * `isStreaming` flag, the cancel flag `streamingRef.current`, the error
   * shown, and the accumulator of the send in progress.
   */
  datatype ChatState = ChatState(
    messages: seq<Message>,
    streamingMessage: string,
    isStreaming: bool,
    streamingRef: bool,
    error: Option<string>,
    accumulated: string)

  /** What holds between steps: the two flags agree, and while streaming the shown text is the accumulator. */
  predicate Consistent(s: ChatState) {
    s.isStreaming == s.streamingRef && (s.isStreaming ==> s.streamingMessage == s.accumulated)
  }

  const Initial: ChatState := ChatState([], "", false, false, None, "")

  // ---------------------------------------------------------------------------
  // The steps, on values

  /** Sending is possible only with a session id and while no reply is streaming. */
  predicate CanSend(s: ChatState, chatSessionId: Option<int>) {
    chatSessionId.Some? && !s.isStreaming
  }

  function UserMessage(sessionId: int, content: string, at: Stamp): Message {
    Message(at.millis, sessionId, User, content, at.iso)
  }

  function AssistantMessage(sessionId: int, content: string, at: Stamp): Message {
    Message(at.millis + 1, sessionId, Assistant, content, at.iso)
  }

  /** Lines 68-87: the user's message is shown at once and streaming starts from an empty text. */
  function StartSendSpec(s: ChatState, chatSessionId: Option<int>, content: string, at: Stamp): ChatState {
    if !CanSend(s, chatSessionId) then s
    else s.(messages := s.messages + [UserMessage(chatSessionId.value, content, at)],
            isStreaming := true, streamingMessage := "", streamingRef := true, accumulated := "")
  }

  /** Lines 97-132: one event applied, without the flag check. */
  function Step(s: ChatState, sessionId: int, doneAt: Stamp, e: StreamEvent): ChatState {
    match e
    case Content(data) =>
      var acc := s.accumulated + OrElse(data, "");
      s.(accumulated := acc, streamingMessage := acc)
    case Done =>
      s.(messages := s.messages + [AssistantMessage(sessionId, s.accumulated, doneAt)],
         streamingMessage := "", isStreaming := false, streamingRef := false)
    case Error(err) =>
      s.(error := Some(OrElse(err, DefaultStreamError)), isStreaming := false, streamingRef := false)
    case Cancelled(_) =>
      s.(streamingMessage := s.streamingMessage + CancelledSuffix, isStreaming := false, streamingRef := false)
    case Other(_) => s
  }

  /** Lines 90-133: the events in order, each applied only while the cancel flag is still set. */
  function Consume(s: ChatState, sessionId: int, doneAt: Stamp, events: seq<StreamEvent>): ChatState
    decreases |events|
  {
    if events == [] || !s.streamingRef then s
    else Consume(Step(s, sessionId, doneAt, events[0]), sessionId, doneAt, events[1..])
  }

  /** Whether the loop runs out of events (rather than leaving by `break`). */
  predicate Exhausts(s: ChatState, sessionId: int, doneAt: Stamp, events: seq<StreamEvent>)
    decreases |events|
  {
    if events == [] then true
    else if !s.streamingRef then false
    else Exhausts(Step(s, sessionId, doneAt, events[0]), sessionId, doneAt, events[1..])
  }

  /** Lines 134-139: the stream threw. */
  function ExceptionSpec(s: ChatState): ChatState {
    s.(error := Some(SendFailedError), isStreaming := false, streamingRef := false)
  }

  /**
   * A whole `handleSendMessage`.  A stream that throws does so when the loop
   * asks it for its next event, so the catch runs only when the loop did not
   * leave by `break`.
   */
  function SendSpec(s: ChatState, chatSessionId: Option<int>, content: string, sentAt: Stamp, doneAt: Stamp,
                    events: seq<StreamEvent>, end: StreamEnd): ChatState
  {
    if !CanSend(s, chatSessionId) then s
    else
      var started := StartSendSpec(s, chatSessionId, content, sentAt);
      var consumed := Consume(started, chatSessionId.value, doneAt, events);
      if end == Threw && Exhausts(started, chatSessionId.value, doneAt, events) then ExceptionSpec(consumed)
      else consumed
  }

  /** Lines 142-165: the outcome of the backend call does not enter the result. */
  function CancelSpec(s: ChatState, chatSessionId: Option<int>): ChatState {
    if chatSessionId.None? || !s.isStreaming then s
    else
      s.(streamingRef := false, isStreaming := false,
         streamingMessage := if s.streamingMessage != "" then s.streamingMessage + CancelledSuffix else "")
  }

  // ---------------------------------------------------------------------------
  // The page

  class ChatPage {
    const chatSessionId: Option<int>
    var messages: seq<Message>
    var streamingMessage: string
    var isStreaming: bool
    var streamingRef: bool
    var error: Option<string>
    /** `accumulatedContent`, local to the send in progress. */
    var accumulated: string

    function State(): ChatState
      reads this
    {
      ChatState(messages, streamingMessage, isStreaming, streamingRef, error, accumulated)
    }

    predicate Valid()
      reads this
    {
      Consistent(State())
    }

    constructor(chatSessionId: Option<int>)
      ensures this.chatSessionId == chatSessionId
      ensures State() == Initial && Valid()
    {
      this.chatSessionId := chatSessionId;
      messages := [];
      streamingMessage := "";
      isStreaming := false;
      streamingRef := false;
      error := None;
      accumulated := "";
    }

    /** The part of `handleSendMessage` before the stream is opened. */
    method StartSend(content: string, at: Stamp) returns (started: bool)
      requires Valid()
      modifies this
      ensures Valid()
      ensures started == CanSend(old(State()), chatSessionId)
      ensures State() == StartSendSpec(old(State()), chatSessionId, content, at)
    {
      if chatSessionId.None? || isStreaming {
        return false;
      }
      var userMessage := Message(at.millis, chatSessionId.value, User, content, at.iso);
      messages := messages + [userMessage];
      isStreaming := true;
      streamingMessage := "";
      streamingRef := true;
      accumulated := "";
      return true;
    }

    /** The `switch` on one event's type. */
    method OnEvent(e: StreamEvent, doneAt: Stamp)
      requires Valid() && chatSessionId.Some?
      modifies this
      ensures Valid()
      ensures State() == Step(old(State()), chatSessionId.value, doneAt, e)
    {
      match e
      case Content(data) =>
        accumulated := accumulated + OrElse(data, "");
        streamingMessage := accumulated;
      case Done =>
        var aiMessage := Message(doneAt.millis + 1, chatSessionId.value, Assistant, accumulated, doneAt.iso);
        messages := messages + [aiMessage];
        streamingMessage := "";
        isStreaming := false;
        streamingRef := false;
      case Error(err) =>
        error := Some(OrElse(err, DefaultStreamError));
        isStreaming := false;
        streamingRef := false;
      case Cancelled(_) =>
        streamingMessage := streamingMessage + CancelledSuffix;
        isStreaming := false;
        streamingRef := false;
      case Other(_) =>
    }

    /** The `catch` of `handleSendMessage`. */
    method OnException()
      modifies this
      ensures Valid()
      ensures State() == ExceptionSpec(old(State()))
    {
      error := Some(SendFailedError);
      isStreaming := false;
      streamingRef := false;
    }

    /** `handleSendMessage`, with the stream given as its events and the way it ends. */
    method SendMessage(content: string, sentAt: Stamp, doneAt: Stamp, events: seq<StreamEvent>, end: StreamEnd)
      requires Valid()
      modifies this
      ensures Valid()
      ensures State() == SendSpec(old(State()), chatSessionId, content, sentAt, doneAt, events, end)
    {
      var started := StartSend(content, sentAt);
      if !started {
        return;
      }
      ghost var s0 := State();
      var i := 0;
      var broke := false;
      while i < |events|
        invariant Valid() && chatSessionId.Some?
        invariant 0 <= i <= |events|
        invariant Consume(State(), chatSessionId.value, doneAt, events[i..]) == Consume(s0, chatSessionId.value, doneAt, events)
        invariant Exhausts(State(), chatSessionId.value, doneAt, events[i..]) == Exhausts(s0, chatSessionId.value, doneAt, events)
        decreases |events| - i
      {
        if !streamingRef {
          broke := true;
          break;
        }
        assert events[i..][1..] == events[i + 1..];
        OnEvent(events[i], doneAt);
        i := i + 1;
      }
      assert broke || events[i..] == [];
      if end == Threw && !broke {
        OnException();
      }
    }

    /** `handleCancelMessage`; `backendOk` is whether `chatApi.cancelMessage` resolved. */
    method Cancel(backendOk: bool)
      requires Valid()
      modifies this
      ensures Valid()
      ensures State() == CancelSpec(old(State()), chatSessionId)
    {
      if chatSessionId.None? || !isStreaming {
        return;
      }
      streamingRef := false;
      if backendOk {
        isStreaming := false;
        streamingMessage := if streamingMessage != "" then streamingMessage + CancelledSuffix else "";
      } else {
        streamingRef := false;
        isStreaming := false;
        streamingMessage := if streamingMessage != "" then streamingMessage + CancelledSuffix else "";
      }
    }
  }

  // ---------------------------------------------------------------------------
  // Properties

  /** Every step keeps the two flags in agreement and the shown text equal to the accumulator. */
  lemma StepsKeepConsistent(s: ChatState, chatSessionId: Option<int>, content: string, at: Stamp, e: StreamEvent)
    requires Consistent(s)
    ensures Consistent(StartSendSpec(s, chatSessionId, content, at))
    ensures chatSessionId.Some? ==> Consistent(Step(s, chatSessionId.value, at, e))
    ensures Consistent(CancelSpec(s, chatSessionId))
    ensures Consistent(ExceptionSpec(s))
  {
  }

  /** A send is a no-op while a reply streams or without a session; otherwise it starts streaming from "". */
  lemma StartSendEffect(s: ChatState, chatSessionId: Option<int>, content: string, at: Stamp)
    ensures var t := StartSendSpec(s, chatSessionId, content, at);
      && (!CanSend(s, chatSessionId) ==> t == s)
      && (CanSend(s, chatSessionId) ==>
            && t.messages == s.messages + [Message(at.millis, chatSessionId.value, User, content, at.iso)]
            && t.isStreaming && t.streamingRef && t.streamingMessage == "" && t.error == s.error)
  {
  }

  /** The text one event adds to the accumulator: a `content` event's data, or "". */
  function Carried(e: StreamEvent): string {
    if e.Content? then OrElse(e.data, "") else ""
  }

  /** The text carried by the `content` events of `events`, in arrival order (absent data counts as ""). */
  function ContentOf(events: seq<StreamEvent>): string
    decreases |events|
  {
    if events == [] then "" else Carried(events[0]) + ContentOf(events[1..])
  }

  predicate NoTerminal(events: seq<StreamEvent>) {
    forall k :: 0 <= k < |events| ==> !events[k].Terminal()
  }

  /** What the page is like while a reply streams. */
  predicate StreamingWith(t: ChatState, s: ChatState, acc: string) {
    && t.accumulated == acc && t.streamingMessage == acc
    && t.isStreaming && t.streamingRef
    && t.messages == s.messages && t.error == s.error
  }

  /** A non-terminal event only adds its text to the accumulator. */
  lemma NonTerminalStep(s: ChatState, sessionId: int, doneAt: Stamp, e: StreamEvent)
    requires Consistent(s) && s.isStreaming && !e.Terminal()
    ensures StreamingWith(Step(s, sessionId, doneAt, e), s, s.accumulated + Carried(e))
  {
    if !e.Content? {
      assert s.accumulated + Carried(e) == s.accumulated;
    }
  }

  /**
   * While no terminal event arrives, streaming goes on: the accumulator grows
   * by the content of the events in the order they arrive, the shown text is
   * the accumulator, and neither the messages nor the error change.  A stream
   * that stops without a terminal event leaves the page streaming.
   */
  lemma {:induction false} ContentAccumulatesInOrder(s: ChatState, sessionId: int, doneAt: Stamp, events: seq<StreamEvent>)
    requires Consistent(s) && s.isStreaming
    requires NoTerminal(events)
    ensures StreamingWith(Consume(s, sessionId, doneAt, events), s, s.accumulated + ContentOf(events))
    ensures Exhausts(s, sessionId, doneAt, events)
    decreases |events|
  {
    if events == [] {
      assert s.accumulated + ContentOf(events) == s.accumulated;
    } else {
      var s1 := Step(s, sessionId, doneAt, events[0]);
      NoTerminalTail(events);
      NonTerminalStep(s, sessionId, doneAt, events[0]);
      ContentAccumulatesInOrder(s1, sessionId, doneAt, events[1..]);
      assert Consume(s, sessionId, doneAt, events) == Consume(s1, sessionId, doneAt, events[1..]);
      assert Exhausts(s, sessionId, doneAt, events) == Exhausts(s1, sessionId, doneAt, events[1..]);
      assert ContentOf(events) == Carried(events[0]) + ContentOf(events[1..]);
      assert s.accumulated + ContentOf(events) == s1.accumulated + ContentOf(events[1..]);
    }
  }

  lemma NoTerminalTail(events: seq<StreamEvent>)
    requires events != [] && NoTerminal(events)
    ensures !events[0].Terminal() && NoTerminal(events[1..])
  {
    forall k | 0 <= k < |events| - 1 ensures !events[1..][k].Terminal() {
      assert events[1..][k] == events[k + 1];
    }
  }

  /** Consuming `a + b` is consuming `a`, then `b`. */
  lemma {:induction false} ConsumeAppend(s: ChatState, sessionId: int, doneAt: Stamp, a: seq<StreamEvent>, b: seq<StreamEvent>)
    ensures Consume(s, sessionId, doneAt, a + b) == Consume(Consume(s, sessionId, doneAt, a), sessionId, doneAt, b)
    decreases |a|
  {
    if a == [] {
      assert a + b == b;
    } else if s.streamingRef {
      assert (a + b)[0] == a[0];
      assert (a + b)[1..] == a[1..] + b;
      ConsumeAppend(Step(s, sessionId, doneAt, a[0]), sessionId, doneAt, a[1..], b);
    } else {
      assert a + b != [];
    }
  }

  /** After a terminal event, the cancel flag is down and later events change nothing. */
  lemma {:induction false} TerminalEndsStream(s: ChatState, sessionId: int, doneAt: Stamp, e: StreamEvent, rest: seq<StreamEvent>)
    requires e.Terminal()
    ensures !Step(s, sessionId, doneAt, e).isStreaming
    ensures Consume(Step(s, sessionId, doneAt, e), sessionId, doneAt, rest) == Step(s, sessionId, doneAt, e)
  {
  }

  /**
   * At most one terminal event is processed per send: with the first terminal
   * event at `k`, the result is that event applied to the state after the
   * events before it, whatever follows.
   */
  lemma AtMostOneTerminal(s: ChatState, sessionId: int, doneAt: Stamp, events: seq<StreamEvent>, k: nat)
    requires k < |events| && events[k].Terminal()
    ensures Consume(s, sessionId, doneAt, events) ==
      var before := Consume(s, sessionId, doneAt, events[..k]);
      if before.streamingRef then Step(before, sessionId, doneAt, events[k]) else before
  {
    assert events == events[..k] + ([events[k]] + events[k + 1..]);
    ConsumeAppend(s, sessionId, doneAt, events[..k], [events[k]] + events[k + 1..]);
    var before := Consume(s, sessionId, doneAt, events[..k]);
    if before.streamingRef {
      assert ([events[k]] + events[k + 1..])[1..] == events[k + 1..];
      TerminalEndsStream(before, sessionId, doneAt, events[k], events[k + 1..]);
    }
  }

  /**
   * During a send the message list only grows at its end, by at most one
   * message, and a message added by the stream is the assistant's reply
   * carrying the whole accumulator.
   */
  lemma {:induction false} MessagesOnlyGrow(s: ChatState, sessionId: int, doneAt: Stamp, events: seq<StreamEvent>)
    ensures var t := Consume(s, sessionId, doneAt, events);
      && s.messages <= t.messages
      && |t.messages| <= |s.messages| + 1
      && (|t.messages| == |s.messages| + 1 ==>
            t.messages[|s.messages|] == AssistantMessage(sessionId, t.accumulated, doneAt) && !t.isStreaming)
    decreases |events|
  {
    if events != [] && s.streamingRef {
      var s1 := Step(s, sessionId, doneAt, events[0]);
      if events[0].Done? {
        TerminalEndsStream(s, sessionId, doneAt, events[0], events[1..]);
      } else {
        MessagesOnlyGrow(s1, sessionId, doneAt, events[1..]);
      }
    }
  }

  /**
   * The usual reply: `content` events and then `done`.  The page ends with
   * the user's message and one assistant message holding the streamed text,
   * no longer streaming and with the streamed text cleared, whatever the
   * stream yields after `done`.
   */
  lemma ReplyThenDone(s: ChatState, chatSessionId: Option<int>, content: string, sentAt: Stamp, doneAt: Stamp,
                      contents: seq<StreamEvent>, rest: seq<StreamEvent>)
    requires Consistent(s) && CanSend(s, chatSessionId)
    requires NoTerminal(contents)
    ensures var t := SendSpec(s, chatSessionId, content, sentAt, doneAt, contents + [Done] + rest, Finished);
      && t.messages == s.messages + [UserMessage(chatSessionId.value, content, sentAt),
                                     AssistantMessage(chatSessionId.value, ContentOf(contents), doneAt)]
      && !t.isStreaming && t.streamingMessage == "" && t.error == s.error
  {
    var id := chatSessionId.value;
    var s1 := StartSendSpec(s, chatSessionId, content, sentAt);
    var events := contents + [Done] + rest;
    ContentAccumulatesInOrder(s1, id, doneAt, contents);
    var s2 := Consume(s1, id, doneAt, contents);
    assert events == contents + ([Done] + rest);
    ConsumeAppend(s1, id, doneAt, contents, [Done] + rest);
    assert ([Done] + rest)[1..] == rest;
    TerminalEndsStream(s2, id, doneAt, Done, rest);
    assert s2.accumulated == ContentOf(contents);
    assert s.messages + [UserMessage(id, content, sentAt)] + [AssistantMessage(id, ContentOf(contents), doneAt)]
        == s.messages + [UserMessage(id, content, sentAt), AssistantMessage(id, ContentOf(contents), doneAt)];
  }

  /** An `error` event shows its message, or the default one, ends streaming and adds no message. */
  lemma ErrorEndsWithoutReply(s: ChatState, sessionId: int, doneAt: Stamp, err: Option<string>)
    ensures var t := Step(s, sessionId, doneAt, Error(err));
      && t.messages == s.messages && !t.isStreaming && !t.streamingRef
      && t.error == Some(if err.Some? && err.value != "" then err.value else DefaultStreamError)
  {
  }

  /** A `cancelled` event always marks the shown text; an unknown event changes nothing. */
  lemma CancelledAndUnknownEvents(s: ChatState, sessionId: int, doneAt: Stamp, reason: Option<string>, kind: string)
    ensures Step(s, sessionId, doneAt, Cancelled(reason)).streamingMessage == s.streamingMessage + " [cancelled]"
    ensures !Step(s, sessionId, doneAt, Cancelled(reason)).isStreaming
    ensures Step(s, sessionId, doneAt, Other(kind)) == s
  {
  }

  /**
   * Cancel ends streaming and marks a non-empty shown text; it is a no-op
   * when nothing streams, so cancelling twice is cancelling once, and after
   * it no event of the stream is applied.
   */
  lemma CancelStopsStream(s: ChatState, chatSessionId: Option<int>, doneAt: Stamp, events: seq<StreamEvent>)
    requires Consistent(s)
    ensures var t := CancelSpec(s, chatSessionId);
      && (chatSessionId.Some? && s.isStreaming ==>
            && !t.isStreaming && !t.streamingRef && t.messages == s.messages && t.error == s.error
            && t.streamingMessage == (if s.streamingMessage == "" then "" else s.streamingMessage + " [cancelled]"))
      && (chatSessionId.None? || !s.isStreaming ==> t == s)
      && CancelSpec(t, chatSessionId) == t
      && (chatSessionId.Some? ==> Consume(t, chatSessionId.value, doneAt, events) == t)
  {
  }
}
