/**
 * The message box under the chat (src/components/chat/ChatInput.tsx): the
 * text typed so far, sent trimmed on submit or on Enter without Shift, and a
 * button that is Send, or Cancel while a reply streams.
 */
module ChatInput {
  import opened Strings

  class ChatInput {
    /** The `message` state: the text in the box. */
    var message: string
    /** The `disabled` and `isStreaming` props. */
    var disabled: bool
    var isStreaming: bool
    /** The texts handed to `onSendMessage`, in order. */
    var sent: seq<string>

    constructor(disabled: bool, isStreaming: bool)
      ensures message == "" && sent == []
      ensures this.disabled == disabled && this.isStreaming == isStreaming
    {
      message := "";
      this.disabled := disabled;
      this.isStreaming := isStreaming;
      sent := [];
    }

    /** Whether a submit would send: some non-whitespace text and input enabled. */
    predicate CanSubmit()
      reads this
    {
      Trim(message) != "" && !disabled
    }

    /** While streaming the Cancel button replaces Send. */
    predicate ShowsCancel()
      reads this
    {
      isStreaming
    }

    /** The Send button is disabled exactly when a submit would not send. */
    predicate SendDisabled()
      reads this
    {
      Trim(message) == "" || disabled
    }

    lemma SendEnabledIffSubmitSends()
      ensures !SendDisabled() <==> CanSubmit()
    {
    }

    /** Typing: the box holds the new text. */
    method HandleTextareaChange(value: string)
      modifies this
      ensures message == value
      ensures sent == old(sent) && disabled == old(disabled) && isStreaming == old(isStreaming)
    {
      message := value;
    }

    /**
     * `handleSubmit`: with some non-whitespace text and input enabled, the
     * trimmed text is sent and the box is emptied; otherwise nothing happens.
     * A sent text is never empty and neither starts nor ends with whitespace.
     */
    method HandleSubmit()
      modifies this
      ensures old(CanSubmit()) ==> sent == old(sent) + [Trim(old(message))] && message == ""
      ensures !old(CanSubmit()) ==> sent == old(sent) && message == old(message)
      ensures |sent| > |old(sent)| ==> var t := sent[|sent| - 1];
        t != "" && !IsWhitespace(t[0]) && !IsWhitespace(t[|t| - 1])
      ensures disabled == old(disabled) && isStreaming == old(isStreaming)
    {
      var trimmed := Trim(message);
      if trimmed != "" && !disabled {
        sent := sent + [trimmed];
        message := "";
      }
    }

    /** `handleKeyDown`: Enter without Shift submits (and is kept out of the box); any other key does not. */
    method HandleKeyDown(key: string, shiftKey: bool) returns (prevented: bool)
      modifies this
      ensures prevented <==> key == "Enter" && !shiftKey
      ensures prevented && old(CanSubmit()) ==> sent == old(sent) + [Trim(old(message))] && message == ""
      ensures !prevented || !old(CanSubmit()) ==> sent == old(sent) && message == old(message)
      ensures disabled == old(disabled) && isStreaming == old(isStreaming)
    {
      prevented := false;
      if key == "Enter" && !shiftKey {
        prevented := true;
        HandleSubmit();
      }
    }
  }
}
