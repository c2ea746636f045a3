/**
 * What the four creation forms (character, user profile, system prompt, AI
 * model) have in common: a required field is one whose trimmed value is not
 * empty, an optional field is sent trimmed or not at all, and the create call
 * either resolves or throws, possibly carrying a message from the server.
 */
module Forms {
  import opened Wrappers
  import opened Strings

  /**
   * How the awaited create call ends: it resolves, or it throws an error whose
   * `response.data.error.message` may be present.
   */
  datatype Outcome = Resolved | Threw(serverMessage: Option<string>)

  /** `!value.trim()`: the field counts as missing. */
  function Blank(value: string): (b: bool)
    ensures b <==> AllWhitespace(value)
  {
    Trim(value) == ""
  }

  /**
   * `value?.trim() || undefined`: an optional field is dropped when it holds
   * only whitespace, and is otherwise sent without surrounding whitespace.
   */
  function Optional(value: string): (r: Option<string>)
    ensures r.None? <==> AllWhitespace(value)
    ensures r.Some? ==> r.value == Trim(value) && r.value != ""
    ensures r.Some? ==> !IsWhitespace(r.value[0]) && !IsWhitespace(r.value[|r.value| - 1])
  {
    var t := Trim(value);
    if t == "" then None else Some(t)
  }

  /** Normalising a value already normalised changes nothing. */
  lemma OptionalIdempotent(value: string)
    requires Optional(value).Some?
    ensures Optional(Optional(value).value) == Optional(value)
  {
    TrimIdempotent(value);
  }

  /**
   * The error shown when the create call throws, for the three forms that
   * prefer the server's message: a non-empty server message, else the form's
   * own text.
   */
  function FailureMessage(outcome: Outcome, fallback: string): (m: string)
    requires outcome.Threw?
    ensures Truthy(outcome.serverMessage) ==> m == outcome.serverMessage.value
    ensures !Truthy(outcome.serverMessage) ==> m == fallback
    ensures fallback != "" ==> m != ""
  {
    OrElse(outcome.serverMessage, fallback)
  }
}
