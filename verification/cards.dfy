/**
 * What the list cards show of a record: the user profile card cuts its
 * description at 100 characters, the AI model card at 150 and the system
 * prompt card its content at 200, each adding "..." when it cuts; and the
 * delete button of a card asks for that card's own record to be deleted.
 */
module Cards {
  import opened Wrappers
  import opened Strings

  const UserProfileDescriptionLimit: nat := 100
  const AIModelDescriptionLimit: nat := 150
  const SystemPromptContentLimit: nat := 200

  /**
   * `s.length > limit ? s.substring(0, limit) + "..." : s`: the text is
   * shown whole when it fits, otherwise its first `limit` characters and an
   * ellipsis.  The result never exceeds `limit + 3` characters and always
   * starts with as much of the text as fits.
   */
  function Truncate(s: string, limit: nat): (r: string)
    ensures |r| <= limit + 3
    ensures |s| <= limit ==> r == s
    ensures |s| > limit ==> |r| == limit + 3 && r[..limit] == s[..limit] && r[limit..] == "..."
  {
    if |s| > limit then s[..limit] + "..." else s
  }

  /** `description && <p>…</p>`: an absent or empty description shows nothing. */
  function ShownDescription(description: Option<string>, limit: nat): (r: Option<string>)
    ensures r.None? <==> !Truthy(description)
    ensures r.Some? ==> r.value == Truncate(description.value, limit)
  {
    if Truthy(description) then Some(Truncate(description.value, limit)) else None
  }

  datatype SystemPrompt = SystemPrompt(id: int, content: string)
  datatype AIModel = AIModel(id: int, description: Option<string>)

  /** The user profile card's description. */
  function UserProfileDescription(description: Option<string>): Option<string> {
    ShownDescription(description, UserProfileDescriptionLimit)
  }

  /** The AI model card's description. */
  function AIModelDescription(m: AIModel): Option<string> {
    ShownDescription(m.description, AIModelDescriptionLimit)
  }

  /** The system prompt card's content, always shown. */
  function SystemPromptContent(p: SystemPrompt): string {
    Truncate(p.content, SystemPromptContentLimit)
  }

  /** The shown text is a prefix of the original followed by at most an ellipsis. */
  lemma TruncateIsPrefixPlusEllipsis(s: string, limit: nat)
    ensures var r := Truncate(s, limit);
      exists n :: 0 <= n <= |s| && n <= limit && r == s[..n] + (if n < |s| then "..." else "")
  {
    var r := Truncate(s, limit);
    if |s| > limit {
      assert r == s[..limit] + "...";
    } else {
      assert r == s[..|s|] + "";
    }
  }

  /** Truncating a shown text again changes nothing unless it was cut. */
  lemma TruncateShortIsIdentity(s: string, limit: nat)
    requires |s| <= limit
    ensures Truncate(Truncate(s, limit), limit) == s
  {
  }

  /** The three cards' bounds: 103, 153 and 203 characters at most. */
  lemma CardBounds(description: Option<string>, m: AIModel, p: SystemPrompt)
    ensures UserProfileDescription(description).Some? ==> |UserProfileDescription(description).value| <= 103
    ensures AIModelDescription(m).Some? ==> |AIModelDescription(m).value| <= 153
    ensures |SystemPromptContent(p)| <= 203
    ensures |p.content| <= 200 ==> SystemPromptContent(p) == p.content
    ensures |p.content| > 200 ==> SystemPromptContent(p)[..200] == p.content[..200]
  {
  }

  /** `handleDeleteClick` of the system prompt card: `onDelete` gets this prompt's id. */
  method SystemPromptDeleteClick(p: SystemPrompt) returns (deletedId: int)
    ensures deletedId == p.id
  {
    deletedId := p.id;
  }

  /** `handleDeleteClick` of the AI model card: `onDelete` gets this model's id. */
  method AIModelDeleteClick(m: AIModel) returns (deletedId: int)
    ensures deletedId == m.id
  {
    deletedId := m.id;
  }
}
