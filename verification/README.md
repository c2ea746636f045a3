# Roleplay chat client — a verified model of its logic

This project models, in Dafny, the parts of the Roleplay Chat web client that
compute something rather than only draw it:

- **Text formatting** (`TextFormatter`). The chat splits a message into plain
  and styled segments. A segment is styled when it lies between two occurrences
  of a formatting rule's delimiter (`*actions*`, `"speech"`, `~thoughts~`,
  `_emphasis_` by default). The scan is modelled twice. The `while` loop is a
  method, and it is proved equal to a recursive specification. Properties of
  that specification are proved as lemmas: round trip, earliest match and
  tie-break, well-formed segments, and pass-through when formatting is off.
- **Reply streaming** (`ChatPage`). Sending a message appends it and then
  consumes the server's reply stream event by event (`content`, `done`,
  `error`, `cancelled`, others). A cooperative cancel flag is checked before
  each event. Cancelling stops the stream. The page is a class whose methods
  are proved to follow step functions on a state value. Lemmas about those
  functions cover ordered accumulation, at most one terminal event, messages
  that only grow, and cancel.
- **Rule editor** (`FormattingConfig`). It updates, appends and deletes rules,
  switches formatting on and off, and saves or cancels.
- **Opening-message picker** (`FirstMessageSelector`). It cycles an index
  through the messages, wrapping at both ends, and validates one of them.
- **File picker** (`FileUpload`). It checks a file's size and type, and
  handles the selected file, the error, and the drag highlight.
- **Avatar addresses** (`Avatar`) and **card text truncation** (`Cards`).
- **Message box** (`ChatInput`) and the **four creation forms**
  (`CreateCharacterModal`, `CreateUserProfileModal`,
  `CreateSystemPromptModal`, `CreateAIModelModal`, sharing `Forms`).

`Wrappers` holds `Option`. `Strings` holds the JavaScript string operations
the client uses, over ASCII: `trim`, `toLowerCase`, `split`, `startsWith`,
`endsWith`, `||` on optional strings, and decimal rendering.

Inputs that come from outside the client are parameters:

- the reply stream's events and how the stream ends;
- whether a backend call resolves or throws, and the server's error message;
- clock readings;
- the MIME-pattern test.

Callbacks handed to a component (`onSave`, `onSelect`, `onFileSelect`,
`onSendMessage`, the create calls) are recorded in sequence fields, in the
order they are called.

## Model

| member | source | states |
|---|---|---|
| TextFormatter.CreateDefaultFormattingSettings | src/utils/textFormatter.ts:144-149 | Formatting is on. There are four enabled rules with the one-character delimiters `*`, `"`, `~`, `_` in that order, and no two delimiters are equal (rules of lines 11-56). |
| TextFormatter.StylesToCSS | src/utils/textFormatter.ts:127-139 | Each of the seven style properties is copied exactly when it is truthy, and is absent otherwise. |
| TextFormatter.IndexOfIsFirst | src/utils/textFormatter.ts:79 | `indexOf(d, from)` gives the first occurrence of `d` at or after `from`. It gives none only when `d` does not occur there. |
| TextFormatter.CandidateAsWrittenIsFirstPair | src/utils/textFormatter.ts:78-92 | The per-rule step as written finds the first complete pair of the delimiter from the current index. The opening is the first occurrence. The closing is the first occurrence after the opening. The step finds nothing exactly when no pair exists. |
| TextFormatter.Candidate | src/utils/textFormatter.ts:79-89 | The corrected per-rule step: a match belongs to its rule, lies inside the text in order, and ends strictly after the current index. |
| TextFormatter.CandidateIsFirstPair | src/utils/textFormatter.ts:78-92 | A rule has a candidate exactly when its delimiter is non-empty and has a complete pair from the current index. The candidate is the first such pair. |
| TextFormatter.EnabledRules | src/utils/textFormatter.ts:66 | The active rules are exactly the enabled rules of the list. The list is empty when none is enabled. |
| TextFormatter.EnabledRulesInOrder | src/utils/textFormatter.ts:66 | `filter` keeps the configured order. The active list holds one entry per enabled rule. An enabled rule sits in it at the number of enabled rules configured before it, so earlier-configured rules come earlier. |
| TextFormatter.EnabledRulePosition | src/utils/textFormatter.ts:66 | An enabled rule at a configured position appears in the active list at the count of enabled rules before it. |
| TextFormatter.EnabledCountGrows | src/utils/textFormatter.ts:66 | An enabled rule configured before another gets an earlier active position. |
| TextFormatter.NextMatch | src/utils/textFormatter.ts:75-93 | The chosen match belongs to a listed rule, lies in order inside the text, and advances the scan. |
| TextFormatter.FindCandidate | src/utils/textFormatter.ts:79-91 | The loop body for one rule computes that rule's candidate. |
| TextFormatter.FindNextMatch | src/utils/textFormatter.ts:75-93 | The `for` loop over the active rules computes the specified next match. |
| TextFormatter.EarliestIsFirstMinimum | src/utils/textFormatter.ts:84 | Keeping a candidate only when it opens strictly earlier selects the smallest index. Among equal indices it keeps the first in list order. |
| TextFormatter.NextMatchIsEarliest | src/utils/textFormatter.ts:78-93 | No match exactly when no rule has a candidate. The chosen match opens no later than any candidate. Every rule listed before the winner has no candidate or opens strictly later. |
| TextFormatter.NextMatchIsFirstPair | src/utils/textFormatter.ts:78-93 | The chosen match is the first complete pair of its rule's non-empty delimiter. |
| TextFormatter.ParseFromStep | src/utils/textFormatter.ts:95-118 | One iteration, stated on the specification. Without a match, the rest of the text is one unstyled segment. With a match, the result is the non-empty unstyled text before it, then the styled content between the delimiters, then the scan resumed at the match's end. |
| TextFormatter.ParseFormattedText | src/utils/textFormatter.ts:61-122 | The `while` loop returns exactly the specified segment list. |
| TextFormatter.PassThrough | src/utils/textFormatter.ts:62-69 | The result is the whole text as one unstyled segment in these cases: settings absent, disabled, with no rules, or with no enabled rule. |
| TextFormatter.EmptyTextNoSegments | src/utils/textFormatter.ts:71-74 | With formatting on and an enabled rule, empty text gives no segment at all. |
| TextFormatter.EmittedRoundTrip | src/utils/textFormatter.ts:97-111 | The segments pushed for one match, with the delimiters written back around the styled one, are exactly the text from the current index to the match's end. |
| TextFormatter.ParseFromRoundTrip | src/utils/textFormatter.ts:74-119 | The scan from any index renders back to the rest of the text. |
| TextFormatter.ParseRoundTrip | src/utils/textFormatter.ts:61-122 | Concatenating the segments, each styled one between two copies of its delimiter, reproduces the input exactly. |
| TextFormatter.EmittedWellFormed | src/utils/textFormatter.ts:97-109 | Both segments pushed for a match are well formed. |
| TextFormatter.ParseFromWellFormed | src/utils/textFormatter.ts:74-119 | Every segment of the scan from any index is well formed. |
| TextFormatter.ParseWellFormed | src/utils/textFormatter.ts:61-122 | A styled segment's rule is an enabled rule of the settings. Its delimiter is non-empty, occurs twice in the text, and does not occur in the segment's content. For non-empty text, unstyled segments are never empty. |
| TextFormatter.DanglingDelimiterUnstyled | src/utils/textFormatter.ts:80-83 | A rule whose delimiter has no complete pair in the text styles no segment. |
| TextFormatter.EmptyDelimiterStalls | src/utils/textFormatter.ts:79-111 | As written, a first active rule with an empty delimiter is matched where the scan stands, with the match ending there too. The scan never advances. |
| TextFormatter.AsWrittenAgreesUnlessStalled | src/utils/textFormatter.ts:78-111 | When the as-written scan finds nothing, the corrected scan finds nothing too. The converse does not hold, since an active empty delimiter always gives the as-written scan a match. When the as-written scan advances, it picks the same match as the corrected scan. It fails to advance exactly when it picks an empty delimiter. |
| ChatPage.ChatPage.constructor | src/pages/ChatPage.tsx:14-19 | The page starts with no messages, no streaming text, streaming off, the cancel flag down and no error. The session id is the one given. |
| ChatPage.ChatPage.StartSend | src/pages/ChatPage.tsx:67-84 | It starts exactly when there is a session id and nothing streams. The user's message is appended, streaming starts from empty text, and both flags are raised. |
| ChatPage.ChatPage.OnEvent | src/pages/ChatPage.tsx:97-132 | Applying one event moves the fields as the step function says, and keeps the flags and the shown text consistent. |
| ChatPage.ChatPage.OnException | src/pages/ChatPage.tsx:134-139 | A thrown stream sets the send-failure error and stops streaming. |
| ChatPage.ChatPage.SendMessage | src/pages/ChatPage.tsx:67-140 | The whole send: events are applied in order while the cancel flag stays set. The catch applies only if the stream threw instead of the loop breaking. |
| ChatPage.ChatPage.Cancel | src/pages/ChatPage.tsx:142-165 | Whether or not the backend call succeeds, the state moves as the cancel specification says. |
| ChatPage.StepsKeepConsistent | src/pages/ChatPage.tsx:81-84 | Starting, each event, cancel and the catch all keep `isStreaming` equal to the cancel flag, and while streaming the shown text equals the accumulator. |
| ChatPage.StartSendEffect | src/pages/ChatPage.tsx:68-84 | A send with no session or during streaming is a no-op. Otherwise the user's message is appended and streaming starts from "". |
| ChatPage.ContentAccumulatesInOrder | src/pages/ChatPage.tsx:90-101 | Without a terminal event, the accumulator grows by each `content` event's data in order, and the shown text follows it. Messages and error do not change, and the page stays streaming. |
| ChatPage.TerminalEndsStream | src/pages/ChatPage.tsx:91-95 | After `done`, `error` or `cancelled`, streaming is off, and later events change nothing. |
| ChatPage.AtMostOneTerminal | src/pages/ChatPage.tsx:90-133 | The result is decided by the events up to and including the first terminal event, whatever follows it. |
| ChatPage.MessagesOnlyGrow | src/pages/ChatPage.tsx:113 | The stream only appends. The list gains at most one message: the assistant's reply carrying the whole accumulator, added as streaming ends. |
| ChatPage.ReplyThenDone | src/pages/ChatPage.tsx:67-140 | Content events then `done` leave the messages as: previous messages, the user's message, then the assistant's message with the concatenated content. Streaming is off, the shown text cleared and the error unchanged. |
| ChatPage.ErrorEndsWithoutReply | src/pages/ChatPage.tsx:119-124 | An `error` event shows its non-empty message or the default text, stops streaming and adds no message. |
| ChatPage.CancelledAndUnknownEvents | src/pages/ChatPage.tsx:126-131 | A `cancelled` event appends " [cancelled]" and stops streaming. An event of any other type changes nothing. |
| ChatPage.CancelStopsStream | src/pages/ChatPage.tsx:142-165 | Cancel stops streaming and marks a non-empty shown text, keeping messages and error. Otherwise it is a no-op. Cancelling twice is cancelling once, and no event applies afterwards. |
| Avatar.GetAvatarUrl | src/components/characters/CharacterCard.tsx:12-28 | No address exactly when neither field is truthy. An address always starts with "http" and ends with the field it came from. Without a truthy `avatar_url`, an `avatar_image` starting with "http" is returned unchanged. |
| Avatar.AvatarUrlTakesPrecedence | src/components/userProfiles/UserProfileCard.tsx:15-31 | A truthy `avatar_url` decides the result without looking at `avatar_image`. An absolute one is returned unchanged. |
| Avatar.RelativeAvatarUrl | src/pages/ChatPage.tsx:168-172 | A relative `avatar_url` is the base followed directly by the path, with no "/" inserted. |
| Avatar.RelativeAvatarImage | src/pages/ChatPage.tsx:174-178 | A relative `avatar_image` gives the base, one "/" and the path. A leading "/" of the path is not doubled. |
| Avatar.NoAvatar | src/components/characters/CharacterCard.tsx:27 | Absent and empty fields alike give no address. |
| Cards.Truncate | src/components/userProfiles/UserProfileCard.tsx:53-55 | A text within the limit is shown whole. A longer one shows its first `limit` characters and "...", at most `limit + 3` characters. |
| Cards.ShownDescription | src/components/aiModels/AIModelCard.tsx:21-25 | An absent or empty description shows nothing. Any other is shown truncated. |
| Cards.TruncateIsPrefixPlusEllipsis | src/components/systemPrompts/SystemPromptCard.tsx:22-24 | The shown text is a prefix of the original, followed by "..." exactly when something was cut. |
| Cards.TruncateShortIsIdentity | src/components/userProfiles/UserProfileCard.tsx:53-55 | A text that fits is shown unchanged, and showing it again changes nothing. |
| Cards.CardBounds | src/components/systemPrompts/SystemPromptCard.tsx:22-24 | The three cards show at most 103, 153 and 203 characters. The system prompt's first 200 characters are always kept. |
| Cards.SystemPromptDeleteClick | src/components/systemPrompts/SystemPromptCard.tsx:12-15 | `onDelete` receives this card's own prompt id. |
| Cards.AIModelDeleteClick | src/components/aiModels/AIModelCard.tsx:12-15 | `onDelete` receives this card's own model id. |
| FormattingConfig.Merge | src/components/chat/FormattingConfigModal.tsx:44 | The shallow merge `{...rule, ...updates}`: each of the five fields takes the update's value when the update holds one, and keeps the rule's otherwise. An empty update leaves the rule as it is. |
| FormattingConfig.UpdateRule | src/components/chat/FormattingConfigModal.tsx:40-47 | Same length. Only the rule at the index changes, as the shallow merge with the update. Every other rule is kept. |
| FormattingConfig.UpdateOutOfRange | src/components/chat/FormattingConfigModal.tsx:43-45 | An index outside the list changes nothing. |
| FormattingConfig.AddRule | src/components/chat/FormattingConfigModal.tsx:49-61 | One rule is appended at the end: a vertical-bar delimiter, "New Rule", enabled, colour `#000000`. The existing rules are kept in place. |
| FormattingConfig.DeleteRule | src/components/chat/FormattingConfigModal.tsx:63-68 | The length drops by one exactly when the index is inside the list. |
| FormattingConfig.DeleteRuleRemovesOne | src/components/chat/FormattingConfigModal.tsx:63-68 | Exactly the rule at the index is removed, and the rest keep their order. An index outside the list removes nothing. |
| FormattingConfig.DeleteUndoesAdd | src/components/chat/FormattingConfigModal.tsx:49-68 | Deleting the rule just added gives back the original list. |
| FormattingConfig.EditorAllowsStallingRule | src/components/chat/FormattingConfigModal.tsx:125-129 | Clearing the delimiter of an enabled first rule is accepted, and the scan as written then stalls on it. |
| FormattingConfig.FormattingConfigModal.InitialSettings | src/components/chat/FormattingConfigModal.tsx:19-21 | The given settings when present, the defaults otherwise. |
| FormattingConfig.FormattingConfigModal.constructor | src/components/chat/FormattingConfigModal.tsx:19-21 | The modal opens on the initial settings, with no callback called. |
| FormattingConfig.FormattingConfigModal.Reopen | src/components/chat/FormattingConfigModal.tsx:23-29 | On a change of props, edits are discarded for the same initial choice. |
| FormattingConfig.FormattingConfigModal.HandleEnabledChange | src/components/chat/FormattingConfigModal.tsx:36-38 | Only `enabled` changes. The rules are untouched. |
| FormattingConfig.FormattingConfigModal.UpdateRuleAt | src/components/chat/FormattingConfigModal.tsx:40-47 | The settings' rules become the updated list. Nothing else changes. |
| FormattingConfig.FormattingConfigModal.AddRuleNow | src/components/chat/FormattingConfigModal.tsx:49-61 | The settings' rules gain the new rule. Nothing else changes. |
| FormattingConfig.FormattingConfigModal.DeleteRuleAt | src/components/chat/FormattingConfigModal.tsx:63-68 | The settings' rules lose the rule at the index. Nothing else changes. |
| FormattingConfig.FormattingConfigModal.HandleSave | src/components/chat/FormattingConfigModal.tsx:31-34 | `onSave` receives the edited settings, then `onClose` is called. |
| FormattingConfig.FormattingConfigModal.Cancel | src/components/chat/FormattingConfigModal.tsx:185 | Only `onClose` is called. The settings are not saved. |
| FirstMessageSelector.StepsStayInRangeAndInvert | src/components/chat/FirstMessageSelector.tsx:20-26 | For a non-empty list both steps keep the index in range, and each undoes the other. |
| FirstMessageSelector.NextTimesIsRotation | src/components/chat/FirstMessageSelector.tsx:24-26 | `k` presses of next move the index to `(i + k) mod n`. |
| FirstMessageSelector.FullCycle | src/components/chat/FirstMessageSelector.tsx:24-26 | After `n` presses of next the first message shown is shown again. |
| FirstMessageSelector.SelectionStaysValid | src/components/chat/FirstMessageSelector.tsx:20-26 | Any sequence of previous/next presses from a valid index stays valid. |
| FirstMessageSelector.RenderConditions | src/components/chat/FirstMessageSelector.tsx:14-16 | An empty list renders nothing. The counter and arrows (lines 38, 46, 63) appear only when there are at least two messages. |
| FirstMessageSelector.FirstMessageSelector.CurrentMessage | src/components/chat/FirstMessageSelector.tsx:18 | There is a current message exactly when the index is inside the list. |
| FirstMessageSelector.FirstMessageSelector.ShownText | src/components/chat/FirstMessageSelector.tsx:59 | The text shown is never empty: the content, or "No message content". |
| FirstMessageSelector.FirstMessageSelector.constructor | src/components/chat/FirstMessageSelector.tsx:12 | The index starts at 0, with nothing selected. |
| FirstMessageSelector.FirstMessageSelector.SetProps | src/components/chat/FirstMessageSelector.tsx:11-12 | New props keep the selected index as it was. |
| FirstMessageSelector.FirstMessageSelector.GoToPrevious | src/components/chat/FirstMessageSelector.tsx:20-22 | 0 wraps to the last index. Any other index moves down by one. |
| FirstMessageSelector.FirstMessageSelector.GoToNext | src/components/chat/FirstMessageSelector.tsx:24-26 | The last index wraps to 0. Any other index moves up by one. |
| FirstMessageSelector.FirstMessageSelector.HandleValidate | src/components/chat/FirstMessageSelector.tsx:28-32 | `onSelect` gets the current content exactly when a message is current and nothing is loading. |
| ChatInput.ChatInput.constructor | src/components/chat/ChatInput.tsx:12 | The box starts empty with nothing sent. The `disabled` and `isStreaming` props are the ones given. |
| ChatInput.ChatInput.SendEnabledIffSubmitSends | src/components/chat/ChatInput.tsx:70-76 | The Send button is enabled exactly when a submit would send. |
| ChatInput.ChatInput.HandleTextareaChange | src/components/chat/ChatInput.tsx:36-43 | The box holds the typed text. Nothing is sent. |
| ChatInput.ChatInput.HandleSubmit | src/components/chat/ChatInput.tsx:15-27 | With non-blank text and input enabled, the trimmed text is sent and the box emptied. Otherwise nothing changes. A sent text is non-empty, with no whitespace at either end. |
| ChatInput.ChatInput.HandleKeyDown | src/components/chat/ChatInput.tsx:29-34 | Enter without Shift is prevented and submits. Any other key neither submits nor is prevented. |
| FileUpload.SizeInMB | src/components/common/FileUpload.tsx:22 | The limit in megabytes, rounded to the nearest whole number with halves rounded up. |
| FileUpload.AcceptedTypes | src/components/common/FileUpload.tsx:25 | One entry per comma-separated piece of `accept`, each being that piece trimmed. There is at least one entry, and no entry contains a comma. |
| FileUpload.AcceptListTrimmed | src/components/common/FileUpload.tsx:25 | Every entry is trimmed: non-empty entries have no whitespace at either end. |
| FileUpload.ValidateFile | src/components/common/FileUpload.tsx:20-39 | No error exactly when the size is within the limit (equal passes) and some entry accepts the type. Size is checked first and reported with the size message. Otherwise the type message names the accept list. |
| FileUpload.ExtensionEntryAccepts | src/components/common/FileUpload.tsx:27-30 | An extension entry matches file names that end with it in any mixture of case, whatever the MIME test says. |
| FileUpload.SizeMessageExamples | src/components/common/FileUpload.tsx:21-23 | For 5 MiB the message reads "less than 5MB". 1.5 MiB rounds to 2, and just under half a MiB to 0. |
| FileUpload.FileUpload.constructor | src/components/common/FileUpload.tsx:14-17 | Nothing highlighted, selected, previewed or in error. |
| FileUpload.FileUpload.HandleFile | src/components/common/FileUpload.tsx:41-59 | A refused file only sets the error and keeps the previous selection. An accepted one clears the error, is selected and is passed to `onFileSelect`. |
| FileUpload.FileUpload.HandleDrag | src/components/common/FileUpload.tsx:61-70 | Enter and over highlight the area, leave clears it, and other events keep it. Nothing else changes. |
| FileUpload.FileUpload.HandleDrop | src/components/common/FileUpload.tsx:72-83 | The highlight is cleared. Unless disabled, the first dropped file, if any, is handled as above. |
| FileUpload.FileUpload.HandleFileInputChange | src/components/common/FileUpload.tsx:85-90 | The first chosen file, if any, is handled as above. |
| FileUpload.FileUpload.ClearFile | src/components/common/FileUpload.tsx:98-106 | No selection, no preview and no error, and `onFileSelect(null)` is called. |
| Strings.OrElse | src/pages/ChatPage.tsx:99 | JavaScript's `or` on an optional string: a truthy string is kept, and an absent or empty one gives the fallback. |
| Strings.Trim | src/components/chat/ChatInput.tsx:18 | The result is empty exactly for blank text. Otherwise it neither starts nor ends with whitespace, and it is the text between a leading and a trailing whitespace run. |
| Strings.ToLower | src/components/common/FileUpload.tsx:29 | Same length. Each upper-case ASCII letter is lowered, and every other character is kept. |
| Strings.Split | src/components/common/FileUpload.tsx:25 | There is always at least one part, and no part contains the separator. |
| Strings.SplitJoin | src/components/common/FileUpload.tsx:25 | Joining the parts with the separator gives back the string. |
| Strings.NatToDecimal | src/components/common/FileUpload.tsx:22 | A non-empty string of digits that denotes the number, read left to right, without a leading zero unless the number is 0. |
| Forms.Blank | src/components/characters/CreateCharacterModal.tsx:24 | A field counts as missing exactly when it is all whitespace. |
| Forms.Optional | src/components/characters/CreateCharacterModal.tsx:35-36 | A blank optional field is left out. Any other is sent trimmed, non-empty, with no whitespace at either end. |
| Forms.OptionalIdempotent | src/components/characters/CreateCharacterModal.tsx:35-36 | Normalising a normalised value changes nothing. |
| Forms.FailureMessage | src/components/userProfiles/CreateUserProfileModal.tsx:54 | A non-empty server message is shown when present, otherwise the form's own text. The result is never empty. |
| CreateCharacterModal.SetField | src/components/characters/CreateCharacterModal.tsx:49-52 | The named field takes the value, and every other field keeps its own. |
| CreateCharacterModal.Validate | src/components/characters/CreateCharacterModal.tsx:24-27 | Accepted exactly when neither label nor name is blank. Otherwise "Label and Name are required". |
| CreateCharacterModal.SubmitData | src/components/characters/CreateCharacterModal.tsx:33-37 | Label and name are sent untrimmed. Description and avatar image are trimmed, and left out exactly when blank. |
| CreateCharacterModal.SubmitDataStable | src/components/characters/CreateCharacterModal.tsx:33-37 | Filling the form with what was sent and submitting again sends the same request. |
| CreateCharacterModal.CreateCharacterModal.constructor | src/components/characters/CreateCharacterModal.tsx:12-19 | All fields start empty, with no error, not loading, and no call made. |
| CreateCharacterModal.CreateCharacterModal.HandleChange | src/components/characters/CreateCharacterModal.tsx:49-52 | Only the named field changes. |
| CreateCharacterModal.CreateCharacterModal.HandleSubmit | src/components/characters/CreateCharacterModal.tsx:21-47 | An invalid form only sets the error and makes no call. Otherwise the normalised request is sent. `onCharacterCreated` is called only on success. A failure shows "Failed to create character". `loading` ends false. |
| CreateUserProfileModal.SetField | src/components/userProfiles/CreateUserProfileModal.tsx:27-30 | The named field takes the value, and every other field keeps its own. |
| CreateUserProfileModal.Validate | src/components/userProfiles/CreateUserProfileModal.tsx:40-43 | Accepted exactly when neither label nor name is blank. Otherwise "Label and Name are required fields". |
| CreateUserProfileModal.DescriptionOptional | src/components/userProfiles/CreateUserProfileModal.tsx:40-43 | The description does not affect validity. |
| CreateUserProfileModal.CreateUserProfileModal.constructor | src/components/userProfiles/CreateUserProfileModal.tsx:18-25 | All fields start empty, with no error, not submitting, and no call made. |
| CreateUserProfileModal.CreateUserProfileModal.HandleChange | src/components/userProfiles/CreateUserProfileModal.tsx:27-30 | Only the named field changes. |
| CreateUserProfileModal.CreateUserProfileModal.HandleSubmit | src/components/userProfiles/CreateUserProfileModal.tsx:36-58 | An invalid form only sets the error and makes no call. Otherwise the form is sent unchanged. Success calls `onUserProfileCreated`. A failure shows the server's message or the default text. `isSubmitting` ends false. |
| CreateSystemPromptModal.SetField | src/components/systemPrompts/CreateSystemPromptModal.tsx:24-27 | The named field takes the value, and the other keeps its own. |
| CreateSystemPromptModal.Validate | src/components/systemPrompts/CreateSystemPromptModal.tsx:33-36 | Accepted exactly when neither label nor content is blank. Otherwise "Label and Content are required fields". |
| CreateSystemPromptModal.CreateSystemPromptModal.constructor | src/components/systemPrompts/CreateSystemPromptModal.tsx:17-22 | Both fields start empty, with no error, not submitting, and no call made. |
| CreateSystemPromptModal.CreateSystemPromptModal.HandleChange | src/components/systemPrompts/CreateSystemPromptModal.tsx:24-27 | Only the named field changes. |
| CreateSystemPromptModal.CreateSystemPromptModal.HandleSubmit | src/components/systemPrompts/CreateSystemPromptModal.tsx:29-51 | An invalid form only sets the error and makes no call. Otherwise the form is sent unchanged. Success calls `onSystemPromptCreated`. A failure prefers the server's message. `isSubmitting` ends false. |
| CreateAIModelModal.SetField | src/components/aiModels/CreateAIModelModal.tsx:24-27 | The named field takes the value, and the other keeps its own. |
| CreateAIModelModal.Validate | src/components/aiModels/CreateAIModelModal.tsx:33-36 | Accepted exactly when the label is not blank. Otherwise "Label is a required field". |
| CreateAIModelModal.DescriptionNeverRequired | src/components/aiModels/CreateAIModelModal.tsx:33-42 | Any description, the empty one included, leaves validity unchanged. |
| CreateAIModelModal.CreateAIModelModal.constructor | src/components/aiModels/CreateAIModelModal.tsx:17-22 | Both fields start empty, with no error, not submitting, and no call made. |
| CreateAIModelModal.CreateAIModelModal.HandleChange | src/components/aiModels/CreateAIModelModal.tsx:24-27 | Only the named field changes. |
| CreateAIModelModal.CreateAIModelModal.HandleSubmit | src/components/aiModels/CreateAIModelModal.tsx:29-51 | A blank label only sets the error and makes no call. Otherwise the form is sent unchanged. Success calls `onAIModelCreated`. A failure prefers the server's message. `isSubmitting` ends false. |

## Left out

- Server-sent-event decoding. The stream `chatApi.sendMessage` (src/pages/ChatPage.tsx:88) is not defined in src/services/api.ts, so the event sequence is an input. A stream that ends without a terminal event leaves the page streaming, as in the source.
- Asynchronous interleaving. Cancel racing the `for await` loop is a discrete step between events. The backend cancel's outcome and each create call's outcome are parameters.
- Clock readings. `Date.now()` and `toISOString()` (ChatPage.tsx:74, 78, 106, 110; FormattingConfigModal.tsx:51) are parameters.
- Date handling. The timestamp sorts, `formatChatDate` and `formatTime` depend on time zones and date parsing.
- `loadChatData` and every other page that only fetches or saves are left out, and so is SessionConfigModal.
- `ChatPage.ChatPage`: `parseInt` of the session id is not modelled. The id is taken as an already-parsed optional integer.
- `FileUpload.EntryMatches`: the MIME branch `fileType.match(type.replace('*', '.*'))` is an unanchored regular expression. It is the uninterpreted parameter `mimeMatch`, about which nothing is proved.
- `FileUpload.SizeInMB`: sizes are whole numbers of bytes. For those, dividing by 1024 twice is exact and `Math.round` rounds halves up, so no floating point is modelled.
- `FileUpload.FileUpload.HandleFile`: the `FileReader` preview (lines 52-58) is asynchronous browser I/O, so `previewUrl` is never set by the model. The file input's reset in `clearFile` and `openFileDialog` are DOM operations.
- Rendering. JSX, buttons disabled while loading or submitting, the textarea auto-resize and the message list are not modelled. A handler is modelled as it behaves when called. Apart from `handleValidate` in FirstMessageSelector, which checks `isLoading` itself (FirstMessageSelector.tsx:29) and is modelled with that check, no handler checks those flags.
- `CreateUserProfileModal.CreateUserProfileModal.HandleSubmit`: the avatar file is never sent. The modal passes `onFileSelected` to a component that calls `onFileSelect` (CreateUserProfileModal.tsx:110), so it is never set.
- The `getAvatarUrl` copies in CharacterEditPage and CharacterDetailPage are the same function as `Avatar.GetAvatarUrl`.
- The `FirstMessage` type and the `avatar_url` field are used by the components but not declared in src/types/index.ts. Their shapes come from their uses.
- Strings. `trim` and `toLowerCase` are ASCII only, without Unicode whitespace or case mapping. Lengths count characters, not UTF-16 code units.
- `console` logging is not modelled.

## Findings

| source | as written | input that shows it | evidently intended | confidence | as-written member | corrected member |
|---|---|---|---|---|---|---|
| src/utils/textFormatter.ts:79-111 | An enabled rule with an empty delimiter is "found" at the current index, because `indexOf("", i)` is `i`. Its match ends at the current index too. When it wins, `currentIndex` never advances and the `while` loop never ends. The rule editor accepts an empty delimiter (src/components/chat/FormattingConfigModal.tsx:127-129). | The default settings with the first rule's delimiter cleared in the editor, and the text "hello". | Empty delimiters are never matched, so every step advances. The corrected scan returns the source's result whenever the source's scan finishes. | not executed | TextFormatter.EmptyDelimiterStalls | TextFormatter.Candidate |
