# Shuaib tutor: session store and turn orchestrator

This project is a Dafny model of the core of the Shuaib tutoring chat page. It proves properties of that model.

- **Data model.** A session holds an id, a title, a subject, an ordered list of messages and a last-modified instant. A message holds an id, a role, its text, an optional image or audio attachment and a timestamp.
- **The page state** (`ChatApp.App`) holds:
  - the session collection, newest first;
  - the id of the current session, which may be absent;
  - the pending input text and the pending attachment;
  - the loading flag that keeps turns from overlapping;
  - the handle of the remote chat;
  - the local-store slot.

  The class invariant `Valid()` says the local store always holds what the save effect writes for the current collection.
- **A send** (`HandleSend`) runs in two parts:
  1. Choose the text: the custom text if it is non-empty, else the input box, with whitespace trimmed the ECMAScript way.
  2. Refuse when the text is empty and no attachment is pending, or when a turn is already loading.
  3. Add the user message to the current session, or create a titled session in front and make it current.
  4. Clear the input and the attachment, and raise the loading flag.
  5. Append an empty model placeholder.
  6. Stream the reply. Each fragment replaces the placeholder's content with all the text accumulated so far.
  7. On failure, overwrite the placeholder with the fixed apology text.
  8. Clear the loading flag.
- **Deleting a session, starting a new chat and selecting a session** are the other handlers. Each is a method whose contract gives the whole new state.
- **The remote chat client** (`GeminiService`):
  - it maps stored messages to the remote turn format: one text part, then an inline-data part exactly when there is an attachment;
  - it builds the parts of a new turn, sending a default probe text in place of an empty message;
  - it drains the remote stream into one text fragment per chunk.
- **Persistence** (`Persistence`) stores the collection as a JSON value when it is non-empty and removes the key when it is empty. Loading hydrates the value back and gives no sessions when the value is missing, unparseable or malformed. `LoadSave` proves that loading what was saved gives back exactly the saved collection.

Things the environment supplies are parameters:

- the six clock readings one send takes (`SendClock`): three `Date.now()` calls for the ids and three `new Date()` calls for the timestamps;
- the user's answer to the delete confirmation (a `bool`);
- what the local store held at mount (`Stored`);
- what the remote model answers (`Reply`): the chunks in arrival order and whether the stream then fails.

Each `setSessions(prev => …)` callback is a pure function over sequences in `SessionStore`:

- prepend (`NewSession`);
- the per-id map (`UpdateWhere` with an `Edit`);
- the filter (`Without`).

The whole effect of a reply stream has the closed form `Streamed`. The fragment loop in `ChatApp.App.FoldFragments`, which `ChatApp.App.Stream` calls, is proved to reach it.

A transport error inside `sendMessageStream` is not turned into a fallback fragment. It propagates to `handleSend`, which overwrites the whole placeholder with the apology text.

## Model

| member | source | states |
|---|---|---|
| Types.SubjectOfTag | Shuaib/types.ts:2 | a tag names a subject exactly when it is one of the seven subject tags, and then it names exactly that subject |
| Types.SubjectTag | Shuaib/types.ts:2 | the seven subject tags, one per subject; `SubjectOfTag` reads each back as its subject |
| Types.KindOfTag | Shuaib/types.ts:5 | an attachment's kind is exactly "image" or "audio", and reading a tag gives back the kind that writes it |
| Types.KindTag | Shuaib/types.ts:5 | "image" and "audio"; `KindOfTag` reads each back as its kind |
| Types.RoleOfTag | Shuaib/types.ts:13 | a message's role is exactly "user" or "model", and reading a tag gives back the role that writes it |
| Types.RoleTag | Shuaib/types.ts:13 | "user" and "model"; `RoleOfTag` reads each back as its role |
| JsText.LeadingSpaces | Shuaib/App.tsx:187 | the count of leading whitespace: everything before it is whitespace, and the character at it is not |
| JsText.TrailingSpaces | Shuaib/App.tsx:187 | the count of trailing whitespace: everything after it is whitespace, and the character before it is not |
| JsText.TrailingStep | Shuaib/App.tsx:187 | a whitespace run at the end grows by one when the last character of the longer text is whitespace |
| JsText.Trim | Shuaib/App.tsx:187 | `trim()`: cut the leading and then the trailing run of ECMAScript whitespace; `TrimShape`, `TrimOfTrimmed` and `TrimIdempotent` state what it gives |
| JsText.TrimShape | Shuaib/App.tsx:187 | `trim()` gives a text with no whitespace at either end; the input is that text with only whitespace before and after it; the result is empty exactly when the input is all whitespace |
| JsText.TrimPieces | Shuaib/App.tsx:187 | cutting the leading and then the trailing whitespace run yields a trimmed middle piece that rebuilds the input |
| JsText.TrimOfTrimmed | Shuaib/App.tsx:187 | trimming a text without surrounding whitespace leaves it unchanged |
| JsText.TrimIdempotent | Shuaib/App.tsx:187 | trimming twice is trimming once |
| JsText.Substring0 | Shuaib/App.tsx:204 | `substring(0, n)` is a prefix of the text whose length is the smaller of n and the text's length |
| JsText.DigitChar | Shuaib/App.tsx:193 | a digit below ten is written as the decimal character of that value |
| JsText.NatToString | Shuaib/App.tsx:193 | `Date.now().toString()` is a non-empty run of decimal digits |
| JsText.ParseNat | Shuaib/App.tsx:37-40 | a text reads back as a number exactly when it is a non-empty run of decimal digits |
| JsText.ParseNatToString | Shuaib/App.tsx:37-40 | reading back the decimal text of an instant gives that instant |
| JsText.NatToStringInjective | Shuaib/App.tsx:223 | different clock readings give different ids, so the placeholder id never equals the user message id of the same send when the placeholder's id reading is not earlier than the user message's |
| JsText.IndexOf | Shuaib/App.tsx:72 | the position of the first occurrence of a character, or none exactly when it does not occur |
| JsText.DataUrlPayload | Shuaib/App.tsx:72 | `split(',')[1]` exists exactly when the data URL has a comma, and it contains no comma |
| JsText.DataUrlPayloadOf | Shuaib/App.tsx:133 | for a `header,payload` data URL with no other comma, the extracted payload is the payload |
| GeminiService.MapHistory | Shuaib/services/geminiService.ts:12-26 | the mapped history has the same length and order as the messages; each entry keeps its role; the first part is the message text; there are two parts exactly when there is an attachment, the second carrying its data and MIME type |
| GeminiService.HistoryEntry | Shuaib/services/geminiService.ts:12-25 | one message as a remote turn; `MapHistory` states its role and part shape and `HistoryIgnoresUrl` that the URL is dropped |
| GeminiService.InlinePart | Shuaib/services/geminiService.ts:15-20 | the inline-data part of an attachment: its data and MIME type only; `MapHistory` and `IsOutgoing` use it |
| GeminiService.MapHistoryAppend | Shuaib/services/geminiService.ts:12 | the mapping treats each message on its own: mapping a concatenation concatenates the mappings |
| GeminiService.HistoryIgnoresUrl | Shuaib/services/geminiService.ts:14-21 | an attachment's display URL never reaches the history |
| GeminiService.CreateChatSession | Shuaib/services/geminiService.ts:8-38 | a new chat handle is seeded with one history entry per message, in order |
| GeminiService.IsOutgoing | Shuaib/services/geminiService.ts:41-50 | the parts of a new turn: the text, or the default probe for an empty text, then the attachment's inline part exactly when one is given; `SendMessageStream` ensures it, and `OutgoingTextNotEmpty` and `OutgoingUnique` are about it |
| GeminiService.OutgoingTextNotEmpty | Shuaib/services/geminiService.ts:41 | with the default probe in place of an empty message, no outgoing text part is empty |
| GeminiService.OutgoingUnique | Shuaib/services/geminiService.ts:41-50 | the outgoing parts are determined by the message and the attachment |
| GeminiService.Yielded | Shuaib/services/geminiService.ts:53-55 | one fragment per chunk, holding that chunk's text, in arrival order |
| GeminiService.YieldedExactly | Shuaib/services/geminiService.ts:53-55 | any fragment sequence that matches the chunks one by one is the drained stream |
| GeminiService.SendMessageStream | Shuaib/services/geminiService.ts:40-56 | the turn's parts are the message text (or the probe) and then the attachment's inline part exactly when one is given; the fragments are the chunk texts, one per chunk in order; it fails exactly when the remote stream does |
| SessionStore.Title | Shuaib/App.tsx:204 | a new session's title is never empty: the default title for an empty text, otherwise a prefix of the text of length min(35, length) |
| SessionStore.NewSession | Shuaib/App.tsx:202-209 | the lazily created session: `Title` of the text, subject General, the one user message, the session's clock; `NewSessionTurn` states its place in the collection |
| SessionStore.SetContentWhere | Shuaib/App.tsx:240-245 | every message with the reply id gets the new content and every other message is unchanged, with order and length kept |
| SessionStore.Apply | Shuaib/App.tsx:213-245 | the three edits a send makes to a target session: append the user message and refresh the last-modified time, append the placeholder, or overwrite the reply's content; `UpdateWhere`, `ExistingSessionTurn` and `StreamedFrame` state their effect |
| SessionStore.UpdateWhere | Shuaib/App.tsx:212-254 | every session with the target id gets the edit and every other session is unchanged, with order and length kept; it models each `prev.map(s => s.id === targetId ? … : s)` of a send (the user message, the placeholder, each fragment and the failure) |
| SessionStore.Without | Shuaib/App.tsx:266 | the filtered collection holds exactly the sessions whose id differs, and it is shorter by the number of sessions with that id |
| SessionStore.WithoutAppend | Shuaib/App.tsx:266 | filtering keeps the relative order of the remaining sessions |
| SessionStore.WithoutMissing | Shuaib/App.tsx:266 | deleting an id that no session has leaves the collection unchanged |
| SessionStore.Find | Shuaib/App.tsx:288 | `find` gives nothing exactly when no session has the id, and otherwise the first session that does |
| SessionStore.MessagesFor | Shuaib/App.tsx:288-289 | no messages when no session has the id; otherwise the messages of the first session in the collection with that id |
| SessionStore.Concat | Shuaib/App.tsx:237-239 | `responseText += chunk` over the fragments; `ConcatAppend` and `ConcatPrefix` state its properties |
| SessionStore.ReplyText | Shuaib/App.tsx:237-254 | the content the reply ends with: the joined fragments, or the failure text alone; `StreamedReply` and `StreamedFailure` use it |
| SessionStore.FailureTextExact | Shuaib/App.tsx:252 | the failure text is the page's 56-code-point string, with the precomposed U+09DF in both places |
| SessionStore.Streamed | Shuaib/App.tsx:235-254 | the closed form of a whole reply stream folded into the placeholder; `StreamedStep`, `StreamedFailure`, `StreamedFrame` and `StreamedReply` state its properties and `ChatApp.App.Stream` ensures it |
| SessionStore.ConcatAppend | Shuaib/App.tsx:238-239 | accumulating the fragments of two stretches of a stream is concatenating the two accumulations |
| SessionStore.ConcatPrefix | Shuaib/App.tsx:237-246 | each intermediate reply text is a prefix of every later one |
| SessionStore.SetContentOverwrites | Shuaib/App.tsx:240-254 | a later overwrite of the reply content erases the earlier one entirely |
| SessionStore.StreamedStep | Shuaib/App.tsx:237-246 | one more fragment, written as the accumulated text, moves the collection to the closed form of the longer stream |
| SessionStore.StreamedFailure | Shuaib/App.tsx:247-254 | a failure after any number of fragments leaves exactly the failure text, with no partial text kept |
| SessionStore.StreamedFrame | Shuaib/App.tsx:240-254 | streaming changes only the content of the reply message in the target session; every other session, every other message and every other field stay as they were |
| SessionStore.StreamedReply | Shuaib/App.tsx:235-254 | the reply message ends with the whole stream's concatenation, or with the failure text when the stream fails |
| Persistence.MessagesJson | Shuaib/App.tsx:54 | the serialized list holds one `MessageJson` per message, in order |
| Persistence.SessionsJson | Shuaib/App.tsx:54 | the serialized list holds one `SessionJson` per session, in order |
| Persistence.DateJson | Shuaib/App.tsx:54 | a date as stored: its decimal milliseconds; `DateRoundTrip` reads it back |
| Persistence.AttachmentJson | Shuaib/App.tsx:54 | an attachment as a JSON object of its four fields; `AttachmentRoundTrip` reads it back |
| Persistence.MessageJson | Shuaib/App.tsx:54 | a message as a JSON object, with no attachment key when it has none; `MessageRoundTrip` reads it back |
| Persistence.SessionJson | Shuaib/App.tsx:54 | a session as a JSON object with its messages as an array; `SessionRoundTrip` reads it back |
| Persistence.Serialize | Shuaib/App.tsx:54 | `JSON.stringify(sessions)` as a JSON array of sessions; `LoadSave` reads it back |
| Persistence.MessagesOf | Shuaib/App.tsx:38-41 | reading a message list fails exactly when some item is malformed; otherwise item i reads as message i, in order |
| Persistence.SessionsOf | Shuaib/App.tsx:35-42 | reading a session list fails exactly when some item is malformed (the `map` throws); otherwise item i reads as session i, in order |
| Persistence.DateField | Shuaib/App.tsx:37-40 | `new Date(text)` on a stored date; `DateRoundTrip` states that it rebuilds the written instant |
| Persistence.AttachmentOf | Shuaib/App.tsx:39 | reading an attachment object back, failing on a missing field or unknown kind; `AttachmentRoundTrip` states the round trip |
| Persistence.MessageOf | Shuaib/App.tsx:38-41 | reading one message back with its timestamp rebuilt, a missing or null attachment giving none; `MessageRoundTrip` states the round trip |
| Persistence.SessionOf | Shuaib/App.tsx:35-42 | reading one session back with its last-modified time and messages rebuilt; `SessionRoundTrip` states the round trip |
| Persistence.Hydrate | Shuaib/App.tsx:34-43 | the whole hydration, failing when the parsed value is not an array or any session in it is malformed; `Load` and `LoadSave` state its use |
| Persistence.Save | Shuaib/App.tsx:52-58 | the key is removed exactly when the collection is empty, and otherwise holds the serialized collection |
| Persistence.Load | Shuaib/App.tsx:30-49 | a missing key, text that is not JSON, or a malformed value gives no sessions; otherwise the hydrated collection |
| Persistence.DateRoundTrip | Shuaib/App.tsx:37-40 | a stored date is rebuilt as the instant that was written |
| Persistence.AttachmentRoundTrip | Shuaib/App.tsx:39 | an attachment survives saving and loading unchanged |
| Persistence.MessageRoundTrip | Shuaib/App.tsx:38-41 | a message survives saving and loading unchanged, with or without an attachment |
| Persistence.MessagesRoundTrip | Shuaib/App.tsx:38-41 | a message list survives saving and loading unchanged and in order |
| Persistence.SessionRoundTrip | Shuaib/App.tsx:35-42 | a session survives saving and loading unchanged |
| Persistence.SessionsRoundTrip | Shuaib/App.tsx:34-43 | a session list survives saving and loading unchanged and in order |
| Persistence.LoadSave | Shuaib/App.tsx:30-58 | loading what the save effect stored gives back exactly the saved collection, including the empty one |
| ChatApp.TextToSendBlank | Shuaib/App.tsx:187 | the text to send has no surrounding whitespace; it is empty exactly when the chosen text (the custom text when non-empty, else the input) is all whitespace |
| ChatApp.TextToSend | Shuaib/App.tsx:187 | `(customInput \|\| input).trim()`; `TextToSendBlank` states when it is empty |
| ChatApp.Refuses | Shuaib/App.tsx:188 | the guard: no text and no attachment, or a send in flight; `BeginSend` and `HandleSend` change nothing when it holds |
| ChatApp.HasTarget | Shuaib/App.tsx:200 | `!targetId` is false only for a present, non-empty current id; `NewSessionTurn` and `ExistingSessionTurn` cover its two sides |
| ChatApp.TargetOf | Shuaib/App.tsx:190-201 | the session a send goes to: the current id, or the new session's id from its clock reading |
| ChatApp.UserMessage | Shuaib/App.tsx:192-198 | the user message: id and timestamp from their own clock readings, role user, the trimmed text, the pending attachment |
| ChatApp.Placeholder | Shuaib/App.tsx:223-229 | the empty model message: id one past its clock reading, timestamp from another, no attachment |
| ChatApp.WithUser | Shuaib/App.tsx:200-216 | the collection after the user message is added; `ChatApp.App.AddUserMessage` ensures it |
| ChatApp.WithTurn | Shuaib/App.tsx:200-233 | the collection after the user message and the placeholder are added; `NewSessionTurn` and `ExistingSessionTurn` state it |
| ChatApp.NewSessionTurn | Shuaib/App.tsx:200-211 | with no current session, a new session goes in front with the trimmed text's title, subject General and messages [user message, placeholder]; every other session follows unchanged and in order |
| ChatApp.ExistingSessionTurn | Shuaib/App.tsx:212-233 | with a current session, each session with that id gets the user message and the placeholder appended and its last-modified time refreshed; every other session is unchanged |
| ChatApp.NewSessionReply | Shuaib/App.tsx:200-254 | after a whole send that created the session, its messages are exactly the user message and the reply holding the stream's text or the failure text |
| ChatApp.ExistingSessionReply | Shuaib/App.tsx:212-254 | after a whole send to a current session, that session is its old messages, the user message and the reply holding the stream's text or the failure text, and nothing else in it changed |
| ChatApp.App.Mount | Shuaib/App.tsx:30-58 | mounting loads the stored collection and stores it back, with no current session, nothing pending, not loading and an empty chat handle |
| ChatApp.App.SetInput | Shuaib/App.tsx:524 | typing changes only the pending input |
| ChatApp.App.SetAttachment | Shuaib/App.tsx:488 | capturing or removing an attachment changes only the pending attachment |
| ChatApp.App.AddUserMessage | Shuaib/App.tsx:190-216 | the user message carries the pending attachment and goes to the current session, or to a new session in front that becomes current, with a chat handle seeded with it |
| ChatApp.App.BeginSend | Shuaib/App.tsx:186-233 | a refused send changes nothing; otherwise the user message and the placeholder are in the target session, the input and attachment are cleared and the loading flag is raised, and the turn carries the attachment that was pending |
| ChatApp.App.FoldFragments | Shuaib/App.tsx:237-246 | the fragment loop: the accumulated text is the concatenation so far, and the collection reaches the closed form of the stream without failure, the store mirroring every step; nothing else changes |
| ChatApp.App.ShowFailure | Shuaib/App.tsx:247-254 | on a failure every reply message of the target session gets the failure text; nothing else changes |
| ChatApp.App.Stream | Shuaib/App.tsx:235-257 | the fragment loop reaches the closed form of the stream (the reply holds the accumulated text, or the failure text after a failure), the store mirrors every step, and the loading flag is cleared on success and on failure |
| ChatApp.App.HandleSend | Shuaib/App.tsx:186-258 | a refused send changes nothing; otherwise the collection is the turn's sessions with the streamed reply folded in, the outgoing parts are the text and attachment, the input and attachment are cleared and the loading flag is clear |
| ChatApp.App.DeleteSession | Shuaib/App.tsx:260-275 | a confirmed delete removes exactly the sessions with the id and clears the current session, with a fresh chat handle, only when it was that id; an unconfirmed one changes nothing |
| ChatApp.App.HandleNewChat | Shuaib/App.tsx:277-284 | no current session, a fresh chat handle, no pending attachment or input, and the collection is untouched |
| ChatApp.App.SelectSession | Shuaib/App.tsx:286-291 | the id becomes current and the chat handle is seeded with that session's messages, or with none when there is no such session |

## Left out

- The page's rendering, styling, scrolling, the menu and history panels and the `window.innerWidth` checks are UI. The about dialog, the subject selector and the Markdown renderer are UI too.
- Camera, microphone and file capture (`getUserMedia`, `MediaRecorder`, `FileReader`, the canvas, object URLs) are device I/O. Only their end result is modelled: an attachment set by `SetAttachment`, and the `split(',')[1]` payload extraction as `JsText.DataUrlPayload`.
- Remote chat SDK:
  - The handle is modelled only as the history it was seeded with.
  - The model name, sampling settings, system prompt and API key are left out.
  - The history the SDK appends to internally after each turn is left out. For a new session, the first user message is in the seeded history and is also sent again as the new turn; the model records this and does not change it.
- `JSON.stringify`/`JSON.parse` between text and value are foreign. A stored slot is either the parsed JSON value or "not JSON".
- Dates are stored as the decimal text of their milliseconds rather than as ISO 8601 text.
- Persistence.Load: hydration is strict, in `Persistence.Hydrate`, `Persistence.SessionOf`, `Persistence.MessageOf`, `Persistence.AttachmentOf` and `Persistence.DateField`. A stored value missing a field, or holding a wrongly typed field, gives no sessions. Keys other than the model's fields are dropped on load, where the spreads `...s` and `...m` keep them and the next save writes them back. The JavaScript spread would keep such a value with `undefined` fields or an Invalid Date, and an unknown role, kind or subject tag would pass through as a string. Only values the save effect can write are proved to round-trip.
- The mount order of the two persistence effects is not modelled step by step. The constructor ends with the store matching the loaded collection. That includes removing a stored value that failed to load.
- Ids and timestamps come from `SendClock`, one field per clock call of `handleSend`: the user message id (line 193) and timestamp (197), the new session id (201), the session's last-modified time (207 or 214), and the placeholder id, one past its reading (223), and timestamp (228). Nothing relates the readings to one another or to the real clock. `NewSessionReply` and `ExistingSessionReply` require the placeholder's id reading not to precede the user message's id reading. `ExistingSessionReply` also requires that no older message in the session has the placeholder id. The source relies on both without checking them.
- GeminiService.Yielded: a chunk whose `text` is `undefined` is not modelled. Every chunk has a text, and "undefined" is never concatenated.
- JsText.Substring0: counts Unicode scalar values, where JavaScript counts UTF-16 code units. A title cut differs for text outside the Basic Multilingual Plane.
- The stream is modelled as a whole: the remote reply is drained into its fragments, then folded into the placeholder. Other handlers that could run during the awaits are not interleaved, and a failure is taken to come after the last delivered chunk.
- React's batching is not modelled. State updates are applied one after another, and the store is brought up to date after each change of the collection.
- `isRecording`, `isCameraActive` and `showAbout` are UI flags. They are not part of the modelled state.
