# Deepthinks chatbot: stream decoders and stores

A Dafny model of the client-side core of the Deepthinks chatbot, a Svelte
application that streams answers from a language model. The model covers two
groups of code.

The incremental decoders:

- `StreamProcessor` (src/lib/stream-processor.ts) reads the JSON answer of
  the coding mode chunk by chunk. It emits text, file and conclusion chunks
  and tool calls.
- `StreamingJsonParser` (src/lib/streamingJsonParser.ts) searches the whole
  buffered answer again after every chunk.
- `SimpleCodeParser` and `MarkdownStreamParser` split a streamed Markdown
  answer into text, inline-code and fenced-code pieces.
- `parseUserMessage` splits a user's message at its fenced code blocks.
- `truncateText` (src/lib/utils.ts) shortens a title.

The Svelte stores:

- the chat message list (`chat.ts`)
- the session list (`session.ts`)
- the upload list (`file.ts`)
- the code artifact panel (`artifact.ts`)
- the email tool runs, with their event buffer (`emailTool.ts`)

Each mutable class of the source becomes a Dafny `class` with the same
fields. Each of its methods is proved equal to a pure function on a
snapshot datatype: `Run`, `FeedAll`, `ScanFrom`, `Parsed`, `Dispatch`, or
the store reducers. The properties are lemmas about those functions.

- The regular expressions of the source are matched by hand-written
  functions. Each such function is specified as the leftmost match the
  JavaScript engine finds.
- The JavaScript string built-ins the code relies on are spelled out in
  module `JsStrings`:
  - `trim` and `\s`, with the full 25-character white-space set;
  - `\w`;
  - the line terminators that `.` does not match;
  - `startsWith`, `endsWith`, `includes`;
  - `String(n)` for integers.

Several behaviours of the source are modelled as written, even where they
look unintended:

- The stream processor tries the tool-call marker before any key, on every
  pass.
- The brace count of a tool call restarts at 1 on every call of `parse`.
- In the Markdown parser, a run of two backticks outside code is a literal
  backtick followed by an inline-code toggle.
- In the Markdown parser, a block closed in a later call is pushed as a new
  chunk. The incomplete copy shown earlier stays in the list.
- `getCurrentSession` treats session number 0 as "no session".
- The email tool treats the empty id as "no active run".
- `regenerateAIResponse` removes the message with the given id whatever its
  sender, as long as a user message precedes it.

## Model

| member | source | states |
|---|---|---|
| Utils.TruncateText | src/lib/utils.ts:19-21 | A text no longer than the limit is returned unchanged. A longer one ends in `...` and is at most the limit plus three characters. |
| Utils.TruncateDefault | src/lib/utils.ts:19 | With the default limit of 50, the result has at most 53 characters, and a short text is returned unchanged. |
| Utils.TruncateKeepsPrefix | src/lib/utils.ts:21 | A truncated text is the kept prefix with only white space cut from either end, followed by `...`. |
| Utils.TruncateWholePrefix | src/lib/utils.ts:21 | When the prefix neither starts nor ends with white space, it is kept whole before the ellipsis. |
| JsStrings.IsWhitespace | src/lib/stream-processor.ts:60 | The `\s` class and what `trim` removes: the 25 white-space and line-terminator characters. `TrimEnds` and `TrimNoWhitespace` use it. |
| JsStrings.IsWordChar | src/lib/user-message-parser.ts:9 | The `\w` class: ASCII letters, digits and the underscore. `WordEndSpec` uses it. |
| JsStrings.Trim | src/lib/utils.ts:21 | `trim`. `TrimBounds`, `TrimEnds` and `TrimIdempotent` state its properties. |
| JsStrings.TrimBounds | src/lib/utils.ts:21 | `trim` returns a slice of its input; what it removes at each end is white space only. |
| JsStrings.TrimEnds | src/lib/utils.ts:21 | A trimmed string neither starts nor ends with white space. |
| JsStrings.TrimIdempotent | src/lib/utils.ts:21 | Trimming twice is trimming once. |
| JsStrings.IntStringInjective | src/stores/artifact.ts:26 | Distinct integers print as distinct decimal strings. |
| JsStrings.NatStringRoundTrip | src/stores/artifact.ts:26 | The decimal rendering of a natural number reads back as that number. |
| Artifact.FileKey | src/stores/artifact.ts:26 | Without a version the key is the file name. With one, it is the file name, `_v`, then the version printed in decimal, as JavaScript prints an integer below 10^21. |
| Artifact.FileKeyInjective | src/stores/artifact.ts:26 | Two versions of one file never share a key. |
| Artifact.Opened | src/stores/artifact.ts:25-35 | `open` shows the panel with the given name, code, streaming flag and version, and the key derived from them. |
| Artifact.CodeAppended | src/stores/artifact.ts:37-42 | A hidden panel is unchanged. A shown panel gets the chunk appended to its code and nothing else changes. |
| Artifact.CodeReplaced | src/stores/artifact.ts:44-49 | A hidden panel is unchanged. A shown panel's code is replaced and nothing else changes. |
| Artifact.AppendTwice | src/stores/artifact.ts:37-42 | Appending two chunks in turn equals appending their concatenation. |
| Artifact.ReplaceThenAppend | src/stores/artifact.ts:44-49 | Replacing the code and then appending a chunk equals replacing it with the concatenation. |
| Artifact.OpenThenAppend | src/stores/artifact.ts:25-42 | Chunks streamed into a freshly opened panel accumulate after its initial code. |
| Artifact.ArtifactStore.Open | src/stores/artifact.ts:25-35 | The store state becomes `Opened(...)`. |
| Artifact.ArtifactStore.AppendCode | src/stores/artifact.ts:37-42 | The store state becomes `CodeAppended(old state, chunk)`. |
| Artifact.ArtifactStore.UpdateCode | src/stores/artifact.ts:44-49 | The store state becomes `CodeReplaced(old state, code)`. |
| Artifact.ArtifactStore.FinishStreaming | src/stores/artifact.ts:51-53 | Only the streaming flag changes, to false. |
| Artifact.ArtifactStore.Close | src/stores/artifact.ts:55-63 | The panel returns to the hidden default state. |
| Sessions.Without | src/stores/session.ts:31 | The filtered list holds exactly the entries other than `n`. |
| Sessions.WithoutAppend | src/stores/session.ts:31 | Filtering keeps the relative order: it distributes over concatenation. |
| Sessions.WithoutCounts | src/stores/session.ts:31 | Filtering removes every copy of `n` and keeps every other number exactly as often as before (a multiset statement). |
| Sessions.WithoutAbsent | src/stores/session.ts:31 | A list that does not hold `n` is unchanged by filtering. |
| Sessions.Prepend | src/stores/session.ts:20 | `n` goes in front and the old list follows unchanged, duplicates included. |
| Sessions.MoveToFront | src/stores/session.ts:31-32 | `n` is first and appears nowhere else. Membership is the old list plus `n`. |
| Sessions.MoveToFrontCounts | src/stores/session.ts:31-32 | After the move, `n` occurs exactly once and every other number as often as before. |
| Sessions.MoveToFrontIdempotent | src/stores/session.ts:28-39 | Making the same session current twice is making it current once. |
| Sessions.FirstSession | src/stores/session.ts:43 | The first number, or none when the list is empty or starts with the falsy 0. |
| Sessions.CurrentAfterMove | src/stores/session.ts:28-47 | After `setCurrentSession(n)`, `getCurrentSession` answers `n`, except for the falsy session number 0. |
| Sessions.SessionStore.AddSession | src/stores/session.ts:18-27 | The list becomes `Prepend(old list, n)` and the current session becomes `n`. |
| Sessions.SessionStore.SetCurrentSession | src/stores/session.ts:28-39 | The list becomes `MoveToFront(old list, n)`, and the current session is its first entry. |
| Sessions.SessionStore.GetCurrentSession | src/stores/session.ts:40-47 | Returns `FirstSession` of the list and stores it as the current session. Nothing else changes. |
| Files.LimitMessage | src/stores/file.ts:40 | The refusal message names the limit of five files, then the number of free slots in decimal, then ` more file(s).` |
| Files.NewItem | src/stores/file.ts:44-51 | A new item is pending and keeps the file's name, size and type. It is an image exactly when its type starts with `image/`. |
| Files.NewItems | src/stores/file.ts:44-51 | One item per file, in order. |
| Files.FilesAdded | src/stores/file.ts:32-59 | A batch larger than the free slots is refused whole, with the limit message and the number of free slots. Otherwise every file is appended in order as a pending item and the error is cleared. The list never grows past five. |
| Files.FullListRefuses | src/stores/file.ts:34-42 | Once the list holds five files, any further non-empty batch leaves it unchanged. |
| Files.KeepOthers | src/stores/file.ts:64 | Filtering by index removes exactly the item at a valid index. Any other index keeps the list. |
| Files.FileRemoved | src/stores/file.ts:61-67 | The item at a valid index is removed and the others keep their order. The error is cleared. |
| Files.ReplaceAt | src/stores/file.ts:79-86 | Only the item at the index changes; the length is kept. |
| Files.UploadRecorded | src/stores/file.ts:77-89 | An existing item gets its stored name and `success`. Every other item, the status and the error stay the same. |
| Files.FileFailed | src/stores/file.ts:91-103 | An existing item gets `error` and its message. Every other item, the status and the error stay the same. |
| Files.ErrorOrNull | src/stores/file.ts:73 | A missing or empty message is stored as `null`. |
| Files.FileStore.AddFiles | src/stores/file.ts:32-59 | The state becomes `FilesAdded(old state, files)` and the list still holds at most five files. |
| Files.FileStore.RemoveFile | src/stores/file.ts:61-67 | The state becomes `FileRemoved(old state, index)`, and the at-most-five invariant is kept. |
| Files.FileStore.SetUploadStatus | src/stores/file.ts:69-75 | Only the status and the error change; the error is `ErrorOrNull` of the argument. |
| Files.FileStore.UpdateFileAfterUpload | src/stores/file.ts:77-89 | The state becomes `UploadRecorded(old state, index, storedName)`. |
| Files.FileStore.SetFileError | src/stores/file.ts:91-103 | The state becomes `FileFailed(old state, index, error)`. |
| Files.FileStore.ClearFiles | src/stores/file.ts:105-107 | The store returns to its initial state. |
| Files.FileStore.ClearError | src/stores/file.ts:109-111 | Only the error changes, to `null`. |
| Chat.UserMessage | src/stores/chat.ts:44-49 | A user message carries its id and text and nothing else. |
| Chat.StreamingAiMessage | src/stores/chat.ts:58-66 | A new answer is from the model, empty and streaming, with the given model and mode. It is neither interrupted nor counted. |
| Chat.UserAdded | src/stores/chat.ts:40-53 | One user message with the given id and text is appended, and the store leaves its initial state. Nothing else changes. |
| Chat.AiStarted | src/stores/chat.ts:54-72 | An empty, streaming answer with the model and mode is appended. The store is marked loading and streaming that id. |
| Chat.EditMatching | src/stores/chat.ts:76-80 | Every message with the id is edited and every other message is kept, position by position. |
| Chat.ApplyEdit | src/stores/chat.ts:78 | An edit never changes a message's id, sender, model or mode. |
| Chat.ContentUpdated | src/stores/chat.ts:73-82 | Only the content of the messages with that id changes. The length and every other field of the store are kept. |
| Chat.StreamEnded | src/stores/chat.ts:83-108 | After finishing or interrupting, the store is neither loading nor streaming and has no streaming id. The initial-state and new-conversation flags are kept. |
| Chat.StreamThenFinish | src/stores/chat.ts:73-95 | Streaming content into an answer and then finishing it leaves that content, not streaming, with its token count, and an idle store. |
| Chat.FindIndex | src/stores/chat.ts:112 | The first index holding the id, or -1 exactly when no message has it. |
| Chat.Regenerated | src/stores/chat.ts:109-121 | When a user message directly precedes the message with the id, that message is removed and the user's text is returned. Otherwise nothing changes and `''` is returned. |
| Chat.RegenerateLastAnswer | src/stores/chat.ts:40-121 | Asking, starting the answer, then regenerating that answer removes exactly the answer and returns the question. |
| Chat.ResponseMode | src/stores/chat.ts:149-155 | Code mode for a response that parses to an object with a `Files` or `Conclusion` member, default mode otherwise. `AnswerMessage` states it as an if-and-only-if. |
| Chat.AnswerMessage | src/stores/chat.ts:149-163 | A stored answer is from the model, holds the response, is not streaming and has no model. Its mode is `code` exactly when the response parses to an object with a `Files` or `Conclusion` member, and `default` otherwise. |
| Chat.SessionMessages | src/stores/chat.ts:140-164 | Two messages per stored exchange. |
| Chat.SessionMessagesSpec | src/stores/chat.ts:141-164 | Record `i` becomes message `2i`, the user's prompt, and message `2i+1`, the stored answer, with the ids given for it. |
| Chat.SessionLoaded | src/stores/chat.ts:166-174 | The list is replaced. The store is initial exactly when the list is empty, and every other flag is cleared. |
| Chat.Cleared | src/stores/chat.ts:128-138 | Clearing returns the store to its initial state. |
| Chat.ChatStore.AddUserMessage | src/stores/chat.ts:40-53 | The state becomes `UserAdded(...)` and the id is returned. |
| Chat.ChatStore.StartAIResponse | src/stores/chat.ts:54-72 | The state becomes `AiStarted(...)` and the id is returned. |
| Chat.ChatStore.UpdateStreamingMessage | src/stores/chat.ts:73-82 | The state becomes `ContentUpdated(old state, id, content)`. |
| Chat.ChatStore.FinishStreaming | src/stores/chat.ts:83-95 | The matching messages stop streaming and get the token count; the store ends streaming. |
| Chat.ChatStore.InterruptStreaming | src/stores/chat.ts:96-108 | The matching messages stop streaming and are marked interrupted; the store ends streaming. |
| Chat.ChatStore.RegenerateAIResponse | src/stores/chat.ts:109-121 | The new state and the returned prompt are `Regenerated(old state, id)`. |
| Chat.ChatStore.SetLoading | src/stores/chat.ts:122-124 | Only the loading flag changes. |
| Chat.ChatStore.SetCreatingNewConversation | src/stores/chat.ts:125-127 | Only the new-conversation flag changes. |
| Chat.ChatStore.ClearMessages | src/stores/chat.ts:128-138 | The state becomes `Cleared(old state)`. |
| Chat.ChatStore.LoadSessionMessages | src/stores/chat.ts:139-175 | The `forEach` loop builds exactly `SessionMessages(records)` before the one store update. |
| EmailTool.InitialState | src/stores/emailTool.ts:91-103 | A fresh run for the message id is active, at iteration 0, with no steps. No request is pending, it is not completed, and it has no messages, approval data, result or error. |
| EmailTool.FindStep | src/stores/emailTool.ts:273 | The first step with that iteration number, or -1 exactly when there is none. |
| EmailTool.CompleteAll | src/stores/emailTool.ts:286-291 | Every step is complete and no longer typing; nothing else about it changes. |
| EmailTool.ClearApprovals | src/stores/emailTool.ts:346-355 | Every step loses its approval and nothing else. |
| EmailTool.AuthSet | src/stores/emailTool.ts:223-250 | Sets the flag and message. Asking for authorization clears the error; withdrawing the request keeps it. |
| EmailTool.ProgressSet | src/stores/emailTool.ts:255-312 | A known iteration gets the new reasoning and types again. A new one completes all earlier steps and is appended, typing. Either way it becomes current and authorization is no longer asked for. |
| EmailTool.ApprovalSet | src/stores/emailTool.ts:317-367 | A request with data is attached to the last step, which stops typing. A request without data or steps changes no step. Withdrawing a request removes the approval from every step. |
| EmailTool.CompletedSet | src/stores/emailTool.ts:372-413 | The run is inactive and completed, with its result. No request is pending and every step is complete. Id, iteration, error and auth message are kept. |
| EmailTool.ErrorSet | src/stores/emailTool.ts:418-449 | The run is inactive, with the error, and no request is pending. Nothing else changes. |
| EmailTool.Reduce | src/stores/emailTool.ts:155-171 | Each event type goes to its reducer. No reducer changes the message id. A completion or an error makes the run inactive. A completion records its result and an error its message. |
| EmailTool.HasActive | src/stores/emailTool.ts:224-225 | Events reach a run only when the active id is set and not empty, as the source's falsy test has it. `InactiveBuffers` states the other case. |
| EmailTool.Dispatch | src/stores/emailTool.ts:223-449 | With no (or an empty) active id, the event is buffered. Otherwise the active run's state, if present, is reduced; the buffer is kept; a completion or error forgets the active id. |
| EmailTool.DispatchAll | src/stores/emailTool.ts:154-172 | Dispatching events one after the other never adds or removes a run. The buffer only grows at its end. |
| EmailTool.Started | src/stores/emailTool.ts:196-210 | With an empty buffer, `start(id)` installs a fresh state under `id` and makes it active. |
| EmailTool.ResetRun | src/stores/emailTool.ts:454-464 | Only that run's state is dropped, and the active id too if it was this run's. |
| EmailTool.GetState | src/stores/emailTool.ts:215-218 | The state stored under the id, or none when there is none. |
| EmailTool.InactiveBuffers | src/stores/emailTool.ts:225-228 | With no active run, events only pile up in the buffer, in arrival order. |
| EmailTool.DispatchAllAppend | src/stores/emailTool.ts:154-171 | Dispatching a sequence in two parts is dispatching it whole. |
| EmailTool.EarlyEventsReplayed | src/stores/emailTool.ts:145-210 | Events that arrive before `start` end in exactly the state they would have reached had they arrived after it. |
| EmailTool.ActiveStaysActive | src/stores/emailTool.ts:223-367 | While no completion or error arrives, the active run keeps the focus and the buffer is untouched. |
| EmailTool.ReplayStopsAtTerminal | src/stores/emailTool.ts:145-173 | A completion in the middle of a replay ends the run, and the events after it go back into the buffer. |
| EmailTool.TwoIterations | src/stores/emailTool.ts:255-312 | Two progress events for new iterations: the first step is complete when the second starts typing. |
| EmailTool.EmailToolStore.GetActiveId | src/stores/emailTool.ts:181-183 | Returns the active id. |
| EmailTool.EmailToolStore.SetActiveId | src/stores/emailTool.ts:188-191 | Only the active id changes. |
| EmailTool.EmailToolStore.AddToBuffer | src/stores/emailTool.ts:131-143 | The event is appended to the buffer and nothing else changes. |
| EmailTool.EmailToolStore.ExpireBuffer | src/stores/emailTool.ts:123-129 | The buffer is emptied and nothing else changes. |
| EmailTool.EmailToolStore.UpdateActive | src/stores/emailTool.ts:233-249 | The run with the id is reduced when it has a state. Otherwise the map is left alone. The active id and the buffer do not change. |
| EmailTool.EmailToolStore.SetNeedsAuth | src/stores/emailTool.ts:223-250 | The store becomes `Dispatch(old store, NeedsAuth(...))`. |
| EmailTool.EmailToolStore.SetProgress | src/stores/emailTool.ts:255-312 | The store becomes `Dispatch(old store, Progress(...))`. |
| EmailTool.EmailToolStore.SetNeedsApproval | src/stores/emailTool.ts:317-367 | The store becomes `Dispatch(old store, NeedsApproval(...))`. |
| EmailTool.EmailToolStore.SetCompleted | src/stores/emailTool.ts:372-413 | The store becomes `Dispatch(old store, Completed(result))`. |
| EmailTool.EmailToolStore.SetError | src/stores/emailTool.ts:418-449 | The store becomes `Dispatch(old store, Failed(error))`. |
| EmailTool.EmailToolStore.Handle | src/stores/emailTool.ts:154-171 | Each buffered event type is handed to its method: the store becomes `Dispatch(old store, event)`. |
| EmailTool.EmailToolStore.Start | src/stores/emailTool.ts:196-210 | The store becomes `Started(old store, id)`: a fresh state, the active id, then the replay. |
| EmailTool.EmailToolStore.ReplayBuffer | src/stores/emailTool.ts:145-173 | The buffer is taken and cleared, and its events are dispatched again in order. |
| EmailTool.EmailToolStore.GetStateOf | src/stores/emailTool.ts:215-218 | Returns `GetState(store, id)`. |
| EmailTool.EmailToolStore.Reset | src/stores/emailTool.ts:454-464 | The store becomes `ResetRun(old store, id)`. |
| EmailTool.EmailToolStore.ClearAll | src/stores/emailTool.ts:469-473 | No state, no active id, empty buffer. |
| UserMessage.WordEnd | src/lib/user-message-parser.ts:9 | The greedy `\w*` run ends between its start and the end of the message. |
| UserMessage.WordEndSpec | src/lib/user-message-parser.ts:9 | The greedy `\w*` run: word characters up to a non-word character or the end. |
| UserMessage.FenceFrom | src/lib/user-message-parser.ts:9 | Where the lazy body stops: a fence at or after a position. |
| UserMessage.FenceFromFirst | src/lib/user-message-parser.ts:9 | The fence found is the first one after the position, and when none is found no fence follows it. |
| UserMessage.MatchAt | src/lib/user-message-parser.ts:9 | A match at a position starts there and spans at least the two fences and the newline. |
| UserMessage.MatchAtSpec | src/lib/user-message-parser.ts:9 | A match is a fence, a word, a newline, a body with no fence in it, and the closing fence. |
| UserMessage.FindBlock | src/lib/user-message-parser.ts:14 | `exec` returns a match of the pattern starting at or after `lastIndex`. |
| UserMessage.FindBlockLeftmost | src/lib/user-message-parser.ts:14 | The match `exec` returns is the leftmost: no match starts before it, and none at all when it returns nothing. |
| UserMessage.TextPart | src/lib/user-message-parser.ts:17-23 | At most one segment, none exactly for empty text. That segment is text holding exactly the given text, with no language. |
| UserMessage.CodePart | src/lib/user-message-parser.ts:26-31 | A code segment with the trimmed body and a non-empty language: the word after the fence when there is one, otherwise `plaintext`. |
| UserMessage.Gap | src/lib/user-message-parser.ts:15-24 | At most one segment. There is one only when the block starts after the current index and the trimmed text in between is non-empty; it is that text. |
| UserMessage.SplitFrom | src/lib/user-message-parser.ts:14-45 | The segments the loop and the remaining-text step push. `SplitStep`, `SplitLast` and `SplitWellFormed` state its properties. |
| UserMessage.ParseUserMessage | src/lib/user-message-parser.ts:7-56 | The result is never empty. |
| UserMessage.SplitWellFormed | src/lib/user-message-parser.ts:14-45 | Every segment the loop pushes is non-empty trimmed text, or trimmed code with a non-empty language (`plaintext` by default). |
| UserMessage.SplitStep | src/lib/user-message-parser.ts:14-34 | One turn of the loop pushes the text before the block, then the block, and goes on after it. |
| UserMessage.SplitLast | src/lib/user-message-parser.ts:37-45 | After the last block, only the trimmed remaining text is pushed, if any. |
| UserMessage.NoBlockOneText | src/lib/user-message-parser.ts:37-53 | Without a fenced block, the message is one text segment: the trimmed text, or the message as typed when it is all white space. |
| UserMessage.SingleBlock | src/lib/user-message-parser.ts:7-56 | A message that is one fenced block gives one code segment: the trimmed body, with the language or `plaintext`. |
| UserMessage.BlockMatches | src/lib/user-message-parser.ts:9 | Such a block is matched at its first character, with the given language and body. |
| UserMessage.Parse | src/lib/user-message-parser.ts:7-56 | The imperative loop returns exactly `ParseUserMessage(content)`. |
| FieldStream.SkipWs | src/lib/stream-processor.ts:60 | The greedy `\s*` run. |
| FieldStream.ColonThen | src/lib/stream-processor.ts:60 | `\s*:\s*` followed by the opening character; the result is the index past it. |
| FieldStream.QuotedNameAt | src/lib/stream-processor.ts:46 | One character that `.` accepts, then the quoted name; the result is the index past the closing quote. |
| FieldStream.AltAt | src/lib/stream-processor.ts:46-60 | A match at a position uses one of the listed alternatives and ends after it starts. |
| FieldStream.FindFrom | src/lib/stream-processor.ts:46-60 | The leftmost match, with no match at any earlier position. |
| FieldStream.FindToolMarker | src/lib/stream-processor.ts:46 | A tool marker found lies inside the buffer and ends with the opening brace of the call. |
| FieldStream.FindKey | src/lib/stream-processor.ts:60 | A key found lies inside the buffer, ends with the opening quote of the value and names a real field. |
| FieldStream.FindLeftmost | src/lib/stream-processor.ts:46-60 | Both searches return the leftmost match. They return nothing only when the pattern matches at no position. |
| FieldStream.DecodeEscape | src/lib/stream-processor.ts:102-108 | Exactly `\n`, `\t`, `\"` and `\\` decode to one character. Any other escape is kept as the backslash and the character. |
| FieldStream.ScanValue | src/lib/stream-processor.ts:94-119 | The value loop consumes input. It stops past a closing quote, or with at most a dangling backslash left over. |
| FieldStream.ScanValueLeavesSuffix | src/lib/stream-processor.ts:94-119 | What the value loop leaves is a suffix of its input. |
| FieldStream.EncodeCharShape | src/lib/stream-processor.ts:102-108 | Each character is encoded as itself or as an escape that decodes back to it. |
| FieldStream.ScanEncoded | src/lib/stream-processor.ts:94-119 | Decoding an encoded value and its closing quote yields the value and stops right after the quote. |
| FieldStream.ScanValueSplit | src/lib/stream-processor.ts:94-119 | Decoding a value across two chunks gives the same text as decoding it whole. |
| FieldStream.EncodedValueAnySplit | src/lib/stream-processor.ts:94-119 | An encoded value cut anywhere, even inside an escape, decodes to the value over two calls. |
| FieldStream.EncodedPrefixOpen | src/lib/stream-processor.ts:94-119 | No prefix of an encoded value contains an unescaped closing quote. |
| FieldStream.BraceScan | src/lib/stream-processor.ts:74-88 | The brace loop moves forward while the count is positive. It stops at zero or at the end of the buffer. |
| FieldStream.BraceScanFirstBalance | src/lib/stream-processor.ts:74-88 | The brace loop stops at the first point where the text after the opening brace balances, or reads everything. |
| FieldStream.FinishToolCall | src/lib/stream-processor.ts:134-155 | A failed parse changes nothing. A successful parse returns to `Idle` and clears the tool-call fields. It reports a call exactly when name, query and position are present, with the file index when one is pending. |
| FieldStream.ToolCallStep | src/lib/stream-processor.ts:74-88 | Characters move into the tool-call buffer up to the balancing brace. An unbalanced pass moves everything and emits nothing. A balanced pass hands the grown tool-call buffer to `FinishToolCall`, which parses and reports the call. |
| FieldStream.EmitChunk | src/lib/stream-processor.ts:157-180 | A non-empty chunk is routed to the callback of the current key. File fields carry the file index. An empty chunk or no key emits nothing. |
| FieldStream.EnterValue | src/lib/stream-processor.ts:60-71 | The machine streams the matched key's value from just past the opening quote. A `FileName` key advances the file index by one and announces it with `FileStart`; any other key emits nothing and keeps the index. No other field changes. |
| FieldStream.EnterToolCall | src/lib/stream-processor.ts:46-57 | The machine parses a tool call from just past the brace. The tool-call buffer holds `{`, and the position is the marker's. The pending file index is updated only for `tool_after_file`. The key and the file index are kept. |
| FieldStream.StreamValue | src/lib/stream-processor.ts:90-130 | A pass in `StreamingValue` never grows the buffer. It returns to `Idle` only after consuming a closing quote. |
| FieldStream.Step | src/lib/stream-processor.ts:42-132 | An iteration never grows the buffer. When the loop goes on, the buffer has shrunk, so the loop terminates. |
| FieldStream.Run | src/lib/stream-processor.ts:42-132 | The loop never grows the buffer. `RunUnfold`, `RunQuiescent` and `RunIndexed` state the rest. |
| FieldStream.QuiescentIsFixed | src/lib/stream-processor.ts:42-132 | When nothing matches in `Idle`, the buffer is kept whole for the next call and nothing is emitted. |
| FieldStream.RunUnfold | src/lib/stream-processor.ts:42-132 | The loop is one iteration followed, while it goes on, by the rest. |
| FieldStream.StepQuiescent | src/lib/stream-processor.ts:42-132 | An iteration that stops the loop leaves a machine with nothing more to do. |
| FieldStream.RunQuiescent | src/lib/stream-processor.ts:42-132 | The loop always stops in such a machine. |
| FieldStream.EmptyChunkIsNoOp | src/lib/stream-processor.ts:33-36 | An empty chunk after any call changes nothing and emits nothing. |
| FieldStream.EventsIndexedAppend | src/lib/stream-processor.ts:67-70 | Consistently indexed event runs compose. |
| FieldStream.EventsIndexedMonotone | src/lib/stream-processor.ts:67-70 | The file index only grows, by one per announced file. |
| FieldStream.StepIndexed | src/lib/stream-processor.ts:42-132 | One iteration keeps the machine invariant and emits consistently indexed events. |
| FieldStream.RunIndexed | src/lib/stream-processor.ts:42-132 | The loop keeps the machine invariant. Every file chunk and tool call carries the index of the latest announced file. |
| FieldStream.ToolCallStepIndexed | src/lib/stream-processor.ts:74-88 | A tool-call pass keeps the invariant and emits consistently indexed calls. |
| FieldStream.StreamValueIndexed | src/lib/stream-processor.ts:90-130 | A value pass keeps the invariant and the file index. |
| FieldStream.EnterValueIndexed | src/lib/stream-processor.ts:60-71 | Entering a value keeps the invariant. A `FileName` key announces exactly the next index. |
| FieldStream.StreamProcessor.Process | src/lib/stream-processor.ts:33-36 | The retained buffer plus the chunk is run through the loop, giving exactly `Run`'s state and events. The invariant holds and the events are consistently indexed. |
| FieldStream.StreamProcessor.Close | src/lib/stream-processor.ts:38-40 | Emits the completion callback only. |
| FieldStream.StreamProcessor.Parse | src/lib/stream-processor.ts:42-132 | The `while` loop gives exactly `Run(old machine)`. |
| FieldStream.StreamProcessor.Iterate | src/lib/stream-processor.ts:44-131 | One pass of the loop body gives exactly `Step(old machine)`. |
| FieldStream.StreamProcessor.OpenToolCall | src/lib/stream-processor.ts:47-57 | The tool-marker branch gives exactly `EnterToolCall`. |
| FieldStream.StreamProcessor.OpenValue | src/lib/stream-processor.ts:62-71 | The key branch gives exactly `EnterValue`. |
| FieldStream.StreamProcessor.ConsumeToolCall | src/lib/stream-processor.ts:74-88 | The brace loop gives exactly `ToolCallStep(old machine)`. |
| FieldStream.StreamProcessor.ParseToolCall | src/lib/stream-processor.ts:134-155 | Gives exactly `FinishToolCall(old machine)`. |
| FieldStream.StreamProcessor.StreamValueChars | src/lib/stream-processor.ts:90-130 | The character loop gives exactly `StreamValue(old machine)`. |
| SimpleCode.WithLastContent | src/lib/simple-code-parser.ts:148-173 | Only the last segment's content changes. |
| SimpleCode.AddText | src/lib/simple-code-parser.ts:148-159 | A trailing text segment is extended. Otherwise a new text segment with the next id is opened. |
| SimpleCode.AddTo | src/lib/simple-code-parser.ts:161-173 | A trailing segment of the given kind is extended. Otherwise nothing changes. |
| SimpleCode.DropTrailingNewline | src/lib/simple-code-parser.ts:66-70 | Exactly one trailing newline is removed, if there is one. |
| SimpleCode.OnFence | src/lib/simple-code-parser.ts:59-81 | A fence in text starts a language line and leaves the segments alone. In a code block it returns to text with the same number of segments. Right after an opening fence it opens one empty code segment and enters the code block. Inside inline code it changes nothing. The backtick run is untouched. |
| SimpleCode.OnSingle | src/lib/simple-code-parser.ts:82-99 | A single backtick in text opens an empty inline segment as the last segment. Inside inline code it only returns to text. In a code block or a language line the state is kept. No segment is removed. |
| SimpleCode.OnDouble | src/lib/simple-code-parser.ts:100-111 | Two backticks keep the state and the backtick run, and remove no segment. |
| SimpleCode.Feed | src/lib/simple-code-parser.ts:35-49 | One loop iteration. A backtick only grows the run; any other character first settles the run and is then read. `FeedInv` and `FeedKeeps` state its properties. |
| SimpleCode.FeedInv | src/lib/simple-code-parser.ts:35-49 | One character keeps the invariant: open blocks are the trailing segment, ids increase and stay below the counter, only code carries a language, and the run holds only backticks. |
| SimpleCode.FeedKeeps | src/lib/simple-code-parser.ts:35-49 | One character changes at most the trailing segment and removes none. |
| SimpleCode.FeedAll | src/lib/simple-code-parser.ts:34-50 | The loop over the new content. `FeedAllInv`, `FeedAllAppend` and `FeedAllKeepsEarlier` state its properties. |
| SimpleCode.OnBackticks | src/lib/simple-code-parser.ts:56-114 | The pending backtick run is emptied. |
| SimpleCode.OnCharacter | src/lib/simple-code-parser.ts:116-146 | The pending backtick run is untouched. |
| SimpleCode.AfterParse | src/lib/simple-code-parser.ts:25-54 | The position becomes the content length. Shorter content is read from a fresh state; otherwise only the new suffix is read. |
| SimpleCode.FeedAllInv | src/lib/simple-code-parser.ts:25-54 | Segment ids grow strictly and stay below the counter. An open block or span is the trailing segment. Only code carries a language. |
| SimpleCode.FeedAllAppend | src/lib/simple-code-parser.ts:34-50 | Reading `a` then `b` is reading `a + b`. |
| SimpleCode.Resumes | src/lib/simple-code-parser.ts:25-54 | Two calls give the same parser as one call with the whole content. No character is read twice or skipped, and a backtick run cut by the boundary is seen whole. |
| SimpleCode.ShorterContentResets | src/lib/simple-code-parser.ts:27-29 | Content shorter than what was read is parsed as a new message. |
| SimpleCode.FeedAllKeepsEarlier | src/lib/simple-code-parser.ts:25-54 | Only the trailing segment ever changes; no segment is removed. |
| SimpleCode.PlainTextExtends | src/lib/simple-code-parser.ts:118-120 | Text without backticks extends the trailing text segment. |
| SimpleCode.PlainMessage | src/lib/simple-code-parser.ts:25-54 | A message without backticks is a single text segment. |
| SimpleCode.ContentExtends | src/lib/simple-code-parser.ts:138-144 | Inside a code block or an inline span, characters without backticks extend that segment. |
| SimpleCode.LanguageExtends | src/lib/simple-code-parser.ts:133-135 | Characters of a language line before its newline are collected. |
| SimpleCode.BackticksWaitFrom | src/lib/simple-code-parser.ts:37-41 | Backticks read in a row only wait in the run buffer. |
| SimpleCode.InlineOpens | src/lib/simple-code-parser.ts:82-90 | A backtick and text without backticks open an inline segment holding the text. |
| SimpleCode.InlineCloses | src/lib/simple-code-parser.ts:91-92 | A closing backtick and the next character end the span and start a text segment. |
| SimpleCode.InlineSpan | src/lib/simple-code-parser.ts:82-92 | `` `x` `` followed by a character adds an inline segment `x` and a text segment. |
| SimpleCode.RunSettles | src/lib/simple-code-parser.ts:43-46 | A pending backtick run is settled by the next non-backtick character. |
| SimpleCode.DoubleSettles | src/lib/simple-code-parser.ts:100-113 | Two backticks wait until the next character, which settles them as a literal pair and is then read. |
| SimpleCode.DoubleBacktick | src/lib/simple-code-parser.ts:100-111 | Two backticks and a character are literal in every state. They extend the trailing text, code or inline segment, or the language line, by both backticks and the character. |
| SimpleCode.LanguageLineEnds | src/lib/simple-code-parser.ts:122-132 | The newline after a language line opens a code segment with the trimmed language. |
| SimpleCode.FenceOpens | src/lib/simple-code-parser.ts:59-64 | An opening fence with its language line opens an empty code segment with the trimmed language. |
| SimpleCode.FenceCloses | src/lib/simple-code-parser.ts:65-71 | A closing fence drops one trailing newline from the code; the next character starts a text segment. |
| SimpleCode.FencedBlock | src/lib/simple-code-parser.ts:56-146 | A whole fenced block adds one code segment (body less one trailing newline, trimmed language) and then the following text. |
| SimpleCode.SimpleCodeParser.Parse | src/lib/simple-code-parser.ts:25-54 | The new state is `AfterParse(old state, content)`, the invariant is kept, and the segments are returned. |
| SimpleCode.SimpleCodeParser.ReadChar | src/lib/simple-code-parser.ts:35-49 | One loop iteration gives exactly `Feed`. |
| SimpleCode.SimpleCodeParser.ProcessBackticks | src/lib/simple-code-parser.ts:56-114 | Gives exactly `OnBackticks`. |
| SimpleCode.SimpleCodeParser.ProcessCharacter | src/lib/simple-code-parser.ts:116-146 | Gives exactly `OnCharacter`. |
| SimpleCode.SimpleCodeParser.AddToTextSegment | src/lib/simple-code-parser.ts:148-159 | Gives exactly `AddText`. |
| SimpleCode.SimpleCodeParser.AddToSegment | src/lib/simple-code-parser.ts:161-173 | Gives exactly `AddTo` for the code or inline kind. |
| SimpleCode.SimpleCodeParser.Reset | src/lib/simple-code-parser.ts:175-182 | Back to the initial parser. |
| SimpleCode.SimpleCodeParser.GetSegments | src/lib/simple-code-parser.ts:184-186 | Returns the segments. |
| MarkdownStream.RunLength | src/lib/markdown-stream-parser.ts:51-58 | The length of the run of consecutive backticks. |
| MarkdownStream.LineEnd | src/lib/markdown-stream-parser.ts:69-72 | The end of the language line lies between the fence and the end of the content; `LineEndSpec` says it is the first newline. |
| MarkdownStream.OpenBlock | src/lib/markdown-stream-parser.ts:62-74 | An opening fence finalizes the trailing chunk and enters a block with the run length, the language and no code. `OpenFence` states it for a message that starts with a fence. |
| MarkdownStream.LineEndSpec | src/lib/markdown-stream-parser.ts:69-72 | The language line ends at the first newline after the fence, or at the end. |
| MarkdownStream.Completed | src/lib/markdown-stream-parser.ts:180-190 | Text is never changed. A code or inline chunk is marked complete, keeping its id and kind. |
| MarkdownStream.Finalize | src/lib/markdown-stream-parser.ts:180-190 | Only an incomplete trailing code or inline chunk changes, to complete. |
| MarkdownStream.AddChar | src/lib/markdown-stream-parser.ts:128-144 | Inside a block or span, a character only extends the collected code. |
| MarkdownStream.FenceStep | src/lib/markdown-stream-parser.ts:60-105 | A fence run moves the index forward, at most one past the end. A block is open afterwards exactly when none was open before or the run's length differs from the opening length. `CloseFence`, `OtherRunIsCode` and `OpenFence` state each branch. |
| MarkdownStream.InlineToggle | src/lib/markdown-stream-parser.ts:106-125 | A single backtick flips the inline-code flag, leaves the code-block flag alone and empties the collected code. Closing the span appends one complete inline chunk holding the collected code, after the unchanged earlier chunks. |
| MarkdownStream.Advance | src/lib/markdown-stream-parser.ts:46-145 | Every iteration moves the index forward. |
| MarkdownStream.AdvanceCases | src/lib/markdown-stream-parser.ts:50-144 | A run of three or more outside inline code is a fence. A single backtick outside a block toggles inline code. Any other backtick or character is added. |
| MarkdownStream.ScanFrom | src/lib/markdown-stream-parser.ts:46-145 | The `for` loop over the new content. `ScanFromInv` and `ScanFromFrozen` state its properties. |
| MarkdownStream.ScanFromInv | src/lib/markdown-stream-parser.ts:46-145 | The loop keeps chunk ids increasing and below the counter, never has a block and a span open together, and an open block remembers a fence of three or more backticks. |
| MarkdownStream.ScanFromFrozen | src/lib/markdown-stream-parser.ts:46-145 | The loop removes no chunk and changes none but the last. The last one only grows its text or, while incomplete, is updated or completed with its id and kind kept. |
| MarkdownStream.ExposeOpen | src/lib/markdown-stream-parser.ts:147-175 | An open block or span is shown as an incomplete trailing chunk with the current code. Nothing else changes. |
| MarkdownStream.AfterParse | src/lib/markdown-stream-parser.ts:36-178 | The buffer becomes the full content. |
| MarkdownStream.ParseInv | src/lib/markdown-stream-parser.ts:36-178 | Every call keeps chunk ids increasing and below the counter. A block and a span are never open together. |
| MarkdownStream.ParseFrozen | src/lib/markdown-stream-parser.ts:36-178 | Nothing shown is taken back: every chunk but the last stays the same, and the last can only grow or be brought up to date. |
| MarkdownStream.CompleteStays | src/lib/markdown-stream-parser.ts:36-178 | A complete code or inline chunk never changes again. |
| MarkdownStream.TextRun | src/lib/markdown-stream-parser.ts:133-143 | Text without backticks outside any block extends the trailing text chunk. |
| MarkdownStream.PlainMessage | src/lib/markdown-stream-parser.ts:36-178 | A message without backticks is one text chunk. |
| MarkdownStream.BodyRun | src/lib/markdown-stream-parser.ts:129-132 | Inside a block or span, characters without backticks are collected. |
| MarkdownStream.OpenFence | src/lib/markdown-stream-parser.ts:60-78 | A fence of any length of three or more, with its language line, enters the block after the newline. The run length is recorded as the closing length, and the language is trimmed. |
| MarkdownStream.CloseFence | src/lib/markdown-stream-parser.ts:81-98 | Inside a block, a run whose length equals the opening length (any length of three or more, anywhere in the input) pushes the complete code chunk, leaves the block, and continues after the run. |
| MarkdownStream.OtherRunIsCode | src/lib/markdown-stream-parser.ts:99-104 | Inside a block, a run of three or more backticks of any other length is appended to the code as it stands, the block stays open, and reading continues after the run. |
| MarkdownStream.ShortRunIsCode | src/lib/markdown-stream-parser.ts:106-130 | Inside a block, a backtick in a run of one or two is code. |
| MarkdownStream.BlockBody | src/lib/markdown-stream-parser.ts:46-133 | Inside a block, text whose backtick runs all differ from the opening length is collected as it stands, runs included. |
| MarkdownStream.FenceAtEnd | src/lib/markdown-stream-parser.ts:81-98 | A fence of the opening length ending the input ends the scan, with the block pushed as a complete chunk. |
| MarkdownStream.FencedBlock | src/lib/markdown-stream-parser.ts:36-178 | A whole block fenced by runs of `c` backticks (`c` at least 3), read in one call, is one complete code chunk. The chunk holds the trimmed language and the body, with the newline before the closing fence. The body may hold runs of any length but `c`; it must not end with a backtick. |
| MarkdownStream.NestedFence | src/lib/markdown-stream-parser.ts:81-104 | A block opened by four backticks is not closed by a run of three. The run stays in the code, and one chunk `code\n```\nstill code\n` with language `python` results. |
| MarkdownStream.OpenBlockShown | src/lib/markdown-stream-parser.ts:147-175 | A block still open at the end of a call is shown as an incomplete chunk. |
| MarkdownStream.ClosedInLaterCall | src/lib/markdown-stream-parser.ts:81-98 | When a later call closes that block, a new complete chunk is pushed and the incomplete one stays. |
| MarkdownStream.DoubleBacktick | src/lib/markdown-stream-parser.ts:106-144 | Two backticks outside code: the first is text, and the second opens an inline span. |
| MarkdownStream.MarkdownStreamParser.Parse | src/lib/markdown-stream-parser.ts:36-178 | The new state is `AfterParse(old state, content)`, the invariant is kept, and the chunks are returned. |
| MarkdownStream.MarkdownStreamParser.Iteration | src/lib/markdown-stream-parser.ts:47-144 | One iteration of the `for` body gives exactly `Advance`, with the next index. |
| MarkdownStream.MarkdownStreamParser.Fence | src/lib/markdown-stream-parser.ts:60-105 | The fence branch gives exactly `FenceStep`. |
| MarkdownStream.MarkdownStreamParser.ToggleInline | src/lib/markdown-stream-parser.ts:106-125 | The inline branch gives exactly `InlineToggle`. |
| MarkdownStream.MarkdownStreamParser.AppendChar | src/lib/markdown-stream-parser.ts:128-144 | The character branch gives exactly `AddChar`. |
| MarkdownStream.MarkdownStreamParser.ShowIncomplete | src/lib/markdown-stream-parser.ts:147-175 | Gives exactly `ExposeOpen`. |
| MarkdownStream.MarkdownStreamParser.CountBackticks | src/lib/markdown-stream-parser.ts:51-58 | The counting loop returns `RunLength`. |
| MarkdownStream.MarkdownStreamParser.FindLineEnd | src/lib/markdown-stream-parser.ts:69-72 | The search loop returns `LineEnd`. |
| MarkdownStream.MarkdownStreamParser.FinalizeCurrentChunk | src/lib/markdown-stream-parser.ts:180-190 | The chunks become `Finalize(old chunks)`. |
| MarkdownStream.MarkdownStreamParser.Reset | src/lib/markdown-stream-parser.ts:192-201 | Back to the initial parser. |
| MarkdownStream.MarkdownStreamParser.GetChunks | src/lib/markdown-stream-parser.ts:203-205 | Returns the chunks. |
| StreamingJson.InitialState | src/lib/streamingJsonParser.ts:36-50 | The initial state satisfies the parser invariant. |
| StreamingJson.ValueStart | src/lib/streamingJsonParser.ts:170 | `"key"\s*:\s*"` at a position ends past an opening quote. |
| StreamingJson.FirstMatch | src/lib/streamingJsonParser.ts:171 | The leftmost position where a value of the key starts, with none earlier. |
| StreamingJson.FieldMatch | src/lib/streamingJsonParser.ts:170-171 | There is a capture exactly when the key pattern matches somewhere. The capture never holds a quote. `FieldMatchSpec` says which text it is. |
| StreamingJson.FieldMatchSpec | src/lib/streamingJsonParser.ts:170-171 | The capture is the run of non-quote characters after the leftmost value's opening quote. |
| StreamingJson.NameAt | src/lib/streamingJsonParser.ts:96 | A `FileName` match needs its closing quote and ends past it. |
| StreamingJson.NamesFrom | src/lib/streamingJsonParser.ts:96 | The names `matchAll` collects, none of which holds a quote. `NamesVisitedSpec` and `FilesArraySpec` state what becomes of them. |
| StreamingJson.EscapeRegex | src/lib/streamingJsonParser.ts:256-258 | Escaping at most doubles the length. |
| StreamingJson.EscapeRegexRoundTrip | src/lib/streamingJsonParser.ts:234-238 | The escaped pattern stands for exactly the raw text. |
| StreamingJson.EscapeRegexPlain | src/lib/streamingJsonParser.ts:256-258 | A text without metacharacters is its own pattern. |
| StreamingJson.IsFieldComplete | src/lib/streamingJsonParser.ts:234-238 | The key, a colon and the escaped raw content closed by a quote occur somewhere in the buffer. `CompleteIffClosed` says that, for the leftmost value of the key, this holds exactly when its closing quote has arrived. |
| StreamingJson.CompleteIffClosed | src/lib/streamingJsonParser.ts:234-238 | The completeness test holds exactly when the quote closing the leftmost value has arrived. |
| StreamingJson.ReplaceAll | src/lib/streamingJsonParser.ts:249-253 | A global replacement of a two-character pattern by at most two characters never lengthens the text. `ReplaceAbsent` says that text without the first character of the pattern is unchanged. |
| StreamingJson.Unescape | src/lib/streamingJsonParser.ts:248-254 | Unescaping never lengthens the text. `UnescapePlain`, `UnescapeInvertsEscape` and `UnescapeOrder` state what it undoes. |
| StreamingJson.UnescapePlain | src/lib/streamingJsonParser.ts:248-254 | A text without backslashes is unchanged. |
| StreamingJson.UnescapeInvertsEscape | src/lib/streamingJsonParser.ts:248-254 | Unescaping inverts the JSON escape of quote, newline, carriage return and tab for a text without backslashes. |
| StreamingJson.UnescapeOrder | src/lib/streamingJsonParser.ts:248-254 | Because `\n` is replaced before `\\`, an escaped backslash followed by `n` becomes a backslash and a newline. |
| StreamingJson.NamesVisited | src/lib/streamingJsonParser.ts:98-112 | After the first `n` turns of the `forEach` the state is consistent and holds as many files as before or `n`, whichever is larger. |
| StreamingJson.NameVisited | src/lib/streamingJsonParser.ts:98-112 | One turn of the `forEach` keeps a flag per file and a valid active index. |
| StreamingJson.NameVisitedSpec | src/lib/streamingJsonParser.ts:98-112 | A known ordinal changes nothing. The next ordinal adds one file named by its match and makes it active. |
| StreamingJson.NamesVisitedSpec | src/lib/streamingJsonParser.ts:96-112 | Files already found are kept. Each new ordinal adds one file named by its match. Nothing else changes. |
| StreamingJson.TextDetected | src/lib/streamingJsonParser.ts:74-83 | Only the current field and the text flag can change. They change only when no field is current, and then `Text` becomes current and visible. |
| StreamingJson.FileFieldDetected | src/lib/streamingJsonParser.ts:121-139 | Only the current field can change, and only to the given file field once its key matches. |
| StreamingJson.FileFieldsDetected | src/lib/streamingJsonParser.ts:94-119 | The visibility list stays in step with the files, the active index stays valid, and no file is removed. |
| StreamingJson.FilesArrayDetected | src/lib/streamingJsonParser.ts:85-92 | The same guarantees, and without a `"Files":` key nothing changes. |
| StreamingJson.ConclusionDetected | src/lib/streamingJsonParser.ts:141-150 | Only the current field and the conclusion flag can change. A change makes `Conclusion` current and visible. |
| StreamingJson.FilesArraySpec | src/lib/streamingJsonParser.ts:85-119 | Detection keeps the invariant and the files found, and names each new file by its match. |
| StreamingJson.TextStartsOnlyWhenIdle | src/lib/streamingJsonParser.ts:74-83 | The `Text` field starts exactly when no field is current and its key has arrived. |
| StreamingJson.ExtractSpec | src/lib/streamingJsonParser.ts:152-232 | Extraction never touches file names. It sets `isComplete` only through a completed `Conclusion` value. |
| StreamingJson.FieldContentExtracted | src/lib/streamingJsonParser.ts:152-167 | Extraction keeps the state consistent and the number of files. With no current field it changes nothing. |
| StreamingJson.TextExtracted | src/lib/streamingJsonParser.ts:169-183 | Only the text and the current field can change. Without a match nothing changes; with one, the text is the unescaped capture. |
| StreamingJson.FileFieldExtracted | src/lib/streamingJsonParser.ts:185-215 | Only the files and the current field can change. The number of files is kept. The current field can only be cleared. |
| StreamingJson.ConclusionExtracted | src/lib/streamingJsonParser.ts:217-232 | Only the conclusion, the current field and the completion flag can change. With a match, the conclusion is the unescaped capture. |
| StreamingJson.CompletionChecked | src/lib/streamingJsonParser.ts:240-246 | Only the completion flag can change. It is set afterwards exactly when it was set before or the trimmed buffer ends with `}`. |
| StreamingJson.ParsedKeepsFiles | src/lib/streamingJsonParser.ts:62-72 | A parse keeps the invariant and every file with its name, and names each new file by its match. |
| StreamingJson.Parsed | src/lib/streamingJsonParser.ts:62-72 | A parse keeps the state consistent and removes no file. `ParsedKeepsFiles` states the full invariant. |
| StreamingJson.CompletionNeedsConclusion | src/lib/streamingJsonParser.ts:217-246 | `isComplete` is set only once the `Conclusion` value is closed and the trimmed buffer ends with `}`. Once set, it stays set. |
| StreamingJson.StreamingJsonParser.ProcessChunk | src/lib/streamingJsonParser.ts:56-60 | The chunk is appended, and the state becomes `Parsed(buffer, old state)` and is returned. |
| StreamingJson.StreamingJsonParser.ParseBuffer | src/lib/streamingJsonParser.ts:62-72 | The state becomes `Parsed(buffer, old state)`. |
| StreamingJson.StreamingJsonParser.DetectTextField | src/lib/streamingJsonParser.ts:74-83 | Gives exactly `TextDetected`. |
| StreamingJson.StreamingJsonParser.DetectFilesArray | src/lib/streamingJsonParser.ts:85-92 | Gives exactly `FilesArrayDetected`. |
| StreamingJson.StreamingJsonParser.DetectFileFields | src/lib/streamingJsonParser.ts:94-119 | The `forEach` loop gives exactly `FileFieldsDetected`. |
| StreamingJson.StreamingJsonParser.VisitName | src/lib/streamingJsonParser.ts:98-112 | One call of the `forEach` callback gives exactly `NameVisited`. A new ordinal gets a record and becomes the active file, and a file not yet visible gets its name. |
| StreamingJson.StreamingJsonParser.DetectFileField | src/lib/streamingJsonParser.ts:121-139 | Gives exactly `FileFieldDetected` for `FileCode` or `FileText`. |
| StreamingJson.StreamingJsonParser.DetectConclusionField | src/lib/streamingJsonParser.ts:141-150 | Gives exactly `ConclusionDetected`. |
| StreamingJson.StreamingJsonParser.ExtractFieldContent | src/lib/streamingJsonParser.ts:152-167 | Gives exactly `FieldContentExtracted`. |
| StreamingJson.StreamingJsonParser.ExtractTextContent | src/lib/streamingJsonParser.ts:169-183 | Gives exactly `TextExtracted`. |
| StreamingJson.StreamingJsonParser.ExtractFileField | src/lib/streamingJsonParser.ts:185-215 | Gives exactly `FileFieldExtracted` for `FileCode` or `FileText`. |
| StreamingJson.StreamingJsonParser.ExtractConclusionContent | src/lib/streamingJsonParser.ts:217-232 | Gives exactly `ConclusionExtracted`. |
| StreamingJson.StreamingJsonParser.CheckIfParsingComplete | src/lib/streamingJsonParser.ts:240-246 | Gives exactly `CompletionChecked`. |
| StreamingJson.StreamingJsonParser.Reset | src/lib/streamingJsonParser.ts:260-263 | Empty buffer and the initial state. |
| StreamingJson.StreamingJsonParser.GetState | src/lib/streamingJsonParser.ts:265-267 | Returns the state. |

## Left out

- Network, `localStorage`, `console` logging and Svelte subscription
  notifications are not modelled. The stores are modelled as their state
  and its updates.
- Message timestamps (`new Date()`) are not modelled.
- Ids drawn from `crypto.randomUUID` are inputs to the operations that
  create them.
- `JSON.parse` (in `parseToolCall` and `loadSessionMessages`) is an
  uninterpreted function parameter: its result is all the model uses.
- The callbacks of `StreamProcessor` become a list of emitted events, in
  emission order. `setCallbacks` is therefore not modelled.
- The callbacks of `StreamingJsonParser` (`onFieldStart`, `onFieldContent`,
  `onFileStart`, `onParsingComplete`) are not modelled, nor is its
  `setCallbacks`; the model captures only the state changes.
- EmailTool.EmailToolStore.Start: the replay that `start` defers with
  `setTimeout(…, 0)` runs synchronously. Events arriving between `start`
  and the replay are not interleaved.
- EmailTool.EmailToolStore.ExpireBuffer: the five-second timer that clears
  the buffer is a separate operation the caller invokes. Timer
  cancellation and real time are not modelled.
- `sessionStore.initializeFromStorage`, `generateSessionId` and
  `formatTimestamp` depend on `localStorage`, randomness and the clock, and
  are not part of this model.
- Strings are sequences of Unicode characters. JavaScript counts UTF-16
  code units, so for text outside the Basic Multilingual Plane:
  - lengths and indices differ (`truncateText`, `slice(buffer.length)`);
  - a surrogate pair may be split differently.
- Files.NewItem: the browser `File` object is reduced to its name, size
  and type.
- Chat.ChatStore.RegenerateAIResponse: the source splices the message list
  in place and hands the same state object back to the store. The model
  builds the new list as a value, so aliasing of that array is not
  captured.
- SimpleCode.SimpleCodeParser.Parse: the source returns its own
  `segments` array, and later calls change that array in place. The model
  returns a value, so a caller holding an earlier result does not see it
  change.
- SimpleCode.SimpleCodeParser.GetSegments: returns a value where the
  source returns its live `segments` array. Later in-place changes to that
  array are not visible through an earlier result.
- MarkdownStream.MarkdownStreamParser.Parse: the source returns its own
  `chunks` array, and later calls push to it and complete its last chunk
  in place. The model returns a value, so that aliasing is not captured.
- MarkdownStream.MarkdownStreamParser.GetChunks: returns a value where the
  source returns its live `chunks` array. Later in-place changes are not
  visible through an earlier result.
- StreamingJson.StreamingJsonParser.ProcessChunk: the source returns a
  shallow copy of its state. The copy shares `fieldContents` and
  `renderingStates`, which later chunks change in place. The model returns
  a value, so an earlier result never changes.
- StreamingJson.StreamingJsonParser.GetState: returns a value where the
  source's shallow copy shares its nested objects with the parser. Later
  changes to those objects are not visible through an earlier result.
- Utils.TruncateText: `maxLength` is an integer. JavaScript accepts a
  fractional number there, which the model cannot express.
- Files.FileStore.RemoveFile: the index is an integer. A fractional index,
  which matches no position in the source, cannot be expressed.
- Files.ReplaceAt: the index is an integer. A fractional index cannot be
  expressed.
- EmailTool.ProgressSet: the iteration number is an integer. JavaScript
  numbers may be fractional, which the model cannot express.
- Artifact.FileKey: the version is an integer printed in plain decimal.
  JavaScript prints a number of 10^21 or more in exponent form (`1e+21`),
  and prints a fractional version with its fraction (`1.5`). Neither
  form is modelled.
- Sessions.MoveToFront: session numbers are integers. A JavaScript number
  may be fractional or NaN. Since `NaN !== NaN`, the filter would keep
  every NaN entry. The model cannot express either case.
- Sessions.FirstSession: session numbers are integers, so 0 is the only
  falsy first entry. In JavaScript, NaN and -0 are falsy too.
- FieldStream.FinishToolCall: a successful `JSON.parse` is reduced to the
  `tool_name` and `query` members as strings. A missing or falsy member is
  the empty string. Truthy non-string members, such as numbers or objects,
  are not distinguished.
- Segment and chunk ids are the counter value plus the kind. The strings
  `text-N`, `code-N` and `inline-N` that the source builds from them are
  not spelled out.
- The other stores of the application (authentication, settings, credits,
  theme, sharing, history, analytics, container timer) and the socket and
  API clients are not part of this model.
