# OmniChat conversation core in Dafny

This project models the conversation core of OmniChat, a single-page chat client for a hosted
language model. It has two parts.

- **The chat component** (`components/ChatInterface.tsx`) owns the transcript (a list of
  user and model messages), the input box and the busy flag.
  - On mount it shows a greeting.
  - `handleSend` runs one turn: the guard, a user message, an empty streaming placeholder, one
    patch of the placeholder per streamed chunk, then finalisation or an error message.
  - `resetChat` replaces the session and the transcript.
  - The typing indicator shows only while loading with a user message last.
- **The model client** (`services/gemini.ts`) does three things:
  - checks the API key;
  - holds one chat session in a module-level variable, created lazily or replaced;
  - forwards only the chunks that carry non-empty text, in the order received.

The files follow that structure:

| file | module | what it holds |
|---|---|---|
| `wrappers.dfy` | `Wrappers` | `Option`, `Result` and `Outcome` |
| `types.dfy` | `Types` | `Role`, `MessageId` and `Message` (`types.ts`) |
| `trim.dfy` | `TextTrim` | ECMAScript `String.prototype.trim` |
| `transcript.dfy` | `Transcript` | the pure `setMessages` updaters |
| `gemini.dfy` | `Gemini` | the functions of the client, plus class `Service` for its session state |
| `chat_interface.dfy` | `ChatInterface` | class `Component` for the component and its state |
| `scenarios.dfy` | `Scenarios` | client code that runs whole interactions using only the contracts |

The pure `setMessages` updaters in `Transcript` are spread-append, patch-by-id through
`prev.map`, and the fold of streamed chunks into the placeholder.

These are the modelling choices:

- **Message ids.** `Date.now()` is a `clock` field that advances by one on each read. Every
  id it yields is therefore fresh. `Component.Valid()` states the assumption that the ids in
  the transcript are distinct, and every operation keeps it.
- **The in-flight turn.** The closure state of `handleSend` (the trimmed prompt, `botMsgId` and
  the accumulator `fullResponse`) is the field `turn`. `Valid()` states that `isLoading` holds
  exactly while a turn is in flight. It also states that the placeholder in the transcript
  shows the accumulator.
- **The remote side.** One reply of the remote side is a `ReplyStream`. Either opening the
  stream fails, or the stream yields a sequence of optional chunk texts and then completes or
  breaks.
- **The chunk callback.** `Service.SendMessageStream` returns the sequence of arguments it
  passes to `onChunk`. The component applies them in order; the callback has no effect on the
  stream itself.
- **Session configuration.** A session records its model name and a `Persona` tag, not a
  copy of the system-instruction text. `Gemini.InstructionOf` maps the tag to that text
  (`services/gemini.ts:19`). `InitializeChat` promises the model name and the instruction
  through it.
- **Failed turns.** Nothing in the `catch` block (`components/ChatInterface.tsx:118-128`)
  patches the placeholder. After a failed turn it therefore keeps its partial text and
  `isStreaming == Some(true)`, and `components/MessageBubble.tsx:76-78` goes on drawing its
  streaming indicator. The model states exactly this.
- **A missing key at reset.** `resetChat` calls `initializeChat` first. When that throws, the
  transcript update is skipped, so `Reset` returns `Fail(MissingApiKey)` and changes nothing.
  `Mount` is given the same outcome, a failure with the component state unchanged. What React
  does with that error afterwards is listed below under "Left out".
- **A missing key during a send.** `sendMessageStream` calls `getChatSession()` at
  `services/gemini.ts:36`, before its `try` at line 38. The error therefore propagates
  without being logged. It is caught by the `catch` of `handleSend`
  (`components/ChatInterface.tsx:118`), and the turn ends with the error message.

## Model

| member | source | states |
|---|---|---|
| TextTrim.TrimStartSpec | components/ChatInterface.tsx:65 | `trimStart` removes a blank prefix and keeps a suffix that does not begin with white space |
| TextTrim.TrimEndSpec | components/ChatInterface.tsx:65 | `trimEnd` removes a blank suffix and keeps a prefix that does not end with white space |
| TextTrim.Trim | components/ChatInterface.tsx:67 | the trimmed text is no longer than the input, and a non-empty one neither starts nor ends with white space |
| TextTrim.TrimIsInfix | components/ChatInterface.tsx:67 | the trimmed text is a contiguous piece of the input, with only blank text cut on either side |
| TextTrim.TrimEmptyIffBlank | components/ChatInterface.tsx:65 | `input.trim()` is empty exactly when the input is all white space |
| TextTrim.TrimStripsPadding | components/ChatInterface.tsx:67 | blank padding around a text with non-white-space ends is removed and the text is returned unchanged |
| TextTrim.TrimIdempotent | components/ChatInterface.tsx:67 | trimming an already trimmed text changes nothing |
| ChatInterface.CanSendIff | components/ChatInterface.tsx:65 | a send passes the guard exactly when not loading and the input has a non-white-space character |
| ChatInterface.SendButtonMatchesGuard | components/ChatInterface.tsx:198 | the send button is disabled exactly when the guard of `handleSend` would return early |
| ChatInterface.Component.constructor | components/ChatInterface.tsx:9-12 | the initial state: empty transcript, empty input, not loading, not initialised |
| ChatInterface.Component.Mount | components/ChatInterface.tsx:19-33 | the first mount creates a session and makes the transcript exactly the greeting, the only effect; later runs change nothing; without a key nothing changes |
| ChatInterface.Component.Type | components/ChatInterface.tsx:187 | typing replaces the input and nothing else |
| ChatInterface.Component.Send | components/ChatInterface.tsx:64-93 | an ignored send changes nothing; an accepted one clears the input, sets loading and appends exactly the user message (trimmed text) and the empty streaming placeholder after the unchanged transcript |
| ChatInterface.Component.ApplyChunk | components/ChatInterface.tsx:98-106 | the accumulator grows by the chunk and the message carrying the placeholder id shows it; the transcript is unchanged once that id is gone; loading stays set |
| ChatInterface.Component.ApplyChunks | components/ChatInterface.tsx:96-107 | after chunks c1..ck the accumulator has grown by c1+…+ck and the transcript is the fold of the k patches |
| ChatInterface.Component.Finalize | components/ChatInterface.tsx:109-131 | the placeholder's streaming flag is cleared via patch-by-id and loading is cleared |
| ChatInterface.Component.ReportError | components/ChatInterface.tsx:118-131 | exactly one fixed error message is appended after the unchanged transcript, the placeholder keeps its partial text and flag, and loading is cleared |
| ChatInterface.Component.Reset | components/ChatInterface.tsx:141-152 | a new session is created and the transcript becomes exactly the reset greeting whatever it held; a turn in flight continues; without a key nothing changes |
| ChatInterface.Component.StreamReply | components/ChatInterface.tsx:95-107 | a held session is kept; with none held, one is created if the key is usable and otherwise none stays held; the forwarded chunks are the filtered reply texts, and the last placeholder ends showing their concatenation, still streaming, with every earlier message kept and the turn still in flight |
| ChatInterface.Component.RunTurn | components/ChatInterface.tsx:95-131 | the placeholder ends with the concatenation of the forwarded chunks, its flag is cleared on success and kept on failure, the error message follows it on failure only, loading is cleared on every path; the session is kept, created or left absent as in `SendMessageStream` |
| ChatInterface.Component.HandleSend | components/ChatInterface.tsx:64-132 | a whole turn: either nothing changes and no stream is started, or the transcript gains the user message, the placeholder with the forwarded text and, on failure, the error message, with loading cleared, and the session kept, created or left absent as in `SendMessageStream` |
| ChatInterface.Component.TypingIndicatorNeverShown | components/ChatInterface.tsx:164 | in every reachable state the typing indicator condition is false, because a model message is last while loading (the placeholder, or the reset greeting after a reset during the turn) |
| ChatInterface.ChunkKeepsInSync | components/ChatInterface.tsx:99-106 | after one callback the placeholder shows the grown accumulator, and the role of the last message is unchanged |
| ChatInterface.StreamedTurn | components/ChatInterface.tsx:93-107 | folding the chunks into a placeholder that is last makes it show their concatenation and keeps every earlier message |
| ChatInterface.FinalizedTurn | components/ChatInterface.tsx:110-116 | finalising a last placeholder flips only its streaming flag to false |
| ChatInterface.BegunTurnValid | components/ChatInterface.tsx:72-93 | the two appends keep ids distinct and make the placeholder the only message with the new id |
| ChatInterface.AppendFreshKeepsIds | components/ChatInterface.tsx:72-128 | appending messages whose ids come from fresh clock readings keeps all ids distinct |
| Transcript.ApplyPatch | components/ChatInterface.tsx:100-116 | the spread update replaces the text or the streaming flag only, keeping id and role |
| Transcript.PatchById | components/ChatInterface.tsx:100-116 | `prev.map` by id keeps the length, patches every message with the id and keeps every other message |
| Transcript.PatchAbsentIsIdentity | components/ChatInterface.tsx:100-116 | patching an id no message has (after a reset) is the identity |
| Transcript.PatchAt | components/ChatInterface.tsx:100-106 | with distinct ids, patching the id at position k is a point update at k |
| Transcript.PatchKeepsIds | components/ChatInterface.tsx:100-116 | patching keeps the id at every position, hence whether the patched id is present, the distinctness of the ids and the clock bound |
| Transcript.UpdateKeepsDistinct | components/ChatInterface.tsx:103 | replacing a message by one with the same id keeps ids distinct |
| Transcript.PatchTextLastWriteWins | components/ChatInterface.tsx:98-106 | a later text patch fully overwrites an earlier one |
| Transcript.ConcatAppend | components/ChatInterface.tsx:96-99 | the accumulation of two runs of chunks is the concatenation of their accumulations |
| Transcript.ConcatSnoc | components/ChatInterface.tsx:99 | `fullResponse += chunk` appends the chunk to the accumulation |
| Transcript.ConcatCons | components/ChatInterface.tsx:96-99 | the accumulation of a run is its first chunk followed by the accumulation of the rest |
| Transcript.FoldChunksOne | components/ChatInterface.tsx:98-106 | a single callback is a single patch with the grown accumulator |
| Transcript.FoldChunksStep | components/ChatInterface.tsx:98-106 | each further chunk is one further patch, so every prefix of the chunks is an intermediate state |
| Transcript.FoldChunksSplit | components/ChatInterface.tsx:98-106 | folding `a` then `b` is folding `a + b` |
| Transcript.FoldChunksAt | components/ChatInterface.tsx:96-106 | with distinct ids the fold changes only the placeholder, which ends with the accumulator followed by all chunks in order |
| Transcript.TextPatchAt | components/ChatInterface.tsx:100-106 | a text patch at a known position is a point update that keeps ids distinct |
| Transcript.FoldChunksAbsent | components/ChatInterface.tsx:100-106 | the chunks of a turn whose placeholder was reset away change nothing |
| Gemini.GetClient | services/gemini.ts:6-12 | a client is built exactly when the key is present and non-empty, otherwise `MissingApiKey` |
| Gemini.Delivered | services/gemini.ts:41-46 | the callback arguments are non-empty texts taken from the received chunks, no more of them than chunks |
| Gemini.DeliveredAppend | services/gemini.ts:41-46 | forwarding preserves receipt order: the texts of earlier chunks come first |
| Gemini.DeliveredSkipsEmpty | services/gemini.ts:43 | chunks with absent or empty text cause no callback |
| Gemini.DeliveredKeepsText | services/gemini.ts:43-44 | when every chunk has text, each is forwarded unchanged and in order |
| Gemini.ForwardChunks | services/gemini.ts:41-46 | the `for await` loop forwards exactly the filtered chunk texts, in receipt order |
| Gemini.Service.constructor | services/gemini.ts:4 | the module is loaded with no session held |
| Gemini.Service.InitializeChat | services/gemini.ts:14-23 | with a key, always replaces the held session by a new one (built by the helper `NewChat`) with model `gemini-2.5-flash` and the fixed system instruction, distinct from the old, and returns it; without a key fails and changes nothing |
| Gemini.Service.GetChatSession | services/gemini.ts:25-30 | a held session is returned unchanged; otherwise one is created; on success a session is held |
| Gemini.Service.SendMessageStream | services/gemini.ts:32-51 | obtains the session (its failure propagates), forwards the filtered chunks, and rethrows an opening or reading failure after the chunks already forwarded |
| Scenarios.DeliveredOfPartialReply | services/gemini.ts:41-46 | the chunks `a`, absent, `""`, `b` forward exactly `a` then `b` |
| Scenarios.ConcatPair | components/ChatInterface.tsx:96-99 | accumulating `a` then `b` gives `a + b` |

## Left out

- `components/MessageBubble.tsx`, `components/TypingIndicator.tsx` and `App.tsx` are pure
  presentation. Only the typing-indicator condition (`components/ChatInterface.tsx:164`) is
  modelled.
- The scrolling and textarea auto-resize effects (`components/ChatInterface.tsx:35-62`,
  line 69) are DOM manipulation and timers.
- What happens after a failed mount is not modelled. Without a key, `initializeChat` throws
  inside the mount effect (`components/ChatInterface.tsx:19-21`). React treats an uncaught
  effect error like a render error, and `App.tsx` has no error boundary, so the component tree
  is unmounted. `Component.Mount` only reports `Fail(MissingApiKey)` with the state unchanged.
  The model does not capture that the component is then gone.
- `handleKeyDown` (`components/ChatInterface.tsx:134-139`) only forwards Enter without Shift
  to `handleSend`. It is a keyboard-event filter, not transcript logic.
- `timestamp` fields and `new Date()` are wall-clock readings with no effect on the logic, so
  `Message` has no timestamp.
- Collisions of `Date.now()` ids are not modelled. In the source the error message's id, or a
  quickly repeated turn's ids, can equal an earlier id within the same millisecond. The model
  gives every reading a fresh value.
- The `@google/genai` SDK, the network, `process.env` and `console.error` are abstracted.
  - A reply is a `ReplyStream` value.
  - The key is the `Service.apiKey` parameter.
  - Logging is dropped.
- Async interleaving is restricted. A turn runs as sequential steps; in the scenarios a reset
  can happen between `Send` and the callbacks. Arbitrary interleavings of two turns are not
  modelled. The guard rules out two turns in flight, except across the render delay of
  `setIsLoading`, which the model does not capture.
- The `ChatState` interface (`types.ts:14-18`) is unused by the source.
- Strings are sequences of Unicode scalar values. JavaScript's UTF-16 code units (surrogate
  pairs) are not distinguished.
- `Gemini.Delivered`'s own contract only bounds its result. Its exact content is stated by
  `Gemini.ForwardChunks`, `Gemini.DeliveredAppend`, `Gemini.DeliveredSkipsEmpty` and
  `Gemini.DeliveredKeepsText`.
