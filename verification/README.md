# Ingres client core in Dafny

A Dafny model of the logic at the heart of the Ingres groundwater assistant's
web client. It covers six pieces of that logic:

- **Streaming.** The `streamChat` reader in `src/lib/pythonApi.ts` reads the
  chat endpoint's event stream. It keeps a line buffer across chunks and
  classifies each line. It stops at `[DONE]` and pulls a delta out of three
  JSON shapes. A line that fails to parse is pushed back. At end of input, a
  final flush reads what is left. The session ends with exactly one terminal
  callback.
- **`useChat` hook.** It has a submit guard, a streaming placeholder, delta
  reconciliation, removal of the placeholder on error, and the
  conversation-title rule. It also handles delete in order (messages first)
  and rename.
- **`useChatPython` hook.** Each send is one request that answers with the
  whole reply. A conversation id from the answer is taken only when the chat
  had none. Its delete and rename are stubs.
- **CSV loaders.** These are in `src/lib/groundwaterData.ts`. They skip the
  header and filter on column count. Flags are set only by the exact text
  "Yes". The DWLR loader reads at most 500 lines and keeps the first reading
  per station. The file also holds the category colour map.
- **Map page.** It counts units per state and colours a state by its
  extraction percentage. It shows totals, the selected state's units and zoom
  controls.
- **Map component.** It lists states and applies the state and category
  filters. It tallies categories and projects latitude and longitude onto the
  drawing. Its water-quality marker is red when a sample has issues.

Everything is modelled as pure functions over immutable datatypes.

**Modules.** Each module models one of these:

| module | models |
|---|---|
| `Wrappers`, `Text`, `Seqs` | JavaScript's `null`, the string primitives the client uses, and the array idioms it uses |
| `SsePayload` | the `??` chain that picks a delta out of a parsed payload |
| `SseBuffer` | the line buffer, over any line reader and parser |
| `StreamChat` | the concrete line classification, the final flush and the whole session |
| `Messages` | the chat state shared by both hooks |
| `UseChat`, `UseChatPython` | the two hooks |
| `GroundwaterData` | the loaders |
| `MapPage` | the map page |
| `IndiaMap` | the map component |

**Parameters instead of calls.** The model does not make any of these calls;
each one becomes a parameter:

- **The network.** The response body is a sequence of already-decoded text
  chunks. A read that throws is an optional fault after the last chunk.
- **`JSON.parse`.** It is a function parameter `parse` that returns either the
  three optional fields or `ParseFail`. `ParseFail` stands for anything that
  throws inside the `try`, including a payload such as `null` whose field
  access throws.
- **`parseFloat` and `parseInt`.** They are a `NumberParsers` parameter.
- **`crypto.randomUUID`.** Ids are parameters. Lemmas assume the assistant id
  is fresh.
- **Persistence.** Each database call is a success/failure input, and the
  call itself is recorded as an effect in a list.

**Behaviours kept as the code has them.**

- **A parse failure is not retried later.** A data line that fails to parse
  is pushed back with `\n` onto the front of the buffer, and the inner loop
  breaks. The line is already complete, and `JSON.parse` is deterministic, so
  every later chunk meets the same line first and breaks again. From then on:
  - the main loop delivers nothing more;
  - a later `[DONE]` does not stop reading;
  - everything after that line reaches the client only through the final
    flush, where the bad line is dropped.

  `StreamChat.ParseFailureStalls` states this.
- **The flush does not stop at `[DONE]`.** The final flush skips a `[DONE]`
  line (`continue`) instead of stopping. When `[DONE]` stopped the loop,
  anything non-blank after it in the buffer is still delivered. The no-text-lost
  and chunk-split results therefore assume nothing but blank text follows
  `[DONE]`.
- **Division by zero in the map page.** A state's `avgExtraction` can be an
  infinity or NaN. `getExtractionColor` then paints NaN and +Infinity in the
  last band (red) and -Infinity in the first (green). This is modelled with a
  four-valued `JsNumber`.
- **Unknown categories in the map component.** `getCategoryStats` increments
  `stats[unit.category]` even when the category is not one of the four. That
  creates an extra property holding NaN, which the model keeps.

## Model

| member | source | states |
|---|---|---|
| SsePayload.Extract | src/lib/pythonApi.ts:92 | the `??` chain picks the first of `choices[0].delta.content`, `content`, `text` that is not null or undefined |
| SsePayload.DeltaOf | src/lib/pythonApi.ts:92-93 | a payload yields at most one delta, and never an empty one |
| SsePayload.DeltaDialects | src/lib/pythonApi.ts:92-93 | each of the three JSON shapes delivers its text; an empty `delta.content` blocks the fallback and delivers nothing |
| SseBuffer.StripCR | src/lib/pythonApi.ts:79 | at most one trailing `\r` is removed and no newline is introduced |
| SseBuffer.Drain | src/lib/pythonApi.ts:74-98 | the inner loop emits only non-empty deltas and never grows the buffer |
| SseBuffer.DrainStep | src/lib/pythonApi.ts:75-97 | one cut line is skipped, stops the loop at `[DONE]` leaving the rest buffered, is pushed back with `\n` on a parse failure, or emits its delta |
| SseBuffer.DrainLeavesNoCompleteLine | src/lib/pythonApi.ts:75-97 | unless stopped, the inner loop leaves no complete line in the buffer, except a pushed-back line that failed to parse |
| SseBuffer.DrainKeepsText | src/lib/pythonApi.ts:74-97 | no text is lost: the deltas emitted plus a one-pass read of the leftover buffer and any later text equal a one-pass read of all the text |
| SseBuffer.AllDeltasCut | src/lib/pythonApi.ts:75-77 | reading text cut at its first newline is reading the first line, then the rest |
| SseBuffer.BlankNoDeltas | src/lib/pythonApi.ts:80 | text of whitespace only yields no delta |
| SseBuffer.BlockedStaysBlocked | src/lib/pythonApi.ts:94-97 | after a push-back, more text yields no delta, does not stop, and leaves the failing line first |
| SseBuffer.ReadLoop | src/lib/pythonApi.ts:69-99 | the read loop emits only non-empty deltas |
| SseBuffer.ReadLoopBlocked | src/lib/pythonApi.ts:69-97 | once a line is pushed back, no later chunk yields a delta in the loop |
| SseBuffer.ReadLoopKeepsText | src/lib/pythonApi.ts:69-99 | over all chunks, the loop's deltas plus a one-pass read of the leftover buffer equal a one-pass read of the whole text, when only blank text follows `[DONE]` |
| SseBuffer.ReadLoopStops | src/lib/pythonApi.ts:84-87 | after `[DONE]` no further chunk is read |
| SseBuffer.ReadLoopAppend | src/lib/pythonApi.ts:69-72 | reading two runs of chunks is reading the second run from the buffer the first left |
| SseBuffer.FramesReadBack | src/lib/pythonApi.ts:75-93 | text made of `data: p` frames followed by blank lines reads back as the payloads' deltas, in order |
| SseBuffer.FramesQuiet | src/lib/pythonApi.ts:84-87 | a frame stream followed by a quiet tail has nothing after any `[DONE]` |
| StreamChat.ClassifySpec | src/lib/pythonApi.ts:80-87 | a line is data exactly when it starts with `data: `, its payload is the rest after 6 characters trimmed, `[DONE]` is the stop sentinel; the `:` and blank tests are subsumed |
| StreamChat.ClassifyStripCR | src/lib/pythonApi.ts:79 | stripping one trailing `\r` never changes how a line is read |
| StreamChat.KindIsRegular | src/lib/pythonApi.ts:79-80 | the line reader ignores one trailing `\r` and skips whitespace-only lines |
| StreamChat.FlushLinesAreLinesDeltas | src/lib/pythonApi.ts:103-117 | the flush reads each leftover line with the loop's classification, skips `[DONE]` instead of stopping, and drops lines that fail to parse |
| StreamChat.FlushIsAllDeltas | src/lib/pythonApi.ts:101-118 | the flush is a one-pass read of the buffer; its `trim()` guard changes nothing |
| StreamChat.Flush | src/lib/pythonApi.ts:101-118 | the flush delivers only non-empty deltas |
| StreamChat.FramesAreRead | src/lib/pythonApi.ts:80-83 | every `data: p` frame with a trimmed one-line payload is read as that payload |
| Text.NatToString | src/lib/pythonApi.ts:56 | a status is written as decimal digits that denote it, with no leading zero |
| Text.NumeralIsUnique | src/lib/pythonApi.ts:56 | any digit string without a leading zero that denotes the status is exactly the text printed for it |
| StreamChat.NotOkMessage | src/lib/pythonApi.ts:53-57 | the message is `error`, else `detail`, else `Request failed with status N`; an unreadable body gives `Request failed`; a `null` body gives the message of the `TypeError` its `.error` read throws, as the outer `catch` passes it on |
| StreamChat.NotOkStatusText | src/lib/pythonApi.ts:55 | with neither `error` nor `detail` usable, the message ends in the status's decimal numeral |
| StreamChat.DeltaEvents | src/lib/pythonApi.ts:93 | one `onDelta` per delta, in order |
| StreamChat.Session | src/lib/pythonApi.ts:28-125 | exactly one terminal callback and it comes last; every earlier callback is a non-empty delta; fetch failure, non-OK and missing body give one `onError` each; without a read fault the terminal is `onDone` |
| StreamChat.SessionCompletes | src/lib/pythonApi.ts:69-120 | a completed stream delivers the loop's deltas, then the flush's, then `onDone` |
| StreamChat.SessionFaults | src/lib/pythonApi.ts:121-124 | a read that throws before `[DONE]` ends with `onError` after the loop's deltas, and the flush never runs |
| StreamChat.SessionIsOnePass | src/lib/pythonApi.ts:69-120 | with only blank text after `[DONE]`, the session delivers a one-pass read of the concatenated chunks |
| StreamChat.ChunkSplitInvariance | src/lib/pythonApi.ts:69-120 | the same text cut into chunks differently gives the same callbacks |
| StreamChat.DoneStopsReading | src/lib/pythonApi.ts:84-87 | chunks after `[DONE]`, and a read fault after them, change nothing |
| StreamChat.ParseFailureStalls | src/lib/pythonApi.ts:94-97 | after a push-back no later chunk yields a delta in the loop, and a later `[DONE]` does not stop it |
| StreamChat.FrameLine | src/lib/pythonApi.ts:81-83 | `data: p` reads as the payload `p` for a trimmed one-line payload |
| StreamChat.DoneLine | src/lib/pythonApi.ts:84 | `data: [DONE]` is the stop sentinel |
| StreamChat.ServerStreamRoundTrip | src/lib/pythonApi.ts:69-120 | a server stream of frames ending `data: [DONE]`, however chunked, is delivered as the payloads' deltas then `onDone` |
| StreamChat.TruncatedLastFrame | src/lib/pythonApi.ts:101-118 | a last frame without a newline is still delivered, by the flush |
| StreamChat.SplitHelloFrame | src/lib/pythonApi.ts:69-120 | a frame split inside its JSON across two chunks is delivered once, whole |
| Messages.History | src/hooks/useChat.ts:135 | the history sent upstream is each message's role and content, in order |
| Messages.UpdateWhere | src/hooks/useChat.ts:138-143 | the message with the id is rewritten, every other message and the length are unchanged |
| Messages.RemoveById | src/hooks/useChat.ts:164 | exactly the messages with the id are removed |
| Messages.UpdateLast | src/hooks/useChat.ts:138-143 | when the placeholder's id is fresh, only the placeholder changes |
| Messages.RemoveLast | src/hooks/useChat.ts:164 | removing a freshly added placeholder gives back the list before it |
| Messages.Submit | src/hooks/useChat.ts:121-130 | loading starts; the list is the previous one, then the user message with untrimmed content, then an empty placeholder with `isStreaming` true |
| Messages.SubmitThenUpdate | src/hooks/useChatPython.ts:56-84 | rewriting the placeholder after a submit leaves the previous messages and the user message as they were |
| Messages.SubmitThenRemove | src/hooks/useChatPython.ts:85-88 | removing the placeholder after a submit leaves the previous messages and the user message |
| Messages.LoadMessages | src/hooks/useChatPython.ts:35-47 | on failure nothing changes; on success the records become the messages in order, keeping id, role and content with no streaming flag, and the conversation is set |
| Messages.LoadedHistory | src/hooks/useChatPython.ts:38-42 | the loaded messages' history is the records' roles and contents |
| Messages.StartNewChat | src/hooks/useChatPython.ts:100-103 | messages are cleared and the conversation dropped; loading is untouched |
| Messages.NewChatIsInitial | src/hooks/useChat.ts:176-179 | outside a send, a new chat is the initial state |
| UseChat.Title | src/hooks/useChat.ts:65 | at most 53 characters; the input itself when it has at most 50; otherwise its first 50 followed by `...` |
| UseChat.GetOrCreate | src/hooks/useChat.ts:104-107 | an existing conversation is kept with no effect; otherwise a conversation titled after the message is requested, and only when the insert returns an id does it become the conversation and the list reload; messages and loading are untouched |
| UseChat.OnDelta | src/hooks/useChat.ts:136-145 | the response so far grows by the delta and the placeholder shows it |
| UseChat.OnDone | src/hooks/useChat.ts:146-161 | only the placeholder stops streaming; the reply is saved only when non-empty; loading ends |
| UseChat.OnError | src/hooks/useChat.ts:162-171 | exactly the placeholder is removed and loading ends |
| UseChat.FollowAppend | src/hooks/useChat.ts:134-172 | following two runs of callbacks is following one after the other |
| UseChat.FollowDeltas | src/hooks/useChat.ts:136-145 | after any run of deltas the placeholder holds their concatenation and nothing else changes |
| UseChat.Start | src/hooks/useChat.ts:100-135 | the guard ignores blank content or a send in flight; failing to create a conversation ends loading with messages unchanged and no stream; otherwise the stream opens with the previous messages plus the user message |
| UseChat.SendMessage | src/hooks/useChat.ts:100-118 | a guarded send changes nothing; a failed creation starts no stream |
| UseChat.SendDelivers | src/hooks/useChat.ts:121-161 | a stream of deltas then done leaves the user message and the reply, not streaming; saves the reply iff non-empty |
| UseChat.SendFails | src/hooks/useChat.ts:162-171 | a stream ending in an error leaves the user message, drops the placeholder and saves no reply |
| UseChat.SessionShape | src/lib/pythonApi.ts:28-125 | every session is a run of deltas followed by one terminal callback |
| UseChat.FollowSettles | src/hooks/useChat.ts:146-171 | any run of callbacks ending in `onDone` or `onError` leaves loading off |
| UseChat.SendSettles | src/hooks/useChat.ts:146-171 | whatever the stream does, loading ends |
| UseChat.DeleteConversation | src/hooks/useChat.ts:182-227 | messages are deleted first; the row delete happens only if that succeeded; success iff both succeed; the view is cleared only when the current conversation was deleted |
| UseChat.RenameConversation | src/hooks/useChat.ts:230-248 | the result is the update's success, and the list reloads exactly then |
| UseChatPython.Complete | src/hooks/useChatPython.ts:71-96 | on success the placeholder takes the reply and stops streaming; on failure it is removed; the id is adopted only when there was none and the answer has one; loading ends either way |
| UseChatPython.SendMessage | src/hooks/useChatPython.ts:50-69 | a guarded send changes nothing; otherwise the request carries the previous messages plus the user message and loading ends |
| UseChatPython.SendReplies | src/hooks/useChatPython.ts:78-84 | a successful send leaves the previous messages, the user message and the reply, not streaming |
| UseChatPython.SendFails | src/hooks/useChatPython.ts:85-96 | a failed send removes exactly the placeholder and keeps the conversation |
| UseChatPython.ConversationAdopted | src/hooks/useChatPython.ts:72-75 | the conversation changes only from none to the answer's id |
| UseChatPython.DeleteConversation | src/hooks/useChatPython.ts:106-113 | always fails and changes nothing |
| UseChatPython.RenameConversation | src/hooks/useChatPython.ts:116-123 | always fails and changes nothing |
| Text.IndexOf | src/lib/pythonApi.ts:75 | the first occurrence of the character, or -1 exactly when it is absent |
| Text.Trim | src/lib/groundwaterData.ts:63 | the result is trimmed, and empty exactly when the input is whitespace only |
| Text.TrimSlice | src/lib/groundwaterData.ts:63 | trim removes only whitespace, from the two ends, and leaves the middle in place |
| Text.SplitJoinsBack | src/lib/groundwaterData.ts:63 | joining the parts with the separator gives back the text |
| Text.SplitCount | src/lib/groundwaterData.ts:67 | there is one more part than separators |
| GroundwaterData.RowsAppend | src/lib/groundwaterData.ts:66-87 | records follow line order |
| GroundwaterData.RowsSelect | src/lib/groundwaterData.ts:66-68 | at most one record per line; a line with enough fields always yields its record; every record comes from such a line |
| GroundwaterData.LoadRows | src/lib/groundwaterData.ts:63-87 | the loop yields exactly the records of the wide lines after the header |
| GroundwaterData.LoadAssessmentUnits | src/lib/groundwaterData.ts:60-90 | rows with at least 15 fields after the header; at most one fewer record than lines |
| GroundwaterData.FlagsAreExactYes | src/lib/groundwaterData.ts:112-126 | each exceedance flag is set exactly when its column is the text `Yes` |
| GroundwaterData.SkippedColumns | src/lib/groundwaterData.ts:113-117 | columns 12 and 16 are never read; `tds` comes from 13 and `chloride` from 17 |
| GroundwaterData.LoadWaterQuality | src/lib/groundwaterData.ts:92-132 | rows with at least 27 fields after the header; at most one fewer record than lines |
| GroundwaterData.DwlrWindow | src/lib/groundwaterData.ts:143 | the lines looked at are lines 1 to 499, in order, or all lines after the header when there are fewer |
| GroundwaterData.DwlrKeptIsFirstPerStation | src/lib/groundwaterData.ts:141-146 | the kept lines are the first wide line of each station, in order of first appearance |
| GroundwaterData.SelectReadings | src/lib/groundwaterData.ts:141-160 | the loop with its seen-set keeps exactly the first wide line per station |
| GroundwaterData.LoadDwlrData | src/lib/groundwaterData.ts:134-163 | the readings of the first wide line per station within the window; at most 499 |
| GroundwaterData.DwlrStations | src/lib/groundwaterData.ts:141-160 | station ids are distinct and in order of first appearance, and each reading is its station's first row |
| GroundwaterData.CategoryColors | src/lib/groundwaterData.ts:165-178 | the four categories get four different colours and everything else the grey fallback |
| Seqs.Filter | src/components/IndiaMap.tsx:50-54 | keeps exactly the elements that pass, and never more than the input |
| Seqs.FilterAppend | src/pages/MapPage.tsx:129-131 | a filter keeps the relative order of what it keeps |
| Seqs.Distinct | src/components/IndiaMap.tsx:47 | no duplicates and exactly the input's elements |
| Seqs.DistinctOrder | src/components/IndiaMap.tsx:47 | elements come in order of first appearance |
| Seqs.FirstPerKeyKeepsFirst | src/lib/groundwaterData.ts:141-146 | every element kept is the earliest with its key |
| MapPage.ExtractionBands | src/pages/MapPage.tsx:48-53 | green below 70, amber from 70 below 90, orange from 90 to 100, red above 100; NaN and +Infinity are red |
| MapPage.Percent | src/pages/MapPage.tsx:102-105 | finite exactly when the recharge is non-zero, and then times the recharge it is 100 times the extraction; with zero recharge it is +Infinity, -Infinity or NaN as the extraction is positive, negative or zero |
| MapPage.Find | src/pages/MapPage.tsx:74 | a state's entry position, or -1 exactly when it has none |
| MapPage.Get | src/pages/MapPage.tsx:74 | the entry of the state, present exactly when the state has one |
| MapPage.TallyNames | src/pages/MapPage.tsx:73-99 | one entry per state, in order of the state's first unit |
| MapPage.TallySummarises | src/pages/MapPage.tsx:73-99 | every entry counts its state's units and their categories, and sums their recharge and extraction |
| MapPage.AggregateSummarises | src/pages/MapPage.tsx:73-105 | the loaded map: one entry per state, each with at least one unit, its counts and sums, and its average as extraction over recharge |
| MapPage.CategoriesCover | src/pages/MapPage.tsx:91-96 | the four category counts add up to at most the units, and exactly when all categories are valid |
| MapPage.StateCategoriesCover | src/pages/MapPage.tsx:91-96 | per state, the category badges add up to at most the unit count, and exactly it when all categories are valid |
| MapPage.TallyCounts | src/pages/MapPage.tsx:134-140 | summing a column over the entries counts exactly the units it counts |
| MapPage.TotalsCount | src/pages/MapPage.tsx:134-140 | the total is the number of units and each category total is that category's count |
| MapPage.SelectedUnits | src/pages/MapPage.tsx:129-131 | nothing without a selection, else exactly the selected state's units |
| MapPage.SelectedMatchesBadge | src/pages/MapPage.tsx:129-131 | the selected list is as long as the state's unit count |
| MapPage.StateFill | src/pages/MapPage.tsx:242-244 | a state without units is grey, else its extraction band |
| MapPage.Step | src/pages/MapPage.tsx:118-126 | a click selects the state; reset gives zoom 1, pan (0, 0), no selection; zoom moves by 0.2 clamped to [0.5, 2] and changes nothing else; back clears the selection only |
| MapPage.BackAfterClick | src/pages/MapPage.tsx:345 | the side panel's back button undoes a click's selection and keeps the zoom and pan |
| MapPage.ZoomStaysInRange | src/pages/MapPage.tsx:213-220 | no sequence of actions takes the zoom out of [0.5, 2] |
| MapPage.ZoomInOut | src/pages/MapPage.tsx:213-220 | away from the bounds, zooming in then out returns to the same zoom |
| IndiaMap.StatesAsOnMapPage | src/components/IndiaMap.tsx:47 | the states list has no duplicates, includes every unit's state, and matches the map page's order |
| IndiaMap.FilteredUnits | src/components/IndiaMap.tsx:50-54 | exactly the units passing both filters |
| IndiaMap.FiltersCompose | src/components/IndiaMap.tsx:50-54 | both filters `all` give every unit; otherwise the filters apply one after the other |
| IndiaMap.StateFilterAsOnMapPage | src/components/IndiaMap.tsx:50-54 | a state filter shows the same units in the same order as selecting the state on the map page |
| IndiaMap.FilteredQuality | src/components/IndiaMap.tsx:56-59 | exactly the samples passing the state filter; the category filter plays no part |
| IndiaMap.StatsCount | src/components/IndiaMap.tsx:70-76 | each of the four keys counts its units; an unknown category adds a key holding NaN |
| IndiaMap.StatsKeys | src/components/IndiaMap.tsx:70-76 | with valid categories the stats keep exactly the four keys, all counts |
| IndiaMap.StatsAddUp | src/components/IndiaMap.tsx:70-76 | with valid categories the four counts add up to the number of filtered units |
| IndiaMap.SvgRoundTrip | src/components/IndiaMap.tsx:62-68 | the projection is invertible both ways |
| IndiaMap.SvgBounds | src/components/IndiaMap.tsx:62-68 | India's box maps into x in [50, 650] and y in [50, 550] |
| IndiaMap.SvgOrientation | src/components/IndiaMap.tsx:62-68 | east is right and north is up |
| IndiaMap.MarkerFromColumns | src/components/IndiaMap.tsx:263-271 | a marker is red exactly when the nitrate, fluoride or arsenic column says `Yes`; the other flags never matter |

## Left out

- `fetch`, the response body reader and `TextDecoder`: the body is a sequence of already-decoded text chunks. A multi-byte character split across chunks is not modelled.
- `JSON.parse`, `parseFloat`, `parseInt` and `crypto.randomUUID`: these are parameters. The model does not say which strings parse, and it does not produce NaN from number parsing.
- SsePayload.DeltaOf: a non-string truthy `content` (such as a number) passed to `onDelta` is not modelled. Payload fields are absent or strings.
- StreamChat.NotOkMessage: a truthy non-string `error` or `detail` in a failed response's body (an object, a number, `true`) is handed to `onError` as it is. The model's error fields are absent or strings, and its `Error` event carries a string, so that case is not modelled. A falsy one reads as absent, as in the source.
- Toasts and `console` output: they do not affect state.
- React scheduling: `setState` batching, async interleaving, and `messages` captured by the closure at `src/hooks/useChat.ts:135`. Each handler is one atomic transition over the state it starts from.
- The `@/lib/api` module that `useChat` imports `streamChat` from is not part of this model. It is taken to behave like `streamChat` in `src/lib/pythonApi.ts`.
- `sendChatMessage`, used by `useChatPython`, is not part of this model. Its answer is a parameter: a reply with an optional conversation id, or a failure.
- The REST wrappers in `src/lib/pythonApi.ts` (lines 129-211), the Supabase edge function, `loadConversations` and the conversation list: these are network plumbing with no logic of their own.
- `useChat`'s `loadMessages` (lines 43-61): it follows the same mapping as `useChatPython`'s, which is modelled.
- UseChat.Title: `slice(0, 50)` counts UTF-16 code units. The model counts characters, so a title cut inside a surrogate pair is not modelled.
- Floating point: sums and percentages use exact reals and ignore rounding. `toFixed` display and accumulated drift from 0.2 zoom steps are not modelled.
- The `as` casts on `role` and `category` are unchecked. The model keeps the category as a string and the role as one of two values.
- A category named like an inherited object property (`__proto__`) in `getCategoryStats` is not modelled specially.
- View markup, hover state, static state outlines and the other components: these are presentation only.
