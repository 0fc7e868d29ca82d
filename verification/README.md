# Content generator: prompt composer, streaming relay and page decoder

This project models the core of a small Next.js content generator in Dafny and proves properties of that model.
The generator has two halves:

- **The generate endpoint** (`app/api/generate/route.ts`).
  - It composes an instruction prompt from a tone table, a length table and a fixed Markdown template.
  - It calls the upstream model with that prompt.
  - It relays the upstream event stream to the page. The relay keeps a line-reassembly buffer. It forwards each non-empty `content_block_delta` text as a `data: {"content": ...}` frame. On a normal close it ends with one `data: [DONE]` frame.
- **The page's `generateContent`** (`app/page.tsx`).
  - It rejects a blank topic.
  - It posts the form state.
  - It decodes the relay's stream chunk by chunk. Each chunk is split on `\n` on its own, with no carry-over. Every truthy `content` is appended to the text on screen.

The frames follow the event-stream format of section 9.2 of the WHATWG HTML Living Standard, but only a subset of it: `data:` fields only, lines ended by `\n`.

Modules (one file each):

| module | file | models |
|---|---|---|
| `Wrappers` | wrappers.dfy | `Option` |
| `Lines` | lines.dfy | JavaScript `split('\n')`, its inverse and the line buffer's bookkeeping |
| `JsonText` | json_text.dfy | `JSON.stringify({ content })`, with the string escaping of section 25.5.2.3 of ECMA-262 written out for strings of Unicode scalar values and a decoder that inverts it; `JSON.parse` as a parameter |
| `Prompt` | prompt.dfy | the two tables, the lookups with fallback and the `fullPrompt` template |
| `Relay` | relay.dfy | the `ReadableStream` relay as a class `StreamRelay` (buffer and enqueued frames updated in place), its `start` loop and the `POST` handler |
| `Client` | client.dfy | the page state as a class `Generator`, `generateContent` with its read loop and inner `for` loop, `trim`, and the templates table |
| `Pipeline` | pipeline.dfy | what the page's decoder makes of the relay's output |

Modelling choices:

- **JSON.parse.** It is a function-valued parameter `parse: string -> Option<Payload>`; `None` is the `catch` branch. `Payload` keeps only the fields the code reads: `type`, `delta.text` and `content`, each as a string. The empty string stands for a field that is absent, `null` or `''`. Non-string values of these fields are not modelled (see Left out).
- **Page–relay agreement.** The end-to-end lemmas assume only that `parse` reads back what `JSON.stringify({ content })` wrote (`JsonText.ReadsContentFrames`).
- **Chunks and the upstream.** Chunks are already-decoded strings. The upstream body is the sequence of chunks read, plus how it ended (closed, or a read that failed).
- **The page's visible effects.** These are the React state updates, the alerts and the POST. They are kept in order in a ghost trace `effects` of the `Generator` class.
- **The `[DONE]` sentinel on the page.** The page does not stop at the sentinel. It skips it with `continue` (app/page.tsx:136) and reads until the reader reports `done` (app/page.tsx:128). A stream that ends without a sentinel raises no alert. The model proves exactly that behaviour: `Client.SkippedLineDoesNotStopDecoding`, and `Client.Generator.Run` raises no alert on any normally closed reply.

## Model

| member | source | states |
|---|---|---|
| Prompt.ToneSentence | app/api/generate/route.ts:25 | a tone key in the table gives exactly its sentence; any other key gives the professional sentence; the result is always one of the six sentences |
| Prompt.LengthInstruction | app/api/generate/route.ts:26 | a length key in the table gives exactly its instruction; any other key gives the medium instruction; the result is always one of the four instructions |
| Prompt.ComposePrompt | app/api/generate/route.ts:28-36 | the prompt starts with `basePrompt "topic". `, ends with the fixed formatting block, and between them holds exactly the tone sentence, a space and the length instruction |
| Prompt.UnknownKeysComposeDefaultPrompt | app/api/generate/route.ts:25-28 | an unknown tone composes the same prompt as `professional`, an unknown length the same as `medium`; nothing is reported |
| Prompt.ToneSentenceAsWritten | app/api/generate/route.ts:25 | the tone lookup with its `or` default as written: an own key gives its sentence, an inherited `Object.prototype` member gives that member's text, any other key the professional sentence |
| Prompt.LengthInstructionAsWritten | app/api/generate/route.ts:26 | the length lookup with its `or` default as written: an own key gives its instruction, an inherited member gives its text, any other key the medium instruction |
| Prompt.AsWrittenAgreesOnOrdinaryKeys | app/api/generate/route.ts:25-26 | on every key that is not an `Object.prototype` member name, the source's lookups with their `or` default equal the fallback lookups |
| Prompt.ConstructorToneEscapesFallback | app/api/generate/route.ts:25 | the tone `constructor` is not in the table, yet the lookup as written yields the text of `Object` rather than the professional sentence (Finding 1) |
| Prompt.ToStringLengthEscapesFallback | app/api/generate/route.ts:26 | the length `toString` is not in the table, yet the lookup as written yields a function's text rather than the medium instruction (Finding 2) |
| JsonText.EncodeContent | app/api/generate/route.ts:98 | `JSON.stringify({ content: text })` is a JSON object text starting with `{`; `JsonText.DecodeEncodeContent` is its inverse |
| JsonText.UnescapeEscape | app/api/generate/route.ts:98 | the decoder reads every escaped string body back to the original text |
| JsonText.DecodeEncodeContent | app/api/generate/route.ts:98 | the decoder inverts `JSON.stringify({ content: text })` for every text |
| JsonText.EncodeContentInjective | app/api/generate/route.ts:98 | distinct fragments are written as distinct JSON texts |
| JsonText.EncodeContentNoNewline | app/api/generate/route.ts:98 | the JSON text of a content frame holds no newline, whatever the fragment holds |
| Lines.Split | app/api/generate/route.ts:81 | `split('\n')` yields at least one piece; `Lines.SplitJoin` and `Lines.SplitTerminated` prove it the inverse of joining with newlines |
| Lines.SplitJoin | app/api/generate/route.ts:81 | every piece `split('\n')` yields is newline-free, and terminating all but the last piece and appending the last gives back the input |
| Lines.SplitTerminated | app/api/generate/route.ts:81-82 | newline-free lines, each terminated, then a newline-free tail, split back into exactly those lines and that tail |
| Lines.RemainderNoNewline | app/api/generate/route.ts:82 | what `lines.pop()` keeps holds no newline, nor does any complete line |
| Lines.Reassemble | app/api/generate/route.ts:80-82 | splitting the processed text plus buffer plus chunk gives the processed lines followed by the complete lines of buffer plus chunk |
| Lines.AppendChunk | app/api/generate/route.ts:80-82 | after a read the buffer is newline-free, and the processed lines, each terminated, followed by the new buffer, equal the old processed text plus the old buffer plus the chunk |
| Relay.Frame | app/api/generate/route.ts:98-109 | every frame, content or sentinel, starts with `data: ` and ends with a blank line |
| Relay.FrameInjective | app/api/generate/route.ts:98-109 | distinct events are written as distinct frames |
| Relay.DeltaText | app/api/generate/route.ts:85-100 | a line yields a fragment if and only if it starts with `data: `, its payload is not `[DONE]`, parses, has type `content_block_delta` and a non-empty `delta.text`, and then the fragment is exactly that text; no prefix, `[DONE]`, unparseable JSON or another type yield none |
| Relay.LineEvents | app/api/generate/route.ts:84-106 | at most one event per line, every event a content event with non-empty text; which line yields which event is stated by `Relay.DeltaLineRelayed` and `Relay.OtherLineDropped` |
| Relay.LineEventsAppend | app/api/generate/route.ts:84-106 | the events of consecutive runs of lines are the events of each run, in order |
| Relay.StreamRelay.constructor | app/api/generate/route.ts:74 | the buffer starts empty, with nothing read and nothing enqueued |
| Relay.StreamRelay.RelayLine | app/api/generate/route.ts:85-105 | one line enqueues exactly the frames of its events |
| Relay.StreamRelay.RelayLines | app/api/generate/route.ts:84-106 | the inner loop enqueues the frames of all complete lines, in line order |
| Relay.StreamRelay.Read | app/api/generate/route.ts:77-107 | one read keeps the buffer invariant, takes the complete lines of buffer plus chunk, keeps the remainder as the buffer, and enqueues exactly the frames of the new lines |
| Relay.StreamRelay.Finish | app/api/generate/route.ts:109-115 | a normal end adds exactly the sentinel frame, a failed read nothing; the stream is closed and the buffer is left unprocessed |
| Relay.RelayEvents | app/api/generate/route.ts:76-111 | no body gives no event; the last event is the sentinel exactly when the upstream closed normally; every event before the last is a content event |
| Relay.Start | app/api/generate/route.ts:66-116 | the frames written are those of the content lines among the complete lines of the whole upstream text, then the sentinel if the stream closed normally; how the text was cut into reads plays no part |
| Relay.Post | app/api/generate/route.ts:21-131 | a body that does not parse or an upstream answer that is not ok gives the 500 JSON error; otherwise the composed prompt is sent and the event stream is returned |
| Relay.ContentFrameIsNotSentinel | app/api/generate/route.ts:98-109 | no content frame equals the sentinel frame |
| Relay.ExactlyOneSentinel | app/api/generate/route.ts:76-111 | on a normal close the last frame is the sentinel and no other frame is; after a failed read or without a body there is none |
| Relay.MalformedLineSkipped | app/api/generate/route.ts:92-104 | a line whose payload does not parse contributes nothing, and the lines before and after it are relayed as if it were absent |
| Relay.DeltaLineRelayed | app/api/generate/route.ts:95-100 | a `content_block_delta` line with non-empty text is relayed as exactly one content event carrying that text, between the events of the lines before and after it |
| Relay.OtherLineDropped | app/api/generate/route.ts:85-104 | every other line is relayed as nothing, and the lines around it are relayed as if it were absent |
| Relay.UnterminatedTailDiscarded | app/api/generate/route.ts:80-109 | text after the last newline of the upstream body is never relayed |
| Relay.DeltaLinesRelayedInOrder | app/api/generate/route.ts:95-100 | lines that each carry a delta text are relayed as exactly those texts, one event per line, in line order |
| Client.TemplatePrompt | app/page.tsx:30-80 | an id gives a base prompt exactly when some template has that id, and then it is that template's prompt |
| Client.TemplateIdsDistinct | app/page.tsx:30-80 | no two templates share an id |
| Client.SelectedTemplateFound | app/page.tsx:30-80 | every template of the table is found again by its id, with its own prompt |
| Client.Generator.SelectTemplate | app/page.tsx:206 | a click on a template card selects that template, which stays one of the table's, so its id finds its prompt |
| Client.Generator.Request | app/page.tsx:105-111 | the posted body carries the selected template's id and prompt, and for a template of the table that id finds that prompt |
| Client.Trim | app/page.tsx:91 | `trim()` never lengthens the topic; `Client.TrimIsSlice` and `Client.TrimEmptyIffBlank` characterise what it keeps |
| Client.TrimStartSuffix | app/page.tsx:91 | removing leading white space keeps a suffix of the topic |
| Client.TrimEndPrefix | app/page.tsx:91 | removing trailing white space keeps a prefix of what is left |
| Client.TrimStartDropsBlank | app/page.tsx:91 | everything removed at the start is white space, and what is kept does not start with white space |
| Client.TrimEndDropsBlank | app/page.tsx:91 | everything removed at the end is white space, and what is kept does not end with white space |
| Client.TrimStartBlank | app/page.tsx:91 | a topic made only of white space has nothing left after leading white space is removed |
| Client.TrimIsSlice | app/page.tsx:91 | the trimmed topic (the one sent in the request) is one slice of the topic; everything before and after it is white space, and it neither starts nor ends with white space |
| Client.TrimEmptyIffBlank | app/page.tsx:91-94 | the topic is rejected exactly when every character of it is white space |
| Client.LineFragment | app/page.tsx:134-143 | a line yields a fragment if and only if it starts with `data: `, its payload is not `[DONE]`, parses, and has a non-empty `content`, and then the fragment is exactly that content |
| Client.ContentLineDecoded | app/page.tsx:134-143 | a content line adds exactly its `content` to the shown text, between the fragments of the lines before and after it |
| Client.LinesFragmentsAppend | app/page.tsx:133-148 | the fragments of consecutive runs of lines are the fragments of each run, in order |
| Client.SkippedLineDoesNotStopDecoding | app/page.tsx:136-146 | a `[DONE]` line or a line whose payload does not parse contributes nothing, and the lines after it are still decoded |
| Client.StreamFragmentsAppend | app/page.tsx:126-149 | the fragments of consecutive runs of reads are the fragments of each run, each read decoded on its own |
| Client.PublishesOnlyAppend | app/page.tsx:139-142 | the i-th published text is the (i-1)-th with exactly the i-th fragment appended |
| Client.Generator.constructor | app/page.tsx:83-88 | the initial state: first template, empty topic, professional tone, medium length, no content, not generating |
| Client.Generator.HandleLine | app/page.tsx:134-147 | one line appends its fragment, if any, to the content, and publishes the new content exactly when it appended |
| Client.Generator.HandleChunk | app/page.tsx:130-148 | one read appends the fragments of its own lines, in order, publishing the whole text after each |
| Client.Generator.ReadStream | app/page.tsx:125-149 | the read loop leaves as content the concatenation of every read's fragments, with one published text per fragment |
| Client.Generator.Run | app/page.tsx:96-155 | the flag is set and the content cleared before the request; the content ends as every fragment in order; the failure alert comes exactly when the reply is not a normally closed stream; the flag is cleared in every outcome |
| Client.Generator.GenerateContent | app/page.tsx:90-156 | a blank topic only raises the topic alert and changes nothing else; otherwise the request carries the trimmed topic and the template's prompt, and the effects are those of `Run` |
| Client.DecodeStep | app/page.tsx:125-149 | one read of a buffered decoder keeps the line-buffer invariant and adds the fragments of the new complete lines at the end (Finding 3, corrected) |
| Client.DecodeBuffered | app/page.tsx:125-149 | a decoder that carries the incomplete line over yields the fragments of the complete lines of the whole text read (Finding 3, corrected) |
| Pipeline.FramesAreLines | app/api/generate/route.ts:98-109 | the relay's output, read as one text, is its frame lines each terminated: a `data:` line and a blank line per event |
| Pipeline.FrameLinesDecodedInOrder | app/page.tsx:131-143 | the page decodes the relay's frame lines into exactly the relayed fragments, in order; the sentinel and blank lines yield nothing |
| Pipeline.WholeFramesDecoded | app/page.tsx:130-143 | a read holding whole frames is decoded into exactly their fragments |
| Pipeline.AlignedChunksDecoded | app/page.tsx:126-149 | for reads cut at frame boundaries, in any grouping, the page's decoder yields every relayed fragment, in order, and nothing else |
| Pipeline.RelayTexts | app/api/generate/route.ts:84-109 | the relay's events carry no empty fragment, and their fragments are those of its content lines |
| Pipeline.EndToEnd | app/page.tsx:125-149 | for reads cut at frame boundaries, the text the page shows is the concatenation of the fragments the relay forwarded |
| Pipeline.BufferedDecodingIgnoresChunking | app/page.tsx:130-131 | any reads that concatenate to the relay's output decode, with a carried-over buffer, to the relayed fragments (Finding 3, corrected) |
| Pipeline.PrefixWithoutSpaceDecodesNothing | app/page.tsx:131-134 | a read holding only `data:` yields nothing |
| Pipeline.FrameTailDecodesNothing | app/page.tsx:131-134 | a read holding the rest of a content frame cut after `data:` yields nothing |
| Pipeline.SplitFrameIsLost | app/page.tsx:130-134 | a content frame delivered in two reads cut after `data:` yields nothing with the page's decoder, and its fragment with the buffered one (Finding 3, as written) |

## Left out

- The upstream call (app/api/generate/route.ts:38-56): its URL, headers, API key and body are network I/O. `Relay.Post` receives the outcome: whether the answer was ok, and the body as chunks.
- Missing or non-string request fields. The body is a `GenerateRequest` of strings, or `None` when `req.json()` fails. A missing `topic` or `basePrompt`, which JavaScript renders as `undefined` in the prompt, is not modelled.
- `TextEncoder`/`TextDecoder` (app/api/generate/route.ts:62-63,80; app/page.tsx:119,130): chunks are decoded strings. A multi-byte character split across two reads is not modelled.
- The async transport (`ReadableStream`, `controller`, `releaseLock`, `await`): each loop is a sequential fold over the chunk sequence. Client cancellation and backpressure are not modelled.
- The response headers (app/api/generate/route.ts:119-125) and `console.error` logging.
- The JSX, the selectors, Markdown rendering, clipboard and download helpers (app/page.tsx:158-361) and app/layout.tsx: UI with no logic of the core.
- `JSON.parse` internals: it is a parameter, and the end-to-end lemmas assume only that it reads back the relay's own `{"content": ...}` texts.
- Relay.Post: the 500 error body is the fixed text for every failure, as in the source. Failures thrown before the stream starts (an invalid body, an upstream answer that is not ok) are the only error paths modelled. A `fetch` that rejects behaves like an answer that is not ok.
- Relay.DeltaText: `parsed.delta?.text || ''` on a non-string value (a number, an object) is reduced to the string fields of `Payload`.
- Client.LineFragment: a truthy non-string `content` (a number, an object, `true`) is appended by the page as its string form (app/page.tsx:140-141). `Payload.content` is a string, so such payloads are not modelled.
- JsonText.EncodeContent: a Dafny `char` is a Unicode scalar value, so a text holding a lone surrogate, which `JSON.stringify` writes as a `\udXXX` escape, cannot be represented. That escape is not modelled.
- The `onChange` handlers of the topic, tone and length inputs only store the value typed or chosen. The model reads `topic`, `tone` and `length` as the `Generator`'s fields without modelling the handlers.
- Client.Generator.GenerateContent: the reply is a parameter, not something fetched. A rejected `fetch`, a non-ok status and a missing reader are three reply kinds that all end in the failure alert.
- Prompt.ComposePrompt and Relay.Post use the corrected lookups, which fall back on every key not in the tables (Findings 1 and 2). The lookups as the source writes them are kept separately as `Prompt.ToneSentenceAsWritten` and `Prompt.LengthInstructionAsWritten`.
- Client.Generator.ReadStream keeps the source's per-read split (Finding 3). The corrected reader is the separate method `Client.DecodeBuffered`, which only computes the final content and publishes no intermediate texts.

## Findings

| source | as written | input that shows it | evidently intended | confidence | as-written member | corrected member |
|---|---|---|---|---|---|---|
| app/api/generate/route.ts:25 | indexing the plain object `SYSTEM_PROMPTS` by `tone` before the `or` default also finds the members inherited from `Object.prototype`, which are truthy | tone `"constructor"` puts `function Object() { [native code] }` into the prompt | every tone not in the table falls back to the professional sentence | high that the lookup behaves so, low that a real client sends such a tone; not executed | Prompt.ConstructorToneEscapesFallback | Prompt.ToneSentence |
| app/api/generate/route.ts:26 | indexing `LENGTH_INSTRUCTIONS` by `length` finds inherited members in the same way | length `"toString"` puts `function toString() { [native code] }` into the prompt | every length not in the table falls back to the medium instruction | high that the lookup behaves so, low that a real client sends such a length; not executed | Prompt.ToStringLengthEscapesFallback | Prompt.LengthInstruction |
| app/page.tsx:130-131 | every read is split on `\n` on its own, with no carry-over between reads, unlike the relay's buffer | the frame `data: {"content":"hi"}` plus a blank line, delivered as the reads `data:` and ` {"content":"hi"}` plus two newlines, adds nothing | a frame cut across reads is decoded once its line is complete, as the relay does for its own input | medium: depends on how the transport cuts the stream; not executed | Pipeline.SplitFrameIsLost | Client.DecodeBuffered |
