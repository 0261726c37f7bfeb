# DDG2API response translation, modelled in Dafny

This project models the core of a Cloudflare worker that exposes an
OpenAI-style chat-completion API in front of the DuckDuckGo chat backend
(`src/workers.js`). The core is the translation of the upstream's
line-oriented event stream (`data: {...}` lines, a `[DONE]` sentinel and
in-band error objects) into chat-completion records, in two forms:

- **Streaming** (`handleResponse` with `stream`): chunks of text arrive one
  by one. A carry-over `partialLine` keeps the text after the last newline.
  Each complete line is classified and its records are enqueued at once.
  `[DONE]` and error objects end the stream early. At end of input the
  carry-over gets a weaker treatment, then a synthetic terminal chunk is
  enqueued.
- **Buffered** (`handleResponse` without `stream`): the whole text is split
  into lines. Each line is mapped to its `message` or `""`, empty results are
  filtered out, and the rest is joined. The raw text is the fallback when
  nothing was collected.

Two small helpers sit beside it and are modelled too:

- `processMessages` flattens the request's role-tagged turns into one prompt.
- `validateApiKey` applies the optional bearer-key gate.

Modules, one per component:

| file | module | models |
|---|---|---|
| `wrappers.dfy` | `Wrappers` | `Option`, for JavaScript's undefined/null |
| `js_strings.dfy` | `JsStrings` | `split`, `join`, `startsWith`, `trim` on strings as sequences of Unicode scalar values |
| `formatting.dfy` | `Formatting` | `formatErrorResponse`, `formatStreamingChunk`, `formatOpenAIResponse` |
| `upstream_lines.dfy` | `UpstreamLines` | line classification and the stream's records as functions of the text |
| `stream_translator.dfy` | `StreamTranslator` | the streaming loop as a method over a sequence of chunks |
| `buffered.dfy` | `BufferedTranslator` | the buffered map/filter/join and its fallback |
| `messages.dfy` | `MessageNormalizer` | `processMessages` (a loop pushing onto `results`) |
| `auth.dfy` | `ApiKeyGate` | `validateApiKey` |

`JSON.parse` is a parameter `parse: string -> Payload`, so every property
holds for every parser. `Payload` keeps only the four properties the
translator reads. The random completion id suffix and the timestamp are also
parameters.

The central results:

- `TranslateStream` returns exactly `StreamFrames(Concat(chunks))`. So the
  records depend only on the concatenated text, never on where the chunks
  were cut.
- `StreamHasOneTerminator`: every stream ends with exactly one terminator
  (the terminal chunk or an error record), and only deltas come before it.
- `BranchesAgree`: if no complete line is `[DONE]` or an error object, the
  streamed deltas carry exactly the buffered aggregate.

Behaviour of the worker worth noting:

- The buffered branch does not stop at an in-band error object. It collects
  that object's `message`, if any, and carries on (`ErrorObjectDoesNotStopAggregation`).
- `processMessages` tests the trimmed text but emits the untrimmed content.
- The carry-over at end of input gets a weaker treatment than a complete
  line: an `action` of `"error"` there is ignored and only `message` is used.
- `[DONE]` returns before the end-of-input code, so the terminal chunk is
  never emitted twice.

## Model

| member | source | states |
|---|---|---|
| JsStrings.Split | src/workers.js:137-138 | `split('\n')` always gives at least one part, so `lines.pop()` always has a carry-over to return |
| JsStrings.SplitPartsAreSeparatorFree | src/workers.js:137-138 | no part of a split contains the separator, so the carry-over never holds a complete line |
| JsStrings.SplitAppend | src/workers.js:134-138 | appending a chunk keeps every newline-terminated line; only the carry-over is continued |
| JsStrings.SplitAtSeparator | src/workers.js:137 | a newline cuts the text into two independently split halves |
| JsStrings.JoinSplit | src/workers.js:137-138 | the split lines joined with the separator give back the text (no loss, no duplication) |
| JsStrings.SplitJoin | src/workers.js:116 | splitting a join of separator-free parts gives back the parts |
| JsStrings.TrimEmptyIffBlank | src/workers.js:110 | `trim()` is empty exactly for all-whitespace strings |
| Formatting.FormatErrorResponse | src/workers.js:46-55 | the error body carries the given message, type and status as code, with `param` null |
| Formatting.FormatStreamingChunk | src/workers.js:74-87 | a last chunk has the empty delta and finish reason "stop"; any other chunk has the content and a null finish reason |
| Formatting.FormatOpenAIResponse | src/workers.js:59-71 | one assistant message with the given content, finish reason "stop" |
| UpstreamLines.PayloadText | src/workers.js:142 | `line.slice(6)` is everything after the `data: ` prefix: prefix plus payload give back the line |
| UpstreamLines.ClassifyLine | src/workers.js:140-167 | only `data:` lines matter; `[DONE]` is recognised exactly for the payload `[DONE]`; fragments are non-empty |
| UpstreamLines.DataLineIsNotBlank | src/workers.js:140 | a `data:` line is never blank, so the blank test hides none |
| UpstreamLines.DuckError | src/workers.js:152-157 | error record: code = upstream status, type "duck_error", message "DuckDuckGo Error: " + type ("undefined" when missing), param null |
| UpstreamLines.Run | src/workers.js:139-168 | the loop over classified lines enqueues at most one record per line, and closes only on some line |
| UpstreamLines.ProcessLines | src/workers.js:139-168 | the loop over complete lines enqueues at most one record per line, and closes only on some line |
| UpstreamLines.StreamFrames | src/workers.js:130-185 | everything enqueued for a text ends with a terminator, which is the terminal chunk when no line closed the stream; at most one record per complete line plus two |
| UpstreamLines.RunIsWellFramed | src/workers.js:139-168 | records of a run of lines: only deltas, except one terminator at the end exactly when the stream was closed |
| UpstreamLines.TailFrames | src/workers.js:170-183 | the carry-over yields at most one delta, and only if it is a `data:` line |
| UpstreamLines.RunAppend | src/workers.js:139-168 | after a closing line nothing more is produced; otherwise records of consecutive runs follow in order |
| UpstreamLines.ProcessLinesAppend | src/workers.js:139-168 | the same for lines: closing stops everything, otherwise order is kept |
| UpstreamLines.SkippedLineIsInvisible | src/workers.js:140-167 | a blank, non-`data:`, unparsable or message-less line leaves the records of all other lines unchanged |
| UpstreamLines.SentinelClosesStream | src/workers.js:143-147 | `[DONE]` appends one terminal chunk and closes the stream; no later complete line produces a record |
| UpstreamLines.SentinelEndsStream | src/workers.js:143-147 | for a whole text: once a complete line is `[DONE]`, the terminal chunk is the last record; later lines and the carry-over add nothing |
| UpstreamLines.ErrorObjectEndsStream | src/workers.js:152-160 | for a whole text: an error object's record is the last one, with no terminal chunk after it |
| UpstreamLines.ErrorObjectClosesStream | src/workers.js:152-160 | an `action == "error"` object appends one error record as the last record |
| UpstreamLines.FragmentKeepsOrder | src/workers.js:162-164 | an object with a truthy `message` appends exactly one delta between the records of the lines before and after it |
| UpstreamLines.StreamHasOneTerminator | src/workers.js:130-185 | every stream ends with exactly one terminator with only deltas before it; an error record ends it only if some line was an error object |
| UpstreamLines.FailComesFromErrorLine | src/workers.js:152-160 | a run ends with an error record only because of an error line |
| StreamTranslator.TranslateStream | src/workers.js:130-185 | the enqueued records equal `StreamFrames` of the concatenated chunks, whatever the chunk boundaries |
| StreamTranslator.TranslateLines | src/workers.js:139-168 | the loop over a read's complete lines yields the records of `ProcessLines` and stops at a closing line |
| StreamTranslator.TranslateLine | src/workers.js:140-167 | the branches for one line yield the records of its classification |
| StreamTranslator.TranslateTail | src/workers.js:170-183 | the end-of-input branch yields the carry-over's records as `TailFrames` states them |
| StreamTranslator.ChunkStep | src/workers.js:134-138 | after each read the handled lines plus the carry-over and the unread text re-split to the whole text's lines |
| StreamTranslator.ClosedRunDecides | src/workers.js:145-146 | once a line closes the stream, the unread text no longer affects the output |
| StreamTranslator.RenderFrame | src/workers.js:144-184 | deltas and the terminal become chunks with the right delta and finish reason; errors stay error bodies |
| StreamTranslator.SplitLineExample | src/workers.js:130-185 | the chunks `data: {"mess` and `age":"ok"}` followed by two newlines give a delta "ok", then the terminal chunk |
| BufferedTranslator.LineMessage | src/workers.js:201-211 | only a `data:` line that is not `[DONE]` contributes a message |
| BufferedTranslator.MapMessages | src/workers.js:200-211 | the map yields one message per line, so no line is dropped before the filter |
| BufferedTranslator.KeepNonEmpty | src/workers.js:212 | the filter keeps only non-empty messages, no more of them than it is given, and their concatenation is that of all messages (nothing non-empty is lost or reordered) |
| BufferedTranslator.Aggregate | src/workers.js:200-213 | the aggregate is the in-order concatenation of the messages of all lines |
| BufferedTranslator.BufferedResponse | src/workers.js:199-215 | the content is the aggregate, or the raw text when the aggregate is empty; finish reason "stop" |
| BufferedTranslator.FilterJoinIsConcatenation | src/workers.js:212-213 | filter-then-join equals in-order concatenation of all line messages |
| BufferedTranslator.MessagesAppend | src/workers.js:200-213 | the aggregate of consecutive runs of lines is the concatenation of their aggregates |
| BufferedTranslator.AggregateOfText | src/workers.js:200-213 | the aggregate covers every line, the unterminated last one included |
| BufferedTranslator.SentinelDoesNotStopAggregation | src/workers.js:205 | `[DONE]` contributes "" and lines after it are still collected |
| BufferedTranslator.ErrorObjectDoesNotStopAggregation | src/workers.js:206-207 | an error object contributes its `message` and lines after it are still collected |
| BufferedTranslator.CarryOverAgrees | src/workers.js:171-183 | the streaming carry-over treatment yields the same text as the buffered line mapping |
| BufferedTranslator.LineAgrees | src/workers.js:162-164 | for a non-closing line the streamed delta text equals the buffered message |
| BufferedTranslator.LinesAgree | src/workers.js:139-168 | for lines without `[DONE]` or error objects the stream stays open and its delta text equals the buffered concatenation |
| BufferedTranslator.BranchesAgree | src/workers.js:123-215 | with no `[DONE]` or error line, the streamed delta text equals the buffered aggregate and the stream ends with the terminal chunk |
| MessageNormalizer.ProcessMessages | src/workers.js:100-117 | the prompt is the surviving turn lines joined by newlines |
| MessageNormalizer.RenderTurn | src/workers.js:105-112 | a turn gives a line iff it is kept (valid role, truthy content, not all whitespace); the line is `<role>: <content>` with system shown as user |
| MessageNormalizer.RenderedTurns | src/workers.js:104-114 | at most one line per turn |
| MessageNormalizer.OneTurn | src/workers.js:104-112 | a turn gives exactly one line iff its role is valid, its content truthy and not all whitespace; the line is `<role>: <content>` with system shown as user and content untrimmed |
| MessageNormalizer.RenderedTurnsAppend | src/workers.js:104-116 | surviving turns keep their input order |
| MessageNormalizer.DroppedTurnIsInvisible | src/workers.js:105-110 | a dropped turn changes nothing around it |
| MessageNormalizer.LinesHaveUpstreamRoles | src/workers.js:111 | every prompt line starts with "user: " or "assistant: " |
| MessageNormalizer.ReduceParts | src/workers.js:107 | array content is the in-order concatenation of the truthy `text` values |
| MessageNormalizer.PromptSplitsIntoTurns | src/workers.js:116 | no survivors gives ""; otherwise newline-free lines are recovered by splitting the prompt |
| ApiKeyGate.KeySet | src/workers.js:263 | a configured non-empty key list gives a non-empty key set |
| ApiKeyGate.ValidateApiKey | src/workers.js:262-276 | with no keys every request passes; with keys a missing or empty header is refused |
| ApiKeyGate.BearerHeaderTokens | src/workers.js:272 | `Bearer <key>` splits into the tokens "Bearer" and the key |
| ApiKeyGate.AcceptsListedBearerKey | src/workers.js:267-273 | with keys configured, `Bearer <key>` passes for every listed non-empty key |
| ApiKeyGate.AcceptedHeaderIsBearerKey | src/workers.js:267-273 | with keys configured, only a header `Bearer <listed non-empty key>`, optionally followed by a space and more, passes |

## Left out

- Network I/O is not modelled. This covers `getDuckVQDToken`, `sendDuckChatMessage` and the `fetch` calls to the external service.
- HTTP plumbing is not modelled: `handleRequest` routing, CORS headers, `Response` objects and the worker export.
- The static tables `MODELS` and `DEFAULT_HEADERS` hold constants only and are not modelled.
- `handleResponse`'s choice between the two branches on the `stream` option is one `if`. Each branch is modelled on its own (`TranslateStream`, `BufferedResponse`).
- `ReadableStream`, the controller and the suspension on `reader.read()` are replaced by a loop over a finite sequence of chunks.
- The read-failure path (`controller.error`) is not modelled. A read error cannot occur in a finite sequence of chunks.
- `TextDecoder` and `TextEncoder` are foreign code. Chunks are already-decoded strings.
- `JSON.parse` is an arbitrary parameter; no JSON parser is modelled.
- `JSON.stringify` and the `data: ...` SSE framing are not modelled. Records stay structured values (`Frame`, `Record`, `ChatCompletionChunk`).
- `Math.random` and `Date.now` are parameters (`idSuffix`, `created`). Uniqueness of ids is not modelled.
- Non-string values are not modelled for `message` and `type`, and non-integer values for `status`. The same holds for content parts' `text` and for `env.API_KEYS`. JavaScript would coerce or print these.
- Non-string, non-array `content` values are not modelled. For a number or an object, `content.trim()` would throw in the worker.
- UpstreamLines.ClassifyLine: omits the worker's blank-line test. `DataLineIsNotBlank` proves that test never decides anything, and the method `TranslateLine` performs it as written.
- Strings are sequences of Unicode scalar values, not of UTF-16 code units. A string holding a lone surrogate (which `JSON.parse` can produce from a `\ud800` escape in `message`) cannot be represented. No modelled operation observes code-unit length: every separator, prefix and whitespace character is in the Basic Multilingual Plane, and `slice(6)` cuts after an ASCII prefix.
- Cancellation of the upstream read when the client disconnects is not modelled. It does not appear in the code.
