# jsonl-parser-web: the line-splitting transform, modelled in Dafny

This project models the core of `jsonl-parser-web`, the transform built by
`createLineStreamTransformer`. That transform turns a stream of chunks of
newline-delimited JSON into a stream of parsed records.

The transform keeps one piece of state, the carry buffer `partialLine`.

- `transform(chunk)` appends the decoded chunk to the carry buffer and splits the result on `'\n'`.
  The last piece becomes the new carry buffer.
  Every other piece is a complete line and goes to the parser, in order.
  A truthy result is enqueued, a falsy one is dropped silently, and a thrown error goes to `onError(error, line)` when that callback exists.
- `flush()` does nothing when the carry buffer is empty.
  Otherwise it handles the carry buffer as one last line under the same policy.

The model has three modules:

- `LineSplit` (`line_split.dfy`) holds `split('\n')` with JavaScript semantics, its inverse `Join`, and `Terminated`, the text of complete lines.
  Lemmas prove that `Split` and `Join` are inverse and that the carry-buffer text invariant survives each chunk.
- `ParsePolicy` (`parse_policy.dfy`) holds what one line yields (`LineOutput`), what a sequence of lines yields (`ParseLines`) and what a whole stream of text yields, flush included (`ParseStream`).
  Lemmas state the enqueue, drop and report policy, the ordering, and the stream-level facts.
- `LineStream` (`line_stream.dfy`) holds the class `LineStreamTransformer`.
  Its fields are `partialLine`, the controller's queue `enqueued` and the `onError` calls `reported`.
  Its methods are `Transform` and `Flush`, proved against `ParsePolicy`.
  The module also has a driver, `RunTransform`, that feeds chunks and then flushes.
  `RunTransform` is proved to yield `ParseStream` of the concatenated chunks, so its output does not depend on where chunk boundaries fall.

The pluggable parser is a function value `string -> Outcome<V, E>`, where `Outcome` is either `Parsed(value)` or `Threw(error)`.
The default `parseJson` (`JSON.parse`) is passed in the same way.
JavaScript truthiness of a parsed value is a predicate `V -> bool`.
Whether `onError` was supplied is a boolean.

## Model

| member | source | states |
|---|---|---|
| `LineSplit.Split` | src/parser.ts:49-51 | `split('\n')` always returns at least one piece, so `lines.pop()` is never `undefined`; no piece contains `'\n'`, so the new carry buffer never does |
| `LineSplit.JoinSplit` | src/parser.ts:49 | joining the pieces of a split with `'\n'` gives back the text |
| `LineSplit.SplitJoin` | src/parser.ts:49 | pieces that contain no `'\n'` are recovered by splitting their join, so split and join are inverse |
| `LineSplit.SplitUndelimited` | src/parser.ts:49-51 | text with no `'\n'` splits into itself alone: a chunk without a newline completes no line and only extends the carry buffer |
| `LineSplit.SplitPrefix` | src/parser.ts:49 | a newline-free prefix followed by `'\n'` splits off as the first piece, and the rest splits as before |
| `LineSplit.SplitTerminated` | src/parser.ts:49-51 | complete lines, each followed by `'\n'`, then a newline-free carry text, split into exactly those lines followed by the carry text |
| `LineSplit.JoinTerminated` | src/parser.ts:49-51 | the join of the pieces is all but the last piece as complete lines, then the last piece |
| `LineSplit.TerminatedAppend` | src/parser.ts:53 | the text of complete lines is additive over concatenation of line sequences |
| `LineSplit.CarryStep` | src/parser.ts:47-53 | text invariant across one `transform`: old complete lines, then the old carry, then the chunk, equals the extended complete lines followed by the new carry, and no line contains `'\n'` |
| `LineSplit.SplitCount` | src/parser.ts:49 | a split has exactly one more piece than the text has newlines, so a record broken by k raw newlines reaches the parser as k + 1 fragments |
| `LineSplit.StreamLines` | src/parser.ts:49-69 | the lines a whole stream hands to the parser (every piece of the split but the last, then the last if non-empty) contain no `'\n'` |
| `LineSplit.StreamLinesText` | src/parser.ts:49-69 | no text is lost on the way to the parser: for text that is empty or ends in `'\n'`, the lines, each followed by `'\n'`, are exactly the text; for any other text, the last line is the unterminated tail and the earlier lines, each followed by `'\n'`, are the rest |
| `LineSplit.StreamLinesTerminated` | src/parser.ts:49-69 | complete lines followed by a carry text reach the parser as exactly those lines, then the carry text if it is non-empty |
| `LineSplit.ConcatEmpty` | src/parser.ts:48-49 | chunks that are all empty concatenate to empty text |
| `ParsePolicy.LineOutput` | src/parser.ts:54-59 | one line yields a record exactly when the parser returns a truthy value, and that record is the value; it yields an `onError` call exactly when the parser throws and a callback was supplied, and that call pairs the error with the line; never both |
| `ParsePolicy.FlushOutput` | src/parser.ts:62-69 | `flush` yields nothing for an empty carry text and otherwise exactly what the carry text yields as one more line |
| `ParsePolicy.ParseStream` | src/parser.ts:47-70 | a whole stream yields at most one record or `onError` call per newline plus one, no `onError` call without a callback, and nothing for empty text |
| `ParsePolicy.ParseStreamLines` | src/parser.ts:47-70 | the whole-stream output is the output of handing `StreamLines` of the text to the parser one after another, so it is fixed by the sequence of parser calls |
| `ParsePolicy.ParseLines` | src/parser.ts:53-60 | handing lines to the parser yields at most one record or one `onError` call per line, and no `onError` call at all when no callback was supplied |
| `ParsePolicy.ParseLinesAppend` | src/parser.ts:53-60 | lines are handled in order: the output for `a + b` is the output for `a` followed by the output for `b` |
| `ParsePolicy.LineOutputInPlace` | src/parser.ts:53-60 | line i yields its own output exactly once, after all output of the earlier lines and before all output of the later ones |
| `ParsePolicy.TruthyLineEnqueued` | src/parser.ts:55-56 | a line whose parse result is truthy is enqueued at its place in line order and reported nowhere |
| `ParsePolicy.FalsyLineSilent` | src/parser.ts:55-56 | a line whose parse result is falsy is neither enqueued nor reported: the output equals the output with that line removed |
| `ParsePolicy.FailedLineReported` | src/parser.ts:54-59 | a line on which the parser throws is not enqueued; `onError`, if supplied, receives that error and exactly that line's text once; later lines are still handled |
| `ParsePolicy.ParseLinesSound` | src/parser.ts:53-59 | every enqueued value is a truthy parse result of one of the lines, and every `onError` call pairs a thrown error with the line that raised it, made only when the callback was supplied |
| `ParsePolicy.StreamOfLines` | src/parser.ts:47-70 | for text made of complete lines then a carry text, the whole-stream output is the lines' output followed by what `flush` makes of the carry text |
| `ParsePolicy.FinalLineWithoutDelimiter` | src/parser.ts:62-69 | a non-empty final line without a trailing `'\n'` is handled by `flush` exactly as it would be with one |
| `ParsePolicy.EmptyInput` | src/parser.ts:49-63 | no chunks, or only empty chunks, followed by `flush`, yield no record and no `onError` call |
| `ParsePolicy.BrokenRecordReportedPerFragment` | test/index.test.ts:102-131 | a record broken into three fragments by raw newlines between two good records: the two good records are enqueued in order and `onError` is called three times, once per fragment, with that fragment's text |
| `LineStream.ResolveConfig` | src/parser.ts:43 | a supplied parser wins over the default `parseJson`; truthiness is the given predicate; errors are reported exactly when an `onError` callback was supplied |
| `LineStream.LineStreamTransformer.constructor` | src/parser.ts:40-46 | the parser is `options.parser` when given and the default parser otherwise; the carry buffer starts empty, with nothing enqueued or reported |
| `LineStream.LineStreamTransformer.ParseAndEmit` | src/parser.ts:54-59 | one guarded parser call: appends a truthy result to the queue, drops a falsy one, and records `(error, line)` as an `onError` call when the callback exists; the parser call itself is logged |
| `LineStream.LineStreamTransformer.ParseEach` | src/parser.ts:53-60 | the `forEach` over complete lines: the queue and the `onError` calls grow by exactly the output of those lines, in order, and the parser is called on exactly those lines, in order |
| `LineStream.LineStreamTransformer.Transform` | src/parser.ts:47-61 | the new carry buffer is the last piece of splitting old carry plus chunk; the other pieces are handed to the parser in order, as the only parser calls, and their outputs are appended; the text invariant and the newline-free carry buffer are kept; a chunk without `'\n'` only extends the carry buffer and makes no parser call |
| `LineStream.LineStreamTransformer.Flush` | src/parser.ts:62-70 | with an empty carry buffer nothing happens and the parser is not called; otherwise the carry buffer is handled as one last line; the carry buffer itself is not cleared; the text invariant is kept |
| `LineStream.RunTransform` | src/parser.ts:40-72 | feeding chunks to `transform` in arrival order and then calling `flush` yields exactly `ParseStream` of the concatenated chunks, and calls the parser on exactly `StreamLines` of that text, in order |
| `LineStream.CompareChunkings` | test/index.test.ts:78-101 | feeding the chunks one by one and feeding their concatenation as one chunk give the same records, the same `onError` calls and the same sequence of parser calls |

## Left out

- Text decoding (src/parser.ts:44, src/parser.ts:48) is not modelled: chunks are already-decoded strings.
  The code calls `TextDecoder.decode(chunk)` without `{stream: true}`, so each chunk is decoded on its own: a multi-byte character split across chunks is not reassembled, and a byte-order mark (U+FEFF) at the start of any chunk, not only the first, is dropped.
  The model's chunk-boundary independence therefore holds for decoded text only and says nothing about bytes split inside a character.
- `JSON.parse` in `parseJson` (src/parser.ts:28-30) is a foreign call. It is a parameter of type `string -> Outcome<V, E>`, as is any user parser.
- JavaScript truthiness of parsed values is a parameter `V -> bool`, not a definition over JSON values.
- `onError` is modelled by recording each call `(error, line)`. What the callback does, and an exception thrown by the callback itself, are not modelled.
- `TransformStream`, `controller.enqueue`, `JsonLineStream`/`pipeThrough` (src/parser.ts:86-92), `aggregateJsonStream` (src/parser.ts:97-111) and `JsonLines` (src/parser.ts:124-130) are asynchronous stream plumbing.
  Enqueueing is appending to `enqueued`.
  The host's protocol (every chunk to `transform` in order, then `flush`) is the driver `RunTransform`.
  Back-pressure, upstream I/O errors and cancellation are left out.
- Clearing the carry buffer at end of input: the code never clears `partialLine` (src/parser.ts:62-70), and neither does `Flush`.
  A `transform` after `flush` would re-read the old carry text, but the stream host never calls `transform` after `flush`.
- LineStream.RunTransform and LineStream.CompareChunkings: the parser is a pure function value, so `RunTransform` and `CompareChunkings` equate outputs only for a parser without state or side effects.
  For a parser with state, what the model does establish is that the parser is called on the same lines in the same order however the chunks fall (the ghost `calls` of `RunTransform` is `StreamLines` of the concatenated text).
- LineStream.LineStreamTransformer.constructor and LineStream.LineStreamTransformer.ParseAndEmit: `onError` is read once, as the boolean `hasOnError`.
  The code reads `options.onError` from the live options object at every failure (src/parser.ts:58, src/parser.ts:68), so a caller that sets or removes it after construction changes the behaviour; the model does not capture that aliasing.
- LineStream.LineStreamTransformer.ParseAndEmit: `controller.enqueue` cannot fail in the model.
  In the code it sits inside the `try` (src/parser.ts:56, src/parser.ts:66), so an enqueue that throws (for example on a cancelled or errored readable side) reaches `onError` with the line as if parsing had failed.
