# Verification of the record stream, the frame bus and the readers built on them

This project models the parts of the repository where several pieces of code must agree with one another, and
proves that they do:

- **The AES v2 record stream**: nonce, associated data, inner frame, record framing, one-shot and chunked bodies,
  the Go `Sink` and `Source`, the C client's incremental parser and request builder, and the replay cache. The
  authenticated cipher is a parameter. Where a result needs its security it is *ideal*: opening succeeds exactly
  on what one of a set of streams sealed; `Streams.IdealCipherExists` shows that this can be met.
- **The frame bus and its clients**: the ring with its fan-out, the two chat projections, and the resumption of a
  chat stream from a cursor.
- **Incremental readers**: the transcript tailer against the one-pass replay, and a shell's scrollback with live chunks
  against everything it printed.
- **Three smaller parts**: the event grammars of the two streaming adapters, lexical path containment, and the
  inline JSON string printer.

Code that changes state in place is modelled by classes and methods over arrays, maps and sequences, and proved
against pure functions: `Streams` for `RecordStream` and `CClient`, `BusModel` for `Bus`, `ChatModel` for `Chat`,
`TranscriptModel` for `Watcher`, `ShellModel` for `Shell`. What those functions compute is in turn pinned by theorems
that do not mention them: `Streams.RecordReads` and `Bytes` on bytes, `ChatContents` on frames, `TranscriptContents` on lines
and blocks, `FsPath` on segments. The theorems over all inputs and all runs are about those
functions. A critical section under a mutex is one atomic step, so a run is a list of steps in any interleaving.

Where the code and its comments or a natural reading of it part, the code is followed, and the exact condition is proved:

- A reader's records are a prefix of the writer's exactly while the stream has fewer than 2^32 records
  (`Streams.PrefixSafety`); nothing in the code stops the counter from wrapping.
- The Go reader notices that a stream was cut if and only if the cut does not lie exactly between records
  (`Streams.TruncationIsNoticedIff`); the C client notices every cut (`CClient.GoToC`).
- The C parser refuses any single push that overflows its 4114-byte buffer, even when the push holds valid records
  (`CClient.OneBigPush`); the associated-data buffer of 512 bytes holds every counter's data if and only if the
  variable fields have at most 491 bytes (`CClient.AadFitsWhen`).
- The request reader's limit of 2048 records bites one early: 2047 records are the most it accepts
  (`EnvelopeBody.AcceptedBodies`).
- The replay window is only half of the configured one in each direction, and no request is accepted twice exactly
  when the window also covers the sub-millisecond part of the clock and the time between its two readings
  (`Replay.SafeExactly`); the default window leaves no slack for either (`Replay.DefaultWindowHasNoSlack`).
  `CheckTimestamp` also accepts the one timestamp 2^63 ms before now, where negating the difference overflows.
- The timestamp of a request is not part of what its records are bound to: with a fresh one, the same key id and stream
  id are accepted again if and only if the window has passed (`Replay.SamePairAcceptedAgainIff`).
- A subscriber can see frames at or before its cursor if and only if the cursor is ahead of the bus
  (`BusModel.CursorIsRespectedIff`), and a replay larger than its channel loses the part that did not fit
  (`BusModel.DeliveredIsContiguous`). A resumed chat stream gets every frame published since its snapshot if and only if
  they lie beyond its cursor, still stand in the ring, and fit the channel behind the replay (`ChatResume.NewFramesArriveIff`).
- The two chat projections agree on a run without a stop if and only if no text is taken for an earlier speaker's
  (`ChatRoles.SameIffNotParted`). With the roles that the program's own publishers use - user, assistant and none - that
  never happens (`ChatModel.SameWithoutStops`).
- The tailer counts one byte for every newline and none for a dropped carriage return. A turn from a line boundary
  publishes what a replay of the whole file does, whatever the file holds (`TranscriptModel.TurnIsReplay`); it ends at the
  end of the file, or beyond it, exactly as the two errors and an overlong line say (`TranscriptModel.TurnEndsAtEndIff`);
  and the next turn publishes something a second time if and only if a line among the bytes it scans again publishes
  anything (`TranscriptModel.PublishedOnceIff`).
- `aggregateChat` panics if and only if a text with the role "tool" follows a tool line directly (`Chat.AggregateChat`).
- With "/" as its base, `resolve` refuses every path that leads anywhere (`FsPath.RootItselfRefusesAll`).

## Model

| member | source | states |
|---|---|---|
| Envelope.DeriveNonce | internal/aes/envelope.go:210-215 | byte by byte: the first 8 stream bytes, and behind them the counter, most significant byte first |
| Envelope.NonceInjective | internal/aes/envelope.go:205-215 | two nonces are equal if and only if the first 8 stream bytes and the counters are |
| Envelope.BuildAad | internal/aes/envelope.go:223-239 | the text is CIB2, the direction, the key id, the route, the stream and a decimal numeral of the counter without leading zeros, each ended by a newline |
| Envelope.AadReads | internal/aes/envelope.go:223-239 | the associated data is that text and no other |
| Bytes.DecimalIsNumeral | internal/aes/envelope.go:236 | what is printed of a number has its value as a string of digits, and no zero in front |
| Envelope.AadInjective | internal/aes/envelope.go:217-239 | equal associated data means equal direction, key id, route, stream and counter; only the route may hold newlines |
| Envelope.EncodeInner | internal/aes/envelope.go:246-254 | refuses more than 4093 bytes, else writes the type, the length in two bytes and the payload |
| Envelope.InnerRoundTrip | internal/aes/envelope.go:241-269 | DecodeInner accepts exactly the frames of any length, each as the record it frames; within the record limit these are the encoder's |
| Envelope.InnerErrors | internal/aes/envelope.go:259-269 | a plaintext is too short under 3 bytes, and else misframed exactly when its length field is not the rest |
| RecordStream.SealRecord | internal/aes/stream.go:21-56 | what reaches the connection, in full, torn by a failed write, or nothing on a bad key or size |
| RecordStream.OpenRecord | internal/aes/stream.go:74-127 | the result, and what the reader has left, for every input, after every failure as well |
| RecordStream.SealOneShot | internal/aes/stream.go:135-152 | one record and the terminator, or which error and what was sent before it |
| RecordStream.OpenOneShot | internal/aes/stream.go:157-181 | the result on every input, with missing and trailing data told apart |
| RecordStream.OneShotAcceptsExactlyWhatWasSealed | internal/aes/stream.go:129-181 | under an ideal cipher a one-shot body is accepted if and only if it begins with the very bytes that were sealed |
| RecordStream.OneShotErrors | internal/aes/stream.go:157-181 | a one-shot body fails as its first record does, or for want of two bytes behind it, or because these are not zero |
| RecordStream.Sink.Write | internal/aes/stream.go:218-238 | exactly when it succeeds; the connection always holds the records written in full and at most a torn one; after a failure the sink is closed |
| RecordStream.Sink.Close | internal/aes/stream.go:247-261 | the terminator goes out once, and never after a failed write |
| RecordStream.Source.Next | internal/aes/stream.go:302-317 | delivers the next record of the whole-input decoding, and fails where and why that stops; called again after a failure it goes on at the same index |
| RecordStream.SourceYieldsPrefix | internal/aes/stream.go:273-317 | a source on any connection has yielded a prefix of what its stream's writer wrote, also by calls after failures |
| RecordStream.SinkToSource | internal/aes/stream.go:183-317 | what a sink wrote up to Close decodes to exactly its records and the terminator, whatever follows |
| Streams.RoundTrip | internal/aes/stream.go:74-127 | records on the wire and the terminator decode to that list, whatever follows |
| Streams.RecordReads | internal/aes/stream.go:21-56 | a record on the wire is the length of its frame, and the frame sealed under the key, a nonce and associated data that hold the record's index modulo 2^32, and nothing else |
| Streams.NoncesAreUniqueIff | internal/aes/stream.go:21-56 | a stream never uses a nonce twice if and only if it has at most 2^32 records |
| Streams.StopReasons | internal/aes/stream.go:74-127 | each reason for not opening a record, as an if-and-only-if on the key and the bytes |
| Streams.TruncationIsNoticedIff | internal/aes/stream.go:74-127 | a stream cut at any byte yields the records that arrived whole, and stops with a plain end of file if and only if the cut lies exactly between records, else with a frame error |
| Streams.CompleteIsLast | internal/aes/stream.go:39-56 | those records are the longest list whose bytes all lie before the cut |
| Streams.NoRecordLooksLikeTheTerminator | internal/aes/stream.go:39-64 | no record's length prefix is zero |
| Streams.OnlyOwnRecordsOpen | internal/aes/stream.go:96-127 | what opens at index i of a stream is its writer's i-th record, byte for byte |
| Streams.PrefixSafety | internal/aes/stream.go:280-317 | for all inputs the decoded records are a prefix of the writer's if and only if there are fewer than 2^32 |
| Streams.AcceptedBytesAreTheWriters | internal/aes/stream.go:280-317 | the bytes consumed by delivered records are a prefix of the writer's own bytes |
| Streams.IdealCipherExists | internal/aes/envelope.go:205-239 | every well-formed set of streams has an ideal cipher, so the hypothesis is not empty |
| CClient.NonceInto | clients/c/cib_aes.c:82-90 | the C nonce is the Go nonce |
| CClient.PrintAad | clients/c/cib_aes.c:93-104 | the C associated data is the Go one, or 0 exactly when it does not fit with its final NUL |
| CClient.EncodeInto | clients/c/cib_aes.c:152-161 | the C inner frame is the Go one, and exactly when it is refused |
| CClient.Parser.DrainStaging | clients/c/cib_aes.c:341-402 | the loop over the staging buffer leaves the state that decoding its bytes at once gives |
| CClient.Parser.PushBytes | clients/c/cib_aes.c:404-424 | a push has the effect of the pure push on records, status and kept bytes, and returns what it took |
| CClient.DrainAppend | clients/c/cib_aes.c:341-402 | decoding, appending and decoding on equals decoding everything at once |
| CClient.DrainLeavesLessThanARecord | clients/c/cib_aes.c:341-402 | less than one record stays buffered, so a byte always fits |
| CClient.ChunkingIndependence | clients/c/cib_aes.c:341-424 | every split of every body into pushes gives the records and status of the whole, up to the first push that overflows |
| CClient.ByteAtATime | clients/c/cib_aes.c:404-424 | pushed byte by byte no body overflows, however long |
| CClient.OneBigPush | clients/c/cib_aes.c:415-419 | a single push longer than the buffer is refused, a shorter one is decoded as a whole |
| CClient.AadFitsWhen | clients/c/cib_aes.c:93-104 | the 512-byte buffer suffices for every counter if and only if the variable fields have at most 491 bytes |
| CClient.ImplementationsAgree | clients/c/cib_aes.c:341-402 | on every byte string the C parser and the Go reader deliver the same records and stop for corresponding reasons |
| CClient.ParserIsExact | clients/c/cib_aes.c:341-402 | with every callback and every binding: the records up to the first that the callback refuses or whose associated data does not fit, and the status either way; all of them and the reader's own stop when there is none |
| CClient.GoToC | clients/c/cib_aes.c:341-515 | a sink's bytes cut anywhere, in any pieces that fit, give the records that arrived whole, and success if and only if nothing is missing |
| CClient.DeliversPrefix | clients/c/cib_aes.c:341-424 | for every list of pushes, overflowing ones included, and every callback, what is delivered is a prefix of the writer's records |
| CRequest.BuildOneShot | clients/c/cib_aes.c:249-289 | the request body is the bytes the Go one-shot writer would send, or which error |
| CRequest.CToGo | internal/server/aes.go:98-118 | under the binding the server makes of the route and of the headers it decodes, the Go body reader and one-shot reader get the C client's request back, whatever follows |
| CRequest.FreshIdsAreDistinct | clients/c/cib_aes.c:255-257 | requests with different stream ids differ in the stream field, and their fields are free of newlines |
| Hex.Encode | clients/c/cib_aes.c:48-55 | the characters written are the lower-case text of the bytes |
| Hex.Decode | clients/c/cib_aes.c:57-73 | returns bytes the text spells, and fails only when there are none or no room |
| Digits.ValueReads | clients/c/cib_aes.c:63-68 | the digits of both cases have their values, and nothing else has one |
| Hex.DecodeInvertsEncode | clients/c/cib_aes.c:48-73 | whatever the decoder's contract allows on encoded text is the bytes encoded |
| Hex.TextInjective | clients/c/cib_aes.c:48-55 | distinct byte strings have distinct texts of one line |
| EnvelopeBody.WriteChunkedJson | internal/server/aes.go:166-180 | succeeds if and only if the split body's records and the terminator fit the connection, and sends all of them or exactly what fits |
| EnvelopeBody.WriteJson | internal/server/aes.go:138-160 | the same for bodies of any size, small ones as one record |
| EnvelopeBody.ChunksJoin | internal/server/aes.go:166-180 | a split body has ceil(len / 4093) JSON records that join to the body |
| EnvelopeBody.BodyRecordsJoin | internal/server/aes.go:138-180 | every body, the empty one included, becomes JSON records of at most 4093 bytes that join to it |
| EnvelopeBody.ReadEnvelope1 | internal/server/aes.go:98-118 | the loop over a source computes the specified body or error |
| EnvelopeBody.AcceptedBodies | internal/server/aes.go:98-118 | a body is returned if and only if fewer than 2048 records of tolerated types decode and then end, and it is the JSON payloads joined |
| EnvelopeBody.RefusedBodies | internal/server/aes.go:98-118 | why a body is refused: the first record of an unexpected type among the first 2048, else too many records, else what stopped the reader |
| EnvelopeBody.RequestBodyRoundTrip | internal/server/aes.go:98-118 | any split body comes back, with heartbeats and end markers anywhere, and too many records are refused |
| EnvelopeBody.OneShotAcc.Callback | clients/c/cib_aes.c:435-449 | the accumulator's buffer, length and overflow flag after each record |
| EnvelopeBody.AccumulatorIsExact | clients/c/cib_aes.c:435-449 | the accumulator holds the body if and only if it fits the capacity, and without a buffer its length |
| EnvelopeBody.ResponseBodyRecovered | internal/server/aes.go:138-180 | the bytes WriteJson sends for a body, cut anywhere and pushed in any pieces that fit, make the C call succeed if and only if none is missing, and then leave its buffer with the body if and only if it is large enough |
| EnvelopeBody.BodyAccumulates | clients/c/cib_aes.c:435-449 | the same accumulation with heartbeats and end markers anywhere between a body's records |
| Replay.ReplayCache.CheckTimestamp | internal/aes/replay.go:63-74 | the int64 test on the truncated clock |
| Replay.TimestampOkMeans | internal/aes/replay.go:63-74 | accepted if and only if within half the window, or exactly 2^63 ms early |
| Replay.ReplayCache.EvictLocked | internal/aes/replay.go:84-90 | the sweeping loop removes exactly the entries older than the window |
| Replay.ReplayCache.CheckAndRecord | internal/aes/replay.go:46-58 | refused exactly when the key survives the sweep; the new map in both cases |
| Replay.CacheKeyInjective | internal/aes/replay.go:47-50 | two pairs share a cache key if and only if they are equal |
| Replay.RefusedIffSeen | internal/aes/replay.go:46-58 | over all runs a timely request is refused if and only if its pair was accepted within the window before it |
| Replay.SamePairAcceptedAgainIff | internal/aes/replay.go:46-58 | whatever its timestamp, a pair is accepted again if and only if more than the window has passed since it last was |
| Replay.SafeExactly | internal/aes/replay.go:46-90 | no run accepts a request twice if and only if the window covers both halves, the clock's sub-millisecond part and the time between its readings |
| Replay.WholeMillisecondsAreSafe | internal/aes/replay.go:46-90 | with a whole-millisecond clock read once, every window is safe |
| Replay.DefaultWindowHasNoSlack | internal/aes/replay.go:16-74 | with the default window that is also necessary |
| Bus.Bus.Publish | internal/stream/bus.go:42-70 | the step on seq, ring and every subscriber; a full one is dropped, a failed marshal only uses up a seq |
| Bus.Bus.Snapshot | internal/stream/bus.go:118-126 | exactly the last min(n, capacity) frames published, in order |
| Bus.Bus.Subscribe | internal/stream/bus.go:76-115 | registers a channel holding what fits of the retained frames after the cursor |
| Bus.Bus.Cancel | internal/stream/bus.go:158-167 | closes and removes the subscriber if it is still there, and is harmless otherwise |
| Bus.Bus.CloseAll | internal/stream/bus.go:136-143 | closes every channel once and removes it |
| BusModel.RetainedSeqs | internal/stream/bus.go:42-58 | after any run the retained seqs increase up to the last one, consecutively when everything marshals |
| BusModel.HistoryIsPublished | internal/stream/bus.go:42-58 | the history is exactly the payloads published, in order, and every publish uses up a seq |
| BusModel.StepKeeps | internal/stream/bus.go:42-167 | every step keeps the history increasing and each subscriber's account of what it was handed |
| BusModel.SubscriberDelivery | internal/stream/bus.go:60-105 | over all interleavings a subscriber gets increasing seqs, contiguous from the first retained frame after its cursor up to now or to the drop |
| BusModel.StaysOpenIff | internal/stream/bus.go:60-167 | over all runs a subscription ends if and only if a frame finds its channel full, it is cancelled, or the bus is closed |
| BusModel.SubscribedAt | internal/stream/bus.go:76-105 | a subscription keeps its cursor and capacity, 256 by default, and its replay is the retained frames after the cursor |
| BusModel.DeliveredIsContiguous | internal/stream/bus.go:91-105 | exactly which frames are missing when the replay does not fit the channel |
| BusModel.CursorIsRespectedIff | internal/stream/bus.go:60-105 | no later run delivers a frame at or before the cursor if and only if the cursor is not ahead of the bus |
| Chat.AggregateChat | internal/server/messages.go:135-207 | the loop over shared bubble objects computes the batch projection, each line as ChatContents describes it, and panics exactly when a text of role "tool" follows a tool line |
| Chat.FilterSince | internal/server/messages.go:108-124 | the bubbles with a larger seq, in order |
| ChatModel.SeqIsLastTouch | internal/server/messages.go:135-207 | every line's seq is that of the last frame that changed it |
| ChatModel.CursorIsExact | internal/server/messages.go:108-207 | a cursor query returns exactly the lines some later frame touched, in order |
| Chat.ChatAgg.StepFrame | internal/server/chat_stream.go:158-265 | one frame changes the bubble objects, open bubbles and pending tools as specified, and emits what that step may emit unless muted |
| Chat.ChatAgg.Warmup | internal/server/chat_stream.go:149-156 | all frames are stepped and nothing is emitted |
| ChatModel.EventsTellTheRun | internal/server/chat_stream.go:158-265 | replaying a run's chat and update events per bubble rebuilds the bubbles, in whatever order orphans are flushed |
| ChatModel.IncrementalRefinesBatch | internal/server/chat_stream.go:158-265 | at every moment the bubbles are the batch lines of each turn cut at the stops, with exactly the tools then pending marked as orphans, and of the turn under way |
| ChatContents.LinesAreDescribed | internal/server/messages.go:135-207 | for every frame list there is one line per voice, with the role and, in order, the texts of the frames about it, or the tool of its start and running or the summary of its result |
| ChatContents.TouchedIsLineOf | internal/server/messages.go:157-204 | which line a frame opens, extends or resolves, told from the frames alone |
| ChatContents.BubblesAreShown | internal/server/chat_stream.go:158-265 | the incremental bubbles are, turn by turn, those same lines, tools unfinished at the stop marked as orphans with its seq |
| ChatModel.SameWithoutStops | internal/server/messages.go:126-207 | without a stop the two projections are equal |
| ChatRoles.SameIffNotParted | internal/server/messages.go:126-207 | for all roles, without a stop the two projections are equal if and only if no text follows another non-user role's directly, or the user's with only an unknown role between; and once they part the incremental side stays shorter |
| Chat.OpenStream | internal/server/chat_stream.go:69-95 | the lines sent, the warmed-up aggregator and the cursor subscribed from, or the panic |
| ChatResume.TouchesAreBeforeSubFrom | internal/server/chat_stream.go:69-95 | every snapshot frame that opened, extended or resolved a line is at or before the cursor |
| ChatResume.RedeliveryIsHarmless | internal/server/chat_stream.go:79-114 | snapshot frames delivered again leave the aggregator as it was and emit only stop events |
| ChatResume.NewFramesArriveIff | internal/server/chat_stream.go:89-96 | after any bus steps a subscription delivers all new frames, last and without a gap, if and only if they lie beyond the cursor, still stand in the ring, and are none or fit the channel behind the replay |
| ChatResume.CursorWithinSnapshot | internal/server/chat_stream.go:69-94 | for a client whose cursor is not ahead of the bus all new frames lie beyond it |
| ChatResume.ResumeIsExactlyOnce | internal/server/chat_stream.go:65-114 | whenever they arrive, stepping what is delivered equals stepping each frame of the snapshot and each new one once |
| Watcher.Watcher.EmitContentBlocks | internal/cctranscript/watcher.go:329-390 | frames published and tool names remembered for each block, results joined to their tool's name |
| Watcher.Watcher.Emit | internal/cctranscript/watcher.go:259-327 | frames published for one parsed line, by its kind, and the one-shot call of the init callback |
| Watcher.Watcher.Poll | internal/cctranscript/watcher.go:130-177 | one turn of the loop on offset, tool names, frames and callback, for any size seen and any file scanned |
| Watcher.HistoryReplay | internal/cctranscript/watcher.go:183-203 | publishes the lines of the file as a fresh watcher would, nothing without a file, and fails if and only if a line is too long |
| TranscriptModel.CountedBytes | internal/cctranscript/watcher.go:166-176 | the bytes counted are those of the file, less dropped carriage returns, plus one for a missing newline |
| TranscriptContents.TokensAreLines | internal/cctranscript/watcher.go:164-173 | the tokens are the file's lines in order without a carriage return at their end, up to a line too long to scan |
| TranscriptContents.ReplayTells | internal/cctranscript/watcher.go:259-390 | the frames published of any file are, block by block: texts with their role, thinking, todos before their tool's start, each result with the name of the last tool used under its id before it and "" if and only if there is none, token counts before a stop |
| TranscriptModel.CalledWithFirst | internal/cctranscript/watcher.go:264-271 | the init callback is called at most once, with the first session id, and stays armed if and only if no line carries one |
| TranscriptModel.TurnIsReplay | internal/cctranscript/watcher.go:160-176 | a turn from a line boundary publishes the replay of the whole file, whatever follows the boundary |
| TranscriptModel.TailEqualsReplay | internal/cctranscript/watcher.go:122-203 | under any schedule of appends and polls of whole lines of any length the offset is a line boundary and the frames are the replay of the file up to it |
| TranscriptModel.PollCatchesUp | internal/cctranscript/watcher.go:122-203 | after any such schedule, one more append of any bytes at all and a poll leave the replay of the whole file |
| TranscriptModel.TurnEndsAtEndIff | internal/cctranscript/watcher.go:160-176 | from every offset a turn ends at the file's end if and only if every line fits and the carriage returns dropped equal the newline missing, and beyond it if and only if only a newline is missing |
| TranscriptModel.TurnIsQuietIff | internal/cctranscript/watcher.go:140-176 | a turn over an unchanged file publishes nothing if and only if no line it scans again publishes anything |
| TranscriptModel.PublishedOnceIff | internal/cctranscript/watcher.go:140-176 | two turns from a line boundary publish the file exactly once if and only if the second scans no line that publishes |
| Shell.Shell.OnRead | internal/shell/shell.go:246-273 | one chunk's effect on buffer and subscribers, the full ones dropped |
| Shell.Shell.Subscribe | internal/shell/shell.go:206-220 | a new subscriber with a copy of the scrollback |
| Shell.Shell.Unsubscribe | internal/shell/shell.go:223-232 | closes and removes a subscriber that is there, and ignores any other id |
| Shell.Shell.Reap | internal/shell/shell.go:276-298 | closes every channel still open, once |
| ShellModel.TrimmedIsLast | internal/shell/shell.go:246-258 | trimming after each chunk keeps exactly the last bytes of all the output |
| ShellModel.ScrollbackPlusLiveIsGapFree | internal/shell/shell.go:206-273 | over all runs scrollback and chunks are one stretch of the output, a suffix until the subscriber is dropped |
| ShellModel.ScrollbackIsLatest | internal/shell/shell.go:206-220 | a viewer that joins gets the last bytes printed, as many as the limit allows, and keeps them |
| ShellModel.StaysOpenIff | internal/shell/shell.go:223-298 | over all runs a viewer ends if and only if a chunk finds its channel full, it leaves, or the shell exits |
| ShellModel.OutputIsPrinted | internal/shell/shell.go:246-258 | the output is the chunks read, in order |
| Adapters.AnthropicStream | internal/server/anthropic.go:215-379 | the events on every exit path, entirely: an error alone before the stream is opened; else the opening, a delta for each non-empty assistant text up to the end of the turn, one error exactly when the prompt could not be written or the deadline came, and the closing events once; always a sentence of the grammar |
| Adapters.MessageStream.Turn | internal/server/anthropic.go:303-367 | the event loop emits a delta for each text of the turn and nothing else, and knows whether it timed out |
| Adapters.TurnEnds | internal/server/anthropic.go:303-367 | a turn lasts up to the first deadline, closed channel or stop, through the drain behind a stop, and times out if and only if that is the deadline or never comes |
| Adapters.DrainEnds | internal/server/anthropic.go:335-362 | the drain lasts up to the first input that is not a frame |
| Adapters.OpenAIStream | internal/server/openai.go:144-278 | the same, entirely, for the chunks and their grammar |
| Adapters.ChunkStream.Turn | internal/server/openai.go:221-271 | the same for the OpenAI event loop |
| FsPath.Containment | internal/fsapi/fsapi.go:66-87 | for every base but the root itself and every path, resolve succeeds if and only if the root is known, there is no NUL and the path leads to the base or below it, and returns that place |
| FsPath.UpAndDown | internal/fsapi/fsapi.go:81-86 | n times ".." and then names: accepted if and only if the names lead back down through the base's last n segments, with the base less these and then the names as the result |
| FsPath.ParentCancels | internal/fsapi/fsapi.go:81 | a name and the ".." behind it cancel anywhere in a path |
| FsPath.StandingStillChangesNothing | internal/fsapi/fsapi.go:81 | "." and empty segments change nothing anywhere in a path |
| FsPath.ParentEscapes | internal/fsapi/fsapi.go:82-85 | ".." is refused under every base but the root |
| FsPath.RelativeReads | internal/fsapi/fsapi.go:71-75 | of a path all between the spaces at its ends is used, less one slash in front |
| FsPath.RootItselfRefusesAll | internal/fsapi/fsapi.go:82-85 | under "/" everything but "/" is refused |
| FsPath.PrefixTest | internal/fsapi/fsapi.go:82-85 | the string test with separators is the segment-prefix test |
| FsPath.SiblingIsOutside | internal/fsapi/fsapi.go:82-85 | a sibling whose name continues the base's fails the string test |
| JsonText.JsonString | internal/auth/middleware.go:107-136 | the loop writes the escaped text in quotation marks |
| JsonText.PrinterInverse | internal/auth/middleware.go:107-136 | a decoder for section 7 of RFC 8259 accepts what is printed and gives the string back |
| JsonText.PrinterInjective | internal/auth/middleware.go:107-136 | no two strings are printed alike |

## Left out

- AES-GCM itself, key storage, random generation, HTTP, header parsing, sockets, PTYs and file access: the cipher, the clock, random bytes, the bytes of a connection or file, and what a channel delivers are inputs.
- JSON decoding of frames and transcript lines: frames carry parsed bodies, and the transcript's line parser is a parameter.
- Mutexes: each critical section is one step; a shell's id allocation and registration, two critical sections in the source, are one.
- uint64 sequence numbers and the subscription id counters are unbounded; overflow of `size * nmemb` in the C push is not modelled.
- Read and write errors other than an end of file or a connection that stops taking bytes, and flushing.
- NUL bytes inside the C client's strings, which `snprintf` would cut short; a failing allocation, cipher call or random generator in the C client.
- ChatResume.ResumeIsExactlyOnce: says nothing of the state reached when new frames are lost by the ring or the channel; NewFramesArriveIff says exactly when that is.
- TranscriptModel.TailEqualsReplay: covers whole lines with bare newlines; of carriage returns and partial lines PollCatchesUp and PublishedOnceIff cover one append and two turns, not a whole schedule of them.
- The shape of published payloads beyond the fields listed.
- FsPath.Resolve: works on lexical paths only, with `filepath.Clean` as a walk over segments; symbolic links are not followed by resolve itself.
- JsonText.JsonString: invalid UTF-8 in the input, which the source's loop would replace.
- aesEventsStream with its frame truncation, and the size of a frame's JSON.
- aggregateMessages, the other list form of the same frames.
- The Python client, which speaks envelope version 1, and providers, preferences, tokens, ports, login flows and the web UI.
