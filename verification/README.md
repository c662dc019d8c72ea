# Verified model of the socket handoff and its streaming daemons

Apache hands a client socket to a streaming daemon, which fetches a reply from a language model and
streams it to the client as server-sent events. This project models the parts of that system where a
mistake loses, repeats or misreads bytes, leaks a socket or hangs a connection, and proves in Dafny that it
does not happen, or exactly when it does. `dafny verify dfyconfig.toml` checks everything.

Bytes are numbers below 256, C strings are byte sequences without a zero byte, times are integers, and
every call into the kernel, libcurl, APR, the allocator or the Go runtime is a parameter that says how the
call turns out. Every theorem therefore ranges over all outcomes of all calls.

**JSON in and out.** `JsonString` holds the string grammar of RFC 8259 section 7 with a reference decoder and
the UTF-8 encoding of RFC 3629 section 3. `GoStrings` is the Go daemon's fast reader and writer of string
bodies, `SseFrames` its framing, `RustChunks` the mock server's encoder. `JsonValue`, `NameOrder`,
`Placeholders`, `MessageContent` and `ContentWriter` are the hand-written JSON for prompts with
attachments: the bytes are the printed form of a value given by a simple list, and a parser reads them back;
`MessageMeaning` says what that value says, from prompt, attachments and images alone.
`JsonGrammar` shows that this parser accepts only what the grammar derives, as far as bytes go, and `Utf8Text` which
of all these bytes are UTF-8: what escaping, unescaping and the message writer keep, and when a bounded frame cuts a
character in two.
`Jsmn` (specification), `JsmnParser` (the in-place parser), `JsmnSound` and `JsmnTrees` are the tokenizer:
what any token list satisfies, and that well-formed texts give the preorder listing of their tree. `Handoff`
and `KeyLookup` are the key lookup and the termination of values inside the buffer that was parsed, and
`HandoffFields` goes from an object as it is written to the four fields it leaves behind.

**The io_uring daemon.** `WriteBuffers` is the compacting and growing buffer, `Connections` one connection
with its two ways of writing, `LoopEvents` what the loop reacts to, `EventLoop` the whole loop on its objects and links:
free list, dirty list, counters, the writes the ring has accepted and not completed, every handler, and runs of arbitrary
events. `LoopMachine` is the same loop on values, and every handler and every run is proved to do what it says;
`LoopRuns`, `LoopStreams` and `LoopRequests` are about its runs: who notices which event, how many clients are started,
what a request has received, what was sent, and how streams and requests end. `Serving` brings that back to the daemon. `LineAssembly` is the reassembly of upstream lines, `SseFormat` the bounded frame encoder and
the decoder of upstream lines, `ChunkRelay` which chunks of the mock server it relays, `CurlRelay` what a request may
queue for its client: the headers, the frames of the upstream's lines, the end marker. `Incidents` runs the loop into
the two things that can go wrong in it. `PoolQueues` and `ThreadPool` are the worker pool: the two queues
in memory, and the pool as interleaved steps of workers, event loop and kernel.

**Handoff and response.** `HandoffDeadline` and `SocketHandoff` are the Apache module: configuration limits,
the one deadline, retries, descriptor passing and socket ownership. `LazyHeaders` is the Go daemon's
response to one client. `PeakCounter` is the lock-free peak.

Where a promise turned out to hold only under a condition, the exact condition is a theorem:
`LosslessIff` and `ShownOnceIff` (an attachment with an empty name), `KeepsToKeysIff` and `AllKeysFoundIff` (the
lookup steps over values by a rule that is wrong for arrays; `PromptBehindList` is a document whose prompt it does not
find), `NumberFieldsIff` (numbers too wide for their field), `FullMeansFullIff` (an append refused below the limit; the
comment in `write_buffer.c` says "would exceed max size", the code refuses earlier, as `RefusedEarly` shows),
`FoundAllIff` (zero bytes in an upstream stream), `WholeIff` and `RoundTripIff` (what one bounded frame can
carry), `DecodesAlikeIff` and `ChunkArrivesIff` (escapes that the C decoder does not know), `CutFrameUtf8Iff` (a bounded
frame that ends inside a character, as `CutInside` makes one), `HandOver` (a message that is not sent whole).

Two of them are about runs of the event loop. A flush damages the dirty list exactly under the condition in
`FlushStreaming`, and `Incidents.DamageFromTheStart` goes from the start of the daemon to a damaged list. A completion
is taken for another connection's only after a write was abandoned: the ring accepted it, refused the timeout that
belongs to it, and the slot was freed with the write under way. `Run` says that in every run in which no accepted write
has its timeout refused every completion is that of the write its connection waits for and nobody is misled;
`Incidents.SlotReused` goes from any state with a connection about to stream to one that is.

## Model

| member | source | states |
|---|---|---|
| JsonString.Utf8RoundTrip | examples/streaming-daemon-go/backends/openai.go:411-439 | the bytes written for any scalar value read back, in front of any bytes, as that value |
| JsonString.LexPrint | examples/streaming-daemon-go/backends/openai.go:344-365 | a printed string body followed by a quote is read back item by item up to exactly that quote |
| JsonString.LexSound | examples/streaming-daemon-go/backends/openai.go:344-365 | whatever the strict lexer accepts is a printed body, a quote and the rest |
| GoStrings.UnescapeJSON | examples/streaming-daemon-go/backends/openai.go:380-449 | the index loop, with its error branches, computes the unescaping of one chunk after another |
| GoStrings.UnescapeDecodes | examples/streaming-daemon-go/backends/openai.go:380-449 | on every valid string body it equals the reference decoder: pairs combine, unpaired surrogates become U+FFFD |
| GoStrings.ScanToQuote | examples/streaming-daemon-go/backends/openai.go:344-365 | the scan loop advances by the recursive scan length |
| GoStrings.ScanStopsAtQuote | examples/streaming-daemon-go/backends/openai.go:344-365 | on every valid body the scan stops exactly at the closing quote, whatever follows |
| GoStrings.ExtractContentFast | examples/streaming-daemon-go/backends/openai.go:322-377 | the fast path returns the extraction, including all three ways of finding nothing |
| GoStrings.ExtractDecodes | examples/streaming-daemon-go/backends/openai.go:322-377 | when the bytes from the content's start are a valid body, the result is what the reference lexer and decoder make of it |
| GoStrings.ExtractBetween | examples/streaming-daemon-go/backends/openai.go:322-377 | the content is read wherever the patterns stand: behind the first delta, after anything without a content field, such as a role, a valid body is decoded as the grammar says |
| GoStrings.ExtractNothing | examples/streaming-daemon-go/backends/openai.go:322-377 | nothing is read without a delta, or without a content field behind the first one |
| GoStrings.AppendJSONEscaped | examples/streaming-daemon-go/backends/sse.go:99-121 | the loop appends the printed items of every byte, in order |
| GoStrings.EscapeRoundTrip | examples/streaming-daemon-go/backends/sse.go:99-121 | unescaping an escaped byte string gives it back, for every byte string |
| GoStrings.NoControlBytes | examples/streaming-daemon-go/backends/sse.go:97-121 | no byte below 0x20 is ever written inside a string |
| SseFrames.BuildFrame | examples/streaming-daemon-go/backends/sse.go:81-95 | the buffer built is the frame of the content |
| SseFrames.SentFramesAreFrames | examples/streaming-daemon-go/backends/sse.go:59-95 | every frame ends in a blank line and has no newline before it |
| SseFrames.FramesSplitUniquely | examples/streaming-daemon-go/backends/sse.go:78-95 | any concatenation of frames, cut after every blank line, gives exactly those frames |
| SseFrames.ReadSentFrame | examples/streaming-daemon-go/backends/sse.go:78-95 | the content of a frame reads back |
| SseFrames.StreamRoundTrip | examples/streaming-daemon-go/backends/sse.go:78-121 | a client recovers every content of every stream of arbitrary byte strings |
| RustChunks.JsonEscape | examples/mock-llm-api/src/patterns.rs:248-265 | the loop over characters pushes the printed escapes |
| RustChunks.DecodeEscapedChars | examples/mock-llm-api/src/patterns.rs:248-265 | the escaped string decodes to the UTF-8 bytes of the characters |
| RustChunks.MakeChunk | examples/mock-llm-api/src/patterns.rs:185-193 | the formatted text is the chunk line and a blank line |
| RustChunks.ChunkRoundTrip | examples/mock-llm-api/src/patterns.rs:185-193 | the Go daemon reads every Unicode string out of the Rust server's line as its UTF-8 bytes |
| RustChunks.ChunkIsOneLine | examples/mock-llm-api/src/patterns.rs:185-193 | a chunk has newlines only as its last two bytes |
| JsonValue.ParseShow | examples/streaming-daemon-go/backends/langgraph.go:820-919 | the strict parser reads every printed value back, with any bytes after it |
| JsonGrammar.ValueSound | examples/streaming-daemon-go/backends/langgraph.go:820-919 | whatever the strict parser accepts is derived, byte by byte, by the grammar: the text of a syntax tree, followed by the rest it returns, and its value is what the tree means; that bytes outside ASCII are UTF-8 is not asked here |
| NameOrder.SortNames | examples/streaming-daemon-go/backends/langgraph.go:755-761 | any walk of a set of names is sorted into its increasing listing |
| NameOrder.ListingUnique | examples/streaming-daemon-go/backends/langgraph.go:754-761 | a set of names has only one increasing listing, so the map's iteration order cannot matter |
| Placeholders.ParsePlaceholders | examples/streaming-daemon-go/backends/langgraph.go:672-729 | the index loop cuts the prompt into the specified parts |
| Placeholders.ScanLossless | examples/streaming-daemon-go/backends/langgraph.go:677-721 | writing every resolved part back as its placeholder restores the prompt |
| Placeholders.LosslessIff | examples/streaming-daemon-go/backends/langgraph.go:672-729 | that holds for every prompt if and only if no attachment with text other than {} has the empty name |
| Placeholders.ReferencedKnown | examples/streaming-daemon-go/backends/langgraph.go:742-753 | only attachments of the map are ever counted as referenced |
| Placeholders.ShownOnceIff | examples/streaming-daemon-go/backends/langgraph.go:742-770 | no attachment is shown both at a placeholder and among the unreferenced, for every prompt, if and only if none has the empty name |
| Placeholders.PartsRead | examples/streaming-daemon-go/backends/langgraph.go:672-729 | which placeholders are resolved, byte by byte: the prompt shows an attachment exactly where a brace that no earlier open brace waits before is followed by a known name and a closing brace, and every other byte as it is |
| Placeholders.LoneBraceHides | examples/streaming-daemon-go/backends/langgraph.go:672-729 | an earlier brace without its closing one hides a placeholder with a known name |
| MessageContent.MergedMeaning | examples/streaming-daemon-go/backends/langgraph.go:824-837 | merging leaves no empty and no adjacent texts, and keeps the character and attachment sequence |
| MessageContent.ShowText | examples/streaming-daemon-go/backends/langgraph.go:832-834 | the bytes written for a text element are its printed JSON |
| MessageContent.ShowImage | examples/streaming-daemon-go/backends/langgraph.go:839-850 | the bytes written for an image element are its printed JSON |
| MessageContent.ShowDocument | examples/streaming-daemon-go/backends/langgraph.go:852-863 | the bytes written for a document element are its printed JSON |
| ContentWriter.ArrayWriter.AppendBinary | examples/streaming-daemon-go/backends/langgraph.go:865-886 | what is written so far stays the printed array of the merged pieces, whichever way the format treats the attachment |
| ContentWriter.CollectUnreferenced | examples/streaming-daemon-go/backends/langgraph.go:750-770 | the names collected are the increasing listing of the unreferenced attachments |
| ContentWriter.AnyBinary | examples/streaming-daemon-go/backends/langgraph.go:772-799 | the three searches find a part that needs an array exactly when there is one; by MessageMeaning.ListIff that is when there is an image or the message holds an attachment |
| ContentWriter.AppendPlain | examples/streaming-daemon-go/backends/langgraph.go:801-818 | without such a part one printed string is appended: prompt text, kept placeholders, trailing texts |
| ContentWriter.AppendArray | examples/streaming-daemon-go/backends/langgraph.go:820-919 | with one, the printed array of the merged list is appended: binaries, images, prompt, trailing texts |
| ContentWriter.AppendContent | examples/streaming-daemon-go/backends/langgraph.go:739-920 | for every walk order of the map the bytes appended are the printed value of the list specification, and MessageMeaning.ContentSays says what that value says |
| ContentWriter.ContentDecodes | examples/streaming-daemon-go/backends/langgraph.go:739-920 | those bytes parse back to that value, and the value does not depend on the walk order |
| MessageMeaning.ListIff | examples/streaming-daemon-go/backends/langgraph.go:772-799 | an array is written if and only if there is an image or the message, described without the writer, holds an attachment |
| MessageMeaning.ContentSays | examples/streaming-daemon-go/backends/langgraph.go:739-920 | what the value says, as characters and attachments: the unreferenced attachments the format can show in name order, every image once, the prompt with each placeholder as its attachment or as text, the unreferenced texts; one string if all of it is characters, otherwise a list without empty or adjacent texts |
| MessageMeaning.NothingMissing | examples/streaming-daemon-go/backends/langgraph.go:739-920 | every attachment and every image that the format can show is in it, wherever the prompt names it |
| Jsmn.CountAgrees | examples/streaming-daemon-uring/jsmn.h:264-449 | from any state the pass without tokens reports the number the pass with tokens ends with |
| JsmnParser.Parser.ParseString | examples/streaming-daemon-uring/jsmn.h:189-259 | position, tokens and error code are those of the specified string scan, with and without tokens |
| JsmnParser.Parser.ParsePrimitive | examples/streaming-daemon-uring/jsmn.h:135-184 | the same for unquoted values, where the end of the text also ends them |
| JsmnParser.Parser.CloseBracket | examples/streaming-daemon-uring/jsmn.h:304-356 | the innermost open token is closed if its kind matches, and the next open one becomes the parent |
| JsmnParser.Parser.AfterComma | examples/streaming-daemon-uring/jsmn.h:375-392 | after a value the innermost open container is the parent again |
| JsmnParser.Parser.Parse | examples/streaming-daemon-uring/jsmn.h:264-449 | on a fresh parser the token array holds the specified tokens and the result is their number or the specified error |
| JsmnParser.Parser.CountTokens | examples/streaming-daemon-uring/jsmn.h:264-449 | without tokens the result is the specified count or error |
| JsmnSound.StepKeeps | examples/streaming-daemon-uring/jsmn.h:271-437 | every character keeps the tokens delimited, ordered and nested, and the parent index live or -1 |
| JsmnSound.RunKeeps | examples/streaming-daemon-uring/jsmn.h:271-437 | so does every run from every such state |
| JsmnSound.TokenizeSound | examples/streaming-daemon-uring/jsmn.h:264-449 | on success: closed tokens, matching brackets and quotes, strictly increasing starts, pairwise nested or disjoint, and the count agrees |
| JsmnSound.ClosingQuotesApart | examples/streaming-daemon-uring/jsmn.h:199-217 | the closing quote of one string lies inside no other string |
| JsmnTrees.RunValue | examples/streaming-daemon-uring/jsmn.h:264-449 | inside any context a written value adds exactly its preorder listing and counts once for its parent |
| JsmnTrees.TokenizeComplete | examples/streaming-daemon-uring/jsmn.h:264-449 | every well-formed text, with any blanks, tokenizes to the preorder listing of its tree, or runs out of tokens exactly when the listing does not fit |
| JsmnTrees.SmallerCap | examples/streaming-daemon-uring/jsmn.h:106-119 | with fewer tokens every text gives the same result or runs out of them |
| Handoff.JsonFindKey | examples/streaming-daemon-uring/json.c:48-82 | the loop over the token array returns the specified index |
| Handoff.LookupSurvives | examples/streaming-daemon-uring/handoff.c:140-155 | every lookup gives the same answer after closing quotes were overwritten |
| Handoff.TerminatedIsCString | examples/streaming-daemon-uring/handoff.c:143-155 | each terminated value is a C string of exactly its token's length and bytes |
| Handoff.TextAfterQuotes | examples/streaming-daemon-uring/handoff.c:140-155 | only closing quotes of string tokens were overwritten |
| Handoff.Trim | examples/streaming-daemon-uring/handoff.c:102-113 | the trimmed range loses exactly the blanks and zero bytes at both ends |
| Handoff.SignedReads | examples/streaming-daemon-uring/json.c:34-46 | every number written in decimal reads back, saturated to 64 bits |
| Handoff.NumberFieldsIff | examples/streaming-daemon-uring/handoff.c:128-138 | a number token is read exactly if and only if it fits 64 bits, and `user_id` or `max_tokens` keeps what its width keeps: the 32-bit field is right if and only if the number fits it |
| Handoff.HandoffParseData | examples/streaming-daemon-uring/handoff.c:99-158 | all four fields and the whole final buffer are those of the original text, although the lookups after the first string field read a changed buffer; HandoffFields.ParseWritten says what they are |
| HandoffFields.ParseWritten | examples/streaming-daemon-uring/handoff.c:99-158 | on an object as it is written, from the first member of each name whose preceding values are stepped over exactly: `user_id` and `max_tokens` are the number written if and only if it fits the field, `prompt` and `model` lead to C strings of the bytes written, and what is missing or of another kind leaves 0 and no pointer; an object with too many tokens leaves nothing |
| KeyLookup.SimpleValuesMeasured | examples/streaming-daemon-uring/json.c:65-79 | scalars, empty containers and objects of scalars are stepped over exactly |
| KeyLookup.ScalarArraysOvershoot | examples/streaming-daemon-uring/json.c:65-79 | every non-empty array of scalars is stepped over too far |
| KeyLookup.FindKeyFirst | examples/streaming-daemon-uring/json.c:48-82 | on well-formed objects the lookup finds the first matching key's value, or none, as soon as the values before it are stepped over exactly |
| KeyLookup.KeepsToKeysIff | examples/streaming-daemon-uring/json.c:62-79 | the first n steps of the walk lead from key to key if and only if the first n values are stepped over exactly |
| KeyLookup.AllKeysFoundIff | examples/streaming-daemon-uring/json.c:48-82 | on objects with distinct keys and no value that takes more tokens than are skipped for it, every key is found if and only if every value but the last is stepped over exactly |
| KeyLookup.OvershootHidesNextKey | examples/streaming-daemon-uring/json.c:72-75 | the first value that is stepped over too far hides the key after it: its value is never what the lookup of that key reports |
| KeyLookup.ListHidesKey | examples/streaming-daemon-uring/json.c:48-82 | in an object whose first value is a list of one string, the lookup of the next key reports that there is none |
| KeyLookup.PromptBehindList | examples/streaming-daemon-uring/json.c:48-82 | a document of 23 bytes whose prompt is not found |
| WriteBuffers.FullMeansFullIff | examples/streaming-daemon-uring/write_buffer.c:51-113 | "full" is answered only over the limit, exactly when growing does not overshoot it |
| WriteBuffers.RefusedEarly | examples/streaming-daemon-uring/write_buffer.c:97-103 | an idle and a busy buffer that refuse data although the limit is not reached |
| WriteBuffers.WriteBuffer.Compact | examples/streaming-daemon-uring/write_buffer.c:86-91 | moving the pending bytes down keeps the queue |
| WriteBuffers.WriteBuffer.MakeRoom | examples/streaming-daemon-uring/write_buffer.c:51-113 | exact answers for full and out of memory; the queue is kept; with a write in flight every byte keeps its offset |
| WriteBuffers.WriteBuffer.Append | examples/streaming-daemon-uring/write_buffer.c:51-120 | a success appends exactly the data, a failure keeps the queue, bytes in flight do not move |
| WriteBuffers.WriteBuffer.Consume | examples/streaming-daemon-uring/write_buffer.c:122-138 | the first bytes leave the queue, at most all, with the offsets reset when it drains |
| Connections.Conn.Queue | examples/streaming-daemon-uring/curl_manager.c:327-344 | exactly when the append succeeds; bytes taken off and queue stay the concatenation of appends, and the bytes in flight stay in place |
| Connections.Conn.Submit | examples/streaming-daemon-uring/daemon.c:517-549 | the write handed over is the whole queue, at its offset |
| Connections.Conn.Complete | examples/streaming-daemon-uring/daemon.c:567-574 | a short or full completion takes exactly the first bytes off the queue and counts them; of the write the connection waits for, the client has accepted as much, of any other nothing is delivered (which of the two it is, the ring decides: EventLoop.Daemon.RingSlot) |
| Connections.Conn.Accept | examples/streaming-daemon-uring/daemon.c:720-737 | on the path without a buffer a completion counts its bytes and, if it is that of the write the connection waits for (EventLoop.Daemon.RingSlot), what the client has accepted stays the completed writes and the first bytes of the one under way |
| Connections.Conn.Resubmit | examples/streaming-daemon-uring/daemon.c:740-770 | after a short write exactly the rest of the message goes to the ring again |
| Connections.Conn.UnderWay | examples/streaming-daemon-uring/daemon.c:720-795 | when a write is accepted whole, the client has accepted the headers, every frame and, on a closing connection, the end marker, and that many bytes were counted |
| Connections.HandleEvent | examples/streaming-daemon-uring/daemon.c:517-574 | each event does exactly its part: an append that fits, a submission when idle data meets a ready ring, a completion of the first bytes |
| Connections.RunEvents | examples/streaming-daemon-uring/daemon.c:517-593 | for every interleaving, bytes taken off and queue are the concatenation of the successful appends, and the client has accepted what was taken if every completion is the connection's own |
| EventLoop.Daemon.constructor | examples/streaming-daemon-uring/connection.c:12-33 | all slots on the free list in order, and the whole invariant to start with |
| EventLoop.Daemon.ConnAlloc | examples/streaming-daemon-uring/connection.c:61-97 | the first free slot and an updated peak, or nothing changed when memory runs out |
| EventLoop.Daemon.MarkDirty | examples/streaming-daemon-uring/daemon.c:103-118 | the list stays acyclic with the right tail and flags, and gains the connection at its end, once |
| EventLoop.Daemon.UnmarkDirty | examples/streaming-daemon-uring/daemon.c:124-151 | the list loses the connection and keeps its order |
| EventLoop.Daemon.Cleanup | examples/streaming-daemon-uring/daemon.c:157-166 | the slot is off the dirty list, reset, and first on the free list |
| EventLoop.Daemon.Retire | examples/streaming-daemon-uring/daemon.c:552-566 | an ending bumps exactly its counter, adds the bytes sent if it completed, and restores the whole invariant, other connections untouched |
| EventLoop.Daemon.HandleAccept | examples/streaming-daemon-uring/daemon.c:354-409 | starts and dropped accepts are counted exactly |
| EventLoop.Daemon.HandleRecvFd | examples/streaming-daemon-uring/daemon.c:438-514 | every failure is counted once and frees the slot; success moves to the state of its path |
| EventLoop.Daemon.HandOver | examples/streaming-daemon-uring/ring.c:93-126 | after a submission and its timeout: the connection waits for the write if both are accepted; a write that is accepted and whose timeout is refused is in the ring with nobody waiting for it |
| EventLoop.Daemon.RingSlot | examples/streaming-daemon-uring/daemon.c:873-941 | a write in the ring is the one its slot waits for, and as long, unless a write was abandoned before |
| EventLoop.Daemon.Arrive | examples/streaming-daemon-uring/daemon.c:895-941 | a completion takes its write out of the ring and leaves every byte as it is; the slot then waits for none |
| EventLoop.Daemon.HandleCompletion | examples/streaming-daemon-uring/daemon.c:698-716 | a connection that the pool gives back streams on, completes or fails as its state says |
| EventLoop.Daemon.SendNext | examples/streaming-daemon-uring/daemon.c:792-870 | what the next write is, byte for byte, and exactly when it ends the connection as completed or failed |
| EventLoop.Daemon.HandleWrite | examples/streaming-daemon-uring/daemon.c:720-870 | for every completion in the ring, exactly whether and how the connection ends, counted once, and otherwise the exact bytes written next; if it is that of the write the connection waits for, as it is unless a write was abandoned before, the connection completes only when the client has accepted headers, frames and (if it could be submitted) end marker, and their number is added to the total |
| EventLoop.Daemon.StartStreaming | examples/streaming-daemon-uring/daemon.c:412-435 | the header block is under way, or the connection failed and is counted |
| EventLoop.Daemon.WorkerDone | examples/streaming-daemon-uring/pool.c:239-250 | a worker's result moves the connection on without touching lists or counters |
| EventLoop.Daemon.Push | examples/streaming-daemon-uring/curl_manager.c:396-429 | append, mark and state change keep the invariant; they happen exactly when the buffer accepts the bytes |
| EventLoop.Daemon.HandleLine | examples/streaming-daemon-uring/curl_manager.c:270-344 | a line is handled exactly when its frame is accepted or it has none; the lines relayed then grow by it |
| EventLoop.Daemon.TakeChunk | examples/streaming-daemon-uring/curl_manager.c:431-492 | of a chunk all complete lines are relayed in order and the unfinished one is held, or some are and the transfer is given up |
| EventLoop.Daemon.WriteCallback | examples/streaming-daemon-uring/curl_manager.c:396-492 | the same for any chunk, with the headers before the first one |
| CurlRelay.HeadersNext | examples/streaming-daemon-uring/curl_manager.c:401-429 | the headers are queued once, before anything else |
| CurlRelay.ChunkNext | examples/streaming-daemon-uring/curl_manager.c:431-474 | a chunk adds exactly the lines found in what was held and the chunk to those of the upstream so far |
| CurlRelay.LineNext | examples/streaming-daemon-uring/curl_manager.c:463-474 | what is queued grows by the frame of the next line, and stays headers, frames of the first lines in order |
| CurlRelay.DoneNext | examples/streaming-daemon-uring/curl_manager.c:722-746 | the end marker is queued once, after everything else |
| EventLoop.Daemon.RequestDone | examples/streaming-daemon-uring/curl_manager.c:722-746 | the connection is closing, with the end marker queued last and listed exactly when the request succeeded, headers were queued and the buffer accepts it |
| EventLoop.Daemon.TryImmediateWrite | examples/streaming-daemon-uring/curl_manager.c:361-391 | a write is in flight exactly if one was or could be submitted; a refusal strands nothing |
| EventLoop.Daemon.StartAsyncWrite | examples/streaming-daemon-uring/daemon.c:517-549 | queued data is in flight afterwards, or the connection failed and is counted |
| EventLoop.Daemon.HandleAsyncWrite | examples/streaming-daemon-uring/daemon.c:552-593 | for every completion in the ring, exactly how the connection ends: it completes only when closing with the queue drained, which for the write it waits for means every byte ever appended was accepted and counted; otherwise it waits with a write in flight or with nothing to send |
| EventLoop.Daemon.FlushStreaming | examples/streaming-daemon-uring/daemon.c:636-686 | for every outcome of the submissions: the walk damages the list if and only if a refused connection whose freed buffer reads as in use is followed, through refused ones only, by a drained one; then no list fits links and flags any more, and otherwise the list keeps its order, loses exactly the drained and the refused, every kept one with a buffer has a write in flight, and the refused are over and counted |
| EventLoop.Daemon.FlushTurn | examples/streaming-daemon-uring/daemon.c:640-685 | one turn of that walk: what its connection is met with, whether the list is damaged, and that the rest is still to be met with what was foreseen |
| LoopEvents.RefusedBeforeDrained | examples/streaming-daemon-uring/daemon.c:640-685 | of what a flush meets, a refused connection in front of a drained one is enough for damage, unless the freed buffer reads as empty or one that stays comes between; Incidents.FlushDamages is a state in which it meets that |
| Incidents.FlushDamages | examples/streaming-daemon-uring/daemon.c:636-686 | from any state with two requests that have not answered and an empty list: both queue their headers, the second one's arrive, the ring refuses the first one's write, and the flush leaves links and flags that no list fits |
| Incidents.DamageFromTheStart | examples/streaming-daemon-uring/daemon.c:943-1044 | a run from the start of the daemon to that point |
| Incidents.SlotReused | examples/streaming-daemon-uring/daemon.c:412-435 | from any state with a connection about to stream: its write is accepted and the timeout refused, the next client gets the slot, and the completion of the old write is taken for the headers of the new connection |
| EventLoop.Daemon.Harmless | examples/streaming-daemon-uring/daemon.c:640-685 | no flush damages the list when no refused connection leaves memory behind that reads as in use |
| EventLoop.Daemon.Process | examples/streaming-daemon-uring/daemon.c:873-941 | every event does to slots, lists, ring and counters exactly what the machine on values says, except a flush that damages the list, exactly under that condition; an event that hands over no write with a refused timeout abandons none |
| EventLoop.Daemon.AtBoundary | examples/streaming-daemon-uring/daemon.c:103-151 | the invariant written out: counters balance, live plus free slots are all slots, both lists are acyclic and hold exactly the flagged or unused slots, unsent idle data is listed, what was appended is headers, frames of the upstream's lines in order and end marker, bytes taken off and queue are what was appended, the client has accepted what was taken, or completed writes and part of the one under way, unless it was misled, and without an abandoned write nobody is |
| EventLoop.Daemon.Run | examples/streaming-daemon-uring/daemon.c:943-1044 | every run, up to the first flush that damages the list, goes event by event where the machine on values goes, with the invariant at every boundary: starts are the clients admitted, and a request that goes on has received exactly the chunks that came for it; no run without a stale reading after a refusal has such a flush; and in a run in which no accepted write has its timeout refused, starting without abandoned ones, no connection is ever misled |
| LoopRuns.Bystander | examples/streaming-daemon-uring/daemon.c:873-941 | an event changes the slot of a connection only if it is about it: an accept that takes it, a completion of its write, a flush while it is listed, or one with its number |
| LoopRuns.Isolated | examples/streaming-daemon-uring/daemon.c:943-1044 | so a run that is not about a connection leaves its slot alone |
| LoopRuns.StartedIsAdmitted | examples/streaming-daemon-uring/daemon.c:354-409 | over every run exactly the accepts that find a free slot and memory are counted as started |
| LoopRuns.UpstreamIsChunks | examples/streaming-daemon-uring/curl_manager.c:396-492 | while a slot stays in use and its transfer is not given up, what its request has received is the concatenation of the chunks that came for it |
| LoopRuns.SentIsReported | examples/streaming-daemon-uring/daemon.c:552-593 | on both write paths, over every run in which the slot stays in use and no worker of the pool reports on it, the bytes counted as sent are the sum of what its completions reported |
| LoopRuns.FlushMeets | examples/streaming-daemon-uring/daemon.c:636-686 | after a flush every listed connection has met its fate, whatever the flush does with the others: refused and over, drained and off the list, or listed with its buffer in flight |
| LoopStreams.PoolBegins | examples/streaming-daemon-uring/daemon.c:690-717 | a request for the pool ends as completed with the bytes its worker reports, or as failed, or begins a stream with the headers under way |
| LoopStreams.StreamGoesOn | examples/streaming-daemon-uring/daemon.c:720-870 | a stream whose writes are accepted whole, however its run interleaves with other connections: the client has accepted the headers and the frames of the messages so far, but for the last write, which is under way |
| LoopStreams.StreamEnds | examples/streaming-daemon-uring/daemon.c:720-870 | it ends only when the end marker is accepted: the client then has headers, every frame and end marker, and one completion with exactly these bytes is counted |
| LoopStreams.WholeStream | examples/streaming-daemon-uring/daemon.c:720-870 | for every list of texts that fit, from the accept to the end marker: one start, one completion and exactly the bytes of headers, frames and end marker are counted, and everything else is as before |
| LoopRequests.RequestGoesOn | examples/streaming-daemon-uring/daemon.c:517-593 | a relayed request, through every run in which its slot stays in use and completions are its own: accepted and unsent bytes are what was queued, and as much is counted as was accepted |
| LoopRequests.RequestEnds | examples/streaming-daemon-uring/daemon.c:552-593 | a completion that ends it counts it as completed if and only if it was closing and the client has now accepted everything queued, with these bytes, and as failed otherwise |
| Serving.ServeClient | examples/streaming-daemon-uring/daemon.c:943-1044 | the daemon run on the events of one such stream, from any state with a free slot: invariant and lists as before, one completion with those bytes counted |
| LineAssembly.SplitRestores | examples/streaming-daemon-uring/curl_manager.c:460-474 | the lines of a stream, their newlines and the rest are the stream |
| LineAssembly.SplitUnique | examples/streaming-daemon-uring/curl_manager.c:460-474 | and no other lines are |
| LineAssembly.CutAnywhere | examples/streaming-daemon-uring/curl_manager.c:431-484 | finding lines in two chunks one after the other is finding them in both together |
| LineAssembly.FoundIsPrefix | examples/streaming-daemon-uring/curl_manager.c:460-474 | with zero bytes, the lines found are those before the first of them and the rest is kept |
| LineAssembly.FoundAllIff | examples/streaming-daemon-uring/curl_manager.c:460-474 | all lines are found if and only if no newline follows a zero byte |
| LineAssembly.LostAfterNul | examples/streaming-daemon-uring/curl_manager.c:460-474 | a stream with a line that is never found |
| LineAssembly.NulFree | examples/streaming-daemon-uring/curl_manager.c:460-474 | without zero bytes the search is the exact split |
| LineAssembly.EitherEnding | examples/streaming-daemon-uring/curl_manager.c:460-474 | lines written with \n or \r\n, in any mixture, are found without their endings, and what follows the last is kept |
| LineAssembly.StrChr | examples/streaming-daemon-uring/curl_manager.c:463-463 | the first newline before any zero byte, or none |
| LineAssembly.LineBuffer.Feed | examples/streaming-daemon-uring/curl_manager.c:431-492 | one chunk hands on the found lines and keeps the rest, through growth and moving; a memory failure keeps what was held |
| LineAssembly.FeedAll | examples/streaming-daemon-uring/curl_manager.c:396-492 | for every cutting of a stream into chunks, the lines and the rest of the whole stream |
| SseFormat.WholeIff | examples/streaming-daemon-uring/streaming.c:136-186 | a text is kept whole if and only if all of it but its last byte escapes to fewer than 4089 bytes; 4089 for all of it is enough |
| SseFormat.CutFits | examples/streaming-daemon-uring/streaming.c:139-192 | the scratch buffer is never overrun and a relayed frame always fits its 8192 bytes |
| SseFormat.FormatSse | examples/streaming-daemon-uring/streaming.c:136-192 | the frame of the part kept, whose escapes are all complete, or -1 exactly when it does not fit |
| SseFormat.DecodeContent | examples/streaming-daemon-uring/curl_manager.c:291-309 | the loop into the fixed array computes the decoding, cut at 4095 bytes |
| SseFormat.ProcessSseLine | examples/streaming-daemon-uring/curl_manager.c:270-323 | wherever the content field stands in a data line, the frame of the text whose escape it carries; none exactly for the four kinds of line without content |
| SseFormat.EmptyIff | examples/streaming-daemon-uring/curl_manager.c:270-323 | nothing is relayed exactly of lines that are no data line, are the end marker, have no content field, or an empty one |
| SseFormat.DecodesAlikeIff | examples/streaming-daemon-uring/curl_manager.c:291-309 | a valid string body is read as RFC 8259 section 7 says if and only if it has no \b, \f and \u escape |
| SseFormat.DecodesClean | examples/streaming-daemon-uring/curl_manager.c:291-309 | a text without odd control bytes comes back from its escape |
| SseFormat.DecodesUnclean | examples/streaming-daemon-uring/curl_manager.c:291-309 | any other comes back wrong, at its first odd byte |
| SseFormat.RoundTripIff | examples/streaming-daemon-uring/streaming.c:136-192 | a text survives encoder and decoder if and only if it is not empty, kept whole, and has no control byte but \n, \r and \t |
| SseFormat.FrameLines | examples/streaming-daemon-uring/curl_manager.c:460-484 | a frame arrives as its line and an empty one, nothing held back |
| ChunkRelay.ChunkArrivesIff | examples/streaming-daemon-uring/curl_manager.c:270-323 | the C daemon takes a text out of the mock server's chunk unchanged if and only if it is not empty, has at most 4095 bytes, and no control character but newline, carriage return and tab |
| ChunkRelay.RelayChunk | examples/streaming-daemon-uring/curl_manager.c:270-344 | such a text is relayed, in the frame of what one frame holds of it |
| Utf8Text.UnescapeUtf8 | examples/streaming-daemon-go/backends/openai.go:380-449 | UTF-8 is unescaped to UTF-8, however its escapes are formed |
| Utf8Text.ExtractUtf8 | examples/streaming-daemon-go/backends/openai.go:322-377 | what the fast path extracts from UTF-8 is UTF-8 |
| Utf8Text.EscapeUtf8Iff | examples/streaming-daemon-go/backends/sse.go:99-121 | the escape of a byte string is UTF-8 if and only if the string is |
| Utf8Text.CutFrameUtf8Iff | tests/testclient/assertions.go:175-187 | the tests want UTF-8 in every answer: the bounded frame of a UTF-8 text is UTF-8 if and only if the text is kept whole or cut between two characters |
| Utf8Text.PlainFrameUtf8Iff | examples/streaming-daemon-uring/streaming.c:136-192 | for a text with nothing to escape, if and only if byte 4089, counted from 0, does not continue a character |
| Utf8Text.CutInside | examples/streaming-daemon-uring/streaming.c:136-192 | texts whose frame is not UTF-8: any character of two bytes after 4088 spaces |
| Utf8Text.ContentUtf8 | examples/streaming-daemon-go/streaming_daemon.go:1810-1825 | for a prompt, checked text attachments, MIME types and base64 that are UTF-8, the content value of a message is |
| PoolQueues.Ring.PutAppends | examples/streaming-daemon-uring/pool.c:188-202 | adding to a ring that is not full overwrites no undelivered entry |
| PoolQueues.Ring.DropTakes | examples/streaming-daemon-uring/pool.c:156-159 | taking removes the oldest entry only |
| PoolQueues.CompletionRing.TryAdd | examples/streaming-daemon-uring/pool.c:185-204 | in the array: append when not full, otherwise no change |
| PoolQueues.CompletionRing.GetCompletion | examples/streaming-daemon-uring/pool.c:152-163 | in the array: the oldest entry, or none exactly when empty |
| PoolQueues.WorkQueue.Enqueue | examples/streaming-daemon-uring/pool.c:127-146 | in the linked list: append, or no change without memory |
| PoolQueues.WorkQueue.Dequeue | examples/streaming-daemon-uring/pool.c:173-182 | in the linked list: the oldest item, or none exactly when empty |
| ThreadPool.PoolKept | examples/streaming-daemon-uring/pool.c:127-258 | every step of every thread keeps: submitted is delivered plus pool, and each connection is in the pool at most once |
| ThreadPool.OrderKept | examples/streaming-daemon-uring/pool.c:127-204 | every step keeps the order of the queue and of the ring |
| ThreadPool.WakeupKept | examples/streaming-daemon-uring/pool.c:152-211 | every step keeps a non-empty ring announced |
| ThreadPool.CondKept | examples/streaming-daemon-uring/pool.c:214-227 | every step keeps enough workers awake for the queue, and exits only with an empty one |
| ThreadPool.AlwaysInv | examples/streaming-daemon-uring/pool.c:127-258 | all of this in every state of every run |
| ThreadPool.ExactlyOnce | examples/streaming-daemon-uring/pool.c:127-258 | a connection is in one of queue, worker and ring exactly if submitted and not yet delivered; delivery follows insertion order |
| ThreadPool.OneWaitsForRoom | examples/streaming-daemon-uring/pool.c:188-198 | while the ring is full at most one worker waits for room |
| ThreadPool.NoLostWakeup | examples/streaming-daemon-uring/daemon.c:690-717 | a non-empty ring has an eventfd count, a queued or running read, or a worker about to signal; while the loop keeps reading some step towards collecting it is enabled |
| ThreadPool.DeliveryIsNear | examples/streaming-daemon-uring/daemon.c:690-717 | progress: from every state with a non-empty ring, while the loop keeps reading, at most five enabled steps deliver the oldest completion |
| ThreadPool.EverythingDelivered | examples/streaming-daemon-uring/pool.c:152-211 | and so at most five steps for each entry deliver all that was inserted, in order |
| ThreadPool.QueuedWorkIsNoticed | examples/streaming-daemon-uring/pool.c:214-231 | queued work always has a worker that is awake |
| ThreadPool.NothingLostAtExit | examples/streaming-daemon-uring/pool.c:165-171 | when all workers have exited, everything submitted was inserted, and is delivered or in the ring in order |
| HandoffDeadline.SetConnectTimeout | mod_socket_handoff.c:956-980 | accepted exactly from 1 to 60000 ms |
| HandoffDeadline.SetSendTimeout | mod_socket_handoff.c:982-1006 | accepted exactly from 1 to 60000 ms |
| HandoffDeadline.SetMaxRetries | mod_socket_handoff.c:1011-1035 | accepted exactly from 0 to 10 |
| HandoffDeadline.Configure | mod_socket_handoff.c:92-139 | however servers are configured and merged, each setting is what the last accepted directive for it says, or that of the base if there is none, so all stay within those limits |
| HandoffDeadline.BackoffsSum | mod_socket_handoff.c:168-173 | the backoffs of the loop add up to the closed form in the deadline |
| HandoffDeadline.BudgetFits | mod_socket_handoff.c:175-184 | for every accepted configuration no clamp is active |
| HandoffDeadline.ComputeHandoffDeadline | mod_socket_handoff.c:162-187 | the deadline is exactly now + (R+1)C + S + 10(2^R - 1) ms |
| HandoffDeadline.NeededStep | mod_socket_handoff.c:503-543 | after any attempt and backoff within their time, the rest of the budget covers all that follows |
| SocketHandoff.ConnectToSocket | mod_socket_handoff.c:316-474 | one new socket is left open exactly when the connection is usable; otherwise none, and the error of the first call that went wrong |
| SocketHandoff.NotReached | mod_socket_handoff.c:502-524 | an attempt that ends the loop without a connection is not followed by one that could have connected |
| SocketHandoff.TryOnce | mod_socket_handoff.c:503-518 | an attempt gets its whole timeout or what is left of the budget, none once it is spent; the clock moves by exactly what the attempt took |
| SocketHandoff.BackOff | mod_socket_handoff.c:525-550 | a backoff gets its whole delay or what is left, none once the budget is spent; the clock moves by exactly what the sleep took |
| SocketHandoff.OnTimeKeepsAll | mod_socket_handoff.c:490-554 | a run that keeps to its plan as a whole, whatever single calls or sleeps take, gets every timeout and backoff in full, does not expire, and leaves the send its timeout |
| SocketHandoff.TimelyIsOnTime | mod_socket_handoff.c:490-554 | a run in which each call and each sleep keeps to its own time keeps to that plan |
| SocketHandoff.PromptIsOnTime | mod_socket_handoff.c:490-554 | so does every run whose attempts and sleeps take no longer than configured, told from the inputs alone |
| SocketHandoff.ConnectWithRetry | mod_socket_handoff.c:490-554 | at most one socket stays open; only transient errors are retried; every attempt and sleep gets what it asks for or what is left; an accepted attempt after transient errors is reached; on a run that keeps to its plan nothing is shortened, the loop never expires, S ms remain, and it connects exactly when some attempt does after transient errors only |
| SocketHandoff.SendFdWithData | mod_socket_handoff.c:229-308 | the descriptor counts as sent exactly when the whole message went |
| SocketHandoff.HandOver | mod_socket_handoff.c:802-862 | every socket opened is closed; the connection is swapped and aborted exactly when the descriptor went, provided messages go whole; on a run that keeps to its plan exactly when an attempt connects and the send succeeds |
| SocketHandoff.OutputFilter | mod_socket_handoff.c:695-912 | for every way through the filter: what the calls are given and how the clock moves, the right error page and the original socket, or the client handed over; if no attempt or sleep takes longer than configured, it is handed over if and only if an attempt connects after transient errors only and the whole message is sent |
| LazyHeaders.WriteAll | examples/streaming-daemon-go/streaming_daemon.go:308-324 | a prefix goes out, all of it unless an error is returned, even on a connection that writes short without one |
| LazyHeaders.WriteErrorResponse | examples/streaming-daemon-go/streaming_daemon.go:329-346 | a prefix of the response goes out and is counted, none without a deadline |
| LazyHeaders.LazyConn.Write | examples/streaming-daemon-go/streaming_daemon.go:361-387 | headers are begun once; the count returned is of the body alone; a cut inside the headers counts nothing |
| LazyHeaders.RunBackend | examples/streaming-daemon-go/streaming_daemon.go:1372-1374 | for every backend the count is exactly what the client accepted of its frames, each in part and in order; all of them whole when every write is accepted |
| LazyHeaders.StreamToClient | examples/streaming-daemon-go/streaming_daemon.go:1351-1407 | the wire holds headers in part, body, then at most one error event; or one error response when nothing was written; the total counts all but the event; which of them is sent, and that it is sent whole when the connection takes it |
| LazyHeaders.Recover | examples/streaming-daemon-go/streaming_daemon.go:1083-1096 | after a panic the error event or the error response goes out, as the headers say: a prefix of it, all of it when the connection takes it |
| LazyHeaders.Reject | examples/streaming-daemon-go/streaming_daemon.go:1104-1138 | a request that is not understood gets a prefix of the response with its reason, all of it when the connection takes it |
| LazyHeaders.HandleConnection | examples/streaming-daemon-go/streaming_daemon.go:1006-1222 | at most one status line per client, a panic included, every stream started is ended and counted once, and the byte counter grows by exactly what the response had; an obliging client gets exactly headers and frames |
| PeakCounter.StepKeepsInv | examples/streaming-daemon-go/streaming_daemon.go:110-133 | every step raises or keeps the peak, and somebody is on the way to the maximum unless it is reached |
| PeakCounter.PeakNeverFalls | examples/streaming-daemon-go/streaming_daemon.go:114-122 | over every run the peak never decreases |
| PeakCounter.PeakIsTheMaximum | examples/streaming-daemon-go/streaming_daemon.go:110-133 | it never exceeds the largest active count, and equals it whenever nobody is in the loop |
| PeakCounter.MaxActiveIsMax | examples/streaming-daemon-go/streaming_daemon.go:110-133 | that largest count is an upper bound that was reached |
| PeakCounter.ActiveCounts | examples/streaming-daemon-go/streaming_daemon.go:125-133 | the active count is the number of streams between start and end |

## Left out

- Sizes are unbounded: inputs of 2 GiB and more, where the C code's `int` positions and `size_t` sums could wrap, are not modelled.
- The MIME test for images (a case-insensitive prefix) is a parameter, so which MIME types are images is not modelled.
- `appendMultimodalContent`, the LangGraph event parser and the request builders: further printers of the same kind.
- The Go and Rust daemons' HTTP clients, TLS, metrics, logging, signal handling and configuration files.
- KeyLookup.FindKeyFirst: says what is found while the walk keeps to the keys, and KeepsToKeysIff says exactly when it does. Once it has left them it goes on inside or behind a value, and whether a later key is then met depends on the tokens found there.
- JsmnTrees.TokenizeComplete: keys with values only, as in a well-formed JSON text; what the tokenizer does with other texts is covered by JsmnSound.TokenizeSound.
- Connections.Conn.Submit: the address of the buffer is not modelled, only offsets and contents; `realloc` may move the memory the kernel was given.
- Connections.Conn.Complete: after a completion that was not its own, nothing is claimed of what that connection's client accepts.
- Connections.RunEvents: starts once the headers are queued, as every submission does; EventLoop.Daemon.Push is the append before.
- EventLoop.Daemon.HandOver: where the bytes of an abandoned write go is not modelled (its descriptor is closed, and may by then be the next client's), nor that the kernel links it with the next submission in place of its timeout.
- EventLoop.Daemon.TakeChunk: the line buffer is a value here; LineAssembly.LineBuffer.Feed is the same on its memory.
- EventLoop.Daemon.FlushStreaming: what the freed buffer of a refused connection reads as is a parameter, and nothing is claimed of the rest of a walk after it damaged the list.
- EventLoop.Daemon.Process: a completion of an abandoned write can be taken for one of a connection that the pool holds; what happens when the pool gives that connection back is not modelled. Every closing connection being freed after a failed request is not claimed.
- EventLoop.Daemon.Run: ends at the first flush that damages the list.
- LoopStreams.StreamEnds: writes that are accepted in parts are not followed through a whole run; EventLoop.Daemon.HandleWrite is one such step.
- LoopRequests.RequestEnds: what is queued is headers, frames and end marker by EventLoop.Daemon.AtBoundary, and a flush that ends a request counts it by EventLoop.Daemon.FlushStreaming; neither is repeated here.
- MessageMeaning.NothingMissing: an attachment that the prompt names twice is shown twice; MessageMeaning.ContentSays says where.
- EventLoop.Daemon.WorkerDone: the worker's change of state is one step; the time between is the state `LlmQueued`. How many bytes it sent itself is a parameter.
- Utf8Text.ContentUtf8: base64 and MIME types are parameters that are asked to be UTF-8, and whether a frame of the curl path is UTF-8 is not followed back to the upstream.
- EventLoop.Daemon.HandleWrite: the pause between messages is not modelled, and which text comes next is a parameter.
- LineAssembly.LineBuffer.Feed: after a line was refused nothing is said about the buffer, because the transfer is then ended.
- ThreadPool.NoLostWakeup: nothing is claimed once a stop was requested, because the read is then not renewed, nor after a read could not be submitted; the same holds for DeliveryIsNear and EverythingDelivered.
- ThreadPool.Enabled: a ring of one slot is excluded, since no entry ever fits in it; submissions end before the pool is shut down, and only connections outside the pool are submitted, as in the event loop. `Init` starts after all threads were created.
- SocketHandoff.ConnectWithRetry: an interrupted `poll` starts again with its whole timeout; of runs that fall behind their plan only the bounds on what each call is given are claimed.
- SocketHandoff.OutputFilter: the path check, header lookup and bucket brigades are reduced to their outcomes.
- LazyHeaders.LazyConn.Write: the vectored write is one call that sends a prefix; custom response headers are a parameter.
- LazyHeaders.RunBackend: a backend is a list of frames with an ending, and stops at the first failed write, as the backends do.
