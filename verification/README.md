# A verified model of the sans-IO HTTP/1.x server

The server keeps all protocol logic in a core that never touches a socket: a resumable request parser, a
response encoder and a per-connection state machine. Several event loops drive that core. This project models the
core, the edge-triggered reactor, the io_uring runtime, the fork-per-connection loop, the path router and
the load generator's queue and reader, and proves what each piece promises the next one.

## How the project is organised

| files | what they hold |
|---|---|
| `Bytes.dfy`, `Http.dfy` | byte strings, the text operations the code borrows from its standard library, HTTP vocabulary |
| `RequestSpec.dfy` | the reference: what one buffer of bytes is, parsed in one go |
| `Unicode.dfy` | UTF-8 and white space, told by code points |
| `Texts.dfy`, `RequestMeaning.dfy` | trimming, splitting and letter case, and what a request line, a field, a length and a Connection field mean, said of their bytes |
| `RequestParser.dfy` | the incremental parser as a class, proved to agree with the reference after every push |
| `Chunking.dfy`, `Pipelining.dfy`, `RequestRoundTrip.dfy` | independence of chunk boundaries, many requests on a connection, print then parse |
| `Resets.dfy` | runs of push and reset against a parser new to the same bytes |
| `ResponseEncoding.dfy`, `ResponseReader.dfy` | the encoder, and the load generator's reader applied to what it writes |
| `ResponseMeaning.dfy` | the reader on any response, told by its lines, and on one cut short |
| `Connection.dfy`, `Refinement.dfy` | the connection class, and whole runs of it against a sequential server |
| `Replies.dfy`, `RequestErrors.dfy` | from the bytes of a request to the bytes of its reply, and whether the connection stays; every mistake and its status |
| `Kernel.dfy`, `Environment.dfy` | sockets, readiness edges and peers; the system calls, with nondeterministic results |
| `EventIo.dfy`, `ReactorTables.dfy`, `Reactor.dfy` | the read/write loop, the reactor's tables, the reactor |
| `Words.dfy`, `BufRing.dfy` | masks, casts and packed user_data; the provided-buffer ring |
| `UringState.dfy`, `UringSteps.dfy`, `Uring.dfy` | operations in flight and what they own, the steps of kernel and runtime, the runtime class |
| `UringReplies.dfy` | replies too long for the 32 bits that a send has for their length |
| `Router.dfy`, `LoadQueue.dfy`, `Forking.dfy` | the path trie, the load generator's threads, the child counter under signals |

The kernel is an environment that may do anything its interface allows. Peers act before every system call, reads
may be short, completions arrive in any order, closed descriptors are handed out again at once, children exit and
signals arrive between any two steps. Handlers are one uninterpreted function from requests to responses.

## What the statements rest on

- A short write means that the socket's send buffer was full.
- Each peer has a finite number of bytes still to send, which is why a drain ends.
- accept returns a descriptor that is not open, and close always releases its descriptor.

## Where the code and its comments differ

- `reset` documents only the bytes that it keeps. It also keeps the header list (core/src/http/request.rs:147-158). No
  field of an earlier request ever reaches a later one (`Resets.NoFieldFromBefore`), and a reset after a request or an
  error is as good as a new parser (`Resets.ResetAfterVerdictIsAsNew`). What shows is a reset inside an unfinished
  request: the fields already taken come back twice (`Resets.FieldTwice`). `Resets.ResetIsAsNew` says exactly when a
  reset shows. `Connections.Connection` resets only after a request, with the list empty.
- Chunk boundaries are meant to be invisible. A request line of exactly MAX_REQUEST_LINE bytes is accepted when its
  line end arrives whole and refused when a push ends between CR and LF (core/src/http/request.rs:209 and 217).
  `Chunking.ChunkingIndependence` and `Pipelining.ChunkingInvisible` are equivalences with exactly that condition.
- A comment in `drive_io` (server/src/models/event_io.rs:108-110) says that the loop goes on for a pipelined request
  already buffered. It goes on to the next read, and a buffered request waits for more bytes:
  `Refinement.PipelinedReplyWaits`.
- `submit_send` passes the pending length as 32 bits (server/src/models/io_uring.rs:539). Of a reply of 2^32 bytes or
  more the kernel is handed only what is over a multiple of 2^32. Once that is written the length comes out as zero,
  and the fallback reports a write of nothing and starts over with the same bytes, without end. A reply comes to that
  if and only if it has 2^32 bytes or more: `LongReplies.SpinsIffLong`, with an input in `LongReplies.LongReplyExists`.
  The runtime model stops in a `spinning` state there, and never does with shorter replies.
- The result of `push` is ignored (server/src/models/io_uring.rs:531, 555 and 562). A connection whose operation the full
  queue refused is never served again: no completion is ever for it (`UringSteps.NothingForTheLost`) and it stays as it
  is (`UringRuntime.Runtime.Run`). `UringSteps.NobodyForgotten` says that every other connection has its operation, and
  `UringRuntime.Runtime.Run` that only a queue found full twice loses one.
- `on_recv` returns before recycling when the result is zero or less (server/src/models/io_uring.rs:467-471). A buffer
  leaks if and only if it came with such a completion: `UringRuntime.Runtime.DrainCqes`.

## Model

| member | source | states |
|---|---|---|
| RequestSpec.FindCrlfExtends | core/src/http/request.rs:192-204 | a line end found stays where it is when bytes arrive, and one not found can only appear in the last byte or later |
| RequestSpec.ParseExtends | core/src/http/request.rs:160-182 | more bytes never change a decision, except for a request line at the limit that is cut inside its line end |
| RequestSpec.CompleteOnItsOwnBytes | core/src/http/request.rs:310-331 | a complete request is decided by exactly the bytes it consumes |
| Texts.TrimExactly | core/src/http/request.rs:37-41 | trimming takes off all the white space at both ends and nothing else |
| Texts.SplitExactly | core/src/http/request.rs:221-230 | splitting is the one way to write a text as parts without the separator, joined by it |
| Texts.ListsExactly | core/src/http/request.rs:37-41 | a word is among the comma-separated ones in any letter case, with white space around it, if and only if trimming and comparing part by part finds it |
| Unicode.Utf8Exactly | core/src/http/request.rs:232-282 | a path or a field is readable if and only if its bytes are how UTF-8 writes some scalar values, so no surrogate and no overlong form is |
| Unicode.SpacesExactly | core/src/http/request.rs:277-283 | the white space trimmed is what UTF-8 writes for the code points with that property |
| RequestMeaning.LookupExactly | core/src/http/headers.rs:18-23 | names match in any letter case and the first field of a name counts; none is found if and only if none has the name |
| RequestMeaning.RequestLineExactly | core/src/http/request.rs:221-243 | a line is accepted if and only if it is three non-empty parts with single spaces, a readable path and a known version, and then says just what they say; which error otherwise |
| RequestMeaning.FieldExactly | core/src/http/request.rs:268-290 | a field is accepted if and only if it has a colon, is readable and has a name; name and value are what is around its first colon, trimmed |
| RequestMeaning.LengthExactly | core/src/http/request.rs:296-308 | the length is n if and only if the first Content-Length is a numeral of n within the ceiling, 0 without one; over the ceiling, beyond a usize and not a number are the errors they should be |
| RequestMeaning.KeptExactly | core/src/http/request.rs:20-41 | HTTP/1.1 is kept unless the first Connection field lists close, HTTP/1.0 only if it lists keep-alive, without one HTTP/1.1 only |
| RequestMeaning.TooLongExactly | core/src/http/request.rs:206-219 | a request line is too long if and only if more than the limit has arrived and no line end begins within it |
| ResumePoints.FaithfulFromStart | core/src/http/request.rs:147-158 | starting over at the front of the buffer stands for the whole buffer |
| ResumePoints.FaithfulVerdict | core/src/http/request.rs:160-182 | resuming from the saved cursor gives the verdict of a parse from scratch |
| ResumePoints.FaithfulGrows | core/src/http/request.rs:139-142 | a saved cursor stays right when bytes are appended |
| RequestParsing.RequestParser.constructor | core/src/http/request.rs:121-136 | a new parser is the empty view with nothing scanned |
| RequestParsing.RequestParser.Push | core/src/http/request.rs:139-142 | the outcome of the whole accumulated buffer, whatever pushes came before; bytes conserved; scan steps never exceed bytes received; the buffer and header bounds while Incomplete |
| RequestParsing.RequestParser.Reset | core/src/http/request.rs:147-158 | leftover bytes and the header list are kept, everything else starts over |
| RequestParsing.RequestParser.Advance | core/src/http/request.rs:160-182 | the state loop ends and agrees with the one-shot parse of the buffer |
| RequestParsing.RequestParser.NextCrlf | core/src/http/request.rs:192-204 | the first CRLF of the line as a full rescan would find it, each scan step paid for by a byte |
| RequestParsing.RequestParser.ParseRequestLine | core/src/http/request.rs:206-244 | moves to the header block exactly when the reference accepts the line, same errors otherwise |
| RequestParsing.RequestParser.ParseHeaders | core/src/http/request.rs:246-294 | the header block is taken as the reference takes it, with the size and count ceilings |
| RequestParsing.RequestParser.DetermineContentLength | core/src/http/request.rs:296-308 | the length or the error of the reference, which RequestMeaning.LengthExactly ties to the bytes of the fields |
| RequestParsing.RequestParser.ParseBody | core/src/http/request.rs:310-331 | a complete request takes the header list with it and leaves exactly the bytes after it |
| Chunking.PushesAreOnePush | core/src/http/request.rs:139-182 | any pushes give the first status, the leftover bytes and the headers of one push of everything |
| Chunking.CutIsRefused | core/src/http/request.rs:206-219 | a push ending inside the line end of a request line at the limit is refused where one push is not |
| Chunking.ChunkingIndependence | core/src/http/request.rs:206-219 | the two agree if and only if no push makes that cut |
| Pipelining.AnyChunking | core/src/http/request.rs:139-158 | pushes with reset and an empty push after each request yield the requests of one pass over the stream |
| Pipelining.SomeChunkingDiffers | core/src/http/request.rs:206-219 | a stream with a request line at the limit has a chunking that loses a request or gains an error |
| Pipelining.LineAtLimitExists | core/src/http/request.rs:206-219 | there is a stream with a request line of the limit's length |
| Pipelining.ChunkingInvisible | core/src/http/request.rs:139-182 | every chunking of a stream agrees with one pass if and only if no request line has the limit's length |
| RequestRoundTrip.ParsePrint | core/src/http/request.rs:206-331 | a printed request whose first Content-Length is written as its body's length, or that has neither, parses back to itself and consumes its own length, whatever follows |
| RequestRoundTrip.ParsePrintedHead | core/src/http/request.rs:206-308 | a printed head is taken line by line, every field in its place, up to its empty line, whatever length it announces |
| RequestRoundTrip.RoundTrip | core/src/http/request.rs:139-331 | a cut-up pipeline of printed requests comes back in order, with each printed length and an empty buffer |
| RequestRoundTrip.RoundTripExactly | core/src/http/request.rs:206-331 | every cut of the pipeline round-trips if and only if no request line has the limit's length |
| RequestRoundTrip.RequestAtLimitExists | core/src/http/request.rs:206-219 | a request that can be sent and has a request line of the limit's length |
| Resets.ParseAfterCarried | core/src/http/request.rs:246-308 | a list that repeats the request's own fields changes neither decision nor framing, and only comes before the fields taken |
| Resets.RunOwnsItsFields | core/src/http/request.rs:139-158 | over any run the header list holds only fields of the request at the front of the buffer |
| Resets.NoFieldFromBefore | core/src/http/request.rs:139-158 | on any run of pushes and resets a request is the one its own bytes spell and every field of it is in them |
| Resets.ResetIsAsNew | core/src/http/request.rs:147-158 | after any run a reset parser answers all later calls as one new to the same bytes if and only if it holds no field or its request can never complete |
| Resets.ResetAfterVerdictIsAsNew | core/src/http/request.rs:147-158 | after a request or an error a reset parser answers all later calls as a new one |
| Resets.CompletedTellsThemApart | core/src/http/request.rs:147-158 | a request completed after a reset has the list held at the reset before its own fields |
| Resets.FieldTwice | core/src/http/request.rs:147-158 | an input: push a line and a field, reset, push the empty line, and the field comes back twice |
| ResponseEncoding.WriteUsize | core/src/http/response.rs:131-144 | every 64-bit length fits the 20-digit buffer and prints its decimal |
| ResponseEncoding.EncodeTo | core/src/http/response.rs:82-123 | appends status line, the caller's fields minus the two the encoder owns, Content-Length, Connection and, unless HEAD, the body |
| Bytes.ParseDecimal | core/src/http/response.rs:131-144 | the printed decimal of every usize parses back to it |
| ResponseReader.Reader.ReadOne | loadgen/src/main.rs:279-305 | the line-by-line reader consumes exactly what the one-shot reading says, with the same errors |
| ResponseReader.AfterFieldsIffHarmless | loadgen/src/main.rs:294-298 | the caller's fields leave the reader without an error if and only if each is harmless to it |
| ResponseReader.OneResponsePerCall | core/src/http/response.rs:82-123 | one call reads exactly one encoded response if and only if no field of it looks like a malformed Content-Length |
| ResponseReader.HeadReply | core/src/http/response.rs:107-121 | a reply without its body is read exactly if and only if the body was empty |
| ResponseReader.TrimmedNamesAreHarmless | loadgen/src/main.rs:309-316 | trimmed names without a colon are always harmless |
| ResponseReader.ManyResponses | loadgen/src/main.rs:271-306 | a sequence of encoded responses is read one per call and nothing of what follows is touched |
| ResponseMeaning.LineExactly | loadgen/src/main.rs:294-316 | a line replaces the length if and only if it is a Content-Length, in any letter case and with white space around its name, whose value is a numeral; it is an error if the value is none |
| ResponseMeaning.ReadsAnyResponse | loadgen/src/main.rs:279-305 | of any response, whoever wrote it, one call consumes the lines, the empty line with or without CR, and a body as long as the last Content-Length says, or fails if that is not all there |
| ResponseMeaning.CutShortIsAnError | loadgen/src/main.rs:279-305 | an encoded response of which any part is missing is never counted as a response |
| Connections.ActionsMatchState | core/src/conn.rs:64-107 | every action returned is the one the new state asks for, and bytes are pending exactly when it is WantWrite |
| Connections.Connection.OnBytes | core/src/conn.rs:64-70 | the new state and action, input ignored outside Reading, and scan steps bounded by bytes received over the connection |
| Connections.Connection.PendingWrite | core/src/conn.rs:73-78 | what is left of the response while writing, nothing otherwise |
| Connections.Connection.OnWritten | core/src/conn.rs:83-107 | partial writes move the cursor, a drained response closes or resets; no header is ever carried into the next request |
| Connections.Connection.HandleStatus | core/src/conn.rs:114-138 | the handler's answer with or without body, or the mapped error response and close |
| Refinement.StepKeepsInv | core/src/conn.rs:64-107 | each chunk fed and each write reported keeps what was sent and what is owed in step with the sequential server |
| Refinement.RunRefinesServe | core/src/conn.rs:64-107 | for every chunking and every pattern of short writes: sent, pending and still-owed bytes make up the sequential output |
| Refinement.SentIsAPrefix | core/src/conn.rs:83-107 | what was sent is a prefix of it, all of it on close, and all of it between requests if and only if no complete request is buffered |
| Refinement.PipelinedReplyWaits | core/src/conn.rs:98-106 | two requests in one chunk: the second stays buffered and unanswered after the first reply is out |
| Refinement.ClientSeesAPrefix | core/src/conn.rs:64-107 | bytes that arrive later do not change what has been said, unless those accepted end inside the line end of a line at the limit |
| Replies.EncodedIsRead | core/src/http/response.rs:82-123 | status and fields of an encoded response are read back off the wire: the caller's other than the two the encoder owns, in order, then Content-Length and Connection |
| Replies.StaysOpenExactly | core/src/conn.rs:83-138 | once a request's reply is written the connection reads on if and only if its bytes say so: its version, and the words its first Connection field lists |
| Replies.ReplyMeansWhatItSays | core/src/conn.rs:114-138 | for any complete request, the reply has the handler's status, fields and length, says keep-alive if and only if the connection then stays open, and its body follows the head unless the request was HEAD |
| Replies.HeadLeavesTheBodyOut | core/src/conn.rs:121-127 | the reply to HEAD is the reply to GET without the body |
| RequestErrors.OneMoreLine | core/src/http/request.rs:246-294 | after good fields, a line past the ceiling, a line that is no field and a field too many are told apart, in that order |
| RequestErrors.BadLineRefused | core/src/http/request.rs:57-67 | a line that is not three parts or has an unreadable path is answered 400, an unknown version 505; the body repeats the status line, and the connection closes as the reply says |
| RequestErrors.LongLineRefused | core/src/http/request.rs:206-219 | more than the limit without a line end within it is answered 414 |
| RequestErrors.BadFieldRefused | core/src/http/request.rs:246-294 | after good fields: past the ceiling 431, no field 400, one field too many 431 |
| RequestErrors.LargeHeadRefused | core/src/http/request.rs:246-265 | a header block that does not end within its ceiling is answered 431 |
| RequestErrors.BadLengthRefused | core/src/http/request.rs:296-308 | a length over the ceiling is answered 413, one that is no number or that no usize holds 400 |
| Kernel.PeersAlwaysKeep | server/src/sys/epoll.rs:117-128 | whatever peers do, no descriptor with something to do loses its edge |
| Kernel.RegisterCovers | server/src/sys/epoll.rs:46-54 | ADD and MOD look at readiness again and cannot lose a wakeup |
| EventIo.DrainIsRepeatedLevel | server/src/models/event_io.rs:45-127 | one draining call equals one call after another with one result each, up to the first WouldBlock, short write, failure or close |
| EventIo.GoMeansStart | server/src/models/event_io.rs:53-57 | the action carried round the loop is the one the connection would give afresh |
| EventIo.CallKeepsInv | server/src/models/event_io.rs:53-126 | a call is a stretch of a legal run of the connection |
| EventIo.DriveIo | server/src/models/event_io.rs:45-127 | terminates; bytes read are all fed and bytes written all reported; it says Close if and only if the connection is closed or the last result was end of file, an error or a write of nothing; draining, WantRead only after WouldBlock and WantWrite only with no send space; otherwise one call with one result |
| ReactorTables.StayingLeaves | server/src/reactor.rs:246-247 | skipping the MOD when the interest is unchanged loses no wakeup |
| ReactorTables.Switching | server/src/reactor.rs:247-255 | changing the interest by MOD keeps the tables agreed and loses no wakeup |
| ReactorTables.StaysFresh | server/src/reactor.rs:152-175 | the rest of a batch stays for the connections it was collected for although descriptors are closed and reused |
| ReactorTables.CollectingLeaves | server/src/reactor.rs:138-158 | a collected batch uncovers only its own descriptors, and each event is for the connection that holds its descriptor |
| ReactorTables.ClientsSeeServe | server/src/reactor.rs:134-182 | at every loop head each client has been sent a prefix of the sequential answers to its bytes |
| ReactorTables.SilenceMeansNothingToDo | server/src/reactor.rs:232-257 | with no edge outstanding a connection has read all that arrived, or its send buffer is full |
| Reactors.Reactor.constructor | server/src/reactor.rs:103-126 | the tables start in order |
| Reactors.Reactor.Run | server/src/reactor.rs:134-182 | at every loop head the tables agree with each other and with epoll, the cap is kept, no connection is closed and no wakeup is lost |
| Reactors.Reactor.Turn | server/src/reactor.rs:137-180 | one turn keeps all that; every event collected was applied; then the listener is registered if and only if there is room or that failed, and exactly the expired connections go; an interrupted turn changes nothing |
| Reactors.Reactor.Serve | server/src/reactor.rs:160-175 | every event of the batch is applied, in order, and after it no descriptor is without the edge it needs |
| Reactors.Reactor.ServeEvent | server/src/reactor.rs:160-175 | a readable listener is accepted from until the cap, an empty backlog or an error; an error drops the connection; else it goes through what read and write returned; all for the connection the event was collected for |
| Reactors.Reactor.AcceptReady | server/src/reactor.rs:187-227 | stops only at the cap, on an empty backlog or on an error; each client taken is in the table, afresh, unless a call for it failed; no other connection is touched |
| Reactors.Reactor.AddConn | server/src/reactor.rs:194-219 | one connection more, in both tables and in epoll, unless a call for it failed, and then it is closed at once |
| Reactors.Reactor.Drive | server/src/reactor.rs:232-257 | the connection reaches the state the results lead to and is registered for what it waits for; it leaves the table only if it is closed, the last result ended it or a MOD failed |
| Reactors.Reactor.Settle | server/src/reactor.rs:246-256 | the interest is changed only when it differs; a failed MOD drops the connection |
| Reactors.Reactor.ApplyBackpressure | server/src/reactor.rs:263-278 | afterwards a registered listener means room, whatever the cap, and below the cap an unregistered one means that registering it failed |
| Reactors.Reactor.SweepExpired | server/src/reactor.rs:283-294 | exactly the expired connections go |
| Reactors.Reactor.DropConn | server/src/reactor.rs:300-304 | the descriptor leaves epoll, both tables and the open files, and nothing else changes |
| Words.MaskIsRemainder | server/src/models/io_uring.rs:274 | masking with a power of two less one is the remainder |
| Words.PackUnpack | server/src/models/io_uring.rs:84-93 | every operation kind and every 32-bit descriptor, negative ones included, survive the packing |
| Words.PackInjective | server/src/models/io_uring.rs:84-86 | user_data values are equal if and only if kind and descriptor are |
| BufferRing.Conservation | server/src/models/io_uring.rs:267-281 | each buffer is in the window exactly once or held, never both, and their number is constant |
| BufferRing.EveryByteInOneBuffer | server/src/models/io_uring.rs:256-281 | each byte of the pool is in exactly the buffer its position says, so no two buffers overlap and none reaches out of the pool |
| BufferRing.PickKeeps | server/src/models/io_uring.rs:273-281 | the kernel's pick takes the oldest buffer out of the window and its slot describes it |
| BufferRing.StagesOverConsumed | server/src/models/io_uring.rs:273-281 | staging a held buffer never writes a slot the kernel has still to read |
| BufferRing.RecycleKeeps | server/src/models/io_uring.rs:267-270 | a recycled buffer joins the end of the window |
| BufferRing.RunConserves | server/src/models/io_uring.rs:267-293 | conservation over any run of picks and recycles, however far the tail has wrapped |
| BufferRing.SlotOfTail | server/src/models/io_uring.rs:274 | the wrapped 16-bit tail under the mask is the slot of the unbounded tail |
| BufferRing.WrappedTailIsEnough | server/src/models/io_uring.rs:285-293 | the 16-bit tail tells an empty ring from a full one |
| BufferRing.BufRing.constructor | server/src/models/io_uring.rs:205-243 | every buffer is staged once and published at the end |
| BufferRing.BufRing.Stage | server/src/models/io_uring.rs:273-281 | the descriptor goes to the slot of the unbounded tail, unpublished |
| BufferRing.BufRing.Recycle | server/src/models/io_uring.rs:267-270 | a held buffer returns to the ring and the ring stays in order |
| UringState.CompletionFindsItsConn | server/src/models/io_uring.rs:412-432 | a completion is handled by the connection it was submitted for, never by a later one on the same descriptor |
| UringState.OneOperationPerConn | server/src/models/io_uring.rs:514-562 | no two operations own a descriptor, a buffer or the accept; a send in flight is on the bytes still pending |
| UringState.AcceptingLeaves | server/src/models/io_uring.rs:436-461 | an accepted descriptor belongs to nobody else |
| UringState.LeakingLeaves | server/src/models/io_uring.rs:466-471 | a buffer that is not given back is out of the ring for good, and nothing else is affected |
| UringState.ClosingLeaves | server/src/models/io_uring.rs:558-563 | closing a descriptor touches no live connection |
| UringSteps.ReceivingLeaves | server/src/models/io_uring.rs:522-532 | the buffer a recv fills is one nobody holds, what goes in fits in it, and other completions' bytes stay as they were |
| UringSteps.FeedingSettles | server/src/models/io_uring.rs:480-497 | the bytes fed are those the kernel received, and the connection is then level with its socket |
| UringSteps.WritingSettles | server/src/models/io_uring.rs:505-509 | the bytes reported written are those the kernel sent |
| UringSteps.SyntheticWriteGoesNowhere | server/src/models/io_uring.rs:544-552 | the write of nothing that a zero length falls back to changes nothing and asks for the same again |
| LongReplies.LongReplySpins | server/src/models/io_uring.rs:534-556 | of a reply of 2^32 bytes or more at least 2^32 stay pending whatever is written, and it spins exactly when all that was handed over is written |
| LongReplies.ShortReplyEnds | server/src/models/io_uring.rs:534-556 | a shorter reply never spins, however it is written |
| LongReplies.SpinsIffLong | server/src/models/io_uring.rs:534-556 | a reply may come to spin if and only if it has 2^32 bytes or more |
| LongReplies.LongSendSpins | server/src/models/io_uring.rs:500-520 | the completion that takes the last handed byte of a long reply makes its connection spin |
| LongReplies.LongReplyExists | server/src/models/io_uring.rs:534-556 | an application, a request and the two events that come to it |
| UringSteps.ClientsSeeServe | server/src/models/io_uring.rs:355-379 | whatever is in flight, a client has been sent a prefix of the sequential answers |
| UringSteps.NobodyForgotten | server/src/models/io_uring.rs:514-556 | a connection has an operation, the one its state needs, if and only if it is not among the lost, which only a submission refused twice enters |
| UringSteps.NothingForTheLost | server/src/models/io_uring.rs:522-556 | no operation, in flight or completed, is for a connection that was refused one |
| UringSteps.BuffersAccounted | server/src/models/io_uring.rs:466-498 | a buffer is in the ring, or with exactly one completion not yet handled, or leaked |
| UringSteps.CompletionKey | server/src/models/io_uring.rs:416-419 | dispatching on user_data alone finds the right handler and descriptor |
| UringRuntime.Runtime.KernelActs | server/src/models/io_uring.rs:394-410 | anything the kernel does keeps the invariant and disturbs no completion, buffer or connection in hand |
| UringRuntime.Runtime.Push | server/src/models/io_uring.rs:394-410 | the operation is queued with its descriptor and nobody becomes lost, or the queue was full twice and just that descriptor is lost |
| UringRuntime.Runtime.ArmAccept | server/src/models/io_uring.rs:381-389 | armed, or the queue was full twice; never two multishot accepts at once |
| UringRuntime.Runtime.OnAccept | server/src/models/io_uring.rs:436-461 | a connection below the cap, with its recv queued unless the queue was full twice; a close at the cap; the accept marked unarmed on its last completion |
| UringRuntime.Runtime.OnRecv | server/src/models/io_uring.rs:466-498 | end, error or missing buffer drops, leaking a buffer that came without data; otherwise the buffer is fed and returned and the next operation queued unless the queue was full twice |
| UringRuntime.Runtime.OnSend | server/src/models/io_uring.rs:500-510 | an error drops; otherwise exactly the written bytes are reported and the next operation queued unless the queue was full twice |
| UringRuntime.Runtime.Apply | server/src/models/io_uring.rs:514-520 | the one operation the new state needs is queued and nobody becomes lost, or the queue was full twice, or the connection spins |
| UringRuntime.Runtime.SubmitRecv | server/src/models/io_uring.rs:522-532 | the recv is queued and nobody becomes lost, or the queue was full twice |
| UringRuntime.Runtime.SubmitSend | server/src/models/io_uring.rs:534-556 | hands over the pending bytes or is refused twice, and spins exactly when their 32-bit length is zero |
| UringRuntime.Runtime.SubmitClose | server/src/models/io_uring.rs:558-563 | the close is queued and nobody becomes lost, or the queue was full twice |
| UringRuntime.Runtime.DrainCqes | server/src/models/io_uring.rs:412-432 | every completion of the snapshot is handled once; the buffers leaked are exactly those that came without data; refused connections stay as they are |
| UringRuntime.Runtime.Dispatch | server/src/models/io_uring.rs:416-431 | one completion, by its user_data: it is handled, its buffer leaks exactly when it came without data, and spinning means a connection with 2^32 bytes or more pending |
| UringRuntime.Runtime.Turn | server/src/models/io_uring.rs:361-377 | one wait, with an accept armed unless the queue was full twice; every completion it found is handled unless the server spins |
| UringRuntime.Runtime.Run | server/src/models/io_uring.rs:355-379 | the invariants hold over every run; with replies under 2^32 bytes it never spins; a connection becomes lost, and a wait is without an accept, only if the queue was full twice; a lost connection stays as it is |
| Routing.SegmentsByParts | core/src/router.rs:33-50 | trimming and splitting once takes exactly the first non-empty segment off, so recursion ends |
| Routing.SegmentsExactly | core/src/router.rs:33-67 | two paths are the same to the router if and only if they spell the same names, with any number of slashes before, between and after |
| Routing.BindIsUpdate | core/src/router.rs:33-67 | binding a path changes the lookup of that segment list and of no other |
| Routing.BindKeepsWellFormed | core/src/router.rs:44-50 | sibling keys stay distinct and non-empty |
| Routing.Node.Insert | core/src/router.rs:33-51 | the linked nodes hold the trie with the path bound |
| Routing.Node.Get | core/src/router.rs:53-67 | the recursive descent is the lookup of the path's segments |
| Routing.Router.Insert | core/src/router.rs:87-90 | the table of bindings gains one entry for method and segments |
| Routing.Router.LookupRoute | core/src/router.rs:92-94 | the handler last bound for the same method and segments, or none |
| Routing.LastInsertWins | core/src/router.rs:87-94 | over any list of inserts the last with equal segments wins |
| LoadQueue.Queue.TryPop | loadgen/src/main.rs:128-139 | the oldest request; None exactly when closed and empty |
| LoadQueue.StepKeepsInv | loadgen/src/main.rs:119-148 | every interleaving keeps FIFO order, the count of requests, and an awake worker or a notification for each queued request |
| LoadQueue.RunKeepsInv | loadgen/src/main.rs:187-196 | that over whole runs, which end but for spurious wakeups |
| LoadQueue.NobodySleepsOnWork | loadgen/src/main.rs:119-139 | with work queued and no notification owed some worker is awake |
| LoadQueue.StuckIsFinished | loadgen/src/main.rs:128-148 | no deadlock: a run that cannot go on has joined every worker |
| LoadQueue.OkBeforeFirstFailure | loadgen/src/main.rs:227-267 | on any run a worker's ok are the requests that ended well before its first failure, none without a usable connection, and its errors are the rest |
| LoadQueue.EveryRequestCounted | loadgen/src/main.rs:227-267 | at the end ok plus errors equals the requests scheduled, if and only if there was a worker or nothing to do, and each worker's ok is what came before its first failure |
| Forking.StepKeepsInv | server/src/models/forking.rs:69-104 | the counter is unreaped children, plus the open reservation, plus one reaped and not yet counted |
| Forking.ForkingIsSafe | server/src/models/forking.rs:69-104 | wherever signals fall: the cap is kept, the counter never wraps, refusal exactly at the cap, no zombie left when the handler is done |
| Forking.Server.ServeOne | server/src/models/forking.rs:51-104 | what the accept loop's body does, with whatever interrupts it, is a run of the protocol; accept is called once and each client and each fork is in the run |
| Forking.Server.ServeClient | server/src/models/forking.rs:69-104 | a client is turned away at the cap or a fork is tried for it, as the protocol has it |
| Forking.Server.SigchldHandler | server/src/sys/signal.rs:42-56 | a run of the protocol that ends with no zombie, one decrement each, whatever exits meanwhile |

## Left out

- RequestRoundTrip.RoundTrip: printed header names and values hold no CR and no outer white space, and printed requests announce their body's length in decimal digits or have no body, because the parser does not preserve the rest. What other texts of a line, a field or a length mean is in `RequestMeaning.dfy`.
- Reactors.Reactor.AcceptReady: does not say that a backlog is always announced again, because the loop may stop at the cap before EAGAIN and a later event of the same batch may free a slot, and then no new edge is due.
- Reactors.Reactor.SweepExpired: the set of expired connections is any set, because deadlines and the clock are not modelled.
- Forking.Server.ServeOne: the served connection runs in the child, which is only a process that exits at some time.
- UringRuntime.Runtime.Push: the submission queue has no length; being full and being refused are free choices, and an operation may make progress as soon as it is queued.
- EventIo.DriveIo: the connection is a value carried by the driver, proved equal to the connection class step by step; the slot that owns socket and connection together, and the driver's fallback for WantWrite with nothing pending, which cannot occur, are not modelled.
- The reactor's failure to deregister the listener, and failures while constructing reactor, ring or listener.
- Prompt answering of pipelined requests and a buffer bound across complete requests; the code promises only that the bytes are kept.
- The memory ordering of the ring's tail and fence; publishing is one atomic step. Ring sizes are powers of two and buffers have the one production size.
- Error and hang-up flags of epoll are one flag; the wait's timeout and its maximal batch size only bound the batch.
- The loops of epoll.rs and poll.rs, which follow the reactor, and the blocking and thread models, which loop over one connection.
- Shutdown, metrics, logging, the asset cache, handlers and content types.
- Histograms, pacing, latency and argument parsing of the load generator; a scheduled time is a number.
- Lone CR inside printed header values.
