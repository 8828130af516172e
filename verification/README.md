# A model of the HTTP server, with proofs

The server answers HTTP/1.x requests from one epoll loop and a bounded pool of workers. The loop
frames requests out of per-connection read buffers and hands them to the pool; a worker builds the
response and pushes a completion; an eventfd wakes the loop, which writes the response into the
connection that asked, and streams a file with sendfile where the answer is a large file.

What is modelled, module by module:

- `Servers` is the whole server as a transition system: bytes sent by clients, accept, recv of any
  chunk, partial send and sendfile, hang-ups, half-closes and idle closes on any descriptor, the
  three parts of `handleCompletionEvent`, and every step of every worker, in any interleaving.
  Descriptors are reused as soon as they are closed. Each connection id has a history: bytes its
  client sent, bytes received, frames cut, responses given and the request each was made for, bytes
  on the wire. `ServerSafety` holds the invariant, `ServerSteps` shows that every step keeps it, and
  `ServerTheorems` draws the results over all runs.
- `Connections` has what each handler does to one connection, as a function to a reaction;
  `ConnectionSafety` and `ConnectionSteps` prove what every handler keeps.
- `EventHandlers` gives whole handler calls as functions of the kernel's successive answers and
  shows that each call is a run of the transition system; `EventLoops` has the methods themselves,
  in place on the connection map, the completion queue, the eventfd counter and the pool. The object
  is always in a state some run reaches, so every result over all runs holds of it.
- `ThreadPools` is the pool as interleaved critical sections, waits and notifications, and the class.
- `Framing`, `HttpParser`, `HttpGrammar`, `HttpRoundTrip` and `HttpResponses` are the incremental
  framer against a batch framer, the parser against a grammar, rendering and parsing back, and what
  a client reads from a rendered head.
- `Lru`, `LruRecency`, `FileCaches`, `StaticFiles` and `StaticServing` are the cache as a list, the
  order it keeps, the cache as a doubly linked list with a map, the answers made of files, and the
  tail of `handle`.
- `HandlerProgress` says what each handler achieves, told by the histories, and `WritingProgress`
  bounds the calls a response needs.
- `Routing` and `Handshakes` say where a request goes and what its client reads, `StaticHeaders` what
  it reads of a file, and `ServedFiles` follows a file from the request's fields to the bytes.
- `ShortBodies` has the run in which a file is shorter than announced; `SentMethods` is what a client
  knows of its own requests, `Wires` how it cuts the bytes that come back into responses and exactly
  when that succeeds, and `RefusedHeads` has the runs in which it fails on a HEAD.
- `TlsWrites` is the TLS file pump. `ByteRange`, `Etag`, `PercentCoding`, `Base64`, `Decimal`,
  `Hexadecimal`, `Lists` and `Text` are the codecs and the string operations under them.

## Assumptions

- epoll reports the interest registered when the events were collected, and ERR or HUP. A stale
  event meets only a descriptor just accepted again, or (RDHUP, HUP, ERR) a connection whose
  response has just been delivered.
- The kernel never returns a descriptor that is still open. recv gives the bytes the client sent, in
  order, at most 4096 at a time; bytes that arrive while a handler runs count as sent before it.
  send, sendfile and pread take or give at most what was asked for. A file keeps its content while
  it is being sent.
- What lies outside the model is one `World`, fixed for the whole run: for each moment it gives the
  route's answer to a request, the file result for a query, whether handling throws, and what
  opening a path finds, and for each key its digest.
- The body limit plus 8192 and twice the cache capacity fit the machine word, so the unchecked sums
  at src/Server.cpp:1472 and src/FileCache.cpp:109 are those of the unbounded integers.
- A left shift of a 32-bit int wraps around, as C++20 defines it; in C++17, which CMakeLists.txt:5
  sets, the overflowing shift at src/WebSocketHandshake.cpp:116 is undefined.
- Connection ids do not wrap. A task throws nothing but `std::exception`. One handler call reads one
  time, and times are arbitrary.
- A header value a route or the file system supplies (content type, ETag, the route's own headers)
  has no line feed, and a route sets its body through `setBody` and neither `Connection` nor
  `Content-Length` itself.
- For the transparency of the cache: path, size and modification time determine what a file holds.

## Findings

- A half-close is handled before the bytes that came with it (src/Server.cpp:839-848). A client that
  sends a whole request and half-closes at once, or pipelines behind a pending request and
  half-closes, loses the requests the server has not read: none iff the buffer with the unread bytes
  frames nothing (`ServerTheorems.QuietClosingLosesOnlyUnread`, with the smallest loss in
  `ServerTheorems.HalfCloseLosesARequest`).
- A streamed answer has as many body bytes as it announces iff the opened file reaches as far as its
  size said (`ShortBodies.AttachmentIsWhole`). A file of 64 KiB or more that is shorter when it is
  opened ends the body early on a connection that stays open, and the next response follows at once
  (`ShortBodies.ShortBodyKeepsOpen`).
- A client can cut the wire back into the responses by their heads and Content-Length iff no body is
  short in that way and no HEAD was refused with a 400, 413 or 503: those carry a body whatever the
  method (src/Server.cpp:1110-1116, 1437-1442, 1527-1530; `Wires.ClientCutsWire`). A HEAD is a request
  whose bytes begin with that method and a blank, whether or not the server parses the rest. Runs:
  `RefusedHeads.LongHeadIsMiscut`, for every HEAD with a head over 8192 bytes, and
  `RefusedHeads.FullPoolMiscutsHead`.
- The recv loop stops where it has completed the head of a POST whose body is still missing, also with
  bytes left to read; the next report of EPOLLIN reads on (src/Server.cpp:1149-1152;
  `HandlerProgress.ReadingGetsOn`, `HandlerProgress.HeadEndsReading`).
- Only a POST has a body, as src/Server.cpp:1450 intends: what follows any other head is taken for the
  next request, whatever Content-Length said (`SentMethods.OnlyPostHasBody`).
- Base64 decoding an encoding gives the bytes back for every byte sequence but the empty one: the
  decoder refuses the empty text (`Base64.RoundTrip` is an equivalence).
- The checks for too many buffered body bytes, for an oversized head after a response that keeps
  the connection open, and the parser's own two limits of 8192 never fire from the loop
  (`ServerTheorems.LateChecksNeverFire`, `HttpRoundTrip.FramesIgnoreParserLimits`).
- The branch of `evictUntilFits` for a key that is not in the map cannot be reached.

## Model

| member | source | states |
|---|---|---|
| ServerTheorems.AnswersInOrder | src/Server.cpp:986-1020 | over every run the k-th response of a connection id was made for the k-th request framed on it, from what buildResponse returns for that very request at some moment, or is its refusal; at most one is unanswered, frames are a prefix of the batch framing of all bytes received, and the wire is a prefix of the responses one after the other |
| ServerTheorems.AnswersOneRequest | src/Server.cpp:1512-1523 | a response answers one request only: no other request, however alike, is answered by it |
| ServerTheorems.ChunkingDoesNotMatter | src/Server.cpp:1105-1155 | in any two runs, connections that received the same bytes (or one a prefix of the other's) framed the same requests as far as both got, however the bytes were cut into reads and mixed with responses |
| ServerTheorems.OneModeOneJob | src/Server.cpp:1504-1535 | each live connection is in exactly one of reading, pending and writing, told by its epoll mask, and is pending iff exactly one queued task, running task or completion carries its id |
| ServerTheorems.IdsAreDistinct | src/Server.cpp:797-800 | two open descriptors never share a connection id |
| ServerTheorems.CompletionsGoHome | src/Server.cpp:986-1018 | delivering a completion touches no other connection; with its descriptor closed or reused nothing changes, and otherwise the connection is pending on the very request the completion carries and was built for, and its write buffer and file are empty |
| ServerTheorems.NoResponseByteIsLost | src/Server.cpp:1183-1258 | bytes on the wire, the write buffer and the unsent file part are together always the responses given, in order |
| ServerTheorems.LateChecksNeverFire | src/Server.cpp:1361-1414 | a response that keeps the connection open leaves no body state and at most 4095 bytes, so the late size checks cannot fire; nor can the mid-body check of the read loop |
| ServerTheorems.QuietClosingLosesOnlyUnread | src/Server.cpp:839-848 | what half-close and idle handling close has everything the server has read framed, answered and written; everything the client has sent is, iff the buffer with the unread bytes frames nothing, and so whenever nothing is unread |
| ServerTheorems.HalfCloseLosesARequest | src/Server.cpp:839-848 | a run in which a client sends one whole request and half-closes, and the connection is closed with the request never framed |
| EventHandlers.HalfCloseComesFirst | src/Server.cpp:839-848 | with RDHUP reported on a connection without a response the handler closes at once, whatever could have been read |
| ServerTheorems.PersistenceIsHonest | src/Server.cpp:1485-1515 | read line by line, the head of every response but a protocol switch has its status code, its one Content-Length, the option close iff the server closes and keep-alive iff it does not; after a closing response nothing more is framed |
| ServerTheorems.ClosesAsAnnounced | src/Server.cpp:1354-1420 | the step that writes a response's last byte, with epoll succeeding, closes the connection iff that response announced it |
| ServerTheorems.NobodyLingersAfterClose | src/Server.cpp:1356-1359 | a connection with nothing to write has never written a closing response |
| ServerTheorems.NoCompletionIsStranded | src/Server.cpp:957-984 | a waiting completion has a positive eventfd counter, a worker about to write it, or the loop between draining and swapping |
| ServerTheorems.EveryJobSettlesOnce | src/Server.cpp:1538-1559 | jobs accepted are those in flight, delivered and dropped, each exactly once; no job of a live connection is dropped; tasks start in the order accepted |
| ServerTheorems.HistoryOnlyGrows | src/Server.cpp:986-1018 | no step takes back a received byte, a frame, a response or a byte on the wire of any id |
| ServerTheorems.InternalRunsEnd | src/ThreadPool.cpp:51-75 | without clients the server can take only a bounded number of steps, whichever it takes |
| ServerTheorems.JobsGoOn | src/ThreadPool.cpp:37-75 | as long as a job is in flight some step of the server itself is possible: no wakeup and no eventfd signal is lost |
| ServerTheorems.PendingDoesNotLast | src/Server.cpp:1504-1535 | where the server's own steps have come to an end, no connection is pending |
| WritingProgress.WritingEnds | src/Server.cpp:1177-1354 | in any run, while a response is being written, fewer calls have been made for it than it had bytes left, with one more where its file ends early, whatever else happens in between |
| WritingProgress.WritingGoesOn | src/Server.cpp:1183-1333 | a writing connection can always make a call, if only of one byte |
| ServerSteps.StepKeeps | src/Server.cpp:678-773 | every step of every interleaving keeps the server's invariant |
| ServerSteps.RunKeeps | src/Server.cpp:678-773 | so does every run |
| ServerSteps.ReactKeeps | src/Server.cpp:1423-1536 | whatever a handler of a connection that is not pending decides, with each epoll call and the pool accepting or refusing, the server stays sound |
| ServerSteps.ReachableStep | src/Server.cpp:678-773 | what a step leads to from a reachable state is reachable |
| ServerSafety.ClientSentKeeps | src/Server.cpp:1103 | bytes a client sends change nothing until recv |
| ServerSteps.DeliveredKeeps | src/Server.cpp:986-1018 | a delivered completion takes the one job of its connection and leaves it writing |
| ServerSteps.DroppedKeeps | src/Server.cpp:987-991 | a completion for a closed or reused descriptor is dropped and no live connection loses its job |
| ServerSteps.EnqueuedKeeps | src/Server.cpp:1504-1523 | a request handed to the pool makes its connection pending and is its only job |
| ServerSteps.PublishedKeeps | src/Server.cpp:1538-1559 | pushing a completion moves the job from the worker to the queue, with the worker about to signal |
| ServerSteps.SignalledKeeps | src/Server.cpp:1639-1659 | the eventfd write keeps the invariant also where the counter is full |
| ServerSteps.SwapKeeps | src/Server.cpp:980-984 | swapping the queue out moves every completion and strands none |
| ServerSteps.ModeByInterest | src/Server.cpp:832-902 | the epoll mask tells the mode, and the test of the half-close handler holds only of a reading connection |
| ServerSteps.NewServerIsSound | src/Server.cpp:446-467 | the initial state satisfies the invariant |
| ConnectionSteps.ProcessMeans | src/Server.cpp:1423-1536 | processReadBuffer does what the first frame of the buffer says: wait for the body, answer 400 or 413, answer 405, or dispatch with exactly the frame's bytes removed |
| ConnectionSteps.ChunkKeeps | src/Server.cpp:1105-1155 | one recv of at most 4096 bytes keeps the invariant of its connection |
| ConnectionSteps.SentKeeps | src/Server.cpp:1229-1237 | a send of any part of the write buffer conserves the response bytes, and after the last one the next request is taken |
| ConnectionSteps.FileSentKeeps | src/Server.cpp:1309-1328 | so does a sendfile of any part of the file |
| ConnectionSteps.FileEndKeeps | src/Server.cpp:1330-1333 | giving a transfer up at the end of its file loses no byte the file had |
| ConnectionSteps.AfterWriteKeeps | src/Server.cpp:1350-1420 | the tail of writeToConnection closes, takes the next request, or reads on, and keeps the invariant |
| ConnectionSteps.DeliverKeeps | src/Server.cpp:994-1012 | filling a pending connection with what was built for its request overwrites no unsent byte and answers that request |
| ConnectionSteps.RefusedKeeps | src/Server.cpp:1525-1535 | a request the pool refuses is answered 503 with a close |
| ConnectionSteps.AnswerIsHonest | src/Server.cpp:1485-1515 | whatever answers a frame announces its length and, but for a protocol switch, whether the server closes |
| ConnectionSteps.SendFileFollowsRequest | src/Server.cpp:248-284 | an answer sent by sendfile closes iff its request asked to, so the 500 that replaces it where the file does not open is honest too |
| ConnectionSteps.LateChecksAreUnreachable | src/Server.cpp:1122-1148 | the size checks on a sound connection that cannot fire |
| ConnectionSteps.ActivityIsNoted | src/Server.cpp:1106 | every byte received or sent puts off the idle close |
| ConnectionSafety.ReadingIsComplete | src/Server.cpp:1053-1175 | a reading connection has framed exactly the batch framing of everything received, answered it all and written it all |
| EventHandlers.ReadAllIsRun | src/Server.cpp:1060-1174 | a whole recv loop, for any truthful answers of the kernel, is a run of recv steps ended at most by one close |
| EventHandlers.ReachableLeads | src/Server.cpp:678-773 | whatever calls lead to from a reachable state is reachable, so the results over all runs carry over |
| EventHandlers.WriteAllIsRun | src/Server.cpp:1177-1421 | a whole writeToConnection is a run of send and sendfile steps |
| EventHandlers.PumpIsBounded | src/Server.cpp:1310-1325 | one call puts at most 1 MiB of file bytes on the wire and takes none back |
| EventHandlers.OnEventsIsRun | src/Server.cpp:832-902 | handling any reported events of any descriptor is a run |
| EventHandlers.DeliverAllIsRun | src/Server.cpp:986-1020 | the delivery loop is a run of single deliveries in order |
| EventHandlers.CloseIdleIsRun | src/Server.cpp:1561-1579 | the idle scan is a run of closes, each allowed where it is taken |
| EventHandlers.AcceptAllIsRun | src/Server.cpp:775-830 | the accept loop is a run of accepts |
| HandlerProgress.ReportedBytesAreRead | src/Server.cpp:890-892 | with IN reported on a connection without a response, the bytes recv gives first have been received afterwards |
| HandlerProgress.ReadingGetsOn | src/Server.cpp:1060-1174 | and where recv gives everything the client has sent, either all of it is received, or a request was framed, or a head was completed whose body is still missing, with which the call stops |
| HandlerProgress.HeadEndsReading | src/Server.cpp:1149-1152 | that does happen, for every chunk that completes a head but not its body, whatever is left unread |
| HandlerProgress.ReportedRoomIsUsed | src/Server.cpp:894-902 | with OUT reported, the bytes the socket has room for go from the write buffer to the wire |
| HandlerProgress.AllRoomIsUsed | src/Server.cpp:1183-1258 | with several offers in a row, all of them are used, as far as the write buffer goes |
| HandlerProgress.FileRoomIsUsed | src/Server.cpp:1309-1328 | and from the file, as many as the socket has room for, up to its end, the end of the answer, and 1 MiB |
| HandlerProgress.AllFileRoomIsUsed | src/Server.cpp:1309-1328 | the same with the offers of sendfile, up to the end of the file part and 1 MiB |
| HandlerProgress.FailedWriteCloses | src/Server.cpp:1239-1256 | a failing send or sendfile closes the connection and no other |
| HandlerProgress.UnregisteredIsClosed | src/Server.cpp:1354-1536 | where epoll does not take the interest a handler asks for, the connection is closed, also after a refusal by the pool |
| HandlerProgress.RegisteredStays | src/Server.cpp:1354-1536 | otherwise it stays with what its handler decided |
| HandlerProgress.UndeliverableIsClosed | src/Server.cpp:1018-1022 | so is a connection whose delivered response cannot be registered |
| HandlerProgress.EndOfStreamCloses | src/Server.cpp:1159-1173 | the end of the stream and a failing recv close the connection and no other |
| HandlerProgress.FailureCloses | src/Server.cpp:833-838 | so do ERR and HUP, whatever the connection was doing |
| HandlerProgress.OthersAreUntouched | src/Server.cpp:832-902 | the events of one descriptor touch no other connection |
| HandlerProgress.BatchIsSettled | src/Server.cpp:986-1020 | the delivery loop ends with the batch empty, each completion of it delivered or dropped once |
| HandlerProgress.ClientsAreAdmitted | src/Server.cpp:775-830 | every client accept hands over and epoll takes on is known afterwards, reading, with an id of its own |
| HandlerProgress.IdleScanIsExact | src/Server.cpp:1561-1579 | the idle scan closes exactly the reading connections that have been silent for the timeout |
| EventHandlers.ReactAfterStore | src/Server.cpp:1105-1152 | updating the map entry first and reacting afterwards is the same as reacting at once |
| EventLoops.EventLoop.constructor | src/Server.cpp:446-467 | the new object is in the initial state, which is reachable |
| EventLoops.EventLoop.ResponsesAreInOrder | src/Server.cpp:986-1020 | of the object itself: each response was made for the request framed in its place |
| EventLoops.EventLoop.PendingHasOneJob | src/Server.cpp:1504-1535 | of the object itself: a connection is pending iff one job carries its id |
| EventLoops.EventLoop.ClientBytes | src/Server.cpp:1103 | bytes a client sends wait at the socket and change nothing the server has |
| EventLoops.EventLoop.HandleConnectionEvent | src/Server.cpp:832-902 | in place, changes the state exactly as OnEvents, and stays reachable |
| EventLoops.EventLoop.ReadFromConnection | src/Server.cpp:1053-1175 | the recv loop in place; nothing for a pending connection |
| EventLoops.EventLoop.HandleChunk | src/Server.cpp:1105-1155 | one chunk in place, and whether recv is called again |
| EventLoops.EventLoop.RespondAtOnce | src/Server.cpp:1442-1447 | an immediate response fills the write buffer and asks for writability, or the connection is closed |
| EventLoops.EventLoop.TakeRequest | src/Server.cpp:1471-1536 | the second half of processReadBuffer in place: wait for the body, or take the request off the buffer |
| EventLoops.EventLoop.ProcessReadBuffer | src/Server.cpp:1423-1536 | processReadBuffer in place, for every branch and every epoll and pool answer |
| EventLoops.EventLoop.DispatchRequest | src/Server.cpp:1504-1535 | marks the connection pending before the pool sees its task, and enqueues nothing where epoll fails; after a refusal the second epoll call decides |
| EventLoops.EventLoop.HandToPool | src/Server.cpp:1512-1535 | enqueue, or 503 with nothing enqueued, or close where the epoll call after the refusal fails |
| EventLoops.EventLoop.WriteToConnection | src/Server.cpp:1177-1421 | flush loop, sendfile loop and tail in place |
| EventLoops.EventLoop.FlushWriteBuffer | src/Server.cpp:1183-1263 | the flush loop, and whether the handler goes on |
| EventLoops.EventLoop.PumpFile | src/Server.cpp:1309-1354 | the sendfile loop with its budget, and the tail |
| EventLoops.EventLoop.FinishWriting | src/Server.cpp:1354-1420 | the tail in place |
| EventLoops.EventLoop.GoOnWithNext | src/Server.cpp:1385-1400 | takes the next pipelined request, and asks for reading exactly when only its head is there |
| EventLoops.EventLoop.AskForReading | src/Server.cpp:1416-1420 | asks for readability, or closes |
| EventLoops.EventLoop.EndOfFile | src/Server.cpp:1330-1354 | resets the transfer and goes on as after a whole response |
| EventLoops.EventLoop.DrainCompletionEvent | src/Server.cpp:957-978 | one read of the eventfd takes the whole count; the loop there is this read again and again, with signals of workers in between |
| EventLoops.EventLoop.SwapCompletions | src/Server.cpp:980-984 | takes all completions out of the queue |
| EventLoops.EventLoop.DeliverCompletion | src/Server.cpp:986-1018 | one completion in place: dropped, or written into its connection, with the file opened or a 500 instead |
| EventLoops.EventLoop.DeliverCompletions | src/Server.cpp:986-1020 | the whole batch in order, staying reachable |
| EventLoops.EventLoop.FillIn | src/Server.cpp:993-1012 | opens the file of a streamed result or replaces the result by a 500, and fills the connection |
| EventLoops.EventLoop.QueueResponse | src/Server.cpp:1538-1556 | pushes one completion at the end of the queue |
| EventLoops.EventLoop.RunTask | src/Server.cpp:1512-1523 | a worker builds the response and pushes a completion with descriptor, id, request and close decision |
| EventLoops.EventLoop.WorkerLooks | src/ThreadPool.cpp:54-66 | a worker of the server's pool takes the oldest task, sleeps or leaves |
| EventLoops.EventLoop.WorkerNotified | src/ThreadPool.cpp:47 | a notification wakes a worker of the server's pool, or nobody sleeps |
| EventLoops.EventLoop.WorkerWakes | src/ThreadPool.cpp:54-56 | a worker of the server's pool wakes without a notification |
| EventLoops.EventLoop.NotifyCompletionEvent | src/Server.cpp:1639-1659 | adds one to the counter unless it is full |
| EventLoops.EventLoop.AcceptReadyClients | src/Server.cpp:775-830 | the accept loop in place; an id is used up also where registering fails |
| EventLoops.EventLoop.AcceptClient | src/Server.cpp:797-829 | a new connection gets the next id, waits to read, and is dropped where epoll fails |
| EventLoops.EventLoop.TimedOutDescriptors | src/Server.cpp:1562-1573 | collects exactly the descriptors that have timed out, each once |
| EventLoops.EventLoop.CloseIdleConnections | src/Server.cpp:1561-1579 | closes exactly the connections without a response whose last activity is too old |
| EventLoops.EventLoop.CloseConnection | src/Server.cpp:1593-1596 | removes exactly that connection |
| ThreadPools.EveryRun | src/ThreadPool.cpp:37-75 | over every interleaving the pool has the configured number of workers and bound, at least one each, the queue respects its bound, tasks start first in first out, each accepted task is queued, in hand or finished exactly once, and while somebody sleeps every queued task has an awake worker or a notification to come |
| ThreadPools.NothingAfterStop | src/ThreadPool.cpp:37-42 | once the destructor has begun, no run accepts another task |
| ThreadPools.PushKeeps | src/ThreadPool.cpp:37-49 | a pushed task comes with a notification of its own and keeps the bound |
| ThreadPools.LookKeeps | src/ThreadPool.cpp:54-66 | a worker that looks leaves no task without somebody awake or a notification |
| ThreadPools.NotifyOneKeeps | src/ThreadPool.cpp:47 | a notification is used up by waking a sleeper, or nobody sleeps |
| ThreadPools.StepKeeps | src/ThreadPool.cpp:10-75 | every step keeps the pool's invariant, with notify_one after the lock is released |
| ThreadPools.JoinedHasRunAll | src/ThreadPool.cpp:23-35 | when the destructor returns every accepted task has run exactly once |
| ThreadPools.JoinNeverHangs | src/ThreadPool.cpp:29-34 | until then some worker can take a step |
| ThreadPools.WorkersApproachJoin | src/ThreadPool.cpp:51-75 | and each such step brings the return closer |
| ThreadPools.ThreadPool.constructor | src/ThreadPool.cpp:10-21 | at least one worker and room for at least one task |
| ThreadPools.ThreadPool.Enqueue | src/ThreadPool.cpp:37-49 | accepts iff not stopping and below the bound, at the end of the queue |
| ThreadPools.ThreadPool.LookForTask | src/ThreadPool.cpp:54-66 | sleeps, leaves, or takes the oldest task |
| ThreadPools.ThreadPool.WakeOne | src/ThreadPool.cpp:47 | wakes one sleeper, or nobody if none sleeps |
| ThreadPools.ThreadPool.WakeSpuriously | src/ThreadPool.cpp:54-56 | a sleeper wakes without a notification |
| ThreadPools.ThreadPool.ReachLastStatement | src/ThreadPool.cpp:68-69 | the worker is past all of its task but the last statement |
| ThreadPools.ThreadPool.FinishTask | src/ThreadPool.cpp:68-74 | a task that returned or threw is done, and its worker looks for the next |
| ThreadPools.ThreadPool.StopAccepting | src/ThreadPool.cpp:24-27 | from here on nothing is accepted |
| ThreadPools.ThreadPool.NotifyEverybody | src/ThreadPool.cpp:29 | wakes every sleeper and nobody else |
| Framing.HeaderLengthStable | src/Server.cpp:345-358 | a found head length never changes when bytes are appended, for both delimiters together |
| Framing.HeaderLengthInPrefix | src/Server.cpp:345-358 | a head that ends inside a prefix is found there already |
| Framing.FirstFrameStable | src/Server.cpp:1429-1484 | once decided, the outcome for the first frame is that of every longer stream |
| Framing.CompletedByLastBytes | src/Server.cpp:1105-1155 | a frame completed by new bytes ends after the old ones |
| Framing.CutsReceive | src/Server.cpp:1105-1107 | bytes that arrive join the rest and leave the frames cut so far |
| Framing.CutsNext | src/Server.cpp:1477-1484 | cutting one more keep-open request extends the frames |
| Framing.CutsBatch | src/Server.cpp:1423-1484 | the batch framing of a stream is the frames cut so far and the framing of the rest |
| Framing.BatchFramesGrow | src/Server.cpp:1105-1155 | more bytes never change the frames a stream has |
| HttpParser.Parse | src/HttpParser.cpp:148-243 | the parser's loops compute ParseRequest, and a failure leaves the caller's request as it was |
| HttpParser.ShouldKeepAliveNow | src/HttpParser.cpp:108-121 | the two token scans decide persistence |
| HttpGrammar.ParseAccepts | src/HttpParser.cpp:148-243 | the parser accepts exactly the grammar: a request line within the limit, field lines, all header bytes within the limit, and no Content-Length or a single decimal word |
| HttpGrammar.ParseDescribes | src/HttpParser.cpp:192-242 | what it returns is the request line's parts, per lower-case name the trimmed values of its lines joined with a comma, the single Content-Length, and the close-first decision |
| HttpGrammar.RequestLineExact | src/HttpParser.cpp:162-190 | the three searches for a blank accept exactly method, target and version |
| HttpGrammar.FieldLineExact | src/HttpParser.cpp:209-217 | the colon search accepts exactly a token, a colon and any rest |
| HttpGrammar.KeepAliveIsCloseFirst | src/HttpParser.cpp:81-121 | persistence over the joined header is the close-first rule over the tokens of all Connection lines |
| HttpGrammar.JoinedIsNoNumber | src/HttpParser.cpp:221-238 | two Content-Length lines never make a number |
| HttpRoundTrip.RenderedIsFramed | src/Server.cpp:345-358 | framing a canonical CRLF head followed by any bytes cuts exactly that head |
| HttpRoundTrip.RenderedIsParsed | src/HttpParser.cpp:148-243 | such a head parses iff within the two limits and with at most one, numeric, Content-Length field, and then gives back its request line, for every lower-case name the joined values of its fields, the length, and the close-first decision over the options of its Connection fields |
| HttpRoundTrip.ParserLimitsUnreachable | src/HttpParser.cpp:156-202 | for what the framer lets through the parser's limits change nothing |
| HttpRoundTrip.FramesIgnoreParserLimits | src/Server.cpp:1423-1484 | the frames of every stream are the same with any larger limits in the parser |
| HttpResponses.TextAnnounces | src/HttpResponse.cpp:66-83 | reading a rendered head line by line finds the status code, one Content-Length that is the number, and the Connection option close or keep-alive, never both |
| HttpResponses.HeadersAreRead | src/HttpResponse.cpp:66-83 | any header read off a rendered response gives the values that were set under that name |
| HttpResponses.SetHeaderGives | src/HttpResponse.cpp:50-52 | setting a header that is not there adds its value and leaves every other name alone |
| Responder.BuildIsHonest | src/Server.cpp:1598-1637 | whatever buildResponse returns tells its status, its body size, and close iff the server will close; an upgrade is always closed |
| Routing.ApiPathExact | src/Router.cpp:53-56 | a path is for the routes iff, without its query and fragment, it is /api or begins with /api/ |
| Routing.WebSocketPathExact | src/WebSocketHandshake.cpp:239-241 | and for the WebSocket endpoint iff it is /ws |
| Routing.RefusalsAreTold | src/Server.cpp:1485-1503 | a client reads 400 and close for a head that does not parse, 413 and close for one over a limit, and 405 with the persistence it asked for where the path is not for the routes and the method neither GET nor HEAD |
| Routing.ServedAreServed | src/Server.cpp:1504-1535 | any other request is answered by a worker, or with 503 and close where the pool is full |
| Routing.RoutesAnswer | src/Server.cpp:1609-1611 | the answer of a route reaches the client with its status, headers and body, the body for anything but HEAD |
| Routing.ThrownIs500 | src/Server.cpp:1628-1636 | where handling throws, the client reads 500 |
| Routing.RequestsAreAnswered | src/Server.cpp:1423-1536 | on a connection with nothing to write or wait for, everything read: the requests the client wrote are framed one by one, up to the first that is refused or closes, and each frame has its answer on the wire |
| Handshakes.HandshakeAsWritten | src/WebSocketHandshake.cpp:243-276 | a request as its client wrote it is an opening handshake iff it is a GET of HTTP/1.1 with one Upgrade field websocket, the option upgrade in its Connection fields, version 13, and one key of sixteen bytes in Base64 |
| Handshakes.HandshakeIsAnswered | src/Server.cpp:1600-1607 | for the WebSocket endpoint such a request is answered 101 with the digest of its key, every other 400, and both close |
| Handshakes.UpgradeIsTold | src/WebSocketHandshake.cpp:282-288 | the 101 read line by line: status, Upgrade, Connection and accept value |
| Lists.HasElement | src/HttpParser.cpp:81-106 | the scanning loop finds the token iff some trimmed, lower-cased element equals it |
| Lists.ElementsAre | src/HttpParser.cpp:81-106 | the elements of a list are exactly what lies between its commas, without the blanks around |
| Lists.ElementsOfJoinValues | src/HttpParser.cpp:219-226 | the elements of the joined header are the elements of all its lines |
| Decimal.ParseUnsigned | src/StaticFileHandler.cpp:187-208 | succeeds iff the text is nonempty digits whose exact value fits the 64-bit word, and then returns it |
| Decimal.PrintOfValue | src/StaticFileHandler.cpp:187-208 | printing the value of digits without leading zeros gives them back |
| ByteRange.RangeExact | src/StaticFileHandler.cpp:690-749 | a header is accepted iff it is one well-formed range of words that selects some byte of the file, and the result is exactly the positions selected |
| ByteRange.ResolveExact | src/StaticFileHandler.cpp:721-748 | the same for the two numbers once cut out |
| StaticFiles.CachedEqualsStreamed | src/StaticFileHandler.cpp:528-594 | for the same file, range and method, the cached and the streamed answer have the same status, Content-Length, persistence and bytes on the wire |
| StaticHeaders.FoundIsDescribed | src/Server.cpp:252-283 | the head of a 200 or 206 read line by line: content type, tag, coding, and for a part its first and last position and the size of the file |
| StaticHeaders.NotModifiedIsDescribed | src/Server.cpp:284-296 | a 304 carries the tag of the file |
| StaticHeaders.UnsatisfiableIsDescribed | src/Server.cpp:297-306 | a 416 says how long the file is |
| ShortBodies.AttachmentIsWhole | src/Server.cpp:998-1003 | a delivered streamed response has the body length it announces iff the file opened at delivery reaches so far |
| ShortBodies.ShortBodyKeepsOpen | src/Server.cpp:1330-1354 | a run in which the static file handler, with the limits the server gives it, streams a file of 64 KiB that is empty when opened: the response announces 65536 bytes and gives none, the connection stays open, and the next response follows at once |
| StaticServing.BigFilesAreStreamed | src/FileCache.cpp:11-13 | with the limits the server gives the handler, exactly the files of 64 KiB and more are left to sendfile |
| ServedFiles.ServedFileBytes | src/Server.cpp:1613-1627 | a GET for a readable file, whatever the cache holds: the client reads a head and then exactly the bytes that the Range field of the request selects, 206 iff there is one, with the length, positions, type and tag in the head |
| ServedFiles.StatusIsDecided | src/Server.cpp:1613-1627 | the status of the answer to a GET for a file, told by the Range and If-None-Match fields of the request and what the file is now |
| ServedFiles.RevalidationStatus | src/Server.cpp:1613-1627 | 304 for a tag sent back iff size and time are unchanged |
| ServedFiles.SentAsWritten | src/HttpParser.cpp:192-226 | those fields are the ones the client wrote |
| ServedFiles.FileStatusCode | src/Server.cpp:248-318 | the status code of each kind of file result |
| SentMethods.FlagsFitFrames | src/Server.cpp:1429-1484 | one flag for each frame of a stream, and for a parsed request the flag, read off its first five bytes, is its method |
| SentMethods.MessageIsFramed | src/Server.cpp:1429-1484 | a request as its client wrote it, whatever follows, is refused as too large with a head over 8192 bytes, as malformed with no single number for a length, as too large with a body over the limit, and otherwise framed as exactly that request |
| SentMethods.StreamIsFramed | src/Server.cpp:1423-1484 | the frames of everything a client wrote, told by its requests alone: one for each, up to the first refused or closing |
| SentMethods.StreamFlags | src/Server.cpp:1429-1484 | the flags read off the bytes of the requests a client wrote, with bodies only in POST, are a prefix of what it knows of their methods |
| SentMethods.OnlyPostHasBody | src/Server.cpp:1450-1484 | what follows the head of anything but a POST is framed as the next request |
| Wires.PayloadIsCut | src/HttpResponse.cpp:66-83 | a client that knows whether it asked HEAD and reads the head and the announced length off the wire, whatever follows, ends where the response ends iff its streamed body is whole and it is not a 400, 413 or 503 of the loop to a HEAD |
| Wires.ClientCutsWire | src/HttpResponse.cpp:66-83 | over every run the client's cut of all responses of an id, with the methods of what it has sent, is those responses iff each is whole |
| Wires.MessagesAreCut | src/HttpResponse.cpp:66-83 | the same with the methods of the requests the client wrote, with bodies only in POST |
| Wires.RefusedHeadIsMiscut | src/Server.cpp:1110-1116 | every refusal of a HEAD, parsed or not, is cut in the wrong place |
| RefusedHeads.LongHeadIsRefused | src/Server.cpp:1108-1121 | a HEAD with a head over 8192 bytes frames as a 413 and nothing else, and its first bytes say that it is a HEAD |
| RefusedHeads.LongHeadIsMiscut | src/Server.cpp:1108-1121 | for every such HEAD a run in which the 413 goes out and the client cannot cut the wire |
| RefusedHeads.LongHeadExists | src/Server.cpp:1108-1121 | there are such heads, with one field of 8192 bytes |
| RefusedHeads.FullPoolMiscutsHead | src/Server.cpp:1525-1535 | a run, with one worker and one place in the queue, in which a HEAD is refused with the 503 and the client cannot cut the wire |
| Wires.ShortBodyIsMiscut | src/Server.cpp:1330-1354 | a run whose wire the client cannot cut because of a short body of a streamed file of 64 KiB |
| StaticFiles.StaticAnnounces | src/Server.cpp:248-318 | every answer made of a file result announces its length and the request's persistence |
| StaticServing.StaticFileHandler.Handle | src/StaticFileHandler.cpp:494-594 | the tail of handle in place on the cache: 304, 416, 500, cached or streamed, in that order |
| StaticServing.AnswerIsDecided | src/StaticFileHandler.cpp:494-594 | 304 iff an element of If-None-Match is a star, the current tag or its weak form; else 416 iff the range selects nothing; else failed iff the file belongs into the cache and is neither there nor readable; else found |
| StaticServing.RevalidationIsExact | src/StaticFileHandler.cpp:496-508 | a client that sends back a tag it was given is told 304 iff size and time are what they were |
| StaticServing.CacheIsUsed | src/StaticFileHandler.cpp:528-566 | a 304 or 416 leaves the cache alone, any other answer is one call of it, and a file that is streamed is forgotten there |
| StaticServing.ServedAsStreamed | src/StaticFileHandler.cpp:528-594 | whatever the cache holds, an answer looks to the client like that of a server without a cache |
| StaticServing.CacheNeverShows | src/StaticFileHandler.cpp:494-594 | the same for every answer of every sequence of requests |
| FileCaches.FileCache.Get | src/FileCache.cpp:15-51 | in place on list and map, answers and changes the contents exactly as the list-based lookup, and keeps the structure: the list holds exactly the map's keys without repetition, each stored position is its own node, and the running size is the sum of the resident sizes and within the capacity |
| FileCaches.FileCache.Remove | src/FileCache.cpp:53-59 | drops exactly that path |
| FileCaches.FileCache.Erase | src/FileCache.cpp:102-106 | unhooks the stored node, drops the record and its size |
| FileCaches.FileCache.Touch | src/FileCache.cpp:97-100 | moves the entry to the front and keeps the order of the others |
| FileCaches.FileCache.EvictUntilFits | src/FileCache.cpp:108-118 | ends, and keeps the longest most recent part that leaves room; the last key is always in the map |
| FileCaches.FileCache.EvictOldest | src/FileCache.cpp:110-116 | drops exactly the last entry of the list |
| FileCaches.FileCache.Load | src/FileCache.cpp:40-50 | reads the file, makes room, and puts the entry in front; a failed read changes nothing |
| FileCaches.FileCache.Insert | src/FileCache.cpp:46-49 | one more entry in front, with its size counted |
| FileCaches.RecencyList.HookFront | src/FileCache.cpp:46 | hooks a node in front of a doubly linked list |
| FileCaches.RecencyList.Unhook | src/FileCache.cpp:98 | takes a node out of a doubly linked list |
| Lru.EvictsShortestSuffix | src/FileCache.cpp:108-118 | eviction drops the shortest least recent end that makes room, and then there is room |
| Lru.LookupWithinLimits | src/FileCache.cpp:11-51 | no path twice, only cacheable sizes, content of the stated size, and the sum within the capacity, after every lookup |
| LruRecency.HitComesFirst | src/FileCache.cpp:27-32 | a path held with the same size, time and type is answered without the file, comes first, and nothing else moves or goes |
| LruRecency.MissIsLoaded | src/FileCache.cpp:34-50 | another readable file is read and comes first, behind it the longest front of the others that leaves room |
| LruRecency.OtherwiseForgotten | src/FileCache.cpp:20-59 | a file too large or unreadable is not answered and its path forgotten, as by remove |
| LruRecency.ContentsByRecency | src/FileCache.cpp:15-118 | after any calls from the empty cache the contents are strictly in the order of the last call that was answered with them |
| LruRecency.EvictedIsOldest | src/FileCache.cpp:108-118 | what a call evicts was last used before everything it keeps |
| Lru.CallIsTransparent | src/FileCache.cpp:15-51 | with the file readable now, one call answers as reading it would; a cached file that can no longer be read is answered with what reading it gave before |
| Lru.CacheIsTransparent | src/FileCache.cpp:15-51 | the same for every answer of every sequence of calls |
| TlsWrites.TlsConnection.WriteToConnection | src/Server.cpp:1260-1308 | over TLS, bytes sent and bytes owed are always head and file part; a call leaves off only where it must wait or fails, every two offers but one move a byte, and a finished call has sent all |
| TlsWrites.TlsConnection.PumpFile | src/Server.cpp:1266-1308 | the chunk loop conserves sent and owed bytes, and where it ends nothing is owed |
| TlsWrites.TlsConnection.SendChunk | src/Server.cpp:1297-1307 | a chunk flushed in part is counted as far as it went |
| TlsWrites.TlsConnection.FetchChunk | src/Server.cpp:1266-1296 | with no chunk in hand the next one is read, the end of the file found, or the call waits or fails as it is told |
| TlsWrites.TlsConnection.ReadChunk | src/Server.cpp:1268-1281 | the chunk is the part of the file that follows the bytes sent, at most 16 KiB |
| TlsWrites.TlsConnection.Flush | src/Server.cpp:1183-1258 | what was written and what is left make the buffer, in order |
| TlsWrites.DeliverOverTls | src/Server.cpp:1260-1308 | for one delivered result, over any number of calls, what is out and what is owed make the bytes the sendfile path gives the client, and a finished call has sent exactly those |
| Base64.Decode | src/WebSocketHandshake.cpp:84-125 | the loop with the accumulator that is never masked, wrapped in 32 bits, computes the decoding over unbounded integers |
| Base64.Encode | src/WebSocketHandshake.cpp:127-148 | the loop computes the encoding, for any number of bytes |
| Base64.RoundTrip | src/WebSocketHandshake.cpp:84-148 | decoding an encoding gives the bytes back iff there are any |
| Base64.GroupSpellsBits | src/WebSocketHandshake.cpp:127-148 | three bytes and their four symbols spell the same 24 bits |
| Base64.ShortGroupIsPadded | src/WebSocketHandshake.cpp:139-145 | one and two bytes are written like three, with a pad for each that is missing |
| Base64.SymbolsInOrder | src/WebSocketHandshake.cpp:127-130 | the alphabet is A to Z, a to z, 0 to 9, plus and slash |
| Base64.DecodedLength | src/WebSocketHandshake.cpp:84-125 | n characters with p pads decode to 3n/4 - p bytes |
| Etag.EtagExact | src/StaticFileHandler.cpp:597-605 | for one path two tags are equal iff size and time are |
| Etag.EtagSays | src/StaticFileHandler.cpp:597-605 | the tag holds size and time in base sixteen, in quotes |
| Etag.IfNoneMatchMatches | src/StaticFileHandler.cpp:607-634 | true iff some trimmed comma-separated element is a star, the tag or its weak form |
| Etag.OldTagNeverMatches | src/StaticFileHandler.cpp:597-634 | a tag sent back matches iff size and time of that path are unchanged |
| PercentCoding.UrlDecode | src/StaticFileHandler.cpp:42-67 | the loop computes the recursive decoding and fails when it does |
| PercentCoding.DecodeFailsExactly | src/StaticFileHandler.cpp:42-67 | decoding fails iff a percent sign reached while decoding lacks two hex digits |
| PercentCoding.UrlEncodePathSegment | src/StaticFileHandler.cpp:101-115 | the loop computes the encoding of a byte string |
| PercentCoding.RoundTrip | src/StaticFileHandler.cpp:42-115 | decoding an encoding gives every byte string back |
| PercentCoding.PlainIsItself | src/StaticFileHandler.cpp:42-67 | text without a percent sign decodes to itself |
| PercentCoding.EncodedCharIs | src/StaticFileHandler.cpp:101-115 | letters, digits and -._~ stand for themselves, any other byte is a percent sign and two upper-case digits |
| PercentCoding.UnreservedIsItself | src/StaticFileHandler.cpp:101-115 | a segment of such characters is written as it is |
| PercentCoding.EncodedHasNoDelimiter | src/StaticFileHandler.cpp:21-24 | an encoding has no slash, question mark or number sign, so stripping the query leaves it whole |

## Left out

- Sockets, epoll, eventfd and clocks are steps and answers of the environment; signals, logging, binding, listening and shutdown are not modelled, so the claims hold while the loop runs.
- The OpenSSL handshake and its switching between read and write interest: the transition system is the server without TLS, and `TlsWrites` covers one response written over TLS.
- gzip, `Accept-Encoding` quality values, path resolution, symbolic links and directory listings: the answer they lead to is any file result.
- SHA-1, the routes' own answers and route lookup: the digest and the routed response are arbitrary.
- Mutexes: each locked section is one step, and each cache call is one method call.
- Connections are values in the map, replaced where the source assigns their fields through a reference; aliasing of such references is not captured.
- ThreadPools.ThreadPool.ReachLastStatement: says nothing of the task's effect, because the pool knows its tasks only as values; what a task of the server does is EventLoops.EventLoop.RunTask.
- ThreadPools.ThreadPool.WakeOne: which sleeper is woken is an argument, because the condition variable does not promise one.
- Wires.ClientCutsWire: counts the requests of a client as the server frames them; for requests counted as their client wrote them Wires.MessagesAreCut asks that only a POST has a body, because the server looks for no other.
- Servers.Accepted: the branch for a descriptor that is already tracked is not modelled, because the kernel does not return an open descriptor.
- FileCaches.FileCache.EvictUntilFits: has no code for an orphaned key, because an assertion in its place shows there is none.
- HttpRoundTrip.RenderedIsFramed: covers heads with CRLF line endings only, because with mixed endings the framer's end and the parser's first blank line may differ.
- ByteRange.RangeExact: states the code's own answer for malformed and overflowing ranges, a refusal, not that of section 14.2 of RFC 9110, which would have them ignored.
