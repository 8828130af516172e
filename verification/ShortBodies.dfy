/**
 * What becomes of a streamed answer whose file is shorter than its size said: when the body
 * is whole, and a run in which it is not and the connection goes on as if it were.
 */
module ShortBodies {
  import opened Options
  import opened HttpParser
  import opened Framing
  import opened HttpRoundTrip
  import opened HttpResponses
  import opened StaticFiles
  import opened StaticServing
  import opened Responder
  import opened Connections
  import opened ConnectionSafety
  import opened ConnectionSteps
  import opened Servers
  import opened ServerSteps
  import opened ServerTheorems
  import Decimal
  import Etag
  import Lru
  import ThreadPools

  lemma StreamedAnnounces(file: FileResult, keepAlive: bool, includeBody: bool)
    ensures var r := StaticFileResponse(file, keepAlive, includeBody);
            r.sendFile ==> r.fileTransferSize == r.bodySize
  {
    hide ToText, Decimal.Print, SetHeader, SetBody, FoundHead, NewResponse, TextResult;
    if file.status == Found {
      FoundHeadFacts(file, keepAlive);
    }
    TextSendsNoFile(404, "Not Found", keepAlive, includeBody);
    TextSendsNoFile(500, "Internal Server Error", keepAlive, includeBody);
  }

  /** A streamed answer has as many body bytes as its head announces iff the opened file reaches so far. */
  lemma AttachmentIsWhole(w: World, request: Request, built: nat, delivered: nat)
    requires BuildResponse(w, built, request).sendFile
    requires w.onDisk(delivered, BuildResponse(w, built, request).filePath).Some?
    ensures var e := ServedAt(w, request, built, delivered);
            var result := BuildResponse(w, built, request);
            var data := w.onDisk(delivered, result.filePath).value;
            && e.result == result
            && (|e.attachment| == result.bodySize <==>
                  result.bodySize == 0 || result.fileOffset + result.bodySize <= |data|)
  {
    hide BuildResponse, StaticFileResponse, Closes, QueryOf, TextResult;
    BuiltSendsFile(w, built, request);
    StreamedAnnounces(w.file(built, QueryOf(request)), request.keepAlive, request.verb != "HEAD");
  }

  // ---- A run with short bodies ----

  /** What the static file handler is asked: every file is said to have 64 KiB. */
  function ShortInquiry(query: FileQuery): Inquiry {
    Inquiry(query.path, 64 * 1024, 0, "text/plain", query.ifNoneMatch, query.range, Some(""))
  }

  /** The handler's own answers for such files, each of which turns out to be empty when it is opened. */
  const SHORT_WORLD := World(
    (key: string) => ZEROES,
    (at: nat, request: Request) => NewResponse(200, "OK"),
    (at: nat, query: FileQuery) => Serve([], SERVER_LIMITS, ShortInquiry(query)).0,
    (at: nat, request: Request) => false,
    (at: nat, path: string) => Some(""))

  const ZEROES: seq<Base64.Byte> := [0, 0, 0, 0, 0, 0, 0, 0, 0, 0, 0, 0, 0, 0, 0, 0, 0, 0, 0, 0]

  lemma ShortWorldIsPossible()
    ensures IsPossible(SHORT_WORLD)
  {
    hide IsRouteAnswer, OneLineFacts, NewResponse, Serve;
    PlainIsOnOwnLines();
    forall query ensures OneLineFacts(Serve([], SERVER_LIMITS, ShortInquiry(query)).0) {
      ServedIsOneLine([], SERVER_LIMITS, ShortInquiry(query));
    }
  }

  lemma PlainIsOnOwnLines()
    ensures IsRouteAnswer(NewResponse(200, "OK"))
  {
  }

  /** What each request of the run is answered with. */
  function ShortResult(): Result { BuildResponse(SHORT_WORLD, 0, TINY_REQUEST) }

  function ShortEmission(): Emission { ServedAt(SHORT_WORLD, TINY_REQUEST, 0, 0) }

  function ShortFacts(): FileFacts { Facts(ShortInquiry(QueryOf(TINY_REQUEST))) }

  /** A file of 64 KiB is just too big for the cache. */
  lemma ShortIsStreamed()
    ensures Serve([], SERVER_LIMITS, ShortInquiry(QueryOf(TINY_REQUEST))).0 == StreamedResult(ShortFacts(), None)
    ensures ShortFacts().size == 64 * 1024
    ensures OneLineFacts(StreamedResult(ShortFacts(), None))
  {
    hide Etag.EtagForFile, Lru.OneCall;
    ServedIsOneLine([], SERVER_LIMITS, ShortInquiry(QueryOf(TINY_REQUEST)));
  }

  lemma TinyIsForFile()
    ensures !IsWebSocketEndpoint("/") && !IsApiPath("/")
  {
  }

  lemma ShortIsBuilt()
    ensures ShortResult() == StaticFileResponse(StreamedResult(ShortFacts(), None), true, true)
  {
    hide StaticFileResponse, StreamedResult, Serve, IsWebSocketEndpoint, IsApiPath, ShortFacts;
    ShortIsStreamed();
    TinyIsForFile();
  }

  lemma StreamedIs(f: FileFacts)
    ensures var r := StaticFileResponse(StreamedResult(f, None), true, true);
            && r.sendFile && r.bodySize == r.fileTransferSize == f.size && r.fileOffset == 0 && r.keepAlive
            && !r.closeAfterWrite && r.response != "" && r.statusCode == 200
  {
    hide FoundHead, RenderFields, HeadFields, Decimal.Print;
    FoundHeadFacts(StreamedResult(f, None), true);
  }

  lemma ShortResultIs()
    ensures var r := ShortResult();
            && r.sendFile && r.bodySize == r.fileTransferSize == 64 * 1024 && r.fileOffset == 0 && r.keepAlive
            && !Closes(TINY_REQUEST, r) && r.response != "" && r.statusCode == 200
    ensures ShortEmission() == Emission(Some(TINY_REQUEST), ShortResult(), false, "")
  {
    hide BuildResponse, StaticFileResponse, StreamedResult, ShortFacts, TextResult;
    ShortIsBuilt();
    ShortIsStreamed();
    StreamedIs(ShortFacts());
  }

  const RAW := Render(TINY_LINE, [])

  const ALL_OK := Epoll(true, true)

  /** A server with one worker free to go and the connection of id 1 known. */
  ghost predicate IsUp(s: Server, fd: int, h: History) {
    && fd in s.connections && s.connections[fd].id == 1 && 1 in s.clients && s.clients[1] == Client(fd, h)
    && !s.pool.stopping && s.pool.maxQueueSize >= 1 && |s.pool.workers| >= 1
  }

  ghost predicate SameSettings(s: Server, s': Server) {
    && s'.world == s.world && s'.maxBody == s.maxBody && s'.connections.Keys == s.connections.Keys
    && s'.nextId == s.nextId && s'.pool.maxQueueSize == s.pool.maxQueueSize && |s'.pool.workers| == |s.pool.workers|
  }

  predicate IsIdle(c: Connection) {
    && c.readBuffer == "" && c.writeBuffer == "" && !c.transfer.Active() && c.body.NoBody?
    && !c.responsePending
  }

  /** Between two requests. */
  ghost predicate AtRest(s: Server, fd: int, h: History) {
    && IsUp(s, fd, h) && h.received == h.sent
    && s.loop.Polling? && s.completions == [] && s.pool.tasks == [] && s.pool.workers[0].Awake?
    && IsIdle(s.connections[fd]) && s.connections[fd].interest == WantsRead
  }

  /** The request waits in the queue. */
  ghost predicate AtQueue(s: Server, fd: int, h: History) {
    && IsUp(s, fd, h) && h.framed != []
    && s.loop.Polling? && s.completions == [] && s.pool.tasks == [Task(fd, 1, TINY_REQUEST)] && s.pool.workers[0].Awake?
    && IsWaiting(s.connections[fd])
  }

  predicate IsWaiting(c: Connection) {
    c.readBuffer == "" && c.body.NoBody?
  }

  function ShortCompletion(fd: int): Completion {
    Completion(fd, 1, TINY_REQUEST, ShortResult(), false)
  }

  /** The completion is on its way. */
  ghost predicate AtReturn(s: Server, fd: int, h: History) {
    && IsUp(s, fd, h)
    && s.loop.Polling? && s.completions == [ShortCompletion(fd)] && s.pool.tasks == [] && s.pool.workers[0].Awake?
    && s.eventCount > 0 && IsWaiting(s.connections[fd])
  }

  /** The response is being written. */
  ghost predicate AtWrite(s: Server, fd: int, h: History) {
    && IsUp(s, fd, h) && h.received == h.sent
    && s.loop.Polling? && s.completions == [] && s.pool.tasks == [] && s.pool.workers[0].Awake?
    && var c := s.connections[fd];
       && c.readBuffer == "" && c.body.NoBody? && !c.responsePending && !c.closeAfterWrite && c.interest == WantsWrite
       && c.transfer == FileTransfer(Some(""), 0, 64 * 1024, 0)
  }

  function Asking(h: History): History {
    h.(sent := h.sent + RAW, received := h.received + RAW, framed := h.framed + [Good(TINY_REQUEST)])
  }

  /** What reading the shortest request does to an idle connection. */
  lemma TinyChunk(c: Connection, verb: string, maxBody: nat)
    requires IsIdle(c) && (verb == "GET" || verb == "HEAD")
    ensures OnChunk(c, Render(TinyLine(verb), []), maxBody, 0) == Dispatch(Dispatched(c), TinyRequest(verb))
  {
    hide CompleteHeaderLength, ParseRequest, IsHead, Render, NotAllowedResult, BadRequestResult, TooLargeResult, IsToken;
    TinyVerbs();
    TinyIsHead(verb);
    TinyIsFirst(verb, "", maxBody);
    RenderedIsFramed(TinyLine(verb), [], "");
    TinyParses(verb);
    var raw := Render(TinyLine(verb), []);
    var n := |raw|;
    assert raw + "" == raw && "" + raw == raw && raw[..n] == raw && raw[n..n] == "" && raw[n..] == "";
    var c' := c.(lastActive := 0, readBuffer := raw);
    assert Process(c', maxBody, 0) == ProcessBody(c'.(body := Awaiting(n, 0, TinyRequest(verb))), 0);
  }

  lemma TinyVerbs()
    ensures IsToken("GET") && IsToken("HEAD")
  {
  }

  /** The client's request is at the socket. */
  ghost predicate AtSocket(s: Server, fd: int, h: History) {
    && IsUp(s, fd, h) && h.received + RAW == h.sent
    && s.loop.Polling? && s.completions == [] && s.pool.tasks == [] && s.pool.workers[0].Awake?
    && IsIdle(s.connections[fd]) && s.connections[fd].interest == WantsRead
  }

  lemma BytesArrive(s: Server, fd: int, h: History) returns (s': Server)
    requires Reachable(s) && AtRest(s, fd, h)
    ensures Reachable(s') && AtSocket(s', fd, h.(sent := h.sent + RAW)) && SameSettings(s, s')
  {
    hide Reachable, Render;
    ReachableClientSent(s, fd, RAW);
    s' := ClientSent(s, fd, RAW);
  }

  /** The loop reads the request and hands it to the pool. */
  lemma RequestIsRead(s: Server, fd: int, h: History) returns (s': Server)
    requires Reachable(s) && AtSocket(s, fd, h)
    ensures Reachable(s') && SameSettings(s, s')
    ensures AtQueue(s', fd, h.(received := h.received + RAW, framed := h.framed + [Good(TINY_REQUEST)]))
  {
    hide Reachable, Received, Enqueued, OnChunk, Render;
    var h' := h.(received := h.received + RAW, framed := h.framed + [Good(TINY_REQUEST)]);
    ReadIsEnqueued(s, fd, h);
    TinyIsFirst("GET", "", 0);
    ReachableReceived(s, fd, RAW, 0, ALL_OK);
    s' := Received(s, fd, RAW, 0, ALL_OK);
    EnqueuedIsAtQueue(s, fd, h, h');
  }

  function Dispatched(c: Connection): Connection {
    c.(lastActive := 0, readBuffer := "", responsePending := true, interest := WantsNothing)
  }

  lemma ReadIsEnqueued(s: Server, fd: int, h: History)
    requires AtSocket(s, fd, h)
    ensures Received(s, fd, RAW, 0, ALL_OK)
         == Enqueued(s, fd, Dispatched(s.connections[fd]),
                     h.(received := h.received + RAW, framed := h.framed + [Good(TINY_REQUEST)]), TINY_REQUEST)
  {
    hide OnChunk, Render, Enqueued;
    TinyChunk(s.connections[fd], "GET", s.maxBody);
  }

  lemma EnqueuedIsAtQueue(s: Server, fd: int, h: History, h': History)
    requires AtSocket(s, fd, h) && h'.framed != []
    ensures var s' := Enqueued(s, fd, Dispatched(s.connections[fd]), h', TINY_REQUEST);
            AtQueue(s', fd, h') && SameSettings(s, s')
  {
    hide Render;
  }

  /** The client sends its request and the loop reads it. */
  lemma RequestComes(s: Server, fd: int, h: History) returns (s': Server)
    requires Reachable(s) && AtRest(s, fd, h)
    ensures Reachable(s') && AtQueue(s', fd, Asking(h)) && SameSettings(s, s')
  {
    hide Reachable, Render, AtRest, AtSocket, AtQueue;
    var s1 := BytesArrive(s, fd, h);
    s' := RequestIsRead(s1, fd, h.(sent := h.sent + RAW));
  }

  /** A worker takes the task, builds the response, pushes the completion and signals. */
  lemma WorkerAnswers(s: Server, fd: int, h: History) returns (s': Server)
    requires Reachable(s) && s.world == SHORT_WORLD && AtQueue(s, fd, h)
    ensures Reachable(s') && AtReturn(s', fd, h) && SameSettings(s, s')
  {
    hide Reachable, BuildResponse, Closes;
    ReachableLook(s, 0);
    var s1 := s.(pool := ThreadPools.Look(s.pool, 0));
    ReachablePublished(s1, 0, 0);
    var s2 := Published(s1, 0, 0);
    ReachableSignalled(s2, 0);
    s' := Signalled(s2, 0);
    ShortResultIs();
  }

  /** The loop drains, swaps and delivers. */
  lemma ResponseReturns(s: Server, fd: int, h: History) returns (s': Server)
    requires Reachable(s) && s.world == SHORT_WORLD && AtReturn(s, fd, h) && h.received == h.sent
    ensures Reachable(s') && AtWrite(s', fd, h.(emitted := h.emitted + [ShortEmission()])) && SameSettings(s, s')
    ensures s'.connections[fd].writeBuffer == ShortResult().response
  {
    hide Reachable, BuildResponse, Closes;
    ReachableDrained(s);
    var s1 := s.(eventCount := 0, loop := Drained);
    ReachableSwapped(s1);
    var s2 := s1.(completions := [], loop := Delivering(s1.completions));
    ReachableHanded(s2, 0, true);
    s' := Handed(s2, 0, true);
    ShortResultIs();
  }

  /** The head goes out. */
  lemma HeadGoesOut(s: Server, fd: int, h: History) returns (s': Server)
    requires Reachable(s) && AtWrite(s, fd, h) && s.connections[fd].writeBuffer != ""
    ensures Reachable(s') && AtWrite(s', fd, h.(wire := h.wire + s.connections[fd].writeBuffer)) && SameSettings(s, s')
    ensures s'.connections[fd].writeBuffer == ""
  {
    hide Reachable, AfterWrite;
    var c := s.connections[fd];
    ReachableSent(s, fd, |c.writeBuffer|, 0, ALL_OK);
    s' := Sent(s, fd, |c.writeBuffer|, 0, ALL_OK);
    assert c.writeBuffer[..|c.writeBuffer|] == c.writeBuffer && c.writeBuffer[|c.writeBuffer|..] == "";
  }

  /** With nothing buffered the loop asks for reading after a response that keeps the connection open. */
  lemma ReadsOnAfterwards(c: Connection, maxBody: nat, now: nat)
    requires c.readBuffer == "" && c.body.NoBody? && !c.closeAfterWrite
    ensures AfterWrite(c, maxBody, now) == Rearm(c.(transfer := NO_TRANSFER, interest := WantsRead))
  {
    hide Process;
  }

  /** The file has ended, and the connection reads on. */
  lemma FileHasEnded(s: Server, fd: int, h: History) returns (s': Server)
    requires Reachable(s) && AtWrite(s, fd, h) && s.connections[fd].writeBuffer == ""
    ensures Reachable(s') && AtRest(s', fd, h) && SameSettings(s, s')
  {
    hide Reachable, AfterWrite;
    ReadsOnAfterwards(s.connections[fd].(transfer := NO_TRANSFER), s.maxBody, 0);
    ReachableFileEnded(s, fd, 0, ALL_OK);
    s' := FileEnded(s, fd, 0, ALL_OK);
  }

  /** Head and file end together. */
  lemma ShortBodyGoesOut(s: Server, fd: int, h: History) returns (s': Server)
    requires Reachable(s) && AtWrite(s, fd, h) && s.connections[fd].writeBuffer != ""
    ensures Reachable(s') && AtRest(s', fd, h.(wire := h.wire + s.connections[fd].writeBuffer)) && SameSettings(s, s')
  {
    hide Reachable, AtRest, AtWrite;
    WriteIsUp(s, fd, h);
    var s1 := HeadGoesOut(s, fd, h);
    s' := FileHasEnded(s1, fd, h.(wire := h.wire + s.connections[fd].writeBuffer));
  }

  function Answered(h: History): History {
    Asking(h).(emitted := h.emitted + [ShortEmission()], wire := h.wire + ShortResult().response)
  }

  /** One request and its short answer, after which everything is as before. */
  lemma OneExchange(s: Server, fd: int, h: History) returns (s': Server)
    requires Reachable(s) && s.world == SHORT_WORLD && AtRest(s, fd, h)
    ensures Reachable(s') && AtRest(s', fd, Answered(h)) && SameSettings(s, s')
  {
    hide Reachable, AtRest, AtQueue, AtReturn, AtWrite, BuildResponse, ShortResult, ShortEmission;
    RestIsRead(s, fd, h);
    var s1 := RequestComes(s, fd, h);
    var s2 := WorkerAnswers(s1, fd, Asking(h));
    var s3 := ResponseReturns(s2, fd, Asking(h));
    WriteIsUp(s3, fd, Asking(h).(emitted := h.emitted + [ShortEmission()]));
    ShortResultIs();
    s' := ShortBodyGoesOut(s3, fd, Asking(h).(emitted := h.emitted + [ShortEmission()]));
  }

  lemma RestIsRead(s: Server, fd: int, h: History)
    requires AtRest(s, fd, h)
    ensures h.received == h.sent
  {
  }

  lemma WriteIsUp(s: Server, fd: int, h: History)
    requires AtWrite(s, fd, h)
    ensures fd in s.connections
  {
  }

  /**
   * A run in which a response announces 64 KiB, gives none of them, and keeps the connection open:
   * the next response follows it on the wire at once.
   */
  lemma ShortBodyKeepsOpen(maxBody: nat, fd: int) returns (s: Server)
    ensures Reachable(s) && s.maxBody == maxBody && fd in s.connections && s.connections[fd].id == 1
    ensures 1 in s.clients && s.clients[1].history.emitted == [ShortEmission(), ShortEmission()]
    ensures s.clients[1].history.wire == ShortResult().response + ShortResult().response
    ensures var e := ShortEmission();
            e.result.bodySize == 64 * 1024 && Announces(e.result.response, 200, 64 * 1024, true) && e.attachment == "" && !e.close
  {
    hide Reachable, BuildResponse, Announces, ShortResult, ShortEmission, IsPossible;
    ShortWorldIsPossible();
    var s0 := FirstClient(SHORT_WORLD, maxBody, fd);
    FirstIsAtRest(s0, fd);
    var s1 := OneExchange(s0, fd, NO_HISTORY);
    s := OneExchange(s1, fd, Answered(NO_HISTORY));
    RestIsUp(s, fd, Answered(Answered(NO_HISTORY)));
    AnnouncesAll();
  }

  lemma FirstIsAtRest(s: Server, fd: int)
    requires s.loop.Polling? && s.completions == [] && s.pool == ThreadPools.NewPool(1, 1)
    requires s.connections == map[fd := NewConnection(1, 0)] && s.clients == map[1 := Client(fd, NO_HISTORY)]
    ensures AtRest(s, fd, NO_HISTORY)
  {
  }

  lemma RestIsUp(s: Server, fd: int, h: History)
    requires AtRest(s, fd, h)
    ensures fd in s.connections && s.connections[fd].id == 1 && 1 in s.clients && s.clients[1].history == h
  {
  }

  lemma AnnouncesAll()
    ensures var e := ShortEmission();
            e.result.bodySize == 64 * 1024 && Announces(e.result.response, 200, 64 * 1024, true) && e.attachment == "" && !e.close
  {
    hide BuildResponse, Announces, StreamedResult, StaticFileResponse, ShortFacts, OneLineFacts;
    ShortResultIs();
    ShortIsBuilt();
    ShortIsStreamed();
    StaticAnnounces(StreamedResult(ShortFacts(), None), true, true);
  }
}
