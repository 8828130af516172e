/**
 * Whole calls of the event loop's handlers as functions of the kernel's answers: how
 * recv, send and sendfile answer one after the other until the handler returns.  Each
 * call is a run of the server's steps.
 */
module EventHandlers {
  import opened HttpParser
  import opened Framing
  import opened Connections
  import opened ConnectionSafety
  import opened ConnectionSteps
  import opened Servers
  import opened ServerSafety
  import opened ServerSteps
  import ThreadPools

  /** recv: bytes, the end of the stream, EINTR or an error; where the answers end it would block. */
  datatype RecvAnswer = Chunk(bytes: string) | EndOfStream | RecvInterrupted | RecvFailed

  /** send and sendfile: room for so many bytes, EINTR or an error; where the answers end they would block. */
  datatype SendAnswer = Room(count: nat) | SendInterrupted | SendFailed

  /** The most file bytes one call of writeToConnection hands to sendfile. */
  const SENDFILE_BUDGET: nat := 1024 * 1024

  /** The kernel answers recv with what the client has sent, piece by piece, and with its end only behind it. */
  predicate Gives(h: History, answers: seq<RecvAnswer>)
    decreases |answers|
  {
    answers == [] ||
    (match answers[0]
     case Chunk(bytes) => MayReceive(h, bytes) && Gives(h.(received := h.received + bytes), answers[1..])
     case EndOfStream => h.received == h.sent
     case RecvInterrupted => Gives(h, answers[1..])
     case RecvFailed => true)
  }

  /** The connection is known to its id, and the id to its connection. */
  predicate IsTracked(s: Server, fd: int) {
    fd in s.connections && IsAt(s.clients, s.connections[fd].id, fd)
  }

  /** The recv loop goes on after a chunk that led to no response, no dispatch and no processReadBuffer. */
  predicate GoesOnReading(s: Server, fd: int, bytes: string, now: nat)
    requires fd in s.connections
  {
    OnChunk(s.connections[fd], bytes, s.maxBody, now).Stay? && ReadsOn(s.connections[fd], bytes)
  }

  /** readFromConnection. */
  function ReadAll(s: Server, fd: int, answers: seq<RecvAnswer>, now: nat, epoll: Epoll): Server
    requires fd in s.connections
    decreases |answers|
  {
    if answers == [] then s else
    match answers[0]
    case Chunk(bytes) =>
      var s' := Received(s, fd, bytes, now, epoll);
      if GoesOnReading(s, fd, bytes, now) then ReadAll(s', fd, answers[1..], now, epoll) else s'
    case RecvInterrupted => ReadAll(s, fd, answers[1..], now, epoll)
    case _ => Closed(s, fd, HistoryOf(s, fd))
  }

  function Min(a: nat, b: nat): nat { if a < b then a else b }

  /** After some bytes of the write buffer went out. */
  function Flushed(s: Server, fd: int, count: nat, now: nat): Server
    requires fd in s.connections && count <= |s.connections[fd].writeBuffer|
  {
    var h, c := HistoryOf(s, fd), s.connections[fd];
    Stored(s, fd, c.(writeBuffer := c.writeBuffer[count..], lastActive := now), h.(wire := h.wire + c.writeBuffer[..count]))
  }

  /** After some bytes of the file went out. */
  function Pumped(s: Server, fd: int, count: nat, now: nat): Server
    requires fd in s.connections && MaySendFile(s.connections[fd], count)
  {
    var h, c := HistoryOf(s, fd), s.connections[fd];
    var t := c.transfer;
    Stored(s, fd, c.(transfer := t.(offset := t.offset + count, sent := t.sent + count), lastActive := now),
           h.(wire := h.wire + FileBytes(t, count)))
  }

  /** The bytes sendfile can take from the file: what is asked, what is there, what the socket has room for. */
  function FileRoom(t: FileTransfer, budget: nat, room: nat): nat
    requires t.Active()
  {
    var asked := Min(t.size - t.sent, budget);
    var there := if t.offset < |t.file.value| then |t.file.value| - t.offset else 0;
    Min(Min(asked, there), room)
  }

  /** The sendfile loop and the tail of writeToConnection. */
  function PumpAll(s: Server, fd: int, answers: seq<SendAnswer>, budget: nat, now: nat, epoll: Epoll): Server
    requires fd in s.connections && s.connections[fd].writeBuffer == ""
    decreases |answers|
  {
    var c, h := s.connections[fd], HistoryOf(s, fd);
    if !c.transfer.Active() then React(s, fd, h, AfterWrite(c, s.maxBody, now), epoll) else
    if budget == 0 || answers == [] then s else
    match answers[0]
    case SendInterrupted => PumpAll(s, fd, answers[1..], budget, now, epoll)
    case SendFailed => Closed(s, fd, h)
    case Room(room) =>
      if c.transfer.offset >= |c.transfer.file.value| then FileEnded(s, fd, now, epoll) else
      var count := FileRoom(c.transfer, budget, room);
      if count == 0 then s
      else PumpAll(Pumped(s, fd, count, now), fd, answers[1..], budget - count, now, epoll)
  }

  /** writeToConnection: flush the write buffer, pump the file, and go on with the next request. */
  function WriteAll(s: Server, fd: int, sends: seq<SendAnswer>, files: seq<SendAnswer>, now: nat, epoll: Epoll): Server
    requires fd in s.connections
    decreases |sends|
  {
    var c := s.connections[fd];
    if c.writeBuffer == "" then PumpAll(s, fd, files, SENDFILE_BUDGET, now, epoll) else
    if sends == [] then s else
    match sends[0]
    case SendInterrupted => WriteAll(s, fd, sends[1..], files, now, epoll)
    case SendFailed => Closed(s, fd, HistoryOf(s, fd))
    case Room(room) =>
      var count := Min(room, |c.writeBuffer|);
      if count == 0 then s
      else WriteAll(Flushed(s, fd, count, now), fd, sends[1..], files, now, epoll)
  }

  // ---- Calls are runs ----

  /** The server can get from s to s' by steps of its event loop. */
  ghost predicate Leads(s: Server, s': Server) {
    exists steps :: IsRun(s, steps) && Run(s, steps) == s'
  }

  lemma LeadsNowhere(s: Server)
    ensures Leads(s, s)
  {
    assert IsRun(s, []) && Run(s, []) == s;
  }

  lemma LeadsFirst(s: Server, step: Step, s': Server)
    requires Enabled(s, step) && Leads(Apply(s, step), s')
    ensures Leads(s, s')
  {
    hide Enabled, Apply;
    var steps :| IsRun(Apply(s, step), steps) && Run(Apply(s, step), steps) == s';
    assert ([step] + steps)[1..] == steps;
    assert IsRun(s, [step] + steps) && Run(s, [step] + steps) == s';
  }

  lemma LeadsBy(s: Server, step: Step)
    requires Enabled(s, step)
    ensures Leads(s, Apply(s, step))
  {
    hide Enabled, Apply, Leads;
    LeadsNowhere(Apply(s, step));
    LeadsFirst(s, step, Apply(s, step));
  }

  lemma LeadsSound(s: Server, s': Server)
    requires Inv(s) && Leads(s, s')
    ensures Inv(s')
  {
    hide Inv, IsRun, Run;
    var steps :| IsRun(s, steps) && Run(s, steps) == s';
    RunKeeps(s, steps);
  }

  /** Whatever a reachable state leads to is reachable. */
  lemma ReachableLeads(s: Server, s': Server)
    requires Reachable(s) && Leads(s, s')
    ensures Reachable(s')
  {
    hide Reachable, IsRun, Run;
    var steps := StepsOf(s, s');
    ReachableAlong(s, steps);
  }

  lemma {:induction false} ReachableAlong(s: Server, steps: seq<Step>)
    requires Reachable(s) && IsRun(s, steps)
    ensures Reachable(Run(s, steps))
    decreases |steps|
  {
    hide Reachable, Enabled, Apply;
    if steps != [] {
      ReachableStep(s, steps[0]);
      ReachableAlong(Apply(s, steps[0]), steps[1..]);
    }
  }

  /** Storing a connection and then reacting is reacting at once. */
  lemma ReactAfterStore(s: Server, fd: int, c: Connection, h: History, h': History, r: Reaction, epoll: Epoll)
    requires fd in s.connections && c.id == s.connections[fd].id && IsFrom(r, c)
    ensures React(Stored(s, fd, c, h), fd, h', r, epoll) == React(s, fd, h', r, epoll)
  {
    hide Record, ThreadPools.Push, ThreadPools.Accepts, AfterRefusal;
    var s' := Stored(s, fd, c, h);
    forall c': Connection, h'': History | c'.id == c.id ensures Stored(s', fd, c', h'') == Stored(s, fd, c', h'') {
      StoreTwice(s, fd, c, h, c', h'');
    }
    forall h'': History ensures Closed(s', fd, h'') == Closed(s, fd, h'') {
      CloseStored(s, fd, c, h, h'');
    }
  }

  lemma StoreTwice(s: Server, fd: int, c: Connection, h: History, c': Connection, h': History)
    requires c'.id == c.id
    ensures Stored(Stored(s, fd, c, h), fd, c', h') == Stored(s, fd, c', h')
  {
    assert s.connections[fd := c][fd := c'] == s.connections[fd := c'];
    assert s.clients[c.id := Client(fd, h)][c.id := Client(fd, h')] == s.clients[c.id := Client(fd, h')];
  }

  lemma CloseStored(s: Server, fd: int, c: Connection, h: History, h': History)
    requires fd in s.connections && c.id == s.connections[fd].id
    ensures Closed(Stored(s, fd, c, h), fd, h') == Closed(s, fd, h')
  {
    assert s.connections[fd := c] - {fd} == s.connections - {fd};
    assert s.clients[c.id := Client(fd, h)][c.id := Client(fd, h')] == s.clients[c.id := Client(fd, h')];
  }

  lemma StayKeepsInterest(c: Connection, chunk: string, maxBody: nat, now: nat)
    requires OnChunk(c, chunk, maxBody, now).Stay?
    ensures OnChunk(c, chunk, maxBody, now).c.interest == c.interest
  {
    hide CompleteHeaderLength, ParseRequest, HeaderTooLarge, IsServed, TooLargeResult, BadRequestResult, NotAllowedResult;
  }

  /** readFromConnection is a run of recv steps, ended at most by one close. */
  lemma {:induction false} ReadAllIsRun(s: Server, fd: int, answers: seq<RecvAnswer>, now: nat, epoll: Epoll)
    requires s.loop.Polling? && fd in s.connections && s.connections[fd].interest == WantsRead
    requires Gives(HistoryOf(s, fd), answers)
    ensures Leads(s, ReadAll(s, fd, answers, now, epoll))
    decreases |answers|
  {
    hide Leads, OnChunk, ReadsOn, Closed;
    if answers == [] {
      LeadsNowhere(s);
    } else if answers[0].Chunk? {
      var bytes := answers[0].bytes;
      var step := Receive(fd, bytes, now, epoll);
      assert Enabled(s, step) && Apply(s, step) == Received(s, fd, bytes, now, epoll);
      if GoesOnReading(s, fd, bytes, now) {
        GoesOnStored(s, fd, bytes, now, epoll);
        ReadAllIsRun(Apply(s, step), fd, answers[1..], now, epoll);
        LeadsFirst(s, step, ReadAll(s, fd, answers, now, epoll));
      } else {
        LeadsBy(s, step);
      }
    } else if answers[0].RecvInterrupted? {
      ReadAllIsRun(s, fd, answers[1..], now, epoll);
    } else {
      assert Apply(s, Hangup(fd)) == Closed(s, fd, HistoryOf(s, fd));
      LeadsBy(s, Hangup(fd));
    }
  }

  /** A chunk after which recv is called again only adds to the bytes received. */
  lemma GoesOnStored(s: Server, fd: int, bytes: string, now: nat, epoll: Epoll)
    requires fd in s.connections && GoesOnReading(s, fd, bytes, now)
    ensures var s' := Received(s, fd, bytes, now, epoll);
            && fd in s'.connections && s'.connections[fd].interest == s.connections[fd].interest && s'.loop == s.loop
            && HistoryOf(s', fd) == HistoryOf(s, fd).(received := HistoryOf(s, fd).received + bytes)
  {
    hide OnChunk, ReadsOn;
    StayKeepsInterest(s.connections[fd], bytes, s.maxBody, now);
  }

  /** One sendfile, seen as storing what is left and, at the end of the file part, going on. */
  lemma FileSentIsPumped(s: Server, fd: int, count: nat, now: nat, epoll: Epoll)
    requires fd in s.connections && MaySendFile(s.connections[fd], count)
    ensures var s' := Pumped(s, fd, count, now);
            FileSent(s, fd, count, now, epoll)
            == if s'.connections[fd].transfer.Active() then s'
               else React(s', fd, HistoryOf(s', fd), AfterWrite(s'.connections[fd], s.maxBody, now), epoll)
  {
    hide React, AfterWrite, FileBytes, IsFrom, Stored;
    var c, h := s.connections[fd], HistoryOf(s, fd);
    var t := c.transfer;
    var c' := c.(transfer := t.(offset := t.offset + count, sent := t.sent + count), lastActive := now);
    var h' := h.(wire := h.wire + FileBytes(t, count));
    AfterWriteIsFrom(c', s.maxBody, now);
    ReactAfterStore(s, fd, c', h', h', AfterWrite(c', s.maxBody, now), epoll);
    StoredHas(s, fd, c', h');
    StaysStored(s, fd, c', h', epoll);
  }

  lemma StoredHas(s: Server, fd: int, c: Connection, h: History)
    ensures var s' := Stored(s, fd, c, h);
            && fd in s'.connections && s'.connections[fd] == c && HistoryOf(s', fd) == h
            && s'.maxBody == s.maxBody && s'.loop == s.loop
  {
  }

  lemma StaysStored(s: Server, fd: int, c: Connection, h: History, epoll: Epoll)
    requires fd in s.connections
    ensures React(s, fd, h, Stay(c), epoll) == Stored(s, fd, c, h)
  {
  }

  lemma SentIsFlushed(s: Server, fd: int, count: nat, now: nat, epoll: Epoll)
    requires fd in s.connections && count <= |s.connections[fd].writeBuffer|
    ensures var s' := Flushed(s, fd, count, now);
            Sent(s, fd, count, now, epoll)
            == if s'.connections[fd].writeBuffer != "" || s'.connections[fd].transfer.Active() then s'
               else React(s', fd, HistoryOf(s', fd), AfterWrite(s'.connections[fd], s.maxBody, now), epoll)
  {
    hide React, AfterWrite, IsFrom, Stored;
    var c, h := s.connections[fd], HistoryOf(s, fd);
    var c' := c.(writeBuffer := c.writeBuffer[count..], lastActive := now);
    var h' := h.(wire := h.wire + c.writeBuffer[..count]);
    AfterWriteIsFrom(c', s.maxBody, now);
    ReactAfterStore(s, fd, c', h', h', AfterWrite(c', s.maxBody, now), epoll);
    StoredHas(s, fd, c', h');
    StaysStored(s, fd, c', h', epoll);
  }

  lemma {:induction false} PumpAllIsRun(s: Server, fd: int, answers: seq<SendAnswer>, budget: nat, now: nat, epoll: Epoll)
    requires s.loop.Polling? && fd in s.connections && s.connections[fd].interest == WantsWrite
    requires s.connections[fd].writeBuffer == "" && s.connections[fd].transfer.Active()
    ensures Leads(s, PumpAll(s, fd, answers, budget, now, epoll))
    decreases |answers|, 1
  {
    hide Leads, AfterWrite, React, FileSent, FileEnded, FileBytes, OnFileEnd, Pumped;
    var c := s.connections[fd];
    if budget == 0 || answers == [] {
      LeadsNowhere(s);
    } else if answers[0].SendInterrupted? {
      PumpAllIsRun(s, fd, answers[1..], budget, now, epoll);
    } else if answers[0].SendFailed? {
      LeadsBy(s, Hangup(fd));
    } else if c.transfer.offset >= |c.transfer.file.value| {
      LeadsBy(s, FileEnd(fd, now, epoll));
    } else if FileRoom(c.transfer, budget, answers[0].count) == 0 {
      LeadsNowhere(s);
    } else {
      PumpedIsRun(s, fd, FileRoom(c.transfer, budget, answers[0].count), answers, budget, now, epoll);
    }
  }

  /** One sendfile and then the rest of the call. */
  lemma {:induction false} PumpedIsRun(s: Server, fd: int, count: nat, answers: seq<SendAnswer>, budget: nat, now: nat,
                                       epoll: Epoll)
    requires s.loop.Polling? && fd in s.connections && s.connections[fd].interest == WantsWrite
    requires MaySendFile(s.connections[fd], count) && count <= budget && answers != []
    ensures Leads(s, PumpAll(Pumped(s, fd, count, now), fd, answers[1..], budget - count, now, epoll))
    decreases |answers|, 0
  {
    hide Leads, AfterWrite, React, FileSent, FileBytes;
    FileSentIsPumped(s, fd, count, now, epoll);
    var s' := Pumped(s, fd, count, now);
    if s'.connections[fd].transfer.Active() {
      PumpAllIsRun(s', fd, answers[1..], budget - count, now, epoll);
      LeadsFirst(s, SendFile(fd, count, now, epoll), PumpAll(s', fd, answers[1..], budget - count, now, epoll));
    } else {
      LeadsBy(s, SendFile(fd, count, now, epoll));
    }
  }

  /** writeToConnection is a run of send and sendfile steps, ended at most by one close. */
  lemma {:induction false} WriteAllIsRun(s: Server, fd: int, sends: seq<SendAnswer>, files: seq<SendAnswer>, now: nat,
                                         epoll: Epoll)
    requires s.loop.Polling? && fd in s.connections && s.connections[fd].interest == WantsWrite
    requires s.connections[fd].writeBuffer != "" || s.connections[fd].transfer.Active()
    ensures Leads(s, WriteAll(s, fd, sends, files, now, epoll))
    decreases |sends|
  {
    hide Leads, AfterWrite, React, Sent;
    var c := s.connections[fd];
    if c.writeBuffer == "" {
      PumpAllIsRun(s, fd, files, SENDFILE_BUDGET, now, epoll);
    } else if sends == [] {
      LeadsNowhere(s);
    } else if sends[0].SendInterrupted? {
      WriteAllIsRun(s, fd, sends[1..], files, now, epoll);
    } else if sends[0].SendFailed? {
      LeadsBy(s, Hangup(fd));
    } else {
      var count := Min(sends[0].count, |c.writeBuffer|);
      if count == 0 {
        LeadsNowhere(s);
      } else {
        SentIsFlushed(s, fd, count, now, epoll);
        var step := Send(fd, count, now, epoll);
        var s' := Flushed(s, fd, count, now);
        if s'.connections[fd].writeBuffer != "" || s'.connections[fd].transfer.Active() {
          WriteAllIsRun(s', fd, sends[1..], files, now, epoll);
          LeadsFirst(s, step, WriteAll(s, fd, sends, files, now, epoll));
        } else {
          LeadsBy(s, step);
        }
      }
    }
  }

  // ---- Other handlers ----

  /** One call hands the kernel at most the write buffer and a budget of file bytes. */
  lemma {:induction false} PumpIsBounded(s: Server, fd: int, answers: seq<SendAnswer>, budget: nat, now: nat, epoll: Epoll)
    requires IsTracked(s, fd) && s.connections[fd].writeBuffer == ""
    ensures var id := s.connections[fd].id;
            var s' := PumpAll(s, fd, answers, budget, now, epoll);
            && id in s'.clients
            && |s.clients[id].history.wire| <= |s'.clients[id].history.wire| <= |s.clients[id].history.wire| + budget
    decreases |answers|
  {
    hide AfterWrite, React;
    var c, h, id := s.connections[fd], HistoryOf(s, fd), s.connections[fd].id;
    AfterWriteIsFrom(c, s.maxBody, now);
    ReactWire(s, fd, h, AfterWrite(c, s.maxBody, now), epoll);
    if c.transfer.Active() && budget != 0 && answers != [] {
      if answers[0].SendInterrupted? {
        PumpIsBounded(s, fd, answers[1..], budget, now, epoll);
      } else if answers[0].Room? {
        if c.transfer.offset >= |c.transfer.file.value| {
          FileSentIsFrom(c, 0, s.maxBody, now);
          ReactWire(s, fd, h, OnFileEnd(c, s.maxBody, now), epoll);
        } else {
          var count := FileRoom(c.transfer, budget, answers[0].count);
          if count != 0 {
            PumpIsBounded(Pumped(s, fd, count, now), fd, answers[1..], budget - count, now, epoll);
          }
        }
      }
    }
  }

  lemma ReactWire(s: Server, fd: int, h: History, r: Reaction, epoll: Epoll)
    requires fd in s.connections && IsFrom(r, s.connections[fd])
    ensures var id := s.connections[fd].id;
            var s' := React(s, fd, h, r, epoll);
            id in s'.clients && s'.clients[id].history.wire == h.wire && s'.loop == s.loop
  {
  }

  lemma {:induction false} ReadAllStaysPolling(s: Server, fd: int, answers: seq<RecvAnswer>, now: nat, epoll: Epoll)
    requires fd in s.connections
    ensures ReadAll(s, fd, answers, now, epoll).loop == s.loop
    decreases |answers|
  {
    hide OnChunk, ReadsOn;
    if answers != [] {
      if answers[0].Chunk? {
        if GoesOnReading(s, fd, answers[0].bytes, now) {
          ReadAllStaysPolling(Received(s, fd, answers[0].bytes, now, epoll), fd, answers[1..], now, epoll);
        }
      } else if answers[0].RecvInterrupted? {
        ReadAllStaysPolling(s, fd, answers[1..], now, epoll);
      }
    }
  }

  /** What epoll reports of one descriptor: ERR or HUP, RDHUP, IN, OUT. */
  datatype Events = Events(failed: bool, peerClosed: bool, readable: bool, writable: bool)

  predicate HasUnsent(s: Server, fd: int) {
    fd in s.connections && (s.connections[fd].writeBuffer != "" || s.connections[fd].transfer.Active())
  }

  /** handleConnectionEvent. */
  function OnEvents(s: Server, fd: int, events: Events, recvs: seq<RecvAnswer>, sends: seq<SendAnswer>,
                    files: seq<SendAnswer>, now: nat, epoll: Epoll): Server
  {
    if fd !in s.connections then s else
    if events.failed || (events.peerClosed && HasNoResponse(s.connections[fd])) then Closed(s, fd, HistoryOf(s, fd)) else
    var s' := if events.readable && !s.connections[fd].responsePending then ReadAll(s, fd, recvs, now, epoll) else s;
    if events.writable && HasUnsent(s', fd) then WriteAll(s', fd, sends, files, now, epoll) else s'
  }

  /** A half-close of a connection without a response is handled before its bytes are read, whatever they are. */
  lemma HalfCloseComesFirst(s: Server, fd: int, events: Events, recvs: seq<RecvAnswer>, sends: seq<SendAnswer>,
                            files: seq<SendAnswer>, now: nat, epoll: Epoll)
    requires fd in s.connections && HasNoResponse(s.connections[fd]) && events.peerClosed
    ensures OnEvents(s, fd, events, recvs, sends, files, now, epoll) == Closed(s, fd, HistoryOf(s, fd))
  {
    hide ReadAll, WriteAll, Closed;
  }

  lemma UnsentIsWriting(s: Server, fd: int)
    requires Inv(s) && HasUnsent(s, fd)
    ensures s.connections[fd].interest == WantsWrite
  {
    hide Inv, Jobs, HasItsJob, InOrder, PendingIsServed, Framed, CloseIsLast, Payloads;
    LiveIsAt(s, fd);
  }

  lemma ReadableIsReading(s: Server, fd: int)
    requires Inv(s) && fd in s.connections && s.connections[fd].interest != WantsWrite
    requires !s.connections[fd].responsePending
    ensures s.connections[fd].interest == WantsRead
  {
    hide Inv, Jobs, HasItsJob, InOrder, PendingIsServed, Framed, CloseIsLast, Payloads;
    LiveIsAt(s, fd);
  }

  lemma LeadsOn(s: Server, s': Server, s'': Server)
    requires Leads(s, s') && Leads(s', s'')
    ensures Leads(s, s'')
  {
    hide Leads, Enabled, Apply;
    var steps := StepsOf(s, s');
    LeadsAlong(s, steps, s'');
  }

  lemma StepsOf(s: Server, s': Server) returns (steps: seq<Step>)
    requires Leads(s, s')
    ensures IsRun(s, steps) && Run(s, steps) == s'
  {
    steps :| IsRun(s, steps) && Run(s, steps) == s';
  }

  lemma {:induction false} LeadsAlong(s: Server, steps: seq<Step>, s': Server)
    requires IsRun(s, steps) && Leads(Run(s, steps), s')
    ensures Leads(s, s')
    decreases |steps|
  {
    hide Leads, Enabled, Apply;
    if steps != [] {
      LeadsAlong(Apply(s, steps[0]), steps[1..], s');
      LeadsFirst(s, steps[0], s');
    }
  }

  /**
   * Handling any events of any descriptor is a run, as long as IN is not reported for a
   * connection that waits to write.
   */
  lemma OnEventsIsRun(s: Server, fd: int, events: Events, recvs: seq<RecvAnswer>, sends: seq<SendAnswer>,
                      files: seq<SendAnswer>, now: nat, epoll: Epoll)
    requires Inv(s) && s.loop.Polling? && (fd in s.connections ==> Gives(HistoryOf(s, fd), recvs))
    requires events.readable && fd in s.connections ==> s.connections[fd].interest != WantsWrite
    ensures Leads(s, OnEvents(s, fd, events, recvs, sends, files, now, epoll))
  {
    hide Inv, Leads, ReadAll, WriteAll, Closed, Gives;
    if fd !in s.connections {
      LeadsNowhere(s);
    } else if events.failed || (events.peerClosed && HasNoResponse(s.connections[fd])) {
      LeadsBy(s, Hangup(fd));
    } else {
      var s' := s;
      if events.readable && !s.connections[fd].responsePending {
        s' := ReadAll(s, fd, recvs, now, epoll);
        ReadableIsReading(s, fd);
        ReadAllIsRun(s, fd, recvs, now, epoll);
        ReadAllStaysPolling(s, fd, recvs, now, epoll);
      } else {
        LeadsNowhere(s);
      }
      LeadsSound(s, s');
      if events.writable && HasUnsent(s', fd) {
        WritingIsRun(s', fd, sends, files, now, epoll);
        LeadsOn(s, s', WriteAll(s', fd, sends, files, now, epoll));
      }
    }
  }

  lemma WritingIsRun(s: Server, fd: int, sends: seq<SendAnswer>, files: seq<SendAnswer>, now: nat, epoll: Epoll)
    requires Inv(s) && s.loop.Polling? && HasUnsent(s, fd)
    ensures Leads(s, WriteAll(s, fd, sends, files, now, epoll))
  {
    hide Inv, Leads, WriteAll;
    UnsentIsWriting(s, fd);
    WriteAllIsRun(s, fd, sends, files, now, epoll);
  }

  /** How one delivery goes: the moment at which the file is opened, if one is, and epoll_ctl. */
  datatype DeliveryAnswer = DeliveryAnswer(at: nat, epollOk: bool)

  /** The loop of handleCompletionEvent. */
  function DeliverAll(s: Server, answers: seq<DeliveryAnswer>): Server
    requires |answers| >= |BatchOf(s.loop)|
    decreases |answers|
  {
    if BatchOf(s.loop) == [] then s
    else DeliverAll(Handed(s, answers[0].at, answers[0].epollOk), answers[1..])
  }

  lemma HandedMovesOn(s: Server, at: nat, epollOk: bool)
    requires s.loop.Delivering? && s.loop.batch != []
    ensures Handed(s, at, epollOk).loop == AfterOne(s.loop.batch)
    ensures BatchOf(AfterOne(s.loop.batch)) == s.loop.batch[1..]
  {
    hide Deliver, EmissionOf, IsFor;
    ghost var rest := s.loop.batch[1..];
    assert |s.loop.batch| == 1 ==> rest == [];
  }

  lemma {:induction false} DeliverAllIsRun(s: Server, answers: seq<DeliveryAnswer>)
    requires |answers| >= |BatchOf(s.loop)|
    ensures Leads(s, DeliverAll(s, answers))
    decreases |answers|
  {
    hide Leads, Handed;
    if BatchOf(s.loop) == [] {
      LeadsNowhere(s);
    } else {
      var s' := Handed(s, answers[0].at, answers[0].epollOk);
      HandedMovesOn(s, answers[0].at, answers[0].epollOk);
      DeliverAllIsRun(s', answers[1..]);
      LeadsFirst(s, DeliverNext(answers[0].at, answers[0].epollOk), DeliverAll(s, answers));
    }
  }

  predicate TimedOut(c: Connection, now: nat, idleTimeout: nat) {
    HasNoResponse(c) && now >= c.lastActive + idleTimeout
  }

  /** closeIdleConnections. */
  function CloseIdle(s: Server, now: nat): Server {
    s.(connections := map fd | fd in s.connections && !TimedOut(s.connections[fd], now, s.idleTimeout) :: s.connections[fd])
  }

  lemma ClosedTracked(s: Server, fd: int)
    requires IsTracked(s, fd)
    ensures Closed(s, fd, HistoryOf(s, fd)) == s.(connections := s.connections - {fd})
  {
    var id := s.connections[fd].id;
    assert s.clients[id := s.clients[id]] == s.clients;
  }

  lemma PickOne<T>(s: set<T>) returns (x: T)
    requires s != {}
    ensures x in s
  {
    x :| x in s;
  }

  lemma RemoveNone(connections: map<int, Connection>)
    ensures connections - {} == connections
  {
  }

  lemma {:induction false} CloseSomeIsRun(s: Server, now: nat, fds: set<int>)
    requires Inv(s) && s.loop.Polling?
    requires forall fd :: fd in fds ==> fd in s.connections && TimedOut(s.connections[fd], now, s.idleTimeout)
    ensures Leads(s, s.(connections := s.connections - fds))
    decreases |fds|
  {
    hide Inv, Leads, TimedOut, Closed;
    if fds != {} {
      var fd := PickOne(fds);
      LiveIsTracked(s, fd);
      ClosedTracked(s, fd);
      var s' := s.(connections := s.connections - {fd});
      ClosedAsItIs(s, fd);
      CloseSomeIsRun(s', now, fds - {fd});
      assert s'.connections - (fds - {fd}) == s.connections - fds;
      IdleStep(s, fd, now);
      LeadsFirst(s, IdleClose(fd, now), s.(connections := s.connections - fds));
    } else {
      RemoveNone(s.connections);
      LeadsNowhere(s);
    }
  }

  lemma LiveIsTracked(s: Server, fd: int)
    requires Inv(s) && fd in s.connections
    ensures IsTracked(s, fd)
  {
    hide Inv, Sound, Jobs, HasItsJob;
    LiveIsAt(s, fd);
  }

  lemma IdleStep(s: Server, fd: int, now: nat)
    requires s.loop.Polling? && fd in s.connections && TimedOut(s.connections[fd], now, s.idleTimeout)
    ensures Enabled(s, IdleClose(fd, now)) && Apply(s, IdleClose(fd, now)) == Closed(s, fd, HistoryOf(s, fd))
  {
  }

  /** The idle scan is a run of idle closes. */
  lemma CloseIdleIsRun(s: Server, now: nat)
    requires Inv(s) && s.loop.Polling?
    ensures Leads(s, CloseIdle(s, now))
  {
    hide Inv, Leads, TimedOut;
    var fds := set fd | fd in s.connections && TimedOut(s.connections[fd], now, s.idleTimeout);
    CloseSomeIsRun(s, now, fds);
    assert s.connections - fds == CloseIdle(s, now).connections;
  }

  /** accept4: a descriptor that is not open, EINTR or an error; where the answers end it would block. */
  datatype AcceptAnswer = NewClient(fd: int, now: nat, epollOk: bool) | AcceptInterrupted | AcceptFailed

  predicate AllNew(s: Server, answers: seq<AcceptAnswer>)
    decreases |answers|
  {
    answers == [] ||
    (match answers[0]
     case NewClient(fd, now, epollOk) => fd !in s.connections && AllNew(Accepted(s, fd, now, epollOk), answers[1..])
     case _ => AllNew(s, answers[1..]))
  }

  /** acceptReadyClients. */
  function AcceptAll(s: Server, answers: seq<AcceptAnswer>): Server
    decreases |answers|
  {
    if answers == [] then s else
    match answers[0]
    case NewClient(fd, now, epollOk) => AcceptAll(Accepted(s, fd, now, epollOk), answers[1..])
    case AcceptInterrupted => AcceptAll(s, answers[1..])
    case AcceptFailed => s
  }

  lemma {:induction false} AcceptAllIsRun(s: Server, answers: seq<AcceptAnswer>)
    requires s.loop.Polling? && AllNew(s, answers)
    ensures Leads(s, AcceptAll(s, answers))
    decreases |answers|
  {
    hide Leads;
    if answers == [] {
      LeadsNowhere(s);
    } else {
      match answers[0]
      case NewClient(fd, now, epollOk) =>
        AcceptAllIsRun(Accepted(s, fd, now, epollOk), answers[1..]);
        LeadsFirst(s, Accept(fd, now, epollOk), AcceptAll(s, answers));
      case AcceptInterrupted => AcceptAllIsRun(s, answers[1..]);
      case AcceptFailed => LeadsNowhere(s);
    }
  }
}
