/**
 * The server's methods as they run on the loop thread and the workers, in place on the
 * connection map, the completion queue, the eventfd counter and the pool.  Each method
 * changes the state exactly as the matching step, or sequence of steps, of the server.
 */
module EventLoops {
  import opened Options
  import opened HttpParser
  import opened Framing
  import opened HttpResponses
  import opened Responder
  import opened Connections
  import opened ConnectionSafety
  import opened ConnectionSteps
  import opened Servers
  import opened ServerSafety
  import opened ServerSteps
  import opened ServerTheorems
  import opened EventHandlers
  import ThreadPools

  lemma StoredAsItIs(s: Server, fd: int)
    requires IsTracked(s, fd)
    ensures Stored(s, fd, s.connections[fd], HistoryOf(s, fd)) == s
  {
    var c := s.connections[fd];
    assert s.connections[fd := c] == s.connections;
    assert s.clients[c.id := s.clients[c.id]] == s.clients;
  }

  lemma StoredIsTracked(s: Server, fd: int, c: Connection, h: History)
    ensures IsTracked(Stored(s, fd, c, h), fd)
  {
  }

  lemma ReactIsTracked(s: Server, fd: int, h: History, r: Reaction, epoll: Epoll)
    requires fd in s.connections
    ensures fd in React(s, fd, h, r, epoll).connections ==> IsTracked(React(s, fd, h, r, epoll), fd)
  {
    hide Record, ThreadPools.Push, ThreadPools.Accepts, AfterRefusal;
  }

  lemma PushRefused(p: ThreadPools.Pool<Task>, task: Task)
    ensures !ThreadPools.Accepts(p) ==> ThreadPools.Push(p, task) == p
  {
  }

  lemma RespondIsFrom(c: Connection, frame: Frame, result: Result, close: bool)
    ensures IsFrom(RespondNow(c, frame, result, close), c)
  {
  }

  lemma DispatchIsFrom(c: Connection, request: Request)
    ensures IsFrom(Dispatch(c.(responsePending := true, interest := WantsNothing), request), c)
  {
  }

  lemma BodyIsFrom(c: Connection, now: nat)
    requires c.body.Awaiting?
    ensures IsFrom(ProcessBody(c, now), c)
  {
    hide IsServed, NotAllowedResult;
  }

  lemma FromSame(r: Reaction, c: Connection, c': Connection)
    requires IsFrom(r, c) && c'.id == c.id && c'.responsePending == c.responsePending
    ensures IsFrom(r, c')
  {
  }

  lemma ImmediateEnds(s: Server, fd: int, bytes: string, now: nat, c: Connection, result: Result)
    requires fd in s.connections && OnChunk(s.connections[fd], bytes, s.maxBody, now) == RespondNow(c, Reject413, result, true)
    ensures !GoesOnReading(s, fd, bytes, now)
  {
    hide OnChunk;
  }

  lemma ReceivedIsTracked(s: Server, fd: int, bytes: string, now: nat, epoll: Epoll)
    requires fd in s.connections
    ensures var s' := Received(s, fd, bytes, now, epoll);
            fd in s'.connections ==> IsTracked(s', fd)
  {
    hide OnChunk, React;
    var h := HistoryOf(s, fd);
    ReactIsTracked(s, fd, h.(received := h.received + bytes), OnChunk(s.connections[fd], bytes, s.maxBody, now), epoll);
  }

  function WithReading(r: Reaction): Reaction {
    if r.Stay? then Rearm(r.c.(interest := WantsRead)) else r
  }

  lemma RearmIsFrom(c: Connection)
    ensures IsFrom(Rearm(c.(interest := WantsRead)), c)
  {
  }

  lemma DropCloses(s': Server, s: Server, fd: int, c: Connection, h: History, epoll: Epoll)
    requires fd in s.connections && c.id == s.connections[fd].id && s' == Closed(Stored(s, fd, c, h), fd, h)
    ensures s' == React(s, fd, h, Drop, epoll)
  {
    CloseStored(s, fd, c, h, h);
  }

  /** After processReadBuffer only a connection that waits for its body has a body state. */
  lemma ProcessLeaves(s: Server, fd: int, h: History, maxBody: nat, now: nat, epoll: Epoll)
    requires fd in s.connections && HasNoResponse(s.connections[fd]) && s.connections[fd].body.NoBody?
    requires CompleteHeaderLength(s.connections[fd].readBuffer).Some?
    ensures var r := Process(s.connections[fd], maxBody, now);
            var s' := React(s, fd, h, r, epoll);
            (fd in s'.connections && s'.connections[fd].body.Awaiting? && HasNoResponse(s'.connections[fd])) <==> r.Stay?
  {
    hide CompleteHeaderLength, ParseRequest, IsServed, TooLargeResult, BadRequestResult, NotAllowedResult, UnavailableResult;
    hide Record, ThreadPools.Push, ThreadPools.Accepts;
  }

  lemma ReadLeavesSound(s: Server, fd: int, answers: seq<RecvAnswer>, now: nat, epoll: Epoll)
    requires Inv(s) && s.loop.Polling? && fd in s.connections
    requires s.connections[fd].interest != WantsWrite && Gives(HistoryOf(s, fd), answers)
    ensures !s.connections[fd].responsePending ==> Inv(ReadAll(s, fd, answers, now, epoll))
  {
    hide Inv, ReadAll, Leads;
    if !s.connections[fd].responsePending {
      ReadableIsReading(s, fd);
      ReadAllIsRun(s, fd, answers, now, epoll);
      LeadsSound(s, ReadAll(s, fd, answers, now, epoll));
    }
  }

  lemma UnsentIsNotPending(s: Server, fd: int)
    requires Inv(s) && HasUnsent(s, fd)
    ensures !s.connections[fd].responsePending && IsTracked(s, fd)
  {
    hide Inv, Sound;
    LiveIsTracked(s, fd);
    LiveIsAt(s, fd);
    ModeByInterest(s.world, s.connections[fd], HistoryOf(s, fd), s.maxBody);
  }

  lemma SoundLoop(s: Server)
    requires Inv(s)
    ensures s.loop.Delivering? ==> s.loop.batch != []
  {
  }

  lemma SameMap<K, V>(a: map<K, V>, b: map<K, V>)
    requires forall k :: k in a <==> k in b
    requires forall k :: k in a && k in b ==> a[k] == b[k]
    ensures a == b
  {
  }

  class EventLoop {
    const world: World
    const maxBody: nat
    const idleTimeout: nat
    const pool: ThreadPools.ThreadPool<Task>
    var connections: map<int, Connection>
    var nextId: nat
    var completions: seq<Completion>
    var eventCount: nat
    ghost var loop: Loop
    ghost var clients: map<nat, Client>
    ghost var delivered: multiset<nat>
    ghost var dropped: multiset<nat>

    ghost function View(): Server
      reads this, pool
    {
      Server(world, maxBody, idleTimeout, connections, nextId, pool.View(), completions, eventCount, loop,
             clients, delivered, dropped)
    }

    /** The object is in a state that some run of the server reaches, so whatever holds over all runs holds of it. */
    ghost predicate Valid()
      reads this, pool
    {
      Reachable(View())
    }

    constructor (world: World, maxBody: nat, idleTimeout: nat, threadCount: nat, maxQueueSize: nat)
      requires IsPossible(world)
      ensures View() == NewServer(world, maxBody, idleTimeout, threadCount, maxQueueSize)
      ensures Valid() && fresh(pool)
    {
      this.world := world;
      this.maxBody := maxBody;
      this.idleTimeout := idleTimeout;
      pool := new ThreadPools.ThreadPool<Task>(threadCount, maxQueueSize);
      connections := map[];
      nextId := 1;
      completions := [];
      eventCount := 0;
      loop := Polling;
      clients := map[];
      delivered := multiset{};
      dropped := multiset{};
      new;
      NewIsReachable(world, maxBody, idleTimeout, threadCount, maxQueueSize);
    }

    /** What holds over all runs holds of the object: every response answers the request it stands for. */
    lemma ResponsesAreInOrder(id: nat, k: nat)
      requires Valid() && id in clients && k < |clients[id].history.emitted|
      ensures var h := clients[id].history;
              k < |h.framed| && Answers(world, h.framed[k], h.emitted[k]) && h.emitted[k].asked == RequestOf(h.framed[k])
    {
      hide Reachable, Answers;
      AnswersInOrder(View(), id);
    }

    /** And a connection is pending exactly while one job carries its id. */
    lemma PendingHasOneJob(fd: int)
      requires Valid() && fd in connections
      ensures connections[fd].responsePending <==> Jobs(View())[connections[fd].id] == 1
    {
      hide Reachable, Jobs;
      OneModeOneJob(View(), fd);
    }

    /** A client's bytes arrive at the socket; no field but the history changes. */
    ghost method ClientBytes(fd: int, bytes: string)
      requires Valid() && fd in connections
      modifies this`clients
      ensures View() == ClientSent(old(View()), fd, bytes) && Valid()
    {
      hide Reachable;
      ghost var s := View();
      ReachableClientSent(s, fd, bytes);
      var h := HistoryOf(s, fd);
      clients := clients[connections[fd].id := Client(fd, h.(sent := h.sent + bytes))];
      assert connections[fd := connections[fd]] == connections;
    }

    /** closeConnection. */
    method CloseConnection(fd: int)
      requires IsTracked(View(), fd)
      modifies this
      ensures View() == Closed(old(View()), fd, old(HistoryOf(View(), fd)))
    {
      ghost var id := connections[fd].id;
      connections := connections - {fd};
      assert clients[id := clients[id]] == clients;
    }

    /** An immediate response: fill the write buffer and ask for writability. */
    method RespondAtOnce(fd: int, ghost frame: Frame, result: Result, close: bool, epoll: Epoll)
      requires IsTracked(View(), fd)
      modifies this
      ensures View() == React(old(View()), fd, old(HistoryOf(View(), fd)),
                              RespondNow(old(connections[fd]), frame, result, close), epoll)
    {
      ghost var s, h, c0 := View(), HistoryOf(View(), fd), connections[fd];
      var c := connections[fd].(writeBuffer := result.response, closeAfterWrite := close);
      connections := connections[fd := c];
      ghost var h' := h.(framed := h.framed + [frame], emitted := h.emitted + [Emission(RequestOf(frame), result, close, "")]);
      clients := clients[c.id := Client(fd, h')];
      assert View() == Stored(s, fd, c, h');
      StoredIsTracked(s, fd, c, h');
      if !epoll.ok {
        CloseConnection(fd);
        CloseStored(s, fd, c, h', h');
        return;
      }
      connections := connections[fd := c.(interest := WantsWrite)];
      StoreTwice(s, fd, c, h', c.(interest := WantsWrite), h');
    }
  
    /** Hand the request of a connection just made pending to the pool, or answer 503. */
    method HandToPool(fd: int, request: Request, okAgain: bool)
      requires IsTracked(View(), fd)
      modifies this, pool
      ensures var s, c := old(View()), old(connections[fd]);
              View() == if ThreadPools.Accepts(s.pool) then s.(pool := ThreadPools.Push(s.pool, Task(fd, c.id, request)))
                        else Armed(s, fd, Refused(c), AfterRefusal(old(HistoryOf(View(), fd))), okAgain)
    {
      hide UnavailableResult, ThreadPools.Push, ThreadPools.Accepts;
      var c := connections[fd];
      PushRefused(View().pool, Task(fd, c.id, request));
      var enqueued := pool.Enqueue(Task(fd, c.id, request));
      if !enqueued {
        var response := UnavailableResult();
        c := c.(responsePending := false, writeBuffer := response.response, closeAfterWrite := true);
        clients := clients[c.id := Client(fd, AfterRefusal(clients[c.id].history))];
        if okAgain {
          connections := connections[fd := c.(interest := WantsWrite)];
        } else {
          connections := connections - {fd};
        }
      }
    }

    /** The end of processReadBuffer: mark the connection pending and hand the request to the pool. */
    method DispatchRequest(fd: int, request: Request, epoll: Epoll)
      requires IsTracked(View(), fd)
      modifies this, pool
      ensures View() == React(old(View()), fd, old(HistoryOf(View(), fd)),
                              Dispatch(old(connections[fd]).(responsePending := true, interest := WantsNothing), request),
                              epoll)
    {
      hide UnavailableResult, ThreadPools.Push, ThreadPools.Accepts, Refused, AfterRefusal;
      ghost var s, h := View(), HistoryOf(View(), fd);
      var c := connections[fd].(responsePending := true);
      connections := connections[fd := c];
      ghost var h' := h.(framed := h.framed + [Good(request)]);
      clients := clients[c.id := Client(fd, h')];
      StoredIsTracked(s, fd, c, h');
      if !epoll.ok {
        CloseConnection(fd);
        CloseStored(s, fd, c, h', h');
        return;
      }
      c := c.(interest := WantsNothing);
      connections := connections[fd := c];
      StoreTwice(s, fd, c.(interest := s.connections[fd].interest), h', c, h');
      assert View() == Stored(s, fd, c, h');
      StoredHas(s, fd, c, h');
      HandToPool(fd, request, epoll.okAgain);
      RefusedIsOf(c);
      StoreTwice(s, fd, c, h', Refused(c), AfterRefusal(h'));
      CloseStored(s, fd, c, h', AfterRefusal(h'));
    }

    /** processReadBuffer, once the body state is set. */
    method TakeRequest(fd: int, now: nat, epoll: Epoll)
      requires IsTracked(View(), fd) && connections[fd].body.Awaiting?
      modifies this, pool
      ensures View() == React(old(View()), fd, old(HistoryOf(View(), fd)), ProcessBody(old(connections[fd]), now), epoll)
    {
      hide React, NotAllowedResult, IsServed, IsFrom;
      ghost var s, h := View(), HistoryOf(View(), fd);
      var c := connections[fd];
      var length := c.body.headerLength + c.body.bodyLength;
      if |c.readBuffer| < length {
        StaysStored(s, fd, c, h, epoll);
        StoredAsItIs(s, fd);
        return;
      }
      var request := c.body.request.(body := c.readBuffer[c.body.headerLength..length]);
      var c' := c.(body := NoBody, lastActive := now, readBuffer := c.readBuffer[length..]);
      connections := connections[fd := c'];
      clients := clients[c.id := Client(fd, h)];
      assert View() == Stored(s, fd, c', h);
      StoredIsTracked(s, fd, c', h);
      StoredHas(s, fd, c', h);
      if !IsServed(request) {
        RespondAtOnce(fd, Good(request), NotAllowedResult(request), !request.keepAlive, epoll);
        RespondIsFrom(c', Good(request), NotAllowedResult(request), !request.keepAlive);
        ReactAfterStore(s, fd, c', h, h, RespondNow(c', Good(request), NotAllowedResult(request), !request.keepAlive), epoll);
      } else {
        DispatchRequest(fd, request, epoll);
        DispatchIsFrom(c', request);
        ReactAfterStore(s, fd, c', h, h, Dispatch(c'.(responsePending := true, interest := WantsNothing), request), epoll);
      }
    }

    /** processReadBuffer. */
    method ProcessReadBuffer(fd: int, now: nat, epoll: Epoll)
      requires IsTracked(View(), fd)
      modifies this, pool
      ensures View() == React(old(View()), fd, old(HistoryOf(View(), fd)),
                              Process(old(connections[fd]), maxBody, now), epoll)
    {
      hide React, ParseRequest, CompleteHeaderLength, ProcessBody, BadRequestResult, TooLargeResult, RespondNow, IsFrom;
      ghost var s, h := View(), HistoryOf(View(), fd);
      var c := connections[fd];
      if c.body.NoBody? {
        var head := CompleteHeaderLength(c.readBuffer);
        if head.None? {
          StaysStored(s, fd, c, h, epoll);
          StoredAsItIs(s, fd);
          return;
        }
        var parsed := ParseRequest(c.readBuffer[..head.value]);
        if parsed.None? {
          RespondAtOnce(fd, Reject400, BadRequestResult(), true, epoll);
          return;
        }
        if BodyLength(parsed.value) > maxBody {
          RespondAtOnce(fd, Reject413, TooLargeResult(), true, epoll);
          return;
        }
        c := c.(body := Awaiting(head.value, BodyLength(parsed.value), parsed.value));
        connections := connections[fd := c];
        clients := clients[c.id := Client(fd, h)];
        assert View() == Stored(s, fd, c, h);
        StoredIsTracked(s, fd, c, h);
        StoredHas(s, fd, c, h);
      } else {
        StoredAsItIs(s, fd);
      }
      TakeRequest(fd, now, epoll);
      BodyIsFrom(c, now);
      ReactAfterStore(s, fd, c, h, h, ProcessBody(c, now), epoll);
    }
  
    /** readFromConnection, with one chunk in hand; says whether to recv again. */
    method HandleChunk(fd: int, bytes: string, now: nat, epoll: Epoll) returns (goesOn: bool)
      requires IsTracked(View(), fd)
      modifies this, pool
      ensures View() == Received(old(View()), fd, bytes, now, epoll)
      ensures goesOn == GoesOnReading(old(View()), fd, bytes, now)
      ensures goesOn ==> IsTracked(View(), fd)
    {
      hide React, Process, CompleteHeaderLength, TooLargeResult, RespondNow, IsFrom, BodyBytes;
      ghost var s, h := View(), HistoryOf(View(), fd);
      ghost var h' := h.(received := h.received + bytes);
      var c := connections[fd].(lastActive := now, readBuffer := connections[fd].readBuffer + bytes);
      connections := connections[fd := c];
      clients := clients[c.id := Client(fd, h')];
      assert View() == Stored(s, fd, c, h');
      StoredIsTracked(s, fd, c, h');
      StoredHas(s, fd, c, h');
      ChunkIsFrom(s.connections[fd], bytes, s.maxBody, now);
      FromSame(OnChunk(s.connections[fd], bytes, s.maxBody, now), s.connections[fd], c);
      ReactAfterStore(s, fd, c, h', h', OnChunk(s.connections[fd], bytes, s.maxBody, now), epoll);
      if c.body.NoBody? && HeaderTooLarge(c.readBuffer) {
        RespondAtOnce(fd, Reject413, TooLargeResult(), true, epoll);
        ImmediateEnds(s, fd, bytes, now, c, TooLargeResult());
        return false;
      }
      if c.body.Awaiting? {
        if |c.readBuffer| >= c.body.headerLength + c.body.bodyLength {
          ProcessReadBuffer(fd, now, epoll);
          return false;
        }
        if BodyBytes(c) > maxBody {
          connections := connections[fd := c.(body := NoBody)];
          StoreTwice(s, fd, c, h', c.(body := NoBody), h');
          assert View() == Stored(s, fd, c.(body := NoBody), h');
          StoredIsTracked(s, fd, c.(body := NoBody), h');
          StoredHas(s, fd, c.(body := NoBody), h');
          RespondAtOnce(fd, Reject413, TooLargeResult(), true, epoll);
          RespondIsFrom(c.(body := NoBody), Reject413, TooLargeResult(), true);
          ReactAfterStore(s, fd, c.(body := NoBody), h', h',
                          RespondNow(c.(body := NoBody), Reject413, TooLargeResult(), true), epoll);
          ImmediateEnds(s, fd, bytes, now, c.(body := NoBody), TooLargeResult());
          return false;
        }
      } else if CompleteHeaderLength(c.readBuffer).Some? {
        ProcessReadBuffer(fd, now, epoll);
        return false;
      }
      StaysStored(s, fd, c, h', epoll);
      return true;
    }

    /** readFromConnection. */
    method ReadFromConnection(fd: int, answers: seq<RecvAnswer>, now: nat, epoll: Epoll)
      requires IsTracked(View(), fd)
      modifies this, pool
      ensures View() == if old(connections[fd].responsePending) then old(View())
                        else ReadAll(old(View()), fd, answers, now, epoll)
      ensures fd in connections ==> IsTracked(View(), fd)
    {
      hide Received, GoesOnReading;
      if connections[fd].responsePending {
        return;
      }
      var i := 0;
      while i < |answers|
        invariant 0 <= i <= |answers| && IsTracked(View(), fd)
        invariant ReadAll(View(), fd, answers[i..], now, epoll) == ReadAll(old(View()), fd, answers, now, epoll)
      {
        assert answers[i..][1..] == answers[i + 1..];
        match answers[i] {
          case Chunk(bytes) =>
            ghost var s := View();
            var goesOn := HandleChunk(fd, bytes, now, epoll);
            if !goesOn {
              ReceivedIsTracked(s, fd, bytes, now, epoll);
              return;
            }
          case RecvInterrupted =>
          case _ =>
            CloseConnection(fd);
            return;
        }
        i := i + 1;
      }
    }
  
    /** The tail of writeToConnection, when the write buffer and the file are done. */
    method FinishWriting(fd: int, now: nat, epoll: Epoll)
      requires IsTracked(View(), fd) && HasNoResponse(connections[fd])
      modifies this, pool
      ensures View() == React(old(View()), fd, old(HistoryOf(View(), fd)),
                              AfterWrite(old(connections[fd]), maxBody, now), epoll)
    {
      hide React, Process, CompleteHeaderLength, TooLargeResult, RespondNow, IsFrom, BodyBytes, HeaderTooLarge;
      ghost var s, h := View(), HistoryOf(View(), fd);
      var c := connections[fd].(transfer := NO_TRANSFER);
      connections := connections[fd := c];
      clients := clients[c.id := Client(fd, h)];
      assert View() == Stored(s, fd, c, h);
      StoredIsTracked(s, fd, c, h);
      StoredHas(s, fd, c, h);
      AfterWriteIsFrom(s.connections[fd], s.maxBody, now);
      FromSame(AfterWrite(s.connections[fd], s.maxBody, now), s.connections[fd], c);
      ReactAfterStore(s, fd, c, h, h, AfterWrite(s.connections[fd], s.maxBody, now), epoll);
      if c.closeAfterWrite {
        CloseConnection(fd);
        DropCloses(View(), s, fd, c, h, epoll);
        return;
      }
      if c.body.Awaiting? {
        if |c.readBuffer| >= c.body.headerLength + c.body.bodyLength {
          ProcessReadBuffer(fd, now, epoll);
          return;
        }
        if BodyBytes(c) > maxBody {
          connections := connections[fd := c.(body := NoBody)];
          StoreTwice(s, fd, c, h, c.(body := NoBody), h);
          assert View() == Stored(s, fd, c.(body := NoBody), h);
          StoredIsTracked(s, fd, c.(body := NoBody), h);
          StoredHas(s, fd, c.(body := NoBody), h);
          RespondAtOnce(fd, Reject413, TooLargeResult(), true, epoll);
          RespondIsFrom(c.(body := NoBody), Reject413, TooLargeResult(), true);
          ReactAfterStore(s, fd, c.(body := NoBody), h, h,
                          RespondNow(c.(body := NoBody), Reject413, TooLargeResult(), true), epoll);
          return;
        }
      } else if CompleteHeaderLength(c.readBuffer).Some? {
        GoOnWithNext(fd, now, epoll);
        return;
      }
      if c.body.NoBody? && HeaderTooLarge(c.readBuffer) {
        RespondAtOnce(fd, Reject413, TooLargeResult(), true, epoll);
        return;
      }
      AskForReading(fd, epoll);
    }

    /** Ask for readability again, or close. */
    method AskForReading(fd: int, epoll: Epoll)
      requires IsTracked(View(), fd)
      modifies this
      ensures View() == React(old(View()), fd, old(HistoryOf(View(), fd)),
                              Rearm(old(connections[fd]).(interest := WantsRead)), epoll)
    {
      ghost var s, h := View(), HistoryOf(View(), fd);
      if !epoll.ok {
        CloseConnection(fd);
        return;
      }
      connections := connections[fd := connections[fd].(interest := WantsRead)];
      clients := clients[connections[fd].id := Client(fd, h)];
    }

    /** A pipelined request follows: process it, and read on if only its head is there. */
    method GoOnWithNext(fd: int, now: nat, epoll: Epoll)
      requires IsTracked(View(), fd) && HasNoResponse(connections[fd])
      requires connections[fd].body.NoBody? && CompleteHeaderLength(connections[fd].readBuffer).Some?
      modifies this, pool
      ensures View() == React(old(View()), fd, old(HistoryOf(View(), fd)),
                              WithReading(Process(old(connections[fd]), maxBody, now)), epoll)
    {
      hide React, Process, CompleteHeaderLength;
      ghost var s, h, r := View(), HistoryOf(View(), fd), Process(connections[fd], maxBody, now);
      ProcessReadBuffer(fd, now, epoll);
      ProcessLeaves(s, fd, h, maxBody, now, epoll);
      ReactIsTracked(s, fd, h, r, epoll);
      if fd in connections && connections[fd].body.Awaiting? && HasNoResponse(connections[fd]) {
        StaysStored(s, fd, r.c, h, epoll);
        StoredHas(s, fd, r.c, h);
        AskForReading(fd, epoll);
        ProcessIsFrom(s.connections[fd], maxBody, now);
        RearmIsFrom(r.c);
        ReactAfterStore(s, fd, r.c, h, h, Rearm(r.c.(interest := WantsRead)), epoll);
      }
    }
  
    /** The flush loop of writeToConnection; false means the handler returns here. */
    method FlushWriteBuffer(fd: int, sends: seq<SendAnswer>, ghost files: seq<SendAnswer>, now: nat, ghost epoll: Epoll)
      returns (done: bool)
      requires IsTracked(View(), fd) && !connections[fd].responsePending
      modifies this
      ensures done ==> IsTracked(View(), fd) && !connections[fd].responsePending && connections[fd].writeBuffer == ""
      ensures WriteAll(old(View()), fd, sends, files, now, epoll)
           == if done then PumpAll(View(), fd, files, SENDFILE_BUDGET, now, epoll) else View()
    {
      hide PumpAll;
      var i := 0;
      while connections[fd].writeBuffer != ""
        invariant 0 <= i <= |sends| && IsTracked(View(), fd) && !connections[fd].responsePending
        invariant WriteAll(View(), fd, sends[i..], files, now, epoll) == WriteAll(old(View()), fd, sends, files, now, epoll)
        decreases |sends| - i
      {
        if i == |sends| {
          return false;
        }
        assert sends[i..][1..] == sends[i + 1..];
        if sends[i].SendFailed? {
          CloseConnection(fd);
          return false;
        }
        if sends[i].Room? {
          ghost var s := View();
          var c := connections[fd];
          var count := Min(sends[i].count, |c.writeBuffer|);
          if count == 0 {
            return false;
          }
          connections := connections[fd := c.(writeBuffer := c.writeBuffer[count..], lastActive := now)];
          ghost var h := clients[c.id].history;
          clients := clients[c.id := Client(fd, h.(wire := h.wire + c.writeBuffer[..count]))];
          assert View() == Flushed(s, fd, count, now);
        }
        i := i + 1;
      }
      return true;
    }

    /** The sendfile loop of writeToConnection and what follows it. */
    method PumpFile(fd: int, answers: seq<SendAnswer>, now: nat, epoll: Epoll)
      requires IsTracked(View(), fd) && !connections[fd].responsePending && connections[fd].writeBuffer == ""
      modifies this, pool
      ensures View() == PumpAll(old(View()), fd, answers, SENDFILE_BUDGET, now, epoll)
    {
      hide React, AfterWrite;
      var i, budget := 0, SENDFILE_BUDGET;
      while connections[fd].transfer.Active() && budget > 0
        invariant 0 <= i <= |answers|
        invariant IsTracked(View(), fd) && !connections[fd].responsePending && connections[fd].writeBuffer == ""
        invariant PumpAll(View(), fd, answers[i..], budget, now, epoll)
               == PumpAll(old(View()), fd, answers, SENDFILE_BUDGET, now, epoll)
        decreases |answers| - i
      {
        if i == |answers| {
          return;
        }
        assert answers[i..][1..] == answers[i + 1..];
        if answers[i].SendFailed? {
          CloseConnection(fd);
          return;
        }
        if answers[i].Room? {
          ghost var s, h := View(), HistoryOf(View(), fd);
          var c := connections[fd];
          var t := c.transfer;
          if t.offset >= |t.file.value| {
            EndOfFile(fd, now, epoll);
            return;
          }
          var count := FileRoom(t, budget, answers[i].count);
          if count == 0 {
            return;
          }
          connections := connections[fd := c.(transfer := t.(offset := t.offset + count, sent := t.sent + count),
                                              lastActive := now)];
          clients := clients[c.id := Client(fd, h.(wire := h.wire + FileBytes(t, count)))];
          assert View() == Pumped(s, fd, count, now);
          budget := budget - count;
        }
        i := i + 1;
      }
      if connections[fd].transfer.Active() {
        return;
      }
      FinishWriting(fd, now, epoll);
    }

    /** sendfile has met the end of the file: the transfer is reset, and the response counts as written. */
    method EndOfFile(fd: int, now: nat, epoll: Epoll)
      requires IsTracked(View(), fd) && !connections[fd].responsePending && connections[fd].writeBuffer == ""
      modifies this, pool
      ensures View() == FileEnded(old(View()), fd, now, epoll)
    {
      hide React, AfterWrite, IsFrom;
      ghost var s, h := View(), HistoryOf(View(), fd);
      var c := connections[fd].(transfer := NO_TRANSFER);
      connections := connections[fd := c];
      clients := clients[c.id := Client(fd, h)];
      assert View() == Stored(s, fd, c, h);
      StoredIsTracked(s, fd, c, h);
      StoredHas(s, fd, c, h);
      FinishWriting(fd, now, epoll);
      AfterWriteIsFrom(c, s.maxBody, now);
      ReactAfterStore(s, fd, c, h, h, AfterWrite(c, s.maxBody, now), epoll);
    }

    /** writeToConnection. */
    method WriteToConnection(fd: int, sends: seq<SendAnswer>, files: seq<SendAnswer>, now: nat, epoll: Epoll)
      requires IsTracked(View(), fd) && !connections[fd].responsePending
      modifies this, pool
      ensures View() == WriteAll(old(View()), fd, sends, files, now, epoll)
    {
      hide WriteAll, PumpAll;
      var done := FlushWriteBuffer(fd, sends, files, now, epoll);
      if done {
        PumpFile(fd, files, now, epoll);
      }
    }
  
    /** handleConnectionEvent: whatever is reported of a descriptor, as long as epoll and recv are truthful. */
    method HandleConnectionEvent(fd: int, events: Events, recvs: seq<RecvAnswer>, sends: seq<SendAnswer>,
                                 files: seq<SendAnswer>, now: nat, epoll: Epoll)
      requires Valid() && loop.Polling? && (fd in connections ==> Gives(HistoryOf(View(), fd), recvs))
      requires events.readable && fd in connections ==> connections[fd].interest != WantsWrite
      modifies this, pool
      ensures View() == OnEvents(old(View()), fd, events, recvs, sends, files, now, epoll) && Valid()
    {
      hide Inv, ReadAll, WriteAll, Gives, Reachable, Leads;
      ghost var s := View();
      ReachableIsSound(s);
      OnEventsIsRun(s, fd, events, recvs, sends, files, now, epoll);
      ReachableLeads(s, OnEvents(s, fd, events, recvs, sends, files, now, epoll));
      if fd !in connections {
        return;
      }
      LiveIsTracked(s, fd);
      if events.failed {
        CloseConnection(fd);
        return;
      }
      if events.peerClosed {
        var c := connections[fd];
        if c.writeBuffer == "" && !c.transfer.Active() && !c.responsePending {
          CloseConnection(fd);
          return;
        }
      }
      if events.readable {
        ReadLeavesSound(s, fd, recvs, now, epoll);
        ReadFromConnection(fd, recvs, now, epoll);
      }
      if events.writable && fd in connections && (connections[fd].writeBuffer != "" || connections[fd].transfer.Active()) {
        UnsentIsNotPending(View(), fd);
        WriteToConnection(fd, sends, files, now, epoll);
      }
    }

    /**
     * handleCompletionEvent, first part: one read of the eventfd takes the whole count.  The loop
     * there reads again until nothing is left, and workers may signal in between.
     */
    method DrainCompletionEvent()
      requires Valid() && !loop.Delivering? && eventCount > 0
      modifies this
      ensures View() == old(View()).(eventCount := 0, loop := Drained) && Valid()
    {
      hide Reachable;
      ReachableDrained(View());
      eventCount := 0;
      loop := Drained;
    }

    /** handleCompletionEvent, second part: swap the queue out under its mutex. */
    method SwapCompletions() returns (batch: seq<Completion>)
      requires Valid() && loop.Drained?
      modifies this
      ensures View() == old(View()).(completions := [], loop := if batch == [] then Polling else Delivering(batch))
      ensures Valid() && batch == old(completions) == BatchOf(loop)
    {
      hide Reachable;
      ReachableSwapped(View());
      batch, completions := completions, [];
      loop := if batch == [] then Polling else Delivering(batch);
    }

    /** Put a result into a connection: open its file if it names one, then fill the buffers. */
    method FillIn(c0: Connection, result: Result, close: bool, at: nat) returns (c: Connection)
      ensures c == Deliver(c0, result, close, world.onDisk(at, result.filePath)).(interest := c0.interest)
    {
      c := c0.(transfer := NO_TRANSFER);
      var response := result;
      if response.sendFile {
        var file := world.onDisk(at, response.filePath);
        if file.None? {
          response := TextResult(500, "Internal Server Error", response.keepAlive, true);
        } else {
          c := c.(transfer := FileTransfer(file, response.fileOffset, response.fileTransferSize, 0));
        }
      }
      c := c.(responsePending := false, writeBuffer := response.response, closeAfterWrite := close);
    }

    /** One completion of the batch: dropped, or written into the connection it belongs to. */
    method DeliverCompletion(k: Completion, at: nat, epollOk: bool)
      requires loop.Delivering? && loop.batch != [] && k == loop.batch[0]
      requires IsFor(k, connections) ==> IsTracked(View(), k.fd)
      modifies this
      ensures View() == Handed(old(View()), at, epollOk)
    {
      hide AfterOne, Delivered, TransferOf, EmissionOf;
      loop := AfterOne(loop.batch);
      if !(k.fd in connections && connections[k.fd].id == k.id) {
        dropped := dropped + multiset{k.id};
        return;
      }
      ghost var h, content := HistoryOf(View(), k.fd), world.onDisk(at, k.result.filePath);
      var c := FillIn(connections[k.fd], k.result, k.close, at);
      clients := clients[k.id := Client(k.fd, h.(emitted := h.emitted + [EmissionOf(k.request, k.result, k.close, content)]))];
      delivered := delivered + multiset{k.id};
      if epollOk {
        connections := connections[k.fd := c.(interest := WantsWrite)];
      } else {
        connections := connections - {k.fd};
      }
    }

    /** handleCompletionEvent, third part: deliver the batch in order. */
    method DeliverCompletions(batch: seq<Completion>, answers: seq<DeliveryAnswer>)
      requires Valid() && batch == BatchOf(loop) && |answers| == |batch|
      modifies this
      ensures View() == DeliverAll(old(View()), answers)
      ensures Valid() && !loop.Delivering?
    {
      hide Inv, Handed, AfterOne, Reachable;
      ReachableIsSound(View());
      SoundLoop(View());
      var i := 0;
      while i < |batch|
        invariant 0 <= i <= |batch| && batch[i..] == BatchOf(loop) && Reachable(View())
        invariant loop.Delivering? ==> loop.batch != []
        invariant DeliverAll(View(), answers[i..]) == DeliverAll(old(View()), answers)
      {
        ghost var s := View();
        assert batch[i..][0] == batch[i] && batch[i..][1..] == batch[i + 1..];
        assert answers[i..][1..] == answers[i + 1..];
        HandedMovesOn(s, answers[i].at, answers[i].epollOk);
        ReachableHanded(s, answers[i].at, answers[i].epollOk);
        ReachableIsSound(s);
        if IsFor(batch[i], connections) {
          LiveIsTracked(s, batch[i].fd);
        }
        DeliverCompletion(batch[i], answers[i].at, answers[i].epollOk);
        ReachableIsSound(View());
        SoundLoop(View());
        i := i + 1;
      }
    }

    /** queueResponse, on a worker: push the completion under the mutex. */
    method QueueResponse(i: nat, fd: int, id: nat, request: Request, result: Result, close: bool)
      requires i < |pool.workers| && pool.workers[i].Running?
      modifies this, pool
      ensures var s := old(View());
              View() == s.(pool := ThreadPools.Publish(s.pool, i),
                           completions := s.completions + [Completion(fd, id, request, result, close)])
    {
      completions := completions + [Completion(fd, id, request, result, close)];
      pool.ReachLastStatement(i);
    }

    /** The task a worker runs: build the response and queue it. */
    method RunTask(i: nat, at: nat)
      requires Valid() && i < |pool.workers| && pool.workers[i].Running?
      modifies this, pool
      ensures View() == Published(old(View()), i, at) && Valid()
    {
      hide BuildResponse, Reachable;
      ReachablePublished(View(), i, at);
      var task := pool.workers[i].task;
      var response := BuildResponse(world, at, task.request);
      var closeAfterWrite := response.closeAfterWrite || !task.request.keepAlive;
      QueueResponse(i, task.fd, task.id, task.request, response, closeAfterWrite);
    }

    /** notifyCompletionEvent, on a worker; a full counter would block and is left as it is. */
    method NotifyCompletionEvent(i: nat)
      requires Valid() && i < |pool.workers| && pool.workers[i].Finishing?
      modifies this, pool
      ensures View() == Signalled(old(View()), i) && Valid()
    {
      hide Reachable;
      ReachableSignalled(View(), i);
      if eventCount < EVENT_LIMIT {
        eventCount := eventCount + 1;
      }
      pool.FinishTask(i);
    }

    /** A worker of the server's pool looks for a task. */
    method WorkerLooks(i: nat) returns (taken: Option<Task>)
      requires Valid() && i < |pool.workers| && pool.workers[i].Awake?
      modifies pool
      ensures View() == old(View()).(pool := ThreadPools.Look(old(View()).pool, i)) && Valid()
      ensures taken == if old(pool.tasks) == [] then None else Some(old(pool.tasks)[0])
    {
      hide Reachable;
      ReachableLook(View(), i);
      taken := pool.LookForTask(i);
    }

    /** The notification of a pushed task wakes a worker, or nobody sleeps. */
    method WorkerNotified(woken: int)
      requires Valid() && ThreadPools.MayNotify(pool.View(), woken)
      modifies pool
      ensures View() == old(View()).(pool := ThreadPools.NotifyOne(old(View()).pool, woken)) && Valid()
    {
      hide Reachable;
      ReachableNotifyOne(View(), woken);
      pool.WakeOne(woken);
    }

    /** A worker wakes without a notification. */
    method WorkerWakes(i: nat)
      requires Valid() && i < |pool.workers| && pool.workers[i].Asleep?
      modifies pool
      ensures View() == old(View()).(pool := ThreadPools.WakeUp(old(View()).pool, i)) && Valid()
    {
      hide Reachable;
      ReachableWakeUp(View(), i);
      pool.WakeSpuriously(i);
    }

    /** acceptReadyClients. */
    method AcceptReadyClients(answers: seq<AcceptAnswer>)
      requires Valid() && loop.Polling? && AllNew(View(), answers)
      modifies this
      ensures View() == AcceptAll(old(View()), answers) && Valid()
    {
      hide Reachable, Leads;
      AcceptAllIsRun(View(), answers);
      ReachableLeads(View(), AcceptAll(View(), answers));
      var i := 0;
      while i < |answers|
        invariant 0 <= i <= |answers| && AllNew(View(), answers[i..])
        invariant AcceptAll(View(), answers[i..]) == AcceptAll(old(View()), answers)
        decreases |answers| - i
      {
        assert answers[i..][1..] == answers[i + 1..];
        if answers[i].AcceptFailed? {
          return;
        }
        if answers[i].NewClient? {
          AcceptClient(answers[i].fd, answers[i].now, answers[i].epollOk);
        }
        i := i + 1;
      }
    }

    method AcceptClient(fd: int, now: nat, epollOk: bool)
      requires fd !in connections
      modifies this
      ensures View() == Accepted(old(View()), fd, now, epollOk)
    {
      var c := NewConnection(nextId, now);
      clients := clients[nextId := Client(fd, NO_HISTORY)];
      nextId := nextId + 1;
      connections := connections[fd := c];
      if !epollOk {
        connections := connections - {fd};
        assert connections == old(connections);
      }
    }

    /** closeIdleConnections, first loop: collect the descriptors that have timed out. */
    method TimedOutDescriptors(now: nat) returns (timedOut: seq<int>)
      ensures forall fd :: fd in timedOut <==> fd in connections && TimedOut(connections[fd], now, idleTimeout)
      ensures forall i, j :: 0 <= i < j < |timedOut| ==> timedOut[i] != timedOut[j]
    {
      hide TimedOut;
      timedOut := [];
      var left := connections.Keys;
      while left != {}
        invariant left <= connections.Keys
        invariant forall fd :: fd in timedOut <==> fd in connections && fd !in left && TimedOut(connections[fd], now, idleTimeout)
        invariant forall i, j :: 0 <= i < j < |timedOut| ==> timedOut[i] != timedOut[j]
        decreases |left|
      {
        ghost var some := PickOne(left);
        assert some in left;
        var fd :| fd in left;
        left := left - {fd};
        if TimedOut(connections[fd], now, idleTimeout) {
          timedOut := timedOut + [fd];
        }
      }
    }

    /** closeIdleConnections. */
    method CloseIdleConnections(now: nat)
      requires Valid() && loop.Polling?
      modifies this
      ensures View() == CloseIdle(old(View()), now) && Valid()
    {
      hide Inv, TimedOut, Closed, Reachable, Leads;
      ghost var s := View();
      ReachableIsSound(s);
      CloseIdleIsRun(s, now);
      ReachableLeads(s, CloseIdle(s, now));
      var timedOut := TimedOutDescriptors(now);
      var i := 0;
      while i < |timedOut|
        invariant 0 <= i <= |timedOut|
        invariant View() == s.(connections := connections)
        invariant forall fd :: fd in connections <==> fd in s.connections && fd !in timedOut[..i]
        invariant forall fd :: fd in connections ==> connections[fd] == s.connections[fd]
      {
        var fd := timedOut[i];
        assert fd in timedOut;
        LiveIsTracked(s, fd);
        ClosedTracked(View(), fd);
        CloseConnection(fd);
        assert timedOut[..i + 1] == timedOut[..i] + [fd];
        i := i + 1;
      }
      assert timedOut[..i] == timedOut;
      ghost var kept := CloseIdle(s, now).connections;
      forall fd: int ensures fd in connections <==> fd in kept {
        assert fd in timedOut <==> fd in s.connections && TimedOut(s.connections[fd], now, idleTimeout);
      }
      forall fd | fd in connections && fd in kept ensures connections[fd] == kept[fd] {
        assert kept[fd] == s.connections[fd];
      }
      SameMap(connections, kept);
    }
  }
}
