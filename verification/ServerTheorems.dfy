/** What holds over all runs of the server, whatever clients, workers and the kernel do. */
module ServerTheorems {
  import opened Options
  import opened HttpParser
  import opened Framing
  import opened HttpRoundTrip
  import opened HttpResponses
  import opened Responder
  import opened Connections
  import opened ConnectionSafety
  import opened ConnectionSteps
  import opened Servers
  import opened ServerSafety
  import opened ServerSteps
  import ThreadPools

  /**
   * In-order pipelining: the k-th response of an id was made for the k-th request framed on it,
   * from what the world held for that very request; the frames are those of the whole byte
   * stream, only one may be unanswered, and the wire carries the responses one after the other.
   */
  lemma AnswersInOrder(s: Server, id: nat)
    requires Reachable(s) && id in s.clients
    ensures var h := s.clients[id].history;
            && |h.emitted| <= |h.framed| <= |h.emitted| + 1
            && (forall k :: 0 <= k < |h.emitted| ==>
                  Answers(s.world, h.framed[k], h.emitted[k]) && h.emitted[k].asked == RequestOf(h.framed[k]))
            && h.framed <= BatchFrames(h.received, s.maxBody)
            && h.wire <= Payloads(h.emitted)
  {
    hide Answers, BatchFrames, Payloads, Reachable, IsPossible, LiveSound, OneJobEach, JobsFit, NotStranded;
    hide ThreadPools.PoolSound, TaskIds;
    hide NoCloseBefore, RequestOf;
    ReachableIsSound(s);
    var h := s.clients[id].history;
    assert SoundHistory(s.world, h, s.maxBody);
    forall k | 0 <= k < |h.emitted| ensures h.emitted[k].asked == RequestOf(h.framed[k]) {
      AnswerIsForItsRequest(s.world, h.framed[k], h.emitted[k]);
    }
  }

  lemma AnswerIsForItsRequest(w: World, frame: Frame, e: Emission)
    requires Answers(w, frame, e)
    ensures e.asked == RequestOf(frame)
  {
    hide BuildResponse, Closes, IsServed, TextResult, Delivered, TransferOf;
  }

  /** A response answers one request only. */
  lemma AnswersOneRequest(w: World, r1: Request, r2: Request, e: Emission)
    requires Answers(w, Good(r1), e) && Answers(w, Good(r2), e)
    ensures r1 == r2
  {
    hide Answers;
    AnswerIsForItsRequest(w, Good(r1), e);
    AnswerIsForItsRequest(w, Good(r2), e);
  }

  predicate Extends(h: History, h': History) {
    h.sent <= h'.sent && h.received <= h'.received && h.framed <= h'.framed && h.emitted <= h'.emitted && h.wire <= h'.wire
  }

  /** Nothing that has happened on an id is taken back. */
  predicate OnlyGrows(clients: map<nat, Client>, clients': map<nat, Client>) {
    forall id :: id in clients ==>
      id in clients' && clients'[id].fd == clients[id].fd && Extends(clients[id].history, clients'[id].history)
  }

  lemma EntryGrows(clients: map<nat, Client>, id: nat, k: Client)
    requires id in clients ==> k.fd == clients[id].fd && Extends(clients[id].history, k.history)
    ensures OnlyGrows(clients, clients[id := k])
  {
  }

  lemma ReactGrows(s: Server, fd: int, h: History, r: Reaction, epoll: Epoll)
    requires Inv(s) && fd in s.connections && IsFrom(r, s.connections[fd]) && Extends(HistoryOf(s, fd), h)
    ensures OnlyGrows(s.clients, React(s, fd, h, r, epoll).clients)
  {
    hide Inv, OnlyGrows, Sound, Jobs, HasItsJob;
    LiveIsAt(s, fd);
    var id := s.connections[fd].id;
    EntryGrows(s.clients, id, Client(fd, h));
    EntryGrows(s.clients, id, Client(fd, Record(h, r)));
    EntryGrows(s.clients, id, Client(fd, AfterRefusal(Record(h, r))));
  }

  lemma ReceivedGrows(s: Server, fd: int, chunk: string, now: nat, epoll: Epoll)
    requires Inv(s) && fd in s.connections
    ensures OnlyGrows(s.clients, Received(s, fd, chunk, now, epoll).clients)
  {
    hide Inv, OnlyGrows, React, OnChunk, IsFrom;
    var h := HistoryOf(s, fd);
    ChunkIsFrom(s.connections[fd], chunk, s.maxBody, now);
    ReactGrows(s, fd, h.(received := h.received + chunk), OnChunk(s.connections[fd], chunk, s.maxBody, now), epoll);
  }

  lemma SentGrows(s: Server, fd: int, count: nat, now: nat, epoll: Epoll)
    requires Inv(s) && fd in s.connections && count <= |s.connections[fd].writeBuffer|
    ensures OnlyGrows(s.clients, Sent(s, fd, count, now, epoll).clients)
  {
    hide Inv, OnlyGrows, React, OnSent, IsFrom;
    var h, c := HistoryOf(s, fd), s.connections[fd];
    SentIsFrom(c, count, s.maxBody, now);
    ReactGrows(s, fd, h.(wire := h.wire + c.writeBuffer[..count]), OnSent(c, count, s.maxBody, now), epoll);
  }

  lemma FileSentGrows(s: Server, fd: int, count: nat, now: nat, epoll: Epoll)
    requires Inv(s) && fd in s.connections && MaySendFile(s.connections[fd], count)
    ensures OnlyGrows(s.clients, FileSent(s, fd, count, now, epoll).clients)
  {
    hide Inv, OnlyGrows, React, OnFileSent, IsFrom, FileBytes;
    var h, c := HistoryOf(s, fd), s.connections[fd];
    FileSentIsFrom(c, count, s.maxBody, now);
    ReactGrows(s, fd, h.(wire := h.wire + FileBytes(c.transfer, count)), OnFileSent(c, count, s.maxBody, now), epoll);
  }

  lemma FileEndedGrows(s: Server, fd: int, now: nat, epoll: Epoll)
    requires Inv(s) && fd in s.connections
    ensures OnlyGrows(s.clients, FileEnded(s, fd, now, epoll).clients)
  {
    hide Inv, OnlyGrows, React, OnFileEnd, IsFrom;
    FileSentIsFrom(s.connections[fd], 0, s.maxBody, now);
    ReactGrows(s, fd, HistoryOf(s, fd), OnFileEnd(s.connections[fd], s.maxBody, now), epoll);
  }

  lemma AcceptedGrows(s: Server, fd: int, now: nat, epollOk: bool)
    requires Inv(s)
    ensures OnlyGrows(s.clients, Accepted(s, fd, now, epollOk).clients)
  {
    hide Inv, OnlyGrows;
    NextIdIsNew(s);
    EntryGrows(s.clients, s.nextId, Client(fd, NO_HISTORY));
  }

  lemma ClientSentGrows(s: Server, fd: int, bytes: string)
    requires Inv(s) && fd in s.connections
    ensures OnlyGrows(s.clients, ClientSent(s, fd, bytes).clients)
  {
    hide Inv, OnlyGrows, Sound, Jobs, HasItsJob;
    LiveIsAt(s, fd);
    var h := HistoryOf(s, fd);
    EntryGrows(s.clients, s.connections[fd].id, Client(fd, h.(sent := h.sent + bytes)));
  }

  lemma EventGrows(s: Server, step: Step)
    requires Inv(s) && LoopEnabled(s, step)
    ensures OnlyGrows(s.clients, HandleEvent(s, step).clients)
  {
    hide Inv, OnlyGrows, Accepted, Received, Sent, FileSent, FileEnded, Closed;
    hide MaySendFile, AtFileEnd, MayReceive, HasNoResponse;
    match step
    case Accept(fd, now, epollOk) => AcceptedGrows(s, fd, now, epollOk);
    case Receive(fd, chunk, now, epoll) => ReceivedGrows(s, fd, chunk, now, epoll);
    case Send(fd, count, now, epoll) => SentGrows(s, fd, count, now, epoll);
    case SendFile(fd, count, now, epoll) => FileSentGrows(s, fd, count, now, epoll);
    case FileEnd(fd, now, epoll) => FileEndedGrows(s, fd, now, epoll);
    case Hangup(fd) => ClosedGrows(s, fd);
    case HalfClose(fd) => ClosedGrows(s, fd);
    case IdleClose(fd, _) => ClosedGrows(s, fd);
    case _ => Unchanged(s.clients);
  }

  /** Past responses, frames and bytes of every id stay what they were, and its descriptor too. */
  lemma HistoryOnlyGrows(s: Server, step: Step)
    requires Inv(s) && Enabled(s, step)
    ensures OnlyGrows(s.clients, Apply(s, step).clients)
  {
    hide Inv, OnlyGrows, LoopEnabled, HandleEvent, ClientSent, Handed, BuildResponse, Closes, ThreadPools.MayNotify;
    match step
    case ClientSends(fd, bytes) => ClientSentGrows(s, fd, bytes);
    case DeliverNext(at, epollOk) => HandedGrows(s, at, epollOk);
    case Drain => Unchanged(s.clients);
    case Swap => Unchanged(s.clients);
    case NotifyOne(_) => Unchanged(s.clients);
    case WakeUp(_) => Unchanged(s.clients);
    case Look(_) => Unchanged(s.clients);
    case Publish(_, _) => Unchanged(s.clients);
    case Signal(_) => Unchanged(s.clients);
    case _ => EventGrows(s, step);
  }

  lemma NextIdIsNew(s: Server)
    requires Inv(s)
    ensures s.nextId !in s.clients
  {
  }

  lemma Unchanged(clients: map<nat, Client>)
    ensures OnlyGrows(clients, clients)
  {
  }

  lemma ClosedGrows(s: Server, fd: int)
    requires Inv(s) && fd in s.connections
    ensures OnlyGrows(s.clients, Closed(s, fd, HistoryOf(s, fd)).clients)
  {
    hide Inv, OnlyGrows, Sound, Jobs, HasItsJob;
    LiveIsAt(s, fd);
    EntryGrows(s.clients, s.connections[fd].id, Client(fd, HistoryOf(s, fd)));
  }

  lemma HandedGrows(s: Server, at: nat, epollOk: bool)
    requires Inv(s) && s.loop.Delivering? && s.loop.batch != []
    ensures OnlyGrows(s.clients, Handed(s, at, epollOk).clients)
  {
    hide Inv, OnlyGrows, Sound, Jobs, HasItsJob, EmissionOf, AfterOne, Delivered, TransferOf;
    var k := s.loop.batch[0];
    if IsFor(k, s.connections) {
      LiveIsAt(s, k.fd);
      var h := HistoryOf(s, k.fd);
      var content := s.world.onDisk(at, k.result.filePath);
      var e := EmissionOf(k.request, k.result, k.close, content);
      EntryGrows(s.clients, k.id, Client(k.fd, h.(emitted := h.emitted + [e])));
    } else {
      Unchanged(s.clients);
    }
  }

  /** The same bytes give the same requests, however they were cut into reads and mixed with responses. */
  lemma ChunkingDoesNotMatter(s: Server, id: nat, s': Server, id': nat)
    requires Reachable(s) && id in s.clients && Reachable(s') && id' in s'.clients && s.maxBody == s'.maxBody
    requires s.clients[id].history.received <= s'.clients[id'].history.received
    ensures var framed, framed' := s.clients[id].history.framed, s'.clients[id'].history.framed;
            framed <= framed' || framed' <= framed
  {
    hide Answers, BatchFrames, Payloads, Reachable;
    AnswersInOrder(s, id);
    AnswersInOrder(s', id');
    var received, received' := s.clients[id].history.received, s'.clients[id'].history.received;
    assert received + received'[|received|..] == received';
    BatchFramesGrow(received, received'[|received|..], s.maxBody);
    PrefixesOfOne(s.clients[id].history.framed, s'.clients[id'].history.framed, BatchFrames(received', s.maxBody));
  }

  lemma PrefixesOfOne<T>(a: seq<T>, b: seq<T>, c: seq<T>)
    requires a <= c && b <= c
    ensures a <= b || b <= a
  {
    if |a| <= |b| {
      assert a == c[..|a|] == b[..|a|];
    } else {
      assert b == c[..|b|] == a[..|b|];
    }
  }

  /** Each live connection is in exactly one mode, and pending exactly while one job carries its id. */
  lemma OneModeOneJob(s: Server, fd: int)
    requires Reachable(s) && fd in s.connections
    ensures var c := s.connections[fd];
            && (c.interest == WantsRead <==> IsReading(c))
            && (c.interest == WantsNothing <==> IsPending(c))
            && (c.interest == WantsWrite <==> IsWriting(c))
            && (c.responsePending <==> Jobs(s)[c.id] == 1) && Jobs(s)[c.id] <= 1
  {
    hide Reachable, Sound, Inv, Jobs;
    ReachableIsSound(s);
    LiveIsAt(s, fd);
    ModeByInterest(s.world, s.connections[fd], HistoryOf(s, fd), s.maxBody);
  }

  /** Two descriptors never share a connection id. */
  lemma IdsAreDistinct(s: Server, fd: int, other: int)
    requires Reachable(s) && fd in s.connections && other in s.connections && fd != other
    ensures s.connections[fd].id != s.connections[other].id
  {
    hide Reachable, Sound, IsPossible, LiveSound, Jobs;
    ReachableIsSound(s);
    JobsOfOthers(s.world, s.connections, s.clients, s.maxBody, fd, other);
  }

  /**
   * A completion changes only the connection that asked: with its descriptor closed or reused
   * every connection stays as it is, and otherwise it carries the one request that connection
   * waits on, was built for it, and finds the write buffer and transfer empty.
   */
  lemma CompletionsGoHome(s: Server, at: nat, epollOk: bool)
    requires Reachable(s) && s.loop.Delivering? && s.loop.batch != []
    ensures var k, s' := s.loop.batch[0], Apply(s, DeliverNext(at, epollOk));
            && (forall fd :: fd in s.connections && fd != k.fd ==>
                  fd in s'.connections && s'.connections[fd] == s.connections[fd])
            && (!IsFor(k, s.connections) ==> s'.connections == s.connections)
            && (IsFor(k, s.connections) ==>
                  && s.connections[k.fd].responsePending && Unsent(s.connections[k.fd]) == ""
                  && Asked(HistoryOf(s, k.fd)) == Some(k.request)
                  && BuiltFor(s.world, k.request, k.result) && k.close == Closes(k.request, k.result))
  {
    hide Reachable, Sound, Inv, BuiltFor, Closes, Deliver, EmissionOf, AfterOne;
    ReachableIsSound(s);
    var k := s.loop.batch[0];
    if IsFor(k, s.connections) {
      FrontAnswersPending(s);
      NothingUnsent(s.connections[k.fd]);
    }
  }

  /** On a live connection, what is on the wire and what is still to be written are all responses given, in order. */
  lemma NoResponseByteIsLost(s: Server, fd: int)
    requires Reachable(s) && fd in s.connections
    ensures HistoryOf(s, fd).wire + Unsent(s.connections[fd]) == Payloads(HistoryOf(s, fd).emitted)
  {
    hide Reachable, Sound, Inv, Payloads, Unsent;
    ReachableIsSound(s);
    LiveIsAt(s, fd);
    SoundWire(s.world, s.connections[fd], HistoryOf(s, fd), s.maxBody);
  }

  /**
   * Checks of the loop that never fire: a response that keeps the connection open leaves no body
   * state, at most 4095 further bytes and so no oversized head; and while a body is awaited the
   * bytes of it that are buffered stay within the limit.
   */
  lemma LateChecksNeverFire(s: Server, fd: int, chunk: string)
    requires Reachable(s) && fd in s.connections
    ensures var c := s.connections[fd];
            && (IsWriting(c) && !c.closeAfterWrite ==>
                  c.body.NoBody? && |c.readBuffer| <= MAX_LEFTOVER && !HeaderTooLarge(c.readBuffer))
            && (IsReading(c) && c.body.Awaiting? && ReadsOn(c, chunk) ==>
                  BodyBytes(c.(readBuffer := c.readBuffer + chunk)) <= s.maxBody)
            && (IsReading(c) && c.body.Awaiting? ==> c.body.headerLength <= MAX_LENGTH)
  {
    hide Reachable, Inv, Sound, HeaderTooLarge, BodyBytes, ReadsOn;
    ReachableIsSound(s);
    LiveIsAt(s, fd);
    LateChecksAreUnreachable(s.world, s.connections[fd], HistoryOf(s, fd), chunk, s.maxBody);
    if IsWriting(s.connections[fd]) && !s.connections[fd].closeAfterWrite {
      LeftoverWhileWriting(s.world, s.connections[fd], HistoryOf(s, fd), s.maxBody);
    }
  }

  lemma LeftoverWhileWriting(w: World, c: Connection, h: History, maxBody: nat)
    requires Sound(w, c, h, maxBody) && IsWriting(c) && !c.closeAfterWrite
    ensures |c.readBuffer| <= MAX_LEFTOVER
  {
    hide Answers, BatchFrames, Payloads, Cuts, IsShort, InOrder, CloseIsLast;
  }

  /** Everything the client has sent is framed, answered and written. */
  predicate AllAnswered(h: History, maxBody: nat) {
    h.framed == BatchFrames(h.sent, maxBody) && |h.emitted| == |h.framed| && h.wire == Payloads(h.emitted)
  }

  /**
   * What a half-close or the idle scan closes has everything the server has read framed, answered
   * and written.  Of what the client has sent, exactly the requests among the unread bytes are
   * lost: none iff the buffer with the unread bytes still frames nothing.
   */
  lemma QuietClosingLosesOnlyUnread(s: Server, fd: int)
    requires Reachable(s) && fd in s.connections && HasNoResponse(s.connections[fd])
    ensures var h := HistoryOf(s, fd);
            && h.received <= h.sent
            && h.framed == BatchFrames(h.received, s.maxBody)
            && |h.emitted| == |h.framed| && h.wire == Payloads(h.emitted)
            && (AllAnswered(h, s.maxBody) <==>
                  FirstFrame(s.connections[fd].readBuffer + h.Unread(), s.maxBody).NeedMore?)
            && (h.Unread() == "" ==> AllAnswered(h, s.maxBody))
  {
    hide Reachable, Sound, Inv, BatchFrames, Payloads, FirstFrame;
    ReachableIsSound(s);
    LiveIsAt(s, fd);
    var c, h := s.connections[fd], HistoryOf(s, fd);
    ModeByInterest(s.world, c, h, s.maxBody);
    ReadingIsComplete(s.world, c, h, s.maxBody);
    SoundReadingCuts(s.world, c, h, s.maxBody);
    var unread := h.Unread();
    assert h.received + unread == h.sent;
    CutsReceive(h.received, h.framed, c.readBuffer, unread, s.maxBody);
    CutsBatch(h.sent, h.framed, c.readBuffer + unread, s.maxBody);
    NoFramesIffShort(c.readBuffer + unread, s.maxBody);
    if unread == "" {
      assert h.received == h.sent;
    }
  }

  lemma SoundReadingCuts(w: World, c: Connection, h: History, maxBody: nat)
    requires Sound(w, c, h, maxBody) && IsReading(c)
    ensures h.received <= h.sent && Cuts(h.received, h.framed, c.readBuffer, maxBody)
  {
    hide Answers, Payloads, BatchFrames, Cuts, IsShort;
  }

  lemma NoFramesIffShort(rest: string, maxBody: nat)
    ensures BatchFrames(rest, maxBody) == [] <==> FirstFrame(rest, maxBody).NeedMore?
  {
    hide FirstFrame;
  }

  /** A server that has just accepted its first client. */
  lemma FirstClient(world: World, maxBody: nat, fd: int) returns (s: Server)
    requires IsPossible(world)
    ensures Reachable(s) && s.world == world && s.maxBody == maxBody && s.loop.Polling?
    ensures s.connections == map[fd := NewConnection(1, 0)] && s.clients == map[1 := Client(fd, NO_HISTORY)]
    ensures s.completions == [] && s.pool == ThreadPools.NewPool(1, 1)
  {
    hide Reachable, IsPossible, ThreadPools.NewPool;
    var s0 := NewServer(world, maxBody, 1, 1, 1);
    NewIsReachable(world, maxBody, 1, 1, 1);
    ReachableStep(s0, Accept(fd, 0, true));
    s := Apply(s0, Accept(fd, 0, true));
  }

  /**
   * The smallest case of the loss: a client sends a whole request and half-closes before the
   * loop reads.  The half-close is handled, and the request was never framed.
   */
  lemma HalfCloseLosesARequest(world: World, maxBody: nat, fd: int) returns (s: Server)
    requires IsPossible(world)
    ensures Reachable(s) && s.maxBody == maxBody && Enabled(s, HalfClose(fd))
    ensures var h := HistoryOf(s, fd);
            h.sent == Render(TINY_LINE, []) && BatchFrames(h.sent, maxBody) != [] && !AllAnswered(h, maxBody)
    ensures var s' := Apply(s, HalfClose(fd));
            fd !in s'.connections && 1 in s'.clients && s'.clients[1].history.framed == []
  {
    hide BatchFrames, Reachable, IsPossible, Render;
    var s1 := FirstClient(world, maxBody, fd);
    ReachableStep(s1, ClientSends(fd, Render(TINY_LINE, [])));
    s := Apply(s1, ClientSends(fd, Render(TINY_LINE, [])));
    assert "" + Render(TINY_LINE, []) == Render(TINY_LINE, []);
    TinyHasAFrame(maxBody);
  }

  lemma TinyHasAFrame(maxBody: nat)
    ensures BatchFrames(Render(TINY_LINE, []), maxBody) != []
  {
    hide FirstFrame, Render;
    TinyIsFirst("GET", "", maxBody);
    assert Render(TINY_LINE, []) + "" == Render(TINY_LINE, []);
  }

  /** Every response says truthfully whether the connection closes, and nothing is framed after one that says so. */
  lemma PersistenceIsHonest(s: Server, id: nat, k: nat)
    requires Reachable(s) && id in s.clients && k < |s.clients[id].history.emitted|
    ensures var h := s.clients[id].history;
            && IsHonest(h.emitted[k].result, h.emitted[k].close)
            && (h.emitted[k].close ==> |h.framed| == |h.emitted| == k + 1)
  {
    hide Answers, BatchFrames, Payloads, Reachable, IsPossible, LiveSound, OneJobEach, JobsFit, NotStranded;
    hide ThreadPools.PoolSound, TaskIds;
    hide IsHonest;
    ReachableIsSound(s);
    var h := s.clients[id].history;
    assert SoundHistory(s.world, h, s.maxBody);
    AnswerIsHonest(s.world, h.framed[k], h.emitted[k]);
  }

  /** A connection that has nothing to write has never written a response that closes. */
  lemma NobodyLingersAfterClose(s: Server, fd: int, k: nat)
    requires Reachable(s) && fd in s.connections && HasNoResponse(s.connections[fd])
    requires k < |HistoryOf(s, fd).emitted|
    ensures !HistoryOf(s, fd).emitted[k].close
  {
    hide Reachable, Inv, Framed, InOrder, Payloads, PendingIsServed;
    ReachableIsSound(s);
    LiveIsAt(s, fd);
  }

  /** The step that writes the last byte a connection has to write, with every epoll_ctl succeeding. */
  predicate WritesLast(s: Server, fd: int, step: Step) {
    && fd in s.connections && Enabled(s, step)
    && var c := s.connections[fd];
       match step
       case Send(to, count, _, epoll) => to == fd && epoll == Epoll(true, true) && count == |c.writeBuffer| && !c.transfer.Active()
       case SendFile(to, count, _, epoll) => to == fd && epoll == Epoll(true, true) && count == c.transfer.size - c.transfer.sent
       case FileEnd(to, _, epoll) => to == fd && epoll == Epoll(true, true)
       case _ => false
  }

  lemma AfterWriteDrops(c: Connection, maxBody: nat, now: nat)
    ensures AfterWrite(c, maxBody, now).Drop? <==> c.closeAfterWrite
  {
    hide Process, CompleteHeaderLength, HeaderTooLarge, BodyBytes, TooLargeResult;
    ProcessNeverDrops(c.(transfer := NO_TRANSFER), maxBody, now);
  }

  lemma ProcessNeverDrops(c: Connection, maxBody: nat, now: nat)
    ensures !Process(c, maxBody, now).Drop?
  {
    hide CompleteHeaderLength, ParseRequest, IsServed, TooLargeResult, BadRequestResult, NotAllowedResult;
  }

  lemma ReactStays(s: Server, fd: int, h: History, r: Reaction)
    requires fd in s.connections
    ensures fd in React(s, fd, h, r, Epoll(true, true)).connections <==> !r.Drop?
  {
    hide Record, AfterRefusal, Refused, ThreadPools.Push, ThreadPools.Accepts;
  }

  lemma LastSendDrops(s: Server, fd: int, count: nat, now: nat)
    requires WritesLast(s, fd, Send(fd, count, now, Epoll(true, true)))
    ensures fd !in Sent(s, fd, count, now, Epoll(true, true)).connections <==> s.connections[fd].closeAfterWrite
  {
    hide AfterWrite, React;
    var c, h := s.connections[fd], HistoryOf(s, fd);
    AfterWriteDrops(c.(writeBuffer := c.writeBuffer[count..], lastActive := now), s.maxBody, now);
    ReactStays(s, fd, h.(wire := h.wire + c.writeBuffer[..count]), OnSent(c, count, s.maxBody, now));
  }

  lemma LastSendFileDrops(s: Server, fd: int, count: nat, now: nat)
    requires WritesLast(s, fd, SendFile(fd, count, now, Epoll(true, true)))
    ensures fd !in FileSent(s, fd, count, now, Epoll(true, true)).connections <==> s.connections[fd].closeAfterWrite
  {
    hide AfterWrite, React, FileBytes;
    var c, h := s.connections[fd], HistoryOf(s, fd);
    var t := c.transfer;
    AfterWriteDrops(c.(transfer := t.(offset := t.offset + count, sent := t.sent + count), lastActive := now), s.maxBody, now);
    ReactStays(s, fd, h.(wire := h.wire + FileBytes(t, count)), OnFileSent(c, count, s.maxBody, now));
  }

  lemma FileEndDrops(s: Server, fd: int, now: nat)
    requires WritesLast(s, fd, FileEnd(fd, now, Epoll(true, true)))
    ensures fd !in FileEnded(s, fd, now, Epoll(true, true)).connections <==> s.connections[fd].closeAfterWrite
  {
    hide AfterWrite, React;
    var c := s.connections[fd];
    AfterWriteDrops(c.(transfer := NO_TRANSFER), s.maxBody, now);
    ReactStays(s, fd, HistoryOf(s, fd), OnFileEnd(c, s.maxBody, now));
  }

  /** Once the last byte of a response is out, the server closes exactly if that response announced it. */
  lemma ClosesAsAnnounced(s: Server, fd: int, step: Step)
    requires Reachable(s) && WritesLast(s, fd, step)
    ensures var h := HistoryOf(s, fd);
            && h.emitted != []
            && var last := h.emitted[|h.emitted| - 1];
               && IsHonest(last.result, last.close)
               && (fd !in Apply(s, step).connections <==> last.close)
  {
    hide Reachable, Inv, Sound, IsHonest, Accepted, Closed, Handed, Published, Received, Sent, FileSent, FileEnded;
    ReachableIsSound(s);
    LiveIsAt(s, fd);
    LastDecides(s.world, s.connections[fd], HistoryOf(s, fd), s.maxBody);
    LiveIsHonest(s, fd);
    match step {
      case Send(_, count, now, _) => LastSendDrops(s, fd, count, now);
      case SendFile(_, count, now, _) => LastSendFileDrops(s, fd, count, now);
      case FileEnd(_, now, _) => FileEndDrops(s, fd, now);
    }
  }

  lemma LastDecides(w: World, c: Connection, h: History, maxBody: nat)
    requires Sound(w, c, h, maxBody) && c.interest == WantsWrite
    ensures h.emitted != [] && h.emitted[|h.emitted| - 1].close == c.closeAfterWrite
  {
    hide Framed, InOrder, Payloads, PendingIsServed;
  }

  lemma LiveIsHonest(s: Server, fd: int)
    requires Reachable(s) && fd in s.connections && HistoryOf(s, fd).emitted != []
    ensures var h := HistoryOf(s, fd);
            IsHonest(h.emitted[|h.emitted| - 1].result, h.emitted[|h.emitted| - 1].close)
  {
    hide Reachable, Inv, Sound, IsHonest;
    ReachableIsSound(s);
    LiveIsAt(s, fd);
    PersistenceIsHonest(s, s.connections[fd].id, |HistoryOf(s, fd).emitted| - 1);
  }

  /** While the loop runs no completion waits unannounced. */
  lemma NoCompletionIsStranded(s: Server)
    requires Reachable(s) && s.completions != []
    ensures s.eventCount > 0 || SomeFinishing(s.pool.workers) || s.loop.Drained?
  {
    hide Reachable, IsPossible, LiveSound, PastSound, OneJobEach, JobsFit, ThreadPools.PoolSound, TaskIds, SomeFinishing;
    ReachableIsSound(s);
  }

  /**
   * Each job handed to the pool is in flight, delivered or dropped, exactly once; none is
   * dropped while its connection lives.
   */
  lemma EveryJobSettlesOnce(s: Server)
    requires Reachable(s)
    ensures TaskIds(s.pool.accepted) == Jobs(s) + s.delivered + s.dropped
    ensures forall fd :: fd in s.connections ==> s.dropped[s.connections[fd].id] == 0
    ensures s.pool.started <= s.pool.accepted
  {
    hide Reachable, IsPossible, LiveSound, PastSound, JobsFit, NotStranded, TaskIds, Jobs;
    ReachableIsSound(s);
    forall fd | fd in s.connections ensures s.dropped[s.connections[fd].id] == 0 {
      assert HasItsJob(s.connections[fd], Jobs(s), s.dropped);
    }
  }

  // ---- Progress ----

  /** Steps the server takes on its own, without clients and without spurious wakeups. */
  predicate IsInternal(step: Step) {
    step.Drain? || step.Swap? || step.DeliverNext? || step.NotifyOne? || step.Look? || step.Publish? || step.Signal?
  }

  function Work(s: Server): nat {
    9 * |s.pool.tasks| + 4 * ThreadPools.AllStepsLeft(s.pool.workers) + 5 * s.pool.notifies
    + 2 * |s.completions| + (if s.eventCount > 0 then 3 else 0)
    + (if s.loop.Drained? then 2 else 0) + |BatchOf(s.loop)|
  }

  lemma DrainWorkShrinks(s: Server)
    requires Enabled(s, Drain)
    ensures Work(Apply(s, Drain)) < Work(s)
  {
    hide ThreadPools.AllStepsLeft, HandleEvent, LoopEnabled;
  }

  lemma LoopWorkShrinks(s: Server, step: Step)
    requires (s.loop.Delivering? ==> s.loop.batch != []) && Enabled(s, step)
    requires step.Swap? || step.DeliverNext?
    ensures Work(Apply(s, step)) < Work(s)
  {
    hide ThreadPools.AllStepsLeft, Deliver, EmissionOf, HandleEvent, IsFor, LoopEnabled;
  }

  lemma NotifyWorkShrinks(s: Server, i: int)
    requires Enabled(s, NotifyOne(i))
    ensures Work(Apply(s, NotifyOne(i))) < Work(s)
  {
    hide ThreadPools.AllStepsLeft, ThreadPools.SomeAsleep, BatchOf;
    if ThreadPools.SomeAsleep(s.pool) {
      ThreadPools.MayNotifyIsSleeper(s.pool, i);
      ThreadPools.StepsLeftAfter(s.pool.workers, i, ThreadPools.Awake);
    }
  }

  lemma LookWorkShrinks(s: Server, i: nat)
    requires Enabled(s, Look(i))
    ensures Work(Apply(s, Look(i))) < Work(s)
  {
    hide ThreadPools.AllStepsLeft, BatchOf, HandleEvent, LoopEnabled;
    ThreadPools.StepsLeftAfter(s.pool.workers, i, Apply(s, Look(i)).pool.workers[i]);
  }

  lemma PublishWorkShrinks(s: Server, i: nat, at: nat)
    requires Enabled(s, Publish(i, at))
    ensures Work(Apply(s, Publish(i, at))) < Work(s)
  {
    hide ThreadPools.AllStepsLeft, BatchOf, BuildResponse, Closes, HandleEvent, LoopEnabled;
    ThreadPools.StepsLeftAfter(s.pool.workers, i, ThreadPools.Finishing(s.pool.workers[i].task));
  }

  lemma SignalWorkShrinks(s: Server, i: nat)
    requires Enabled(s, Signal(i))
    ensures Work(Apply(s, Signal(i))) < Work(s)
  {
    hide ThreadPools.AllStepsLeft, BatchOf, HandleEvent, LoopEnabled;
    ThreadPools.StepsLeftAfter(s.pool.workers, i, ThreadPools.Awake);
  }

  /** On its own the server can only take finitely many steps. */
  lemma WorkShrinks(s: Server, step: Step)
    requires Inv(s) && IsInternal(step) && Enabled(s, step)
    ensures Work(Apply(s, step)) < Work(s)
  {
    hide Work, Enabled, Apply, IsPossible, LiveSound, PastSound, OneJobEach, Jobs, JobsFit, NotStranded;
    hide ThreadPools.PoolSound, TaskIds;
    if step.Drain? {
      DrainWorkShrinks(s);
    } else if step.Swap? || step.DeliverNext? {
      LoopWorkShrinks(s, step);
    } else if step.NotifyOne? {
      NotifyWorkShrinks(s, step.woken);
    } else if step.Look? {
      LookWorkShrinks(s, step.worker);
    } else if step.Publish? {
      PublishWorkShrinks(s, step.worker, step.at);
    } else {
      SignalWorkShrinks(s, step.worker);
    }
  }

  /** The server's own steps come to an end, whichever are taken. */
  lemma {:induction false} InternalRunsEnd(s: Server, steps: seq<Step>)
    requires Inv(s) && IsRun(s, steps) && forall i :: 0 <= i < |steps| ==> IsInternal(steps[i])
    ensures |steps| <= Work(s)
    decreases |steps|
  {
    hide Inv, Work, Apply, Enabled, IsInternal;
    if steps != [] {
      assert IsInternal(steps[0]);
      WorkShrinks(s, steps[0]);
      StepKeeps(s, steps[0]);
      forall i | 0 <= i < |steps[1..]| ensures IsInternal(steps[1..][i]) {
        assert IsInternal(steps[i + 1]);
      }
      InternalRunsEnd(Apply(s, steps[0]), steps[1..]);
    }
  }

  ghost predicate CanGoOn(s: Server) {
    exists step :: IsInternal(step) && Enabled(s, step)
  }

  lemma GoesOnBy(s: Server, step: Step)
    requires IsInternal(step) && Enabled(s, step)
    ensures CanGoOn(s)
  {
  }

  /** A worker that is neither asleep nor gone can take a step. */
  lemma WorkerGoesOn(s: Server, i: nat)
    requires i < |s.pool.workers| && !s.pool.workers[i].Asleep? && !s.pool.workers[i].Exited?
    ensures CanGoOn(s)
  {
    hide CanGoOn;
    if s.pool.workers[i].Awake? {
      GoesOnBy(s, Look(i));
    } else if s.pool.workers[i].Running? {
      GoesOnBy(s, Publish(i, 0));
    } else {
      GoesOnBy(s, Signal(i));
    }
  }

  lemma {:induction false} SomebodyAwake(workers: Workers) returns (i: nat)
    requires ThreadPools.AwakeCount(workers) > 0
    ensures i < |workers| && workers[i].Awake?
  {
    if workers[|workers| - 1].Awake? {
      i := |workers| - 1;
    } else {
      i := SomebodyAwake(workers[..|workers| - 1]);
    }
  }

  /** A queued task is started: no wakeup is lost. */
  lemma QueueGoesOn(s: Server)
    requires ThreadPools.PoolSound(s.pool) && s.pool.tasks != []
    ensures CanGoOn(s)
  {
    hide CanGoOn, ThreadPools.AwakeCount, ThreadPools.InHand;
    if ThreadPools.SomeAsleep(s.pool) {
      var i: nat :| i < |s.pool.workers| && s.pool.workers[i].Asleep?;
      if s.pool.notifies > 0 {
        GoesOnBy(s, NotifyOne(i));
      } else {
        var j := SomebodyAwake(s.pool.workers);
        WorkerGoesOn(s, j);
      }
    } else {
      assert !s.pool.workers[0].Asleep?;
      WorkerGoesOn(s, 0);
    }
  }

  lemma LoopGoesOn(s: Server)
    requires s.loop.Delivering? ==> s.loop.batch != []
    requires !s.loop.Polling? || s.eventCount > 0
    ensures CanGoOn(s)
  {
    hide CanGoOn;
    if s.loop.Drained? {
      GoesOnBy(s, Swap);
    } else if s.loop.Delivering? {
      GoesOnBy(s, DeliverNext(0, true));
    } else {
      GoesOnBy(s, Drain);
    }
  }

  lemma {:induction false} SomebodyRuns(workers: Workers) returns (i: nat)
    requires RunningIds(workers) != multiset{}
    ensures i < |workers| && workers[i].Running?
  {
    if workers[|workers| - 1].Running? {
      i := |workers| - 1;
    } else {
      i := SomebodyRuns(workers[..|workers| - 1]);
    }
  }

  /** As long as a job is in flight, the server can go on by itself. */
  lemma JobsGoOn(s: Server)
    requires Inv(s) && Jobs(s) != multiset{}
    ensures CanGoOn(s)
  {
    hide CanGoOn, IsPossible, LiveSound, PastSound, OneJobEach, JobsFit, ThreadPools.PoolSound, RunningIds;
    if s.pool.tasks != [] {
      QueueGoesOn(s);
    } else if !s.loop.Polling? || s.eventCount > 0 {
      LoopGoesOn(s);
    } else if s.completions != [] {
      var i: nat :| i < |s.pool.workers| && s.pool.workers[i].Finishing?;
      WorkerGoesOn(s, i);
    } else {
      assert Jobs(s) == RunningIds(s.pool.workers);
      var i := SomebodyRuns(s.pool.workers);
      WorkerGoesOn(s, i);
    }
  }

  /**
   * Every pending request is answered or its connection closed: the server's own steps come
   * to an end, and at their end nobody is pending.
   */
  lemma PendingDoesNotLast(s: Server, fd: int)
    requires Reachable(s) && fd in s.connections && !CanGoOn(s)
    ensures !s.connections[fd].responsePending
  {
    hide Reachable, CanGoOn, Inv, Sound, Jobs;
    ReachableIsSound(s);
    LiveIsAt(s, fd);
    if s.connections[fd].responsePending {
      JobsGoOn(s);
    }
  }
}
