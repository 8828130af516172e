/**
 * What the handlers of the event loop achieve, told by the histories: bytes that are reported are
 * read, room that is reported is used, a hang-up closes, every completion of a batch is settled,
 * every client that is accepted is served, and the idle scan closes exactly the idle.
 */
module HandlerProgress {
  import opened HttpParser
  import opened Framing
  import opened Connections
  import opened ConnectionSafety
  import opened ConnectionSteps
  import opened Servers
  import opened ServerSafety
  import opened ServerSteps
  import opened ServerTheorems
  import opened WritingProgress
  import opened EventHandlers
  import ThreadPools

  /** Runs take back nothing that has happened on any id. */
  lemma LeadsGrows(s: Server, s': Server)
    requires Inv(s) && Leads(s, s')
    ensures OnlyGrows(s.clients, s'.clients)
  {
    hide Inv, Leads, OnlyGrows;
    var steps := StepsOf(s, s');
    RunGrows(s, steps);
  }

  lemma {:induction false} RunGrows(s: Server, steps: seq<Step>)
    requires Inv(s) && IsRun(s, steps)
    ensures OnlyGrows(s.clients, Run(s, steps).clients)
    decreases |steps|
  {
    hide Inv, OnlyGrows, Enabled, Apply;
    if steps == [] {
      Unchanged(s.clients);
    } else {
      HistoryOnlyGrows(s, steps[0]);
      StepKeeps(s, steps[0]);
      RunGrows(Apply(s, steps[0]), steps[1..]);
      GrowsOn(s.clients, Apply(s, steps[0]).clients, Run(s, steps).clients);
    }
  }

  lemma GrowsOn(a: map<nat, Client>, b: map<nat, Client>, c: map<nat, Client>)
    requires OnlyGrows(a, b) && OnlyGrows(b, c)
    ensures OnlyGrows(a, c)
  {
    forall id | id in a ensures id in c && c[id].fd == a[id].fd && Extends(a[id].history, c[id].history) {
      ExtendsOn(a[id].history, b[id].history, c[id].history);
    }
  }

  lemma ExtendsOn(a: History, b: History, c: History)
    requires Extends(a, b) && Extends(b, c)
    ensures Extends(a, c)
  {
    PrefixOn(a.sent, b.sent, c.sent);
    PrefixOn(a.received, b.received, c.received);
    PrefixOn(a.framed, b.framed, c.framed);
    PrefixOn(a.emitted, b.emitted, c.emitted);
    PrefixOn(a.wire, b.wire, c.wire);
  }

  lemma PrefixOn<T>(a: seq<T>, b: seq<T>, c: seq<T>)
    requires a <= b && b <= c
    ensures a <= c
  {
    assert b == c[..|b|];
  }

  /** What an id has been through after an event, where it was known before. */
  function Past(s: Server, id: nat): History {
    if id in s.clients then s.clients[id].history else NO_HISTORY
  }

  lemma PastGrows(s: Server, s': Server, id: nat)
    requires OnlyGrows(s.clients, s'.clients) && id in s.clients
    ensures Extends(Past(s, id), Past(s', id))
  {
  }

  lemma ReactRecords(s: Server, fd: int, h: History, r: Reaction, epoll: Epoll)
    requires fd in s.connections && IsFrom(r, s.connections[fd])
    ensures var h' := Past(React(s, fd, h, r, epoll), s.connections[fd].id);
            && s.connections[fd].id in React(s, fd, h, r, epoll).clients
            && h'.received == h.received && h'.wire == h.wire && h'.sent == h.sent
            && (r.Respond? || r.Dispatch? ==> |h'.framed| > |h.framed|)
  {
    hide UnavailableResult, ThreadPools.Push, ThreadPools.Accepts;
  }

  // ---- Reading ----

  /** An event that asks for reading and nothing else of a connection without a response. */
  ghost predicate MayRead(s: Server, fd: int, events: Events) {
    && Reachable(s) && s.loop.Polling? && fd in s.connections && HasNoResponse(s.connections[fd])
    && events.readable && !events.failed && !events.peerClosed
  }

  lemma ReadsInReading(s: Server, fd: int)
    requires Inv(s) && fd in s.connections && HasNoResponse(s.connections[fd])
    ensures IsReading(s.connections[fd]) && IsTracked(s, fd)
  {
    hide Inv, Sound, Jobs, HasItsJob;
    LiveIsAt(s, fd);
    ModeByInterest(s.world, s.connections[fd], HistoryOf(s, fd), s.maxBody);
  }

  /** What comes after reading in the same event is a run. */
  lemma RestLeads(s: Server, fd: int, events: Events, recvs: seq<RecvAnswer>, sends: seq<SendAnswer>,
                  files: seq<SendAnswer>, now: nat, epoll: Epoll)
    requires MayRead(s, fd, events) && Gives(HistoryOf(s, fd), recvs)
    ensures Inv(ReadAll(s, fd, recvs, now, epoll))
    ensures Leads(ReadAll(s, fd, recvs, now, epoll), OnEvents(s, fd, events, recvs, sends, files, now, epoll))
  {
    hide Reachable, Inv, Leads, ReadAll, WriteAll, Closed, Gives;
    ReachableIsSound(s);
    ReadsInReading(s, fd);
    var s' := ReadAll(s, fd, recvs, now, epoll);
    ReadAllIsRun(s, fd, recvs, now, epoll);
    LeadsSound(s, s');
    ReadAllStaysPolling(s, fd, recvs, now, epoll);
    if events.writable && HasUnsent(s', fd) {
      WritingIsRun(s', fd, sends, files, now, epoll);
    } else {
      LeadsNowhere(s');
    }
  }

  /** With bytes reported, the first that recv gives have been received afterwards, whatever follows. */
  lemma ReportedBytesAreRead(s: Server, fd: int, events: Events, bytes: string, more: seq<RecvAnswer>,
                             sends: seq<SendAnswer>, files: seq<SendAnswer>, now: nat, epoll: Epoll)
    requires MayRead(s, fd, events) && Gives(HistoryOf(s, fd), [Chunk(bytes)] + more)
    ensures var id := s.connections[fd].id;
            var s' := OnEvents(s, fd, events, [Chunk(bytes)] + more, sends, files, now, epoll);
            Past(s, id).received + bytes <= Past(s', id).received
  {
    hide Reachable, Inv, Leads, ReadAll, OnEvents, OnChunk, ReadsOn, OnlyGrows;
    ReachableIsSound(s);
    ReadsInReading(s, fd);
    var id, recvs := s.connections[fd].id, [Chunk(bytes)] + more;
    var s' := OnEvents(s, fd, events, recvs, sends, files, now, epoll);
    RestLeads(s, fd, events, recvs, sends, files, now, epoll);
    LeadsGrows(ReadAll(s, fd, recvs, now, epoll), s');
    FirstIsReceived(s, fd, bytes, more, now, epoll);
    PastGrows(ReadAll(s, fd, recvs, now, epoll), s', id);
    PrefixOn(Past(s, id).received + bytes, Past(ReadAll(s, fd, recvs, now, epoll), id).received, Past(s', id).received);
  }

  lemma FirstIsReceived(s: Server, fd: int, bytes: string, more: seq<RecvAnswer>, now: nat, epoll: Epoll)
    requires Inv(s) && s.loop.Polling? && IsTracked(s, fd) && s.connections[fd].interest == WantsRead
    requires Gives(HistoryOf(s, fd), [Chunk(bytes)] + more)
    ensures var id, s' := s.connections[fd].id, ReadAll(s, fd, [Chunk(bytes)] + more, now, epoll);
            id in s'.clients && Past(s, id).received + bytes <= Past(s', id).received
  {
    hide Inv, Leads, OnChunk, ReadsOn, OnlyGrows, React;
    var id, h := s.connections[fd].id, HistoryOf(s, fd);
    var s1 := Received(s, fd, bytes, now, epoll);
    assert ([Chunk(bytes)] + more)[1..] == more;
    ChunkIsFrom(s.connections[fd], bytes, s.maxBody, now);
    ReactRecords(s, fd, h.(received := h.received + bytes), OnChunk(s.connections[fd], bytes, s.maxBody, now), epoll);
    if GoesOnReading(s, fd, bytes, now) {
      GoesOnStored(s, fd, bytes, now, epoll);
      assert Apply(s, Receive(fd, bytes, now, epoll)) == s1;
      StepKeeps(s, Receive(fd, bytes, now, epoll));
      ReadAllIsRun(s1, fd, more, now, epoll);
      LeadsGrows(s1, ReadAll(s1, fd, more, now, epoll));
      PastGrows(s1, ReadAll(s1, fd, more, now, epoll), id);
    }
  }

  /** recv answers with everything the client has sent and nothing else, interrupted or not. */
  predicate GivesAll(h: History, answers: seq<RecvAnswer>)
    decreases |answers|
  {
    if answers == [] then h.received == h.sent else
    match answers[0]
    case Chunk(bytes) => MayReceive(h, bytes) && GivesAll(h.(received := h.received + bytes), answers[1..])
    case RecvInterrupted => GivesAll(h, answers[1..])
    case _ => false
  }

  lemma {:induction false} AllIsGiven(h: History, answers: seq<RecvAnswer>)
    requires GivesAll(h, answers)
    ensures Gives(h, answers)
    decreases |answers|
  {
    if answers != [] {
      AllIsGiven(if answers[0].Chunk? then h.(received := h.received + answers[0].bytes) else h, answers[1..]);
    }
  }

  /** Where the recv loop stops without a response, a head has just been completed and its body has not. */
  lemma StopsAfterHead(c: Connection, chunk: string, maxBody: nat, now: nat)
    requires OnChunk(c, chunk, maxBody, now).Stay? && !ReadsOn(c, chunk)
    ensures c.body.NoBody? && OnChunk(c, chunk, maxBody, now).c.body.Awaiting?
  {
    hide CompleteHeaderLength, ParseRequest, HeaderTooLarge, IsServed, TooLargeResult, BadRequestResult, NotAllowedResult, BodyBytes;
  }

  lemma ChunkReacts(c: Connection, chunk: string, maxBody: nat, now: nat)
    ensures var r := OnChunk(c, chunk, maxBody, now);
            && (r.Stay? || r.Respond? || r.Dispatch?)
            && (r.Stay? && ReadsOn(c, chunk) ==> r.c == c.(lastActive := now, readBuffer := c.readBuffer + chunk))
  {
    hide CompleteHeaderLength, ParseRequest, HeaderTooLarge, IsServed, TooLargeResult, BadRequestResult, NotAllowedResult, BodyBytes;
  }

  lemma {:induction false} ReadAllReads(s: Server, fd: int, answers: seq<RecvAnswer>, now: nat, epoll: Epoll)
    requires IsTracked(s, fd) && IsReading(s.connections[fd]) && GivesAll(HistoryOf(s, fd), answers)
    ensures var id, s' := s.connections[fd].id, ReadAll(s, fd, answers, now, epoll);
            var h, h' := Past(s, id), Past(s', id);
            && id in s'.clients
            && (h'.received == h.sent || |h'.framed| > |h.framed|
                || (s.connections[fd].body.NoBody? && fd in s'.connections && s'.connections[fd].body.Awaiting?
                    && !HasUnsent(s', fd)))
    decreases |answers|
  {
    hide OnChunk, ReadsOn, React;
    var c, h, id := s.connections[fd], HistoryOf(s, fd), s.connections[fd].id;
    if answers == [] {
    } else if answers[0].RecvInterrupted? {
      ReadAllReads(s, fd, answers[1..], now, epoll);
    } else {
      var bytes := answers[0].bytes;
      var r := OnChunk(c, bytes, s.maxBody, now);
      ChunkReacts(c, bytes, s.maxBody, now);
      ChunkIsFrom(c, bytes, s.maxBody, now);
      ReactRecords(s, fd, h.(received := h.received + bytes), r, epoll);
      if r.Stay? {
        StaysStored(s, fd, r.c, h.(received := h.received + bytes), epoll);
        StoredHas(s, fd, r.c, h.(received := h.received + bytes));
        if ReadsOn(c, bytes) {
          ReadAllReads(Received(s, fd, bytes, now, epoll), fd, answers[1..], now, epoll);
        } else {
          StopsAfterHead(c, bytes, s.maxBody, now);
          StayIsReading(c, bytes, s.maxBody, now);
        }
      }
    }
  }

  lemma StayIsReading(c: Connection, chunk: string, maxBody: nat, now: nat)
    requires IsReading(c) && OnChunk(c, chunk, maxBody, now).Stay?
    ensures IsReading(OnChunk(c, chunk, maxBody, now).c)
  {
    hide CompleteHeaderLength, ParseRequest, HeaderTooLarge, IsServed, TooLargeResult, BadRequestResult, NotAllowedResult, BodyBytes;
  }

  /**
   * With bytes reported and recv giving everything the client has sent, the call either receives
   * all of it, or frames a request, or stops where a head is complete and its body is not: then it
   * waits for the body, and the next report of bytes reads on.
   */
  lemma ReadingGetsOn(s: Server, fd: int, events: Events, recvs: seq<RecvAnswer>,
                      sends: seq<SendAnswer>, files: seq<SendAnswer>, now: nat, epoll: Epoll)
    requires MayRead(s, fd, events) && GivesAll(HistoryOf(s, fd), recvs)
    ensures var id := s.connections[fd].id;
            var s' := OnEvents(s, fd, events, recvs, sends, files, now, epoll);
            var h, h' := Past(s, id), Past(s', id);
            || h.sent <= h'.received
            || |h'.framed| > |h.framed|
            || (s.connections[fd].body.NoBody? && fd in s'.connections && s'.connections[fd].body.Awaiting?)
  {
    hide Reachable, Inv, Leads, ReadAll, GivesAll, WriteAll, Gives, Closed, OnlyGrows;
    ReachableIsSound(s);
    ReadsInReading(s, fd);
    AllIsGiven(HistoryOf(s, fd), recvs);
    ReadAllReads(s, fd, recvs, now, epoll);
    RestLeads(s, fd, events, recvs, sends, files, now, epoll);
    var s1, s' := ReadAll(s, fd, recvs, now, epoll), OnEvents(s, fd, events, recvs, sends, files, now, epoll);
    LeadsGrows(s1, s');
    PastGrows(s1, s', s.connections[fd].id);
  }

  /**
   * That third case does happen, for every chunk that completes a head but not its body: the call
   * receives that chunk, frames nothing, and leaves everything behind it unread.
   */
  lemma HeadEndsReading(s: Server, fd: int, bytes: string, more: seq<RecvAnswer>, sends: seq<SendAnswer>,
                        files: seq<SendAnswer>, now: nat, epoll: Epoll)
    requires var events := Events(false, false, true, false);
             MayRead(s, fd, events) && Gives(HistoryOf(s, fd), [Chunk(bytes)] + more)
    requires var c := s.connections[fd]; var buffer := c.readBuffer + bytes;
             c.body.NoBody? && CompleteHeaderLength(buffer).Some? && FirstFrame(buffer, s.maxBody).NeedMore?
    ensures var id := s.connections[fd].id;
            var s' := OnEvents(s, fd, Events(false, false, true, false), [Chunk(bytes)] + more, sends, files, now, epoll);
            && Past(s', id).received == Past(s, id).received + bytes && Past(s', id).framed == Past(s, id).framed
            && fd in s'.connections && s'.connections[fd].body.Awaiting?
  {
    hide Reachable, Inv, Gives, React, WriteAll, OnChunk, ReadsOn, FirstFrame, CompleteHeaderLength;
    ReachableIsSound(s);
    ReadsInReading(s, fd);
    var c, h := s.connections[fd], HistoryOf(s, fd);
    HeadOnlyStays(c, bytes, s.maxBody, now);
    var r := OnChunk(c, bytes, s.maxBody, now);
    StopsAfterHead(c, bytes, s.maxBody, now);
    ChunkIsFrom(c, bytes, s.maxBody, now);
    StaysStored(s, fd, r.c, h.(received := h.received + bytes), epoll);
    StoredHas(s, fd, r.c, h.(received := h.received + bytes));
    assert ([Chunk(bytes)] + more)[0] == Chunk(bytes);
  }

  lemma HeadOnlyStays(c: Connection, chunk: string, maxBody: nat, now: nat)
    requires c.body.NoBody? && CompleteHeaderLength(c.readBuffer + chunk).Some?
    requires FirstFrame(c.readBuffer + chunk, maxBody).NeedMore?
    ensures OnChunk(c, chunk, maxBody, now).Stay? && !ReadsOn(c, chunk)
  {
    hide CompleteHeaderLength, ParseRequest, IsServed, TooLargeResult, BadRequestResult, NotAllowedResult;
  }

  /** The end of the stream, and an error of recv, close the connection. */
  lemma EndOfStreamCloses(s: Server, fd: int, events: Events, answer: RecvAnswer, more: seq<RecvAnswer>,
                          sends: seq<SendAnswer>, files: seq<SendAnswer>, now: nat, epoll: Epoll)
    requires MayRead(s, fd, events) && (answer.EndOfStream? || answer.RecvFailed?)
    ensures OnEvents(s, fd, events, [answer] + more, sends, files, now, epoll).connections == s.connections - {fd}
  {
    hide Reachable, WriteAll;
  }

  /** ERR and HUP close the connection, whatever it was doing, and no other. */
  lemma FailureCloses(s: Server, fd: int, events: Events, recvs: seq<RecvAnswer>,
                      sends: seq<SendAnswer>, files: seq<SendAnswer>, now: nat, epoll: Epoll)
    requires fd in s.connections && events.failed
    ensures OnEvents(s, fd, events, recvs, sends, files, now, epoll).connections == s.connections - {fd}
  {
    hide ReadAll, WriteAll;
  }

  // ---- Writing ----

  /** An event that reports room for a connection that has something to write. */
  ghost predicate MayWrite(s: Server, fd: int, events: Events) {
    && Reachable(s) && s.loop.Polling? && HasUnsent(s, fd)
    && events.writable && !events.failed && !events.readable
  }

  lemma HasUnsentIsResponding(s: Server, fd: int)
    requires HasUnsent(s, fd)
    ensures !HasNoResponse(s.connections[fd])
  {
  }

  /** One send, and then the rest of the call, if there is more to write. */
  lemma WriteAllStep(s: Server, fd: int, room: nat, more: seq<SendAnswer>, files: seq<SendAnswer>, now: nat, epoll: Epoll)
    requires fd in s.connections && s.connections[fd].writeBuffer != "" && room > 0
    ensures var count := Min(room, |s.connections[fd].writeBuffer|);
            var s1 := Flushed(s, fd, count, now);
            WriteAll(s, fd, [Room(room)] + more, files, now, epoll) ==
              if HasUnsent(s1, fd) then WriteAll(s1, fd, more, files, now, epoll) else Sent(s, fd, count, now, epoll)
  {
    hide React, AfterWrite, Sent, PumpAll;
    var count := Min(room, |s.connections[fd].writeBuffer|);
    var s1 := Flushed(s, fd, count, now);
    SentIsFlushed(s, fd, count, now, epoll);
    assert ([Room(room)] + more)[1..] == more;
    assert WriteAll(s, fd, [Room(room)] + more, files, now, epoll) == WriteAll(s1, fd, more, files, now, epoll);
    if !HasUnsent(s1, fd) {
      NothingToPump(s1, fd, files, SENDFILE_BUDGET, now, epoll);
    }
  }

  lemma NothingToPump(s: Server, fd: int, files: seq<SendAnswer>, budget: nat, now: nat, epoll: Epoll)
    requires fd in s.connections && s.connections[fd].writeBuffer == "" && !s.connections[fd].transfer.Active()
    ensures PumpAll(s, fd, files, budget, now, epoll)
         == React(s, fd, HistoryOf(s, fd), AfterWrite(s.connections[fd], s.maxBody, now), epoll)
  {
    hide React, AfterWrite;
  }

  /** One sendfile, and then the rest of the call, if the file part goes on. */
  lemma PumpAllStep(s: Server, fd: int, room: nat, more: seq<SendAnswer>, budget: nat, now: nat, epoll: Epoll)
    requires fd in s.connections && s.connections[fd].writeBuffer == "" && s.connections[fd].transfer.Active()
    requires var t := s.connections[fd].transfer; t.offset < |t.file.value| && FileRoom(t, budget, room) > 0
    ensures var count := FileRoom(s.connections[fd].transfer, budget, room);
            var s1 := Pumped(s, fd, count, now);
            PumpAll(s, fd, [Room(room)] + more, budget, now, epoll) ==
              if s1.connections[fd].transfer.Active() then PumpAll(s1, fd, more, budget - count, now, epoll)
              else FileSent(s, fd, count, now, epoll)
  {
    hide React, AfterWrite, FileSent, FileBytes;
    var count := FileRoom(s.connections[fd].transfer, budget, room);
    var s1 := Pumped(s, fd, count, now);
    FileSentIsPumped(s, fd, count, now, epoll);
    assert ([Room(room)] + more)[1..] == more;
    assert PumpAll(s, fd, [Room(room)] + more, budget, now, epoll) == PumpAll(s1, fd, more, budget - count, now, epoll);
    if !s1.connections[fd].transfer.Active() {
      NothingToPump(s1, fd, more, budget - count, now, epoll);
    }
  }

  /** Room that send reports is used: so many bytes of the write buffer are on the wire afterwards. */
  lemma ReportedRoomIsUsed(s: Server, fd: int, events: Events, room: nat, more: seq<SendAnswer>, files: seq<SendAnswer>,
                           now: nat, epoll: Epoll)
    requires MayWrite(s, fd, events) && s.connections[fd].writeBuffer != ""
    ensures var c, s' := s.connections[fd], OnEvents(s, fd, events, [], [Room(room)] + more, files, now, epoll);
            Past(s, c.id).wire + c.writeBuffer[..if room < |c.writeBuffer| then room else |c.writeBuffer|] <= Past(s', c.id).wire
  {
    hide Reachable, Inv, Leads, OnlyGrows, React, AfterWrite, Sent, WriteAll;
    ReachableIsSound(s);
    LiveIsTracked(s, fd);
    UnsentIsWriting(s, fd);
    HasUnsentIsResponding(s, fd);
    var c := s.connections[fd];
    var count := Min(room, |c.writeBuffer|);
    var s' := WriteAll(s, fd, [Room(room)] + more, files, now, epoll);
    if count == 0 {
      assert c.writeBuffer[..0] == "" && s' == s by { NoRoom(s, fd, more, files, now, epoll); }
    } else {
      var s1 := Flushed(s, fd, count, now);
      WriteAllStep(s, fd, room, more, files, now, epoll);
      SentRecords(s, fd, count, now, epoll);
      if HasUnsent(s1, fd) {
        SentIsFlushed(s, fd, count, now, epoll);
        StepKeeps(s, Send(fd, count, now, epoll));
        WriteAllIsRun(s1, fd, more, files, now, epoll);
        LeadsGrows(s1, s');
        PastGrows(s1, s', c.id);
      }
    }
  }

  lemma NoRoom(s: Server, fd: int, more: seq<SendAnswer>, files: seq<SendAnswer>, now: nat, epoll: Epoll)
    requires fd in s.connections && s.connections[fd].writeBuffer != ""
    ensures WriteAll(s, fd, [Room(0)] + more, files, now, epoll) == s
  {
    hide React, AfterWrite, PumpAll;
  }

  lemma SentRecords(s: Server, fd: int, count: nat, now: nat, epoll: Epoll)
    requires fd in s.connections && count <= |s.connections[fd].writeBuffer|
    ensures var c, s' := s.connections[fd], Sent(s, fd, count, now, epoll);
            c.id in s'.clients && Past(s', c.id).wire == HistoryOf(s, fd).wire + c.writeBuffer[..count]
  {
    hide OnSent, React;
    var h, c := HistoryOf(s, fd), s.connections[fd];
    SentIsFrom(c, count, s.maxBody, now);
    ReactRecords(s, fd, h.(wire := h.wire + c.writeBuffer[..count]), OnSent(c, count, s.maxBody, now), epoll);
  }

  lemma FileSentRecords(s: Server, fd: int, count: nat, now: nat, epoll: Epoll)
    requires fd in s.connections && MaySendFile(s.connections[fd], count)
    ensures var c, s' := s.connections[fd], FileSent(s, fd, count, now, epoll);
            c.id in s'.clients && Past(s', c.id).wire == HistoryOf(s, fd).wire + FileBytes(c.transfer, count)
  {
    hide OnFileSent, React, FileBytes;
    var h, c := HistoryOf(s, fd), s.connections[fd];
    FileSentIsFrom(c, count, s.maxBody, now);
    ReactRecords(s, fd, h.(wire := h.wire + FileBytes(c.transfer, count)), OnFileSent(c, count, s.maxBody, now), epoll);
  }

  lemma PumpUsesRoom(s: Server, fd: int, room: nat, more: seq<SendAnswer>, budget: nat, now: nat, epoll: Epoll)
    requires Inv(s) && s.loop.Polling? && IsTracked(s, fd) && s.connections[fd].interest == WantsWrite
    requires s.connections[fd].writeBuffer == "" && s.connections[fd].transfer.Active()
    requires var t := s.connections[fd].transfer; t.offset < |t.file.value|
    ensures var t := s.connections[fd].transfer;
            var n := FileRoom(t, budget, room);
            GrowsBy(s, PumpAll(s, fd, [Room(room)] + more, budget, now, epoll), s.connections[fd].id,
                    t.file.value[t.offset..t.offset + n])
  {
    hide Inv, Leads, React, AfterWrite, FileSent, PumpAll, FileRoom, GrowsBy;
    var c, t := s.connections[fd], s.connections[fd].transfer;
    var count := FileRoom(t, budget, room);
    RoomIsThere(t, budget, room);
    var s' := PumpAll(s, fd, [Room(room)] + more, budget, now, epoll);
    var bytes := t.file.value[t.offset..t.offset + count];
    if count == 0 {
      NoRoomNoPump(s, fd, room, more, budget, now, epoll);
      ItselfGrowsBy(s, s', c.id, bytes);
    } else {
      var s1 := Pumped(s, fd, count, now);
      PumpAllStep(s, fd, room, more, budget, now, epoll);
      if s1.connections[fd].transfer.Active() {
        PumpedGrows(s, fd, count, more, budget - count, now, epoll);
      } else {
        FileSentRecords(s, fd, count, now, epoll);
        ItselfGrowsBy(s, s', c.id, bytes);
      }
    }
  }

  /** What follows one sendfile takes nothing back. */
  lemma PumpedGrows(s: Server, fd: int, count: nat, more: seq<SendAnswer>, budget: nat, now: nat, epoll: Epoll)
    requires Inv(s) && s.loop.Polling? && fd in s.connections && s.connections[fd].interest == WantsWrite
    requires MaySendFile(s.connections[fd], count) && Pumped(s, fd, count, now).connections[fd].transfer.Active()
    ensures GrowsBy(s, PumpAll(Pumped(s, fd, count, now), fd, more, budget, now, epoll), s.connections[fd].id,
                    FileBytes(s.connections[fd].transfer, count))
  {
    hide Inv, Leads, React, AfterWrite, FileSent, PumpAll, FileBytes, GrowsBy;
    var c, s1 := s.connections[fd], Pumped(s, fd, count, now);
    FileSentIsPumped(s, fd, count, now, epoll);
    FileSentRecords(s, fd, count, now, epoll);
    StepKeeps(s, SendFile(fd, count, now, epoll));
    PumpAllIsRun(s1, fd, more, budget, now, epoll);
    var s' := PumpAll(s1, fd, more, budget, now, epoll);
    GrowsByNothing(s1, s', c.id);
    GrowsByBoth(s, s1, s', c.id, FileBytes(c.transfer, count), "");
    assert FileBytes(c.transfer, count) + "" == FileBytes(c.transfer, count);
  }

  lemma NoRoomNoPump(s: Server, fd: int, room: nat, more: seq<SendAnswer>, budget: nat, now: nat, epoll: Epoll)
    requires fd in s.connections && s.connections[fd].writeBuffer == "" && s.connections[fd].transfer.Active()
    requires var t := s.connections[fd].transfer; t.offset < |t.file.value| && FileRoom(t, budget, room) == 0
    ensures PumpAll(s, fd, [Room(room)] + more, budget, now, epoll) == s
  {
    hide React, AfterWrite;
  }

  lemma RoomIsThere(t: FileTransfer, budget: nat, room: nat)
    requires t.Active() && t.offset < |t.file.value|
    ensures var n := FileRoom(t, budget, room);
            && n <= room && n <= budget && n <= t.size - t.sent && t.offset + n <= |t.file.value|
            && (n == room || n == budget || n == t.size - t.sent || t.offset + n == |t.file.value|)
  {
  }

  /** So is room that sendfile reports, up to what the file has, what the answer needs, and 1 MiB. */
  lemma FileRoomIsUsed(s: Server, fd: int, events: Events, sends: seq<SendAnswer>, room: nat, more: seq<SendAnswer>,
                       now: nat, epoll: Epoll) returns (n: nat)
    requires MayWrite(s, fd, events) && s.connections[fd].writeBuffer == ""
    requires var t := s.connections[fd].transfer; t.offset < |t.file.value|
    ensures var t := s.connections[fd].transfer;
            && n <= room && n <= 1024 * 1024 && n <= t.size - t.sent && t.offset + n <= |t.file.value|
            && (n == room || n == 1024 * 1024 || n == t.size - t.sent || t.offset + n == |t.file.value|)
    ensures var c, s' := s.connections[fd], OnEvents(s, fd, events, [], sends, [Room(room)] + more, now, epoll);
            Past(s, c.id).wire + c.transfer.file.value[c.transfer.offset..c.transfer.offset + n] <= Past(s', c.id).wire
  {
    hide Reachable, Inv, PumpAll, ReadAll, FileRoom;
    ReachableIsSound(s);
    LiveIsTracked(s, fd);
    UnsentIsWriting(s, fd);
    HasUnsentIsResponding(s, fd);
    n := FileRoom(s.connections[fd].transfer, 1024 * 1024, room);
    RoomIsThere(s.connections[fd].transfer, 1024 * 1024, room);
    PumpUsesRoom(s, fd, room, more, SENDFILE_BUDGET, now, epoll);
  }

  /** So many bytes in all, where every answer offers room or is an interruption. */
  function RoomIn(answers: seq<SendAnswer>): nat {
    if answers == [] then 0 else (if answers[0].Room? then answers[0].count else 0) + RoomIn(answers[1..])
  }

  predicate OnlyRoom(answers: seq<SendAnswer>) {
    forall i :: 0 <= i < |answers| ==> answers[i].SendInterrupted? || (answers[i].Room? && answers[i].count > 0)
  }

  lemma OnlyRoomOn(answers: seq<SendAnswer>)
    requires OnlyRoom(answers) && answers != []
    ensures OnlyRoom(answers[1..])
  {
    assert forall i :: 0 <= i < |answers[1..]| ==> answers[1..][i] == answers[i + 1];
  }

  /** The wire of an id has grown by at least these bytes. */
  ghost predicate GrowsBy(s: Server, s': Server, id: nat, bytes: string) {
    Past(s, id).wire + bytes <= Past(s', id).wire
  }

  lemma GrowsByNothing(s: Server, s': Server, id: nat)
    requires Inv(s) && Leads(s, s') && id in s.clients
    ensures GrowsBy(s, s', id, "")
  {
    hide Inv, Leads, OnlyGrows;
    LeadsGrows(s, s');
    PastGrows(s, s', id);
    assert Past(s, id).wire + "" == Past(s, id).wire;
  }

  lemma GrowsByBoth(s: Server, s1: Server, s': Server, id: nat, first: string, second: string)
    requires Past(s1, id).wire == Past(s, id).wire + first && GrowsBy(s1, s', id, second)
    ensures GrowsBy(s, s', id, first + second)
  {
    assert (Past(s, id).wire + first) + second == Past(s, id).wire + (first + second);
  }

  lemma ItselfGrowsBy(s: Server, s': Server, id: nat, bytes: string)
    requires Past(s', id).wire == Past(s, id).wire + bytes
    ensures GrowsBy(s, s', id, bytes)
  {
  }

  /** The part of the write buffer one call takes, of the room it is offered. */
  function TakenOfBuffer(c: Connection, sends: seq<SendAnswer>): string {
    c.writeBuffer[..Min(RoomIn(sends), |c.writeBuffer|)]
  }

  /** One call uses all the room it is offered, answer after answer, as long as the write buffer lasts. */
  lemma {:induction false} WriteAllUsesRoom(s: Server, fd: int, sends: seq<SendAnswer>, files: seq<SendAnswer>, now: nat,
                                            epoll: Epoll)
    requires Inv(s) && s.loop.Polling? && HasUnsent(s, fd) && OnlyRoom(sends)
    ensures GrowsBy(s, WriteAll(s, fd, sends, files, now, epoll), s.connections[fd].id, TakenOfBuffer(s.connections[fd], sends))
    decreases |sends|, 1
  {
    hide Inv, Leads, React, AfterWrite, WriteAll, OnlyRoom, GrowsBy;
    LiveIsTracked(s, fd);
    UnsentIsWriting(s, fd);
    var c := s.connections[fd];
    if sends == [] || c.writeBuffer == "" {
      WriteAllIsRun(s, fd, sends, files, now, epoll);
      GrowsByNothing(s, WriteAll(s, fd, sends, files, now, epoll), c.id);
      assert TakenOfBuffer(c, sends) == "";
    } else {
      OnlyRoomOn(sends);
      FirstOffers(sends);
      if sends[0].SendInterrupted? {
        InterruptedGoesOn(s, fd, sends, files, now, epoll);
        WriteAllUsesRoom(s, fd, sends[1..], files, now, epoll);
        assert TakenOfBuffer(c, sends) == TakenOfBuffer(c, sends[1..]);
      } else {
        FlushedUsesRoom(s, fd, sends, files, now, epoll);
      }
    }
  }

  lemma {:induction false} FlushedUsesRoom(s: Server, fd: int, sends: seq<SendAnswer>, files: seq<SendAnswer>, now: nat,
                                           epoll: Epoll)
    requires Inv(s) && s.loop.Polling? && fd in s.connections && s.connections[fd].interest == WantsWrite
    requires s.connections[fd].writeBuffer != ""
    requires sends != [] && sends[0].Room? && sends[0].count > 0 && OnlyRoom(sends[1..])
    ensures GrowsBy(s, WriteAll(s, fd, sends, files, now, epoll), s.connections[fd].id, TakenOfBuffer(s.connections[fd], sends))
    decreases |sends|, 0
  {
    hide Inv, React, AfterWrite, Sent, WriteAll, OnlyRoom, GrowsBy, TakenOfBuffer;
    var c, s' := s.connections[fd], WriteAll(s, fd, sends, files, now, epoll);
    var count := Min(sends[0].count, |c.writeBuffer|);
    var s1 := Flushed(s, fd, count, now);
    RoomThenMore(s, fd, sends, files, now, epoll);
    SentRecords(s, fd, count, now, epoll);
    SentIsFlushed(s, fd, count, now, epoll);
    BufferInTurn(c, sends);
    if HasUnsent(s1, fd) {
      StepKeeps(s, Send(fd, count, now, epoll));
      WriteAllUsesRoom(s1, fd, sends[1..], files, now, epoll);
      GrowsByBoth(s, s1, s', c.id, c.writeBuffer[..count], TakenOfBuffer(s1.connections[fd], sends[1..]));
    } else {
      ItselfGrowsBy(s, s', c.id, c.writeBuffer[..count]);
    }
  }

  /** What the first offer takes of the write buffer, and then what the others take. */
  lemma BufferInTurn(c: Connection, sends: seq<SendAnswer>)
    requires sends != [] && sends[0].Room?
    ensures var count := Min(sends[0].count, |c.writeBuffer|);
            && (forall c': Connection :: c'.writeBuffer == c.writeBuffer[count..] ==>
                  TakenOfBuffer(c, sends) == c.writeBuffer[..count] + TakenOfBuffer(c', sends[1..]))
            && (count == |c.writeBuffer| ==> TakenOfBuffer(c, sends) == c.writeBuffer[..count])
  {
    var count := Min(sends[0].count, |c.writeBuffer|);
    var n := Min(RoomIn(sends[1..]), |c.writeBuffer| - count);
    TakenInParts(c.writeBuffer, count, n);
  }

  lemma FirstOffers(sends: seq<SendAnswer>)
    requires OnlyRoom(sends) && sends != []
    ensures sends[0].SendInterrupted? || (sends[0].Room? && sends[0].count > 0)
  {
  }

  lemma InterruptedGoesOn(s: Server, fd: int, sends: seq<SendAnswer>, files: seq<SendAnswer>, now: nat, epoll: Epoll)
    requires fd in s.connections && s.connections[fd].writeBuffer != "" && sends != [] && sends[0].SendInterrupted?
    ensures WriteAll(s, fd, sends, files, now, epoll) == WriteAll(s, fd, sends[1..], files, now, epoll)
  {
    hide React, AfterWrite, PumpAll;
  }

  lemma RoomThenMore(s: Server, fd: int, sends: seq<SendAnswer>, files: seq<SendAnswer>, now: nat, epoll: Epoll)
    requires fd in s.connections && s.connections[fd].writeBuffer != "" && sends != [] && sends[0].Room? && sends[0].count > 0
    ensures var count := Min(sends[0].count, |s.connections[fd].writeBuffer|);
            var s1 := Flushed(s, fd, count, now);
            WriteAll(s, fd, sends, files, now, epoll) ==
              if HasUnsent(s1, fd) then WriteAll(s1, fd, sends[1..], files, now, epoll) else Sent(s, fd, count, now, epoll)
  {
    hide WriteAll, Sent;
    assert sends == [Room(sends[0].count)] + sends[1..];
    WriteAllStep(s, fd, sends[0].count, sends[1..], files, now, epoll);
  }

  lemma TakenInParts(buffer: string, first: nat, second: nat)
    requires first + second <= |buffer|
    ensures buffer[..first] + buffer[first..][..second] == buffer[..first + second]
  {
  }

  /** The same for the events epoll reports. */
  lemma AllRoomIsUsed(s: Server, fd: int, events: Events, sends: seq<SendAnswer>, files: seq<SendAnswer>, now: nat, epoll: Epoll)
    requires MayWrite(s, fd, events) && OnlyRoom(sends)
    ensures var c, s' := s.connections[fd], OnEvents(s, fd, events, [], sends, files, now, epoll);
            GrowsBy(s, s', c.id, c.writeBuffer[..if RoomIn(sends) < |c.writeBuffer| then RoomIn(sends) else |c.writeBuffer|])
  {
    hide Reachable, Inv, WriteAll, OnlyRoom;
    ReachableIsSound(s);
    HasUnsentIsResponding(s, fd);
    WriteAllUsesRoom(s, fd, sends, files, now, epoll);
  }

  /** The part of the file one call takes, of the room it is offered and its budget. */
  function TakenOf(t: FileTransfer, files: seq<SendAnswer>, budget: nat): string {
    t.Rest()[..Min(Min(RoomIn(files), budget), |t.Rest()|)]
  }

  /** So it does with the file part, up to the end of the file and the budget. */
  lemma {:induction false} PumpAllUsesRoom(s: Server, fd: int, files: seq<SendAnswer>, budget: nat, now: nat, epoll: Epoll)
    requires Inv(s) && s.loop.Polling? && HasUnsent(s, fd) && s.connections[fd].writeBuffer == "" && OnlyRoom(files)
    ensures GrowsBy(s, PumpAll(s, fd, files, budget, now, epoll), s.connections[fd].id,
                    TakenOf(s.connections[fd].transfer, files, budget))
    decreases |files|, 1
  {
    hide Inv, Leads, React, AfterWrite, FileSent, PumpAll, OnlyRoom, FileRoom, FileBytes, GrowsBy;
    LiveIsTracked(s, fd);
    UnsentIsWriting(s, fd);
    var t := s.connections[fd].transfer;
    if files == [] || budget == 0 || t.offset >= |t.file.value| {
      PumpAllIsRun(s, fd, files, budget, now, epoll);
      GrowsByNothing(s, PumpAll(s, fd, files, budget, now, epoll), s.connections[fd].id);
      assert TakenOf(t, files, budget) == "";
    } else {
      OnlyRoomOn(files);
      FirstOffers(files);
      if files[0].SendInterrupted? {
        InterruptedPumpsOn(s, fd, files, budget, now, epoll);
        PumpAllUsesRoom(s, fd, files[1..], budget, now, epoll);
        assert TakenOf(t, files, budget) == TakenOf(t, files[1..], budget);
      } else {
        PumpedUsesRoom(s, fd, files, budget, now, epoll);
      }
    }
  }

  lemma {:induction false} PumpedUsesRoom(s: Server, fd: int, files: seq<SendAnswer>, budget: nat, now: nat, epoll: Epoll)
    requires Inv(s) && s.loop.Polling? && HasUnsent(s, fd) && s.connections[fd].writeBuffer == ""
    requires s.connections[fd].interest == WantsWrite && budget > 0
    requires files != [] && files[0].Room? && files[0].count > 0 && OnlyRoom(files[1..])
    requires var t := s.connections[fd].transfer; t.offset < |t.file.value|
    ensures GrowsBy(s, PumpAll(s, fd, files, budget, now, epoll), s.connections[fd].id,
                    TakenOf(s.connections[fd].transfer, files, budget))
    decreases |files|, 0
  {
    hide Inv, React, AfterWrite, FileSent, PumpAll, OnlyRoom, FileRoom, FileBytes, GrowsBy, TakenOf;
    var c, t, s' := s.connections[fd], s.connections[fd].transfer, PumpAll(s, fd, files, budget, now, epoll);
    var count := FileRoom(t, budget, files[0].count);
    RoomOfRest(t, budget, files[0].count);
    var s1 := Pumped(s, fd, count, now);
    PumpThenMore(s, fd, files, budget, now, epoll);
    FileSentRecords(s, fd, count, now, epoll);
    FileSentIsPumped(s, fd, count, now, epoll);
    TakenInTurn(t, files, budget);
    if s1.connections[fd].transfer.Active() {
      StepKeeps(s, SendFile(fd, count, now, epoll));
      PumpAllUsesRoom(s1, fd, files[1..], budget - count, now, epoll);
      GrowsByBoth(s, s1, s', c.id, FileBytes(t, count), TakenOf(s1.connections[fd].transfer, files[1..], budget - count));
    } else {
      assert FileBytes(t, count) + "" == FileBytes(t, count);
      ItselfGrowsBy(s, s', c.id, FileBytes(t, count));
    }
  }

  /** What the first offer takes, and then what the others take of the rest. */
  lemma TakenInTurn(t: FileTransfer, files: seq<SendAnswer>, budget: nat)
    requires t.Active() && t.offset < |t.file.value| && budget > 0 && files != [] && files[0].Room? && files[0].count > 0
    ensures var count := FileRoom(t, budget, files[0].count);
            && count <= budget && t.offset + count <= |t.file.value|
            && var t' := t.(offset := t.offset + count, sent := t.sent + count);
               TakenOf(t, files, budget) == FileBytes(t, count) + (if t'.Active() then TakenOf(t', files[1..], budget - count) else "")
  {
    hide FileRoom, FileBytes, FileTransfer.Rest;
    var count := FileRoom(t, budget, files[0].count);
    RoomOfRest(t, budget, files[0].count);
    RestSplits(t, count);
    var t' := t.(offset := t.offset + count, sent := t.sent + count);
    assert |FileBytes(t, count)| == count by { BytesOf(t, count); }
    LeastInTurn(files[0].count, RoomIn(files[1..]), budget, |t.Rest()|);
    TakeInTurn(t.Rest(), FileBytes(t, count), t'.Rest(), Min(Min(RoomIn(files[1..]), budget - count), |t'.Rest()|));
    if !t'.Active() {
      NothingRests(t');
    }
  }

  lemma BytesOf(t: FileTransfer, n: nat)
    requires t.file.Some? && t.offset + n <= |t.file.value|
    ensures |FileBytes(t, n)| == n
  {
  }

  lemma NothingRests(t: FileTransfer)
    requires !t.Active()
    ensures t.Rest() == ""
  {
  }

  lemma LeastInTurn(first: nat, others: nat, budget: nat, length: nat)
    ensures var count := Min(Min(first, budget), length);
            count <= budget && count <= length
            && Min(Min(first + others, budget), length) == count + Min(Min(others, budget - count), length - count)
  {
  }

  lemma TakeInTurn(rest: string, first: string, more: string, n: nat)
    requires rest == first + more && n <= |more|
    ensures rest[..|first| + n] == first + more[..n] && (more == "" ==> rest[..|first| + n] == first + "")
  {
  }

  lemma RoomOfRest(t: FileTransfer, budget: nat, room: nat)
    requires t.Active() && t.offset < |t.file.value| && budget > 0 && room > 0
    ensures FileRoom(t, budget, room) == Min(Min(room, budget), |t.Rest()|) && FileRoom(t, budget, room) > 0
    ensures t.offset + FileRoom(t, budget, room) <= |t.file.value| && FileRoom(t, budget, room) <= t.size - t.sent
  {
  }

  lemma InterruptedPumpsOn(s: Server, fd: int, files: seq<SendAnswer>, budget: nat, now: nat, epoll: Epoll)
    requires fd in s.connections && s.connections[fd].writeBuffer == "" && s.connections[fd].transfer.Active()
    requires files != [] && files[0].SendInterrupted?
    ensures PumpAll(s, fd, files, budget, now, epoll) == PumpAll(s, fd, files[1..], budget, now, epoll)
  {
    hide React, AfterWrite;
  }

  lemma PumpThenMore(s: Server, fd: int, files: seq<SendAnswer>, budget: nat, now: nat, epoll: Epoll)
    requires fd in s.connections && s.connections[fd].writeBuffer == "" && s.connections[fd].transfer.Active()
    requires files != [] && files[0].Room?
    requires var t := s.connections[fd].transfer; t.offset < |t.file.value| && FileRoom(t, budget, files[0].count) > 0
    ensures var count := FileRoom(s.connections[fd].transfer, budget, files[0].count);
            var s1 := Pumped(s, fd, count, now);
            PumpAll(s, fd, files, budget, now, epoll) ==
              if s1.connections[fd].transfer.Active() then PumpAll(s1, fd, files[1..], budget - count, now, epoll)
              else FileSent(s, fd, count, now, epoll)
  {
    hide PumpAll, FileSent, FileBytes;
    assert files == [Room(files[0].count)] + files[1..];
    PumpAllStep(s, fd, files[0].count, files[1..], budget, now, epoll);
  }

  /** And for the events epoll reports, with 1 MiB for one call. */
  lemma AllFileRoomIsUsed(s: Server, fd: int, events: Events, sends: seq<SendAnswer>, files: seq<SendAnswer>, now: nat, epoll: Epoll)
    requires MayWrite(s, fd, events) && s.connections[fd].writeBuffer == "" && OnlyRoom(files)
    ensures var c, s' := s.connections[fd], OnEvents(s, fd, events, [], sends, files, now, epoll);
            var rest := c.transfer.Rest();
            GrowsBy(s, s', c.id, rest[..Min(Min(RoomIn(files), 1024 * 1024), |rest|)])
  {
    hide Reachable, Inv, PumpAll, OnlyRoom;
    ReachableIsSound(s);
    HasUnsentIsResponding(s, fd);
    PumpAllUsesRoom(s, fd, files, SENDFILE_BUDGET, now, epoll);
  }

  /** A failing send closes the connection, and so does a failing sendfile. */
  lemma FailedWriteCloses(s: Server, fd: int, events: Events, sends: seq<SendAnswer>, files: seq<SendAnswer>, now: nat, epoll: Epoll)
    requires MayWrite(s, fd, events)
    requires if s.connections[fd].writeBuffer != "" then sends != [] && sends[0].SendFailed?
             else files != [] && files[0].SendFailed?
    ensures OnEvents(s, fd, events, [], sends, files, now, epoll).connections == s.connections - {fd}
  {
    hide Reachable, AfterWrite, React;
  }

  /** Where the kernel does not take a connection's new interest, the connection is closed. */
  lemma UnregisteredIsClosed(s: Server, fd: int, h: History, r: Reaction, epoll: Epoll)
    requires fd in s.connections && !r.Stay? && (!epoll.ok || r.Drop? || (r.Dispatch? && !ThreadPools.Accepts(s.pool) && !epoll.okAgain))
    ensures React(s, fd, h, r, epoll).connections == s.connections - {fd} && React(s, fd, h, r, epoll).pool == s.pool
  {
    hide Record, AfterRefusal, Refused;
  }

  /** Otherwise it stays, and is registered with what its reaction asks for. */
  lemma RegisteredStays(s: Server, fd: int, h: History, r: Reaction, epoll: Epoll)
    requires fd in s.connections && !r.Drop? && (r.Stay? || epoll.ok) && (r.Dispatch? ==> ThreadPools.Accepts(s.pool))
    ensures fd in React(s, fd, h, r, epoll).connections && React(s, fd, h, r, epoll).connections[fd] == r.c
  {
    hide Record, AfterRefusal, Refused;
  }

  /** A delivered response whose interest the kernel does not take closes its connection, too. */
  lemma UndeliverableIsClosed(s: Server, at: nat)
    requires s.loop.Delivering? && s.loop.batch != [] && IsFor(s.loop.batch[0], s.connections)
    ensures Handed(s, at, false).connections == s.connections - {s.loop.batch[0].fd}
    ensures s.loop.batch[0].fd in Handed(s, at, true).connections
  {
    hide Deliver, EmissionOf;
  }

  // ---- Everybody else ----

  predicate Untouched(s: Server, s': Server, other: int) {
    other in s.connections ==> other in s'.connections && s'.connections[other] == s.connections[other]
  }

  lemma ReactUntouched(s: Server, fd: int, h: History, r: Reaction, epoll: Epoll, other: int)
    requires fd in s.connections && other != fd
    ensures Untouched(s, React(s, fd, h, r, epoll), other)
  {
    hide React;
    if other in s.connections {
      ReactLeavesOthers(s, fd, h, r, epoll, other);
    }
  }

  lemma {:induction false} ReadAllUntouched(s: Server, fd: int, answers: seq<RecvAnswer>, now: nat, epoll: Epoll, other: int)
    requires fd in s.connections && other != fd
    ensures Untouched(s, ReadAll(s, fd, answers, now, epoll), other)
    decreases |answers|
  {
    hide OnChunk, ReadsOn, React;
    if answers != [] {
      var h := HistoryOf(s, fd);
      if answers[0].Chunk? {
        var bytes := answers[0].bytes;
        ReactUntouched(s, fd, h.(received := h.received + bytes), OnChunk(s.connections[fd], bytes, s.maxBody, now), epoll, other);
        if GoesOnReading(s, fd, bytes, now) {
          GoesOnStored(s, fd, bytes, now, epoll);
          ReadAllUntouched(Received(s, fd, bytes, now, epoll), fd, answers[1..], now, epoll, other);
        }
      } else if answers[0].RecvInterrupted? {
        ReadAllUntouched(s, fd, answers[1..], now, epoll, other);
      }
    }
  }

  lemma {:induction false} PumpAllUntouched(s: Server, fd: int, answers: seq<SendAnswer>, budget: nat, now: nat, epoll: Epoll,
                                            other: int)
    requires fd in s.connections && s.connections[fd].writeBuffer == "" && other != fd
    ensures Untouched(s, PumpAll(s, fd, answers, budget, now, epoll), other)
    decreases |answers|
  {
    hide AfterWrite, React, OnFileEnd, FileBytes;
    var c, h := s.connections[fd], HistoryOf(s, fd);
    if !c.transfer.Active() {
      ReactUntouched(s, fd, h, AfterWrite(c, s.maxBody, now), epoll, other);
    } else if budget != 0 && answers != [] {
      if answers[0].SendInterrupted? {
        PumpAllUntouched(s, fd, answers[1..], budget, now, epoll, other);
      } else if answers[0].Room? {
        if c.transfer.offset >= |c.transfer.file.value| {
          ReactUntouched(s, fd, h, OnFileEnd(c, s.maxBody, now), epoll, other);
        } else if FileRoom(c.transfer, budget, answers[0].count) != 0 {
          var count := FileRoom(c.transfer, budget, answers[0].count);
          PumpAllUntouched(Pumped(s, fd, count, now), fd, answers[1..], budget - count, now, epoll, other);
        }
      }
    }
  }

  lemma {:induction false} WriteAllUntouched(s: Server, fd: int, sends: seq<SendAnswer>, files: seq<SendAnswer>, now: nat,
                                             epoll: Epoll, other: int)
    requires fd in s.connections && other != fd
    ensures Untouched(s, WriteAll(s, fd, sends, files, now, epoll), other)
    decreases |sends|
  {
    hide PumpAll;
    var c := s.connections[fd];
    if c.writeBuffer == "" {
      PumpAllUntouched(s, fd, files, SENDFILE_BUDGET, now, epoll, other);
    } else if sends != [] {
      if sends[0].SendInterrupted? {
        WriteAllUntouched(s, fd, sends[1..], files, now, epoll, other);
      } else if sends[0].Room? && Min(sends[0].count, |c.writeBuffer|) != 0 {
        var count := Min(sends[0].count, |c.writeBuffer|);
        WriteAllUntouched(Flushed(s, fd, count, now), fd, sends[1..], files, now, epoll, other);
      }
    }
  }

  /** The events of one descriptor touch no other connection. */
  lemma OthersAreUntouched(s: Server, fd: int, events: Events, recvs: seq<RecvAnswer>, sends: seq<SendAnswer>,
                           files: seq<SendAnswer>, now: nat, epoll: Epoll, other: int)
    requires other in s.connections && other != fd
    ensures var s' := OnEvents(s, fd, events, recvs, sends, files, now, epoll);
            other in s'.connections && s'.connections[other] == s.connections[other]
  {
    hide ReadAll, WriteAll;
    if fd in s.connections {
      ReadAllUntouched(s, fd, recvs, now, epoll, other);
      var s' := if events.readable && !s.connections[fd].responsePending then ReadAll(s, fd, recvs, now, epoll) else s;
      if fd in s'.connections {
        WriteAllUntouched(s', fd, sends, files, now, epoll, other);
      }
    }
  }

  // ---- The batch, the clients, the idle ----

  /** The delivery loop ends with the batch empty, each of its completions delivered or dropped once. */
  lemma {:induction false} BatchIsSettled(s: Server, answers: seq<DeliveryAnswer>)
    requires |answers| >= |BatchOf(s.loop)| && (s.loop.Delivering? ==> s.loop.batch != [])
    ensures var s' := DeliverAll(s, answers);
            && BatchOf(s'.loop) == [] && (s.loop.Delivering? ==> s'.loop.Polling?)
            && s'.delivered + s'.dropped == s.delivered + s.dropped + CompletionIds(BatchOf(s.loop))
            && s'.completions == s.completions && s'.pool == s.pool
    decreases |answers|
  {
    hide CompletionIds;
    if BatchOf(s.loop) == [] {
      assert CompletionIds([]) == multiset{} by { NoIds(); }
    } else {
      var k, s1 := s.loop.batch[0], Handed(s, answers[0].at, answers[0].epollOk);
      HandedMovesOn(s, answers[0].at, answers[0].epollOk);
      HandedSettles(s, answers[0].at, answers[0].epollOk);
      CompletionIdsFirst(s.loop.batch);
      BatchIsSettled(s1, answers[1..]);
    }
  }

  lemma NoIds()
    ensures CompletionIds([]) == multiset{}
  {
  }

  lemma HandedSettles(s: Server, at: nat, epollOk: bool)
    requires s.loop.Delivering? && s.loop.batch != []
    ensures var s' := Handed(s, at, epollOk);
            && s'.delivered + s'.dropped == s.delivered + s.dropped + multiset{s.loop.batch[0].id}
            && s'.completions == s.completions && s'.pool == s.pool
            && (s'.loop.Delivering? ==> s'.loop.batch != []) && !s'.loop.Drained?
  {
    hide Deliver, EmissionOf;
  }

  predicate NoneFailed(answers: seq<AcceptAnswer>) {
    forall i :: 0 <= i < |answers| ==> !answers[i].AcceptFailed?
  }

  /** Every client accept hands over is known afterwards, reading on its own id, if epoll took it on. */
  lemma {:induction false} ClientsAreAdmitted(s: Server, answers: seq<AcceptAnswer>, i: nat)
    requires AllNew(s, answers) && NoneFailed(answers) && i < |answers| && answers[i].NewClient? && answers[i].epollOk
    ensures var fd, s' := answers[i].fd, AcceptAll(s, answers);
            && fd in s'.connections && IsReading(s'.connections[fd]) && s'.connections[fd].readBuffer == ""
            && s.nextId <= s'.connections[fd].id < s'.nextId && s'.connections[fd].lastActive == answers[i].now
    decreases |answers|
  {
    var rest := answers[1..];
    assert forall k :: 0 <= k < |rest| ==> rest[k] == answers[k + 1];
    var s1 := if answers[0].NewClient? then Accepted(s, answers[0].fd, answers[0].now, answers[0].epollOk) else s;
    if i == 0 {
      AdmittedStays(s1, rest, answers[0].fd);
    } else {
      ClientsAreAdmitted(s1, rest, i - 1);
    }
  }

  lemma {:induction false} AdmittedStays(s: Server, answers: seq<AcceptAnswer>, fd: int)
    requires AllNew(s, answers) && NoneFailed(answers) && fd in s.connections
    ensures var s' := AcceptAll(s, answers);
            fd in s'.connections && s'.connections[fd] == s.connections[fd] && s.nextId <= s'.nextId
    decreases |answers|
  {
    if answers != [] {
      var rest := answers[1..];
      assert forall k :: 0 <= k < |rest| ==> rest[k] == answers[k + 1];
      AdmittedStays(if answers[0].NewClient? then Accepted(s, answers[0].fd, answers[0].now, answers[0].epollOk) else s, rest, fd);
    }
  }

  /** The idle scan closes exactly the connections without a response that have been silent for the timeout. */
  lemma IdleScanIsExact(s: Server, now: nat, fd: int)
    requires Reachable(s) && fd in s.connections
    ensures var c, s' := s.connections[fd], CloseIdle(s, now);
            && (fd !in s'.connections <==> IsReading(c) && now >= c.lastActive + s.idleTimeout)
            && (fd in s'.connections ==> s'.connections[fd] == c)
  {
    hide Reachable, Inv, Sound;
    ReachableIsSound(s);
    LiveIsAt(s, fd);
    ModeByInterest(s.world, s.connections[fd], HistoryOf(s, fd), s.maxBody);
  }
}
