/** Every step of every interleaving keeps the server's invariant. */
module ServerSteps {
  import opened Options
  import opened HttpParser
  import opened Framing
  import opened HttpResponses
  import opened Responder
  import opened Connections
  import opened ConnectionSafety
  import opened ConnectionSteps
  import opened Servers
  import opened ServerSafety
  import ThreadPools

  // ---- Reactions ----

  lemma ArmedKeeps(s: Server, fd: int, c: Connection, h: History, epollOk: bool)
    requires Inv(s) && fd in s.connections && !s.connections[fd].responsePending
    requires c.id == s.connections[fd].id && !c.responsePending && Sound(s.world, c, h, s.maxBody)
    ensures Inv(Armed(s, fd, c, h, epollOk))
  {
    hide Inv, Sound, Stored, Closed, SoundHistory, Asked;
    if epollOk {
      StoredKeeps(s, fd, c, h);
    } else {
      SoundGivesHistory(s.world, c, h, s.maxBody);
      ClosedKeeps(s, fd, h);
    }
  }

  /** One more job, for an id that had none. */
  lemma JobEnqueued(tasks: seq<Task>, workers: Workers, completions: seq<Completion>, loop: Loop, t: Task)
    ensures JobIds(tasks + [t], workers, completions, loop) == JobIds(tasks, workers, completions, loop) + multiset{t.id}
  {
    hide TaskIds, CompletionIds, RunningIds, BatchOf;
    TaskIdsAppend(tasks, t);
  }

  lemma OneJobAdded(w: World, jobs: multiset<nat>, dropped: multiset<nat>, connections: map<int, Connection>,
                    clients: map<nat, Client>, maxBody: nat, nextId: nat, fd: int, c: Connection)
    requires OneJobEach(jobs, dropped, connections, nextId) && LiveSound(w, connections, clients, maxBody)
    requires fd in connections && connections[fd].id == c.id && !connections[fd].responsePending
    requires c.responsePending && c.id < nextId
    ensures OneJobEach(jobs + multiset{c.id}, dropped, connections[fd := c], nextId)
  {
    hide LiveSound;
    assert HasItsJob(connections[fd], jobs, dropped);
    var connections', jobs' := connections[fd := c], jobs + multiset{c.id};
    forall other | other in connections' ensures HasItsJob(connections'[other], jobs', dropped) {
      if other != fd {
        JobsOfOthers(w, connections, clients, maxBody, fd, other);
        assert HasItsJob(connections[other], jobs, dropped);
      }
    }
  }

  lemma TasksFitMore(clients: map<nat, Client>, tasks: seq<Task>, t: Task)
    requires TasksFit(clients, tasks) && TaskFits(clients, t)
    ensures TasksFit(clients, tasks + [t])
  {
    hide TaskFits;
    forall i | 0 <= i < |tasks + [t]| ensures TaskFits(clients, (tasks + [t])[i]) {
      if i < |tasks| {
        assert TaskFits(clients, tasks[i]);
      }
    }
  }

  /** A request handed to the pool makes its connection pending and is its one job. */
  lemma EnqueuedKeeps(s: Server, fd: int, c: Connection, h: History, request: Request)
    requires Inv(s) && fd in s.connections && !s.connections[fd].responsePending
    requires c.id == s.connections[fd].id && c.responsePending && Sound(s.world, c, h, s.maxBody)
    requires Asked(h) == Some(request) && ThreadPools.Accepts(s.pool)
    ensures Inv(Enqueued(s, fd, c, h, request))
  {
    hide Sound, TasksFit, WorkersFit, CompletionsFit, ThreadPools.PoolSound, SoundHistory, TaskIds, LiveSound;
    hide PastSound, JobIds;
    hide Asked, OneJobEach, NotStranded, BatchOf;
    var t := Task(fd, c.id, request);
    LiveIsAt(s, fd);
    LiveStored(s.world, s.connections, s.clients, fd, c, h, s.maxBody);
    SoundGivesHistory(s.world, c, h, s.maxBody);
    PastStored(s.world, s.clients, s.nextId, c.id, Client(fd, h), s.maxBody);
    JobsStillFit(s.world, s.clients, c.id, Client(fd, h), s.pool.tasks, s.pool.workers, s.completions, s.loop);
    TasksFitMore(s.clients[c.id := Client(fd, h)], s.pool.tasks, t);
    JobEnqueued(s.pool.tasks, s.pool.workers, s.completions, s.loop, t);
    TaskIdsAppend(s.pool.accepted, t);
    OneJobAdded(s.world, Jobs(s), s.dropped, s.connections, s.clients, s.maxBody, s.nextId, fd, c);
    ThreadPools.PushKeeps(s.pool, t);
  }

  /** A handler never renames its connection, and only a dispatch makes it pending. */
  predicate IsFrom(r: Reaction, c: Connection) {
    r.Drop? || (r.c.id == c.id && r.c.responsePending == (r.Dispatch? || c.responsePending))
  }

  lemma ProcessIsFrom(c: Connection, maxBody: nat, now: nat)
    ensures IsFrom(Process(c, maxBody, now), c)
  {
    hide CompleteHeaderLength, ParseRequest, IsServed, TooLargeResult, BadRequestResult, NotAllowedResult;
  }

  lemma AfterWriteIsFrom(c: Connection, maxBody: nat, now: nat)
    ensures IsFrom(AfterWrite(c, maxBody, now), c)
  {
    hide Process, CompleteHeaderLength, TooLargeResult, HeaderTooLarge, BodyBytes;
    ProcessIsFrom(c.(transfer := NO_TRANSFER), maxBody, now);
  }

  lemma ChunkIsFrom(c: Connection, chunk: string, maxBody: nat, now: nat)
    ensures IsFrom(OnChunk(c, chunk, maxBody, now), c)
  {
    hide Process, CompleteHeaderLength, TooLargeResult, HeaderTooLarge, BodyBytes;
    ProcessIsFrom(c.(lastActive := now, readBuffer := c.readBuffer + chunk), maxBody, now);
  }

  lemma SentIsFrom(c: Connection, n: nat, maxBody: nat, now: nat)
    requires n <= |c.writeBuffer|
    ensures IsFrom(OnSent(c, n, maxBody, now), c)
  {
    hide AfterWrite;
    AfterWriteIsFrom(c.(writeBuffer := c.writeBuffer[n..], lastActive := now), maxBody, now);
  }

  lemma FileSentIsFrom(c: Connection, n: nat, maxBody: nat, now: nat)
    ensures IsFrom(OnFileSent(c, n, maxBody, now), c)
    ensures IsFrom(OnFileEnd(c, maxBody, now), c)
  {
    hide AfterWrite;
    var t := c.transfer;
    AfterWriteIsFrom(c.(transfer := t.(offset := t.offset + n, sent := t.sent + n), lastActive := now), maxBody, now);
    AfterWriteIsFrom(c.(transfer := NO_TRANSFER), maxBody, now);
  }

  lemma AskedAfterDispatch(h: History, r: Reaction)
    requires r.Dispatch?
    ensures Asked(Record(h, r)) == Some(r.request)
  {
  }

  /** Whatever a handler of a connection that is not pending does, the server stays sound. */
  lemma ReactKeeps(s: Server, fd: int, h: History, r: Reaction, epoll: Epoll)
    requires Inv(s) && fd in s.connections && !s.connections[fd].responsePending
    requires Kept(s.world, r, h, s.maxBody) && IsFrom(r, s.connections[fd])
    ensures Inv(React(s, fd, h, r, epoll))
  {
    hide Inv, Sound, Stored, Closed, Armed, Enqueued, Refused, SoundHistory, Record, Asked, IsServed, ThreadPools.Accepts;
    hide AfterRefusal;
    match r
    case Stay(c) => StoredKeeps(s, fd, c, h);
    case Respond(c, _, _) => ArmedKeeps(s, fd, c, Record(h, r), epoll.ok);
    case Rearm(c) => ArmedKeeps(s, fd, c, h, epoll.ok);
    case Drop => ClosedKeeps(s, fd, h);
    case Dispatch(c, request) =>
      if !epoll.ok {
        SoundGivesHistory(s.world, c, Record(h, r), s.maxBody);
        ClosedKeeps(s, fd, Record(h, r));
      } else if ThreadPools.Accepts(s.pool) {
        AskedAfterDispatch(h, r);
        EnqueuedKeeps(s, fd, c, Record(h, r), request);
      } else {
        RefusedKeeps(s.world, c, Record(h, r), s.maxBody);
        RefusedIsOf(c);
        ArmedKeeps(s, fd, Refused(c), AfterRefusal(Record(h, r)), epoll.okAgain);
      }
  }

  lemma RefusedIsOf(c: Connection)
    ensures Refused(c).id == c.id && !Refused(c).responsePending
  {
  }

  // ---- Handlers of the event loop ----

  lemma AcceptedKeeps(s: Server, fd: int, now: nat, epollOk: bool)
    requires Inv(s) && fd !in s.connections
    ensures Inv(Accepted(s, fd, now, epollOk))
  {
    hide IsPossible, JobsFit, NotStranded, ThreadPools.PoolSound, SoundHistory, TaskIds, LiveSound, JobIds, Asked, Sound;
    var id, c := s.nextId, NewConnection(s.nextId, now);
    NewIsSound(s.world, id, now, s.maxBody);
    SoundGivesHistory(s.world, c, NO_HISTORY, s.maxBody);
    assert id !in s.clients;
    LiveStored(s.world, s.connections, s.clients, fd, c, NO_HISTORY, s.maxBody);
    LiveClosed(s.world, s.connections, s.clients, fd, id, NO_HISTORY, s.maxBody);
    assert s.connections - {fd} == s.connections;
    JobsStillFit(s.world, s.clients, id, Client(fd, NO_HISTORY), s.pool.tasks, s.pool.workers, s.completions, s.loop);
  }

  lemma ReceiveKeeps(s: Server, fd: int, chunk: string, now: nat, epoll: Epoll)
    requires Inv(s) && fd in s.connections && s.connections[fd].interest == WantsRead 
    requires MayReceive(HistoryOf(s, fd), chunk)
    ensures Inv(Received(s, fd, chunk, now, epoll))
  {
    hide Inv, Sound, OnChunk, React, Kept, IsFrom;
    LiveIsAt(s, fd);
    var h, c := HistoryOf(s, fd), s.connections[fd];
    ModeByInterest(s.world, c, h, s.maxBody);
    ChunkKeeps(s.world, c, h, chunk, s.maxBody, now);
    ChunkIsFrom(c, chunk, s.maxBody, now);
    ReactKeeps(s, fd, h.(received := h.received + chunk), OnChunk(c, chunk, s.maxBody, now), epoll);
  }

  /** The epoll mask tells the mode. */
  lemma ModeByInterest(w: World, c: Connection, h: History, maxBody: nat)
    requires Sound(w, c, h, maxBody)
    ensures c.interest == WantsRead ==> IsReading(c)
    ensures c.interest == WantsNothing ==> IsPending(c)
    ensures c.interest == WantsWrite ==> IsWriting(c)
    ensures HasNoResponse(c) ==> IsReading(c)
    ensures c.responsePending ==> IsPending(c)
  {
    hide InOrder, PendingIsServed, Framed, CloseIsLast, Payloads;
  }

  lemma SendKeeps(s: Server, fd: int, count: nat, now: nat, epoll: Epoll)
    requires Inv(s) && fd in s.connections && s.connections[fd].interest == WantsWrite
    requires count <= |s.connections[fd].writeBuffer|
    ensures Inv(Sent(s, fd, count, now, epoll))
  {
    hide Inv, Sound, OnSent, React, Kept, IsFrom;
    LiveIsAt(s, fd);
    var h, c := HistoryOf(s, fd), s.connections[fd];
    ModeByInterest(s.world, c, h, s.maxBody);
    SentKeeps(s.world, c, h, count, s.maxBody, now);
    SentIsFrom(c, count, s.maxBody, now);
    ReactKeeps(s, fd, h.(wire := h.wire + c.writeBuffer[..count]), OnSent(c, count, s.maxBody, now), epoll);
  }

  lemma SendFileKeeps(s: Server, fd: int, count: nat, now: nat, epoll: Epoll)
    requires Inv(s) && fd in s.connections && s.connections[fd].interest == WantsWrite
    requires MaySendFile(s.connections[fd], count)
    ensures Inv(FileSent(s, fd, count, now, epoll))
  {
    hide Inv, Sound, OnFileSent, React, Kept, IsFrom, FileBytes;
    LiveIsAt(s, fd);
    var h, c := HistoryOf(s, fd), s.connections[fd];
    ModeByInterest(s.world, c, h, s.maxBody);
    FileSentKeeps(s.world, c, h, count, s.maxBody, now);
    FileSentIsFrom(c, count, s.maxBody, now);
    ReactKeeps(s, fd, h.(wire := h.wire + FileBytes(c.transfer, count)), OnFileSent(c, count, s.maxBody, now), epoll);
  }

  lemma AtEndKeeps(s: Server, fd: int, now: nat, epoll: Epoll)
    requires Inv(s) && fd in s.connections && s.connections[fd].interest == WantsWrite && AtFileEnd(s.connections[fd])
    ensures Inv(FileEnded(s, fd, now, epoll))
  {
    hide Inv, Sound, OnFileEnd, React, Kept, IsFrom;
    LiveIsAt(s, fd);
    var h, c := HistoryOf(s, fd), s.connections[fd];
    ModeByInterest(s.world, c, h, s.maxBody);
    FileEndKeeps(s.world, c, h, s.maxBody, now);
    FileSentIsFrom(c, 0, s.maxBody, now);
    ReactKeeps(s, fd, h, OnFileEnd(c, s.maxBody, now), epoll);
  }

  // ---- Completions ----

  lemma BatchMoves(loop: Loop)
    requires loop.Delivering? && loop.batch != []
    ensures BatchOf(loop) == loop.batch && BatchOf(AfterOne(loop.batch)) == loop.batch[1..]
    ensures AfterOne(loop.batch).Delivering? ==> AfterOne(loop.batch).batch != []
  {
  }

  lemma JobHanded(tasks: seq<Task>, workers: Workers, completions: seq<Completion>, loop: Loop)
    requires loop.Delivering? && loop.batch != []
    ensures JobIds(tasks, workers, completions, loop)
         == JobIds(tasks, workers, completions, AfterOne(loop.batch)) + multiset{loop.batch[0].id}
  {
    hide TaskIds, CompletionIds, RunningIds, BatchOf;
    BatchMoves(loop);
    CompletionIdsFirst(loop.batch);
  }

  lemma OneJobTaken(jobs: multiset<nat>, jobs': multiset<nat>, dropped: multiset<nat>, connections: map<int, Connection>,
                    nextId: nat, k: Completion)
    requires OneJobEach(jobs, dropped, connections, nextId) && jobs == jobs' + multiset{k.id}
    requires forall fd :: fd in connections ==> connections[fd].id != k.id
    ensures OneJobEach(jobs', dropped + multiset{k.id}, connections, nextId)
  {
    hide HasItsJob;
    var dropped' := dropped + multiset{k.id};
    assert jobs[k.id] == jobs'[k.id] + 1;
    forall fd | fd in connections ensures HasItsJob(connections[fd], jobs', dropped') {
      assert HasItsJob(connections[fd], jobs, dropped);
      OthersKeepTheirs(connections[fd], jobs, jobs', dropped, k.id);
    }
    forall id: nat ensures jobs'[id] <= 1 && (id >= nextId ==> jobs'[id] == 0 && dropped'[id] == 0) {
      assert jobs[id] == jobs'[id] + multiset{k.id}[id];
    }
  }

  lemma OthersKeepTheirs(c: Connection, jobs: multiset<nat>, jobs': multiset<nat>, dropped: multiset<nat>, id: nat)
    requires HasItsJob(c, jobs, dropped) && jobs == jobs' + multiset{id} && c.id != id
    ensures HasItsJob(c, jobs', dropped + multiset{id}) && HasItsJob(c, jobs', dropped)
  {
    assert jobs[c.id] == jobs'[c.id] + multiset{id}[c.id];
  }

  /** A completion that is for nobody: its id lives nowhere. */
  lemma ForNobody(s: Server, k: Completion)
    requires Inv(s) && IsAt(s.clients, k.id, k.fd) && !IsFor(k, s.connections)
    ensures forall fd :: fd in s.connections ==> s.connections[fd].id != k.id
  {
    hide Inv, Sound;
    forall fd | fd in s.connections ensures s.connections[fd].id != k.id {
      LiveIsAt(s, fd);
    }
  }

  lemma FirstFits(s: Server)
    requires Inv(s) && s.loop.Delivering? && s.loop.batch != []
    ensures CompletionFits(s.world, s.clients, s.loop.batch[0])
    ensures IsAt(s.clients, s.loop.batch[0].id, s.loop.batch[0].fd)
    ensures CompletionsFit(s.world, s.clients, s.loop.batch[1..])
  {
    hide IsPossible, TasksFit, WorkersFit, ThreadPools.PoolSound, LiveSound, PastSound, OneJobEach, NotStranded, Jobs;
    hide CompletionFits;
    var batch := s.loop.batch;
    assert CompletionsFit(s.world, s.clients, batch);
    assert CompletionFits(s.world, s.clients, batch[0]);
    FirstIsAt(s.world, s.clients, batch[0]);
    forall i | 0 <= i < |batch[1..]| ensures CompletionFits(s.world, s.clients, batch[1..][i]) {
      assert CompletionFits(s.world, s.clients, batch[i + 1]);
    }
  }

  lemma FirstIsAt(w: World, clients: map<nat, Client>, k: Completion)
    requires CompletionFits(w, clients, k)
    ensures IsAt(clients, k.id, k.fd)
  {
  }

  lemma DroppedKeeps(s: Server)
    requires Inv(s) && s.loop.Delivering? && s.loop.batch != [] && !IsFor(s.loop.batch[0], s.connections)
    ensures Inv(s.(loop := AfterOne(s.loop.batch), dropped := s.dropped + multiset{s.loop.batch[0].id}))
  {
    hide IsPossible, TasksFit, WorkersFit, CompletionsFit, ThreadPools.PoolSound, TaskIds, LiveSound, PastSound;
    hide JobIds, OneJobEach;
    hide IsFor, AfterOne, BatchOf, NotStranded;
    var k, loop' := s.loop.batch[0], AfterOne(s.loop.batch);
    FirstFits(s);
    BatchMoves(s.loop);
    JobHanded(s.pool.tasks, s.pool.workers, s.completions, s.loop);
    ForNobody(s, k);
    OneJobTaken(Jobs(s), JobIds(s.pool.tasks, s.pool.workers, s.completions, loop'), s.dropped, s.connections, s.nextId, k);
    StillNotStranded(s.completions, s.eventCount, s.pool.workers, s.loop, loop');
  }

  lemma StillNotStranded(completions: seq<Completion>, eventCount: nat, workers: Workers, loop: Loop, loop': Loop)
    requires NotStranded(completions, eventCount, workers, loop) && !loop.Drained?
    ensures NotStranded(completions, eventCount, workers, loop')
  {
  }

  /** The connection whose job is handed over has none left, and the others keep theirs. */
  lemma OneJobDelivered(w: World, jobs: multiset<nat>, jobs': multiset<nat>, dropped: multiset<nat>,
                        connections: map<int, Connection>,
                        clients: map<nat, Client>, maxBody: nat, nextId: nat, fd: int, c: Connection)
    requires OneJobEach(jobs, dropped, connections, nextId) && LiveSound(w, connections, clients, maxBody)
    requires fd in connections && connections[fd].id == c.id && !c.responsePending
    requires jobs == jobs' + multiset{c.id}
    ensures OneJobEach(jobs', dropped, connections[fd := c], nextId)
    ensures OneJobEach(jobs', dropped, connections - {fd}, nextId)
  {
    hide LiveSound, HasItsJob;
    var connections' := connections[fd := c];
    OwnJobDone(connections[fd], c, jobs, jobs', dropped);
    forall other | other in connections' ensures HasItsJob(connections'[other], jobs', dropped) {
      if other != fd {
        assert HasItsJob(connections[other], jobs, dropped);
        JobsOfOthers(w, connections, clients, maxBody, fd, other);
        OthersKeepTheirs(connections[other], jobs, jobs', dropped, c.id);
      }
    }
    forall id: nat ensures jobs'[id] <= 1 && (id >= nextId ==> jobs'[id] == 0) {
      assert jobs[id] == jobs'[id] + multiset{c.id}[id];
    }
    var left := connections - {fd};
    forall other | other in left ensures HasItsJob(left[other], jobs', dropped) {
      assert HasItsJob(connections'[other], jobs', dropped);
    }
  }

  lemma OwnJobDone(before: Connection, c: Connection, jobs: multiset<nat>, jobs': multiset<nat>, dropped: multiset<nat>)
    requires HasItsJob(before, jobs, dropped) && c.id == before.id && !c.responsePending
    requires jobs == jobs' + multiset{c.id}
    ensures HasItsJob(c, jobs', dropped) && before.responsePending
  {
    assert jobs[c.id] == jobs'[c.id] + multiset{c.id}[c.id];
  }

  /** What the completion at the front of the batch is for: a pending connection, and the request it waits on. */
  lemma FrontAnswersPending(s: Server)
    requires Inv(s) && s.loop.Delivering? && s.loop.batch != [] && IsFor(s.loop.batch[0], s.connections)
    ensures var k := s.loop.batch[0];
            var c, h := s.connections[k.fd], HistoryOf(s, k.fd);
            && IsPending(c) && h.framed != [] && h.framed[|h.framed| - 1] == Good(k.request)
            && BuiltFor(s.world, k.request, k.result) && k.close == Closes(k.request, k.result)
  {
    hide IsPossible, Sound, BuiltFor, Closes, Inv, AfterOne, JobIds, LiveSound;
    var k := s.loop.batch[0];
    FirstFits(s);
    LiveIsAt(s, k.fd);
    JobHanded(s.pool.tasks, s.pool.workers, s.completions, s.loop);
    assert Jobs(s)[k.id] > 0;
    ModeByInterest(s.world, s.connections[k.fd], HistoryOf(s, k.fd), s.maxBody);
  }

  lemma DeliveredIsFrom(c: Connection, result: Result, close: bool, content: Option<string>)
    ensures Deliver(c, result, close, content).id == c.id && !Deliver(c, result, close, content).responsePending
  {
    hide Delivered, TransferOf;
  }

  /** What delivery leaves of the connection and its history, both sound. */
  lemma FilledIsSound(s: Server, at: nat)
    requires Inv(s) && s.loop.Delivering? && s.loop.batch != [] && IsFor(s.loop.batch[0], s.connections)
    ensures var k := s.loop.batch[0];
            var h, content := HistoryOf(s, k.fd), s.world.onDisk(at, k.result.filePath);
            Sound(s.world, Deliver(s.connections[k.fd], k.result, k.close, content),
                  h.(emitted := h.emitted + [EmissionOf(k.request, k.result, k.close, content)]), s.maxBody)
  {
    hide IsPossible, Sound, Inv, BuildResponse, Closes, Deliver, EmissionOf, LiveSound;
    var k := s.loop.batch[0];
    LiveIsAt(s, k.fd);
    FrontAnswersPending(s);
    PossibleWorld(s);
    var built :| k.result == BuildResponse(s.world, built, k.request);
    DeliverKeeps(s.world, s.connections[k.fd], HistoryOf(s, k.fd), built, at, s.maxBody);
  }

  lemma PossibleWorld(s: Server)
    requires Inv(s)
    ensures IsPossible(s.world)
  {
    hide IsPossible;
  }

  lemma DeliveredKeeps(s: Server, at: nat, epollOk: bool)
    requires Inv(s) && s.loop.Delivering? && s.loop.batch != [] && IsFor(s.loop.batch[0], s.connections)
    ensures Inv(Handed(s, at, epollOk))
  {
    hide IsPossible, TasksFit, WorkersFit, CompletionsFit, ThreadPools.PoolSound, TaskIds, LiveSound, PastSound;
    hide JobIds, OneJobEach;
    hide AfterOne, BatchOf, NotStranded, Sound, SoundHistory, Deliver, EmissionOf, Closes, Asked, BuiltFor;
    var k, loop' := s.loop.batch[0], AfterOne(s.loop.batch);
    var fd, id, content := k.fd, k.id, s.world.onDisk(at, k.result.filePath);
    var h := HistoryOf(s, fd);
    var c' := Deliver(s.connections[fd], k.result, k.close, content);
    var h' := h.(emitted := h.emitted + [EmissionOf(k.request, k.result, k.close, content)]);
    LiveIsAt(s, fd);
    FrontAnswersPending(s);
    FilledIsSound(s, at);
    DeliveredIsFrom(s.connections[fd], k.result, k.close, content);
    SoundGivesHistory(s.world, c', h', s.maxBody);
    LiveStored(s.world, s.connections, s.clients, fd, c', h', s.maxBody);
    LiveClosed(s.world, s.connections, s.clients, fd, id, h', s.maxBody);
    PastStored(s.world, s.clients, s.nextId, id, Client(fd, h'), s.maxBody);
    SameAsked(h, h');
    JobsStillFit(s.world, s.clients, id, Client(fd, h'), s.pool.tasks, s.pool.workers, s.completions, s.loop);
    BatchMoves(s.loop);
    TailFits(s.world, s.clients[id := Client(fd, h')], s.loop.batch);
    JobHanded(s.pool.tasks, s.pool.workers, s.completions, s.loop);
    OneJobDelivered(s.world, Jobs(s), JobIds(s.pool.tasks, s.pool.workers, s.completions, loop'), s.dropped,
                    s.connections, s.clients, s.maxBody, s.nextId, fd, c');
    StillNotStranded(s.completions, s.eventCount, s.pool.workers, s.loop, loop');
  }

  lemma SameAsked(h: History, h': History)
    requires h.framed == h'.framed
    ensures Asked(h) == Asked(h')
  {
  }

  lemma TailFits(w: World, clients: map<nat, Client>, batch: seq<Completion>)
    requires batch != [] && CompletionsFit(w, clients, batch)
    ensures CompletionsFit(w, clients, batch[1..])
  {
    hide CompletionFits;
    forall i | 0 <= i < |batch[1..]| ensures CompletionFits(w, clients, batch[1..][i]) {
      assert CompletionFits(w, clients, batch[i + 1]);
    }
  }

  lemma HandedKeeps(s: Server, at: nat, epollOk: bool)
    requires Inv(s) && s.loop.Delivering? && s.loop.batch != []
    ensures Inv(Handed(s, at, epollOk))
  {
    hide Inv, Armed, IsFor, AfterOne;
    if IsFor(s.loop.batch[0], s.connections) {
      DeliveredKeeps(s, at, epollOk);
    } else {
      DroppedKeeps(s);
    }
  }

  lemma DrainKeeps(s: Server)
    requires Inv(s) && !s.loop.Delivering?
    ensures Inv(s.(eventCount := 0, loop := Drained))
  {
    hide IsPossible, TasksFit, WorkersFit, CompletionsFit, ThreadPools.PoolSound, TaskIds, LiveSound, PastSound, OneJobEach;
    hide CompletionIds, RunningIds;
    var s' := s.(eventCount := 0, loop := Drained);
    assert BatchOf(s.loop) == BatchOf(s'.loop);
    assert Jobs(s') == Jobs(s);
  }

  lemma SwapKeeps(s: Server)
    requires Inv(s) && s.loop.Drained?
    ensures var s' := s.(completions := [], loop := if s.completions == [] then Polling else Delivering(s.completions));
            Inv(s')
  {
    hide IsPossible, TasksFit, WorkersFit, ThreadPools.PoolSound, TaskIds, LiveSound, PastSound, OneJobEach;
    hide RunningIds, CompletionFits;
    var s' := s.(completions := [], loop := if s.completions == [] then Polling else Delivering(s.completions));
    assert BatchOf(s.loop) == [];
    assert BatchOf(s'.loop) == s.completions;
    assert Jobs(s') == Jobs(s);
  }

  // ---- Workers ----

  /** A step of the pool that neither queues, starts nor publishes anything. */
  lemma PoolStepKeeps(s: Server, pool: ThreadPools.Pool<Task>, i: nat, w: ThreadPools.Worker<Task>)
    requires Inv(s) && i < |s.pool.workers| && pool.tasks == s.pool.tasks && pool.accepted == s.pool.accepted
    requires pool.workers == s.pool.workers[i := w] && !w.Running? && !s.pool.workers[i].Running?
    requires !s.pool.workers[i].Finishing? && ThreadPools.PoolSound(pool)
    ensures Inv(s.(pool := pool))
  {
    hide IsPossible, TasksFit, CompletionsFit, ThreadPools.PoolSound, TaskIds, LiveSound, PastSound, OneJobEach, RunningIds;
    hide CompletionIds, TaskFits;
    SameRunningIds(s.pool.workers, i, w);
    StillFinishing(s.pool.workers, i, w);
  }

  lemma StillFinishing(workers: Workers, i: nat, w: ThreadPools.Worker<Task>)
    requires i < |workers| && (!workers[i].Finishing? || w.Finishing?)
    ensures SomeFinishing(workers) ==> SomeFinishing(workers[i := w])
  {
    if j :| 0 <= j < |workers| && workers[j].Finishing? {
      assert workers[i := w][j].Finishing?;
    }
  }

  lemma WorkersFitAfter(clients: map<nat, Client>, workers: Workers, i: nat, w: ThreadPools.Worker<Task>)
    requires WorkersFit(clients, workers) && i < |workers| && (w.Running? ==> TaskFits(clients, w.task))
    ensures WorkersFit(clients, workers[i := w])
  {
    hide TaskFits;
  }

  lemma NotifyOneServer(s: Server, i: int)
    requires Inv(s) && ThreadPools.MayNotify(s.pool, i)
    ensures Inv(s.(pool := ThreadPools.NotifyOne(s.pool, i)))
  {
    hide Inv, ThreadPools.PoolSound, ThreadPools.SomeAsleep;
    SoundPool(s);
    ThreadPools.NotifyOneKeeps(s.pool, i);
    if ThreadPools.SomeAsleep(s.pool) {
      ThreadPools.MayNotifyIsSleeper(s.pool, i);
      PoolStepKeeps(s, ThreadPools.NotifyOne(s.pool, i), i, ThreadPools.Awake);
    } else {
      LostNotification(s, ThreadPools.NotifyOne(s.pool, i));
    }
  }

  lemma SoundPool(s: Server)
    requires Inv(s)
    ensures ThreadPools.PoolSound(s.pool)
  {
  }

  lemma LostNotification(s: Server, pool: ThreadPools.Pool<Task>)
    requires Inv(s) && ThreadPools.PoolSound(pool)
    requires pool.tasks == s.pool.tasks && pool.accepted == s.pool.accepted && pool.workers == s.pool.workers
    ensures Inv(s.(pool := pool))
  {
    hide IsPossible, JobsFit, ThreadPools.PoolSound, TaskIds, LiveSound, PastSound, OneJobEach, JobIds, NotStranded;
  }

  lemma WakeUpServer(s: Server, i: nat)
    requires Inv(s) && i < |s.pool.workers| && s.pool.workers[i].Asleep?
    ensures Inv(s.(pool := ThreadPools.WakeUp(s.pool, i)))
  {
    hide Inv, ThreadPools.PoolSound;
    SoundPool(s);
    ThreadPools.WakeUpKeeps(s.pool, i);
    PoolStepKeeps(s, ThreadPools.WakeUp(s.pool, i), i, ThreadPools.Awake);
  }

  /** The oldest task moves from the queue to a worker. */
  lemma JobStarted(tasks: seq<Task>, workers: Workers, completions: seq<Completion>, loop: Loop, i: nat)
    requires tasks != [] && i < |workers| && workers[i].Awake?
    ensures JobIds(tasks[1..], workers[i := ThreadPools.Running(tasks[0])], completions, loop)
         == JobIds(tasks, workers, completions, loop)
  {
    hide TaskIds, CompletionIds, RunningIds, BatchOf;
    TaskIdsFirst(tasks);
    RunningIdsAfter(workers, i, ThreadPools.Running(tasks[0]));
  }

  lemma TakesOldestServer(s: Server, i: nat)
    requires Inv(s) && i < |s.pool.workers| && s.pool.workers[i].Awake? && s.pool.tasks != []
    ensures Inv(s.(pool := ThreadPools.Look(s.pool, i)))
  {
    hide IsPossible, CompletionsFit, ThreadPools.PoolSound, TaskIds, LiveSound, PastSound, OneJobEach, JobIds;
    hide BatchOf, TaskFits;
    var w := ThreadPools.Running(s.pool.tasks[0]);
    ThreadPools.LookKeeps(s.pool, i);
    JobStarted(s.pool.tasks, s.pool.workers, s.completions, s.loop, i);
    assert TaskFits(s.clients, s.pool.tasks[0]);
    WorkersFitAfter(s.clients, s.pool.workers, i, w);
    StillFinishing(s.pool.workers, i, w);
  }

  lemma LookServer(s: Server, i: nat)
    requires Inv(s) && i < |s.pool.workers| && s.pool.workers[i].Awake?
    ensures Inv(s.(pool := ThreadPools.Look(s.pool, i)))
  {
    hide Inv, ThreadPools.PoolSound;
    if s.pool.tasks == [] {
      SoundPool(s);
      ThreadPools.LookKeeps(s.pool, i);
      PoolStepKeeps(s, ThreadPools.Look(s.pool, i), i, ThreadPools.Look(s.pool, i).workers[i]);
    } else {
      TakesOldestServer(s, i);
    }
  }

  /** The running task becomes a completion. */
  lemma JobPublished(tasks: seq<Task>, workers: Workers, completions: seq<Completion>, loop: Loop, i: nat, k: Completion)
    requires i < |workers| && workers[i].Running? && k.id == workers[i].task.id
    ensures JobIds(tasks, workers[i := ThreadPools.Finishing(workers[i].task)], completions + [k], loop)
         == JobIds(tasks, workers, completions, loop)
  {
    hide TaskIds, CompletionIds, RunningIds, BatchOf;
    CompletionIdsAppend(completions, k);
    RunningIdsAfter(workers, i, ThreadPools.Finishing(workers[i].task));
  }

  lemma BuiltFits(w: World, clients: map<nat, Client>, t: Task, at: nat)
    requires TaskFits(clients, t)
    ensures var result := BuildResponse(w, at, t.request);
            CompletionFits(w, clients, Completion(t.fd, t.id, t.request, result, Closes(t.request, result)))
  {
    hide BuildResponse, Closes, Asked, IsPossible;
    BuiltAt(w, t.request, at);
  }

  lemma CompletionsFitMore(w: World, clients: map<nat, Client>, completions: seq<Completion>, k: Completion)
    requires CompletionsFit(w, clients, completions) && CompletionFits(w, clients, k)
    ensures CompletionsFit(w, clients, completions + [k])
  {
    hide CompletionFits;
    forall i | 0 <= i < |completions + [k]| ensures CompletionFits(w, clients, (completions + [k])[i]) {
      if i < |completions| {
        assert CompletionFits(w, clients, completions[i]);
      }
    }
  }

  lemma NowFinishing(workers: Workers, i: nat, t: Task)
    requires i < |workers|
    ensures SomeFinishing(workers[i := ThreadPools.Finishing(t)])
  {
    assert workers[i := ThreadPools.Finishing(t)][i].Finishing?;
  }

  lemma PublishedKeeps(s: Server, i: nat, at: nat)
    requires Inv(s) && i < |s.pool.workers| && s.pool.workers[i].Running?
    ensures Inv(Published(s, i, at))
  {
    hide IsPossible, CompletionsFit, TasksFit, ThreadPools.PoolSound, TaskIds, LiveSound, PastSound, OneJobEach;
    hide JobIds, BatchOf, TaskFits;
    hide BuildResponse, Closes, SomeFinishing;
    var t := s.pool.workers[i].task;
    var result := BuildResponse(s.world, at, t.request);
    var k := Completion(t.fd, t.id, t.request, result, Closes(t.request, result));
    ThreadPools.PublishKeeps(s.pool, i);
    JobPublished(s.pool.tasks, s.pool.workers, s.completions, s.loop, i, k);
    WorkersFitAfter(s.clients, s.pool.workers, i, ThreadPools.Finishing(t));
    BuiltFits(s.world, s.clients, t, at);
    CompletionsFitMore(s.world, s.clients, s.completions, k);
    NowFinishing(s.pool.workers, i, t);
  }

  lemma SignalledKeeps(s: Server, i: nat)
    requires Inv(s) && i < |s.pool.workers| && s.pool.workers[i].Finishing?
    ensures Inv(Signalled(s, i))
  {
    hide IsPossible, CompletionsFit, TasksFit, ThreadPools.PoolSound, TaskIds, LiveSound, PastSound, OneJobEach;
    hide BatchOf, TaskFits;
    hide SomeFinishing, RunningIds, CompletionIds;
    ThreadPools.FinishKeeps(s.pool, i);
    SameRunningIds(s.pool.workers, i, ThreadPools.Awake);
    WorkersFitAfter(s.clients, s.pool.workers, i, ThreadPools.Awake);
  }

  // ---- All steps ----

  lemma EventKeeps(s: Server, step: Step)
    requires Inv(s) && s.loop.Polling? && LoopEnabled(s, step)
    ensures Inv(HandleEvent(s, step))
  {
    hide Inv, Accepted, Received, Sent, FileSent, FileEnded, Closed;
    hide MaySendFile, AtFileEnd, MayReceive, HasNoResponse;
    match step
    case Accept(fd, now, epollOk) => AcceptedKeeps(s, fd, now, epollOk);
    case Receive(fd, chunk, now, epoll) => ReceiveKeeps(s, fd, chunk, now, epoll);
    case Send(fd, count, now, epoll) => SendKeeps(s, fd, count, now, epoll);
    case SendFile(fd, count, now, epoll) => SendFileKeeps(s, fd, count, now, epoll);
    case FileEnd(fd, now, epoll) => AtEndKeeps(s, fd, now, epoll);
    case Hangup(fd) => ClosedAsItIs(s, fd);
    case HalfClose(fd) => ClosedAsItIs(s, fd);
    case IdleClose(fd, _) => ClosedAsItIs(s, fd);
    case _ =>
  }

  /** Every step of every interleaving keeps the invariant. */
  lemma StepKeeps(s: Server, step: Step)
    requires Inv(s) && Enabled(s, step)
    ensures Inv(Apply(s, step))
  {
    hide Inv, LoopEnabled, HandleEvent, ClientSent, Handed, Published, Signalled, IsPossible;
    hide ThreadPools.NotifyOne, ThreadPools.WakeUp, ThreadPools.Look, ThreadPools.MayNotify;
    match step
    case ClientSends(fd, bytes) => ClientSentKeeps(s, fd, bytes);
    case Drain => DrainKeeps(s);
    case Swap => SwapKeeps(s);
    case DeliverNext(at, epollOk) => HandedKeeps(s, at, epollOk);
    case NotifyOne(i) => NotifyOneServer(s, i);
    case WakeUp(i) => WakeUpServer(s, i);
    case Look(i) => LookServer(s, i);
    case Publish(i, at) => PublishedKeeps(s, i, at);
    case Signal(i) => SignalledKeeps(s, i);
    case _ => EventKeeps(s, step);
  }

  lemma NewServerIsSound(world: World, maxBody: nat, idleTimeout: nat, threadCount: nat, maxQueueSize: nat)
    requires IsPossible(world)
    ensures Inv(NewServer(world, maxBody, idleTimeout, threadCount, maxQueueSize))
  {
    hide IsPossible, ThreadPools.PoolSound, Sound, SoundHistory, TaskFits, CompletionFits, RunningIds, IsLive, HasItsJob;
    hide TaskIds, CompletionIds, SomeFinishing;
    var s := NewServer(world, maxBody, idleTimeout, threadCount, maxQueueSize);
    ThreadPools.NewPoolIsSound<Task>(threadCount, maxQueueSize);
    NobodyRuns(s.pool.workers);
    NothingInFlight(s.pool.workers);
  }

  lemma NothingInFlight(workers: Workers)
    requires forall i :: 0 <= i < |workers| ==> workers[i].Awake?
    ensures JobIds([], workers, [], Polling) == multiset{} && TaskIds([]) == multiset{}
  {
    hide RunningIds;
    NobodyRuns(workers);
  }

  lemma {:induction false} NobodyRuns(workers: Workers)
    requires forall i :: 0 <= i < |workers| ==> workers[i].Awake?
    ensures RunningIds(workers) == multiset{}
  {
    if workers != [] {
      NobodyRuns(workers[..|workers| - 1]);
    }
  }

  lemma {:induction false} RunKeeps(s: Server, steps: seq<Step>)
    requires Inv(s) && IsRun(s, steps)
    ensures Inv(Run(s, steps))
    decreases |steps|
  {
    hide Inv, Enabled, Apply;
    if steps != [] {
      StepKeeps(s, steps[0]);
      RunKeeps(Apply(s, steps[0]), steps[1..]);
    }
  }

  // ---- Reachable states ----

  /** A state some run reaches, in a possible world. */
  ghost predicate Reachable(s: Server) {
    exists maxBody, idleTimeout, threadCount, maxQueueSize, steps ::
      ReachedBy(s, maxBody, idleTimeout, threadCount, maxQueueSize, steps)
  }

  ghost predicate ReachedBy(s: Server, maxBody: nat, idleTimeout: nat, threadCount: nat, maxQueueSize: nat,
                            steps: seq<Step>) {
    var start := NewServer(s.world, maxBody, idleTimeout, threadCount, maxQueueSize);
    IsPossible(s.world) && IsRun(start, steps) && s == Run(start, steps)
  }

  lemma ReachableIsSound(s: Server)
    requires Reachable(s)
    ensures Inv(s)
  {
    hide Inv, IsRun, Run, NewServer, IsPossible;
    var maxBody, idleTimeout, threadCount, maxQueueSize, steps :|
      ReachedBy(s, maxBody, idleTimeout, threadCount, maxQueueSize, steps);
    NewServerIsSound(s.world, maxBody, idleTimeout, threadCount, maxQueueSize);
    RunKeeps(NewServer(s.world, maxBody, idleTimeout, threadCount, maxQueueSize), steps);
  }

  lemma NewIsReachable(world: World, maxBody: nat, idleTimeout: nat, threadCount: nat, maxQueueSize: nat)
    requires IsPossible(world)
    ensures Reachable(NewServer(world, maxBody, idleTimeout, threadCount, maxQueueSize))
  {
    hide IsPossible, ThreadPools.NewPool;
    var s := NewServer(world, maxBody, idleTimeout, threadCount, maxQueueSize);
    assert IsRun(s, []) && Run(s, []) == s;
    assert ReachedBy(s, maxBody, idleTimeout, threadCount, maxQueueSize, []);
  }

  lemma {:induction false} RunAndOne(s: Server, steps: seq<Step>, step: Step)
    requires IsRun(s, steps) && Enabled(Run(s, steps), step)
    ensures IsRun(s, steps + [step]) && Run(s, steps + [step]) == Apply(Run(s, steps), step)
    decreases |steps|
  {
    hide Enabled, Apply;
    var all := steps + [step];
    if steps == [] {
      assert all[0] == step && all[1..] == [];
      assert Run(Apply(s, step), []) == Apply(s, step);
    } else {
      assert all[0] == steps[0] && all[1..] == steps[1..] + [step];
      RunAndOne(Apply(s, steps[0]), steps[1..], step);
    }
  }

  lemma SameWorld(s: Server, step: Step)
    requires Enabled(s, step)
    ensures Apply(s, step).world == s.world
  {
    hide OnChunk, OnSent, OnFileSent, OnFileEnd, Deliver, EmissionOf, BuildResponse, ThreadPools.Push, ThreadPools.Accepts;
    hide Record, AfterRefusal, Refused, FileBytes;
  }

  /** What a step leads to from a reachable state is reachable. */
  lemma ReachableStep(s: Server, step: Step)
    requires Reachable(s) && Enabled(s, step)
    ensures Reachable(Apply(s, step))
  {
    hide Enabled, Apply, IsRun, Run, NewServer, IsPossible;
    var maxBody, idleTimeout, threadCount, maxQueueSize, steps :|
      ReachedBy(s, maxBody, idleTimeout, threadCount, maxQueueSize, steps);
    SameWorld(s, step);
    RunAndOne(NewServer(s.world, maxBody, idleTimeout, threadCount, maxQueueSize), steps, step);
    assert ReachedBy(Apply(s, step), maxBody, idleTimeout, threadCount, maxQueueSize, steps + [step]);
  }

  lemma ReachablePoolStep(s: Server, pool: ThreadPools.Pool<Task>, step: Step)
    requires Reachable(s) && Enabled(s, step) && Apply(s, step) == s.(pool := pool)
    ensures Reachable(s.(pool := pool))
  {
    hide Reachable, Enabled, Apply;
    ReachableStep(s, step);
  }

  lemma ReachableLook(s: Server, i: nat)
    requires Reachable(s) && i < |s.pool.workers| && s.pool.workers[i].Awake?
    ensures Reachable(s.(pool := ThreadPools.Look(s.pool, i)))
  {
    hide Reachable, HandleEvent, LoopEnabled;
    ReachablePoolStep(s, ThreadPools.Look(s.pool, i), Look(i));
  }

  lemma ReachableWakeUp(s: Server, i: nat)
    requires Reachable(s) && i < |s.pool.workers| && s.pool.workers[i].Asleep?
    ensures Reachable(s.(pool := ThreadPools.WakeUp(s.pool, i)))
  {
    hide Reachable, HandleEvent, LoopEnabled;
    ReachablePoolStep(s, ThreadPools.WakeUp(s.pool, i), WakeUp(i));
  }

  lemma ReachableNotifyOne(s: Server, woken: int)
    requires Reachable(s) && ThreadPools.MayNotify(s.pool, woken)
    ensures Reachable(s.(pool := ThreadPools.NotifyOne(s.pool, woken)))
  {
    hide Reachable, HandleEvent, LoopEnabled, ThreadPools.MayNotify;
    ReachablePoolStep(s, ThreadPools.NotifyOne(s.pool, woken), NotifyOne(woken));
  }

  lemma ReachablePublished(s: Server, i: nat, at: nat)
    requires Reachable(s) && i < |s.pool.workers| && s.pool.workers[i].Running?
    ensures Reachable(Published(s, i, at))
  {
    hide Reachable, HandleEvent, LoopEnabled, Published;
    ReachableStep(s, Publish(i, at));
  }

  lemma ReachableSignalled(s: Server, i: nat)
    requires Reachable(s) && i < |s.pool.workers| && s.pool.workers[i].Finishing?
    ensures Reachable(Signalled(s, i))
  {
    hide Reachable, HandleEvent, LoopEnabled, Signalled;
    ReachableStep(s, Signal(i));
  }

  lemma ReachableHanded(s: Server, at: nat, epollOk: bool)
    requires Reachable(s) && s.loop.Delivering? && s.loop.batch != []
    ensures Reachable(Handed(s, at, epollOk))
  {
    hide Reachable, HandleEvent, LoopEnabled, Handed;
    ReachableStep(s, DeliverNext(at, epollOk));
  }

  lemma ReachableDrained(s: Server)
    requires Reachable(s) && !s.loop.Delivering? && s.eventCount > 0
    ensures Reachable(s.(eventCount := 0, loop := Drained))
  {
    hide Reachable, HandleEvent, LoopEnabled;
    ReachableStep(s, Drain);
  }

  lemma ReachableSwapped(s: Server)
    requires Reachable(s) && s.loop.Drained?
    ensures Reachable(s.(completions := [], loop := if s.completions == [] then Polling else Delivering(s.completions)))
  {
    hide Reachable, HandleEvent, LoopEnabled;
    ReachableStep(s, Swap);
  }

  lemma ReachableReceived(s: Server, fd: int, chunk: string, now: nat, epoll: Epoll)
    requires Reachable(s) && s.loop.Polling? && fd in s.connections && s.connections[fd].interest == WantsRead
    requires MayReceive(HistoryOf(s, fd), chunk)
    ensures Reachable(Received(s, fd, chunk, now, epoll))
  {
    hide Reachable, Received, MayReceive;
    ReachableStep(s, Receive(fd, chunk, now, epoll));
  }

  lemma ReachableSent(s: Server, fd: int, count: nat, now: nat, epoll: Epoll)
    requires Reachable(s) && s.loop.Polling? && fd in s.connections && s.connections[fd].interest == WantsWrite
    requires 0 < count <= |s.connections[fd].writeBuffer|
    ensures Reachable(Sent(s, fd, count, now, epoll))
  {
    hide Reachable, Sent;
    ReachableStep(s, Send(fd, count, now, epoll));
  }

  lemma ReachableFileEnded(s: Server, fd: int, now: nat, epoll: Epoll)
    requires Reachable(s) && s.loop.Polling? && fd in s.connections && s.connections[fd].interest == WantsWrite
    requires AtFileEnd(s.connections[fd])
    ensures Reachable(FileEnded(s, fd, now, epoll))
  {
    hide Reachable, FileEnded, AtFileEnd;
    ReachableStep(s, FileEnd(fd, now, epoll));
  }

  lemma ReachableClientSent(s: Server, fd: int, bytes: string)
    requires Reachable(s) && fd in s.connections
    ensures Reachable(ClientSent(s, fd, bytes))
  {
    hide Reachable, HandleEvent, LoopEnabled, ClientSent;
    ReachableStep(s, ClientSends(fd, bytes));
  }
}
