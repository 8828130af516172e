/**
 * The whole server as interleaved atomic steps: the clients that send, the event loop's
 * handlers on any connection, the workers of the pool, and the completions that travel back through a
 * queue and an eventfd.  Descriptors are reused as soon as they are closed; connection
 * ids never are.
 */
module Servers {
  import opened HttpParser
  import opened HttpResponses
  import opened Responder
  import opened Connections
  import opened ConnectionSafety
  import opened ConnectionSteps
  import ThreadPools

  /** What the closure given to the pool captures. */
  datatype Task = Task(fd: int, id: nat, request: Request)

  /** A built response on its way back; the source keeps the request's method and path with it. */
  datatype Completion = Completion(fd: int, id: nat, request: Request, result: Result, close: bool)

  /** Where the loop thread is inside handleCompletionEvent. */
  datatype Loop = Polling | Drained | Delivering(batch: seq<Completion>)

  /** What has happened on a connection id, and the descriptor it was accepted on. */
  datatype Client = Client(fd: int, history: History)

  /**
   * The server.  The last three fields are history: every id ever given out, and the ids of
   * the completions that were delivered to their connection or dropped.
   */
  datatype Server = Server(
    world: World,
    maxBody: nat,
    idleTimeout: nat,
    connections: map<int, Connection>,
    nextId: nat,
    pool: ThreadPools.Pool<Task>,
    completions: seq<Completion>,
    eventCount: nat,
    loop: Loop,
    clients: map<nat, Client>,
    delivered: multiset<nat>,
    dropped: multiset<nat>)

  function NewServer(world: World, maxBody: nat, idleTimeout: nat, threadCount: nat, maxQueueSize: nat): Server {
    Server(world, maxBody, idleTimeout, map[], 1, ThreadPools.NewPool(threadCount, maxQueueSize), [], 0, Polling,
           map[], multiset{}, multiset{})
  }

  /** One recv returns at most this many bytes. */
  const RECV_SIZE: nat := 4096

  /** The eventfd counter saturates: a write that would overflow it changes nothing. */
  const EVENT_LIMIT: nat := 0xffff_ffff_ffff_fffe

  function HistoryOf(s: Server, fd: int): History
    requires fd in s.connections
  {
    var id := s.connections[fd].id;
    if id in s.clients then s.clients[id].history else NO_HISTORY
  }

  function Stored(s: Server, fd: int, c: Connection, h: History): Server {
    s.(connections := s.connections[fd := c], clients := s.clients[c.id := Client(fd, h)])
  }

  /** closeConnection. */
  function Closed(s: Server, fd: int, h: History): Server
    requires fd in s.connections
  {
    s.(connections := s.connections - {fd}, clients := s.clients[s.connections[fd].id := Client(fd, h)])
  }

  /** How the epoll_ctl calls of one handler go: the first, and the second that follows a refusal by the pool. */
  datatype Epoll = Epoll(ok: bool, okAgain: bool)

  /** Where epoll_ctl fails the connection is closed. */
  function Armed(s: Server, fd: int, c: Connection, h: History, epollOk: bool): Server
    requires fd in s.connections
  {
    if epollOk then Stored(s, fd, c, h) else Closed(s, fd, h)
  }

  /** The event loop carries out the reaction of a connection. */
  function React(s: Server, fd: int, h: History, r: Reaction, epoll: Epoll): Server
    requires fd in s.connections
  {
    match r
    case Stay(c) => Stored(s, fd, c, h)
    case Respond(c, _, _) => Armed(s, fd, c, Record(h, r), epoll.ok)
    case Rearm(c) => Armed(s, fd, c, h, epoll.ok)
    case Drop => Closed(s, fd, h)
    case Dispatch(c, request) =>
      if !epoll.ok then Closed(s, fd, Record(h, r))
      else if ThreadPools.Accepts(s.pool) then Enqueued(s, fd, c, Record(h, r), request)
      else Armed(s, fd, Refused(c), AfterRefusal(Record(h, r)), epoll.okAgain)
  }

  function Enqueued(s: Server, fd: int, c: Connection, h: History, request: Request): Server {
    Stored(s, fd, c, h).(pool := ThreadPools.Push(s.pool, Task(fd, c.id, request)))
  }

  datatype Step =
    | ClientSends(fd: int, bytes: string)
    | Accept(fd: int, now: nat, epollOk: bool)
    | Receive(fd: int, chunk: string, now: nat, epoll: Epoll)
    | Send(fd: int, count: nat, now: nat, epoll: Epoll)
    | SendFile(fd: int, count: nat, now: nat, epoll: Epoll)
    | FileEnd(fd: int, now: nat, epoll: Epoll)
    | Hangup(fd: int)
    | HalfClose(fd: int)
    | IdleClose(fd: int, now: nat)
    | Drain
    | Swap
    | DeliverNext(at: nat, epollOk: bool)
    | NotifyOne(woken: int)
    | WakeUp(worker: nat)
    | Look(worker: nat)
    | Publish(worker: nat, at: nat)
    | Signal(worker: nat)

  /** The test shared by the half-close handler and the idle scan. */
  predicate HasNoResponse(c: Connection) {
    !c.responsePending && c.writeBuffer == "" && !c.transfer.Active()
  }

  /** Events the loop may handle now, as epoll and the kernel report them. */
  predicate LoopEnabled(s: Server, step: Step) {
    match step
    case Accept(fd, _, _) => fd !in s.connections
    case Receive(fd, chunk, _, _) =>
      fd in s.connections && s.connections[fd].interest == WantsRead && MayReceive(HistoryOf(s, fd), chunk)
    case Send(fd, count, _, _) =>
      fd in s.connections && s.connections[fd].interest == WantsWrite && 0 < count <= |s.connections[fd].writeBuffer|
    case SendFile(fd, count, _, _) =>
      fd in s.connections && s.connections[fd].interest == WantsWrite && MaySendFile(s.connections[fd], count)
    case FileEnd(fd, _, _) =>
      fd in s.connections && s.connections[fd].interest == WantsWrite && AtFileEnd(s.connections[fd])
    case Hangup(fd) => fd in s.connections
    case HalfClose(fd) => fd in s.connections && HasNoResponse(s.connections[fd])
    case IdleClose(fd, now) =>
      fd in s.connections && HasNoResponse(s.connections[fd]) && now >= s.connections[fd].lastActive + s.idleTimeout
    case _ => false
  }

  /** recv gives the next bytes the client has sent, at most 4096. */
  predicate MayReceive(h: History, chunk: string) {
    0 < |chunk| <= RECV_SIZE && h.received + chunk <= h.sent
  }

  predicate MaySendFile(c: Connection, count: nat) {
    && c.writeBuffer == "" && c.transfer.Active()
    && 0 < count <= c.transfer.size - c.transfer.sent && c.transfer.offset + count <= |c.transfer.file.value|
  }

  predicate AtFileEnd(c: Connection) {
    && c.writeBuffer == "" && c.transfer.Active()
    && c.transfer.offset >= |c.transfer.file.value|
  }

  /** The loop thread handles one event at a time; clients and workers move whenever they like. */
  predicate Enabled(s: Server, step: Step) {
    match step
    case ClientSends(fd, _) => fd in s.connections
    case Drain => !s.loop.Delivering? && s.eventCount > 0
    case Swap => s.loop.Drained?
    case DeliverNext(_, _) => s.loop.Delivering? && s.loop.batch != []
    case NotifyOne(i) => ThreadPools.MayNotify(s.pool, i)
    case WakeUp(i) => i < |s.pool.workers| && s.pool.workers[i].Asleep?
    case Look(i) => i < |s.pool.workers| && s.pool.workers[i].Awake?
    case Publish(i, _) => i < |s.pool.workers| && s.pool.workers[i].Running?
    case Signal(i) => i < |s.pool.workers| && s.pool.workers[i].Finishing?
    case _ => s.loop.Polling? && LoopEnabled(s, step)
  }

  function Accepted(s: Server, fd: int, now: nat, epollOk: bool): Server {
    var s' := s.(nextId := s.nextId + 1, clients := s.clients[s.nextId := Client(fd, NO_HISTORY)]);
    if epollOk then s'.(connections := s.connections[fd := NewConnection(s.nextId, now)]) else s'
  }

  /** A completion is for the connection that has both its descriptor and its id. */
  predicate IsFor(k: Completion, connections: map<int, Connection>) {
    k.fd in connections && connections[k.fd].id == k.id
  }

  function AfterOne(batch: seq<Completion>): Loop
    requires batch != []
  {
    if |batch| == 1 then Polling else Delivering(batch[1..])
  }

  /** The client puts bytes on its way; nobody at the server notices before recv. */
  function ClientSent(s: Server, fd: int, bytes: string): Server
    requires fd in s.connections
  {
    var h := HistoryOf(s, fd);
    Stored(s, fd, s.connections[fd], h.(sent := h.sent + bytes))
  }

  /** One round of the loop in handleCompletionEvent; at that moment the file is opened. */
  function Handed(s: Server, at: nat, epollOk: bool): Server
    requires s.loop.Delivering? && s.loop.batch != []
  {
    var k := s.loop.batch[0];
    if !IsFor(k, s.connections) then s.(loop := AfterOne(s.loop.batch), dropped := s.dropped + multiset{k.id}) else
    var h, content := HistoryOf(s, k.fd), s.world.onDisk(at, k.result.filePath);
    Armed(s, k.fd, Deliver(s.connections[k.fd], k.result, k.close, content),
          h.(emitted := h.emitted + [EmissionOf(k.request, k.result, k.close, content)]), epollOk).(
      loop := AfterOne(s.loop.batch), delivered := s.delivered + multiset{k.id})
  }

  /** The task: build the response and push the completion. */
  function Published(s: Server, i: nat, at: nat): Server
    requires i < |s.pool.workers| && s.pool.workers[i].Running?
  {
    var t := s.pool.workers[i].task;
    var result := BuildResponse(s.world, at, t.request);
    s.(pool := ThreadPools.Publish(s.pool, i),
       completions := s.completions + [Completion(t.fd, t.id, t.request, result, Closes(t.request, result))])
  }

  /** notifyCompletionEvent, the last statement of the task. */
  function Signalled(s: Server, i: nat): Server
    requires i < |s.pool.workers| && s.pool.workers[i].Finishing?
  {
    s.(pool := ThreadPools.Finish(s.pool, i),
       eventCount := if s.eventCount < EVENT_LIMIT then s.eventCount + 1 else s.eventCount)
  }

  function Received(s: Server, fd: int, chunk: string, now: nat, epoll: Epoll): Server
    requires fd in s.connections
  {
    var h := HistoryOf(s, fd);
    React(s, fd, h.(received := h.received + chunk), OnChunk(s.connections[fd], chunk, s.maxBody, now), epoll)
  }

  function Sent(s: Server, fd: int, count: nat, now: nat, epoll: Epoll): Server
    requires fd in s.connections && count <= |s.connections[fd].writeBuffer|
  {
    var h, c := HistoryOf(s, fd), s.connections[fd];
    React(s, fd, h.(wire := h.wire + c.writeBuffer[..count]), OnSent(c, count, s.maxBody, now), epoll)
  }

  function FileSent(s: Server, fd: int, count: nat, now: nat, epoll: Epoll): Server
    requires fd in s.connections && MaySendFile(s.connections[fd], count)
  {
    var h, c := HistoryOf(s, fd), s.connections[fd];
    React(s, fd, h.(wire := h.wire + FileBytes(c.transfer, count)), OnFileSent(c, count, s.maxBody, now), epoll)
  }

  function FileEnded(s: Server, fd: int, now: nat, epoll: Epoll): Server
    requires fd in s.connections
  {
    React(s, fd, HistoryOf(s, fd), OnFileEnd(s.connections[fd], s.maxBody, now), epoll)
  }

  /** What the loop does on one event. */
  function HandleEvent(s: Server, step: Step): Server
    requires LoopEnabled(s, step)
  {
    match step
    case Accept(fd, now, epollOk) => Accepted(s, fd, now, epollOk)
    case Receive(fd, chunk, now, epoll) => Received(s, fd, chunk, now, epoll)
    case Send(fd, count, now, epoll) => Sent(s, fd, count, now, epoll)
    case SendFile(fd, count, now, epoll) => FileSent(s, fd, count, now, epoll)
    case FileEnd(fd, now, epoll) => FileEnded(s, fd, now, epoll)
    case Hangup(fd) => Closed(s, fd, HistoryOf(s, fd))
    case HalfClose(fd) => Closed(s, fd, HistoryOf(s, fd))
    case IdleClose(fd, _) => Closed(s, fd, HistoryOf(s, fd))
    case _ => s
  }

  function Apply(s: Server, step: Step): Server
    requires Enabled(s, step)
  {
    match step
    case ClientSends(fd, bytes) => ClientSent(s, fd, bytes)
    case Drain => s.(eventCount := 0, loop := Drained)
    case Swap => s.(completions := [], loop := if s.completions == [] then Polling else Delivering(s.completions))
    case DeliverNext(at, epollOk) => Handed(s, at, epollOk)
    case NotifyOne(i) => s.(pool := ThreadPools.NotifyOne(s.pool, i))
    case WakeUp(i) => s.(pool := ThreadPools.WakeUp(s.pool, i))
    case Look(i) => s.(pool := ThreadPools.Look(s.pool, i))
    case Publish(i, at) => Published(s, i, at)
    case Signal(i) => Signalled(s, i)
    case _ => HandleEvent(s, step)
  }

  /** A run: each step is enabled where it is taken. */
  predicate IsRun(s: Server, steps: seq<Step>)
    decreases |steps|
  {
    steps == [] || (Enabled(s, steps[0]) && IsRun(Apply(s, steps[0]), steps[1..]))
  }

  function Run(s: Server, steps: seq<Step>): Server
    requires IsRun(s, steps)
    decreases |steps|
  {
    if steps == [] then s else Run(Apply(s, steps[0]), steps[1..])
  }
}
