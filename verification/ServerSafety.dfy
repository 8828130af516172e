/** The invariant of the whole server, and what replacing or closing one connection does to it. */
module ServerSafety {
  import opened Options
  import opened Framing
  import opened Responder
  import opened Connections
  import opened ConnectionSafety
  import opened ConnectionSteps
  import opened Servers
  import ThreadPools

  type Workers = seq<ThreadPools.Worker<Task>>

  function TaskIds(tasks: seq<Task>): multiset<nat> {
    if tasks == [] then multiset{} else TaskIds(tasks[..|tasks| - 1]) + multiset{tasks[|tasks| - 1].id}
  }

  function CompletionIds(completions: seq<Completion>): multiset<nat> {
    if completions == [] then multiset{}
    else CompletionIds(completions[..|completions| - 1]) + multiset{completions[|completions| - 1].id}
  }

  function RunningId(w: ThreadPools.Worker<Task>): multiset<nat> {
    if w.Running? then multiset{w.task.id} else multiset{}
  }

  /** The ids of tasks that run and have not pushed their completion. */
  function RunningIds(workers: Workers): multiset<nat> {
    if workers == [] then multiset{}
    else RunningIds(workers[..|workers| - 1]) + RunningId(workers[|workers| - 1])
  }

  function BatchOf(loop: Loop): seq<Completion> {
    if loop.Delivering? then loop.batch else []
  }

  /** The ids of all jobs in flight: queued, running, completed, or about to be delivered. */
  function JobIds(tasks: seq<Task>, workers: Workers, completions: seq<Completion>, loop: Loop): multiset<nat> {
    TaskIds(tasks) + RunningIds(workers) + CompletionIds(completions) + CompletionIds(BatchOf(loop))
  }

  function Jobs(s: Server): multiset<nat> {
    JobIds(s.pool.tasks, s.pool.workers, s.completions, s.loop)
  }

  predicate IsAt(clients: map<nat, Client>, id: nat, fd: int) {
    id in clients && clients[id].fd == fd
  }

  /** A job still carries the descriptor its id was accepted on and the last request framed on it. */
  predicate TaskFits(clients: map<nat, Client>, t: Task) {
    IsAt(clients, t.id, t.fd) && Asked(clients[t.id].history) == Some(t.request)
  }

  ghost predicate CompletionFits(w: World, clients: map<nat, Client>, k: Completion) {
    && IsAt(clients, k.id, k.fd) && Asked(clients[k.id].history) == Some(k.request)
    && BuiltFor(w, k.request, k.result) && k.close == Closes(k.request, k.result)
  }

  predicate TasksFit(clients: map<nat, Client>, tasks: seq<Task>) {
    forall i :: 0 <= i < |tasks| ==> TaskFits(clients, tasks[i])
  }

  predicate WorkersFit(clients: map<nat, Client>, workers: Workers) {
    forall i :: 0 <= i < |workers| && workers[i].Running? ==> TaskFits(clients, workers[i].task)
  }

  ghost predicate CompletionsFit(w: World, clients: map<nat, Client>, completions: seq<Completion>) {
    forall i :: 0 <= i < |completions| ==> CompletionFits(w, clients, completions[i])
  }

  ghost predicate JobsFit(w: World, clients: map<nat, Client>, tasks: seq<Task>, workers: Workers,
                          completions: seq<Completion>, loop: Loop)
  {
    && TasksFit(clients, tasks) && WorkersFit(clients, workers)
    && CompletionsFit(w, clients, completions) && CompletionsFit(w, clients, BatchOf(loop))
  }

  ghost predicate IsLive(w: World, clients: map<nat, Client>, fd: int, c: Connection, maxBody: nat) {
    IsAt(clients, c.id, fd) && Sound(w, c, clients[c.id].history, maxBody)
  }

  ghost predicate LiveSound(w: World, connections: map<int, Connection>, clients: map<nat, Client>, maxBody: nat) {
    forall fd :: fd in connections ==> IsLive(w, clients, fd, connections[fd], maxBody)
  }

  ghost predicate PastSound(w: World, clients: map<nat, Client>, nextId: nat, maxBody: nat) {
    forall id :: id in clients ==> id < nextId && SoundHistory(w, clients[id].history, maxBody)
  }

  predicate HasItsJob(c: Connection, jobs: multiset<nat>, dropped: multiset<nat>) {
    jobs[c.id] == (if c.responsePending then 1 else 0) && dropped[c.id] == 0
  }

  /** No id has two jobs; a live connection has one exactly while it is pending, and none was dropped. */
  ghost predicate OneJobEach(jobs: multiset<nat>, dropped: multiset<nat>, connections: map<int, Connection>, nextId: nat) {
    && (forall id: nat :: jobs[id] <= 1)
    && (forall id: nat :: id >= nextId ==> jobs[id] == 0 && dropped[id] == 0)
    && (forall fd :: fd in connections ==> HasItsJob(connections[fd], jobs, dropped))
  }

  predicate SomeFinishing(workers: Workers) {
    exists i :: 0 <= i < |workers| && workers[i].Finishing?
  }

  /** A waiting completion has been announced, or is about to be, or is about to be fetched. */
  predicate NotStranded(completions: seq<Completion>, eventCount: nat, workers: Workers, loop: Loop) {
    completions != [] ==> eventCount > 0 || SomeFinishing(workers) || loop.Drained?
  }

  ghost predicate Inv(s: Server) {
    && IsPossible(s.world)
    && LiveSound(s.world, s.connections, s.clients, s.maxBody)
    && PastSound(s.world, s.clients, s.nextId, s.maxBody)
    && OneJobEach(Jobs(s), s.dropped, s.connections, s.nextId)
    && JobsFit(s.world, s.clients, s.pool.tasks, s.pool.workers, s.completions, s.loop)
    && TaskIds(s.pool.accepted) == Jobs(s) + s.delivered + s.dropped
    && NotStranded(s.completions, s.eventCount, s.pool.workers, s.loop)
    && ThreadPools.PoolSound(s.pool)
    && (s.loop.Delivering? ==> s.loop.batch != [])
  }

  // ---- Who holds a job ----

  lemma {:induction false} TaskIdsAppend(tasks: seq<Task>, t: Task)
    ensures TaskIds(tasks + [t]) == TaskIds(tasks) + multiset{t.id}
  {
    assert (tasks + [t])[..|tasks|] == tasks;
  }

  lemma {:induction false} CompletionIdsAppend(completions: seq<Completion>, k: Completion)
    ensures CompletionIds(completions + [k]) == CompletionIds(completions) + multiset{k.id}
  {
    assert (completions + [k])[..|completions|] == completions;
  }

  lemma {:induction false} TaskIdsFirst(tasks: seq<Task>)
    requires tasks != []
    ensures TaskIds(tasks) == multiset{tasks[0].id} + TaskIds(tasks[1..])
  {
    var last := |tasks| - 1;
    if last > 0 {
      TaskIdsFirst(tasks[..last]);
      assert tasks[..last][1..] == tasks[1..][..last - 1];
      assert tasks[1..][|tasks[1..]| - 1] == tasks[last];
    }
  }

  lemma {:induction false} CompletionIdsFirst(completions: seq<Completion>)
    requires completions != []
    ensures CompletionIds(completions) == multiset{completions[0].id} + CompletionIds(completions[1..])
  {
    var last := |completions| - 1;
    if last > 0 {
      CompletionIdsFirst(completions[..last]);
      assert completions[..last][1..] == completions[1..][..last - 1];
      assert completions[1..][|completions[1..]| - 1] == completions[last];
    }
  }

  lemma Exchange(a: multiset<nat>, b: multiset<nat>, c: multiset<nat>, d: multiset<nat>)
    requires b <= a
    ensures (a - b + c) + d == (a + d) - b + c && b <= a + d
  {
  }

  lemma {:induction false} RunningIdsAfter(workers: Workers, i: nat, w: ThreadPools.Worker<Task>)
    requires i < |workers|
    ensures RunningId(workers[i]) <= RunningIds(workers)
    ensures RunningIds(workers[i := w]) == RunningIds(workers) - RunningId(workers[i]) + RunningId(w)
    decreases |workers|
  {
    hide RunningId;
    var front, last := workers[..|workers| - 1], |workers| - 1;
    if i == last {
      assert workers[i := w][..last] == front;
    } else {
      assert workers[i := w][..last] == front[i := w];
      RunningIdsAfter(front, i, w);
      Exchange(RunningIds(front), RunningId(workers[i]), RunningId(w), RunningId(workers[last]));
    }
  }

  lemma SameRunningIds(workers: Workers, i: nat, w: ThreadPools.Worker<Task>)
    requires i < |workers| && RunningId(w) == RunningId(workers[i])
    ensures RunningIds(workers[i := w]) == RunningIds(workers)
  {
    hide RunningId, RunningIds;
    RunningIdsAfter(workers, i, w);
  }

  lemma {:induction false} TaskHolds(tasks: seq<Task>, i: nat)
    requires i < |tasks|
    ensures tasks[i].id in TaskIds(tasks)
    decreases |tasks|
  {
    if i < |tasks| - 1 {
      TaskHolds(tasks[..|tasks| - 1], i);
    }
  }

  lemma {:induction false} CompletionHolds(completions: seq<Completion>, i: nat)
    requires i < |completions|
    ensures completions[i].id in CompletionIds(completions)
    decreases |completions|
  {
    if i < |completions| - 1 {
      CompletionHolds(completions[..|completions| - 1], i);
    }
  }

  lemma RunnerHolds(workers: Workers, i: nat)
    requires i < |workers| && workers[i].Running?
    ensures workers[i].task.id in RunningIds(workers)
  {
    hide RunningIds;
    RunningIdsAfter(workers, i, workers[i]);
    assert workers[i].task.id in RunningId(workers[i]);
  }

  // ---- Changing one client ----

  /** The entry of an id may change if the id keeps its descriptor and request, or has no job. */
  predicate KeepsJobs(clients: map<nat, Client>, id: nat, k: Client, jobs: multiset<nat>) {
    id !in jobs || (id in clients && clients[id].fd == k.fd && Asked(clients[id].history) == Asked(k.history))
  }

  lemma TaskStillFits(clients: map<nat, Client>, id: nat, k: Client, jobs: multiset<nat>, t: Task)
    requires KeepsJobs(clients, id, k, jobs) && t.id in jobs && TaskFits(clients, t)
    ensures TaskFits(clients[id := k], t)
  {
    hide Asked;
  }

  lemma CompletionStillFits(w: World, clients: map<nat, Client>, id: nat, k: Client, jobs: multiset<nat>, done: Completion)
    requires KeepsJobs(clients, id, k, jobs) && done.id in jobs && CompletionFits(w, clients, done)
    ensures CompletionFits(w, clients[id := k], done)
  {
    hide Asked, BuiltFor, Closes;
  }

  lemma CompletionsStillFit(w: World, clients: map<nat, Client>, id: nat, k: Client, jobs: multiset<nat>,
                            completions: seq<Completion>)
    requires KeepsJobs(clients, id, k, jobs) && CompletionIds(completions) <= jobs && CompletionsFit(w, clients, completions)
    ensures CompletionsFit(w, clients[id := k], completions)
  {
    hide KeepsJobs, CompletionFits, CompletionIds;
    forall i | 0 <= i < |completions| ensures CompletionFits(w, clients[id := k], completions[i]) {
      CompletionHolds(completions, i);
      CompletionStillFits(w, clients, id, k, jobs, completions[i]);
    }
  }

  lemma TasksStillFit(clients: map<nat, Client>, id: nat, k: Client, jobs: multiset<nat>, tasks: seq<Task>)
    requires KeepsJobs(clients, id, k, jobs) && TaskIds(tasks) <= jobs && TasksFit(clients, tasks)
    ensures TasksFit(clients[id := k], tasks)
  {
    hide KeepsJobs, TaskFits, TaskIds;
    forall i | 0 <= i < |tasks| ensures TaskFits(clients[id := k], tasks[i]) {
      TaskHolds(tasks, i);
      TaskStillFits(clients, id, k, jobs, tasks[i]);
    }
  }

  lemma WorkersStillFit(clients: map<nat, Client>, id: nat, k: Client, jobs: multiset<nat>, workers: Workers)
    requires KeepsJobs(clients, id, k, jobs) && RunningIds(workers) <= jobs && WorkersFit(clients, workers)
    ensures WorkersFit(clients[id := k], workers)
  {
    hide KeepsJobs, TaskFits, RunningIds;
    forall i | 0 <= i < |workers| && workers[i].Running? ensures TaskFits(clients[id := k], workers[i].task) {
      RunnerHolds(workers, i);
      TaskStillFits(clients, id, k, jobs, workers[i].task);
    }
  }

  lemma JobsStillFit(w: World, clients: map<nat, Client>, id: nat, k: Client,
                     tasks: seq<Task>, workers: Workers, completions: seq<Completion>, loop: Loop)
    requires JobsFit(w, clients, tasks, workers, completions, loop)
    requires KeepsJobs(clients, id, k, JobIds(tasks, workers, completions, loop))
    ensures JobsFit(w, clients[id := k], tasks, workers, completions, loop)
  {
    hide KeepsJobs, TasksFit, WorkersFit, CompletionsFit, TaskIds, RunningIds, CompletionIds, BatchOf;
    var jobs := JobIds(tasks, workers, completions, loop);
    TasksStillFit(clients, id, k, jobs, tasks);
    WorkersStillFit(clients, id, k, jobs, workers);
    CompletionsStillFit(w, clients, id, k, jobs, completions);
    CompletionsStillFit(w, clients, id, k, jobs, BatchOf(loop));
  }

  /** Connections keep their soundness when the entry of somebody else, or their own, is replaced. */
  lemma LiveStored(w: World, connections: map<int, Connection>, clients: map<nat, Client>, fd: int, c: Connection,
                   h: History, maxBody: nat)
    requires LiveSound(w, connections, clients, maxBody) && Sound(w, c, h, maxBody)
    requires c.id in clients ==> clients[c.id].fd == fd
    ensures LiveSound(w, connections[fd := c], clients[c.id := Client(fd, h)], maxBody)
  {
    hide Sound;
    var clients', connections' := clients[c.id := Client(fd, h)], connections[fd := c];
    forall other | other in connections' ensures IsLive(w, clients', other, connections'[other], maxBody) {
      if other != fd {
        assert IsLive(w, clients, other, connections[other], maxBody);
      }
    }
  }

  lemma LiveClosed(w: World, connections: map<int, Connection>, clients: map<nat, Client>, fd: int, id: nat,
                   h: History, maxBody: nat)
    requires LiveSound(w, connections, clients, maxBody)
    requires id in clients ==> clients[id].fd == fd
    ensures LiveSound(w, connections - {fd}, clients[id := Client(fd, h)], maxBody)
  {
    hide Sound;
    var clients', connections' := clients[id := Client(fd, h)], connections - {fd};
    forall other | other in connections' ensures IsLive(w, clients', other, connections'[other], maxBody) {
      assert IsLive(w, clients, other, connections[other], maxBody);
    }
  }

  lemma PastStored(w: World, clients: map<nat, Client>, nextId: nat, id: nat, k: Client, maxBody: nat)
    requires PastSound(w, clients, nextId, maxBody) && SoundHistory(w, k.history, maxBody) && id < nextId
    ensures PastSound(w, clients[id := k], nextId, maxBody)
  {
    hide SoundHistory;
  }

  /** Each id is live on one descriptor only. */
  lemma JobsOfOthers(w: World, connections: map<int, Connection>, clients: map<nat, Client>, maxBody: nat, fd: int,
                     other: int)
    requires LiveSound(w, connections, clients, maxBody) && fd in connections && other in connections && fd != other
    ensures connections[fd].id != connections[other].id
  {
    hide Sound;
    assert IsLive(w, clients, fd, connections[fd], maxBody);
    assert IsLive(w, clients, other, connections[other], maxBody);
  }

  lemma LiveIsAt(s: Server, fd: int)
    requires Inv(s) && fd in s.connections
    ensures var c := s.connections[fd];
            && IsAt(s.clients, c.id, fd) && s.clients[c.id].history == HistoryOf(s, fd)
            && Sound(s.world, c, HistoryOf(s, fd), s.maxBody) && c.id < s.nextId
            && HasItsJob(c, Jobs(s), s.dropped)
  {
    hide IsPossible, Sound, Jobs, HasItsJob, JobsFit, NotStranded, ThreadPools.PoolSound, SoundHistory, TaskIds;
    assert IsLive(s.world, s.clients, fd, s.connections[fd], s.maxBody);
  }

  /** Bytes a client sends are nobody's business until recv. */
  lemma MoreSentIsSound(w: World, c: Connection, h: History, bytes: string, maxBody: nat)
    requires Sound(w, c, h, maxBody)
    ensures Sound(w, c, h.(sent := h.sent + bytes), maxBody)
  {
    hide Answers, BatchFrames, Cuts, IsShort, Payloads, NoCloseBefore;
  }

  lemma ClientSentKeeps(s: Server, fd: int, bytes: string)
    requires Inv(s) && fd in s.connections
    ensures Inv(ClientSent(s, fd, bytes))
  {
    hide IsPossible, Sound, JobsFit, NotStranded, ThreadPools.PoolSound, SoundHistory, TaskIds, LiveSound, PastSound, JobIds;
    hide OneJobEach;
    LiveIsAt(s, fd);
    var c, h := s.connections[fd], HistoryOf(s, fd);
    var h' := h.(sent := h.sent + bytes);
    MoreSentIsSound(s.world, c, h, bytes, s.maxBody);
    LiveStored(s.world, s.connections, s.clients, fd, c, h', s.maxBody);
    SoundGivesHistory(s.world, c, h', s.maxBody);
    PastStored(s.world, s.clients, s.nextId, c.id, Client(fd, h'), s.maxBody);
    JobsStillFit(s.world, s.clients, c.id, Client(fd, h'), s.pool.tasks, s.pool.workers, s.completions, s.loop);
    assert s.connections[fd := c] == s.connections;
  }

  /** A connection that is not pending may go on with any sound state of its own. */
  lemma StoredKeeps(s: Server, fd: int, c: Connection, h: History)
    requires Inv(s) && fd in s.connections && !s.connections[fd].responsePending
    requires c.id == s.connections[fd].id && !c.responsePending && Sound(s.world, c, h, s.maxBody)
    ensures Inv(Stored(s, fd, c, h))
  {
    hide IsPossible, Sound, JobsFit, NotStranded, ThreadPools.PoolSound, SoundHistory, TaskIds, LiveSound, PastSound, JobIds;
    hide Asked;
    LiveIsAt(s, fd);
    LiveStored(s.world, s.connections, s.clients, fd, c, h, s.maxBody);
    SoundGivesHistory(s.world, c, h, s.maxBody);
    PastStored(s.world, s.clients, s.nextId, c.id, Client(fd, h), s.maxBody);
    JobsStillFit(s.world, s.clients, c.id, Client(fd, h), s.pool.tasks, s.pool.workers, s.completions, s.loop);
    assert OneJobEach(Jobs(s), s.dropped, s.connections[fd := c], s.nextId);
  }

  /** Any connection may be closed at any time; its job, if it has one, goes on. */
  lemma ClosedKeeps(s: Server, fd: int, h: History)
    requires Inv(s) && fd in s.connections && SoundHistory(s.world, h, s.maxBody)
    requires s.connections[fd].responsePending ==> Asked(h) == Asked(HistoryOf(s, fd))
    ensures Inv(Closed(s, fd, h))
  {
    hide IsPossible, Sound, JobsFit, NotStranded, ThreadPools.PoolSound, SoundHistory, TaskIds, LiveSound, PastSound, JobIds;
    hide Asked;
    LiveIsAt(s, fd);
    var id := s.connections[fd].id;
    LiveClosed(s.world, s.connections, s.clients, fd, id, h, s.maxBody);
    PastStored(s.world, s.clients, s.nextId, id, Client(fd, h), s.maxBody);
    JobsStillFit(s.world, s.clients, id, Client(fd, h), s.pool.tasks, s.pool.workers, s.completions, s.loop);
    assert OneJobEach(Jobs(s), s.dropped, s.connections - {fd}, s.nextId);
  }

  lemma ClosedAsItIs(s: Server, fd: int)
    requires Inv(s) && fd in s.connections
    ensures Inv(Closed(s, fd, HistoryOf(s, fd)))
  {
    hide Inv, Sound, Closed, SoundHistory, Asked;
    LiveIsAt(s, fd);
    SoundGivesHistory(s.world, s.connections[fd], HistoryOf(s, fd), s.maxBody);
    ClosedKeeps(s, fd, HistoryOf(s, fd));
  }
}
