/**
 * The worker pool as interleaved atomic steps: the critical sections of enqueue,
 * workerLoop and the destructor, the waits on the condition variable, and the
 * notifications that are issued after the lock has been released.
 */
module ThreadPools {
  import opened Options

  /** Where a worker is: blocked, about to look at the queue, inside a task, or gone. */
  datatype Worker<T> = Asleep | Awake | Running(task: T) | Finishing(task: T) | Exited

  /**
   * The pool.  `notifies` counts tasks pushed whose notify_one is still to come and
   * `notifyAll` says that the destructor's notify_all is still to come.  The last three
   * fields are history: tasks accepted, started and finished.
   */
  datatype Pool<T> = Pool(
    tasks: seq<T>,
    workers: seq<Worker<T>>,
    maxQueueSize: nat,
    stopping: bool,
    notifies: nat,
    notifyAll: bool,
    accepted: seq<T>,
    started: seq<T>,
    finished: multiset<T>)

  function AllAwake<T>(count: nat): (w: seq<Worker<T>>)
    ensures |w| == count && forall i :: 0 <= i < count ==> w[i] == Awake
  {
    if count == 0 then [] else AllAwake(count - 1) + [Awake]
  }

  /** The constructor: at least one worker and room for at least one task. */
  function NewPool<T>(threadCount: nat, maxQueueSize: nat): Pool<T> {
    Pool([], AllAwake(if threadCount < 1 then 1 else threadCount), if maxQueueSize < 1 then 1 else maxQueueSize,
         false, 0, false, [], [], multiset{})
  }

  predicate Accepts<T>(p: Pool<T>) { !p.stopping && |p.tasks| < p.maxQueueSize }

  /** The critical section of enqueue. */
  function Push<T>(p: Pool<T>, task: T): Pool<T> {
    if Accepts(p)
    then p.(tasks := p.tasks + [task], accepted := p.accepted + [task], notifies := p.notifies + 1)
    else p
  }

  predicate SomeAsleep<T>(p: Pool<T>) { exists i :: 0 <= i < |p.workers| && p.workers[i].Asleep? }

  /** notify_one wakes the chosen sleeper; with nobody asleep it is lost. */
  predicate MayNotify<T>(p: Pool<T>, i: int) {
    p.notifies > 0 && if SomeAsleep(p) then 0 <= i < |p.workers| && p.workers[i].Asleep? else true
  }

  function NotifyOne<T>(p: Pool<T>, i: int): Pool<T>
    requires MayNotify(p, i)
  {
    if SomeAsleep(p) then p.(workers := p.workers[i := Awake], notifies := p.notifies - 1)
    else p.(notifies := p.notifies - 1)
  }

  predicate IsWorker<T>(p: Pool<T>, i: nat) { i < |p.workers| }

  /** A wakeup without notification. */
  function WakeUp<T>(p: Pool<T>, i: nat): Pool<T>
    requires IsWorker(p, i) && p.workers[i].Asleep?
  {
    p.(workers := p.workers[i := Awake])
  }

  /** The critical section of workerLoop: leave, take the oldest task, or go to sleep. */
  function Look<T>(p: Pool<T>, i: nat): Pool<T>
    requires IsWorker(p, i) && p.workers[i].Awake?
  {
    if p.tasks == [] then p.(workers := p.workers[i := if p.stopping then Exited else Asleep])
    else p.(workers := p.workers[i := Running(p.tasks[0])], tasks := p.tasks[1..], started := p.started + [p.tasks[0]])
  }

  /** The task has had its effect; its last statement is still to come. */
  function Publish<T>(p: Pool<T>, i: nat): Pool<T>
    requires IsWorker(p, i) && p.workers[i].Running?
  {
    p.(workers := p.workers[i := Finishing(p.workers[i].task)])
  }

  /** The task returns, or throws and is caught. */
  function Finish<T>(p: Pool<T>, i: nat): Pool<T>
    requires IsWorker(p, i) && p.workers[i].Finishing?
  {
    p.(workers := p.workers[i := Awake], finished := p.finished + multiset{p.workers[i].task})
  }

  /** The critical section of the destructor. */
  function Stop<T>(p: Pool<T>): Pool<T> {
    p.(stopping := true, notifyAll := true)
  }

  function WakeAll<T>(workers: seq<Worker<T>>): (r: seq<Worker<T>>)
    ensures |r| == |workers|
    ensures forall i :: 0 <= i < |r| ==> r[i] == if workers[i].Asleep? then Awake else workers[i]
  {
    if workers == [] then []
    else WakeAll(workers[..|workers| - 1])
         + [if workers[|workers| - 1].Asleep? then Awake else workers[|workers| - 1]]
  }

  function NotifyAll<T>(p: Pool<T>): Pool<T>
    requires p.notifyAll
  {
    p.(workers := WakeAll(p.workers), notifyAll := false)
  }

  /** The destructor's joins have all returned. */
  predicate Joined<T>(p: Pool<T>) {
    p.stopping && forall i :: 0 <= i < |p.workers| ==> p.workers[i].Exited?
  }

  datatype Step<T> =
    | DoPush(task: T) | DoNotifyOne(woken: int) | DoWakeUp(worker: nat) | DoLook(worker: nat)
    | DoPublish(worker: nat) | DoFinish(worker: nat) | DoStop | DoNotifyAll

  predicate Enabled<T>(p: Pool<T>, step: Step<T>) {
    match step
    case DoPush(_) => true
    case DoNotifyOne(i) => MayNotify(p, i)
    case DoWakeUp(i) => IsWorker(p, i) && p.workers[i].Asleep?
    case DoLook(i) => IsWorker(p, i) && p.workers[i].Awake?
    case DoPublish(i) => IsWorker(p, i) && p.workers[i].Running?
    case DoFinish(i) => IsWorker(p, i) && p.workers[i].Finishing?
    case DoStop => true
    case DoNotifyAll => p.notifyAll
  }

  function Apply<T>(p: Pool<T>, step: Step<T>): Pool<T>
    requires Enabled(p, step)
  {
    match step
    case DoPush(task) => Push(p, task)
    case DoNotifyOne(i) => NotifyOne(p, i)
    case DoWakeUp(i) => WakeUp(p, i)
    case DoLook(i) => Look(p, i)
    case DoPublish(i) => Publish(p, i)
    case DoFinish(i) => Finish(p, i)
    case DoStop => Stop(p)
    case DoNotifyAll => NotifyAll(p)
  }

  /** Workers about to look at the queue. */
  function AwakeCount<T>(workers: seq<Worker<T>>): nat {
    if workers == [] then 0
    else AwakeCount(workers[..|workers| - 1]) + if workers[|workers| - 1].Awake? then 1 else 0
  }

  function TaskOf<T>(w: Worker<T>): multiset<T> {
    if w.Running? || w.Finishing? then multiset{w.task} else multiset{}
  }

  /** The tasks workers are inside of. */
  function InHand<T>(workers: seq<Worker<T>>): multiset<T> {
    if workers == [] then multiset{} else InHand(workers[..|workers| - 1]) + TaskOf(workers[|workers| - 1])
  }

  /** How many steps a worker is away from its exit. */
  function StepsLeft<T>(w: Worker<T>): nat {
    match w
    case Asleep => 0
    case Awake => 1
    case Running(_) => 3
    case Finishing(_) => 2
    case Exited => 0
  }

  function AllStepsLeft<T>(workers: seq<Worker<T>>): nat {
    if workers == [] then 0 else AllStepsLeft(workers[..|workers| - 1]) + StepsLeft(workers[|workers| - 1])
  }

  lemma {:induction false} AwakeAfter<T>(workers: seq<Worker<T>>, i: nat, w: Worker<T>)
    requires i < |workers|
    ensures AwakeCount(workers[i := w]) + (if workers[i].Awake? then 1 else 0)
         == AwakeCount(workers) + (if w.Awake? then 1 else 0)
    decreases |workers|
  {
    var front, last := workers[..|workers| - 1], |workers| - 1;
    if i == last {
      assert workers[i := w][..last] == front;
    } else {
      assert workers[i := w][..last] == front[i := w];
      AwakeAfter(front, i, w);
    }
  }

  lemma {:induction false} StepsLeftAfter<T>(workers: seq<Worker<T>>, i: nat, w: Worker<T>)
    requires i < |workers|
    ensures AllStepsLeft(workers[i := w]) + StepsLeft(workers[i]) == AllStepsLeft(workers) + StepsLeft(w)
    decreases |workers|
  {
    hide StepsLeft;
    var front, last := workers[..|workers| - 1], |workers| - 1;
    if i == last {
      assert workers[i := w][..last] == front;
    } else {
      assert workers[i := w][..last] == front[i := w];
      StepsLeftAfter(front, i, w);
    }
  }

  lemma Exchange<T>(a: multiset<T>, b: multiset<T>, c: multiset<T>, d: multiset<T>)
    requires b <= a
    ensures (a - b + c) + d == (a + d) - b + c && b <= a + d
  {
  }

  /** Worker i puts down the task it is inside of and takes up that of its new state. */
  lemma {:induction false} InHandAfter<T>(workers: seq<Worker<T>>, i: nat, w: Worker<T>)
    requires i < |workers|
    ensures TaskOf(workers[i]) <= InHand(workers)
    ensures InHand(workers[i := w]) == InHand(workers) - TaskOf(workers[i]) + TaskOf(w)
    decreases |workers|
  {
    hide TaskOf;
    var front, last := workers[..|workers| - 1], |workers| - 1;
    if i == last {
      assert workers[i := w][..last] == front;
    } else {
      assert workers[i := w][..last] == front[i := w];
      InHandAfter(front, i, w);
      Exchange(InHand(front), TaskOf(workers[i]), TaskOf(w), TaskOf(workers[last]));
    }
  }

  lemma SameInHand<T>(workers: seq<Worker<T>>, i: nat, w: Worker<T>)
    requires i < |workers| && TaskOf(workers[i]) == TaskOf(w)
    ensures InHand(workers[i := w]) == InHand(workers)
  {
    hide TaskOf;
    InHandAfter(workers, i, w);
  }

  lemma PickedUp<T>(workers: seq<Worker<T>>, i: nat, task: T)
    requires i < |workers| && workers[i].Awake?
    ensures InHand(workers[i := Running(task)]) == InHand(workers) + multiset{task}
  {
    InHandAfter(workers, i, Running(task));
  }

  lemma PutDown<T>(workers: seq<Worker<T>>, i: nat)
    requires i < |workers| && workers[i].Finishing?
    ensures InHand(workers[i := Awake]) + multiset{workers[i].task} == InHand(workers)
  {
    InHandAfter(workers, i, Awake);
  }

  /** What every state of the pool keeps. */
  ghost predicate PoolSound<T>(p: Pool<T>) {
    && |p.workers| >= 1 && |p.tasks| <= p.maxQueueSize && p.maxQueueSize >= 1
    && p.accepted == p.started + p.tasks
    && multiset(p.started) == InHand(p.workers) + p.finished
    && (forall i :: 0 <= i < |p.workers| && p.workers[i].Exited? ==> p.stopping && p.tasks == [])
    && (SomeAsleep(p) ==> |p.tasks| <= p.notifies + AwakeCount(p.workers))
    && (p.notifyAll ==> p.stopping)
    && (p.stopping && !p.notifyAll ==> !SomeAsleep(p))
  }

  lemma {:induction false} AllAwakeCounts<T>(count: nat)
    ensures InHand(AllAwake<T>(count)) == multiset{}
  {
    if count > 0 {
      assert AllAwake<T>(count)[..count - 1] == AllAwake<T>(count - 1);
      AllAwakeCounts<T>(count - 1);
    }
  }

  lemma NewPoolIsSound<T>(threadCount: nat, maxQueueSize: nat)
    ensures PoolSound(NewPool<T>(threadCount, maxQueueSize))
  {
    AllAwakeCounts<T>(if threadCount < 1 then 1 else threadCount);
    assert multiset(NewPool<T>(threadCount, maxQueueSize).started) == multiset{};
  }

  lemma PushKeeps<T>(p: Pool<T>, task: T)
    requires PoolSound(p)
    ensures PoolSound(Push(p, task))
  {
    hide InHand, AwakeCount;
    assert p.accepted + [task] == p.started + (p.tasks + [task]);
  }

  /** Only worker i changes, from w to w'. */
  lemma SleepersAfter<T>(p: Pool<T>, p': Pool<T>, i: nat, w: Worker<T>)
    requires IsWorker(p, i) && p'.workers == p.workers[i := w]
    ensures !w.Asleep? && SomeAsleep(p') ==> SomeAsleep(p)
    ensures !SomeAsleep(p) && !w.Asleep? ==> !SomeAsleep(p')
  {
  }

  lemma NotifyOneKeeps<T>(p: Pool<T>, i: int)
    requires PoolSound(p) && MayNotify(p, i)
    ensures PoolSound(NotifyOne(p, i))
  {
    hide InHand, AwakeCount, SomeAsleep;
    if SomeAsleep(p) {
      assert MayNotify(p, i);
      MayNotifyIsSleeper(p, i);
      AwakeAfter(p.workers, i, Awake);
      SameInHand(p.workers, i, Awake);
      SleepersAfter(p, NotifyOne(p, i), i, Awake);
    } else {
      StillNoSleeper(p, NotifyOne(p, i));
    }
  }

  lemma MayNotifyIsSleeper<T>(p: Pool<T>, i: int)
    requires MayNotify(p, i) && SomeAsleep(p)
    ensures 0 <= i < |p.workers| && p.workers[i].Asleep?
  {
  }

  lemma StillNoSleeper<T>(p: Pool<T>, p': Pool<T>)
    requires p.workers == p'.workers
    ensures SomeAsleep(p) == SomeAsleep(p')
  {
  }

  lemma WakeUpKeeps<T>(p: Pool<T>, i: nat)
    requires PoolSound(p) && IsWorker(p, i) && p.workers[i].Asleep?
    ensures PoolSound(WakeUp(p, i))
  {
    hide InHand, AwakeCount, SomeAsleep;
    SleeperIsSome(p, i);
    AwakeAfter(p.workers, i, Awake);
    SameInHand(p.workers, i, Awake);
    SleepersAfter(p, WakeUp(p, i), i, Awake);
  }

  lemma SleeperIsSome<T>(p: Pool<T>, i: nat)
    requires IsWorker(p, i) && p.workers[i].Asleep?
    ensures SomeAsleep(p)
  {
  }

  lemma FindsNothing<T>(p: Pool<T>, i: nat)
    requires PoolSound(p) && IsWorker(p, i) && p.workers[i].Awake? && p.tasks == []
    ensures PoolSound(Look(p, i))
  {
    hide InHand, AwakeCount, SomeAsleep;
    var p' := Look(p, i);
    AwakeAfter(p.workers, i, p'.workers[i]);
    SleepersAfter(p, p', i, p'.workers[i]);
    SameInHand(p.workers, i, p'.workers[i]);
  }

  lemma TakesOldest<T>(p: Pool<T>, i: nat)
    requires PoolSound(p) && IsWorker(p, i) && p.workers[i].Awake? && p.tasks != []
    ensures PoolSound(Look(p, i))
  {
    hide InHand, AwakeCount, SomeAsleep, TaskOf;
    var p', task := Look(p, i), p.tasks[0];
    AwakeAfter(p.workers, i, Running(task));
    SleepersAfter(p, p', i, Running(task));
    PickedUp(p.workers, i, task);
    assert p'.accepted == p'.started + p'.tasks by {
      assert p.started + p.tasks == (p.started + [task]) + p.tasks[1..];
    }
    assert multiset(p'.started) == multiset(p.started) + multiset{task};
  }

  lemma LookKeeps<T>(p: Pool<T>, i: nat)
    requires PoolSound(p) && IsWorker(p, i) && p.workers[i].Awake?
    ensures PoolSound(Look(p, i))
  {
    hide PoolSound, Look;
    if p.tasks == [] {
      FindsNothing(p, i);
    } else {
      TakesOldest(p, i);
    }
  }

  lemma PublishKeeps<T>(p: Pool<T>, i: nat)
    requires PoolSound(p) && IsWorker(p, i) && p.workers[i].Running?
    ensures PoolSound(Publish(p, i))
  {
    hide InHand, AwakeCount, SomeAsleep;
    AwakeAfter(p.workers, i, Finishing(p.workers[i].task));
    SameInHand(p.workers, i, Finishing(p.workers[i].task));
    SleepersAfter(p, Publish(p, i), i, Finishing(p.workers[i].task));
  }

  lemma FinishKeeps<T>(p: Pool<T>, i: nat)
    requires PoolSound(p) && IsWorker(p, i) && p.workers[i].Finishing?
    ensures PoolSound(Finish(p, i))
  {
    hide InHand, AwakeCount, SomeAsleep;
    AwakeAfter(p.workers, i, Awake);
    PutDown(p.workers, i);
    SleepersAfter(p, Finish(p, i), i, Awake);
  }

  lemma {:induction false} WakeAllKeepsTasks<T>(workers: seq<Worker<T>>)
    ensures InHand(WakeAll(workers)) == InHand(workers)
  {
    if workers != [] {
      var front := workers[..|workers| - 1];
      WakeAllKeepsTasks(front);
      assert WakeAll(workers)[..|workers| - 1] == WakeAll(front);
    }
  }

  lemma NotifyAllKeeps<T>(p: Pool<T>)
    requires PoolSound(p) && p.notifyAll
    ensures PoolSound(NotifyAll(p)) && !SomeAsleep(NotifyAll(p))
  {
    hide InHand, AwakeCount;
    WakeAllKeepsTasks(p.workers);
  }

  /** Every step of every interleaving keeps the pool sound. */
  lemma StepKeeps<T>(p: Pool<T>, step: Step<T>)
    requires PoolSound(p) && Enabled(p, step)
    ensures PoolSound(Apply(p, step))
  {
    hide PoolSound, MayNotify, Push, NotifyOne, WakeUp, Look, Publish, Finish, NotifyAll;
    match step
    case DoPush(task) => PushKeeps(p, task);
    case DoNotifyOne(i) => NotifyOneKeeps(p, i);
    case DoWakeUp(i) => WakeUpKeeps(p, i);
    case DoLook(i) => LookKeeps(p, i);
    case DoPublish(i) => PublishKeeps(p, i);
    case DoFinish(i) => FinishKeeps(p, i);
    case DoStop => StopKeeps(p);
    case DoNotifyAll => NotifyAllKeeps(p);
  }

  lemma StopKeeps<T>(p: Pool<T>)
    requires PoolSound(p)
    ensures PoolSound(Stop(p))
  {
    hide InHand, AwakeCount;
  }

  /** The steps of a run are enabled one after the other. */
  predicate IsRun<T>(p: Pool<T>, steps: seq<Step<T>>)
    decreases |steps|
  {
    steps == [] || (Enabled(p, steps[0]) && IsRun(Apply(p, steps[0]), steps[1..]))
  }

  function Run<T>(p: Pool<T>, steps: seq<Step<T>>): Pool<T>
    requires IsRun(p, steps)
    decreases |steps|
  {
    if steps == [] then p else Run(Apply(p, steps[0]), steps[1..])
  }

  lemma {:induction false} RunKeeps<T>(p: Pool<T>, steps: seq<Step<T>>)
    requires PoolSound(p) && IsRun(p, steps)
    ensures PoolSound(Run(p, steps))
    decreases |steps|
  {
    hide PoolSound, Enabled, Apply;
    if steps != [] {
      StepKeeps(p, steps[0]);
      RunKeeps(Apply(p, steps[0]), steps[1..]);
    }
  }

  /**
   * Over every interleaving: the queue respects its bound, tasks start in the order they
   * were accepted, each accepted task is queued, in hand or finished exactly once, and
   * no worker sleeps while a queued task lacks an awake worker or a notification of its own.
   */
  lemma EveryRun<T>(threadCount: nat, maxQueueSize: nat, steps: seq<Step<T>>)
    requires IsRun(NewPool<T>(threadCount, maxQueueSize), steps)
    ensures var p := Run(NewPool<T>(threadCount, maxQueueSize), steps);
            && |p.workers| == (if threadCount < 1 then 1 else threadCount)
            && |p.tasks| <= p.maxQueueSize == (if maxQueueSize < 1 then 1 else maxQueueSize)
            && p.started <= p.accepted && p.tasks == p.accepted[|p.started|..]
            && multiset(p.accepted) == multiset(p.tasks) + InHand(p.workers) + p.finished
            && (SomeAsleep(p) ==> |p.tasks| <= p.notifies + AwakeCount(p.workers))
  {
    hide IsRun, Run, InHand, AwakeCount, SomeAsleep;
    NewPoolIsSound<T>(threadCount, maxQueueSize);
    RunKeeps(NewPool<T>(threadCount, maxQueueSize), steps);
    SizesStay(NewPool<T>(threadCount, maxQueueSize), steps);
    var p := Run(NewPool<T>(threadCount, maxQueueSize), steps);
    assert multiset(p.started + p.tasks) == multiset(p.started) + multiset(p.tasks);
  }

  lemma {:induction false} SizesStay<T>(p: Pool<T>, steps: seq<Step<T>>)
    requires IsRun(p, steps)
    ensures |Run(p, steps).workers| == |p.workers| && Run(p, steps).maxQueueSize == p.maxQueueSize
    decreases |steps|
  {
    if steps != [] {
      SizesStay(Apply(p, steps[0]), steps[1..]);
    }
  }

  /** Once the destructor has begun nothing more is accepted, whoever still pushes. */
  lemma {:induction false} NothingAfterStop<T>(p: Pool<T>, steps: seq<Step<T>>)
    requires p.stopping && IsRun(p, steps)
    ensures Run(p, steps).stopping && Run(p, steps).accepted == p.accepted
    decreases |steps|
  {
    if steps != [] {
      NothingAfterStop(Apply(p, steps[0]), steps[1..]);
    }
  }

  lemma {:induction false} ExitedHoldNothing<T>(workers: seq<Worker<T>>)
    requires forall i :: 0 <= i < |workers| ==> workers[i].Exited?
    ensures InHand(workers) == multiset{}
  {
    if workers != [] {
      ExitedHoldNothing(workers[..|workers| - 1]);
    }
  }

  /** When the destructor returns, every accepted task has run, each exactly once. */
  lemma JoinedHasRunAll<T>(p: Pool<T>)
    requires PoolSound(p) && Joined(p)
    ensures p.tasks == [] && p.started == p.accepted && p.finished == multiset(p.accepted)
  {
    hide AwakeCount, SomeAsleep;
    ExitedHoldNothing(p.workers);
    assert p.workers[0].Exited?;
    assert p.started + [] == p.started;
  }

  /** Steps of the workers alone, without spurious wakeups. */
  predicate IsWorkerStep<T>(step: Step<T>) { step.DoLook? || step.DoPublish? || step.DoFinish? }

  function StepsToJoin<T>(p: Pool<T>): nat { 3 * |p.tasks| + AllStepsLeft(p.workers) }

  /** Once everybody has been notified, each worker step brings the destructor closer to its return. */
  lemma WorkersApproachJoin<T>(p: Pool<T>, step: Step<T>)
    requires PoolSound(p) && p.stopping && !p.notifyAll
    requires IsWorkerStep(step) && Enabled(p, step)
    ensures var p' := Apply(p, step); StepsToJoin(p') < StepsToJoin(p) && p'.stopping && !p'.notifyAll
  {
    hide PoolSound, InHand, AwakeCount, AllStepsLeft, TaskOf;
    StepsLeftAfter(p.workers, step.worker, Apply(p, step).workers[step.worker]);
  }

  /** And as long as it has not returned some worker can take a step: the destructor cannot hang. */
  lemma JoinNeverHangs<T>(p: Pool<T>)
    requires PoolSound(p) && p.stopping && !p.notifyAll && !Joined(p)
    ensures exists step: Step<T> :: IsWorkerStep(step) && Enabled(p, step)
  {
    hide InHand, AwakeCount;
    var i: nat :| i < |p.workers| && !p.workers[i].Exited?;
    assert !p.workers[i].Asleep?;
    var step: Step<T> := if p.workers[i].Awake? then DoLook(i) else if p.workers[i].Running? then DoPublish(i) else DoFinish(i);
    assert IsWorkerStep(step) && Enabled(p, step);
  }

  /**
   * ThreadPool, one method for each stretch of its code that runs under the lock, and one for
   * each notification.  `workers` says where each thread is; `notifies`, `notifyAll` and the
   * last three fields record what the condition variable and the tasks have been through.
   */
  class ThreadPool<T> {
    const maxQueueSize: nat
    var tasks: seq<T>
    var workers: seq<Worker<T>>
    var stopping: bool
    ghost var notifies: nat
    ghost var notifyAll: bool
    ghost var accepted: seq<T>
    ghost var started: seq<T>
    ghost var finished: multiset<T>

    ghost function View(): Pool<T>
      reads this
    {
      Pool(tasks, workers, maxQueueSize, stopping, notifies, notifyAll, accepted, started, finished)
    }

    constructor (threadCount: nat, maxQueueSize: nat)
      ensures View() == NewPool(threadCount, maxQueueSize)
      ensures |workers| == (if threadCount < 1 then 1 else threadCount) && tasks == [] && !stopping
      ensures this.maxQueueSize == if maxQueueSize < 1 then 1 else maxQueueSize
    {
      this.maxQueueSize := if maxQueueSize < 1 then 1 else maxQueueSize;
      tasks := [];
      stopping := false;
      var count := if threadCount < 1 then 1 else threadCount;
      var started: seq<Worker<T>> := [];
      while |started| < count
        invariant |started| <= count && started == AllAwake(|started|)
      {
        started := started + [Awake];
      }
      workers := started;
      notifies := 0;
      notifyAll := false;
      accepted := [];
      this.started := [];
      finished := multiset{};
    }

    /** The locked part of enqueue. */
    method Enqueue(task: T) returns (ok: bool)
      modifies this
      ensures View() == Push(old(View()), task)
      ensures ok == Accepts(old(View()))
      ensures ok <==> !old(stopping) && |old(tasks)| < maxQueueSize
      ensures tasks == if ok then old(tasks) + [task] else old(tasks)
    {
      if stopping || |tasks| >= maxQueueSize {
        return false;
      }
      tasks := tasks + [task];
      accepted := accepted + [task];
      notifies := notifies + 1;
      return true;
    }

    /** notify_one, after the lock is released; `woken` is the sleeper the kernel picks. */
    method WakeOne(woken: int)
      requires MayNotify(View(), woken)
      modifies this
      ensures View() == NotifyOne(old(View()), woken)
      ensures workers == if 0 <= woken < |old(workers)| && old(workers)[woken].Asleep? then old(workers)[woken := Awake]
                         else old(workers)
    {
      if 0 <= woken < |workers| && workers[woken].Asleep? {
        assert workers[woken].Asleep?;
        workers := workers[woken := Awake];
      }
      notifies := notifies - 1;
    }

    /** The wait returns although nobody has notified. */
    method WakeSpuriously(i: nat)
      requires IsWorker(View(), i) && workers[i].Asleep?
      modifies this
      ensures View() == WakeUp(old(View()), i)
    {
      workers := workers[i := Awake];
    }

    /** The locked part of workerLoop: the predicate of the wait, the exit, or the oldest task. */
    method LookForTask(i: nat) returns (taken: Option<T>)
      requires IsWorker(View(), i) && workers[i].Awake?
      modifies this
      ensures View() == Look(old(View()), i)
      ensures taken == if old(tasks) == [] then None else Some(old(tasks)[0])
      ensures tasks == if old(tasks) == [] then [] else old(tasks)[1..]
      ensures workers == old(workers)[i := if taken.Some? then Running(taken.value) else if stopping then Exited else Asleep]
    {
      if !stopping && tasks == [] {
        workers := workers[i := Asleep];
        return None;
      }
      if stopping && tasks == [] {
        workers := workers[i := Exited];
        return None;
      }
      var task := tasks[0];
      tasks := tasks[1..];
      workers := workers[i := Running(task)];
      started := started + [task];
      return Some(task);
    }

    /** The task has had its effect; only its last statement is left. */
    method ReachLastStatement(i: nat)
      requires IsWorker(View(), i) && workers[i].Running?
      modifies this
      ensures View() == Publish(old(View()), i)
    {
      workers := workers[i := Finishing(workers[i].task)];
    }

    /** The worker is done with its task, which returned or threw. */
    method FinishTask(i: nat)
      requires IsWorker(View(), i) && workers[i].Finishing?
      modifies this
      ensures View() == Finish(old(View()), i)
    {
      finished := finished + multiset{workers[i].task};
      workers := workers[i := Awake];
    }

    /** The locked part of the destructor. */
    method StopAccepting()
      modifies this
      ensures View() == Stop(old(View()))
    {
      stopping := true;
      notifyAll := true;
    }

    method NotifyEverybody()
      requires notifyAll
      modifies this
      ensures View() == NotifyAll(old(View()))
    {
      var i := 0;
      while i < |workers|
        invariant 0 <= i <= |workers| == |old(workers)|
        invariant forall j :: 0 <= j < |workers| ==>
          workers[j] == if j < i && old(workers)[j].Asleep? then Awake else old(workers)[j]
        invariant View() == old(View()).(workers := workers)
      {
        if workers[i].Asleep? {
          workers := workers[i := Awake];
        }
        i := i + 1;
      }
      notifyAll := false;
    }
  }
}
