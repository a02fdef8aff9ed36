/**
  The lock-held sections of the resource adaptor, as functions of its state.
  Everything an operation does between taking and releasing `state_mutex` is one step.
*/
module Scheduler {
  import opened Collections
  import opened TaskPriority
  import opened Threads
  import opened Deadlock

  const RETRY_LIMIT := 500

  /**
    The adaptor's state. `waiting` holds the threads whose owner sleeps on its condition variable,
    `notified` those among them that have been signalled and not yet run.
  */
  datatype Core = Core(
    threads: ThreadMap,
    taskThreads: map<int, set<int>>,
    taskMetrics: map<int, Metrics>,
    prio: Table,
    waiting: set<int>,
    notified: set<int>)

  datatype Error =
    | RetryOom(cpu: bool) | SplitAndRetryOom(cpu: bool) | RetryLimit(split: bool)
    | InjectedRetry | InjectedSplit | InjectedCudf
    | ThreadRemoved | NestedBlockingCpuAlloc | UnexpectedPreAlloc
    | KindMismatch | UnexpectedPostAlloc
    | ShuttingDownThread | DedicatedElsewhere | ShuffleMismatch | NotDedicated

  /** How a step leaves its caller: with a result, asleep, or unwinding an exception. */
  datatype Outcome = Finished(result: bool) | Asleep | Threw(error: Error)

  // ----- building blocks -----

  function Notify(s: Core, t: int): Core
  {
    s.(notified := s.notified + ({t} * s.waiting))
  }

  function Put(s: Core, t: int, th: Thread): Core
  {
    s.(threads := s.threads[t := th])
  }

  function Move(s: Core, t: int, to: ThreadState): Core
    requires t in s.threads
  {
    Put(s, t, s.threads[t].(state := to))
  }

  /** Change state and signal the condition variable. */
  function Signal(s: Core, t: int, to: ThreadState): Core
    requires t in s.threads
  {
    Notify(Move(s, t, to), t)
  }

  // ----- deadlock breaking -----

  ghost function BlockedIds(threads: ThreadMap): set<int>
  {
    set i | i in threads && threads[i].state == Blocked
  }

  /** First half: the lowest-ranked BLOCKED thread rolls back, or retries once if it is the only one. */
  ghost function RollBackOne(s: Core): Core
  {
    var prio := FullScan(s.prio, s.threads, AnyBlocked);
    match Best(prio, s.threads, AnyBlocked, true)
    case None => s.(prio := prio)
    case Some(v) =>
      var s1 := s.(prio := prio);
      if |BlockedIds(s.threads)| == 1
      then Signal(Put(s1, v, s1.threads[v].(retryBeforeBufn := true)), v, Running)
      else Signal(s1, v, BufnThrow)
  }

  /** Second half: the highest-ranked BUFN thread splits its input. With none, the scan's initial id -1 is looked up. */
  ghost function SplitOne(s: Core): Core
  {
    var prio := FullScan(s.prio, s.threads, AnyBufn);
    var s1 := s.(prio := prio);
    var target := match Best(prio, s.threads, AnyBufn, false) case None => -1 case Some(w) => w;
    if target in s.threads then Signal(s1, target, SplitThrow) else s1
  }

  ghost function CheckAndUpdate(s: Core, java: JavaBlocked): Core
  {
    if !Deadlocked(s.threads, java) then s
    else if AllBufn(s.threads, java) then SplitOne(RollBackOne(s))
    else RollBackOne(s)
  }

  /** Wake the highest-ranked thread BLOCKED on the same kind of memory. */
  ghost function WakeNext(s: Core, cpu: bool): Core
  {
    var prio := FullScan(s.prio, s.threads, BlockedFor(cpu));
    match Best(prio, s.threads, BlockedFor(cpu), false)
    case None => s.(prio := prio)
    case Some(w) => Signal(s.(prio := prio), w, Running)
  }

  // ----- waiting -----

  function CountRetry(th: Thread): Thread
  {
    th.(metrics := th.metrics.(retryThrows := th.metrics.retryThrows + 1))
  }

  function CountSplit(th: Thread): Thread
  {
    th.(metrics := th.metrics.(splitThrows := th.metrics.splitThrows + 1))
  }

  /** The watchdog: past the limit the counter stays and another exception is thrown. */
  function CountAgainstLimit(th: Thread): Thread
  {
    if th.timesRetried + 1 > RETRY_LIMIT then th else th.(timesRetried := th.timesRetried + 1)
  }

  /** Leave for `to`, count the retry and throw. */
  function ThrowRetry(s: Core, t: int, to: ThreadState): (Core, Outcome)
    requires t in s.threads
  {
    var th := s.threads[t];
    (Put(s, t, CountAgainstLimit(CountRetry(th.(state := to)))),
     Threw(if th.timesRetried + 1 > RETRY_LIMIT then RetryLimit(false) else RetryOom(th.isCpuAlloc)))
  }

  function ThrowSplit(s: Core, t: int, to: ThreadState): (Core, Outcome)
    requires t in s.threads
  {
    var th := s.threads[t];
    (Put(s, t, CountAgainstLimit(CountSplit(th.(state := to)))),
     Threw(if th.timesRetried + 1 > RETRY_LIMIT then RetryLimit(true) else SplitAndRetryOom(th.isCpuAlloc)))
  }

  function Sleep(s: Core, t: int): Core
  {
    s.(waiting := s.waiting + {t}, notified := s.notified - {t})
  }

  /** One turn of the wait loop for every state but BUFN_WAIT. */
  function Settle(s: Core, t: int): (Core, Outcome)
  {
    if t !in s.threads then (s, Finished(false))
    else match s.threads[t].state
      case Blocked => (Sleep(s, t), Asleep)
      case Bufn => (Sleep(s, t), Asleep)
      case BufnThrow => ThrowRetry(s, t, BufnWait)
      case SplitThrow => ThrowSplit(s, t, Running)
      case RemoveThrow => (s.(threads := s.threads - {t}), Threw(ThreadRemoved))
      case _ => (s, Finished(false))
  }

  /** The wait loop up to the point where it sleeps, throws or is done. */
  ghost function BlockUntilReady(s: Core, t: int): (Core, Outcome)
  {
    if t in s.threads && s.threads[t].state == BufnWait
    then Settle(CheckAndUpdate(Move(s, t, Bufn), None), t)
    else Settle(s, t)
  }

  /** The owner's wait returns: back to sleep while still blocked, otherwise round the loop again. */
  ghost function WakeUp(s: Core, t: int): (Core, Outcome)
  {
    if t in s.threads && IsBlocked(s.threads[t].state)
    then (s.(notified := s.notified - {t}), Asleep)
    else BlockUntilReady(s.(waiting := s.waiting - {t}, notified := s.notified - {t}), t)
  }

  // ----- allocation brackets -----

  datatype Inject = NoInject | ForceRetry | ForceCudf | ForceSplit

  /** The last part of `pre_alloc_core`: enter the bracket if the thread is RUNNING. */
  function EnterBracket(s: Core, t: int, cpu: bool): (Core, Outcome)
  {
    if t !in s.threads then (s, Finished(false))
    else if s.threads[t].state == Running
    then (Put(s, t, s.threads[t].(state := Alloc, isCpuAlloc := cpu)), Finished(false))
    else (s, Threw(UnexpectedPreAlloc))
  }

  /** Continue an allocation request once the wait loop has been left. */
  function Resume(r: (Core, Outcome), t: int, cpu: bool): (Core, Outcome)
  {
    if r.1.Finished? then EnterBracket(r.0, t, cpu) else r
  }

  /** `Finished(true)` means that the request is nested inside a running allocation of the thread. */
  ghost function PreAlloc(s: Core, t: int, cpu: bool, blocking: bool, inject: Inject): (Core, Outcome)
  {
    if t !in s.threads then (s, Finished(false))
    else
      var th := s.threads[t];
      if InAlloc(th.state) then
        if cpu && blocking then (s, Threw(NestedBlockingCpuAlloc)) else (s, Finished(true))
      else match inject
        case ForceRetry => (Put(s, t, CountRetry(th)), Threw(InjectedRetry))
        case ForceCudf => (s, Threw(InjectedCudf))
        case ForceSplit => (Put(s, t, CountSplit(th)), Threw(InjectedSplit))
        case NoInject => Resume(if blocking then BlockUntilReady(s, t) else (s, Finished(false)), t, cpu)
  }

  ghost function PostSuccess(s: Core, t: int, cpu: bool, recursive: bool): (Core, Outcome)
  {
    if recursive || t !in s.threads then (s, Finished(true))
    else
      var th := s.threads[t].(retryBeforeBufn := false);
      if !InAlloc(th.state) then (WakeNext(Put(s, t, th), cpu), Finished(true))
      else if th.isCpuAlloc != cpu then (Put(s, t, th), Threw(KindMismatch))
      else (WakeNext(Put(s, t, th.(state := Running, isCpuAlloc := false)), cpu), Finished(true))
  }

  /** The state a failed attempt leaves its thread in, before deadlocks are looked for. */
  function AfterFailure(th: Thread, oom: bool, blocking: bool): Thread
  {
    if th.state == AllocFree then th.(state := Running)
    else if oom && th.retryBeforeBufn then th.(state := BufnThrow, retryBeforeBufn := false)
    else if oom && blocking then th.(state := Blocked, retryBeforeBufn := false)
    else th.(state := Running)
  }

  /** `Finished(true)` asks the caller to try the allocation again. */
  ghost function PostFailed(s: Core, t: int, cpu: bool, oom: bool, blocking: bool, recursive: bool): (Core, Outcome)
  {
    if recursive || t !in s.threads then (CheckAndUpdate(s, None), Finished(false))
    else
      var th := s.threads[t];
      if th.isCpuAlloc != cpu then (s, Threw(KindMismatch))
      else if !InAlloc(th.state) then (s, Threw(UnexpectedPostAlloc))
      else
        var s1 := Put(s, t, AfterFailure(th, oom, blocking));
        var s2 := if s1.threads[t].state == BufnThrow then Notify(s1, t) else s1;
        (CheckAndUpdate(s2, None), Finished(true))
  }

  /** A free by thread `t`: every other thread inside an allocation of the same kind is told. */
  function MarkFreed(threads: ThreadMap, t: int, cpu: bool): ThreadMap
  {
    map i | i in threads ::
      if i != t && threads[i].state == Alloc && threads[i].isCpuAlloc == cpu
      then threads[i].(state := AllocFree) else threads[i]
  }

  ghost function Dealloc(s: Core, t: int, cpu: bool): Core
  {
    WakeNext(s.(threads := MarkFreed(s.threads, t, cpu)), cpu)
  }

  // ----- metrics -----

  function MetricsOf(m: map<int, Metrics>, task: int): Metrics
  {
    if task in m then m[task] else NO_METRICS
  }

  /** The entries of some tasks, each increased by the same metrics. */
  function Increased(m: map<int, Metrics>, tasks: set<int>, more: Metrics): map<int, Metrics>
  {
    map task | task in tasks :: AddMetrics(MetricsOf(m, task), more)
  }

  /** Move a thread's counters to the tasks it works for. */
  function Checkpoint(s: Core, t: int): Core
    requires t in s.threads
  {
    var th := s.threads[t];
    var tasks := if th.taskId < 0 then th.poolTasks else {th.taskId};
    Put(s, t, th.(metrics := NO_METRICS)).(taskMetrics := s.taskMetrics + Increased(s.taskMetrics, tasks, th.metrics))
  }

  // ----- registration and removal -----

  /** Take a thread out: one that sleeps is told to throw, any other is erased. True if it was RUNNING. */
  function Expel(s: Core, t: int, task: int): (Core, bool)
    requires t in s.threads
  {
    var s1 := if task >= 0 && task in s.taskThreads
              then s.(taskThreads := s.taskThreads[task := s.taskThreads[task] - {t}]) else s;
    if IsBlocked(s.threads[t].state) then (Signal(s1, t, RemoveThrow), false)
    else (s1.(threads := s1.threads - {t}), s.threads[t].state == Running)
  }

  /** End a thread's work for one task, or for all when the task id is negative. */
  function Detach(s: Core, t: int, task: int): (Core, bool)
    requires t in s.threads
  {
    var th := s.threads[t];
    if task < 0 || th.taskId == task then Expel(s, t, task)
    else if th.taskId >= 0 then (s, false)
    else
      var s1 := Put(s, t, th.(poolTasks := th.poolTasks - {task}));
      if s1.threads[t].poolTasks == {} then Expel(s1, t, task) else (s1, false)
  }

  /** The outcome of a removal: the new state, and whether a RUNNING thread was erased. */
  function Remove(s: Core, t: int, task: int): (Core, bool)
  {
    if t !in s.threads then (s, false) else Detach(Checkpoint(s, t), t, task)
  }

  function WakeStates(threads: ThreadMap): set<ThreadState>
  {
    if exists i | i in threads :: threads[i].state == Blocked then {Blocked} else {Bufn, BufnThrow, BufnWait}
  }

  /** The threads in one of the states. */
  function InStates(threads: ThreadMap, states: set<ThreadState>): set<int>
  {
    set i | i in threads && threads[i].state in states
  }

  function SetRunning(threads: ThreadMap, ids: set<int>): ThreadMap
  {
    map i | i in threads :: if i in ids then threads[i].(state := Running) else threads[i]
  }

  /** After a task finished: all BLOCKED threads run again or, when there are none, all BUFN ones. */
  function WakeAfterFinish(s: Core): Core
  {
    var woken := InStates(s.threads, WakeStates(s.threads));
    s.(threads := SetRunning(s.threads, woken), notified := s.notified + (woken * s.waiting))
  }

  function WakeIf(r: (Core, bool)): Core
  {
    if r.1 then WakeAfterFinish(r.0) else r.0
  }

  function RemoveAssociation(s: Core, t: int, task: int): Core
  {
    WakeIf(Remove(s, t, task))
  }

  function Link(s: Core, t: int, task: int): Core
  {
    var linked := (if task in s.taskThreads then s.taskThreads[task] else {}) + {t};
    s.(taskThreads := s.taskThreads[task := linked])
  }

  function MustRededicate(s: Core, t: int, task: int): bool
  {
    t in s.threads && s.threads[t].taskId >= 0 && s.threads[t].taskId != task
  }

  function StartDedicated(s: Core, t: int, task: int): (Core, Outcome)
  {
    var s1 := if MustRededicate(s, t, task) then Remove(s, t, s.threads[t].taskId).0 else s;
    if t !in s1.threads then (Link(Put(s1, t, FreshThread(task, false)), t, task), Finished(true))
    else if s1.threads[t].state == RemoveThrow then (s1, Threw(ShuttingDownThread))
    else if s1.threads[t].taskId != task then (s1, Threw(DedicatedElsewhere))
    else (Link(s1, t, task), Finished(true))
  }

  function PoolWorking(s: Core, isForShuffle: bool, t: int, tasks: set<int>): (Core, Outcome)
  {
    if t in s.threads && s.threads[t].taskId != -1 then (s, Threw(DedicatedElsewhere))
    else if t in s.threads && s.threads[t].state == RemoveThrow then (s, Threw(ShuttingDownThread))
    else if t in s.threads && s.threads[t].isForShuffle != isForShuffle then (s, Threw(ShuffleMismatch))
    else
      var s1 := Checkpoint(if t in s.threads then s else Put(s, t, FreshThread(-1, isForShuffle)), t);
      (Put(s1, t, s1.threads[t].(poolTasks := s1.threads[t].poolTasks + tasks)), Finished(true))
  }

  function PoolFinished(s: Core, t: int, tasks: set<int>): Core
  {
    if t !in s.threads then s
    else
      var s1 := Checkpoint(s, t);
      var s2 := Put(s1, t, s1.threads[t].(poolTasks := s1.threads[t].poolTasks - tasks));
      if s2.threads[t].poolTasks == {} then RemoveAssociation(s2, t, -1) else s2
  }

  /** `remove_thread_association` over a set of threads, in ascending order. */
  function RemoveAll(s: Core, ids: set<int>, task: int): (Core, bool)
    decreases ids
  {
    if ids == {} then (s, false)
    else
      var t := MinOf(ids);
      var r := Remove(s, t, task);
      var rest := RemoveAll(r.0, ids - {t}, task);
      (rest.0, r.1 || rest.1)
  }

  /** Drop a finished task from one pool thread; a pool thread with nothing left is removed. */
  function LeaveTask(s: Core, t: int, task: int): (Core, bool)
  {
    if t !in s.threads || task !in s.threads[t].poolTasks then (s, false)
    else
      var s1 := Put(s, t, s.threads[t].(poolTasks := s.threads[t].poolTasks - {task}));
      if s1.threads[t].poolTasks == {} then Remove(s1, t, task) else (s1, false)
  }

  function LeaveAll(s: Core, ids: set<int>, task: int): (Core, bool)
    decreases ids
  {
    if ids == {} then (s, false)
    else
      var t := MinOf(ids);
      var r := LeaveTask(s, t, task);
      var rest := LeaveAll(r.0, ids - {t}, task);
      (rest.0, r.1 || rest.1)
  }

  function TaskDone(s: Core, task: int): Core
  {
    var r1 := RemoveAll(s, if task in s.taskThreads then s.taskThreads[task] else {}, task);
    var r2 := LeaveAll(r1.0, r1.0.threads.Keys, task);
    var s3 := WakeIf((r2.0, r1.1 || r2.1));
    s3.(taskThreads := s3.taskThreads - {task})
  }

  function SetPoolBlocked(s: Core, t: int, blocked: bool): (Core, Outcome)
  {
    if t !in s.threads || s.threads[t].taskId < 0 then (s, Threw(NotDedicated))
    else (Put(s, t, s.threads[t].(poolBlocked := blocked)), Finished(true))
  }
}
