/**
  Runs of the adaptor: its owner threads call operations in any interleaving.
  An owner is outside, inside a stack of allocation brackets, or asleep in the wait loop.
*/
module Runs {
  import opened Collections
  import opened TaskPriority
  import opened Threads
  import opened Deadlock
  import opened Scheduler
  import opened DeadlockBreaking

  /** An open bracket: the kind of memory, and whether `pre_alloc_core` called it nested. */
  datatype Bracket = Bracket(cpu: bool, nested: bool)

  /** What a sleeping owner will go on with. */
  datatype Caller = JustWaiting | Allocating(cpu: bool)

  datatype Config = Config(core: Core, brackets: map<int, seq<Bracket>>, callers: map<int, Caller>)

  /** One lock-held section. Each names the thread whose owner runs it, where that matters. */
  datatype Event =
    | PreAllocCall(t: int, cpu: bool, blocking: bool, inject: Inject)
    | PostSuccessCall(t: int)
    | PostFailedCall(t: int, oom: bool, blocking: bool)
    | BlockUntilReadyCall(t: int)
    | WaitReturns(t: int)
    | DeallocCall(t: int, cpu: bool)
    | StartDedicatedCall(t: int, task: int)
    | PoolWorkingCall(isForShuffle: bool, t: int, tasks: set<int>)
    | PoolFinishedCall(t: int, tasks: set<int>)
    | RemoveAssociationCall(t: int, task: int)
    | TaskDoneCall(task: int)
    | SetPoolBlockedCall(t: int, blocked: bool)
    | CheckDeadlocksCall(java: set<int>)
    | GetAndResetRetriesCall(task: int)
    | RemoveTaskMetricsCall(task: int)
    | PriorityDoneCall(task: int)

  /** The calls that may enter the wait loop. */
  predicate MayWait(e: Event) { e.PreAllocCall? || e.BlockUntilReadyCall? || e.WaitReturns? }

  function BracketsOf(c: Config, t: int): seq<Bracket>
  {
    if t in c.brackets then c.brackets[t] else []
  }

  function Push(c: Config, t: int, b: Bracket): Config
  {
    c.(brackets := c.brackets[t := BracketsOf(c, t) + [b]])
  }

  /** The innermost bracket is closed. */
  function Closed(c: Config, s': Core, t: int): Config
  {
    var bs := BracketsOf(c, t);
    Config(s', if bs == [] then c.brackets else c.brackets[t := bs[..|bs| - 1]], c.callers)
  }

  /** Book-keeping after an allocation request returned, slept or threw. */
  function Requested(c: Config, r: (Core, Outcome), t: int, cpu: bool): Config
  {
    var c1 := c.(core := r.0);
    match r.1
    case Finished(nested) => Push(c1, t, Bracket(cpu, nested))
    case Asleep => c1.(callers := c1.callers[t := Allocating(cpu)])
    case Threw(_) => c1
  }

  function Waited(c: Config, r: (Core, Outcome), t: int): Config
  {
    var c1 := c.(core := r.0);
    if r.1.Asleep? then c1.(callers := c1.callers[t := JustWaiting]) else c1
  }

  function CallerOf(c: Config, t: int): Caller
  {
    if t in c.callers then c.callers[t] else JustWaiting
  }

  /** A woken owner goes on with what it was doing. */
  function Continue(r: (Core, Outcome), t: int, caller: Caller): (Core, Outcome)
  {
    match caller
    case JustWaiting => r
    case Allocating(cpu) => Resume(r, t, cpu)
  }

  function Continued(c: Config, r: (Core, Outcome), t: int): Config
  {
    match CallerOf(c, t)
    case JustWaiting => Waited(c, r, t)
    case Allocating(cpu) => Requested(c, r, t, cpu)
  }

  /** The threads that `get_and_reset_metric` visits for a task. */
  function LinkedThreads(s: Core, task: int): set<int>
  {
    if task in s.taskThreads then s.taskThreads[task] else {}
  }

  function ZeroRetries(threads: ThreadMap, ids: set<int>): ThreadMap
  {
    map i | i in threads ::
      if i in ids then threads[i].(metrics := threads[i].metrics.(retryThrows := 0)) else threads[i]
  }

  function ResetRetries(s: Core, task: int): Core
  {
    s.(threads := ZeroRetries(s.threads, LinkedThreads(s, task)),
       taskMetrics := if task in s.taskMetrics
                      then s.taskMetrics[task := s.taskMetrics[task].(retryThrows := 0)] else s.taskMetrics)
  }

  ghost function Result(c: Config, e: Event): (Core, Outcome)
  {
    var s := c.core;
    match e
    case PreAllocCall(t, cpu, blocking, inject) => PreAlloc(s, t, cpu, blocking, inject)
    case PostSuccessCall(t) =>
      var top := Top(c, t);
      PostSuccess(s, t, top.cpu, top.nested)
    case PostFailedCall(t, oom, blocking) =>
      var top := Top(c, t);
      PostFailed(s, t, top.cpu, oom, blocking, top.nested)
    case BlockUntilReadyCall(t) => BlockUntilReady(s, t)
    case WaitReturns(t) => Continue(WakeUp(s, t), t, CallerOf(c, t))
    case DeallocCall(t, cpu) => (Dealloc(s, t, cpu), Finished(true))
    case StartDedicatedCall(t, task) => StartDedicated(s, t, task)
    case PoolWorkingCall(isForShuffle, t, tasks) => PoolWorking(s, isForShuffle, t, tasks)
    case PoolFinishedCall(t, tasks) => (PoolFinished(s, t, tasks), Finished(true))
    case RemoveAssociationCall(t, task) => (RemoveAssociation(s, t, task), Finished(true))
    case TaskDoneCall(task) => (TaskDone(s, task), Finished(true))
    case SetPoolBlockedCall(t, blocked) => SetPoolBlocked(s, t, blocked)
    case CheckDeadlocksCall(java) => (CheckAndUpdate(s, Some(java)), Finished(true))
    case GetAndResetRetriesCall(task) => (ResetRetries(s, task), Finished(true))
    case RemoveTaskMetricsCall(task) => (s.(taskMetrics := s.taskMetrics - {task}), Finished(true))
    case PriorityDoneCall(task) => (s.(prio := Forget(s.prio, task)), Finished(true))
  }

  /** The bracket a post call closes. */
  function Top(c: Config, t: int): Bracket
  {
    var bs := BracketsOf(c, t);
    if bs == [] then Bracket(false, false) else bs[|bs| - 1]
  }

  ghost function Next(c: Config, e: Event): Config
  {
    var r := Result(c, e);
    match e
    case PreAllocCall(t, cpu, _, _) => Requested(c, r, t, cpu)
    case BlockUntilReadyCall(t) => Waited(c, r, t)
    case WaitReturns(t) => Continued(c, r, t)
    case PostSuccessCall(t) => Closed(c, r.0, t)
    case PostFailedCall(t, _, _) => Closed(c, r.0, t)
    case _ => c.(core := r.0)
  }

  /** Book-keeping does not touch the adaptor's state. */
  lemma NextCore(c: Config, e: Event)
    ensures Next(c, e).core == Result(c, e).0
  {
    hide Result, BracketsOf, CallerOf;
  }

  // ----- looks for a deadlock -----

  /** The state in which a step looks for a deadlock, if it looks for one. */
  datatype Look = NoLook | Look(core: Core, java: JavaBlocked)

  /** The state after a failed attempt has been recorded. */
  function Failed(s: Core, t: int, oom: bool, blocking: bool): Core
    requires t in s.threads
  {
    var s1 := Put(s, t, AfterFailure(s.threads[t], oom, blocking));
    if s1.threads[t].state == BufnThrow then Notify(s1, t) else s1
  }

  function LookOf(c: Config, e: Event): Look
  {
    var s := c.core;
    match e
    case CheckDeadlocksCall(java) => Look(s, Some(java))
    case PostFailedCall(t, oom, blocking) =>
      if Top(c, t).nested || t !in s.threads then Look(s, None) else Look(Failed(s, t, oom, blocking), None)
    case PreAllocCall(t, _, blocking, inject) => if blocking && inject == NoInject then WaitLook(s, t) else NoLook
    case BlockUntilReadyCall(t) => WaitLook(s, t)
    case WaitReturns(t) => WaitLook(s, t)
    case _ => NoLook
  }

  function WaitLook(s: Core, t: int): Look
  {
    if t in s.threads && s.threads[t].state == BufnWait then Look(Move(s, t, Bufn), None) else NoLook
  }

  /** A call that enters the wait loop, from a registered thread that has been told to throw on removal. */
  predicate ThrowsOnRemoval(c: Config, e: Event)
  {
    && (e.BlockUntilReadyCall? || e.WaitReturns? || (e.PreAllocCall? && e.blocking && e.inject == NoInject))
    && e.t in c.core.threads && c.core.threads[e.t].state == RemoveThrow
  }

  // ----- what the environment promises -----

  /** The owner is neither inside a bracket nor asleep. */
  ghost predicate Idle(c: Config, t: int)
  {
    BracketsOf(c, t) == [] && t !in c.core.waiting
  }

  /** No entry disappears while its owner is inside the adaptor. */
  ghost predicate NoEraseInside(c: Config, s': Core)
  {
    forall t | t in c.core.threads && t !in s'.threads :: Idle(c, t)
  }

  /**
    What callers must respect: an owner makes one call at a time and closes the brackets it opened;
    task ids are not negative and no thread has id -1; a thread is not registered in the middle of its
    own bracket and not erased while its owner is inside.
  */
  ghost predicate Allowed(c: Config, e: Event)
  {
    match e
    case PreAllocCall(t, _, _, _) => t !in c.core.waiting
    case PostSuccessCall(t) => t !in c.core.waiting && BracketsOf(c, t) != []
    case PostFailedCall(t, _, _) => t !in c.core.waiting && BracketsOf(c, t) != []
    case BlockUntilReadyCall(t) => t !in c.core.waiting
    case WaitReturns(t) => t in c.core.waiting
    case DeallocCall(t, _) => t !in c.core.waiting
    case StartDedicatedCall(t, task) =>
      && t != -1 && task >= 0
      && (t !in c.core.threads ==> Idle(c, t))
      && (MustRededicate(c.core, t, task) ==> Idle(c, t) || IsBlocked(c.core.threads[t].state))
    case PoolWorkingCall(_, t, tasks) =>
      && t != -1 && (forall task | task in tasks :: task >= 0)
      && (t !in c.core.threads ==> Idle(c, t))
    case TaskDoneCall(task) => task >= 0 && NoEraseInside(c, Result(c, e).0)
    case PoolFinishedCall(_, _) => NoEraseInside(c, Result(c, e).0)
    case RemoveAssociationCall(_, _) => NoEraseInside(c, Result(c, e).0)
    case _ => true
  }

  const INITIAL_CORE := Core(map[], map[], map[], INITIAL, {}, {})

  /** A run: configurations linked by allowed events, from an empty adaptor. */
  ghost predicate IsRun(cs: seq<Config>, es: seq<Event>)
  {
    && |cs| == |es| + 1
    && cs[0] == Config(INITIAL_CORE, map[], map[])
    && forall i | 0 <= i < |es| :: Allowed(cs[i], es[i]) && cs[i + 1] == Next(cs[i], es[i])
  }

  // ----- the invariant, one thread at a time -----

  /** All that concerns one thread: its entry, its brackets, whether it sleeps and has been told. */
  datatype View = View(entry: Option<Thread>, brackets: seq<Bracket>, sleeps: bool, told: bool)

  function ViewOf(c: Config, t: int): View
  {
    View(if t in c.core.threads then Some(c.core.threads[t]) else None,
         BracketsOf(c, t), t in c.core.waiting, t in c.core.notified)
  }

  /** Task ids are not negative. */
  ghost predicate AreTasks(tasks: set<int>)
  {
    forall task | task in tasks :: task >= 0
  }

  ghost predicate GoodBrackets(cpu: bool, bs: seq<Bracket>)
  {
    bs != [] ==> bs[0] == Bracket(cpu, false) && forall i | 0 < i < |bs| :: bs[i].nested
  }

  /**
    A registered thread is in ALLOC or ALLOC_FREE exactly while its owner has open brackets, the
    outermost of which has the recorded kind and all others of which are nested. A sleeping owner is
    still blocked or has been told. The retry flag is only held while running or allocating. Only pool
    threads, with task id -1, have pool tasks.
  */
  ghost predicate GoodView(v: View)
  {
    match v.entry
    case None => !v.sleeps && forall i | 0 <= i < |v.brackets| :: !v.brackets[i].nested
    case Some(th) =>
      && (InAlloc(th.state) <==> v.brackets != [])
      && GoodBrackets(th.isCpuAlloc, v.brackets)
      && (v.sleeps ==> th.state != BufnWait && v.brackets == [] && (IsBlocked(th.state) || v.told))
      && (th.retryBeforeBufn ==> th.state == Running || InAlloc(th.state))
      && (th.taskId >= 0 ==> th.poolTasks == {})
      && th.taskId >= -1 && AreTasks(th.poolTasks)
  }

  ghost predicate Inv(c: Config)
  {
    && -1 !in c.core.threads
    && Valid(c.core.prio)
    && forall t :: GoodView(ViewOf(c, t))
  }

  // ----- how other threads' steps touch a thread -----

  predicate CanBeWoken(s: ThreadState) { s == Blocked || s == Bufn || s == BufnThrow || s == BufnWait }

  /** Only a round of deadlock breaking wakes a thread in order to make it throw a retry or split. */
  predicate WokenState(s: ThreadState, round: bool)
  {
    s == Running || s == RemoveThrow || (round && (s == BufnThrow || s == SplitThrow))
  }

  /** From outside, a thread's state changes only by being woken with a signal. */
  ghost predicate Nudged(a: Thread, b: Thread, told: bool, round: bool)
  {
    && b.taskId == a.taskId
    && b.poolTasks <= a.poolTasks
    && b.isCpuAlloc == a.isCpuAlloc && b.timesRetried == a.timesRetried
    && (|| (b.state == a.state && b.retryBeforeBufn == a.retryBeforeBufn)
        || (&& CanBeWoken(a.state) && WokenState(b.state, round) && told
            && (b.retryBeforeBufn ==> a.retryBeforeBufn || b.state == Running)))
  }

  /** Threads may vanish or be nudged; nobody falls asleep and no signal is lost. */
  ghost predicate Disturbed(s: Core, s': Core, round: bool)
  {
    && s'.waiting == s.waiting && s.notified <= s'.notified
    && s'.threads.Keys <= s.threads.Keys
    && (Valid(s.prio) ==> Valid(s'.prio))
    && forall i | i in s'.threads :: Nudged(s.threads[i], s'.threads[i], Signalled(s', i), round)
  }

  lemma DisturbedTwice(s: Core, s1: Core, s2: Core, round: bool)
    requires Disturbed(s, s1, round) && Disturbed(s1, s2, round)
    ensures Disturbed(s, s2, round)
  {
  }

  /** A disturbance keeps the invariant as long as nobody inside is erased. */
  lemma DisturbanceKeepsInv(c: Config, s': Core, round: bool)
    requires Inv(c) && Disturbed(c.core, s', round) && NoEraseInside(c, s')
    ensures Inv(c.(core := s'))
  {
    forall t ensures GoodView(ViewOf(c.(core := s'), t)) {
      assert GoodView(ViewOf(c, t));
      if t in s'.threads {
        assert Nudged(c.core.threads[t], s'.threads[t], Signalled(s', t), round);
      }
    }
  }
}
