/** Why a thread is ever told to roll back. */
module RollbackCauses {
  import opened Collections
  import opened Threads
  import opened Deadlock
  import opened Scheduler
  import opened DeadlockBreaking
  import opened Runs
  import opened Disturbances
  import opened Safety

  /** The thread is the unique lowest of at least two BLOCKED threads in a deadlock. */
  ghost predicate LowestInDeadlock(look: Look, t: int)
  {
    && look.Look? && Deadlocked(look.core.threads, look.java)
    && t in look.core.threads && look.core.threads[t].state == Blocked
    && |BlockedIds(look.core.threads)| >= 2
    && LowestBlocked(CheckAndUpdate(look.core, look.java).prio, look.core.threads, t)
  }

  /** The thread hit an OOM on the attempt it was granted before rolling back. */
  ghost predicate FailedItsRetry(c: Config, e: Event, t: int)
  {
    && e.PostFailedCall? && e.t == t && e.oom
    && t in c.core.threads && c.core.threads[t].state == Alloc && c.core.threads[t].retryBeforeBufn
  }

  predicate ToldToRollBack(s: Core, t: int) { t in s.threads && s.threads[t].state == BufnThrow }

  lemma QuietDisturbance(s: Core, s': Core, t: int)
    requires Disturbed(s, s', false) && ToldToRollBack(s', t)
    ensures ToldToRollBack(s, t)
  {
  }

  lemma RoundCause(look: Look, t: int)
    requires look.Look? && -1 !in look.core.threads
    requires ToldToRollBack(CheckAndUpdate(look.core, look.java), t) && !ToldToRollBack(look.core, t)
    ensures LowestInDeadlock(look, t)
  {
    hide CheckAndUpdate, Deadlocked, AllBufn, LowestBlocked, HighestBufn;
    RoundEffect(look.core, look.java);
    assert RoundMoves(look.core, look.java, CheckAndUpdate(look.core, look.java), t);
  }

  lemma WaitLoopCause(s: Core, u: int, t: int)
    requires -1 !in s.threads
    requires ToldToRollBack(BlockUntilReady(s, u).0, t) && !ToldToRollBack(s, t)
    ensures LowestInDeadlock(WaitLook(s, u), t)
  {
    hide CheckAndUpdate, LowestInDeadlock;
    if u in s.threads && s.threads[u].state == BufnWait {
      var s1 := Move(s, u, Bufn);
      RoundOnBufn(s1, None, u);
      RoundDisturbs(s1, None);
      RoundCause(WaitLook(s, u), t);
    }
  }

  lemma WakeCause(c: Config, u: int, t: int)
    requires Inv(c) && u in c.core.waiting
    requires ToldToRollBack(Continue(WakeUp(c.core, u), u, CallerOf(c, u)).0, t)
    ensures ToldToRollBack(c.core, t)
  {
    hide Inv, LowestInDeadlock, BlockUntilReady, CallerOf;
    InvBasics(c);
    InvAt(c, u);
    var s1 := c.core.(waiting := c.core.waiting - {u}, notified := c.core.notified - {u});
    if ToldToRollBack(BlockUntilReady(s1, u).0, t) && !ToldToRollBack(s1, t) {
      WaitLoopCause(s1, u, t);
      NothingLooked(t);
    }
  }

  lemma NothingLooked(t: int)
    ensures !LowestInDeadlock(NoLook, t)
  {
  }

  lemma RequestCause(s: Core, u: int, cpu: bool, blocking: bool, inject: Inject, t: int)
    requires -1 !in s.threads
    requires ToldToRollBack(PreAlloc(s, u, cpu, blocking, inject).0, t) && !ToldToRollBack(s, t)
    ensures blocking && inject == NoInject && LowestInDeadlock(WaitLook(s, u), t)
  {
    hide LowestInDeadlock, BlockUntilReady, WaitLook;
    if ToldToRollBack(BlockUntilReady(s, u).0, t) {
      WaitLoopCause(s, u, t);
    }
  }

  lemma SuccessIsQuiet(c: Config, u: int, t: int)
    requires Inv(c) && BracketsOf(c, u) != []
    requires ToldToRollBack(PostSuccess(c.core, u, Top(c, u).cpu, Top(c, u).nested).0, t)
    ensures ToldToRollBack(c.core, t)
  {
    hide Inv, WakeNext, Top, Stirred;
    ClosingBracket(c, u);
    var s := c.core;
    if u in s.threads && !Top(c, u).nested {
      var s1 := Put(s, u, s.threads[u].(retryBeforeBufn := false, state := Running, isCpuAlloc := false));
      WakeNextDisturbs(s1, Top(c, u).cpu);
      StirIsQuiet(s1, WakeNext(s1, Top(c, u).cpu), t);
    }
  }

  lemma StirIsQuiet(s: Core, s': Core, t: int)
    requires Stirred(s, s', false) && ToldToRollBack(s', t)
    ensures ToldToRollBack(s, t)
  {
    hide Disturbed;
    QuietDisturbance(s, s', t);
  }

  lemma FailureCause(c: Config, e: Event, t: int)
    requires Inv(c) && e.PostFailedCall? && BracketsOf(c, e.t) != []
    requires ToldToRollBack(PostFailed(c.core, e.t, Top(c, e.t).cpu, e.oom, e.blocking, Top(c, e.t).nested).0, t)
    requires !ToldToRollBack(c.core, t)
    ensures LowestInDeadlock(LookOf(c, e), t) || FailedItsRetry(c, e, t)
  {
    hide Inv, LowestInDeadlock, CheckAndUpdate, Top;
    InvBasics(c);
    ClosingBracket(c, e.t);
    var look := LookOf(c, e);
    if !ToldToRollBack(look.core, t) {
      RoundCause(look, t);
    }
  }

  lemma StartIsQuiet(s: Core, u: int, task: int, t: int)
    requires ToldToRollBack(StartDedicated(s, u, task).0, t)
    ensures ToldToRollBack(s, t)
  {
    hide Remove, Disturbed;
    if MustRededicate(s, u, task) {
      RemoveDisturbs(s, u, s.threads[u].taskId);
      if ToldToRollBack(Remove(s, u, s.threads[u].taskId).0, t) {
        QuietDisturbance(s, Remove(s, u, s.threads[u].taskId).0, t);
      }
    }
  }

  lemma PoolIsQuiet(s: Core, isForShuffle: bool, u: int, tasks: set<int>, t: int)
    requires ToldToRollBack(PoolWorking(s, isForShuffle, u, tasks).0, t)
    ensures ToldToRollBack(s, t)
  {
    hide Checkpoint;
    if PoolWorking(s, isForShuffle, u, tasks).1.Finished? {
      PoolPut(s, isForShuffle, u, tasks);
    }
  }

  /**
    A thread enters BUFN_THROW only as the lowest of at least two BLOCKED threads in a deadlock, or by
    an OOM on an allocation it attempted while holding the retry flag.
  */
  lemma RollbackHasACause(c: Config, e: Event, t: int)
    requires Inv(c) && Allowed(c, e)
    requires ToldToRollBack(Next(c, e).core, t) && !ToldToRollBack(c.core, t)
    ensures LowestInDeadlock(LookOf(c, e), t) || FailedItsRetry(c, e, t)
  {
    hide Inv, LowestInDeadlock, FailedItsRetry, PreAlloc, PostSuccess, PostFailed, BlockUntilReady, WakeUp, Dealloc,
      PoolFinished, RemoveAssociation, TaskDone, CheckAndUpdate, ResetRetries, Continue, StartDedicated, PoolWorking,
      Next, NoEraseInside, Top, CallerOf, BracketsOf, Idle, MustRededicate, Disturbed, Stirred, WaitLook, Failed;
    InvBasics(c);
    NextCore(c, e);
    var s := c.core;
    match e
    case PreAllocCall(u, cpu, blocking, inject) => RequestCause(s, u, cpu, blocking, inject, t);
    case BlockUntilReadyCall(u) => WaitLoopCause(s, u, t);
    case WaitReturns(u) => WakeCause(c, u, t);
    case PostSuccessCall(u) => SuccessIsQuiet(c, u, t);
    case PostFailedCall(_, _, _) => FailureCause(c, e, t);
    case CheckDeadlocksCall(java) => RoundCause(LookOf(c, e), t);
    case DeallocCall(u, cpu) => DeallocIsQuiet(s, u, cpu, t);
    case StartDedicatedCall(u, task) => StartIsQuiet(s, u, task, t);
    case PoolWorkingCall(isForShuffle, u, tasks) => PoolIsQuiet(s, isForShuffle, u, tasks, t);
    case SetPoolBlockedCall(_, _) =>
    case PoolFinishedCall(u, tasks) =>
      PoolFinishedDisturbs(s, u, tasks);
      QuietDisturbance(s, PoolFinished(s, u, tasks), t);
    case RemoveAssociationCall(u, task) =>
      RemoveAssociationDisturbs(s, u, task);
      QuietDisturbance(s, RemoveAssociation(s, u, task), t);
    case TaskDoneCall(task) =>
      TaskDoneDisturbs(s, task);
      QuietDisturbance(s, TaskDone(s, task), t);
    case GetAndResetRetriesCall(task) =>
      ResetRetriesDisturbs(s, task);
      StirIsQuiet(s, ResetRetries(s, task), t);
    case RemoveTaskMetricsCall(_) =>
    case PriorityDoneCall(_) =>
  }

  lemma DeallocIsQuiet(s: Core, u: int, cpu: bool, t: int)
    requires ToldToRollBack(Dealloc(s, u, cpu), t)
    ensures ToldToRollBack(s, t)
  {
    hide WakeNext;
    var s1 := s.(threads := MarkFreed(s.threads, u, cpu));
    WakeNextDisturbs(s1, cpu);
    QuietDisturbance(s1, WakeNext(s1, cpu), t);
  }

  /** The same, over whole runs. */
  lemma RollbacksHaveCauses(cs: seq<Config>, es: seq<Event>, i: nat, t: int)
    requires IsRun(cs, es) && i < |es|
    requires ToldToRollBack(cs[i + 1].core, t) && !ToldToRollBack(cs[i].core, t)
    ensures LowestInDeadlock(LookOf(cs[i], es[i]), t) || FailedItsRetry(cs[i], es[i], t)
  {
    hide Inv, Next, LowestInDeadlock, FailedItsRetry;
    RunsKeepInv(cs, es, i);
    RollbackHasACause(cs[i], es[i], t);
  }
}
