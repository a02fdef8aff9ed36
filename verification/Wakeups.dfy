/** Sleeping owners are never forgotten, and sleeping threads never erased. */
module Wakeups {
  import opened Collections
  import opened Threads
  import opened Scheduler
  import opened Runs
  import opened Disturbances
  import opened Safety

  /**
    No lost wakeup: an owner inside the wait loop still has its entry, and unless that entry is BLOCKED
    or BUFN a notification is pending.
  */
  lemma NoLostWakeup(cs: seq<Config>, es: seq<Event>, i: nat, t: int)
    requires IsRun(cs, es) && i < |cs| && t in cs[i].core.waiting
    ensures t in cs[i].core.threads
    ensures IsBlocked(cs[i].core.threads[t].state) || t in cs[i].core.notified
  {
    RunsKeepInv(cs, es, i);
    InvAt(cs[i], t);
  }

  /** The retry flag is held only while RUNNING, ALLOC or ALLOC_FREE. */
  lemma RetryFlagOnlyWhileRunning(cs: seq<Config>, es: seq<Event>, i: nat, t: int)
    requires IsRun(cs, es) && i < |cs| && t in cs[i].core.threads
    requires cs[i].core.threads[t].retryBeforeBufn
    ensures cs[i].core.threads[t].state == Running || InAlloc(cs[i].core.threads[t].state)
  {
    RunsKeepInv(cs, es, i);
    InvAt(cs[i], t);
  }

  // ----- a sleeping thread is not erased -----

  /** Still there: asleep, or told to throw with nothing left to work on. */
  ghost predicate Survives(s: Core, t: int)
  {
    && t in s.threads
    && (IsBlocked(s.threads[t].state) || (s.threads[t].state == RemoveThrow && s.threads[t].poolTasks == {}))
  }

  lemma {:induction false} RemoveAllSpares(s: Core, ids: set<int>, task: int, t: int)
    requires task >= 0 && t in s.threads && IsBlocked(s.threads[t].state)
    requires s.threads[t].taskId >= 0 ==> s.threads[t].poolTasks == {}
    ensures Survives(RemoveAll(s, ids, task).0, t)
    decreases ids
  {
    hide Remove;
    if ids != {} {
      var u := MinOf(ids);
      var s1 := Remove(s, u, task).0;
      RemoveDisturbs(s, u, task);
      if u == t {
        RemoveBlocked(s, t, task);
        RemoveAllElsewhere(s1, ids - {u}, task, t);
      } else {
        RemoveAllSpares(s1, ids - {u}, task, t);
      }
    }
  }

  lemma RemoveBlocked(s: Core, t: int, task: int)
    requires task >= 0 && t in s.threads && IsBlocked(s.threads[t].state)
    requires s.threads[t].taskId >= 0 ==> s.threads[t].poolTasks == {}
    ensures Survives(Remove(s, t, task).0, t)
  {
  }

  lemma {:induction false} RemoveAllElsewhere(s: Core, ids: set<int>, task: int, t: int)
    requires t !in ids && t in s.threads
    ensures t in RemoveAll(s, ids, task).0.threads && RemoveAll(s, ids, task).0.threads[t] == s.threads[t]
    decreases ids
  {
    hide Remove;
    if ids != {} {
      var u := MinOf(ids);
      RemoveDisturbs(s, u, task);
      RemoveAllElsewhere(Remove(s, u, task).0, ids - {u}, task, t);
    }
  }

  lemma {:induction false} LeaveAllSpares(s: Core, ids: set<int>, task: int, t: int)
    requires Survives(s, t)
    ensures t in LeaveAll(s, ids, task).0.threads
    decreases ids
  {
    hide LeaveTask;
    if ids != {} {
      var u := MinOf(ids);
      var s1 := LeaveTask(s, u, task).0;
      LeaveDisturbs(s, u, task);
      if u == t {
        assert t in s1.threads by {
          LeaveSpares(s, t, task);
        }
        LeaveAllElsewhere(s1, ids - {u}, task, t);
      } else {
        LeaveAllSpares(s1, ids - {u}, task, t);
      }
    }
  }

  lemma LeaveSpares(s: Core, t: int, task: int)
    requires Survives(s, t)
    ensures t in LeaveTask(s, t, task).0.threads
  {
  }

  lemma {:induction false} LeaveAllElsewhere(s: Core, ids: set<int>, task: int, t: int)
    requires t !in ids && t in s.threads
    ensures t in LeaveAll(s, ids, task).0.threads
    decreases ids
  {
    hide LeaveTask;
    if ids != {} {
      var u := MinOf(ids);
      LeaveDisturbs(s, u, task);
      LeaveAllElsewhere(LeaveTask(s, u, task).0, ids - {u}, task, t);
    }
  }

  lemma TaskDoneSpares(s: Core, task: int, t: int)
    requires task >= 0 && t in s.threads && IsBlocked(s.threads[t].state)
    requires s.threads[t].taskId >= 0 ==> s.threads[t].poolTasks == {}
    ensures t in TaskDone(s, task).threads
  {
    hide RemoveAll, LeaveAll, WakeIf;
    var r1 := RemoveAll(s, if task in s.taskThreads then s.taskThreads[task] else {}, task);
    RemoveAllSpares(s, if task in s.taskThreads then s.taskThreads[task] else {}, task, t);
    LeaveAllSpares(r1.0, r1.0.threads.Keys, task, t);
    var r2 := LeaveAll(r1.0, r1.0.threads.Keys, task);
    WakeIfDisturbs((r2.0, r1.1 || r2.1));
  }

  lemma RemovalSpares(s: Core, t: int, u: int, task: int, tasks: set<int>)
    requires t in s.threads && IsBlocked(s.threads[t].state)
    ensures t in RemoveAssociation(s, u, task).threads
    ensures t in PoolFinished(s, u, tasks).threads
  {
    hide Remove, WakeIf;
    RemoveDisturbs(s, u, task);
    WakeIfDisturbs(Remove(s, u, task));
    if u in s.threads {
      CheckpointDisturbs(s, u);
      var s1 := Checkpoint(s, u);
      var s2 := Put(s1, u, s1.threads[u].(poolTasks := s1.threads[u].poolTasks - tasks));
      RemoveDisturbs(s2, u, -1);
      WakeIfDisturbs(Remove(s2, u, -1));
    }
  }

  lemma DeallocKeys(s: Core, u: int, cpu: bool)
    ensures Dealloc(s, u, cpu).threads.Keys == s.threads.Keys
  {
  }

  /** An owner's own step erases at most its own entry, and only in state REMOVE_THROW. */
  lemma WaitLoopErases(s: Core, u: int, t: int)
    requires -1 !in s.threads && t in s.threads && (t == u ==> s.threads[t].state != RemoveThrow)
    ensures t in BlockUntilReady(s, u).0.threads
  {
    hide CheckAndUpdate;
    if u in s.threads && s.threads[u].state == BufnWait {
      RoundDisturbs(Move(s, u, Bufn), None);
      RoundOnBufn(Move(s, u, Bufn), None, u);
    }
  }

  lemma ResumeErasesNobody(r: (Core, Outcome), u: int, cpu: bool, t: int)
    requires t in r.0.threads
    ensures t in Resume(r, u, cpu).0.threads
  {
  }

  lemma RequestErasesNobody(s: Core, u: int, cpu: bool, blocking: bool, inject: Inject, t: int)
    requires -1 !in s.threads && t in s.threads && IsBlocked(s.threads[t].state)
    ensures t in PreAlloc(s, u, cpu, blocking, inject).0.threads
  {
    hide BlockUntilReady, Resume;
    WaitLoopErases(s, u, t);
    ResumeErasesNobody(BlockUntilReady(s, u), u, cpu, t);
    ResumeErasesNobody((s, Finished(false)), u, cpu, t);
  }

  lemma WakeErasesNobody(c: Config, u: int, t: int)
    requires -1 !in c.core.threads && t in c.core.threads && IsBlocked(c.core.threads[t].state)
    ensures t in Continue(WakeUp(c.core, u), u, CallerOf(c, u)).0.threads
  {
    hide BlockUntilReady, Resume, CallerOf;
    var s := c.core;
    WaitLoopErases(s.(waiting := s.waiting - {u}, notified := s.notified - {u}), u, t);
    match CallerOf(c, u)
    case JustWaiting =>
    case Allocating(cpu) => ResumeErasesNobody(WakeUp(s, u), u, cpu, t);
  }

  lemma StirErasesNobody(s: Core, s': Core, round: bool)
    requires Stirred(s, s', round)
    ensures s'.threads.Keys == s.threads.Keys
  {
  }

  lemma PostSuccessErasesNobody(s: Core, u: int, cpu: bool, nested: bool, t: int)
    requires t in s.threads
    ensures t in PostSuccess(s, u, cpu, nested).0.threads
  {
    hide WakeNext, Stirred;
    if u in s.threads {
      var th := s.threads[u].(retryBeforeBufn := false);
      var s1, s2 := Put(s, u, th), Put(s, u, th.(state := Running, isCpuAlloc := false));
      WakeNextDisturbs(s1, cpu);
      StirErasesNobody(s1, WakeNext(s1, cpu), false);
      WakeNextDisturbs(s2, cpu);
      StirErasesNobody(s2, WakeNext(s2, cpu), false);
    }
  }

  lemma PostFailedErasesNobody(s: Core, u: int, cpu: bool, oom: bool, blocking: bool, nested: bool, t: int)
    requires -1 !in s.threads && t in s.threads
    ensures t in PostFailed(s, u, cpu, oom, blocking, nested).0.threads
  {
    hide CheckAndUpdate, Stirred, AfterFailure;
    if u in s.threads && !nested {
      var s1 := Put(s, u, AfterFailure(s.threads[u], oom, blocking));
      var s2 := if s1.threads[u].state == BufnThrow then Notify(s1, u) else s1;
      RoundDisturbs(s2, None);
      StirErasesNobody(s2, CheckAndUpdate(s2, None), true);
    } else {
      RoundDisturbs(s, None);
      StirErasesNobody(s, CheckAndUpdate(s, None), true);
    }
  }

  lemma StartErasesNoSleeper(s: Core, u: int, task: int, t: int)
    requires t in s.threads && IsBlocked(s.threads[t].state)
    ensures t in StartDedicated(s, u, task).0.threads
  {
    hide Remove;
    if MustRededicate(s, u, task) {
      RemoveDisturbs(s, u, s.threads[u].taskId);
    }
  }

  lemma PoolErasesNobody(s: Core, isForShuffle: bool, u: int, tasks: set<int>, t: int)
    requires t in s.threads
    ensures t in PoolWorking(s, isForShuffle, u, tasks).0.threads
  {
    hide Checkpoint;
    if PoolWorking(s, isForShuffle, u, tasks).1.Finished? {
      PoolPut(s, isForShuffle, u, tasks);
    }
  }

  /** No lock-held section erases the entry of a BLOCKED or BUFN thread. */
  lemma BlockedNeverErased(c: Config, e: Event, t: int)
    requires Inv(c) && Allowed(c, e) && t in c.core.threads && IsBlocked(c.core.threads[t].state)
    ensures t in Next(c, e).core.threads
  {
    hide Inv, PreAlloc, PostSuccess, PostFailed, BlockUntilReady, WakeUp, Dealloc, PoolFinished, StartDedicated,
      PoolWorking, RemoveAssociation, TaskDone, CheckAndUpdate, ResetRetries, Continue, Stirred, Next, NoEraseInside,
      Top, CallerOf, BracketsOf, Idle, MustRededicate;
    InvAt(c, t);
    InvBasics(c);
    NextCore(c, e);
    var s := c.core;
    match e
    case PreAllocCall(u, cpu, blocking, inject) => RequestErasesNobody(s, u, cpu, blocking, inject, t);
    case PostSuccessCall(u) => PostSuccessErasesNobody(s, u, Top(c, u).cpu, Top(c, u).nested, t);
    case PostFailedCall(u, oom, blocking) =>
      PostFailedErasesNobody(s, u, Top(c, u).cpu, oom, blocking, Top(c, u).nested, t);
    case BlockUntilReadyCall(u) => WaitLoopErases(s, u, t);
    case WaitReturns(u) => WakeErasesNobody(c, u, t);
    case DeallocCall(u, cpu) => DeallocKeys(s, u, cpu);
    case StartDedicatedCall(u, task) => StartErasesNoSleeper(s, u, task, t);
    case PoolWorkingCall(isForShuffle, u, tasks) => PoolErasesNobody(s, isForShuffle, u, tasks, t);
    case PoolFinishedCall(u, tasks) => RemovalSpares(s, t, u, -1, tasks);
    case RemoveAssociationCall(u, task) => RemovalSpares(s, t, u, task, {});
    case TaskDoneCall(task) => TaskDoneSpares(s, task, t);
    case SetPoolBlockedCall(_, _) =>
    case CheckDeadlocksCall(java) =>
      RoundDisturbs(s, Some(java));
      StirErasesNobody(s, CheckAndUpdate(s, Some(java)), true);
    case GetAndResetRetriesCall(task) =>
      ResetRetriesDisturbs(s, task);
      StirErasesNobody(s, ResetRetries(s, task), false);
    case RemoveTaskMetricsCall(_) =>
    case PriorityDoneCall(_) =>
  }
}
