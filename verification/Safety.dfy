/** The invariant holds in every reachable configuration, and what follows for callers. */
module Safety {
  import opened Collections
  import opened TaskPriority
  import opened Threads
  import opened Deadlock
  import opened Scheduler
  import opened DeadlockBreaking
  import opened Runs
  import opened Disturbances

  /** Only one thread's affairs differ. */
  lemma LocalChange(c: Config, c': Config, t: int)
    requires Inv(c)
    requires forall u | u != t :: ViewOf(c', u) == ViewOf(c, u)
    requires GoodView(ViewOf(c', t)) && -1 !in c'.core.threads && Valid(c'.core.prio)
    ensures Inv(c')
  {
  }

  lemma SameViews(c: Config, c': Config)
    requires Inv(c)
    requires forall t :: ViewOf(c', t) == ViewOf(c, t)
    requires -1 !in c'.core.threads && Valid(c'.core.prio)
    ensures Inv(c')
  {
  }

  lemma InvAt(c: Config, t: int)
    requires Inv(c)
    ensures GoodView(ViewOf(c, t))
  {
  }

  lemma InvBasics(c: Config)
    requires Inv(c)
    ensures -1 !in c.core.threads && Valid(c.core.prio)
  {
  }

  /** One entry is set, to something good. */
  lemma PutKeeps(c: Config, t: int, th: Thread)
    requires Inv(c) && t != -1
    requires GoodView(View(Some(th), BracketsOf(c, t), t in c.core.waiting, t in c.core.notified))
    ensures Inv(c.(core := Put(c.core, t, th)))
  {
    hide Inv, GoodView;
    InvBasics(c);
    LocalChange(c, c.(core := Put(c.core, t, th)), t);
  }

  /** Tables of tasks and what sleeping owners go on with do not matter. */
  lemma SameEntries(c: Config, c': Config)
    requires Inv(c) && c'.core.threads == c.core.threads && c'.core.prio == c.core.prio && c'.brackets == c.brackets
    requires c'.core.waiting == c.core.waiting && c'.core.notified == c.core.notified
    ensures Inv(c')
  {
    hide Inv, GoodView;
    InvBasics(c);
    SameViews(c, c');
  }

  /** Where the wait loop leaves a thread that entered it awake. */
  ghost predicate Settled(s: Core, r: (Core, Outcome), t: int)
  {
    match r.1
    case Finished(result) =>
      !result && r.0 == s && (t in s.threads ==> s.threads[t].state == Running || InAlloc(s.threads[t].state))
    case Asleep => t in r.0.threads && IsBlocked(r.0.threads[t].state)
    case Threw(e) => e.RetryOom? || e.SplitAndRetryOom? || e.RetryLimit? || e.ThreadRemoved?
  }

  lemma SettleKeeps(c: Config, t: int)
    requires Inv(c) && t !in c.core.waiting
    requires t in c.core.threads ==> c.core.threads[t].state != BufnWait
    ensures Inv(c.(core := Settle(c.core, t).0))
    ensures Settled(c.core, Settle(c.core, t), t)
  {
    hide Inv;
    InvAt(c, t);
    InvBasics(c);
    if t in c.core.threads {
      var th := c.core.threads[t];
      match th.state
      case Blocked => FallAsleepKeeps(c, t);
      case Bufn => FallAsleepKeeps(c, t);
      case BufnThrow => PutKeeps(c, t, CountAgainstLimit(CountRetry(th.(state := BufnWait))));
      case SplitThrow => PutKeeps(c, t, CountAgainstLimit(CountSplit(th.(state := Running))));
      case RemoveThrow => EraseKeeps(c, t);
      case _ =>
    }
  }

  lemma FallAsleepKeeps(c: Config, t: int)
    requires Inv(c) && t in c.core.threads && IsBlocked(c.core.threads[t].state)
    ensures Inv(c.(core := Sleep(c.core, t)))
  {
    hide Inv;
    InvAt(c, t);
    InvBasics(c);
    LocalChange(c, c.(core := Sleep(c.core, t)), t);
  }

  lemma EraseKeeps(c: Config, t: int)
    requires Inv(c) && t in c.core.threads && t !in c.core.waiting && !InAlloc(c.core.threads[t].state)
    ensures Inv(c.(core := c.core.(threads := c.core.threads - {t})))
  {
    hide Inv;
    InvAt(c, t);
    InvBasics(c);
    LocalChange(c, c.(core := c.core.(threads := c.core.threads - {t})), t);
  }

  /** A round of deadlock breaking leaves a BUFN thread BUFN or tells it to split. */
  lemma RoundOnBufn(s: Core, java: JavaBlocked, t: int)
    requires t in s.threads && s.threads[t].state == Bufn
    ensures t in CheckAndUpdate(s, java).threads
    ensures
      var state := CheckAndUpdate(s, java).threads[t].state;
      state == Bufn || state == SplitThrow
  {
    hide CheckAndUpdate, Deadlocked, AllBufn, LowestBlocked, HighestBufn;
    RoundEffect(s, java);
    assert RoundMoves(s, java, CheckAndUpdate(s, java), t);
    assert t !in BlockedIds(s.threads);
  }

  lemma ReadyKeeps(c: Config, t: int)
    requires Inv(c) && t !in c.core.waiting
    ensures Inv(c.(core := BlockUntilReady(c.core, t).0))
    ensures
      var r := BlockUntilReady(c.core, t);
      exists s :: Settled(s, r, t) && (r.1.Finished? ==> s == c.core)
  {
    hide CheckAndUpdate, Settle, Inv;
    InvAt(c, t);
    InvBasics(c);
    if t in c.core.threads && c.core.threads[t].state == BufnWait {
      var c1 := c.(core := Move(c.core, t, Bufn));
      LocalChange(c, c1, t);
      InvBasics(c1);
      var s2 := CheckAndUpdate(c1.core, None);
      RoundDisturbs(c1.core, None);
      RoundOnBufn(c1.core, None, t);
      DisturbanceKeepsInv(c1, s2, true);
      SettleKeeps(c1.(core := s2), t);
      assert Settled(s2, BlockUntilReady(c.core, t), t);
    } else {
      SettleKeeps(c, t);
      assert Settled(c.core, BlockUntilReady(c.core, t), t);
    }
  }

  /** Opening a bracket: the outermost of a RUNNING thread, a nested one, or one of an unregistered thread. */
  lemma PushKeeps(c: Config, t: int, b: Bracket)
    requires Inv(c) && t !in c.core.waiting
    requires t !in c.core.threads ==> !b.nested
    requires t in c.core.threads ==> InAlloc(c.core.threads[t].state) && b.nested
    ensures Inv(Push(c, t, b))
  {
    hide Inv;
    InvAt(c, t);
    InvBasics(c);
    LocalChange(c, Push(c, t, b), t);
  }

  lemma OpenKeeps(c: Config, t: int, cpu: bool)
    requires Inv(c) && t in c.core.threads && c.core.threads[t].state == Running && t !in c.core.waiting
    ensures
      var th := c.core.threads[t].(state := Alloc, isCpuAlloc := cpu);
      Inv(Push(c.(core := Put(c.core, t, th)), t, Bracket(cpu, false)))
  {
    hide Inv;
    InvAt(c, t);
    InvBasics(c);
    var th := c.core.threads[t].(state := Alloc, isCpuAlloc := cpu);
    LocalChange(c, Push(c.(core := Put(c.core, t, th)), t, Bracket(cpu, false)), t);
  }

  lemma EnterKeeps(c: Config, t: int, cpu: bool)
    requires Inv(c) && t !in c.core.waiting
    ensures Inv(Requested(c, EnterBracket(c.core, t, cpu), t, cpu))
  {
    hide Inv, Push;
    if t !in c.core.threads {
      PushKeeps(c, t, Bracket(cpu, false));
    } else if c.core.threads[t].state == Running {
      OpenKeeps(c, t, cpu);
    }
  }

  /** After the wait loop an allocation request enters its bracket, and never finds a surprising state. */
  lemma ResumeKeeps(c: Config, s: Core, r: (Core, Outcome), t: int, cpu: bool)
    requires Settled(s, r, t) && (r.1.Finished? ==> s == c.core)
    requires Inv(c) && Inv(c.(core := r.0)) && (t in c.core.threads ==> BracketsOf(c, t) == [])
    requires t !in c.core.waiting
    ensures Inv(Requested(c, Resume(r, t, cpu), t, cpu))
    ensures Resume(r, t, cpu).1 != Threw(UnexpectedPreAlloc)
  {
    hide Inv, Push;
    match r.1
    case Finished(_) =>
      InvAt(c, t);
      EnterKeeps(c, t, cpu);
    case Asleep => SameEntries(c.(core := r.0), Requested(c, r, t, cpu));
    case Threw(_) =>
  }

  lemma PreAllocKeeps(c: Config, t: int, cpu: bool, blocking: bool, inject: Inject)
    requires Inv(c) && t !in c.core.waiting
    ensures Inv(Requested(c, PreAlloc(c.core, t, cpu, blocking, inject), t, cpu))
    ensures blocking ==> PreAlloc(c.core, t, cpu, blocking, inject).1 != Threw(UnexpectedPreAlloc)
  {
    hide BlockUntilReady, Inv, Requested, Resume;
    InvAt(c, t);
    if t in c.core.threads && !InAlloc(c.core.threads[t].state) && inject == NoInject && blocking {
      ReadyKeeps(c, t);
      var s :| Settled(s, BlockUntilReady(c.core, t), t) &&
               (BlockUntilReady(c.core, t).1.Finished? ==> s == c.core);
      ResumeKeeps(c, s, BlockUntilReady(c.core, t), t, cpu);
    } else {
      QuickPreAllocKeeps(c, t, cpu, blocking, inject);
    }
  }

  /** The requests that are decided without waiting. */
  lemma QuickPreAllocKeeps(c: Config, t: int, cpu: bool, blocking: bool, inject: Inject)
    requires Inv(c) && t !in c.core.waiting
    requires !(t in c.core.threads && !InAlloc(c.core.threads[t].state) && inject == NoInject && blocking)
    ensures Inv(Requested(c, PreAlloc(c.core, t, cpu, blocking, inject), t, cpu))
    ensures blocking ==> PreAlloc(c.core, t, cpu, blocking, inject).1 != Threw(UnexpectedPreAlloc)
  {
    hide BlockUntilReady, Inv, Push;
    InvAt(c, t);
    InvBasics(c);
    if t !in c.core.threads {
      PushKeeps(c, t, Bracket(cpu, false));
    } else if InAlloc(c.core.threads[t].state) {
      PushKeeps(c, t, Bracket(cpu, true));
    } else {
      match inject
      case ForceRetry => PutKeeps(c, t, CountRetry(c.core.threads[t]));
      case ForceSplit => PutKeeps(c, t, CountSplit(c.core.threads[t]));
      case ForceCudf =>
      case NoInject => EnterKeeps(c, t, cpu);
    }
  }

  /** When the wait loop is left the entry is still there, so using it is safe. */
  lemma WaitReturnsKeeps(c: Config, t: int)
    requires Inv(c) && t in c.core.waiting
    ensures t in c.core.threads
    ensures Inv(Continued(c, Continue(WakeUp(c.core, t), t, CallerOf(c, t)), t))
    ensures Continue(WakeUp(c.core, t), t, CallerOf(c, t)).1 != Threw(UnexpectedPreAlloc)
  {
    hide BlockUntilReady, Inv, Requested, Waited, Resume, Settled;
    InvAt(c, t);
    if IsBlocked(c.core.threads[t].state) {
      BackToSleepKeeps(c, t);
    } else {
      var c1 := c.(core := c.core.(waiting := c.core.waiting - {t}, notified := c.core.notified - {t}));
      InvBasics(c);
      LocalChange(c, c1, t);
      ReadyKeeps(c1, t);
      var r := BlockUntilReady(c1.core, t);
      var s :| Settled(s, r, t) && (r.1.Finished? ==> s == c1.core);
      match CallerOf(c, t)
      case JustWaiting => WaitedKeeps(c1, c, r, s, t);
      case Allocating(cpu) =>
        ResumeKeeps(c1, s, r, t, cpu);
        assert Requested(c, Resume(r, t, cpu), t, cpu) == Requested(c1, Resume(r, t, cpu), t, cpu) by {
          RequestedIgnoresCore(c, c1, Resume(r, t, cpu), t, cpu);
        }
    }
  }

  lemma RequestedIgnoresCore(c: Config, c1: Config, r: (Core, Outcome), t: int, cpu: bool)
    requires c1.brackets == c.brackets && c1.callers == c.callers
    ensures Requested(c, r, t, cpu) == Requested(c1, r, t, cpu)
  {
  }

  lemma WaitedKeeps(c1: Config, c: Config, r: (Core, Outcome), s: Core, t: int)
    requires c1.brackets == c.brackets && c1.callers == c.callers
    requires Inv(c1.(core := r.0)) && Settled(s, r, t)
    ensures Inv(Waited(c, r, t)) && r.1 != Threw(UnexpectedPreAlloc)
  {
    hide Inv;
    InvBasics(c1.(core := r.0));
    SameViews(c1.(core := r.0), Waited(c, r, t));
  }

  lemma BackToSleepKeeps(c: Config, t: int)
    requires Inv(c) && t in c.core.waiting && t in c.core.threads && IsBlocked(c.core.threads[t].state)
    ensures Inv(Continued(c, Continue(WakeUp(c.core, t), t, CallerOf(c, t)), t))
    ensures Continue(WakeUp(c.core, t), t, CallerOf(c, t)).1 == Asleep
  {
    hide BlockUntilReady, Inv;
    InvAt(c, t);
    InvBasics(c);
    LocalChange(c, Continued(c, Continue(WakeUp(c.core, t), t, CallerOf(c, t)), t), t);
  }

  /** Closing a bracket: a nested one leaves the thread allocating, the outermost one was the only one. */
  lemma ClosingBracket(c: Config, t: int)
    requires Inv(c) && BracketsOf(c, t) != []
    ensures t in c.core.threads ==>
      && InAlloc(c.core.threads[t].state)
      && (Top(c, t).nested || (|BracketsOf(c, t)| == 1 && Top(c, t).cpu == c.core.threads[t].isCpuAlloc))
    ensures Top(c, t).nested || t !in c.core.threads ==> Inv(Closed(c, c.core, t))
  {
    hide Inv;
    InvAt(c, t);
    InvBasics(c);
    if Top(c, t).nested || t !in c.core.threads {
      LocalChange(c, Closed(c, c.core, t), t);
    }
  }

  /** The outermost bracket closes and its thread leaves the allocating states. */
  lemma OutermostClosed(c: Config, s': Core, t: int)
    requires Inv(c) && t in c.core.threads && |BracketsOf(c, t)| == 1
    requires s'.threads.Keys == c.core.threads.Keys && s'.prio == c.core.prio && s'.waiting == c.core.waiting
    requires forall u | u in s'.threads && u != t :: s'.threads[u] == c.core.threads[u]
    requires forall u | u != t :: u in s'.notified <==> u in c.core.notified
    requires
      var th, th' := c.core.threads[t], s'.threads[t];
      && (th'.state == Running || (!InAlloc(th'.state) && !th'.retryBeforeBufn))
      && th'.taskId == th.taskId && th'.poolTasks == th.poolTasks
    ensures Inv(Closed(c, s', t))
  {
    hide Inv;
    InvAt(c, t);
    InvBasics(c);
    LocalChange(c, Closed(c, s', t), t);
  }

  lemma PostSuccessKeeps(c: Config, t: int)
    requires Inv(c) && t !in c.core.waiting && BracketsOf(c, t) != []
    ensures Inv(Closed(c, PostSuccess(c.core, t, Top(c, t).cpu, Top(c, t).nested).0, t))
    ensures !PostSuccess(c.core, t, Top(c, t).cpu, Top(c, t).nested).1.Threw?
  {
    hide WakeNext, Inv, Top;
    var top := Top(c, t);
    ClosingBracket(c, t);
    if !top.nested && t in c.core.threads {
      var th := c.core.threads[t].(retryBeforeBufn := false, state := Running, isCpuAlloc := false);
      var s1 := Put(c.core, t, th);
      OutermostClosed(c, s1, t);
      WakeNextDisturbs(s1, top.cpu);
      DisturbanceKeepsInv(Closed(c, s1, t), WakeNext(s1, top.cpu), false);
    }
  }

  lemma PostFailedKeeps(c: Config, t: int, oom: bool, blocking: bool)
    requires Inv(c) && t !in c.core.waiting && BracketsOf(c, t) != []
    ensures Inv(Closed(c, PostFailed(c.core, t, Top(c, t).cpu, oom, blocking, Top(c, t).nested).0, t))
    ensures !PostFailed(c.core, t, Top(c, t).cpu, oom, blocking, Top(c, t).nested).1.Threw?
  {
    hide CheckAndUpdate, Inv, Top;
    var top := Top(c, t);
    ClosingBracket(c, t);
    InvBasics(c);
    if top.nested || t !in c.core.threads {
      RoundDisturbs(c.core, None);
      DisturbanceKeepsInv(Closed(c, c.core, t), CheckAndUpdate(c.core, None), true);
    } else {
      var s1 := Put(c.core, t, AfterFailure(c.core.threads[t], oom, blocking));
      var s2 := if s1.threads[t].state == BufnThrow then Notify(s1, t) else s1;
      OutermostClosed(c, s2, t);
      RoundDisturbs(s2, None);
      DisturbanceKeepsInv(Closed(c, s2, t), CheckAndUpdate(s2, None), true);
    }
  }

  lemma DeallocKeeps(c: Config, t: int, cpu: bool)
    requires Inv(c)
    ensures Inv(c.(core := Dealloc(c.core, t, cpu)))
  {
    hide WakeNext;
    var c1 := c.(core := c.core.(threads := MarkFreed(c.core.threads, t, cpu)));
    assert Inv(c1) by {
      forall u ensures GoodView(ViewOf(c1, u)) {
        assert GoodView(ViewOf(c, u));
      }
    }
    WakeNextDisturbs(c1.core, cpu);
    DisturbanceKeepsInv(c1, WakeNext(c1.core, cpu), false);
  }

  lemma StartDedicatedKeeps(c: Config, t: int, task: int)
    requires Inv(c) && Allowed(c, StartDedicatedCall(t, task))
    ensures Inv(c.(core := StartDedicated(c.core, t, task).0))
  {
    hide Remove, Inv, GoodView;
    var s := c.core;
    var c1 := c;
    if MustRededicate(s, t, task) {
      RemoveDisturbs(s, t, s.threads[t].taskId);
      c1 := c.(core := Remove(s, t, s.threads[t].taskId).0);
      DisturbanceKeepsInv(c, c1.core, false);
    }
    if t !in c1.core.threads {
      FreshIsGood(c1, t, task, false);
      PutKeeps(c1, t, FreshThread(task, false));
      var c2 := c1.(core := Put(c1.core, t, FreshThread(task, false)));
      SameEntries(c2, c2.(core := Link(c2.core, t, task)));
    } else {
      SameEntries(c1, c1.(core := Link(c1.core, t, task)));
    }
  }

  lemma FreshIsGood(c: Config, t: int, task: int, isForShuffle: bool)
    requires Inv(c) && t !in c.core.threads && BracketsOf(c, t) == [] && task >= -1
    ensures GoodView(View(Some(FreshThread(task, isForShuffle)), BracketsOf(c, t),
                          t in c.core.waiting, t in c.core.notified))
  {
    InvAt(c, t);
  }

  lemma PoolWorkingKeeps(c: Config, isForShuffle: bool, t: int, tasks: set<int>)
    requires Inv(c) && Allowed(c, PoolWorkingCall(isForShuffle, t, tasks))
    ensures Inv(c.(core := PoolWorking(c.core, isForShuffle, t, tasks).0))
  {
    hide Inv;
    InvAt(c, t);
    InvBasics(c);
    var r := PoolWorking(c.core, isForShuffle, t, tasks);
    if r.1.Finished? {
      var th := if t in c.core.threads then c.core.threads[t] else FreshThread(-1, isForShuffle);
      var after := th.(metrics := NO_METRICS, poolTasks := th.poolTasks + tasks);
      PutKeeps(c, t, after);
      PoolPut(c.core, isForShuffle, t, tasks);
      SameEntries(c.(core := Put(c.core, t, after)), c.(core := r.0));
    }
  }

  lemma PoolPut(s: Core, isForShuffle: bool, t: int, tasks: set<int>)
    requires PoolWorking(s, isForShuffle, t, tasks).1.Finished?
    ensures
      var th := if t in s.threads then s.threads[t] else FreshThread(-1, isForShuffle);
      var s' := PoolWorking(s, isForShuffle, t, tasks).0;
      && s'.threads == s.threads[t := th.(metrics := NO_METRICS, poolTasks := th.poolTasks + tasks)]
      && s'.prio == s.prio && s'.waiting == s.waiting && s'.notified == s.notified
  {
    var th := if t in s.threads then s.threads[t] else FreshThread(-1, isForShuffle);
    var last := th.(metrics := NO_METRICS, poolTasks := th.poolTasks + tasks);
    assert s.threads[t := th][t := th.(metrics := NO_METRICS)][t := last] == s.threads[t := last];
    assert s.threads[t := th.(metrics := NO_METRICS)][t := last] == s.threads[t := last];
  }

  lemma StirKeepsInv(c: Config, s': Core, round: bool)
    requires Inv(c) && Stirred(c.core, s', round)
    ensures Inv(c.(core := s'))
  {
    hide Inv, Nudged;
    DisturbanceKeepsInv(c, s', round);
  }

  lemma WaitLoopKeeps(c: Config, t: int)
    requires Inv(c) && t !in c.core.waiting
    ensures Inv(Waited(c, BlockUntilReady(c.core, t), t))
  {
    hide Inv, BlockUntilReady, Settled, GoodView;
    ReadyKeeps(c, t);
    var c1 := c.(core := BlockUntilReady(c.core, t).0);
    InvBasics(c1);
    SameViews(c1, Waited(c, BlockUntilReady(c.core, t), t));
  }

  lemma PoolBlockedKeeps(c: Config, t: int, blocked: bool)
    requires Inv(c)
    ensures Inv(c.(core := SetPoolBlocked(c.core, t, blocked).0))
  {
    hide Inv;
    InvAt(c, t);
    InvBasics(c);
    LocalChange(c, c.(core := SetPoolBlocked(c.core, t, blocked).0), t);
  }

  lemma TablesKeepInv(c: Config, task: int)
    requires Inv(c)
    ensures Inv(c.(core := c.core.(taskMetrics := c.core.taskMetrics - {task})))
    ensures Inv(c.(core := c.core.(prio := Forget(c.core.prio, task))))
  {
    hide Inv, GoodView;
    InvBasics(c);
    SameViews(c, c.(core := c.core.(taskMetrics := c.core.taskMetrics - {task})));
    SameViews(c, c.(core := c.core.(prio := Forget(c.core.prio, task))));
  }

  lemma StepKeepsInv(c: Config, e: Event)
    requires Inv(c) && Allowed(c, e)
    ensures Inv(Next(c, e))
  {
    hide Inv, GoodView, PreAlloc, PostSuccess, PostFailed, BlockUntilReady, WakeUp, Dealloc, StartDedicated,
      PoolWorking, PoolFinished, RemoveAssociation, TaskDone, CheckAndUpdate, ResetRetries, SetPoolBlocked, Forget,
      Disturbed, Stirred, NoEraseInside, Requested, Waited, Continued, Closed, Continue, CallerOf, Top, BracketsOf,
      Idle, MustRededicate;
    var s := c.core;
    InvBasics(c);
    match e
    case PreAllocCall(t, cpu, blocking, inject) => PreAllocKeeps(c, t, cpu, blocking, inject);
    case PostSuccessCall(t) => PostSuccessKeeps(c, t);
    case PostFailedCall(t, oom, blocking) => PostFailedKeeps(c, t, oom, blocking);
    case BlockUntilReadyCall(t) => WaitLoopKeeps(c, t);
    case WaitReturns(t) => WaitReturnsKeeps(c, t);
    case DeallocCall(t, cpu) => DeallocKeeps(c, t, cpu);
    case StartDedicatedCall(t, task) => StartDedicatedKeeps(c, t, task);
    case PoolWorkingCall(isForShuffle, t, tasks) => PoolWorkingKeeps(c, isForShuffle, t, tasks);
    case PoolFinishedCall(t, tasks) =>
      PoolFinishedDisturbs(s, t, tasks);
      DisturbanceKeepsInv(c, PoolFinished(s, t, tasks), false);
    case RemoveAssociationCall(t, task) =>
      RemoveAssociationDisturbs(s, t, task);
      DisturbanceKeepsInv(c, RemoveAssociation(s, t, task), false);
    case TaskDoneCall(task) =>
      TaskDoneDisturbs(s, task);
      DisturbanceKeepsInv(c, TaskDone(s, task), false);
    case SetPoolBlockedCall(t, blocked) => PoolBlockedKeeps(c, t, blocked);
    case CheckDeadlocksCall(java) =>
      RoundDisturbs(s, Some(java));
      StirKeepsInv(c, CheckAndUpdate(s, Some(java)), true);
    case GetAndResetRetriesCall(task) =>
      ResetRetriesDisturbs(s, task);
      StirKeepsInv(c, ResetRetries(s, task), false);
    case RemoveTaskMetricsCall(task) => TablesKeepInv(c, task);
    case PriorityDoneCall(task) => TablesKeepInv(c, task);
  }

  /** The invariant holds in every configuration of every run. */
  lemma {:induction false} RunsKeepInv(cs: seq<Config>, es: seq<Event>, i: nat)
    requires IsRun(cs, es) && i < |cs|
    ensures Inv(cs[i])
  {
    if i == 0 {
      forall t ensures GoodView(ViewOf(cs[0], t)) {}
    } else {
      RunsKeepInv(cs, es, i - 1);
      assert Allowed(cs[i - 1], es[i - 1]) && cs[i - 1 + 1] == Next(cs[i - 1], es[i - 1]);
      StepKeepsInv(cs[i - 1], es[i - 1]);
    }
  }
}
