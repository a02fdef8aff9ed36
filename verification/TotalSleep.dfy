/**
  Some registered thread is always awake, exactly as long as no look for a deadlock is hopeless and the
  last thread awake does not leave in silence.
*/
module TotalSleep {
  import opened Collections
  import opened Threads
  import opened Deadlock
  import opened Scheduler
  import opened DeadlockBreaking
  import opened Runs
  import opened Disturbances
  import opened Safety
  import opened Leavers

  ghost predicate SomeAwake(threads: ThreadMap)
  {
    exists i :: i in threads && !IsBlocked(threads[i].state)
  }

  /** If there is a dedicated thread, then some thread is neither BLOCKED nor BUFN. */
  ghost predicate NotAllAsleep(threads: ThreadMap)
  {
    SomeDedicated(threads) ==> SomeAwake(threads)
  }

  /** Everybody is asleep, nobody is BLOCKED, and a BUFN task that only pool threads work for is there. */
  ghost predicate Hopeless(threads: ThreadMap)
  {
    SomeDedicated(threads) && !SomeAwake(threads) && BlockedIds(threads) == {} && StrayTasks(threads, None) != {}
  }

  /** A step looks for a deadlock, without word from the JVM, in a hopeless state. */
  ghost predicate HopelessLook(look: Look)
  {
    look.Look? && look.java == None && Hopeless(look.core.threads)
  }

  /** The threads that a step erases or tells to throw on removal. */
  function LeaversOf(c: Config, e: Event): set<int>
  {
    var threads := c.core.threads;
    match e
    case RemoveAssociationCall(t, task) => Gone(threads, {t}, task)
    case PoolFinishedCall(t, tasks) => if t in threads && threads[t].poolTasks <= tasks then {t} else {}
    case TaskDoneCall(task) => Finishing(c.core, task)
    case _ => if ThrowsOnRemoval(c, e) then {e.t} else {}
  }

  /** Apart from the leavers there is a dedicated thread, and everybody is asleep. */
  ghost predicate OthersAsleep(threads: ThreadMap, leavers: set<int>)
  {
    && (exists i :: i in threads && i !in leavers && IsDedicated(threads[i]))
    && (forall i | i in threads && i !in leavers :: IsBlocked(threads[i].state))
  }

  ghost predicate LeaveInSilence(threads: ThreadMap, leavers: set<int>)
  {
    && (forall i | i in leavers && i in threads :: threads[i].state != Running && !IsBlocked(threads[i].state))
    && OthersAsleep(threads, leavers)
  }

  /** Threads leave, none of them RUNNING or asleep, and leave behind sleepers only: nobody is woken. */
  ghost predicate SilentLeave(c: Config, e: Event)
  {
    LeaversOf(c, e) != {} && LeaveInSilence(c.core.threads, LeaversOf(c, e))
  }

  // ----- a round of deadlock breaking ends a total sleep -----

  lemma AllAsleepIsDeadlock(threads: ThreadMap)
    requires SomeDedicated(threads) && !SomeAwake(threads)
    ensures Deadlocked(threads, None) && Sleepers(threads) != {}
  {
    forall task | task in AllTasks(threads)
      ensures HasStuckDedicated(threads, None, task) && !HasFreePoolThread(threads, None, task)
    {
      var i :| i in threads && IsDedicated(threads[i]) && threads[i].taskId == task;
      assert DedicatedTo(threads[i], task) && IsStuck(i, threads[i], None);
      forall j | j in threads ensures IsStuck(j, threads[j], None) {}
    }
    var i :| i in threads && IsDedicated(threads[i]);
    assert i in Sleepers(threads);
  }

  /** In a total sleep with nobody BLOCKED, the size comparison holds exactly when there is no stray task. */
  lemma StraysForbidTheSplit(threads: ThreadMap)
    requires !SomeAwake(threads) && BlockedIds(threads) == {}
    ensures AllBufn(threads, None) <==> StrayTasks(threads, None) == {}
  {
    hide AllBufn, StrayTasks;
    forall task | task in AllTasks(threads) ensures IsBufnTask(threads, None, task) {
      var i :| i in threads && IsDedicated(threads[i]) && threads[i].taskId == task;
      assert i !in BlockedIds(threads);
      assert DedicatedTo(threads[i], task) && IsBufnOrAbove(i, threads[i], None);
    }
    NobodyAwake(threads, None);
    SizesCompareAwakeWithStray(threads, None);
  }

  lemma TotalSleepBreaksExactlyWhen(threads: ThreadMap)
    requires SomeDedicated(threads) && !SomeAwake(threads)
    ensures CanBreak(threads, None) <==> !Hopeless(threads)
  {
    hide AllBufn, StrayTasks, Deadlocked;
    AllAsleepIsDeadlock(threads);
    if BlockedIds(threads) == {} {
      StraysForbidTheSplit(threads);
      var v := Member(Sleepers(threads));
      assert v !in BlockedIds(threads);
      assert threads[v].state == Bufn;
    }
  }

  /**
    With a dedicated thread registered, a round leaves some thread awake if and only if the state it
    looks at is not hopeless.
  */
  lemma RoundWakesExactlyWhen(s: Core)
    requires -1 !in s.threads && SomeDedicated(s.threads)
    ensures SomeAwake(CheckAndUpdate(s, None).threads) <==> !Hopeless(s.threads)
  {
    hide CheckAndUpdate, Deadlocked, CanBreak, StrayTasks;
    RoundEffect(s, None);
    RoundProgress(s, None);
    var s' := CheckAndUpdate(s, None);
    if SomeAwake(s.threads) {
      var i :| i in s.threads && !IsBlocked(s.threads[i].state);
      assert i !in Sleepers(s'.threads);
    } else {
      TotalSleepBreaksExactlyWhen(s.threads);
      if CanBreak(s.threads, None) {
        SmallerSet(Sleepers(s.threads), Sleepers(s'.threads));
        var v := MissingMember(Sleepers(s'.threads), Sleepers(s.threads));
        assert v in s'.threads && !IsBlocked(s'.threads[v].state);
      } else {
        SubsetSize(Sleepers(s'.threads), Sleepers(s.threads));
        forall i | i in s'.threads ensures IsBlocked(s'.threads[i].state) {
          assert i in Sleepers(s.threads);
        }
      }
    }
  }

  /** A round keeps who is dedicated to what. */
  lemma RoundKeepsDedicated(s: Core)
    requires -1 !in s.threads && SomeDedicated(s.threads)
    ensures SomeDedicated(CheckAndUpdate(s, None).threads)
  {
    hide CheckAndUpdate;
    RoundDisturbs(s, None);
    var d :| d in s.threads && IsDedicated(s.threads[d]);
    var s' := CheckAndUpdate(s, None);
    assert Nudged(s.threads[d], s'.threads[d], Signalled(s', d), true);
  }

  lemma SmallerSet(s: set<int>, t: set<int>)
    requires |t| < |s|
    ensures t != s
  {
  }

  // ----- steps that wake or leave threads alone -----

  lemma StirKeepsAwake(s: Core, s': Core, round: bool)
    requires Stirred(s, s', round) && NotAllAsleep(s.threads)
    ensures NotAllAsleep(s'.threads)
  {
  }

  /** One thread changes, and ends up awake. */
  lemma AwakeAfterPut(s': Core, t: int)
    requires t in s'.threads && !IsBlocked(s'.threads[t].state)
    ensures NotAllAsleep(s'.threads)
  {
  }

  /** Waking after a task finished leaves nobody asleep for want of a wakeup. */
  lemma FinishWakesSomeone(s: Core)
    ensures NotAllAsleep(WakeAfterFinish(s).threads)
  {
    var s' := WakeAfterFinish(s);
    if SomeDedicated(s'.threads) {
      var d :| d in s'.threads && IsDedicated(s'.threads[d]);
      if b :| b in s.threads && s.threads[b].state == Blocked {
        assert s'.threads[b].state == Running;
      } else {
        assert !IsBlocked(s'.threads[d].state);
      }
    }
  }

  // ----- removals -----

  lemma LeavingSleepsExactlyWhen(a: ThreadMap, r: (Core, bool), leavers: set<int>)
    requires LeftBy(a, r.0.threads, r.1, leavers)
    ensures NotAllAsleep(WakeIf(r).threads) <==> !LeaveInSilence(a, leavers)
  {
    hide WakeAfterFinish;
    var b := r.0.threads;
    if r.1 {
      FinishWakesSomeone(r.0);
    } else if LeaveInSilence(a, leavers) {
      assert SomeDedicated(b) by {
        var d :| d in a && d !in leavers && IsDedicated(a[d]);
        assert d in b;
      }
      forall i | i in b ensures IsBlocked(b[i].state) {
        assert i in b.Keys;
        assert i in a;
      }
    } else if !NotAllAsleep(b) {
      var d :| d in b && IsDedicated(b[d]);
      assert d in b.Keys;
      assert d in a;
      assert d !in leavers;
      forall i | i in leavers ensures !IsBlocked(a[i].state) {}
      forall i | i in a && i !in leavers ensures IsBlocked(a[i].state) {}
      assert false;
    }
  }

  lemma RemoveAssociationSleeps(s: Core, t: int, task: int)
    ensures
      NotAllAsleep(RemoveAssociation(s, t, task).threads) <==> !LeaveInSilence(s.threads, Gone(s.threads, {t}, task))
  {
    hide Remove, WakeIf;
    RemoveLeaves(s, t, task);
    LeavingSleepsExactlyWhen(s.threads, Remove(s, t, task), Gone(s.threads, {t}, task));
  }

  lemma TaskDoneSleeps(s: Core, task: int)
    requires PoolsOnly(s.threads) && task >= 0
    ensures NotAllAsleep(TaskDone(s, task).threads) <==> !LeaveInSilence(s.threads, Finishing(s, task))
  {
    hide TaskDone, Dismissed, WakeIf;
    TaskDoneLeaves(s, task);
    LeavingSleepsExactlyWhen(s.threads, Dismissed(s, task), Finishing(s, task));
  }

  lemma PoolFinishedSleeps(s: Core, t: int, tasks: set<int>)
    requires t in s.threads && s.threads[t].poolTasks <= tasks
    ensures NotAllAsleep(PoolFinished(s, t, tasks).threads) <==> !LeaveInSilence(s.threads, {t})
  {
    hide Remove, WakeIf, LeaveInSilence;
    var s1 := Checkpoint(s, t);
    var s2 := Put(s1, t, s1.threads[t].(poolTasks := s1.threads[t].poolTasks - tasks));
    assert s2.threads[t].poolTasks == {};
    assert s2.threads == s.threads[t := s2.threads[t]];
    QuietlyLeft(s.threads, t, s2.threads[t]);
    RemoveLeaves(s2, t, -1);
    assert Gone(s2.threads, {t}, -1) == {t};
    LeftTwice(s.threads, s2.threads, Remove(s2, t, -1).0.threads, false, Remove(s2, t, -1).1, {}, {t});
    assert {} + {t} == {t};
    LeavingSleepsExactlyWhen(s.threads, Remove(s2, t, -1), {t});
  }

  /** A pool thread that keeps some tasks stays as it is. */
  lemma PoolStillBusy(s: Core, t: int, tasks: set<int>)
    requires NotAllAsleep(s.threads) && (t in s.threads ==> !(s.threads[t].poolTasks <= tasks))
    ensures NotAllAsleep(PoolFinished(s, t, tasks).threads)
  {
    hide RemoveAssociation;
    if t in s.threads {
      var s1 := Checkpoint(s, t);
      var s2 := Put(s1, t, s1.threads[t].(poolTasks := s1.threads[t].poolTasks - tasks));
      assert s2.threads[t].poolTasks != {} by {
        if s2.threads[t].poolTasks == {} {
          forall task | task in s.threads[t].poolTasks ensures task in tasks {
            assert task !in s2.threads[t].poolTasks;
          }
        }
      }
      SameStateKeepsAwake(s, t, s2.threads[t]);
      assert s2.threads == Put(s, t, s2.threads[t]).threads;
    }
  }

  lemma NobodyIsSilent(threads: ThreadMap)
    requires NotAllAsleep(threads)
    ensures !LeaveInSilence(threads, {})
  {
    if SomeDedicated(threads) {
      var i :| i in threads && !IsBlocked(threads[i].state);
      assert i !in {};
    }
  }

  lemma InvPools(c: Config)
    requires Inv(c)
    ensures PoolsOnly(c.core.threads)
  {
    forall i | i in c.core.threads && c.core.threads[i].taskId >= 0 ensures c.core.threads[i].poolTasks == {} {
      assert GoodView(ViewOf(c, i));
    }
  }

  predicate IsRemoval(e: Event) { e.RemoveAssociationCall? || e.PoolFinishedCall? || e.TaskDoneCall? }

  lemma RemovalSleepsExactlyWhen(c: Config, e: Event)
    requires Inv(c) && Allowed(c, e) && IsRemoval(e)
    ensures SilentLeave(c, e) ==> !NotAllAsleep(Result(c, e).0.threads)
    ensures NotAllAsleep(c.core.threads) && !SilentLeave(c, e) ==> NotAllAsleep(Result(c, e).0.threads)
  {
    hide Inv, NotAllAsleep, LeaveInSilence, Gone, Finishing, RemoveAssociation, PoolFinished, TaskDone, NoEraseInside;
    var threads := c.core.threads;
    InvPools(c);
    if NotAllAsleep(threads) {
      NobodyIsSilent(threads);
    }
    match e
    case RemoveAssociationCall(t, task) => RemoveAssociationSleeps(c.core, t, task);
    case TaskDoneCall(task) => TaskDoneSleeps(c.core, task);
    case PoolFinishedCall(t, tasks) =>
      if t in threads && threads[t].poolTasks <= tasks {
        PoolFinishedSleeps(c.core, t, tasks);
      } else if NotAllAsleep(threads) {
        PoolStillBusy(c.core, t, tasks);
      }
  }

  // ----- a thread told to throw on removal throws -----

  lemma ThrowerGoes(s: Core, t: int)
    requires t in s.threads && s.threads[t].state == RemoveThrow
    ensures BlockUntilReady(s, t) == (s.(threads := s.threads - {t}), Threw(ThreadRemoved))
    ensures NotAllAsleep(s.threads - {t}) <==> !LeaveInSilence(s.threads, {t})
  {
    var b := s.threads - {t};
    forall i ensures i in b <==> i in s.threads && i !in {t} {}
    if d :| d in s.threads && d !in {t} && IsDedicated(s.threads[d]) {
      assert d in b && IsDedicated(b[d]);
    }
    if i :| i in s.threads && i !in {t} && !IsBlocked(s.threads[i].state) {
      assert i in b && !IsBlocked(b[i].state);
    }
  }

  // ----- owners' own steps -----

  lemma SettleKeepsAwake(s: Core, t: int)
    requires NotAllAsleep(s.threads)
    requires t in s.threads ==> s.threads[t].state != BufnWait && s.threads[t].state != RemoveThrow
    ensures NotAllAsleep(Settle(s, t).0.threads)
  {
    if t in s.threads && (s.threads[t].state == BufnThrow || s.threads[t].state == SplitThrow) {
      AwakeAfterPut(Settle(s, t).0, t);
    }
  }

  lemma WaitLoopKeepsAwake(s: Core, t: int)
    requires -1 !in s.threads && !HopelessLook(WaitLook(s, t)) && NotAllAsleep(s.threads)
    requires t in s.threads && s.threads[t].state == RemoveThrow ==> !LeaveInSilence(s.threads, {t})
    ensures NotAllAsleep(BlockUntilReady(s, t).0.threads)
  {
    hide CheckAndUpdate, Hopeless, Settle, LeaveInSilence;
    if t in s.threads && s.threads[t].state == RemoveThrow {
      ThrowerGoes(s, t);
    } else if t in s.threads && s.threads[t].state == BufnWait {
      var s1 := Move(s, t, Bufn);
      var s2 := CheckAndUpdate(s1, None);
      RoundDisturbs(s1, None);
      RoundOnBufn(s1, None, t);
      if SomeDedicated(s1.threads) {
        RoundWakesExactlyWhen(s1);
      } else {
        StirKeepsAwake(s1, s2, true);
      }
      SettleKeepsAwake(s2, t);
    } else {
      SettleKeepsAwake(s, t);
    }
  }

  lemma ResumeKeepsAwake(r: (Core, Outcome), t: int, cpu: bool)
    requires NotAllAsleep(r.0.threads)
    ensures NotAllAsleep(Resume(r, t, cpu).0.threads)
  {
    if t in r.0.threads && r.0.threads[t].state == Running && r.1.Finished? {
      AwakeAfterPut(Resume(r, t, cpu).0, t);
    }
  }

  lemma PreAllocKeepsAwake(s: Core, t: int, cpu: bool, blocking: bool, inject: Inject)
    requires -1 !in s.threads && NotAllAsleep(s.threads)
    requires blocking && inject == NoInject ==>
      && !HopelessLook(WaitLook(s, t))
      && (t in s.threads && s.threads[t].state == RemoveThrow ==> !LeaveInSilence(s.threads, {t}))
    ensures NotAllAsleep(PreAlloc(s, t, cpu, blocking, inject).0.threads)
  {
    hide BlockUntilReady, Resume, HopelessLook, NotAllAsleep, LeaveInSilence;
    if blocking && inject == NoInject {
      WaitLoopKeepsAwake(s, t);
      ResumeKeepsAwake(BlockUntilReady(s, t), t, cpu);
    }
    ResumeKeepsAwake((s, Finished(false)), t, cpu);
    if t in s.threads {
      SameStateKeepsAwake(s, t, CountRetry(s.threads[t]));
      SameStateKeepsAwake(s, t, CountSplit(s.threads[t]));
    }
  }

  lemma SameStateKeepsAwake(s: Core, t: int, th: Thread)
    requires t in s.threads && NotAllAsleep(s.threads)
    requires th.state == s.threads[t].state && th.taskId == s.threads[t].taskId
    ensures NotAllAsleep(Put(s, t, th).threads)
  {
    var s' := Put(s, t, th);
    if SomeDedicated(s'.threads) {
      var d :| d in s'.threads && IsDedicated(s'.threads[d]);
      assert IsDedicated(s.threads[d]);
      var i :| i in s.threads && !IsBlocked(s.threads[i].state);
      assert !IsBlocked(s'.threads[i].state);
    }
  }

  /** A woken owner is never in BUFN_WAIT, so it does not look for a deadlock at once. */
  lemma SleeperDoesNotLook(c: Config, t: int)
    requires Inv(c) && t in c.core.waiting
    ensures t in c.core.threads ==> c.core.threads[t].state != BufnWait
  {
    assert GoodView(ViewOf(c, t));
  }

  lemma WakeKeepsAwake(c: Config, t: int)
    requires Inv(c) && t in c.core.waiting && NotAllAsleep(c.core.threads)
    requires t in c.core.threads && c.core.threads[t].state == RemoveThrow ==> !LeaveInSilence(c.core.threads, {t})
    ensures NotAllAsleep(Continue(WakeUp(c.core, t), t, CallerOf(c, t)).0.threads)
  {
    hide Inv, BlockUntilReady, Resume, CallerOf, NotAllAsleep, LeaveInSilence;
    InvBasics(c);
    SleeperDoesNotLook(c, t);
    var s1 := c.core.(waiting := c.core.waiting - {t}, notified := c.core.notified - {t});
    WaitLoopKeepsAwake(s1, t);
    match CallerOf(c, t)
    case JustWaiting =>
    case Allocating(cpu) => ResumeKeepsAwake(WakeUp(c.core, t), t, cpu);
  }

  lemma PostFailedKeepsAwake(c: Config, t: int, oom: bool, blocking: bool)
    requires Inv(c) && BracketsOf(c, t) != [] && t !in c.core.waiting
    requires !HopelessLook(LookOf(c, PostFailedCall(t, oom, blocking))) && NotAllAsleep(c.core.threads)
    ensures NotAllAsleep(PostFailed(c.core, t, Top(c, t).cpu, oom, blocking, Top(c, t).nested).0.threads)
  {
    hide Inv, CheckAndUpdate, Top, Hopeless;
    InvBasics(c);
    ClosingBracket(c, t);
    var s := c.core;
    if Top(c, t).nested || t !in s.threads {
      RoundDisturbs(s, None);
      StirKeepsAwake(s, CheckAndUpdate(s, None), true);
    } else {
      var s1 := Put(s, t, AfterFailure(s.threads[t], oom, blocking));
      var s2 := if s1.threads[t].state == BufnThrow then Notify(s1, t) else s1;
      RoundDisturbs(s2, None);
      if SomeDedicated(s2.threads) {
        RoundWakesExactlyWhen(s2);
      } else {
        StirKeepsAwake(s2, CheckAndUpdate(s2, None), true);
      }
    }
  }

  lemma PostSuccessKeepsAwake(c: Config, t: int)
    requires Inv(c) && BracketsOf(c, t) != [] && t !in c.core.waiting && NotAllAsleep(c.core.threads)
    ensures NotAllAsleep(PostSuccess(c.core, t, Top(c, t).cpu, Top(c, t).nested).0.threads)
  {
    hide Inv, WakeNext, Top;
    ClosingBracket(c, t);
    var s := c.core;
    if !Top(c, t).nested && t in s.threads {
      var s1 := Put(s, t, s.threads[t].(retryBeforeBufn := false, state := Running, isCpuAlloc := false));
      AwakeAfterPut(s1, t);
      WakeNextDisturbs(s1, Top(c, t).cpu);
      StirKeepsAwake(s1, WakeNext(s1, Top(c, t).cpu), false);
    }
  }

  lemma DeallocKeepsAwake(s: Core, t: int, cpu: bool)
    requires NotAllAsleep(s.threads)
    ensures NotAllAsleep(Dealloc(s, t, cpu).threads)
  {
    hide WakeNext;
    var s1 := s.(threads := MarkFreed(s.threads, t, cpu));
    if SomeDedicated(s1.threads) {
      var d :| d in s1.threads && IsDedicated(s1.threads[d]);
      assert IsDedicated(s.threads[d]);
      var i :| i in s.threads && !IsBlocked(s.threads[i].state);
      assert !IsBlocked(s1.threads[i].state);
    }
    WakeNextDisturbs(s1, cpu);
    StirKeepsAwake(s1, WakeNext(s1, cpu), false);
  }

  lemma StartDedicatedKeepsAwake(s: Core, t: int, task: int)
    requires NotAllAsleep(s.threads)
    ensures NotAllAsleep(StartDedicated(s, t, task).0.threads)
  {
    hide NotAllAsleep;
    var s' := StartDedicated(s, t, task).0;
    if t !in s.threads || MustRededicate(s, t, task) {
      AwakeAfterPut(s', t);
    }
  }

  lemma PoolWorkingKeepsAwake(s: Core, isForShuffle: bool, t: int, tasks: set<int>)
    requires NotAllAsleep(s.threads)
    ensures NotAllAsleep(PoolWorking(s, isForShuffle, t, tasks).0.threads)
  {
    var s' := PoolWorking(s, isForShuffle, t, tasks).0;
    if t !in s.threads {
      AwakeAfterPut(s', t);
    } else if s'.threads != s.threads {
      SameStateKeepsAwake(s, t, s'.threads[t]);
      assert s'.threads == Put(s, t, s'.threads[t]).threads;
    }
  }

  /** A step whose look is not hopeless and with which nobody leaves in silence keeps somebody awake. */
  lemma StepKeepsAwake(c: Config, e: Event)
    requires Inv(c) && Allowed(c, e) && NotAllAsleep(c.core.threads)
    requires !HopelessLook(LookOf(c, e)) && !SilentLeave(c, e)
    ensures NotAllAsleep(Next(c, e).core.threads)
  {
    hide Inv, NotAllAsleep, HopelessLook, LeaveInSilence, PreAlloc, PostSuccess, PostFailed, BlockUntilReady, WakeUp,
      Dealloc, StartDedicated, PoolWorking, PoolFinished, RemoveAssociation, TaskDone, CheckAndUpdate, ResetRetries,
      Continue;
    InvBasics(c);
    var s := c.core;
    match e
    case PreAllocCall(t, cpu, blocking, inject) => PreAllocKeepsAwake(s, t, cpu, blocking, inject);
    case PostSuccessCall(t) => PostSuccessKeepsAwake(c, t);
    case PostFailedCall(t, oom, blocking) => PostFailedKeepsAwake(c, t, oom, blocking);
    case BlockUntilReadyCall(t) => WaitLoopKeepsAwake(s, t);
    case WaitReturns(t) => WakeKeepsAwake(c, t);
    case DeallocCall(t, cpu) => DeallocKeepsAwake(s, t, cpu);
    case StartDedicatedCall(t, task) => StartDedicatedKeepsAwake(s, t, task);
    case PoolWorkingCall(isForShuffle, t, tasks) => PoolWorkingKeepsAwake(s, isForShuffle, t, tasks);
    case PoolFinishedCall(t, tasks) => RemovalSleepsExactlyWhen(c, e);
    case RemoveAssociationCall(t, task) => RemovalSleepsExactlyWhen(c, e);
    case TaskDoneCall(task) => RemovalSleepsExactlyWhen(c, e);
    case SetPoolBlockedCall(t, blocked) =>
      if t in s.threads {
        SameStateKeepsAwake(s, t, s.threads[t].(poolBlocked := blocked));
      }
    case CheckDeadlocksCall(java) =>
      RoundDisturbs(s, Some(java));
      StirKeepsAwake(s, CheckAndUpdate(s, Some(java)), true);
    case GetAndResetRetriesCall(task) =>
      ResetRetriesDisturbs(s, task);
      StirKeepsAwake(s, ResetRetries(s, task), false);
    case RemoveTaskMetricsCall(_) =>
    case PriorityDoneCall(_) =>
  }

  // ----- a hopeless look puts everybody to sleep -----

  lemma HopelessRoundSleeps(s: Core)
    requires -1 !in s.threads && Hopeless(s.threads)
    ensures !NotAllAsleep(CheckAndUpdate(s, None).threads)
  {
    hide CheckAndUpdate, StrayTasks;
    RoundWakesExactlyWhen(s);
    RoundKeepsDedicated(s);
  }

  lemma HopelessWaitSleeps(s: Core, t: int)
    requires -1 !in s.threads && HopelessLook(WaitLook(s, t))
    ensures !NotAllAsleep(BlockUntilReady(s, t).0.threads) && BlockUntilReady(s, t).1 == Asleep
  {
    hide CheckAndUpdate, Hopeless;
    var s1 := Move(s, t, Bufn);
    var s2 := CheckAndUpdate(s1, None);
    HopelessRoundSleeps(s1);
    RoundDisturbs(s1, None);
    assert t in s2.threads;
    assert IsBlocked(s2.threads[t].state);
  }

  lemma HopelessFailureSleeps(c: Config, t: int, oom: bool, blocking: bool)
    requires Inv(c) && BracketsOf(c, t) != [] && t !in c.core.waiting
    requires HopelessLook(LookOf(c, PostFailedCall(t, oom, blocking)))
    ensures !NotAllAsleep(PostFailed(c.core, t, Top(c, t).cpu, oom, blocking, Top(c, t).nested).0.threads)
  {
    hide Inv, CheckAndUpdate, Top, Hopeless;
    InvBasics(c);
    ClosingBracket(c, t);
    HopelessRoundSleeps(LookOf(c, PostFailedCall(t, oom, blocking)).core);
  }

  /** After a step whose look is hopeless, all threads are asleep, a dedicated one among them. */
  lemma HopelessLookSleeps(c: Config, e: Event)
    requires Inv(c) && Allowed(c, e) && HopelessLook(LookOf(c, e))
    ensures !NotAllAsleep(Next(c, e).core.threads)
  {
    hide Inv, NotAllAsleep, Hopeless, PostFailed, BlockUntilReady, WakeUp, Top;
    InvBasics(c);
    NextCore(c, e);
    match e
    case PreAllocCall(t, cpu, blocking, inject) => HopelessWaitSleeps(c.core, t);
    case PostFailedCall(t, oom, blocking) => HopelessFailureSleeps(c, t, oom, blocking);
    case BlockUntilReadyCall(t) => HopelessWaitSleeps(c.core, t);
    case WaitReturns(t) => SleeperDoesNotLook(c, t);
  }

  lemma ThrowerLeavesSleepers(c: Config, e: Event)
    requires Inv(c) && Allowed(c, e) && ThrowsOnRemoval(c, e) && LeaveInSilence(c.core.threads, {e.t})
    ensures !NotAllAsleep(Result(c, e).0.threads)
  {
    hide Inv, NotAllAsleep, LeaveInSilence, BlockUntilReady;
    ThrowerGoes(c.core, e.t);
    if e.WaitReturns? {
      ThrowerGoes(c.core.(waiting := c.core.waiting - {e.t}, notified := c.core.notified - {e.t}), e.t);
    }
  }

  /** After a step with which the last ones awake leave in silence, everybody is asleep. */
  lemma SilentLeaveSleeps(c: Config, e: Event)
    requires Inv(c) && Allowed(c, e) && SilentLeave(c, e)
    ensures !NotAllAsleep(Next(c, e).core.threads)
  {
    hide Inv, NotAllAsleep, LeaveInSilence, Next, Result, Allowed;
    NextCore(c, e);
    if IsRemoval(e) {
      RemovalSleepsExactlyWhen(c, e);
    } else {
      ThrowerLeavesSleepers(c, e);
    }
  }

  // ----- whole runs -----

  /** The step sends the last ones awake to sleep, or lets them go: a question about the state before it. */
  ghost predicate Fatal(c: Config, e: Event)
  {
    HopelessLook(LookOf(c, e)) || SilentLeave(c, e)
  }

  /** As long as no step is fatal, somebody is awake. */
  lemma {:induction false} AwakeUntilFatal(cs: seq<Config>, es: seq<Event>, i: nat)
    requires IsRun(cs, es) && i < |cs|
    requires forall j | 0 <= j < i :: !Fatal(cs[j], es[j])
    ensures NotAllAsleep(cs[i].core.threads)
  {
    hide Inv, Next, Allowed, HopelessLook, LookOf, SilentLeave;
    if i > 0 {
      AwakeUntilFatal(cs, es, i - 1);
      RunsKeepInv(cs, es, i - 1);
      assert Allowed(cs[i - 1], es[i - 1]) && cs[i - 1 + 1] == Next(cs[i - 1], es[i - 1]);
      assert !Fatal(cs[i - 1], es[i - 1]);
      StepKeepsAwake(cs[i - 1], es[i - 1]);
    }
  }

  /**
    Total sleep, exactly: a run has a thread in a state other than BLOCKED and BUFN whenever a dedicated
    thread is registered if and only if none of its looks for a deadlock is hopeless and the last threads
    awake never leave in silence.
  */
  lemma SleepsExactlyWhenFatal(cs: seq<Config>, es: seq<Event>)
    requires IsRun(cs, es)
    ensures (forall i | 0 <= i < |cs| :: NotAllAsleep(cs[i].core.threads)) <==>
            (forall i | 0 <= i < |es| :: !HopelessLook(LookOf(cs[i], es[i])) && !SilentLeave(cs[i], es[i]))
  {
    hide Inv, Next, Allowed, HopelessLook, LookOf, SilentLeave, NotAllAsleep;
    if i :| 0 <= i < |es| && Fatal(cs[i], es[i]) {
      RunsKeepInv(cs, es, i);
      if SilentLeave(cs[i], es[i]) {
        SilentLeaveSleeps(cs[i], es[i]);
      } else {
        HopelessLookSleeps(cs[i], es[i]);
      }
      assert cs[i + 1] == Next(cs[i], es[i]);
    } else {
      forall i | 0 <= i < |cs| ensures NotAllAsleep(cs[i].core.threads) {
        AwakeUntilFatal(cs, es, i);
      }
    }
  }

  // ----- runs that cannot fall asleep -----

  /** Threads leave only while RUNNING: none is erased in another state, and none is told to throw. */
  ghost predicate LeavesOnlyRunning(s: Core, s': Core)
  {
    && (forall t | t in s.threads && t !in s'.threads :: s.threads[t].state == Running)
    && (forall t | t in s'.threads :: s'.threads[t].state != RemoveThrow)
  }

  /** Pool tasks stay covered by dedicated threads, and threads leave only while RUNNING. */
  ghost predicate IsOrderlyRun(cs: seq<Config>, es: seq<Event>)
  {
    && IsRun(cs, es)
    && (forall i | 0 <= i < |cs| :: Covered(cs[i].core.threads))
    && (forall i | 0 <= i < |es| :: LeavesOnlyRunning(cs[i].core, cs[i + 1].core))
  }

  lemma CoveredHasHope(threads: ThreadMap)
    requires Covered(threads)
    ensures !Hopeless(threads)
  {
    NoMemberIsEmpty(StrayTasks(threads, None));
  }

  lemma PutKeepsCover(threads: ThreadMap, t: int, th: Thread)
    requires Covered(threads) && t in threads
    requires th.taskId == threads[t].taskId && th.poolTasks == threads[t].poolTasks
    ensures Covered(threads[t := th])
  {
    SameTasks(threads, threads[t := th]);
  }

  /** A look changes no thread's tasks, so where pool tasks are covered it sees no stray one. */
  lemma CoveredLookHasHope(c: Config, e: Event)
    requires Covered(c.core.threads)
    ensures !HopelessLook(LookOf(c, e))
  {
    hide Covered, Hopeless, Top;
    var threads := c.core.threads;
    CoveredHasHope(threads);
    match e
    case PostFailedCall(t, oom, blocking) =>
      if t in threads {
        PutKeepsCover(threads, t, AfterFailure(threads[t], oom, blocking));
        CoveredHasHope(threads[t := AfterFailure(threads[t], oom, blocking)]);
      }
    case PreAllocCall(t, _, _, _) => CoveredWaitHasHope(c.core, t);
    case BlockUntilReadyCall(t) => CoveredWaitHasHope(c.core, t);
    case WaitReturns(t) => CoveredWaitHasHope(c.core, t);
    case _ =>
  }

  lemma CoveredWaitHasHope(s: Core, t: int)
    requires Covered(s.threads)
    ensures !HopelessLook(WaitLook(s, t))
  {
    hide Covered, Hopeless;
    if t in s.threads {
      PutKeepsCover(s.threads, t, s.threads[t].(state := Bufn));
      CoveredHasHope(Move(s, t, Bufn).threads);
    }
  }

  lemma LeaverIsNotPutToSleep(c: Config, e: Event, t: int)
    requires Inv(c) && t in LeaversOf(c, e)
    ensures t in c.core.threads
    ensures t in Next(c, e).core.threads && !IsBlocked(c.core.threads[t].state) ==>
      !IsBlocked(Next(c, e).core.threads[t].state)
  {
    hide Next, Inv, PoolFinished, RemoveAssociation, TaskDone, BlockUntilReady;
    NextCore(c, e);
    match e
    case RemoveAssociationCall(u, task) => RemoveAssociationDisturbs(c.core, u, task);
    case PoolFinishedCall(u, tasks) => PoolFinishedDisturbs(c.core, u, tasks);
    case TaskDoneCall(task) => TaskDoneDisturbs(c.core, task);
    case PreAllocCall(_, _, _, _) => ThrowerGoes(c.core, t);
    case BlockUntilReadyCall(_) => ThrowerGoes(c.core, t);
    case WaitReturns(_) => ThrowerGoes(c.core.(waiting := c.core.waiting - {t}, notified := c.core.notified - {t}), t);
  }

  /** Leavers that are neither asleep nor RUNNING are erased, so an orderly step is not silent. */
  lemma OrderlyLeaveIsNotSilent(c: Config, e: Event)
    requires Inv(c) && Allowed(c, e) && LeavesOnlyRunning(c.core, Next(c, e).core)
    ensures !SilentLeave(c, e)
  {
    hide Next, Inv, Allowed, LeaversOf, OthersAsleep;
    if SilentLeave(c, e) {
      var t := Member(LeaversOf(c, e));
      SilentLeaveSleeps(c, e);
      LeaverIsNotPutToSleep(c, e, t);
      assert false;
    }
  }

  /**
    No total sleep: an orderly run has, whenever a dedicated thread is registered, some thread in a state
    other than BLOCKED and BUFN.
  */
  lemma NoTotalSleep(cs: seq<Config>, es: seq<Event>, i: nat)
    requires IsOrderlyRun(cs, es) && i < |cs|
    ensures SomeDedicated(cs[i].core.threads) ==> SomeAwake(cs[i].core.threads)
  {
    hide HopelessLook, LookOf, SilentLeave, Covered, Next, Allowed, LeavesOnlyRunning, Inv;
    forall j | 0 <= j < i ensures !Fatal(cs[j], es[j]) {
      CoveredLookHasHope(cs[j], es[j]);
      RunsKeepInv(cs, es, j);
      assert Allowed(cs[j], es[j]) && cs[j + 1] == Next(cs[j], es[j]);
      OrderlyLeaveIsNotSilent(cs[j], es[j]);
    }
    AwakeUntilFatal(cs, es, i);
  }
}
