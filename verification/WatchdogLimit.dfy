/** The watchdog: how many retry and split exceptions one registration of a thread can throw. */
module WatchdogLimit {
  import opened Collections
  import opened Threads
  import opened Scheduler
  import opened Runs
  import opened Disturbances
  import opened Safety

  // ----- what is counted -----

  /** A retry or split exception of the wait loop. Injected ones are not held against the limit. */
  predicate IsRetryOrSplit(o: Outcome)
  {
    o.Threw? && (o.error.RetryOom? || o.error.SplitAndRetryOom?)
  }

  /** The error thrown in place of one of them once the limit is reached. */
  predicate IsLimit(o: Outcome) { o.Threw? && o.error.RetryLimit? }

  /** The thread is to throw a retry or split exception, or the error in place of it. */
  ghost predicate IsDue(c: Config, e: Event, t: int)
  {
    MayWait(e) && e.t == t && (IsRetryOrSplit(Result(c, e).1) || IsLimit(Result(c, e).1))
  }

  /** One if the step throws a retry or split exception out of the thread. */
  ghost function CountedThrow(c: Config, e: Event, t: int): nat
  {
    if MayWait(e) && e.t == t && IsRetryOrSplit(Result(c, e).1) then 1 else 0
  }

  /** The step gives the thread a new entry: for the first time, or because it is dedicated to another task. */
  predicate MakesEntry(c: Config, e: Event, t: int)
  {
    match e
    case StartDedicatedCall(u, task) =>
      u == t && (t !in c.core.threads ||
                 (MustRededicate(c.core, t, task) && !IsBlocked(c.core.threads[t].state)))
    case PoolWorkingCall(_, u, _) => u == t && t !in c.core.threads
    case _ => false
  }

  // ----- single steps -----

  /** Entries that stay keep their count, and none appears. */
  ghost predicate CountsKept(s: Core, s': Core)
  {
    && s'.threads.Keys <= s.threads.Keys
    && forall u | u in s'.threads :: s'.threads[u].timesRetried == s.threads[u].timesRetried
  }

  lemma DisturbanceKeepsCounts(s: Core, s': Core, round: bool)
    requires Disturbed(s, s', round)
    ensures CountsKept(s, s')
  {
  }

  lemma PutKeepsCounts(s: Core, t: int, th: Thread)
    requires t in s.threads && th.timesRetried == s.threads[t].timesRetried
    ensures CountsKept(s, Put(s, t, th))
  {
  }

  lemma CountsKeptTwice(s: Core, s1: Core, s2: Core)
    requires CountsKept(s, s1) && CountsKept(s1, s2)
    ensures CountsKept(s, s2)
  {
  }

  /** The owner's step counts its own exception, and throws the limit error exactly at the limit. */
  ghost predicate OwnerCounts(s: Core, r: (Core, Outcome), t: int)
  {
    && r.0.threads.Keys <= s.threads.Keys
    && (forall u | u in r.0.threads ::
          r.0.threads[u].timesRetried ==
            s.threads[u].timesRetried + if u == t && IsRetryOrSplit(r.1) then 1 else 0)
    && (IsRetryOrSplit(r.1) || IsLimit(r.1) ==>
          t in s.threads && (IsLimit(r.1) <==> s.threads[t].timesRetried >= RETRY_LIMIT))
  }

  lemma QuietOwner(s: Core, r: (Core, Outcome), t: int)
    requires CountsKept(s, r.0) && !IsRetryOrSplit(r.1) && !IsLimit(r.1)
    ensures OwnerCounts(s, r, t)
  {
  }

  lemma SettleCounts(s: Core, t: int)
    ensures OwnerCounts(s, Settle(s, t), t)
  {
  }

  lemma ThenOwnerCounts(s: Core, s1: Core, r: (Core, Outcome), t: int)
    requires CountsKept(s, s1) && OwnerCounts(s1, r, t)
    ensures OwnerCounts(s, r, t)
  {
  }

  lemma WaitLoopCounts(s: Core, t: int)
    requires -1 !in s.threads
    ensures OwnerCounts(s, BlockUntilReady(s, t), t)
  {
    hide CheckAndUpdate, Settle, OwnerCounts, CountsKept;
    if t in s.threads && s.threads[t].state == BufnWait {
      var s1 := Move(s, t, Bufn);
      var s2 := CheckAndUpdate(s1, None);
      PutKeepsCounts(s, t, s.threads[t].(state := Bufn));
      RoundDisturbs(s1, None);
      DisturbanceKeepsCounts(s1, s2, true);
      CountsKeptTwice(s, s1, s2);
      SettleCounts(s2, t);
      ThenOwnerCounts(s, s2, Settle(s2, t), t);
    } else {
      SettleCounts(s, t);
    }
  }

  lemma ResumeCounts(s: Core, r: (Core, Outcome), t: int, cpu: bool)
    requires OwnerCounts(s, r, t)
    ensures OwnerCounts(s, Resume(r, t, cpu), t)
  {
  }

  lemma PreAllocCounts(s: Core, t: int, cpu: bool, blocking: bool, inject: Inject)
    requires -1 !in s.threads
    ensures OwnerCounts(s, PreAlloc(s, t, cpu, blocking, inject), t)
  {
    hide BlockUntilReady, Resume, OwnerCounts;
    var r := PreAlloc(s, t, cpu, blocking, inject);
    if t !in s.threads || InAlloc(s.threads[t].state) || inject != NoInject {
      QuietOwner(s, r, t);
    } else {
      WaitLoopCounts(s, t);
      QuietOwner(s, (s, Finished(false)), t);
      ResumeCounts(s, if blocking then BlockUntilReady(s, t) else (s, Finished(false)), t, cpu);
    }
  }

  lemma WakeUpCounts(s: Core, t: int, caller: Caller)
    requires -1 !in s.threads
    ensures OwnerCounts(s, Continue(WakeUp(s, t), t, caller), t)
  {
    hide BlockUntilReady, Resume, OwnerCounts;
    var s1 := s.(waiting := s.waiting - {t}, notified := s.notified - {t});
    if t in s.threads && IsBlocked(s.threads[t].state) {
      QuietOwner(s, WakeUp(s, t), t);
    } else {
      WaitLoopCounts(s1, t);
      ThenOwnerCounts(s, s1, BlockUntilReady(s1, t), t);
    }
    if caller.Allocating? {
      ResumeCounts(s, WakeUp(s, t), t, caller.cpu);
    }
  }

  lemma PostSuccessKeepsCounts(s: Core, t: int, cpu: bool, recursive: bool)
    ensures CountsKept(s, PostSuccess(s, t, cpu, recursive).0)
  {
    hide WakeNext, CountsKept;
    if !recursive && t in s.threads {
      var th := s.threads[t].(retryBeforeBufn := false);
      var done := th.(state := Running, isCpuAlloc := false);
      PutThenWakeKeepsCounts(s, t, th, cpu);
      PutThenWakeKeepsCounts(s, t, done, cpu);
    } else {
      assert CountsKept(s, s) by { Reflexive(s); }
    }
  }

  lemma Reflexive(s: Core)
    ensures CountsKept(s, s)
  {
  }

  lemma PutThenWakeKeepsCounts(s: Core, t: int, th: Thread, cpu: bool)
    requires t in s.threads && th.timesRetried == s.threads[t].timesRetried
    ensures CountsKept(s, Put(s, t, th)) && CountsKept(s, WakeNext(Put(s, t, th), cpu))
  {
    hide WakeNext;
    WakeNextDisturbs(Put(s, t, th), cpu);
  }

  lemma PostFailedKeepsCounts(s: Core, t: int, cpu: bool, oom: bool, blocking: bool, recursive: bool)
    requires -1 !in s.threads
    ensures CountsKept(s, PostFailed(s, t, cpu, oom, blocking, recursive).0)
  {
    hide CheckAndUpdate, CountsKept;
    Reflexive(s);
    if recursive || t !in s.threads {
      RoundDisturbs(s, None);
      DisturbanceKeepsCounts(s, CheckAndUpdate(s, None), true);
    } else {
      var s1 := Failed(s, t, oom, blocking);
      PutKeepsCounts(s, t, AfterFailure(s.threads[t], oom, blocking));
      assert CountsKept(s, s1) by { SameThreads(s, Put(s, t, AfterFailure(s.threads[t], oom, blocking)), s1); }
      RoundDisturbs(s1, None);
      DisturbanceKeepsCounts(s1, CheckAndUpdate(s1, None), true);
      CountsKeptTwice(s, s1, CheckAndUpdate(s1, None));
    }
  }

  lemma SameThreads(s: Core, s1: Core, s2: Core)
    requires CountsKept(s, s1) && s1.threads == s2.threads
    ensures CountsKept(s, s2)
  {
  }

  lemma DeallocKeepsCounts(s: Core, t: int, cpu: bool)
    ensures CountsKept(s, Dealloc(s, t, cpu))
  {
    hide WakeNext;
    WakeNextDisturbs(s.(threads := MarkFreed(s.threads, t, cpu)), cpu);
  }

  /** What a registering step does to the counts. */
  ghost predicate RegisteringCounts(s: Core, s': Core, t: int, registers: bool)
  {
    && (forall u | u in s'.threads && (u != t || !registers) ::
          u in s.threads && s'.threads[u].timesRetried == s.threads[u].timesRetried)
    && (registers ==> t in s'.threads && s'.threads[t].timesRetried == 0)
  }

  lemma StartDedicatedCounts(c: Config, t: int, task: int)
    ensures RegisteringCounts(c.core, StartDedicated(c.core, t, task).0, t,
                              MakesEntry(c, StartDedicatedCall(t, task), t))
  {
    hide Remove;
    var s := c.core;
    if MustRededicate(s, t, task) {
      RemoveDisturbs(s, t, s.threads[t].taskId);
      ErasedUnlessBlocked(s, t);
    }
  }

  lemma ErasedUnlessBlocked(s: Core, t: int)
    requires t in s.threads && s.threads[t].taskId >= 0
    ensures t in Remove(s, t, s.threads[t].taskId).0.threads <==> IsBlocked(s.threads[t].state)
  {
  }

  lemma PoolWorkingCounts(c: Config, isForShuffle: bool, t: int, tasks: set<int>)
    ensures RegisteringCounts(c.core, PoolWorking(c.core, isForShuffle, t, tasks).0, t,
                              MakesEntry(c, PoolWorkingCall(isForShuffle, t, tasks), t))
  {
  }

  /**
    One step: an entry's count grows by one with each retry or split exception its owner throws and never
    otherwise, starts at zero, and decides whether the limit error is thrown.
  */
  ghost predicate StepCounts(c: Config, e: Event, u: int)
  {
    var s, s' := c.core, Next(c, e).core;
    && (u in s'.threads && !MakesEntry(c, e, u) ==>
          u in s.threads && s'.threads[u].timesRetried == s.threads[u].timesRetried + CountedThrow(c, e, u))
    && (MakesEntry(c, e, u) ==> u in s'.threads && s'.threads[u].timesRetried == 0)
    && (IsDue(c, e, u) ==>
          u in s.threads && (IsLimit(Result(c, e).1) <==> s.threads[u].timesRetried >= RETRY_LIMIT))
  }

  lemma OwnerStep(c: Config, e: Event, u: int)
    requires MayWait(e) && OwnerCounts(c.core, Result(c, e), e.t)
    ensures StepCounts(c, e, u)
  {
    hide Next, Result;
    NextCore(c, e);
  }

  lemma QuietStep(c: Config, e: Event, u: int)
    requires !MayWait(e) && !e.StartDedicatedCall? && !e.PoolWorkingCall? && CountsKept(c.core, Result(c, e).0)
    ensures StepCounts(c, e, u)
  {
    hide Next, Result;
    NextCore(c, e);
  }

  lemma RegisteringStep(c: Config, e: Event, u: int)
    requires e.StartDedicatedCall? || e.PoolWorkingCall?
    requires RegisteringCounts(c.core, Result(c, e).0, e.t, MakesEntry(c, e, e.t))
    ensures StepCounts(c, e, u)
  {
    hide Next, Result;
    NextCore(c, e);
  }

  lemma StepCountsRetries(c: Config, e: Event, u: int)
    requires Inv(c) && Allowed(c, e)
    ensures StepCounts(c, e, u)
  {
    hide Inv, StepCounts, CountsKept, OwnerCounts, RegisteringCounts, MakesEntry, PreAlloc, PostSuccess, PostFailed,
      BlockUntilReady, WakeUp, Dealloc, StartDedicated, PoolWorking, PoolFinished, RemoveAssociation, TaskDone,
      CheckAndUpdate, ResetRetries, Continue, Next, Disturbed;
    InvBasics(c);
    var s := c.core;
    match e
    case PreAllocCall(t, cpu, blocking, inject) =>
      PreAllocCounts(s, t, cpu, blocking, inject);
      OwnerStep(c, e, u);
    case BlockUntilReadyCall(t) =>
      WaitLoopCounts(s, t);
      OwnerStep(c, e, u);
    case WaitReturns(t) =>
      WakeUpCounts(s, t, CallerOf(c, t));
      OwnerStep(c, e, u);
    case StartDedicatedCall(t, task) =>
      StartDedicatedCounts(c, t, task);
      RegisteringStep(c, e, u);
    case PoolWorkingCall(isForShuffle, t, tasks) =>
      PoolWorkingCounts(c, isForShuffle, t, tasks);
      RegisteringStep(c, e, u);
    case _ =>
      OtherStepKeepsCounts(c, e);
      QuietStep(c, e, u);
  }

  lemma OtherStepKeepsCounts(c: Config, e: Event)
    requires -1 !in c.core.threads && !MayWait(e) && !e.StartDedicatedCall? && !e.PoolWorkingCall?
    ensures CountsKept(c.core, Result(c, e).0)
  {
    hide CountsKept, PostSuccess, PostFailed, Dealloc, PoolFinished, RemoveAssociation, TaskDone,
      CheckAndUpdate, ResetRetries, Disturbed;
    var s := c.core;
    Reflexive(s);
    match e
    case PostSuccessCall(t) => PostSuccessKeepsCounts(s, t, Top(c, t).cpu, Top(c, t).nested);
    case PostFailedCall(t, oom, blocking) =>
      PostFailedKeepsCounts(s, t, Top(c, t).cpu, oom, blocking, Top(c, t).nested);
    case DeallocCall(t, cpu) => DeallocKeepsCounts(s, t, cpu);
    case PoolFinishedCall(t, tasks) =>
      PoolFinishedDisturbs(s, t, tasks);
      DisturbanceKeepsCounts(s, PoolFinished(s, t, tasks), false);
    case RemoveAssociationCall(t, task) =>
      RemoveAssociationDisturbs(s, t, task);
      DisturbanceKeepsCounts(s, RemoveAssociation(s, t, task), false);
    case TaskDoneCall(task) =>
      TaskDoneDisturbs(s, task);
      DisturbanceKeepsCounts(s, TaskDone(s, task), false);
    case SetPoolBlockedCall(t, blocked) =>
      if t in s.threads {
        PutKeepsCounts(s, t, s.threads[t].(poolBlocked := blocked));
      }
    case CheckDeadlocksCall(java) =>
      RoundDisturbs(s, Some(java));
      DisturbanceKeepsCounts(s, CheckAndUpdate(s, Some(java)), true);
    case GetAndResetRetriesCall(task) =>
      ResetRetriesDisturbs(s, task);
      DisturbanceKeepsCounts(s, ResetRetries(s, task), false);
    case RemoveTaskMetricsCall(task) => SameThreads(s, s, Result(c, e).0);
    case PriorityDoneCall(task) => SameThreads(s, s, Result(c, e).0);
  }

  // ----- whole runs -----

  /** From configuration `i` to configuration `n` the thread has one entry, made by the step before `i`. */
  ghost predicate OneRegistration(cs: seq<Config>, es: seq<Event>, i: nat, n: nat, t: int)
    requires |cs| == |es| + 1
  {
    && 0 < i <= n < |cs| && MakesEntry(cs[i - 1], es[i - 1], t)
    && (forall j | i <= j <= n :: t in cs[j].core.threads)
    && (forall j | i <= j < n :: !MakesEntry(cs[j], es[j], t))
  }

  /** The retry and split exceptions thrown out of the thread's wait loop from configuration `i` to `n`. */
  ghost function CountedThrows(cs: seq<Config>, es: seq<Event>, i: nat, n: nat, t: int): nat
    requires |cs| == |es| + 1 && i <= n < |cs|
    decreases n
  {
    if n == i then 0 else CountedThrows(cs, es, i, n - 1, t) + CountedThrow(cs[n - 1], es[n - 1], t)
  }

  lemma {:induction false} CounterIsTheTotal(cs: seq<Config>, es: seq<Event>, i: nat, n: nat, t: int)
    requires IsRun(cs, es) && OneRegistration(cs, es, i, n, t)
    ensures CountedThrows(cs, es, i, n, t) == cs[n].core.threads[t].timesRetried <= RETRY_LIMIT
    decreases n
  {
    hide Inv, Next, Allowed, MakesEntry, IsDue, CountedThrow;
    RunsKeepInv(cs, es, n - 1);
    assert Allowed(cs[n - 1], es[n - 1]) && cs[n - 1 + 1] == Next(cs[n - 1], es[n - 1]);
    StepCountsRetries(cs[n - 1], es[n - 1], t);
    if n > i {
      CounterIsTheTotal(cs, es, i, n - 1, t);
      ThrowsBelowLimit(cs[n - 1], es[n - 1], t);
    }
  }

  lemma ThrowsBelowLimit(c: Config, e: Event, t: int)
    requires StepCounts(c, e, t) && t in c.core.threads && c.core.threads[t].timesRetried <= RETRY_LIMIT
    ensures c.core.threads[t].timesRetried + CountedThrow(c, e, t) <= RETRY_LIMIT
  {
    hide Next, Result, MakesEntry;
  }

  /** Every entry stems from one registration. */
  lemma {:induction false} RegisteredOnce(cs: seq<Config>, es: seq<Event>, n: nat, t: int) returns (i: nat)
    requires IsRun(cs, es) && n < |cs| && t in cs[n].core.threads
    ensures OneRegistration(cs, es, i, n, t)
    decreases n
  {
    hide Inv, Next, Allowed, MakesEntry, IsDue, CountedThrow;
    if MakesEntry(cs[n - 1], es[n - 1], t) {
      i := n;
    } else {
      RunsKeepInv(cs, es, n - 1);
      assert Allowed(cs[n - 1], es[n - 1]) && cs[n - 1 + 1] == Next(cs[n - 1], es[n - 1]);
      StepCountsRetries(cs[n - 1], es[n - 1], t);
      i := RegisteredOnce(cs, es, n - 1, t);
    }
  }

  /**
    The watchdog's bound, over every run: one registration of a thread throws at most 500 retry and split
    exceptions out of the wait loop, and the next one due is the limit error if and only if 500 have been thrown.
  */
  lemma AtMostTheLimit(cs: seq<Config>, es: seq<Event>, i: nat, n: nat, t: int)
    requires IsRun(cs, es) && OneRegistration(cs, es, i, n, t)
    ensures CountedThrows(cs, es, i, n, t) <= RETRY_LIMIT
    ensures n < |es| && IsDue(cs[n], es[n], t) ==>
      (IsLimit(Result(cs[n], es[n]).1) <==> CountedThrows(cs, es, i, n, t) == RETRY_LIMIT)
  {
    hide Inv, Next, Allowed, MakesEntry, IsDue, CountedThrow, CountedThrows, Result, OneRegistration;
    CounterIsTheTotal(cs, es, i, n, t);
    if n < |es| {
      RunsKeepInv(cs, es, n);
      StepCountsRetries(cs[n], es[n], t);
    }
  }
}
