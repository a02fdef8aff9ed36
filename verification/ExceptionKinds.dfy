/**
  Retry and split exceptions name the kind of memory, host or device, that the thread's last failed attempt
  asked for.
*/
module ExceptionKinds {
  import opened Collections
  import opened Threads
  import opened Scheduler
  import opened DeadlockBreaking
  import opened Runs
  import opened Disturbances
  import opened Safety
  import opened WatchdogLimit
  import opened CallOutcomes

  ghost predicate SameKind(s: Core, s': Core, t: int)
  {
    t in s.threads && t in s'.threads ==> s'.threads[t].isCpuAlloc == s.threads[t].isCpuAlloc
  }

  /** The thread is registered and not inside an attempt. */
  ghost predicate Outside(s: Core, t: int)
  {
    t in s.threads && !InAlloc(s.threads[t].state)
  }

  lemma DisturbanceKeepsKind(s: Core, s': Core, round: bool, t: int)
    requires Disturbed(s, s', round)
    ensures SameKind(s, s', t)
  {
    if t in s'.threads {
      assert Nudged(s.threads[t], s'.threads[t], Signalled(s', t), round);
    }
  }

  lemma WaitLoopKeepsKind(s: Core, u: int, t: int)
    requires -1 !in s.threads
    ensures SameKind(s, BlockUntilReady(s, u).0, t)
  {
    hide CheckAndUpdate, Disturbed;
    if u in s.threads && s.threads[u].state == BufnWait {
      var s1 := Move(s, u, Bufn);
      RoundDisturbs(s1, None);
      DisturbanceKeepsKind(s1, CheckAndUpdate(s1, None), true, t);
    }
  }

  /** An attempt that begins sets the kind; nothing else of a request does. */
  lemma ResumeKeepsKind(s: Core, r: (Core, Outcome), u: int, cpu: bool, t: int)
    requires SameKind(s, r.0, t) && (t in r.0.threads ==> t in s.threads)
    ensures Outside(Resume(r, u, cpu).0, t) ==> SameKind(s, Resume(r, u, cpu).0, t)
  {
  }

  lemma WaitLoopAddsNobody(s: Core, u: int, t: int)
    requires -1 !in s.threads
    ensures t in BlockUntilReady(s, u).0.threads ==> t in s.threads
  {
    hide CheckAndUpdate, Disturbed;
    if u in s.threads && s.threads[u].state == BufnWait {
      RoundDisturbs(Move(s, u, Bufn), None);
    }
  }

  lemma RequestKeepsKind(s: Core, u: int, cpu: bool, blocking: bool, inject: Inject, t: int)
    requires -1 !in s.threads && Outside(PreAlloc(s, u, cpu, blocking, inject).0, t)
    ensures SameKind(s, PreAlloc(s, u, cpu, blocking, inject).0, t)
  {
    hide BlockUntilReady, Resume;
    WaitLoopKeepsKind(s, u, t);
    WaitLoopAddsNobody(s, u, t);
    ResumeKeepsKind(s, BlockUntilReady(s, u), u, cpu, t);
    ResumeKeepsKind(s, (s, Finished(false)), u, cpu, t);
  }

  lemma WakeKeepsKind(s: Core, u: int, caller: Caller, t: int)
    requires -1 !in s.threads && Outside(Continue(WakeUp(s, u), u, caller).0, t)
    ensures SameKind(s, Continue(WakeUp(s, u), u, caller).0, t)
  {
    hide BlockUntilReady, Resume;
    var s1 := s.(waiting := s.waiting - {u}, notified := s.notified - {u});
    WaitLoopKeepsKind(s1, u, t);
    WaitLoopAddsNobody(s1, u, t);
    if caller.Allocating? {
      ResumeKeepsKind(s, WakeUp(s, u), u, caller.cpu, t);
    }
  }

  lemma SuccessKeepsKind(s: Core, u: int, cpu: bool, nested: bool, t: int)
    requires Outside(s, t)
    ensures SameKind(s, PostSuccess(s, u, cpu, nested).0, t)
  {
    hide WakeNext, Disturbed;
    if !nested && u in s.threads {
      var th := s.threads[u].(retryBeforeBufn := false);
      var done := th.(state := Running, isCpuAlloc := false);
      WakeNextDisturbs(Put(s, u, th), cpu);
      WakeNextDisturbs(Put(s, u, done), cpu);
      DisturbanceKeepsKind(Put(s, u, th), WakeNext(Put(s, u, th), cpu), false, t);
      DisturbanceKeepsKind(Put(s, u, done), WakeNext(Put(s, u, done), cpu), false, t);
    }
  }

  lemma FailureKeepsKind(s: Core, u: int, cpu: bool, oom: bool, blocking: bool, nested: bool, t: int)
    requires -1 !in s.threads
    ensures SameKind(s, PostFailed(s, u, cpu, oom, blocking, nested).0, t)
  {
    hide CheckAndUpdate, Disturbed;
    var s1 := if nested || u !in s.threads then s else Failed(s, u, oom, blocking);
    RoundDisturbs(s1, None);
    DisturbanceKeepsKind(s1, CheckAndUpdate(s1, None), true, t);
  }

  lemma DeallocKeepsKind(s: Core, u: int, cpu: bool, t: int)
    ensures SameKind(s, Dealloc(s, u, cpu), t)
  {
    hide WakeNext, Disturbed;
    var s1 := s.(threads := MarkFreed(s.threads, u, cpu));
    WakeNextDisturbs(s1, cpu);
    DisturbanceKeepsKind(s1, WakeNext(s1, cpu), false, t);
  }

  lemma StartKeepsKind(c: Config, u: int, task: int, t: int)
    requires !MakesEntry(c, StartDedicatedCall(u, task), t)
    ensures SameKind(c.core, StartDedicated(c.core, u, task).0, t)
  {
    hide Remove, Disturbed;
    var s := c.core;
    if MustRededicate(s, u, task) {
      RemoveDisturbs(s, u, s.threads[u].taskId);
      DisturbanceKeepsKind(s, Remove(s, u, s.threads[u].taskId).0, false, t);
      ErasedUnlessBlocked(s, u);
    }
  }

  lemma PoolKeepsKind(s: Core, isForShuffle: bool, u: int, tasks: set<int>, t: int)
    ensures SameKind(s, PoolWorking(s, isForShuffle, u, tasks).0, t)
  {
    hide Checkpoint;
    if PoolWorking(s, isForShuffle, u, tasks).1.Finished? {
      PoolPut(s, isForShuffle, u, tasks);
    }
  }

  /** A thread that is outside before and after a step keeps its kind, unless it gets a new entry. */
  lemma StepKeepsKind(c: Config, e: Event, t: int)
    requires Inv(c) && Allowed(c, e) && !MakesEntry(c, e, t)
    requires Outside(c.core, t) && Outside(Next(c, e).core, t)
    ensures SameKind(c.core, Next(c, e).core, t)
  {
    hide Inv, PreAlloc, PostSuccess, PostFailed, BlockUntilReady, WakeUp, Dealloc, PoolFinished, RemoveAssociation,
      TaskDone, CheckAndUpdate, ResetRetries, Continue, StartDedicated, PoolWorking, Next, NoEraseInside, Top, CallerOf,
      BracketsOf, Idle, MustRededicate, Disturbed, MakesEntry;
    InvBasics(c);
    NextCore(c, e);
    var s := c.core;
    match e
    case PreAllocCall(u, cpu, blocking, inject) => RequestKeepsKind(s, u, cpu, blocking, inject, t);
    case BlockUntilReadyCall(u) => WaitLoopKeepsKind(s, u, t);
    case WaitReturns(u) => WakeKeepsKind(s, u, CallerOf(c, u), t);
    case PostSuccessCall(u) => SuccessKeepsKind(s, u, Top(c, u).cpu, Top(c, u).nested, t);
    case PostFailedCall(u, oom, blocking) =>
      FailureKeepsKind(s, u, Top(c, u).cpu, oom, blocking, Top(c, u).nested, t);
    case DeallocCall(u, cpu) => DeallocKeepsKind(s, u, cpu, t);
    case StartDedicatedCall(u, task) => StartKeepsKind(c, u, task, t);
    case PoolWorkingCall(isForShuffle, u, tasks) => PoolKeepsKind(s, isForShuffle, u, tasks, t);
    case PoolFinishedCall(u, tasks) =>
      PoolFinishedDisturbs(s, u, tasks);
      DisturbanceKeepsKind(s, PoolFinished(s, u, tasks), false, t);
    case RemoveAssociationCall(u, task) =>
      RemoveAssociationDisturbs(s, u, task);
      DisturbanceKeepsKind(s, RemoveAssociation(s, u, task), false, t);
    case TaskDoneCall(task) =>
      TaskDoneDisturbs(s, task);
      DisturbanceKeepsKind(s, TaskDone(s, task), false, t);
    case SetPoolBlockedCall(_, _) =>
    case CheckDeadlocksCall(java) =>
      RoundDisturbs(s, Some(java));
      DisturbanceKeepsKind(s, CheckAndUpdate(s, Some(java)), true, t);
    case GetAndResetRetriesCall(task) =>
      ResetRetriesDisturbs(s, task);
      DisturbanceKeepsKind(s, ResetRetries(s, task), false, t);
    case RemoveTaskMetricsCall(_) =>
    case PriorityDoneCall(_) =>
  }

  // ----- whole runs -----

  /** The step that takes a run from `j` on closes an outermost attempt of the thread with a failure. */
  ghost predicate FailsAt(cs: seq<Config>, es: seq<Event>, j: nat, t: int)
    requires j < |es| && j < |cs|
  {
    es[j].PostFailedCall? && es[j].t == t && t in cs[j].core.threads && !Top(cs[j], t).nested
  }

  /** Since then the thread has stayed registered and has not begun another attempt. */
  ghost predicate NoAttemptSince(cs: seq<Config>, es: seq<Event>, j: nat, n: nat, t: int)
    requires |cs| == |es| + 1 && n < |cs|
  {
    && (forall i | j < i <= n :: Outside(cs[i].core, t))
    && (forall i | j < i < n :: !MakesEntry(cs[i], es[i], t))
  }

  lemma {:induction false} KindIsRemembered(cs: seq<Config>, es: seq<Event>, j: nat, n: nat, t: int)
    requires IsRun(cs, es) && j < n < |cs| && FailsAt(cs, es, j, t) && NoAttemptSince(cs, es, j, n, t)
    ensures cs[n].core.threads[t].isCpuAlloc == Top(cs[j], t).cpu
    decreases n
  {
    hide Inv, Next, Allowed, MakesEntry, Top;
    RunsKeepInv(cs, es, n - 1);
    assert Allowed(cs[n - 1], es[n - 1]) && cs[n - 1 + 1] == Next(cs[n - 1], es[n - 1]);
    if n == j + 1 {
      FailureOutcome(cs[j], es[j]);
      FailedKind(cs[j], es[j]);
    } else {
      KindIsRemembered(cs, es, j, n - 1, t);
      StepKeepsKind(cs[n - 1], es[n - 1], t);
    }
  }

  lemma FailedKind(c: Config, e: Event)
    requires Inv(c) && Allowed(c, e) && e.PostFailedCall? && e.t in c.core.threads && !Top(c, e.t).nested
    ensures c.core.threads[e.t].isCpuAlloc == Top(c, e.t).cpu
  {
    hide Inv, Top;
    ClosingBracket(c, e.t);
  }

  /**
    Over every run: a retry or split exception that a thread throws out of the wait loop after a failed
    attempt, and before it begins another one, is for the kind of memory of that attempt.
  */
  lemma ExceptionNamesTheFailedKind(cs: seq<Config>, es: seq<Event>, j: nat, n: nat, t: int, cpu: bool)
    requires IsRun(cs, es) && j < n < |es| && FailsAt(cs, es, j, t) && NoAttemptSince(cs, es, j, n, t)
    requires MayWait(es[n]) && es[n].t == t
    requires Result(cs[n], es[n]).1 in {Threw(RetryOom(cpu)), Threw(SplitAndRetryOom(cpu))}
    ensures cpu == Top(cs[j], t).cpu
  {
    hide Inv, Next, Allowed, MakesEntry, Top, Result;
    KindIsRemembered(cs, es, j, n, t);
    RunsKeepInv(cs, es, n);
    assert Allowed(cs[n], es[n]);
    ThrownKind(cs[n], es[n], cpu);
  }

  lemma ThrownKind(c: Config, e: Event, cpu: bool)
    requires Inv(c) && Allowed(c, e) && MayWait(e) && e.t in c.core.threads
    requires Result(c, e).1 in {Threw(RetryOom(cpu)), Threw(SplitAndRetryOom(cpu))}
    ensures cpu == c.core.threads[e.t].isCpuAlloc
  {
    hide Inv, BlockUntilReady, WaitEnds;
    InvBasics(c);
    WaitLoopThrowsItsKind(c.core, e.t, cpu);
    WaitLoopThrowsItsKind(c.core.(waiting := c.core.waiting - {e.t}, notified := c.core.notified - {e.t}), e.t, cpu);
  }

  lemma WaitLoopThrowsItsKind(s: Core, t: int, cpu: bool)
    requires -1 !in s.threads && t in s.threads
    ensures BlockUntilReady(s, t).1 in {Threw(RetryOom(cpu)), Threw(SplitAndRetryOom(cpu))} ==>
      cpu == s.threads[t].isCpuAlloc
  {
    hide BlockUntilReady;
    WaitOutcome(s, t);
  }
}
