/**
  How calls end, told from the caller's record before the call and the call's own flags: allocation
  requests, the wait loop, closing a bracket, and registration.
*/
module CallOutcomes {
  import opened Collections
  import opened Threads
  import opened Deadlock
  import opened Scheduler
  import opened DeadlockBreaking
  import opened Runs
  import opened Disturbances
  import opened Safety

  /** Only the owner's record differs, and the tables of tasks do not. */
  ghost predicate OnlyRecord(s: Core, s': Core, t: int)
  {
    && s'.threads.Keys == s.threads.Keys && t in s.threads
    && (forall i | i in s.threads && i != t :: s'.threads[i] == s.threads[i])
    && s'.taskThreads == s.taskThreads && s'.taskMetrics == s.taskMetrics && s'.prio == s.prio
    && s'.waiting == s.waiting && s'.notified == s.notified
  }

  // ----- an attempt that failed -----

  /**
    What a failed outermost attempt leaves its thread in. Without an OOM, or after a free in the meantime, it
    runs. With an OOM it must roll back if this was its last chance; otherwise it is BLOCKED if it may
    wait, unless the round that follows moves it on as a victim, and runs if it may not.
  */
  ghost predicate FailureEnds(c: Config, e: Event, s': Core)
    requires e.PostFailedCall? && e.t in c.core.threads
  {
    var before := c.core.threads[e.t];
    && e.t in s'.threads
    && var after := s'.threads[e.t];
    && (!e.oom || before.state == AllocFree ==> after == before.(state := Running))
    && (before.state == Alloc && e.oom && before.retryBeforeBufn ==>
          after == before.(state := BufnThrow, retryBeforeBufn := false))
    && (before.state == Alloc && e.oom && !before.retryBeforeBufn && !e.blocking ==>
          after == before.(state := Running))
    && (before.state == Alloc && e.oom && !before.retryBeforeBufn && e.blocking ==>
          || after == before.(state := Blocked)
          || (Deadlocked(c.core.threads[e.t := before.(state := Blocked)], None)
              && after in {before.(state := Running, retryBeforeBufn := true), before.(state := BufnThrow)}))
    && (after.state == Blocked ==> before.state == Alloc && e.oom && e.blocking && !before.retryBeforeBufn)
  }

  lemma FailureOutcome(c: Config, e: Event)
    requires Inv(c) && Allowed(c, e) && e.PostFailedCall? && e.t in c.core.threads && !Top(c, e.t).nested
    ensures FailureEnds(c, e, Next(c, e).core) && Result(c, e).1 == Finished(true)
  {
    hide Inv, CheckAndUpdate, Deadlocked, AllBufn, LowestBlocked, HighestBufn, Top;
    var t, s := e.t, c.core;
    InvBasics(c);
    InvAt(c, t);
    ClosingBracket(c, t);
    var s1 := Failed(s, t, e.oom, e.blocking);
    RoundEffect(s1, None);
    assert RoundMoves(s1, None, CheckAndUpdate(s1, None), t);
    assert s1.threads == s.threads[t := AfterFailure(s.threads[t], e.oom, e.blocking)];
  }

  /** The same at every failed attempt of every run. */
  lemma FailuresEnd(cs: seq<Config>, es: seq<Event>, i: nat)
    requires IsRun(cs, es) && i < |es| && es[i].PostFailedCall?
    requires es[i].t in cs[i].core.threads && !Top(cs[i], es[i].t).nested
    ensures FailureEnds(cs[i], es[i], cs[i + 1].core)
  {
    hide Inv, Next, Allowed, FailureEnds;
    RunsKeepInv(cs, es, i);
    assert Allowed(cs[i], es[i]) && cs[i + 1] == Next(cs[i], es[i]);
    FailureOutcome(cs[i], es[i]);
  }

  // ----- an attempt that succeeded -----

  /** A successful outermost attempt leaves its thread RUNNING without retry flag and kind. */
  lemma SuccessOutcome(c: Config, e: Event)
    requires Inv(c) && Allowed(c, e) && e.PostSuccessCall? && e.t in c.core.threads && !Top(c, e.t).nested
    ensures
      var s, s' := c.core, Next(c, e).core;
      && e.t in s'.threads
      && s'.threads[e.t] == s.threads[e.t].(state := Running, retryBeforeBufn := false, isCpuAlloc := false)
      && Result(c, e).1 == Finished(true)
  {
    hide Inv, WakeNext, Top, HighestBlockedFor;
    InvBasics(c);
    ClosingBracket(c, e.t);
    WakeNextEffect(Put(c.core, e.t, c.core.threads[e.t].(retryBeforeBufn := false, state := Running,
                                                         isCpuAlloc := false)), Top(c, e.t).cpu);
  }

  /** Whenever memory of a kind is free again, one thread BLOCKED on that kind runs if there is any. */
  ghost predicate ServesOne(s: Core, s': Core, cpu: bool)
  {
    (exists i :: i in s.threads && s.threads[i].state == Blocked && s.threads[i].isCpuAlloc == cpu) ==>
      exists i :: i in s.threads && i in s'.threads && s.threads[i].state == Blocked && s.threads[i].isCpuAlloc == cpu
                  && s'.threads[i].state == Running
  }

  lemma WakeNextServes(s: Core, cpu: bool)
    ensures ServesOne(s, WakeNext(s, cpu), cpu)
  {
    hide WakeNext, HighestBlockedFor;
    WakeNextEffect(s, cpu);
    if i :| i in s.threads && s.threads[i].state == Blocked && s.threads[i].isCpuAlloc == cpu {
      assert Selected(BlockedFor(cpu), s.threads[i]);
      var w :| w in s.threads && s.threads[w].state == Blocked && WakeNext(s, cpu).threads[w].state == Running;
      KindOfWoken(s, cpu, w);
    }
  }

  lemma KindOfWoken(s: Core, cpu: bool, w: int)
    requires w in s.threads && w in WakeNext(s, cpu).threads && WakeNext(s, cpu).threads[w] != s.threads[w]
    ensures s.threads[w].isCpuAlloc == cpu
  {
    hide WakeNext;
    WakeNextEffect(s, cpu);
  }

  /** A free, and a success that needs no more memory, let one more thread try. */
  lemma FreedMemoryServesOne(c: Config, e: Event)
    requires Inv(c) && Allowed(c, e)
    ensures e.DeallocCall? ==> ServesOne(c.core, Next(c, e).core, e.cpu)
    ensures e.PostSuccessCall? && e.t in c.core.threads && !Top(c, e.t).nested ==>
      ServesOne(c.core, Next(c, e).core, Top(c, e.t).cpu)
  {
    hide Inv, WakeNext, Top;
    if e.DeallocCall? {
      var s1 := c.core.(threads := MarkFreed(c.core.threads, e.t, e.cpu));
      WakeNextServes(s1, e.cpu);
      SameBlocked(c.core, s1, WakeNext(s1, e.cpu), e.cpu);
    } else if e.PostSuccessCall? && e.t in c.core.threads && !Top(c, e.t).nested {
      ClosingBracket(c, e.t);
      var cpu := Top(c, e.t).cpu;
      var s1 := Put(c.core, e.t, c.core.threads[e.t].(retryBeforeBufn := false, state := Running, isCpuAlloc := false));
      WakeNextServes(s1, cpu);
      SameBlocked(c.core, s1, WakeNext(s1, cpu), cpu);
    }
  }

  lemma SameBlocked(s: Core, s1: Core, s': Core, cpu: bool)
    requires ServesOne(s1, s', cpu) && s1.threads.Keys == s.threads.Keys
    requires forall i | i in s.threads ::
      (s.threads[i].state == Blocked <==> s1.threads[i].state == Blocked)
      && (s.threads[i].state == Blocked ==> s1.threads[i] == s.threads[i])
    ensures ServesOne(s, s', cpu)
  {
    if i :| i in s.threads && s.threads[i].state == Blocked && s.threads[i].isCpuAlloc == cpu {
      assert s1.threads[i].state == Blocked && s1.threads[i].isCpuAlloc == cpu;
      var w :| w in s1.threads && w in s'.threads && s1.threads[w].state == Blocked && s1.threads[w].isCpuAlloc == cpu
               && s'.threads[w].state == Running;
      assert w in s.threads.Keys;
      assert s.threads[w].state == Blocked && s.threads[w].isCpuAlloc == cpu;
    }
  }

  /** Closing a nested bracket, or one of a thread that is not registered, touches no record but by a round. */
  lemma NestedFailureOutcome(c: Config, e: Event)
    requires Inv(c) && Allowed(c, e) && e.PostFailedCall? && (e.t !in c.core.threads || Top(c, e.t).nested)
    ensures Result(c, e) == (CheckAndUpdate(c.core, None), Finished(false))
  {
    hide CheckAndUpdate;
  }

  // ----- the wait loop -----

  /** How the wait loop ends for the owner of a thread, by the state it enters the loop in. */
  ghost predicate WaitEnds(s: Core, t: int, r: (Core, Outcome))
    requires t in s.threads
  {
    var th, s', o := s.threads[t], r.0, r.1;
    match th.state
    case Running => s' == s && o == Finished(false)
    case Alloc => s' == s && o == Finished(false)
    case AllocFree => s' == s && o == Finished(false)
    case Blocked => GoneToSleep(s, s', t) && s'.threads == s.threads && o == Asleep
    case Bufn => GoneToSleep(s, s', t) && s'.threads == s.threads && o == Asleep
    case BufnThrow => OnlyRecord(s, s', t) && ThrewRetry(th, s'.threads[t], o)
    case SplitThrow => OnlyRecord(s, s', t) && ThrewSplit(th, s'.threads[t], o)
    case RemoveThrow => s'.threads == s.threads - {t} && o == Threw(ThreadRemoved)
    case BufnWait =>
      && t in s'.threads
      && (|| (s'.threads[t] == th.(state := Bufn) && t in s'.waiting && t !in s'.notified && o == Asleep)
          || (Deadlocked(s.threads[t := th.(state := Bufn)], None) && ThrewSplit(th, s'.threads[t], o)))
  }

  ghost predicate GoneToSleep(s: Core, s': Core, t: int)
  {
    s'.waiting == s.waiting + {t} && s'.notified == s.notified - {t}
  }

  /**
    A retry exception for the kind of memory the thread last asked for, or an error past the limit; the
    thread is to come back and wait, and the retry counter is up by one.
  */
  ghost predicate ThrewRetry(a: Thread, b: Thread, o: Outcome)
  {
    && o == Threw(if a.timesRetried >= 500 then RetryLimit(false) else RetryOom(a.isCpuAlloc))
    && b == a.(state := BufnWait, timesRetried := b.timesRetried,
               metrics := a.metrics.(retryThrows := a.metrics.retryThrows + 1))
  }

  /** A split exception, likewise; the thread runs on, and the split counter is up by one. */
  ghost predicate ThrewSplit(a: Thread, b: Thread, o: Outcome)
  {
    && o == Threw(if a.timesRetried >= 500 then RetryLimit(true) else SplitAndRetryOom(a.isCpuAlloc))
    && b == a.(state := Running, timesRetried := b.timesRetried,
               metrics := a.metrics.(splitThrows := a.metrics.splitThrows + 1))
  }

  lemma SettleEnds(s: Core, t: int)
    requires t in s.threads && s.threads[t].state != BufnWait
    ensures WaitEnds(s, t, Settle(s, t))
  {
  }

  lemma WaitOutcome(s: Core, t: int)
    requires -1 !in s.threads && t in s.threads
    ensures WaitEnds(s, t, BlockUntilReady(s, t))
  {
    hide CheckAndUpdate, Deadlocked, AllBufn, LowestBlocked, HighestBufn;
    if s.threads[t].state == BufnWait {
      var s1 := Move(s, t, Bufn);
      RoundEffect(s1, None);
      assert t !in BlockedIds(s1.threads);
      assert RoundMoves(s1, None, CheckAndUpdate(s1, None), t);
      assert s1.threads == s.threads[t := s.threads[t].(state := Bufn)];
    } else {
      SettleEnds(s, t);
    }
  }

  // ----- allocation requests -----

  /** How an allocation request ends, by the thread's state and the request's flags. */
  ghost predicate RequestEnds(s: Core, e: Event, r: (Core, Outcome))
    requires e.PreAllocCall?
  {
    if e.t !in s.threads then r == (s, Finished(false))
    else
      var th := s.threads[e.t];
      if th.state == Alloc || th.state == AllocFree then
        r == (s, if e.cpu && e.blocking then Threw(NestedBlockingCpuAlloc) else Finished(true))
      else match e.inject
        case ForceRetry =>
          && OnlyRecord(s, r.0, e.t) && r.1 == Threw(InjectedRetry)
          && r.0.threads[e.t] == th.(metrics := th.metrics.(retryThrows := th.metrics.retryThrows + 1))
        case ForceSplit =>
          && OnlyRecord(s, r.0, e.t) && r.1 == Threw(InjectedSplit)
          && r.0.threads[e.t] == th.(metrics := th.metrics.(splitThrows := th.metrics.splitThrows + 1))
        case ForceCudf => r == (s, Threw(InjectedCudf))
        case NoInject =>
          if th.state == Running then
            && OnlyRecord(s, r.0, e.t) && r.1 == Finished(false)
            && r.0.threads[e.t] == th.(state := Alloc, isCpuAlloc := e.cpu)
          else if e.blocking then WaitEnds(s, e.t, r)
          else r == (s, Threw(UnexpectedPreAlloc))
  }

  lemma RequestOutcome(c: Config, e: Event)
    requires Inv(c) && Allowed(c, e) && e.PreAllocCall?
    ensures RequestEnds(c.core, e, Result(c, e))
  {
    hide Inv, BlockUntilReady, WaitEnds;
    InvBasics(c);
    var s, t := c.core, e.t;
    if t in s.threads && e.blocking && e.inject == NoInject {
      WaitOutcome(s, t);
      assert WaitEnds(s, t, BlockUntilReady(s, t));
      NoFinishWhileAsleep(s, t, BlockUntilReady(s, t));
    }
  }

  /** The wait loop lets go only a thread that runs or allocates. */
  lemma NoFinishWhileAsleep(s: Core, t: int, r: (Core, Outcome))
    requires t in s.threads && WaitEnds(s, t, r)
    ensures r.1.Finished? <==> s.threads[t].state == Running || InAlloc(s.threads[t].state)
    ensures r.1.Finished? ==> r == (s, Finished(false))
  {
  }

  // ----- a wait that returns -----

  /**
    How a returned wait goes on: back to sleep while the thread is BLOCKED or BUFN; otherwise out of the wait
    loop, and a request that had fallen asleep begins its attempt with the kind it had asked for.
  */
  lemma WaitReturnOutcome(c: Config, t: int)
    requires Inv(c) && t in c.core.waiting
    ensures t in c.core.threads
    ensures
      var s, r := c.core, Result(c, WaitReturns(t));
      var s1 := s.(waiting := s.waiting - {t}, notified := s.notified - {t});
      var state := s.threads[t].state;
      if state == Blocked || state == Bufn then r == (s.(notified := s.notified - {t}), Asleep)
      else if CallerOf(c, t).Allocating? && state == Running then
        && OnlyRecord(s1, r.0, t) && r.1 == Finished(false)
        && r.0.threads[t] == s.threads[t].(state := Alloc, isCpuAlloc := CallerOf(c, t).cpu)
      else WaitEnds(s1, t, r)
  {
    hide Inv, BlockUntilReady, WaitEnds, CallerOf;
    InvBasics(c);
    InvAt(c, t);
    var s1 := c.core.(waiting := c.core.waiting - {t}, notified := c.core.notified - {t});
    WaitOutcome(s1, t);
    NoFinishWhileAsleep(s1, t, BlockUntilReady(s1, t));
  }

  /** A call that falls asleep is remembered with its kind, and other owners' steps do not touch that. */
  lemma SleepersAreRemembered(c: Config, e: Event, t: int)
    requires Next(c, e).callers != c.callers
    ensures MayWait(e) && Result(c, e).1 == Asleep
    ensures t != e.t ==> (t in Next(c, e).callers <==> t in c.callers) && CallerOf(Next(c, e), t) == CallerOf(c, t)
    ensures e.PreAllocCall? ==> CallerOf(Next(c, e), e.t) == Allocating(e.cpu)
    ensures e.BlockUntilReadyCall? ==> CallerOf(Next(c, e), e.t) == JustWaiting
    ensures e.WaitReturns? ==> CallerOf(Next(c, e), e.t) == CallerOf(c, e.t)
  {
    hide Result, BracketsOf;
  }
}
