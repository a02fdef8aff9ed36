/** Allocation brackets and frees, over whole runs. */
module AllocationBrackets {
  import opened Collections
  import opened Threads
  import opened Scheduler
  import opened Runs
  import opened Disturbances
  import opened Safety
  import opened CallOutcomes

  /**
    Between opening its outermost bracket and closing it, a registered thread is in ALLOC or ALLOC_FREE
    with the recorded kind of that bracket, and every further bracket is a nested one.
  */
  lemma AllocatingExactlyInsideBrackets(cs: seq<Config>, es: seq<Event>, i: nat, t: int)
    requires IsRun(cs, es) && i < |cs| && t in cs[i].core.threads
    ensures InAlloc(cs[i].core.threads[t].state) <==> BracketsOf(cs[i], t) != []
    ensures BracketsOf(cs[i], t) != [] ==>
      && BracketsOf(cs[i], t)[0] == Bracket(cs[i].core.threads[t].isCpuAlloc, false)
      && forall k | 0 < k < |BracketsOf(cs[i], t)| :: BracketsOf(cs[i], t)[k].nested
  {
    RunsKeepInv(cs, es, i);
    InvAt(cs[i], t);
  }

  /** A request that neither waits nor is injected, from a thread that neither runs nor allocates. */
  predicate IsUnexpected(s: Core, e: Event)
  {
    && e.PreAllocCall? && !e.blocking && e.inject == NoInject
    && e.t in s.threads && s.threads[e.t].state != Running && !InAlloc(s.threads[e.t].state)
  }

  /**
    Callers that close the brackets they open never see a kind mismatch or an internal error, and a
    request meets an unexpected state exactly if it does not wait and its thread neither runs nor
    allocates.
  */
  lemma WellBracketedCallersAreSafe(cs: seq<Config>, es: seq<Event>, i: nat)
    requires IsRun(cs, es) && i < |es|
    ensures
      var out := Result(cs[i], es[i]).1;
      && out != Threw(KindMismatch) && out != Threw(UnexpectedPostAlloc)
      && (out == Threw(UnexpectedPreAlloc) <==> IsUnexpected(cs[i].core, es[i]))
  {
    RunsKeepInv(cs, es, i);
    StepThrowsNothingUnexpected(cs[i], es[i]);
  }

  lemma StepThrowsNothingUnexpected(c: Config, e: Event)
    requires Inv(c) && Allowed(c, e)
    ensures
      var out := Result(c, e).1;
      && out != Threw(KindMismatch) && out != Threw(UnexpectedPostAlloc)
      && (out == Threw(UnexpectedPreAlloc) <==> IsUnexpected(c.core, e))
  {
    hide Inv, PostSuccess, PostFailed, BlockUntilReady, WakeUp, Dealloc, Top, CallerOf,
      PoolFinished, RemoveAssociation, TaskDone, CheckAndUpdate, ResetRetries, Requested, Remove;
    match e
    case PreAllocCall(t, cpu, blocking, inject) =>
      PreAllocKeeps(c, t, cpu, blocking, inject);
      WaitLoopErrors(c, t);
      QuickRequest(c.core, t, cpu, inject);
    case PostSuccessCall(t) => PostSuccessKeeps(c, t);
    case PostFailedCall(t, oom, blocking) => PostFailedKeeps(c, t, oom, blocking);
    case BlockUntilReadyCall(t) => WaitLoopErrors(c, t);
    case WaitReturns(t) => WakeErrors(c, t);
    case _ =>
  }

  lemma QuickRequest(s: Core, t: int, cpu: bool, inject: Inject)
    ensures PreAlloc(s, t, cpu, false, inject).1 == Threw(UnexpectedPreAlloc) <==>
            IsUnexpected(s, PreAllocCall(t, cpu, false, inject))
  {
    hide BlockUntilReady;
  }

  lemma WaitLoopErrors(c: Config, t: int)
    requires Inv(c) && t !in c.core.waiting
    ensures
      var out := BlockUntilReady(c.core, t).1;
      out != Threw(KindMismatch) && out != Threw(UnexpectedPostAlloc) && out != Threw(UnexpectedPreAlloc)
  {
    hide BlockUntilReady;
    ReadyKeeps(c, t);
  }

  lemma WakeErrors(c: Config, t: int)
    requires Inv(c) && t in c.core.waiting
    ensures
      var out := Continue(WakeUp(c.core, t), t, CallerOf(c, t)).1;
      out != Threw(KindMismatch) && out != Threw(UnexpectedPostAlloc) && out != Threw(UnexpectedPreAlloc)
  {
    hide BlockUntilReady, Inv, Continued;
    WaitReturnsKeeps(c, t);
    InvAt(c, t);
    if !IsBlocked(c.core.threads[t].state) {
      var c1 := c.(core := c.core.(waiting := c.core.waiting - {t}, notified := c.core.notified - {t}));
      InvBasics(c);
      LocalChange(c, c1, t);
      WaitLoopErrors(c1, t);
    }
  }

  /** The free of another thread, of the kind that thread `t` is allocating. */
  ghost predicate FreesFor(e: Event, t: int, cpu: bool)
  {
    e.DeallocCall? && e.t != t && e.cpu == cpu
  }

  /** A disturbance leaves an allocating thread exactly as it was. */
  lemma DisturbanceSparesAllocating(s: Core, s': Core, round: bool, t: int)
    requires Disturbed(s, s', round) && t in s.threads && t in s'.threads && InAlloc(s.threads[t].state)
    ensures s'.threads[t].state == s.threads[t].state && s'.threads[t].isCpuAlloc == s.threads[t].isCpuAlloc
  {
  }

  /** What one step does to a thread whose outermost bracket stays open: only a matching free is noted. */
  ghost predicate StaysAllocating(s: Core, s': Core, e: Event, t: int)
  {
    && t in s.threads && t in s'.threads
    && s'.threads[t].isCpuAlloc == s.threads[t].isCpuAlloc
    && s'.threads[t].state == if FreesFor(e, t, s.threads[t].isCpuAlloc) then AllocFree else s.threads[t].state
  }

  lemma DeallocSeen(s: Core, e: Event, t: int)
    requires e.DeallocCall? && t in s.threads && InAlloc(s.threads[t].state)
    ensures StaysAllocating(s, Dealloc(s, e.t, e.cpu), e, t)
  {
    hide WakeNext;
    var s1 := s.(threads := MarkFreed(s.threads, e.t, e.cpu));
    WakeNextDisturbs(s1, e.cpu);
    DisturbanceSparesAllocating(s1, WakeNext(s1, e.cpu), false, t);
  }

  /** An allocating thread is left exactly as it was. */
  ghost predicate Spared(s: Core, s': Core, t: int)
  {
    && t in s.threads && t in s'.threads
    && s'.threads[t].isCpuAlloc == s.threads[t].isCpuAlloc && s'.threads[t].state == s.threads[t].state
  }

  lemma DisturbanceSpares(s: Core, s': Core, round: bool, t: int)
    requires Disturbed(s, s', round) && t in s.threads && t in s'.threads && InAlloc(s.threads[t].state)
    ensures Spared(s, s', t)
  {
    DisturbanceSparesAllocating(s, s', round, t);
  }

  /** A removal that erases nobody inside spares a thread with an open bracket. */
  lemma EraseSparesOpen(c: Config, s': Core, t: int)
    requires Disturbed(c.core, s', false) && NoEraseInside(c, s')
    requires t in c.core.threads && InAlloc(c.core.threads[t].state) && BracketsOf(c, t) != []
    ensures Spared(c.core, s', t)
  {
    hide Nudged;
    DisturbanceSpares(c.core, s', false, t);
  }

  lemma StirSpares(s: Core, s': Core, round: bool, t: int)
    requires Stirred(s, s', round) && t in s.threads && InAlloc(s.threads[t].state)
    ensures Spared(s, s', t)
  {
    hide Disturbed;
    DisturbanceSpares(s, s', round, t);
  }

  lemma OthersSpared(s: Core, u: int, th: Thread, s': Core, t: int)
    requires u != t && t in s.threads && Spared(Put(s, u, th), s', t)
    ensures Spared(s, s', t)
  {
  }

  /** The wait loop, run by some owner, leaves an allocating thread alone. */
  lemma WaitLoopSpares(c: Config, u: int, t: int)
    requires Inv(c) && t in c.core.threads && InAlloc(c.core.threads[t].state)
    ensures Spared(c.core, BlockUntilReady(c.core, u).0, t)
  {
    hide CheckAndUpdate, Inv, Stirred;
    InvBasics(c);
    if u in c.core.threads && c.core.threads[u].state == BufnWait {
      var s1 := Move(c.core, u, Bufn);
      RoundDisturbs(s1, None);
      RoundOnBufn(s1, None, u);
      StirSpares(s1, CheckAndUpdate(s1, None), true, t);
      SettleSpares(CheckAndUpdate(s1, None), u, t);
    } else {
      SettleSpares(c.core, u, t);
    }
  }

  lemma SettleSpares(s: Core, u: int, t: int)
    requires t in s.threads && InAlloc(s.threads[t].state)
    ensures Spared(s, Settle(s, u).0, t)
  {
  }

  lemma PostSuccessSpares(c: Config, u: int, t: int)
    requires Inv(c) && t in c.core.threads && InAlloc(c.core.threads[t].state)
    requires BracketsOf(c, u) != [] && (u == t ==> |BracketsOf(c, t)| > 1)
    ensures Spared(c.core, PostSuccess(c.core, u, Top(c, u).cpu, Top(c, u).nested).0, t)
  {
    hide WakeNext, Inv, Top, Stirred;
    ClosingBracket(c, u);
    var s := c.core;
    if !Top(c, u).nested && u in s.threads {
      var th := s.threads[u].(retryBeforeBufn := false, state := Running, isCpuAlloc := false);
      var s1 := Put(s, u, th);
      WakeNextDisturbs(s1, Top(c, u).cpu);
      StirSpares(s1, WakeNext(s1, Top(c, u).cpu), false, t);
      OthersSpared(s, u, th, WakeNext(s1, Top(c, u).cpu), t);
    }
  }

  lemma PostFailedSpares(c: Config, u: int, oom: bool, blocking: bool, t: int)
    requires Inv(c) && t in c.core.threads && InAlloc(c.core.threads[t].state)
    requires BracketsOf(c, u) != [] && (u == t ==> |BracketsOf(c, t)| > 1)
    ensures Spared(c.core, PostFailed(c.core, u, Top(c, u).cpu, oom, blocking, Top(c, u).nested).0, t)
  {
    hide CheckAndUpdate, Inv, Top, Stirred, AfterFailure;
    InvBasics(c);
    ClosingBracket(c, u);
    var s := c.core;
    if Top(c, u).nested || u !in s.threads {
      RoundDisturbs(s, None);
      StirSpares(s, CheckAndUpdate(s, None), true, t);
    } else {
      var th := AfterFailure(s.threads[u], oom, blocking);
      var s1 := Put(s, u, th);
      var s2 := if s1.threads[u].state == BufnThrow then Notify(s1, u) else s1;
      RoundDisturbs(s2, None);
      StirSpares(s2, CheckAndUpdate(s2, None), true, t);
      assert Spared(s1, CheckAndUpdate(s2, None), t);
      OthersSpared(s, u, th, CheckAndUpdate(s2, None), t);
    }
  }

  lemma ResumeSpares(c: Config, r: (Core, Outcome), u: int, cpu: bool, t: int)
    requires t in c.core.threads && InAlloc(c.core.threads[t].state) && Spared(c.core, r.0, t)
    ensures Spared(c.core, Resume(r, u, cpu).0, t)
  {
  }

  lemma RequestSpares(c: Config, u: int, cpu: bool, blocking: bool, inject: Inject, t: int)
    requires Inv(c) && t in c.core.threads && InAlloc(c.core.threads[t].state)
    ensures Spared(c.core, PreAlloc(c.core, u, cpu, blocking, inject).0, t)
  {
    hide Inv, BlockUntilReady, Resume;
    WaitLoopSpares(c, u, t);
    ResumeSpares(c, BlockUntilReady(c.core, u), u, cpu, t);
    ResumeSpares(c, (c.core, Finished(false)), u, cpu, t);
  }

  lemma WakeSpares(c: Config, u: int, t: int)
    requires Inv(c) && t in c.core.threads && InAlloc(c.core.threads[t].state) && u in c.core.waiting
    ensures Spared(c.core, Continue(WakeUp(c.core, u), u, CallerOf(c, u)).0, t)
  {
    hide Inv, BlockUntilReady, Resume, CallerOf, GoodView;
    InvAt(c, u);
    InvBasics(c);
    var c1 := c.(core := c.core.(waiting := c.core.waiting - {u}, notified := c.core.notified - {u}));
    var woken := WakeUp(c.core, u);
    if !(u in c.core.threads && IsBlocked(c.core.threads[u].state)) {
      WakenKeeps(c, u);
      WaitLoopSpares(c1, u, t);
    }
    match CallerOf(c, u)
    case JustWaiting =>
    case Allocating(cpu) => ResumeSpares(c, woken, u, cpu, t);
  }

  lemma WakenKeeps(c: Config, u: int)
    requires Inv(c) && u in c.core.waiting
    ensures Inv(c.(core := c.core.(waiting := c.core.waiting - {u}, notified := c.core.notified - {u})))
  {
    hide Inv;
    InvAt(c, u);
    InvBasics(c);
    LocalChange(c, c.(core := c.core.(waiting := c.core.waiting - {u}, notified := c.core.notified - {u})), u);
  }

  lemma StartSpares(c: Config, u: int, task: int, t: int)
    requires Inv(c) && t in c.core.threads && InAlloc(c.core.threads[t].state)
    requires Allowed(c, StartDedicatedCall(u, task))
    ensures Spared(c.core, StartDedicated(c.core, u, task).0, t)
  {
    hide Inv, Remove;
    InvAt(c, t);
    if MustRededicate(c.core, u, task) {
      RemoveDisturbs(c.core, u, c.core.threads[u].taskId);
    }
  }

  lemma PoolSpares(c: Config, isForShuffle: bool, u: int, tasks: set<int>, t: int)
    requires t in c.core.threads
    ensures Spared(c.core, PoolWorking(c.core, isForShuffle, u, tasks).0, t)
  {
    hide Checkpoint;
    if PoolWorking(c.core, isForShuffle, u, tasks).1.Finished? {
      PoolPut(c.core, isForShuffle, u, tasks);
    }
  }

  /** A step that leaves some bracket open leaves the outermost one; a post call closes another than that. */
  lemma OutermostStays(c: Config, e: Event, t: int)
    requires BracketsOf(c, t) != [] && BracketsOf(Next(c, e), t) != []
    ensures BracketsOf(Next(c, e), t)[0] == BracketsOf(c, t)[0]
    ensures (e.PostSuccessCall? || e.PostFailedCall?) && e.t == t ==> |BracketsOf(c, t)| > 1
  {
    hide Result, CallerOf;
  }

  lemma StepSparesAllocating(c: Config, e: Event, t: int)
    requires Inv(c) && Allowed(c, e) && t in c.core.threads
    requires BracketsOf(c, t) != [] && BracketsOf(Next(c, e), t) != []
    ensures StaysAllocating(c.core, Next(c, e).core, e, t)
    ensures BracketsOf(Next(c, e), t)[0] == BracketsOf(c, t)[0]
  {
    hide Inv, Next, Result, Allowed;
    OutermostStays(c, e, t);
    NextCore(c, e);
    ResultSparesAllocating(c, e, t);
  }

  /** What one step does to a thread whose outermost bracket stays open: only a matching free is noted. */
  lemma ResultSparesAllocating(c: Config, e: Event, t: int)
    requires Inv(c) && Allowed(c, e) && t in c.core.threads && BracketsOf(c, t) != []
    requires (e.PostSuccessCall? || e.PostFailedCall?) && e.t == t ==> |BracketsOf(c, t)| > 1
    ensures StaysAllocating(c.core, Result(c, e).0, e, t)
  {
    hide Inv, PreAlloc, PostSuccess, PostFailed, BlockUntilReady, WakeUp, Dealloc, StartDedicated, PoolWorking, Top,
      PoolFinished, RemoveAssociation, TaskDone, CheckAndUpdate, ResetRetries, Continue, Disturbed, Stirred,
      SetPoolBlocked, NoEraseInside, CallerOf, MustRededicate, BracketsOf;
    InvAt(c, t);
    InvBasics(c);
    var s := c.core;
    match e
    case PostSuccessCall(u) => PostSuccessSpares(c, u, t);
    case PostFailedCall(u, oom, blocking) => PostFailedSpares(c, u, oom, blocking, t);
    case PreAllocCall(u, cpu, blocking, inject) => RequestSpares(c, u, cpu, blocking, inject, t);
    case BlockUntilReadyCall(u) => WaitLoopSpares(c, u, t);
    case WaitReturns(u) => WakeSpares(c, u, t);
    case DeallocCall(_, _) => DeallocSeen(s, e, t);
    case StartDedicatedCall(u, task) => StartSpares(c, u, task, t);
    case PoolWorkingCall(isForShuffle, u, tasks) => PoolSpares(c, isForShuffle, u, tasks, t);
    case SetPoolBlockedCall(u, blocked) => PoolBlockedSpares(s, u, blocked, t);
    case PoolFinishedCall(u, tasks) =>
      PoolFinishedDisturbs(s, u, tasks);
      EraseSparesOpen(c, PoolFinished(s, u, tasks), t);
    case RemoveAssociationCall(u, task) =>
      RemoveAssociationDisturbs(s, u, task);
      EraseSparesOpen(c, RemoveAssociation(s, u, task), t);
    case TaskDoneCall(task) =>
      TaskDoneDisturbs(s, task);
      EraseSparesOpen(c, TaskDone(s, task), t);
    case CheckDeadlocksCall(java) =>
      RoundDisturbs(s, Some(java));
      StirSpares(s, CheckAndUpdate(s, Some(java)), true, t);
    case GetAndResetRetriesCall(task) =>
      ResetRetriesDisturbs(s, task);
      StirSpares(s, ResetRetries(s, task), false, t);
    case RemoveTaskMetricsCall(_) =>
    case PriorityDoneCall(_) =>
  }

  lemma PoolBlockedSpares(s: Core, u: int, blocked: bool, t: int)
    requires t in s.threads
    ensures Spared(s, SetPoolBlocked(s, u, blocked).0, t)
  {
  }

  /** Steps `i` to `j - 1` of the run all leave some bracket of `t` open. */
  ghost predicate BracketOpen(cs: seq<Config>, i: nat, j: nat, t: int)
    requires i <= j < |cs|
  {
    forall k | i <= k <= j :: BracketsOf(cs[k], t) != []
  }

  /** Some other thread freed memory of kind `cpu` in steps `i` to `j - 1`. */
  ghost predicate FreedBetween(es: seq<Event>, i: nat, j: nat, t: int, cpu: bool)
    requires i <= j <= |es|
  {
    exists k :: i <= k < j && FreesFor(es[k], t, cpu)
  }

  /**
    From the moment a bracket is open (just entered: state ALLOC) until it closes, the thread stays
    registered with the same kind, and it is in ALLOC_FREE exactly when some other thread has freed
    memory of that kind meanwhile.
  */
  lemma {:induction false} FreesAreRemembered(cs: seq<Config>, es: seq<Event>, i: nat, j: nat, t: int)
    requires IsRun(cs, es) && i <= j < |cs| && BracketOpen(cs, i, j, t)
    requires t in cs[i].core.threads && cs[i].core.threads[t].state == Alloc
    ensures t in cs[j].core.threads
    ensures cs[j].core.threads[t].isCpuAlloc == cs[i].core.threads[t].isCpuAlloc
    ensures cs[j].core.threads[t].state ==
      if FreedBetween(es, i, j, t, cs[i].core.threads[t].isCpuAlloc) then AllocFree else Alloc
    decreases j - i
  {
    hide Next, Allowed, Inv;
    var cpu := cs[i].core.threads[t].isCpuAlloc;
    if i < j {
      var k := j - 1;
      assert BracketOpen(cs, i, k, t);
      FreesAreRemembered(cs, es, i, k, t);
      RunsKeepInv(cs, es, k);
      assert Allowed(cs[k], es[k]) && cs[k + 1] == Next(cs[k], es[k]);
      StepSparesAllocating(cs[k], es[k], t);
      if FreedBetween(es, i, j, t, cpu) && !FreesFor(es[k], t, cpu) {
        var m :| i <= m < j && FreesFor(es[m], t, cpu);
        assert m < k;
      }
    }
  }

  /**
    No missed free: an attempt that began at `i` and fails at `j` leaves its thread BLOCKED only if no
    other thread freed memory of that kind in between; if one did, the attempt ends RUNNING.
  */
  lemma NoMissedFree(cs: seq<Config>, es: seq<Event>, i: nat, j: nat, t: int)
    requires IsRun(cs, es) && i <= j < |es| && BracketOpen(cs, i, j, t)
    requires t in cs[i].core.threads && cs[i].core.threads[t].state == Alloc
    requires es[j].PostFailedCall? && es[j].t == t && !Top(cs[j], t).nested
    ensures t in cs[j + 1].core.threads
    ensures FreedBetween(es, i, j, t, cs[i].core.threads[t].isCpuAlloc) ==>
      cs[j + 1].core.threads[t].state == Running
    ensures cs[j + 1].core.threads[t].state == Blocked ==>
      !FreedBetween(es, i, j, t, cs[i].core.threads[t].isCpuAlloc)
  {
    hide Next, Inv;
    FreesAreRemembered(cs, es, i, j, t);
    RunsKeepInv(cs, es, j);
    assert Allowed(cs[j], es[j]) && cs[j + 1] == Next(cs[j], es[j]);
    FailuresEnd(cs, es, j);
  }
}
