/** Retry exceptions are counted once each, whatever threads and tasks come and go. */
module RetryCounters {
  import opened Collections
  import opened Threads
  import opened Deadlock
  import opened Scheduler
  import opened DeadlockBreaking
  import opened Runs
  import opened Disturbances
  import opened Safety
  import opened TaskDoneOrder
  import opened Leavers

  // ----- what is where -----

  ghost function RetriesIn(threads: ThreadMap): int -> int
  {
    t => if t in threads then threads[t].metrics.retryThrows else 0
  }

  ghost function Members(threads: ThreadMap, task: int): set<int>
  {
    set t | t in threads && threads[t].taskId == task
  }

  /** Retries still recorded with the live threads of a task. */
  ghost function Live(threads: ThreadMap, task: int): int
  {
    SumOver(Members(threads, task), RetriesIn(threads))
  }

  /** All retries of a task that have not been reported yet. */
  ghost function Unreported(s: Core, task: int): int
  {
    MetricsOf(s.taskMetrics, task).retryThrows + Live(s.threads, task)
  }

  /** What `get_and_reset_metric` returns for the retry counter. */
  ghost function Answer(s: Core, task: int): int
  {
    SumOver(LinkedThreads(s, task) * s.threads.Keys, RetriesIn(s.threads)) + MetricsOf(s.taskMetrics, task).retryThrows
  }

  ghost function Reported(c: Config, e: Event, task: int): int
  {
    if e == GetAndResetRetriesCall(task) then Answer(c.core, task) else 0
  }

  predicate IsRetryError(e: Error) { e.RetryOom? || e == RetryLimit(false) || e == InjectedRetry }

  /** One if the step throws a retry exception out of a thread dedicated to the task. */
  ghost function Thrown(c: Config, e: Event, task: int): int
  {
    if (e.PreAllocCall? || e.BlockUntilReadyCall? || e.WaitReturns?)
       && e.t in c.core.threads && c.core.threads[e.t].taskId == task
       && Result(c, e).1.Threw? && IsRetryError(Result(c, e).1.error)
    then 1 else 0
  }

  /** The retries that go with such a thread's entry. */
  function Lost(c: Config, e: Event, task: int): int
  {
    if ThrowsOnRemoval(c, e) && c.core.threads[e.t].taskId == task then c.core.threads[e.t].metrics.retryThrows else 0
  }

  /** The same as a guard on the state before the call: a thread told to throw still holds retries of the task. */
  predicate TakesRetriesAway(c: Config, e: Event, task: int)
  {
    && ThrowsOnRemoval(c, e)
    && c.core.threads[e.t].taskId == task && c.core.threads[e.t].metrics.retryThrows != 0
  }

  /** A retry is injected into a thread that has already been told to throw on removal. */
  predicate IsLate(c: Config, e: Event)
  {
    && e.PreAllocCall? && e.inject == ForceRetry
    && e.t in c.core.threads && c.core.threads[e.t].state == RemoveThrow
  }

  // ----- sums -----

  lemma LivePut(threads: ThreadMap, t: int, th: Thread, task: int)
    requires t in threads && th.taskId == threads[t].taskId
    ensures Live(threads[t := th], task) ==
      Live(threads, task) + if th.taskId == task then th.metrics.retryThrows - threads[t].metrics.retryThrows else 0
  {
    var after := threads[t := th];
    assert Members(after, task) == Members(threads, task);
    var ms := Members(threads, task);
    if t in ms {
      SumRemove(ms, RetriesIn(threads), t);
      SumRemove(ms, RetriesIn(after), t);
      SumSame(ms - {t}, RetriesIn(threads), RetriesIn(after));
    } else {
      SumSame(ms, RetriesIn(threads), RetriesIn(after));
    }
  }

  lemma LiveErase(threads: ThreadMap, t: int, task: int)
    requires t in threads
    ensures Live(threads - {t}, task) ==
      Live(threads, task) - if threads[t].taskId == task then threads[t].metrics.retryThrows else 0
  {
    var after := threads - {t};
    var ms := Members(threads, task);
    assert Members(after, task) == ms - {t};
    if t in ms {
      SumRemove(ms, RetriesIn(threads), t);
    } else {
      assert ms - {t} == ms;
    }
    SumSame(ms - {t}, RetriesIn(threads), RetriesIn(after));
  }

  lemma LiveInsert(threads: ThreadMap, t: int, th: Thread, task: int)
    requires t !in threads && th.metrics.retryThrows == 0
    ensures Live(threads[t := th], task) == Live(threads, task)
  {
    var after := threads[t := th];
    LiveErase(after, t, task);
    assert after - {t} == threads;
  }

  lemma LiveSame(a: ThreadMap, b: ThreadMap, task: int)
    requires a.Keys == b.Keys
    requires forall t | t in a && a[t].taskId == task ::
      b[t].taskId == task && b[t].metrics.retryThrows == a[t].metrics.retryThrows
    requires forall t | t in b && b[t].taskId == task :: a[t].taskId == task
    ensures Live(a, task) == Live(b, task)
  {
    forall t ensures t in Members(a, task) <==> t in Members(b, task) {}
    SameMembers(Members(a, task), Members(b, task));
    SumSame(Members(a, task), RetriesIn(a), RetriesIn(b));
  }

  lemma {:induction false} SumZero(s: set<int>, f: int -> int)
    requires forall x | x in s :: f(x) == 0
    ensures SumOver(s, f) == 0
  {
    if s != {} {
      SumZero(s - {MinOf(s)}, f);
    }
  }

  lemma {:induction false} SumUnion(s: set<int>, t: set<int>, f: int -> int)
    requires s * t == {}
    ensures SumOver(s + t, f) == SumOver(s, f) + SumOver(t, f)
    decreases s
  {
    if s == {} {
      assert s + t == t;
    } else {
      var x := MinOf(s);
      SumRemove(s + t, f, x);
      assert (s + t) - {x} == (s - {x}) + t;
      SumUnion(s - {x}, t, f);
    }
  }

  // ----- links between tasks and threads -----

  /**
    All threads are dedicated; a task lists exactly its threads that are not being removed; a thread
    being removed has nothing left to report, unless it is one of the late ones.
  */
  ghost predicate Linked(s: Core, late: set<int>)
  {
    && (forall t | t in s.threads ::
          && s.threads[t].taskId >= 0 && s.threads[t].poolTasks == {}
          && s.threads[t].metrics.retryThrows >= 0
          && (s.threads[t].state == RemoveThrow && t !in late ==> s.threads[t].metrics.retryThrows == 0)
          && (s.threads[t].state != RemoveThrow ==>
                s.threads[t].taskId in s.taskThreads && t in s.taskThreads[s.threads[t].taskId]))
    && (forall task, t | task in s.taskThreads && t in s.taskThreads[task] ::
          t in s.threads && s.threads[t].taskId == task && s.threads[t].state != RemoveThrow)
  }

  /** Nothing that matters to the counters has changed. */
  ghost predicate SameAccounts(s: Core, s': Core)
  {
    && s'.threads.Keys == s.threads.Keys
    && s'.taskThreads == s.taskThreads && s'.taskMetrics == s.taskMetrics
    && forall t | t in s.threads ::
         && s'.threads[t].taskId == s.threads[t].taskId && s'.threads[t].poolTasks == s.threads[t].poolTasks
         && s'.threads[t].metrics == s.threads[t].metrics
         && (s'.threads[t].state == RemoveThrow <==> s.threads[t].state == RemoveThrow)
  }

  /** A step that keeps the links and moves a task's unreported retries by `delta`. */
  ghost predicate Balanced(s: Core, s': Core, task: int, delta: int, late: set<int>)
  {
    Linked(s', late) && Unreported(s', task) == Unreported(s, task) + delta
  }

  lemma SameAccountsBalance(s: Core, s': Core, task: int, late: set<int>)
    requires Linked(s, late) && SameAccounts(s, s')
    ensures Balanced(s, s', task, 0, late)
  {
    LiveSame(s.threads, s'.threads, task);
  }

  lemma RoundKeepsAccounts(s: Core, java: JavaBlocked)
    requires -1 !in s.threads
    ensures SameAccounts(s, CheckAndUpdate(s, java))
  {
    hide CheckAndUpdate, Deadlocked, AllBufn, LowestBlocked, HighestBufn;
    RoundEffect(s, java);
    var s' := CheckAndUpdate(s, java);
    forall t | t in s.threads
      ensures s'.threads[t].taskId == s.threads[t].taskId && s'.threads[t].poolTasks == s.threads[t].poolTasks
      ensures s'.threads[t].metrics == s.threads[t].metrics
      ensures s'.threads[t].state == RemoveThrow <==> s.threads[t].state == RemoveThrow
    {
      assert RoundMoves(s, java, s', t);
      if s'.threads[t] != s.threads[t] && RetriesOnce(s, s', t) {
        assert t in BlockedIds(s.threads);
      }
    }
  }

  lemma WakeNextKeepsAccounts(s: Core, cpu: bool)
    ensures SameAccounts(s, WakeNext(s, cpu))
  {
    hide WakeNext, HighestBlockedFor;
    WakeNextEffect(s, cpu);
  }

  lemma WakeIfKeepsAccounts(r: (Core, bool))
    ensures SameAccounts(r.0, WakeIf(r))
  {
  }

  lemma SameAccountsTwice(s: Core, s1: Core, s2: Core)
    requires SameAccounts(s, s1) && SameAccounts(s1, s2)
    ensures SameAccounts(s, s2)
  {
  }

  /** Moving a thread's counters to its task loses nothing. */
  lemma CheckpointBalances(s: Core, t: int, task: int, late: set<int>)
    requires Linked(s, late) && t in s.threads
    ensures Balanced(s, Checkpoint(s, t), task, 0, late)
    ensures t in Checkpoint(s, t).threads && Checkpoint(s, t).threads[t] == s.threads[t].(metrics := NO_METRICS)
    ensures Checkpoint(s, t).taskThreads == s.taskThreads
  {
    LivePut(s.threads, t, s.threads[t].(metrics := NO_METRICS), task);
  }

  lemma ExpelBalances(s: Core, t: int, task: int, late: set<int>)
    requires Linked(s, late) && t in s.threads && s.threads[t].metrics.retryThrows == 0
    ensures Balanced(s, Expel(s, t, s.threads[t].taskId).0, task, 0, late)
    ensures t in Expel(s, t, s.threads[t].taskId).0.threads ==>
      Expel(s, t, s.threads[t].taskId).0.threads[t].state == RemoveThrow
  {
    hide Linked, Live;
    ExpelKeepsLinks(s, t, late);
    LivePut(s.threads, t, s.threads[t].(state := RemoveThrow), task);
    LiveErase(s.threads, t, task);
  }

  lemma ExpelKeepsLinks(s: Core, t: int, late: set<int>)
    requires Linked(s, late) && t in s.threads && s.threads[t].metrics.retryThrows == 0
    ensures Linked(Expel(s, t, s.threads[t].taskId).0, late)
  {
    var s' := Expel(s, t, s.threads[t].taskId).0;
    var own := s.threads[t].taskId;
    forall x, u | x in s'.taskThreads && u in s'.taskThreads[x]
      ensures u in s'.threads && s'.threads[u].taskId == x && s'.threads[u].state != RemoveThrow
    {
      assert u in s.taskThreads[x];
      assert u != t;
    }
  }

  lemma RemoveBalances(s: Core, t: int, removed: int, task: int, late: set<int>)
    requires Linked(s, late) && removed >= 0
    ensures Balanced(s, Remove(s, t, removed).0, task, 0, late)
    ensures t in s.threads && t in Remove(s, t, removed).0.threads && s.threads[t].taskId == removed ==>
      Remove(s, t, removed).0.threads[t].state == RemoveThrow
    ensures forall u | u in s.threads && u != t :: u in Remove(s, t, removed).0.threads
  {
    hide Checkpoint, Expel, Linked, Unreported;
    if t in s.threads {
      CheckpointBalances(s, t, task, late);
      var s1 := Checkpoint(s, t);
      RemoveDisturbs(s, t, removed);
      assert s1.threads[t].taskId >= 0 by {
        LinkedAt(s1, t, late);
      }
      if s1.threads[t].taskId == removed {
        ExpelBalances(s1, t, task, late);
      }
    }
  }

  lemma LinkedAt(s: Core, t: int, late: set<int>)
    requires Linked(s, late) && t in s.threads
    ensures s.threads[t].taskId >= 0 && s.threads[t].poolTasks == {}
    ensures s.threads[t].metrics.retryThrows >= 0
    ensures s.threads[t].state == RemoveThrow && t !in late ==> s.threads[t].metrics.retryThrows == 0
  {
  }

  lemma {:induction false} RemoveAllBalances(s: Core, ids: set<int>, removed: int, task: int, late: set<int>)
    requires Linked(s, late) && removed >= 0
    ensures Balanced(s, RemoveAll(s, ids, removed).0, task, 0, late)
    decreases ids
  {
    hide Remove, Linked, Unreported;
    if ids != {} {
      var t := MinOf(ids);
      RemoveBalances(s, t, removed, task, late);
      RemoveAllBalances(Remove(s, t, removed).0, ids - {t}, removed, task, late);
    }
  }

  lemma {:induction false} NobodyLeaves(s: Core, ids: set<int>, task: int, late: set<int>)
    requires Linked(s, late)
    ensures LeaveAll(s, ids, task) == (s, false)
    decreases ids
  {
    hide Linked;
    if ids != {} {
      var t := MinOf(ids);
      if t in s.threads {
        LinkedAt(s, t, late);
      }
      NobodyLeaves(s, ids - {t}, task, late);
    }
  }

  /** Removing every thread a task lists empties its list. */
  lemma {:induction false} RemoveAllEmptiesTask(s: Core, ids: set<int>, task: int, late: set<int>)
    requires Linked(s, late) && task >= 0 && task in s.taskThreads && s.taskThreads[task] <= ids
    ensures
      var s' := RemoveAll(s, ids, task).0;
      task in s'.taskThreads && s'.taskThreads[task] == {}
    decreases ids
  {
    hide Remove, Linked;
    if ids != {} {
      var t := MinOf(ids);
      RemoveBalances(s, t, task, 0, late);
      RemoveUnlinks(s, t, task, late);
      RemoveAllEmptiesTask(Remove(s, t, task).0, ids - {t}, task, late);
    }
  }

  lemma RemoveUnlinks(s: Core, t: int, task: int, late: set<int>)
    requires Linked(s, late) && task >= 0 && task in s.taskThreads
    ensures task in Remove(s, t, task).0.taskThreads
    ensures Remove(s, t, task).0.taskThreads[task] == s.taskThreads[task] - {t}
  {
  }

  lemma TaskDoneBalances(s: Core, done: int, task: int, late: set<int>)
    requires Linked(s, late) && done >= 0
    ensures Balanced(s, TaskDone(s, done), task, 0, late)
  {
    hide RemoveAll, LeaveAll, WakeIf, Unreported, SameAccounts;
    var ids := if done in s.taskThreads then s.taskThreads[done] else {};
    var r1 := RemoveAll(s, ids, done);
    RemoveAllBalances(s, ids, done, task, late);
    if done in s.taskThreads {
      RemoveAllEmptiesTask(s, ids, done, late);
    }
    NobodyLeaves(r1.0, r1.0.threads.Keys, done, late);
    var s3 := WakeIf((r1.0, r1.1));
    WakeIfKeepsAccounts((r1.0, r1.1));
    SameAccountsBalance(r1.0, s3, task, late);
    assert TaskDone(s, done) == s3.(taskThreads := s3.taskThreads - {done});
    assert r1.0 == s || done in s.taskThreads by {
      if done !in s.taskThreads {
        NothingToRemove(s, done);
      }
    }
    DropTask(r1.0, s3, done, late);
    SameUnreported(s3, TaskDone(s, done), task);
  }

  lemma NothingToRemove(s: Core, task: int)
    ensures RemoveAll(s, {}, task) == (s, false)
  {
  }

  lemma SameUnreported(s: Core, s': Core, task: int)
    requires s'.threads == s.threads && s'.taskMetrics == s.taskMetrics
    ensures Unreported(s', task) == Unreported(s, task)
  {
  }

  /** Forgetting a task with an empty list keeps the links. */
  lemma DropTask(s: Core, s3: Core, task: int, late: set<int>)
    requires Linked(s3, late) && SameAccounts(s, s3)
    requires task in s.taskThreads ==> s.taskThreads[task] == {}
    ensures Linked(s3.(taskThreads := s3.taskThreads - {task}), late)
  {
  }

  lemma StartDedicatedBalances(s: Core, t: int, task': int, task: int, late: set<int>)
    requires Linked(s, late) && task' >= 0
    ensures Balanced(s, StartDedicated(s, t, task').0, task, 0, late)
  {
    hide Remove, Linked, Live;
    var s1 := s;
    if MustRededicate(s, t, task') {
      LinkedAt(s, t, late);
      RemoveBalances(s, t, s.threads[t].taskId, task, late);
      s1 := Remove(s, t, s.threads[t].taskId).0;
    }
    if t !in s1.threads {
      LiveInsert(s1.threads, t, FreshThread(task', false), task);
      LinkFresh(s1, t, task', late);
    } else if s1.threads[t].state != RemoveThrow && s1.threads[t].taskId == task' {
      LinkAgain(s1, t, late);
    }
  }

  lemma LinkFresh(s: Core, t: int, task: int, late: set<int>)
    requires Linked(s, late) && t !in s.threads && task >= 0
    ensures Linked(Link(Put(s, t, FreshThread(task, false)), t, task), late)
  {
  }

  lemma LinkAgain(s: Core, t: int, late: set<int>)
    requires Linked(s, late) && t in s.threads && s.threads[t].state != RemoveThrow
    ensures Linked(Link(s, t, s.threads[t].taskId), late)
  {
  }

  lemma RemoveAssociationBalances(s: Core, t: int, removed: int, task: int, late: set<int>)
    requires Linked(s, late) && removed >= 0
    ensures Balanced(s, RemoveAssociation(s, t, removed), task, 0, late)
  {
    hide Remove, WakeIf, Linked, Unreported, SameAccounts;
    RemoveBalances(s, t, removed, task, late);
    WakeIfKeepsAccounts(Remove(s, t, removed));
    SameAccountsBalance(Remove(s, t, removed).0, RemoveAssociation(s, t, removed), task, late);
  }

  ghost function Leaving(threads: ThreadMap, task: int): set<int>
  {
    set t | t in threads && threads[t].taskId == task && threads[t].state == RemoveThrow
  }

  /** Retries of a task with threads that are being removed, which its list no longer names. */
  ghost function Stranded(s: Core, task: int): int
  {
    SumOver(Leaving(s.threads, task), RetriesIn(s.threads))
  }

  lemma MembersSplit(s: Core, task: int, late: set<int>)
    requires Linked(s, late)
    ensures Members(s.threads, task) == LinkedThreads(s, task) * s.threads.Keys + Leaving(s.threads, task)
    ensures (LinkedThreads(s, task) * s.threads.Keys) * Leaving(s.threads, task) == {}
  {
    var linked, leaving := LinkedThreads(s, task) * s.threads.Keys, Leaving(s.threads, task);
    forall t ensures t in Members(s.threads, task) <==> t in linked + leaving {}
    SameMembers(Members(s.threads, task), linked + leaving);
    forall t | t in linked ensures t in s.threads && s.threads[t].state != RemoveThrow {}
    NoMemberIsEmpty(linked * leaving);
  }

  /** The answer is all there is to report, except for what is stranded. */
  lemma AnswerIsComplete(s: Core, asked: int, late: set<int>)
    requires Linked(s, late)
    ensures Answer(s, asked) + Stranded(s, asked) == Unreported(s, asked)
    ensures Leaving(s.threads, asked) * late == {} ==> Answer(s, asked) == Unreported(s, asked)
  {
    var linked := LinkedThreads(s, asked) * s.threads.Keys;
    var ms, leaving := Members(s.threads, asked), Leaving(s.threads, asked);
    MembersSplit(s, asked, late);
    SumUnion(linked, leaving, RetriesIn(s.threads));
    if leaving * late == {} {
      forall t | t in leaving ensures RetriesIn(s.threads)(t) == 0 {
        assert t !in leaving * late;
      }
      SumZero(leaving, RetriesIn(s.threads));
    }
  }

  lemma ResetKeepsLinks(s: Core, asked: int, late: set<int>)
    requires Linked(s, late)
    ensures Linked(ResetRetries(s, asked), late)
  {
  }

  /** Once answered, nothing is left to report for the task, and other tasks are untouched. */
  lemma ResetBalances(s: Core, asked: int, task: int, late: set<int>)
    requires Linked(s, late)
    ensures Balanced(s, ResetRetries(s, asked), task, if task == asked then -Answer(s, asked) else 0, late)
  {
    hide Linked, ResetRetries, Unreported, Answer, Stranded;
    ResetKeepsLinks(s, asked, late);
    if task == asked {
      AnswerIsComplete(s, asked, late);
      AnswerIsComplete(ResetRetries(s, asked), asked, late);
      NothingMoreToAnswer(s, asked);
      StrandedStays(s, asked, late);
    } else {
      OthersStay(s, asked, task, late);
    }
  }

  lemma NothingMoreToAnswer(s: Core, asked: int)
    ensures Answer(ResetRetries(s, asked), asked) == 0
  {
    var s' := ResetRetries(s, asked);
    var linked := LinkedThreads(s, asked) * s.threads.Keys;
    SumZero(linked, RetriesIn(s'.threads));
    assert s'.threads.Keys == s.threads.Keys;
  }

  lemma StrandedStays(s: Core, asked: int, late: set<int>)
    requires Linked(s, late)
    ensures Stranded(ResetRetries(s, asked), asked) == Stranded(s, asked)
  {
    var s' := ResetRetries(s, asked);
    var leaving := Leaving(s.threads, asked);
    forall t ensures t in Leaving(s'.threads, asked) <==> t in leaving {}
    SameMembers(Leaving(s'.threads, asked), leaving);
    SumSame(leaving, RetriesIn(s.threads), RetriesIn(s'.threads));
  }

  lemma OthersStay(s: Core, asked: int, task: int, late: set<int>)
    requires Linked(s, late) && task != asked
    ensures Unreported(ResetRetries(s, asked), task) == Unreported(s, task)
  {
    LiveSame(s.threads, ResetRetries(s, asked).threads, task);
  }

  // ----- owners' own steps -----

  lemma PutBalances(s: Core, t: int, th: Thread, task: int, late: set<int>)
    requires Linked(s, late) && t in s.threads && th.taskId == s.threads[t].taskId
    requires th.poolTasks == s.threads[t].poolTasks
    requires th.metrics.retryThrows >= 0 && (th.state == RemoveThrow <==> s.threads[t].state == RemoveThrow)
    requires th.state == RemoveThrow && th.metrics.retryThrows != 0 ==> t in late
    ensures Balanced(s, Put(s, t, th), task,
                     if th.taskId == task then th.metrics.retryThrows - s.threads[t].metrics.retryThrows else 0, late)
  {
    LivePut(s.threads, t, th, task);
  }

  /** One for a retry exception thrown out of a thread of the task, less what is lost with an erased entry. */
  ghost function Charge(s: Core, t: int, out: Outcome, task: int): int
  {
    if t !in s.threads || s.threads[t].taskId != task || !out.Threw? then 0
    else if IsRetryError(out.error) then 1
    else if out.error == ThreadRemoved then -s.threads[t].metrics.retryThrows
    else 0
  }

  lemma SettleBalances(s: Core, t: int, task: int, late: set<int>)
    requires Linked(s, late) && (t in s.threads ==> s.threads[t].state != BufnWait)
    ensures Balanced(s, Settle(s, t).0, task, Charge(s, t, Settle(s, t).1, task), late)
  {
    hide Linked, Live;
    if t in s.threads {
      LinkedAt(s, t, late);
      match s.threads[t].state
      case BufnThrow =>
        PutBalances(s, t, CountAgainstLimit(CountRetry(s.threads[t].(state := BufnWait))), task, late);
      case SplitThrow =>
        PutBalances(s, t, CountAgainstLimit(CountSplit(s.threads[t].(state := Running))), task, late);
      case RemoveThrow =>
        LiveErase(s.threads, t, task);
        EraseLeaving(s, t, late);
      case Blocked => SameThreadsLinked(s, Sleep(s, t), late);
      case Bufn => SameThreadsLinked(s, Sleep(s, t), late);
      case _ =>
    }
  }

  lemma SameThreadsLinked(s: Core, s': Core, late: set<int>)
    requires Linked(s, late) && s'.threads == s.threads && s'.taskThreads == s.taskThreads
    ensures Linked(s', late)
  {
  }

  lemma EraseLeaving(s: Core, t: int, late: set<int>)
    requires Linked(s, late) && t in s.threads && s.threads[t].state == RemoveThrow
    ensures Linked(s.(threads := s.threads - {t}), late)
  {
  }

  lemma WaitLoopBalances(s: Core, t: int, task: int, late: set<int>)
    requires -1 !in s.threads && Linked(s, late)
    ensures Balanced(s, BlockUntilReady(s, t).0, task, Charge(s, t, BlockUntilReady(s, t).1, task), late)
  {
    hide CheckAndUpdate, Linked, Unreported, Settle;
    if t in s.threads && s.threads[t].state == BufnWait {
      var s1 := Move(s, t, Bufn);
      LinkedAt(s, t, late);
      PutBalances(s, t, s.threads[t].(state := Bufn), task, late);
      var s2 := CheckAndUpdate(s1, None);
      RoundKeepsAccounts(s1, None);
      RoundOnBufn(s1, None, t);
      SameAccountsBalance(s1, s2, task, late);
      SettleBalances(s2, t, task, late);
    } else {
      SettleBalances(s, t, task, late);
    }
  }

  lemma EnterBalances(s: Core, t: int, cpu: bool, task: int, late: set<int>)
    requires Linked(s, late)
    ensures Balanced(s, EnterBracket(s, t, cpu).0, task, 0, late)
    ensures EnterBracket(s, t, cpu).1.Threw? ==> EnterBracket(s, t, cpu).1.error == UnexpectedPreAlloc
  {
    hide Linked, Live;
    if t in s.threads && s.threads[t].state == Running {
      LinkedAt(s, t, late);
      PutBalances(s, t, s.threads[t].(state := Alloc, isCpuAlloc := cpu), task, late);
    }
  }

  lemma ResumeBalances(s: Core, r: (Core, Outcome), t: int, cpu: bool, task: int, late: set<int>)
    requires Linked(s, late) && Balanced(s, r.0, task, Charge(s, t, r.1, task), late)
    ensures Balanced(s, Resume(r, t, cpu).0, task, Charge(s, t, Resume(r, t, cpu).1, task), late)
  {
    hide Linked, Unreported, EnterBracket;
    EnterBalances(r.0, t, cpu, task, late);
  }

  lemma PreAllocBalances(s: Core, t: int, cpu: bool, blocking: bool, inject: Inject, task: int, late: set<int>)
    requires -1 !in s.threads && Linked(s, late)
    requires inject == ForceRetry && t in s.threads && s.threads[t].state == RemoveThrow ==> t in late
    ensures
      var r := PreAlloc(s, t, cpu, blocking, inject);
      Balanced(s, r.0, task, Charge(s, t, r.1, task), late)
  {
    hide Linked, Unreported, BlockUntilReady, Resume;
    WaitLoopBalances(s, t, task, late);
    ResumeBalances(s, BlockUntilReady(s, t), t, cpu, task, late);
    ResumeBalances(s, (s, Finished(false)), t, cpu, task, late);
    if t in s.threads && inject == ForceRetry {
      LinkedAt(s, t, late);
      PutBalances(s, t, CountRetry(s.threads[t]), task, late);
    }
    if t in s.threads && inject == ForceSplit {
      SplitCountBalances(s, t, task, late);
    }
  }

  lemma SplitCountBalances(s: Core, t: int, task: int, late: set<int>)
    requires Linked(s, late) && t in s.threads
    ensures Balanced(s, Put(s, t, CountSplit(s.threads[t])), task, 0, late)
  {
    LivePut(s.threads, t, CountSplit(s.threads[t]), task);
  }

  lemma WakeBalances(c: Config, t: int, task: int, late: set<int>)
    requires Inv(c) && t in c.core.waiting && Linked(c.core, late)
    ensures
      var r := Continue(WakeUp(c.core, t), t, CallerOf(c, t));
      Balanced(c.core, r.0, task, Charge(c.core, t, r.1, task), late)
  {
    hide Inv, Linked, Live, BlockUntilReady, Resume, CallerOf;
    InvBasics(c);
    var s := c.core;
    var s1 := s.(waiting := s.waiting - {t}, notified := s.notified - {t});
    SameThreadsLinked(s, s1, late);
    SameThreadsLinked(s, s.(notified := s.notified - {t}), late);
    WaitLoopBalances(s1, t, task, late);
    match CallerOf(c, t)
    case JustWaiting =>
    case Allocating(cpu) => ResumeBalances(s, WakeUp(s, t), t, cpu, task, late);
  }

  lemma PostBalances(c: Config, e: Event, task: int, late: set<int>)
    requires Inv(c) && Allowed(c, e) && Linked(c.core, late) && (e.PostSuccessCall? || e.PostFailedCall?)
    ensures Balanced(c.core, Result(c, e).0, task, 0, late)
  {
    hide Inv, Linked, Unreported, SameAccounts, WakeNext, CheckAndUpdate, PreAlloc, BlockUntilReady, WakeUp,
      StartDedicated, PoolWorking, PoolFinished, RemoveAssociation, TaskDone, ResetRetries, Dealloc, Top;
    InvBasics(c);
    var s, u := c.core, e.t;
    ClosingBracket(c, u);
    if Top(c, u).nested || u !in s.threads {
      RoundKeepsAccounts(s, None);
      SameAccountsBalance(s, CheckAndUpdate(s, None), task, late);
    } else if e.PostSuccessCall? {
      var s1 := Put(s, u, s.threads[u].(retryBeforeBufn := false, state := Running, isCpuAlloc := false));
      LinkedAt(s, u, late);
      PutBalances(s, u, s1.threads[u], task, late);
      WakeNextKeepsAccounts(s1, Top(c, u).cpu);
      SameAccountsBalance(s1, WakeNext(s1, Top(c, u).cpu), task, late);
    } else {
      var s1 := Put(s, u, AfterFailure(s.threads[u], e.oom, e.blocking));
      var s2 := if s1.threads[u].state == BufnThrow then Notify(s1, u) else s1;
      LinkedAt(s, u, late);
      PutBalances(s, u, s1.threads[u], task, late);
      SameThreadsLinked(s1, s2, late);
      SameUnreported(s1, s2, task);
      RoundKeepsAccounts(s2, None);
      SameAccountsBalance(s2, CheckAndUpdate(s2, None), task, late);
    }
  }

  lemma DeallocBalances(s: Core, t: int, cpu: bool, task: int, late: set<int>)
    requires Linked(s, late)
    ensures Balanced(s, Dealloc(s, t, cpu), task, 0, late)
  {
    hide WakeNext, Linked, Unreported;
    var s1 := s.(threads := MarkFreed(s.threads, t, cpu));
    assert SameAccounts(s, s1);
    WakeNextKeepsAccounts(s1, cpu);
    SameAccountsTwice(s, s1, WakeNext(s1, cpu));
    SameAccountsBalance(s, WakeNext(s1, cpu), task, late);
  }

  /**
    The runs that are counted: every thread is dedicated, associations are removed by task id, and the
    metrics of a task are not deleted.
  */
  ghost predicate Countable(e: Event)
  {
    match e
    case PoolWorkingCall(_, _, _) => false
    case PoolFinishedCall(_, _) => false
    case RemoveTaskMetricsCall(_) => false
    case RemoveAssociationCall(_, task) => task >= 0
    case _ => true
  }

  /** An entry is erased as its thread throws exactly when the guard on the state before the call holds. */
  lemma RemovedExactlyWhen(c: Config, e: Event)
    requires Inv(c) && Allowed(c, e) && (e.PreAllocCall? || e.BlockUntilReadyCall? || e.WaitReturns?)
    ensures Result(c, e).1 == Threw(ThreadRemoved) <==> ThrowsOnRemoval(c, e)
  {
    hide Inv, CheckAndUpdate, CallerOf;
    InvBasics(c);
    InvAt(c, e.t);
    var t := e.t;
    if t in c.core.threads && c.core.threads[t].state == BufnWait {
      RoundOnBufn(Move(c.core, t, Bufn), None, t);
      var s := c.core.(waiting := c.core.waiting - {t}, notified := c.core.notified - {t});
      RoundOnBufn(Move(s, t, Bufn), None, t);
    }
  }

  /** Each step moves a task's unreported retries by what it throws less what it reports and loses. */
  lemma StepBalances(c: Config, e: Event, task: int, late: set<int>)
    requires Inv(c) && Allowed(c, e) && Countable(e) && Linked(c.core, late)
    requires IsLate(c, e) ==> e.t in late
    ensures Balanced(c.core, Next(c, e).core, task, Thrown(c, e, task) - Reported(c, e, task) - Lost(c, e, task), late)
  {
    hide Inv, Linked, Unreported, SameAccounts, PreAlloc, PostSuccess, PostFailed, BlockUntilReady, WakeUp, Dealloc,
      StartDedicated, PoolWorking, PoolFinished, RemoveAssociation, TaskDone, CheckAndUpdate, ResetRetries, Continue,
      Answer;
    InvBasics(c);
    if e.PreAllocCall? || e.BlockUntilReadyCall? || e.WaitReturns? {
      RemovedExactlyWhen(c, e);
    }
    var s := c.core;
    match e
    case PreAllocCall(t, cpu, blocking, inject) => PreAllocBalances(s, t, cpu, blocking, inject, task, late);
    case PostSuccessCall(t) => PostBalances(c, e, task, late);
    case PostFailedCall(t, oom, blocking) => PostBalances(c, e, task, late);
    case BlockUntilReadyCall(t) => WaitLoopBalances(s, t, task, late);
    case WaitReturns(t) => WakeBalances(c, t, task, late);
    case DeallocCall(t, cpu) => DeallocBalances(s, t, cpu, task, late);
    case StartDedicatedCall(t, task') => StartDedicatedBalances(s, t, task', task, late);
    case RemoveAssociationCall(t, task') => RemoveAssociationBalances(s, t, task', task, late);
    case TaskDoneCall(task') => TaskDoneBalances(s, task', task, late);
    case SetPoolBlockedCall(t, blocked) =>
      assert SameAccounts(s, Next(c, e).core) by {
        PoolBlockedKeepsAccounts(s, t, blocked);
      }
      SameAccountsBalance(s, Next(c, e).core, task, late);
    case CheckDeadlocksCall(java) =>
      RoundKeepsAccounts(s, Some(java));
      SameAccountsBalance(s, CheckAndUpdate(s, Some(java)), task, late);
    case GetAndResetRetriesCall(asked) => ResetBalances(s, asked, task, late);
    case PriorityDoneCall(_) =>
      SameThreadsLinked(s, Next(c, e).core, late);
      SameUnreported(s, Next(c, e).core, task);
  }

  lemma PoolBlockedKeepsAccounts(s: Core, t: int, blocked: bool)
    ensures SameAccounts(s, SetPoolBlocked(s, t, blocked).0)
  {
  }

  ghost function TotalThrown(cs: seq<Config>, es: seq<Event>, n: nat, task: int): int
    requires n <= |es| < |cs|
  {
    if n == 0 then 0 else TotalThrown(cs, es, n - 1, task) + Thrown(cs[n - 1], es[n - 1], task)
  }

  ghost function TotalReported(cs: seq<Config>, es: seq<Event>, n: nat, task: int): int
    requires n <= |es| < |cs|
  {
    if n == 0 then 0 else TotalReported(cs, es, n - 1, task) + Reported(cs[n - 1], es[n - 1], task)
  }

  ghost function TotalLost(cs: seq<Config>, es: seq<Event>, n: nat, task: int): int
    requires n <= |es| < |cs|
  {
    if n == 0 then 0 else TotalLost(cs, es, n - 1, task) + Lost(cs[n - 1], es[n - 1], task)
  }

  ghost predicate AllCountable(es: seq<Event>) { forall i | 0 <= i < |es| :: Countable(es[i]) }

  /** The threads into which a retry was injected too late within the first n steps. */
  ghost predicate NamesLate(cs: seq<Config>, es: seq<Event>, n: nat, late: set<int>)
    requires n <= |es| < |cs|
  {
    forall i | 0 <= i < n && IsLate(cs[i], es[i]) :: es[i].t in late
  }

  /**
    Every retry is accounted for, task by task: what has been reported, what the task table and the
    live threads still hold, and what was lost with entries erased on removal, add up to the number of
    retry exceptions thrown.
  */
  lemma {:induction false} RetriesAreAccountedFor(cs: seq<Config>, es: seq<Event>, n: nat, task: int, late: set<int>)
    requires IsRun(cs, es) && n < |cs| && AllCountable(es) && NamesLate(cs, es, n, late)
    ensures Linked(cs[n].core, late)
    ensures TotalReported(cs, es, n, task) + Unreported(cs[n].core, task) + TotalLost(cs, es, n, task)
         == TotalThrown(cs, es, n, task)
  {
    hide Inv, Next, Allowed, Countable, Reported, Thrown, Lost, IsLate;
    if n > 0 {
      var i := n - 1;
      RetriesAreAccountedFor(cs, es, i, task, late);
      RunsKeepInv(cs, es, i);
      assert Allowed(cs[i], es[i]) && cs[i + 1] == Next(cs[i], es[i]);
      StepBalances(cs[i], es[i], task, late);
    }
  }

  ghost function LateThreads(cs: seq<Config>, es: seq<Event>, n: nat): (late: set<int>)
    requires n <= |es| < |cs|
    ensures NamesLate(cs, es, n, late)
    ensures forall t | t in late :: exists i :: 0 <= i < n && IsLate(cs[i], es[i]) && es[i].t == t
  {
    set i | 0 <= i < n && IsLate(cs[i], es[i]) :: es[i].t
  }

  /** Nothing is lost but retries injected too late: a loss is never negative and names its late injection. */
  lemma {:induction false} LossesWereInjectedLate(cs: seq<Config>, es: seq<Event>, i: nat, task: int)
    requires IsRun(cs, es) && i < |es| && AllCountable(es)
    ensures Lost(cs[i], es[i], task) >= 0
    ensures Lost(cs[i], es[i], task) > 0 ==> exists j :: 0 <= j < i && IsLate(cs[j], es[j]) && es[j].t == es[i].t
  {
    hide Inv, Next, Allowed, Countable;
    var late := LateThreads(cs, es, i);
    RetriesAreAccountedFor(cs, es, i, task, late);
    if Lost(cs[i], es[i], task) != 0 {
      LinkedAt(cs[i].core, es[i].t, late);
    }
  }

  /**
    Retry counters are conserved if and only if no thread that has been told to throw on removal enters the
    wait loop while it still holds retries: what has been reported plus what the task table and the live
    threads hold is then the number of retry exceptions thrown. Without retries injected too late, no such
    thread holds any.
  */
  lemma {:induction false} RetriesAreConserved(cs: seq<Config>, es: seq<Event>, n: nat, task: int)
    requires IsRun(cs, es) && n < |cs| && AllCountable(es)
    ensures TotalReported(cs, es, n, task) + Unreported(cs[n].core, task) == TotalThrown(cs, es, n, task) <==>
            forall i | 0 <= i < n :: !TakesRetriesAway(cs[i], es[i], task)
    ensures (forall i | 0 <= i < n :: !IsLate(cs[i], es[i])) ==>
            TotalReported(cs, es, n, task) + Unreported(cs[n].core, task) == TotalThrown(cs, es, n, task)
  {
    hide Lost, Countable, IsLate, Reported, Thrown, TakesRetriesAway;
    RetriesAreAccountedFor(cs, es, n, task, LateThreads(cs, es, n));
    LostNothing(cs, es, n, task);
    forall i | 0 <= i < n ensures Lost(cs[i], es[i], task) == 0 <==> !TakesRetriesAway(cs[i], es[i], task) {
      LostAsGuarded(cs[i], es[i], task);
    }
    if forall i | 0 <= i < n :: !IsLate(cs[i], es[i]) {
      forall i | 0 <= i < n ensures !TakesRetriesAway(cs[i], es[i], task) {
        LossesWereInjectedLate(cs, es, i, task);
        LostAsGuarded(cs[i], es[i], task);
      }
    }
  }

  lemma LostAsGuarded(c: Config, e: Event, task: int)
    ensures Lost(c, e, task) != 0 <==> TakesRetriesAway(c, e, task)
  {
  }

  lemma {:induction false} LostNothing(cs: seq<Config>, es: seq<Event>, n: nat, task: int)
    requires IsRun(cs, es) && n < |cs| && AllCountable(es)
    ensures TotalLost(cs, es, n, task) >= 0
    ensures TotalLost(cs, es, n, task) == 0 <==> forall i | 0 <= i < n :: Lost(cs[i], es[i], task) == 0
  {
    hide Lost, Countable, IsLate;
    if n > 0 {
      LostNothing(cs, es, n - 1, task);
      LossesWereInjectedLate(cs, es, n - 1, task);
    }
  }

  // ----- pool threads -----

  /**
    Why pool threads are left out: a finished task is taken from a pool thread's set before the thread's
    counters are moved, so the task is never credited with them. If it was the last one, they go to no
    task at all; otherwise they wait for the tasks that remain. Taking the association away first would
    have credited the task.
  */
  lemma PoolCountsAreDropped(s: Core, t: int, task: int)
    requires t in s.threads && s.threads[t].taskId < 0 && task in s.threads[t].poolTasks && task >= 0
    ensures
      var th, s' := s.threads[t], LeaveTask(s, t, task).0;
      && s'.taskMetrics == s.taskMetrics
      && (t in s'.threads ==> s'.threads[t].metrics == if th.poolTasks == {task} then NO_METRICS else th.metrics)
      && (t !in s'.threads ==> th.poolTasks == {task})
    ensures
      var credited := Remove(s, t, task).0.taskMetrics;
      task in credited && credited[task] == AddMetrics(MetricsOf(s.taskMetrics, task), s.threads[t].metrics)
  {
    hide LeaveTask, Checkpoint, Expel, Credit;
    var th := s.threads[t];
    LeavesOnItsOwn(s, t, task);
    NoCredit(s.taskMetrics, LeavingOf(th, task).metrics);
    if th.poolTasks == {task} {
      LastTaskLeaving(th, task);
    } else {
      OtherTaskLeaving(th, task);
    }
    CheckpointAt(s, t);
    var s1 := Checkpoint(s, t);
    ExpelKeepsMetrics(Put(s1, t, s1.threads[t].(poolTasks := th.poolTasks - {task})), t, task);
  }

  lemma NoCredit(m: map<int, Metrics>, more: Metrics)
    ensures Credit(m, {}, more) == m
  {
  }

  /** The second half of `task_done` credits nothing, whichever threads it visits. */
  lemma {:induction false} LeavingCreditsNothing(s: Core, ids: set<int>, task: int)
    requires PoolsOnly(s.threads)
    ensures LeaveAll(s, ids, task).0.taskMetrics == s.taskMetrics
    decreases ids
  {
    hide LeaveTask;
    if ids != {} {
      var t := MinOf(ids);
      OneLeavingCreditsNothing(s, t, task);
      LeaveLeaves(s, t, task);
      LeavingCreditsNothing(LeaveTask(s, t, task).0, ids - {t}, task);
    }
  }

  lemma OneLeavingCreditsNothing(s: Core, t: int, task: int)
    requires PoolsOnly(s.threads)
    ensures LeaveTask(s, t, task).0.taskMetrics == s.taskMetrics
  {
    hide LeaveTask, Credit;
    if t !in s.threads {
      AbsentLeaves(s, t, task);
    } else {
      LeavesOnItsOwn(s, t, task);
      NoCredit(s.taskMetrics, LeavingOf(s.threads[t], task).metrics);
    }
  }

  lemma CheckpointAt(s: Core, t: int)
    requires t in s.threads && s.threads[t].taskId < 0
    ensures
      var th := s.threads[t];
      && t in Checkpoint(s, t).threads && Checkpoint(s, t).threads[t] == th.(metrics := NO_METRICS)
      && Checkpoint(s, t).taskMetrics == s.taskMetrics + Increased(s.taskMetrics, th.poolTasks, th.metrics)
  {
  }

  lemma ExpelKeepsMetrics(s: Core, t: int, task: int)
    requires t in s.threads
    ensures Expel(s, t, task).0.taskMetrics == s.taskMetrics
    ensures t in Expel(s, t, task).0.threads ==> Expel(s, t, task).0.threads[t].metrics == s.threads[t].metrics
  {
  }
}
