/** `spark_resource_adaptor` as an object: its methods update the tables in place, as the steps say. */
module Adaptor {
  import opened Collections
  import opened TaskPriority
  import opened Threads
  import opened Deadlock
  import opened Scheduler
  import opened Runs
  import opened Safety
  import opened TaskDoneOrder
  import opened RetryCounters

  /** The best of the threads seen so far, with its rank, under a table that may still grow. */
  ghost predicate BestSoFar(t: Table, threads: ThreadMap, seen: set<int>, k: Scan, lowest: bool,
                            best: Option<int>, rank: Rank)
    requires seen <= threads.Keys
  {
    && (forall i | i in seen && Selected(k, threads[i]) :: Known(t, PriorityTask(threads[i])))
    && match best
       case None => forall i | i in seen :: !Selected(k, threads[i])
       case Some(b) =>
         && b in seen && Selected(k, threads[b]) && rank == RankOf(t, b, threads[b])
         && forall i | i in seen && i != b && Selected(k, threads[i]) :: Ahead(t, threads, b, i, lowest)
  }

  lemma NothingSeen(t: Table, threads: ThreadMap, k: Scan, lowest: bool, rank: Rank)
    ensures BestSoFar(t, threads, {}, k, lowest, None, rank)
    ensures Chosen(threads, {}, k) == {}
  {
  }

  lemma BestSoFarGrows(t: Table, u: Table, threads: ThreadMap, seen: set<int>, k: Scan, lowest: bool,
                       best: Option<int>, rank: Rank)
    requires seen <= threads.Keys && Extends(t, u) && BestSoFar(t, threads, seen, k, lowest, best, rank)
    ensures BestSoFar(u, threads, seen, k, lowest, best, rank)
  {
  }

  predicate Better(current: Rank, rank: Rank, lowest: bool)
  {
    if lowest then Below(current, rank) else Below(rank, current)
  }

  lemma BestWithOneMore(t: Table, threads: ThreadMap, seen: set<int>, k: Scan, lowest: bool,
                        best: Option<int>, rank: Rank, id: int)
    requires seen <= threads.Keys && id in threads && id !in seen
    requires BestSoFar(t, threads, seen, k, lowest, best, rank)
    requires Selected(k, threads[id]) ==> Known(t, PriorityTask(threads[id]))
    ensures !Selected(k, threads[id]) ==> BestSoFar(t, threads, seen + {id}, k, lowest, best, rank)
    ensures Selected(k, threads[id]) ==>
      var current := RankOf(t, id, threads[id]);
      if best.None? || Better(current, rank, lowest)
      then BestSoFar(t, threads, seen + {id}, k, lowest, Some(id), current)
      else BestSoFar(t, threads, seen + {id}, k, lowest, best, rank)
  {
  }

  lemma BestOfAll(t: Table, threads: ThreadMap, k: Scan, lowest: bool, best: Option<int>, rank: Rank)
    requires BestSoFar(t, threads, threads.Keys, k, lowest, best, rank)
    ensures Ranked(t, threads, k) && best == Best(t, threads, k, lowest)
  {
  }

  /** The selected threads among `seen`. */
  ghost function Chosen(threads: ThreadMap, seen: set<int>, k: Scan): set<int>
    requires seen <= threads.Keys
  {
    set i | i in seen && Selected(k, threads[i])
  }

  lemma ChosenOneMore(threads: ThreadMap, seen: set<int>, k: Scan, id: int)
    requires seen <= threads.Keys && id in threads && id !in seen
    ensures |Chosen(threads, seen + {id}, k)| ==
      |Chosen(threads, seen, k)| + if Selected(k, threads[id]) then 1 else 0
  {
    var more := if Selected(k, threads[id]) then {id} else {};
    assert Chosen(threads, seen + {id}, k) == Chosen(threads, seen, k) + more;
  }

  /** A wake-up loop that has visited `done`: those in one of the states run and have been signalled. */
  ghost predicate Woken(s: Core, threads: ThreadMap, notified: set<int>, from: set<ThreadState>, done: set<int>)
  {
    && threads == SetRunning(s.threads, InStates(s.threads, from) * done)
    && notified == s.notified + (InStates(s.threads, from) * done * s.waiting)
  }

  lemma WakeOneMore(s: Core, threads: ThreadMap, notified: set<int>, from: set<ThreadState>, done: set<int>, id: int)
    requires Woken(s, threads, notified, from, done) && id in s.threads && id !in done
    ensures id in threads && threads[id] == s.threads[id]
    ensures s.threads[id].state in from ==>
      Woken(s, threads[id := threads[id].(state := Running)], notified + ({id} * s.waiting), from, done + {id})
    ensures s.threads[id].state !in from ==> Woken(s, threads, notified, from, done + {id})
  {
  }

  lemma NoneWoken(s: Core, from: set<ThreadState>, done: set<int>)
    requires forall i | i in done && i in s.threads :: s.threads[i].state !in from
    ensures Woken(s, s.threads, s.notified, from, done)
  {
    var woken := InStates(s.threads, from) * done;
    forall i ensures i !in woken {
      assert i in woken ==> i in done && i in InStates(s.threads, from);
    }
    NoMemberIsEmpty(woken);
    SameMaps(SetRunning(s.threads, {}), s.threads);
  }

  lemma AllWoken(s: Core, threads: ThreadMap, notified: set<int>)
    requires Woken(s, threads, notified, WakeStates(s.threads), s.threads.Keys)
    ensures WakeAfterFinish(s) == s.(threads := threads, notified := notified)
  {
  }

  lemma WokenIsUnique(s: Core, a: ThreadMap, na: set<int>, b: ThreadMap, nb: set<int>, from: set<ThreadState>,
                      done: set<int>)
    requires Woken(s, a, na, from, done) && Woken(s, b, nb, from, done)
    ensures a == b && na == nb
  {
  }

  lemma IncreaseOneMore(m: map<int, Metrics>, tasks: set<int>, more: Metrics, task: int)
    requires task !in tasks
    ensures
      var part := m + Increased(m, tasks, more);
      m + Increased(m, tasks + {task}, more) == part[task := AddMetrics(MetricsOf(part, task), more)]
  {
  }

  lemma NothingReset(threads: ThreadMap)
    ensures ZeroRetries(threads, {}) == threads
  {
  }

  lemma ResetOneMore(threads: ThreadMap, done: set<int>, id: int)
    requires id !in done
    ensures ZeroRetries(threads, done).Keys == threads.Keys
    ensures id in threads ==> ZeroRetries(threads, done)[id] == threads[id]
    ensures id in threads ==> RetriesIn(threads)(id) == threads[id].metrics.retryThrows
    ensures ZeroRetries(threads, done + {id}) ==
      if id in threads
      then ZeroRetries(threads, done)[id := threads[id].(metrics := threads[id].metrics.(retryThrows := 0))]
      else ZeroRetries(threads, done)
  {
  }

  lemma CheckpointKeeps(s: Core, t: int, isForShuffle: bool)
    ensures
      var s1 := if t in s.threads then s else Put(s, t, FreshThread(-1, isForShuffle));
      t in Checkpoint(s1, t).threads
  {
  }

  class ResourceAdaptor {
    var threads: ThreadMap
    var taskThreads: map<int, set<int>>
    var taskMetrics: map<int, Metrics>
    /** Which owners sleep on their condition variable, and which of those have been signalled. */
    var waiting: set<int>
    var notified: set<int>
    const prio: PriorityTable

    ghost function Value(): Core
      reads this, prio
    {
      Core(threads, taskThreads, taskMetrics, prio.Value(), waiting, notified)
    }

    constructor (prio: PriorityTable)
      ensures Value() == INITIAL_CORE.(prio := prio.Value()) && this.prio == prio
    {
      threads, taskThreads, taskMetrics := map[], map[], map[];
      waiting, notified := {}, {};
      this.prio := prio;
    }

    method NotifyAll(t: int)
      modifies this`notified
      ensures Value() == Notify(old(Value()), t)
    {
      notified := notified + ({t} * waiting);
    }

    method Transition(t: int, to: ThreadState)
      requires t in threads
      modifies this`threads
      ensures Value() == Move(old(Value()), t, to)
    {
      threads := threads[t := threads[t].(state := to)];
    }

    /** A scan with a running best and a count of the threads it looked at. */
    method ScanThreads(k: Scan, lowest: bool) returns (best: Option<int>, count: nat)
      modifies prio
      ensures prio.Value() == FullScan(old(prio.Value()), threads, k)
      ensures Ranked(prio.Value(), threads, k) && best == Best(prio.Value(), threads, k, lowest)
      ensures count == |Chosen(threads, threads.Keys, k)|
    {
      hide BestSoFar, Best, Chosen, Fill, Selected, Extends;
      var ths := threads;
      best, count := None, 0;
      var rank := Rank(0, 0);
      var rest := ths.Keys;
      assert ths.Keys - rest == {};
      NothingSeen(prio.Value(), ths, k, lowest, rank);
      while rest != {}
        invariant rest <= ths.Keys
        invariant ScanFill(prio.Value(), ths, rest, k) == FullScan(old(prio.Value()), ths, k)
        invariant BestSoFar(prio.Value(), ths, ths.Keys - rest, k, lowest, best, rank)
        invariant count == |Chosen(ths, ths.Keys - rest, k)|
      {
        var id := MinOf(rest);
        ghost var seen := ths.Keys - rest;
        ChosenOneMore(ths, seen, k, id);
        if Selected(k, ths[id]) {
          ghost var before := prio.Value();
          var p := prio.GetTaskPriority(PriorityTask(ths[id]));
          BestSoFarGrows(before, prio.Value(), ths, seen, k, lowest, best, rank);
          BestWithOneMore(prio.Value(), ths, seen, k, lowest, best, rank, id);
          var current := Rank(p, id);
          count := count + 1;
          if best.None? || Better(current, rank, lowest) {
            best, rank := Some(id), current;
          }
        } else {
          BestWithOneMore(prio.Value(), ths, seen, k, lowest, best, rank, id);
        }
        rest := rest - {id};
        assert ths.Keys - rest == seen + {id};
      }
      assert ths.Keys - rest == ths.Keys;
      BestOfAll(prio.Value(), ths, k, lowest, best, rank);
    }

    method WakeNextHighestPriorityBlocked(cpu: bool)
      modifies this`threads, this`notified, prio
      ensures Value() == WakeNext(old(Value()), cpu)
    {
      var toWake, _ := ScanThreads(BlockedFor(cpu), false);
      if toWake.Some? {
        Transition(toWake.value, Running);
        NotifyAll(toWake.value);
      }
    }

    method CheckAndUpdateForBufn(java: JavaBlocked)
      modifies this`threads, this`notified, prio
      ensures Value() == CheckAndUpdate(old(Value()), java)
    {
      hide Deadlocked, AllBufn, Counts, Gathered, FullScan, Best, SplitOne, Ranked;
      ghost var s := Value();
      var deadlock, bufnCounts, counts, bufn, all := IsInDeadlock(threads, java);
      if deadlock {
        ghost var before := threads;
        var toBufn, blockedCount := ScanThreads(AnyBlocked, true);
        assert Chosen(threads, threads.Keys, AnyBlocked) == BlockedIds(threads);
        if toBufn.Some? {
          var t := toBufn.value;
          if blockedCount == 1 {
            threads := threads[t := threads[t].(retryBeforeBufn := true)];
            Transition(t, Running);
          } else {
            Transition(t, BufnThrow);
          }
          NotifyAll(t);
        }
        assert Value() == RollBackOne(s);
        var allBufn := IsAllBufn(before, java, bufnCounts, counts, bufn, all);
        if allBufn {
          SplitHighestBufn();
        }
      }
    }

    method SplitHighestBufn()
      modifies this`threads, this`notified, prio
      ensures Value() == SplitOne(old(Value()))
    {
      var toWake, _ := ScanThreads(AnyBufn, false);
      var t := if toWake.Some? then toWake.value else -1;
      if t in threads {
        Transition(t, SplitThrow);
        NotifyAll(t);
      }
    }

    // ----- waiting -----

    /** Roll back: the exception is counted before the watchdog may replace it. */
    method ThrowRetryOom(t: int) returns (out: Outcome)
      requires t in threads
      modifies this`threads
      ensures (Value(), out) == ThrowRetry(old(Value()), t, BufnWait)
    {
      var th := threads[t];
      Transition(t, BufnWait);
      threads := threads[t := CountRetry(threads[t])];
      if th.timesRetried + 1 > RETRY_LIMIT {
        assert threads == old(threads)[t := threads[t]];
        return Threw(RetryLimit(false));
      }
      threads := threads[t := threads[t].(timesRetried := th.timesRetried + 1)];
      assert threads == old(threads)[t := threads[t]];
      return Threw(RetryOom(th.isCpuAlloc));
    }

    method ThrowSplitAndRetryOom(t: int) returns (out: Outcome)
      requires t in threads
      modifies this`threads
      ensures (Value(), out) == ThrowSplit(old(Value()), t, Running)
    {
      var th := threads[t];
      Transition(t, Running);
      threads := threads[t := CountSplit(threads[t])];
      if th.timesRetried + 1 > RETRY_LIMIT {
        assert threads == old(threads)[t := threads[t]];
        return Threw(RetryLimit(true));
      }
      threads := threads[t := threads[t].(timesRetried := th.timesRetried + 1)];
      assert threads == old(threads)[t := threads[t]];
      return Threw(SplitAndRetryOom(th.isCpuAlloc));
    }

    method GoToSleep(t: int) returns (out: Outcome)
      modifies this`waiting, this`notified
      ensures Value() == Sleep(old(Value()), t) && out == Asleep
    {
      waiting, notified := waiting + {t}, notified - {t};
      return Asleep;
    }

    /** The wait loop: runs until its owner must sleep, throws, or may go on. */
    method BlockThreadUntilReady(t: int) returns (out: Outcome)
      modifies this, prio
      ensures (Value(), out) == BlockUntilReady(old(Value()), t)
    {
      hide CheckAndUpdate, ThrowRetry, ThrowSplit, Sleep;
      ghost var start := Value();
      var firstTurn := true;
      while true
        invariant firstTurn ==> Value() == start
        invariant !firstTurn ==>
          && t in threads && threads[t].state != BufnWait
          && BlockUntilReady(start, t) == Settle(Value(), t)
        decreases firstTurn
      {
        if t !in threads {
          return Finished(false);
        }
        match threads[t].state
        case Blocked =>
          out := GoToSleep(t);
          return;
        case Bufn =>
          out := GoToSleep(t);
          return;
        case BufnThrow =>
          out := ThrowRetryOom(t);
          return;
        case BufnWait =>
          Transition(t, Bufn);
          ghost var moved := Value();
          CheckAndUpdateForBufn(None);
          RoundOnBufn(moved, None, t);
          if IsBlocked(threads[t].state) {
            out := GoToSleep(t);
            return;
          }
          firstTurn := false;
        case SplitThrow =>
          out := ThrowSplitAndRetryOom(t);
          return;
        case RemoveThrow =>
          threads := threads - {t};
          return Threw(ThreadRemoved);
        case _ =>
          return Finished(false);
      }
    }

    /** The owner holds the lock again: still blocked means back to sleep. */
    method WaitReturned(t: int) returns (out: Outcome)
      modifies this, prio
      ensures (Value(), out) == WakeUp(old(Value()), t)
    {
      hide BlockUntilReady;
      notified := notified - {t};
      if t in threads && IsBlocked(threads[t].state) {
        return Asleep;
      }
      waiting := waiting - {t};
      out := BlockThreadUntilReady(t);
    }

    // ----- allocation brackets -----

    /** The part of `pre_alloc_core` after any waiting. */
    method EnterAlloc(t: int, cpu: bool) returns (out: Outcome)
      modifies this`threads
      ensures (Value(), out) == EnterBracket(old(Value()), t, cpu)
    {
      if t !in threads {
        return Finished(false);
      }
      if threads[t].state != Running {
        return Threw(UnexpectedPreAlloc);
      }
      threads := threads[t := threads[t].(state := Alloc, isCpuAlloc := cpu)];
      return Finished(false);
    }

    method PreAllocCore(t: int, cpu: bool, blocking: bool, inject: Inject) returns (out: Outcome)
      modifies this, prio
      ensures (Value(), out) == PreAlloc(old(Value()), t, cpu, blocking, inject)
    {
      hide BlockUntilReady, EnterBracket;
      if t !in threads {
        return Finished(false);
      }
      if threads[t].state == Alloc || threads[t].state == AllocFree {
        return if cpu && blocking then Threw(NestedBlockingCpuAlloc) else Finished(true);
      }
      match inject
      case ForceRetry =>
        threads := threads[t := CountRetry(threads[t])];
        return Threw(InjectedRetry);
      case ForceCudf =>
        return Threw(InjectedCudf);
      case ForceSplit =>
        threads := threads[t := CountSplit(threads[t])];
        return Threw(InjectedSplit);
      case NoInject =>
        if blocking {
          out := BlockThreadUntilReady(t);
          if !out.Finished? {
            return;
          }
        }
        out := EnterAlloc(t, cpu);
    }

    method PostAllocSuccessCore(t: int, cpu: bool, recursive: bool) returns (out: Outcome)
      modifies this`threads, this`notified, prio
      ensures (Value(), out) == PostSuccess(old(Value()), t, cpu, recursive)
    {
      hide WakeNext;
      if recursive || t !in threads {
        return Finished(true);
      }
      threads := threads[t := threads[t].(retryBeforeBufn := false)];
      if InAlloc(threads[t].state) {
        if threads[t].isCpuAlloc != cpu {
          return Threw(KindMismatch);
        }
        threads := threads[t := threads[t].(state := Running, isCpuAlloc := false)];
      }
      assert threads == old(threads)[t := threads[t]];
      WakeNextHighestPriorityBlocked(cpu);
      return Finished(true);
    }

    /** Leave ALLOC or ALLOC_FREE after a failed attempt. */
    method RecordFailure(t: int, oom: bool, blocking: bool)
      requires t in threads && InAlloc(threads[t].state)
      modifies this`threads, this`notified
      ensures
        var s1 := Put(old(Value()), t, AfterFailure(old(threads[t]), oom, blocking));
        Value() == if s1.threads[t].state == BufnThrow then Notify(s1, t) else s1
    {
      if threads[t].state == AllocFree {
        Transition(t, Running);
      } else if oom && threads[t].retryBeforeBufn {
        threads := threads[t := threads[t].(retryBeforeBufn := false)];
        Transition(t, BufnThrow);
        NotifyAll(t);
      } else if oom && blocking {
        threads := threads[t := threads[t].(retryBeforeBufn := false)];
        Transition(t, Blocked);
      } else {
        Transition(t, Running);
      }
      assert threads == old(threads)[t := threads[t]];
    }

    method PostAllocFailedCore(t: int, cpu: bool, oom: bool, blocking: bool, recursive: bool) returns (out: Outcome)
      modifies this`threads, this`notified, prio
      ensures (Value(), out) == PostFailed(old(Value()), t, cpu, oom, blocking, recursive)
    {
      hide CheckAndUpdate, AfterFailure;
      var retry := true;
      if recursive || t !in threads {
        retry := false;
      } else if threads[t].isCpuAlloc != cpu {
        return Threw(KindMismatch);
      } else if threads[t].state != Alloc && threads[t].state != AllocFree {
        return Threw(UnexpectedPostAlloc);
      } else {
        RecordFailure(t, oom, blocking);
      }
      CheckAndUpdateForBufn(None);
      return Finished(retry);
    }

    method DeallocCore(t: int, cpu: bool)
      modifies this`threads, this`notified, prio
      ensures Value() == Dealloc(old(Value()), t, cpu)
    {
      hide WakeNext;
      ghost var before := threads;
      var rest := threads.Keys;
      while rest != {}
        invariant rest <= threads.Keys == before.Keys
        invariant prio.Value() == old(prio.Value()) && notified == old(notified)
        invariant forall i | i in before ::
          threads[i] == if i in rest then before[i] else MarkFreed(before, t, cpu)[i]
      {
        var id := MinOf(rest);
        if id != t && threads[id].state == Alloc && threads[id].isCpuAlloc == cpu {
          Transition(id, AllocFree);
        }
        rest := rest - {id};
      }
      assert threads == MarkFreed(before, t, cpu);
      WakeNextHighestPriorityBlocked(cpu);
    }

    // ----- metrics -----

    method CheckpointMetrics(t: int)
      requires t in threads
      modifies this`threads, this`taskMetrics
      ensures Value() == Checkpoint(old(Value()), t) && t in threads
    {
      var th := threads[t];
      var tasks := if th.taskId < 0 then th.poolTasks else {th.taskId};
      ghost var before := taskMetrics;
      var rest := tasks;
      while rest != {}
        invariant rest <= tasks
        invariant threads == old(threads)
        invariant taskMetrics == before + Increased(before, tasks - rest, th.metrics)
      {
        var task := MinOf(rest);
        IncreaseOneMore(before, tasks - rest, th.metrics, task);
        taskMetrics := taskMetrics[task := AddMetrics(MetricsOf(taskMetrics, task), th.metrics)];
        assert tasks - rest + {task} == tasks - (rest - {task});
        rest := rest - {task};
      }
      assert tasks - rest == tasks;
      threads := threads[t := th.(metrics := NO_METRICS)];
    }

    method ResetThread(id: int)
      requires id in threads
      modifies this`threads
      ensures threads == old(threads)[id := old(threads)[id].(metrics := old(threads)[id].metrics.(retryThrows := 0))]
    {
      threads := threads[id := threads[id].(metrics := threads[id].metrics.(retryThrows := 0))];
    }

    /** Reports a task's retries, from its threads and from the table, and resets them. */
    method GetAndResetNumRetry(task: int) returns (r: int)
      modifies this`threads, this`taskMetrics
      ensures Value() == ResetRetries(old(Value()), task)
      ensures r == Answer(old(Value()), task)
    {
      hide ZeroRetries, RetriesIn;
      r := 0;
      ghost var before := threads;
      var linked := if task in taskThreads then taskThreads[task] else {};
      var rest := linked;
      NothingReset(before);
      assert linked - rest == {};
      while rest != {}
        invariant rest <= linked
        invariant taskMetrics == old(taskMetrics)
        invariant threads == ZeroRetries(before, linked - rest)
        invariant r + SumOver(rest * before.Keys, RetriesIn(before)) == SumOver(linked * before.Keys, RetriesIn(before))
      {
        var id := MinOf(rest);
        ResetOneMore(before, linked - rest, id);
        assert (rest - {id}) * before.Keys == rest * before.Keys - {id};
        assert linked - rest + {id} == linked - (rest - {id});
        if id in threads {
          SumRemove(rest * before.Keys, RetriesIn(before), id);
          r := r + threads[id].metrics.retryThrows;
          ResetThread(id);
        } else {
          assert rest * before.Keys - {id} == rest * before.Keys;
        }
        rest := rest - {id};
      }
      assert rest * before.Keys == {} && linked - rest == linked;
      if task in taskMetrics {
        r := r + taskMetrics[task].retryThrows;
        taskMetrics := taskMetrics[task := taskMetrics[task].(retryThrows := 0)];
      }
    }

    // ----- registration and removal -----

    method WakeUpThreadsAfterTaskFinishes()
      modifies this`threads, this`notified
      ensures Value() == WakeAfterFinish(old(Value()))
    {
      hide Woken, WakeAfterFinish;
      ghost var s := Value();
      var ids := threads.Keys;
      var anyBlocked := false;
      var rest := ids;
      NoneWoken(s, {Blocked}, ids - rest);
      while rest != {}
        invariant rest <= ids && ids == s.threads.Keys && waiting == s.waiting
        invariant anyBlocked <==> exists i | i in ids - rest :: s.threads[i].state == Blocked
        invariant Woken(s, threads, notified, {Blocked}, ids - rest)
      {
        var id := MinOf(rest);
        WakeOneMore(s, threads, notified, {Blocked}, ids - rest, id);
        assert ids - rest + {id} == ids - (rest - {id});
        if threads[id].state == Blocked {
          Transition(id, Running);
          NotifyAll(id);
          anyBlocked := true;
        }
        rest := rest - {id};
      }
      assert ids - rest == ids;
      if !anyBlocked {
        NoneWoken(s, {Blocked}, ids);
        WokenIsUnique(s, threads, notified, s.threads, s.notified, {Blocked}, ids);
        rest := ids;
        NoneWoken(s, {Bufn, BufnThrow, BufnWait}, ids - rest);
        while rest != {}
          invariant rest <= ids && ids == s.threads.Keys && waiting == s.waiting
          invariant Woken(s, threads, notified, {Bufn, BufnThrow, BufnWait}, ids - rest)
        {
          var id := MinOf(rest);
          WakeOneMore(s, threads, notified, {Bufn, BufnThrow, BufnWait}, ids - rest, id);
          assert ids - rest + {id} == ids - (rest - {id});
          if threads[id].state == Bufn || threads[id].state == BufnThrow || threads[id].state == BufnWait {
            Transition(id, Running);
            NotifyAll(id);
          }
          rest := rest - {id};
        }
        assert ids - rest == ids;
      }
      AllWoken(s, threads, notified);
    }

    /** Ends a thread's work for a task; true if that erased a RUNNING thread. */
    method RemoveThreadAssociation(t: int, task: int) returns (ran: bool)
      modifies this`threads, this`taskThreads, this`taskMetrics, this`notified
      ensures (Value(), ran) == Remove(old(Value()), t, task)
    {
      hide Checkpoint;
      ran := false;
      if t !in threads {
        return;
      }
      CheckpointMetrics(t);
      var gone := false;
      if task < 0 {
        gone := true;
      } else if threads[t].taskId >= 0 {
        gone := threads[t].taskId == task;
      } else {
        threads := threads[t := threads[t].(poolTasks := threads[t].poolTasks - {task})];
        gone := threads[t].poolTasks == {};
      }
      if gone {
        if task >= 0 && task in taskThreads {
          taskThreads := taskThreads[task := taskThreads[task] - {t}];
        }
        if threads[t].state == Blocked || threads[t].state == Bufn {
          Transition(t, RemoveThrow);
          NotifyAll(t);
        } else {
          ran := threads[t].state == Running;
          threads := threads - {t};
        }
      }
    }

    method RemoveAssociationAndWake(t: int, task: int)
      modifies this`threads, this`taskThreads, this`taskMetrics, this`notified
      ensures Value() == RemoveAssociation(old(Value()), t, task)
    {
      hide Remove, WakeAfterFinish;
      var ran := RemoveThreadAssociation(t, task);
      if ran {
        WakeUpThreadsAfterTaskFinishes();
      }
    }

    method StartDedicatedTaskThread(t: int, task: int) returns (out: Outcome)
      modifies this`threads, this`taskThreads, this`taskMetrics, this`notified
      ensures (Value(), out) == StartDedicated(old(Value()), t, task)
    {
      hide Remove;
      if t in threads && threads[t].taskId >= 0 && threads[t].taskId != task {
        var _ := RemoveThreadAssociation(t, threads[t].taskId);
      }
      if t !in threads {
        threads := threads[t := FreshThread(task, false)];
      } else if threads[t].state == RemoveThrow {
        return Threw(ShuttingDownThread);
      } else if threads[t].taskId != task {
        return Threw(DedicatedElsewhere);
      }
      taskThreads := taskThreads[task := (if task in taskThreads then taskThreads[task] else {}) + {t}];
      return Finished(true);
    }

    method PoolThreadWorkingOnTasks(isForShuffle: bool, t: int, tasks: set<int>) returns (out: Outcome)
      modifies this`threads, this`taskMetrics
      ensures (Value(), out) == PoolWorking(old(Value()), isForShuffle, t, tasks)
    {
      hide Checkpoint;
      if t !in threads {
        threads := threads[t := FreshThread(-1, isForShuffle)];
      } else if threads[t].taskId != -1 {
        return Threw(DedicatedElsewhere);
      } else if threads[t].state == RemoveThrow {
        return Threw(ShuttingDownThread);
      } else if threads[t].isForShuffle != isForShuffle {
        return Threw(ShuffleMismatch);
      }
      CheckpointMetrics(t);
      CheckpointKeeps(old(Value()), t, isForShuffle);
      threads := threads[t := threads[t].(poolTasks := threads[t].poolTasks + tasks)];
      return Finished(true);
    }

    method PoolThreadFinishedForTasks(t: int, tasks: set<int>)
      modifies this`threads, this`taskThreads, this`taskMetrics, this`notified
      ensures Value() == PoolFinished(old(Value()), t, tasks)
    {
      hide RemoveAssociation;
      if t in threads {
        CheckpointMetrics(t);
        threads := threads[t := threads[t].(poolTasks := threads[t].poolTasks - tasks)];
        if threads[t].poolTasks == {} {
          RemoveAssociationAndWake(t, -1);
        }
      }
    }

    method TaskDoneForAll(task: int)
      modifies this`threads, this`taskThreads, this`taskMetrics, this`notified
      ensures Value() == TaskDone(old(Value()), task)
    {
      hide Remove, LeaveTask, WakeAfterFinish;
      var runChecks := false;
      ghost var s0 := Value();
      var rest := if task in taskThreads then taskThreads[task] else {};
      ghost var r1 := RemoveAll(s0, rest, task);
      while rest != {}
        invariant r1 == (RemoveAll(Value(), rest, task).0, runChecks || RemoveAll(Value(), rest, task).1)
        invariant prio.Value() == s0.prio && waiting == s0.waiting
      {
        var t := MinOf(rest);
        var ran := RemoveThreadAssociation(t, task);
        runChecks := ran || runChecks;
        rest := rest - {t};
      }
      ghost var s1 := Value();
      ghost var checks := runChecks;
      rest := threads.Keys;
      ghost var r2 := LeaveAll(s1, rest, task);
      while rest != {}
        invariant (r2.0, checks || r2.1) ==
          (LeaveAll(Value(), rest, task).0, runChecks || LeaveAll(Value(), rest, task).1)
        invariant prio.Value() == s0.prio && waiting == s0.waiting
      {
        var some := Member(rest);
        var t :| t in rest;
        AnyoneMayGoFirst(Value(), rest, task, t);
        var ran := LeaveFinishedTask(t, task);
        runChecks := ran || runChecks;
        rest := rest - {t};
      }
      if runChecks {
        WakeUpThreadsAfterTaskFinishes();
      }
      taskThreads := taskThreads - {task};
    }

    method LeaveFinishedTask(t: int, task: int) returns (ran: bool)
      modifies this`threads, this`taskThreads, this`taskMetrics, this`notified
      ensures (Value(), ran) == LeaveTask(old(Value()), t, task)
    {
      hide Remove;
      ran := false;
      if t in threads && task in threads[t].poolTasks {
        threads := threads[t := threads[t].(poolTasks := threads[t].poolTasks - {task})];
        if threads[t].poolTasks == {} {
          ran := RemoveThreadAssociation(t, task);
        }
      }
    }

    method WaitingOnPoolStatusChanged(t: int, blocked: bool) returns (out: Outcome)
      modifies this`threads
      ensures (Value(), out) == SetPoolBlocked(old(Value()), t, blocked)
    {
      if t !in threads || threads[t].taskId < 0 {
        return Threw(NotDedicated);
      }
      threads := threads[t := threads[t].(poolBlocked := blocked)];
      return Finished(true);
    }
  }
}
