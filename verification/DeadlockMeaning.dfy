/**
  What a deadlock and a BUFN task are, told from the fields of the threads and the ids that the JVM reports
  blocked, and what such a report leads to.
*/
module DeadlockMeaning {
  import opened Collections
  import opened Threads
  import opened Deadlock
  import opened Scheduler
  import opened DeadlockBreaking
  import opened Runs
  import opened Safety

  predicate Reported(java: JavaBlocked, id: int)
  {
    match java
    case None => false
    case Some(ids) => id in ids
  }

  /** The thread waits for a pool, for memory, or for something only the JVM knows of. */
  predicate Held(id: int, th: Thread, java: JavaBlocked)
  {
    th.poolBlocked || th.state == Blocked || th.state == Bufn || Reported(java, id)
  }

  /** The same for good: being BLOCKED does not count, not even for a thread that the JVM reports. */
  predicate HeldForGood(id: int, th: Thread, java: JavaBlocked)
  {
    th.poolBlocked || th.state == Bufn || (Reported(java, id) && th.state != Blocked)
  }

  /** Some thread dedicated to the task is held, and so is every pool thread that works for it. */
  ghost predicate TaskHeld(threads: ThreadMap, java: JavaBlocked, task: int)
  {
    && (exists i :: i in threads && threads[i].taskId == task && Held(i, threads[i], java))
    && (forall i | i in threads && threads[i].taskId < 0 && task in threads[i].poolTasks ::
          Held(i, threads[i], java))
  }

  /** There is a deadlock if and only if there are dedicated threads and all their tasks are held. */
  lemma DeadlockedExactlyWhen(threads: ThreadMap, java: JavaBlocked)
    ensures Deadlocked(threads, java) <==>
      && (exists i :: i in threads && threads[i].taskId >= 0)
      && (forall d | d in threads && threads[d].taskId >= 0 :: TaskHeld(threads, java, threads[d].taskId))
  {
    forall task | task >= 0
      ensures TaskHeld(threads, java, task) <==>
        HasStuckDedicated(threads, java, task) && !HasFreePoolThread(threads, java, task)
    {
      HeldExactlyWhen(threads, java, task);
    }
    if exists i :: i in threads && threads[i].taskId >= 0 {
      var i :| i in threads && threads[i].taskId >= 0;
      assert IsDedicated(threads[i]);
    }
    if Deadlocked(threads, java) {
      forall d | d in threads && threads[d].taskId >= 0 ensures TaskHeld(threads, java, threads[d].taskId) {
        assert threads[d].taskId in AllTasks(threads);
      }
    }
  }

  lemma HeldExactlyWhen(threads: ThreadMap, java: JavaBlocked, task: int)
    requires task >= 0
    ensures TaskHeld(threads, java, task) <==>
      HasStuckDedicated(threads, java, task) && !HasFreePoolThread(threads, java, task)
  {
    forall i | i in threads ensures Held(i, threads[i], java) <==> IsStuck(i, threads[i], java) {
    }
    if HasStuckDedicated(threads, java, task) {
      var i :| i in threads && DedicatedTo(threads[i], task) && IsStuck(i, threads[i], java);
      assert threads[i].taskId == task && Held(i, threads[i], java);
    }
    if i :| i in threads && threads[i].taskId == task && Held(i, threads[i], java) {
      assert DedicatedTo(threads[i], task) && IsStuck(i, threads[i], java);
    }
    if HasFreePoolThread(threads, java, task) {
      var i :| i in threads && PoolWorksOn(threads[i], task) && !IsStuck(i, threads[i], java);
      assert threads[i].taskId < 0 && task in threads[i].poolTasks && !Held(i, threads[i], java);
    }
    if i :| i in threads && threads[i].taskId < 0 && task in threads[i].poolTasks && !Held(i, threads[i], java) {
      assert PoolWorksOn(threads[i], task) && !IsStuck(i, threads[i], java);
    }
  }

  /** A task is BUFN if and only if a thread dedicated to it is held for good, or all of its pool threads are. */
  lemma BufnTaskExactlyWhen(threads: ThreadMap, java: JavaBlocked, task: int)
    requires task >= 0
    ensures IsBufnTask(threads, java, task) <==>
      || (exists i :: i in threads && threads[i].taskId == task && HeldForGood(i, threads[i], java))
      || (&& (exists i :: i in threads && threads[i].taskId < 0 && task in threads[i].poolTasks)
          && (forall i | i in threads && threads[i].taskId < 0 && task in threads[i].poolTasks ::
                HeldForGood(i, threads[i], java)))
  {
    forall i | i in threads ensures HeldForGood(i, threads[i], java) <==> IsBufnOrAbove(i, threads[i], java) {
    }
    if HasBufnDedicated(threads, java, task) {
      var i :| i in threads && DedicatedTo(threads[i], task) && IsBufnOrAbove(i, threads[i], java);
      assert threads[i].taskId == task && HeldForGood(i, threads[i], java);
    }
    if i :| i in threads && threads[i].taskId == task && HeldForGood(i, threads[i], java) {
      assert DedicatedTo(threads[i], task) && IsBufnOrAbove(i, threads[i], java);
    }
    if PoolThreadsOf(threads, task) != {} {
      var i := Member(PoolThreadsOf(threads, task));
      assert threads[i].taskId < 0 && task in threads[i].poolTasks;
    }
    if i :| i in threads && threads[i].taskId < 0 && task in threads[i].poolTasks {
      assert i in PoolThreadsOf(threads, task);
    }
  }

  // ----- what a report of the JVM leads to -----

  ghost predicate HasReported(threads: ThreadMap, java: set<int>, task: int)
  {
    exists i :: i in threads && threads[i].taskId == task && i in java
  }

  /** Every dedicated task has a thread that the JVM reports blocked. */
  ghost predicate ReportCovers(threads: ThreadMap, java: set<int>)
  {
    forall d | d in threads && threads[d].taskId >= 0 :: HasReported(threads, java, threads[d].taskId)
  }

  ghost predicate NoFreePool(threads: ThreadMap, java: set<int>)
  {
    forall i | i in threads && threads[i].taskId < 0 :: Held(i, threads[i], Some(java))
  }

  /**
    The watchdog's report counts: if the JVM holds a thread of every dedicated task, no pool thread is free
    and some thread is BLOCKED, then checking for deadlocks leaves fewer threads asleep.
  */
  lemma ReportBreaksTheDeadlock(c: Config, java: set<int>)
    requires Inv(c) && SomeDedicated(c.core.threads)
    requires ReportCovers(c.core.threads, java) && NoFreePool(c.core.threads, java)
    requires exists i :: i in c.core.threads && c.core.threads[i].state == Blocked
    ensures |Sleepers(Next(c, CheckDeadlocksCall(java)).core.threads)| < |Sleepers(c.core.threads)|
  {
    hide Inv, CheckAndUpdate, Deadlocked, AllBufn, ReportCovers, NoFreePool;
    InvBasics(c);
    ReportIsADeadlock(c.core.threads, java);
    var b :| b in c.core.threads && c.core.threads[b].state == Blocked;
    assert b in BlockedIds(c.core.threads);
    RoundProgress(c.core, Some(java));
  }

  lemma ReportedTaskIsHeld(threads: ThreadMap, java: set<int>, task: int)
    requires HasReported(threads, java, task) && NoFreePool(threads, java)
    ensures TaskHeld(threads, Some(java), task)
  {
    var i :| i in threads && threads[i].taskId == task && i in java;
    assert Held(i, threads[i], Some(java));
  }

  lemma ReportIsADeadlock(threads: ThreadMap, java: set<int>)
    requires SomeDedicated(threads) && ReportCovers(threads, java) && NoFreePool(threads, java)
    ensures Deadlocked(threads, Some(java))
  {
    hide Deadlocked, TaskHeld, NoFreePool, HasReported;
    forall d | d in threads && threads[d].taskId >= 0 ensures TaskHeld(threads, Some(java), threads[d].taskId) {
      ReportedTaskIsHeld(threads, java, threads[d].taskId);
    }
    DeadlockedExactlyWhen(threads, Some(java));
    var i :| i in threads && IsDedicated(threads[i]);
    assert threads[i].taskId >= 0;
  }

  /** Thread 10 runs for task 1 and thread 11 is BLOCKED for task 2. */
  const HALF_BLOCKED := map[10 := FreshThread(1, false), 11 := FreshThread(2, false).(state := Blocked)]

  /** Only the report makes this a deadlock, and then 11 may retry. */
  lemma OnlyTheReportTells(s: Core)
    requires s.threads == HALF_BLOCKED
    ensures !Deadlocked(s.threads, None) && Deadlocked(s.threads, Some({10})) && !Deadlocked(s.threads, Some({11}))
    ensures
      var s' := CheckAndUpdate(s, Some({10}));
      && 11 in s'.threads && s'.threads[11].state == Running && s'.threads[11].retryBeforeBufn
  {
    hide Deadlocked, CheckAndUpdate, AllBufn;
    var threads := s.threads;
    assert threads[10].taskId == 1 && threads[11].taskId == 2;
    DeadlockedExactlyWhen(threads, None);
    DeadlockedExactlyWhen(threads, Some({11}));
    assert !Held(10, threads[10], None) && !Held(10, threads[10], Some({11}));
    assert !TaskHeld(threads, None, 1) && !TaskHeld(threads, Some({11}), 1);
    DeadlockedExactlyWhen(threads, Some({10}));
    assert Held(10, threads[10], Some({10})) && Held(11, threads[11], Some({10}));
    assert Deadlocked(threads, Some({10}));
    OnlyBlockedRetries(s, Some({10}));
  }

  lemma OnlyBlockedRetries(s: Core, java: JavaBlocked)
    requires s.threads == HALF_BLOCKED && Deadlocked(s.threads, java)
    ensures
      var s' := CheckAndUpdate(s, java);
      11 in s'.threads && s'.threads[11].state == Running && s'.threads[11].retryBeforeBufn
  {
    hide CheckAndUpdate, AllBufn, Deadlocked;
    var threads, s' := s.threads, CheckAndUpdate(s, java);
    assert BlockedIds(threads) == {11};
    assert Sleepers(threads) == {11};
    assert 11 in BlockedIds(threads);
    RoundEffect(s, java);
    RoundProgress(s, java);
    assert RoundMoves(s, java, s', 11);
    if s'.threads[11] == threads[11] {
      assert false;
    }
  }
}
