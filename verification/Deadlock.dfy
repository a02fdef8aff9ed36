/**
  What a deadlock is, and the two-pass test that looks for one.
  The declarative side comes first; `IsInDeadlock` walks the threads as the scheduler does.
*/
module Deadlock {
  import opened Collections
  import opened Threads

  /** The ids of threads that the JVM reports blocked, when the caller knows them. */
  type JavaBlocked = Option<set<int>>

  predicate IsBufnOrAbove(id: int, th: Thread, java: JavaBlocked)
  {
    th.poolBlocked ||
    match th.state
    case Blocked => false
    case Bufn => true
    case _ => java.Some? && id in java.value
  }

  predicate IsStuck(id: int, th: Thread, java: JavaBlocked)
  {
    IsBufnOrAbove(id, th, java) || th.state == Blocked
  }

  predicate IsDedicated(th: Thread) { th.taskId >= 0 }

  predicate DedicatedTo(th: Thread, task: int) { IsDedicated(th) && th.taskId == task }

  predicate PoolWorksOn(th: Thread, task: int) { !IsDedicated(th) && task in th.poolTasks }

  ghost predicate SomeDedicated(threads: ThreadMap) { exists i :: i in threads && IsDedicated(threads[i]) }

  /** The tasks that have a dedicated thread. */
  ghost function AllTasks(threads: ThreadMap): set<int>
  {
    set i | i in threads && IsDedicated(threads[i]) :: threads[i].taskId
  }

  ghost predicate HasStuckDedicated(threads: ThreadMap, java: JavaBlocked, task: int)
  {
    exists i :: i in threads && DedicatedTo(threads[i], task) && IsStuck(i, threads[i], java)
  }

  ghost predicate HasFreePoolThread(threads: ThreadMap, java: JavaBlocked, task: int)
  {
    exists i :: i in threads && PoolWorksOn(threads[i], task) && !IsStuck(i, threads[i], java)
  }

  /**
    Deadlock: there is a task with a dedicated thread, and every such task has some stuck dedicated
    thread and no pool thread still working for it.
  */
  ghost predicate Deadlocked(threads: ThreadMap, java: JavaBlocked)
  {
    && SomeDedicated(threads)
    && forall task | task in AllTasks(threads) ::
         HasStuckDedicated(threads, java, task) && !HasFreePoolThread(threads, java, task)
  }

  ghost function PoolThreadsOf(threads: ThreadMap, task: int): set<int>
  {
    set i | i in threads && PoolWorksOn(threads[i], task)
  }

  ghost function PoolTasks(threads: ThreadMap): set<int>
  {
    set i, task | i in threads && !IsDedicated(threads[i]) && task in threads[i].poolTasks :: task
  }

  ghost predicate HasBufnDedicated(threads: ThreadMap, java: JavaBlocked, task: int)
  {
    exists i :: i in threads && DedicatedTo(threads[i], task) && IsBufnOrAbove(i, threads[i], java)
  }

  /** A task is blocked until further notice when a dedicated thread is, or all its pool threads are. */
  ghost predicate IsBufnTask(threads: ThreadMap, java: JavaBlocked, task: int)
  {
    || HasBufnDedicated(threads, java, task)
    || (PoolThreadsOf(threads, task) != {} &&
        forall i | i in threads && PoolWorksOn(threads[i], task) :: IsBufnOrAbove(i, threads[i], java))
  }

  ghost function BufnTasks(threads: ThreadMap, java: JavaBlocked): set<int>
  {
    set task | task in AllTasks(threads) + PoolTasks(threads) && IsBufnTask(threads, java, task)
  }

  /** The size comparison made before a split is forced. */
  ghost predicate AllBufn(threads: ThreadMap, java: JavaBlocked)
  {
    |AllTasks(threads)| == |BufnTasks(threads, java)|
  }

  /** Every task some pool thread works on also has a dedicated thread. */
  ghost predicate Covered(threads: ThreadMap)
  {
    PoolTasks(threads) <= AllTasks(threads)
  }

  /** Every task that has a dedicated thread is blocked until further notice. */
  ghost predicate EveryTaskBufn(threads: ThreadMap, java: JavaBlocked)
  {
    forall task | task in AllTasks(threads) :: IsBufnTask(threads, java, task)
  }

  /** Tasks with a dedicated thread that are not BUFN. */
  ghost function AwakeTasks(threads: ThreadMap, java: JavaBlocked): set<int>
  {
    set task | task in AllTasks(threads) && !IsBufnTask(threads, java, task)
  }

  /** BUFN tasks that only pool threads work for. */
  ghost function StrayTasks(threads: ThreadMap, java: JavaBlocked): set<int>
  {
    set task | task in PoolTasks(threads) && task !in AllTasks(threads) && IsBufnTask(threads, java, task)
  }

  /** What comparing sizes compares: the tasks still awake against the stray ones. */
  lemma SizesCompareAwakeWithStray(threads: ThreadMap, java: JavaBlocked)
    ensures AllBufn(threads, java) <==> |AwakeTasks(threads, java)| == |StrayTasks(threads, java)|
  {
    hide IsBufnTask;
    var all, bufn := AllTasks(threads), BufnTasks(threads, java);
    var awake, stray, common := AwakeTasks(threads, java), StrayTasks(threads, java), all * bufn;
    assert all == common + awake && common * awake == {};
    assert bufn == common + stray && common * stray == {};
  }

  /**
    The size test differs from asking whether every task is BUFN if and only if there are stray BUFN
    tasks and either no task is awake, which the test then misses, or exactly as many as there are
    strays, which the test then takes for none.
  */
  lemma SizeTestIsWrongExactlyWhen(threads: ThreadMap, java: JavaBlocked)
    ensures
      var awake, stray := AwakeTasks(threads, java), StrayTasks(threads, java);
      (AllBufn(threads, java) <==> EveryTaskBufn(threads, java)) <==>
      !(stray != {} && (awake == {} || |awake| == |stray|))
  {
    hide AllBufn, IsBufnTask;
    SizesCompareAwakeWithStray(threads, java);
    NobodyAwake(threads, java);
  }

  lemma NobodyAwake(threads: ThreadMap, java: JavaBlocked)
    ensures EveryTaskBufn(threads, java) <==> AwakeTasks(threads, java) == {}
  {
    hide IsBufnTask;
    if EveryTaskBufn(threads, java) {
      NoMemberIsEmpty(AwakeTasks(threads, java));
    } else {
      var task :| task in AllTasks(threads) && !IsBufnTask(threads, java, task);
      assert task in AwakeTasks(threads, java);
    }
  }

  /** With pool tasks covered, comparing sizes is comparing sets: all tasks are BUFN. */
  lemma AllBufnMeansEveryTask(threads: ThreadMap, java: JavaBlocked)
    requires Covered(threads)
    ensures AllBufn(threads, java) <==> EveryTaskBufn(threads, java)
  {
    hide AllBufn, IsBufnTask, EveryTaskBufn;
    NoMemberIsEmpty(StrayTasks(threads, java));
    SizeTestIsWrongExactlyWhen(threads, java);
  }

  /** Two threads: one dedicated to task 1 in some state, and a BUFN pool thread on task 2 of its own. */
  function WithStray(state: ThreadState): ThreadMap
  {
    map[10 := FreshThread(1, false).(state := state), 11 := FreshThread(-1, false).(state := Bufn, poolTasks := {2})]
  }

  lemma StrayFacts(state: ThreadState)
    ensures var threads := WithStray(state);
      && AllTasks(threads) == {1} && PoolTasks(threads) == {2}
      && (IsBufnTask(threads, None, 1) <==> state == Bufn) && IsBufnTask(threads, None, 2)
      && (IsBlocked(state) ==> Deadlocked(threads, None))
  {
    var threads := WithStray(state);
    assert threads[10].taskId == 1 && threads[11].taskId == -1;
    assert AllTasks(threads) == {1};
    assert 2 in threads[11].poolTasks;
    assert PoolTasks(threads) == {2};
    assert 11 in PoolThreadsOf(threads, 2);
    if state == Bufn {
      assert HasBufnDedicated(threads, None, 1);
    }
    if IsBlocked(state) {
      assert HasStuckDedicated(threads, None, 1);
    }
  }

  /** A stray task hides that all are BUFN: everybody sleeps, every task is BUFN, and no split is forced. */
  lemma StrayTaskHidesAllBufn()
    ensures var threads := WithStray(Bufn);
      && Deadlocked(threads, None) && EveryTaskBufn(threads, None) && !AllBufn(threads, None)
      && (forall i | i in threads :: threads[i].state == Bufn)
  {
    StrayFacts(Bufn);
    assert BufnTasks(WithStray(Bufn), None) == {1, 2};
  }

  /** A stray task stands in for one that is not BUFN: a split is forced although task 1 is only BLOCKED. */
  lemma StrayTaskFeignsAllBufn()
    ensures var threads := WithStray(Blocked);
      && Deadlocked(threads, None) && AllBufn(threads, None) && !EveryTaskBufn(threads, None)
  {
    StrayFacts(Blocked);
    assert 1 in AllTasks(WithStray(Blocked));
    assert BufnTasks(WithStray(Blocked), None) == {2};
  }

  // ----- the two-pass test -----

  /** How far along the scale of being stuck a thread must be to be noticed. */
  datatype Level = Present | Stuck | BufnPlus

  predicate Reaches(id: int, th: Thread, java: JavaBlocked, level: Level)
  {
    match level
    case Present => true
    case Stuck => IsStuck(id, th, java)
    case BufnPlus => IsBufnOrAbove(id, th, java)
  }

  /** Some dedicated thread of the task among `seen` reaches the level. */
  ghost predicate SeenDedicated(threads: ThreadMap, java: JavaBlocked, seen: set<int>, task: int, level: Level)
    requires seen <= threads.Keys
  {
    exists i :: i in seen && DedicatedTo(threads[i], task) && Reaches(i, threads[i], java, level)
  }

  /** The set holds the tasks noticed so far. */
  ghost predicate Gathered(threads: ThreadMap, java: JavaBlocked, seen: set<int>, level: Level, tasks: set<int>)
    requires seen <= threads.Keys
  {
    forall task :: task in tasks <==> SeenDedicated(threads, java, seen, task, level)
  }

  lemma GatherOneMore(threads: ThreadMap, java: JavaBlocked, seen: set<int>, level: Level, tasks: set<int>,
                      id: int, more: set<int>)
    requires seen <= threads.Keys && id in threads
    requires Gathered(threads, java, seen, level, tasks)
    requires more == tasks + if IsDedicated(threads[id]) && Reaches(id, threads[id], java, level)
                             then {threads[id].taskId} else {}
    ensures Gathered(threads, java, seen + {id}, level, more)
  {
  }

  /** The pool threads among `seen` that work on `task`; only the BUFN ones when `bufnOnly`. */
  ghost function PoolSeen(threads: ThreadMap, java: JavaBlocked, seen: set<int>, task: int, bufnOnly: bool): set<int>
    requires seen <= threads.Keys
  {
    set i | i in seen && PoolWorksOn(threads[i], task) && (bufnOnly ==> IsBufnOrAbove(i, threads[i], java))
  }

  ghost predicate Counts(threads: ThreadMap, java: JavaBlocked, seen: set<int>, bufnOnly: bool, counts: map<int, int>)
    requires seen <= threads.Keys
  {
    forall task ::
      && (task in counts <==> PoolSeen(threads, java, seen, task, bufnOnly) != {})
      && (task in counts ==> counts[task] == |PoolSeen(threads, java, seen, task, bufnOnly)|)
  }

  ghost predicate SeenFree(threads: ThreadMap, java: JavaBlocked, seen: set<int>, task: int)
    requires seen <= threads.Keys
  {
    exists i :: i in seen && PoolWorksOn(threads[i], task) && !IsStuck(i, threads[i], java)
  }

  /** The second pass: tasks of free pool threads among `seen` have been dropped from `blocked`. */
  ghost predicate SecondPass(threads: ThreadMap, java: JavaBlocked, seen: set<int>, blocked: set<int>)
    requires seen <= threads.Keys
  {
    forall task :: task in blocked <==>
      HasStuckDedicated(threads, java, task) && !SeenFree(threads, java, seen, task)
  }

  lemma FreeOneMore(threads: ThreadMap, java: JavaBlocked, seen: set<int>, blocked: set<int>, id: int, fewer: set<int>)
    requires seen <= threads.Keys && id in threads
    requires SecondPass(threads, java, seen, blocked)
    requires fewer == blocked - if IsDedicated(threads[id]) || IsStuck(id, threads[id], java)
                                then {} else threads[id].poolTasks
    ensures SecondPass(threads, java, seen + {id}, fewer)
  {
  }

  /** Adds one to the count of every task in the set. */
  method CountTasks(counts: map<int, int>, tasks: set<int>) returns (r: map<int, int>)
    ensures r.Keys == counts.Keys + tasks
    ensures forall task | task in r ::
      r[task] == (if task in counts then counts[task] else 0) + (if task in tasks then 1 else 0)
  {
    r := counts;
    var rest := tasks;
    while rest != {}
      invariant rest <= tasks
      invariant r.Keys == counts.Keys + (tasks - rest)
      invariant forall task | task in r ::
        r[task] == (if task in counts then counts[task] else 0) + (if task in tasks - rest then 1 else 0)
    {
      var some := Member(rest);
      var task :| task in rest;
      r := r[task := if task in r then r[task] + 1 else 1];
      rest := rest - {task};
    }
  }

  lemma PoolSeenGrows(threads: ThreadMap, java: JavaBlocked, seen: set<int>, bufnOnly: bool, id: int, task: int)
    requires seen <= threads.Keys && id in threads && id !in seen
    ensures PoolSeen(threads, java, seen + {id}, task, bufnOnly) ==
            PoolSeen(threads, java, seen, task, bufnOnly) +
            (if PoolWorksOn(threads[id], task) && (bufnOnly ==> IsBufnOrAbove(id, threads[id], java)) then {id} else {})
    ensures id !in PoolSeen(threads, java, seen, task, bufnOnly)
  {
  }

  /** The tasks a thread contributes to a count. */
  function Contributes(id: int, th: Thread, java: JavaBlocked, bufnOnly: bool): set<int>
  {
    if IsDedicated(th) || (bufnOnly && !IsBufnOrAbove(id, th, java)) then {} else th.poolTasks
  }

  lemma CountOneMore(threads: ThreadMap, java: JavaBlocked, seen: set<int>, bufnOnly: bool,
                     counts: map<int, int>, id: int, more: map<int, int>)
    requires seen <= threads.Keys && id in threads && id !in seen
    requires Counts(threads, java, seen, bufnOnly, counts)
    requires more.Keys == counts.Keys + Contributes(id, threads[id], java, bufnOnly)
    requires forall task | task in more ::
      more[task] == (if task in counts then counts[task] else 0) +
                    (if task in Contributes(id, threads[id], java, bufnOnly) then 1 else 0)
    ensures Counts(threads, java, seen + {id}, bufnOnly, more)
  {
    forall task
      ensures task in more <==> PoolSeen(threads, java, seen + {id}, task, bufnOnly) != {}
      ensures task in more ==> more[task] == |PoolSeen(threads, java, seen + {id}, task, bufnOnly)|
    {
      PoolSeenGrows(threads, java, seen, bufnOnly, id, task);
      assert task in counts <==> PoolSeen(threads, java, seen, task, bufnOnly) != {};
    }
  }

  /** Comparing the number of blocked tasks with the number of tasks decides the declarative question. */
  lemma SizesDecide(threads: ThreadMap, java: JavaBlocked, all: set<int>, blocked: set<int>)
    requires all == AllTasks(threads)
    requires SecondPass(threads, java, threads.Keys, blocked)
    ensures (|all| == |blocked| && all != {}) <==> Deadlocked(threads, java)
  {
    forall task | task in blocked ensures task in all {
      var i :| i in threads && DedicatedTo(threads[i], task) && IsStuck(i, threads[i], java);
      assert threads[i].taskId in AllTasks(threads);
    }
    SubsetSize(blocked, all);
    if all != {} {
      var task := Member(all);
      assert SomeDedicated(threads);
    }
    if SomeDedicated(threads) {
      var i :| i in threads && IsDedicated(threads[i]);
      assert threads[i].taskId in all;
    }
    if Deadlocked(threads, java) {
      forall task | task in all ensures task in blocked {
        assert HasStuckDedicated(threads, java, task) && !HasFreePoolThread(threads, java, task);
      }
      assert all == blocked;
    }
  }

  /** First pass: the dedicated threads. */
  method ScanDedicated(threads: ThreadMap, java: JavaBlocked)
    returns (all: set<int>, bufn: set<int>, blocked: set<int>)
    ensures Gathered(threads, java, threads.Keys, Present, all)
    ensures Gathered(threads, java, threads.Keys, BufnPlus, bufn)
    ensures Gathered(threads, java, threads.Keys, Stuck, blocked)
  {
    all, bufn, blocked := {}, {}, {};
    var rest := threads.Keys;
    while rest != {}
      invariant rest <= threads.Keys
      invariant Gathered(threads, java, threads.Keys - rest, Present, all)
      invariant Gathered(threads, java, threads.Keys - rest, BufnPlus, bufn)
      invariant Gathered(threads, java, threads.Keys - rest, Stuck, blocked)
    {
      var id := MinOf(rest);
      var th := threads[id];
      ghost var seen := threads.Keys - rest;
      ghost var allBefore, bufnBefore, blockedBefore := all, bufn, blocked;
      if th.taskId >= 0 {
        all := all + {th.taskId};
        var isBufnPlus := IsBufnOrAbove(id, th, java);
        if isBufnPlus {
          bufn := bufn + {th.taskId};
        }
        if isBufnPlus || th.state == Blocked {
          blocked := blocked + {th.taskId};
        }
      }
      GatherOneMore(threads, java, seen, Present, allBefore, id, all);
      GatherOneMore(threads, java, seen, BufnPlus, bufnBefore, id, bufn);
      GatherOneMore(threads, java, seen, Stuck, blockedBefore, id, blocked);
      rest := rest - {id};
      assert threads.Keys - rest == seen + {id};
    }
    assert threads.Keys - rest == threads.Keys;
  }

  /** Counts one more thread for every task it works on from a pool. */
  method CountThread(threads: ThreadMap, java: JavaBlocked, ghost seen: set<int>, id: int, bufnOnly: bool,
                     counts: map<int, int>) returns (more: map<int, int>)
    requires seen <= threads.Keys && id in threads && id !in seen
    requires Counts(threads, java, seen, bufnOnly, counts)
    ensures Counts(threads, java, seen + {id}, bufnOnly, more)
  {
    if threads[id].taskId < 0 && (!bufnOnly || IsBufnOrAbove(id, threads[id], java)) {
      more := CountTasks(counts, threads[id].poolTasks);
    } else {
      more := counts;
    }
    CountOneMore(threads, java, seen, bufnOnly, counts, id, more);
  }

  /** Tasks that a free pool thread works for stop counting as blocked. */
  method ClearThread(threads: ThreadMap, java: JavaBlocked, ghost seen: set<int>, id: int, blocked: set<int>)
    returns (fewer: set<int>)
    requires seen <= threads.Keys && id in threads
    requires SecondPass(threads, java, seen, blocked)
    ensures SecondPass(threads, java, seen + {id}, fewer)
  {
    fewer := blocked;
    if threads[id].taskId < 0 && !IsBufnOrAbove(id, threads[id], java) && threads[id].state != Blocked {
      fewer := blocked - threads[id].poolTasks;
    }
    FreeOneMore(threads, java, seen, blocked, id, fewer);
  }

  /** Second pass: the pool threads, which are counted and may clear tasks found by the first pass. */
  method ScanPool(threads: ThreadMap, java: JavaBlocked, blockedTasks: set<int>)
    returns (bufnCounts: map<int, int>, counts: map<int, int>, blocked: set<int>)
    requires Gathered(threads, java, threads.Keys, Stuck, blockedTasks)
    ensures Counts(threads, java, threads.Keys, true, bufnCounts)
    ensures Counts(threads, java, threads.Keys, false, counts)
    ensures SecondPass(threads, java, threads.Keys, blocked)
  {
    counts, bufnCounts, blocked := map[], map[], blockedTasks;
    var rest := threads.Keys;
    while rest != {}
      invariant rest <= threads.Keys
      invariant Counts(threads, java, threads.Keys - rest, true, bufnCounts)
      invariant Counts(threads, java, threads.Keys - rest, false, counts)
      invariant SecondPass(threads, java, threads.Keys - rest, blocked)
    {
      var id := MinOf(rest);
      ghost var seen := threads.Keys - rest;
      counts := CountThread(threads, java, seen, id, false, counts);
      bufnCounts := CountThread(threads, java, seen, id, true, bufnCounts);
      blocked := ClearThread(threads, java, seen, id, blocked);
      rest := rest - {id};
      assert threads.Keys - rest == seen + {id};
    }
    assert threads.Keys - rest == threads.Keys;
  }

  /**
    The two-pass test. Its answer is the declarative meaning of a deadlock, and the sets and counts it
    hands back are exactly those of the thread map.
  */
  method IsInDeadlock(threads: ThreadMap, java: JavaBlocked)
    returns (deadlock: bool, bufnCounts: map<int, int>, counts: map<int, int>, bufn: set<int>, all: set<int>)
    ensures deadlock <==> Deadlocked(threads, java)
    ensures all == AllTasks(threads)
    ensures Gathered(threads, java, threads.Keys, BufnPlus, bufn)
    ensures Counts(threads, java, threads.Keys, true, bufnCounts)
    ensures Counts(threads, java, threads.Keys, false, counts)
  {
    var blocked;
    all, bufn, blocked := ScanDedicated(threads, java);
    assert all == AllTasks(threads) by {
      forall task ensures task in all <==> task in AllTasks(threads) {
        if task in AllTasks(threads) {
          var i :| i in threads && DedicatedTo(threads[i], task);
        }
      }
    }
    bufnCounts, counts, blocked := ScanPool(threads, java, blocked);
    SizesDecide(threads, java, all, blocked);
    deadlock := |all| == |blocked| && all != {};
  }

  /** A task's BUFN pool threads reach its pool threads in number only by being all of them. */
  lemma CountsDecideBufn(threads: ThreadMap, java: JavaBlocked, task: int)
    ensures PoolSeen(threads, java, threads.Keys, task, true) != {} &&
            |PoolSeen(threads, java, threads.Keys, task, false)| <= |PoolSeen(threads, java, threads.Keys, task, true)|
            <==>
            PoolThreadsOf(threads, task) != {} &&
            forall i | i in threads && PoolWorksOn(threads[i], task) :: IsBufnOrAbove(i, threads[i], java)
  {
    var every := PoolSeen(threads, java, threads.Keys, task, false);
    var some := PoolSeen(threads, java, threads.Keys, task, true);
    assert every == PoolThreadsOf(threads, task);
    assert some <= every;
    SubsetSize(some, every);
    if some == every {
      forall i | i in threads && PoolWorksOn(threads[i], task) ensures IsBufnOrAbove(i, threads[i], java) {
        assert i in every;
      }
    }
  }

  lemma BufnMembership(threads: ThreadMap, java: JavaBlocked, bufnCounts: map<int, int>, counts: map<int, int>,
                       bufn: set<int>, task: int)
    requires task in bufn <==> HasBufnDedicated(threads, java, task)
    requires Counts(threads, java, threads.Keys, true, bufnCounts)
    requires Counts(threads, java, threads.Keys, false, counts)
    ensures task in BufnTasks(threads, java) <==>
      task in bufn || (task in bufnCounts && task in counts && counts[task] <= bufnCounts[task])
  {
    CountsDecideBufn(threads, java, task);
    if task in bufn {
      var i :| i in threads && DedicatedTo(threads[i], task) && IsBufnOrAbove(i, threads[i], java);
      assert threads[i].taskId in AllTasks(threads);
    }
    if PoolThreadsOf(threads, task) != {} {
      var i := Member(PoolThreadsOf(threads, task));
      assert task in threads[i].poolTasks;
      assert task in PoolTasks(threads);
    }
    if task in bufnCounts {
      var i := Member(PoolSeen(threads, java, threads.Keys, task, true));
      assert i in PoolSeen(threads, java, threads.Keys, task, false);
    }
  }

  /** The second half of the BUFN test: tasks all of whose pool threads are BUFN join the set. */
  method IsAllBufn(ghost threads: ThreadMap, ghost java: JavaBlocked, bufnCounts: map<int, int>, counts: map<int, int>,
                   bufn: set<int>, all: set<int>)
    returns (r: bool)
    requires all == AllTasks(threads)
    requires Gathered(threads, java, threads.Keys, BufnPlus, bufn)
    requires Counts(threads, java, threads.Keys, true, bufnCounts)
    requires Counts(threads, java, threads.Keys, false, counts)
    ensures r <==> AllBufn(threads, java)
  {
    var grown := bufn;
    var rest := bufnCounts.Keys;
    while rest != {}
      invariant rest <= bufnCounts.Keys
      invariant forall task :: task in grown <==>
        task in bufn || (task in bufnCounts.Keys - rest && task in counts && counts[task] <= bufnCounts[task])
    {
      var task := MinOf(rest);
      if task in counts && counts[task] <= bufnCounts[task] {
        grown := grown + {task};
      }
      rest := rest - {task};
    }
    assert grown == BufnTasks(threads, java) by {
      forall task ensures task in grown <==> task in BufnTasks(threads, java) {
        BufnMembership(threads, java, bufnCounts, counts, bufn, task);
      }
    }
    r := |all| == |grown|;
  }
}
