/**
  Which task's priority a thread acts with, told from its fields, and whom that makes the scheduler choose:
  the lowest BLOCKED thread to roll back, the highest BUFN one to split, the highest BLOCKED one to wake.
*/
module Precedence {
  import opened TaskPriority
  import opened Threads
  import opened Scheduler
  import opened Deadlock
  import opened DeadlockBreaking
  import opened Runs
  import opened Disturbances
  import opened Safety

  /** Priorities are distinct; pool threads have task id -1, and tasks have ids that are not negative. */
  ghost predicate Sound(s: Core)
  {
    Valid(s.prio) && forall i | i in s.threads :: s.threads[i].taskId >= -1 && AreTasks(s.threads[i].poolTasks)
  }

  lemma InvIsSound(c: Config)
    requires Inv(c)
    ensures Sound(c.core)
  {
    forall i | i in c.core.threads
      ensures c.core.threads[i].taskId >= -1 && AreTasks(c.core.threads[i].poolTasks)
    {
      assert GoodView(ViewOf(c, i));
    }
  }

  /** A pool thread for shuffle, or one without tasks: it acts for no task and outranks all that do. */
  predicate ActsForNone(th: Thread)
  {
    th.taskId == -1 && (th.isForShuffle || th.poolTasks == {})
  }

  /** A thread acts for the task it is dedicated to, or for the least task of its pool. */
  ghost predicate ActsFor(th: Thread, task: int)
  {
    if th.taskId >= 0 then task == th.taskId
    else !ActsForNone(th) && task in th.poolTasks && forall other | other in th.poolTasks :: task <= other
  }

  lemma ActingTask(th: Thread)
    requires th.taskId >= -1
    ensures ActsForNone(th) ==> PriorityTask(th) == -1
    ensures !ActsForNone(th) ==> ActsFor(th, PriorityTask(th))
    ensures forall task | ActsFor(th, task) && !ActsForNone(th) :: task == PriorityTask(th)
  {
  }

  /**
    `low` is in front of `high`: a thread that acts for no task comes last; two that act for tasks are ordered
    by the priorities of these in the table; equals are ordered by thread id.
  */
  ghost predicate InFront(t: Table, threads: ThreadMap, low: int, high: int)
    requires low in threads && high in threads
  {
    var a, b := threads[low], threads[high];
    if ActsForNone(a) then ActsForNone(b) && low < high
    else if ActsForNone(b) then true
    else forall x, y | ActsFor(a, x) && ActsFor(b, y) ::
      && x in t.live && y in t.live
      && (x == y ==> low < high)
      && (x != y ==> t.live[x] < t.live[y])
  }

  lemma RankDecides(t: Table, threads: ThreadMap, low: int, high: int)
    requires Valid(t) && low in threads && high in threads
    requires forall i | i in {low, high} :: threads[i].taskId >= -1 && AreTasks(threads[i].poolTasks)
    requires Known(t, PriorityTask(threads[low])) && Known(t, PriorityTask(threads[high]))
    requires Below(RankOf(t, low, threads[low]), RankOf(t, high, threads[high]))
    ensures InFront(t, threads, low, high)
  {
    ActingTask(threads[low]);
    ActingTask(threads[high]);
  }

  lemma BestIsInFront(t: Table, s: Core, k: Scan, lowest: bool, v: int, other: int)
    requires Sound(s) && Valid(t) && Ranked(t, s.threads, k) && IsBest(t, s.threads, s.threads.Keys, k, lowest, v)
    requires other in s.threads && Selected(k, s.threads[other]) && other != v
    ensures if lowest then InFront(t, s.threads, v, other) else InFront(t, s.threads, other, v)
  {
    hide InFront, PriorityTask;
    assert Ahead(t, s.threads, v, other, lowest);
    if lowest {
      RankDecides(t, s.threads, v, other);
    } else {
      RankDecides(t, s.threads, other, v);
    }
  }

  // ----- whom a step moves -----

  /** The thread that is to roll back is in front of all other BLOCKED threads. */
  lemma RollsBackTheFirst(s: Core, v: int, other: int)
    requires Sound(s) && v in s.threads
    requires v in RollBackOne(s).threads && RollBackOne(s).threads[v] != s.threads[v]
    requires other in s.threads && s.threads[other].state == Blocked && other != v
    ensures InFront(RollBackOne(s).prio, s.threads, v, other)
  {
    hide RollBackOne, InFront, IsBest, Ranked;
    RollBackEffect(s);
    var s' := RollBackOne(s);
    assert other in BlockedIds(s.threads);
    assert RollsBack(s, s', v);
    BestIsInFront(s'.prio, s, AnyBlocked, true, v, other);
  }

  /** The thread that is to split is behind all other BUFN threads. */
  lemma SplitsTheLast(s: Core, v: int, other: int)
    requires Sound(s) && HasTarget(s.threads) && v in s.threads
    requires v in SplitOne(s).threads && SplitOne(s).threads[v] != s.threads[v]
    requires other in s.threads && s.threads[other].state == Bufn && other != v
    ensures InFront(SplitOne(s).prio, s.threads, other, v)
  {
    hide SplitOne, InFront, IsBest, Ranked;
    SplitEffect(s);
    var s' := SplitOne(s);
    assert Splits(s, s', v);
    BestIsInFront(s'.prio, s, AnyBufn, false, v, other);
  }

  /** The thread woken for freed memory is behind all others BLOCKED on that kind. */
  lemma WakesTheLast(s: Core, cpu: bool, v: int, other: int)
    requires Sound(s) && v in s.threads
    requires v in WakeNext(s, cpu).threads && WakeNext(s, cpu).threads[v] != s.threads[v]
    requires other in s.threads && s.threads[other].state == Blocked && s.threads[other].isCpuAlloc == cpu && other != v
    ensures InFront(WakeNext(s, cpu).prio, s.threads, other, v)
  {
    hide WakeNext, InFront, IsBest, Ranked;
    WakeNextEffect(s, cpu);
    BestIsInFront(WakeNext(s, cpu).prio, s, BlockedFor(cpu), false, v, other);
  }

  /** A whole round, in every reachable configuration and for whatever the JVM reports. */
  lemma RoundsFollowTheTasks(c: Config, java: JavaBlocked, v: int, other: int)
    requires Inv(c) && v in c.core.threads && other in c.core.threads && other != v
    requires v in CheckAndUpdate(c.core, java).threads && CheckAndUpdate(c.core, java).threads[v] != c.core.threads[v]
    ensures
      var s, s' := c.core, CheckAndUpdate(c.core, java);
      && (s.threads[v].state == s.threads[other].state == Blocked ==> InFront(s'.prio, s.threads, v, other))
      && (s.threads[v].state == s.threads[other].state == Bufn ==> InFront(s'.prio, s.threads, other, v))
  {
    hide CheckAndUpdate, InFront, IsBest, Ranked, Deadlocked, AllBufn, Inv;
    var s, s' := c.core, CheckAndUpdate(c.core, java);
    InvBasics(c);
    InvIsSound(c);
    RoundEffect(s, java);
    assert RoundMoves(s, java, s', v);
    if s.threads[v].state == s.threads[other].state == Blocked {
      assert other in BlockedIds(s.threads);
      BestIsInFront(s'.prio, s, AnyBlocked, true, v, other);
    } else if s.threads[v].state == s.threads[other].state == Bufn {
      BestIsInFront(s'.prio, s, AnyBufn, false, v, other);
    }
  }

  /** `first` goes first: `last` does not roll back before it, and it is neither woken nor split before `last`. */
  ghost predicate GoesFirst(s: Core, first: int, last: int)
    requires first in s.threads && last in s.threads
  {
    && (s.threads[first].state == s.threads[last].state == Blocked ==>
          last in RollBackOne(s).threads && RollBackOne(s).threads[last] == s.threads[last])
    && (s.threads[first].state == s.threads[last].state == Blocked &&
        s.threads[first].isCpuAlloc == s.threads[last].isCpuAlloc ==>
          var s' := WakeNext(s, s.threads[last].isCpuAlloc);
          first in s'.threads && s'.threads[first] == s.threads[first])
    && (s.threads[first].state == s.threads[last].state == Bufn ==>
          first in SplitOne(s).threads && SplitOne(s).threads[first] == s.threads[first])
  }

  lemma FrontGoesFirst(s: Core, first: int, last: int)
    requires Sound(s) && HasTarget(s.threads) && first in s.threads && last in s.threads && first != last
    requires forall t | Extends(s.prio, t) && Valid(t) :: !InFront(t, s.threads, last, first)
    ensures GoesFirst(s, first, last)
  {
    hide RollBackOne, SplitOne, WakeNext, InFront, IsBest, Ranked, Extends, Valid;
    var cpu := s.threads[last].isCpuAlloc;
    RollBackEffect(s);
    SplitEffect(s);
    WakeNextEffect(s, cpu);
    if s.threads[first].state == s.threads[last].state == Blocked {
      if RollBackOne(s).threads[last] != s.threads[last] {
        RollsBackTheFirst(s, last, first);
      }
      if s.threads[first].isCpuAlloc == cpu && WakeNext(s, cpu).threads[first] != s.threads[first] {
        WakesTheLast(s, cpu, first, last);
      }
    } else if s.threads[first].state == s.threads[last].state == Bufn {
      if SplitOne(s).threads[first] != s.threads[first] {
        SplitsTheLast(s, first, last);
      }
    }
  }

  // ----- threads for shuffle -----

  /**
    While a thread that acts for no task is BLOCKED, it does not roll back as long as a thread with a task
    of its own is BLOCKED too, and it is woken before all of these. Likewise it splits before them.
  */
  lemma ShuffleComesLast(s: Core, p: int, d: int)
    requires Sound(s) && HasTarget(s.threads)
    requires p in s.threads && ActsForNone(s.threads[p]) && d in s.threads && s.threads[d].taskId >= 0
    ensures GoesFirst(s, d, p)
  {
    hide GoesFirst;
    ActsForItsTask(s.threads[d]);
    FrontGoesFirst(s, d, p);
  }

  lemma ActsForItsTask(th: Thread)
    requires th.taskId >= 0
    ensures ActsFor(th, th.taskId) && !ActsForNone(th)
  {
  }

  // ----- pool threads with tasks -----

  /** A pool thread, not for shuffle, and the least of its tasks. */
  ghost predicate LeastOfPool(th: Thread, task: int)
  {
    th.taskId == -1 && !th.isForShuffle && task in th.poolTasks && forall other | other in th.poolTasks :: task <= other
  }

  /**
    A pool thread with tasks counts as a thread of the least of them. Against a thread dedicated to that
    task the lower id rolls back first and the higher one is woken and splits first; against any other
    dedicated thread the priorities of the two tasks decide.
  */
  lemma PoolActsForItsLeastTask(t: Table, threads: ThreadMap, p: int, d: int, task: int)
    requires p in threads && d in threads && LeastOfPool(threads[p], task) && threads[d].taskId >= 0
    ensures InFront(t, threads, p, d) ==>
      && (threads[d].taskId == task ==> p < d)
      && (threads[d].taskId != task ==>
            task in t.live && threads[d].taskId in t.live && t.live[task] < t.live[threads[d].taskId])
    ensures InFront(t, threads, d, p) ==>
      && (threads[d].taskId == task ==> d < p)
      && (threads[d].taskId != task ==>
            task in t.live && threads[d].taskId in t.live && t.live[threads[d].taskId] < t.live[task])
  {
    ActsForItsTask(threads[d]);
    assert ActsFor(threads[p], task);
  }

  /** Between a pool thread and a thread dedicated to its least task the thread ids decide. */
  lemma PoolTiesByThread(s: Core, p: int, d: int)
    requires Sound(s) && HasTarget(s.threads) && p in s.threads && d in s.threads
    requires s.threads[d].taskId >= 0 && LeastOfPool(s.threads[p], s.threads[d].taskId)
    ensures if p < d then GoesFirst(s, p, d) else GoesFirst(s, d, p)
  {
    hide GoesFirst, InFront, LeastOfPool;
    forall t ensures InFront(t, s.threads, p, d) ==> p < d
             ensures InFront(t, s.threads, d, p) ==> d < p
    {
      PoolActsForItsLeastTask(t, s.threads, p, d, s.threads[d].taskId);
    }
    PoolIsNotDedicated(s, p, d, s.threads[d].taskId);
    if p < d {
      FrontGoesFirst(s, p, d);
    } else {
      FrontGoesFirst(s, d, p);
    }
  }

  lemma PoolIsNotDedicated(s: Core, p: int, d: int, task: int)
    requires p in s.threads && d in s.threads && s.threads[d].taskId >= 0 && LeastOfPool(s.threads[p], task)
    ensures p != d
  {
  }

  /** Between a pool thread and a thread dedicated to another task, the task asked about later goes first. */
  lemma PoolFollowsItsLeastTask(s: Core, p: int, d: int, task: int)
    requires Sound(s) && HasTarget(s.threads) && p in s.threads && d in s.threads
    requires s.threads[d].taskId >= 0 && s.threads[d].taskId != task && LeastOfPool(s.threads[p], task)
    requires task in s.prio.live && s.threads[d].taskId in s.prio.live
    ensures if s.prio.live[task] < s.prio.live[s.threads[d].taskId] then GoesFirst(s, p, d) else GoesFirst(s, d, p)
  {
    hide GoesFirst, InFront, LeastOfPool;
    var other := s.threads[d].taskId;
    forall t | Extends(s.prio, t) && Valid(t)
      ensures InFront(t, s.threads, p, d) ==> s.prio.live[task] < s.prio.live[other]
      ensures InFront(t, s.threads, d, p) ==> s.prio.live[other] < s.prio.live[task]
    {
      PoolActsForItsLeastTask(t, s.threads, p, d, task);
    }
    PoolIsNotDedicated(s, p, d, task);
    if s.prio.live[task] < s.prio.live[other] {
      FrontGoesFirst(s, p, d);
    } else {
      FrontGoesFirst(s, d, p);
    }
  }

  // ----- an example -----

  /** 10 is dedicated to task 3, 11 is a pool thread for shuffle on task 5, and both are BLOCKED. */
  const WITH_SHUFFLE :=
    map[10 := FreshThread(3, false).(state := Blocked),
        11 := FreshThread(-1, true).(state := Blocked, poolTasks := {5})]

  /** Whatever the priorities, 10 is the one to roll back, and a free wakes 11. */
  lemma ShuffleExample(s: Core)
    requires s.threads == WITH_SHUFFLE && Valid(s.prio)
    ensures 10 in RollBackOne(s).threads && RollBackOne(s).threads[10].state == BufnThrow
    ensures 11 in WakeNext(s, false).threads && WakeNext(s, false).threads[11].state == Running
  {
    hide RollBackOne, WakeNext, SplitOne, LowestBlocked, HighestBlockedFor, PriorityTask, Valid, Extends;
    var threads := s.threads;
    assert threads[10].taskId == 3 && threads[11].taskId == -1 && threads[11].poolTasks == {5};
    ShuffleComesLast(s, 11, 10);
    RollBackEffect(s);
    WakeNextEffect(s, false);
    assert threads[10].state == Blocked && Selected(BlockedFor(false), threads[10]);
    assert 11 in BlockedIds(threads);
  }
}
