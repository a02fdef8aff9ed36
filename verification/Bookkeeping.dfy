/**
  What registration, removal and a finished task do to records, links and the counters of tasks, told field
  by field.
*/
module Bookkeeping {
  import opened Collections
  import opened Threads
  import opened Scheduler
  import opened Runs
  import opened Leavers
  import opened CallOutcomes

  // ----- counters and links -----

  /** The counters of some tasks are up by those of a thread, and no other task's are. */
  ghost predicate Credited(m: map<int, Metrics>, m': map<int, Metrics>, tasks: set<int>, more: Metrics)
  {
    && m'.Keys == m.Keys + tasks
    && forall task | task in m' ::
         var before := if task in m then m[task] else Metrics(0, 0);
         && m'[task].retryThrows == before.retryThrows + (if task in tasks then more.retryThrows else 0)
         && m'[task].splitThrows == before.splitThrows + (if task in tasks then more.splitThrows else 0)
  }

  /** The tasks a thread works for. */
  function TasksOf(th: Thread): set<int>
  {
    if th.taskId >= 0 then {th.taskId} else th.poolTasks
  }

  ghost predicate LinkedWith(links: map<int, set<int>>, links': map<int, set<int>>, t: int, task: int)
  {
    && links'.Keys == links.Keys + {task}
    && (forall other | other in links && other != task :: links'[other] == links[other])
    && (forall i :: i in links'[task] <==> i == t || (task in links && i in links[task]))
  }

  ghost predicate UnlinkedFrom(links: map<int, set<int>>, links': map<int, set<int>>, t: int, task: int)
  {
    && links'.Keys == links.Keys
    && (forall other | other in links && other != task :: links'[other] == links[other])
    && (task in links ==> forall i :: i in links'[task] <==> i != t && i in links[task])
  }

  lemma CheckpointCredits(s: Core, t: int)
    requires t in s.threads
    ensures Credited(s.taskMetrics, Checkpoint(s, t).taskMetrics, TasksOf(s.threads[t]), s.threads[t].metrics)
    ensures Checkpoint(s, t).threads == s.threads[t := s.threads[t].(metrics := Metrics(0, 0))]
    ensures Checkpoint(s, t).taskThreads == s.taskThreads
  {
  }

  // ----- removal -----

  /**
    A removal moves the thread's counters to the tasks it worked for. If that was its last work for the
    adaptor, it is unlinked from the task; otherwise it goes on with its other pool tasks, if it has any.
  */
  lemma RemovalBooks(s: Core, t: int, task: int)
    requires t in s.threads
    ensures
      var th, s' := s.threads[t], Remove(s, t, task).0;
      var lastWork := task < 0 || th.taskId == task || (th.taskId < 0 && th.poolTasks <= {task});
      && Credited(s.taskMetrics, s'.taskMetrics, TasksOf(th), th.metrics)
      && (lastWork && task >= 0 ==> UnlinkedFrom(s.taskThreads, s'.taskThreads, t, task))
      && (!lastWork || task < 0 ==> s'.taskThreads == s.taskThreads)
      && (lastWork && IsBlocked(th.state) ==> t in s'.threads && s'.threads[t].state == RemoveThrow)
      && (lastWork && !IsBlocked(th.state) ==> t !in s'.threads)
      && (!lastWork ==>
            && t in s'.threads
            && s'.threads[t] == th.(metrics := Metrics(0, 0),
                                    poolTasks := if th.taskId >= 0 then th.poolTasks else th.poolTasks - {task}))
  {
    hide Checkpoint, Credited, Expel;
    CheckpointCredits(s, t);
    var s1 := Checkpoint(s, t);
    var s2 := Put(s1, t, s1.threads[t].(poolTasks := s1.threads[t].poolTasks - {task}));
    ExpelBooks(s1, t, task);
    ExpelBooks(s2, t, task);
    var th := s.threads[t];
    assert th.poolTasks <= {task} <==> th.poolTasks - {task} == {} by { NothingElse(th.poolTasks, task); }
  }

  lemma NothingElse(tasks: set<int>, task: int)
    ensures tasks <= {task} <==> tasks - {task} == {}
  {
    if tasks - {task} == {} {
      forall x | x in tasks ensures x == task {
        assert x !in tasks - {task};
      }
    }
  }

  lemma ExpelBooks(s: Core, t: int, task: int)
    requires t in s.threads
    ensures
      var s' := Expel(s, t, task).0;
      && s'.taskMetrics == s.taskMetrics
      && (task >= 0 ==> UnlinkedFrom(s.taskThreads, s'.taskThreads, t, task))
      && (task < 0 ==> s'.taskThreads == s.taskThreads)
      && (IsBlocked(s.threads[t].state) ==> t in s'.threads && s'.threads[t].state == RemoveThrow)
      && (!IsBlocked(s.threads[t].state) ==> t !in s'.threads)
  {
  }

  // ----- registration -----

  /** The entry of a new thread: RUNNING, without allocation, flags and counts. */
  predicate IsNew(th: Thread, taskId: int, isForShuffle: bool)
  {
    && th.state == Running && th.taskId == taskId && th.isForShuffle == isForShuffle
    && !th.isCpuAlloc && !th.poolBlocked && !th.retryBeforeBufn && th.timesRetried == 0
    && th.metrics == Metrics(0, 0)
  }

  ghost predicate OthersKept(s: Core, s': Core, t: int)
  {
    forall i | i != t ::
      && (i in s'.threads <==> i in s.threads)
      && (i in s.threads && i in s'.threads ==> s'.threads[i] == s.threads[i])
  }

  /**
    Dedicating a thread to a task. A thread that is being removed is refused, and so is a pool thread. One
    dedicated to another task hands its counters to that task first; if it sleeps it is told to throw and
    refused, otherwise it starts over with the new task.
  */
  ghost predicate Dedicated(s: Core, t: int, task: int, r: (Core, Outcome))
  {
    if t !in s.threads then
      && r.1 == Finished(true) && OthersKept(s, r.0, t) && r.0.taskMetrics == s.taskMetrics
      && t in r.0.threads && IsNew(r.0.threads[t], task, false) && r.0.threads[t].poolTasks == {}
      && LinkedWith(s.taskThreads, r.0.taskThreads, t, task)
    else
      var th := s.threads[t];
      if th.taskId >= 0 && th.taskId != task then
        && OthersKept(s, r.0, t) && t in r.0.threads
        && Credited(s.taskMetrics, r.0.taskMetrics, {th.taskId}, th.metrics)
        && (IsBlocked(th.state) ==>
              && r.1 == Threw(ShuttingDownThread) && r.0.threads[t].state == RemoveThrow
              && UnlinkedFrom(s.taskThreads, r.0.taskThreads, t, th.taskId))
        && (!IsBlocked(th.state) ==>
              && r.1 == Finished(true) && IsNew(r.0.threads[t], task, false) && r.0.threads[t].poolTasks == {}
              && exists links :: UnlinkedFrom(s.taskThreads, links, t, th.taskId)
                                 && LinkedWith(links, r.0.taskThreads, t, task))
      else if th.state == RemoveThrow then r == (s, Threw(ShuttingDownThread))
      else if th.taskId != task then r == (s, Threw(DedicatedElsewhere))
      else
        && r.1 == Finished(true) && r.0.threads == s.threads && r.0.taskMetrics == s.taskMetrics
        && LinkedWith(s.taskThreads, r.0.taskThreads, t, task)
  }

  lemma DedicationOutcome(s: Core, t: int, task: int)
    requires task >= 0
    ensures Dedicated(s, t, task, StartDedicated(s, t, task))
  {
    hide Remove, Credited, UnlinkedFrom;
    if MustRededicate(s, t, task) {
      RemovalBooks(s, t, s.threads[t].taskId);
      RemovalOfOne(s, t, s.threads[t].taskId);
      var s1 := Remove(s, t, s.threads[t].taskId).0;
      assert LinkedWith(s1.taskThreads, Link(s1, t, task).taskThreads, t, task);
    }
  }

  lemma RemovalOfOne(s: Core, t: int, task: int)
    requires t in s.threads
    ensures OthersKept(s, Remove(s, t, task).0, t)
  {
    hide Increased;
  }

  /** Adding tasks to a pool thread: refused for dedicated, leaving or differently marked threads. */
  ghost predicate PoolJoined(s: Core, isForShuffle: bool, t: int, tasks: set<int>, r: (Core, Outcome))
  {
    if t in s.threads && s.threads[t].taskId != -1 then r == (s, Threw(DedicatedElsewhere))
    else if t in s.threads && s.threads[t].state == RemoveThrow then r == (s, Threw(ShuttingDownThread))
    else if t in s.threads && s.threads[t].isForShuffle != isForShuffle then r == (s, Threw(ShuffleMismatch))
    else
      && r.1 == Finished(true) && OthersKept(s, r.0, t) && t in r.0.threads && r.0.taskThreads == s.taskThreads
      && (t !in s.threads ==>
            IsNew(r.0.threads[t], -1, isForShuffle) && r.0.threads[t].poolTasks == tasks
            && r.0.taskMetrics == s.taskMetrics)
      && (t in s.threads ==>
            var th := s.threads[t];
            && r.0.threads[t] == th.(metrics := Metrics(0, 0), poolTasks := th.poolTasks + tasks)
            && Credited(s.taskMetrics, r.0.taskMetrics, th.poolTasks, th.metrics))
  }

  lemma PoolOutcome(s: Core, isForShuffle: bool, t: int, tasks: set<int>)
    ensures PoolJoined(s, isForShuffle, t, tasks, PoolWorking(s, isForShuffle, t, tasks))
  {
    hide Checkpoint, Credited;
    if t in s.threads {
      CheckpointCredits(s, t);
    } else {
      var s1 := Put(s, t, FreshThread(-1, isForShuffle));
      CheckpointCredits(s1, t);
      NothingCredited(s.taskMetrics, Checkpoint(s1, t).taskMetrics, NO_METRICS);
      assert {} + tasks == tasks;
    }
  }

  lemma NothingCredited(m: map<int, Metrics>, m': map<int, Metrics>, more: Metrics)
    requires Credited(m, m', {}, more)
    ensures m' == m
  {
    assert m.Keys + {} == m.Keys;
    forall task | task in m' ensures m'[task] == m[task] {
    }
    SameMaps(m', m);
  }

  // ----- after a task finished -----

  /**
    All BLOCKED threads run again if there are any; if there is none, all that are BUFN, told to roll back
    or have rolled back. Exactly those are signalled, as far as they sleep.
  */
  lemma FinishWakesExactly(s: Core)
    ensures WakeAfterFinish(s).threads.Keys == s.threads.Keys
    ensures forall i | i in s.threads :: FinishEnds(s, WakeAfterFinish(s), i)
  {
    var states := WakeStates(s.threads);
    assert states == if AnyBlocked(s.threads) then {Blocked} else {Bufn, BufnThrow, BufnWait};
    forall i | i in s.threads ensures FinishEnds(s, WakeAfterFinish(s), i) {
      assert i in InStates(s.threads, states) <==> WokenByFinish(s.threads, s.threads[i].state);
    }
  }

  ghost predicate AnyBlocked(threads: ThreadMap)
  {
    exists i :: i in threads && threads[i].state == Blocked
  }

  ghost predicate WokenByFinish(threads: ThreadMap, state: ThreadState)
  {
    if AnyBlocked(threads) then state == Blocked else state == Bufn || state == BufnThrow || state == BufnWait
  }

  ghost predicate FinishEnds(s: Core, s': Core, i: int)
    requires i in s.threads && i in s'.threads
  {
    var th, woken := s.threads[i], WokenByFinish(s.threads, s.threads[i].state);
    && s'.threads[i] == (if woken then th.(state := Running) else th)
    && (i in s'.notified <==> i in s.notified || (woken && i in s.waiting))
  }

  /** A pool thread that is done with some tasks keeps the others, its counters credited to all it had. */
  lemma PoolKeepsOtherTasks(s: Core, t: int, tasks: set<int>)
    requires t in s.threads && !(s.threads[t].poolTasks <= tasks)
    ensures
      var th, s' := s.threads[t], PoolFinished(s, t, tasks);
      && OthersKept(s, s', t) && t in s'.threads
      && s'.threads[t] == th.(metrics := Metrics(0, 0), poolTasks := th.poolTasks - tasks)
      && Credited(s.taskMetrics, s'.taskMetrics, TasksOf(th), th.metrics)
      && s'.taskThreads == s.taskThreads
  {
    hide Checkpoint, Credited, RemoveAssociation;
    CheckpointCredits(s, t);
    if s.threads[t].poolTasks - tasks == {} {
      forall task | task in s.threads[t].poolTasks ensures task in tasks {
        assert task !in s.threads[t].poolTasks - tasks;
      }
    }
  }

  /** A pool thread that is done with all its tasks has credited all of them before it is removed. */
  lemma PoolCreditsBeforeLeaving(s: Core, t: int, tasks: set<int>)
    requires t in s.threads && s.threads[t].taskId < 0 && s.threads[t].poolTasks <= tasks
    ensures Credited(s.taskMetrics, PoolFinished(s, t, tasks).taskMetrics, s.threads[t].poolTasks, s.threads[t].metrics)
  {
    hide Checkpoint, Credited, Remove, WakeAfterFinish;
    CheckpointCredits(s, t);
    var s1 := Checkpoint(s, t);
    var s2 := Put(s1, t, s1.threads[t].(poolTasks := s1.threads[t].poolTasks - tasks));
    assert s2.threads[t].poolTasks == {};
    RemovalBooks(s2, t, -1);
    NothingCredited(s2.taskMetrics, Remove(s2, t, -1).0.taskMetrics, s2.threads[t].metrics);
    FinishKeepsCounters(Remove(s2, t, -1).0);
  }

  lemma FinishKeepsCounters(s: Core)
    ensures WakeAfterFinish(s).taskMetrics == s.taskMetrics
  {
  }

  /** Reporting resets the retry counters of the task and its linked threads and nothing else. */
  lemma ReportResetsOnlyRetries(s: Core, task: int)
    ensures
      var s' := ResetRetries(s, task);
      && s' == s.(threads := s'.threads, taskMetrics := s'.taskMetrics)
      && s'.threads.Keys == s.threads.Keys && s'.taskMetrics.Keys == s.taskMetrics.Keys
      && (forall i | i in s.threads ::
            s'.threads[i] == if task in s.taskThreads && i in s.taskThreads[task]
                             then s.threads[i].(metrics := s.threads[i].metrics.(retryThrows := 0)) else s.threads[i])
      && (forall other | other in s.taskMetrics ::
            s'.taskMetrics[other] == if other == task then s.taskMetrics[other].(retryThrows := 0)
                                     else s.taskMetrics[other])
  {
  }

  /** Nobody is linked to a task that is done, nor works for it from a pool. */
  lemma DoneTaskIsGone(s: Core, task: int)
    requires PoolsOnly(s.threads) && task >= 0
    ensures task !in TaskDone(s, task).taskThreads
    ensures forall i | i in TaskDone(s, task).threads :: task !in TaskDone(s, task).threads[i].poolTasks
  {
    hide RemoveAll, LeaveAll;
    var r1 := RemoveAll(s, LinkedThreads(s, task), task);
    RemoveAllLeaves(s, LinkedThreads(s, task), task);
    LeaveAllDrops(r1.0, r1.0.threads.Keys, task);
  }

  lemma {:induction false} LeaveAllDrops(s: Core, ids: set<int>, task: int)
    requires PoolsOnly(s.threads)
    ensures Dropped(s.threads, LeaveAll(s, ids, task).0.threads, ids, task)
    decreases ids
  {
    hide LeaveTask;
    if ids != {} {
      var t := MinOf(ids);
      LeaveLeaves(s, t, task);
      LeaveAllDrops(LeaveTask(s, t, task).0, ids - {t}, task);
      DroppedTwice(s.threads, LeaveTask(s, t, task).0.threads, LeaveAll(s, ids, task).0.threads, t, ids - {t}, task);
      assert {t} + (ids - {t}) == ids;
    }
  }

  /** The flag of a dedicated thread is set as asked; any other thread is refused. */
  lemma PoolBlockedOutcome(s: Core, t: int, blocked: bool)
    ensures
      var r := SetPoolBlocked(s, t, blocked);
      if t in s.threads && s.threads[t].taskId >= 0 then
        && r.1 == Finished(true) && OnlyRecord(s, r.0, t)
        && r.0.threads[t] == s.threads[t].(poolBlocked := blocked)
      else r == (s, Threw(NotDedicated))
  {
  }
}
