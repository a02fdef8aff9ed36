/** Who leaves when threads are removed or a task is done: told in terms of the state before. */
module Leavers {
  import opened Collections
  import opened Threads
  import opened Scheduler
  import opened Runs
  import opened TaskDoneOrder

  /** Only pool threads have pool tasks. */
  ghost predicate PoolsOnly(threads: ThreadMap)
  {
    forall i | i in threads && threads[i].taskId >= 0 :: threads[i].poolTasks == {}
  }

  /** Removing the thread from the task ends its registration. */
  predicate Goes(th: Thread, task: int)
  {
    task < 0 || th.taskId == task || (th.taskId < 0 && th.poolTasks - {task} == {})
  }

  /**
    Sleeping leavers are told to throw and the others are erased; whoever stays keeps state and task.
    A wake-up is due exactly when a RUNNING thread leaves.
  */
  ghost predicate LeftBy(a: ThreadMap, b: ThreadMap, ran: bool, leavers: set<int>)
  {
    && leavers <= a.Keys && b.Keys <= a.Keys
    && (forall i | i in a && i !in leavers :: i in b && b[i].state == a[i].state && b[i].taskId == a[i].taskId)
    && (forall i | i in leavers && IsBlocked(a[i].state) :: i in b && b[i].state == RemoveThrow)
    && (forall i | i in leavers && !IsBlocked(a[i].state) :: i !in b)
    && (ran <==> exists i :: i in leavers && a[i].state == Running)
  }

  lemma LeftTwice(a: ThreadMap, b: ThreadMap, c: ThreadMap, r1: bool, r2: bool, l1: set<int>, l2: set<int>)
    requires LeftBy(a, b, r1, l1) && LeftBy(b, c, r2, l2) && l1 !! l2
    ensures LeftBy(a, c, r1 || r2, l1 + l2)
  {
    if i :| i in l1 && a[i].state == Running {
      assert i in l1 + l2;
    }
    if i :| i in l2 && b[i].state == Running {
      assert i in l1 + l2 && a[i].state == Running;
    }
  }

  /** Only the given threads' records differ, and those that remain do not work on the task from a pool. */
  ghost predicate Dropped(a: ThreadMap, b: ThreadMap, ids: set<int>, task: int)
  {
    && b.Keys <= a.Keys
    && (forall i | i in a && i !in ids :: i in b && b[i] == a[i])
    && (forall i | i in b && i in ids :: task !in b[i].poolTasks)
    && PoolsOnly(b)
  }

  // ----- removing one thread from a task -----

  function Gone(threads: ThreadMap, ids: set<int>, task: int): set<int>
  {
    set i | i in threads && i in ids && Goes(threads[i], task)
  }

  lemma ExpelLeaves(s: Core, t: int, task: int)
    requires t in s.threads
    ensures LeftBy(s.threads, Expel(s, t, task).0.threads, Expel(s, t, task).1, {t})
    ensures forall i | i in s.threads && i != t ::
      i in Expel(s, t, task).0.threads && Expel(s, t, task).0.threads[i] == s.threads[i]
    ensures t in Expel(s, t, task).0.threads ==>
      Expel(s, t, task).0.threads[t] == s.threads[t].(state := RemoveThrow)
  {
    assert t in {t};
  }

  lemma QuietlyLeft(a: ThreadMap, t: int, th: Thread)
    requires t in a && th.state == a[t].state && th.taskId == a[t].taskId
    ensures LeftBy(a, a[t := th], false, {})
  {
  }

  /** The record a thread shows before it is expelled or kept. */
  function Stripped(th: Thread, task: int): Thread
  {
    var bare := th.(metrics := NO_METRICS);
    if task < 0 || th.taskId >= 0 then bare else bare.(poolTasks := bare.poolTasks - {task})
  }

  lemma RemoveStrips(s: Core, t: int, task: int) returns (s1: Core)
    requires t in s.threads
    ensures s1.threads == s.threads[t := Stripped(s.threads[t], task)]
    ensures Remove(s, t, task) == if Goes(s.threads[t], task) then Expel(s1, t, task) else (s1, false)
  {
    hide Expel, Increased;
    var bare := s.threads[t].(metrics := NO_METRICS);
    s1 := Checkpoint(s, t);
    assert s1.threads == s.threads[t := bare];
    if task >= 0 && s.threads[t].taskId < 0 {
      s1 := Put(s1, t, Stripped(s.threads[t], task));
    }
  }

  lemma ExpelLeavesStripped(a: ThreadMap, s1: Core, t: int, task: int)
    requires t in a && s1.threads == a[t := Stripped(a[t], task)]
    ensures LeftBy(a, Expel(s1, t, task).0.threads, Expel(s1, t, task).1, {t})
  {
    hide Expel, LeftBy;
    QuietlyLeft(a, t, Stripped(a[t], task));
    ExpelLeaves(s1, t, task);
    LeftTwice(a, s1.threads, Expel(s1, t, task).0.threads, false, Expel(s1, t, task).1, {}, {t});
    assert {} + {t} == {t};
  }

  lemma RemoveLeaves(s: Core, t: int, task: int)
    ensures LeftBy(s.threads, Remove(s, t, task).0.threads, Remove(s, t, task).1, Gone(s.threads, {t}, task))
  {
    hide Expel, LeftBy, Remove, Goes, Stripped;
    var a := s.threads;
    if t !in a {
      AbsentIsNotRemoved(s, t, task);
      assert Gone(a, {t}, task) == {};
      NobodyLeft(a);
    } else {
      var s1 := RemoveStrips(s, t, task);
      if Goes(a[t], task) {
        assert Gone(a, {t}, task) == {t};
        ExpelLeavesStripped(a, s1, t, task);
      } else {
        assert Gone(a, {t}, task) == {};
        StrippedKeeps(a[t], task);
        QuietlyLeft(a, t, Stripped(a[t], task));
      }
    }
  }

  lemma AbsentIsNotRemoved(s: Core, t: int, task: int)
    requires t !in s.threads
    ensures Remove(s, t, task) == (s, false)
  {
  }

  lemma StrippedKeeps(th: Thread, task: int)
    ensures Stripped(th, task).state == th.state && Stripped(th, task).taskId == th.taskId
    ensures task >= 0 && (th.taskId >= 0 ==> th.poolTasks == {}) ==> task !in Stripped(th, task).poolTasks
    ensures th.taskId >= 0 ==> Stripped(th, task).poolTasks == th.poolTasks
  {
  }

  lemma RemoveDrops(s: Core, t: int, task: int)
    requires PoolsOnly(s.threads) && task >= 0
    ensures Dropped(s.threads, Remove(s, t, task).0.threads, {t}, task)
  {
    hide Expel, Remove, Goes, Stripped;
    if t !in s.threads {
      AbsentIsNotRemoved(s, t, task);
    } else {
      var s1 := RemoveStrips(s, t, task);
      StrippedKeeps(s.threads[t], task);
      ExpelLeaves(s1, t, task);
    }
  }

  lemma NobodyLeft(a: ThreadMap)
    ensures LeftBy(a, a, false, {})
  {
  }

  lemma {:induction false} RemoveAllLeaves(s: Core, ids: set<int>, task: int)
    requires PoolsOnly(s.threads) && task >= 0
    ensures
      var r := RemoveAll(s, ids, task);
      && LeftBy(s.threads, r.0.threads, r.1, Gone(s.threads, ids, task))
      && Dropped(s.threads, r.0.threads, ids, task)
    decreases ids
  {
    hide Remove, LeftBy, Goes;
    var a := s.threads;
    if ids == {} {
      assert Gone(a, {}, task) == {};
      NobodyLeft(a);
    } else {
      var t := MinOf(ids);
      var r, rest := Remove(s, t, task), ids - {t};
      var b := r.0.threads;
      RemoveLeaves(s, t, task);
      RemoveDrops(s, t, task);
      RemoveAllLeaves(r.0, rest, task);
      var q := RemoveAll(r.0, rest, task);
      GoneElsewhere(a, b, t, rest, task);
      LeftTwice(a, b, q.0.threads, r.1, q.1, Gone(a, {t}, task), Gone(b, rest, task));
      DroppedTwice(a, b, q.0.threads, t, rest, task);
      assert {t} + rest == ids;
    }
  }

  lemma GoneElsewhere(a: ThreadMap, b: ThreadMap, t: int, rest: set<int>, task: int)
    requires Dropped(a, b, {t}, task) && t !in rest
    ensures Gone(b, rest, task) == Gone(a, rest, task)
    ensures Gone(a, {t}, task) !! Gone(b, rest, task)
    ensures Gone(a, {t}, task) + Gone(b, rest, task) == Gone(a, {t} + rest, task)
  {
    hide Goes;
    forall i ensures i in Gone(b, rest, task) <==> i in Gone(a, rest, task) {
      if i in b {
        assert i in b.Keys;
        assert i in a;
      }
    }
  }

  lemma DroppedTwice(a: ThreadMap, b: ThreadMap, c: ThreadMap, t: int, rest: set<int>, task: int)
    requires Dropped(a, b, {t}, task) && Dropped(b, c, rest, task) && t !in rest
    ensures Dropped(a, c, {t} + rest, task)
  {
    forall i | i in c && i in {t} + rest ensures task !in c[i].poolTasks {
      if i == t {
        assert i in c.Keys;
        assert i in b;
      }
    }
  }

  // ----- dropping a finished task -----

  function Emptying(threads: ThreadMap, ids: set<int>, task: int): set<int>
  {
    set i | i in threads && i in ids && threads[i].poolTasks == {task}
  }

  lemma LeaveLeaves(s: Core, t: int, task: int)
    requires PoolsOnly(s.threads)
    ensures
      LeftBy(s.threads, LeaveTask(s, t, task).0.threads, LeaveTask(s, t, task).1, Emptying(s.threads, {t}, task))
    ensures Dropped(s.threads, LeaveTask(s, t, task).0.threads, {t}, task)
  {
    hide LeaveTask, Unlink, Credit, LeavingOf;
    var a := s.threads;
    if t !in a {
      AbsentLeaves(s, t, task);
      assert Emptying(a, {t}, task) == {};
    } else {
      LeavesOnItsOwn(s, t, task);
      if a[t].poolTasks == {task} {
        LastTaskLeaving(a[t], task);
        assert Emptying(a, {t}, task) == {t};
        assert t in {t};
      } else {
        OtherTaskLeaving(a[t], task);
        assert Emptying(a, {t}, task) == {};
      }
    }
  }

  lemma EmptyingElsewhere(a: ThreadMap, b: ThreadMap, t: int, rest: set<int>, task: int)
    requires Dropped(a, b, {t}, task) && t !in rest
    ensures Emptying(a, {t}, task) !! Emptying(b, rest, task)
    ensures Emptying(a, {t}, task) + Emptying(b, rest, task) == Emptying(a, {t} + rest, task)
  {
    forall i ensures i in Emptying(b, rest, task) <==> i in Emptying(a, rest, task) {
      if i in b {
        assert i in b.Keys;
        assert i in a;
      }
    }
  }

  lemma {:induction false} LeaveAllLeaves(s: Core, ids: set<int>, task: int)
    requires PoolsOnly(s.threads)
    ensures
      LeftBy(s.threads, LeaveAll(s, ids, task).0.threads, LeaveAll(s, ids, task).1, Emptying(s.threads, ids, task))
    decreases ids
  {
    hide LeaveTask, LeftBy;
    var a := s.threads;
    if ids == {} {
      assert Emptying(a, {}, task) == {};
      NobodyLeft(a);
    } else {
      var t := MinOf(ids);
      var r, rest := LeaveTask(s, t, task), ids - {t};
      LeaveLeaves(s, t, task);
      LeaveAllLeaves(r.0, rest, task);
      var q := LeaveAll(r.0, rest, task);
      EmptyingElsewhere(a, r.0.threads, t, rest, task);
      LeftTwice(a, r.0.threads, q.0.threads, r.1, q.1, Emptying(a, {t}, task), Emptying(r.0.threads, rest, task));
      assert {t} + rest == ids;
    }
  }

  // ----- a task is done -----

  /** The threads that leave with a task: those linked to it that have no other, and pool threads with no other. */
  function Finishing(s: Core, task: int): set<int>
  {
    var linked := LinkedThreads(s, task);
    set i | i in s.threads && ((i in linked && Goes(s.threads[i], task)) || s.threads[i].poolTasks == {task})
  }

  /** Both loops of `task_done`, before anybody is woken. */
  ghost function Dismissed(s: Core, task: int): (Core, bool)
  {
    var r1 := RemoveAll(s, LinkedThreads(s, task), task);
    var r2 := LeaveAll(r1.0, r1.0.threads.Keys, task);
    (r2.0, r1.1 || r2.1)
  }

  lemma TaskDoneLeaves(s: Core, task: int)
    requires PoolsOnly(s.threads) && task >= 0
    ensures LeftBy(s.threads, Dismissed(s, task).0.threads, Dismissed(s, task).1, Finishing(s, task))
    ensures TaskDone(s, task).threads == WakeIf(Dismissed(s, task)).threads
  {
    hide RemoveAll, LeaveAll, LeftBy, Goes, WakeIf;
    var a, linked := s.threads, LinkedThreads(s, task);
    var r1 := RemoveAll(s, linked, task);
    var b := r1.0.threads;
    var r2 := LeaveAll(r1.0, b.Keys, task);
    RemoveAllLeaves(s, linked, task);
    LeaveAllLeaves(r1.0, b.Keys, task);
    FinishingSplits(s, b, linked, task);
    LeftTwice(a, b, r2.0.threads, r1.1, r2.1, Gone(a, linked, task), Emptying(b, b.Keys, task));
  }

  lemma FinishingSplits(s: Core, b: ThreadMap, linked: set<int>, task: int)
    requires linked == LinkedThreads(s, task)
    requires Dropped(s.threads, b, linked, task) && PoolsOnly(s.threads)
    ensures Gone(s.threads, linked, task) !! Emptying(b, b.Keys, task)
    ensures Gone(s.threads, linked, task) + Emptying(b, b.Keys, task) == Finishing(s, task)
  {
    var a := s.threads;
    forall i | i in Emptying(b, b.Keys, task) ensures i in a && i !in linked && b[i] == a[i] {
      assert i in b.Keys;
      assert i in a;
    }
    forall i | i in Finishing(s, task) ensures i in Gone(a, linked, task) + Emptying(b, b.Keys, task) {
      if a[i].poolTasks == {task} && i in linked {
        assert task in a[i].poolTasks;
        assert a[i].taskId < 0;
        assert {task} - {task} == {};
      }
    }
  }
}
