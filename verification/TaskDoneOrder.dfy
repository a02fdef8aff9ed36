/**
  Dropping a finished task from the pool threads gives the same result in every order of threads, which
  matters because `task_done` walks an unordered set of them.
*/
module TaskDoneOrder {
  import opened Collections
  import opened Threads
  import opened Scheduler

  /**
    What dropping a task does to one thread, whatever the other threads are: the record it leaves behind,
    the metrics it credits to some tasks, and whether the thread is unlinked, signalled, or ran.
  */
  datatype Leaving =
    Leaving(stays: Option<Thread>, tasks: set<int>, metrics: Metrics, unlinked: bool, told: bool, ran: bool)

  function Quiet(th: Thread): Leaving
  {
    Leaving(Some(th), {}, NO_METRICS, false, false, false)
  }

  /** The tasks that get the metrics of a thread with no pool task left. */
  function Dedication(th: Thread): set<int>
  {
    if th.taskId < 0 then {} else {th.taskId}
  }

  function LeavingOf(th: Thread, task: int): Leaving
  {
    var rest := th.(poolTasks := th.poolTasks - {task});
    if task !in th.poolTasks then Quiet(th)
    else if rest.poolTasks != {} then Quiet(rest)
    else
      var bare := rest.(metrics := NO_METRICS);
      if th.taskId >= 0 && th.taskId != task && task >= 0
      then Leaving(Some(bare), Dedication(th), th.metrics, false, false, false)
      else if IsBlocked(th.state)
      then Leaving(Some(bare.(state := RemoveThrow)), Dedication(th), th.metrics, true, true, false)
      else Leaving(None, Dedication(th), th.metrics, true, false, th.state == Running)
  }

  function KeepOrErase(threads: ThreadMap, t: int, stays: Option<Thread>): ThreadMap
  {
    match stays
    case None => threads - {t}
    case Some(th) => threads[t := th]
  }

  function Unlink(links: map<int, set<int>>, t: int, task: int, unlinked: bool): map<int, set<int>>
  {
    if unlinked && task >= 0 && task in links then links[task := links[task] - {t}] else links
  }

  function Credit(m: map<int, Metrics>, tasks: set<int>, more: Metrics): map<int, Metrics>
  {
    m + Increased(m, tasks, more)
  }

  function Carry(s: Core, t: int, task: int, l: Leaving): Core
  {
    Core(KeepOrErase(s.threads, t, l.stays),
         Unlink(s.taskThreads, t, task, l.unlinked),
         Credit(s.taskMetrics, l.tasks, l.metrics),
         s.prio, s.waiting,
         s.notified + if l.told then {t} * s.waiting else {})
  }

  lemma QuietCarry(s: Core, t: int, task: int, th: Thread)
    ensures Carry(s, t, task, Quiet(th)) == Put(s, t, th)
  {
    assert Credit(s.taskMetrics, {}, NO_METRICS) == s.taskMetrics;
  }

  /** The state in which the thread has credited its metrics and has no task left. */
  function Emptied(s: Core, t: int, th: Thread): Core
  {
    Put(s, t, th.(poolTasks := {}, metrics := NO_METRICS))
      .(taskMetrics := Credit(s.taskMetrics, Dedication(th), th.metrics))
  }

  lemma LastTaskLeaving(th: Thread, task: int)
    requires th.poolTasks == {task}
    ensures
      var bare := th.(poolTasks := {}, metrics := NO_METRICS);
      LeavingOf(th, task) ==
        if th.taskId >= 0 && th.taskId != task && task >= 0
        then Leaving(Some(bare), Dedication(th), th.metrics, false, false, false)
        else if IsBlocked(th.state)
        then Leaving(Some(bare.(state := RemoveThrow)), Dedication(th), th.metrics, true, true, false)
        else Leaving(None, Dedication(th), th.metrics, true, false, th.state == Running)
  {
    assert {task} - {task} == {};
  }

  lemma OtherTaskLeaving(th: Thread, task: int)
    requires th.poolTasks != {task}
    ensures LeavingOf(th, task) == Quiet(th.(poolTasks := th.poolTasks - {task}))
  {
    if task in th.poolTasks {
      var other := MissingMember({task}, th.poolTasks);
      assert other in th.poolTasks - {task};
    } else {
      assert th.poolTasks - {task} == th.poolTasks;
    }
  }

  lemma ToldOnItsOwn(s: Core, t: int, th: Thread, task: int)
    requires IsBlocked(th.state)
    ensures
      var told := th.(poolTasks := {}, metrics := NO_METRICS, state := RemoveThrow);
      Expel(Emptied(s, t, th), t, task) ==
        (Carry(s, t, task, Leaving(Some(told), Dedication(th), th.metrics, true, true, false)), false)
  {
    hide Credit;
    var bare := th.(poolTasks := {}, metrics := NO_METRICS);
    var told := bare.(state := RemoveThrow);
    assert s.threads[t := bare][t := told] == s.threads[t := told];
  }

  lemma ErasedOnItsOwn(s: Core, t: int, th: Thread, task: int)
    requires !IsBlocked(th.state)
    ensures
      var ran := th.state == Running;
      Expel(Emptied(s, t, th), t, task) ==
        (Carry(s, t, task, Leaving(None, Dedication(th), th.metrics, true, false, ran)), ran)
  {
    hide Credit;
    var bare := th.(poolTasks := {}, metrics := NO_METRICS);
    assert s.threads[t := bare] - {t} == s.threads - {t};
    assert s.notified + {} == s.notified;
  }

  lemma DetachesTo(s: Core, t: int, th: Thread, task: int)
    ensures
      var e := Emptied(s, t, th);
      t in e.threads &&
      Detach(e, t, task) ==
        if th.taskId >= 0 && th.taskId != task && task >= 0 then (e, false) else Expel(e, t, task)
  {
    hide Expel, Credit;
    var e := Emptied(s, t, th);
    var bare := th.(poolTasks := {}, metrics := NO_METRICS);
    assert bare.(poolTasks := {} - {task}) == bare;
    assert Put(e, t, bare).threads == e.threads;
  }

  lemma RemovesTo(s: Core, t: int, task: int)
    requires t in s.threads && s.threads[t].poolTasks == {task}
    ensures LeaveTask(s, t, task) == Detach(Emptied(s, t, s.threads[t]), t, task)
  {
    hide Detach;
    var th := s.threads[t];
    assert {task} - {task} == {};
    var s1 := Put(s, t, th.(poolTasks := {}));
    assert s.threads[t := th.(poolTasks := {})][t := th.(poolTasks := {}, metrics := NO_METRICS)]
        == s.threads[t := th.(poolTasks := {}, metrics := NO_METRICS)];
    assert Checkpoint(s1, t) == Emptied(s, t, th);
  }

  /** Each thread's leaving is its own affair. */
  lemma LeavesOnItsOwn(s: Core, t: int, task: int)
    requires t in s.threads
    ensures
      var l := LeavingOf(s.threads[t], task);
      LeaveTask(s, t, task) == (Carry(s, t, task, l), l.ran)
  {
    hide Increased, Carry, Detach, Expel, Remove;
    var th := s.threads[t];
    var rest := th.(poolTasks := th.poolTasks - {task});
    if task !in th.poolTasks {
      QuietCarry(s, t, task, th);
      assert s.threads[t := th] == s.threads;
    } else if rest.poolTasks != {} {
      QuietCarry(s, t, task, rest);
    } else {
      assert th.poolTasks == {task};
      LastTaskLeaving(th, task);
      RemovesTo(s, t, task);
      DetachesTo(s, t, th, task);
      if th.taskId >= 0 && th.taskId != task && task >= 0 {
        StaysOnItsOwn(s, t, th, task);
      } else if IsBlocked(th.state) {
        ToldOnItsOwn(s, t, th, task);
      } else {
        ErasedOnItsOwn(s, t, th, task);
      }
    }
  }

  lemma StaysOnItsOwn(s: Core, t: int, th: Thread, task: int)
    requires th.poolTasks == {task} && th.taskId >= 0 && th.taskId != task && task >= 0
    ensures Emptied(s, t, th) == Carry(s, t, task, LeavingOf(th, task)) && !LeavingOf(th, task).ran
  {
    hide Credit;
    assert {task} - {task} == {};
  }

  // ----- two threads in either order -----

  lemma CreditsCommute(m: map<int, Metrics>, a: set<int>, x: Metrics, b: set<int>, y: Metrics)
    ensures Credit(Credit(m, a, x), b, y) == Credit(Credit(m, b, y), a, x)
  {
    var one, two := Credit(Credit(m, a, x), b, y), Credit(Credit(m, b, y), a, x);
    SameMembers(one.Keys, two.Keys);
    forall task | task in one ensures one[task] == two[task] {
    }
    SameMaps(one, two);
  }

  lemma UnlinksCommute(links: map<int, set<int>>, t: int, u: int, task: int, a: bool, b: bool)
    ensures Unlink(Unlink(links, t, task, a), u, task, b) == Unlink(Unlink(links, u, task, b), t, task, a)
  {
    if a && b && task in links {
      assert links[task] - {t} - {u} == links[task] - {u} - {t};
    }
  }

  lemma RecordsCommute(threads: ThreadMap, t: int, u: int, a: Option<Thread>, b: Option<Thread>)
    requires t != u
    ensures KeepOrErase(KeepOrErase(threads, t, a), u, b) == KeepOrErase(KeepOrErase(threads, u, b), t, a)
  {
  }

  lemma CarriesCommute(s: Core, t: int, u: int, task: int, l: Leaving, k: Leaving)
    requires t != u
    ensures Carry(Carry(s, t, task, l), u, task, k) == Carry(Carry(s, u, task, k), t, task, l)
  {
    hide KeepOrErase, Unlink, Credit;
    RecordsCommute(s.threads, t, u, l.stays, k.stays);
    UnlinksCommute(s.taskThreads, t, u, task, l.unlinked, k.unlinked);
    CreditsCommute(s.taskMetrics, l.tasks, l.metrics, k.tasks, k.metrics);
  }

  /** A thread's record is not touched by another thread's leaving. */
  lemma OthersUntouched(s: Core, t: int, u: int, task: int)
    requires t != u
    ensures u in LeaveTask(s, t, task).0.threads <==> u in s.threads
    ensures u in s.threads ==> LeaveTask(s, t, task).0.threads[u] == s.threads[u]
  {
    hide LeaveTask, LeavingOf, Unlink, Credit;
    if t in s.threads {
      LeavesOnItsOwn(s, t, task);
    } else {
      AbsentLeaves(s, t, task);
    }
  }

  lemma AbsentLeaves(s: Core, t: int, task: int)
    requires t !in s.threads
    ensures LeaveTask(s, t, task) == (s, false)
  {
  }

  lemma LeavingsCommute(s: Core, t: int, u: int, task: int)
    requires t != u
    ensures
      var r1, q1 := LeaveTask(s, t, task), LeaveTask(s, u, task);
      var r2, q2 := LeaveTask(r1.0, u, task), LeaveTask(q1.0, t, task);
      r2.0 == q2.0 && r2.1 == q1.1 && q2.1 == r1.1
  {
    hide LeaveTask, LeavingOf, Carry;
    var s1, s2 := LeaveTask(s, t, task).0, LeaveTask(s, u, task).0;
    OthersUntouched(s, t, u, task);
    OthersUntouched(s, u, t, task);
    if t !in s.threads {
      AbsentLeaves(s, t, task);
      AbsentLeaves(s2, t, task);
    } else if u !in s.threads {
      AbsentLeaves(s, u, task);
      AbsentLeaves(s1, u, task);
    } else {
      LeavesOnItsOwn(s, t, task);
      LeavesOnItsOwn(s, u, task);
      LeavesOnItsOwn(s1, u, task);
      LeavesOnItsOwn(s2, t, task);
      CarriesCommute(s, t, u, task, LeavingOf(s.threads[t], task), LeavingOf(s.threads[u], task));
    }
  }

  // ----- any order -----

  /** Any thread may go first. */
  lemma {:induction false} AnyoneMayGoFirst(s: Core, ids: set<int>, task: int, u: int)
    requires u in ids
    ensures
      var r := LeaveTask(s, u, task);
      var rest := LeaveAll(r.0, ids - {u}, task);
      LeaveAll(s, ids, task) == (rest.0, r.1 || rest.1)
    decreases ids
  {
    hide LeaveTask;
    var t := MinOf(ids);
    if t != u {
      var s1, s2 := LeaveTask(s, t, task).0, LeaveTask(s, u, task).0;
      AnyoneMayGoFirst(s1, ids - {t}, task, u);
      LeavingsCommute(s, t, u, task);
      var others := ids - {u};
      assert t in others && MinOf(others) == t;
      assert ids - {t} - {u} == ids - {u} - {t};
    }
  }

  /** The threads drop the task one after the other, in the order given. */
  function LeaveInOrder(s: Core, order: seq<int>, task: int): (Core, bool)
    decreases |order|
  {
    if order == [] then (s, false)
    else
      var r := LeaveTask(s, order[0], task);
      var rest := LeaveInOrder(r.0, order[1..], task);
      (rest.0, r.1 || rest.1)
  }

  predicate NoRepeats(order: seq<int>)
  {
    forall i, j | 0 <= i < j < |order| :: order[i] != order[j]
  }

  /** Whatever order the set of thread ids is walked in, the result is the same. */
  lemma {:induction false} OrderDoesNotMatter(s: Core, order: seq<int>, ids: set<int>, task: int)
    requires NoRepeats(order) && (forall t :: t in ids <==> t in order)
    ensures LeaveInOrder(s, order, task) == LeaveAll(s, ids, task)
    decreases |order|
  {
    hide LeaveTask;
    if order == [] {
      forall t ensures t !in ids {
        assert t in ids <==> t in order;
      }
      NoMemberIsEmpty(ids);
    } else {
      var t, rest := order[0], order[1..];
      assert t in ids <==> t in order;
      forall u ensures u in ids - {t} <==> u in rest {
        if u in rest {
          var i :| 0 <= i < |rest| && rest[i] == u;
          assert order[0] != order[i + 1];
        }
        if u in order && u != t {
          var i :| 0 <= i < |order| && order[i] == u;
          assert rest[i - 1] == u;
        }
      }
      OrderDoesNotMatter(LeaveTask(s, t, task).0, rest, ids - {t}, task);
      AnyoneMayGoFirst(s, ids, task, t);
    }
  }
}
