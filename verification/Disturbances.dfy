/** Every operation, seen from the threads that did not call it, is a disturbance. */
module Disturbances {
  import opened Collections
  import opened Threads
  import opened Deadlock
  import opened Scheduler
  import opened DeadlockBreaking
  import opened Runs

  /** A disturbance in which no entry disappears. */
  ghost predicate Stirred(s: Core, s': Core, round: bool)
  {
    Disturbed(s, s', round) && s'.threads.Keys == s.threads.Keys
  }

  lemma RoundDisturbs(s: Core, java: JavaBlocked)
    requires HasTarget(s.threads)
    ensures Stirred(s, CheckAndUpdate(s, java), true)
  {
    hide CheckAndUpdate, Deadlocked, AllBufn, LowestBlocked, HighestBufn;
    RoundEffect(s, java);
    var s' := CheckAndUpdate(s, java);
    forall i | i in s'.threads ensures Nudged(s.threads[i], s'.threads[i], Signalled(s', i), true) {
      assert RoundMoves(s, java, s', i);
    }
  }

  /** `wake_next_highest_priority_blocked` wakes the unique highest thread BLOCKED on that kind, if any. */
  lemma WakeNextEffect(s: Core, cpu: bool)
    ensures OnlyThreadsMove(s, WakeNext(s, cpu))
    ensures forall i | i in s.threads ::
      || (WakeNext(s, cpu).threads[i] == s.threads[i])
      || (&& s.threads[i].state == Blocked && HighestBlockedFor(WakeNext(s, cpu).prio, s.threads, cpu, i)
          && Signalled(WakeNext(s, cpu), i)
          && WakeNext(s, cpu).threads[i] == s.threads[i].(state := Running))
    ensures (exists i :: i in s.threads && Selected(BlockedFor(cpu), s.threads[i])) ==>
      exists i :: i in s.threads && s.threads[i].state == Blocked && WakeNext(s, cpu).threads[i].state == Running
  {
    hide FullScan, Best;
    var s' := WakeNext(s, cpu);
    var prio := FullScan(s.prio, s.threads, BlockedFor(cpu));
    match Best(prio, s.threads, BlockedFor(cpu), false)
    case None =>
    case Some(w) =>
      assert s'.threads.Keys == s.threads.Keys;
      assert HighestBlockedFor(s'.prio, s.threads, cpu, w);
      assert s.threads[w].state == Blocked && s'.threads[w].state == Running;
  }

  lemma WakeNextDisturbs(s: Core, cpu: bool)
    ensures Stirred(s, WakeNext(s, cpu), false)
  {
    hide WakeNext, HighestBlockedFor;
    WakeNextEffect(s, cpu);
  }

  lemma CheckpointDisturbs(s: Core, t: int)
    requires t in s.threads
    ensures Stirred(s, Checkpoint(s, t), false)
    ensures forall i | i in s.threads && i != t :: Checkpoint(s, t).threads[i] == s.threads[i]
    ensures Checkpoint(s, t).threads[t] == s.threads[t].(metrics := NO_METRICS)
  {
  }

  /** A removal touches one thread only, and a BLOCKED or BUFN thread survives it, told to throw. */
  ghost predicate RemovesOne(s: Core, s': Core, t: int)
  {
    && Disturbed(s, s', false)
    && (forall i | i in s.threads && i != t :: i in s'.threads && s'.threads[i] == s.threads[i])
    && (t in s.threads && IsBlocked(s.threads[t].state) ==>
          t in s'.threads && (IsBlocked(s'.threads[t].state) || s'.threads[t].state == RemoveThrow))
  }

  lemma ExpelDisturbs(s: Core, t: int, task: int)
    requires t in s.threads
    ensures RemovesOne(s, Expel(s, t, task).0, t)
  {
  }

  lemma DetachDisturbs(s: Core, t: int, task: int)
    requires t in s.threads
    ensures RemovesOne(s, Detach(s, t, task).0, t)
  {
    hide Expel;
    var s1 := Put(s, t, s.threads[t].(poolTasks := s.threads[t].poolTasks - {task}));
    assert RemovesOne(s, s1, t);
    ExpelDisturbs(s, t, task);
    ExpelDisturbs(s1, t, task);
    DisturbedTwice(s, s1, Expel(s1, t, task).0, false);
  }

  lemma RemoveDisturbs(s: Core, t: int, task: int)
    ensures RemovesOne(s, Remove(s, t, task).0, t)
  {
    hide Checkpoint, Detach;
    if t in s.threads {
      CheckpointDisturbs(s, t);
      DetachDisturbs(Checkpoint(s, t), t, task);
      DisturbedTwice(s, Checkpoint(s, t), Remove(s, t, task).0, false);
    }
  }

  lemma LeaveDisturbs(s: Core, t: int, task: int)
    ensures RemovesOne(s, LeaveTask(s, t, task).0, t)
  {
    hide Remove;
    if t in s.threads && task in s.threads[t].poolTasks {
      var s1 := Put(s, t, s.threads[t].(poolTasks := s.threads[t].poolTasks - {task}));
      assert RemovesOne(s, s1, t);
      RemoveDisturbs(s1, t, task);
      DisturbedTwice(s, s1, Remove(s1, t, task).0, false);
    }
  }

  lemma {:induction false} RemoveAllDisturbs(s: Core, ids: set<int>, task: int)
    ensures Disturbed(s, RemoveAll(s, ids, task).0, false)
    decreases ids
  {
    hide Remove;
    if ids != {} {
      var t := MinOf(ids);
      var s1 := Remove(s, t, task).0;
      RemoveDisturbs(s, t, task);
      RemoveAllDisturbs(s1, ids - {t}, task);
      DisturbedTwice(s, s1, RemoveAll(s1, ids - {t}, task).0, false);
    }
  }

  lemma {:induction false} LeaveAllDisturbs(s: Core, ids: set<int>, task: int)
    ensures Disturbed(s, LeaveAll(s, ids, task).0, false)
    decreases ids
  {
    hide LeaveTask;
    if ids != {} {
      var t := MinOf(ids);
      var s1 := LeaveTask(s, t, task).0;
      LeaveDisturbs(s, t, task);
      LeaveAllDisturbs(s1, ids - {t}, task);
      DisturbedTwice(s, s1, LeaveAll(s1, ids - {t}, task).0, false);
    }
  }

  lemma WakeIfDisturbs(r: (Core, bool))
    ensures Stirred(r.0, WakeIf(r), false)
  {
  }

  lemma RemoveAssociationDisturbs(s: Core, t: int, task: int)
    ensures Disturbed(s, RemoveAssociation(s, t, task), false)
  {
    hide Remove, WakeIf;
    RemoveDisturbs(s, t, task);
    WakeIfDisturbs(Remove(s, t, task));
    DisturbedTwice(s, Remove(s, t, task).0, RemoveAssociation(s, t, task), false);
  }

  lemma TaskDoneDisturbs(s: Core, task: int)
    ensures Disturbed(s, TaskDone(s, task), false)
  {
    hide RemoveAll, LeaveAll, WakeIf;
    var ids := if task in s.taskThreads then s.taskThreads[task] else {};
    var r1 := RemoveAll(s, ids, task);
    var r2 := LeaveAll(r1.0, r1.0.threads.Keys, task);
    RemoveAllDisturbs(s, ids, task);
    LeaveAllDisturbs(r1.0, r1.0.threads.Keys, task);
    DisturbedTwice(s, r1.0, r2.0, false);
    WakeIfDisturbs((r2.0, r1.1 || r2.1));
    DisturbedTwice(s, r2.0, WakeIf((r2.0, r1.1 || r2.1)), false);
  }

  lemma PoolFinishedDisturbs(s: Core, t: int, tasks: set<int>)
    ensures Disturbed(s, PoolFinished(s, t, tasks), false)
  {
    hide RemoveAssociation;
    if t in s.threads {
      var s1 := Checkpoint(s, t);
      var s2 := Put(s1, t, s1.threads[t].(poolTasks := s1.threads[t].poolTasks - tasks));
      CheckpointDisturbs(s, t);
      assert Disturbed(s, s2, false);
      RemoveAssociationDisturbs(s2, t, -1);
      DisturbedTwice(s, s2, RemoveAssociation(s2, t, -1), false);
    }
  }

  lemma ResetRetriesDisturbs(s: Core, task: int)
    ensures Stirred(s, ResetRetries(s, task), false)
  {
  }
}
