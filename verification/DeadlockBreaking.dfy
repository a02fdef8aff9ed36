/** What one round of deadlock breaking does, and that rounds make progress. */
module DeadlockBreaking {
  import opened Collections
  import opened TaskPriority
  import opened Threads
  import opened Deadlock
  import opened Scheduler

  /** Only thread records, the priority table and pending signals differ. */
  ghost predicate OnlyThreadsMove(s: Core, s': Core)
  {
    && s'.threads.Keys == s.threads.Keys
    && s'.taskThreads == s.taskThreads && s'.taskMetrics == s.taskMetrics
    && s'.waiting == s.waiting
    && s.notified <= s'.notified <= s.notified + s.waiting
    && Extends(s.prio, s'.prio) && (Valid(s.prio) ==> Valid(s'.prio))
  }

  ghost predicate Signalled(s': Core, t: int) { t in s'.waiting ==> t in s'.notified }

  /** The thread is the unique lowest BLOCKED one under the table's ranks. */
  ghost predicate LowestBlocked(t: Table, threads: ThreadMap, i: int)
  {
    Ranked(t, threads, AnyBlocked) && IsBest(t, threads, threads.Keys, AnyBlocked, true, i)
  }

  /** The thread is the unique highest BUFN one under the table's ranks. */
  ghost predicate HighestBufn(t: Table, threads: ThreadMap, i: int)
  {
    Ranked(t, threads, AnyBufn) && IsBest(t, threads, threads.Keys, AnyBufn, false, i)
  }

  ghost predicate HighestBlockedFor(t: Table, threads: ThreadMap, cpu: bool, i: int)
  {
    Ranked(t, threads, BlockedFor(cpu)) && IsBest(t, threads, threads.Keys, BlockedFor(cpu), false, i)
  }

  /** The only BLOCKED thread may retry its allocation once more. */
  ghost predicate RetriesOnce(s: Core, s': Core, i: int)
    requires i in s.threads && i in s'.threads
  {
    && BlockedIds(s.threads) == {i}
    && s'.threads[i] == s.threads[i].(state := Running, retryBeforeBufn := true)
  }

  /** The lowest of at least two BLOCKED threads is told to roll back. */
  ghost predicate RollsBack(s: Core, s': Core, i: int)
    requires i in s.threads && i in s'.threads
  {
    && s.threads[i].state == Blocked && |BlockedIds(s.threads)| >= 2
    && LowestBlocked(s'.prio, s.threads, i)
    && s'.threads[i] == s.threads[i].(state := BufnThrow)
  }

  /** With every task BUFN, the highest BUFN thread is told to split its input. */
  ghost predicate Splits(s: Core, s': Core, i: int)
    requires i in s.threads && i in s'.threads
  {
    && s.threads[i].state == Bufn
    && HighestBufn(s'.prio, s.threads, i)
    && s'.threads[i] == s.threads[i].(state := SplitThrow)
  }

  lemma BestStable(t: Table, u: Table, threads: ThreadMap, k: Scan, lowest: bool, i: int)
    requires Extends(t, u) && Ranked(t, threads, k)
    requires IsBest(t, threads, threads.Keys, k, lowest, i)
    ensures Ranked(u, threads, k) && IsBest(u, threads, threads.Keys, k, lowest, i)
  {
  }

  lemma OnlyBlocked(threads: ThreadMap, i: int)
    requires i in threads && threads[i].state == Blocked
    ensures |BlockedIds(threads)| >= 1
    ensures |BlockedIds(threads)| == 1 ==> BlockedIds(threads) == {i}
  {
    SubsetSize({i}, BlockedIds(threads));
  }

  /** The scan for a thread to split cannot fall back on a registered thread with id -1. */
  ghost predicate HasTarget(threads: ThreadMap)
  {
    -1 !in threads || exists i :: i in threads && threads[i].state == Bufn
  }

  lemma StillHasTarget(a: ThreadMap, b: ThreadMap)
    requires HasTarget(a) && a.Keys == b.Keys && OneMoves(a, b, Blocked, {Running, BufnThrow})
    ensures HasTarget(b)
  {
  }

  /** Some thread leaves `from` for `to`, and every thread that changes state does so that way. */
  ghost predicate OneMoves(a: ThreadMap, b: ThreadMap, from: ThreadState, to: set<ThreadState>)
    requires a.Keys == b.Keys
  {
    && (forall i | i in a :: b[i].state == a[i].state || (a[i].state == from && b[i].state in to))
    && ((exists i :: i in a && a[i].state == from) ==> exists i :: i in a && a[i].state == from && b[i].state in to)
  }

  /** The first half touches at most one thread, a BLOCKED one. */
  ghost predicate RolledBack(s: Core, s': Core)
  {
    && OnlyThreadsMove(s, s')
    && forall i | i in s.threads ::
         || s'.threads[i] == s.threads[i]
         || (Signalled(s', i) && (RetriesOnce(s, s', i) || RollsBack(s, s', i)))
  }

  /** The second half touches at most one thread, a BUFN one. */
  ghost predicate SplitUp(s: Core, s': Core)
  {
    && OnlyThreadsMove(s, s')
    && forall i | i in s.threads ::
         s'.threads[i] == s.threads[i] || (Signalled(s', i) && Splits(s, s', i))
  }

  lemma OneMovesAfterPut(a: ThreadMap, v: int, th: Thread, from: ThreadState, to: set<ThreadState>)
    requires v in a && a[v].state == from && th.state in to
    ensures OneMoves(a, a[v := th], from, to)
  {
    var b := a[v := th];
    assert a[v].state == from && b[v].state in to;
  }

  lemma NobodyMoves(a: ThreadMap, from: ThreadState, to: set<ThreadState>)
    requires forall i | i in a :: a[i].state != from
    ensures OneMoves(a, a, from, to)
  {
  }

  lemma BestIsSelected(t: Table, threads: ThreadMap, k: Scan, lowest: bool, v: int)
    requires Ranked(t, threads, k) && IsBest(t, threads, threads.Keys, k, lowest, v)
    ensures v in threads && Selected(k, threads[v])
  {
  }

  lemma RollBackEffect(s: Core)
    ensures RolledBack(s, RollBackOne(s))
    ensures OneMoves(s.threads, RollBackOne(s).threads, Blocked, {Running, BufnThrow})
  {
    hide FullScan, Best, IsBest, Ranked, Valid, Extends, BlockedIds, OneMoves;
    var s' := RollBackOne(s);
    var prio := FullScan(s.prio, s.threads, AnyBlocked);
    match Best(prio, s.threads, AnyBlocked, true)
    case None =>
      assert forall i | i in s.threads :: !Selected(AnyBlocked, s.threads[i]);
      NobodyMoves(s.threads, Blocked, {Running, BufnThrow});
    case Some(v) =>
      BestIsSelected(prio, s.threads, AnyBlocked, true, v);
      OnlyBlocked(s.threads, v);
      var th := s'.threads[v];
      assert s'.threads == s.threads[v := th];
      OneMovesAfterPut(s.threads, v, th, Blocked, {Running, BufnThrow});
      assert RetriesOnce(s, s', v) || RollsBack(s, s', v);
  }

  lemma SplitEffect(s: Core)
    requires HasTarget(s.threads)
    ensures SplitUp(s, SplitOne(s))
    ensures OneMoves(s.threads, SplitOne(s).threads, Bufn, {SplitThrow})
  {
    hide FullScan, Best, IsBest, Ranked, Valid, Extends, OneMoves;
    var s' := SplitOne(s);
    var prio := FullScan(s.prio, s.threads, AnyBufn);
    match Best(prio, s.threads, AnyBufn, false)
    case None =>
      assert forall i | i in s.threads :: !Selected(AnyBufn, s.threads[i]);
      NobodyMoves(s.threads, Bufn, {SplitThrow});
    case Some(v) =>
      BestIsSelected(prio, s.threads, AnyBufn, false, v);
      var th := s'.threads[v];
      assert s'.threads == s.threads[v := th];
      OneMovesAfterPut(s.threads, v, th, Bufn, {SplitThrow});
      assert Splits(s, s', v);
  }

  /** A thread's record after one round, in terms of the state before it. */
  ghost predicate RoundMoves(s: Core, java: JavaBlocked, s': Core, i: int)
    requires i in s.threads && i in s'.threads
  {
    || s'.threads[i] == s.threads[i]
    || (&& Deadlocked(s.threads, java) && Signalled(s', i)
        && (|| RetriesOnce(s, s', i) || RollsBack(s, s', i)
            || (AllBufn(s.threads, java) && Splits(s, s', i))))
  }

  /** The first half leaves BUFN threads alone, so the highest one is the same before and after. */
  lemma SameBufn(s: Core, s1: Core, t: Table, i: int)
    requires RolledBack(s, s1)
    requires HighestBufn(t, s1.threads, i)
    ensures i in s.threads && s1.threads[i] == s.threads[i] && HighestBufn(t, s.threads, i)
  {
  }

  /** Both halves together: the second cannot undo or repeat the first. */
  lemma TwoHalvesAt(s: Core, s1: Core, s2: Core, i: int)
    requires RolledBack(s, s1) && SplitUp(s1, s2) && i in s.threads
    ensures
      || s2.threads[i] == s.threads[i]
      || (Signalled(s2, i) && (RetriesOnce(s, s2, i) || RollsBack(s, s2, i) || Splits(s, s2, i)))
  {
    if Splits(s1, s2, i) {
      SameBufn(s, s1, s2.prio, i);
    }
    if s1.threads[i] != s.threads[i] {
      assert s2.threads[i] == s1.threads[i];
      if RollsBack(s, s1, i) {
        BestStable(s1.prio, s2.prio, s.threads, AnyBlocked, true, i);
      }
    }
  }

  /** Victim selection: whatever a round changes is the unique lowest BLOCKED or highest BUFN thread. */
  lemma RoundEffect(s: Core, java: JavaBlocked)
    requires HasTarget(s.threads)
    ensures OnlyThreadsMove(s, CheckAndUpdate(s, java))
    ensures forall i | i in s.threads :: RoundMoves(s, java, CheckAndUpdate(s, java), i)
  {
    hide RollBackOne, SplitOne, Deadlocked, AllBufn;
    if Deadlocked(s.threads, java) {
      var s1 := RollBackOne(s);
      RollBackEffect(s);
      if AllBufn(s.threads, java) {
        StillHasTarget(s.threads, s1.threads);
        SplitEffect(s1);
        forall i | i in s.threads ensures RoundMoves(s, java, SplitOne(s1), i) {
          TwoHalvesAt(s, s1, SplitOne(s1), i);
        }
      }
    }
  }

  // ----- progress -----

  /** The threads that are BLOCKED or BUFN. */
  ghost function Sleepers(threads: ThreadMap): set<int>
  {
    set i | i in threads && IsBlocked(threads[i].state)
  }

  ghost predicate CanBreak(threads: ThreadMap, java: JavaBlocked)
  {
    && Deadlocked(threads, java)
    && (|| BlockedIds(threads) != {}
        || (AllBufn(threads, java) && exists i :: i in threads && threads[i].state == Bufn))
  }

  lemma CanBreakHasSleeper(threads: ThreadMap, java: JavaBlocked)
    requires CanBreak(threads, java)
    ensures Sleepers(threads) != {}
  {
    if BlockedIds(threads) != {} {
      var v := Member(BlockedIds(threads));
      assert v in Sleepers(threads);
    } else {
      var i :| i in threads && threads[i].state == Bufn;
      assert i in Sleepers(threads);
    }
  }

  lemma SomeoneMoves(s: Core, java: JavaBlocked) returns (v: int)
    requires -1 !in s.threads && CanBreak(s.threads, java)
    ensures v in Sleepers(s.threads) && v !in Sleepers(CheckAndUpdate(s, java).threads)
  {
    RollBackEffect(s);
    CanBreakHasSleeper(s.threads, java);
    if AllBufn(s.threads, java) {
      SplitEffect(RollBackOne(s));
      v := SomeoneMovesInTwo(s.threads, RollBackOne(s).threads, SplitOne(RollBackOne(s)).threads);
    } else {
      v := SomeoneMovesInOne(s.threads, RollBackOne(s).threads);
    }
  }

  lemma SomeoneMovesInOne(a: ThreadMap, b: ThreadMap) returns (v: int)
    requires a.Keys == b.Keys && OneMoves(a, b, Blocked, {Running, BufnThrow}) && BlockedIds(a) != {}
    ensures v in Sleepers(a) && v !in Sleepers(b)
  {
    var w := Member(BlockedIds(a));
    v :| v in a && a[v].state == Blocked && b[v].state in {Running, BufnThrow};
  }

  lemma SomeoneMovesInTwo(a: ThreadMap, b: ThreadMap, c: ThreadMap) returns (v: int)
    requires a.Keys == b.Keys == c.Keys && Sleepers(a) != {}
    requires OneMoves(a, b, Blocked, {Running, BufnThrow}) && OneMoves(b, c, Bufn, {SplitThrow})
    ensures v in Sleepers(a) && v !in Sleepers(c)
  {
    var w := Member(Sleepers(a));
    if a[w].state == Bufn {
      assert b[w].state == Bufn;
      v :| v in b && b[v].state == Bufn && c[v].state in {SplitThrow};
    } else {
      assert a[w].state == Blocked;
      v :| v in a && a[v].state == Blocked && b[v].state in {Running, BufnThrow};
    }
  }

  /**
    A round never puts a thread to sleep, and it wakes one exactly when there is a deadlock with a
    BLOCKED thread, or with a BUFN thread once every task is BUFN.
  */
  lemma RoundProgress(s: Core, java: JavaBlocked)
    requires -1 !in s.threads
    ensures Sleepers(CheckAndUpdate(s, java).threads) <= Sleepers(s.threads)
    ensures |Sleepers(CheckAndUpdate(s, java).threads)| <= |Sleepers(s.threads)|
    ensures |Sleepers(CheckAndUpdate(s, java).threads)| < |Sleepers(s.threads)| <==> CanBreak(s.threads, java)
  {
    RoundEffect(s, java);
    RoundShrinks(s, java, CheckAndUpdate(s, java));
    if CanBreak(s.threads, java) {
      var v := SomeoneMoves(s, java);
    }
  }

  /** In a deadlock a round moves a BLOCKED thread if there is one, and a BUFN thread too if every task is BUFN. */
  lemma RoundMovesBoth(s: Core, java: JavaBlocked)
    requires -1 !in s.threads && Deadlocked(s.threads, java)
    ensures CheckAndUpdate(s, java).threads.Keys == s.threads.Keys
    ensures (exists i :: i in s.threads && s.threads[i].state == Blocked) ==>
      exists i :: i in s.threads && s.threads[i].state == Blocked &&
                  CheckAndUpdate(s, java).threads[i].state in {Running, BufnThrow}
    ensures AllBufn(s.threads, java) && (exists i :: i in s.threads && s.threads[i].state == Bufn) ==>
      exists i :: i in s.threads && s.threads[i].state == Bufn &&
                  CheckAndUpdate(s, java).threads[i].state == SplitThrow
  {
    hide RollBackOne, SplitOne, Deadlocked, AllBufn;
    RollBackEffect(s);
    if AllBufn(s.threads, java) {
      SplitEffect(RollBackOne(s));
      BothMove(s.threads, RollBackOne(s).threads, SplitOne(RollBackOne(s)).threads);
    }
  }

  lemma BothMove(a: ThreadMap, b: ThreadMap, c: ThreadMap)
    requires a.Keys == b.Keys == c.Keys
    requires OneMoves(a, b, Blocked, {Running, BufnThrow}) && OneMoves(b, c, Bufn, {SplitThrow})
    ensures (exists i :: i in a && a[i].state == Blocked) ==>
      exists i :: i in a && a[i].state == Blocked && c[i].state in {Running, BufnThrow}
    ensures (exists i :: i in a && a[i].state == Bufn) ==>
      exists i :: i in a && a[i].state == Bufn && c[i].state == SplitThrow
  {
    if v :| v in a && a[v].state == Bufn {
      assert b[v].state == Bufn;
      var w :| w in b && b[w].state == Bufn && c[w].state in {SplitThrow};
      assert w in a.Keys;
      assert a[w].state == Bufn;
    }
    if v :| v in a && a[v].state == Blocked {
      var w :| w in a && a[w].state == Blocked && b[w].state in {Running, BufnThrow};
      assert c[w].state == b[w].state;
    }
  }

  lemma RoundShrinks(s: Core, java: JavaBlocked, s': Core)
    requires OnlyThreadsMove(s, s') && forall i | i in s.threads :: RoundMoves(s, java, s', i)
    ensures Sleepers(s'.threads) <= Sleepers(s.threads)
    ensures |Sleepers(s'.threads)| <= |Sleepers(s.threads)|
    ensures |Sleepers(s'.threads)| == |Sleepers(s.threads)| ==> Sleepers(s'.threads) == Sleepers(s.threads)
    ensures Sleepers(s'.threads) != Sleepers(s.threads) ==> CanBreak(s.threads, java)
  {
    var before, after := Sleepers(s.threads), Sleepers(s'.threads);
    forall i | i in after ensures i in before {
      assert RoundMoves(s, java, s', i);
    }
    SubsetSize(after, before);
    if before != after {
      var v := MissingMember(after, before);
      assert RoundMoves(s, java, s', v);
      assert s.threads[v].state == Blocked ==> v in BlockedIds(s.threads);
    }
  }

  /** With pool tasks covered, a deadlock with any sleeping thread can be broken. */
  lemma CoveredDeadlockBreaks(s: Core, java: JavaBlocked)
    requires Covered(s.threads) && Deadlocked(s.threads, java) && Sleepers(s.threads) != {}
    ensures CanBreak(s.threads, java)
  {
    if BlockedIds(s.threads) == {} {
      forall task | task in AllTasks(s.threads) ensures IsBufnTask(s.threads, java, task) {
        assert HasStuckDedicated(s.threads, java, task);
        var i :| i in s.threads && DedicatedTo(s.threads[i], task) && IsStuck(i, s.threads[i], java);
        assert i !in BlockedIds(s.threads);
        assert HasBufnDedicated(s.threads, java, task);
      }
      AllBufnMeansEveryTask(s.threads, java);
      var v := Member(Sleepers(s.threads));
      assert v !in BlockedIds(s.threads);
      assert s.threads[v].state == Bufn;
    }
  }

  ghost function Rounds(s: Core, java: JavaBlocked, n: nat): Core
    decreases n
  {
    if n == 0 then s else Rounds(CheckAndUpdate(s, java), java, n - 1)
  }

  lemma RoundKeepsCover(s: Core, java: JavaBlocked)
    requires -1 !in s.threads && Covered(s.threads)
    ensures -1 !in CheckAndUpdate(s, java).threads && Covered(CheckAndUpdate(s, java).threads)
  {
    hide CheckAndUpdate, Deadlocked, AllBufn;
    var s' := CheckAndUpdate(s, java);
    RoundEffect(s, java);
    forall i | i in s.threads
      ensures s'.threads[i].taskId == s.threads[i].taskId && s'.threads[i].poolTasks == s.threads[i].poolTasks
    {
      assert RoundMoves(s, java, s', i);
    }
    SameTasks(s.threads, s'.threads);
  }

  lemma SameTasks(a: ThreadMap, b: ThreadMap)
    requires a.Keys == b.Keys
    requires forall i | i in a :: b[i].taskId == a[i].taskId && b[i].poolTasks == a[i].poolTasks
    ensures AllTasks(a) == AllTasks(b) && PoolTasks(a) == PoolTasks(b)
  {
  }

  lemma CoveredRound(s: Core, java: JavaBlocked)
    requires -1 !in s.threads && Covered(s.threads)
    ensures -1 !in CheckAndUpdate(s, java).threads && Covered(CheckAndUpdate(s, java).threads)
    ensures |Sleepers(CheckAndUpdate(s, java).threads)| <= |Sleepers(s.threads)|
    ensures Deadlocked(s.threads, java) && Sleepers(s.threads) != {} ==>
      |Sleepers(CheckAndUpdate(s, java).threads)| < |Sleepers(s.threads)|
  {
    RoundKeepsCover(s, java);
    RoundProgress(s, java);
    if Deadlocked(s.threads, java) && Sleepers(s.threads) != {} {
      CoveredDeadlockBreaks(s, java);
    }
  }

  /** Rounds end: after as many as there are sleeping threads, the deadlock is gone or nobody sleeps. */
  lemma {:induction false} RoundsTerminate(s: Core, java: JavaBlocked, n: nat)
    requires -1 !in s.threads && Covered(s.threads)
    requires |Sleepers(s.threads)| <= n
    ensures !Deadlocked(Rounds(s, java, n).threads, java) || Sleepers(Rounds(s, java, n).threads) == {}
    decreases n
  {
    hide CheckAndUpdate, Deadlocked, Covered;
    if n > 0 {
      if Deadlocked(s.threads, java) {
        CoveredRound(s, java);
        RoundsTerminate(CheckAndUpdate(s, java), java, n - 1);
      } else {
        QuietRounds(s, java, n);
      }
    }
  }

  lemma {:induction false} QuietRounds(s: Core, java: JavaBlocked, n: nat)
    requires !Deadlocked(s.threads, java)
    ensures Rounds(s, java, n) == s
  {
    if n > 0 {
      QuietRounds(s, java, n - 1);
    }
  }
}
