/**
  Runs that show what the assumptions of the theorems are for. They all start with two threads, 10 and
  11, that fail to allocate: 10 is dedicated to task 1, and 11 is dedicated to task 2 or a pool thread on it.
*/
module Witnesses {
  import opened Collections
  import opened TaskPriority
  import opened Threads
  import opened Deadlock
  import opened Scheduler
  import opened Runs
  import opened TotalSleep
  import opened TaskDoneOrder
  import opened RetryCounters

  // ----- building runs -----

  ghost function Last(cs: seq<Config>): Config
    requires cs != []
  {
    cs[|cs| - 1]
  }

  /** A run in which threads leave only while RUNNING, or else one in which pool tasks stay covered. */
  ghost predicate Trail(cs: seq<Config>, es: seq<Event>, covered: bool)
  {
    && IsRun(cs, es)
    && (!covered ==> forall i | 0 <= i < |es| :: LeavesOnlyRunning(cs[i].core, cs[i + 1].core))
    && (covered ==> forall i | 0 <= i < |cs| :: Covered(cs[i].core.threads))
  }

  lemma Extend(cs: seq<Config>, es: seq<Event>, e: Event, covered: bool) returns (cs': seq<Config>, es': seq<Event>)
    requires Trail(cs, es, covered) && Allowed(Last(cs), e)
    requires !covered ==> LeavesOnlyRunning(Last(cs).core, Next(Last(cs), e).core)
    requires covered ==> Covered(Next(Last(cs), e).core.threads)
    ensures Trail(cs', es', covered) && Last(cs') == Next(Last(cs), e)
    ensures es' == es + [e] && |cs'| == |cs| + 1 && cs'[..|cs|] == cs
  {
    hide Next, Allowed, LeavesOnlyRunning, Covered;
    cs', es' := cs + [Next(Last(cs), e)], es + [e];
    forall i | 0 <= i < |es'|
      ensures Allowed(cs'[i], es'[i]) && cs'[i + 1] == Next(cs'[i], es'[i])
      ensures !covered ==> LeavesOnlyRunning(cs'[i].core, cs'[i + 1].core)
    {
      if i < |es| {
        assert cs'[i] == cs[i] && cs'[i + 1] == cs[i + 1] && es'[i] == es[i];
      }
    }
  }

  /** What a configuration looks like to its callers. */
  ghost predicate Scene(c: Config, threads: ThreadMap, brackets: map<int, seq<Bracket>>, waiting: set<int>)
  {
    c.core.threads == threads && c.brackets == brackets && c.core.waiting == waiting
  }

  /** Which threads are linked to which task, and the counters put down for tasks. */
  function Books(c: Config): (map<int, set<int>>, map<int, Metrics>)
  {
    (c.core.taskThreads, c.core.taskMetrics)
  }

  // ----- single steps -----

  lemma Registers(c: Config, t: int, task: int)
    requires t != -1 && task >= 0 && t !in c.core.threads && t !in c.brackets && t !in c.core.waiting
    ensures
      var c' := Next(c, StartDedicatedCall(t, task));
      && Allowed(c, StartDedicatedCall(t, task))
      && Scene(c', c.core.threads[t := FreshThread(task, false)], c.brackets, c.core.waiting)
      && c'.core.prio == c.core.prio && c'.core.taskMetrics == c.core.taskMetrics
      && c'.core.taskThreads == c.core.taskThreads[task := LinkedThreads(c.core, task) + {t}]
  {
  }

  lemma JoinsPool(c: Config, t: int, task: int)
    requires t != -1 && task >= 0 && t !in c.core.threads && t !in c.brackets && t !in c.core.waiting
    ensures
      var c' := Next(c, PoolWorkingCall(false, t, {task}));
      && Allowed(c, PoolWorkingCall(false, t, {task}))
      && Scene(c', c.core.threads[t := FreshThread(-1, false).(poolTasks := {task})], c.brackets, c.core.waiting)
      && c'.core.prio == c.core.prio && Books(c') == Books(c)
  {
    assert c.core.taskMetrics + Increased(c.core.taskMetrics, {}, NO_METRICS) == c.core.taskMetrics;
    assert {} + {task} == {task};
  }

  /** A RUNNING thread starts to allocate device memory. */
  lemma Enters(c: Config, t: int)
    requires t in c.core.threads && c.core.threads[t].state == Running && t !in c.core.waiting
    requires BracketsOf(c, t) == []
    ensures
      var c' := Next(c, PreAllocCall(t, false, true, NoInject));
      && Allowed(c, PreAllocCall(t, false, true, NoInject))
      && Scene(c', c.core.threads[t := c.core.threads[t].(state := Alloc, isCpuAlloc := false)],
               c.brackets[t := [Bracket(false, false)]], c.core.waiting)
      && c'.core.prio == c.core.prio && Books(c') == Books(c)
  {
    assert [] + [Bracket(false, false)] == [Bracket(false, false)];
  }

  /** The allocation runs out of memory; what follows is a round of deadlock breaking. */
  lemma Fails(c: Config, t: int)
    requires t in c.core.threads && c.core.threads[t].state == Alloc && !c.core.threads[t].isCpuAlloc
    requires t in c.brackets && c.brackets[t] == [Bracket(false, false)] && t !in c.core.waiting
    ensures
      var c' := Next(c, PostFailedCall(t, true, true));
      && Allowed(c, PostFailedCall(t, true, true))
      && c'.core == CheckAndUpdate(Failed(c.core, t, true, true), None)
      && c'.brackets == c.brackets[t := []]
  {
    hide CheckAndUpdate;
    assert c.brackets[t][..0] == [];
  }

  /** A thread told to roll back throws its retry exception. */
  lemma Throws(c: Config, t: int)
    requires t in c.core.threads && c.core.threads[t].state == BufnThrow && t !in c.core.waiting
    requires c.core.threads[t].timesRetried == 0
    ensures
      var c' := Next(c, BlockUntilReadyCall(t));
      && Allowed(c, BlockUntilReadyCall(t))
      && Scene(c', c.core.threads[t := CountRetry(c.core.threads[t].(state := BufnWait)).(timesRetried := 1)],
               c.brackets, c.core.waiting)
      && c'.core.prio == c.core.prio && Books(c') == Books(c)
      && Result(c, BlockUntilReadyCall(t)).1 == Threw(RetryOom(c.core.threads[t].isCpuAlloc))
  {
  }

  /** A thread that has rolled back goes to sleep, unless the round it starts tells it to split. */
  lemma GoesToSleep(c: Config, t: int)
    requires t in c.core.threads && c.core.threads[t].state == BufnWait && t !in c.core.waiting
    requires CheckAndUpdate(Move(c.core, t, Bufn), None).threads == Move(c.core, t, Bufn).threads
    requires CheckAndUpdate(Move(c.core, t, Bufn), None).waiting == c.core.waiting
    ensures
      var c' := Next(c, BlockUntilReadyCall(t));
      && Allowed(c, BlockUntilReadyCall(t))
      && Scene(c', c.core.threads[t := c.core.threads[t].(state := Bufn)], c.brackets, c.core.waiting + {t})
  {
    hide CheckAndUpdate;
  }

  // ----- rounds on two threads -----

  const TEN := FreshThread(1, false)

  /** The second thread: of a pool, or dedicated. */
  function Eleven(pool: bool): Thread
  {
    if pool then FreshThread(-1, false).(poolTasks := {2}) else FreshThread(2, false)
  }

  predicate IsTen(a: Thread) { a.taskId == 1 && a.poolTasks == {} && !a.poolBlocked && !a.isForShuffle }

  predicate IsEleven(b: Thread, pool: bool)
  {
    && !b.poolBlocked && !b.isForShuffle
    && (if pool then b.taskId == -1 && b.poolTasks == {2} else b.taskId == 2 && b.poolTasks == {})
  }

  function Both(a: Thread, b: Thread): ThreadMap { map[10 := a, 11 := b] }

  lemma TasksOfBoth(a: Thread, b: Thread, pool: bool)
    requires IsTen(a) && IsEleven(b, pool)
    ensures AllTasks(Both(a, b)) == if pool then {1} else {1, 2}
    ensures PoolTasks(Both(a, b)) == if pool then {2} else {}
  {
    var threads := Both(a, b);
    assert threads[10] == a && threads[11] == b;
    assert threads[10].taskId in AllTasks(threads);
    if pool {
      assert 2 in threads[11].poolTasks;
    } else {
      assert threads[11].taskId in AllTasks(threads);
    }
  }

  /** While 10 runs there is no deadlock. */
  lemma RunningTenIsNoDeadlock(a: Thread, b: Thread, pool: bool)
    requires IsTen(a) && IsEleven(b, pool) && !IsBlocked(a.state)
    ensures !Deadlocked(Both(a, b), None)
  {
    TasksOfBoth(a, b, pool);
    assert !HasStuckDedicated(Both(a, b), None, 1);
  }

  lemma NoDeadlockNoChange(s: Core)
    requires !Deadlocked(s.threads, None)
    ensures CheckAndUpdate(s, None) == s
  {
  }

  /** With both BLOCKED there is a deadlock but no task is BUFN. */
  lemma BothBlocked(a: Thread, b: Thread, pool: bool)
    requires IsTen(a) && IsEleven(b, pool) && a.state == Blocked && b.state == Blocked
    ensures Deadlocked(Both(a, b), None) && !AllBufn(Both(a, b), None)
  {
    var threads := Both(a, b);
    assert threads[10] == a && threads[11] == b;
    TasksOfBoth(a, b, pool);
    assert HasStuckDedicated(threads, None, 1);
    if !pool {
      assert HasStuckDedicated(threads, None, 2);
    }
    NoMemberIsEmpty(BufnTasks(threads, None));
    assert 1 in AllTasks(threads);
  }

  /** Task 1 is asked about first, so 11 ranks below 10. */
  lemma ElevenRanksBelow(a: Thread, b: Thread, pool: bool)
    requires IsTen(a) && IsEleven(b, pool) && a.state == Blocked && b.state == Blocked
    ensures
      var prio := FullScan(INITIAL, Both(a, b), AnyBlocked);
      Best(prio, Both(a, b), AnyBlocked, true) == Some(11)
  {
    hide Best;
    var threads := Both(a, b);
    assert threads.Keys == {10, 11} && threads[10] == a && threads[11] == b;
    var ids: set<int> := {10, 11};
    assert MinOf(ids) == 10;
    assert ids - {10} == {11} && MinOf({11}) == 11 && {11} - {11} == {};
    assert PriorityTask(a) == 1 && PriorityTask(b) == 2;
    var t1 := Fill(INITIAL, 1);
    assert ScanFill(INITIAL, threads, ids, AnyBlocked) == ScanFill(t1, threads, {11}, AnyBlocked);
    assert ScanFill(t1, threads, {11}, AnyBlocked) == Fill(t1, 2);
    var prio := FullScan(INITIAL, threads, AnyBlocked);
    assert Selected(AnyBlocked, threads[11]);
    assert !IsBest(prio, threads, threads.Keys, AnyBlocked, true, 10);
  }

  lemma TwoBlockedIds(a: Thread, b: Thread)
    ensures a.state == Blocked && b.state == Blocked ==> |BlockedIds(Both(a, b))| == 2
    ensures a.state == Blocked && b.state != Blocked ==> BlockedIds(Both(a, b)) == {10}
    ensures a.state != Blocked && b.state != Blocked ==> BlockedIds(Both(a, b)) == {}
  {
    var threads := Both(a, b);
    assert threads[10] == a && threads[11] == b;
    if a.state == Blocked && b.state == Blocked {
      assert BlockedIds(threads) == {10, 11};
    } else if a.state == Blocked {
      assert BlockedIds(threads) == {10};
    }
  }

  lemma RoundOnBothBlocked(s: Core, a: Thread, b: Thread, pool: bool)
    requires IsTen(a) && IsEleven(b, pool) && a.state == Blocked && b.state == Blocked
    requires s.threads == Both(a, b) && s.prio == INITIAL
    ensures CheckAndUpdate(s, None).threads == Both(a, b.(state := BufnThrow))
    ensures CheckAndUpdate(s, None).waiting == s.waiting
    ensures CheckAndUpdate(s, None).taskThreads == s.taskThreads
    ensures CheckAndUpdate(s, None).taskMetrics == s.taskMetrics
  {
    hide FullScan, Best, Deadlocked, AllBufn;
    BothBlocked(a, b, pool);
    ElevenRanksBelow(a, b, pool);
    TwoBlockedIds(a, b);
  }

  // ----- the common beginning -----

  lemma NothingLeaves(a: Core, b: Core)
    requires a.threads.Keys <= b.threads.Keys && forall t | t in b.threads :: b.threads[t].state != RemoveThrow
    ensures LeavesOnlyRunning(a, b)
  {
  }

  lemma CoveredWithoutPool(threads: ThreadMap)
    requires forall t | t in threads :: IsDedicated(threads[t])
    ensures Covered(threads)
  {
  }

  /** Extending a run by a step after which both threads are there. */
  lemma Proceed(cs: seq<Config>, es: seq<Event>, e: Event, a: Thread, b: Thread, pool: bool)
    returns (cs': seq<Config>, es': seq<Event>)
    requires Trail(cs, es, !pool) && Allowed(Last(cs), e)
    requires Last(cs).core.threads.Keys <= {10, 11} && Next(Last(cs), e).core.threads == Both(a, b)
    requires IsTen(a) && IsEleven(b, pool) && a.state != RemoveThrow && b.state != RemoveThrow
    ensures Trail(cs', es', !pool) && Last(cs') == Next(Last(cs), e) && es' == es + [e] && cs'[..|cs|] == cs
  {
    hide Next, Allowed, Covered, LeavesOnlyRunning;
    NothingLeaves(Last(cs).core, Next(Last(cs), e).core);
    if !pool {
      CoveredWithoutPool(Both(a, b));
    }
    cs', es' := Extend(cs, es, e, !pool);
  }

  lemma PairFacts(a: Thread, b: Thread)
    ensures 10 in Both(a, b) && Both(a, b)[10] == a && 11 in Both(a, b) && Both(a, b)[11] == b
    ensures Both(a, b).Keys == {10, 11}
  {
  }

  lemma PutTen(a: Thread, b: Thread, th: Thread)
    ensures Both(a, b)[10 := th] == Both(th, b)
  {
  }

  lemma PutEleven(a: Thread, b: Thread, th: Thread)
    ensures Both(a, b)[11 := th] == Both(a, th)
  {
  }

  /** No counters have been put down, and a pool thread is linked to no task. */
  ghost predicate OnlyTenLinked(c: Config, pool: bool)
  {
    c.core.taskMetrics == map[] && (pool ==> c.core.taskThreads == map[1 := {10}])
  }

  /** Both threads register. */
  lemma BothRegister(pool: bool) returns (cs: seq<Config>, es: seq<Event>)
    ensures Trail(cs, es, !pool) && |es| == 2
    ensures Scene(Last(cs), Both(TEN, Eleven(pool)), map[], {})
    ensures Last(cs).core.prio == INITIAL && OnlyTenLinked(Last(cs), pool)
    ensures forall i | 0 <= i < |es| :: es[i].StartDedicatedCall? || (pool && es[i].PoolWorkingCall?)
  {
    hide Next, Allowed;
    var start := Config(INITIAL_CORE, map[], map[]);
    cs, es := [start], [];
    CoveredWithoutPool(map[]);
    Registers(start, 10, 1);
    NothingLeaves(start.core, Next(start, StartDedicatedCall(10, 1)).core);
    CoveredWithoutPool(map[10 := TEN]);
    cs, es := Extend(cs, es, StartDedicatedCall(10, 1), !pool);
    assert LinkedThreads(INITIAL_CORE, 1) + {10} == {10};
    assert map[][1 := {10}] == map[1 := {10}];
    assert Last(cs).core.taskThreads == map[1 := {10}];
    assert map[10 := TEN][11 := Eleven(pool)] == Both(TEN, Eleven(pool));
    if pool {
      JoinsPool(Last(cs), 11, 2);
      cs, es := Proceed(cs, es, PoolWorkingCall(false, 11, {2}), TEN, Eleven(pool), pool);
    } else {
      Registers(Last(cs), 11, 2);
      cs, es := Proceed(cs, es, StartDedicatedCall(11, 2), TEN, Eleven(pool), pool);
    }
  }

  /** The second thread's attempt begins. */
  lemma ElevenEnters(cs: seq<Config>, es: seq<Event>, a: Thread, b: Thread, pool: bool)
    returns (cs': seq<Config>, es': seq<Event>)
    requires Trail(cs, es, !pool) && Scene(Last(cs), Both(a, b), map[], {})
    requires IsTen(a) && IsEleven(b, pool) && a.state != RemoveThrow && b.state == Running
    ensures Trail(cs', es', !pool) && es' == es + [PreAllocCall(11, false, true, NoInject)]
    ensures Scene(Last(cs'), Both(a, b.(state := Alloc, isCpuAlloc := false)), map[11 := [Bracket(false, false)]], {})
    ensures Last(cs').core.prio == Last(cs).core.prio && Books(Last(cs')) == Books(Last(cs))
  {
    hide Next, Allowed, Both;
    var th := b.(state := Alloc, isCpuAlloc := false);
    PairFacts(a, b);
    Enters(Last(cs), 11);
    PutEleven(a, b, th);
    cs', es' := Proceed(cs, es, PreAllocCall(11, false, true, NoInject), a, th, pool);
  }

  lemma TenEnters(cs: seq<Config>, es: seq<Event>, a: Thread, b: Thread, brackets: map<int, seq<Bracket>>,
                  waiting: set<int>, pool: bool)
    returns (cs': seq<Config>, es': seq<Event>)
    requires Trail(cs, es, !pool) && Scene(Last(cs), Both(a, b), brackets, waiting) && 10 !in waiting
    requires 10 in brackets ==> brackets[10] == []
    requires IsTen(a) && IsEleven(b, pool) && a.state == Running && b.state != RemoveThrow
    ensures cs' != [] && Trail(cs', es', !pool) && es' == es + [PreAllocCall(10, false, true, NoInject)]
    ensures Scene(Last(cs'), Both(a.(state := Alloc, isCpuAlloc := false), b),
                  brackets[10 := [Bracket(false, false)]], waiting)
    ensures Last(cs').core.prio == Last(cs).core.prio && Books(Last(cs')) == Books(Last(cs))
  {
    hide Next, Allowed, Both;
    var th := a.(state := Alloc, isCpuAlloc := false);
    PairFacts(a, b);
    Enters(Last(cs), 10);
    PutTen(a, b, th);
    cs', es' := Proceed(cs, es, PreAllocCall(10, false, true, NoInject), th, b, pool);
  }

  /** The first thread's attempt fails, and the round that follows leaves both threads as given. */
  lemma TenFails(cs: seq<Config>, es: seq<Event>, a: Thread, b: Thread, brackets: map<int, seq<Bracket>>,
                 waiting: set<int>, a': Thread, b': Thread, pool: bool)
    returns (cs': seq<Config>, es': seq<Event>)
    requires Trail(cs, es, !pool) && Scene(Last(cs), Both(a, b), brackets, waiting) && 10 !in waiting
    requires 10 in brackets && brackets[10] == [Bracket(false, false)]
    requires a.state == Alloc && !a.isCpuAlloc
    requires 10 in Last(cs).core.threads
    requires
      var s := CheckAndUpdate(Failed(Last(cs).core, 10, true, true), None);
      s.threads == Both(a', b') && s.waiting == waiting
      && s.taskThreads == Last(cs).core.taskThreads && s.taskMetrics == Last(cs).core.taskMetrics
    requires IsTen(a') && IsEleven(b', pool) && a'.state != RemoveThrow && b'.state != RemoveThrow
    ensures cs' != [] && Trail(cs', es', !pool) && es' == es + [PostFailedCall(10, true, true)]
    ensures Scene(Last(cs'), Both(a', b'), brackets[10 := []], waiting) && Books(Last(cs')) == Books(Last(cs))
  {
    hide Next, Allowed, Both, CheckAndUpdate;
    PairFacts(a, b);
    Fails(Last(cs), 10);
    cs', es' := Proceed(cs, es, PostFailedCall(10, true, true), a', b', pool);
  }

  lemma FailedPair(s: Core, a: Thread, b: Thread)
    requires s.threads == Both(a, b)
    ensures 10 in s.threads && Failed(s, 10, true, true).threads == Both(AfterFailure(a, true, true), b)
    ensures 11 in s.threads && Failed(s, 11, true, true).threads == Both(a, AfterFailure(b, true, true))
    ensures Failed(s, 10, true, true).prio == s.prio && Failed(s, 10, true, true).waiting == s.waiting
    ensures Failed(s, 10, true, true).taskThreads == s.taskThreads
    ensures Failed(s, 10, true, true).taskMetrics == s.taskMetrics
  {
    hide Both, AfterFailure;
    PairFacts(a, b);
    PutTen(a, b, AfterFailure(a, true, true));
    PutEleven(a, b, AfterFailure(b, true, true));
  }

  /** 11 runs out of memory and is BLOCKED, while 10 runs. */
  lemma ElevenBlocks(pool: bool) returns (cs: seq<Config>, es: seq<Event>)
    ensures cs != [] && Trail(cs, es, !pool) && |es| == 4
    ensures Scene(Last(cs), Both(TEN, Eleven(pool).(state := Blocked)), map[11 := []], {})
    ensures Last(cs).core.prio == INITIAL && OnlyTenLinked(Last(cs), pool)
    ensures es[2] == PreAllocCall(11, false, true, NoInject) && es[3] == PostFailedCall(11, true, true)
    ensures forall i | 0 <= i < 2 :: es[i].StartDedicatedCall? || (pool && es[i].PoolWorkingCall?)
  {
    hide Next, Allowed, CheckAndUpdate, Both;
    cs, es := BothRegister(pool);
    var b := Eleven(pool);
    cs, es := ElevenEnters(cs, es, TEN, b, pool);
    PairFacts(TEN, b.(state := Alloc));
    FailedPair(Last(cs).core, TEN, b.(state := Alloc));
    RunningTenIsNoDeadlock(TEN, b.(state := Blocked), pool);
    NoDeadlockNoChange(Failed(Last(cs).core, 11, true, true));
    Fails(Last(cs), 11);
    cs, es := Proceed(cs, es, PostFailedCall(11, true, true), TEN, b.(state := Blocked), pool);
  }

  /** Then 10 runs out of memory too; in the deadlock 11 is told to roll back. */
  lemma ElevenMustRollBack(pool: bool) returns (cs: seq<Config>, es: seq<Event>)
    ensures Trail(cs, es, !pool) && |es| == 6
    ensures Scene(Last(cs), Both(TEN.(state := Blocked), Eleven(pool).(state := BufnThrow)),
                  map[10 := [], 11 := []], {})
    ensures OnlyTenLinked(Last(cs), pool)
  {
    hide Next, Allowed, CheckAndUpdate, Both, Trail;
    cs, es := ElevenBlocks(pool);
    var a, b := TEN.(state := Blocked), Eleven(pool).(state := Blocked);
    cs, es := TenEnters(cs, es, TEN, b, map[11 := []], {}, pool);
    FailedPair(Last(cs).core, TEN.(state := Alloc), b);
    RoundOnBothBlocked(Failed(Last(cs).core, 10, true, true), a, b, pool);
    cs, es := TenFails(cs, es, TEN.(state := Alloc), b, map[11 := []][10 := [Bracket(false, false)]], {},
                       a, b.(state := BufnThrow), pool);
    assert map[11 := []][10 := [Bracket(false, false)]][10 := []] == map[10 := [], 11 := []];
  }

  /** 11 has thrown its retry exception and has not come back yet. */
  function RolledBack(pool: bool): Thread
  {
    CountRetry(Eleven(pool).(state := BufnWait)).(timesRetried := 1)
  }

  lemma ElevenRollsBack(pool: bool) returns (cs: seq<Config>, es: seq<Event>)
    ensures Trail(cs, es, !pool) && |es| == 7 && Result(cs[6], es[6]).1 == Threw(RetryOom(false)) && es[6].t == 11
    ensures Scene(Last(cs), Both(TEN.(state := Blocked), RolledBack(pool)), map[10 := [], 11 := []], {})
    ensures OnlyTenLinked(Last(cs), pool)
  {
    hide Next, Allowed, Both;
    cs, es := ElevenMustRollBack(pool);
    var a, b := TEN.(state := Blocked), Eleven(pool).(state := BufnThrow);
    PairFacts(a, b);
    Throws(Last(cs), 11);
    PutEleven(a, b, RolledBack(pool));
    cs, es := Proceed(cs, es, BlockUntilReadyCall(11), a, RolledBack(pool), pool);
  }

  // ----- a non-blocking request finds an unexpected state -----

  /** After a retry exception a non-blocking request for host memory is refused as unexpected. */
  lemma NonBlockingRequestIsRefused() returns (cs: seq<Config>, es: seq<Event>)
    ensures IsRun(cs, es) && Allowed(Last(cs), PreAllocCall(11, true, false, NoInject))
    ensures 11 in Last(cs).core.threads && Last(cs).core.threads[11].state == BufnWait
    ensures Result(Last(cs), PreAllocCall(11, true, false, NoInject)).1 == Threw(UnexpectedPreAlloc)
  {
    cs, es := ElevenRollsBack(false);
  }

  // ----- a total sleep when a thread leaves early -----

  /**
    Threads must leave only while RUNNING: a run that stays covered, in which 11 leaves while it still
    has to roll back. Nobody is woken for that, and 10 sleeps for good.
  */
  lemma EarlyLeaveEndsInTotalSleep() returns (cs: seq<Config>, es: seq<Event>)
    ensures IsRun(cs, es) && forall i | 0 <= i < |cs| :: Covered(cs[i].core.threads)
    ensures SomeDedicated(Last(cs).core.threads) && !SomeAwake(Last(cs).core.threads)
  {
    hide Next, Allowed, Covered;
    cs, es := ElevenMustRollBack(false);
    var c, a, b := Last(cs), TEN.(state := Blocked), Eleven(false).(state := BufnThrow);
    Leaves(c, a, b);
    CoveredWithoutPool(Next(c, RemoveAssociationCall(11, 2)).core.threads);
    cs, es := Extend(cs, es, RemoveAssociationCall(11, 2), true);
    assert 10 in Last(cs).core.threads && IsDedicated(Last(cs).core.threads[10]);
  }

  lemma Removing(c: Config, t: int, task: int)
    requires NoEraseInside(c, RemoveAssociation(c.core, t, task))
    ensures Allowed(c, RemoveAssociationCall(t, task))
    ensures Next(c, RemoveAssociationCall(t, task)) == c.(core := RemoveAssociation(c.core, t, task))
  {
    hide RemoveAssociation;
  }

  /** What a removal makes of a dedicated thread that does not run. */
  lemma RemovesDedicated(s: Core, t: int)
    requires t in s.threads && s.threads[t].taskId >= 0 && s.threads[t].state != Running
    ensures
      var th, s' := s.threads[t], RemoveAssociation(s, t, s.threads[t].taskId);
      && s'.threads == (if IsBlocked(th.state) then s.threads[t := th.(state := RemoveThrow, metrics := NO_METRICS)]
                        else s.threads - {t})
      && s'.waiting == s.waiting
  {
    hide WakeAfterFinish;
    var th := s.threads[t];
    assert s.threads[t := th.(metrics := NO_METRICS)] - {t} == s.threads - {t};
    assert s.threads[t := th.(metrics := NO_METRICS)][t := th.(state := RemoveThrow, metrics := NO_METRICS)]
        == s.threads[t := th.(state := RemoveThrow, metrics := NO_METRICS)];
  }

  lemma Leaves(c: Config, a: Thread, b: Thread)
    requires Scene(c, Both(a, b), map[10 := [], 11 := []], {}) && IsEleven(b, false) && b.state == BufnThrow
    ensures Allowed(c, RemoveAssociationCall(11, 2))
    ensures Next(c, RemoveAssociationCall(11, 2)).core.threads == map[10 := a]
  {
    hide Both, RemoveAssociation, Allowed, Next;
    PairFacts(a, b);
    RemovesDedicated(c.core, 11);
    Erased(a, b);
    Removing(c, 11, 2);
  }

  lemma Erased(a: Thread, b: Thread)
    ensures Both(a, b) - {11} == map[10 := a]
  {
  }

  // ----- a total sleep when pool tasks are not covered -----

  /** 10 is BLOCKED and nobody is BUFN: a deadlock without any BUFN task. */
  lemma OnlyTenBlocked(a: Thread, b: Thread)
    requires IsTen(a) && IsEleven(b, true) && a.state == Blocked && !IsBlocked(b.state)
    ensures Deadlocked(Both(a, b), Some({})) && !AllBufn(Both(a, b), Some({}))
  {
    var threads := Both(a, b);
    assert threads[10] == a && threads[11] == b;
    TasksOfBoth(a, b, true);
    assert HasStuckDedicated(threads, Some({}), 1);
    NoMemberIsEmpty(BufnTasks(threads, Some({})));
    assert 1 in AllTasks(threads);
  }

  lemma OnlyTenIsBest(t: Table, a: Thread, b: Thread)
    requires a.state == Blocked && b.state != Blocked
    ensures var prio := FullScan(t, Both(a, b), AnyBlocked); Best(prio, Both(a, b), AnyBlocked, true) == Some(10)
  {
    hide FullScan, Best;
    var threads := Both(a, b);
    assert threads[10] == a && threads[11] == b;
    assert Selected(AnyBlocked, threads[10]) && !Selected(AnyBlocked, threads[11]);
  }

  /** The watchdog finds 10 the only BLOCKED thread and grants it another attempt. */
  lemma TenMayRetry(s: Core)
    requires s.threads == Both(TEN.(state := Blocked), RolledBack(true))
    ensures CheckAndUpdate(s, Some({})).threads == Both(TEN.(retryBeforeBufn := true), RolledBack(true))
    ensures CheckAndUpdate(s, Some({})).waiting == s.waiting
  {
    hide FullScan, Best, Deadlocked, AllBufn, Both, BlockedIds;
    var a, b := TEN.(state := Blocked), RolledBack(true);
    OnlyTenBlocked(a, b);
    OnlyTenIsBest(s.prio, a, b);
    TwoBlockedIds(a, b);
    PairFacts(a, b);
    PutTen(a, b, a.(retryBeforeBufn := true));
    PairFacts(a.(retryBeforeBufn := true), b);
    PutTen(a.(retryBeforeBufn := true), b, TEN.(retryBeforeBufn := true));
  }

  /** Both are BUFN: a deadlock that the size test does not see through, because task 2 is a stray. */
  lemma RoundOnBothBufn(s: Core, a: Thread, b: Thread)
    requires IsTen(a) && IsEleven(b, true) && a.state == Bufn && b.state == Bufn && s.threads == Both(a, b)
    ensures CheckAndUpdate(s, None).threads == s.threads && CheckAndUpdate(s, None).waiting == s.waiting
  {
    hide FullScan, Best, SplitOne;
    var threads := Both(a, b);
    assert threads[10] == a && threads[11] == b;
    TasksOfBoth(a, b, true);
    assert HasBufnDedicated(threads, None, 1);
    assert 11 in PoolThreadsOf(threads, 2);
    assert BufnTasks(threads, None) == {1, 2};
    TwoBlockedIds(a, b);
    assert !Selected(AnyBlocked, threads[10]) && !Selected(AnyBlocked, threads[11]);
  }

  /** 11 sleeps in BUFN while 10 is about to retry. */
  lemma ElevenSleeps() returns (cs: seq<Config>, es: seq<Event>)
    ensures cs != [] && Trail(cs, es, false) && |es| == 9
    ensures Scene(Last(cs), Both(TEN.(retryBeforeBufn := true), RolledBack(true).(state := Bufn)),
                  map[10 := [], 11 := []], {11})
  {
    hide Next, Allowed, CheckAndUpdate, Both;
    cs, es := ElevenRollsBack(true);
    var a, b := TEN.(retryBeforeBufn := true), RolledBack(true);
    PairFacts(TEN.(state := Blocked), b);
    Watched(Last(cs));
    TenMayRetry(Last(cs).core);
    cs, es := Proceed(cs, es, CheckDeadlocksCall({}), a, b, true);
    PairFacts(a, b);
    PutEleven(a, b, b.(state := Bufn));
    RunningTenIsNoDeadlock(a, b.(state := Bufn), true);
    NoDeadlockNoChange(Move(Last(cs).core, 11, Bufn));
    GoesToSleep(Last(cs), 11);
    cs, es := Proceed(cs, es, BlockUntilReadyCall(11), a, b.(state := Bufn), true);
  }

  lemma Watched(c: Config)
    ensures Allowed(c, CheckDeadlocksCall({}))
    ensures Next(c, CheckDeadlocksCall({})).core == CheckAndUpdate(c.core, Some({}))
    ensures Next(c, CheckDeadlocksCall({})).brackets == c.brackets
  {
  }

  /** 10 fails its retry as well and is told to roll back. */
  lemma TenMustRollBack() returns (cs: seq<Config>, es: seq<Event>)
    ensures Trail(cs, es, false) && |es| == 11
    ensures Scene(Last(cs), Both(TEN.(state := BufnThrow), RolledBack(true).(state := Bufn)),
                  map[10 := [], 11 := []], {11})
  {
    hide Next, Allowed, CheckAndUpdate, Both, Trail;
    cs, es := ElevenSleeps();
    var a, b, told := TEN.(retryBeforeBufn := true), RolledBack(true).(state := Bufn), TEN.(state := BufnThrow);
    var brackets := map[10 := [], 11 := []];
    cs, es := TenEnters(cs, es, a, b, brackets, {11}, true);
    FailedPair(Last(cs).core, a.(state := Alloc), b);
    RunningTenIsNoDeadlock(told, b, true);
    NoDeadlockNoChange(Failed(Last(cs).core, 10, true, true));
    cs, es := TenFails(cs, es, a.(state := Alloc), b, brackets[10 := [Bracket(false, false)]], {11}, told, b, true);
    assert brackets[10 := [Bracket(false, false)]][10 := []] == brackets;
  }

  lemma TenRollsBack() returns (cs: seq<Config>, es: seq<Event>)
    ensures Trail(cs, es, false) && |es| == 12
    ensures Scene(Last(cs),
                  Both(CountRetry(TEN.(state := BufnWait)).(timesRetried := 1), RolledBack(true).(state := Bufn)),
                  map[10 := [], 11 := []], {11})
  {
    hide Next, Allowed, Both;
    cs, es := TenMustRollBack();
    var told, b := TEN.(state := BufnThrow), RolledBack(true).(state := Bufn);
    PairFacts(told, b);
    Throws(Last(cs), 10);
    var back := CountRetry(TEN.(state := BufnWait)).(timesRetried := 1);
    PutTen(told, b, back);
    cs, es := Proceed(cs, es, BlockUntilReadyCall(10), back, b, true);
  }

  /**
    Pool tasks must be covered: a run in which threads leave only while RUNNING, with a pool thread on a
    task of its own, that ends with a dedicated thread registered and everybody asleep.
  */
  lemma UncoveredRunEndsInTotalSleep() returns (cs: seq<Config>, es: seq<Event>)
    ensures IsRun(cs, es) && |es| == 13 && forall i | 0 <= i < |es| :: LeavesOnlyRunning(cs[i].core, cs[i + 1].core)
    ensures !Covered(Last(cs).core.threads)
    ensures SomeDedicated(Last(cs).core.threads) && !SomeAwake(Last(cs).core.threads)
    ensures Last(cs).core.waiting == {10, 11}
  {
    hide Next, Allowed, CheckAndUpdate, LeavesOnlyRunning;
    cs, es := TenRollsBack();
    var back, b := CountRetry(TEN.(state := BufnWait)).(timesRetried := 1), RolledBack(true).(state := Bufn);
    PairFacts(back, b);
    PutTen(back, b, back.(state := Bufn));
    RoundOnBothBufn(Move(Last(cs).core, 10, Bufn), back.(state := Bufn), b);
    GoesToSleep(Last(cs), 10);
    cs, es := Proceed(cs, es, BlockUntilReadyCall(10), back.(state := Bufn), b, true);
    TasksOfBoth(back.(state := Bufn), b, true);
    assert 2 in PoolTasks(Last(cs).core.threads);
    assert IsDedicated(Last(cs).core.threads[10]);
    assert {11} + {10} == {10, 11};
  }

  // ----- a retry that is lost -----

  lemma ToldToThrow(c: Config, a: Thread, b: Thread)
    requires Scene(c, Both(a, b), map[11 := []], {}) && IsEleven(b, false) && b.state == Blocked
    requires b.metrics == NO_METRICS
    ensures Allowed(c, RemoveAssociationCall(11, 2))
    ensures Scene(Next(c, RemoveAssociationCall(11, 2)), Both(a, b.(state := RemoveThrow)), map[11 := []], {})
  {
    hide Both, RemoveAssociation, Allowed, Next;
    PairFacts(a, b);
    RemovesDedicated(c.core, 11);
    PutEleven(a, b, b.(state := RemoveThrow));
    Removing(c, 11, 2);
  }

  lemma Injected(c: Config, a: Thread, b: Thread)
    requires Scene(c, Both(a, b), map[11 := []], {}) && b.state == RemoveThrow
    ensures Allowed(c, PreAllocCall(11, false, true, ForceRetry))
    ensures IsLate(c, PreAllocCall(11, false, true, ForceRetry))
    ensures Scene(Next(c, PreAllocCall(11, false, true, ForceRetry)), Both(a, CountRetry(b)), map[11 := []], {})
  {
    hide Both, BlockUntilReady;
    PairFacts(a, b);
    PutEleven(a, b, CountRetry(b));
  }

  lemma ThrowsAndGoes(c: Config, a: Thread, b: Thread)
    requires Scene(c, Both(a, b), map[11 := []], {}) && b.state == RemoveThrow
    ensures Allowed(c, BlockUntilReadyCall(11))
    ensures Result(c, BlockUntilReadyCall(11)).1 == Threw(ThreadRemoved)
    ensures Next(c, BlockUntilReadyCall(11)).core.threads == map[10 := a]
    ensures Lost(c, BlockUntilReadyCall(11), b.taskId) == b.metrics.retryThrows
  {
    hide Both, CheckAndUpdate;
    PairFacts(a, b);
    Erased(a, b);
  }

  lemma LateInjection() returns (cs: seq<Config>, es: seq<Event>)
    ensures Trail(cs, es, true) && AllCountable(es) && |es| == 6 && IsLate(cs[5], es[5])
    ensures Scene(Last(cs), Both(TEN, CountRetry(Eleven(false).(state := RemoveThrow))), map[11 := []], {})
  {
    hide Next, Allowed, Both, IsLate, Covered;
    cs, es := ElevenBlocks(false);
    var b, told := Eleven(false).(state := Blocked), Eleven(false).(state := RemoveThrow);
    ToldToThrow(Last(cs), TEN, b);
    AllDedicated(TEN, told);
    cs, es := Extend(cs, es, RemoveAssociationCall(11, 2), true);
    Injected(Last(cs), TEN, told);
    AllDedicated(TEN, CountRetry(told));
    cs, es := Extend(cs, es, PreAllocCall(11, false, true, ForceRetry), true);
  }

  /**
    A retry can be lost: 11 is removed while BLOCKED, a retry is injected into it before it has thrown on
    removal, and with its entry the count is gone.
  */
  lemma LateInjectionIsLost() returns (cs: seq<Config>, es: seq<Event>)
    ensures IsRun(cs, es) && AllCountable(es) && |es| == 7
    ensures IsLate(cs[5], es[5]) && Lost(cs[6], es[6], 2) == 1
    ensures TotalReported(cs, es, 7, 2) + Unreported(cs[7].core, 2) != TotalThrown(cs, es, 7, 2)
  {
    hide Next, Allowed, Both, IsLate, Lost, Covered, TakesRetriesAway, TotalReported, TotalThrown, Unreported,
      LeavesOnlyRunning;
    cs, es := LateInjection();
    ThrowsAndGoes(Last(cs), TEN, CountRetry(Eleven(false).(state := RemoveThrow)));
    CoveredWithoutPool(map[10 := TEN]);
    var before := cs;
    cs, es := Extend(cs, es, BlockUntilReadyCall(11), true);
    assert cs[5] == before[5] && cs[6] == before[6];
    LostAsGuarded(cs[6], es[6], 2);
    RetriesAreConserved(cs, es, 7, 2);
  }

  lemma AllDedicated(a: Thread, b: Thread)
    requires IsDedicated(a) && IsDedicated(b)
    ensures Covered(Both(a, b))
  {
    CoveredWithoutPool(Both(a, b));
  }

  // ----- a retry that is credited to no task -----

  lemma TenHasNothingToLeave(s: Core, a: Thread, b: Thread)
    requires s.threads == Both(a, b) && IsTen(a)
    ensures LeaveTask(s, 10, 2) == (s, false)
  {
    PairFacts(a, b);
  }

  lemma ElevenLeaves(s: Core, a: Thread, b: Thread)
    requires s.threads == Both(a, b) && IsEleven(b, true) && b.state == BufnWait && 2 !in s.taskThreads
    ensures
      var r := LeaveTask(s, 11, 2);
      r.0.threads == map[10 := a] && r.0.taskMetrics == s.taskMetrics && r.0.taskThreads == s.taskThreads && !r.1
  {
    hide LeaveTask, Both;
    PairFacts(a, b);
    LeavesOnItsOwn(s, 11, 2);
    LastTaskLeaving(b, 2);
    PoolCountsAreDropped(s, 11, 2);
    Erased(a, b);
  }

  lemma ElevenDropsTaskTwo(s: Core, a: Thread, b: Thread)
    requires s.threads == Both(a, b) && IsTen(a) && IsEleven(b, true) && b.state == BufnWait
    requires 2 !in s.taskThreads
    ensures
      var r := LeaveAll(s, {10, 11}, 2);
      r.0.threads == map[10 := a] && r.0.taskMetrics == s.taskMetrics && r.0.taskThreads == s.taskThreads && !r.1
  {
    hide LeaveTask, Both;
    PairFacts(a, b);
    TenHasNothingToLeave(s, a, b);
    ElevenLeaves(s, a, b);
    var ids: set<int> := {10, 11};
    assert MinOf(ids) == 10 && ids - {10} == {11};
    assert MinOf({11}) == 11 && {11} - {11} == {};
  }

  lemma FinishesTaskTwo(c: Config, a: Thread, b: Thread)
    requires Scene(c, Both(a, b), map[10 := [], 11 := []], {}) && OnlyTenLinked(c, true)
    requires IsTen(a) && IsEleven(b, true) && b.state == BufnWait
    ensures Allowed(c, TaskDoneCall(2))
    ensures Next(c, TaskDoneCall(2)).core.threads == map[10 := a]
    ensures Next(c, TaskDoneCall(2)).core.taskMetrics == map[]
  {
    hide LeaveAll, Both;
    PairFacts(a, b);
    ElevenDropsTaskTwo(c.core, a, b);
  }

  /**
    A retry that nobody is told of: pool thread 11 throws one while it works for task 2 alone; then task 2
    is done, 11 is gone, and the count stands nowhere.
  */
  lemma PoolRetryIsDropped() returns (cs: seq<Config>, es: seq<Event>)
    ensures IsRun(cs, es) && |es| == 8 && es[7] == TaskDoneCall(2)
    ensures Result(cs[6], es[6]).1 == Threw(RetryOom(false)) && es[6].t == 11
    ensures 11 in cs[7].core.threads && cs[7].core.threads[11].poolTasks == {2}
    ensures cs[7].core.threads[11].metrics.retryThrows == 1
    ensures 11 !in cs[8].core.threads && cs[8].core.taskMetrics == map[]
  {
    hide Next, Allowed, Both;
    cs, es := ElevenRollsBack(true);
    var a, b := TEN.(state := Blocked), RolledBack(true);
    PairFacts(a, b);
    FinishesTaskTwo(Last(cs), a, b);
    cs, es := cs + [Next(Last(cs), TaskDoneCall(2))], es + [TaskDoneCall(2)];
  }
}
